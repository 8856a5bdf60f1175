/**
 * The logfmt value formatting of the access logger: a value that contains a
 * space, an equals sign or a double quote is wrapped in double quotes with
 * every inner double quote escaped by a backslash; any other value is
 * written as it is.
 */
module AccessLogger {
  import opened Strings

  predicate NeedsQuoting(s: string)
  {
    ' ' in s || '=' in s || '"' in s
  }

  function FormatValue(s: string): (r: string)
    ensures !NeedsQuoting(s) ==> r == s
    ensures NeedsQuoting(s) ==> |r| >= 2 && r[0] == '"' && r[|r| - 1] == '"'
    ensures NeedsQuoting(s) ==> QuotesEscaped(r[1..|r| - 1])
  {
    if NeedsQuoting(s) then
      EscapedHasNoBareQuote(s);
      "\"" + EscapeQuotes(s) + "\""
    else s
  }

  /** Every double quote in t is preceded by a backslash, so t cannot end a quoted value early. */
  predicate QuotesEscaped(t: string)
  {
    forall i :: 0 <= i < |t| && t[i] == '"' ==> i > 0 && t[i - 1] == '\\'
  }

  lemma {:induction false} EscapedHasNoBareQuote(s: string)
    ensures QuotesEscaped(EscapeQuotes(s))
    decreases |s|
  {
    if |s| > 0 {
      EscapedHasNoBareQuote(s[1..]);
      var head := if s[0] == '"' then "\\\"" else [s[0]];
      var t := head + EscapeQuotes(s[1..]);
      forall i | 0 <= i < |t| && t[i] == '"'
        ensures i > 0 && t[i - 1] == '\\'
      {
        if i >= |head| {
          assert EscapeQuotes(s[1..])[i - |head|] == '"';
          if i - |head| == 0 {
            assert false;
          }
        }
      }
    }
  }

  /** The reading of a logfmt value: a quoted value loses its quotes and its `\"` escapes. */
  function ParseValue(t: string): string
  {
    if |t| >= 2 && t[0] == '"' && t[|t| - 1] == '"' then Unescape(t[1..|t| - 1]) else t
  }

  function Unescape(t: string): string
    decreases |t|
  {
    if |t| >= 2 && t[0] == '\\' && t[1] == '"' then "\"" + Unescape(t[2..])
    else if |t| == 0 then ""
    else [t[0]] + Unescape(t[1..])
  }

  lemma {:induction false} UnescapeEscape(s: string)
    ensures Unescape(EscapeQuotes(s)) == s
    decreases |s|
  {
    if |s| > 0 {
      UnescapeEscape(s[1..]);
      var rest := EscapeQuotes(s[1..]);
      if s[0] == '"' {
        assert EscapeQuotes(s) == "\\\"" + rest;
        assert (EscapeQuotes(s))[2..] == rest;
      } else {
        assert EscapeQuotes(s) == [s[0]] + rest;
        assert (EscapeQuotes(s))[1..] == rest;
        if s[0] == '\\' && |rest| > 0 {
          // the character after an original backslash is never a bare quote
          assert rest[0] != '"' by {
            if |s[1..]| > 0 && s[1] == '"' {
              assert rest[0] == '\\';
            } else if |s[1..]| > 0 {
              assert rest[0] == s[1];
            }
          }
        }
      }
    }
  }

  /** Reading back a formatted value gives the original text. */
  lemma FormatValueRoundTrip(s: string)
    ensures ParseValue(FormatValue(s)) == s
  {
    if NeedsQuoting(s) {
      UnescapeEscape(s);
      var r := FormatValue(s);
      assert r[1..|r| - 1] == EscapeQuotes(s);
    }
  }
}
