/**
 * The application logger's level filter and its value sanitiser: a message
 * is written when its level ranks at least as high as the configured one,
 * and every logged key or value is flattened onto one line with its runs of
 * white space collapsed to single spaces.
 */
module AppLogger {
  import opened Wrappers
  import opened Strings

  /** The level names ordered from least to most severe. */
  const LevelNames: seq<string> := ["debug", "info", "warn", "error", "panic"]

  /** The rank table of shouldLog; a name missing from it looks up the zero rank. */
  function Rank(level: string): nat
  {
    var ranks := map["debug" := 0, "info" := 1, "warn" := 2, "error" := 3, "panic" := 4];
    if level in ranks then ranks[level] else 0
  }

  predicate ShouldLog(level: string, configured: string)
  {
    Rank(level) >= Rank(configured)
  }

  /** Between named levels the filter is the severity order of LevelNames. */
  lemma ShouldLogFollowsSeverity(i: nat, j: nat)
    requires i < |LevelNames| && j < |LevelNames|
    ensures ShouldLog(LevelNames[i], LevelNames[j]) <==> i >= j
  {
  }

  /** An unnamed level behaves as debug: it passes only a debug configuration or an unnamed one. */
  lemma UnknownLevelIsDebug(level: string, configured: string)
    requires level !in LevelNames
    ensures ShouldLog(level, configured) <==> ShouldLog("debug", configured)
    ensures ShouldLog(configured, level)
  {
  }

  /** Every character of s equal to from is replaced by to (strings.ReplaceAll for one character). */
  function ReplaceChar(s: string, from: char, to: char): (r: string)
    ensures |r| == |s|
    ensures forall i :: 0 <= i < |s| ==> r[i] == (if s[i] == from then to else s[i])
    decreases |s|
  {
    if |s| == 0 then "" else [if s[0] == from then to else s[0]] + ReplaceChar(s[1..], from, to)
  }

  predicate IsWord(w: string)
  {
    |w| > 0 && forall i :: 0 <= i < |w| ==> !IsSpace(w[i])
  }

  /** Length of the leading run of non-space characters. */
  function WordLength(s: string): (n: nat)
    ensures n <= |s|
    ensures forall i :: 0 <= i < n ==> !IsSpace(s[i])
    ensures n < |s| ==> IsSpace(s[n])
    decreases |s|
  {
    if |s| == 0 || IsSpace(s[0]) then 0 else 1 + WordLength(s[1..])
  }

  /** strings.Fields: the maximal runs of non-space characters, in order. */
  function Fields(s: string): (ws: seq<string>)
    ensures forall i :: 0 <= i < |ws| ==> IsWord(ws[i])
    decreases |s|
  {
    if |s| == 0 then []
    else if IsSpace(s[0]) then Fields(s[1..])
    else
      var n := WordLength(s);
      [s[..n]] + Fields(s[n..])
  }

  /** A one-line text: no white space but single inner spaces, and none at either end. */
  predicate Normalised(t: string)
  {
    && (forall i :: 0 <= i < |t| && IsSpace(t[i]) ==> t[i] == ' ')
    && (|t| > 0 ==> t[0] != ' ' && t[|t| - 1] != ' ')
    && (forall i :: 0 <= i < |t| - 1 && t[i] == ' ' ==> t[i + 1] != ' ')
  }

  /**
   * toString of a logged value v, given as the text of its %v rendering
   * (None for a nil value).
   */
  function ToString(v: Option<string>): (r: string)
    ensures v.None? ==> r == ""
    ensures Normalised(r)
    ensures '\n' !in r && '\r' !in r && '\t' !in r
  {
    match v
    case None => ""
    case Some(text) =>
      var flat := ReplaceChar(ReplaceChar(ReplaceChar(text, '\n', ' '), '\r', ' '), '\t', ' ');
      JoinedWordsNormalised(Fields(flat));
      Join(Fields(flat), ' ')
  }

  lemma {:induction false} JoinedWordsNormalised(ws: seq<string>)
    requires forall i :: 0 <= i < |ws| ==> IsWord(ws[i])
    ensures Normalised(Join(ws, ' '))
    ensures |ws| > 0 ==> |Join(ws, ' ')| > 0
    decreases |ws|
  {
    if |ws| > 1 {
      JoinedWordsNormalised(ws[1..]);
      var w := ws[0];
      var rest := Join(ws[1..], ' ');
      var t := w + [' '] + rest;
      assert Join(ws, ' ') == t;
      forall i | 0 <= i < |t| && IsSpace(t[i])
        ensures t[i] == ' '
      {
        if i > |w| {
          assert t[i] == rest[i - |w| - 1];
        }
      }
      forall i | 0 <= i < |t| - 1 && t[i] == ' '
        ensures t[i + 1] != ' '
      {
        if i == |w| {
          assert t[i + 1] == rest[0];
        } else if i > |w| {
          assert t[i] == rest[i - |w| - 1];
          assert t[i + 1] == rest[i - |w|];
        }
      }
      assert t[|t| - 1] == rest[|rest| - 1];
    }
  }

  /** Splitting single-space-joined words into fields gives the words back. */
  lemma {:induction false} FieldsOfJoin(ws: seq<string>)
    requires forall i :: 0 <= i < |ws| ==> IsWord(ws[i])
    ensures Fields(Join(ws, ' ')) == ws
    decreases |ws|
  {
    if |ws| == 1 {
      WordIsOneField(ws[0], "");
      assert ws[0] + "" == ws[0];
    } else if |ws| > 1 {
      var rest := Join(ws[1..], ' ');
      assert Join(ws, ' ') == ws[0] + ([' '] + rest);
      WordIsOneField(ws[0], [' '] + rest);
      SpaceThenFields(rest);
      FieldsOfJoin(ws[1..]);
      assert [ws[0]] + ws[1..] == ws;
    }
  }

  lemma SpaceThenFields(rest: string)
    ensures Fields([' '] + rest) == Fields(rest)
  {
    assert ([' '] + rest)[1..] == rest;
  }

  /** A word followed by nothing or by a space is one field, and the fields go on after it. */
  lemma WordIsOneField(w: string, tail: string)
    requires IsWord(w)
    requires |tail| == 0 || IsSpace(tail[0])
    ensures Fields(w + tail) == [w] + Fields(tail)
  {
    var s := w + tail;
    WordLengthOf(w, tail);
    assert s[..|w|] == w;
    assert s[|w|..] == tail;
    if |tail| > 0 {
      assert tail[1..] == s[|w|..][1..];
    }
  }

  lemma {:induction false} WordLengthOf(w: string, tail: string)
    requires forall i :: 0 <= i < |w| ==> !IsSpace(w[i])
    requires |tail| == 0 || IsSpace(tail[0])
    ensures WordLength(w + tail) == |w|
    decreases |w|
  {
    if |w| > 0 {
      assert (w + tail)[1..] == w[1..] + tail;
      WordLengthOf(w[1..], tail);
    }
  }

  /** Replacing a space character by another space character changes no field. */
  lemma {:induction false} FieldsIgnoreSpaceKind(s: string, from: char, to: char)
    requires IsSpace(from) && IsSpace(to)
    ensures Fields(ReplaceChar(s, from, to)) == Fields(s)
    decreases |s|
  {
    if |s| > 0 {
      if IsSpace(s[0]) {
        ReplaceFrom(s, from, to, 1);
        FieldsIgnoreSpaceKind(s[1..], from, to);
      } else {
        var n := WordLength(s);
        WordLengthSame(s, from, to);
        WordKept(s, from, to);
        ReplaceFrom(s, from, to, n);
        FieldsIgnoreSpaceKind(s[n..], from, to);
      }
    }
  }

  lemma ReplaceFrom(s: string, from: char, to: char, n: nat)
    requires n <= |s|
    ensures ReplaceChar(s, from, to)[n..] == ReplaceChar(s[n..], from, to)
  {
  }

  /** The leading word contains no space, so no replaced character. */
  lemma WordKept(s: string, from: char, to: char)
    requires IsSpace(from)
    ensures ReplaceChar(s, from, to)[..WordLength(s)] == s[..WordLength(s)]
  {
  }

  lemma {:induction false} WordLengthSame(s: string, from: char, to: char)
    requires IsSpace(from) && IsSpace(to)
    ensures WordLength(ReplaceChar(s, from, to)) == WordLength(s)
    decreases |s|
  {
    if |s| > 0 {
      assert ReplaceChar(s, from, to)[1..] == ReplaceChar(s[1..], from, to);
      WordLengthSame(s[1..], from, to);
    }
  }

  /** The sanitised value keeps exactly the words of the original text, in order. */
  lemma ToStringKeepsWords(text: string)
    ensures Fields(ToString(Some(text))) == Fields(text)
  {
    var a := ReplaceChar(text, '\n', ' ');
    var b := ReplaceChar(a, '\r', ' ');
    var c := ReplaceChar(b, '\t', ' ');
    FieldsIgnoreSpaceKind(text, '\n', ' ');
    FieldsIgnoreSpaceKind(a, '\r', ' ');
    FieldsIgnoreSpaceKind(b, '\t', ' ');
    FieldsOfJoin(Fields(c));
  }

  /** Sanitising is idempotent. */
  lemma ToStringIdempotent(text: string)
    ensures ToString(Some(ToString(Some(text)))) == ToString(Some(text))
  {
    var t := ToString(Some(text));
    var a0 := ReplaceChar(text, '\n', ' ');
    var b0 := ReplaceChar(a0, '\r', ' ');
    var c0 := ReplaceChar(b0, '\t', ' ');
    assert t == Join(Fields(c0), ' ');
    FieldsIgnoreSpaceKind(text, '\n', ' ');
    FieldsIgnoreSpaceKind(a0, '\r', ' ');
    FieldsIgnoreSpaceKind(b0, '\t', ' ');
    ToStringKeepsWords(text);
    var a := ReplaceChar(t, '\n', ' ');
    var b := ReplaceChar(a, '\r', ' ');
    var c := ReplaceChar(b, '\t', ' ');
    FieldsIgnoreSpaceKind(t, '\n', ' ');
    FieldsIgnoreSpaceKind(a, '\r', ' ');
    FieldsIgnoreSpaceKind(b, '\t', ' ');
    assert Fields(c) == Fields(c0);
  }
}
