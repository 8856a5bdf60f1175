/**
 * What the object parser promises about the save format: it reads back the
 * scalars the reference writer writes, string escapes, the end-of-string
 * error, list and mapping keys, the item counts and closing brackets of lists
 * and mappings, blueprint lines, and how a whole object is assembled from its
 * lines in strict and non-strict mode.
 */
module SaveFormatProperties {
  import opened Wrappers
  import opened Strings
  import opened LpcValues
  import opened SaveFormat
  import opened SaveWriter

  /** s holds t at offset p. */
  predicate At(s: string, p: int, t: string)
  {
    0 <= p && p + |t| <= |s| && forall i :: 0 <= i < |t| ==> s[p + i] == t[i]
  }

  lemma AtSlice(s: string, p: int, t: string)
    requires At(s, p, t)
    ensures s[p..p + |t|] == t
  {
    forall i | 0 <= i < |t|
      ensures s[p..p + |t|][i] == t[i]
    {
      assert s[p..p + |t|][i] == s[p + i];
    }
  }

  lemma AtParts(s: string, p: int, a: string, b: string)
    requires At(s, p, a + b)
    ensures At(s, p, a) && At(s, p + |a|, b)
  {
    forall i | 0 <= i < |a|
      ensures s[p + i] == a[i]
    {
      assert (a + b)[i] == a[i];
    }
    forall i | 0 <= i < |b|
      ensures s[p + |a| + i] == b[i]
    {
      assert (a + b)[|a| + i] == b[i];
    }
  }

  /** The value ends at q: the end of the line, or a comma, colon or newline. */
  predicate Delimited(s: string, q: int)
    requires 0 <= q <= |s|
  {
    q == |s| || s[q] == ',' || s[q] == ':' || s[q] == '\n'
  }

  // ---------------------------------------------------------------------------
  // Scalars
  // ---------------------------------------------------------------------------

  lemma {:induction false} SkipDigitsTo(s: string, c: Cursor, q: int)
    requires Valid(s, c) && c.pos <= q <= |s|
    requires forall i :: c.pos <= i < q ==> IsAsciiDigit(s[i])
    requires q == |s| || !IsAsciiDigit(s[q])
    ensures SkipDigits(s, c) == if c.pos < q then Cursor(q, 1) else c
    decreases q - c.pos
  {
    if c.pos < q {
      SkipDigitsTo(s, Cursor(c.pos + 1, 1), q);
    }
  }

  lemma {:induction false} SkipFloatCharsTo(s: string, c: Cursor, q: int)
    requires Valid(s, c) && c.pos <= q <= |s|
    requires forall i :: c.pos <= i < q ==> IsFloatChar(s[i])
    requires q == |s| || !IsFloatChar(s[q])
    ensures SkipFloatChars(s, c) == if c.pos < q then Cursor(q, 1) else c
    decreases q - c.pos
  {
    if c.pos < q {
      SkipFloatCharsTo(s, Cursor(c.pos + 1, 1), q);
    }
  }

  /** strconv.Atoi reads back what strconv.Itoa writes. */
  lemma AtoiItoa(i: int)
    requires -MaxInt64 - 1 <= i <= MaxInt64
    ensures Atoi(Itoa(i)) == Some(i)
  {
    if i >= 0 {
      DecimalRoundTrip(i);
    } else {
      var t := Itoa(i);
      assert t[1..] == NatToDecimal(-i);
      DecimalRoundTrip(-i);
    }
  }

  /** How Itoa(i) lies in s at p: an optional sign, then decimal digits. */
  lemma ItoaLayout(s: string, p: int, i: int)
    requires At(s, p, Itoa(i))
    ensures |Itoa(i)| > 0 && s[p..p + |Itoa(i)|] == Itoa(i)
    ensures s[p] == '-' <==> i < 0
    ensures forall k :: p + (if i < 0 then 1 else 0) <= k < p + |Itoa(i)| ==> IsAsciiDigit(s[k])
  {
    var t := Itoa(i);
    var o := if i < 0 then 1 else 0;
    var digits := if i < 0 then NatToDecimal(-i) else NatToDecimal(i);
    assert s[p] == t[0];
    assert o + |digits| == |t|;
    forall k | p + o <= k < p + |t|
      ensures IsAsciiDigit(s[k])
    {
      assert s[p + (o + (k - p - o))] == t[o + (k - p - o)];
      assert t[o + (k - p - o)] == digits[k - p - o];
    }
    AtSlice(s, p, t);
  }

  /** After the optional sign, the digits of Itoa(i) run to its end. */
  lemma IntDigitsEnd(s: string, c: Cursor, i: int)
    requires Valid(s, c) && At(s, c.pos, Itoa(i))
    requires c.pos + |Itoa(i)| == |s| || !IsAsciiDigit(s[c.pos + |Itoa(i)|])
    ensures SkipDigits(s, if Peek(s, c, 0) == '-' then Next(s, c).1 else c) == Cursor(c.pos + |Itoa(i)|, 1)
  {
    ItoaLayout(s, c.pos, i);
    var c1 := if Peek(s, c, 0) == '-' then Next(s, c).1 else c;
    assert c1.pos == c.pos + (if i < 0 then 1 else 0);
    SkipDigitsTo(s, c1, c.pos + |Itoa(i)|);
  }

  lemma IntRead(s: string, c: Cursor, i: int)
    requires Valid(s, c) && -MaxInt64 - 1 <= i <= MaxInt64 && At(s, c.pos, Itoa(i))
    requires c.pos + |Itoa(i)| == |s| || !IsAsciiDigit(s[c.pos + |Itoa(i)|])
    ensures ParseIntAt(s, c) == Parsed(Success(i), Cursor(c.pos + |Itoa(i)|, 1))
  {
    var t := Itoa(i);
    var c1 := if Peek(s, c, 0) == '-' then Next(s, c).1 else c;
    IntDigitsEnd(s, c, i);
    var c2 := SkipDigits(s, c1);
    assert c2 == Cursor(c.pos + |t|, 1);
    AtSlice(s, c.pos, t);
    assert s[c.pos..c2.pos] == t;
    AtoiItoa(i);
  }

  /** The look-ahead of parseNumber() over a run of digits and points that ends at q. */
  lemma {:induction false} FloatAheadTo(s: string, c: Cursor, offset: nat, seenPoint: bool, q: int)
    requires 0 <= c.pos && c.pos + offset <= q <= |s|
    requires forall i :: c.pos + offset <= i < q ==> IsFloatChar(s[i])
    requires q == |s| || !IsFloatChar(s[q])
    ensures FloatAhead(s, c, offset, seenPoint) ==
      (seenPoint || (exists j :: c.pos + offset <= j < q && s[j] == '.') || (q < |s| && s[q] == '='))
    decreases q - c.pos - offset
  {
    if c.pos + offset < q {
      var ch := s[c.pos + offset];
      FloatAheadTo(s, c, offset + 1, seenPoint || ch == '.', q);
      if ch == '.' {
        assert c.pos + offset <= c.pos + offset < q && s[c.pos + offset] == '.';
      }
      if exists j :: c.pos + offset <= j < q && s[j] == '.' {
        var j :| c.pos + offset <= j < q && s[j] == '.';
        if j > c.pos + offset {
          assert c.pos + offset + 1 <= j < q && s[j] == '.';
        }
      }
    }
  }

  /** Without a float ahead, parseNumber() is parseInt(). */
  lemma NumberIsInt(s: string, c: Cursor)
    requires Valid(s, c) && !IsFloatAhead(s, c)
    ensures var p := ParseIntAt(s, c);
      ParseNumberAt(s, c) ==
      Parsed(if p.result.Success? then Success(VInt(p.result.value)) else Failure(p.result.error), p.cursor)
  {
  }

  /** With a float ahead, parseNumber() is parseFloat(). */
  lemma NumberIsFloat(s: string, c: Cursor)
    requires Valid(s, c) && IsFloatAhead(s, c)
    ensures ParseNumberAt(s, c) == ParseFloatAt(s, c)
  {
  }

  lemma IntNumberRead(s: string, c: Cursor, i: int)
    requires Valid(s, c) && -MaxInt64 - 1 <= i <= MaxInt64 && At(s, c.pos, Itoa(i))
    requires Delimited(s, c.pos + |Itoa(i)|)
    ensures ParseNumberAt(s, c) == Parsed(Success(VInt(i)), Cursor(c.pos + |Itoa(i)|, 1))
  {
    var q := c.pos + |Itoa(i)|;
    assert (q == |s| || !IsFloatChar(s[q])) && (q == |s| || !IsAsciiDigit(s[q]));
    ItoaLayout(s, c.pos, i);
    var offset := if Peek(s, c, 0) == '-' then 1 else 0;
    assert offset == (if i < 0 then 1 else 0);
    FloatAheadTo(s, c, offset, false, q);
    assert !IsFloatAhead(s, c);
    IntRead(s, c, i);
    NumberIsInt(s, c);
  }

  /** parseFloat() over a literal that ends at q, with no `=` after it. */
  lemma FloatLiteralRead(s: string, c: Cursor, l: string, c1: Cursor, q: int)
    requires Valid(s, c) && IsFloatLiteral(l) && At(s, c.pos, l) && q == c.pos + |l|
    requires q == |s| || s[q] != '='
    requires c1 == (if Peek(s, c, 0) == '-' then Next(s, c).1 else c)
    requires Valid(s, c1) && SkipFloatChars(s, c1) == Cursor(q, 1)
    ensures ParseFloatAt(s, c) == Parsed(Success(VFloat(l)), Cursor(q, 1))
  {
    AtSlice(s, c.pos, l);
    assert s[c.pos..SkipFloatChars(s, c1).pos] == l;
    assert Peek(s, Cursor(q, 1), 0) != '=';
  }

  /** The scan of a written float literal: a float is ahead and the literal ends at q. */
  lemma FloatScan(s: string, c: Cursor, l: string, c1: Cursor, q: int)
    requires Valid(s, c) && Writable(SFloat(l)) && At(s, c.pos, l) && q == c.pos + |l|
    requires q == |s| || !IsFloatChar(s[q])
    requires c1 == (if Peek(s, c, 0) == '-' then Next(s, c).1 else c)
    ensures IsFloatAhead(s, c) && Valid(s, c1) && SkipFloatChars(s, c1) == Cursor(q, 1)
  {
    var offset := if l[0] == '-' then 1 else 0;
    FloatChars(l, offset);
    assert Peek(s, c, 0) == l[0];
    assert forall k :: c.pos + offset <= k < q ==> IsFloatChar(s[k]) by {
      forall k | c.pos + offset <= k < q
        ensures IsFloatChar(s[k])
      {
        assert s[c.pos + (k - c.pos)] == l[k - c.pos];
      }
    }
    var d :| offset <= d < |l| && l[d] == '.';
    assert s[c.pos + d] == '.';
    assert c.pos + offset <= c.pos + d < q;
    FloatAheadTo(s, c, offset, false, q);
    assert c1.pos == c.pos + offset && c1.pos < q;
    SkipFloatCharsTo(s, c1, q);
  }

  lemma FloatRead(s: string, c: Cursor, l: string)
    requires Valid(s, c) && Writable(SFloat(l)) && At(s, c.pos, l)
    requires Delimited(s, c.pos + |l|)
    ensures ParseNumberAt(s, c) == Parsed(Success(VFloat(l)), Cursor(c.pos + |l|, 1))
  {
    var q := c.pos + |l|;
    assert q == |s| || (s[q] != '=' && !IsFloatChar(s[q]));
    var c1 := if Peek(s, c, 0) == '-' then Next(s, c).1 else c;
    FloatScan(s, c, l, c1, q);
    FloatLiteralRead(s, c, l, c1, q);
    NumberIsFloat(s, c);
  }

  /** A float literal the writer writes: digits and points after the sign, and no point first. */
  lemma FloatChars(l: string, offset: nat)
    requires IsFloatLiteral(l) && '.' in l && l[0] != '.' && offset == (if l[0] == '-' then 1 else 0)
    ensures forall k :: offset <= k < |l| ==> IsFloatChar(l[k])
    ensures exists d :: offset <= d < |l| && l[d] == '.'
  {
    var body := FloatBody(l);
    assert forall k :: offset <= k < |l| ==> l[k] == body[k - offset];
    var d :| 0 <= d < |l| && l[d] == '.';
    assert offset <= d;
  }

  lemma StringBodyEscapedQuote(s: string, c: Cursor, acc: string)
    requires Valid(s, c) && c.pos + 1 < |s| && s[c.pos] == '\\' && s[c.pos + 1] == '"'
    ensures StringBody(s, c, acc) == StringBody(s, Cursor(c.pos + 2, 1), acc + "\"")
  {
  }

  lemma StringBodyChar(s: string, c: Cursor, acc: string)
    requires Valid(s, c) && c.pos < |s| && s[c.pos] != '\0' && s[c.pos] != '\\' && s[c.pos] != '"'
    ensures StringBody(s, c, acc) == StringBody(s, Cursor(c.pos + 1, 1), acc + [s[c.pos]])
  {
  }

  lemma StringBodyClose(s: string, c: Cursor, acc: string)
    requires Valid(s, c) && c.pos < |s| && s[c.pos] == '"'
    ensures StringBody(s, c, acc) == Parsed(Success(acc), Cursor(c.pos + 1, 1))
  {
  }

  lemma EscapeQuotesCons(t: string)
    requires |t| > 0
    ensures EscapeQuotes(t) == (if t[0] == '"' then "\\\"" else [t[0]]) + EscapeQuotes(t[1..])
  {
  }

  lemma PlainTail(t: string)
    requires |t| > 0 && Plain(t)
    ensures Plain(t[1..]) && t[0] != '\\' && t[0] != '\0'
  {
    forall k | 0 <= k < |t[1..]|
      ensures t[1..][k] != '\\' && t[1..][k] != '\0'
    {
      assert t[1..][k] == t[k + 1];
    }
  }

  /** The first character of an escaped string, and where the rest of it starts. */
  lemma EscapedHead(s: string, p: int, t: string)
    requires |t| > 0 && Plain(t) && At(s, p, EscapeQuotes(t) + "\"")
    ensures var h := if t[0] == '"' then 2 else 1;
      && Plain(t[1..]) && At(s, p + h, EscapeQuotes(t[1..]) + "\"")
      && |EscapeQuotes(t)| == h + |EscapeQuotes(t[1..])|
      && (t[0] == '"' ==> p + 1 < |s| && s[p] == '\\' && s[p + 1] == '"')
      && (t[0] != '"' ==> p < |s| && s[p] == t[0] && t[0] != '\\' && t[0] != '\0')
  {
    var head: string := if t[0] == '"' then "\\\"" else [t[0]];
    EscapeQuotesCons(t);
    PlainTail(t);
    AtHead(s, p, head, EscapeQuotes(t[1..]), "\"");
    assert s[p + 0] == head[0];
    if t[0] == '"' {
      assert s[p + 1] == head[1];
    }
  }

  /** A string laid out at p as head, rest and a tail: the head's characters, and rest + tail after it. */
  lemma AtHead(s: string, p: int, head: string, rest: string, tail: string)
    requires |head| > 0 && At(s, p, head + rest + tail)
    ensures At(s, p + |head|, rest + tail) && p + |head| <= |s|
    ensures forall k :: 0 <= k < |head| ==> s[p + k] == head[k]
  {
    assert head + rest + tail == head + (rest + tail);
    AtParts(s, p, head, rest + tail);
  }

  lemma {:induction false} StringBodyRead(s: string, c: Cursor, acc: string, t: string)
    requires Valid(s, c) && Plain(t) && At(s, c.pos, EscapeQuotes(t) + "\"")
    ensures StringBody(s, c, acc) == Parsed(Success(acc + t), Cursor(c.pos + |EscapeQuotes(t)| + 1, 1))
    decreases |t|
  {
    if |t| == 0 {
      assert s[c.pos] == (EscapeQuotes(t) + "\"")[0];
      StringBodyClose(s, c, acc);
      assert acc + t == acc;
    } else {
      EscapedHead(s, c.pos, t);
      var h := if t[0] == '"' then 2 else 1;
      if t[0] == '"' {
        StringBodyEscapedQuote(s, c, acc);
      } else {
        StringBodyChar(s, c, acc);
      }
      StringBodyRead(s, Cursor(c.pos + h, 1), acc + [t[0]], t[1..]);
      assert acc + [t[0]] + t[1..] == acc + t;
    }
  }

  /** parseString() reads back a quoted string whose quotes are escaped. */
  lemma StringRead(s: string, c: Cursor, t: string)
    requires Valid(s, c) && Plain(t) && At(s, c.pos, Quote(t))
    ensures ParseStringAt(s, c) == Parsed(Success(t), Cursor(c.pos + |Quote(t)|, 1))
  {
    assert Quote(t) == "\"" + (EscapeQuotes(t) + "\"");
    AtParts(s, c.pos, "\"", EscapeQuotes(t) + "\"");
    assert s[c.pos] == Quote(t)[0];
    assert Expect(s, c, '"') == (true, Cursor(c.pos + 1, 1));
    StringBodyRead(s, Cursor(c.pos + 1, 1), "", t);
    assert "" + t == t;
  }

  lemma StringBodyEscapedOther(s: string, c: Cursor, acc: string)
    requires Valid(s, c) && c.pos + 1 < |s| && s[c.pos] == '\\' && s[c.pos + 1] != '"'
    ensures StringBody(s, c, acc) == StringBody(s, Cursor(c.pos + 2, 1), acc + ['\\', s[c.pos + 1]])
  {
  }

  /** A backslash before anything but a quote is kept, together with the character after it. */
  lemma BackslashKept(s: string, c: Cursor, x: char)
    requires Valid(s, c) && x != '"' && x != '\0' && At(s, c.pos, ['"', '\\', x, '"'])
    ensures ParseStringAt(s, c) == Parsed(Success(['\\', x]), Cursor(c.pos + 4, 1))
  {
    var w := ['"', '\\', x, '"'];
    assert s[c.pos] == w[0] && s[c.pos + 1] == w[1] && s[c.pos + 2] == w[2] && s[c.pos + 3] == w[3];
    assert Expect(s, c, '"') == (true, Cursor(c.pos + 1, 1));
    StringBodyEscapedOther(s, Cursor(c.pos + 1, 1), "");
    StringBodyClose(s, Cursor(c.pos + 3, 1), ['\\', x]);
    assert "" + ['\\', x] == ['\\', x];
  }

  /** Without a closing quote ahead, the string loop stops with the unterminated-string error. */
  lemma {:induction false} StringBodyUnterminated(s: string, c: Cursor, acc: string)
    requires Valid(s, c)
    requires forall i :: c.pos <= i < |s| ==> s[i] != '"'
    ensures StringBody(s, c, acc).result == Failure(UnterminatedString)
    decreases |s| - c.pos
  {
    var ch := Peek(s, c, 0);
    if ch == '\0' {
    } else if ch == '\\' {
      var c1 := Next(s, c).1;
      var escaped := Peek(s, c1, 0);
      StringBodyUnterminated(s, Next(s, c1).1, acc + (if escaped == '"' then "\"" else ['\\', escaped]));
    } else {
      StringBodyUnterminated(s, Next(s, c).1, acc + [ch]);
    }
  }

  lemma StringUnterminated(s: string, c: Cursor)
    requires Valid(s, c) && c.pos < |s| && s[c.pos] == '"'
    requires forall i :: c.pos < i < |s| ==> s[i] != '"'
    ensures ParseStringAt(s, c).result == Failure(UnterminatedString)
  {
    StringBodyUnterminated(s, Cursor(c.pos + 1, 1), "");
  }

  // ---------------------------------------------------------------------------
  // Keys
  // ---------------------------------------------------------------------------

  /** An integer key becomes a decimal string that reads back as the integer. */
  lemma IntKeyDecimal(i: int)
    requires -MaxInt64 - 1 <= i <= MaxInt64
    ensures MapKey(VInt(i)).Success? && Atoi(MapKey(VInt(i)).value) == Some(i)
  {
    AtoiItoa(i);
  }

  /** A list key of comma-free strings splits back into its items at the commas. */
  lemma ListKeySplits(texts: seq<string>)
    requires |texts| >= 1 && forall i :: 0 <= i < |texts| ==> ',' !in texts[i]
    ensures var key := MapKey(VList(seq(|texts|, i requires 0 <= i < |texts| => VString(texts[i]))));
      key.Success? && Split(key.value, ',') == texts
  {
    var items := seq(|texts|, i requires 0 <= i < |texts| => VString(texts[i]));
    assert KeyParts(items) == texts;
    SplitJoin(texts, ',');
  }

  /** Floats and mappings are not keys; a list key fails on an item that is not a string or integer. */
  lemma KeyKinds(key: Value)
    ensures key.VFloat? || key.VMap? ==> MapKey(key) == Failure(KeyTypeUnsupported)
    ensures key.VList? && (exists i :: 0 <= i < |key.items| && !key.items[i].VString? && !key.items[i].VInt?) ==>
      MapKey(key) == Failure(ListKeyItemUnsupported)
  {
  }

  // ---------------------------------------------------------------------------
  // Reading back the scalars the writer writes
  // ---------------------------------------------------------------------------

  lemma WriteStart(x: Saved)
    requires Writable(x)
    ensures |Write(x)| >= 1
    ensures x.SString? ==> Write(x)[0] == '"'
    ensures x.SInt? || x.SFloat? ==> IsAsciiDigit(Write(x)[0]) || Write(x)[0] == '-'
  {
    match x
    case SFloat(l) =>
      assert l[0] == '-' || FloatBody(l)[0] == l[0];
    case _ =>
  }

  lemma ValueIsString(s: string, c: Cursor)
    requires Valid(s, c) && c.pos < |s| && s[c.pos] == '"'
    ensures var p := ParseStringAt(s, c);
      ParseValueAt(s, c) ==
      Parsed(if p.result.Success? then Success(VString(p.result.value)) else Failure(p.result.error), p.cursor)
  {
  }

  lemma ValueIsNumber(s: string, c: Cursor)
    requires Valid(s, c) && c.pos < |s| && (IsAsciiDigit(s[c.pos]) || s[c.pos] == '-')
    ensures ParseValueAt(s, c) == ParseNumberAt(s, c)
  {
  }

  lemma StringValueRead(s: string, c: Cursor, t: string)
    requires Valid(s, c) && Plain(t) && At(s, c.pos, Quote(t))
    ensures ParseValueAt(s, c) == Parsed(Success(VString(t)), Cursor(c.pos + |Quote(t)|, 1))
  {
    assert s[c.pos] == Quote(t)[0];
    StringRead(s, c, t);
    ValueIsString(s, c);
  }

  lemma IntValueRead(s: string, c: Cursor, i: int)
    requires Valid(s, c) && -MaxInt64 - 1 <= i <= MaxInt64 && At(s, c.pos, Itoa(i))
    requires Delimited(s, c.pos + |Itoa(i)|)
    ensures ParseValueAt(s, c) == Parsed(Success(VInt(i)), Cursor(c.pos + |Itoa(i)|, 1))
  {
    assert IsAsciiDigit(s[c.pos]) || s[c.pos] == '-' by {
      WriteStart(SInt(i));
      assert s[c.pos] == Itoa(i)[0];
    }
    IntNumberRead(s, c, i);
    ValueIsNumber(s, c);
  }

  lemma FloatValueRead(s: string, c: Cursor, l: string)
    requires Valid(s, c) && Writable(SFloat(l)) && At(s, c.pos, l)
    requires Delimited(s, c.pos + |l|)
    ensures ParseValueAt(s, c) == Parsed(Success(VFloat(l)), Cursor(c.pos + |l|, 1))
  {
    assert IsAsciiDigit(s[c.pos]) || s[c.pos] == '-' by {
      WriteStart(SFloat(l));
      assert s[c.pos] == l[0];
    }
    FloatRead(s, c, l);
    ValueIsNumber(s, c);
  }

  /** parseValue() reads back what the writer writes, up to a delimiter. */
  lemma ValueRead(s: string, c: Cursor, x: Saved)
    requires Valid(s, c) && Writable(x) && At(s, c.pos, Write(x)) && Delimited(s, c.pos + |Write(x)|)
    ensures ParseValueAt(s, c) == Parsed(Success(Meaning(x)), Cursor(c.pos + |Write(x)|, 1))
  {
    match x
    case SString(t) => StringValueRead(s, c, t);
    case SInt(i) => IntValueRead(s, c, i);
    case SFloat(l) => FloatValueRead(s, c, l);
  }

  // ---------------------------------------------------------------------------
  // Lists and mappings
  // ---------------------------------------------------------------------------

  lemma ExpectPairMatch(s: string, c: Cursor, x: char, y: char)
    requires Valid(s, c) && x != '\0' && y != '\0'
    requires c.pos + 1 < |s| && s[c.pos] == x && s[c.pos + 1] == y
    ensures ExpectPair(s, c, x, y) == (true, Cursor(c.pos + 2, 1))
  {
  }

  /** The two characters are there exactly when ExpectPair() consumes them. */
  lemma ExpectPairSucceeds(s: string, c: Cursor, x: char, y: char)
    requires Valid(s, c) && x != '\0' && y != '\0'
    ensures ExpectPair(s, c, x, y).0 <==> c.pos + 1 < |s| && s[c.pos] == x && s[c.pos + 1] == y
  {
  }

  lemma SkipSpacesStays(s: string, c: Cursor)
    requires Valid(s, c) && (c.pos == |s| || !IsBlankChar(s[c.pos]))
    ensures SkipSpaces(s, c) == c
  {
  }

  /** One turn of the item loop: either it fails, or it reads v and goes on at next. */
  lemma ListItemsUnfold(s: string, c: Cursor, n: nat, acc: seq<Value>) returns (ok: bool, v: Value, next: Cursor)
    requires Valid(s, c) && n > 0
    ensures Valid(s, next) && next.pos >= c.pos
    ensures !ok ==> ListItemsAt(s, c, n, acc).result.Failure?
    ensures ok ==> ListItemsAt(s, c, n, acc) == ListItemsAt(s, next, n - 1, acc + [v])
  {
    var e := ParseValueAt(s, c);
    ok := e.result.Success?;
    if ok {
      v, next := e.result.value, Expect(s, e.cursor, ',').1;
    } else {
      v, next := VInt(0), c;
    }
  }

  /** n more items read after acc, or a failure. */
  predicate ItemsCounted(r: Parsed<seq<Value>>, acc: seq<Value>, n: nat)
  {
    r.result.Success? ==> |r.result.value| == |acc| + n && r.result.value[..|acc|] == acc
  }

  lemma ItemsCountedStep(r: Parsed<seq<Value>>, acc: seq<Value>, v: Value, n: nat)
    requires n > 0 && ItemsCounted(r, acc + [v], n - 1)
    ensures ItemsCounted(r, acc, n)
  {
    if r.result.Success? {
      assert r.result.value[..|acc|] == r.result.value[..|acc + [v]|][..|acc|];
    }
  }

  /** The item loop reads exactly n more items after acc, or fails. */
  lemma {:induction false} ListItemsCount(s: string, c: Cursor, n: nat, acc: seq<Value>, r: Parsed<seq<Value>>)
    requires Valid(s, c) && r == ListItemsAt(s, c, n, acc)
    ensures ItemsCounted(r, acc, n)
    decreases |s| - c.pos, n
  {
    if n > 0 {
      var ok, v, next := ListItemsUnfold(s, c, n, acc);
      if ok {
        ListItemsCount(s, next, n - 1, acc + [v], r);
        ItemsCountedStep(r, acc, v, n);
      }
    }
  }

  /** After the items, `})` closes the list; anything else is the missing-close error. */
  lemma ListClose(s: string, c: Cursor, body: Cursor, n: nat, r: Parsed<seq<Value>>)
    requires Valid(s, c) && Header(s, c, '{') == Success((body, n))
    requires ListItemsAt(s, body, n, []) == r && r.result.Success?
    ensures r.cursor.pos + 1 < |s| && s[r.cursor.pos] == '}' && s[r.cursor.pos + 1] == ')' ==>
      ParseListAt(s, c) == Parsed(r.result, Cursor(r.cursor.pos + 2, 1))
    ensures !(r.cursor.pos + 1 < |s| && s[r.cursor.pos] == '}' && s[r.cursor.pos + 1] == ')') ==>
      ParseListAt(s, c).result == Failure(ListCloseExpected)
  {
    ExpectPairSucceeds(s, r.cursor, '}', ')');
  }

  /** One turn of the entry loop: either it fails, or it reads key k and value v and goes on at next. */
  lemma MapEntriesUnfold(s: string, c: Cursor, n: nat, acc: map<string, Value>)
    returns (ok: bool, k: string, v: Value, next: Cursor)
    requires Valid(s, c) && n > 0
    ensures Valid(s, next) && next.pos >= c.pos
    ensures !ok ==> MapEntriesAt(s, c, n, acc).result.Failure?
    ensures ok ==> MapEntriesAt(s, c, n, acc) == MapEntriesAt(s, next, n - 1, acc[k := v])
  {
    var e := ParseMapEntryAt(s, c);
    ok := e.result.Success?;
    if ok {
      k, v, next := e.result.value.0, e.result.value.1, Expect(s, e.cursor, ',').1;
    } else {
      k, v, next := "", VInt(0), c;
    }
  }

  /** Keys kept and at most n added, for the entry loop's result r. */
  predicate Counted(r: Parsed<map<string, Value>>, acc: map<string, Value>, n: nat)
  {
    r.result.Success? ==> acc.Keys <= r.result.value.Keys && |r.result.value| <= |acc| + n
  }

  lemma CountedStep(r: Parsed<map<string, Value>>, acc: map<string, Value>, k: string, v: Value, n: nat)
    requires n > 0 && Counted(r, acc[k := v], n - 1)
    ensures Counted(r, acc, n)
  {
    assert acc.Keys <= acc[k := v].Keys && |acc[k := v]| <= |acc| + 1;
  }

  /** The entry loop reads n more entries: it keeps the keys it had and adds at most n. */
  lemma {:induction false} MapEntriesCount(s: string, c: Cursor, n: nat, acc: map<string, Value>,
                                           r: Parsed<map<string, Value>>)
    requires Valid(s, c) && r == MapEntriesAt(s, c, n, acc)
    ensures Counted(r, acc, n)
    decreases |s| - c.pos, n
  {
    if n > 0 {
      var ok, k, v, next := MapEntriesUnfold(s, c, n, acc);
      if ok {
        MapEntriesCount(s, next, n - 1, acc[k := v], r);
        CountedStep(r, acc, k, v, n);
      }
    }
  }

  /** After the entries, `])` closes the mapping; anything else is the missing-close error. */
  lemma MapClose(s: string, c: Cursor, body: Cursor, n: nat, r: Parsed<map<string, Value>>)
    requires Valid(s, c) && Header(s, c, '[') == Success((body, n))
    requires MapEntriesAt(s, body, n, map[]) == r && r.result.Success?
    ensures r.cursor.pos + 1 < |s| && s[r.cursor.pos] == ']' && s[r.cursor.pos + 1] == ')' ==>
      ParseMapAt(s, c) == Parsed(r.result, SkipSpaces(s, Cursor(r.cursor.pos + 2, 1)))
    ensures !(r.cursor.pos + 1 < |s| && s[r.cursor.pos] == ']' && s[r.cursor.pos + 1] == ')') ==>
      ParseMapAt(s, c).result == Failure(MapCloseExpected)
  {
    ExpectPairSucceeds(s, r.cursor, ']', ')');
  }

  /**
   * A list whose size is negative panics in make() once the bar is read,
   * before any item, and so does the value parse that dispatched to it.
   */
  lemma NegativeListSizePanics(s: string, c: Cursor, i: int)
    requires Valid(s, c) && -MaxInt64 - 1 <= i < 0 && At(s, c.pos, "({" + Itoa(i) + "|")
    ensures ParseListAt(s, c).result == Failure(SizePanic)
    ensures ParseValueAt(s, c).result == Failure(SizePanic)
  {
    NegativeListPanics(s, c, i);
    ValueIsList(s, c);
  }

  lemma ValueIsList(s: string, c: Cursor)
    requires Valid(s, c) && c.pos + 1 < |s| && s[c.pos] == '(' && s[c.pos + 1] == '{'
    ensures var p := ParseListAt(s, c);
      ParseValueAt(s, c) == Parsed(if p.result.Success? then Success(VList(p.result.value)) else Failure(p.result.error), p.cursor)
  {
    SkipSpacesStays(s, c);
    var ch := Peek(s, SkipSpaces(s, c), 0);
    assert ch == '(' && Peek(s, SkipSpaces(s, c), 1) == '{';
    assert ch != '"' && !IsAsciiDigit(ch) && ch != '-';
  }

  lemma NegativeListPanics(s: string, c: Cursor, i: int)
    requires Valid(s, c) && -MaxInt64 - 1 <= i < 0 && At(s, c.pos, "({" + Itoa(i) + "|")
    ensures c.pos + 1 < |s| && s[c.pos] == '(' && s[c.pos + 1] == '{'
    ensures ParseListAt(s, c).result == Failure(SizePanic)
  {
    NegativeHeader(s, c, i);
  }

  lemma NegativeHeader(s: string, c: Cursor, i: int)
    requires Valid(s, c) && -MaxInt64 - 1 <= i < 0 && At(s, c.pos, "({" + Itoa(i) + "|")
    ensures c.pos + 1 < |s| && s[c.pos] == '(' && s[c.pos + 1] == '{'
    ensures Header(s, c, '{').Failure? && Header(s, c, '{').error.0 == SizePanic
  {
    ListHeadLayout(s, c, i);
    ExpectPairMatch(s, c, '(', '{');
    var c1 := Cursor(c.pos + 2, 1);
    SkipSpacesStays(s, c1);
    IntRead(s, c1, i);
    HeaderPanics(s, c, c1, Cursor(c1.pos + |Itoa(i)|, 1), i);
  }

  /** Header() once its pieces are known: the opening, the size i < 0 and the bar. */
  lemma HeaderPanics(s: string, c: Cursor, c1: Cursor, c2: Cursor, i: int)
    requires Valid(s, c) && Valid(s, c1) && Valid(s, c2) && i < 0
    requires ExpectPair(s, c, '(', '{') == (true, c1) && SkipSpaces(s, c1) == c1
    requires ParseIntAt(s, c1) == Parsed(Success(i), c2) && c2.pos < |s| && s[c2.pos] == '|'
    ensures Header(s, c, '{').Failure? && Header(s, c, '{').error.0 == SizePanic
  {
  }

  lemma ListHeadLayout(s: string, c: Cursor, i: int)
    requires Valid(s, c) && i < 0 && At(s, c.pos, "({" + Itoa(i) + "|")
    ensures c.pos + 2 + |Itoa(i)| < |s| && s[c.pos] == '(' && s[c.pos + 1] == '{' && s[c.pos + 2] == '-'
    ensures At(s, c.pos + 2, Itoa(i)) && s[c.pos + 2 + |Itoa(i)|] == '|'
  {
    AtParts(s, c.pos, "({" + Itoa(i), "|");
    AtParts(s, c.pos, "({", Itoa(i));
    assert s[c.pos + 0] == "({"[0] && s[c.pos + 1] == "({"[1];
    assert Itoa(i)[0] == '-';
    assert s[c.pos + 2 + 0] == Itoa(i)[0];
    assert s[c.pos + |"({" + Itoa(i)| + 0] == "|"[0];
  }

  lemma {:induction false} IdentLoopTo(s: string, c: Cursor, q: int)
    requires Valid(s, c) && c.pos <= q < |s|
    requires forall i :: c.pos <= i < q ==> IsIdentChar(s[i])
    requires !IsIdentChar(s[q])
    ensures IdentLoop(s, c) == Cursor(q + 1, 1)
    decreases q - c.pos
  {
    if c.pos < q {
      IdentLoopTo(s, Cursor(c.pos + 1, 1), q);
    }
  }

  /** parseIdentifier() on a fresh parser reads a name up to the first space and skips that space. */
  lemma IdentifierRead(s: string, name: string)
    requires |name| >= 1 && (forall i :: 0 <= i < |name| ==> IsIdentChar(name[i]))
    requires |name| < |s| && s[..|name|] == name && s[|name|] == ' '
    requires |name| + 1 == |s| || !IsBlankChar(s[|name| + 1])
    ensures ParseIdentifierAt(s) == Parsed(Success(name), Cursor(|name| + 1, 1))
  {
    assert forall i :: 0 <= i < |name| ==> s[i] == name[i] by {
      forall i | 0 <= i < |name|
        ensures s[i] == name[i]
      {
        assert s[..|name|][i] == name[i];
      }
    }
    IdentLoopTo(s, Start(s), |name|);
    var c := IdentLoop(s, Start(s));
    assert c == Cursor(|name| + 1, 1);
    assert s[..c.pos - c.w] == name;
    SkipSpacesStays(s, c);
  }

  /** ParseLine() on a name line, once the name and the value are known. */
  lemma LineOf(s: string, name: string, v: Value, p: int, e: int)
    requires Peek(s, Start(s), 0) != '#' && 0 <= p <= e == |s|
    requires ParseIdentifierAt(s) == Parsed(Success(name), Cursor(p, 1))
    requires SkipSpaces(s, Cursor(p, 1)) == Cursor(p, 1)
    requires Valid(s, Cursor(p, 1)) && ParseValueAt(s, Cursor(p, 1)) == Parsed(Success(v), Cursor(e, 1))
    ensures ParseLineAt(s) == Parsed(Success((name, v)), Cursor(e, 1))
  {
  }

  /** A line whose value is a list of negative size panics, whatever follows the bar. */
  lemma NegativeListLinePanics(name: string, i: int, rest: string)
    requires |name| >= 1 && (forall j :: 0 <= j < |name| ==> IsIdentChar(name[j])) && -MaxInt64 - 1 <= i < 0
    ensures ParseLineAt(name + " " + ("({" + Itoa(i) + "|" + rest)).result == Failure(SizePanic)
  {
    var w := "({" + Itoa(i) + "|";
    var t := w + rest;
    assert t[0] == '(';
    var s := name + " " + t;
    LayoutOf(name, t);
    IdentifierRead(s, name);
    var c := Cursor(|name| + 1, 1);
    SkipSpacesStays(s, c);
    AtParts(s, c.pos, w, rest);
    NegativeListSizePanics(s, c, i);
  }

  /** A line written as a name, a space and a value reads back as that name and value. */
  lemma LineRead(name: string, x: Saved)
    requires |name| >= 1 && (forall i :: 0 <= i < |name| ==> IsIdentChar(name[i])) && Writable(x)
    ensures ParseLineAt(name + " " + Write(x)) ==
      Parsed(Success((name, Meaning(x))), Cursor(|name| + 1 + |Write(x)|, 1))
  {
    var s := name + " " + Write(x);
    LineParts(name, x);
    LineOf(s, name, Meaning(x), |name| + 1, |s|);
  }

  /** The pieces of such a line, as the line parser reads them. */
  lemma LineParts(name: string, x: Saved)
    requires |name| >= 1 && (forall i :: 0 <= i < |name| ==> IsIdentChar(name[i])) && Writable(x)
    ensures var s, p := name + " " + Write(x), |name| + 1;
      && |s| == p + |Write(x)|
      && Peek(s, Start(s), 0) != '#'
      && ParseIdentifierAt(s) == Parsed(Success(name), Cursor(p, 1))
      && SkipSpaces(s, Cursor(p, 1)) == Cursor(p, 1)
      && Valid(s, Cursor(p, 1)) && ParseValueAt(s, Cursor(p, 1)) == Parsed(Success(Meaning(x)), Cursor(|s|, 1))
  {
    var s := name + " " + Write(x);
    var p := |name| + 1;
    LineLayout(name, x);
    IdentifierRead(s, name);
    SkipSpacesStays(s, Cursor(p, 1));
    ValueRead(s, Cursor(p, 1), x);
  }

  /** Where the name, the space and the value sit in such a line. */
  lemma LineLayout(name: string, x: Saved)
    requires |name| >= 1 && (forall i :: 0 <= i < |name| ==> IsIdentChar(name[i])) && Writable(x)
    ensures var s, p := name + " " + Write(x), |name| + 1;
      && |s| == p + |Write(x)| && At(s, p, Write(x)) && Delimited(s, p + |Write(x)|)
      && s[..|name|] == name && s[|name|] == ' ' && !IsBlankChar(s[p]) && Peek(s, Start(s), 0) != '#'
  {
    WriteStart(x);
    LayoutOf(name, Write(x));
  }

  lemma LayoutOf(name: string, w: string)
    requires |name| >= 1 && IsIdentChar(name[0]) && |w| >= 1 && !IsBlankChar(w[0])
    ensures var s, p := name + " " + w, |name| + 1;
      && |s| == p + |w| && At(s, p, w) && Delimited(s, p + |w|)
      && s[..|name|] == name && s[|name|] == ' ' && !IsBlankChar(s[p]) && Peek(s, Start(s), 0) != '#'
  {
    var s := name + " " + w;
    var p := |name| + 1;
    forall i | 0 <= i < |w|
      ensures s[p + i] == w[i]
    {
    }
    assert s[0] == name[0];
  }

  // ---------------------------------------------------------------------------
  // Blueprint lines
  // ---------------------------------------------------------------------------

  lemma {:induction false} BlueprintBodyRead(s: string, c: Cursor, acc: string)
    requires Valid(s, c)
    requires forall i :: c.pos <= i < |s| ==> s[i] != '\n' && s[i] != '\0'
    ensures BlueprintBody(s, c, acc) == Parsed(Success(acc + s[c.pos..]), if c.pos < |s| then Cursor(|s|, 1) else c)
    decreases |s| - c.pos
  {
    if c.pos < |s| {
      var x := s[c.pos];
      assert Peek(s, c, 0) == x && x != '\0' && x != '\n';
      assert Next(s, c) == (x, Cursor(c.pos + 1, 1));
      assert BlueprintBody(s, c, acc) == BlueprintBody(s, Cursor(c.pos + 1, 1), acc + [x]);
      BlueprintBodyRead(s, Cursor(c.pos + 1, 1), acc + [x]);
      assert acc + [x] + s[c.pos + 1..] == acc + s[c.pos..];
    } else {
      assert acc + s[c.pos..] == acc;
    }
  }

  /** A line `#text` is the blueprint text. */
  lemma BlueprintLine(t: string)
    requires '\n' !in t && '\0' !in t
    ensures ParseLineAt("#" + t).result == Success(("blueprint", VString(t)))
  {
    var s := "#" + t;
    assert s[0] == '#' && s[1..] == t;
    assert forall i :: 1 <= i < |s| ==> s[i] == t[i - 1];
    assert Next(s, Start(s)) == ('#', Cursor(1, 1));
    BlueprintBodyRead(s, Cursor(1, 1), "");
    assert "" + s[1..] == t;
    var b := ParseBlueprintAt(s, Start(s));
    assert b.result == Success(t);
  }

  // ---------------------------------------------------------------------------
  // Objects
  // ---------------------------------------------------------------------------

  /** A non-blank line the line parser accepts. */
  predicate Good(line: string, out: Parsed<(string, Value)>)
  {
    !IsBlankLine(line) && out.result.Success?
  }

  /** A non-blank line the line parser rejects. */
  predicate Bad(line: string, out: Parsed<(string, Value)>)
  {
    !IsBlankLine(line) && out.result.Failure?
  }

  /** A non-blank line whose parse panicked: the panic ends ParseObject() in either mode. */
  predicate Panics(line: string, out: Parsed<(string, Value)>)
  {
    !IsBlankLine(line) && out.result == Failure(SizePanic)
  }

  function BadLines(lines: seq<string>, outs: seq<Parsed<(string, Value)>>): seq<string>
    requires |outs| == |lines|
  {
    if |lines| == 0 then []
    else (if Bad(lines[0], outs[0]) then [lines[0]] else []) + BadLines(lines[1..], outs[1..])
  }

  function ErrorLines(errors: seq<ParseError>): seq<string>
  {
    seq(|errors|, i requires 0 <= i < |errors| => errors[i].line)
  }

  /**
   * The value the last accepted line with key k gives, if any; lines with
   * the empty key are not stored.
   */
  function LastValue(lines: seq<string>, outs: seq<Parsed<(string, Value)>>, k: string): Option<Value>
    requires |outs| == |lines|
  {
    if |lines| == 0 then None
    else
      var later := LastValue(lines[1..], outs[1..], k);
      if later.Some? then later
      else if k != "" && Good(lines[0], outs[0]) && outs[0].result.value.0 == k then Some(outs[0].result.value.1)
      else None
  }

  /** Non-strict mode goes through every line and records one error per rejected line, in order. */
  lemma {:induction false} NonStrictRecordsEveryBadLine(lines: seq<string>, outs: seq<Parsed<(string, Value)>>,
                                                        startPos: int, acc: ParseResult)
    requires |outs| == |lines| && forall j :: 0 <= j < |lines| ==> !Panics(lines[j], outs[j])
    ensures var r := ParseLines(lines, outs, startPos, false, acc);
      && r.Success?
      && |r.value.errors| >= |acc.errors|
      && r.value.errors[..|acc.errors|] == acc.errors
      && ErrorLines(r.value.errors[|acc.errors|..]) == BadLines(lines, outs)
    decreases |lines|
  {
    if |lines| > 0 {
      var line := lines[0];
      var next := startPos + |line| + 1;
      var p := outs[0];
      assert !Panics(lines[0], outs[0]);
      if IsBlankLine(line) {
        NonStrictRecordsEveryBadLine(lines[1..], outs[1..], next, acc);
      } else if p.result.Failure? {
        var e := ParseError(line, startPos + p.cursor.pos, p.result.error);
        var acc' := acc.(errors := acc.errors + [e]);
        NonStrictRecordsEveryBadLine(lines[1..], outs[1..], next, acc');
        var r := ParseLines(lines[1..], outs[1..], next, false, acc').value.errors;
        assert r[..|acc.errors|] == r[..|acc'.errors|][..|acc.errors|];
        assert r[|acc.errors|..] == [e] + r[|acc'.errors|..];
        assert ErrorLines([e] + r[|acc'.errors|..]) == [line] + ErrorLines(r[|acc'.errors|..]);
      } else {
        var acc' := if p.result.value.0 != "" then acc.(entries := acc.entries[p.result.value.0 := p.result.value.1])
          else acc;
        NonStrictRecordsEveryBadLine(lines[1..], outs[1..], next, acc');
      }
    }
  }

  /** Strict mode stops at the first rejected line and reports it. */
  lemma {:induction false} StrictStopsAtFirstBadLine(lines: seq<string>, outs: seq<Parsed<(string, Value)>>,
                                                     startPos: int, acc: ParseResult, i: nat)
    requires |outs| == |lines| && i < |lines| && Bad(lines[i], outs[i])
    requires forall j :: 0 <= j < i ==> !Bad(lines[j], outs[j])
    ensures var r := ParseLines(lines, outs, startPos, true, acc);
      && r.Failure?
      && (Panics(lines[i], outs[i]) ==> r.error == Panicked)
      && (!Panics(lines[i], outs[i]) ==>
            r.error.LineFailed? && r.error.failure.line == lines[i] && r.error.failure.err == outs[i].result.error)
    decreases i
  {
    if i > 0 {
      var line := lines[0];
      var p := outs[0];
      var acc' := if IsBlankLine(line) || p.result.value.0 == "" then acc
        else acc.(entries := acc.entries[p.result.value.0 := p.result.value.1]);
      StrictStopsAtFirstBadLine(lines[1..], outs[1..], startPos + |line| + 1, acc', i - 1);
    }
  }

  /** Without a rejected line, strict and non-strict mode agree and record no error. */
  lemma {:induction false} StrictAgreesWhenClean(lines: seq<string>, outs: seq<Parsed<(string, Value)>>,
                                                 startPos: int, acc: ParseResult)
    requires |outs| == |lines| && forall j :: 0 <= j < |lines| ==> !Bad(lines[j], outs[j])
    ensures ParseLines(lines, outs, startPos, true, acc) == ParseLines(lines, outs, startPos, false, acc)
    ensures ParseLines(lines, outs, startPos, true, acc).Success?
    ensures ParseLines(lines, outs, startPos, true, acc).value.errors == acc.errors
    decreases |lines|
  {
    if |lines| > 0 {
      var line := lines[0];
      var p := outs[0];
      var acc' := if IsBlankLine(line) || p.result.value.0 == "" then acc
        else acc.(entries := acc.entries[p.result.value.0 := p.result.value.1]);
      assert !Bad(lines[0], outs[0]);
      StrictAgreesWhenClean(lines[1..], outs[1..], startPos + |line| + 1, acc');
    }
  }

  /** In non-strict mode the entry for a key is the value of the last accepted line with that key. */
  lemma {:induction false} LastLineWins(lines: seq<string>, outs: seq<Parsed<(string, Value)>>, startPos: int,
                                        acc: ParseResult, k: string)
    requires |outs| == |lines| && forall j :: 0 <= j < |lines| ==> !Panics(lines[j], outs[j])
    ensures ParseLines(lines, outs, startPos, false, acc).Success?
    ensures var r := ParseLines(lines, outs, startPos, false, acc).value.entries;
      && (k in r <==> LastValue(lines, outs, k).Some? || k in acc.entries)
      && (k in r ==> r[k] == if LastValue(lines, outs, k).Some? then LastValue(lines, outs, k).value else acc.entries[k])
    decreases |lines|
  {
    NonStrictRecordsEveryBadLine(lines, outs, startPos, acc);
    if |lines| > 0 {
      assert !Panics(lines[0], outs[0]);
      var line := lines[0];
      var next := startPos + |line| + 1;
      var p := outs[0];
      if IsBlankLine(line) {
        LastLineWins(lines[1..], outs[1..], next, acc, k);
      } else if p.result.Failure? {
        var e := ParseError(line, startPos + p.cursor.pos, p.result.error);
        LastLineWins(lines[1..], outs[1..], next, acc.(errors := acc.errors + [e]), k);
      } else {
        var acc' := if p.result.value.0 != "" then acc.(entries := acc.entries[p.result.value.0 := p.result.value.1])
          else acc;
        LastLineWins(lines[1..], outs[1..], next, acc', k);
      }
    }
  }

  /** ParseObject() in non-strict mode: one error per rejected line, the last line for each key. */
  lemma NonStrictObject(input: string, k: string)
    requires |input| > 0
    requires var lines := Split(input, '\n');
      forall j :: 0 <= j < |lines| ==> !Panics(lines[j], ParseLineAt(lines[j]))
    ensures var lines := Split(input, '\n');
      var r := ParseObjectOf(input, false);
      && r.Success?
      && ErrorLines(r.value.errors) == BadLines(lines, LineOutcomes(lines))
      && (k in r.value.entries <==> LastValue(lines, LineOutcomes(lines), k).Some?)
      && (k in r.value.entries ==> r.value.entries[k] == LastValue(lines, LineOutcomes(lines), k).value)
  {
    var lines := Split(input, '\n');
    var acc := ParseResult(map[], []);
    forall j | 0 <= j < |lines|
      ensures !Panics(lines[j], LineOutcomes(lines)[j])
    {
      assert LineOutcomes(lines)[j] == ParseLineAt(lines[j]);
    }
    NonStrictRecordsEveryBadLine(lines, LineOutcomes(lines), 0, acc);
    LastLineWins(lines, LineOutcomes(lines), 0, acc, k);
    var r := ParseLines(lines, LineOutcomes(lines), 0, false, acc);
    assert r.value.errors[|acc.errors|..] == r.value.errors;
  }

  /**
   * A line whose parse panics ends the loop in either mode, once no earlier
   * line did (and, in strict mode, no earlier line was rejected).
   */
  lemma {:induction false} PanicEndsParse(lines: seq<string>, outs: seq<Parsed<(string, Value)>>, startPos: int,
                                          strict: bool, acc: ParseResult, i: nat)
    requires |outs| == |lines| && i < |lines| && Panics(lines[i], outs[i])
    requires forall j :: 0 <= j < i ==> !Panics(lines[j], outs[j]) && (strict ==> !Bad(lines[j], outs[j]))
    ensures ParseLines(lines, outs, startPos, strict, acc) == Failure(Panicked)
    decreases i
  {
    if i > 0 {
      var line := lines[0];
      var p := outs[0];
      assert !Panics(line, p);
      var acc' := if IsBlankLine(line) then acc
        else if p.result.Failure? then acc.(errors := acc.errors + [ParseError(line, startPos + p.cursor.pos, p.result.error)])
        else if p.result.value.0 == "" then acc
        else acc.(entries := acc.entries[p.result.value.0 := p.result.value.1]);
      PanicEndsParse(lines[1..], outs[1..], startPos + |line| + 1, strict, acc', i - 1);
    }
  }

  /** ParseObject() in non-strict mode fails exactly when some line panics. */
  lemma NonStrictObjectFails(input: string)
    requires |input| > 0
    ensures ParseObjectOf(input, false).Failure? <==>
      exists j :: 0 <= j < |Split(input, '\n')| && Panics(Split(input, '\n')[j], ParseLineAt(Split(input, '\n')[j]))
  {
    var lines := Split(input, '\n');
    var outs := LineOutcomes(lines);
    if j :| 0 <= j < |lines| && Panics(lines[j], ParseLineAt(lines[j])) {
      assert outs[j] == ParseLineAt(lines[j]);
      var i := FirstPanic(lines, outs, j);
      PanicEndsParse(lines, outs, 0, false, ParseResult(map[], []), i);
      assert ParseObjectOf(input, false) == ParseLines(lines, outs, 0, false, ParseResult(map[], []));
      assert Panics(Split(input, '\n')[i], ParseLineAt(Split(input, '\n')[i]));
    } else {
      forall j | 0 <= j < |lines|
        ensures !Panics(lines[j], outs[j])
      {
        assert outs[j] == ParseLineAt(lines[j]);
      }
      NonStrictRecordsEveryBadLine(lines, outs, 0, ParseResult(map[], []));
      assert ParseObjectOf(input, false) == ParseLines(lines, outs, 0, false, ParseResult(map[], []));
    }
  }

  /** The first panicking line, given one. */
  lemma {:induction false} FirstPanic(lines: seq<string>, outs: seq<Parsed<(string, Value)>>, j: nat) returns (i: nat)
    requires |outs| == |lines| && j < |lines| && Panics(lines[j], outs[j])
    ensures i <= j && Panics(lines[i], outs[i]) && forall k :: 0 <= k < i ==> !Panics(lines[k], outs[k])
    decreases j
  {
    if k :| 0 <= k < j && Panics(lines[k], outs[k]) {
      i := FirstPanic(lines, outs, k);
    } else {
      i := j;
    }
  }

  /** ParseObject() in strict mode fails with the first rejected line. */
  lemma StrictObject(input: string, i: nat)
    requires |input| > 0
    requires var lines := Split(input, '\n');
      i < |lines| && Bad(lines[i], ParseLineAt(lines[i])) &&
      forall j :: 0 <= j < i ==> !Bad(lines[j], ParseLineAt(lines[j]))
    ensures var lines := Split(input, '\n');
      var r := ParseObjectOf(input, true);
      && r.Failure?
      && (Panics(lines[i], ParseLineAt(lines[i])) ==> r.error == Panicked)
      && (!Panics(lines[i], ParseLineAt(lines[i])) ==>
            r.error.LineFailed? && r.error.failure.line == lines[i] &&
            r.error.failure.err == ParseLineAt(lines[i]).result.error)
  {
    var lines := Split(input, '\n');
    var outs := LineOutcomes(lines);
    forall j | 0 <= j <= i
      ensures outs[j] == ParseLineAt(lines[j])
    {
    }
    StrictStopsAtFirstBadLine(lines, outs, 0, ParseResult(map[], []), i);
  }
}
