/**
 * The `.o` save format as the object parser of pkg/lpc/oparser.go reads it,
 * written as functions over a cursor. A cursor is the parser's pair of fields:
 * `pos`, the offset of the next character, and `w`, the width of the last
 * character read (a fresh parser sets it to the length of the line). Every
 * function returns the outcome together with the cursor the parser is left
 * with, failures included, because the object parser reports the position an
 * error was found at.
 */
module SaveFormat {
  import opened Wrappers
  import opened Strings
  import opened LpcValues

  datatype Cursor = Cursor(pos: int, w: int)

  /** The cursor states a line parser can be in. */
  predicate Valid(s: string, c: Cursor)
  {
    0 <= c.pos <= |s| && ((c.w == 1 && |s| >= 1) || (c.pos == 0 && c.w == |s|))
  }

  /** The cursor of a fresh line parser. */
  function Start(s: string): (c: Cursor)
    ensures Valid(s, c)
  {
    Cursor(0, |s|)
  }

  /** What went wrong, named after the check that failed. */
  datatype LineError =
    | TrailingInput
    | InvalidValueType(found: char)
    | InvalidFloat(literal: string)
    | MapOpenExpected
    | MapSizeInvalid
    | MapBarExpected
    | MapEntryFailed(cause: LineError)
    | MapCloseExpected
    | KeyInvalid(cause: LineError)
    | ListKeyItemUnsupported
    | KeyTypeUnsupported
    | ColonExpected(found: char)
    | ValueInvalid(cause: LineError)
    | ListOpenExpected
    | ListSizeInvalid
    | ListBarExpected
    | ListValueInvalid
    | ListCloseExpected
    | QuoteExpected
    | UnterminatedString
    | IntegerInvalid
    | BlueprintExpected
    /**
     * Not an error value: `make([]interface{}, 0, size)` with a negative
     * size panics, and nothing recovers, so it unwinds every parse it is in.
     */
    | SizePanic

  /** The error an enclosing check reports for cause: its own, unless cause is a panic, which passes through. */
  function Within(cause: LineError, own: LineError): (e: LineError)
    requires own != SizePanic
    ensures e == SizePanic <==> cause == SizePanic
    ensures cause != SizePanic ==> e == own
  {
    if cause == SizePanic then SizePanic else own
  }

  datatype Parsed<T> = Parsed(result: Result<T, LineError>, cursor: Cursor)

  // ---------------------------------------------------------------------------
  // The cursor primitives
  // ---------------------------------------------------------------------------

  /** peek(n): the character n places ahead, or NUL past the end. */
  function Peek(s: string, c: Cursor, n: nat): char
    requires 0 <= c.pos
  {
    if c.pos + n >= |s| then '\0' else s[c.pos + n]
  }

  /** next(): the next character and the cursor after it; NUL and no move at the end. */
  function Next(s: string, c: Cursor): (r: (char, Cursor))
    requires Valid(s, c)
    ensures Valid(s, r.1)
    ensures c.pos < |s| ==> r == (s[c.pos], Cursor(c.pos + 1, 1))
    ensures c.pos >= |s| ==> r == ('\0', c)
  {
    if c.pos >= |s| then ('\0', c) else (s[c.pos], Cursor(c.pos + 1, 1))
  }

  /**
   * expect(x): consume x if it is next; otherwise step back by the last width.
   * At the end of the line next() consumed nothing and kept the old width, so
   * a failed expect() there moves the cursor back over the last character
   * read, and the position reported with the error is that earlier one.
   */
  function Expect(s: string, c: Cursor, x: char): (r: (bool, Cursor))
    requires Valid(s, c)
    ensures Valid(s, r.1)
    ensures c.pos < |s| && s[c.pos] == x ==> r == (true, Cursor(c.pos + 1, 1))
    ensures c.pos < |s| && s[c.pos] != x ==> r == (false, Cursor(c.pos, 1))
    ensures c.pos >= |s| && x != '\0' ==> r == (false, Cursor(c.pos - c.w, c.w))
  {
    var n := Next(s, c);
    if n.0 == x then (true, n.1) else (false, Cursor(n.1.pos - n.1.w, n.1.w))
  }

  predicate IsBlankChar(ch: char)
  {
    ch == ' ' || ch == '\t'
  }

  /** skipSpaces(): move past spaces and tabs. */
  function SkipSpaces(s: string, c: Cursor): (r: Cursor)
    requires Valid(s, c)
    ensures Valid(s, r) && r.pos >= c.pos
    ensures r.pos < |s| ==> !IsBlankChar(s[r.pos])
    ensures forall i :: c.pos <= i < r.pos ==> IsBlankChar(s[i])
    decreases |s| - c.pos
  {
    if IsBlankChar(Peek(s, c, 0)) then SkipSpaces(s, Next(s, c).1) else c
  }

  // ---------------------------------------------------------------------------
  // Numbers
  // ---------------------------------------------------------------------------

  predicate AllDigits(t: string)
  {
    forall i :: 0 <= i < |t| ==> IsAsciiDigit(t[i])
  }

  /** strconv.Atoi: an optional sign and at least one digit, within the 64-bit range. */
  function Atoi(t: string): (r: Option<int>)
    ensures r.Some? ==> exists i :: 0 <= i < |t| && IsAsciiDigit(t[i])
  {
    var neg := |t| > 0 && t[0] == '-';
    var signed := |t| > 0 && (t[0] == '-' || t[0] == '+');
    var digits := if signed then t[1..] else t;
    if |digits| == 0 || !AllDigits(digits) then None
    else
      var v := if neg then -(DecimalValue(digits) as int) else DecimalValue(digits) as int;
      assert IsAsciiDigit(t[|t| - 1]);
      if -0x8000_0000_0000_0000 <= v <= 0x7FFF_FFFF_FFFF_FFFF then Some(v) else None
  }

  function SkipDigits(s: string, c: Cursor): (r: Cursor)
    requires Valid(s, c)
    ensures Valid(s, r) && r.pos >= c.pos
    ensures forall i :: c.pos <= i < r.pos ==> IsAsciiDigit(s[i])
    ensures r.pos < |s| ==> !IsAsciiDigit(s[r.pos])
    decreases |s| - c.pos
  {
    if IsAsciiDigit(Peek(s, c, 0)) then SkipDigits(s, Next(s, c).1) else c
  }

  /** parseInt(): an optional minus sign and the digits after it, read by strconv.Atoi. */
  function ParseIntAt(s: string, c: Cursor): (r: Parsed<int>)
    requires Valid(s, c)
    ensures Valid(s, r.cursor) && r.cursor.pos >= c.pos
    ensures r.result.Success? ==> r.cursor.pos > c.pos
  {
    var c1 := if Peek(s, c, 0) == '-' then Next(s, c).1 else c;
    var c2 := SkipDigits(s, c1);
    match Atoi(s[c.pos..c2.pos])
    case None => Parsed(Failure(IntegerInvalid), c2)
    case Some(i) => Parsed(Success(i), c2)
  }

  predicate IsFloatChar(ch: char)
  {
    IsAsciiDigit(ch) || ch == '.'
  }

  function SkipFloatChars(s: string, c: Cursor): (r: Cursor)
    requires Valid(s, c)
    ensures Valid(s, r) && r.pos >= c.pos
    ensures forall i :: c.pos <= i < r.pos ==> IsFloatChar(s[i])
    ensures r.pos < |s| ==> !IsFloatChar(s[r.pos])
    decreases |s| - c.pos
  {
    if IsFloatChar(Peek(s, c, 0)) then SkipFloatChars(s, Next(s, c).1) else c
  }

  predicate IsHexDigit(ch: char)
  {
    ('0' <= ch <= '9') || ('a' <= ch <= 'f') || ('A' <= ch <= 'F')
  }

  function SkipHexDigits(s: string, c: Cursor): (r: Cursor)
    requires Valid(s, c)
    ensures Valid(s, r) && r.pos >= c.pos
    decreases |s| - c.pos
  {
    var ch := Peek(s, c, 0);
    if ch != '\0' && IsHexDigit(ch) then SkipHexDigits(s, Next(s, c).1) else c
  }

  /**
   * parseFloat(): the literal (sign, digits and points), then, after an `=`,
   * the hexadecimal image of the value, which is skipped.
   */
  function ParseFloatAt(s: string, c: Cursor): (r: Parsed<Value>)
    requires Valid(s, c)
    ensures Valid(s, r.cursor) && r.cursor.pos >= c.pos
    ensures r.result.Success? ==> r.cursor.pos > c.pos
  {
    var c1 := if Peek(s, c, 0) == '-' then Next(s, c).1 else c;
    var c2 := SkipFloatChars(s, c1);
    var text := s[c.pos..c2.pos];
    if !IsFloatLiteral(text) then Parsed(Failure(InvalidFloat(text)), c2)
    else
      var c3 := if Peek(s, c2, 0) == '=' then SkipHexDigits(s, Next(s, c2).1) else c2;
      assert |text| > 0 by {
        var i :| 0 <= i < |FloatBody(text)| && IsAsciiDigit(FloatBody(text)[i]);
      }
      Parsed(Success(VFloat(text)), c3)
  }

  /** The look-ahead of parseNumber(): a point among the digits, or an `=` after them. */
  function FloatAhead(s: string, c: Cursor, offset: nat, seenPoint: bool): bool
    requires 0 <= c.pos
    decreases |s| - c.pos - offset
  {
    var ch := Peek(s, c, offset);
    if IsFloatChar(ch) then FloatAhead(s, c, offset + 1, seenPoint || ch == '.')
    else seenPoint || ch == '='
  }

  predicate IsFloatAhead(s: string, c: Cursor)
    requires 0 <= c.pos
  {
    FloatAhead(s, c, if Peek(s, c, 0) == '-' then 1 else 0, false)
  }

  /** parseNumber() */
  function ParseNumberAt(s: string, c: Cursor): (r: Parsed<Value>)
    requires Valid(s, c)
    ensures Valid(s, r.cursor) && r.cursor.pos >= c.pos
    ensures r.result.Success? ==> r.cursor.pos > c.pos
  {
    if IsFloatAhead(s, c) then ParseFloatAt(s, c)
    else
      var p := ParseIntAt(s, c);
      Parsed(if p.result.Success? then Success(VInt(p.result.value)) else Failure(p.result.error), p.cursor)
  }

  // ---------------------------------------------------------------------------
  // Strings, blueprints and identifiers
  // ---------------------------------------------------------------------------

  /** The loop of parseString() from c on, with acc read so far. */
  function StringBody(s: string, c: Cursor, acc: string): (r: Parsed<string>)
    requires Valid(s, c)
    ensures Valid(s, r.cursor) && r.cursor.pos >= c.pos
    decreases |s| - c.pos
  {
    var ch := Peek(s, c, 0);
    if ch == '\0' then Parsed(Failure(UnterminatedString), c)
    else if ch == '\\' then
      var c1 := Next(s, c).1;
      var escaped := Peek(s, c1, 0);
      StringBody(s, Next(s, c1).1, acc + (if escaped == '"' then "\"" else ['\\', escaped]))
    else if ch == '"' then
      var e := Expect(s, c, '"');
      if e.0 then Parsed(Success(acc), e.1) else Parsed(Failure(QuoteExpected), e.1)
    else StringBody(s, Next(s, c).1, acc + [ch])
  }

  /** parseString() */
  function ParseStringAt(s: string, c: Cursor): (r: Parsed<string>)
    requires Valid(s, c)
    ensures Valid(s, r.cursor)
    ensures r.result.Success? ==> r.cursor.pos > c.pos
  {
    var e := Expect(s, c, '"');
    if !e.0 then Parsed(Failure(QuoteExpected), e.1) else StringBody(s, e.1, "")
  }

  /** The loop of parseBlueprint(): the rest of the line, then its newline. */
  function BlueprintBody(s: string, c: Cursor, acc: string): (r: Parsed<string>)
    requires Valid(s, c)
    ensures Valid(s, r.cursor) && r.result.Success?
    decreases |s| - c.pos
  {
    var ch := Peek(s, c, 0);
    if ch != '\0' && ch != '\n' then
      var n := Next(s, c);
      BlueprintBody(s, n.1, acc + [n.0])
    else if ch == '\n' then Parsed(Success(acc), Next(s, c).1)
    else Parsed(Success(acc), c)
  }

  /** parseBlueprint() */
  function ParseBlueprintAt(s: string, c: Cursor): (r: Parsed<string>)
    requires Valid(s, c)
    ensures Valid(s, r.cursor)
    ensures r.result.Success? <==> Peek(s, c, 0) == '#'
  {
    if Peek(s, c, 0) != '#' then Parsed(Failure(BlueprintExpected), c)
    else BlueprintBody(s, Next(s, c).1, "")
  }

  /** A name character: unicode.IsLetter, unicode.IsDigit or `_`, with only the ASCII letters and digits. */
  predicate IsIdentChar(ch: char)
  {
    IsAsciiLetter(ch) || IsAsciiDigit(ch) || ch == '_'
  }

  /** The loop of parseIdentifier(): read until a character that is not part of a name. */
  function IdentLoop(s: string, c: Cursor): (r: Cursor)
    requires Valid(s, c)
    ensures Valid(s, r) && r.pos >= c.pos
    ensures c.pos < |s| ==> r.pos > c.pos && r.w == 1
    ensures c.pos >= |s| ==> r == c
    decreases |s| - c.pos
  {
    var n := Next(s, c);
    if IsIdentChar(n.0) then IdentLoop(s, n.1) else n.1
  }

  /**
   * parseIdentifier(), on a fresh parser: the name runs up to one width
   * before where the loop stopped; the spaces after it are skipped.
   */
  function ParseIdentifierAt(s: string): (r: Parsed<string>)
    ensures Valid(s, r.cursor) && r.result.Success?
  {
    var c := IdentLoop(s, Start(s));
    Parsed(Success(s[..c.pos - c.w]), SkipSpaces(s, c))
  }

  // ---------------------------------------------------------------------------
  // Values, maps and lists
  // ---------------------------------------------------------------------------

  /** The map key a key value stands for, as parseMapEntry() converts it. */
  function MapKey(key: Value): (r: Result<string, LineError>)
  {
    match key
    case VString(k) => Success(k)
    case VInt(i) => Success(Itoa(i))
    case VList(items) =>
      if forall i :: 0 <= i < |items| ==> items[i].VString? || items[i].VInt? then
        Success(Join(KeyParts(items), ','))
      else Failure(ListKeyItemUnsupported)
    case _ => Failure(KeyTypeUnsupported)
  }

  function KeyParts(items: seq<Value>): (parts: seq<string>)
    requires forall i :: 0 <= i < |items| ==> items[i].VString? || items[i].VInt?
    ensures |parts| == |items|
    ensures forall i :: 0 <= i < |items| ==> parts[i] == KeyPart(items[i])
  {
    if |items| == 0 then [] else [KeyPart(items[0])] + KeyParts(items[1..])
  }

  function KeyPart(item: Value): string
    requires item.VString? || item.VInt?
  {
    if item.VString? then item.s else Itoa(item.i)
  }

  /** parseValue() */
  function ParseValueAt(s: string, c: Cursor): (r: Parsed<Value>)
    requires Valid(s, c)
    ensures Valid(s, r.cursor)
    ensures r.result.Success? ==> r.cursor.pos > c.pos
    decreases |s| - c.pos, 3, 0
  {
    var c1 := SkipSpaces(s, c);
    var ch := Peek(s, c1, 0);
    if ch == '"' then
      var p := ParseStringAt(s, c1);
      Parsed(if p.result.Success? then Success(VString(p.result.value)) else Failure(p.result.error), p.cursor)
    else if IsAsciiDigit(ch) || ch == '-' then ParseNumberAt(s, c1)
    else if ch == '(' && Peek(s, c1, 1) == '[' then
      var p := ParseMapAt(s, c1);
      Parsed(if p.result.Success? then Success(VMap(p.result.value)) else Failure(p.result.error), p.cursor)
    else if ch == '(' && Peek(s, c1, 1) == '{' then
      var p := ParseListAt(s, c1);
      Parsed(if p.result.Success? then Success(VList(p.result.value)) else Failure(p.result.error), p.cursor)
    else Parsed(Failure(InvalidValueType(ch)), c1)
  }

  /** The two-character opening of a map or list; the second is tried only if the first matches. */
  function ExpectPair(s: string, c: Cursor, x: char, y: char): (r: (bool, Cursor))
    requires Valid(s, c) && x != '\0' && y != '\0'
    ensures Valid(s, r.1)
    ensures r.0 ==> r.1.pos == c.pos + 2
  {
    var e := Expect(s, c, x);
    if e.0 then Expect(s, e.1, y) else e
  }

  /**
   * The opening `([` or `({`, a size and a bar: the cursor after the bar and
   * the number of items to read. A negative size reads no entry of a map
   * and panics for a list, when its slice is made.
   */
  function Header(s: string, c: Cursor, open: char): (r: Result<(Cursor, nat), (LineError, Cursor)>)
    requires Valid(s, c) && (open == '[' || open == '{')
    ensures r.Success? ==> Valid(s, r.value.0) && r.value.0.pos > c.pos
    ensures r.Failure? ==> Valid(s, r.error.1)
  {
    var o := ExpectPair(s, c, '(', open);
    if !o.0 then Failure((if open == '[' then MapOpenExpected else ListOpenExpected, o.1))
    else
      var size := ParseIntAt(s, SkipSpaces(s, o.1));
      if size.result.Failure? then Failure((if open == '[' then MapSizeInvalid else ListSizeInvalid, size.cursor))
      else
        var bar := Expect(s, size.cursor, '|');
        if !bar.0 then Failure((if open == '[' then MapBarExpected else ListBarExpected, bar.1))
        else if open == '{' && size.result.value < 0 then Failure((SizePanic, bar.1))
        else Success((bar.1, if size.result.value > 0 then size.result.value else 0))
  }

  /** parseMap() */
  function ParseMapAt(s: string, c: Cursor): (r: Parsed<map<string, Value>>)
    requires Valid(s, c)
    ensures Valid(s, r.cursor)
    ensures r.result.Success? ==> r.cursor.pos > c.pos
    decreases |s| - c.pos, 2, 0
  {
    match Header(s, c, '[')
    case Failure((e, at)) => Parsed(Failure(e), at)
    case Success((body, size)) =>
      var entries := MapEntriesAt(s, body, size, map[]);
      if entries.result.Failure? then entries
      else
        var close := ExpectPair(s, entries.cursor, ']', ')');
        if !close.0 then Parsed(Failure(MapCloseExpected), close.1)
        else Parsed(entries.result, SkipSpaces(s, close.1))
  }

  /** The entry loop of parseMap(): n more entries, each optionally followed by a comma. */
  function MapEntriesAt(s: string, c: Cursor, n: nat, acc: map<string, Value>): (r: Parsed<map<string, Value>>)
    requires Valid(s, c)
    ensures Valid(s, r.cursor)
    ensures r.result.Success? ==> r.cursor.pos >= c.pos
    decreases |s| - c.pos, 5, n
  {
    if n == 0 then Parsed(Success(acc), c)
    else
      var e := ParseMapEntryAt(s, c);
      if e.result.Failure? then Parsed(Failure(Within(e.result.error, MapEntryFailed(e.result.error))), e.cursor)
      else
        var comma := Expect(s, e.cursor, ',');
        MapEntriesAt(s, comma.1, n - 1, acc[e.result.value.0 := e.result.value.1])
  }

  /** parseMapEntry(): a key value, a colon and a value. */
  function ParseMapEntryAt(s: string, c: Cursor): (r: Parsed<(string, Value)>)
    requires Valid(s, c)
    ensures Valid(s, r.cursor)
    ensures r.result.Success? ==> r.cursor.pos > c.pos
    decreases |s| - c.pos, 4, 0
  {
    var k := ParseValueAt(s, c);
    if k.result.Failure? then Parsed(Failure(Within(k.result.error, KeyInvalid(k.result.error))), k.cursor)
    else match MapKey(k.result.value)
      case Failure(e) => Parsed(Failure(e), k.cursor)
      case Success(key) =>
        var c1 := SkipSpaces(s, k.cursor);
        var colon := Expect(s, c1, ':');
        if !colon.0 then Parsed(Failure(ColonExpected(Peek(s, c1, 0))), colon.1)
        else
          var v := ParseValueAt(s, SkipSpaces(s, colon.1));
          if v.result.Failure? then Parsed(Failure(Within(v.result.error, ValueInvalid(v.result.error))), v.cursor)
          else Parsed(Success((key, v.result.value)), SkipSpaces(s, v.cursor))
  }

  /** parseList() */
  function ParseListAt(s: string, c: Cursor): (r: Parsed<seq<Value>>)
    requires Valid(s, c)
    ensures Valid(s, r.cursor)
    ensures r.result.Success? ==> r.cursor.pos > c.pos
    decreases |s| - c.pos, 2, 0
  {
    match Header(s, c, '{')
    case Failure((e, at)) => Parsed(Failure(e), at)
    case Success((body, size)) =>
      var items := ListItemsAt(s, body, size, []);
      if items.result.Failure? then items
      else
        var close := ExpectPair(s, items.cursor, '}', ')');
        if !close.0 then Parsed(Failure(ListCloseExpected), close.1)
        else Parsed(items.result, close.1)
  }

  /** The item loop of parseList(): n more values, each optionally followed by a comma. */
  function ListItemsAt(s: string, c: Cursor, n: nat, acc: seq<Value>): (r: Parsed<seq<Value>>)
    requires Valid(s, c)
    ensures Valid(s, r.cursor)
    ensures r.result.Success? ==> r.cursor.pos >= c.pos
    decreases |s| - c.pos, 5, n
  {
    if n == 0 then Parsed(Success(acc), c)
    else
      var v := ParseValueAt(s, c);
      if v.result.Failure? then Parsed(Failure(Within(v.result.error, ListValueInvalid)), v.cursor)
      else
        var comma := Expect(s, v.cursor, ',');
        ListItemsAt(s, comma.1, n - 1, acc + [v.result.value])
  }

  // ---------------------------------------------------------------------------
  // Lines
  // ---------------------------------------------------------------------------

  /** ParseLine() on a fresh parser: a blueprint line, or a name and a value. */
  function ParseLineAt(s: string): (r: Parsed<(string, Value)>)
    ensures Valid(s, r.cursor)
  {
    if Peek(s, Start(s), 0) == '#' then
      var b := ParseBlueprintAt(s, Start(s));
      Parsed(Success(("blueprint", VString(b.result.value))), b.cursor)
    else
      var id := ParseIdentifierAt(s);
      var v := ParseValueAt(s, SkipSpaces(s, id.cursor));
      if v.result.Failure? then Parsed(Failure(v.result.error), v.cursor)
      else
        var ch := Peek(s, v.cursor, 0);
        if ch != '\n' && ch != '\0' then Parsed(Failure(TrailingInput), v.cursor)
        else Parsed(Success((id.result.value, v.result.value)), v.cursor)
  }

  // ---------------------------------------------------------------------------
  // Objects
  // ---------------------------------------------------------------------------

  /** A line that failed: the line, the offset in the input the parser stopped at, and why. */
  datatype ParseError = ParseError(line: string, position: int, err: LineError)

  datatype ParseResult = ParseResult(entries: map<string, Value>, errors: seq<ParseError>)

  /** Why ParseObject() gives no result: empty input, a bad line in strict mode, or a line whose parse panicked. */
  datatype ObjectError = EmptyInput | LineFailed(failure: ParseError) | Panicked

  /** strings.TrimSpace(line) == "" */
  predicate IsBlankLine(line: string)
  {
    forall i :: 0 <= i < |line| ==> IsSpace(line[i])
  }

  /** What ParseLine() returns on each line, every line read by a fresh line parser. */
  function LineOutcomes(lines: seq<string>): (outs: seq<Parsed<(string, Value)>>)
    ensures |outs| == |lines|
  {
    seq(|lines|, i requires 0 <= i < |lines| => ParseLineAt(lines[i]))
  }

  /**
   * The loop of ParseObject() over the remaining lines, given what the line
   * parser returns on each of them; startPos is the offset of lines[0].
   */
  function ParseLines(lines: seq<string>, outs: seq<Parsed<(string, Value)>>, startPos: int, strict: bool,
                      acc: ParseResult): (r: Result<ParseResult, ObjectError>)
    requires |outs| == |lines|
    ensures r.Failure? ==> r.error == Panicked || (strict && r.error.LineFailed?)
    decreases |lines|
  {
    if |lines| == 0 then Success(acc)
    else
      var line := lines[0];
      var next := startPos + |line| + 1;
      if IsBlankLine(line) then ParseLines(lines[1..], outs[1..], next, strict, acc)
      else
        var p := outs[0];
        if p.result == Failure(SizePanic) then Failure(Panicked)
        else if p.result.Failure? then
          var e := ParseError(line, startPos + p.cursor.pos, p.result.error);
          if strict then Failure(LineFailed(e))
          else ParseLines(lines[1..], outs[1..], next, strict, acc.(errors := acc.errors + [e]))
        else if p.result.value.0 != "" then
          ParseLines(lines[1..], outs[1..], next, strict,
                     acc.(entries := acc.entries[p.result.value.0 := p.result.value.1]))
        else ParseLines(lines[1..], outs[1..], next, strict, acc)
  }

  /** ObjectParser.ParseObject(input) */
  function ParseObjectOf(input: string, strict: bool): (r: Result<ParseResult, ObjectError>)
    ensures r == Failure(EmptyInput) <==> |input| == 0
  {
    if |input| == 0 then Failure(EmptyInput)
    else
      var lines := Split(input, '\n');
      ParseLines(lines, LineOutcomes(lines), 0, strict, ParseResult(map[], []))
  }
}
