/**
 * The object parser of pkg/lpc/oparser.go as the objects it is made of: a
 * LineParser whose fields `pos` and `w` every primitive moves, and an
 * ObjectParser that runs one fresh LineParser per line. Each method leaves
 * the parser's cursor where, and answers what, the function of module
 * SaveFormat for it gives on the cursor the method started from.
 */
module ObjectParsing {
  import opened Wrappers
  import opened Strings
  import opened LpcValues
  import opened SaveFormat

  class LineParser {
    /** The line being parsed. */
    const s: string
    /** The offset of the next character. */
    var pos: int
    /** The width of the last character read; a fresh parser holds the line's length. */
    var w: int

    /** The parser's cursor as a value. */
    function At(): Cursor
      reads this
    {
      Cursor(pos, w)
    }

    predicate Valid()
      reads this
    {
      SaveFormat.Valid(s, At())
    }

    /** NewLineParser(line) */
    constructor (line: string)
      ensures s == line && At() == Start(line) && Valid()
    {
      s := line;
      pos := 0;
      w := |line|;
    }

    /** peek(n) */
    method Peek(n: nat) returns (ch: char)
      requires 0 <= pos
      ensures ch == SaveFormat.Peek(s, At(), n)
    {
      if pos + n >= |s| {
        return '\0';
      }
      return s[pos + n];
    }

    /** next() */
    method Next() returns (ch: char)
      requires Valid()
      modifies this
      ensures Valid() && (ch, At()) == SaveFormat.Next(s, old(At()))
    {
      if pos >= |s| {
        return '\0';
      }
      ch := s[pos];
      pos := pos + 1;
      w := 1;
    }

    /** expect(x) */
    method Expect(x: char) returns (ok: bool)
      requires Valid()
      modifies this
      ensures Valid() && (ok, At()) == SaveFormat.Expect(s, old(At()), x)
    {
      var r := Next();
      if r == x {
        return true;
      }
      pos := pos - w;
      return false;
    }

    /** skipSpaces() */
    method SkipSpaces()
      requires Valid()
      modifies this
      ensures Valid() && At() == SaveFormat.SkipSpaces(s, old(At()))
    {
      while true
        invariant Valid() && SaveFormat.SkipSpaces(s, At()) == SaveFormat.SkipSpaces(s, old(At()))
        decreases |s| - pos
      {
        var r := Peek(0);
        if r != ' ' && r != '\t' {
          break;
        }
        r := Next();
      }
    }

    /** The digit loop of parseInt(). */
    method SkipDigits()
      requires Valid()
      modifies this
      ensures Valid() && At() == SaveFormat.SkipDigits(s, old(At()))
    {
      while true
        invariant Valid() && SaveFormat.SkipDigits(s, At()) == SaveFormat.SkipDigits(s, old(At()))
        decreases |s| - pos
      {
        var r := Peek(0);
        if !IsAsciiDigit(r) {
          break;
        }
        r := Next();
      }
    }

    /** parseInt(): strconv.Atoi of the sign and digits read. */
    method ParseInt() returns (r: Result<int, LineError>)
      requires Valid()
      modifies this
      ensures Valid() && Parsed(r, At()) == ParseIntAt(s, old(At()))
    {
      var start := pos;
      var ch := Peek(0);
      if ch == '-' {
        ch := Next();
      }
      SkipDigits();
      match Atoi(s[start..pos])
      case None =>
        r := Failure(IntegerInvalid);
      case Some(i) =>
        r := Success(i);
    }

    /** The digit-and-point loop of parseFloat(). */
    method SkipFloatChars()
      requires Valid()
      modifies this
      ensures Valid() && At() == SaveFormat.SkipFloatChars(s, old(At()))
    {
      while true
        invariant Valid() && SaveFormat.SkipFloatChars(s, At()) == SaveFormat.SkipFloatChars(s, old(At()))
        decreases |s| - pos
      {
        var r := Peek(0);
        if !IsFloatChar(r) {
          break;
        }
        r := Next();
      }
    }

    /** The loop over the hexadecimal image after `=` in parseFloat(). */
    method SkipHexDigits()
      requires Valid()
      modifies this
      ensures Valid() && At() == SaveFormat.SkipHexDigits(s, old(At()))
    {
      while true
        invariant Valid() && SaveFormat.SkipHexDigits(s, At()) == SaveFormat.SkipHexDigits(s, old(At()))
        decreases |s| - pos
      {
        var r := Peek(0);
        if r == '\0' || !IsHexDigit(r) {
          break;
        }
        r := Next();
      }
    }

    /** parseFloat(): the literal is kept as text (strconv.ParseFloat is not part of this model). */
    method ParseFloat() returns (r: Result<Value, LineError>)
      requires Valid()
      modifies this
      ensures Valid() && Parsed(r, At()) == ParseFloatAt(s, old(At()))
    {
      var start := pos;
      var ch := Peek(0);
      if ch == '-' {
        ch := Next();
      }
      SkipFloatChars();
      var text := s[start..pos];
      if !IsFloatLiteral(text) {
        return Failure(InvalidFloat(text));
      }
      ch := Peek(0);
      if ch == '=' {
        ch := Next();
        SkipHexDigits();
      }
      r := Success(VFloat(text));
    }

    /** parseNumber(): the look-ahead decides between a float and an integer. */
    method ParseNumber() returns (r: Result<Value, LineError>)
      requires Valid()
      modifies this
      ensures Valid() && Parsed(r, At()) == ParseNumberAt(s, old(At()))
    {
      var isFloat := false;
      var offset: nat := 0;
      var ch := Peek(offset);
      if ch == '-' {
        offset := offset + 1;
      }
      ch := Peek(offset);
      while IsFloatChar(ch)
        invariant Valid() && At() == old(At())
        invariant ch == SaveFormat.Peek(s, At(), offset)
        invariant FloatAhead(s, At(), offset, isFloat) == IsFloatAhead(s, At())
        decreases |s| - pos - offset
      {
        if ch == '.' {
          isFloat := true;
        }
        offset := offset + 1;
        ch := Peek(offset);
      }
      if ch == '=' {
        isFloat := true;
      }
      if isFloat {
        r := ParseFloat();
      } else {
        var i := ParseInt();
        r := if i.Success? then Success(VInt(i.value)) else Failure(i.error);
      }
    }

    /** parseString(): `\"` stands for a quote, any other escape is kept with its backslash. */
    method ParseString() returns (r: Result<string, LineError>)
      requires Valid()
      modifies this
      ensures Valid() && Parsed(r, At()) == ParseStringAt(s, old(At()))
    {
      var ok := Expect('"');
      if !ok {
        return Failure(QuoteExpected);
      }
      ghost var body := At();
      var acc := "";
      while true
        invariant Valid() && StringBody(s, At(), acc) == StringBody(s, body, "")
        decreases |s| - pos
      {
        var ch := Peek(0);
        if ch == '\0' {
          return Failure(UnterminatedString);
        }
        if ch == '\\' {
          ch := Next();
          ch := Peek(0);
          if ch == '"' {
            acc := acc + "\"";
          } else {
            acc := acc + ['\\', ch];
          }
          ch := Next();
          continue;
        }
        if ch == '"' {
          break;
        }
        acc := acc + [ch];
        ch := Next();
      }
      ok := Expect('"');
      if !ok {
        return Failure(QuoteExpected);
      }
      r := Success(acc);
    }

    /** parseBlueprint(): the rest of the line after `#`. */
    method ParseBlueprint() returns (r: Result<string, LineError>)
      requires Valid()
      modifies this
      ensures Valid() && Parsed(r, At()) == ParseBlueprintAt(s, old(At()))
    {
      var ch := Peek(0);
      if ch != '#' {
        return Failure(BlueprintExpected);
      }
      ch := Next();
      ghost var body := At();
      var blueprint := "";
      ch := Peek(0);
      while ch != '\0' && ch != '\n'
        invariant Valid() && ch == SaveFormat.Peek(s, At(), 0)
        invariant BlueprintBody(s, At(), blueprint) == BlueprintBody(s, body, "")
        decreases |s| - pos
      {
        ch := Next();
        blueprint := blueprint + [ch];
        ch := Peek(0);
      }
      if ch == '\n' {
        ch := Next();
      }
      r := Success(blueprint);
    }

    /** parseIdentifier() on a fresh parser: the name, then the spaces after it skipped. */
    method ParseIdentifier() returns (r: Result<string, LineError>)
      requires Valid() && At() == Start(s)
      modifies this
      ensures Valid() && Parsed(r, At()) == ParseIdentifierAt(s)
    {
      var start := pos;
      var ch := Next();
      while IsIdentChar(ch)
        invariant Valid()
        invariant (if IsIdentChar(ch) then IdentLoop(s, At()) else At()) == IdentLoop(s, Start(s))
        decreases |s| - pos + (if IsIdentChar(ch) then 1 else 0)
      {
        ch := Next();
      }
      var result := s[start..pos - w];
      SkipSpaces();
      r := Success(result);
    }

    /** parseValue() */
    method ParseValue() returns (r: Result<Value, LineError>)
      requires Valid()
      modifies this
      ensures Valid() && Parsed(r, At()) == ParseValueAt(s, old(At()))
      decreases |s| - pos, 3, 0
    {
      SkipSpaces();
      var ch := Peek(0);
      if ch == '"' {
        var t := ParseString();
        return if t.Success? then Success(VString(t.value)) else Failure(t.error);
      } else if IsAsciiDigit(ch) || ch == '-' {
        r := ParseNumber();
        return;
      } else if ch == '(' {
        var ch1 := Peek(1);
        if ch1 == '[' {
          var m := ParseMap();
          return if m.Success? then Success(VMap(m.value)) else Failure(m.error);
        } else if ch1 == '{' {
          var l := ParseList();
          return if l.Success? then Success(VList(l.value)) else Failure(l.error);
        }
      }
      r := Failure(InvalidValueType(ch));
    }

    /**
     * The opening of a map or list (`([` or `({`), its size and its bar:
     * the size, 0 when negative for a map, so that the loop reads no entry;
     * a negative list size is the panic of making the list's slice.
     */
    method ParseHeader(open: char) returns (r: Result<nat, LineError>)
      requires Valid() && (open == '[' || open == '{')
      modifies this
      ensures Valid()
      ensures var h := Header(s, old(At()), open);
        && (r.Success? <==> h.Success?)
        && (r.Success? ==> At() == h.value.0 && r.value == h.value.1)
        && (r.Failure? ==> r.error == h.error.0 && At() == h.error.1)
    {
      var ok := Expect('(');
      if ok {
        ok := Expect(open);
      }
      if !ok {
        return Failure(if open == '[' then MapOpenExpected else ListOpenExpected);
      }
      SkipSpaces();
      var size := ParseInt();
      if size.Failure? {
        return Failure(if open == '[' then MapSizeInvalid else ListSizeInvalid);
      }
      ok := Expect('|');
      if !ok {
        return Failure(if open == '[' then MapBarExpected else ListBarExpected);
      }
      if open == '{' && size.value < 0 {
        return Failure(SizePanic);
      }
      r := Success(if size.value > 0 then size.value else 0);
    }

    /** parseMap(): exactly as many entries as the size says, then `])`. */
    method ParseMap() returns (r: Result<map<string, Value>, LineError>)
      requires Valid()
      modifies this
      ensures Valid() && Parsed(r, At()) == ParseMapAt(s, old(At()))
      decreases |s| - pos, 2, 0
    {
      ghost var start := At();
      var size := ParseHeader('[');
      if size.Failure? {
        return Failure(size.error);
      }
      var entries := MapEntries(size.value, map[]);
      if entries.Failure? {
        return entries;
      }
      var ok := Expect(']');
      if ok {
        ok := Expect(')');
      }
      if !ok {
        return Failure(MapCloseExpected);
      }
      SkipSpaces();
      r := Success(entries.value);
    }

    /**
     * The entry loop of parseMap(): n more entries added to acc, each
     * optionally followed by a comma; written as recursion on how many are
     * left.
     */
    method MapEntries(n: nat, acc: map<string, Value>) returns (r: Result<map<string, Value>, LineError>)
      requires Valid()
      modifies this
      ensures Valid() && Parsed(r, At()) == MapEntriesAt(s, old(At()), n, acc)
      decreases |s| - pos, 5, n
    {
      if n == 0 {
        return Success(acc);
      }
      var e := MapEntry(n, acc);
      if e.Failure? {
        return e;
      }
      r := MapEntries(n - 1, e.value);
    }

    /** One turn of the entry loop: an entry added to acc, then an optional comma. */
    method MapEntry(n: nat, acc: map<string, Value>) returns (r: Result<map<string, Value>, LineError>)
      requires Valid() && n > 0
      modifies this
      ensures Valid()
      ensures r.Failure? ==> Parsed(r, At()) == MapEntriesAt(s, old(At()), n, acc)
      ensures r.Success? ==> pos >= old(pos) && MapEntriesAt(s, At(), n - 1, r.value) == MapEntriesAt(s, old(At()), n, acc)
      decreases |s| - pos, 4, 1
    {
      MapEntriesStep(s, At(), n, acc);
      var e := ParseMapEntry();
      if e.Failure? {
        return Failure(Within(e.error, MapEntryFailed(e.error)));
      }
      ghost var before := pos;
      var comma := Expect(',');
      assert pos >= before - 1;
      r := Success(acc[e.value.0 := e.value.1]);
    }

    /** The conversion of a key value in parseMapEntry(): a list key is its items joined with `,`. */
    method KeyOf(keyValue: Value) returns (r: Result<string, LineError>)
      ensures r == MapKey(keyValue)
    {
      match keyValue
      case VString(k) =>
        r := Success(k);
      case VInt(i) =>
        r := Success(Itoa(i));
      case VList(items) =>
        var parts: seq<string> := [];
        var i := 0;
        while i < |items|
          invariant 0 <= i <= |items| && |parts| == i
          invariant forall k :: 0 <= k < i ==> (items[k].VString? || items[k].VInt?) && parts[k] == KeyPart(items[k])
        {
          var item := items[i];
          if item.VString? {
            parts := parts + [item.s];
          } else if item.VInt? {
            parts := parts + [Itoa(item.i)];
          } else {
            return Failure(ListKeyItemUnsupported);
          }
          i := i + 1;
        }
        assert parts == KeyParts(items);
        r := Success(Join(parts, ','));
      case _ =>
        r := Failure(KeyTypeUnsupported);
    }

    /** parseMapEntry(): a key, a colon and a value. */
    method ParseMapEntry() returns (r: Result<(string, Value), LineError>)
      requires Valid()
      modifies this
      ensures Valid() && Parsed(r, At()) == ParseMapEntryAt(s, old(At()))
      ensures r.Success? ==> pos > old(pos)
      decreases |s| - pos, 4, 0
    {
      var keyValue := ParseValue();
      if keyValue.Failure? {
        return Failure(Within(keyValue.error, KeyInvalid(keyValue.error)));
      }
      var key := KeyOf(keyValue.value);
      if key.Failure? {
        return Failure(key.error);
      }
      SkipSpaces();
      var ch := Peek(0);
      var ok := Expect(':');
      if !ok {
        return Failure(ColonExpected(ch));
      }
      SkipSpaces();
      var value := ParseValue();
      if value.Failure? {
        return Failure(Within(value.error, ValueInvalid(value.error)));
      }
      SkipSpaces();
      r := Success((key.value, value.value));
    }

    /** parseList(): exactly as many values as the size says, then `})`. */
    method ParseList() returns (r: Result<seq<Value>, LineError>)
      requires Valid()
      modifies this
      ensures Valid() && Parsed(r, At()) == ParseListAt(s, old(At()))
      decreases |s| - pos, 2, 0
    {
      var size := ParseHeader('{');
      if size.Failure? {
        return Failure(size.error);
      }
      var list := ListItems(size.value, []);
      if list.Failure? {
        return list;
      }
      var ok := Expect('}');
      if ok {
        ok := Expect(')');
      }
      if !ok {
        return Failure(ListCloseExpected);
      }
      r := Success(list.value);
    }

    /**
     * The item loop of parseList(): n more values appended to acc, each
     * optionally followed by a comma; written as recursion on how many are
     * left.
     */
    method ListItems(n: nat, acc: seq<Value>) returns (r: Result<seq<Value>, LineError>)
      requires Valid()
      modifies this
      ensures Valid() && Parsed(r, At()) == ListItemsAt(s, old(At()), n, acc)
      decreases |s| - pos, 5, n
    {
      if n == 0 {
        return Success(acc);
      }
      var item := ListItem(n, acc);
      if item.Failure? {
        return item;
      }
      r := ListItems(n - 1, item.value);
    }

    /** One turn of the item loop of parseList(): a value added to acc, then an optional comma. */
    method ListItem(n: nat, acc: seq<Value>) returns (r: Result<seq<Value>, LineError>)
      requires Valid() && n > 0
      modifies this
      ensures Valid()
      ensures r.Failure? ==> Parsed(r, At()) == ListItemsAt(s, old(At()), n, acc)
      ensures r.Success? ==> pos >= old(pos) && ListItemsAt(s, At(), n - 1, r.value) == ListItemsAt(s, old(At()), n, acc)
      decreases |s| - pos, 4, 1
    {
      ListItemsStep(s, At(), n, acc);
      var value := ParseValue();
      if value.Failure? {
        return Failure(Within(value.error, ListValueInvalid));
      }
      ghost var before := pos;
      var comma := Expect(',');
      assert pos >= before - 1;
      r := Success(acc + [value.value]);
    }

    /** ParseLine() on a fresh parser: a blueprint line, or a name and a value ending the line. */
    method ParseLine() returns (r: Result<(string, Value), LineError>)
      requires Valid() && At() == Start(s)
      modifies this
      ensures Valid() && Parsed(r, At()) == ParseLineAt(s)
    {
      var ch := Peek(0);
      if ch == '#' {
        var b := ParseBlueprint();
        return Success(("blueprint", VString(b.value)));
      }
      var key := ParseIdentifier();
      SkipSpaces();
      var value := ParseValue();
      if value.Failure? {
        return Failure(value.error);
      }
      ch := Peek(0);
      if ch != '\n' && ch != '\0' {
        return Failure(TrailingInput);
      }
      r := Success((key.value, value.value));
    }
  }

  class ObjectParser {
    /** Whether the first bad line ends the parse. */
    const strict: bool

    /** NewObjectParser(strict) */
    constructor (strict: bool)
      ensures this.strict == strict
    {
      this.strict := strict;
    }

    /**
     * ParseObject(input): every non-blank line parsed by a fresh line
     * parser; a later key overwrites an earlier one; a bad line ends the
     * parse when strict and is recorded otherwise, with the offset in the
     * input where its parser stopped; a line whose parse panics ends it in
     * either mode.
     */
    method ParseObject(input: string) returns (r: Result<ParseResult, ObjectError>)
      ensures r == ParseObjectOf(input, strict)
    {
      if |input| == 0 {
        return Failure(EmptyInput);
      }
      var lines := Split(input, '\n');
      OutcomesOfLines(lines);
      r := ParseLines(lines, LineOutcomes(lines));
    }

    /**
     * The line loop of ParseObject(), given (as ghost) what a fresh line
     * parser returns on each line; startPos is the offset of the line in
     * the input.
     */
    method ParseLines(lines: seq<string>, ghost outs: seq<Parsed<(string, Value)>>) returns (r: Result<ParseResult, ObjectError>)
      requires Outcomes(lines, outs)
      ensures r == SaveFormat.ParseLines(lines, outs, 0, strict, ParseResult(map[], []))
    {
      var result := ParseResult(map[], []);
      var startPos := 0;
      var i := 0;
      while i < |lines|
        invariant 0 <= i <= |lines| == |outs|
        invariant SaveFormat.ParseLines(lines[i..], outs[i..], startPos, strict, result) ==
                  SaveFormat.ParseLines(lines, outs, 0, strict, ParseResult(map[], []))
      {
        var line := lines[i];
        ghost var rest, restOuts := lines[i..], outs[i..];
        assert rest[0] == line && restOuts[0] == outs[i];
        assert rest[1..] == lines[i + 1..] && restOuts[1..] == outs[i + 1..];
        if IsBlankLine(line) {
          SkipsBlank(rest, restOuts, startPos, strict, result);
        } else {
          var p, at := ParseOne(lines, outs, i);
          if p == Failure(SizePanic) {
            StopsOnPanic(rest, restOuts, startPos, strict, result);
            return Failure(Panicked);
          }
          if p.Failure? {
            var parseErr := ParseError(line, startPos + at, p.error);
            RecordsError(rest, restOuts, startPos, strict, result);
            if strict {
              return Failure(LineFailed(parseErr));
            }
            result := result.(errors := result.errors + [parseErr]);
          } else {
            StoresEntry(rest, restOuts, startPos, strict, result);
            if p.value.0 != "" {
              result := result.(entries := result.entries[p.value.0 := p.value.1]);
            }
          }
        }
        startPos := startPos + |line| + 1;
        i := i + 1;
      }
      r := Success(result);
    }

    /** Line i through a fresh line parser: what ParseLine() returns, and where the parser stopped. */
    method ParseOne(lines: seq<string>, ghost outs: seq<Parsed<(string, Value)>>, i: int)
      returns (p: Result<(string, Value), LineError>, at: int)
      requires Outcomes(lines, outs) && 0 <= i < |lines|
      ensures i < |outs| && Parsed(p, Cursor(at, outs[i].cursor.w)) == outs[i]
    {
      OutcomeAt(lines, outs, i);
      var lp := new LineParser(lines[i]);
      p := lp.ParseLine();
      at := lp.pos;
    }
  }

  /**
   * outs holds what a fresh line parser returns on each of the lines; kept
   * recursive so that the line loop sees one line's outcome at a time.
   */
  predicate Outcomes(lines: seq<string>, outs: seq<Parsed<(string, Value)>>)
    decreases |lines|
  {
    |outs| == |lines| && (|lines| > 0 ==> outs[0] == ParseLineAt(lines[0]) && Outcomes(lines[1..], outs[1..]))
  }

  lemma {:induction false} OutcomeAt(lines: seq<string>, outs: seq<Parsed<(string, Value)>>, i: int)
    requires Outcomes(lines, outs) && 0 <= i < |lines|
    ensures i < |outs| && outs[i] == ParseLineAt(lines[i])
    decreases i
  {
    if i > 0 {
      OutcomeAt(lines[1..], outs[1..], i - 1);
    }
  }

  lemma {:induction false} OutcomesOfLines(lines: seq<string>)
    ensures Outcomes(lines, LineOutcomes(lines))
    decreases |lines|
  {
    if |lines| > 0 {
      var outs := LineOutcomes(lines);
      assert outs[1..] == LineOutcomes(lines[1..]);
      OutcomesOfLines(lines[1..]);
    }
  }

  /** One turn of the entry loop of parseMap(). */
  lemma MapEntriesStep(s: string, c: Cursor, n: nat, acc: map<string, Value>)
    requires SaveFormat.Valid(s, c) && n > 0
    ensures var e := ParseMapEntryAt(s, c);
      MapEntriesAt(s, c, n, acc) ==
        if e.result.Failure? then Parsed(Failure(Within(e.result.error, MapEntryFailed(e.result.error))), e.cursor)
        else MapEntriesAt(s, Expect(s, e.cursor, ',').1, n - 1, acc[e.result.value.0 := e.result.value.1])
  {
  }

  /** One turn of the item loop of parseList(). */
  lemma ListItemsStep(s: string, c: Cursor, n: nat, acc: seq<Value>)
    requires SaveFormat.Valid(s, c) && n > 0
    ensures var v := ParseValueAt(s, c);
      ListItemsAt(s, c, n, acc) ==
        if v.result.Failure? then Parsed(Failure(Within(v.result.error, ListValueInvalid)), v.cursor)
        else ListItemsAt(s, Expect(s, v.cursor, ',').1, n - 1, acc + [v.result.value])
  {
  }

  /** One turn of the line loop of ParseObject(). */
  // One turn of the line loop, case by case.

  lemma SkipsBlank(lines: seq<string>, outs: seq<Parsed<(string, Value)>>, startPos: int, strict: bool, acc: ParseResult)
    requires |outs| == |lines| > 0 && IsBlankLine(lines[0])
    ensures ParseLines(lines, outs, startPos, strict, acc) ==
      ParseLines(lines[1..], outs[1..], startPos + |lines[0]| + 1, strict, acc)
  {
  }

  lemma StopsOnPanic(lines: seq<string>, outs: seq<Parsed<(string, Value)>>, startPos: int, strict: bool, acc: ParseResult)
    requires |outs| == |lines| > 0 && !IsBlankLine(lines[0]) && outs[0].result == Failure(SizePanic)
    ensures ParseLines(lines, outs, startPos, strict, acc) == Failure(Panicked)
  {
  }

  lemma RecordsError(lines: seq<string>, outs: seq<Parsed<(string, Value)>>, startPos: int, strict: bool, acc: ParseResult)
    requires |outs| == |lines| > 0 && !IsBlankLine(lines[0])
    requires outs[0].result.Failure? && outs[0].result != Failure(SizePanic)
    ensures var e := ParseError(lines[0], startPos + outs[0].cursor.pos, outs[0].result.error);
      ParseLines(lines, outs, startPos, strict, acc) ==
        if strict then Failure(LineFailed(e))
        else ParseLines(lines[1..], outs[1..], startPos + |lines[0]| + 1, strict, acc.(errors := acc.errors + [e]))
  {
  }

  lemma StoresEntry(lines: seq<string>, outs: seq<Parsed<(string, Value)>>, startPos: int, strict: bool, acc: ParseResult)
    requires |outs| == |lines| > 0 && !IsBlankLine(lines[0]) && outs[0].result.Success?
    ensures var kv := outs[0].result.value;
      ParseLines(lines, outs, startPos, strict, acc) ==
        ParseLines(lines[1..], outs[1..], startPos + |lines[0]| + 1, strict,
                   if kv.0 != "" then acc.(entries := acc.entries[kv.0 := kv.1]) else acc)
  {
  }
}
