/**
 * The values of the LPC save format as the object parser produces them:
 * strings, integers, floats, arrays ("lists") and mappings with string keys.
 */
module LpcValues {
  import opened Strings

  datatype Value =
    | VString(s: string)
    | VInt(i: int)
      /** A float, kept as the literal it was read from. */
    | VFloat(literal: string)
    | VList(items: seq<Value>)
    | VMap(entries: map<string, Value>)

  /** A float literal without its sign. */
  function FloatBody(t: string): string
  {
    if |t| > 0 && t[0] == '-' then t[1..] else t
  }

  /**
   * Whether t is a float literal the parser accepts: an optional minus sign,
   * then digits with at most one decimal point and at least one digit.
   */
  predicate IsFloatLiteral(t: string)
  {
    var body := FloatBody(t);
    && (forall i :: 0 <= i < |body| ==> IsAsciiDigit(body[i]) || body[i] == '.')
    && (exists i :: 0 <= i < |body| && IsAsciiDigit(body[i]))
    && (forall i, j :: 0 <= i < j < |body| && body[i] == '.' ==> body[j] != '.')
  }
}
