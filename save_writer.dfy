/**
 * A reference writer for the scalar values of the `.o` save format: quoted
 * strings, integers and float literals. It is the inverse the object parser
 * is checked against.
 */
module SaveWriter {
  import opened Strings
  import opened LpcValues

  datatype Saved =
    | SString(text: string)
    | SInt(i: int)
    | SFloat(literal: string)

  const MaxInt64: int := 0x7FFF_FFFF_FFFF_FFFF

  /** A string the writer can quote without backslashes; NUL would end the string early. */
  predicate Plain(t: string)
  {
    forall i :: 0 <= i < |t| ==> t[i] != '\\' && t[i] != '\0'
  }

  function Quote(t: string): string
  {
    "\"" + EscapeQuotes(t) + "\""
  }

  /** What the writer can write so that the parser reads it back. */
  predicate Writable(x: Saved)
  {
    match x
    case SString(t) => Plain(t)
    case SInt(i) => -MaxInt64 - 1 <= i <= MaxInt64
    case SFloat(l) => IsFloatLiteral(l) && '.' in l && l[0] != '.'
  }

  function Write(x: Saved): string
  {
    match x
    case SString(t) => Quote(t)
    case SInt(i) => Itoa(i)
    case SFloat(l) => l
  }

  /** The value a written form stands for. */
  function Meaning(x: Saved): Value
  {
    match x
    case SString(t) => VString(t)
    case SInt(i) => VInt(i)
    case SFloat(l) => VFloat(l)
  }
}
