/**
 * Unpadded standard base64 (Go's base64.RawStdEncoding): the decoder the
 * Argon2id hash parser applies to the salt and hash fields, and the
 * matching encoder.
 */
module Base64 {
  import opened Wrappers

  type byte = b: int | 0 <= b < 256

  const Alphabet: string := "ABCDEFGHIJKLMNOPQRSTUVWXYZabcdefghijklmnopqrstuvwxyz0123456789+/"

  predicate IsBase64Char(c: char)
  {
    ('A' <= c <= 'Z') || ('a' <= c <= 'z') || ('0' <= c <= '9') || c == '+' || c == '/'
  }

  function SextetChar(v: nat): (c: char)
    requires v < 64
    ensures IsBase64Char(c)
  {
    if v < 26 then ('A' as int + v) as char
    else if v < 52 then ('a' as int + v - 26) as char
    else if v < 62 then ('0' as int + v - 52) as char
    else if v == 62 then '+'
    else '/'
  }

  function SextetValue(c: char): (v: nat)
    requires IsBase64Char(c)
    ensures v < 64 && SextetChar(v) == c
  {
    if 'A' <= c <= 'Z' then c as int - 'A' as int
    else if 'a' <= c <= 'z' then c as int - 'a' as int + 26
    else if '0' <= c <= '9' then c as int - '0' as int + 52
    else if c == '+' then 62
    else 63
  }

  lemma SextetRoundTrip(v: nat)
    requires v < 64
    ensures SextetValue(SextetChar(v)) == v
  {
  }

  /** The 24-bit value of a group of four sextets, missing sextets counting as zero. */
  function Quantum(a: nat, b: nat, c: nat, d: nat): nat
  {
    a * 262144 + b * 4096 + c * 64 + d
  }

  /** The decoder skips carriage returns and line feeds wherever they occur. */
  function StripNewlines(s: string): (t: string)
    ensures forall i :: 0 <= i < |t| ==> t[i] != '\r' && t[i] != '\n'
    decreases |s|
  {
    if |s| == 0 then ""
    else (if s[0] == '\r' || s[0] == '\n' then "" else [s[0]]) + StripNewlines(s[1..])
  }

  predicate Decodable(t: string)
  {
    && (forall i :: 0 <= i < |t| ==> IsBase64Char(t[i]))
    && |t| % 4 != 1
  }

  /**
   * DecodeString: fails on any character outside the alphabet (padding `=`
   * included) and on a final group of a single character.
   */
  function Decode(s: string): (r: Option<seq<byte>>)
    ensures r.Some? <==> Decodable(StripNewlines(s))
    ensures r.Some? ==> |r.value| == |StripNewlines(s)| * 3 / 4
  {
    var t := StripNewlines(s);
    if Decodable(t) then Some(DecodeGroups(t)) else None
  }

  function DecodeGroups(t: string): (r: seq<byte>)
    requires Decodable(t)
    ensures |r| == |t| * 3 / 4
    decreases |t|
  {
    if |t| == 0 then []
    else if |t| == 2 then
      var v := Quantum(SextetValue(t[0]), SextetValue(t[1]), 0, 0);
      [v / 65536 % 256]
    else if |t| == 3 then
      var v := Quantum(SextetValue(t[0]), SextetValue(t[1]), SextetValue(t[2]), 0);
      [v / 65536 % 256, v / 256 % 256]
    else
      var v := Quantum(SextetValue(t[0]), SextetValue(t[1]), SextetValue(t[2]), SextetValue(t[3]));
      DecodableTail(t);
      [v / 65536 % 256, v / 256 % 256, v % 256] + DecodeGroups(t[4..])
  }

  /** Past a full group of four, the rest is decodable and decodes to three bytes fewer. */
  lemma DecodableTail(t: string)
    requires Decodable(t) && |t| >= 4
    ensures Decodable(t[4..]) && |t| * 3 / 4 == 3 + |t[4..]| * 3 / 4
  {
    assert forall i :: 0 <= i < |t[4..]| ==> t[4..][i] == t[i + 4];
  }

  /** The four sextets of three bytes, high bits first. */
  function Sextets(b0: byte, b1: byte, b2: byte): (s: seq<nat>)
    ensures |s| == 4 && forall i :: 0 <= i < 4 ==> s[i] < 64
  {
    [b0 / 4, b0 % 4 * 16 + b1 / 16, b1 % 16 * 4 + b2 / 64, b2 % 64]
  }

  /** EncodeToString of RawStdEncoding: three bytes per four characters, no padding. */
  function Encode(b: seq<byte>): (s: string)
    ensures Decodable(s)
    ensures forall i :: 0 <= i < |s| ==> s[i] != '\r' && s[i] != '\n'
    decreases |b|
  {
    if |b| == 0 then ""
    else if |b| == 1 then
      var q := Sextets(b[0], 0, 0);
      [SextetChar(q[0]), SextetChar(q[1])]
    else if |b| == 2 then
      var q := Sextets(b[0], b[1], 0);
      [SextetChar(q[0]), SextetChar(q[1]), SextetChar(q[2])]
    else
      var q := Sextets(b[0], b[1], b[2]);
      var rest := Encode(b[3..]);
      var head := [SextetChar(q[0]), SextetChar(q[1]), SextetChar(q[2]), SextetChar(q[3])];
      GroupThenRest(head, rest);
      head + rest
  }

  /** A group of four alphabet characters before a decodable, line-break-free text keeps it so. */
  lemma GroupThenRest(head: string, rest: string)
    requires |head| == 4 && forall i :: 0 <= i < 4 ==> IsBase64Char(head[i])
    requires Decodable(rest) && forall i :: 0 <= i < |rest| ==> rest[i] != '\r' && rest[i] != '\n'
    ensures Decodable(head + rest)
    ensures forall i :: 0 <= i < |head + rest| ==> (head + rest)[i] != '\r' && (head + rest)[i] != '\n'
  {
    var s := head + rest;
    assert forall i :: 4 <= i < |s| ==> s[i] == rest[i - 4];
  }

  /** The sextets of three bytes recombine into their 24-bit value. */
  lemma SextetsQuantum(b0: byte, b1: byte, b2: byte)
    ensures var q := Sextets(b0, b1, b2);
      Quantum(q[0], q[1], q[2], q[3]) == b0 * 65536 + b1 * 256 + b2
  {
    assert b0 == b0 / 4 * 4 + b0 % 4;
    assert b1 == b1 / 16 * 16 + b1 % 16;
    assert b2 == b2 / 64 * 64 + b2 % 64;
  }

  lemma QuantumBytes(b0: byte, b1: byte, b2: byte)
    ensures var v := b0 * 65536 + b1 * 256 + b2;
      v / 65536 % 256 == b0 && v / 256 % 256 == b1 && v % 256 == b2
  {
    var v := b0 * 65536 + b1 * 256 + b2;
    var lo := b1 * 256 + b2;
    assert 0 <= lo < 65536;
    assert v / 65536 == b0;
    assert v / 256 == b0 * 256 + b1;
    assert (b0 * 256 + b1) % 256 == b1;
  }

  lemma {:induction false} StripNothing(s: string)
    requires forall i :: 0 <= i < |s| ==> s[i] != '\r' && s[i] != '\n'
    ensures StripNewlines(s) == s
    decreases |s|
  {
    if |s| > 0 {
      StripNothing(s[1..]);
    }
  }

  lemma GroupRoundTrip(b0: byte, b1: byte, b2: byte)
    ensures var q := Sextets(b0, b1, b2);
      var v := Quantum(SextetValue(SextetChar(q[0])), SextetValue(SextetChar(q[1])),
        SextetValue(SextetChar(q[2])), SextetValue(SextetChar(q[3])));
      v / 65536 % 256 == b0 && v / 256 % 256 == b1 && v % 256 == b2
  {
    var q := Sextets(b0, b1, b2);
    SextetRoundTrip(q[0]);
    SextetRoundTrip(q[1]);
    SextetRoundTrip(q[2]);
    SextetRoundTrip(q[3]);
    SextetsQuantum(b0, b1, b2);
    QuantumBytes(b0, b1, b2);
  }

  lemma {:induction false} DecodeGroupsEncode(b: seq<byte>)
    ensures DecodeGroups(Encode(b)) == b
    decreases |b|
  {
    if |b| == 1 {
      GroupRoundTrip(b[0], 0, 0);
      assert Sextets(b[0], 0, 0)[2] == 0;
    } else if |b| == 2 {
      GroupRoundTrip(b[0], b[1], 0);
      assert Sextets(b[0], b[1], 0)[3] == 0;
    } else if |b| >= 3 {
      GroupRoundTrip(b[0], b[1], b[2]);
      var s := Encode(b);
      assert s[4..] == Encode(b[3..]);
      DecodeGroupsEncode(b[3..]);
      assert b == b[..3] + b[3..];
    }
  }

  /** Decoding an encoded byte string gives it back. */
  lemma DecodeEncode(b: seq<byte>)
    ensures Decode(Encode(b)) == Some(b)
  {
    StripNothing(Encode(b));
    DecodeGroupsEncode(b);
  }

  /** Padding is refused: a text holding `=` never decodes. */
  lemma PaddingRejected(s: string, i: nat)
    requires i < |s| && s[i] == '='
    ensures Decode(s) == None
  {
    StripKeeps(s, i);
  }

  lemma {:induction false} StripKeeps(s: string, i: nat)
    requires i < |s| && s[i] != '\r' && s[i] != '\n'
    ensures s[i] in StripNewlines(s)
    decreases |s|
  {
    if i > 0 {
      StripKeeps(s[1..], i - 1);
    }
  }
}
