/**
 * The Argon2id hash string validator and the version gate of password
 * verification. A hash string reads
 * `$argon2id$v=<version>$m=<memory>,t=<time>,p=<parallelism>$<salt>$<hash>`
 * with decimal unsigned 32-bit numbers and unpadded base64 byte strings.
 */
module Argon2id {
  import opened Wrappers
  import opened Strings
  import opened Base64

  const MaxUint32: nat := 0xFFFF_FFFF

  /** The decoded fields of a hash string. */
  datatype Argon2idHash = Argon2idHash(
    version: nat, memory: nat, time: nat, parallelism: nat, salt: seq<byte>, hash: seq<byte>)

  /** One error per check of the parser, in the order the checks are made. */
  datatype HashError =
    | InvalidFormat
    | InvalidVersionFormat
    | InvalidVersion
    | InvalidParametersFormat
    | InvalidMemoryParameter
    | InvalidMemory
    | InvalidTimeParameter
    | InvalidTime
    | InvalidParallelismParameter
    | InvalidParallelism
    | InvalidSaltEncoding
    | InvalidHashEncoding

  predicate IsDecimal(s: string)
  {
    |s| > 0 && forall i :: 0 <= i < |s| ==> IsAsciiDigit(s[i])
  }

  /** strconv.ParseUint(s, 10, 32): digits only, no sign, at most 2^32 - 1. */
  function ParseUint32(s: string): (r: Option<nat>)
    ensures r.Some? <==> IsDecimal(s) && DecimalValue(s) <= MaxUint32
    ensures r.Some? ==> r.value <= MaxUint32 && NatToDecimal(r.value) == DropLeadingZeros(s)
  {
    if IsDecimal(s) && DecimalValue(s) <= MaxUint32 then
      DecimalCanonical(s);
      Some(DecimalValue(s))
    else None
  }

  /** The digits of s without its leading zeros, keeping a last zero for an all-zero text. */
  function DropLeadingZeros(s: string): string
    decreases |s|
  {
    if |s| > 1 && s[0] == '0' then DropLeadingZeros(s[1..]) else s
  }

  lemma {:induction false} DecimalCanonical(s: string)
    requires IsDecimal(s)
    ensures NatToDecimal(DecimalValue(s)) == DropLeadingZeros(s)
    decreases |s|
  {
    if |s| > 1 && s[0] == '0' {
      DecimalValueSkipsZero(s);
      DecimalCanonical(s[1..]);
    } else if |s| == 1 {
    } else {
      DecimalPrints(s);
    }
  }

  lemma {:induction false} DecimalValueSkipsZero(s: string)
    requires IsDecimal(s) && |s| > 1 && s[0] == '0'
    ensures DecimalValue(s) == DecimalValue(s[1..])
    decreases |s|
  {
    if |s| > 2 {
      assert s[..|s| - 1][1..] == s[1..][..|s[1..]| - 1];
      DecimalValueSkipsZero(s[..|s| - 1]);
    } else {
      assert s[..|s| - 1] == "0";
      assert s[1..][..0] == "";
    }
  }

  /** A digit string without leading zero is the rendering of its value. */
  lemma {:induction false} DecimalPrints(s: string)
    requires IsDecimal(s) && (|s| > 1 ==> s[0] != '0')
    ensures NatToDecimal(DecimalValue(s)) == s
    decreases |s|
  {
    if |s| > 1 {
      var init := s[..|s| - 1];
      DecimalPrints(init);
      DecimalAtLeast(init);
      var n := DecimalValue(s);
      var d := DigitValue(s[|s| - 1]);
      assert n / 10 == DecimalValue(init) && n % 10 == d;
      assert s == init + [s[|s| - 1]];
    }
  }

  lemma {:induction false} DecimalAtLeast(s: string)
    requires IsDecimal(s) && s[0] != '0'
    ensures DecimalValue(s) >= 1 && (|s| > 1 ==> DecimalValue(s) >= 10)
    decreases |s|
  {
    if |s| > 1 {
      assert s[..|s| - 1][0] == s[0];
      DecimalAtLeast(s[..|s| - 1]);
    }
  }

  /** The `$`-separated fields of a well-formed hash string. */
  predicate WellFormedFields(parts: seq<string>)
  {
    |parts| == 6 && parts[0] == "" && parts[1] == "argon2id"
  }

  /** A `<prefix><uint32>` field: the number after the prefix, if there is one. */
  function PrefixedUint32(field: string, prefix: string): Option<nat>
  {
    if HasPrefix(field, prefix) then ParseUint32(TrimPrefix(field, prefix)) else None
  }

  /** The three comma-separated parameter fields: memory, time and parallelism, in that order. */
  function ParamValues(field: string): Option<(nat, nat, nat)>
  {
    var ps := Split(field, ',');
    if |ps| == 3 then
      var m := PrefixedUint32(ps[0], "m=");
      var t := PrefixedUint32(ps[1], "t=");
      var p := PrefixedUint32(ps[2], "p=");
      if m.Some? && t.Some? && p.Some? then Some((m.value, t.value, p.value)) else None
    else None
  }

  function ParseArgon2idHash(h: string): (r: Result<Argon2idHash, HashError>)
    ensures r == Failure(InvalidFormat) <==> !WellFormedFields(Split(h, '$'))
    ensures r.Success? ==> var parts := Split(h, '$');
      && WellFormedFields(parts)
      && PrefixedUint32(parts[2], "v=") == Some(r.value.version)
      && ParamValues(parts[3]) == Some((r.value.memory, r.value.time, r.value.parallelism))
      && Decode(parts[4]) == Some(r.value.salt)
      && Decode(parts[5]) == Some(r.value.hash)
    ensures r.Success? ==> (r.value.version <= MaxUint32 && r.value.memory <= MaxUint32
      && r.value.time <= MaxUint32 && r.value.parallelism <= MaxUint32)
    ensures r == Failure(InvalidVersionFormat) ==> !HasPrefix(Split(h, '$')[2], "v=")
    ensures r == Failure(InvalidParametersFormat) ==> |Split(Split(h, '$')[3], ',')| != 3
    ensures r == Failure(InvalidSaltEncoding) ==> Decode(Split(h, '$')[4]).None?
    ensures r == Failure(InvalidHashEncoding) ==> Decode(Split(h, '$')[5]).None?
  {
    var parts := Split(h, '$');
    if !WellFormedFields(parts) then Failure(InvalidFormat)
    else if !HasPrefix(parts[2], "v=") then Failure(InvalidVersionFormat)
    else
      var version := ParseUint32(TrimPrefix(parts[2], "v="));
      if version.None? then Failure(InvalidVersion)
      else
        var params := Split(parts[3], ',');
        if |params| != 3 then Failure(InvalidParametersFormat)
        else if !HasPrefix(params[0], "m=") then Failure(InvalidMemoryParameter)
        else
          var memory := ParseUint32(TrimPrefix(params[0], "m="));
          if memory.None? then Failure(InvalidMemory)
          else if !HasPrefix(params[1], "t=") then Failure(InvalidTimeParameter)
          else
            var time := ParseUint32(TrimPrefix(params[1], "t="));
            if time.None? then Failure(InvalidTime)
            else if !HasPrefix(params[2], "p=") then Failure(InvalidParallelismParameter)
            else
              var parallelism := ParseUint32(TrimPrefix(params[2], "p="));
              if parallelism.None? then Failure(InvalidParallelism)
              else
                var salt := Decode(parts[4]);
                if salt.None? then Failure(InvalidSaltEncoding)
                else
                  var hash := Decode(parts[5]);
                  if hash.None? then Failure(InvalidHashEncoding)
                  else Success(Argon2idHash(version.value, memory.value, time.value, parallelism.value,
                                            salt.value, hash.value))
  }

  /** Conversely, a string whose six fields all read correctly is accepted with those values. */
  lemma ParseAcceptsValidFields(h: string, x: Argon2idHash)
    requires var parts := Split(h, '$');
      && WellFormedFields(parts)
      && PrefixedUint32(parts[2], "v=") == Some(x.version)
      && ParamValues(parts[3]) == Some((x.memory, x.time, x.parallelism))
      && Decode(parts[4]) == Some(x.salt)
      && Decode(parts[5]) == Some(x.hash)
    ensures ParseArgon2idHash(h) == Success(x)
  {
  }

  /** The canonical hash string of the fields: decimal numbers without leading zeros, unpadded base64. */
  function FormatArgon2idHash(x: Argon2idHash): string
  {
    Join(["", "argon2id", "v=" + NatToDecimal(x.version), FormatParams(x), Encode(x.salt), Encode(x.hash)], '$')
  }

  function FormatParams(x: Argon2idHash): string
  {
    Join(["m=" + NatToDecimal(x.memory), "t=" + NatToDecimal(x.time), "p=" + NatToDecimal(x.parallelism)], ',')
  }

  lemma PrefixedDecimal(prefix: string, n: nat)
    requires n <= MaxUint32
    ensures PrefixedUint32(prefix + NatToDecimal(n), prefix) == Some(n)
  {
    var f := prefix + NatToDecimal(n);
    assert f[..|prefix|] == prefix;
    assert TrimPrefix(f, prefix) == NatToDecimal(n);
    DecimalRoundTrip(n);
  }

  lemma NoCharIn(s: string, c: char)
    requires forall i :: 0 <= i < |s| ==> s[i] != c
    ensures c !in s
  {
  }

  lemma FormatParamsRoundTrip(x: Argon2idHash)
    requires x.memory <= MaxUint32 && x.time <= MaxUint32 && x.parallelism <= MaxUint32
    ensures ParamValues(FormatParams(x)) == Some((x.memory, x.time, x.parallelism))
    ensures '$' !in FormatParams(x)
  {
    var m := "m=" + NatToDecimal(x.memory);
    var t := "t=" + NatToDecimal(x.time);
    var p := "p=" + NatToDecimal(x.parallelism);
    NoCharIn(m, ','); NoCharIn(t, ','); NoCharIn(p, ',');
    SplitJoin([m, t, p], ',');
    PrefixedDecimal("m=", x.memory);
    PrefixedDecimal("t=", x.time);
    PrefixedDecimal("p=", x.parallelism);
    NoCharIn(m, '$'); NoCharIn(t, '$'); NoCharIn(p, '$');
    JoinAvoids([m, t, p], ',', '$');
  }

  /** Parsing the canonical string of fields within range gives those fields back. */
  lemma FormatRoundTrip(x: Argon2idHash)
    requires x.version <= MaxUint32 && x.memory <= MaxUint32
    requires x.time <= MaxUint32 && x.parallelism <= MaxUint32
    ensures ParseArgon2idHash(FormatArgon2idHash(x)) == Success(x)
  {
    var v := "v=" + NatToDecimal(x.version);
    var params := FormatParams(x);
    FormatParamsRoundTrip(x);
    NoCharIn(v, '$');
    NoCharIn(Encode(x.salt), '$');
    NoCharIn(Encode(x.hash), '$');
    var pieces := ["", "argon2id", v, params, Encode(x.salt), Encode(x.hash)];
    SplitJoin(pieces, '$');
    var h := FormatArgon2idHash(x);
    assert Split(h, '$') == pieces;
    PrefixedDecimal("v=", x.version);
    DecodeEncode(x.salt);
    DecodeEncode(x.hash);
    ParseAcceptsValidFields(h, x);
  }

  /** The outcome of password verification. */
  datatype VerifyOutcome =
    | Verified
    | BadHash(error: HashError)
    | UnsupportedVersion(version: nat)
    | PasswordMismatch

  /** The only Argon2 version verification accepts. */
  const SupportedVersion: nat := 19

  /**
   * VerifyPassword: the key derivation (argon2.IDKey over password, salt,
   * time, memory, an 8-bit thread count and the hash length) is the
   * parameter deriveKey; the constant-time comparison is equality.
   */
  function VerifyPassword(password: string, hashed: string,
                          deriveKey: (string, seq<byte>, nat, nat, nat, nat) -> seq<byte>): (r: VerifyOutcome)
    ensures ParseArgon2idHash(hashed).Failure? ==> r == BadHash(ParseArgon2idHash(hashed).error)
    ensures ParseArgon2idHash(hashed).Success? && ParseArgon2idHash(hashed).value.version != SupportedVersion
            ==> r == UnsupportedVersion(ParseArgon2idHash(hashed).value.version)
    ensures r == Verified ==> (ParseArgon2idHash(hashed).Success?
      && ParseArgon2idHash(hashed).value.version == SupportedVersion)
  {
    match ParseArgon2idHash(hashed)
    case Failure(e) => BadHash(e)
    case Success(x) =>
      if x.version != SupportedVersion then UnsupportedVersion(x.version)
      else
        var computed := deriveKey(password, x.salt, x.time, x.memory, x.parallelism % 256, |x.hash|);
        if computed == x.hash then Verified else PasswordMismatch
  }

  /** The version is refused before any key is derived: the outcome does not depend on the derivation. */
  lemma VersionCheckedBeforeHashing(password: string, hashed: string,
                                    k1: (string, seq<byte>, nat, nat, nat, nat) -> seq<byte>,
                                    k2: (string, seq<byte>, nat, nat, nat, nat) -> seq<byte>)
    requires ParseArgon2idHash(hashed).Success?
    requires ParseArgon2idHash(hashed).value.version != SupportedVersion
    ensures VerifyPassword(password, hashed, k1) == VerifyPassword(password, hashed, k2)
    ensures VerifyPassword(password, hashed, k1).UnsupportedVersion?
  {
  }
}
