/** Addresses, hashes and 256-bit numbers, and the hand-written encoders and decoders of `U256`
  * (bertha-types/src/u256.rs) and `Log` (bertha-types/src/log.rs). */
module Primitives {
  import opened Bytes
  import opened Rlp
  import opened RlpSchema

  type Address = b: bytes | |b| == 20 witness [0, 0, 0, 0, 0, 0, 0, 0, 0, 0, 0, 0, 0, 0, 0, 0, 0, 0, 0, 0]

  type Hash = b: bytes | |b| == 32
    witness [0, 0, 0, 0, 0, 0, 0, 0, 0, 0, 0, 0, 0, 0, 0, 0, 0, 0, 0, 0, 0, 0, 0, 0, 0, 0, 0, 0, 0, 0, 0, 0]

  type U256 = n: nat | n < Pow256(32)

  const ADDRESS: Kind := KFixed(20)
  const HASH: Kind := KFixed(32)

  function HashValues(hs: seq<Hash>): (vs: seq<Value>)
    ensures |vs| == |hs| && forall i | 0 <= i < |hs| :: vs[i] == VBytes(hs[i])
    ensures AllFit(HASH, vs)
  {
    seq(|hs|, i requires 0 <= i < |hs| => VBytes(hs[i]))
  }

  function HashesOf(vs: seq<Value>): (hs: seq<Hash>)
    requires AllFit(HASH, vs)
    ensures |hs| == |vs| && forall i | 0 <= i < |vs| :: vs[i] == VBytes(hs[i])
  {
    seq(|vs|, i requires 0 <= i < |vs| => assert Fits(HASH, vs[i]); vs[i].b)
  }

  lemma HashesInverse(hs: seq<Hash>)
    ensures HashesOf(HashValues(hs)) == hs
  {
  }

  lemma HashValuesInverse(vs: seq<Value>)
    requires AllFit(HASH, vs)
    ensures HashValues(HashesOf(vs)) == vs
  {
  }

  lemma FromBELeadingZero(s: bytes)
    ensures FromBE([0] + s) == FromBE(s)
  {
    if s == [] {
      assert ([0] + s)[..0] == [];
    } else {
      var init, last := s[..|s| - 1], s[|s| - 1];
      FromBELeadingZero(init);
      assert [0] + s == ([0] + init) + [last];
      FromBESnoc([0] + init, last);
    }
  }

  lemma StripOne(s: bytes)
    requires s != [] && s[0] == 0
    ensures FromBE(s[1..]) == FromBE(s)
  {
    assert s == [0] + s[1..];
    FromBELeadingZero(s[1..]);
  }

  lemma Stripped(s: bytes)
    requires FromBE(s) > 0 && s != [] && (|s| == 1 || s[0] != 0)
    ensures MinimalBE(FromBE(s)) == s
  {
    assert s[0] == 0 ==> s == [0] && FromBE(s) == 256 * FromBE([]) + 0;
    MinimalOfInverse(s);
  }

  /** `U256::encode`: appends the minimal big-endian form, found by stripping the leading zeros of the 32
    * bytes; zero is a special case. */
  method EncodeU256(n: U256, out: bytes) returns (extended: bytes)
    ensures Fits(KU256, VNum(n)) && Sizable(Length(KU256, VNum(n)))
    ensures extended == out + Encode(KU256, VNum(n))
  {
    MinimalLength(n, 32);
    if n == 0 {
      extended := out + Encode(KUint(8), VNum(0));
    } else {
      var s := ToBE(n, 32);
      FromToBE(n, 32);
      while |s| > 1 && s[0] == 0
        invariant 1 <= |s| <= 32 && FromBE(s) == n
      {
        StripOne(s);
        s := s[1..];
      }
      Stripped(s);
      extended := out + EncodeString(s);
    }
  }
}

module LogCodec {
  import opened Bytes
  import opened Primitives
  import opened Rlp
  import opened RlpSchema

  datatype Log = Log(address: Address, topics: seq<Hash>, data: bytes)

  /** The shape of a log, as a struct with a derived codec would have it. */
  const LOG_FIELDS: seq<Kind> := [ADDRESS, KVec(HASH), KBytes]

  function LogFields(log: Log): (vs: seq<Value>)
    ensures FieldsFit(LOG_FIELDS, vs)
  {
    [VBytes(log.address), VSeq(HashValues(log.topics)), VBytes(log.data)]
  }

  function LogOf(vs: seq<Value>): Log
    requires FieldsFit(LOG_FIELDS, vs)
  {
    assert Fits(LOG_FIELDS[0], vs[0]) && Fits(LOG_FIELDS[1], vs[1]) && Fits(LOG_FIELDS[2], vs[2]);
    Log(vs[0].b, HashesOf(vs[1].items), vs[2].b)
  }

  lemma LogFieldsInverse(vs: seq<Value>)
    requires FieldsFit(LOG_FIELDS, vs)
    ensures LogFields(LogOf(vs)) == vs
  {
    assert Fits(LOG_FIELDS[0], vs[0]) && Fits(LOG_FIELDS[1], vs[1]) && Fits(LOG_FIELDS[2], vs[2]);
    HashValuesInverse(vs[1].items);
  }

  lemma LogOfInverse(log: Log)
    ensures LogOf(LogFields(log)) == log
  {
    HashesInverse(log.topics);
  }

  lemma {:induction false} FirstField(fields: seq<Kind>, vs: seq<Value>, a: Kind, rest: seq<Kind>)
    requires FieldsFit(fields, vs) && fields == [a] + rest
    ensures Fits(a, vs[0]) && FieldsFit(rest, vs[1..])
    ensures FieldsLength(fields, vs) == Length(a, vs[0]) + FieldsLength(rest, vs[1..])
    ensures Sizable(FieldsLength(fields, vs)) ==>
              EncodeFields(fields, vs) == Encode(a, vs[0]) + EncodeFields(rest, vs[1..])
  {
    assert fields[1..] == rest && Fits(fields[0], vs[0]);
    forall i | 0 <= i < |rest|
      ensures Fits(rest[i], vs[1..][i])
    {
      assert Fits(fields[i + 1], vs[i + 1]);
    }
  }

  lemma {:induction false} ThreeFields(a: Kind, b: Kind, c: Kind, x: Value, y: Value, z: Value)
    requires FieldsFit([a, b, c], [x, y, z])
    ensures Fits(a, x) && Fits(b, y) && Fits(c, z)
    ensures FieldsLength([a, b, c], [x, y, z]) == Length(a, x) + Length(b, y) + Length(c, z)
    ensures Sizable(FieldsLength([a, b, c], [x, y, z])) ==>
              EncodeFields([a, b, c], [x, y, z]) == Encode(a, x) + (Encode(b, y) + Encode(c, z))
  {
    assert [x, y, z][1..] == [y, z] && [y, z][1..] == [z] && [z][1..] == [];
    FirstField([a, b, c], [x, y, z], a, [b, c]);
    FirstField([b, c], [y, z], b, [c]);
    FirstField([c], [z], c, []);
    if Sizable(FieldsLength([a, b, c], [x, y, z])) {
      assert EncodeFields([c], [z]) == Encode(c, z);
    }
  }

  /** `alloy_rlp_payload_length`. */
  function PayloadLength(log: Log): nat {
    Length(ADDRESS, VBytes(log.address)) + Length(KVec(HASH), VSeq(HashValues(log.topics))) + StringLength(log.data)
  }

  /** `Log::length`. */
  function LogLength(log: Log): nat {
    PayloadLength(log) + LengthOfLength(PayloadLength(log))
  }

  /** `Log::encode`: appends to the buffer what the derived codec would, as many bytes as `length` says. */
  method EncodeLog(log: Log, out: bytes) returns (extended: bytes)
    requires Sizable(LogLength(log))
    ensures Fits(KStruct(LOG_FIELDS), VSeq(LogFields(log)))
    ensures Length(KStruct(LOG_FIELDS), VSeq(LogFields(log))) == LogLength(log)
    ensures extended == out + Encode(KStruct(LOG_FIELDS), VSeq(LogFields(log)))
    ensures |extended| == |out| + LogLength(log)
  {
    ThreeFields(ADDRESS, KVec(HASH), KBytes,
                VBytes(log.address), VSeq(HashValues(log.topics)), VBytes(log.data));
    ghost var header := EncodeHeader(Header(true, PayloadLength(log)));
    ghost var address := Encode(ADDRESS, VBytes(log.address));
    ghost var topics := Encode(KVec(HASH), VSeq(HashValues(log.topics)));
    extended := out + EncodeHeader(Header(true, PayloadLength(log)));
    extended := extended + Encode(ADDRESS, VBytes(log.address));
    extended := extended + Encode(KVec(HASH), VSeq(HashValues(log.topics)));
    extended := extended + EncodeString(log.data);
    Reassociate(out, header, address, topics, EncodeString(log.data));
  }

  lemma Reassociate(a: bytes, b: bytes, c: bytes, d: bytes, e: bytes)
    ensures a + b + c + d + e == a + (b + (c + (d + e)))
  {
  }

  /** What a derived codec would decode. */
  function DerivedDecode(input: bytes): Decoded<Log> {
    DecodedFits(KStruct(LOG_FIELDS), input);
    match Decode(KStruct(LOG_FIELDS), input)
    case Fail => Fail
    case Ok(v, rest) => Ok(LogOf(v.items), rest)
  }

  /** `Log::decode`, including the check that the fields fill the payload. */
  method DecodeLog(input: bytes) returns (d: Decoded<Log>)
    ensures d == DerivedDecode(input)
  {
    DecodedFits(KStruct(LOG_FIELDS), input);
    var header := DecodeHeader(input);
    if header.Fail? || !header.value.list {
      return Fail;
    }
    var b := header.rest;
    DecodeThree(ADDRESS, KVec(HASH), KBytes, b);
    var startedLen := |b|;
    if startedLen < header.value.payload {
      return Fail;
    }
    DecodedFits(ADDRESS, b);
    var address := Decode(ADDRESS, b);
    if address.Fail? {
      return Fail;
    }
    b := address.rest;
    DecodedFits(KVec(HASH), b);
    var topics := Decode(KVec(HASH), b);
    if topics.Fail? {
      return Fail;
    }
    b := topics.rest;
    var data := DecodeBytes(b, false);
    if data.Fail? {
      return Fail;
    }
    b := data.rest;
    var consumed := startedLen - |b|;
    if consumed != header.value.payload {
      return Fail;
    }
    d := Ok(Log(address.value.b, HashesOf(topics.value.items), data.value), b);
  }

  /** Decoding one, two and three fields. */
  lemma {:induction false} DecodeOne(c: Kind, s: bytes)
    ensures var f := Decode(c, s);
            DecodeFields([c], s) == if f.Fail? then Fail else Ok([f.value], f.rest)
  {
    DecodeFirst([c], c, [], s);
    var f := Decode(c, s);
    if f.Ok? { assert [f.value] + [] == [f.value]; }
  }

  lemma {:induction false} DecodeTwo(b: Kind, c: Kind, s: bytes)
    ensures var e := Decode(b, s);
            var f := if e.Fail? then Fail else Decode(c, e.rest);
            DecodeFields([b, c], s) == if f.Fail? then Fail else Ok([e.value, f.value], f.rest)
  {
    DecodeFirst([b, c], b, [c], s);
    var e := Decode(b, s);
    if e.Ok? {
      DecodeOne(c, e.rest);
      var f := Decode(c, e.rest);
      if f.Ok? { assert [e.value] + [f.value] == [e.value, f.value]; }
    }
  }

  lemma {:induction false} DecodeThree(a: Kind, b: Kind, c: Kind, s: bytes)
    ensures var d := Decode(a, s);
            var e := if d.Fail? then Fail else Decode(b, d.rest);
            var f := if e.Fail? then Fail else Decode(c, e.rest);
            DecodeFields([a, b, c], s) == if f.Fail? then Fail else Ok([d.value, e.value, f.value], f.rest)
  {
    DecodeFirst([a, b, c], a, [b, c], s);
    var d := Decode(a, s);
    if d.Ok? {
      DecodeTwo(b, c, d.rest);
      var e := Decode(b, d.rest);
      if e.Ok? && Decode(c, e.rest).Ok? {
        var y, z := e.value, Decode(c, e.rest).value;
        assert [d.value] + [y, z] == [d.value, y, z];
      }
    }
  }

  lemma {:induction false} DecodeFirst(fields: seq<Kind>, a: Kind, rest: seq<Kind>, s: bytes)
    requires fields == [a] + rest
    ensures DecodeFields(fields, s)
            == match Decode(a, s)
               case Fail => Fail
               case Ok(v, s1) =>
                 match DecodeFields(rest, s1)
                 case Fail => Fail
                 case Ok(vs, s2) => Ok([v] + vs, s2)
  {
    assert fields[1..] == rest;
  }

  /** Decoding the encoding of a log gives back the log, and leaves the bytes after it. */
  lemma LogRoundTrip(log: Log, rest: bytes)
    requires Sizable(LogLength(log))
    ensures Length(KStruct(LOG_FIELDS), VSeq(LogFields(log))) == LogLength(log)
    ensures DerivedDecode(Encode(KStruct(LOG_FIELDS), VSeq(LogFields(log))) + rest) == Ok(log, rest)
  {
    ThreeFields(ADDRESS, KVec(HASH), KBytes,
                VBytes(log.address), VSeq(HashValues(log.topics)), VBytes(log.data));
    RoundTrip(KStruct(LOG_FIELDS), VSeq(LogFields(log)), rest);
    LogOfInverse(log);
  }

  /** Decoding accepts nothing but encodings of logs. */
  lemma LogDecodesOnlyEncodings(input: bytes)
    requires Sizable(|input|)
    ensures var d := DerivedDecode(input);
            d.Ok? ==>
              && Sizable(Length(KStruct(LOG_FIELDS), VSeq(LogFields(d.value))))
              && input == Encode(KStruct(LOG_FIELDS), VSeq(LogFields(d.value))) + d.rest
  {
    assert Strict(KStruct(LOG_FIELDS));
    DecodesOnlyEncodings(KStruct(LOG_FIELDS), input);
    DecodedFits(KStruct(LOG_FIELDS), input);
    var d := Decode(KStruct(LOG_FIELDS), input);
    if d.Ok? { LogFieldsInverse(d.value.items); }
  }
}
