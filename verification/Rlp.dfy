/** Recursive Length Prefix, Appendix B of the Ethereum Yellow Paper, with the canonical forms that the
  * decoder of bertha-types insists on. */
module Rlp {
  import opened Bytes

  const EMPTY_STRING_CODE: byte := 0x80
  const EMPTY_LIST_CODE: byte := 0xc0

  datatype Decoded<+T> = Fail | Ok(value: T, rest: bytes)

  // --- Minimal big-endian numbers ---

  function MinimalBE(n: nat): bytes {
    if n == 0 then [] else MinimalBE(n / 256) + [n % 256]
  }

  lemma {:induction false} MinimalInverse(n: nat)
    ensures FromBE(MinimalBE(n)) == n
  {
    if n > 0 {
      MinimalInverse(n / 256);
      FromBESnoc(MinimalBE(n / 256), n % 256);
    }
  }

  lemma {:induction false} MinimalHead(n: nat)
    requires n > 0
    ensures MinimalBE(n) != [] && MinimalBE(n)[0] != 0
  {
    if n / 256 > 0 { MinimalHead(n / 256); }
  }

  lemma {:induction false} MinimalLength(n: nat, k: nat)
    ensures |MinimalBE(n)| <= k <==> n < Pow256(k)
  {
    if n > 0 && k > 0 { MinimalLength(n / 256, k - 1); }
  }

  /** Every byte string without leading zero is the minimal form of its number. */
  lemma {:induction false} MinimalOfInverse(s: bytes)
    requires s != [] ==> s[0] != 0
    ensures MinimalBE(FromBE(s)) == s && (s != [] ==> FromBE(s) > 0)
  {
    if s != [] {
      var init, last := s[..|s| - 1], s[|s| - 1];
      MinimalOfInverse(init);
      Appended(FromBE(init), last);
      assert s == init + [last];
    }
  }

  lemma Appended(n: nat, b: byte)
    ensures (256 * n + b) / 256 == n && (256 * n + b) % 256 == b
  {
  }

  // --- Headers ---

  /** `Header`. */
  datatype Header = Header(list: bool, payload: nat)

  /** `length_of_length`: the size of a header for a payload of this size. */
  function LengthOfLength(payload: nat): nat {
    if payload < 56 then 1 else 1 + |MinimalBE(payload)|
  }

  predicate Sizable(n: nat) { n <= U64_MAX }

  lemma SizableLength(n: nat)
    requires Sizable(n)
    ensures |MinimalBE(n)| <= 8
  {
    Pow256Of8();
    MinimalLength(n, 8);
  }

  /** `Header::encode`. */
  function EncodeHeader(h: Header): (s: bytes)
    requires Sizable(h.payload)
    ensures |s| == LengthOfLength(h.payload)
  {
    SizableLength(h.payload);
    if h.payload < 56 then [(if h.list then EMPTY_LIST_CODE else EMPTY_STRING_CODE) + h.payload]
    else [(if h.list then 0xf7 else 0xb7) + |MinimalBE(h.payload)|] + MinimalBE(h.payload)
  }

  /** `Header::decode`, on the whole remaining input. A single byte below 0x80 is its own payload. */
  function DecodeHeader(s: bytes): (d: Decoded<Header>)
    ensures d.Ok? ==> |d.rest| <= |s| && d.value.payload <= |d.rest|
    ensures d.Ok? && d.value.list ==> |d.rest| < |s|
    ensures d.Ok? ==> |d.rest| - d.value.payload < |s|
  {
    if s == [] then Fail
    else if s[0] < EMPTY_STRING_CODE then Ok(Header(false, 1), s)
    else if s[0] <= 0xb7 then
      var n := s[0] - EMPTY_STRING_CODE;
      if n == 1 && (|s| == 1 || s[1] < EMPTY_STRING_CODE) then Fail
      else Fitting(Header(false, n), s[1..])
    else if s[0] < EMPTY_LIST_CODE then LongHeader(false, s[0] - 0xb7, s[1..])
    else if s[0] <= 0xf7 then Fitting(Header(true, s[0] - EMPTY_LIST_CODE), s[1..])
    else LongHeader(true, s[0] - 0xf7, s[1..])
  }

  /** The length follows in the given number of bytes: without leading zero, and not below 56. */
  function LongHeader(list: bool, lengthSize: nat, s: bytes): (d: Decoded<Header>)
    requires 1 <= lengthSize <= 8
    ensures d.Ok? ==> |d.rest| <= |s| && d.value.payload <= |d.rest| && d.value.list == list
  {
    if |s| < lengthSize || s[0] == 0 then Fail
    else
      var n := FromBE(s[..lengthSize]);
      if n < 56 then Fail else Fitting(Header(list, n), s[lengthSize..])
  }

  /** The payload must be there. */
  function Fitting(h: Header, rest: bytes): Decoded<Header> {
    if |rest| < h.payload then Fail else Ok(h, rest)
  }

  lemma {:induction false} ShortHeaderBack(h: Header, rest: bytes)
    requires h.payload < 56 && h.payload <= |rest|
    requires !h.list && h.payload == 1 ==> rest[0] >= EMPTY_STRING_CODE
    ensures Sizable(h.payload) && DecodeHeader(EncodeHeader(h) + rest) == Ok(h, rest)
  {
    var s := EncodeHeader(h) + rest;
    assert s[1..] == rest;
  }

  lemma {:induction false} LongLengthBack(list: bool, n: nat, rest: bytes)
    requires 56 <= n <= |rest| && Sizable(n)
    ensures 1 <= |MinimalBE(n)| <= 8
    ensures LongHeader(list, |MinimalBE(n)|, MinimalBE(n) + rest) == Ok(Header(list, n), rest)
  {
    SizableLength(n);
    MinimalHead(n);
    MinimalInverse(n);
    var size := MinimalBE(n);
    assert (size + rest)[..|size|] == size && (size + rest)[|size|..] == rest;
  }

  lemma {:induction false} HeaderRoundTrip(h: Header, rest: bytes)
    requires Sizable(h.payload) && h.payload <= |rest|
    requires !h.list && h.payload == 1 ==> rest[0] >= EMPTY_STRING_CODE
    ensures DecodeHeader(EncodeHeader(h) + rest) == Ok(h, rest)
  {
    if h.payload < 56 {
      ShortHeaderBack(h, rest);
    } else {
      LongLengthBack(h.list, h.payload, rest);
      var size := MinimalBE(h.payload);
      var code := (if h.list then 0xf7 else 0xb7) + |size|;
      assert EncodeHeader(h) + rest == [code] + (size + rest);
    }
  }

  // --- Strings ---

  /** The encoding of a byte slice. */
  function EncodeString(b: bytes): (s: bytes)
    requires Sizable(|b|)
    ensures |s| == StringLength(b)
  {
    if |b| == 1 && b[0] < EMPTY_STRING_CODE then b else EncodeHeader(Header(false, |b|)) + b
  }

  /** `length` of a byte slice. */
  function StringLength(b: bytes): (n: nat)
    ensures n >= 1 && n >= |b|
  {
    if |b| == 1 && b[0] < EMPTY_STRING_CODE then 1 else LengthOfLength(|b|) + |b|
  }

  /** `Header::decode_bytes`. */
  function DecodeBytes(s: bytes, list: bool): (d: Decoded<bytes>)
    ensures d.Ok? ==> |d.rest| < |s| && |d.value| <= |s| && (list ==> |d.value| < |s|)
  {
    match DecodeHeader(s)
    case Fail => Fail
    case Ok(h, rest) => if h.list != list then Fail else Ok(rest[..h.payload], rest[h.payload..])
  }

  lemma {:induction false} StringRoundTrip(b: bytes, rest: bytes)
    requires Sizable(|b|)
    ensures DecodeBytes(EncodeString(b) + rest, false) == Ok(b, rest)
  {
    if |b| == 1 && b[0] < EMPTY_STRING_CODE {
      assert (b + rest)[..1] == b && (b + rest)[1..] == rest;
    } else {
      HeaderRoundTrip(Header(false, |b|), b + rest);
      assert EncodeString(b) + rest == EncodeHeader(Header(false, |b|)) + (b + rest);
      assert (b + rest)[..|b|] == b && (b + rest)[|b|..] == rest;
    }
  }

  lemma {:induction false} ListRoundTrip(payload: bytes, rest: bytes)
    requires Sizable(|payload|)
    ensures DecodeBytes(EncodeHeader(Header(true, |payload|)) + payload + rest, true) == Ok(payload, rest)
    ensures DecodeHeader(EncodeHeader(Header(true, |payload|)) + payload + rest)
            == Ok(Header(true, |payload|), payload + rest)
  {
    HeaderRoundTrip(Header(true, |payload|), payload + rest);
    assert EncodeHeader(Header(true, |payload|)) + payload + rest
        == EncodeHeader(Header(true, |payload|)) + (payload + rest);
    assert (payload + rest)[..|payload|] == payload && (payload + rest)[|payload|..] == rest;
  }

  // --- Only canonical encodings are accepted ---

  /** The decoded header, followed by the rest, is the input; or there is no header, but a single byte. */
  predicate CanonicalHeader(s: bytes, h: Header, rest: bytes) {
    if rest == s then h == Header(false, 1) && s != [] && s[0] < EMPTY_STRING_CODE
    else
      && Sizable(h.payload) && s == EncodeHeader(h) + rest
      && (h == Header(false, 1) ==> rest != [] && rest[0] >= EMPTY_STRING_CODE)
  }

  lemma {:induction false} HeaderIsCanonical(s: bytes)
    ensures DecodeHeader(s).Ok? ==> CanonicalHeader(s, DecodeHeader(s).value, DecodeHeader(s).rest)
  {
    if s != [] && s[0] >= EMPTY_STRING_CODE && DecodeHeader(s).Ok? {
      if 0xb7 < s[0] < EMPTY_LIST_CODE {
        LongCanonicalHeader(false, s);
      } else if 0xf7 < s[0] {
        LongCanonicalHeader(true, s);
      } else {
        ShortIsCanonical(s);
      }
    }
  }

  lemma {:induction false} ShortIsCanonical(s: bytes)
    requires s != [] && (EMPTY_STRING_CODE <= s[0] <= 0xb7 || EMPTY_LIST_CODE <= s[0] <= 0xf7)
    ensures DecodeHeader(s).Ok? ==> CanonicalHeader(s, DecodeHeader(s).value, DecodeHeader(s).rest)
  {
    assert s == [s[0]] + s[1..];
  }

  lemma {:induction false} LongCanonicalHeader(list: bool, s: bytes)
    requires s != [] && (if list then 0xf7 < s[0] else 0xb7 < s[0] < EMPTY_LIST_CODE)
    ensures DecodeHeader(s).Ok? ==> CanonicalHeader(s, DecodeHeader(s).value, DecodeHeader(s).rest)
  {
    var lengthSize := s[0] - if list then 0xf7 else 0xb7;
    var d := LongHeader(list, lengthSize, s[1..]);
    assert DecodeHeader(s) == d;
    if d.Ok? {
      LongIsCanonical(list, lengthSize, s[1..]);
      LongEncoded(s, list, lengthSize, d.value.payload, d.rest);
    }
  }

  lemma LongEncoded(s: bytes, list: bool, lengthSize: nat, payload: nat, rest: bytes)
    requires s != [] && s[0] == lengthSize + (if list then 0xf7 else 0xb7)
    requires Sizable(payload) && payload >= 56 && |MinimalBE(payload)| == lengthSize
    requires s[1..] == MinimalBE(payload) + rest
    ensures s == EncodeHeader(Header(list, payload)) + rest
  {
    assert s == [s[0]] + s[1..];
  }

  lemma {:induction false} LongIsCanonical(list: bool, lengthSize: nat, s: bytes)
    requires 1 <= lengthSize <= 8 && LongHeader(list, lengthSize, s).Ok?
    ensures var d := LongHeader(list, lengthSize, s);
            && Sizable(d.value.payload) && d.value.payload >= 56
            && |MinimalBE(d.value.payload)| == lengthSize && s == MinimalBE(d.value.payload) + d.rest
  {
    var size := s[..lengthSize];
    MinimalOfInverse(size);
    Pow256Of8();
    MinimalLength(FromBE(size), 8);
    assert s == size + s[lengthSize..];
  }

  lemma {:induction false} StringIsCanonical(s: bytes)
    ensures var d := DecodeBytes(s, false); d.Ok? ==> Sizable(|d.value|) && s == EncodeString(d.value) + d.rest
  {
    HeaderIsCanonical(s);
    var d := DecodeHeader(s);
    if d.Ok? && !d.value.list {
      var b, rest := d.rest[..d.value.payload], d.rest[d.value.payload..];
      assert d.rest == b + rest;
      if d.rest != s {
        assert s == EncodeHeader(d.value) + b + rest;
      }
    }
  }

  lemma {:induction false} ListIsCanonical(s: bytes)
    ensures var d := DecodeBytes(s, true);
            d.Ok? ==> Sizable(|d.value|) && s == EncodeHeader(Header(true, |d.value|)) + d.value + d.rest
  {
    HeaderIsCanonical(s);
    var d := DecodeHeader(s);
    if d.Ok? && d.value.list {
      Split(EncodeHeader(d.value), d.rest, d.value.payload);
      assert Header(true, d.value.payload) == d.value;
    }
  }

  lemma {:induction false} Split(header: bytes, s: bytes, n: nat)
    requires n <= |s|
    ensures header + s == header + s[..n] + s[n..]
  {
    assert s == s[..n] + s[n..];
  }

  // --- Sizes ---

  lemma {:induction false} MinimalMonotone(m: nat, n: nat)
    requires m <= n
    ensures |MinimalBE(m)| <= |MinimalBE(n)|
  {
    if m > 0 { MinimalMonotone(m / 256, n / 256); }
  }

  lemma LengthOfLengthMonotone(m: nat, n: nat)
    requires m <= n
    ensures LengthOfLength(m) <= LengthOfLength(n)
  {
    MinimalMonotone(m, n);
  }

  /** The minimal form is no longer than any form, and strictly shorter than one with a leading zero. */
  lemma {:induction false} MinimalIsShortest(s: bytes)
    ensures |MinimalBE(FromBE(s))| <= |s|
    ensures s != [] && s[0] == 0 ==> |MinimalBE(FromBE(s))| < |s|
  {
    if s != [] {
      var init, last := s[..|s| - 1], s[|s| - 1];
      MinimalIsShortest(init);
      Appended(FromBE(init), last);
      assert FromBE(s) == 256 * FromBE(init) + last;
      if |s| == 1 {
        assert FromBE(init) == 0;
      }
    }
  }

  lemma {:induction false} StringLengthMonotone(a: bytes, b: bytes)
    requires |a| <= |b|
    requires |a| == 1 && |b| == 1 ==> (b[0] < EMPTY_STRING_CODE ==> a[0] < EMPTY_STRING_CODE)
    requires |b| == 1 && b[0] < EMPTY_STRING_CODE ==> |a| <= 1
    ensures StringLength(a) <= StringLength(b)
  {
    LengthOfLengthMonotone(|a|, |b|);
  }
}
