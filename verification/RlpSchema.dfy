/** The encodings of the types of bertha-types, by the shape of the type: what `Encodable` and `Decodable`
  * do for integers, `U256`, byte arrays, `RlpString`, `RlpNil`, vectors and structs with derived codecs. */
module RlpSchema {
  import opened Bytes
  import opened Rlp

  datatype Kind =
    | KUint(width: nat)              // u8, u64
    | KU256
    | KBytes                         // RlpString, or a byte slice
    | KFixed(size: nat)              // Address, Hash
    | KNilOr(size: nat)              // RlpNil of a byte array
    | KVec(elem: Kind)
    | KStruct(fields: seq<Kind>)

  datatype Value = VNum(n: nat) | VBytes(b: bytes) | VNil | VSeq(items: seq<Value>)

  predicate Fits(k: Kind, v: Value)
    decreases k
  {
    match k
    case KUint(width) => v.VNum? && v.n < Pow256(width)
    case KU256 => v.VNum? && v.n < Pow256(32)
    case KBytes => v.VBytes?
    case KFixed(size) => v.VBytes? && |v.b| == size
    case KNilOr(size) => v.VNil? || (v.VBytes? && |v.b| == size && size > 0)
    case KVec(elem) => v.VSeq? && forall i | 0 <= i < |v.items| :: Fits(elem, v.items[i])
    case KStruct(fields) => v.VSeq? && |v.items| == |fields| && forall i | 0 <= i < |fields| :: Fits(fields[i], v.items[i])
  }

  predicate AllFit(elem: Kind, vs: seq<Value>) {
    forall i | 0 <= i < |vs| :: Fits(elem, vs[i])
  }

  predicate FieldsFit(fields: seq<Kind>, vs: seq<Value>) {
    |vs| == |fields| && forall i | 0 <= i < |fields| :: Fits(fields[i], vs[i])
  }

  // --- Length ---

  function ListLength(payload: nat): nat { payload + LengthOfLength(payload) }

  /** `length`. */
  function Length(k: Kind, v: Value): (n: nat)
    requires Fits(k, v)
    ensures n >= 1
    decreases k, 0
  {
    match k
    case KUint(_) => StringLength(MinimalBE(v.n))
    case KU256 => StringLength(MinimalBE(v.n))
    case KBytes => StringLength(v.b)
    case KFixed(_) => StringLength(v.b)
    case KNilOr(_) => if v.VNil? then 1 else StringLength(v.b)
    case KVec(elem) => ListLength(ElemsLength(elem, v.items))
    case KStruct(fields) => ListLength(FieldsLength(fields, v.items))
  }

  function ElemsLength(elem: Kind, vs: seq<Value>): nat
    requires AllFit(elem, vs)
    decreases elem, |vs| + 1
  {
    if vs == [] then 0 else Length(elem, vs[0]) + ElemsLength(elem, vs[1..])
  }

  function FieldsLength(fields: seq<Kind>, vs: seq<Value>): nat
    requires FieldsFit(fields, vs)
    decreases fields, 0
  {
    if fields == [] then 0 else Length(fields[0], vs[0]) + FieldsLength(fields[1..], vs[1..])
  }

  // --- Encoding ---

  function Encode(k: Kind, v: Value): (s: bytes)
    requires Fits(k, v) && Sizable(Length(k, v))
    ensures |s| == Length(k, v)
    decreases k, 0
  {
    match k
    case KUint(_) => EncodeString(MinimalBE(v.n))
    case KU256 => EncodeString(MinimalBE(v.n))
    case KBytes => EncodeString(v.b)
    case KFixed(_) => EncodeString(v.b)
    case KNilOr(_) => if v.VNil? then [EMPTY_STRING_CODE] else EncodeString(v.b)
    case KVec(elem) => EncodeHeader(Header(true, ElemsLength(elem, v.items))) + EncodeElems(elem, v.items)
    case KStruct(fields) => EncodeHeader(Header(true, FieldsLength(fields, v.items))) + EncodeFields(fields, v.items)
  }

  function EncodeElems(elem: Kind, vs: seq<Value>): (s: bytes)
    requires AllFit(elem, vs) && Sizable(ElemsLength(elem, vs))
    ensures |s| == ElemsLength(elem, vs)
    decreases elem, |vs| + 1
  {
    if vs == [] then [] else Encode(elem, vs[0]) + EncodeElems(elem, vs[1..])
  }

  function EncodeFields(fields: seq<Kind>, vs: seq<Value>): (s: bytes)
    requires FieldsFit(fields, vs) && Sizable(FieldsLength(fields, vs))
    ensures |s| == FieldsLength(fields, vs)
    decreases fields, 0
  {
    if fields == [] then [] else Encode(fields[0], vs[0]) + EncodeFields(fields[1..], vs[1..])
  }

  // --- Decoding ---

  /** `static_left_pad`: not too long, and no leading zero. */
  function DecodeUint(s: bytes, width: nat): (d: Decoded<Value>)
    ensures d.Ok? ==> |d.rest| < |s|
  {
    match DecodeBytes(s, false)
    case Fail => Fail
    case Ok(b, rest) => if |b| > width || (b != [] && b[0] == 0) then Fail else Ok(VNum(FromBE(b)), rest)
  }

  /** `from_be_slice`: leading zeros are allowed, an overflow is not. */
  function DecodeU256(s: bytes): (d: Decoded<Value>)
    ensures d.Ok? ==> |d.rest| < |s|
  {
    match DecodeBytes(s, false)
    case Fail => Fail
    case Ok(b, rest) => if FromBE(b) >= Pow256(32) then Fail else Ok(VNum(FromBE(b)), rest)
  }

  function DecodeFixed(s: bytes, size: nat): (d: Decoded<Value>)
    ensures d.Ok? ==> |d.rest| < |s|
  {
    match DecodeBytes(s, false)
    case Fail => Fail
    case Ok(b, rest) => if |b| != size then Fail else Ok(VBytes(b), rest)
  }

  function Decode(k: Kind, s: bytes): (d: Decoded<Value>)
    ensures d.Ok? ==> |d.rest| < |s|
    decreases k, 0
  {
    match k
    case KUint(width) => DecodeUint(s, width)
    case KU256 => DecodeU256(s)
    case KBytes => (match DecodeBytes(s, false) case Fail => Fail case Ok(b, rest) => Ok(VBytes(b), rest))
    case KFixed(size) => DecodeFixed(s, size)
    case KNilOr(size) =>
      if s != [] && s[0] == EMPTY_STRING_CODE then Ok(VNil, s[1..]) else DecodeFixed(s, size)
    case KVec(elem) =>
      (match DecodeBytes(s, true)
       case Fail => Fail
       case Ok(payload, rest) =>
         match DecodeElems(elem, payload)
         case Fail => Fail
         case Ok(vs, _) => Ok(VSeq(vs), rest))
    case KStruct(fields) =>
      match DecodeHeader(s)
      case Fail => Fail
      case Ok(h, body) =>
        if !h.list then Fail
        else
          match DecodeFields(fields, body)
          case Fail => Fail
          case Ok(vs, rest) => if |body| - |rest| != h.payload then Fail else Ok(VSeq(vs), rest)
  }

  /** Elements up to the end of the payload. */
  function DecodeElems(elem: Kind, s: bytes): (d: Decoded<seq<Value>>)
    decreases elem, |s| + 1
  {
    if s == [] then Ok([], [])
    else
      match Decode(elem, s)
      case Fail => Fail
      case Ok(v, rest) =>
        match DecodeElems(elem, rest)
        case Fail => Fail
        case Ok(vs, end) => Ok([v] + vs, end)
  }

  /** The fields one after the other; that they fill the payload is checked only afterwards. */
  function DecodeFields(fields: seq<Kind>, s: bytes): (d: Decoded<seq<Value>>)
    ensures d.Ok? ==> |d.rest| <= |s| && |d.value| == |fields|
    decreases fields, 0
  {
    if fields == [] then Ok([], s)
    else
      match Decode(fields[0], s)
      case Fail => Fail
      case Ok(v, rest) =>
        match DecodeFields(fields[1..], rest)
        case Fail => Fail
        case Ok(vs, end) => Ok([v] + vs, end)
  }

  // --- Round trip ---

  /** Decoding an encoding gives back the value and leaves exactly the bytes after it. */
  lemma {:induction false} RoundTrip(k: Kind, v: Value, rest: bytes)
    requires Fits(k, v) && Sizable(Length(k, v))
    ensures Decode(k, Encode(k, v) + rest) == Ok(v, rest)
    decreases k, 0
  {
    match k
    case KUint(width) => NumberRoundTrip(v.n, width, rest);
    case KU256 => NumberRoundTrip(v.n, 32, rest);
    case KBytes => StringRoundTrip(v.b, rest);
    case KFixed(_) => StringRoundTrip(v.b, rest);
    case KNilOr(_) =>
      if v.VNil? {
        assert ([EMPTY_STRING_CODE] + rest)[1..] == rest;
      } else {
        StringRoundTrip(v.b, rest);
        NotNil(v.b);
      }
    case KVec(elem) =>
      ElemsRoundTrip(elem, v.items);
      ListRoundTrip(EncodeElems(elem, v.items), rest);
    case KStruct(fields) =>
      FieldsRoundTrip(fields, v.items, rest);
      ListRoundTrip(EncodeFields(fields, v.items), rest);
  }

  lemma {:induction false} NumberRoundTrip(n: nat, width: nat, rest: bytes)
    requires n < Pow256(width) && Sizable(|MinimalBE(n)|)
    ensures DecodeUint(EncodeString(MinimalBE(n)) + rest, width) == Ok(VNum(n), rest)
    ensures DecodeBytes(EncodeString(MinimalBE(n)) + rest, false) == Ok(MinimalBE(n), rest)
    ensures FromBE(MinimalBE(n)) == n
  {
    StringRoundTrip(MinimalBE(n), rest);
    MinimalInverse(n);
    MinimalLength(n, width);
    if n > 0 { MinimalHead(n); }
  }

  lemma NotNil(b: bytes)
    requires b != [] && Sizable(|b|)
    ensures EncodeString(b)[0] != EMPTY_STRING_CODE
  {
  }

  lemma {:induction false} ElemsRoundTrip(elem: Kind, vs: seq<Value>)
    requires AllFit(elem, vs) && Sizable(ElemsLength(elem, vs))
    ensures DecodeElems(elem, EncodeElems(elem, vs)) == Ok(vs, [])
    decreases elem, |vs| + 1
  {
    if vs != [] {
      var head, tail := Encode(elem, vs[0]), EncodeElems(elem, vs[1..]);
      RoundTrip(elem, vs[0], tail);
      ElemsRoundTrip(elem, vs[1..]);
      NextElem(elem, head + tail, vs[0], tail, vs[1..]);
      Joined(head, tail, [], vs);
    }
  }

  lemma {:induction false} NextElem(elem: Kind, s: bytes, v: Value, tail: bytes, vs: seq<Value>)
    requires Decode(elem, s) == Ok(v, tail) && DecodeElems(elem, tail) == Ok(vs, []) && s != []
    ensures DecodeElems(elem, s) == Ok([v] + vs, [])
  {
  }

  lemma {:induction false} FieldsRoundTrip(fields: seq<Kind>, vs: seq<Value>, rest: bytes)
    requires FieldsFit(fields, vs) && Sizable(FieldsLength(fields, vs))
    ensures DecodeFields(fields, EncodeFields(fields, vs) + rest) == Ok(vs, rest)
    decreases fields, 0
  {
    if fields == [] {
      assert EncodeFields(fields, vs) + rest == rest;
    } else {
      var head, tail := Encode(fields[0], vs[0]), EncodeFields(fields[1..], vs[1..]);
      RoundTrip(fields[0], vs[0], tail + rest);
      FieldsRoundTrip(fields[1..], vs[1..], rest);
      NextField(fields, head + (tail + rest), vs[0], tail + rest, vs[1..], rest);
      Joined(head, tail, rest, vs);
    }
  }

  lemma {:induction false} NextField(fields: seq<Kind>, s: bytes, v: Value, s1: bytes, vs: seq<Value>, rest: bytes)
    requires fields != [] && Decode(fields[0], s) == Ok(v, s1) && DecodeFields(fields[1..], s1) == Ok(vs, rest)
    ensures DecodeFields(fields, s) == Ok([v] + vs, rest)
  {
  }

  lemma Joined(head: bytes, tail: bytes, rest: bytes, vs: seq<Value>)
    requires vs != []
    ensures head + tail + rest == head + (tail + rest) && vs == [vs[0]] + vs[1..]
  {
  }

  // --- Decoded values are values of the type ---

  lemma {:induction false} DecodedFits(k: Kind, s: bytes)
    ensures Decode(k, s).Ok? ==> Fits(k, Decode(k, s).value)
    decreases k, 0
  {
    match k
    case KUint(width) =>
      var d := DecodeBytes(s, false);
      if d.Ok? && |d.value| <= width && (d.value != [] ==> d.value[0] != 0) {
        MinimalOfInverse(d.value);
        MinimalLength(FromBE(d.value), width);
      }
    case KU256 =>
    case KBytes =>
    case KFixed(_) =>
    case KNilOr(_) =>
    case KVec(elem) =>
      var d := DecodeBytes(s, true);
      if d.Ok? { ElemsFit(elem, d.value); }
    case KStruct(fields) =>
      var d := DecodeHeader(s);
      if d.Ok? { DecodedFieldsFit(fields, d.rest); }
  }

  lemma {:induction false} ElemsFit(elem: Kind, s: bytes)
    ensures DecodeElems(elem, s).Ok? ==> AllFit(elem, DecodeElems(elem, s).value)
    decreases elem, |s| + 1
  {
    if s != [] {
      DecodedFits(elem, s);
      var d := Decode(elem, s);
      if d.Ok? { ElemsFit(elem, d.rest); }
    }
  }

  lemma {:induction false} DecodedFieldsFit(fields: seq<Kind>, s: bytes)
    ensures DecodeFields(fields, s).Ok? ==> FieldsFit(fields, DecodeFields(fields, s).value)
    decreases fields, 0
  {
    if fields != [] {
      DecodedFits(fields[0], s);
      var d := Decode(fields[0], s);
      if d.Ok? { DecodedFieldsFit(fields[1..], d.rest); }
    }
  }

  // --- Which inputs are encodings ---

  /** No U256 payload that decoding the input comes across starts with a zero byte. */
  predicate Minimal(k: Kind, s: bytes)
    decreases k, 0
  {
    match k
    case KU256 =>
      var d := DecodeBytes(s, false);
      d.Ok? && d.value != [] ==> d.value[0] != 0
    case KVec(elem) =>
      var d := DecodeBytes(s, true);
      d.Ok? ==> MinimalElems(elem, d.value)
    case KStruct(fields) =>
      var d := DecodeHeader(s);
      d.Ok? ==> MinimalFields(fields, d.rest)
    case _ => true
  }

  predicate MinimalElems(elem: Kind, s: bytes)
    decreases elem, |s| + 1
  {
    s != [] && Decode(elem, s).Ok? ==> Minimal(elem, s) && MinimalElems(elem, Decode(elem, s).rest)
  }

  predicate MinimalFields(fields: seq<Kind>, s: bytes)
    decreases fields, 0
  {
    fields != [] && Decode(fields[0], s).Ok? ==>
      Minimal(fields[0], s) && MinimalFields(fields[1..], Decode(fields[0], s).rest)
  }

  /** The input ends with the rest; the encoding of what was read is not longer than the part before it,
    * and equal to it exactly under the condition. */
  ghost predicate Reencodes(s: bytes, rest: bytes, encoding: bytes, minimal: bool) {
    && |rest| <= |s| && s[|s| - |rest|..] == rest
    && |encoding| <= |s| - |rest|
    && (s == encoding + rest <==> minimal)
  }

  /** Re-encoding two parts that follow each other. */
  lemma {:induction false} ReencodesTwo(s: bytes, middle: bytes, rest: bytes, a: bytes, b: bytes, x: bool, y: bool)
    requires Reencodes(s, middle, a, x) && Reencodes(middle, rest, b, y)
    ensures Reencodes(s, rest, a + b, x && y)
  {
    var n := |s| - |middle|;
    assert s == s[..n] + middle;
    if s == a + b + rest {
      assert |a| == n;
      assert s[..n] == a && s[n..] == b + rest;
    }
    if s == a + middle && middle == b + rest {
      assert s == a + b + rest;
    }
  }

  /** Re-encoding behind a header, which gets no longer and stays the same if the rest does. */
  lemma {:induction false} ReencodesBehind(s: bytes, header: bytes, body: bytes, rest: bytes,
                                           again: bytes, encoding: bytes, minimal: bool)
    requires s == header + body && Reencodes(body, rest, encoding, minimal)
    requires |again| <= |header| && (|encoding| == |body| - |rest| ==> again == header)
    ensures Reencodes(s, rest, again + encoding, minimal)
  {
    assert s[|s| - |rest|..] == body[|body| - |rest|..];
    if s == again + encoding + rest {
      assert again == header;
      assert s[|header|..] == body && s[|header|..] == encoding + rest;
    }
    if body == encoding + rest {
      assert s == again + encoding + rest;
    }
  }

  /** Re-encoding a list, given that of its payload: a shorter payload never has a longer header. */
  lemma {:induction false} ReencodesList(s: bytes, n: nat, body: bytes, rest: bytes, encoding: bytes, minimal: bool)
    requires Sizable(n) && s == EncodeHeader(Header(true, n)) + body && |body| - |rest| == n
    requires Reencodes(body, rest, encoding, minimal)
    ensures Sizable(|encoding|)
    ensures Reencodes(s, rest, EncodeHeader(Header(true, |encoding|)) + encoding, minimal)
  {
    LengthOfLengthMonotone(|encoding|, n);
    ReencodesBehind(s, EncodeHeader(Header(true, n)), body, rest, EncodeHeader(Header(true, |encoding|)), encoding,
                    minimal);
  }

  /** The input, its value, the rest, and when the input is the encoding. */
  ghost predicate Exactly(k: Kind, s: bytes) {
    var d := Decode(k, s);
    d.Ok? ==>
      && Fits(k, d.value) && Sizable(Length(k, d.value))
      && Reencodes(s, d.rest, Encode(k, d.value), Minimal(k, s))
  }

  lemma {:induction false} StringReencodes(s: bytes)
    ensures var d := DecodeBytes(s, false);
            d.Ok? ==> Sizable(|d.value|) && Reencodes(s, d.rest, EncodeString(d.value), true)
  {
    StringIsCanonical(s);
  }

  /** What is decoded has an encoding that is never longer than the input that was consumed, and that is
    * this input exactly if no U256 in it has leading zeros. */
  lemma {:induction false} DecodedIsMinimal(k: Kind, s: bytes)
    requires Sizable(|s|)
    ensures Exactly(k, s)
    decreases k, 0
  {
    DecodedFits(k, s);
    match k
    case KUint(width) => UintReencodes(s, width);
    case KU256 => U256Reencodes(s);
    case KBytes => StringReencodes(s);
    case KFixed(size) => StringReencodes(s);
    case KNilOr(size) =>
      if s != [] && s[0] == EMPTY_STRING_CODE {
        assert s == [EMPTY_STRING_CODE] + s[1..];
      } else {
        StringReencodes(s);
      }
    case KVec(elem) => VecReencodes(elem, s);
    case KStruct(fields) => StructReencodes(fields, s);
  }

  lemma {:induction false} UintReencodes(s: bytes, width: nat)
    requires Sizable(|s|)
    ensures Exactly(KUint(width), s)
  {
    DecodedFits(KUint(width), s);
    StringReencodes(s);
    var d := DecodeBytes(s, false);
    if DecodeUint(s, width).Ok? {
      MinimalOfInverse(d.value);
    }
  }

  /** A U256 is canonical exactly if its payload does not start with a zero. */
  lemma {:induction false} U256Reencodes(s: bytes)
    requires Sizable(|s|)
    ensures Exactly(KU256, s)
  {
    DecodedFits(KU256, s);
    var d := DecodeBytes(s, false);
    if DecodeU256(s).Ok? {
      StringReencodes(s);
      U256Payload(s, d.value, d.rest);
    }
  }

  lemma {:induction false} U256Payload(s: bytes, b: bytes, rest: bytes)
    requires Sizable(|b|) && Reencodes(s, rest, EncodeString(b), true)
    ensures var m := MinimalBE(FromBE(b));
            Sizable(|m|) && Reencodes(s, rest, EncodeString(m), b != [] ==> b[0] != 0)
  {
    var m := MinimalBE(FromBE(b));
    MinimalIsShortest(b);
    if b != [] && b[0] == 0 {
      StringLengthMonotone(m, b);
      StringRoundTrip(m, rest);
      StringRoundTrip(b, rest);
    } else {
      MinimalOfInverse(b);
    }
  }

  lemma {:induction false} VecReencodes(elem: Kind, s: bytes)
    requires Sizable(|s|)
    ensures Exactly(KVec(elem), s)
    decreases elem, |s| + 2
  {
    DecodedFits(KVec(elem), s);
    var d := DecodeBytes(s, true);
    if d.Ok? && DecodeElems(elem, d.value).Ok? {
      ListIsCanonical(s);
      ElemsReencode(elem, d.value);
      var e := DecodeElems(elem, d.value);
      ListReencodes(s, d.value, d.rest, EncodeElems(elem, e.value), MinimalElems(elem, d.value));
      assert Decode(KVec(elem), s) == Ok(VSeq(e.value), d.rest);
    }
  }

  lemma {:induction false} ListReencodes(s: bytes, payload: bytes, rest: bytes, encoding: bytes, minimal: bool)
    requires Sizable(|payload|) && s == EncodeHeader(Header(true, |payload|)) + payload + rest
    requires Reencodes(payload, [], encoding, minimal)
    ensures Sizable(|encoding|)
    ensures Reencodes(s, rest, EncodeHeader(Header(true, |encoding|)) + encoding, minimal)
  {
    Extended(payload, rest, encoding, minimal);
    assert s == EncodeHeader(Header(true, |payload|)) + (payload + rest);
    ReencodesList(s, |payload|, payload + rest, rest, encoding, minimal);
  }

  lemma Extended(payload: bytes, rest: bytes, encoding: bytes, minimal: bool)
    requires Reencodes(payload, [], encoding, minimal)
    ensures Reencodes(payload + rest, rest, encoding, minimal)
  {
    assert encoding + [] == encoding;
    if payload + rest == encoding + rest {
      assert payload == (payload + rest)[..|payload|] && |encoding| == |payload|;
      assert encoding == (encoding + rest)[..|encoding|];
    }
  }

  lemma {:induction false} ElemsReencode(elem: Kind, s: bytes)
    requires Sizable(|s|)
    ensures var d := DecodeElems(elem, s);
            d.Ok? ==>
              && AllFit(elem, d.value) && Sizable(ElemsLength(elem, d.value))
              && Reencodes(s, [], EncodeElems(elem, d.value), MinimalElems(elem, s))
    decreases elem, |s| + 1
  {
    ElemsFit(elem, s);
    if s != [] {
      DecodedIsMinimal(elem, s);
      var d := Decode(elem, s);
      if d.Ok? {
        ElemsReencode(elem, d.rest);
        var e := DecodeElems(elem, d.rest);
        if e.Ok? {
          ReencodesTwo(s, d.rest, [], Encode(elem, d.value), EncodeElems(elem, e.value),
                       Minimal(elem, s), MinimalElems(elem, d.rest));
          Prepended(d.value, e.value);
        }
      }
    }
  }

  lemma Prepended(v: Value, vs: seq<Value>)
    ensures ([v] + vs)[0] == v && ([v] + vs)[1..] == vs
  {
  }

  lemma {:induction false} FieldsReencode(fields: seq<Kind>, s: bytes)
    requires Sizable(|s|)
    ensures var d := DecodeFields(fields, s);
            d.Ok? ==>
              && FieldsFit(fields, d.value) && Sizable(FieldsLength(fields, d.value))
              && Reencodes(s, d.rest, EncodeFields(fields, d.value), MinimalFields(fields, s))
    decreases fields, 0
  {
    DecodedFieldsFit(fields, s);
    if fields == [] {
      assert [] + s == s;
    } else {
      DecodedIsMinimal(fields[0], s);
      var d := Decode(fields[0], s);
      if d.Ok? {
        FieldsReencode(fields[1..], d.rest);
        var e := DecodeFields(fields[1..], d.rest);
        if e.Ok? {
          ReencodesTwo(s, d.rest, e.rest, Encode(fields[0], d.value), EncodeFields(fields[1..], e.value),
                       Minimal(fields[0], s), MinimalFields(fields[1..], d.rest));
          Prepended(d.value, e.value);
        }
      }
    }
  }

  lemma {:induction false} StructReencodes(fields: seq<Kind>, s: bytes)
    requires Sizable(|s|)
    ensures Exactly(KStruct(fields), s)
    decreases fields, 1
  {
    DecodedFits(KStruct(fields), s);
    HeaderIsCanonical(s);
    var d := DecodeHeader(s);
    if d.Ok? && d.value.list {
      FieldsReencode(fields, d.rest);
      var e := DecodeFields(fields, d.rest);
      if e.Ok? && |d.rest| - |e.rest| == d.value.payload {
        ReencodesList(s, d.value.payload, d.rest, e.rest, EncodeFields(fields, e.value), MinimalFields(fields, d.rest));
      }
    }
  }

  // --- Types without U256 ---

  predicate Strict(k: Kind)
    decreases k
  {
    match k
    case KU256 => false
    case KVec(elem) => Strict(elem)
    case KStruct(fields) => forall i | 0 <= i < |fields| :: Strict(fields[i])
    case _ => true
  }

  predicate AllStrict(fields: seq<Kind>) {
    forall i | 0 <= i < |fields| :: Strict(fields[i])
  }

  lemma {:induction false} StrictIsMinimal(k: Kind, s: bytes)
    requires Strict(k)
    ensures Minimal(k, s)
    decreases k, 0
  {
    match k
    case KVec(elem) =>
      if DecodeBytes(s, true).Ok? { StrictElemsMinimal(elem, DecodeBytes(s, true).value); }
    case KStruct(fields) =>
      if DecodeHeader(s).Ok? { StrictFieldsMinimal(fields, DecodeHeader(s).rest); }
    case _ =>
  }

  lemma {:induction false} StrictElemsMinimal(elem: Kind, s: bytes)
    requires Strict(elem)
    ensures MinimalElems(elem, s)
    decreases elem, |s| + 1
  {
    if s != [] && Decode(elem, s).Ok? {
      StrictIsMinimal(elem, s);
      StrictElemsMinimal(elem, Decode(elem, s).rest);
    }
  }

  lemma {:induction false} StrictFieldsMinimal(fields: seq<Kind>, s: bytes)
    requires AllStrict(fields)
    ensures MinimalFields(fields, s)
    decreases fields, 0
  {
    if fields != [] && Decode(fields[0], s).Ok? {
      StrictIsMinimal(fields[0], s);
      StrictFieldsMinimal(fields[1..], Decode(fields[0], s).rest);
    }
  }

  /** The input is the encoding of the decoded value, followed by the rest. */
  predicate IsEncoding(k: Kind, v: Value, s: bytes, rest: bytes) {
    Fits(k, v) && Sizable(Length(k, v)) && s == Encode(k, v) + rest
  }

  /** Without U256, decoding accepts exactly the encodings of values of the type. */
  lemma {:induction false} DecodesOnlyEncodings(k: Kind, s: bytes)
    requires Strict(k) && Sizable(|s|)
    ensures Decode(k, s).Ok? ==> IsEncoding(k, Decode(k, s).value, s, Decode(k, s).rest)
  {
    DecodedIsMinimal(k, s);
    StrictIsMinimal(k, s);
  }

  /** A witness: 0x82 0x00 0x05 is decoded as 5, whose encoding is 0x05. */
  lemma {:induction false} U256IsMalleable()
    ensures Decode(KU256, [0x82, 0x00, 0x05]) == Ok(VNum(5), []) && Encode(KU256, VNum(5)) == [0x05]
  {
    var s: bytes, b: bytes := [0x82, 0x00, 0x05], [0x00, 0x05];
    assert s[1..] == b && DecodeHeader(s) == Ok(Header(false, 2), b);
    assert b[..2] == b && b[2..] == [];
    assert FromBE(b) == 5 by {
      assert b[..1] == [0x00];
      assert FromBE([0x00]) == 0;
    }
    assert 5 < Pow256(32);
    assert MinimalBE(5) == [5];
  }
}
