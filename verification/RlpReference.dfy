/** RLP as the Ethereum Yellow Paper defines it, in Appendix B, on trees of byte strings; and that the
  * encoders of bertha-types are this function. */
module RlpReference {
  import opened Bytes
  import opened Rlp
  import opened RlpSchema

  datatype Tree = Str(b: bytes) | Lst(items: seq<Tree>)

  /** A payload behind its length; the codes are 128 and 183 for strings, 192 and 247 for lists. What is too
    * long has no encoding. */
  function WithLength(short: byte, long: byte, payload: bytes): bytes
    requires short <= 192 && long <= 247
  {
    if |payload| < 56 then [short + |payload|] + payload
    else if |payload| > 0xFFFF_FFFF_FFFF_FFFF then []
    else
      SizableLength(|payload|);
      [long + |MinimalBE(|payload|)|] + MinimalBE(|payload|) + payload
  }

  function RLP(t: Tree): bytes
    decreases t, 0
  {
    match t
    case Str(b) => if |b| == 1 && b[0] < 128 then b else WithLength(128, 183, b)
    case Lst(items) => WithLength(192, 247, Concatenated(items))
  }

  function Concatenated(items: seq<Tree>): bytes
    decreases items, 0
  {
    if items == [] then [] else RLP(items[0]) + Concatenated(items[1..])
  }

  /** The tree of a value: numbers in as few bytes as possible, nothing as the empty string. */
  function TreeOf(k: Kind, v: Value): Tree
    requires Fits(k, v)
    decreases k
  {
    match k
    case KUint(_) => Str(MinimalBE(v.n))
    case KU256 => Str(MinimalBE(v.n))
    case KBytes => Str(v.b)
    case KFixed(_) => Str(v.b)
    case KNilOr(_) => Str(if v.VNil? then [] else v.b)
    case KVec(elem) => Lst(seq(|v.items|, i requires 0 <= i < |v.items| => TreeOf(elem, v.items[i])))
    case KStruct(fields) => Lst(seq(|fields|, i requires 0 <= i < |fields| => TreeOf(fields[i], v.items[i])))
  }

  function ElemTrees(elem: Kind, vs: seq<Value>): (ts: seq<Tree>)
    requires AllFit(elem, vs)
  {
    seq(|vs|, i requires 0 <= i < |vs| => TreeOf(elem, vs[i]))
  }

  function FieldTrees(fields: seq<Kind>, vs: seq<Value>): (ts: seq<Tree>)
    requires FieldsFit(fields, vs)
  {
    seq(|fields|, i requires 0 <= i < |fields| => TreeOf(fields[i], vs[i]))
  }

  lemma {:induction false} StringIsRLP(b: bytes)
    requires Sizable(|b|)
    ensures EncodeString(b) == RLP(Str(b))
  {
    if |b| >= 56 {
      assert EncodeHeader(Header(false, |b|)) + b == [183 + |MinimalBE(|b|)|] + MinimalBE(|b|) + b;
    }
  }

  lemma {:induction false} ListIsRLP(items: seq<Tree>)
    requires Sizable(|Concatenated(items)|)
    ensures EncodeHeader(Header(true, |Concatenated(items)|)) + Concatenated(items) == RLP(Lst(items))
  {
    var s := Concatenated(items);
    if |s| >= 56 {
      assert EncodeHeader(Header(true, |s|)) + s == [247 + |MinimalBE(|s|)|] + MinimalBE(|s|) + s;
    }
  }

  /** For every type and value, what is encoded is the RLP of its tree. */
  lemma {:induction false} EncodeIsRLP(k: Kind, v: Value)
    requires Fits(k, v) && Sizable(Length(k, v))
    ensures Encode(k, v) == RLP(TreeOf(k, v))
    decreases k, 0
  {
    match k
    case KUint(_) => StringIsRLP(MinimalBE(v.n));
    case KU256 => StringIsRLP(MinimalBE(v.n));
    case KBytes => StringIsRLP(v.b);
    case KFixed(_) => StringIsRLP(v.b);
    case KNilOr(_) => if !v.VNil? { StringIsRLP(v.b); }
    case KVec(elem) =>
      ElemsAreRLP(elem, v.items);
      ListIsRLP(ElemTrees(elem, v.items));
      assert TreeOf(k, v).items == ElemTrees(elem, v.items);
    case KStruct(fields) =>
      FieldsAreRLP(fields, v.items);
      ListIsRLP(FieldTrees(fields, v.items));
      assert TreeOf(k, v).items == FieldTrees(fields, v.items);
  }

  lemma {:induction false} ElemsAreRLP(elem: Kind, vs: seq<Value>)
    requires AllFit(elem, vs) && Sizable(ElemsLength(elem, vs))
    ensures EncodeElems(elem, vs) == Concatenated(ElemTrees(elem, vs))
    decreases elem, |vs| + 1
  {
    if vs != [] {
      EncodeIsRLP(elem, vs[0]);
      ElemsAreRLP(elem, vs[1..]);
      assert ElemTrees(elem, vs)[1..] == ElemTrees(elem, vs[1..]);
    }
  }

  lemma {:induction false} FieldsAreRLP(fields: seq<Kind>, vs: seq<Value>)
    requires FieldsFit(fields, vs) && Sizable(FieldsLength(fields, vs))
    ensures EncodeFields(fields, vs) == Concatenated(FieldTrees(fields, vs))
    decreases fields, 0
  {
    if fields != [] {
      EncodeIsRLP(fields[0], vs[0]);
      FieldsAreRLP(fields[1..], vs[1..]);
      assert FieldTrees(fields, vs)[1..] == FieldTrees(fields[1..], vs[1..]);
    }
  }

  /** Examples that the definition is known by: the empty list and string, and the string "dog". */
  lemma {:induction false} KnownEncodings()
    ensures RLP(Lst([])) == [0xc0] && RLP(Str([])) == [0x80]
    ensures RLP(Str([0x64, 0x6f, 0x67])) == [0x83, 0x64, 0x6f, 0x67]
  {
  }
}
