/** The binary form of transactions as the standards define it, field by field: the Yellow Paper (section 4.3)
  * for legacy ones, EIP-2930, EIP-1559, EIP-4844 and EIP-7702 for the typed ones. */
module TransactionFormat {
  import opened Bytes
  import opened LogCodec
  import opened Options
  import opened Primitives
  import opened Rlp
  import opened RlpReference
  import opened RlpSchema
  import opened Transactions

  function Num(n: nat): Tree { Str(MinimalBE(n)) }

  function Destination(to: Option<Address>): Tree { Str(if to.None? then [] else to.value) }

  /** [[address, [storage key, ...]], ...] */
  function AccessListTree(es: seq<AccessListEntry>): Tree {
    Lst(seq(|es|, i requires 0 <= i < |es| => Lst([Str(es[i].address), HashesTree(es[i].storageKeys)])))
  }

  function HashesTree(hs: seq<Hash>): Tree { Lst(seq(|hs|, i requires 0 <= i < |hs| => Str(hs[i]))) }

  /** [chain id, address, nonce, y parity, r, s] */
  function AuthorizationTree(x: SetCodeAuthorization): Tree {
    Lst([Num(x.chainId), Str(x.address), Num(x.nonce), Num(x.yParity), Num(x.r), Num(x.s)])
  }

  function AuthorizationsTree(xs: seq<SetCodeAuthorization>): Tree {
    Lst(seq(|xs|, i requires 0 <= i < |xs| => AuthorizationTree(xs[i])))
  }

  /** The fields of a transaction in the order of its standard, the signature (v or y parity, r, s) last. */
  function Payload(tx: Transaction): seq<Tree> {
    match tx.transactionType
    case Legacy =>
      [Num(tx.nonce), Num(tx.gasPrice), Num(tx.gasLimit), Destination(tx.to), Num(tx.value), Str(tx.data),
       Num(tx.signature.v), Num(tx.signature.r), Num(tx.signature.s)]
    case AccessList =>
      [Num(tx.chainId), Num(tx.nonce), Num(tx.gasPrice), Num(tx.gasLimit), Destination(tx.to), Num(tx.value),
       Str(tx.data), AccessListTree(tx.accessList),
       Num(tx.signature.v), Num(tx.signature.r), Num(tx.signature.s)]
    case DynamicFee =>
      [Num(tx.chainId), Num(tx.nonce), Num(tx.maxPriorityFeePerGas), Num(tx.maxFeePerGas), Num(tx.gasLimit),
       Destination(tx.to), Num(tx.value), Str(tx.data), AccessListTree(tx.accessList),
       Num(tx.signature.v), Num(tx.signature.r), Num(tx.signature.s)]
    case Blob =>
      [Num(tx.chainId), Num(tx.nonce), Num(tx.maxPriorityFeePerGas), Num(tx.maxFeePerGas), Num(tx.gasLimit),
       Destination(tx.to), Num(tx.value), Str(tx.data), AccessListTree(tx.accessList), Num(tx.maxFeePerBlobGas),
       HashesTree(tx.blobVersionedHashes),
       Num(tx.signature.v), Num(tx.signature.r), Num(tx.signature.s)]
    case SetCode =>
      [Num(tx.chainId), Num(tx.nonce), Num(tx.maxPriorityFeePerGas), Num(tx.maxFeePerGas), Num(tx.gasLimit),
       Destination(tx.to), Num(tx.value), Str(tx.data), AccessListTree(tx.accessList),
       AuthorizationsTree(tx.authorizationList),
       Num(tx.signature.v), Num(tx.signature.r), Num(tx.signature.s)]
  }

  /** The type bytes of the standards; a legacy transaction has none. */
  function Envelope(tx: Transaction): bytes {
    match tx.transactionType
    case Legacy => []
    case AccessList => [0x01]
    case DynamicFee => [0x02]
    case Blob => [0x03]
    case SetCode => [0x04]
  }

  lemma {:induction false} HashTrees(hs: seq<Hash>)
    requires Fits(KVec(HASH), VSeq(HashValues(hs)))
    ensures TreeOf(KVec(HASH), VSeq(HashValues(hs))) == HashesTree(hs)
  {
  }

  lemma {:induction false} EntryTrees(es: seq<AccessListEntry>)
    requires Fits(KVec(ENTRY), VSeq(EntryValues(es)))
    ensures TreeOf(KVec(ENTRY), VSeq(EntryValues(es))) == AccessListTree(es)
  {
    forall i | 0 <= i < |es|
      ensures Fits(ENTRY, EntryValue(es[i]))
      ensures TreeOf(ENTRY, EntryValue(es[i])) == Lst([Str(es[i].address), HashesTree(es[i].storageKeys)])
    {
      assert Fits(ENTRY, EntryValues(es)[i]);
      HashTrees(es[i].storageKeys);
    }
  }

  lemma {:induction false} OneAuthorization(x: SetCodeAuthorization)
    requires Fits(AUTHORIZATION, AuthorizationValue(x))
    ensures TreeOf(AUTHORIZATION, AuthorizationValue(x)) == AuthorizationTree(x)
  {
  }

  lemma {:induction false} AuthorizationTrees(xs: seq<SetCodeAuthorization>)
    requires Fits(KVec(AUTHORIZATION), VSeq(AuthorizationValues(xs)))
    ensures TreeOf(KVec(AUTHORIZATION), VSeq(AuthorizationValues(xs))) == AuthorizationsTree(xs)
  {
    forall i | 0 <= i < |xs|
      ensures Fits(AUTHORIZATION, AuthorizationValue(xs[i]))
      ensures TreeOf(AUTHORIZATION, AuthorizationValue(xs[i])) == AuthorizationTree(xs[i])
    {
      assert Fits(AUTHORIZATION, AuthorizationValues(xs)[i]);
      OneAuthorization(xs[i]);
    }
  }

  lemma {:induction false} TreesConcat(a: seq<Kind>, b: seq<Kind>, x: seq<Value>, y: seq<Value>)
    requires FieldsFit(a, x) && FieldsFit(b, y)
    ensures FieldsFit(a + b, x + y) && FieldTrees(a + b, x + y) == FieldTrees(a, x) + FieldTrees(b, y)
  {
    FitConcat(a, b, x, y);
    forall i | 0 <= i < |a + b|
      ensures Fits((a + b)[i], (x + y)[i])
      ensures FieldTrees(a + b, x + y)[i] == (FieldTrees(a, x) + FieldTrees(b, y))[i]
    {
      if i < |a| {
        assert (a + b)[i] == a[i] && (x + y)[i] == x[i];
      } else {
        assert (a + b)[i] == b[i - |a|] && (x + y)[i] == y[i - |a|];
      }
    }
  }

  function SignatureTrees(s: Signature): seq<Tree> { [Num(s.v), Num(s.r), Num(s.s)] }

  lemma {:induction false} SignatureIs(s: Signature)
    ensures FieldsFit(SIGNATURE, SignatureValues(s)) && FieldTrees(SIGNATURE, SignatureValues(s)) == SignatureTrees(s)
  {
    SignatureFits(s);
  }

  /** Head, middle and signature. */
  lemma {:induction false} ThreeParts(head: seq<Kind>, x: seq<Value>, middle: seq<Kind>, y: seq<Value>, s: Signature)
    requires FieldsFit(head, x) && FieldsFit(middle, y)
    ensures FieldsFit(head + middle + SIGNATURE, x + y + SignatureValues(s))
    ensures FieldTrees(head + middle + SIGNATURE, x + y + SignatureValues(s))
            == FieldTrees(head, x) + FieldTrees(middle, y) + SignatureTrees(s)
  {
    SignatureIs(s);
    TreesConcat(head, middle, x, y);
    TreesConcat(head + middle, SIGNATURE, x + y, SignatureValues(s));
  }

  lemma {:induction false} PriceHead(nonce: u64, price: U256, limit: u64, to: Option<Address>, value: U256, data: bytes)
    ensures var fs := [U64, KU256, U64, KNilOr(20), KU256, KBytes];
            var vs := [VNum(nonce), VNum(price), VNum(limit), NilOr(to), VNum(value), VBytes(data)];
            && FieldsFit(fs, vs)
            && FieldTrees(fs, vs) == [Num(nonce), Num(price), Num(limit), Destination(to), Num(value), Str(data)]
  {
    PriceHeadFits(nonce, price, limit, to, value, data);
  }

  lemma {:induction false} ChainHead(chainId: U256, nonce: u64, price: U256, limit: u64, to: Option<Address>,
                                     value: U256, data: bytes)
    ensures var fs := [KU256, U64, KU256, U64, KNilOr(20), KU256, KBytes];
            var vs := [VNum(chainId), VNum(nonce), VNum(price), VNum(limit), NilOr(to), VNum(value), VBytes(data)];
            && FieldsFit(fs, vs)
            && FieldTrees(fs, vs)
               == [Num(chainId), Num(nonce), Num(price), Num(limit), Destination(to), Num(value), Str(data)]
  {
    ChainHeadFits(chainId, nonce, price, limit, to, value, data);
  }

  lemma {:induction false} FeeHead(chainId: U256, nonce: u64, tip: U256, fee: U256, limit: u64, dest: Kind, to: Value,
                                   value: U256, data: bytes)
    requires Fits(dest, to)
    ensures var fs := [KU256, U64, KU256, KU256, U64, dest, KU256, KBytes];
            var vs := [VNum(chainId), VNum(nonce), VNum(tip), VNum(fee), VNum(limit), to, VNum(value), VBytes(data)];
            && FieldsFit(fs, vs)
            && FieldTrees(fs, vs)
               == [Num(chainId), Num(nonce), Num(tip), Num(fee), Num(limit), TreeOf(dest, to), Num(value), Str(data)]
  {
    FeeHeadFits(chainId, nonce, tip, fee, limit, dest, to, value, data);
  }

  lemma {:induction false} FieldTreesOne(a: Kind, x: Value)
    requires Fits(a, x)
    ensures FieldsFit([a], [x]) && FieldTrees([a], [x]) == [TreeOf(a, x)]
  {
  }

  lemma {:induction false} FieldTreesTwo(a: Kind, b: Kind, x: Value, y: Value)
    requires Fits(a, x) && Fits(b, y)
    ensures FieldsFit([a, b], [x, y]) && FieldTrees([a, b], [x, y]) == [TreeOf(a, x), TreeOf(b, y)]
  {
  }

  lemma {:induction false} FieldTreesThree(a: Kind, b: Kind, c: Kind, x: Value, y: Value, z: Value)
    requires Fits(a, x) && Fits(b, y) && Fits(c, z)
    ensures FieldsFit([a, b, c], [x, y, z])
    ensures FieldTrees([a, b, c], [x, y, z]) == [TreeOf(a, x), TreeOf(b, y), TreeOf(c, z)]
  {
  }

  /** The trees of the fields are the fields of the standard. */
  ghost predicate HasPayload(tx: Transaction, i: Inner) {
    && FieldsFit(Fields(TypeOf(i)), FieldValues(i))
    && FieldTrees(Fields(TypeOf(i)), FieldValues(i)) == Payload(tx)
  }

  lemma {:induction false} LegacyPayload(tx: Transaction)
    requires tx.transactionType.Legacy?
    ensures HasPayload(tx, TryFrom(tx).value)
  {
    PriceHead(tx.nonce, tx.gasPrice, tx.gasLimit, tx.to, tx.value, tx.data);
    SignatureIs(tx.signature);
    TreesConcat([U64, KU256, U64, KNilOr(20), KU256, KBytes], SIGNATURE,
                [VNum(tx.nonce), VNum(tx.gasPrice), VNum(tx.gasLimit), NilOr(tx.to), VNum(tx.value), VBytes(tx.data)],
                SignatureValues(tx.signature));
  }

  lemma {:induction false} AccessListPayload(tx: Transaction)
    requires tx.transactionType.AccessList?
    ensures HasPayload(tx, TryFrom(tx).value)
  {
    ChainHead(tx.chainId, tx.nonce, tx.gasPrice, tx.gasLimit, tx.to, tx.value, tx.data);
    EntriesFit(tx.accessList);
    EntryTrees(tx.accessList);
    FieldTreesOne(KVec(ENTRY), VSeq(EntryValues(tx.accessList)));
    ThreeParts([KU256, U64, KU256, U64, KNilOr(20), KU256, KBytes],
               [VNum(tx.chainId), VNum(tx.nonce), VNum(tx.gasPrice), VNum(tx.gasLimit), NilOr(tx.to), VNum(tx.value),
                VBytes(tx.data)],
               [KVec(ENTRY)], [VSeq(EntryValues(tx.accessList))], tx.signature);
  }

  /** The fields that the transactions with a tip begin with. */
  function FeeFields(tx: Transaction): seq<Tree> {
    [Num(tx.chainId), Num(tx.nonce), Num(tx.maxPriorityFeePerGas), Num(tx.maxFeePerGas), Num(tx.gasLimit),
     Destination(tx.to), Num(tx.value), Str(tx.data)]
  }

  lemma {:induction false} FeeParts(tx: Transaction, dest: Kind, to: Value, middle: seq<Kind>, y: seq<Value>)
    requires Fits(dest, to) && TreeOf(dest, to) == Destination(tx.to) && FieldsFit(middle, y)
    ensures var fs := [KU256, U64, KU256, KU256, U64, dest, KU256, KBytes] + middle + SIGNATURE;
            var vs := [VNum(tx.chainId), VNum(tx.nonce), VNum(tx.maxPriorityFeePerGas), VNum(tx.maxFeePerGas),
                       VNum(tx.gasLimit), to, VNum(tx.value), VBytes(tx.data)] + y + SignatureValues(tx.signature);
            && FieldsFit(fs, vs)
            && FieldTrees(fs, vs) == FeeFields(tx) + FieldTrees(middle, y) + SignatureTrees(tx.signature)
  {
    FeeHead(tx.chainId, tx.nonce, tx.maxPriorityFeePerGas, tx.maxFeePerGas, tx.gasLimit, dest, to, tx.value, tx.data);
    ThreeParts([KU256, U64, KU256, KU256, U64, dest, KU256, KBytes],
               [VNum(tx.chainId), VNum(tx.nonce), VNum(tx.maxPriorityFeePerGas), VNum(tx.maxFeePerGas),
                VNum(tx.gasLimit), to, VNum(tx.value), VBytes(tx.data)],
               middle, y, tx.signature);
  }

  lemma {:induction false} DynamicFeePayload(tx: Transaction)
    requires tx.transactionType.DynamicFee?
    ensures HasPayload(tx, TryFrom(tx).value)
  {
    EntriesFit(tx.accessList);
    EntryTrees(tx.accessList);
    FieldTreesOne(KVec(ENTRY), VSeq(EntryValues(tx.accessList)));
    FeeParts(tx, KNilOr(20), NilOr(tx.to), [KVec(ENTRY)], [VSeq(EntryValues(tx.accessList))]);
  }

  lemma {:induction false} BlobPayload(tx: Transaction)
    requires tx.transactionType.Blob? && tx.to.Some?
    ensures HasPayload(tx, TryFrom(tx).value)
  {
    EntriesFit(tx.accessList);
    EntryTrees(tx.accessList);
    BlobHashesFit(tx.blobVersionedHashes);
    HashTrees(tx.blobVersionedHashes);
    FieldTreesThree(KVec(ENTRY), KU256, KVec(HASH), VSeq(EntryValues(tx.accessList)), VNum(tx.maxFeePerBlobGas),
                    VSeq(HashValues(tx.blobVersionedHashes)));
    FeeParts(tx, ADDRESS, VBytes(tx.to.value), [KVec(ENTRY), KU256, KVec(HASH)],
             [VSeq(EntryValues(tx.accessList)), VNum(tx.maxFeePerBlobGas), VSeq(HashValues(tx.blobVersionedHashes))]);
  }

  lemma {:induction false} SetCodePayload(tx: Transaction)
    requires tx.transactionType.SetCode? && tx.to.Some?
    ensures HasPayload(tx, TryFrom(tx).value)
  {
    EntriesFit(tx.accessList);
    EntryTrees(tx.accessList);
    AuthorizationsFit(tx.authorizationList);
    AuthorizationTrees(tx.authorizationList);
    FieldTreesTwo(KVec(ENTRY), KVec(AUTHORIZATION), VSeq(EntryValues(tx.accessList)),
                  VSeq(AuthorizationValues(tx.authorizationList)));
    FeeParts(tx, ADDRESS, VBytes(tx.to.value), [KVec(ENTRY), KVec(AUTHORIZATION)],
             [VSeq(EntryValues(tx.accessList)), VSeq(AuthorizationValues(tx.authorizationList))]);
  }

  lemma {:induction false} AnyPayload(tx: Transaction)
    requires IsValid(tx)
    ensures HasPayload(tx, TryFrom(tx).value)
  {
    match tx.transactionType
    case Legacy => LegacyPayload(tx);
    case AccessList => AccessListPayload(tx);
    case DynamicFee => DynamicFeePayload(tx);
    case Blob => BlobPayload(tx);
    case SetCode => SetCodePayload(tx);
  }

  lemma {:induction false} InnerIsRLP(i: Inner)
    requires Sizable(EncodedLength(i)) && FieldsFit(Fields(TypeOf(i)), FieldValues(i))
    ensures EncodeInner(i) == RLP(Lst(FieldTrees(Fields(TypeOf(i)), FieldValues(i))))
  {
    var k, v := KStruct(Fields(TypeOf(i))), VSeq(FieldValues(i));
    EncodeIsRLP(k, v);
    assert TreeOf(k, v).items == FieldTrees(Fields(TypeOf(i)), FieldValues(i));
  }

  /** Resetting changes no field that is marshalled, and sets all others to their defaults. */
  lemma {:induction false} ResetIs(tx: Transaction)
    ensures var r := Reset(tx);
            && r.transactionType == tx.transactionType && Envelope(r) == Envelope(tx) && Payload(r) == Payload(tx)
            && (tx.transactionType == Legacy ==> r.chainId == 0 && r.accessList == [])
            && (tx.transactionType == Legacy || tx.transactionType == AccessList ==>
                  r.maxFeePerGas == 0 && r.maxPriorityFeePerGas == 0)
            && (tx.transactionType != Legacy && tx.transactionType != AccessList ==> r.gasPrice == 0)
            && (tx.transactionType != Blob ==> r.blobVersionedHashes == [] && r.maxFeePerBlobGas == 0)
            && (tx.transactionType != SetCode ==> r.authorizationList == [])
  {
  }

  /** A valid transaction is marshalled as its standard says: the type byte, if any, and the RLP of the fields
    * in their order. */
  lemma {:induction false} MarshalIsStandard(tx: Transaction)
    requires Marshallable(tx) && IsValid(tx)
    ensures Marshal(tx) == Envelope(tx) + RLP(Lst(Payload(tx)))
  {
    ThereAndBack(tx);
    AnyPayload(tx);
    InnerIsRLP(TryFrom(tx).value);
  }

  /** A log is its address, its topics and its data (section 4.3.1 of the Yellow Paper). */
  lemma {:induction false} LogIsStandard(log: Log)
    requires Fits(KStruct(LOG_FIELDS), VSeq(LogFields(log)))
    requires Sizable(Length(KStruct(LOG_FIELDS), VSeq(LogFields(log))))
    ensures Encode(KStruct(LOG_FIELDS), VSeq(LogFields(log)))
            == RLP(Lst([Str(log.address), HashesTree(log.topics), Str(log.data)]))
  {
    var k, v := KStruct(LOG_FIELDS), VSeq(LogFields(log));
    EncodeIsRLP(k, v);
    HashTrees(log.topics);
    FieldTreesThree(ADDRESS, KVec(HASH), KBytes, VBytes(log.address), VSeq(HashValues(log.topics)), VBytes(log.data));
    assert TreeOf(k, v).items == FieldTrees(LOG_FIELDS, LogFields(log));
  }
}
