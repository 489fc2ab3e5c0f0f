/** Transactions of the five types, and their binary form: the typed envelope of the Specification section
  * of EIP-2718 around the RLP of the type (bertha-types/src/transaction). */
module Transactions {
  import opened Bytes
  import opened Options
  import opened Primitives
  import opened Rlp
  import opened RlpSchema

  datatype TransactionType = Legacy | AccessList | DynamicFee | Blob | SetCode

  datatype AccessListEntry = AccessListEntry(address: Address, storageKeys: seq<Hash>)

  datatype SetCodeAuthorization = SetCodeAuthorization(
    chainId: U256, address: Address, nonce: u64, yParity: byte, r: U256, s: U256)

  datatype Signature = Signature(v: U256, r: U256, s: U256)

  datatype Transaction = Transaction(
    transactionType: TransactionType,
    chainId: U256,
    nonce: u64,
    gasPrice: U256,
    gasLimit: u64,
    to: Option<Address>,
    value: U256,
    data: bytes,
    accessList: seq<AccessListEntry>,
    maxFeePerGas: U256,
    maxPriorityFeePerGas: U256,
    blobVersionedHashes: seq<Hash>,
    maxFeePerBlobGas: U256,
    authorizationList: seq<SetCodeAuthorization>,
    signature: Signature
  )

  // --- The types behind the envelope ---

  datatype Inner =
    | LegacyTx(nonce: u64, gasPrice: U256, gasLimit: u64, dest: Option<Address>, value: U256, data: bytes,
               signature: Signature)
    | AccessListTx(chainId: U256, nonce: u64, gasPrice: U256, gasLimit: u64, dest: Option<Address>, value: U256,
                   data: bytes, accessList: seq<AccessListEntry>, signature: Signature)
    | DynamicFeeTx(chainId: U256, nonce: u64, maxPriorityFeePerGas: U256, maxFeePerGas: U256, gasLimit: u64,
                   dest: Option<Address>, value: U256, data: bytes, accessList: seq<AccessListEntry>,
                   signature: Signature)
    | BlobTx(chainId: U256, nonce: u64, maxPriorityFeePerGas: U256, maxFeePerGas: U256, gasLimit: u64,
             to: Address, value: U256, data: bytes, accessList: seq<AccessListEntry>, maxFeePerBlobGas: U256,
             blobVersionedHashes: seq<Hash>, signature: Signature)
    | SetCodeTx(chainId: U256, nonce: u64, maxPriorityFeePerGas: U256, maxFeePerGas: U256, gasLimit: u64,
                to: Address, value: U256, data: bytes, accessList: seq<AccessListEntry>,
                authorizationList: seq<SetCodeAuthorization>, signature: Signature)

  /** `is_valid`: only blob and set-code transactions must name a recipient. */
  predicate IsValid(tx: Transaction) {
    (tx.transactionType.Blob? || tx.transactionType.SetCode?) ==> tx.to.Some?
  }

  /** `try_from`. */
  function TryFrom(tx: Transaction): Option<Inner> {
    match tx.transactionType
    case Legacy =>
      Some(LegacyTx(tx.nonce, tx.gasPrice, tx.gasLimit, tx.to, tx.value, tx.data, tx.signature))
    case AccessList =>
      Some(AccessListTx(tx.chainId, tx.nonce, tx.gasPrice, tx.gasLimit, tx.to, tx.value, tx.data, tx.accessList,
                        tx.signature))
    case DynamicFee =>
      Some(DynamicFeeTx(tx.chainId, tx.nonce, tx.maxPriorityFeePerGas, tx.maxFeePerGas, tx.gasLimit, tx.to,
                        tx.value, tx.data, tx.accessList, tx.signature))
    case Blob =>
      if tx.to.None? then None
      else Some(BlobTx(tx.chainId, tx.nonce, tx.maxPriorityFeePerGas, tx.maxFeePerGas, tx.gasLimit, tx.to.value,
                       tx.value, tx.data, tx.accessList, tx.maxFeePerBlobGas, tx.blobVersionedHashes, tx.signature))
    case SetCode =>
      if tx.to.None? then None
      else Some(SetCodeTx(tx.chainId, tx.nonce, tx.maxPriorityFeePerGas, tx.maxFeePerGas, tx.gasLimit, tx.to.value,
                          tx.value, tx.data, tx.accessList, tx.authorizationList, tx.signature))
  }

  /** `into`: fields that the type does not have get their defaults. */
  function Into(i: Inner): Transaction {
    match i
    case LegacyTx(nonce, gasPrice, gasLimit, to, value, data, signature) =>
      Transaction(Legacy, 0, nonce, gasPrice, gasLimit, to, value, data, [], 0, 0, [], 0, [], signature)
    case AccessListTx(chainId, nonce, gasPrice, gasLimit, to, value, data, accessList, signature) =>
      Transaction(AccessList, chainId, nonce, gasPrice, gasLimit, to, value, data, accessList, 0, 0, [], 0, [], signature)
    case DynamicFeeTx(chainId, nonce, tip, fee, gasLimit, to, value, data, accessList, signature) =>
      Transaction(DynamicFee, chainId, nonce, 0, gasLimit, to, value, data, accessList, fee, tip, [], 0, [], signature)
    case BlobTx(chainId, nonce, tip, fee, gasLimit, to, value, data, accessList, blobFee, hashes, signature) =>
      Transaction(Blob, chainId, nonce, 0, gasLimit, Some(to), value, data, accessList, fee, tip, hashes, blobFee, [],
                  signature)
    case SetCodeTx(chainId, nonce, tip, fee, gasLimit, to, value, data, accessList, authorizations, signature) =>
      Transaction(SetCode, chainId, nonce, 0, gasLimit, Some(to), value, data, accessList, fee, tip, [], 0,
                  authorizations, signature)
  }

  // --- What a type uses ---

  /** The transaction with the fields that its type does not use reset to their defaults. */
  function Reset(tx: Transaction): Transaction {
    var t := tx.transactionType;
    tx.(chainId := if t.Legacy? then 0 else tx.chainId,
        gasPrice := if t.Legacy? || t.AccessList? then tx.gasPrice else 0,
        accessList := if t.Legacy? then [] else tx.accessList,
        maxFeePerGas := if t.Legacy? || t.AccessList? then 0 else tx.maxFeePerGas,
        maxPriorityFeePerGas := if t.Legacy? || t.AccessList? then 0 else tx.maxPriorityFeePerGas,
        blobVersionedHashes := if t.Blob? then tx.blobVersionedHashes else [],
        maxFeePerBlobGas := if t.Blob? then tx.maxFeePerBlobGas else 0,
        authorizationList := if t.SetCode? then tx.authorizationList else [])
  }

  lemma ThereAndBack(tx: Transaction)
    ensures TryFrom(tx).Some? <==> IsValid(tx)
    ensures TryFrom(tx).None? <==> (tx.transactionType == Blob || tx.transactionType == SetCode) && tx.to == None
    ensures IsValid(tx) ==> Into(TryFrom(tx).value) == Reset(tx)
  {
  }

  lemma BackAndThere(i: Inner)
    ensures IsValid(Into(i)) && TryFrom(Into(i)) == Some(i) && Reset(Into(i)) == Into(i)
  {
  }

  // --- The fields of each type, as values ---

  const U64: Kind := KUint(8)
  const ENTRY: Kind := KStruct([ADDRESS, KVec(HASH)])
  const AUTHORIZATION: Kind := KStruct([KU256, ADDRESS, U64, KUint(1), KU256, KU256])

  function Fields(t: TransactionType): seq<Kind> {
    match t
    case Legacy => [U64, KU256, U64, KNilOr(20), KU256, KBytes] + SIGNATURE
    case AccessList => [KU256, U64, KU256, U64, KNilOr(20), KU256, KBytes] + [KVec(ENTRY)] + SIGNATURE
    case DynamicFee => [KU256, U64, KU256, KU256, U64, KNilOr(20), KU256, KBytes] + [KVec(ENTRY)] + SIGNATURE
    case Blob => [KU256, U64, KU256, KU256, U64, ADDRESS, KU256, KBytes] + [KVec(ENTRY), KU256, KVec(HASH)] + SIGNATURE
    case SetCode => [KU256, U64, KU256, KU256, U64, ADDRESS, KU256, KBytes] + [KVec(ENTRY), KVec(AUTHORIZATION)] + SIGNATURE
  }

  const SIGNATURE: seq<Kind> := [KU256, KU256, KU256]

  function NilOr(to: Option<Address>): Value { if to.None? then VNil else VBytes(to.value) }

  function EntryValue(e: AccessListEntry): Value { VSeq([VBytes(e.address), VSeq(HashValues(e.storageKeys))]) }

  function EntryValues(es: seq<AccessListEntry>): (vs: seq<Value>)
    ensures |vs| == |es| && forall i | 0 <= i < |es| :: vs[i] == EntryValue(es[i])
  {
    seq(|es|, i requires 0 <= i < |es| => EntryValue(es[i]))
  }

  function AuthorizationValue(a: SetCodeAuthorization): Value {
    VSeq([VNum(a.chainId), VBytes(a.address), VNum(a.nonce), VNum(a.yParity), VNum(a.r), VNum(a.s)])
  }

  function AuthorizationValues(xs: seq<SetCodeAuthorization>): (vs: seq<Value>)
    ensures |vs| == |xs| && forall i | 0 <= i < |xs| :: vs[i] == AuthorizationValue(xs[i])
  {
    seq(|xs|, i requires 0 <= i < |xs| => AuthorizationValue(xs[i]))
  }

  function SignatureValues(s: Signature): seq<Value> { [VNum(s.v), VNum(s.r), VNum(s.s)] }

  function TypeOf(i: Inner): TransactionType {
    match i
    case LegacyTx(_, _, _, _, _, _, _) => Legacy
    case AccessListTx(_, _, _, _, _, _, _, _, _) => AccessList
    case DynamicFeeTx(_, _, _, _, _, _, _, _, _, _) => DynamicFee
    case BlobTx(_, _, _, _, _, _, _, _, _, _, _, _) => Blob
    case SetCodeTx(_, _, _, _, _, _, _, _, _, _, _) => SetCode
  }

  function FieldValues(i: Inner): seq<Value> {
    match i
    case LegacyTx(nonce, gasPrice, gasLimit, to, value, data, signature) =>
      [VNum(nonce), VNum(gasPrice), VNum(gasLimit), NilOr(to), VNum(value), VBytes(data)] + SignatureValues(signature)
    case AccessListTx(chainId, nonce, gasPrice, gasLimit, to, value, data, accessList, signature) =>
      [VNum(chainId), VNum(nonce), VNum(gasPrice), VNum(gasLimit), NilOr(to), VNum(value), VBytes(data)]
      + [VSeq(EntryValues(accessList))] + SignatureValues(signature)
    case DynamicFeeTx(chainId, nonce, tip, fee, gasLimit, to, value, data, accessList, signature) =>
      [VNum(chainId), VNum(nonce), VNum(tip), VNum(fee), VNum(gasLimit), NilOr(to), VNum(value), VBytes(data)]
      + [VSeq(EntryValues(accessList))] + SignatureValues(signature)
    case BlobTx(chainId, nonce, tip, fee, gasLimit, to, value, data, accessList, blobFee, hashes, signature) =>
      [VNum(chainId), VNum(nonce), VNum(tip), VNum(fee), VNum(gasLimit), VBytes(to), VNum(value), VBytes(data)]
      + [VSeq(EntryValues(accessList)), VNum(blobFee), VSeq(HashValues(hashes))] + SignatureValues(signature)
    case SetCodeTx(chainId, nonce, tip, fee, gasLimit, to, value, data, accessList, authorizations, signature) =>
      [VNum(chainId), VNum(nonce), VNum(tip), VNum(fee), VNum(gasLimit), VBytes(to), VNum(value), VBytes(data)]
      + [VSeq(EntryValues(accessList)), VSeq(AuthorizationValues(authorizations))] + SignatureValues(signature)
  }

  // --- Values back to fields ---

  function AsU256(v: Value): U256 { if v.VNum? && v.n < Pow256(32) then v.n else 0 }

  function AsU64(v: Value): u64 { if v.VNum? && v.n <= U64_MAX then v.n else 0 }

  function AsByte(v: Value): byte { if v.VNum? && v.n < 256 then v.n else 0 }

  function AsBytes(v: Value): bytes { if v.VBytes? then v.b else [] }

  function AsAddress(v: Value): Address { if v.VBytes? && |v.b| == 20 then v.b else seq(20, _ => 0) }

  function AsOption(v: Value): Option<Address> { if v.VNil? then None else Some(AsAddress(v)) }

  function Items(v: Value): seq<Value> { if v.VSeq? then v.items else [] }

  function AsHashes(v: Value): seq<Hash> {
    var vs := Items(v);
    seq(|vs|, i requires 0 <= i < |vs| => if vs[i].VBytes? && |vs[i].b| == 32 then vs[i].b else seq(32, _ => 0))
  }

  function AsEntry(v: Value): AccessListEntry {
    if |Items(v)| != 2 then AccessListEntry(seq(20, _ => 0), [])
    else AccessListEntry(AsAddress(Items(v)[0]), AsHashes(Items(v)[1]))
  }

  function AsEntries(v: Value): seq<AccessListEntry> {
    var vs := Items(v);
    seq(|vs|, i requires 0 <= i < |vs| => AsEntry(vs[i]))
  }

  function AsAuthorization(v: Value): SetCodeAuthorization {
    var f := Items(v);
    if |f| != 6 then SetCodeAuthorization(0, seq(20, _ => 0), 0, 0, 0, 0)
    else SetCodeAuthorization(AsU256(f[0]), AsAddress(f[1]), AsU64(f[2]), AsByte(f[3]), AsU256(f[4]), AsU256(f[5]))
  }

  function AsAuthorizations(v: Value): seq<SetCodeAuthorization> {
    var vs := Items(v);
    seq(|vs|, i requires 0 <= i < |vs| => AsAuthorization(vs[i]))
  }

  function AsSignature(f: seq<Value>): Signature
    requires |f| == 3
  {
    Signature(AsU256(f[0]), AsU256(f[1]), AsU256(f[2]))
  }

  /** The fields in the order of the derived decoder. */
  function InnerOf(t: TransactionType, f: seq<Value>): Inner
    requires |f| == |Fields(t)|
  {
    match t
    case Legacy =>
      LegacyTx(AsU64(f[0]), AsU256(f[1]), AsU64(f[2]), AsOption(f[3]), AsU256(f[4]), AsBytes(f[5]), AsSignature(f[6..]))
    case AccessList =>
      AccessListTx(AsU256(f[0]), AsU64(f[1]), AsU256(f[2]), AsU64(f[3]), AsOption(f[4]), AsU256(f[5]), AsBytes(f[6]),
                   AsEntries(f[7]), AsSignature(f[8..]))
    case DynamicFee =>
      DynamicFeeTx(AsU256(f[0]), AsU64(f[1]), AsU256(f[2]), AsU256(f[3]), AsU64(f[4]), AsOption(f[5]), AsU256(f[6]),
                   AsBytes(f[7]), AsEntries(f[8]), AsSignature(f[9..]))
    case Blob =>
      BlobTx(AsU256(f[0]), AsU64(f[1]), AsU256(f[2]), AsU256(f[3]), AsU64(f[4]), AsAddress(f[5]), AsU256(f[6]),
             AsBytes(f[7]), AsEntries(f[8]), AsU256(f[9]), AsHashes(f[10]), AsSignature(f[11..]))
    case SetCode =>
      SetCodeTx(AsU256(f[0]), AsU64(f[1]), AsU256(f[2]), AsU256(f[3]), AsU64(f[4]), AsAddress(f[5]), AsU256(f[6]),
                AsBytes(f[7]), AsEntries(f[8]), AsAuthorizations(f[9]), AsSignature(f[10..]))
  }

  // --- The values fit the fields, and give back what they came from ---

  lemma {:induction false} FitConcat(a: seq<Kind>, b: seq<Kind>, x: seq<Value>, y: seq<Value>)
    requires FieldsFit(a, x) && FieldsFit(b, y)
    ensures FieldsFit(a + b, x + y)
  {
    forall i | 0 <= i < |a + b|
      ensures Fits((a + b)[i], (x + y)[i])
    {
      if i < |a| { assert Fits(a[i], x[i]); } else { assert Fits(b[i - |a|], y[i - |a|]); }
    }
  }

  lemma SignatureFits(s: Signature)
    ensures FieldsFit(SIGNATURE, SignatureValues(s)) && AsSignature(SignatureValues(s)) == s
  {
  }

  lemma EntriesFit(es: seq<AccessListEntry>)
    ensures Fits(KVec(ENTRY), VSeq(EntryValues(es))) && AsEntries(VSeq(EntryValues(es))) == es
  {
    forall i | 0 <= i < |es|
      ensures Fits(ENTRY, EntryValue(es[i])) && AsEntry(EntryValue(es[i])) == es[i]
    {
      var k := es[i].storageKeys;
      assert Fits(KVec(HASH), VSeq(HashValues(k)));
      assert AsHashes(VSeq(HashValues(k))) == k;
    }
  }

  lemma AuthorizationsFit(xs: seq<SetCodeAuthorization>)
    ensures Fits(KVec(AUTHORIZATION), VSeq(AuthorizationValues(xs)))
    ensures AsAuthorizations(VSeq(AuthorizationValues(xs))) == xs
  {
    Pow256Of8();
    assert Pow256(1) == 256;
    forall i | 0 <= i < |xs|
      ensures Fits(AUTHORIZATION, AuthorizationValue(xs[i])) && AsAuthorization(AuthorizationValue(xs[i])) == xs[i]
    {
    }
  }

  lemma BlobHashesFit(hs: seq<Hash>)
    ensures Fits(KVec(HASH), VSeq(HashValues(hs))) && AsHashes(VSeq(HashValues(hs))) == hs
  {
  }

  lemma {:induction false} PriceHeadFits(nonce: u64, price: U256, limit: u64, to: Option<Address>, value: U256,
                                        data: bytes)
    ensures FieldsFit([U64, KU256, U64, KNilOr(20), KU256, KBytes],
                      [VNum(nonce), VNum(price), VNum(limit), NilOr(to), VNum(value), VBytes(data)])
  {
    Pow256Of8();
  }

  lemma {:induction false} FeeHeadFits(chainId: U256, nonce: u64, tip: U256, fee: U256, limit: u64, dest: Kind,
                                       to: Value,
                                       value: U256, data: bytes)
    requires Fits(dest, to)
    ensures FieldsFit([KU256, U64, KU256, KU256, U64, dest, KU256, KBytes],
                      [VNum(chainId), VNum(nonce), VNum(tip), VNum(fee), VNum(limit), to, VNum(value), VBytes(data)])
  {
    Pow256Of8();
  }

  lemma {:induction false} ValuesFit(i: Inner)
    ensures FieldsFit(Fields(TypeOf(i)), FieldValues(i))
  {
    SignatureFits(i.signature);
    match i
    case LegacyTx(nonce, gasPrice, gasLimit, to, value, data, signature) =>
      PriceHeadFits(nonce, gasPrice, gasLimit, to, value, data);
      FitConcat([U64, KU256, U64, KNilOr(20), KU256, KBytes], SIGNATURE,
                [VNum(nonce), VNum(gasPrice), VNum(gasLimit), NilOr(to), VNum(value), VBytes(data)],
                SignatureValues(signature));
    case AccessListTx(chainId, nonce, gasPrice, gasLimit, to, value, data, accessList, signature) =>
      AccessListValuesFit(i);
    case DynamicFeeTx(chainId, nonce, tip, fee, gasLimit, to, value, data, accessList, signature) =>
      DynamicFeeValuesFit(i);
    case BlobTx(chainId, nonce, tip, fee, gasLimit, to, value, data, accessList, blobFee, hashes, signature) =>
      BlobValuesFit(i);
    case SetCodeTx(chainId, nonce, tip, fee, gasLimit, to, value, data, accessList, authorizations, signature) =>
      SetCodeValuesFit(i);
  }

  lemma {:induction false} ChainHeadFits(chainId: U256, nonce: u64, price: U256, limit: u64, to: Option<Address>,
                                         value: U256, data: bytes)
    ensures FieldsFit([KU256, U64, KU256, U64, KNilOr(20), KU256, KBytes],
                      [VNum(chainId), VNum(nonce), VNum(price), VNum(limit), NilOr(to), VNum(value), VBytes(data)])
  {
    Pow256Of8();
  }

  lemma {:induction false} AccessListValuesFit(i: Inner)
    requires i.AccessListTx?
    ensures FieldsFit(Fields(AccessList), FieldValues(i))
  {
    ChainHeadFits(i.chainId, i.nonce, i.gasPrice, i.gasLimit, i.dest, i.value, i.data);
    EntriesFit(i.accessList);
    Tail(i, [KU256, U64, KU256, U64, KNilOr(20), KU256, KBytes],
         [VNum(i.chainId), VNum(i.nonce), VNum(i.gasPrice), VNum(i.gasLimit), NilOr(i.dest), VNum(i.value), VBytes(i.data)],
         [KVec(ENTRY)], [VSeq(EntryValues(i.accessList))]);
  }

  /** The part after the data, and the signature. */
  lemma {:induction false} Tail(i: Inner, head: seq<Kind>, x: seq<Value>, middle: seq<Kind>, y: seq<Value>)
    requires FieldsFit(head, x) && FieldsFit(middle, y)
    ensures FieldsFit(head + middle + SIGNATURE, x + y + SignatureValues(i.signature))
  {
    FitConcat(head, middle, x, y);
    SignatureFits(i.signature);
    FitConcat(head + middle, SIGNATURE, x + y, SignatureValues(i.signature));
  }

  lemma {:induction false} DynamicFeeValuesFit(i: Inner)
    requires i.DynamicFeeTx?
    ensures FieldsFit(Fields(DynamicFee), FieldValues(i))
  {
    FeeHeadFits(i.chainId, i.nonce, i.maxPriorityFeePerGas, i.maxFeePerGas, i.gasLimit, KNilOr(20), NilOr(i.dest),
                i.value, i.data);
    EntriesFit(i.accessList);
    Tail(i, [KU256, U64, KU256, KU256, U64, KNilOr(20), KU256, KBytes],
         [VNum(i.chainId), VNum(i.nonce), VNum(i.maxPriorityFeePerGas), VNum(i.maxFeePerGas), VNum(i.gasLimit),
          NilOr(i.dest), VNum(i.value), VBytes(i.data)],
         [KVec(ENTRY)], [VSeq(EntryValues(i.accessList))]);
  }

  lemma {:induction false} BlobValuesFit(i: Inner)
    requires i.BlobTx?
    ensures FieldsFit(Fields(Blob), FieldValues(i))
  {
    FeeHeadFits(i.chainId, i.nonce, i.maxPriorityFeePerGas, i.maxFeePerGas, i.gasLimit, ADDRESS, VBytes(i.to),
                i.value, i.data);
    EntriesFit(i.accessList);
    BlobHashesFit(i.blobVersionedHashes);
    Tail(i, [KU256, U64, KU256, KU256, U64, ADDRESS, KU256, KBytes],
         [VNum(i.chainId), VNum(i.nonce), VNum(i.maxPriorityFeePerGas), VNum(i.maxFeePerGas), VNum(i.gasLimit),
          VBytes(i.to), VNum(i.value), VBytes(i.data)],
         [KVec(ENTRY), KU256, KVec(HASH)],
         [VSeq(EntryValues(i.accessList)), VNum(i.maxFeePerBlobGas), VSeq(HashValues(i.blobVersionedHashes))]);
  }

  lemma {:induction false} SetCodeValuesFit(i: Inner)
    requires i.SetCodeTx?
    ensures FieldsFit(Fields(SetCode), FieldValues(i))
  {
    FeeHeadFits(i.chainId, i.nonce, i.maxPriorityFeePerGas, i.maxFeePerGas, i.gasLimit, ADDRESS, VBytes(i.to),
                i.value, i.data);
    EntriesFit(i.accessList);
    AuthorizationsFit(i.authorizationList);
    Tail(i, [KU256, U64, KU256, KU256, U64, ADDRESS, KU256, KBytes],
         [VNum(i.chainId), VNum(i.nonce), VNum(i.maxPriorityFeePerGas), VNum(i.maxFeePerGas), VNum(i.gasLimit),
          VBytes(i.to), VNum(i.value), VBytes(i.data)],
         [KVec(ENTRY), KVec(AUTHORIZATION)],
         [VSeq(EntryValues(i.accessList)), VSeq(AuthorizationValues(i.authorizationList))]);
  }

  lemma {:induction false} LastThree(head: seq<Value>, s: Signature)
    ensures AsSignature((head + SignatureValues(s))[|head|..]) == s
    ensures |head + SignatureValues(s)| == |head| + 3
  {
    assert (head + SignatureValues(s))[|head|..] == SignatureValues(s);
    SignatureFits(s);
  }

  lemma NilOrInverse(to: Option<Address>)
    ensures AsOption(NilOr(to)) == to
  {
  }

  /** Reading the fields back. */
  lemma {:induction false} InnerInverse(i: Inner)
    ensures |FieldValues(i)| == |Fields(TypeOf(i))| && InnerOf(TypeOf(i), FieldValues(i)) == i
  {
    match i
    case LegacyTx(_, _, _, _, _, _, _) => LegacyInverse(i);
    case AccessListTx(_, _, _, _, _, _, _, _, _) => AccessListInverse(i);
    case DynamicFeeTx(_, _, _, _, _, _, _, _, _, _) => DynamicFeeInverse(i);
    case BlobTx(_, _, _, _, _, _, _, _, _, _, _, _) => BlobInverse(i);
    case SetCodeTx(_, _, _, _, _, _, _, _, _, _, _) => SetCodeInverse(i);
  }

  lemma {:induction false} LegacyInverse(i: Inner)
    requires i.LegacyTx?
    ensures |FieldValues(i)| == 9 && InnerOf(Legacy, FieldValues(i)) == i
  {
    NilOrInverse(i.dest);
    LastThree([VNum(i.nonce), VNum(i.gasPrice), VNum(i.gasLimit), NilOr(i.dest), VNum(i.value), VBytes(i.data)], i.signature);
  }

  lemma {:induction false} AccessListInverse(i: Inner)
    requires i.AccessListTx?
    ensures |FieldValues(i)| == 11 && InnerOf(AccessList, FieldValues(i)) == i
  {
    NilOrInverse(i.dest);
    EntriesFit(i.accessList);
    LastThree([VNum(i.chainId), VNum(i.nonce), VNum(i.gasPrice), VNum(i.gasLimit), NilOr(i.dest), VNum(i.value), VBytes(i.data)]
              + [VSeq(EntryValues(i.accessList))], i.signature);
  }

  lemma {:induction false} DynamicFeeInverse(i: Inner)
    requires i.DynamicFeeTx?
    ensures |FieldValues(i)| == 12 && InnerOf(DynamicFee, FieldValues(i)) == i
  {
    NilOrInverse(i.dest);
    EntriesFit(i.accessList);
    LastThree([VNum(i.chainId), VNum(i.nonce), VNum(i.maxPriorityFeePerGas), VNum(i.maxFeePerGas), VNum(i.gasLimit),
               NilOr(i.dest), VNum(i.value), VBytes(i.data)] + [VSeq(EntryValues(i.accessList))], i.signature);
  }

  lemma {:induction false} BlobInverse(i: Inner)
    requires i.BlobTx?
    ensures |FieldValues(i)| == 14 && InnerOf(Blob, FieldValues(i)) == i
  {
    EntriesFit(i.accessList);
    BlobHashesFit(i.blobVersionedHashes);
    LastThree([VNum(i.chainId), VNum(i.nonce), VNum(i.maxPriorityFeePerGas), VNum(i.maxFeePerGas), VNum(i.gasLimit),
               VBytes(i.to), VNum(i.value), VBytes(i.data)]
              + [VSeq(EntryValues(i.accessList)), VNum(i.maxFeePerBlobGas), VSeq(HashValues(i.blobVersionedHashes))],
              i.signature);
  }

  lemma {:induction false} SetCodeInverse(i: Inner)
    requires i.SetCodeTx?
    ensures |FieldValues(i)| == 13 && InnerOf(SetCode, FieldValues(i)) == i
  {
    EntriesFit(i.accessList);
    AuthorizationsFit(i.authorizationList);
    LastThree([VNum(i.chainId), VNum(i.nonce), VNum(i.maxPriorityFeePerGas), VNum(i.maxFeePerGas), VNum(i.gasLimit),
               VBytes(i.to), VNum(i.value), VBytes(i.data)]
              + [VSeq(EntryValues(i.accessList)), VSeq(AuthorizationValues(i.authorizationList))], i.signature);
  }

  // --- Marshalling ---

  function TypeByte(t: TransactionType): byte {
    match t case Legacy => 0 case AccessList => 1 case DynamicFee => 2 case Blob => 3 case SetCode => 4
  }

  function EncodedLength(i: Inner): nat {
    ValuesFit(i);
    Length(KStruct(Fields(TypeOf(i))), VSeq(FieldValues(i)))
  }

  function EncodeInner(i: Inner): bytes
    requires Sizable(EncodedLength(i))
  {
    ValuesFit(i);
    Encode(KStruct(Fields(TypeOf(i))), VSeq(FieldValues(i)))
  }

  /** The size of the RLP part fits a u64, as `usize` demands. */
  predicate Marshallable(tx: Transaction) {
    TryFrom(tx).Some? ==> Sizable(EncodedLength(TryFrom(tx).value))
  }

  /** `marshal`: an invalid transaction becomes the empty string. */
  function Marshal(tx: Transaction): bytes
    requires Marshallable(tx)
  {
    match TryFrom(tx)
    case None => EncodeString([])
    case Some(i) =>
      if tx.transactionType.Legacy? then EncodeInner(i) else [TypeByte(tx.transactionType)] + EncodeInner(i)
  }

  function DecodeInner(t: TransactionType, s: bytes): Decoded<Transaction> {
    DecodedFits(KStruct(Fields(t)), s);
    match Decode(KStruct(Fields(t)), s)
    case Fail => Fail
    case Ok(v, rest) => Ok(Into(InnerOf(t, v.items)), rest)
  }

  /** `unmarshal`. */
  function Unmarshal(s: bytes): Decoded<Transaction> {
    if s == [] then Fail
    else if s[0] > 0x7f then DecodeInner(Legacy, s)
    else
      match s[0]
      case 1 => DecodeInner(AccessList, s[1..])
      case 2 => DecodeInner(DynamicFee, s[1..])
      case 3 => DecodeInner(Blob, s[1..])
      case 4 => DecodeInner(SetCode, s[1..])
      case _ => Fail
  }

  /** A valid transaction comes back with the fields that its type does not use reset, and exactly the
    * bytes after it are left. An invalid one is marshalled to bytes that are rejected, whatever follows. */
  lemma {:induction false} MarshalRoundTrip(tx: Transaction, rest: bytes)
    requires Marshallable(tx)
    ensures Unmarshal(Marshal(tx) + rest) == if IsValid(tx) then Ok(Reset(tx), rest) else Fail
  {
    ThereAndBack(tx);
    if IsValid(tx) {
      var i := TryFrom(tx).value;
      InnerRoundTrip(i, rest);
      Dispatch(i, rest);
      assert TypeOf(i) == tx.transactionType;
    } else {
      assert Marshal(tx) + rest == [EMPTY_STRING_CODE] + rest;
      EmptyStringRejected(rest);
    }
  }

  lemma {:induction false} Dispatch(i: Inner, rest: bytes)
    requires Sizable(EncodedLength(i))
    ensures var s := if i.LegacyTx? then EncodeInner(i) + rest else [TypeByte(TypeOf(i))] + EncodeInner(i) + rest;
            Unmarshal(s) == DecodeInner(TypeOf(i), EncodeInner(i) + rest)
  {
    if i.LegacyTx? {
      StartsAsList(i);
      assert (EncodeInner(i) + rest)[0] == EncodeInner(i)[0];
    } else {
      TypedDispatch(TypeOf(i), EncodeInner(i), rest);
    }
  }

  lemma {:induction false} StartsAsList(i: Inner)
    requires Sizable(EncodedLength(i))
    ensures EncodeInner(i) != [] && EncodeInner(i)[0] > 0x7f
  {
    ValuesFit(i);
    ListCode(FieldsLength(Fields(TypeOf(i)), FieldValues(i)));
  }

  lemma {:induction false} TypedDispatch(t: TransactionType, inner: bytes, rest: bytes)
    requires !t.Legacy?
    ensures Unmarshal([TypeByte(t)] + inner + rest) == DecodeInner(t, inner + rest)
  {
    var s := [TypeByte(t)] + inner + rest;
    assert s[1..] == inner + rest;
  }

  lemma {:induction false} InnerRoundTrip(i: Inner, rest: bytes)
    requires Sizable(EncodedLength(i))
    ensures DecodeInner(TypeOf(i), EncodeInner(i) + rest) == Ok(Into(i), rest)
  {
    ValuesFit(i);
    RoundTrip(KStruct(Fields(TypeOf(i))), VSeq(FieldValues(i)), rest);
    InnerInverse(i);
  }

  lemma ListCode(payload: nat)
    requires Sizable(payload)
    ensures EncodeHeader(Header(true, payload))[0] > 0x7f
  {
    SizableLength(payload);
  }

  lemma EmptyStringRejected(rest: bytes)
    ensures Unmarshal([EMPTY_STRING_CODE] + rest) == Fail
  {
    var s := [EMPTY_STRING_CODE] + rest;
    assert DecodeHeader(s).Ok? ==> !DecodeHeader(s).value.list;
  }

  /** What is unmarshalled is valid, and has only fields that its type uses. */
  lemma UnmarshalledIsValid(s: bytes)
    ensures var d := Unmarshal(s); d.Ok? ==> IsValid(d.value) && Reset(d.value) == d.value
  {
    if s != [] {
      forall t: TransactionType, b: bytes
        ensures DecodeInner(t, b).Ok? ==>
                  IsValid(DecodeInner(t, b).value) && Reset(DecodeInner(t, b).value) == DecodeInner(t, b).value
      {
        DecodedFits(KStruct(Fields(t)), b);
        var d := Decode(KStruct(Fields(t)), b);
        if d.Ok? { BackAndThere(InnerOf(t, d.value.items)); }
      }
    }
  }

  /** Transactions with the same bytes differ at most in fields that their type does not use. */
  lemma MarshalInjective(a: Transaction, b: Transaction)
    requires Marshallable(a) && Marshallable(b) && IsValid(a) && Marshal(a) == Marshal(b)
    ensures IsValid(b) && Reset(a) == Reset(b)
  {
    MarshalRoundTrip(a, []);
    MarshalRoundTrip(b, []);
  }

  // --- Which bytes are canonical ---

  lemma {:induction false} FitSplit(a: seq<Kind>, b: seq<Kind>, f: seq<Value>)
    requires FieldsFit(a + b, f)
    ensures FieldsFit(a, f[..|a|]) && FieldsFit(b, f[|a|..]) && f == f[..|a|] + f[|a|..]
  {
    forall i | 0 <= i < |a|
      ensures Fits(a[i], f[..|a|][i])
    {
      assert Fits((a + b)[i], f[i]);
    }
    forall i | 0 <= i < |b|
      ensures Fits(b[i], f[|a|..][i])
    {
      assert Fits((a + b)[|a| + i], f[|a| + i]);
    }
  }

  lemma U64Back(v: Value)
    requires Fits(U64, v)
    ensures VNum(AsU64(v)) == v
  {
    Pow256Of8();
  }

  lemma ByteBack(v: Value)
    requires Fits(KUint(1), v)
    ensures VNum(AsByte(v)) == v
  {
    assert Pow256(1) == 256;
  }

  lemma AddressBack(v: Value)
    requires Fits(ADDRESS, v)
    ensures VBytes(AsAddress(v)) == v
  {
  }

  lemma NilOrBack(v: Value)
    requires Fits(KNilOr(20), v)
    ensures NilOr(AsOption(v)) == v
  {
  }

  lemma SignatureBack(f: seq<Value>)
    requires FieldsFit(SIGNATURE, f)
    ensures SignatureValues(AsSignature(f)) == f
  {
    assert Fits(SIGNATURE[0], f[0]) && Fits(SIGNATURE[1], f[1]) && Fits(SIGNATURE[2], f[2]);
  }

  lemma HashesBack(v: Value)
    requires Fits(KVec(HASH), v)
    ensures VSeq(HashValues(AsHashes(v))) == v
  {
    forall i | 0 <= i < |v.items|
      ensures HashValues(AsHashes(v))[i] == v.items[i]
    {
      assert Fits(HASH, v.items[i]);
    }
  }

  lemma EntryBack(v: Value)
    requires Fits(ENTRY, v)
    ensures EntryValue(AsEntry(v)) == v
  {
    assert Fits(ENTRY.fields[0], v.items[0]) && Fits(ENTRY.fields[1], v.items[1]);
    HashesBack(v.items[1]);
  }

  lemma EntriesBack(v: Value)
    requires Fits(KVec(ENTRY), v)
    ensures VSeq(EntryValues(AsEntries(v))) == v
  {
    forall i | 0 <= i < |v.items|
      ensures EntryValue(AsEntry(v.items[i])) == v.items[i]
    {
      EntryBack(v.items[i]);
    }
  }

  lemma AuthorizationBack(v: Value)
    requires Fits(AUTHORIZATION, v)
    ensures AuthorizationValue(AsAuthorization(v)) == v
  {
    AuthorizationFieldsBack(v.items);
  }

  lemma {:induction false} AuthorizationFieldsBack(f: seq<Value>)
    requires FieldsFit([KU256, ADDRESS, U64, KUint(1), KU256, KU256], f)
    ensures f == [VNum(AsU256(f[0])), VBytes(AsAddress(f[1])), VNum(AsU64(f[2])), VNum(AsByte(f[3])), VNum(AsU256(f[4])),
                  VNum(AsU256(f[5]))]
  {
    var k := [KU256, ADDRESS, U64, KUint(1), KU256, KU256];
    assert Fits(k[0], f[0]) && Fits(k[1], f[1]) && Fits(k[2], f[2]);
    assert Fits(k[3], f[3]) && Fits(k[4], f[4]) && Fits(k[5], f[5]);
    AddressBack(f[1]);
    U64Back(f[2]);
    ByteBack(f[3]);
  }

  lemma AuthorizationsBack(v: Value)
    requires Fits(KVec(AUTHORIZATION), v)
    ensures VSeq(AuthorizationValues(AsAuthorizations(v))) == v
  {
    forall i | 0 <= i < |v.items|
      ensures AuthorizationValue(AsAuthorization(v.items[i])) == v.items[i]
    {
      AuthorizationBack(v.items[i]);
    }
  }

  lemma {:induction false} PriceHeadBack(f: seq<Value>)
    requires FieldsFit([U64, KU256, U64, KNilOr(20), KU256, KBytes], f)
    ensures f == [VNum(AsU64(f[0])), VNum(AsU256(f[1])), VNum(AsU64(f[2])), NilOr(AsOption(f[3])), VNum(AsU256(f[4])),
                  VBytes(AsBytes(f[5]))]
  {
    var k := [U64, KU256, U64, KNilOr(20), KU256, KBytes];
    assert Fits(k[0], f[0]) && Fits(k[1], f[1]) && Fits(k[2], f[2]);
    assert Fits(k[3], f[3]) && Fits(k[4], f[4]) && Fits(k[5], f[5]);
    U64Back(f[0]);
    U64Back(f[2]);
    NilOrBack(f[3]);
  }

  lemma {:induction false} FeeHeadBack(f: seq<Value>, dest: Kind)
    requires FieldsFit([KU256, U64, KU256, KU256, U64, dest, KU256, KBytes], f)
    ensures Fits(dest, f[5])
    ensures f == [VNum(AsU256(f[0])), VNum(AsU64(f[1])), VNum(AsU256(f[2])), VNum(AsU256(f[3])), VNum(AsU64(f[4])), f[5],
                  VNum(AsU256(f[6])), VBytes(AsBytes(f[7]))]
  {
    var k := [KU256, U64, KU256, KU256, U64, dest, KU256, KBytes];
    assert Fits(k[0], f[0]) && Fits(k[1], f[1]) && Fits(k[2], f[2]) && Fits(k[3], f[3]);
    assert Fits(k[4], f[4]) && Fits(k[5], f[5]) && Fits(k[6], f[6]) && Fits(k[7], f[7]);
    U64Back(f[1]);
    U64Back(f[4]);
  }

  lemma {:induction false} CallHeadBack(f: seq<Value>)
    requires FieldsFit([KU256, U64, KU256, KU256, U64, ADDRESS, KU256, KBytes], f)
    ensures f == [VNum(AsU256(f[0])), VNum(AsU64(f[1])), VNum(AsU256(f[2])), VNum(AsU256(f[3])), VNum(AsU64(f[4])),
                  VBytes(AsAddress(f[5])), VNum(AsU256(f[6])), VBytes(AsBytes(f[7]))]
  {
    FeeHeadBack(f, ADDRESS);
    AddressBack(f[5]);
  }

  lemma {:induction false} CreateHeadBack(f: seq<Value>)
    requires FieldsFit([KU256, U64, KU256, KU256, U64, KNilOr(20), KU256, KBytes], f)
    ensures f == [VNum(AsU256(f[0])), VNum(AsU64(f[1])), VNum(AsU256(f[2])), VNum(AsU256(f[3])), VNum(AsU64(f[4])),
                  NilOr(AsOption(f[5])), VNum(AsU256(f[6])), VBytes(AsBytes(f[7]))]
  {
    FeeHeadBack(f, KNilOr(20));
    NilOrBack(f[5]);
  }

  /** The values of a type are those of the inner transaction that is made of them. */
  lemma {:induction false} ValuesInverse(t: TransactionType, f: seq<Value>)
    requires FieldsFit(Fields(t), f)
    ensures TypeOf(InnerOf(t, f)) == t && FieldValues(InnerOf(t, f)) == f
  {
    match t
    case Legacy => LegacyBack(f);
    case AccessList => AccessListBack(f);
    case DynamicFee => DynamicFeeBack(f);
    case Blob => BlobBack(f);
    case SetCode => SetCodeBack(f);
  }

  lemma {:induction false} LegacyBack(f: seq<Value>)
    requires FieldsFit(Fields(Legacy), f)
    ensures FieldValues(InnerOf(Legacy, f)) == f
  {
    FitSplit([U64, KU256, U64, KNilOr(20), KU256, KBytes], SIGNATURE, f);
    PriceHeadBack(f[..6]);
    SignatureBack(f[6..]);
  }

  lemma {:induction false} FitThree(a: seq<Kind>, b: seq<Kind>, c: seq<Kind>, f: seq<Value>)
    requires FieldsFit(a + b + c, f)
    ensures FieldsFit(a, f[..|a|]) && FieldsFit(b, f[|a|..|a| + |b|]) && FieldsFit(c, f[|a| + |b|..])
    ensures f == f[..|a|] + f[|a|..|a| + |b|] + f[|a| + |b|..]
  {
    FitSplit(a + b, c, f);
    FitSplit(a, b, f[..|a| + |b|]);
    assert f[..|a| + |b|][..|a|] == f[..|a|] && f[..|a| + |b|][|a|..] == f[|a|..|a| + |b|];
  }

  lemma {:induction false} EntriesMiddleBack(m: seq<Value>)
    requires FieldsFit([KVec(ENTRY)], m)
    ensures m == [VSeq(EntryValues(AsEntries(m[0])))]
  {
    assert Fits([KVec(ENTRY)][0], m[0]);
    EntriesBack(m[0]);
  }

  lemma {:induction false} BlobMiddleBack(m: seq<Value>)
    requires FieldsFit([KVec(ENTRY), KU256, KVec(HASH)], m)
    ensures m == [VSeq(EntryValues(AsEntries(m[0]))), VNum(AsU256(m[1])), VSeq(HashValues(AsHashes(m[2])))]
  {
    var k := [KVec(ENTRY), KU256, KVec(HASH)];
    assert Fits(k[0], m[0]) && Fits(k[1], m[1]) && Fits(k[2], m[2]);
    EntriesBack(m[0]);
    HashesBack(m[2]);
  }

  lemma {:induction false} SetCodeMiddleBack(m: seq<Value>)
    requires FieldsFit([KVec(ENTRY), KVec(AUTHORIZATION)], m)
    ensures m == [VSeq(EntryValues(AsEntries(m[0]))), VSeq(AuthorizationValues(AsAuthorizations(m[1])))]
  {
    var k := [KVec(ENTRY), KVec(AUTHORIZATION)];
    assert Fits(k[0], m[0]) && Fits(k[1], m[1]);
    EntriesBack(m[0]);
    AuthorizationsBack(m[1]);
  }

  lemma {:induction false} ChainHeadBack(f: seq<Value>)
    requires FieldsFit([KU256, U64, KU256, U64, KNilOr(20), KU256, KBytes], f)
    ensures f == [VNum(AsU256(f[0])), VNum(AsU64(f[1])), VNum(AsU256(f[2])), VNum(AsU64(f[3])), NilOr(AsOption(f[4])),
                  VNum(AsU256(f[5])), VBytes(AsBytes(f[6]))]
  {
    var k := [KU256, U64, KU256, U64, KNilOr(20), KU256, KBytes];
    assert Fits(k[0], f[0]) && Fits(k[1], f[1]) && Fits(k[2], f[2]) && Fits(k[3], f[3]);
    assert Fits(k[4], f[4]) && Fits(k[5], f[5]) && Fits(k[6], f[6]);
    U64Back(f[1]);
    U64Back(f[3]);
    NilOrBack(f[4]);
  }

  lemma {:induction false} AccessListBack(f: seq<Value>)
    requires FieldsFit(Fields(AccessList), f)
    ensures FieldValues(InnerOf(AccessList, f)) == f
  {
    FitThree([KU256, U64, KU256, U64, KNilOr(20), KU256, KBytes], [KVec(ENTRY)], SIGNATURE, f);
    ChainHeadBack(f[..7]);
    EntriesMiddleBack(f[7..8]);
    SignatureBack(f[8..]);
  }

  lemma {:induction false} DynamicFeeBack(f: seq<Value>)
    requires FieldsFit(Fields(DynamicFee), f)
    ensures FieldValues(InnerOf(DynamicFee, f)) == f
  {
    FitThree([KU256, U64, KU256, KU256, U64, KNilOr(20), KU256, KBytes], [KVec(ENTRY)], SIGNATURE, f);
    CreateHeadBack(f[..8]);
    EntriesMiddleBack(f[8..9]);
    SignatureBack(f[9..]);
  }

  lemma {:induction false} BlobBack(f: seq<Value>)
    requires FieldsFit(Fields(Blob), f)
    ensures FieldValues(InnerOf(Blob, f)) == f
  {
    FitThree([KU256, U64, KU256, KU256, U64, ADDRESS, KU256, KBytes], [KVec(ENTRY), KU256, KVec(HASH)], SIGNATURE, f);
    BlobPartsBack(f[..8], f[8..11], f[11..]);
  }

  lemma {:induction false} BlobPartsBack(x: seq<Value>, y: seq<Value>, z: seq<Value>)
    requires FieldsFit([KU256, U64, KU256, KU256, U64, ADDRESS, KU256, KBytes], x)
    requires FieldsFit([KVec(ENTRY), KU256, KVec(HASH)], y) && FieldsFit(SIGNATURE, z)
    ensures FieldValues(InnerOf(Blob, x + y + z)) == x + y + z
  {
    CallHeadBack(x);
    BlobMiddleBack(y);
    SignatureBack(z);
    assert (x + y + z)[11..] == z;
    var i := InnerOf(Blob, x + y + z);
    assert [VNum(i.chainId), VNum(i.nonce), VNum(i.maxPriorityFeePerGas), VNum(i.maxFeePerGas), VNum(i.gasLimit),
            VBytes(i.to), VNum(i.value), VBytes(i.data)] == x;
    assert [VSeq(EntryValues(i.accessList)), VNum(i.maxFeePerBlobGas), VSeq(HashValues(i.blobVersionedHashes))] == y;
  }

  lemma {:induction false} SetCodeBack(f: seq<Value>)
    requires FieldsFit(Fields(SetCode), f)
    ensures FieldValues(InnerOf(SetCode, f)) == f
  {
    FitThree([KU256, U64, KU256, KU256, U64, ADDRESS, KU256, KBytes], [KVec(ENTRY), KVec(AUTHORIZATION)], SIGNATURE, f);
    SetCodePartsBack(f[..8], f[8..10], f[10..]);
  }

  lemma {:induction false} SetCodePartsBack(x: seq<Value>, y: seq<Value>, z: seq<Value>)
    requires FieldsFit([KU256, U64, KU256, KU256, U64, ADDRESS, KU256, KBytes], x)
    requires FieldsFit([KVec(ENTRY), KVec(AUTHORIZATION)], y) && FieldsFit(SIGNATURE, z)
    ensures FieldValues(InnerOf(SetCode, x + y + z)) == x + y + z
  {
    CallHeadBack(x);
    SetCodeMiddleBack(y);
    SignatureBack(z);
    assert (x + y + z)[10..] == z;
    var i := InnerOf(SetCode, x + y + z);
    assert [VNum(i.chainId), VNum(i.nonce), VNum(i.maxPriorityFeePerGas), VNum(i.maxFeePerGas), VNum(i.gasLimit),
            VBytes(i.to), VNum(i.value), VBytes(i.data)] == x;
    assert [VSeq(EntryValues(i.accessList)), VSeq(AuthorizationValues(i.authorizationList))] == y;
  }

  /** No U256 in the bytes of a transaction starts with a zero byte. */
  predicate MinimalTransaction(s: bytes) {
    s != [] ==>
      if s[0] > 0x7f then Minimal(KStruct(Fields(Legacy)), s)
      else
        match s[0]
        case 1 => Minimal(KStruct(Fields(AccessList)), s[1..])
        case 2 => Minimal(KStruct(Fields(DynamicFee)), s[1..])
        case 3 => Minimal(KStruct(Fields(Blob)), s[1..])
        case 4 => Minimal(KStruct(Fields(SetCode)), s[1..])
        case _ => true
  }

  lemma {:induction false} InnerReencodes(t: TransactionType, s: bytes)
    requires Sizable(|s|) && DecodeInner(t, s).Ok?
    ensures var tx := DecodeInner(t, s).value;
            && TryFrom(tx).Some? && TypeOf(TryFrom(tx).value) == tx.transactionType == t
            && Sizable(EncodedLength(TryFrom(tx).value))
            && Reencodes(s, DecodeInner(t, s).rest, EncodeInner(TryFrom(tx).value), Minimal(KStruct(Fields(t)), s))
  {
    var k := KStruct(Fields(t));
    DecodedFits(k, s);
    DecodedIsMinimal(k, s);
    var f := Decode(k, s).value.items;
    ValuesInverse(t, f);
    BackAndThere(InnerOf(t, f));
    ValuesFit(InnerOf(t, f));
  }

  /** What is unmarshalled has an encoding no longer than the bytes consumed. It is these bytes exactly if
    * no U256 in them starts with a zero byte. */
  lemma {:induction false} MarshalOfUnmarshal(s: bytes)
    requires Sizable(|s|) && Unmarshal(s).Ok?
    ensures var tx, rest := Unmarshal(s).value, Unmarshal(s).rest;
            Marshallable(tx) && Reencodes(s, rest, Marshal(tx), MinimalTransaction(s))
  {
    var tx, rest := Unmarshal(s).value, Unmarshal(s).rest;
    if s[0] > 0x7f {
      InnerReencodes(Legacy, s);
    } else {
      var t := if s[0] == 1 then AccessList else if s[0] == 2 then DynamicFee else if s[0] == 3 then Blob else SetCode;
      InnerReencodes(t, s[1..]);
      TypeByteReencodes(s, rest, EncodeInner(TryFrom(tx).value), Minimal(KStruct(Fields(t)), s[1..]));
    }
  }

  lemma TypeByteReencodes(s: bytes, rest: bytes, encoding: bytes, minimal: bool)
    requires s != [] && Reencodes(s[1..], rest, encoding, minimal)
    ensures Reencodes(s, rest, [s[0]] + encoding, minimal)
  {
    assert s == [s[0]] + s[1..];
    ReencodesBehind(s, [s[0]], s[1..], rest, [s[0]], encoding, minimal);
  }
}
