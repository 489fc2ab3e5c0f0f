/** The byte-level store behind the block database: what RocksDB holds, and in which order. */
module RawStore {
  import opened Bytes
  import opened KvLayout
  import opened BlockDb

  type Raw = map<bytes, bytes>

  /** The key-value pairs in bytes. */
  ghost function RawOf(kv: Kv): Raw {
    map key: bytes | key in RawKeys(kv) :: kv[KeyOf(kv, key)]
  }

  function RawKeys(kv: Kv): set<bytes> {
    set k | k in kv :: MakeKey(k)
  }

  ghost function KeyOf(kv: Kv, key: bytes): (k: Key)
    requires key in RawKeys(kv)
    ensures k in kv && MakeKey(k) == key
  {
    var k :| k in kv && MakeKey(k) == key;
    k
  }

  /** Reading a key. */
  lemma RawGet(kv: Kv, k: Key)
    ensures MakeKey(k) in RawOf(kv) <==> k in kv
    ensures k in kv ==> RawOf(kv)[MakeKey(k)] == kv[k]
  {
    if MakeKey(k) in RawKeys(kv) {
      KeyInjective(k, KeyOf(kv, MakeKey(k)));
    }
    assert k in kv ==> MakeKey(k) in RawKeys(kv);
  }

  /** RocksDB's effect of one operation, on bytes. */
  function RawApply(raw: Raw, op: Op): Raw {
    match op
    case Put(k, v) => raw[MakeKey(k) := v]
    case Delete(k) => raw - {MakeKey(k)}
    case DeleteRange(a, b) => map k | k in raw && !(Le(MakeKey(a), k) && Lt(k, MakeKey(b))) :: raw[k]
  }

  /** A raw store is determined by what it says about every key of the layout. */
  lemma SameRaw(kv: Kv, raw: Raw)
    requires forall key | key in raw :: exists k :: key == MakeKey(k)
    requires forall k :: MakeKey(k) in raw <==> k in kv
    requires forall k | k in kv && MakeKey(k) in raw :: raw[MakeKey(k)] == kv[k]
    ensures raw == RawOf(kv)
  {
    forall key | key in raw
      ensures key in RawOf(kv) && RawOf(kv)[key] == raw[key]
    {
      var k :| key == MakeKey(k);
      RawGet(kv, k);
    }
    forall key | key in RawOf(kv)
      ensures key in raw
    {
      var k := KeyOf(kv, key);
    }
  }

  lemma LeIsNotLt(a: Key, k: Key)
    ensures Le(MakeKey(a), MakeKey(k)) <==> !KeyLt(k, a)
  {
    KeyOrder(a, k);
    KeyOrder(k, a);
    KeyInjective(a, k);
  }

  /** The operations on keys are those on bytes. In particular a deletion between two block keys in
    * byte order is one by chain and number. */
  lemma RawApplyAgrees(kv: Kv, op: Op)
    ensures RawOf(ApplyOp(kv, op)) == RawApply(RawOf(kv), op)
  {
    var kv', raw := ApplyOp(kv, op), RawApply(RawOf(kv), op);
    forall key | key in raw
      ensures exists k :: key == MakeKey(k)
    {
      if key in RawOf(kv) {
        assert key == MakeKey(KeyOf(kv, key));
      }
    }
    forall k
      ensures MakeKey(k) in raw <==> k in kv'
      ensures k in kv' ==> raw[MakeKey(k)] == kv'[k]
    {
      RawGet(kv, k);
      match op
      case Put(x, _) => KeyInjective(k, x);
      case Delete(x) => KeyInjective(k, x);
      case DeleteRange(a, b) =>
        LeIsNotLt(a, k);
        KeyOrder(k, b);
    }
    SameRaw(kv', raw);
  }
}
