/** The block database on top of a key-value store (blockservice/src/db/blockdb.rs,
  * blockservice/src/db/rocksdb.rs): blocks, and the redundant chain IDs and block ranges.
  *
  * The store is a map from keys to values; `RawStore` is the map from byte strings that RocksDB holds. */
module BlockDb {
  import opened Bytes
  import opened Ranges
  import opened KvLayout

  type Kv = map<Key, bytes>

  // --- The key-value store ---

  datatype Op = Put(key: Key, value: bytes) | Delete(key: Key) | DeleteRange(start: Key, end: Key)

  /** RocksDB's effect of one operation; its range deletion excludes the end. */
  function ApplyOp(kv: Kv, op: Op): Kv {
    match op
    case Put(k, v) => kv[k := v]
    case Delete(k) => kv - {k}
    case DeleteRange(a, b) => map k | k in kv && !(!KeyLt(k, a) && KeyLt(k, b)) :: kv[k]
  }

  /** Writing a batch applies its operations in order. */
  function ApplyOps(kv: Kv, ops: seq<Op>): Kv {
    if ops == [] then kv else ApplyOp(ApplyOps(kv, ops[..|ops| - 1]), ops[|ops| - 1])
  }

  lemma ApplyOneMore(kv: Kv, ops: seq<Op>, op: Op)
    ensures ApplyOps(kv, ops + [op]) == ApplyOp(ApplyOps(kv, ops), op)
  {
    assert (ops + [op])[..|ops|] == ops;
  }

  /** `delete_range_raw`: an inclusive range deletion. */
  function DeleteRangeOps(start: Key, end: Key): seq<Op> {
    [Delete(end), DeleteRange(start, end)]
  }

  /** It deletes exactly the keys from start to end, the end included. */
  lemma DeleteRangeIsInclusive(kv: Kv, start: Key, end: Key)
    requires !KeyLt(end, start)
    ensures ApplyOps(kv, DeleteRangeOps(start, end)) ==
            map k | k in kv && !(!KeyLt(k, start) && !KeyLt(end, k)) :: kv[k]
  {
    var ops := DeleteRangeOps(start, end);
    assert ops[..1] == [Delete(end)] && ops[..1][..0] == [];
    assert ApplyOps(kv, ops[..1]) == kv - {end};
    assert forall k :: !KeyLt(end, k) <==> KeyLt(k, end) || k == end;
  }

  // --- What the store says ---

  function BlockNumbers(kv: Kv, c: u64): set<BlockNo> {
    set n: BlockNo | 0 <= n < U64_MAX && BlockAt(c, n) in kv
  }

  function StoredChainIds(kv: Kv): bytes {
    if ChainIds in kv then kv[ChainIds] else []
  }

  function StoredRanges(kv: Kv, c: u64): bytes {
    if Meta(c, BlockRanges) in kv then kv[Meta(c, BlockRanges)] else []
  }

  /** The serialized index entries. */
  ghost function RangesValue(numbers: set<BlockNo>): bytes {
    SerializeRanges(NormalForm(numbers))
  }

  ghost function IdsValue(ids: set<u64>): bytes {
    SerializeU64s(SortedIds(ids))
  }

  /** The listed chains. */
  function Listed(kv: Kv): set<u64> {
    if |StoredChainIds(kv)| % 8 == 0 then Elements(Chunks(StoredChainIds(kv))) else {}
  }

  lemma ListedAre(kv: Kv, ids: set<u64>)
    requires StoredChainIds(kv) == IdsValue(ids)
    ensures Listed(kv) == ids
  {
    ChunksInverse(SortedIds(ids));
  }

  /** The ranges of every chain are the normal form of the numbers of its blocks. */
  ghost predicate RangesExact(kv: Kv) {
    forall c: u64 :: StoredRanges(kv, c) == RangesValue(BlockNumbers(kv, c))
  }

  predicate NeedsListing(key: Key) {
    key.BlockAt? || (key.Meta? && key.kind != BlockRanges)
  }

  /** Every chain with a block or with JSON metadata is among the given ones. */
  ghost predicate Covers(kv: Kv, ids: set<u64>) {
    forall key | key in kv && NeedsListing(key) :: key.chain in ids
  }

  /** The redundant indexes agree with the keys: the ranges are exact, and the chain IDs are strictly
    * ascending and complete. */
  ghost predicate Consistent(kv: Kv) {
    && RangesExact(kv)
    && StoredChainIds(kv) == IdsValue(Listed(kv))
    && Covers(kv, Listed(kv))
  }

  // --- Specifications of the operations ---

  /** Storing a block. */
  ghost function PutBlock(kv: Kv, c: u64, n: BlockNo, data: bytes): Kv {
    kv[BlockAt(c, n) := data]
      [Meta(c, BlockRanges) := RangesValue(BlockNumbers(kv, c) + {n})]
      [ChainIds := IdsValue(Listed(kv) + {c})]
  }

  /** Storing JSON metadata. */
  ghost function PutMeta(kv: Kv, c: u64, kind: MetaKind, data: bytes): Kv {
    kv[Meta(c, kind) := data][ChainIds := IdsValue(Listed(kv) + {c})]
  }

  function WithoutBlocks(kv: Kv, c: u64, s: BlockNo, e: BlockNo): Kv {
    map k | k in kv && !(k.BlockAt? && k.chain == c && s <= k.number <= e) :: kv[k]
  }

  /** Deleting the blocks of a chain from number s to number e. */
  ghost function DeleteBlocks(kv: Kv, c: u64, s: BlockNo, e: BlockNo): Kv {
    WithoutBlocks(kv, c, s, e)
      [Meta(c, BlockRanges) := RangesValue(BlockNumbers(kv, c) - Numbers(Range(s, e)))]
  }

  lemma PutBlockNumbers(kv: Kv, c: u64, n: BlockNo, data: bytes, d: u64)
    ensures BlockNumbers(PutBlock(kv, c, n, data), d) == BlockNumbers(kv, d) + (if d == c then {n} else {})
  {
    var kv' := PutBlock(kv, c, n, data);
    assert forall m: BlockNo :: BlockAt(d, m) in kv' <==> BlockAt(d, m) in kv || (d == c && m == n);
  }

  lemma PutBlockRanges(kv: Kv, c: u64, n: BlockNo, data: bytes, d: u64)
    requires StoredRanges(kv, d) == RangesValue(BlockNumbers(kv, d))
    ensures var kv' := PutBlock(kv, c, n, data); StoredRanges(kv', d) == RangesValue(BlockNumbers(kv', d))
  {
    PutBlockNumbers(kv, c, n, data, d);
    if d != c {
      assert BlockNumbers(kv, d) + {} == BlockNumbers(kv, d);
    }
  }

  lemma {:induction false} PutBlockExact(kv: Kv, c: u64, n: BlockNo, data: bytes)
    requires RangesExact(kv)
    ensures RangesExact(PutBlock(kv, c, n, data))
  {
    forall d: u64
      ensures StoredRanges(PutBlock(kv, c, n, data), d) == RangesValue(BlockNumbers(PutBlock(kv, c, n, data), d))
    {
      PutBlockRanges(kv, c, n, data, d);
    }
  }

  lemma {:induction false} PutBlockListed(kv: Kv, c: u64, n: BlockNo, data: bytes)
    requires Covers(kv, Listed(kv))
    ensures var kv' := PutBlock(kv, c, n, data);
            && Listed(kv') == Listed(kv) + {c}
            && StoredChainIds(kv') == IdsValue(Listed(kv) + {c})
            && Covers(kv', Listed(kv) + {c})
  {
    ListedAre(PutBlock(kv, c, n, data), Listed(kv) + {c});
  }

  /** Storing a block keeps the indexes in agreement with the keys. */
  lemma {:induction false} PutBlockConsistent(kv: Kv, c: u64, n: BlockNo, data: bytes)
    requires Consistent(kv)
    ensures Consistent(PutBlock(kv, c, n, data))
    ensures Listed(PutBlock(kv, c, n, data)) == Listed(kv) + {c}
  {
    PutBlockExact(kv, c, n, data);
    PutBlockListed(kv, c, n, data);
  }

  lemma PutMetaRanges(kv: Kv, c: u64, kind: MetaKind, data: bytes, d: u64)
    requires kind != BlockRanges
    ensures var kv' := PutMeta(kv, c, kind, data);
            StoredRanges(kv', d) == StoredRanges(kv, d) && BlockNumbers(kv', d) == BlockNumbers(kv, d)
  {
    var kv' := PutMeta(kv, c, kind, data);
    assert forall n: BlockNo :: BlockAt(d, n) in kv' <==> BlockAt(d, n) in kv;
  }

  lemma PutMetaConsistent(kv: Kv, c: u64, kind: MetaKind, data: bytes)
    requires Consistent(kv) && kind != BlockRanges
    ensures Consistent(PutMeta(kv, c, kind, data))
    ensures Listed(PutMeta(kv, c, kind, data)) == Listed(kv) + {c}
  {
    ListedAre(PutMeta(kv, c, kind, data), Listed(kv) + {c});
    forall d: u64 {
      PutMetaRanges(kv, c, kind, data, d);
    }
  }

  lemma DeleteBlocksNumbers(kv: Kv, c: u64, s: BlockNo, e: BlockNo, d: u64)
    ensures BlockNumbers(DeleteBlocks(kv, c, s, e), d) ==
            BlockNumbers(kv, d) - (if d == c then Numbers(Range(s, e)) else {})
  {
    var kv' := DeleteBlocks(kv, c, s, e);
    assert forall n: BlockNo :: n in Numbers(Range(s, e)) <==> Holds(Range(s, e), n);
    assert forall n: BlockNo :: BlockAt(d, n) in kv' <==> BlockAt(d, n) in kv && !(d == c && s <= n <= e);
  }

  lemma DeleteBlocksConsistent(kv: Kv, c: u64, s: BlockNo, e: BlockNo)
    requires Consistent(kv)
    ensures Consistent(DeleteBlocks(kv, c, s, e))
    ensures Listed(DeleteBlocks(kv, c, s, e)) == Listed(kv)
  {
    var kv' := DeleteBlocks(kv, c, s, e);
    assert StoredChainIds(kv') == StoredChainIds(kv);
    forall d: u64
      ensures StoredRanges(kv', d) == RangesValue(BlockNumbers(kv', d))
    {
      DeleteBlocksNumbers(kv, c, s, e, d);
      if d != c {
        assert BlockNumbers(kv', d) == BlockNumbers(kv, d);
        assert StoredRanges(kv', d) == StoredRanges(kv, d);
      }
    }
  }

  // --- Batches ---

  datatype BlockPut = BlockPut(chain: u64, number: BlockNo, data: bytes)

  /** Storing blocks one by one. */
  ghost function PutAll(kv: Kv, puts: seq<BlockPut>): Kv {
    if puts == [] then kv
    else
      var p := puts[|puts| - 1];
      PutBlock(PutAll(kv, puts[..|puts| - 1]), p.chain, p.number, p.data)
  }

  function Chains(puts: seq<BlockPut>): set<u64> {
    set p | p in puts :: p.chain
  }

  function NumbersOf(puts: seq<BlockPut>, c: u64): set<BlockNo> {
    set p | p in puts && p.chain == c :: p.number
  }

  /** The blocks of the puts; of several for one number the last counts. */
  function BlockMap(puts: seq<BlockPut>): Kv {
    if puts == [] then map[]
    else
      var p := puts[|puts| - 1];
      BlockMap(puts[..|puts| - 1])[BlockAt(p.chain, p.number) := p.data]
  }

  /** The ranges entries of some chains after the puts. */
  ghost function RangesMap(kv: Kv, puts: seq<BlockPut>, chains: set<u64>): (m: Kv)
    ensures m.Keys == RangesKeys(chains)
    ensures forall key | key in m :: m[key] == RangesEntry(kv, puts, key.chain)
  {
    map key | key in RangesKeys(chains) :: RangesEntry(kv, puts, key.chain)
  }

  ghost function RangesEntry(kv: Kv, puts: seq<BlockPut>, c: u64): bytes {
    RangesValue(BlockNumbers(kv, c) + NumbersOf(puts, c))
  }

  function RangesKeys(chains: set<u64>): (keys: set<Key>)
    ensures forall key | key in keys :: key.Meta?
  {
    set c | c in chains :: Meta(c, BlockRanges)
  }

  /** What writing a non-empty batch leaves. */
  ghost function Batched(kv: Kv, puts: seq<BlockPut>): Kv {
    kv + BlockMap(puts) + RangesMap(kv, puts, Chains(puts))
       + map[ChainIds := IdsValue(Listed(kv) + Chains(puts))]
  }

  lemma OneMorePut(puts: seq<BlockPut>, p: BlockPut)
    ensures Chains(puts + [p]) == Chains(puts) + {p.chain}
    ensures BlockMap(puts + [p]) == BlockMap(puts)[BlockAt(p.chain, p.number) := p.data]
  {
    assert forall q :: q in puts + [p] <==> q in puts || q == p;
    assert (puts + [p])[..|puts|] == puts;
  }

  lemma OneMoreNumber(puts: seq<BlockPut>, p: BlockPut, c: u64)
    ensures NumbersOf(puts + [p], c) == NumbersOf(puts, c) + (if p.chain == c then {p.number} else {})
  {
    assert forall q :: q in puts + [p] <==> q in puts || q == p;
  }

  lemma {:induction false} PutAllNumbers(kv: Kv, puts: seq<BlockPut>, c: u64)
    ensures BlockNumbers(PutAll(kv, puts), c) == BlockNumbers(kv, c) + NumbersOf(puts, c)
  {
    if puts != [] {
      var init, p := puts[..|puts| - 1], puts[|puts| - 1];
      assert puts == init + [p];
      OneMoreNumber(init, p, c);
      PutAllNumbers(kv, init, c);
      PutBlockNumbers(PutAll(kv, init), p.chain, p.number, p.data, c);
    }
  }

  /** Any number of puts, of any chains and with repetitions, keeps the indexes exact. */
  lemma {:induction false} PutAllConsistent(kv: Kv, puts: seq<BlockPut>)
    requires Consistent(kv)
    ensures Consistent(PutAll(kv, puts))
    ensures Listed(PutAll(kv, puts)) == Listed(kv) + Chains(puts)
  {
    if puts != [] {
      var init, p := puts[..|puts| - 1], puts[|puts| - 1];
      assert puts == init + [p];
      OneMorePut(init, p);
      PutAllConsistent(kv, init);
      PutBlockConsistent(PutAll(kv, init), p.chain, p.number, p.data);
    }
  }

  lemma EntryUnchanged(kv: Kv, puts: seq<BlockPut>, p: BlockPut, c: u64)
    requires c != p.chain
    ensures NumbersOf(puts + [p], c) == NumbersOf(puts, c)
    ensures RangesEntry(kv, puts + [p], c) == RangesEntry(kv, puts, c)
  {
    OneMoreNumber(puts, p, c);
    assert NumbersOf(puts, c) + {} == NumbersOf(puts, c);
  }

  lemma MapNext<K, V>(m: map<K, V>, m': map<K, V>, k: K, v: V)
    requires m'.Keys == m.Keys + {k} && m'[k] == v
    requires forall x | x in m && x != k :: m'[x] == m[x]
    ensures m' == m[k := v]
  {
  }

  lemma RangesKeysNext(chains: set<u64>, c: u64)
    ensures RangesKeys(chains + {c}) == RangesKeys(chains) + {Meta(c, BlockRanges)}
  {
  }

  lemma RangesMapNext(kv: Kv, puts: seq<BlockPut>, p: BlockPut)
    ensures RangesMap(kv, puts + [p], Chains(puts + [p])) ==
            RangesMap(kv, puts, Chains(puts))
              [Meta(p.chain, BlockRanges) := RangesEntry(kv, puts + [p], p.chain)]
  {
    var m, m' := RangesMap(kv, puts, Chains(puts)), RangesMap(kv, puts + [p], Chains(puts + [p]));
    var k := Meta(p.chain, BlockRanges);
    OneMorePut(puts, p);
    RangesKeysNext(Chains(puts), p.chain);
    forall x | x in m && x != k
      ensures m'[x] == m[x]
    {
      EntryUnchanged(kv, puts, p, x.chain);
    }
    MapNext(m, m', k, RangesEntry(kv, puts + [p], p.chain));
  }

  lemma {:induction false} BlockMapKeys(puts: seq<BlockPut>)
    ensures forall key | key in BlockMap(puts) :: key.BlockAt?
  {
    if puts != [] {
      BlockMapKeys(puts[..|puts| - 1]);
    }
  }

  /** Updating one entry in each of three overlays with disjoint keys. */
  lemma UpdateOverlays<K, V>(kv: map<K, V>, a: map<K, V>, b: map<K, V>, i: K, v: V,
                             ka: K, va: V, kb: K, vb: V, v': V)
    requires a.Keys !! b.Keys && i !in a && i !in b
    requires ka !in b && kb !in a && ka != kb && ka != i && kb != i
    ensures (kv + a + b + map[i := v])[ka := va][kb := vb][i := v'] == kv + a[ka := va] + b[kb := vb] + map[i := v']
  {
  }

  lemma FirstOverlays<K, V>(kv: map<K, V>, i: K, ka: K, va: V, kb: K, vb: V, v: V)
    requires ka != kb && ka != i && kb != i
    ensures kv[ka := va][kb := vb][i := v] == kv + map[ka := va] + map[kb := vb] + map[i := v]
  {
  }

  lemma {:induction false} BatchedOne(kv: Kv, p: BlockPut)
    requires Consistent(kv)
    ensures PutAll(kv, [] + [p]) == Batched(kv, [] + [p])
  {
    OneMorePut([], p);
    RangesMapNext(kv, [], p);
    LastPut(kv, [], p);
    assert RangesMap(kv, [], Chains([])) == map[];
    FirstOverlays(kv, ChainIds, BlockAt(p.chain, p.number), p.data, Meta(p.chain, BlockRanges),
                  RangesEntry(kv, [] + [p], p.chain), IdsValue(Listed(kv) + Chains([] + [p])));
  }

  lemma {:induction false} BatchedNext(kv: Kv, init: seq<BlockPut>, p: BlockPut)
    requires Consistent(kv) && PutAll(kv, init) == Batched(kv, init)
    ensures PutAll(kv, init + [p]) == Batched(kv, init + [p])
  {
    OneMorePut(init, p);
    RangesMapNext(kv, init, p);
    BlockMapKeys(init);
    LastPut(kv, init, p);
    UpdateOverlays(kv, BlockMap(init), RangesMap(kv, init, Chains(init)), ChainIds,
                   IdsValue(Listed(kv) + Chains(init)), BlockAt(p.chain, p.number), p.data,
                   Meta(p.chain, BlockRanges), RangesEntry(kv, init + [p], p.chain),
                   IdsValue(Listed(kv) + Chains(init + [p])));
  }

  /** Storing blocks one by one leaves the same store as writing them as one batch. */
  lemma {:induction false} PutAllIsBatched(kv: Kv, puts: seq<BlockPut>)
    requires Consistent(kv) && puts != []
    ensures PutAll(kv, puts) == Batched(kv, puts)
  {
    var init, p := puts[..|puts| - 1], puts[|puts| - 1];
    assert puts == init + [p];
    if init == [] {
      BatchedOne(kv, p);
    } else {
      PutAllIsBatched(kv, init);
      BatchedNext(kv, init, p);
    }
  }

  lemma PutAllSnoc(kv: Kv, init: seq<BlockPut>, p: BlockPut)
    ensures PutAll(kv, init + [p]) == PutBlock(PutAll(kv, init), p.chain, p.number, p.data)
  {
    assert (init + [p])[..|init|] == init;
  }

  lemma LastPutEntry(kv: Kv, init: seq<BlockPut>, p: BlockPut)
    ensures RangesValue(BlockNumbers(PutAll(kv, init), p.chain) + {p.number}) == RangesEntry(kv, init + [p], p.chain)
  {
    OneMoreNumber(init, p, p.chain);
    PutAllNumbers(kv, init, p.chain);
    assert BlockNumbers(PutAll(kv, init), p.chain) + {p.number} ==
           BlockNumbers(kv, p.chain) + NumbersOf(init + [p], p.chain);
  }

  lemma LastPutIds(kv: Kv, init: seq<BlockPut>, p: BlockPut)
    requires Consistent(kv)
    ensures Listed(PutAll(kv, init)) + {p.chain} == Listed(kv) + Chains(init + [p])
  {
    PutAllConsistent(kv, init);
    OneMorePut(init, p);
  }

  /** The last put, in terms of the store before all puts. */
  lemma LastPut(kv: Kv, init: seq<BlockPut>, p: BlockPut)
    requires Consistent(kv)
    ensures PutAll(kv, init + [p]) ==
            PutAll(kv, init)[BlockAt(p.chain, p.number) := p.data]
              [Meta(p.chain, BlockRanges) := RangesEntry(kv, init + [p], p.chain)]
              [ChainIds := IdsValue(Listed(kv) + Chains(init + [p]))]
  {
    PutAllSnoc(kv, init, p);
    LastPutEntry(kv, init, p);
    LastPutIds(kv, init, p);
  }

  lemma {:induction false} ApplyPuts(kv: Kv, puts: seq<BlockPut>)
    ensures ApplyOps(kv, PutOps(puts)) == kv + BlockMap(puts)
  {
    if puts != [] {
      ApplyPuts(kv, puts[..|puts| - 1]);
      assert PutOps(puts)[..|puts| - 1] == PutOps(puts[..|puts| - 1]);
    }
  }

  /** The raw operations a batch records for its blocks. */
  function PutOps(puts: seq<BlockPut>): seq<Op> {
    seq(|puts|, i requires 0 <= i < |puts| => Put(BlockAt(puts[i].chain, puts[i].number), puts[i].data))
  }

  lemma SingleNumber(n: BlockNo)
    ensures Numbers(Range(n, n)) == {n}
  {
    assert forall m: BlockNo :: Holds(Range(n, n), m) <==> m == n;
  }

  lemma OneMoreCover(puts: seq<BlockPut>, p: BlockPut, entry: seq<Range>)
    requires Cover(entry) == NumbersOf(puts, p.chain) || (entry == [] && p.chain !in Chains(puts))
    ensures Cover(entry) + Numbers(Range(p.number, p.number)) == NumbersOf(puts + [p], p.chain)
  {
    OneMoreNumber(puts, p, p.chain);
    SingleNumber(p.number);
    if p.chain !in Chains(puts) {
      assert NumbersOf(puts, p.chain) == {};
    }
  }

  /** `KvDbBatchWrapper`: the raw batch, and the ranges of the blocks in it. */
  class BatchWrapper {
    var kvBatch: seq<Op>
    var blockRanges: map<u64, seq<Range>>
    ghost var puts: seq<BlockPut>  // the blocks put so far

    ghost predicate Valid()
      reads this
    {
      && kvBatch == PutOps(puts)
      && blockRanges.Keys == Chains(puts)
      && forall c | c in blockRanges :: blockRanges[c] == NormalForm(NumbersOf(puts, c))
    }

    constructor ()
      ensures Valid() && puts == []
    {
      kvBatch, blockRanges, puts := [], map[], [];
    }

    method PutBytes(chain: u64, number: BlockNo, data: bytes)
      requires Valid()
      modifies this
      ensures Valid() && puts == old(puts) + [BlockPut(chain, number, data)]
    {
      var entry := if chain in blockRanges then blockRanges[chain] else [];
      var ranges := AddRange(entry, Range(number, number));
      ghost var p := BlockPut(chain, number, data);
      OneMorePut(puts, p);
      OneMoreCover(puts, p, entry);
      forall c | c in blockRanges && c != chain {
        EntryUnchanged(map[], puts, p, c);
      }
      blockRanges := blockRanges[chain := ranges];
      kvBatch := kvBatch + [Put(BlockAt(chain, number), data)];
      puts := puts + [p];
    }
  }

  /** `KvDbBackedBlockDb`. Operations report an error exactly if an index entry they read cannot be
    * decoded, and then change nothing. */
  class BlockDatabase {
    var kv: Kv

    /** `create`: the store must be empty. */
    constructor (version: bytes)
      ensures kv == map[Version := version]
    {
      kv := map[Version := version];
    }

    method GetChainIds() returns (r: Result<seq<u64>>)
      ensures r == DeserializeChainIds(StoredChainIds(kv))
    {
      r := DeserializeChainIds(if ChainIds in kv then kv[ChainIds] else []);
    }

    method GetRangesOfChainId(c: u64) returns (r: Result<seq<Range>>)
      requires BelowTop(StoredRanges(kv, c))
      ensures r == DeserializeRanges(StoredRanges(kv, c))
    {
      r := DeserializeRanges(if Meta(c, BlockRanges) in kv then kv[Meta(c, BlockRanges)] else []);
    }

    /** `put_bytes`. */
    method PutBytes(c: u64, n: BlockNo, data: bytes) returns (r: Result<()>)
      requires BelowTop(StoredRanges(kv, c))
      modifies this
      ensures r.Err? <==> DeserializeChainIds(StoredChainIds(old(kv))).Err? ||
                          DeserializeRanges(StoredRanges(old(kv), c)).Err?
      ensures r.Err? ==> kv == old(kv)
      ensures Consistent(old(kv)) ==> r.Ok? && kv == PutBlock(old(kv), c, n, data)
      ensures r.Ok? ==> PutOnly(old(kv), kv, BlockAt(c, n), data, {Meta(c, BlockRanges), ChainIds})
    {
      StoredIdsDecode(kv);
      StoredRangesDecode(kv, c);
      var ids := GetChainIds();
      if ids.Err? { return Err; }
      var newIds := InsertId(ids.value, c);
      var ranges := GetRangesOfChainId(c);
      if ranges.Err? { return Err; }
      var newRanges := AddRange(ranges.value, Range(n, n));
      PutBlockWritten(kv, c, n, data, ids.value, newIds, ranges.value, newRanges);
      kv := ApplyOps(kv, [Put(BlockAt(c, n), data),
                          Put(Meta(c, BlockRanges), SerializeRanges(newRanges)),
                          Put(ChainIds, SerializeU64s(newIds))]);
      r := Ok(());
    }

    /** `put_rules_update_heights`, `put_corrections` and `put_failed_bundles`, by their key. */
    method PutMetadata(c: u64, kind: MetaKind, data: bytes) returns (r: Result<()>)
      requires kind != BlockRanges
      modifies this
      ensures r.Err? <==> DeserializeChainIds(StoredChainIds(old(kv))).Err?
      ensures r.Err? ==> kv == old(kv)
      ensures Consistent(old(kv)) ==> r.Ok? && kv == PutMeta(old(kv), c, kind, data)
      ensures r.Ok? ==> PutOnly(old(kv), kv, Meta(c, kind), data, {ChainIds})
    {
      var ids := GetChainIds();
      if ids.Err? { return Err; }
      var newIds := InsertId(ids.value, c);
      InsertedIdsValue(kv, c, ids.value, newIds);
      ApplyTwo(kv, Put(Meta(c, kind), data), Put(ChainIds, SerializeU64s(newIds)));
      kv := ApplyOps(kv, [Put(Meta(c, kind), data), Put(ChainIds, SerializeU64s(newIds))]);
      r := Ok(());
    }

    /** `delete_range`. */
    method DeleteRange(c: u64, start: BlockNo, end: BlockNo) returns (r: Result<()>)
      requires BelowTop(StoredRanges(kv, c))
      modifies this
      ensures r.Err? <==> start > end || DeserializeRanges(StoredRanges(old(kv), c)).Err?
      ensures r.Err? ==> kv == old(kv)
      ensures start <= end && Consistent(old(kv)) ==> r.Ok? && kv == DeleteBlocks(old(kv), c, start, end)
    {
      if start > end { return Err; }
      var ranges := GetRangesOfChainId(c);
      if ranges.Err? { return Err; }
      var newRanges := SubtractRange(ranges.value, Range(start, end));
      if Consistent(kv) {
        DecodedRanges(kv, c);
      }
      DeleteRangeOfBlocks(kv, c, start, end);
      var ops := DeleteRangeOps(BlockAt(c, start), BlockAt(c, end));
      ApplyOneMore(kv, ops, Put(Meta(c, BlockRanges), SerializeRanges(newRanges)));
      kv := ApplyOps(kv, ops + [Put(Meta(c, BlockRanges), SerializeRanges(newRanges))]);
      r := Ok(());
    }

    /** `write_batch`. */
    method WriteBatch(batch: BatchWrapper) returns (r: Result<()>)
      requires batch.Valid()
      requires forall c | c in batch.blockRanges :: BelowTop(StoredRanges(kv, c))
      modifies this
      ensures r.Err? <==> batch.blockRanges != map[]
                          && (|| DeserializeChainIds(StoredChainIds(old(kv))).Err?
                              || !RangesDecode(old(kv), batch.blockRanges.Keys))
      ensures r.Err? ==> kv == old(kv)
      ensures Consistent(old(kv)) ==> r.Ok? && kv == PutAll(old(kv), batch.puts)
    {
      NoPuts(batch.puts);
      if batch.blockRanges == map[] {
        return Ok(());
      }
      var stored := GetChainIds();
      if stored.Err? {
        StoredIdsDecode(kv);
        return Err;
      }
      var merged := MergeIndexes(kv, stored.value, batch.kvBatch, batch.blockRanges, batch.puts);
      if merged.Err? { return Err; }
      var (ids, ops) := merged.value;
      ApplyOneMore(kv, ops, Put(ChainIds, SerializeU64s(ids)));
      BatchWritten(kv, batch.puts, ids, ops);
      kv := ApplyOps(kv, ops + [Put(ChainIds, SerializeU64s(ids))]);
      r := Ok(());
    }
  }

  /** The store afterwards holds the value at the key, and apart from it and the index entries what it held
    * before. */
  ghost predicate PutOnly(before: Kv, after: Kv, key: Key, value: bytes, indexes: set<Key>) {
    && key in after && after[key] == value
    && forall k | k != key && k !in indexes :: (k in after <==> k in before) && (k in before ==> after[k] == before[k])
  }

  /** The stored ranges of the given chains can be read. */
  predicate RangesDecode(kv: Kv, chains: set<u64>)
    requires forall c | c in chains :: BelowTop(StoredRanges(kv, c))
  {
    forall c | c in chains :: DeserializeRanges(StoredRanges(kv, c)).Ok?
  }

  /** The state of the loop of `write_batch` when the chains `done` have been looked at. */
  ghost predicate Merging(kv: Kv, puts: seq<BlockPut>, done: set<u64>, ids: seq<u64>, ops: seq<Op>) {
    && Ascending(ids) && Elements(ids) == Listed(kv) + done
    && ApplyOps(kv, ops) == kv + BlockMap(puts) + RangesMap(kv, puts, done)
  }

  /** The loop of `write_batch` over its per-chain map, in an arbitrary order. */
  method MergeIndexes(kv: Kv, storedIds: seq<u64>, kvBatch: seq<Op>, blockRanges: map<u64, seq<Range>>,
                      ghost puts: seq<BlockPut>)
    returns (r: Result<(seq<u64>, seq<Op>)>)
    requires DeserializeChainIds(StoredChainIds(kv)) == Ok(storedIds)
    requires kvBatch == PutOps(puts)
    requires forall c | c in blockRanges :: blockRanges[c] == NormalForm(NumbersOf(puts, c))
    requires forall c | c in blockRanges :: BelowTop(StoredRanges(kv, c))
    ensures r.Ok? <==> RangesDecode(kv, blockRanges.Keys)
    ensures Consistent(kv) ==> r.Ok? && Merging(kv, puts, blockRanges.Keys, r.value.0, r.value.1)
  {
    var ids, ops, todo := storedIds, kvBatch, blockRanges.Keys;
    ghost var done: set<u64> := {};
    MergingStart(kv, puts, ids);
    while todo != {}
      invariant done + todo == blockRanges.Keys && RangesDecode(kv, done)
      invariant Consistent(kv) ==> Merging(kv, puts, done, ids, ops)
      decreases todo
    {
      var c :| c in todo;
      var merged := MergeChain(kv, ids, ops, c, blockRanges[c], puts, done);
      if merged.Err? { return Err; }
      ids, ops := merged.value.0, merged.value.1;
      todo, done := todo - {c}, done + {c};
    }
    assert done == blockRanges.Keys;
    r := Ok((ids, ops));
  }

  /** The body of that loop, for one chain. */
  method MergeChain(kv: Kv, ids: seq<u64>, ops: seq<Op>, c: u64, newRanges: seq<Range>,
                    ghost puts: seq<BlockPut>, ghost done: set<u64>)
    returns (r: Result<(seq<u64>, seq<Op>)>)
    requires newRanges == NormalForm(NumbersOf(puts, c)) && BelowTop(StoredRanges(kv, c))
    requires Consistent(kv) ==> Merging(kv, puts, done, ids, ops)
    ensures r.Ok? <==> DeserializeRanges(StoredRanges(kv, c)).Ok?
    ensures Consistent(kv) ==> r.Ok? && Merging(kv, puts, done + {c}, r.value.0, r.value.1)
  {
    var newIds := InsertId(ids, c);
    var existing := if Meta(c, BlockRanges) in kv then kv[Meta(c, BlockRanges)] else [];
    var decoded := DeserializeRanges(existing);
    if decoded.Err? {
      StoredRangesDecode(kv, c);
      return Err;
    }
    var merged := AddRanges(decoded.value, newRanges);
    MergingNext(kv, puts, done, ids, ops, c, newIds, decoded.value, merged);
    r := Ok((newIds, ops + [Put(Meta(c, BlockRanges), SerializeRanges(merged))]));
  }

  lemma StoredIdsDecode(kv: Kv)
    ensures Consistent(kv) ==> DeserializeChainIds(StoredChainIds(kv)) == Ok(SortedIds(Listed(kv)))
  {
    if Consistent(kv) { DecodedIds(kv); }
  }

  lemma StoredRangesDecode(kv: Kv, c: u64)
    requires BelowTop(StoredRanges(kv, c))
    ensures Consistent(kv) ==> DeserializeRanges(StoredRanges(kv, c)) == Ok(NormalForm(BlockNumbers(kv, c)))
  {
    if Consistent(kv) { DecodedRanges(kv, c); }
  }

  lemma MergingStart(kv: Kv, puts: seq<BlockPut>, ids: seq<u64>)
    requires DeserializeChainIds(StoredChainIds(kv)) == Ok(ids)
    ensures Consistent(kv) ==> Merging(kv, puts, {}, ids, PutOps(puts))
  {
    StoredIdsDecode(kv);
    ApplyPuts(kv, puts);
    assert RangesMap(kv, puts, {}) == map[];
  }

  lemma UpdateLastOverlay<K, V>(m: map<K, V>, overlay: map<K, V>, k: K, v: V)
    ensures (m + overlay)[k := v] == m + overlay[k := v]
  {
  }

  lemma UpdateAsOverlay<K, V>(m: map<K, V>, k: K, v: V)
    ensures m[k := v] == m + map[k := v]
  {
  }

  lemma MergedEntry(kv: Kv, puts: seq<BlockPut>, c: u64, ranges: seq<Range>, merged: seq<Range>)
    requires Consistent(kv)
    requires BelowTop(StoredRanges(kv, c)) && DeserializeRanges(StoredRanges(kv, c)) == Ok(ranges)
    requires Canonical(ranges) ==> merged == NormalForm(Cover(ranges) + NumbersOf(puts, c))
    ensures SerializeRanges(merged) == RangesEntry(kv, puts, c)
  {
    DecodedRanges(kv, c);
  }

  lemma MergedOps(kv: Kv, puts: seq<BlockPut>, done: set<u64>, ops: seq<Op>, c: u64)
    requires ApplyOps(kv, ops) == kv + BlockMap(puts) + RangesMap(kv, puts, done)
    ensures ApplyOps(kv, ops + [Put(Meta(c, BlockRanges), RangesEntry(kv, puts, c))]) ==
            kv + BlockMap(puts) + RangesMap(kv, puts, done + {c})
  {
    var v := RangesEntry(kv, puts, c);
    ApplyOneMore(kv, ops, Put(Meta(c, BlockRanges), v));
    RangesMapAdd(kv, puts, done, c);
    UpdateLastOverlay(kv + BlockMap(puts), RangesMap(kv, puts, done), Meta(c, BlockRanges), v);
  }

  lemma MergingNext(kv: Kv, puts: seq<BlockPut>, done: set<u64>, ids: seq<u64>, ops: seq<Op>,
                    c: u64, newIds: seq<u64>, ranges: seq<Range>, merged: seq<Range>)
    requires Consistent(kv) ==> Merging(kv, puts, done, ids, ops)
    requires Elements(newIds) == Elements(ids) + {c} && (Ascending(ids) ==> Ascending(newIds))
    requires BelowTop(StoredRanges(kv, c)) && DeserializeRanges(StoredRanges(kv, c)) == Ok(ranges)
    requires Canonical(ranges) ==> merged == NormalForm(Cover(ranges) + NumbersOf(puts, c))
    ensures Consistent(kv) ==>
              Merging(kv, puts, done + {c}, newIds, ops + [Put(Meta(c, BlockRanges), SerializeRanges(merged))])
  {
    if Consistent(kv) {
      MergedEntry(kv, puts, c, ranges, merged);
      MergedOps(kv, puts, done, ops, c);
    }
  }

  lemma BatchWritten(kv: Kv, puts: seq<BlockPut>, ids: seq<u64>, ops: seq<Op>)
    requires puts != []
    ensures Consistent(kv) && Merging(kv, puts, Chains(puts), ids, ops) ==>
              ApplyOps(kv, ops)[ChainIds := SerializeU64s(ids)] == PutAll(kv, puts)
  {
    if Consistent(kv) && Merging(kv, puts, Chains(puts), ids, ops) {
      AscendingUnique(ids, SortedIds(Listed(kv) + Chains(puts)));
      UpdateAsOverlay(ApplyOps(kv, ops), ChainIds, SerializeU64s(ids));
      PutAllIsBatched(kv, puts);
    }
  }

  lemma ApplyTwo(kv: Kv, a: Op, b: Op)
    ensures ApplyOps(kv, [a, b]) == ApplyOp(ApplyOp(kv, a), b)
  {
    assert [a, b] == [] + [a] + [b];
    ApplyOneMore(kv, [], a);
    ApplyOneMore(kv, [] + [a], b);
  }

  lemma ApplyThreePuts(kv: Kv, k1: Key, v1: bytes, k2: Key, v2: bytes, k3: Key, v3: bytes)
    ensures ApplyOps(kv, [Put(k1, v1), Put(k2, v2), Put(k3, v3)]) == kv[k1 := v1][k2 := v2][k3 := v3]
  {
    ApplyTwo(kv, Put(k1, v1), Put(k2, v2));
    assert [Put(k1, v1), Put(k2, v2), Put(k3, v3)] == [Put(k1, v1), Put(k2, v2)] + [Put(k3, v3)];
    ApplyOneMore(kv, [Put(k1, v1), Put(k2, v2)], Put(k3, v3));
  }

  lemma {:induction false} ThreePutsOnly(kv: Kv, k1: Key, v1: bytes, k2: Key, v2: bytes, k3: Key, v3: bytes)
    requires k1 != k2 && k1 != k3
    ensures PutOnly(kv, kv[k1 := v1][k2 := v2][k3 := v3], k1, v1, {k2, k3})
  {
  }

  lemma DecodedIds(kv: Kv)
    requires Consistent(kv)
    ensures DeserializeChainIds(StoredChainIds(kv)) == Ok(SortedIds(Listed(kv)))
  {
    ChainIdsRoundTrip(SortedIds(Listed(kv)));
  }

  lemma DecodedRanges(kv: Kv, c: u64)
    requires Consistent(kv)
    ensures BelowTop(StoredRanges(kv, c))
    ensures DeserializeRanges(StoredRanges(kv, c)) == Ok(NormalForm(BlockNumbers(kv, c)))
  {
    assert StoredRanges(kv, c) == RangesValue(BlockNumbers(kv, c));
    RangesRoundTrip(NormalForm(BlockNumbers(kv, c)));
  }

  lemma PutBlockEntry(kv: Kv, c: u64, n: BlockNo, ranges: seq<Range>, newRanges: seq<Range>)
    requires BelowTop(StoredRanges(kv, c)) && DeserializeRanges(StoredRanges(kv, c)) == Ok(ranges)
    requires newRanges == NormalForm(Cover(ranges) + Numbers(Range(n, n)))
    ensures Consistent(kv) ==> SerializeRanges(newRanges) == RangesValue(BlockNumbers(kv, c) + {n})
  {
    if Consistent(kv) {
      DecodedRanges(kv, c);
      SingleNumber(n);
    }
  }

  /** In a consistent store `put_bytes` writes the specified entries. */
  lemma PutBlockWritten(kv: Kv, c: u64, n: BlockNo, data: bytes, ids: seq<u64>, newIds: seq<u64>,
                        ranges: seq<Range>, newRanges: seq<Range>)
    requires DeserializeChainIds(StoredChainIds(kv)) == Ok(ids)
    requires Elements(newIds) == Elements(ids) + {c} && (Ascending(ids) ==> Ascending(newIds))
    requires BelowTop(StoredRanges(kv, c)) && DeserializeRanges(StoredRanges(kv, c)) == Ok(ranges)
    requires newRanges == NormalForm(Cover(ranges) + Numbers(Range(n, n)))
    ensures Consistent(kv) ==>
              ApplyOps(kv, [Put(BlockAt(c, n), data), Put(Meta(c, BlockRanges), SerializeRanges(newRanges)),
                            Put(ChainIds, SerializeU64s(newIds))])
              == PutBlock(kv, c, n, data)
    ensures PutOnly(kv, ApplyOps(kv, [Put(BlockAt(c, n), data), Put(Meta(c, BlockRanges), SerializeRanges(newRanges)),
                                      Put(ChainIds, SerializeU64s(newIds))]),
                    BlockAt(c, n), data, {Meta(c, BlockRanges), ChainIds})
  {
    PutBlockEntry(kv, c, n, ranges, newRanges);
    InsertedIdsValue(kv, c, ids, newIds);
    ThreePutsOnly(kv, BlockAt(c, n), data, Meta(c, BlockRanges), SerializeRanges(newRanges),
                  ChainIds, SerializeU64s(newIds));
    ApplyThreePuts(kv, BlockAt(c, n), data, Meta(c, BlockRanges), SerializeRanges(newRanges),
                   ChainIds, SerializeU64s(newIds));
  }

  lemma InsertedIdsValue(kv: Kv, c: u64, ids: seq<u64>, newIds: seq<u64>)
    requires DeserializeChainIds(StoredChainIds(kv)) == Ok(ids)
    requires Elements(newIds) == Elements(ids) + {c} && (Ascending(ids) ==> Ascending(newIds))
    ensures Consistent(kv) ==> SerializeU64s(newIds) == IdsValue(Listed(kv) + {c})
  {
    if Consistent(kv) {
      DecodedIds(kv);
      AscendingUnique(newIds, SortedIds(Listed(kv) + {c}));
    }
  }

  /** Deleting the key range removes exactly the blocks with these numbers, of this chain only. */
  lemma DeleteRangeOfBlocks(kv: Kv, c: u64, s: BlockNo, e: BlockNo)
    requires s <= e
    ensures ApplyOps(kv, DeleteRangeOps(BlockAt(c, s), BlockAt(c, e))) == WithoutBlocks(kv, c, s, e)
  {
    DeleteRangeIsInclusive(kv, BlockAt(c, s), BlockAt(c, e));
  }

  lemma NoPuts(puts: seq<BlockPut>)
    ensures Chains(puts) == {} <==> puts == []
  {
    assert puts != [] ==> puts[0].chain in Chains(puts);
  }

  lemma RangesMapAdd(kv: Kv, puts: seq<BlockPut>, done: set<u64>, c: u64)
    ensures RangesMap(kv, puts, done + {c}) == RangesMap(kv, puts, done)[Meta(c, BlockRanges) := RangesEntry(kv, puts, c)]
  {
    RangesKeysNext(done, c);
    MapNext(RangesMap(kv, puts, done), RangesMap(kv, puts, done + {c}), Meta(c, BlockRanges), RangesEntry(kv, puts, c));
  }

  /** Adds several ranges one after the other. */
  method AddRanges(existing: seq<Range>, new_: seq<Range>) returns (ranges: seq<Range>)
    ensures Canonical(existing) ==> ranges == NormalForm(Cover(existing) + Cover(new_))
  {
    ranges := existing;
    var i := 0;
    while i < |new_|
      invariant 0 <= i <= |new_|
      invariant Cover(ranges) == Cover(existing) + Cover(new_[..i])
      invariant Canonical(existing) ==> Canonical(ranges)
    {
      assert new_[..i + 1] == new_[..i] + [new_[i]];
      CoverConcat(new_[..i], [new_[i]]);
      CoverOne(new_[i]);
      ranges := AddRange(ranges, new_[i]);
      i := i + 1;
    }
    assert new_[..i] == new_;
    if Canonical(ranges) {
      CanonicalIsNormalForm(ranges);
    }
  }

  // --- Whole runs ---

  type JsonKind = kind: MetaKind | kind != BlockRanges witness Corrections

  datatype DbOp =
    | DoPut(chain: u64, number: BlockNo, data: bytes)
    | DoBatch(puts: seq<BlockPut>)
    | DoDelete(chain: u64, start: BlockNo, end: BlockNo)
    | DoMeta(chain: u64, kind: JsonKind, data: bytes)

  ghost function Step(kv: Kv, op: DbOp): Kv {
    match op
    case DoPut(c, n, data) => PutBlock(kv, c, n, data)
    case DoBatch(puts) => PutAll(kv, puts)
    case DoDelete(c, s, e) => if s > e then kv else DeleteBlocks(kv, c, s, e)
    case DoMeta(c, kind, data) => PutMeta(kv, c, kind, data)
  }

  /** The store after a sequence of operations on a new database. */
  ghost function Run(version: bytes, ops: seq<DbOp>): Kv {
    if ops == [] then map[Version := version] else Step(Run(version, ops[..|ops| - 1]), ops[|ops| - 1])
  }

  lemma StepConsistent(kv: Kv, op: DbOp)
    requires Consistent(kv)
    ensures Consistent(Step(kv, op))
  {
    match op
    case DoPut(c, n, data) => PutBlockConsistent(kv, c, n, data);
    case DoBatch(puts) => PutAllConsistent(kv, puts);
    case DoDelete(c, s, e) => if s <= e { DeleteBlocksConsistent(kv, c, s, e); }
    case DoMeta(c, kind, data) => PutMetaConsistent(kv, c, kind, data);
  }

  lemma NewIsConsistent(version: bytes)
    ensures Consistent(map[Version := version])
  {
    var kv: Kv := map[Version := version];
    assert Listed(kv) == {};
    AscendingUnique(SortedIds({}), []);
    forall c: u64
      ensures StoredRanges(kv, c) == RangesValue(BlockNumbers(kv, c))
    {
      assert BlockNumbers(kv, c) == {};
    }
  }

  /** After any sequence of puts, batches, deletions and metadata puts, the stored ranges of every
    * chain are canonical and cover exactly the numbers of its blocks, and the stored chain IDs are
    * strictly ascending and contain every chain with a block or JSON metadata. */
  lemma {:induction false} EveryRunConsistent(version: bytes, ops: seq<DbOp>)
    ensures Consistent(Run(version, ops))
  {
    if ops == [] {
      NewIsConsistent(version);
    } else {
      EveryRunConsistent(version, ops[..|ops| - 1]);
      StepConsistent(Run(version, ops[..|ops| - 1]), ops[|ops| - 1]);
    }
  }

  /** What readers of the database find after any operations: for each chain canonical ranges that cover exactly
    * the numbers of its blocks, and ascending chain IDs with every chain that has a block or JSON metadata. */
  lemma {:induction false} EveryRunReads(version: bytes, ops: seq<DbOp>, c: u64)
    ensures var kv := Run(version, ops);
            && BelowTop(StoredRanges(kv, c))
            && var ids, ranges := DeserializeChainIds(StoredChainIds(kv)), DeserializeRanges(StoredRanges(kv, c));
            && ids.Ok? && Ascending(ids.value)
            && ((exists n: BlockNo :: BlockAt(c, n) in kv)
                || Meta(c, RulesUpdateHeights) in kv || Meta(c, Corrections) in kv || Meta(c, FailedBundles) in kv ==>
                  c in ids.value)
            && ranges.Ok? && Canonical(ranges.value)
            && forall n: BlockNo :: n in Cover(ranges.value) <==> BlockAt(c, n) in kv
  {
    var kv := Run(version, ops);
    EveryRunConsistent(version, ops);
    DecodedIds(kv);
    RangesRoundTrip(NormalForm(BlockNumbers(kv, c)));
    DecodedRanges(kv, c);
    ListsChain(kv, c);
  }

  lemma {:induction false} ListsChain(kv: Kv, c: u64)
    requires Covers(kv, Listed(kv))
    ensures (exists n: BlockNo :: BlockAt(c, n) in kv)
            || Meta(c, RulesUpdateHeights) in kv || Meta(c, Corrections) in kv || Meta(c, FailedBundles) in kv ==>
              c in Listed(kv)
  {
    if n: BlockNo :| BlockAt(c, n) in kv {
      assert NeedsListing(BlockAt(c, n));
    }
    forall kind: MetaKind | kind != BlockRanges && Meta(c, kind) in kv
      ensures c in Listed(kv)
    {
      assert NeedsListing(Meta(c, kind));
    }
  }

  // --- The blocks themselves ---

  /** The blocks of a store, without the metadata. */
  function BlocksOnly(kv: Kv): Kv {
    map key | key in kv && key.BlockAt? :: kv[key]
  }

  /** What a plain table of blocks would do. */
  function PlainStep(blocks: Kv, op: DbOp): Kv {
    match op
    case DoPut(c, n, data) => blocks[BlockAt(c, n) := data]
    case DoBatch(puts) => blocks + BlockMap(puts)
    case DoDelete(c, s, e) => WithoutBlocks(blocks, c, s, e)
    case DoMeta(_, _, _) => blocks
  }

  lemma PutBlockBlocks(kv: Kv, c: u64, n: BlockNo, data: bytes)
    ensures BlocksOnly(PutBlock(kv, c, n, data)) == BlocksOnly(kv)[BlockAt(c, n) := data]
  {
  }

  lemma {:induction false} PutAllBlocks(kv: Kv, puts: seq<BlockPut>)
    ensures BlocksOnly(PutAll(kv, puts)) == BlocksOnly(kv) + BlockMap(puts)
  {
    if puts != [] {
      var init, p := puts[..|puts| - 1], puts[|puts| - 1];
      PutAllBlocks(kv, init);
      PutBlockBlocks(PutAll(kv, init), p.chain, p.number, p.data);
      UpdateLastOverlay(BlocksOnly(kv), BlockMap(init), BlockAt(p.chain, p.number), p.data);
    }
  }

  /** Every operation changes the blocks as a plain table would, of its own chain only. */
  lemma StepOnBlocks(kv: Kv, op: DbOp)
    ensures BlocksOnly(Step(kv, op)) == PlainStep(BlocksOnly(kv), op)
  {
    match op
    case DoBatch(puts) => PutAllBlocks(kv, puts);
    case _ =>
  }

  // --- The metadata ---

  /** The version and the JSON metadata of a store, without the ranges. */
  function MetadataOnly(kv: Kv): Kv {
    map key | key in kv && (key.Version? || (key.Meta? && key.kind != BlockRanges)) :: kv[key]
  }

  /** What a plain table of metadata would do. */
  function PlainMetadataStep(metadata: Kv, op: DbOp): Kv {
    match op
    case DoMeta(c, kind, data) => metadata[Meta(c, kind) := data]
    case _ => metadata
  }

  lemma {:induction false} PutAllMetadata(kv: Kv, puts: seq<BlockPut>)
    ensures MetadataOnly(PutAll(kv, puts)) == MetadataOnly(kv)
  {
    if puts != [] {
      var init, p := puts[..|puts| - 1], puts[|puts| - 1];
      PutAllMetadata(kv, init);
      PutBlockMetadata(PutAll(kv, init), p.chain, p.number, p.data);
    }
  }

  lemma {:induction false} PutBlockMetadata(kv: Kv, c: u64, n: BlockNo, data: bytes)
    ensures MetadataOnly(PutBlock(kv, c, n, data)) == MetadataOnly(kv)
  {
  }

  /** A metadata put sets the one entry of its chain and kind; no other operation touches the metadata. */
  lemma {:induction false} StepOnMetadata(kv: Kv, op: DbOp)
    ensures MetadataOnly(Step(kv, op)) == PlainMetadataStep(MetadataOnly(kv), op)
  {
    match op
    case DoBatch(puts) => PutAllMetadata(kv, puts);
    case DoPut(c, n, data) => PutBlockMetadata(kv, c, n, data);
    case _ =>
  }

  /** What was put last under this chain and kind. */
  function LastMetadata(ops: seq<DbOp>, c: u64, kind: JsonKind): Result<bytes> {
    if ops == [] then Err
    else
      var last := ops[|ops| - 1];
      if last.DoMeta? && last.chain == c && last.kind == kind then Ok(last.data)
      else LastMetadata(ops[..|ops| - 1], c, kind)
  }

  /** After any operations on a new database, its version is unchanged and each entry of JSON metadata is
    * what was put there last, if anything was. */
  lemma {:induction false} EveryRunMetadata(version: bytes, ops: seq<DbOp>, c: u64, kind: JsonKind)
    ensures var kv := Run(version, ops);
            && Version in kv && kv[Version] == version
            && (match LastMetadata(ops, c, kind)
                case Err => Meta(c, kind) !in kv
                case Ok(data) => Meta(c, kind) in kv && kv[Meta(c, kind)] == data)
  {
    if ops != [] {
      var init, last := ops[..|ops| - 1], ops[|ops| - 1];
      EveryRunMetadata(version, init, c, kind);
      var before, after := Run(version, init), Run(version, ops);
      StepOnMetadata(before, last);
      SameMetadata(before, last, Version);
      SameMetadata(before, last, Meta(c, kind));
    }
  }

  lemma {:induction false} SameMetadata(kv: Kv, op: DbOp, key: Key)
    requires key.Version? || (key.Meta? && key.kind != BlockRanges)
    requires MetadataOnly(Step(kv, op)) == PlainMetadataStep(MetadataOnly(kv), op)
    ensures var isSet := op.DoMeta? && key == Meta(op.chain, op.kind);
            && (key in Step(kv, op) <==> isSet || key in kv)
            && (key in Step(kv, op) ==> Step(kv, op)[key] == if isSet then op.data else kv[key])
  {
    assert key in MetadataOnly(Step(kv, op)) <==> key in Step(kv, op);
    assert key in MetadataOnly(kv) <==> key in kv;
  }

  // --- The Go side writes without the indexes ---

  /** `PutRulesUpdateHeights` of go/blockdb/block_db.go. */
  function GoPutRulesUpdateHeights(kv: Kv, c: u64, data: bytes): Kv {
    kv[Meta(c, RulesUpdateHeights) := data]
  }

  /** `Update` of go/blockdb/block_db.go. */
  function GoUpdate(kv: Kv, c: u64, n: BlockNo, data: bytes): Kv {
    kv[BlockAt(c, n) := data]
  }

  /** Go's rules update keeps the indexes in agreement exactly for chains that are listed already. */
  lemma GoPutRulesConsistent(kv: Kv, c: u64, data: bytes)
    requires Consistent(kv)
    ensures Consistent(GoPutRulesUpdateHeights(kv, c, data)) <==> c in Listed(kv)
  {
    var kv' := GoPutRulesUpdateHeights(kv, c, data);
    assert StoredChainIds(kv') == StoredChainIds(kv) && Listed(kv') == Listed(kv);
    assert Meta(c, RulesUpdateHeights) in kv';
    forall d: u64
      ensures StoredRanges(kv', d) == RangesValue(BlockNumbers(kv', d))
    {
      assert BlockNumbers(kv', d) == BlockNumbers(kv, d);
      assert StoredRanges(kv', d) == StoredRanges(kv, d);
    }
  }

  lemma RangesValueInjective(a: set<BlockNo>, b: set<BlockNo>)
    requires RangesValue(a) == RangesValue(b)
    ensures a == b
  {
    RangesRoundTrip(NormalForm(a));
    RangesRoundTrip(NormalForm(b));
  }

  /** Go's block update keeps the indexes in agreement exactly for blocks that are stored already. */
  lemma GoUpdateConsistent(kv: Kv, c: u64, n: BlockNo, data: bytes)
    requires Consistent(kv)
    ensures Consistent(GoUpdate(kv, c, n, data)) <==> BlockAt(c, n) in kv
  {
    var kv' := GoUpdate(kv, c, n, data);
    assert StoredChainIds(kv') == StoredChainIds(kv) && Listed(kv') == Listed(kv);
    if BlockAt(c, n) in kv {
      forall d: u64
        ensures StoredRanges(kv', d) == RangesValue(BlockNumbers(kv', d))
      {
        assert BlockNumbers(kv', d) == BlockNumbers(kv, d);
        assert StoredRanges(kv', d) == StoredRanges(kv, d);
      }
    } else {
      assert n in BlockNumbers(kv', c) && n !in BlockNumbers(kv, c);
      assert StoredRanges(kv', c) == RangesValue(BlockNumbers(kv, c));
      if StoredRanges(kv', c) == RangesValue(BlockNumbers(kv', c)) {
        RangesValueInjective(BlockNumbers(kv, c), BlockNumbers(kv', c));
      }
    }
  }
}
