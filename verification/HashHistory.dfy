/** The ring of the last block hashes (go/replay/replay.go): updated live, seeded when a replay starts
  * in the middle of the chain, and cloned for archive verification. */
module HashHistory {
  /** A 32-byte hash; 0 is the zero hash, which stands for a hash that is not known. */
  type Hash = nat

  const HISTORY_LEN := 256

  /** A stored block, as far as hashes are concerned. */
  datatype Block = Block(number: nat, parentHash: Hash)

  /** One element of a block iterator. */
  datatype Item = Next(block: Block) | ReadError

  /** `blockHashHistory`. */
  class BlockHashHistory {
    const historicHashes: array<Hash>

    constructor ()
      ensures fresh(this) && fresh(historicHashes)
      ensures historicHashes.Length == HISTORY_LEN && forall i | 0 <= i < HISTORY_LEN :: historicHashes[i] == 0
    {
      historicHashes := new Hash[HISTORY_LEN](_ => 0);
    }

    method Clone() returns (clone: BlockHashHistory)
      requires historicHashes.Length == HISTORY_LEN
      ensures fresh(clone) && fresh(clone.historicHashes)
      ensures clone.historicHashes[..] == historicHashes[..]
    {
      clone := new BlockHashHistory();
      var i := 0;
      while i < HISTORY_LEN
        invariant 0 <= i <= HISTORY_LEN
        invariant forall j | 0 <= j < i :: clone.historicHashes[j] == historicHashes[j]
        modifies clone.historicHashes
      {
        clone.historicHashes[i] := historicHashes[i];
        i := i + 1;
      }
    }

    function GetBlockHash(number: nat): Hash
      requires historicHashes.Length == HISTORY_LEN
      reads historicHashes
    {
      historicHashes[number % HISTORY_LEN]
    }

    method SetBlockHash(number: nat, hash: Hash)
      requires historicHashes.Length == HISTORY_LEN
      modifies historicHashes
      ensures historicHashes[..] == old(historicHashes[..])[number % HISTORY_LEN := hash]
    {
      historicHashes[number % HISTORY_LEN] := hash;
    }
  }

  /** Just before block n, the ring gives the hash of each of the 256 blocks before it (or of all
    * blocks before it, if there are fewer). */
  ghost predicate Remembers(ring: seq<Hash>, n: nat, hashOf: nat -> Hash) {
    && |ring| == 256
    && forall k: nat | n - 256 <= k < n :: ring[k % 256] == hashOf(k)
  }

  /** The hash of a block, as recorded in its successor. */
  function Recorded(parentOf: nat -> Hash): nat -> Hash { (k: nat) => parentOf(k + 1) }

  /** Numbers less than 256 apart have different slots. */
  lemma DifferentSlots(j: nat, k: nat)
    requires j < k < j + HISTORY_LEN
    ensures j % HISTORY_LEN != k % HISTORY_LEN
  {
  }

  /** Recording block n overwrites exactly the hash that falls out of the window. */
  lemma RememberNext(ring: seq<Hash>, n: nat, hashOf: nat -> Hash)
    requires Remembers(ring, n, hashOf)
    ensures Remembers(ring[n % HISTORY_LEN := hashOf(n)], n + 1, hashOf)
  {
    forall k: nat | n + 1 - HISTORY_LEN <= k < n
      ensures ring[n % HISTORY_LEN := hashOf(n)][k % HISTORY_LEN] == hashOf(k)
    {
      DifferentSlots(k, n);
    }
  }

  // --- Seeding ---

  /** The first block whose parent hash is read for a replay that starts at block `first`. */
  function SeedStart(first: nat): nat
    requires first > 0
  {
    if first > HISTORY_LEN - 1 then first - (HISTORY_LEN - 1) else 1
  }

  /** What a range query yields: blocks with ascending numbers within the bounds, each holding the
    * parent hash of its number. */
  ghost predicate RangeResult(items: seq<Item>, start: nat, end: nat, parentOf: nat -> Hash) {
    && (forall i | 0 <= i < |items| && items[i].Next? ::
         start <= items[i].block.number <= end && items[i].block.parentHash == parentOf(items[i].block.number))
    && (forall i, j | 0 <= i < j < |items| && items[i].Next? && items[j].Next? ::
         items[i].block.number < items[j].block.number)
  }

  ghost predicate HasNumber(items: seq<Item>, n: nat) {
    exists i :: 0 <= i < |items| && items[i].Next? && items[i].block.number == n
  }

  ghost predicate Complete(items: seq<Item>, start: nat, end: nat) {
    && (forall i | 0 <= i < |items| :: items[i].Next?)
    && (forall n: nat | start <= n <= end :: HasNumber(items, n))
  }

  /** Ascending numbers lie at least as far above the start as their position. */
  lemma {:induction false} NumberAtLeast(items: seq<Item>, start: nat, end: nat, parentOf: nat -> Hash, i: nat)
    requires RangeResult(items, start, end, parentOf) && i < |items|
    requires forall j | 0 <= j < |items| :: items[j].Next?
    ensures items[i].block.number >= start + i
  {
    if i > 0 {
      NumberAtLeast(items, start, end, parentOf, i - 1);
    }
  }

  lemma {:induction false} NumberAtMost(items: seq<Item>, start: nat, end: nat, parentOf: nat -> Hash, i: nat)
    requires RangeResult(items, start, end, parentOf) && i < |items|
    requires forall j | 0 <= j < |items| :: items[j].Next?
    ensures items[i].block.number <= end - (|items| - 1 - i)
    decreases |items| - i
  {
    if i + 1 < |items| {
      NumberAtMost(items, start, end, parentOf, i + 1);
    }
  }

  /** As many blocks as the range has numbers means that there is no gap, and the reverse. */
  lemma CountMeansComplete(items: seq<Item>, start: nat, end: nat, parentOf: nat -> Hash)
    requires start <= end + 1
    requires RangeResult(items, start, end, parentOf)
    requires forall j | 0 <= j < |items| :: items[j].Next?
    ensures |items| == end - start + 1 <==> Complete(items, start, end)
    ensures Complete(items, start, end) ==> forall i | 0 <= i < |items| :: items[i].block.number == start + i
  {
    if |items| == end - start + 1 {
      forall i | 0 <= i < |items|
        ensures items[i].block.number == start + i
      {
        NumberAtLeast(items, start, end, parentOf, i);
        NumberAtMost(items, start, end, parentOf, i);
      }
      forall n: nat | start <= n <= end
        ensures HasNumber(items, n)
      {
        assert items[n - start].Next? && items[n - start].block.number == n;
      }
    } else if Complete(items, start, end) {
      if |items| > 0 {
        NumberAtLeast(items, start, end, parentOf, |items| - 1);
      }
      AllNumbersNeedItems(items, start, end, parentOf);
    }
  }

  lemma {:induction false} AllNumbersNeedItems(items: seq<Item>, start: nat, end: nat, parentOf: nat -> Hash)
    requires start <= end + 1
    requires RangeResult(items, start, end, parentOf) && Complete(items, start, end)
    ensures |items| >= end - start + 1
    decreases end + 1 - start
  {
    if start <= end {
      assert HasNumber(items, end);
      var i :| 0 <= i < |items| && items[i].Next? && items[i].block.number == end;
      var init := items[..i];
      forall n: nat | start <= n <= end - 1
        ensures HasNumber(init, n)
      {
        assert HasNumber(items, n);
        var j :| 0 <= j < |items| && items[j].Next? && items[j].block.number == n;
        assert init[j] == items[j];
      }
      if end > 0 {
        AllNumbersNeedItems(init, start, end - 1, parentOf);
      }
    }
  }

  /** The ring holds the parent hashes of the first n items. */
  ghost predicate Seeded(ring: seq<Hash>, items: seq<Item>, n: nat, parentOf: nat -> Hash) {
    && |ring| == HISTORY_LEN && n <= |items|
    && forall j | 0 <= j < n ::
         && items[j].Next? && items[j].block.number > 0
         && ring[(items[j].block.number - 1) % HISTORY_LEN] == parentOf(items[j].block.number)
  }

  lemma {:induction false} SeedNext(ring: seq<Hash>, items: seq<Item>, n: nat, start: nat, end: nat,
                                    parentOf: nat -> Hash)
    requires RangeResult(items, start, end, parentOf) && 0 < start && end - start < HISTORY_LEN
    requires Seeded(ring, items, n, parentOf) && n < |items| && items[n].Next?
    ensures items[n].block.number > 0
    ensures Seeded(ring[(items[n].block.number - 1) % HISTORY_LEN := items[n].block.parentHash], items, n + 1, parentOf)
  {
    forall j | 0 <= j < n
      ensures (items[j].block.number - 1) % HISTORY_LEN != (items[n].block.number - 1) % HISTORY_LEN
    {
      DifferentSlots(items[j].block.number - 1, items[n].block.number - 1);
    }
  }

  lemma {:induction false} SeedDone(ring: seq<Hash>, items: seq<Item>, first: nat, parentOf: nat -> Hash)
    requires first > 0 && RangeResult(items, SeedStart(first), first, parentOf)
    requires Seeded(ring, items, |items|, parentOf) && |items| == first - SeedStart(first) + 1
    ensures Remembers(ring, first, Recorded(parentOf))
  {
    var start := SeedStart(first);
    CountMeansComplete(items, start, first, parentOf);
    forall k: nat | first - HISTORY_LEN <= k < first
      ensures ring[k % HISTORY_LEN] == parentOf(k + 1)
    {
      assert items[k + 1 - start].block.number == k + 1;
    }
  }

  /** `seedBlockHashHistory`: it succeeds exactly if no block of the range is missing, and then the ring
    * gives the hashes of the blocks before the first one, taken from the parent hashes. */
  method SeedBlockHashHistory(items: seq<Item>, first: nat, history: BlockHashHistory, ghost parentOf: nat -> Hash)
    returns (ok: bool)
    requires history.historicHashes.Length == HISTORY_LEN
    requires first > 0 ==> RangeResult(items, SeedStart(first), first, parentOf)
    modifies history.historicHashes
    ensures first > 0 ==> (ok <==> Complete(items, SeedStart(first), first))
    ensures ok ==> Remembers(history.historicHashes[..], first, Recorded(parentOf))
  {
    if first == 0 { return true; }
    var start := 1;
    if first > HISTORY_LEN - 1 {
      start := first - (HISTORY_LEN - 1);
    }
    var end := first;
    var count, i := 0, 0;
    while i < |items|
      invariant 0 <= i <= |items| && count == i
      invariant Seeded(history.historicHashes[..], items, i, parentOf)
      modifies history.historicHashes
    {
      if items[i].ReadError? { return false; }
      SeedNext(history.historicHashes[..], items, i, start, end, parentOf);
      var block := items[i].block;
      if block.number != 0 {
        history.SetBlockHash(block.number - 1, block.parentHash);
        count := count + 1;
      }
      i := i + 1;
    }
    CountMeansComplete(items, start, end, parentOf);
    ok := count == end - start + 1;
    if ok {
      SeedDone(history.historicHashes[..], items, first, parentOf);
    }
  }

  // --- A replay ---

  /** `checkParentHash`: a parent hash that is not known is not checked. */
  predicate ParentHashOk(block: Block, hashOfParentBlock: Hash) {
    hashOfParentBlock == 0 || block.parentHash == hashOfParentBlock
  }

  /** The hashes a replay from `first` on goes by: stored ones before it, computed ones from it on. */
  function HashesOf(first: nat, parentOf: nat -> Hash, computed: nat -> Hash): nat -> Hash {
    (k: nat) => if k < first then parentOf(k + 1) else computed(k)
  }

  /** A clone with an array of its own, holding the hashes of the blocks before n. */
  ghost predicate ClonedAt(clone: BlockHashHistory, history: BlockHashHistory, n: nat, hashOf: nat -> Hash)
    reads clone.historicHashes
  {
    && clone.historicHashes != history.historicHashes
    && clone.historicHashes.Length == HISTORY_LEN
    && Remembers(clone.historicHashes[..], n, hashOf)
  }

  /** The hash bookkeeping of one block: read the hash of the parent, clone the ring, record the hash
    * computed by applying the block. */
  method TrackBlock(history: BlockHashHistory, block: Block, computed: Hash, ghost hashOf: nat -> Hash)
    returns (hashOfParentBlock: Hash, clone: BlockHashHistory)
    requires history.historicHashes.Length == HISTORY_LEN
    requires Remembers(history.historicHashes[..], block.number, hashOf) && hashOf(block.number) == computed
    modifies history.historicHashes
    ensures fresh(clone) && fresh(clone.historicHashes) && ClonedAt(clone, history, block.number, hashOf)
    ensures clone.historicHashes[..] == old(history.historicHashes[..])
    ensures hashOfParentBlock == if block.number > 0 then hashOf(block.number - 1) else 0
    ensures Remembers(history.historicHashes[..], block.number + 1, hashOf)
  {
    hashOfParentBlock := 0;
    if block.number > 0 {
      hashOfParentBlock := history.GetBlockHash(block.number - 1);
    }
    clone := history.Clone();
    RememberNext(history.historicHashes[..], block.number, hashOf);
    history.SetBlockHash(block.number, computed);
  }

  /** The hash bookkeeping of a replay of consecutive blocks. If all parent hashes check, every clone
    * gives the true hashes (those recorded in the successors) of the blocks before its own, and keeps
    * them while the ring moves on. */
  method ReplayHashes(history: BlockHashHistory, first: nat, blocks: seq<Block>, computed: nat -> Hash,
                      ghost parentOf: nat -> Hash)
    returns (ok: bool, clones: seq<BlockHashHistory>)
    requires history.historicHashes.Length == HISTORY_LEN
    requires Remembers(history.historicHashes[..], first, Recorded(parentOf))
    requires forall i | 0 <= i < |blocks| ::
               blocks[i].number == first + i && blocks[i].parentHash == parentOf(first + i)
    requires forall n :: computed(n) != 0
    modifies history.historicHashes
    ensures ok <==> forall n | first < n < first + |blocks| :: computed(n - 1) == parentOf(n)
    ensures ok ==> |clones| == |blocks|
    ensures ok ==> forall i | 0 <= i < |clones| ::
                     ClonedAt(clones[i], history, first + i, Recorded(parentOf))
    ensures forall i | 0 <= i < |clones| :: fresh(clones[i].historicHashes)
  {
    ghost var hashOf := HashesOf(first, parentOf, computed);
    clones := [];
    var i := 0;
    while i < |blocks|
      invariant 0 <= i <= |blocks| && |clones| == i
      invariant Remembers(history.historicHashes[..], first + i, hashOf)
      invariant forall n | first < n < first + i :: computed(n - 1) == parentOf(n)
      invariant forall j | 0 <= j < i :: fresh(clones[j].historicHashes)
      invariant forall j | 0 <= j < i :: ClonedAt(clones[j], history, first + j, hashOf)
      modifies history.historicHashes
    {
      var block := blocks[i];
      var hashOfParentBlock, clone := TrackBlock(history, block, computed(block.number), hashOf);
      ParentChecks(first, block, hashOfParentBlock, parentOf, computed);
      if !ParentHashOk(block, hashOfParentBlock) {
        return false, clones;
      }
      clones := clones + [clone];
      i := i + 1;
    }
    ok := true;
    TrueClones(clones, history, first, parentOf, computed);
  }

  /** The check compares the computed hash of the parent, except at the first block, whose parent hash comes
    * from the same place as the hash it is compared with. */
  lemma {:induction false} ParentChecks(first: nat, block: Block, parent: Hash, parentOf: nat -> Hash,
                                        computed: nat -> Hash)
    requires first <= block.number && block.parentHash == parentOf(block.number)
    requires parent == if block.number > 0 then HashesOf(first, parentOf, computed)(block.number - 1) else 0
    requires block.number > first ==> computed(block.number - 1) != 0
    ensures ParentHashOk(block, parent)
            <==> (block.number > first ==> computed(block.number - 1) == parentOf(block.number))
  {
  }

  lemma {:induction false} TrueClones(clones: seq<BlockHashHistory>, history: BlockHashHistory, first: nat,
                                      parentOf: nat -> Hash, computed: nat -> Hash)
    requires forall m | first < m < first + |clones| :: computed(m - 1) == parentOf(m)
    requires forall j | 0 <= j < |clones| ::
               ClonedAt(clones[j], history, first + j, HashesOf(first, parentOf, computed))
    ensures forall j | 0 <= j < |clones| :: ClonedAt(clones[j], history, first + j, Recorded(parentOf))
  {
    forall j | 0 <= j < |clones|
      ensures ClonedAt(clones[j], history, first + j, Recorded(parentOf))
    {
      TrueHashes(clones[j].historicHashes[..], first, first + j, first + |clones|, parentOf, computed);
    }
  }

  /** Once the later parent hashes have been checked, the computed hashes are the true ones. */
  lemma TrueHashes(ring: seq<Hash>, first: nat, n: nat, end: nat, parentOf: nat -> Hash, computed: nat -> Hash)
    requires first <= n < end
    requires Remembers(ring, n, HashesOf(first, parentOf, computed))
    requires forall m | first < m < end :: computed(m - 1) == parentOf(m)
    ensures Remembers(ring, n, Recorded(parentOf))
  {
    forall k: nat | n - HISTORY_LEN <= k < n
      ensures ring[k % HISTORY_LEN] == parentOf(k + 1)
    {
      assert ring[k % HISTORY_LEN] == HashesOf(first, parentOf, computed)(k);
      assert k >= first ==> computed((k + 1) - 1) == parentOf(k + 1);
    }
  }
}
