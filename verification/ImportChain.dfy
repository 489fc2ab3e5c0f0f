/** What an import of a whole chain, given as a contiguous descending stream, leaves in the database
  * (blockservice/src/cmd/import.rs). */
module ImportChain {
  import opened Blocks
  import opened ImportLoop
  import opened Options
  import opened Ranges
  import Bytes

  /** The blocks of a chain, by number. */
  predicate Numbered(chain: seq<Block>) {
    |chain| <= Bytes.U64_MAX && forall n | 0 <= n < |chain| :: chain[n].number == n
  }

  /** The stream N-1, ..., 0. */
  function Stream(chain: seq<Block>): (items: seq<Item>)
    ensures |items| == |chain|
  {
    if chain == [] then [] else [Parsed(chain[|chain| - 1])] + Stream(chain[..|chain| - 1])
  }

  lemma {:induction false} StreamAt(chain: seq<Block>, i: nat)
    requires i < |chain|
    ensures Stream(chain)[i] == Parsed(chain[|chain| - 1 - i])
  {
    if i > 0 { StreamAt(chain[..|chain| - 1], i - 1); }
  }

  /** The blocks below hi and from lo on, downwards. */
  function Downward(chain: seq<Block>, lo: nat, hi: nat): seq<Block>
    requires hi <= |chain|
  {
    if hi <= lo then [] else [chain[hi - 1]] + Downward(chain, lo, hi - 1)
  }

  lemma {:induction false} WriteDownward(db: Stored, chain: seq<Block>, lo: nat, hi: nat, k: BlockNo)
    requires Numbered(chain) && hi <= |chain|
    ensures var after := Write(db, Downward(chain, lo, hi));
            && (k in after <==> k in db || lo <= k < hi)
            && (k in after ==> after[k] == if lo <= k < hi then chain[k] else db[k])
    decreases hi
  {
    if lo < hi {
      WriteFirst(db, chain[hi - 1], Downward(chain, lo, hi - 1));
      WriteDownward(db[hi - 1 := chain[hi - 1]], chain, lo, hi - 1, k);
    }
  }

  lemma {:induction false} WriteFirst(db: Stored, first: Block, rest: seq<Block>)
    ensures Write(db, [first] + rest) == Write(db[first.number := first], rest)
  {
    WriteTwice(db, [first], rest);
    assert Write(db, [first]) == db[first.number := first];
  }

  function NeverCancelled(): nat -> bool { _ => false }

  predicate FirstPollAt(cancelled: nat -> bool, k: nat) {
    cancelled(k) && forall i: nat | i < k :: !cancelled(i)
  }

  // --- The loop on a whole chain ---

  predicate OnChain(t: Job, db: Stored, chain: seq<Block>) {
    && Numbered(chain) && t.items == Stream(chain) && Keyed(db)
    && forall n: BlockNo | n < t.from :: n in db
  }

  /** The block n of the chain that the database holds after the import. */
  function Kept(t: Job, db: Stored, chain: seq<Block>, n: nat): Block
    requires OnChain(t, db, chain) && n < |chain|
  {
    if n < t.from then db[n] else chain[n]
  }

  predicate LinkHolds(t: Job, db: Stored, chain: seq<Block>, n: nat)
    requires OnChain(t, db, chain) && 0 < n < |chain|
  {
    t.hashing.hashOf(Kept(t, db, chain, n - 1)) == Kept(t, db, chain, n).parentHash
  }

  /** Blocks hi-1 down to lo pass the checks; block hi-1 is compared with prev. */
  ghost predicate ChecksPass(t: Job, db: Stored, chain: seq<Block>, lo: nat, hi: nat, prev: Option<Hash>)
    requires OnChain(t, db, chain) && hi <= |chain|
  {
    t.verify && lo < hi ==>
      && (prev.Some? ==> t.hashing.hashOf(Kept(t, db, chain, hi - 1)) == prev.value)
      && (forall n | lo < n < hi :: LinkHolds(t, db, chain, n))
      && (lo == 0 ==> Kept(t, db, chain, 0).parentHash == t.hashing.zero)
  }

  /** The last block that the loop looks at, if it is not cancelled. */
  function Seam(t: Job): nat { if t.from == 0 then 0 else t.from - 1 }

  lemma {:induction false} ChosenOnChain(t: Job, db: Stored, chain: seq<Block>, hi: nat)
    requires OnChain(t, db, chain) && 0 < hi <= |chain|
    requires t.from < hi || t.verify
    ensures t.items[|chain| - hi] == Parsed(chain[hi - 1])
    ensures Chosen(t, db, chain[hi - 1]) == Some(Kept(t, db, chain, hi - 1))
  {
    StreamAt(chain, |chain| - hi);
  }

  lemma {:induction false} OneCheck(t: Job, db: Stored, chain: seq<Block>, lo: nat, hi: nat, prev: Option<Hash>)
    requires OnChain(t, db, chain) && lo < hi <= |chain| && (prev.Some? ==> t.verify)
    ensures var top := Kept(t, db, chain, hi - 1);
            var next := if t.verify then Some(top.parentHash) else prev;
            ChecksPass(t, db, chain, lo, hi, prev)
            <==> Passes(t, prev, top) && ChecksPass(t, db, chain, lo, hi - 1, next)
  {
    var top := Kept(t, db, chain, hi - 1);
    assert top.number == hi - 1;
    if t.verify && lo < hi - 1 {
      assert LinkHolds(t, db, chain, hi - 1) <==> t.hashing.hashOf(Kept(t, db, chain, hi - 2)) == top.parentHash;
    }
  }

  /** The uncancelled loop, with the blocks below hi still to come. */
  lemma {:induction false} ScanAll(t: Job, db: Stored, chain: seq<Block>, hi: nat, prev: Option<Hash>)
    requires OnChain(t, db, chain) && t.from <= hi <= |chain| && (prev.Some? ==> t.verify)
    requires t.cancelled == NeverCancelled()
    ensures var scanned := Scan(t, db, |chain| - hi, prev);
            && scanned.outcome == (if ChecksPass(t, db, chain, Seam(t), hi, prev) then Finished else Failed)
            && (scanned.outcome == Finished ==> scanned.puts == Downward(chain, t.from, hi))
  {
    if hi > 0 && (hi > t.from || t.verify) {
      ChosenOnChain(t, db, chain, hi);
      OneCheck(t, db, chain, Seam(t), hi, prev);
      if hi > t.from {
        var top := Kept(t, db, chain, hi - 1);
        ScanAll(t, db, chain, hi - 1, if t.verify then Some(top.parentHash) else prev);
      }
    } else if hi > 0 {
      StreamAt(chain, |chain| - hi);
    }
  }

  /** The loop that is cancelled before the block below lo. */
  lemma {:induction false} ScanSome(t: Job, db: Stored, chain: seq<Block>, lo: nat, hi: nat, prev: Option<Hash>)
    requires OnChain(t, db, chain) && t.from <= lo <= hi <= |chain| && 0 < lo && (prev.Some? ==> t.verify)
    requires FirstPollAt(t.cancelled, |chain| - lo)
    ensures var scanned := Scan(t, db, |chain| - hi, prev);
            && scanned.outcome == (if ChecksPass(t, db, chain, lo, hi, prev) then Cancelled else Failed)
            && (scanned.outcome == Cancelled ==> scanned.puts == Downward(chain, lo, hi))
  {
    if hi > lo {
      ChosenOnChain(t, db, chain, hi);
      OneCheck(t, db, chain, lo, hi, prev);
      var top := Kept(t, db, chain, hi - 1);
      ScanSome(t, db, chain, lo, hi - 1, if t.verify then Some(top.parentHash) else prev);
    }
  }

  // --- Whole imports ---

  /** The import of a whole chain that is not cancelled. */
  ghost function Complete(db: Stored, hashing: Hashing, chain: seq<Block>, verify: bool): (Stored, Outcome) {
    Imported(db, hashing, Stream(chain), verify, NeverCancelled())
  }

  /** The number of blocks from block 0 on that are stored without a gap. */
  ghost function Prefix(db: Stored): nat { SmallestToImport(NormalForm(db.Keys)) }

  ghost predicate LinkedIn(hashing: Hashing, db: Stored, n: BlockNo) {
    n in db && (if n == 0 then db[0].parentHash == hashing.zero
                else n - 1 in db && hashing.hashOf(db[n - 1]) == db[n].parentHash)
  }

  /** From the seam on, each block is linked to the one below it. If block 0 is at the seam, it must have
    * no parent. */
  ghost predicate LinkedFrom(hashing: Hashing, db: Stored, from: nat, top: nat) {
    forall n: BlockNo | n < top && (from <= n || (from == 1 && n == 0)) :: LinkedIn(hashing, db, n)
  }

  lemma {:induction false} WholeJob(db: Stored, hashing: Hashing, chain: seq<Block>, verify: bool,
                                    cancelled: nat -> bool)
    requires Numbered(chain) && Keyed(db)
    ensures OnChain(Job(hashing, Stream(chain), verify, Prefix(db), cancelled), db, chain)
    ensures Prefix(db) !in db
  {
    SmallestIsMissing(db);
  }

  /** After the import, blocks 0 to N-1 are present: the old ones where they were there without a gap
    * from block 0 on, and those of the stream above. All other blocks are untouched. */
  lemma {:induction false} CompleteImportStores(db: Stored, hashing: Hashing, chain: seq<Block>, verify: bool)
    requires Numbered(chain) && Keyed(db) && Complete(db, hashing, chain, verify).1 == Finished
    ensures HasImported(db, chain, Prefix(db), Complete(db, hashing, chain, verify).0)
  {
    WholeJob(db, hashing, chain, verify, NeverCancelled());
    CompleteImportVerifies(db, hashing, chain, verify);
    if Prefix(db) < |chain| {
      WrittenFrom(db, chain, Prefix(db));
    } else if chain != [] {
      FirstItem(chain);
    }
  }

  ghost predicate HasImported(db: Stored, chain: seq<Block>, from: nat, after: Stored) {
    && (forall k: BlockNo | k < |chain| :: k in after)
    && (forall k: BlockNo | from <= k < |chain| :: after[k] == chain[k])
    && (forall k: BlockNo | k < from || |chain| <= k :: (k in after <==> k in db) && (k in db ==> after[k] == db[k]))
  }

  lemma {:induction false} FirstItem(chain: seq<Block>)
    requires Numbered(chain) && chain != []
    ensures Stream(chain)[0] == Parsed(chain[|chain| - 1]) && chain[|chain| - 1].number + 1 == |chain|
  {
  }

  lemma {:induction false} WrittenFrom(db: Stored, chain: seq<Block>, from: nat)
    requires Numbered(chain) && from <= |chain| && forall k: BlockNo | k < from :: k in db
    ensures HasImported(db, chain, from, Write(db, Downward(chain, from, |chain|)))
  {
    forall k: BlockNo
      ensures var after := Write(db, Downward(chain, from, |chain|));
              && (k in after <==> k in db || from <= k < |chain|)
              && (k in after ==> after[k] == if from <= k < |chain| then chain[k] else db[k])
    {
      WriteDownward(db, chain, from, |chain|, k);
    }
  }

  /** What an import that is not cancelled leaves, unless it fails. */
  function Target(db: Stored, chain: seq<Block>, from: nat): Stored {
    Write(db, Downward(chain, from, |chain|))
  }

  lemma {:induction false} CompleteIs(db: Stored, hashing: Hashing, chain: seq<Block>, verify: bool)
    requires Numbered(chain) && Keyed(db) && Prefix(db) < |chain|
    ensures var t := Job(hashing, Stream(chain), verify, Prefix(db), NeverCancelled());
            && OnChain(t, db, chain)
            && Complete(db, hashing, chain, verify).1
               == (if ChecksPass(t, db, chain, Seam(t), |chain|, None) then Finished else Failed)
            && (ChecksPass(t, db, chain, Seam(t), |chain|, None) ==>
                  Complete(db, hashing, chain, verify).0 == Target(db, chain, Prefix(db)))
  {
    var t := Job(hashing, Stream(chain), verify, Prefix(db), NeverCancelled());
    WholeJob(db, hashing, chain, verify, NeverCancelled());
    FirstItem(chain);
    ScanAll(t, db, chain, |chain|, None);
  }

  /** An import that is not cancelled is without error exactly if, in verify mode, the database that it
    * leaves is linked from the seam on. */
  lemma {:induction false} CompleteImportVerifies(db: Stored, hashing: Hashing, chain: seq<Block>, verify: bool)
    requires Numbered(chain) && Keyed(db)
    ensures Complete(db, hashing, chain, verify).1 == Finished
            <==> |chain| <= Prefix(db) || (verify ==> LinkedFrom(hashing, Target(db, chain, Prefix(db)), Prefix(db), |chain|))
    ensures Complete(db, hashing, chain, verify).1 == Finished ==>
              Complete(db, hashing, chain, verify).0 == Target(db, chain, Prefix(db))
  {
    if Prefix(db) < |chain| {
      CompleteIs(db, hashing, chain, verify);
      if verify { ChecksAreLinks(Job(hashing, Stream(chain), verify, Prefix(db), NeverCancelled()), db, chain); }
    } else if chain != [] {
      FirstItem(chain);
    }
  }

  lemma {:induction false} ChecksAreLinks(t: Job, db: Stored, chain: seq<Block>)
    requires OnChain(t, db, chain) && t.verify && t.from < |chain|
    ensures ChecksPass(t, db, chain, Seam(t), |chain|, None)
            <==> LinkedFrom(t.hashing, Target(db, chain, t.from), t.from, |chain|)
  {
    var target := Target(db, chain, t.from);
    WrittenFrom(db, chain, t.from);
    forall n | 0 <= n < |chain|
      ensures n in target && target[n] == Kept(t, db, chain, n)
    {
      assert n in target;
    }
    forall n | Seam(t) < n < |chain|
      ensures LinkHolds(t, db, chain, n) <==> LinkedIn(t.hashing, target, n)
    {
    }
    if ChecksPass(t, db, chain, Seam(t), |chain|, None) {
      forall n: BlockNo | n < |chain| && (t.from <= n || (t.from == 1 && n == 0))
        ensures LinkedIn(t.hashing, target, n)
      {
        if n > 0 { assert LinkHolds(t, db, chain, n); }
      }
    }
    if LinkedFrom(t.hashing, target, t.from, |chain|) {
      assert Seam(t) == 0 ==> LinkedIn(t.hashing, target, 0);
      forall n | Seam(t) < n < |chain|
        ensures LinkHolds(t, db, chain, n)
      {
        assert LinkedIn(t.hashing, target, n);
      }
    }
  }

  // --- Cancelled imports ---

  /** The import of a whole chain that is polled for cancellation. */
  ghost function CancelledAt(db: Stored, hashing: Hashing, chain: seq<Block>, verify: bool, cancelled: nat -> bool)
    : (Stored, Outcome)
  {
    Imported(db, hashing, Stream(chain), verify, cancelled)
  }

  lemma {:induction false} CancelledIs(db: Stored, hashing: Hashing, chain: seq<Block>, verify: bool,
                                       cancelled: nat -> bool, lo: nat)
    requires Numbered(chain) && Keyed(db) && Prefix(db) <= lo <= |chain| && 0 < lo && Prefix(db) < |chain|
    requires FirstPollAt(cancelled, |chain| - lo)
    ensures var t := Job(hashing, Stream(chain), verify, Prefix(db), NeverCancelled());
            && OnChain(t, db, chain)
            && CancelledAt(db, hashing, chain, verify, cancelled).1
               == (if ChecksPass(t, db, chain, lo, |chain|, None) then Cancelled else Failed)
            && (ChecksPass(t, db, chain, lo, |chain|, None) ==>
                  CancelledAt(db, hashing, chain, verify, cancelled).0 == Target(db, chain, lo))
  {
    var t := Job(hashing, Stream(chain), verify, Prefix(db), cancelled);
    WholeJob(db, hashing, chain, verify, cancelled);
    FirstItem(chain);
    ScanSome(t, db, chain, lo, |chain|, None);
    SameChecks(t, t.(cancelled := NeverCancelled()), db, chain, lo);
  }

  lemma {:induction false} SameChecks(t: Job, u: Job, db: Stored, chain: seq<Block>, lo: nat)
    requires OnChain(t, db, chain) && u == t.(cancelled := u.cancelled)
    ensures OnChain(u, db, chain)
    ensures ChecksPass(t, db, chain, lo, |chain|, None) <==> ChecksPass(u, db, chain, lo, |chain|, None)
  {
    assert forall n | 0 < n < |chain| :: LinkHolds(u, db, chain, n) <==> LinkHolds(t, db, chain, n);
  }

  /** An import that is cancelled above the seam and then repeated to completion is without error exactly
    * if one complete import is, and leaves the same database. */
  lemma {:induction false} CancelledThenComplete(db: Stored, hashing: Hashing, chain: seq<Block>, verify: bool,
                              cancelled: nat -> bool, lo: nat)
    requires Numbered(chain) && Keyed(db) && Prefix(db) < lo <= |chain|
    requires FirstPollAt(cancelled, |chain| - lo)
    requires CancelledAt(db, hashing, chain, verify, cancelled).1 == Cancelled
    ensures var once := Complete(db, hashing, chain, verify);
            var twice := Complete(CancelledAt(db, hashing, chain, verify, cancelled).0, hashing, chain, verify);
            twice.1 == once.1 && (once.1 == Finished ==> twice.0 == once.0)
  {
    CancelledIs(db, hashing, chain, verify, cancelled, lo);
    var half := Target(db, chain, lo);
    HalfImported(db, chain, lo);
    CompleteImportVerifies(db, hashing, chain, verify);
    CompleteImportVerifies(half, hashing, chain, verify);
    CompleteOutcome(db, hashing, chain, verify);
    CompleteOutcome(half, hashing, chain, verify);
  }

  lemma {:induction false} CompleteOutcome(db: Stored, hashing: Hashing, chain: seq<Block>, verify: bool)
    requires Numbered(chain) && Keyed(db) && Prefix(db) < |chain|
    ensures Complete(db, hashing, chain, verify).1 != Cancelled
  {
    CompleteIs(db, hashing, chain, verify);
  }

  /** The blocks from lo on do not change what there is to import, unless they close the gap. */
  lemma {:induction false} HalfImported(db: Stored, chain: seq<Block>, lo: nat)
    requires Numbered(chain) && Keyed(db) && Prefix(db) <= lo <= |chain|
    ensures Keyed(Target(db, chain, lo))
    ensures Prefix(db) < lo ==> Prefix(Target(db, chain, lo)) == Prefix(db)
    ensures Prefix(db) == lo < |chain| ==> Prefix(Target(db, chain, lo)) >= |chain|
    ensures Target(Target(db, chain, lo), chain, Prefix(db)) == Target(db, chain, Prefix(db))
  {
    var half := Target(db, chain, lo);
    TargetIs(db, chain, lo);
    SmallestIsMissing(db);
    SmallestIsMissing(half);
    TargetTwice(db, chain, Prefix(db), lo);
    assert Prefix(half) < |chain| && Prefix(db) == lo ==> Prefix(half) in half;
    if Prefix(db) < lo {
      PrefixIs(half, Prefix(db));
    }
  }

  lemma {:induction false} TargetIs(db: Stored, chain: seq<Block>, lo: nat)
    requires Numbered(chain) && lo <= |chain|
    ensures forall k: BlockNo :: k in Target(db, chain, lo) <==> k in db || lo <= k < |chain|
    ensures forall k | k in Target(db, chain, lo) ::
              Target(db, chain, lo)[k] == if lo <= k < |chain| then chain[k] else db[k]
  {
    forall k: BlockNo
      ensures k in Target(db, chain, lo) <==> k in db || lo <= k < |chain|
      ensures k in Target(db, chain, lo) ==>
                Target(db, chain, lo)[k] == if lo <= k < |chain| then chain[k] else db[k]
    {
      WriteDownward(db, chain, lo, |chain|, k);
    }
  }

  lemma {:induction false} TargetTwice(db: Stored, chain: seq<Block>, from: nat, lo: nat)
    requires Numbered(chain) && from <= lo <= |chain|
    ensures Target(Target(db, chain, lo), chain, from) == Target(db, chain, from)
  {
    var half := Target(db, chain, lo);
    TargetIs(db, chain, lo);
    TargetIs(db, chain, from);
    TargetIs(half, chain, from);
    assert forall k :: k in Target(half, chain, from) <==> k in Target(db, chain, from);
  }

  /** The smallest missing number is unique. */
  lemma {:induction false} PrefixIs(db: Stored, from: BlockNo)
    requires (forall k: BlockNo | k < from :: k in db) && from !in db
    ensures Prefix(db) == from
  {
    SmallestIsMissing(db);
    assert Prefix(db) < from ==> Prefix(db) in db;
  }

  /** The database after imports of the same chain that are cancelled one after the other. */
  ghost function AfterAttempts(db: Stored, hashing: Hashing, chain: seq<Block>, verify: bool,
                               attempts: seq<nat -> bool>)
    : Stored
  {
    if attempts == [] then db
    else
      var before := AfterAttempts(db, hashing, chain, verify, attempts[..|attempts| - 1]);
      CancelledAt(before, hashing, chain, verify, attempts[|attempts| - 1]).0
  }

  ghost predicate CancelledAbove(db: Stored, hashing: Hashing, chain: seq<Block>, verify: bool, from: nat,
                                 cancelled: nat -> bool)
  {
    CancelledAt(db, hashing, chain, verify, cancelled).1 == Cancelled
    && exists k: nat :: FirstPollAt(cancelled, k) && from + k < |chain|
  }

  /** The same holds after any number of imports that are cancelled above the seam. */
  lemma {:induction false} AttemptsThenComplete(db: Stored, hashing: Hashing, chain: seq<Block>, verify: bool,
                                                attempts: seq<nat -> bool>)
    requires Numbered(chain) && Keyed(db) && Prefix(db) < |chain|
    requires forall i | 0 <= i < |attempts| ::
               CancelledAbove(AfterAttempts(db, hashing, chain, verify, attempts[..i]), hashing, chain, verify,
                              Prefix(db), attempts[i])
    ensures var after := AfterAttempts(db, hashing, chain, verify, attempts);
            var once := Complete(db, hashing, chain, verify);
            && Keyed(after) && Prefix(after) == Prefix(db)
            && Complete(after, hashing, chain, verify).1 == once.1
            && (once.1 == Finished ==> Complete(after, hashing, chain, verify).0 == once.0)
    decreases |attempts|
  {
    if attempts != [] {
      var k := |attempts| - 1;
      assert forall i | 0 <= i < k :: attempts[..k][..i] == attempts[..i];
      AttemptsThenComplete(db, hashing, chain, verify, attempts[..k]);
      var before := AfterAttempts(db, hashing, chain, verify, attempts[..k]);
      OneAttempt(before, hashing, chain, verify, attempts[k]);
    }
  }

  lemma {:induction false} OneAttempt(db: Stored, hashing: Hashing, chain: seq<Block>, verify: bool,
                                      cancelled: nat -> bool)
    requires Numbered(chain) && Keyed(db) && Prefix(db) < |chain|
    requires CancelledAbove(db, hashing, chain, verify, Prefix(db), cancelled)
    ensures var after := CancelledAt(db, hashing, chain, verify, cancelled).0;
            var once := Complete(db, hashing, chain, verify);
            && Keyed(after) && Prefix(after) == Prefix(db)
            && Complete(after, hashing, chain, verify).1 == once.1
            && (once.1 == Finished ==> Complete(after, hashing, chain, verify).0 == once.0)
  {
    var k: nat :| FirstPollAt(cancelled, k) && Prefix(db) + k < |chain|;
    var lo := |chain| - k;
    CancelledThenComplete(db, hashing, chain, verify, cancelled, lo);
    CancelledIs(db, hashing, chain, verify, cancelled, lo);
    HalfImported(db, chain, lo);
  }

  /** The exception: an import that is cancelled when all missing blocks have been put, but before the
    * block at the seam has been read. The repeated import finds nothing to do, while one complete import
    * would have checked the link to the block that was stored before (and that block 0 has no parent, if
    * it is that block). So both succeed together exactly if the seam holds. */
  lemma {:induction false} CancelledAtSeam(db: Stored, hashing: Hashing, chain: seq<Block>, verify: bool,
                                        cancelled: nat -> bool)
    requires Numbered(chain) && Keyed(db) && 0 < Prefix(db) < |chain|
    requires FirstPollAt(cancelled, |chain| - Prefix(db))
    requires CancelledAt(db, hashing, chain, verify, cancelled).1 == Cancelled
    ensures var once := Complete(db, hashing, chain, verify);
            var half := CancelledAt(db, hashing, chain, verify, cancelled).0;
            && Complete(half, hashing, chain, verify) == (half, Finished)
            && (once.1 == Finished <==> (verify ==> SeamHolds(hashing, half, Prefix(db))))
            && (once.1 == Finished ==> once.0 == half)
  {
    var from := Prefix(db);
    var t := Job(hashing, Stream(chain), verify, from, NeverCancelled());
    var half := Target(db, chain, from);
    CancelledIs(db, hashing, chain, verify, cancelled, from);
    HalfImported(db, chain, from);
    FirstItem(chain);
    CompleteIs(db, hashing, chain, verify);
    SeamIsLast(t, db, chain);
    SeamInTarget(t, db, chain);
  }

  /** Block from is linked to the block below it, which has no parent if it is block 0. */
  ghost predicate SeamHolds(hashing: Hashing, db: Stored, from: nat) {
    from > 0 && from in db && LinkedIn(hashing, db, from) && (from == 1 ==> LinkedIn(hashing, db, 0))
  }

  /** The seam can be broken: block 1 names another parent than the stored block 0. The import that is
    * cancelled before block 0 is read and then repeated is without error, a complete one is not. */
  lemma {:induction false} SeamUnchecked(hashing: Hashing, body: Body, parent: Hash)
    requires parent != hashing.hashOf(Block(0, hashing.zero, body))
    ensures var below := Block(0, hashing.zero, body);
            var chain, db := [below, Block(1, parent, body)], map[below.number := below];
            var (half, outcome) := CancelledAt(db, hashing, chain, true, poll => poll == 1);
            && Complete(db, hashing, chain, true).1 == Failed
            && outcome == Cancelled && Complete(half, hashing, chain, true) == (half, Finished)
  {
    var below := Block(0, hashing.zero, body);
    var chain := [below, Block(1, parent, body)];
    var db: Stored := map[below.number := below];
    var cancelled := poll => poll == 1;
    PrefixIs(db, 1);
    assert FirstPollAt(cancelled, |chain| - 1);
    CancelledIs(db, hashing, chain, true, cancelled, 1);
    CancelledAtSeam(db, hashing, chain, true, cancelled);
    var half := CancelledAt(db, hashing, chain, true, cancelled).0;
    TargetIs(db, chain, 1);
    assert half[0] == below && half[1] == chain[1];
    CompleteOutcome(db, hashing, chain, true);
  }

  lemma {:induction false} SeamInTarget(t: Job, db: Stored, chain: seq<Block>)
    requires OnChain(t, db, chain) && 0 < t.from < |chain|
    ensures SeamHolds(t.hashing, Target(db, chain, t.from), t.from)
            <==> LinkHolds(t, db, chain, t.from)
                 && (t.from == 1 ==> Kept(t, db, chain, 0).parentHash == t.hashing.zero)
  {
    TargetIs(db, chain, t.from);
  }

  lemma {:induction false} SeamIsLast(t: Job, db: Stored, chain: seq<Block>)
    requires OnChain(t, db, chain) && 0 < t.from < |chain|
    requires ChecksPass(t, db, chain, t.from, |chain|, None)
    ensures ChecksPass(t, db, chain, Seam(t), |chain|, None)
            <==> (t.verify ==>
                    && LinkHolds(t, db, chain, t.from)
                    && (t.from == 1 ==> Kept(t, db, chain, 0).parentHash == t.hashing.zero))
  {
    if t.verify && LinkHolds(t, db, chain, t.from) {
      forall n | Seam(t) < n < |chain|
        ensures LinkHolds(t, db, chain, n)
      {
        assert n == t.from || t.from < n;
      }
    }
  }
}
