/** The two verifiers of stored blocks: the forward loop in Rust (blockservice/src/cmd/verify.rs), which
  * counts errors, and the backward loop in Go (go/verify/verify.go), which stops at the first one. */
module VerifyLoops {
  import opened Blocks
  import opened Options
  import opened Ranges

  /** A stored block of the chain, with the number in its key. */
  datatype Entry = Entry(key: BlockNo, block: Block)

  /** What iterating over the database yields. */
  datatype Item = Read(entry: Entry) | Unreadable

  // --- Rust: forward, counting ---

  function Entries(items: seq<Item>): (es: seq<Entry>)
    requires forall i | 0 <= i < |items| :: items[i].Read?
    ensures |es| == |items| && forall i | 0 <= i < |items| :: es[i] == items[i].entry
  {
    seq(|items|, i requires 0 <= i < |items| => items[i].entry)
  }

  predicate Misnumbered(es: seq<Entry>, i: int)
    requires 0 <= i < |es|
  {
    es[i].block.number != es[i].key
  }

  predicate Consecutive(es: seq<Entry>, i: int)
    requires 0 < i < |es|
  {
    es[i - 1].key + 1 == es[i].key
  }

  /** Entry i does not refer to the hash of the block before it, and that block has no failed bundles. */
  predicate Unlinked(hashing: Hashing, failed: set<BlockNo>, es: seq<Entry>, i: int)
    requires 0 < i < |es|
  {
    hashing.hashOf(es[i - 1].block) != es[i].block.parentHash && es[i - 1].key !in failed
  }

  function MisnumberedAt(es: seq<Entry>): set<int> {
    set i | 0 <= i < |es| && Misnumbered(es, i)
  }

  /** Unlinked entries whose predecessor in the listing is their predecessor by number. */
  function UnlinkedAt(hashing: Hashing, failed: set<BlockNo>, es: seq<Entry>): set<int> {
    set i | 0 < i < |es| && Consecutive(es, i) && Unlinked(hashing, failed, es, i)
  }

  /** The error for the requested start block, if a hash was given for it. */
  function StartErrors(hashing: Hashing, db: Stored, failed: set<BlockNo>, start: Option<BlockNo>,
                       expected: Option<Hash>)
    : nat
  {
    if start.None? || expected.None? then 0
    else if start.value !in db then 1
    else if hashing.hashOf(db[start.value]) == expected.value || start.value in failed then 0
    else 1
  }

  /** Items before n are read; the loop ends there. */
  predicate EndsAt(items: seq<Item>, cancelled: nat -> bool, n: nat) {
    && n <= |items|
    && (forall i: nat | i < n :: items[i].Read? && !cancelled(i))
    && (n < |items| ==> cancelled(n) || items[n].Unreadable?)
  }

  /** Which entries are counted: wrong numbers, and wrong parent hashes of blocks whose predecessor by number is
    * stored and has no failed bundles. */
  lemma {:induction false} CountedAre(hashing: Hashing, failed: set<BlockNo>, es: seq<Entry>, i: int)
    ensures i in MisnumberedAt(es) <==> 0 <= i < |es| && es[i].block.number != es[i].key
    ensures i in UnlinkedAt(hashing, failed, es) <==>
              && 0 < i < |es| && es[i].key == es[i - 1].key + 1 && es[i - 1].key !in failed
              && es[i].block.parentHash != hashing.hashOf(es[i - 1].block)
  {
    if 0 <= i < |es| { assert Misnumbered(es, i) <==> es[i].block.number != es[i].key; }
    if 0 < i < |es| {
      assert Consecutive(es, i) <==> es[i].key == es[i - 1].key + 1;
      assert Unlinked(hashing, failed, es, i)
             <==> es[i].block.parentHash != hashing.hashOf(es[i - 1].block) && es[i - 1].key !in failed;
    }
  }

  datatype Report = Verified(errors: nat) | ReadError

  /** `check_block_hash`. */
  function CheckBlockHash(failed: set<BlockNo>, number: BlockNo, hash: Hash, expected: Hash, errors: nat): nat {
    if hash == expected || number in failed then errors else errors + 1
  }

  /** `verify`: the error count is exactly the number of entries with a wrong number, plus that of
    * unlinked neighbours, plus the start error; n entries have been verified. */
  method Verify(hashing: Hashing, db: Stored, start: Option<BlockNo>, expected: Option<Hash>, items: seq<Item>,
                failed: set<BlockNo>, cancelled: nat -> bool)
    returns (report: Report, n: nat)
    ensures EndsAt(items, cancelled, n)
    ensures report.ReadError? <==> n < |items| && !cancelled(n)
    ensures report.Verified? ==>
              report.errors == StartErrors(hashing, db, failed, start, expected)
                               + |MisnumberedAt(Entries(items[..n]))|
                               + |UnlinkedAt(hashing, failed, Entries(items[..n]))|
  {
    var errors: nat := 0;
    if start.Some? && expected.Some? {
      if start.value in db {
        errors := CheckBlockHash(failed, start.value, hashing.hashOf(db[start.value]), expected.value, errors);
      } else {
        errors := errors + 1;
      }
    }
    ghost var startErrors := errors;
    var prevNumber: BlockNo := if start.Some? then start.value else 0;
    var prevHash: Option<Hash> := None;
    var i: nat := 0;
    ghost var es: seq<Entry> := [];
    while i < |items| && !cancelled(i)
      invariant i <= |items| && forall j: nat | j < i :: items[j].Read? && !cancelled(j)
      invariant es == Entries(items[..i])
      invariant prevHash == if i == 0 then None else Some(hashing.hashOf(es[i - 1].block))
      invariant i > 0 ==> prevNumber == es[i - 1].key
      invariant errors == startErrors + |MisnumberedAt(es)| + |UnlinkedAt(hashing, failed, es)|
    {
      if items[i].Unreadable? {
        return ReadError, i;
      }
      var entry := items[i].entry;
      OneMoreEntry(hashing, failed, es, entry);
      if entry.block.number != entry.key {
        errors := errors + 1;
      }
      if prevNumber + 1 != entry.key {
        prevHash := None;
      }
      if prevHash.Some? {
        errors := CheckBlockHash(failed, prevNumber, prevHash.value, entry.block.parentHash, errors);
      }
      prevNumber := entry.key;
      prevHash := Some(hashing.hashOf(entry.block));
      es := es + [entry];
      i := i + 1;
      assert Entries(items[..i]) == es;
    }
    report, n := Verified(errors), i;
  }

  lemma {:induction false} OneMoreEntry(hashing: Hashing, failed: set<BlockNo>, es: seq<Entry>, e: Entry)
    ensures |MisnumberedAt(es + [e])| == |MisnumberedAt(es)| + if e.block.number != e.key then 1 else 0
    ensures |UnlinkedAt(hashing, failed, es + [e])| == |UnlinkedAt(hashing, failed, es)|
              + if |es| > 0 && Consecutive(es + [e], |es|) && Unlinked(hashing, failed, es + [e], |es|) then 1 else 0
  {
    OneMoreMisnumbered(es, e);
    OneMoreUnlinked(hashing, failed, es, e);
  }

  lemma {:induction false} OneMoreMisnumbered(es: seq<Entry>, e: Entry)
    ensures |MisnumberedAt(es + [e])| == |MisnumberedAt(es)| + if e.block.number != e.key then 1 else 0
  {
    var next, n := es + [e], |es|;
    forall i
      ensures i in MisnumberedAt(next) <==> i in MisnumberedAt(es) || (i == n && e.block.number != e.key)
    {
      if 0 <= i < n { assert Misnumbered(next, i) <==> Misnumbered(es, i); }
      if i == n { assert Misnumbered(next, n) <==> e.block.number != e.key; }
    }
    OneMoreElement(MisnumberedAt(es), MisnumberedAt(next), n, e.block.number != e.key);
  }

  lemma {:induction false} OneMoreUnlinked(hashing: Hashing, failed: set<BlockNo>, es: seq<Entry>, e: Entry)
    ensures |UnlinkedAt(hashing, failed, es + [e])| == |UnlinkedAt(hashing, failed, es)|
              + if |es| > 0 && Consecutive(es + [e], |es|) && Unlinked(hashing, failed, es + [e], |es|) then 1 else 0
  {
    var next, n := es + [e], |es|;
    var last := n > 0 && Consecutive(next, n) && Unlinked(hashing, failed, next, n);
    forall i
      ensures i in UnlinkedAt(hashing, failed, next) <==> i in UnlinkedAt(hashing, failed, es) || (i == n && last)
    {
      if 0 < i < n {
        assert Consecutive(next, i) <==> Consecutive(es, i);
        assert Unlinked(hashing, failed, next, i) <==> Unlinked(hashing, failed, es, i);
      }
    }
    OneMoreElement(UnlinkedAt(hashing, failed, es), UnlinkedAt(hashing, failed, next), n, last);
  }

  lemma OneMoreElement(s: set<int>, t: set<int>, n: int, more: bool)
    requires n !in s
    requires forall i :: i in t <==> i in s || (i == n && more)
    ensures |t| == |s| + if more then 1 else 0
  {
    var expected := if more then s + {n} else s;
    forall i
      ensures i in t <==> i in expected
    {
    }
    SameElements(t, expected);
  }

  lemma SameElements<T>(s: set<T>, t: set<T>)
    requires forall x :: x in s <==> x in t
    ensures s == t
  {
  }

  // --- Go: backward, stopping at the first error ---

  /** A block from the database; converting it to the form that is hashed can fail. */
  datatype GoItem = Got(block: Block) | GotError

  predicate AcceptsPair(convert: Block -> Option<Hash>, failed: set<BlockNo>, upper: Block, lower: Block) {
    convert(lower).Some? && (convert(lower).value == upper.parentHash || lower.number in failed)
  }

  predicate GoAccepts(convert: Block -> Option<Hash>, failed: set<BlockNo>, items: seq<GoItem>) {
    && (forall i | 0 <= i < |items| :: items[i].Got?)
    && forall i, j | 0 <= i && j == i + 1 < |items| :: AcceptsPair(convert, failed, items[i].block, items[j].block)
  }

  /** What is accepted: each block below another one converts, and has the hash recorded there or failed
    * bundles. */
  lemma {:induction false} AcceptedAre(convert: Block -> Option<Hash>, failed: set<BlockNo>, items: seq<GoItem>)
    ensures GoAccepts(convert, failed, items) <==>
              && (forall i | 0 <= i < |items| :: items[i].Got?)
              && forall i | 0 < i < |items| ::
                   && convert(items[i].block).Some?
                   && (convert(items[i].block) == Some(items[i - 1].block.parentHash) || items[i].block.number in failed)
  {
    if GoAccepts(convert, failed, items) {
      forall i | 0 < i < |items|
        ensures convert(items[i].block).Some?
        ensures convert(items[i].block) == Some(items[i - 1].block.parentHash) || items[i].block.number in failed
      {
        var j := i - 1;
        assert AcceptsPair(convert, failed, items[j].block, items[i].block);
      }
    } else if forall i | 0 <= i < |items| :: items[i].Got? {
      var i, j :| 0 <= i && j == i + 1 < |items| && !AcceptsPair(convert, failed, items[i].block, items[j].block);
      assert 0 < j < |items| && items[j - 1] == items[i];
    }
  }

  /** `verifyBlocks`. */
  method VerifyBlocks(convert: Block -> Option<Hash>, failed: set<BlockNo>, items: seq<GoItem>, cancelled: nat -> bool)
    returns (ok: bool)
    ensures ok <==> GoAccepts(convert, failed, items) && forall i: nat | i < |items| :: !cancelled(i)
  {
    var first := true;
    var blockHash: Option<Hash> := None;
    var i: nat := 0;
    while i < |items|
      invariant i <= |items| && GoAccepts(convert, failed, items[..i]) && forall j: nat | j < i :: !cancelled(j)
      invariant first <==> i == 0
      invariant i > 0 ==> blockHash == Some(items[i - 1].block.parentHash)
    {
      if cancelled(i) || items[i].GotError? {
        return false;
      }
      var block := items[i].block;
      if !first {
        var got := convert(block);
        var mismatch := got.Some? && got != blockHash;
        var tolerated := mismatch && block.number in failed;
        if (got.None? || mismatch) && !tolerated {
          assert !AcceptsPair(convert, failed, items[i - 1].block, items[i].block);
          return false;
        }
      }
      first := false;
      blockHash := Some(block.parentHash);
      i := i + 1;
    }
    assert items[..|items|] == items;
    ok := true;
  }

  /** The entries within bounds, in ascending order. */
  function Within(es: seq<Entry>, lo: BlockNo, hi: BlockNo): seq<Entry> {
    if es == [] then []
    else
      var last := es[|es| - 1];
      Within(es[..|es| - 1], lo, hi) + if lo <= last.key <= hi then [last] else []
  }

  predicate Ascending(es: seq<Entry>) {
    forall i, j | 0 <= i < j < |es| :: es[i].key < es[j].key
  }

  predicate WellNumbered(es: seq<Entry>) {
    forall i | 0 <= i < |es| :: !Misnumbered(es, i)
  }

  function Backward(es: seq<Entry>): (items: seq<GoItem>)
    ensures |items| == |es|
  {
    if es == [] then [] else [Got(es[|es| - 1].block)] + Backward(es[..|es| - 1])
  }

  /** The entries between the numbers of the lowest and the highest block within bounds. */
  function Narrowed(es: seq<Entry>, lo: BlockNo, hi: BlockNo): seq<Entry> {
    var up := Within(es, lo, hi);
    if up == [] then [] else Within(es, up[0].block.number, up[|up| - 1].block.number)
  }

  /** `Verify`, on a chain whose stored blocks are es: narrows the range with `getStoredBlockRange`, then
    * verifies backwards. */
  method GoVerify(convert: Block -> Option<Hash>, failed: set<BlockNo>, es: seq<Entry>, start: BlockNo, end: BlockNo,
                  cancelled: nat -> bool)
    returns (ok: bool)
    ensures ok <==>
              && start <= end
              && GoAccepts(convert, failed, Backward(Narrowed(es, start, end)))
              && forall i: nat | i < |Narrowed(es, start, end)| :: !cancelled(i)
  {
    if start > end {
      return false;
    }
    var up := Within(es, start, end);
    if up == [] {
      return true;
    }
    var lowest, highest := up[0].block.number, up[|up| - 1].block.number;
    ok := VerifyBlocks(convert, failed, Backward(Within(es, lowest, highest)), cancelled);
  }

  lemma {:induction false} WithinIs(es: seq<Entry>, lo: BlockNo, hi: BlockNo)
    requires Ascending(es)
    ensures Ascending(Within(es, lo, hi)) && forall e :: e in Within(es, lo, hi) <==> e in es && lo <= e.key <= hi
  {
    if es != [] {
      var init, last := es[..|es| - 1], es[|es| - 1];
      assert es == init + [last];
      WithinIs(init, lo, hi);
      AscendingSnoc(init, last, Within(init, lo, hi));
    }
  }

  /** Entries of an ascending list, in ascending order, stay so with the last one appended. */
  lemma {:induction false} AscendingSnoc(init: seq<Entry>, last: Entry, part: seq<Entry>)
    requires Ascending(init + [last]) && Ascending(part) && forall e | e in part :: e in init
    ensures Ascending(part + [last])
  {
    forall i | 0 <= i < |part|
      ensures part[i].key < last.key
    {
      assert part[i] in part && part[i] in init;
      var k :| 0 <= k < |init| && init[k] == part[i];
      assert (init + [last])[k].key < (init + [last])[|init|].key;
    }
  }

  lemma {:induction false} SameWithin(es: seq<Entry>, lo: BlockNo, hi: BlockNo, a: BlockNo, b: BlockNo)
    requires forall e | e in es :: lo <= e.key <= hi <==> a <= e.key <= b
    ensures Within(es, lo, hi) == Within(es, a, b)
  {
    if es != [] {
      assert es[|es| - 1] in es;
      SameWithin(es[..|es| - 1], lo, hi, a, b);
    }
  }

  /** Narrowing changes nothing if the blocks within bounds are stored under their own numbers. */
  lemma {:induction false} NarrowedIsWithin(es: seq<Entry>, lo: BlockNo, hi: BlockNo)
    requires Ascending(es) && WellNumbered(Within(es, lo, hi))
    ensures Narrowed(es, lo, hi) == Within(es, lo, hi)
  {
    var up := Within(es, lo, hi);
    if up == [] { return; }
    WithinIs(es, lo, hi);
    var first, last := up[0], up[|up| - 1];
    assert first in up && last in up;
    forall e | e in es
      ensures lo <= e.key <= hi <==> first.key <= e.key <= last.key
    {
      if lo <= e.key <= hi {
        var i :| 0 <= i < |up| && up[i] == e;
      }
    }
    assert !Misnumbered(up, 0) && !Misnumbered(up, |up| - 1);
    SameWithin(es, lo, hi, first.key, last.key);
  }

  // --- The two verifiers agree ---

  /** Converts without error, to the same header hash. */
  predicate SameHash(hashing: Hashing, convert: Block -> Option<Hash>, es: seq<Entry>) {
    forall e | e in es :: convert(e.block) == Some(hashing.hashOf(e.block))
  }

  lemma {:induction false} BackwardAccepts(hashing: Hashing, convert: Block -> Option<Hash>, failed: set<BlockNo>,
                                        es: seq<Entry>)
    requires SameHash(hashing, convert, es) && WellNumbered(es)
    ensures GoAccepts(convert, failed, Backward(es)) <==> forall i | 0 < i < |es| :: !Unlinked(hashing, failed, es, i)
  {
    if |es| > 1 {
      var n := |es| - 1;
      var init, rest := es[..n], Backward(es[..n]);
      assert forall i | 0 <= i < n :: !Misnumbered(es, i) ==> !Misnumbered(init, i);
      BackwardAccepts(hashing, convert, failed, init);
      assert forall i | 0 < i < n :: Unlinked(hashing, failed, init, i) <==> Unlinked(hashing, failed, es, i);
      assert rest[0] == Got(es[n - 1].block) && es[n - 1] in es && !Misnumbered(es, n - 1);
      assert Backward(es) == [Got(es[n].block)] + rest;
      PrependAccepts(convert, failed, es[n].block, rest);
      assert AcceptsPair(convert, failed, es[n].block, es[n - 1].block) <==> !Unlinked(hashing, failed, es, n);
    }
  }

  lemma {:induction false} PrependAccepts(convert: Block -> Option<Hash>, failed: set<BlockNo>, top: Block,
                                        rest: seq<GoItem>)
    requires rest != [] && rest[0].Got?
    ensures GoAccepts(convert, failed, [Got(top)] + rest)
            <==> GoAccepts(convert, failed, rest) && AcceptsPair(convert, failed, top, rest[0].block)
  {
    var all := [Got(top)] + rest;
    if GoAccepts(convert, failed, all) {
      assert AcceptsPair(convert, failed, all[0].block, all[1].block);
      forall i | 0 <= i < |rest|
        ensures rest[i].Got?
      {
        assert all[i + 1].Got?;
      }
      forall i, j | 0 <= i && j == i + 1 < |rest|
        ensures AcceptsPair(convert, failed, rest[i].block, rest[j].block)
      {
        assert AcceptsPair(convert, failed, all[i + 1].block, all[j + 1].block);
      }
    }
    if GoAccepts(convert, failed, rest) && AcceptsPair(convert, failed, top, rest[0].block) {
      forall i, j | 0 <= i && j == i + 1 < |all|
        ensures AcceptsPair(convert, failed, all[i].block, all[j].block)
      {
        if i > 0 { assert AcceptsPair(convert, failed, rest[i - 1].block, rest[j - 1].block); }
      }
    }
  }

  /** On blocks that are stored under their own numbers, Go accepts exactly if Rust counts no error and
    * in addition the blocks around each gap happen to be linked: only Rust skips the check at a gap. */
  lemma {:induction false} GoAcceptsIffNoErrors(hashing: Hashing, convert: Block -> Option<Hash>,
                                        failed: set<BlockNo>, es: seq<Entry>)
    requires SameHash(hashing, convert, es) && WellNumbered(es)
    ensures MisnumberedAt(es) == {}
    ensures GoAccepts(convert, failed, Backward(es))
            <==> |UnlinkedAt(hashing, failed, es)| == 0
                 && forall i | 0 < i < |es| && !Consecutive(es, i) :: !Unlinked(hashing, failed, es, i)
  {
    BackwardAccepts(hashing, convert, failed, es);
    if |UnlinkedAt(hashing, failed, es)| == 0 {
      assert UnlinkedAt(hashing, failed, es) == {};
      forall i | 0 < i < |es| && Consecutive(es, i)
        ensures !Unlinked(hashing, failed, es, i)
      {
        assert i !in UnlinkedAt(hashing, failed, es);
      }
    }
  }

  /** Without gaps, Go accepts exactly if Rust counts no error. */
  lemma {:induction false} VerifiersAgree(hashing: Hashing, convert: Block -> Option<Hash>, failed: set<BlockNo>,
                                        es: seq<Entry>)
    requires SameHash(hashing, convert, es) && WellNumbered(es)
    requires forall i | 0 < i < |es| :: Consecutive(es, i)
    ensures GoAccepts(convert, failed, Backward(es))
            <==> |MisnumberedAt(es)| + |UnlinkedAt(hashing, failed, es)| == 0
  {
    GoAcceptsIffNoErrors(hashing, convert, failed, es);
  }

  /** The blocks around each gap are linked. */
  predicate GapsLinked(hashing: Hashing, failed: set<BlockNo>, es: seq<Entry>) {
    forall i | 0 < i < |es| && !Consecutive(es, i) :: !Unlinked(hashing, failed, es, i)
  }

  /** On any stored blocks, also misnumbered ones, with the range that Go narrows. */
  lemma {:induction false} SameVerdict(hashing: Hashing, convert: Block -> Option<Hash>, failed: set<BlockNo>,
                                       es: seq<Entry>, lo: BlockNo, hi: BlockNo)
    requires Ascending(es) && SameHash(hashing, convert, Within(es, lo, hi))
    ensures var part := Within(es, lo, hi);
            |MisnumberedAt(part)| + |UnlinkedAt(hashing, failed, part)| == 0 && GapsLinked(hashing, failed, part)
            <==> WellNumbered(part) && GoAccepts(convert, failed, Backward(Narrowed(es, lo, hi)))
  {
    var part := Within(es, lo, hi);
    NoneMisnumbered(part);
    if WellNumbered(part) {
      NarrowedIsWithin(es, lo, hi);
      GoAcceptsIffNoErrors(hashing, convert, failed, part);
    }
  }

  lemma {:induction false} NoneMisnumbered(es: seq<Entry>)
    ensures |MisnumberedAt(es)| == 0 <==> WellNumbered(es)
  {
    if |MisnumberedAt(es)| == 0 {
      assert MisnumberedAt(es) == {};
      forall i | 0 <= i < |es|
        ensures !Misnumbered(es, i)
      {
        assert i !in MisnumberedAt(es);
      }
    } else {
      assert MisnumberedAt(es) != {};
      var i :| i in MisnumberedAt(es);
      assert Misnumbered(es, i);
    }
  }

  function StoredOf(es: seq<Entry>): Stored {
    if es == [] then map[] else StoredOf(es[..|es| - 1])[es[|es| - 1].key := es[|es| - 1].block]
  }

  function Reads(es: seq<Entry>): (items: seq<Item>)
    ensures |items| == |es| && forall i | 0 <= i < |es| :: items[i] == Read(es[i])
  {
    seq(|es|, i requires 0 <= i < |es| => Read(es[i]))
  }

  lemma {:induction false} EntriesOfReads(es: seq<Entry>)
    ensures Entries(Reads(es)) == es
  {
  }

  /** No hash was given for the start block, or the block has this hash, or failed bundles. */
  predicate StartIsFine(hashing: Hashing, db: Stored, failed: set<BlockNo>, start: Option<BlockNo>,
                        expected: Option<Hash>)
  {
    start.Some? && expected.Some? ==>
      start.value in db && (hashing.hashOf(db[start.value]) == expected.value || start.value in failed)
  }

  /** Both verifiers over the same stored chain, from the same block on to its end. Apart from the hash
    * that only Rust can be given, Go accepts blocks stored under their own numbers exactly if Rust counts
    * no error and the blocks around gaps are linked. */
  method VerifyBoth(hashing: Hashing, convert: Block -> Option<Hash>, failed: set<BlockNo>, es: seq<Entry>,
                    start: Option<BlockNo>, expected: Option<Hash>, end: BlockNo)
    returns (report: Report, ok: bool)
    requires Ascending(es) && forall e | e in es :: e.key <= end
    requires start.Some? ==> start.value <= end
    requires SameHash(hashing, convert, Within(es, if start.Some? then start.value else 0, end))
    ensures report.Verified?
    ensures var part := Within(es, if start.Some? then start.value else 0, end);
            && (report.errors == 0 && GapsLinked(hashing, failed, part)
                <==> ok && WellNumbered(part) && StartIsFine(hashing, StoredOf(es), failed, start, expected))
            && (expected.None? && WellNumbered(part) && (forall i | 0 < i < |part| :: Consecutive(part, i)) ==>
                  (report.errors == 0 <==> ok))
  {
    var from := if start.Some? then start.value else 0;
    var part := Within(es, from, end);
    var n;
    report, n := Verify(hashing, StoredOf(es), start, expected, Reads(part), failed, _ => false);
    assert Reads(part)[..|part|] == Reads(part);
    EntriesOfReads(part);
    ok := GoVerify(convert, failed, es, from, end, _ => false);
    SameVerdict(hashing, convert, failed, es, from, end);
  }
}
