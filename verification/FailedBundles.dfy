/** Failed bundles: reading their list (go/replay/failed_bundles.go) and inserting them into the
  * transactions of a block (go/replay/state.go). */
module FailedBundles {
  import opened Options

  type Tx(!new, ==)

  /** An entry of the JSON list; a field that is absent, or an envelope that does not decode, is None. */
  datatype Entry = Entry(block: Option<nat>, pos: Option<nat>, tx: Option<Tx>)

  datatype FailedBundle = FailedBundle(pos: nat, tx: Tx)

  predicate Complete(e: Entry) {
    e.block.Some? && e.pos.Some? && e.tx.Some?
  }

  predicate AllComplete(es: seq<Entry>) {
    forall e | e in es :: Complete(e)
  }

  /** The order of two entries by block and position. */
  predicate NotAfter(a: Entry, b: Entry)
    requires Complete(a) && Complete(b)
  {
    a.block.value < b.block.value || (a.block == b.block && a.pos.value <= b.pos.value)
  }

  predicate SortedEntries(es: seq<Entry>)
    requires AllComplete(es)
  {
    forall i, j | 0 <= i < j < |es| :: NotAfter(es[i], es[j])
  }

  /** The bundles of one block, in the order of the list. */
  function BundlesOf(es: seq<Entry>, block: nat): seq<FailedBundle>
    requires AllComplete(es)
  {
    if es == [] then []
    else
      var last := es[|es| - 1];
      assert last in es;
      BundlesOf(es[..|es| - 1], block)
      + if last.block == Some(block) then [FailedBundle(last.pos.value, last.tx.value)] else []
  }

  predicate SortedByPos(bs: seq<FailedBundle>) {
    forall i, j | 0 <= i < j < |bs| :: bs[i].pos <= bs[j].pos
  }

  /** The map lists the bundles of each block that has any. */
  predicate Grouped(es: seq<Entry>, m: map<nat, seq<FailedBundle>>)
    requires AllComplete(es)
  {
    && (forall e | e in es :: e.block.value in m)
    && forall b | b in m :: m[b] != [] && m[b] == BundlesOf(es, b)
  }

  /** Appends the bundle of an entry to those of its block. */
  function AddBundle(m: map<nat, seq<FailedBundle>>, e: Entry): map<nat, seq<FailedBundle>>
    requires Complete(e)
  {
    var b := e.block.value;
    m[b := (if b in m then m[b] else []) + [FailedBundle(e.pos.value, e.tx.value)]]
  }

  function GroupedOneByOne(es: seq<Entry>): map<nat, seq<FailedBundle>> {
    if es == [] then map[]
    else if !Complete(es[|es| - 1]) then GroupedOneByOne(es[..|es| - 1])
    else AddBundle(GroupedOneByOne(es[..|es| - 1]), es[|es| - 1])
  }

  lemma {:induction false} GroupedOneByOneIsGrouped(es: seq<Entry>)
    requires AllComplete(es)
    ensures Grouped(es, GroupedOneByOne(es))
  {
    if es != [] {
      assert es[|es| - 1] in es && es == es[..|es| - 1] + [es[|es| - 1]];
      GroupedOneByOneIsGrouped(es[..|es| - 1]);
      NextGrouped(es[..|es| - 1], es[|es| - 1], GroupedOneByOne(es[..|es| - 1]));
    }
  }

  ghost predicate Accepted(es: seq<Entry>) {
    AllComplete(es) && SortedEntries(es)
  }

  /** The lists without a missing field in which no entry is behind one of an earlier block, or of an earlier
    * position in the same block. */
  lemma {:induction false} AcceptedAre(es: seq<Entry>)
    ensures Accepted(es) <==>
              && (forall e | e in es :: e.block.Some? && e.pos.Some? && e.tx.Some?)
              && forall i, j | 0 <= i < j < |es| ::
                   || es[i].block.value < es[j].block.value
                   || (es[i].block == es[j].block && es[i].pos.value <= es[j].pos.value)
  {
    if AllComplete(es) {
      assert forall i | 0 <= i < |es| :: es[i] in es && Complete(es[i]);
      assert forall i, j | 0 <= i < j < |es| ::
          NotAfter(es[i], es[j])
          <==> || es[i].block.value < es[j].block.value
               || (es[i].block == es[j].block && es[i].pos.value <= es[j].pos.value);
    }
  }

  /** The checks on one entry: nothing is missing, and it is not before its predecessor. */
  method EntryFits(entries: seq<Entry>, i: nat) returns (ok: bool)
    requires i < |entries| && (i > 0 ==> Complete(entries[i - 1]))
    ensures ok <==> Complete(entries[i]) && (i > 0 ==> NotAfter(entries[i - 1], entries[i]))
  {
    var entry := entries[i];
    if entry.block.None? || entry.pos.None? || entry.tx.None? {
      return false;
    }
    if i > 0 {
      var prev := entries[i - 1];
      if prev.block.value > entry.block.value || (prev.block == entry.block && prev.pos.value > entry.pos.value) {
        return false;
      }
    }
    ok := true;
  }

  /** `UnmarshalJSON`: compares only neighbours, and accepts exactly the lists that are sorted by block
    * and position; each block gets its bundles, sorted by position. */
  method UnmarshalJSON(entries: seq<Entry>) returns (parsed: Option<map<nat, seq<FailedBundle>>>)
    ensures parsed.Some? <==> Accepted(entries)
    ensures parsed.Some? ==> Grouped(entries, parsed.value)
    ensures parsed.Some? ==> forall b | b in parsed.value :: SortedByPos(parsed.value[b])
  {
    var failedBundles: map<nat, seq<FailedBundle>> := map[];
    var i := 0;
    while i < |entries|
      invariant 0 <= i <= |entries|
      invariant Accepted(entries[..i]) && failedBundles == GroupedOneByOne(entries[..i])
    {
      SplitLast(entries, i);
      PrefixAccepted(entries, i + 1);
      NextAccepted(entries[..i], entries[i]);
      var ok := EntryFits(entries, i);
      if !ok {
        return None;
      }
      failedBundles := AddBundle(failedBundles, entries[i]);
      i := i + 1;
    }
    assert entries[..|entries|] == entries;
    GroupedOneByOneIsGrouped(entries);
    GroupsSorted(entries, failedBundles);
    parsed := Some(failedBundles);
  }

  lemma GroupsSorted(es: seq<Entry>, m: map<nat, seq<FailedBundle>>)
    requires Accepted(es) && Grouped(es, m)
    ensures forall b | b in m :: SortedByPos(m[b])
  {
    forall b | b in m
      ensures SortedByPos(m[b])
    {
      BundlesSorted(es, b);
    }
  }

  lemma SplitLast(es: seq<Entry>, i: nat)
    requires i < |es|
    ensures es[..i + 1] == es[..i] + [es[i]] && es[..i + 1][..i] == es[..i]
    ensures i > 0 ==> es[..i][|es[..i]| - 1] == es[i - 1] && es[i - 1] in es[..i]
  {
  }

  lemma {:induction false} PrefixAccepted(es: seq<Entry>, n: nat)
    requires n <= |es|
    ensures Accepted(es) ==> Accepted(es[..n])
  {
  }

  lemma {:induction false} NextAccepted(es: seq<Entry>, e: Entry)
    requires Accepted(es)
    ensures Accepted(es + [e]) <==> Complete(e) && (es != [] ==> NotAfter(es[|es| - 1], e))
  {
    if Accepted(es + [e]) {
      assert (es + [e])[|es|] == e;
      if es != [] { assert NotAfter((es + [e])[|es| - 1], (es + [e])[|es|]); }
    }
    if Complete(e) && (es != [] ==> NotAfter(es[|es| - 1], e)) {
      forall i | 0 <= i < |es|
        ensures NotAfter(es[i], e)
      {
        if i < |es| - 1 { assert NotAfter(es[i], es[|es| - 1]); }
      }
    }
  }

  lemma {:induction false} NextGrouped(es: seq<Entry>, e: Entry, m: map<nat, seq<FailedBundle>>)
    requires AllComplete(es) && Complete(e) && Grouped(es, m)
    ensures AllComplete(es + [e])
    ensures Grouped(es + [e], AddBundle(m, e))
  {
    assert (es + [e])[..|es|] == es;
    if e.block.value !in m { NoBundles(es, e.block.value); }
  }

  lemma {:induction false} NoBundles(es: seq<Entry>, block: nat)
    requires AllComplete(es) && forall e | e in es :: e.block != Some(block)
    ensures BundlesOf(es, block) == []
  {
    if es != [] {
      assert es[|es| - 1] in es;
      NoBundles(es[..|es| - 1], block);
    }
  }

  lemma {:induction false} BundlesSorted(es: seq<Entry>, block: nat)
    requires AllComplete(es) && SortedEntries(es)
    ensures SortedByPos(BundlesOf(es, block))
  {
    if es != [] {
      var init, last := es[..|es| - 1], es[|es| - 1];
      assert last in es;
      BundlesSorted(init, block);
      if last.block == Some(block) {
        forall e | e in init
          ensures e.block == Some(block) ==> e.pos.value <= last.pos.value
        {
          var k :| 0 <= k < |init| && init[k] == e;
          assert NotAfter(es[k], es[|es| - 1]);
        }
        BundlesUpTo(init, block, last.pos.value);
      }
    }
  }

  lemma {:induction false} BundlesUpTo(es: seq<Entry>, block: nat, p: nat)
    requires AllComplete(es)
    requires forall e | e in es :: e.block == Some(block) ==> e.pos.value <= p
    ensures InRange(BundlesOf(es, block), p)
  {
    if es != [] {
      assert es[|es| - 1] in es;
      BundlesUpTo(es[..|es| - 1], block, p);
    }
  }

  // --- Insertion ---

  predicate InRange(bs: seq<FailedBundle>, n: nat) {
    forall i | 0 <= i < |bs| :: bs[i].pos <= n
  }

  /** The transactions with each bundle inserted before the transaction at its position. */
  function Merged(txs: seq<Tx>, bs: seq<FailedBundle>): (r: seq<Tx>)
    requires SortedByPos(bs) && InRange(bs, |txs|)
    ensures |r| == |txs| + |bs|
  {
    if bs == [] then txs
    else
      var k := |bs| - 1;
      var merged := Merged(txs, bs[..k]);
      merged[..bs[k].pos + k] + [bs[k].tx] + merged[bs[k].pos + k..]
  }

  /** Takes the bundles out of a block again, the last one first. */
  function Deleted(txs: seq<Tx>, bs: seq<FailedBundle>): seq<Tx>
    requires |bs| <= |txs| && InRange(bs, |txs| - |bs|)
    decreases |bs|
  {
    if bs == [] then txs
    else
      var k := |bs| - 1;
      Deleted(txs[..bs[k].pos + k] + txs[bs[k].pos + k + 1..], bs[..k])
  }

  /** The bundles done are inserted; the transactions from next on are still to come. */
  ghost predicate Inserted(txs: seq<Tx>, done: seq<FailedBundle>, out: seq<Tx>, next: nat) {
    && next <= |txs| && |out| == next + |done|
    && SortedByPos(done) && InRange(done, next)
    && out + txs[next..] == Merged(txs, done)
  }

  /** `insertFailedBundles`: fails exactly if some position exceeds the number of transactions. */
  method InsertFailedBundles(txs: seq<Tx>, failedBundles: seq<FailedBundle>) returns (res: Option<seq<Tx>>)
    requires SortedByPos(failedBundles)
    ensures res.None? <==> exists i :: 0 <= i < |failedBundles| && failedBundles[i].pos > |txs|
    ensures res.Some? ==> InRange(failedBundles, |txs|) && res.value == Merged(txs, failedBundles)
  {
    var out: seq<Tx> := [];
    var next: nat := 0;
    var i := 0;
    assert Inserted(txs, failedBundles[..0], [], 0) by { assert [] + txs[0..] == txs; }
    while i < |failedBundles|
      invariant 0 <= i <= |failedBundles|
      invariant Inserted(txs, failedBundles[..i], out, next)
      invariant forall k | i <= k < |failedBundles| :: next <= failedBundles[k].pos
    {
      var bundle := failedBundles[i];
      if bundle.pos > |txs| {
        return None;
      }
      NextInserted(txs, failedBundles, i, out, next);
      out := out + txs[next..bundle.pos];
      out := out + [bundle.tx];
      next := bundle.pos;
      i := i + 1;
    }
    assert failedBundles[..|failedBundles|] == failedBundles;
    res := Some(out + txs[next..]);
  }

  lemma {:induction false} NextInserted(txs: seq<Tx>, bs: seq<FailedBundle>, i: nat, out: seq<Tx>, next: nat)
    requires i < |bs| && Inserted(txs, bs[..i], out, next) && next <= bs[i].pos <= |txs|
    ensures Inserted(txs, bs[..i + 1], out + txs[next..bs[i].pos] + [bs[i].tx], bs[i].pos)
  {
    var b, done := bs[i], bs[..i];
    assert bs[..i + 1] == done + [b] && (done + [b])[..|done|] == done;
    var merged := Merged(txs, done);
    assert merged[..b.pos + |done|] == out + txs[next..b.pos];
    assert merged[b.pos + |done|..] == txs[b.pos..];
  }

  /** The k-th bundle lands at its position, moved by the k bundles before it. */
  lemma {:induction false} BundleIndex(txs: seq<Tx>, bs: seq<FailedBundle>, k: nat)
    requires SortedByPos(bs) && InRange(bs, |txs|) && k < |bs|
    ensures bs[k].pos + k < |Merged(txs, bs)| && Merged(txs, bs)[bs[k].pos + k] == bs[k].tx
  {
    var last := |bs| - 1;
    if k < last {
      BundleIndex(txs, bs[..last], k);
    }
  }

  /** Deleting the bundles gives back the transactions of the block. */
  lemma {:induction false} DeletedMerged(txs: seq<Tx>, bs: seq<FailedBundle>)
    requires SortedByPos(bs) && InRange(bs, |txs|)
    ensures Deleted(Merged(txs, bs), bs) == txs
  {
    if bs != [] {
      var k := |bs| - 1;
      var merged, all := Merged(txs, bs[..k]), Merged(txs, bs);
      var at := bs[k].pos + k;
      assert all[..at] + all[at + 1..] == merged;
      DeletedMerged(txs, bs[..k]);
    }
  }
}
