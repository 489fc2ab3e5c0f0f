/** The state database snapshots of a replay (go/replay/snapshot_handler.go): a ring of slots that
  * remembers the last snapshots, and the directories that exist on disk. */
module SnapshotRing {
  import opened Options

  /** What can fail while a snapshot is taken. */
  datatype Trouble = RemovingOldest | RemovingOwn | Closing | Copying | Reopening

  /** A slot: nil, or the block of a snapshot. */
  datatype Slot = Unused | Used(block: nat)

  /** Indices of the ring wrap around once. */
  lemma {:induction false} WrapsOnce(i: nat, n: nat)
    requires 0 < n && i < 2 * n
    ensures i % n == if i < n then i else i - n
  {
    Quotient(i, n, i / n, i % n);
  }

  lemma {:induction false} Quotient(i: nat, n: nat, q: int, r: nat)
    requires i < 2 * n && r < n && i == n * q + r
    ensures r == if i < n then i else i - n
  {
    if q >= 1 { Product(n, q - 1); }
    if q >= 2 { Product(n, q - 2); }
    if q < 0 { Product(n, -q - 1); }
  }

  lemma {:induction false} Product(n: int, k: int)
    requires n >= 0 && k >= 0
    ensures n * (k + 1) >= n && n * (k + 2) >= 2 * n && n * -(k + 1) <= -n
  {
    assert n * (k + 1) == n * k + n && n * (k + 2) == n * k + 2 * n;
  }

  /** The last n entries, or all if there are fewer. */
  function LastN(s: seq<nat>, n: nat): (r: seq<nat>)
    ensures |r| == if |s| <= n then |s| else n
  {
    if |s| <= n then s else s[|s| - n..]
  }

  /** The blocks in the slots that are in use. */
  function Present(slots: seq<Slot>): (blocks: seq<nat>)
    ensures |blocks| <= |slots|
  {
    if slots == [] then []
    else if slots[0] == Unused then Present(slots[1..])
    else [slots[0].block] + Present(slots[1..])
  }

  predicate UnusedFirst(slots: seq<Slot>) {
    forall i, j | 0 <= i < j < |slots| :: slots[i] != Unused ==> slots[j] != Unused
  }

  lemma {:induction false} PresentConcat(a: seq<Slot>, b: seq<Slot>)
    ensures Present(a + b) == Present(a) + Present(b)
  {
    if a == [] {
      assert a + b == b;
    } else {
      assert (a + b)[1..] == a[1..] + b;
      PresentConcat(a[1..], b);
      Associative(a[0], Present(a[1..]), Present(b));
    }
  }

  lemma Associative(slot: Slot, x: seq<nat>, y: seq<nat>)
    ensures slot != Unused ==> ([slot.block] + x) + y == [slot.block] + (x + y)
  {
  }

  lemma {:induction false} PresentIfUsed(slots: seq<Slot>)
    requires slots != [] && UnusedFirst(slots)
    ensures |Present(slots)| == |slots| <==> slots[0] != Unused
  {
    if slots[0] != Unused && |slots| > 1 { PresentIfUsed(slots[1..]); }
  }

  lemma {:induction false} FirstInUse(slots: seq<Slot>, i: nat)
    requires i <= |slots| && forall j | 0 <= j < i :: slots[j] == Unused
    ensures i == |slots| ==> Present(slots) == []
    ensures i < |slots| && slots[i] != Unused ==> Present(slots) != [] && slots[i] == Used(Present(slots)[0])
  {
    if i > 0 { FirstInUse(slots[1..], i - 1); }
  }

  function AllUnused(n: nat): (r: seq<Slot>)
    ensures |r| == n && forall i | 0 <= i < n :: r[i] == Unused
  {
    if n == 0 then [] else [Unused] + AllUnused(n - 1)
  }

  /** The ring, from the next slot to be written on, after snapshots at the given blocks. */
  function RingAfter(taken: seq<nat>, n: nat): (ring: seq<Slot>)
    ensures |ring| == n
  {
    if n == 0 then []
    else if taken == [] then AllUnused(n)
    else RingAfter(taken[..|taken| - 1], n)[1..] + [Used(taken[|taken| - 1])]
  }

  /** It holds the last snapshots, in order, behind the unused slots. */
  lemma {:induction false} RingHolds(taken: seq<nat>, n: nat)
    ensures UnusedFirst(RingAfter(taken, n)) && Present(RingAfter(taken, n)) == LastN(taken, n)
  {
    if n > 0 {
      if taken == [] {
        FirstInUse(AllUnused(n), n);
      } else {
        var init, last := taken[..|taken| - 1], taken[|taken| - 1];
        RingHolds(init, n);
        Pushed(RingAfter(init, n), init, last);
        assert taken == init + [last];
      }
    } else {
      assert LastN(taken, 0) == [];
    }
  }

  /** Overwriting the first slot of the ring, which becomes the last one. */
  lemma Pushed(ring: seq<Slot>, taken: seq<nat>, b: nat)
    requires ring != [] && UnusedFirst(ring) && Present(ring) == LastN(taken, |ring|)
    ensures UnusedFirst(ring[1..] + [Used(b)]) && Present(ring[1..] + [Used(b)]) == LastN(taken + [b], |ring|)
    ensures ring[0] == if |taken| < |ring| then Unused else Used(LastN(taken, |ring|)[0])
  {
    PresentIfUsed(ring);
    PresentSnoc(ring[1..], b);
    NextLastN(taken, b, |ring|);
  }

  lemma PresentSnoc(slots: seq<Slot>, b: nat)
    ensures Present(slots + [Used(b)]) == Present(slots) + [b]
    ensures UnusedFirst(slots) ==> UnusedFirst(slots + [Used(b)])
  {
    PresentConcat(slots, [Used(b)]);
    assert Present([Used(b)]) == [b];
  }

  lemma NextLastN(taken: seq<nat>, b: nat, n: nat)
    requires n > 0
    ensures LastN(taken + [b], n) == (if |taken| < n then LastN(taken, n) else LastN(taken, n)[1..]) + [b]
  {
  }

  predicate Ascending(s: seq<nat>) {
    forall i, j | 0 <= i < j < |s| :: s[i] < s[j]
  }

  /** The directories after snapshots at the given blocks: each removes the directory of the block that
    * its slot remembers, if any, and then creates its own. */
  ghost function DirsAfter(before: set<nat>, taken: seq<nat>, slots: nat): set<nat>
    requires slots > 0
  {
    if taken == [] then before
    else
      var earlier := taken[..|taken| - 1];
      var removed := if |earlier| < slots then {} else {earlier[|earlier| - slots]};
      DirsAfter(before, earlier, slots) - removed + {taken[|taken| - 1]}
  }

  lemma DirsStep(before: set<nat>, taken: seq<nat>, b: nat, slots: nat)
    requires slots > 0
    ensures DirsAfter(before, taken + [b], slots)
            == DirsAfter(before, taken, slots) - (if |taken| < slots then {} else {LastN(taken, slots)[0]}) + {b}
  {
    assert (taken + [b])[..|taken|] == taken;
  }

  /** After snapshots at strictly increasing blocks, of all their directories those of the last
    * snapshots remain, one for each slot. Directories of other blocks are not touched. */
  lemma LastSnapshotsRemain(before: set<nat>, taken: seq<nat>, slots: nat)
    requires slots > 0 && Ascending(taken)
    ensures forall b :: b in DirsAfter(before, taken, slots) <==>
                          b in LastN(taken, slots) || (b in before && b !in taken)
  {
    forall b: nat
      ensures b in DirsAfter(before, taken, slots) <==> b in LastN(taken, slots) || (b in before && b !in taken)
    {
      DirectoryRemains(before, taken, slots, b);
    }
  }

  lemma {:induction false} DirectoryRemains(before: set<nat>, taken: seq<nat>, slots: nat, b: nat)
    requires slots > 0 && Ascending(taken)
    ensures b in DirsAfter(before, taken, slots) <==> b in LastN(taken, slots) || (b in before && b !in taken)
  {
    if taken != [] {
      var earlier, last := taken[..|taken| - 1], taken[|taken| - 1];
      DirectoryRemains(before, earlier, slots, b);
      assert taken == earlier + [last];
      LastNMember(earlier, last, slots, b);
    }
  }

  lemma {:induction false} LastNMember(earlier: seq<nat>, last: nat, n: nat, b: nat)
    requires n > 0 && Ascending(earlier + [last])
    ensures b in LastN(earlier + [last], n) <==>
              b == last || (b in LastN(earlier, n) && (|earlier| < n || b != earlier[|earlier| - n]))
    ensures |earlier| >= n ==> earlier[|earlier| - n] in earlier
  {
    NextLastN(earlier, last, n);
    if |earlier| >= n {
      var kept := LastN(earlier, n);
      assert kept == [kept[0]] + kept[1..];
      assert forall i | 0 <= i < |kept| :: kept[i] == (earlier + [last])[|earlier| - n + i];
    }
  }

  class SnapshotHandler {
    const blockInterval: nat
    const startBlock: nat
    const endBlock: nat
    const pastSnapshotList: array<Slot>
    var pastSnapshotIndex: nat
    // the blocks of all snapshots so far, and the blocks that have a snapshot directory
    ghost var taken: seq<nat>
    ghost const before: set<nat>
    ghost var dirs: set<nat>

    /** The slots from the next one to be written on. */
    ghost function Ring(): seq<Slot>
      requires pastSnapshotIndex <= pastSnapshotList.Length
      reads this, pastSnapshotList
    {
      pastSnapshotList[pastSnapshotIndex..] + pastSnapshotList[..pastSnapshotIndex]
    }

    ghost function Kept(): seq<nat>
      reads this
    {
      LastN(taken, pastSnapshotList.Length)
    }

    ghost predicate Valid()
      reads this, pastSnapshotList
    {
      var n := pastSnapshotList.Length;
      && (n == 0 ==> taken == [] && pastSnapshotIndex == 0 && dirs == before)
      && (n > 0 ==> pastSnapshotIndex < n && dirs == DirsAfter(before, taken, n))
      && Ring() == RingAfter(taken, n)
    }

    constructor (interval: nat, start: nat, end: nat, keep: nat, ghost existing: set<nat>)
      ensures Valid() && fresh(pastSnapshotList) && pastSnapshotList.Length == keep
      ensures blockInterval == interval && startBlock == start && endBlock == end
      ensures taken == [] && before == dirs == existing
    {
      blockInterval, startBlock, endBlock := interval, start, end;
      pastSnapshotList := new Slot[keep](_ => Unused);
      pastSnapshotIndex, taken, before, dirs := 0, [], existing, existing;
      new;
      assert Ring() == AllUnused(keep);
    }

    predicate ShouldCreateSnapshot(b: nat) {
      IsDue(blockInterval, startBlock, endBlock, b)
    }

    /** `Snapshot`, with what fails on the way, if anything. Without any slot the code panics here. A
      * directory that could not be removed, or was copied in part, is still there. */
    method Snapshot(b: nat, trouble: Option<Trouble>) returns (ok: bool)
      requires Valid() && (ShouldCreateSnapshot(b) ==> pastSnapshotList.Length > 0)
      modifies this`pastSnapshotIndex, this`taken, this`dirs, pastSnapshotList
      ensures ok <==> || !ShouldCreateSnapshot(b) || trouble.None?
                      || (trouble == Some(RemovingOldest) && |old(taken)| < pastSnapshotList.Length)
      ensures ok ==> Valid()
      ensures ok ==> taken == if ShouldCreateSnapshot(b) then old(taken) + [b] else old(taken)
      // the slot that was overwritten is the one whose directory was removed
      ensures ok && ShouldCreateSnapshot(b) && |old(taken)| >= pastSnapshotList.Length ==>
                old(pastSnapshotList[pastSnapshotIndex]) == Used(old(Kept())[0])
                && dirs == old(dirs) - {old(Kept())[0]} + {b}
      ensures ok && ShouldCreateSnapshot(b) && |old(taken)| < pastSnapshotList.Length ==>
                old(pastSnapshotList[pastSnapshotIndex]) == Unused && dirs == old(dirs) + {b}
      // a snapshot that fails costs no directory but the one it replaces and an old one of its own block
      ensures !ok ==>
                && (forall d | d in dirs :: d in old(dirs) || d == b)
                && forall d | d in old(dirs) && d != b && d !in dirs ::
                     |old(taken)| >= pastSnapshotList.Length && d == old(Kept())[0]
    {
      if !ShouldCreateSnapshot(b) { return true; }
      ghost var slots, at := pastSnapshotList[..], pastSnapshotIndex;
      NextRing(slots, at, taken, b);
      DirsStep(before, taken, b, |slots|);
      var oldest := GetOldestSnapshotDir();
      if pastSnapshotList[pastSnapshotIndex] != Unused && oldest != Unused {
        if trouble == Some(RemovingOldest) { return false; }
        dirs := dirs - {oldest.block};
      }
      pastSnapshotList[pastSnapshotIndex] := Used(b);
      assert pastSnapshotList[..] == slots[at := Used(b)];
      pastSnapshotIndex := (pastSnapshotIndex + 1) % pastSnapshotList.Length;
      ok := CopyState(b, trouble);
      if ok {
        taken := taken + [b];
      }
    }

    /** The second half of `Snapshot`: the state is closed, copied to a new directory and reopened. */
    method CopyState(b: nat, trouble: Option<Trouble>) returns (ok: bool)
      modifies this`dirs
      ensures ok <==> trouble.None? || trouble.value.RemovingOldest?
      ensures ok ==> dirs == old(dirs) + {b}
      ensures forall d | d != b :: d in dirs <==> d in old(dirs)
    {
      if trouble == Some(RemovingOwn) { return false; }
      dirs := dirs - {b};
      if trouble == Some(Closing) { return false; }
      dirs := dirs + {b};
      ok := trouble != Some(Copying) && trouble != Some(Reopening);
    }

    /** `GetOldestSnapshotDir`: the oldest of the snapshots that still exist. */
    method GetOldestSnapshotDir() returns (oldest: Slot)
      requires Valid()
      ensures oldest == if Kept() == [] then Unused else Used(Kept()[0])
    {
      RingHolds(taken, pastSnapshotList.Length);
      var cnt := 0;
      while cnt < pastSnapshotList.Length
        invariant 0 <= cnt <= pastSnapshotList.Length
        invariant forall j | 0 <= j < cnt :: Ring()[j] == Unused
      {
        var i := (pastSnapshotIndex + cnt) % pastSnapshotList.Length;
        WrapsOnce(pastSnapshotIndex + cnt, pastSnapshotList.Length);
        assert pastSnapshotList[i] == Ring()[cnt];
        if pastSnapshotList[i] != Unused {
          FirstInUse(Ring(), cnt);
          return pastSnapshotList[i];
        }
        cnt := cnt + 1;
      }
      oldest := Unused;
      FirstInUse(Ring(), |Ring()|);
    }

    /** `GetSnapshotDirs`: the snapshots that still exist, in the order of the slots. */
    method GetSnapshotDirs() returns (list: seq<nat>)
      requires Valid()
      ensures list == Present(pastSnapshotList[..]) && multiset(list) == multiset(Kept())
    {
      ghost var slots := pastSnapshotList[..];
      list := [];
      var i := 0;
      while i < pastSnapshotList.Length
        invariant 0 <= i <= pastSnapshotList.Length
        invariant list == Present(slots[..i])
      {
        OneMoreSlot(slots, i);
        if pastSnapshotList[i] != Unused {
          list := list + [pastSnapshotList[i].block];
        }
        i := i + 1;
      }
      assert slots[..i] == slots;
      Rotated(slots, pastSnapshotIndex);
      RingHolds(taken, pastSnapshotList.Length);
    }
  }

  lemma OneMoreSlot(slots: seq<Slot>, i: nat)
    requires i < |slots|
    ensures Present(slots[..i + 1]) == Present(slots[..i]) + if slots[i] == Unused then [] else [slots[i].block]
  {
    assert slots[..i + 1] == slots[..i] + [slots[i]];
    PresentConcat(slots[..i], [slots[i]]);
  }

  lemma Rotated(slots: seq<Slot>, at: nat)
    requires at <= |slots|
    ensures multiset(Present(slots)) == multiset(Present(slots[at..] + slots[..at]))
  {
    assert slots == slots[..at] + slots[at..];
    PresentConcat(slots[..at], slots[at..]);
    PresentConcat(slots[at..], slots[..at]);
  }

  /** Writing the slot at the index and advancing the index. */
  lemma {:induction false} Advanced(slots: seq<Slot>, at: nat, b: nat)
    requires at < |slots|
    ensures var after, i := slots[at := Used(b)], (at + 1) % |slots|;
            i < |slots| && after[i..] + after[..i] == (slots[at..] + slots[..at])[1..] + [Used(b)]
  {
    WrapsOnce(at + 1, |slots|);
    RotatedOnce(slots, at, Used(b), if at + 1 < |slots| then at + 1 else 0);
  }

  lemma {:induction false} RotatedOnce(slots: seq<Slot>, at: nat, x: Slot, i: nat)
    requires at < |slots| && i == if at + 1 < |slots| then at + 1 else 0
    ensures var after := slots[at := x];
            after[i..] + after[..i] == (slots[at..] + slots[..at])[1..] + [x]
  {
  }

  /** The slots after a snapshot, and the slot that it overwrites. */
  lemma NextRing(slots: seq<Slot>, at: nat, taken: seq<nat>, b: nat)
    requires at < |slots| && slots[at..] + slots[..at] == RingAfter(taken, |slots|)
    ensures var after, i := slots[at := Used(b)], (at + 1) % |slots|;
            i < |slots| && after[i..] + after[..i] == RingAfter(taken + [b], |slots|)
    ensures slots[at] == if |taken| < |slots| then Unused else Used(LastN(taken, |slots|)[0])
  {
    assert (slots[at..] + slots[..at])[0] == slots[at];
    assert (taken + [b])[..|taken|] == taken;
    Advanced(slots, at, b);
    RingHolds(taken, |slots|);
    PresentIfUsed(RingAfter(taken, |slots|));
    FirstInUse(RingAfter(taken, |slots|), 0);
  }

  // --- A replay over consecutive blocks ---

  predicate IsDue(interval: nat, start: nat, end: nat, b: nat) {
    interval > 0 && b >= start && b <= end && b % interval == 0
  }

  /** The blocks among n blocks from the first on at which a snapshot is due. */
  function Due(interval: nat, start: nat, end: nat, first: nat, n: nat): (due: seq<nat>)
    ensures Ascending(due)
    ensures forall b :: b in due <==>
                          first <= b < first + n && interval > 0 && start <= b <= end && b % interval == 0
  {
    if n == 0 then []
    else
      var due := Due(interval, start, end, first, n - 1);
      assert forall i | 0 <= i < |due| :: due[i] in due;
      if IsDue(interval, start, end, first + n - 1) then due + [first + n - 1] else due
  }

  /** Offers each block of a replay to a new handler, as `MaybeSnapshot` does, and no snapshot fails. */
  method SnapshotRun(handler: SnapshotHandler, first: nat, n: nat) returns (ghost due: seq<nat>, oldest: Slot)
    requires handler.Valid() && handler.taken == [] && handler.pastSnapshotList.Length > 0
    modifies handler, handler.pastSnapshotList
    ensures due == Due(handler.blockInterval, handler.startBlock, handler.endBlock, first, n)
    ensures forall b :: b in handler.dirs <==>
                          || b in LastN(due, handler.pastSnapshotList.Length)
                          || (b in handler.before && b !in due)
    ensures oldest == if due == [] then Unused else Used(LastN(due, handler.pastSnapshotList.Length)[0])
  {
    var i := 0;
    while i < n
      invariant 0 <= i <= n && handler.Valid()
      invariant handler.taken == Due(handler.blockInterval, handler.startBlock, handler.endBlock, first, i)
    {
      var _ := handler.Snapshot(first + i, None);
      i := i + 1;
    }
    due := handler.taken;
    LastSnapshotsRemain(handler.before, handler.taken, handler.pastSnapshotList.Length);
    oldest := handler.GetOldestSnapshotDir();
  }

  /** The first of the remaining snapshots is the least of them. */
  lemma OldestIsLeast(taken: seq<nat>, n: nat)
    requires Ascending(taken) && taken != [] && n > 0
    ensures LastN(taken, n) != [] && forall b | b in LastN(taken, n) :: LastN(taken, n)[0] <= b
  {
    forall b | b in LastN(taken, n)
      ensures LastN(taken, n)[0] <= b
    {
      var i :| 0 <= i < |LastN(taken, n)| && LastN(taken, n)[i] == b;
      assert LastN(taken, n) == taken[|taken| - |LastN(taken, n)|..];
    }
  }
}
