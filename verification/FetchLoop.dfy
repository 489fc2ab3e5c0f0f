/** Fetching missing blocks from a remote service (blockservice/src/cmd/fetch.rs). */
module FetchLoop {
  import opened Options
  import opened Ranges
  import Bytes

  type Data(!new, ==)

  /** One message of a block stream; an error of the transport is Broken. */
  datatype Reply = Sent(number: BlockNo, data: Data) | Broken

  // --- Is a range available? ---

  datatype Ordering = Less | Equal | Greater

  predicate ContainedIn(range: Range, remote: Range) {
    range.start >= remote.start && range.end <= remote.end
  }

  function Compare(remote: Range, range: Range): Ordering {
    if ContainedIn(range, remote) then Equal
    else if range.end < remote.start then Greater
    else Less
  }

  /** `binary_search_by` of the standard library, on the positions from base on. */
  function Search(remotes: seq<Range>, range: Range, base: nat, size: nat): (found: bool)
    requires 0 < size && base + size <= |remotes|
    ensures found ==> exists r :: r in remotes && ContainedIn(range, r)
    decreases size
  {
    if size == 1 then Compare(remotes[base], range).Equal?
    else
      var half := size / 2;
      if Compare(remotes[base + half], range).Greater? then Search(remotes, range, base, size - half)
      else Search(remotes, range, base + half, size - half)
  }

  /** Some remote range contains the range. */
  ghost predicate Available(remotes: seq<Range>, range: Range) {
    exists r :: r in remotes && ContainedIn(range, r)
  }

  /** The order that is checked before the search: by start, then by end. It allows overlaps. */
  predicate SortedByKey(rs: seq<Range>) {
    forall i, j | 0 <= i && j == i + 1 < |rs| :: KeyLe(rs[i], rs[j])
  }

  /** The order that is checked: by start, and by end among ranges with the same start. */
  lemma {:induction false} SortedAre(rs: seq<Range>)
    ensures SortedByKey(rs) <==>
              forall i, j | 0 <= i < j < |rs| ::
                rs[i].start < rs[j].start || (rs[i].start == rs[j].start && rs[i].end <= rs[j].end)
  {
    if SortedByKey(rs) {
      forall i, j | 0 <= i < j < |rs|
        ensures rs[i].start < rs[j].start || (rs[i].start == rs[j].start && rs[i].end <= rs[j].end)
      {
        SortedPairs(rs, i, j);
      }
    }
  }

  lemma {:induction false} SortedPairs(rs: seq<Range>, i: nat, j: nat)
    requires SortedByKey(rs) && i <= j < |rs|
    ensures KeyLe(rs[i], rs[j])
    decreases j
  {
    if i < j { SortedPairs(rs, i, j - 1); }
  }

  /** Range k is the last one that starts at or before the end of the given range. */
  predicate IsLastStarted(rs: seq<Range>, range: Range, k: nat) {
    && k < |rs| && rs[k].start <= range.end
    && forall m | k < m < |rs| :: rs[m].start > range.end
  }

  /** On sorted ranges, empty ones included, the search looks at exactly one range: the last one that
    * starts at or before the end of the given range. */
  lemma {:induction false} SearchLooksAtLast(rs: seq<Range>, range: Range, base: nat, size: nat, k: nat)
    requires 0 < size && base <= k < base + size <= |rs|
    requires SortedByKey(rs) && range.start <= range.end && IsLastStarted(rs, range, k)
    ensures Search(rs, range, base, size) <==> ContainedIn(range, rs[k])
    decreases size
  {
    if size > 1 {
      var half := size / 2;
      var mid := base + half;
      if rs[mid].start > range.end {
        if mid <= k { SortedPairs(rs, mid, k); }
        SearchLooksAtLast(rs, range, base, size - half, k);
      } else {
        SearchLooksAtLast(rs, range, mid, size - half, k);
      }
    }
  }

  lemma {:induction false} SearchLooksAtNone(rs: seq<Range>, range: Range, base: nat, size: nat)
    requires 0 < size && base + size <= |rs| && range.start <= range.end
    requires forall m | 0 <= m < |rs| :: rs[m].start > range.end
    ensures !Search(rs, range, base, size)
    decreases size
  {
    if size > 1 {
      SearchLooksAtNone(rs, range, base, size - size / 2);
    }
  }

  lemma {:induction false} LastStarted(rs: seq<Range>, range: Range, n: nat) returns (k: int)
    requires n <= |rs| && forall m | n <= m < |rs| :: rs[m].start > range.end
    ensures k == -1 ==> forall m | 0 <= m < |rs| :: rs[m].start > range.end
    ensures k != -1 ==> k >= 0 && IsLastStarted(rs, range, k)
  {
    if n == 0 {
      k := -1;
    } else if rs[n - 1].start <= range.end {
      k := n - 1;
    } else {
      k := LastStarted(rs, range, n - 1);
    }
  }

  /** No range reaches into one that starts later. */
  predicate NothingHidden(rs: seq<Range>) {
    forall i, j | 0 <= i < j < |rs| && rs[i].start <= rs[i].end ::
      rs[i].end < rs[j].start || rs[i].start == rs[j].start
  }

  /** The search decides whether a range is available. */
  ghost predicate SearchDecides(rs: seq<Range>, range: Range)
    requires rs != []
  {
    Search(rs, range, 0, |rs|) <==> Available(rs, range)
  }

  lemma {:induction false} SearchDecidesIfNothingHidden(rs: seq<Range>, range: Range)
    requires rs != [] && SortedByKey(rs) && NothingHidden(rs) && range.start <= range.end
    ensures SearchDecides(rs, range)
  {
    var k := LastStarted(rs, range, |rs|);
    if k == -1 {
      SearchLooksAtNone(rs, range, 0, |rs|);
    } else {
      SearchLooksAtLast(rs, range, 0, |rs|, k);
      assert rs[k] in rs;
      if r :| r in rs && ContainedIn(range, r) {
        var i :| 0 <= i < |rs| && rs[i] == r;
        SortedPairs(rs, i, k);
      }
    }
  }

  /** A range that reaches into a later one hides the part up to there. */
  lemma {:induction false} HiddenBehind(rs: seq<Range>, i: nat, j: nat)
    requires SortedByKey(rs) && i < j < |rs| && rs[i].start <= rs[i].end
    requires !(rs[i].end < rs[j].start || rs[i].start == rs[j].start)
    ensures rs[i].start <= rs[j].start && Available(rs, Range(rs[i].start, rs[j].start))
    ensures !Search(rs, Range(rs[i].start, rs[j].start), 0, |rs|)
  {
    SortedPairs(rs, i, j);
    var hidden := Range(rs[i].start, rs[j].start);
    assert rs[i] in rs && ContainedIn(hidden, rs[i]);
    var k := LastStarted(rs, hidden, |rs|);
    assert rs[j].start <= hidden.end;
    assert j <= k;
    SortedPairs(rs, j, k);
    SearchLooksAtLast(rs, hidden, 0, |rs|, k);
  }

  /** For ranges in the order that is checked, the search finds exactly what is available, whatever
    * range is asked for, if and only if no range reaches into one that starts later. */
  lemma {:induction false} SearchIsExact(rs: seq<Range>)
    requires rs != [] && SortedByKey(rs)
    ensures NothingHidden(rs) <==> forall range: Range | range.start <= range.end :: SearchDecides(rs, range)
  {
    if NothingHidden(rs) {
      forall range: Range | range.start <= range.end
        ensures SearchDecides(rs, range)
      {
        SearchDecidesIfNothingHidden(rs, range);
      }
    } else {
      var i, j :| 0 <= i < j < |rs| && rs[i].start <= rs[i].end
                  && !(rs[i].end < rs[j].start || rs[i].start == rs[j].start);
      HiddenBehind(rs, i, j);
      assert !SearchDecides(rs, Range(rs[i].start, rs[j].start));
    }
  }

  /** A witness: 5 to 6 lies within 0 to 9, but the search looks at 1 to 2. */
  lemma OverlapsCanHide()
    ensures var rs, range := [Range(0, 9), Range(1, 2)], Range(5, 6);
            SortedByKey(rs) && !NothingHidden(rs) && Available(rs, range) && !Search(rs, range, 0, |rs|)
  {
    var rs, range := [Range(0, 9), Range(1, 2)], Range(5, 6);
    assert rs[0] in rs && ContainedIn(range, rs[0]);
    assert !Search(rs, range, 1, 1);
  }

  method BinarySearchBy(remotes: seq<Range>, range: Range) returns (found: bool)
    ensures found == (remotes != [] && Search(remotes, range, 0, |remotes|))
  {
    var size := |remotes|;
    if size == 0 {
      return false;
    }
    var base := 0;
    while size > 1
      invariant 0 < size && 0 <= base && base + size <= |remotes|
      invariant Search(remotes, range, base, size) == Search(remotes, range, 0, |remotes|)
    {
      var half := size / 2;
      var mid := base + half;
      if !Compare(remotes[mid], range).Greater? {
        base := mid;
      }
      size := size - half;
    }
    found := Compare(remotes[base], range).Equal?;
  }

  /** The check before fetching: each missing range must lie within one remote range. */
  method AllAvailable(remotes: seq<Range>, missing: seq<Range>) returns (ok: bool)
    requires remotes != []
    ensures ok <==> forall i | 0 <= i < |missing| :: Search(remotes, missing[i], 0, |remotes|)
    ensures ok ==> forall i | 0 <= i < |missing| :: Available(remotes, missing[i])
  {
    var i := 0;
    while i < |missing|
      invariant 0 <= i <= |missing|
      invariant forall j | 0 <= j < i :: Search(remotes, missing[j], 0, |remotes|)
    {
      var found := BinarySearchBy(remotes, missing[i]);
      if !found {
        return false;
      }
      i := i + 1;
    }
    ok := true;
  }

  // --- Fetching ---

  /** What the server answers to a request for a range. */
  type Server = Range -> seq<Reply>

  /** The server sent this under the number n, in answer to some request. */
  ghost predicate Received(server: Server, n: BlockNo, data: Data) {
    exists range :: Sent(n, data) in server(range)
  }

  /** u64 subtraction, as compiled without overflow checks. */
  function WrappingMinusOne(n: nat): nat { if n == 0 then Bytes.U64_MAX else n - 1 }

  /** The answer to a request: each block of the range, in order, and nothing else. */
  predicate InOrder(range: Range, stream: seq<Reply>) {
    && |stream| == range.end - range.start + 1
    && forall i | 0 <= i < |stream| :: stream[i].Sent? && stream[i].number == range.start + i
  }

  /** All ranges are found in the remote ones, and the server answers each request in order. */
  ghost predicate CanFetch(remotes: seq<Range>, server: Server, missing: seq<Range>)
    requires remotes != []
  {
    && (forall i | 0 <= i < |missing| :: Search(remotes, missing[i], 0, |remotes|))
    && (forall i | 0 <= i < |missing| :: InOrder(missing[i], server(missing[i])))
  }

  /** All ranges are available, and the server answers each request in order. */
  ghost predicate Obtainable(remotes: seq<Range>, server: Server, missing: seq<Range>) {
    forall i | 0 <= i < |missing| :: Available(remotes, missing[i]) && InOrder(missing[i], server(missing[i]))
  }

  ghost predicate Succeeds(remotes: Option<seq<Range>>, from: Option<BlockNo>, to: Option<BlockNo>, server: Server,
                           had: set<BlockNo>)
  {
    && remotes.Some? && remotes.value != [] && SortedByKey(remotes.value)
    && var wanted := Bounds(remotes.value, from, to);
    && wanted.start <= wanted.end
    && CanFetch(remotes.value, server, NormalForm(Numbers(wanted) - had))
  }

  /** What fetching should succeed for: the missing ranges are on offer, and the server sends them. */
  ghost predicate Supplied(remotes: seq<Range>, from: Option<BlockNo>, to: Option<BlockNo>, server: Server,
                           had: set<BlockNo>)
    requires remotes != []
  {
    && SortedByKey(remotes)
    && var wanted := Bounds(remotes, from, to);
    && wanted.start <= wanted.end
    && Obtainable(remotes, server, NormalForm(Numbers(wanted) - had))
  }

  /** If nothing is hidden, fetching succeeds exactly if it is supplied. */
  lemma {:induction false} SucceedsIfSupplied(remotes: seq<Range>, from: Option<BlockNo>, to: Option<BlockNo>,
                                              server: Server, had: set<BlockNo>)
    requires remotes != []
    ensures Succeeds(Some(remotes), from, to, server, had) ==> Supplied(remotes, from, to, server, had)
    ensures NothingHidden(remotes) ==>
              (Succeeds(Some(remotes), from, to, server, had) <==> Supplied(remotes, from, to, server, had))
  {
    var missing := NormalForm(Numbers(Bounds(remotes, from, to)) - had);
    if SortedByKey(remotes) && NothingHidden(remotes) {
      forall i | 0 <= i < |missing|
        ensures SearchDecides(remotes, missing[i])
      {
        SearchDecidesIfNothingHidden(remotes, missing[i]);
      }
    }
  }

  /** The server answers each request with the blocks asked for. */
  ghost predicate Honest(server: Server, data: BlockNo -> Data) {
    forall r: Range | r.start <= r.end ::
      |server(r)| == r.end - r.start + 1
      && forall i | 0 <= i < |server(r)| :: server(r)[i] == Sent(r.start + i, data(r.start + i))
  }

  /** From an honest server that has all blocks from `first` to `last`, any part of these is fetched, whatever
    * is stored already. */
  lemma {:induction false} HonestServerSupplies(first: BlockNo, last: BlockNo, from: Option<BlockNo>,
                                                to: Option<BlockNo>, server: Server, data: BlockNo -> Data,
                                                had: set<BlockNo>)
    requires Honest(server, data)
    requires (if from.None? then 0 else from.value) <= (if to.None? then last else to.value)
    requires first <= (if from.None? then 0 else from.value) && (if to.None? then last else to.value) <= last
    ensures Succeeds(Some([Range(first, last)]), from, to, server, had)
  {
    var remotes := [Range(first, last)];
    var wanted := Bounds(remotes, from, to);
    var missing := NormalForm(Numbers(wanted) - had);
    forall i | 0 <= i < |missing|
      ensures Available(remotes, missing[i]) && InOrder(missing[i], server(missing[i]))
    {
      WithinWanted(wanted, missing, i);
      assert remotes[0] in remotes && ContainedIn(missing[i], remotes[0]);
    }
    SucceedsIfSupplied(remotes, from, to, server, had);
  }

  lemma {:induction false} WithinWanted(wanted: Range, missing: seq<Range>, i: nat)
    requires Canonical(missing) && i < |missing| && Cover(missing) <= Numbers(wanted)
    ensures wanted.start <= missing[i].start <= missing[i].end <= wanted.end
  {
    CoverAt(missing, i);
    assert missing[i].start in Numbers(missing[i]) && missing[i].end in Numbers(missing[i]);
    assert missing[i].start in Numbers(wanted) && missing[i].end in Numbers(wanted);
  }

  /** If something is hidden, there is an available range that fetching refuses, whatever the server. */
  lemma {:induction false} HiddenIsRefused(remotes: seq<Range>)
    requires remotes != [] && SortedByKey(remotes) && !NothingHidden(remotes)
    ensures exists range: Range :: range.start <= range.end && Available(remotes, range) && Refused(remotes, range)
  {
    SearchIsExact(remotes);
    var range: Range :| range.start <= range.end && !SearchDecides(remotes, range);
    forall server: Server
      ensures !Succeeds(Some(remotes), Some(range.start), Some(range.end), server, {})
    {
      CoverOne(range);
      CanonicalIsNormalForm([range]);
      assert Numbers(range) - {} == Numbers(range);
      assert [range][0] == range;
    }
  }

  /** Fetching the range into an empty database fails for every server. */
  ghost predicate Refused(remotes: seq<Range>, range: Range)
    requires remotes != []
  {
    forall server: Server :: !Succeeds(Some(remotes), Some(range.start), Some(range.end), server, {})
  }

  class LocalBlocks {
    var blocks: map<BlockNo, Data>

    constructor (blocks: map<BlockNo, Data>)
      ensures this.blocks == blocks
    {
      this.blocks := blocks;
    }

    /** `fetch`: on success exactly the blocks of the range are added, all of them offered by the server.
      * Even on failure a block that changed was sent by the server under its number. */
    method Fetch(remotes: Option<seq<Range>>, from: Option<BlockNo>, to: Option<BlockNo>, server: Server,
                 locals: seq<Range>)
      returns (ok: bool)
      requires locals == NormalForm(blocks.Keys)
      modifies this
      ensures Sourced(server, old(blocks), blocks)
      ensures ok <==> Succeeds(remotes, from, to, server, old(blocks).Keys)
      ensures remotes.Some? && remotes.value != [] && NothingHidden(remotes.value) ==>
                (ok <==> Supplied(remotes.value, from, to, server, old(blocks).Keys))
      ensures ok ==>
                && remotes.Some? && remotes.value != [] && SortedByKey(remotes.value)
                && var wanted := Bounds(remotes.value, from, to);
                && wanted.start <= wanted.end
                && Filled(remotes.value, wanted, old(blocks), blocks)
    {
      if remotes.None? || remotes.value == [] {
        return false;
      }
      SucceedsIfSupplied(remotes.value, from, to, server, blocks.Keys);
      var sorted := IsSortedByKey(remotes.value);
      if !sorted {
        return false;
      }
      var wanted := Bounds(remotes.value, from, to);
      if wanted.start > wanted.end {
        return false;
      }
      ok := FetchMissing(remotes.value, wanted, server, locals);
    }

    method FetchMissing(remotes: seq<Range>, wanted: Range, server: Server, locals: seq<Range>) returns (ok: bool)
      requires locals == NormalForm(blocks.Keys) && remotes != [] && wanted.start <= wanted.end
      modifies this
      ensures Sourced(server, old(blocks), blocks)
      ensures ok <==> CanFetch(remotes, server, NormalForm(Numbers(wanted) - old(blocks).Keys))
      ensures ok ==> Filled(remotes, wanted, old(blocks), blocks)
    {
      var missing := SubtractRanges(wanted, locals);
      Missing(wanted, locals, missing, blocks.Keys);
      ok := true;
      if missing != [] {
        ok := FetchListed(remotes, missing, server);
      }
      if ok {
        FilledBy(remotes, wanted, missing, old(blocks), blocks);
      }
    }

    method FetchListed(remotes: seq<Range>, missing: seq<Range>, server: Server) returns (ok: bool)
      requires Cover(missing) !! blocks.Keys && Canonical(missing) && remotes != []
      modifies this
      ensures ok <==> CanFetch(remotes, server, missing)
      ensures Sourced(server, old(blocks), blocks)
      ensures ok ==> blocks.Keys == old(blocks).Keys + Cover(missing)
      ensures ok ==> forall n | n in old(blocks) :: blocks[n] == old(blocks)[n]
      ensures ok ==> forall i | 0 <= i < |missing| :: Available(remotes, missing[i])
    {
      ok := AllAvailable(remotes, missing);
      if ok {
        ok := FetchAll(missing, server);
      }
    }

    method FetchAll(missing: seq<Range>, server: Server) returns (ok: bool)
      requires Cover(missing) !! blocks.Keys && Canonical(missing)
      modifies this
      ensures ok <==> forall i | 0 <= i < |missing| :: InOrder(missing[i], server(missing[i]))
      ensures Sourced(server, old(blocks), blocks)
      ensures ok ==> blocks.Keys == old(blocks).Keys + Cover(missing)
      ensures ok ==> forall n | n in old(blocks) :: blocks[n] == old(blocks)[n]
    {
      var i := 0;
      while i < |missing|
        invariant 0 <= i <= |missing|
        invariant blocks.Keys == old(blocks).Keys + Cover(missing[..i])
        invariant Sourced(server, old(blocks), blocks)
        invariant forall n | n in old(blocks) :: blocks[n] == old(blocks)[n]
        invariant forall j | 0 <= j < i :: InOrder(missing[j], server(missing[j]))
      {
        ghost var before := blocks;
        ok := FetchRange(missing[i], server);
        SourcedTwice(server, old(blocks), before, blocks);
        if !ok {
          return;
        }
        OneMoreRange(missing, i);
        OnlyMissing(missing, i, old(blocks).Keys);
        i := i + 1;
      }
      assert missing[..i] == missing;
      ok := true;
    }

    /** One request: the blocks must come in order, none left out. */
    method FetchRange(range: Range, server: Server) returns (ok: bool)
      modifies this
      ensures range.start <= range.end ==> (ok <==> InOrder(range, server(range)))
      ensures ok ==> blocks.Keys == old(blocks).Keys + Numbers(range)
      ensures ok ==> forall n | n in old(blocks) && !Holds(range, n) :: blocks[n] == old(blocks)[n]
      ensures Sourced(server, old(blocks), blocks)
    {
      var stream := server(range);
      var expected: nat := range.start;
      var i := 0;
      while i < |stream|
        invariant 0 <= i <= |stream| && expected == range.start + i
        invariant expected <= Bytes.U64_MAX
        invariant forall j | 0 <= j < i :: stream[j].Sent? && stream[j].number == range.start + j
        invariant forall n: BlockNo :: n in blocks <==> n in old(blocks) || range.start <= n < expected
        invariant forall n | n in old(blocks) && !(range.start <= n < expected) :: blocks[n] == old(blocks)[n]
        invariant Sourced(server, old(blocks), blocks)
      {
        if stream[i].Broken? || stream[i].number != expected {
          return false;
        }
        assert stream[i] == Sent(stream[i].number, stream[i].data) && stream[i] in server(range);
        ghost var before := blocks;
        blocks := blocks[stream[i].number := stream[i].data];
        OneMoreReceived(server, old(blocks), before, stream[i].number, stream[i].data, range);
        expected := expected + 1;
        i := i + 1;
      }
      ok := WrappingMinusOne(expected) == range.end;
    }
  }

  /** The range asked for: by default from block 0 to the end of the last remote range. */
  function Bounds(remotes: seq<Range>, from: Option<BlockNo>, to: Option<BlockNo>): Range
    requires remotes != []
  {
    Range(if from.Some? then from.value else 0, if to.Some? then to.value else remotes[|remotes| - 1].end)
  }

  /** Every block is the old one or was sent by the server under its number. */
  ghost predicate Sourced(server: Server, before: map<BlockNo, Data>, now: map<BlockNo, Data>) {
    && before.Keys <= now.Keys
    && forall n | n in now :: (n in before && now[n] == before[n]) || Received(server, n, now[n])
  }

  /** The wanted blocks were added, as far as they were missing, and those were offered. */
  ghost predicate Filled(remotes: seq<Range>, wanted: Range, before: map<BlockNo, Data>, now: map<BlockNo, Data>) {
    && now.Keys == before.Keys + Numbers(wanted)
    && (forall n | n in before :: now[n] == before[n])
    && forall n | n in Numbers(wanted) && n !in before :: Offered(remotes, n)
  }

  /** By default from block 0 on, and up to the end of the last remote range. */
  lemma {:induction false} FilledBlocks(remotes: seq<Range>, from: Option<BlockNo>, to: Option<BlockNo>,
                                        before: map<BlockNo, Data>, now: map<BlockNo, Data>, n: BlockNo)
    requires remotes != [] && Filled(remotes, Bounds(remotes, from, to), before, now)
    ensures n in now <==>
              || n in before
              || ((from.None? || from.value <= n)
                  && if to.None? then n <= remotes[|remotes| - 1].end else n <= to.value)
    ensures n in before ==> now[n] == before[n]
  {
    assert n in Numbers(Bounds(remotes, from, to))
           <==> Bounds(remotes, from, to).start <= n <= Bounds(remotes, from, to).end;
    assert n in now <==> n in now.Keys;
  }

  lemma {:induction false} Missing(wanted: Range, locals: seq<Range>, missing: seq<Range>, had: set<BlockNo>)
    requires locals == NormalForm(had) && wanted.start <= wanted.end
    requires (forall r | r in locals :: r.start <= r.end) ==> missing == NormalForm(Numbers(wanted) - Cover(locals))
    ensures missing == NormalForm(Numbers(wanted) - had) && Canonical(missing)
    ensures Cover(missing) == Numbers(wanted) - had
    ensures Cover(missing) !! had
  {
  }

  lemma {:induction false} FilledBy(remotes: seq<Range>, wanted: Range, missing: seq<Range>,
                                    before: map<BlockNo, Data>, now: map<BlockNo, Data>)
    requires Cover(missing) == Numbers(wanted) - before.Keys
    requires forall i | 0 <= i < |missing| :: Available(remotes, missing[i])
    requires now.Keys == before.Keys + Cover(missing)
    requires forall n | n in before :: now[n] == before[n]
    ensures Filled(remotes, wanted, before, now)
  {
    AvailableOneByOne(remotes, missing);
    assert forall n | n in Numbers(wanted) && n !in before :: n in Cover(missing);
  }

  lemma SourcedTwice(server: Server, a: map<BlockNo, Data>, b: map<BlockNo, Data>, c: map<BlockNo, Data>)
    requires Sourced(server, a, b) && Sourced(server, b, c)
    ensures Sourced(server, a, c)
  {
  }

  lemma OneMoreReceived(server: Server, a: map<BlockNo, Data>, b: map<BlockNo, Data>, n: BlockNo, data: Data,
                        range: Range)
    requires Sourced(server, a, b) && Sent(n, data) in server(range)
    ensures Sourced(server, a, b[n := data])
  {
    assert Received(server, n, data);
  }

  method IsSortedByKey(rs: seq<Range>) returns (sorted: bool)
    ensures sorted <==> SortedByKey(rs)
  {
    var i := 0;
    while i + 1 < |rs|
      invariant 0 <= i && (|rs| > 0 ==> i < |rs|)
      invariant forall j, k | 0 <= j && k == j + 1 <= i && k < |rs| :: KeyLe(rs[j], rs[k])
    {
      if !KeyLe(rs[i], rs[i + 1]) {
        return false;
      }
      i := i + 1;
    }
    sorted := true;
  }

  lemma OneMoreRange(missing: seq<Range>, i: nat)
    requires i < |missing|
    ensures Cover(missing[..i + 1]) == Cover(missing[..i]) + Numbers(missing[i])
  {
    assert missing[..i + 1] == missing[..i] + [missing[i]];
    CoverConcat(missing[..i], [missing[i]]);
    CoverOne(missing[i]);
  }

  /** Fetching a missing range touches no block that was there. */
  lemma OnlyMissing(missing: seq<Range>, i: nat, had: set<BlockNo>)
    requires i < |missing| && Cover(missing) !! had
    ensures forall n: BlockNo | n in had :: !Holds(missing[i], n)
  {
    assert missing[i] in missing;
    assert forall n: BlockNo | Holds(missing[i], n) :: n in Cover(missing);
  }

  lemma {:induction false} AvailableOneByOne(remotes: seq<Range>, missing: seq<Range>)
    requires forall i | 0 <= i < |missing| :: Available(remotes, missing[i])
    ensures forall n | n in Cover(missing) :: Offered(remotes, n)
  {
    forall n | n in Cover(missing)
      ensures Offered(remotes, n)
    {
      var m :| m in missing && Holds(m, n);
      var r :| r in remotes && ContainedIn(m, r);
      Contained(m, r, n);
    }
  }

  ghost predicate Offered(remotes: seq<Range>, n: BlockNo) {
    exists r :: r in remotes && Holds(r, n)
  }

  lemma Contained(range: Range, remote: Range, n: BlockNo)
    requires ContainedIn(range, remote) && Holds(range, n)
    ensures Holds(remote, n)
  {
  }
}
