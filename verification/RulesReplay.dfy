/** Replaying blocks over the rules store (go/replay/metadata.go, go/replay/replay.go): loading the
  * stored heights, applying blocks, and what a second replay sees of the first. */
module RulesReplay {
  import opened Options
  import opened RulesStore

  // --- Loading ---

  /** The table that a store opened on stored heights starts from. */
  function Reloaded(stored: Option<seq<Height>>, genesis: Rules): map<nat, Rules> {
    Table(if stored.Some? then stored.value else [])[0 := genesis]
  }

  function Given(stored: Option<seq<Height>>): seq<Height> { if stored.Some? then stored.value else [] }

  predicate HasGenesis(hs: seq<Height>) {
    exists h :: h in hs && h.block == 0
  }

  /** There are genesis rules other than the given ones. */
  predicate OtherGenesis(hs: seq<Height>, genesis: Rules) {
    exists h :: h in hs && h.block == 0 && h.rules != genesis
  }

  /** `slices.SortFunc`, which is not stable: in which order heights of one block end up is left open. */
  method SortHeights(hs: seq<Height>) returns (sorted: seq<Height>)
    ensures NonDescending(sorted) && multiset(sorted) == multiset(hs)
  {
    SortKeepsAll(hs);
    sorted := SortByBlock(hs);
  }

  /** `NewBlockDBMetadataStore`, on heights that were read and parsed: sorted, with the genesis rules at
    * block 0. Stored genesis rules other than the given ones are refused; if several heights are stored
    * for block 0, the sorting decides which one is compared. */
  method LoadHeights(stored: Option<seq<Height>>, genesis: Rules) returns (loaded: Option<seq<Height>>)
    ensures loaded.None? ==> OtherGenesis(Given(stored), genesis)
    ensures loaded.Some? ==>
              && loaded.value != [] && loaded.value[0] == Height(0, genesis) && NonDescending(loaded.value)
              && multiset(loaded.value)
                 == multiset(Given(stored))
                    + (if HasGenesis(Given(stored)) then multiset{} else multiset{Height(0, genesis)})
    ensures Distinct(Given(stored)) ==>
              && (loaded.None? <==> OtherGenesis(Given(stored), genesis))
              && (loaded.Some? ==> Ascending(loaded.value) && Table(loaded.value) == Reloaded(stored, genesis))
  {
    var heights := SortHeights(Given(stored));
    ghost var sorted := heights;
    FirstIsGenesis(Given(stored), heights);
    if |heights| > 0 && heights[0].block == 0 {
      if heights[0].rules != genesis {
        assert heights[0] in Given(stored);
        return None;
      }
      assert heights[0] == Height(0, genesis);
    } else {
      heights := [Height(0, genesis)] + heights;
    }
    assert multiset(heights) == multiset(Given(stored)) || heights[1..] == sorted;
    if Distinct(Given(stored)) {
      LoadedTable(Given(stored), genesis, heights);
    }
    loaded := Some(heights);
  }

  lemma {:induction false} FirstIsGenesis(hs: seq<Height>, sorted: seq<Height>)
    requires NonDescending(sorted) && multiset(sorted) == multiset(hs)
    ensures forall h :: h in sorted <==> h in hs
    ensures HasGenesis(hs) <==> |sorted| > 0 && sorted[0].block == 0
  {
    SameHeights(sorted, hs);
    if h :| h in hs && h.block == 0 {
      assert h in sorted;
    }
    if |sorted| > 0 && sorted[0].block == 0 {
      assert sorted[0] in hs;
    }
  }

  lemma {:induction false} DistinctKept(hs: seq<Height>, sorted: seq<Height>)
    requires Distinct(hs) && NonDescending(sorted) && multiset(sorted) == multiset(hs)
    ensures Ascending(sorted)
  {
    forall i, j | 0 <= i < j < |sorted|
      ensures sorted[i].block != sorted[j].block
    {
      if sorted[i].block == sorted[j].block {
        TwoInMultiset(sorted, i, j);
        OneOfEach(hs, sorted[i], sorted[j]);
      }
    }
  }

  lemma {:induction false} TwoInMultiset(hs: seq<Height>, i: nat, j: nat)
    requires i < j < |hs|
    ensures hs[i] in multiset(hs) && hs[j] in multiset(hs)
    ensures hs[i] == hs[j] ==> multiset(hs)[hs[i]] >= 2
  {
    assert hs == hs[..j] + [hs[j]] + hs[j + 1..];
    assert hs[i] == hs[..j][i] && hs[i] in multiset(hs[..j]);
  }

  /** Heights with distinct blocks hold each height once, and one height a block. */
  lemma {:induction false} OneOfEach(hs: seq<Height>, x: Height, y: Height)
    requires Distinct(hs) && x in hs && y in hs && x.block == y.block
    ensures x == y && multiset(hs)[x] == 1
  {
    var init, last := hs[..|hs| - 1], hs[|hs| - 1];
    assert hs == init + [last];
    if x in init && y in init {
      assert last.block != x.block;
      OneOfEach(init, x, y);
    } else {
      assert x == last == y;
      assert last !in multiset(init);
    }
  }

  lemma {:induction false} LoadedTable(given: seq<Height>, genesis: Rules, heights: seq<Height>)
    requires Distinct(given) && NonDescending(heights) && heights != [] && heights[0] == Height(0, genesis)
    requires || multiset(heights) == multiset(given)
             || (multiset(heights[1..]) == multiset(given) && !HasGenesis(given))
    ensures Ascending(heights) && Table(heights) == Table(given)[0 := genesis]
    ensures !OtherGenesis(given, genesis)
  {
    if multiset(heights) == multiset(given) {
      DistinctKept(given, heights);
      SameHeights(given, heights);
    } else {
      DistinctKept(given, heights[1..]);
      SameHeights(given, heights[1..]);
      GenesisInFront(given, heights);
    }
    assert heights[0] in heights;
    assert Ascending(heights) && forall h | h in given && h.block == 0 :: h == heights[0] by {
      TableKeys(heights);
    }
    SameTable(given, Height(0, genesis), heights);
  }

  lemma {:induction false} SameHeights(a: seq<Height>, b: seq<Height>)
    requires multiset(a) == multiset(b)
    ensures forall h :: h in a <==> h in b
  {
    forall h
      ensures h in a <==> h in b
    {
      assert h in multiset(a) <==> h in multiset(b);
    }
  }

  lemma {:induction false} GenesisInFront(given: seq<Height>, heights: seq<Height>)
    requires heights != [] && heights[0].block == 0 && Ascending(heights[1..])
    requires forall h :: h in given <==> h in heights[1..]
    requires !HasGenesis(given)
    ensures Ascending(heights) && forall h :: h in heights <==> h == heights[0] || h in given
  {
    assert heights == [heights[0]] + heights[1..];
    forall i | 0 < i < |heights|
      ensures heights[i].block > 0
    {
      assert heights[i] == heights[1..][i - 1] && heights[i] in given;
    }
  }

  // --- Runs over consecutive blocks ---

  datatype RunState = RunState(table: map<nat, Rules>, next: Option<Rules>, execution: Execution)

  function PatchAll(spec: ChainSpec, table: map<nat, Rules>, next: Option<Rules>, b: nat,
                    diffs: seq<Diff>): Option<Rules>
    requires 0 in table
  {
    if diffs == [] then next
    else Patched(spec, table, PatchAll(spec, table, next, b, diffs[..|diffs| - 1]), b, diffs[|diffs| - 1])
  }

  /** `ApplyBlock`, as far as the rules are concerned: an epoch-sealing block first commits what is
    * pending, then the logs of the block patch the rules. Block 0 is skipped. */
  function RunBlock(spec: ChainSpec, s: RunState, b: nat): (r: Option<RunState>)
    requires 0 in s.table
    ensures r.Some? ==> 0 in r.value.table
    ensures b == 0 ==> r == Some(s)
  {
    if b == 0 then Some(s)
    else
      var table := if spec.sealsEpoch(b) then Committed(s.table, s.next, b) else Some(s.table);
      if table.None? then None
      else
        var next := if spec.sealsEpoch(b) then None else s.next;
        var (execution, diffs) := spec.execute(s.execution, b, UpTo(table.value, b));
        Some(RunState(table.value, PatchAll(spec, table.value, next, b, diffs), execution))
  }

  /** The state after n blocks from the first on, or None if one of them failed. */
  function Run(spec: ChainSpec, s: RunState, first: nat, n: nat): (r: Option<RunState>)
    requires 0 in s.table
    ensures r.Some? ==> 0 in r.value.table
  {
    if n == 0 then Some(s)
    else match Run(spec, s, first, n - 1)
      case None => None
      case Some(before) => RunBlock(spec, before, first + n - 1)
  }

  predicate Extends(small: map<nat, Rules>, big: map<nat, Rules>) {
    forall k | k in small :: k in big && small[k] == big[k]
  }

  lemma {:induction false} EarlierSucceed(spec: ChainSpec, s: RunState, first: nat, m: nat, n: nat)
    requires 0 in s.table && m <= n && Run(spec, s, first, n).Some?
    ensures Run(spec, s, first, m).Some?
    decreases n
  {
    if m < n { EarlierSucceed(spec, s, first, m, n - 1); }
  }

  /** Table `after` has all of `before`, and no more of the heights up to b. */
  predicate GrowsAbove(before: map<nat, Rules>, after: map<nat, Rules>, b: nat) {
    Extends(before, after) && forall k | k in after && k <= b :: k in before
  }

  lemma GrowsAboveUpTo(before: map<nat, Rules>, after: map<nat, Rules>, b: nat)
    requires GrowsAbove(before, after, b)
    ensures UpTo(before, b) == UpTo(after, b)
  {
  }

  lemma GrowsFurther(a: map<nat, Rules>, b: map<nat, Rules>, c: map<nat, Rules>, at: nat)
    requires GrowsAbove(a, b, at) && GrowsAbove(b, c, at)
    ensures GrowsAbove(a, c, at)
  {
  }

  lemma {:induction false} OneBlockGrows(spec: ChainSpec, s: RunState, b: nat, at: nat)
    requires 0 in s.table && RunBlock(spec, s, b).Some? && at <= b
    ensures GrowsAbove(s.table, RunBlock(spec, s, b).value.table, at)
  {
    var after := RunBlock(spec, s, b).value.table;
    assert after == s.table || (b + 1 !in s.table && after == s.table[b + 1 := after[b + 1]]);
  }

  /** A run only adds heights, and from block m on only heights above block m. */
  lemma {:induction false} LaterHeights(spec: ChainSpec, s: RunState, first: nat, m: nat, n: nat)
    requires 0 in s.table && m <= n && Run(spec, s, first, n).Some?
    ensures Run(spec, s, first, m).Some?
    ensures GrowsAbove(Run(spec, s, first, m).value.table, Run(spec, s, first, n).value.table, first + m)
    decreases n
  {
    if m < n {
      EarlierSucceed(spec, s, first, m, n);
      EarlierSucceed(spec, s, first, n - 1, n);
      LaterHeights(spec, s, first, m, n - 1);
      var before := Run(spec, s, first, n - 1).value;
      OneBlockGrows(spec, before, first + n - 1, first + m);
      GrowsFurther(Run(spec, s, first, m).value.table, before.table, Run(spec, s, first, n).value.table, first + m);
    }
  }

  /** The first m of n blocks, over the heights that a run over all n blocks ends with. */
  lemma {:induction false} SameRun(spec: ChainSpec, s: RunState, first: nat, m: nat, n: nat, known: map<nat, Rules>)
    requires 0 in s.table && 0 in known && m <= n && Run(spec, s, first, n).Some?
    requires known == Run(spec, s, first, n).value.table
    ensures Run(spec, s, first, m).Some?
    ensures Run(spec, s.(table := known), first, m) == Some(Run(spec, s, first, m).value.(table := known))
    decreases m
  {
    EarlierSucceed(spec, s, first, m, n);
    if m > 0 {
      SameRun(spec, s, first, m - 1, n, known);
      NextBlock(spec, s, first, m, n, known);
    }
  }

  lemma NextBlock(spec: ChainSpec, s: RunState, first: nat, m: nat, n: nat, known: map<nat, Rules>)
    requires 0 in s.table && 0 in known && 0 < m <= n && Run(spec, s, first, n).Some?
    requires known == Run(spec, s, first, n).value.table
    ensures Run(spec, s, first, m - 1).Some? && Run(spec, s, first, m).Some?
    ensures RunBlock(spec, Run(spec, s, first, m - 1).value.(table := known), first + m - 1)
            == Some(Run(spec, s, first, m).value.(table := known))
  {
    LaterHeights(spec, s, first, m, n);
    LaterHeights(spec, s, first, m - 1, n);
    SameBlock(spec, Run(spec, s, first, m - 1).value, known, first + m - 1);
  }

  /** A second replay of the same blocks, over the heights that a replay without error left behind:
    * it goes without error too, adds no height, and at each block sees the rules, the pending update
    * and the chain state that the first one saw. */
  lemma SecondRun(spec: ChainSpec, table: map<nat, Rules>, execution: Execution, first: nat, n: nat, m: nat)
    requires 0 in table && m <= n && Run(spec, RunState(table, None, execution), first, n).Some?
    ensures Run(spec, RunState(table, None, execution), first, m).Some?
    ensures var once := Run(spec, RunState(table, None, execution), first, m).value;
            var known := Run(spec, RunState(table, None, execution), first, n).value.table;
            && 0 in known
            && Run(spec, RunState(known, None, execution), first, m)
               == Some(RunState(known, once.next, once.execution))
            && forall at: nat | at <= first + m :: RulesAt(known, at) == RulesAt(once.table, at)
  {
    var s := RunState(table, None, execution);
    LaterHeights(spec, s, first, m, n);
    SameRun(spec, s, first, m, n, Run(spec, s, first, n).value.table);
    GrowsAboveUpTo(Run(spec, s, first, m).value.table, Run(spec, s, first, n).value.table, first + m);
    SameRules(Run(spec, s, first, n).value.table, Run(spec, s, first, m).value.table, first + m);
  }

  lemma SameRules(t: map<nat, Rules>, u: map<nat, Rules>, b: nat)
    requires 0 in t && 0 in u && UpTo(t, b) == UpTo(u, b)
    ensures forall at: nat | at <= b :: RulesAt(t, at) == RulesAt(u, at)
  {
    forall at: nat | at <= b
      ensures RulesAt(t, at) == RulesAt(u, at)
    {
      UpToLess(t, u, b, at);
      RulesAtUpTo(t, u, at);
    }
  }

  lemma UpToLess(t: map<nat, Rules>, u: map<nat, Rules>, b: nat, at: nat)
    requires at <= b && UpTo(t, b) == UpTo(u, b)
    ensures UpTo(t, at) == UpTo(u, at)
  {
    forall k
      ensures k in UpTo(t, at) <==> k in UpTo(u, at)
      ensures k in UpTo(t, at) ==> t[k] == u[k]
    {
      assert k in UpTo(t, b) <==> k in UpTo(u, b);
      assert k in UpTo(t, b) ==> UpTo(t, b)[k] == UpTo(u, b)[k];
    }
  }

  /** One block, over its own heights and over all heights of the finished run. */
  lemma SameBlock(spec: ChainSpec, s: RunState, known: map<nat, Rules>, b: nat)
    requires 0 in s.table && 0 in known && RunBlock(spec, s, b).Some?
    requires Extends(RunBlock(spec, s, b).value.table, known) && GrowsAbove(s.table, known, b)
    ensures var after := RunBlock(spec, s, b).value;
            RunBlock(spec, s.(table := known), b) == Some(RunState(known, after.next, after.execution))
  {
    if b > 0 {
      var table := if spec.sealsEpoch(b) then Committed(s.table, s.next, b).value else s.table;
      var next := if spec.sealsEpoch(b) then None else s.next;
      assert GrowsAbove(s.table, table, b);
      GrowsAboveUpTo(s.table, table, b);
      GrowsAboveUpTo(s.table, known, b);
      var (execution, diffs) := spec.execute(s.execution, b, UpTo(table, b));
      SamePatches(spec, table, known, next, b, diffs);
    }
  }

  lemma {:induction false} SamePatches(spec: ChainSpec, t: map<nat, Rules>, u: map<nat, Rules>, next: Option<Rules>,
                                       b: nat, diffs: seq<Diff>)
    requires 0 in t && 0 in u && UpTo(t, b) == UpTo(u, b)
    ensures PatchAll(spec, t, next, b, diffs) == PatchAll(spec, u, next, b, diffs)
  {
    if diffs != [] {
      SamePatches(spec, t, u, next, b, diffs[..|diffs| - 1]);
      RulesAtUpTo(t, u, b);
    }
  }

  // --- Epochs ---

  /** The updates in the logs of block b. */
  function Logs(spec: ChainSpec, s: RunState, b: nat): seq<Diff> {
    if b == 0 then [] else spec.execute(s.execution, b, UpTo(s.table, b)).1
  }

  /** The updates in the logs of n blocks, in their order. */
  function RunLogs(spec: ChainSpec, s: RunState, first: nat, n: nat): seq<Diff>
    requires 0 in s.table && Run(spec, s, first, n).Some?
  {
    if n == 0 then []
    else RunLogs(spec, s, first, n - 1) + Logs(spec, Run(spec, s, first, n - 1).value, first + n - 1)
  }

  /** The rules in force at n blocks from the first on. */
  predicate InForce(table: map<nat, Rules>, first: nat, n: nat, rules: Rules)
    requires 0 in table
  {
    forall b | first <= b < first + n :: RulesAt(table, b) == rules
  }

  /** The rules stay in force up to the next height. */
  lemma {:induction false} RulesStay(table: map<nat, Rules>, first: nat, n: nat)
    requires 0 in table && forall k | k in table :: k <= first || first + n <= k
    ensures InForce(table, first, n, RulesAt(table, first))
  {
    if n > 1 { RulesStay(table, first, n - 1); }
  }

  lemma {:induction false} PatchAllAccumulates(spec: ChainSpec, table: map<nat, Rules>, next: Option<Rules>, b: nat,
                                               diffs: seq<Diff>)
    requires 0 in table
    ensures var patched := PatchAll(spec, table, next, b, diffs);
            && Current(patched, RulesAt(table, b)) == Updated(spec, Current(next, RulesAt(table, b)), diffs)
            && (next.Some? ==> patched.Some?)
  {
    if diffs != [] {
      var init, last := diffs[..|diffs| - 1], diffs[|diffs| - 1];
      PatchAllAccumulates(spec, table, next, b, init);
      PatchAccumulates(spec, table, PatchAll(spec, table, next, b, init), b, last);
      UpdatedConcat(spec, Current(next, RulesAt(table, b)), init, [last]);
      assert diffs == init + [last];
    }
  }

  lemma {:induction false} BlockAccumulates(spec: ChainSpec, s: RunState, b: nat)
    requires 0 in s.table && !spec.sealsEpoch(b) && RunBlock(spec, s, b).Some?
    ensures var after, inForce := RunBlock(spec, s, b).value, RulesAt(s.table, b);
            && after.table == s.table
            && Current(after.next, inForce) == Updated(spec, Current(s.next, inForce), Logs(spec, s, b))
            && (s.next.Some? ==> after.next.Some?)
  {
    PatchAllAccumulates(spec, s.table, s.next, b, Logs(spec, s, b));
  }

  /** The updates of the blocks of an epoch are applied one after the other, to what is pending at its start or
    * else to the rules in force. */
  lemma {:induction false} EpochAccumulates(spec: ChainSpec, s: RunState, first: nat, n: nat, rules: Rules)
    requires 0 in s.table && Run(spec, s, first, n).Some? && InForce(s.table, first, n, rules)
    requires forall b | first <= b < first + n :: !spec.sealsEpoch(b)
    ensures var end := Run(spec, s, first, n).value;
            && end.table == s.table
            && Current(end.next, rules) == Updated(spec, Current(s.next, rules), RunLogs(spec, s, first, n))
            && (s.next.Some? ==> end.next.Some?)
  {
    if n > 0 {
      EarlierSucceed(spec, s, first, n - 1, n);
      EpochAccumulates(spec, s, first, n - 1, rules);
      var before, b := Run(spec, s, first, n - 1).value, first + n - 1;
      BlockAccumulates(spec, before, b);
      assert RulesAt(s.table, b) == rules;
      UpdatedConcat(spec, Current(s.next, rules), RunLogs(spec, s, first, n - 1), Logs(spec, before, b));
    }
  }

  /** What the sealing block at the end of an epoch puts into effect at the next block: all updates of the
    * epoch, one after the other. If they leave nothing to commit, nothing changes. */
  lemma {:induction false} EpochTakesEffect(spec: ChainSpec, s: RunState, first: nat, n: nat, rules: Rules)
    requires 0 in s.table && Run(spec, s, first, n).Some? && InForce(s.table, first, n + 1, rules)
    requires forall b | first <= b < first + n :: !spec.sealsEpoch(b)
    requires first + n > 0 && spec.sealsEpoch(first + n) && Run(spec, s, first, n + 1).Some?
    ensures var pending, after := Run(spec, s, first, n).value.next, Run(spec, s, first, n + 1).value;
            var updated := Updated(spec, Current(s.next, rules), RunLogs(spec, s, first, n));
            && (pending.Some? ==> RulesAt(after.table, first + n + 1) == updated)
            && (pending.None? ==> after.table == s.table && updated == rules)
            && RulesAt(after.table, first + n) == rules
  {
    EpochAccumulates(spec, s, first, n, rules);
    var end := Run(spec, s, first, n).value;
    assert RulesAt(s.table, first + n) == rules;
    CommitIsNotRetroactive(s.table, end.next, first + n, first + n);
    if end.next.Some? {
      CommitTakesEffect(s.table, end.next.value, first + n);
    }
  }

  /** Updates in the logs of the sealing block itself are for the next commit. They start from the rules that
    * are in force at this block, without those that it has just committed. */
  lemma {:induction false} SealingBlockPatches(spec: ChainSpec, s: RunState, b: nat)
    requires 0 in s.table && b > 0 && spec.sealsEpoch(b) && RunBlock(spec, s, b).Some?
    ensures var after := RunBlock(spec, s, b).value;
            Current(after.next, RulesAt(s.table, b)) == Updated(spec, RulesAt(s.table, b), Logs(spec, s, b))
  {
    var table := Committed(s.table, s.next, b).value;
    assert UpTo(table, b) == UpTo(s.table, b);
    CommitIsNotRetroactive(s.table, s.next, b, b);
    PatchAllAccumulates(spec, table, None, b, Logs(spec, s, b));
  }

  // --- The replay over the store ---

  /** Heights can be loaded over the genesis rules. */
  predicate Loadable(stored: Option<seq<Height>>, genesis: Rules) {
    Distinct(Given(stored)) && !OtherGenesis(Given(stored), genesis)
  }

  /** With writing enabled, what is stored reloads to the heights in memory. */
  ghost predicate Persisted(store: Store)
    requires store.Valid()
    reads store
  {
    && Loadable(store.stored, store.heights[0].rules)
    && (store.writeRulesUpdateHeights ==> Reloaded(store.stored, store.heights[0].rules) == store.TableNow())
  }

  lemma {:induction false} HeightsReload(heights: seq<Height>)
    requires heights != [] && heights[0].block == 0 && Ascending(heights)
    ensures Loadable(Some(heights), heights[0].rules)
    ensures Reloaded(Some(heights), heights[0].rules) == Table(heights)
  {
    TableKeys(heights);
    assert heights[0].block in Table(heights) && Table(heights)[0] == heights[0].rules;
  }

  /** Nothing is stored unless there are more heights. */
  predicate OnlyGrew(before: seq<Height>, storedBefore: Option<seq<Height>>, after: seq<Height>,
                     storedAfter: Option<seq<Height>>)
  {
    (after == before && storedAfter == storedBefore) || |after| > |before|
  }

  /** Applies n blocks over the store. */
  method Replay(store: Store, start: Execution, first: nat, n: nat) returns (ok: bool, execution: Execution)
    requires store.Valid()
    requires Persisted(store)
    modifies store
    ensures store.Valid() && Persisted(store) && store.heights[0] == old(store.heights[0])
    ensures ok <==> Run(store.spec, RunState(old(store.TableNow()), old(store.nextRules), start), first, n).Some?
    ensures ok ==> Run(store.spec, RunState(old(store.TableNow()), old(store.nextRules), start), first, n)
                   == Some(RunState(store.TableNow(), store.nextRules, execution))
    ensures !store.writeRulesUpdateHeights ==> store.stored == old(store.stored)
    ensures OnlyGrew(old(store.heights), old(store.stored), store.heights, store.stored)
  {
    execution := start;
    ghost var s := RunState(store.TableNow(), store.nextRules, start);
    var i := 0;
    while i < n
      invariant 0 <= i <= n && store.Valid() && Persisted(store) && store.heights[0] == old(store.heights[0])
      invariant Run(store.spec, s, first, i) == Some(RunState(store.TableNow(), store.nextRules, execution))
      invariant !store.writeRulesUpdateHeights ==> store.stored == old(store.stored)
      invariant OnlyGrew(old(store.heights), old(store.stored), store.heights, store.stored)
    {
      ghost var before := RunState(store.TableNow(), store.nextRules, execution);
      ok, execution := ApplyBlock(store, execution, first + i);
      assert Run(store.spec, s, first, i + 1) == RunBlock(store.spec, before, first + i);
      if !ok {
        Failed(store.spec, s, first, i + 1, n);
        return;
      }
      i := i + 1;
    }
    ok := true;
  }

  lemma {:induction false} Failed(spec: ChainSpec, s: RunState, first: nat, m: nat, n: nat)
    requires 0 in s.table && m <= n && Run(spec, s, first, m).None?
    ensures Run(spec, s, first, n).None?
  {
    if Run(spec, s, first, n).Some? { EarlierSucceed(spec, s, first, m, n); }
  }

  method ApplyBlock(store: Store, before: Execution, b: nat) returns (ok: bool, execution: Execution)
    requires store.Valid()
    requires Persisted(store)
    modifies store
    ensures store.Valid() && Persisted(store) && store.heights[0] == old(store.heights[0])
    ensures ok <==> RunBlock(store.spec, RunState(old(store.TableNow()), old(store.nextRules), before), b).Some?
    ensures ok ==> RunBlock(store.spec, RunState(old(store.TableNow()), old(store.nextRules), before), b)
                   == Some(RunState(store.TableNow(), store.nextRules, execution))
    ensures !store.writeRulesUpdateHeights ==> store.stored == old(store.stored)
    ensures OnlyGrew(old(store.heights), old(store.stored), store.heights, store.stored)
  {
    ok, execution := true, before;
    if b == 0 { return; }
    if store.spec.sealsEpoch(b) {
      ok := store.CommitRules(b);
      HeightsReload(store.heights);
      if !ok { return; }
    }
    var (after, diffs) := store.spec.execute(before, b, UpTo(store.TableNow(), b));
    execution := after;
    OnNewLogs(store, b, diffs);
  }

  /** `onNewLog`, for the rules updates in the logs of a block. */
  method OnNewLogs(store: Store, b: nat, diffs: seq<Diff>)
    requires store.Valid()
    modifies store`nextRules
    ensures store.Valid() && store.nextRules == PatchAll(store.spec, store.TableNow(), old(store.nextRules), b, diffs)
  {
    var i := 0;
    while i < |diffs|
      invariant 0 <= i <= |diffs|
      invariant store.nextRules == PatchAll(store.spec, store.TableNow(), old(store.nextRules), b, diffs[..i])
    {
      store.PatchRules(b, diffs[i]);
      assert diffs[..i + 1][..i] == diffs[..i];
      i := i + 1;
    }
    assert diffs[..|diffs|] == diffs;
  }

  // --- Two replays, one after the other ---

  /** A replay from start to end: the store is opened on the stored heights, then n blocks are applied. */
  method ReplayOnce(spec: ChainSpec, write: bool, genesis: Rules, given: Option<seq<Height>>, start: Execution,
                    first: nat, n: nat)
    returns (end: Option<RunState>, stored: Option<seq<Height>>)
    requires Distinct(Given(given))
    ensures end == if !Loadable(given, genesis) then None
                   else Run(spec, RunState(Reloaded(given, genesis), None, start), first, n)
    ensures end.Some? ==>
              && Loadable(stored, genesis)
              && Reloaded(stored, genesis) == (if write then end.value.table else Reloaded(given, genesis))
              && (!write || end.value.table == Reloaded(given, genesis) ==> stored == given)
  {
    stored := given;
    var loaded := LoadHeights(given, genesis);
    if loaded.None? {
      return None, given;
    }
    var store := new Store(spec, write, loaded.value, given);
    var ok, execution := Replay(store, start, first, n);
    stored := store.stored;
    if !ok {
      return None, stored;
    }
    TableSize(loaded.value);
    TableSize(store.heights);
    end := Some(RunState(store.TableNow(), store.nextRules, execution));
  }

  /** After m blocks, the replay over the heights `known` has the pending update and the chain state of
    * the one over `table`, and the rules at each block so far are the same. */
  predicate SeesTheSame(spec: ChainSpec, table: map<nat, Rules>, known: map<nat, Rules>, start: Execution,
                        first: nat, m: nat)
    requires 0 in table && 0 in known
  {
    var once := Run(spec, RunState(table, None, start), first, m);
    && once.Some?
    && Run(spec, RunState(known, None, start), first, m)
       == Some(RunState(known, once.value.next, once.value.execution))
    && forall at: nat | at <= first + m :: RulesAt(known, at) == RulesAt(once.value.table, at)
  }

  /** Two replays of the same blocks, the second over what the first one stored: if the first is without
    * error then so is the second, which ends in the same state and stores nothing new. With writing
    * enabled it starts from the heights that the first one ends with, and yet sees at each block what the
    * first one saw. */
  method ReplayTwice(spec: ChainSpec, write: bool, genesis: Rules, given: Option<seq<Height>>, start: Execution,
                     first: nat, n: nat)
    returns (once: Option<RunState>, twice: Option<RunState>, kept: Option<seq<Height>>, keptTwice: Option<seq<Height>>)
    requires Distinct(Given(given))
    ensures once == if !Loadable(given, genesis) then None
                    else Run(spec, RunState(Reloaded(given, genesis), None, start), first, n)
    ensures once.Some? ==>
              && twice == once && keptTwice == kept && (!write ==> kept == given)
              && (write ==>
                    && Reloaded(kept, genesis) == once.value.table
                    && forall m: nat | m <= n ::
                         SeesTheSame(spec, Reloaded(given, genesis), Reloaded(kept, genesis), start, first, m))
  {
    once, kept := ReplayOnce(spec, write, genesis, given, start, first, n);
    twice, keptTwice := None, kept;
    if once.None? {
      return;
    }
    twice, keptTwice := ReplayOnce(spec, write, genesis, kept, start, first, n);
    if write {
      ghost var table := Reloaded(given, genesis);
      forall m: nat | m <= n
        ensures SeesTheSame(spec, table, Reloaded(kept, genesis), start, first, m)
      {
        SecondRun(spec, table, start, first, n, m);
      }
      assert SeesTheSame(spec, table, Reloaded(kept, genesis), start, first, n);
    }
  }
}
