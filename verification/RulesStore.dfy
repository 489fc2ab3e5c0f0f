/** The store of network rules (go/replay/metadata.go): patches accumulate while blocks are applied, and
  * epoch-sealing blocks commit them for the blocks after. */
module RulesStore {
  import opened Options

  type Rules(!new, ==)
  type Diff(!new)
  type Execution(!new)  // the chain state, as far as it determines the logs of later blocks

  /** `RulesUpdateHeight`: rules effective from a block on. */
  datatype Height = Height(block: nat, rules: Rules)

  /** What is fixed for a chain. The rules updates are patches of JSON text; the logs of a block depend
    * on the state before it and on the heights up to it. */
  datatype ChainSpec = ChainSpec(
    noRules: Rules,                              // opera.Rules{}
    withDefaults: Rules -> Rules,                // nil prices replaced by zero
    update: (Rules, Diff) -> Option<Rules>,      // opera.UpdateRules
    sealsEpoch: nat -> bool,                     // is the first transaction of the block a SealEpoch call
    execute: (Execution, nat, map<nat, Rules>) -> (Execution, seq<Diff>)
  )

  // --- The heights as a table ---

  /** The rules by the block from which on they are effective. */
  function Table(hs: seq<Height>): map<nat, Rules> {
    if hs == [] then map[] else Table(hs[..|hs| - 1])[hs[|hs| - 1].block := hs[|hs| - 1].rules]
  }

  predicate Ascending(hs: seq<Height>) {
    forall i, j | 0 <= i < j < |hs| :: hs[i].block < hs[j].block
  }

  predicate NonDescending(hs: seq<Height>) {
    forall i, j | 0 <= i < j < |hs| :: hs[i].block <= hs[j].block
  }

  predicate Distinct(hs: seq<Height>) {
    forall i, j | 0 <= i < j < |hs| :: hs[i].block != hs[j].block
  }

  /** The rules effective at a block: those of the last height up to it. */
  function RulesAt(table: map<nat, Rules>, b: nat): Rules
    requires 0 in table
  {
    if b in table then table[b] else RulesAt(table, b - 1)
  }

  /** The part of a table up to a block. */
  function UpTo(table: map<nat, Rules>, b: nat): map<nat, Rules> {
    map k | k in table && k <= b :: table[k]
  }

  lemma {:induction false} TableKeys(hs: seq<Height>)
    ensures forall k :: k in Table(hs) <==> exists i :: 0 <= i < |hs| && hs[i].block == k
    ensures Distinct(hs) ==> forall i | 0 <= i < |hs| :: hs[i].block in Table(hs) && Table(hs)[hs[i].block] == hs[i].rules
  {
    if hs != [] {
      var init := hs[..|hs| - 1];
      TableKeys(init);
      forall k | k in Table(hs)
        ensures exists i :: 0 <= i < |hs| && hs[i].block == k
      {
        if k in Table(init) {
          var i :| 0 <= i < |init| && init[i].block == k;
          assert hs[i].block == k;
        } else {
          assert hs[|hs| - 1].block == k;
        }
      }
      forall i | 0 <= i < |hs|
        ensures hs[i].block in Table(hs)
      {
        if i < |init| { assert init[i].block == hs[i].block; }
      }
    }
  }

  /** What is effective at a block depends only on the table up to it. */
  lemma {:induction false} RulesAtUpTo(t: map<nat, Rules>, u: map<nat, Rules>, b: nat)
    requires 0 in t && 0 in u && UpTo(t, b) == UpTo(u, b)
    ensures RulesAt(t, b) == RulesAt(u, b)
  {
    assert b in t <==> b in UpTo(t, b);
    assert b in u <==> b in UpTo(u, b);
    if b in t {
      assert t[b] == UpTo(t, b)[b] == u[b];
    } else {
      assert UpTo(t, b - 1) == UpTo(t, b) && UpTo(u, b - 1) == UpTo(u, b);
      RulesAtUpTo(t, u, b - 1);
    }
  }

  // --- Patching and committing, on tables ---

  function Patched(spec: ChainSpec, table: map<nat, Rules>, next: Option<Rules>, b: nat, diff: Diff): Option<Rules>
    requires 0 in table
  {
    var last := spec.withDefaults(if next.Some? then next.value else RulesAt(table, b));
    match spec.update(last, diff)
    case None => next
    case Some(updated) => if updated != last then Some(updated) else next
  }

  /** One update after the other, each on the rules that the ones before it have given. An update that fails,
    * or that changes nothing, is skipped. */
  function Updated(spec: ChainSpec, rules: Rules, diffs: seq<Diff>): Rules {
    if diffs == [] then rules
    else
      var before := Updated(spec, rules, diffs[..|diffs| - 1]);
      var update := spec.update(spec.withDefaults(before), diffs[|diffs| - 1]);
      if update.Some? && update.value != spec.withDefaults(before) then update.value else before
  }

  /** The pending rules, or those in force if nothing is pending. */
  function Current(next: Option<Rules>, inForce: Rules): Rules {
    if next.Some? then next.value else inForce
  }

  lemma {:induction false} UpdatedConcat(spec: ChainSpec, rules: Rules, a: seq<Diff>, b: seq<Diff>)
    ensures Updated(spec, rules, a + b) == Updated(spec, Updated(spec, rules, a), b)
  {
    if b == [] {
      assert a + b == a;
    } else {
      UpdatedConcat(spec, rules, a, b[..|b| - 1]);
      assert (a + b)[..|a + b| - 1] == a + b[..|b| - 1];
    }
  }

  /** A patch builds on what is pending, or else on the rules in force at its block. */
  lemma {:induction false} PatchAccumulates(spec: ChainSpec, table: map<nat, Rules>, next: Option<Rules>, b: nat,
                                            diff: Diff)
    requires 0 in table
    ensures var patched := Patched(spec, table, next, b, diff);
            && Current(patched, RulesAt(table, b)) == Updated(spec, Current(next, RulesAt(table, b)), [diff])
            && (next.Some? ==> patched.Some?)
            && (patched.None? ==> next.None?)
  {
    assert [diff][..0] == [];
  }

  /** A commit at block b, or None if it contradicts a known height. */
  function Committed(table: map<nat, Rules>, next: Option<Rules>, b: nat): Option<map<nat, Rules>> {
    if next.None? then Some(table)
    else if b + 1 !in table then Some(table[b + 1 := next.value])
    else if table[b + 1] == next.value then Some(table)
    else None
  }

  /** A commit at block b never changes the rules at any block up to b. */
  lemma CommitIsNotRetroactive(table: map<nat, Rules>, next: Option<Rules>, b: nat, at: nat)
    requires 0 in table && at <= b && Committed(table, next, b).Some?
    ensures RulesAt(Committed(table, next, b).value, at) == RulesAt(table, at)
  {
    assert UpTo(Committed(table, next, b).value, at) == UpTo(table, at);
    RulesAtUpTo(Committed(table, next, b).value, table, at);
  }

  /** ... and at the next block it puts the committed rules into effect. */
  lemma CommitTakesEffect(table: map<nat, Rules>, rules: Rules, b: nat)
    requires 0 in table && Committed(table, Some(rules), b).Some?
    ensures RulesAt(Committed(table, Some(rules), b).value, b + 1) == rules
  {
  }

  // --- The store ---

  /** `BlockDBMetadataStore`, without the metadata that is only read. `stored` is what the block
    * database holds. */
  class Store {
    const spec: ChainSpec
    const writeRulesUpdateHeights: bool
    var heights: seq<Height>
    var nextRules: Option<Rules>
    var stored: Option<seq<Height>>

    ghost predicate Valid()
      reads this
    {
      heights != [] && heights[0].block == 0 && Ascending(heights)
    }

    function TableNow(): (table: map<nat, Rules>)
      requires Valid()
      reads this
      ensures 0 in table
    {
      TableKeys(heights);
      assert heights[0].block == 0;
      Table(heights)
    }

    constructor (spec: ChainSpec, write: bool, heights: seq<Height>, stored: Option<seq<Height>>)
      requires heights != [] && heights[0].block == 0 && Ascending(heights)
      ensures Valid() && this.heights == heights && nextRules == None
      ensures this.spec == spec && this.writeRulesUpdateHeights == write && this.stored == stored
    {
      this.spec, this.writeRulesUpdateHeights := spec, write;
      this.heights, this.nextRules, this.stored := heights, None, stored;
    }

    /** `GetRulesAtBlock`. */
    method GetRulesAtBlock(b: nat) returns (rules: Rules)
      requires Valid()
      ensures rules == RulesAt(TableNow(), b)
    {
      rules := LastUpTo(spec.noRules, heights, b);
    }

    /** `PatchRules`; an update that fails is reported and changes nothing. */
    method PatchRules(b: nat, diff: Diff)
      requires Valid()
      modifies this`nextRules
      ensures Valid() && nextRules == Patched(spec, TableNow(), old(nextRules), b, diff)
      // the update builds on what is pending, or else on the rules in force at the block
      ensures old(nextRules).Some? ==>
                var last := spec.withDefaults(old(nextRules).value);
                var update := spec.update(last, diff);
                nextRules == if update.Some? && update.value != last then update else old(nextRules)
      ensures old(nextRules).None? ==>
                var last := spec.withDefaults(RulesAt(TableNow(), b));
                var update := spec.update(last, diff);
                nextRules == if update.Some? && update.value != last then update else None
    {
      var last := LastUpTo(heights[0].rules, heights, b);
      if nextRules.Some? {
        last := nextRules.value;
      }
      last := spec.withDefaults(last);
      var updated := spec.update(last, diff);
      if updated.None? { return; }
      if updated.value != last {
        nextRules := Some(updated.value);
      }
    }

    /** `CommitRules`. */
    method CommitRules(b: nat) returns (ok: bool)
      requires Valid()
      modifies this
      ensures Valid() && nextRules == None && heights[0] == old(heights[0])
      ensures ok <==> Committed(old(TableNow()), old(nextRules), b).Some?
      ensures ok ==> TableNow() == Committed(old(TableNow()), old(nextRules), b).value
      ensures !ok ==> heights == old(heights) && stored == old(stored)
      ensures stored == if writeRulesUpdateHeights && heights != old(heights) then Some(heights) else old(stored)
      ensures heights == old(heights) || |heights| == |old(heights)| + 1
    {
      if nextRules.None? { return true; }
      var update := Height(b + 1, nextRules.value);
      nextRules := None;
      TableKeys(heights);
      var i := 0;
      while i < |heights|
        invariant 0 <= i <= |heights|
        invariant forall j | 0 <= j < i :: heights[j].block != update.block
      {
        if heights[i].block == update.block {
          ok := heights[i].rules == update.rules;
          return;
        }
        i := i + 1;
      }
      SortAppended(heights, update);
      heights := SortByBlock(heights + [update]);
      if writeRulesUpdateHeights {
        stored := Some(heights);
      }
      ok := true;
    }
  }

  /** The scan over the heights: the last entry up to the block wins. */
  method LastUpTo(default: Rules, hs: seq<Height>, b: nat) returns (rules: Rules)
    requires hs != [] && hs[0].block == 0 && Ascending(hs)
    ensures 0 in Table(hs) && rules == RulesAt(Table(hs), b)
  {
    rules := default;
    var i := 0;
    ghost var last := -1;
    TableKeys(hs);
    assert hs[0].block in Table(hs);
    while i < |hs|
      invariant 0 <= i <= |hs| && -1 <= last < i && (i > 0 ==> last >= 0)
      invariant last >= 0 ==> hs[last].block <= b && rules == hs[last].rules
      invariant forall j | last < j < i :: hs[j].block > b
    {
      if hs[i].block <= b {
        rules := hs[i].rules;
        last := i;
      }
      i := i + 1;
    }
    NoneBetween(hs, last, b);
  }

  lemma {:induction false} NoneBetween(hs: seq<Height>, last: nat, b: nat)
    requires Ascending(hs) && last < |hs| && hs[last].block <= b && 0 in Table(hs)
    requires forall j | last < j < |hs| :: hs[j].block > b
    ensures RulesAt(Table(hs), b) == hs[last].rules
  {
    TableKeys(hs);
    if b in Table(hs) {
      var i :| 0 <= i < |hs| && hs[i].block == b;
      assert i == last;
    } else {
      assert hs[last].block in Table(hs);
      NoneBetween(hs, last, b - 1);
    }
  }

  // --- Sorting the heights ---

  function InsertByBlock(h: Height, hs: seq<Height>): (r: seq<Height>)
    ensures |r| == |hs| + 1
  {
    if hs == [] || h.block < hs[0].block then [h] + hs else [hs[0]] + InsertByBlock(h, hs[1..])
  }

  /** `slices.SortFunc`, whose result is unique on heights with distinct blocks. */
  function SortByBlock(hs: seq<Height>): (r: seq<Height>)
    ensures |r| == |hs|
  {
    if hs == [] then [] else InsertByBlock(hs[|hs| - 1], SortByBlock(hs[..|hs| - 1]))
  }

  lemma {:induction false} InsertSorted(h: Height, hs: seq<Height>)
    requires Ascending(hs) && forall i | 0 <= i < |hs| :: hs[i].block != h.block
    ensures Ascending(InsertByBlock(h, hs))
    ensures forall x :: x in InsertByBlock(h, hs) <==> x == h || x in hs
  {
    if hs != [] && !(h.block < hs[0].block) {
      InsertSorted(h, hs[1..]);
      var rest := InsertByBlock(h, hs[1..]);
      assert hs == [hs[0]] + hs[1..];
      forall i | 0 <= i < |rest|
        ensures hs[0].block < rest[i].block
      {
        assert rest[i] in rest;
      }
    }
  }

  lemma {:induction false} InsertKeepsOrder(h: Height, hs: seq<Height>)
    requires NonDescending(hs)
    ensures NonDescending(InsertByBlock(h, hs))
  {
    if hs == [] {
    } else if h.block < hs[0].block {
      OrderedPrepend(h, hs);
    } else {
      InsertKeepsOrder(h, hs[1..]);
      OrderedPrepend(hs[0], InsertByBlock(h, hs[1..]));
    }
  }

  lemma {:induction false} OrderedPrepend(h: Height, hs: seq<Height>)
    requires NonDescending(hs) && (hs == [] || h.block <= hs[0].block)
    ensures NonDescending([h] + hs)
  {
  }

  lemma {:induction false} InsertKeepsAll(h: Height, hs: seq<Height>)
    ensures multiset(InsertByBlock(h, hs)) == multiset(hs) + multiset{h}
  {
    if hs != [] && !(h.block < hs[0].block) {
      InsertKeepsAll(h, hs[1..]);
      assert hs == [hs[0]] + hs[1..];
    }
  }

  /** Sorting any heights keeps them all, also those with equal blocks. */
  lemma {:induction false} SortKeepsAll(hs: seq<Height>)
    ensures NonDescending(SortByBlock(hs)) && multiset(SortByBlock(hs)) == multiset(hs)
  {
    if hs != [] {
      SortKeepsAll(hs[..|hs| - 1]);
      InsertKeepsOrder(hs[|hs| - 1], SortByBlock(hs[..|hs| - 1]));
      InsertKeepsAll(hs[|hs| - 1], SortByBlock(hs[..|hs| - 1]));
      assert hs == hs[..|hs| - 1] + [hs[|hs| - 1]];
    }
  }

  lemma {:induction false} TableSize(hs: seq<Height>)
    requires Distinct(hs)
    ensures |Table(hs)| == |hs|
  {
    if hs != [] {
      var init, last := hs[..|hs| - 1], hs[|hs| - 1];
      TableSize(init);
      TableKeys(init);
      assert last.block !in Table(init);
      assert Table(hs).Keys == Table(init).Keys + {last.block};
    }
  }

  lemma {:induction false} SortIdentity(hs: seq<Height>)
    requires Ascending(hs)
    ensures SortByBlock(hs) == hs
  {
    if hs != [] {
      SortIdentity(hs[..|hs| - 1]);
      InsertAtEnd(hs[|hs| - 1], hs[..|hs| - 1]);
      assert hs == hs[..|hs| - 1] + [hs[|hs| - 1]];
    }
  }

  lemma {:induction false} InsertAtEnd(h: Height, hs: seq<Height>)
    requires forall i | 0 <= i < |hs| :: hs[i].block <= h.block
    ensures InsertByBlock(h, hs) == hs + [h]
  {
    if hs != [] {
      InsertAtEnd(h, hs[1..]);
      assert hs == [hs[0]] + hs[1..];
    }
  }

  /** Appending a height and sorting adds it to the table. */
  lemma SortAppended(hs: seq<Height>, h: Height)
    requires hs != [] && hs[0].block == 0 && Ascending(hs)
    requires forall i | 0 <= i < |hs| :: hs[i].block != h.block
    ensures var out := SortByBlock(hs + [h]);
            && out != [] && out[0] == hs[0] && Ascending(out)
            && h.block !in Table(hs) && Table(out) == Table(hs)[h.block := h.rules]
  {
    assert (hs + [h])[..|hs|] == hs;
    SortIdentity(hs);
    InsertSorted(h, hs);
    var out := InsertByBlock(h, hs);
    assert hs[0] in hs && hs[0] in out && out[0] in out;
    TableKeys(hs);
    TableKeys(out);
    SameTable(hs, h, out);
  }

  lemma TableElements(hs: seq<Height>, k: nat)
    requires Distinct(hs)
    ensures k in Table(hs) ==> Height(k, Table(hs)[k]) in hs
    ensures forall h | h in hs :: h.block in Table(hs) && Table(hs)[h.block] == h.rules
  {
    TableKeys(hs);
    if k in Table(hs) {
      var i :| 0 <= i < |hs| && hs[i].block == k;
      assert hs[i] == Height(k, Table(hs)[k]);
    }
  }

  /** Heights with distinct blocks that are those of hs and one more. */
  lemma SameTable(hs: seq<Height>, h: Height, out: seq<Height>)
    requires Distinct(hs) && Distinct(out)
    requires forall x :: x in out <==> x == h || x in hs
    ensures Table(out) == Table(hs)[h.block := h.rules]
  {
    assert h in out;
    forall k
      ensures k in Table(out) <==> k == h.block || k in Table(hs)
      ensures k in Table(out) ==> Table(out)[k] == Table(hs)[h.block := h.rules][k]
    {
      TableElements(hs, k);
      TableElements(out, k);
    }
  }
}
