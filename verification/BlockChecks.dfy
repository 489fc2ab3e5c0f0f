/** The checks of the third stage of a replay (go/replay/checks.go). */
module BlockChecks {
  import opened Options

  type Hash(!new, ==)
  type Root(!new, ==)

  // --- State roots ---

  datatype Schema = Mpt | Verkle | Other

  /** The state roots stored with a block. */
  datatype Roots = Roots(stateRoot: Root, verkleStateRoot: Root)

  datatype Policy = Off | Uninitialized | On

  /** What does not change during a replay. */
  datatype Config = Config(schema: Schema, zero: Root, policy: Policy, skipStateRootCheck: bool)

  /** `getExpectedStateRoot`. */
  function Expected(c: Config, r: Roots): Root {
    match c.schema case Mpt => r.stateRoot case Verkle => r.verkleStateRoot case Other => c.zero
  }

  /** `updateStateRoot`. */
  function Updated(c: Config, r: Roots, root: Root): Roots {
    match c.schema
    case Mpt => r.(stateRoot := root)
    case Verkle => r.(verkleStateRoot := root)
    case Other => r
  }

  /** Does the policy write the computed root of this block? */
  predicate Overwrites(c: Config, r: Roots) {
    c.policy.On? || (c.policy.Uninitialized? && Expected(c, r) == c.zero)
  }

  /** Is the computed root compared with the stored one? */
  predicate Compares(c: Config, r: Roots) {
    !Overwrites(c, r) && !c.skipStateRootCheck && Expected(c, r) != c.zero
  }

  class RootChecker {
    const config: Config
    var stateRootNotSetSeen: bool
    var stored: map<nat, Roots>
    var warnings: nat

    constructor (config: Config, stored: map<nat, Roots>)
      ensures this.config == config && this.stored == stored && !stateRootNotSetSeen && warnings == 0
    {
      this.config, this.stored, this.stateRootNotSetSeen, this.warnings := config, stored, false, 0;
    }

    /** `checkStateRoot`, with `overwriteAndPersistStateRoot`; the computed root is absent if the state
      * could not tell it, and updating the block in the database succeeds or not. */
    method CheckStateRoot(number: nat, computed: Option<Root>, updates: bool) returns (ok: bool)
      requires number in stored
      modifies this
      ensures ok <==>
                && computed.Some? && Passes(config, old(stored)[number], computed.value)
                && (Overwrites(config, old(stored)[number]) ==> updates)
      ensures stored == if ok then AfterCheck(config, old(stored), number, computed.value) else old(stored)
      // by schema and policy, on the stored fields
      ensures computed.Some? && config.schema.Mpt? ==>
                ok == Accepts(config, old(stored)[number].stateRoot, computed.value, updates)
      ensures computed.Some? && config.schema.Verkle? ==>
                ok == Accepts(config, old(stored)[number].verkleStateRoot, computed.value, updates)
      // the warning that a root is missing is given once
      ensures warnings == old(warnings) +
                          if ok && Skipped(config, old(stored)[number]) && !old(stateRootNotSetSeen) then 1 else 0
      ensures config.schema.Mpt? ==>
                (warnings > old(warnings) <==>
                   && computed.Some? && config.policy.Off? && !config.skipStateRootCheck && !old(stateRootNotSetSeen)
                   && old(stored)[number].stateRoot == config.zero)
      ensures stateRootNotSetSeen == (old(stateRootNotSetSeen) || (ok && Skipped(config, old(stored)[number])))
    {
      if computed.None? {
        return false;
      }
      var expected := Expected(config, stored[number]);
      if config.policy.On? || (config.policy.Uninitialized? && expected == config.zero) {
        if updates {
          stored := stored[number := Updated(config, stored[number], computed.value)];
        }
        return updates;
      }
      if config.skipStateRootCheck {
        return true;
      }
      if expected == config.zero {
        if !stateRootNotSetSeen {
          warnings := warnings + 1;
          stateRootNotSetSeen := true;
        }
        return true;
      }
      ok := computed.value == expected;
    }
  }

  /** What the policies demand of a stored root and the computed one, case by case. */
  predicate Accepts(c: Config, root: Root, computed: Root, updates: bool) {
    match c.policy
    case On => updates
    case Uninitialized => if root == c.zero then updates else c.skipStateRootCheck || computed == root
    case Off => root == c.zero || c.skipStateRootCheck || computed == root
  }

  predicate Skipped(c: Config, r: Roots) {
    !Overwrites(c, r) && !c.skipStateRootCheck && Expected(c, r) == c.zero
  }

  predicate Passes(c: Config, r: Roots, computed: Root) {
    Compares(c, r) ==> computed == Expected(c, r)
  }

  function AfterCheck(c: Config, stored: map<nat, Roots>, n: nat, computed: Root): map<nat, Roots>
    requires n in stored
  {
    if Overwrites(c, stored[n]) then stored[n := Updated(c, stored[n], computed)] else stored
  }

  // --- A replay over blocks, given their computed roots ---

  /** The stored roots after the blocks below n have been checked, or None if one of them failed. */
  function RunChecks(c: Config, stored: map<nat, Roots>, computed: seq<Root>): (r: Option<map<nat, Roots>>)
    requires forall n: nat | n < |computed| :: n in stored
    ensures r.Some? ==> r.value.Keys == stored.Keys
  {
    if computed == [] then Some(stored)
    else
      var n := |computed| - 1;
      match RunChecks(c, stored, computed[..n])
      case None => None
      case Some(before) =>
        if Passes(c, before[n], computed[n]) then Some(AfterCheck(c, before, n, computed[n])) else None
  }

  /** After a replay that overwrites roots, each block has the computed root where it was overwritten, and
    * otherwise its own one. */
  lemma {:induction false} RootsAfterRun(c: Config, stored: map<nat, Roots>, computed: seq<Root>)
    requires forall n: nat | n < |computed| :: n in stored
    ensures RunChecks(c, stored, computed).Some? <==>
              forall n: nat | n < |computed| :: Passes(c, stored[n], computed[n])
    ensures RunChecks(c, stored, computed).Some? ==>
              forall n | n in stored ::
                RunChecks(c, stored, computed).value[n]
                == if n < |computed| && Overwrites(c, stored[n]) then Updated(c, stored[n], computed[n]) else stored[n]
  {
    if computed != [] {
      RootsAfterRun(c, stored, computed[..|computed| - 1]);
      if forall n: nat | n < |computed| :: Passes(c, stored[n], computed[n]) {
        forall n: nat | n < |computed| - 1
          ensures Passes(c, stored[n], computed[..|computed| - 1][n])
        {
        }
      }
      if RunChecks(c, stored, computed).Some? {
        forall n: nat | n < |computed|
          ensures Passes(c, stored[n], computed[n])
        {
          if n < |computed| - 1 { assert Passes(c, stored[n], computed[..|computed| - 1][n]); }
        }
      }
    }
  }

  /** A replay that verifies passes exactly if each stored root that is not zero is the computed one, and
    * changes nothing. */
  lemma {:induction false} VerifyingReplay(c: Config, stored: map<nat, Roots>, computed: seq<Root>)
    requires forall n: nat | n < |computed| :: n in stored
    requires c.policy.Off? && !c.skipStateRootCheck
    ensures c.schema.Mpt? ==>
              (RunChecks(c, stored, computed).Some? <==>
                 forall n: nat | n < |computed| && stored[n].stateRoot != c.zero :: computed[n] == stored[n].stateRoot)
    ensures c.schema.Verkle? ==>
              (RunChecks(c, stored, computed).Some? <==>
                 forall n: nat | n < |computed| && stored[n].verkleStateRoot != c.zero ::
                   computed[n] == stored[n].verkleStateRoot)
    ensures RunChecks(c, stored, computed).Some? ==> RunChecks(c, stored, computed).value == stored
  {
    RootsAfterRun(c, stored, computed);
    assert forall n: nat | n < |computed| && c.schema.Mpt? ::
        Passes(c, stored[n], computed[n]) <==> (stored[n].stateRoot != c.zero ==> computed[n] == stored[n].stateRoot);
    assert forall n: nat | n < |computed| && c.schema.Verkle? ::
        Passes(c, stored[n], computed[n])
        <==> (stored[n].verkleStateRoot != c.zero ==> computed[n] == stored[n].verkleStateRoot);
    if RunChecks(c, stored, computed).Some? {
      SameMap(RunChecks(c, stored, computed).value, stored);
    }
  }

  /** A replay that overwrites all roots passes, whatever is stored; afterwards the root of each block, in the
    * field of the schema, is the computed one, and nothing else has changed. */
  lemma {:induction false} OverwritingReplay(c: Config, stored: map<nat, Roots>, computed: seq<Root>, n: nat)
    requires forall n: nat | n < |computed| :: n in stored
    requires c.policy.On? && n in stored
    ensures RunChecks(c, stored, computed).Some?
    ensures var after := RunChecks(c, stored, computed).value;
            && n in after && (n >= |computed| || c.schema.Other? ==> after[n] == stored[n])
            && (n < |computed| && c.schema.Mpt? ==> after[n] == Roots(computed[n], stored[n].verkleStateRoot))
            && (n < |computed| && c.schema.Verkle? ==> after[n] == Roots(stored[n].stateRoot, computed[n]))
  {
    RootsAfterRun(c, stored, computed);
  }

  /** A replay that fills in missing roots passes exactly if each root that is there is the computed one; the
    * ones that are there stay, the others become the computed ones. */
  lemma {:induction false} FillingReplay(c: Config, stored: map<nat, Roots>, computed: seq<Root>, n: nat)
    requires forall n: nat | n < |computed| :: n in stored
    requires c.policy.Uninitialized? && !c.skipStateRootCheck && c.schema.Mpt? && n < |computed|
    ensures RunChecks(c, stored, computed).Some? <==>
              forall n: nat | n < |computed| && stored[n].stateRoot != c.zero :: computed[n] == stored[n].stateRoot
    ensures RunChecks(c, stored, computed).Some? ==>
              RunChecks(c, stored, computed).value[n] == Roots(computed[n], stored[n].verkleStateRoot)
  {
    RootsAfterRun(c, stored, computed);
    assert forall n: nat | n < |computed| ::
        Passes(c, stored[n], computed[n]) <==> (stored[n].stateRoot != c.zero ==> computed[n] == stored[n].stateRoot);
    assert stored[n].stateRoot != c.zero ==> !Overwrites(c, stored[n]);
    if RunChecks(c, stored, computed).Some? {
      assert Passes(c, stored[n], computed[n]);
    }
  }

  /** Once a replay has written the roots (all of them, or the missing ones without error), a replay that
    * verifies them passes and changes nothing; it compares every root that is not zero. */
  lemma {:induction false} VerifiesAfterOverwrite(c: Config, stored: map<nat, Roots>, computed: seq<Root>)
    requires forall n: nat | n < |computed| :: n in stored
    requires !c.policy.Off? && !c.skipStateRootCheck && RunChecks(c, stored, computed).Some?
    ensures var written, verify := RunChecks(c, stored, computed).value, c.(policy := Off);
            && RunChecks(verify, written, computed) == Some(written)
            && (!c.schema.Other? ==> forall n: nat | n < |computed| :: Expected(c, written[n]) == computed[n])
  {
    var written, verify := RunChecks(c, stored, computed).value, c.(policy := Off);
    RootsAfterRun(c, stored, computed);
    forall n: nat | n < |computed|
      ensures Passes(verify, written[n], computed[n])
      ensures !c.schema.Other? ==> Expected(c, written[n]) == computed[n]
    {
      assert Passes(c, stored[n], computed[n]);
    }
    RootsAfterRun(verify, written, computed);
    assert RunChecks(verify, written, computed).Some?;
    var again := RunChecks(verify, written, computed).value;
    assert again.Keys == written.Keys && forall n | n in written :: again[n] == written[n];
    SameMap(again, written);
  }

  lemma SameMap<K, V>(a: map<K, V>, b: map<K, V>)
    requires a.Keys == b.Keys && forall k | k in a :: a[k] == b[k]
    ensures a == b
  {
  }

  // --- Receipts ---

  type Bytes(!new, ==)

  /** The fields of a log that contribute to the receipts root. */
  datatype Log = Log(address: Bytes, topics: seq<Bytes>, data: Bytes)

  datatype Receipt = Receipt(status: nat, cumulativeGasUsed: nat, logs: seq<Log>, bloom: Bytes)

  method LogsMatch(got: seq<Log>, want: seq<Log>) returns (ok: bool)
    requires |got| == |want|
    ensures ok <==> got == want
  {
    for j := 0 to |got|
      invariant forall i | 0 <= i < j :: got[i] == want[i]
    {
      if got[j].address != want[j].address || |got[j].topics| != |want[j].topics| {
        return false;
      }
      for k := 0 to |got[j].topics|
        invariant forall i | 0 <= i < k :: got[j].topics[i] == want[j].topics[i]
      {
        if got[j].topics[k] != want[j].topics[k] {
          return false;
        }
      }
      assert got[j].topics == want[j].topics;
      if got[j].data != want[j].data {
        return false;
      }
    }
    ok := true;
  }

  /** `checkReceipts`: passes exactly if the receipts are the stored ones, their blooms being those of the
    * stored logs. */
  method CheckReceipts(bloomOf: seq<Log> -> Bytes, got: seq<Receipt>, want: seq<Receipt>) returns (ok: bool)
    ensures ok <==>
              && |got| == |want|
              && forall i | 0 <= i < |got| :: got[i] == want[i].(bloom := bloomOf(want[i].logs))
  {
    if |got| != |want| {
      return false;
    }
    for i := 0 to |got|
      invariant forall j | 0 <= j < i :: got[j] == want[j].(bloom := bloomOf(want[j].logs))
    {
      if got[i].status != want[i].status || got[i].cumulativeGasUsed != want[i].cumulativeGasUsed
         || |got[i].logs| != |want[i].logs| {
        return false;
      }
      var same := LogsMatch(got[i].logs, want[i].logs);
      if !same || got[i].bloom != bloomOf(want[i].logs) {
        return false;
      }
    }
    ok := true;
  }
}
