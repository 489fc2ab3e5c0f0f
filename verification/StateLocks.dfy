/** The two locks of `stateChainAdapter` (go/replay/replay.go): a read-write mutex around the state
  * pointer, which snapshots swap, and a mutex around live application and the hash history. Any number
  * of goroutines call the methods of the adapter in any order. */
module StateLocks {
  import opened Options

  /** The methods of the adapter that take locks. */
  datatype Call =
    | ApplyBlock | GetBlockHash | CloneBlockHashHistory        // live: both locks
    | ApplyArchiveBlock | GetArchiveBlockHeight | FlushState   // concurrent: read lock only
    | MaybeSnapshot                                            // write lock

  predicate TakesModifyLock(c: Call) { c.ApplyBlock? || c.GetBlockHash? || c.CloneBlockHashHistory? }

  /** Where a goroutine is in the call at the head of its list. */
  datatype Pc =
    | Outside                 // not in a call, or waiting for its first lock
    | Reading                 // holds the read lock
    | Using(seen: nat)        // holds all its locks and works on the state it sees
    | Leaving                 // has released the modify lock
    | Draining                // wants to write: new readers wait, present ones may finish
    | Writing                 // holds the write lock
    | Closed                  // has closed the current state
    | Reopened(state: nat)    // has opened a new one
    | Swapped                 // has swapped the pointer

  datatype Goroutine = Goroutine(pc: Pc, calls: seq<Call>)

  /** `stateSwitchMutex` (its readers, and the writer that has or awaits it) and `stateModifyMutex`. */
  datatype Locks = Locks(readers: set<nat>, writer: Option<nat>, modifier: Option<nat>)

  /** The state pointer, and which of the states opened so far are closed. */
  datatype Pointer = Pointer(current: nat, closed: set<nat>, next: nat)

  datatype State = State(gs: seq<Goroutine>, locks: Locks, pointer: Pointer)

  function Init(programs: seq<seq<Call>>): State {
    State(seq(|programs|, i requires 0 <= i < |programs| => Goroutine(Outside, programs[i])),
          Locks({}, None, None), Pointer(0, {}, 1))
  }

  /** Whether goroutine i can take its next step, that is, is neither done nor blocked. A waiting writer
    * blocks new readers. */
  predicate Enabled(s: State, i: nat) {
    i < |s.gs| && s.gs[i].calls != [] &&
    match s.gs[i].pc
    case Outside => s.locks.writer == None
    case Reading => TakesModifyLock(s.gs[i].calls[0]) ==> s.locks.modifier == None
    case Draining => s.locks.readers == {}
    case _ => true
  }

  function At(s: State, i: nat, pc: Pc): seq<Goroutine>
    requires i < |s.gs|
  {
    s.gs[i := s.gs[i].(pc := pc)]
  }

  function Return(s: State, i: nat): seq<Goroutine>
    requires i < |s.gs| && s.gs[i].calls != []
  {
    s.gs[i := Goroutine(Outside, s.gs[i].calls[1..])]
  }

  function Do(s: State, i: nat): State
    requires Enabled(s, i)
  {
    var call, l, p := s.gs[i].calls[0], s.locks, s.pointer;
    match s.gs[i].pc
    case Outside =>
      if call.MaybeSnapshot? then State(At(s, i, Draining), l.(writer := Some(i)), p)
      else State(At(s, i, Reading), l.(readers := l.readers + {i}), p)
    case Reading =>
      State(At(s, i, Using(p.current)), if TakesModifyLock(call) then l.(modifier := Some(i)) else l, p)
    case Using(_) =>
      State(At(s, i, Leaving), if TakesModifyLock(call) then l.(modifier := None) else l, p)
    case Leaving => State(Return(s, i), l.(readers := l.readers - {i}), p)
    case Draining => State(At(s, i, Writing), l, p)
    case Writing => State(At(s, i, Closed), l, p.(closed := p.closed + {p.current}))
    case Closed => State(At(s, i, Reopened(p.next)), l, p.(next := p.next + 1))
    case Reopened(n) => State(At(s, i, Swapped), l, p.(current := n))
    case Swapped => State(Return(s, i), l.(writer := None), p)
  }

  /** A schedule names the goroutines in the order in which they take steps. */
  predicate Schedule(s: State, steps: seq<nat>)
    decreases |steps|
  {
    steps == [] || (Enabled(s, steps[0]) && Schedule(Do(s, steps[0]), steps[1..]))
  }

  function RunSteps(s: State, steps: seq<nat>): State
    requires Schedule(s, steps)
    decreases |steps|
  {
    if steps == [] then s else RunSteps(Do(s, steps[0]), steps[1..])
  }

  // --- The invariant ---

  predicate HoldsRead(pc: Pc) { pc.Reading? || pc.Using? || pc.Leaving? }

  predicate WantsWrite(pc: Pc) { pc.Draining? || HoldsWrite(pc) }

  predicate HoldsWrite(pc: Pc) { pc.Writing? || pc.Closed? || pc.Reopened? || pc.Swapped? }

  predicate HoldsModify(g: Goroutine) { g.pc.Using? && g.calls != [] && TakesModifyLock(g.calls[0]) }

  // The lock words say who is where.

  ghost predicate ReadersMatch(s: State) {
    && (forall i :: i in s.locks.readers <==> 0 <= i < |s.gs| && HoldsRead(s.gs[i].pc))
    && (forall i | 0 <= i < |s.gs| && HoldsWrite(s.gs[i].pc) :: s.locks.readers == {})
  }

  ghost predicate WriterMatches(s: State) {
    forall i :: s.locks.writer == Some(i) <==> 0 <= i < |s.gs| && WantsWrite(s.gs[i].pc)
  }

  ghost predicate ModifierMatches(s: State) {
    forall i :: s.locks.modifier == Some(i) <==> 0 <= i < |s.gs| && HoldsModify(s.gs[i])
  }

  ghost predicate CallsMatch(s: State) {
    forall i | 0 <= i < |s.gs| && !s.gs[i].pc.Outside? ::
      s.gs[i].calls != [] && (s.gs[i].calls[0].MaybeSnapshot? <==> WantsWrite(s.gs[i].pc))
  }

  /** What the goroutines know about the state pointer. */
  ghost predicate PointerMatches(s: State) {
    && (forall i | 0 <= i < |s.gs| && s.gs[i].pc.Using? :: s.gs[i].pc.seen == s.pointer.current)
    && (forall i | 0 <= i < |s.gs| && s.gs[i].pc.Reopened? ::
         s.gs[i].pc.state !in s.pointer.closed && s.gs[i].pc.state < s.pointer.next)
    && s.pointer.current < s.pointer.next
    && (forall n | n in s.pointer.closed :: n < s.pointer.next)
    && (s.pointer.current in s.pointer.closed ==>
         s.locks.writer.Some? && s.locks.writer.value < |s.gs| &&
         (s.gs[s.locks.writer.value].pc.Closed? || s.gs[s.locks.writer.value].pc.Reopened?))
  }

  ghost predicate Inv(s: State) {
    ReadersMatch(s) && WriterMatches(s) && ModifierMatches(s) && CallsMatch(s) && PointerMatches(s)
  }

  lemma ReadersStep(s: State, i: nat)
    requires ReadersMatch(s) && WriterMatches(s) && CallsMatch(s) && Enabled(s, i)
    ensures ReadersMatch(Do(s, i))
  {
  }

  lemma WriterStep(s: State, i: nat)
    requires WriterMatches(s) && CallsMatch(s) && Enabled(s, i)
    ensures WriterMatches(Do(s, i))
  {
  }

  lemma ModifierStep(s: State, i: nat)
    requires ModifierMatches(s) && CallsMatch(s) && Enabled(s, i)
    ensures ModifierMatches(Do(s, i))
  {
  }

  lemma CallsStep(s: State, i: nat)
    requires CallsMatch(s) && Enabled(s, i)
    ensures CallsMatch(Do(s, i))
  {
  }

  lemma PointerStep(s: State, i: nat)
    requires Inv(s) && Enabled(s, i)
    ensures PointerMatches(Do(s, i))
  {
    if WantsWrite(s.gs[i].pc) {
      assert s.locks.writer == Some(i);
    }
  }

  lemma {:induction false} RunInv(s: State, steps: seq<nat>)
    requires Inv(s) && Schedule(s, steps)
    ensures Inv(RunSteps(s, steps))
    decreases |steps|
  {
    if steps != [] {
      var i := steps[0];
      ReadersStep(s, i);
      WriterStep(s, i);
      ModifierStep(s, i);
      CallsStep(s, i);
      PointerStep(s, i);
      RunInv(Do(s, i), steps[1..]);
    }
  }

  lemma InitInv(programs: seq<seq<Call>>)
    ensures Inv(Init(programs))
  {
  }

  // --- Main results, for every number of goroutines, every list of calls and every schedule ---

  /** No call sees a closed state, or the state pointer swapped under it: whenever a goroutine works on
    * the state it has seen, this is the current one and open, and no snapshot is past its lock. */
  lemma NoUseOfClosedState(programs: seq<seq<Call>>, steps: seq<nat>, i: nat, j: nat)
    requires Schedule(Init(programs), steps)
    ensures var s := RunSteps(Init(programs), steps);
            i < |s.gs| && s.gs[i].pc.Using? ==>
              && s.gs[i].pc.seen == s.pointer.current && s.pointer.current !in s.pointer.closed
              && (j < |s.gs| ==> !HoldsWrite(s.gs[j].pc))
  {
    InitInv(programs);
    RunInv(Init(programs), steps);
    var s := RunSteps(Init(programs), steps);
    if i < |s.gs| && s.gs[i].pc.Using? {
      assert i in s.locks.readers;
    }
  }

  /** At most one goroutine at a time applies a live block or touches the hash history. */
  lemma OneModifierAtATime(programs: seq<seq<Call>>, steps: seq<nat>, i: nat, j: nat)
    requires Schedule(Init(programs), steps)
    ensures var s := RunSteps(Init(programs), steps);
            && i < |s.gs| && s.gs[i].pc.Using? && s.gs[i].calls != []
            && j < |s.gs| && s.gs[j].pc.Using? && s.gs[j].calls != []
            && (s.gs[i].calls[0] == ApplyBlock || s.gs[i].calls[0] == GetBlockHash
                || s.gs[i].calls[0] == CloneBlockHashHistory)
            && (s.gs[j].calls[0] == ApplyBlock || s.gs[j].calls[0] == GetBlockHash
                || s.gs[j].calls[0] == CloneBlockHashHistory)
            ==> i == j
  {
    InitInv(programs);
    RunInv(Init(programs), steps);
    var s := RunSteps(Init(programs), steps);
    if i < |s.gs| && j < |s.gs| && HoldsModify(s.gs[i]) && HoldsModify(s.gs[j]) {
      assert s.locks.modifier == Some(i) && s.locks.modifier == Some(j);
    }
  }

  /** The calls that need the state only to stay open work on it beside any call but a snapshot: beside a
    * live one, and beside each other. */
  lemma {:induction false} WorkBesideOthers(call: Call, other: Call)
    requires call == ApplyArchiveBlock || call == GetArchiveBlockHeight || call == FlushState
    requires other != MaybeSnapshot
    ensures var s := Init([[other], [call]]);
            && Schedule(s, [0, 0, 1, 1])
            && var t := RunSteps(s, [0, 0, 1, 1]);
               t.gs[0] == Goroutine(Using(0), [other]) && t.gs[1] == Goroutine(Using(0), [call])
  {
    var s0 := Init([[other], [call]]);
    var s1 := Do(s0, 0);
    var s2 := Do(s1, 0);
    var s3 := Do(s2, 1);
    var s4 := Do(s3, 1);
    assert s0.gs == [Goroutine(Outside, [other]), Goroutine(Outside, [call])];
    assert Schedule(s3, [1]) && RunSteps(s3, [1]) == s4 by {
      assert [1][1..] == [];
    }
    assert Schedule(s2, [1, 1]) && RunSteps(s2, [1, 1]) == s4 by {
      assert [1, 1][1..] == [1];
    }
    assert Schedule(s1, [0, 1, 1]) && RunSteps(s1, [0, 1, 1]) == s4 by {
      assert [0, 1, 1][1..] == [1, 1];
    }
    assert [0, 0, 1, 1][1..] == [0, 1, 1];
  }

  /** A goroutine that can move, given one that holds the read lock. */
  lemma ReaderCanMove(s: State, i: nat) returns (j: nat)
    requires Inv(s) && i < |s.gs| && HoldsRead(s.gs[i].pc)
    ensures Enabled(s, j)
  {
    j := i;
    if !Enabled(s, i) {
      j := s.locks.modifier.value;
      assert s.locks.modifier == Some(j);
    }
  }

  /** No deadlock: as long as some goroutine has calls left, one can move. */
  lemma NeverStuck(programs: seq<seq<Call>>, steps: seq<nat>)
    requires Schedule(Init(programs), steps)
    ensures var s := RunSteps(Init(programs), steps);
            (exists i :: 0 <= i < |s.gs| && s.gs[i].calls != []) ==> exists j :: Enabled(s, j)
  {
    InitInv(programs);
    RunInv(Init(programs), steps);
    var s := RunSteps(Init(programs), steps);
    if i :| 0 <= i < |s.gs| && s.gs[i].calls != [] {
      if s.locks.writer.Some? {
        var w := s.locks.writer.value;
        assert s.locks.writer == Some(w);
        if s.locks.readers == {} || HoldsWrite(s.gs[w].pc) {
          assert Enabled(s, w);
        } else {
          var r :| r in s.locks.readers;
          var j := ReaderCanMove(s, r);
        }
      } else if s.gs[i].pc.Outside? {
        assert Enabled(s, i);
      } else {
        assert !WantsWrite(s.gs[i].pc);
        var j := ReaderCanMove(s, i);
      }
    }
  }

  function Progress(pc: Pc): nat {
    match pc
    case Outside => 0 case Reading => 1 case Using(_) => 2 case Leaving => 3
    case Draining => 1 case Writing => 2 case Closed => 3 case Reopened(_) => 4 case Swapped => 5
  }

  /** An upper bound on the number of steps still possible. */
  function StepsLeft(gs: seq<Goroutine>): int {
    if gs == [] then 0 else StepsLeft(gs[1..]) + 6 * |gs[0].calls| - Progress(gs[0].pc)
  }

  lemma {:induction false} OneMoves(gs: seq<Goroutine>, i: nat, g: Goroutine)
    requires i < |gs|
    ensures StepsLeft(gs[i := g]) == StepsLeft(gs)
                                     - (6 * |gs[i].calls| - Progress(gs[i].pc)) + (6 * |g.calls| - Progress(g.pc))
  {
    if i == 0 {
      assert gs[0 := g][1..] == gs[1..];
    } else {
      OneMoves(gs[1..], i - 1, g);
      assert gs[i := g][1..] == gs[1..][i - 1 := g];
    }
  }

  lemma {:induction false} StepsLeftNatural(s: State, k: nat)
    requires CallsMatch(s) && k <= |s.gs|
    ensures StepsLeft(s.gs[k..]) >= 0
    decreases |s.gs| - k
  {
    if k < |s.gs| {
      StepsLeftNatural(s, k + 1);
      assert s.gs[k..][1..] == s.gs[k + 1..];
    }
  }

  lemma EveryStepCounts(s: State, i: nat)
    requires Enabled(s, i)
    ensures StepsLeft(Do(s, i).gs) < StepsLeft(s.gs)
  {
    OneMoves(s.gs, i, Do(s, i).gs[i]);
    assert Do(s, i).gs == s.gs[i := Do(s, i).gs[i]];
  }

  lemma {:induction false} RunLength(s: State, steps: seq<nat>)
    requires CallsMatch(s) && Schedule(s, steps)
    ensures |steps| <= StepsLeft(s.gs)
    decreases |steps|
  {
    if steps == [] {
      StepsLeftNatural(s, 0);
      assert s.gs[0..] == s.gs;
    } else {
      EveryStepCounts(s, steps[0]);
      CallsStep(s, steps[0]);
      RunLength(Do(s, steps[0]), steps[1..]);
    }
  }

  function TotalCalls(programs: seq<seq<Call>>): nat {
    if programs == [] then 0 else |programs[0]| + TotalCalls(programs[1..])
  }

  lemma {:induction false} InitStepsLeft(programs: seq<seq<Call>>)
    ensures StepsLeft(Init(programs).gs) == 6 * TotalCalls(programs)
  {
    if programs != [] {
      InitStepsLeft(programs[1..]);
      assert Init(programs).gs[1..] == Init(programs[1..]).gs;
    }
  }

  /** Every schedule ends: no call takes more than six steps. With `NeverStuck`, all calls return. */
  lemma AllCallsReturn(programs: seq<seq<Call>>, steps: seq<nat>)
    requires Schedule(Init(programs), steps)
    ensures |steps| <= 6 * TotalCalls(programs)
  {
    InitInv(programs);
    RunLength(Init(programs), steps);
    InitStepsLeft(programs);
  }
}
