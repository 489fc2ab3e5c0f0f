/** What the pipeline guarantees over every interleaving of its three stages, from the initial state. */
module PipelineTheorems {
  import opened Options
  import opened ReplayCore
  import opened ReplayPipeline

  function BlocksOf(rs: seq<Result>): (bs: seq<Block>)
    ensures |bs| == |rs| && forall i | 0 <= i < |bs| :: bs[i] == rs[i].block
  {
    seq(|rs|, i requires 0 <= i < |rs| => rs[i].block)
  }

  /** The blocks checked, in hand or buffered, in the order of the stages. */
  function InFlight(s: State): seq<Block>
    requires s.world.checked <= |s.world.applied|
  {
    var results := s.world.applied[..s.world.checked] + (Hand3(s) + s.results + Hand2(s));
    BlocksOf(results) + (Raw2(s) + s.decoded + Hand1(s))
  }

  lemma {:induction false} AppliedBlocks(rp: Replay, blocks: seq<Block>)
    requires ApplyAll(rp, blocks).Some?
    ensures BlocksOf(ApplyAll(rp, blocks).value.results) == blocks
    decreases |blocks|
  {
    if blocks != [] {
      AppliedBlocks(rp, blocks[..|blocks| - 1]);
      assert blocks == blocks[..|blocks| - 1] + [blocks[|blocks| - 1]];
    }
  }

  lemma InFlightIsPulled(rp: Replay, s: State)
    requires InOrder(s) && AppliedOk(rp, s.world.pulled, s.world.applied)
    ensures InFlight(s) == s.world.pulled
  {
    var w := s.world;
    AppliedBlocks(rp, w.pulled[..|w.applied|]);
    assert w.applied == w.applied[..w.checked] + w.applied[w.checked..];
    assert w.pulled == w.pulled[..|w.applied|] + w.pulled[|w.applied|..];
  }

  /** At every reachable state the blocks checked, in hand or buffered are, in this order, exactly
    * the blocks pulled so far: a prefix of the stream. */
  lemma InFlightIsStreamPrefix(rp: Replay, steps: seq<Step>)
    requires Interleaving(rp, Init(rp), steps)
    ensures var s := RunSteps(rp, Init(rp), steps);
            && s.world.checked <= |s.world.applied|
            && |InFlight(s)| <= |rp.items|
            && ReadAll(rp, rp.items[..|InFlight(s)|]) == Some(InFlight(s))
  {
    RunInv(rp, Init(rp), steps);
    InFlightIsPulled(rp, RunSteps(rp, Init(rp), steps));
  }

  /** Applied blocks never run more than the channel size plus two ahead of checked ones. */
  lemma AppliedStayNearChecked(rp: Replay, steps: seq<Step>)
    requires Interleaving(rp, Init(rp), steps)
    ensures var w := RunSteps(rp, Init(rp), steps).world;
            w.checked <= |w.applied| <= w.checked + 130
  {
    RunInv(rp, Init(rp), steps);
    var s := RunSteps(rp, Init(rp), steps);
    assert |s.world.applied[s.world.checked..]| == |Hand3(s) + s.results + Hand2(s)|;
  }

  // --- State-root futures ---

  /** The results that stage 3 has not checked while stage 2 applies another block. Nothing but the check
    * awaits their state-root futures, and a snapshot that is due closes the state they came from. */
  function Unawaited(s: State): seq<Result>
    requires s.world.checked <= |s.world.applied|
  {
    s.world.applied[s.world.checked..]
  }

  /** When stage 2 is about to apply a block, and to take the snapshot that may be due there, the futures
    * not awaited are those that stage 3 holds or that wait in the channel, at most one more than the
    * channel takes. All are resolved exactly if there are none of these. */
  lemma {:induction false} UnawaitedAtApply(rp: Replay, steps: seq<Step>)
    requires Interleaving(rp, Init(rp), steps) && RunSteps(rp, Init(rp), steps).stage2.Hold2?
    ensures var s := RunSteps(rp, Init(rp), steps);
            && s.world.checked <= |s.world.applied|
            && Unawaited(s) == Hand3(s) + s.results && |Unawaited(s)| <= 129
            && (Unawaited(s) == [] <==> s.world.checked == |s.world.applied|)
            && (Unawaited(s) == [] <==> s.results == [] && Hand3(s) == [])
  {
    RunInv(rp, Init(rp), steps);
  }

  /** From item k on, n blocks can be read and applied, and one more can be read. */
  predicate CanApply(rp: Replay, chain: Chain, k: nat, n: nat)
    decreases n
  {
    && k < |rp.items| && Readable(rp, rp.items[k])
    && (n > 0 ==>
          && rp.apply(chain, rp.items[k].block).Applied?
          && CanApply(rp, rp.apply(chain, rp.items[k].block).chain, k + 1, n - 1))
  }

  const FETCH := [PullNext, Send1, Receive2]

  /** Stage 3 takes the first result and then stands still. */
  function Backlog(n: nat): seq<Step> {
    if n == 0 then FETCH else FETCH + [Apply2, Send2, Receive3] + Rounds(n - 1)
  }

  function Rounds(n: nat): seq<Step> {
    if n == 0 then FETCH else FETCH + [Apply2, Send2] + Rounds(n - 1)
  }

  /** Stages 1 and 2 have nothing in hand. */
  predicate Ready(s: State) {
    s.stage1.Pull? && s.decoded == [] && s.stage2.Take2? && !s.signals.cancelled
  }

  lemma {:induction false} RunConcat(rp: Replay, s: State, a: seq<Step>, b: seq<Step>)
    requires Interleaving(rp, s, a) && Interleaving(rp, RunSteps(rp, s, a), b)
    ensures Interleaving(rp, s, a + b) && RunSteps(rp, s, a + b) == RunSteps(rp, RunSteps(rp, s, a), b)
    decreases |a|
  {
    if a == [] {
      assert a + b == b;
    } else {
      RunConcat(rp, Do(rp, s, a[0]), a[1..], b);
      assert (a + b)[1..] == a[1..] + b;
    }
  }

  lemma {:induction false} RunOne(rp: Replay, s: State, x: Step)
    requires Enabled(s, x)
    ensures Interleaving(rp, s, [x]) && RunSteps(rp, s, [x]) == Do(rp, s, x)
  {
    assert [x][1..] == [];
  }

  lemma {:induction false} RunTwo(rp: Replay, s: State, x: Step, y: Step)
    requires Enabled(s, x) && Enabled(Do(rp, s, x), y)
    ensures Interleaving(rp, s, [x, y]) && RunSteps(rp, s, [x, y]) == Do(rp, Do(rp, s, x), y)
  {
    RunOne(rp, s, x);
    RunOne(rp, Do(rp, s, x), y);
    RunConcat(rp, s, [x], [y]);
    assert [x, y] == [x] + [y];
  }

  lemma {:induction false} RunFetch(rp: Replay, s: State)
    requires Ready(s) && |s.world.pulled| < |rp.items| && Readable(rp, rp.items[|s.world.pulled|])
    ensures var b := rp.items[|s.world.pulled|].block;
            && Interleaving(rp, s, FETCH)
            && RunSteps(rp, s, FETCH)
               == s.(stage2 := Hold2(b), world := s.world.(pulled := s.world.pulled + [b]))
  {
    var t := Do(rp, Do(rp, s, PullNext), Send1);
    RunTwo(rp, s, PullNext, Send1);
    RunOne(rp, t, Receive2);
    RunConcat(rp, s, [PullNext, Send1], [Receive2]);
    assert FETCH == [PullNext, Send1] + [Receive2];
  }

  /** One block is read, applied and handed on. */
  lemma {:induction false} RunRound(rp: Replay, s: State, n: nat)
    requires Ready(s) && |s.results| < CHANNEL_SIZE && n > 0 && CanApply(rp, s.world.chain, |s.world.pulled|, n)
    ensures Interleaving(rp, s, FETCH + [Apply2, Send2])
    ensures var t := RunSteps(rp, s, FETCH + [Apply2, Send2]);
            && Ready(t) && t.stage3 == s.stage3 && |t.results| == |s.results| + 1
            && CanApply(rp, t.world.chain, |t.world.pulled|, n - 1)
  {
    RunFetch(rp, s);
    var t := RunSteps(rp, s, FETCH);
    RunTwo(rp, t, Apply2, Send2);
    RunConcat(rp, s, FETCH, [Apply2, Send2]);
  }

  lemma {:induction false} RunRounds(rp: Replay, s: State, n: nat)
    requires Ready(s) && |s.results| + n <= CHANNEL_SIZE && CanApply(rp, s.world.chain, |s.world.pulled|, n)
    ensures Interleaving(rp, s, Rounds(n))
    ensures var t := RunSteps(rp, s, Rounds(n));
            t.stage2.Hold2? && t.stage3 == s.stage3 && |t.results| == |s.results| + n
    decreases n
  {
    if n == 0 {
      RunFetch(rp, s);
    } else {
      RunRound(rp, s, n);
      var t := RunSteps(rp, s, FETCH + [Apply2, Send2]);
      RunRounds(rp, t, n - 1);
      RunConcat(rp, s, FETCH + [Apply2, Send2], Rounds(n - 1));
    }
  }

  /** The bound is reached, and every number below it: a replay that can apply n blocks and read one more
    * has an interleaving in which n futures are not awaited when this block is applied. */
  lemma {:induction false} UnawaitedReached(rp: Replay, n: nat)
    requires n <= 129 && CanApply(rp, rp.chain, 0, n)
    ensures Interleaving(rp, Init(rp), Backlog(n))
    ensures var s := RunSteps(rp, Init(rp), Backlog(n));
            s.stage2.Hold2? && s.world.checked <= |s.world.applied| && |Unawaited(s)| == n
  {
    var s := Init(rp);
    if n == 0 {
      RunFetch(rp, s);
    } else {
      RunRound(rp, s, n);
      var t := RunSteps(rp, s, FETCH + [Apply2, Send2]);
      RunOne(rp, t, Receive3);
      RunConcat(rp, s, FETCH + [Apply2, Send2], [Receive3]);
      var u := Do(rp, t, Receive3);
      RunRounds(rp, u, n - 1);
      RunConcat(rp, s, FETCH + [Apply2, Send2] + [Receive3], Rounds(n - 1));
      assert FETCH + [Apply2, Send2] + [Receive3] == FETCH + [Apply2, Send2, Receive3];
    }
    UnawaitedAtApply(rp, Backlog(n));
  }

  function TailWeight(tail: Tail): nat {
    match tail case Reporting(_) => 3 case Aborting => 2 case Closing => 1 case Done => 0
  }

  function StageWeights(s: State): nat {
    (match s.stage1 case Pull => 4 case Offer1(_) => 4 + 6 case Exit1(t, _) => TailWeight(t)) +
    (match s.stage2 case Take2 => 4 case Hold2(_) => 4 + 4 case Offer2(_) => 4 + 3 case Exit2(t, _, _) => TailWeight(t)) +
    (match s.stage3 case Take3 => 4 case Hold3(_) => 4 + 1 case Exit3(t, _) => TailWeight(t))
  }

  /** An upper bound on the number of steps still possible. */
  function StepsLeft(rp: Replay, s: State): int {
    7 * (|rp.items| - |s.world.pulled|) + 5 * |s.decoded| + 2 * |s.results| + StageWeights(s)
    + (if s.signals.cancelled then 0 else 1)
  }

  lemma EveryStepCounts(rp: Replay, s: State, step: Step)
    requires Enabled(s, step)
    ensures StepsLeft(rp, Do(rp, s, step)) < StepsLeft(rp, s)
  {
  }

  lemma {:induction false} RunLength(rp: Replay, s: State, steps: seq<Step>)
    requires Inv(rp, s) && Interleaving(rp, s, steps)
    ensures |steps| <= StepsLeft(rp, s)
    decreases |steps|
  {
    if steps != [] {
      EveryStepCounts(rp, s, steps[0]);
      StepInv(rp, s, steps[0]);
      RunLength(rp, Do(rp, s, steps[0]), steps[1..]);
    }
  }

  /** Every interleaving ends, after at most seven steps a block and thirteen for the shutdown. */
  lemma PipelineTerminates(rp: Replay, steps: seq<Step>)
    requires Interleaving(rp, Init(rp), steps)
    ensures |steps| <= 7 * |rp.items| + 13
  {
    RunLength(rp, Init(rp), steps);
  }

  /** A step to take next: the last stage that can move. */
  function NextStep(s: State): Step {
    if s.stage3.Hold3? then Check3
    else if Enabled(s, Receive3) then Receive3
    else if Enabled(s, Leave3) then Leave3
    else if s.stage2.Hold2? then Apply2
    else if Enabled(s, Send2) then Send2
    else if Enabled(s, Quit2) then Quit2
    else if Enabled(s, Receive2) then Receive2
    else if Enabled(s, Leave2) then Leave2
    else if s.stage1.Pull? then PullNext
    else if Enabled(s, Send1) then Send1
    else if Enabled(s, Quit1) then Quit1
    else Leave1
  }

  lemma NextStepEnabled(rp: Replay, s: State)
    requires Controlled(rp, s) && !Terminal(s)
    ensures Enabled(s, NextStep(s))
  {
  }

  /** No deadlock: unless all three goroutines are done, one of them can take a step, also after any
    * of them has reported an error. */
  lemma PipelineNeverStuck(rp: Replay, steps: seq<Step>)
    requires Interleaving(rp, Init(rp), steps)
    ensures var s := RunSteps(rp, Init(rp), steps);
            !Terminal(s) ==> exists step :: step != Cancel && Enabled(s, step)
  {
    RunControlled(rp, steps);
    SomeStepEnabled(rp, RunSteps(rp, Init(rp), steps));
  }

  lemma RunControlled(rp: Replay, steps: seq<Step>)
    requires Interleaving(rp, Init(rp), steps)
    ensures Controlled(rp, RunSteps(rp, Init(rp), steps))
  {
    RunInv(rp, Init(rp), steps);
  }

  lemma SomeStepEnabled(rp: Replay, s: State)
    requires Controlled(rp, s)
    ensures !Terminal(s) ==> exists step :: step != Cancel && Enabled(s, step)
  {
    if !Terminal(s) {
      NextStepEnabled(rp, s);
      assert NextStep(s) != Cancel;
    }
  }

  /** A stage that gives up early has the abort channel closed behind it. */
  lemma EarlyExitAborts(rp: Replay, steps: seq<Step>)
    requires Interleaving(rp, Init(rp), steps)
    ensures var s := RunSteps(rp, Init(rp), steps);
            && (s.stage1.Exit1? && s.stage1.tail.Done? && |s.world.pulled| < |rp.items| ==> s.signals.abort)
            && (s.stage2.Exit2? && s.stage2.tail.Done? && !Finished2(s) ==> s.signals.abort)
            && (s.stage3.Exit3? && s.stage3.tail.Done? && !Finished3(s) ==> s.signals.abort)
  {
    RunInv(rp, Init(rp), steps);
  }

  /** A stage is about to report an issue, or one has been reported. */
  predicate HasIssue(s: State) {
    || s.signals.issue.Some?
    || (s.stage1.Exit1? && s.stage1.tail.Reporting?)
    || (s.stage2.Exit2? && s.stage2.tail.Reporting?)
    || (s.stage3.Exit3? && s.stage3.tail.Reporting?)
  }

  /** An issue found by any stage is never forgotten: a nil result means that no stage had one. */
  lemma {:induction false} IssueIsNeverLost(rp: Replay, s: State, steps: seq<Step>)
    requires HasIssue(s) && Interleaving(rp, s, steps) && Terminal(RunSteps(rp, s, steps))
    ensures RunSteps(rp, s, steps).signals.issue.Some?
    decreases |steps|
  {
    if steps != [] {
      assert HasIssue(Do(rp, s, steps[0]));
      IssueIsNeverLost(rp, Do(rp, s, steps[0]), steps[1..]);
    }
  }

  /** The issue that a step stores, if it is a stage reporting one. */
  function Reported(s: State, step: Step): Option<Issue> {
    if step.Leave1? && s.stage1.Exit1? && s.stage1.tail.Reporting? then Some(s.stage1.tail.issue)
    else if step.Leave2? && s.stage2.Exit2? && s.stage2.tail.Reporting? then Some(s.stage2.tail.issue)
    else if step.Leave3? && s.stage3.Exit3? && s.stage3.tail.Reporting? then Some(s.stage3.tail.issue)
    else None
  }

  function LastReported(rp: Replay, s: State, steps: seq<Step>): Option<Issue>
    requires Interleaving(rp, s, steps)
    decreases |steps|
  {
    if steps == [] then None
    else
      var later := LastReported(rp, Do(rp, s, steps[0]), steps[1..]);
      if later.Some? then later else Reported(s, steps[0])
  }

  /** The issue at the end is the last one that a stage has reported, and none if no stage has. */
  lemma {:induction false} IssueIsLastReported(rp: Replay, s: State, steps: seq<Step>)
    requires Interleaving(rp, s, steps)
    ensures RunSteps(rp, s, steps).signals.issue
            == if LastReported(rp, s, steps).Some? then LastReported(rp, s, steps) else s.signals.issue
    decreases |steps|
  {
    if steps != [] {
      IssueIsLastReported(rp, Do(rp, s, steps[0]), steps[1..]);
    }
  }

  /** Once the context is cancelled no block is taken from the stream. */
  lemma {:induction false} NothingPulledAfterCancel(rp: Replay, s: State, steps: seq<Step>)
    requires s.signals.cancelled && Interleaving(rp, s, steps)
    ensures RunSteps(rp, s, steps).world.pulled == s.world.pulled
    ensures RunSteps(rp, s, steps).signals.cancelled
    decreases |steps|
  {
    if steps != [] {
      NothingPulledAfterCancel(rp, Do(rp, s, steps[0]), steps[1..]);
    }
  }

  lemma {:induction false} RunSplit(rp: Replay, s: State, steps: seq<Step>, k: nat)
    requires Interleaving(rp, s, steps) && k <= |steps|
    ensures Interleaving(rp, s, steps[..k]) && Interleaving(rp, RunSteps(rp, s, steps[..k]), steps[k..])
    ensures RunSteps(rp, s, steps) == RunSteps(rp, RunSteps(rp, s, steps[..k]), steps[k..])
    decreases k
  {
    if k == 0 {
      assert steps[0..] == steps;
    } else {
      RunSplit(rp, Do(rp, s, steps[0]), steps[1..], k - 1);
      assert steps[..k][1..] == steps[1..][..k - 1] && steps[k..] == steps[1..][k - 1..];
    }
  }

  /** A context that is cancelled while there are blocks left to take ends the pipeline with an issue, and
    * with no more blocks taken than when it was cancelled. */
  lemma {:induction false} CancellationIsReported(rp: Replay, steps: seq<Step>, k: nat)
    requires Interleaving(rp, Init(rp), steps) && k <= |steps| && Interleaving(rp, Init(rp), steps[..k])
    requires RunSteps(rp, Init(rp), steps[..k]).signals.cancelled
    ensures var s, end := RunSteps(rp, Init(rp), steps[..k]), RunSteps(rp, Init(rp), steps);
            && end.world.pulled == s.world.pulled
            && (|s.world.pulled| < |rp.items| && Terminal(end) ==> end.signals.issue.Some?)
  {
    RunSplit(rp, Init(rp), steps, k);
    NothingPulledAfterCancel(rp, RunSteps(rp, Init(rp), steps[..k]), steps[k..]);
    RunControlled(rp, steps);
  }

  lemma NilResultIsSuccess(rp: Replay, s: State)
    requires Inv(rp, s) && Terminal(s) && s.signals.issue.None?
    ensures s.world.checked == |s.world.applied|
    ensures Succeeds(rp, s.world.chain, s.world.ledger, s.world.applied)
  {
    var w := s.world;
    assert Finished1(rp, s) && Finished2(s) && Finished3(s);
    assert w.pulled[|w.applied|..] == [] && w.applied[w.checked..] == [];
    assert w.pulled[..|w.applied|] == w.pulled && w.applied[..w.checked] == w.applied;
    assert rp.items[..|w.pulled|] == rp.items;
  }

  /** The pipeline computes what the plain loop computes. Under every interleaving, once all stages
    * are done: a nil result means that every block was read, applied and checked, exactly once and in
    * order, with the chain, ledger and results of processing them one by one; and without
    * cancellation the result is nil exactly when the plain loop returns nil. */
  lemma PipelineRefinesLoop(rp: Replay, steps: seq<Step>)
    requires Interleaving(rp, Init(rp), steps) && Terminal(RunSteps(rp, Init(rp), steps))
    ensures var s := RunSteps(rp, Init(rp), steps);
            var w := s.world;
            && (s.signals.issue.None? ==> w.checked == |w.applied| && Succeeds(rp, w.chain, w.ledger, w.applied))
            && (s.signals.issue.Some? ==> Genuine(rp, s.signals.issue.value))
            && (s.signals.issue == Some(CancelledIssue) ==> s.signals.cancelled)
            && (!s.signals.cancelled ==> (s.signals.issue.None? <==> Succeeding(rp)))
  {
    RunInv(rp, Init(rp), steps);
    var s := RunSteps(rp, Init(rp), steps);
    if s.signals.issue.None? {
      NilResultIsSuccess(rp, s);
    } else if !s.signals.cancelled {
      GenuineIssueExcludesSuccess(rp, s.signals.issue.value);
    }
  }
}
