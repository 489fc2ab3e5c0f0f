/** Verifying old blocks against the archive while a replay runs (go/replay/archive_verifier.go,
  * go/utils/random_retention_pool.go). The dispatcher and the goroutines it starts are modelled as a step
  * relation; which pool entry is replaced or picked is left open. */
module ArchivePool {
  import opened HashHistory
  import opened Options

  const POOL_CAPACITY := 1024
  const MAX_CONCURRENT := 8
  const ATTEMPTS := 10

  type Error(!new, ==)

  /** What a block hash history holds. */
  type Ring = s: seq<Hash> | |s| == HISTORY_LEN witness seq(HISTORY_LEN, _ => 0)

  /** `blockWithHashHistory`. */
  datatype Entry = Entry(number: nat, history: Ring)

  /** The hashes that a block can ask for: those of the 256 blocks before it, the last one first. */
  function Window(ring: Ring, n: nat): seq<Hash> {
    seq(if n < HISTORY_LEN then n else HISTORY_LEN,
        k requires 0 <= k < n => ring[(n - 1 - k) % HISTORY_LEN])
  }

  function TrueWindow(hashOf: nat -> Hash, n: nat): seq<Hash> {
    seq(if n < 256 then n else 256, k requires 0 <= k < n => hashOf(n - 1 - k))
  }

  /** Converting block n, re-executing it on the archived state of its parent, where it can ask for the
    * given hashes, and checking the receipts. */
  datatype Archive = Archive(recheck: (nat, seq<Hash>) -> Option<Error>)

  function Verify(a: Archive, e: Entry): Option<Error> { a.recheck(e.number, Window(e.history, e.number)) }

  /** A goroutine of `verifyBlock`: it reads the height of the archive, picks an entry, checks it. */
  datatype Task = Starting | Picking(height: nat) | Checking(entry: Entry)

  /** How such a goroutine ended. */
  datatype End = HeightFailed(error: Error) | NothingToDo | Checked(entry: Entry)

  /** The pool, the goroutines, the height of the archive (None if it is empty) and what the dispatcher
    * keeps; and as history: the entries submitted, how many goroutines were started, how they ended. */
  datatype State = State(pool: seq<Entry>, running: seq<Task>, height: Option<nat>, dropped: nat,
                         firstErr: Option<Error>, stopped: bool,
                         submitted: set<Entry>, started: nat, ended: seq<End>)

  datatype Step =
    | Submit(entry: Entry, slot: nat)           // slot: the random victim if the pool is full
    | Archived(top: nat)                        // the archive grows
    | Tick                                      // the ticker of the dispatcher
    | ReadHeight(i: nat, error: Option<Error>)  // goroutine i reads the height, or fails to
    | Pick(i: nat, slot: nat)                   // ... finds an entry that is in the archive
    | GiveUp(i: nat)                            // ... finds none
    | Finish(i: nat)                            // ... has checked its entry
    | Report                                    // the ticker that reports dropped ticks
    | Stop                                      // close, or the context is cancelled

  predicate Enabled(s: State, step: Step) {
    match step
    case Submit(_, slot) => slot < POOL_CAPACITY
    case Archived(top) => s.height.None? || s.height.value < top
    case Tick => !s.stopped
    case ReadHeight(i, _) => i < |s.running| && s.running[i].Starting?
    case Pick(i, slot) =>
      && i < |s.running| && s.running[i].Picking?
      && slot < |s.pool| && s.pool[slot].number <= s.running[i].height + 1
    case GiveUp(i) => i < |s.running| && s.running[i].Picking?
    case Finish(i) => i < |s.running| && s.running[i].Checking?
    case Report => !s.stopped
    case Stop => true
  }

  function FailureOf(a: Archive, end: End): Option<Error> {
    match end
    case HeightFailed(error) => Some(error)
    case NothingToDo => None
    case Checked(entry) => Verify(a, entry)
  }

  /** Goroutine i ends; the first error is kept. */
  function EndTask(a: Archive, s: State, i: nat, end: End): State
    requires i < |s.running|
  {
    s.(running := s.running[..i] + s.running[i + 1..],
       firstErr := if s.firstErr.None? then FailureOf(a, end) else s.firstErr,
       ended := s.ended + [end])
  }

  /** `RandomRetentionPool.Add`. */
  function Added(pool: seq<Entry>, entry: Entry, slot: nat): seq<Entry> {
    if |pool| < POOL_CAPACITY then pool + [entry]
    else if slot < |pool| then pool[slot := entry]
    else pool
  }

  /** An entry that is added is in the pool, in a place of its own or in that of one other entry. */
  lemma {:induction false} AddedIs(pool: seq<Entry>, entry: Entry, slot: nat)
    requires |pool| <= 1024 && slot < 1024
    ensures var after := Added(pool, entry, slot);
            && entry in after && |after| == (if |pool| < 1024 then |pool| + 1 else 1024)
            && forall i | 0 <= i < |pool| && (|pool| < 1024 || i != slot) :: after[i] == pool[i]
  {
    var after := Added(pool, entry, slot);
    if |pool| < 1024 { assert after[|pool|] == entry; } else { assert after[slot] == entry; }
  }

  function Do(a: Archive, s: State, step: Step): State
    requires Enabled(s, step)
  {
    match step
    case Submit(entry, slot) =>
      if entry.number == 0 then s
      else s.(pool := Added(s.pool, entry, slot), submitted := s.submitted + {entry})
    case Archived(top) => s.(height := Some(top))
    case Tick =>
      if |s.running| < MAX_CONCURRENT then s.(running := s.running + [Starting], started := s.started + 1)
      else s.(dropped := s.dropped + 1)
    case ReadHeight(i, error) =>
      if error.Some? then EndTask(a, s, i, HeightFailed(error.value))
      else if s.height.None? then EndTask(a, s, i, NothingToDo)
      else s.(running := s.running[i := Picking(s.height.value)])
    case Pick(i, slot) => s.(running := s.running[i := Checking(s.pool[slot])])
    case GiveUp(i) => EndTask(a, s, i, NothingToDo)
    case Finish(i) => EndTask(a, s, i, Checked(s.running[i].entry))
    case Report => s.(dropped := 0)
    case Stop => s.(stopped := true)
  }

  const START := State([], [], None, 0, None, false, {}, 0, [])

  predicate Interleaving(a: Archive, s: State, steps: seq<Step>)
    decreases |steps|
  {
    steps == [] || (Enabled(s, steps[0]) && Interleaving(a, Do(a, s, steps[0]), steps[1..]))
  }

  function RunSteps(a: Archive, s: State, steps: seq<Step>): State
    requires Interleaving(a, s, steps)
    decreases |steps|
  {
    if steps == [] then s else RunSteps(a, Do(a, s, steps[0]), steps[1..])
  }

  // --- What every run keeps ---

  predicate WasSubmitted(s: State, e: Entry) { e in s.submitted && e.number > 0 }

  /** The state of the parent of the block is in the archive. */
  predicate ParentArchived(s: State, e: Entry) {
    s.height.Some? && e.number <= s.height.value + 1
  }

  predicate TaskOk(s: State, t: Task) {
    match t
    case Starting => true
    case Picking(height) => s.height.Some? && height <= s.height.value
    case Checking(e) => WasSubmitted(s, e) && ParentArchived(s, e)
  }

  predicate EndOk(s: State, end: End) {
    end.Checked? ==> WasSubmitted(s, end.entry) && ParentArchived(s, end.entry)
  }

  /** At most eight goroutines are at work, namely those started and not ended; the pool is bounded;
    * whatever is in it or is re-executed was submitted, is not block 0, and is re-executed only with the
    * state of its parent in the archive. */
  predicate Bounded(s: State) {
    && |s.running| <= 8 && s.started == |s.running| + |s.ended|
    && |s.pool| <= 1024 && forall e | e in s.pool :: WasSubmitted(s, e)
  }

  predicate TasksOk(s: State) {
    (forall t | t in s.running :: TaskOk(s, t)) && forall end | end in s.ended :: EndOk(s, end)
  }

  /** The first failure in the order in which the goroutines ended. */
  function FirstFailure(a: Archive, ended: seq<End>): Option<Error> {
    if ended == [] then None
    else
      var earlier := FirstFailure(a, ended[..|ended| - 1]);
      if earlier.Some? then earlier else FailureOf(a, ended[|ended| - 1])
  }

  predicate Inv(a: Archive, s: State) {
    Bounded(s) && TasksOk(s) && s.firstErr == FirstFailure(a, s.ended)
  }

  lemma {:induction false} BoundedStep(a: Archive, s: State, step: Step)
    requires Bounded(s) && TasksOk(s) && Enabled(s, step)
    ensures Bounded(Do(a, s, step))
  {
    if step.Submit? && step.entry.number > 0 {
      forall e | e in Added(s.pool, step.entry, step.slot)
        ensures WasSubmitted(Do(a, s, step), e)
      {
        assert e in s.pool || e == step.entry;
      }
    }
  }

  /** Nothing that a task or an end depends on goes away. */
  lemma {:induction false} StillOk(a: Archive, s: State, step: Step)
    requires Enabled(s, step)
    ensures var s' := Do(a, s, step);
            && (forall t | TaskOk(s, t) :: TaskOk(s', t))
            && (forall end | EndOk(s, end) :: EndOk(s', end))
  {
  }

  lemma {:induction false} TasksOkStep(a: Archive, s: State, step: Step)
    requires Bounded(s) && TasksOk(s) && Enabled(s, step)
    ensures TasksOk(Do(a, s, step))
  {
    StillOk(a, s, step);
    var s' := Do(a, s, step);
    if step.Finish? {
      assert s.running[step.i] in s.running;
    }
    if step.Pick? {
      assert s.pool[step.slot] in s.pool && s.running[step.i] in s.running;
    }
    forall t | t in s'.running
      ensures TaskOk(s', t)
    {
      if t in s.running { assert TaskOk(s, t); }
    }
    forall end | end in s'.ended
      ensures EndOk(s', end)
    {
      if end in s.ended { assert EndOk(s, end); }
    }
  }

  lemma {:induction false} FirstErrStep(a: Archive, s: State, step: Step)
    requires s.firstErr == FirstFailure(a, s.ended) && Enabled(s, step)
    ensures Do(a, s, step).firstErr == FirstFailure(a, Do(a, s, step).ended)
  {
    var s' := Do(a, s, step);
    if s'.ended != s.ended {
      assert s'.ended[..|s'.ended| - 1] == s.ended;
    }
  }

  lemma {:induction false} RunInv(a: Archive, s: State, steps: seq<Step>)
    requires Inv(a, s) && Interleaving(a, s, steps)
    ensures Inv(a, RunSteps(a, s, steps))
    decreases |steps|
  {
    if steps != [] {
      BoundedStep(a, s, steps[0]);
      TasksOkStep(a, s, steps[0]);
      FirstErrStep(a, s, steps[0]);
      RunInv(a, Do(a, s, steps[0]), steps[1..]);
    }
  }

  /** In every run; once `close` has waited for the goroutines, as many have ended as were started. */
  lemma {:induction false} RunInvariant(a: Archive, steps: seq<Step>)
    requires Interleaving(a, START, steps)
    ensures var s := RunSteps(a, START, steps);
            && Bounded(s) && TasksOk(s) && (s.running == [] ==> |s.ended| == s.started)
            && forall e | Checking(e) in s.running ::
                 e in s.submitted && e.number > 0 && s.height.Some? && e.number - 1 <= s.height.value
  {
    RunInv(a, START, steps);
    var s := RunSteps(a, START, steps);
    forall e | Checking(e) in s.running
      ensures TaskOk(s, Checking(e))
    {
    }
  }

  lemma {:induction false} FailuresAreFound(a: Archive, ended: seq<End>)
    ensures FirstFailure(a, ended).Some? <==> exists end :: end in ended && FailureOf(a, end).Some?
    ensures FirstFailure(a, ended).Some? ==> exists end :: end in ended && FailureOf(a, end) == FirstFailure(a, ended)
  {
    if ended != [] {
      var init, last := ended[..|ended| - 1], ended[|ended| - 1];
      assert ended == init + [last];
      FailuresAreFound(a, init);
    }
  }

  predicate HeightUnread(ended: seq<End>) {
    exists end :: end in ended && end.HeightFailed?
  }

  /** Re-executing the block with the hashes of the entry gave an error. */
  predicate IsWrong(a: Archive, end: End) {
    end.Checked? && a.recheck(end.entry.number, Window(end.entry.history, end.entry.number)).Some?
  }

  predicate FoundWrong(a: Archive, ended: seq<End>) {
    exists end :: end in ended && IsWrong(a, end)
  }

  /** The error that `close` returns is that of the first goroutine that failed; there is one exactly if
    * one has failed. Dropped ticks, replaced entries and later failures make no difference. */
  lemma {:induction false} CloseReportsFirst(a: Archive, steps: seq<Step>)
    requires Interleaving(a, START, steps)
    ensures var s := RunSteps(a, START, steps);
            && s.firstErr == FirstFailure(a, s.ended)
            && (s.firstErr.Some? <==> HeightUnread(s.ended) || FoundWrong(a, s.ended))
  {
    RunInv(a, START, steps);
    var s := RunSteps(a, START, steps);
    FailuresAreFound(a, s.ended);
    if HeightUnread(s.ended) {
      var end :| end in s.ended && end.HeightFailed?;
      assert FailureOf(a, end).Some?;
    }
    if FoundWrong(a, s.ended) {
      var end :| end in s.ended && IsWrong(a, end);
      assert FailureOf(a, end).Some?;
    }
    if s.firstErr.Some? {
      var end :| end in s.ended && FailureOf(a, end).Some?;
      assert end.HeightFailed? || IsWrong(a, end);
    }
  }

  /** Whatever is in the pool can be checked as soon as the state of its parent is archived: the next tick that
    * finds fewer than eight goroutines can start one that picks this entry. */
  lemma {:induction false} CanBeChecked(a: Archive, s: State, slot: nat)
    requires !s.stopped && |s.running| < 8 && slot < |s.pool| && ParentArchived(s, s.pool[slot])
    ensures var i := |s.running|;
            var steps := [Tick, ReadHeight(i, None), Pick(i, slot), Finish(i)];
            && Interleaving(a, s, steps)
            && var t := RunSteps(a, s, steps);
               && t.ended == s.ended + [Checked(s.pool[slot])] && t.running == s.running && t.pool == s.pool
               && (s.firstErr.None? ==> t.firstErr == a.recheck(s.pool[slot].number,
                                                                Window(s.pool[slot].history, s.pool[slot].number)))
  {
    var i := |s.running|;
    var s1 := Do(a, s, Tick);
    var s2 := Do(a, s1, ReadHeight(i, None));
    var s3 := Do(a, s2, Pick(i, slot));
    var s4 := Do(a, s3, Finish(i));
    assert s3.running[..i] + s3.running[i + 1..] == s.running;
    assert Interleaving(a, s3, [Finish(i)]) && RunSteps(a, s3, [Finish(i)]) == s4 by {
      assert [Finish(i)][1..] == [];
    }
    assert Interleaving(a, s2, [Pick(i, slot), Finish(i)]) && RunSteps(a, s2, [Pick(i, slot), Finish(i)]) == s4 by {
      assert [Pick(i, slot), Finish(i)][1..] == [Finish(i)];
    }
    var last := [ReadHeight(i, None), Pick(i, slot), Finish(i)];
    assert Interleaving(a, s1, last) && RunSteps(a, s1, last) == s4 by {
      assert last[1..] == [Pick(i, slot), Finish(i)];
    }
    assert [Tick, ReadHeight(i, None), Pick(i, slot), Finish(i)][1..] == last;
  }

  // --- No false alarms ---

  /** The clone of the ring, taken before its block, gives the block the true hashes. */
  lemma {:induction false} WindowIsTrue(ring: Ring, n: nat, hashOf: nat -> Hash)
    requires Remembers(ring, n, hashOf)
    ensures Window(ring, n) == TrueWindow(hashOf, n)
  {
    forall k | 0 <= k < |Window(ring, n)|
      ensures Window(ring, n)[k] == TrueWindow(hashOf, n)[k]
    {
      var m: nat := n - 1 - k;
      assert ring[m % HISTORY_LEN] == hashOf(m);
    }
  }

  /** The entries hold the true hashes before their blocks. */
  ghost predicate Faithful(entries: set<Entry>, hashOf: nat -> Hash) {
    forall e | e in entries :: Remembers(e.history, e.number, hashOf)
  }

  /** Re-execution with the true hashes finds nothing wrong with the blocks of the given entries. */
  ghost predicate CorrectChain(a: Archive, entries: set<Entry>, hashOf: nat -> Hash) {
    forall e | e in entries :: a.recheck(e.number, TrueWindow(hashOf, e.number)).None?
  }

  /** On a correct chain no verification fails, whatever is sampled, replaced and dropped, and however far
    * the ring of the replay has moved on: `close` returns an error only if the height of the archive could
    * not be read. */
  lemma {:induction false} NoFalseAlarm(a: Archive, steps: seq<Step>, hashOf: nat -> Hash)
    requires Interleaving(a, START, steps)
    requires var submitted := RunSteps(a, START, steps).submitted;
             Faithful(submitted, hashOf) && CorrectChain(a, submitted, hashOf)
    ensures var s := RunSteps(a, START, steps);
            s.firstErr.Some? <==> HeightUnread(s.ended)
  {
    RunInv(a, START, steps);
    CloseReportsFirst(a, steps);
    var s := RunSteps(a, START, steps);
    forall end | end in s.ended
      ensures !IsWrong(a, end)
    {
      assert EndOk(s, end);
      if end.Checked? { WindowIsTrue(end.entry.history, end.entry.number, hashOf); }
    }
  }

  /** The entries that a replay submits: each block with the clone taken before it. If the replay goes
    * through they hold the true hashes, although the ring they were cloned from has moved on. */
  method Submissions(history: BlockHashHistory, first: nat, blocks: seq<Block>, computed: nat -> Hash,
                     ghost parentOf: nat -> Hash)
    returns (ok: bool, entries: seq<Entry>)
    requires history.historicHashes.Length == HISTORY_LEN
    requires Remembers(history.historicHashes[..], first, Recorded(parentOf))
    requires forall i | 0 <= i < |blocks| ::
               blocks[i].number == first + i && blocks[i].parentHash == parentOf(first + i)
    requires forall n :: computed(n) != 0
    modifies history.historicHashes
    ensures ok <==> forall n | first < n < first + |blocks| :: computed(n - 1) == parentOf(n)
    ensures ok ==>
              && |entries| == |blocks| && (forall i | 0 <= i < |blocks| :: entries[i].number == first + i)
              && Faithful((set e | e in entries), Recorded(parentOf))
  {
    var clones;
    ok, clones := ReplayHashes(history, first, blocks, computed, parentOf);
    entries := [];
    if !ok {
      return;
    }
    while |entries| < |clones|
      invariant |entries| <= |clones|
      invariant forall i | 0 <= i < |entries| ::
                  entries[i].number == first + i && Remembers(entries[i].history, first + i, Recorded(parentOf))
    {
      var i := |entries|;
      assert ClonedAt(clones[i], history, first + i, Recorded(parentOf));
      entries := entries + [Entry(first + i, clones[i].historicHashes[..])];
    }
  }

  predicate TooHigh(given: Option<Entry>, archiveHeight: nat) {
    given.Some? && given.value.number > archiveHeight + 1
  }

  /** The selection in `verifyBlock`; `gives` are the answers of the pool, which changes meanwhile. The
    * first entry whose parent state is in the archive is taken, among at most ten and before the pool is
    * found empty. */
  method Select(gives: nat -> Option<Entry>, archiveHeight: nat) returns (item: Option<Entry>)
    ensures item.Some? ==>
              && item.value.number <= archiveHeight + 1
              && exists i: nat | i < 10 ::
                   gives(i) == item && forall j: nat | j < i :: TooHigh(gives(j), archiveHeight)
    ensures item.None? ==>
              || (forall j: nat | j < 10 :: TooHigh(gives(j), archiveHeight))
              || exists i: nat | i < 10 ::
                   gives(i) == None && forall j: nat | j < i :: TooHigh(gives(j), archiveHeight)
  {
    item := None;
    var i: nat := 0;
    while i < ATTEMPTS
      invariant i <= ATTEMPTS && item.None?
      invariant forall j: nat | j < i :: TooHigh(gives(j), archiveHeight)
    {
      var entry := gives(i);
      if entry.None? {
        return;
      }
      if entry.value.number <= archiveHeight + 1 {
        item := entry;
        return;
      }
      i := i + 1;
    }
  }
}
