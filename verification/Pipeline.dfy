/** The two replay drivers of go/replay/replay.go: the plain loop `runReplayLoop` and the three-stage
  * `runReplayPipeline`, whose goroutines are modelled as a step relation over channels, the abort
  * channel and the shared issue pointer. */

/** What both drivers share: the stream of blocks and the operations applied to every block. */
module ReplayCore {
  import opened Options

  type Block(!new, ==)
  type Chain(!new)    // chain adapter: live state, hash history, rules store
  type Ledger(!new)   // what checking writes: block database, loop context, progress, verifier pool
  type Outcome(!new)  // receipts, state root, hash of the parent block, clone of the hash history

  /** One element of the block iterator. */
  datatype Item = Next(block: Block) | ReadError

  /** `ApplyBlock` followed by `MaybeSnapshot`. */
  datatype ApplyResult = Applied(chain: Chain, outcome: Outcome) | ApplyFailed(chain: Chain)

  /** `checkBlockResults`, then the progress callback, then the submission for archive verification. */
  datatype CheckResult = Checked(ledger: Ledger) | CheckFailed(ledger: Ledger)

  /** Everything a run depends on; the operations are deterministic. */
  datatype Replay = Replay(
    items: seq<Item>,
    converts: Block -> bool,
    apply: (Chain, Block) -> ApplyResult,
    check: (Ledger, Block, Outcome) -> CheckResult,
    chain: Chain,
    ledger: Ledger
  )

  /** A block with the outcome of applying it. */
  datatype Result = Result(block: Block, outcome: Outcome)

  /** The chain after applying some blocks, with their results. */
  datatype Progress = Progress(chain: Chain, results: seq<Result>)

  // The reference: reading, applying and checking one after the other, until something fails.

  predicate Readable(rp: Replay, item: Item) {
    item.Next? && rp.converts(item.block)
  }

  function ReadAll(rp: Replay, items: seq<Item>): (r: Option<seq<Block>>)
    ensures r.Some? ==> |r.value| == |items|
  {
    if items == [] then Some([])
    else
      var last := items[|items| - 1];
      match ReadAll(rp, items[..|items| - 1])
      case None => None
      case Some(bs) => if Readable(rp, last) then Some(bs + [last.block]) else None
  }

  function ApplyAll(rp: Replay, blocks: seq<Block>): (r: Option<Progress>)
    ensures r.Some? ==> |r.value.results| == |blocks|
  {
    if blocks == [] then Some(Progress(rp.chain, []))
    else
      var last := blocks[|blocks| - 1];
      match ApplyAll(rp, blocks[..|blocks| - 1])
      case None => None
      case Some(p) =>
        match rp.apply(p.chain, last)
        case ApplyFailed(_) => None
        case Applied(c, o) => Some(Progress(c, p.results + [Result(last, o)]))
  }

  function CheckAll(rp: Replay, results: seq<Result>): Option<Ledger> {
    if results == [] then Some(rp.ledger)
    else
      var last := results[|results| - 1];
      match CheckAll(rp, results[..|results| - 1])
      case None => None
      case Some(l) =>
        match rp.check(l, last.block, last.outcome)
        case CheckFailed(_) => None
        case Checked(l') => Some(l')
  }

  /** The whole stream can be read, every block applied and every result checked; the run then ends
    * with this chain and ledger, having produced these results. */
  ghost predicate Succeeds(rp: Replay, chain: Chain, ledger: Ledger, results: seq<Result>) {
    && ReadAll(rp, rp.items).Some?
    && ApplyAll(rp, ReadAll(rp, rp.items).value) == Some(Progress(chain, results))
    && CheckAll(rp, results) == Some(ledger)
  }

  ghost predicate Succeeding(rp: Replay) {
    exists chain, ledger, results :: Succeeds(rp, chain, ledger, results)
  }

  /** The errors a replay can report, with the position of the block in the stream. */
  datatype Issue =
    | NextBlockIssue(k: nat)
    | ConvertIssue(k: nat)
    | ApplyIssue(k: nat)
    | CheckIssue(k: nat)
    | CancelledIssue

  ghost predicate ReadFails(rp: Replay, k: nat) {
    k < |rp.items| && ReadAll(rp, rp.items[..k]).Some? && !Readable(rp, rp.items[k])
  }

  ghost predicate ApplyFails(rp: Replay, k: nat) {
    && k < |rp.items|
    && ReadAll(rp, rp.items[..k + 1]).Some?
    && var bs := ReadAll(rp, rp.items[..k + 1]).value;
    && ApplyAll(rp, bs[..k]).Some?
    && rp.apply(ApplyAll(rp, bs[..k]).value.chain, bs[k]).ApplyFailed?
  }

  ghost predicate CheckFails(rp: Replay, k: nat) {
    && k < |rp.items|
    && ReadAll(rp, rp.items[..k + 1]).Some?
    && ApplyAll(rp, ReadAll(rp, rp.items[..k + 1]).value).Some?
    && var rs := ApplyAll(rp, ReadAll(rp, rp.items[..k + 1]).value).value.results;
    && CheckAll(rp, rs[..k]).Some?
    && rp.check(CheckAll(rp, rs[..k]).value, rs[k].block, rs[k].outcome).CheckFailed?
  }

  /** The issue names a step that really fails when the blocks are processed one by one. */
  ghost predicate Genuine(rp: Replay, issue: Issue) {
    match issue
    case NextBlockIssue(k) => ReadFails(rp, k) && rp.items[k].ReadError?
    case ConvertIssue(k) => ReadFails(rp, k) && rp.items[k].Next?
    case ApplyIssue(k) => ApplyFails(rp, k)
    case CheckIssue(k) => CheckFails(rp, k)
    case CancelledIssue => true
  }

  lemma {:induction false} ReadPrefix(rp: Replay, items: seq<Item>, k: nat)
    requires k <= |items| && ReadAll(rp, items).Some?
    ensures ReadAll(rp, items[..k]) == Some(ReadAll(rp, items).value[..k])
    decreases |items|
  {
    if k == |items| {
      assert items[..k] == items;
      assert ReadAll(rp, items).value[..k] == ReadAll(rp, items).value;
    } else {
      ReadPrefix(rp, items[..|items| - 1], k);
      assert items[..|items| - 1][..k] == items[..k];
      var bs := ReadAll(rp, items[..|items| - 1]).value;
      assert ReadAll(rp, items).value[..k] == bs[..k];
    }
  }

  lemma {:induction false} ApplyPrefix(rp: Replay, blocks: seq<Block>, k: nat)
    requires k <= |blocks| && ApplyAll(rp, blocks).Some?
    ensures ApplyAll(rp, blocks[..k]).Some?
    ensures ApplyAll(rp, blocks[..k]).value.results == ApplyAll(rp, blocks).value.results[..k]
    decreases |blocks|
  {
    if k == |blocks| {
      assert blocks[..k] == blocks;
    } else {
      ApplyPrefix(rp, blocks[..|blocks| - 1], k);
      assert blocks[..|blocks| - 1][..k] == blocks[..k];
    }
  }

  lemma {:induction false} CheckPrefix(rp: Replay, results: seq<Result>, k: nat)
    requires k <= |results| && CheckAll(rp, results).Some?
    ensures CheckAll(rp, results[..k]).Some?
    decreases |results|
  {
    if k == |results| {
      assert results[..k] == results;
    } else {
      CheckPrefix(rp, results[..|results| - 1], k);
      assert results[..|results| - 1][..k] == results[..k];
    }
  }

  lemma ReadFailureIsFinal(rp: Replay, k: nat)
    requires ReadFails(rp, k)
    ensures ReadAll(rp, rp.items).None?
  {
    assert rp.items[..k + 1][..k] == rp.items[..k];
    if ReadAll(rp, rp.items).Some? {
      ReadPrefix(rp, rp.items, k + 1);
    }
  }

  lemma ApplyFailureIsFinal(rp: Replay, k: nat)
    requires ApplyFails(rp, k) && ReadAll(rp, rp.items).Some?
    ensures ApplyAll(rp, ReadAll(rp, rp.items).value).None?
  {
    var bs := ReadAll(rp, rp.items).value;
    ReadPrefix(rp, rp.items, k + 1);
    assert bs[..k + 1][..k] == bs[..k];
    if ApplyAll(rp, bs).Some? {
      ApplyPrefix(rp, bs, k + 1);
    }
  }

  lemma CheckFailureIsFinal(rp: Replay, k: nat)
    requires CheckFails(rp, k) && ReadAll(rp, rp.items).Some?
    requires ApplyAll(rp, ReadAll(rp, rp.items).value).Some?
    ensures CheckAll(rp, ApplyAll(rp, ReadAll(rp, rp.items).value).value.results).None?
  {
    var bs := ReadAll(rp, rp.items).value;
    var rs := ApplyAll(rp, bs).value.results;
    ReadPrefix(rp, rp.items, k + 1);
    ApplyPrefix(rp, bs, k + 1);
    assert rs[..k + 1][..k] == rs[..k];
    if CheckAll(rp, rs).Some? {
      CheckPrefix(rp, rs, k + 1);
    }
  }

  /** A genuine issue means that the replay cannot succeed. */
  lemma GenuineIssueExcludesSuccess(rp: Replay, issue: Issue)
    requires Genuine(rp, issue) && !issue.CancelledIssue?
    ensures !Succeeding(rp)
  {
    if ReadAll(rp, rp.items).Some? {
      match issue
      case NextBlockIssue(k) => ReadFailureIsFinal(rp, k);
      case ConvertIssue(k) => ReadFailureIsFinal(rp, k);
      case ApplyIssue(k) => ApplyFailureIsFinal(rp, k);
      case CheckIssue(k) =>
        if ApplyAll(rp, ReadAll(rp, rp.items).value).Some? {
          CheckFailureIsFinal(rp, k);
        }
    }
  }

  // One more block.

  lemma ReadOne(rp: Replay, k: nat)
    requires k < |rp.items| && ReadAll(rp, rp.items[..k]).Some?
    ensures Readable(rp, rp.items[k]) ==>
              ReadAll(rp, rp.items[..k + 1]) == Some(ReadAll(rp, rp.items[..k]).value + [rp.items[k].block])
  {
    assert rp.items[..k + 1][..k] == rp.items[..k];
  }

  lemma ApplyOne(rp: Replay, blocks: seq<Block>, b: Block)
    requires ApplyAll(rp, blocks).Some?
    ensures var p := ApplyAll(rp, blocks).value;
            match rp.apply(p.chain, b)
            case Applied(c, o) => ApplyAll(rp, blocks + [b]) == Some(Progress(c, p.results + [Result(b, o)]))
            case ApplyFailed(_) => ApplyAll(rp, blocks + [b]) == None
  {
    assert (blocks + [b])[..|blocks|] == blocks;
  }

  lemma CheckOne(rp: Replay, results: seq<Result>, r: Result)
    requires CheckAll(rp, results).Some?
    ensures match rp.check(CheckAll(rp, results).value, r.block, r.outcome)
            case Checked(l) => CheckAll(rp, results + [r]) == Some(l)
            case CheckFailed(_) => CheckAll(rp, results + [r]) == None
  {
    assert (results + [r])[..|results|] == results;
  }
}

/** The plain loop. */
module ReplayLoop {
  import opened Options
  import opened ReplayCore

  /** The first k blocks can be read, applied and checked one by one, which ends with this chain, this
    * ledger and these results. */
  ghost predicate GoesThrough(rp: Replay, k: nat, chain: Chain, ledger: Ledger, results: seq<Result>) {
    && k <= |rp.items| && ReadAll(rp, rp.items[..k]).Some?
    && ApplyAll(rp, ReadAll(rp, rp.items[..k]).value) == Some(Progress(chain, results))
    && CheckAll(rp, results) == Some(ledger)
  }

  ghost predicate CanGoThrough(rp: Replay, k: nat) {
    exists chain, ledger, results :: GoesThrough(rp, k, chain, ledger, results)
  }

  predicate NotCancelledBefore(cancelled: nat -> bool, k: nat) {
    forall i: nat | i < k :: !cancelled(i)
  }

  /** What ends the loop at item k, once the blocks before it have gone through with this chain and ledger:
    * the first thing that is wrong, in the order of the checks. */
  ghost predicate StopsAt(rp: Replay, cancelled: nat -> bool, k: nat, chain: Chain, ledger: Ledger, issue: Issue)
    requires k < |rp.items|
  {
    if rp.items[k].ReadError? then issue == NextBlockIssue(k)
    else if cancelled(k) then issue == CancelledIssue
    else if !rp.converts(rp.items[k].block) then issue == ConvertIssue(k)
    else
      match rp.apply(chain, rp.items[k].block)
      case ApplyFailed(_) => issue == ApplyIssue(k)
      case Applied(_, outcome) =>
        rp.check(ledger, rp.items[k].block, outcome).CheckFailed? && issue == CheckIssue(k)
  }

  ghost predicate Stopped(rp: Replay, cancelled: nat -> bool, k: nat, chain: Chain, ledger: Ledger,
                          results: seq<Result>, issue: Issue)
  {
    && k < |rp.items| && NotCancelledBefore(cancelled, k)
    && GoesThrough(rp, k, chain, ledger, results) && StopsAt(rp, cancelled, k, chain, ledger, issue)
  }

  /** Cancelled before item k, after exactly the blocks before it. */
  ghost predicate CancelledAfter(rp: Replay, cancelled: nat -> bool, k: nat, chain: Chain, ledger: Ledger,
                                 results: seq<Result>)
  {
    && k < |rp.items| && rp.items[k].Next? && cancelled(k) && NotCancelledBefore(cancelled, k)
    && GoesThrough(rp, k, chain, ledger, results)
  }

  ghost predicate StopsWith(rp: Replay, cancelled: nat -> bool, issue: Issue) {
    exists k, chain, ledger, results :: Stopped(rp, cancelled, k, chain, ledger, results, issue)
  }

  ghost predicate IsCancelled(rp: Replay, cancelled: nat -> bool) {
    exists k, chain, ledger, results :: CancelledAfter(rp, cancelled, k, chain, ledger, results)
  }

  lemma {:induction false} GoesThroughBefore(rp: Replay, j: nat, k: nat, chain: Chain, ledger: Ledger,
                                             results: seq<Result>)
    requires GoesThrough(rp, k, chain, ledger, results) && j <= k
    ensures CanGoThrough(rp, j)
  {
    var bs := ReadAll(rp, rp.items[..k]).value;
    ReadPrefix(rp, rp.items[..k], j);
    assert rp.items[..k][..j] == rp.items[..j];
    ApplyPrefix(rp, bs, j);
    CheckPrefix(rp, results, j);
    var p := ApplyAll(rp, bs[..j]).value;
    assert GoesThrough(rp, j, p.chain, CheckAll(rp, p.results).value, p.results);
  }

  lemma {:induction false} NextThrough(rp: Replay, k: nat, chain: Chain, ledger: Ledger, results: seq<Result>)
    requires k < |rp.items| && GoesThrough(rp, k, chain, ledger, results)
    ensures Readable(rp, rp.items[k]) ==>
              var b := rp.items[k].block;
              match rp.apply(chain, b)
              case ApplyFailed(_) => !CanGoThrough(rp, k + 1) && ApplyFails(rp, k)
              case Applied(c, outcome) =>
                match rp.check(ledger, b, outcome)
                case CheckFailed(_) => !CanGoThrough(rp, k + 1) && CheckFails(rp, k)
                case Checked(l) => GoesThrough(rp, k + 1, c, l, results + [Result(b, outcome)])
    ensures !Readable(rp, rp.items[k]) ==> !CanGoThrough(rp, k + 1) && ReadFails(rp, k)
  {
    var bs := ReadAll(rp, rp.items[..k]).value;
    assert rp.items[..k + 1][..k] == rp.items[..k];
    if Readable(rp, rp.items[k]) {
      var b := rp.items[k].block;
      assert (bs + [b])[..k] == bs;
      ApplyOne(rp, bs, b);
      var a := rp.apply(chain, b);
      if a.Applied? {
        assert (results + [Result(b, a.outcome)])[..k] == results;
        CheckOne(rp, results, Result(b, a.outcome));
      }
    }
  }

  /** The loop ends in one way only. */
  lemma {:induction false} StoppedOnce(rp: Replay, cancelled: nat -> bool,
                                       j: nat, c: Chain, l: Ledger, rs: seq<Result>, e: Issue,
                                       k: nat, chain: Chain, ledger: Ledger, results: seq<Result>, issue: Issue)
    requires Stopped(rp, cancelled, j, c, l, rs, e) && Stopped(rp, cancelled, k, chain, ledger, results, issue)
    ensures j == k && c == chain && l == ledger && rs == results && e == issue
  {
    if j < k {
      StoppedBefore(rp, cancelled, j, c, l, rs, e, k, chain, ledger, results);
    } else if k < j {
      StoppedBefore(rp, cancelled, k, chain, ledger, results, issue, j, c, l, rs);
    }
  }

  lemma {:induction false} StoppedBefore(rp: Replay, cancelled: nat -> bool,
                                         j: nat, c: Chain, l: Ledger, rs: seq<Result>, e: Issue,
                                         k: nat, chain: Chain, ledger: Ledger, results: seq<Result>)
    requires Stopped(rp, cancelled, j, c, l, rs, e) && NotCancelledBefore(cancelled, k)
    requires GoesThrough(rp, k, chain, ledger, results)
    ensures k <= j
  {
    if j < k {
      GoesThroughBefore(rp, j + 1, k, chain, ledger, results);
      NextThrough(rp, j, c, l, rs);
    }
  }

  lemma {:induction false} SucceedsThrough(rp: Replay)
    ensures forall c, l, rs :: Succeeds(rp, c, l, rs) <==> GoesThrough(rp, |rp.items|, c, l, rs)
    ensures Succeeding(rp) <==> CanGoThrough(rp, |rp.items|)
  {
    var n := |rp.items|;
    assert rp.items[..n] == rp.items;
    if Succeeding(rp) {
      var c, l, rs :| Succeeds(rp, c, l, rs);
      assert GoesThrough(rp, n, c, l, rs);
    }
    if CanGoThrough(rp, n) {
      var c, l, rs :| GoesThrough(rp, n, c, l, rs);
      assert Succeeds(rp, c, l, rs);
    }
  }

  /** The chains and ledgers between the blocks, and what each block has to do with them. */
  ghost predicate Trace(rp: Replay, k: nat, chains: seq<Chain>, ledgers: seq<Ledger>, results: seq<Result>) {
    && k <= |rp.items| && |chains| == |ledgers| == k + 1 && |results| == k
    && chains[0] == rp.chain && ledgers[0] == rp.ledger
    && forall i | 0 <= i < k :: TracedAt(rp, i, chains[i], ledgers[i], results[i], chains[i + 1], ledgers[i + 1])
  }

  ghost predicate TracedAt(rp: Replay, i: nat, c: Chain, l: Ledger, r: Result, c': Chain, l': Ledger)
    requires i < |rp.items|
  {
    && rp.items[i].Next? && r.block == rp.items[i].block && rp.converts(r.block)
    && rp.apply(c, r.block) == Applied(c', r.outcome)
    && rp.check(l, r.block, r.outcome) == Checked(l')
  }

  ghost predicate EndsWith(rp: Replay, k: nat, chains: seq<Chain>, ledgers: seq<Ledger>, results: seq<Result>,
                           chain: Chain, ledger: Ledger)
  {
    Trace(rp, k, chains, ledgers, results) && chains[k] == chain && ledgers[k] == ledger
  }

  /** To go through is to convert, apply and check each block once, on the chain and the ledger that the
    * block before it has left. */
  lemma {:induction false} GoesThroughStepwise(rp: Replay, k: nat, chain: Chain, ledger: Ledger,
                                               results: seq<Result>)
    ensures GoesThrough(rp, k, chain, ledger, results)
            <==> exists chains, ledgers :: EndsWith(rp, k, chains, ledgers, results, chain, ledger)
  {
    if GoesThrough(rp, k, chain, ledger, results) {
      var chains, ledgers := TraceOf(rp, k, chain, ledger, results);
    }
    if chains, ledgers :| EndsWith(rp, k, chains, ledgers, results, chain, ledger) {
      TraceGoesThrough(rp, k, chains, ledgers, results);
    }
  }

  lemma {:induction false} TraceOf(rp: Replay, k: nat, chain: Chain, ledger: Ledger, results: seq<Result>)
    returns (chains: seq<Chain>, ledgers: seq<Ledger>)
    requires GoesThrough(rp, k, chain, ledger, results)
    ensures EndsWith(rp, k, chains, ledgers, results, chain, ledger)
  {
    if k == 0 {
      return [chain], [ledger];
    }
    var n := k - 1;
    GoesThroughBefore(rp, n, k, chain, ledger, results);
    var c, l, rs :| GoesThrough(rp, n, c, l, rs);
    NextThrough(rp, n, c, l, rs);
    assert CanGoThrough(rp, n + 1);
    assert TracedAt(rp, n, c, l, results[n], chain, ledger) && results == rs + [results[n]];
    chains, ledgers := TraceOf(rp, n, c, l, rs);
    TraceMore(rp, n, chains, ledgers, rs, results[n], chain, ledger);
    chains, ledgers := chains + [chain], ledgers + [ledger];
  }

  lemma {:induction false} TraceMore(rp: Replay, n: nat, chains: seq<Chain>, ledgers: seq<Ledger>,
                                     results: seq<Result>, r: Result, chain: Chain, ledger: Ledger)
    requires n < |rp.items| && Trace(rp, n, chains, ledgers, results)
    requires TracedAt(rp, n, chains[n], ledgers[n], r, chain, ledger)
    ensures EndsWith(rp, n + 1, chains + [chain], ledgers + [ledger], results + [r], chain, ledger)
  {
    var cs, ls, rs := chains + [chain], ledgers + [ledger], results + [r];
    forall i | 0 <= i < n + 1
      ensures TracedAt(rp, i, cs[i], ls[i], rs[i], cs[i + 1], ls[i + 1])
    {
      if i < n {
        assert TracedAt(rp, i, chains[i], ledgers[i], results[i], chains[i + 1], ledgers[i + 1]);
      }
    }
  }

  lemma {:induction false} TraceGoesThrough(rp: Replay, k: nat, chains: seq<Chain>, ledgers: seq<Ledger>,
                                            results: seq<Result>)
    requires Trace(rp, k, chains, ledgers, results)
    ensures GoesThrough(rp, k, chains[k], ledgers[k], results)
  {
    if k > 0 {
      var n := k - 1;
      TraceGoesThrough(rp, n, chains[..k], ledgers[..k], results[..n]);
      NextThrough(rp, n, chains[n], ledgers[n], results[..n]);
      assert TracedAt(rp, n, chains[n], ledgers[n], results[n], chains[k], ledgers[k]);
      assert results == results[..n] + [results[n]];
    }
  }

  /** What ended the loop really fails, so that nothing else ended it. */
  lemma {:induction false} HasStopped(rp: Replay, cancelled: nat -> bool,
                                      k: nat, chain: Chain, ledger: Ledger, results: seq<Result>, issue: Issue)
    requires Stopped(rp, cancelled, k, chain, ledger, results, issue)
    ensures Genuine(rp, issue) && !(NotCancelledBefore(cancelled, |rp.items|) && Succeeding(rp))
    ensures forall e :: StopsWith(rp, cancelled, e) <==> e == issue
    ensures issue == CancelledIssue <==> IsCancelled(rp, cancelled)
    ensures forall j, c, l, rs | CancelledAfter(rp, cancelled, j, c, l, rs) ::
              c == chain && l == ledger && rs == results && |rs| == j
  {
    NextThrough(rp, k, chain, ledger, results);
    if NotCancelledBefore(cancelled, |rp.items|) && Succeeding(rp) {
      SucceedsThrough(rp);
      var c, l, rs :| GoesThrough(rp, |rp.items|, c, l, rs);
      StoppedBefore(rp, cancelled, k, chain, ledger, results, issue, |rp.items|, c, l, rs);
    }
    forall j, c, l, rs, e | Stopped(rp, cancelled, j, c, l, rs, e)
      ensures j == k && c == chain && l == ledger && rs == results && e == issue
    {
      StoppedOnce(rp, cancelled, j, c, l, rs, e, k, chain, ledger, results, issue);
    }
    forall j, c, l, rs | CancelledAfter(rp, cancelled, j, c, l, rs)
      ensures Stopped(rp, cancelled, j, c, l, rs, CancelledIssue)
    {
    }
    if issue == CancelledIssue {
      assert CancelledAfter(rp, cancelled, k, chain, ledger, results);
    }
  }

  lemma {:induction false} HasFinished(rp: Replay, cancelled: nat -> bool, chain: Chain, ledger: Ledger,
                                       results: seq<Result>)
    requires GoesThrough(rp, |rp.items|, chain, ledger, results) && NotCancelledBefore(cancelled, |rp.items|)
    ensures Succeeds(rp, chain, ledger, results) && Succeeding(rp)
    ensures forall e :: !StopsWith(rp, cancelled, e)
    ensures !IsCancelled(rp, cancelled)
  {
    SucceedsThrough(rp);
    assert Succeeds(rp, chain, ledger, results);
    forall k, c, l, rs, e
      ensures !Stopped(rp, cancelled, k, c, l, rs, e)
    {
      if Stopped(rp, cancelled, k, c, l, rs, e) {
        StoppedBefore(rp, cancelled, k, c, l, rs, e, |rp.items|, chain, ledger, results);
      }
    }
    forall k, c, l, rs
      ensures !CancelledAfter(rp, cancelled, k, c, l, rs)
    {
      assert CancelledAfter(rp, cancelled, k, c, l, rs) ==> Stopped(rp, cancelled, k, c, l, rs, CancelledIssue);
    }
  }

  /** `runReplayLoop`: pull, convert, apply and check one block after the other. The context is
    * polled once per block; `cancelled(i)` is its answer before block i. */
  method RunReplayLoop(rp: Replay, cancelled: nat -> bool)
    returns (issue: Option<Issue>, chain: Chain, ledger: Ledger, results: seq<Result>)
    ensures issue.Some? ==> Genuine(rp, issue.value)
    // nil exactly if no poll is true and everything succeeds
    ensures issue.None? ==> Succeeds(rp, chain, ledger, results)
    ensures issue.None? <==> NotCancelledBefore(cancelled, |rp.items|) && Succeeding(rp)
    // otherwise the issue is what the loop meets first
    ensures forall e :: issue == Some(e) <==> StopsWith(rp, cancelled, e)
    // cancellation, after exactly the blocks before the poll
    ensures issue == Some(CancelledIssue) <==> IsCancelled(rp, cancelled)
    ensures forall k, c, l, rs | CancelledAfter(rp, cancelled, k, c, l, rs) ::
              chain == c && ledger == l && results == rs && |rs| == k
  {
    issue, chain, ledger, results := None, rp.chain, rp.ledger, [];
    var i := 0;
    while i < |rp.items|
      invariant 0 <= i <= |rp.items| && issue.None?
      invariant NotCancelledBefore(cancelled, i)
      invariant GoesThrough(rp, i, chain, ledger, results)
    {
      ghost var chainBefore, ledgerBefore, resultsBefore := chain, ledger, results;
      NextThrough(rp, i, chain, ledger, results);
      if rp.items[i].ReadError? {
        issue := Some(NextBlockIssue(i));
        HasStopped(rp, cancelled, i, chainBefore, ledgerBefore, resultsBefore, issue.value);
        return;
      }
      if cancelled(i) {
        issue := Some(CancelledIssue);
        HasStopped(rp, cancelled, i, chainBefore, ledgerBefore, resultsBefore, issue.value);
        return;
      }
      var block := rp.items[i].block;
      if !rp.converts(block) {
        issue := Some(ConvertIssue(i));
        HasStopped(rp, cancelled, i, chainBefore, ledgerBefore, resultsBefore, issue.value);
        return;
      }
      var a := rp.apply(chain, block);
      chain := a.chain;
      if a.ApplyFailed? {
        issue := Some(ApplyIssue(i));
        HasStopped(rp, cancelled, i, chainBefore, ledgerBefore, resultsBefore, issue.value);
        return;
      }
      results := results + [Result(block, a.outcome)];
      var c := rp.check(ledger, block, a.outcome);
      ledger := c.ledger;
      if c.CheckFailed? {
        issue := Some(CheckIssue(i));
        HasStopped(rp, cancelled, i, chainBefore, ledgerBefore, resultsBefore, issue.value);
        return;
      }
      i := i + 1;
    }
    HasFinished(rp, cancelled, chain, ledger, results);
  }
}

/** The pipeline. */
module ReplayPipeline {
  import opened Options
  import opened ReplayCore

  const CHANNEL_SIZE := 128

  /** The end of a goroutine: report the issue (store it, then close the abort channel), close the
    * output channel, finish. */
  datatype Tail = Reporting(issue: Issue) | Aborting | Closing | Done

  /** Stage 1 pulls and decodes blocks. `lost` is the block held when a stage gave up, if any. */
  datatype Stage1 = Pull | Offer1(block: Block) | Exit1(tail: Tail, lost: seq<Block>)

  /** Stage 2 applies blocks. It loses a block it could not apply, or a result it could not send. */
  datatype Stage2 =
    | Take2
    | Hold2(block: Block)
    | Offer2(result: Result)
    | Exit2(tail: Tail, lost: seq<Block>, unsent: seq<Result>)

  /** Stage 3 checks results. */
  datatype Stage3 = Take3 | Hold3(result: Result) | Exit3(tail: Tail, lost: seq<Result>)

  /** The shared error report: `cancelled` is the context, cancelled by the environment at any time. */
  datatype Signals = Signals(abort: bool, issue: Option<Issue>, cancelled: bool)

  /** The chain and the ledger, and as history: the blocks decoded so far, the results of those
    * applied so far, and how many of these passed the checks. */
  datatype World = World(chain: Chain, ledger: Ledger, pulled: seq<Block>, applied: seq<Result>, checked: nat)

  datatype State = State(
    stage1: Stage1,
    decoded: seq<Block>,
    stage2: Stage2,
    results: seq<Result>,
    stage3: Stage3,
    signals: Signals,
    world: World
  )

  function Init(rp: Replay): State {
    State(Pull, [], Take2, [], Take3, Signals(false, None, false), World(rp.chain, rp.ledger, [], [], 0))
  }

  /** Closing its output channel is the last thing a producer does. */
  predicate DecodedClosed(s: State) { s.stage1.Exit1? && s.stage1.tail.Done? }

  predicate ResultsClosed(s: State) { s.stage2.Exit2? && s.stage2.tail.Done? }

  datatype Step =
    | PullNext | Send1 | Quit1 | Leave1
    | Receive2 | Apply2 | Send2 | Quit2 | Leave2
    | Receive3 | Check3 | Leave3
    | Cancel

  predicate Enabled(s: State, step: Step) {
    match step
    case PullNext => s.stage1.Pull?
    case Send1 => s.stage1.Offer1? && |s.decoded| < CHANNEL_SIZE
    case Quit1 => s.stage1.Offer1? && s.signals.abort
    case Leave1 => s.stage1.Exit1? && !s.stage1.tail.Done?
    case Receive2 => s.stage2.Take2? && (s.decoded != [] || DecodedClosed(s))
    case Apply2 => s.stage2.Hold2?
    case Send2 => s.stage2.Offer2? && |s.results| < CHANNEL_SIZE
    case Quit2 => s.stage2.Offer2? && s.signals.abort
    case Leave2 => s.stage2.Exit2? && !s.stage2.tail.Done?
    case Receive3 => s.stage3.Take3? && (s.results != [] || ResultsClosed(s))
    case Check3 => s.stage3.Hold3?
    case Leave3 => s.stage3.Exit3? && !s.stage3.tail.Done?
    case Cancel => !s.signals.cancelled
  }

  /** Stage 1 pulls the next item of the iterator. */
  function DoPull(rp: Replay, s: State): State
    requires s.stage1.Pull?
  {
    var k := |s.world.pulled|;
    if k >= |rp.items| then s.(stage1 := Exit1(Closing, []))
    else if rp.items[k].ReadError? then s.(stage1 := Exit1(Reporting(NextBlockIssue(k)), []))
    else if s.signals.cancelled then s.(stage1 := Exit1(Reporting(CancelledIssue), []))
    else if !rp.converts(rp.items[k].block) then s.(stage1 := Exit1(Reporting(ConvertIssue(k)), []))
    else
      var b := rp.items[k].block;
      s.(stage1 := Offer1(b), world := s.world.(pulled := s.world.pulled + [b]))
  }

  /** Stage 2 applies the block it holds. */
  function DoApply(rp: Replay, s: State): State
    requires s.stage2.Hold2?
  {
    var b, w := s.stage2.block, s.world;
    match rp.apply(w.chain, b)
    case Applied(c, o) =>
      s.(stage2 := Offer2(Result(b, o)), world := w.(chain := c, applied := w.applied + [Result(b, o)]))
    case ApplyFailed(c) =>
      s.(stage2 := Exit2(Reporting(ApplyIssue(|w.applied|)), [b], []), world := w.(chain := c))
  }

  /** Stage 3 checks the result it holds. */
  function DoCheck(rp: Replay, s: State): State
    requires s.stage3.Hold3?
  {
    var r, w := s.stage3.result, s.world;
    match rp.check(w.ledger, r.block, r.outcome)
    case Checked(l) => s.(stage3 := Take3, world := w.(ledger := l, checked := w.checked + 1))
    case CheckFailed(l) =>
      s.(stage3 := Exit3(Reporting(CheckIssue(w.checked)), [r]), world := w.(ledger := l))
  }

  /** The shared part of leaving: `reportIssue` stores the issue, then closes the abort channel. */
  function Report(g: Signals, tail: Tail): Signals
    requires !tail.Done?
  {
    match tail
    case Reporting(e) => g.(issue := Some(e))
    case Aborting => g.(abort := true)
    case Closing => g
  }

  function After(tail: Tail): Tail
    requires !tail.Done?
  {
    match tail
    case Reporting(_) => Aborting
    case Aborting => Closing
    case Closing => Done
  }

  function Do(rp: Replay, s: State, step: Step): State
    requires Enabled(s, step)
  {
    match step
    case PullNext => DoPull(rp, s)
    case Send1 => s.(stage1 := Pull, decoded := s.decoded + [s.stage1.block])
    case Quit1 => s.(stage1 := Exit1(Closing, [s.stage1.block]))
    case Leave1 =>
      s.(stage1 := s.stage1.(tail := After(s.stage1.tail)), signals := Report(s.signals, s.stage1.tail))
    case Receive2 =>
      if s.decoded != [] then s.(stage2 := Hold2(s.decoded[0]), decoded := s.decoded[1..])
      else s.(stage2 := Exit2(Closing, [], []))
    case Apply2 => DoApply(rp, s)
    case Send2 => s.(stage2 := Take2, results := s.results + [s.stage2.result])
    case Quit2 => s.(stage2 := Exit2(Closing, [], [s.stage2.result]))
    case Leave2 =>
      s.(stage2 := s.stage2.(tail := After(s.stage2.tail)), signals := Report(s.signals, s.stage2.tail))
    case Receive3 =>
      if s.results != [] then s.(stage3 := Hold3(s.results[0]), results := s.results[1..])
      else s.(stage3 := Exit3(Closing, []))
    case Check3 => DoCheck(rp, s)
    case Leave3 =>
      s.(stage3 := s.stage3.(tail := After(s.stage3.tail)), signals := Report(s.signals, s.stage3.tail))
    case Cancel => s.(signals := s.signals.(cancelled := true))
  }

  /** An interleaving is a sequence of steps, each enabled when it is taken. */
  predicate Interleaving(rp: Replay, s: State, steps: seq<Step>)
    decreases |steps|
  {
    steps == [] || (Enabled(s, steps[0]) && Interleaving(rp, Do(rp, s, steps[0]), steps[1..]))
  }

  function RunSteps(rp: Replay, s: State, steps: seq<Step>): State
    requires Interleaving(rp, s, steps)
    decreases |steps|
  {
    if steps == [] then s else RunSteps(rp, Do(rp, s, steps[0]), steps[1..])
  }

  /** `wg.Wait()` returns: all three goroutines are done. */
  predicate Terminal(s: State) {
    s.stage1.Exit1? && s.stage1.tail.Done? &&
    s.stage2.Exit2? && s.stage2.tail.Done? &&
    s.stage3.Exit3? && s.stage3.tail.Done?
  }

  // --- First-in first-out: nothing is lost, repeated or reordered between the stages ---

  function Hand1(s: State): seq<Block> {
    match s.stage1 case Pull => [] case Offer1(b) => [b] case Exit1(_, lost) => lost
  }

  /** Stage 2's block not applied yet. */
  function Raw2(s: State): seq<Block> {
    match s.stage2 case Hold2(b) => [b] case Exit2(_, lost, _) => lost case _ => []
  }

  /** Stage 2's result not sent yet. */
  function Hand2(s: State): seq<Result> {
    match s.stage2 case Offer2(r) => [r] case Exit2(_, _, unsent) => unsent case _ => []
  }

  function Hand3(s: State): seq<Result> {
    match s.stage3 case Take3 => [] case Hold3(r) => [r] case Exit3(_, lost) => lost
  }

  /** From position `from` on, `all` is what a consumer holds, then a channel, then what its producer
    * holds. */
  predicate Queued<T(==)>(all: seq<T>, from: nat, taken: seq<T>, channel: seq<T>, offered: seq<T>) {
    && |taken| <= 1 && |offered| <= 1 && |channel| <= CHANNEL_SIZE
    && from <= |all|
    && all[from..] == taken + channel + offered
  }

  predicate InOrder(s: State) {
    && (Raw2(s) == [] || Hand2(s) == [])
    && Queued(s.world.applied, s.world.checked, Hand3(s), s.results, Hand2(s))
    && Queued(s.world.pulled, |s.world.applied|, Raw2(s), s.decoded, Hand1(s))
  }

  lemma QueueTaken<T>(all: seq<T>, from: nat, x: T, channel: seq<T>, offered: seq<T>)
    requires Queued(all, from, [x], channel, offered)
    ensures from < |all| && all[from] == x
    ensures Queued(all, from + 1, [], channel, offered)
  {
    assert all[from] == all[from..][0];
    assert all[from + 1..] == all[from..][1..];
  }

  lemma QueueReceive<T>(all: seq<T>, from: nat, channel: seq<T>, offered: seq<T>)
    requires Queued(all, from, [], channel, offered) && channel != []
    ensures Queued(all, from, [channel[0]], channel[1..], offered)
  {
    assert channel == [channel[0]] + channel[1..];
  }

  lemma QueueSend<T>(all: seq<T>, from: nat, taken: seq<T>, channel: seq<T>, x: T)
    requires Queued(all, from, taken, channel, [x]) && |channel| < CHANNEL_SIZE
    ensures Queued(all, from, taken, channel + [x], [])
  {
    assert taken + channel + [x] == taken + (channel + [x]) + [];
  }

  lemma QueueProduce<T>(all: seq<T>, from: nat, taken: seq<T>, channel: seq<T>, x: T)
    requires Queued(all, from, taken, channel, [])
    ensures Queued(all + [x], from, taken, channel, [x])
  {
    assert (all + [x])[from..] == all[from..] + [x];
  }

  lemma PullInOrder(rp: Replay, s: State)
    requires InOrder(s) && s.stage1.Pull?
    ensures InOrder(DoPull(rp, s))
  {
    if DoPull(rp, s).stage1.Offer1? {
      QueueProduce(s.world.pulled, |s.world.applied|, Raw2(s), s.decoded, rp.items[|s.world.pulled|].block);
    }
  }

  lemma ApplyInOrder(rp: Replay, s: State)
    requires InOrder(s) && s.stage2.Hold2?
    ensures InOrder(DoApply(rp, s))
  {
    QueueTaken(s.world.pulled, |s.world.applied|, s.stage2.block, s.decoded, Hand1(s));
    if DoApply(rp, s).stage2.Offer2? {
      QueueProduce(s.world.applied, s.world.checked, Hand3(s), s.results, DoApply(rp, s).stage2.result);
    }
  }

  lemma CheckInOrder(rp: Replay, s: State)
    requires InOrder(s) && s.stage3.Hold3?
    ensures InOrder(DoCheck(rp, s))
  {
    QueueTaken(s.world.applied, s.world.checked, s.stage3.result, s.results, Hand2(s));
  }

  lemma SendInOrder(rp: Replay, s: State, step: Step)
    requires InOrder(s) && Enabled(s, step) && (step.Send1? || step.Send2?)
    ensures InOrder(Do(rp, s, step))
  {
    if step.Send1? {
      QueueSend(s.world.pulled, |s.world.applied|, Raw2(s), s.decoded, s.stage1.block);
    } else {
      QueueSend(s.world.applied, s.world.checked, Hand3(s), s.results, s.stage2.result);
    }
  }

  lemma ReceiveInOrder(rp: Replay, s: State, step: Step)
    requires InOrder(s) && Enabled(s, step) && (step.Receive2? || step.Receive3?)
    ensures InOrder(Do(rp, s, step))
  {
    if step.Receive2? && s.decoded != [] {
      QueueReceive(s.world.pulled, |s.world.applied|, s.decoded, Hand1(s));
    }
    if step.Receive3? && s.results != [] {
      QueueReceive(s.world.applied, s.world.checked, s.results, Hand2(s));
    }
  }

  /** The remaining steps: giving up, leaving, and the cancellation of the context. */
  predicate IsExit(step: Step) {
    step.Quit1? || step.Quit2? || step.Leave1? || step.Leave2? || step.Leave3? || step.Cancel?
  }

  lemma ExitKeepsContents(rp: Replay, s: State, step: Step)
    requires Enabled(s, step) && IsExit(step)
    ensures var s' := Do(rp, s, step);
            && Hand1(s') == Hand1(s) && Raw2(s') == Raw2(s) && Hand2(s') == Hand2(s) && Hand3(s') == Hand3(s)
            && s'.decoded == s.decoded && s'.results == s.results
            && s'.world == s.world
            && ApplyHasFailed(s') == ApplyHasFailed(s) && CheckHasFailed(s') == CheckHasFailed(s)
  {
  }

  lemma InOrderStep(rp: Replay, s: State, step: Step)
    requires InOrder(s) && Enabled(s, step)
    ensures InOrder(Do(rp, s, step))
  {
    match step
    case PullNext => PullInOrder(rp, s);
    case Apply2 => ApplyInOrder(rp, s);
    case Check3 => CheckInOrder(rp, s);
    case Send1 | Send2 => SendInOrder(rp, s, step);
    case Receive2 | Receive3 => ReceiveInOrder(rp, s, step);
    case _ => ExitKeepsContents(rp, s, step);
  }

  // --- Agreement with processing the blocks one by one ---

  predicate ApplyHasFailed(s: State) { s.stage2.Exit2? && s.stage2.lost != [] }

  predicate CheckHasFailed(s: State) { s.stage3.Exit3? && s.stage3.lost != [] }

  ghost predicate PulledOk(rp: Replay, pulled: seq<Block>) {
    |pulled| <= |rp.items| && ReadAll(rp, rp.items[..|pulled|]) == Some(pulled)
  }

  ghost predicate AppliedOk(rp: Replay, pulled: seq<Block>, applied: seq<Result>) {
    && |applied| <= |pulled|
    && ApplyAll(rp, pulled[..|applied|]).Some?
    && ApplyAll(rp, pulled[..|applied|]).value.results == applied
  }

  ghost predicate ChainOk(rp: Replay, s: State) {
    && AppliedOk(rp, s.world.pulled, s.world.applied)
    && (!ApplyHasFailed(s) ==> ApplyAll(rp, s.world.pulled[..|s.world.applied|]).value.chain == s.world.chain)
  }

  ghost predicate LedgerOk(rp: Replay, s: State) {
    && s.world.checked <= |s.world.applied|
    && CheckAll(rp, s.world.applied[..s.world.checked]).Some?
    && (!CheckHasFailed(s) ==> CheckAll(rp, s.world.applied[..s.world.checked]) == Some(s.world.ledger))
  }

  /** What has been decoded, applied and checked is what processing one by one computes. */
  ghost predicate Agrees(rp: Replay, s: State) {
    PulledOk(rp, s.world.pulled) && ChainOk(rp, s) && LedgerOk(rp, s)
  }

  lemma OneMorePulled(rp: Replay, pulled: seq<Block>, applied: seq<Result>)
    requires PulledOk(rp, pulled) && AppliedOk(rp, pulled, applied) && |pulled| < |rp.items|
    ensures if Readable(rp, rp.items[|pulled|]) then
              var pulled' := pulled + [rp.items[|pulled|].block];
              && PulledOk(rp, pulled') && AppliedOk(rp, pulled', applied)
              && pulled'[..|applied|] == pulled[..|applied|]
            else
              ReadFails(rp, |pulled|)
  {
    ReadOne(rp, |pulled|);
    if Readable(rp, rp.items[|pulled|]) {
      var pulled' := pulled + [rp.items[|pulled|].block];
      assert pulled'[..|applied|] == pulled[..|applied|];
    }
  }

  lemma PullAgrees(rp: Replay, s: State)
    requires Agrees(rp, s) && s.stage1.Pull?
    ensures Agrees(rp, DoPull(rp, s))
    ensures var s' := DoPull(rp, s);
            s'.stage1.Exit1? && s'.stage1.tail.Reporting? ==> Genuine(rp, s'.stage1.tail.issue)
  {
    if |s.world.pulled| < |rp.items| {
      OneMorePulled(rp, s.world.pulled, s.world.applied);
    }
  }

  lemma OneMoreApplied(rp: Replay, pulled: seq<Block>, applied: seq<Result>)
    requires PulledOk(rp, pulled) && AppliedOk(rp, pulled, applied) && |applied| < |pulled|
    ensures var k := |applied|;
            var b := pulled[k];
            match rp.apply(ApplyAll(rp, pulled[..k]).value.chain, b)
            case Applied(c, o) =>
              ApplyAll(rp, pulled[..k + 1]) == Some(Progress(c, applied + [Result(b, o)]))
            case ApplyFailed(_) => ApplyFails(rp, k)
  {
    var k := |applied|;
    var b := pulled[k];
    assert pulled[..k + 1] == pulled[..k] + [b];
    ApplyOne(rp, pulled[..k], b);
    ReadPrefix(rp, rp.items[..|pulled|], k + 1);
    assert rp.items[..|pulled|][..k + 1] == rp.items[..k + 1];
    assert pulled[..k + 1][..k] == pulled[..k];
  }

  lemma ApplyAgrees(rp: Replay, s: State)
    requires InOrder(s) && Agrees(rp, s) && s.stage2.Hold2?
    ensures Agrees(rp, DoApply(rp, s))
    ensures var s' := DoApply(rp, s);
            s'.stage2.Exit2? && s'.stage2.tail.Reporting? ==> Genuine(rp, s'.stage2.tail.issue)
  {
    QueueTaken(s.world.pulled, |s.world.applied|, s.stage2.block, s.decoded, Hand1(s));
    OneMoreApplied(rp, s.world.pulled, s.world.applied);
    assert DoApply(rp, s).world.applied[..s.world.checked] == s.world.applied[..s.world.checked];
  }

  lemma CheckAgrees(rp: Replay, s: State)
    requires InOrder(s) && Agrees(rp, s) && s.stage3.Hold3?
    ensures Agrees(rp, DoCheck(rp, s))
    ensures var s' := DoCheck(rp, s);
            s'.stage3.Exit3? && s'.stage3.tail.Reporting? ==> Genuine(rp, s'.stage3.tail.issue)
  {
    QueueTaken(s.world.applied, s.world.checked, s.stage3.result, s.results, Hand2(s));
    OneMoreChecked(rp, s.world.pulled, s.world.applied, s.world.checked);
  }

  lemma {:induction false} OneMoreChecked(rp: Replay, pulled: seq<Block>, applied: seq<Result>, k: nat)
    requires PulledOk(rp, pulled) && AppliedOk(rp, pulled, applied) && k < |applied|
    requires CheckAll(rp, applied[..k]).Some?
    ensures var r := applied[k];
            match rp.check(CheckAll(rp, applied[..k]).value, r.block, r.outcome)
            case Checked(l) => CheckAll(rp, applied[..k + 1]) == Some(l)
            case CheckFailed(_) => CheckFails(rp, k)
  {
    assert applied[..k + 1] == applied[..k] + [applied[k]];
    CheckOne(rp, applied[..k], applied[k]);
    ReadPrefix(rp, rp.items[..|pulled|], k + 1);
    assert rp.items[..|pulled|][..k + 1] == rp.items[..k + 1];
    ApplyPrefix(rp, pulled[..|applied|], k + 1);
    assert pulled[..|applied|][..k + 1] == pulled[..k + 1];
    assert applied[..k + 1][..k] == applied[..k];
  }

  // --- Shutdown ---

  predicate Finished1(rp: Replay, s: State) { |s.world.pulled| == |rp.items| && Hand1(s) == [] }
  predicate Finished2(s: State) { DecodedClosed(s) && s.decoded == [] && Raw2(s) == [] && Hand2(s) == [] }
  predicate Finished3(s: State) { ResultsClosed(s) && s.results == [] && Hand3(s) == [] }

  ghost predicate IssueOk(rp: Replay, issue: Issue, cancelled: bool) {
    Genuine(rp, issue) && (issue.CancelledIssue? ==> cancelled)
  }

  ghost predicate TailOk(rp: Replay, s: State, tail: Tail, finished: bool) {
    match tail
    case Reporting(e) => IssueOk(rp, e, s.signals.cancelled)
    case Aborting => s.signals.issue.Some?
    case Closing => s.signals.abort || finished
    case Done => s.signals.abort || finished
  }

  /** Channels are closed exactly by their finished producers; a stage that leaves without having
    * finished its input has the abort channel closed behind it. */
  ghost predicate Controlled(rp: Replay, s: State) {
    && (s.signals.abort ==> s.signals.issue.Some?)
    && (s.signals.issue.Some? ==> IssueOk(rp, s.signals.issue.value, s.signals.cancelled))
    && (s.stage1.Exit1? ==> TailOk(rp, s, s.stage1.tail, Finished1(rp, s)))
    && (s.stage2.Exit2? ==> TailOk(rp, s, s.stage2.tail, Finished2(s)))
    && (s.stage3.Exit3? ==> TailOk(rp, s, s.stage3.tail, Finished3(s)))
  }

  /** An issue that the step makes a stage report is genuine. */
  ghost predicate ReportsGenuine(rp: Replay, s: State, step: Step)
    requires Enabled(s, step)
  {
    var s' := Do(rp, s, step);
    && (step.PullNext? && s'.stage1.Exit1? && s'.stage1.tail.Reporting? ==> Genuine(rp, s'.stage1.tail.issue))
    && (step.Apply2? && s'.stage2.Exit2? ==> Genuine(rp, s'.stage2.tail.issue))
    && (step.Check3? && s'.stage3.Exit3? ==> Genuine(rp, s'.stage3.tail.issue))
  }

  lemma ControlledStep(rp: Replay, s: State, step: Step)
    requires Controlled(rp, s) && Enabled(s, step) && ReportsGenuine(rp, s, step)
    requires |s.world.pulled| <= |rp.items|
    ensures Controlled(rp, Do(rp, s, step))
  {
    if step.Leave1? || step.Leave2? || step.Leave3? {
      ControlledLeave(rp, s, step);
    } else if step.PullNext? || step.Apply2? || step.Check3? {
      ControlledWork(rp, s, step);
    }
  }

  lemma ControlledLeave(rp: Replay, s: State, step: Step)
    requires step.Leave1? || step.Leave2? || step.Leave3?
    requires Controlled(rp, s) && Enabled(s, step)
    ensures Controlled(rp, Do(rp, s, step))
  {
  }

  lemma ControlledWork(rp: Replay, s: State, step: Step)
    requires step.PullNext? || step.Apply2? || step.Check3?
    requires Controlled(rp, s) && Enabled(s, step) && ReportsGenuine(rp, s, step)
    requires |s.world.pulled| <= |rp.items|
    ensures Controlled(rp, Do(rp, s, step))
  {
  }

  ghost predicate Inv(rp: Replay, s: State) {
    InOrder(s) && Agrees(rp, s) && Controlled(rp, s)
  }

  lemma StepInv(rp: Replay, s: State, step: Step)
    requires Inv(rp, s) && Enabled(s, step)
    ensures Inv(rp, Do(rp, s, step))
  {
    InOrderStep(rp, s, step);
    match step {
      case PullNext => PullAgrees(rp, s);
      case Apply2 => ApplyAgrees(rp, s);
      case Check3 => CheckAgrees(rp, s);
      case _ =>
    }
    assert Agrees(rp, Do(rp, s, step)) by {
      if IsExit(step) {
        ExitKeepsContents(rp, s, step);
      }
    }
    ControlledStep(rp, s, step);
  }

  /** The invariant holds in every state of every interleaving. */
  lemma {:induction false} RunInv(rp: Replay, s: State, steps: seq<Step>)
    requires Inv(rp, s) && Interleaving(rp, s, steps)
    ensures Inv(rp, RunSteps(rp, s, steps))
    decreases |steps|
  {
    if steps != [] {
      StepInv(rp, s, steps[0]);
      RunInv(rp, Do(rp, s, steps[0]), steps[1..]);
    }
  }
}
