/**
 The replay protocol: a sniffer fetches blocks in height order into a bounded channel and, when it stops for whatever
 reason, closes its block, error and done channels one after the other; the replay loop selects among whichever of
 them is ready.  A closed channel is always ready.
 */
module ReplayProtocol {
  import opened Words

  const MAX_RETRIES := 10
  const BLOCKS_BUFFER := 1000

  /** `chain(h)` is the block a node returns for height h; None is a null block.  `end == 0` means no end. */
  datatype Config = Config(chain: int -> Option<seq<Bytes>>, start: int, end: int)

  /** Where the sniffer is: loop test, fetch attempt, blocked on a send, reporting an error, closing, gone. */
  datatype Phase = Test | Attempt(tries: nat) | Push | Report | CloseBlocks | CloseErrors | CloseDone | Stopped

  datatype Ending = Drained | NullBlock | DoneSignal

  datatype State = State(
    phase: Phase, height: int, gaveUp: bool,
    blocks: seq<Option<seq<Bytes>>>,  // buffered in the block channel
    errors: nat,                      // buffered in the error channel
    consumed: nat, processed: seq<Bytes>, ended: Option<Ending>)

  datatype Step =
    // sniffer
    | TestEnd | FetchOk | FetchFail | SendBlock | SendError | Abandon(report: bool) | Close
    // replay loop
    | Receive | SeeDrained | ReceiveError | ReceiveNilError | SeeDone | Timeout

  function Init(c: Config): State { State(Test, c.start, false, [], 0, 0, [], None) }

  predicate BlocksClosed(s: State) { s.phase.CloseErrors? || s.phase.CloseDone? || s.phase.Stopped? }
  predicate ErrorsClosed(s: State) { s.phase.CloseDone? || s.phase.Stopped? }
  predicate DoneClosed(s: State) { s.phase.Stopped? }

  predicate Working(s: State) { s.phase.Test? || s.phase.Attempt? || s.phase.Push? || s.phase.Report? }

  predicate Enabled(c: Config, s: State, step: Step) {
    match step
    case TestEnd => s.phase.Test?
    case FetchOk => s.phase.Attempt?
    case FetchFail => s.phase.Attempt?
    case SendBlock => s.phase.Push? && |s.blocks| < BLOCKS_BUFFER
    case SendError => s.phase.Report? && s.errors < 1
    case Abandon(report) => Working(s) && (report ==> s.phase.Attempt? || s.phase.Push?)
    case Close => s.phase.CloseBlocks? || s.phase.CloseErrors? || s.phase.CloseDone?
    case Receive => s.ended.None? && s.blocks != []
    case SeeDrained => s.ended.None? && s.blocks == [] && BlocksClosed(s)
    case ReceiveError => s.ended.None? && s.errors > 0
    case ReceiveNilError => s.ended.None? && s.errors == 0 && ErrorsClosed(s)
    case SeeDone => s.ended.None? && DoneClosed(s)
    case Timeout => s.ended.None?
  }

  function Apply(c: Config, s: State, step: Step): State
    requires Enabled(c, s, step)
  {
    match step
    case TestEnd => s.(phase := if c.end != 0 && s.height >= c.end then CloseBlocks else Attempt(0))
    case FetchOk => s.(phase := Push)
    case FetchFail => s.(phase := if s.phase.tries + 1 < MAX_RETRIES then Attempt(s.phase.tries + 1) else Report)
    case SendBlock => s.(phase := Test, height := s.height + 1, blocks := s.blocks + [c.chain(s.height)])
    case SendError => s.(phase := CloseBlocks, errors := s.errors + 1, gaveUp := true)
    case Abandon(report) => s.(phase := if report then Report else CloseBlocks, gaveUp := true)
    case Close =>
      s.(phase := if s.phase.CloseBlocks? then CloseErrors else if s.phase.CloseErrors? then CloseDone else Stopped)
    case Receive =>
      if s.blocks[0].None? then s.(blocks := s.blocks[1..], ended := Some(NullBlock))
      else
        s.(blocks := s.blocks[1..], consumed := s.consumed + 1,
           processed := s.processed + NonEmpty(s.blocks[0].value))
    case SeeDrained => s.(ended := Some(Drained))
    case ReceiveError => s.(errors := s.errors - 1)  // logged, then the loop goes on
    case ReceiveNilError => s                        // wrapping a nil error is no error: an empty batch
    case SeeDone => s.(ended := Some(DoneSignal))
    case Timeout => s
  }

  ghost predicate Run(c: Config, states: seq<State>, steps: seq<Step>) {
    && |states| == |steps| + 1
    && states[0] == Init(c)
    && forall k :: 0 <= k < |steps| ==>
         Enabled(c, states[k], steps[k]) && states[k + 1] == Apply(c, states[k], steps[k])
  }

  // ----- the transactions of a block

  function NonEmpty(block: seq<Bytes>): seq<Bytes> {
    if block == [] then [] else (if |block[0]| > 0 then [block[0]] else []) + NonEmpty(block[1..])
  }

  lemma {:induction false} NonEmptyAppend(block: seq<Bytes>, tx: Bytes)
    ensures NonEmpty(block + [tx]) == NonEmpty(block) + if |tx| > 0 then [tx] else []
  {
    if block == [] {
      assert block + [tx] == [tx] && [tx][1..] == [];
    } else {
      NonEmptyAppend(block[1..], tx);
      assert (block + [tx])[1..] == block[1..] + [tx];
    }
  }

  /** The batch built from one received block. */
  method BlockTxs(block: seq<Bytes>) returns (txs: seq<Bytes>)
    ensures txs == NonEmpty(block)
    ensures forall tx :: tx in txs <==> tx in block && |tx| > 0
  {
    txs := [];
    for i := 0 to |block|
      invariant txs == NonEmpty(block[..i])
      invariant forall tx :: tx in txs <==> tx in block[..i] && |tx| > 0
    {
      NonEmptyAppend(block[..i], block[i]);
      assert block[..i + 1] == block[..i] + [block[i]];
      if |block[i]| > 0 {
        txs := txs + [block[i]];
      }
    }
    assert block[..|block|] == block;
  }

  /** The block k heights after the start. */
  function At(c: Config, k: int): Option<seq<Bytes>> { c.chain(c.start + k) }

  /** The non-empty transactions of `n` consecutive blocks from the start height, in order. */
  function Replayed(c: Config, n: nat): seq<Bytes> {
    if n == 0 then [] else
      var block := At(c, n - 1);
      Replayed(c, n - 1) + if block.None? then [] else NonEmpty(block.value)
  }

  // ----- whole runs

  /** What has been processed and what is buffered are consecutive blocks from the start height. */
  ghost predicate InOrder(c: Config, s: State) {
    && s.processed == Replayed(c, s.consumed)
    && |s.blocks| <= 1000
    && (forall k :: 0 <= k < s.consumed ==> At(c, k).Some?)
    && (if s.ended == Some(NullBlock) then At(c, s.consumed).None? && c.start + s.consumed < s.height else
          && s.height == c.start + s.consumed + |s.blocks|
          && forall k :: 0 <= k < |s.blocks| ==> s.blocks[k] == At(c, s.consumed + k))
  }

  /** The channels tell the truth about where the sniffer is. */
  ghost predicate Signals(c: Config, s: State) {
    && (s.ended == Some(Drained) ==> s.blocks == [] && BlocksClosed(s))
    && (s.ended == Some(DoneSignal) ==> DoneClosed(s))
    && (s.phase.Attempt? || s.phase.Push? ==> c.end == 0 || s.height < c.end)
    && (!s.gaveUp && !Working(s) ==> c.end != 0 && s.height >= c.end)
    && (c.end != 0 && c.start <= c.end ==> s.height <= c.end)
    && s.errors <= 1
  }

  ghost predicate Inv(c: Config, s: State) { InOrder(c, s) && Signals(c, s) }

  lemma ReceiveInOrder(c: Config, s: State)
    requires InOrder(c, s) && Enabled(c, s, Receive)
    ensures InOrder(c, Apply(c, s, Receive))
  {
    assert s.blocks[0] == At(c, s.consumed);
    forall k | 0 <= k < |s.blocks| - 1 ensures s.blocks[1..][k] == At(c, s.consumed + 1 + k) {
      assert s.blocks[k + 1] == At(c, s.consumed + (k + 1));
    }
  }

  lemma SendInOrder(c: Config, s: State)
    requires InOrder(c, s) && Enabled(c, s, SendBlock)
    ensures InOrder(c, Apply(c, s, SendBlock))
  {
    if s.ended != Some(NullBlock) {
      var blocks := s.blocks + [c.chain(s.height)];
      forall k | 0 <= k < |blocks| ensures blocks[k] == At(c, s.consumed + k) {
        if k < |s.blocks| {
          assert s.blocks[k] == At(c, s.consumed + k);
        }
      }
    }
  }

  lemma StepInOrder(c: Config, s: State, step: Step)
    requires InOrder(c, s) && Enabled(c, s, step)
    ensures InOrder(c, Apply(c, s, step))
  {
    if step.Receive? {
      ReceiveInOrder(c, s);
    } else if step.SendBlock? {
      SendInOrder(c, s);
    } else {
      var s' := Apply(c, s, step);
      assert s'.processed == s.processed && s'.blocks == s.blocks && s'.consumed == s.consumed && s'.height == s.height;
    }
  }

  lemma StepSignals(c: Config, s: State, step: Step)
    requires Signals(c, s) && Enabled(c, s, step)
    ensures Signals(c, Apply(c, s, step))
  {
    match step
    case Close => assert s.phase.CloseBlocks? || BlocksClosed(s);
    case Receive =>
    case _ =>
  }

  lemma StepInv(c: Config, s: State, step: Step)
    requires Inv(c, s) && Enabled(c, s, step)
    ensures Inv(c, Apply(c, s, step))
  {
    StepInOrder(c, s, step);
    StepSignals(c, s, step);
  }

  /** In every run the processed transactions are those of a gap-free prefix of the blocks from the start height. */
  lemma {:induction false} RunsReplayPrefix(c: Config, states: seq<State>, steps: seq<Step>, k: nat)
    requires Run(c, states, steps) && k < |states|
    ensures Inv(c, states[k])
  {
    if k > 0 {
      RunsReplayPrefix(c, states, steps, k - 1);
      StepInv(c, states[k - 1], steps[k - 1]);
    }
  }

  /**
   A run that ends through the drained channel has processed every block the sniffer sent, and nothing is sent later.
   If the sniffer was neither cancelled nor out of retries, that is every block from start up to end.
   */
  lemma DrainedRunsAreComplete(c: Config, states: seq<State>, steps: seq<Step>, k: nat)
    requires Run(c, states, steps) && k < |states| && states[k].ended == Some(Drained)
    ensures var s := states[k];
            && s.processed == Replayed(c, s.consumed) && c.start + s.consumed == s.height
            && (forall j :: k <= j < |states| ==> states[j].height == s.height)
            && (!s.gaveUp && c.start <= c.end ==> s.height == c.end)
  {
    RunsReplayPrefix(c, states, steps, k);
    forall j | k <= j < |states| ensures states[j].height == states[k].height {
      ClosedForGood(c, states, steps, k, j);
    }
  }

  lemma {:induction false} ClosedForGood(c: Config, states: seq<State>, steps: seq<Step>, k: nat, j: nat)
    requires Run(c, states, steps) && k <= j < |states| && BlocksClosed(states[k])
    ensures BlocksClosed(states[j]) && states[j].height == states[k].height
    decreases j
  {
    if k < j {
      ClosedForGood(c, states, steps, k, j - 1);
    }
  }

  // ----- retries

  predicate OfSniffer(step: Step) {
    || step.TestEnd? || step.FetchOk? || step.FetchFail? || step.SendBlock? || step.SendError? || step.Abandon?
    || step.Close?
  }

  /** How many of the sniffer's latest steps are failed fetches, leaving the replay loop's steps aside. */
  function FailedInARow(steps: seq<Step>): nat {
    if steps == [] then 0 else
      var last, before := steps[|steps| - 1], steps[..|steps| - 1];
      if !OfSniffer(last) then FailedInARow(before)
      else if last.FetchFail? then FailedInARow(before) + 1
      else 0
  }

  /** Without a cancellation a fetch is reported as failed after exactly ten failures in a row, and not before. */
  lemma {:induction false} TriedTenTimes(c: Config, states: seq<State>, steps: seq<Step>, k: nat)
    requires Run(c, states, steps) && Uncancelled(steps) && k < |states|
    ensures states[k].phase.Report? ==> FailedInARow(steps[..k]) == 10
    ensures states[k].phase.Attempt? ==> FailedInARow(steps[..k]) == states[k].phase.tries < 10
  {
    if k > 0 {
      TriedTenTimes(c, states, steps, k - 1);
      assert steps[..k][..k - 1] == steps[..k - 1];
    }
  }

  function CountSteps(steps: seq<Step>, step: Step): nat {
    if steps == [] then 0 else CountSteps(steps[..|steps| - 1], step) + if steps[|steps| - 1] == step then 1 else 0
  }

  /** The sniffer reports at most one error, and the replay loop receives it at most once. */
  lemma {:induction false} OneErrorAtMost(c: Config, states: seq<State>, steps: seq<Step>, k: nat)
    requires Run(c, states, steps) && k < |states|
    ensures CountSteps(steps[..k], ReceiveError) + states[k].errors == CountSteps(steps[..k], SendError) <= 1
    ensures Working(states[k]) ==> CountSteps(steps[..k], SendError) == 0
  {
    if k > 0 {
      OneErrorAtMost(c, states, steps, k - 1);
      CountNext(steps, k - 1, ReceiveError);
      CountNext(steps, k - 1, SendError);
      ErrorStep(c, states[k - 1], steps[k - 1]);
    }
  }

  lemma CountNext(steps: seq<Step>, k: nat, step: Step)
    requires k < |steps|
    ensures CountSteps(steps[..k + 1], step) == CountSteps(steps[..k], step) + if steps[k] == step then 1 else 0
  {
    assert steps[..k + 1][..k] == steps[..k];
  }

  /** Only sending and receiving touch the error channel, and the sniffer stops working when it sends. */
  lemma ErrorStep(c: Config, s: State, step: Step)
    requires Enabled(c, s, step)
    ensures var s' := Apply(c, s, step);
            && s'.errors == s.errors + (if step == SendError then 1 else 0) - (if step == ReceiveError then 1 else 0)
            && (Working(s') ==> Working(s) && step != SendError) && (step == SendError ==> Working(s))
  {
  }

  // ----- which replays are complete whenever they end

  /** Every block that was sent has been replayed. */
  ghost predicate EverythingReplayed(c: Config, s: State) { c.start + s.consumed == s.height }

  /** No block lies in the configured range. */
  predicate NothingToReplay(c: Config) { c.end != 0 && c.end <= c.start }

  ghost predicate Uncancelled(steps: seq<Step>) { forall k :: 0 <= k < |steps| ==> !steps[k].Abandon? }

  /** Every run that has ended, or every such run without a cancellation, has replayed everything. */
  ghost predicate AlwaysComplete(c: Config, uncancelled: bool) {
    forall states: seq<State>, steps: seq<Step> ::
      Run(c, states, steps) && states[|steps|].ended.Some? && (uncancelled ==> Uncancelled(steps)) ==>
        EverythingReplayed(c, states[|steps|])
  }

  /** The same for runs whose sniffer neither was cancelled nor ran out of retries. */
  ghost predicate CompleteUnlessGivenUp(c: Config) {
    forall states: seq<State>, steps: seq<Step> ::
      Run(c, states, steps) && states[|steps|].ended.Some? && !states[|steps|].gaveUp ==>
        EverythingReplayed(c, states[|steps|])
  }

  lemma {:induction false} NothingSent(c: Config, states: seq<State>, steps: seq<Step>, k: nat)
    requires Run(c, states, steps) && NothingToReplay(c) && k < |states|
    ensures var s := states[k];
            s.height == c.start && s.consumed == 0 && s.blocks == [] && !s.phase.Attempt? && !s.phase.Push?
  {
    if k > 0 {
      NothingSent(c, states, steps, k - 1);
    }
  }

  lemma Extend(c: Config, states: seq<State>, steps: seq<Step>, step: Step)
    returns (states': seq<State>, steps': seq<Step>)
    requires Run(c, states, steps) && Enabled(c, states[|steps|], step)
    ensures Run(c, states', steps') && states'[|steps'|] == Apply(c, states[|steps|], step)
    ensures Uncancelled(steps) && !step.Abandon? ==> Uncancelled(steps')
  {
    states', steps' := states + [Apply(c, states[|steps|], step)], steps + [step];
  }

  /** The state after `sent` blocks of which at most the last one is still buffered. */
  ghost predicate Sent(c: Config, s: State, sent: nat) {
    && s.phase.Test? && s.ended.None? && !s.gaveUp && s.errors == 0 && s.height == c.start + sent
    && s.blocks == if sent == 0 then [] else [At(c, sent - 1)]
  }

  /** A replay that is always one block behind, until it meets a null block. */
  lemma {:induction false} OneBehind(c: Config, sent: nat) returns (states: seq<State>, steps: seq<Step>)
    requires c.end == 0 || c.start + sent <= c.end
    ensures Run(c, states, steps) && Uncancelled(steps) && !states[|steps|].gaveUp
    ensures states[|steps|].ended == Some(NullBlock) || Sent(c, states[|steps|], sent)
  {
    if sent == 0 {
      return [Init(c)], [];
    }
    states, steps := OneBehind(c, sent - 1);
    if states[|steps|].ended.None? && sent > 1 {
      states, steps := Extend(c, states, steps, Receive);
    }
    if states[|steps|].ended.None? {
      states, steps := SendNext(c, states, steps);
    }
  }

  lemma SendNext(c: Config, states: seq<State>, steps: seq<Step>) returns (states': seq<State>, steps': seq<Step>)
    requires Run(c, states, steps) && states[|steps|].phase.Test? && states[|steps|].blocks == []
    requires c.end == 0 || states[|steps|].height < c.end
    ensures Run(c, states', steps') && (Uncancelled(steps) ==> Uncancelled(steps'))
    ensures var s := states[|steps|]; states'[|steps'|] == s.(height := s.height + 1, blocks := [c.chain(s.height)])
  {
    states', steps' := Extend(c, states, steps, TestEnd);
    states', steps' := Extend(c, states', steps', FetchOk);
    states', steps' := Extend(c, states', steps', SendBlock);
  }

  /** The three channels are closed and the done channel is selected first. */
  lemma CloseThenDone(c: Config, states: seq<State>, steps: seq<Step>) returns (states': seq<State>, steps': seq<Step>)
    requires Run(c, states, steps) && states[|steps|].phase.CloseBlocks? && states[|steps|].ended.None?
    ensures Run(c, states', steps') && (Uncancelled(steps) ==> Uncancelled(steps'))
    ensures states'[|steps'|] == states[|steps|].(phase := Stopped, ended := Some(DoneSignal))
  {
    states', steps' := Extend(c, states, steps, Close);
    states', steps' := Extend(c, states', steps', Close);
    states', steps' := Extend(c, states', steps', Close);
    states', steps' := Extend(c, states', steps', SeeDone);
  }

  lemma {:induction false} RunOutOfRetries(c: Config, states: seq<State>, steps: seq<Step>)
    returns (states': seq<State>, steps': seq<Step>)
    requires Run(c, states, steps) && states[|steps|].phase.Attempt? && states[|steps|].phase.tries < MAX_RETRIES
    ensures Run(c, states', steps') && (Uncancelled(steps) ==> Uncancelled(steps'))
    ensures states'[|steps'|] == states[|steps|].(phase := Report)
    decreases MAX_RETRIES - states[|steps|].phase.tries
  {
    states', steps' := Extend(c, states, steps, FetchFail);
    if states[|steps|].phase.tries + 1 < MAX_RETRIES {
      states', steps' := RunOutOfRetries(c, states', steps');
    }
  }

  /**
   Whenever there is an end behind the start, the done channel may be seen while the last block is still buffered,
   although nothing went wrong.
   */
  lemma DoneCanLeaveBlocksBehind(c: Config) returns (states: seq<State>, steps: seq<Step>)
    requires c.end != 0 && c.start < c.end
    ensures Run(c, states, steps) && Uncancelled(steps) && !states[|steps|].gaveUp
    ensures var s := states[|steps|];
            || s.ended == Some(NullBlock)
            || (s.ended == Some(DoneSignal) && s.height == c.end && s.blocks == [c.chain(c.end - 1)])
    ensures !EverythingReplayed(c, states[|steps|])
  {
    states, steps := OneBehind(c, c.end - c.start);
    if states[|steps|].ended.None? {
      states, steps := Extend(c, states, steps, TestEnd);
      states, steps := CloseThenDone(c, states, steps);
    }
    RunsReplayPrefix(c, states, steps, |steps|);
  }

  /** Without an end, a sniffer that runs out of retries has the same effect. */
  lemma FailureCanLeaveBlocksBehind(c: Config) returns (states: seq<State>, steps: seq<Step>)
    requires c.end == 0
    ensures Run(c, states, steps) && Uncancelled(steps) && states[|steps|].ended.Some?
    ensures !EverythingReplayed(c, states[|steps|])
  {
    states, steps := OneBehind(c, 1);
    if states[|steps|].ended.None? {
      states, steps := Extend(c, states, steps, TestEnd);
      states, steps := RunOutOfRetries(c, states, steps);
      states, steps := Extend(c, states, steps, SendError);
      states, steps := CloseThenDone(c, states, steps);
    }
    RunsReplayPrefix(c, states, steps, |steps|);
  }

  /** An ended replay is certain to be complete exactly when there is nothing to replay, cancelled or not. */
  lemma CompleteExactly(c: Config, uncancelled: bool)
    ensures AlwaysComplete(c, uncancelled) <==> NothingToReplay(c)
  {
    if NothingToReplay(c) {
      forall states: seq<State>, steps: seq<Step> | Run(c, states, steps)
        ensures EverythingReplayed(c, states[|steps|])
      {
        NothingSent(c, states, steps, |steps|);
      }
    } else if c.end == 0 {
      var states, steps := FailureCanLeaveBlocksBehind(c);
    } else {
      var states, steps := DoneCanLeaveBlocksBehind(c);
    }
  }

  ghost predicate NoNullBlock(c: Config) { forall k: nat :: At(c, k).Some? }

  lemma EndlessReplayGoesOn(c: Config, states: seq<State>, steps: seq<Step>, k: nat)
    requires Run(c, states, steps) && k < |states| && c.end == 0 && NoNullBlock(c) && !states[k].gaveUp
    ensures states[k].ended.None?
  {
    var s := states[k];
    RunsReplayPrefix(c, states, steps, k);
    assert Working(s);
    assert At(c, s.consumed).Some?;
    if s.ended.Some? {
      match s.ended.value case Drained => case NullBlock => case DoneSignal =>
    }
  }

  /**
   Even a sniffer that never gives up leaves blocks behind in some run, unless there is nothing to replay, or there is
   no end and no null block, in which case the replay never ends.
   */
  lemma CompleteExactlyUnlessGivenUp(c: Config)
    ensures CompleteUnlessGivenUp(c) <==> NothingToReplay(c) || (c.end == 0 && NoNullBlock(c))
  {
    if NothingToReplay(c) || (c.end == 0 && NoNullBlock(c)) {
      forall states: seq<State>, steps: seq<Step>
        | Run(c, states, steps) && states[|steps|].ended.Some? && !states[|steps|].gaveUp
        ensures EverythingReplayed(c, states[|steps|])
      {
        if NothingToReplay(c) {
          NothingSent(c, states, steps, |steps|);
        } else {
          EndlessReplayGoesOn(c, states, steps, |steps|);
        }
      }
    } else if c.end == 0 {
      var k: nat :| At(c, k).None?;
      var states, steps := OneBehind(c, k + 1);
      if states[|steps|].ended.None? {
        states, steps := Extend(c, states, steps, Receive);
      }
      RunsReplayPrefix(c, states, steps, |steps|);
    } else {
      var states, steps := DoneCanLeaveBlocksBehind(c);
    }
  }
}
