/**
 The generate / sign / collect pipeline.

 One task per account fetches the account's number and sequence and sends that account's transactions,
 in index order, to a bounded queue.  Signers move them, signed, to a second bounded queue.  A collector
 writes what it receives at (account, index).  Every goroutine's next channel or memory operation is one
 atomic step; a run is any interleaving of such steps.  The context is cancelled by the collector's exit and by nothing
 else.  The phase ends when every account task has returned as well; a task that sees the cancellation kills the
 process.
 */
module SigningPipeline {
  import opened Words

  datatype Account = Account(number: uint64, sequence: uint64)

  datatype Tx = Tx(from: Account, fromIdx: nat, txIdx: nat, bytes: Bytes) {
    /** A copy of the transaction that differs in its bytes only. */
    function WithBytes(b: Bytes): Tx { this.(bytes := b) }
  }

  datatype Slot = Slot(account: nat, index: nat)

  /** `sign` stands for the provider's encoding and signature of a generated transaction. */
  datatype Config = Config(accounts: nat, txs: nat, workers: nat, signers: nat,
                           queueCap: nat, signedCap: nat, sign: Tx -> Bytes)

  /** An account task: submitted to the pool, waiting for its sequence, or sending transaction `next`. */
  datatype Worker = Submitted | Fetching | Sending(from: Account, next: nat)

  datatype State = State(
    workers: seq<Worker>,
    sequences: map<nat, uint64>,  // recorded initial sequences
    queue: seq<Tx>,
    holding: seq<Tx>,             // one entry for each signer that is not waiting for input
    signed: seq<Tx>,
    grid: map<Slot, Bytes>,
    received: nat,
    dead: bool)                   // the process has exited

  datatype Step =
    | Start(i: nat) | Fetch(i: nat, account: Account) | Send(i: nat)  // account task
    | Take | Offer(k: nat)                                            // signer
    | Collect                                                         // collector
    | Die(i: nat)                                                     // account task, once the context is cancelled

  ghost predicate ValidConfig(c: Config) {
    c.workers > 0 && c.signers > 0 && c.queueCap > 0 && c.signedCap > 0
  }

  function Init(c: Config): State {
    State(seq(c.accounts, _ => Submitted), map[], [], [], [], map[], 0, false)
  }

  /** The transaction a task generates at index `j` from the account value it holds at that moment. */
  function Generate(from: Account, i: nat, j: nat): Tx { Tx(from, i, j, []) }

  predicate Active(c: Config, w: Worker) { w.Fetching? || (w.Sending? && w.next < c.txs) }

  function ActiveCount(c: Config, ws: seq<Worker>): nat {
    if ws == [] then 0 else (if Active(c, ws[0]) then 1 else 0) + ActiveCount(c, ws[1..])
  }

  predicate Enabled(c: Config, s: State, step: Step) {
    !s.dead &&
    match step
    case Start(i) => i < |s.workers| && s.workers[i].Submitted? && ActiveCount(c, s.workers) < c.workers
    case Fetch(i, _) => i < |s.workers| && s.workers[i].Fetching?
    case Send(i) => i < |s.workers| && s.workers[i].Sending? && s.workers[i].next < c.txs && |s.queue| < c.queueCap
    case Take => s.queue != [] && |s.holding| < c.signers
    case Offer(k) => k < |s.holding| && |s.signed| < c.signedCap
    case Collect => s.signed != [] && s.received < c.accounts * c.txs
    case Die(i) => Final(c, s) && i < |s.workers| && Active(c, s.workers[i])
  }

  function Apply(c: Config, s: State, step: Step): State
    requires Enabled(c, s, step)
  {
    match step
    case Start(i) => s.(workers := s.workers[i := Fetching])
    case Fetch(i, a) => s.(workers := s.workers[i := Sending(a, 0)], sequences := s.sequences[i := a.sequence])
    case Send(i) =>
      var Sending(from, next) := s.workers[i];
      s.(queue := s.queue + [Generate(from, i, next)],
         workers := s.workers[i := Sending(from.(sequence := Add64(from.sequence, 1)), next + 1)])
    case Take => s.(queue := s.queue[1..], holding := s.holding + [s.queue[0]])
    case Offer(k) =>
      var tx := s.holding[k];
      s.(holding := s.holding[..k] + s.holding[k + 1..], signed := s.signed + [tx.WithBytes(c.sign(tx))])
    case Collect =>
      var tx := s.signed[0];
      s.(signed := s.signed[1..], grid := s.grid[SlotOf(tx) := tx.bytes], received := s.received + 1)
    case Die(_) => s.(dead := true)
  }

  /** The collector leaves its nested loops after accounts * txs receives, which cancels the context. */
  predicate Final(c: Config, s: State) { s.received == c.accounts * c.txs }

  /** The phase returns when the pool's last task has returned too. */
  predicate Returned(c: Config, s: State) {
    !s.dead && Final(c, s) && forall w :: w in s.workers ==> w.Sending? && w.next == c.txs
  }

  predicate Over(c: Config, s: State) { s.dead || Returned(c, s) }

  /** A run: `steps` applied one after the other from the initial state, each when it is enabled. */
  ghost predicate Run(c: Config, states: seq<State>, steps: seq<Step>) {
    && |states| == |steps| + 1
    && states[0] == Init(c)
    && forall k :: 0 <= k < |steps| ==>
         Enabled(c, states[k], steps[k]) && states[k + 1] == Apply(c, states[k], steps[k])
  }

  // ----- where every slot is

  function SlotOf(tx: Tx): Slot { Slot(tx.fromIdx, tx.txIdx) }

  function SlotsOf(q: seq<Tx>): multiset<Slot> {
    if q == [] then multiset{} else multiset{SlotOf(q[0])} + SlotsOf(q[1..])
  }

  function GridSlots(c: Config): set<Slot> {
    set i, j | 0 <= i < c.accounts && 0 <= j < c.txs :: Slot(i, j)
  }

  function NextIndex(w: Worker): nat { if w.Sending? then w.next else 0 }

  /** Slots whose transaction has not been generated yet. */
  function Ungenerated(c: Config, s: State): set<Slot>
    requires |s.workers| == c.accounts
  {
    set x | x in GridSlots(c) && NextIndex(s.workers[x.account]) <= x.index
  }

  /** Every slot of the grid is in exactly one of the five places. */
  ghost predicate Conserved(c: Config, s: State)
    requires |s.workers| == c.accounts
  {
    multiset(Ungenerated(c, s)) + SlotsOf(s.queue) + SlotsOf(s.holding) + SlotsOf(s.signed) + multiset(s.grid.Keys)
    == multiset(GridSlots(c))
  }

  /** How many transactions the tasks still have to generate. */
  function Left(c: Config, ws: seq<Worker>): int {
    if ws == [] then 0 else c.txs - NextIndex(ws[0]) + Left(c, ws[1..])
  }

  // ----- what every item carries

  /** The transaction of slot (i, j), signed for the recorded initial sequence plus j. */
  function Expected(s: State, i: nat, j: nat): Tx
    requires i < |s.workers| && s.workers[i].Sending? && i in s.sequences
  {
    Generate(Account(s.workers[i].from.number, Add64(s.sequences[i], j)), i, j)
  }

  ghost predicate Fetched(c: Config, s: State, i: nat)
    requires |s.workers| == c.accounts
  {
    i < c.accounts && s.workers[i].Sending? && i in s.sequences
  }

  ghost predicate Unsigned(c: Config, s: State, tx: Tx)
    requires |s.workers| == c.accounts
  {
    Fetched(c, s, tx.fromIdx) && tx.txIdx < s.workers[tx.fromIdx].next && tx == Expected(s, tx.fromIdx, tx.txIdx)
  }

  ghost predicate Signed(c: Config, s: State, tx: Tx)
    requires |s.workers| == c.accounts
  {
    Unsigned(c, s, tx.WithBytes([])) && tx.bytes == c.sign(tx.WithBytes([]))
  }

  ghost predicate Contents(c: Config, s: State) {
    && |s.workers| == c.accounts
    && (forall i :: 0 <= i < c.accounts && s.workers[i].Sending? ==>
          i in s.sequences && s.workers[i].next <= c.txs
          && s.workers[i].from.sequence == Add64(s.sequences[i], s.workers[i].next))
    && (forall tx :: tx in s.queue ==> Unsigned(c, s, tx))
    && (forall tx :: tx in s.holding ==> Unsigned(c, s, tx))
    && (forall tx :: tx in s.signed ==> Signed(c, s, tx))
    && (forall x :: x in s.grid ==> Fetched(c, s, x.account) && s.grid[x] == c.sign(Expected(s, x.account, x.index)))
  }

  ghost predicate Counted(c: Config, s: State) {
    && |s.workers| == c.accounts
    && Left(c, s.workers) + |s.queue| + |s.holding| + |s.signed| + s.received == c.accounts * c.txs
  }

  /** There are accounts and none has a transaction. */
  predicate Idle(c: Config) { c.txs == 0 && c.accounts > 0 }

  ghost predicate Inv(c: Config, s: State) {
    Contents(c, s) && Counted(c, s) && Conserved(c, s) && (s.dead ==> Final(c, s) && Idle(c))
  }

  // ----- list facts

  lemma {:induction false} SlotsOfAppend(q: seq<Tx>, tx: Tx)
    ensures SlotsOf(q + [tx]) == SlotsOf(q) + multiset{SlotOf(tx)}
  {
    if q == [] {
      assert q + [tx] == [tx];
    } else {
      SlotsOfAppend(q[1..], tx);
      assert (q + [tx])[1..] == q[1..] + [tx];
    }
  }

  lemma {:induction false} SlotsOfRemove(q: seq<Tx>, k: nat)
    requires k < |q|
    ensures SlotsOf(q) == SlotsOf(q[..k] + q[k + 1..]) + multiset{SlotOf(q[k])}
  {
    if k == 0 {
      assert q[..0] + q[1..] == q[1..];
    } else {
      var rest := q[..k] + q[k + 1..];
      SlotsOfRemove(q[1..], k - 1);
      assert rest[1..] == q[1..][..k - 1] + q[1..][k..];
      assert rest[0] == q[0] && q[1..][k - 1] == q[k];
    }
  }

  lemma {:induction false} LeftUpdate(c: Config, ws: seq<Worker>, i: nat, w: Worker)
    requires i < |ws|
    ensures Left(c, ws[i := w]) == Left(c, ws) + NextIndex(ws[i]) - NextIndex(w)
  {
    if i == 0 {
      assert ws[i := w][1..] == ws[1..];
    } else {
      LeftUpdate(c, ws[1..], i - 1, w);
      assert ws[i := w][1..] == ws[1..][i - 1 := w];
    }
  }

  /** If nothing is left to generate then every task has sent its last transaction. */
  lemma {:induction false} LeftZero(c: Config, ws: seq<Worker>)
    requires forall w :: w in ws ==> NextIndex(w) <= c.txs
    ensures Left(c, ws) >= 0
    ensures Left(c, ws) == 0 ==> forall w :: w in ws ==> NextIndex(w) == c.txs
  {
    if ws != [] {
      LeftZero(c, ws[1..]);
      assert forall w :: w in ws ==> w == ws[0] || w in ws[1..];
    }
  }

  lemma {:induction false} LeftFresh(c: Config, n: nat)
    ensures Left(c, seq(n, _ => Submitted)) == n * c.txs
  {
    if n > 0 {
      LeftFresh(c, n - 1);
      assert seq(n, _ => Submitted)[1..] == seq(n - 1, _ => Submitted);
      assert n * c.txs == (n - 1) * c.txs + c.txs;
    }
  }

  lemma {:induction false} NoneActive(c: Config, ws: seq<Worker>)
    requires forall w :: w in ws ==> !Active(c, w)
    ensures ActiveCount(c, ws) == 0
  {
    if ws != [] {
      NoneActive(c, ws[1..]);
    }
  }

  // ----- every step keeps the invariant

  lemma InitInv(c: Config)
    ensures Inv(c, Init(c))
  {
    LeftFresh(c, c.accounts);
    assert Ungenerated(c, Init(c)) == GridSlots(c);
  }

  /** Items stay well formed when tasks only move forward and keep their recorded values. */
  lemma ContentsFrame(c: Config, s: State, s': State)
    requires Contents(c, s) && |s'.workers| == c.accounts
    requires forall i :: 0 <= i < c.accounts && s.workers[i].Sending? ==>
               s'.workers[i].Sending? && s.workers[i].next <= s'.workers[i].next
               && s.workers[i].from.number == s'.workers[i].from.number
               && i in s.sequences && i in s'.sequences && s.sequences[i] == s'.sequences[i]
    ensures forall tx :: Unsigned(c, s, tx) ==> Unsigned(c, s', tx)
    ensures forall tx :: Signed(c, s, tx) ==> Signed(c, s', tx)
    ensures forall x: Slot :: Fetched(c, s, x.account) ==>
              Fetched(c, s', x.account) && Expected(s', x.account, x.index) == Expected(s, x.account, x.index)
  {
  }

  lemma StartStepContents(c: Config, s: State, step: Step)
    requires Contents(c, s) && Enabled(c, s, step) && (step.Start? || step.Fetch?)
    ensures Contents(c, Apply(c, s, step))
  {
    ContentsFrame(c, s, Apply(c, s, step));
  }

  lemma SendContents(c: Config, s: State, i: nat)
    requires Contents(c, s) && Enabled(c, s, Send(i))
    ensures Contents(c, Apply(c, s, Send(i)))
  {
    var s' := Apply(c, s, Send(i));
    ContentsFrame(c, s, s');
    Add64Step(s.sequences[i], s.workers[i].next);
    assert Unsigned(c, s', s'.queue[|s.queue|]);
    assert forall tx :: tx in s'.queue ==> tx in s.queue || tx == s'.queue[|s.queue|];
  }

  lemma QueueStepContents(c: Config, s: State, step: Step)
    requires Contents(c, s) && Enabled(c, s, step) && (step.Take? || step.Offer? || step.Collect?)
    ensures Contents(c, Apply(c, s, step))
  {
    var s' := Apply(c, s, step);
    ContentsFrame(c, s, s');
    match step
    case Take =>
      assert forall tx :: tx in s'.holding ==> tx in s.holding || tx == s.queue[0];
    case Offer(k) =>
      var tx := s.holding[k];
      assert Unsigned(c, s, tx) && tx.WithBytes(c.sign(tx)).WithBytes([]) == tx;
      assert forall t :: t in s'.signed ==> t in s.signed || t == tx.WithBytes(c.sign(tx));
    case Collect =>
      assert Signed(c, s, s.signed[0]);
    case _ =>
  }

  lemma StepContents(c: Config, s: State, step: Step)
    requires Contents(c, s) && Enabled(c, s, step)
    ensures Contents(c, Apply(c, s, step))
  {
    if step.Start? || step.Fetch? {
      StartStepContents(c, s, step);
    } else if step.Send? {
      SendContents(c, s, step.i);
    } else if step.Die? {
      ContentsFrame(c, s, Apply(c, s, step));
    } else {
      QueueStepContents(c, s, step);
    }
  }

  lemma StepCounted(c: Config, s: State, step: Step)
    requires Inv(c, s) && Enabled(c, s, step)
    ensures Counted(c, Apply(c, s, step))
  {
    match step
    case Start(i) => LeftUpdate(c, s.workers, i, Fetching);
    case Fetch(i, a) => LeftUpdate(c, s.workers, i, Sending(a, 0));
    case Send(i) => LeftUpdate(c, s.workers, i, Apply(c, s, step).workers[i]);
    case _ =>
  }

  lemma UngeneratedSame(c: Config, s: State, s': State)
    requires |s.workers| == |s'.workers| == c.accounts
    requires forall i :: 0 <= i < c.accounts ==> NextIndex(s'.workers[i]) == NextIndex(s.workers[i])
    ensures Ungenerated(c, s') == Ungenerated(c, s)
  {
  }

  lemma UngeneratedSend(c: Config, s: State, i: nat)
    requires |s.workers| == c.accounts && Enabled(c, s, Send(i))
    ensures var x := Slot(i, s.workers[i].next);
            x in Ungenerated(c, s) && Ungenerated(c, Apply(c, s, Send(i))) == Ungenerated(c, s) - {x}
  {
    assert Slot(i, s.workers[i].next) in GridSlots(c);
  }

  lemma SendConserved(c: Config, s: State, i: nat)
    requires Counted(c, s) && Conserved(c, s) && Enabled(c, s, Send(i))
    ensures Conserved(c, Apply(c, s, Send(i)))
  {
    var x := Slot(i, s.workers[i].next);
    UngeneratedSend(c, s, i);
    assert multiset(Ungenerated(c, s)) == multiset(Ungenerated(c, s) - {x}) + multiset{x};
    SlotsOfAppend(s.queue, Generate(s.workers[i].from, i, x.index));
    Handed(multiset{}, multiset(Ungenerated(c, s) - {x}), SlotsOf(s.queue), x);
  }

  /** A slot handed from one place to the next leaves the sum as it was. */
  lemma Handed(before: multiset<Slot>, from: multiset<Slot>, to: multiset<Slot>, x: Slot)
    ensures from + (to + multiset{x}) == (from + multiset{x}) + to
    ensures before + from + (to + multiset{x}) == before + (from + multiset{x}) + to
  {
  }

  lemma TakeConserved(c: Config, s: State)
    requires Counted(c, s) && Conserved(c, s) && Enabled(c, s, Take)
    ensures Conserved(c, Apply(c, s, Take))
  {
    var x, u := SlotOf(s.queue[0]), multiset(Ungenerated(c, s));
    UngeneratedSame(c, s, Apply(c, s, Take));
    SlotsOfAppend(s.holding, s.queue[0]);
    assert SlotsOf(s.queue) == SlotsOf(s.queue[1..]) + multiset{x};
    Handed(u, SlotsOf(s.queue[1..]), SlotsOf(s.holding), x);
  }

  lemma OfferConserved(c: Config, s: State, k: nat)
    requires Counted(c, s) && Conserved(c, s) && Enabled(c, s, Offer(k))
    ensures Conserved(c, Apply(c, s, Offer(k)))
  {
    UngeneratedSame(c, s, Apply(c, s, Offer(k)));
    var tx, rest := s.holding[k], s.holding[..k] + s.holding[k + 1..];
    assert SlotsOf(s.holding) == SlotsOf(rest) + multiset{SlotOf(tx)} by { SlotsOfRemove(s.holding, k); }
    SlotsOfAppend(s.signed, tx.WithBytes(c.sign(tx)));
    Handed(multiset(Ungenerated(c, s)) + SlotsOf(s.queue), SlotsOf(rest), SlotsOf(s.signed), SlotOf(tx));
  }

  /** What the collector is about to write belongs to the grid and has not been written. */
  lemma ReceivedSlotIsFresh(c: Config, s: State)
    requires Counted(c, s) && Conserved(c, s) && s.signed != []
    ensures SlotOf(s.signed[0]) in GridSlots(c) && SlotOf(s.signed[0]) !in s.grid
  {
    var x := SlotOf(s.signed[0]);
    assert SlotsOf(s.signed)[x] >= 1;
    assert multiset(GridSlots(c))[x] <= 1;
    assert multiset(GridSlots(c))[x] >= 1;
  }

  lemma CollectConserved(c: Config, s: State)
    requires Counted(c, s) && Conserved(c, s) && Enabled(c, s, Collect)
    ensures Conserved(c, Apply(c, s, Collect))
  {
    var s', x := Apply(c, s, Collect), SlotOf(s.signed[0]);
    UngeneratedSame(c, s, s');
    ReceivedSlotIsFresh(c, s);
    assert multiset(s'.grid.Keys) == multiset(s.grid.Keys) + multiset{x} by {
      assert s'.grid.Keys == s.grid.Keys + {x};
    }
    assert SlotsOf(s.signed) == SlotsOf(s.signed[1..]) + multiset{x};
    Handed(multiset(Ungenerated(c, s)) + SlotsOf(s.queue) + SlotsOf(s.holding), SlotsOf(s.signed[1..]),
           multiset(s.grid.Keys), x);
  }

  lemma StepConserved(c: Config, s: State, step: Step)
    requires Counted(c, s) && Conserved(c, s) && Enabled(c, s, step)
    ensures |Apply(c, s, step).workers| == c.accounts && Conserved(c, Apply(c, s, step))
  {
    match step
    case Start(i) => UngeneratedSame(c, s, Apply(c, s, step));
    case Fetch(i, a) => UngeneratedSame(c, s, Apply(c, s, step));
    case Send(i) => SendConserved(c, s, i);
    case Take => TakeConserved(c, s);
    case Offer(k) => OfferConserved(c, s, k);
    case Collect => CollectConserved(c, s);
    case Die(i) => UngeneratedSame(c, s, Apply(c, s, step));
  }

  /** After the collector's exit a task can still be at work only if it has nothing to send. */
  lemma OnlyIdleDies(c: Config, s: State, i: nat)
    requires Contents(c, s) && Counted(c, s) && Enabled(c, s, Die(i))
    ensures Idle(c)
  {
    LeftZero(c, s.workers);
    assert Left(c, s.workers) == 0;
    assert s.workers[i] in s.workers;
  }

  lemma StepInv(c: Config, s: State, step: Step)
    requires Inv(c, s) && Enabled(c, s, step)
    ensures Inv(c, Apply(c, s, step))
  {
    StepContents(c, s, step);
    StepCounted(c, s, step);
    StepConserved(c, s, step);
    if step.Die? {
      OnlyIdleDies(c, s, step.i);
    }
  }

  /** In every state of every run each slot is ungenerated, queued, held, signed or collected, exactly once. */
  lemma {:induction false} RunsConserve(c: Config, states: seq<State>, steps: seq<Step>, k: nat)
    requires Run(c, states, steps) && k < |states|
    ensures Inv(c, states[k])
  {
    if k == 0 {
      InitInv(c);
    } else {
      RunsConserve(c, states, steps, k - 1);
      StepInv(c, states[k - 1], steps[k - 1]);
    }
  }

  /** A receive never overwrites a slot, and never indexes outside the grid. */
  lemma CollectWritesFreshSlot(c: Config, states: seq<State>, steps: seq<Step>, k: nat)
    requires Run(c, states, steps) && k < |steps| && steps[k].Collect?
    ensures var x := SlotOf(states[k].signed[0]); x in GridSlots(c) && x !in states[k].grid
  {
    RunsConserve(c, states, steps, k);
    ReceivedSlotIsFresh(c, states[k]);
  }

  /** What the broadcast phase relies on. */
  ghost predicate Complete(c: Config, s: State) {
    && |s.workers| == c.accounts
    && s.grid.Keys == GridSlots(c)
    && s.queue == [] && s.holding == [] && s.signed == []
    && (c.txs > 0 ==> forall i :: 0 <= i < c.accounts ==> i in s.sequences)
    && (forall x :: x in s.grid ==> Fetched(c, s, x.account) && s.grid[x] == c.sign(Expected(s, x.account, x.index)))
  }

  lemma FinalComplete(c: Config, s: State)
    requires Inv(c, s) && Final(c, s)
    ensures Complete(c, s)
  {
    LeftZero(c, s.workers);
    assert Ungenerated(c, s) == {};
    assert multiset(s.grid.Keys) == multiset(GridSlots(c));
    forall x ensures x in s.grid.Keys <==> x in GridSlots(c) {
      assert x in s.grid.Keys <==> x in multiset(s.grid.Keys);
      assert x in GridSlots(c) <==> x in multiset(GridSlots(c));
    }
    if c.txs > 0 {
      forall i | 0 <= i < c.accounts ensures i in s.sequences {
        assert Slot(i, 0) in GridSlots(c);
      }
    }
  }

  ghost predicate SequencesRecorded(c: Config, s: State) {
    forall i :: 0 <= i < c.accounts ==> i in s.sequences
  }

  /**
   When the collector exits, all initial sequences are recorded in every run exactly when each account has a
   transaction: with none, the collector leaves at once and the account tasks may not have run at all.
   */
  lemma SequencesRecordedAtExit(c: Config)
    ensures (forall states, steps :: Run(c, states, steps) && Final(c, states[|steps|]) ==>
               SequencesRecorded(c, states[|steps|]))
            <==> c.txs > 0 || c.accounts == 0
  {
    if c.txs > 0 || c.accounts == 0 {
      forall states, steps | Run(c, states, steps) && Final(c, states[|steps|])
        ensures SequencesRecorded(c, states[|steps|])
      {
        RunsConserve(c, states, steps, |steps|);
        FinalComplete(c, states[|steps|]);
      }
    } else {
      var states, steps: seq<Step> := [Init(c)], [];
      assert Run(c, states, steps) && Final(c, states[|steps|]);
      assert 0 !in Init(c).sequences;
    }
  }

  lemma ReturnedComplete(c: Config, s: State)
    requires Inv(c, s) && Returned(c, s)
    ensures Complete(c, s) && SequencesRecorded(c, s)
  {
    FinalComplete(c, s);
    forall i | 0 <= i < c.accounts ensures i in s.sequences {
      assert s.workers[i] in s.workers;
    }
  }

  /** The broadcast phase starts with the full grid and every initial sequence, however many transactions there are. */
  lemma PhaseEndsComplete(c: Config, states: seq<State>, steps: seq<Step>)
    requires Run(c, states, steps) && Returned(c, states[|steps|])
    ensures Complete(c, states[|steps|]) && SequencesRecorded(c, states[|steps|])
  {
    RunsConserve(c, states, steps, |steps|);
    ReturnedComplete(c, states[|steps|]);
  }

  ghost predicate CanDie(c: Config) {
    exists states: seq<State>, steps: seq<Step> :: Run(c, states, steps) && states[|steps|].dead
  }

  /** The collector's exit can kill the process exactly when there are accounts and none has a transaction. */
  lemma DiesExactly(c: Config)
    requires ValidConfig(c)
    ensures CanDie(c) <==> Idle(c)
  {
    if CanDie(c) {
      var states: seq<State>, steps: seq<Step> :| Run(c, states, steps) && states[|steps|].dead;
      RunsConserve(c, states, steps, |steps|);
    }
    if Idle(c) {
      var s0 := Init(c);
      NoneActive(c, s0.workers);
      var s1 := Apply(c, s0, Start(0));
      assert s1.workers[0] == Fetching;
      var s2 := Apply(c, s1, Die(0));
      assert Run(c, [s0, s1, s2], [Start(0), Die(0)]) && [s0, s1, s2][2].dead;
    }
  }

  // ----- what was fetched is what is signed

  /** From its fetch on, an account keeps the fetched number, and the fetched sequence is the recorded one. */
  lemma {:induction false} FetchSticks(c: Config, states: seq<State>, steps: seq<Step>, k: nat, j: nat)
    requires Run(c, states, steps) && k < |steps| && steps[k].Fetch? && k < j < |states|
    ensures var i, a, s := steps[k].i, steps[k].account, states[j];
            && i < |s.workers| && s.workers[i].Sending? && s.workers[i].from.number == a.number
            && i in s.sequences && s.sequences[i] == a.sequence
    decreases j
  {
    if j > k + 1 {
      FetchSticks(c, states, steps, k, j - 1);
    }
  }

  /** A task that sends has fetched before. */
  lemma {:induction false} FetchedBefore(c: Config, states: seq<State>, steps: seq<Step>, j: nat, i: nat)
    returns (k: nat)
    requires Run(c, states, steps) && j < |states| && i < |states[j].workers| && states[j].workers[i].Sending?
    ensures k < j && steps[k].Fetch? && steps[k].i == i
  {
    assert j > 0;
    if steps[j - 1].Fetch? && steps[j - 1].i == i {
      k := j - 1;
    } else {
      k := FetchedBefore(c, states, steps, j - 1, i);
    }
  }

  /** The transaction signed for slot (i, j) of an account that was fetched as `a`. */
  function SignedFor(c: Config, a: Account, i: nat, j: nat): Bytes {
    c.sign(Tx(Account(a.number, Add64(a.sequence, j)), i, j, []))
  }

  /** What the collector has written for an account is signed for the fetched number and the fetched sequence plus j. */
  lemma CollectedAsFetched(c: Config, states: seq<State>, steps: seq<Step>, k: nat, n: nat, j: nat)
    requires Run(c, states, steps) && k < |steps| && steps[k].Fetch? && k < n < |states|
    requires Slot(steps[k].i, j) in states[n].grid
    ensures states[n].grid[Slot(steps[k].i, j)] == SignedFor(c, steps[k].account, steps[k].i, j)
  {
    RunsConserve(c, states, steps, n);
    FetchSticks(c, states, steps, k, n);
  }

  // ----- capacities

  /** Queues, signers and pool stay within their sizes. */
  ghost predicate WithinCapacity(c: Config, s: State) {
    && |s.queue| <= c.queueCap && |s.holding| <= c.signers && |s.signed| <= c.signedCap
    && ActiveCount(c, s.workers) <= c.workers
  }

  lemma {:induction false} ActiveUpdate(c: Config, ws: seq<Worker>, i: nat, w: Worker)
    requires i < |ws|
    ensures ActiveCount(c, ws[i := w])
            == ActiveCount(c, ws) - (if Active(c, ws[i]) then 1 else 0) + if Active(c, w) then 1 else 0
  {
    if i == 0 {
      assert ws[i := w][1..] == ws[1..];
    } else {
      ActiveUpdate(c, ws[1..], i - 1, w);
      assert ws[i := w][1..] == ws[1..][i - 1 := w];
    }
  }

  lemma {:induction false} RunsWithinCapacity(c: Config, states: seq<State>, steps: seq<Step>, k: nat)
    requires Run(c, states, steps) && k < |states|
    ensures WithinCapacity(c, states[k])
  {
    if k == 0 {
      NoneActive(c, Init(c).workers);
    } else {
      RunsWithinCapacity(c, states, steps, k - 1);
      var s, step := states[k - 1], steps[k - 1];
      if step.Start? || step.Fetch? || step.Send? {
        ActiveUpdate(c, s.workers, step.i, states[k].workers[step.i]);
      }
    }
  }

  // ----- progress

  /** Weighted work left: two units to start a task and fetch its sequence, four per ungenerated transaction, etc. */
  function Work(c: Config, s: State): int {
    4 * Left(c, s.workers) + StartWork(s.workers) + 3 * |s.queue| + 2 * |s.holding| + |s.signed|
    + if s.dead then 0 else 1
  }

  function StartWork(ws: seq<Worker>): nat {
    if ws == [] then 0
    else (match ws[0] case Submitted => 2 case Fetching => 1 case Sending(_, _) => 0) + StartWork(ws[1..])
  }

  lemma {:induction false} StartWorkUpdate(ws: seq<Worker>, i: nat, w: Worker)
    requires i < |ws|
    ensures StartWork(ws[i := w]) == StartWork(ws) - StartWork([ws[i]]) + StartWork([w])
  {
    if i == 0 {
      assert ws[i := w][1..] == ws[1..];
    } else {
      StartWorkUpdate(ws[1..], i - 1, w);
      assert ws[i := w][1..] == ws[1..][i - 1 := w];
    }
  }

  lemma WorkIsNatural(c: Config, s: State)
    requires Contents(c, s)
    ensures Work(c, s) >= 0
  {
    LeftZero(c, s.workers);
  }

  lemma TaskReducesWork(c: Config, ws: seq<Worker>, i: nat, w: Worker)
    requires i < |ws|
    ensures 4 * Left(c, ws[i := w]) + StartWork(ws[i := w])
            == 4 * Left(c, ws) + StartWork(ws)
               - 4 * (NextIndex(w) - NextIndex(ws[i])) - StartWork([ws[i]]) + StartWork([w])
  {
    LeftUpdate(c, ws, i, w);
    StartWorkUpdate(ws, i, w);
  }

  lemma StepReducesWork(c: Config, s: State, step: Step)
    requires Inv(c, s) && Enabled(c, s, step)
    ensures 0 <= Work(c, Apply(c, s, step)) < Work(c, s)
  {
    var s' := Apply(c, s, step);
    StepContents(c, s, step);
    WorkIsNatural(c, s');
    if step.Start? || step.Fetch? || step.Send? {
      TaskReducesWork(c, s.workers, step.i, s'.workers[step.i]);
    }
  }

  /** No deadlock: until the phase is over some goroutine can move, whatever the queue capacities. */
  lemma SomeStepEnabled(c: Config, s: State) returns (step: Step)
    requires ValidConfig(c) && Inv(c, s) && !Over(c, s)
    ensures Enabled(c, s, step)
  {
    LeftZero(c, s.workers);
    if s.signed != [] {
      return Collect;
    } else if s.holding != [] {
      return Offer(0);
    } else if s.queue != [] {
      return Take;
    } else if i :| 0 <= i < |s.workers| && Active(c, s.workers[i]) {
      return if s.workers[i].Fetching? then Fetch(i, Account(0, 0)) else Send(i);
    } else {
      NoneActive(c, s.workers);
      if forall w :: w in s.workers ==> !w.Submitted? {
        AllSent(c, s.workers);
        assert false;
      } else {
        var w :| w in s.workers && w.Submitted?;
        var i :| 0 <= i < |s.workers| && s.workers[i] == w;
        return Start(i);
      }
    }
  }

  lemma {:induction false} AllSent(c: Config, ws: seq<Worker>)
    requires forall w :: w in ws ==> w.Sending? && w.next == c.txs
    ensures Left(c, ws) == 0
  {
    if ws != [] {
      AllSent(c, ws[1..]);
    }
  }

  lemma {:induction false} WorkRunsDown(c: Config, states: seq<State>, steps: seq<Step>, k: nat)
    requires Run(c, states, steps) && k <= |steps|
    ensures 0 <= Work(c, states[k]) <= Work(c, Init(c)) - k
  {
    if k == 0 {
      InitInv(c);
      WorkIsNatural(c, Init(c));
    } else {
      WorkRunsDown(c, states, steps, k - 1);
      RunsConserve(c, states, steps, k - 1);
      StepReducesWork(c, states[k - 1], steps[k - 1]);
    }
  }

  /** Every run is finite: it has at most as many steps as the initial state has work. */
  lemma RunsAreBounded(c: Config, states: seq<State>, steps: seq<Step>)
    requires Run(c, states, steps)
    ensures |steps| <= 4 * (c.accounts * c.txs) + 2 * c.accounts + 1
  {
    WorkRunsDown(c, states, steps, |steps|);
    InitWork(c, c.accounts);
  }

  lemma {:induction false} InitWork(c: Config, n: nat)
    ensures Left(c, seq(n, _ => Submitted)) == n * c.txs && StartWork(seq(n, _ => Submitted)) == 2 * n
  {
    LeftFresh(c, n);
    if n > 0 {
      InitWork(c, n - 1);
      assert seq(n, _ => Submitted)[1..] == seq(n - 1, _ => Submitted);
    }
  }

  /** A run that can go no further has filled the grid with the right transactions, and the phase is over. */
  lemma MaximalRunsComplete(c: Config, states: seq<State>, steps: seq<Step>)
    requires ValidConfig(c) && Run(c, states, steps)
    requires forall step :: !Enabled(c, states[|steps|], step)
    ensures |steps| <= 4 * (c.accounts * c.txs) + 2 * c.accounts + 1
    ensures Over(c, states[|steps|]) && Complete(c, states[|steps|])
    ensures states[|steps|].dead || SequencesRecorded(c, states[|steps|])
  {
    RunsAreBounded(c, states, steps);
    RunsConserve(c, states, steps, |steps|);
    if !Over(c, states[|steps|]) {
      var step := SomeStepEnabled(c, states[|steps|]);
      assert false;
    }
    FinalComplete(c, states[|steps|]);
    if Returned(c, states[|steps|]) {
      ReturnedComplete(c, states[|steps|]);
    }
  }

  /** The two shared slices hold what the state says. */
  ghost predicate Stored(c: Config, s: State, signedTxs: array2<Bytes>, initial: array<uint64>)
    reads signedTxs, initial
  {
    && signedTxs.Length0 == c.accounts && signedTxs.Length1 == c.txs && initial.Length == c.accounts
    && (forall x :: x in s.grid ==>
          x.account < c.accounts && x.index < c.txs && signedTxs[x.account, x.index] == s.grid[x])
    && (forall i :: i in s.sequences ==> i < c.accounts && initial[i] == s.sequences[i])
  }

  /** One scheduled step, writing the slices in place as the collector and the account tasks do. */
  method Execute(c: Config, s: State, step: Step, signedTxs: array2<Bytes>, initial: array<uint64>) returns (s': State)
    requires Inv(c, s) && Enabled(c, s, step) && Stored(c, s, signedTxs, initial)
    modifies signedTxs, initial
    ensures s' == Apply(c, s, step) && Stored(c, s', signedTxs, initial)
  {
    if step.Collect? {
      var tx := s.signed[0];
      ReceivedSlotIsFresh(c, s);
      signedTxs[tx.fromIdx, tx.txIdx] := tx.bytes;
    } else if step.Fetch? {
      initial[step.i] := step.account.sequence;
    }
    s' := Apply(c, s, step);
  }

  /** Step k fetched account i, with the initial sequence, and its transactions are signed for what was fetched. */
  ghost predicate RowFilled(c: Config, steps: seq<Step>, k: nat, signedTxs: array2<Bytes>, initial: array<uint64>,
                            i: nat)
    requires i < initial.Length == signedTxs.Length0
    reads signedTxs, initial
  {
    && k < |steps| && steps[k].Fetch? && steps[k].i == i && initial[i] == steps[k].account.sequence
    && forall j: nat :: j < signedTxs.Length1 ==> signedTxs[i, j] == SignedFor(c, steps[k].account, i, j)
  }

  /** The same for some step of the run. */
  ghost predicate FilledByFetch(c: Config, steps: seq<Step>, signedTxs: array2<Bytes>, initial: array<uint64>, i: nat)
    requires i < initial.Length == signedTxs.Length0
    reads signedTxs, initial
  {
    exists k: nat :: RowFilled(c, steps, k, signedTxs, initial, i)
  }

  lemma StoredFills(c: Config, states: seq<State>, steps: seq<Step>, signedTxs: array2<Bytes>, initial: array<uint64>,
                    i: nat)
    requires Run(c, states, steps) && Complete(c, states[|steps|]) && Stored(c, states[|steps|], signedTxs, initial)
    requires i < c.accounts && states[|steps|].workers[i].Sending?
    ensures FilledByFetch(c, steps, signedTxs, initial, i)
  {
    var k := FetchedBefore(c, states, steps, |steps|, i);
    FetchSticks(c, states, steps, k, |steps|);
    forall j: nat | j < c.txs ensures signedTxs[i, j] == SignedFor(c, steps[k].account, i, j) {
      assert Slot(i, j) in GridSlots(c);
      CollectedAsFetched(c, states, steps, k, |steps|, j);
    }
    assert RowFilled(c, steps, k, signedTxs, initial, i);
  }

  lemma Extend(c: Config, states: seq<State>, steps: seq<Step>, step: Step)
    returns (states': seq<State>, steps': seq<Step>)
    requires Run(c, states, steps) && Enabled(c, states[|steps|], step)
    ensures Run(c, states', steps') && steps' == steps + [step]
    ensures states'[|steps'|] == Apply(c, states[|steps|], step)
  {
    states', steps' := states + [Apply(c, states[|steps|], step)], steps + [step];
  }

  /** When the phase is over every task that has anything to show for it has fetched. */
  lemma OverMeansFetched(c: Config, s: State, i: nat)
    requires Inv(c, s) && Over(c, s) && i < c.accounts && (c.txs > 0 || !s.dead)
    ensures s.workers[i].Sending?
  {
    assert s.workers[i] in s.workers;
  }

  /**
   The phase as it executes under an arbitrary scheduler.  `schedule` picks any enabled step and may use the
   step count as well as the state.
   */
  method Prepare(c: Config, schedule: (nat, State) -> Step, signedTxs: array2<Bytes>, initial: array<uint64>)
    returns (final: State, ghost states: seq<State>, ghost steps: seq<Step>)
    requires ValidConfig(c)
    requires forall n: nat, s: State :: Inv(c, s) && !Over(c, s) ==> Enabled(c, s, schedule(n, s))
    requires signedTxs.Length0 == c.accounts && signedTxs.Length1 == c.txs && initial.Length == c.accounts
    modifies signedTxs, initial
    ensures Run(c, states, steps) && final == states[|steps|] && Over(c, final) && Complete(c, final)
    ensures c.txs > 0 || !final.dead ==>
              forall i: nat :: i < c.accounts ==> FilledByFetch(c, steps, signedTxs, initial, i)
  {
    var n := 0;
    final := Init(c);
    states, steps := [final], [];
    InitInv(c);
    while !Over(c, final)
      invariant Inv(c, final) && Stored(c, final, signedTxs, initial)
      invariant Run(c, states, steps) && final == states[|steps|]
      decreases Work(c, final)
    {
      var step := schedule(n, final);
      StepInv(c, final, step);
      StepReducesWork(c, final, step);
      final := Execute(c, final, step, signedTxs, initial);
      states, steps := Extend(c, states, steps, step);
      n := n + 1;
    }
    FinalComplete(c, final);
    if c.txs > 0 || !final.dead {
      forall i: nat | i < c.accounts ensures FilledByFetch(c, steps, signedTxs, initial, i) {
        OverMeansFetched(c, final, i);
        StoredFills(c, states, steps, signedTxs, initial, i);
      }
    }
  }
}
