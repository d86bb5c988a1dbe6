/**
 One account's broadcast loop against a chain that accepts a transaction only at its expected sequence.

 The environment may consume sequences with foreign transactions (Forward), lose transactions so that the expected
 sequence falls back (Back), and answer from its cache that it has seen a transaction before (CacheHit).
 Sequence numbers are any 64-bit numbers; the loop's index is their wrapped difference, taken as a signed number.
 */
module AccountBroadcast {
  import opened Words
  import opened SequenceLog

  // ----- one broadcast

  /** What `BroadcastTxSync` may come back with. */
  datatype Answer =
    | MempoolFull
    | TxInMempool(hash: string)
    | TransportError(message: string)
    | Checked(hash: string, code: nat, codespace: string, log: string)

  datatype Outcome = Sent(hash: string) | Refused(error: CheckResult)

  /** One attempt; None asks for another one. */
  function Classify(a: Answer): Option<Outcome> {
    match a
    case MempoolFull => None
    case TxInMempool(hash) => Some(Sent(hash))
    case TransportError(message) => Some(Refused(OtherError(message)))
    case Checked(hash, code, codespace, log) =>
      if code == 0 then Some(Sent(hash))
      else if CheckSequence(codespace, code, log) != NoError then Some(Refused(CheckSequence(codespace, code, log)))
      else if CheckNonce(codespace, code, log) != NoError then Some(Refused(CheckNonce(codespace, code, log)))
      else Some(Refused(OtherError(log)))
  }

  /**
   What an answer other than a full mempool means: success for a transaction that passed the check or was seen before,
   and otherwise an error, which may report an expected sequence only for two codes of the SDK.
   */
  ghost predicate Answered(a: Answer, r: Outcome) {
    match a
    case MempoolFull => false
    case TxInMempool(hash) => r == Sent(hash)
    case TransportError(message) => r == Refused(OtherError(message))
    case Checked(hash, code, codespace, log) =>
      if code == 0 then r == Sent(hash)
      else if codespace == "sdk" && code == 32 then r == Refused(CheckPattern(SEQUENCE_PATTERN, log))
      else if codespace == "sdk" && code == 3 then r == Refused(CheckPattern(NONCE_PATTERN, log))
      else r == Refused(OtherError(log))
  }

  /** The outcome of a broadcast: that of the first answer other than a full mempool, or a timeout if there is none. */
  function Settle(answers: seq<Answer>, timeout: string): Outcome {
    if answers == [] then Refused(OtherError(timeout))
    else if answers[0].MempoolFull? then Settle(answers[1..], timeout)
    else Classify(answers[0]).value
  }

  /** Repeats while the mempool is full, until the request times out with an error of its own. */
  method Broadcast(answers: seq<Answer>, timeout: string) returns (r: Outcome, attempts: nat)
    ensures r == Settle(answers, timeout)
    ensures attempts <= |answers| && forall k :: 0 <= k < attempts ==> answers[k].MempoolFull?
    ensures attempts < |answers| ==> Answered(answers[attempts], r)
    ensures attempts == |answers| ==> r == Refused(OtherError(timeout))
  {
    attempts := 0;
    while attempts < |answers| && answers[attempts].MempoolFull?
      invariant 0 <= attempts <= |answers| && forall k :: 0 <= k < attempts ==> answers[k].MempoolFull?
      invariant Settle(answers[attempts..], timeout) == Settle(answers, timeout)
    {
      assert answers[attempts..][1..] == answers[attempts + 1..];
      attempts := attempts + 1;
    }
    r := if attempts < |answers| then Classify(answers[attempts]).value else Refused(OtherError(timeout));
  }

  lemma {:induction false} FullThenAnswer(full: nat, a: Answer, timeout: string)
    requires !a.MempoolFull?
    ensures Some(Settle(seq(full, _ => MempoolFull) + [a], timeout)) == Classify(a)
  {
    var answers := seq(full, _ => MempoolFull) + [a];
    if full > 0 {
      FullThenAnswer(full - 1, a, timeout);
      assert answers[1..] == seq(full - 1, _ => MempoolFull) + [a];
    }
  }

  function IsSequenceError(r: Outcome): Option<uint64> {
    if r.Refused? && r.error.SequenceError? then Some(r.error.expected) else None
  }

  // ----- the loop

  /**
   `suffix` is whatever text the node prints behind the mismatch line.  For EVM transactions it prints the nonce
   line instead, which ends with the number, so there the suffix must not continue it with a digit.
   */
  datatype Params = Params(start: uint64, n: nat, evm: bool, suffix: string)

  datatype State = State(
    idx: int,             // txIndex
    expected: uint64,     // the chain's next sequence
    accepted: seq<nat>,   // indices of this account's transactions, in the order the chain took them
    foreign: set<nat>,    // sequences consumed by somebody else
    failed: bool)         // the loop has returned an error

  /**
   `Submit(full)` is the loop's own broadcast, answered after the mempool has been full `full` times.  `Fault` is one
   that comes back with an error that says nothing about the sequence.
   */
  datatype Step =
    | Forward(count: nat) | Back(target: uint64)
    | CacheHit(hash: string) | Submit(full: nat) | Fault(answer: Answer)

  /** Answers that end the loop. */
  predicate Fatal(a: Answer) {
    || a.TransportError?
    || (a.Checked? && a.code != 0 && !(a.codespace == "sdk" && (a.code == 32 || a.code == 3)))
  }

  /** The account's last sequence is a 64-bit number, and its transactions fit in a slice. */
  predicate ValidParams(p: Params) {
    p.n < TWO_63 && p.start + p.n < TWO_64 && (p.evm ==> DigitRun(p.suffix, 0) == 0)
  }

  function Interval(lo: nat, hi: nat): (r: set<nat>)
    ensures forall q :: q in r <==> lo <= q < hi
    decreases hi - lo
  {
    if lo >= hi then {} else {lo} + Interval(lo + 1, hi)
  }

  function Init(p: Params, expected: uint64): State { State(0, expected, [], Interval(p.start, expected), false) }

  predicate Running(p: Params, s: State) { !s.failed && 0 <= s.idx < p.n }

  /** A negative index makes the loop index outside the account's transactions. */
  predicate Panicked(s: State) { s.idx < 0 }

  predicate Enabled(p: Params, s: State, step: Step) {
    match step
    case Forward(n) => s.expected + n < TWO_64
    case Back(e) => e < s.expected
    case CacheHit(_) => Running(p, s) && s.idx in s.accepted
    case Submit(_) => Running(p, s)
    case Fault(a) => Running(p, s) && Fatal(a)
  }

  /** The node's check of a transaction signed for `sequence`. */
  function CheckTx(p: Params, expected: nat, sequence: nat): Answer {
    if sequence == expected then Checked("", 0, "", "")
    else if p.evm then Checked("", 3, "sdk", NonceLine(expected, sequence) + p.suffix)
    else Checked("", 32, "sdk", MismatchLine(expected, sequence) + p.suffix)
  }

  function Apply(p: Params, s: State, step: Step): State
    requires ValidParams(p) && Enabled(p, s, step)
  {
    match step
    case Forward(n) => s.(expected := s.expected + n, foreign := s.foreign + Interval(s.expected, s.expected + n))
    case Back(e) => s.(expected := e)
    case CacheHit(hash) => Advance(p, s, Settle([TxInMempool(hash)], ""))
    case Submit(full) => SubmitTx(p, s, full)
    case Fault(a) => Advance(p, s, Settle([a], ""))
  }

  /** The body of the loop after a broadcast: advance, jump to the sequence read from the error text, or give up. */
  function Advance(p: Params, s: State, outcome: Outcome): State {
    match IsSequenceError(outcome)
    case Some(e) => s.(idx := IndexOf(p, e))
    case None => if outcome.Sent? then s.(idx := s.idx + 1) else s.(failed := true)
  }

  /** A broadcast the node checks: the chain takes the transaction if it passes, and the loop goes by the answer. */
  function SubmitTx(p: Params, s: State, full: nat): State
    requires ValidParams(p) && Running(p, s)
  {
    var answer := CheckTx(p, s.expected, p.start + s.idx);
    var s' := Advance(p, s, Settle(seq(full, _ => MempoolFull) + [answer], ""));
    if answer.Checked? && answer.code == 0
    then s'.(expected := Add64(s.expected, 1), accepted := s.accepted + [s.idx])
    else s'
  }

  /** `int(expected - initial)` */
  function IndexOf(p: Params, e: uint64): int { ToInt(Sub64(e, p.start)) }

  ghost predicate Run(p: Params, states: seq<State>, steps: seq<Step>) {
    && ValidParams(p)
    && |states| == |steps| + 1
    && states[0] == Init(p, states[0].expected)
    && forall k :: 0 <= k < |steps| ==>
         Enabled(p, states[k], steps[k]) && states[k + 1] == Apply(p, states[k], steps[k])
  }

  /** A refusal carries the expected sequence through the printed line, the regexp and the parse. */
  lemma AnswerMeaning(p: Params, expected: uint64, sequence: nat)
    requires ValidParams(p)
    ensures var outcome := Classify(CheckTx(p, expected, sequence));
            && outcome.Some? && (outcome.value.Sent? <==> sequence == expected)
            && (sequence != expected ==> IsSequenceError(outcome.value) == Some(expected))
  {
    if p.evm {
      NonceRoundTrip(expected, sequence, p.suffix);
    } else {
      SequenceRoundTrip(expected, sequence, p.suffix);
    }
  }

  /** Through the text, a transaction is accepted at its own sequence only, and a refusal moves to the expected one. */
  lemma SubmitMeaning(p: Params, s: State, full: nat)
    requires ValidParams(p) && Running(p, s)
    ensures SubmitTx(p, s, full) ==
            if s.expected == p.start + s.idx
            then s.(idx := s.idx + 1, expected := s.expected + 1, accepted := s.accepted + [s.idx])
            else s.(idx := IndexOf(p, s.expected))
  {
    AnswerMeaning(p, s.expected, p.start + s.idx);
    FullThenAnswer(full, CheckTx(p, s.expected, p.start + s.idx), "");
  }

  /** A transaction answered from the cache moves the index on and changes nothing else. */
  lemma CacheHitMeaning(p: Params, s: State, hash: string)
    requires ValidParams(p) && Enabled(p, s, CacheHit(hash))
    ensures Apply(p, s, CacheHit(hash)) == s.(idx := s.idx + 1)
  {
  }

  /** Any other error ends the loop where it is. */
  lemma FaultMeaning(p: Params, s: State, a: Answer)
    requires ValidParams(p) && Enabled(p, s, Fault(a))
    ensures Apply(p, s, Fault(a)) == s.(failed := true)
  {
  }

  /** Sequences that become a negative index: up to 2^63 below the start, or 2^63 and more above it. */
  predicate Outside(p: Params, e: uint64) { -TWO_63 <= e - p.start < 0 || TWO_63 <= e - p.start }

  /** The wrapped index is the true one wherever it falls among the transactions, and negative exactly outside. */
  lemma IndexMeaning(p: Params, e: uint64)
    requires ValidParams(p)
    ensures IndexOf(p, e) < 0 <==> Outside(p, e)
    ensures 0 <= IndexOf(p, e) < p.n <==> p.start <= e < p.start + p.n
    ensures IndexOf(p, e) == e - p.start <==> -TWO_63 <= e - p.start < TWO_63
  {
    SignedDifference(e, p.start);
  }

  // ----- safety

  /** The loop indexes outside the transactions exactly when some broadcast met an expected sequence outside. */
  lemma PanicsExactlyOutside(p: Params, states: seq<State>, steps: seq<Step>)
    requires Run(p, states, steps)
    ensures (exists k :: 0 <= k < |states| && Panicked(states[k]))
            <==> (exists k :: 0 <= k < |steps| && steps[k].Submit? && Outside(p, states[k].expected))
  {
    if k :| 0 <= k < |steps| && steps[k].Submit? && Outside(p, states[k].expected) {
      SubmitMeaning(p, states[k], steps[k].full);
      IndexMeaning(p, states[k].expected);
      assert Panicked(states[k + 1]);
    } else {
      forall k | 0 <= k < |states| ensures !Panicked(states[k]) {
        NeverNegative(p, states, steps, k);
      }
    }
  }

  lemma {:induction false} NeverNegative(p: Params, states: seq<State>, steps: seq<Step>, k: nat)
    requires Run(p, states, steps) && k < |states|
    requires forall i :: 0 <= i < |steps| && steps[i].Submit? ==> !Outside(p, states[i].expected)
    ensures states[k].idx >= 0
  {
    if k > 0 {
      NeverNegative(p, states, steps, k - 1);
      if steps[k - 1].Submit? {
        SubmitMeaning(p, states[k - 1], steps[k - 1].full);
        IndexMeaning(p, states[k - 1].expected);
      }
    }
  }

  ghost predicate NeverBack(steps: seq<Step>) { forall k :: 0 <= k < |steps| ==> !steps[k].Back? }

  ghost predicate Increasing(a: seq<nat>) { forall i, j :: 0 <= i < j < |a| ==> a[i] < a[j] }

  /** While the chain only moves forward, transactions are accepted at most once and in index order. */
  lemma {:induction false} AcceptedInOrder(p: Params, states: seq<State>, steps: seq<Step>, k: nat)
    requires Run(p, states, steps) && NeverBack(steps) && k < |states|
    ensures Increasing(states[k].accepted)
    ensures forall i :: i in states[k].accepted ==> i < p.n && p.start + i < states[k].expected
  {
    if k > 0 {
      AcceptedInOrder(p, states, steps, k - 1);
      if steps[k - 1].Submit? {
        SubmitMeaning(p, states[k - 1], steps[k - 1].full);
        var a := states[k - 1].accepted;
        assert forall i :: 0 <= i < |a| ==> a[i] in a;
      }
    }
  }

  /** The sequences from the start up to the expected one are split between accepted and foreign transactions. */
  ghost predicate Accounted(p: Params, s: State) {
    && p.start <= s.expected
    && p.start + s.idx <= s.expected
    && forall q :: p.start <= q < s.expected ==> (q - p.start in s.accepted <==> q !in s.foreign)
  }

  lemma StepAccounted(p: Params, s: State, step: Step)
    requires ValidParams(p) && Enabled(p, s, step) && !step.Back? && Accounted(p, s)
    requires forall q :: q in s.foreign ==> q < s.expected
    requires forall i :: i in s.accepted ==> i < p.n && p.start + i < s.expected
    ensures var s' := Apply(p, s, step); Accounted(p, s') && forall q :: q in s'.foreign ==> q < s'.expected
  {
    if step.Submit? {
      SubmitMeaning(p, s, step.full);
      IndexMeaning(p, s.expected);
    }
  }

  lemma {:induction false} ForwardRunsAccounted(p: Params, states: seq<State>, steps: seq<Step>, k: nat)
    requires Run(p, states, steps) && NeverBack(steps) && p.start <= states[0].expected && k < |states|
    ensures Accounted(p, states[k]) && forall q :: q in states[k].foreign ==> q < states[k].expected
  {
    if k > 0 {
      ForwardRunsAccounted(p, states, steps, k - 1);
      AcceptedInOrder(p, states, steps, k - 1);
      StepAccounted(p, states[k - 1], steps[k - 1]);
    }
  }

  /** Nothing is lost: every index was accepted, or lost its sequence to somebody else, and not both. */
  ghost predicate AllAccountedFor(p: Params, s: State) {
    && s.expected >= p.start + p.n && Increasing(s.accepted)
    && forall i :: 0 <= i < p.n ==> (i in s.accepted <==> p.start + i !in s.foreign)
  }

  /** On exit everything is accounted for, even by the panic of a sequence that has run 2^63 ahead. */
  lemma ExitAccountsForEveryTx(p: Params, states: seq<State>, steps: seq<Step>)
    requires Run(p, states, steps) && NeverBack(steps) && p.start <= states[0].expected
    requires !Running(p, states[|steps|]) && !states[|steps|].failed
    ensures AllAccountedFor(p, states[|steps|])
    ensures Panicked(states[|steps|]) ==> states[|steps|].expected - p.start >= TWO_63
  {
    ForwardRunsAccounted(p, states, steps, |steps|);
    AcceptedInOrder(p, states, steps, |steps|);
    ForwardPanic(p, states, steps, |steps|);
  }

  lemma {:induction false} ForwardPanic(p: Params, states: seq<State>, steps: seq<Step>, k: nat)
    requires Run(p, states, steps) && NeverBack(steps) && p.start <= states[0].expected && k < |states|
    ensures Panicked(states[k]) ==> states[k].expected - p.start >= TWO_63
  {
    if k > 0 {
      ForwardPanic(p, states, steps, k - 1);
      var s, step := states[k - 1], steps[k - 1];
      assert p.start <= s.expected by { ForwardRunsAccounted(p, states, steps, k - 1); }
      if step.Submit? {
        SubmitMeaning(p, s, step.full);
        IndexMeaning(p, s.expected);
      } else if step.Fault? {
        FaultMeaning(p, s, step.answer);
      }
    }
  }

  /** The loop has failed exactly when some broadcast came back with such an error. */
  lemma {:induction false} FailsExactly(p: Params, states: seq<State>, steps: seq<Step>, k: nat)
    requires Run(p, states, steps) && k < |states|
    ensures states[k].failed <==> exists j :: 0 <= j < k && steps[j].Fault?
  {
    if k > 0 {
      FailsExactly(p, states, steps, k - 1);
      var s, step := states[k - 1], steps[k - 1];
      if step.Submit? {
        SubmitMeaning(p, s, step.full);
      } else if step.Fault? {
        FaultMeaning(p, s, step.answer);
      }
    }
  }

  /** It then broadcasts no more: its index and what was accepted stay as they are. */
  lemma {:induction false} FailedForGood(p: Params, states: seq<State>, steps: seq<Step>, k: nat, j: nat)
    requires Run(p, states, steps) && k <= j < |states| && states[k].failed
    ensures states[j].failed && states[j].idx == states[k].idx && states[j].accepted == states[k].accepted
    decreases j
  {
    if k < j {
      FailedForGood(p, states, steps, k, j - 1);
    }
  }

  // ----- termination

  /** The loop's own broadcasts, as the chain sees them. */
  predicate Own(step: Step) { step.Submit? || step.Fault? }

  /** Outside events: changes of the chain's sequence, and answers from the node's cache. */
  function Events(steps: seq<Step>): nat {
    if steps == [] then 0 else (if Own(steps[0]) then 0 else 1) + Events(steps[1..])
  }

  function Changes(steps: seq<Step>): nat {
    if steps == [] then 0 else (if steps[0].Forward? || steps[0].Back? then 1 else 0) + Changes(steps[1..])
  }

  /** Below 2n + 2: nothing left once the loop has ended, else out of sync first and then the index left. */
  function Distance(p: Params, s: State): nat {
    if !Running(p, s) then 0 else (if s.expected == p.start + s.idx then 0 else p.n + 1) + p.n - s.idx
  }

  /** (events left, out of sync, index left), ordered lexicographically and flattened. */
  function Rank(p: Params, s: State, d: nat): nat { d * (2 * p.n + 2) + Distance(p, s) }

  lemma SubmitReducesDistance(p: Params, s: State, full: nat)
    requires ValidParams(p) && Running(p, s)
    ensures Distance(p, SubmitTx(p, s, full)) < Distance(p, s)
  {
    SubmitMeaning(p, s, full);
    IndexMeaning(p, s.expected);
  }

  lemma DistanceBound(p: Params, s: State)
    ensures Distance(p, s) < 2 * p.n + 2
  {
  }

  lemma StepReducesRank(p: Params, s: State, step: Step, d: nat)
    requires ValidParams(p) && Enabled(p, s, step)
    requires Own(step) || d > 0
    ensures Rank(p, Apply(p, s, step), if Own(step) then d else d - 1) < Rank(p, s, d)
  {
    if step.Submit? {
      SubmitReducesDistance(p, s, step.full);
    } else if step.Fault? {
      FaultMeaning(p, s, step.answer);
    } else {
      Successor(d - 1, 2 * p.n + 2);
      DistanceBound(p, Apply(p, s, step));
    }
  }

  lemma Successor(d: nat, k: nat)
    ensures (d + 1) * k == d * k + k
  {
  }

  lemma {:induction false} RunsShorterThanRank(p: Params, states: seq<State>, steps: seq<Step>, k: nat)
    requires Run(p, states, steps) && k <= |steps|
    ensures |steps| - k <= Rank(p, states[k], Events(steps[k..]))
    decreases |steps| - k
  {
    if k < |steps| {
      RunsShorterThanRank(p, states, steps, k + 1);
      assert steps[k..][1..] == steps[k + 1..];
      StepReducesRank(p, states[k], steps[k], Events(steps[k..]));
    }
  }

  /** The most steps a run with d outside events can have. */
  function StepLimit(p: Params, d: nat): nat { (d + 1) * (2 * p.n + 2) }

  lemma RankBound(p: Params, s: State, d: nat)
    ensures Rank(p, s, d) < StepLimit(p, d)
  {
    Successor(d, 2 * p.n + 2);
    DistanceBound(p, s);
  }

  /** With d outside events every run has fewer than (d + 1)(2n + 2) steps. */
  lemma BroadcastTerminates(p: Params, states: seq<State>, steps: seq<Step>)
    requires Run(p, states, steps)
    ensures |steps| < StepLimit(p, Events(steps))
  {
    assert steps[0..] == steps;
    RunsShorterThanRank(p, states, steps, 0);
    RankBound(p, states[0], Events(steps));
  }

  // ----- termination by the sequence changes alone

  /** While the chain never moves back, what was accepted lies behind the index. */
  lemma {:induction false} AcceptedBehind(p: Params, states: seq<State>, steps: seq<Step>, k: nat)
    requires Run(p, states, steps) && NeverBack(steps) && k < |states|
    ensures Running(p, states[k]) ==> forall i :: i in states[k].accepted ==> i < states[k].idx
  {
    if k > 0 {
      AcceptedBehind(p, states, steps, k - 1);
      AcceptedInOrder(p, states, steps, k - 1);
      if steps[k - 1].Submit? {
        SubmitMeaning(p, states[k - 1], steps[k - 1].full);
        IndexMeaning(p, states[k - 1].expected);
      }
    }
  }

  /** With a single transaction, accepting it ends the loop. */
  lemma {:induction false} AcceptedEnds(p: Params, states: seq<State>, steps: seq<Step>, k: nat)
    requires Run(p, states, steps) && p.n < 2 && k < |states|
    ensures states[k].accepted != [] ==> !Running(p, states[k])
  {
    if k > 0 {
      AcceptedEnds(p, states, steps, k - 1);
      if steps[k - 1].Submit? {
        SubmitMeaning(p, states[k - 1], steps[k - 1].full);
      }
    }
  }

  /** The node's cache can answer only after a fall back, and only with two transactions or more. */
  lemma NoCacheHits(p: Params, states: seq<State>, steps: seq<Step>)
    requires Run(p, states, steps) && (NeverBack(steps) || p.n < 2)
    ensures forall k :: 0 <= k < |steps| ==> !steps[k].CacheHit?
  {
    forall k | 0 <= k < |steps| ensures !steps[k].CacheHit? {
      if NeverBack(steps) {
        AcceptedBehind(p, states, steps, k);
      } else {
        AcceptedEnds(p, states, steps, k);
      }
    }
  }

  lemma {:induction false} EventsAreChanges(steps: seq<Step>)
    requires forall k :: 0 <= k < |steps| ==> !steps[k].CacheHit?
    ensures Events(steps) == Changes(steps)
  {
    if steps != [] {
      EventsAreChanges(steps[1..]);
    }
  }

  /** Then the changes of the chain's sequence alone limit the run. */
  lemma ChangesLimitSteps(p: Params, states: seq<State>, steps: seq<Step>)
    requires Run(p, states, steps) && (NeverBack(steps) || p.n < 2)
    ensures |steps| < StepLimit(p, Changes(steps))
  {
    NoCacheHits(p, states, steps);
    EventsAreChanges(steps);
    BroadcastTerminates(p, states, steps);
  }

  /**
   Runs with `changes` changes of the chain's sequence, fall backs among them only if `mayFallBack`, have at most
   `limit` steps.
   */
  ghost predicate Limits(p: Params, mayFallBack: bool, changes: nat, limit: nat) {
    forall states, steps ::
      Run(p, states, steps) && Changes(steps) == changes && (mayFallBack || NeverBack(steps)) ==> |steps| <= limit
  }

  ghost predicate Limited(p: Params, mayFallBack: bool, changes: nat) {
    exists limit: nat :: Limits(p, mayFallBack, changes, limit)
  }

  /**
   The number of sequence changes limits the length of a run exactly when the sequence cannot fall back or the account
   has fewer than two transactions.
   */
  lemma TerminatesExactly(p: Params, mayFallBack: bool)
    requires ValidParams(p)
    ensures (forall changes: nat :: Limited(p, mayFallBack, changes)) <==> !mayFallBack || p.n < 2
  {
    if !mayFallBack || p.n < 2 {
      forall changes: nat ensures Limited(p, mayFallBack, changes) {
        forall states, steps | Run(p, states, steps) && Changes(steps) == changes && (mayFallBack || NeverBack(steps))
          ensures |steps| <= StepLimit(p, changes)
        {
          ChangesLimitSteps(p, states, steps);
        }
        assert Limits(p, mayFallBack, changes, StepLimit(p, changes));
      }
    } else {
      forall limit: nat ensures !Limits(p, mayFallBack, 1, limit) {
        var states, steps := CacheHitsCanLoop(p, limit);
      }
      assert !Limited(p, mayFallBack, 1);
    }
  }

  /**
   After a single fall back, a node that answers every other broadcast from its cache keeps the loop going for as long
   as it likes: the answer moves the index on, and the next refusal moves it back.
   */
  lemma {:induction false} CacheHitsCanLoop(p: Params, m: nat) returns (states: seq<State>, steps: seq<Step>)
    requires ValidParams(p) && p.n >= 2
    ensures Run(p, states, steps) && |steps| == 3 + 2 * m && Changes(steps) == 1
    ensures states[|steps|] == State(0, p.start, [0], {}, false)
  {
    if m == 0 {
      states, steps := FallBack(p);
    } else {
      states, steps := CacheHitsCanLoop(p, m - 1);
      states, steps := Extend(p, states, steps, CacheHit(""));
      SubmitMeaning(p, states[|steps|], 0);
      states, steps := Extend(p, states, steps, Submit(0));
    }
  }

  /** The first transaction is accepted, then lost again. */
  lemma FallBack(p: Params) returns (states: seq<State>, steps: seq<Step>)
    requires ValidParams(p) && p.n >= 2
    ensures Run(p, states, steps) && |steps| == 3 && Changes(steps) == 1
    ensures states[|steps|] == State(0, p.start, [0], {}, false)
  {
    assert Init(p, p.start).foreign == {};
    states, steps := [Init(p, p.start)], [];
    SubmitMeaning(p, states[0], 0);
    states, steps := Extend(p, states, steps, Submit(0));
    states, steps := Extend(p, states, steps, Back(p.start));
    SubmitMeaning(p, states[|steps|], 0);
    states, steps := Extend(p, states, steps, Submit(0));
  }

  lemma Extend(p: Params, states: seq<State>, steps: seq<Step>, step: Step)
    returns (states': seq<State>, steps': seq<Step>)
    requires Run(p, states, steps) && Enabled(p, states[|steps|], step)
    ensures steps' == steps + [step] && states' == states + [Apply(p, states[|steps|], step)]
    ensures Run(p, states', steps')
    ensures Changes(steps') == Changes(steps) + if step.Forward? || step.Back? then 1 else 0
  {
    states', steps' := states + [Apply(p, states[|steps|], step)], steps + [step];
    ChangesAppend(steps, step);
  }

  lemma {:induction false} ChangesAppend(steps: seq<Step>, step: Step)
    ensures Changes(steps + [step]) == Changes(steps) + if step.Forward? || step.Back? then 1 else 0
  {
    if steps != [] {
      ChangesAppend(steps[1..], step);
      assert (steps + [step])[1..] == steps[1..] + [step];
    }
  }

  // ----- the loop as it executes

  lemma SkipReducesRank(p: Params, s: State, steps: seq<Step>)
    requires steps != [] && !Own(steps[0])
    ensures Rank(p, s, Events(steps[1..])) < Rank(p, s, Events(steps))
  {
    Successor(Events(steps[1..]), 2 * p.n + 2);
  }

  /**
   The `for` loop over the transaction index.  While `plan` lasts it says what happens next: an outside event or
   the loop's own broadcast; afterwards the chain is quiet.  Events that are not possible are skipped.
   */
  method BroadcastAll(p: Params, expected: uint64, plan: seq<Step>)
    returns (s: State, ghost states: seq<State>, ghost steps: seq<Step>)
    requires ValidParams(p)
    ensures Run(p, states, steps) && states[0].expected == expected && s == states[|steps|]
    ensures s.idx >= p.n || Panicked(s) || s.failed
    ensures NeverBack(plan) && p.start <= expected && !s.failed ==> AllAccountedFor(p, s)
  {
    s := Init(p, expected);
    states, steps := [s], [];
    var rest := plan;
    while !s.failed && 0 <= s.idx < p.n
      invariant Run(p, states, steps) && s == states[|steps|] && states[0] == Init(p, expected)
      invariant NeverBack(plan) ==> NeverBack(steps) && NeverBack(rest)
      decreases Rank(p, s, Events(rest)), |rest|
    {
      var step := if rest == [] then Submit(0) else rest[0];
      if Enabled(p, s, step) {
        StepReducesRank(p, s, step, Events(rest));
        s := Apply(p, s, step);
        states, steps := Extend(p, states, steps, step);
      } else if !Own(step) {
        SkipReducesRank(p, s, rest);
      }
      rest := if rest == [] then [] else rest[1..];
    }
    if NeverBack(plan) && p.start <= expected && !s.failed {
      ExitAccountsForEveryTx(p, states, steps);
    }
  }
}
