/**
 Concurrent accounts sharing the three limiters.  Each account is a sequential loop: it takes one token of the
 transaction limiter, then the chunks of its transaction from the byte and the gas limiter, then starts the broadcast.
 A run interleaves the accounts in any way; every reservation and every start is one step at the current time.
 A limiter that is not configured charges nothing, which is a size or a gas limit of zero.
 */
module Throughput {
  import opened TokenBuckets
  import RL = RateLimiting

  /** What is limited: transactions, bytes and gas, charged in this order. */
  datatype Metric = Count | Bytes | Gas

  datatype Each<T> = Each(count: T, bytes: T, gas: T) {
    function Of(m: Metric): T {
      match m
      case Count => count
      case Bytes => bytes
      case Gas => gas
    }

    function With(m: Metric, v: T): Each<T> {
      match m
      case Count => this.(count := v)
      case Bytes => this.(bytes := v)
      case Gas => this.(gas := v)
    }
  }

  lemma WithSame<T>(e: Each<T>, m: Metric)
    ensures e.With(m, e.Of(m)) == e
  {
  }

  lemma WithTwice<T>(e: Each<T>, m: Metric, v: T, w: T)
    ensures e.With(m, v).Of(m) == v && e.With(m, v).With(m, w) == e.With(m, w)
  {
  }

  datatype Setup = Setup(accounts: nat, limits: Each<Limit>, begin: real)

  /** The amounts of the transaction, when the latest wait ends, what is left to take, and what has been granted. */
  datatype Phase = Idle | Waiting(tx: Each<nat>, at: real, left: Each<nat>, grants: Each<seq<Grant>>)

  datatype Broadcast = Broadcast(at: real, size: nat, gas: nat)

  datatype State = State(clock: real, phases: seq<Phase>, reqs: Each<seq<Request>>, started: seq<Broadcast>)

  datatype Step =
    | Begin(a: nat, now: real, size: nat, gas: nat)
    | Take(a: nat, now: real, m: Metric)
    | Start(a: nat, now: real)

  ghost predicate ValidSetup(c: Setup) { forall m :: ValidLimit(c.limits.Of(m)) }

  function Init(c: Setup): State { State(c.begin, seq(c.accounts, _ => Idle), Each([], [], []), []) }

  /** The bucket after these requests. */
  function Now(l: Limit, c: Setup, reqs: seq<Request>): Bucket { After(Full(l, c.begin), reqs) }

  /** The metric to take from next. */
  predicate IsNext(left: Each<nat>, m: Metric) {
    && left.Of(m) > 0
    && (m.Bytes? || m.Gas? ==> left.count == 0)
    && (m.Gas? ==> left.bytes == 0)
  }

  predicate Enabled(c: Setup, x: State, step: Step) {
    && step.a < |x.phases| && x.clock <= step.now
    && var p := x.phases[step.a];
       match step
       case Begin(_, _, _, _) => p.Idle?
       case Take(_, _, m) => p.Waiting? && p.at <= step.now && IsNext(p.left, m)
       case Start(_, _) => p.Waiting? && p.at <= step.now && p.left == Each(0, 0, 0)
  }

  /** The account's wait after a request for its next chunk, granted at time `at`. */
  function Taken(l: Limit, p: Phase, m: Metric, at: real): Phase
    requires p.Waiting?
  {
    var n := Chunk(p.left.Of(m), l.burst);
    p.(at := at, left := p.left.With(m, p.left.Of(m) - n),
       grants := p.grants.With(m, p.grants.Of(m) + [Grant(at, n, Seconds(l, n))]))
  }

  function Apply(c: Setup, x: State, step: Step): State
    requires Enabled(c, x, step)
  {
    var p := x.phases[step.a];
    match step
    case Begin(a, now, size, gas) =>
      var tx := Each(1, size, gas);
      x.(clock := now, phases := x.phases[a := Waiting(tx, now, tx, Each([], [], []))])
    case Take(a, now, m) =>
      var l := c.limits.Of(m);
      var reqs := x.reqs.Of(m) + [Ask(l, now, Chunk(p.left.Of(m), l.burst))];
      x.(clock := now, reqs := x.reqs.With(m, reqs), phases := x.phases[a := Taken(l, p, m, Ready(Now(l, c, reqs)))])
    case Start(a, now) =>
      x.(clock := now, started := x.started + [Broadcast(now, p.tx.bytes, p.tx.gas)], phases := x.phases[a := Idle])
  }

  ghost predicate Run(c: Setup, states: seq<State>, steps: seq<Step>) {
    && ValidSetup(c)
    && |states| == |steps| + 1
    && states[0] == Init(c)
    && forall k :: 0 <= k < |steps| ==>
         Enabled(c, states[k], steps[k]) && states[k + 1] == Apply(c, states[k], steps[k])
  }

  // ----- every limiter is only asked for what it can serve

  /** The requests made on a limiter so far, none of them after the clock. */
  ghost predicate Sound(l: Limit, c: Setup, reqs: seq<Request>, clock: real) {
    var b := Now(l, c, reqs);
    && Served(Full(l, c.begin), reqs) && Priced(l, reqs)
    && b.last <= clock && b.balance <= b.burst && b.burst == Seconds(l, l.burst)
  }

  lemma AskSound(l: Limit, c: Setup, reqs: seq<Request>, clock: real, now: real, n: nat)
    requires ValidLimit(l) && Sound(l, c, reqs, clock) && clock <= now && n <= l.burst
    ensures var q := Ask(l, now, n);
            var b, b' := Now(l, c, reqs), Now(l, c, reqs + [q]);
            && Sound(l, c, reqs + [q], now) && b' == Reserve(b, now, q.cost) && now <= Ready(b')
            && Grants(Full(l, c.begin), reqs + [q]) == Grants(Full(l, c.begin), reqs) + [Grant(Ready(b'), n, q.cost)]
  {
    var q := Ask(l, now, n);
    AskInRange(l, now, n);
    AppendRequest(Full(l, c.begin), reqs, q);
    ReserveStep(Now(l, c, reqs), now, q.cost);
  }

  ghost predicate Limited(c: Setup, x: State) { forall m :: Sound(c.limits.Of(m), c, x.reqs.Of(m), x.clock) }

  lemma StepLimited(c: Setup, x: State, step: Step)
    requires ValidSetup(c) && Limited(c, x) && Enabled(c, x, step)
    ensures Limited(c, Apply(c, x, step))
  {
    var x' := Apply(c, x, step);
    forall m ensures Sound(c.limits.Of(m), c, x'.reqs.Of(m), x'.clock) {
      var l := c.limits.Of(m);
      assert Sound(l, c, x.reqs.Of(m), x.clock);
      if step.Take? && step.m == m {
        assert ValidLimit(l);
        AskSound(l, c, x.reqs.Of(m), x.clock, step.now, Chunk(x.phases[step.a].left.Of(m), l.burst));
      }
    }
  }

  lemma {:induction false} RunsLimited(c: Setup, states: seq<State>, steps: seq<Step>, k: nat)
    requires Run(c, states, steps) && k < |states|
    ensures Limited(c, states[k])
  {
    if k > 0 {
      RunsLimited(c, states, steps, k - 1);
      StepLimited(c, states[k - 1], steps[k - 1]);
    }
  }

  /** What a limiter grants in a window. */
  function GrantedIn(c: Setup, x: State, m: Metric, s: real, t: real): nat {
    Total(Grants(Full(c.limits.Of(m), c.begin), x.reqs.Of(m)), s, t)
  }

  /** In every run and every window each of the three limiters stays within its limit. */
  lemma AllLimitsHold(c: Setup, states: seq<State>, steps: seq<Step>, k: nat, m: Metric, s: real, t: real)
    requires Run(c, states, steps) && k < |states| && s <= t
    ensures ValidLimit(c.limits.Of(m)) && Affords(c.limits.Of(m), GrantedIn(c, states[k], m, s, t), t - s)
  {
    var l := c.limits.Of(m);
    RunsLimited(c, states, steps, k);
    assert ValidLimit(l) && Sound(l, c, states[k].reqs.Of(m), states[k].clock);
    WindowBound(l, Full(l, c.begin), states[k].reqs.Of(m), s, t);
  }

  // ----- broadcasts started in a window

  function Amount(b: Broadcast, m: Metric): nat {
    match m
    case Count => 1
    case Bytes => b.size
    case Gas => b.gas
  }

  /** How many broadcasts, bytes or units of gas start in [s, t]. */
  function StartedIn(started: seq<Broadcast>, m: Metric, s: real, t: real): nat {
    if started == [] then 0
    else (if s <= started[0].at <= t then Amount(started[0], m) else 0) + StartedIn(started[1..], m, s, t)
  }

  lemma {:induction false} StartedAppend(started: seq<Broadcast>, b: Broadcast, m: Metric, s: real, t: real)
    ensures StartedIn(started + [b], m, s, t)
            == StartedIn(started, m, s, t) + if s <= b.at <= t then Amount(b, m) else 0
  {
    if started == [] {
      assert started + [b] == [b] && [b][1..] == [];
    } else {
      StartedAppend(started[1..], b, m, s, t);
      assert (started + [b])[1..] == started[1..] + [b];
    }
  }

  function Sum(gs: seq<Grant>): nat { if gs == [] then 0 else gs[0].n + Sum(gs[1..]) }

  lemma {:induction false} SumAppend(gs: seq<Grant>, g: Grant)
    ensures Sum(gs + [g]) == Sum(gs) + g.n
  {
    if gs == [] {
      assert gs + [g] == [g] && [g][1..] == [];
    } else {
      SumAppend(gs[1..], g);
      assert (gs + [g])[1..] == gs[1..] + [g];
    }
  }

  lemma {:induction false} TotalOfSum(gs: seq<Grant>, s: real, t: real)
    ensures Total(gs, s, t) <= Sum(gs)
    ensures (forall g :: g in gs ==> s <= g.at <= t) ==> Total(gs, s, t) == Sum(gs)
  {
    if gs != [] {
      TotalOfSum(gs[1..], s, t);
    }
  }

  /** What an account has been granted by time t for the transaction it waits with. */
  function HeldBy(p: Phase, m: Metric, begin: real, t: real): nat {
    if p.Waiting? then Total(p.grants.Of(m), begin, t) else 0
  }

  function Held(ps: seq<Phase>, m: Metric, begin: real, t: real): nat {
    if ps == [] then 0 else HeldBy(ps[0], m, begin, t) + Held(ps[1..], m, begin, t)
  }

  lemma {:induction false} HeldUpdate(ps: seq<Phase>, a: nat, p: Phase, m: Metric, begin: real, t: real)
    requires a < |ps|
    ensures Held(ps[a := p], m, begin, t) == Held(ps, m, begin, t) - HeldBy(ps[a], m, begin, t) + HeldBy(p, m, begin, t)
  {
    if a == 0 {
      assert ps[a := p][1..] == ps[1..];
    } else {
      HeldUpdate(ps[1..], a - 1, p, m, begin, t);
      assert ps[a := p][1..] == ps[1..][a - 1 := p];
    }
  }

  /** The transaction needs at most `cap`, and has been granted what is not left to take, by the end of its wait. */
  ghost predicate Kept(p: Phase, m: Metric, cap: nat, begin: real) {
    p.Waiting? ==>
      && p.tx.count == 1 && p.tx.Of(m) <= cap
      && Sum(p.grants.Of(m)) + p.left.Of(m) == p.tx.Of(m)
      && begin <= p.at && forall g :: g in p.grants.Of(m) ==> begin <= g.at <= p.at
  }

  lemma {:induction false} HeldBound(ps: seq<Phase>, m: Metric, cap: nat, begin: real, t: real)
    requires forall p :: p in ps ==> Kept(p, m, cap, begin)
    ensures Held(ps, m, begin, t) <= |ps| * cap
  {
    if ps != [] {
      HeldBound(ps[1..], m, cap, begin, t);
      assert Kept(ps[0], m, cap, begin);
      if ps[0].Waiting? {
        TotalOfSum(ps[0].grants.Of(m), begin, t);
      }
      Successor(|ps| - 1, cap);
    }
  }

  lemma Successor(n: nat, k: nat)
    ensures (n + 1) * k == n * k + k
  {
  }

  ghost predicate AllKept(c: Setup, x: State, m: Metric, cap: nat) {
    |x.phases| == c.accounts && c.begin <= x.clock && forall p :: p in x.phases ==> Kept(p, m, cap, c.begin)
  }

  /** No transaction needs more than `cap`. */
  ghost predicate Capped(step: Step, m: Metric, cap: nat) { step.Begin? ==> Each(1, step.size, step.gas).Of(m) <= cap }

  lemma StepKept(c: Setup, x: State, step: Step, m: Metric, cap: nat)
    requires ValidSetup(c) && Limited(c, x) && AllKept(c, x, m, cap) && Enabled(c, x, step) && Capped(step, m, cap)
    ensures AllKept(c, Apply(c, x, step), m, cap)
  {
    var x' := Apply(c, x, step);
    var p' := x'.phases[step.a];
    assert Kept(x.phases[step.a], m, cap, c.begin);
    if step.Take? {
      TakeKept(c, x, step, m, cap);
    }
    assert forall q :: q in x'.phases ==> q in x.phases || q == p';
  }

  lemma TakeKept(c: Setup, x: State, step: Step, m: Metric, cap: nat)
    requires ValidSetup(c) && Limited(c, x) && Enabled(c, x, step) && step.Take? && c.begin <= x.clock
    requires Kept(x.phases[step.a], m, cap, c.begin)
    ensures Kept(Apply(c, x, step).phases[step.a], m, cap, c.begin)
    ensures step.now <= Apply(c, x, step).phases[step.a].at
  {
    var p, l, reqs := x.phases[step.a], c.limits.Of(step.m), x.reqs.Of(step.m);
    var n := Chunk(p.left.Of(step.m), l.burst);
    assert ValidLimit(l) && Sound(l, c, reqs, x.clock);
    AskSound(l, c, reqs, x.clock, step.now, n);
    var p' := Apply(c, x, step).phases[step.a];
    if step.m == m {
      SumAppend(p.grants.Of(m), Grant(p'.at, n, Seconds(l, n)));
    } else {
      assert p'.grants.Of(m) == p.grants.Of(m) && p'.left.Of(m) == p.left.Of(m);
    }
  }

  /** Starts in the window are paid for by grants in the window, up to one transaction for each account. */
  ghost predicate Paid(c: Setup, x: State, m: Metric, cap: nat, s: real, t: real) {
    && AllKept(c, x, m, cap)
    && (x.clock < s ==> StartedIn(x.started, m, s, t) == 0)
    && StartedIn(x.started, m, s, t) + Held(x.phases, m, c.begin, t) <= GrantedIn(c, x, m, s, t) + c.accounts * cap
  }

  lemma TakePaid(c: Setup, x: State, step: Step, m: Metric, cap: nat, s: real, t: real)
    requires ValidSetup(c) && Limited(c, x) && Paid(c, x, m, cap, s, t) && Enabled(c, x, step) && s <= t
    requires step.Take? && step.m == m
    ensures Paid(c, Apply(c, x, step), m, cap, s, t)
  {
    var x', p, l := Apply(c, x, step), x.phases[step.a], c.limits.Of(m);
    var p', n := x'.phases[step.a], Chunk(p.left.Of(m), l.burst);
    var g := Grant(p'.at, n, Seconds(l, n));
    StepKept(c, x, step, m, cap);
    assert ValidLimit(l) && Sound(l, c, x.reqs.Of(m), x.clock);
    AskSound(l, c, x.reqs.Of(m), x.clock, step.now, n);
    TotalAppend(Grants(Full(l, c.begin), x.reqs.Of(m)), g, s, t);
    TotalAppend(p.grants.Of(m), g, c.begin, t);
    HeldUpdate(x.phases, step.a, p', m, c.begin, t);
    HeldBound(x'.phases, m, cap, c.begin, t);
  }

  lemma StartPaid(c: Setup, x: State, step: Step, m: Metric, cap: nat, s: real, t: real)
    requires ValidSetup(c) && Limited(c, x) && Paid(c, x, m, cap, s, t) && Enabled(c, x, step) && s <= t && step.Start?
    ensures Paid(c, Apply(c, x, step), m, cap, s, t)
  {
    var p := x.phases[step.a];
    StepKept(c, x, step, m, cap);
    assert Kept(p, m, cap, c.begin);
    StartedAppend(x.started, Broadcast(step.now, p.tx.bytes, p.tx.gas), m, s, t);
    HeldUpdate(x.phases, step.a, Idle, m, c.begin, t);
    TotalOfSum(p.grants.Of(m), c.begin, t);
  }

  lemma OtherPaid(c: Setup, x: State, step: Step, m: Metric, cap: nat, s: real, t: real)
    requires ValidSetup(c) && Limited(c, x) && Paid(c, x, m, cap, s, t) && Enabled(c, x, step) && s <= t
    requires Capped(step, m, cap) && (step.Begin? || (step.Take? && step.m != m))
    ensures Paid(c, Apply(c, x, step), m, cap, s, t)
  {
    var x' := Apply(c, x, step);
    StepKept(c, x, step, m, cap);
    HeldUpdate(x.phases, step.a, x'.phases[step.a], m, c.begin, t);
    assert HeldBy(x'.phases[step.a], m, c.begin, t) == HeldBy(x.phases[step.a], m, c.begin, t);
    assert x'.reqs.Of(m) == x.reqs.Of(m);
  }

  lemma {:induction false} NoneHeld(n: nat, m: Metric, begin: real, t: real)
    ensures Held(seq(n, _ => Idle), m, begin, t) == 0
  {
    if n > 0 {
      NoneHeld(n - 1, m, begin, t);
      assert seq(n, _ => Idle)[1..] == seq(n - 1, _ => Idle);
    }
  }

  ghost predicate AllCapped(steps: seq<Step>, m: Metric, cap: nat) {
    forall k :: 0 <= k < |steps| ==> Capped(steps[k], m, cap)
  }

  lemma {:induction false} RunsPaid(c: Setup, states: seq<State>, steps: seq<Step>, k: nat, m: Metric, cap: nat,
                                    s: real, t: real)
    requires Run(c, states, steps) && AllCapped(steps, m, cap) && k < |states| && s <= t
    ensures Paid(c, states[k], m, cap, s, t)
  {
    if k == 0 {
      NoneHeld(c.accounts, m, c.begin, t);
    } else {
      RunsPaid(c, states, steps, k - 1, m, cap, s, t);
      RunsLimited(c, states, steps, k - 1);
      var x, step := states[k - 1], steps[k - 1];
      if step.Start? {
        StartPaid(c, x, step, m, cap, s, t);
      } else if step.Take? && step.m == m {
        TakePaid(c, x, step, m, cap, s, t);
      } else {
        OtherPaid(c, x, step, m, cap, s, t);
      }
    }
  }

  /** At most the burst plus the rate times the length plus what the accounts may hold. */
  ghost predicate AffordsWith(l: Limit, started: nat, length: real, held: nat)
    requires l.unit > 0.0
  {
    started as real <= l.burst as real + Rate(l) * length + held as real
  }

  lemma AddHeld(l: Limit, started: nat, total: nat, held: nat, length: real)
    requires l.unit > 0.0 && started <= total + held && Affords(l, total, length)
    ensures AffordsWith(l, started, length, held)
  {
  }

  /**
   What is started in any window of any run: at most the burst, plus the rate times the length, plus one largest
   transaction for each account, although a transaction may start long after its tokens were granted.
   */
  lemma StartsBounded(c: Setup, states: seq<State>, steps: seq<Step>, k: nat, m: Metric, cap: nat, s: real, t: real)
    requires Run(c, states, steps) && AllCapped(steps, m, cap) && k < |states| && s <= t
    ensures ValidLimit(c.limits.Of(m))
    ensures AffordsWith(c.limits.Of(m), StartedIn(states[k].started, m, s, t), t - s, c.accounts * cap)
  {
    AllLimitsHold(c, states, steps, k, m, s, t);
    RunsPaid(c, states, steps, k, m, cap, s, t);
    AddHeld(c.limits.Of(m), StartedIn(states[k].started, m, s, t), GrantedIn(c, states[k], m, s, t),
            c.accounts * cap, t - s);
  }

  /** The number of broadcasts: every transaction counts as one. */
  lemma BroadcastsBounded(c: Setup, states: seq<State>, steps: seq<Step>, k: nat, s: real, t: real)
    requires Run(c, states, steps) && k < |states| && s <= t
    ensures c.limits.count.unit > 0.0
    ensures AffordsWith(c.limits.count, StartedIn(states[k].started, Count, s, t), t - s, c.accounts)
  {
    StartsBounded(c, states, steps, k, Count, 1, s, t);
  }

  // ----- the order of the waits

  function Largest(steps: seq<Step>, m: Metric): nat {
    if steps == [] then 1 else
      var here := if steps[0].Begin? then Each(1, steps[0].size, steps[0].gas).Of(m) else 0;
      if here < Largest(steps[1..], m) then Largest(steps[1..], m) else here
  }

  lemma {:induction false} LargestCaps(steps: seq<Step>, m: Metric)
    ensures AllCapped(steps, m, Largest(steps, m))
  {
    if steps != [] {
      LargestCaps(steps[1..], m);
      forall k | 0 <= k < |steps| ensures Capped(steps[k], m, Largest(steps, m)) {
        if k > 0 {
          assert Capped(steps[1..][k - 1], m, Largest(steps[1..], m));
        }
      }
    }
  }

  /** What an account waits with has been granted except for what is left. */
  lemma GrantedUpTo(c: Setup, states: seq<State>, steps: seq<Step>, k: nat, a: nat, m: Metric)
    requires Run(c, states, steps) && k < |states| && a < |states[k].phases| && states[k].phases[a].Waiting?
    ensures var p := states[k].phases[a]; Sum(p.grants.Of(m)) + p.left.Of(m) == p.tx.Of(m) && p.tx.count == 1
  {
    var cap := Largest(steps, m);
    LargestCaps(steps, m);
    RunsPaid(c, states, steps, k, m, cap, c.begin, c.begin);
    assert Kept(states[k].phases[a], m, cap, c.begin);
  }

  /**
   Bytes are taken only by an account that has been granted its transaction token, gas only with all of its bytes, and a
   broadcast starts only with everything granted.
   */
  lemma WaitsInOrder(c: Setup, states: seq<State>, steps: seq<Step>, k: nat)
    requires Run(c, states, steps) && k < |steps| && !steps[k].Begin?
    ensures var step, p := steps[k], states[k].phases[steps[k].a];
            && p.Waiting? && p.at <= step.now
            && (step.Start? || step.m != Count ==> Sum(p.grants.count) == 1)
            && (step.Start? || step.m == Gas ==> Sum(p.grants.bytes) == p.tx.bytes)
            && (step.Start? ==> Sum(p.grants.gas) == p.tx.gas)
  {
    GrantedUpTo(c, states, steps, k, steps[k].a, Count);
    GrantedUpTo(c, states, steps, k, steps[k].a, Bytes);
    GrantedUpTo(c, states, steps, k, steps[k].a, Gas);
  }

  // ----- the configured limiter

  /** The limits are those the configuration prescribes, where it prescribes one. */
  ghost predicate ConfiguredBy(config: RL.Config, c: Setup)
    requires RL.ValidConfig(config)
  {
    && (config.txPerSecond > 0.0 ==> c.limits.count == Limit(1.0 / config.txPerSecond, RL.TpsBurst(config)))
    && (config.bytesPerSecond > 0 ==>
          c.limits.bytes == Limit(1.0 / config.bytesPerSecond as real, RL.BytesBurst(config)))
    && (config.gasPerSecond > 0 ==> c.limits.gas == Limit(1.0 / config.gasPerSecond as real, RL.GasBurst(config)))
  }

  /** At most the burst plus the rate times the length plus what the accounts may hold, for a configured rate. */
  predicate Within(started: nat, burst: nat, rate: real, length: real, held: nat) {
    started as real <= burst as real + rate * length + held as real
  }

  lemma AtRate(rate: real, burst: nat, started: nat, length: real, held: nat)
    requires rate > 0.0
    requires var l := Limit(1.0 / rate, burst); l.unit > 0.0 && AffordsWith(l, started, length, held)
    ensures Within(started, burst, rate, length, held)
  {
    RateOf(rate, burst);
  }

  lemma BoundAtRate(rate: real, burst: nat, c: Setup, states: seq<State>, steps: seq<Step>, k: nat,
                    m: Metric, cap: nat, s: real, t: real)
    requires rate > 0.0 && c.limits.Of(m) == Limit(1.0 / rate, burst)
    requires Run(c, states, steps) && AllCapped(steps, m, cap) && k < |states| && s <= t
    ensures Within(StartedIn(states[k].started, m, s, t), burst, rate, t - s, c.accounts * cap)
  {
    StartsBounded(c, states, steps, k, m, cap, s, t);
    AtRate(rate, burst, StartedIn(states[k].started, m, s, t), t - s, c.accounts * cap);
  }

  /** In any window of any run, broadcasts, bytes and gas stay within what the configuration says. */
  lemma ConfiguredBounds(config: RL.Config, c: Setup, states: seq<State>, steps: seq<Step>, k: nat,
                         size: nat, gas: nat, s: real, t: real)
    requires RL.ValidConfig(config) && ConfiguredBy(config, c) && Run(c, states, steps) && k < |states| && s <= t
    requires AllCapped(steps, Bytes, size) && AllCapped(steps, Gas, gas)
    ensures var started, length := states[k].started, t - s;
            && (config.txPerSecond > 0.0 ==>
                  Within(StartedIn(started, Count, s, t), RL.TpsBurst(config), config.txPerSecond, length, c.accounts))
            && (config.bytesPerSecond > 0 ==>
                  var burst := if config.burstSize > 0 then config.burstSize else RL.AtMostInt(config.bytesPerSecond);
                  Within(StartedIn(started, Bytes, s, t), burst, config.bytesPerSecond as real, length,
                         c.accounts * size))
            && (config.gasPerSecond > 0 ==>
                  var burst := if config.burstSize > 0 then config.burstSize else RL.AtMostInt(config.gasPerSecond);
                  Within(StartedIn(started, Gas, s, t), burst, config.gasPerSecond as real, length,
                         c.accounts * gas))
  {
    if config.txPerSecond > 0.0 {
      BoundAtRate(config.txPerSecond, RL.TpsBurst(config), c, states, steps, k, Count, 1, s, t);
    }
    if config.bytesPerSecond > 0 {
      BoundAtRate(config.bytesPerSecond as real, RL.BytesBurst(config), c, states, steps, k, Bytes, size, s, t);
    }
    if config.gasPerSecond > 0 {
      BoundAtRate(config.gasPerSecond as real, RL.GasBurst(config), c, states, steps, k, Gas, gas, s, t);
    }
  }

  // ----- the limiter's own call, as steps

  /** `steps` lead from x to y. */
  ghost predicate Leads(c: Setup, x: State, steps: seq<Step>, y: State)
    decreases |steps|
  {
    if steps == [] then x == y else Enabled(c, x, steps[0]) && Leads(c, Apply(c, x, steps[0]), steps[1..], y)
  }

  lemma {:induction false} LeadsOn(c: Setup, x: State, first: seq<Step>, y: State, second: seq<Step>, z: State)
    requires Leads(c, x, first, y) && Leads(c, y, second, z)
    ensures Leads(c, x, first + second, z)
    decreases |first|
  {
    if first == [] {
      assert first + second == second;
    } else {
      LeadsOn(c, Apply(c, x, first[0]), first[1..], y, second, z);
      assert (first + second)[1..] == first[1..] + second;
    }
  }

  /** One chunk taken off the front. */
  lemma NextChunk(l: Limit, c: Setup, reqs: seq<Request>, clock: real, now: real, amount: nat)
    requires ValidLimit(l) && Sound(l, c, reqs, clock) && clock <= now && amount > 0
    ensures var q := Ask(l, now, Chunk(amount, l.burst));
            var b, b' := Now(l, c, reqs), Now(l, c, reqs + [q]);
            && now <= Ready(b') && b' == Reserve(b, now, q.cost)
            && (reqs + [q]) + Chunks(l, b', Ready(b'), amount - q.n) == reqs + Chunks(l, b, now, amount)
            && ChunksEnd(l, b', Ready(b'), amount - q.n) == ChunksEnd(l, b, now, amount)
  {
    var q := Ask(l, now, Chunk(amount, l.burst));
    var b, b' := Now(l, c, reqs), Now(l, c, reqs + [q]);
    assert b' == Reserve(b, now, q.cost) && now <= Ready(b') by { AskSound(l, c, reqs, clock, now, q.n); }
    OneLess(l, b, b', reqs, now, amount);
  }

  lemma OneLess(l: Limit, b: Bucket, b': Bucket, reqs: seq<Request>, now: real, amount: nat)
    requires l.burst > 0 && amount > 0
    requires b' == Reserve(b, now, Ask(l, now, Chunk(amount, l.burst)).cost)
    ensures var q := Ask(l, now, Chunk(amount, l.burst));
            && (reqs + [q]) + Chunks(l, b', Ready(b'), amount - q.n) == reqs + Chunks(l, b, now, amount)
            && ChunksEnd(l, b', Ready(b'), amount - q.n) == ChunksEnd(l, b, now, amount)
  {
    var q := Ask(l, now, Chunk(amount, l.burst));
    ChunksUnfold(l, b, now, amount);
    Regroup(reqs, q, Chunks(l, b', Ready(b'), amount - q.n));
  }

  lemma Regroup(reqs: seq<Request>, q: Request, rest: seq<Request>)
    ensures (reqs + [q]) + rest == reqs + ([q] + rest)
  {
  }

  ghost predicate IsWaiting(x: State, a: nat) { a < |x.phases| && x.phases[a].Waiting? && x.clock <= x.phases[a].at }

  /** The state after account a has taken all it needs of one metric, while nobody else moves. */
  ghost predicate AllTaken(c: Setup, x: State, a: nat, m: Metric, y: State)
    requires ValidSetup(c) && IsWaiting(x, a)
  {
    var l, p := c.limits.Of(m), x.phases[a];
    assert ValidLimit(l);
    var b := Now(l, c, x.reqs.Of(m));
    && IsWaiting(y, a) && y.started == x.started
    && y.reqs == x.reqs.With(m, x.reqs.Of(m) + Chunks(l, b, p.at, p.left.Of(m)))
    && y.phases == x.phases[a := y.phases[a]]
    && y.phases[a].at == ChunksEnd(l, b, p.at, p.left.Of(m)) && y.phases[a].left == p.left.With(m, 0)
  }

  lemma NothingTaken(c: Setup, x: State, a: nat, m: Metric)
    requires ValidSetup(c) && IsWaiting(x, a) && x.phases[a].left.Of(m) == 0
    ensures AllTaken(c, x, a, m, x)
  {
    WithSame(x.reqs, m);
    WithSame(x.phases[a].left, m);
    assert ValidLimit(c.limits.Of(m));
    assert x.reqs.Of(m) + [] == x.reqs.Of(m);
  }

  lemma TakenFirst(c: Setup, x: State, a: nat, m: Metric)
    requires ValidSetup(c) && Limited(c, x) && IsWaiting(x, a) && IsNext(x.phases[a].left, m)
    ensures var x' := Apply(c, x, Take(a, x.phases[a].at, m));
            IsWaiting(x', a) && x'.phases[a].left.Of(m) < x.phases[a].left.Of(m)
    ensures forall y :: AllTaken(c, Apply(c, x, Take(a, x.phases[a].at, m)), a, m, y) ==> AllTaken(c, x, a, m, y)
  {
    var p, l := x.phases[a], c.limits.Of(m);
    assert ValidLimit(l) && Sound(l, c, x.reqs.Of(m), x.clock);
    var x' := Apply(c, x, Take(a, p.at, m));
    NextChunk(l, c, x.reqs.Of(m), x.clock, p.at, p.left.Of(m));
    WithTwice(p.left, m, x'.phases[a].left.Of(m), 0);
    forall y | AllTaken(c, x', a, m, y) ensures AllTaken(c, x, a, m, y) {
      WithTwice(x.reqs, m, x'.reqs.Of(m), y.reqs.Of(m));
    }
  }

  lemma {:induction false} TakeAll(c: Setup, x: State, a: nat, m: Metric) returns (steps: seq<Step>, y: State)
    requires ValidSetup(c) && Limited(c, x) && IsWaiting(x, a)
    requires x.phases[a].left.Of(m) > 0 ==> IsNext(x.phases[a].left, m)
    ensures Leads(c, x, steps, y) && Limited(c, y) && AllTaken(c, x, a, m, y)
    decreases x.phases[a].left.Of(m)
  {
    if x.phases[a].left.Of(m) == 0 {
      NothingTaken(c, x, a, m);
      return [], x;
    }
    var step := Take(a, x.phases[a].at, m);
    StepLimited(c, x, step);
    TakenFirst(c, x, a, m);
    steps, y := TakeAll(c, Apply(c, x, step), a, m);
    steps := [step] + steps;
  }

  /** The byte loop and then the gas loop. */
  lemma TakeBytesAndGas(c: Setup, x: State, a: nat) returns (steps: seq<Step>, y: State)
    requires ValidSetup(c) && Limited(c, x) && IsWaiting(x, a) && x.phases[a].left.count == 0
    ensures Leads(c, x, steps, y) && y.started == x.started && IsWaiting(y, a) && y.phases[a].left == Each(0, 0, 0)
    ensures y.phases == x.phases[a := y.phases[a]] && y.reqs.count == x.reqs.count
    ensures var l, p := c.limits, x.phases[a];
            assert ValidLimit(l.Of(Bytes)) && ValidLimit(l.Of(Gas));
            var sized := ChunksEnd(l.bytes, Now(l.bytes, c, x.reqs.bytes), p.at, p.left.bytes);
            && y.reqs.bytes == x.reqs.bytes + Chunks(l.bytes, Now(l.bytes, c, x.reqs.bytes), p.at, p.left.bytes)
            && y.reqs.gas == x.reqs.gas + Chunks(l.gas, Now(l.gas, c, x.reqs.gas), sized, p.left.gas)
            && y.phases[a].at == ChunksEnd(l.gas, Now(l.gas, c, x.reqs.gas), sized, p.left.gas)
  {
    var first, x1 := TakeAll(c, x, a, Bytes);
    var second, x2 := TakeAll(c, x1, a, Gas);
    LeadsOn(c, x, first, x1, second, x2);
    steps, y := first + second, x2;
  }

  /** The transaction token is a single chunk. */
  lemma TakeCount(c: Setup, x: State, a: nat) returns (steps: seq<Step>, y: State)
    requires ValidSetup(c) && Limited(c, x) && IsWaiting(x, a) && x.phases[a].left.count == 1
    ensures Leads(c, x, steps, y) && Limited(c, y) && y.started == x.started && IsWaiting(y, a)
    ensures y.phases[a].left == x.phases[a].left.(count := 0) && y.phases == x.phases[a := y.phases[a]]
    ensures var l, at := c.limits.count, x.phases[a].at;
            var b := Reserve(Now(l, c, x.reqs.count), at, Seconds(l, 1));
            && y.reqs == x.reqs.(count := x.reqs.count + [Ask(l, at, 1)])
            && Now(l, c, y.reqs.count) == b && y.phases[a].at == Ready(b)
  {
    OneChunk(c, x, x.phases[a].at);
    steps, y := TakeAll(c, x, a, Count);
  }

  /**
   A call for a transaction that nobody comes between is such a sequence of steps: it makes the requests that
   MultiLimiter.WaitForTransaction makes, at the same times, and leaves the account ready to start when that call
   returns.
   */
  lemma CallAsSteps(c: Setup, x: State, a: nat, now: real, size: nat, gas: nat) returns (steps: seq<Step>, y: State)
    requires ValidSetup(c) && Limited(c, x) && a < |x.phases| && x.phases[a].Idle? && x.clock <= now
    ensures Leads(c, x, steps, y) && y.started == x.started && IsWaiting(y, a) && y.phases == x.phases[a := y.phases[a]]
    ensures var l := c.limits;
            assert ValidLimit(l.Of(Bytes)) && ValidLimit(l.Of(Gas));
            var b := Reserve(Now(l.count, c, x.reqs.count), now, Seconds(l.count, 1));
            var sized := ChunksEnd(l.bytes, Now(l.bytes, c, x.reqs.bytes), Ready(b), size);
            var at := ChunksEnd(l.gas, Now(l.gas, c, x.reqs.gas), sized, gas);
            && y.reqs.count == x.reqs.count + [Ask(l.count, now, 1)] && Now(l.count, c, y.reqs.count) == b
            && y.reqs.bytes == x.reqs.bytes + Chunks(l.bytes, Now(l.bytes, c, x.reqs.bytes), Ready(b), size)
            && y.reqs.gas == x.reqs.gas + Chunks(l.gas, Now(l.gas, c, x.reqs.gas), sized, gas)
            && y.phases[a].at == at && Enabled(c, y, Start(a, at))
  {
    var step := Begin(a, now, size, gas);
    StepLimited(c, x, step);
    var first, x1 := TakeCount(c, Apply(c, x, step), a);
    var second, x2 := TakeBytesAndGas(c, x1, a);
    LeadsOn(c, Apply(c, x, step), first, x1, second, x2);
    steps, y := [step] + (first + second), x2;
  }

  lemma OneChunk(c: Setup, x: State, now: real)
    requires ValidSetup(c) && Limited(c, x) && x.clock <= now
    ensures var l := c.limits.count;
            assert ValidLimit(c.limits.Of(Count));
            var b := Now(l, c, x.reqs.count);
            var b' := Reserve(b, now, Seconds(l, 1));
            && Chunks(l, b, now, 1) == [Ask(l, now, 1)] && ChunksEnd(l, b, now, 1) == Ready(b')
            && Now(l, c, x.reqs.count + [Ask(l, now, 1)]) == b'
  {
    var l := c.limits.Of(Count);
    assert ValidLimit(l) && Sound(l, c, x.reqs.Of(Count), x.clock);
    AskSound(l, c, x.reqs.count, x.clock, now, 1);
  }

  // ----- the bound on broadcasts is reached

  lemma Extend(c: Setup, states: seq<State>, steps: seq<Step>, step: Step)
    returns (states': seq<State>, steps': seq<Step>)
    requires Run(c, states, steps) && Enabled(c, states[|steps|], step)
    ensures Run(c, states', steps') && states'[|steps'|] == Apply(c, states[|steps|], step)
  {
    states', steps' := states + [Apply(c, states[|steps|], step)], steps + [step];
  }

  /** The account can start its broadcast at time t. */
  ghost predicate CanStart(p: Phase, t: real) { p.Waiting? && p.at <= t && p.left == Each(0, 0, 0) }

  /** The transaction limiter's bucket. */
  function Tokens(c: Setup, x: State): Bucket { Now(c.limits.count, c, x.reqs.count) }

  function Worth(c: Setup, n: nat): real { Seconds(c.limits.count, n) }

  /** Account a begins with an empty transaction and takes its token. */
  lemma TakeToken(c: Setup, states: seq<State>, steps: seq<Step>, a: nat, now: real)
    returns (states': seq<State>, steps': seq<Step>)
    requires Run(c, states, steps)
    requires var x := states[|steps|]; a < |x.phases| && x.phases[a].Idle? && x.clock <= now
    ensures Run(c, states', steps')
    ensures var x, y := states[|steps|], states'[|steps'|];
            var b := Reserve(Tokens(c, x), now, Worth(c, 1));
            && Tokens(c, y) == b && y.started == x.started && y.clock == now <= Ready(b) && |y.phases| == |x.phases|
            && y.phases == x.phases[a := y.phases[a]] && CanStart(y.phases[a], Ready(b)) && y.phases[a].at == Ready(b)
  {
    RunsLimited(c, states, steps, |steps|);
    var x, l := states[|steps|], c.limits.Of(Count);
    assert ValidLimit(l) && Sound(l, c, x.reqs.Of(Count), x.clock);
    AskSound(c.limits.count, c, states[|steps|].reqs.count, states[|steps|].clock, now, 1);
    states', steps' := Extend(c, states, steps, Begin(a, now, 0, 0));
    states', steps' := Extend(c, states', steps', Take(a, now, Count));
  }

  /** The first j accounts take their tokens at the beginning. */
  lemma {:induction false} AllTake(c: Setup, j: nat) returns (states: seq<State>, steps: seq<Step>)
    requires ValidSetup(c) && j <= c.accounts
    ensures Run(c, states, steps)
    ensures var x := states[|steps|];
            && |x.phases| == c.accounts && x.clock == c.begin && x.started == []
            && (forall i :: 0 <= i < j ==> CanStart(x.phases[i], c.begin + Worth(c, j)))
            && (forall i :: j <= i < c.accounts ==> x.phases[i].Idle?)
            && var burst := Worth(c, c.limits.count.burst);
               Tokens(c, x) == Bucket(burst, burst - Worth(c, j), c.begin)
  {
    if j == 0 {
      return [Init(c)], [];
    }
    states, steps := AllTake(c, j - 1);
    assert ValidLimit(c.limits.Of(Count));
    SecondsAdd(c.limits.count, j - 1, 1);
    SecondsGrow(c.limits.count, 0, j - 1);
    SecondsGrow(c.limits.count, 0, c.limits.count.burst);
    SecondsGrow(c.limits.count, 0, 1);
    states, steps := TakeToken(c, states, steps, j - 1, c.begin);
  }

  /** When every account has its token and the bucket is full again. */
  function Opening(c: Setup): real { c.begin + Worth(c, c.accounts) }

  ghost predicate AllIn(started: seq<Broadcast>, s: real, t: real) {
    forall i :: 0 <= i < |started| ==> s <= started[i].at <= t
  }

  /** Then the first j accounts start their broadcasts at once. */
  lemma {:induction false} AllStart(c: Setup, j: nat) returns (states: seq<State>, steps: seq<Step>)
    requires ValidSetup(c) && j <= c.accounts
    ensures Run(c, states, steps)
    ensures var x, s, burst := states[|steps|], Opening(c), Worth(c, c.limits.count.burst);
            && |x.phases| == c.accounts && x.clock <= s && |x.started| == j && AllIn(x.started, s, s)
            && (forall i :: 0 <= i < j ==> x.phases[i].Idle?)
            && (forall i :: j <= i < c.accounts ==> CanStart(x.phases[i], s))
            && Tokens(c, x) == Bucket(burst, burst - Worth(c, c.accounts), c.begin)
  {
    if j == 0 {
      states, steps := AllTake(c, c.accounts);
      assert ValidLimit(c.limits.Of(Count));
      SecondsGrow(c.limits.count, 0, c.accounts);
      return;
    }
    states, steps := AllStart(c, j - 1);
    states, steps := Extend(c, states, steps, Start(j - 1, Opening(c)));
  }

  /** What the bucket can give at time t. */
  function Available(b: Bucket, t: real): real { Min(b.burst, b.balance + (t - b.last)) }

  /** The first account takes one more token and starts as soon as it is granted. */
  lemma Turn(c: Setup, states: seq<State>, steps: seq<Step>, now: real) returns (states': seq<State>, steps': seq<Step>)
    requires Run(c, states, steps)
    requires var x := states[|steps|]; |x.phases| > 0 && x.phases[0].Idle? && x.clock <= now
    ensures Run(c, states', steps')
    ensures var x, y := states[|steps|], states'[|steps'|];
            var b := Reserve(Tokens(c, x), now, Worth(c, 1));
            && y.phases == x.phases && y.clock == Ready(b) && Tokens(c, y) == b
            && |y.started| == |x.started| + 1 && y.started[..|x.started|] == x.started
            && y.started[|x.started|].at == Ready(b)
  {
    states', steps' := TakeToken(c, states, steps, 0, now);
    states', steps' := Extend(c, states', steps', Start(0, states'[|steps'|].phases[0].at));
  }

  /** The state of the first account after `starts` broadcasts in the window so far. */
  ghost predicate Going(c: Setup, x: State, t: real, available: real, starts: nat) {
    && |x.phases| > 0 && x.phases[0].Idle? && x.clock <= t && |x.started| == starts && AllIn(x.started, Opening(c), t)
    && Tokens(c, x).burst == Worth(c, c.limits.count.burst) && Available(Tokens(c, x), t) == available
  }

  /** It uses up the burst at once ... */
  lemma {:induction false} UseBurst(c: Setup, n: nat) returns (states: seq<State>, steps: seq<Step>)
    requires ValidSetup(c) && c.accounts > 0 && n <= c.limits.count.burst
    ensures Run(c, states, steps)
    ensures Going(c, states[|steps|], Opening(c), Worth(c, c.limits.count.burst - n), c.accounts + n)
  {
    if n == 0 {
      states, steps := AllStart(c, c.accounts);
      return;
    }
    states, steps := UseBurst(c, n - 1);
    assert ValidLimit(c.limits.Of(Count));
    SecondsAdd(c.limits.count, c.limits.count.burst - n, 1);
    SecondsGrow(c.limits.count, c.limits.count.burst - n, c.limits.count.burst);
    states, steps := Turn(c, states, steps, Opening(c));
  }

  /** ... and then every token as it is refilled. */
  lemma {:induction false} UseRefill(c: Setup, k: nat) returns (states: seq<State>, steps: seq<Step>)
    requires ValidSetup(c) && c.accounts > 0
    ensures Run(c, states, steps)
    ensures Going(c, states[|steps|], Opening(c) + Worth(c, k), 0.0, c.accounts + c.limits.count.burst + k)
  {
    if k == 0 {
      states, steps := UseBurst(c, c.limits.count.burst);
      return;
    }
    states, steps := UseRefill(c, k - 1);
    assert ValidLimit(c.limits.Of(Count));
    SecondsAdd(c.limits.count, k - 1, 1);
    SecondsGrow(c.limits.count, 1, c.limits.count.burst);
    SecondsGrow(c.limits.count, 0, k - 1);
    states, steps := Turn(c, states, steps, Opening(c) + Worth(c, k - 1));
  }

  lemma {:induction false} StartedAll(started: seq<Broadcast>, s: real, t: real)
    requires AllIn(started, s, t)
    ensures StartedIn(started, Count, s, t) == |started|
  {
    if started != [] {
      StartedAll(started[1..], s, t);
    }
  }

  /** With at least one account the bound is reached, in a window worth any whole number of tokens. */
  lemma BroadcastBoundIsTight(c: Setup, k: nat) returns (states: seq<State>, steps: seq<Step>, s: real, t: real)
    requires ValidSetup(c) && c.accounts > 0
    ensures Run(c, states, steps) && s <= t && c.limits.count.unit > 0.0 && Rate(c.limits.count) * (t - s) == k as real
    ensures StartedIn(states[|steps|].started, Count, s, t) == c.limits.count.burst + k + c.accounts
  {
    states, steps := UseRefill(c, k);
    s, t := Opening(c), Opening(c) + Worth(c, k);
    assert ValidLimit(c.limits.Of(Count));
    SecondsGrow(c.limits.count, 0, k);
    WholeTokens(c.limits.count, k);
    StartedAll(states[|steps|].started, s, t);
  }
}
