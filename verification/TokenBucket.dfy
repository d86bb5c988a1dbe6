/**
 A token bucket in reserve-then-wait form, over real time.  A request that finds too few tokens is charged at once,
 which leaves the balance negative, and is granted at the moment the balance has been refilled to zero.
 Reservations are serialised, so their times never decrease.

 The specification measures balances in seconds of refill: a token is worth 1 / rate seconds.
 */
module TokenBuckets {
  datatype Bucket = Bucket(burst: real, balance: real, last: real)

  /** A request for n tokens, worth `cost` seconds; the grant carries the same two numbers. */
  datatype Request = Request(now: real, n: nat, cost: real)
  datatype Grant = Grant(at: real, n: nat, cost: real)

  function Max(x: real, y: real): real { if x < y then y else x }
  function Min(x: real, y: real): real { if x < y then x else y }

  /** Refill up to the burst, then charge. */
  function Reserve(b: Bucket, now: real, cost: real): Bucket {
    b.(balance := Min(b.burst, b.balance + (now - b.last)) - cost, last := now)
  }

  /** When the last reservation made on the bucket is granted. */
  function Ready(b: Bucket): real { b.last + Max(-b.balance, 0.0) }

  /** What the bucket holds at that moment. */
  function Level(b: Bucket): real { Max(b.balance, 0.0) }

  function After(b: Bucket, reqs: seq<Request>): Bucket
    decreases |reqs|
  {
    if reqs == [] then b else After(Reserve(b, reqs[0].now, reqs[0].cost), reqs[1..])
  }

  function Grants(b: Bucket, reqs: seq<Request>): seq<Grant>
    decreases |reqs|
  {
    if reqs == [] then [] else
      var b' := Reserve(b, reqs[0].now, reqs[0].cost);
      [Grant(Ready(b'), reqs[0].n, reqs[0].cost)] + Grants(b', reqs[1..])
  }

  /** Requests the bucket accepts: none above the burst, at times that never decrease. */
  ghost predicate Served(b: Bucket, reqs: seq<Request>)
    decreases |reqs|
  {
    reqs == [] ||
    (&& b.last <= reqs[0].now && 0.0 <= reqs[0].cost <= b.burst
     && Served(Reserve(b, reqs[0].now, reqs[0].cost), reqs[1..]))
  }

  /** Tokens, and their worth, granted at times in [s, t]. */
  function Total(gs: seq<Grant>, s: real, t: real): nat {
    if gs == [] then 0 else (if s <= gs[0].at <= t then gs[0].n else 0) + Total(gs[1..], s, t)
  }

  function Spent(gs: seq<Grant>, s: real, t: real): real {
    if gs == [] then 0.0 else (if s <= gs[0].at <= t then gs[0].cost else 0.0) + Spent(gs[1..], s, t)
  }

  // ----- a configured bucket and its requests

  /** `unit` is the time it takes to refill one token. */
  datatype Limit = Limit(unit: real, burst: nat)

  ghost predicate ValidLimit(l: Limit) { l.unit > 0.0 && l.burst > 0 }

  /** Tokens per second. */
  function Rate(l: Limit): real
    requires l.unit > 0.0
  {
    1.0 / l.unit
  }

  /** What n tokens are worth. */
  function Seconds(l: Limit, n: nat): real { if n == 0 then 0.0 else Seconds(l, n - 1) + l.unit }

  function Full(l: Limit, now: real): Bucket { Bucket(Seconds(l, l.burst), Seconds(l, l.burst), now) }

  function Ask(l: Limit, now: real, n: nat): Request { Request(now, n, Seconds(l, n)) }

  ghost predicate Priced(l: Limit, reqs: seq<Request>) { forall q :: q in reqs ==> q.cost == Seconds(l, q.n) }

  function Chunk(left: nat, burst: nat): nat { if left < burst then left else burst }

  /** The requests for `amount` tokens that nobody else comes between: each chunk when the one before is granted. */
  function Chunks(l: Limit, b: Bucket, now: real, amount: nat): seq<Request>
    requires l.burst > 0
    decreases amount
  {
    if amount == 0 then [] else
      var q := Ask(l, now, Chunk(amount, l.burst));
      var b' := Reserve(b, now, q.cost);
      [q] + Chunks(l, b', Ready(b'), amount - q.n)
  }

  /** When the last of them is granted. */
  function ChunksEnd(l: Limit, b: Bucket, now: real, amount: nat): real
    requires l.burst > 0
    decreases amount
  {
    if amount == 0 then now else
      var q := Ask(l, now, Chunk(amount, l.burst));
      var b' := Reserve(b, now, q.cost);
      ChunksEnd(l, b', Ready(b'), amount - q.n)
  }

  lemma ChunksUnfold(l: Limit, b: Bucket, now: real, amount: nat)
    requires l.burst > 0 && amount > 0
    ensures var q := Ask(l, now, Chunk(amount, l.burst));
            var b' := Reserve(b, now, q.cost);
            && Chunks(l, b, now, amount) == [q] + Chunks(l, b', Ready(b'), amount - q.n)
            && ChunksEnd(l, b, now, amount) == ChunksEnd(l, b', Ready(b'), amount - q.n)
  {
  }

  lemma {:induction false} SecondsAdd(l: Limit, m: nat, n: nat)
    ensures Seconds(l, m + n) == Seconds(l, m) + Seconds(l, n)
  {
    if n > 0 {
      SecondsAdd(l, m, n - 1);
    }
  }

  lemma {:induction false} SecondsGrow(l: Limit, m: nat, n: nat)
    requires l.unit > 0.0 && m <= n
    ensures 0.0 <= Seconds(l, m) <= Seconds(l, n)
  {
    if m < n {
      SecondsGrow(l, m, n - 1);
    } else if m > 0 {
      SecondsGrow(l, m - 1, m - 1);
    }
  }

  lemma OneMore(n: nat, unit: real)
    ensures (n + 1) as real * unit == n as real * unit + unit
  {
  }

  lemma {:induction false} SecondsProduct(l: Limit, n: nat)
    ensures Seconds(l, n) == n as real * l.unit
  {
    if n > 0 {
      SecondsProduct(l, n - 1);
      OneMore(n - 1, l.unit);
    }
  }

  // ----- the window bound

  /** Grants come in order, and between two of them the level rises no faster than time passes. */
  lemma ReserveStep(b: Bucket, now: real, cost: real)
    requires b.balance <= b.burst && b.last <= now && 0.0 <= cost <= b.burst
    ensures var b' := Reserve(b, now, cost);
            && b'.balance <= b.burst && Ready(b) <= Ready(b') && now <= Ready(b')
            && Level(b') <= Level(b) + (Ready(b') - Ready(b)) - cost
            && Level(b') <= b.burst - cost
  {
  }

  /** What has been granted inside the window [s, t] so far leaves room for what the bucket still holds. */
  ghost predicate Room(b: Bucket, granted: real, s: real, t: real) {
    && b.balance <= b.burst
    && (Ready(b) < s ==> granted == 0.0)
    && (s <= Ready(b) <= t ==> granted + Level(b) <= b.burst + (Ready(b) - s))
    && (t < Ready(b) ==> granted <= b.burst + (t - s))
  }

  lemma RoomStep(b: Bucket, granted: real, now: real, cost: real, s: real, t: real)
    requires s <= t && Room(b, granted, s, t) && b.last <= now && 0.0 <= cost <= b.burst
    ensures var b' := Reserve(b, now, cost);
            Room(b', granted + (if s <= Ready(b') <= t then cost else 0.0), s, t)
  {
    ReserveStep(b, now, cost);
  }

  lemma {:induction false} SpentBound(b: Bucket, granted: real, reqs: seq<Request>, s: real, t: real)
    requires s <= t && 0.0 <= b.burst && Room(b, granted, s, t) && Served(b, reqs)
    ensures granted + Spent(Grants(b, reqs), s, t) <= b.burst + (t - s)
    decreases |reqs|
  {
    if reqs != [] {
      var b' := Reserve(b, reqs[0].now, reqs[0].cost);
      RoomStep(b, granted, reqs[0].now, reqs[0].cost, s, t);
      SpentBound(b', granted + (if s <= Ready(b') <= t then reqs[0].cost else 0.0), reqs[1..], s, t);
    }
  }

  lemma {:induction false} TotalIsSpent(l: Limit, gs: seq<Grant>, s: real, t: real)
    requires forall g :: g in gs ==> g.cost == Seconds(l, g.n)
    ensures Spent(gs, s, t) == Seconds(l, Total(gs, s, t))
  {
    if gs != [] {
      TotalIsSpent(l, gs[1..], s, t);
      SecondsAdd(l, gs[0].n, Total(gs[1..], s, t));
    }
  }

  lemma {:induction false} GrantsPriced(l: Limit, b: Bucket, reqs: seq<Request>)
    requires Priced(l, reqs)
    ensures forall g :: g in Grants(b, reqs) ==> g.cost == Seconds(l, g.n)
    decreases |reqs|
  {
    if reqs != [] {
      GrantsPriced(l, Reserve(b, reqs[0].now, reqs[0].cost), reqs[1..]);
      assert reqs[0] in reqs;
    }
  }

  lemma Scale(unit: real, rate: real, total: real, burst: real, length: real)
    requires unit > 0.0 && rate == 1.0 / unit && total * unit <= burst * unit + length
    ensures total <= burst + rate * length
  {
    assert rate * length == length / unit;
    assert (total - burst) * unit <= length;
  }

  /** At most the burst plus the rate times the length. */
  ghost predicate Affords(l: Limit, total: nat, length: real)
    requires l.unit > 0.0
  {
    total as real <= l.burst as real + Rate(l) * length
  }

  lemma InTokens(l: Limit, total: nat, length: real)
    requires l.unit > 0.0 && Seconds(l, total) <= Seconds(l, l.burst) + length
    ensures Affords(l, total, length)
  {
    SecondsProduct(l, total);
    SecondsProduct(l, l.burst);
    Scale(l.unit, Rate(l), total as real, l.burst as real, length);
  }

  /** What the bucket grants in [s, t] is what its limit affords. */
  ghost predicate WithinLimit(l: Limit, gs: seq<Grant>, s: real, t: real)
    requires l.unit > 0.0
  {
    Affords(l, Total(gs, s, t), t - s)
  }

  lemma SpentWithin(l: Limit, b: Bucket, reqs: seq<Request>, s: real, t: real)
    requires ValidLimit(l) && b.burst == Seconds(l, l.burst) && b.balance <= b.burst
    requires Served(b, reqs) && Priced(l, reqs) && s <= t
    ensures Seconds(l, Total(Grants(b, reqs), s, t)) <= Seconds(l, l.burst) + (t - s)
  {
    SecondsGrow(l, 0, l.burst);
    SpentBound(b, 0.0, reqs, s, t);
    GrantsPriced(l, b, reqs);
    TotalIsSpent(l, Grants(b, reqs), s, t);
  }

  /** Whoever the callers are, every window of every sequence of requests stays within the limit. */
  lemma WindowBound(l: Limit, b: Bucket, reqs: seq<Request>, s: real, t: real)
    requires ValidLimit(l) && b.burst == Seconds(l, l.burst) && b.balance <= b.burst
    requires Served(b, reqs) && Priced(l, reqs) && s <= t
    ensures WithinLimit(l, Grants(b, reqs), s, t)
  {
    var gs := Grants(b, reqs);
    SpentWithin(l, b, reqs, s, t);
    InTokens(l, Total(gs, s, t), t - s);
  }

  /** k single tokens, all asked for at the same time. */
  function Singles(l: Limit, now: real, k: nat): seq<Request> {
    if k == 0 then [] else [Ask(l, now, 1)] + Singles(l, now, k - 1)
  }

  /** An empty bucket grants them one by one, as fast as it is refilled. */
  lemma {:induction false} SinglesGranted(l: Limit, b: Bucket, k: nat, s: real, t: real)
    requires ValidLimit(l) && b.burst == Seconds(l, l.burst) && b.last == s && b.balance <= 0.0
    requires s - b.balance + Seconds(l, k) <= t
    ensures var reqs := Singles(l, s, k);
            Served(b, reqs) && Priced(l, reqs) && Total(Grants(b, reqs), s, t) == k
    decreases k
  {
    if k > 0 {
      var q := Ask(l, s, 1);
      SecondsAdd(l, k - 1, 1);
      SecondsGrow(l, 1, k);
      AskInRange(l, s, 1);
      SinglesGranted(l, Reserve(b, s, q.cost), k - 1, s, t);
      assert Singles(l, s, k)[1..] == Singles(l, s, k - 1);
    }
  }

  lemma AskInRange(l: Limit, now: real, n: nat)
    requires l.unit > 0.0 && n <= l.burst
    ensures 0.0 <= Ask(l, now, n).cost <= Seconds(l, l.burst)
  {
    SecondsGrow(l, n, l.burst);
  }

  lemma WholeTokens(l: Limit, k: nat)
    requires l.unit > 0.0
    ensures Rate(l) * Seconds(l, k) == k as real
  {
    SecondsProduct(l, k);
  }

  /** The bound is reached in every window whose length is worth a whole number of tokens. */
  lemma WindowBoundIsTight(l: Limit, k: nat, s: real)
    requires ValidLimit(l)
    ensures var t := s + Seconds(l, k);
            var b, reqs := Full(l, s), [Ask(l, s, l.burst)] + Singles(l, s, k);
            && Served(b, reqs) && Priced(l, reqs)
            && Total(Grants(b, reqs), s, t) == l.burst + k && Rate(l) * (t - s) == k as real
  {
    var t, b, q := s + Seconds(l, k), Full(l, s), Ask(l, s, l.burst);
    var reqs := [q] + Singles(l, s, k);
    WholeTokens(l, k);
    SecondsGrow(l, 0, k);
    AskInRange(l, s, l.burst);
    SinglesGranted(l, Reserve(b, s, q.cost), k, s, t);
    assert reqs[1..] == Singles(l, s, k);
  }

  // ----- one more request at the end

  lemma {:induction false} AppendRequest(b: Bucket, reqs: seq<Request>, q: Request)
    ensures After(b, reqs + [q]) == Reserve(After(b, reqs), q.now, q.cost)
    ensures Grants(b, reqs + [q]) == Grants(b, reqs) + [Grant(Ready(After(b, reqs + [q])), q.n, q.cost)]
    ensures Served(b, reqs + [q])
            <==> Served(b, reqs) && After(b, reqs).last <= q.now && 0.0 <= q.cost <= After(b, reqs).burst
    ensures After(b, reqs).burst == b.burst
    decreases |reqs|
  {
    if reqs == [] {
      assert reqs + [q] == [q] && [q][1..] == [];
    } else {
      AppendRequest(Reserve(b, reqs[0].now, reqs[0].cost), reqs[1..], q);
      assert (reqs + [q])[1..] == reqs[1..] + [q];
    }
  }

  lemma {:induction false} TotalAppend(gs: seq<Grant>, g: Grant, s: real, t: real)
    ensures Total(gs + [g], s, t) == Total(gs, s, t) + if s <= g.at <= t then g.n else 0
  {
    if gs == [] {
      assert gs + [g] == [g] && [g][1..] == [];
    } else {
      TotalAppend(gs[1..], g, s, t);
      assert (gs + [g])[1..] == gs[1..] + [g];
    }
  }

  // ----- the limiter object, which counts tokens

  datatype WaitResult = Granted(at: real) | BurstExceeded

  lemma DivideReserve(rate: real, burst: real, tokens: real, elapsed: real, n: real)
    requires rate > 0.0
    ensures (Min(burst, tokens + rate * elapsed) - n) / rate == Min(burst / rate, tokens / rate + elapsed) - n / rate
  {
    var x := tokens + rate * elapsed;
    Refill(rate, tokens, elapsed);
    DivideOrder(rate, burst, x);
    DivideMinus(rate, Min(burst, x), n);
  }

  lemma Refill(rate: real, tokens: real, elapsed: real)
    requires rate > 0.0
    ensures (tokens + rate * elapsed) / rate == tokens / rate + elapsed
  {
  }

  lemma DivideOrder(rate: real, x: real, y: real)
    requires rate > 0.0
    ensures x < y <==> x / rate < y / rate
  {
  }

  lemma DivideMinus(rate: real, x: real, y: real)
    requires rate > 0.0
    ensures (x - y) / rate == x / rate - y / rate
  {
  }

  lemma DivideReady(rate: real, tokens: real)
    requires rate > 0.0
    ensures Max(-(tokens / rate), 0.0) == if tokens < 0.0 then (-tokens) / rate else 0.0
    ensures Max(-(tokens / rate), 0.0) >= 0.0
  {
  }

  /** A bucket refilled at `rate` tokens per second. */
  lemma RateOf(rate: real, burst: nat)
    requires rate > 0.0
    ensures Limit(1.0 / rate, burst).unit > 0.0 && Rate(Limit(1.0 / rate, burst)) == rate
  {
  }

  lemma SecondsQuotient(rate: real, burst: nat, n: nat)
    requires rate > 0.0
    ensures Seconds(Limit(1.0 / rate, burst), n) == n as real / rate
  {
    SecondsProduct(Limit(1.0 / rate, burst), n);
  }

  /** Tokens left after a refill, up to the burst, and a charge, which may leave them negative. */
  function Left(rate: real, burst: nat, tokens: real, elapsed: real, n: nat): real {
    Min(burst as real, tokens + rate * elapsed) - n as real
  }

  /** Refilling and charging tokens is reserving their worth. */
  lemma ChargedValue(rate: real, burst: nat, tokens: real, last: real, now: real, n: nat)
    requires rate > 0.0
    ensures var l := Limit(1.0 / rate, burst);
            Bucket(Seconds(l, burst), Left(rate, burst, tokens, now - last, n) / rate, now)
            == Reserve(Bucket(Seconds(l, burst), tokens / rate, last), now, Seconds(l, n))
  {
    DivideReserve(rate, burst as real, tokens, now - last, n as real);
    SecondsQuotient(rate, burst, burst);
    SecondsQuotient(rate, burst, n);
  }

  class Limiter {
    const rate: real
    const burst: nat
    var tokens: real
    var last: real

    ghost predicate Ok() reads this { rate > 0.0 && burst > 0 && tokens <= burst as real }

    ghost function AsLimit(): Limit
      requires rate > 0.0
    {
      Limit(1.0 / rate, burst)
    }

    ghost function Value(): Bucket
      requires rate > 0.0
      reads this
    {
      Bucket(Seconds(AsLimit(), burst), tokens / rate, last)
    }

    constructor (rate: real, burst: nat, now: real)
      requires rate > 0.0 && burst > 0
      ensures this.rate == rate && this.burst == burst
      ensures Ok() && Value() == Full(AsLimit(), now)
    {
      this.rate, this.burst, tokens, last := rate, burst, burst as real, now;
      SecondsQuotient(rate, burst, burst);
    }

    /** Reserves n tokens at time `now` and returns the moment the caller may go on. */
    method Wait(now: real, n: int) returns (r: WaitResult)
      requires Ok() && last <= now
      modifies this
      ensures Ok()
      ensures n <= 0 ==> r == Granted(now) && Value() == old(Value())
      ensures n > burst ==> r == BurstExceeded && Value() == old(Value())
      ensures 0 < n <= burst ==>
                && Value() == Reserve(old(Value()), now, Seconds(AsLimit(), n))
                && r == Granted(Ready(Value())) && now <= r.at
    {
      if n <= 0 {
        return Granted(now);
      }
      if n > burst {
        return BurstExceeded;
      }
      Charge(now, n);
      var delay := Delay();
      r := Granted(last + delay);
    }

    /** Refills up to the burst, then takes the tokens, going negative if need be. */
    method Charge(now: real, n: nat)
      requires Ok()
      modifies this
      ensures Ok() && last == now && Value() == Reserve(old(Value()), now, Seconds(AsLimit(), n))
    {
      ChargedValue(rate, burst, tokens, last, now, n);
      tokens := Left(rate, burst, tokens, now - last, n);
      last := now;
    }

    /** Time until a negative balance is refilled. */
    method Delay() returns (d: real)
      requires Ok()
      ensures d >= 0.0 && last + d == Ready(Value())
    {
      DivideReady(rate, tokens);
      d := if tokens < 0.0 then (-tokens) / rate else 0.0;
    }
  }
}
