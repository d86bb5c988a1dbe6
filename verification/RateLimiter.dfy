/** The multi-metric limiter: burst sizes from the configuration, and the chunked consumption of one transaction. */
module RateLimiting {
  import opened Words
  import opened TokenBuckets

  const MAX_INT: int := TWO_63 - 1

  /** `burstSize` is an `int`.  A configuration is valid when its transaction rate converts to an `int`. */
  datatype Config = Config(txPerSecond: real, bytesPerSecond: uint64, gasPerSecond: uint64, burstSize: int)

  ghost predicate ValidConfig(c: Config) { c.burstSize <= MAX_INT && c.txPerSecond <= MAX_INT as real }

  function Ceil(x: real): int { -((-x).Floor) }

  /** The burst is at least one token and never less than one second's worth. */
  function TpsBurst(c: Config): (b: int)
    requires ValidConfig(c)
    ensures 1 <= b <= MAX_INT
    ensures c.burstSize > 0 ==> b == c.burstSize
    ensures c.burstSize <= 0 ==> c.txPerSecond <= b as real && (b > 1 ==> (b - 1) as real < c.txPerSecond)
  {
    if c.burstSize > 0 then c.burstSize else if Ceil(c.txPerSecond) < 1 then 1 else Ceil(c.txPerSecond)
  }

  /** One second's worth of an unsigned rate, saturated to what an `int` can hold. */
  function SaturatingBurst(burstSize: int, perSecond: uint64): (b: int)
    requires burstSize <= MAX_INT
    ensures 1 <= b <= MAX_INT
    ensures burstSize > 0 ==> b == burstSize
    ensures burstSize <= 0 && perSecond == 0 ==> b == 1
    ensures burstSize <= 0 && perSecond > 0 ==> b <= perSecond && (b == perSecond || b == 0x7FFF_FFFF_FFFF_FFFF)
  {
    if burstSize > 0 then burstSize
    else if perSecond == 0 then 1
    else if perSecond > MAX_INT then MAX_INT
    else ToInt(perSecond)
  }

  function BytesBurst(c: Config): int
    requires ValidConfig(c)
  {
    SaturatingBurst(c.burstSize, c.bytesPerSecond)
  }

  function GasBurst(c: Config): int
    requires ValidConfig(c)
  {
    SaturatingBurst(c.burstSize, c.gasPerSecond)
  }

  function Sum(reqs: seq<Request>): nat {
    if reqs == [] then 0 else reqs[0].n + Sum(reqs[1..])
  }

  /** Requests that charge exactly `amount` tokens in chunks the bucket can serve. */
  ghost predicate Charges(l: Limit, before: Bucket, reqs: seq<Request>, amount: nat) {
    && Sum(reqs) == amount
    && (forall q :: q in reqs ==> 1 <= q.n <= l.burst)
    && Served(before, reqs) && Priced(l, reqs)
  }

  /** Chunking charges the amount exactly, never asks for more than the burst, and ends no earlier than it began. */
  lemma {:induction false} ChunksCharge(l: Limit, b: Bucket, now: real, amount: nat)
    requires ValidLimit(l) && b.burst == Seconds(l, l.burst) && b.last <= now
    ensures Charges(l, b, Chunks(l, b, now, amount), amount) && now <= ChunksEnd(l, b, now, amount)
    decreases amount
  {
    if amount > 0 {
      var q := Ask(l, now, Chunk(amount, l.burst));
      var b' := Reserve(b, now, q.cost);
      AskInRange(l, now, q.n);
      ChunksCharge(l, b', Ready(b'), amount - q.n);
      ChargesMore(l, b, q, Chunks(l, b', Ready(b'), amount - q.n), amount - q.n);
    }
  }

  lemma ChargesMore(l: Limit, b: Bucket, q: Request, rest: seq<Request>, amount: nat)
    requires Charges(l, Reserve(b, q.now, q.cost), rest, amount)
    requires 1 <= q.n <= l.burst && q.cost == Seconds(l, q.n) && b.last <= q.now && 0.0 <= q.cost <= b.burst
    ensures Charges(l, b, [q] + rest, q.n + amount)
  {
    assert ([q] + rest)[1..] == rest;
  }

  /** The bucket and the time after the first chunk lead to the same end. */
  lemma FirstChunk(l: Limit, b: Bucket, now: real, amount: nat)
    requires l.burst > 0 && amount > 0
    ensures var n := Chunk(amount, l.burst);
            var b' := Reserve(b, now, Seconds(l, n));
            && After(b', Chunks(l, b', Ready(b'), amount - n)) == After(b, Chunks(l, b, now, amount))
            && ChunksEnd(l, b', Ready(b'), amount - n) == ChunksEnd(l, b, now, amount)
  {
    var n := Chunk(amount, l.burst);
    var b' := Reserve(b, now, Seconds(l, n));
    assert Chunks(l, b, now, amount)[1..] == Chunks(l, b', Ready(b'), amount - n);
  }

  /** `NewLimiter`: null stands for its two errors. */
  method NewLimiter(rate: real, burst: int, now: real) returns (l: Limiter?)
    ensures l != null <==> rate > 0.0 && burst > 0
    ensures l != null ==>
              fresh(l) && l.Ok() && l.rate == rate && l.burst == burst && l.Value() == Full(l.AsLimit(), now)
  {
    if rate <= 0.0 || burst <= 0 {
      return null;
    }
    l := new Limiter(rate, burst, now);
  }

  /**
   The chunk loop: consumes `amount` in pieces of at most `chunk`.  `chunk` is the burst size computed again from the
   configuration, so it is the burst the limiter was built with.
   */
  method WaitInChunks(l: Limiter, chunk: int, amount: uint64, now: real)
    returns (r: WaitResult, ghost reqs: seq<Request>)
    requires l.Ok() && l.last <= now && chunk == l.burst <= MAX_INT
    modifies l
    ensures l.Ok() && l.last <= ChunksEnd(l.AsLimit(), old(l.Value()), now, amount)
    ensures r == Granted(ChunksEnd(l.AsLimit(), old(l.Value()), now, amount)) && now <= r.at
    ensures reqs == Chunks(l.AsLimit(), old(l.Value()), now, amount)
    ensures Charges(l.AsLimit(), old(l.Value()), reqs, amount)
    ensures l.Value() == After(old(l.Value()), reqs)
  {
    var remaining: uint64 := amount;
    r := Granted(now);
    reqs := Chunks(l.AsLimit(), l.Value(), now, amount);
    ChunksCharge(l.AsLimit(), l.Value(), now, amount);
    while remaining > 0
      invariant remaining <= amount && l.Ok() && r.Granted? && l.last <= r.at
      invariant After(l.Value(), Chunks(l.AsLimit(), l.Value(), r.at, remaining)) == After(old(l.Value()), reqs)
      invariant ChunksEnd(l.AsLimit(), l.Value(), r.at, remaining)
                == ChunksEnd(l.AsLimit(), old(l.Value()), now, amount)
      decreases remaining
    {
      var n := if remaining < chunk then ToInt(remaining) else chunk;
      Sub64Small(remaining, n);
      FirstChunk(l.AsLimit(), l.Value(), r.at, remaining);
      r := l.Wait(r.at, n);
      remaining := Sub64(remaining, n);
    }
  }

  /** The number, or the largest `int` if it is larger. */
  function AtMostInt(n: nat): nat { if n < 0x7FFF_FFFF_FFFF_FFFF then n else 0x7FFF_FFFF_FFFF_FFFF }

  class MultiLimiter {
    const config: Config
    const tps: Limiter?
    const bytes: Limiter?
    const gas: Limiter?

    ghost function Repr(): set<object> {
      (if tps != null then {tps} else {}) + (if bytes != null then {bytes} else {})
      + (if gas != null then {gas} else {})
    }

    /** Three separate limiters, one for each configured rate, with the bursts the configuration prescribes. */
    ghost predicate Ok()
      reads Repr()
    {
      && ValidConfig(config)
      && (tps != null <==> config.txPerSecond > 0.0)
      && (bytes != null <==> config.bytesPerSecond > 0)
      && (gas != null <==> config.gasPerSecond > 0)
      && (tps != null ==>
            tps.Ok() && tps.rate == config.txPerSecond && tps.burst == TpsBurst(config) && tps != bytes && tps != gas)
      && (bytes != null ==>
            && bytes.Ok() && bytes.rate == config.bytesPerSecond as real && bytes.burst == BytesBurst(config)
            && bytes != gas)
      && (gas != null ==> gas.Ok() && gas.rate == config.gasPerSecond as real && gas.burst == GasBurst(config))
    }

    /** No reservation lies after `now`. */
    ghost predicate UpTo(now: real)
      reads Repr()
    {
      && (tps != null ==> tps.last <= now) && (bytes != null ==> bytes.last <= now) && (gas != null ==> gas.last <= now)
    }

    /** Building the limiters never fails: every configured rate is positive and so is its burst. */
    constructor (config: Config, now: real)
      requires ValidConfig(config)
      ensures this.config == config && Ok() && UpTo(now) && fresh(Repr())
      ensures tps != null ==> tps.Value() == Full(tps.AsLimit(), now)
      ensures bytes != null ==> bytes.Value() == Full(bytes.AsLimit(), now)
      ensures gas != null ==> gas.Value() == Full(gas.AsLimit(), now)
      ensures tps != null ==> tps.rate == config.txPerSecond && tps.burst == TpsBurst(config)
      ensures bytes != null ==>
                && bytes.rate == config.bytesPerSecond as real
                && bytes.burst == if config.burstSize > 0 then config.burstSize else AtMostInt(config.bytesPerSecond)
      ensures gas != null ==>
                && gas.rate == config.gasPerSecond as real
                && gas.burst == if config.burstSize > 0 then config.burstSize else AtMostInt(config.gasPerSecond)
    {
      this.config := config;
      var t, b, g: Limiter? := null, null, null;
      if config.txPerSecond > 0.0 {
        t := NewLimiter(config.txPerSecond, TpsBurst(config), now);
      }
      if config.bytesPerSecond > 0 {
        b := NewLimiter(config.bytesPerSecond as real, BytesBurst(config), now);
      }
      if config.gasPerSecond > 0 {
        g := NewLimiter(config.gasPerSecond as real, GasBurst(config), now);
      }
      tps, bytes, gas := t, b, g;
    }

    /**
     One token of the transaction limiter, then `size` of the byte limiter, then `gasLimit` of the gas limiter, each
     wait starting when the previous one has been granted.  No wait is refused.
     */
    method WaitForTransaction(now: real, size: uint64, gasLimit: uint64)
      returns (r: WaitResult, ghost byteReqs: seq<Request>, ghost gasReqs: seq<Request>)
      requires Ok() && UpTo(now)
      modifies Repr()
      ensures Ok() && r.Granted? && UpTo(r.at)
      ensures tps != null ==> tps.Value() == Reserve(old(tps.Value()), now, Seconds(tps.AsLimit(), 1))
      ensures var paid := if tps != null then Ready(tps.Value()) else now;
              var sized := if bytes != null then ChunksEnd(bytes.AsLimit(), old(bytes.Value()), paid, size) else paid;
              && now <= paid <= sized <= r.at
              && (bytes != null ==>
                    && byteReqs == Chunks(bytes.AsLimit(), old(bytes.Value()), paid, size)
                    && Charges(bytes.AsLimit(), old(bytes.Value()), byteReqs, size)
                    && bytes.Value() == After(old(bytes.Value()), byteReqs))
              && (gas != null ==>
                    && gasReqs == Chunks(gas.AsLimit(), old(gas.Value()), sized, gasLimit)
                    && Charges(gas.AsLimit(), old(gas.Value()), gasReqs, gasLimit)
                    && gas.Value() == After(old(gas.Value()), gasReqs))
              && r.at == if gas != null then ChunksEnd(gas.AsLimit(), old(gas.Value()), sized, gasLimit) else sized
    {
      r, byteReqs, gasReqs := Granted(now), [], [];
      if tps != null {
        r := tps.Wait(now, 1);
      }
      if bytes != null && size > 0 {
        r, byteReqs := WaitInChunks(bytes, BytesBurst(config), size, r.at);
      }
      if gas != null && gasLimit > 0 {
        r, gasReqs := WaitInChunks(gas, GasBurst(config), gasLimit, r.at);
      }
    }
  }
}
