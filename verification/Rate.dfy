/** Chunked use of a token bucket: reserving all chunks at once against waiting for them one by one. */
module Rate {
  import opened Api

  /** An exact token bucket; `tokens` is the level at time `last` and goes below zero while reservations are open. */
  datatype Bucket = Bucket(tokens: real, last: real, rate: real, burst: int)

  predicate Valid(b: Bucket) {
    b.rate > 0.0
  }

  function MaxReal(a: real, b: real): real {
    if a >= b then a else b
  }

  /** The level at `now`, filled at the rate and capped by the burst; a clock that went back fills nothing. */
  function Level(b: Bucket, now: real): real {
    var filled := b.tokens + MaxReal(0.0, now - b.last) * b.rate;
    if filled > b.burst as real then b.burst as real else filled
  }

  /** The time it takes to make up for `missing` tokens. */
  function Delay(missing: real, rate: real): (d: real)
    requires rate > 0.0
    ensures d >= 0.0
  {
    if missing > 0.0 then missing / rate else 0.0
  }

  function Reserve(b: Bucket, now: real, n: int): (Bucket, real)
    requires Valid(b)
  {
    var level := Level(b, now) - n as real;
    (b.(tokens := level, last := now), Delay(-level, b.rate))
  }

  function ReserveAll(b: Bucket, now: real, chunks: seq<int>): (Bucket, real)
    requires Valid(b)
    decreases |chunks|
  {
    if chunks == [] then (b, 0.0)
    else
      var (b1, delay) := Reserve(b, now, chunks[0]);
      var (b2, ready) := ReserveAll(b1, now, chunks[1..]);
      (b2, MaxReal(delay, ready))
  }

  /** Each wait starts when the one before has ended; the result is the time at which the last one ends. */
  function WaitAll(b: Bucket, now: real, chunks: seq<int>): (Bucket, real)
    requires Valid(b)
    decreases |chunks|
  {
    if chunks == [] then (b, now)
    else
      var (b1, delay) := Reserve(b, now, chunks[0]);
      WaitAll(b1, now + delay, chunks[1..])
  }

  function Chunks(bytes: int, burst: int): seq<int>
    requires burst > 0
    decreases bytes
  {
    if bytes <= 0 then []
    else if bytes > burst then [burst] + Chunks(bytes - burst, burst)
    else [bytes]
  }

  function Sum(chunks: seq<int>): int {
    if chunks == [] then 0 else chunks[0] + Sum(chunks[1..])
  }

  predicate Fits(chunks: seq<int>, burst: int) {
    forall i :: 0 <= i < |chunks| ==> 1 <= chunks[i] <= burst
  }

  /** Every count splits into chunks of one to `burst` bytes that add up to it, as few as possible. */
  lemma {:induction false} ChunksMean(bytes: int, burst: int)
    requires burst > 0
    ensures Fits(Chunks(bytes, burst), burst)
    ensures Sum(Chunks(bytes, burst)) == if bytes > 0 then bytes else 0
    ensures bytes > 0 ==> (|Chunks(bytes, burst)| - 1) * burst < bytes <= |Chunks(bytes, burst)| * burst
    decreases bytes
  {
    if bytes > burst {
      ChunksMean(bytes - burst, burst);
      assert Chunks(bytes, burst)[1..] == Chunks(bytes - burst, burst);
    }
  }

  /******* The limiter object and the two loops *******/

  class Limiter {
    var bucket: Bucket

    method ReserveN(now: real, n: int) returns (ok: bool, delay: real)
      requires Valid(bucket)
      modifies this
      ensures Valid(bucket) && bucket.burst == old(bucket.burst)
      ensures ok == (n <= bucket.burst)
      ensures ok ==> (bucket, delay) == Reserve(old(bucket), now, n)
      ensures !ok ==> bucket == old(bucket)
    {
      if n > bucket.burst {
        return false, 0.0;
      }
      var elapsed := if now < bucket.last then 0.0 else now - bucket.last;
      var tokens := bucket.tokens + elapsed * bucket.rate;
      if tokens > bucket.burst as real {
        tokens := bucket.burst as real;
      }
      tokens := tokens - n as real;
      delay := if tokens < 0.0 then -tokens / bucket.rate else 0.0;
      bucket := bucket.(tokens := tokens, last := now);
      ok := true;
    }

    /** Returns when the reserved tokens are there. A wait that is given up returns its tokens. */
    method WaitN(now: real, n: int, givenUp: bool) returns (ok: bool, end: real)
      requires Valid(bucket)
      modifies this
      ensures Valid(bucket) && bucket.burst == old(bucket.burst)
      ensures ok == (n <= bucket.burst && !givenUp)
      ensures ok ==> bucket == Reserve(old(bucket), now, n).0 && end == now + Reserve(old(bucket), now, n).1
      ensures !ok ==> bucket == old(bucket)
    {
      if givenUp {
        return false, now;
      }
      var delay: real;
      ok, delay := ReserveN(now, n);
      end := now + delay;
    }
  }

  /** The flow's non-blocking form: all chunks are reserved at one instant and the longest delay is reported. */
  method Acquire(limited: bool, limiter: Limiter?, now: real, bytes: int) returns (ready: real, ok: bool)
    requires limiter != null ==> Valid(limiter.bucket)
    modifies limiter
    ensures bytes <= 0 || !limited || limiter == null ==>
      ready == 0.0 && ok && (limiter != null ==> limiter.bucket == old(limiter.bucket))
    ensures bytes > 0 && limited && limiter != null ==>
      ok == (old(limiter.bucket.burst) > 0)
      && (ok ==> var chunks := Chunks(bytes, old(limiter.bucket.burst));
                 (limiter.bucket, ready) == ReserveAll(old(limiter.bucket), now, chunks))
      && (!ok ==> limiter.bucket == old(limiter.bucket))
  {
    if bytes <= 0 || !limited || limiter == null {
      return 0.0, true;
    }
    var burst := limiter.bucket.burst;
    if burst <= 0 {
      return 0.0, false;
    }
    ready := 0.0;
    var left := bytes;
    ghost var whole := ReserveAll(limiter.bucket, now, Chunks(bytes, burst));
    while left > 0
      invariant Valid(limiter.bucket) && limiter.bucket.burst == burst && ready >= 0.0
      invariant whole.0 == ReserveAll(limiter.bucket, now, Chunks(left, burst)).0
      invariant whole.1 == MaxReal(ready, ReserveAll(limiter.bucket, now, Chunks(left, burst)).1)
    {
      var chunk := if left > burst then burst else left;
      assert Chunks(left, burst)[1..] == Chunks(left - chunk, burst);
      var reserved, delay := limiter.ReserveN(now, chunk);
      if !reserved {
        return 0.0, false;
      }
      if delay > ready {
        ready := delay;
      }
      left := left - chunk;
    }
    ok := true;
  }

  /**
   The blocking form on the ordinary path. A wait may be given up at chunk `stop`, by cancellation or by a deadline:
   then exactly the chunks before it have been taken.
   */
  method WaitRateLimit(limiter: Limiter, now: real, bytes: int, stop: Option<nat>) returns (ok: bool, end: real)
    requires Valid(limiter.bucket)
    modifies limiter
    ensures bytes <= 0 ==> ok && end == now && limiter.bucket == old(limiter.bucket)
    ensures bytes > 0 && old(limiter.bucket.burst) <= 0 ==> !ok && limiter.bucket == old(limiter.bucket)
    ensures bytes > 0 && old(limiter.bucket.burst) > 0 ==>
      var chunks := Chunks(bytes, old(limiter.bucket.burst));
      ok == (stop.None? || stop.value >= |chunks|)
      && (ok ==> (limiter.bucket, end) == WaitAll(old(limiter.bucket), now, chunks))
      && (!ok ==> limiter.bucket == WaitAll(old(limiter.bucket), now, chunks[..stop.value]).0)
  {
    end := now;
    if bytes <= 0 {
      return true, now;
    }
    var burst := limiter.bucket.burst;
    if burst <= 0 {
      return false, now;
    }
    var left, n := bytes, 0;
    ghost var first, chunks := limiter.bucket, Chunks(bytes, burst);
    while left > 0
      invariant Valid(limiter.bucket) && limiter.bucket.burst == burst
      invariant 0 <= n <= |chunks| && Chunks(left, burst) == chunks[n..]
      invariant (limiter.bucket, end) == WaitAll(first, now, chunks[..n])
      invariant stop.Some? ==> n <= stop.value
      decreases left
    {
      var chunk := if left > burst then burst else left;
      assert Chunks(left, burst)[0] == chunk && Chunks(left, burst)[1..] == Chunks(left - chunk, burst);
      WaitSnoc(first, now, chunks, n);
      var until: real;
      ok, until := limiter.WaitN(end, chunk, stop == Some(n));
      if !ok {
        return;
      }
      end := until;
      left := left - chunk;
      n := n + 1;
    }
    assert chunks[..n] == chunks;
    ok := true;
  }

  lemma {:induction false} WaitSnoc(b: Bucket, now: real, chunks: seq<int>, n: nat)
    requires Valid(b) && n < |chunks|
    ensures var (b', end) := WaitAll(b, now, chunks[..n]);
      && Valid(b')
      && WaitAll(b, now, chunks[..n + 1]) == (Reserve(b', end, chunks[n]).0, end + Reserve(b', end, chunks[n]).1)
    decreases n
  {
    if n > 0 {
      var (b1, delay) := Reserve(b, now, chunks[0]);
      assert chunks[..n][1..] == chunks[1..][..n - 1] && chunks[..n + 1][1..] == chunks[1..][..n];
      WaitSnoc(b1, now + delay, chunks[1..], n - 1);
    }
  }

  /******* The two forms agree *******/

  lemma DelayFills(missing: real, rate: real)
    requires rate > 0.0
    ensures Delay(missing, rate) * rate == MaxReal(0.0, missing)
  {
  }

  lemma DelayAdds(a: real, b: real, rate: real)
    requires rate > 0.0 && a >= 0.0 && b >= 0.0
    ensures Delay(a, rate) + Delay(b, rate) == Delay(a + b, rate)
  {
    assert a / rate + b / rate == (a + b) / rate;
  }

  lemma DelayMonotone(a: real, b: real, rate: real)
    requires rate > 0.0 && a <= b
    ensures Delay(a, rate) <= Delay(b, rate)
  {
    if a > 0.0 {
      assert (b - a) / rate >= 0.0;
      assert a / rate + (b - a) / rate == b / rate;
    }
  }

  /** Reserving any split at one instant takes all its bytes and is ready after the missing tokens' delay. */
  lemma {:induction false} ReserveAllClosed(b: Bucket, now: real, chunks: seq<int>)
    requires Valid(b) && Fits(chunks, b.burst)
    ensures chunks != [] ==>
      ReserveAll(b, now, chunks).0 == b.(tokens := Level(b, now) - Sum(chunks) as real, last := now)
    ensures chunks != [] ==>
      ReserveAll(b, now, chunks).1 == Delay(Sum(chunks) as real - Level(b, now), b.rate)
    decreases |chunks|
  {
    if chunks != [] {
      var b1 := Reserve(b, now, chunks[0]).0;
      var rest := chunks[1..];
      ReserveAllClosed(b1, now, rest);
      assert b1.tokens <= b.burst as real;
      assert Level(b1, now) == b1.tokens;
      if rest != [] {
        SumPositive(rest, b.burst);
        DelayMonotone(-b1.tokens, Sum(rest) as real - b1.tokens, b.rate);
      }
    }
  }

  lemma {:induction false} SumPositive(chunks: seq<int>, burst: int)
    requires Fits(chunks, burst)
    ensures Sum(chunks) >= |chunks|
  {
    if chunks != [] {
      SumPositive(chunks[1..], burst);
    }
  }

  /** A wait ends with the level at zero, or never started because the tokens were there. */
  lemma AfterWait(b: Bucket, now: real, n: int)
    requires Valid(b) && 1 <= n <= b.burst
    ensures var (b1, delay) := Reserve(b, now, n);
      Level(b1, now + delay) == MaxReal(0.0, Level(b, now) - n as real)
  {
    var (b1, delay) := Reserve(b, now, n);
    DelayFills(-b1.tokens, b.rate);
    assert now + delay - b1.last == delay;
  }

  /** Waiting chunk by chunk, whatever the split, ends exactly when the one-instant reservation would be ready. */
  lemma {:induction false} WaitAllClosed(b: Bucket, now: real, chunks: seq<int>)
    requires Valid(b) && Fits(chunks, b.burst) && chunks != []
    ensures WaitAll(b, now, chunks).1 == now + Delay(Sum(chunks) as real - Level(b, now), b.rate)
    ensures var (after, end) := WaitAll(b, now, chunks);
      Level(after, end) == MaxReal(0.0, Level(b, now) - Sum(chunks) as real)
      && after.last <= end && after.rate == b.rate && after.burst == b.burst
    decreases |chunks|
  {
    var (b1, delay) := Reserve(b, now, chunks[0]);
    var rest := chunks[1..];
    AfterWait(b, now, chunks[0]);
    if rest == [] {
      assert Sum(chunks) == chunks[0];
    } else {
      WaitAllClosed(b1, now + delay, rest);
      SumPositive(rest, b.burst);
      var missing := chunks[0] as real - Level(b, now);
      if missing > 0.0 {
        DelayAdds(missing, Sum(rest) as real, b.rate);
      }
    }
  }

  /** From any moment after that, no observer can tell from the level which of the two was used. */
  lemma LevelLater(b: Bucket, from: real, later: real)
    requires Valid(b) && b.last <= from <= later
    ensures Level(b, later) == MinReal(b.burst as real, Level(b, from) + (later - from) * b.rate)
  {
    assert (later - b.last) * b.rate == (from - b.last) * b.rate + (later - from) * b.rate;
    Fills(later - from, b.rate);
  }

  lemma Fills(time: real, rate: real)
    requires time >= 0.0 && rate >= 0.0
    ensures time * rate >= 0.0
  {
  }

  lemma ReservedLevel(b: Bucket, now: real, total: real)
    requires Valid(b) && b.burst > 0 && total >= 0.0
    ensures Level(b.(tokens := Level(b, now) - total, last := now), now + Delay(total - Level(b, now), b.rate))
      == MaxReal(0.0, Level(b, now) - total)
  {
    var delay := Delay(total - Level(b, now), b.rate);
    DelayFills(total - Level(b, now), b.rate);
    assert now + delay - now == delay;
  }

  function MinReal(a: real, b: real): real {
    if a <= b then a else b
  }

  /**
   * Chunking is transparent: for every byte count both loops are ready after the time the missing tokens take, and
   * they leave the same bucket behind.
   */
  lemma ChunkingTransparent(b: Bucket, now: real, bytes: int, later: real)
    requires Valid(b) && b.burst > 0 && bytes > 0
    requires later >= WaitAll(b, now, Chunks(bytes, b.burst)).1
    ensures var chunks := Chunks(bytes, b.burst);
      var ready := Delay(bytes as real - Level(b, now), b.rate);
      && ReserveAll(b, now, chunks).1 == ready
      && WaitAll(b, now, chunks).1 == now + ready
      && Level(ReserveAll(b, now, chunks).0, later) == Level(WaitAll(b, now, chunks).0, later)
  {
    hide Level, Delay, ReserveAll, WaitAll, Chunks, Reserve;
    var chunks := Chunks(bytes, b.burst);
    ChunksMean(bytes, b.burst);
    ReserveAllClosed(b, now, chunks);
    WaitAllClosed(b, now, chunks);
    var (waited, end) := WaitAll(b, now, chunks);
    ReservedLevel(b, now, bytes as real);
    LevelLater(waited, end, later);
    LevelLater(ReserveAll(b, now, chunks).0, end, later);
  }

  /******* The rate is kept *******/

  /** A bucket never holds more than its burst, and holds just that once it has had the time to fill. */
  lemma LevelIs(b: Bucket, now: real)
    requires Valid(b) && b.last <= now
    ensures Level(b, now) <= b.burst as real
    ensures b.tokens + (now - b.last) * b.rate >= b.burst as real ==> Level(b, now) == b.burst as real
    ensures b.tokens + (now - b.last) * b.rate <= b.burst as real ==>
      Level(b, now) == b.tokens + (now - b.last) * b.rate
  {
  }

  /** However a flow splits its bytes, in no time does it move more than the burst and what the rate allows. */
  lemma ThroughputBounded(b: Bucket, now: real, chunks: seq<int>)
    requires Valid(b) && Fits(chunks, b.burst) && chunks != []
    ensures var end := WaitAll(b, now, chunks).1;
      && now <= end
      && Sum(chunks) as real <= b.burst as real + (end - now) * b.rate
  {
    hide Reserve, WaitAll, Delay, Sum;
    WaitAllClosed(b, now, chunks);
    var missing := Sum(chunks) as real - Level(b, now);
    DelayFills(missing, b.rate);
    assert WaitAll(b, now, chunks).1 - now == Delay(missing, b.rate);
  }

  /** And it is never held back longer than that: with the tokens there it goes at once. */
  lemma NoNeedlessWait(b: Bucket, now: real, chunks: seq<int>)
    requires Valid(b) && Fits(chunks, b.burst) && chunks != []
    ensures var end := WaitAll(b, now, chunks).1;
      && (Sum(chunks) as real <= Level(b, now) ==> end == now)
      && (Sum(chunks) as real >= Level(b, now) ==> (end - now) * b.rate == Sum(chunks) as real - Level(b, now))
  {
    hide Reserve, WaitAll, Sum, Level;
    WaitAllClosed(b, now, chunks);
    var missing := Sum(chunks) as real - Level(b, now);
    DelayFills(missing, b.rate);
    assert WaitAll(b, now, chunks).1 - now == Delay(missing, b.rate);
  }
}
