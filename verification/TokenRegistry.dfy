/** The registry of named buckets, and when dropping idle buckets can be noticed. */
module TokenRegistry {
  import opened TokenBuckets

  const SWEEP_INTERVAL := 600.0

  type Buckets = map<string, Bucket>

  datatype Registry = Registry(buckets: Buckets, lastSweep: real)

  function Swept(r: Registry, now: real): Registry {
    if now - r.lastSweep > SWEEP_INTERVAL
    then Registry(map k | k in r.buckets && !(now - r.buckets[k].updated > SWEEP_INTERVAL) :: r.buckets[k], now)
    else r
  }

  /** The bucket a call finds, or the full one it creates. */
  function Found(buckets: Buckets, key: string, capacity: real, refill: real, now: real): Bucket {
    if key in buckets then buckets[key] else Full(capacity, refill, now)
  }

  class TokenRegistry {
    var buckets: map<string, TokenBucket>
    var lastSweep: real

    /** Every key has a bucket of its own. */
    ghost predicate Valid()
      reads this
    {
      forall j, k :: j in buckets && k in buckets && buckets[j] == buckets[k] ==> j == k
    }

    ghost function Value(): Registry
      reads this, buckets.Values
    {
      Registry(map k | k in buckets :: buckets[k].Value(), lastSweep)
    }

    constructor ()
      ensures Valid() && Value() == Registry(map[], 0.0)
    {
      buckets, lastSweep := map[], 0.0;
    }

    /** At most every ten minutes the buckets idle for longer than that are dropped. */
    method Sweep(now: real)
      requires Valid()
      modifies this
      ensures Valid() && Value() == Swept(old(Value()), now) && buckets.Values <= old(buckets.Values)
    {
      if now - lastSweep > SWEEP_INTERVAL {
        var stale := set k | k in buckets && now - buckets[k].updated > SWEEP_INTERVAL;
        buckets := buckets - stale;
        lastSweep := now;
      }
    }

    /** The named bucket, created full on first use. */
    method FindOrCreate(key: string, capacity: real, refillPerSec: real, now: real) returns (bucket: TokenBucket)
      requires Valid()
      modifies this
      ensures Valid() && fresh(buckets.Values - old(buckets.Values)) && key in buckets && buckets[key] == bucket
      ensures
        var b := Found(old(Value()).buckets, key, capacity, refillPerSec, now);
        Value() == Registry(old(Value()).buckets[key := b], old(Value()).lastSweep) && bucket.Value() == b
    {
      hide Full;
      if key !in buckets {
        bucket := new TokenBucket(capacity, refillPerSec, now);
        buckets := buckets[key := bucket];
      }
      bucket := buckets[key];
    }

    /** Taking from one bucket changes no other. */
    method TakeFrom(key: string, bucket: TokenBucket, n: int, now: real) returns (answer: Answer)
      requires Valid() && key in buckets && buckets[key] == bucket
      modifies bucket
      ensures Valid() && buckets == old(buckets) && answer == Reply(old(bucket.Value()), n, now)
      ensures
        var taken := Taken(old(bucket.Value()), n, now);
        Value() == Registry(old(Value()).buckets[key := taken], old(Value()).lastSweep)
    {
      hide Reply, Taken;
      answer := bucket.Take(n, now);
    }

    /** One call: sweep if due, find or create the bucket, take from it. */
    method TakeTokens(key: string, capacity: real, refillPerSec: real, n: int, now: real) returns (answer: Answer)
      requires Valid()
      modifies this, buckets.Values
      ensures Valid() && fresh(buckets.Values - old(buckets.Values))
      ensures
        var r := Swept(old(Value()), now);
        var b := Found(r.buckets, key, capacity, refillPerSec, now);
        && answer == Reply(b, n, now)
        && Value() == Registry(r.buckets[key := Taken(b, n, now)], r.lastSweep)
    {
      hide Swept, Reply, Taken, Full, Found, Value;
      Sweep(now);
      var bucket := FindOrCreate(key, capacity, refillPerSec, now);
      answer := TakeFrom(key, bucket, n, now);
    }
  }

  /** A call drops a bucket exactly when no sweep came in the last ten minutes and nobody took from the bucket in the
      last ten minutes; the others stay as they are. */
  lemma SweptMeaning(r: Registry, now: real, key: string)
    ensures
      var s := Swept(r, now);
      && (key in s.buckets <==>
            key in r.buckets && (now <= r.lastSweep + 600.0 || now <= r.buckets[key].updated + 600.0))
      && (key in s.buckets ==> s.buckets[key] == r.buckets[key])
      && s.lastSweep == if now <= r.lastSweep + 600.0 then r.lastSweep else now
  {}

  // ---- Runs of calls ----

  datatype Request = Request(key: string, n: nat, now: real)

  /** The capacity and refill rate that calls with a key always pass. */
  datatype Shape = Shape(capacity: real, refill: real)

  type Shapes = string -> Shape

  function AnswersSwept(r: Registry, shapes: Shapes, requests: seq<Request>): seq<Answer>
    decreases |requests|
  {
    if requests == [] then [] else
      var q := requests[0];
      var s := Swept(r, q.now);
      var b := Found(s.buckets, q.key, shapes(q.key).capacity, shapes(q.key).refill, q.now);
      [Reply(b, q.n, q.now)]
      + AnswersSwept(Registry(s.buckets[q.key := Taken(b, q.n, q.now)], s.lastSweep), shapes, requests[1..])
  }

  /** The same calls on a registry that never drops a bucket. */
  function AnswersKept(buckets: Buckets, shapes: Shapes, requests: seq<Request>): seq<Answer>
    decreases |requests|
  {
    if requests == [] then [] else
      var q := requests[0];
      var b := Found(buckets, q.key, shapes(q.key).capacity, shapes(q.key).refill, q.now);
      [Reply(b, q.n, q.now)] + AnswersKept(buckets[q.key := Taken(b, q.n, q.now)], shapes, requests[1..])
  }

  ghost predicate InOrder(requests: seq<Request>, since: real) {
    && (forall i :: 0 <= i < |requests| ==> since <= requests[i].now)
    && (forall i, j :: 0 <= i < j < |requests| ==> requests[i].now <= requests[j].now)
  }

  /** Ten minutes refill the bucket, or it can never grant anything. */
  predicate Safe(shape: Shape) {
    shape.capacity <= Gain(shape.refill, SWEEP_INTERVAL) || shape.capacity < 1.0
  }

  ghost predicate SoundShape(shape: Shape) {
    0.0 <= shape.capacity && 0.0 <= shape.refill
  }

  /** The bucket has its key's shape; one that can never grant is still full. */
  ghost predicate Fits(b: Bucket, shape: Shape, now: real) {
    && Sound(b) && b.capacity == shape.capacity && b.refill == shape.refill && b.updated <= now
    && (shape.capacity < 1.0 ==> b.tokens == b.capacity)
  }

  /** The swept registry holds some of the kept buckets; the others have been idle for ten minutes. */
  ghost predicate Agree(swept: Buckets, kept: Buckets, shapes: Shapes, now: real) {
    && (forall k :: k in kept ==> Fits(kept[k], shapes(k), now))
    && (forall k :: k in swept ==> k in kept && swept[k] == kept[k])
    && (forall k :: k in kept && k !in swept ==> now - kept[k].updated > SWEEP_INTERVAL)
  }

  /** Once idle for ten minutes, a bucket with a safe shape acts as a new one. */
  lemma IdleIsNew(b: Bucket, shape: Shape, n: nat, now: real)
    requires Fits(b, shape, now) && Safe(shape) && now - b.updated > SWEEP_INTERVAL
    ensures Taken(b, n, now) == Taken(Full(shape.capacity, shape.refill, now), n, now)
    ensures Reply(b, n, now) == Reply(Full(shape.capacity, shape.refill, now), n, now)
  {
    hide Gain, RetryAfter;
    GainGrows(b.refill, SWEEP_INTERVAL, now - b.updated);
  }

  lemma StillFits(b: Bucket, shape: Shape, n: nat, now: real)
    requires Fits(b, shape, now)
    ensures Fits(Taken(b, n, now), shape, now)
  {
    hide Gain;
    TakenIsSound(b, n, now);
    if now - b.updated > 0.0 {
      GainGrows(b.refill, 0.0, now - b.updated);
    }
  }

  lemma SweepAgrees(r: Registry, kept: Buckets, shapes: Shapes, now: real, later: real)
    requires Agree(r.buckets, kept, shapes, now) && now <= later
    ensures Agree(Swept(r, later).buckets, kept, shapes, later)
  {
    hide Sound;
  }

  lemma CallAgrees(swept: Buckets, kept: Buckets, shapes: Shapes, q: Request)
    requires Agree(swept, kept, shapes, q.now) && Safe(shapes(q.key)) && SoundShape(shapes(q.key))
    ensures
      var s := Found(swept, q.key, shapes(q.key).capacity, shapes(q.key).refill, q.now);
      var k := Found(kept, q.key, shapes(q.key).capacity, shapes(q.key).refill, q.now);
      && Reply(s, q.n, q.now) == Reply(k, q.n, q.now)
      && Agree(swept[q.key := Taken(s, q.n, q.now)], kept[q.key := Taken(k, q.n, q.now)], shapes, q.now)
  {
    hide Taken, Reply, Safe;
    var k := Found(kept, q.key, shapes(q.key).capacity, shapes(q.key).refill, q.now);
    assert Fits(k, shapes(q.key), q.now);
    StillFits(k, shapes(q.key), q.n, q.now);
    if q.key in kept && q.key !in swept {
      IdleIsNew(k, shapes(q.key), q.n, q.now);
    }
  }

  /** With safe shapes, every sequence of calls gets the same answers with and without the sweep. */
  lemma {:induction false} SweepIsUnseen(r: Registry, kept: Buckets, shapes: Shapes, requests: seq<Request>,
                                         since: real)
    requires Agree(r.buckets, kept, shapes, since) && InOrder(requests, since)
    requires forall k :: Safe(shapes(k)) && SoundShape(shapes(k))
    ensures AnswersSwept(r, shapes, requests) == AnswersKept(kept, shapes, requests)
    decreases |requests|
  {
    hide Safe, SoundShape, Agree, Taken, Reply, Swept, Found;
    if requests != [] {
      var q := requests[0];
      var s := Swept(r, q.now);
      SweepAgrees(r, kept, shapes, since, q.now);
      CallAgrees(s.buckets, kept, shapes, q);
      var b := Found(s.buckets, q.key, shapes(q.key).capacity, shapes(q.key).refill, q.now);
      var k := Found(kept, q.key, shapes(q.key).capacity, shapes(q.key).refill, q.now);
      SweepIsUnseen(Registry(s.buckets[q.key := Taken(b, q.n, q.now)], s.lastSweep),
                    kept[q.key := Taken(k, q.n, q.now)], shapes, requests[1..], q.now);
    }
  }

  // ---- Shapes that are not safe are noticed ----

  const EMPTY_REGISTRY := Registry(map[], 0.0)

  /** Some calls from `since` on tell a registry that sweeps from one that does not, each holding the one bucket
      of `key`. */
  ghost predicate CanTell(swept: Bucket, lastSweep: real, kept: Bucket, shapes: Shapes, key: string, since: real) {
    exists requests :: InOrder(requests, since)
      && AnswersSwept(Registry(map[key := swept], lastSweep), shapes, requests)
         != AnswersKept(map[key := kept], shapes, requests)
  }

  /** The bucket that a call finds in the registry that sweeps. */
  function Left(b: Bucket, lastSweep: real, shape: Shape, now: real): Bucket {
    if now - lastSweep > SWEEP_INTERVAL && now - b.updated > SWEEP_INTERVAL
    then Full(shape.capacity, shape.refill, now) else b
  }

  function Later(lastSweep: real, now: real): real {
    if now - lastSweep > SWEEP_INTERVAL then now else lastSweep
  }

  lemma SweptStep(b: Bucket, lastSweep: real, shapes: Shapes, key: string, n: nat, now: real, rest: seq<Request>)
    ensures
      var c := Left(b, lastSweep, shapes(key), now);
      AnswersSwept(Registry(map[key := b], lastSweep), shapes, [Request(key, n, now)] + rest)
      == [Reply(c, n, now)]
         + AnswersSwept(Registry(map[key := Taken(c, n, now)], Later(lastSweep, now)), shapes, rest)
  {
    hide Reply, Taken, Full;
    var c := Left(b, lastSweep, shapes(key), now);
    var s := Swept(Registry(map[key := b], lastSweep), now);
    assert s.buckets[key := Taken(c, n, now)] == map[key := Taken(c, n, now)];
    assert ([Request(key, n, now)] + rest)[1..] == rest;
  }

  lemma KeptStep(b: Bucket, shapes: Shapes, key: string, n: nat, now: real, rest: seq<Request>)
    ensures AnswersKept(map[key := b], shapes, [Request(key, n, now)] + rest)
            == [Reply(b, n, now)] + AnswersKept(map[key := Taken(b, n, now)], shapes, rest)
  {
    hide Reply, Taken;
    assert map[key := b][key := Taken(b, n, now)] == map[key := Taken(b, n, now)];
    assert ([Request(key, n, now)] + rest)[1..] == rest;
  }

  lemma TellNow(swept: Bucket, lastSweep: real, kept: Bucket, shapes: Shapes, key: string,
                n: nat, now: real, since: real)
    requires since <= now && Reply(Left(swept, lastSweep, shapes(key), now), n, now) != Reply(kept, n, now)
    ensures CanTell(swept, lastSweep, kept, shapes, key, since)
  {
    hide Reply, Taken, AnswersSwept, AnswersKept, Left;
    SweptStep(swept, lastSweep, shapes, key, n, now, []);
    KeptStep(kept, shapes, key, n, now, []);
    var requests := [Request(key, n, now)] + [];
    assert InOrder(requests, since);
    assert AnswersSwept(Registry(map[key := swept], lastSweep), shapes, requests)[0]
        != AnswersKept(map[key := kept], shapes, requests)[0];
  }

  lemma TellLater(swept: Bucket, lastSweep: real, kept: Bucket, shapes: Shapes, key: string,
                  n: nat, now: real, since: real)
    requires since <= now
    requires CanTell(Taken(Left(swept, lastSweep, shapes(key), now), n, now), Later(lastSweep, now),
                     Taken(kept, n, now), shapes, key, now)
    ensures CanTell(swept, lastSweep, kept, shapes, key, since)
  {
    hide Reply, Taken, AnswersSwept, AnswersKept, Left, Later;
    var rest :| InOrder(rest, now)
      && AnswersSwept(Registry(map[key := Taken(Left(swept, lastSweep, shapes(key), now), n, now)],
                               Later(lastSweep, now)), shapes, rest)
         != AnswersKept(map[key := Taken(kept, n, now)], shapes, rest);
    SweptStep(swept, lastSweep, shapes, key, n, now, rest);
    KeptStep(kept, shapes, key, n, now, rest);
    var requests := [Request(key, n, now)] + rest;
    assert InOrder(requests, since);
    assert AnswersSwept(Registry(map[key := swept], lastSweep), shapes, requests)[1..]
        != AnswersKept(map[key := kept], shapes, requests)[1..];
  }

  lemma GainGrowsStrictly(refill: real, short: real, long: real)
    requires refill > 0.0 && short < long
    ensures Gain(refill, short) < Gain(refill, long)
  {}

  lemma GainOf(refill: real, amount: real)
    requires refill > 0.0
    ensures Gain(refill, amount / refill) == amount
  {}

  lemma TimeFor(refill: real, amount: real)
    requires refill > 0.0 && amount > 0.0
    ensures amount / refill > 0.0
  {}

  ghost predicate Unsafe(shape: Shape) {
    1.0 <= shape.capacity && 0.0 <= shape.refill && Gain(shape.refill, SWEEP_INTERVAL) < shape.capacity
  }

  /** Both hold less than one token, the kept bucket less: wait until the other has exactly one. */
  lemma TellByFraction(swept: Bucket, kept: Bucket, shapes: Shapes, key: string, now: real)
    requires Unsafe(shapes(key)) && shapes(key).refill > 0.0
    requires swept == Bucket(shapes(key).capacity, shapes(key).refill, swept.tokens, now)
    requires kept == Bucket(shapes(key).capacity, shapes(key).refill, kept.tokens, now)
    requires 0.0 <= kept.tokens < swept.tokens < 1.0
    ensures CanTell(swept, now, kept, shapes, key, now)
  {
    hide Gain, RetryAfter, CanTell;
    var shape := shapes(key);
    var e := (1.0 - swept.tokens) / shape.refill;
    TimeFor(shape.refill, 1.0 - swept.tokens);
    GainOf(shape.refill, 1.0 - swept.tokens);
    assert Reply(kept, 1, now + e).allowed == false;
    assert Reply(Left(swept, now, shape, now + e), 1, now + e).allowed;
    TellNow(swept, now, kept, shapes, key, 1, now + e, now);
  }

  /** An empty bucket left idle for more than ten minutes, but not long enough to fill up. */
  lemma TellFromEmpty(b: Bucket, lastSweep: real, shapes: Shapes, key: string, now: real)
    requires Unsafe(shapes(key)) && lastSweep <= now
    requires b == Bucket(shapes(key).capacity, shapes(key).refill, 0.0, now)
    ensures CanTell(b, lastSweep, b, shapes, key, now)
  {
    hide Gain, RetryAfter, CanTell;
    var shape := shapes(key);
    var d := IdleTime(shape);
    var n := shape.capacity.Floor;
    var full, part := Left(b, lastSweep, shape, now + d), Refilled(b, now + d);
    assert full == Full(shape.capacity, shape.refill, now + d);
    assert part == b.(tokens := Gain(shape.refill, d), updated := now + d);
    if part.tokens < n as real {
      TellNow(b, lastSweep, b, shapes, key, n, now + d, now);
    } else {
      assert shape.refill > 0.0 by {
        if shape.refill <= 0.0 {
          NoGain(d);
        }
      }
      TellByFraction(Taken(full, n, now + d), Taken(b, n, now + d), shapes, key, now + d);
      TellLater(b, lastSweep, b, shapes, key, n, now + d, now);
    }
  }

  lemma NoGain(elapsed: real)
    ensures Gain(0.0, elapsed) == 0.0
  {}

  /** A time over ten minutes that does not fill an unsafe bucket. */
  lemma IdleTime(shape: Shape) returns (d: real)
    requires Unsafe(shape)
    ensures d > SWEEP_INTERVAL && 0.0 <= Gain(shape.refill, d) < shape.capacity
  {
    hide Gain;
    if shape.refill == 0.0 {
      d := SWEEP_INTERVAL + 1.0;
      NoGain(d);
    } else {
      var fills := shape.capacity / shape.refill;
      GainOf(shape.refill, shape.capacity);
      if fills <= SWEEP_INTERVAL {
        if fills < SWEEP_INTERVAL {
          GainGrowsStrictly(shape.refill, fills, SWEEP_INTERVAL);
        }
      }
      d := (SWEEP_INTERVAL + fills) / 2.0;
      GainGrowsStrictly(shape.refill, d, fills);
      GainGrows(shape.refill, 0.0, d);
    }
  }

  /** Less than one token left: idle while that is still so, or wait for one token, take it and start from empty. */
  lemma TellFromFraction(b: Bucket, shapes: Shapes, key: string, now: real)
    requires Unsafe(shapes(key)) && 0.0 <= b.tokens < 1.0
    requires b == Bucket(shapes(key).capacity, shapes(key).refill, b.tokens, now)
    ensures CanTell(b, now, b, shapes, key, now)
  {
    hide Gain, RetryAfter, CanTell;
    var shape := shapes(key);
    if b.tokens == 0.0 {
      TellFromEmpty(b, now, shapes, key, now);
    } else if shape.refill == 0.0 {
      NoGain(601.0);
      TellNow(b, now, b, shapes, key, 1, now + 601.0, now);
    } else {
      var missing := 1.0 - b.tokens;
      var wait := missing / shape.refill;
      TimeFor(shape.refill, missing);
      GainOf(shape.refill, missing);
      if wait > SWEEP_INTERVAL {
        var d := (SWEEP_INTERVAL + wait) / 2.0;
        GainGrowsStrictly(shape.refill, d, wait);
        TellNow(b, now, b, shapes, key, 1, now + d, now);
      } else {
        TellFromEmpty(Taken(b, 1, now + wait), now, shapes, key, now + wait);
        TellLater(b, now, b, shapes, key, 1, now + wait, now);
      }
    }
  }

  /** From the empty registry: one call drains the whole tokens of the new bucket. */
  lemma SweepIsSeen(shapes: Shapes, key: string)
    requires Unsafe(shapes(key))
    ensures exists requests :: InOrder(requests, 0.0)
              && AnswersSwept(EMPTY_REGISTRY, shapes, requests) != AnswersKept(map[], shapes, requests)
  {
    hide Gain, RetryAfter, CanTell;
    var shape := shapes(key);
    var n := shape.capacity.Floor;
    var full := Full(shape.capacity, shape.refill, 601.0);
    TellFromFraction(Taken(full, n, 601.0), shapes, key, 601.0);
    FirstCall(shapes, key, n, 601.0);
  }

  lemma FirstCall(shapes: Shapes, key: string, n: nat, now: real)
    requires now > SWEEP_INTERVAL
    requires
      var b := Taken(Full(shapes(key).capacity, shapes(key).refill, now), n, now);
      CanTell(b, now, b, shapes, key, now)
    ensures exists requests :: InOrder(requests, 0.0)
              && AnswersSwept(EMPTY_REGISTRY, shapes, requests) != AnswersKept(map[], shapes, requests)
  {
    hide Reply, Taken, Full;
    var b := Taken(Full(shapes(key).capacity, shapes(key).refill, now), n, now);
    var rest :| InOrder(rest, now)
      && AnswersSwept(Registry(map[key := b], now), shapes, rest) != AnswersKept(map[key := b], shapes, rest);
    var requests := [Request(key, n, now)] + rest;
    assert requests[1..] == rest && InOrder(requests, 0.0);
    assert Swept(EMPTY_REGISTRY, now) == Registry(map[], now);
    assert AnswersSwept(EMPTY_REGISTRY, shapes, requests)[1..] != AnswersKept(map[], shapes, requests)[1..];
  }

  /** Dropping idle buckets is never noticed, whatever sizes the callers ask for under their keys, if and only
      if for every key ten minutes refill the bucket or the bucket is too small to grant anything. */
  lemma SweepIsTransparentIff(shapes: Shapes)
    requires forall k :: SoundShape(shapes(k))
    ensures (forall k :: shapes(k).capacity <= 600.0 * shapes(k).refill || shapes(k).capacity < 1.0) <==>
            (forall requests :: InOrder(requests, 0.0) ==>
              AnswersSwept(EMPTY_REGISTRY, shapes, requests) == AnswersKept(map[], shapes, requests))
  {
    hide AnswersSwept, AnswersKept, InOrder;
    assert forall k :: Safe(shapes(k)) <==>
      shapes(k).capacity <= 600.0 * shapes(k).refill || shapes(k).capacity < 1.0;
    if forall k :: Safe(shapes(k)) {
      forall requests | InOrder(requests, 0.0)
        ensures AnswersSwept(EMPTY_REGISTRY, shapes, requests) == AnswersKept(map[], shapes, requests)
      {
        SweepIsUnseen(EMPTY_REGISTRY, map[], shapes, requests, 0.0);
      }
    } else {
      var k :| !Safe(shapes(k));
      assert SoundShape(shapes(k));
      SweepIsSeen(shapes, k);
    }
  }
}
