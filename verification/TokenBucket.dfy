/** Token buckets over real time: what one call does, what a run of calls grants, and when to retry. */
module TokenBuckets {

  datatype Bucket = Bucket(capacity: real, refill: real, tokens: real, updated: real)

  datatype Answer = Answer(allowed: bool, retryAfter: real)

  function Min(x: real, y: real): real {
    if x <= y then x else y
  }

  /** `math.ceil` */
  function Ceil(x: real): int {
    -((-x).Floor)
  }

  /** A new bucket is full. */
  function Full(capacity: real, refill: real, now: real): Bucket {
    Bucket(capacity, refill, capacity, now)
  }

  /** What refills in the given time. */
  function Gain(refill: real, elapsed: real): real {
    elapsed * refill
  }

  function Refilled(b: Bucket, now: real): Bucket {
    if now - b.updated > 0.0
    then b.(tokens := Min(b.capacity, b.tokens + Gain(b.refill, now - b.updated)), updated := now)
    else b
  }

  function RetryAfter(b: Bucket, n: int): real {
    var wait := if b.refill > 0.0 then Ceil((n as real - b.tokens) / b.refill) as real else 60.0;
    if wait < 1.0 then 1.0 else wait
  }

  function Taken(b: Bucket, n: int, now: real): Bucket {
    var c := Refilled(b, now);
    if c.tokens >= n as real then c.(tokens := c.tokens - n as real) else c
  }

  function Reply(b: Bucket, n: int, now: real): Answer {
    var c := Refilled(b, now);
    if c.tokens >= n as real then Answer(true, 0.0) else Answer(false, RetryAfter(c, n))
  }

  class TokenBucket {
    const capacity: real
    const refillPerSec: real
    var tokens: real
    var updated: real

    function Value(): Bucket
      reads this
    {
      Bucket(capacity, refillPerSec, tokens, updated)
    }

    constructor (capacity: real, refillPerSec: real, now: real)
      ensures Value() == Full(capacity, refillPerSec, now)
    {
      this.capacity, this.refillPerSec, tokens, updated := capacity, refillPerSec, capacity, now;
    }

    method Refill(now: real)
      modifies this
      ensures Value() == Refilled(old(Value()), now)
    {
      var elapsed := now - updated;
      if elapsed > 0.0 {
        tokens := Min(capacity, tokens + Gain(refillPerSec, elapsed));
        updated := now;
      }
    }

    method Take(n: int, now: real) returns (answer: Answer)
      modifies this
      ensures Value() == Taken(old(Value()), n, now) && answer == Reply(old(Value()), n, now)
    {
      Refill(now);
      if tokens >= n as real {
        tokens := tokens - n as real;
        return Answer(true, 0.0);
      }
      var deficit := n as real - tokens;
      var retryAfter := if refillPerSec > 0.0 then Ceil(deficit / refillPerSec) as real else 60.0;
      answer := Answer(false, if retryAfter < 1.0 then 1.0 else retryAfter);
    }
  }

  // ---- Bounds ----

  predicate Sound(b: Bucket) {
    0.0 <= b.refill && 0.0 <= b.tokens <= b.capacity
  }

  lemma GainGrows(refill: real, short: real, long: real)
    requires 0.0 <= refill && 0.0 <= short <= long
    ensures 0.0 <= Gain(refill, short) <= Gain(refill, long)
  {}

  lemma GainAdds(refill: real, first: real, second: real)
    ensures Gain(refill, first) + Gain(refill, second) == Gain(refill, first + second)
  {}

  /** The token count stays between nothing and the capacity, whatever is asked for and refused. */
  lemma TakenIsSound(b: Bucket, n: nat, now: real)
    requires Sound(b)
    ensures Sound(Taken(b, n, now)) && Taken(b, n, now).capacity == b.capacity && Taken(b, n, now).refill == b.refill
    ensures b.updated <= now ==> Taken(b, n, now).updated == now
  {
    hide Gain;
    if now - b.updated > 0.0 {
      GainGrows(b.refill, 0.0, now - b.updated);
    }
  }

  datatype Call = Call(n: nat, now: real)

  /** The clock does not go back, and starts no earlier than `since`. */
  ghost predicate Ordered(calls: seq<Call>, since: real) {
    && (forall i :: 0 <= i < |calls| ==> since <= calls[i].now)
    && (forall i, j :: 0 <= i < j < |calls| ==> calls[i].now <= calls[j].now)
  }

  function Final(b: Bucket, calls: seq<Call>): Bucket
    decreases |calls|
  {
    if calls == [] then b else Final(Taken(b, calls[0].n, calls[0].now), calls[1..])
  }

  /** Tokens granted by the calls made between `from` and `to`. */
  function Granted(b: Bucket, calls: seq<Call>, from: real, to: real): real
    decreases |calls|
  {
    if calls == [] then 0.0 else
      var c := calls[0];
      (if from <= c.now <= to && Reply(b, c.n, c.now).allowed then c.n as real else 0.0)
      + Granted(Taken(b, c.n, c.now), calls[1..], from, to)
  }

  lemma OrderedTail(calls: seq<Call>, since: real)
    requires Ordered(calls, since) && calls != []
    ensures Ordered(calls[1..], calls[0].now) && since <= calls[0].now
  {}

  lemma {:induction false} RunIsSound(b: Bucket, calls: seq<Call>)
    requires Sound(b) && Ordered(calls, b.updated)
    ensures Sound(Final(b, calls)) && Final(b, calls).capacity == b.capacity
    decreases |calls|
  {
    hide Taken, Sound;
    if calls != [] {
      OrderedTail(calls, b.updated);
      TakenIsSound(b, calls[0].n, calls[0].now);
      RunIsSound(Taken(b, calls[0].n, calls[0].now), calls[1..]);
    }
  }

  /** One call at `now`: what is granted and what is left add up to no more than what was there. */
  lemma OneCall(b: Bucket, n: nat, now: real)
    requires Sound(b) && b.updated <= now
    ensures
      var granted := if Reply(b, n, now).allowed then n as real else 0.0;
      && granted + Taken(b, n, now).tokens <= b.tokens + Gain(b.refill, now - b.updated)
      && granted + Taken(b, n, now).tokens <= b.capacity
  {
    hide Gain, RetryAfter;
    GainGrows(b.refill, 0.0, now - b.updated);
  }

  /** From the bucket's own time on, no more is granted than it holds plus what refills. */
  lemma {:induction false} GrantedFromNow(b: Bucket, calls: seq<Call>, from: real, to: real)
    requires Sound(b) && Ordered(calls, b.updated)
    ensures Granted(b, calls, from, to) <= if b.updated <= to then b.tokens + Gain(b.refill, to - b.updated) else 0.0
    decreases |calls|
  {
    hide Gain, Taken, Reply;
    if b.updated <= to {
      GainGrows(b.refill, 0.0, to - b.updated);
    }
    if calls != [] {
      var c := calls[0];
      var b' := Taken(b, c.n, c.now);
      OrderedTail(calls, b.updated);
      TakenIsSound(b, c.n, c.now);
      GrantedFromNow(b', calls[1..], from, to);
      if c.now <= to {
        OneCall(b, c.n, c.now);
        GainAdds(b.refill, c.now - b.updated, to - c.now);
      }
    }
  }

  /** Over any interval the bucket grants at most its capacity plus what refills during the interval. */
  lemma {:induction false} GrantedIsBounded(b: Bucket, calls: seq<Call>, from: real, to: real)
    requires Sound(b) && Ordered(calls, b.updated) && from <= to
    ensures Granted(b, calls, from, to) <= b.capacity + Gain(b.refill, to - from)
    decreases |calls|
  {
    hide Gain, Taken, Reply;
    GainGrows(b.refill, 0.0, to - from);
    if calls != [] {
      var c := calls[0];
      var b' := Taken(b, c.n, c.now);
      OrderedTail(calls, b.updated);
      TakenIsSound(b, c.n, c.now);
      if c.now < from {
        GrantedIsBounded(b', calls[1..], from, to);
      } else {
        GrantedFromNow(b', calls[1..], from, to);
        OneCall(b, c.n, c.now);
        if c.now <= to {
          GainGrows(b.refill, to - c.now, to - from);
        }
      }
    }
  }

  // ---- Retrying ----

  /** Every call of the run is refused. */
  predicate AllRefused(b: Bucket, calls: seq<Call>)
    decreases |calls|
  {
    calls != [] ==>
      && !Reply(b, calls[0].n, calls[0].now).allowed
      && AllRefused(Taken(b, calls[0].n, calls[0].now), calls[1..])
  }

  /** Refilling twice is refilling once. */
  lemma RefillTwice(b: Bucket, now: real, later: real)
    requires Sound(b) && b.updated <= now <= later
    ensures Refilled(Refilled(b, now), later).tokens == Refilled(b, later).tokens
  {
    hide Gain;
    GainGrows(b.refill, 0.0, later - now);
    GainAdds(b.refill, now - b.updated, later - now);
  }

  lemma RefusedIsRefilled(b: Bucket, n: nat, now: real)
    requires !Reply(b, n, now).allowed
    ensures Taken(b, n, now) == Refilled(b, now) && Refilled(b, now).tokens < n as real
    ensures Reply(b, n, now).retryAfter == RetryAfter(Refilled(b, now), n)
  {
    hide Gain, RetryAfter;
  }

  /** Refused polls do not change what the bucket holds at any later time. */
  lemma {:induction false} PollsDoNotMatter(b: Bucket, polls: seq<Call>, later: real)
    requires Sound(b) && Ordered(polls, b.updated) && AllRefused(b, polls)
    requires b.updated <= later && forall i :: 0 <= i < |polls| ==> polls[i].now <= later
    ensures Refilled(Final(b, polls), later).tokens == Refilled(b, later).tokens
    decreases |polls|
  {
    hide Taken, Reply, Refilled, Sound;
    if polls != [] {
      var c := polls[0];
      var b' := Taken(b, c.n, c.now);
      OrderedTail(polls, b.updated);
      TakenIsSound(b, c.n, c.now);
      PollsDoNotMatter(b', polls[1..], later);
      RefusedIsRefilled(b, c.n, c.now);
      RefillTwice(b, c.now, later);
    }
  }

  lemma CeilMeaning(x: real, k: int)
    ensures Ceil(x) <= k <==> x <= k as real
  {}

  lemma QuotientMeaning(d: real, r: real, k: real)
    requires r > 0.0
    ensures d / r <= k <==> d <= Gain(r, k)
  {
    assert d == (d / r) * r;
    if d / r <= k {
      assert (d / r) * r <= k * r;
    } else {
      assert (d / r) * r > k * r;
    }
  }

  /** A whole number of seconds, at least one, is long enough exactly if it is no smaller than the answer. */
  lemma RetryMeaning(b: Bucket, n: nat, seconds: nat)
    requires Sound(b) && b.refill > 0.0 && n as real <= b.capacity && seconds >= 1
    ensures seconds as real >= RetryAfter(b, n) <==>
            Refilled(b, b.updated + seconds as real).tokens >= n as real
  {
    hide Gain, Ceil;
    var d := (n as real - b.tokens) / b.refill;
    CeilMeaning(d, seconds);
    QuotientMeaning(n as real - b.tokens, b.refill, seconds as real);
  }

  /** The returned number of seconds is exact: a whole number of seconds later the same request is granted
      if and only if that number is no smaller, however often it was polled in between without success. */
  lemma RetryIsExact(b: Bucket, n: nat, now: real, polls: seq<Call>, seconds: nat)
    requires Sound(b) && b.refill > 0.0 && b.updated <= now && n as real <= b.capacity && seconds >= 1
    requires !Reply(b, n, now).allowed
    requires Ordered(polls, now) && AllRefused(Taken(b, n, now), polls)
    requires forall i :: 0 <= i < |polls| ==> polls[i].now <= now + seconds as real
    ensures Reply(Final(Taken(b, n, now), polls), n, now + seconds as real).allowed
            <==> seconds as real >= Reply(b, n, now).retryAfter
  {
    hide Taken, Refilled, RetryAfter;
    var c := Taken(b, n, now);
    TakenIsSound(b, n, now);
    RefusedIsRefilled(b, n, now);
    PollsDoNotMatter(c, polls, now + seconds as real);
    RetryMeaning(c, n, seconds);
  }

  // ---- What is there is granted ----

  /** A bucket fills with its rate up to its capacity; a clock that goes back changes nothing. */
  lemma RefilledMeaning(b: Bucket, now: real)
    requires Sound(b)
    ensures var r := Refilled(b, now);
      && r.capacity == b.capacity && r.refill == b.refill
      && (now <= b.updated ==> r == b)
      && (b.updated <= now ==>
            && r.updated == now
            && (b.tokens + (now - b.updated) * b.refill <= b.capacity ==>
                  r.tokens == b.tokens + (now - b.updated) * b.refill)
            && (b.tokens + (now - b.updated) * b.refill >= b.capacity ==> r.tokens == b.capacity))
  {
    if now == b.updated {
      assert (now - b.updated) * b.refill == 0.0;
    }
  }

  /** The tokens that a refill loses because the bucket is full. */
  function Spilt(b: Bucket, now: real): real {
    if b.tokens + Gain(b.refill, now - b.updated) > b.capacity
    then b.tokens + Gain(b.refill, now - b.updated) - b.capacity
    else 0.0
  }

  function SpiltInAll(b: Bucket, calls: seq<Call>): real
    decreases |calls|
  {
    if calls == [] then 0.0 else
      Spilt(b, calls[0].now) + SpiltInAll(Taken(b, calls[0].n, calls[0].now), calls[1..])
  }

  lemma NoTimeNoGain(refill: real)
    ensures Gain(refill, 0.0) == 0.0
  {}

  /** One call: what is granted, what is left and what is spilt are what was there and what came in. */
  lemma OneCallAccount(b: Bucket, n: nat, now: real)
    requires Sound(b) && b.updated <= now
    ensures
      var granted := if Reply(b, n, now).allowed then n as real else 0.0;
      granted + Taken(b, n, now).tokens + Spilt(b, now) == b.tokens + Gain(b.refill, now - b.updated)
  {
    hide Gain, RetryAfter;
    NoTimeNoGain(b.refill);
  }

  /** No token is lost or made: over any run, what is granted, what is left and what a full bucket spilt add up to what
      was there at the start and what came in since. */
  lemma {:induction false} AccountIsExact(b: Bucket, calls: seq<Call>, to: real)
    requires Sound(b) && Ordered(calls, b.updated) && forall i :: 0 <= i < |calls| ==> calls[i].now <= to
    ensures Granted(b, calls, b.updated, to) + Final(b, calls).tokens + SpiltInAll(b, calls)
         == b.tokens + Gain(b.refill, Final(b, calls).updated - b.updated)
    decreases |calls|
  {
    hide Gain, Taken, Reply, Spilt;
    if calls == [] {
      NoTimeNoGain(b.refill);
    } else {
      var c := calls[0];
      var b' := Taken(b, c.n, c.now);
      OrderedTail(calls, b.updated);
      TakenIsSound(b, c.n, c.now);
      OneCallAccount(b, c.n, c.now);
      AccountIsExact(b', calls[1..], to);
      EarlierFrom(b', calls[1..], b.updated, b'.updated, to);
      GainAdds(b.refill, b'.updated - b.updated, Final(b, calls).updated - b'.updated);
    }
  }

  /** Where counting starts does not matter before the first call. */
  lemma {:induction false} EarlierFrom(b: Bucket, calls: seq<Call>, from: real, later: real, to: real)
    requires from <= later && forall i :: 0 <= i < |calls| ==> later <= calls[i].now
    ensures Granted(b, calls, from, to) == Granted(b, calls, later, to)
    decreases |calls|
  {
    hide Taken, Reply;
    if calls != [] {
      EarlierFrom(Taken(b, calls[0].n, calls[0].now), calls[1..], from, later, to);
    }
  }

  /** A refill spills nothing while there is room for it. */
  lemma NothingSpilt(b: Bucket, now: real)
    ensures Spilt(b, now) >= 0.0
    ensures b.tokens + (now - b.updated) * b.refill <= b.capacity ==> Spilt(b, now) == 0.0
  {}

  function Sum(calls: seq<Call>): nat {
    if calls == [] then 0 else calls[0].n + Sum(calls[1..])
  }

  /** Every call of the run is granted. */
  predicate AllGranted(b: Bucket, calls: seq<Call>)
    decreases |calls|
  {
    calls != [] ==>
      && Reply(b, calls[0].n, calls[0].now).allowed
      && AllGranted(Taken(b, calls[0].n, calls[0].now), calls[1..])
  }

  /** Calls at one instant are all granted exactly when together they ask for no more than the bucket then holds, and
      they take what they ask for. */
  lemma {:induction false} GrantedAtOnceIff(b: Bucket, calls: seq<Call>, now: real)
    requires Sound(b) && b.updated <= now && forall i :: 0 <= i < |calls| ==> calls[i].now == now
    ensures AllGranted(b, calls) <==> Sum(calls) as real <= Refilled(b, now).tokens
    ensures AllGranted(b, calls) ==>
              Refilled(Final(b, calls), now).tokens == Refilled(b, now).tokens - Sum(calls) as real
    decreases |calls|
  {
    if calls == [] {
      RefilledIsSound(b, now);
    } else {
      var b' := Taken(b, calls[0].n, now);
      TakenIsSound(b, calls[0].n, now);
      GrantedAtOnceIff(b', calls[1..], now);
      TakenAtOnce(b, calls[0].n, now);
      hide Taken, Reply, Refilled, Sound;
    }
  }

  lemma RefilledIsSound(b: Bucket, now: real)
    requires Sound(b)
    ensures Sound(Refilled(b, now))
  {
    hide Gain;
    if now > b.updated {
      GainGrows(b.refill, 0.0, now - b.updated);
    }
  }

  lemma TakenAtOnce(b: Bucket, n: nat, now: real)
    requires Sound(b) && b.updated <= now
    ensures Reply(b, n, now).allowed <==> n as real <= Refilled(b, now).tokens
    ensures Reply(b, n, now).allowed ==>
              Refilled(Taken(b, n, now), now).tokens == Refilled(b, now).tokens - n as real
  {
    hide Gain, RetryAfter;
  }

  /** A new bucket grants its whole capacity at once, and not a token more. */
  lemma NewBucketGrants(capacity: real, refill: real, now: real, calls: seq<Call>)
    requires 0.0 <= capacity && 0.0 <= refill && forall i :: 0 <= i < |calls| ==> calls[i].now == now
    ensures AllGranted(Full(capacity, refill, now), calls) <==> Sum(calls) as real <= capacity
  {
    hide AllGranted, Sum, Gain;
    GrantedAtOnceIff(Full(capacity, refill, now), calls, now);
  }

  // ---- What a refusal says ----

  /** `k` is the least whole number, at least one, of seconds in which `missing` tokens come in. */
  ghost predicate IsLeastWait(refill: real, missing: real, k: nat) {
    k >= 1 && missing <= k as real * refill && (k == 1 || (k - 1) as real * refill < missing)
  }

  /** A grant says nothing of waiting; a refusal names the least whole number of seconds, at least one, in which the
      missing tokens come in, and a minute if none come in. */
  lemma RetryIsLeast(b: Bucket, n: nat, now: real)
    requires Sound(b) && b.updated <= now
    ensures
      var answer := Reply(b, n, now);
      var missing := n as real - Refilled(b, now).tokens;
      && (answer.allowed <==> missing <= 0.0)
      && (answer.allowed ==> answer.retryAfter == 0.0)
      && (!answer.allowed && b.refill == 0.0 ==> answer.retryAfter == 60.0)
      && (!answer.allowed && b.refill > 0.0 ==>
            exists k: nat :: answer.retryAfter == k as real && IsLeastWait(b.refill, missing, k))
  {
    hide Ceil;
    if !Reply(b, n, now).allowed && b.refill > 0.0 {
      var missing := n as real - Refilled(b, now).tokens;
      var k := Ceil(missing / b.refill);
      CeilMeaning(missing / b.refill, k);
      CeilMeaning(missing / b.refill, k - 1);
      CeilMeaning(missing / b.refill, 1);
      QuotientMeaning(missing, b.refill, k as real);
      QuotientMeaning(missing, b.refill, (k - 1) as real);
      QuotientMeaning(missing, b.refill, 1.0);
      assert Reply(b, n, now).retryAfter == k as real && IsLeastWait(b.refill, missing, k);
    }
  }
}
