/** `limiter.rs`: a token bucket refilled only when somebody asks. Tokens and seconds are exact reals. */
module Limiter {

  datatype Bucket = Bucket(tokens: real, lastRefill: real)

  datatype Limits = Limits(capacity: real, refillPerSec: real)

  function MinR(a: real, b: real): real {
    if a <= b then a else b
  }

  function MaxR(a: real, b: real): real {
    if a >= b then a else b
  }

  /** What the constructor makes of any limits: capacity at least 1, rate at least 0. */
  ghost predicate Proper(l: Limits) {
    l.capacity >= 1.0 && l.refillPerSec >= 0.0
  }

  /** Tokens that `seconds` bring in. */
  function Gain(l: Limits, seconds: real): real {
    seconds * l.refillPerSec
  }

  lemma GainAdds(l: Limits, a: real, b: real)
    ensures Gain(l, a) + Gain(l, b) == Gain(l, a + b)
  {
  }

  lemma GainIs(l: Limits, seconds: real)
    ensures Gain(l, seconds) == l.refillPerSec * seconds
  {
  }

  lemma GainNonNegative(l: Limits, a: real)
    requires Proper(l) && a >= 0.0
    ensures Gain(l, a) >= 0.0
  {
  }

  function Refill(l: Limits, b: Bucket, now: real): Bucket {
    var elapsed := MaxR(now - b.lastRefill, 0.0);
    if elapsed > 0.0 then Bucket(MinR(b.tokens + Gain(l, elapsed), l.capacity), now) else b
  }

  /** The bucket after asking for `n` tokens at `now`, and whether they were granted. */
  function TryAcquire(l: Limits, b: Bucket, n: real, now: real): (Bucket, bool) {
    var full := Refill(l, b, now);
    if full.tokens >= n then (full.(tokens := full.tokens - n), true) else (full, false)
  }

  /** A request is granted exactly when it fits the bucket and there are, or have come in since, enough tokens. */
  lemma GrantedIff(l: Limits, b: Bucket, n: real, now: real)
    requires Proper(l) && InRange(l, b)
    ensures now >= b.lastRefill ==>
              (TryAcquire(l, b, n, now).1 <==> n <= l.capacity && n <= b.tokens + l.refillPerSec * (now - b.lastRefill))
    ensures now < b.lastRefill ==> (TryAcquire(l, b, n, now).1 <==> n <= b.tokens)
  {
    hide Gain;
    GainIs(l, now - b.lastRefill);
    if now >= b.lastRefill {
      GainNonNegative(l, now - b.lastRefill);
    }
    GainAdds(l, 0.0, 0.0);
  }

  /** Over a refilling bucket: exactly when it is small enough and the tokens that are missing have had the time to come in. */
  lemma WaitIff(l: Limits, b: Bucket, n: real, now: real)
    requires Proper(l) && InRange(l, b) && l.refillPerSec > 0.0 && now >= b.lastRefill
    ensures TryAcquire(l, b, n, now).1 <==>
              n <= l.capacity && now >= b.lastRefill + (n - b.tokens) / l.refillPerSec
  {
    hide TryAcquire;
    GrantedIff(l, b, n, now);
    DivideBy(n - b.tokens, now - b.lastRefill, l.refillPerSec);
  }

  lemma DivideBy(x: real, y: real, d: real)
    requires d > 0.0
    ensures x <= d * y <==> x / d <= y
  {
    var q := x / d;
    assert x == q * d;
    if q <= y {
      Scales(q, y, d);
    } else {
      assert q * d - y * d == (q - y) * d > 0.0;
    }
  }

  lemma MissesLess(n: real, tokens: real, rate: real)
    requires tokens >= 0.0 && rate > 0.0
    ensures (n - tokens) / rate <= n / rate
  {
    DivideBy(n - tokens, n / rate, rate);
  }

  lemma Scales(a: real, b: real, d: real)
    requires a <= b && d >= 0.0
    ensures a * d <= b * d
  {
    assert b * d - a * d == (b - a) * d;
  }

  ghost predicate InRange(l: Limits, b: Bucket) {
    0.0 <= b.tokens <= l.capacity
  }

  lemma RefillInRange(l: Limits, b: Bucket, now: real)
    requires Proper(l) && InRange(l, b)
    ensures var b' := Refill(l, b, now);
            InRange(l, b') && b'.tokens >= b.tokens
    ensures now >= b.lastRefill ==>
              Refill(l, b, now).tokens <= b.tokens + Gain(l, now - b.lastRefill) && Refill(l, b, now).lastRefill == now
  {
    var elapsed := now - b.lastRefill;
    if elapsed >= 0.0 {
      GainNonNegative(l, elapsed);
    }
  }

  /** Tokens stay within the bucket for every bucket state exactly when the request is not negative. */
  lemma StaysInRangeIff(l: Limits, n: real)
    requires Proper(l)
    ensures (forall b: Bucket, now: real :: InRange(l, b) ==> InRange(l, TryAcquire(l, b, n, now).0)) <==> n >= 0.0
  {
    if n >= 0.0 {
      forall b: Bucket, now: real | InRange(l, b)
        ensures InRange(l, TryAcquire(l, b, n, now).0)
      {
        RefillInRange(l, b, now);
      }
    } else {
      var b := Bucket(l.capacity, 0.0);
      assert InRange(l, b) && !InRange(l, TryAcquire(l, b, n, 0.0).0);
    }
  }

  // ---- Runs -----------------------------------------------------------------------------------

  /** A request for `n` tokens at `at`; or a mere refill. */
  datatype Event = Ask(at: real, n: real) | Touch(at: real)

  ghost predicate Timely(start: real, events: seq<Event>)
    decreases |events|
  {
    events != [] ==> start <= events[0].at && Timely(events[0].at, events[1..])
  }

  ghost predicate NonNegative(events: seq<Event>) {
    forall e :: e in events && e.Ask? ==> e.n >= 0.0
  }

  function After(l: Limits, b: Bucket, e: Event): Bucket {
    match e
    case Ask(at, n) => TryAcquire(l, b, n, at).0
    case Touch(at) => Refill(l, b, at)
  }

  function Granted(l: Limits, b: Bucket, events: seq<Event>): real
    decreases |events|
  {
    if events == [] then 0.0 else
      (if events[0].Ask? && TryAcquire(l, b, events[0].n, events[0].at).1 then events[0].n else 0.0)
      + Granted(l, After(l, b, events[0]), events[1..])
  }

  function EndTime(start: real, events: seq<Event>): real
    decreases |events|
  {
    if events == [] then start else EndTime(events[0].at, events[1..])
  }

  function Replay(l: Limits, b: Bucket, events: seq<Event>): Bucket
    decreases |events|
  {
    if events == [] then b else Replay(l, After(l, b, events[0]), events[1..])
  }

  /** What a refill at `at` brings in above the capacity. */
  function Spill(l: Limits, b: Bucket, at: real): real {
    var full := b.tokens + l.refillPerSec * (at - b.lastRefill);
    if full > l.capacity then full - l.capacity else 0.0
  }

  function Spilled(l: Limits, b: Bucket, events: seq<Event>): real
    decreases |events|
  {
    if events == [] then 0.0 else
      Spill(l, b, events[0].at) + Spilled(l, After(l, b, events[0]), events[1..])
  }

  lemma {:induction false} SpillsNoLess(l: Limits, b: Bucket, events: seq<Event>)
    ensures Spilled(l, b, events) >= 0.0
    decreases |events|
  {
    if events != [] {
      SpillsNoLess(l, After(l, b, events[0]), events[1..]);
    }
  }

  lemma StepConserved(l: Limits, b: Bucket, e: Event)
    requires Proper(l) && InRange(l, b) && b.lastRefill <= e.at && (e.Ask? ==> e.n >= 0.0)
    ensures var b' := After(l, b, e);
            && InRange(l, b') && b'.lastRefill == e.at
            && (if e.Ask? && TryAcquire(l, b, e.n, e.at).1 then e.n else 0.0) + b'.tokens
               + Spill(l, b, e.at) == b.tokens + Gain(l, e.at - b.lastRefill)
  {
    hide Gain;
    GainIs(l, e.at - b.lastRefill);
    GainNonNegative(l, e.at - b.lastRefill);
    RefillInRange(l, b, e.at);
    GainAdds(l, 0.0, 0.0);
  }

  lemma {:induction false} TokensAddUp(l: Limits, b: Bucket, events: seq<Event>)
    requires Proper(l) && InRange(l, b) && Timely(b.lastRefill, events) && NonNegative(events)
    ensures InRange(l, Replay(l, b, events)) && Replay(l, b, events).lastRefill == EndTime(b.lastRefill, events)
    ensures Granted(l, b, events) + Replay(l, b, events).tokens + Spilled(l, b, events)
            == b.tokens + Gain(l, EndTime(b.lastRefill, events) - b.lastRefill)
    decreases |events|
  {
    hide Gain, After, TryAcquire, Spill;
    if events != [] {
      var e := events[0];
      StepConserved(l, b, e);
      assert forall x :: x in events[1..] ==> x in events;
      TokensAddUp(l, After(l, b, e), events[1..]);
      GainAdds(l, EndTime(e.at, events[1..]) - e.at, e.at - b.lastRefill);
    } else {
      GainAdds(l, 0.0, 0.0);
    }
  }

  /** Over any run every token is accounted for: granted, still there, or spilled over the brim. */
  lemma Conserved(l: Limits, b: Bucket, events: seq<Event>)
    requires Proper(l) && InRange(l, b) && Timely(b.lastRefill, events) && NonNegative(events)
    ensures InRange(l, Replay(l, b, events)) && Replay(l, b, events).lastRefill == EndTime(b.lastRefill, events)
    ensures Granted(l, b, events) + Replay(l, b, events).tokens + Spilled(l, b, events)
            == b.tokens + l.refillPerSec * (EndTime(b.lastRefill, events) - b.lastRefill)
  {
    hide Gain, Granted, Replay, Spilled, EndTime, Timely, NonNegative;
    TokensAddUp(l, b, events);
    GainIs(l, EndTime(b.lastRefill, events) - b.lastRefill);
  }

  /** What a run grants and what is left in the bucket come from what was there and what was refilled. */
  lemma GrantedBound(l: Limits, b: Bucket, events: seq<Event>)
    requires Proper(l) && InRange(l, b) && Timely(b.lastRefill, events) && NonNegative(events)
    ensures InRange(l, Replay(l, b, events))
    ensures Granted(l, b, events) + Replay(l, b, events).tokens
            <= b.tokens + l.refillPerSec * (EndTime(b.lastRefill, events) - b.lastRefill)
  {
    hide Gain, Granted, Replay, EndTime;
    Conserved(l, b, events);
    SpillsNoLess(l, b, events);
  }

  lemma {:induction false} ReplayConcat(l: Limits, b: Bucket, a: seq<Event>, c: seq<Event>)
    ensures Replay(l, b, a + c) == Replay(l, Replay(l, b, a), c)
    decreases |a|
  {
    if a == [] {
      assert a + c == c;
    } else {
      ReplayConcat(l, After(l, b, a[0]), a[1..], c);
      assert (a + c)[1..] == a[1..] + c;
    }
  }

  /**
    In any window of any run, from the first event in it to the last, no more is granted than a full bucket
    plus the refill over the window's length.
   */
  lemma WindowBound(l: Limits, b: Bucket, before: seq<Event>, window: seq<Event>)
    requires Proper(l) && InRange(l, b) && window != []
    requires Timely(b.lastRefill, before + window) && NonNegative(before + window)
    ensures Granted(l, Replay(l, b, before), window)
            <= l.capacity + l.refillPerSec * (EndTime(window[0].at, window[1..]) - window[0].at)
  {
    hide Gain, Refill, Granted, Replay, EndTime, Timely, NonNegative;
    TimelySplit(l, b, before, window);
    NonNegativeSplit(before, window);
    GrantedBound(l, b, before);
    var mid := Replay(l, b, before);
    var full := Refill(l, mid, window[0].at);
    RefillInRange(l, mid, window[0].at);
    RefilledGrants(l, mid, window);
    GrantedBound(l, full, window);
    EndsLater(window);
  }

  /**
    After any run, waiting for the tokens that are missing gets any request up to the capacity granted; waiting
    `n / refillPerSec` always does.
   */
  lemma WaitingIsEnough(l: Limits, b: Bucket, events: seq<Event>, n: real, now: real)
    requires Proper(l) && InRange(l, b) && Timely(b.lastRefill, events) && NonNegative(events)
    requires l.refillPerSec > 0.0 && n <= l.capacity && now >= EndTime(b.lastRefill, events)
    ensures var end, left := EndTime(b.lastRefill, events), Replay(l, b, events);
            && (TryAcquire(l, left, n, now).1 <==> now >= end + (n - left.tokens) / l.refillPerSec)
            && (now >= end + n / l.refillPerSec ==> TryAcquire(l, left, n, now).1)
  {
    hide TryAcquire, Replay, EndTime;
    Conserved(l, b, events);
    var left := Replay(l, b, events);
    WaitIff(l, left, n, now);
    MissesLess(n, left.tokens, l.refillPerSec);
  }

  lemma NonNegativeSplit(a: seq<Event>, c: seq<Event>)
    requires NonNegative(a + c)
    ensures NonNegative(a) && NonNegative(c)
  {
    assert forall x :: x in a || x in c ==> x in a + c;
  }

  lemma RefilledGrants(l: Limits, b: Bucket, window: seq<Event>)
    requires Proper(l) && InRange(l, b) && window != [] && b.lastRefill <= window[0].at
    ensures Granted(l, Refill(l, b, window[0].at), window) == Granted(l, b, window)
  {
    hide Gain, Refill;
    RefillTwice(l, b, window[0].at, window[0].at);
  }

  lemma EndsLater(window: seq<Event>)
    requires window != []
    ensures EndTime(window[0].at, window) == EndTime(window[0].at, window[1..])
  {
  }

  lemma {:induction false} TimelySplit(l: Limits, b: Bucket, before: seq<Event>, window: seq<Event>)
    requires window != [] && Timely(b.lastRefill, before + window)
    ensures Timely(b.lastRefill, before)
    ensures Replay(l, b, before).lastRefill <= window[0].at
    ensures Timely(window[0].at, window)
    decreases |before|
  {
    if before == [] {
      assert before + window == window;
    } else {
      assert (before + window)[1..] == before[1..] + window;
      TimelySplit(l, After(l, b, before[0]), before[1..], window);
    }
  }

  // ---- Lazy refilling -------------------------------------------------------------------------

  /** Refilling on the way changes nothing. */
  lemma RefillTwice(l: Limits, b: Bucket, t: real, now: real)
    requires Proper(l) && InRange(l, b) && b.lastRefill <= t <= now
    ensures Refill(l, Refill(l, b, t), now) == Refill(l, b, now)
  {
    hide Gain;
    GainAdds(l, t - b.lastRefill, now - t);
    GainNonNegative(l, now - t);
    GainNonNegative(l, t - b.lastRefill);
  }

  function Decisions(l: Limits, b: Bucket, events: seq<Event>): seq<bool>
    decreases |events|
  {
    if events == [] then [] else
      (if events[0].Ask? then [TryAcquire(l, b, events[0].n, events[0].at).1] else [])
      + Decisions(l, After(l, b, events[0]), events[1..])
  }

  function WithoutTouches(events: seq<Event>): seq<Event> {
    if events == [] then [] else
      (if events[0].Ask? then [events[0]] else []) + WithoutTouches(events[1..])
  }

  lemma RefilledDecides(l: Limits, b: Bucket, t: real, events: seq<Event>)
    requires Proper(l) && InRange(l, b) && b.lastRefill <= t && Timely(t, events)
    ensures Decisions(l, Refill(l, b, t), events) == Decisions(l, b, events)
  {
    if events == [] {
    } else {
      RefillTwice(l, b, t, events[0].at);
    }
  }

  lemma {:induction false} TouchesKeepTime(t: real, events: seq<Event>)
    requires Timely(t, events)
    ensures WithoutTouches(events) != [] ==> t <= WithoutTouches(events)[0].at
    ensures Timely(t, WithoutTouches(events))
    decreases |events|
  {
    if events != [] {
      TouchesKeepTime(events[0].at, events[1..]);
      if events[0].Ask? {
        assert ([events[0]] + WithoutTouches(events[1..]))[1..] == WithoutTouches(events[1..]);
      } else {
        assert [] + WithoutTouches(events[1..]) == WithoutTouches(events[1..]);
      }
    }
  }

  /** Refilling at any extra times, anywhere in a run, changes no decision. */
  lemma {:induction false} TouchesDoNotMatter(l: Limits, b: Bucket, events: seq<Event>)
    requires Proper(l) && InRange(l, b) && Timely(b.lastRefill, events) && NonNegative(events)
    ensures Decisions(l, b, WithoutTouches(events)) == Decisions(l, b, events)
    decreases |events|
  {
    if events != [] {
      var e, rest := events[0], events[1..];
      RefillInRange(l, b, e.at);
      assert forall x :: x in rest ==> x in events;
      TouchesDoNotMatter(l, After(l, b, e), rest);
      if e.Touch? {
        assert WithoutTouches(events) == WithoutTouches(rest);
        TouchesKeepTime(e.at, rest);
        RefilledDecides(l, b, e.at, WithoutTouches(rest));
      } else {
        assert WithoutTouches(events)[1..] == WithoutTouches(rest);
      }
    }
  }

  class RateLimiter {
    const limits: Limits
    var tokens: real
    var lastRefill: real

    function State(): Bucket
      reads this
    {
      Bucket(tokens, lastRefill)
    }

    ghost predicate Valid()
      reads this
    {
      Proper(limits) && InRange(limits, State())
    }

    constructor (capacity: real, refillPerSec: real, now: real)
      ensures Valid()
      ensures limits.capacity == (if capacity >= 1.0 then capacity else 1.0)
      ensures limits.refillPerSec == (if refillPerSec >= 0.0 then refillPerSec else 0.0)
      ensures tokens == limits.capacity && lastRefill == now
    {
      limits := Limits(MaxR(capacity, 1.0), MaxR(refillPerSec, 0.0));
      tokens := MaxR(capacity, 1.0);
      lastRefill := now;
    }

    method RefillAt(now: real)
      requires Valid()
      modifies this
      ensures Valid() && State() == Refill(limits, old(State()), now)
    {
      RefillInRange(limits, State(), now);
      var elapsed := MaxR(now - lastRefill, 0.0);
      if elapsed > 0.0 {
        tokens := MinR(tokens + Gain(limits, elapsed), limits.capacity);
        lastRefill := now;
      }
    }

    method TryAcquireN(n: real, now: real) returns (ok: bool)
      requires Valid()
      modifies this
      ensures (State(), ok) == TryAcquire(limits, old(State()), n, now)
      ensures now >= old(lastRefill) ==>
                && (ok <==> n <= limits.capacity && n <= old(tokens) + limits.refillPerSec * (now - old(lastRefill)))
                && lastRefill == now
      ensures now < old(lastRefill) ==> (ok <==> n <= old(tokens)) && lastRefill == old(lastRefill)
      ensures n >= 0.0 ==> Valid()
    {
      GrantedIff(limits, State(), n, now);
      RefillAt(now);
      ok := tokens >= n;
      if ok {
        tokens := tokens - n;
      }
    }
  }
}
