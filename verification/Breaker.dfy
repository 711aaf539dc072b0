/** `breaker.rs`: a circuit breaker that moves from Open to HalfOpen only when somebody looks. */
module Breaker {
  import opened Prelude

  datatype BreakerState = Closed | Open | HalfOpen

  datatype Event = Looked(at: nat) | Succeeded(at: nat) | Failed(at: nat)

  datatype Breaker = Breaker(state: BreakerState, consecutiveFailures: nat, openedAt: nat)

  type Positive = n: int | n >= 1 witness 1

  /** The settings in force: the constructor raises a threshold of 0 to 1. */
  datatype Settings = Settings(failureThreshold: Positive, cooldown: nat)

  const NEW: Breaker := Breaker(Closed, 0, 0)

  // ---- The breaker's own transitions ----------------------------------------------------------

  function Look(cfg: Settings, b: Breaker, now: nat): Breaker {
    if b.state.Open? && Max(now - b.openedAt, 0) >= cfg.cooldown then b.(state := HalfOpen) else b
  }

  function OnSuccess(b: Breaker): Breaker {
    b.(consecutiveFailures := 0, state := Closed)
  }

  function OnFailure(cfg: Settings, b: Breaker, now: nat): Breaker {
    var n := b.consecutiveFailures + 1;
    if n >= cfg.failureThreshold || b.state.HalfOpen? then Breaker(Open, n, now) else b.(consecutiveFailures := n)
  }

  function React(cfg: Settings, b: Breaker, e: Event): Breaker {
    match e
    case Looked(at) => Look(cfg, b, at)
    case Succeeded(_) => OnSuccess(b)
    case Failed(at) => OnFailure(cfg, b, at)
  }

  function Replay(cfg: Settings, history: seq<Event>): Breaker {
    if history == [] then NEW else React(cfg, Replay(cfg, history[..|history| - 1]), history[|history| - 1])
  }

  // ---- What the history alone says ------------------------------------------------------------

  /** Failures recorded since the last success. */
  function TrailingFailures(history: seq<Event>): nat {
    if history == [] then 0 else
      var n := TrailingFailures(history[..|history| - 1]);
      match history[|history| - 1]
      case Looked(_) => n
      case Succeeded(_) => 0
      case Failed(_) => n + 1
  }

  function LastFailure(history: seq<Event>): nat {
    if history == [] then 0 else
      match history[|history| - 1]
      case Failed(at) => at
      case _ => LastFailure(history[..|history| - 1])
  }

  /** The failures since the last success, by their places in the history. */
  ghost function FailedSince(history: seq<Event>): set<nat> {
    set i: nat | i < |history| && history[i].Failed? && forall j :: i < j < |history| ==> !history[j].Succeeded?
  }

  lemma FailedSinceStep(history: seq<Event>)
    requires history != []
    ensures var n := |history| - 1;
            FailedSince(history) ==
              match history[n]
              case Looked(_) => FailedSince(history[..n])
              case Succeeded(_) => {}
              case Failed(_) => FailedSince(history[..n]) + {n}
  {
    var n := |history| - 1;
    assert forall i :: 0 <= i < n ==> history[..n][i] == history[i];
    match history[n]
    case Looked(_) => assert FailedSince(history) == FailedSince(history[..n]);
    case Succeeded(_) => assert FailedSince(history) == {};
    case Failed(_) => assert FailedSince(history) == FailedSince(history[..n]) + {n};
  }

  /** The failures counted are those with no success after them. */
  lemma {:induction false} TrailingMeans(history: seq<Event>)
    ensures TrailingFailures(history) == |FailedSince(history)|
  {
    if history != [] {
      TrailingMeans(history[..|history| - 1]);
      FailedSinceStep(history);
    }
  }

  /** The last failure recorded is the latest of them. */
  lemma {:induction false} LastMeans(history: seq<Event>)
    requires Monotone(history)
    ensures forall i :: i in FailedSince(history) ==> history[i].at <= LastFailure(history)
    ensures FailedSince(history) != {} ==> exists i :: i in FailedSince(history) && history[i].at == LastFailure(history)
  {
    if history != [] {
      var n := |history| - 1;
      LastMeans(history[..n]);
      FailedSinceStep(history);
      assert forall i :: i in FailedSince(history[..n]) ==> history[..n][i] == history[i];
      if history[n].Failed? {
        assert n in FailedSince(history);
      } else if FailedSince(history) != {} {
        var i :| i in FailedSince(history[..n]) && history[..n][i].at == LastFailure(history[..n]);
        assert i in FailedSince(history);
      }
    }
  }

  /** A call at `now` is turned away: enough failures since the last success, one of them within the cooldown. */
  ghost predicate Rejects(cfg: Settings, history: seq<Event>, now: nat) {
    && |FailedSince(history)| >= cfg.failureThreshold
    && exists i :: i in FailedSince(history) && now < history[i].at + cfg.cooldown
  }

  lemma RejectsByCount(cfg: Settings, history: seq<Event>, now: nat)
    requires Monotone(history)
    ensures Rejects(cfg, history, now) <==>
              TrailingFailures(history) >= cfg.failureThreshold && now < LastFailure(history) + cfg.cooldown
  {
    hide FailedSince, TrailingFailures, LastFailure, Monotone;
    TrailingMeans(history);
    LastMeans(history);
  }

  predicate Monotone(history: seq<Event>) {
    forall i, j :: 0 <= i < j < |history| ==> history[i].at <= history[j].at
  }

  lemma {:induction false} ReplayMeaning(cfg: Settings, history: seq<Event>)
    requires Monotone(history)
    ensures var b := Replay(cfg, history);
            && b.consecutiveFailures == TrailingFailures(history)
            && (b.state.Closed? <==> TrailingFailures(history) < cfg.failureThreshold)
            && (!b.state.Closed? ==> b.openedAt == LastFailure(history))
            && (b.state.HalfOpen? ==> history[|history| - 1].at - b.openedAt >= cfg.cooldown)
    ensures history != [] ==> LastFailure(history) <= history[|history| - 1].at
  {
    if history != [] {
      ReplayMeaning(cfg, history[..|history| - 1]);
    }
  }

  /** Nothing has happened after `now`. */
  predicate Timely(history: seq<Event>, now: nat) {
    Monotone(history) && (history != [] ==> history[|history| - 1].at <= now)
  }

  /** The breaker that has been through `history` lets a call at `now` through. */
  predicate Admits(cfg: Settings, history: seq<Event>, now: nat) {
    !Look(cfg, Replay(cfg, history), now).state.Open?
  }

  /** After any history, the breaker turns a call away exactly when the history does. */
  lemma AcquireIsHistory(cfg: Settings, history: seq<Event>, now: nat)
    requires Timely(history, now)
    ensures Admits(cfg, history, now) <==> !Rejects(cfg, history, now)
  {
    hide Rejects;
    ReplayMeaning(cfg, history);
    RejectsByCount(cfg, history, now);
  }

  function WithoutLooks(history: seq<Event>): seq<Event> {
    if history == [] then [] else
      var init := WithoutLooks(history[..|history| - 1]);
      if history[|history| - 1].Looked? then init else init + [history[|history| - 1]]
  }

  lemma {:induction false} LooksLeaveNoTrace(history: seq<Event>)
    ensures TrailingFailures(WithoutLooks(history)) == TrailingFailures(history)
    ensures LastFailure(WithoutLooks(history)) == LastFailure(history)
  {
    if history != [] {
      var init, e := history[..|history| - 1], history[|history| - 1];
      LooksLeaveNoTrace(init);
      if !e.Looked? {
        assert (WithoutLooks(init) + [e])[..|WithoutLooks(init)|] == WithoutLooks(init);
      }
    }
  }

  lemma {:induction false} WithoutLooksMonotone(history: seq<Event>)
    requires Monotone(history)
    ensures Monotone(WithoutLooks(history))
    ensures WithoutLooks(history) != [] ==> WithoutLooks(history)[|WithoutLooks(history)| - 1].at <= history[|history| - 1].at
  {
    if history != [] {
      var init, e := history[..|history| - 1], history[|history| - 1];
      WithoutLooksMonotone(init);
      var kept := WithoutLooks(init);
      if kept != [] {
        assert forall i :: 0 <= i < |kept| ==> kept[i].at <= kept[|kept| - 1].at;
        assert init[|init| - 1].at <= e.at;
      }
    }
  }

  /** A breaker that was looked at in between decides as one that was not. */
  lemma LooksDoNotMatter(cfg: Settings, history: seq<Event>, now: nat)
    requires Timely(history, now)
    ensures Admits(cfg, WithoutLooks(history), now) <==> Admits(cfg, history, now)
  {
    hide Look, Replay, WithoutLooks, Rejects;
    RejectsByCount(cfg, history, now);
    AcquireIsHistory(cfg, history, now);
    WithoutLooksMonotone(history);
    NoLooksAtAll(history);
    AcquireIsHistory(cfg, WithoutLooks(history), now);
    RejectsByCount(cfg, WithoutLooks(history), now);
    LooksLeaveNoTrace(history);
  }

  lemma NoLooksAtAll(history: seq<Event>)
    ensures history == [] ==> WithoutLooks(history) == []
  {
  }

  predicate AllLooks(events: seq<Event>) {
    forall e :: e in events ==> e.Looked?
  }

  lemma {:induction false} LooksRecordNothing(history: seq<Event>, looks: seq<Event>)
    requires AllLooks(looks)
    ensures TrailingFailures(history + looks) == TrailingFailures(history)
    ensures LastFailure(history + looks) == LastFailure(history)
  {
    if looks == [] {
      assert history + looks == history;
    } else {
      var init, e := looks[..|looks| - 1], looks[|looks| - 1];
      assert e in looks && forall x :: x in init ==> x in looks;
      LooksRecordNothing(history, init);
      assert (history + looks)[..|history + looks| - 1] == history + init;
    }
  }

  lemma PrefixMonotone(a: seq<Event>, b: seq<Event>)
    requires Monotone(a + b)
    ensures Monotone(a)
  {
    assert forall i :: 0 <= i < |a| ==> (a + b)[i] == a[i];
  }

  lemma RejectsOtherwise(cfg: Settings, history: seq<Event>, now: nat)
    ensures !Rejects(cfg, history, now) <==>
              || |FailedSince(history)| < cfg.failureThreshold
              || forall i :: i in FailedSince(history) ==> now >= history[i].at + cfg.cooldown
  {
  }

  /**
    HalfOpen is documented as letting a single trial call through. However many calls have come since the last
    recorded result, at whatever times, the next one is admitted exactly when the failures are below the
    threshold or the cooldown since the last of them is over: trials are not counted.
   */
  lemma TrialsAreNotCounted(cfg: Settings, history: seq<Event>, calls: seq<Event>, now: nat)
    requires Timely(history + calls, now) && AllLooks(calls)
    ensures Admits(cfg, history + calls, now) <==>
              || |FailedSince(history)| < cfg.failureThreshold
              || forall i :: i in FailedSince(history) ==> now >= history[i].at + cfg.cooldown
  {
    hide Look, Replay, TrailingFailures, LastFailure, Rejects, FailedSince, Monotone;
    RejectsByCount(cfg, history + calls, now);
    PrefixMonotone(history, calls);
    RejectsByCount(cfg, history, now);
    RejectsOtherwise(cfg, history, now);
    AcquireIsHistory(cfg, history + calls, now);
    LooksRecordNothing(history, calls);
  }

  /** A breaker that opened at 0 and cools down for 5: a call at 5 finds it HalfOpen, and so does one at 6. */
  lemma TwoTrials()
    ensures var cfg, failed := Settings(1, 5), [Failed(0)];
            && Look(cfg, Replay(cfg, failed), 5).state.HalfOpen? && Admits(cfg, failed, 5)
            && Look(cfg, Replay(cfg, failed + [Looked(5)]), 6).state.HalfOpen? && Admits(cfg, failed + [Looked(5)], 6)
  {
    var cfg := Settings(1, 5);
    assert [Failed(0)][..0] == [];
    assert Replay(cfg, [Failed(0)]) == Breaker(Open, 1, 0);
    assert ([Failed(0)] + [Looked(5)])[..1] == [Failed(0)];
  }

  lemma OneMore(cfg: Settings, history: seq<Event>, e: Event)
    requires Timely(history, e.at)
    ensures Monotone(history + [e]) && Replay(cfg, history + [e]) == React(cfg, Replay(cfg, history), e)
  {
    assert (history + [e])[..|history|] == history;
    assert forall i :: 0 <= i < |history| ==> history[i].at <= history[|history| - 1].at;
  }

  class CircuitBreaker {
    const cfg: Settings
    var state: BreakerState
    var consecutiveFailures: nat
    var openedAt: nat
    /** Every call so far, with the clock's reading. */
    ghost var history: seq<Event>

    ghost predicate Valid()
      reads this
    {
      && Monotone(history)
      && Breaker(state, consecutiveFailures, openedAt) == Replay(cfg, history)
    }

    constructor (failureThreshold: nat, cooldown: nat)
      ensures Valid() && history == [] && cfg.cooldown == cooldown
      ensures cfg.failureThreshold == if failureThreshold == 0 then 1 else failureThreshold
    {
      cfg := Settings(Max(failureThreshold, 1), cooldown);
      state, consecutiveFailures, openedAt := Closed, 0, 0;
      history := [];
    }

    method State(now: nat) returns (s: BreakerState)
      requires Valid() && Timely(history, now)
      modifies this
      ensures Valid() && history == old(history) + [Looked(now)]
      ensures s == state
      ensures s.Open? <==> Rejects(cfg, old(history), now)
      ensures s.Closed? <==> |FailedSince(old(history))| < cfg.failureThreshold
    {
      hide Replay, Monotone, TrailingFailures, Rejects, FailedSince;
      AcquireIsHistory(cfg, history, now);
      ReplayMeaning(cfg, history);
      TrailingMeans(history);
      OneMore(cfg, history, Looked(now));
      if state.Open? && Max(now - openedAt, 0) >= cfg.cooldown {
        state := HalfOpen;
      }
      history := history + [Looked(now)];
      s := state;
    }

    method Acquire(now: nat) returns (ok: bool)
      requires Valid() && Timely(history, now)
      modifies this
      ensures Valid() && history == old(history) + [Looked(now)]
      ensures !ok <==> Rejects(cfg, old(history), now)
    {
      var s := State(now);
      ok := !s.Open?;
    }

    method OnSuccess(now: nat)
      requires Valid() && Timely(history, now)
      modifies this
      ensures Valid() && history == old(history) + [Succeeded(now)]
    {
      hide Replay, Monotone;
      OneMore(cfg, history, Succeeded(now));
      consecutiveFailures := 0;
      state := Closed;
      history := history + [Succeeded(now)];
    }

    /** `u32` counters do not wrap here: fewer than 2^32 failures in a row. */
    method OnFailure(now: nat)
      requires Valid() && Timely(history, now) && consecutiveFailures + 1 < 0x1_0000_0000
      modifies this
      ensures Valid() && history == old(history) + [Failed(now)]
    {
      hide Replay, Monotone;
      OneMore(cfg, history, Failed(now));
      consecutiveFailures := consecutiveFailures + 1;
      if consecutiveFailures >= cfg.failureThreshold || state.HalfOpen? {
        state := Open;
        openedAt := now;
      }
      history := history + [Failed(now)];
    }
  }
}
