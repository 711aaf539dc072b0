/** Where `apply_retention` leaves the start of a file partition, as a function of the log's length alone. */
module Retention {
  import opened Prelude
  import opened Multiples
  import opened Bytes
  import opened Codec
  import opened Logs
  import opened Parts
  import opened Recovery

  /**
    The first retained offset of a log of `n` records with segment size `s` and bound `m`: the first segment
    boundary at or after `n - m`, but never past the segment the last record is in.
   */
  function RetainedFrom(n: nat, m: nat, s: nat): nat
    requires s > 0
  {
    if m == 0 || n <= m then 0 else Min(RoundDown(n - 1, s), RoundUp(n - m, s))
  }

  lemma {:induction false} BaseIsMultiple(p: Part, s: nat, i: nat)
    requires WellFormedPart(p, s) && i < |p.segs|
    ensures p.segs[i].base % s == 0
    decreases i
  {
    if i > 0 {
      BaseIsMultiple(p, s, i - 1);
      assert p.segs[i - 1].base + s == p.segs[i].base;
      ModStep(p.segs[i - 1].base, s);
    }
  }

  /** Whether pruning may still go on depends on the start, the length and the last base only. */
  lemma {:induction false} RetainStops(p: Part, m: nat, s: nat)
    requires WellFormedPart(p, s) && p.segs != [] && m > 0
    requires Start(p) <= RoundUp(|p.history| - m, s)
    ensures Start(DoAll(p, RetainPlan(p, m))) == Min(Last(p).base, RoundUp(|p.history| - m, s))
    decreases |p.segs|
  {
    var n, up := |p.history|, RoundUp(|p.history| - m, s);
    RoundUpFacts(n - m, s);
    BaseIsMultiple(p, s, |p.segs| - 1);
    assert |p.segs| > 1 ==> p.segs[0].base + s <= Last(p).base;
    if Total(p) > m && |p.segs| > 1 {
      var q := Do(p, Drop);
      MultipleGap(Start(p), up, s);
      DropWellFormed(p, s);
      assert Start(q) == Start(p) + s && Last(q) == Last(p);
      RetainStops(q, m, s);
      OneStep(p, Drop);
      StepsConcat(p, [Drop], RetainPlan(q, m), s);
    } else {
      if Total(p) <= m {
        RoundUpLeast(n - m, Start(p), s);
      }
      assert DoAll(p, []) == p;
    }
  }

  /** The start has not passed the boundary the length calls for. */
  ghost predicate NotOverPruned(p: Part, m: nat, s: nat)
    requires s > 0
  {
    Start(p) <= if m == 0 then 0 else RoundUp(|p.history| - m, s)
  }

  /** After any non-empty call, the start depends on the new length, `m` and `s`, not on how records were batched. */
  lemma CallClosedForm(p: Part, batch: seq<Record>, s: nat, m: nat)
    requires WellFormedPart(p, s) && Continues(p, batch) && batch != [] && NotOverPruned(p, m, s)
    ensures Start(Call(p, batch, s, m)) == RetainedFrom(|p.history| + |batch|, m, s)
  {
    hide Start, AppendPlan, RetainPlan, AllAllowed, DoAll, Do, WellFormedPart, Continues;
    var appends := AppendPlan(p, batch, s);
    var q := DoAll(p, appends);
    PositiveSegmentSize(p, s);
    AppendPlanAllowed(p, batch, s);
    StepsMonotone(p, appends, s);
    StepsConcat(p, appends, RetainPlan(q, m), s);
    var n := |q.history|;
    if m == 0 {
      NoRetention(q, 0);
    } else {
      RoundUpMonotone(|p.history| - m, n - m, s);
      RetainStops(q, m, s);
      LastBase(p, batch, s);
    }
  }

  lemma NoRetention(p: Part, m: nat)
    requires m == 0
    ensures DoAll(p, RetainPlan(p, m)) == p
  {
  }

  lemma LastBase(p: Part, batch: seq<Record>, s: nat)
    requires WellFormedPart(p, s) && Continues(p, batch) && batch != []
    ensures var q := DoAll(p, AppendPlan(p, batch, s));
            q.segs != [] && Last(q).base == RoundDown(|q.history| - 1, s)
  {
    hide AllAllowed, DoAll, Do, Start, RecordPlan, WellFormedPart;
    var init, r := batch[..|batch| - 1], batch[|batch| - 1];
    var plan := AppendPlan(p, init, s);
    var q := DoAll(p, AppendPlan(p, batch, s));
    PositiveSegmentSize(p, s);
    AppendPlanAllowed(p, batch, s);
    StepsMonotone(p, AppendPlan(p, batch, s), s);
    StepsConcat(p, plan, RecordPlan(DoAll(p, plan), r, s), s);
    LastRecordInLast(DoAll(p, plan), r, s);
    BaseIsMultiple(q, s, |q.segs| - 1);
    LastSegment(q, s);
    RoundDownUnique(|q.history| - 1, Last(q).base, s);
  }

  lemma LastRecordInLast(p: Part, r: Record, s: nat)
    requires s > 0
    ensures var q := DoAll(p, RecordPlan(p, r, s)); q.segs != [] && Last(q).len >= 1
  {
    RecordPlanUnfold(p, r, s);
  }

  lemma LastSegment(p: Part, s: nat)
    requires WellFormedPart(p, s) && p.segs != []
    ensures |p.history| == Last(p).base + Last(p).len && Last(p).len <= s
  {
  }

  /** Bounds the closed form gives: at most `max(m, s)` records are kept, and more than `m - s` once `m` is passed. */
  lemma RetainedBounds(n: nat, m: nat, s: nat)
    requires s > 0 && m > 0
    ensures RetainedFrom(n, m, s) <= n
    ensures n - RetainedFrom(n, m, s) <= Max(m, s)
    ensures n > m ==> n - RetainedFrom(n, m, s) > m - s
  {
    if n > m {
      RoundUpFacts(n - m, s);
      var x := n - 1;
      assert x == (x / s) * s + x % s;
    }
  }

  /** Over whole runs with crashes: the start never passes the boundary, and any non-empty call puts it exactly there. */
  lemma {:induction false} RunRetention(events: seq<Event>, s: nat, m: nat)
    requires s > 0 && AllEncodable(events)
    ensures NotOverPruned(Run(events, s, m).part, m, s)
    ensures events != [] ==>
              var e, before, after := events[|events| - 1], Run(events[..|events| - 1], s, m), Run(events, s, m);
              e.Append? && e.batch != [] && before.live && |before.part.history| + |e.batch| <= TWO_64 ==>
                Start(after.part) == RetainedFrom(|after.part.history|, m, s)
  {
    hide Sound, Next, WellFormedPart, NotOverPruned;
    if events == [] {
      FreshNotOverPruned(m, s);
    } else {
      var init, e := events[..|events| - 1], events[|events| - 1];
      RunRetention(init, s, m);
      RunSound(init, |init|, s, m);
      NextRetention(Run(init, s, m), e, s, m);
    }
  }

  lemma FreshNotOverPruned(m: nat, s: nat)
    requires s > 0
    ensures NotOverPruned(EMPTY, m, s)
  {
  }

  lemma NextRetention(st: Durable, e: Event, s: nat, m: nat)
    requires Sound(st, s) && s > 0 && EventEncodable(e) && NotOverPruned(st.part, m, s)
    ensures NotOverPruned(Next(st, e, s, m).part, m, s)
    ensures e.Append? && e.batch != [] && st.live && |st.part.history| + |e.batch| <= TWO_64 ==>
              Start(Next(st, e, s, m).part) == RetainedFrom(|Next(st, e, s, m).part.history|, m, s)
  {
    hide Image, WellFormedPart, Start, CallPlan, Effective;
    if (e.Append? || e.Crash?) && st.live && |st.part.history| + |e.batch| <= TWO_64 {
      var p := st.part;
      var rs := Materialize(e.batch, |p.history|, e.timestamp);
      MaterializeContinues(p, e.batch, e.timestamp);
      CompleteCall(st.files, p, rs, s, m);
      CallNotOverPruned(p, rs, s, m);
      if e.Crash? {
        PartialNotOverPruned(p, rs, s, m, Effective(CallPlan(p, rs, s, m), Min(e.k, |CallPlan(p, rs, s, m)|), e.cut));
      }
      if e.batch != [] {
        CallClosedForm(p, rs, s, m);
      }
    }
  }

  lemma PartialNotOverPruned(p: Part, batch: seq<Record>, s: nat, m: nat, j: nat)
    requires WellFormedPart(p, s) && Continues(p, batch) && NotOverPruned(p, m, s) && j <= |CallPlan(p, batch, s, m)|
    ensures NotOverPruned(DoAll(p, CallPlan(p, batch, s, m)[..j]), m, s)
  {
    hide WellFormedPart, Start, CallPlan, DoAll;
    PartialCall(p, batch, s, m, j);
    CallNotOverPruned(p, batch, s, m);
    PositiveSegmentSize(p, s);
    RoundUpMonotone(|p.history| - m, |DoAll(p, CallPlan(p, batch, s, m)[..j]).history| - m, s);
  }

  lemma CallNotOverPruned(p: Part, batch: seq<Record>, s: nat, m: nat)
    requires WellFormedPart(p, s) && Continues(p, batch) && NotOverPruned(p, m, s)
    ensures |Call(p, batch, s, m).history| == |p.history| + |batch|
    ensures NotOverPruned(Call(p, batch, s, m), m, s)
  {
    hide Start, AppendPlan, RetainPlan, AllAllowed, DoAll, Do, WellFormedPart, Continues;
    var appends := AppendPlan(p, batch, s);
    var q := DoAll(p, appends);
    PositiveSegmentSize(p, s);
    AppendPlanAllowed(p, batch, s);
    RetainPlanAllowed(q, m, s);
    StepsMonotone(p, appends, s);
    StepsMonotone(q, RetainPlan(q, m), s);
    StepsConcat(p, appends, RetainPlan(q, m), s);
    RoundUpMonotone(|p.history| - m, |q.history| - m, s);
    if m == 0 {
      NoRetention(q, 0);
    } else if q.segs == [] {
      NothingToRetain(q, m);
    } else {
      RetainStops(q, m, s);
    }
  }

  lemma NothingToRetain(p: Part, m: nat)
    requires p.segs == []
    ensures DoAll(p, RetainPlan(p, m)) == p
  {
  }

  // ---- How much a run retains -----------------------------------------------------------------

  ghost predicate AllEncodable(events: seq<Event>) {
    forall e :: e in events ==> EventEncodable(e)
  }

  /** A call that the state before it can serve. */
  ghost predicate Served(st: Durable, e: Event) {
    (e.Append? || e.Crash?) && st.live && |st.part.history| + |e.batch| <= TWO_64
  }

  /** The run ends with a non-empty call that has returned. */
  ghost predicate Returned(events: seq<Event>, s: nat, m: nat) {
    events != [] &&
    var e := events[|events| - 1];
    e.Append? && e.batch != [] && Served(Run(events[..|events| - 1], s, m), e)
  }

  function Blanks(n: nat): (batch: seq<ProduceRecord>)
    ensures |batch| == n && BatchEncodable(batch)
  {
    seq(n, _ => ProduceRecord(None, []))
  }

  /** A first call with `n` records leaves what the closed form says. */
  lemma OneCall(n: nat, s: nat, m: nat)
    requires s > 0 && n <= TWO_64
    ensures var events := [Event.Append(Blanks(n), 0)];
            var p := Run(events, s, m).part;
            && AllEncodable(events) && (n > 0 ==> Returned(events, s, m))
            && |p.history| == n && (n > 0 ==> Start(p) == RetainedFrom(n, m, s))
  {
    hide CallPlan, DoAll, Start, RetainedFrom;
    var events := [Event.Append(Blanks(n), 0)];
    assert events[..0] == [];
    var rs := Materialize(Blanks(n), 0, 0);
    FreshSound(s);
    SoundParts(FRESH, s);
    MaterializeContinues(EMPTY, Blanks(n), 0);
    CompleteCall(map[], EMPTY, rs, s, m);
    RunRetention(events, s, m);
  }

  /**
    "Retain at most `max_records`" holds after every returned non-empty call of every run exactly when a segment
    is no larger than that.
   */
  lemma AtMostMaxIff(m: nat, s: nat)
    requires 0 < m < TWO_64 && s > 0
    ensures (forall events :: AllEncodable(events) && Returned(events, s, m) ==> Total(Run(events, s, m).part) <= m)
            <==> s <= m
  {
    hide Run, Returned, Start, RetainedFrom;
    if s <= m {
      forall events | AllEncodable(events) && Returned(events, s, m)
        ensures Total(Run(events, s, m).part) <= m
      {
        ReturnedStart(events, s, m);
        RetainedBounds(|Run(events, s, m).part.history|, m, s);
      }
    } else {
      OneCall(m + 1, s, m);
      OneTooMany(m, s);
      assert Total(Run([Event.Append(Blanks(m + 1), 0)], s, m).part) == m + 1;
    }
  }

  lemma PrunesSomething(n: nat, m: nat, s: nat)
    requires s > 0 && m > 0 && n == Max(m, s) + 1
    ensures 0 < RetainedFrom(n, m, s) < n
  {
    RoundUpFacts(n - m, s);
    var q := (n - 1) / s;
    assert n - 1 == q * s + (n - 1) % s;
    assert q != 0;
    MulAtLeast(q, s);
  }

  lemma OneTooMany(m: nat, s: nat)
    requires 0 < m < s
    ensures RetainedFrom(m + 1, m, s) == 0
  {
    RoundDownUnique(m, 0, s);
  }

  lemma ReturnedStart(events: seq<Event>, s: nat, m: nat)
    requires s > 0 && AllEncodable(events) && Returned(events, s, m)
    ensures Start(Run(events, s, m).part) == RetainedFrom(|Run(events, s, m).part.history|, m, s)
  {
    hide Next, Start, RetainedFrom;
    RunRetention(events, s, m);
  }

  /** Records of crashed calls since the last non-empty call that returned. */
  ghost function InFlight(events: seq<Event>, s: nat, m: nat): nat {
    if events == [] || Returned(events, s, m) then 0 else
      var init, e := events[..|events| - 1], events[|events| - 1];
      InFlight(init, s, m) + (if e.Crash? && Served(Run(init, s, m), e) then |e.batch| else 0)
  }

  /**
    In any state of any run, recovered ones included, the log retains at most `max(max_records, segment size)`
    records and those of the calls that crashed since the last one that returned.
   */
  lemma {:induction false} RetainedAtMost(events: seq<Event>, s: nat, m: nat)
    requires s > 0 && m > 0 && AllEncodable(events)
    ensures Total(Run(events, s, m).part) <= Max(m, s) + InFlight(events, s, m)
    decreases |events|
  {
    if events != [] {
      hide Run, Next, Start, RetainedFrom, Returned, Served, Sound;
      var init, e := events[..|events| - 1], events[|events| - 1];
      if Returned(events, s, m) {
        ReturnedStart(events, s, m);
        RetainedBounds(|Run(events, s, m).part.history|, m, s);
      } else {
        RetainedAtMost(init, s, m);
        RunSound(init, |init|, s, m);
        OneMoreEvent(Run(init, s, m), e, s, m);
        LastEvent(events, s, m);
      }
    }
  }

  lemma LastEvent(events: seq<Event>, s: nat, m: nat)
    requires events != []
    ensures var init, e := events[..|events| - 1], events[|events| - 1];
            && Run(events, s, m) == Next(Run(init, s, m), e, s, m)
            && (Returned(events, s, m) <==> e.Append? && e.batch != [] && Served(Run(init, s, m), e))
  {
    hide Next, Served;
  }

  /** Only a call adds to what is retained, and no more than its batch. */
  lemma OneMoreEvent(st: Durable, e: Event, s: nat, m: nat)
    requires Sound(st, s) && EventEncodable(e)
    ensures var st' := Next(st, e, s, m);
            Total(st'.part) <= Total(st.part) + (if Served(st, e) then |e.batch| else 0)
  {
    hide Image, WellFormedPart, Start, CallPlan, Effective, DoAll;
    NextSound(st, e, s, m);
    if Served(st, e) {
      var p := st.part;
      var rs := Materialize(e.batch, |p.history|, e.timestamp);
      SoundParts(st, s);
      MaterializeContinues(p, e.batch, e.timestamp);
      CompleteCall(st.files, p, rs, s, m);
      if e.Crash? {
        var plan := CallPlan(p, rs, s, m);
        PartialCall(p, rs, s, m, Effective(plan, Min(e.k, |plan|), e.cut));
      }
    }
  }

  /** How many steps of a first call write its `n` records. */
  function Writes(n: nat, s: nat): nat
    requires n <= TWO_64
  {
    |AppendPlan(EMPTY, Materialize(Blanks(n), 0, 0), s)|
  }

  /**
    A crash between writing and pruning breaks the bound whatever it and the segment size are: the recovered log
    holds the whole batch.
   */
  lemma CrashExceedsMax(m: nat, s: nat)
    requires 0 < m < TWO_64 && s > 0
    ensures var n := m + 1;
            var st := Run([Event.Crash(Blanks(n), 0, Writes(n, s), 0), Recover], s, m);
            st.live && Total(st.part) == n
  {
    hide CallPlan, AppendPlan, RetainPlan, CrashFiles, CrashPart, Repair, Start;
    var n, k := m + 1, Writes(m + 1, s);
    var rs := Materialize(Blanks(n), 0, 0);
    TwoEvents(Event.Crash(Blanks(n), 0, k, 0), Recover, s, m);
    FreshSound(s);
    SoundParts(FRESH, s);
    MaterializeContinues(EMPTY, Blanks(n), 0);
    CrashedWhole(EMPTY, rs, s, m);
    EmptyStart();
  }

  lemma TwoEvents(e: Event, e': Event, s: nat, m: nat)
    ensures Run([e, e'], s, m) == Next(Next(FRESH, e, s, m), e', s, m)
  {
    hide Next;
    var two := [e, e'];
    assert [e][..0] == [] && Run([e], s, m) == Next(FRESH, e, s, m);
    assert two[..|two| - 1] == [e];
  }

  lemma EmptyStart()
    ensures Start(EMPTY) == 0 && EMPTY.history == []
  {
  }

  /** When the process dies having written the whole batch and pruned nothing, the part has the whole batch. */
  lemma CrashedWhole(p: Part, batch: seq<Record>, s: nat, m: nat)
    requires WellFormedPart(p, s) && Continues(p, batch)
    ensures var plan, k := CallPlan(p, batch, s, m), |AppendPlan(p, batch, s)|;
            var q := CrashPart(p, plan, k, 0);
            k <= |plan| && q.history == p.history + batch && Start(q) == Start(p)
  {
    hide AppendPlan, RetainPlan, DoAll, Start, AllAllowed, Encode, WellFormedPart;
    var appends := AppendPlan(p, batch, s);
    var full := DoAll(p, appends);
    var retains := RetainPlan(full, m);
    PositiveSegmentSize(p, s);
    AppendPlanAllowed(p, batch, s);
    RetainPlanAllowed(full, m, s);
    assert (appends + retains)[..|appends|] == appends;
    if retains != [] {
      assert (appends + retains)[|appends|] == retains[0] && retains[0] in retains;
    }
  }
}
