/** The file store and the memory store, driven by the same calls from empty. */
module Agreement {
  import opened Prelude
  import opened Multiples
  import opened Bytes
  import opened Disks
  import opened Codec
  import opened Logs
  import opened Parts
  import opened Recovery
  import opened Retention
  import opened FilePartitions
  import opened MemPartitions

  datatype CallArgs = CallArgs(batch: seq<ProduceRecord>, timestamp: Millis)

  ghost predicate AllFit(calls: seq<CallArgs>) {
    && Appended(calls) <= TWO_64
    && forall c :: c in calls ==> BatchEncodable(c.batch)
  }

  function Appended(calls: seq<CallArgs>): nat {
    if calls == [] then 0 else Appended(calls[..|calls| - 1]) + |calls[|calls| - 1].batch|
  }

  /** The file partition after the calls: `FilePartitions.PartitionState.Append`, one after another. */
  ghost function FileRun(calls: seq<CallArgs>, s: nat, m: nat): (p: Part)
    requires s > 0 && AllFit(calls)
    ensures |p.history| == Appended(calls)
    ensures WellFormedPart(p, s)
  {
    if calls == [] then EMPTY else
      var c := calls[|calls| - 1];
      var p := FileRun(calls[..|calls| - 1], s, m);
      var rs := Materialize(c.batch, |p.history|, c.timestamp);
      assert c in calls;
      MaterializeContinues(p, c.batch, c.timestamp);
      CallShape(p, rs, s, m);
      Call(p, rs, s, m)
  }

  /** The memory partition after the calls: `MemPartitions.Partition.Append`, one after another. */
  ghost function MemRun(calls: seq<CallArgs>, m: nat): (log: Log)
    requires AllFit(calls)
    ensures |log.history| == Appended(calls)
  {
    if calls == [] then Log([], 0) else
      var c := calls[|calls| - 1];
      var log := MemRun(calls[..|calls| - 1], m);
      var rs := Materialize(c.batch, |log.history|, c.timestamp);
      assert c in calls;
      Log(log.history + rs, PrunedStart(log.start, |log.history| + |rs|, m))
  }

  /** Both stores give every record the same offset; each start is a function of the length alone. */
  lemma {:induction false} SameHistory(calls: seq<CallArgs>, s: nat, m: nat)
    requires s > 0 && AllFit(calls)
    ensures FileRun(calls, s, m).history == MemRun(calls, m).history
    ensures Start(FileRun(calls, s, m)) == RetainedFrom(Appended(calls), m, s)
    ensures MemRun(calls, m).start == PrunedStart(0, Appended(calls), m)
  {
    hide WellFormedPart, Start, Call, Continues, RetainedFrom, NotOverPruned, RoundDown;
    FileStart(calls, s, m);
    if calls != [] {
      var init, c := calls[..|calls| - 1], calls[|calls| - 1];
      SameHistory(init, s, m);
      var p := FileRun(init, s, m);
      assert c in calls;
      MaterializeContinues(p, c.batch, c.timestamp);
      CallShape(p, Materialize(c.batch, |p.history|, c.timestamp), s, m);
    }
  }

  lemma {:induction false} FileStart(calls: seq<CallArgs>, s: nat, m: nat)
    requires s > 0 && AllFit(calls)
    ensures var p := FileRun(calls, s, m);
            && NotOverPruned(p, m, s)
            && Start(p) == RetainedFrom(|p.history|, m, s)
            && (p.segs != [] ==> |p.history| > 0 && Last(p).base == RoundDown(|p.history| - 1, s))
  {
    hide WellFormedPart, Call;
    if calls == [] {
      FreshNotOverPruned(m, s);
    } else {
      var init, c := calls[..|calls| - 1], calls[|calls| - 1];
      FileStart(init, s, m);
      var p := FileRun(init, s, m);
      var rs := Materialize(c.batch, |p.history|, c.timestamp);
      assert c in calls;
      MaterializeContinues(p, c.batch, c.timestamp);
      CallNotOverPruned(p, rs, s, m);
      if rs == [] {
        EmptyCall(p, s, m);
      } else {
        CallClosedForm(p, rs, s, m);
        CallLastBase(p, rs, s, m);
      }
    }
  }

  lemma {:induction false} RetainKeepsLast(p: Part, m: nat, s: nat)
    requires p.segs != []
    ensures var q := DoAll(p, RetainPlan(p, m)); q.segs != [] && Last(q) == Last(p) && q.history == p.history
    decreases |p.segs|
  {
    if m > 0 && Total(p) > m && |p.segs| > 1 {
      var q := Do(p, Drop);
      RetainKeepsLast(q, m, s);
      OneStep(p, Drop);
      StepsConcat(p, [Drop], RetainPlan(q, m), s);
    }
  }

  /** A call with no records prunes nothing that the previous call did not. */
  lemma EmptyCall(p: Part, s: nat, m: nat)
    requires WellFormedPart(p, s) && NotOverPruned(p, m, s)
    requires Start(p) == RetainedFrom(|p.history|, m, s)
    requires p.segs != [] ==> |p.history| > 0 && Last(p).base == RoundDown(|p.history| - 1, s)
    ensures var q := Call(p, [], s, m);
            && q.history == p.history && Start(q) == Start(p)
            && (q.segs != [] <==> p.segs != []) && (p.segs != [] ==> Last(q) == Last(p))
  {
    hide WellFormedPart, RetainPlan;
    EmptyPlan(p, s);
    StepsConcat(p, [], RetainPlan(p, m), s);
    if p.segs == [] {
      NothingToRetain(p, m);
    } else {
      RetainKeepsLast(p, m, s);
      if m == 0 {
        NoRetention(p, m);
      } else {
        RetainStops(p, m, s);
      }
    }
  }

  lemma CallLastBase(p: Part, batch: seq<Record>, s: nat, m: nat)
    requires WellFormedPart(p, s) && Continues(p, batch) && batch != []
    ensures var q := Call(p, batch, s, m);
            q.segs != [] && q.history == p.history + batch && Last(q).base == RoundDown(|q.history| - 1, s)
  {
    hide WellFormedPart, AppendPlan, RetainPlan, AllAllowed, DoAll;
    var appends := AppendPlan(p, batch, s);
    PositiveSegmentSize(p, s);
    AppendPlanAllowed(p, batch, s);
    LastBase(p, batch, s);
    RetainKeepsLast(DoAll(p, appends), m, s);
    StepsConcat(p, appends, RetainPlan(DoAll(p, appends), m), s);
  }

  /** Two logs with one history answer a fetch alike exactly when it starts them at the same offset. */
  lemma FetchAgrees(a: Log, b: Log, from: nat, max: nat)
    requires WellFormed(a) && WellFormed(b) && a.history == b.history
    ensures Fetch(a, from, max) == Fetch(b, from, max) <==> a.start == b.start || from >= Max(a.start, b.start)
  {
    FetchNextOffset(a, from, max);
    FetchNextOffset(b, from, max);
    var first, first' := Max(from, a.start), Max(from, b.start);
    var res, res' := Fetch(a, from, max), Fetch(b, from, max);
    assert res.records != [] ==> res.records[0].offset == first;
    assert res'.records != [] ==> res'.records[0].offset == first';
  }

  /**
    After the same calls the two stores answer a fetch alike exactly when both start at the same offset or the
    reader asks at or past both starts; without retention, always.
   */
  lemma StoresAgree(calls: seq<CallArgs>, s: nat, m: nat, from: nat, max: nat)
    requires s > 0 && AllFit(calls)
    ensures var file, mem := AsLog(FileRun(calls, s, m)), MemRun(calls, m);
            var n := Appended(calls);
            && file.start <= n && mem.start <= n
            && file.history == mem.history
            && (Fetch(file, from, max) == Fetch(mem, from, max) <==>
                  || RetainedFrom(n, m, s) == PrunedStart(0, n, m)
                  || from >= Max(file.start, mem.start))
            && (m == 0 ==> Fetch(file, from, max) == Fetch(mem, from, max))
  {
    hide WellFormedPart, Start, Fetch, RetainedFrom;
    var p, mem, n := FileRun(calls, s, m), MemRun(calls, m), Appended(calls);
    SameHistory(calls, s, m);
    PartIsLog(p, s);
    RetainAll(n, s);
    FetchAgrees(AsLog(p), mem, from, max);
  }

  /** Two records in one segment, retention of one: the file store keeps both, the memory store the second. */
  lemma FetchesDiffer(timestamp: Millis)
    ensures var calls := [CallArgs([ProduceRecord(None, []), ProduceRecord(None, [])], timestamp)];
            && AllFit(calls)
            && Start(FileRun(calls, 2, 1)) == 0 && |Fetch(AsLog(FileRun(calls, 2, 1)), 0, 2).records| == 2
            && MemRun(calls, 1).start == 1 && |Fetch(MemRun(calls, 1), 0, 2).records| == 1
  {
    hide FileRun, MemRun, RetainedFrom, WellFormedPart;
    var calls := [CallArgs([ProduceRecord(None, []), ProduceRecord(None, [])], timestamp)];
    FirstCall(calls, 2, 1);
    StoresAgree(calls, 2, 1, 0, 2);
    SameHistory(calls, 2, 1);
    OneSegment();
  }

  lemma OneSegment()
    ensures RetainedFrom(2, 1, 2) == 0
  {
  }

  lemma RetainAll(n: nat, s: nat)
    requires s > 0
    ensures RetainedFrom(n, 0, s) == 0
  {
  }

  // ---- The two stores' segment figures --------------------------------------------------------

  lemma {:induction false} BaseAt(p: Part, s: nat, i: nat)
    requires WellFormedPart(p, s) && i < |p.segs|
    ensures p.segs[i].base == Start(p) + i * s
    decreases i
  {
    if i > 0 {
      BaseAt(p, s, i - 1);
      assert p.segs[i - 1].base + s == p.segs[i].base;
      assert i * s == (i - 1) * s + s;
    }
  }

  lemma RoundUpIsNextDown(n: nat, s: nat)
    requires s > 0 && n > 0
    ensures RoundUp(n, s) == RoundDown(n - 1, s) + s
  {
    var q, r := (n - 1) / s, (n - 1) % s;
    assert n == q * s + (r + 1);
    CeilDivOf(q, r + 1, s);
    RoundUpIsCeil(n, s);
    assert (q + 1) * s == q * s + s;
  }

  /** The segments a file partition holds cover its log from the start to the next segment boundary. */
  lemma FileSegments(calls: seq<CallArgs>, s: nat, m: nat)
    requires s > 0 && AllFit(calls)
    ensures var p := FileRun(calls, s, m); |p.segs| * s == RoundUp(Appended(calls), s) - Start(p)
  {
    hide FileRun, RetainedFrom, NotOverPruned, RoundDown, RoundUp;
    var p := FileRun(calls, s, m);
    FileStart(calls, s, m);
    EndsOf(p, s);
    if p.segs == [] {
      RoundUpIsCeil(0, s);
      CeilDivZero(s);
    } else {
      var k := |p.segs| - 1;
      BaseAt(p, s, k);
      RoundUpIsNextDown(|p.history|, s);
      assert |p.segs| * s == k * s + s;
    }
  }

  lemma SameFactor(a: nat, b: nat, s: nat)
    requires s > 0
    ensures a * s == b * s <==> a == b
  {
    MulAtLeast(a - b, s);
    MulAtLeast(b - a, s);
    assert (a - b) * s == a * s - b * s && (b - a) * s == b * s - a * s;
  }

  /**
    The file store counts the segments it holds, the memory store all it ever rolled: after the same calls the
    two figures agree exactly when nothing has been pruned.
   */
  lemma SegmentFiguresAgreeIff(calls: seq<CallArgs>, mem: Partition, s: nat, m: nat)
    requires s > 0 && AllFit(calls)
    requires mem.Valid(s) && mem.AsLog() == MemRun(calls, m)
    ensures |FileRun(calls, s, m).segs| == mem.segments <==> RetainedFrom(Appended(calls), m, s) == 0
  {
    mem.SegmentsEverRolled(s);
    hide FileRun, RetainedFrom, CeilDiv, RoundUp;
    var n := Appended(calls);
    FileSegments(calls, s, m);
    FileStart(calls, s, m);
    RoundUpIsCeil(n, s);
    SameFactor(|FileRun(calls, s, m).segs|, CeilDiv(n, s), s);
  }

  lemma ByOnes()
    ensures RetainedFrom(2, 1, 1) == 1 && RoundUp(2, 1) == 2 && CeilDiv(2, 1) == 2
  {
  }

  /** The same call of two records, segments of one, retention of one: one segment held, two ever rolled. */
  method SegmentFiguresDiffer(timestamp: Millis) returns (file: PartitionState, mem: Partition)
    ensures file.Valid(1) && mem.Valid(1) && file.model.history == mem.history && |mem.history| == 2
    ensures |file.segments| == 1 && mem.segments == 2
  {
    hide PartitionState.Valid, Partition.Valid, WellFormedPart, Call, AllFit, CallPlan, OpsOf, Next;
    var batch := [ProduceRecord(None, []), ProduceRecord(None, [])];
    ghost var calls := [CallArgs(batch, timestamp)];
    FirstCall(calls, 1, 1);
    var dir := new Disk(map[]);
    file := new PartitionState(dir);
    file.Offsets(1);
    var rs, _ := file.Append(batch, timestamp, 1, 1);
    file.NotEmpty(1);
    mem := new Partition();
    EmptyLength(mem, 1);
    var _ := mem.Append(rs, 1, 1);
    mem.SegmentsEverRolled(1);
    EmptyLength(mem, 1);
    FileSegments(calls, 1, 1);
    SameHistory(calls, 1, 1);
    ByOnes();
  }

  lemma EmptyLength(mem: Partition, s: nat)
    requires mem.Valid(s)
    ensures mem.nextOffset == |mem.history|
  {
  }

  /** A run of one call is that call on an empty partition. */
  lemma FirstCall(calls: seq<CallArgs>, s: nat, m: nat)
    requires s > 0 && |calls| == 1 && |calls[0].batch| <= TWO_64 && BatchEncodable(calls[0].batch)
    ensures AllFit(calls) && Appended(calls) == |calls[0].batch|
    ensures FileRun(calls, s, m) == Call(EMPTY, Materialize(calls[0].batch, 0, calls[0].timestamp), s, m)
  {
    hide Call, WellFormedPart;
    assert calls[..0] == [] && calls == [calls[0]];
    assert Appended([]) == 0;
  }
}
