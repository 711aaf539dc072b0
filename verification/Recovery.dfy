/**
  The steps one store call makes, what a crash inside the call leaves in the directory, and what
  recovery makes of it, over whole runs.
 */
module Recovery {
  import opened Prelude
  import opened Bytes
  import opened Codec
  import opened Scanning
  import opened Disks
  import opened Logs
  import opened Parts

  // ---- Sequences of steps ---------------------------------------------------------------------

  ghost predicate AllAllowed(p: Part, steps: seq<Step>, s: nat) {
    steps != [] ==>
      var init := steps[..|steps| - 1];
      AllAllowed(p, init, s) && Allowed(DoAll(p, init), steps[|steps| - 1], s)
  }

  lemma {:induction false} StepsConcat(p: Part, a: seq<Step>, b: seq<Step>, s: nat)
    ensures DoAll(p, a + b) == DoAll(DoAll(p, a), b)
    ensures OpsOf(p, a + b) == OpsOf(p, a) + OpsOf(DoAll(p, a), b)
    ensures AllAllowed(p, a + b, s) <==> AllAllowed(p, a, s) && AllAllowed(DoAll(p, a), b, s)
  {
    if b == [] {
      assert a + b == a;
    } else {
      var init := b[..|b| - 1];
      StepsConcat(p, a, init, s);
      assert (a + b)[..|a + b| - 1] == a + init;
    }
  }

  lemma OneStep(p: Part, step: Step)
    ensures DoAll(p, [step]) == Do(p, step) && OpsOf(p, [step]) == [OpOf(p, step)]
  {
    assert [step][..0] == [];
  }

  lemma StepsPrefix(p: Part, steps: seq<Step>, k: nat, s: nat)
    requires k <= |steps|
    ensures OpsOf(p, steps)[..k] == OpsOf(p, steps[..k])
    ensures AllAllowed(p, steps, s) ==> AllAllowed(p, steps[..k], s)
    ensures AllAllowed(p, steps, s) && k < |steps| ==> Allowed(DoAll(p, steps[..k]), steps[k], s)
  {
    hide DoAll, OpsOf;
    StepsConcat(p, steps[..k], steps[k..], s);
    assert steps[..k] + steps[k..] == steps;
    if k < |steps| {
      StepsConcat(p, steps[..k + 1], steps[k + 1..], s);
      assert steps[..k + 1] + steps[k + 1..] == steps;
      assert steps[..k + 1][..k] == steps[..k];
    }
  }

  lemma {:induction false} StepsKeep(files: Files, p: Part, steps: seq<Step>, s: nat)
    requires WellFormedPart(p, s) && Holds(files, p) && AllAllowed(p, steps, s)
    ensures WellFormedPart(DoAll(p, steps), s)
    ensures Holds(ApplyAll(files, OpsOf(p, steps)), DoAll(p, steps))
  {
    if steps != [] {
      var init := steps[..|steps| - 1];
      StepsKeep(files, p, init, s);
      StepKeeps(ApplyAll(files, OpsOf(p, init)), DoAll(p, init), steps[|steps| - 1], s);
      assert OpsOf(p, steps)[..|steps| - 1] == OpsOf(p, init);
    }
  }

  // ---- One store call -------------------------------------------------------------------------

  function RecordPlan(p: Part, r: Record, s: nat): seq<Step> {
    if NeedsRoll(p, s) then [Roll, Put(r)] else [Put(r)]
  }

  function AppendPlan(p: Part, batch: seq<Record>, s: nat): seq<Step> {
    if batch == [] then [] else
      var init := AppendPlan(p, batch[..|batch| - 1], s);
      init + RecordPlan(DoAll(p, init), batch[|batch| - 1], s)
  }

  function Total(p: Part): int {
    |p.history| - Start(p)
  }

  function RetainPlan(p: Part, m: nat): seq<Step>
    decreases |p.segs|
  {
    if m > 0 && Total(p) > m && |p.segs| > 1 then [Drop] + RetainPlan(Do(p, Drop), m) else []
  }

  /** Everything `Inner::append` does to one partition: roll and write each record, then prune. */
  function CallPlan(p: Part, batch: seq<Record>, s: nat, m: nat): seq<Step> {
    var appends := AppendPlan(p, batch, s);
    appends + RetainPlan(DoAll(p, appends), m)
  }

  function Call(p: Part, batch: seq<Record>, s: nat, m: nat): Part {
    DoAll(p, CallPlan(p, batch, s, m))
  }

  /** The batch continues the history and can be encoded. */
  ghost predicate Continues(p: Part, batch: seq<Record>) {
    forall i :: 0 <= i < |batch| ==> batch[i].offset == |p.history| + i && Encodable(batch[i])
  }

  ghost predicate OnlyDrops(steps: seq<Step>) {
    forall step :: step in steps ==> step == Drop
  }

  lemma RecordPlanAllowed(p: Part, r: Record, s: nat)
    requires s > 0 && r.offset == |p.history| && Encodable(r)
    ensures AllAllowed(p, RecordPlan(p, r, s), s)
    ensures var q := DoAll(p, RecordPlan(p, r, s));
            q.history == p.history + [r] && q.segs != [] && Start(q) == Start(p)
    ensures Drop !in RecordPlan(p, r, s)
  {
    var plan := RecordPlan(p, r, s);
    if NeedsRoll(p, s) {
      assert plan[..1] == [Roll] && plan[..1][..0] == [];
      assert DoAll(p, [Roll]) == Do(p, Roll);
    } else {
      assert plan[..0] == [];
    }
  }

  lemma RecordPlanAfter(p: Part, plan: seq<Step>, r: Record, s: nat)
    requires s > 0 && AllAllowed(p, plan, s) && Drop !in plan
    requires r.offset == |DoAll(p, plan).history| && Encodable(r)
    ensures var q := DoAll(p, plan);
            var longer := plan + RecordPlan(q, r, s);
            var q' := DoAll(p, longer);
            && AllAllowed(p, longer, s) && Drop !in longer
            && q'.history == q.history + [r] && q'.segs != [] && Start(q') == Start(q)
  {
    hide RecordPlan, AllAllowed, DoAll, OpsOf, Start;
    RecordPlanAllowed(DoAll(p, plan), r, s);
    StepsConcat(p, plan, RecordPlan(DoAll(p, plan), r, s), s);
  }

  lemma {:induction false} AppendPlanAllowed(p: Part, batch: seq<Record>, s: nat)
    requires s > 0 && Continues(p, batch)
    ensures AllAllowed(p, AppendPlan(p, batch, s), s) && Drop !in AppendPlan(p, batch, s)
    ensures var q := DoAll(p, AppendPlan(p, batch, s));
            && q.history == p.history + batch
            && Start(q) == Start(p)
            && (batch != [] ==> q.segs != [])
  {
    if batch == [] {
      assert p.history + batch == p.history;
    } else {
      hide RecordPlan, AllAllowed, DoAll, Start;
      var init, r := batch[..|batch| - 1], batch[|batch| - 1];
      AppendPlanAllowed(p, init, s);
      RecordPlanAfter(p, AppendPlan(p, init, s), r, s);
      Snoc(p.history, batch);
    }
  }

  lemma RecordPlanUnfold(p: Part, r: Record, s: nat)
    ensures var q := if NeedsRoll(p, s) then Do(p, Roll) else p;
            && DoAll(p, RecordPlan(p, r, s)) == Do(q, Put(r))
            && OpsOf(p, RecordPlan(p, r, s))
               == (if NeedsRoll(p, s) then [OpOf(p, Roll)] else []) + [OpOf(q, Put(r))]
  {
    OneStep(p, Put(r));
    if NeedsRoll(p, s) {
      OneStep(p, Roll);
      assert [Roll, Put(r)][..1] == [Roll];
    }
  }

  lemma AppendPlanGrows(p: Part, records: seq<Record>, i: nat, s: nat)
    requires s > 0 && Continues(p, records) && i < |records|
    ensures var plan, longer := AppendPlan(p, records[..i], s), AppendPlan(p, records[..i + 1], s);
            var q := DoAll(p, plan);
            && |q.history| == |p.history| + i
            && DoAll(p, longer) == DoAll(q, RecordPlan(q, records[i], s))
            && OpsOf(p, longer) == OpsOf(p, plan) + OpsOf(q, RecordPlan(q, records[i], s))
  {
    hide RecordPlan, DoAll, OpsOf, AllAllowed;
    var plan := AppendPlan(p, records[..i], s);
    AppendPlanAllowed(p, records[..i], s);
    assert records[..i + 1][..i] == records[..i];
    StepsConcat(p, plan, RecordPlan(DoAll(p, plan), records[i], s), s);
  }

  lemma Snoc<T>(a: seq<T>, b: seq<T>)
    requires b != []
    ensures a + b == a + b[..|b| - 1] + [b[|b| - 1]]
  {
  }

  lemma {:induction false} RetainPlanAllowed(p: Part, m: nat, s: nat)
    ensures AllAllowed(p, RetainPlan(p, m), s)
    ensures OnlyDrops(RetainPlan(p, m))
    decreases |p.segs|
  {
    if m > 0 && Total(p) > m && |p.segs| > 1 {
      var q := Do(p, Drop);
      RetainPlanAllowed(q, m, s);
      assert [Drop][..0] == [];
      assert DoAll(p, [Drop]) == q;
      StepsConcat(p, [Drop], RetainPlan(q, m), s);
    }
  }

  lemma CallPlanAllowed(p: Part, batch: seq<Record>, s: nat, m: nat)
    requires s > 0 && Continues(p, batch)
    ensures AllAllowed(p, CallPlan(p, batch, s, m), s)
  {
    var appends := AppendPlan(p, batch, s);
    AppendPlanAllowed(p, batch, s);
    RetainPlanAllowed(DoAll(p, appends), m, s);
    StepsConcat(p, appends, RetainPlan(DoAll(p, appends), m), s);
  }

  // ---- A crash inside the call ----------------------------------------------------------------

  /** The directory when the process dies after `k` steps and `cut` bytes of a record being written. */
  function CrashFiles(files: Files, p: Part, steps: seq<Step>, k: nat, cut: nat): Files
    requires k <= |steps|
  {
    var done := ApplyAll(files, OpsOf(p, steps)[..k]);
    if k < |steps| && steps[k].Put? then
      var e := Encode(steps[k].r);
      match OpsOf(p, steps)[k]
      case WriteFile(b, _) => Apply(done, WriteFile(b, e[..Min(cut, |e|)]))
      case _ => done
    else
      done
  }

  /** How many steps took full effect: a write counts once all of its bytes are down. */
  function Effective(steps: seq<Step>, k: nat, cut: nat): (j: nat)
    requires k <= |steps|
    ensures j <= |steps|
  {
    if k < |steps| && steps[k].Put? && cut >= |Encode(steps[k].r)| then k + 1 else k
  }

  function CrashPart(p: Part, steps: seq<Step>, k: nat, cut: nat): Part
    requires k <= |steps|
  {
    DoAll(p, steps[..Effective(steps, k, cut)])
  }

  lemma OpsOfAt(p: Part, steps: seq<Step>, k: nat)
    requires k < |steps|
    ensures OpsOf(p, steps)[k] == OpOf(DoAll(p, steps[..k]), steps[k])
  {
    StepsPrefix(p, steps, k + 1, 0);
    assert steps[..k + 1][..k] == steps[..k];
    assert OpsOf(p, steps)[k] == OpsOf(p, steps)[..k + 1][k];
  }

  lemma TornWriteKeepsImage(files: Files, p: Part, r: Record, torn: seq<Byte>, s: nat)
    requires WellFormedPart(p, s) && Holds(files, p) && p.segs != [] && Encodable(r) && torn < Encode(r)
    ensures Image(Apply(files, WriteFile(Last(p).base, torn)), p)
  {
    hide FileMatches, Scan, Encode;
    var n := |p.segs|;
    InBases(p.segs, n - 1);
    var b := Last(p).base;
    var files' := Apply(files, WriteFile(b, torn));
    ScanTorn(files[b], torn, r);
    forall i | 0 <= i < n
      ensures FileMatches(files', p, i)
    {
      InBases(p.segs, i);
      if i < n - 1 {
        assert p.segs[i].base + s <= p.segs[n - 1].base;
        FrameFile(files, p, i, files', p, i);
      } else {
        SameScan(files, files', p, i);
      }
    }
  }

  lemma SameScan(files: Files, files': Files, p: Part, i: nat)
    requires i < |p.segs| && FileMatches(files, p, i)
    requires p.segs[i].base in files' && Scan(files'[p.segs[i].base]).records == Scan(files[p.segs[i].base]).records
    ensures FileMatches(files', p, i)
  {
  }

  lemma HoldsImage(files: Files, p: Part)
    requires Holds(files, p)
    ensures Image(files, p)
  {
  }

  /** Wherever the crash falls, the directory is an image of the steps that took effect. */
  lemma CrashLeavesImage(files: Files, p: Part, steps: seq<Step>, k: nat, cut: nat, s: nat)
    requires WellFormedPart(p, s) && Holds(files, p) && AllAllowed(p, steps, s) && k <= |steps|
    ensures WellFormedPart(CrashPart(p, steps, k, cut), s)
    ensures Image(CrashFiles(files, p, steps, k, cut), CrashPart(p, steps, k, cut))
  {
    hide Image, Encode, WellFormedPart, Holds, DoAll, OpsOf, AllAllowed;
    StepsPrefix(p, steps, k, s);
    StepsKeep(files, p, steps[..k], s);
    HoldsImage(ApplyAll(files, OpsOf(p, steps)[..k]), DoAll(p, steps[..k]));
    if k < |steps| && steps[k].Put? {
      var q, r := DoAll(p, steps[..k]), steps[k].r;
      var e := Encode(r);
      OpsOfAt(p, steps, k);
      if cut < |e| {
        TornWriteKeepsImage(ApplyAll(files, OpsOf(p, steps)[..k]), q, r, e[..cut], s);
      } else {
        assert e[..Min(cut, |e|)] == e;
        StepsPrefix(p, steps, k + 1, s);
        StepsKeep(files, p, steps[..k + 1], s);
        HoldsImage(ApplyAll(files, OpsOf(p, steps[..k + 1])), DoAll(p, steps[..k + 1]));
        assert OpsOf(p, steps)[..k + 1][..k] == OpsOf(p, steps)[..k];
      }
    }
  }

  lemma {:induction false} StepsMonotone(p: Part, steps: seq<Step>, s: nat)
    requires WellFormedPart(p, s) && AllAllowed(p, steps, s)
    ensures var q := DoAll(p, steps);
            && WellFormedPart(q, s)
            && p.history <= q.history
            && Start(p) <= Start(q)
            && (Drop !in steps ==> Start(q) == Start(p))
            && (OnlyDrops(steps) ==> q.history == p.history)
  {
    hide WellFormedPart, Start, Do;
    if steps != [] {
      var init, step := steps[..|steps| - 1], steps[|steps| - 1];
      assert step in steps && forall x :: x in init ==> x in steps;
      StepsMonotone(p, init, s);
      StepMonotone(DoAll(p, init), step, s);
    }
  }

  lemma StepMonotone(p: Part, step: Step, s: nat)
    requires WellFormedPart(p, s) && Allowed(p, step, s)
    ensures var q := Do(p, step);
            && WellFormedPart(q, s)
            && p.history <= q.history
            && Start(p) <= Start(q)
            && (step != Drop ==> Start(q) == Start(p))
            && (step == Drop ==> q.history == p.history)
  {
    match step
    case Roll => RollWellFormed(p, s);
    case Put(r) => PutWellFormed(p, r, s);
    case Drop => DropWellFormed(p, s);
  }

  /** Between two points of one call the history only grows and the start only moves on. */
  lemma StepsBetween(p: Part, steps: seq<Step>, a: nat, b: nat, s: nat)
    requires WellFormedPart(p, s) && AllAllowed(p, steps, s) && a <= b <= |steps|
    ensures var q, q' := DoAll(p, steps[..a]), DoAll(p, steps[..b]);
            && WellFormedPart(q, s) && q.history <= q'.history && Start(q) <= Start(q')
            && (Drop !in steps[a..b] ==> Start(q) == Start(q'))
            && (OnlyDrops(steps[a..b]) ==> q.history == q'.history)
  {
    hide WellFormedPart, Start, DoAll, AllAllowed;
    StepsPrefix(p, steps, a, s);
    StepsPrefix(p, steps, b, s);
    StepsMonotone(p, steps[..a], s);
    assert steps[..a] + steps[a..b] == steps[..b];
    StepsConcat(p, steps[..a], steps[a..b], s);
    StepsMonotone(DoAll(p, steps[..a]), steps[a..b], s);
  }

  lemma PartialAppend(p: Part, batch: seq<Record>, s: nat, j: nat)
    requires WellFormedPart(p, s) && Continues(p, batch) && j <= |AppendPlan(p, batch, s)|
    ensures var q := DoAll(p, AppendPlan(p, batch, s)[..j]);
            p.history <= q.history <= p.history + batch && Start(q) == Start(p)
    ensures WellFormedPart(DoAll(p, AppendPlan(p, batch, s)), s)
  {
    hide AppendPlan, Start, Do;
    var plan := AppendPlan(p, batch, s);
    PositiveSegmentSize(p, s);
    AppendPlanAllowed(p, batch, s);
    StepsMonotone(p, plan, s);
    assert plan[..0] == [] && plan[..|plan|] == plan;
    StepsBetween(p, plan, 0, j, s);
    StepsBetween(p, plan, j, |plan|, s);
  }

  lemma PartialRetain(p: Part, s: nat, m: nat, j: nat)
    requires WellFormedPart(p, s) && j <= |RetainPlan(p, m)|
    ensures var q := DoAll(p, RetainPlan(p, m)[..j]);
            q.history == p.history && Start(p) <= Start(q) <= Start(DoAll(p, RetainPlan(p, m)))
  {
    hide RetainPlan, Start, Do;
    var plan := RetainPlan(p, m);
    RetainPlanAllowed(p, m, s);
    assert plan[..0] == [] && plan[..|plan|] == plan;
    assert forall step :: step in plan[0..j] ==> step in plan;
    StepsBetween(p, plan, 0, j, s);
    StepsBetween(p, plan, j, |plan|, s);
  }

  lemma ConcatPrefix<T>(a: seq<T>, b: seq<T>, j: nat)
    requires j <= |a| + |b|
    ensures (a + b)[..j] == if j <= |a| then a[..j] else a + b[..j - |a|]
  {
  }

  /**
    Any part of a call leaves the acknowledged history plus a prefix of the batch. Pruning has begun only
    when the whole batch is down, and has gone no further than the call itself would have.
   */
  lemma PartialCall(p: Part, batch: seq<Record>, s: nat, m: nat, j: nat)
    requires WellFormedPart(p, s) && Continues(p, batch) && j <= |CallPlan(p, batch, s, m)|
    ensures var q := DoAll(p, CallPlan(p, batch, s, m)[..j]);
            && p.history <= q.history <= p.history + batch
            && Start(p) <= Start(q) <= Start(Call(p, batch, s, m))
            && (q.history != p.history + batch ==> Start(q) == Start(p))
  {
    hide AppendPlan, RetainPlan, Start, DoAll, WellFormedPart;
    var appends := AppendPlan(p, batch, s);
    var full := DoAll(p, appends);
    var retains := RetainPlan(full, m);
    PositiveSegmentSize(p, s);
    AppendPlanAllowed(p, batch, s);
    PartialAppend(p, batch, s, Min(j, |appends|));
    PartialRetain(full, s, m, Max(j - |appends|, 0));
    StepsConcat(p, appends, retains, s);
    ConcatPrefix(appends, retains, j);
    if j > |appends| {
      StepsConcat(p, appends, retains[..j - |appends|], s);
    }
  }

  /** A completed call: the whole batch is down. */
  lemma CompleteCall(files: Files, p: Part, batch: seq<Record>, s: nat, m: nat)
    requires WellFormedPart(p, s) && Holds(files, p) && Continues(p, batch)
    ensures var q := Call(p, batch, s, m);
            && WellFormedPart(q, s)
            && Holds(ApplyAll(files, OpsOf(p, CallPlan(p, batch, s, m))), q)
            && q.history == p.history + batch
            && Start(p) <= Start(q)
  {
    hide Holds;
    var appends := AppendPlan(p, batch, s);
    CallPlanAllowed(p, batch, s, m);
    StepsKeep(files, p, CallPlan(p, batch, s, m), s);
    PartialCall(p, batch, s, m, 0);
    AppendPlanAllowed(p, batch, s);
    RetainPlanAllowed(DoAll(p, appends), m, s);
    StepsPrefix(p, CallPlan(p, batch, s, m), |appends|, s);
    StepsConcat(p, appends, RetainPlan(DoAll(p, appends), m), s);
    StepsMonotone(p, appends, s);
    StepsMonotone(DoAll(p, appends), RetainPlan(DoAll(p, appends), m), s);
  }

  lemma CallShape(p: Part, batch: seq<Record>, s: nat, m: nat)
    requires WellFormedPart(p, s) && Continues(p, batch)
    ensures Call(p, batch, s, m).history == p.history + batch && WellFormedPart(Call(p, batch, s, m), s)
  {
    hide AllAllowed, AppendPlan, RetainPlan, DoAll, WellFormedPart;
    var appends := AppendPlan(p, batch, s);
    PositiveSegmentSize(p, s);
    AppendPlanAllowed(p, batch, s);
    RetainPlanAllowed(DoAll(p, appends), m, s);
    StepsMonotone(p, appends, s);
    StepsMonotone(DoAll(p, appends), RetainPlan(DoAll(p, appends), m), s);
    StepsConcat(p, appends, RetainPlan(DoAll(p, appends), m), s);
  }

  // ---- Recovery -------------------------------------------------------------------------------

  /** Open the files named in `scanned`: each is cut where its scan stops. */
  function Repair(files: Files, scanned: set<nat>): Files {
    map b | b in files :: if b in scanned then files[b][..Scan(files[b]).end] else files[b]
  }

  lemma RepairKeepsImage(files: Files, scanned: set<nat>, p: Part)
    requires Image(files, p)
    ensures Image(Repair(files, scanned), p)
    ensures scanned == files.Keys ==> Holds(Repair(files, scanned), p)
  {
    hide FileMatches, Scan;
    var files' := Repair(files, scanned);
    assert files'.Keys == files.Keys;
    forall b | b in files
      ensures Scan(files'[b]).records == Scan(files[b]).records && (b in scanned ==> Clean(files'[b]))
    {
      TruncateKeepsScan(files[b]);
    }
    forall i | 0 <= i < |p.segs|
      ensures FileMatches(files', p, i)
    {
      InBases(p.segs, i);
      SameScan(files, files', p, i);
    }
  }

  // ---- Whole runs -----------------------------------------------------------------------------

  /**
    A store call that returns; a crash `k` steps and `cut` bytes into a call (k = 0 is a crash between
    calls); a recovery that itself dies after opening some of the files; a recovery that completes.
   */
  datatype Event =
    | Append(batch: seq<ProduceRecord>, timestamp: Millis)
    | Crash(batch: seq<ProduceRecord>, timestamp: Millis, k: nat, cut: nat)
    | FailedRecovery(scanned: set<nat>)
    | Recover

  /** The directory, the part it stands for, and whether a process is serving it. */
  datatype Durable = Durable(files: Files, part: Part, live: bool)

  const FRESH: Durable := Durable(map[], EMPTY, true)

  function Next(st: Durable, e: Event, s: nat, m: nat): Durable {
    match e
    case Append(batch, ts) =>
      if !st.live || |st.part.history| + |batch| > TWO_64 then st else
        var rs := Materialize(batch, |st.part.history|, ts);
        var plan := CallPlan(st.part, rs, s, m);
        Durable(ApplyAll(st.files, OpsOf(st.part, plan)), DoAll(st.part, plan), true)
    case Crash(batch, ts, k, cut) =>
      if !st.live || |st.part.history| + |batch| > TWO_64 then st else
        var rs := Materialize(batch, |st.part.history|, ts);
        var plan := CallPlan(st.part, rs, s, m);
        var k' := Min(k, |plan|);
        Durable(CrashFiles(st.files, st.part, plan, k', cut), CrashPart(st.part, plan, k', cut), false)
    case FailedRecovery(scanned) => if st.live then st else st.(files := Repair(st.files, scanned))
    case Recover => if st.live then st else st.(files := Repair(st.files, st.files.Keys), live := true)
  }

  function Run(events: seq<Event>, s: nat, m: nat): Durable {
    if events == [] then FRESH else Next(Run(events[..|events| - 1], s, m), events[|events| - 1], s, m)
  }

  ghost predicate EventEncodable(e: Event) {
    (e.Append? || e.Crash?) ==> BatchEncodable(e.batch)
  }

  ghost predicate Sound(st: Durable, s: nat) {
    && WellFormedPart(st.part, s)
    && Image(st.files, st.part)
    && (st.live ==> Holds(st.files, st.part))
  }

  lemma MaterializeContinues(p: Part, batch: seq<ProduceRecord>, ts: Millis)
    requires |p.history| + |batch| <= TWO_64 && BatchEncodable(batch)
    ensures Continues(p, Materialize(batch, |p.history|, ts))
  {
  }

  /** One event: the directory stays recoverable, no record is lost or renumbered, the start never goes back. */
  lemma NextSound(st: Durable, e: Event, s: nat, m: nat)
    requires Sound(st, s) && EventEncodable(e)
    ensures var st' := Next(st, e, s, m);
            && Sound(st', s)
            && st.part.history <= st'.part.history
            && Start(st.part) <= Start(st'.part)
  {
    hide Image, WellFormedPart, Start, CallPlan, Encode;
    match e
    case Append(batch, ts) =>
      if st.live && |st.part.history| + |batch| <= TWO_64 {
        MaterializeContinues(st.part, batch, ts);
        CompleteCall(st.files, st.part, Materialize(batch, |st.part.history|, ts), s, m);
      }
    case Crash(batch, ts, k, cut) =>
      if st.live && |st.part.history| + |batch| <= TWO_64 {
        var rs := Materialize(batch, |st.part.history|, ts);
        var plan := CallPlan(st.part, rs, s, m);
        var k' := Min(k, |plan|);
        MaterializeContinues(st.part, batch, ts);
        assert s > 0 by {
          PositiveSegmentSize(st.part, s);
        }
        CallPlanAllowed(st.part, rs, s, m);
        CrashLeavesImage(st.files, st.part, plan, k', cut, s);
        PartialCall(st.part, rs, s, m, Effective(plan, k', cut));
      }
    case FailedRecovery(scanned) =>
      RepairKeepsImage(st.files, scanned, st.part);
    case Recover =>
      RepairKeepsImage(st.files, st.files.Keys, st.part);
  }

  lemma PositiveSegmentSize(p: Part, s: nat)
    requires WellFormedPart(p, s)
    ensures s > 0
  {
  }

  lemma FreshSound(s: nat)
    requires s > 0
    ensures Sound(FRESH, s)
  {
    assert Bases([]) == {};
  }

  /**
    Over every run of calls, crashes and recoveries, the directory always recovers to one contiguous log, and
    what the log was at any earlier point is a prefix of what it is later: no offset is reused.
   */
  lemma {:induction false} RunSound(events: seq<Event>, i: nat, s: nat, m: nat)
    requires s > 0 && i <= |events| && forall e :: e in events ==> EventEncodable(e)
    ensures Sound(Run(events, s, m), s)
    ensures Run(events[..i], s, m).part.history <= Run(events, s, m).part.history
    ensures Start(Run(events[..i], s, m).part) <= Start(Run(events, s, m).part)
  {
    hide Sound, Start, Next;
    if events == [] {
      FreshSound(s);
    } else {
      var init, e := events[..|events| - 1], events[|events| - 1];
      RunSound(init, Min(i, |init|), s, m);
      NextSound(Run(init, s, m), e, s, m);
      if i < |events| {
        assert events[..i] == init[..i];
      } else {
        assert events[..i] == events;
      }
    }
  }

  /** Every record a returned call acknowledged is at its offset ever after. */
  lemma AcknowledgedForever(events: seq<Event>, i: nat, s: nat, m: nat)
    requires s > 0 && i < |events| && events[i].Append? && forall e :: e in events ==> EventEncodable(e)
    requires var st := Run(events[..i], s, m); st.live && |st.part.history| + |events[i].batch| <= TWO_64
    ensures var first := |Run(events[..i], s, m).part.history|;
            var rs := Materialize(events[i].batch, first, events[i].timestamp);
            var later := Run(events, s, m).part.history;
            first + |rs| <= |later| && later[first..first + |rs|] == rs
  {
    hide Sound, Start, CallPlan;
    var st, e := Run(events[..i], s, m), events[i];
    var rs := Materialize(e.batch, |st.part.history|, e.timestamp);
    RunSound(events[..i], i, s, m);
    assert events[..i + 1][..i] == events[..i];
    assert Run(events[..i + 1], s, m) == Next(st, e, s, m);
    assert e in events;
    MaterializeContinues(st.part, e.batch, e.timestamp);
    SoundParts(st, s);
    CompleteCall(st.files, st.part, rs, s, m);
    RunSound(events, i + 1, s, m);
    var mid, later := Run(events[..i + 1], s, m).part.history, Run(events, s, m).part.history;
    assert mid == st.part.history + rs && mid <= later;
    assert later[..|mid|] == mid;
  }

  lemma SoundParts(st: Durable, s: nat)
    requires Sound(st, s)
    ensures WellFormedPart(st.part, s) && (st.live ==> Holds(st.files, st.part))
  {
  }
}
