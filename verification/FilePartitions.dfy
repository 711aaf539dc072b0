/** `filestore.rs`: the state of one durable partition, and its recovery from the directory. */
module FilePartitions {
  import opened Prelude
  import opened Bytes
  import opened Codec
  import opened Scanning
  import opened Disks
  import opened Filtering
  import opened Segments
  import opened Logs
  import opened Parts
  import opened Recovery

  /** The open segment `seg` of directory `disk` is the one `g` describes. */
  ghost predicate Matches(seg: Segment, g: Seg, disk: Disk)
    reads seg, disk, seg.disk
  {
    seg.disk == disk && seg.base == g.base && seg.Len() == g.len && seg.Valid()
  }

  class PartitionState {
    const disk: Disk
    var segments: seq<Segment>
    var startOffset: nat
    var nextOffset: nat
    /** The part this state stands for, with the pruned head of its history. */
    ghost var model: Part

    /** `s` is the topic's `segment_max_records`. */
    ghost predicate Valid(s: nat)
      reads this, disk, segments, set i | 0 <= i < |segments| :: segments[i].disk
    {
      && WellFormedPart(model, s)
      && Holds(disk.files, model)
      && startOffset == Start(model)
      && nextOffset == |model.history|
      && |segments| == |model.segs|
      && forall i :: 0 <= i < |segments| ==> Matches(segments[i], model.segs[i], disk)
    }

    /** The partition as runs with crashes see it. */
    ghost function State(): Durable
      reads this, disk
    {
      Durable(disk.files, model, true)
    }

    constructor (disk: Disk)
      requires disk.files == map[]
      ensures this.disk == disk && segments == []
      ensures State() == FRESH && forall s :: s > 0 ==> Valid(s)
    {
      this.disk := disk;
      segments := [];
      startOffset, nextOffset := 0, 0;
      model := EMPTY;
    }

    function TotalRecords(): nat
      reads this
    {
      Max(nextOffset - startOffset, 0)
    }

    method RollSegment(ghost s: nat)
      requires Valid(s) && NeedsRoll(model, s)
      modifies this, disk
      ensures Valid(s) && model == Do(old(model), Roll)
      ensures disk.journal == old(disk.journal) + [OpOf(old(model), Roll)]
      ensures disk.files == Apply(old(disk.files), OpOf(old(model), Roll))
      ensures exists seg :: fresh(seg) && segments == old(segments) + [seg]
    {
      hide Holds, WellFormedPart, Scan, Do, Start;
      ghost var files, was, segs := disk.files, model, segments;
      RollWellFormed(was, s);
      RollKeeps(files, was, s);
      RollShape(was, s);
      HoldsKeys(files, was);
      var seg := new Segment.Create(disk, nextOffset);
      segments := segments + [seg];
      model := Do(model, Roll);
      forall i | 0 <= i < |segs|
        ensures Matches(segments[i], model.segs[i], disk)
      {
        InBases(was.segs, i);
        assert old(Matches(segs[i], was.segs[i], disk));
      }
    }

    method PutRecord(r: Record, ghost s: nat)
      requires Valid(s) && Allowed(model, Put(r), s)
      modifies this, disk, segments[|segments| - 1]
      ensures Valid(s) && model == Do(old(model), Put(r))
      ensures disk.journal == old(disk.journal) + [OpOf(old(model), Put(r))]
      ensures disk.files == Apply(old(disk.files), OpOf(old(model), Put(r)))
      ensures segments == old(segments)
    {
      hide Holds, WellFormedPart, Encode, Encodable, Scan, Do, Start, OpOf, Apply, Bases;
      ghost var files, was, segs := disk.files, model, segments;
      var seg := segments[|segments| - 1];
      PutWellFormed(was, r, s);
      PutKeeps(files, was, r, s);
      assert Matches(seg, Last(was), disk);
      PutShape(files, was, r);
      HoldsKeys(files, was);
      BasesDistinct(was, s);
      seg.Append(r);
      nextOffset := nextOffset + 1;
      model := Do(model, Put(r));
      assert Matches(seg, model.segs[|segments| - 1], disk);
      forall i | 0 <= i < |segments| - 1
        ensures Matches(segments[i], model.segs[i], disk)
      {
        InBases(was.segs, i);
        assert old(Matches(segs[i], was.segs[i], disk));
      }
    }

    method AppendRecords(records: seq<Record>, segmentMax: nat)
      requires Valid(segmentMax) && Continues(model, records)
      modifies this, disk, segments
      ensures Valid(segmentMax)
      ensures var plan := AppendPlan(old(model), records, segmentMax);
              && model == DoAll(old(model), plan)
              && disk.journal == old(disk.journal) + OpsOf(old(model), plan)
              && disk.files == ApplyAll(old(disk.files), OpsOf(old(model), plan))
      ensures forall seg :: seg in segments ==> seg in old(segments) || fresh(seg)
    {
      hide Valid, OpsOf, DoAll, AppendPlan, RecordPlan, Do, OpOf, Apply, ApplyAll;
      ghost var was, files := model, disk.files;
      NothingApplied(files);
      SizeIsPositive(segmentMax);
      assert records[..0] == [];
      EmptyPlan(was, segmentMax);
      for i := 0 to |records|
        invariant Valid(segmentMax)
        invariant model == DoAll(was, AppendPlan(was, records[..i], segmentMax))
        invariant disk.journal == old(disk.journal) + OpsOf(was, AppendPlan(was, records[..i], segmentMax))
        invariant disk.files == ApplyAll(files, OpsOf(was, AppendPlan(was, records[..i], segmentMax)))
        invariant forall seg :: seg in segments ==> seg in old(segments) || fresh(seg)
      {
        var rec := records[i];
        AppendPlanGrows(was, records, i, segmentMax);
        RecordPlanUnfold(model, rec, segmentMax);
        ghost var ops := OpsOf(was, AppendPlan(was, records[..i], segmentMax));
        RollDecision(segmentMax);
        var roll := segments == [] || segments[|segments| - 1].Len() >= segmentMax;
        if roll {
          RollGivesRoom(model, segmentMax);
          AppliedSnoc(files, ops, OpOf(model, Roll));
          ops := ops + [OpOf(model, Roll)];
          RollSegment(segmentMax);
        }
        NotEmpty(segmentMax);
        assert segments[|segments| - 1] in segments;
        AppliedSnoc(files, ops, OpOf(model, Put(rec)));
        assert ops + [OpOf(model, Put(rec))] == OpsOf(was, AppendPlan(was, records[..i + 1], segmentMax));
        PutRecord(rec, segmentMax);
      }
      assert records[..|records|] == records;
    }

    lemma SegmentsOnDisk(s: nat)
      requires Valid(s)
      ensures forall seg :: seg in segments ==> seg.disk == disk
    {
      forall i | 0 <= i < |segments|
        ensures segments[i].disk == disk
      {
        assert Matches(segments[i], model.segs[i], disk);
      }
    }

    lemma SizeIsPositive(s: nat)
      requires Valid(s)
      ensures s > 0
    {
    }

    lemma NotEmpty(s: nat)
      requires Valid(s)
      ensures |segments| == |model.segs|
    {
    }

    lemma RollDecision(s: nat)
      requires Valid(s)
      ensures (segments == [] || segments[|segments| - 1].Len() >= s) <==> NeedsRoll(model, s)
    {
      if segments != [] {
        assert Matches(segments[|segments| - 1], model.segs[|segments| - 1], disk);
      }
    }

    method DropHead(ghost s: nat)
      requires Valid(s) && |segments| > 1
      modifies this, disk
      ensures Valid(s) && model == Do(old(model), Drop)
      ensures disk.journal == old(disk.journal) + [OpOf(old(model), Drop)]
      ensures disk.files == Apply(old(disk.files), OpOf(old(model), Drop))
      ensures segments == old(segments)[1..]
    {
      hide Holds, WellFormedPart, Scan, Do, Start, Bases;
      ghost var files, was, segs := disk.files, model, segments;
      var seg := segments[0];
      assert Matches(seg, was.segs[0], disk);
      DropWellFormed(was, s);
      DropKeeps(files, was, s);
      DropShape(was);
      HoldsKeys(files, was);
      BasesDistinct(was, s);
      segments := segments[1..];
      seg.Remove();
      startOffset := segments[0].base;
      model := Do(model, Drop);
      forall i | 0 <= i < |segments|
        ensures Matches(segments[i], model.segs[i], disk)
      {
        InBases(was.segs, i + 1);
        assert old(Matches(segs[i + 1], was.segs[i + 1], disk));
      }
    }

    method ApplyRetention(maxRecords: nat, ghost s: nat) returns (truncatedTo: Option<nat>)
      requires Valid(s)
      modifies this, disk
      ensures Valid(s)
      ensures var plan := RetainPlan(old(model), maxRecords);
              && model == DoAll(old(model), plan)
              && disk.journal == old(disk.journal) + OpsOf(old(model), plan)
              && disk.files == ApplyAll(old(disk.files), OpsOf(old(model), plan))
              && truncatedTo == if plan == [] then None else Some(startOffset)
      ensures forall seg :: seg in segments ==> seg in old(segments)
    {
      hide Valid, DoAll, OpsOf, Apply, ApplyAll;
      ghost var was, files := model, disk.files;
      ghost var done: seq<Step> := [];
      NothingApplied(files);
      EmptySteps(was);
      if maxRecords == 0 {
        return None;
      }
      var pruned := false;
      Measures(s);
      while TotalRecords() > maxRecords && |segments| > 1
        invariant Valid(s)
        invariant TotalRecords() == Total(model) && |segments| == |model.segs|
        invariant model == DoAll(was, done)
        invariant disk.journal == old(disk.journal) + OpsOf(was, done)
        invariant disk.files == ApplyAll(files, OpsOf(was, done))
        invariant done + RetainPlan(model, maxRecords) == RetainPlan(was, maxRecords)
        invariant pruned == (done != [])
        invariant forall seg :: seg in segments ==> seg in old(segments)
        decreases |segments|
      {
        StepsConcat(was, done, [Drop], s);
        OneStep(model, Drop);
        AppliedSnoc(files, OpsOf(was, done), OpOf(model, Drop));
        DropHead(s);
        Measures(s);
        done := done + [Drop];
        pruned := true;
      }
      assert done + [] == done;
      truncatedTo := if pruned then Some(startOffset) else None;
    }

    /** The partition's part of `Inner::append`: assign offsets, append, prune. */
    method Append(batch: seq<ProduceRecord>, timestamp: Millis, segmentMax: nat, maxRecords: nat)
      returns (records: seq<Record>, truncatedTo: Option<nat>)
      requires Valid(segmentMax) && BatchEncodable(batch)
      requires nextOffset + |batch| <= TWO_64
      modifies this, disk, segments
      ensures Valid(segmentMax)
      ensures records == Materialize(batch, old(nextOffset), timestamp)
      ensures model == Call(old(model), records, segmentMax, maxRecords)
      ensures disk.journal == old(disk.journal) + OpsOf(old(model), CallPlan(old(model), records, segmentMax, maxRecords))
      ensures State() == Next(old(State()), Event.Append(batch, timestamp), segmentMax, maxRecords)
      ensures truncatedTo == if old(startOffset) == startOffset then None else Some(startOffset)
      ensures forall seg :: seg in segments ==> seg in old(segments) || fresh(seg)
    {
      hide Valid, DoAll, OpsOf, AppendPlan, RetainPlan, AllAllowed, Continues, ApplyAll;
      ghost var was := model;
      Offsets(segmentMax);
      records := AssignOffsets(batch, nextOffset, timestamp);
      MaterializeContinues(was, batch, timestamp);
      AppendRecords(records, segmentMax);
      ghost var mid := model;
      Offsets(segmentMax);
      AppendPlanAllowed(was, records, segmentMax);
      truncatedTo := ApplyRetention(maxRecords, segmentMax);
      Offsets(segmentMax);
      RetainMoves(mid, maxRecords, segmentMax);
      StepsConcat(was, AppendPlan(was, records, segmentMax), RetainPlan(mid, maxRecords), segmentMax);
      ApplyAllConcat(old(disk.files), OpsOf(was, AppendPlan(was, records, segmentMax)),
                     OpsOf(mid, RetainPlan(mid, maxRecords)));
    }

    lemma Offsets(s: nat)
      requires Valid(s)
      ensures s > 0 && WellFormedPart(model, s) && startOffset == Start(model) && nextOffset == |model.history|
    {
    }

    method Fetch(from: nat, max: nat, ghost s: nat) returns (res: FetchResult)
      requires Valid(s)
      ensures res == Logs.Fetch(AsLog(model), from, max)
    {
      hide Valid, WellFormedPart, Scan, Reached, Window, FetchEnd, Start, Logs.Fetch, DenseFrom, FilterFrom, Take;
      var first := Max(from, startOffset);
      var out: seq<Record>, remaining := [], max;
      ghost var last := FetchEnd(model, first, max);
      Offsets(s);
      NotEmpty(s);
      ReachNothing(model, first, last, s);
      var i := 0;
      while i < |segments|
        invariant i <= |segments|
        invariant out == Window(model.history, first, Reached(model, i, first, last))
        invariant |out| <= max && remaining == max - |out|
      {
        if remaining == 0 {
          break;
        }
        SegmentAt(s, i);
        var seg := segments[i];
        var segLast := seg.base + seg.Len();
        if first < segLast {
          ReachRead(model, i, first, max, out, s);
          var n;
          n, out := seg.ReadFrom(first, remaining, out);
          remaining := remaining - n;
        } else {
          ReachSkip(model, i, first, last, s);
        }
        i := i + 1;
      }
      ReachAll(model, i, first, max, out);
      FetchDone(model, from, max, out, s);
      var following := if out == [] then first else out[|out| - 1].offset + 1;
      res := FetchResult(out, following, nextOffset);
    }

    /** An open segment's contents are its slice of the history. */
    lemma SegmentAt(s: nat, i: nat)
      requires Valid(s) && i < |segments|
      ensures && Matches(segments[i], model.segs[i], disk)
              && model.segs[i].base + model.segs[i].len <= |model.history|
              && segments[i].Contents() == model.history[model.segs[i].base..model.segs[i].base + model.segs[i].len]
              && DenseFrom(segments[i].Contents(), segments[i].base)
              && (i == 0 ==> model.segs[0].base == startOffset)
    {
      hide Scan;
      assert Matches(segments[i], model.segs[i], disk);
      assert FileMatches(disk.files, model, i);
    }

    constructor Assemble(disk: Disk, segments: seq<Segment>, startOffset: nat, nextOffset: nat, ghost model: Part)
      ensures this.disk == disk && this.segments == segments
      ensures this.startOffset == startOffset && this.nextOffset == nextOffset && this.model == model
    {
      this.disk := disk;
      this.segments := segments;
      this.startOffset := startOffset;
      this.nextOffset := nextOffset;
      this.model := model;
    }

    /**
      `recover_partition`: open every file of the sorted directory listing. When the directory is an image of
      `p`, torn tail or not, the state is valid again and stands for `p`.
     */
    static method Recover(disk: Disk, bases: seq<nat>, ghost p: Part) returns (part: PartitionState)
      requires Increasing(bases) && Lists(bases, disk.files)
      modifies disk
      ensures fresh(part) && part.disk == disk
      ensures |part.segments| == |bases| && forall i :: 0 <= i < |bases| ==> fresh(part.segments[i])
      ensures forall i :: 0 <= i < |bases| ==>
                && Reopened(part.segments[i], disk, bases[i])
                && part.segments[i].Contents() == Scan(old(disk.files)[bases[i]]).records
      ensures part.startOffset == if bases == [] then 0 else bases[0]
      ensures part.nextOffset == if bases == [] then 0 else
                bases[|bases| - 1] + |Scan(old(disk.files)[bases[|bases| - 1]]).records|
      ensures disk.files == Repair(old(disk.files), old(disk.files).Keys)
      ensures disk.journal == old(disk.journal) + RepairPlans(old(disk.files), bases)
      ensures forall s :: WellFormedPart(p, s) && Image(old(disk.files), p) ==> part.Valid(s)
      ensures forall s, m :: part.State() == Next(Durable(old(disk.files), p, false), Event.Recover, s, m)
    {
      hide Scan, Image, WellFormedPart, Holds, Repair, RepairPlans;
      ghost var files := disk.files;
      var segments := OpenAll(disk, bases);
      var startOffset := if segments == [] then 0 else segments[0].base;
      var nextOffset := if segments == [] then 0 else segments[|segments| - 1].base + segments[|segments| - 1].Len();
      part := new PartitionState.Assemble(disk, segments, startOffset, nextOffset, p);
      forall s | WellFormedPart(p, s) && Image(files, p)
        ensures part.Valid(s)
      {
        part.RecoveredIsValid(files, bases, s);
      }
    }

    lemma RecoveredIsValid(files: Files, bases: seq<nat>, s: nat)
      requires WellFormedPart(model, s) && Image(files, model)
      requires Increasing(bases) && Lists(bases, files)
      requires disk.files == Repair(files, files.Keys)
      requires |segments| == |bases|
      requires forall i :: 0 <= i < |bases| ==>
                 Reopened(segments[i], disk, bases[i]) && segments[i].Contents() == Scan(files[bases[i]]).records
      requires startOffset == if bases == [] then 0 else bases[0]
      requires nextOffset == if bases == [] then 0 else bases[|bases| - 1] + |Scan(files[bases[|bases| - 1]]).records|
      ensures Valid(s)
    {
      hide Scan, WellFormedPart, Holds;
      ListingIsBases(model, files, bases, s);
      RepairKeepsImage(files, files.Keys, model);
      EndsOf(model, s);
      forall i | 0 <= i < |segments|
        ensures Matches(segments[i], model.segs[i], disk)
        ensures |Scan(files[bases[i]]).records| == model.segs[i].len
      {
        assert Reopened(segments[i], disk, bases[i]) && FileMatches(files, model, i);
      }
    }

    lemma Measures(s: nat)
      requires Valid(s)
      ensures TotalRecords() == Total(model) && |segments| == |model.segs|
    {
      StartInside(model, s);
    }
  }

  method OpenAll(disk: Disk, bases: seq<nat>) returns (segments: seq<Segment>)
    requires Increasing(bases) && Lists(bases, disk.files)
    modifies disk
    ensures |segments| == |bases| && forall i :: 0 <= i < |bases| ==> fresh(segments[i])
    ensures forall i :: 0 <= i < |bases| ==>
              Reopened(segments[i], disk, bases[i]) && segments[i].Contents() == Scan(old(disk.files)[bases[i]]).records
    ensures disk.files == Repair(old(disk.files), old(disk.files).Keys)
    ensures disk.journal == old(disk.journal) + RepairPlans(old(disk.files), bases)
  {
    hide Scan, Repair, RepairPlans;
    ghost var files := disk.files;
    segments := [];
    RepairNothing(files);
    assert bases[..0] == [] && Elements([]) == {};
    for i := 0 to |bases|
      invariant |segments| == i
      invariant disk.files == Repair(files, Elements(bases[..i]))
      invariant forall b :: b in bases[..i] ==> b in files
      invariant disk.journal == old(disk.journal) + RepairPlans(files, bases[..i])
      invariant forall k :: 0 <= k < i ==> fresh(segments[k]) && Reopened(segments[k], disk, bases[k])
      invariant forall k :: 0 <= k < i ==> segments[k].Contents() == Scan(files[bases[k]]).records
    {
      RepairOneMore(files, bases, i);
      label before:
      var seg := Segment.Open(disk, bases[i]);
      forall k | 0 <= k < i
        ensures Reopened(segments[k], disk, bases[k])
        ensures segments[k].Contents() == Scan(files[bases[k]]).records
      {
        assert old@before(Reopened(segments[k], disk, bases[k]));
        assert old@before(segments[k].Contents()) == segments[k].Contents();
      }
      segments := segments + [seg.value];
    }
    assert bases[..|bases|] == bases;
    RepairAll(files, bases);
  }

  method AssignOffsets(batch: seq<ProduceRecord>, first: nat, timestamp: Millis) returns (records: seq<Record>)
    requires first + |batch| <= TWO_64
    ensures records == Materialize(batch, first, timestamp)
  {
    records := [];
    var next := first;
    for i := 0 to |batch|
      invariant next == first + i
      invariant |records| == i && forall k :: 0 <= k < i ==> records[k] == Materialize(batch, first, timestamp)[k]
    {
      records := records + [Record(next, timestamp, batch[i].key, batch[i].payload)];
      next := next + 1;
    }
  }

  lemma NothingApplied(files: Files)
    ensures ApplyAll(files, []) == files
  {
  }

  lemma AppliedSnoc(files: Files, ops: seq<DiskOp>, op: DiskOp)
    ensures ApplyAll(files, ops + [op]) == Apply(ApplyAll(files, ops), op)
  {
    assert (ops + [op])[..|ops|] == ops;
  }

  lemma {:induction false} RetainMoves(p: Part, m: nat, s: nat)
    requires WellFormedPart(p, s)
    ensures var plan := RetainPlan(p, m); plan == [] <==> Start(DoAll(p, plan)) == Start(p)
    decreases |p.segs|
  {
    var plan := RetainPlan(p, m);
    if plan != [] {
      var q := Do(p, Drop);
      DropWellFormed(p, s);
      RetainPlanAllowed(q, m, s);
      StepsMonotone(q, RetainPlan(q, m), s);
      OneStep(p, Drop);
      StepsConcat(p, [Drop], RetainPlan(q, m), s);
      BasesDistinct(p, s);
    } else {
      EmptySteps(p);
    }
  }

  // ---- Reopening a directory ------------------------------------------------------------------

  ghost predicate Reopened(seg: Segment, disk: Disk, base: nat)
    reads seg, disk, seg.disk
  {
    seg.disk == disk && seg.base == base && seg.Valid()
  }

  ghost predicate Lists(bases: seq<nat>, files: Files) {
    forall b :: b in bases <==> b in files
  }

  ghost function Elements(xs: seq<nat>): set<nat> {
    set x | x in xs
  }

  /** The truncations a recovery makes, file by file. */
  function RepairPlans(files: Files, bases: seq<nat>): seq<DiskOp>
    requires forall b :: b in bases ==> b in files
  {
    if bases == [] then [] else
      var b := bases[|bases| - 1];
      RepairPlans(files, bases[..|bases| - 1]) + RepairPlan(b, files[b])
  }

  lemma RepairNothing(files: Files)
    ensures Repair(files, {}) == files && RepairPlans(files, []) == []
  {
  }

  lemma RepairOneMore(files: Files, bases: seq<nat>, i: nat)
    requires Increasing(bases) && Lists(bases, files) && i < |bases|
    ensures var done, b := Repair(files, Elements(bases[..i])), bases[i];
            && b in done && done[b] == files[b]
            && Repair(files, Elements(bases[..i + 1])) == done[b := files[b][..Scan(files[b]).end]]
            && RepairPlans(files, bases[..i + 1]) == RepairPlans(files, bases[..i]) + RepairPlan(b, files[b])
            && forall k :: 0 <= k < i ==> bases[k] != b
  {
    hide Scan;
    var b := bases[i];
    assert b in bases;
    assert bases[..i + 1][..i] == bases[..i];
    assert bases[..i + 1] == bases[..i] + [b];
    assert b !in bases[..i];
    assert Elements(bases[..i + 1]) == Elements(bases[..i]) + {b};
  }

  lemma RepairAll(files: Files, bases: seq<nat>)
    requires Lists(bases, files)
    ensures Elements(bases) == files.Keys
  {
  }

  /** A recovery that dies part way has repaired some of the files and left the rest: the event FailedRecovery. */
  lemma {:induction false} PartialRecovery(files: Files, bases: seq<nat>)
    requires Increasing(bases) && forall b :: b in bases ==> b in files
    ensures ApplyAll(files, RepairPlans(files, bases)) == Repair(files, Elements(bases))
  {
    hide Scan;
    if bases == [] {
      RepairNothing(files);
    } else {
      var init, b := bases[..|bases| - 1], bases[|bases| - 1];
      PartialRecovery(files, init);
      assert Elements(bases) == Elements(init) + {b} && b !in init;
      ApplyAllConcat(files, RepairPlans(files, init), RepairPlan(b, files[b]));
      RepairOne(files, Elements(init), b);
    }
  }

  lemma RepairOne(files: Files, done: set<nat>, b: nat)
    requires b in files && b !in done
    ensures ApplyAll(Repair(files, done), RepairPlan(b, files[b])) == Repair(files, done + {b})
  {
    hide Scan;
    var plan := RepairPlan(b, files[b]);
    if plan == [] {
      assert files[b][..|files[b]|] == files[b];
    } else {
      assert plan[..0] == [];
      assert ApplyAll(Repair(files, done), plan) == Apply(Repair(files, done), plan[0]);
    }
  }

  lemma NoElements(xs: seq<nat>)
    ensures Elements(xs) == {} <==> xs == []
  {
    if xs != [] {
      assert xs[0] in Elements(xs);
    }
  }

  lemma {:induction false} IncreasingIsSorted(xs: seq<nat>, ys: seq<nat>)
    requires Increasing(xs) && Increasing(ys) && Elements(xs) == Elements(ys)
    ensures xs == ys
  {
    if xs == [] || ys == [] {
      NoElements(xs);
      NoElements(ys);
    } else {
      var x, y := xs[|xs| - 1], ys[|ys| - 1];
      assert x in Elements(ys) && y in Elements(xs);
      var init, init' := xs[..|xs| - 1], ys[..|ys| - 1];
      assert Elements(init) == Elements(xs) - {x} && Elements(init') == Elements(ys) - {y};
      IncreasingIsSorted(init, init');
      assert xs == init + [x] && ys == init' + [y];
    }
  }

  lemma EndsOf(p: Part, s: nat)
    requires WellFormedPart(p, s)
    ensures p.segs == [] ==> Start(p) == |p.history| == 0
    ensures p.segs != [] ==> Start(p) == p.segs[0].base && |p.history| == Last(p).base + Last(p).len
  {
  }

  lemma ListingIsBases(p: Part, files: Files, bases: seq<nat>, s: nat)
    requires WellFormedPart(p, s) && Image(files, p) && Increasing(bases) && Lists(bases, files)
    ensures |bases| == |p.segs| && forall i :: 0 <= i < |bases| ==> bases[i] == p.segs[i].base
  {
    var xs := seq(|p.segs|, i requires 0 <= i < |p.segs| => p.segs[i].base);
    BasesDistinct(p, s);
    RepairAll(files, bases);
    forall b | b in Bases(p.segs)
      ensures b in Elements(xs)
    {
      var i :| 0 <= i < |p.segs| && p.segs[i].base == b;
      assert xs[i] == b;
    }
    assert Elements(xs) == Elements(bases);
    IncreasingIsSorted(xs, bases);
  }

  // ---- Reading across segments ----------------------------------------------------------------

  /** How far a fetch of `first` up to `last` has come once the segments before `i` have been read. */
  ghost function Reached(p: Part, i: nat, first: nat, last: nat): (r: nat)
    requires i <= |p.segs|
    ensures first <= r && (r == first || r <= last)
  {
    Max(first, Min(last, if i < |p.segs| then p.segs[i].base else |p.history|))
  }

  ghost function FetchEnd(p: Part, first: nat, max: nat): (e: nat)
    ensures first <= e && (e == first || e <= |p.history|)
  {
    Max(first, Min(first + max, |p.history|))
  }

  /** A segment wholly before `first` adds nothing. */
  lemma ReachSkip(p: Part, i: nat, first: nat, last: nat, s: nat)
    requires WellFormedPart(p, s) && i < |p.segs|
    requires p.segs[i].base + p.segs[i].len <= first
    ensures Reached(p, i + 1, first, last) == Reached(p, i, first, last)
  {
    SegsInside(p, s, i);
    assert i + 1 < |p.segs| ==> p.segs[i].base + s == p.segs[i + 1].base;
  }

  /** A segment that reaches past `first` takes the window on to its own end, or to the end of the fetch. */
  lemma ReachRead(p: Part, i: nat, first: nat, max: nat, out: seq<Record>, s: nat)
    requires WellFormedPart(p, s) && i < |p.segs|
    requires first < p.segs[i].base + p.segs[i].len <= |p.history|
    requires i == 0 ==> p.segs[0].base <= first
    requires out == Window(p.history, first, Reached(p, i, first, FetchEnd(p, first, max))) && |out| < max
    ensures var g := p.segs[i];
            var rs := p.history[g.base..g.base + g.len];
            var k := Min(Max(first - g.base, 0), |rs|);
            var n := Min(max - |out|, |rs| - k);
            out + rs[k..k + n] == Window(p.history, first, Reached(p, i + 1, first, FetchEnd(p, first, max)))
  {
    hide WellFormedPart, Reached, FetchEnd, Window;
    var h, g, last := p.history, p.segs[i], FetchEnd(p, first, max);
    var a, b := Reached(p, i, first, last), Reached(p, i + 1, first, last);
    var k := Max(first - g.base, 0);
    WindowLength(h, first, a);
    ReachNumbers(p, i, first, max, s);
    SliceOfSlice(h, g.base, g.base + g.len, k, k + (b - a));
    JoinWindows(h, first, a, b);
  }

  lemma WindowLength(h: seq<Record>, first: nat, last: nat)
    requires first < last ==> last <= |h|
    ensures |Window(h, first, last)| == Max(last - first, 0)
  {
  }

  lemma ReachNumbers(p: Part, i: nat, first: nat, max: nat, s: nat)
    requires WellFormedPart(p, s) && i < |p.segs|
    requires first < p.segs[i].base + p.segs[i].len <= |p.history|
    requires i == 0 ==> p.segs[0].base <= first
    ensures var g, last := p.segs[i], FetchEnd(p, first, max);
            var a, b := Reached(p, i, first, last), Reached(p, i + 1, first, last);
            var k := Max(first - g.base, 0);
            a - first < max ==> a == g.base + k && b == a + Min(max - (a - first), g.len - k) <= |p.history|
  {
    assert i + 1 < |p.segs| ==> p.segs[i].base + s == p.segs[i + 1].base && p.segs[i].len == s;
  }

  lemma ReachNothing(p: Part, first: nat, last: nat, s: nat)
    requires WellFormedPart(p, s) && Start(p) <= first
    ensures Start(p) <= |p.history| && Window(p.history, first, Reached(p, 0, first, last)) == []
  {
    StartInside(p, s);
  }

  lemma FetchDone(p: Part, from: nat, max: nat, out: seq<Record>, s: nat)
    requires WellFormedPart(p, s)
    requires var first := Max(from, Start(p)); out == Window(p.history, first, FetchEnd(p, first, max))
    ensures Start(p) <= |p.history|
    ensures var following := if out == [] then Max(from, Start(p)) else out[|out| - 1].offset + 1;
            Logs.Fetch(AsLog(p), from, max) == FetchResult(out, following, |p.history|)
  {
    PartIsLog(p, s);
    FetchNextOffset(AsLog(p), from, max);
  }

  lemma PartIsLog(p: Part, s: nat)
    requires WellFormedPart(p, s)
    ensures WellFormed(AsLog(p))
  {
    StartInside(p, s);
  }

  /** When the loop stops, for either reason, the window is the whole fetch. */
  lemma ReachAll(p: Part, i: nat, first: nat, max: nat, out: seq<Record>)
    requires i <= |p.segs| && out == Window(p.history, first, Reached(p, i, first, FetchEnd(p, first, max)))
    requires i == |p.segs| || |out| == max
    ensures out == Window(p.history, first, FetchEnd(p, first, max))
  {
  }

  lemma StartInside(p: Part, s: nat)
    requires WellFormedPart(p, s)
    ensures Start(p) <= |p.history|
  {
    if |p.segs| > 1 {
      assert p.segs[0].base + s <= p.segs[|p.segs| - 1].base;
    }
  }

  lemma EmptySteps(p: Part)
    ensures DoAll(p, []) == p && OpsOf(p, []) == []
  {
  }

  lemma EmptyPlan(p: Part, s: nat)
    ensures DoAll(p, AppendPlan(p, [], s)) == p && OpsOf(p, AppendPlan(p, [], s)) == []
  {
  }

  lemma RollGivesRoom(p: Part, s: nat)
    requires s > 0
    ensures !NeedsRoll(Do(p, Roll), s) && Do(p, Roll).segs != [] && Do(p, Roll).history == p.history
  {
  }

  lemma RollShape(p: Part, s: nat)
    requires WellFormedPart(p, s)
    ensures Do(p, Roll).segs == p.segs + [Seg(|p.history|, 0)] && Do(p, Roll).history == p.history
    ensures Start(Do(p, Roll)) == Start(p)
  {
  }

  lemma DropShape(p: Part)
    requires |p.segs| > 1
    ensures Do(p, Drop) == Part(p.history, p.segs[1..])
    ensures Start(p) == p.segs[0].base && Start(Do(p, Drop)) == p.segs[1].base
  {
  }

  lemma PutShape(files: Files, p: Part, r: Record)
    requires p.segs != [] && Last(p).base in files
    ensures var b := Last(p).base;
            && OpOf(p, Put(r)) == WriteFile(b, Encode(r))
            && Apply(files, OpOf(p, Put(r))) == files[b := files[b] + Encode(r)]
    ensures var q, n := Do(p, Put(r)), |p.segs|;
            && |q.segs| == n
            && (forall i :: 0 <= i < n - 1 ==> q.segs[i] == p.segs[i])
            && q.segs[n - 1] == Seg(Last(p).base, Last(p).len + 1)
            && |q.history| == |p.history| + 1
            && Start(q) == Start(p)
  {
  }

  lemma HoldsKeys(files: Files, p: Part)
    requires Holds(files, p)
    ensures files.Keys == Bases(p.segs)
  {
  }

  lemma BasesDistinct(p: Part, s: nat)
    requires WellFormedPart(p, s)
    ensures forall i, j :: 0 <= i < j < |p.segs| ==> p.segs[i].base < p.segs[j].base
  {
  }
}
