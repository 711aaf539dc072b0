/** The log store behind the port a runtime holds: a partition in memory or one on disk. */
module LogPorts {
  import opened Bytes
  import opened Codec
  import opened Logs
  import opened Parts
  import opened Recovery
  import opened Retention
  import opened FilePartitions
  import opened MemPartitions
  import opened Stores

  class LogPort {
    const mem: Partition?
    const file: PartitionState?
    const segmentMax: nat
    const maxRecords: nat
    /** What the store stands for. */
    ghost var history: seq<Record>
    ghost var startOffset: nat
    ghost var Repr: set<object>

    ghost function AsLog(): Log
      reads this
    {
      Log(history, startOffset)
    }

    ghost predicate Valid()
      reads this, Repr
    {
      && this !in Repr
      && WellFormed(AsLog())
      && (mem == null) != (file == null)
      && (mem != null ==> mem in Repr && mem.Valid(segmentMax) && mem.AsLog() == AsLog())
      && (file != null ==> file in Repr && Owned(file, Repr) && file.Valid(segmentMax) && Parts.AsLog(file.model) == AsLog())
    }

    constructor OfMemory(mem: Partition, segmentMax: nat, maxRecords: nat)
      requires mem.Valid(segmentMax)
      ensures Valid() && AsLog() == mem.AsLog() && Repr == {mem}
      ensures this.mem == mem && file == null && this.segmentMax == segmentMax && this.maxRecords == maxRecords
    {
      this.mem, this.file, this.segmentMax, this.maxRecords := mem, null, segmentMax, maxRecords;
      history, startOffset, Repr := mem.history, mem.startOffset, {mem};
    }

    constructor OfFiles(file: PartitionState, segmentMax: nat, maxRecords: nat, ghost repr: set<object>)
      requires file.Valid(segmentMax) && Owned(file, repr)
      ensures Valid() && AsLog() == Parts.AsLog(file.model) && Repr == repr
      ensures this.file == file && mem == null && this.segmentMax == segmentMax && this.maxRecords == maxRecords
    {
      hide PartitionState.Valid, WellFormedPart, Start, Dense, Owned;
      this.mem, this.file, this.segmentMax, this.maxRecords := null, file, segmentMax, maxRecords;
      history, startOffset, Repr := file.model.history, Start(file.model), repr;
      file.Offsets(segmentMax);
      PartIsLog(file.model, segmentMax);
      new;
      OwnedParts(file, repr);
    }

    lemma LogIsWellFormed()
      requires Valid()
      ensures WellFormed(AsLog())
    {
    }

    function NextOffset(): nat
      requires Valid()
      reads this, Repr
      ensures NextOffset() == |history|
    {
      if mem != null then mem.nextOffset else
        file.Offsets(segmentMax);
        file.nextOffset
    }

    /** A file can hold the batch only when its lengths fit their fields. */
    predicate Accepts(batch: seq<ProduceRecord>) {
      file != null ==> BatchEncodable(batch)
    }

    method Append(batch: seq<ProduceRecord>, timestamp: Millis)
      requires Valid() && Accepts(batch) && |history| + |batch| <= TWO_64
      modifies this, Repr
      ensures Valid() && fresh(Repr - old(Repr))
      ensures history == old(history) + Materialize(batch, |old(history)|, timestamp)
      ensures old(startOffset) <= startOffset
      ensures old(Settled()) && batch != [] ==> Settled()
      ensures mem != null ==> startOffset == PrunedStart(old(startOffset), |history|, maxRecords)
      ensures file != null ==>
                file.model == Call(old(file.model), Materialize(batch, |old(history)|, timestamp), segmentMax, maxRecords)
    {
      hide Settled, Call;
      if mem != null {
        AppendToMemory(batch, timestamp);
      } else {
        AppendToFiles(batch, timestamp);
      }
    }

    method AppendToMemory(batch: seq<ProduceRecord>, timestamp: Millis)
      requires Valid() && mem != null && |history| + |batch| <= TWO_64
      modifies this, Repr
      ensures Valid() && Repr == old(Repr)
      ensures history == old(history) + Materialize(batch, |old(history)|, timestamp)
      ensures old(startOffset) <= startOffset
      ensures old(Settled()) && batch != [] ==> Settled()
      ensures startOffset == PrunedStart(old(startOffset), |history|, maxRecords)
    {
      hide Dense, RolledUp, Materialize;
      var rs := AssignOffsets(batch, mem.nextOffset, timestamp);
      var _ := mem.Append(rs, segmentMax, maxRecords);
      history, startOffset := mem.history, mem.startOffset;
    }

    method AppendToFiles(batch: seq<ProduceRecord>, timestamp: Millis)
      requires Valid() && file != null && BatchEncodable(batch) && |history| + |batch| <= TWO_64
      modifies this, Repr
      ensures Valid() && fresh(Repr - old(Repr))
      ensures history == old(history) + Materialize(batch, |old(history)|, timestamp)
      ensures old(startOffset) <= startOffset
      ensures old(Settled()) && batch != [] ==> Settled()
      ensures file.model == Call(old(file.model), Materialize(batch, |old(history)|, timestamp), segmentMax, maxRecords)
    {
      hide PartitionState.Valid, Call, CallPlan, OpsOf, Next, WellFormedPart, Start, Dense, RetainedFrom,
           Materialize, BatchEncodable, Continues, Owned;
      ghost var was, repr := file.model, Repr;
      file.Offsets(segmentMax);
      OwnedParts(file, Repr);
      MaterializeContinues(was, batch, timestamp);
      var rs, _ := file.Append(batch, timestamp, segmentMax, maxRecords);
      file.Offsets(segmentMax);
      FileCall(was, rs, segmentMax, maxRecords);
      PartIsLog(file.model, segmentMax);
      assert forall seg :: seg in file.segments ==> seg in repr || fresh(seg);
      history, startOffset := file.model.history, Start(file.model);
      OwnsMore(file, repr, segmentMax);
      Repr := Grown(repr, file);
    }

    /** Where retention leaves the start of a log that received `n` records. */
    ghost function KeptFrom(n: nat): nat
      requires segmentMax > 0
    {
      if mem != null then PrunedStart(0, n, maxRecords) else RetainedFrom(n, maxRecords, segmentMax)
    }

    /** Retention never takes the last record. */
    lemma KeepsOne(n: nat)
      requires segmentMax > 0 && n > 0
      ensures KeptFrom(n) < n
    {
      var q := (n - 1) / segmentMax;
      assert n - 1 == q * segmentMax + (n - 1) % segmentMax;
    }

    /** Retention is where the number of records alone would have it. */
    ghost predicate Settled()
      reads this
    {
      segmentMax > 0 && startOffset == KeptFrom(|history|)
    }

    method Fetch(from: nat, max: nat) returns (res: FetchResult)
      requires Valid()
      ensures res == Logs.Fetch(AsLog(), from, max)
    {
      if mem != null {
        mem.FetchIsLogFetch(from, max, segmentMax);
        res := mem.Fetch(from, max);
      } else {
        res := file.Fetch(from, max, segmentMax);
      }
    }
  }

  lemma OwnsMore(p: PartitionState, repr: set<object>, s: nat)
    requires p.Valid(s) && p in repr && p.disk in repr
    ensures p in Grown(repr, p) && Owned(p, Grown(repr, p)) && repr <= Grown(repr, p)
  {
    p.SegmentsOnDisk(s);
  }

  lemma FileCall(p: Part, batch: seq<Record>, s: nat, m: nat)
    requires s > 0 && WellFormedPart(p, s) && Continues(p, batch)
    ensures var q := Call(p, batch, s, m);
            && q.history == p.history + batch && Start(p) <= Start(q)
            && (batch != [] && Start(p) == RetainedFrom(|p.history|, m, s) ==> Start(q) == RetainedFrom(|q.history|, m, s))
  {
    hide WellFormedPart, Start, Continues, Call, RetainedFrom, NotOverPruned;
    CallShape(p, batch, s, m);
    CallForward(p, batch, s, m);
    if batch != [] && Start(p) == RetainedFrom(|p.history|, m, s) {
      RetainedIsNotOver(p, s, m);
      CallClosedForm(p, batch, s, m);
    }
  }

  lemma RetainedIsNotOver(p: Part, s: nat, m: nat)
    requires s > 0 && Start(p) == RetainedFrom(|p.history|, m, s)
    ensures NotOverPruned(p, m, s)
  {
  }

  lemma CallForward(p: Part, batch: seq<Record>, s: nat, m: nat)
    requires WellFormedPart(p, s) && Continues(p, batch)
    ensures Start(p) <= Start(Call(p, batch, s, m))
  {
    hide WellFormedPart, Start, Continues, CallPlan, DoAll;
    PartialCall(p, batch, s, m, 0);
  }
}
