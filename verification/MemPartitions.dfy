/** `memstore.rs`: one in-memory partition, pruned record by record. */
module MemPartitions {
  import opened Prelude
  import opened Multiples
  import opened Codec
  import opened Filtering
  import opened Logs

  lemma TakeIsWindow(h: seq<Record>, first: nat, max: nat)
    requires first <= |h|
    ensures Take(h[first..], max) == Window(h, first, Max(first, Min(first + max, |h|)))
  {
    SliceOfSlice(h, first, |h|, 0, Min(max, |h| - first));
    assert h[first..|h|] == h[first..];
  }

  lemma FilteredIsWindow(log: Log, from: nat, max: nat)
    requires WellFormed(log)
    ensures Take(FilterFrom(log.history[log.start..], Max(from, log.start)), max) == Logs.Fetch(log, from, max).records
  {
    hide FilterFrom, Take, Window;
    var h, first := log.history, Max(from, log.start);
    var n := Min(first, |h|);
    SuffixFiltered(h, log.start, first);
    TakeIsWindow(h, n, max);
    if n < first {
      WindowEmpty(h, first, n, max);
    }
  }

  lemma SuffixFiltered(h: seq<Record>, start: nat, first: nat)
    requires Dense(h) && start <= |h| && start <= first
    ensures FilterFrom(h[start..], first) == h[Min(first, |h|)..]
  {
    hide FilterFrom;
    var rs, n := h[start..], Min(first, |h|);
    FilterIsSuffix(rs, start, first);
    DropDrop(h, start, n);
  }

  lemma DropDrop<T>(s: seq<T>, a: nat, b: nat)
    requires a <= b <= |s|
    ensures s[a..][b - a..] == s[b..]
  {
  }

  lemma WindowEmpty(h: seq<Record>, first: nat, n: nat, max: nat)
    requires n == |h| <= first
    ensures Window(h, n, Max(n, Min(n + max, n))) == [] == Window(h, first, Max(first, Min(first + max, n)))
  {
  }

  /** Where record-level pruning leaves the start. */
  function PrunedStart(start: nat, n: nat, m: nat): nat {
    if m == 0 then start else Max(start, n - m)
  }

  /** Every segment but the active one was filled to the brim. */
  ghost predicate RolledUp(n: nat, segments: nat, active: nat, s: nat)
    requires s > 0
  {
    segments == CeilDiv(n, s) && (n > 0 ==> active == (n - 1) % s + 1)
  }

  lemma NothingRolled(s: nat)
    requires s > 0
    ensures RolledUp(0, 0, 0, s)
  {
    CeilDivZero(s);
  }

  /** One more record: it goes to a new segment when there is none or the active one is full. */
  lemma RollsUp(n: nat, segments: nat, active: nat, s: nat)
    requires s > 0 && RolledUp(n, segments, active, s)
    ensures var roll := segments == 0 || active >= s;
            RolledUp(n + 1, if roll then segments + 1 else segments, (if roll then 0 else active) + 1, s)
  {
    CeilDivStep(n, s);
    if n == 0 {
      CeilDivZero(s);
      ModUnique(0, 0, 0, s);
    } else {
      CeilDivStep(n - 1, s);
      CeilDivPositive(n, s);
    }
  }

  lemma CeilDivPositive(n: nat, s: nat)
    requires s > 0 && n > 0
    ensures CeilDiv(n, s) > 0
  {
    CeilDivOf((n - 1) / s, (n - 1) % s + 1, s);
    assert n - 1 == ((n - 1) / s) * s + (n - 1) % s;
  }

  lemma LogGrows(log: Log, r: Record)
    requires WellFormed(log) && r.offset == |log.history|
    ensures WellFormed(Log(log.history + [r], log.start))
    ensures (log.history + [r])[log.start..] == log.history[log.start..] + [r]
  {
  }

  class Partition {
    var records: seq<Record>
    var startOffset: nat
    var nextOffset: nat
    var segments: nat
    var recordsInActiveSegment: nat
    /** Every record ever appended. */
    ghost var history: seq<Record>

    ghost function AsLog(): Log
      reads this
    {
      Log(history, startOffset)
    }

    /** `s` is the topic's `segment_max_records`. */
    ghost predicate Valid(s: nat)
      reads this
    {
      && s > 0
      && WellFormed(AsLog())
      && nextOffset == |history|
      && records == history[startOffset..]
      && RolledUp(nextOffset, segments, recordsInActiveSegment, s)
    }

    constructor ()
      ensures history == [] && startOffset == 0
      ensures forall s :: s > 0 ==> Valid(s)
    {
      records, startOffset, nextOffset, segments, recordsInActiveSegment := [], 0, 0, 0, 0;
      history := [];
      new;
      forall s: nat | s > 0
        ensures Valid(s)
      {
        NothingRolled(s);
      }
    }

    method PushAll(batch: seq<Record>, segmentMax: nat)
      requires Valid(segmentMax)
      requires forall i :: 0 <= i < |batch| ==> batch[i].offset == nextOffset + i
      modifies this
      ensures Valid(segmentMax)
      ensures history == old(history) + batch && startOffset == old(startOffset)
    {
      hide WellFormed, RolledUp;
      assert batch[..0] == [];
      for i := 0 to |batch|
        invariant Valid(segmentMax)
        invariant history == old(history) + batch[..i] && startOffset == old(startOffset)
      {
        RollsUp(nextOffset, segments, recordsInActiveSegment, segmentMax);
        LogGrows(AsLog(), batch[i]);
        assert batch[..i + 1] == batch[..i] + [batch[i]];
        if segments == 0 || recordsInActiveSegment >= segmentMax {
          segments := segments + 1;
          recordsInActiveSegment := 0;
        }
        recordsInActiveSegment := recordsInActiveSegment + 1;
        nextOffset := nextOffset + 1;
        records := records + [batch[i]];
        history := history + [batch[i]];
      }
    }

    method Append(batch: seq<Record>, segmentMax: nat, maxRecords: nat) returns (truncatedTo: Option<nat>)
      requires Valid(segmentMax)
      requires forall i :: 0 <= i < |batch| ==> batch[i].offset == nextOffset + i
      modifies this
      ensures Valid(segmentMax)
      ensures history == old(history) + batch
      ensures startOffset == PrunedStart(old(startOffset), |history|, maxRecords)
      ensures old(startOffset) <= startOffset
      ensures maxRecords > 0 ==> |history| - startOffset <= maxRecords
      ensures startOffset > old(startOffset) ==> |history| - startOffset == maxRecords > 0
      ensures truncatedTo == if startOffset == old(startOffset) then None else Some(startOffset)
    {
      PushAll(batch, segmentMax);
      if maxRecords == 0 {
        return None;
      }
      var pruned := false;
      while nextOffset - startOffset > maxRecords && |records| > 1
        invariant Valid(segmentMax) && history == old(history) + batch
        invariant old(startOffset) <= startOffset <= Max(old(startOffset), nextOffset - maxRecords)
        invariant pruned == (startOffset != old(startOffset))
        decreases |records|
      {
        records := records[1..];
        startOffset := startOffset + 1;
        pruned := true;
      }
      truncatedTo := if pruned then Some(startOffset) else None;
    }

    function Fetch(from: nat, max: nat): FetchResult
      reads this
    {
      var first := Max(from, startOffset);
      var out := Take(FilterFrom(records, first), max);
      FetchResult(out, if out == [] then first else out[|out| - 1].offset + 1, nextOffset)
    }

    /** Filtering and taking is the abstract log's fetch. */
    lemma FetchIsLogFetch(from: nat, max: nat, s: nat)
      requires Valid(s)
      ensures Fetch(from, max) == Logs.Fetch(AsLog(), from, max)
    {
      FilteredIsWindow(AsLog(), from, max);
      FetchNextOffset(AsLog(), from, max);
    }

    /** The counter `stats` reports counts every segment ever rolled: pruning never lowers it. */
    lemma SegmentsEverRolled(s: nat)
      requires Valid(s)
      ensures segments == CeilDiv(nextOffset, s)
    {
    }
  }
}
