/** `SourceRuntime` of `connector.rs`, and the two-stage demo of `main.rs`: fill a log, then drain it. */
module Pipelines {
  import opened Prelude
  import opened Multiples
  import opened Bytes
  import opened Codec
  import opened Logs
  import opened Disks
  import opened Retention
  import opened MemPartitions
  import opened FilePartitions
  import opened LogPorts
  import opened Retry
  import opened SinkMachine
  import opened Ports
  import opened Rounds
  import opened SinkRuntimes
  import opened Draining
  import opened Connectors

  datatype Produced = Produced(count: nat) | PollFailed | AppendFailed

  /** Every record of the stream has lengths a file can hold. */
  ghost predicate FitsFiles(stream: nat -> ProduceRecord) {
    forall i: nat :: BatchEncodable([stream(i)])
  }

  lemma DrawnFits(stream: nat -> ProduceRecord, first: nat, last: nat)
    requires FitsFiles(stream) && first <= last
    ensures BatchEncodable(Drawn(stream, first, last))
  {
    var batch := Drawn(stream, first, last);
    forall i | 0 <= i < |batch|
      ensures |batch[i].payload| < TWO_32 && (batch[i].key.Some? ==> |batch[i].key.value| < TWO_32)
    {
      assert BatchEncodable([stream(first + i)]) && [stream(first + i)][0] == batch[i];
    }
  }

  class SourceRuntime {
    const source: GeneratorSource
    const store: LogPort
    var produced: nat
    /** Records polled whose append failed: the source has moved past them and nobody keeps them. */
    ghost var dropped: nat

    constructor (source: GeneratorSource, store: LogPort)
      ensures this.source == source && this.store == store && produced == 0 && dropped == 0
    {
      this.source, this.store, produced, dropped := source, store, 0, 0;
    }

    /** Every record the generator has made is in the log and counted, or was dropped by a failed append. */
    ghost predicate Valid()
      reads this, source, store, store.Repr
    {
      && store.Valid() && this !in store.Repr && source !in store.Repr
      && source.batchSize > 0 && produced + dropped == source.counter
    }

    /** One round; whether the poll and the append succeed is up to the environment. */
    method RunOnce(timestamp: Millis, pollOk: bool, appendOk: bool) returns (round: Produced)
      requires Valid() && |store.history| + Min(source.remaining, source.batchSize) <= TWO_64
      requires store.file != null ==> FitsFiles(source.stream)
      modifies this, source, store, store.Repr
      ensures Valid() && fresh(store.Repr - old(store.Repr))
      ensures source.counter + source.remaining == old(source.counter + source.remaining)
      ensures !pollOk ==> round == PollFailed && source.remaining == old(source.remaining)
      ensures pollOk ==> source.remaining == old(source.remaining) - Min(old(source.remaining), source.batchSize)
      ensures round.AppendFailed? <==> pollOk && !appendOk && old(source.remaining) > 0
      ensures pollOk && appendOk ==> round.Produced?
      ensures round.Produced? ==>
                && round.count == source.counter - old(source.counter)
                && (round.count == 0 <==> old(source.remaining) == 0)
                && produced == old(produced) + round.count && dropped == old(dropped)
                && store.history == old(store.history)
                   + Materialize(Drawn(source.stream, old(source.counter), source.counter), old(|store.history|), timestamp)
                && (old(store.Settled()) ==> store.Settled())
      ensures !round.Produced? ==> produced == old(produced) && store.AsLog() == old(store.AsLog())
    {
      hide LogPort.Valid, LogPort.Settled, BatchEncodable, Materialize, Drawn;
      if !pollOk {
        return PollFailed;
      }
      if store.file != null {
        DrawnFits(source.stream, source.counter, source.counter + Min(source.remaining, source.batchSize));
      }
      var records := source.Poll();
      if records == [] {
        NothingMade(timestamp, |store.history|);
        return Produced(0);
      }
      var count := |records|;
      if !appendOk {
        dropped := dropped + count;
        return AppendFailed;
      }
      store.Append(records, timestamp);
      produced := produced + count;
      round := Produced(count);
    }
  }

  lemma NothingMade(timestamp: Millis, first: nat)
    requires first <= TWO_64
    ensures Materialize([], first, timestamp) == []
  {
  }

  // ---- Which offsets a failing sink takes -----------------------------------------------------

  /** The offsets from `a` up to `b` that the sink refuses, or those it takes. */
  function Picked(k: nat, a: nat, b: nat, poison: bool): seq<nat>
    requires a <= b
    decreases b
  {
    if a == b then [] else Picked(k, a, b - 1, poison) + (if Poison(k, b - 1) == poison then [b - 1] else [])
  }

  lemma {:induction false} PickedAre(k: nat, a: nat, b: nat, poison: bool)
    requires a <= b
    ensures forall o: nat :: o in Picked(k, a, b, poison) <==> a <= o < b && Poison(k, o) == poison
    decreases b
  {
    if a < b {
      PickedAre(k, a, b - 1, poison);
    }
  }

  /** In order, each exactly once. */
  lemma {:induction false} PickedExactly(k: nat, a: nat, b: nat, poison: bool)
    requires a <= b
    ensures forall o: nat :: o in Picked(k, a, b, poison) <==> a <= o < b && (k != 0 && o % k == 0) == poison
    ensures Increasing(Picked(k, a, b, poison))
    decreases b
  {
    PickedAre(k, a, b, poison);
    if a < b {
      hide Increasing, Poison;
      PickedExactly(k, a, b - 1, poison);
      IncreasingSnoc(Picked(k, a, b - 1, poison), b - 1);
    } else {
      assert Increasing([]);
    }
  }

  /** Every k-th offset is refused: the number of multiples of `k` below `n` is `n / k` rounded up. */
  lemma {:induction false} PickedCount(k: nat, n: nat)
    ensures |Picked(k, 0, n, true)| == if k == 0 then 0 else CeilDiv(n, k)
    ensures |Picked(k, 0, n, true)| + |Picked(k, 0, n, false)| == n
  {
    if n == 0 {
      if k != 0 {
        CeilDivZero(k);
      }
    } else {
      PickedCount(k, n - 1);
      if k != 0 {
        CeilDivStep(n - 1, k);
      }
    }
  }

  lemma PickedSnoc(k: nat, a: nat, b: nat)
    requires a < b
    ensures Picked(k, a, b, false) == Picked(k, a, b - 1, false) + (if Poison(k, b - 1) then [] else [b - 1])
    ensures Picked(k, a, b, true) == Picked(k, a, b - 1, true) + (if Poison(k, b - 1) then [b - 1] else [])
  {
  }

  lemma SortOne(rs: seq<Record>, accept: Record -> bool, attempts: nat)
    requires rs != []
    ensures var init, r := rs[..|rs| - 1], rs[|rs| - 1];
            && Each(Accepted(rs, accept), OffsetOf) == Each(Accepted(init, accept), OffsetOf) + (if accept(r) then [r.offset] else [])
            && Each(Refused(rs, accept, attempts), LetterOffset)
               == Each(Refused(init, accept, attempts), LetterOffset) + (if accept(r) then [] else [r.offset])
  {
    hide Each;
    var init, r := rs[..|rs| - 1], rs[|rs| - 1];
    EachSnoc(Accepted(init, accept), r, OffsetOf);
    EachSnoc(Refused(init, accept, attempts), Letter(r, attempts), LetterOffset);
    if accept(r) {
      assert Refused(init, accept, attempts) + [] == Refused(init, accept, attempts);
    } else {
      assert Accepted(init, accept) + [] == Accepted(init, accept);
    }
  }

  /** The offsets of `rs` that `accept` picks are the ones `k` spares, and the rest are the ones it poisons. */
  ghost predicate SortedBy(k: nat, a: nat, b: nat, rs: seq<Record>, accept: Record -> bool, attempts: nat)
    requires a <= b
  {
    && Each(Accepted(rs, accept), OffsetOf) == Picked(k, a, b, false)
    && Each(Refused(rs, accept, attempts), LetterOffset) == Picked(k, a, b, true)
  }

  /** Sorting consecutive records by `accept` sorts their offsets. */
  lemma {:induction false} SortedOffsets(k: nat, history: seq<Record>, a: nat, b: nat, accept: Record -> bool, attempts: nat)
    requires Dense(history) && a <= b <= |history|
    requires forall i :: a <= i < b ==> accept(history[i]) == !Poison(k, i)
    ensures SortedBy(k, a, b, history[a..b], accept, attempts)
    decreases b
  {
    hide SortedBy, Poison, Each, Accepted, Refused, Picked;
    if a == b {
      assert history[a..b] == [];
      NothingSorted(k, a, accept, attempts);
    } else {
      SortedOffsets(k, history, a, b - 1, accept, attempts);
      SortNext(history, a, b, accept, attempts);
      SortedOneMore(k, a, b, history[a..b - 1], history[a..b], history[b - 1], accept, attempts);
    }
  }

  lemma NothingSorted(k: nat, a: nat, accept: Record -> bool, attempts: nat)
    ensures SortedBy(k, a, a, [], accept, attempts)
  {
  }

  lemma SortedOneMore(k: nat, a: nat, b: nat, init: seq<Record>, rs: seq<Record>, r: Record,
                      accept: Record -> bool, attempts: nat)
    requires a < b && SortedBy(k, a, b - 1, init, accept, attempts)
    requires r.offset == b - 1 && accept(r) == !Poison(k, b - 1)
    requires Each(Accepted(rs, accept), OffsetOf) == Each(Accepted(init, accept), OffsetOf) + (if accept(r) then [r.offset] else [])
    requires Each(Refused(rs, accept, attempts), LetterOffset)
             == Each(Refused(init, accept, attempts), LetterOffset) + (if accept(r) then [] else [r.offset])
    ensures SortedBy(k, a, b, rs, accept, attempts)
  {
    hide Each, Accepted, Refused, Poison, Picked;
    PickedSnoc(k, a, b);
  }

  lemma SortNext(history: seq<Record>, a: nat, b: nat, accept: Record -> bool, attempts: nat)
    requires a < b <= |history|
    ensures var r, init, rs := history[b - 1], history[a..b - 1], history[a..b];
            && Each(Accepted(rs, accept), OffsetOf) == Each(Accepted(init, accept), OffsetOf) + (if accept(r) then [r.offset] else [])
            && Each(Refused(rs, accept, attempts), LetterOffset)
               == Each(Refused(init, accept, attempts), LetterOffset) + (if accept(r) then [] else [r.offset])
  {
    hide Each, Accepted, Refused;
    var rs := history[a..b];
    assert rs[..|rs| - 1] == history[a..b - 1];
    SortOne(rs, accept, attempts);
  }

  /** Record `i` carries what the generator made as its `i`-th record. */
  ghost predicate Carries(history: seq<Record>, stream: nat -> ProduceRecord) {
    forall i :: 0 <= i < |history| ==> history[i].key == stream(i).key && history[i].payload == stream(i).payload
  }

  lemma CarriesMore(history: seq<Record>, stream: nat -> ProduceRecord, last: nat, timestamp: Millis)
    requires Carries(history, stream) && |history| <= last <= TWO_64
    ensures var more := history + Materialize(Drawn(stream, |history|, last), |history|, timestamp);
            |more| == last && Carries(more, stream)
  {
  }

  /** A script on which every port works, nobody else appends, and the sink is a `FailingSink`. */
  function DemoScript(k: nat, clock: nat -> nat): (script: Script)
    ensures Quiet(script) && Steady(script, Takes(k))
  {
    AnswerToOne(k);
    Script(_ => [], _ => true, _ => true, _ => Done, _ => Done,
           (_, r: Record) => Answer(k, [r]), clock)
  }

  function Takes(k: nat): (accept: Record -> bool)
    ensures forall r: Record :: accept(r) == !Poison(k, r.offset)
  {
    (r: Record) => !Poison(k, r.offset)
  }

  /** Every dead letter of the demo overstates its attempts: the sink is called once, and the bound is reported. */
  lemma DemoLettersOverstate(k: nat, clock: nat -> nat, r: Record, first: nat, maxAttempts: nat, calls: nat)
    requires Poison(k, r.offset) && maxAttempts > 1
    requires MadeCalls(Answers(DemoScript(k, clock), r, first), Max(maxAttempts, 1), calls)
    ensures calls == 1 < Letter(r, Max(maxAttempts, 1)).attempts
  {
    StopsAtOnce(Answers(DemoScript(k, clock), r, first), Max(maxAttempts, 1), calls);
  }

  /** The source stage: poll and append until the source is dry. */
  method Fill(source: GeneratorSource, store: LogPort, clock: nat -> Millis) returns (rt: SourceRuntime)
    requires source.counter == 0 && source.batchSize > 0 && source.remaining <= TWO_64
    requires store.Valid() && store.Settled() && store.history == [] && source !in store.Repr
    requires store.file != null ==> FitsFiles(source.stream)
    modifies source, store, store.Repr
    ensures fresh(rt) && store.Valid() && fresh(store.Repr - old(store.Repr))
    ensures rt.produced == |store.history| == old(source.remaining)
    ensures Carries(store.history, source.stream) && store.Settled()
  {
    hide LogPort.Valid, LogPort.Settled, Carries, Materialize, Drawn, FitsFiles;
    rt := new SourceRuntime(source, store);
    var tick := 0;
    NothingCarried(source.stream);
    ghost var total := source.remaining;
    while true
      invariant rt.Valid() && fresh(rt) && rt.source == source && rt.store == store && rt.dropped == 0
      invariant fresh(store.Repr - old(store.Repr))
      invariant source.counter + source.remaining == total
      invariant |store.history| == source.counter
      invariant Carries(store.history, source.stream) && store.Settled()
      decreases source.remaining
    {
      CarriesMore(store.history, source.stream, source.counter + Min(source.remaining, source.batchSize), clock(tick));
      var round := rt.RunOnce(clock(tick), true, true);
      tick := tick + 1;
      if round.count == 0 {
        break;
      }
    }
  }

  lemma NothingCarried(stream: nat -> ProduceRecord)
    ensures Carries([], stream)
  {
  }

  lemma WindowToEnd(history: seq<Record>, first: nat)
    requires first <= |history|
    ensures Window(history, first, |history|) == history[first..]
  {
  }

  /** What one demo over an empty store ends with: from `first` on, nothing is missing and nothing is twice. */
  ghost predicate Delivered(ports: PortSet, k: nat, first: nat, total: nat)
    requires first <= total
    reads ports
  {
    && Each(ports.delivered, OffsetOf) == Picked(k, first, total, false)
    && Each(ports.dlq, LetterOffset) == Picked(k, first, total, true)
    && ports.saved == if total == 0 then None else Some(total)
  }

  /**
    The demo, for any number of records, any store, retention bound and batch sizes: the log holds the
    generator's records; what retention kept of it is delivered in order except the multiples of `k`, which are
    dead-lettered; the checkpoint ends at the last record.
   */
  method Demo(total: nat, sourceBatch: nat, stream: nat -> ProduceRecord, k: nat, store: LogPort,
              cfg: Config, maxAttempts: nat, clock: nat -> nat, appendClock: nat -> Millis)
    returns (produced: nat, delivered: nat, dead: nat, ports: PortSet)
    requires total <= TWO_64 && cfg.batchSize > 0
    requires store.Valid() && store.Settled() && store.history == []
    requires store.file != null ==> FitsFiles(stream)
    modifies store, store.Repr
    ensures store.Valid() && store.Settled() && fresh(ports) && ports.store == store
    ensures produced == total == |store.history| && Carries(store.history, stream)
    ensures store.startOffset <= total && Delivered(ports, k, store.startOffset, total)
    ensures delivered == |ports.delivered| && dead == |ports.dlq| && delivered + dead == total - store.startOffset
    ensures store.startOffset == 0 ==> dead == (if k == 0 then 0 else CeilDiv(total, k)) && delivered == total - dead
  {
    hide LogPort.Valid, LogPort.KeptFrom, Quiet, Steady, Accepted, Refused, Each, Picked, CeilDiv, Poison,
         Adjacent, Window, SinkRuntime.At, Carries, FitsFiles, DemoScript, Takes, Span, Moves, SortedBy, Delivered;
    var source := new GeneratorSource(total, sourceBatch, stream);
    var sourceRuntime := Fill(source, store, appendClock);
    produced := sourceRuntime.produced;
    ports := new PortSet(store, 0, DemoScript(k, clock));
    var rt := new SinkRuntime(cfg, maxAttempts, 20_000_000, ports);
    ghost var reports, history, first := [], store.history, store.startOffset;
    store.LogIsWellFormed();
    if total > 0 {
      store.KeepsOne(total);
    }
    delivered, dead, reports := Drain(rt, Takes(k));
    WindowToEnd(history, first);
    assert history[first..] == history[first..total];
    assert ports.delivered == Accepted(history[first..total], Takes(k));
    assert ports.dlq == Refused(history[first..total], Takes(k), Max(maxAttempts, 1));
    SortedOffsets(k, history, first, total, Takes(k), Max(maxAttempts, 1));
    AllDelivered(ports, k, history[first..total], first, total, Max(maxAttempts, 1));
    PickedCount(k, total);
  }

  lemma AllDelivered(ports: PortSet, k: nat, rs: seq<Record>, first: nat, total: nat, attempts: nat)
    requires first <= total && SortedBy(k, first, total, rs, Takes(k), attempts)
    requires ports.delivered == Accepted(rs, Takes(k)) && ports.dlq == Refused(rs, Takes(k), attempts)
    requires ports.saved == if total == 0 then None else Some(total)
    ensures Delivered(ports, k, first, total)
    ensures |ports.delivered| == |Picked(k, first, total, false)| && |ports.dlq| == |Picked(k, first, total, true)|
  {
    hide Picked, Accepted, Refused, Takes;
  }

  /** The demo over a store in memory. */
  method DemoInMemory(total: nat, sourceBatch: nat, stream: nat -> ProduceRecord, k: nat, segmentMax: nat, maxRecords: nat,
                      cfg: Config, maxAttempts: nat, clock: nat -> nat, appendClock: nat -> Millis)
    returns (produced: nat, delivered: nat, dead: nat, ports: PortSet)
    requires total <= TWO_64 && cfg.batchSize > 0 && segmentMax > 0
    ensures produced == total == |ports.store.history| && Carries(ports.store.history, stream)
    ensures var first := PrunedStart(0, total, maxRecords);
            first <= total && Delivered(ports, k, first, total) && delivered + dead == total - first
    ensures delivered == |ports.delivered| && dead == |ports.dlq|
    ensures maxRecords == 0 || total <= maxRecords ==>
              dead == (if k == 0 then 0 else CeilDiv(total, k)) && delivered == total - dead
  {
    hide LogPort.Valid, Partition.Valid, Carries, Delivered, CeilDiv;
    var mem := new Partition();
    var store := new LogPort.OfMemory(mem, segmentMax, maxRecords);
    produced, delivered, dead, ports := Demo(total, sourceBatch, stream, k, store, cfg, maxAttempts, clock, appendClock);
  }

  /** The demo over a store on disk: retention goes by whole segments. */
  method DemoOnDisk(total: nat, sourceBatch: nat, stream: nat -> ProduceRecord, k: nat, segmentMax: nat, maxRecords: nat,
                    cfg: Config, maxAttempts: nat, clock: nat -> nat, appendClock: nat -> Millis)
    returns (produced: nat, delivered: nat, dead: nat, ports: PortSet)
    requires total <= TWO_64 && cfg.batchSize > 0 && segmentMax > 0 && FitsFiles(stream)
    ensures produced == total == |ports.store.history| && Carries(ports.store.history, stream)
    ensures var first := RetainedFrom(total, maxRecords, segmentMax);
            first <= total && Delivered(ports, k, first, total) && delivered + dead == total - first
    ensures delivered == |ports.delivered| && dead == |ports.dlq|
    ensures maxRecords == 0 || total <= maxRecords ==>
              dead == (if k == 0 then 0 else CeilDiv(total, k)) && delivered == total - dead
  {
    hide LogPort.Valid, PartitionState.Valid, Carries, Delivered, CeilDiv, FitsFiles;
    var dir := new Disk(map[]);
    var file := new PartitionState(dir);
    var store := new LogPort.OfFiles(file, segmentMax, maxRecords, {dir, file});
    produced, delivered, dead, ports := Demo(total, sourceBatch, stream, k, store, cfg, maxAttempts, clock, appendClock);
  }
}
