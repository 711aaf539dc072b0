/** The abstract log that every store implements: an append-only history of which a suffix is retained. */
module Logs {
  import opened Prelude
  import opened Bytes
  import opened Codec

  datatype ProduceRecord = ProduceRecord(key: Option<Utf8.Text>, payload: seq<Byte>)

  datatype Log = Log(history: seq<Record>, start: nat)

  datatype FetchResult = FetchResult(records: seq<Record>, nextOffset: nat, highWatermark: nat)

  /** Record `i` of the history carries offset `i`. */
  ghost predicate Dense(history: seq<Record>) {
    forall i :: 0 <= i < |history| ==> history[i].offset == i
  }

  ghost predicate WellFormed(log: Log) {
    Dense(log.history) && log.start <= |log.history|
  }

  /** Offsets and the timestamp a store gives to a batch. */
  function Materialize(batch: seq<ProduceRecord>, first: nat, timestamp: Millis): (rs: seq<Record>)
    requires first + |batch| <= TWO_64
    ensures |rs| == |batch|
    ensures forall i :: 0 <= i < |rs| ==> rs[i] == Record(first + i, timestamp, batch[i].key, batch[i].payload)
  {
    seq(|batch|, i requires 0 <= i < |batch| => Record(first + i, timestamp, batch[i].key, batch[i].payload))
  }

  predicate BatchEncodable(batch: seq<ProduceRecord>) {
    forall i :: 0 <= i < |batch| ==> |batch[i].payload| < TWO_32 && (batch[i].key.Some? ==> |batch[i].key.value| < TWO_32)
  }

  /** Entries `first` up to `last` of `h`; nothing when the interval is empty. */
  function Window(h: seq<Record>, first: nat, last: nat): seq<Record>
    requires first < last ==> last <= |h|
  {
    if first < last then h[first..last] else []
  }

  /** At most `max` retained records from `from` on, in order. */
  function Fetch(log: Log, from: nat, max: nat): (res: FetchResult)
    requires log.start <= |log.history|
  {
    var first := Max(from, log.start);
    var last := Max(first, Min(first + max, |log.history|));
    FetchResult(Window(log.history, first, last), last, |log.history|)
  }

  /** A well-formed log's fetch ends where its last record says it does. */
  lemma FetchNextOffset(log: Log, from: nat, max: nat)
    requires WellFormed(log)
    ensures var res := Fetch(log, from, max);
            if res.records == [] then res.nextOffset == Max(from, log.start)
            else res.nextOffset == res.records[|res.records| - 1].offset + 1
  {
  }

  /**
    What a fetch returns, record by record: from the offset asked for, or the first retained one, every record up
    to the limit or the log's end; and one past the last offset as the high-watermark.
   */
  lemma FetchMeans(log: Log, from: nat, max: nat)
    requires WellFormed(log)
    ensures var res, first := Fetch(log, from, max), if from >= log.start then from else log.start;
            && (forall i :: 0 <= i < |res.records| ==> first + i < |log.history| && res.records[i] == log.history[first + i])
            && (|res.records| == max || first + |res.records| >= |log.history|) && |res.records| <= max
            && (first >= |log.history| ==> res.records == [])
            && res.highWatermark == |log.history|
  {
  }

  lemma JoinWindows(h: seq<Record>, first: nat, a: nat, b: nat)
    requires first <= a <= b <= |h|
    ensures Window(h, first, a) + h[a..b] == Window(h, first, b)
  {
  }
}
