/** `connectors.rs`: the reference sink that refuses every k-th offset, and the bounded synthetic source. */
module Connectors {
  import opened Prelude
  import opened Codec
  import opened Logs
  import opened Retry

  /** Offsets a failing sink refuses; `k == 0` refuses none. */
  predicate Poison(k: nat, offset: nat) {
    k != 0 && offset % k == 0
  }

  /** What a failing sink says to a batch. */
  function Answer(k: nat, records: seq<Record>): CallResult {
    if exists i :: 0 <= i < |records| && Poison(k, records[i].offset) then Permanent else Success
  }

  lemma AnswerToOne(k: nat)
    ensures forall r: Record :: Answer(k, [r]) == if Poison(k, r.offset) then Permanent else Success
  {
    hide Poison;
    forall r: Record
      ensures Answer(k, [r]) == if Poison(k, r.offset) then Permanent else Success
    {
      var batch := [r];
      assert batch[0] == r;
      assert Poison(k, r.offset) ==> Poison(k, batch[0].offset);
    }
  }

  class FailingSink {
    const failEvery: nat
    var delivered: seq<Record>

    constructor (failEvery: nat)
      ensures this.failEvery == failEvery && delivered == []
    {
      this.failEvery, delivered := failEvery, [];
    }

    /** A batch is taken whole or not at all. */
    method Deliver(records: seq<Record>) returns (result: CallResult)
      modifies `delivered
      ensures result == Answer(failEvery, records)
      ensures delivered == if result.Success? then old(delivered) + records else old(delivered)
    {
      for i := 0 to |records|
        invariant delivered == old(delivered)
        invariant forall j :: 0 <= j < i ==> !Poison(failEvery, records[j].offset)
      {
        if Poison(failEvery, records[i].offset) {
          return Permanent;
        }
      }
      delivered := delivered + records;
      result := Success;
    }
  }

  /** Entries `first` up to `last` of the endless stream a generator draws from. */
  function Drawn(stream: nat -> ProduceRecord, first: nat, last: nat): (rs: seq<ProduceRecord>)
    requires first <= last
    ensures |rs| == last - first && forall i :: 0 <= i < |rs| ==> rs[i] == stream(first + i)
  {
    if first == last then [] else Drawn(stream, first, last - 1) + [stream(last - 1)]
  }

  class GeneratorSource {
    const stream: nat -> ProduceRecord
    const batchSize: nat
    var remaining: nat
    /** How many records the generator has made. */
    var counter: nat

    constructor (total: nat, batchSize: nat, stream: nat -> ProduceRecord)
      ensures this.stream == stream && this.batchSize == Max(batchSize, 1)
      ensures remaining == total && counter == 0
    {
      this.stream, this.batchSize := stream, Max(batchSize, 1);
      remaining, counter := total, 0;
    }

    /** Polls hand out the stream in order, batch by batch, until `total` records are out. */
    method Poll() returns (records: seq<ProduceRecord>)
      modifies this
      ensures |records| == Min(old(remaining), batchSize)
      ensures remaining == old(remaining) - |records| && counter == old(counter) + |records|
      ensures records == Drawn(stream, old(counter), counter)
    {
      var take := Min(remaining, batchSize);
      remaining := remaining - take;
      records := [];
      for i := 0 to take
        invariant counter == old(counter) + i && records == Drawn(stream, old(counter), counter)
        invariant remaining == old(remaining) - take
      {
        records := records + [stream(counter)];
        counter := counter + 1;
      }
    }
  }
}
