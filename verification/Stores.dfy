/** `Inner` of `filestore.rs`: all topics and partitions, with the totals the store reports. */
module Stores {
  import opened Prelude
  import opened Bytes
  import opened Codec
  import opened Disks
  import opened Logs
  import opened Parts
  import opened Recovery
  import opened FilePartitions

  datatype TopicConfig = TopicConfig(partitions: nat, segmentMax: nat, maxRecords: nat)

  datatype TopicState = TopicState(config: TopicConfig, partitions: seq<PartitionState>)

  datatype Appended = Appended(records: seq<Record>, truncatedTo: Option<nat>) | AppendNotFound

  datatype Fetched = Fetched(result: FetchResult) | FetchNotFound

  datatype Stats = Stats(topics: nat, partitions: nat, records: nat, segments: nat, producedTotal: nat, fetchedTotal: nat)

  /** The parts behind every topic's partitions. */
  type Model = map<string, seq<Part>>

  // ---- Sums over a store ----------------------------------------------------------------------

  ghost function SumParts(ps: seq<Part>, f: Part -> nat): nat {
    if ps == [] then 0 else SumParts(ps[..|ps| - 1], f) + f(ps[|ps| - 1])
  }

  ghost function Sum(model: Model, f: Part -> nat): nat
    decreases |model|
  {
    if model == map[] then 0 else
      var t :| t in model;
      Sum(model - {t}, f) + SumParts(model[t], f)
  }

  lemma SumWithout(model: Model, t: string, f: Part -> nat)
    requires t in model
    ensures Sum(model, f) == Sum(model - {t}, f) + SumParts(model[t], f)
    decreases |model|
  {
    var u :| u in model && Sum(model, f) == Sum(model - {u}, f) + SumParts(model[u], f);
    if u != t {
      SumWithout(model - {u}, t, f);
      SumWithout(model - {t}, u, f);
      assert model - {u} - {t} == model - {t} - {u};
    }
  }

  lemma SumUpdate(model: Model, t: string, ps: seq<Part>, f: Part -> nat)
    ensures Sum(model[t := ps], f) == Sum(model - {t}, f) + SumParts(ps, f)
  {
    SumWithout(model[t := ps], t, f);
    assert model[t := ps] - {t} == model - {t};
  }

  lemma {:induction false} SumPartsUpdate(ps: seq<Part>, i: nat, p: Part, f: Part -> nat)
    requires i < |ps|
    ensures SumParts(ps[i := p], f) == SumParts(ps, f) - f(ps[i]) + f(p)
  {
    var n := |ps| - 1;
    if i < n {
      SumPartsUpdate(ps[..n], i, p, f);
      assert ps[i := p][..n] == ps[..n][i := p];
    } else {
      assert ps[i := p][..n] == ps[..n];
    }
  }

  /** Changing one part changes a sum by the difference that part makes. */
  lemma SumChange(model: Model, t: string, i: nat, p: Part, f: Part -> nat)
    requires t in model && i < |model[t]|
    ensures Sum(model[t := model[t][i := p]], f) == Sum(model, f) - f(model[t][i]) + f(p)
  {
    hide Sum, SumParts;
    SumWithout(model, t, f);
    SumUpdate(model, t, model[t][i := p], f);
    SumPartsUpdate(model[t], i, p, f);
  }

  ghost function NextOffset(p: Part): nat {
    |p.history|
  }

  /** A call adds to the sum of next offsets what it adds to the history. */
  lemma CallCounted(model: Model, t: string, i: nat, batch: seq<ProduceRecord>, timestamp: Millis, s: nat, m: nat)
    requires t in model && i < |model[t]| && WellFormedPart(model[t][i], s)
    requires BatchEncodable(batch) && |model[t][i].history| + |batch| <= TWO_64
    ensures var p := model[t][i];
            var q := Call(p, Materialize(batch, |p.history|, timestamp), s, m);
            Sum(model[t := model[t][i := q]], NextOffset) == Sum(model, NextOffset) + |batch|
  {
    hide WellFormedPart, Call, Continues, BatchEncodable, Sum;
    var p := model[t][i];
    var rs := Materialize(batch, |p.history|, timestamp);
    MaterializeContinues(p, batch, timestamp);
    CallShape(p, rs, s, m);
    SumChange(model, t, i, Call(p, rs, s, m), NextOffset);
  }

  ghost function Retained(p: Part): nat {
    Max(Total(p), 0)
  }

  ghost function Pruned(p: Part): nat {
    Min(Start(p), |p.history|)
  }

  ghost function Rolled(p: Part): nat {
    |p.segs|
  }

  ghost function One(p: Part): nat {
    1
  }

  lemma {:induction false} SumPartsSplit(ps: seq<Part>)
    ensures SumParts(ps, NextOffset) == SumParts(ps, Retained) + SumParts(ps, Pruned)
  {
    if ps != [] {
      SumPartsSplit(ps[..|ps| - 1]);
    }
  }

  /** Every record a store has accepted is either still retained or has been pruned. */
  lemma {:induction false} Conservation(model: Model)
    ensures Sum(model, NextOffset) == Sum(model, Retained) + Sum(model, Pruned)
    decreases |model|
  {
    if model != map[] {
      var t :| t in model;
      Conservation(model - {t});
      SumPartsSplit(model[t]);
      SumWithout(model, t, NextOffset);
      SumWithout(model, t, Retained);
      SumWithout(model, t, Pruned);
    }
  }

  // ---- Sums are counts ------------------------------------------------------------------------

  ghost function PlacesIn(t: string, ps: seq<Part>, f: Part -> nat): set<(string, nat, nat)> {
    set i: nat, k: nat | i < |ps| && k < f(ps[i]) :: (t, i, k)
  }

  /** Topic, partition and number of everything `f` counts. */
  ghost function Places(model: Model, f: Part -> nat): set<(string, nat, nat)> {
    set t, i: nat, k: nat | t in model && i < |model[t]| && k < f(model[t][i]) :: (t, i, k)
  }

  ghost function Row(t: string, i: nat, n: nat): set<(string, nat, nat)> {
    set k: nat | k < n :: (t, i, k)
  }

  lemma {:induction false} RowSize(t: string, i: nat, n: nat)
    ensures |Row(t, i, n)| == n
  {
    if n > 0 {
      RowSize(t, i, n - 1);
      assert Row(t, i, n) == Row(t, i, n - 1) + {(t, i, n - 1)};
    }
  }

  lemma PlacesSnoc(t: string, ps: seq<Part>, f: Part -> nat)
    requires ps != []
    ensures var n := |ps| - 1;
            PlacesIn(t, ps, f) == PlacesIn(t, ps[..n], f) + Row(t, n, f(ps[n])) && PlacesIn(t, ps[..n], f) !! Row(t, n, f(ps[n]))
  {
  }

  lemma {:induction false} SumPartsIsCount(t: string, ps: seq<Part>, f: Part -> nat)
    ensures SumParts(ps, f) == |PlacesIn(t, ps, f)|
  {
    hide PlacesIn, Row;
    if ps == [] {
      NoPlaces(t, f);
    } else {
      var n := |ps| - 1;
      SumPartsIsCount(t, ps[..n], f);
      RowSize(t, n, f(ps[n]));
      PlacesSnoc(t, ps, f);
    }
  }

  lemma NoPlaces(t: string, f: Part -> nat)
    ensures PlacesIn(t, [], f) == {}
  {
  }

  lemma {:induction false} SumIsCount(model: Model, f: Part -> nat)
    ensures Sum(model, f) == |Places(model, f)|
    decreases |model|
  {
    if model == map[] {
      assert Places(model, f) == {};
    } else {
      var t :| t in model;
      SumIsCount(model - {t}, f);
      SumPartsIsCount(t, model[t], f);
      SumWithout(model, t, f);
      assert Places(model, f) == Places(model - {t}, f) + PlacesIn(t, model[t], f);
      assert Places(model - {t}, f) !! PlacesIn(t, model[t], f);
    }
  }

  /** Everything the open partition `p` consists of lies in `repr`. */
  ghost predicate Owned(p: PartitionState, repr: set<object>)
    reads p
  {
    p in repr && p.disk in repr && forall seg :: seg in p.segments ==> seg in repr && seg.disk == p.disk
  }

  /** The open partition `p` stands for `part`. */
  ghost predicate Serves(p: PartitionState, part: Part, s: nat)
    reads p, p.disk, p.segments, set i | 0 <= i < |p.segments| :: p.segments[i].disk
  {
    p.Valid(s) && p.model == part
  }

  lemma OwnedParts(p: PartitionState, repr: set<object>)
    requires Owned(p, repr)
    ensures p in repr && p.disk in repr && forall seg :: seg in p.segments ==> seg in repr
  {
  }

  lemma OwnedGrows(p: PartitionState, repr: set<object>, more: set<object>)
    requires Owned(p, repr)
    ensures Owned(p, repr + more) && Owned(p, more + repr)
  {
  }

  lemma InState(p: PartitionState, part: Part, s: nat)
    requires Serves(p, part, s)
    ensures p.Valid(s) && p.model == part
    ensures s > 0 && WellFormedPart(part, s) && p.startOffset == Start(part) && p.nextOffset == |part.history|
  {
    hide PartitionState.Valid;
    p.Offsets(s);
  }

  /** `p` shares nothing with `q`. */
  ghost predicate Untouched(p: PartitionState, q: PartitionState)
    reads p, q
  {
    p != q && p.disk != q.disk && forall seg :: seg in p.segments ==> seg !in q.segments
  }

  /** What a store owns once `p` may have rolled new segments. */
  ghost function Grown(repr: set<object>, p: PartitionState): set<object>
    reads p
  {
    repr + set seg | seg in p.segments
  }

  /** An append leaves partitions that share nothing with this one as they were. */
  method AppendApart(part: PartitionState, batch: seq<ProduceRecord>, timestamp: Millis, segmentMax: nat, maxRecords: nat,
                     ghost others: set<PartitionState>, ghost repr: set<object>)
    returns (records: seq<Record>, truncatedTo: Option<nat>)
    requires part.Valid(segmentMax) && Owned(part, repr) && BatchEncodable(batch)
    requires part.nextOffset + |batch| <= TWO_64
    requires forall q :: q in others ==> Untouched(q, part) && Owned(q, repr)
    modifies part, part.disk, part.segments
    ensures records == Materialize(batch, old(part.nextOffset), timestamp)
    ensures Serves(part, Call(old(part.model), records, segmentMax, maxRecords), segmentMax)
    ensures truncatedTo == if old(part.startOffset) == part.startOffset then None else Some(part.startOffset)
    ensures repr <= Grown(repr, part) && Owned(part, Grown(repr, part)) && fresh(Grown(repr, part) - repr)
    ensures forall q :: q in others ==> Owned(q, Grown(repr, part))
    ensures forall q, g, s :: q in others && old(Serves(q, g, s)) ==> Serves(q, g, s)
  {
    hide PartitionState.Valid, Call, CallPlan, OpsOf, Materialize, BatchEncodable;
    records, truncatedTo := part.Append(batch, timestamp, segmentMax, maxRecords);
    part.SegmentsOnDisk(segmentMax);
    forall q, g, s | q in others && old(Serves(q, g, s))
      ensures Serves(q, g, s)
    {
      forall i | 0 <= i < |q.segments|
        ensures q.segments[i].disk == q.disk && q.segments[i] !in old(part.segments)
      {
        assert q.segments[i] in old(q.segments);
      }
    }
  }

  /** The parts of a new topic. */
  ghost function Empties(n: nat): (ps: seq<Part>)
    ensures |ps| == n && forall i :: 0 <= i < n ==> ps[i] == EMPTY
  {
    if n == 0 then [] else Empties(n - 1) + [EMPTY]
  }

  lemma {:induction false} EmptiesAreEmpty(n: nat)
    ensures SumParts(Empties(n), NextOffset) == 0
  {
    if n > 0 {
      EmptiesAreEmpty(n - 1);
      assert Empties(n)[..n - 1] == Empties(n - 1);
    }
  }

  ghost function WithTopic(model: Model, name: string, n: nat): (model': Model)
    ensures name !in model ==> Sum(model', NextOffset) == Sum(model, NextOffset)
  {
    if name !in model then
      EmptiesAreEmpty(n);
      SumUpdate(model, name, Empties(n), NextOffset);
      assert model - {name} == model;
      model[name := Empties(n)]
    else
      model[name := Empties(n)]
  }

  /** The partitions of a new topic, each with an empty directory of its own. */
  method NewPartitions(name: string, config: TopicConfig)
    returns (partitions: seq<PartitionState>, ghost homes: map<Disk, (string, nat)>, ghost owned: set<object>)
    requires config.segmentMax > 0
    ensures |partitions| == config.partitions && fresh(owned)
    ensures forall i :: 0 <= i < |partitions| ==>
              && Owned(partitions[i], owned)
              && Serves(partitions[i], EMPTY, config.segmentMax)
              && partitions[i].disk in homes && homes[partitions[i].disk] == (name, i)
    ensures forall d :: d in homes ==> fresh(d)
  {
    hide PartitionState.Valid;
    partitions, homes, owned := [], map[], {};
    for i := 0 to config.partitions
      invariant |partitions| == i && fresh(owned)
      invariant forall k :: 0 <= k < i ==>
                  && Owned(partitions[k], owned)
                  && Serves(partitions[k], EMPTY, config.segmentMax)
                  && partitions[k].disk in homes && homes[partitions[k].disk] == (name, k)
      invariant forall d :: d in homes ==> d in owned
    {
      var dir := new Disk(map[]);
      var part := new PartitionState(dir);
      partitions := partitions + [part];
      homes := homes[dir := (name, i)];
      owned := owned + {dir, part};
    }
  }

  /** The topic exists and has this partition. */
  predicate Has(topics: map<string, TopicState>, topic: string, partition: nat) {
    topic in topics && partition < |topics[topic].partitions|
  }

  function PartAt(topics: map<string, TopicState>, topic: string, partition: nat): PartitionState
    requires Has(topics, topic, partition)
  {
    topics[topic].partitions[partition]
  }

  /** No two partitions share a directory. */
  ghost predicate Apart(topics: map<string, TopicState>, home: map<Disk, (string, nat)>) {
    forall t, i: nat :: Has(topics, t, i) ==> PartAt(topics, t, i).disk in home && home[PartAt(topics, t, i).disk] == (t, i)
  }

  /** Every partition stands for its part. */
  ghost predicate AllServe(topics: map<string, TopicState>, model: Model, repr: set<object>)
    reads repr
  {
    && topics.Keys == model.Keys
    && (forall t :: t in topics ==> |topics[t].partitions| == |model[t]| == topics[t].config.partitions)
    && (forall t, i: nat :: Has(topics, t, i) ==>
          && PartAt(topics, t, i) in repr
          && Owned(PartAt(topics, t, i), repr)
          && Serves(PartAt(topics, t, i), model[t][i], topics[t].config.segmentMax))
  }

  /** A store goes on serving its partitions when it is given a new topic's. */
  lemma NewTopicServes(topics: map<string, TopicState>, model: Model, repr: set<object>, name: string,
                       state: TopicState, owned: set<object>)
    requires AllServe(topics, model, repr) && name !in topics && |state.partitions| == state.config.partitions
    requires forall i :: 0 <= i < |state.partitions| ==>
               Owned(state.partitions[i], owned) && Serves(state.partitions[i], EMPTY, state.config.segmentMax)
    ensures AllServe(topics[name := state], WithTopic(model, name, state.config.partitions), repr + owned)
  {
    hide Owned, Serves, Empties;
    var topics', model' := topics[name := state], model[name := Empties(state.config.partitions)];
    forall t, i: nat | Has(topics', t, i)
      ensures PartAt(topics', t, i) in repr + owned && Owned(PartAt(topics', t, i), repr + owned)
      ensures Serves(PartAt(topics', t, i), model'[t][i], topics'[t].config.segmentMax)
    {
      var p := PartAt(topics', t, i);
      if t == name {
        OwnedGrows(p, owned, repr);
      } else {
        assert Has(topics, t, i) && PartAt(topics, t, i) == p;
        OwnedGrows(p, repr, owned);
      }
      OwnedParts(p, repr + owned);
    }
  }

  lemma DiskOwned(topics: map<string, TopicState>, model: Model, repr: set<object>, t: string, i: nat)
    requires AllServe(topics, model, repr) && Has(topics, t, i)
    ensures PartAt(topics, t, i).disk in repr
  {
    hide Serves;
  }

  lemma NewTopicApart(topics: map<string, TopicState>, home: map<Disk, (string, nat)>, name: string, state: TopicState,
                      homes: map<Disk, (string, nat)>)
    requires Apart(topics, home) && name !in topics
    requires forall t, i: nat :: Has(topics, t, i) ==> PartAt(topics, t, i).disk !in homes
    requires forall i :: 0 <= i < |state.partitions| ==>
               state.partitions[i].disk in homes && homes[state.partitions[i].disk] == (name, i)
    ensures Apart(topics[name := state], home + homes)
  {
    var topics' := topics[name := state];
    forall t, i: nat | Has(topics', t, i)
      ensures var d := PartAt(topics', t, i).disk; d in home + homes && (home + homes)[d] == (t, i)
    {
      if t != name {
        assert Has(topics, t, i) && PartAt(topics, t, i) == PartAt(topics', t, i);
      }
    }
  }

  class Store {
    var topics: map<string, TopicState>
    var producedTotal: nat
    var fetchedTotal: nat
    ghost var model: Model
    /** The partition each directory belongs to. */
    ghost var home: map<Disk, (string, nat)>
    ghost var Repr: set<object>

    ghost predicate Valid()
      reads this, Repr
    {
      this !in Repr && Apart(topics, home) && AllServe(topics, model, Repr) && producedTotal == Sum(model, NextOffset)
    }

    constructor ()
      ensures Valid() && fresh(Repr)
      ensures topics == map[] && model == map[] && producedTotal == fetchedTotal == 0
    {
      topics, producedTotal, fetchedTotal, model, home, Repr := map[], 0, 0, map[], map[], {};
    }

    /** The store-wide total is what partitions have retained plus what they have pruned. */
    lemma ProducedIsConserved()
      requires Valid()
      ensures producedTotal == Sum(model, Retained) + Sum(model, Pruned)
    {
      Conservation(model);
    }

    method Install(topics': map<string, TopicState>, ghost model': Model, ghost home': map<Disk, (string, nat)>,
                   ghost repr': set<object>)
      requires this !in repr' && Apart(topics', home') && AllServe(topics', model', repr')
      requires producedTotal == Sum(model', NextOffset)
      modifies `topics, `model, `home, `Repr
      ensures Valid() && topics == topics' && model == model' && home == home' && Repr == repr'
    {
      hide AllServe, Apart, Sum;
      topics, model, home, Repr := topics', model', home', repr';
    }

    /** False, and nothing happens, when the topic exists. */
    method CreateTopic(name: string, config: TopicConfig) returns (created: bool)
      requires Valid() && config.segmentMax > 0
      modifies this
      ensures Valid() && fresh(Repr - old(Repr))
      ensures created <==> name !in old(topics)
      ensures !created ==> topics == old(topics) && model == old(model)
      ensures created ==>
                && name in topics && topics == old(topics)[name := topics[name]] && topics[name].config == config
                && model == WithTopic(old(model), name, config.partitions)
      ensures producedTotal == old(producedTotal) && fetchedTotal == old(fetchedTotal)
    {
      if name in topics {
        return false;
      }
      hide PartitionState.Valid, Sum, NextOffset, WithTopic, Owned, Serves, AllServe, Apart;
      ghost var were, parts, repr := topics, model, Repr;
      var partitions, homes, owned := NewPartitions(name, config);
      forall t, i: nat | Has(were, t, i)
        ensures PartAt(were, t, i).disk !in homes
      {
        DiskOwned(were, parts, repr, t, i);
      }
      var state := TopicState(config, partitions);
      ghost var parts' := WithTopic(parts, name, config.partitions);
      NewTopicServes(were, parts, repr, name, state, owned);
      NewTopicApart(were, home, name, state, homes);
      Install(topics[name := state], parts', home + homes, Repr + owned);
      created := true;
    }

    method Append(topic: string, partition: nat, batch: seq<ProduceRecord>, timestamp: Millis) returns (res: Appended)
      requires Valid() && BatchEncodable(batch)
      requires Has(topics, topic, partition) ==> |model[topic][partition].history| + |batch| <= TWO_64
      modifies this, Repr
      ensures Valid() && fresh(Repr - old(Repr))
      ensures topics == old(topics) && fetchedTotal == old(fetchedTotal)
      ensures !Has(topics, topic, partition) ==> res == AppendNotFound && model == old(model)
      ensures Has(topics, topic, partition) ==>
                var p, config := old(model)[topic][partition], topics[topic].config;
                var rs := Materialize(batch, |p.history|, timestamp);
                var q := Call(p, rs, config.segmentMax, config.maxRecords);
                && res == Appended(rs, if Start(p) == Start(q) then None else Some(Start(q)))
                && model == old(model)[topic := old(model)[topic][partition := q]]
    {
      if topic !in topics || partition >= |topics[topic].partitions| {
        return AppendNotFound;
      }
      var records, truncatedTo := AppendAt(topic, partition, batch, timestamp);
      res := Appended(records, truncatedTo);
    }

    method AppendAt(topic: string, partition: nat, batch: seq<ProduceRecord>, timestamp: Millis)
      returns (records: seq<Record>, truncatedTo: Option<nat>)
      requires Valid() && BatchEncodable(batch)
      requires Has(topics, topic, partition) && |model[topic][partition].history| + |batch| <= TWO_64
      modifies this, Repr
      ensures Valid() && fresh(Repr - old(Repr))
      ensures topics == old(topics) && fetchedTotal == old(fetchedTotal)
      ensures var p, config := old(model)[topic][partition], topics[topic].config;
              var rs := Materialize(batch, |p.history|, timestamp);
              var q := Call(p, rs, config.segmentMax, config.maxRecords);
              && records == rs
              && truncatedTo == (if Start(p) == Start(q) then None else Some(Start(q)))
              && model == old(model)[topic := old(model)[topic][partition := q]]
    {
      hide PartitionState.Valid, Sum, WellFormedPart, Call, Start, BatchEncodable, NextOffset, Continues,
           Materialize, Apart, Untouched, Owned, Serves, Grown;
      var part, s, m := PartAt(topics, topic, partition), topics[topic].config.segmentMax, topics[topic].config.maxRecords;
      ghost var p, others := model[topic][partition], Others(topic, partition);
      OthersUntouched(topic, partition);
      assert Serves(part, p, s) && Owned(part, Repr);
      InState(part, p, s);
      OwnedParts(part, Repr);
      CallCounted(model, topic, partition, batch, timestamp, s, m);
      records, truncatedTo := AppendApart(part, batch, timestamp, s, m, others, Repr);
      ghost var p' := Call(p, records, s, m);
      InState(part, p', s);
      ghost var model', repr' := model[topic := model[topic][partition := p']], Grown(Repr, part);
      forall t, i: nat | Has(topics, t, i)
        ensures PartAt(topics, t, i) in repr' && Owned(PartAt(topics, t, i), repr')
        ensures Serves(PartAt(topics, t, i), model'[t][i], topics[t].config.segmentMax)
      {
        var q := PartAt(topics, t, i);
        if t != topic || i != partition {
          assert q in others && old(Serves(q, model[t][i], topics[t].config.segmentMax));
        }
        OwnedParts(q, repr');
      }
      producedTotal, model, Repr := producedTotal + |records|, model', repr';
    }

    /** All the other partitions. */
    ghost function Others(topic: string, partition: nat): set<PartitionState>
      reads `topics
    {
      set t, i | t in topics && 0 <= i < |topics[t].partitions| && (t != topic || i != partition) :: topics[t].partitions[i]
    }

    lemma OthersUntouched(topic: string, partition: nat)
      requires Valid() && Has(topics, topic, partition)
      ensures forall q :: q in Others(topic, partition) ==>
                Untouched(q, PartAt(topics, topic, partition)) && Owned(q, Repr)
    {
      hide PartitionState.Valid, Sum, Untouched;
      forall q | q in Others(topic, partition)
        ensures Untouched(q, PartAt(topics, topic, partition)) && Owned(q, Repr)
      {
        var t, i :| && t in topics && 0 <= i < |topics[t].partitions| && (t != topic || i != partition)
                    && q == topics[t].partitions[i];
        assert Has(topics, t, i) && PartAt(topics, t, i) == q;
        OtherIsApart(topic, partition, t, i);
      }
    }

    /** Nothing another partition owns belongs to this one. */
    lemma OtherIsApart(topic: string, partition: nat, t: string, i: nat)
      requires Valid() && Has(topics, topic, partition) && Has(topics, t, i) && (t != topic || i != partition)
      ensures Untouched(PartAt(topics, t, i), PartAt(topics, topic, partition))
      ensures Owned(PartAt(topics, t, i), Repr)
    {
      hide PartitionState.Valid, Sum;
      assert Owned(PartAt(topics, t, i), Repr);
      assert Owned(PartAt(topics, topic, partition), Repr);
    }

    method Fetch(topic: string, partition: nat, from: nat, max: nat) returns (res: Fetched)
      requires Valid()
      modifies `fetchedTotal
      ensures Valid()
      ensures !Has(topics, topic, partition) ==> res == FetchNotFound && fetchedTotal == old(fetchedTotal)
      ensures Has(topics, topic, partition) ==>
                && Start(model[topic][partition]) <= |model[topic][partition].history|
                && res == Fetched(Logs.Fetch(AsLog(model[topic][partition]), from, max))
                && fetchedTotal == old(fetchedTotal) + |res.result.records|
    {
      hide PartitionState.Valid, Sum, WellFormedPart, Start, Logs.Fetch, Owned, Untouched;
      if topic !in topics || partition >= |topics[topic].partitions| {
        return FetchNotFound;
      }
      var part := PartAt(topics, topic, partition);
      InState(part, model[topic][partition], topics[topic].config.segmentMax);
      StartInside(model[topic][partition], topics[topic].config.segmentMax);
      var result := part.Fetch(from, max, topics[topic].config.segmentMax);
      fetchedTotal := fetchedTotal + |result.records|;
      res := Fetched(result);
    }

    /** The figures are exact: they count the topics, partitions, segments and retained records one by one. */
    method GetStats() returns (stats: Stats)
      requires Valid()
      ensures stats.topics == |model.Keys|
      ensures stats.partitions == |set t, i: nat, k: nat | t in model && i < |model[t]| && k < 1 :: (t, i, k)|
      ensures stats.segments == |set t, i: nat, k: nat | t in model && i < |model[t]| && k < |model[t][i].segs| :: (t, i, k)|
      ensures stats.records ==
                |set t, i: nat, k: nat | t in model && i < |model[t]| && k < |model[t][i].history| - Start(model[t][i]) :: (t, i, k)|
      ensures stats.producedTotal ==
                |set t, i: nat, o: nat | t in model && i < |model[t]| && o < |model[t][i].history| :: (t, i, o)|
      ensures stats.producedTotal == stats.records + Sum(model, Pruned)
      ensures stats.fetchedTotal == fetchedTotal
    {
      hide PartitionState.Valid, Sum, SumParts, Owned, WellFormedPart, Retained, Rolled, One, Pruned;
      var records, segments, partitions := 0, 0, 0;
      var left := topics.Keys;
      NothingSummed(model);
      while left != {}
        invariant left <= topics.Keys
        invariant partitions == Sum(model - left, One)
        invariant records == Sum(model - left, Retained) && segments == Sum(model - left, Rolled)
        decreases |left|
      {
        var t :| t in left;
        var n, r, g := TopicStats(t);
        SumOneMore(model, left, t, One);
        SumOneMore(model, left, t, Retained);
        SumOneMore(model, left, t, Rolled);
        partitions, records, segments := partitions + n, records + r, segments + g;
        left := left - {t};
      }
      assert model - {} == model;
      assert |topics| == |topics.Keys| == |model.Keys| == |model|;
      ProducedIsConserved();
      CountFigures(model);
      stats := Stats(|topics|, partitions, records, segments, producedTotal, fetchedTotal);
    }

    method TopicStats(t: string) returns (partitions: nat, records: nat, segments: nat)
      requires Valid() && t in topics
      ensures partitions == SumParts(model[t], One)
      ensures records == SumParts(model[t], Retained) && segments == SumParts(model[t], Rolled)
    {
      hide PartitionState.Valid, Sum, Owned, WellFormedPart;
      var ps := topics[t].partitions;
      partitions, records, segments := |ps|, 0, 0;
      for i := 0 to |ps|
        invariant i == SumParts(model[t][..i], One)
        invariant records == SumParts(model[t][..i], Retained) && segments == SumParts(model[t][..i], Rolled)
      {
        assert Has(topics, t, i) && PartAt(topics, t, i) == ps[i];
        ps[i].Measures(topics[t].config.segmentMax);
        assert model[t][..i + 1][..i] == model[t][..i];
        records := records + ps[i].TotalRecords();
        segments := segments + |ps[i].segments|;
      }
      assert model[t][..|ps|] == model[t];
    }
  }

  lemma CountFigures(model: Model)
    ensures Sum(model, One) == |set t, i: nat, k: nat | t in model && i < |model[t]| && k < 1 :: (t, i, k)|
    ensures Sum(model, Rolled) == |set t, i: nat, k: nat | t in model && i < |model[t]| && k < |model[t][i].segs| :: (t, i, k)|
    ensures Sum(model, Retained) ==
              |set t, i: nat, k: nat | t in model && i < |model[t]| && k < |model[t][i].history| - Start(model[t][i]) :: (t, i, k)|
    ensures Sum(model, NextOffset) ==
              |set t, i: nat, o: nat | t in model && i < |model[t]| && o < |model[t][i].history| :: (t, i, o)|
  {
    hide Sum, Start;
    SumIsCount(model, One);
    SumIsCount(model, Rolled);
    SumIsCount(model, Retained);
    SumIsCount(model, NextOffset);
    assert Places(model, One) == set t, i: nat, k: nat | t in model && i < |model[t]| && k < 1 :: (t, i, k);
    assert Places(model, Rolled)
           == set t, i: nat, k: nat | t in model && i < |model[t]| && k < |model[t][i].segs| :: (t, i, k);
    assert Places(model, Retained)
           == set t, i: nat, k: nat | t in model && i < |model[t]| && k < |model[t][i].history| - Start(model[t][i]) :: (t, i, k);
    assert Places(model, NextOffset)
           == set t, i: nat, o: nat | t in model && i < |model[t]| && o < |model[t][i].history| :: (t, i, o);
  }

  lemma NothingSummed(model: Model)
    ensures forall f: Part -> nat :: Sum(model - model.Keys, f) == 0
  {
    assert model - model.Keys == map[];
  }

  lemma SumOneMore(model: Model, left: set<string>, t: string, f: Part -> nat)
    requires t in left && t in model
    ensures Sum(model - (left - {t}), f) == Sum(model - left, f) + SumParts(model[t], f)
  {
    hide Sum, SumParts;
    SumWithout(model - (left - {t}), t, f);
    assert model - (left - {t}) - {t} == model - left;
  }
}
