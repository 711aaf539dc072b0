/**
  What a script makes of one round of `run_once`: every port call takes one tick, and every call of the sink one
  more. A round stops at the first port call that fails, and nowhere else.
 */
module Rounds {
  import opened Prelude
  import opened Codec
  import opened SinkMachine
  import opened Retry
  import opened Ports

  function Letter(r: Record, attempts: nat): DeadLetterRecord {
    DeadLetterRecord(r.offset, r.payload, attempts)
  }

  // ---- One record, begun at tick `t` -----------------------------------------------------------

  ghost predicate Taken(script: Script, bound: nat, r: Record, t: nat) {
    Succeeds(Answers(script, r, t + 1), bound)
  }

  /** The tick of the dead-letter call, if there is one. */
  function LetterTick(script: Script, bound: nat, r: Record, t: nat): nat
    requires bound > 0
  {
    t + 1 + CallsMade(Answers(script, r, t + 1), bound)
  }

  /** The record is refused, and the queue does not acknowledge its letter. */
  ghost predicate Blocked(script: Script, bound: nat, r: Record, t: nat)
    requires bound > 0
  {
    !Taken(script, bound, r, t) && !script.deadLetter(LetterTick(script, bound, r, t)).Done?
  }

  // ---- Records one after the other, begun at tick `t` ------------------------------------------

  /** The tick at which all of `rs` have been handled. */
  ghost function TickAfter(script: Script, bound: nat, rs: seq<Record>, t: nat): nat
    requires bound > 0
  {
    if rs == [] then t else
      var r, t' := rs[|rs| - 1], TickAfter(script, bound, rs[..|rs| - 1], t);
      LetterTick(script, bound, r, t') + (if Taken(script, bound, r, t') then 0 else 1)
  }

  ghost function TakenOf(script: Script, bound: nat, rs: seq<Record>, t: nat): seq<Record>
    requires bound > 0
  {
    if rs == [] then [] else
      var init, r := rs[..|rs| - 1], rs[|rs| - 1];
      TakenOf(script, bound, init, t) + (if Taken(script, bound, r, TickAfter(script, bound, init, t)) then [r] else [])
  }

  ghost function LettersOf(script: Script, bound: nat, rs: seq<Record>, t: nat): seq<DeadLetterRecord>
    requires bound > 0
  {
    if rs == [] then [] else
      var init, r := rs[..|rs| - 1], rs[|rs| - 1];
      LettersOf(script, bound, init, t)
      + (if Taken(script, bound, r, TickAfter(script, bound, init, t)) then [] else [Letter(r, bound)])
  }

  /** Record `k` of `rs` stops the loop, if the loop gets there. */
  ghost predicate BlockedAt(script: Script, bound: nat, rs: seq<Record>, k: nat, t: nat)
    requires bound > 0 && k < |rs|
  {
    Blocked(script, bound, rs[k], TickAfter(script, bound, rs[..k], t))
  }

  /** How many records are handled before one whose letter is not acknowledged. */
  ghost function Reached(script: Script, bound: nat, rs: seq<Record>, t: nat): (n: nat)
    requires bound > 0
    ensures n <= |rs|
  {
    if rs == [] then 0 else
      var init := rs[..|rs| - 1];
      var n := Reached(script, bound, init, t);
      if n < |init| || BlockedAt(script, bound, rs, |init|, t) then n else |rs|
  }

  /** The letter of the record that stopped the loop may have been written all the same. */
  ghost function StrayLetter(script: Script, bound: nat, rs: seq<Record>, t: nat): seq<DeadLetterRecord>
    requires bound > 0
  {
    var n := Reached(script, bound, rs, t);
    if n < |rs| && !script.deadLetter(LetterTick(script, bound, rs[n], TickAfter(script, bound, rs[..n], t))).Failed?
    then [Letter(rs[n], bound)] else []
  }

  /** One record more. */
  lemma OneMore(script: Script, bound: nat, rs: seq<Record>, i: nat, t: nat)
    requires bound > 0 && i < |rs|
    ensures var r, t' := rs[i], TickAfter(script, bound, rs[..i], t);
            var good := Taken(script, bound, r, t');
            && TickAfter(script, bound, rs[..i + 1], t) == LetterTick(script, bound, r, t') + (if good then 0 else 1)
            && TakenOf(script, bound, rs[..i + 1], t) == TakenOf(script, bound, rs[..i], t) + (if good then [r] else [])
            && LettersOf(script, bound, rs[..i + 1], t)
               == LettersOf(script, bound, rs[..i], t) + (if good then [] else [Letter(r, bound)])
            && (Reached(script, bound, rs[..i], t) == i ==>
                  Reached(script, bound, rs[..i + 1], t) == if Blocked(script, bound, r, t') then i else i + 1)
  {
    hide Taken, Blocked, LetterTick;
    assert rs[..i + 1][..i] == rs[..i];
  }

  /** Nothing has been handled yet. */
  lemma NothingMore(script: Script, bound: nat, rs: seq<Record>, t: nat)
    requires bound > 0
    ensures TickAfter(script, bound, rs[..0], t) == t && Reached(script, bound, rs[..0], t) == 0
    ensures TakenOf(script, bound, rs[..0], t) == [] && LettersOf(script, bound, rs[..0], t) == []
  {
  }

  lemma StopsAt(script: Script, bound: nat, rs: seq<Record>, i: nat, t: nat)
    requires bound > 0 && i < |rs| && Reached(script, bound, rs[..i], t) == i
    requires Blocked(script, bound, rs[i], TickAfter(script, bound, rs[..i], t))
    ensures Reached(script, bound, rs, t) == i
    ensures var last := LetterTick(script, bound, rs[i], TickAfter(script, bound, rs[..i], t));
            StrayLetter(script, bound, rs, t) == if script.deadLetter(last).Failed? then [] else [Letter(rs[i], bound)]
  {
    hide Blocked, TickAfter, LetterTick, Reached;
    OneMore(script, bound, rs, i, t);
    StaysStopped(script, bound, rs, i + 1, t);
  }

  lemma NoStray(script: Script, bound: nat, rs: seq<Record>, t: nat)
    requires bound > 0 && Reached(script, bound, rs, t) == |rs|
    ensures StrayLetter(script, bound, rs, t) == []
  {
  }

  /** A record that stops the loop stops it whatever comes after. */
  lemma {:induction false} StaysStopped(script: Script, bound: nat, rs: seq<Record>, k: nat, t: nat)
    requires bound > 0 && k <= |rs| && Reached(script, bound, rs[..k], t) < k
    ensures Reached(script, bound, rs, t) == Reached(script, bound, rs[..k], t)
    decreases |rs|
  {
    if k == |rs| {
      assert rs[..k] == rs;
    } else {
      assert rs[..|rs| - 1][..k] == rs[..k];
      StaysStopped(script, bound, rs[..|rs| - 1], k, t);
    }
  }

  /** Every record before where the loop stops is handled, and the one there is not. */
  lemma {:induction false} ReachedMeans(script: Script, bound: nat, rs: seq<Record>, k: nat, t: nat)
    requires bound > 0 && k <= Reached(script, bound, rs, t) && k < |rs|
    ensures BlockedAt(script, bound, rs, k, t) <==> k == Reached(script, bound, rs, t)
  {
    hide BlockedAt;
    var n := |rs| - 1;
    if k < n {
      ReachedMeans(script, bound, rs[..n], k, t);
      BlockedInPrefix(script, bound, rs, n, k, t);
    }
  }

  lemma BlockedInPrefix(script: Script, bound: nat, rs: seq<Record>, n: nat, k: nat, t: nat)
    requires bound > 0 && k < n <= |rs|
    ensures BlockedAt(script, bound, rs[..n], k, t) == BlockedAt(script, bound, rs, k, t)
  {
    hide Blocked, TickAfter;
    assert rs[..n][..k] == rs[..k];
  }

  lemma WorkingNeverBlocks(script: Script, bound: nat, rs: seq<Record>, k: nat, t: nat)
    requires bound > 0 && k < |rs| && Working(script)
    ensures !BlockedAt(script, bound, rs, k, t)
  {
    hide TickAfter, Taken, LetterTick;
  }

  // ---- A batch --------------------------------------------------------------------------------

  /** The tick of the fetch: a round with a cached cursor loads nothing. */
  function FetchTick(cursor: Option<nat>, t: nat): nat {
    if cursor.Some? then t else t + 1
  }

  /** The checkpoint is resolved and the fetch answered. */
  predicate Fetches(script: Script, cursor: Option<nat>, t: nat) {
    (cursor.Some? || script.load(t)) && script.fetch(FetchTick(cursor, t))
  }

  /** The cached checkpoint once it has been resolved to `from`; a failed load caches nothing. */
  function Loaded(script: Script, cursor: Option<nat>, t: nat, from: nat): Option<nat> {
    if cursor.Some? || script.load(t) then Some(from) else None
  }

  /** What a fetch from `from` finds in a log that reaches from `log.start` to `log.high`. */
  function ReadAt(cfg: Config, log: View, history: seq<Record>, from: nat): seq<Record> {
    var first, next := BatchFirst(log, from), BatchNext(cfg, log, from);
    if first < next <= |history| then history[first..next] else []
  }

  /** The tick at which delivery begins: after the save, when that comes first. */
  function Begins(cfg: Config, t: nat): nat {
    if cfg.guarantee.AtMostOnce? then t + 1 else t
  }

  /** A save made before delivery is acknowledged. */
  predicate SavedFirst(cfg: Config, script: Script, t: nat) {
    cfg.guarantee.AtMostOnce? ==> script.save(t).Done?
  }

  /** No port call that the batch makes fails; an empty one makes none. */
  ghost predicate Works(cfg: Config, script: Script, bound: nat, batch: seq<Record>, t: nat)
    requires bound > 0
  {
    batch != [] ==>
      && SavedFirst(cfg, script, t)
      && Reached(script, bound, batch, Begins(cfg, t)) == |batch|
      && (cfg.guarantee.AtLeastOnce? ==> script.save(TickAfter(script, bound, batch, t)).Done?)
  }

  /** What the sink has been given when the round is over. */
  ghost function Given(cfg: Config, script: Script, bound: nat, batch: seq<Record>, t: nat): seq<Record>
    requires bound > 0
  {
    var t' := Begins(cfg, t);
    if SavedFirst(cfg, script, t) then TakenOf(script, bound, batch[..Reached(script, bound, batch, t')], t') else []
  }

  /** What the queue has been given. */
  ghost function Queued(cfg: Config, script: Script, bound: nat, batch: seq<Record>, t: nat): seq<DeadLetterRecord>
    requires bound > 0
  {
    var t' := Begins(cfg, t);
    if SavedFirst(cfg, script, t) then
      LettersOf(script, bound, batch[..Reached(script, bound, batch, t')], t') + StrayLetter(script, bound, batch, t')
    else []
  }

  /** How many letters the queue has acknowledged. */
  ghost function Counted(cfg: Config, script: Script, bound: nat, batch: seq<Record>, t: nat): nat
    requires bound > 0
  {
    var t' := Begins(cfg, t);
    if SavedFirst(cfg, script, t) then |LettersOf(script, bound, batch[..Reached(script, bound, batch, t')], t')| else 0
  }

  /** The tick at which a round that works is over. */
  ghost function Ends(cfg: Config, script: Script, bound: nat, batch: seq<Record>, t: nat): nat
    requires bound > 0
  {
    if batch == [] then t else
      TickAfter(script, bound, batch, Begins(cfg, t)) + (if cfg.guarantee.AtLeastOnce? then 1 else 0)
  }

  /** The cached checkpoint moves to the batch's end as soon as a save is acknowledged. */
  ghost function Cached(cfg: Config, script: Script, bound: nat, batch: seq<Record>, t: nat, cursor: Option<nat>): Option<nat>
    requires bound > 0
  {
    if batch != [] && (Works(cfg, script, bound, batch, t) || (cfg.guarantee.AtMostOnce? && SavedFirst(cfg, script, t)))
    then Some(batch[|batch| - 1].offset + 1) else cursor
  }

  /** The stored checkpoint: the batch's end, unless its save is never reached or has no effect. */
  ghost function Stored(cfg: Config, script: Script, bound: nat, batch: seq<Record>, t: nat, saved: Option<nat>): Option<nat>
    requires bound > 0
  {
    var saves := cfg.guarantee.AtMostOnce? || Reached(script, bound, batch, t) == |batch|;
    var outcome := script.save(if cfg.guarantee.AtMostOnce? then t else TickAfter(script, bound, batch, t));
    if batch != [] && saves && !outcome.Failed? then Some(batch[|batch| - 1].offset + 1) else saved
  }

  /** All that a round changes but the log. */
  datatype Books = Books(
    tick: nat,
    saved: Option<nat>,
    cursor: Option<nat>,
    delivered: seq<Record>,
    processed: nat,
    dlq: seq<DeadLetterRecord>,
    dead: nat
  )

  /**
    A round from `from` whose fetch, if it is answered, finds the log `seen`: it succeeds exactly when every port
    call it makes does, and leaves the books as the script's answers at those calls say.
   */
  ghost predicate Follows(cfg: Config, script: Script, bound: nat, before: Books, from: nat,
                          seen: View, history: seq<Record>, ok: bool, after: Books)
    requires bound > 0
  {
    if !Fetches(script, before.cursor, before.tick) then
      !ok && after == before.(tick := after.tick, cursor := Loaded(script, before.cursor, before.tick, from))
    else
      var t, batch := FetchTick(before.cursor, before.tick) + 1, ReadAt(cfg, seen, history, from);
      && (ok <==> Works(cfg, script, bound, batch, t))
      && (ok ==> after.tick == Ends(cfg, script, bound, batch, t))
      && after == Books(after.tick,
                        Stored(cfg, script, bound, batch, t, before.saved),
                        Cached(cfg, script, bound, batch, t, Some(from)),
                        before.delivered + Given(cfg, script, bound, batch, t),
                        before.processed + |Given(cfg, script, bound, batch, t)|,
                        before.dlq + Queued(cfg, script, bound, batch, t),
                        before.dead + Counted(cfg, script, bound, batch, t))
  }

  /**
    With working ports a round succeeds, whatever the sink answers and others append; if it has read anything,
    every record was delivered or dead-lettered and the batch's end is stored.
   */
  lemma WorkingRound(cfg: Config, script: Script, bound: nat, before: Books, from: nat,
                     seen: View, history: seq<Record>, ok: bool, after: Books)
    requires bound > 0 && Working(script) && Follows(cfg, script, bound, before, from, seen, history, ok, after)
    ensures var batch := ReadAt(cfg, seen, history, from);
            && ok
            && |after.delivered| - |before.delivered| + |after.dlq| - |before.dlq| == |batch|
            && after.processed - before.processed + after.dead - before.dead == |batch|
            && (batch != [] ==> after.saved == after.cursor == Some(batch[|batch| - 1].offset + 1))
  {
    hide Works, Stored, Cached, Given, Queued, Counted, Ends;
    var t, batch := FetchTick(before.cursor, before.tick) + 1, ReadAt(cfg, seen, history, from);
    assert Fetches(script, before.cursor, before.tick);
    if batch == [] {
      NothingRead(cfg, script, bound, t, before.saved, Some(from));
    } else {
      WorkingIsEnough(cfg, script, bound, batch, t, before.saved, Some(from));
    }
  }

  /** A round that reads nothing does nothing. */
  lemma NothingRead(cfg: Config, script: Script, bound: nat, t: nat, saved: Option<nat>, cursor: Option<nat>)
    requires bound > 0
    ensures Works(cfg, script, bound, [], t) && Ends(cfg, script, bound, [], t) == t
    ensures Given(cfg, script, bound, [], t) == [] && Queued(cfg, script, bound, [], t) == []
    ensures Counted(cfg, script, bound, [], t) == 0
    ensures Stored(cfg, script, bound, [], t, saved) == saved && Cached(cfg, script, bound, [], t, cursor) == cursor
  {
    var empty: seq<Record> := [];
    assert empty[..0] == [];
  }

  /** With working ports nothing stops a batch, whatever the sink answers and others append. */
  lemma WorkingIsEnough(cfg: Config, script: Script, bound: nat, batch: seq<Record>, t: nat,
                        saved: Option<nat>, cursor: Option<nat>)
    requires bound > 0 && batch != [] && Working(script)
    ensures Works(cfg, script, bound, batch, t)
    ensures Stored(cfg, script, bound, batch, t, saved) == Some(batch[|batch| - 1].offset + 1)
    ensures Cached(cfg, script, bound, batch, t, cursor) == Some(batch[|batch| - 1].offset + 1)
    ensures |Given(cfg, script, bound, batch, t)| + |Queued(cfg, script, bound, batch, t)| == |batch|
    ensures Counted(cfg, script, bound, batch, t) == |Queued(cfg, script, bound, batch, t)|
  {
    hide Taken, TickAfter, LetterTick, TakenOf, LettersOf, Reached, BlockedAt, StrayLetter;
    var t' := Begins(cfg, t);
    var n := Reached(script, bound, batch, t');
    if n < |batch| {
      ReachedMeans(script, bound, batch, n, t');
      WorkingNeverBlocks(script, bound, batch, n, t');
    }
    assert batch[..|batch|] == batch;
    NoStray(script, bound, batch, t');
    TakenOrLettered(script, bound, batch, t');
  }

  lemma {:induction false} TakenOrLettered(script: Script, bound: nat, rs: seq<Record>, t: nat)
    requires bound > 0
    ensures |TakenOf(script, bound, rs, t)| + |LettersOf(script, bound, rs, t)| == |rs|
  {
    if rs != [] {
      hide Taken;
      TakenOrLettered(script, bound, rs[..|rs| - 1], t);
    }
  }

  // ---- Sinks whose answers do not change over time --------------------------------------------

  /** The records `accept` picks, in order. */
  function Accepted(rs: seq<Record>, accept: Record -> bool): seq<Record> {
    if rs == [] then [] else
      Accepted(rs[..|rs| - 1], accept) + (if accept(rs[|rs| - 1]) then [rs[|rs| - 1]] else [])
  }

  /** Dead letters for the others, in order. */
  function Refused(rs: seq<Record>, accept: Record -> bool, attempts: nat): seq<DeadLetterRecord> {
    if rs == [] then [] else
      var r := rs[|rs| - 1];
      Refused(rs[..|rs| - 1], accept, attempts)
      + (if accept(r) then [] else [Letter(r, attempts)])
  }

  lemma SteadyTakes(script: Script, accept: Record -> bool, bound: nat, r: Record, t: nat)
    requires bound > 0 && Steady(script, accept)
    ensures Taken(script, bound, r, t) <==> accept(r)
  {
    var answers := Answers(script, r, t + 1);
    assert answers(0) == script.deliver(t + 1, r);
    if accept(r) {
      assert AllRetryable(answers, 0) && answers(0).Success?;
    }
  }

  lemma {:induction false} SteadySplits(script: Script, accept: Record -> bool, bound: nat, rs: seq<Record>, t: nat)
    requires bound > 0 && Steady(script, accept)
    ensures TakenOf(script, bound, rs, t) == Accepted(rs, accept)
    ensures LettersOf(script, bound, rs, t) == Refused(rs, accept, bound)
  {
    if rs != [] {
      hide Taken, Steady;
      var init := rs[..|rs| - 1];
      SteadySplits(script, accept, bound, init, t);
      SteadyTakes(script, accept, bound, rs[|rs| - 1], TickAfter(script, bound, init, t));
    }
  }

  /** With working ports and a steady sink, a batch is split by what the sink accepts. */
  lemma SteadyBatch(cfg: Config, script: Script, accept: Record -> bool, bound: nat, batch: seq<Record>, t: nat)
    requires bound > 0 && batch != [] && Working(script) && Steady(script, accept)
    ensures Given(cfg, script, bound, batch, t) == Accepted(batch, accept)
    ensures Queued(cfg, script, bound, batch, t) == Refused(batch, accept, bound)
  {
    hide Taken, Steady, TakenOf, LettersOf, Accepted, Refused;
    WorkingIsEnough(cfg, script, bound, batch, t, None, None);
    assert batch[..|batch|] == batch;
    SteadySplits(script, accept, bound, batch, Begins(cfg, t));
  }
}
