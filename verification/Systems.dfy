/**
  The durable log and a sink over it as one system: other tasks append, the sink runtime takes its steps, and
  one crash hits both, tearing a write of the log and wiping the runtime's memory.
 */
module Systems {
  import opened Prelude
  import opened Bytes
  import opened Codec
  import opened Logs
  import opened Parts
  import Log = Recovery
  import opened FilePartitions
  import Sink = SinkMachine
  import opened Guarantees
  import Retention

  datatype System = System(store: Log.Durable, sink: Sink.State)

  /** A store event (appends, crashes, recoveries), or a step of the sink runtime. */
  datatype Event = Store(event: Log.Event) | Step(action: Sink.Action)

  function ViewOf(p: Part): Sink.View
  {
    Sink.View(Start(p), |p.history|)
  }

  const FRESH: System := System(Log.FRESH, Sink.Fresh(ViewOf(EMPTY)))

  /** What a store event is to the sink. */
  function Seen(before: Log.Durable, after: Log.Durable): Sink.Action {
    if before.live && !after.live then Sink.Crash(ViewOf(after.part)) else Sink.LogMoves(ViewOf(after.part))
  }

  /** While no process serves the log, no sink step happens either. */
  function Next(cfg: Sink.Config, sys: System, e: Event, s: nat, m: nat): System {
    match e
    case Store(event) =>
      var store := Log.Next(sys.store, event, s, m);
      System(store, Sink.Next(cfg, sys.sink, Seen(sys.store, store)))
    case Step(a) =>
      if !sys.store.live || a.LogMoves? || a.Crash? then sys else sys.(sink := Sink.Next(cfg, sys.sink, a))
  }

  function Run(cfg: Sink.Config, events: seq<Event>, s: nat, m: nat): System {
    if events == [] then FRESH else
      Next(cfg, Run(cfg, events[..|events| - 1], s, m), events[|events| - 1], s, m)
  }

  /** The store's share of a run. */
  function StoreEvents(events: seq<Event>): (es: seq<Log.Event>)
    ensures forall e :: e in es ==> Store(e) in events
  {
    if events == [] then [] else
      var last := events[|events| - 1];
      StoreEvents(events[..|events| - 1]) + (if last.Store? then [last.event] else [])
  }

  ghost predicate AllEncodable(events: seq<Event>) {
    forall e :: Store(e) in events ==> Log.EventEncodable(e)
  }

  lemma {:induction false} StoreRun(cfg: Sink.Config, events: seq<Event>, s: nat, m: nat)
    ensures Run(cfg, events, s, m).store == Log.Run(StoreEvents(events), s, m)
  {
    if events != [] {
      hide Log.Next, Sink.Next, Seen;
      StoreRun(cfg, events[..|events| - 1], s, m);
      var init, last := events[..|events| - 1], events[|events| - 1];
      if last.Store? {
        assert StoreEvents(events)[..|StoreEvents(events)| - 1] == StoreEvents(init);
      } else {
        assert StoreEvents(events) == StoreEvents(init);
      }
    }
  }

  /**
    Every run of the system is, to its sink, a run of the step machine over the ends of the durable log, so
    everything proved of those runs holds of a sink over the file store.
   */
  lemma {:induction false} SinkRun(cfg: Sink.Config, events: seq<Event>, s: nat, m: nat) returns (actions: seq<Sink.Action>)
    requires s > 0 && AllEncodable(events)
    ensures var sys := Run(cfg, events, s, m);
            sys.sink == Sink.Run(cfg, Sink.Fresh(ViewOf(EMPTY)), actions) && sys.sink.log == ViewOf(sys.store.part)
  {
    actions := [];
    if events != [] {
      hide Log.Next, Sink.Next, Start;
      var init, last := events[..|events| - 1], events[|events| - 1];
      actions := SinkRun(cfg, init, s, m);
      var sys, sys' := Run(cfg, init, s, m), Run(cfg, events, s, m);
      var action := if last.Store? then Seen(sys.store, sys'.store) else last.action;
      ViewMoves(cfg, init, last, s, m);
      if last.Store? || sys' != sys {
        LogOf(cfg, sys.sink, action);
        Sink.RunSnoc(cfg, Sink.Fresh(ViewOf(EMPTY)), actions, action);
        actions := actions + [action];
      }
    }
  }

  /** A machine step changes what the sink sees of the log only as the action says. */
  lemma LogOf(cfg: Sink.Config, st: Sink.State, a: Sink.Action)
    ensures (a.LogMoves? || a.Crash?) && Sink.Moves(st.log, a.log) ==> Sink.Next(cfg, st, a).log == a.log
    ensures !(a.LogMoves? || a.Crash?) ==> Sink.Next(cfg, st, a).log == st.log
  {
  }

  lemma ViewMoves(cfg: Sink.Config, init: seq<Event>, last: Event, s: nat, m: nat)
    requires s > 0 && AllEncodable(init) && (last.Store? ==> Log.EventEncodable(last.event))
    ensures var sys := Run(cfg, init, s, m);
            && Log.Sound(sys.store, s)
            && Sink.Moves(ViewOf(sys.store.part), ViewOf(Next(cfg, sys, last, s, m).store.part))
            && sys.store.part.history <= Next(cfg, sys, last, s, m).store.part.history
  {
    hide Log.Next, Sink.Next, Start;
    var sys := Run(cfg, init, s, m);
    StoreRun(cfg, init, s, m);
    Log.RunSound(StoreEvents(init), |StoreEvents(init)|, s, m);
    StartInside(sys.store.part, s);
    if last.Store? {
      Log.NextSound(sys.store, last.event, s, m);
      StartInside(Log.Next(sys.store, last.event, s, m).part, s);
    }
  }

  // ---- What holds of the whole system ---------------------------------------------------------

  /** Neither the log nor its start nor a durable checkpoint ever goes back, whatever crashes in between. */
  lemma {:induction false} NothingGoesBack(cfg: Sink.Config, events: seq<Event>, i: nat, s: nat, m: nat)
    requires s > 0 && AllEncodable(events) && i <= |events|
    ensures var mid, end := Run(cfg, events[..i], s, m), Run(cfg, events, s, m);
            && mid.store.part.history <= end.store.part.history
            && Start(mid.store.part) <= Start(end.store.part)
            && (cfg.checkpoints.Persistent? ==> Sink.Checkpoint(mid.sink) <= Sink.Checkpoint(end.sink))
    decreases |events| - i
  {
    if i == |events| {
      assert events[..i] == events;
    } else {
      hide Next, Sink.Checkpoint, Start, AllEncodable;
      NothingGoesBack(cfg, events, i + 1, s, m);
      PrefixEncodable(events, i);
      assert events[..i + 1][..i] == events[..i];
      assert events[..i + 1][i] == events[i];
      StepForward(cfg, events[..i], events[i], s, m);
    }
  }

  lemma PrefixEncodable(events: seq<Event>, i: nat)
    requires AllEncodable(events) && i <= |events|
    ensures AllEncodable(events[..i])
    ensures i < |events| && events[i].Store? ==> Log.EventEncodable(events[i].event)
  {
  }

  lemma StepForward(cfg: Sink.Config, init: seq<Event>, last: Event, s: nat, m: nat)
    requires s > 0 && AllEncodable(init) && (last.Store? ==> Log.EventEncodable(last.event))
    ensures var sys := Run(cfg, init, s, m);
            var sys' := Next(cfg, sys, last, s, m);
            && sys.store.part.history <= sys'.store.part.history
            && Start(sys.store.part) <= Start(sys'.store.part)
            && (cfg.checkpoints.Persistent? ==> Sink.Checkpoint(sys.sink) <= Sink.Checkpoint(sys'.sink))
  {
    hide Log.Next, Sink.Next, Sink.Inv, Sink.Checkpoint, Start;
    ViewMoves(cfg, init, last, s, m);
    var sys := Run(cfg, init, s, m);
    var actions := SinkRun(cfg, init, s, m);
    var log := ViewOf(EMPTY);
    FreshLog();
    Sink.FreshInv(cfg, log);
    Sink.RunInv(cfg, Sink.Fresh(log), actions);
    var action := if last.Store? then Seen(sys.store, Log.Next(sys.store, last.event, s, m)) else last.action;
    Sink.StepInv(cfg, sys.sink, action);
  }

  lemma FreshLog()
    ensures ViewOf(EMPTY) == Sink.View(0, 0)
  {
  }

  /**
    A checkpoint that survived a crash never points past the log that survived it: what the sink has passed,
    handed over or given up on is on disk.
   */
  lemma CheckpointIsOnDisk(cfg: Sink.Config, events: seq<Event>, s: nat, m: nat)
    requires s > 0 && AllEncodable(events)
    ensures var sys := Run(cfg, events, s, m);
            && Sink.Checkpoint(sys.sink) <= |sys.store.part.history|
            && Inside(sys.sink) && sys.sink.log.high == |sys.store.part.history|
  {
    hide Sink.Run, Run;
    var actions := SinkRun(cfg, events, s, m);
    FreshLog();
    Sink.CheckpointRuns(cfg, ViewOf(EMPTY), actions, 0);
    RunInside(cfg, ViewOf(EMPTY), actions);
  }

  /**
    At least once over the durable log: a record that a returned append acknowledged keeps its offset and its
    content through every crash, and once the checkpoint is past it, it has been delivered or dead-lettered,
    or retention had removed it before its batch was fetched.
   */
  lemma AcknowledgedIsHandled(cfg: Sink.Config, events: seq<Event>, i: nat, k: nat, s: nat, m: nat)
    requires s > 0 && AllEncodable(events) && cfg.guarantee.AtLeastOnce?
    requires i < |events| && events[i].Store? && events[i].event.Append? && k < |events[i].event.batch|
    requires var st := Run(cfg, events[..i], s, m).store;
             st.live && |st.part.history| + |events[i].event.batch| <= TWO_64
    ensures var o, e, sys := |Run(cfg, events[..i], s, m).store.part.history| + k, events[i].event, Run(cfg, events, s, m);
            && o < |sys.store.part.history|
            && sys.store.part.history[o] == Record(o, e.timestamp, e.batch[k].key, e.batch[k].payload)
            && (o < Sink.Checkpoint(sys.sink) ==>
                  || o in sys.sink.delivered
                  || o in sys.sink.lettered
                  || (o in sys.sink.skipped && o < Start(sys.store.part)))
  {
    hide Sink.Run, Sink.Next, Sink.Checkpoint, Start, AllEncodable, Next, Run, Materialize;
    var o := |Run(cfg, events[..i], s, m).store.part.history| + k;
    Acknowledged(cfg, events, i, s, m);
    NothingGoesBack(cfg, events, i + 1, s, m);
    var actions := SinkRun(cfg, events, s, m);
    FreshLog();
    if o < Sink.Checkpoint(Run(cfg, events, s, m).sink) {
      Sink.AtLeastOnceRuns(cfg, ViewOf(EMPTY), actions, o);
    }
  }

  /** The state after a returned append: its records end the history. */
  lemma Acknowledged(cfg: Sink.Config, events: seq<Event>, i: nat, s: nat, m: nat)
    requires s > 0 && AllEncodable(events) && i < |events| && events[i].Store? && events[i].event.Append?
    requires var st := Run(cfg, events[..i], s, m).store;
             st.live && |st.part.history| + |events[i].event.batch| <= TWO_64
    ensures var h, e := Run(cfg, events[..i], s, m).store.part.history, events[i].event;
            Run(cfg, events[..i + 1], s, m).store.part.history == h + Materialize(e.batch, |h|, e.timestamp)
  {
    hide Sink.Next, Log.CallPlan;
    var st, e := Run(cfg, events[..i], s, m).store, events[i].event;
    assert events[..i + 1][..i] == events[..i];
    PrefixEncodable(events, i);
    StoreRun(cfg, events[..i], s, m);
    Log.RunSound(StoreEvents(events[..i]), |StoreEvents(events[..i])|, s, m);
    Log.SoundParts(st, s);
    Log.MaterializeContinues(st.part, e.batch, e.timestamp);
    Log.CompleteCall(st.files, st.part, Materialize(e.batch, |st.part.history|, e.timestamp), s, m);
  }

  /**
    At most once over the durable log, with a durable checkpoint: the offsets handed to the sink strictly
    increase, crashes included, and an offset names the same record ever after, so no record is handed over twice.
   */
  lemma NoRecordTwice(cfg: Sink.Config, events: seq<Event>, i: nat, a: nat, b: nat, s: nat, m: nat)
    requires s > 0 && AllEncodable(events) && i <= |events|
    requires cfg.guarantee.AtMostOnce? && cfg.checkpoints.Persistent?
    requires a < b < |Run(cfg, events, s, m).sink.handed|
    ensures var mid, end := Run(cfg, events[..i], s, m), Run(cfg, events, s, m);
            && end.sink.handed[a] < end.sink.handed[b] < |end.store.part.history|
            && (forall o :: 0 <= o < |mid.store.part.history| ==>
                  o < |end.store.part.history| && end.store.part.history[o] == mid.store.part.history[o])
  {
    hide Sink.Run, Run;
    NothingGoesBack(cfg, events, i, s, m);
    CheckpointIsOnDisk(cfg, events, s, m);
    var actions := SinkRun(cfg, events, s, m);
    FreshLog();
    Sink.AtMostOnceRuns(cfg, ViewOf(EMPTY), actions, a, b);
    var handed := Run(cfg, events, s, m).sink.handed;
    assert handed[b] in handed;
  }

  // ---- Exactly when nothing is lost -----------------------------------------------------------

  /** In every run, whatever is below the checkpoint was delivered or is in the dead-letter queue. */
  ghost predicate LosesNothing(cfg: Sink.Config, s: nat, m: nat) {
    forall events, o :: AllEncodable(events) && 0 <= o < Sink.Checkpoint(Run(cfg, events, s, m).sink) ==>
      !Lost(Run(cfg, events, s, m).sink, o)
  }

  /** Without a retention bound, whatever is below an at-least-once checkpoint was delivered or dead-lettered. */
  lemma UnboundedMissesNothing(cfg: Sink.Config, events: seq<Event>, s: nat, o: nat)
    requires s > 0 && AllEncodable(events) && cfg.guarantee.AtLeastOnce?
    requires o < Sink.Checkpoint(Run(cfg, events, s, 0).sink)
    ensures Received(Run(cfg, events, s, 0).sink, o)
    ensures !Sink.Forgetful(cfg) ==> !Lost(Run(cfg, events, s, 0).sink, o)
  {
    hide Sink.Run, Sink.Checkpoint, Run, Log.Run, StoreEvents;
    var actions := SinkRun(cfg, events, s, 0);
    FreshLog();
    Sink.AtLeastOnceRuns(cfg, ViewOf(EMPTY), actions, o);
    QueueWasWritten(cfg, ViewOf(EMPTY), actions, o);
    StoreRun(cfg, events, s, 0);
    StoreEncodable(events);
    Retention.RunRetention(StoreEvents(events), s, 0);
  }

  function Steps(actions: seq<Sink.Action>): (events: seq<Event>)
    ensures |events| == |actions| && forall i :: 0 <= i < |actions| ==> events[i] == Step(actions[i])
  {
    if actions == [] then [] else Steps(actions[..|actions| - 1]) + [Step(actions[|actions| - 1])]
  }

  /** The sink's own steps: no crash, and no move of the log. */
  ghost predicate Own(actions: seq<Sink.Action>) {
    forall a :: a in actions ==> !a.LogMoves? && !a.Crash?
  }

  lemma {:induction false} OwnSteps(cfg: Sink.Config, events: seq<Event>, actions: seq<Sink.Action>, s: nat, m: nat)
    requires Own(actions) && Run(cfg, events, s, m).store.live
    ensures var sys, sys' := Run(cfg, events, s, m), Run(cfg, events + Steps(actions), s, m);
            sys' == sys.(sink := Sink.Run(cfg, sys.sink, actions))
  {
    hide Sink.Next, Log.Next;
    if actions == [] {
      assert events + Steps(actions) == events;
    } else {
      var init, a := actions[..|actions| - 1], actions[|actions| - 1];
      assert a in actions && forall x :: x in init ==> x in actions;
      OwnSteps(cfg, events, init, s, m);
      var longer := events + Steps(actions);
      assert longer[..|longer| - 1] == events + Steps(init) && longer[|longer| - 1] == Step(a);
    }
  }

  /** A log of `n` records, appended in one call, and a sink that has not begun. */
  function Filled(n: nat): seq<Event> {
    [Store(Log.Event.Append(Retention.Blanks(n), 0))]
  }

  lemma FilledLog(cfg: Sink.Config, n: nat, s: nat, m: nat)
    requires s > 0 && 0 < n <= TWO_64
    ensures var sys := Run(cfg, Filled(n), s, m);
            && AllEncodable(Filled(n)) && sys.store.live
            && |sys.store.part.history| == n && Start(sys.store.part) == Retention.RetainedFrom(n, m, s)
            && sys.sink == Sink.Fresh(Sink.View(Retention.RetainedFrom(n, m, s), n))
  {
    hide Log.Next, Start, Retention.RetainedFrom;
    var event := Log.Event.Append(Retention.Blanks(n), 0);
    assert Filled(n)[..0] == [] && [event][..0] == [];
    Retention.OneCall(n, s, m);
    assert Log.Run([event], s, m) == Log.Next(Log.FRESH, event, s, m);
    FreshLog();
    AppendKeepsLife(Log.FRESH, event, s, m);
    ViewMoves(cfg, [], Filled(n)[0], s, m);
  }

  lemma AppendKeepsLife(st: Log.Durable, e: Log.Event, s: nat, m: nat)
    requires e.Append?
    ensures Log.Next(st, e, s, m).live == st.live
  {
    hide Log.CallPlan;
  }

  /** Any bound retention is given, some run makes it overtake the sink. */
  lemma BoundedLoses(cfg: Sink.Config, s: nat, m: nat)
    requires 0 < s < TWO_64 && 0 < m < TWO_64 && cfg.guarantee.AtLeastOnce? && cfg.batchSize > 0
    ensures !LosesNothing(cfg, s, m)
  {
    hide Sink.Run, Sink.Next, Run, Lost, Received, Gone, UntilSaved, Retention.RetainedFrom, Sink.BatchFirst, Sink.BatchNext;
    var n := Max(m, s) + 1;
    var sys := Run(cfg, Filled(n), s, m);
    FilledLog(cfg, n, s, m);
    Retention.PrunesSomething(n, m, s);
    BatchThere(cfg, sys.sink.log);
    var k := Sink.BatchNext(cfg, sys.sink.log, 0) - Sink.BatchFirst(sys.sink.log, 0);
    var actions := UntilSaved(cfg, k);
    RoundSaves(cfg, sys.sink);
    OwnUntilSaved(cfg, k);
    OwnSteps(cfg, Filled(n), actions, s, m);
    FreshGone(sys.sink.log);
    Sink.FreshInv(cfg, sys.sink.log);
    GoneForever(cfg, sys.sink, actions, 0);
    QueueWasWritten(cfg, sys.sink.log, actions, 0);
    NotReceivedIsLost(Sink.Run(cfg, sys.sink, actions), 0);
    StepsEncodable(Filled(n), actions);
    assert Lost(Run(cfg, Filled(n) + Steps(actions), s, m).sink, 0);
  }

  lemma BatchThere(cfg: Sink.Config, log: Sink.View)
    requires log.start < log.high && cfg.batchSize > 0
    ensures log.start == Sink.BatchFirst(log, 0) < Sink.BatchNext(cfg, log, 0)
  {
  }

  lemma FreshGone(log: Sink.View)
    ensures log.start > 0 ==> Gone(Sink.Fresh(log), 0)
    ensures !Received(Sink.Fresh(log), 0)
  {
  }

  lemma NotReceivedIsLost(st: Sink.State, o: nat)
    requires !Received(st, o) && (o in st.dlq ==> o in st.lettered)
    ensures Lost(st, o)
  {
  }

  lemma OwnUntilSaved(cfg: Sink.Config, k: nat)
    ensures Own(UntilSaved(cfg, k))
  {
  }

  lemma StepsEncodable(events: seq<Event>, actions: seq<Sink.Action>)
    requires AllEncodable(events)
    ensures AllEncodable(events + Steps(actions))
  {
    forall e | Store(e) in events + Steps(actions)
      ensures Store(e) in events
    {
    }
  }

  /** A crash between calls. */
  const DIES: Event := Store(Log.Event.Crash([], 0, 0, 0))

  lemma Dies(cfg: Sink.Config, events: seq<Event>, s: nat, m: nat)
    requires s > 0 && AllEncodable(events) && Run(cfg, events, s, m).store.live
    ensures var sys, sys' := Run(cfg, events, s, m), Run(cfg, events + [DIES], s, m);
            AllEncodable(events + [DIES]) && sys'.sink == Sink.Next(cfg, sys.sink, Sink.Crash(ViewOf(sys.store.part)))
  {
    hide Log.Next, Sink.Next, Start;
    var sys := Run(cfg, events, s, m);
    assert (events + [DIES])[..|events|] == events;
    StoreRun(cfg, events, s, m);
    StoreEncodable(events);
    Log.RunSound(StoreEvents(events), |StoreEvents(events)|, s, m);
    NothingWritten(sys.store, s, m);
  }

  lemma NothingWritten(st: Log.Durable, s: nat, m: nat)
    requires st.live && Log.Sound(st, s)
    ensures var st' := Log.Next(st, DIES.event, s, m); st'.part == st.part && !st'.live
  {
    hide Log.CallPlan, Encode;
    HistoryFits(st.part, s);
    var plan := Log.CallPlan(st.part, Materialize([], |st.part.history|, 0), s, m);
    EmptySteps(st.part);
    assert plan[..0] == [];
  }

  /** Offsets are 64-bit, so there are at most 2^64 of them. */
  lemma HistoryFits(p: Part, s: nat)
    requires WellFormedPart(p, s)
    ensures |p.history| <= TWO_64
  {
    if p.history != [] {
      var last: int := p.history[|p.history| - 1].offset;
      assert last == |p.history| - 1;
    }
  }

  /** A queue that dies with the process, under a checkpoint that does not, loses a record whatever retention does. */
  lemma VolatileLoses(cfg: Sink.Config, s: nat, m: nat)
    requires s > 0 && cfg.guarantee.AtLeastOnce? && cfg.batchSize > 0 && Sink.Forgetful(cfg)
    ensures !LosesNothing(cfg, s, m)
  {
    hide Sink.Run, Run, Retention.RetainedFrom;
    var actions := [Sink.Resolve(true), Sink.FetchBatch(true), Sink.Deliver(false), Sink.DeadLetter(Sink.Done), Sink.Save(Sink.Done)];
    var sys := Run(cfg, Filled(1), s, m);
    FilledLog(cfg, 1, s, m);
    OneIsKept(m, s);
    OwnSteps(cfg, Filled(1), actions, s, m);
    StepsEncodable(Filled(1), actions);
    var events := Filled(1) + Steps(actions);
    Dies(cfg, events, s, m);
    LetterDies(cfg, sys.sink, actions);
    assert Lost(Run(cfg, events + [DIES], s, m).sink, 0);
  }

  lemma OneIsKept(m: nat, s: nat)
    requires s > 0
    ensures Retention.RetainedFrom(1, m, s) == 0
  {
  }

  lemma LetterDies(cfg: Sink.Config, st: Sink.State, actions: seq<Sink.Action>)
    requires cfg.guarantee.AtLeastOnce? && cfg.batchSize > 0 && Sink.Forgetful(cfg)
    requires st == Sink.Fresh(Sink.View(0, 1))
    requires actions == [Sink.Resolve(true), Sink.FetchBatch(true), Sink.Deliver(false), Sink.DeadLetter(Sink.Done), Sink.Save(Sink.Done)]
    ensures var st' := Sink.Next(cfg, Sink.Run(cfg, st, actions), Sink.Crash(Sink.View(0, 1)));
            Sink.Checkpoint(st') == 1 && Lost(st', 0)
  {
    var six := actions + [Sink.Crash(Sink.View(0, 1))];
    SixSteps(cfg, st, six);
    Sink.RunSnoc(cfg, st, actions, Sink.Crash(Sink.View(0, 1)));
  }

  /**
    "Never lost" holds of an at-least-once sink over the file store, in every run, exactly when retention is
    unbounded and the dead-letter queue outlives the process if the checkpoint does.
   */
  lemma LosesNothingIff(cfg: Sink.Config, s: nat, m: nat)
    requires 0 < s < TWO_64 && m < TWO_64 && cfg.guarantee.AtLeastOnce? && cfg.batchSize > 0
    ensures LosesNothing(cfg, s, m) <==> m == 0 && !Sink.Forgetful(cfg)
  {
    hide Run, Lost;
    if m > 0 {
      BoundedLoses(cfg, s, m);
    } else if Sink.Forgetful(cfg) {
      VolatileLoses(cfg, s, m);
    } else {
      forall events, o: nat | AllEncodable(events) && o < Sink.Checkpoint(Run(cfg, events, s, m).sink)
        ensures !Lost(Run(cfg, events, s, m).sink, o)
      {
        UnboundedMissesNothing(cfg, events, s, o);
      }
    }
  }

  // ---- What a checkpoint store that dies with the process costs -------------------------------

  /** In no run does the checkpoint go back. */
  ghost predicate KeepsCheckpoint(cfg: Sink.Config, s: nat, m: nat) {
    forall events, i :: AllEncodable(events) && 0 <= i <= |events| ==>
      Sink.Checkpoint(Run(cfg, events[..i], s, m).sink) <= Sink.Checkpoint(Run(cfg, events, s, m).sink)
  }

  lemma KeepsCheckpointIff(cfg: Sink.Config, s: nat, m: nat)
    requires s > 0 && cfg.batchSize > 0
    ensures KeepsCheckpoint(cfg, s, m) <==> cfg.checkpoints.Persistent?
  {
    hide Run, Sink.Run, Sink.Checkpoint, Retention.RetainedFrom;
    if cfg.checkpoints.Persistent? {
      forall events, i: nat | AllEncodable(events) && i <= |events|
        ensures Sink.Checkpoint(Run(cfg, events[..i], s, m).sink) <= Sink.Checkpoint(Run(cfg, events, s, m).sink)
      {
        NothingGoesBack(cfg, events, i, s, m);
      }
    } else {
      var events := Filled(1) + Steps(UntilSaved(cfg, 1));
      OneSaved(cfg, s, m);
      Dies(cfg, events, s, m);
      CheckpointDies(cfg, Run(cfg, events, s, m).sink, Sink.View(0, 1));
      assert (events + [DIES])[..|events|] == events;
      assert Sink.Checkpoint(Run(cfg, (events + [DIES])[..|events|], s, m).sink) == 1;
    }
  }

  lemma OneSaved(cfg: Sink.Config, s: nat, m: nat)
    requires s > 0 && cfg.batchSize > 0
    ensures var events := Filled(1) + Steps(UntilSaved(cfg, 1));
            var sys := Run(cfg, events, s, m);
            && AllEncodable(events) && sys.store.live && Sink.Checkpoint(sys.sink) == 1
            && sys.sink.log == ViewOf(sys.store.part) == Sink.View(0, 1)
  {
    hide Run, Sink.Run, Retention.RetainedFrom, UntilSaved;
    FilledLog(cfg, 1, s, m);
    OneIsKept(m, s);
    RoundSaves(cfg, Run(cfg, Filled(1), s, m).sink);
    OwnUntilSaved(cfg, 1);
    OwnSteps(cfg, Filled(1), UntilSaved(cfg, 1), s, m);
    StepsEncodable(Filled(1), UntilSaved(cfg, 1));
    var _ := SinkRun(cfg, Filled(1) + Steps(UntilSaved(cfg, 1)), s, m);
  }

  lemma CheckpointDies(cfg: Sink.Config, st: Sink.State, log: Sink.View)
    requires cfg.checkpoints.Volatile? && Sink.Moves(st.log, log)
    ensures Sink.Checkpoint(Sink.Next(cfg, st, Sink.Crash(log))) == 0
  {
  }

  /** In every run, the offsets handed to the sink strictly increase. */
  ghost predicate HandsOnce(cfg: Sink.Config, s: nat, m: nat) {
    forall events :: AllEncodable(events) ==> Increasing(Run(cfg, events, s, m).sink.handed)
  }

  /** "Never redelivered" holds of an at-most-once sink, in every run, exactly when its checkpoint is durable. */
  lemma HandsOnceIff(cfg: Sink.Config, s: nat, m: nat)
    requires s > 0 && cfg.guarantee.AtMostOnce? && cfg.batchSize > 0
    ensures HandsOnce(cfg, s, m) <==> cfg.checkpoints.Persistent?
  {
    hide Run, Increasing;
    if cfg.checkpoints.Persistent? {
      forall events | AllEncodable(events)
        ensures Increasing(Run(cfg, events, s, m).sink.handed)
      {
        HandedIncrease(cfg, events, s, m);
      }
    } else {
      var events := HandedTwice(cfg, s, m);
      TwiceIsNotIncreasing(Run(cfg, events, s, m).sink.handed);
    }
  }

  lemma HandedIncrease(cfg: Sink.Config, events: seq<Event>, s: nat, m: nat)
    requires s > 0 && AllEncodable(events) && cfg.guarantee.AtMostOnce? && cfg.checkpoints.Persistent?
    ensures Increasing(Run(cfg, events, s, m).sink.handed)
  {
    hide Run, Sink.Run;
    var handed := Run(cfg, events, s, m).sink.handed;
    forall a: nat, b: nat | a < b < |handed|
      ensures handed[a] < handed[b]
    {
      NoRecordTwice(cfg, events, 0, a, b, s, m);
    }
  }

  lemma TwiceIsNotIncreasing(xs: seq<nat>)
    requires xs == [0, 0]
    ensures !Increasing(xs)
  {
    assert xs[0] == xs[1];
  }

  /** With a checkpoint that dies: save, hand over, crash, recover, and all over again. */
  lemma HandedTwice(cfg: Sink.Config, s: nat, m: nat) returns (events: seq<Event>)
    requires s > 0 && cfg.guarantee.AtMostOnce? && cfg.batchSize > 0 && cfg.checkpoints.Volatile?
    ensures AllEncodable(events) && Run(cfg, events, s, m).sink.handed == [0, 0]
  {
    hide Run, Sink.Run, Retention.RetainedFrom;
    var round := [Sink.Resolve(true), Sink.FetchBatch(true), Sink.Save(Sink.Done), Sink.Deliver(true)];
    var log := Sink.View(0, 1);
    FilledLog(cfg, 1, s, m);
    OneIsKept(m, s);
    OwnSteps(cfg, Filled(1), round, s, m);
    StepsEncodable(Filled(1), round);
    var first := Filled(1) + Steps(round);
    HandsOver(cfg, Sink.Fresh(log));
    Dies(cfg, first, s, m);
    ComesBack(cfg, first, s, m);
    var again := first + [DIES] + [LIVES];
    OwnSteps(cfg, again, round, s, m);
    StepsEncodable(again, round);
    HandsOver(cfg, Run(cfg, again, s, m).sink);
    events := again + Steps(round);
  }

  /** A round over a log of one record that nothing remembers. */
  lemma HandsOver(cfg: Sink.Config, st: Sink.State)
    requires cfg.guarantee.AtMostOnce? && cfg.batchSize > 0
    requires st.pc.Idle? && st.log == Sink.View(0, 1) && st.cursor == st.saved == None
    ensures var round := [Sink.Resolve(true), Sink.FetchBatch(true), Sink.Save(Sink.Done), Sink.Deliver(true)];
            var st' := Sink.Run(cfg, st, round);
            st'.handed == st.handed + [0] && st'.log == st.log && st'.pc.Idle?
  {
    FourSteps(cfg, st, [Sink.Resolve(true), Sink.FetchBatch(true), Sink.Save(Sink.Done), Sink.Deliver(true)]);
  }

  const LIVES: Event := Store(Log.Event.Recover)

  /** After a crash between calls and a recovery, the log is as it was and the runtime has forgotten. */
  lemma ComesBack(cfg: Sink.Config, events: seq<Event>, s: nat, m: nat)
    requires s > 0 && AllEncodable(events) && Run(cfg, events, s, m).store.live && cfg.checkpoints.Volatile?
    ensures var sys, sys' := Run(cfg, events, s, m), Run(cfg, events + [DIES] + [LIVES], s, m);
            && AllEncodable(events + [DIES] + [LIVES]) && sys'.store.live
            && sys'.sink.log == ViewOf(sys.store.part) && sys'.sink.handed == sys.sink.handed
            && sys'.sink.pc.Idle? && sys'.sink.cursor == sys'.sink.saved == None
  {
    hide Log.Next, Start;
    var dead := events + [DIES];
    Dies(cfg, events, s, m);
    assert dead[..|events|] == events && (dead + [LIVES])[..|dead|] == dead;
    StoreRun(cfg, events, s, m);
    StoreEncodable(events);
    Log.RunSound(StoreEvents(events), |StoreEvents(events)|, s, m);
    NothingWritten(Run(cfg, events, s, m).store, s, m);
    LivesAgain(Run(cfg, dead, s, m).store, s, m);
    var _ := SinkRun(cfg, events, s, m);
    StartInside(Run(cfg, events, s, m).store.part, s);
  }

  lemma LivesAgain(st: Log.Durable, s: nat, m: nat)
    requires !st.live
    ensures Log.Next(st, LIVES.event, s, m).live && Log.Next(st, LIVES.event, s, m).part == st.part
  {
  }

  lemma StoreEncodable(events: seq<Event>)
    requires AllEncodable(events)
    ensures forall e :: e in StoreEvents(events) ==> Log.EventEncodable(e)
  {
  }
}
