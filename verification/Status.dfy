/**
  `SinkRuntime::status` of `connector.rs` beside a running `run_once`. It resolves the checkpoint too: between its
  load and its write to the cached cursor whole rounds may pass, and the write, wherever `run_once` then is, puts
  the cursor back.
 */
module Status {
  import opened Prelude
  import opened SinkMachine
  import opened Guarantees

  /** The late write of a `status` call that had loaded `loaded`. */
  function LateWrite(st: State, loaded: nat): State {
    st.(cursor := Some(loaded))
  }

  predicate InHand(pc: Pc) {
    pc.Fetched? || pc.Delivering? || pc.Failing?
  }

  /** A place `run_once` can be at, and go on from. */
  ghost predicate Proper(cfg: Config, pc: Pc) {
    && (InHand(pc) ==> pc.first < pc.next)
    && (pc.Fetched? ==> cfg.guarantee.AtMostOnce?)
    && (pc.Delivering? ==> pc.at < pc.next || (cfg.guarantee.AtLeastOnce? && pc.at == pc.next))
    && (pc.Failing? ==> pc.at < pc.next)
  }

  lemma InvIsProper(cfg: Config, st: State)
    requires Inv(cfg, st) && cfg.checkpoints.Persistent?
    ensures Proper(cfg, st.pc)
  {
  }

  /** The steps by which a round gives up where it is. */
  function GiveUp(pc: Pc): seq<Action> {
    match pc
    case Idle => []
    case Resolved(_) => [FetchBatch(false)]
    case Fetched(_, _) => [Save(Failed)]
    case Delivering(_, next, at) => if at < next then [Deliver(false), DeadLetter(Failed)] else [Save(Failed)]
    case Failing(_, _, _) => [DeadLetter(Failed)]
  }

  lemma GivingUp(cfg: Config, st: State)
    requires Proper(cfg, st.pc)
    ensures var st' := Run(cfg, st, GiveUp(st.pc));
            && st'.pc.Idle? && st'.saved == st.saved && st'.cursor == st.cursor && st'.log == st.log
            && forall x :: x in st.handed ==> x in st'.handed
  {
    hide Run;
    var steps := GiveUp(st.pc);
    if |steps| == 2 {
      TwoSteps(cfg, st, steps[0], steps[1]);
    } else if |steps| == 1 {
      OneStep(cfg, st, steps[0]);
    } else {
      RunNothing(cfg, st);
    }
  }

  /** The steps that hand over the rest of a batch: the record in hand is dead-lettered if it has failed. */
  function HandRest(pc: Pc): seq<Action> {
    match pc
    case Delivering(_, next, at) => Deliveries(if at < next then next - at else 0)
    case Failing(_, next, at) => [DeadLetter(Done)] + Deliveries(if at < next then next - at - 1 else 0)
    case _ => []
  }

  lemma HandingRest(cfg: Config, st: State)
    requires Proper(cfg, st.pc) && (st.pc.Delivering? || st.pc.Failing?)
    ensures var st' := Run(cfg, st, HandRest(st.pc));
            && st'.pc == Onward(cfg, st.pc.first, st.pc.next, st.pc.next)
            && st'.saved == st.saved && st'.cursor == st.cursor && st'.log == st.log
            && (st.pc.Delivering? && st.pc.at < st.pc.next ==> st.pc.next - 1 in st'.handed)
            && (st.pc.Failing? && st.pc.at in st.handed ==> st.pc.next - 1 in st'.handed)
  {
    hide Run, Deliveries;
    if st.pc.Delivering? {
      DeliverMany(cfg, st, st.pc.next - st.pc.at);
    } else {
      var k := st.pc.next - st.pc.at - 1;
      var mid := Next(cfg, st, DeadLetter(Done));
      OneStep(cfg, st, DeadLetter(Done));
      RunConcat(cfg, st, [DeadLetter(Done)], Deliveries(k));
      if k > 0 {
        DeliverMany(cfg, mid, k);
      } else {
        NoDeliveries(cfg, mid);
      }
    }
  }

  lemma NoDeliveries(cfg: Config, st: State)
    ensures Run(cfg, st, Deliveries(0)) == st
  {
  }

  // ---- At least once ---------------------------------------------------------------------------

  /** All that at-least-once needs of a cursor: nothing below it, or behind the round, is unaccounted for. */
  ghost predicate Accounted(cfg: Config, st: State) {
    && HandledBelow(cfg, st, Checkpoint(st))
    && (st.cursor.Some? ==> HandledBelow(cfg, st, st.cursor.value))
    && !st.pc.Fetched?
    && (st.pc.Resolved? ==> HandledBelow(cfg, st, st.pc.from))
    && (st.pc.Delivering? ==> st.pc.at <= st.pc.next && HandledBelow(cfg, st, st.pc.at))
    && (st.pc.Failing? ==> st.pc.at < st.pc.next && HandledBelow(cfg, st, st.pc.at))
  }

  lemma NextAccounted(cfg: Config, st: State, a: Action)
    requires cfg.guarantee.AtLeastOnce? && Accounted(cfg, st)
    ensures Accounted(cfg, Next(cfg, st, a))
  {
    hide Handled;
    HandledStep(cfg, st, a);
  }

  lemma {:induction false} RunAccounted(cfg: Config, st: State, actions: seq<Action>)
    requires cfg.guarantee.AtLeastOnce? && Accounted(cfg, st)
    ensures Accounted(cfg, Run(cfg, st, actions))
    decreases |actions|
  {
    if actions != [] {
      hide Accounted, Next;
      var init := actions[..|actions| - 1];
      RunAccounted(cfg, st, init);
      NextAccounted(cfg, Run(cfg, st, init), actions[|actions| - 1]);
    }
  }

  lemma LateAccounted(cfg: Config, st: State, loaded: nat)
    requires cfg.guarantee.AtLeastOnce? && Inv(cfg, st) && loaded <= Checkpoint(st)
    ensures Accounted(cfg, LateWrite(st, loaded))
  {
    hide BatchNext, BatchFirst;
    assert forall o :: Handled(cfg, LateWrite(st, loaded), o) == Handled(cfg, st, o);
  }

  /** At least once survives a late write anywhere: what lies below the checkpoint is still accounted for. */
  lemma LateWriteLosesNothing(cfg: Config, st: State, loaded: nat, actions: seq<Action>)
    requires cfg.guarantee.AtLeastOnce? && Inv(cfg, st) && loaded <= Checkpoint(st)
    ensures var end := Run(cfg, LateWrite(st, loaded), actions); HandledBelow(cfg, end, Checkpoint(end))
  {
    hide Run;
    LateAccounted(cfg, st, loaded);
    RunAccounted(cfg, LateWrite(st, loaded), actions);
  }

  // ---- The checkpoint --------------------------------------------------------------------------

  /** From here on the checkpoint does not go back, whatever happens. */
  ghost predicate Forward(cfg: Config, st: State) {
    forall actions, i :: 0 <= i <= |actions| ==> Checkpoint(Run(cfg, st, actions[..i])) <= Checkpoint(Run(cfg, st, actions))
  }

  /**
    One batch from what was loaded reaches the checkpoint and the end of the batch in hand; and a batch not yet
    fetched starts no later than one from what was loaded would.
   */
  ghost predicate Reaches(cfg: Config, st: State, loaded: nat) {
    && Checkpoint(st) <= BatchNext(cfg, st.log, loaded)
    && (InHand(st.pc) ==> st.pc.next <= BatchNext(cfg, st.log, loaded))
    && (st.pc.Resolved? ==> BatchFirst(st.log, st.pc.from) <= BatchFirst(st.log, loaded))
  }

  /** What keeps the checkpoint from going back, wherever the cursor points. */
  ghost predicate Ahead(cfg: Config, st: State) {
    && st.log.start <= st.log.high
    && Checkpoint(st) <= st.log.high
    && (!st.pc.Idle? ==> st.cursor.Some?)
    && (st.cursor.Some? ==> Checkpoint(st) <= BatchNext(cfg, st.log, st.cursor.value))
    && (st.pc.Resolved? ==>
         && Checkpoint(st) <= BatchNext(cfg, st.log, st.pc.from)
         && BatchFirst(st.log, st.pc.from) <= BatchFirst(st.log, st.cursor.value))
    && (InHand(st.pc) ==>
         && Checkpoint(st) <= st.pc.next <= st.log.high
         && st.pc.next <= BatchNext(cfg, st.log, st.cursor.value))
  }

  lemma NextAhead(cfg: Config, st: State, a: Action)
    requires cfg.checkpoints.Persistent? && Ahead(cfg, st)
    ensures Ahead(cfg, Next(cfg, st, a)) && Checkpoint(st) <= Checkpoint(Next(cfg, st, a))
  {
    hide Ahead, Next;
    if a.LogMoves? || a.Crash? {
      LogAhead(cfg, st, a);
    } else if a.Save? {
      SaveAhead(cfg, st, a);
    } else if a.Resolve? || a.FetchBatch? {
      BatchAhead(cfg, st, a);
    } else {
      RecordAhead(cfg, st, a);
    }
  }

  lemma LogAhead(cfg: Config, st: State, a: Action)
    requires cfg.checkpoints.Persistent? && Ahead(cfg, st) && (a.LogMoves? || a.Crash?)
    ensures Ahead(cfg, Next(cfg, st, a)) && Checkpoint(st) == Checkpoint(Next(cfg, st, a))
  {
  }

  lemma SaveAhead(cfg: Config, st: State, a: Action)
    requires Ahead(cfg, st) && a.Save?
    ensures Ahead(cfg, Next(cfg, st, a)) && Checkpoint(st) <= Checkpoint(Next(cfg, st, a))
  {
  }

  lemma BatchAhead(cfg: Config, st: State, a: Action)
    requires Ahead(cfg, st) && (a.Resolve? || a.FetchBatch?)
    ensures Ahead(cfg, Next(cfg, st, a)) && Checkpoint(st) == Checkpoint(Next(cfg, st, a))
  {
  }

  lemma RecordAhead(cfg: Config, st: State, a: Action)
    requires Ahead(cfg, st) && (a.Deliver? || a.DeadLetter?)
    ensures Ahead(cfg, Next(cfg, st, a)) && Checkpoint(st) == Checkpoint(Next(cfg, st, a))
  {
    hide BatchNext, BatchFirst;
  }

  lemma {:induction false} RunAhead(cfg: Config, st: State, actions: seq<Action>)
    requires cfg.checkpoints.Persistent? && Ahead(cfg, st)
    ensures Ahead(cfg, Run(cfg, st, actions)) && Checkpoint(st) <= Checkpoint(Run(cfg, st, actions))
    decreases |actions|
  {
    if actions != [] {
      hide Ahead, Next, Checkpoint;
      var init := actions[..|actions| - 1];
      RunAhead(cfg, st, init);
      NextAhead(cfg, Run(cfg, st, init), actions[|actions| - 1]);
    }
  }

  lemma AheadIsForward(cfg: Config, st: State)
    requires cfg.checkpoints.Persistent? && Ahead(cfg, st)
    ensures Forward(cfg, st)
  {
    hide Ahead, Run, Checkpoint;
    forall actions, i: nat | i <= |actions|
      ensures Checkpoint(Run(cfg, st, actions[..i])) <= Checkpoint(Run(cfg, st, actions))
    {
      RunAhead(cfg, st, actions[..i]);
      RunConcat(cfg, st, actions[..i], actions[i..]);
      assert actions[..i] + actions[i..] == actions;
      RunAhead(cfg, Run(cfg, st, actions[..i]), actions[i..]);
    }
  }

  lemma LateAhead(cfg: Config, st: State, loaded: nat)
    requires Inv(cfg, st) && Reaches(cfg, st, loaded)
    ensures Ahead(cfg, LateWrite(st, loaded))
  {
    hide NothingLost, NothingTwice;
  }

  /** If some steps lead to where the next batch ends before the checkpoint, the next round puts it back. */
  lemma FallsBack(cfg: Config, st: State, steps: seq<Action>)
    requires var mid := Run(cfg, st, steps);
             && mid.pc.Idle? && cfg.batchSize > 0
             && BatchNext(cfg, mid.log, From(mid)) < Checkpoint(mid) <= mid.log.high
    ensures !Forward(cfg, st)
  {
    var mid := Run(cfg, st, steps);
    var first, next := BatchFirst(mid.log, From(mid)), BatchNext(cfg, mid.log, From(mid));
    hide Run, BatchFirst, BatchNext, From, UntilSaved;
    assert first < next by {
      ShortBatch(cfg, mid.log, From(mid), Checkpoint(mid));
    }
    var round := UntilSaved(cfg, next - first);
    RoundSaves(cfg, mid);
    RunConcat(cfg, st, steps, round);
    assert (steps + round)[..|steps|] == steps;
  }

  /** A batch that ends below the high-watermark is not empty. */
  lemma ShortBatch(cfg: Config, log: View, from: nat, limit: nat)
    requires cfg.batchSize > 0 && BatchNext(cfg, log, from) < limit <= log.high
    ensures BatchFirst(log, from) < BatchNext(cfg, log, from)
  {
  }

  /** The batch in hand can be saved, though the save reports a failure. */
  lemma FinishesUnknown(cfg: Config, st: State) returns (steps: seq<Action>)
    requires Proper(cfg, st.pc) && InHand(st.pc) && (cfg.guarantee.AtLeastOnce? || st.pc.Fetched?)
    ensures var st' := Run(cfg, st, steps);
            st'.pc.Idle? && st'.saved == Some(st.pc.next) && st'.cursor == st.cursor && st'.log == st.log
  {
    hide Run;
    if st.pc.Fetched? {
      RunNothing(cfg, st);
      steps := [];
    } else {
      HandingRest(cfg, st);
      steps := HandRest(st.pc);
    }
    RunSnoc(cfg, st, steps, Save(DoneButFailed));
    steps := steps + [Save(DoneButFailed)];
  }

  /** A batch fetched from `from` when the log has grown ends past one from an earlier cursor. */
  lemma FetchesFurther(cfg: Config, st: State)
    requires st.pc.Resolved? && st.log.start <= st.log.high && cfg.batchSize > 0
    requires st.cursor.Some? && BatchFirst(st.log, st.cursor.value) < BatchFirst(st.log, st.pc.from)
    ensures var log := View(st.log.start, Max(st.log.high, BatchFirst(st.log, st.pc.from) + cfg.batchSize));
            var st' := Run(cfg, st, [LogMoves(log), FetchBatch(true)]);
            && st'.log == log && st'.cursor == st.cursor
            && Proper(cfg, st'.pc) && InHand(st'.pc) && (cfg.guarantee.AtLeastOnce? || st'.pc.Fetched?)
            && BatchNext(cfg, log, st.cursor.value) < st'.pc.next <= log.high
  {
    hide Run;
    var log := View(st.log.start, Max(st.log.high, BatchFirst(st.log, st.pc.from) + cfg.batchSize));
    TwoSteps(cfg, st, LogMoves(log), FetchBatch(true));
  }

  lemma GoesBack(cfg: Config, st: State, loaded: nat)
    requires cfg.checkpoints.Persistent? && cfg.batchSize > 0 && Inv(cfg, st) && !Reaches(cfg, st, loaded)
    ensures !Forward(cfg, LateWrite(st, loaded))
  {
    hide Run, BatchNext, BatchFirst, NothingLost, Next, AllBelow, Increasing, Forward, GiveUp;
    var late := LateWrite(st, loaded);
    InvIsProper(cfg, st);
    if BatchNext(cfg, st.log, loaded) < Checkpoint(st) {
      GivingUp(cfg, late);
      FallsBack(cfg, late, GiveUp(st.pc));
    } else if InHand(st.pc) {
      var steps := FinishesUnknown(cfg, late);
      FallsBack(cfg, late, steps);
    } else {
      FetchesFurther(cfg, late);
      var log := View(st.log.start, Max(st.log.high, BatchFirst(st.log, st.pc.from) + cfg.batchSize));
      var fetching := [LogMoves(log), FetchBatch(true)];
      var steps := FinishesUnknown(cfg, Run(cfg, late, fetching));
      RunConcat(cfg, late, fetching, steps);
      FallsBack(cfg, late, fetching + steps);
    }
  }

  /**
    After a late write, wherever `run_once` is, a durable checkpoint never goes back, whatever happens next,
    exactly when one batch from what was loaded reaches as far as the round in progress.
   */
  lemma LateWriteKeepsCheckpointIff(cfg: Config, st: State, loaded: nat)
    requires cfg.checkpoints.Persistent? && cfg.batchSize > 0 && Inv(cfg, st)
    ensures Forward(cfg, LateWrite(st, loaded)) <==> Reaches(cfg, st, loaded)
  {
    hide Forward, Reaches, Inv;
    if Reaches(cfg, st, loaded) {
      LateAhead(cfg, st, loaded);
      AheadIsForward(cfg, LateWrite(st, loaded));
    } else {
      GoesBack(cfg, st, loaded);
    }
  }

  // ---- At most once ----------------------------------------------------------------------------

  /** From here on no record is handed over twice, whatever happens. */
  ghost predicate NeverTwice(cfg: Config, st: State) {
    forall actions :: Increasing(Run(cfg, st, actions).handed)
  }

  /** Nothing from what was loaded on has been handed over, nor will be by the round in progress. */
  ghost predicate Clear(st: State, loaded: nat) {
    var first := BatchFirst(st.log, loaded);
    AllBelow(st.handed, first) && (st.pc.Delivering? || st.pc.Failing? ==> st.pc.next <= first)
  }

  /** What keeps handed offsets increasing, wherever the cursor points: no batch starts at or below them. */
  ghost predicate Behind(st: State) {
    && Increasing(st.handed)
    && AllBelow(st.handed, BatchFirst(st.log, Checkpoint(st)))
    && (st.cursor.Some? ==> AllBelow(st.handed, BatchFirst(st.log, st.cursor.value)))
    && (st.pc.Resolved? ==> AllBelow(st.handed, BatchFirst(st.log, st.pc.from)))
    && (st.pc.Fetched? ==> st.pc.first < st.pc.next && AllBelow(st.handed, st.pc.first))
    && (st.pc.Delivering? || st.pc.Failing? ==>
         && st.pc.at < st.pc.next <= BatchFirst(st.log, Checkpoint(st))
         && (st.cursor.Some? ==> st.pc.next <= BatchFirst(st.log, st.cursor.value))
         && AllBelow(st.handed, if st.pc.Failing? then st.pc.at + 1 else st.pc.at))
  }

  lemma NextBehind(cfg: Config, st: State, a: Action)
    requires cfg.guarantee.AtMostOnce? && Behind(st) && (cfg.checkpoints.Persistent? || !a.Crash?)
    ensures Behind(Next(cfg, st, a))
  {
    hide Behind, Next;
    if a.Deliver? || a.DeadLetter? {
      RecordBehind(cfg, st, a);
    } else if a.LogMoves? || a.Crash? {
      LogBehind(cfg, st, a);
    } else {
      RoundBehind(cfg, st, a);
    }
  }

  lemma RecordBehind(cfg: Config, st: State, a: Action)
    requires cfg.guarantee.AtMostOnce? && Behind(st) && (a.Deliver? || a.DeadLetter?)
    ensures Behind(Next(cfg, st, a))
  {
    hide Increasing, BatchNext;
    if a.Deliver? && Enabled(cfg, st, a) {
      IncreasingSnoc(st.handed, st.pc.at);
    }
  }

  lemma LogBehind(cfg: Config, st: State, a: Action)
    requires Behind(st) && (a.LogMoves? || (a.Crash? && cfg.checkpoints.Persistent?))
    ensures Behind(Next(cfg, st, a))
  {
    hide Increasing, BatchNext;
  }

  lemma RoundBehind(cfg: Config, st: State, a: Action)
    requires cfg.guarantee.AtMostOnce? && Behind(st) && (a.Resolve? || a.FetchBatch? || a.Save?)
    ensures Behind(Next(cfg, st, a))
  {
    hide Increasing, BatchNext;
  }

  lemma {:induction false} RunBehind(cfg: Config, st: State, actions: seq<Action>)
    requires cfg.guarantee.AtMostOnce? && Behind(st)
    requires cfg.checkpoints.Persistent? || forall a :: a in actions ==> !a.Crash?
    ensures Behind(Run(cfg, st, actions))
    decreases |actions|
  {
    if actions != [] {
      hide Behind, Next;
      var init := actions[..|actions| - 1];
      RunBehind(cfg, st, init);
      NextBehind(cfg, Run(cfg, st, init), actions[|actions| - 1]);
    }
  }

  lemma LateBehind(cfg: Config, st: State, loaded: nat)
    requires cfg.guarantee.AtMostOnce? && cfg.checkpoints.Persistent? && Inv(cfg, st) && Clear(st, loaded)
    ensures Behind(LateWrite(st, loaded))
  {
    hide Increasing;
  }

  /** If some steps lead to where the next batch starts at or before what was handed over, it is handed again. */
  lemma HandsAgain(cfg: Config, st: State, steps: seq<Action>, x: nat)
    requires cfg.guarantee.AtMostOnce? && cfg.batchSize > 0
    requires var mid := Run(cfg, st, steps);
             && mid.pc.Idle? && mid.cursor.Some?
             && x in mid.handed && BatchFirst(mid.log, mid.cursor.value) <= x < mid.log.high
    ensures !NeverTwice(cfg, st)
  {
    hide Run, Increasing;
    var mid := Run(cfg, st, steps);
    var round := [Resolve(true), FetchBatch(true), Save(Done), Deliver(true)];
    var first := BatchFirst(mid.log, mid.cursor.value);
    FourSteps(cfg, mid, round);
    RunConcat(cfg, st, steps, round);
    NotIncreasing(mid.handed, x, first);
    assert Run(cfg, st, steps + round).handed == mid.handed + [first];
  }

  lemma NotIncreasing(xs: seq<nat>, x: nat, y: nat)
    requires x in xs && y <= x
    ensures !Increasing(xs + [y])
  {
    var i :| 0 <= i < |xs| && xs[i] == x;
    assert (xs + [y])[i] == x && (xs + [y])[|xs|] == y;
  }

  lemma Repeats(cfg: Config, st: State, loaded: nat)
    requires cfg.guarantee.AtMostOnce? && cfg.checkpoints.Persistent? && cfg.batchSize > 0
    requires Inv(cfg, st) && Inside(st) && !Clear(st, loaded)
    ensures !NeverTwice(cfg, LateWrite(st, loaded))
  {
    hide Run, BatchNext, BatchFirst, NothingLost, NothingTwice, Next, Increasing, NeverTwice, GiveUp, HandRest;
    var late := LateWrite(st, loaded);
    var first := BatchFirst(st.log, loaded);
    InvIsProper(cfg, st);
    if !AllBelow(st.handed, first) {
      var x :| x in st.handed && x >= first;
      GivingUp(cfg, late);
      HandsAgain(cfg, late, GiveUp(st.pc), x);
    } else {
      HandingRest(cfg, late);
      HandsAgain(cfg, late, HandRest(st.pc), st.pc.next - 1);
    }
  }

  /**
    After a late write, wherever an at-most-once `run_once` is, no record is ever handed over twice exactly when
    everything handed over so far, and the batch being handed over, lies before what was loaded.
   */
  lemma LateWriteOnceIff(cfg: Config, st: State, loaded: nat)
    requires cfg.guarantee.AtMostOnce? && cfg.checkpoints.Persistent? && cfg.batchSize > 0
    requires Inv(cfg, st) && Inside(st)
    ensures NeverTwice(cfg, LateWrite(st, loaded)) <==> Clear(st, loaded)
  {
    hide Inv, Inside, Clear, Run, Increasing;
    if Clear(st, loaded) {
      LateBehind(cfg, st, loaded);
      forall actions
        ensures Increasing(Run(cfg, LateWrite(st, loaded), actions).handed)
      {
        RunBehind(cfg, LateWrite(st, loaded), actions);
      }
    } else {
      Repeats(cfg, st, loaded);
    }
  }

  /** The record at 0 is handed over, the cursor put back, and it is handed over again. */
  lemma LateWriteRepeats()
    ensures var cfg, log := Config(AtMostOnce, 1, Persistent, Persistent), View(0, 1);
            var round := [Resolve(true), FetchBatch(true), Save(Done), Deliver(true)];
            var st := Run(cfg, Fresh(log), round);
            st.pc.Idle? && Run(cfg, LateWrite(st, 0), round).handed == [0, 0]
  {
    var cfg, log := Config(AtMostOnce, 1, Persistent, Persistent), View(0, 1);
    var round := [Resolve(true), FetchBatch(true), Save(Done), Deliver(true)];
    FourSteps(cfg, Fresh(log), round);
    FourSteps(cfg, LateWrite(Run(cfg, Fresh(log), round), 0), round);
  }
}
