/**
  `SinkRuntime::run_once` of `connector.rs`, split at every await point. Between any two steps the log may
  grow or be pruned; at every step a port may fail, and the process may crash.
 */
module SinkMachine {
  import opened Prelude

  datatype Guarantee = AtLeastOnce | AtMostOnce

  /** Whether what a store was given outlives the process. */
  datatype Lifetime = Volatile | Persistent

  datatype Config = Config(guarantee: Guarantee, batchSize: nat, checkpoints: Lifetime, queue: Lifetime)

  /** What a reader can see of a log: its first retained offset and one past its last. */
  datatype View = View(start: nat, high: nat)

  /** Where `run_once` is. A batch is the offsets `first` up to `next`; `at` is the record in hand. */
  datatype Pc =
    | Idle
    | Resolved(from: nat)
    | Fetched(first: nat, next: nat)
    | Delivering(first: nat, next: nat, at: nat)
    | Failing(first: nat, next: nat, at: nat)

  /**
    `saved` is the stored checkpoint, `cursor` its cached copy, `handed` the offsets passed to `deliver_one`,
    `dlq` those now in the dead-letter queue, `lettered` those ever written to it, `skipped` those that were
    already pruned when the batch after them was fetched.
   */
  datatype State = State(
    log: View,
    saved: Option<nat>,
    cursor: Option<nat>,
    pc: Pc,
    handed: seq<nat>,
    delivered: seq<nat>,
    dlq: seq<nat>,
    lettered: seq<nat>,
    skipped: set<nat>,
    processed: nat,
    dead: nat
  )

  /** A failing call to a store may have taken effect or not. */
  datatype Outcome = Done | Failed | DoneButFailed

  datatype Action =
    | LogMoves(log: View)
    | Crash(log: View)
    | Resolve(ok: bool)
    | FetchBatch(ok: bool)
    | Deliver(ok: bool)
    | DeadLetter(outcome: Outcome)
    | Save(outcome: Outcome)

  function Checkpoint(st: State): nat {
    if st.saved.Some? then st.saved.value else 0
  }

  ghost predicate Moves(log: View, log': View) {
    log.start <= log'.start <= log'.high && log.high <= log'.high
  }

  function BatchFirst(log: View, from: nat): nat {
    Max(from, log.start)
  }

  function BatchNext(cfg: Config, log: View, from: nat): nat {
    Max(BatchFirst(log, from), Min(BatchFirst(log, from) + cfg.batchSize, log.high))
  }

  /** The offsets from `a` up to `b`. */
  function Span(a: nat, b: nat): (r: set<nat>)
    ensures forall o :: o in r <==> a <= o < b
  {
    if a >= b then {} else Span(a, b - 1) + {b - 1}
  }

  /** The save an at-most-once runtime makes before delivering, and an at-least-once runtime after. */
  predicate Saving(cfg: Config, pc: Pc) {
    match cfg.guarantee
    case AtMostOnce => pc.Fetched?
    case AtLeastOnce => pc.Delivering? && pc.at == pc.next
  }

  predicate Enabled(cfg: Config, st: State, a: Action) {
    match a
    case LogMoves(log) => st.log.start <= log.start <= log.high && st.log.high <= log.high
    case Crash(log) => st.log.start <= log.start <= log.high && st.log.high <= log.high
    case Resolve(ok) => st.pc.Idle? && (st.cursor.Some? ==> ok)
    case FetchBatch(_) => st.pc.Resolved?
    case Deliver(_) => st.pc.Delivering? && st.pc.at < st.pc.next
    case DeadLetter(_) => st.pc.Failing?
    case Save(_) => Saving(cfg, st.pc)
  }

  /** Where a finished step leads: an at-most-once run has nothing left to save. */
  function Onward(cfg: Config, first: nat, next: nat, at: nat): Pc {
    if cfg.guarantee.AtMostOnce? && at == next then Idle else Delivering(first, next, at)
  }

  function Next(cfg: Config, st: State, a: Action): State {
    if !Enabled(cfg, st, a) then st else
      match a
      case LogMoves(log) => st.(log := log)
      case Crash(log) =>
        st.(log := log, cursor := None, pc := Idle, processed := 0, dead := 0,
            saved := if cfg.checkpoints.Volatile? then None else st.saved,
            dlq := if cfg.queue.Volatile? then [] else st.dlq)
      case Resolve(ok) =>
        if st.cursor.Some? then st.(pc := Resolved(st.cursor.value))
        else if ok then st.(cursor := Some(Checkpoint(st)), pc := Resolved(Checkpoint(st)))
        else st
      case FetchBatch(ok) =>
        var first, next := BatchFirst(st.log, st.pc.from), BatchNext(cfg, st.log, st.pc.from);
        if !ok || first >= next then st.(pc := Idle)
        else
          st.(pc := if cfg.guarantee.AtMostOnce? then Fetched(first, next) else Delivering(first, next, first),
              skipped := st.skipped + Span(st.pc.from, first))
      case Deliver(ok) =>
        var pc := st.pc;
        if ok then
          st.(pc := Onward(cfg, pc.first, pc.next, pc.at + 1), handed := st.handed + [pc.at],
              delivered := st.delivered + [pc.at], processed := st.processed + 1)
        else
          st.(pc := Failing(pc.first, pc.next, pc.at), handed := st.handed + [pc.at])
      case DeadLetter(outcome) =>
        var pc := st.pc;
        var st' := if outcome.Failed? then st else st.(dlq := st.dlq + [pc.at], lettered := st.lettered + [pc.at]);
        if outcome.Done? then st'.(pc := Onward(cfg, pc.first, pc.next, pc.at + 1), dead := st.dead + 1)
        else st'.(pc := Idle)
      case Save(outcome) =>
        var pc := st.pc;
        var saved := if outcome.Failed? then st.saved else Some(pc.next);
        if !outcome.Done? then st.(pc := Idle, saved := saved)
        else if pc.Fetched? then st.(pc := Delivering(pc.first, pc.next, pc.first), saved := saved, cursor := Some(pc.next))
        else st.(pc := Idle, saved := saved, cursor := Some(pc.next))
  }

  function Fresh(log: View): State {
    State(log, None, None, Idle, [], [], [], [], {}, 0, 0)
  }

  function Run(cfg: Config, st: State, actions: seq<Action>): State {
    if actions == [] then st else
      Next(cfg, Run(cfg, st, actions[..|actions| - 1]), actions[|actions| - 1])
  }

  lemma {:induction false} RunConcat(cfg: Config, st: State, a: seq<Action>, b: seq<Action>)
    ensures Run(cfg, st, a + b) == Run(cfg, Run(cfg, st, a), b)
  {
    if b == [] {
      assert a + b == a;
    } else {
      RunConcat(cfg, st, a, b[..|b| - 1]);
      assert (a + b)[..|a + b| - 1] == a + b[..|b| - 1];
    }
  }

  lemma RunNothing(cfg: Config, st: State)
    ensures Run(cfg, st, []) == st
  {
  }

  lemma RunSnoc(cfg: Config, st: State, actions: seq<Action>, a: Action)
    ensures Run(cfg, st, actions + [a]) == Next(cfg, Run(cfg, st, actions), a)
  {
    assert (actions + [a])[..|actions|] == actions;
  }

  /** The log only moves on. */
  lemma {:induction false} RunMoves(cfg: Config, st: State, actions: seq<Action>)
    requires st.log.start <= st.log.high
    ensures Moves(st.log, Run(cfg, st, actions).log)
  {
    if actions != [] {
      RunMoves(cfg, st, actions[..|actions| - 1]);
    }
  }

  // ---- What every step keeps ------------------------------------------------------------------

  /** A crash empties the queue but leaves the checkpoint past what was in it. */
  predicate Forgetful(cfg: Config) {
    cfg.queue.Volatile? && cfg.checkpoints.Persistent?
  }

  /** The dead letters to count on. */
  function Letters(cfg: Config, st: State): seq<nat> {
    if Forgetful(cfg) then st.lettered else st.dlq
  }

  ghost predicate Handled(cfg: Config, st: State, o: nat) {
    o in st.delivered || o in Letters(cfg, st) || o in st.skipped
  }

  ghost predicate HandledBelow(cfg: Config, st: State, limit: nat) {
    forall o: nat :: o < limit ==> Handled(cfg, st, o)
  }

  ghost predicate AllBelow(xs: seq<nat>, limit: nat) {
    forall x :: x in xs ==> x < limit
  }

  /** Positions: no checkpoint passes the log, the cursor or the batch in hand. */
  ghost predicate Positions(cfg: Config, st: State) {
    && st.log.start <= st.log.high
    && Checkpoint(st) <= st.log.high
    && (st.cursor.Some? ==>
         && st.cursor.value <= Checkpoint(st)
         && (Checkpoint(st) == st.cursor.value || Checkpoint(st) <= BatchNext(cfg, st.log, st.cursor.value)))
    && (!st.pc.Idle? ==> st.cursor.Some?)
    && (st.pc.Resolved? ==> st.cursor == Some(st.pc.from))
    && (forall o :: o in st.skipped ==> o < st.log.start)
    && (forall o :: o in st.dlq ==> o in st.lettered)
    && (st.pc.Fetched? || st.pc.Delivering? || st.pc.Failing? ==>
         && st.pc.first < st.pc.next <= st.log.high
         && Checkpoint(st) <= st.pc.next
         && (st.pc.next == st.cursor.value || st.pc.next <= BatchNext(cfg, st.log, st.cursor.value)))
    && (st.pc.Delivering? ==> st.pc.first <= st.pc.at <= st.pc.next)
    && (st.pc.Failing? ==> st.pc.first <= st.pc.at < st.pc.next)
  }

  /** At least once: nothing below a checkpoint, or behind the record in hand, is unaccounted for. */
  ghost predicate NothingLost(cfg: Config, st: State) {
    cfg.guarantee.AtLeastOnce? ==>
      && HandledBelow(cfg, st, Checkpoint(st))
      && !st.pc.Fetched?
      && (st.pc.Delivering? || st.pc.Failing? ==> HandledBelow(cfg, st, st.pc.at))
  }

  /** At most once: what has been handed over lies below where the next batch can start. */
  ghost predicate NothingTwice(cfg: Config, st: State) {
    cfg.guarantee.AtMostOnce? && cfg.checkpoints.Persistent? ==>
      && Increasing(st.handed)
      && AllBelow(st.handed, Checkpoint(st))
      && (st.cursor.Some? ==> AllBelow(st.handed, st.cursor.value))
      && (st.pc.Fetched? ==> AllBelow(st.handed, st.pc.first))
      && (st.pc.Delivering? || st.pc.Failing? ==> st.cursor == st.saved == Some(st.pc.next))
      && (st.pc.Delivering? ==> st.pc.at < st.pc.next && AllBelow(st.handed, st.pc.at))
      && (st.pc.Failing? ==> AllBelow(st.handed, st.pc.at + 1))
  }

  ghost predicate Inv(cfg: Config, st: State) {
    Positions(cfg, st) && NothingLost(cfg, st) && NothingTwice(cfg, st)
  }

  lemma FreshInv(cfg: Config, log: View)
    requires log.start <= log.high
    ensures Inv(cfg, Fresh(log))
  {
  }

  /** The stored checkpoint never passes the log, and a durable one never moves back. */
  lemma NextPositions(cfg: Config, st: State, a: Action)
    requires Positions(cfg, st)
    ensures Positions(cfg, Next(cfg, st, a))
    ensures cfg.checkpoints.Persistent? || !a.Crash? ==> Checkpoint(st) <= Checkpoint(Next(cfg, st, a))
  {
    hide Positions, Next;
    match a
    case LogMoves(_) => LogPositions(cfg, st, a);
    case Crash(_) => LogPositions(cfg, st, a);
    case Resolve(_) => BatchPositions(cfg, st, a);
    case FetchBatch(_) => BatchPositions(cfg, st, a);
    case Deliver(_) => RecordPositions(cfg, st, a);
    case DeadLetter(_) => RecordPositions(cfg, st, a);
    case Save(_) => SavePositions(cfg, st, a);
  }

  lemma LogPositions(cfg: Config, st: State, a: Action)
    requires Positions(cfg, st) && (a.LogMoves? || a.Crash?)
    ensures Positions(cfg, Next(cfg, st, a))
    ensures cfg.checkpoints.Persistent? || !a.Crash? ==> Checkpoint(st) == Checkpoint(Next(cfg, st, a))
  {
  }

  lemma BatchPositions(cfg: Config, st: State, a: Action)
    requires Positions(cfg, st) && (a.Resolve? || a.FetchBatch?)
    ensures Positions(cfg, Next(cfg, st, a)) && Checkpoint(st) == Checkpoint(Next(cfg, st, a))
  {
  }

  lemma RecordPositions(cfg: Config, st: State, a: Action)
    requires Positions(cfg, st) && (a.Deliver? || a.DeadLetter?)
    ensures Positions(cfg, Next(cfg, st, a)) && Checkpoint(st) == Checkpoint(Next(cfg, st, a))
  {
  }

  lemma SavePositions(cfg: Config, st: State, a: Action)
    requires Positions(cfg, st) && a.Save?
    ensures Positions(cfg, Next(cfg, st, a)) && Checkpoint(st) <= Checkpoint(Next(cfg, st, a))
  {
  }

  /** A step adds what it passes over, delivers or dead-letters; only a crash that resets the checkpoint forgets. */
  lemma HandledStep(cfg: Config, st: State, a: Action)
    ensures var st' := Next(cfg, st, a);
            && (forall o: nat :: Handled(cfg, st, o) ==> Handled(cfg, st', o) || (a.Crash? && Checkpoint(st') == 0))
            && (a.FetchBatch? && Enabled(cfg, st, a) && !st'.pc.Idle? ==>
                  forall o :: st.pc.from <= o < BatchFirst(st.log, st.pc.from) ==> Handled(cfg, st', o))
            && (a.Deliver? && Enabled(cfg, st, a) && a.ok ==> Handled(cfg, st', st.pc.at))
            && (a.DeadLetter? && Enabled(cfg, st, a) && a.outcome.Done? ==> Handled(cfg, st', st.pc.at))
  {
    var st' := Next(cfg, st, a);
    if a.Deliver? && Enabled(cfg, st, a) && a.ok {
      assert st'.delivered[|st.delivered|] == st.pc.at;
    }
    if a.DeadLetter? && Enabled(cfg, st, a) && a.outcome.Done? {
      assert Letters(cfg, st')[|Letters(cfg, st)|] == st.pc.at;
    }
  }

  lemma NextNothingLost(cfg: Config, st: State, a: Action)
    requires Inv(cfg, st)
    ensures NothingLost(cfg, Next(cfg, st, a))
  {
    hide NothingTwice, Increasing, Handled;
    HandledStep(cfg, st, a);
  }

  lemma IncreasingSnoc(xs: seq<nat>, x: nat)
    requires Increasing(xs) && AllBelow(xs, x)
    ensures Increasing(xs + [x]) && AllBelow(xs + [x], x + 1)
  {
    assert forall i :: 0 <= i < |xs| ==> xs[i] in xs;
  }

  lemma NextNothingTwice(cfg: Config, st: State, a: Action)
    requires Inv(cfg, st)
    ensures NothingTwice(cfg, Next(cfg, st, a))
  {
    hide NothingLost, Increasing;
    if cfg.guarantee.AtMostOnce? && cfg.checkpoints.Persistent? && a.Deliver? && Enabled(cfg, st, a) {
      IncreasingSnoc(st.handed, st.pc.at);
    }
  }

  /** Over every run from a fresh runtime, the invariant holds and a durable checkpoint only moves on. */
  lemma {:induction false} RunInv(cfg: Config, st: State, actions: seq<Action>)
    requires Inv(cfg, st)
    ensures Inv(cfg, Run(cfg, st, actions))
    ensures cfg.checkpoints.Persistent? ==> Checkpoint(st) <= Checkpoint(Run(cfg, st, actions))
    decreases |actions|
  {
    if actions != [] {
      hide Inv, Next;
      var init := actions[..|actions| - 1];
      RunInv(cfg, st, init);
      StepInv(cfg, Run(cfg, st, init), actions[|actions| - 1]);
    }
  }

  lemma StepInv(cfg: Config, st: State, a: Action)
    requires Inv(cfg, st)
    ensures Inv(cfg, Next(cfg, st, a))
    ensures cfg.checkpoints.Persistent? || !a.Crash? ==> Checkpoint(st) <= Checkpoint(Next(cfg, st, a))
  {
    hide Positions, NothingLost, NothingTwice, Next;
    NextPositions(cfg, st, a);
    NextNothingLost(cfg, st, a);
    NextNothingTwice(cfg, st, a);
  }

  /**
    At least once, over whole runs: every offset below the checkpoint was delivered, was written to the
    dead-letter queue, or had been pruned when the batch after it was fetched. The letter is still in the queue
    unless a crash can empty the queue and keep the checkpoint.
   */
  lemma AtLeastOnceRuns(cfg: Config, log: View, actions: seq<Action>, o: nat)
    requires cfg.guarantee.AtLeastOnce? && log.start <= log.high
    requires o < Checkpoint(Run(cfg, Fresh(log), actions))
    ensures var st := Run(cfg, Fresh(log), actions);
            && (o in st.delivered || o in st.lettered || (o in st.skipped && o < st.log.start))
            && (!Forgetful(cfg) ==> o in st.delivered || o in st.dlq || (o in st.skipped && o < st.log.start))
  {
    hide Run;
    FreshInv(cfg, log);
    RunInv(cfg, Fresh(log), actions);
    var st := Run(cfg, Fresh(log), actions);
    assert Handled(cfg, st, o);
  }

  /**
    At most once with a durable checkpoint, over whole runs: the offsets handed to `deliver_one` strictly
    increase, so none comes twice.
   */
  lemma AtMostOnceRuns(cfg: Config, log: View, actions: seq<Action>, i: nat, j: nat)
    requires cfg.guarantee.AtMostOnce? && cfg.checkpoints.Persistent? && log.start <= log.high
    requires i < j < |Run(cfg, Fresh(log), actions).handed|
    ensures var handed := Run(cfg, Fresh(log), actions).handed; handed[i] < handed[j]
  {
    hide Run;
    FreshInv(cfg, log);
    RunInv(cfg, Fresh(log), actions);
  }

  /**
    Checkpoints over whole runs: cursor <= saved <= high-watermark, and a durable checkpoint does not move back
    from any point to any later one.
   */
  lemma CheckpointRuns(cfg: Config, log: View, actions: seq<Action>, i: nat)
    requires log.start <= log.high && i <= |actions|
    ensures var mid, end := Run(cfg, Fresh(log), actions[..i]), Run(cfg, Fresh(log), actions);
            && Checkpoint(end) <= end.log.high
            && (cfg.checkpoints.Persistent? ==> Checkpoint(mid) <= Checkpoint(end))
            && (end.cursor.Some? ==> end.cursor.value <= Checkpoint(end))
  {
    hide Run;
    FreshInv(cfg, log);
    RunInv(cfg, Fresh(log), actions[..i]);
    RunConcat(cfg, Fresh(log), actions[..i], actions[i..]);
    assert actions[..i] + actions[i..] == actions;
    RunInv(cfg, Run(cfg, Fresh(log), actions[..i]), actions[i..]);
  }
}
