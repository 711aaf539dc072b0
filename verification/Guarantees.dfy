/**
  What the delivery guarantees leave open: exactly which records an at-least-once run loses, and
  runs that repeat or drop a record.
 */
module Guarantees {
  import opened Prelude
  import opened SinkMachine

  /** Delivered, or written to the dead-letter queue at some time. */
  ghost predicate Received(st: State, o: nat) {
    o in st.delivered || o in st.lettered
  }

  /** The action is a fetch that finds `o` pruned and passes over it, though nobody has received it. */
  ghost predicate PassesOver(cfg: Config, st: State, a: Action, o: nat) {
    && a == FetchBatch(true)
    && st.pc.Resolved?
    && st.pc.from <= o < st.log.start
    && BatchFirst(st.log, st.pc.from) < BatchNext(cfg, st.log, st.pc.from)
    && !Received(st, o)
  }

  /** Action `i` of the run passes over `o`. */
  ghost predicate PassedOverAt(cfg: Config, log: View, actions: seq<Action>, i: nat, o: nat)
    requires i < |actions|
  {
    PassesOver(cfg, Run(cfg, Fresh(log), actions[..i]), actions[i], o)
  }

  /** Pruned, and not part of a batch in hand: out of the runtime's reach. */
  ghost predicate Gone(st: State, o: nat) {
    o < st.log.start && (st.pc.Fetched? || st.pc.Delivering? || st.pc.Failing? ==> o < st.pc.first)
  }

  lemma GoneStays(cfg: Config, st: State, a: Action, o: nat)
    requires Inv(cfg, st) && Gone(st, o)
    ensures Gone(Next(cfg, st, a), o)
    ensures Received(Next(cfg, st, a), o) == Received(st, o)
  {
    hide NothingLost, NothingTwice, HandledBelow, AllBelow;
  }

  lemma {:induction false} GoneForever(cfg: Config, st: State, actions: seq<Action>, o: nat)
    requires Inv(cfg, st) && Gone(st, o)
    ensures Gone(Run(cfg, st, actions), o)
    ensures Received(Run(cfg, st, actions), o) == Received(st, o)
  {
    if actions != [] {
      hide Inv, Gone, Received, Next;
      var init := actions[..|actions| - 1];
      GoneForever(cfg, st, init, o);
      RunInv(cfg, st, init);
      GoneStays(cfg, Run(cfg, st, init), actions[|actions| - 1], o);
    }
  }

  lemma ReceivedStays(cfg: Config, st: State, a: Action, o: nat)
    ensures Received(st, o) ==> Received(Next(cfg, st, a), o)
    ensures o in Next(cfg, st, a).skipped && o !in st.skipped && !Received(st, o) ==> PassesOver(cfg, st, a, o)
  {
  }

  /** An offset that was skipped and reached nobody was passed over by some fetch. */
  lemma {:induction false} SkippedWasPassedOver(cfg: Config, log: View, actions: seq<Action>, o: nat) returns (i: nat)
    requires var st := Run(cfg, Fresh(log), actions); o in st.skipped && !Received(st, o)
    ensures i < |actions| && PassedOverAt(cfg, log, actions, i, o)
    decreases |actions|
  {
    hide Received, Next, PassesOver;
    var n := |actions| - 1;
    var st := Run(cfg, Fresh(log), actions[..n]);
    ReceivedStays(cfg, st, actions[n], o);
    if o in st.skipped {
      i := SkippedWasPassedOver(cfg, log, actions[..n], o);
      assert actions[..n][..i] == actions[..i];
    } else {
      i := n;
    }
  }

  lemma PassedOverIsLost(cfg: Config, log: View, actions: seq<Action>, i: nat, o: nat)
    requires log.start <= log.high && i < |actions| && PassedOverAt(cfg, log, actions, i, o)
    ensures !Received(Run(cfg, Fresh(log), actions), o)
  {
    hide Run, Next, Inv;
    var st := Run(cfg, Fresh(log), actions[..i]);
    FreshInv(cfg, log);
    RunInv(cfg, Fresh(log), actions[..i]);
    RunConcat(cfg, Fresh(log), actions[..i], actions[i..]);
    assert actions[..i] + actions[i..] == actions;
    GoneForever(cfg, st, actions[i..], o);
  }

  /** An offset below an at-least-once checkpoint reached nobody exactly when some fetch passed over it. */
  lemma MissedIffPassedOver(cfg: Config, log: View, actions: seq<Action>, o: nat)
    requires cfg.guarantee.AtLeastOnce? && log.start <= log.high
    requires o < Checkpoint(Run(cfg, Fresh(log), actions))
    ensures !Received(Run(cfg, Fresh(log), actions), o) <==>
              exists i :: 0 <= i < |actions| && PassedOverAt(cfg, log, actions, i, o)
  {
    hide Run, PassedOverAt;
    AtLeastOnceRuns(cfg, log, actions, o);
    if !Received(Run(cfg, Fresh(log), actions), o) {
      var i := SkippedWasPassedOver(cfg, log, actions, o);
    } else if i :| 0 <= i < |actions| && PassedOverAt(cfg, log, actions, i, o) {
      PassedOverIsLost(cfg, log, actions, i, o);
    }
  }

  // ---- What the dead-letter queue still holds -------------------------------------------------

  /** The action writes `o` to the queue, whatever the caller is told. */
  predicate Writes(st: State, a: Action, o: nat) {
    a.DeadLetter? && !a.outcome.Failed? && st.pc.Failing? && st.pc.at == o
  }

  /** The action is a crash that the queue does not survive. */
  predicate Empties(cfg: Config, st: State, a: Action) {
    a.Crash? && Enabled(cfg, st, a) && cfg.queue.Volatile?
  }

  ghost predicate WrittenAt(cfg: Config, log: View, actions: seq<Action>, i: nat, o: nat)
    requires i < |actions|
  {
    Writes(Run(cfg, Fresh(log), actions[..i]), actions[i], o)
  }

  ghost predicate EmptiedAt(cfg: Config, log: View, actions: seq<Action>, i: nat)
    requires i < |actions|
  {
    Empties(cfg, Run(cfg, Fresh(log), actions[..i]), actions[i])
  }

  /** No crash after action `i` empties the queue. */
  ghost predicate Lasts(cfg: Config, log: View, actions: seq<Action>, i: nat) {
    forall j :: i < j < |actions| ==> !EmptiedAt(cfg, log, actions, j)
  }

  lemma QueueStep(cfg: Config, st: State, a: Action, o: nat)
    ensures o in Next(cfg, st, a).lettered <==> o in st.lettered || Writes(st, a, o)
    ensures o in Next(cfg, st, a).dlq <==> (o in st.dlq && !Empties(cfg, st, a)) || Writes(st, a, o)
  {
  }

  /** What one run says of action `i`, a longer one says too. */
  lemma PrefixSame(cfg: Config, log: View, actions: seq<Action>, n: nat, i: nat, o: nat)
    requires i < n <= |actions|
    ensures WrittenAt(cfg, log, actions[..n], i, o) == WrittenAt(cfg, log, actions, i, o)
    ensures EmptiedAt(cfg, log, actions[..n], i) == EmptiedAt(cfg, log, actions, i)
  {
    hide Run, Writes, Empties;
    assert actions[..n][..i] == actions[..i];
  }

  lemma LastsOneMore(cfg: Config, log: View, actions: seq<Action>, i: nat)
    requires i + 1 < |actions|
    ensures var n := |actions| - 1;
            Lasts(cfg, log, actions, i) <==> Lasts(cfg, log, actions[..n], i) && !EmptiedAt(cfg, log, actions, n)
  {
    hide EmptiedAt;
    var n := |actions| - 1;
    forall j: nat | j < n
      ensures EmptiedAt(cfg, log, actions[..n], j) == EmptiedAt(cfg, log, actions, j)
    {
      PrefixSame(cfg, log, actions, n, j, 0);
    }
  }

  /** What was ever in the queue was written to it by some action of the run. */
  lemma {:induction false} WasWrittenIff(cfg: Config, log: View, actions: seq<Action>, o: nat)
    ensures o in Run(cfg, Fresh(log), actions).lettered <==>
              exists i :: 0 <= i < |actions| && WrittenAt(cfg, log, actions, i, o)
  {
    if actions != [] {
      hide Next, Writes, Empties;
      var n := |actions| - 1;
      WasWrittenIff(cfg, log, actions[..n], o);
      QueueStep(cfg, Run(cfg, Fresh(log), actions[..n]), actions[n], o);
      forall i: nat | i < n
        ensures WrittenAt(cfg, log, actions[..n], i, o) == WrittenAt(cfg, log, actions, i, o)
      {
        PrefixSame(cfg, log, actions, n, i, o);
      }
      assert WrittenAt(cfg, log, actions, n, o) <==> Writes(Run(cfg, Fresh(log), actions[..n]), actions[n], o);
    }
  }

  /** What is in the queue was written to it, and no crash has emptied it since. */
  lemma {:induction false} InQueueIff(cfg: Config, log: View, actions: seq<Action>, o: nat)
    ensures o in Run(cfg, Fresh(log), actions).dlq <==>
              exists i :: 0 <= i < |actions| && WrittenAt(cfg, log, actions, i, o) && Lasts(cfg, log, actions, i)
  {
    if actions != [] {
      hide Next, Writes, Empties, Lasts;
      var n := |actions| - 1;
      InQueueIff(cfg, log, actions[..n], o);
      QueueStep(cfg, Run(cfg, Fresh(log), actions[..n]), actions[n], o);
      forall i: nat | i < n
        ensures WrittenAt(cfg, log, actions[..n], i, o) == WrittenAt(cfg, log, actions, i, o)
        ensures Lasts(cfg, log, actions, i) <==> Lasts(cfg, log, actions[..n], i) && !EmptiedAt(cfg, log, actions, n)
      {
        PrefixSame(cfg, log, actions, n, i, o);
        LastsOneMore(cfg, log, actions, i);
      }
      LastsAtEnd(cfg, log, actions);
      assert WrittenAt(cfg, log, actions, n, o) <==> Writes(Run(cfg, Fresh(log), actions[..n]), actions[n], o);
    }
  }

  lemma LastsAtEnd(cfg: Config, log: View, actions: seq<Action>)
    requires actions != []
    ensures Lasts(cfg, log, actions, |actions| - 1)
  {
  }

  /** Nobody has the record: it was not delivered and no dead letter for it is left. */
  ghost predicate Lost(st: State, o: nat) {
    o !in st.delivered && o !in st.dlq
  }

  /** Nothing is in the queue that was not written to it; a persistent queue holds all of it. */
  lemma QueueWasWritten(cfg: Config, log: View, actions: seq<Action>, o: nat)
    ensures var st := Run(cfg, Fresh(log), actions);
            (o in st.dlq ==> o in st.lettered) && (cfg.queue.Persistent? ==> (o in st.dlq <==> o in st.lettered))
  {
    hide Run, Writes;
    InQueueIff(cfg, log, actions, o);
    WasWrittenIff(cfg, log, actions, o);
  }

  /** The record was dead-lettered, and every time a crash has emptied the queue since. */
  ghost predicate LetterLost(cfg: Config, log: View, actions: seq<Action>, o: nat) {
    && (exists i :: 0 <= i < |actions| && WrittenAt(cfg, log, actions, i, o))
    && (forall i :: 0 <= i < |actions| && WrittenAt(cfg, log, actions, i, o) ==> !Lasts(cfg, log, actions, i))
  }

  /**
    At least once promises that no record is lost. A record below the checkpoint is lost exactly when some
    fetch found it pruned before anyone had received it, or when it was never delivered and all its dead
    letters went with a queue that a crash emptied.
   */
  lemma LostIff(cfg: Config, log: View, actions: seq<Action>, o: nat)
    requires cfg.guarantee.AtLeastOnce? && log.start <= log.high
    requires o < Checkpoint(Run(cfg, Fresh(log), actions))
    ensures var st := Run(cfg, Fresh(log), actions);
            Lost(st, o) <==>
              || (exists i :: 0 <= i < |actions| && PassedOverAt(cfg, log, actions, i, o))
              || (o !in st.delivered && LetterLost(cfg, log, actions, o))
  {
    hide Run, PassedOverAt, WrittenAt, Lasts;
    MissedIffPassedOver(cfg, log, actions, o);
    WasWrittenIff(cfg, log, actions, o);
    InQueueIff(cfg, log, actions, o);
  }

  /** Everything handed over, delivered or dead-lettered is an offset the log has. */
  ghost predicate Inside(st: State) {
    && AllBelow(st.handed, st.log.high)
    && AllBelow(st.delivered, st.log.high)
    && AllBelow(st.dlq, st.log.high)
    && AllBelow(st.lettered, st.log.high)
    && (st.pc.Failing? ==> st.pc.at in st.handed)
  }

  lemma StepInside(cfg: Config, st: State, a: Action)
    requires Inv(cfg, st) && Inside(st)
    ensures Inside(Next(cfg, st, a))
  {
    hide NothingLost, NothingTwice;
  }

  lemma {:induction false} RunInside(cfg: Config, log: View, actions: seq<Action>)
    requires log.start <= log.high
    ensures Inside(Run(cfg, Fresh(log), actions))
    decreases |actions|
  {
    if actions != [] {
      hide Inv, Inside, Next;
      var init := actions[..|actions| - 1];
      RunInside(cfg, log, init);
      FreshInv(cfg, log);
      RunInv(cfg, Fresh(log), init);
      StepInside(cfg, Run(cfg, Fresh(log), init), actions[|actions| - 1]);
    }
  }

  /** Retention can overtake the sink: offset 0 is pruned before the first fetch, and the checkpoint passes it. */
  lemma RetentionLosesRecords()
    ensures var cfg := Config(AtLeastOnce, 1, Persistent, Persistent);
            var actions := [LogMoves(View(0, 1)), LogMoves(View(1, 2)), Resolve(true), FetchBatch(true),
                            Deliver(true), Save(Done)];
            var st := Run(cfg, Fresh(View(0, 0)), actions);
            Checkpoint(st) == 2 && !Received(st, 0)
  {
    var cfg, log := Config(AtLeastOnce, 1, Persistent, Persistent), View(0, 0);
    var actions := [LogMoves(View(0, 1)), LogMoves(View(1, 2)), Resolve(true), FetchBatch(true),
                    Deliver(true), Save(Done)];
    SixSteps(cfg, Fresh(log), actions);
  }

  /** At least once may deliver a record twice: a crash between delivery and the save. */
  lemma AtLeastOnceMayRepeat()
    ensures var cfg, log := Config(AtLeastOnce, 1, Persistent, Persistent), View(0, 1);
            var actions := [Resolve(true), FetchBatch(true), Deliver(true), Crash(log), Resolve(true),
                            FetchBatch(true), Deliver(true)];
            Run(cfg, Fresh(log), actions).delivered == [0, 0]
  {
    var cfg, log := Config(AtLeastOnce, 1, Persistent, Persistent), View(0, 1);
    var actions := [Resolve(true), FetchBatch(true), Deliver(true), Crash(log), Resolve(true),
                    FetchBatch(true), Deliver(true)];
    FirstStep(cfg, Fresh(log), actions);
    SixSteps(cfg, Next(cfg, Fresh(log), Resolve(true)), actions[1..]);
  }

  /** At most once may deliver a record not at all: a crash between the save and delivery. */
  lemma AtMostOnceMayDrop()
    ensures var cfg, log := Config(AtMostOnce, 1, Persistent, Persistent), View(0, 1);
            var actions := [Resolve(true), FetchBatch(true), Save(Done), Crash(log), Resolve(true), FetchBatch(true)];
            var st := Run(cfg, Fresh(log), actions);
            Checkpoint(st) == 1 && st.pc == Idle && !Received(st, 0) && 0 !in st.skipped
  {
    var cfg, log := Config(AtMostOnce, 1, Persistent, Persistent), View(0, 1);
    var actions := [Resolve(true), FetchBatch(true), Save(Done), Crash(log), Resolve(true), FetchBatch(true)];
    SixSteps(cfg, Fresh(log), actions);
  }

  /**
    The shipped queue dies with the process: a record is refused and dead-lettered, the checkpoint is saved, the
    process crashes. The record is below the checkpoint, undelivered, in no queue, and was never pruned.
   */
  lemma VolatileQueueLosesRecords()
    ensures var cfg, log := Config(AtLeastOnce, 1, Persistent, Volatile), View(0, 1);
            var actions := [Resolve(true), FetchBatch(true), Deliver(false), DeadLetter(Done), Save(Done), Crash(log)];
            var st := Run(cfg, Fresh(log), actions);
            Checkpoint(st) == 1 && Lost(st, 0) && st.skipped == {}
  {
    hide Run;
    var cfg, log := Config(AtLeastOnce, 1, Persistent, Volatile), View(0, 1);
    var actions := [Resolve(true), FetchBatch(true), Deliver(false), DeadLetter(Done), Save(Done), Crash(log)];
    SixSteps(cfg, Fresh(log), actions);
  }

  lemma OneStep(cfg: Config, st: State, a: Action)
    ensures Run(cfg, st, [a]) == Next(cfg, st, a)
  {
    RunSnoc(cfg, st, [], a);
    assert [] + [a] == [a];
  }

  lemma FirstStep(cfg: Config, st: State, actions: seq<Action>)
    requires actions != []
    ensures Run(cfg, st, actions) == Run(cfg, Next(cfg, st, actions[0]), actions[1..])
  {
    hide Next;
    RunConcat(cfg, st, [actions[0]], actions[1..]);
    OneStep(cfg, st, actions[0]);
    assert [actions[0]] + actions[1..] == actions;
  }

  lemma SixSteps(cfg: Config, st: State, s: seq<Action>)
    requires |s| == 6
    ensures Run(cfg, st, s)
            == Next(cfg, Next(cfg, Next(cfg, Next(cfg, Next(cfg, Next(cfg, st, s[0]), s[1]), s[2]), s[3]), s[4]), s[5])
  {
    hide Next;
    var st1 := Next(cfg, st, s[0]);
    var st2 := Next(cfg, st1, s[1]);
    var st3 := Next(cfg, st2, s[2]);
    FirstStep(cfg, st, s);
    FirstStep(cfg, st1, s[1..]);
    FirstStep(cfg, st2, s[1..][1..]);
    FirstStep(cfg, st3, s[1..][1..][1..]);
    FirstStep(cfg, Next(cfg, st3, s[3]), s[1..][1..][1..][1..]);
    FirstStep(cfg, Next(cfg, Next(cfg, st3, s[3]), s[4]), s[1..][1..][1..][1..][1..]);
  }

  // ---- Runs that get a batch done ------------------------------------------------------------

  function Deliveries(k: nat): (actions: seq<Action>)
    ensures |actions| == k && forall a :: a in actions ==> a == Deliver(true)
  {
    seq(k, _ => Deliver(true))
  }

  lemma {:induction false} DeliverMany(cfg: Config, st: State, k: nat)
    requires st.pc.Delivering? && st.pc.at + k <= st.pc.next && (cfg.guarantee.AtMostOnce? ==> st.pc.at < st.pc.next)
    ensures var st' := Run(cfg, st, Deliveries(k));
            && st'.pc == Onward(cfg, st.pc.first, st.pc.next, st.pc.at + k)
            && st'.saved == st.saved && st'.cursor == st.cursor && st'.log == st.log
            && (k > 0 ==> st.pc.at + k - 1 in st'.handed)
  {
    if k > 0 {
      DeliverMany(cfg, st, k - 1);
      assert Deliveries(k)[..k - 1] == Deliveries(k - 1);
    }
  }

  /** Where the next round reads from. */
  function From(st: State): nat {
    if st.cursor.Some? then st.cursor.value else Checkpoint(st)
  }

  /** A round of `n` records up to its save. */
  function UntilSaved(cfg: Config, n: nat): seq<Action> {
    [Resolve(true), FetchBatch(true)] + (if cfg.guarantee.AtLeastOnce? then Deliveries(n) else []) + [Save(Done)]
  }

  /** An undisturbed round that reads anything can always move the checkpoint to the end of its batch. */
  lemma RoundSaves(cfg: Config, st: State)
    requires st.pc.Idle? && BatchFirst(st.log, From(st)) < BatchNext(cfg, st.log, From(st))
    ensures var first, next := BatchFirst(st.log, From(st)), BatchNext(cfg, st.log, From(st));
            Run(cfg, st, UntilSaved(cfg, next - first)).saved == Some(next)
  {
    hide Run, BatchFirst, BatchNext;
    var first, next := BatchFirst(st.log, From(st)), BatchNext(cfg, st.log, From(st));
    var fetching := [Resolve(true), FetchBatch(true)];
    var takes := if cfg.guarantee.AtLeastOnce? then Deliveries(next - first) else [];
    var read := Next(cfg, Next(cfg, st, Resolve(true)), FetchBatch(true));
    TwoSteps(cfg, st, Resolve(true), FetchBatch(true));
    RunConcat(cfg, st, fetching, takes);
    if cfg.guarantee.AtLeastOnce? {
      DeliverMany(cfg, read, next - first);
    } else {
      assert fetching + [] == fetching;
    }
    RunSnoc(cfg, st, fetching + takes, Save(Done));
  }

  lemma TwoSteps(cfg: Config, st: State, a: Action, b: Action)
    ensures Run(cfg, st, [a, b]) == Next(cfg, Next(cfg, st, a), b)
  {
    hide Next;
    FirstStep(cfg, st, [a, b]);
    FirstStep(cfg, Next(cfg, st, a), [a, b][1..]);
  }

  lemma FourSteps(cfg: Config, st: State, s: seq<Action>)
    requires |s| == 4
    ensures Run(cfg, st, s) == Next(cfg, Next(cfg, Next(cfg, Next(cfg, st, s[0]), s[1]), s[2]), s[3])
  {
    hide Next;
    TwoSteps(cfg, st, s[0], s[1]);
    TwoSteps(cfg, Run(cfg, st, [s[0], s[1]]), s[2], s[3]);
    RunConcat(cfg, st, [s[0], s[1]], [s[2], s[3]]);
    assert [s[0], s[1]] + [s[2], s[3]] == s;
  }
}
