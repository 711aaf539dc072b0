/**
  A sink over `MemoryLogStore`, the default of `build_store` in `main.rs`: the log dies with the process and its
  offsets start at 0 again, while a checkpoint in a file is still there.
 */
module InMemory {
  import opened Prelude
  import opened SinkMachine
  import opened Guarantees
  import opened Status

  /** Where the next process starts. What it hands over, delivers or dead-letters are records of a new log. */
  function NextLife(cfg: Config, st: State): State {
    Fresh(View(0, 0)).(saved := if cfg.checkpoints.Persistent? then st.saved else None)
  }

  /** The steps of one process: the machine's crash, which keeps the log, is not among them. */
  ghost predicate OneLife(actions: seq<Action>) {
    forall a :: a in actions ==> !a.Crash?
  }

  /** One process after the other; the state is that of the last one. */
  function Lives(cfg: Config, lives: seq<seq<Action>>): State {
    if lives == [] then Fresh(View(0, 0)) else
      Run(cfg, NextLife(cfg, Lives(cfg, lives[..|lives| - 1])), lives[|lives| - 1])
  }

  ghost predicate AllLives(lives: seq<seq<Action>>) {
    forall life :: life in lives ==> OneLife(life)
  }

  /** Every record of the log below the checkpoint was delivered, dead-lettered, or pruned before its fetch. */
  ghost predicate Accounts(cfg: Config, st: State) {
    forall o: nat :: o < Checkpoint(st) && o < st.log.high ==> Handled(cfg, st, o)
  }

  // ---- The next process ------------------------------------------------------------------------

  /** The runtime works at or past `c` only. */
  ghost predicate AllPast(st: State, c: nat) {
    && c <= Checkpoint(st)
    && (st.cursor.Some? ==> c <= st.cursor.value)
    && (st.pc.Resolved? ==> c <= st.pc.from)
    && (InHand(st.pc) ==> c <= st.pc.first < st.pc.next)
    && (st.pc.Delivering? || st.pc.Failing? ==> c <= st.pc.at)
    && (forall o :: o in st.handed || o in st.delivered || o in st.dlq || o in st.lettered || o in st.skipped ==> c <= o)
  }

  lemma NextAllPast(cfg: Config, st: State, a: Action, c: nat)
    requires AllPast(st, c) && !a.Crash?
    ensures AllPast(Next(cfg, st, a), c)
  {
  }

  lemma {:induction false} RunAllPast(cfg: Config, st: State, actions: seq<Action>, c: nat)
    requires AllPast(st, c) && OneLife(actions)
    ensures AllPast(Run(cfg, st, actions), c)
    decreases |actions|
  {
    if actions != [] {
      hide AllPast, Next;
      var init := actions[..|actions| - 1];
      RunAllPast(cfg, st, init, c);
      NextAllPast(cfg, Run(cfg, st, init), actions[|actions| - 1], c);
    }
  }

  /**
    The next process, whatever it does, gives nobody a record of the new log whose offset is below the checkpoint
    the old log left behind, and no fetch of it passes over one.
   */
  lemma StaleNeverHanded(cfg: Config, st: State, life: seq<Action>, o: nat)
    requires o < Checkpoint(NextLife(cfg, st)) && OneLife(life)
    ensures var end := Run(cfg, NextLife(cfg, st), life);
            o < Checkpoint(end) && o !in end.handed && !Handled(cfg, end, o) && !Received(end, o)
  {
    hide Run;
    RunAllPast(cfg, NextLife(cfg, st), life, Checkpoint(NextLife(cfg, st)));
  }

  lemma Appends(cfg: Config, st: State, n: nat)
    ensures var end := Run(cfg, NextLife(cfg, st), [LogMoves(View(0, n))]);
            end.log.high == n && OneLife([LogMoves(View(0, n))])
  {
    OneStep(cfg, NextLife(cfg, st), LogMoves(View(0, n)));
  }

  lemma CleanLife(cfg: Config, st: State, life: seq<Action>)
    requires Checkpoint(NextLife(cfg, st)) == 0
    ensures var end := Run(cfg, NextLife(cfg, st), life); Inv(cfg, end) && Checkpoint(end) <= end.log.high
  {
    hide Run;
    assert Inv(cfg, NextLife(cfg, st));
    RunInv(cfg, NextLife(cfg, st), life);
  }

  /**
    The records of the next log that lie below the checkpoint are accounted for, whatever the next process does,
    exactly when no checkpoint is left.
   */
  lemma StaleCheckpointIff(cfg: Config, st: State)
    requires cfg.guarantee.AtLeastOnce?
    ensures (forall life :: OneLife(life) ==> Accounts(cfg, Run(cfg, NextLife(cfg, st), life)))
            <==> Checkpoint(NextLife(cfg, st)) == 0
  {
    hide Run, Handled, OneLife, Positions;
    var c := Checkpoint(NextLife(cfg, st));
    if c == 0 {
      forall life | OneLife(life)
        ensures Accounts(cfg, Run(cfg, NextLife(cfg, st), life))
      {
        CleanLife(cfg, st, life);
      }
    } else {
      var life := [LogMoves(View(0, c))];
      Appends(cfg, st, c);
      StaleNeverHanded(cfg, st, life, 0);
      assert !Accounts(cfg, Run(cfg, NextLife(cfg, st), life));
    }
  }

  // ---- Process after process -------------------------------------------------------------------

  /** A process whose log receives one record, and which saves the checkpoint 1. */
  function FirstLife(cfg: Config): seq<Action> {
    [LogMoves(View(0, 1))] + UntilSaved(cfg, 1)
  }

  lemma SecondLife(cfg: Config, life: seq<Action>)
    requires cfg.checkpoints.Persistent? && cfg.batchSize > 0 && OneLife(life)
    ensures AllLives([FirstLife(cfg), life])
    ensures Lives(cfg, [FirstLife(cfg), life]) == Run(cfg, Fresh(View(0, 0)).(saved := Some(1)), life)
  {
    hide Run, UntilSaved;
    var start, one := Fresh(View(0, 0)), FirstLife(cfg);
    OneStep(cfg, start, LogMoves(View(0, 1)));
    RoundSaves(cfg, Next(cfg, start, LogMoves(View(0, 1))));
    RunConcat(cfg, start, [LogMoves(View(0, 1))], UntilSaved(cfg, 1));
    NoCrashUntilSaved(cfg);
    assert [one, life][..1] == [one] && [one][..0] == [];
    assert Lives(cfg, [one]) == Run(cfg, start, one);
  }

  lemma NoCrashUntilSaved(cfg: Config)
    ensures OneLife(UntilSaved(cfg, 1))
  {
  }

  /**
    At least once over the in-memory log: the log's records below the checkpoint are accounted for, however often
    the process is restarted, exactly when the checkpoint dies with it.
   */
  lemma AccountsIff(cfg: Config)
    requires cfg.guarantee.AtLeastOnce? && cfg.batchSize > 0
    ensures (forall lives :: AllLives(lives) ==> Accounts(cfg, Lives(cfg, lives))) <==> cfg.checkpoints.Volatile?
  {
    if cfg.checkpoints.Volatile? {
      forall lives | AllLives(lives)
        ensures Accounts(cfg, Lives(cfg, lives))
      {
        EveryLifeIsClean(cfg, lives);
      }
    } else {
      var life := [LogMoves(View(0, 1))];
      SecondLife(cfg, life);
      NothingYet(cfg);
      assert !Accounts(cfg, Lives(cfg, [FirstLife(cfg), life]));
    }
  }

  lemma NothingYet(cfg: Config)
    ensures !Accounts(cfg, Run(cfg, Fresh(View(0, 0)).(saved := Some(1)), [LogMoves(View(0, 1))]))
  {
    OneStep(cfg, Fresh(View(0, 0)).(saved := Some(1)), LogMoves(View(0, 1)));
    assert !Handled(cfg, Fresh(View(0, 1)).(saved := Some(1)), 0);
  }

  lemma EveryLifeIsClean(cfg: Config, lives: seq<seq<Action>>)
    requires cfg.checkpoints.Volatile?
    ensures Inv(cfg, Lives(cfg, lives)) && Checkpoint(Lives(cfg, lives)) <= Lives(cfg, lives).log.high
  {
    if lives != [] {
      CleanLife(cfg, Lives(cfg, lives[..|lives| - 1]), lives[|lives| - 1]);
    }
  }

  /** The checkpoint stays within the in-memory log exactly when it dies with it. */
  lemma CheckpointInsideIff(cfg: Config)
    requires cfg.batchSize > 0
    ensures (forall lives :: AllLives(lives) ==> Checkpoint(Lives(cfg, lives)) <= Lives(cfg, lives).log.high)
            <==> cfg.checkpoints.Volatile?
  {
    if cfg.checkpoints.Volatile? {
      forall lives | AllLives(lives)
        ensures Checkpoint(Lives(cfg, lives)) <= Lives(cfg, lives).log.high
      {
        EveryLifeIsClean(cfg, lives);
      }
    } else {
      SecondLife(cfg, []);
      RunNothing(cfg, Fresh(View(0, 0)).(saved := Some(1)));
      assert Checkpoint(Lives(cfg, [FirstLife(cfg), []])) == 1;
    }
  }

  /** At most once over the in-memory log: in every process, the offsets of its log are handed over once. */
  lemma HandsOnceInEveryLife(cfg: Config, lives: seq<seq<Action>>)
    requires cfg.guarantee.AtMostOnce? && AllLives(lives)
    ensures Increasing(Lives(cfg, lives).handed)
  {
    hide Run;
    if lives != [] {
      assert OneLife(lives[|lives| - 1]);
      RunBehind(cfg, NextLife(cfg, Lives(cfg, lives[..|lives| - 1])), lives[|lives| - 1]);
    }
  }
}
