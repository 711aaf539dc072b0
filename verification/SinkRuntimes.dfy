/** `SinkRuntime` of `connector.rs`: `run_once`, proved to be a run of the step machine. */
module SinkRuntimes {
  import opened Prelude
  import opened Codec
  import opened Logs
  import opened LogPorts
  import opened SinkMachine
  import opened Retry
  import opened Ports
  import opened Rounds
  import opened InMemory

  datatype Report = Report(polled: nat, delivered: nat, deadLettered: nat, checkpoint: nat)

  datatype Round = Round(report: Report) | PortError

  /** A port call: the log moves while it waits, then it takes effect. */
  lemma RunCall(cfg: Config, st: State, actions: seq<Action>, log: View, a: Action)
    requires Moves(Run(cfg, st, actions).log, log)
    ensures Run(cfg, st, actions + [LogMoves(log), a]) == Next(cfg, Run(cfg, st, actions).(log := log), a)
  {
    RunSnoc(cfg, st, actions, LogMoves(log));
    RunSnoc(cfg, st, actions + [LogMoves(log)], a);
    assert actions + [LogMoves(log), a] == actions + [LogMoves(log)] + [a];
  }

  ghost predicate Consecutive(rs: seq<Record>) {
    forall i :: 0 <= i < |rs| ==> rs[i].offset == rs[0].offset + i
  }

  /** The batch is the one the step machine reads at `start`. */
  ghost predicate BatchAt(cfg: Config, log: View, history: seq<Record>, start: nat, batch: seq<Record>) {
    var first, next := BatchFirst(log, start), BatchNext(cfg, log, start);
    && |batch| == next - first
    && Consecutive(batch)
    && (batch != [] ==> start <= batch[0].offset == first && next <= |history| && batch == history[first..next])
  }

  lemma BatchMeansView(cfg: Config, log: View, history: seq<Record>, start: nat, batch: seq<Record>)
    requires var first, next := BatchFirst(log, start), BatchNext(cfg, log, start);
             && |batch| == next - first
             && (first < next ==> next <= |history| && batch == history[first..next])
             && forall i :: 0 <= i < |batch| ==> batch[i].offset == first + i
    ensures BatchAt(cfg, log, history, start, batch)
  {
  }

  ghost function AfterFetch(cfg: Config, batch: seq<Record>): Pc
    requires batch != []
  {
    var first, next := batch[0].offset, batch[|batch| - 1].offset + 1;
    if cfg.guarantee.AtMostOnce? then Fetched(first, next) else Delivering(first, next, first)
  }

  lemma Resolving(cfg: Config, st: State, ok: bool)
    requires st.pc.Idle?
    ensures Next(cfg, st, Resolve(ok)).log == st.log
  {
  }

  lemma Fetching(cfg: Config, st: State, history: seq<Record>, ok: bool, batch: seq<Record>)
    requires st.pc.Resolved? && (batch != [] ==> ok)
    requires ok ==> BatchAt(cfg, st.log, history, st.pc.from, batch)
    ensures Next(cfg, st, FetchBatch(ok))
            == if batch == [] then st.(pc := Idle)
               else st.(pc := AfterFetch(cfg, batch), skipped := st.skipped + Span(st.pc.from, batch[0].offset))
  {
    if batch != [] {
      assert batch[|batch| - 1].offset == batch[0].offset + (|batch| - 1);
    }
  }

  lemma DeliverStep(cfg: Config, st: State, ok: bool)
    requires st.pc.Delivering? && st.pc.at < st.pc.next
    ensures var pc := st.pc;
            var given := st.(handed := st.handed + [pc.at]);
            Next(cfg, st, Deliver(ok))
            == if ok then given.(pc := Onward(cfg, pc.first, pc.next, pc.at + 1), delivered := st.delivered + [pc.at],
                                 processed := st.processed + 1)
               else given.(pc := Failing(pc.first, pc.next, pc.at))
  {
  }

  lemma LetterStep(cfg: Config, st: State, outcome: Outcome)
    requires st.pc.Failing?
    ensures var pc := st.pc;
            var written := if outcome.Failed? then st
                           else st.(dlq := st.dlq + [pc.at], lettered := st.lettered + [pc.at]);
            Next(cfg, st, DeadLetter(outcome))
            == if outcome.Done? then written.(pc := Onward(cfg, pc.first, pc.next, pc.at + 1), dead := st.dead + 1)
               else written.(pc := Idle)
  {
  }

  lemma FailingCalls(answers: nat -> CallResult, bound: nat, calls: nat, good: bool)
    requires MadeCalls(answers, bound, calls) && good == answers(calls - 1).Success?
    ensures !good ==> (calls == bound <==> AllRetryable(answers, bound - 1))
  {
    if !good {
      UsesAllAttemptsIff(answers, bound, calls);
    }
  }

  class SinkRuntime {
    const cfg: Config
    const maxAttempts: nat
    const baseBackoff: Duration
    const ports: PortSet
    var processed: nat
    var dead: nat
    var cursor: Option<nat>
    /** Every offset passed to `deliver_one`, and every offset a fetch had to skip because it was pruned. */
    ghost var handed: seq<nat>
    ghost var skipped: set<nat>

    /** The machine state when `run_once` is at `pc`. */
    ghost function At(pc: Pc): State
      reads this, ports, ports.store
    {
      State(ports.View(), ports.saved, cursor, pc, handed, Each(ports.delivered, OffsetOf),
            Each(ports.dlq, LetterOffset), Each(ports.lettered, LetterOffset), skipped, processed, dead)
    }

    function Books(): Books
      reads this, ports
    {
      Rounds.Books(ports.tick, ports.saved, cursor, ports.delivered, processed, ports.dlq, dead)
    }

    /** What has happened since is one round of the script. */
    twostate predicate Followed(seen: View, ok: bool)
      reads this, ports, ports.store
    {
      Follows(cfg, ports.script, Max(maxAttempts, 1), old(Books()), old(From()), seen, ports.store.history, ok, Books())
    }

    ghost predicate Valid()
      reads ports.store, ports.store.Repr
    {
      ports.Valid() && this !in ports.store.Repr
    }

    /** Where the next round reads from. */
    ghost function From(): nat
      reads this, ports
    {
      if cursor.Some? then cursor.value else if ports.saved.Some? then ports.saved.value else 0
    }

    constructor (cfg: Config, maxAttempts: nat, baseBackoff: Duration, ports: PortSet)
      requires ports.Valid() && ports.saved == None && ports.delivered == []
      requires ports.dlq == ports.lettered == []
      ensures Valid() && this.ports == ports && this.cfg == cfg && this.maxAttempts == maxAttempts
      ensures At(Idle) == Fresh(ports.View()) && From() == 0
    {
      hide LogPort.Valid;
      this.cfg, this.maxAttempts, this.baseBackoff, this.ports := cfg, maxAttempts, baseBackoff, ports;
      processed, dead, cursor, handed, skipped := 0, 0, None, [], {};
    }

    /**
      A process restarted after a crash, over the file store: `store` is what recovery made of the directory
      (`Systems` says what that is). The counters and the cursor are gone, and so is a checkpoint or a queue that
      lived in memory.
     */
    constructor Restart(before: SinkRuntime, store: LogPort)
      requires before.Valid() && before.ports.store.file != null
      requires store.Valid() && store.file != null
      requires before.ports.store.history <= store.history && before.ports.store.startOffset <= store.startOffset
      ensures Valid() && ports.store == store && cfg == before.cfg && maxAttempts == before.maxAttempts
      ensures forall pc :: At(Idle) == Next(cfg, before.At(pc), Crash(ports.View()))
    {
      hide LogPort.Valid;
      cfg, maxAttempts, baseBackoff := before.cfg, before.maxAttempts, before.baseBackoff;
      processed, dead, cursor, handed, skipped := 0, 0, None, before.handed, before.skipped;
      ports := new PortSet.Revive(before.ports, store, before.cfg.checkpoints, before.cfg.queue);
      new;
      store.LogIsWellFormed();
    }

    /** A process restarted after a crash, over the in-memory store: the log is a new one. */
    constructor RestartInMemory(before: SinkRuntime, store: LogPort)
      requires before.Valid() && before.ports.store.mem != null
      requires store.Valid() && store.mem != null && store.history == []
      ensures Valid() && ports.store == store && cfg == before.cfg && maxAttempts == before.maxAttempts
      ensures forall pc :: At(Idle) == NextLife(cfg, before.At(pc))
    {
      hide LogPort.Valid;
      cfg, maxAttempts, baseBackoff := before.cfg, before.maxAttempts, before.baseBackoff;
      processed, dead, cursor, handed, skipped := 0, 0, None, [], {};
      ports := new PortSet.Reborn(before.ports, store, before.cfg.checkpoints);
      new;
      store.LogIsWellFormed();
    }

    lemma InsideAt(pc: Pc)
      requires Valid()
      ensures At(pc).log == ports.View() && ports.View().start <= ports.View().high
    {
      ports.ViewInside();
    }

    method ResolveCheckpoint() returns (ok: bool, offset: nat, ghost log: View)
      requires Valid()
      modifies `cursor, ports`tick, ports.store, ports.store.Repr
      ensures fresh(ports.store.Repr - old(ports.store.Repr))
      ensures Valid() && Moves(old(ports.View()), ports.View()) && old(ports.store.history) <= ports.store.history
      ensures log == ports.View()
      ensures At(if ok then Resolved(offset) else Idle) == Next(cfg, old(At(Idle)).(log := log), Resolve(ok))
      ensures ok ==> cursor == Some(offset) && offset == old(From())
      ensures ok <==> old(cursor).Some? || ports.script.load(old(ports.tick))
      ensures cursor == Loaded(ports.script, old(cursor), old(ports.tick), old(From()))
      ensures ports.tick == old(ports.tick) + (if old(cursor).Some? then 0 else 1)
      ensures Quiet(ports.script) ==>
                ok && ports.store.history == old(ports.store.history) && log == old(ports.View())
    {
      hide LogPort.Valid, Each, Quiet;
      ports.ViewInside();
      if cursor.Some? {
        return true, cursor.value, ports.View();
      }
      var loaded;
      ok, loaded := ports.LoadCheckpoint();
      offset := if loaded.Some? then loaded.value else 0;
      log := ports.View();
      if ok {
        cursor := Some(offset);
      }
    }

    /** `pc` is where the machine waits to save `offset`. */
    method CommitCheckpoint(offset: nat, ghost pc: Pc) returns (ok: bool, ghost actions: seq<Action>)
      requires Valid() && Saving(cfg, pc) && pc.next == offset
      modifies `cursor, ports`tick, ports`saved, ports.store, ports.store.Repr
      ensures fresh(ports.store.Repr - old(ports.store.Repr))
      ensures Valid() && old(ports.store.history) <= ports.store.history
      ensures At(AfterSave(pc, ok)) == Run(cfg, old(At(pc)), actions) && OneLife(actions)
      ensures ok <==> ports.script.save(old(ports.tick)).Done?
      ensures cursor == if ok then Some(offset) else old(cursor)
      ensures ports.saved == if ports.script.save(old(ports.tick)).Failed? then old(ports.saved) else Some(offset)
      ensures ports.tick == old(ports.tick) + 1
      ensures Quiet(ports.script) ==>
                ok && ports.store.history == old(ports.store.history) && ports.View() == old(ports.View())
    {
      hide LogPort.Valid, Quiet, Run;
      ghost var st, outcome := At(pc), Done;
      outcome, ok := ports.SaveCheckpoint(offset);
      if ok {
        cursor := Some(offset);
      }
      RunNothing(cfg, st);
      RunCall(cfg, st, [], ports.View(), Save(outcome));
      actions := [] + [LogMoves(ports.View()), Save(outcome)];
    }

    /** A save before delivery is followed by delivery. */
    ghost function AfterSave(pc: Pc, ok: bool): Pc {
      if ok && pc.Fetched? then Delivering(pc.first, pc.next, pc.first) else Idle
    }

    /** The sink has refused `r`: its letter is queued with the configured bound, and counted when that is acknowledged. */
    method DeadLetter(r: Record, ghost first: nat, ghost next: nat) returns (ok: bool, ghost actions: seq<Action>)
      requires Valid() && first <= r.offset < next
      modifies `dead, ports`tick, ports`dlq, ports`lettered, ports.store, ports.store.Repr
      ensures fresh(ports.store.Repr - old(ports.store.Repr))
      ensures Valid() && old(ports.store.history) <= ports.store.history
      ensures At(if ok then Onward(cfg, first, next, r.offset + 1) else Idle)
              == Run(cfg, old(At(Failing(first, next, r.offset))), actions)
      ensures OneLife(actions)
      ensures ok <==> ports.script.deadLetter(old(ports.tick)).Done?
      ensures ports.tick == old(ports.tick) + 1 && dead == old(dead) + (if ok then 1 else 0)
      ensures ports.dlq == old(ports.dlq)
              + (if ports.script.deadLetter(old(ports.tick)).Failed? then [] else [Letter(r, Max(maxAttempts, 1))])
      ensures Quiet(ports.script) ==> ports.store.history == old(ports.store.history) && ports.View() == old(ports.View())
    {
      hide LogPort.Valid, Each, Quiet, Run, Next, Onward;
      ghost var st, outcome := At(Failing(first, next, r.offset)), Done;
      outcome, ok := ports.DeadLetter(r, maxAttempts);
      RunNothing(cfg, st);
      RunCall(cfg, st, [], ports.View(), SinkMachine.DeadLetter(outcome));
      LetterStep(cfg, st.(log := ports.View()), outcome);
      actions := [] + [LogMoves(ports.View()), SinkMachine.DeadLetter(outcome)];
      EachSnoc(old(ports.dlq), Letter(r, Max(maxAttempts, 1)), LetterOffset);
      EachSnoc(old(ports.lettered), Letter(r, Max(maxAttempts, 1)), LetterOffset);
      if ok {
        dead := dead + 1;
      }
    }

    /**
      One turn of the delivery loop: deliver, and on failure dead-letter. `good` says that the sink took the
      record, `ok` is false when the queue failed.
     */
    method HandleRecord(r: Record, ghost first: nat, ghost next: nat)
      returns (ok: bool, good: bool, calls: nat, waited: nat, ghost actions: seq<Action>)
      requires Valid() && first <= r.offset < next
      modifies `processed, `dead, `handed, ports`tick, ports`delivered, ports`dlq, ports`lettered, ports.store, ports.store.Repr
      ensures fresh(ports.store.Repr - old(ports.store.Repr))
      ensures Valid() && old(ports.store.history) <= ports.store.history
      ensures At(if ok then Onward(cfg, first, next, r.offset + 1) else Idle)
              == Run(cfg, old(At(Delivering(first, next, r.offset))), actions)
      ensures OneLife(actions)
      ensures good <==> Taken(ports.script, Max(maxAttempts, 1), r, old(ports.tick))
      ensures ok <==> !Blocked(ports.script, Max(maxAttempts, 1), r, old(ports.tick))
      ensures good ==> ok
      ensures processed == old(processed) + (if good then 1 else 0)
      ensures dead == old(dead) + (if ok && !good then 1 else 0)
      ensures ports.delivered == old(ports.delivered) + (if good then [r] else [])
      ensures var last := LetterTick(ports.script, Max(maxAttempts, 1), r, old(ports.tick));
              && ports.tick == last + (if good then 0 else 1)
              && ports.dlq == old(ports.dlq)
                 + (if good || ports.script.deadLetter(last).Failed? then [] else [Letter(r, Max(maxAttempts, 1))])
      ensures ok ==> ports.dlq == old(ports.dlq) + (if good then [] else [Letter(r, Max(maxAttempts, 1))])
      ensures MadeCalls(Answers(ports.script, r, old(ports.tick) + 1), Max(maxAttempts, 1), calls)
      ensures waited == Waited(baseBackoff, Max(maxAttempts, 1), ports.script.clock, calls)
      ensures !good && ok ==>
                (ports.dlq[|ports.dlq| - 1].attempts == calls
                 <==> AllRetryable(Answers(ports.script, r, old(ports.tick) + 1), Max(maxAttempts, 1) - 1))
      ensures Quiet(ports.script) ==> ports.store.history == old(ports.store.history) && ports.View() == old(ports.View())
    {
      hide LogPort.Valid, Each, Quiet, Steady, Run, Succeeds, Answers, CallsMade, Waited,
           MadeCalls, AllRetryable, Next, Onward;
      ghost var st := At(Delivering(first, next, r.offset));
      ghost var answers := Answers(ports.script, r, ports.tick + 1);
      good, calls, waited := ports.DeliverOne(r, maxAttempts, baseBackoff);
      FailingCalls(answers, Max(maxAttempts, 1), calls, good);
      handed := handed + [r.offset];
      RunNothing(cfg, st);
      RunCall(cfg, st, [], ports.View(), Deliver(good));
      DeliverStep(cfg, st.(log := ports.View()), good);
      actions := [] + [LogMoves(ports.View()), Deliver(good)];
      EachSnoc(old(ports.delivered), r, OffsetOf);
      if good {
        processed := processed + 1;
        ok := true;
      } else {
        assert At(Failing(first, next, r.offset)) == Run(cfg, st, actions);
        ghost var more;
        ok, more := DeadLetter(r, first, next);
        RunConcat(cfg, st, actions, more);
        actions := actions + more;
      }
    }

    /** Resolve the checkpoint and read a batch from it. */
    method ReadBatch() returns (ok: bool, start: nat, batch: seq<Record>, ghost actions: seq<Action>)
      requires Valid()
      modifies `cursor, `skipped, ports`tick, ports.store, ports.store.Repr
      ensures fresh(ports.store.Repr - old(ports.store.Repr))
      ensures Valid() && old(ports.store.history) <= ports.store.history
      ensures At(if ok && batch != [] then Ready(batch) else Idle) == Run(cfg, old(At(Idle)), actions) && OneLife(actions)
      ensures ok ==> cursor == Some(start) && start == old(From())
      ensures ok ==> BatchAt(cfg, ports.View(), ports.store.history, start, batch)
      ensures batch != [] ==> ok
      ensures ok <==> Fetches(ports.script, old(cursor), old(ports.tick))
      ensures cursor == Loaded(ports.script, old(cursor), old(ports.tick), old(From()))
      ensures ok ==> ports.tick == FetchTick(old(cursor), old(ports.tick)) + 1
      ensures Moves(old(ports.View()), ports.View())
      ensures Quiet(ports.script) ==>
                ok && ports.store.history == old(ports.store.history) && ports.View() == old(ports.View())
    {
      hide LogPort.Valid, Each, Quiet, Run, Next, Fetch, BatchAt, BatchFirst, BatchNext;
      ghost var st, log := At(Idle), ports.View();
      batch := [];
      ok, start, log := ResolveCheckpoint();
      RunNothing(cfg, st);
      RunCall(cfg, st, [], log, Resolve(ok));
      actions := [] + [LogMoves(log), Resolve(ok)];
      Resolving(cfg, st.(log := log), ok);
      if !ok {
        return;
      }
      ghost var mid := At(Resolved(start));
      var res;
      ok, res := ports.Fetch(start, cfg.batchSize);
      RunCall(cfg, st, actions, ports.View(), FetchBatch(ok));
      actions := actions + [LogMoves(ports.View()), FetchBatch(ok)];
      if ok {
        batch := res.records;
        ports.BatchIsView(start, cfg);
        BatchMeansView(cfg, ports.View(), ports.store.history, start, batch);
      }
      Fetching(cfg, mid.(log := ports.View()), ports.store.history, ok, batch);
      if batch != [] {
        skipped := skipped + Span(start, batch[0].offset);
      }
    }

    /** Where the machine is when a non-empty batch has been read. */
    ghost function Ready(batch: seq<Record>): Pc
      requires batch != []
    {
      AfterFetch(cfg, batch)
    }

    /** The loop over the batch; `ok` is false when a dead-letter write failed and the round was given up. */
    method DeliverAll(batch: seq<Record>)
      returns (ok: bool, delivered: nat, deadLettered: nat, ghost actions: seq<Action>)
      requires Valid() && batch != [] && Consecutive(batch)
      modifies `processed, `dead, `handed, ports`tick, ports`delivered, ports`dlq, ports`lettered, ports.store, ports.store.Repr
      ensures fresh(ports.store.Repr - old(ports.store.Repr))
      ensures Valid() && old(ports.store.history) <= ports.store.history
      ensures At(if ok then Past(batch, |batch|) else Idle) == Run(cfg, old(At(Past(batch, 0))), actions) && OneLife(actions)
      ensures ok ==> delivered + deadLettered == |batch|
      ensures |ports.delivered| == |old(ports.delivered)| + delivered
      ensures ok ==> |ports.dlq| == |old(ports.dlq)| + deadLettered
      ensures processed == old(processed) + delivered && dead == old(dead) + deadLettered
      ensures var script, bound, t := ports.script, Max(maxAttempts, 1), old(ports.tick);
              var n := Reached(script, bound, batch, t);
              && (ok <==> n == |batch|)
              && (ok ==> ports.tick == TickAfter(script, bound, batch, t))
              && ports.delivered == old(ports.delivered) + TakenOf(script, bound, batch[..n], t)
              && ports.dlq == old(ports.dlq) + LettersOf(script, bound, batch[..n], t) + StrayLetter(script, bound, batch, t)
              && deadLettered == |LettersOf(script, bound, batch[..n], t)|
      ensures Quiet(ports.script) ==> ports.store.history == old(ports.store.history) && ports.View() == old(ports.View())
    {
      hide LogPort.Valid, Each, Quiet, Steady, Run, Onward, Succeeds, Answers,
           MadeCalls, AllRetryable, CallsMade, Waited, Letter, Taken, Blocked, LetterTick, TickAfter, TakenOf,
           LettersOf, Reached, StrayLetter;
      ghost var st := At(Past(batch, 0));
      ghost var bound, t := Max(maxAttempts, 1), ports.tick;
      delivered, deadLettered, actions := 0, 0, [];
      RunNothing(cfg, st);
      NothingMore(ports.script, bound, batch, t);
      for i := 0 to |batch|
        invariant Valid() && fresh(ports.store.Repr - old(ports.store.Repr))
        invariant old(ports.store.history) <= ports.store.history
        invariant At(Past(batch, i)) == Run(cfg, st, actions) && OneLife(actions)
        invariant delivered + deadLettered == i
        invariant |ports.delivered| == |old(ports.delivered)| + delivered && |ports.dlq| == |old(ports.dlq)| + deadLettered
        invariant processed == old(processed) + delivered && dead == old(dead) + deadLettered
        invariant Reached(ports.script, bound, batch[..i], t) == i
        invariant ports.tick == TickAfter(ports.script, bound, batch[..i], t)
        invariant ports.delivered == old(ports.delivered) + TakenOf(ports.script, bound, batch[..i], t)
        invariant ports.dlq == old(ports.dlq) + LettersOf(ports.script, bound, batch[..i], t)
        invariant Quiet(ports.script) ==>
                    ports.store.history == old(ports.store.history) && ports.View() == old(ports.View())
      {
        PastIsDelivering(batch, i);
        OneMore(ports.script, bound, batch, i, t);
        ghost var more;
        var good, calls, waited;
        ok, good, calls, waited, more := HandleRecord(batch[i], batch[0].offset, batch[|batch| - 1].offset + 1);
        RunConcat(cfg, st, actions, more);
        actions := actions + more;
        if good {
          delivered := delivered + 1;
        } else if ok {
          deadLettered := deadLettered + 1;
        } else {
          StopsAt(ports.script, bound, batch, i, t);
          return;
        }
      }
      assert batch[..|batch|] == batch;
      NoStray(ports.script, bound, batch, t);
      ok := true;
    }

    /** Where the machine is when the first `i` records of the batch have been handled. */
    ghost function Past(batch: seq<Record>, i: nat): Pc
      requires batch != []
    {
      Onward(cfg, batch[0].offset, batch[|batch| - 1].offset + 1, batch[0].offset + i)
    }

    lemma PastTheEnd(batch: seq<Record>)
      requires Consecutive(batch) && batch != []
      ensures var next := batch[|batch| - 1].offset + 1;
              Past(batch, |batch|) == if cfg.guarantee.AtMostOnce? then Idle else Delivering(batch[0].offset, next, next)
    {
    }

    lemma PastIsDelivering(batch: seq<Record>, i: nat)
      requires Consecutive(batch) && i < |batch|
      ensures batch[0].offset <= batch[i].offset == batch[0].offset + i < batch[|batch| - 1].offset + 1
      ensures Past(batch, i) == Delivering(batch[0].offset, batch[|batch| - 1].offset + 1, batch[i].offset)
    {
      assert batch[|batch| - 1].offset == batch[0].offset + (|batch| - 1);
    }

    /** What a round does with the batch it has read; `ok` is false when a port failed. */
    method HandleBatch(batch: seq<Record>) returns (ok: bool, delivered: nat, deadLettered: nat, ghost actions: seq<Action>)
      requires Valid() && batch != [] && Consecutive(batch)
      modifies `cursor, `processed, `dead, `handed, ports`tick, ports`saved, ports`delivered, ports`dlq, ports`lettered
      modifies ports.store, ports.store.Repr
      ensures Valid() && fresh(ports.store.Repr - old(ports.store.Repr))
      ensures old(ports.store.history) <= ports.store.history
      ensures At(Idle) == Run(cfg, old(At(Ready(batch))), actions) && OneLife(actions)
      ensures var script, bound, t := ports.script, Max(maxAttempts, 1), old(ports.tick);
              && (ok <==> Works(cfg, script, bound, batch, t))
              && ports.saved == Stored(cfg, script, bound, batch, t, old(ports.saved))
              && ports.delivered == old(ports.delivered) + Given(cfg, script, bound, batch, t)
              && ports.dlq == old(ports.dlq) + Queued(cfg, script, bound, batch, t)
              && cursor == Cached(cfg, script, bound, batch, t, old(cursor))
              && processed == old(processed) + |Given(cfg, script, bound, batch, t)|
              && dead == old(dead) + Counted(cfg, script, bound, batch, t)
              && (ok ==> ports.tick == Ends(cfg, script, bound, batch, t))
      ensures ok ==>
                && delivered + deadLettered == |batch|
                && |ports.delivered| == |old(ports.delivered)| + delivered
                && |ports.dlq| == |old(ports.dlq)| + deadLettered
                && processed == old(processed) + delivered
                && dead == old(dead) + deadLettered
                && ports.saved == cursor == Some(batch[|batch| - 1].offset + 1)
      ensures Quiet(ports.script) ==> ports.store.history == old(ports.store.history) && ports.View() == old(ports.View())
    {
      hide LogPort.Valid, Each, Quiet, Steady, Run, Next, Moves, Onward, Letter, Consecutive, TickAfter, TakenOf, LettersOf,
           Reached, StrayLetter, SinkRuntime.Past, SinkRuntime.At, PortSet.View;
      ghost var st := At(Ready(batch));
      ghost var more: seq<Action>;
      delivered, deadLettered, actions := 0, 0, [];
      RunNothing(cfg, st);
      var next := batch[|batch| - 1].offset + 1;
      if cfg.guarantee.AtMostOnce? {
        ok, more := CommitCheckpoint(next, Ready(batch));
        RunConcat(cfg, st, actions, more);
        actions := actions + more;
        if !ok {
          return;
        }
      }
      PastIsDelivering(batch, 0);
      ok, delivered, deadLettered, more := DeliverAll(batch);
      RunConcat(cfg, st, actions, more);
      actions := actions + more;
      if !ok {
        return;
      }
      PastTheEnd(batch);
      if cfg.guarantee.AtLeastOnce? {
        ok, more := CommitCheckpoint(next, Past(batch, |batch|));
        RunConcat(cfg, st, actions, more);
        actions := actions + more;
        if !ok {
          return;
        }
      }
    }

    /**
      One round: read, deliver or dead-letter each record, checkpoint. It gives up exactly when a port call it
      makes fails; `seen` is the log its fetch found. `accept` matters only for the last clause, about sinks
      whose answers do not change over time.
     */
    method RunOnce(ghost accept: Record -> bool) returns (round: Round, ghost seen: View, ghost actions: seq<Action>)
      requires Valid()
      modifies this, ports`tick, ports`saved, ports`delivered, ports`dlq, ports`lettered, ports.store, ports.store.Repr
      ensures fresh(ports.store.Repr - old(ports.store.Repr))
      ensures Valid() && old(ports.store.history) <= ports.store.history
      ensures At(Idle) == Run(cfg, old(At(Idle)), actions) && OneLife(actions)
      ensures Followed(seen, round.Round?)
      ensures Moves(old(ports.View()), seen) && Moves(seen, ports.View())
      ensures round.Round? ==> Reads(cfg, seen, old(From()), round.report.polled, round.report.checkpoint)
      ensures round.Round? ==>
                var rep := round.report;
                && rep.polled == rep.delivered + rep.deadLettered
                && |ports.delivered| == |old(ports.delivered)| + rep.delivered
                && |ports.dlq| == |old(ports.dlq)| + rep.deadLettered
                && processed == old(processed) + rep.delivered
                && dead == old(dead) + rep.deadLettered
                && cursor == Some(rep.checkpoint)
                && (if rep.polled > 0 then ports.saved == cursor else ports.saved == old(ports.saved))
      ensures Working(ports.script) ==> round.Round?
      ensures Quiet(ports.script) ==>
                && ports.store.history == old(ports.store.history) && ports.View() == old(ports.View()) == seen
      ensures Quiet(ports.script) && Steady(ports.script, accept) ==>
                var rs := Polled(ports.store.history, round.report.polled, round.report.checkpoint);
                && ports.delivered == old(ports.delivered) + Accepted(rs, accept)
                && ports.dlq == old(ports.dlq) + Refused(rs, accept, Max(maxAttempts, 1))
    {
      hide LogPort.Valid, Each, Quiet, Steady, Run, Next, Accepted, Refused, Fetch, BatchAt,
           Reads, Polled, Moves, Onward, Letter, Consecutive, SinkRuntime.Past, SinkRuntime.At, SinkRuntime.From,
           PortSet.View, Works, Stored, Cached, Given, Queued, Counted, Ends, Fetches, ReadAt, Working;
      ghost var st, from, was := At(Idle), From(), cursor;
      ghost var more: seq<Action>;
      var ok, start, batch;
      ok, start, batch, actions := ReadBatch();
      seen := ports.View();
      ports.ViewInside();
      QuietWorks(ports.script);
      if !ok {
        WorkingFetches(ports.script, was, old(ports.tick));
        return PortError, seen, actions;
      }
      BatchReads(cfg, seen, ports.store.history, start, batch);
      if batch == [] {
        NothingRead(cfg, ports.script, Max(maxAttempts, 1), ports.tick, ports.saved, cursor);
        NothingSplit(accept, Max(maxAttempts, 1));
        return Round(Report(0, 0, 0, start)), seen, actions;
      }
      ghost var t, history := ports.tick, ports.store.history;
      WorkingBatch(cfg, ports.script, accept, Max(maxAttempts, 1), batch, t);
      var delivered, deadLettered;
      ghost var ready := At(Ready(batch));
      InsideAt(Ready(batch));
      ok, delivered, deadLettered, more := HandleBatch(batch);
      InsideAt(Idle);
      RunMoves(cfg, ready, more);
      RunConcat(cfg, st, actions, more);
      actions := actions + more;
      ReadLater(cfg, seen, history, ports.store.history, from, batch);
      if !ok {
        return PortError, seen, actions;
      }
      round := Round(Report(|batch|, delivered, deadLettered, batch[|batch| - 1].offset + 1));
    }
  }

  /** How many records an undisturbed round at `from` reads, and the checkpoint after it. */
  ghost predicate Reads(cfg: Config, log: View, from: nat, polled: nat, checkpoint: nat) {
    var first, next := BatchFirst(log, from), BatchNext(cfg, log, from);
    && polled == next - first
    && checkpoint == if first < next then next else from
  }

  /** The `polled` records of `history` before `checkpoint`. */
  function Polled(history: seq<Record>, polled: nat, checkpoint: nat): seq<Record> {
    if 0 < polled <= checkpoint <= |history| then history[checkpoint - polled..checkpoint] else []
  }

  lemma BatchReads(cfg: Config, log: View, history: seq<Record>, start: nat, batch: seq<Record>)
    requires BatchAt(cfg, log, history, start, batch)
    ensures Consecutive(batch)
    ensures var checkpoint := if batch == [] then start else batch[|batch| - 1].offset + 1;
            Reads(cfg, log, start, |batch|, checkpoint) && Polled(history, |batch|, checkpoint) == batch
    ensures ReadAt(cfg, log, history, start) == batch
  {
    if batch != [] {
      assert batch[|batch| - 1].offset == batch[0].offset + (|batch| - 1);
    }
  }

  /** What others append later does not change what was read. */
  lemma ReadLater(cfg: Config, log: View, history: seq<Record>, later: seq<Record>, from: nat, batch: seq<Record>)
    requires history <= later && batch != [] && ReadAt(cfg, log, history, from) == batch
    ensures ReadAt(cfg, log, later, from) == batch
  {
  }

  lemma QuietWorks(script: Script)
    ensures Quiet(script) ==> Working(script)
  {
  }

  lemma WorkingFetches(script: Script, cursor: Option<nat>, t: nat)
    ensures Working(script) ==> Fetches(script, cursor, t)
  {
  }

  lemma WorkingBatch(cfg: Config, script: Script, accept: Record -> bool, bound: nat, batch: seq<Record>, t: nat)
    requires bound > 0 && batch != []
    ensures Working(script) ==> Works(cfg, script, bound, batch, t)
    ensures Working(script) && Steady(script, accept) ==>
              && Given(cfg, script, bound, batch, t) == Accepted(batch, accept)
              && Queued(cfg, script, bound, batch, t) == Refused(batch, accept, bound)
  {
    hide Working, Steady;
    if Working(script) {
      WorkingIsEnough(cfg, script, bound, batch, t, None, None);
      if Steady(script, accept) {
        SteadyBatch(cfg, script, accept, bound, batch, t);
      }
    }
  }

  lemma NothingSplit(accept: Record -> bool, attempts: nat)
    ensures Accepted([], accept) == [] && Refused([], accept, attempts) == []
  {
  }
}
