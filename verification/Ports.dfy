/**
  The ports a sink runtime talks to: a log that other tasks append to, a checkpoint store, a sink and a
  dead-letter queue. A script of total functions fixes what the environment does at each call, so that a
  statement about all scripts is a statement about all environments.
 */
module Ports {
  import opened Prelude
  import opened Bytes
  import opened Codec
  import opened Logs
  import opened LogPorts
  import opened SinkMachine
  import opened Retry

  /** Each entry is indexed by the number of port calls made before. */
  datatype Script = Script(
    growth: nat -> seq<ProduceRecord>,
    load: nat -> bool,
    fetch: nat -> bool,
    save: nat -> Outcome,
    deadLetter: nat -> Outcome,
    deliver: (nat, Record) -> CallResult,
    clock: nat -> nat
  )

  datatype DeadLetterRecord = DeadLetterRecord(offset: nat, payload: seq<Byte>, attempts: nat)

  function OffsetOf(r: Record): nat {
    r.offset
  }

  function LetterOffset(letter: DeadLetterRecord): nat {
    letter.offset
  }

  /** The offsets of `xs`, in order. */
  function Each<T>(xs: seq<T>, offset: T -> nat): (os: seq<nat>)
    ensures |os| == |xs|
  {
    if xs == [] then [] else Each(xs[..|xs| - 1], offset) + [offset(xs[|xs| - 1])]
  }

  lemma EachSnoc<T>(xs: seq<T>, x: T, offset: T -> nat)
    ensures Each(xs + [x], offset) == Each(xs, offset) + [offset(x)]
  {
    assert (xs + [x])[..|xs|] == xs;
  }

  /** No port fails; what the sink answers and what others append is left open. */
  ghost predicate Working(script: Script) {
    forall t: nat :: script.load(t) && script.fetch(t) && script.save(t).Done? && script.deadLetter(t).Done?
  }

  /** No port fails and nobody else appends. */
  ghost predicate Quiet(script: Script) {
    Working(script) && forall t: nat :: script.growth(t) == []
  }

  /** The sink always takes the records `accept` picks and permanently refuses the others. */
  ghost predicate Steady(script: Script, accept: Record -> bool) {
    forall t: nat, r: Record :: script.deliver(t, r) == if accept(r) then Success else Permanent
  }

  /** What the sink answers to `r`, call by call from tick `first` on. */
  function Answers(script: Script, r: Record, first: nat): (answers: nat -> CallResult)
    ensures forall k: nat :: answers(k) == script.deliver(first + k, r)
  {
    (k: nat) => script.deliver(first + k, r)
  }

  /** How long the sleeps between `calls` calls of the sink last; no single one lasts longer than a second. */
  function Waited(baseBackoff: Duration, bound: nat, clock: nat -> nat, calls: nat): nat
    requires calls > 0
  {
    var policy := Policy(bound, baseBackoff, 1_000_000_000);
    ShortDelaysFit(policy);
    Slept(policy, clock, calls - 1)
  }

  /** A fetch from any store's log returns the batch the step machine reads off the log's ends. */
  lemma FetchIsBatch(log: Log, from: nat, cfg: Config)
    requires WellFormed(log)
    ensures var rs, view := Logs.Fetch(log, from, cfg.batchSize).records, SinkMachine.View(log.start, |log.history|);
            var first, next := BatchFirst(view, from), BatchNext(cfg, view, from);
            && |rs| == next - first
            && (first < next ==> next <= |log.history| && rs == log.history[first..next])
            && forall i :: 0 <= i < |rs| ==> rs[i].offset == first + i
  {
  }

  class PortSet {
    const store: LogPort
    const timestamp: Millis
    const script: Script
    var tick: nat
    var saved: Option<nat>
    var delivered: seq<Record>
    var dlq: seq<DeadLetterRecord>
    /** Everything ever written to the queue, which may not outlive the process. */
    ghost var lettered: seq<DeadLetterRecord>

    ghost predicate Valid()
      reads store, store.Repr
    {
      store.Valid() && this !in store.Repr
    }

    lemma ViewInside()
      requires Valid()
      ensures Moves(View(), View())
    {
    }

    lemma BatchIsView(from: nat, cfg: Config)
      requires Valid()
      ensures store.startOffset <= |store.history|
      ensures var rs := Logs.Fetch(store.AsLog(), from, cfg.batchSize).records;
              var first, next := BatchFirst(View(), from), BatchNext(cfg, View(), from);
              && |rs| == next - first
              && (first < next ==> next <= |store.history| && rs == store.history[first..next])
              && forall i :: 0 <= i < |rs| ==> rs[i].offset == first + i
    {
      FetchIsBatch(store.AsLog(), from, cfg);
    }

    ghost function View(): View
      reads store
    {
      SinkMachine.View(store.startOffset, |store.history|)
    }

    constructor (store: LogPort, timestamp: Millis, script: Script)
      requires store.Valid()
      ensures Valid() && this.store == store && this.script == script
      ensures saved == None && delivered == [] && dlq == lettered == []
    {
      hide LogPort.Valid;
      this.store, this.timestamp, this.script := store, timestamp, script;
      tick, saved, delivered, dlq, lettered := 0, None, [], [], [];
    }

    /**
      The ports of the process that follows a crash: the log that was recovered, and of the checkpoint and the
      queue what outlives a process. The sink has what it was given.
     */
    constructor Revive(before: PortSet, store: LogPort, checkpoints: Lifetime, queue: Lifetime)
      requires store.Valid()
      ensures Valid() && this.store == store && timestamp == before.timestamp && script == before.script
      ensures tick == before.tick && delivered == before.delivered && lettered == before.lettered
      ensures saved == if checkpoints.Volatile? then None else before.saved
      ensures dlq == if queue.Volatile? then [] else before.dlq
    {
      hide LogPort.Valid;
      this.store, timestamp, script, tick := store, before.timestamp, before.script, before.tick;
      saved := if checkpoints.Volatile? then None else before.saved;
      delivered, lettered := before.delivered, before.lettered;
      dlq := if queue.Volatile? then [] else before.dlq;
    }

    /** The ports of the process that follows a crash, over a log that starts anew. */
    constructor Reborn(before: PortSet, store: LogPort, checkpoints: Lifetime)
      requires store.Valid()
      ensures Valid() && this.store == store && timestamp == before.timestamp && script == before.script
      ensures tick == before.tick && delivered == [] && dlq == lettered == []
      ensures saved == if checkpoints.Volatile? then None else before.saved
    {
      hide LogPort.Valid;
      this.store, timestamp, script, tick := store, before.timestamp, before.script, before.tick;
      saved := if checkpoints.Volatile? then None else before.saved;
      delivered, dlq, lettered := [], [], [];
    }

    /** What others append at tick `t` to a log of `n` records. Offsets never pass `u64`. */
    ghost function Arrivals(t: nat, n: nat): seq<Record> {
      var batch := script.growth(t);
      if n + |batch| <= TWO_64 && store.Accepts(batch) then Materialize(batch, n, timestamp) else []
    }

    /** Other tasks append before the call this one waits for. */
    method Others()
      requires Valid()
      modifies `tick, store, store.Repr
      ensures Valid() && fresh(store.Repr - old(store.Repr)) && tick == old(tick) + 1
      ensures Moves(old(View()), View()) && old(store.history) <= store.history
      ensures store.history == old(store.history) + Arrivals(old(tick), |old(store.history)|)
      ensures script.growth(old(tick)) == [] ==>
                store.history == old(store.history) && store.startOffset == old(store.startOffset)
      ensures saved == old(saved) && delivered == old(delivered) && dlq == old(dlq) && lettered == old(lettered)
    {
      hide LogPort.Settled;
      var batch := script.growth(tick);
      tick := tick + 1;
      if batch != [] && store.NextOffset() + |batch| <= TWO_64 && store.Accepts(batch) {
        store.Append(batch, timestamp);
      }
    }

    method LoadCheckpoint() returns (ok: bool, offset: Option<nat>)
      requires Valid()
      modifies `tick, store, store.Repr
      ensures Valid() && fresh(store.Repr - old(store.Repr)) && Moves(old(View()), View()) && old(store.history) <= store.history
      ensures tick == old(tick) + 1 && ok == script.load(old(tick))
      ensures ok ==> offset == saved
      ensures Quiet(script) ==> ok && store.history == old(store.history) && store.startOffset == old(store.startOffset)
    {
      hide LogPort.Valid;
      ok := script.load(tick);
      Others();
      offset := saved;
    }

    method Fetch(from: nat, max: nat) returns (ok: bool, res: FetchResult)
      requires Valid()
      modifies `tick, store, store.Repr
      ensures Valid() && fresh(store.Repr - old(store.Repr)) && Moves(old(View()), View()) && old(store.history) <= store.history
      ensures store.startOffset <= |store.history|
      ensures tick == old(tick) + 1 && ok == script.fetch(old(tick))
      ensures ok ==> res == Logs.Fetch(store.AsLog(), from, max)
      ensures Quiet(script) ==> ok && store.history == old(store.history) && store.startOffset == old(store.startOffset)
    {
      ok := script.fetch(tick);
      Others();
      res := store.Fetch(from, max);
    }

    /** A save that fails may still have reached the disk. */
    method SaveCheckpoint(offset: nat) returns (ghost outcome: Outcome, ok: bool)
      requires Valid()
      modifies `tick, `saved, store, store.Repr
      ensures Valid() && fresh(store.Repr - old(store.Repr)) && Moves(old(View()), View()) && old(store.history) <= store.history
      ensures tick == old(tick) + 1 && outcome == script.save(old(tick)) && ok == outcome.Done?
      ensures saved == if outcome.Failed? then old(saved) else Some(offset)
      ensures Quiet(script) ==> ok && store.history == old(store.history) && store.startOffset == old(store.startOffset)
    {
      hide LogPort.Valid;
      var result := script.save(tick);
      Others();
      if !result.Failed? {
        saved := Some(offset);
      }
      outcome := result;
      ok := result.Done?;
    }

    /** One record, with retries; the sink keeps what it accepts. `calls` is how often it was called. */
    method DeliverOne(r: Record, maxAttempts: nat, baseBackoff: Duration) returns (ok: bool, calls: nat, waited: nat)
      requires Valid()
      modifies `tick, `delivered, store, store.Repr
      ensures Valid() && fresh(store.Repr - old(store.Repr)) && Moves(old(View()), View()) && old(store.history) <= store.history
      ensures delivered == if ok then old(delivered) + [r] else old(delivered)
      ensures Quiet(script) ==> store.history == old(store.history) && store.startOffset == old(store.startOffset)
      ensures tick == old(tick) + 1 + calls && calls == CallsMade(Answers(script, r, old(tick) + 1), Max(maxAttempts, 1))
      ensures MadeCalls(Answers(script, r, old(tick) + 1), Max(maxAttempts, 1), calls)
      ensures script.deliver(old(tick) + 1, r).NotFound? || script.deliver(old(tick) + 1, r).Permanent? ==> calls == 1
      ensures ok == Answers(script, r, old(tick) + 1)(calls - 1).Success?
      ensures waited == Waited(baseBackoff, Max(maxAttempts, 1), script.clock, calls)
      ensures ok <==> Succeeds(Answers(script, r, old(tick) + 1), Max(maxAttempts, 1))
      ensures forall accept :: Steady(script, accept) ==> ok == accept(r)
    {
      hide LogPort.Valid, Capped, JitterFits, LastCall, SleepBound, Slept, Succeeds, MadeCalls, AllRetryable, CallsMade;
      Others();
      var policy := Policy(Max(maxAttempts, 1), baseBackoff, 1_000_000_000);
      var first := tick;
      ShortDelaysFit(policy);
      var answers := Answers(script, r, first);
      var res;
      res, calls, waited := RetryIf(policy, answers, script.clock);
      SucceedsIff(policy, answers);
      LastCallIsMade(policy, answers);
      MadeOnce(answers, Max(maxAttempts, 1), calls, CallsMade(answers, Max(maxAttempts, 1)));
      tick := tick + calls;
      assert res == script.deliver(first + (calls - 1), r);
      ok := res.Success?;
      if ok {
        delivered := delivered + [r];
      }
    }

    method DeadLetter(r: Record, maxAttempts: nat) returns (ghost outcome: Outcome, ok: bool)
      requires Valid()
      modifies `tick, `dlq, `lettered, store, store.Repr
      ensures Valid() && fresh(store.Repr - old(store.Repr)) && Moves(old(View()), View()) && old(store.history) <= store.history
      ensures tick == old(tick) + 1 && outcome == script.deadLetter(old(tick)) && ok == outcome.Done?
      ensures outcome.Failed? ==> dlq == old(dlq) && lettered == old(lettered)
      ensures !outcome.Failed? ==>
                var letter := DeadLetterRecord(r.offset, r.payload, Max(maxAttempts, 1));
                dlq == old(dlq) + [letter] && lettered == old(lettered) + [letter]
      ensures Quiet(script) ==> ok && store.history == old(store.history) && store.startOffset == old(store.startOffset)
    {
      hide LogPort.Valid;
      var result := script.deadLetter(tick);
      Others();
      if !result.Failed? {
        var letter := DeadLetterRecord(r.offset, r.payload, Max(maxAttempts, 1));
        dlq := dlq + [letter];
        lettered := lettered + [letter];
      }
      outcome := result;
      ok := result.Done?;
    }
  }

  /** With delays of at most a second the jitter arithmetic stays inside `u64`. */
  lemma ShortDelaysFit(policy: Policy)
    requires policy.maxDelay <= 1_000_000_000
    ensures forall k :: JitterFits(Capped(policy, k) / 2)
  {
    hide Capped;
    forall k: nat
      ensures JitterFits(Capped(policy, k) / 2)
    {
      CappedAtMost(policy, k);
    }
  }

  lemma CappedAtMost(policy: Policy, k: nat)
    ensures Capped(policy, k) <= policy.maxDelay
  {
  }
}
