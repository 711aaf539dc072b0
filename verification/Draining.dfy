/** The loop that calls `run_once` until it reports an empty batch, over a log nobody else touches. */
module Draining {
  import opened Prelude
  import opened Multiples
  import opened Codec
  import opened Logs
  import opened LogPorts
  import opened SinkMachine
  import opened Ports
  import opened Rounds
  import opened InMemory
  import opened SinkRuntimes

  /** `r` rounds have read `read` of `left` records: all of them full, but the last when nothing is left. */
  ghost predicate Counted(r: nat, read: nat, left: nat, b: nat)
    requires b > 0
  {
    r == CeilDiv(read, b) && (read == left || read % b == 0)
  }

  lemma CountedOne(r: nat, read: nat, left: nat, b: nat)
    requires b > 0 && Counted(r, read, left, b) && read < left
    ensures Counted(r + 1, read + Min(b, left - read), left, b)
  {
    CeilDivAdd(read, Min(b, left - read), b);
    ModStep(read, b);
  }

  lemma CountedAll(r: nat, left: nat, b: nat)
    requires b > 0 && Counted(r, left, left, b)
    ensures r == CeilDiv(left, b)
  {
  }

  /** Report `i` takes up where the one before it stopped, and its round was not empty. */
  ghost predicate Follows(reports: seq<Report>, begin: nat, i: nat)
    requires i < |reports|
  {
    && reports[i].polled == reports[i].delivered + reports[i].deadLettered > 0
    && reports[i].checkpoint == (if i == 0 then begin else reports[i - 1].checkpoint) + reports[i].polled
  }

  ghost predicate Adjacent(reports: seq<Report>, begin: nat) {
    forall i :: 0 <= i < |reports| ==> Follows(reports, begin, i)
  }

  lemma AdjacentSnoc(reports: seq<Report>, report: Report, begin: nat)
    requires Adjacent(reports, begin)
    requires report.polled == report.delivered + report.deadLettered > 0
    requires report.checkpoint == Reach(reports, begin) + report.polled
    ensures Adjacent(reports + [report], begin) && Reach(reports + [report], begin) == report.checkpoint
  {
    var more := reports + [report];
    forall i | 0 <= i < |more|
      ensures Follows(more, begin, i)
    {
      assert i < |reports| ==> Follows(reports, begin, i);
    }
  }

  /** The offset the rounds so far have read up to. */
  function Reach(reports: seq<Report>, begin: nat): nat {
    if reports == [] then begin else reports[|reports| - 1].checkpoint
  }

  lemma {:induction false} AcceptedConcat(a: seq<Record>, b: seq<Record>, accept: Record -> bool)
    ensures Accepted(a + b, accept) == Accepted(a, accept) + Accepted(b, accept)
  {
    if b == [] {
      assert a + b == a;
    } else {
      AcceptedConcat(a, b[..|b| - 1], accept);
      assert (a + b)[..|a + b| - 1] == a + b[..|b| - 1];
    }
  }

  lemma {:induction false} RefusedConcat(a: seq<Record>, b: seq<Record>, accept: Record -> bool, attempts: nat)
    ensures Refused(a + b, accept, attempts) == Refused(a, accept, attempts) + Refused(b, accept, attempts)
  {
    if b == [] {
      assert a + b == a;
    } else {
      RefusedConcat(a, b[..|b| - 1], accept, attempts);
      assert (a + b)[..|a + b| - 1] == a + b[..|b| - 1];
    }
  }

  /** What one more undisturbed round adds to what has been read from `begin` up to `reach`. */
  lemma OneMoreRound(cfg: Config, log: View, history: seq<Record>, begin: nat, from: nat, reach: nat,
                     polled: nat, checkpoint: nat)
    requires cfg.batchSize > 0 && |history| == log.high && log.start <= begin <= reach
    requires BatchFirst(log, from) == reach
    requires Reads(cfg, log, from, polled, checkpoint)
    ensures polled == 0 ==> checkpoint == from && Polled(history, polled, checkpoint) == []
    ensures if reach >= log.high then polled == 0 else polled == Min(cfg.batchSize, log.high - reach)
    ensures polled > 0 ==>
              && checkpoint == reach + polled <= log.high
              && BatchFirst(log, checkpoint) == checkpoint
              && Window(history, begin, checkpoint) == Window(history, begin, reach) + Polled(history, polled, checkpoint)
  {
    if polled > 0 {
      JoinWindows(history, begin, reach, checkpoint);
      assert Polled(history, polled, checkpoint) == history[reach..checkpoint];
    }
  }

  /**
    With no port failing, the loop ends after exactly the batches it takes to read the rest of the log:
    adjacent ones, each record delivered or dead-lettered, the checkpoint at the high-watermark.
   */
  method Drain(rt: SinkRuntime, ghost accept: Record -> bool)
    returns (delivered: nat, dead: nat, ghost reports: seq<Report>)
    requires rt.Valid() && Quiet(rt.ports.script) && rt.cfg.batchSize > 0
    modifies rt, rt.ports`tick, rt.ports`saved, rt.ports`delivered, rt.ports`dlq, rt.ports`lettered, rt.ports.store, rt.ports.store.Repr
    ensures fresh(rt.ports.store.Repr - old(rt.ports.store.Repr))
    ensures rt.Valid() && rt.ports.store.history == old(rt.ports.store.history) && rt.ports.View() == old(rt.ports.View())
    ensures var begin, high := BatchFirst(rt.ports.View(), old(rt.From())), rt.ports.View().high;
            var left := Max(high - begin, 0);
            && |reports| == CeilDiv(left, rt.cfg.batchSize)
            && Adjacent(reports, begin)
            && delivered + dead == left
            && rt.processed == old(rt.processed) + delivered && rt.dead == old(rt.dead) + dead
            && |rt.ports.delivered| == |old(rt.ports.delivered)| + delivered && |rt.ports.dlq| == |old(rt.ports.dlq)| + dead
            && (if left == 0 then rt.ports.saved == old(rt.ports.saved) && rt.cursor == Some(old(rt.From()))
                else rt.ports.saved == rt.cursor == Some(high))
            && (Steady(rt.ports.script, accept) ==>
                  var rs := Window(rt.ports.store.history, begin, Max(begin, high));
                  && rt.ports.delivered == old(rt.ports.delivered) + Accepted(rs, accept)
                  && rt.ports.dlq == old(rt.ports.dlq) + Refused(rs, accept, Max(rt.maxAttempts, 1)))
  {
    hide LogPort.Valid, Quiet, Steady, Accepted, Refused, Reads, Polled, Adjacent, Run,
         SinkRuntime.At, Window, Counted, CeilDiv, BatchFirst, Working, Follows, Moves, OneLife,
         SinkRuntime.Followed;
    ghost var log, history := rt.ports.View(), rt.ports.store.history;
    ghost var begin, b := BatchFirst(log, rt.From()), rt.cfg.batchSize;
    StartsInside(log, rt.From());
    ghost var attempts := Max(rt.maxAttempts, 1);
    ghost var reach := begin;
    reports := [];
    delivered, dead := 0, 0;
    QuietWorks(rt.ports.script);
    NothingSplit(accept, attempts);
    NothingYet(begin, log, history, Max(log.high - begin, 0), b);
    while true
      invariant fresh(rt.ports.store.Repr - old(rt.ports.store.Repr))
      invariant rt.Valid() && rt.ports.store.history == history && rt.ports.View() == log
      invariant reach == BatchFirst(log, rt.From()) == Reach(reports, begin)
      invariant Adjacent(reports, begin)
      invariant begin <= reach && (reach == begin || reach <= log.high)
      invariant delivered + dead == reach - begin
      invariant rt.processed == old(rt.processed) + delivered && rt.dead == old(rt.dead) + dead
      invariant |rt.ports.delivered| == |old(rt.ports.delivered)| + delivered && |rt.ports.dlq| == |old(rt.ports.dlq)| + dead
      invariant if reports == [] then rt.ports.saved == old(rt.ports.saved) && rt.From() == old(rt.From()) && reach == begin
                else rt.ports.saved == rt.cursor == Some(reach) && begin < reach
      invariant Counted(|reports|, reach - begin, Max(log.high - begin, 0), b)
      invariant Steady(rt.ports.script, accept) ==>
                  && rt.ports.delivered == old(rt.ports.delivered) + Accepted(Window(history, begin, reach), accept)
                  && rt.ports.dlq == old(rt.ports.dlq) + Refused(Window(history, begin, reach), accept, attempts)
      decreases log.high - reach
    {
      ghost var from := rt.From();
      var round, _, _ := rt.RunOnce(accept);
      var report := round.report;
      OneMoreRound(rt.cfg, log, history, begin, from, reach, report.polled, report.checkpoint);
      if report.polled == 0 {
        break;
      }
      AcceptedConcat(Window(history, begin, reach), Polled(history, report.polled, report.checkpoint), accept);
      RefusedConcat(Window(history, begin, reach), Polled(history, report.polled, report.checkpoint), accept, attempts);
      AdjacentSnoc(reports, report, begin);
      CountedOne(|reports|, reach - begin, log.high - begin, b);
      delivered := delivered + report.delivered;
      dead := dead + report.deadLettered;
      reports := reports + [report];
      reach := report.checkpoint;
    }
    CountedAll(|reports|, Max(log.high - begin, 0), b);
  }

  lemma StartsInside(log: View, from: nat)
    ensures log.start <= BatchFirst(log, from)
  {
  }

  lemma NothingYet(begin: nat, log: View, history: seq<Record>, left: nat, b: nat)
    requires b > 0
    ensures Adjacent([], begin) && Window(history, begin, begin) == [] && Counted(0, 0, left, b)
  {
    CeilDivZero(b);
    ModUnique(0, 0, 0, b);
  }
}
