/** Settlement waits its day: in every run, whatever stale workers, retries, reaps and replays do. */
module Settlement {
  import opened Prelude
  import opened Model
  import opened JobTables
  import Q = QueueMachine
  import L = LedgerMachine
  import RunTimes
  import opened System
  import opened SystemSafety
  import opened EndToEnd
  import opened TradeLegs

  // ------------------------------------------------- sleeping jobs, system-wide

  /** Step j enqueues a job that is to run at `wake`. */
  ghost predicate EnqueuesFor(ss: seq<Sys>, acts: seq<Act>, j: nat, wake: int) {
    && j < |acts| && j < |ss| && Enabled(ss[j], acts[j]) && QPart(ss[j], acts[j]).Some?
    && QPart(ss[j], acts[j]).value.Enqueue? && QPart(ss[j], acts[j]).value.runAt == wake
  }

  lemma AsleepMove(s: Sys, a: Act, s': Sys, id: nat, wake: int)
    requires Q.Logged(s.q) && id < |s.q.log| && RunTimes.Asleep(s.q, id, wake) && Next(s, a, s')
    ensures id < |s'.q.log| && RunTimes.Asleep(s'.q, id, wake)
  {
    LogStep(s, a, s');
    if QPart(s, a).Some? {
      RunTimes.AsleepStep(s.q, QPart(s, a).value, id, wake);
    }
  }

  lemma {:induction false} AsleepSince(ss: seq<Sys>, acts: seq<Act>, j: nat, wake: int, k: nat)
    requires Run(ss, acts) && EnqueuesFor(ss, acts, j, wake) && j < k < |ss|
    ensures |ss[j].q.log| < |ss[k].q.log| && RunTimes.Asleep(ss[k].q, |ss[j].q.log|, wake)
    decreases k
  {
    StepFacts(ss, acts, k - 1);
    if k == j + 1 {
      LogStep(ss[j], acts[j], ss[k]);
      RunTimes.AsleepAtBirth(ss[j].q, QPart(ss[j], acts[j]).value);
    } else {
      AsleepSince(ss, acts, j, wake, k - 1);
      AsleepMove(ss[k - 1], acts[k - 1], ss[k], |ss[j].q.log|, wake);
    }
  }

  // ------------------------------------------------------------------ settlement

  /** A fill schedules the settlement of its order a day after its commit. */
  lemma FillSchedules(ss: seq<Sys>, acts: seq<Act>, o: nat, j: nat)
    requires Run(ss, acts) && FillsAt(ss, acts, o, j)
    ensures EnqueuesFor(ss, acts, j, ss[j].q.clock + 86_400_000)
  {
    StepFacts(ss, acts, j);
  }

  lemma SettleEnqueued(s: Sys, a: Act, o: nat)
    requires Enabled(s, a) && Decides(s, a) && Enqueued(s, a) == Some(Settle(o))
    ensures Trades(s, a, o)
  {
  }

  /** Every settle job was enqueued by a fill of its order. */
  lemma {:induction false} SettleComesFrom(ss: seq<Sys>, acts: seq<Act>, id: nat, o: nat, i: nat) returns (j: nat)
    requires Run(ss, acts) && i < |ss| && id < |ss[i].q.log| && ss[i].q.log[id] == Settle(o)
    ensures j < i && FillsAt(ss, acts, o, j) && |ss[j].q.log| == id
  {
    SettleNext(ss, acts, id, o, i - 1);
    if id < |ss[i - 1].q.log| {
      j := SettleComesFrom(ss, acts, id, o, i - 1);
    } else {
      j := i - 1;
    }
  }

  lemma SettleNext(ss: seq<Sys>, acts: seq<Act>, id: nat, o: nat, k: nat)
    requires Run(ss, acts) && k < |acts| && id < |ss[k + 1].q.log| && ss[k + 1].q.log[id] == Settle(o)
    ensures if id < |ss[k].q.log| then ss[k].q.log[id] == Settle(o)
      else FillsAt(ss, acts, o, k) && |ss[k].q.log| == id
  {
    StepFacts(ss, acts, k);
    LogStep(ss[k], acts[k], ss[k + 1]);
    if id >= |ss[k].q.log| {
      SettleEnqueued(ss[k], acts[k], o);
    }
  }

  /** In every run a settle job is claimed no earlier than a day after the commit of the fill that enqueued it. */
  lemma {:induction false} SettleClaimWaits(ss: seq<Sys>, acts: seq<Act>, o: nat, k: nat) returns (j: nat)
    requires Run(ss, acts) && k < |acts| && acts[k].QueueStep? && acts[k].qa.Claim?
    requires acts[k].qa.id < |ss[k].q.log| && ss[k].q.log[acts[k].qa.id] == Settle(o)
    ensures j < k && FillsAt(ss, acts, o, j) && |ss[j].q.log| == acts[k].qa.id
    ensures ss[k].q.clock >= ss[j].q.clock + 86_400_000
  {
    j := SettleComesFrom(ss, acts, acts[k].qa.id, o, k);
    FillSchedules(ss, acts, o, j);
    AsleepSince(ss, acts, j, ss[j].q.clock + 86_400_000, k);
    assert StepAt(ss, acts, k);
  }

  /** While an execution of a settle job is outstanding, a day has passed since its fill. */
  lemma {:induction false} SettlerWaited(ss: seq<Sys>, acts: seq<Act>, o: nat, e: nat, i: nat) returns (j: nat)
    requires Run(ss, acts) && i < |ss| && e in ss[i].q.execs && ss[i].q.execs[e].kind == Settle(o)
    ensures j < i && FillsAt(ss, acts, o, j) && ss[i].q.clock >= ss[j].q.clock + 86_400_000
  {
    var id := ss[i].q.execs[e].job;
    assert id < |ss[i].q.log| && ss[i].q.log[id] == Settle(o) by {
      SysOkRun(ss, acts, i);
    }
    j := SettleComesFrom(ss, acts, id, o, i);
    FillSchedules(ss, acts, o, j);
    AsleepSince(ss, acts, j, ss[j].q.clock + 86_400_000, i);
  }

  lemma SettledComesFrom(s: Sys, a: Act, s': Sys, o: nat)
    requires Next(s, a, s') && Decides(s, a) && o < |s'.orders| && s'.orders[o].status == Settled
    ensures (o < |s.orders| && s.orders[o].status == Settled)
      || (a.WriteSettled? && a.e in s.q.execs && s.q.execs[a.e].kind == Settle(o))
  {
    assert s'.orders == OrdersAfter(s, a);
  }

  /** T+1: in every run an order is settled no earlier than a day after a fill of it committed. */
  lemma {:induction false} SettledADayLater(ss: seq<Sys>, acts: seq<Act>, o: nat, i: nat) returns (j: nat)
    requires Run(ss, acts) && i < |ss| && o < |ss[i].orders| && ss[i].orders[o].status == Settled
    ensures j < i && FillsAt(ss, acts, o, j) && ss[i].q.clock >= ss[j].q.clock + 86_400_000
  {
    SettledNext(ss, acts, o, i - 1);
    if o < |ss[i - 1].orders| && ss[i - 1].orders[o].status == Settled {
      j := SettledADayLater(ss, acts, o, i - 1);
    } else {
      j := SettlerWaited(ss, acts, o, acts[i - 1].e, i - 1);
    }
  }

  lemma SettledNext(ss: seq<Sys>, acts: seq<Act>, o: nat, k: nat)
    requires Run(ss, acts) && k < |acts| && o < |ss[k + 1].orders| && ss[k + 1].orders[o].status == Settled
    ensures (o < |ss[k].orders| && ss[k].orders[o].status == Settled)
      || (acts[k].WriteSettled? && acts[k].e in ss[k].q.execs && ss[k].q.execs[acts[k].e].kind == Settle(o))
    ensures ss[k + 1].q.clock >= ss[k].q.clock
  {
    StepFacts(ss, acts, k);
    SettledComesFrom(ss[k], acts[k], ss[k + 1], o);
    ClockGrows(ss[k], acts[k], ss[k + 1]);
  }

  lemma ClockGrows(s: Sys, a: Act, s': Sys)
    requires Next(s, a, s')
    ensures s'.q.clock >= s.q.clock
  {
  }

  /** The successor that a poll handler enqueues is claimed no earlier than 15 seconds later. */
  lemma PollWaits(ss: seq<Sys>, acts: seq<Act>, j: nat, k: nat)
    requires Run(ss, acts) && j < k < |acts| && acts[j].Rearm?
    requires acts[k].QueueStep? && acts[k].qa.Claim? && acts[k].qa.id == |ss[j].q.log|
    ensures ss[k].q.clock >= ss[j].q.clock + 15_000
  {
    assert StepAt(ss, acts, j);
    AsleepSince(ss, acts, j, ss[j].q.clock + 15_000, k);
    assert StepAt(ss, acts, k);
  }
}
