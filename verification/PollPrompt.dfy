/** When one poll chain stays one: poll executions that complete in time never run a job's handler twice. */
module PollPrompt {
  import opened Prelude
  import opened JobTables
  import Q = QueueMachine
  import opened System
  import opened SystemSafety
  import opened EndToEnd
  import opened PollChain

  /** Execution e of a poll job has enqueued the successor and still has to complete its job. */
  predicate Completing(s: Sys, e: nat) {
    e in s.q.execs && e in s.pcs && s.q.execs[e].kind == PollQuotes && s.pcs[e] == Finished
  }

  /**
   Poll executions are timely, and one that has enqueued the successor completes: it does not
   crash or fail, and its lease does not run out before.
   */
  ghost predicate Prompt(s: Sys, a: Act) {
    && (Actor(a).Some? && Actor(a).value in s.q.execs && s.q.execs[Actor(a).value].kind == PollQuotes ==>
          Q.Live(s.q, Actor(a).value))
    && (forall e :: Completing(s, e) ==>
          && a != CrashWorker(e) && a != HandlerFails(e)
          && (a.QueueStep? && a.qa.Tick? ==> s.q.clock + a.qa.dt <= s.q.execs[e].lease))
  }

  /** A completing execution is live and has not failed. */
  ghost predicate OnItsWay(s: Sys) {
    forall e :: Completing(s, e) ==>
      Q.Live(s.q, e) && (s.q.execs[e].phase == Q.Working || s.q.execs[e].phase == Q.Succeeded)
  }

  /** A rearmed job is done or about to be completed, and nobody else works on it. */
  ghost predicate Resting(s: Sys, j: nat) {
    && (forall e :: Q.Live(s.q, e) && s.q.execs[e].job == j ==> Completing(s, e))
    && ((j in s.q.tables.jobs && s.q.tables.jobs[j].status == Done)
        || exists e :: Q.Live(s.q, e) && s.q.execs[e].job == j && Completing(s, e))
  }

  lemma CompletingComesFrom(s: Sys, a: Act, s': Sys, e: nat)
    requires Next(s, a, s') && Completing(s', e)
    ensures e in s.q.execs && s'.q.execs[e].job == s.q.execs[e].job && s'.q.execs[e].lease == s.q.execs[e].lease
    ensures Completing(s, e) || a == Rearm(e)
    ensures s.q.execs[e].kind == PollQuotes
  {
    FinishedComesFrom(s, a, s', e);
    if Finishes(a, e) {
      FinishesByRearm(s, a, e);
    }
  }

  lemma CompletingPhase(s: Sys, a: Act, s': Sys, e: nat)
    requires Next(s, a, s') && Completing(s', e) && a != HandlerFails(e)
    requires Completing(s, e) ==> s.q.execs[e].phase == Q.Working || s.q.execs[e].phase == Q.Succeeded
    ensures s'.q.execs[e].phase == Q.Working || s'.q.execs[e].phase == Q.Succeeded
  {
    CompletingComesFrom(s, a, s', e);
  }

  lemma ClockStep(s: Sys, a: Act, s': Sys)
    requires Next(s, a, s')
    ensures s'.q.clock == if a.QueueStep? && a.qa.Tick? then s.q.clock + a.qa.dt else s.q.clock
  {
  }

  lemma OnItsWayStep(s: Sys, a: Act, s': Sys)
    requires OnItsWay(s) && Next(s, a, s') && Prompt(s, a)
    ensures OnItsWay(s')
  {
    ClockStep(s, a, s');
    forall e | Completing(s', e)
      ensures Q.Live(s'.q, e) && (s'.q.execs[e].phase == Q.Working || s'.q.execs[e].phase == Q.Succeeded)
    {
      CompletingComesFrom(s, a, s', e);
      assert Completing(s, e) ==> a != HandlerFails(e);
      CompletingPhase(s, a, s', e);
    }
  }

  /** A done row stays done unless an execution of its job that has failed acts. */
  lemma DoneRow(q: Q.Queue, a: Q.QAct, j: nat)
    requires Q.Logged(q) && Q.QEnabled(q, a) && j in q.tables.jobs && q.tables.jobs[j].status == Done
    requires a.Retry? || a.DeadDelete? ==> q.execs[a.e].job != j
    ensures j in Q.QDo(q, a).tables.jobs && Q.QDo(q, a).tables.jobs[j].status == Done
  {
  }

  /** The executions of a rearmed job that act are completing it. */
  lemma OnlyCompletingActs(s: Sys, a: Act, j: nat)
    requires Q.Logged(s.q) && OnItsWay(s) && Resting(s, j) && Enabled(s, a) && Prompt(s, a)
    requires j < |s.q.log| && s.q.log[j] == PollQuotes
    requires Actor(a).Some? && Actor(a).value in s.q.execs && s.q.execs[Actor(a).value].job == j
    ensures Completing(s, Actor(a).value) && s.q.execs[Actor(a).value].phase != Q.Failed
    ensures s.q.execs[Actor(a).value].phase != Q.DeadInserted
  {
  }

  lemma DoneStays(s: Sys, a: Act, s': Sys, j: nat)
    requires Q.Logged(s.q) && OnItsWay(s) && Resting(s, j) && Next(s, a, s') && Prompt(s, a)
    requires j in s.q.tables.jobs && s.q.tables.jobs[j].status == Done && s.q.log[j] == PollQuotes
    ensures j in s'.q.tables.jobs && s'.q.tables.jobs[j].status == Done
  {
    if QPart(s, a).Some? {
      if Actor(a).Some? && Actor(a).value in s.q.execs && s.q.execs[Actor(a).value].job == j {
        OnlyCompletingActs(s, a, j);
      }
      DoneRow(s.q, QPart(s, a).value, j);
    }
  }

  /** A completing execution goes on completing until its job is done. */
  lemma CompletingGoesOn(s: Sys, a: Act, s': Sys, e: nat)
    requires HandlersOk(s) && OnItsWay(s) && Completing(s, e) && Next(s, a, s') && Prompt(s, a)
    requires s.q.execs[e].job in s.q.tables.jobs
    ensures var j := s.q.execs[e].job;
      (Completing(s', e) && Q.Live(s'.q, e) && s'.q.execs[e].job == j)
      || (j in s'.q.tables.jobs && s'.q.tables.jobs[j].status == Done)
  {
    assert HandlerOk(s, e);
    ClockStep(s, a, s');
    if Actor(a) != Some(e) {
      ExecStays(s, a, s', e);
    }
  }

  /** Nobody claims a rearmed job again. */
  lemma NotClaimed(s: Sys, a: Act, j: nat)
    requires Q.Exclusive(s.q, j) && Resting(s, j) && Enabled(s, a)
    ensures !(a.QueueStep? && a.qa.Claim? && a.qa.id == j)
  {
  }

  lemma LiveStaysCompleting(s: Sys, a: Act, s': Sys, j: nat, e: nat)
    requires HandlersOk(s) && OnItsWay(s) && Resting(s, j) && Next(s, a, s')
    requires !(a.QueueStep? && a.qa.Claim? && a.qa.id == j)
    requires Q.Live(s'.q, e) && s'.q.execs[e].job == j
    ensures Completing(s', e)
  {
    ExecComesFrom(s, a, s', e);
    if e in s.q.execs && e != s.q.nextExec {
      assert Q.Live(s.q, e);
    }
  }

  lemma RestingStep(s: Sys, a: Act, s': Sys, j: nat)
    requires Q.Logged(s.q) && Q.Exclusive(s.q, j) && HandlersOk(s) && OnItsWay(s) && Resting(s, j)
    requires Next(s, a, s') && Prompt(s, a) && j < |s.q.log| && s.q.log[j] == PollQuotes
    ensures Resting(s', j)
  {
    NotClaimed(s, a, j);
    forall e | Q.Live(s'.q, e) && s'.q.execs[e].job == j
      ensures Completing(s', e)
    {
      LiveStaysCompleting(s, a, s', j, e);
    }
    if j in s.q.tables.jobs && s.q.tables.jobs[j].status == Done {
      DoneStays(s, a, s', j);
    } else {
      var e :| Q.Live(s.q, e) && s.q.execs[e].job == j && Completing(s, e);
      CompletingGoesOn(s, a, s', e);
    }
  }

  /** The job that a live execution rearms was not rearmed before, and rests from then on. */
  lemma FirstRearm(s: Sys, a: Act, s': Sys)
    requires Q.Logged(s.q) && Next(s, a, s') && Prompt(s, a) && a.Rearm? && a.e in s.q.execs
    requires Q.Exclusive(s.q, s.q.execs[a.e].job)
    ensures !Resting(s, s.q.execs[a.e].job) && Resting(s', s.q.execs[a.e].job)
  {
    var j := s.q.execs[a.e].job;
    assert Q.Live(s.q, a.e) && !Completing(s, a.e);
    assert Completing(s', a.e) && Q.Live(s'.q, a.e) && s'.q.execs[a.e].job == j;
    assert s'.q.execs == s.q.execs && s'.q.clock == s.q.clock;
  }

  /** Rearmed jobs rest, so no job is rearmed twice. */
  ghost predicate ChainOk(s: Sys, t: Tally) {
    && OnItsWay(s) && t.repeats == 0
    && (forall j :: j in t.rearmed ==> Resting(s, j))
    && (forall j :: j in Polls(s.q.log) ==> Q.Exclusive(s.q, j))
  }

  lemma PollTimely(s: Sys, a: Act, j: nat)
    requires Q.Logged(s.q) && Enabled(s, a) && Prompt(s, a) && QPart(s, a).Some? && j in Polls(s.q.log)
    ensures Q.TimelyOn(s.q, QPart(s, a).value, j)
  {
  }

  lemma PollExclusive(s: Sys, a: Act, s': Sys, j: nat)
    requires Q.Logged(s.q) && Next(s, a, s') && Prompt(s, a) && j in Polls(s'.q.log)
    requires j in Polls(s.q.log) ==> Q.Exclusive(s.q, j)
    ensures Q.Exclusive(s'.q, j)
  {
    LogStep(s, a, s');
    if QPart(s, a).Some? {
      if j < |s.q.log| {
        PollTimely(s, a, j);
        Q.ExclusiveStep(s.q, QPart(s, a).value, j);
      } else {
        assert forall e :: e in s'.q.execs ==> s'.q.execs[e].job < |s.q.log|;
      }
    }
  }

  lemma RearmedRest(s: Sys, a: Act, s': Sys, t: Tally, j: nat)
    requires Q.Logged(s.q) && HandlersOk(s) && TallyOk(s, t) && ChainOk(s, t) && Next(s, a, s') && Prompt(s, a)
    requires j in Tallied(t, s, a).rearmed
    ensures Resting(s', j)
  {
    if j in t.rearmed {
      assert j in Polls(s.q.log);
      RestingStep(s, a, s', j);
    } else {
      RearmsAPoll(s, a);
      FirstRearm(s, a, s');
    }
  }

  lemma NoRepeat(s: Sys, a: Act, s': Sys, t: Tally)
    requires Q.Logged(s.q) && ChainOk(s, t) && Next(s, a, s') && Prompt(s, a)
    ensures Tallied(t, s, a).repeats == 0
  {
    if a.Rearm? {
      RearmsAPoll(s, a);
      FirstRearm(s, a, s');
    }
  }

  lemma ChainStep(s: Sys, a: Act, s': Sys, t: Tally)
    requires Q.Logged(s.q) && HandlersOk(s) && TallyOk(s, t) && ChainOk(s, t) && Next(s, a, s') && Prompt(s, a)
    ensures ChainOk(s', Tallied(t, s, a))
  {
    OnItsWayStep(s, a, s');
    NoRepeat(s, a, s', t);
    forall j | j in Polls(s'.q.log)
      ensures Q.Exclusive(s'.q, j)
    {
      PollExclusive(s, a, s', j);
    }
    forall j | j in Tallied(t, s, a).rearmed
      ensures Resting(s', j)
    {
      RearmedRest(s, a, s', t, j);
    }
  }

  lemma {:induction false} ChainRun(ss: seq<Sys>, acts: seq<Act>, i: nat)
    requires Run(ss, acts) && i < |ss| && forall k :: 0 <= k < |acts| ==> Prompt(ss[k], acts[k])
    ensures ChainOk(ss[i], TallyAt(ss, acts, i))
  {
    if i == 0 {
      assert SysInit(ss[0]);
    } else {
      var k := i - 1;
      ChainRun(ss, acts, k);
      TallyRun(ss, acts, k);
      StepFacts(ss, acts, k);
      ChainStep(ss[k], acts[k], ss[i], TallyAt(ss, acts, k));
    }
  }

  /**
   One chain stays one.  If poll executions are timely and those that have enqueued the
   successor complete before their leases run out, and seeding is done alone, then in every
   run there is at most one seed and no job is rearmed twice: beside the one job that has
   no successor, only jobs about to be completed are outstanding.
   */
  lemma {:induction false} PromptChainIsOne(ss: seq<Sys>, acts: seq<Act>, i: nat)
    requires Run(ss, acts) && i < |ss|
    requires forall k :: 0 <= k < |acts| ==> Prompt(ss[k], acts[k]) && SeedsAlone(ss[k], acts[k])
    ensures var t := TallyAt(ss, acts, i);
      t.seeds <= 1 && t.repeats == 0 && forall j :: j in t.rearmed ==> Resting(ss[i], j)
  {
    ChainRun(ss, acts, i);
    SeededOnce(ss, acts, i);
  }
}
