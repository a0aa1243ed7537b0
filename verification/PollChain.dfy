/**
 How many poll_quotes jobs there are.  A poll job is recurring: its handler enqueues
 a successor.  Seeding twice, or running one job's handler twice, forks the chain.
 */
module PollChain {
  import opened Prelude
  import opened JobTables
  import Q = QueueMachine
  import L = LedgerMachine
  import opened System
  import opened SystemSafety
  import opened EndToEnd

  /** What has happened to the chain: seeds, jobs that have enqueued a successor, and repetitions of that. */
  datatype Tally = Tally(seeds: nat, rearmed: set<nat>, repeats: nat)

  const NOTHING := Tally(0, {}, 0)

  function Tallied(t: Tally, s: Sys, a: Act): Tally {
    if a.SeedEnqueue? then t.(seeds := t.seeds + 1)
    else if a.Rearm? && a.e in s.q.execs then
      var j := s.q.execs[a.e].job;
      if j in t.rearmed then t.(repeats := t.repeats + 1) else t.(rearmed := t.rearmed + {j})
    else t
  }

  /** The tally of the first i steps of a run. */
  ghost function TallyAt(ss: seq<Sys>, acts: seq<Act>, i: nat): Tally
    requires i <= |acts| && i <= |ss|
  {
    if i == 0 then NOTHING else Tallied(TallyAt(ss, acts, i - 1), ss[i - 1], acts[i - 1])
  }

  function Polls(log: seq<Kind>): set<nat> {
    set j: nat | j < |log| && log[j] == PollQuotes
  }

  /** Poll jobs that have not enqueued a successor are unfinished; every other poll job is accounted for. */
  ghost predicate TallyOk(s: Sys, t: Tally) {
    && t.rearmed <= Polls(s.q.log)
    && |Polls(s.q.log)| == t.seeds + |t.rearmed| + t.repeats
    && (t.seeds == 0 ==> Polls(s.q.log) == {})
    && (forall j :: j in Polls(s.q.log) && j !in t.rearmed ==> Unfinished(s, j))
  }

  lemma PollsAppend(log: seq<Kind>, k: Kind)
    ensures Polls(log + [k]) == if k == PollQuotes then Polls(log) + {|log|} else Polls(log)
    ensures |Polls(log + [k])| == |Polls(log)| + if k == PollQuotes then 1 else 0
  {
    assert Polls(log + [k]) == if k == PollQuotes then Polls(log) + {|log|} else Polls(log);
  }

  /** A poll handler comes to its return of nil only by the step that rearms its job. */
  lemma FinishesByRearm(s: Sys, a: Act, e: nat)
    requires Enabled(s, a) && Finishes(a, e) && e in s.q.execs && s.q.execs[e].kind == PollQuotes
    ensures a.Rearm? && a.e == e
  {
  }

  lemma UnrearmedStep(s: Sys, a: Act, s': Sys, t: Tally, j: nat)
    requires Q.Logged(s.q) && HandlersOk(s) && TallyOk(s, t) && Next(s, a, s')
    requires j in Polls(s'.q.log) && j !in Tallied(t, s, a).rearmed
    ensures Unfinished(s', j)
  {
    LogStep(s, a, s');
    if j == |s.q.log| {
      FreshUnfinished(s, a, s');
    } else {
      assert j in Polls(s.q.log);
      forall e | Finishes(a, e) && e in s.q.execs && s.q.execs[e].job == j
        ensures s'.pcs[e] != Finished
      {
        FinishesByRearm(s, a, e);
      }
      UnfinishedStep(s, a, s', j);
    }
  }

  /** Poll jobs are enqueued by seeding and by rearming, and by nothing else. */
  lemma PollsStep(s: Sys, a: Act, s': Sys)
    requires Next(s, a, s')
    ensures Polls(s'.q.log) == if a.SeedEnqueue? || a.Rearm? then Polls(s.q.log) + {|s.q.log|} else Polls(s.q.log)
    ensures |Polls(s'.q.log)| == |Polls(s.q.log)| + if a.SeedEnqueue? || a.Rearm? then 1 else 0
  {
    LogStep(s, a, s');
    if Enqueued(s, a).Some? {
      PollsAppend(s.q.log, Enqueued(s, a).value);
    }
  }

  lemma RearmsAPoll(s: Sys, a: Act)
    requires Q.Logged(s.q) && Enabled(s, a) && a.Rearm?
    ensures a.e in s.q.execs && s.q.execs[a.e].job in Polls(s.q.log)
  {
  }

  lemma TallyStep(s: Sys, a: Act, s': Sys, t: Tally)
    requires Q.Logged(s.q) && HandlersOk(s) && TallyOk(s, t) && Next(s, a, s')
    ensures TallyOk(s', Tallied(t, s, a))
  {
    var t' := Tallied(t, s, a);
    assert t'.rearmed <= Polls(s'.q.log) && |Polls(s'.q.log)| == t'.seeds + |t'.rearmed| + t'.repeats
      && (t'.seeds == 0 ==> Polls(s'.q.log) == {}) by {
      PollsStep(s, a, s');
      if a.Rearm? {
        RearmsAPoll(s, a);
      }
    }
    forall j | j in Polls(s'.q.log) && j !in t'.rearmed
      ensures Unfinished(s', j)
    {
      UnrearmedStep(s, a, s', t, j);
    }
  }

  lemma TallyNext(ss: seq<Sys>, acts: seq<Act>, k: nat, t: Tally)
    requires Run(ss, acts) && k < |acts| && TallyOk(ss[k], t)
    ensures TallyOk(ss[k + 1], Tallied(t, ss[k], acts[k]))
  {
    assert Q.Logged(ss[k].q) && HandlersOk(ss[k]) by {
      SysOkRun(ss, acts, k);
    }
    assert StepAt(ss, acts, k);
    TallyStep(ss[k], acts[k], ss[k + 1], t);
  }

  lemma TallyStart(s: Sys)
    requires SysInit(s)
    ensures TallyOk(s, NOTHING)
  {
    assert Polls([]) == {};
  }

  lemma {:induction false} TallyRun(ss: seq<Sys>, acts: seq<Act>, i: nat)
    requires Run(ss, acts) && i < |ss|
    ensures TallyOk(ss[i], TallyAt(ss, acts, i))
  {
    if i == 0 {
      TallyStart(ss[0]);
    } else {
      var k := i - 1;
      TallyRun(ss, acts, k);
      TallyNext(ss, acts, k, TallyAt(ss, acts, k));
    }
  }

  // ------------------------------------------------------ how many are outstanding

  /** Poll jobs that still have to run: queued, inflight or dead-lettered. */
  function OutstandingPolls(s: Sys): set<nat> {
    set j | j in Polls(s.q.log) && Outstanding(s, j)
  }

  lemma CountPolls(s: Sys, t: Tally)
    requires TallyOk(s, t) && Q.Covered(s.q)
    ensures |OutstandingPolls(s)| == t.seeds + t.repeats + |set j | j in t.rearmed && Outstanding(s, j)|
  {
    var polls, tips, again := Polls(s.q.log), Polls(s.q.log) - t.rearmed, set j | j in t.rearmed && Outstanding(s, j);
    assert polls == tips + t.rearmed;
    assert |polls| == |tips| + |t.rearmed|;
    forall j | j in tips
      ensures Outstanding(s, j)
    {
      assert j < |s.q.log|;
    }
    assert OutstandingPolls(s) == tips + again;
    assert |tips + again| == |tips| + |again|;
  }

  /**
   How many recurring poll jobs there are.  In every state of every run the poll jobs
   that still have to run number one for each seed, one for each time a job's handler
   enqueued a successor again, and one for each job whose handler has enqueued a
   successor but which is not done yet.
   */
  lemma {:induction false} PollCount(ss: seq<Sys>, acts: seq<Act>, i: nat)
    requires Run(ss, acts) && i < |ss|
    ensures var t := TallyAt(ss, acts, i);
      |OutstandingPolls(ss[i])| == t.seeds + t.repeats + |set j | j in t.rearmed && Outstanding(ss[i], j)|
  {
    TallyRun(ss, acts, i);
    assert Q.Covered(ss[i].q) by {
      SysOkRun(ss, acts, i);
    }
    CountPolls(ss[i], TallyAt(ss, acts, i));
  }

  /**
   "Exactly one recurring poll job" holds if and only if the chain was seeded once, no
   job's handler enqueued a successor twice, and every job that has a successor is done.
   */
  lemma {:induction false} OnePollIff(ss: seq<Sys>, acts: seq<Act>, i: nat)
    requires Run(ss, acts) && i < |ss|
    ensures var t := TallyAt(ss, acts, i);
      |OutstandingPolls(ss[i])| == 1
      <==> t.seeds == 1 && t.repeats == 0 && forall j :: j in t.rearmed ==> !Outstanding(ss[i], j)
  {
    TallyRun(ss, acts, i);
    assert Q.Covered(ss[i].q) by {
      SysOkRun(ss, acts, i);
    }
    OnePoll(ss[i], TallyAt(ss, acts, i));
  }

  lemma OnePoll(s: Sys, t: Tally)
    requires TallyOk(s, t) && Q.Covered(s.q)
    ensures |OutstandingPolls(s)| == 1
            <==> t.seeds == 1 && t.repeats == 0 && forall j :: j in t.rearmed ==> !Outstanding(s, j)
  {
    CountPolls(s, t);
    var again := set j | j in t.rearmed && Outstanding(s, j);
    if |again| == 0 {
      assert forall j :: j in t.rearmed && Outstanding(s, j) ==> j in again;
    } else {
      var j :| j in again;
      assert Outstanding(s, j);
    }
  }

  // ---------------------------------------------------------------------- seeding

  /** No check for an active poll job overlaps another, or happens while a poll job is dead-lettered. */
  predicate SeedsAlone(s: Sys, a: Act) {
    a.SeedCheck? ==> s.seeders == 0 && forall j :: j in s.q.tables.dead ==> s.q.tables.dead[j].kind != PollQuotes
  }

  lemma SeededStaysActive(s: Sys, t: Tally)
    requires Q.Logged(s.q) && Q.Covered(s.q) && TallyOk(s, t) && t.seeds > 0
    requires forall j :: j in s.q.tables.dead ==> s.q.tables.dead[j].kind != PollQuotes
    ensures HasActive(s.q.tables.jobs, PollQuotes)
  {
    var polls, tips := Polls(s.q.log), Polls(s.q.log) - t.rearmed;
    assert polls == tips + t.rearmed;
    assert |polls| == |tips| + |t.rearmed|;
    var j :| j in tips;
    assert j < |s.q.log| && Unfinished(s, j);
    assert j in s.q.tables.jobs || j in s.q.tables.dead;
  }

  lemma SeedersStep(s: Sys, a: Act, s': Sys, t: Tally)
    requires Next(s, a, s')
    ensures Tallied(t, s, a).seeds + s'.seeders
            == t.seeds + s.seeders + if a.SeedCheck? then 1 else if a.SeedAbandon? then -1 else 0
    ensures a.SeedCheck? ==> !HasActive(s.q.tables.jobs, PollQuotes)
  {
  }

  /**
   The check of seedPoller does its work when checks do not overlap and no poll job is
   dead-lettered: the chain is then seeded at most once, in every run, across any
   number of worker restarts.
   */
  lemma {:induction false} SeededOnce(ss: seq<Sys>, acts: seq<Act>, i: nat)
    requires Run(ss, acts) && i < |ss| && forall k :: 0 <= k < |acts| ==> SeedsAlone(ss[k], acts[k])
    ensures TallyAt(ss, acts, i).seeds + ss[i].seeders <= 1
  {
    if i > 0 {
      SeededOnce(ss, acts, i - 1);
      SeedNext(ss, acts, i - 1);
    } else {
      assert SysInit(ss[0]);
    }
  }

  lemma SeedNext(ss: seq<Sys>, acts: seq<Act>, k: nat)
    requires Run(ss, acts) && k < |acts| && SeedsAlone(ss[k], acts[k])
    requires TallyAt(ss, acts, k).seeds + ss[k].seeders <= 1
    ensures TallyAt(ss, acts, k + 1).seeds + ss[k + 1].seeders <= 1
  {
    var t := TallyAt(ss, acts, k);
    assert StepAt(ss, acts, k);
    SeedersStep(ss[k], acts[k], ss[k + 1], t);
    if acts[k].SeedCheck? && t.seeds > 0 {
      assert Q.Logged(ss[k].q) && Q.Covered(ss[k].q) by {
        SysOkRun(ss, acts, k);
      }
      TallyRun(ss, acts, k);
      SeededStaysActive(ss[k], t);
    }
  }
}
