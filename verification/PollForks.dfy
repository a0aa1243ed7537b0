/** Runs in which the poll chain forks: two workers that seed together, and one crash. */
module PollForks {
  import opened Prelude
  import opened JobTables
  import Q = QueueMachine
  import L = LedgerMachine
  import opened System
  import opened Races

  /** A system with nothing but poll jobs. */
  function PollSys(q: Q.Queue, pcs: map<nat, Pc>, seeders: nat): Sys {
    Sys(q, L.Ledger([], map[], {}), [], pcs, multiset{}, seeders, [], map[])
  }

  function PollQueue(clock: int, jobs: map<nat, Job>, execs: map<nat, Q.Exec>, next: nat, log: seq<Kind>,
                     reapedAt: Option<int>): Q.Queue
  {
    Q.Queue(clock, Tables(jobs, map[]), execs, next, log, map[], {}, reapedAt)
  }

  function Poll(status: Status, runAt: int, attempts: nat, leasedUntil: Option<int>): Job {
    Job(PollQuotes, 0, runAt, status, attempts, 1_000_000, leasedUntil)
  }

  function Polling(job: nat, attempts: nat, lease: int, phase: Q.Phase): Q.Exec {
    Q.Exec(job, PollQuotes, attempts, 1_000_000, lease, phase)
  }

  lemma BothCheck() returns (ss: seq<Sys>, acts: seq<Act>)
    ensures Good(ss, acts, {}) && Last(ss) == PollSys(PollQueue(0, map[], map[], 0, [], None), map[], 2)
  {
    ss, acts := [PollSys(PollQueue(0, map[], map[], 0, [], None), map[], 0)], [];
    ss, acts := Extend(ss, acts, {}, SeedCheck);
    ss, acts := Extend(ss, acts, {}, SeedCheck);
  }

  /** Two workers that start together both find no poll job and both seed one. */
  lemma TwoSeedersSeedTwice() returns (ss: seq<Sys>, acts: seq<Act>)
    ensures Good(ss, acts, {})
    ensures Last(ss).q.tables.jobs == map[0 := Poll(Queued, 0, 0, None), 1 := Poll(Queued, 0, 0, None)]
  {
    ss, acts := BothCheck();
    ss, acts := Extend(ss, acts, {}, SeedEnqueue);
    ss, acts := Extend(ss, acts, {}, SeedEnqueue);
  }

  lemma DoQueuePart(ss: seq<Sys>, acts: seq<Act>, q: Q.Queue, pcs: map<nat, Pc>, qa: Q.QAct, q': Q.Queue)
    returns (ss': seq<Sys>, acts': seq<Act>)
    requires Good(ss, acts, {}) && Last(ss) == PollSys(q, pcs, 0) && PureQueueStep(qa)
    requires Q.QEnabled(q, qa) && q' == Q.QDo(q, qa) && Q.Timely(q, qa) && Q.NonnegativeLease(qa) && Q.AtomicReap(q, qa)
    ensures Good(ss', acts', {}) && Last(ss') == PollSys(q', if qa.Claim? then pcs[q.nextExec := Start] else pcs, 0)
  {
    ss', acts' := Extend(ss, acts, {}, QueueStep(qa));
  }

  lemma DoRearm(ss: seq<Sys>, acts: seq<Act>, q: Q.Queue, pcs: map<nat, Pc>, e: nat)
    returns (ss': seq<Sys>, acts': seq<Act>)
    requires Good(ss, acts, {}) && Last(ss) == PollSys(q, pcs, 0) && Q.Live(q, e) && e in pcs && pcs[e] == Start
    requires q.execs[e].kind == PollQuotes && q.execs[e].phase == Q.Working
    ensures Good(ss', acts', {})
    ensures Last(ss')
            == PollSys(Q.QDo(q, Q.Enqueue(PollQuotes, 0, q.clock + POLL_EVERY, 1_000_000)), pcs[e := Finished], 0)
  {
    ss', acts' := Extend(ss, acts, {}, Rearm(e));
  }

  lemma DoCrash(ss: seq<Sys>, acts: seq<Act>, q: Q.Queue, pcs: map<nat, Pc>, e: nat)
    returns (ss': seq<Sys>, acts': seq<Act>)
    requires Good(ss, acts, {}) && Last(ss) == PollSys(q, pcs, 0) && e in q.execs
    ensures Good(ss', acts', {}) && Last(ss') == PollSys(Q.QDo(q, Q.Crash(e)), pcs, 0)
  {
    ss', acts' := Extend(ss, acts, {}, CrashWorker(e));
  }

  lemma DoReturn(ss: seq<Sys>, acts: seq<Act>, q: Q.Queue, pcs: map<nat, Pc>, e: nat)
    returns (ss': seq<Sys>, acts': seq<Act>)
    requires Good(ss, acts, {}) && Last(ss) == PollSys(q, pcs, 0) && Q.Live(q, e) && e in pcs && pcs[e] == Finished
    requires q.execs[e].phase == Q.Working
    ensures Good(ss', acts', {}) && Last(ss') == PollSys(Q.QDo(q, Q.Return(e, true)), pcs, 0)
  {
    ss', acts' := Extend(ss, acts, {}, HandlerReturns(e));
  }

  const SEEDED := PollQueue(0, map[0 := Poll(Queued, 0, 0, None)], map[], 0, [PollQuotes], None)

  lemma Seeded() returns (ss: seq<Sys>, acts: seq<Act>)
    ensures Good(ss, acts, {}) && Last(ss) == PollSys(SEEDED, map[], 0)
  {
    ss, acts := [PollSys(PollQueue(0, map[], map[], 0, [], None), map[], 0)], [];
    ss, acts := Extend(ss, acts, {}, SeedCheck);
    ss, acts := Extend(ss, acts, {}, SeedEnqueue);
  }

  const REARMED := PollQueue(0, map[0 := Poll(Inflight, 0, 1, Some(1)), 1 := Poll(Queued, POLL_EVERY, 0, None)],
                             map[0 := Polling(0, 1, 1, Q.Working)], 1, [PollQuotes, PollQuotes], None)

  /** A worker claims the seeded job and enqueues the successor. */
  lemma RearmedOnce() returns (ss: seq<Sys>, acts: seq<Act>)
    ensures Good(ss, acts, {}) && Last(ss) == PollSys(REARMED, map[0 := Finished], 0)
  {
    ss, acts := Seeded();
    var q := PollQueue(0, map[0 := Poll(Inflight, 0, 1, Some(1))], map[0 := Polling(0, 1, 1, Q.Working)], 1,
                       [PollQuotes], None);
    ss, acts := DoQueuePart(ss, acts, SEEDED, map[], Q.Claim(0, 1), q);
    ss, acts := DoRearm(ss, acts, q, map[0 := Start], 0);
    assert map[0 := Start][0 := Finished] == map[0 := Finished];
    assert Q.QDo(q, Q.Enqueue(PollQuotes, 0, POLL_EVERY, 1_000_000)) == REARMED;
  }

  const ORPHANED := PollQueue(2, REARMED.tables.jobs, map[], 1, [PollQuotes, PollQuotes], None)

  /** It crashes before it completes its job, and the lease runs out. */
  lemma CrashedLate() returns (ss: seq<Sys>, acts: seq<Act>)
    ensures Good(ss, acts, {}) && Last(ss) == PollSys(ORPHANED, map[0 := Finished], 0)
  {
    ss, acts := RearmedOnce();
    ss, acts := DoCrash(ss, acts, REARMED, map[0 := Finished], 0);
    var q := ORPHANED.(clock := 0);
    assert Q.QDo(REARMED, Q.Crash(0)) == q;
    ss, acts := DoQueuePart(ss, acts, q, map[0 := Finished], Q.Tick(2), ORPHANED);
  }

  const REQUEUED := PollQueue(2, map[0 := Poll(Queued, 0, 1, None), 1 := Poll(Queued, POLL_EVERY, 0, None)],
                              map[], 1, [PollQuotes, PollQuotes], Some(2))

  /** The reaper requeues the job beside its successor. */
  lemma CrashedPollIsRequeued() returns (ss: seq<Sys>, acts: seq<Act>)
    ensures Good(ss, acts, {}) && Last(ss) == PollSys(REQUEUED, map[0 := Finished], 0)
  {
    ss, acts := CrashedLate();
    var pcs: map<nat, Pc> := map[0 := Finished];
    ReapsOrphan();
    ss, acts := DoQueuePart(ss, acts, ORPHANED, pcs, Q.ReapFirst, ORPHANED.(reapedAt := Some(2)));
    ss, acts := DoQueuePart(ss, acts, ORPHANED.(reapedAt := Some(2)), pcs, Q.ReapSecond, REQUEUED);
  }

  lemma ReapsOrphan()
    ensures Q.QDo(ORPHANED, Q.ReapFirst) == ORPHANED.(reapedAt := Some(2))
    ensures Q.QDo(ORPHANED.(reapedAt := Some(2)), Q.ReapSecond) == REQUEUED
  {
    var t := ORPHANED.tables;
    assert Doomed(t.jobs, 2) == {};
    assert ReapDead(t, 2) == t;
    assert ReapRequeue(t, 2) == REQUEUED.tables;
  }

  const FORKED := PollQueue(2, map[0 := Poll(Inflight, 0, 2, Some(3)), 1 := Poll(Queued, POLL_EVERY, 0, None),
                                   2 := Poll(Queued, 2 + POLL_EVERY, 0, None)],
                            map[1 := Polling(0, 2, 3, Q.Working)], 2, [PollQuotes, PollQuotes, PollQuotes], Some(2))

  /** The requeued job runs again and enqueues a second successor. */
  lemma RearmedTwice() returns (ss: seq<Sys>, acts: seq<Act>)
    ensures Good(ss, acts, {}) && Last(ss) == PollSys(FORKED, map[0 := Finished, 1 := Finished], 0)
  {
    ss, acts := CrashedPollIsRequeued();
    var q := PollQueue(2, map[0 := Poll(Inflight, 0, 2, Some(3)), 1 := Poll(Queued, POLL_EVERY, 0, None)],
                       map[1 := Polling(0, 2, 3, Q.Working)], 2, [PollQuotes, PollQuotes], Some(2));
    assert Q.QDo(REQUEUED, Q.Claim(0, 1)) == q;
    ss, acts := DoQueuePart(ss, acts, REQUEUED, map[0 := Finished], Q.Claim(0, 1), q);
    ss, acts := DoRearm(ss, acts, q, map[0 := Finished][1 := Start], 1);
    assert map[0 := Finished][1 := Start][1 := Finished] == map[0 := Finished, 1 := Finished];
    assert Q.QDo(q, Q.Enqueue(PollQuotes, 0, 2 + POLL_EVERY, 1_000_000)) == FORKED;
  }

  /**
   One crash forks the chain for good: in a run with timely workers, one seed and an atomic
   reaper, the requeued job runs again and leaves two successors.
   */
  lemma CrashForksTheChain() returns (ss: seq<Sys>, acts: seq<Act>)
    ensures Good(ss, acts, {})
    ensures var jobs := Last(ss).q.tables.jobs;
      && jobs.Keys == {0, 1, 2} && jobs[0].status == Done
      && jobs[1].status == Queued && jobs[1].kind == PollQuotes
      && jobs[2].status == Queued && jobs[2].kind == PollQuotes
  {
    ss, acts := RearmedTwice();
    var pcs: map<nat, Pc> := map[0 := Finished, 1 := Finished];
    ss, acts := DoReturn(ss, acts, FORKED, pcs, 1);
    var q := FORKED.(execs := map[1 := Polling(0, 2, 3, Q.Succeeded)]);
    assert Q.QDo(FORKED, Q.Return(1, true)) == q;
    ss, acts := DoQueuePart(ss, acts, q, pcs, Q.Complete(1), Q.QDo(q, Q.Complete(1)));
  }
}
