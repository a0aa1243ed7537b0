/**
 Every run of the system projects to a run of the queue machine and to a run of
 the ledger machine, so what those machines keep, the system keeps.
 */
module Projection {
  import opened Prelude
  import opened Model
  import opened JobTables
  import Q = QueueMachine
  import L = LedgerMachine
  import opened System
  import opened SystemSafety
  import opened Book
  import LedgerSafety
  import QueueSafety
  import RetryBound

  predicate IsQueuePart(s: Sys, a: Act, q: Q.Queue, qa: Q.QAct) {
    Enabled(s, a) && s.q == q && QPart(s, a) == Some(qa)
  }

  /** Step m of the queue run is the queue part of some earlier step of the system run. */
  ghost predicate QueueStepFrom(ss: seq<Sys>, acts: seq<Act>, i: nat, q: Q.Queue, qa: Q.QAct)
    requires Run(ss, acts)
  {
    exists k :: 0 <= k < i && k < |acts| && IsQueuePart(ss[k], acts[k], q, qa)
  }

  lemma QueueMove(s: Sys, a: Act, s': Sys) returns (part: Option<Q.QAct>)
    requires Next(s, a, s')
    ensures QueuePartOf(s, a) == if part.Some? then [part.value] else []
    ensures part.None? ==> s'.q == s.q
    ensures part.Some? ==>
      Q.QEnabled(s.q, part.value) && s'.q == Q.QDo(s.q, part.value) && IsQueuePart(s, a, s.q, part.value)
  {
    part := QPart(s, a);
  }

  function QueuePartOf(s: Sys, a: Act): seq<Q.QAct> {
    if Enabled(s, a) && QPart(s, a).Some? then [QPart(s, a).value] else []
  }

  /** The queue parts of the first i steps, in order. */
  ghost function QueueParts(ss: seq<Sys>, acts: seq<Act>, i: nat): seq<Q.QAct>
    requires i <= |acts| && i <= |ss|
  {
    if i == 0 then [] else QueueParts(ss, acts, i - 1) + QueuePartOf(ss[i - 1], acts[i - 1])
  }

  /**
   A run of the queue machine that ends in this queue and takes exactly the queue parts of
   the system's steps, in order, each from the state in which the system took it.
   */
  ghost predicate QueueRunTo(ss: seq<Sys>, acts: seq<Act>, i: nat, qs: seq<Q.Queue>, qacts: seq<Q.QAct>)
    requires Run(ss, acts) && i < |ss|
  {
    && Q.QRun(qs, qacts) && qs[|qs| - 1] == ss[i].q && qacts == QueueParts(ss, acts, i)
    && forall m :: 0 <= m < |qacts| ==> QueueStepFrom(ss, acts, i, qs[m], qacts[m])
  }

  lemma StepFromLater(ss: seq<Sys>, acts: seq<Act>, i: nat, q: Q.Queue, qa: Q.QAct)
    requires Run(ss, acts) && QueueStepFrom(ss, acts, i, q, qa)
    ensures QueueStepFrom(ss, acts, i + 1, q, qa)
  {
    var k :| 0 <= k < i && k < |acts| && IsQueuePart(ss[k], acts[k], q, qa);
    assert 0 <= k < i + 1 && k < |acts| && IsQueuePart(ss[k], acts[k], q, qa);
  }

  lemma QueueNext(ss: seq<Sys>, acts: seq<Act>, k: nat, qs: seq<Q.Queue>, qacts: seq<Q.QAct>)
    returns (qs': seq<Q.Queue>, qacts': seq<Q.QAct>)
    requires Run(ss, acts) && k < |acts| && QueueRunTo(ss, acts, k, qs, qacts)
    ensures QueueRunTo(ss, acts, k + 1, qs', qacts')
  {
    assert StepAt(ss, acts, k);
    var part := QueueMove(ss[k], acts[k], ss[k + 1]);
    if part.Some? {
      qs', qacts' := ExtendQueue(qs, qacts, part.value);
      assert QueueStepFrom(ss, acts, k + 1, ss[k].q, part.value);
    } else {
      qs', qacts' := qs, qacts;
    }
    forall m | 0 <= m < |qacts|
      ensures QueueStepFrom(ss, acts, k + 1, qs[m], qacts[m])
    {
      StepFromLater(ss, acts, k, qs[m], qacts[m]);
    }
  }

  lemma {:induction false} ToQueue(ss: seq<Sys>, acts: seq<Act>, i: nat) returns (qs: seq<Q.Queue>, qacts: seq<Q.QAct>)
    requires Run(ss, acts) && i < |ss|
    ensures QueueRunTo(ss, acts, i, qs, qacts)
  {
    if i == 0 {
      qs, qacts := [ss[0].q], [];
    } else {
      qs, qacts := ToQueue(ss, acts, i - 1);
      qs, qacts := QueueNext(ss, acts, i - 1, qs, qacts);
    }
  }

  lemma ExtendQueue(qs: seq<Q.Queue>, qacts: seq<Q.QAct>, a: Q.QAct) returns (qs': seq<Q.Queue>, qacts': seq<Q.QAct>)
    requires Q.QRun(qs, qacts) && Q.QEnabled(qs[|qs| - 1], a)
    ensures Q.QRun(qs', qacts') && qs' == qs + [Q.QDo(qs[|qs| - 1], a)] && qacts' == qacts + [a]
  {
    qs', qacts' := qs + [Q.QDo(qs[|qs| - 1], a)], qacts + [a];
  }

  /** The ledger parts of the first i steps, in order. */
  ghost function LedgerParts(ss: seq<Sys>, acts: seq<Act>, i: nat): seq<L.LAct>
    requires i <= |acts| && i <= |ss|
  {
    if i == 0 then [] else LedgerParts(ss, acts, i - 1) + PartOf(ss[i - 1], acts[i - 1])
  }

  function PartOf(s: Sys, a: Act): seq<L.LAct> {
    if Enabled(s, a) && LPart(s, a).Some? then [LPart(s, a).value] else []
  }

  lemma LedgerMove(s: Sys, a: Act, s': Sys)
    requires OrdersOk(s) && HandlersOk(s) && Next(s, a, s')
    ensures PartOf(s, a) == [] ==> s'.l == s.l
    ensures PartOf(s, a) != [] ==>
      && PartOf(s, a) == [PartOf(s, a)[0]] && L.LEnabled(s.l, PartOf(s, a)[0])
      && s'.l == L.LDo(s.l, PartOf(s, a)[0]) && L.ValidAct(PartOf(s, a)[0])
  {
    if a.BeginTx? {
      assert HandlerOk(s, a.e);
    }
  }

  lemma ExtendLedger(ls: seq<L.Ledger>, lacts: seq<L.LAct>, a: L.LAct) returns (ls': seq<L.Ledger>, lacts': seq<L.LAct>)
    requires L.LRun(ls, lacts) && L.LEnabled(ls[|ls| - 1], a)
    ensures L.LRun(ls', lacts') && ls'[|ls'| - 1] == L.LDo(ls[|ls| - 1], a) && lacts' == lacts + [a]
  {
    ls', lacts' := ls + [L.LDo(ls[|ls| - 1], a)], lacts + [a];
  }

  /** A run of the ledger machine with validated orders that ends in this ledger. */
  ghost predicate LedgerRunTo(ls: seq<L.Ledger>, lacts: seq<L.LAct>, l: L.Ledger) {
    L.LRun(ls, lacts) && ls[|ls| - 1] == l && forall m :: 0 <= m < |lacts| ==> L.ValidAct(lacts[m])
  }

  lemma FollowStep(ls: seq<L.Ledger>, lacts: seq<L.LAct>, s: Sys, a: Act, s': Sys)
    returns (ls': seq<L.Ledger>, lacts': seq<L.LAct>)
    requires OrdersOk(s) && HandlersOk(s) && Next(s, a, s') && LedgerRunTo(ls, lacts, s.l)
    ensures LedgerRunTo(ls', lacts', s'.l) && lacts' == lacts + PartOf(s, a)
  {
    LedgerMove(s, a, s');
    if PartOf(s, a) != [] {
      ls', lacts' := ExtendLedger(ls, lacts, PartOf(s, a)[0]);
    } else {
      ls', lacts' := ls, lacts;
    }
  }

  lemma FollowNext(ls: seq<L.Ledger>, lacts: seq<L.LAct>, ss: seq<Sys>, acts: seq<Act>, k: nat)
    returns (ls': seq<L.Ledger>, lacts': seq<L.LAct>)
    requires Run(ss, acts) && k < |acts| && LedgerRunTo(ls, lacts, ss[k].l)
    ensures LedgerRunTo(ls', lacts', ss[k + 1].l) && lacts' == lacts + PartOf(ss[k], acts[k])
  {
    assert OrdersOk(ss[k]) && HandlersOk(ss[k]) by {
      SysOkRun(ss, acts, k);
    }
    assert StepAt(ss, acts, k);
    ls', lacts' := FollowStep(ls, lacts, ss[k], acts[k], ss[k + 1]);
  }

  /** The run of the ledger machine takes exactly the ledger parts of the system's steps, in order. */
  lemma {:induction false} ToLedger(ss: seq<Sys>, acts: seq<Act>, i: nat)
    returns (ls: seq<L.Ledger>, lacts: seq<L.LAct>)
    requires Run(ss, acts) && i < |ss|
    ensures LedgerRunTo(ls, lacts, ss[i].l) && lacts == LedgerParts(ss, acts, i)
  {
    if i == 0 {
      ls, lacts := [ss[0].l], [];
      EmptyLedgerRun(ss[0].l);
    } else {
      ls, lacts := ToLedger(ss, acts, i - 1);
      ls, lacts := FollowNext(ls, lacts, ss, acts, i - 1);
    }
  }

  lemma EmptyLedgerRun(l: L.Ledger)
    requires L.LInit(l)
    ensures LedgerRunTo([l], [], l)
  {
  }

  /** Solvency of every portfolio in every state of every run of the whole system. */
  lemma {:induction false} SystemSolvent(ss: seq<Sys>, acts: seq<Act>, i: nat, p: nat, instrument: string)
    requires Run(ss, acts) && i < |ss| && p < |ss[i].l.accounts|
    ensures Net(ss[i].l.accounts[p].entries, instrument) >= 0
  {
    var ls, lacts := ToLedger(ss, acts, i);
    LedgerSafety.Solvent(ls, lacts, p, |ls| - 1, instrument);
  }

  /** Balances are trades, in every state of every run of the whole system. */
  lemma {:induction false} SystemPositions(ss: seq<Sys>, acts: seq<Act>, i: nat, p: nat, instrument: string)
    requires Run(ss, acts) && i < |ss| && p < |ss[i].l.accounts|
    ensures var a := ss[i].l.accounts[p];
      var fills, balance := Fills(a.seed, a.since, L.Winners(a.grants)), Net(a.entries, instrument);
      if instrument == "CASH" then balance == a.seed - Paid(fills) + Earned(fills)
      else balance == Bought(fills, instrument) - Sold(fills, instrument)
  {
    var ls, lacts := ToLedger(ss, acts, i);
    LedgerSafety.PositionsAreTrades(ls, lacts, p, |ls| - 1, instrument);
  }

  /** The context whose LockForUpdate on portfolio p this step is. */
  function Locking(s: Sys, a: Act, p: nat): seq<Ctx> {
    if Enabled(s, a) && a.TxStep? && a.la.Lock? && s.l.txs[a.la.e].ctx.terms.portfolio == p
    then [s.l.txs[a.la.e].ctx] else []
  }

  /** The context whose commit on portfolio p this step is. */
  function Committing(s: Sys, a: Act, p: nat): seq<Ctx> {
    if Enabled(s, a) && a.CommitTx? && s.l.txs[a.e].ctx.terms.portfolio == p then [s.l.txs[a.e].ctx] else []
  }

  /** The contexts of portfolio p in the order their LockForUpdate statements ran. */
  ghost function LockOrder(ss: seq<Sys>, acts: seq<Act>, p: nat, i: nat): seq<Ctx>
    requires i <= |acts| && i <= |ss|
  {
    Joined(seq(i, k requires 0 <= k < i => Locking(ss[k], acts[k], p)), i)
  }

  /** The contexts of portfolio p in the order their transactions committed. */
  ghost function CommitOrder(ss: seq<Sys>, acts: seq<Act>, p: nat, i: nat): seq<Ctx>
    requires i <= |acts| && i <= |ss|
  {
    Joined(seq(i, k requires 0 <= k < i => Committing(ss[k], acts[k], p)), i)
  }

  lemma GrantsMove(s: Sys, a: Act, s': Sys, p: nat)
    requires L.LedgerOk(s.l) && Next(s, a, s')
    ensures LedgerSafety.Contexts(LedgerSafety.GrantsOf(s'.l, p))
            == LedgerSafety.Contexts(LedgerSafety.GrantsOf(s.l, p)) + Locking(s, a, p)
    ensures L.Winners(LedgerSafety.GrantsOf(s'.l, p)) == L.Winners(LedgerSafety.GrantsOf(s.l, p)) + Committing(s, a, p)
  {
    if LPart(s, a).Some? {
      LedgerSafety.GrantsStep(s.l, LPart(s, a).value, p);
    }
  }

  lemma GrantsNext(ss: seq<Sys>, acts: seq<Act>, p: nat, k: nat)
    requires Run(ss, acts) && k < |acts|
    ensures LedgerSafety.Contexts(LedgerSafety.GrantsOf(ss[k + 1].l, p))
            == LedgerSafety.Contexts(LedgerSafety.GrantsOf(ss[k].l, p)) + Locking(ss[k], acts[k], p)
    ensures L.Winners(LedgerSafety.GrantsOf(ss[k + 1].l, p))
            == L.Winners(LedgerSafety.GrantsOf(ss[k].l, p)) + Committing(ss[k], acts[k], p)
  {
    assert L.LedgerOk(ss[k].l) by {
      SysOkRun(ss, acts, k);
    }
    assert StepAt(ss, acts, k);
    GrantsMove(ss[k], acts[k], ss[k + 1], p);
  }

  lemma GrantsAreLocks(ss: seq<Sys>, acts: seq<Act>, p: nat, i: nat)
    requires Run(ss, acts) && i < |ss|
    ensures LedgerSafety.Contexts(LedgerSafety.GrantsOf(ss[i].l, p)) == LockOrder(ss, acts, p, i)
  {
    var granted := seq(i + 1, k requires 0 <= k <= i => LedgerSafety.Contexts(LedgerSafety.GrantsOf(ss[k].l, p)));
    var locks := seq(i, k requires 0 <= k < i => Locking(ss[k], acts[k], p));
    forall k | 0 <= k < i
      ensures granted[k + 1] == granted[k] + locks[k]
    {
      GrantsNext(ss, acts, p, k);
    }
    assert SysInit(ss[0]);
    JoinedSteps(granted, locks, i);
  }

  lemma WinnersAreCommits(ss: seq<Sys>, acts: seq<Act>, p: nat, i: nat)
    requires Run(ss, acts) && i < |ss|
    ensures L.Winners(LedgerSafety.GrantsOf(ss[i].l, p)) == CommitOrder(ss, acts, p, i)
  {
    var won := seq(i + 1, k requires 0 <= k <= i => L.Winners(LedgerSafety.GrantsOf(ss[k].l, p)));
    var commits := seq(i, k requires 0 <= k < i => Committing(ss[k], acts[k], p));
    forall k | 0 <= k < i
      ensures won[k + 1] == won[k] + commits[k]
    {
      GrantsNext(ss, acts, p, k);
    }
    assert SysInit(ss[0]);
    JoinedSteps(won, commits, i);
  }

  /**
   The committed books of the whole system are those of whole bodies run one at a time in
   the order in which their transactions committed, which is the order in which those
   transactions were granted the row lock: the grants, with what became of each, are the
   LockForUpdate statements of the run.
   */
  lemma SystemSerialisable(ss: seq<Sys>, acts: seq<Act>, i: nat, p: nat)
    requires Run(ss, acts) && i < |ss| && p < |ss[i].l.accounts|
    ensures var a := ss[i].l.accounts[p];
      && Book(a.entries, a.seqCounter) == Replayed(a.seed, a.since, L.Winners(a.grants))
      && LedgerSafety.Contexts(a.grants) == LockOrder(ss, acts, p, i)
      && L.Winners(a.grants) == CommitOrder(ss, acts, p, i)
  {
    assert L.AccountOk(ss[i].l, p) by {
      SysOkRun(ss, acts, i);
    }
    GrantsAreLocks(ss, acts, p, i);
    WinnersAreCommits(ss, acts, p, i);
  }

  lemma OrderJobCap(s: Sys, a: Act, qa: Q.QAct)
    requires IsQueuePart(s, a, s.q, qa) && qa.Enqueue? && qa.kind.ExecuteOrder?
    ensures qa.maxAttempts == 5
  {
  }

  /** The hypotheses of the retry bound, on the queue part of one step. */
  predicate Tame(q: Q.Queue, qa: Q.QAct, j: nat) {
    Q.NonnegativeLease(qa) && Q.AtomicReap(q, qa) && qa != Q.Replay(j)
  }

  ghost predicate TameRun(ss: seq<Sys>, acts: seq<Act>, j: nat)
    requires |ss| == |acts| + 1
  {
    forall k, qa :: 0 <= k < |acts| && IsQueuePart(ss[k], acts[k], ss[k].q, qa) ==> Tame(ss[k].q, qa, j)
  }

  lemma TameParts(ss: seq<Sys>, acts: seq<Act>, i: nat, q: Q.Queue, qa: Q.QAct, j: nat)
    requires Run(ss, acts) && QueueStepFrom(ss, acts, i, q, qa) && TameRun(ss, acts, j)
    ensures Tame(q, qa, j)
    ensures qa.Enqueue? && qa.kind.ExecuteOrder? ==> qa.maxAttempts == 5
  {
    var k :| 0 <= k < i && k < |acts| && IsQueuePart(ss[k], acts[k], q, qa);
    assert IsQueuePart(ss[k], acts[k], ss[k].q, qa);
    if qa.Enqueue? && qa.kind.ExecuteOrder? {
      OrderJobCap(ss[k], acts[k], qa);
    }
  }

  lemma OrderJob(s: Sys, o: nat)
    requires SysOk(s) && o < |s.outbox|
    ensures s.outbox[o] < |s.q.log| && s.q.log[s.outbox[o]] == ExecuteOrder(o)
  {
  }

  /** Inside the whole system, the job of an order is claimed at most nine times in its first life. */
  lemma SystemAttemptsBound(ss: seq<Sys>, acts: seq<Act>, i: nat, o: nat)
    requires Run(ss, acts) && i < |ss| && o < |ss[i].outbox| && TameRun(ss, acts, ss[i].outbox[o])
    ensures var j := ss[i].outbox[o];
      j in ss[i].q.tables.jobs ==> ss[i].q.tables.jobs[j].attempts <= 9
  {
    var j := ss[i].outbox[o];
    SysOkRun(ss, acts, i);
    OrderJob(ss[i], o);
    var qs, qacts := ToQueue(ss, acts, i);
    forall m | 0 <= m < |qacts|
      ensures Tame(qs[m], qacts[m], j)
      ensures qacts[m].Enqueue? && qacts[m].kind.ExecuteOrder? ==> qacts[m].maxAttempts == 5
    {
      TameParts(ss, acts, i, qs[m], qacts[m], j);
    }
    AttemptsOf(qs, qacts, j);
  }

  lemma AttemptsOf(qs: seq<Q.Queue>, qacts: seq<Q.QAct>, j: nat)
    requires Q.QRun(qs, qacts) && forall m :: 0 <= m < |qacts| ==> Tame(qs[m], qacts[m], j)
    requires forall m :: 0 <= m < |qacts| && qacts[m].Enqueue? && qacts[m].kind.ExecuteOrder? ==>
      qacts[m].maxAttempts == 5
    requires j < |qs[|qs| - 1].log| && qs[|qs| - 1].log[j].ExecuteOrder?
    ensures var q := qs[|qs| - 1];
      j in q.tables.jobs ==> q.tables.jobs[j].attempts <= 9
  {
    var born := BirthOf(qs, qacts, |qs| - 1, j);
    RetryBound.AttemptsBound(qs, qacts, born, j, 5, |qs| - 1);
  }

  /** Every job in the log was born at some step of the queue run. */
  lemma {:induction false} BirthOf(qs: seq<Q.Queue>, qacts: seq<Q.QAct>, i: nat, j: nat) returns (born: nat)
    requires Q.QRun(qs, qacts) && i < |qs| && j < |qs[i].log|
    ensures born < i && qacts[born].Enqueue? && j == |qs[born].log| && qacts[born].kind == qs[i].log[j]
  {
    assert qs[i] == Q.QDo(qs[i - 1], qacts[i - 1]);
    if j < |qs[i - 1].log| {
      born := BirthOf(qs, qacts, i - 1, j);
    } else {
      born := i - 1;
    }
  }
}
