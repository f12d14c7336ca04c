/** What reservations and rotations leave behind in every reachable state: no lock after a failure,
    and rotation rows from successful rotations only, one per descendant. */
module Residue {
  import opened Common
  import opened Actions
  import opened Locks
  import opened Registry
  import opened Protocol
  import opened ProtocolSafety

  predicate Wrote(s: State, p: ProcId, d: Id, k: nat) {
    p in s.procs && d in s.procs[p].rows && s.procs[p].rows[d] == k
  }

  function RowCount(ss: Services, d: Id): nat {
    if d in ss then |ss[d].rotations| else 0
  }

  /** A request has written rows exactly when it is a rotation past its write, one per service it locked. */
  ghost predicate WriterHolds(base: Services, s: State, p: ProcId)
    requires p in s.procs
  {
    var proc := s.procs[p];
    && (proc.kind == ROTATE && proc.phase in {ROTATED, RELEASED} ==> proc.rows.Keys == proc.target)
    && (proc.rows != map[] ==> proc.kind == ROTATE && proc.phase in {ROTATED, RELEASED})
    && (forall d :: d in proc.rows ==> RowCount(base, d) <= proc.rows[d] < RowCount(s.db.services, d))
  }

  ghost predicate RowHolds(base: Services, s: State, d: Id, k: nat) {
    exists p :: Wrote(s, p, d, k)
  }

  ghost predicate RowsHold(base: Services, s: State) {
    && (forall p {:trigger WriterHolds(base, s, p)} :: p in s.procs ==> WriterHolds(base, s, p))
    && (forall p, q, d, k :: Wrote(s, p, d, k) && Wrote(s, q, d, k) ==> p == q)
    && (forall d, k: nat {:trigger RowHolds(base, s, d, k)} ::
          RowCount(base, d) <= k < RowCount(s.db.services, d) ==> RowHolds(base, s, d, k))
  }

  /** Rows are added by `WriteRows` alone: one at the end of each history in the subtree. */
  lemma WriteAddsOne(s: State, e: Event, d: Id)
    requires Safe(s) && Can(s, e)
    ensures RowCount(Do(s, e).db.services, d) ==
            RowCount(s.db.services, d) + if e.WriteRows? && d in s.procs[e.p].target then 1 else 0
    ensures e.WriteRows? ==> Do(s, e).procs[e.p].rows.Keys == s.procs[e.p].target
    ensures e.WriteRows? && d in s.procs[e.p].target ==> Do(s, e).procs[e.p].rows[d] == RowCount(s.db.services, d)
  {
    if e.WriteRows? {
      assert ProcHolds(s, e.p);
      forall x | x in s.procs[e.p].target
        ensures x in s.db.services && s.db.services[x].rotations != []
      {
        assert HistoryHolds(s.db.services[x]);
      }
    }
  }

  lemma RowsOfOthersStay(s: State, e: Event, p: ProcId)
    requires Safe(s) && Can(s, e) && p in Do(s, e).procs && !(e == WriteRows(p))
    ensures p !in s.procs ==> Do(s, e).procs[p].rows == map[] && Do(s, e).procs[p].phase == STARTED
    ensures p in s.procs ==> var x, y := s.procs[p], Do(s, e).procs[p];
              && x.rows == y.rows && x.kind == y.kind && (x.kind == ROTATE ==> x.target == y.target)
              && (x.phase in {ROTATED, RELEASED} ==> y.phase in {ROTATED, RELEASED})
              && (x.kind == ROTATE && y.phase in {ROTATED, RELEASED} ==> x.phase in {ROTATED, RELEASED})
  {
    assert p in s.procs ==> ProcHolds(s, p);
    if !Acts(e, p) {
      OthersWait(s, e, p);
    }
  }

  lemma StepKeepsWriter(base: Services, s: State, e: Event, p: ProcId)
    requires Safe(s) && RowsHold(base, s) && Can(s, e) && p in Do(s, e).procs
    requires forall d :: RowCount(base, d) <= RowCount(s.db.services, d)
    ensures WriterHolds(base, Do(s, e), p)
  {
    var u := Do(s, e);
    forall d
      ensures RowCount(s.db.services, d) <= RowCount(u.db.services, d)
    {
      WriteAddsOne(s, e, d);
    }
    if e == WriteRows(p) {
      forall d | d in u.procs[p].rows
        ensures RowCount(base, d) <= u.procs[p].rows[d] < RowCount(u.db.services, d)
      {
        WriteAddsOne(s, e, d);
      }
      WriteAddsOne(s, e, 0);
    } else {
      RowsOfOthersStay(s, e, p);
      assert p in s.procs ==> WriterHolds(base, s, p);
    }
  }

  lemma WroteBefore(base: Services, s: State, e: Event, p: ProcId, d: Id, k: nat)
    requires Safe(s) && RowsHold(base, s) && Can(s, e)
    requires Wrote(Do(s, e), p, d, k)
    ensures Wrote(s, p, d, k) || (e == WriteRows(p) && d in s.procs[p].target && k == RowCount(s.db.services, d))
    ensures Wrote(s, p, d, k) ==> k < RowCount(s.db.services, d)
  {
    if e == WriteRows(p) {
      WriteAddsOne(s, e, d);
    } else {
      RowsOfOthersStay(s, e, p);
    }
    assert p in s.procs ==> WriterHolds(base, s, p);
  }

  lemma StillWrote(base: Services, s: State, e: Event, p: ProcId, d: Id, k: nat)
    requires Safe(s) && RowsHold(base, s) && Can(s, e) && Wrote(s, p, d, k)
    ensures Wrote(Do(s, e), p, d, k)
  {
    assert WriterHolds(base, s, p);
    if !Acts(e, p) {
      OthersWait(s, e, p);
    } else {
      RowsOfOthersStay(s, e, p);
    }
  }

  lemma StepKeepsRows(base: Services, s: State, e: Event)
    requires Safe(s) && RowsHold(base, s) && Can(s, e)
    requires forall d :: RowCount(base, d) <= RowCount(s.db.services, d)
    ensures RowsHold(base, Do(s, e))
    ensures forall d :: RowCount(base, d) <= RowCount(Do(s, e).db.services, d)
  {
    var u := Do(s, e);
    forall p | p in u.procs
      ensures WriterHolds(base, u, p)
    {
      StepKeepsWriter(base, s, e, p);
    }
    forall p, q, d, k: nat | Wrote(u, p, d, k) && Wrote(u, q, d, k)
      ensures p == q
    {
      WroteBefore(base, s, e, p, d, k);
      WroteBefore(base, s, e, q, d, k);
    }
    forall d
      ensures RowCount(s.db.services, d) <= RowCount(u.db.services, d)
    {
      WriteAddsOne(s, e, d);
    }
    forall d, k: nat | RowCount(base, d) <= k < RowCount(u.db.services, d)
      ensures RowHolds(base, u, d, k)
    {
      WriteAddsOne(s, e, d);
      if k < RowCount(s.db.services, d) {
        assert RowHolds(base, s, d, k);
        var p :| Wrote(s, p, d, k);
        StillWrote(base, s, e, p, d, k);
      } else {
        assert Wrote(u, e.p, d, k);
      }
    }
  }

  lemma {:induction false} RunKeepsRows(start: State, es: seq<Event>)
    requires Initial(start)
    ensures RowsHold(start.db.services, Run(start, es))
    ensures forall d :: RowCount(start.db.services, d) <= RowCount(Run(start, es).db.services, d)
  {
    if es != [] {
      var before := es[..|es| - 1];
      RunKeepsRows(start, before);
      RunIsSafe(start, before);
      if Can(Run(start, before), es[|es| - 1]) {
        StepKeepsRows(start.db.services, Run(start, before), es[|es| - 1]);
      }
    }
  }

  /** Every lock row belongs to exactly one request that still holds it; a request that ended, in
      failure or not, has no lock left. */
  lemma {:induction false} NoLockIsLeft(start: State, es: seq<Event>)
    requires Initial(start)
    ensures var s := Run(start, es);
            && (forall l :: l in s.locks ==> exists p :: Owns(s, p, l) && forall q :: Owns(s, q, l) ==> q == p)
            && (forall p :: p in s.procs && s.procs[p].phase in {REFUSED, RELEASED} && s.procs[p].lock.Some? ==>
                  s.procs[p].lock.value !in s.locks)
  {
    RunIsSafe(start, es);
    var s := Run(start, es);
    forall l | l in s.locks
      ensures exists p :: Owns(s, p, l) && forall q :: Owns(s, q, l) ==> q == p
    {
      assert LockOwned(s, l);
      var p :| Owns(s, p, l);
      forall q | Owns(s, q, l)
        ensures q == p
      {
        assert PairHolds(s, p, q);
      }
    }
    forall p | p in s.procs && s.procs[p].phase in {REFUSED, RELEASED} && s.procs[p].lock.Some?
      ensures s.procs[p].lock.value !in s.locks
    {
      assert ProcHolds(s, p);
    }
  }

  ghost predicate WrittenOnce(s: State, d: Id, k: nat) {
    exists p :: Wrote(s, p, d, k) && forall q :: Wrote(s, q, d, k) ==> q == p
  }

  /** Every row added since the start was written by exactly one rotation that got through; such a
      rotation wrote exactly one row for each descendant, and one that failed wrote none. */
  lemma {:induction false} RowsComeFromRotations(start: State, es: seq<Event>)
    requires Initial(start)
    ensures var s := Run(start, es);
            && (forall d, k: nat {:trigger WrittenOnce(s, d, k)} ::
                  RowCount(start.db.services, d) <= k < RowCount(s.db.services, d) ==> WrittenOnce(s, d, k))
            && (forall p :: p in s.procs && s.procs[p].kind == ROTATE && s.procs[p].phase in {ROTATED, RELEASED} ==>
                  s.procs[p].rows.Keys == Descendants(s.db.services, s.procs[p].service))
            && (forall p :: p in s.procs && s.procs[p].phase !in {ROTATED, RELEASED} ==> s.procs[p].rows == map[])
  {
    RunIsSafe(start, es);
    RunKeepsRows(start, es);
    var s := Run(start, es);
    forall d, k: nat {:trigger WrittenOnce(s, d, k)} | RowCount(start.db.services, d) <= k < RowCount(s.db.services, d)
      ensures WrittenOnce(s, d, k)
    {
      assert RowHolds(start.db.services, s, d, k);
      var p :| Wrote(s, p, d, k);
    }
    forall p | p in s.procs
      ensures ProcHolds(s, p) && WriterHolds(start.db.services, s, p)
    {}
  }
}
