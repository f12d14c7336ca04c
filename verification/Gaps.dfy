/** What else the gap between check and insert costs: locks that overlap, and rotations that a client
    who is already past its check gets round. */
module Gaps {
  import opened Common
  import opened Actions
  import opened Locks
  import opened Registry
  import opened Protocol
  import opened ProtocolSafety
  import opened Exclusion
  import opened Barrier
  import opened Polling
  import opened SideBySide

  predicate MayLock(s: State, p: ProcId) {
    && p in s.procs && s.procs[p].kind == LOCK && s.procs[p].phase == CHECKED
    && (s.procs[p].expiration.Some? ==> s.procs[p].expiration.value > 0)
  }

  lemma LockOnce(s: State, p: ProcId, q: ProcId)
    requires p != q && MayLock(s, p) && q in s.procs
    ensures var t := Step(s, Insert(p));
            && LockIsLive(t, p) && t.procs[p].target == s.procs[p].target && t.procs[p].lock == Some(s.nextLockId)
            && q in t.procs && t.procs[q] == s.procs[q] && t.nextLockId == s.nextLockId + 1
            && (LockIsLive(s, q) && s.procs[q].lock != Some(s.nextLockId) ==> LockIsLive(t, q))
  {}

  /** The converse of `LockDiscipline`: two lock requests that share a service and have both checked
      get live locks that overlap. */
  lemma OverlapLosesDisjointness(s: State, p: ProcId, q: ProcId)
    requires p != q && MayLock(s, p) && MayLock(s, q) && s.procs[p].target * s.procs[q].target != {}
    ensures LiveTogether(Run(s, [Insert(p), Insert(q)]), p, q)
  {
    FirstTwo(s, Insert(p), Insert(q));
    LockOnce(s, p, q);
    LockOnce(Step(s, Insert(p)), q, p);
  }

  /** The client has the permission to create, and nothing of its service is active. */
  predicate MayActivate(s: State, p: ProcId, d: Id) {
    && p in s.procs && s.procs[p].service == d && Can(s, Create(p, 0, None))
    && Detailed(s.db, d).Success? && !HasActive(s.table, d)
  }

  lemma Activates(s: State, p: ProcId, r: ProcId, d: Id)
    requires MayActivate(s, p, d) && r != p && Can(s, WriteRows(r)) && LockIsLive(s, r)
    ensures var t := Step(s, Create(p, 0, None));
            && Can(t, WriteRows(r)) && LockIsLive(t, r) && t.procs[r] == s.procs[r]
            && ActiveBy(t, p) && t.procs[p].service == d && HasActive(t.table, d)
  {
    CreateWhenIdle(s, d, 0, None, d + 1);
    var t := Step(s, Create(p, 0, None));
    assert IsActiveOf(t.table[|s.table|], d);
  }

  lemma RotationPolls(t: State, r: ProcId, p: ProcId, d: Id, order: seq<Id>, remote: map<Id, Reply>)
    requires r != p && MayActivate(t, p, d) && LockIsLive(t, r)
    requires t.procs[r].kind == ROTATE && t.procs[r].phase == POLLING && t.procs[r].polled == {}
    requires Elements(order) == t.procs[r].target != {} && Elements(order) <= remote.Keys
    requires AllIdle(t.table, Elements(order), t.external, remote)
    ensures var u := Run(t, Polls(r, order, remote)); MayActivate(u, p, d) && Can(u, WriteRows(r)) && LockIsLive(u, r)
  {
    PollsRun(t, r, order, remote);
    PollsSpare(t, r, order, remote, p);
  }

  lemma RotationInserts(s: State, r: ProcId, p: ProcId, d: Id)
    requires Safe(s) && r != p && IsRotation(s, r) && s.procs[r].phase == CHECKED
    requires s.procs[r].expiration.Some? && s.procs[r].expiration.value > 0
    requires MayActivate(s, p, d)
    ensures var t := Step(s, Insert(r));
            && MayActivate(t, p, d) && LockIsLive(t, r) && t.table == s.table && t.external == s.external
            && t.procs[r].kind == ROTATE && t.procs[r].phase == POLLING && t.procs[r].polled == {}
            && t.procs[r].target == s.procs[r].target
  {
    assert ProcHolds(s, r) && ProcHolds(s, p);
  }

  /** `RotationBarrier` needs its hypothesis. Whenever a client already has the permission to create on
      a descendant when a rotation inserts its lock, the rotation's polls, in whatever order, can all
      come back idle and the client create afterwards: the rows are then about to be written under a
      live lock while the descendant is active. */
  lemma {:induction false} PendingBreaksBarrier(
    s: State, r: ProcId, p: ProcId, d: Id, order: seq<Id>, remote: map<Id, Reply>)
    requires Safe(s) && r != p && IsRotation(s, r) && s.procs[r].phase == CHECKED
    requires s.procs[r].expiration.Some? && s.procs[r].expiration.value > 0
    requires MayActivate(s, p, d) && d in s.procs[r].target
    requires Elements(order) == s.procs[r].target && Elements(order) <= remote.Keys
    requires AllIdle(s.table, Elements(order), s.external, remote)
    ensures var u := Run(s, [Insert(r)] + Polls(r, order, remote) + [Create(p, 0, None)]);
            && Can(u, WriteRows(r)) && LockIsLive(u, r)
            && ActiveBy(u, p) && u.procs[p].service == d && HasActive(u.table, d)
  {
    RunAppends(s, [], Insert(r));
    assert [] + [Insert(r)] == [Insert(r)];
    RotationInserts(s, r, p, d);
    var t := Run(s, [Insert(r)]);
    RunJoins(s, [Insert(r)], Polls(r, order, remote));
    RotationPolls(t, r, p, d, order, remote);
    RunAppends(s, [Insert(r)] + Polls(r, order, remote), Create(p, 0, None));
    Activates(Run(t, Polls(r, order, remote)), p, r, d);
  }
}
