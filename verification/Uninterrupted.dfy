/** A reservation or a rotation that nobody interrupts is one run of the protocol, whatever the order
    of its polls, and ends as `LockManager.Reserve` and `ServiceManager.Rotate` promise. */
module Uninterrupted {
  import opened Common
  import opened Actions
  import opened Locks
  import opened Registry
  import opened Protocol
  import opened Exclusion
  import opened Polling

  function ReserveEvents(p: ProcId, service: Id, answered: bool, order: seq<Id>, remote: map<Id, Reply>): seq<Event>
    requires Elements(order) <= remote.Keys
  {
    [BeginReserve(p, service), Check(p), Fetch(p, answered)] + ([Insert(p)] + Polls(p, order, remote) + [Undo(p)])
  }

  function RotateEvents(p: ProcId, service: Id, order: seq<Id>, remote: map<Id, Reply>): seq<Event>
    requires Elements(order) <= remote.Keys
  {
    [BeginRotate(p, service), Check(p), Insert(p)] + (Polls(p, order, remote) + [Undo(p), WriteRows(p), Release(p)])
  }

  lemma InsertOne(s: State, p: ProcId)
    requires p in s.procs && s.procs[p].kind == RESERVE && s.procs[p].phase == FETCHED
    ensures var t := Run(s, [Insert(p)]); var x := s.procs[p];
            && p in t.procs && t.procs[p] == x.(phase := POLLING, lock := Some(s.nextLockId), insertAt := Some(s.clock))
            && t.locks == s.locks[s.nextLockId := NewLock(x.target, x.expiration, s.now)]
            && SameTables(s.(locks := t.locks, nextLockId := t.nextLockId), t)
  {
    RunAppends(s, [], Insert(p));
    assert [] + [Insert(p)] == [Insert(p)];
  }

  lemma UndoEnds(t: State, p: ProcId)
    requires p in t.procs && t.procs[p].phase in {UNDOING, GRANTED} && t.procs[p].lock.Some?
    ensures var u := Step(t, Undo(p));
            && p in u.procs && u.table == t.table && u.db == t.db && u.procs[p].lock == t.procs[p].lock
            && if t.procs[p].phase == GRANTED then u == t
               else u.procs[p].phase == REFUSED && u.locks == t.locks - {t.procs[p].lock.value}
  {}

  /** From the state in which the own-lock check and the fetch are done. */
  lemma FinishReserve(s: State, p: ProcId, order: seq<Id>, remote: map<Id, Reply>)
    requires p in s.procs && s.procs[p].kind == RESERVE && s.procs[p].phase == FETCHED && s.procs[p].polled == {}
    requires s.procs[p].target != {} && Elements(order) == s.procs[p].target && Elements(order) <= remote.Keys
    requires s.nextLockId !in s.locks
    ensures var x := s.procs[p];
            var u := Run(s, [Insert(p)] + Polls(p, order, remote) + [Undo(p)]);
            && p in u.procs && u.table == s.table && u.db == s.db
            && if AllIdle(s.table, x.target, s.external, remote)
               then && u.procs[p].phase == GRANTED && u.procs[p].lock == Some(s.nextLockId)
                    && u.locks == s.locks[s.nextLockId := NewLock(x.target, x.expiration, s.now)]
               else u.procs[p].phase == REFUSED && u.locks == s.locks
  {
    InsertOne(s, p);
    var t := Run(s, [Insert(p)]);
    PollsRun(t, p, order, remote);
    RunJoins(s, [Insert(p)], Polls(p, order, remote));
    RunAppends(s, [Insert(p)] + Polls(p, order, remote), Undo(p));
    UndoEnds(Run(t, Polls(p, order, remote)), p);
    assert t.locks - {s.nextLockId} == s.locks;
  }

  /** Events that cannot happen leave a request that has ended its way through locky alone. */
  lemma {:induction false} EndedStays(s: State, p: ProcId, order: seq<Id>, remote: map<Id, Reply>)
    requires p in s.procs && s.procs[p].phase in {REFUSED, GRANTED} && Elements(order) <= remote.Keys
    ensures Run(s, [Insert(p)] + Polls(p, order, remote) + [Undo(p)]) == s
  {
    RunAppends(s, [], Insert(p));
    assert [] + [Insert(p)] == [Insert(p)];
    EndedIgnoresPolls(s, p, order, remote);
    RunJoins(s, [Insert(p)], Polls(p, order, remote));
    RunAppends(s, [Insert(p)] + Polls(p, order, remote), Undo(p));
  }

  lemma {:induction false} EndedIgnoresPolls(s: State, p: ProcId, order: seq<Id>, remote: map<Id, Reply>)
    requires p in s.procs && s.procs[p].phase != POLLING && Elements(order) <= remote.Keys
    ensures Run(s, Polls(p, order, remote)) == s
  {
    if order != [] {
      var before := order[..|order| - 1];
      var last := order[|order| - 1];
      assert order == before + [last];
      assert Elements(order) == Elements(before) + {last};
      EndedIgnoresPolls(s, p, before, remote);
      RunAppends(s, Polls(p, before, remote), Poll(p, last, remote[last]));
    }
  }

  /** An uninterrupted reservation is granted, keeps its lock, or gives it back exactly as
      `LockManager.Reserve` does, in whatever order its polls are answered. */
  lemma ReserveIsARun(
    s: State, p: ProcId, service: Id, answered: bool, order: seq<Id>, remote: map<Id, Reply>)
    requires p !in s.procs && s.nextLockId !in s.locks && Elements(order) <= remote.Keys
    requires var fetched := FetchAnswer(s, service, answered);
             fetched.Success? ==> Elements(order) == fetched.value.blockees
    ensures var u := Run(s, ReserveEvents(p, service, answered, order, remote));
            var fetched := FetchAnswer(s, service, answered);
            && p in u.procs && u.table == s.table && u.db == s.db
            && u.procs[p].phase in {GRANTED, REFUSED}
            && (u.procs[p].phase == GRANTED <==>
                  && Nonexpired(s.locks, {service}, s.now) == {}
                  && fetched.Success?
                  && AllIdle(s.table, fetched.value.blockees, s.external, remote))
            && (u.procs[p].phase == REFUSED ==> u.locks == s.locks)
            && (u.procs[p].phase == GRANTED ==>
                  if fetched.value.blockees == {} then u.procs[p].lock.None? && u.locks == s.locks
                  else && u.procs[p].lock == Some(s.nextLockId)
                       && u.locks == s.locks[
                            s.nextLockId := NewLock(fetched.value.blockees, Some(s.reserveLockExpiration), s.now)])
  {
    var begin := [BeginReserve(p, service), Check(p), Fetch(p, answered)];
    FirstThree(s, begin[0], begin[1], begin[2]);
    RunJoins(s, begin, [Insert(p)] + Polls(p, order, remote) + [Undo(p)]);
    var t := Step(Step(Step(s, begin[0]), begin[1]), begin[2]);
    if t.procs[p].phase == FETCHED {
      FinishReserve(t, p, order, remote);
    } else {
      EndedStays(t, p, order, remote);
    }
  }

  lemma WriteAndRelease(t: State, p: ProcId)
    requires p in t.procs && t.procs[p].kind == ROTATE && t.procs[p].lock.Some?
    requires t.procs[p].phase in {UNDOING, GRANTED}
    ensures var u := Run(t, [Undo(p), WriteRows(p), Release(p)]); var done := t.procs[p].phase == GRANTED;
            && p in u.procs && u.table == t.table
            && u.procs[p].phase == (if done then RELEASED else REFUSED)
            && u.locks == t.locks - {t.procs[p].lock.value}
            && u.db == if done then t.db.(services := Rotated(t.db.services, t.procs[p].service)) else t.db
  {
    FirstThree(t, Undo(p), WriteRows(p), Release(p));
    UndoEnds(t, p);
  }

  lemma FinishRotate(s: State, p: ProcId, order: seq<Id>, remote: map<Id, Reply>)
    requires p in s.procs && s.procs[p].kind == ROTATE && s.procs[p].phase == POLLING && s.procs[p].polled == {}
    requires s.procs[p].target != {} && Elements(order) == s.procs[p].target && Elements(order) <= remote.Keys
    requires s.procs[p].lock.Some?
    ensures var x := s.procs[p]; var done := AllIdle(s.table, x.target, s.external, remote);
            var u := Run(s, Polls(p, order, remote) + [Undo(p), WriteRows(p), Release(p)]);
            && p in u.procs && u.table == s.table
            && u.procs[p].phase == (if done then RELEASED else REFUSED)
            && u.locks == s.locks - {x.lock.value}
            && u.db == if done then s.db.(services := Rotated(s.db.services, x.service)) else s.db
  {
    PollsRun(s, p, order, remote);
    RunJoins(s, Polls(p, order, remote), [Undo(p), WriteRows(p), Release(p)]);
    WriteAndRelease(Run(s, Polls(p, order, remote)), p);
  }

  lemma BeginRotation(s: State, p: ProcId, service: Id)
    requires p !in s.procs && service in s.db.services
    ensures var t := Run(s, [BeginRotate(p, service), Check(p), Insert(p)]);
            var tree := Descendants(s.db.services, service);
            && p in t.procs && t.procs[p].kind == ROTATE && t.procs[p].service == service && t.procs[p].target == tree
            && t.procs[p].polled == {} && SameTables(s.(locks := t.locks, nextLockId := t.nextLockId), t)
            && if Nonexpired(s.locks, tree, s.now) != {} then t.procs[p].phase == REFUSED && t.locks == s.locks
               else && t.procs[p].phase == POLLING && t.procs[p].lock == Some(s.nextLockId)
                    && t.locks == s.locks[s.nextLockId := NewLock(tree, Some(s.rotationLockExpiration), s.now)]
  {
    FirstThree(s, BeginRotate(p, service), Check(p), Insert(p));
  }

  lemma RefusedStays(t: State, p: ProcId)
    requires p in t.procs && t.procs[p].kind == ROTATE && t.procs[p].phase == REFUSED
    ensures Run(t, [Undo(p), WriteRows(p), Release(p)]) == t
  {
    FirstThree(t, Undo(p), WriteRows(p), Release(p));
  }

  /** An uninterrupted rotation succeeds, bumps the subtree and returns its lock exactly as
      `ServiceManager.Rotate` does; a refused one leaves locks and registry as they were. */
  lemma RotateIsARun(s: State, p: ProcId, service: Id, order: seq<Id>, remote: map<Id, Reply>)
    requires p !in s.procs && s.nextLockId !in s.locks && Elements(order) <= remote.Keys
    requires service in s.db.services && Elements(order) == Descendants(s.db.services, service)
    ensures var u := Run(s, RotateEvents(p, service, order, remote)); var tree := Descendants(s.db.services, service);
            && p in u.procs && u.table == s.table && u.locks == s.locks
            && u.procs[p].phase in {RELEASED, REFUSED}
            && (u.procs[p].phase == RELEASED <==>
                  Nonexpired(s.locks, tree, s.now) == {} && AllIdle(s.table, tree, s.external, remote))
            && u.db == if u.procs[p].phase == RELEASED then s.db.(services := Rotated(s.db.services, service)) else s.db
  {
    var begin := [BeginRotate(p, service), Check(p), Insert(p)];
    BeginRotation(s, p, service);
    RunJoins(s, begin, Polls(p, order, remote) + [Undo(p), WriteRows(p), Release(p)]);
    var t := Run(s, begin);
    assert service in Descendants(s.db.services, service);
    if t.procs[p].phase == POLLING {
      FinishRotate(t, p, order, remote);
      assert t.locks - {s.nextLockId} == s.locks;
    } else {
      EndedIgnoresPolls(t, p, order, remote);
      RunJoins(t, Polls(p, order, remote), [Undo(p), WriteRows(p), Release(p)]);
      RefusedStays(t, p);
    }
  }
}
