/** How long a lock lasts in a run: until its holder gives it up or its expiration has passed. */
module Lifetimes {
  import opened Common
  import opened Actions
  import opened Locks
  import opened Registry
  import opened Protocol
  import opened ProtocolSafety
  import opened Exclusion

  /** The time that passes over some events. */
  function Elapsed(es: seq<Event>): nat {
    if es == [] then 0
    else
      var last := es[|es| - 1];
      Elapsed(es[..|es| - 1]) + if last.Elapse? then last.ms else 0
  }

  lemma {:induction false} TimePasses(s: State, es: seq<Event>)
    ensures var t := Run(s, es);
            && t.now == s.now + Elapsed(es)
            && t.reserveLockExpiration == s.reserveLockExpiration
            && t.rotationLockExpiration == s.rotationLockExpiration
  {
    if es != [] {
      TimePasses(s, es[..|es| - 1]);
    }
  }

  /** Nobody but the request itself gives its lock up. */
  predicate Gives(e: Event, p: ProcId) {
    (e.Undo? || e.Release?) && e.p == p
  }

  /** The request has this lock, and the lock's row is as it was written for as long as it is there. */
  ghost predicate Keeps(s: State, p: ProcId, l: LockId, row: LockRow) {
    && p in s.procs && s.procs[p].lock == Some(l)
    && (l in s.locks ==> s.locks[l] == row)
  }

  lemma StepKeepsRow(s: State, e: Event, p: ProcId, l: LockId, row: LockRow)
    requires Safe(s) && Keeps(s, p, l, row)
    ensures Keeps(Step(s, e), p, l, row)
    ensures l in s.locks && !Gives(e, p) ==> l in Step(s, e).locks
  {
    if Can(s, e) {
      assert ProcHolds(s, p);
      if !Acts(e, p) {
        OthersWait(s, e, p);
        if e.Undo? || e.Release? {
          assert PairHolds(s, p, e.p);
        }
      }
    }
  }

  lemma {:induction false} RunKeepsRow(
    start: State, es: seq<Event>, more: seq<Event>, p: ProcId, l: LockId, row: LockRow)
    requires Initial(start) && Keeps(Run(start, es), p, l, row) && l in Run(start, es).locks
    ensures var t := Run(Run(start, es), more);
            Keeps(t, p, l, row) && ((forall e :: e in more ==> !Gives(e, p)) ==> l in t.locks)
  {
    if more != [] {
      var before := more[..|more| - 1];
      RunKeepsRow(start, es, before, p, l, row);
      RunJoins(start, es, before);
      RunIsSafe(start, es + before);
      StepKeepsRow(Run(Run(start, es), before), more[|more| - 1], p, l, row);
    }
  }

  lemma InsertWritesRow(s: State, p: ProcId)
    requires Can(s, Insert(p))
    ensures var t := Step(s, Insert(p)); var x := s.procs[p];
            && Keeps(t, p, s.nextLockId,
                     LockRow(x.target, if x.expiration.Some? then Some(s.now + x.expiration.value) else None))
            && s.nextLockId in t.locks && t.now == s.now
  {}

  lemma LiveExactly(s: State, p: ProcId, l: LockId, row: LockRow)
    requires Safe(s) && Keeps(s, p, l, row)
    ensures l in s.locks <==> s.procs[p].Holds()
    ensures LockIsLive(s, p) <==> s.procs[p].Holds() && (row.expiresAt.Some? ==> s.now < row.expiresAt.value)
  {
    assert ProcHolds(s, p);
  }

  /** In any run, whatever others do: the lock a request inserts is live exactly as long as the request
      has not given it up and less time than the expiration has passed since; a reservation and a
      rotation use the expirations configured for them. */
  lemma {:induction false} LockLifetime(start: State, es: seq<Event>, p: ProcId, more: seq<Event>)
    requires Initial(start) && Can(Run(start, es), Insert(p))
    ensures var s := Run(start, es); var t := Run(start, es + [Insert(p)] + more);
            var expiration := s.procs[p].expiration;
            && p in t.procs
            && (LockIsLive(t, p) <==>
                  t.procs[p].Holds() && (expiration.Some? ==> Elapsed(more) < expiration.value))
            && ((forall e :: e in more ==> !Gives(e, p)) ==> t.procs[p].Holds())
            && (s.procs[p].kind == RESERVE ==> expiration == Some(start.reserveLockExpiration))
            && (s.procs[p].kind == ROTATE ==> expiration == Some(start.rotationLockExpiration))
  {
    var s := Run(start, es);
    var x := s.procs[p];
    var row := LockRow(x.target, if x.expiration.Some? then Some(s.now + x.expiration.value) else None);
    RunIsSafe(start, es);
    assert ProcHolds(s, p);
    TimePasses(start, es);
    InsertWritesRow(s, p);
    RunAppends(start, es, Insert(p));
    RunKeepsRow(start, es + [Insert(p)], more, p, s.nextLockId, row);
    TimePasses(Run(start, es + [Insert(p)]), more);
    RunJoins(start, es + [Insert(p)], more);
    RunIsSafe(start, es + [Insert(p)] + more);
    LiveExactly(Run(start, es + [Insert(p)] + more), p, s.nextLockId, row);
  }
}
