/** What a rotation's lock guarantees about the subtree while it is live. */
module Barrier {
  import opened Common
  import opened Actions
  import opened Locks
  import opened Registry
  import opened Protocol
  import opened ProtocolSafety
  import opened Exclusion

  predicate IsRotation(s: State, r: ProcId) {
    r in s.procs && s.procs[r].kind == ROTATE
  }

  /** While a rotation's lock is live no check of any descendant passes, whoever makes it. */
  lemma {:induction false} NoCheckPasses(start: State, es: seq<Event>, r: ProcId, p: ProcId, d: Id)
    requires Initial(start)
    requires var s := Run(start, es);
             && IsRotation(s, r) && LockIsLive(s, r) && d in Descendants(s.db.services, s.procs[r].service)
             && Can(s, Check(p)) && d in s.procs[p].Checks()
    ensures Step(Run(start, es), Check(p)).procs[p].phase == REFUSED
  {
    RunIsSafe(start, es);
    var s := Run(start, es);
    assert ProcHolds(s, r);
    LiveLockIsSeen(s, r, s.procs[p].Checks());
    assert d in s.procs[r].target * s.procs[p].Checks();
  }

  lemma CheckedBefore(s: State, r: ProcId, p: ProcId)
    requires Safe(s) && IsRotation(s, r) && LockIsLive(s, r)
    requires p in s.procs && s.procs[p].action.Some? && s.procs[p].service in s.procs[r].target
    ensures var x, y := s.procs[p], s.procs[r];
            x.checkAt.Some? && y.insertAt.Some? && x.checkAt.value < y.insertAt.value
  {
    assert ProcHolds(s, p) && ProcHolds(s, r) && PairHolds(s, r, p);
    assert s.procs[p].service in s.procs[r].target * s.procs[p].Checks();
  }

  lemma CreatedAfter(s: State, r: ProcId, p: ProcId)
    requires Safe(s) && r in s.procs && ActiveBy(s, p)
    requires s.procs[p].service in s.procs[r].polled && s.procs[p].service !in s.external
    ensures var x, y := s.procs[p], s.procs[r];
            x.createAt.Some? && y.insertAt.Some? && y.insertAt.value < x.createAt.value
  {
    assert ProcHolds(s, p) && PairHolds(s, p, r);
  }

  /** While a rotation's lock is live, any action of a compliant client on the subtree, whether still
      active or not, comes from a reservation whose check preceded that lock. If it is still active on
      a service the rotation has polled as idle, it was also created after the lock. */
  lemma {:induction false} ActionStraddlesLock(start: State, es: seq<Event>, r: ProcId, p: ProcId)
    requires Initial(start)
    requires var s := Run(start, es);
             && IsRotation(s, r) && LockIsLive(s, r)
             && p in s.procs && s.procs[p].action.Some?
             && s.procs[p].service in Descendants(s.db.services, s.procs[r].service)
    ensures var s := Run(start, es); var x, y := s.procs[p], s.procs[r];
            && x.checkAt.Some? && y.insertAt.Some? && x.createAt.Some?
            && x.checkAt.value < y.insertAt.value
            && (ActiveBy(s, p) && x.service in y.polled && x.service !in s.external ==>
                  y.insertAt.value < x.createAt.value)
  {
    RunIsSafe(start, es);
    var s := Run(start, es);
    assert ProcHolds(s, r) && ProcHolds(s, p);
    CheckedBefore(s, r, p);
    if ActiveBy(s, p) && s.procs[p].service in s.procs[r].polled && s.procs[p].service !in s.external {
      CreatedAfter(s, r, p);
    }
  }

  // ----------------------------------------------------- requests over a longer time

  /** The request has checked and may still create an action. */
  predicate IsPending(proc: Proc) {
    proc.phase in {CHECKED, FETCHED, POLLING, GRANTED}
  }

  /** What a later state remembers of an earlier one about one request. */
  ghost predicate Remembers(s: State, t: State, p: ProcId)
    requires p in t.procs
  {
    && s.clock <= t.clock
    && (t.procs[p].checkAt.Some? && t.procs[p].checkAt.value < s.clock ==> p in s.procs)
    && (p in s.procs ==> var x, y := s.procs[p], t.procs[p];
          && x.kind == y.kind && x.service == y.service
          && (x.kind != RESERVE ==> x.target == y.target)
          && (y.checkAt.Some? && y.checkAt.value < s.clock ==> x.checkAt == y.checkAt)
          && (x.insertAt.Some? ==> y.insertAt == x.insertAt)
          && (x.phase != STARTED && !IsPending(x) ==> y.phase != STARTED && !IsPending(y) && y.createAt == x.createAt))
  }

  lemma StepKeepsIdentity(t: State, e: Event, p: ProcId)
    requires Safe(t) && Can(t, e) && p in t.procs
    ensures p in Do(t, e).procs
    ensures var x, y := t.procs[p], Do(t, e).procs[p];
            && x.kind == y.kind && x.service == y.service && (x.kind != RESERVE ==> x.target == y.target)
            && (x.insertAt.Some? ==> y.insertAt == x.insertAt)
            && (x.phase != STARTED && !IsPending(x) ==> y.phase != STARTED && !IsPending(y) && y.createAt == x.createAt)
            && (y.checkAt == x.checkAt || y.checkAt == Some(t.clock))
  {
    assert ProcHolds(t, p);
    if !Acts(e, p) {
      OthersWait(t, e, p);
    }
  }

  lemma StepRemembers(s: State, t: State, e: Event, p: ProcId)
    requires Safe(t) && s.clock <= t.clock && (p in s.procs ==> p in t.procs)
    requires p in t.procs ==> Remembers(s, t, p)
    requires p in Step(t, e).procs
    ensures Remembers(s, Step(t, e), p)
  {
    if Can(t, e) {
      if p in t.procs {
        StepKeepsIdentity(t, e, p);
      } else {
        ActorMoves(t, e, p);
      }
    }
  }

  lemma {:induction false} RunRemembers(start: State, es: seq<Event>, more: seq<Event>, p: ProcId)
    requires Initial(start)
    requires p in Run(Run(start, es), more).procs
    ensures Remembers(Run(start, es), Run(Run(start, es), more), p)
  {
    var s := Run(start, es);
    if more == [] {
      RunIsSafe(start, es);
    } else {
      var before := more[..|more| - 1];
      var t := Run(s, before);
      RunGrows(s, before, p);
      RunJoins(start, es, before);
      RunIsSafe(start, es + before);
      if p in t.procs {
        RunRemembers(start, es, before, p);
      }
      StepRemembers(s, t, more[|more| - 1], p);
    }
  }

  lemma {:induction false} Recalls(start: State, es: seq<Event>, more: seq<Event>, p: ProcId)
    requires Initial(start) && p in Run(start, es).procs
    ensures p in Run(Run(start, es), more).procs && Remembers(Run(start, es), Run(Run(start, es), more), p)
  {
    RunGrows(Run(start, es), more, p);
    RunRemembers(start, es, more, p);
  }

  lemma {:induction false} RunGrows(s: State, es: seq<Event>, p: ProcId)
    ensures s.clock <= Run(s, es).clock
    ensures p in s.procs ==> p in Run(s, es).procs
  {
    if es != [] {
      var t := Run(s, es[..|es| - 1]);
      RunGrows(s, es[..|es| - 1], p);
      if Can(t, es[|es| - 1]) && !Acts(es[|es| - 1], p) {
        OthersWait(t, es[|es| - 1], p);
      }
    }
  }

  /** No compliant client stands between its check and its action on any of the services. */
  ghost predicate NobodyPending(s: State, services: set<Id>) {
    forall p :: p in s.procs && s.procs[p].service in services && s.procs[p].kind == RESERVE ==> !IsPending(s.procs[p])
  }

  /** A request that checked before `s` and created after it stood pending in `s`. */
  lemma StraddlerWasPending(s: State, t: State, p: ProcId)
    requires Safe(s) && Safe(t) && p in t.procs && Remembers(s, t, p)
    requires t.procs[p].checkAt.Some? && t.procs[p].createAt.Some?
    requires t.procs[p].checkAt.value < s.clock <= t.procs[p].createAt.value
    ensures p in s.procs && IsPending(s.procs[p])
    ensures s.procs[p].kind == RESERVE && s.procs[p].service == t.procs[p].service
  {
    assert ProcHolds(s, p) && ProcHolds(t, p);
  }

  /** The rotation's lock was inserted by the event that inserted it, on the tree of that time. */
  lemma LockedAtInsert(start: State, es: seq<Event>, more: seq<Event>, r: ProcId)
    requires Initial(start)
    requires var s := Run(start, es); IsRotation(s, r) && Can(s, Insert(r))
    ensures var s := Run(start, es); var t := Run(Run(start, es + [Insert(r)]), more);
            && r in t.procs && t.procs[r].insertAt == Some(s.clock)
            && t.procs[r].target == Descendants(s.db.services, s.procs[r].service)
  {
    var s := Run(start, es);
    RunIsSafe(start, es);
    assert ProcHolds(s, r);
    RunAppends(start, es, Insert(r));
    Recalls(start, es + [Insert(r)], more, r);
  }

  /** An active service that a rotation polled as idle, under a lock that is still live, was made
      active by a client that stood between check and creation when the lock was inserted. */
  lemma {:induction false} ActivityWasPending(
    start: State, es: seq<Event>, more: seq<Event>, r: ProcId, p: ProcId)
    requires Initial(start)
    requires var s := Run(start, es); IsRotation(s, r) && Can(s, Insert(r))
    requires var t := Run(start, es + [Insert(r)] + more);
             && IsRotation(t, r) && LockIsLive(t, r) && t.procs[r].insertAt == Some(Run(start, es).clock)
             && ActiveBy(t, p) && t.procs[p].service in t.procs[r].polled && t.procs[p].service !in t.external
    ensures var s := Run(start, es);
            && p in s.procs && IsPending(s.procs[p]) && s.procs[p].kind == RESERVE
            && s.procs[p].service == Run(start, es + [Insert(r)] + more).procs[p].service
  {
    var all := es + [Insert(r)] + more;
    var s, t := Run(start, es), Run(start, all);
    RunIsSafe(start, es);
    RunIsSafe(start, all);
    assert ProcHolds(t, r);
    CheckedBefore(t, r, p);
    CreatedAfter(t, r, p);
    RunJoins(start, es, [Insert(r)] + more);
    assert es + ([Insert(r)] + more) == all;
    RunRemembers(start, es, [Insert(r)] + more, p);
    StraddlerWasPending(s, t, p);
  }

  /** Rotation barrier. Suppose that when a rotation inserts its lock no compliant client stands
      between check and creation on a descendant, and that later, however others came in between, all
      polls have come back idle and the lock is still live. Then the descendant is inactive when the
      rotation rows are written, unless somebody activated it without a reservation. */
  lemma {:induction false} RotationBarrier(start: State, es: seq<Event>, more: seq<Event>, r: ProcId, d: Id)
    requires Initial(start)
    requires var s := Run(start, es); IsRotation(s, r) && Can(s, Insert(r)) && NobodyPending(s, {d})
    requires var t := Run(start, es + [Insert(r)] + more);
             && Can(t, WriteRows(r)) && LockIsLive(t, r) && NoOutsider(t, d)
             && d in Descendants(t.db.services, t.procs[r].service) && d !in t.external
    ensures !HasActive(Run(start, es + [Insert(r)] + more).table, d)
  {
    var t := Run(start, es + [Insert(r)] + more);
    RunIsSafe(start, es + [Insert(r)] + more);
    RunJoins(start, es + [Insert(r)], more);
    LockedAtInsert(start, es, more, r);
    if HasActive(t.table, d) {
      var p := CreatorOf(t, d);
      assert ProcHolds(t, r);
      ActivityWasPending(start, es, more, r, p);
      assert false;
    }
  }
}
