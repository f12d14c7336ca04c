/** The invariant of the protocol holds in every state of every run. */
module ProtocolSafety {
  import opened Common
  import opened Actions
  import opened Locks
  import opened Registry
  import opened Protocol

  /** Action rows stay, keep their service, and never come back to life. */
  ghost predicate Evolves(t: Table, u: Table) {
    && |t| <= |u|
    && (forall i :: 0 <= i < |t| ==>
          u[i].serviceId == t[i].serviceId && (u[i].status == ACTIVE ==> t[i].status == ACTIVE))
  }

  lemma CreationEvolves(t: Table, p: ActionParams, v: FlatService, now: nat)
    requires ValidTable(t) && Created(t, p, v, now).Success?
    ensures var u := Created(t, p, v, now).value;
            Evolves(t, u) && ValidTable(u) && |u| == |t| + 1 && u[|t|].serviceId == p.serviceId
  {}

  /** What the tables of a step look like, whichever event it is. */
  lemma TablesEvolve(s: State, e: Event)
    requires ValidTable(s.table) && Can(s, e)
    ensures var u := Do(s, e);
            && Evolves(s.table, u.table) && ValidTable(u.table)
            && |u.table| <= |s.table| + 1
            && s.now <= u.now && u.clock == s.clock + 1 && s.external == u.external && s.db.blocks == u.db.blocks
            && s.reserveLockExpiration == u.reserveLockExpiration
            && s.rotationLockExpiration == u.rotationLockExpiration
            && s.outside <= u.outside && s.nextLockId <= u.nextLockId
            && (u.db.services.Keys == s.db.services.Keys)
            && (forall x :: x in s.db.services ==> u.db.services[x].parent == s.db.services[x].parent)
  {
    match e
    case Create(p, state, metadata) =>
      var service := s.procs[p].service;
      if CreationAnswer(s, service, state, metadata).Success? {
        CreationEvolves(s.table, ActionParams(service, state, metadata), Detailed(s.db, service).value, s.now);
      }
    case CreateOutside(service, state, metadata) =>
      if CreationAnswer(s, service, state, metadata).Success? {
        CreationEvolves(s.table, ActionParams(service, state, metadata), Detailed(s.db, service).value, s.now);
      }
    case _ =>
  }

  lemma TreeStays(s: State, e: Event, a: Id)
    requires RotationsHold(s.db.services) && ValidTable(s.table) && Can(s, e)
    ensures RotationsHold(Do(s, e).db.services)
    ensures Descendants(Do(s, e).db.services, a) == Descendants(s.db.services, a)
  {
    if e.WriteRows? {
      RotateKeepsAlignment(s.db.services, s.procs[e.p].service);
    }
    TablesEvolve(s, e);
    forall x | x in s.db.services
      ensures Under(s.db.services, x, a) <==> Under(Do(s, e).db.services, x, a)
    {
      UnderFrame(s.db.services, Do(s, e).db.services, x, a);
    }
  }

  // ------------------------------------------------------------------ one request

  predicate Acts(e: Event, p: ProcId) {
    match e
    case Elapse(_) => false
    case CreateOutside(_, _, _) => false
    case Patch(_, _) => false
    case _ => e.p == p
  }

  lemma OthersWait(s: State, e: Event, p: ProcId)
    requires Can(s, e) && !Acts(e, p)
    ensures p in Do(s, e).procs <==> p in s.procs
    ensures p in s.procs ==> Do(s, e).procs[p] == s.procs[p]
  {}

  lemma BystanderKeeps(s: State, e: Event, p: ProcId)
    requires Safe(s) && Can(s, e) && !Acts(e, p) && p in s.procs
    ensures p in Do(s, e).procs && ProcHolds(Do(s, e), p)
  {
    OthersWait(s, e, p);
    TablesEvolve(s, e);
    TreeStays(s, e, s.procs[p].service);
    assert ProcHolds(s, p);
    if s.procs[p].lock.Some? {
      if e.Undo? || e.Release? {
        assert PairHolds(s, p, e.p);
      }
    }
  }

  lemma CheckerHolds(s: State, e: Event)
    requires (e.Check? || e.Fetch?) && Can(s, e) && ProcHolds(s, e.p)
    ensures ProcHolds(Do(s, e), e.p)
  {}

  lemma InserterHolds(s: State, e: Event)
    requires (e.Insert? || e.Poll?) && Can(s, e) && ProcHolds(s, e.p)
    ensures ProcHolds(Do(s, e), e.p)
  {}

  lemma CreatorHolds(s: State, e: Event)
    requires e.Create? && Can(s, e) && ProcHolds(s, e.p) && ValidTable(s.table)
    ensures ProcHolds(Do(s, e), e.p)
  {
    var service := s.procs[e.p].service;
    if CreationAnswer(s, service, e.state, e.metadata).Success? {
      CreationEvolves(s.table, ActionParams(service, e.state, e.metadata), Detailed(s.db, service).value, s.now);
    }
  }

  lemma WriterHolds(s: State, e: Event)
    requires e.WriteRows? && Can(s, e) && ProcHolds(s, e.p) && RotationsHold(s.db.services) && ValidTable(s.table)
    ensures ProcHolds(Do(s, e), e.p)
  {
    TreeStays(s, e, s.procs[e.p].service);
  }

  lemma StepKeepsProc(s: State, e: Event, p: ProcId)
    requires Safe(s) && Can(s, e) && p in Do(s, e).procs
    ensures ProcHolds(Do(s, e), p)
  {
    if !Acts(e, p) {
      OthersWait(s, e, p);
      BystanderKeeps(s, e, p);
    } else {
      assert p in s.procs ==> ProcHolds(s, p);
      match e {
        case Check(_) => CheckerHolds(s, e);
        case Fetch(_, _) => CheckerHolds(s, e);
        case Insert(_) => InserterHolds(s, e);
        case Poll(_, _, _) => InserterHolds(s, e);
        case Create(_, _, _) => CreatorHolds(s, e);
        case WriteRows(_) => WriterHolds(s, e);
        case _ =>
      }
    }
  }

  // --------------------------------------------------------------- two requests

  /** A lock that is live after a step was live before it, unless the step inserted it. */
  lemma LivenessOnlyFades(s: State, e: Event, p: ProcId)
    requires Can(s, e) && p in s.procs && LockHolds(s, p) && s.procs[p].lock.Some?
    requires LockIsLive(Do(s, e), p) && Do(s, e).procs[p].lock == s.procs[p].lock
    ensures LockIsLive(s, p)
  {}

  /** A check of any service under a live lock finds that lock. */
  lemma LiveLockIsSeen(s: State, p: ProcId, services: set<Id>)
    requires p in s.procs && LockHolds(s, p)
    ensures LockIsLive(s, p) && s.procs[p].target * services != {} ==>
              s.procs[p].lock.value in Nonexpired(s.locks, services, s.now)
  {}

  /** What a step may change in one request, seen from outside. */
  lemma ActorMoves(s: State, e: Event, p: ProcId)
    requires Safe(s) && Can(s, e) && p in Do(s, e).procs
    ensures var y := Do(s, e).procs[p];
            if p !in s.procs
            then y.checkAt.None? && y.insertAt.None? && y.action.None? && y.lock.None? && y.polled == {}
            else
              var x := s.procs[p];
              && x.service == y.service && x.Checks() == y.Checks()
              && (y.checkAt == x.checkAt
                  || (e == Check(p) && x.insertAt.None? && y.insertAt.None? && y.checkAt == Some(s.clock)
                      && Nonexpired(s.locks, x.Checks(), s.now) == {}))
              && ((y.insertAt == x.insertAt && y.lock == x.lock)
                  || (e == Insert(p) && x.action.None? && y.action.None?
                      && y.insertAt == Some(s.clock) && y.lock == Some(s.nextLockId)))
              && (x.insertAt.Some? ==> x.target == y.target)
              && ((y.action == x.action && y.createAt == x.createAt)
                  || (e.Create? && e.p == p && y.createAt == Some(s.clock) && (x.lock.Some? ==> LockIsLive(s, p))))
              && (y.polled == x.polled
                  || (e.Poll? && e.p == p && y.polled == x.polled + {e.service} && x.insertAt.Some?
                      && y.action == x.action
                      && PollAnswer(s.table, e.service, s.external, e.remote) == Idle))
  {
    assert p in s.procs ==> ProcHolds(s, p);
    if !Acts(e, p) {
      OthersWait(s, e, p);
    }
  }

  lemma StepKeepsChecks(s: State, e: Event, p: ProcId, q: ProcId)
    requires Safe(s) && Can(s, e) && p in Do(s, e).procs && q in Do(s, e).procs
    ensures CheckSeesLock(Do(s, e), p, q)
  {
    ActorMoves(s, e, p);
    ActorMoves(s, e, q);
    if p in s.procs && q in s.procs {
      assert ProcHolds(s, p) && ProcHolds(s, q) && PairHolds(s, p, q);
      var u := Do(s, e);
      LiveLockIsSeen(s, p, s.procs[q].Checks());
      if u.procs[p].lock == s.procs[p].lock && s.procs[p].lock.Some? && LockIsLive(u, p) {
        LivenessOnlyFades(s, e, p);
      }
    }
  }

  lemma StepKeepsSight(s: State, e: Event, p: ProcId, q: ProcId)
    requires Safe(s) && Can(s, e) && p in Do(s, e).procs && q in Do(s, e).procs
    ensures PollSeesAction(Do(s, e), p, q)
  {
    ActorMoves(s, e, p);
    ActorMoves(s, e, q);
    TablesEvolve(s, e);
    if p in s.procs && q in s.procs {
      assert ProcHolds(s, p) && ProcHolds(s, q) && PairHolds(s, p, q);
    }
  }

  lemma StepKeepsPair(s: State, e: Event, p: ProcId, q: ProcId)
    requires Safe(s) && Can(s, e) && p in Do(s, e).procs && q in Do(s, e).procs
    ensures PairHolds(Do(s, e), p, q)
  {
    StepKeepsChecks(s, e, p, q);
    StepKeepsSight(s, e, p, q);
    ActorMoves(s, e, p);
    ActorMoves(s, e, q);
    assert p in s.procs ==> ProcHolds(s, p);
    assert q in s.procs ==> ProcHolds(s, q);
    if p in s.procs && q in s.procs {
      assert PairHolds(s, p, q);
    }
  }

  // ------------------------------------------------------------------- ownership

  lemma StepKeepsLockOwner(s: State, e: Event, l: LockId)
    requires Safe(s) && Can(s, e) && l in Do(s, e).locks
    ensures LockOwned(Do(s, e), l)
  {
    var u := Do(s, e);
    if e.Insert? && l == s.nextLockId {
      assert Owns(u, e.p, l);
    } else {
      if e.Undo? || e.Release? {
        assert s.procs[e.p].lock != Some(l);
      }
      assert LockOwned(s, l);
      var p :| Owns(s, p, l);
      if !Acts(e, p) {
        OthersWait(s, e, p);
      } else {
        assert ProcHolds(s, p);
      }
      assert Owns(u, p, l);
    }
  }

  lemma StepKeepsActionOwner(s: State, e: Event, a: ActionId)
    requires Safe(s) && Can(s, e) && a < |Do(s, e).table|
    ensures ActionOwned(Do(s, e), a)
  {
    var u := Do(s, e);
    TablesEvolve(s, e);
    if a < |s.table| {
      assert ActionOwned(s, a);
      if p :| Made(s, p, a) {
        assert ProcHolds(s, p);
        if !Acts(e, p) {
          OthersWait(s, e, p);
        }
        assert Made(u, p, a);
      }
    } else if e.Create? {
      assert Made(u, e.p, a);
    }
  }

  // ------------------------------------------------------------------------- runs

  lemma StepKeepsSafe(s: State, e: Event)
    requires Safe(s)
    ensures Safe(Step(s, e))
  {
    if Can(s, e) {
      var u := Do(s, e);
      TablesEvolve(s, e);
      TreeStays(s, e, 0);
      forall p | p in u.procs
        ensures ProcHolds(u, p)
      {
        StepKeepsProc(s, e, p);
      }
      forall p, q | p in u.procs && q in u.procs
        ensures PairHolds(u, p, q)
      {
        StepKeepsPair(s, e, p, q);
      }
      forall l | l in u.locks
        ensures LockOwned(u, l)
      {
        StepKeepsLockOwner(s, e, l);
      }
      forall a: ActionId | 0 <= a < |u.table|
        ensures ActionOwned(u, a)
      {
        StepKeepsActionOwner(s, e, a);
      }
    }
  }

  lemma {:induction false} RunIsSafe(s: State, es: seq<Event>)
    requires Initial(s)
    ensures Safe(Run(s, es))
  {
    if es != [] {
      RunIsSafe(s, es[..|es| - 1]);
      StepKeepsSafe(Run(s, es[..|es| - 1]), es[|es| - 1]);
    }
  }
}
