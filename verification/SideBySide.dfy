/** Two reservations that go on side by side from the gap between check and insert to their actions:
    whenever two requests for services that block each other stand in that gap together, both services
    can become active. */
module SideBySide {
  import opened Common
  import opened Actions
  import opened Locks
  import opened Registry
  import opened Protocol
  import opened ProtocolSafety
  import opened Exclusion
  import opened Polling

  // --------------------------------------------------------------- one creation

  /** Whatever the parallelism of an inactive service, its creation is accepted and activates it alone. */
  lemma CreateWhenIdle(s: State, service: Id, state: nat, metadata: Option<Metadata>, other: Id)
    requires Detailed(s.db, service).Success? && !HasActive(s.table, service) && other != service
    ensures CreationAnswer(s, service, state, metadata).Success?
    ensures var t := CreationAnswer(s, service, state, metadata).value;
            && |t| == |s.table| + 1 && IsActiveOf(t[|s.table|], service)
            && (HasActive(t, other) ==> HasActive(s.table, other))
  {
    CountIsZero(s.table, service);
  }

  /** The request has its lock, live, and may create. */
  predicate MayCreate(s: State, p: ProcId, service: Id) {
    && p in s.procs && s.procs[p].kind == RESERVE && s.procs[p].phase == GRANTED && s.procs[p].service == service
    && LockIsLive(s, p)
  }

  lemma CreateOne(s: State, p: ProcId, q: ProcId, a: Id, b: Id, state: nat, metadata: Option<Metadata>)
    requires p != q && a != b && MayCreate(s, p, a)
    requires Detailed(s.db, a).Success? && !HasActive(s.table, a)
    ensures var t := Step(s, Create(p, state, metadata));
            && |t.table| == |s.table| + 1 && IsActiveOf(t.table[|s.table|], a) && t.db == s.db
            && ActiveBy(t, p) && t.procs[p].service == a
            && (MayCreate(s, q, b) ==> MayCreate(t, q, b)) && (HasActive(t.table, b) ==> HasActive(s.table, b))
  {
    CreateWhenIdle(s, a, state, metadata, b);
  }

  lemma CreateBoth(s: State, p: ProcId, q: ProcId, a: Id, b: Id, state: nat, metadata: Option<Metadata>)
    requires p != q && a != b && MayCreate(s, p, a) && MayCreate(s, q, b)
    requires Detailed(s.db, a).Success? && Detailed(s.db, b).Success?
    requires !HasActive(s.table, a) && !HasActive(s.table, b)
    ensures var u := Step(Step(s, Create(p, state, metadata)), Create(q, state, metadata));
            ActiveBy(u, p) && ActiveBy(u, q) && u.procs[p].service == a && u.procs[q].service == b
  {
    CreateOne(s, p, q, a, b, state, metadata);
    var t := Step(s, Create(p, state, metadata));
    CreateOne(t, q, p, b, a, state, metadata);
  }

  // ----------------------------------------------------- from check to permission

  /** Between its own-lock check and its insert, with nothing locked or polled yet. */
  predicate AtWindow(s: State, p: ProcId, service: Id) {
    && p in s.procs && s.procs[p].kind == RESERVE && s.procs[p].service == service
    && s.procs[p].phase in {CHECKED, FETCHED} && s.procs[p].polled == {} && s.procs[p].lock.None?
  }

  predicate IsFetched(s: State, p: ProcId, service: Id) {
    && AtWindow(s, p, service) && s.procs[p].phase == FETCHED
    && s.procs[p].target == Blockees(s.db.blocks, service)
    && s.procs[p].expiration == Some(s.reserveLockExpiration)
  }

  predicate IsPolling(s: State, p: ProcId, service: Id) {
    && p in s.procs && s.procs[p].kind == RESERVE && s.procs[p].phase == POLLING && s.procs[p].service == service
    && s.procs[p].polled == {} && s.procs[p].target == Blockees(s.db.blocks, service)
    && LockIsLive(s, p)
  }

  lemma AtWindowHolds(s: State, p: ProcId)
    requires Safe(s) && p in s.procs && s.procs[p].kind == RESERVE && s.procs[p].phase in {CHECKED, FETCHED}
    ensures AtWindow(s, p, s.procs[p].service)
    ensures s.procs[p].phase == FETCHED ==> IsFetched(s, p, s.procs[p].service)
  {
    assert ProcHolds(s, p);
  }

  lemma FetchOne(s: State, p: ProcId, q: ProcId, a: Id, b: Id)
    requires p != q && AtWindow(s, p, a) && Detailed(s.db, a).Success? && Blockees(s.db.blocks, a) != {}
    requires s.procs[p].phase == FETCHED ==> IsFetched(s, p, a)
    ensures var t := Step(s, Fetch(p, true));
            && IsFetched(t, p, a) && SameTables(s, t) && t.reserveLockExpiration == s.reserveLockExpiration
            && (q in s.procs ==> q in t.procs && t.procs[q] == s.procs[q])
  {}

  lemma InsertOnce(s: State, p: ProcId, q: ProcId, a: Id)
    requires p != q && IsFetched(s, p, a) && s.reserveLockExpiration > 0
    ensures var t := Step(s, Insert(p));
            && IsPolling(t, p, a) && SameTables(s.(locks := t.locks, nextLockId := t.nextLockId), t)
            && t.reserveLockExpiration == s.reserveLockExpiration
            && (q in s.procs ==> q in t.procs && t.procs[q] == s.procs[q])
            && (LockIsLive(s, q) && s.procs[q].lock.value < s.nextLockId ==> LockIsLive(t, q))
            && t.procs[p].lock.value < t.nextLockId
  {}

  lemma PollsGrant(s: State, p: ProcId, q: ProcId, a: Id, order: seq<Id>, remote: map<Id, Reply>)
    requires p != q && IsPolling(s, p, a) && Blockees(s.db.blocks, a) != {}
    requires Elements(order) == Blockees(s.db.blocks, a) && Elements(order) <= remote.Keys
    requires AllIdle(s.table, Elements(order), s.external, remote)
    ensures var t := Run(s, Polls(p, order, remote));
            && MayCreate(t, p, a) && SameTables(s, t)
            && (q in s.procs ==> q in t.procs && t.procs[q] == s.procs[q])
  {
    PollsRun(s, p, order, remote);
    PollsSpare(s, p, order, remote, q);
  }

  /** Both finish one after the other: neither poll can see what the other has not created yet. */
  function Finish(
    p: ProcId, q: ProcId, forP: seq<Id>, forQ: seq<Id>, remote: map<Id, Reply>,
    state: nat, metadata: Option<Metadata>): seq<Event>
    requires Elements(forP) <= remote.Keys && Elements(forQ) <= remote.Keys
  {
    var creations := [Create(p, state, metadata), Create(q, state, metadata)];
    [Fetch(p, true), Fetch(q, true)] +
    ([Insert(p), Insert(q)] + (Polls(p, forP, remote) + (Polls(q, forQ, remote) + creations)))
  }

  lemma FetchBoth(s: State, p: ProcId, q: ProcId, a: Id, b: Id)
    requires p != q && AtWindow(s, p, a) && AtWindow(s, q, b)
    requires s.procs[p].phase == FETCHED ==> IsFetched(s, p, a)
    requires s.procs[q].phase == FETCHED ==> IsFetched(s, q, b)
    requires Detailed(s.db, a).Success? && Detailed(s.db, b).Success?
    requires Blockees(s.db.blocks, a) != {} && Blockees(s.db.blocks, b) != {}
    ensures var t := Run(s, [Fetch(p, true), Fetch(q, true)]);
            && IsFetched(t, p, a) && IsFetched(t, q, b)
            && SameTables(s, t) && t.reserveLockExpiration == s.reserveLockExpiration
  {
    FirstTwo(s, Fetch(p, true), Fetch(q, true));
    FetchOne(s, p, q, a, b);
    FetchOne(Step(s, Fetch(p, true)), q, p, b, a);
  }

  lemma InsertBoth(s: State, p: ProcId, q: ProcId, a: Id, b: Id)
    requires p != q && IsFetched(s, p, a) && IsFetched(s, q, b) && s.reserveLockExpiration > 0
    ensures var t := Run(s, [Insert(p), Insert(q)]);
            && IsPolling(t, p, a) && IsPolling(t, q, b)
            && SameTables(s.(locks := t.locks, nextLockId := t.nextLockId), t)
  {
    FirstTwo(s, Insert(p), Insert(q));
    InsertOnce(s, p, q, a);
    InsertOnce(Step(s, Insert(p)), q, p, b);
  }

  lemma PollBoth(
    s: State, p: ProcId, q: ProcId, a: Id, b: Id, forP: seq<Id>, forQ: seq<Id>, remote: map<Id, Reply>)
    requires p != q && IsPolling(s, p, a) && IsPolling(s, q, b) && BlockEachOther(s, a, b)
    requires Elements(forP) == Blockees(s.db.blocks, a) && Elements(forP) <= remote.Keys
    requires Elements(forQ) == Blockees(s.db.blocks, b) && Elements(forQ) <= remote.Keys
    requires AllIdle(s.table, Elements(forP), s.external, remote)
    requires AllIdle(s.table, Elements(forQ), s.external, remote)
    ensures var u := Run(Run(s, Polls(p, forP, remote)), Polls(q, forQ, remote));
            MayCreate(u, p, a) && MayCreate(u, q, b) && SameTables(s, u)
  {
    assert (a, b).1 in Blockees(s.db.blocks, a) && (b, a).1 in Blockees(s.db.blocks, b);
    PollsGrant(s, p, q, a, forP, remote);
    PollsGrant(Run(s, Polls(p, forP, remote)), q, p, b, forQ, remote);
  }

  lemma PollAndCreate(
    s: State, p: ProcId, q: ProcId, a: Id, b: Id,
    forP: seq<Id>, forQ: seq<Id>, remote: map<Id, Reply>, state: nat, metadata: Option<Metadata>)
    requires p != q && a != b && IsPolling(s, p, a) && IsPolling(s, q, b) && BlockEachOther(s, a, b)
    requires Detailed(s.db, a).Success? && Detailed(s.db, b).Success?
    requires !HasActive(s.table, a) && !HasActive(s.table, b)
    requires Elements(forP) == Blockees(s.db.blocks, a) && Elements(forP) <= remote.Keys
    requires Elements(forQ) == Blockees(s.db.blocks, b) && Elements(forQ) <= remote.Keys
    requires AllIdle(s.table, Elements(forP), s.external, remote)
    requires AllIdle(s.table, Elements(forQ), s.external, remote)
    ensures var u := Run(s, Polls(p, forP, remote) + (Polls(q, forQ, remote) +
                            [Create(p, state, metadata), Create(q, state, metadata)]));
            ActiveBy(u, p) && ActiveBy(u, q) && u.procs[p].service == a && u.procs[q].service == b
  {
    var creations := [Create(p, state, metadata), Create(q, state, metadata)];
    RunJoins(s, Polls(p, forP, remote), Polls(q, forQ, remote) + creations);
    var t := Run(s, Polls(p, forP, remote));
    RunJoins(t, Polls(q, forQ, remote), creations);
    PollBoth(s, p, q, a, b, forP, forQ, remote);
    var u := Run(t, Polls(q, forQ, remote));
    FirstTwo(u, creations[0], creations[1]);
    CreateBoth(u, p, q, a, b, state, metadata);
  }

  lemma NobodyActiveYet(s: State, a: Id, b: Id, forA: seq<Id>, forB: seq<Id>, remote: map<Id, Reply>)
    requires BlockEachOther(s, a, b) && a !in s.external && b !in s.external
    requires Elements(forA) == Blockees(s.db.blocks, a) && Elements(forA) <= remote.Keys
    requires Elements(forB) == Blockees(s.db.blocks, b) && Elements(forB) <= remote.Keys
    requires AllIdle(s.table, Elements(forA), s.external, remote)
    requires AllIdle(s.table, Elements(forB), s.external, remote)
    ensures !HasActive(s.table, a) && !HasActive(s.table, b)
  {
    assert (a, b).1 in Elements(forA) && (b, a).1 in Elements(forB);
    assert PollAnswer(s.table, a, s.external, remote[a]) == Idle;
    assert PollAnswer(s.table, b, s.external, remote[b]) == Idle;
  }

  /** The converse of `MutualExclusion`. In any reachable state in which two reservations for services
      that block each other have both checked and neither has inserted its lock, and their blockees
      are idle, these two requests going on as they should, in whatever order their polls are
      answered, make both services active. */
  lemma OverlapLosesExclusion(
    s: State, p: ProcId, q: ProcId,
    forP: seq<Id>, forQ: seq<Id>, remote: map<Id, Reply>, state: nat, metadata: Option<Metadata>)
    requires Safe(s) && p in s.procs && q in s.procs && s.reserveLockExpiration > 0
    requires s.procs[p].kind == RESERVE && s.procs[p].phase in {CHECKED, FETCHED}
    requires s.procs[q].kind == RESERVE && s.procs[q].phase in {CHECKED, FETCHED}
    requires var a, b := s.procs[p].service, s.procs[q].service;
             && a != b && BlockEachOther(s, a, b) && a !in s.external && b !in s.external
             && Detailed(s.db, a).Success? && Detailed(s.db, b).Success?
             && Elements(forP) == Blockees(s.db.blocks, a) && Elements(forP) <= remote.Keys
             && Elements(forQ) == Blockees(s.db.blocks, b) && Elements(forQ) <= remote.Keys
             && AllIdle(s.table, Elements(forP), s.external, remote)
             && AllIdle(s.table, Elements(forQ), s.external, remote)
    ensures var a, b := s.procs[p].service, s.procs[q].service;
            var u := Run(s, Finish(p, q, forP, forQ, remote, state, metadata));
            ActiveBy(u, p) && ActiveBy(u, q) && u.procs[p].service == a && u.procs[q].service == b
  {
    var a, b := s.procs[p].service, s.procs[q].service;
    assert (a, b).1 in Blockees(s.db.blocks, a) && (b, a).1 in Blockees(s.db.blocks, b);
    NobodyActiveYet(s, a, b, forP, forQ, remote);
    AtWindowHolds(s, p);
    AtWindowHolds(s, q);
    var creations := [Create(p, state, metadata), Create(q, state, metadata)];
    var polling := Polls(p, forP, remote) + (Polls(q, forQ, remote) + creations);
    RunJoins(s, [Fetch(p, true), Fetch(q, true)], [Insert(p), Insert(q)] + polling);
    FetchBoth(s, p, q, a, b);
    var t := Run(s, [Fetch(p, true), Fetch(q, true)]);
    RunJoins(t, [Insert(p), Insert(q)], polling);
    InsertBoth(t, p, q, a, b);
    PollAndCreate(Run(t, [Insert(p), Insert(q)]), p, q, a, b, forP, forQ, remote, state, metadata);
  }
}
