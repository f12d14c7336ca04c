/** Lock, unlock, creation and patch requests in the protocol do to the tables what `LockManager` and
    `ActionManager` promise, row by row. */
module Requests {
  import opened Common
  import opened Actions
  import opened Locks
  import opened Registry
  import opened Protocol
  import opened ProtocolSafety
  import opened Polling

  /** Some lock on one of the services has not expired. */
  ghost predicate SomeLockIsLive(s: State, services: set<Id>) {
    exists l, x :: l in s.locks && x in s.locks[l].services && x in services &&
      (s.locks[l].expiresAt.Some? ==> s.now < s.locks[l].expiresAt.value)
  }

  lemma CheckFindsLocks(s: State, services: set<Id>)
    ensures Nonexpired(s.locks, services, s.now) != {} <==> SomeLockIsLive(s, services)
  {
    var found := Nonexpired(s.locks, services, s.now);
    if l :| l in found {
      var x :| x in s.locks[l].services * services;
      assert l in s.locks && x in s.locks[l].services && x in services;
    }
    if SomeLockIsLive(s, services) {
      var l, x :| l in s.locks && x in s.locks[l].services && x in services &&
        (s.locks[l].expiresAt.Some? ==> s.now < s.locks[l].expiresAt.value);
      assert x in s.locks[l].services * services;
      assert l in found;
    }
  }

  /** An uninterrupted lock request is granted exactly when no live lock has one of its services, and
      then adds one row that lasts as long as it asked for; otherwise it leaves the table alone. */
  lemma LockIsARun(s: State, p: ProcId, services: set<Id>, expiration: Option<nat>)
    requires p !in s.procs && s.nextLockId !in s.locks
    ensures var u := Run(s, [BeginLock(p, services, expiration), Check(p), Insert(p)]);
            && p in u.procs && u.table == s.table && u.db == s.db
            && u.procs[p].phase == (if SomeLockIsLive(s, services) then REFUSED else GRANTED)
            && (u.procs[p].phase == REFUSED ==> u.locks == s.locks)
            && (u.procs[p].phase == GRANTED ==>
                  && u.procs[p].lock == Some(s.nextLockId)
                  && Lasts(u.locks, s.nextLockId, services, expiration, s.now)
                  && u.locks.Keys == s.locks.Keys + {s.nextLockId}
                  && forall l :: l in s.locks ==> u.locks[l] == s.locks[l])
  {
    FirstThree(s, BeginLock(p, services, expiration), Check(p), Insert(p));
    CheckFindsLocks(s, services);
    NewLockLasts(s.locks, s.nextLockId, services, expiration, s.now);
  }

  /** Giving a lock up takes its row away and no other. */
  lemma UnlockIsAStep(s: State, p: ProcId)
    requires p in s.procs && s.procs[p].kind == LOCK && s.procs[p].phase == GRANTED && s.procs[p].lock.Some?
    ensures var u := Step(s, Release(p));
            && p in u.procs && u.procs[p].phase == RELEASED && u.table == s.table && u.db == s.db
            && u.locks.Keys == s.locks.Keys - {s.procs[p].lock.value}
            && forall l :: l in u.locks ==> u.locks[l] == s.locks[l]
  {}

  /** What registry answers for a service, field by field. */
  ghost predicate IsAnswer(db: Database, service: Id, f: FlatService) {
    && service in db.services && f.serviceId == service
    && f.namespaceId == db.services[service].namespaceId && f.parallelism == db.services[service].parallelism
    && IsCurrentRow(db.services[service].rotations, Rotation(f.parentRotation, f.serviceRotation))
  }

  /** The rows after a creation request for the service, whatever its answer. */
  ghost predicate CreationServed(s: State, t: Table, service: Id, state: nat, metadata: Option<Metadata>) {
    if service !in s.db.services || s.db.services[service].rotations == [] then t == s.table
    else
      exists f :: IsAnswer(s.db, service, f) &&
        if MayStart(s.table, f) then StartedRows(s.table, t, ActionParams(service, state, metadata), f, s.now)
        else t == s.table
  }

  /** A creation made without a reservation, and one under a reservation, do the same to the table. */
  lemma CreationIsAStep(s: State, service: Id, state: nat, metadata: Option<Metadata>)
    ensures var u := Step(s, CreateOutside(service, state, metadata));
            && CreationServed(s, u.table, service, state, metadata)
            && u.outside == s.outside + (if u.table == s.table then {} else {|s.table|})
            && u == s.(table := u.table, outside := u.outside, clock := s.clock + 1)
    ensures forall p :: Can(s, Create(p, state, metadata)) && s.procs[p].service == service ==>
              Step(s, Create(p, state, metadata)).table == Step(s, CreateOutside(service, state, metadata)).table
  {
    DetailedExactly(s.db, service);
    if Detailed(s.db, service).Success? {
      var f := Detailed(s.db, service).value;
      assert IsAnswer(s.db, service, f);
      CreatedExactly(s.table, ActionParams(service, state, metadata), f, s.now);
    }
  }

  /** A patch succeeds exactly on an active row and touches nothing else. */
  lemma PatchIsAStep(s: State, id: ActionId, params: UpdateParams)
    ensures var u := Step(s, Patch(id, params));
            && u == s.(table := u.table, clock := s.clock + 1)
            && if id < |s.table| && s.table[id].status == ACTIVE
               then |u.table| == |s.table| && PatchedAt(s.table, u.table, id, params, s.now)
               else u.table == s.table
  {
    UpdatedExactly(s.table, id, params, s.now);
  }
}
