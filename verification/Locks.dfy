/** locky: the lock table, and locking, unlocking and reserving without interruption.
    The interleaved protocol is in module Protocol and uses the same functions. */
module Locks {
  import opened Common
  import opened Actions

  type LockId = nat

  datatype LockRow = LockRow(services: set<Id>, expiresAt: Option<nat>)

  type LockTable = map<LockId, LockRow>

  predicate Live(l: LockRow, now: nat) {
    l.expiresAt.None? || l.expiresAt.value > now
  }

  predicate Overlaps(l: LockRow, services: set<Id>) {
    l.services * services != {}
  }

  function Nonexpired(locks: LockTable, services: set<Id>, now: nat): set<LockId> {
    set id | id in locks && Overlaps(locks[id], services) && Live(locks[id], now)
  }

  function NewLock(services: set<Id>, expiration: Option<nat>, now: nat): LockRow {
    LockRow(services, if expiration.Some? then Some(now + expiration.value) else None)
  }

  /** The row covers the services and no others: at any time, a request finds it exactly when it shares
      a service and the row has no expiration or that much time has not passed yet. */
  ghost predicate Lasts(locks: LockTable, id: LockId, services: set<Id>, expiration: Option<nat>, from: nat) {
    && id in locks && locks[id].services == services
    && forall others: set<Id>, t: nat :: id in Nonexpired(locks, others, t) <==>
         services * others != {} && (expiration.Some? ==> t < from + expiration.value)
  }

  lemma NewLockLasts(locks: LockTable, id: LockId, services: set<Id>, expiration: Option<nat>, now: nat)
    ensures Lasts(locks[id := NewLock(services, expiration, now)], id, services, expiration, now)
  {}

  // ------------------------------------------------------------------- polls

  /** What polling a service for activity answers. Services whose actions live behind their own url
      answer for themselves; for the others only actiony being unreachable comes from outside. */
  function PollAnswer(t: Table, service: Id, external: set<Id>, remote: Reply): Reply {
    if service in external || remote == Unreachable then remote
    else if HasActive(t, service) then Busy else Idle
  }

  predicate AllIdle(t: Table, services: set<Id>, external: set<Id>, remote: map<Id, Reply>)
    requires services <= remote.Keys
  {
    forall s :: s in services ==> PollAnswer(t, s, external, remote[s]) == Idle
  }

  predicate SomeAnswers(t: Table, services: set<Id>, external: set<Id>, remote: map<Id, Reply>, reply: Reply)
    requires services <= remote.Keys
  {
    exists s :: s in services && PollAnswer(t, s, external, remote[s]) == reply
  }

  /** What the answer of a poll means: a service that answers for itself is believed, and of the others
      one that can be asked is busy exactly when one of its actions is active. */
  lemma PollAnswerMeans(t: Table, s: Id, external: set<Id>, remote: Reply)
    ensures var answer := PollAnswer(t, s, external, remote);
            && (s in external ==> answer == remote)
            && (s !in external && remote == Unreachable ==> answer == Unreachable)
            && (s !in external && remote != Unreachable ==>
                  && answer != Unreachable
                  && (answer == Busy <==> exists a :: a in t && a.serviceId == s && a.status == ACTIVE))
  {
    if i :| 0 <= i < |t| && IsActiveOf(t[i], s) {
      assert t[i] in t;
    }
    if a :| a in t && a.serviceId == s && a.status == ACTIVE {
      var i :| 0 <= i < |t| && t[i] == a;
      assert IsActiveOf(t[i], s);
    }
  }

  /** Polls the services in any order and stops at the first that is not idle. */
  method PollAll(actiony: ActionRepository, services: set<Id>, external: set<Id>, remote: map<Id, Reply>, busy: Error)
    returns (r: Result<()>)
    requires services <= remote.Keys
    ensures r.Success? <==> AllIdle(actiony.table, services, external, remote)
    ensures r.Success? <==> forall s :: s in services ==>
              if s in external then remote[s] == Idle
              else remote[s] != Unreachable && forall a :: a in actiony.table && a.serviceId == s ==> a.status != ACTIVE
    ensures r.Failure? && (forall s :: s in services ==> remote[s] != Unreachable) ==> r.error == busy
    ensures r.Failure? && (forall s :: s in services && s in external ==> remote[s] != Busy)
            && (forall a :: a in actiony.table && a.serviceId in services - external ==> a.status != ACTIVE) ==>
              r.error == RemoteFailure
    ensures r.Failure? ==>
              || (r.error == busy && SomeAnswers(actiony.table, services, external, remote, Busy))
              || (r.error == RemoteFailure && SomeAnswers(actiony.table, services, external, remote, Unreachable))
  {
    forall s | s in services {
      PollAnswerMeans(actiony.table, s, external, remote[s]);
    }
    var pending := services;
    while pending != {}
      invariant pending <= services
      invariant forall s :: s in services - pending ==> PollAnswer(actiony.table, s, external, remote[s]) == Idle
    {
      var s :| s in pending;
      var answer := remote[s];
      if s !in external && answer != Unreachable {
        var filter := ActiveFilter(s).(limit := Some(1));
        var actions := actiony.FindActions(filter);
        PollFindsActivity(actiony.table, s, filter);
        answer := if |actions| > 0 then Busy else Idle;
      }
      if answer == Busy {
        return Failure(busy);
      }
      if answer == Unreachable {
        return Failure(RemoteFailure);
      }
      pending := pending - {s};
    }
    r := Success(());
  }

  // -------------------------------------------------------------- repository

  class LockRepository {
    var locks: LockTable
    var nextLockId: LockId
    var now: nat

    ghost predicate Valid()
      reads this
    {
      forall id :: id in locks ==> id < nextLockId
    }

    constructor ()
      ensures Valid() && locks == map[]
    {
      locks, nextLockId, now := map[], 0, 0;
    }

    function FindNonexpiredLocks(services: set<Id>): (ids: set<LockId>)
      reads this
      ensures forall id :: id in ids <==>
                id in locks && locks[id].services * services != {} &&
                (locks[id].expiresAt.Some? ==> now < locks[id].expiresAt.value)
    {
      Nonexpired(locks, services, now)
    }

    method CreateLock(services: set<Id>, expiration: Option<nat>) returns (lockId: LockId)
      requires Valid()
      modifies this`locks, this`nextLockId
      ensures Valid() && lockId == old(nextLockId) && nextLockId == lockId + 1
      ensures lockId !in old(locks) && locks == old(locks)[lockId := NewLock(services, expiration, now)]
      ensures Lasts(locks, lockId, services, expiration, now)
      ensures locks.Keys == old(locks).Keys + {lockId} && forall id :: id in old(locks) ==> locks[id] == old(locks)[id]
    {
      NewLockLasts(locks, nextLockId, services, expiration, now);
      lockId := nextLockId;
      locks := locks[lockId := LockRow(services, if expiration.Some? then Some(now + expiration.value) else None)];
      nextLockId := nextLockId + 1;
    }

    method DeleteLock(lockId: LockId)
      requires Valid()
      modifies this`locks
      ensures Valid() && locks == old(locks) - {lockId}
    {
      locks := locks - {lockId};
    }
  }

  class LockManager {
    const repository: LockRepository
    const actiony: ActionRepository
    const reserveLockExpiration: nat
    const external: set<Id>

    constructor (repository: LockRepository, actiony: ActionRepository, reserveLockExpiration: nat, external: set<Id>)
      ensures this.repository == repository && this.actiony == actiony
      ensures this.reserveLockExpiration == reserveLockExpiration && this.external == external
    {
      this.repository := repository;
      this.actiony := actiony;
      this.reserveLockExpiration := reserveLockExpiration;
      this.external := external;
    }

    method Lock(services: set<Id>, expiration: Option<nat>) returns (r: Result<LockId>)
      requires repository.Valid()
      modifies repository`locks, repository`nextLockId
      ensures repository.Valid()
      ensures r.Success? <==> Nonexpired(old(repository.locks), services, repository.now) == {}
      ensures r.Success? ==>
                && r.value !in old(repository.locks)
                && repository.locks == old(repository.locks)[r.value := NewLock(services, expiration, repository.now)]
                && Lasts(repository.locks, r.value, services, expiration, repository.now)
      ensures r.Failure? ==> r.error == ServiceAlreadyLocked && repository.locks == old(repository.locks)
    {
      var nonexpired := repository.FindNonexpiredLocks(services);
      if |nonexpired| > 0 {
        return Failure(ServiceAlreadyLocked);
      }
      var lockId := repository.CreateLock(services, expiration);
      r := Success(lockId);
    }

    method Unlock(lockId: LockId) returns (r: Result<()>)
      requires repository.Valid()
      modifies repository`locks
      ensures repository.Valid() && repository.locks == old(repository.locks) - {lockId}
      ensures r == if lockId in old(repository.locks) then Success(()) else Failure(LockNotFound)
    {
      if lockId !in repository.locks {
        assert repository.locks - {lockId} == repository.locks;
        return Failure(LockNotFound);
      }
      repository.DeleteLock(lockId);
      r := Success(());
    }

    /** `fetched` is registry's answer; `remote` is what the polls get from outside actiony's table.
        A failed reservation leaves the lock table as it found it. */
    method Reserve(serviceId: Id, fetched: Result<FlatService>, remote: map<Id, Reply>)
      returns (r: Result<Option<LockId>>)
      requires repository.Valid()
      requires fetched.Success? ==> fetched.value.blockees <= remote.Keys
      modifies repository`locks, repository`nextLockId
      ensures repository.Valid()
      ensures r.Success? <==>
                && Nonexpired(old(repository.locks), {serviceId}, repository.now) == {}
                && fetched.Success?
                && AllIdle(actiony.table, fetched.value.blockees, external, remote)
      ensures r.Failure? || r.value.None? ==> repository.locks == old(repository.locks)
      ensures r.Success? ==> (r.value.None? <==> fetched.value.blockees == {})
      ensures r.Success? && r.value.Some? ==>
                && r.value.value !in old(repository.locks)
                && repository.locks == old(repository.locks)[
                     r.value.value := NewLock(fetched.value.blockees, Some(reserveLockExpiration), repository.now)]
                && Lasts(repository.locks, r.value.value, fetched.value.blockees, Some(reserveLockExpiration),
                         repository.now)
      ensures Nonexpired(old(repository.locks), {serviceId}, repository.now) != {} ==>
                r == Failure(ServiceAlreadyLocked)
      ensures Nonexpired(old(repository.locks), {serviceId}, repository.now) == {} ==>
                if fetched.Failure? then r == Failure(fetched.error)
                else r.Failure? ==>
                  var t, polled := actiony.table, fetched.value.blockees;
                  || (r.error == ActiveBlockingActions && SomeAnswers(t, polled, external, remote, Busy))
                  || (r.error == RemoteFailure && SomeAnswers(t, polled, external, remote, Unreachable))
    {
      var nonexpiredLocks := repository.FindNonexpiredLocks({serviceId});
      if |nonexpiredLocks| > 0 {
        return Failure(ServiceAlreadyLocked);
      }
      if fetched.Failure? {
        return Failure(fetched.error);
      }
      var service := fetched.value;
      if |service.blockees| == 0 {
        return Success(None);
      }
      var lockId := repository.CreateLock(service.blockees, Some(reserveLockExpiration));
      var polled := PollAll(actiony, service.blockees, external, remote, ActiveBlockingActions);
      if polled.Failure? {
        repository.DeleteLock(lockId);
        assert repository.locks == old(repository.locks);
        return Failure(polled.error);
      }
      r := Success(Some(lockId));
    }
  }
}
