/** registry's repository and manager: queries over the tables, and a rotation without interruption. */
module RegistryServices {
  import opened Common
  import opened Actions
  import opened Locks
  import opened Registry

  /** One row more at the end of the history of each service that is given one. */
  function WithRows(ss: Services, rows: map<Id, Rotation>): Services {
    map s | s in ss :: if s in rows then ss[s].(rotations := ss[s].rotations + [rows[s]]) else ss[s]
  }

  /** The rows a rotation inserts, computed from the current ones. */
  function NextRows(current: map<Id, Rotation>, target: Id): map<Id, Rotation> {
    map s | s in current ::
      Rotation(
        if s == target then current[s].parentRotation else Some(current[s].parentRotation.GetOr(0) + 1),
        current[s].serviceRotation + 1)
  }

  /** The map holds the current row of every descendant that has one. */
  ghost predicate CurrentRows(ss: Services, target: Id, current: map<Id, Rotation>) {
    && (forall s :: s in current <==> s in Descendants(ss, target) && ss[s].rotations != [])
    && (forall s :: s in current ==> current[s] == Current(ss[s].rotations))
  }

  /** Inserting the rows computed from the current ones is the bump of the subtree. */
  lemma InsertIsBump(ss: Services, target: Id, current: map<Id, Rotation>)
    requires CurrentRows(ss, target, current)
    ensures WithRows(ss, NextRows(current, target)) == Rotated(ss, target)
    ensures NextRows(current, target).Keys == set s | s in Descendants(ss, target) && ss[s].rotations != []
  {
    var rows := NextRows(current, target);
    forall s | s in ss
      ensures WithRows(ss, rows)[s] == Rotated(ss, target)[s]
    {
      assert s in rows <==> Under(ss, s, target) && ss[s].rotations != [];
    }
  }

  /** Each service given a row has it at the end of its history, one up from its current row; every
      other row is as it was. */
  ghost predicate RowsAdded(was: Services, now: Services, rows: map<Id, Rotation>, target: Id) {
    && rows.Keys <= was.Keys == now.Keys
    && (forall s :: s in rows ==>
          && now[s] == was[s].(rotations := was[s].rotations + [rows[s]])
          && exists r :: IsCurrentRow(was[s].rotations, r) && IsNextRow(r, rows[s], s == target))
    && (forall s :: s in now && s !in rows ==> now[s] == was[s])
  }

  lemma InsertAddsRows(ss: Services, target: Id, current: map<Id, Rotation>)
    requires CurrentRows(ss, target, current)
    ensures var rows := NextRows(current, target); RowsAdded(ss, WithRows(ss, rows), rows, target)
  {
    var rows := NextRows(current, target);
    forall s | s in rows
      ensures exists r :: IsCurrentRow(ss[s].rotations, r) && IsNextRow(r, rows[s], s == target)
    {
      assert s in current && s in Descendants(ss, target);
      CurrentIsCurrentRow(ss[s].rotations);
      assert IsNextRow(Current(ss[s].rotations), rows[s], s == target);
    }
    assert rows.Keys <= ss.Keys;
  }

  class ServiceRepository {
    var db: Database

    constructor (db: Database)
      ensures this.db == db
    {
      this.db := db;
    }

    /** The current row of the service, unless it or its rotations are missing. */
    function FindDetailedServiceById(id: Id): (r: Option<Rotation>)
      reads this
      ensures r.Some? <==> id in db.services && db.services[id].rotations != []
      ensures r.Some? ==> r.value in db.services[id].rotations &&
                          forall q :: q in db.services[id].rotations ==> !Above(q, r.value)
      ensures r.Some? ==> IsCurrentRow(db.services[id].rotations, r.value)
    {
      if id !in db.services || db.services[id].rotations == [] then None
      else
        CurrentIsFirst(db.services[id].rotations);
        CurrentIsCurrentRow(db.services[id].rotations);
        Some(Current(db.services[id].rotations))
    }

    function FindCurrentRotations(ids: set<Id>): (r: map<Id, Rotation>)
      reads this
      ensures forall id :: id in r <==> id in ids && FindDetailedServiceById(id).Some?
      ensures forall id :: id in r ==> FindDetailedServiceById(id) == Some(r[id])
    {
      map id | id in ids && FindDetailedServiceById(id).Some? :: FindDetailedServiceById(id).value
    }

    function FindDescendants(id: Id): set<Id>
      reads this
    {
      Descendants(db.services, id)
    }

    function FindChildren(id: Id): (r: set<Id>)
      reads this
      ensures forall c :: c in r <==> c in db.services && db.services[c].parent == Some(id)
    {
      Children(db.services, id)
    }

    function FindBlocks(id: Id): (r: set<Id>)
      reads this
      ensures forall b :: b in r <==> (id, b) in db.blocks
    {
      Blockees(db.blocks, id)
    }

    /** Inserts one row per descendant that has a current row; answers with the rows. */
    method CreateServiceRotation(serviceId: Id) returns (rotations: map<Id, Rotation>)
      requires serviceId in db.services
      modifies this
      ensures db == old(db).(services := Rotated(old(db).services, serviceId))
      ensures rotations.Keys ==
              set s | s in Descendants(old(db).services, serviceId) && old(db).services[s].rotations != []
      ensures RowsAdded(old(db).services, db.services, rotations, serviceId)
    {
      var descendants := FindDescendants(serviceId);
      var current := FindCurrentRotations(descendants);
      rotations := NextRows(current, serviceId);
      InsertIsBump(db.services, serviceId, current);
      InsertAddsRows(db.services, serviceId, current);
      db := db.(services := WithRows(db.services, rotations));
    }
  }

  class ServiceManager {
    const repository: ServiceRepository
    const locky: LockManager
    const rotationLockExpiration: nat
    const external: set<Id>

    constructor (repository: ServiceRepository, locky: LockManager, rotationLockExpiration: nat, external: set<Id>)
      ensures this.repository == repository && this.locky == locky
      ensures this.rotationLockExpiration == rotationLockExpiration && this.external == external
    {
      this.repository := repository;
      this.locky := locky;
      this.rotationLockExpiration := rotationLockExpiration;
      this.external := external;
    }

    method Detail(serviceId: Id) returns (r: Result<FlatService>)
      ensures r == Detailed(repository.db, serviceId)
      ensures r.Success? <==> serviceId in repository.db.services && repository.db.services[serviceId].rotations != []
      ensures r.Failure? ==> r.error == ServiceNotFound
      ensures r.Success? ==>
                var f, v := r.value, repository.db.services[serviceId];
                && f.serviceId == serviceId && f.namespaceId == v.namespaceId && f.parallelism == v.parallelism
                && f.parent == v.parent
                && IsCurrentRow(v.rotations, Rotation(f.parentRotation, f.serviceRotation))
                && (forall c :: c in f.children <==>
                      c in repository.db.services && repository.db.services[c].parent == Some(serviceId))
                && (forall b :: b in f.blockees <==> (serviceId, b) in repository.db.blocks)
    {
      var current := repository.FindDetailedServiceById(serviceId);
      if current.None? {
        return Failure(ServiceNotFound);
      }
      var v := repository.db.services[serviceId];
      var children := repository.FindChildren(serviceId);
      var blockees := repository.FindBlocks(serviceId);
      r := Success(FlatService(
        serviceId, v.namespaceId, v.parallelism, current.value.serviceRotation, v.parent,
        current.value.parentRotation, children, blockees));
    }

    /** Lock the subtree, poll it, bump it, unlock it. The lock table always ends as it began;
        the registry changes exactly when the rotation succeeds. */
    method Rotate(serviceId: Id, remote: map<Id, Reply>) returns (r: Result<()>)
      requires locky.repository.Valid()
      requires Descendants(repository.db.services, serviceId) <= remote.Keys
      modifies repository, locky.repository`locks, locky.repository`nextLockId
      ensures locky.repository.Valid() && locky.repository.locks == old(locky.repository.locks)
      ensures r.Success? <==>
                && serviceId in old(repository.db).services
                && var tree := Descendants(old(repository.db).services, serviceId);
                && Nonexpired(old(locky.repository.locks), tree, locky.repository.now) == {}
                && AllIdle(locky.actiony.table, tree, external, remote)
      ensures repository.db ==
              if r.Success? then old(repository.db).(services := Rotated(old(repository.db).services, serviceId))
              else old(repository.db)
      ensures serviceId !in old(repository.db).services ==> r == Failure(ServiceNotFound)
      ensures serviceId in old(repository.db).services ==>
                var tree := Descendants(old(repository.db).services, serviceId);
                if Nonexpired(old(locky.repository.locks), tree, locky.repository.now) != {}
                then r == Failure(ServiceAlreadyLocked)
                else r.Failure? ==>
                  || (r.error == ServiceIsActive && SomeAnswers(locky.actiony.table, tree, external, remote, Busy))
                  || (r.error == RemoteFailure && SomeAnswers(locky.actiony.table, tree, external, remote, Unreachable))
    {
      if serviceId !in repository.db.services {
        return Failure(ServiceNotFound);
      }
      var descendants := repository.FindDescendants(serviceId);
      var lock := locky.Lock(descendants, Some(rotationLockExpiration));
      if lock.Failure? {
        return Failure(lock.error);
      }
      var polled := PollAll(locky.actiony, descendants, external, remote, ServiceIsActive);
      if polled.Failure? {
        var undone := locky.Unlock(lock.value);
        assert locky.repository.locks == old(locky.repository.locks);
        return Failure(polled.error);
      }
      var rotations := repository.CreateServiceRotation(serviceId);
      var unlocked := locky.Unlock(lock.value);
      assert locky.repository.locks == old(locky.repository.locks);
      r := Success(());
    }
  }
}
