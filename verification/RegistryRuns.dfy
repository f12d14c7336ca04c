/** Every sequence of seedings, modifications, deletions and rotations, from empty tables. */
module RegistryRuns {
  import opened Common
  import opened Registry
  import opened Integrity
  import opened Seeding
  import opened Seeded
  import opened Modifying
  import opened ModifyOutcome
  import opened ModifySuccess

  /** `ns` is the namespace a modify action's lookup by name returned. */
  datatype Operation =
    | Create(name: string, services: seq<ServiceInput>)
    | Modify(ns: nat, entries: Option<seq<SeedEntry>>)
    | Delete(name: string)
    | Rotate(target: Id)

  /** What is committed: a failed transaction rolls back and an endless one never commits. */
  ghost function Committed(db: Database, op: Operation): Database {
    match op
    case Create(name, services) =>
      var r := NamespaceCreated(db, name, services);
      if Seedable(services) && r.Success? then r.value else db
    case Modify(ns, entries) =>
      var r := NamespaceModified(db, ns, entries);
      if ns in db.namespaces && r.Success? then r.value else db
    case Delete(name) => NamespaceDeleted(db, name)
    case Rotate(target) => db.(services := Rotated(db.services, target))
  }

  /** What a committed operation leaves: a creation the services, parents, rotations and blocks of its list,
      a modification what `Outcome` says, a deletion everything outside the namespaces of the name, a
      rotation one row more per descendant; and every other operation the tables it found. */
  ghost predicate Leaves(db: Database, op: Operation, after: Database) {
    match op
    case Create(name, services) =>
      if Seedable(services) && BlockeesListed(services)
      then && ServicePortraits(after, db.nextNamespaceId) == Expected(services)
           && BlockPortraits(after, db.nextNamespaceId) == ExpectedBlocks(services)
           && db.blocks <= after.blocks && after.namespaces == db.namespaces[db.nextNamespaceId := name]
           && (forall s :: s in db.services ==> s in after.services && after.services[s] == db.services[s])
           && (forall s :: s in after.services && s !in db.services ==>
                 after.services[s].namespaceId == db.nextNamespaceId)
      else after == db
    case Modify(ns, entries) =>
      if ns in db.namespaces && entries.Some? && MaySucceed(db, ns, entries.value)
      then Outcome(db, ns, entries.value, after)
      else after == db
    case Delete(name) =>
      && (forall s :: s in after.services <==>
            s in db.services && db.services[s].namespaceId in db.namespaces &&
            db.namespaces[db.services[s].namespaceId] != name)
      && (forall s :: s in after.services ==> after.services[s] == db.services[s])
      && (forall n :: n in after.namespaces <==> n in db.namespaces && db.namespaces[n] != name)
      && (forall n :: n in after.namespaces ==> after.namespaces[n] == db.namespaces[n])
      && (forall b :: b in after.blocks <==> b in db.blocks && b.0 in after.services && b.1 in after.services)
    case Rotate(target) =>
      && after == db.(services := after.services) && after.services.Keys == db.services.Keys
      && forall s :: s in db.services ==>
           if s in Descendants(db.services, target)
           then exists r, next :: IsCurrentRow(db.services[s].rotations, r) && IsNextRow(r, next, s == target) &&
                                  after.services[s] == db.services[s].(rotations := db.services[s].rotations + [next])
           else after.services[s] == db.services[s]
  }

  lemma DeleteLeaves(db: Database, name: string)
    requires Consistent(db)
    ensures Leaves(db, Delete(name), NamespaceDeleted(db, name))
  {
    assert forall s :: s in db.services ==> RowHolds(db, s);
  }

  lemma RotateLeaves(db: Database, target: Id)
    requires Consistent(db)
    ensures Leaves(db, Rotate(target), Committed(db, Rotate(target)))
  {
    forall s | s in db.services && s in Descendants(db.services, target)
      ensures exists r, next :: IsCurrentRow(db.services[s].rotations, r) && IsNextRow(r, next, s == target) &&
                                Rotated(db.services, target)[s] ==
                                db.services[s].(rotations := db.services[s].rotations + [next])
    {
      assert HistoryHolds(db.services[s]);
      RotatedRows(db.services, target, s);
    }
    forall s | s in db.services && s !in Descendants(db.services, target)
      ensures Rotated(db.services, target)[s] == db.services[s]
    {
      RotatedRows(db.services, target, s);
    }
  }

  /** An operation commits exactly when its transaction succeeds, and then leaves this. */
  lemma CommittedExactly(db: Database, op: Operation)
    requires Consistent(db)
    ensures Leaves(db, op, Committed(db, op))
  {
    match op
    case Create(name, services) =>
      if Seedable(services) {
        CreationMeetsTheList(db, name, services);
      }
    case Modify(ns, entries) =>
      if ns in db.namespaces && entries.Some? {
        ModifySucceedsExactly(db, ns, entries.value);
        if NamespaceModified(db, ns, entries).Success? {
          ModifyAchieves(db, ns, entries.value);
        }
      }
    case Delete(name) => DeleteLeaves(db, name);
    case Rotate(target) => RotateLeaves(db, target);
  }

  ghost function RunAll(db: Database, ops: seq<Operation>): Database {
    if ops == [] then db else Committed(RunAll(db, ops[..|ops| - 1]), ops[|ops| - 1])
  }

  const EMPTY := Database(map[], {}, map[], 0, 0)

  lemma CommitKeepsConsistent(db: Database, op: Operation)
    requires Consistent(db)
    ensures Consistent(Committed(db, op))
  {
    match op
    case Create(name, services) =>
      if Seedable(services) {
        CreationMeetsTheList(db, name, services);
      }
    case Modify(ns, entries) =>
      if ns in db.namespaces && NamespaceModified(db, ns, entries).Success? {
        ModifyKeepsConsistent(db, ns, entries);
      }
    case Delete(name) => DeleteNamespaceKeepsConsistent(db, name);
    case Rotate(target) => RotateKeepsConsistent(db, target);
  }

  lemma {:induction false} ReachableIsConsistent(ops: seq<Operation>)
    ensures Consistent(RunAll(EMPTY, ops))
  {
    if ops != [] {
      ReachableIsConsistent(ops[..|ops| - 1]);
      CommitKeepsConsistent(RunAll(EMPTY, ops[..|ops| - 1]), ops[|ops| - 1]);
    }
  }

  /** In every reachable state, for every service: the three queries for the current rotation agree
      on the last row inserted, neither unique index is violated, the recorded parent rotation is
      null exactly for a root, and otherwise it is the current rotation of the parent. */
  lemma ParentAlignmentEverywhere(ops: seq<Operation>, s: Id)
    requires s in RunAll(EMPTY, ops).services
    ensures var ss := RunAll(EMPTY, ops).services; var rows := ss[s].rotations;
            && rows != [] && UniqueIndexesHold(rows)
            && Current(rows) == TopByServiceRotation(rows) == rows[|rows| - 1]
            && (Current(rows).parentRotation.None? <==> ss[s].parent.None?)
            && (ss[s].parent.Some? ==>
                  && ss[s].parent.value in ss && ss[ss[s].parent.value].rotations != []
                  && Current(rows).parentRotation == Some(Current(ss[ss[s].parent.value].rotations).serviceRotation))
  {
    ReachableIsConsistent(ops);
    var ss := RunAll(EMPTY, ops).services;
    assert ParentHolds(ss, s) && HistoryHolds(ss[s]) && EdgeHolds(ss, s);
    ChainQueriesAgree(ss[s].rotations);
    if ss[s].parent.Some? {
      assert HistoryHolds(ss[ss[s].parent.value]);
    }
  }
}
