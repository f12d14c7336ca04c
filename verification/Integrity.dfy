/** The consistency every registry operation keeps, and the table changes operations are made of. */
module Integrity {
  import opened Common
  import opened Registry

  ghost predicate RowHolds(db: Database, s: Id)
    requires s in db.services
  {
    var v := db.services[s];
    && s < db.nextId
    && v.namespaceId in db.namespaces
    && (v.parent.Some? ==> v.parent.value in db.services && db.services[v.parent.value].namespaceId == v.namespaceId)
  }

  ghost predicate NamesUnique(ss: Services) {
    forall s, t :: s in ss && t in ss && ss[s].namespaceId == ss[t].namespaceId && ss[s].name == ss[t].name ==> s == t
  }

  ghost predicate BlocksHold(db: Database) {
    forall b :: b in db.blocks ==> b.0 in db.services && b.1 in db.services
  }

  ghost predicate Consistent(db: Database) {
    && RotationsHold(db.services)
    && (forall s {:trigger RowHolds(db, s)} :: s in db.services ==> RowHolds(db, s))
    && NamesUnique(db.services)
    && BlocksHold(db)
    && (forall n :: n in db.namespaces ==> n < db.nextNamespaceId)
  }

  predicate Named(db: Database, s: Id, namespaceId: nat, name: string) {
    s in db.services && db.services[s].namespaceId == namespaceId && db.services[s].name == name
  }

  // ------------------------------------------------------------------- insert

  /** Saves a new row under a fresh key. */
  function Saved(db: Database, v: Service): Database {
    db.(services := db.services[db.nextId := v], nextId := db.nextId + 1)
  }

  /** The one rotation row a new service starts with records its parent's current rotation. */
  ghost predicate StartsAligned(db: Database, v: Service) {
    && |v.rotations| == 1
    && match v.parent
       case None => v.rotations[0].parentRotation.None?
       case Some(p) =>
         && p in db.services && db.services[p].rotations != []
         && v.rotations[0].parentRotation == Some(Current(db.services[p].rotations).serviceRotation)
  }

  lemma KeyIsFresh(db: Database)
    requires Consistent(db)
    ensures db.nextId !in db.services
  {
    assert db.nextId in db.services ==> RowHolds(db, db.nextId);
  }

  lemma SaveKeepsRotations(db: Database, v: Service)
    requires Consistent(db) && StartsAligned(db, v)
    ensures RotationsHold(Saved(db, v).services)
  {
    var ss := db.services;
    var tt := Saved(db, v).services;
    KeyIsFresh(db);
    forall s | s in tt
      ensures ParentHolds(tt, s) && HistoryHolds(tt[s])
    {
      if s in ss {
        assert ParentHolds(ss, s) && HistoryHolds(ss[s]);
      } else if v.parent.Some? {
        assert RowHolds(db, v.parent.value);
      }
    }
    forall s | s in tt
      ensures EdgeHolds(tt, s)
    {
      if s in ss {
        assert EdgeHolds(ss, s) && ParentHolds(ss, s);
      } else {
        assert Current(v.rotations) == v.rotations[0];
      }
    }
  }

  lemma SaveKeepsConsistent(db: Database, v: Service)
    requires Consistent(db) && StartsAligned(db, v)
    requires v.namespaceId in db.namespaces
    requires forall s :: !Named(db, s, v.namespaceId, v.name)
    requires v.parent.Some? ==> db.services[v.parent.value].namespaceId == v.namespaceId
    ensures db.nextId !in db.services && Consistent(Saved(db, v))
  {
    SaveKeepsRotations(db, v);
    var after := Saved(db, v);
    KeyIsFresh(db);
    forall s | s in after.services
      ensures RowHolds(after, s)
    {
      if s in db.services {
        assert RowHolds(db, s);
      }
    }
    forall s, t | s in after.services && t in after.services &&
                  after.services[s].namespaceId == after.services[t].namespaceId &&
                  after.services[s].name == after.services[t].name
      ensures s == t
    {
      assert s in db.services ==> !Named(db, s, v.namespaceId, v.name);
      assert t in db.services ==> !Named(db, t, v.namespaceId, v.name);
    }
  }

  // ------------------------------------------------------------------- delete

  /** Deletes rows; their rotations go with them and so do the blocks that touch them (ON DELETE CASCADE). */
  function Without(db: Database, gone: set<Id>): Database {
    db.(services := map s | s in db.services && s !in gone :: db.services[s],
        blocks := set b | b in db.blocks && b.0 !in gone && b.1 !in gone)
  }

  ghost predicate ClosedDownwards(ss: Services, gone: set<Id>) {
    forall c, p :: IsChild(ss, c, p) && p in gone ==> c in gone
  }

  lemma WithoutKeepsConsistent(db: Database, gone: set<Id>)
    requires Consistent(db) && ClosedDownwards(db.services, gone)
    ensures Consistent(Without(db, gone))
  {
    var after := Without(db, gone);
    var ss := db.services;
    var tt := after.services;
    forall s | s in tt
      ensures ParentHolds(tt, s) && HistoryHolds(tt[s]) && RowHolds(after, s)
    {
      assert ParentHolds(ss, s) && HistoryHolds(ss[s]) && RowHolds(db, s);
      assert ss[s].parent.Some? ==> IsChild(ss, s, ss[s].parent.value);
    }
    forall s | s in tt
      ensures EdgeHolds(tt, s)
    {
      assert EdgeHolds(ss, s) && ParentHolds(tt, s);
    }
  }

  function WithoutSubtree(db: Database, a: Id): Database {
    Without(db, Descendants(db.services, a))
  }

  lemma SubtreeIsClosed(db: Database, a: Id)
    requires Forest(db.services)
    ensures ClosedDownwards(db.services, Descendants(db.services, a))
  {
    forall c, p | IsChild(db.services, c, p) && p in Descendants(db.services, a)
      ensures c in Descendants(db.services, a)
    {
      assert ParentHolds(db.services, c);
    }
  }

  // ------------------------------------------------------------------- update

  /** Overwrites attributes that no invariant speaks of. */
  function Reattributed(db: Database, s: Id, parallelism: Parallelism, serviceType: ServiceType): Database
    requires s in db.services
  {
    db.(services := db.services[s := db.services[s].(parallelism := parallelism, serviceType := serviceType)])
  }

  lemma ReattributeKeepsConsistent(db: Database, s: Id, parallelism: Parallelism, serviceType: ServiceType)
    requires Consistent(db) && s in db.services
    ensures Consistent(Reattributed(db, s, parallelism, serviceType))
  {
    var after := Reattributed(db, s, parallelism, serviceType);
    var ss := db.services;
    var tt := after.services;
    forall x | x in tt
      ensures ParentHolds(tt, x) && HistoryHolds(tt[x]) && RowHolds(after, x)
    {
      assert ParentHolds(ss, x) && HistoryHolds(ss[x]) && RowHolds(db, x);
    }
    forall x | x in tt
      ensures EdgeHolds(tt, x)
    {
      assert EdgeHolds(ss, x);
    }
  }

  lemma RotateKeepsConsistent(db: Database, target: Id)
    requires Consistent(db)
    ensures Consistent(db.(services := Rotated(db.services, target)))
  {
    RotateKeepsAlignment(db.services, target);
    var after := db.(services := Rotated(db.services, target));
    forall s | s in after.services
      ensures RowHolds(after, s)
    {
      assert RowHolds(db, s);
    }
  }
}
