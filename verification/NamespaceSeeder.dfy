/** The seeder itself: loops over tables that it changes row by row, inside one transaction. */
module NamespaceSeeder {
  import opened Common
  import opened Registry
  import opened Integrity
  import opened Seeding
  import opened Seeded
  import opened Modifying
  import opened ModifyOutcome
  import opened ModifySuccess
  import opened Subtrees

  datatype SeedInput =
    | CreateInput(name: string, services: Option<seq<ServiceInput>>)
    | ModifyInput(name: string, entries: Option<seq<SeedEntry>>)
    | DeleteInput(name: string)

  lemma ChildIsDeeper(db: Database, p: Id, c: Id)
    requires Consistent(db) && IsChild(db.services, c, p)
    ensures p < c < db.nextId
  {
    assert ParentHolds(db.services, c) && RowHolds(db, c);
  }

  // -------------------------------------------------------------------- the seeder

  class Seeder {
    var db: Database
    var remaining: int

    constructor (db: Database)
      ensures this.db == db && remaining == 0
    {
      this.db := db;
      remaining := 0;
    }

    /** The foreign key on the parent column refuses to delete a row that another row names as parent. */
    method DeleteRow(id: Id)
      requires id in db.services && forall c :: !IsChild(db.services, c, id)
      modifies this`db
      ensures db == Without(old(db), {id})
    {
      db := Without(db, {id});
    }

    /** Children first, then the service itself. */
    method DeleteService(id: Id)
      requires Consistent(db) && id in db.services
      modifies this`db, this`remaining
      ensures db == WithoutSubtree(old(db), id) && Consistent(db)
      ensures remaining == old(remaining) - |Descendants(old(db).services, id)|
      decreases db.nextId - id, 1
    {
      ghost var start := db;
      DeleteChildren(id);
      ChildrenGone(start, id);
      DeleteRow(id);
      remaining := remaining - 1;
    }

    /** The subtrees of the children, in any order. */
    method DeleteChildren(id: Id)
      requires Consistent(db) && id in db.services
      modifies this`db, this`remaining
      ensures db == Without(old(db), UnderAny(old(db).services, Children(old(db).services, id)))
      ensures remaining == old(remaining) - |UnderAny(old(db).services, Children(old(db).services, id))|
      decreases db.nextId - id, 0
    {
      ghost var start, counter := db, remaining;
      var children := Children(db.services, id);
      var pending := children;
      assert Without(db, {}) == db;
      assert children - pending == {};
      while pending != {}
        invariant pending <= children
        invariant db == Without(start, UnderAny(start.services, children - pending))
        invariant remaining == counter - |UnderAny(start.services, children - pending)|
        decreases pending
      {
        var child :| child in pending;
        ChildIsDeeper(start, id, child);
        assert (children - pending) + {child} == children - (pending - {child});
        DeleteChild(start, id, child, children - pending);
        pending := pending - {child};
      }
      assert children - pending == children;
    }

    method DeleteChild(ghost start: Database, ghost id: Id, child: Id, ghost done: set<Id>)
      requires Consistent(start) && child in Children(start.services, id) - done && done <= Children(start.services, id)
      requires db == Without(start, UnderAny(start.services, done))
      modifies this`db, this`remaining
      ensures db == Without(start, UnderAny(start.services, done + {child}))
      ensures remaining ==
              old(remaining) + |UnderAny(start.services, done)| - |UnderAny(start.services, done + {child})|
      decreases start.nextId - child, 2
    {
      NextSubtree(start, id, child, done);
      DeleteService(child);
    }

    method FindNamed(namespaceId: nat, name: string) returns (r: Option<Id>)
      requires NamesUnique(db.services)
      ensures r == Find(db, namespaceId, name)
    {
      if s :| s in db.services && Named(db, s, namespaceId, name) {
        r := Some(s);
      } else {
        r := None;
      }
    }

    // ------------------------------------------------------------------ create

    /** One turn of the inner loop. */
    method Consider(ids: map<string, Id>, input: seq<ServiceInput>, namespaceId: nat, i: nat)
      returns (saved: map<string, Id>)
      requires i < |input|
      modifies this`db, this`remaining
      ensures Progress(db, saved) == Visit(Progress(old(db), ids), input, namespaceId, i)
      ensures remaining == old(remaining) - (|saved| - |ids|)
    {
      var service := input[i];
      if service.name in ids || (service.parent.Some? && service.parent.value !in ids) {
        return ids;
      }
      var id := db.nextId;
      var parent := if service.parent.None? then None else IndexOf(input, service.parent.value);
      var serviceRotation := service.rotation.GetOr(INITIAL_ROTATION_VALUE);
      var parentRotation :=
        if parent.Some? then Some(input[parent.value].rotation.GetOr(INITIAL_ROTATION_VALUE)) else None;
      var row := Service(
        namespaceId, service.name, service.parallelism, service.serviceType,
        if service.parent.Some? then Some(ids[service.parent.value]) else None,
        [Rotation(parentRotation, serviceRotation)]);
      db := db.(services := db.services[id := row], nextId := id + 1);
      saved := ids[service.name := id];
      remaining := remaining - 1;
    }

    method Pass(ids: map<string, Id>, input: seq<ServiceInput>, namespaceId: nat) returns (saved: map<string, Id>)
      modifies this`db, this`remaining
      ensures Progress(db, saved) == PassTo(Progress(old(db), ids), input, namespaceId, |input|)
      ensures remaining - old(remaining) ==
              Remaining(Progress(db, saved), input) - Remaining(Progress(old(db), ids), input)
    {
      saved := ids;
      for i := 0 to |input|
        invariant Progress(db, saved) == PassTo(Progress(old(db), ids), input, namespaceId, i)
        invariant remaining == old(remaining) - (|saved| - |ids|)
      {
        saved := Consider(saved, input, namespaceId, i);
      }
    }

    /** The `while (remaining > 0)` loop, watched for at most `patience` passes. It ends by itself on
        exactly the seedable lists, as soon as patience suffices for as many passes as services. */
    method CreateServices(input: seq<ServiceInput>, namespaceId: nat, patience: nat)
      returns (ids: map<string, Id>, ended: bool)
      modifies this`db, this`remaining
      ensures ended ==> Seedable(input) && ids.Keys == Names(input)
      ensures ended ==> Progress(db, ids) == Passes(Start(old(db)), input, namespaceId, |input|)
      ensures !ended ==> Progress(db, ids) == Passes(Start(old(db)), input, namespaceId, patience)
      ensures !ended ==> forall j: nat :: j <= patience ==> !StopsAfter(old(db), input, namespaceId, j)
      ensures Seedable(input) && |input| <= patience ==> ended
    {
      ids := map[];
      remaining := |input|;
      var passes := 0;
      ghost var start := Start(db);
      while remaining > 0 && passes < patience
        invariant passes <= patience
        invariant Passes(start, input, namespaceId, passes) == Progress(db, ids)
        invariant KeysHold(Progress(db, ids), input)
        invariant remaining == Remaining(Progress(db, ids), input) >= 0
        invariant forall j: nat :: j < passes ==> !StopsAfter(old(db), input, namespaceId, j)
        decreases patience - passes
      {
        ghost var before := Progress(db, ids);
        ids := Pass(ids, input, namespaceId);
        PassKeepsCounter(before, input, namespaceId);
        passes := passes + 1;
      }
      ended := remaining <= 0;
      LoopOutcome(old(db), input, namespaceId, passes);
    }

    /** No result means that the loop is still running when patience is over. */
    method CreateNamespace(name: string, services: Option<seq<ServiceInput>>, patience: nat)
      returns (r: Option<Result<map<string, Id>>>)
      modifies this`db, this`remaining
      ensures var input := services.GetOr([]);
              && (r.Some? ==> Seedable(input))
              && (Seedable(input) && |input| <= patience ==> r.Some?)
              && (r.Some? ==>
                    match NamespaceCreated(old(db), name, input)
                    case Failure(e) => r == Some(Failure(e))
                    case Success(d) => db == d && r == Some(Success(ServicesSeeded(old(db), name, input).ids)))
      ensures Consistent(old(db)) && r.Some? ==> (r.value.Success? <==> BlockeesListed(services.GetOr([])))
      ensures Consistent(old(db)) && r.Some? && r.value.Success? ==>
                && r.value.value.Keys == Names(services.GetOr([]))
                && forall n :: n in r.value.value ==> Named(db, r.value.value[n], old(db).nextNamespaceId, n)
    {
      ghost var start := db;
      var input := services.GetOr([]);
      var namespaceId := db.nextNamespaceId;
      db := db.(namespaces := db.namespaces[namespaceId := name], nextNamespaceId := namespaceId + 1);
      var ids, ended := CreateServices(input, namespaceId, patience);
      if !ended {
        return None;
      }
      assert forall e :: e in input ==> e.name in Names(input);
      CreatedFrom(old(db), name, input, db, ids);
      var created := CreateBlocks(ids, input);
      r := Some(created);
      if Consistent(start) {
        CreationMeetsTheList(start, name, input);
        IdsNameTheRows(start, name, input);
      }
    }

    method CreateBlocks(ids: map<string, Id>, input: seq<ServiceInput>) returns (r: Result<map<string, Id>>)
      requires forall e :: e in input ==> e.name in ids
      modifies this`db
      ensures r == if BlockeesKnown(ids, input) then Success(ids) else Failure(BadInput)
      ensures r.Success? ==> db == old(db).(blocks := old(db).blocks + SeededBlocks(ids, input))
    {
      for i := 0 to |input|
        invariant BlockeesKnown(ids, input[..i])
        invariant db == old(db).(blocks := old(db).blocks + SeededBlocks(ids, input[..i]))
      {
        var service := input[i];
        var earlier := input[..i];
        for j := 0 to |service.blockees|
          invariant BlockeesKnown(ids, earlier)
          invariant forall b :: b in service.blockees[..j] ==> b in ids
          invariant db == old(db).(blocks := old(db).blocks + SeededBlocks(ids, earlier) +
                                             set b | b in service.blockees[..j] :: (ids[service.name], ids[b]))
        {
          var blockee := service.blockees[j];
          if blockee !in ids {
            assert service in input;
            return Failure(BadInput);
          }
          db := db.(blocks := db.blocks + {(ids[service.name], ids[blockee])});
          assert service.blockees[..j + 1] == service.blockees[..j] + [blockee];
        }
        assert service.blockees[..|service.blockees|] == service.blockees;
        assert input[..i + 1] == earlier + [service];
      }
      assert input[..|input|] == input;
      r := Success(ids);
    }

    // ------------------------------------------------------------------ modify

    method DeleteNamed(namespaceId: nat, name: string) returns (r: Result<()>)
      requires Consistent(db)
      modifies this`db, this`remaining
      ensures match Deletion(namespaceId)(old(db), name)
              case Failure(e) => r == Failure(e)
              case Success(d) => r.Success? && db == d && Consistent(d)
    {
      var service := FindNamed(namespaceId, name);
      if service.None? {
        return Failure(EntityNotFound);
      }
      DeleteService(service.value);
      r := Success(());
    }

    method CreateNamed(namespaceId: nat, e: ServiceInput) returns (r: Result<()>)
      requires Consistent(db) && namespaceId in db.namespaces
      modifies this`db
      ensures match Creation(namespaceId)(old(db), e)
              case Failure(err) => r == Failure(err)
              case Success(d) => r.Success? && db == d && Consistent(d) && d.namespaces == old(db).namespaces
    {
      ghost var start := db;
      var existing := FindNamed(namespaceId, e.name);
      if existing.Some? {
        return Success(());
      }
      var parent: Option<Id> := None;
      var parentRotation: Option<int> := None;
      if e.parent.Some? {
        parent := FindNamed(namespaceId, e.parent.value);
        if parent.None? {
          return Failure(EntityNotFound);
        }
        if |db.services[parent.value].rotations| == 0 {
          return Failure(BadInput);
        }
        parentRotation := Some(TopByServiceRotation(db.services[parent.value].rotations).serviceRotation);
      }
      var row := Service(namespaceId, e.name, e.parallelism, e.serviceType, parent,
                         [Rotation(parentRotation, e.rotation.GetOr(INITIAL_ROTATION_VALUE))]);
      db := db.(services := db.services[db.nextId := row], nextId := db.nextId + 1);
      CreationKeepsConsistent(start, namespaceId, e);
      r := Success(());
    }

    method ModifyNamed(namespaceId: nat, m: Modification) returns (r: Result<()>)
      requires Consistent(db)
      modifies this`db
      ensures match Reattribution(namespaceId)(old(db), m)
              case Failure(e) => r == Failure(e)
              case Success(d) => r.Success? && db == d && Consistent(d)
    {
      if m.parallelism.None? && m.serviceType.None? {
        return Success(());
      }
      var fetched := FindNamed(namespaceId, m.name);
      if fetched.None? {
        return Failure(EntityNotFound);
      }
      var id := fetched.value;
      var row := db.services[id];
      ReattributeKeepsConsistent(db, id, m.parallelism.GetOr(row.parallelism), m.serviceType.GetOr(row.serviceType));
      db := db.(services := db.services[id :=
        row.(parallelism := m.parallelism.GetOr(row.parallelism),
             serviceType := m.serviceType.GetOr(row.serviceType))]);
      r := Success(());
    }

    method BlockNamed(namespaceId: nat, name: string, blockees: seq<string>) returns (r: Result<()>)
      requires Consistent(db)
      modifies this`db
      ensures match Blocking(namespaceId)(old(db), (name, blockees))
              case Failure(e) => r == Failure(e)
              case Success(d) => r.Success? && db == d && Consistent(d)
    {
      ghost var start := db;
      var blocker := FindNamed(namespaceId, name);
      if blocker.None? {
        return Failure(EntityNotFound);
      }
      ghost var f := BlockAddition(namespaceId, blocker.value);
      for i := 0 to |blockees|
        invariant Fold(f, start, blockees[..i]) == Success(db)
        invariant Consistent(db) && db.services == start.services
      {
        FoldNext(f, start, blockees, i);
        var blockee := FindNamed(namespaceId, blockees[i]);
        if blockee.None? {
          FoldStopsAtFailure(f, start, blockees, i + 1);
          return Failure(EntityNotFound);
        }
        AddBlockKeepsConsistent(db, (blocker.value, blockee.value));
        if (blocker.value, blockee.value) !in db.blocks {
          db := db.(blocks := db.blocks + {(blocker.value, blockee.value)});
        }
        assert db == db.(blocks := db.blocks + {(blocker.value, blockee.value)});
      }
      assert blockees[..|blockees|] == blockees;
      r := Success(());
    }

    method DeleteAll(namespaceId: nat, names: seq<string>) returns (r: Result<()>)
      requires Consistent(db)
      modifies this`db, this`remaining
      ensures match Fold(Deletion(namespaceId), old(db), names)
              case Failure(e) => r == Failure(e)
              case Success(d) => r.Success? && db == d && Consistent(d)
    {
      ghost var start, f := db, Deletion(namespaceId);
      for i := 0 to |names|
        invariant Fold(f, start, names[..i]) == Success(db) && Consistent(db)
      {
        FoldNext(f, start, names, i);
        r := DeleteNamed(namespaceId, names[i]);
        if r.Failure? {
          FoldStopsAtFailure(f, start, names, i + 1);
          return;
        }
      }
      assert names[..|names|] == names;
      r := Success(());
    }

    method CreateAll(namespaceId: nat, creations: seq<ServiceInput>) returns (r: Result<()>)
      requires Consistent(db) && namespaceId in db.namespaces
      modifies this`db
      ensures match Fold(Creation(namespaceId), old(db), creations)
              case Failure(e) => r == Failure(e)
              case Success(d) => r.Success? && db == d && Consistent(d)
    {
      ghost var start, f := db, Creation(namespaceId);
      for i := 0 to |creations|
        invariant Fold(f, start, creations[..i]) == Success(db) && Consistent(db) && namespaceId in db.namespaces
      {
        FoldNext(f, start, creations, i);
        r := CreateNamed(namespaceId, creations[i]);
        if r.Failure? {
          FoldStopsAtFailure(f, start, creations, i + 1);
          return;
        }
      }
      assert creations[..|creations|] == creations;
      r := Success(());
    }

    method ModifyAll(namespaceId: nat, modifications: seq<Modification>) returns (r: Result<()>)
      requires Consistent(db)
      modifies this`db
      ensures match Fold(Reattribution(namespaceId), old(db), modifications)
              case Failure(e) => r == Failure(e)
              case Success(d) => r.Success? && db == d && Consistent(d)
    {
      ghost var start, f := db, Reattribution(namespaceId);
      for i := 0 to |modifications|
        invariant Fold(f, start, modifications[..i]) == Success(db) && Consistent(db)
      {
        FoldNext(f, start, modifications, i);
        r := ModifyNamed(namespaceId, modifications[i]);
        if r.Failure? {
          FoldStopsAtFailure(f, start, modifications, i + 1);
          return;
        }
      }
      assert modifications[..|modifications|] == modifications;
      r := Success(());
    }

    method BlockAll(namespaceId: nat, blockers: seq<(string, seq<string>)>) returns (r: Result<()>)
      requires Consistent(db)
      modifies this`db
      ensures match Fold(Blocking(namespaceId), old(db), blockers)
              case Failure(e) => r == Failure(e)
              case Success(d) => r.Success? && db == d && Consistent(d)
    {
      ghost var start, f := db, Blocking(namespaceId);
      for i := 0 to |blockers|
        invariant Fold(f, start, blockers[..i]) == Success(db) && Consistent(db)
      {
        FoldNext(f, start, blockers, i);
        r := BlockNamed(namespaceId, blockers[i].0, blockers[i].1);
        if r.Failure? {
          FoldStopsAtFailure(f, start, blockers, i + 1);
          return;
        }
      }
      assert blockers[..|blockers|] == blockers;
      r := Success(());
    }

    /** `namespaceId` is whichever namespace of that name the lookup returned. */
    method ModifyNamespace(name: string, entries: Option<seq<SeedEntry>>)
      returns (r: Result<()>, ghost namespaceId: Option<nat>)
      requires Consistent(db)
      modifies this`db, this`remaining
      ensures match namespaceId
              case None => r == Failure(EntityNotFound) && name !in old(db).namespaces.Values
              case Some(n) =>
                n in old(db).namespaces && old(db).namespaces[n] == name &&
                match NamespaceModified(old(db), n, entries)
                case Failure(e) => r == Failure(e)
                case Success(d) => r.Success? && db == d && Consistent(d)
      ensures namespaceId.Some? ==>
                (r.Success? <==> entries.Some? && MaySucceed(old(db), namespaceId.value, entries.value))
      ensures namespaceId.Some? && r.Success? ==> Outcome(old(db), namespaceId.value, entries.value, db)
    {
      namespaceId := None;
      if n :| n in db.namespaces && db.namespaces[n] == name {
        namespaceId := Some(n);
        if entries.None? {
          return Failure(BadInput), namespaceId;
        }
        ghost var start := db;
        FoldKeepsNamespaces(Deletion(n), db, Deletions(entries.value));
        ModifySucceedsExactly(db, n, entries.value);
        if MaySucceed(db, n, entries.value) {
          ModifyAchieves(db, n, entries.value);
        }
        r := DeleteAll(n, Deletions(entries.value));
        if r.Failure? {
          return;
        }
        r := CreateAll(n, Creations(entries.value));
        if r.Failure? {
          return;
        }
        r := ModifyAll(n, Modifications(entries.value));
        if r.Failure? {
          return;
        }
        r := BlockAll(n, Blockers(entries.value));
      } else {
        r := Failure(EntityNotFound);
      }
    }

    // ------------------------------------------------------------------- run

    /** No namespace of that name is left, nor a service of one, nor a block that touches such a
        service; everything else is as it was. */
    method DeleteNamespace(name: string)
      requires Consistent(db)
      modifies this`db
      ensures db == NamespaceDeleted(old(db), name) && Consistent(db)
      ensures name !in db.namespaces.Values
      ensures forall n :: n in old(db).namespaces && old(db).namespaces[n] != name ==>
                n in db.namespaces && db.namespaces[n] == old(db).namespaces[n]
      ensures forall s :: s in old(db).services ==>
                var ns := old(db).services[s].namespaceId;
                && ns in old(db).namespaces
                && if old(db).namespaces[ns] == name then s !in db.services
                   else s in db.services && db.services[s] == old(db).services[s]
      ensures db.services.Keys <= old(db).services.Keys && db.namespaces.Keys <= old(db).namespaces.Keys
      ensures forall b :: b in db.blocks <==> b in old(db).blocks && b.0 in db.services && b.1 in db.services
    {
      assert forall s :: s in db.services ==> RowHolds(db, s);
      DeleteNamespaceKeepsConsistent(db, name);
      var gone := set s | s in db.services && db.namespaces[db.services[s].namespaceId] == name;
      assert gone == ServicesOf(db, name);
      db := db.(
        services := map s | s in db.services && s !in gone :: db.services[s],
        blocks := (set b | b in db.blocks && b.0 !in gone && b.1 !in gone),
        namespaces := map n | n in db.namespaces && db.namespaces[n] != name :: db.namespaces[n]);
    }

    /** One seed file in one transaction: it commits consistent tables or rolls back. No result means
        that a create action is still running, uncommitted, when patience is over. */
    method Run(input: SeedInput, patience: nat) returns (r: Option<Result<()>>)
      requires Consistent(db)
      modifies this`db, this`remaining
      ensures Consistent(db)
      ensures r.None? || r.value.Failure? ==> db == old(db)
      ensures r.None? ==> input.CreateInput?
      ensures input.CreateInput? && |input.services.GetOr([])| <= patience ==>
                (r.None? <==> !Seedable(input.services.GetOr([])))
      ensures input.DeleteInput? ==> r == Some(Success(()))
      ensures input.CreateInput? && r.Some? ==> (r.value.Success? <==> BlockeesListed(input.services.GetOr([])))
      ensures input.ModifyInput? && r.Some? ==>
                if r.value.Success?
                then exists n ::
                       && n in old(db).namespaces && old(db).namespaces[n] == input.name && input.entries.Some?
                       && MaySucceed(old(db), n, input.entries.value)
                       && Outcome(old(db), n, input.entries.value, db)
                else || input.name !in old(db).namespaces.Values || input.entries.None?
                     || exists n :: n in old(db).namespaces && old(db).namespaces[n] == input.name &&
                                    !MaySucceed(old(db), n, input.entries.value)
      ensures r.Some? && r.value.Success? ==>
                match input
                case CreateInput(name, services) => NamespaceCreated(old(db), name, services.GetOr([])) == Success(db)
                case DeleteInput(name) => db == NamespaceDeleted(old(db), name)
                case ModifyInput(name, entries) =>
                  exists n :: n in old(db).namespaces && old(db).namespaces[n] == name &&
                              NamespaceModified(old(db), n, entries) == Success(db)
    {
      var savepoint := db;
      match input
      case CreateInput(name, services) =>
        var created := CreateNamespace(name, services, patience);
        if created.Some? {
          CreationMeetsTheList(savepoint, name, services.GetOr([]));
        }
        r := if created.None? then None
             else if created.value.Success? then Some(Success(())) else Some(Failure(created.value.error));
        if r.None? || r.value.Failure? {
          db := savepoint;
        }
      case ModifyInput(name, entries) =>
        var modified;
        ghost var n;
        modified, n := ModifyNamespace(name, entries);
        r := Some(modified);
        if modified.Failure? {
          db := savepoint;
        }
      case DeleteInput(name) =>
        DeleteNamespace(name);
        r := Some(Success(()));
    }
  }

  lemma {:induction false} PassKeepsCounter(p: Progress, input: seq<ServiceInput>, namespaceId: nat)
    requires KeysHold(p, input)
    ensures var q := PassTo(p, input, namespaceId, |input|); KeysHold(q, input) && Remaining(q, input) >= 0
  {
    PassToKeepsKeys(p, input, namespaceId, |input|);
    NothingRemains(PassTo(p, input, namespaceId, |input|), input);
  }

  /** What the counter says after any number of passes. */
  lemma {:induction false} LoopOutcome(db: Database, input: seq<ServiceInput>, namespaceId: nat, k: nat)
    ensures StopsAfter(db, input, namespaceId, k) ==>
              && Seedable(input)
              && Passes(Start(db), input, namespaceId, k) == Passes(Start(db), input, namespaceId, |input|)
              && Passes(Start(db), input, namespaceId, k).ids.Keys == Names(input)
    ensures Seedable(input) ==> StopsAfter(db, input, namespaceId, |input|)
  {
    if StopsAfter(db, input, namespaceId, k) {
      StopsOnlyWhenSeedable(db, input, namespaceId, k);
      SameEnd(Start(db), input, namespaceId, k);
    }
    if Seedable(input) {
      StopsWhenSeedable(db, input, namespaceId);
    }
  }

  lemma CreatedFrom(db: Database, name: string, input: seq<ServiceInput>, seeded: Database, ids: map<string, Id>)
    requires Progress(seeded, ids) == Passes(Start(Opened(db, name)), input, db.nextNamespaceId, |input|)
    ensures ServicesSeeded(db, name, input).ids == ids
    ensures NamespaceCreated(db, name, input) ==
            if BlockeesKnown(ids, input) then Success(seeded.(blocks := seeded.blocks + SeededBlocks(ids, input)))
            else Failure(BadInput)
  {}

  /** However many passes the loop took, it ends where as many passes as services would. */
  lemma SameEnd(p: Progress, input: seq<ServiceInput>, namespaceId: nat, k: nat)
    requires p.ids == map[] && Seedable(input)
    requires Remaining(Passes(p, input, namespaceId, k), input) == 0
    ensures Passes(p, input, namespaceId, k) == Passes(p, input, namespaceId, |input|)
    ensures Passes(p, input, namespaceId, k).ids.Keys == Names(input)
  {
    PassesKeepKeys(p, input, namespaceId, k);
    NothingRemains(Passes(p, input, namespaceId, k), input);
    StopsWhenSeedable(p.db, input, namespaceId);
    PassesKeepKeys(p, input, namespaceId, |input|);
    NothingRemains(Passes(p, input, namespaceId, |input|), input);
    if k <= |input| {
      PassesStayComplete(p, input, namespaceId, k, |input|);
    } else {
      PassesStayComplete(p, input, namespaceId, |input|, k);
    }
  }
}
