/** What the seeder's modify and delete actions do to the tables, and that they keep them consistent. */
module Modifying {
  import opened Common
  import opened Registry
  import opened Integrity
  import opened Seeding

  datatype Modification = Modification(
    name: string,
    parallelism: Option<Parallelism>,
    serviceType: Option<ServiceType>,
    blockees: seq<string>)

  datatype SeedEntry =
    | CreateEntry(service: ServiceInput)
    | ModifyEntry(modification: Modification)
    | DeleteEntry(name: string)

  // ------------------------------------------------------------- entry by entry

  /** Applies a fallible change for each element in turn; the first failure ends it. */
  ghost function Fold<X(!new)>(f: (Database, X) -> Result<Database>, db: Database, xs: seq<X>): Result<Database> {
    if xs == [] then Success(db)
    else
      match Fold(f, db, xs[..|xs| - 1])
      case Failure(e) => Failure(e)
      case Success(d) => f(d, xs[|xs| - 1])
  }

  lemma {:induction false} FoldStopsAtFailure<X(!new)>(
    f: (Database, X) -> Result<Database>, db: Database, xs: seq<X>, n: nat)
    requires n <= |xs| && Fold(f, db, xs[..n]).Failure?
    ensures Fold(f, db, xs) == Fold(f, db, xs[..n])
  {
    if n == |xs| {
      assert xs[..n] == xs;
    } else {
      var before := xs[..|xs| - 1];
      assert before[..n] == xs[..n];
      FoldStopsAtFailure(f, db, before, n);
    }
  }

  lemma FoldNext<X(!new)>(f: (Database, X) -> Result<Database>, db: Database, xs: seq<X>, n: nat)
    requires n < |xs| && Fold(f, db, xs[..n]).Success?
    ensures Fold(f, db, xs[..n + 1]) == f(Fold(f, db, xs[..n]).value, xs[n])
  {
    assert xs[..n + 1][..n] == xs[..n];
  }

  lemma {:induction false} FoldKeepsConsistent<X(!new)>(f: (Database, X) -> Result<Database>, db: Database, xs: seq<X>)
    requires Consistent(db)
    requires forall d, x :: Consistent(d) && f(d, x).Success? ==> Consistent(f(d, x).value)
    ensures Fold(f, db, xs).Success? ==> Consistent(Fold(f, db, xs).value)
  {
    if xs != [] {
      FoldKeepsConsistent(f, db, xs[..|xs| - 1]);
    }
  }

  /** The service of a namespace with the given name; names are unique in consistent tables. */
  ghost function Find(db: Database, namespaceId: nat, name: string): (r: Option<Id>)
    ensures r.Some? ==> Named(db, r.value, namespaceId, name)
    ensures r.None? ==> forall s :: !Named(db, s, namespaceId, name)
  {
    if s :| Named(db, s, namespaceId, name) then Some(s) else None
  }

  ghost function Deletion(namespaceId: nat): (Database, string) -> Result<Database> {
    (db: Database, name: string) =>
      match Find(db, namespaceId, name)
      case None => Failure(EntityNotFound)
      case Some(s) => Success(WithoutSubtree(db, s))
  }

  function NewService(namespaceId: nat, e: ServiceInput, parent: Option<Id>, parentRotation: Option<int>): Service {
    Service(namespaceId, e.name, e.parallelism, e.serviceType, parent, [Rotation(parentRotation, StartRotation(e))])
  }

  /** A name that already exists is skipped; a parent is looked up among the rows saved so far. */
  ghost function Creation(namespaceId: nat): (Database, ServiceInput) -> Result<Database> {
    (db: Database, e: ServiceInput) =>
      if Find(db, namespaceId, e.name).Some? then Success(db)
      else if e.parent.None? then Success(Saved(db, NewService(namespaceId, e, None, None)))
      else
        match Find(db, namespaceId, e.parent.value)
        case None => Failure(EntityNotFound)
        case Some(p) =>
          if db.services[p].rotations == [] then Failure(BadInput)
          else
            var top := TopByServiceRotation(db.services[p].rotations);
            Success(Saved(db, NewService(namespaceId, e, Some(p), Some(top.serviceRotation))))
  }

  ghost function Reattribution(namespaceId: nat): (Database, Modification) -> Result<Database> {
    (db: Database, m: Modification) =>
      if m.parallelism.None? && m.serviceType.None? then Success(db)
      else
        match Find(db, namespaceId, m.name)
        case None => Failure(EntityNotFound)
        case Some(s) =>
          var row := db.services[s];
          Success(Reattributed(db, s, m.parallelism.GetOr(row.parallelism), m.serviceType.GetOr(row.serviceType)))
  }

  ghost function BlockAddition(namespaceId: nat, blocker: Id): (Database, string) -> Result<Database> {
    (db: Database, blockee: string) =>
      match Find(db, namespaceId, blockee)
      case None => Failure(EntityNotFound)
      case Some(t) => Success(db.(blocks := db.blocks + {(blocker, t)}))
  }

  ghost function Blocking(namespaceId: nat): (Database, (string, seq<string>)) -> Result<Database> {
    (db: Database, x: (string, seq<string>)) =>
      match Find(db, namespaceId, x.0)
      case None => Failure(EntityNotFound)
      case Some(s) => Fold(BlockAddition(namespaceId, s), db, x.1)
  }

  // ------------------------------------------------------------------ whole actions

  function Deletions(entries: seq<SeedEntry>): seq<string> {
    if entries == [] then []
    else (if entries[0].DeleteEntry? then [entries[0].name] else []) + Deletions(entries[1..])
  }

  function Creations(entries: seq<SeedEntry>): seq<ServiceInput> {
    if entries == [] then []
    else (if entries[0].CreateEntry? then [entries[0].service] else []) + Creations(entries[1..])
  }

  function Modifications(entries: seq<SeedEntry>): seq<Modification> {
    if entries == [] then []
    else (if entries[0].ModifyEntry? then [entries[0].modification] else []) + Modifications(entries[1..])
  }

  /** Created services first, then modified ones, each with the blockees to add. */
  function Blockers(entries: seq<SeedEntry>): seq<(string, seq<string>)> {
    var cs := Creations(entries);
    var ms := Modifications(entries);
    seq(|cs|, i requires 0 <= i < |cs| => (cs[i].name, cs[i].blockees)) +
    seq(|ms|, i requires 0 <= i < |ms| => (ms[i].name, ms[i].blockees))
  }

  // What the four lists select: on one entry and on joined lists, which fixes them with their order,
  // and which elements they have.

  lemma ListsOfOne(x: SeedEntry)
    ensures Deletions([x]) == if x.DeleteEntry? then [x.name] else []
    ensures Creations([x]) == if x.CreateEntry? then [x.service] else []
    ensures Modifications([x]) == if x.ModifyEntry? then [x.modification] else []
  {}

  lemma {:induction false} DeletionsJoin(a: seq<SeedEntry>, b: seq<SeedEntry>)
    ensures Deletions(a + b) == Deletions(a) + Deletions(b)
  {
    if a == [] {
      assert a + b == b;
    } else {
      DeletionsJoin(a[1..], b);
      assert (a + b)[0] == a[0] && (a + b)[1..] == a[1..] + b;
    }
  }

  lemma {:induction false} CreationsJoin(a: seq<SeedEntry>, b: seq<SeedEntry>)
    ensures Creations(a + b) == Creations(a) + Creations(b)
  {
    if a == [] {
      assert a + b == b;
    } else {
      CreationsJoin(a[1..], b);
      assert (a + b)[0] == a[0] && (a + b)[1..] == a[1..] + b;
    }
  }

  lemma {:induction false} ModificationsJoin(a: seq<SeedEntry>, b: seq<SeedEntry>)
    ensures Modifications(a + b) == Modifications(a) + Modifications(b)
  {
    if a == [] {
      assert a + b == b;
    } else {
      ModificationsJoin(a[1..], b);
      assert (a + b)[0] == a[0] && (a + b)[1..] == a[1..] + b;
    }
  }

  lemma {:induction false} ListsHave(es: seq<SeedEntry>)
    ensures forall n :: n in Deletions(es) <==> DeleteEntry(n) in es
    ensures forall e :: e in Creations(es) <==> CreateEntry(e) in es
    ensures forall m :: m in Modifications(es) <==> ModifyEntry(m) in es
  {
    if es != [] {
      ListsHave(es[1..]);
      assert es == [es[0]] + es[1..];
    }
  }

  /** Created entries first, then modified ones, each in the order of the list with its blockees. */
  lemma BlockersAre(es: seq<SeedEntry>)
    ensures var cs, ms, xs := Creations(es), Modifications(es), Blockers(es);
            && |xs| == |cs| + |ms|
            && (forall i :: 0 <= i < |cs| ==> xs[i] == (cs[i].name, cs[i].blockees))
            && (forall i :: 0 <= i < |ms| ==> xs[|cs| + i] == (ms[i].name, ms[i].blockees))
  {}

  /** An entry asks for the blocks of the service with this name. */
  ghost predicate AsksBlocks(x: SeedEntry, name: string, blockees: seq<string>) {
    match x
    case CreateEntry(e) => e.name == name && e.blockees == blockees
    case ModifyEntry(m) => m.name == name && m.blockees == blockees
    case DeleteEntry(_) => false
  }

  lemma BlockerIsAsked(es: seq<SeedEntry>, i: nat)
    requires i < |Blockers(es)|
    ensures exists x :: x in es && AsksBlocks(x, Blockers(es)[i].0, Blockers(es)[i].1)
  {
    ListsHave(es);
    var cs, ms := Creations(es), Modifications(es);
    if i < |cs| {
      assert Blockers(es)[i] == (cs[i].name, cs[i].blockees);
      assert AsksBlocks(CreateEntry(cs[i]), cs[i].name, cs[i].blockees);
    } else {
      var m := ms[i - |cs|];
      assert Blockers(es)[i] == (m.name, m.blockees);
      assert AsksBlocks(ModifyEntry(m), m.name, m.blockees);
    }
  }

  lemma AskedIsBlocker(es: seq<SeedEntry>, x: SeedEntry, name: string, blockees: seq<string>)
    requires x in es && AsksBlocks(x, name, blockees)
    ensures (name, blockees) in Blockers(es)
  {
    ListsHave(es);
    var cs, ms := Creations(es), Modifications(es);
    if x.CreateEntry? {
      var i :| 0 <= i < |cs| && cs[i] == x.service;
      assert Blockers(es)[i] == (name, blockees);
    } else {
      var i :| 0 <= i < |ms| && ms[i] == x.modification;
      assert Blockers(es)[|cs| + i] == (name, blockees);
    }
  }

  lemma BlockersHave(es: seq<SeedEntry>, name: string, blockees: seq<string>)
    ensures (name, blockees) in Blockers(es) <==> exists x :: x in es && AsksBlocks(x, name, blockees)
  {
    if (name, blockees) in Blockers(es) {
      var i :| 0 <= i < |Blockers(es)| && Blockers(es)[i] == (name, blockees);
      BlockerIsAsked(es, i);
    }
    if x :| x in es && AsksBlocks(x, name, blockees) {
      AskedIsBlocker(es, x, name, blockees);
    }
  }

  ghost function Then(r: Result<Database>, next: Database -> Result<Database>): Result<Database> {
    match r
    case Failure(e) => Failure(e)
    case Success(db) => next(db)
  }

  ghost function AfterDeletions(db: Database, ns: nat, entries: seq<SeedEntry>): Result<Database> {
    Fold(Deletion(ns), db, Deletions(entries))
  }

  ghost function AfterCreations(db: Database, ns: nat, entries: seq<SeedEntry>): Result<Database> {
    Then(AfterDeletions(db, ns, entries), d => Fold(Creation(ns), d, Creations(entries)))
  }

  ghost function AfterModifications(db: Database, ns: nat, entries: seq<SeedEntry>): Result<Database> {
    Then(AfterCreations(db, ns, entries), d => Fold(Reattribution(ns), d, Modifications(entries)))
  }

  /** A modify action without a service list throws. */
  ghost function NamespaceModified(db: Database, ns: nat, entries: Option<seq<SeedEntry>>): Result<Database> {
    if entries.None? then Failure(BadInput)
    else Then(AfterModifications(db, ns, entries.value), d => Fold(Blocking(ns), d, Blockers(entries.value)))
  }

  function ServicesOf(db: Database, name: string): set<Id> {
    set s | s in db.services && db.services[s].namespaceId in db.namespaces &&
            db.namespaces[db.services[s].namespaceId] == name
  }

  /** Deletes every namespace with the name; services, rotations and blocks go with it. */
  function NamespaceDeleted(db: Database, name: string): Database {
    Without(db, ServicesOf(db, name)).(
      namespaces := map n | n in db.namespaces && db.namespaces[n] != name :: db.namespaces[n])
  }

  // ---------------------------------------------------------------------- consistency

  lemma CreationKeepsConsistent(db: Database, ns: nat, e: ServiceInput)
    requires Consistent(db) && ns in db.namespaces && Creation(ns)(db, e).Success?
    ensures Consistent(Creation(ns)(db, e).value)
  {
    if Find(db, ns, e.name).None? {
      if e.parent.None? {
        SaveKeepsConsistent(db, NewService(ns, e, None, None));
      } else {
        var p := Find(db, ns, e.parent.value).value;
        assert HistoryHolds(db.services[p]);
        ChainQueriesAgree(db.services[p].rotations);
        var top := TopByServiceRotation(db.services[p].rotations);
        SaveKeepsConsistent(db, NewService(ns, e, Some(p), Some(top.serviceRotation)));
      }
    }
  }

  /** Namespace rows are not touched by any of the four stages. */
  lemma {:induction false} FoldKeepsNamespaces<X(!new)>(f: (Database, X) -> Result<Database>, db: Database, xs: seq<X>)
    requires forall d, x :: f(d, x).Success? ==> f(d, x).value.namespaces == d.namespaces
    ensures Fold(f, db, xs).Success? ==> Fold(f, db, xs).value.namespaces == db.namespaces
  {
    if xs != [] {
      FoldKeepsNamespaces(f, db, xs[..|xs| - 1]);
    }
  }

  lemma {:induction false} CreationsKeepConsistent(db: Database, ns: nat, es: seq<ServiceInput>)
    requires Consistent(db) && ns in db.namespaces
    ensures Fold(Creation(ns), db, es).Success? ==> Consistent(Fold(Creation(ns), db, es).value)
  {
    if es != [] {
      var before := es[..|es| - 1];
      CreationsKeepConsistent(db, ns, before);
      FoldKeepsNamespaces(Creation(ns), db, before);
      if Fold(Creation(ns), db, es).Success? {
        CreationKeepsConsistent(Fold(Creation(ns), db, before).value, ns, es[|es| - 1]);
      }
    }
  }

  lemma DeletionsKeepConsistent(db: Database, ns: nat, names: seq<string>)
    requires Consistent(db)
    ensures Fold(Deletion(ns), db, names).Success? ==> Consistent(Fold(Deletion(ns), db, names).value)
  {
    forall d, x | Consistent(d) && Deletion(ns)(d, x).Success?
      ensures Consistent(Deletion(ns)(d, x).value)
    {
      var s := Find(d, ns, x).value;
      SubtreeIsClosed(d, s);
      WithoutKeepsConsistent(d, Descendants(d.services, s));
    }
    FoldKeepsConsistent(Deletion(ns), db, names);
  }

  lemma ReattributionsKeepConsistent(db: Database, ns: nat, ms: seq<Modification>)
    requires Consistent(db)
    ensures Fold(Reattribution(ns), db, ms).Success? ==> Consistent(Fold(Reattribution(ns), db, ms).value)
  {
    forall d, m: Modification | Consistent(d) && Reattribution(ns)(d, m).Success?
      ensures Consistent(Reattribution(ns)(d, m).value)
    {
      if m.parallelism.Some? || m.serviceType.Some? {
        var s := Find(d, ns, m.name).value;
        var row := d.services[s];
        ReattributeKeepsConsistent(d, s, m.parallelism.GetOr(row.parallelism), m.serviceType.GetOr(row.serviceType));
      }
    }
    FoldKeepsConsistent(Reattribution(ns), db, ms);
  }

  lemma AddBlockKeepsConsistent(db: Database, b: (Id, Id))
    requires Consistent(db) && b.0 in db.services && b.1 in db.services
    ensures Consistent(db.(blocks := db.blocks + {b}))
  {
    var after := db.(blocks := db.blocks + {b});
    forall s | s in after.services
      ensures RowHolds(after, s)
    {
      assert RowHolds(db, s);
    }
  }

  lemma {:induction false} BlockAdditionsKeep(db: Database, ns: nat, s: Id, names: seq<string>)
    requires Consistent(db) && s in db.services
    ensures Fold(BlockAddition(ns, s), db, names).Success? ==>
              var d := Fold(BlockAddition(ns, s), db, names).value;
              Consistent(d) && d.services == db.services
  {
    if names != [] {
      var before := names[..|names| - 1];
      BlockAdditionsKeep(db, ns, s, before);
      if Fold(BlockAddition(ns, s), db, names).Success? {
        var d := Fold(BlockAddition(ns, s), db, before).value;
        AddBlockKeepsConsistent(d, (s, Find(d, ns, names[|names| - 1]).value));
      }
    }
  }

  lemma BlockingsKeepConsistent(db: Database, ns: nat, xs: seq<(string, seq<string>)>)
    requires Consistent(db)
    ensures Fold(Blocking(ns), db, xs).Success? ==> Consistent(Fold(Blocking(ns), db, xs).value)
  {
    forall d, x: (string, seq<string>) | Consistent(d) && Blocking(ns)(d, x).Success?
      ensures Consistent(Blocking(ns)(d, x).value)
    {
      BlockAdditionsKeep(d, ns, Find(d, ns, x.0).value, x.1);
    }
    FoldKeepsConsistent(Blocking(ns), db, xs);
  }

  /** Modifying a namespace keeps the tables consistent, whatever it deletes, creates or changes. */
  lemma ModifyKeepsConsistent(db: Database, ns: nat, entries: Option<seq<SeedEntry>>)
    requires Consistent(db) && ns in db.namespaces && NamespaceModified(db, ns, entries).Success?
    ensures Consistent(NamespaceModified(db, ns, entries).value)
  {
    var es := entries.value;
    DeletionsKeepConsistent(db, ns, Deletions(es));
    FoldKeepsNamespaces(Deletion(ns), db, Deletions(es));
    var d1 := AfterDeletions(db, ns, es).value;
    CreationsKeepConsistent(d1, ns, Creations(es));
    var d2 := AfterCreations(db, ns, es).value;
    ReattributionsKeepConsistent(d2, ns, Modifications(es));
    var d3 := AfterModifications(db, ns, es).value;
    BlockingsKeepConsistent(d3, ns, Blockers(es));
  }

  /** Deleting namespaces keeps the tables consistent: parents and children share a namespace. */
  lemma DeleteNamespaceKeepsConsistent(db: Database, name: string)
    requires Consistent(db)
    ensures Consistent(NamespaceDeleted(db, name))
  {
    var gone := ServicesOf(db, name);
    forall c, p | IsChild(db.services, c, p) && p in gone
      ensures c in gone
    {
      assert RowHolds(db, c);
    }
    WithoutKeepsConsistent(db, gone);
    var mid := Without(db, gone);
    var after := NamespaceDeleted(db, name);
    forall s | s in after.services
      ensures RowHolds(after, s)
    {
      assert RowHolds(db, s) && RowHolds(mid, s);
    }
  }
}
