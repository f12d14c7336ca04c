/** What a modify action achieves: which services survive, which appear, and with which attributes
    and blocks. */
module Modified {
  import opened Common
  import opened Registry
  import opened Integrity
  import opened Seeding
  import opened Modifying
  import opened Subtrees

  // ---------------------------------------------------------------------- deletions

  function NamedAny(db: Database, ns: nat, names: seq<string>): set<Id> {
    set s | s in db.services && db.services[s].namespaceId == ns && db.services[s].name in names
  }

  /** Deletions take away exactly the subtrees of the named services, whatever their order and overlap. */
  lemma {:induction false} DeletionsAchieve(db: Database, ns: nat, names: seq<string>)
    requires Consistent(db) && Fold(Deletion(ns), db, names).Success?
    ensures Fold(Deletion(ns), db, names).value == Without(db, UnderAny(db.services, NamedAny(db, ns, names)))
  {
    if names == [] {
      assert UnderAny(db.services, NamedAny(db, ns, names)) == {};
      assert Without(db, {}) == db;
    } else {
      var before := names[..|names| - 1];
      var name := names[|names| - 1];
      assert names == before + [name];
      DeletionsAchieve(db, ns, before);
      var tops := NamedAny(db, ns, before);
      var mid := Without(db, UnderAny(db.services, tops));
      var s := Find(mid, ns, name).value;
      NextTop(db, tops, s);
      assert NamedAny(db, ns, names) == tops + {s};
    }
  }

  // ---------------------------------------------------------------------- creations

  /** A new row is as some entry of the list says, under the named parent; its rotation history starts
      with the value of the entry. */
  ghost predicate CreatedAs(db: Database, ns: nat, s: Id, e: ServiceInput) {
    && Named(db, s, ns, e.name)
    && (e.parent.None? <==> db.services[s].parent.None?)
    && (e.parent.Some? ==> Named(db, db.services[s].parent.value, ns, e.parent.value))
    && |db.services[s].rotations| == 1
    && db.services[s].rotations[0].serviceRotation == match e.rotation { case Some(r) => r case None => 1 }
  }

  predicate LooksAs(v: Service, e: ServiceInput) {
    v.parallelism == e.parallelism && v.serviceType == e.serviceType
  }

  ghost predicate ListedRow(db: Database, ns: nat, s: Id, es: seq<ServiceInput>) {
    exists e :: e in es && CreatedAs(db, ns, s, e) && LooksAs(db.services[s], e)
  }

  ghost predicate Present(db: Database, ns: nat, name: string) {
    exists s :: Named(db, s, ns, name)
  }

  ghost predicate CreationsDone(db: Database, ns: nat, es: seq<ServiceInput>, after: Database) {
    && after.blocks == db.blocks && after.namespaces == db.namespaces && db.nextId <= after.nextId
    && (forall s :: s in db.services ==> s in after.services && after.services[s] == db.services[s])
    && (forall s :: s in after.services && s !in db.services ==> s >= db.nextId)
    && (forall s {:trigger ListedRow(after, ns, s, es)} ::
          s in after.services && s !in db.services ==> ListedRow(after, ns, s, es))
    && (forall e :: e in es ==> Present(after, ns, e.name))
  }

  /** One creation adds at most one row, as its entry says. */
  lemma CreationAchieves(db: Database, ns: nat, e: ServiceInput)
    requires Consistent(db) && ns in db.namespaces && Creation(ns)(db, e).Success?
    ensures CreationsDone(db, ns, [e], Creation(ns)(db, e).value)
  {
    var after := Creation(ns)(db, e).value;
    KeyIsFresh(db);
    if Find(db, ns, e.name).None? {
      assert Named(after, db.nextId, ns, e.name);
      if e.parent.Some? {
        assert Named(after, Find(db, ns, e.parent.value).value, ns, e.parent.value);
      }
      assert CreatedAs(after, ns, db.nextId, e);
      assert e in [e];
      assert ListedRow(after, ns, db.nextId, [e]);
    } else {
      assert Named(after, Find(db, ns, e.name).value, ns, e.name);
    }
  }

  /** Rows that stay keep being listed, and so do names. */
  lemma ListedStays(db: Database, after: Database, ns: nat, s: Id, es: seq<ServiceInput>, fs: seq<ServiceInput>)
    requires forall x :: x in db.services ==> x in after.services && after.services[x] == db.services[x]
    requires ListedRow(db, ns, s, es) && forall e :: e in es ==> e in fs
    ensures ListedRow(after, ns, s, fs)
  {
    var e :| e in es && CreatedAs(db, ns, s, e) && LooksAs(db.services[s], e);
    assert CreatedAs(after, ns, s, e);
  }

  lemma CreationsAppend(db: Database, mid: Database, after: Database, ns: nat, es: seq<ServiceInput>, e: ServiceInput)
    requires CreationsDone(db, ns, es, mid) && CreationsDone(mid, ns, [e], after)
    ensures CreationsDone(db, ns, es + [e], after)
  {
    forall s | s in after.services && s !in db.services
      ensures ListedRow(after, ns, s, es + [e])
    {
      if s in mid.services {
        ListedStays(mid, after, ns, s, es, es + [e]);
      } else {
        assert ListedRow(after, ns, s, [e]);
        ListedStays(after, after, ns, s, [e], es + [e]);
      }
    }
    forall f | f in es + [e]
      ensures Present(after, ns, f.name)
    {
      if f in es {
        assert Present(mid, ns, f.name);
        var s :| Named(mid, s, ns, f.name);
        assert Named(after, s, ns, f.name);
      } else {
        assert f in [e];
      }
    }
  }

  lemma {:induction false} CreationsAchieve(db: Database, ns: nat, es: seq<ServiceInput>)
    requires Consistent(db) && ns in db.namespaces && Fold(Creation(ns), db, es).Success?
    ensures CreationsDone(db, ns, es, Fold(Creation(ns), db, es).value)
  {
    if es != [] {
      var before := es[..|es| - 1];
      var e := es[|es| - 1];
      assert es == before + [e];
      CreationsAchieve(db, ns, before);
      CreationsKeepConsistent(db, ns, before);
      var mid := Fold(Creation(ns), db, before).value;
      CreationAchieves(mid, ns, e);
      CreationsAppend(db, mid, Fold(Creation(ns), db, es).value, ns, before, e);
    }
  }

  // ------------------------------------------------------------------ modifications

  /** The last parallelism given for a name, or else the one it had. */
  function LastParallelism(ms: seq<Modification>, name: string, was: Parallelism): Parallelism {
    if ms == [] then was
    else
      var m := ms[|ms| - 1];
      if m.name == name && m.parallelism.Some? then m.parallelism.value
      else LastParallelism(ms[..|ms| - 1], name, was)
  }

  function LastServiceType(ms: seq<Modification>, name: string, was: ServiceType): ServiceType {
    if ms == [] then was
    else
      var m := ms[|ms| - 1];
      if m.name == name && m.serviceType.Some? then m.serviceType.value
      else LastServiceType(ms[..|ms| - 1], name, was)
  }

  function WithGiven(v: Service, ns: nat, ms: seq<Modification>): Service {
    if v.namespaceId != ns then v
    else v.(parallelism := LastParallelism(ms, v.name, v.parallelism),
            serviceType := LastServiceType(ms, v.name, v.serviceType))
  }

  function AllGiven(db: Database, ns: nat, ms: seq<Modification>): Database {
    db.(services := map s | s in db.services :: WithGiven(db.services[s], ns, ms))
  }

  /** Modifications overwrite the attributes they give, the last one winning, and nothing else. */
  lemma {:induction false} ModificationsAchieve(db: Database, ns: nat, ms: seq<Modification>)
    requires NamesUnique(db.services) && Fold(Reattribution(ns), db, ms).Success?
    ensures Fold(Reattribution(ns), db, ms).value == AllGiven(db, ns, ms)
  {
    if ms == [] {
      assert AllGiven(db, ns, ms).services == db.services;
    } else {
      var before := ms[..|ms| - 1];
      assert ms == before + [ms[|ms| - 1]];
      ModificationsAchieve(db, ns, before);
    }
  }

  // ------------------------------------------------------------------------- blocks

  predicate AsksFor(db: Database, ns: nat, x: (string, seq<string>), s: Id, t: Id) {
    Named(db, s, ns, x.0) && t in db.services && db.services[t].namespaceId == ns && db.services[t].name in x.1
  }

  /** The list asks for a block between the two services. */
  ghost predicate Asked(db: Database, ns: nat, xs: seq<(string, seq<string>)>, s: Id, t: Id) {
    exists x :: x in xs && AsksFor(db, ns, x, s, t)
  }

  ghost predicate BlocksAdded(db: Database, ns: nat, xs: seq<(string, seq<string>)>, after: Database) {
    && after.services == db.services && after.namespaces == db.namespaces
    && forall s: Id, t: Id :: (s, t) in after.blocks <==> (s, t) in db.blocks || Asked(db, ns, xs, s, t)
  }

  /** Adding the blockees of one service. */
  lemma {:induction false} BlockAdditionsAchieve(db: Database, ns: nat, s: Id, names: seq<string>)
    requires NamesUnique(db.services) && Fold(BlockAddition(ns, s), db, names).Success?
    ensures var after := Fold(BlockAddition(ns, s), db, names).value;
            && after.services == db.services && after.namespaces == db.namespaces
            && forall b :: b in after.blocks <==>
                 || b in db.blocks
                 || (b.0 == s && b.1 in db.services && db.services[b.1].namespaceId == ns
                     && db.services[b.1].name in names)
  {
    if names != [] {
      var before := names[..|names| - 1];
      assert names == before + [names[|names| - 1]];
      BlockAdditionsAchieve(db, ns, s, before);
    }
  }

  lemma BlockingAchieves(
    db: Database, ns: nat, before: seq<(string, seq<string>)>, x: (string, seq<string>), mid: Database)
    requires NamesUnique(db.services) && BlocksAdded(db, ns, before, mid) && Blocking(ns)(mid, x).Success?
    ensures BlocksAdded(db, ns, before + [x], Blocking(ns)(mid, x).value)
  {
    var after := Blocking(ns)(mid, x).value;
    var blocker := Find(mid, ns, x.0).value;
    BlockAdditionsAchieve(mid, ns, blocker, x.1);
    forall s: Id, t: Id
      ensures (s, t) in after.blocks <==> (s, t) in db.blocks || Asked(db, ns, before + [x], s, t)
    {
      assert Asked(db, ns, before, s, t) ==> Asked(db, ns, before + [x], s, t);
      if (s, t) in after.blocks && (s, t) !in mid.blocks {
        assert x in before + [x];
        assert Asked(db, ns, before + [x], s, t);
      }
      if Asked(db, ns, before + [x], s, t) && !Asked(db, ns, before, s, t) {
        assert Named(db, s, ns, x.0);
        assert s == blocker;
      }
    }
  }

  /** The blocks asked for are added, and no block is taken away. */
  lemma {:induction false} BlockingsAchieve(db: Database, ns: nat, xs: seq<(string, seq<string>)>)
    requires NamesUnique(db.services) && Fold(Blocking(ns), db, xs).Success?
    ensures BlocksAdded(db, ns, xs, Fold(Blocking(ns), db, xs).value)
  {
    if xs != [] {
      var before := xs[..|xs| - 1];
      assert xs == before + [xs[|xs| - 1]];
      BlockingsAchieve(db, ns, before);
      BlockingAchieves(db, ns, before, xs[|xs| - 1], Fold(Blocking(ns), db, before).value);
    }
  }

  // ------------------------------------------------------------------- all together

  ghost predicate ListedGiven(db: Database, ns: nat, s: Id, es: seq<SeedEntry>) {
    exists e :: e in Creations(es) && CreatedAs(db, ns, s, e)
      && db.services[s].parallelism == LastParallelism(Modifications(es), e.name, e.parallelism)
      && db.services[s].serviceType == LastServiceType(Modifications(es), e.name, e.serviceType)
  }

  lemma GivenKeepsNames(db: Database, ns: nat, ms: seq<Modification>, s: Id, name: string)
    ensures Named(AllGiven(db, ns, ms), s, ns, name) <==> Named(db, s, ns, name)
  {}

  /** The four stages of a successful modify action, each with what it achieves. */
  lemma StagesAchieve(db: Database, ns: nat, es: seq<SeedEntry>)
    requires Consistent(db) && ns in db.namespaces && NamespaceModified(db, ns, Some(es)).Success?
    ensures var d1 := Without(db, UnderAny(db.services, NamedAny(db, ns, Deletions(es))));
            && AfterCreations(db, ns, es).Success?
            && var d2 := AfterCreations(db, ns, es).value;
            && CreationsDone(d1, ns, Creations(es), d2)
            && BlocksAdded(AllGiven(d2, ns, Modifications(es)), ns, Blockers(es),
                           NamespaceModified(db, ns, Some(es)).value)
  {
    DeletionsAchieve(db, ns, Deletions(es));
    DeletionsKeepConsistent(db, ns, Deletions(es));
    var d1 := AfterDeletions(db, ns, es).value;
    CreationsAchieve(d1, ns, Creations(es));
    CreationsKeepConsistent(d1, ns, Creations(es));
    var d2 := AfterCreations(db, ns, es).value;
    ModificationsAchieve(d2, ns, Modifications(es));
    ReattributionsKeepConsistent(d2, ns, Modifications(es));
    BlockingsAchieve(AfterModifications(db, ns, es).value, ns, Blockers(es));
  }

  function Gone(db: Database, ns: nat, es: seq<SeedEntry>): set<Id> {
    UnderAny(db.services, NamedAny(db, ns, Deletions(es)))
  }

  /** Old rows: those in no deleted subtree stay as they were, but for the attributes given. */
  ghost predicate OldRowsAchieved(db: Database, ns: nat, es: seq<SeedEntry>, after: Database) {
    forall s :: s in db.services ==>
      && (s in after.services <==> s !in Gone(db, ns, es))
      && (s in after.services ==> after.services[s] == WithGiven(db.services[s], ns, Modifications(es)))
  }

  /** New rows: each is as its entry says and under the parent it names, and every name is there. */
  ghost predicate NewRowsAchieved(db: Database, ns: nat, es: seq<SeedEntry>, after: Database) {
    && (forall s {:trigger ListedGiven(after, ns, s, es)} ::
          s in after.services && s !in db.services ==> ListedGiven(after, ns, s, es))
    && (forall e :: e in Creations(es) ==> Present(after, ns, e.name))
  }

  /** Blocks: those between survivors, and those asked for. */
  ghost predicate BlocksAchieved(db: Database, ns: nat, es: seq<SeedEntry>, after: Database) {
    forall s: Id, t: Id :: (s, t) in after.blocks <==>
      ((s, t) in db.blocks && s !in Gone(db, ns, es) && t !in Gone(db, ns, es)) || Asked(after, ns, Blockers(es), s, t)
  }

  lemma NewRows(db: Database, ns: nat, es: seq<SeedEntry>, d2: Database, after: Database)
    requires CreationsDone(Without(db, Gone(db, ns, es)), ns, Creations(es), d2)
    requires after.services == AllGiven(d2, ns, Modifications(es)).services
    ensures NewRowsAchieved(db, ns, es, after)
  {
    forall s | s in after.services && s !in db.services
      ensures ListedGiven(after, ns, s, es)
    {
      assert ListedRow(d2, ns, s, Creations(es));
    }
    forall e | e in Creations(es)
      ensures Present(after, ns, e.name)
    {
      assert Present(d2, ns, e.name);
      var s :| Named(d2, s, ns, e.name);
      GivenKeepsNames(d2, ns, Modifications(es), s, e.name);
      assert Named(after, s, ns, e.name);
    }
  }

  lemma OldRows(db: Database, ns: nat, es: seq<SeedEntry>, d2: Database, after: Database)
    requires Consistent(db) && CreationsDone(Without(db, Gone(db, ns, es)), ns, Creations(es), d2)
    requires after.services == AllGiven(d2, ns, Modifications(es)).services
    ensures OldRowsAchieved(db, ns, es, after)
  {
    forall s | s in db.services
      ensures s in after.services <==> s !in Gone(db, ns, es)
      ensures s in after.services ==> after.services[s] == WithGiven(db.services[s], ns, Modifications(es))
    {
      assert RowHolds(db, s);
    }
  }

  /** The four stages together, in terms of the lists each of them works through. */
  lemma ListsAchieve(db: Database, ns: nat, es: seq<SeedEntry>)
    requires Consistent(db) && ns in db.namespaces && NamespaceModified(db, ns, Some(es)).Success?
    ensures var after := NamespaceModified(db, ns, Some(es)).value;
            && OldRowsAchieved(db, ns, es, after) && NewRowsAchieved(db, ns, es, after)
            && BlocksAchieved(db, ns, es, after)
            && after.namespaces == db.namespaces
  {
    var after := NamespaceModified(db, ns, Some(es)).value;
    StagesAchieve(db, ns, es);
    var d2 := AfterCreations(db, ns, es).value;
    OldRows(db, ns, es, d2, after);
    NewRows(db, ns, es, d2, after);
  }
}
