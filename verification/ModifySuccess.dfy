/** When a modify action succeeds, stage by stage, in terms of its entries and the tables it starts from. */
module ModifySuccess {
  import opened Common
  import opened Registry
  import opened Integrity
  import opened Seeding
  import opened Modifying
  import opened Modified
  import opened ModifyOutcome
  import opened Subtrees

  // ---------------------------------------------------------------------- deletions

  /** A service of that name is there and in no subtree that the entries delete. */
  ghost predicate Stays(db: Database, ns: nat, es: seq<SeedEntry>, name: string) {
    exists s :: Named(db, s, ns, name) && !IsGone(db, ns, es, s)
  }

  /** A delete entry finds its service if no earlier entry deleted it. */
  ghost predicate DeletionFinds(db: Database, ns: nat, es: seq<SeedEntry>, i: nat)
    requires i < |es|
  {
    es[i].DeleteEntry? ==> Stays(db, ns, es[..i], es[i].name)
  }

  lemma StaysExactly(db: Database, ns: nat, es: seq<SeedEntry>, name: string)
    requires Consistent(db) && Fold(Deletion(ns), db, Deletions(es)).Success?
    ensures Present(Fold(Deletion(ns), db, Deletions(es)).value, ns, name) <==> Stays(db, ns, es, name)
  {
    DeletionsAchieve(db, ns, Deletions(es));
    var after := Fold(Deletion(ns), db, Deletions(es)).value;
    if Present(after, ns, name) {
      var s :| Named(after, s, ns, name);
      GoneExactly(db, ns, es, s);
      assert Named(db, s, ns, name);
    }
    if Stays(db, ns, es, name) {
      var s :| Named(db, s, ns, name) && !IsGone(db, ns, es, s);
      GoneExactly(db, ns, es, s);
      assert Named(after, s, ns, name);
    }
  }

  lemma FoundExactly(db: Database, ns: nat, name: string)
    ensures Find(db, ns, name).Some? <==> Present(db, ns, name)
  {}

  lemma {:induction false} DeletionsSucceed(db: Database, ns: nat, es: seq<SeedEntry>)
    requires Consistent(db)
    ensures Fold(Deletion(ns), db, Deletions(es)).Success? <==>
              forall i :: 0 <= i < |es| ==> DeletionFinds(db, ns, es, i)
  {
    if es != [] {
      var before, x := es[..|es| - 1], es[|es| - 1];
      assert es == before + [x];
      DeletionsSucceed(db, ns, before);
      DeletionsJoin(before, [x]);
      ListsOfOne(x);
      forall i | 0 <= i < |before| {
        EarlierEntries(db, ns, before, x, i);
      }
      if x.DeleteEntry? {
        FoldSnoc(Deletion(ns), db, Deletions(before), x.name);
        if Fold(Deletion(ns), db, Deletions(before)).Success? {
          StaysExactly(db, ns, before, x.name);
          FoundExactly(Fold(Deletion(ns), db, Deletions(before)).value, ns, x.name);
          assert DeletionFinds(db, ns, es, |before|) <==> Stays(db, ns, before, x.name);
        }
      } else {
        assert Deletions(es) == Deletions(before);
        assert DeletionFinds(db, ns, es, |before|);
      }
    }
  }

  // ---------------------------------------------------------------------- creations

  predicate Creates(es: seq<SeedEntry>, name: string) {
    exists x :: x in es && x.CreateEntry? && x.service.name == name
  }

  /** A create entry finds its parent, or has none, or its name exists already. */
  ghost predicate CreationFinds(db: Database, ns: nat, es: seq<SeedEntry>, i: nat)
    requires i < |es|
  {
    es[i].CreateEntry? ==>
      var e := es[i].service;
      || Present(db, ns, e.name) || Creates(es[..i], e.name)
      || e.parent.None? || Present(db, ns, e.parent.value) || Creates(es[..i], e.parent.value)
  }

  lemma PresentExactly(db: Database, ns: nat, es: seq<SeedEntry>, name: string)
    requires Consistent(db) && ns in db.namespaces && Fold(Creation(ns), db, Creations(es)).Success?
    ensures Present(Fold(Creation(ns), db, Creations(es)).value, ns, name) <==>
              Present(db, ns, name) || Creates(es, name)
  {
    CreationsAchieve(db, ns, Creations(es));
    ListsHave(es);
    var after := Fold(Creation(ns), db, Creations(es)).value;
    if Present(after, ns, name) && !Present(db, ns, name) {
      var s :| Named(after, s, ns, name);
      assert s in db.services ==> Named(db, s, ns, name);
      assert ListedRow(after, ns, s, Creations(es));
      var e :| e in Creations(es) && CreatedAs(after, ns, s, e) && LooksAs(after.services[s], e);
      assert CreateEntry(e) in es;
    }
    if Present(db, ns, name) {
      var s :| Named(db, s, ns, name);
      assert Named(after, s, ns, name);
    }
    if x :| x in es && x.CreateEntry? && x.service.name == name {
      assert CreateEntry(x.service) in es;
    }
  }

  lemma CreationSucceeds(db: Database, ns: nat, e: ServiceInput)
    requires Consistent(db)
    ensures Creation(ns)(db, e).Success? <==>
              Present(db, ns, e.name) || e.parent.None? || Present(db, ns, e.parent.value)
  {
    FoundExactly(db, ns, e.name);
    if e.parent.Some? {
      FoundExactly(db, ns, e.parent.value);
      if Find(db, ns, e.parent.value).Some? {
        assert HistoryHolds(db.services[Find(db, ns, e.parent.value).value]);
      }
    }
  }

  lemma EarlierEntries(db: Database, ns: nat, before: seq<SeedEntry>, x: SeedEntry, i: nat)
    requires i < |before|
    ensures CreationFinds(db, ns, before + [x], i) <==> CreationFinds(db, ns, before, i)
    ensures DeletionFinds(db, ns, before + [x], i) <==> DeletionFinds(db, ns, before, i)
  {
    assert (before + [x])[..i] == before[..i];
  }

  lemma CreationsSnoc(before: seq<SeedEntry>, x: SeedEntry)
    ensures Creations(before + [x]) == Creations(before) + if x.CreateEntry? then [x.service] else []
  {
    CreationsJoin(before, [x]);
    ListsOfOne(x);
  }

  lemma FoldSnoc<X(!new)>(f: (Database, X) -> Result<Database>, db: Database, xs: seq<X>, x: X)
    ensures Fold(f, db, xs + [x]).Success? <==> Fold(f, db, xs).Success? && f(Fold(f, db, xs).value, x).Success?
  {
    assert (xs + [x])[..|xs|] == xs;
  }

  lemma {:induction false} CreationsSucceed(db: Database, ns: nat, es: seq<SeedEntry>)
    requires Consistent(db) && ns in db.namespaces
    ensures Fold(Creation(ns), db, Creations(es)).Success? <==>
              forall i :: 0 <= i < |es| ==> CreationFinds(db, ns, es, i)
  {
    if es != [] {
      var before, x := es[..|es| - 1], es[|es| - 1];
      assert es == before + [x];
      CreationsSucceed(db, ns, before);
      CreationsSnoc(before, x);
      forall i | 0 <= i < |before| {
        EarlierEntries(db, ns, before, x, i);
      }
      if x.CreateEntry? {
        FoldSnoc(Creation(ns), db, Creations(before), x.service);
        if Fold(Creation(ns), db, Creations(before)).Success? {
          NextCreation(db, ns, before, x.service);
        }
      } else {
        assert Creations(es) == Creations(before);
        assert CreationFinds(db, ns, es, |before|);
      }
    }
  }

  lemma NextCreation(db: Database, ns: nat, before: seq<SeedEntry>, e: ServiceInput)
    requires Consistent(db) && ns in db.namespaces && Fold(Creation(ns), db, Creations(before)).Success?
    ensures var es := before + [CreateEntry(e)];
            Creation(ns)(Fold(Creation(ns), db, Creations(before)).value, e).Success? <==>
              CreationFinds(db, ns, es, |before|)
  {
    var mid := Fold(Creation(ns), db, Creations(before)).value;
    CreationsKeepConsistent(db, ns, Creations(before));
    CreationSucceeds(mid, ns, e);
    PresentExactly(db, ns, before, e.name);
    if e.parent.Some? {
      PresentExactly(db, ns, before, e.parent.value);
    }
    assert (before + [CreateEntry(e)])[..|before|] == before;
  }

  // ------------------------------------------------------------- modifications and blocks

  predicate GivesAttributes(m: Modification) {
    m.parallelism.Some? || m.serviceType.Some?
  }

  lemma {:induction false} ModificationsSucceed(db: Database, ns: nat, ms: seq<Modification>)
    requires NamesUnique(db.services)
    ensures Fold(Reattribution(ns), db, ms).Success? <==>
              forall m :: m in ms && GivesAttributes(m) ==> Present(db, ns, m.name)
  {
    if ms != [] {
      var before, m := ms[..|ms| - 1], ms[|ms| - 1];
      assert ms == before + [m];
      ModificationsSucceed(db, ns, before);
      FoldSnoc(Reattribution(ns), db, before, m);
      if Fold(Reattribution(ns), db, before).Success? {
        ModificationsAchieve(db, ns, before);
        GivenIsPresent(db, ns, before, m.name);
        FoundExactly(AllGiven(db, ns, before), ns, m.name);
      }
    }
  }

  lemma GivenIsPresent(db: Database, ns: nat, ms: seq<Modification>, name: string)
    ensures Present(AllGiven(db, ns, ms), ns, name) <==> Present(db, ns, name)
  {
    if s :| Named(db, s, ns, name) {
      GivenKeepsNames(db, ns, ms, s, name);
    }
    if s :| Named(AllGiven(db, ns, ms), s, ns, name) {
      GivenKeepsNames(db, ns, ms, s, name);
    }
  }

  lemma SameRowsPresent(db: Database, after: Database, ns: nat, name: string)
    requires db.services == after.services
    ensures Present(db, ns, name) <==> Present(after, ns, name)
  {
    if s :| Named(db, s, ns, name) {
      assert Named(after, s, ns, name);
    }
    if s :| Named(after, s, ns, name) {
      assert Named(db, s, ns, name);
    }
  }

  lemma {:induction false} BlockAdditionsSucceed(db: Database, ns: nat, s: Id, names: seq<string>)
    requires NamesUnique(db.services)
    ensures Fold(BlockAddition(ns, s), db, names).Success? <==> forall b :: b in names ==> Present(db, ns, b)
  {
    if names != [] {
      var before, b := names[..|names| - 1], names[|names| - 1];
      assert names == before + [b];
      BlockAdditionsSucceed(db, ns, s, before);
      FoldSnoc(BlockAddition(ns, s), db, before, b);
      if Fold(BlockAddition(ns, s), db, before).Success? {
        BlockAdditionsAchieve(db, ns, s, before);
        var mid := Fold(BlockAddition(ns, s), db, before).value;
        SameRowsPresent(db, mid, ns, b);
        FoundExactly(mid, ns, b);
      }
    }
  }

  ghost predicate BlockersPresent(db: Database, ns: nat, x: (string, seq<string>)) {
    Present(db, ns, x.0) && forall b :: b in x.1 ==> Present(db, ns, b)
  }

  lemma NextBlocking(db: Database, mid: Database, ns: nat, x: (string, seq<string>))
    requires NamesUnique(db.services) && db.services == mid.services
    ensures Blocking(ns)(mid, x).Success? <==> BlockersPresent(db, ns, x)
  {
    FoundExactly(mid, ns, x.0);
    SameRowsPresent(db, mid, ns, x.0);
    if Find(mid, ns, x.0).Some? {
      BlockAdditionsSucceed(mid, ns, Find(mid, ns, x.0).value, x.1);
      forall b | b in x.1 {
        SameRowsPresent(db, mid, ns, b);
      }
    }
  }

  lemma {:induction false} BlockingsSucceed(db: Database, ns: nat, xs: seq<(string, seq<string>)>)
    requires NamesUnique(db.services)
    ensures Fold(Blocking(ns), db, xs).Success? <==> forall x :: x in xs ==> BlockersPresent(db, ns, x)
  {
    if xs != [] {
      var before, x := xs[..|xs| - 1], xs[|xs| - 1];
      assert xs == before + [x];
      BlockingsSucceed(db, ns, before);
      FoldSnoc(Blocking(ns), db, before, x);
      if Fold(Blocking(ns), db, before).Success? {
        BlockingsAchieve(db, ns, before);
        NextBlocking(db, Fold(Blocking(ns), db, before).value, ns, x);
      }
    }
  }

  // ------------------------------------------------------------------ the whole action

  /** After the deletions and creations there is a service of that name. */
  ghost predicate Known(db: Database, ns: nat, es: seq<SeedEntry>, name: string) {
    Stays(db, ns, es, name) || Creates(es, name)
  }

  /** A create entry finds its parent among what stays and what earlier entries create, or has no
      parent, or its name exists already. */
  ghost predicate MayCreate(db: Database, ns: nat, es: seq<SeedEntry>, i: nat)
    requires i < |es|
  {
    es[i].CreateEntry? ==>
      var e := es[i].service;
      || Stays(db, ns, es, e.name) || Creates(es[..i], e.name)
      || e.parent.None? || Stays(db, ns, es, e.parent.value) || Creates(es[..i], e.parent.value)
  }

  ghost predicate MayBlock(db: Database, ns: nat, es: seq<SeedEntry>, name: string, blockees: seq<string>) {
    Known(db, ns, es, name) && forall b :: b in blockees ==> Known(db, ns, es, b)
  }

  ghost predicate MaySucceed(db: Database, ns: nat, es: seq<SeedEntry>) {
    && (forall i :: 0 <= i < |es| ==> DeletionFinds(db, ns, es, i))
    && (forall i :: 0 <= i < |es| ==> MayCreate(db, ns, es, i))
    && (forall m :: ModifyEntry(m) in es && GivesAttributes(m) ==> Known(db, ns, es, m.name))
    && (forall x, name, blockees :: x in es && AsksBlocks(x, name, blockees) ==> MayBlock(db, ns, es, name, blockees))
  }

  lemma CreateStage(db: Database, ns: nat, es: seq<SeedEntry>)
    requires Consistent(db) && ns in db.namespaces && AfterDeletions(db, ns, es).Success?
    ensures AfterCreations(db, ns, es).Success? <==> forall i :: 0 <= i < |es| ==> MayCreate(db, ns, es, i)
  {
    DeletionsKeepConsistent(db, ns, Deletions(es));
    FoldKeepsNamespaces(Deletion(ns), db, Deletions(es));
    var d1 := AfterDeletions(db, ns, es).value;
    CreationsSucceed(d1, ns, es);
    forall i | 0 <= i < |es|
      ensures MayCreate(db, ns, es, i) <==> CreationFinds(d1, ns, es, i)
    {
      if es[i].CreateEntry? {
        StaysExactly(db, ns, es, es[i].service.name);
        if es[i].service.parent.Some? {
          StaysExactly(db, ns, es, es[i].service.parent.value);
        }
      }
    }
  }

  lemma KnownExactly(db: Database, ns: nat, es: seq<SeedEntry>, name: string)
    requires Consistent(db) && ns in db.namespaces && AfterCreations(db, ns, es).Success?
    ensures Present(AfterCreations(db, ns, es).value, ns, name) <==> Known(db, ns, es, name)
  {
    DeletionsKeepConsistent(db, ns, Deletions(es));
    FoldKeepsNamespaces(Deletion(ns), db, Deletions(es));
    StaysExactly(db, ns, es, name);
    PresentExactly(AfterDeletions(db, ns, es).value, ns, es, name);
  }

  lemma CreationsLeaveConsistent(db: Database, ns: nat, es: seq<SeedEntry>)
    requires Consistent(db) && ns in db.namespaces && AfterCreations(db, ns, es).Success?
    ensures Consistent(AfterCreations(db, ns, es).value)
  {
    DeletionsKeepConsistent(db, ns, Deletions(es));
    FoldKeepsNamespaces(Deletion(ns), db, Deletions(es));
    CreationsKeepConsistent(AfterDeletions(db, ns, es).value, ns, Creations(es));
  }

  lemma ModifyStage(db: Database, ns: nat, es: seq<SeedEntry>)
    requires Consistent(db) && ns in db.namespaces && AfterCreations(db, ns, es).Success?
    ensures AfterModifications(db, ns, es).Success? <==>
              forall m :: ModifyEntry(m) in es && GivesAttributes(m) ==> Known(db, ns, es, m.name)
  {
    CreationsLeaveConsistent(db, ns, es);
    ListsHave(es);
    ModificationsSucceed(AfterCreations(db, ns, es).value, ns, Modifications(es));
    forall m: Modification {
      KnownExactly(db, ns, es, m.name);
    }
  }

  lemma BlockStage(db: Database, ns: nat, es: seq<SeedEntry>)
    requires Consistent(db) && ns in db.namespaces && AfterModifications(db, ns, es).Success?
    ensures NamespaceModified(db, ns, Some(es)).Success? <==>
              forall x, name, blockees :: x in es && AsksBlocks(x, name, blockees) ==>
                                            MayBlock(db, ns, es, name, blockees)
  {
    CreationsLeaveConsistent(db, ns, es);
    var d2, d3 := AfterCreations(db, ns, es).value, AfterModifications(db, ns, es).value;
    ModificationsAchieve(d2, ns, Modifications(es));
    ReattributionsKeepConsistent(d2, ns, Modifications(es));
    BlockingsSucceed(d3, ns, Blockers(es));
    forall name: string
      ensures Present(d3, ns, name) <==> Known(db, ns, es, name)
    {
      GivenIsPresent(d2, ns, Modifications(es), name);
      KnownExactly(db, ns, es, name);
    }
    forall y: (string, seq<string>)
      ensures BlockersPresent(d3, ns, y) <==> MayBlock(db, ns, es, y.0, y.1)
    {}
    BlocksAskedAre(db, ns, es);
  }

  lemma BlocksAskedAre(db: Database, ns: nat, es: seq<SeedEntry>)
    ensures (forall y :: y in Blockers(es) ==> MayBlock(db, ns, es, y.0, y.1)) <==>
              forall x, name, blockees :: x in es && AsksBlocks(x, name, blockees) ==>
                                            MayBlock(db, ns, es, name, blockees)
  {
    forall y | y in Blockers(es)
      ensures exists x :: x in es && AsksBlocks(x, y.0, y.1)
    {
      assert y == (y.0, y.1);
      BlockersHave(es, y.0, y.1);
    }
    forall x, name, blockees | x in es && AsksBlocks(x, name, blockees)
      ensures (name, blockees) in Blockers(es)
    {
      BlockersHave(es, name, blockees);
    }
    if forall y :: y in Blockers(es) ==> MayBlock(db, ns, es, y.0, y.1) {
      forall x, name, blockees | x in es && AsksBlocks(x, name, blockees)
        ensures MayBlock(db, ns, es, name, blockees)
      {
        assert MayBlock(db, ns, es, (name, blockees).0, (name, blockees).1);
      }
    }
  }

  /** A modify action on a namespace succeeds exactly when every delete entry finds a service no earlier
      one took away, every new name finds its parent among what stays and what earlier entries create,
      and whatever is given attributes, blocks or is blocked exists by then. */
  lemma ModifySucceedsExactly(db: Database, ns: nat, es: seq<SeedEntry>)
    requires Consistent(db) && ns in db.namespaces
    ensures NamespaceModified(db, ns, Some(es)).Success? <==> MaySucceed(db, ns, es)
  {
    DeletionsSucceed(db, ns, es);
    if AfterDeletions(db, ns, es).Success? {
      CreateStage(db, ns, es);
      if AfterCreations(db, ns, es).Success? {
        ModifyStage(db, ns, es);
        if AfterModifications(db, ns, es).Success? {
          BlockStage(db, ns, es);
        }
      }
    }
  }
}
