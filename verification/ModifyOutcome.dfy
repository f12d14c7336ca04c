/** A modify action in terms of its list of entries: what it leaves in the tables, and when it fails. */
module ModifyOutcome {
  import opened Common
  import opened Registry
  import opened Integrity
  import opened Seeding
  import opened Modifying
  import opened Modified
  import opened Subtrees

  // ---------------------------------------------------------------------- what is left

  /** The service is, or hangs under, a service that some entry deletes. */
  ghost predicate IsGone(db: Database, ns: nat, es: seq<SeedEntry>, s: Id) {
    exists t :: t in db.services && db.services[t].namespaceId == ns && DeleteEntry(db.services[t].name) in es &&
                Under(db.services, s, t)
  }

  lemma GoneExactly(db: Database, ns: nat, es: seq<SeedEntry>, s: Id)
    requires s in db.services
    ensures IsGone(db, ns, es, s) <==> s in Gone(db, ns, es)
  {
    ListsHave(es);
    if s in Gone(db, ns, es) {
      var t :| t in NamedAny(db, ns, Deletions(es)) && Under(db.services, s, t);
      assert DeleteEntry(db.services[t].name) in es;
    }
    if IsGone(db, ns, es, s) {
      var t :| t in db.services && db.services[t].namespaceId == ns && DeleteEntry(db.services[t].name) in es &&
               Under(db.services, s, t);
      assert t in NamedAny(db, ns, Deletions(es));
    }
  }

  predicate GivesParallelism(x: SeedEntry, name: string) {
    x.ModifyEntry? && x.modification.name == name && x.modification.parallelism.Some?
  }

  predicate GivesServiceType(x: SeedEntry, name: string) {
    x.ModifyEntry? && x.modification.name == name && x.modification.serviceType.Some?
  }

  /** The last entry that gives the service a parallelism decides; without one it stays. */
  ghost predicate ParallelismIs(es: seq<SeedEntry>, name: string, was: Parallelism, now: Parallelism) {
    && ((forall x :: x in es ==> !GivesParallelism(x, name)) ==> now == was)
    && (forall i :: 0 <= i < |es| && GivesParallelism(es[i], name) &&
                    (forall j :: i < j < |es| ==> !GivesParallelism(es[j], name)) ==>
          now == es[i].modification.parallelism.value)
  }

  ghost predicate ServiceTypeIs(es: seq<SeedEntry>, name: string, was: ServiceType, now: ServiceType) {
    && ((forall x :: x in es ==> !GivesServiceType(x, name)) ==> now == was)
    && (forall i :: 0 <= i < |es| && GivesServiceType(es[i], name) &&
                    (forall j :: i < j < |es| ==> !GivesServiceType(es[j], name)) ==>
          now == es[i].modification.serviceType.value)
  }

  lemma ModificationsSnoc(before: seq<SeedEntry>, x: SeedEntry)
    ensures Modifications(before + [x]) == Modifications(before) + if x.ModifyEntry? then [x.modification] else []
  {
    ModificationsJoin(before, [x]);
    ListsOfOne(x);
  }

  lemma ParallelismSnoc(before: seq<SeedEntry>, x: SeedEntry, name: string, was: Parallelism, mid: Parallelism)
    requires ParallelismIs(before, name, was, mid)
    ensures ParallelismIs(before + [x], name, was,
                  if GivesParallelism(x, name) then x.modification.parallelism.value else mid)
  {
    var es := before + [x];
    assert es[|before|] == x && forall y :: y in before ==> y in es;
    forall i | 0 <= i < |before| && GivesParallelism(es[i], name) &&
               (forall j :: i < j < |es| ==> !GivesParallelism(es[j], name))
      ensures !GivesParallelism(x, name) && mid == es[i].modification.parallelism.value
    {
      assert forall j :: i < j < |before| ==> before[j] == es[j];
      assert before[i] == es[i];
    }
  }

  lemma {:induction false} LastParallelismIs(es: seq<SeedEntry>, name: string, was: Parallelism)
    ensures ParallelismIs(es, name, was, LastParallelism(Modifications(es), name, was))
  {
    if es != [] {
      var before, x := es[..|es| - 1], es[|es| - 1];
      assert es == before + [x];
      LastParallelismIs(before, name, was);
      ParallelismSnoc(before, x, name, was, LastParallelism(Modifications(before), name, was));
      ModificationsSnoc(before, x);
      if x.ModifyEntry? {
        assert Modifications(es)[..|Modifications(es)| - 1] == Modifications(before);
      } else {
        assert Modifications(es) == Modifications(before);
      }
    }
  }

  lemma ServiceTypeSnoc(before: seq<SeedEntry>, x: SeedEntry, name: string, was: ServiceType, mid: ServiceType)
    requires ServiceTypeIs(before, name, was, mid)
    ensures ServiceTypeIs(before + [x], name, was,
                  if GivesServiceType(x, name) then x.modification.serviceType.value else mid)
  {
    var es := before + [x];
    assert es[|before|] == x && forall y :: y in before ==> y in es;
    forall i | 0 <= i < |before| && GivesServiceType(es[i], name) &&
               (forall j :: i < j < |es| ==> !GivesServiceType(es[j], name))
      ensures !GivesServiceType(x, name) && mid == es[i].modification.serviceType.value
    {
      assert forall j :: i < j < |before| ==> before[j] == es[j];
      assert before[i] == es[i];
    }
  }

  lemma {:induction false} LastServiceTypeIs(es: seq<SeedEntry>, name: string, was: ServiceType)
    ensures ServiceTypeIs(es, name, was, LastServiceType(Modifications(es), name, was))
  {
    if es != [] {
      var before, x := es[..|es| - 1], es[|es| - 1];
      assert es == before + [x];
      LastServiceTypeIs(before, name, was);
      ServiceTypeSnoc(before, x, name, was, LastServiceType(Modifications(before), name, was));
      ModificationsSnoc(before, x);
      if x.ModifyEntry? {
        assert Modifications(es)[..|Modifications(es)| - 1] == Modifications(before);
      } else {
        assert Modifications(es) == Modifications(before);
      }
    }
  }

  /** An old row afterwards: the attributes given, and everything else as it was. */
  ghost predicate StaysAs(es: seq<SeedEntry>, ns: nat, was: Service, now: Service) {
    && now == was.(parallelism := now.parallelism, serviceType := now.serviceType)
    && if was.namespaceId == ns
       then && ParallelismIs(es, was.name, was.parallelism, now.parallelism)
            && ServiceTypeIs(es, was.name, was.serviceType, now.serviceType)
       else now == was
  }

  /** A new row: as a create entry says, with the attributes given to its name. */
  ghost predicate IsCreated(db: Database, ns: nat, es: seq<SeedEntry>, s: Id) {
    exists e :: CreateEntry(e) in es && CreatedAs(db, ns, s, e)
      && ParallelismIs(es, e.name, e.parallelism, db.services[s].parallelism)
      && ServiceTypeIs(es, e.name, e.serviceType, db.services[s].serviceType)
  }

  /** An entry asks that the one service block the other. */
  ghost predicate IsBlocked(db: Database, ns: nat, es: seq<SeedEntry>, s: Id, t: Id) {
    exists x, blockees :: x in es && s in db.services && AsksBlocks(x, db.services[s].name, blockees) &&
      db.services[s].namespaceId == ns && t in db.services && db.services[t].namespaceId == ns &&
      db.services[t].name in blockees
  }

  lemma AskedExactly(db: Database, ns: nat, es: seq<SeedEntry>, s: Id, t: Id)
    ensures Asked(db, ns, Blockers(es), s, t) <==> IsBlocked(db, ns, es, s, t)
  {
    if Asked(db, ns, Blockers(es), s, t) {
      var x :| x in Blockers(es) && AsksFor(db, ns, x, s, t);
      BlockersHave(es, x.0, x.1);
      assert x == (x.0, x.1);
    }
    if IsBlocked(db, ns, es, s, t) {
      var x, blockees :| x in es && s in db.services && AsksBlocks(x, db.services[s].name, blockees) &&
        db.services[s].namespaceId == ns && t in db.services && db.services[t].namespaceId == ns &&
        db.services[t].name in blockees;
      BlockersHave(es, db.services[s].name, blockees);
      assert AsksFor(db, ns, (db.services[s].name, blockees), s, t);
    }
  }

  /** What a modify action leaves. */
  ghost predicate Outcome(db: Database, ns: nat, es: seq<SeedEntry>, after: Database) {
    && (forall s :: s in db.services ==> (s in after.services <==> !IsGone(db, ns, es, s)))
    && (forall s :: s in db.services && s in after.services ==> StaysAs(es, ns, db.services[s], after.services[s]))
    && (forall s {:trigger IsCreated(after, ns, es, s)} ::
          s in after.services && s !in db.services ==> IsCreated(after, ns, es, s))
    && (forall e :: CreateEntry(e) in es ==> Present(after, ns, e.name))
    && (forall s: Id, t: Id :: (s, t) in after.blocks <==>
          || ((s, t) in db.blocks && !IsGone(db, ns, es, s) && !IsGone(db, ns, es, t))
          || IsBlocked(after, ns, es, s, t))
    && after.namespaces == db.namespaces
  }

  lemma OldRowsLeft(db: Database, ns: nat, es: seq<SeedEntry>, after: Database, s: Id)
    requires OldRowsAchieved(db, ns, es, after) && s in db.services
    ensures s in after.services <==> !IsGone(db, ns, es, s)
    ensures s in after.services ==> StaysAs(es, ns, db.services[s], after.services[s])
  {
    GoneExactly(db, ns, es, s);
    var v := db.services[s];
    LastParallelismIs(es, v.name, v.parallelism);
    LastServiceTypeIs(es, v.name, v.serviceType);
  }

  lemma NewRowsLeft(db: Database, ns: nat, es: seq<SeedEntry>, after: Database, s: Id)
    requires ListedGiven(after, ns, s, es)
    ensures IsCreated(after, ns, es, s)
  {
    ListsHave(es);
    var e :| e in Creations(es) && CreatedAs(after, ns, s, e)
             && after.services[s].parallelism == LastParallelism(Modifications(es), e.name, e.parallelism)
             && after.services[s].serviceType == LastServiceType(Modifications(es), e.name, e.serviceType);
    LastParallelismIs(es, e.name, e.parallelism);
    LastServiceTypeIs(es, e.name, e.serviceType);
    assert CreateEntry(e) in es;
  }

  lemma BlocksLeft(db: Database, ns: nat, es: seq<SeedEntry>, after: Database, s: Id, t: Id)
    requires BlocksHold(db) && BlocksAchieved(db, ns, es, after)
    ensures (s, t) in after.blocks <==>
              || ((s, t) in db.blocks && !IsGone(db, ns, es, s) && !IsGone(db, ns, es, t))
              || IsBlocked(after, ns, es, s, t)
  {
    AskedExactly(after, ns, es, s, t);
    if (s, t) in db.blocks {
      assert (s, t).0 in db.services && (s, t).1 in db.services;
      GoneExactly(db, ns, es, s);
      GoneExactly(db, ns, es, t);
    }
  }

  /** A successful modify action takes away exactly the services under a deleted one; leaves every other
      row as it was but for the attributes given, the last entry winning; makes every created name
      present, each new row as its entry says and under the parent it names; and leaves exactly the
      blocks between survivors and those that entries ask for. */
  lemma ModifyAchieves(db: Database, ns: nat, es: seq<SeedEntry>)
    requires Consistent(db) && ns in db.namespaces && NamespaceModified(db, ns, Some(es)).Success?
    ensures Outcome(db, ns, es, NamespaceModified(db, ns, Some(es)).value)
  {
    var after := NamespaceModified(db, ns, Some(es)).value;
    ListsAchieve(db, ns, es);
    ListsHave(es);
    forall s | s in db.services {
      OldRowsLeft(db, ns, es, after, s);
    }
    forall s | s in after.services && s !in db.services
      ensures IsCreated(after, ns, es, s)
    {
      assert ListedGiven(after, ns, s, es);
      NewRowsLeft(db, ns, es, after, s);
    }
    forall s: Id, t: Id {
      BlocksLeft(db, ns, es, after, s, t);
    }
  }
}
