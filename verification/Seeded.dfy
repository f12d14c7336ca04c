/** What seeding a namespace leaves in the tables, whatever the order of its service list. */
module Seeded {
  import opened Common
  import opened Registry
  import opened Integrity
  import opened Seeding

  /** The tables with the new namespace row. */
  function Opened(db: Database, name: string): Database {
    db.(namespaces := db.namespaces[db.nextNamespaceId := name], nextNamespaceId := db.nextNamespaceId + 1)
  }

  function ServicesSeeded(db: Database, name: string, input: seq<ServiceInput>): Progress {
    Passes(Start(Opened(db, name)), input, db.nextNamespaceId, |input|)
  }

  predicate BlockeesKnown(ids: map<string, Id>, input: seq<ServiceInput>) {
    forall e :: e in input ==> forall b :: b in e.blockees ==> e.name in ids && b in ids
  }

  function SeededBlocks(ids: map<string, Id>, input: seq<ServiceInput>): set<(Id, Id)>
    requires BlockeesKnown(ids, input)
  {
    set e, b | e in input && b in e.blockees :: (ids[e.name], ids[b])
  }

  /** The tables after a create action on a seedable list; a blockee outside the list throws. */
  function NamespaceCreated(db: Database, name: string, input: seq<ServiceInput>): Result<Database> {
    var p := ServicesSeeded(db, name, input);
    if BlockeesKnown(p.ids, input) then Success(p.db.(blocks := p.db.blocks + SeededBlocks(p.ids, input)))
    else Failure(BadInput)
  }

  // ------------------------------------------------------------ loop invariant

  function Entry(input: seq<ServiceInput>, name: string): ServiceInput
    requires IndexOf(input, name).Some?
  {
    input[IndexOf(input, name).value]
  }

  /** The saved row of a name: fresh, as its entry says, and saved after its parent. */
  ghost predicate NameHolds(base: Database, input: seq<ServiceInput>, namespaceId: nat, p: Progress, n: string)
    requires n in p.ids
  {
    && IndexOf(input, n).Some?
    && var e := Entry(input, n);
    && (e.parent.Some? ==> e.parent.value in p.ids && p.ids[e.parent.value] < p.ids[n])
    && base.nextId <= p.ids[n]
    && p.ids[n] in p.db.services
    && p.db.services[p.ids[n]] == RowFor(p.ids, input, namespaceId, e)
  }

  ghost predicate SeedingHolds(base: Database, input: seq<ServiceInput>, namespaceId: nat, p: Progress) {
    && Consistent(p.db)
    && p.db == p.db.(blocks := base.blocks, namespaces := base.namespaces, nextNamespaceId := base.nextNamespaceId)
    && (forall n {:trigger NameHolds(base, input, namespaceId, p, n)} ::
          n in p.ids ==> NameHolds(base, input, namespaceId, p, n))
    && (forall s :: s in base.services ==> s in p.db.services && p.db.services[s] == base.services[s])
    && (forall s :: s in p.db.services && s !in base.services ==>
          p.db.services[s].name in p.ids && p.ids[p.db.services[s].name] == s)
  }

  ghost predicate FreshNamespace(base: Database, namespaceId: nat) {
    namespaceId in base.namespaces && forall s :: s in base.services ==> base.services[s].namespaceId != namespaceId
  }

  lemma SavedRowIsAligned(base: Database, input: seq<ServiceInput>, namespaceId: nat, p: Progress, e: ServiceInput)
    requires SeedingHolds(base, input, namespaceId, p) && Creatable(p.ids, e)
    ensures StartsAligned(p.db, RowFor(p.ids, input, namespaceId, e))
    ensures e.parent.Some? ==> p.db.services[p.ids[e.parent.value]].namespaceId == namespaceId
  {
    if e.parent.Some? {
      assert NameHolds(base, input, namespaceId, p, e.parent.value);
    }
  }

  lemma SavedNameHolds(
    base: Database, input: seq<ServiceInput>, namespaceId: nat, p: Progress, i: nat, n: string)
    requires DistinctNames(input) && i < |input| && base.nextId <= p.db.nextId
    requires SeedingHolds(base, input, namespaceId, p) && Creatable(p.ids, input[i])
    requires n in p.ids || n == input[i].name
    ensures var q := Visit(p, input, namespaceId, i); n in q.ids && NameHolds(base, input, namespaceId, q, n)
  {
    var e := input[i];
    KeyIsFresh(p.db);
    if n in p.ids {
      assert NameHolds(base, input, namespaceId, p, n);
    } else if e.parent.Some? {
      assert NameHolds(base, input, namespaceId, p, e.parent.value);
      assert RowHolds(p.db, p.ids[e.parent.value]);
    }
  }

  lemma VisitKeepsSeeding(
    base: Database, input: seq<ServiceInput>, namespaceId: nat, p: Progress, i: nat)
    requires DistinctNames(input) && i < |input|
    requires base.nextId <= p.db.nextId && FreshNamespace(base, namespaceId)
    requires SeedingHolds(base, input, namespaceId, p)
    ensures var q := Visit(p, input, namespaceId, i);
            base.nextId <= q.db.nextId && SeedingHolds(base, input, namespaceId, q)
  {
    var e := input[i];
    if Creatable(p.ids, e) {
      var q := Visit(p, input, namespaceId, i);
      SavedRowIsAligned(base, input, namespaceId, p, e);
      SaveKeepsConsistent(p.db, RowFor(p.ids, input, namespaceId, e));
      forall n | n in q.ids
        ensures NameHolds(base, input, namespaceId, q, n)
      {
        SavedNameHolds(base, input, namespaceId, p, i, n);
      }
    }
  }

  lemma {:induction false} PassToKeepsSeeding(
    base: Database, input: seq<ServiceInput>, namespaceId: nat, p: Progress, n: nat)
    requires DistinctNames(input) && n <= |input|
    requires base.nextId <= p.db.nextId && FreshNamespace(base, namespaceId)
    requires SeedingHolds(base, input, namespaceId, p)
    ensures var q := PassTo(p, input, namespaceId, n);
            base.nextId <= q.db.nextId && SeedingHolds(base, input, namespaceId, q)
  {
    if n > 0 {
      PassToKeepsSeeding(base, input, namespaceId, p, n - 1);
      VisitKeepsSeeding(base, input, namespaceId, PassTo(p, input, namespaceId, n - 1), n - 1);
    }
  }

  lemma {:induction false} PassesKeepSeeding(
    base: Database, input: seq<ServiceInput>, namespaceId: nat, p: Progress, k: nat)
    requires DistinctNames(input)
    requires base.nextId <= p.db.nextId && FreshNamespace(base, namespaceId)
    requires SeedingHolds(base, input, namespaceId, p)
    ensures var q := Passes(p, input, namespaceId, k);
            base.nextId <= q.db.nextId && SeedingHolds(base, input, namespaceId, q)
  {
    if k > 0 {
      PassesKeepSeeding(base, input, namespaceId, p, k - 1);
      PassToKeepsSeeding(base, input, namespaceId, Passes(p, input, namespaceId, k - 1), |input|);
    }
  }

  lemma OpenedHolds(db: Database, name: string, input: seq<ServiceInput>)
    requires Consistent(db)
    ensures var base := Opened(db, name);
            FreshNamespace(base, db.nextNamespaceId) && SeedingHolds(base, input, db.nextNamespaceId, Start(base))
  {
    var base := Opened(db, name);
    forall s | s in base.services
      ensures RowHolds(base, s) && base.services[s].namespaceId != db.nextNamespaceId
    {
      assert RowHolds(db, s);
    }
  }

  lemma SeedingEnds(db: Database, name: string, input: seq<ServiceInput>)
    requires Consistent(db) && Seedable(input)
    ensures var p := ServicesSeeded(db, name, input);
            p.ids.Keys == Names(input) && SeedingHolds(Opened(db, name), input, db.nextNamespaceId, p)
  {
    var base := Opened(db, name);
    OpenedHolds(db, name, input);
    PassesKeepSeeding(base, input, db.nextNamespaceId, Start(base), |input|);
    PassesKeepKeys(Start(base), input, db.nextNamespaceId, |input|);
    StopsWhenSeedable(base, input, db.nextNamespaceId);
    NothingRemains(ServicesSeeded(db, name, input), input);
  }

  // ------------------------------------------------- the result, up to generated ids

  datatype Portrait = Portrait(
    name: string,
    parallelism: Parallelism,
    serviceType: ServiceType,
    parent: Option<string>,
    rotations: seq<Rotation>)

  function PortraitOf(ss: Services, s: Id): Portrait
    requires s in ss
  {
    var v := ss[s];
    Portrait(v.name, v.parallelism, v.serviceType,
             if v.parent.Some? && v.parent.value in ss then Some(ss[v.parent.value].name) else None, v.rotations)
  }

  function ServicePortraits(db: Database, namespaceId: nat): set<Portrait> {
    set s | s in db.services && db.services[s].namespaceId == namespaceId :: PortraitOf(db.services, s)
  }

  function BlockPortraits(db: Database, namespaceId: nat): set<(string, string)> {
    set b | b in db.blocks && b.0 in db.services && b.1 in db.services && db.services[b.0].namespaceId == namespaceId ::
      (db.services[b.0].name, db.services[b.1].name)
  }

  /** The rotation an entry gives, or one. */
  function Stored(e: ServiceInput): int {
    match e.rotation
    case Some(r) => r
    case None => 1
  }

  /** A first row has the rotation the entry gives and the one its parent's entry gives. */
  function ExpectedRow(input: seq<ServiceInput>, e: ServiceInput): Rotation {
    match e.parent
    case None => Rotation(None, Stored(e))
    case Some(p) =>
      match IndexOf(input, p)
      case None => Rotation(None, Stored(e))
      case Some(i) => Rotation(Some(Stored(input[i])), Stored(e))
  }

  /** What the list alone says the namespace should look like. */
  function Expected(input: seq<ServiceInput>): set<Portrait> {
    set e | e in input :: Portrait(e.name, e.parallelism, e.serviceType, e.parent, [ExpectedRow(input, e)])
  }

  function ExpectedBlocks(input: seq<ServiceInput>): set<(string, string)> {
    set e, b | e in input && b in e.blockees :: (e.name, b)
  }

  lemma SavedPortrait(
    base: Database, input: seq<ServiceInput>, namespaceId: nat, p: Progress, n: string)
    requires SeedingHolds(base, input, namespaceId, p) && n in p.ids
    ensures IndexOf(input, n).Some? && p.ids[n] in p.db.services
    ensures var e := Entry(input, n);
            PortraitOf(p.db.services, p.ids[n]) ==
            Portrait(n, e.parallelism, e.serviceType, e.parent, [ExpectedRow(input, e)])
  {
    assert NameHolds(base, input, namespaceId, p, n);
    var e := Entry(input, n);
    if e.parent.Some? {
      assert NameHolds(base, input, namespaceId, p, e.parent.value);
    }
  }

  lemma SeededPortraits(base: Database, input: seq<ServiceInput>, namespaceId: nat, p: Progress)
    requires DistinctNames(input) && SeedingHolds(base, input, namespaceId, p) && FreshNamespace(base, namespaceId)
    requires p.ids.Keys == Names(input)
    ensures ServicePortraits(p.db, namespaceId) == Expected(input)
  {
    forall x | x in ServicePortraits(p.db, namespaceId)
      ensures x in Expected(input)
    {
      var s :| s in p.db.services && p.db.services[s].namespaceId == namespaceId && x == PortraitOf(p.db.services, s);
      assert s !in base.services;
      SavedPortrait(base, input, namespaceId, p, p.db.services[s].name);
      assert Entry(input, p.db.services[s].name) in input;
    }
    forall x | x in Expected(input)
      ensures x in ServicePortraits(p.db, namespaceId)
    {
      var i :| 0 <= i < |input| && x.name == input[i].name &&
               x == Portrait(input[i].name, input[i].parallelism, input[i].serviceType, input[i].parent,
                             [ExpectedRow(input, input[i])]);
      SavedPortrait(base, input, namespaceId, p, x.name);
      assert NameHolds(base, input, namespaceId, p, x.name);
    }
  }

  /** Every blockee is named in the list. */
  predicate BlockeesListed(input: seq<ServiceInput>) {
    forall e :: e in input ==> forall b :: b in e.blockees ==> b in Names(input)
  }

  lemma SeededBlockPortraits(base: Database, input: seq<ServiceInput>, namespaceId: nat, p: Progress)
    requires Consistent(base)
    requires SeedingHolds(base, input, namespaceId, p) && FreshNamespace(base, namespaceId)
    requires BlockeesKnown(p.ids, input)
    ensures var db := p.db.(blocks := p.db.blocks + SeededBlocks(p.ids, input));
            BlocksHold(db) && BlockPortraits(db, namespaceId) == ExpectedBlocks(input)
  {
    var db := p.db.(blocks := p.db.blocks + SeededBlocks(p.ids, input));
    forall e, b | e in input && b in e.blockees
      ensures p.ids[e.name] in db.services && p.ids[b] in db.services
      ensures db.services[p.ids[e.name]].name == e.name && db.services[p.ids[b]].name == b
      ensures db.services[p.ids[e.name]].namespaceId == namespaceId
    {
      assert NameHolds(base, input, namespaceId, p, e.name) && NameHolds(base, input, namespaceId, p, b);
    }
    forall x | x in ExpectedBlocks(input)
      ensures x in BlockPortraits(db, namespaceId)
    {
      var e, b :| e in input && b in e.blockees && x == (e.name, b);
      assert (p.ids[e.name], p.ids[b]) in db.blocks;
    }
    forall x | x in BlockPortraits(db, namespaceId)
      ensures x in ExpectedBlocks(input)
    {
      var c :| c in db.blocks && c.0 in db.services && c.1 in db.services &&
               db.services[c.0].namespaceId == namespaceId && x == (db.services[c.0].name, db.services[c.1].name);
      assert c !in base.blocks;
      var e, b :| e in input && b in e.blockees && c == (p.ids[e.name], p.ids[b]);
    }
  }

  /** Creating a namespace fails exactly when a blockee is not listed. Otherwise the tables stay
      consistent, earlier rows and blocks stay as they were, and the new namespace holds exactly
      the services, rotations and blocks its list describes. */
  lemma CreationMeetsTheList(db: Database, name: string, input: seq<ServiceInput>)
    requires Consistent(db) && Seedable(input)
    ensures NamespaceCreated(db, name, input).Success? <==> BlockeesListed(input)
    ensures NamespaceCreated(db, name, input).Success? ==>
              var after := NamespaceCreated(db, name, input).value;
              && Consistent(after)
              && ServicePortraits(after, db.nextNamespaceId) == Expected(input)
              && BlockPortraits(after, db.nextNamespaceId) == ExpectedBlocks(input)
              && db.blocks <= after.blocks
              && after.namespaces == db.namespaces[db.nextNamespaceId := name]
              && (forall s :: s in db.services ==> s in after.services && after.services[s] == db.services[s])
              && (forall s :: s in after.services && s !in db.services ==>
                    after.services[s].namespaceId == db.nextNamespaceId)
  {
    SeedingEnds(db, name, input);
    var base := Opened(db, name);
    var p := ServicesSeeded(db, name, input);
    OpenedHolds(db, name, input);
    assert forall e :: e in input ==> e.name in Names(input);
    if BlockeesListed(input) {
      assert BlockeesKnown(p.ids, input);
      SeededPortraits(base, input, db.nextNamespaceId, p);
      SeededBlockPortraits(base, input, db.nextNamespaceId, p);
      AddingBlocksKeepsConsistent(p.db, SeededBlocks(p.ids, input));
      var after := NamespaceCreated(db, name, input).value;
      assert ServicePortraits(after, db.nextNamespaceId) == ServicePortraits(p.db, db.nextNamespaceId);
      forall s | s in after.services && s !in db.services
        ensures after.services[s].namespaceId == db.nextNamespaceId
      {
        assert NameHolds(base, input, db.nextNamespaceId, p, p.db.services[s].name);
      }
    }
  }

  /** The map of saved services names each listed service by its key. */
  lemma IdsNameTheRows(db: Database, name: string, input: seq<ServiceInput>)
    requires Consistent(db) && Seedable(input)
    ensures var p := ServicesSeeded(db, name, input);
            && p.ids.Keys == Names(input)
            && forall n :: n in p.ids ==> Named(p.db, p.ids[n], db.nextNamespaceId, n)
  {
    SeedingEnds(db, name, input);
    var p := ServicesSeeded(db, name, input);
    forall n | n in p.ids
      ensures Named(p.db, p.ids[n], db.nextNamespaceId, n)
    {
      assert NameHolds(Opened(db, name), input, db.nextNamespaceId, p, n);
    }
  }

  lemma AddingBlocksKeepsConsistent(db: Database, more: set<(Id, Id)>)
    requires Consistent(db) && BlocksHold(db.(blocks := db.blocks + more))
    ensures Consistent(db.(blocks := db.blocks + more))
  {
    var after := db.(blocks := db.blocks + more);
    forall s | s in after.services
      ensures RowHolds(after, s)
    {
      assert RowHolds(db, s);
    }
  }

  // ------------------------------------------------------------ order independence

  lemma SameEntries(a: seq<ServiceInput>, b: seq<ServiceInput>, n: string)
    requires DistinctNames(b) && forall e :: e in a ==> e in b
    requires IndexOf(a, n).Some?
    ensures IndexOf(b, n).Some? && Entry(a, n) == Entry(b, n)
  {
    var e := Entry(a, n);
    assert e in b;
    var j :| 0 <= j < |b| && b[j] == e;
  }

  lemma {:induction false} SameRoots(a: seq<ServiceInput>, b: seq<ServiceInput>, n: string, k: nat)
    requires DistinctNames(b) && forall e :: e in a ==> e in b
    requires ReachesRoot(a, n, k)
    ensures ReachesRoot(b, n, k)
    decreases k
  {
    SameEntries(a, b, n);
    if Entry(a, n).parent.Some? {
      SameRoots(a, b, Entry(a, n).parent.value, k - 1);
    }
  }

  lemma PermutationKeepsElements(a: seq<ServiceInput>, b: seq<ServiceInput>)
    requires multiset(a) == multiset(b)
    ensures |a| == |b| && forall e :: e in a <==> e in b
    ensures Names(a) == Names(b)
  {
    assert |multiset(a)| == |a| && |multiset(b)| == |b|;
    forall e
      ensures e in a <==> e in b
    {
      assert e in a <==> e in multiset(a);
      assert e in b <==> e in multiset(b);
    }
  }

  lemma PermutationKeepsSeedable(a: seq<ServiceInput>, b: seq<ServiceInput>)
    requires multiset(a) == multiset(b) && Seedable(a)
    ensures Seedable(b)
  {
    PermutationKeepsElements(a, b);
    NamesCount(a);
    NamesCount(b);
    forall i | 0 <= i < |b|
      ensures Rooted(b, b[i].name)
    {
      assert b[i] in a;
      var j :| 0 <= j < |a| && a[j] == b[i];
      assert Rooted(a, a[j].name);
      var k: nat :| ReachesRoot(a, a[j].name, k);
      SameRoots(a, b, b[i].name, k);
    }
  }

  lemma PermutationKeepsRows(a: seq<ServiceInput>, b: seq<ServiceInput>, e: ServiceInput)
    requires DistinctNames(a) && DistinctNames(b) && forall x :: x in a <==> x in b
    ensures ExpectedRow(a, e) == ExpectedRow(b, e)
  {
    if e.parent.Some? {
      if IndexOf(a, e.parent.value).Some? {
        SameEntries(a, b, e.parent.value);
      } else if IndexOf(b, e.parent.value).Some? {
        SameEntries(b, a, e.parent.value);
      }
    }
  }

  /** What the list asks for does not depend on its order. */
  lemma PermutationKeepsExpected(a: seq<ServiceInput>, b: seq<ServiceInput>)
    requires DistinctNames(a) && DistinctNames(b) && multiset(a) == multiset(b)
    ensures Expected(a) == Expected(b) && ExpectedBlocks(a) == ExpectedBlocks(b)
    ensures BlockeesListed(a) <==> BlockeesListed(b)
  {
    PermutationKeepsElements(a, b);
    forall e | e in a
      ensures ExpectedRow(a, e) == ExpectedRow(b, e)
    {
      PermutationKeepsRows(a, b, e);
    }
  }

  /** Any permutation of a seedable list is seedable, is refused in the same cases, and otherwise
      yields the same services, parents, rotations, attributes and blocks, up to generated ids. */
  lemma SeedingIgnoresOrder(db: Database, name: string, a: seq<ServiceInput>, b: seq<ServiceInput>)
    requires Consistent(db) && Seedable(a) && multiset(a) == multiset(b)
    ensures Seedable(b)
    ensures NamespaceCreated(db, name, a).Success? <==> NamespaceCreated(db, name, b).Success?
    ensures NamespaceCreated(db, name, a).Success? ==>
              var x := NamespaceCreated(db, name, a).value; var y := NamespaceCreated(db, name, b).value;
              && ServicePortraits(x, db.nextNamespaceId) == ServicePortraits(y, db.nextNamespaceId)
              && BlockPortraits(x, db.nextNamespaceId) == BlockPortraits(y, db.nextNamespaceId)
  {
    PermutationKeepsSeedable(a, b);
    PermutationKeepsExpected(a, b);
    CreationMeetsTheList(db, name, a);
    CreationMeetsTheList(db, name, b);
  }
}
