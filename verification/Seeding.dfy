/** Seeding a new namespace: what one pass over an unordered service list does, when repeated
    passes finish, and what they leave behind. */
module Seeding {
  import opened Common
  import opened Registry
  import opened Integrity

  const INITIAL_ROTATION_VALUE := 1

  datatype ServiceInput = ServiceInput(
    name: string,
    parallelism: Parallelism,
    serviceType: ServiceType,
    parent: Option<string>,
    blockees: seq<string>,
    rotation: Option<int>)

  /** The tables so far, and the map from names to the services this run has saved. */
  datatype Progress = Progress(db: Database, ids: map<string, Id>)

  function StartRotation(e: ServiceInput): int {
    e.rotation.GetOr(INITIAL_ROTATION_VALUE)
  }

  /** The first entry with the given name. */
  function IndexOf(input: seq<ServiceInput>, name: string): (r: Option<nat>)
    ensures r.Some? ==> r.value < |input| && input[r.value].name == name
    ensures r.Some? ==> forall j :: 0 <= j < r.value ==> input[j].name != name
    ensures r.None? ==> forall j :: 0 <= j < |input| ==> input[j].name != name
  {
    if input == [] then None
    else
      var earlier := IndexOf(input[..|input| - 1], name);
      if earlier.Some? then earlier
      else if input[|input| - 1].name == name then Some(|input| - 1)
      else None
  }

  predicate Creatable(ids: map<string, Id>, e: ServiceInput) {
    e.name !in ids && (e.parent.None? || e.parent.value in ids)
  }

  /** The rotation row written for an entry: the parent's starting rotation is read from the input. */
  function StartRow(input: seq<ServiceInput>, e: ServiceInput): Rotation {
    var parent := if e.parent.None? then None else IndexOf(input, e.parent.value);
    Rotation(if parent.None? then None else Some(StartRotation(input[parent.value])), StartRotation(e))
  }

  function RowFor(ids: map<string, Id>, input: seq<ServiceInput>, namespaceId: nat, e: ServiceInput): Service
    requires e.parent.Some? ==> e.parent.value in ids
  {
    Service(namespaceId, e.name, e.parallelism, e.serviceType,
            if e.parent.None? then None else Some(ids[e.parent.value]), [StartRow(input, e)])
  }

  /** One turn of the inner loop. */
  function Visit(p: Progress, input: seq<ServiceInput>, namespaceId: nat, i: nat): Progress
    requires i < |input|
  {
    var e := input[i];
    if !Creatable(p.ids, e) then p
    else Progress(Saved(p.db, RowFor(p.ids, input, namespaceId, e)), p.ids[e.name := p.db.nextId])
  }

  /** The inner loop over the first `n` entries. */
  function PassTo(p: Progress, input: seq<ServiceInput>, namespaceId: nat, n: nat): Progress
    requires n <= |input|
  {
    if n == 0 then p else Visit(PassTo(p, input, namespaceId, n - 1), input, namespaceId, n - 1)
  }

  /** `k` turns of the outer loop. */
  function Passes(p: Progress, input: seq<ServiceInput>, namespaceId: nat, k: nat): Progress {
    if k == 0 then p else PassTo(Passes(p, input, namespaceId, k - 1), input, namespaceId, |input|)
  }

  /** The counter that guards the outer loop. */
  function Remaining(p: Progress, input: seq<ServiceInput>): int {
    |input| - |p.ids|
  }

  function Names(input: seq<ServiceInput>): (r: set<string>)
    ensures forall n :: n in r <==> IndexOf(input, n).Some?
  {
    set e | e in input :: e.name
  }

  // ------------------------------------------------------------- well-formed input

  ghost predicate DistinctNames(input: seq<ServiceInput>) {
    forall i, j :: 0 <= i < j < |input| ==> input[i].name != input[j].name
  }

  /** Following parents inside the input from `name` reaches a parentless entry within `k` steps. */
  predicate ReachesRoot(input: seq<ServiceInput>, name: string, k: nat)
    decreases k
  {
    var i := IndexOf(input, name);
    i.Some? && (input[i.value].parent.None? || (k > 0 && ReachesRoot(input, input[i.value].parent.value, k - 1)))
  }

  ghost predicate Rooted(input: seq<ServiceInput>, name: string) {
    exists k: nat :: ReachesRoot(input, name, k)
  }

  /** Names are distinct and every parent chain stays inside the input and reaches a parentless entry. */
  ghost predicate Seedable(input: seq<ServiceInput>) {
    DistinctNames(input) && forall i :: 0 <= i < |input| ==> Rooted(input, input[i].name)
  }

  // -------------------------------------------------------------- passes over keys

  lemma {:induction false} PassToGrows(p: Progress, input: seq<ServiceInput>, namespaceId: nat, n: nat)
    requires n <= |input|
    ensures var q := PassTo(p, input, namespaceId, n);
            && p.ids.Keys <= q.ids.Keys
            && (forall i :: 0 <= i < n && Creatable(p.ids, input[i]) ==> input[i].name in q.ids)
            && (q.ids.Keys == p.ids.Keys ==> q == p)
  {
    if n > 0 {
      PassToGrows(p, input, namespaceId, n - 1);
    }
  }

  lemma {:induction false} PassesStayComplete(p: Progress, input: seq<ServiceInput>, namespaceId: nat, j: nat, k: nat)
    requires j <= k
    requires Names(input) <= Passes(p, input, namespaceId, j).ids.Keys
    ensures Passes(p, input, namespaceId, k) == Passes(p, input, namespaceId, j)
  {
    if j < k {
      PassesStayComplete(p, input, namespaceId, j, k - 1);
      PassOverComplete(Passes(p, input, namespaceId, j), input, namespaceId, |input|);
    }
  }

  lemma {:induction false} PassOverComplete(p: Progress, input: seq<ServiceInput>, namespaceId: nat, n: nat)
    requires n <= |input| && Names(input) <= p.ids.Keys
    ensures PassTo(p, input, namespaceId, n) == p
  {
    if n > 0 {
      PassOverComplete(p, input, namespaceId, n - 1);
      assert input[n - 1].name in Names(input);
    }
  }

  /** Walking up from an entry that is not saved yet finds one that can be saved now. */
  lemma {:induction false} SomethingIsCreatable(ids: map<string, Id>, input: seq<ServiceInput>, name: string, k: nat)
    requires ReachesRoot(input, name, k) && name !in ids
    ensures exists i :: 0 <= i < |input| && Creatable(ids, input[i])
    decreases k
  {
    var i := IndexOf(input, name).value;
    if !Creatable(ids, input[i]) {
      SomethingIsCreatable(ids, input, input[i].parent.value, k - 1);
    }
  }

  lemma PassSavesCreatable(p: Progress, input: seq<ServiceInput>, namespaceId: nat, i: nat)
    requires i < |input| && Creatable(p.ids, input[i])
    ensures |PassTo(p, input, namespaceId, |input|).ids| > |p.ids|
  {
    PassToGrows(p, input, namespaceId, |input|);
    var keys := PassTo(p, input, namespaceId, |input|).ids.Keys;
    SubsetIsNotLarger(p.ids.Keys + {input[i].name}, keys);
  }

  /** On a seedable list every pass that starts with something left saves at least one service. */
  lemma PassMakesProgress(p: Progress, input: seq<ServiceInput>, namespaceId: nat)
    requires Seedable(input)
    requires !(Names(input) <= p.ids.Keys)
    ensures |PassTo(p, input, namespaceId, |input|).ids| > |p.ids|
  {
    var name :| name in Names(input) && name !in p.ids;
    assert Rooted(input, input[IndexOf(input, name).value].name);
    var k: nat :| ReachesRoot(input, name, k);
    SomethingIsCreatable(p.ids, input, name, k);
    var i :| 0 <= i < |input| && Creatable(p.ids, input[i]);
    PassSavesCreatable(p, input, namespaceId, i);
  }

  lemma {:induction false} SubsetIsNotLarger<T>(a: set<T>, b: set<T>)
    requires a <= b
    ensures |a| <= |b| && (|a| == |b| ==> a == b)
    decreases a
  {
    if a != {} {
      var x :| x in a;
      SubsetIsNotLarger(a - {x}, b - {x});
    } else if |b| == 0 {
      assert b == {};
    }
  }

  lemma DistinctByLast(before: seq<ServiceInput>, last: ServiceInput)
    ensures DistinctNames(before + [last]) <==> DistinctNames(before) && last.name !in Names(before)
  {
    var input := before + [last];
    if DistinctNames(input) {
      forall i | 0 <= i < |before|
        ensures before[i].name != last.name
      {
        assert input[i].name != input[|before|].name;
      }
      forall i, j | 0 <= i < j < |before|
        ensures before[i].name != before[j].name
      {
        assert input[i].name != input[j].name;
      }
    }
    if DistinctNames(before) && last.name !in Names(before) {
      forall i, j | 0 <= i < j < |input|
        ensures input[i].name != input[j].name
      {
        if j == |before| {
          assert before[i] in before;
        }
      }
    }
  }

  lemma {:induction false} NamesCount(input: seq<ServiceInput>)
    ensures |Names(input)| <= |input|
    ensures |Names(input)| == |input| <==> DistinctNames(input)
  {
    if input == [] {
      assert Names(input) == {};
    } else {
      var before := input[..|input| - 1];
      var last := input[|input| - 1];
      NamesCount(before);
      DistinctByLast(before, last);
      assert input == before + [last];
      assert Names(input) == Names(before) + {last.name};
    }
  }

  // --------------------------------------------------------------- termination

  /** What every turn keeps about the saved names, whatever the input: the chain of parents of a
      saved name is saved, so it is no longer than the number of saved names. */
  ghost predicate KeysHold(p: Progress, input: seq<ServiceInput>) {
    && p.ids.Keys <= Names(input)
    && (DistinctNames(input) ==> forall n {:trigger n in p.ids} :: n in p.ids ==> ReachesRoot(input, n, |p.ids|))
  }

  lemma {:induction false} ReachesRootMonotone(input: seq<ServiceInput>, name: string, j: nat, k: nat)
    requires j <= k && ReachesRoot(input, name, j)
    ensures ReachesRoot(input, name, k)
    decreases j
  {
    var i := IndexOf(input, name).value;
    if input[i].parent.Some? {
      ReachesRootMonotone(input, input[i].parent.value, j - 1, k - 1);
    }
  }

  lemma VisitKeepsKeys(p: Progress, input: seq<ServiceInput>, namespaceId: nat, i: nat)
    requires i < |input| && KeysHold(p, input)
    ensures KeysHold(Visit(p, input, namespaceId, i), input)
  {
    var e := input[i];
    var q := Visit(p, input, namespaceId, i);
    if Creatable(p.ids, e) {
      assert q.ids.Keys == p.ids.Keys + {e.name};
      assert |q.ids| == |p.ids| + 1;
      if DistinctNames(input) {
        forall n | n in q.ids
          ensures ReachesRoot(input, n, |q.ids|)
        {
          if n in p.ids {
            ReachesRootMonotone(input, n, |p.ids|, |q.ids|);
          }
        }
      }
    }
  }

  lemma {:induction false} PassToKeepsKeys(p: Progress, input: seq<ServiceInput>, namespaceId: nat, n: nat)
    requires n <= |input| && KeysHold(p, input)
    ensures KeysHold(PassTo(p, input, namespaceId, n), input)
  {
    if n > 0 {
      var q := PassTo(p, input, namespaceId, n - 1);
      PassToKeepsKeys(p, input, namespaceId, n - 1);
      VisitKeepsKeys(q, input, namespaceId, n - 1);
      assert PassTo(p, input, namespaceId, n) == Visit(q, input, namespaceId, n - 1);
    }
  }

  lemma {:induction false} PassesKeepKeys(p: Progress, input: seq<ServiceInput>, namespaceId: nat, k: nat)
    requires KeysHold(p, input)
    ensures KeysHold(Passes(p, input, namespaceId, k), input)
  {
    if k > 0 {
      PassesKeepKeys(p, input, namespaceId, k - 1);
      PassToKeepsKeys(Passes(p, input, namespaceId, k - 1), input, namespaceId, |input|);
    }
  }

  /** `remaining` reaches zero exactly when names are distinct and all of them are saved. */
  lemma NothingRemains(p: Progress, input: seq<ServiceInput>)
    requires KeysHold(p, input)
    ensures Remaining(p, input) >= 0
    ensures Remaining(p, input) == 0 <==> DistinctNames(input) && Names(input) <= p.ids.Keys
  {
    var keys, names := p.ids.Keys, Names(input);
    assert |p.ids| == |keys|;
    NamesCount(input);
    SubsetIsNotLarger(keys, names);
    if Remaining(p, input) == 0 {
      assert |keys| == |names| == |input|;
      assert keys == names;
    }
    if DistinctNames(input) && names <= keys {
      assert keys == names;
      assert |keys| == |input|;
    }
  }

  lemma {:induction false} EnoughPasses(p: Progress, input: seq<ServiceInput>, namespaceId: nat, k: nat)
    requires KeysHold(p, input) && Seedable(input)
    ensures Names(input) <= Passes(p, input, namespaceId, k).ids.Keys || |Passes(p, input, namespaceId, k).ids| >= k
  {
    if k > 0 {
      EnoughPasses(p, input, namespaceId, k - 1);
      var q := Passes(p, input, namespaceId, k - 1);
      if Names(input) <= q.ids.Keys {
        PassOverComplete(q, input, namespaceId, |input|);
      } else {
        PassMakesProgress(q, input, namespaceId);
      }
    }
  }

  function Start(db: Database): Progress {
    Progress(db, map[])
  }

  /** The outer loop stops after `k` passes. */
  ghost predicate StopsAfter(db: Database, input: seq<ServiceInput>, namespaceId: nat, k: nat) {
    Remaining(Passes(Start(db), input, namespaceId, k), input) == 0
  }

  lemma StopsOnlyWhenSeedable(db: Database, input: seq<ServiceInput>, namespaceId: nat, k: nat)
    requires StopsAfter(db, input, namespaceId, k)
    ensures Seedable(input)
  {
    PassesKeepKeys(Start(db), input, namespaceId, k);
    var p := Passes(Start(db), input, namespaceId, k);
    NothingRemains(p, input);
    forall i | 0 <= i < |input|
      ensures Rooted(input, input[i].name)
    {
      assert input[i].name in Names(input);
      assert ReachesRoot(input, input[i].name, |p.ids|);
    }
  }

  lemma StopsWhenSeedable(db: Database, input: seq<ServiceInput>, namespaceId: nat)
    requires Seedable(input)
    ensures StopsAfter(db, input, namespaceId, |input|)
  {
    PassesKeepKeys(Start(db), input, namespaceId, |input|);
    EnoughPasses(Start(db), input, namespaceId, |input|);
    NothingRemains(Passes(Start(db), input, namespaceId, |input|), input);
  }

  /** The `while (remaining > 0)` loop ends if and only if the list is seedable, and then within as
      many passes as there are services. */
  lemma SeedingStopsExactlyWhenSeedable(db: Database, input: seq<ServiceInput>, namespaceId: nat)
    ensures (exists k :: StopsAfter(db, input, namespaceId, k)) <==> Seedable(input)
    ensures Seedable(input) ==> StopsAfter(db, input, namespaceId, |input|)
  {
    if k :| StopsAfter(db, input, namespaceId, k) {
      StopsOnlyWhenSeedable(db, input, namespaceId, k);
    }
    if Seedable(input) {
      StopsWhenSeedable(db, input, namespaceId);
    }
  }

  /** A repeated name is not ignored, as the documentation has it: the second copy is skipped in every
      pass and never counted, so the loop does not end. */
  lemma RepeatedNameNeverStops(db: Database, e: ServiceInput, namespaceId: nat, k: nat)
    ensures !StopsAfter(db, [e, e], namespaceId, k)
  {
    var input := [e, e];
    assert input[0].name == input[1].name && !DistinctNames(input);
    if StopsAfter(db, input, namespaceId, k) {
      StopsOnlyWhenSeedable(db, input, namespaceId, k);
    }
  }
}
