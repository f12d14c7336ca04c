/** registry: the service forest, rotation histories, and the subtree bump. */
module Registry {
  import opened Common

  datatype Rotation = Rotation(parentRotation: Option<int>, serviceRotation: int)

  datatype Service = Service(
    namespaceId: nat,
    name: string,
    parallelism: Parallelism,
    serviceType: ServiceType,
    parent: Option<Id>,
    rotations: seq<Rotation>)   // every rotation row of the service, oldest first

  type Services = map<Id, Service>

  /** The tables of registry; a block is a pair (blocker, blockee). */
  datatype Database = Database(
    services: Services,
    blocks: set<(Id, Id)>,
    namespaces: map<nat, string>,
    nextId: Id,
    nextNamespaceId: nat)

  // ------------------------------------------------------------------ forest

  // Triggers below are narrow on purpose: a fact about a service is used where it is named,
  // so that the prover does not climb from parent to parent.

  ghost predicate ParentHolds(ss: Services, s: Id)
    requires s in ss
  {
    ss[s].parent.Some? ==> ss[s].parent.value in ss && ss[s].parent.value < s
  }

  /** Parents are rows of the table, saved (and so numbered) before their children. */
  ghost predicate Forest(ss: Services) {
    forall s {:trigger ParentHolds(ss, s)} :: s in ss ==> ParentHolds(ss, s)
  }

  /** `s` is reached from `a` over parent links; a service is a descendant of itself. */
  predicate Under(ss: Services, s: Id, a: Id)
    decreases s
  {
    s in ss && (s == a || (ss[s].parent.Some? && ss[s].parent.value < s && Under(ss, ss[s].parent.value, a)))
  }

  function Descendants(ss: Services, a: Id): set<Id> {
    set s | s in ss && Under(ss, s, a)
  }

  predicate IsChild(ss: Services, c: Id, p: Id) {
    c in ss && ss[c].parent == Some(p)
  }

  function Children(ss: Services, p: Id): set<Id> {
    set c | c in ss && IsChild(ss, c, p)
  }

  lemma {:induction false} UnderIsNotSmaller(ss: Services, s: Id, a: Id)
    requires Under(ss, s, a)
    ensures a <= s && a in ss
    decreases s
  {
    if s != a {
      UnderIsNotSmaller(ss, ss[s].parent.value, a);
    }
  }

  lemma {:induction false} UnderIsTransitive(ss: Services, s: Id, m: Id, a: Id)
    requires Under(ss, s, m) && Under(ss, m, a)
    ensures Under(ss, s, a)
    decreases s
  {
    if s != m {
      UnderIsTransitive(ss, ss[s].parent.value, m, a);
    }
  }

  /** Every proper descendant hangs under exactly one child. */
  lemma {:induction false} UnderThroughChild(ss: Services, s: Id, a: Id)
    requires Forest(ss) && Under(ss, s, a) && s != a
    ensures exists c :: IsChild(ss, c, a) && Under(ss, s, c)
    decreases s
  {
    var p := ss[s].parent.value;
    if p == a {
      assert IsChild(ss, s, a) && Under(ss, s, s);
    } else {
      UnderThroughChild(ss, p, a);
      var c :| IsChild(ss, c, a) && Under(ss, p, c);
      assert Under(ss, s, c);
    }
  }

  ghost predicate SameParents(ss: Services, tt: Services) {
    forall x :: x in ss && x in tt ==> ss[x].parent == tt[x].parent
  }

  /** Reachability does not notice changes that keep parent links, nor rows added or removed elsewhere. */
  lemma {:induction false} UnderFrame(ss: Services, tt: Services, s: Id, a: Id)
    requires Forest(ss) && Forest(tt)
    requires s in ss && s in tt
    requires SameParents(ss, tt)
    ensures Under(ss, s, a) <==> Under(tt, s, a)
    decreases s
  {
    assert ParentHolds(ss, s) && ParentHolds(tt, s);
    if s != a && ss[s].parent.Some? {
      UnderFrame(ss, tt, ss[s].parent.value, a);
    }
  }

  // --------------------------------------------------------- current rotation

  /** `r` comes strictly before `q` in ORDER BY parent_rotation DESC NULLS LAST, service_rotation DESC. */
  predicate Above(r: Rotation, q: Rotation) {
    if r.parentRotation == q.parentRotation then r.serviceRotation > q.serviceRotation
    else r.parentRotation.Some? && (q.parentRotation.None? || r.parentRotation.value > q.parentRotation.value)
  }

  /** The first row of that order: what the detail query (LIMIT 1) and the bulk query (DISTINCT ON) return. */
  function Current(rows: seq<Rotation>): Rotation
    requires rows != []
  {
    var last := rows[|rows| - 1];
    if |rows| == 1 then last
    else
      var best := Current(rows[..|rows| - 1]);
      if Above(last, best) then last else best
  }

  lemma {:induction false} CurrentIsFirst(rows: seq<Rotation>)
    requires rows != []
    ensures Current(rows) in rows && forall q :: q in rows ==> !Above(q, Current(rows))
  {
    if |rows| > 1 {
      CurrentIsFirst(rows[..|rows| - 1]);
      assert rows == rows[..|rows| - 1] + [rows[|rows| - 1]];
    }
  }

  /** The row is in the history, nulls come last, and nothing there has a larger parent rotation, or the
      same and a larger service rotation. */
  ghost predicate IsCurrentRow(rows: seq<Rotation>, r: Rotation) {
    && r in rows
    && (r.parentRotation.None? ==> forall q :: q in rows ==>
          q.parentRotation.None? && q.serviceRotation <= r.serviceRotation)
    && (r.parentRotation.Some? ==> forall q :: q in rows && q.parentRotation.Some? ==>
          && q.parentRotation.value <= r.parentRotation.value
          && (q.parentRotation == r.parentRotation ==> q.serviceRotation <= r.serviceRotation))
  }

  lemma CurrentIsCurrentRow(rows: seq<Rotation>)
    requires rows != []
    ensures IsCurrentRow(rows, Current(rows))
  {
    CurrentIsFirst(rows);
    forall q | q in rows
      ensures !Above(q, Current(rows))
    {}
  }

  /** The row the seeder reads: ORDER BY service_rotation DESC, take 1. */
  function TopByServiceRotation(rows: seq<Rotation>): Rotation
    requires rows != []
  {
    var last := rows[|rows| - 1];
    if |rows| == 1 then last
    else
      var best := TopByServiceRotation(rows[..|rows| - 1]);
      if last.serviceRotation > best.serviceRotation then last else best
  }

  lemma {:induction false} TopIsLargest(rows: seq<Rotation>)
    requires rows != []
    ensures TopByServiceRotation(rows) in rows
    ensures forall q :: q in rows ==> q.serviceRotation <= TopByServiceRotation(rows).serviceRotation
  {
    if |rows| > 1 {
      TopIsLargest(rows[..|rows| - 1]);
      assert rows == rows[..|rows| - 1] + [rows[|rows| - 1]];
    }
  }

  /** Rows strictly rise in the query order and in service_rotation alone. */
  ghost predicate Chain(rows: seq<Rotation>) {
    forall i, j :: 0 <= i < j < |rows| ==>
      Above(rows[j], rows[i]) && rows[i].serviceRotation < rows[j].serviceRotation
  }

  /** The two partial unique indexes of the rotation table, for the rows of one service. */
  ghost predicate UniqueIndexesHold(rows: seq<Rotation>) {
    && (forall i, j :: 0 <= i < j < |rows| && rows[i].parentRotation.Some? && rows[j].parentRotation.Some? ==>
          rows[i] != rows[j])
    && (forall i, j :: 0 <= i < j < |rows| && rows[i].parentRotation.None? && rows[j].parentRotation.None? ==>
          rows[i].serviceRotation != rows[j].serviceRotation)
  }

  /** Without ties the order leaves no choice: only one row has nothing above it. */
  lemma CurrentIsUnique(rows: seq<Rotation>, r: Rotation)
    requires r in rows && forall q :: q in rows ==> !Above(q, r)
    ensures r == Current(rows)
  {
    CurrentIsFirst(rows);
  }

  /** On a chain the last row inserted is current, for all three queries, and no index is violated. */
  lemma ChainQueriesAgree(rows: seq<Rotation>)
    requires Chain(rows)
    ensures UniqueIndexesHold(rows)
    ensures rows != [] ==> Current(rows) == rows[|rows| - 1] && TopByServiceRotation(rows) == rows[|rows| - 1]
  {
    if rows != [] {
      var last := rows[|rows| - 1];
      forall q | q in rows
        ensures !Above(q, last)
      {
        var i :| 0 <= i < |rows| && rows[i] == q;
      }
      CurrentIsUnique(rows, last);
      TopIsLargest(rows);
      var top := TopByServiceRotation(rows);
      var i :| 0 <= i < |rows| && rows[i] == top;
    }
  }

  // ------------------------------------------------------------ subtree bump

  /** The row written for a service whose current row is `r`; adding one to null gives one. */
  function Bumped(r: Rotation, isTarget: bool): Rotation {
    Rotation(if isTarget then r.parentRotation else Some(r.parentRotation.GetOr(0) + 1), r.serviceRotation + 1)
  }

  /** Every descendant of the target that has a rotation gets one more row. */
  function Rotated(ss: Services, target: Id): Services {
    map s | s in ss ::
      if Under(ss, s, target) && ss[s].rotations != []
      then ss[s].(rotations := ss[s].rotations + [Bumped(Current(ss[s].rotations), s == target)])
      else ss[s]
  }

  /** The row a rotation adds to a history whose current row is `was`. */
  predicate IsNextRow(was: Rotation, next: Rotation, isTarget: bool) {
    && next.serviceRotation == was.serviceRotation + 1
    && if isTarget then next.parentRotation == was.parentRotation
       else if was.parentRotation.Some? then next.parentRotation == Some(was.parentRotation.value + 1)
       else next.parentRotation == Some(1)
  }

  /** A rotation adds one such row to the history of every descendant that has one, and changes nothing else. */
  lemma RotatedRows(ss: Services, target: Id, s: Id)
    requires s in ss
    ensures Rotated(ss, target).Keys == ss.Keys
    ensures var was, now := ss[s], Rotated(ss, target)[s];
            if s in Descendants(ss, target) && was.rotations != []
            then && |now.rotations| == |was.rotations| + 1
                 && now == was.(rotations := was.rotations + [now.rotations[|was.rotations|]])
                 && exists r :: IsCurrentRow(was.rotations, r) &&
                      IsNextRow(r, now.rotations[|was.rotations|], s == target)
            else now == was
  {
    if ss[s].rotations != [] {
      CurrentIsCurrentRow(ss[s].rotations);
    }
  }

  /** The history is a chain whose rows carry a parent rotation exactly when the service has a parent. */
  ghost predicate HistoryHolds(v: Service) {
    && v.rotations != []
    && Chain(v.rotations)
    && (forall r :: r in v.rotations ==> (r.parentRotation.None? <==> v.parent.None?))
  }

  ghost predicate HistoriesHold(ss: Services) {
    forall s {:trigger HistoryHolds(ss[s])} :: s in ss ==> HistoryHolds(ss[s])
  }

  /** The current row records the current rotation of the parent; a root's records none. */
  ghost predicate EdgeHolds(ss: Services, s: Id)
    requires Forest(ss) && HistoriesHold(ss) && s in ss
  {
    assert HistoryHolds(ss[s]) && ParentHolds(ss, s);
    Current(ss[s].rotations).parentRotation ==
    match ss[s].parent
    case None => None
    case Some(p) => assert HistoryHolds(ss[p]); Some(Current(ss[p].rotations).serviceRotation)
  }

  ghost predicate Aligned(ss: Services)
    requires Forest(ss) && HistoriesHold(ss)
  {
    forall s {:trigger EdgeHolds(ss, s)} :: s in ss ==> EdgeHolds(ss, s)
  }

  ghost predicate RotationsHold(ss: Services) {
    Forest(ss) && HistoriesHold(ss) && Aligned(ss)
  }

  lemma BumpExtendsChain(rows: seq<Rotation>, isTarget: bool)
    requires rows != [] && Chain(rows)
    ensures var more := rows + [Bumped(Current(rows), isTarget)];
            Chain(more) && Current(more) == Bumped(Current(rows), isTarget)
  {
    ChainQueriesAgree(rows);
    var more := rows + [Bumped(Current(rows), isTarget)];
    forall i, j | 0 <= i < j < |more|
      ensures Above(more[j], more[i]) && more[i].serviceRotation < more[j].serviceRotation
    {
      if j == |rows| && i < |rows| - 1 {
        assert Above(rows[|rows| - 1], rows[i]);
      }
    }
    ChainQueriesAgree(more);
  }

  lemma {:induction false} RotatedCurrent(ss: Services, target: Id, s: Id)
    requires Forest(ss) && HistoriesHold(ss) && s in ss
    ensures HistoryHolds(Rotated(ss, target)[s])
    ensures var now := Rotated(ss, target)[s].rotations; var was := ss[s].rotations;
            Current(now) == if Under(ss, s, target) then Bumped(Current(was), s == target) else Current(was)
  {
    var was := ss[s].rotations;
    assert HistoryHolds(ss[s]);
    if Under(ss, s, target) {
      BumpExtendsChain(was, s == target);
      CurrentIsFirst(was);
      assert s != target ==> ss[s].parent.Some?;
    }
  }

  lemma RotateKeepsHistories(ss: Services, target: Id)
    requires Forest(ss) && HistoriesHold(ss)
    ensures Forest(Rotated(ss, target)) && HistoriesHold(Rotated(ss, target))
  {
    var tt := Rotated(ss, target);
    forall s | s in tt
      ensures HistoryHolds(tt[s]) && ParentHolds(tt, s)
    {
      assert ParentHolds(ss, s);
      RotatedCurrent(ss, target, s);
    }
  }

  lemma RotatedEdge(ss: Services, target: Id, s: Id)
    requires RotationsHold(ss) && s in ss
    requires Forest(Rotated(ss, target)) && HistoriesHold(Rotated(ss, target))
    ensures EdgeHolds(Rotated(ss, target), s)
  {
    RotatedCurrent(ss, target, s);
    assert EdgeHolds(ss, s) && ParentHolds(ss, s);
    if ss[s].parent.Some? {
      var p := ss[s].parent.value;
      RotatedCurrent(ss, target, p);
      if s == target && Under(ss, p, target) {
        UnderIsNotSmaller(ss, p, target);
      }
    }
  }

  /** A rotation of any service keeps the forest, every history and the alignment of every edge. */
  lemma RotateKeepsAlignment(ss: Services, target: Id)
    requires RotationsHold(ss)
    ensures RotationsHold(Rotated(ss, target))
  {
    RotateKeepsHistories(ss, target);
    forall s | s in ss
      ensures EdgeHolds(Rotated(ss, target), s)
    {
      RotatedEdge(ss, target, s);
    }
  }

  // ------------------------------------------------------------- closed form

  /** `states` is what the services go through as the targets are rotated one after the other. */
  ghost predicate IsRotationRun(states: seq<Services>, targets: seq<Id>) {
    |states| == |targets| + 1 && forall i :: 0 <= i < |targets| ==> states[i + 1] == Rotated(states[i], targets[i])
  }

  /** The service itself and everything above it. */
  function Ancestors(ss: Services, s: Id): set<Id> {
    set a | a in ss && Under(ss, s, a)
  }

  /** How many of the rotations were aimed at one of the given services. */
  function Hits(targets: seq<Id>, aims: set<Id>): nat {
    if targets == [] then 0
    else Hits(targets[..|targets| - 1], aims) + if targets[|targets| - 1] in aims then 1 else 0
  }

  lemma {:induction false} RotationRunKeeps(states: seq<Services>, targets: seq<Id>, n: nat)
    requires IsRotationRun(states, targets) && n <= |targets| && RotationsHold(states[0])
    ensures RotationsHold(states[n]) && states[n].Keys == states[0].Keys && SameParents(states[0], states[n])
  {
    if n > 0 {
      RotationRunKeeps(states, targets, n - 1);
      RotateKeepsAlignment(states[n - 1], targets[n - 1]);
    }
  }

  /** The row that `hits` rotations, `properHits` of them from above, lead to. */
  function Advanced(r: Rotation, hits: nat, properHits: nat): Rotation {
    Rotation(if r.parentRotation.None? then None else Some(r.parentRotation.value + properHits),
             r.serviceRotation + hits)
  }

  /** The current row of `s` in `tt` is where the counted rotations lead from `start`. */
  ghost predicate Reached(tt: Services, s: Id, start: Rotation, hits: nat, properHits: nat) {
    s in tt && tt[s].rotations != [] && Current(tt[s].rotations) == Advanced(start, hits, properHits)
  }

  lemma AdvanceOnce(
    ss: Services, tt: Services, after: Services, target: Id, s: Id, start: Rotation, hits: nat, properHits: nat)
    requires Forest(ss) && s in ss
    requires Forest(tt) && HistoriesHold(tt) && s in tt && tt.Keys == ss.Keys && SameParents(ss, tt)
    requires Reached(tt, s, start, hits, properHits) && after == Rotated(tt, target)
    ensures Reached(after, s, start, hits + if target in Ancestors(ss, s) then 1 else 0,
                    properHits + if target in Ancestors(ss, s) - {s} then 1 else 0)
  {
    UnderFrame(ss, tt, s, target);
    RotatedCurrent(tt, target, s);
    assert HistoryHolds(tt[s]);
    CurrentIsFirst(tt[s].rotations);
    if Under(tt, s, target) {
      UnderIsNotSmaller(tt, s, target);
    }
    if target in Ancestors(ss, s) - {s} {
      assert tt[s].parent.Some?;
    }
  }

  /** After any number of rotations, a service's rotation has grown by the number aimed at it or an
      ancestor, and its recorded parent rotation by the number aimed at proper ancestors. */
  lemma {:induction false} RotationsClosedForm(states: seq<Services>, targets: seq<Id>, n: nat, s: Id)
    requires IsRotationRun(states, targets) && n <= |targets| && RotationsHold(states[0])
    requires s in states[0] && states[0][s].rotations != []
    ensures var up := Ancestors(states[0], s);
            Reached(states[n], s, Current(states[0][s].rotations), Hits(targets[..n], up), Hits(targets[..n], up - {s}))
  {
    if n > 0 {
      var up := Ancestors(states[0], s);
      var before := targets[..n - 1];
      RotationsClosedForm(states, targets, n - 1, s);
      RotationRunKeeps(states, targets, n - 1);
      AdvanceOnce(states[0], states[n - 1], states[n], targets[n - 1], s, Current(states[0][s].rotations),
                  Hits(before, up), Hits(before, up - {s}));
      assert targets[..n][..n - 1] == before;
    }
  }

  // ----------------------------------------------------------------- detail

  function Blockees(blocks: set<(Id, Id)>, s: Id): set<Id> {
    set b | b in blocks && b.0 == s :: b.1
  }

  /** What fetching a service answers: a service without rotation rows is not found. */
  function Detailed(db: Database, s: Id): Result<FlatService> {
    if s !in db.services || db.services[s].rotations == [] then Failure(ServiceNotFound)
    else
      var v := db.services[s];
      var current := Current(v.rotations);
      Success(FlatService(
        s, v.namespaceId, v.parallelism, current.serviceRotation, v.parent, current.parentRotation,
        Children(db.services, s), Blockees(db.blocks, s)))
  }

  /** Field by field: a service that has a rotation is found, with its own row's attributes, its current
      rotation, the services that name it as parent, and those it blocks. */
  lemma DetailedExactly(db: Database, s: Id)
    ensures Detailed(db, s).Success? <==> s in db.services && db.services[s].rotations != []
    ensures Detailed(db, s).Failure? ==> Detailed(db, s).error == ServiceNotFound
    ensures Detailed(db, s).Success? ==>
              var f, v := Detailed(db, s).value, db.services[s];
              && f.serviceId == s && f.namespaceId == v.namespaceId && f.parallelism == v.parallelism
              && f.parent == v.parent
              && IsCurrentRow(v.rotations, Rotation(f.parentRotation, f.serviceRotation))
              && (forall c :: c in f.children <==> c in db.services && db.services[c].parent == Some(s))
              && (forall b :: b in f.blockees <==> (s, b) in db.blocks)
  {
    if s in db.services && db.services[s].rotations != [] {
      CurrentIsCurrentRow(db.services[s].rotations);
      forall b: Id
        ensures b in Blockees(db.blocks, s) <==> (s, b) in db.blocks
      {
        assert (s, b) in db.blocks ==> (s, b).1 in Blockees(db.blocks, s);
      }
    }
  }
}
