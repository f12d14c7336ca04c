/** actiony: the action table, its repository and the manager that guards it. */
module Actions {
  import opened Common

  type ActionId = nat

  // Metadata values are kept as JSON text.
  type Metadata = map<string, string>

  datatype Action = Action(
    actionId: ActionId,
    serviceId: Id,
    namespaceId: nat,
    state: nat,
    serviceRotation: int,
    parentRotation: Option<int>,
    status: ActionStatus,
    metadata: Option<Metadata>,
    createdAt: nat,
    updatedAt: nat,
    closedAt: Option<nat>)

  datatype Sort = ASC | DESC

  datatype ActionFilter = ActionFilter(
    service: Option<Id>,
    serviceRotation: Option<int>,
    parentRotation: Option<int>,
    status: Option<set<ActionStatus>>,
    limit: Option<nat>,
    sort: Option<Sort>)

  datatype ActionParams = ActionParams(serviceId: Id, state: nat, metadata: Option<Metadata>)

  datatype UpdateParams = UpdateParams(status: Option<ActionStatus>, metadata: Option<Metadata>)

  /** The action table, in creation order; rows are never deleted. */
  type Table = seq<Action>

  const ACTION_CLOSED_STATUSES: set<ActionStatus> := {COMPLETED, FAILED, CANCELED}
  const CLOSING_METADATA: Metadata := map["closingReason" := "canceled by parallelism rules"]
  const CANCEL_LAST := UpdateParams(Some(CANCELED), Some(CLOSING_METADATA))

  predicate IsClosed(a: Action) {
    a.status in ACTION_CLOSED_STATUSES
  }

  lemma ClosedMeansNotActive(a: Action)
    ensures IsClosed(a) <==> a.status != ACTIVE
  {
    match a.status
    case ACTIVE =>
    case COMPLETED =>
    case FAILED =>
    case CANCELED =>
  }

  predicate IsActiveOf(a: Action, service: Id) {
    a.status == ACTIVE && a.serviceId == service
  }

  /** Keys number the rows, and a closing time is recorded exactly on closed rows. */
  ghost predicate ValidTable(t: Table) {
    forall i :: 0 <= i < |t| ==> t[i].actionId == i && (t[i].closedAt.Some? <==> IsClosed(t[i]))
  }

  // ---------------------------------------------------------------- queries

  predicate Matches(f: ActionFilter, a: Action) {
    && (f.service.Some? ==> a.serviceId == f.service.value)
    && (f.serviceRotation.Some? ==> a.serviceRotation == f.serviceRotation.value)
    && (f.parentRotation.Some? ==> a.parentRotation == f.parentRotation)
    && (f.status.Some? ==> a.status in f.status.value)
  }

  function Select(t: Table, f: ActionFilter): (r: Table)
    ensures |r| <= |t|
  {
    if t == [] then [] else
    var last := t[|t| - 1];
    Select(t[..|t| - 1], f) + if Matches(f, last) then [last] else []
  }

  function Reversed(t: Table): (r: Table)
    ensures |r| == |t|
    ensures forall i :: 0 <= i < |t| ==> r[i] == t[|t| - 1 - i]
  {
    if t == [] then [] else [t[|t| - 1]] + Reversed(t[..|t| - 1])
  }

  /** Rows are created at nondecreasing times, so newest first is table order reversed. */
  function Sorted(t: Table, f: ActionFilter): Table {
    if f.sort == Some(DESC) then Reversed(Select(t, f)) else Select(t, f)
  }

  function Found(t: Table, f: ActionFilter): Table {
    var sorted := Sorted(t, f);
    if f.limit.Some? && f.limit.value < |sorted| then sorted[..f.limit.value] else sorted
  }

  function ActiveFilter(service: Id): ActionFilter {
    ActionFilter(Some(service), None, None, Some({ACTIVE}), None, None)
  }

  function ActiveCount(t: Table, service: Id): nat {
    |Select(t, ActiveFilter(service))|
  }

  predicate HasActive(t: Table, service: Id) {
    exists i :: 0 <= i < |t| && IsActiveOf(t[i], service)
  }

  /** The position of the last active row of a service. */
  function NewestActive(t: Table, service: Id): (r: Option<ActionId>)
    ensures r.Some? ==> r.value < |t| && IsActiveOf(t[r.value], service)
    ensures r.Some? ==> forall i :: r.value < i < |t| ==> !IsActiveOf(t[i], service)
    ensures r.None? ==> !HasActive(t, service)
  {
    if t == [] then None
    else if IsActiveOf(t[|t| - 1], service) then Some(|t| - 1)
    else NewestActive(t[..|t| - 1], service)
  }

  lemma {:induction false} SelectIsFilter(t: Table, f: ActionFilter, a: Action)
    ensures a in Select(t, f) <==> a in t && Matches(f, a)
  {
    if t != [] {
      SelectIsFilter(t[..|t| - 1], f, a);
      assert t == t[..|t| - 1] + [t[|t| - 1]];
    }
  }

  /** A limited query comes back empty only when nothing matches, whatever its order. */
  lemma PollFindsActivity(t: Table, service: Id, f: ActionFilter)
    requires f.service == Some(service) && f.status == Some({ACTIVE})
    requires f.serviceRotation.None? && f.parentRotation.None?
    requires f.limit.Some? ==> f.limit.value > 0
    ensures Found(t, f) != [] <==> HasActive(t, service)
  {
    var matching := Select(t, f);
    if matching != [] {
      SelectIsFilter(t, f, matching[0]);
      var i :| 0 <= i < |t| && t[i] == matching[0];
      assert IsActiveOf(t[i], service);
    }
    if i :| 0 <= i < |t| && IsActiveOf(t[i], service) {
      SelectIsFilter(t, f, t[i]);
    }
  }

  /** The newest-first query with limit one names the last active row. */
  lemma {:induction false} NewestIsLastSelected(t: Table, service: Id)
    ensures var m := Select(t, ActiveFilter(service));
            match NewestActive(t, service)
            case None => m == []
            case Some(i) => m != [] && m[|m| - 1] == t[i]
  {
    if t != [] {
      NewestIsLastSelected(t[..|t| - 1], service);
    }
  }

  lemma {:induction false} SelectIgnoresPaging(t: Table, f: ActionFilter, g: ActionFilter)
    requires f.(limit := None, sort := None) == g.(limit := None, sort := None)
    ensures Select(t, f) == Select(t, g)
  {
    if t != [] {
      SelectIgnoresPaging(t[..|t| - 1], f, g);
    }
  }

  // ------------------------------------------------------------- mutations

  /** `{ ...older, ...newer }`, where spreading null adds nothing. */
  function Merge(older: Option<Metadata>, newer: Option<Metadata>): Metadata {
    older.GetOr(map[]) + newer.GetOr(map[])
  }

  function Overwritten(a: Action, status: Option<ActionStatus>, metadata: Metadata, now: nat): Action {
    a.(status := status.GetOr(a.status),
       metadata := Some(metadata),
       closedAt := if status.Some? && status.value in ACTION_CLOSED_STATUSES then Some(now) else a.closedAt,
       updatedAt := now)
  }

  function PatchedRow(a: Action, p: UpdateParams, now: nat): Action {
    Overwritten(a, p.status, Merge(a.metadata, p.metadata), now)
  }

  function Patched(t: Table, id: ActionId, p: UpdateParams, now: nat): Table
    requires id < |t|
  {
    t[id := PatchedRow(t[id], p, now)]
  }

  function NewRow(t: Table, p: ActionParams, service: FlatService, now: nat): Action {
    Action(|t|, p.serviceId, service.namespaceId, p.state, service.serviceRotation, service.parentRotation,
           ACTIVE, p.metadata, now, now, None)
  }

  function Appended(t: Table, p: ActionParams, service: FlatService, now: nat): Table {
    t + [NewRow(t, p, service, now)]
  }

  /** Patch the newest active row of the service, when there is one. */
  function LastPatched(t: Table, service: Id, update: UpdateParams, now: nat): Table {
    match NewestActive(t, service)
    case None => t
    case Some(i) => Patched(t, i, update, now)
  }

  function LastCanceled(t: Table, service: Id, now: nat): Table {
    LastPatched(t, service, CANCEL_LAST, now)
  }

  datatype Limitation = AtMost(n: nat) | Infinity

  function ParallelismToActiveLimitation(p: Parallelism): Limitation {
    match p
    case SINGLE => AtMost(0)
    case REPLACEABLE => AtMost(1)
    case MULTIPLE => Infinity
  }

  predicate ParallelismAllows(t: Table, service: FlatService) {
    match ParallelismToActiveLimitation(service.parallelism)
    case Infinity => true
    case AtMost(n) => ActiveCount(t, service.serviceId) <= n
  }

  /** The table after the insertion that follows a passed validation. */
  function Inserted(t: Table, p: ActionParams, service: FlatService, now: nat): Table {
    Appended(if service.parallelism == REPLACEABLE then LastCanceled(t, p.serviceId, now) else t, p, service, now)
  }

  /** The table after a creation request, or the error it is answered with. */
  function Created(t: Table, p: ActionParams, service: FlatService, now: nat): Result<Table> {
    if ParallelismAllows(t, service) then Success(Inserted(t, p, service, now)) else Failure(ParallelismMismatch)
  }

  /** The table after a patch request, or the error it is answered with. */
  function Updated(t: Table, id: ActionId, p: UpdateParams, now: nat): Result<Table> {
    if id >= |t| then Failure(ActionNotFound)
    else if IsClosed(t[id]) then Failure(ActionAlreadyClosed)
    else Success(Patched(t, id, p, now))
  }

  // ------------------------------------------------ the same, row by row and field by field

  lemma {:induction false} CountIsZero(t: Table, service: Id)
    ensures ActiveCount(t, service) == 0 <==> !HasActive(t, service)
  {
    PollFindsActivity(t, service, ActiveFilter(service));
  }

  lemma {:induction false} CountAtMostOne(t: Table, service: Id)
    ensures ActiveCount(t, service) <= 1 <==>
            forall i, j :: 0 <= i < j < |t| && IsActiveOf(t[i], service) ==> !IsActiveOf(t[j], service)
  {
    if t != [] {
      var before, last := t[..|t| - 1], t[|t| - 1];
      CountAtMostOne(before, service);
      CountIsZero(before, service);
      if IsActiveOf(last, service) {
        assert forall i :: 0 <= i < |before| ==> before[i] == t[i];
      }
    }
  }

  /** When a creation is accepted: no row, or no two rows, of a restricted service may be active. */
  ghost predicate MayStart(t: Table, service: FlatService) {
    match service.parallelism
    case MULTIPLE => true
    case SINGLE => forall i :: 0 <= i < |t| && t[i].serviceId == service.serviceId ==> t[i].status != ACTIVE
    case REPLACEABLE =>
      forall i, j :: 0 <= i < j < |t| && t[i].serviceId == t[j].serviceId == service.serviceId ==>
        t[i].status != ACTIVE || t[j].status != ACTIVE
  }

  lemma AcceptedExactly(t: Table, service: FlatService)
    ensures ParallelismAllows(t, service) <==> MayStart(t, service)
  {
    CountIsZero(t, service.serviceId);
    CountAtMostOne(t, service.serviceId);
    if service.parallelism == SINGLE {
      assert HasActive(t, service.serviceId) <==> !MayStart(t, service);
    }
  }

  /** Every field of a row that a creation adds. */
  ghost predicate IsNew(a: Action, id: ActionId, params: ActionParams, service: FlatService, now: nat) {
    && a.actionId == id
    && a.serviceId == params.serviceId && a.state == params.state && a.metadata == params.metadata
    && a.namespaceId == service.namespaceId
    && a.serviceRotation == service.serviceRotation && a.parentRotation == service.parentRotation
    && a.status == ACTIVE && a.createdAt == now && a.updatedAt == now && a.closedAt == None
  }

  /** What a patch does to a row, but for its metadata: the given status or the old one, a closing
      time exactly when a closed status is given, and nothing else. */
  ghost predicate HasPatch(before: Action, after: Action, status: Option<ActionStatus>, now: nat) {
    && (status.Some? ==> after.status == status.value) && (status.None? ==> after.status == before.status)
    && (after.closedAt == if status.Some? && status.value != ACTIVE then Some(now) else before.closedAt)
    && after.updatedAt == now
    && after.actionId == before.actionId && after.serviceId == before.serviceId
    && after.namespaceId == before.namespaceId && after.state == before.state
    && after.serviceRotation == before.serviceRotation && after.parentRotation == before.parentRotation
    && after.createdAt == before.createdAt
  }

  predicate HasKey(m: Option<Metadata>, k: string) {
    m.Some? && k in m.value
  }

  /** Every key of either side is there, with the patch's value where the patch has one. */
  ghost predicate HasMerged(before: Option<Metadata>, patch: Option<Metadata>, after: Option<Metadata>) {
    && after.Some?
    && (forall k :: k in after.value <==> HasKey(before, k) || HasKey(patch, k))
    && (forall k :: HasKey(patch, k) ==> after.value[k] == patch.value[k])
    && (forall k :: HasKey(before, k) && !HasKey(patch, k) ==> after.value[k] == before.value[k])
  }

  /** Row `i` is the last one of the service that is active. */
  ghost predicate IsNewest(t: Table, i: nat, service: Id)
    requires i < |t|
  {
    && t[i].serviceId == service && t[i].status == ACTIVE
    && forall j :: i < j < |t| && t[j].serviceId == service ==> t[j].status != ACTIVE
  }

  /** One row has the patch, the others are as they were. */
  ghost predicate PatchedAt(t: Table, u: Table, i: nat, p: UpdateParams, now: nat) {
    && i < |t| <= |u|
    && HasPatch(t[i], u[i], p.status, now) && HasMerged(t[i].metadata, p.metadata, u[i].metadata)
    && forall j :: 0 <= j < |t| && j != i ==> u[j] == t[j]
  }

  /** The rows after a creation: the new one last, the replaced one canceled with its reason. */
  ghost predicate StartedRows(t: Table, u: Table, params: ActionParams, service: FlatService, now: nat) {
    && |u| == |t| + 1 && IsNew(u[|t|], |t|, params, service, now)
    && (service.parallelism != REPLACEABLE || (forall i :: 0 <= i < |t| ==> !IsNewest(t, i, params.serviceId)) ==>
          u[..|t|] == t)
    && (service.parallelism == REPLACEABLE ==>
          forall i :: 0 <= i < |t| && IsNewest(t, i, params.serviceId) ==>
            PatchedAt(t, u, i,
                      UpdateParams(Some(CANCELED), Some(map["closingReason" := "canceled by parallelism rules"])), now))
  }

  lemma PatchedRows(t: Table, id: ActionId, p: UpdateParams, now: nat)
    requires id < |t|
    ensures |Patched(t, id, p, now)| == |t| && PatchedAt(t, Patched(t, id, p, now), id, p, now)
  {
    ClosedMeansNotActive(t[id].(status := p.status.GetOr(t[id].status)));
  }

  lemma NewestPatched(t: Table, service: Id, p: UpdateParams, now: nat)
    ensures |LastPatched(t, service, p, now)| == |t|
    ensures (forall i :: 0 <= i < |t| ==> !IsNewest(t, i, service)) ==> LastPatched(t, service, p, now) == t
    ensures forall i :: 0 <= i < |t| && IsNewest(t, i, service) ==>
              PatchedAt(t, LastPatched(t, service, p, now), i, p, now)
  {
    var newest := NewestActive(t, service);
    if newest.Some? {
      PatchedRows(t, newest.value, p, now);
      assert IsNewest(t, newest.value, service);
    } else {
      assert forall i :: 0 <= i < |t| ==> !IsActiveOf(t[i], service);
    }
  }

  /** A creation is accepted exactly when it may start, and then leaves exactly these rows. */
  lemma CreatedExactly(t: Table, p: ActionParams, service: FlatService, now: nat)
    requires p.serviceId == service.serviceId
    ensures Created(t, p, service, now).Success? <==> MayStart(t, service)
    ensures Created(t, p, service, now).Success? ==> StartedRows(t, Created(t, p, service, now).value, p, service, now)
    ensures Created(t, p, service, now).Failure? ==> Created(t, p, service, now).error == ParallelismMismatch
  {
    AcceptedExactly(t, service);
    NewestPatched(t, p.serviceId, CANCEL_LAST, now);
  }

  /** A patch succeeds exactly on an existing active row, and then does this to it and nothing else. */
  lemma UpdatedExactly(t: Table, id: ActionId, p: UpdateParams, now: nat)
    ensures Updated(t, id, p, now).Success? <==> id < |t| && t[id].status == ACTIVE
    ensures Updated(t, id, p, now).Success? ==>
              var u := Updated(t, id, p, now).value; |u| == |t| && PatchedAt(t, u, id, p, now)
    ensures Updated(t, id, p, now).Failure? ==>
              Updated(t, id, p, now).error == if id < |t| then ActionAlreadyClosed else ActionNotFound
  {
    if id < |t| {
      ClosedMeansNotActive(t[id]);
      PatchedRows(t, id, p, now);
    }
  }

  /** The positions of the rows that match. */
  ghost function Positions(t: Table, f: ActionFilter): set<nat> {
    set i: nat | i < |t| && Matches(f, t[i])
  }

  lemma {:induction false} SelectCounts(t: Table, f: ActionFilter)
    ensures |Select(t, f)| == |Positions(t, f)|
  {
    if t == [] {
      assert Positions(t, f) == {};
    } else {
      var before := t[..|t| - 1];
      SelectCounts(before, f);
      assert Positions(t, f) == Positions(before, f) + if Matches(f, t[|t| - 1]) then {|t| - 1} else {};
    }
  }

  lemma {:induction false} SelectInOrder(t: Table, f: ActionFilter)
    requires ValidTable(t)
    ensures forall i, j :: 0 <= i < j < |Select(t, f)| ==> Select(t, f)[i].actionId < Select(t, f)[j].actionId
    ensures forall i :: 0 <= i < |Select(t, f)| ==> Select(t, f)[i].actionId < |t|
  {
    if t != [] {
      SelectInOrder(t[..|t| - 1], f);
    }
  }

  /** The row with key `a` comes before the row with key `b` in an answer. */
  predicate Before(f: ActionFilter, a: ActionId, b: ActionId) {
    if f.sort == Some(DESC) then a > b else a < b
  }

  lemma SortedHas(t: Table, f: ActionFilter, a: Action)
    ensures a in Sorted(t, f) <==> a in t && Matches(f, a)
  {
    var all := Select(t, f);
    SelectIsFilter(t, f, a);
    if a in all {
      var i :| 0 <= i < |all| && all[i] == a;
      assert Sorted(t, f)[if f.sort == Some(DESC) then |all| - 1 - i else i] == a;
    }
  }

  lemma SortedInOrder(t: Table, f: ActionFilter)
    requires ValidTable(t)
    ensures |Sorted(t, f)| == |Positions(t, f)|
    ensures forall i, j :: 0 <= i < j < |Sorted(t, f)| ==>
              Before(f, Sorted(t, f)[i].actionId, Sorted(t, f)[j].actionId)
  {
    SelectCounts(t, f);
    SelectInOrder(t, f);
  }

  /** A row that a query leaves out comes after all rows it answers with, and the limit is reached. */
  lemma LeftOut(t: Table, f: ActionFilter, k: nat)
    requires ValidTable(t) && k < |t| && Matches(f, t[k]) && t[k] !in Found(t, f)
    ensures f.limit.Some? && |Found(t, f)| == f.limit.value
    ensures forall i :: 0 <= i < |Found(t, f)| ==> Before(f, Found(t, f)[i].actionId, k)
  {
    SortedHas(t, f, t[k]);
    SortedInOrder(t, f);
    var sorted, r := Sorted(t, f), Found(t, f);
    var i :| 0 <= i < |sorted| && sorted[i] == t[k];
    assert r == sorted[..|r|];
    assert sorted[i].actionId == k;
  }

  /** A query answers matching rows only, in the order asked for, as many as there are or the limit
      allows; a matching row is left out only when the limit is reached with rows before it. */
  lemma FoundIsExact(t: Table, f: ActionFilter)
    requires ValidTable(t)
    ensures var r := Found(t, f);
            && (forall i :: 0 <= i < |r| ==> r[i] in t && Matches(f, r[i]))
            && (forall i, j :: 0 <= i < j < |r| ==> Before(f, r[i].actionId, r[j].actionId))
            && |r| == (if f.limit.Some? && f.limit.value < |Positions(t, f)| then f.limit.value else |Positions(t, f)|)
            && (forall k :: 0 <= k < |t| && Matches(f, t[k]) && t[k] !in r ==>
                  f.limit.Some? && |r| == f.limit.value && forall i :: 0 <= i < |r| ==> Before(f, r[i].actionId, k))
  {
    SortedInOrder(t, f);
    var r := Found(t, f);
    forall i | 0 <= i < |r|
      ensures r[i] in t && Matches(f, r[i])
    {
      assert r[i] == Sorted(t, f)[i];
      SortedHas(t, f, r[i]);
    }
    forall k | 0 <= k < |t| && Matches(f, t[k]) && t[k] !in r
      ensures f.limit.Some? && |r| == f.limit.value && forall i :: 0 <= i < |r| ==> Before(f, r[i].actionId, k)
    {
      LeftOut(t, f, k);
    }
  }

  // ------------------------------------------------------------ repository

  datatype FindOptions = FindOptions(
    serviceId: Option<Id>,
    serviceRotation: Option<int>,
    parentRotation: Option<int>,
    status: Option<set<ActionStatus>>)

  predicate Satisfies(o: FindOptions, a: Action) {
    && (o.serviceId.None? || a.serviceId == o.serviceId.value)
    && (o.serviceRotation.None? || a.serviceRotation == o.serviceRotation.value)
    && (o.parentRotation.None? || a.parentRotation == Some(o.parentRotation.value))
    && (o.status.None? || a.status in o.status.value)
  }

  method FilterToOptions(filter: ActionFilter) returns (options: FindOptions)
    ensures forall a: Action :: Satisfies(options, a) <==> Matches(filter, a)
    ensures forall a: Action :: Satisfies(options, a) <==>
              && (filter.service.Some? ==> a.serviceId == filter.service.value)
              && (filter.serviceRotation.Some? ==> a.serviceRotation == filter.serviceRotation.value)
              && (filter.parentRotation.Some? ==> a.parentRotation == Some(filter.parentRotation.value))
              && (filter.status.Some? ==> a.status in filter.status.value)
  {
    options := FindOptions(None, None, None, None);
    if filter.service.Some? {
      options := options.(serviceId := filter.service);
    }
    if filter.serviceRotation.Some? {
      options := options.(serviceRotation := filter.serviceRotation);
    }
    if filter.parentRotation.Some? {
      options := options.(parentRotation := filter.parentRotation);
    }
    if filter.status.Some? {
      options := options.(status := filter.status);
    }
  }

  class ActionRepository {
    var table: Table
    var now: nat

    constructor ()
      ensures table == [] && ValidTable(table)
    {
      table := [];
      now := 0;
    }

    method FindActions(filter: ActionFilter) returns (actions: seq<Action>)
      ensures actions == Found(table, filter)
    {
      var options := FilterToOptions(filter);
      var matching: seq<Action> := [];
      for i := 0 to |table|
        invariant matching == Select(table[..i], filter)
      {
        assert table[..i + 1][..i] == table[..i];
        if Satisfies(options, table[i]) {
          matching := matching + [table[i]];
        }
      }
      assert table[..|table|] == table;
      actions := if filter.sort == Some(DESC) then Reversed(matching) else matching;
      if filter.limit.Some? && filter.limit.value < |actions| {
        actions := actions[..filter.limit.value];
      }
    }

    method CountActions(filter: ActionFilter) returns (n: nat)
      ensures n == |Select(table, filter)| == |Positions(table, filter)|
    {
      SelectCounts(table, filter);
      var actions := FindActions(filter.(limit := None, sort := None));
      SelectIgnoresPaging(table, filter, filter.(limit := None, sort := None));
      n := |actions|;
    }

    method FindOneActionById(actionId: ActionId) returns (a: Option<Action>)
      requires ValidTable(table)
      ensures a == if actionId < |table| then Some(table[actionId]) else None
      ensures a.Some? ==> a.value.actionId == actionId
    {
      a := if actionId < |table| then Some(table[actionId]) else None;
    }

    method CreateAction(params: ActionParams, service: FlatService) returns (actionId: ActionId)
      requires ValidTable(table)
      modifies this`table
      ensures actionId == |old(table)| && table == Appended(old(table), params, service, now)
      ensures ValidTable(table)
      ensures |table| == |old(table)| + 1 && table[..actionId] == old(table)
      ensures IsNew(table[actionId], actionId, params, service, now)
    {
      actionId := |table|;
      table := table + [NewRow(table, params, service, now)];
    }

    /** Overwrites status and metadata of the row with that id, if there is one; the closing time is
        stamped when the new status is a closed one. It is the callers who keep closed rows closed. */
    method UpdateOneAction(actionId: ActionId, status: Option<ActionStatus>, metadata: Metadata)
      requires ValidTable(table)
      modifies this`table
      ensures actionId >= |old(table)| ==> table == old(table)
      ensures actionId < |old(table)| ==>
                && table == old(table)[actionId := Overwritten(old(table)[actionId], status, metadata, now)]
                && (ValidTable(table) <==> !(IsClosed(old(table)[actionId]) && status == Some(ACTIVE)))
                && |table| == |old(table)| && HasPatch(old(table)[actionId], table[actionId], status, now)
                && table[actionId].metadata == Some(metadata)
                && forall i :: 0 <= i < |table| && i != actionId ==> table[i] == old(table)[i]
    {
      if actionId >= |table| {
        return;
      }
      var row := table[actionId].(metadata := Some(metadata), updatedAt := now);
      if status.Some? {
        row := row.(status := status.value);
        if status.value in ACTION_CLOSED_STATUSES {
          row := row.(closedAt := Some(now));
        }
      }
      table := table[actionId := row];
      ClosedMeansNotActive(old(table)[actionId]);
      ClosedMeansNotActive(row);
      assert ValidTable(table) ==> (table[actionId].closedAt.Some? <==> IsClosed(row));
    }

    /** One transaction: update the newest active action of the service, then create the new one. */
    method UpdateLastAndCreate(update: UpdateParams, params: ActionParams, service: FlatService)
      returns (actionId: ActionId)
      requires ValidTable(table)
      modifies this`table
      ensures actionId == |old(table)| && ValidTable(table)
      ensures table == Appended(LastPatched(old(table), params.serviceId, update, now), params, service, now)
      ensures |table| == |old(table)| + 1 && IsNew(table[actionId], actionId, params, service, now)
      ensures (forall i :: 0 <= i < actionId ==> !IsNewest(old(table), i, params.serviceId)) ==>
                table[..actionId] == old(table)
      ensures forall i :: 0 <= i < actionId && IsNewest(old(table), i, params.serviceId) ==>
                PatchedAt(old(table), table, i, update, now)
    {
      NewestPatched(table, params.serviceId, update, now);
      var filter := ActiveFilter(params.serviceId).(sort := Some(DESC), limit := Some(1));
      var actions := FindActions(filter);
      SelectIgnoresPaging(table, filter, ActiveFilter(params.serviceId));
      NewestIsLastSelected(table, params.serviceId);
      if |actions| != 0 {
        var action := actions[0];
        assert action == table[NewestActive(table, params.serviceId).value];
        UpdateOneAction(action.actionId, update.status, Merge(action.metadata, update.metadata));
      }
      actionId := CreateAction(params, service);
    }
  }

  class ActionManager {
    const repository: ActionRepository

    constructor (repository: ActionRepository)
      ensures this.repository == repository
    {
      this.repository := repository;
    }

    method ValidateParallelism(service: FlatService) returns (ok: bool)
      ensures ok <==> ParallelismAllows(repository.table, service)
      ensures ok <==> MayStart(repository.table, service)
    {
      AcceptedExactly(repository.table, service);
      var limitation := ParallelismToActiveLimitation(service.parallelism);
      if limitation.Infinity? {
        return true;
      }
      var activeActions := repository.CountActions(ActiveFilter(service.serviceId));
      ok := activeActions <= limitation.n;
    }

    /** `fetched` is registry's answer for the requested service. */
    method CreateAction(params: ActionParams, fetched: Result<FlatService>) returns (r: Result<ActionId>)
      requires ValidTable(repository.table)
      requires fetched.Success? ==> fetched.value.serviceId == params.serviceId
      modifies repository`table
      ensures ValidTable(repository.table)
      ensures fetched.Failure? ==> r == Failure(fetched.error) && repository.table == old(repository.table)
      ensures fetched.Success? ==>
                match Created(old(repository.table), params, fetched.value, repository.now)
                case Failure(e) => r == Failure(e) && repository.table == old(repository.table)
                case Success(t) => r == Success(|old(repository.table)|) && repository.table == t
      ensures fetched.Success? ==> (r.Success? <==> MayStart(old(repository.table), fetched.value))
      ensures fetched.Success? && r.Failure? ==> r.error == ParallelismMismatch
      ensures r.Success? ==>
                && r.value == |old(repository.table)|
                && StartedRows(old(repository.table), repository.table, params, fetched.value, repository.now)
    {
      if fetched.Success? {
        CreatedExactly(repository.table, params, fetched.value, repository.now);
      }
      if fetched.Failure? {
        return Failure(fetched.error);
      }
      var service := fetched.value;
      var ok := ValidateParallelism(service);
      if !ok {
        return Failure(ParallelismMismatch);
      }
      var actionId: ActionId;
      if service.parallelism == SINGLE || service.parallelism == MULTIPLE {
        actionId := repository.CreateAction(params, service);
      } else {
        actionId := repository.UpdateLastAndCreate(CANCEL_LAST, params, service);
      }
      r := Success(actionId);
    }

    method UpdateAction(actionId: ActionId, params: UpdateParams) returns (r: Result<()>)
      requires ValidTable(repository.table)
      modifies repository`table
      ensures ValidTable(repository.table)
      ensures match Updated(old(repository.table), actionId, params, repository.now)
              case Failure(e) => r == Failure(e) && repository.table == old(repository.table)
              case Success(t) => r.Success? && repository.table == t
      ensures r.Success? <==> actionId < |old(repository.table)| && old(repository.table)[actionId].status == ACTIVE
      ensures r.Failure? ==>
                && repository.table == old(repository.table)
                && r.error == if actionId < |old(repository.table)| then ActionAlreadyClosed else ActionNotFound
      ensures r.Success? ==>
                && |repository.table| == |old(repository.table)|
                && PatchedAt(old(repository.table), repository.table, actionId, params, repository.now)
    {
      UpdatedExactly(repository.table, actionId, params, repository.now);
      var action := repository.FindOneActionById(actionId);
      if action.None? {
        return Failure(ActionNotFound);
      }
      if action.value.status in ACTION_CLOSED_STATUSES {
        return Failure(ActionAlreadyClosed);
      }
      repository.UpdateOneAction(actionId, params.status, Merge(action.value.metadata, params.metadata));
      assert repository.table == Patched(old(repository.table), actionId, params, repository.now);
      r := Success(());
    }
  }
}
