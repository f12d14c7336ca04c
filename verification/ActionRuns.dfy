/** What holds over every run of action requests, each request taken as one step. */
module ActionRuns {
  import opened Common
  import opened Actions

  datatype Request =
    | Create(service: FlatService, state: nat, metadata: Option<Metadata>, now: nat)
    | Update(actionId: ActionId, params: UpdateParams, now: nat)
  {
    function Answer(t: Table): Result<Table> {
      match this
      case Create(service, state, metadata, now) =>
        Created(t, ActionParams(service.serviceId, state, metadata), service, now)
      case Update(actionId, params, now) => Updated(t, actionId, params, now)
    }

    /** A refused request leaves the table as it was. */
    function Serve(t: Table): Table {
      var answer := Answer(t);
      if answer.Success? then answer.value else t
    }

    predicate MayExceed(service: Id) {
      Create? && this.service.serviceId == service && this.service.parallelism == MULTIPLE
    }

    predicate Creates(service: Id) {
      Create? && this.service.serviceId == service
    }
  }

  function Run(t: Table, qs: seq<Request>): Table {
    if qs == [] then t else qs[|qs| - 1].Serve(Run(t, qs[..|qs| - 1]))
  }

  function Max(a: int, b: int): int {
    if a < b then b else a
  }

  /** What each request does to the rows. */
  lemma ServedExactly(t: Table, q: Request)
    ensures match q
            case Create(service, state, metadata, now) =>
              if MayStart(t, service)
              then StartedRows(t, q.Serve(t), ActionParams(service.serviceId, state, metadata), service, now)
              else q.Serve(t) == t
            case Update(id, params, now) =>
              if id < |t| && t[id].status == ACTIVE
              then |q.Serve(t)| == |t| && PatchedAt(t, q.Serve(t), id, params, now)
              else q.Serve(t) == t
  {
    match q
    case Create(service, state, metadata, now) =>
      CreatedExactly(t, ActionParams(service.serviceId, state, metadata), service, now);
    case Update(id, params, now) =>
      UpdatedExactly(t, id, params, now);
  }

  // -------------------------------------------------------- the table keeps

  lemma ServeKeepsRows(t: Table, q: Request)
    ensures |t| <= |q.Serve(t)|
    ensures forall i :: 0 <= i < |t| && IsClosed(t[i]) ==> q.Serve(t)[i] == t[i]
    ensures ValidTable(t) ==> ValidTable(q.Serve(t))
  {}

  /** A closed action never changes again, in any field; keys and closing times stay consistent. */
  lemma {:induction false} ClosedIsFinal(t: Table, qs: seq<Request>)
    ensures |t| <= |Run(t, qs)|
    ensures forall i :: 0 <= i < |t| && IsClosed(t[i]) ==> Run(t, qs)[i] == t[i]
    ensures ValidTable(t) ==> ValidTable(Run(t, qs))
  {
    if qs != [] {
      var before := qs[..|qs| - 1];
      ClosedIsFinal(t, before);
      ServeKeepsRows(Run(t, before), qs[|qs| - 1]);
    }
  }

  // ----------------------------------------------------- parallelism bound

  function Weight(f: ActionFilter, a: Action): nat {
    if Matches(f, a) then 1 else 0
  }

  lemma {:induction false} SelectOverwrite(t: Table, i: nat, a: Action, f: ActionFilter)
    requires i < |t|
    ensures |Select(t[i := a], f)| + Weight(f, t[i]) == |Select(t, f)| + Weight(f, a)
  {
    var n := |t| - 1;
    if i == n {
      assert t[i := a][..n] == t[..n];
    } else {
      assert t[i := a][..n] == t[..n][i := a];
      SelectOverwrite(t[..n], i, a, f);
    }
  }

  lemma CancelLowersCount(t: Table, canceled: Id, now: nat, service: Id)
    ensures var after := ActiveCount(LastCanceled(t, canceled, now), service);
            after == if service == canceled && ActiveCount(t, service) > 0
                     then ActiveCount(t, service) - 1 else ActiveCount(t, service)
  {
    NewestIsLastSelected(t, canceled);
    var newest := NewestActive(t, canceled);
    if newest.Some? {
      SelectOverwrite(t, newest.value, PatchedRow(t[newest.value], CANCEL_LAST, now), ActiveFilter(service));
    }
  }

  lemma PatchNeverReopens(t: Table, id: ActionId, p: UpdateParams, now: nat, service: Id)
    requires Updated(t, id, p, now).Success?
    ensures ActiveCount(Updated(t, id, p, now).value, service) <= ActiveCount(t, service)
  {
    assert t[id].status == ACTIVE;
    SelectOverwrite(t, id, PatchedRow(t[id], p, now), ActiveFilter(service));
  }

  lemma ServeKeepsBound(t: Table, q: Request, service: Id)
    requires !q.MayExceed(service)
    ensures ActiveCount(q.Serve(t), service) <= Max(1, ActiveCount(t, service))
    ensures !q.Creates(service) ==> ActiveCount(q.Serve(t), service) <= ActiveCount(t, service)
  {
    match q
    case Update(id, p, now) =>
      if q.Answer(t).Success? {
        PatchNeverReopens(t, id, p, now, service);
      }
    case Create(s, state, metadata, now) =>
      CancelLowersCount(t, s.serviceId, now, service);
  }

  /** While a service is SINGLE or REPLACEABLE its active count never passes max(1, the count
      it had when it became so); from an empty table it is at most one. */
  lemma {:induction false} ParallelismBound(t: Table, qs: seq<Request>, service: Id)
    requires forall q :: q in qs ==> !q.MayExceed(service)
    ensures ActiveCount(Run(t, qs), service) <= Max(1, ActiveCount(t, service))
    ensures (forall q :: q in qs ==> !q.Creates(service)) ==>
              ActiveCount(Run(t, qs), service) <= ActiveCount(t, service)
  {
    if qs != [] {
      var before := qs[..|qs| - 1];
      ParallelismBound(t, before, service);
      ServeKeepsBound(Run(t, before), qs[|qs| - 1], service);
    }
  }

  /** An accepted replaceable creation cancels the newest active row of the service, touches no
      other row, and leaves the new row as the only active one. */
  lemma ReplacementLeavesOneActive(t: Table, q: Request)
    requires q.Create? && q.service.parallelism == REPLACEABLE && q.Answer(t).Success?
    ensures var s := q.service.serviceId; var u := q.Serve(t); var newest := NewestActive(t, s);
            && |u| == |t| + 1
            && (forall i :: 0 <= i < |u| ==> (IsActiveOf(u[i], s) <==> i == |t|))
            && (forall i :: 0 <= i < |t| && newest != Some(i) ==> u[i] == t[i])
            && (newest.Some? ==> u[newest.value].status == CANCELED && u[newest.value].closedAt == Some(q.now))
  {
    var s := q.service.serviceId;
    CancelLowersCount(t, s, q.now, s);
    CountIsZero(LastCanceled(t, s, q.now), s);
  }

  // ----------------------------------------------------------------- metadata

  function At(c: seq<Option<Metadata>>, j: nat): Metadata
    requires j < |c|
  {
    c[j].GetOr(map[])
  }

  ghost predicate HasKeys(m: Metadata, c: seq<Option<Metadata>>) {
    forall k :: k in m <==> exists j: nat :: j < |c| && k in At(c, j)
  }

  ghost predicate IsLastWriter(c: seq<Option<Metadata>>, k: string, j: nat) {
    j < |c| && k in At(c, j) && forall l: nat :: j < l < |c| ==> k !in At(c, l)
  }

  /** A key is present when some contribution has it, with the value of the last one that has it. */
  ghost predicate LastWriterWins(m: Metadata, c: seq<Option<Metadata>>) {
    && HasKeys(m, c)
    && forall k, j: nat {:trigger IsLastWriter(c, k, j)} :: IsLastWriter(c, k, j) ==> k in m && m[k] == At(c, j)[k]
  }

  /** What one request adds to the metadata of one action. */
  function Contribution(t: Table, q: Request, id: ActionId): seq<Option<Metadata>> {
    if q.Answer(t).Failure? then []
    else match q
      case Update(actionId, params, _) => if actionId == id then [params.metadata] else []
      case Create(s, _, metadata, _) =>
        if id == |t| then [metadata]
        else if s.parallelism == REPLACEABLE && NewestActive(t, s.serviceId) == Some(id) then [Some(CLOSING_METADATA)]
        else []
  }

  function Contributions(t: Table, qs: seq<Request>, id: ActionId): seq<Option<Metadata>> {
    if qs == [] then if id < |t| then [t[id].metadata] else []
    else
      var before := qs[..|qs| - 1];
      Contributions(t, before, id) + Contribution(Run(t, before), qs[|qs| - 1], id)
  }

  lemma MergeHasKeys(m: Metadata, c: seq<Option<Metadata>>, newer: Option<Metadata>)
    requires HasKeys(m, c)
    ensures HasKeys(Merge(Some(m), newer), c + [newer])
  {
    var d := c + [newer];
    forall k
      ensures k in Merge(Some(m), newer) <==> exists j: nat :: j < |d| && k in At(d, j)
    {
      assert At(d, |c|) == newer.GetOr(map[]);
      if k in m {
        var j: nat :| j < |c| && k in At(c, j);
        assert k in At(d, j);
      }
      if j: nat :| j < |d| && k in At(d, j) {
        assert j < |c| ==> k in At(c, j);
      }
    }
  }

  lemma EarlierWriterStays(c: seq<Option<Metadata>>, newer: Option<Metadata>, k: string, j: nat)
    requires IsLastWriter(c + [newer], k, j)
    ensures j < |c| ==> IsLastWriter(c, k, j) && k !in newer.GetOr(map[])
    ensures j >= |c| ==> j == |c| && k in newer.GetOr(map[])
  {
    var d := c + [newer];
    assert At(d, |c|) == newer.GetOr(map[]);
    if j < |c| {
      assert k !in At(d, |c|);
      forall l: nat | j < l < |c|
        ensures k !in At(c, l)
      {
        assert k !in At(d, l);
      }
    }
  }

  lemma MergeAppends(m: Metadata, c: seq<Option<Metadata>>, newer: Option<Metadata>)
    requires LastWriterWins(m, c)
    ensures LastWriterWins(Merge(Some(m), newer), c + [newer])
  {
    var d := c + [newer];
    var r := Merge(Some(m), newer);
    MergeHasKeys(m, c, newer);
    forall k, j: nat | IsLastWriter(d, k, j)
      ensures k in r && r[k] == At(d, j)[k]
    {
      EarlierWriterStays(c, newer, k, j);
    }
  }

  /** The metadata column is null only when the row was created without metadata and never patched. */
  ghost predicate Explains(c: seq<Option<Metadata>>, m: Option<Metadata>) {
    c != [] && LastWriterWins(m.GetOr(map[]), c) && (m.None? <==> c == [None])
  }

  lemma SingleWriter(m: Option<Metadata>)
    ensures Explains([m], m)
  {
    assert At([m], 0) == m.GetOr(map[]);
    forall k
      ensures k in m.GetOr(map[]) <==> exists j: nat :: j < |[m]| && k in At([m], j)
    {
      assert k in m.GetOr(map[]) ==> k in At([m], 0);
    }
  }

  lemma ContributionExplains(t: Table, q: Request, id: ActionId, c: seq<Option<Metadata>>)
    requires id < |t| && Explains(c, t[id].metadata)
    ensures id < |q.Serve(t)| && Explains(c + Contribution(t, q, id), q.Serve(t)[id].metadata)
  {
    var added := Contribution(t, q, id);
    if added == [] {
      assert c + added == c;
    } else {
      assert added == [added[0]];
      var was := t[id].metadata;
      MergeAppends(was.GetOr(map[]), c, added[0]);
      assert Merge(Some(was.GetOr(map[])), added[0]) == Merge(was, added[0]);
    }
  }

  /** Over any run the metadata of an action is the merge, later writers winning, of its creation
      metadata, every accepted patch and the closing reason: no key is ever lost. */
  lemma {:induction false} MetadataIsMergeOfContributions(t: Table, qs: seq<Request>, id: ActionId)
    requires id < |Run(t, qs)|
    ensures Explains(Contributions(t, qs, id), Run(t, qs)[id].metadata)
  {
    if qs == [] {
      SingleWriter(t[id].metadata);
    } else {
      var before := qs[..|qs| - 1];
      var q := qs[|qs| - 1];
      if id < |Run(t, before)| {
        MetadataIsMergeOfContributions(t, before, id);
        ContributionExplains(Run(t, before), q, id, Contributions(t, before, id));
      } else {
        NothingBeforeCreation(t, before, id);
        SingleWriter(Run(t, qs)[id].metadata);
        assert Contributions(t, qs, id) == [Run(t, qs)[id].metadata];
      }
    }
  }

  lemma {:induction false} NothingBeforeCreation(t: Table, qs: seq<Request>, id: ActionId)
    requires id >= |Run(t, qs)|
    ensures Contributions(t, qs, id) == []
  {
    ClosedIsFinal(t, qs);
    if qs != [] {
      var before := qs[..|qs| - 1];
      NothingBeforeCreation(t, before, id);
    }
  }
}
