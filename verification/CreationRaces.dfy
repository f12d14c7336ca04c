/** actiony's creation with its two awaits apart: validation and insertion are separate events, and
    other requests come between them in any order. */
module CreationRaces {
  import opened Common
  import opened Actions
  import ActionRuns

  datatype Attempt = Attempt(service: FlatService, state: nat, metadata: Option<Metadata>)
  {
    function Params(): ActionParams {
      ActionParams(service.serviceId, state, metadata)
    }
  }

  /** The action table, and the creations that have passed validation and not inserted yet. */
  datatype Actiony = Actiony(table: Table, pending: map<nat, Attempt>)

  datatype Event =
    | Validate(p: nat, attempt: Attempt)
    | Insert(p: nat, now: nat)
    | Patch(actionId: ActionId, params: UpdateParams, now: nat)

  /** A refused validation, and an insertion nobody has validated, leave everything as it was. */
  function Step(s: Actiony, e: Event): Actiony {
    match e
    case Validate(p, attempt) =>
      if p !in s.pending && ParallelismAllows(s.table, attempt.service)
      then s.(pending := s.pending[p := attempt])
      else s
    case Insert(p, now) =>
      if p in s.pending
      then Actiony(Inserted(s.table, s.pending[p].Params(), s.pending[p].service, now), s.pending - {p})
      else s
    case Patch(actionId, params, now) =>
      var updated := Updated(s.table, actionId, params, now);
      if updated.Success? then s.(table := updated.value) else s
  }

  function Run(s: Actiony, es: seq<Event>): Actiony {
    if es == [] then s else Step(Run(s, es[..|es| - 1]), es[|es| - 1])
  }

  function Count(s: Actiony, d: Id): nat {
    ActiveCount(s.table, d)
  }

  // ------------------------------------------------------------------ one insertion

  /** What an insertion makes of the active count, whatever happened since the validation. */
  lemma InsertionCounts(t: Table, a: Attempt, now: nat, d: Id)
    ensures var after := ActiveCount(Inserted(t, a.Params(), a.service, now), d);
            after == if a.service.serviceId != d then ActiveCount(t, d)
                     else if a.service.parallelism == REPLACEABLE then ActionRuns.Max(1, ActiveCount(t, d))
                     else ActiveCount(t, d) + 1
  {
    ActionRuns.CancelLowersCount(t, a.service.serviceId, now, d);
  }

  /** The insertion leaves at most one active action exactly when the validation would still pass on
      the table it finds. */
  lemma InsertionKeepsBoundExactly(t: Table, a: Attempt, now: nat)
    requires a.service.parallelism != MULTIPLE
    ensures ActiveCount(Inserted(t, a.Params(), a.service, now), a.service.serviceId) <= 1 <==>
            ParallelismAllows(t, a.service)
  {
    InsertionCounts(t, a, now, a.service.serviceId);
  }

  // ------------------------------------------------------------ over interleavings

  /** An event that may make a service active other than by replacement. */
  predicate Bounded(e: Event, d: Id) {
    e.Validate? && e.attempt.service.serviceId == d ==> e.attempt.service.parallelism != MULTIPLE
  }

  predicate Replacing(e: Event, d: Id) {
    e.Validate? && e.attempt.service.serviceId == d ==> e.attempt.service.parallelism == REPLACEABLE
  }

  predicate PendingReplace(s: Actiony, d: Id) {
    forall p :: p in s.pending && s.pending[p].service.serviceId == d ==>
      s.pending[p].service.parallelism == REPLACEABLE
  }

  predicate PendingBounded(s: Actiony, d: Id) {
    forall p :: p in s.pending && s.pending[p].service.serviceId == d ==>
      s.pending[p].service.parallelism != MULTIPLE
  }

  /** A REPLACEABLE service keeps its bound in every interleaving, however its creations overlap: the
      replacing transaction reads the table it writes. */
  lemma {:induction false} ReplaceableAlwaysKeepsBound(s: Actiony, es: seq<Event>, d: Id)
    requires PendingReplace(s, d) && forall e :: e in es ==> Replacing(e, d)
    ensures PendingReplace(Run(s, es), d)
    ensures Count(Run(s, es), d) <= ActionRuns.Max(1, Count(s, d))
  {
    if es != [] {
      var before := es[..|es| - 1];
      var e := es[|es| - 1];
      ReplaceableAlwaysKeepsBound(s, before, d);
      var t := Run(s, before);
      match e
      case Validate(_, _) => assert Replacing(e, d);
      case Insert(p, now) =>
        if p in t.pending {
          InsertionCounts(t.table, t.pending[p], now, d);
        }
      case Patch(id, params, now) =>
        if Updated(t.table, id, params, now).Success? {
          ActionRuns.PatchNeverReopens(t.table, id, params, now, d);
        }
    }
  }

  /** After such a creation, the new action is the only active one. */
  lemma ReplaceableEndsAlone(s: Actiony, es: seq<Event>, d: Id, p: nat, now: nat)
    requires PendingReplace(s, d) && Count(s, d) <= 1 && forall e :: e in es ==> Replacing(e, d)
    requires p in Run(s, es).pending && Run(s, es).pending[p].service.serviceId == d
    ensures Count(Step(Run(s, es), Insert(p, now)), d) == 1
  {
    ReplaceableAlwaysKeepsBound(s, es, d);
    InsertionCounts(Run(s, es).table, Run(s, es).pending[p], now, d);
  }

  /** The event inserts an action of the service that validation would refuse by now. */
  predicate IsStale(s: Actiony, e: Event, d: Id) {
    && e.Insert? && e.p in s.pending && s.pending[e.p].service.serviceId == d
    && !ParallelismAllows(s.table, s.pending[e.p].service)
  }

  lemma StepBound(s: Actiony, e: Event, d: Id)
    requires PendingBounded(s, d) && Bounded(e, d) && Count(s, d) <= 1
    ensures PendingBounded(Step(s, e), d)
    ensures Count(Step(s, e), d) <= 1 <==> !IsStale(s, e, d)
  {
    match e
    case Validate(_, _) =>
    case Insert(p, now) =>
      if p in s.pending {
        InsertionCounts(s.table, s.pending[p], now, d);
      }
    case Patch(id, params, now) =>
      if Updated(s.table, id, params, now).Success? {
        ActionRuns.PatchNeverReopens(s.table, id, params, now, d);
      }
  }

  ghost predicate BoundHolds(s: Actiony, es: seq<Event>, d: Id) {
    forall n :: 0 <= n <= |es| ==> Count(Run(s, es[..n]), d) <= 1
  }

  ghost predicate NoneIsStale(s: Actiony, es: seq<Event>, d: Id) {
    forall n :: 0 <= n < |es| ==> !IsStale(Run(s, es[..n]), es[n], d)
  }

  lemma RunNext(s: Actiony, es: seq<Event>, n: nat)
    requires n < |es|
    ensures Run(s, es[..n + 1]) == Step(Run(s, es[..n]), es[n])
  {
    assert es[..n + 1][..n] == es[..n];
  }

  lemma {:induction false} BoundedPrefix(s: Actiony, es: seq<Event>, d: Id, n: nat)
    requires PendingBounded(s, d) && (forall e :: e in es ==> Bounded(e, d)) && Count(s, d) <= 1 && n <= |es|
    requires forall k :: 0 <= k < n ==> !IsStale(Run(s, es[..k]), es[k], d)
    ensures PendingBounded(Run(s, es[..n]), d) && Count(Run(s, es[..n]), d) <= 1
  {
    if n > 0 {
      BoundedPrefix(s, es, d, n - 1);
      RunNext(s, es, n - 1);
      assert es[n - 1] in es;
      StepBound(Run(s, es[..n - 1]), es[n - 1], d);
    } else {
      assert es[..0] == [];
    }
  }

  /** Exactly when the bound of a SINGLE or REPLACEABLE service holds throughout an interleaving: when
      every one of its insertions finds a table on which its validation would still pass. */
  lemma {:induction false} BoundHoldsExactly(s: Actiony, es: seq<Event>, d: Id)
    requires PendingBounded(s, d) && (forall e :: e in es ==> Bounded(e, d)) && Count(s, d) <= 1
    ensures BoundHolds(s, es, d) <==> NoneIsStale(s, es, d)
  {
    if NoneIsStale(s, es, d) {
      forall n | 0 <= n <= |es|
        ensures Count(Run(s, es[..n]), d) <= 1
      {
        BoundedPrefix(s, es, d, n);
      }
    } else {
      var stale :| 0 <= stale < |es| && IsStale(Run(s, es[..stale]), es[stale], d);
      var n := FirstStale(s, es, d, stale);
      BoundedPrefix(s, es, d, n);
      RunNext(s, es, n);
      assert es[n] in es;
      StepBound(Run(s, es[..n]), es[n], d);
    }
  }

  lemma {:induction false} FirstStale(s: Actiony, es: seq<Event>, d: Id, n: nat) returns (first: nat)
    requires n < |es| && IsStale(Run(s, es[..n]), es[n], d)
    ensures first < |es| && IsStale(Run(s, es[..first]), es[first], d)
    ensures forall k :: 0 <= k < first ==> !IsStale(Run(s, es[..k]), es[k], d)
    decreases n
  {
    if k :| 0 <= k < n && IsStale(Run(s, es[..k]), es[k], d) {
      first := FirstStale(s, es, d, k);
    } else {
      first := n;
    }
  }

  /** A SINGLE service does lose its bound: from any table without an active action of it, two
      creations that both validate before either inserts end with two active actions. */
  lemma OverlappingCreationsBreakBound(s: Actiony, p: nat, q: nat, a: Attempt, b: Attempt, now: nat)
    requires p != q && p !in s.pending && q !in s.pending
    requires a.service.parallelism == b.service.parallelism == SINGLE && a.service.serviceId == b.service.serviceId
    requires Count(s, a.service.serviceId) == 0
    ensures var both := Step(Step(s, Validate(p, a)), Validate(q, b));
            && p in both.pending && q in both.pending
            && Count(Step(Step(both, Insert(p, now)), Insert(q, now)), a.service.serviceId) == 2
  {
    InsertionCounts(s.table, a, now, a.service.serviceId);
    InsertionCounts(Inserted(s.table, a.Params(), a.service, now), b, now, a.service.serviceId);
  }

  /** With nothing in between, validation and insertion are the one request of module ActionRuns. */
  lemma UninterruptedIsOneRequest(s: Actiony, p: nat, a: Attempt, now: nat)
    requires p !in s.pending
    ensures Step(Step(s, Validate(p, a)), Insert(p, now)) ==
            s.(table := ActionRuns.Request.Create(a.service, a.state, a.metadata, now).Serve(s.table))
  {
    assert s.pending[p := a] - {p} == s.pending;
  }

  /** What each event does: a validation records the attempt exactly when it may start, an insertion adds
      the rows of whatever was validated, and a patch is the one request of module ActionRuns. */
  lemma StepsAreExact(s: Actiony, e: Event)
    ensures var u := Step(s, e);
            match e
            case Validate(p, attempt) =>
              u == if p !in s.pending && MayStart(s.table, attempt.service)
                   then Actiony(s.table, s.pending[p := attempt]) else s
            case Insert(p, now) =>
              if p in s.pending
              then && u.pending == s.pending - {p}
                   && StartedRows(s.table, u.table, s.pending[p].Params(), s.pending[p].service, now)
              else u == s
            case Patch(id, params, now) =>
              u == Actiony(ActionRuns.Update(id, params, now).Serve(s.table), s.pending)
  {
    match e
    case Validate(p, attempt) => AcceptedExactly(s.table, attempt.service);
    case Insert(p, now) =>
      if p in s.pending {
        NewestPatched(s.table, s.pending[p].service.serviceId, CANCEL_LAST, now);
      }
    case Patch(_, _, _) =>
  }
}
