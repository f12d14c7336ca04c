/** The rotation stamps actions carry, over every run of the protocol. */
module Stamps {
  import opened Common
  import opened Actions
  import opened Locks
  import opened Registry
  import opened Protocol
  import opened ProtocolSafety

  function Stamp(a: Action): Rotation {
    Rotation(a.parentRotation, a.serviceRotation)
  }

  /** The stamp of an action is a row of its service's history. */
  ghost predicate StampExists(s: State, a: ActionId)
    requires a < |s.table|
  {
    s.table[a].serviceId in s.db.services && Stamp(s.table[a]) in s.db.services[s.table[a].serviceId].rotations
  }

  /** Nulls-last (parent rotation, service rotation) order: an earlier action is never above a later one. */
  ghost predicate StampsRise(s: State, a: ActionId, b: ActionId)
    requires a < b < |s.table|
  {
    s.table[a].serviceId == s.table[b].serviceId ==> !Above(Stamp(s.table[a]), Stamp(s.table[b]))
  }

  ghost predicate StampsHold(s: State) {
    && (forall a: ActionId {:trigger StampExists(s, a)} :: a < |s.table| ==> StampExists(s, a))
    && (forall a: ActionId, b: ActionId {:trigger StampsRise(s, a, b)} :: a < b < |s.table| ==> StampsRise(s, a, b))
  }

  /** The table grows by at most one row, whose stamp is the current row of its service. */
  ghost predicate StampsEvolve(s: State, u: State) {
    && |s.table| <= |u.table| <= |s.table| + 1
    && (forall i :: 0 <= i < |s.table| ==>
          u.table[i].serviceId == s.table[i].serviceId && Stamp(u.table[i]) == Stamp(s.table[i]))
    && (|u.table| > |s.table| ==>
          var d := u.table[|s.table|].serviceId;
          && d in s.db.services && s.db.services[d].rotations != []
          && Stamp(u.table[|s.table|]) == Current(s.db.services[d].rotations))
  }

  lemma CreationStamps(s: State, service: Id, state: nat, metadata: Option<Metadata>)
    requires CreationAnswer(s, service, state, metadata).Success?
    ensures StampsEvolve(s, s.(table := CreationAnswer(s, service, state, metadata).value))
    ensures |CreationAnswer(s, service, state, metadata).value| == |s.table| + 1
    ensures CreationAnswer(s, service, state, metadata).value[|s.table|].serviceId == service
  {}

  lemma StepStamps(s: State, e: Event)
    requires Can(s, e)
    ensures StampsEvolve(s, Do(s, e))
    ensures |Do(s, e).table| > |s.table| ==> Do(s, e).db == s.db
  {
    match e
    case Create(p, state, metadata) =>
      if CreationAnswer(s, s.procs[p].service, state, metadata).Success? {
        CreationStamps(s, s.procs[p].service, state, metadata);
      }
    case CreateOutside(service, state, metadata) =>
      if CreationAnswer(s, service, state, metadata).Success? {
        CreationStamps(s, service, state, metadata);
      }
    case _ =>
  }

  lemma StepKeepsStamps(s: State, e: Event)
    requires StampsHold(s) && Can(s, e)
    ensures StampsHold(Do(s, e))
  {
    var u := Do(s, e);
    StepStamps(s, e);
    forall a: ActionId | a < |u.table|
      ensures StampExists(u, a)
    {
      if a < |s.table| {
        assert StampExists(s, a);
      } else {
        CurrentIsFirst(s.db.services[u.table[a].serviceId].rotations);
      }
    }
    forall a: ActionId, b: ActionId | a < b < |u.table|
      ensures StampsRise(u, a, b)
    {
      if b < |s.table| {
        assert StampsRise(s, a, b);
      } else if u.table[a].serviceId == u.table[b].serviceId {
        assert StampExists(s, a);
        CurrentIsFirst(s.db.services[u.table[b].serviceId].rotations);
      }
    }
  }

  /** In every run the actions of a service, in creation order, carry nondecreasing stamps, and each
      stamp is a row of the service's rotation history. */
  lemma {:induction false} StampsNeverFall(start: State, es: seq<Event>)
    requires Initial(start)
    ensures StampsHold(Run(start, es))
  {
    if es != [] {
      var before := es[..|es| - 1];
      StampsNeverFall(start, before);
      if Can(Run(start, before), es[|es| - 1]) {
        StepKeepsStamps(Run(start, before), es[|es| - 1]);
      }
    }
  }

  /** An action created now is stamped with its parent's current rotation, or null under no parent. */
  lemma {:induction false} StampMatchesParent(start: State, es: seq<Event>, e: Event)
    requires Initial(start) && Can(Run(start, es), e)
    requires |Do(Run(start, es), e).table| > |Run(start, es).table|
    ensures var s := Run(start, es); var a := Do(s, e).table[|s.table|];
            && a.serviceId in s.db.services
            && match s.db.services[a.serviceId].parent
               case None => a.parentRotation.None?
               case Some(p) =>
                 && p in s.db.services && s.db.services[p].rotations != []
                 && a.parentRotation == Some(Current(s.db.services[p].rotations).serviceRotation)
  {
    var s := Run(start, es);
    RunIsSafe(start, es);
    StepStamps(s, e);
    var d := Do(s, e).table[|s.table|].serviceId;
    assert ParentHolds(s.db.services, d) && EdgeHolds(s.db.services, d);
    if s.db.services[d].parent.Some? {
      assert HistoryHolds(s.db.services[s.db.services[d].parent.value]);
    }
  }
}
