/** The client session: which requests it sends and what it remembers between calls. */
module StatefulMediator {
  import opened Common
  import opened Actions
  import opened Locks

  /** A call, with the answer the service gives if a request is sent. */
  datatype Call =
    | ReserveAccess(reserved: Result<Option<LockId>>)
    | RemoveLock(removed: Result<()>)
    | CreateAction(state: nat, metadata: Option<Metadata>, created: Result<ActionId>)
    | UpdateAction(params: UpdateParams, updated: Result<()>)

  datatype Request =
    | PostReserve(service: Id)
    | DeleteLock(lockId: LockId)
    | PostAction(actionParams: ActionParams)
    | PatchAction(actionId: ActionId, params: UpdateParams)

  datatype Session = Session(serviceId: Id, lockId: Option<LockId>, actionId: Option<ActionId>)

  function Sent(s: Session, c: Call): Option<Request> {
    match c
    case ReserveAccess(_) => Some(PostReserve(s.serviceId))
    case RemoveLock(_) => if s.lockId.None? then None else Some(DeleteLock(s.lockId.value))
    case CreateAction(state, metadata, _) => Some(PostAction(ActionParams(s.serviceId, state, metadata)))
    case UpdateAction(params, _) => if s.actionId.None? then None else Some(PatchAction(s.actionId.value, params))
  }

  /** A call that throws leaves the session as it was. */
  function Next(s: Session, c: Call): Session {
    match c
    case ReserveAccess(Success(lockId)) => s.(lockId := lockId)
    case RemoveLock(Success(_)) => s.(lockId := None)
    case CreateAction(_, _, Success(actionId)) => s.(actionId := Some(actionId))
    case _ => s
  }

  class StatefulMediator {
    const serviceId: Id
    var lockId: Option<LockId>
    var actionId: Option<ActionId>

    function State(): Session
      reads this
    {
      Session(serviceId, lockId, actionId)
    }

    constructor (serviceId: Id)
      ensures State() == Session(serviceId, None, None)
    {
      this.serviceId := serviceId;
      lockId, actionId := None, None;
    }

    method ReserveAccess(answer: Result<Option<LockId>>) returns (r: Result<Option<LockId>>, sent: Option<Request>)
      modifies this`lockId
      ensures r == answer && sent == Sent(old(State()), Call.ReserveAccess(answer))
      ensures State() == Next(old(State()), Call.ReserveAccess(answer))
      ensures sent == Some(PostReserve(serviceId))
      ensures lockId == if answer.Success? then answer.value else old(lockId)
    {
      sent := Some(PostReserve(serviceId));
      r := answer;
      if answer.Success? {
        lockId := answer.value;
      }
    }

    method RemoveLock(answer: Result<()>) returns (r: Result<()>, sent: Option<Request>)
      modifies this`lockId
      ensures sent == Sent(old(State()), Call.RemoveLock(answer))
      ensures r == if sent.None? then Success(()) else answer
      ensures State() == Next(old(State()), Call.RemoveLock(answer))
      ensures sent == if old(lockId).Some? then Some(DeleteLock(old(lockId).value)) else None
      ensures lockId == if answer.Success? then None else old(lockId)
    {
      if lockId.None? {
        return Success(()), None;
      }
      sent := Some(DeleteLock(lockId.value));
      r := answer;
      if answer.Success? {
        lockId := None;
      }
    }

    method CreateAction(state: nat, metadata: Option<Metadata>, answer: Result<ActionId>)
      returns (r: Result<ActionId>, sent: Option<Request>)
      modifies this`actionId
      ensures r == answer && sent == Sent(old(State()), Call.CreateAction(state, metadata, answer))
      ensures State() == Next(old(State()), Call.CreateAction(state, metadata, answer))
      ensures sent == Some(PostAction(ActionParams(serviceId, state, metadata)))
      ensures actionId == if answer.Success? then Some(answer.value) else old(actionId)
    {
      sent := Some(PostAction(ActionParams(serviceId, state, metadata)));
      r := answer;
      if answer.Success? {
        actionId := Some(answer.value);
      }
    }

    method UpdateAction(params: UpdateParams, answer: Result<()>) returns (r: Result<()>, sent: Option<Request>)
      ensures sent == Sent(State(), Call.UpdateAction(params, answer))
      ensures sent == if actionId.Some? then Some(PatchAction(actionId.value, params)) else None
      ensures r == if sent.None? then Success(()) else answer
    {
      if actionId.None? {
        return Success(()), None;
      }
      sent := Some(PatchAction(actionId.value, params));
      r := answer;
    }
  }

  // ----------------------------------------------------------- sequences of calls

  function After(s: Session, cs: seq<Call>): Session {
    if cs == [] then s else Next(After(s, cs[..|cs| - 1]), cs[|cs| - 1])
  }

  function New(serviceId: Id): Session {
    Session(serviceId, None, None)
  }

  /** What the n-th call sends. */
  function SentAt(serviceId: Id, cs: seq<Call>, n: nat): Option<Request>
    requires n < |cs|
  {
    Sent(After(New(serviceId), cs[..n]), cs[n])
  }

  predicate Reserves(c: Call) {
    c.ReserveAccess? && c.reserved.Success?
  }

  predicate Makes(c: Call) {
    c.CreateAction? && c.created.Success?
  }

  predicate Removes(c: Call) {
    c.RemoveLock? && c.removed.Success?
  }

  /** The lock the session remembers is the one most recently reserved, and not removed since. */
  ghost predicate LastReserved(cs: seq<Call>, n: nat, lockId: LockId) {
    && n <= |cs|
    && exists j :: 0 <= j < n && cs[j] == Call.ReserveAccess(Success(Some(lockId)))
         && forall k :: j < k < n ==> !Reserves(cs[k]) && !Removes(cs[k])
  }

  ghost predicate LastMade(cs: seq<Call>, n: nat, actionId: ActionId) {
    && n <= |cs|
    && exists j :: 0 <= j < n && Makes(cs[j]) && cs[j].created.value == actionId
         && forall k :: j < k < n ==> !Makes(cs[k])
  }

  lemma ReservedStep(cs: seq<Call>, n: nat, lockId: LockId)
    requires 0 < n <= |cs|
    ensures LastReserved(cs, n, lockId) <==>
              || cs[n - 1] == Call.ReserveAccess(Success(Some(lockId)))
              || (!Reserves(cs[n - 1]) && !Removes(cs[n - 1]) && LastReserved(cs, n - 1, lockId))
  {
    if LastReserved(cs, n, lockId) {
      var j :| 0 <= j < n && cs[j] == Call.ReserveAccess(Success(Some(lockId)))
               && forall k :: j < k < n ==> !Reserves(cs[k]) && !Removes(cs[k]);
      assert j < n - 1 ==> !Reserves(cs[n - 1]) && !Removes(cs[n - 1]);
    }
    if !Reserves(cs[n - 1]) && !Removes(cs[n - 1]) && LastReserved(cs, n - 1, lockId) {
      var j :| 0 <= j < n - 1 && cs[j] == Call.ReserveAccess(Success(Some(lockId)))
               && forall k :: j < k < n - 1 ==> !Reserves(cs[k]) && !Removes(cs[k]);
      assert forall k :: j < k < n ==> !Reserves(cs[k]) && !Removes(cs[k]);
    }
  }

  lemma MadeStep(cs: seq<Call>, n: nat, actionId: ActionId)
    requires 0 < n <= |cs|
    ensures LastMade(cs, n, actionId) <==>
              if Makes(cs[n - 1]) then cs[n - 1].created.value == actionId else LastMade(cs, n - 1, actionId)
  {
    if LastMade(cs, n, actionId) {
      var j :| 0 <= j < n && Makes(cs[j]) && cs[j].created.value == actionId && forall k :: j < k < n ==> !Makes(cs[k]);
      assert j < n - 1 ==> !Makes(cs[n - 1]);
    }
    if !Makes(cs[n - 1]) && LastMade(cs, n - 1, actionId) {
      var j :| 0 <= j < n - 1 && Makes(cs[j]) && cs[j].created.value == actionId
               && forall k :: j < k < n - 1 ==> !Makes(cs[k]);
      assert forall k :: j < k < n ==> !Makes(cs[k]);
    }
  }

  lemma {:induction false} RemembersLock(serviceId: Id, cs: seq<Call>, n: nat, lockId: LockId)
    requires n <= |cs|
    ensures After(New(serviceId), cs[..n]).lockId == Some(lockId) <==> LastReserved(cs, n, lockId)
  {
    if n > 0 {
      RemembersLock(serviceId, cs, n - 1, lockId);
      assert cs[..n][..n - 1] == cs[..n - 1];
      ReservedStep(cs, n, lockId);
    }
  }

  lemma {:induction false} RemembersAction(serviceId: Id, cs: seq<Call>, n: nat, actionId: ActionId)
    requires n <= |cs|
    ensures After(New(serviceId), cs[..n]).serviceId == serviceId
    ensures After(New(serviceId), cs[..n]).actionId == Some(actionId) <==> LastMade(cs, n, actionId)
  {
    if n > 0 {
      RemembersAction(serviceId, cs, n - 1, actionId);
      assert cs[..n][..n - 1] == cs[..n - 1];
      MadeStep(cs, n, actionId);
    }
  }

  /** The session remembers a lock exactly when that was the lock of the latest successful reservation
      and has not been removed, and an action exactly when it was the latest created. */
  lemma SessionRemembersLatest(serviceId: Id, cs: seq<Call>, n: nat)
    requires n <= |cs|
    ensures var s := After(New(serviceId), cs[..n]);
            && s.serviceId == serviceId
            && (forall l: LockId :: s.lockId == Some(l) <==> LastReserved(cs, n, l))
            && (forall a: ActionId :: s.actionId == Some(a) <==> LastMade(cs, n, a))
  {
    RemembersAction(serviceId, cs, n, 0);
    forall l: LockId {
      RemembersLock(serviceId, cs, n, l);
    }
    forall a: ActionId {
      RemembersAction(serviceId, cs, n, a);
    }
  }

  /** What every call sends, whatever came before: a delete goes out exactly for the lock of the latest
      reservation not removed since, a patch exactly to the latest created action, and the other
      requests always, for the session's own service, with the parameters of the call. */
  lemma RequestsNameLatest(serviceId: Id, cs: seq<Call>, n: nat)
    requires n < |cs|
    ensures match cs[n]
            case ReserveAccess(_) => SentAt(serviceId, cs, n) == Some(PostReserve(serviceId))
            case CreateAction(state, metadata, _) =>
              SentAt(serviceId, cs, n) == Some(PostAction(ActionParams(serviceId, state, metadata)))
            case RemoveLock(_) =>
              && (forall l: LockId :: SentAt(serviceId, cs, n) == Some(DeleteLock(l)) <==> LastReserved(cs, n, l))
              && (SentAt(serviceId, cs, n).Some? ==> SentAt(serviceId, cs, n).value.DeleteLock?)
            case UpdateAction(params, _) =>
              && (forall a: ActionId ::
                    SentAt(serviceId, cs, n) == Some(PatchAction(a, params)) <==> LastMade(cs, n, a))
              && (SentAt(serviceId, cs, n).Some? ==>
                    SentAt(serviceId, cs, n).value.PatchAction? && SentAt(serviceId, cs, n).value.params == params)
  {
    SessionRemembersLatest(serviceId, cs, n);
  }

  lemma RemovedIsNotLatest(cs: seq<Call>, m: nat, n: nat, lockId: LockId)
    requires FreshLocks(cs) && m < n <= |cs|
    requires LastReserved(cs, m, lockId) && Removes(cs[m])
    ensures !LastReserved(cs, n, lockId)
  {
    var i :| 0 <= i < m && cs[i] == Call.ReserveAccess(Success(Some(lockId)))
             && forall k :: i < k < m ==> !Reserves(cs[k]) && !Removes(cs[k]);
    forall j | 0 <= j < n && cs[j] == Call.ReserveAccess(Success(Some(lockId)))
      ensures j < m < n
    {
      assert Reserves(cs[i]) && Reserves(cs[j]);
    }
  }

  /** locky never hands out the same lock id twice. */
  ghost predicate FreshLocks(cs: seq<Call>) {
    forall i, j :: 0 <= i < j < |cs| && Reserves(cs[i]) && Reserves(cs[j]) && cs[i].reserved.value.Some? ==>
      cs[i].reserved != cs[j].reserved
  }

  /** After a delete that was answered with success, no delete for that lock is ever sent again. */
  lemma NoSecondDelete(serviceId: Id, cs: seq<Call>, m: nat, n: nat, lockId: LockId)
    requires FreshLocks(cs) && m < n < |cs|
    requires SentAt(serviceId, cs, m) == Some(DeleteLock(lockId)) && Removes(cs[m])
    ensures SentAt(serviceId, cs, n) != Some(DeleteLock(lockId))
  {
    RequestsNameLatest(serviceId, cs, m);
    RemovedIsNotLatest(cs, m, n, lockId);
    RequestsNameLatest(serviceId, cs, n);
  }
}
