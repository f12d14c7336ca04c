/** The protocol locky, actiony and registry implement together, as a transition system.
    One event is one request to actiony, one access to a table, or time passing; the awaits of a
    reservation, a lock request or a rotation are separate events that others may come between. */
module Protocol {
  import opened Common
  import opened Actions
  import opened Locks
  import opened Registry

  type ProcId = nat

  datatype Kind =
    | RESERVE   // locky: check the service, lock its blockees, poll them
    | LOCK      // locky: check services, lock them
    | ROTATE    // registry: lock the subtree through locky, poll it, write its rotation rows

  datatype Phase =
    | STARTED | CHECKED | FETCHED | POLLING | GRANTED | UNDOING | REFUSED
    | CREATED    // the reserving client has created its action
    | ROTATED    // the rotation rows are written
    | RELEASED

  /** A request in flight. The times are event numbers, kept as bookkeeping. */
  datatype Proc = Proc(
    kind: Kind,
    service: Id,
    target: set<Id>,            // the services it locks and polls
    expiration: Option<nat>,
    phase: Phase,
    polled: set<Id>,            // polls that came back idle
    lock: Option<LockId>,
    action: Option<ActionId>,
    rows: map<Id, nat>,         // for each descendant, the position of the row a rotation wrote
    checkAt: Option<nat>,
    insertAt: Option<nat>,
    createAt: Option<nat>)
  {
    function Checks(): set<Id> {
      if kind == RESERVE then {service} else target
    }

    /** It has inserted a lock and has not deleted it again. */
    predicate Holds() {
      lock.Some? && phase in {POLLING, GRANTED, UNDOING, CREATED, ROTATED}
    }
  }

  datatype State = State(
    db: Database,
    locks: LockTable,
    nextLockId: LockId,
    table: Table,
    procs: map<ProcId, Proc>,
    outside: set<ActionId>,     // actions made without a reservation
    external: set<Id>,          // services whose actions live behind their own url
    reserveLockExpiration: nat,
    rotationLockExpiration: nat,
    now: nat,
    clock: nat)

  datatype Event =
    | Elapse(ms: nat)
    | BeginReserve(p: ProcId, service: Id)
    | BeginLock(p: ProcId, services: set<Id>, expiration: Option<nat>)
    | BeginRotate(p: ProcId, service: Id)
    | Check(p: ProcId)
    | Fetch(p: ProcId, answered: bool)
    | Insert(p: ProcId)
    | Poll(p: ProcId, service: Id, remote: Reply)
    | Undo(p: ProcId)
    | Create(p: ProcId, state: nat, metadata: Option<Metadata>)
    | CreateOutside(service: Id, state: nat, metadata: Option<Metadata>)
    | Patch(actionId: ActionId, params: UpdateParams)
    | WriteRows(p: ProcId)
    | Release(p: ProcId)

  function Begun(kind: Kind, service: Id, target: set<Id>, expiration: Option<nat>): Proc {
    Proc(kind, service, target, expiration, STARTED, {}, None, None, map[], None, None, None)
  }

  predicate LockIsLive(s: State, p: ProcId) {
    && p in s.procs && s.procs[p].lock.Some? && s.procs[p].lock.value in s.locks
    && Live(s.locks[s.procs[p].lock.value], s.now)
  }

  /** A compliant client creates its action while its reserve lock is live, and only the holder
      deletes a lock, once it has created its action or given up. */
  predicate Can(s: State, e: Event) {
    match e
    case Elapse(_) => true
    case BeginReserve(p, _) => p !in s.procs
    case BeginLock(p, _, _) => p !in s.procs
    case BeginRotate(p, service) => p !in s.procs && service in s.db.services
    case Check(p) => p in s.procs && s.procs[p].phase == STARTED
    case Fetch(p, _) => p in s.procs && s.procs[p].phase == CHECKED && s.procs[p].kind == RESERVE
    case Insert(p) => p in s.procs && s.procs[p].phase == if s.procs[p].kind == RESERVE then FETCHED else CHECKED
    case Poll(p, d, _) => p in s.procs && s.procs[p].phase == POLLING && d in s.procs[p].target - s.procs[p].polled
    case Undo(p) => p in s.procs && s.procs[p].phase == UNDOING && s.procs[p].lock.Some?
    case Create(p, _, _) =>
      && p in s.procs && s.procs[p].kind == RESERVE && s.procs[p].phase == GRANTED
      && (s.procs[p].lock.None? || LockIsLive(s, p))
    case CreateOutside(_, _, _) => true
    case Patch(_, _) => true
    case WriteRows(p) => p in s.procs && s.procs[p].kind == ROTATE && s.procs[p].phase == GRANTED
    case Release(p) =>
      p in s.procs && match s.procs[p].kind
                      case RESERVE => s.procs[p].phase in {GRANTED, CREATED}
                      case LOCK => s.procs[p].phase == GRANTED
                      case ROTATE => s.procs[p].phase == ROTATED
  }

  function With(s: State, p: ProcId, proc: Proc): State {
    s.(procs := s.procs[p := proc], clock := s.clock + 1)
  }

  function WithoutLock(locks: LockTable, lock: Option<LockId>): LockTable {
    if lock.Some? then locks - {lock.value} else locks
  }

  /** registry's answer to locky, unless it cannot be reached. */
  function FetchAnswer(s: State, service: Id, answered: bool): Result<FlatService> {
    if answered then Detailed(s.db, service) else Failure(RemoteFailure)
  }

  function Fetched(s: State, proc: Proc, answered: bool): Proc {
    match FetchAnswer(s, proc.service, answered)
    case Failure(_) => proc.(phase := REFUSED)
    case Success(service) =>
      if service.blockees == {} then proc.(phase := GRANTED)
      else proc.(phase := FETCHED, target := service.blockees, expiration := Some(s.reserveLockExpiration))
  }

  function Polled(s: State, proc: Proc, d: Id, remote: Reply): Proc {
    if PollAnswer(s.table, d, s.external, remote) != Idle then proc.(phase := UNDOING)
    else
      var polled := proc.polled + {d};
      proc.(polled := polled, phase := if polled == proc.target then GRANTED else POLLING)
  }

  function CreationAnswer(s: State, service: Id, state: nat, metadata: Option<Metadata>): Result<Table> {
    match Detailed(s.db, service)
    case Failure(e) => Failure(e)
    case Success(v) => Created(s.table, ActionParams(service, state, metadata), v, s.now)
  }

  function Do(s: State, e: Event): State
    requires Can(s, e)
  {
    match e
    case Elapse(ms) => s.(now := s.now + ms, clock := s.clock + 1)
    case BeginReserve(p, service) => With(s, p, Begun(RESERVE, service, {}, None))
    case BeginLock(p, services, expiration) => With(s, p, Begun(LOCK, 0, services, expiration))
    case BeginRotate(p, service) =>
      With(s, p, Begun(ROTATE, service, Descendants(s.db.services, service), Some(s.rotationLockExpiration)))
    case Check(p) =>
      var proc := s.procs[p];
      With(s, p, if Nonexpired(s.locks, proc.Checks(), s.now) != {} then proc.(phase := REFUSED)
                 else proc.(phase := CHECKED, checkAt := Some(s.clock)))
    case Fetch(p, answered) => With(s, p, Fetched(s, s.procs[p], answered))
    case Insert(p) =>
      var proc := s.procs[p];
      With(s, p, proc.(phase := if proc.kind == LOCK then GRANTED else POLLING,
                       lock := Some(s.nextLockId), insertAt := Some(s.clock)))
      .(locks := s.locks[s.nextLockId := NewLock(proc.target, proc.expiration, s.now)], nextLockId := s.nextLockId + 1)
    case Poll(p, d, remote) => With(s, p, Polled(s, s.procs[p], d, remote))
    case Undo(p) =>
      With(s, p, s.procs[p].(phase := REFUSED)).(locks := WithoutLock(s.locks, s.procs[p].lock))
    case Create(p, state, metadata) =>
      (match CreationAnswer(s, s.procs[p].service, state, metadata)
       case Failure(_) => s.(clock := s.clock + 1)
       case Success(t) =>
         With(s, p, s.procs[p].(phase := CREATED, action := Some(|s.table|), createAt := Some(s.clock))).(table := t))
    case CreateOutside(service, state, metadata) =>
      (match CreationAnswer(s, service, state, metadata)
       case Failure(_) => s.(clock := s.clock + 1)
       case Success(t) => s.(table := t, outside := s.outside + {|s.table|}, clock := s.clock + 1))
    case Patch(actionId, params) =>
      (match Updated(s.table, actionId, params, s.now)
       case Failure(_) => s.(clock := s.clock + 1)
       case Success(t) => s.(table := t, clock := s.clock + 1))
    case WriteRows(p) =>
      var ss := s.db.services;
      With(s, p, s.procs[p].(
        phase := ROTATED,
        rows := map d | d in s.procs[p].target && d in ss && ss[d].rotations != [] :: |ss[d].rotations|))
      .(db := s.db.(services := Rotated(ss, s.procs[p].service)))
    case Release(p) =>
      With(s, p, s.procs[p].(phase := RELEASED)).(locks := WithoutLock(s.locks, s.procs[p].lock))
  }

  /** An event that cannot happen leaves the state alone. */
  function Step(s: State, e: Event): State {
    if Can(s, e) then Do(s, e) else s
  }

  function Run(s: State, es: seq<Event>): State {
    if es == [] then s else Step(Run(s, es[..|es| - 1]), es[|es| - 1])
  }

  // --------------------------------------------------------------- per request

  ghost predicate TimesHold(s: State, p: ProcId)
    requires p in s.procs
  {
    var proc := s.procs[p];
    && (proc.phase !in {STARTED, REFUSED} ==> proc.checkAt.Some?)
    && (proc.phase == STARTED ==> proc.checkAt.None?)
    && (proc.insertAt.Some? ==> proc.checkAt.Some? && proc.checkAt.value < proc.insertAt.value < s.clock)
    && (proc.createAt.Some? ==> proc.checkAt.Some? && proc.checkAt.value < proc.createAt.value < s.clock)
    && (proc.insertAt.Some? && proc.createAt.Some? ==> proc.insertAt.value < proc.createAt.value)
    && (proc.checkAt.Some? ==> proc.checkAt.value < s.clock)
    && (proc.insertAt.Some? <==> proc.lock.Some?)
    && (proc.createAt.Some? <==> proc.action.Some?)
  }

  /** A request's lock row is in the table exactly while the request holds it. */
  ghost predicate LockHolds(s: State, p: ProcId)
    requires p in s.procs
  {
    var proc := s.procs[p];
    && (proc.phase in {STARTED, CHECKED, FETCHED} ==> proc.lock.None?)
    && (proc.phase in {POLLING, UNDOING} ==> proc.lock.Some?)
    && (proc.lock.Some? ==> proc.lock.value < s.nextLockId)
    && (proc.Holds() ==> proc.lock.value in s.locks && s.locks[proc.lock.value].services == proc.target)
    && (proc.lock.Some? && !proc.Holds() ==> proc.lock.value !in s.locks)
  }

  /** A reservation locks the blockees of its service, a rotation the descendants of its own. */
  ghost predicate TargetHolds(s: State, p: ProcId)
    requires p in s.procs
  {
    var proc := s.procs[p];
    && (proc.kind == RESERVE && proc.lock.None? && proc.phase != FETCHED ==> proc.target == {})
    && (proc.kind == RESERVE && (proc.phase in {FETCHED, GRANTED, CREATED, RELEASED} || proc.lock.Some?) ==>
          proc.target == Blockees(s.db.blocks, proc.service))
    && (proc.kind == RESERVE && proc.phase == FETCHED ==> proc.expiration == Some(s.reserveLockExpiration))
    && (proc.kind == ROTATE ==> proc.expiration == Some(s.rotationLockExpiration))
    && (proc.kind == ROTATE ==> proc.target == Descendants(s.db.services, proc.service))
  }

  /** Past its polls, a request has polled everything it locked. */
  ghost predicate PollsHold(s: State, p: ProcId)
    requires p in s.procs
  {
    var proc := s.procs[p];
    && proc.polled <= proc.target
    && (proc.polled != {} ==> proc.lock.Some?)
    && (proc.kind != LOCK && proc.phase in {GRANTED, CREATED, ROTATED} ==> proc.polled == proc.target)
    && (proc.action.Some? ==> proc.kind == RESERVE && proc.phase in {CREATED, RELEASED} && proc.polled == proc.target)
    && (proc.phase == CREATED ==> proc.action.Some?)
  }

  ghost predicate ActionHolds(s: State, p: ProcId)
    requires p in s.procs
  {
    var proc := s.procs[p];
    proc.action.Some? ==> proc.action.value < |s.table| && s.table[proc.action.value].serviceId == proc.service
  }

  ghost predicate ProcHolds(s: State, p: ProcId)
    requires p in s.procs
  {
    TimesHold(s, p) && LockHolds(s, p) && TargetHolds(s, p) && PollsHold(s, p) && ActionHolds(s, p)
  }

  // ------------------------------------------------------------- between requests

  /** The lock of `p` was in the table, unexpired, when `q` checked: then `q` would have failed. So
      it was dead by then and stays dead, and whatever `p` created under it was created before. */
  ghost predicate CheckSeesLock(s: State, p: ProcId, q: ProcId)
    requires p in s.procs && q in s.procs
  {
    var x := s.procs[p];
    var y := s.procs[q];
    x.insertAt.Some? && y.checkAt.Some? && x.insertAt.value < y.checkAt.value && x.target * y.Checks() != {} ==>
      !LockIsLive(s, p) && (x.createAt.Some? ==> x.createAt.value < y.checkAt.value)
  }

  /** A poll of `q` that came back idle saw every action created before the lock of `q`. */
  ghost predicate PollSeesAction(s: State, p: ProcId, q: ProcId)
    requires p in s.procs && q in s.procs
  {
    var x := s.procs[p];
    var y := s.procs[q];
    && x.action.Some? && x.action.value < |s.table| && s.table[x.action.value].status == ACTIVE
    && x.service in y.polled && x.service !in s.external ==>
      y.insertAt.Some? && x.createAt.Some? && y.insertAt.value < x.createAt.value
  }

  ghost predicate PairHolds(s: State, p: ProcId, q: ProcId)
    requires p in s.procs && q in s.procs
  {
    && (p != q && s.procs[p].lock.Some? ==> s.procs[p].lock != s.procs[q].lock)
    && (s.procs[p].insertAt.Some? ==> s.procs[p].insertAt != s.procs[q].checkAt)
    && CheckSeesLock(s, p, q)
    && PollSeesAction(s, p, q)
  }

  ghost predicate Owns(s: State, p: ProcId, l: LockId) {
    p in s.procs && s.procs[p].Holds() && s.procs[p].lock == Some(l)
  }

  ghost predicate Made(s: State, p: ProcId, a: ActionId) {
    p in s.procs && s.procs[p].action == Some(a)
  }

  ghost predicate LockOwned(s: State, l: LockId) {
    l < s.nextLockId && exists p :: Owns(s, p, l)
  }

  ghost predicate ActionOwned(s: State, a: ActionId) {
    a in s.outside || exists p :: Made(s, p, a)
  }

  ghost predicate Safe(s: State) {
    && ValidTable(s.table) && RotationsHold(s.db.services)
    && (forall p {:trigger ProcHolds(s, p)} :: p in s.procs ==> ProcHolds(s, p))
    && (forall p, q {:trigger PairHolds(s, p, q)} :: p in s.procs && q in s.procs ==> PairHolds(s, p, q))
    && (forall l {:trigger LockOwned(s, l)} :: l in s.locks ==> LockOwned(s, l))
    && (forall a {:trigger ActionOwned(s, a)} :: 0 <= a < |s.table| ==> ActionOwned(s, a))
  }

  /** No requests yet, empty lock and action tables, any consistent registry. */
  ghost predicate Initial(s: State) {
    s.procs == map[] && s.locks == map[] && s.table == [] && s.outside == {} && RotationsHold(s.db.services)
  }
}
