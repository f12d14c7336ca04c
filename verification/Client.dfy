/** How a client session drives the protocol: the requests of its calls are events of a run, and the
    answers come from the state of that run. */
module Client {
  import opened Common
  import opened Actions
  import opened Locks
  import opened Registry
  import opened Protocol
  import opened ProtocolSafety
  import opened Exclusion
  import opened Barrier
  import StatefulMediator

  type Call = StatefulMediator.Call
  type Session = StatefulMediator.Session

  // -------------------------------------------------------------------- joint runs

  /** What becomes of a request: served and answered, never sent, or served with its answer lost. */
  datatype Delivery = ANSWERED | NOT_SENT | ANSWER_LOST

  datatype Joint = Joint(
    s: State,
    session: Session,
    own: set<ProcId>,           // the reservations the session has asked for
    answered: set<ProcId>,      // those whose answer has arrived
    current: Option<ProcId>,    // the latest granted one
    lost: bool,                 // an answer was lost
    calls: seq<Call>,
    events: seq<Event>)

  datatype Move =
    | Ask(p: ProcId)
    | Hear(p: ProcId, error: Error)
    | CallCreate(state: nat, metadata: Option<Metadata>, delivery: Delivery)
    | CallUpdate(params: UpdateParams, delivery: Delivery)
    | CallRemove(delivery: Delivery)
    | Other(e: Event)           // locky at work on a reservation, another client, time passing

  function Opened(start: State, service: Id): Joint {
    Joint(start, StatefulMediator.New(service), {}, {}, None, false, [], [])
  }

  function Served(j: Joint, e: Event): Joint {
    j.(s := Step(j.s, e), events := j.events + [e])
  }

  function Told(j: Joint, c: Call): Joint {
    j.(session := StatefulMediator.Next(j.session, c), calls := j.calls + [c])
  }

  /** A creation counts for the current reservation while that may create, and is unreserved otherwise. */
  function CreateEvent(j: Joint, state: nat, metadata: Option<Metadata>): Event {
    if j.current.Some? && Can(j.s, Create(j.current.value, state, metadata))
    then Create(j.current.value, state, metadata)
    else CreateOutside(j.session.serviceId, state, metadata)
  }

  function CreateReply(j: Joint, state: nat, metadata: Option<Metadata>): Result<ActionId> {
    match CreationAnswer(j.s, j.session.serviceId, state, metadata)
    case Failure(e) => Failure(e)
    case Success(_) => Success(|j.s.table|)
  }

  /** locky deletes whichever lock has the id; the model has an event for that if it is the current one's. */
  function RemoveEvent(j: Joint, l: LockId): Event {
    if j.current.Some? && Can(j.s, Release(j.current.value)) && j.s.procs[j.current.value].lock == Some(l)
    then Release(j.current.value)
    else Elapse(0)
  }

  function RemoveReply(j: Joint, l: LockId): Result<()> {
    if l in j.s.locks then Success(()) else Failure(LockNotFound)
  }

  function UpdateReply(j: Joint, a: ActionId, params: UpdateParams): Result<()> {
    match Updated(j.s.table, a, params, j.s.now)
    case Failure(e) => Failure(e)
    case Success(_) => Success(())
  }

  function Heard<T>(reply: Result<T>, delivery: Delivery): Result<T> {
    if delivery == ANSWERED then reply else Failure(RemoteFailure)
  }

  /** Only the session creates or deletes under its own reservations. */
  predicate IsOthers(j: Joint, e: Event) {
    (e.Create? || e.Release?) ==> e.p !in j.own
  }

  function Moved(j: Joint, m: Move): Joint {
    match m
    case Ask(p) =>
      if p in j.s.procs then j else Served(j, BeginReserve(p, j.session.serviceId)).(own := j.own + {p})
    case Hear(p, error) =>
      if p !in j.own - j.answered || p !in j.s.procs || j.s.procs[p].phase !in {GRANTED, REFUSED} then j
      else if j.s.procs[p].phase == GRANTED
      then Told(j, Call.ReserveAccess(Success(j.s.procs[p].lock))).(answered := j.answered + {p}, current := Some(p))
      else Told(j, Call.ReserveAccess(Failure(error))).(answered := j.answered + {p})
    case CallCreate(state, metadata, delivery) =>
      var call := Call.CreateAction(state, metadata, Heard(CreateReply(j, state, metadata), delivery));
      if delivery == NOT_SENT then Told(j, call)
      else Told(Served(j, CreateEvent(j, state, metadata)), call).(lost := j.lost || delivery == ANSWER_LOST)
    case CallUpdate(params, delivery) =>
      if j.session.actionId.None? then Told(j, Call.UpdateAction(params, Success(())))
      else if delivery == NOT_SENT then Told(j, Call.UpdateAction(params, Failure(RemoteFailure)))
      else
        var a := j.session.actionId.value;
        Told(Served(j, Patch(a, params)), Call.UpdateAction(params, Heard(UpdateReply(j, a, params), delivery)))
    case CallRemove(delivery) =>
      if j.session.lockId.None? then Told(j, Call.RemoveLock(Success(())))
      else if delivery == NOT_SENT then Told(j, Call.RemoveLock(Failure(RemoteFailure)))
      else
        var l := j.session.lockId.value;
        Told(Served(j, RemoveEvent(j, l)), Call.RemoveLock(Heard(RemoveReply(j, l), delivery)))
        .(lost := j.lost || delivery == ANSWER_LOST)
    case Other(e) => if IsOthers(j, e) then Served(j, e) else j
  }

  function JointRun(j: Joint, ms: seq<Move>): Joint {
    if ms == [] then j else Moved(JointRun(j, ms[..|ms| - 1]), ms[|ms| - 1])
  }

  // ------------------------------------------------------------------ its invariant

  ghost predicate MadeLast(cs: seq<Call>, k: nat)
    requires k < |cs|
  {
    StatefulMediator.Makes(cs[k]) && forall i :: k < i < |cs| ==> !StatefulMediator.Reserves(cs[i])
  }

  /** A creation was answered with success after the latest granted reservation. */
  ghost predicate MadeSince(cs: seq<Call>) {
    exists k :: 0 <= k < |cs| && MadeLast(cs, k)
  }

  ghost predicate OwnHolds(j: Joint, p: ProcId) {
    && p in j.s.procs && j.s.procs[p].kind == RESERVE && j.s.procs[p].service == j.session.serviceId
    && (p !in j.answered ==> j.s.procs[p].phase !in {CREATED, RELEASED})
    && (p in j.answered ==> j.s.procs[p].phase in {GRANTED, CREATED, RELEASED, REFUSED})
  }

  ghost predicate Answers(j: Joint, p: ProcId, l: LockId) {
    p in j.answered && p in j.s.procs && j.s.procs[p].lock == Some(l)
  }

  /** The remembered lock is that of the current reservation, which holds it unless an answer was lost. */
  ghost predicate RememberedHolds(j: Joint) {
    j.session.lockId.Some? ==>
      && j.current.Some? && Answers(j, j.current.value, j.session.lockId.value)
      && var phase := j.s.procs[j.current.value].phase;
      && phase in {GRANTED, CREATED, RELEASED}
      && (phase == RELEASED ==> j.lost)
      && (phase == CREATED && !j.lost ==> MadeSince(j.calls))
  }

  ghost predicate CallAnswered(j: Joint, i: nat)
    requires i < |j.calls|
  {
    StatefulMediator.Reserves(j.calls[i]) && j.calls[i].reserved.value.Some? ==>
      exists p :: Answers(j, p, j.calls[i].reserved.value.value)
  }

  ghost predicate OwnsHold(j: Joint) {
    && j.answered <= j.own && (j.current.Some? ==> j.current.value in j.answered)
    && (forall p {:trigger OwnHolds(j, p)} :: p in j.own ==> OwnHolds(j, p))
    && (forall i: nat {:trigger CallAnswered(j, i)} :: i < |j.calls| ==> CallAnswered(j, i))
    && StatefulMediator.FreshLocks(j.calls)
  }

  ghost predicate JointHolds(j: Joint) {
    OwnsHold(j) && RememberedHolds(j)
  }

  /** Past its answer a reservation keeps its lock id, and only its own create or release moves it on. */
  lemma OwnStays(s: State, e: Event, p: ProcId)
    requires Safe(s) && p in s.procs && s.procs[p].kind == RESERVE
    ensures p in Step(s, e).procs
    ensures var x, y := s.procs[p], Step(s, e).procs[p];
            && y.kind == RESERVE && y.service == x.service
            && (x.phase in {GRANTED, CREATED, RELEASED, REFUSED} ==>
                  && y.lock == x.lock && y.phase in {GRANTED, CREATED, RELEASED, REFUSED}
                  && (y.phase == x.phase || (e.Create? && e.p == p && y.phase == CREATED)
                                         || (e.Release? && e.p == p && y.phase == RELEASED)))
            && (x.phase !in {CREATED, RELEASED} && y.phase in {CREATED, RELEASED} ==>
                  (e.Create? || e.Release?) && e.p == p)
  {
    if Can(s, e) && !Acts(e, p) {
      OthersWait(s, e, p);
    }
  }

  /** Only reservations that were answered are used to create or delete. */
  predicate IsInOrder(j: Joint, e: Event) {
    (e.Create? || e.Release?) && e.p in j.own ==> e.p in j.answered
  }

  lemma ServedKeepsOwns(j: Joint, e: Event)
    requires Safe(j.s) && OwnsHold(j) && IsInOrder(j, e)
    ensures OwnsHold(Served(j, e))
  {
    var k := Served(j, e);
    forall p | p in j.own
      ensures OwnHolds(k, p)
    {
      assert OwnHolds(j, p);
      OwnStays(j.s, e, p);
    }
    forall i: nat | i < |k.calls|
      ensures CallAnswered(k, i)
    {
      assert CallAnswered(j, i);
      if StatefulMediator.Reserves(j.calls[i]) && j.calls[i].reserved.value.Some? {
        var p :| Answers(j, p, j.calls[i].reserved.value.value);
        assert OwnHolds(j, p);
        OwnStays(j.s, e, p);
        assert Answers(k, p, j.calls[i].reserved.value.value);
      }
    }
  }

  /** Events of others leave the remembered lock with its reservation. */
  lemma OthersKeepHolds(j: Joint, e: Event)
    requires Safe(j.s) && JointHolds(j) && IsOthers(j, e)
    ensures JointHolds(Served(j, e))
  {
    ServedKeepsOwns(j, e);
    if j.session.lockId.Some? {
      assert OwnHolds(j, j.current.value);
      OwnStays(j.s, e, j.current.value);
    }
  }

  lemma AskKeepsHolds(j: Joint, p: ProcId)
    requires Safe(j.s) && JointHolds(j)
    ensures JointHolds(Moved(j, Ask(p)))
  {
    if p !in j.s.procs {
      OthersKeepHolds(j, BeginReserve(p, j.session.serviceId));
      var k := Served(j, BeginReserve(p, j.session.serviceId));
      var u := Moved(j, Ask(p));
      forall q | q in u.own
        ensures OwnHolds(u, q)
      {
        assert q in j.own ==> OwnHolds(k, q);
      }
      SameAnswers(k, u);
    }
  }

  lemma SameAnswers(k: Joint, u: Joint)
    requires OwnsHold(k) && u.s == k.s && k.answered <= u.answered && u.calls == k.calls
    ensures forall i: nat :: i < |u.calls| ==> CallAnswered(u, i)
  {
    forall i: nat | i < |u.calls|
      ensures CallAnswered(u, i)
    {
      assert CallAnswered(k, i);
      if StatefulMediator.Reserves(k.calls[i]) && k.calls[i].reserved.value.Some? {
        var p :| Answers(k, p, k.calls[i].reserved.value.value);
        assert Answers(u, p, k.calls[i].reserved.value.value);
      }
    }
  }

  // -------------------------------------------------------------------- what calls keep

  lemma ToldKeepsOwns(j: Joint, c: Call)
    requires OwnsHold(j) && !StatefulMediator.Reserves(c)
    ensures OwnsHold(Told(j, c))
  {
    var k := Told(j, c);
    forall p | p in k.own
      ensures OwnHolds(k, p)
    {
      assert OwnHolds(j, p);
    }
    forall i: nat | i < |k.calls|
      ensures CallAnswered(k, i)
    {
      if i < |j.calls| {
        assert CallAnswered(j, i) && k.calls[i] == j.calls[i];
        if StatefulMediator.Reserves(j.calls[i]) && j.calls[i].reserved.value.Some? {
          var p :| Answers(j, p, j.calls[i].reserved.value.value);
          assert Answers(k, p, j.calls[i].reserved.value.value);
        }
      }
    }
  }

  lemma MadeSinceStays(cs: seq<Call>, c: Call)
    requires !StatefulMediator.Reserves(c) && (MadeSince(cs) || StatefulMediator.Makes(c))
    ensures MadeSince(cs + [c])
  {
    var ds := cs + [c];
    if StatefulMediator.Makes(c) {
      assert MadeLast(ds, |cs|);
    } else {
      var k :| 0 <= k < |cs| && MadeLast(cs, k);
      assert MadeLast(ds, k);
    }
  }

  lemma ToldKeepsHolds(j: Joint, c: Call)
    requires JointHolds(j) && !StatefulMediator.Reserves(c)
    ensures JointHolds(Told(j, c))
  {
    ToldKeepsOwns(j, c);
    if MadeSince(j.calls) {
      MadeSinceStays(j.calls, c);
    }
    if Told(j, c).session.lockId.Some? {
      assert Answers(j, j.current.value, j.session.lockId.value);
      assert Answers(Told(j, c), j.current.value, j.session.lockId.value);
    }
  }

  /** No earlier answer named the lock of a reservation that has not been answered yet. */
  lemma UnansweredIsFresh(j: Joint, p: ProcId, i: nat)
    requires Safe(j.s) && OwnsHold(j) && p in j.own - j.answered && i < |j.calls|
    requires StatefulMediator.Reserves(j.calls[i]) && j.calls[i].reserved.value.Some?
    ensures p in j.s.procs && j.calls[i].reserved.value != j.s.procs[p].lock
  {
    assert OwnHolds(j, p) && CallAnswered(j, i);
    var q :| Answers(j, q, j.calls[i].reserved.value.value);
    assert PairHolds(j.s, q, p);
  }

  lemma HearGranted(j: Joint, p: ProcId, error: Error)
    requires Safe(j.s) && JointHolds(j)
    requires p in j.own - j.answered && p in j.s.procs && j.s.procs[p].phase == GRANTED
    ensures JointHolds(Moved(j, Hear(p, error)))
  {
    var u := Moved(j, Hear(p, error));
    assert OwnHolds(j, p) && ProcHolds(j.s, p);
    forall q | q in u.own
      ensures OwnHolds(u, q)
    {
      assert OwnHolds(j, q);
    }
    SameAnswers(j, j.(answered := u.answered));
    forall i: nat | i < |u.calls|
      ensures CallAnswered(u, i)
    {
      if i < |j.calls| {
        assert CallAnswered(j.(answered := u.answered), i);
        if StatefulMediator.Reserves(j.calls[i]) && j.calls[i].reserved.value.Some? {
          var q :| Answers(j.(answered := u.answered), q, j.calls[i].reserved.value.value);
          assert Answers(u, q, j.calls[i].reserved.value.value);
        }
      } else if u.session.lockId.Some? {
        assert Answers(u, p, u.session.lockId.value);
      }
    }
    forall i, k | 0 <= i < k < |u.calls| && u.calls[i].ReserveAccess? && StatefulMediator.Reserves(u.calls[i])
                  && StatefulMediator.Reserves(u.calls[k]) && u.calls[i].reserved.value.Some?
      ensures u.calls[i].reserved != u.calls[k].reserved
    {
      if k == |j.calls| {
        UnansweredIsFresh(j, p, i);
      }
    }
    if u.session.lockId.Some? {
      assert Answers(u, p, u.session.lockId.value);
    }
  }

  lemma HearKeepsHolds(j: Joint, p: ProcId, error: Error)
    requires Safe(j.s) && JointHolds(j)
    ensures JointHolds(Moved(j, Hear(p, error)))
  {
    if p in j.own - j.answered && p in j.s.procs {
      if j.s.procs[p].phase == GRANTED {
        HearGranted(j, p, error);
      } else if j.s.procs[p].phase == REFUSED {
        var k := j.(answered := j.answered + {p});
        forall q | q in k.own
          ensures OwnHolds(k, q)
        {
          assert OwnHolds(j, q);
        }
        SameAnswers(j, k);
        if j.session.lockId.Some? {
          assert Answers(k, j.current.value, j.session.lockId.value);
        }
        ToldKeepsHolds(k, Call.ReserveAccess(Failure(error)));
      }
    }
  }

  /** What the session's own creation does to its current reservation. */
  lemma CreateServed(j: Joint, state: nat, metadata: Option<Metadata>)
    requires Safe(j.s) && JointHolds(j)
    ensures var k := Served(j, CreateEvent(j, state, metadata));
            && OwnsHold(k)
            && (j.session.lockId.Some? ==>
                  && Answers(k, j.current.value, j.session.lockId.value)
                  && var x, y := j.s.procs[j.current.value].phase, k.s.procs[j.current.value].phase;
                     y == x || (y == CREATED && x == GRANTED && CreateReply(j, state, metadata).Success?))
  {
    var e := CreateEvent(j, state, metadata);
    ServedKeepsOwns(j, e);
    if j.session.lockId.Some? {
      assert OwnHolds(j, j.current.value);
      OwnStays(j.s, e, j.current.value);
    }
  }

  lemma CreateKeepsHolds(j: Joint, state: nat, metadata: Option<Metadata>, delivery: Delivery)
    requires Safe(j.s) && JointHolds(j)
    ensures JointHolds(Moved(j, CallCreate(state, metadata, delivery)))
  {
    var call := Call.CreateAction(state, metadata, Heard(CreateReply(j, state, metadata), delivery));
    if delivery == NOT_SENT {
      ToldKeepsHolds(j, call);
    } else {
      CreateServed(j, state, metadata);
      var k := Served(j, CreateEvent(j, state, metadata)).(lost := j.lost || delivery == ANSWER_LOST);
      SameOwns(Served(j, CreateEvent(j, state, metadata)), k);
      ToldKeepsOwns(k, call);
      var u := Told(k, call);
      if MadeSince(j.calls) || StatefulMediator.Makes(call) {
        MadeSinceStays(j.calls, call);
      }
      if u.session.lockId.Some? {
        assert Answers(k, j.current.value, j.session.lockId.value);
        assert Answers(u, j.current.value, j.session.lockId.value);
      }
      assert u == Moved(j, CallCreate(state, metadata, delivery));
    }
  }

  lemma SameOwns(k: Joint, u: Joint)
    requires OwnsHold(k) && u == k.(lost := u.lost)
    ensures OwnsHold(u)
  {
    forall q | q in u.own
      ensures OwnHolds(u, q)
    {
      assert OwnHolds(k, q);
    }
    SameAnswers(k, u);
  }

  lemma UpdateKeepsHolds(j: Joint, params: UpdateParams, delivery: Delivery)
    requires Safe(j.s) && JointHolds(j)
    ensures JointHolds(Moved(j, CallUpdate(params, delivery)))
  {
    if j.session.actionId.None? {
      ToldKeepsHolds(j, Call.UpdateAction(params, Success(())));
    } else if delivery == NOT_SENT {
      ToldKeepsHolds(j, Call.UpdateAction(params, Failure(RemoteFailure)));
    } else {
      var a := j.session.actionId.value;
      OthersKeepHolds(j, Patch(a, params));
      var call := Call.UpdateAction(params, Heard(UpdateReply(j, a, params), delivery));
      ToldKeepsHolds(Served(j, Patch(a, params)), call);
    }
  }

  /** The session's delete names the lock of its current reservation, which it releases. */
  lemma RemoveServed(j: Joint)
    requires Safe(j.s) && JointHolds(j) && j.session.lockId.Some?
    ensures var l := j.session.lockId.value; var p := j.current.value; var k := Served(j, RemoveEvent(j, l));
            && OwnsHold(k) && p in j.s.procs && p in k.s.procs
            && Answers(k, p, l) && k.s.procs[p].phase == RELEASED
            && (l in j.s.locks <==> j.s.procs[p].phase in {GRANTED, CREATED})
            && k.s.locks == j.s.locks - {l}
  {
    var l := j.session.lockId.value;
    var p := j.current.value;
    assert OwnHolds(j, p) && ProcHolds(j.s, p);
    ServedKeepsOwns(j, RemoveEvent(j, l));
    OwnStays(j.s, RemoveEvent(j, l), p);
    if j.s.procs[p].phase == RELEASED {
      assert j.s.locks - {l} == j.s.locks;
    }
  }

  lemma RemoveKeepsHolds(j: Joint, delivery: Delivery)
    requires Safe(j.s) && JointHolds(j)
    ensures JointHolds(Moved(j, CallRemove(delivery)))
  {
    if j.session.lockId.None? {
      ToldKeepsHolds(j, Call.RemoveLock(Success(())));
    } else if delivery == NOT_SENT {
      ToldKeepsHolds(j, Call.RemoveLock(Failure(RemoteFailure)));
    } else {
      RemoveServed(j);
      var l := j.session.lockId.value;
      var call := Call.RemoveLock(Heard(RemoveReply(j, l), delivery));
      var k := Served(j, RemoveEvent(j, l)).(lost := j.lost || delivery == ANSWER_LOST);
      SameOwns(Served(j, RemoveEvent(j, l)), k);
      ToldKeepsOwns(k, call);
      var u := Told(k, call);
      if u.session.lockId.Some? {
        assert Answers(k, j.current.value, l);
        assert Answers(u, j.current.value, l);
      }
      assert u == Moved(j, CallRemove(delivery));
    }
  }

  lemma MoveKeepsHolds(j: Joint, m: Move)
    requires Safe(j.s) && JointHolds(j)
    ensures JointHolds(Moved(j, m))
  {
    match m
    case Ask(p) => AskKeepsHolds(j, p);
    case Hear(p, error) => HearKeepsHolds(j, p, error);
    case CallCreate(state, metadata, delivery) => CreateKeepsHolds(j, state, metadata, delivery);
    case CallUpdate(params, delivery) => UpdateKeepsHolds(j, params, delivery);
    case CallRemove(delivery) => RemoveKeepsHolds(j, delivery);
    case Other(e) =>
      if IsOthers(j, e) {
        OthersKeepHolds(j, e);
      }
  }

  /** A move serves at most one event and tells the session of at most one call. */
  lemma MoveShape(j: Joint, m: Move)
    ensures var u := Moved(j, m);
            && ((u.s == j.s && u.events == j.events) || exists e :: u.s == Step(j.s, e) && u.events == j.events + [e])
            && ((u.session == j.session && u.calls == j.calls)
                || exists c :: u.session == StatefulMediator.Next(j.session, c) && u.calls == j.calls + [c])
  {}

  lemma MoveTracks(start: State, service: Id, j: Joint, m: Move)
    requires j.s == Run(start, j.events)
    requires j.session == StatefulMediator.After(StatefulMediator.New(service), j.calls)
    ensures var u := Moved(j, m);
            u.s == Run(start, u.events) && u.session == StatefulMediator.After(StatefulMediator.New(service), u.calls)
  {
    var u := Moved(j, m);
    MoveShape(j, m);
    if e :| u.s == Step(j.s, e) && u.events == j.events + [e] {
      RunAppends(start, j.events, e);
    }
  }

  /** A joint run is a run of the protocol and a sequence of calls of the session, whatever the session
      calls, in whatever order answers arrive or are lost, and whatever others do in between. */
  lemma {:induction false} JointRunHolds(start: State, service: Id, ms: seq<Move>)
    requires Initial(start)
    ensures var j := JointRun(Opened(start, service), ms);
            && JointHolds(j) && Safe(j.s) && j.s == Run(start, j.events)
            && j.session == StatefulMediator.After(StatefulMediator.New(service), j.calls)
  {
    if ms == [] {
      RunIsSafe(start, []);
    } else {
      var before := ms[..|ms| - 1];
      JointRunHolds(start, service, before);
      var j := JointRun(Opened(start, service), before);
      MoveKeepsHolds(j, ms[|ms| - 1]);
      MoveTracks(start, service, j, ms[|ms| - 1]);
      RunIsSafe(start, Moved(j, ms[|ms| - 1]).events);
    }
  }

  // ---------------------------------------------------------------- main results

  /** The event of the run is the request the session sends. */
  ghost predicate Carries(s: State, e: Event, request: StatefulMediator.Request) {
    match request
    case PostReserve(service) => e.BeginReserve? && e.service == service
    case PostAction(params) =>
      || e == CreateOutside(params.serviceId, params.state, params.metadata)
      || (e.Create? && e.p in s.procs && s.procs[e.p].service == params.serviceId
          && e.state == params.state && e.metadata == params.metadata)
    case PatchAction(actionId, params) => e == Patch(actionId, params)
    case DeleteLock(lockId) =>
      if lockId in s.locks then e.Release? && Owns(s, e.p, lockId) else e == Elapse(0)
  }

  /** The call of a move, with an arbitrary answer: `Sent` does not depend on it. */
  function Calls(m: Move): Option<Call> {
    match m
    case Ask(_) => Some(Call.ReserveAccess(Failure(RemoteFailure)))
    case CallCreate(state, metadata, delivery) =>
      if delivery == NOT_SENT then None else Some(Call.CreateAction(state, metadata, Failure(RemoteFailure)))
    case CallUpdate(params, delivery) =>
      if delivery == NOT_SENT then None else Some(Call.UpdateAction(params, Failure(RemoteFailure)))
    case CallRemove(delivery) =>
      if delivery == NOT_SENT then None else Some(Call.RemoveLock(Failure(RemoteFailure)))
    case _ => None
  }

  /** A session that hears its reservation granted remembers the lock it was granted, and there is one
      whenever the service has blockees; a refusal leaves what it remembers. */
  lemma {:induction false} SessionKeepsUp(start: State, service: Id, ms: seq<Move>, p: ProcId, error: Error)
    requires Initial(start)
    requires var j := JointRun(Opened(start, service), ms);
             p in j.own - j.answered && p in j.s.procs && j.s.procs[p].phase in {GRANTED, REFUSED}
    ensures var j := JointRun(Opened(start, service), ms); var u := Moved(j, Hear(p, error));
            && (j.s.procs[p].phase == GRANTED ==> u.session.lockId == j.s.procs[p].lock && u.current == Some(p))
            && (j.s.procs[p].phase == REFUSED ==> u.session.lockId == j.session.lockId)
            && (j.s.procs[p].phase == GRANTED ==>
                  Blockees(j.s.db.blocks, j.s.procs[p].service) != {} ==> u.session.lockId.Some?)
  {
    JointRunHolds(start, service, ms);
    var j := JointRun(Opened(start, service), ms);
    assert OwnHolds(j, p) && ProcHolds(j.s, p);
  }

  lemma CreationAdds(s: State, service: Id, state: nat, metadata: Option<Metadata>)
    ensures var answer := CreationAnswer(s, service, state, metadata);
            answer.Success? ==>
              && |answer.value| == |s.table| + 1
              && answer.value[|s.table|].serviceId == service && answer.value[|s.table|].status == ACTIVE
  {
    DetailedExactly(s.db, service);
    if Detailed(s.db, service).Success? {
      CreatedExactly(s.table, ActionParams(service, state, metadata), Detailed(s.db, service).value, s.now);
    }
  }

  lemma CreateServes(j: Joint, state: nat, metadata: Option<Metadata>)
    requires JointHolds(j)
    ensures var answer := CreationAnswer(j.s, j.session.serviceId, state, metadata);
            Step(j.s, CreateEvent(j, state, metadata)).table == if answer.Success? then answer.value else j.s.table
  {
    if j.current.Some? {
      assert OwnHolds(j, j.current.value);
    }
  }

  /** A creation whose answer arrives: if it added a row, that is the session's service's, active, and the
      session remembers it; if not, the call fails and the session remembers what it did. */
  lemma {:induction false} CreationIsHeard(
    start: State, service: Id, ms: seq<Move>, state: nat, metadata: Option<Metadata>)
    requires Initial(start)
    ensures var j := JointRun(Opened(start, service), ms); var u := Moved(j, CallCreate(state, metadata, ANSWERED));
            var n := |j.s.table|;
            if u.s.table == j.s.table
            then && u.calls == j.calls + [u.calls[|j.calls|]] && u.calls[|j.calls|].CreateAction?
                 && u.calls[|j.calls|].created.Failure? && u.session == j.session
            else && |u.s.table| == n + 1 && u.s.table[n].serviceId == service && u.s.table[n].status == ACTIVE
                 && u.calls == j.calls + [Call.CreateAction(state, metadata, Success(n))]
                 && u.session == j.session.(actionId := Some(n))
  {
    JointRunHolds(start, service, ms);
    SessionKeepsService(start, service, ms);
    var j := JointRun(Opened(start, service), ms);
    CreationAdds(j.s, service, state, metadata);
    CreateServes(j, state, metadata);
  }

  /** A patch whose answer arrives succeeds exactly when the remembered action was still active. */
  lemma UpdateIsHeard(j: Joint, params: UpdateParams)
    requires j.session.actionId.Some?
    ensures var u := Moved(j, CallUpdate(params, ANSWERED)); var a := j.session.actionId.value;
            && |u.calls| == |j.calls| + 1 && u.calls[|j.calls|].UpdateAction? && u.session == j.session
            && (u.calls[|j.calls|].updated.Success? <==> a < |j.s.table| && j.s.table[a].status == ACTIVE)
  {
    UpdatedExactly(j.s.table, j.session.actionId.value, params, j.s.now);
  }

  /** A call of the session makes the event that its request, as `Sent` has it, stands for, and no
      event when it sends nothing. In particular every delete that finds a lock row is a release of
      the session's own request. */
  lemma {:induction false} EventsAreRequests(start: State, service: Id, ms: seq<Move>, m: Move)
    requires Initial(start) && Calls(m).Some?
    requires m.Ask? ==> m.p !in JointRun(Opened(start, service), ms).s.procs
    ensures var j := JointRun(Opened(start, service), ms); var u := Moved(j, m);
            match StatefulMediator.Sent(j.session, Calls(m).value)
            case None => u.events == j.events
            case Some(request) => exists e :: Carries(j.s, e, request) && u.events == j.events + [e]
  {
    JointRunHolds(start, service, ms);
    var j := JointRun(Opened(start, service), ms);
    MoveCarries(j, m);
  }

  lemma CreateCarries(j: Joint, state: nat, metadata: Option<Metadata>)
    requires JointHolds(j)
    ensures Carries(j.s, CreateEvent(j, state, metadata),
                    StatefulMediator.PostAction(ActionParams(j.session.serviceId, state, metadata)))
  {
    if j.current.Some? {
      assert OwnHolds(j, j.current.value);
    }
  }

  lemma RemoveCarries(j: Joint)
    requires Safe(j.s) && JointHolds(j) && j.session.lockId.Some?
    ensures var l := j.session.lockId.value; Carries(j.s, RemoveEvent(j, l), StatefulMediator.DeleteLock(l))
  {
    RemoveServed(j);
    assert OwnHolds(j, j.current.value) && ProcHolds(j.s, j.current.value);
  }

  lemma MoveCarries(j: Joint, m: Move)
    requires Safe(j.s) && JointHolds(j) && Calls(m).Some? && (m.Ask? ==> m.p !in j.s.procs)
    ensures var u := Moved(j, m);
            match StatefulMediator.Sent(j.session, Calls(m).value)
            case None => u.events == j.events
            case Some(request) => exists e :: Carries(j.s, e, request) && u.events == j.events + [e]
  {
    match m
    case Ask(p) =>
      assert Carries(j.s, BeginReserve(p, j.session.serviceId), StatefulMediator.PostReserve(j.session.serviceId));
    case CallCreate(state, metadata, _) => CreateCarries(j, state, metadata);
    case CallUpdate(params, _) =>
      if j.session.actionId.Some? {
        var a := j.session.actionId.value;
        assert Carries(j.s, Patch(a, params), StatefulMediator.PatchAction(a, params));
      }
    case CallRemove(_) =>
      if j.session.lockId.Some? {
        RemoveCarries(j);
      }
  }

  /** locky never hands a session the same lock twice, so after a delete that was answered with
      success the session sends no delete for that lock again, in any joint run. */
  lemma {:induction false} NoSecondDeleteEver(start: State, service: Id, ms: seq<Move>, m: nat, n: nat, lockId: LockId)
    requires Initial(start)
    requires var cs := JointRun(Opened(start, service), ms).calls;
             && m < n < |cs| && StatefulMediator.Removes(cs[m])
             && StatefulMediator.SentAt(service, cs, m) == Some(StatefulMediator.DeleteLock(lockId))
    ensures var cs := JointRun(Opened(start, service), ms).calls;
            && StatefulMediator.FreshLocks(cs)
            && StatefulMediator.SentAt(service, cs, n) != Some(StatefulMediator.DeleteLock(lockId))
  {
    JointRunHolds(start, service, ms);
    StatefulMediator.NoSecondDelete(service, JointRun(Opened(start, service), ms).calls, m, n, lockId);
  }

  lemma RemoveWorks(j: Joint)
    requires Safe(j.s) && JointHolds(j) && j.session.lockId.Some? && !j.lost
    ensures var p, l := j.current.value, j.session.lockId.value; var u := Moved(j, CallRemove(ANSWERED));
            && p in j.own && Owns(j.s, p, l) && Can(j.s, Release(p))
            && u.s.locks == j.s.locks - {l} && u.s.table == j.s.table && u.session.lockId.None?
  {
    RemoveServed(j);
    assert OwnHolds(j, j.current.value) && ProcHolds(j.s, j.current.value);
  }

  lemma CreateWorks(j: Joint, state: nat, metadata: Option<Metadata>)
    requires JointHolds(j) && j.session.lockId.Some? && !j.lost && !MadeSince(j.calls)
    requires j.session.lockId.value in j.s.locks && Live(j.s.locks[j.session.lockId.value], j.s.now)
    requires j.s.procs[j.current.value].phase != RELEASED
    ensures var p := j.current.value;
            && Can(j.s, Create(p, state, metadata)) && CreateEvent(j, state, metadata) == Create(p, state, metadata)
  {
    assert OwnHolds(j, j.current.value);
  }

  /** As long as no answer was lost, the remembered lock is held by the session's own reservation, and
      a delete of it succeeds and removes that row alone. If that lock is live and nothing was created
      since it was reserved, a creation sent now is an enabled, compliant creation under it. */
  lemma {:induction false} RememberedLockIsHeld(
    start: State, service: Id, ms: seq<Move>, state: nat, metadata: Option<Metadata>)
    requires Initial(start)
    requires var j := JointRun(Opened(start, service), ms); j.session.lockId.Some? && !j.lost
    ensures var j := JointRun(Opened(start, service), ms); var l := j.session.lockId.value;
            && j.current.Some? && j.current.value in j.own && Owns(j.s, j.current.value, l)
            && Can(j.s, Release(j.current.value))
            && var u := Moved(j, CallRemove(ANSWERED));
            && u.s.locks == j.s.locks - {l} && u.s.table == j.s.table && u.session.lockId.None?
            && (l in j.s.locks && Live(j.s.locks[l], j.s.now) && !MadeSince(j.calls) ==>
                  && CreateEvent(j, state, metadata) == Create(j.current.value, state, metadata)
                  && Can(j.s, Create(j.current.value, state, metadata)))
  {
    JointRunHolds(start, service, ms);
    var j := JointRun(Opened(start, service), ms);
    RemoveWorks(j);
    var l := j.session.lockId.value;
    if l in j.s.locks && Live(j.s.locks[l], j.s.now) && !MadeSince(j.calls) {
      CreateWorks(j, state, metadata);
    }
  }

  lemma {:induction false} JointJoins(j: Joint, a: seq<Move>, b: seq<Move>)
    ensures JointRun(j, a + b) == JointRun(JointRun(j, a), b)
  {
    if b == [] {
      assert a + b == a;
    } else {
      var before := b[..|b| - 1];
      JointJoins(j, a, before);
      assert (a + b)[..|a + b| - 1] == a + before;
    }
  }

  lemma {:induction false} OthersLeaveSession(j: Joint, others: seq<Move>)
    requires forall m :: m in others ==> m.Other?
    ensures var v := JointRun(j, others);
            v.session == j.session && v.lost == j.lost && v.current == j.current && v.own == j.own && v.calls == j.calls
  {
    if others != [] {
      assert others[|others| - 1] in others;
      OthersLeaveSession(j, others[..|others| - 1]);
    }
  }

  lemma CreateActivates(j: Joint, state: nat, metadata: Option<Metadata>)
    requires Safe(j.s) && JointHolds(j) && j.session.lockId.Some?
    requires LockIsLive(j.s, j.current.value) && j.s.procs[j.current.value].phase == GRANTED
    requires CreateReply(j, state, metadata).Success?
    ensures var k := Moved(j, CallCreate(state, metadata, ANSWERED)); var p := j.current.value;
            && k.current == j.current && k.lost == j.lost && k.session.lockId == j.session.lockId
            && ActiveBy(k.s, p) && k.session.actionId == k.s.procs[p].action == Some(|j.s.table|)
  {
    assert OwnHolds(j, j.current.value);
  }

  /** Reserve, create, remove, after any earlier calls: if the lock of a reservation under which nothing
      was created yet is live at creation, then the action the session remembers is active and made
      under that reservation; through whatever others do, the lock stays held until the session deletes
      it; and then that row alone goes. */
  lemma {:induction false} ReserveCreateRemoveComplies(
    start: State, service: Id, ms: seq<Move>, state: nat, metadata: Option<Metadata>, others: seq<Move>)
    requires Initial(start) && forall m :: m in others ==> m.Other?
    requires var j := JointRun(Opened(start, service), ms);
             && j.session.lockId.Some? && !j.lost && !MadeSince(j.calls) && CreateReply(j, state, metadata).Success?
             && j.session.lockId.value in j.s.locks && Live(j.s.locks[j.session.lockId.value], j.s.now)
    ensures var j := JointRun(Opened(start, service), ms);
            var k := Moved(j, CallCreate(state, metadata, ANSWERED));
            var v := JointRun(k, others); var u := Moved(v, CallRemove(ANSWERED));
            && j.current.Some?
            && var p, l := j.current.value, j.session.lockId.value;
            && ActiveBy(k.s, p) && k.session.actionId == k.s.procs[p].action && k.s.procs[p].service == service
            && Owns(v.s, p, l) && u.s.locks == v.s.locks - {l} && u.s.table == v.s.table && u.session.lockId.None?
  {
    RememberedLockIsHeld(start, service, ms, state, metadata);
    JointRunHolds(start, service, ms);
    var j := JointRun(Opened(start, service), ms);
    CreateActivates(j, state, metadata);
    var create := CallCreate(state, metadata, ANSWERED);
    var k := Moved(j, create);
    assert (ms + [create])[..|ms|] == ms;
    JointRunHolds(start, service, ms + [create]);
    assert OwnHolds(k, j.current.value);
    JointJoins(Opened(start, service), ms + [create], others);
    OthersLeaveSession(k, others);
    RememberedLockIsHeld(start, service, ms + [create] + others, state, metadata);
    SessionKeepsService(start, service, ms + [create]);
  }

  lemma SessionKeepsService(start: State, service: Id, ms: seq<Move>)
    requires Initial(start)
    ensures JointRun(Opened(start, service), ms).session.serviceId == service
  {
    JointRunHolds(start, service, ms);
    var cs := JointRun(Opened(start, service), ms).calls;
    StatefulMediator.SessionRemembersLatest(service, cs, |cs|);
    assert cs[..|cs|] == cs;
  }

  lemma LockCoversBlockees(s: State, p: ProcId, q: ProcId)
    requires Safe(s) && p in s.procs && LockIsLive(s, p)
    ensures Can(s, Check(q)) && s.procs[q].Checks() * s.procs[p].target != {} ==>
              Step(s, Check(q)).procs[q].phase == REFUSED
  {
    assert ProcHolds(s, p);
    if Can(s, Check(q)) {
      LiveLockIsSeen(s, p, s.procs[q].Checks());
    }
  }

  lemma ActionIsSeen(s: State, p: ProcId, q: ProcId, remote: Reply)
    requires Safe(s) && ActiveBy(s, p) && s.procs[p].service !in s.external
    ensures Can(s, Poll(q, s.procs[p].service, remote)) ==>
              Step(s, Poll(q, s.procs[p].service, remote)).procs[q].phase == UNDOING
  {
    assert ProcHolds(s, p);
    assert IsActiveOf(s.table[s.procs[p].action.value], s.procs[p].service);
  }

  /** Protection passes from the lock to the action without a gap: up to and including the state with
      both, every check of a blockee is refused; from that state on, as long as the action is active,
      whatever else happens, every reservation or rotation that polls its service is turned down. */
  lemma {:induction false} ProtectionIsHandedOver(
    start: State, es: seq<Event>, more: seq<Event>, p: ProcId, q: ProcId,
    state: nat, metadata: Option<Metadata>, remote: Reply)
    requires Initial(start)
    requires var s := Run(start, es);
             && p in s.procs && s.procs[p].kind == RESERVE && s.procs[p].phase == GRANTED && LockIsLive(s, p)
             && CreationAnswer(s, s.procs[p].service, state, metadata).Success?
    ensures var s := Run(start, es); var t := Step(s, Create(p, state, metadata)); var v := Run(t, more);
            && ActiveBy(t, p)
            && (Can(s, Check(q)) && s.procs[q].Checks() * s.procs[p].target != {} ==>
                  Step(s, Check(q)).procs[q].phase == REFUSED)
            && (Can(t, Check(q)) && t.procs[q].Checks() * s.procs[p].target != {} ==>
                  Step(t, Check(q)).procs[q].phase == REFUSED)
            && (ActiveBy(v, p) && v.procs[p].service !in v.external && Can(v, Poll(q, v.procs[p].service, remote)) ==>
                  Step(v, Poll(q, v.procs[p].service, remote)).procs[q].phase == UNDOING)
  {
    var s := Run(start, es);
    var t := Step(s, Create(p, state, metadata));
    RunIsSafe(start, es);
    StepKeepsSafe(s, Create(p, state, metadata));
    LockCoversBlockees(s, p, q);
    LockCoversBlockees(t, p, q);
    RunAppends(start, es, Create(p, state, metadata));
    RunJoins(start, es + [Create(p, state, metadata)], more);
    RunIsSafe(start, es + [Create(p, state, metadata)] + more);
    var v := Run(t, more);
    if ActiveBy(v, p) && v.procs[p].service !in v.external {
      ActionIsSeen(v, p, q, remote);
    }
  }
}
