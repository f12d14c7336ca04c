/** Check and insert are not one step, and that can lose exclusion from every initial state. */
module Race {
  import opened Common
  import opened Actions
  import opened Locks
  import opened Registry
  import opened Protocol
  import opened ProtocolSafety
  import opened Exclusion
  import opened Polling
  import opened SideBySide

  lemma {:induction false} SomeOrder(services: set<Id>) returns (order: seq<Id>)
    ensures Elements(order) == services
    decreases services
  {
    if services == {} {
      order := [];
    } else {
      var d :| d in services;
      var rest := SomeOrder(services - {d});
      order := rest + [d];
      assert Elements(order) == Elements(rest) + {d};
    }
  }

  /** Both begin and both check. */
  function Opening(a: Id, b: Id): seq<Event> {
    [BeginReserve(0, a), BeginReserve(1, b)] + [Check(0), Check(1)]
  }

  lemma BeginTwo(start: State, a: Id, b: Id)
    requires Initial(start)
    ensures var s := Run(start, [BeginReserve(0, a), BeginReserve(1, b)]);
            && s.procs == map[0 := Begun(RESERVE, a, {}, None), 1 := Begun(RESERVE, b, {}, None)]
            && SameTables(start, s) && s.reserveLockExpiration == start.reserveLockExpiration
  {
    FirstTwo(start, BeginReserve(0, a), BeginReserve(1, b));
  }

  lemma OpeningRun(start: State, a: Id, b: Id)
    requires Initial(start)
    ensures var s := Run(start, Opening(a, b));
            && 0 in s.procs && s.procs[0].kind == RESERVE && s.procs[0].service == a && s.procs[0].phase == CHECKED
            && 1 in s.procs && s.procs[1].kind == RESERVE && s.procs[1].service == b && s.procs[1].phase == CHECKED
            && SameTables(start, s) && s.reserveLockExpiration == start.reserveLockExpiration
  {
    BeginTwo(start, a, b);
    var begun := Run(start, [BeginReserve(0, a), BeginReserve(1, b)]);
    RunJoins(start, [BeginReserve(0, a), BeginReserve(1, b)], [Check(0), Check(1)]);
    FirstTwo(begun, Check(0), Check(1));
  }

  /** Nobody in the run creates without a reservation. */
  predicate Compliant(es: seq<Event>) {
    forall e :: e in es ==> !e.CreateOutside?
  }

  lemma {:induction false} PollsComply(p: ProcId, order: seq<Id>, remote: map<Id, Reply>)
    requires Elements(order) <= remote.Keys
    ensures Compliant(Polls(p, order, remote))
  {
    if order != [] {
      var before := order[..|order| - 1];
      assert order == before + [order[|order| - 1]];
      assert Elements(order) == Elements(before) + {order[|order| - 1]};
      PollsComply(p, before, remote);
    }
  }

  lemma ActiveByIsActive(s: State, p: ProcId)
    requires Safe(s) && ActiveBy(s, p)
    ensures HasActive(s.table, s.procs[p].service)
  {
    assert ProcHolds(s, p);
    assert IsActiveOf(s.table[s.procs[p].action.value], s.procs[p].service);
  }

  lemma {:induction false} RaceRun(start: State, a: Id, b: Id, forA: seq<Id>, forB: seq<Id>, remote: map<Id, Reply>)
    requires Initial(start) && start.reserveLockExpiration > 0
    requires a != b && BlockEachOther(start, a, b) && a !in start.external && b !in start.external
    requires Detailed(start.db, a).Success? && Detailed(start.db, b).Success?
    requires Elements(forA) == Blockees(start.db.blocks, a) && Elements(forA) <= remote.Keys
    requires Elements(forB) == Blockees(start.db.blocks, b) && Elements(forB) <= remote.Keys
    requires forall d :: d in remote ==> remote[d] == Idle
    ensures var u := Run(start, Opening(a, b) + Finish(0, 1, forA, forB, remote, 0, None));
            HasActive(u.table, a) && HasActive(u.table, b)
  {
    var opening := Opening(a, b);
    var finish := Finish(0, 1, forA, forB, remote, 0, None);
    RunIsSafe(start, opening);
    OpeningRun(start, a, b);
    OverlapLosesExclusion(Run(start, opening), 0, 1, forA, forB, remote, 0, None);
    RunJoins(start, opening, finish);
    RunIsSafe(start, opening + finish);
    ActiveByIsActive(Run(start, opening + finish), 0);
    ActiveByIsActive(Run(start, opening + finish), 1);
  }

  /** Exclusion can be lost everywhere: from any initial state, any two services known to registry
      that block each other are both active after some run in which every client is compliant. */
  lemma {:induction false} ExclusionCanFail(start: State, a: Id, b: Id)
    requires Initial(start) && start.reserveLockExpiration > 0
    requires a != b && BlockEachOther(start, a, b) && a !in start.external && b !in start.external
    requires Detailed(start.db, a).Success? && Detailed(start.db, b).Success?
    ensures exists es :: Compliant(es) && HasActive(Run(start, es).table, a) && HasActive(Run(start, es).table, b)
  {
    var forA := SomeOrder(Blockees(start.db.blocks, a));
    var forB := SomeOrder(Blockees(start.db.blocks, b));
    var remote := map d | d in Elements(forA) + Elements(forB) :: Idle;
    PollsComply(0, forA, remote);
    PollsComply(1, forB, remote);
    assert Compliant(Opening(a, b) + Finish(0, 1, forA, forB, remote, 0, None));
    RaceRun(start, a, b, forA, forB, remote);
  }

  // ------------------------------------------------------- the smallest such state

  const ROW := Service(0, "", MULTIPLE, CONSUMER, None, [Rotation(None, 1)])
  const PAIR := Database(map[0 := ROW, 1 := ROW.(name := "b")], {(0, 1), (1, 0)}, map[0 := "main"], 2, 1)
  const START := State(PAIR, map[], 0, [], map[], {}, {}, 1000, 1000, 0, 0)

  /** Two roots that block each other and nothing else: the hypotheses above can be met. */
  lemma TwoRootsCanRace()
    ensures exists es :: Compliant(es) && HasActive(Run(START, es).table, 0) && HasActive(Run(START, es).table, 1)
  {
    var ss := PAIR.services;
    forall s | s in ss
      ensures ParentHolds(ss, s) && HistoryHolds(ss[s])
    {}
    forall s | s in ss
      ensures EdgeHolds(ss, s)
    {}
    ExclusionCanFail(START, 0, 1);
  }
}
