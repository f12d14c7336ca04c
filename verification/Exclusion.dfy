/** What the protocol guarantees in every reachable state: mutual exclusion of services that block
    each other, and disjoint lock requests. */
module Exclusion {
  import opened Common
  import opened Actions
  import opened Locks
  import opened Registry
  import opened Protocol
  import opened ProtocolSafety

  /** The action the request created is still active. */
  predicate ActiveBy(s: State, p: ProcId) {
    && p in s.procs && s.procs[p].action.Some?
    && s.procs[p].action.value < |s.table| && s.table[s.procs[p].action.value].status == ACTIVE
  }

  /** Both have inserted a lock, and each inserted it only after the other had checked. */
  predicate WindowsOverlap(x: Proc, y: Proc) {
    && x.checkAt.Some? && x.insertAt.Some? && y.checkAt.Some? && y.insertAt.Some?
    && x.checkAt.value < y.insertAt.value && y.checkAt.value < x.insertAt.value
  }

  predicate BlockEachOther(s: State, a: Id, b: Id) {
    (a, b) in s.db.blocks && (b, a) in s.db.blocks
  }

  lemma NoLaterWindow(s: State, p: ProcId, q: ProcId)
    requires Safe(s) && ActiveBy(s, p) && ActiveBy(s, q)
    requires BlockEachOther(s, s.procs[p].service, s.procs[q].service)
    requires s.procs[p].service !in s.external && s.procs[q].service !in s.external
    ensures s.procs[p].insertAt.Some? && s.procs[q].checkAt.Some?
    ensures s.procs[q].checkAt.value < s.procs[p].insertAt.value
  {
    assert ProcHolds(s, p) && ProcHolds(s, q) && PairHolds(s, p, q);
    assert s.procs[q].service in s.procs[p].target * s.procs[q].Checks();
  }

  /** Mutual exclusion over all interleavings: when two compliant clients have active actions on
      services that block each other, the windows from own-lock check to lock insert overlapped. */
  lemma {:induction false} MutualExclusion(start: State, es: seq<Event>, p: ProcId, q: ProcId)
    requires Initial(start)
    requires var s := Run(start, es);
             && ActiveBy(s, p) && ActiveBy(s, q)
             && BlockEachOther(s, s.procs[p].service, s.procs[q].service)
             && s.procs[p].service !in s.external && s.procs[q].service !in s.external
    ensures WindowsOverlap(Run(start, es).procs[p], Run(start, es).procs[q])
  {
    RunIsSafe(start, es);
    NoLaterWindow(Run(start, es), p, q);
    NoLaterWindow(Run(start, es), q, p);
  }

  // ------------------------------------------------------------ lock requests

  predicate LiveTogether(s: State, p: ProcId, q: ProcId) {
    p != q && LockIsLive(s, p) && LockIsLive(s, q) && s.procs[p].target * s.procs[q].target != {}
  }

  /** When two live locks overlap and the later one was asked for through `lock`, by a client or by
      a rotation, the earlier one was inserted between its check and its insert. */
  lemma {:induction false} LockDiscipline(start: State, es: seq<Event>, p: ProcId, q: ProcId)
    requires Initial(start)
    requires var s := Run(start, es);
             && LiveTogether(s, p, q) && s.procs[q].kind != RESERVE
             && s.procs[p].insertAt.Some? && s.procs[q].insertAt.Some?
             && s.procs[p].insertAt.value < s.procs[q].insertAt.value
    ensures var x, y := Run(start, es).procs[p], Run(start, es).procs[q];
            y.checkAt.Some? && y.checkAt.value < x.insertAt.value < y.insertAt.value
  {
    RunIsSafe(start, es);
    var s := Run(start, es);
    assert ProcHolds(s, p) && ProcHolds(s, q) && PairHolds(s, p, q);
  }

  // ------------------------------------------------- check and insert as one step

  /** Events, and requests that go from check to insert with nothing in between (a lock request has
      no fetch to make, so that event does nothing for it). */
  datatype Whole = One(e: Event) | AtOnce(p: ProcId, answered: bool)
  {
    predicate IsAtomic() {
      One? ==> !e.Check? && !e.Fetch? && !e.Insert?
    }

    function Events(): seq<Event> {
      match this
      case One(e) => [e]
      case AtOnce(p, answered) => [Check(p), Fetch(p, answered), Insert(p)]
    }

    function Apply(s: State): State {
      match this
      case One(e) => Step(s, e)
      case AtOnce(p, answered) => Step(Step(Step(s, Check(p)), Fetch(p, answered)), Insert(p))
    }
  }

  function RunWhole(s: State, ws: seq<Whole>): State {
    if ws == [] then s else ws[|ws| - 1].Apply(RunWhole(s, ws[..|ws| - 1]))
  }

  function Flatten(ws: seq<Whole>): seq<Event> {
    if ws == [] then [] else Flatten(ws[..|ws| - 1]) + ws[|ws| - 1].Events()
  }

  lemma RunAppends(s: State, es: seq<Event>, e: Event)
    ensures Run(s, es + [e]) == Step(Run(s, es), e)
  {
    assert (es + [e])[..|es|] == es;
  }

  lemma {:induction false} RunJoins(s: State, a: seq<Event>, b: seq<Event>)
    ensures Run(s, a + b) == Run(Run(s, a), b)
  {
    if b == [] {
      assert a + b == a;
    } else {
      var before, last := b[..|b| - 1], b[|b| - 1];
      RunJoins(s, a, before);
      RunAppends(s, a + before, last);
      assert b == before + [last];
      assert a + before + [last] == a + b;
    }
  }

  lemma AppendThree(s: State, es: seq<Event>, a: Event, b: Event, c: Event)
    ensures Run(s, es + [a, b, c]) == Step(Step(Step(Run(s, es), a), b), c)
  {
    RunAppends(s, es, a);
    RunAppends(s, es + [a], b);
    RunAppends(s, es + [a] + [b], c);
    assert es + [a, b, c] == es + [a] + [b] + [c];
  }

  lemma WholeAppends(s: State, es: seq<Event>, w: Whole)
    ensures Run(s, es + w.Events()) == w.Apply(Run(s, es))
  {
    match w
    case One(e) => RunAppends(s, es, e);
    case AtOnce(p, answered) =>
      AppendThree(s, es, Check(p), Fetch(p, answered), Insert(p));
  }

  /** Atomic runs are runs of the protocol. */
  lemma {:induction false} RunWholeIsRun(s: State, ws: seq<Whole>)
    ensures RunWhole(s, ws) == Run(s, Flatten(ws))
  {
    if ws != [] {
      RunWholeIsRun(s, ws[..|ws| - 1]);
      WholeAppends(s, Flatten(ws[..|ws| - 1]), ws[|ws| - 1]);
    }
  }

  /** Between whole requests nobody stands between check and insert, and no two windows overlap. */
  ghost predicate WindowsSeparate(s: State) {
    && (forall p :: p in s.procs ==> s.procs[p].phase !in {CHECKED, FETCHED})
    && (forall p, q :: p in s.procs && q in s.procs && p != q ==> !WindowsOverlap(s.procs[p], s.procs[q]))
  }

  /** Neither a check time nor an insert time changes, and nobody comes to stand between the two. */
  lemma WindowStays(s: State, e: Event, p: ProcId)
    requires Safe(s) && Can(s, e) && !e.Check? && !e.Fetch? && !e.Insert? && p in Do(s, e).procs
    ensures var y := Do(s, e).procs[p];
            if p !in s.procs then y.phase == STARTED && y.insertAt.None?
            else && y.checkAt == s.procs[p].checkAt && y.insertAt == s.procs[p].insertAt
                 && (y.phase in {CHECKED, FETCHED} ==> s.procs[p].phase in {CHECKED, FETCHED})
  {
    if !Acts(e, p) {
      OthersWait(s, e, p);
    }
  }

  lemma {:induction false} OtherEventsKeepWindows(s: State, e: Event)
    requires Safe(s) && WindowsSeparate(s) && !e.Check? && !e.Fetch? && !e.Insert?
    ensures WindowsSeparate(Step(s, e))
  {
    if Can(s, e) {
      var u := Do(s, e);
      forall p | p in u.procs
        ensures u.procs[p].phase !in {CHECKED, FETCHED}
      {
        WindowStays(s, e, p);
      }
      forall p, q | p in u.procs && q in u.procs && p != q
        ensures !WindowsOverlap(u.procs[p], u.procs[q])
      {
        WindowStays(s, e, p);
        WindowStays(s, e, q);
      }
    }
  }

  /** The events of one request leave every other request as it is. */
  lemma OwnEventOnly(s: State, e: Event, p: ProcId)
    requires (e.Check? || e.Fetch? || e.Insert?) && e.p == p
    ensures Step(s, e).procs.Keys == s.procs.Keys
    ensures forall q :: q in s.procs && q != p ==> Step(s, e).procs[q] == s.procs[q]
  {}

  lemma FetchMoves(s: State, p: ProcId, answered: bool)
    requires p in s.procs
    ensures var x := s.procs[p]; var y := Step(s, Fetch(p, answered)).procs[p];
            && y.insertAt == x.insertAt && y.checkAt == x.checkAt && y.kind == x.kind
            && if x.phase == CHECKED && x.kind == RESERVE then y.phase in {REFUSED, GRANTED, FETCHED} else y == x
  {}

  lemma InsertMoves(s: State, p: ProcId)
    requires p in s.procs
    ensures var x := s.procs[p]; var y := Step(s, Insert(p)).procs[p];
            && y.checkAt == x.checkAt
            && if x.phase == (if x.kind == RESERVE then FETCHED else CHECKED) then y.phase in {POLLING, GRANTED}
               else y == x
  {}

  /** Fetch and insert together bring a request that has just checked out of its window. */
  lemma RestMoves(s: State, p: ProcId, answered: bool)
    requires p in s.procs && s.procs[p].phase != FETCHED
    ensures var u := Step(Step(s, Fetch(p, answered)), Insert(p));
            && p in u.procs && u.procs[p].checkAt == s.procs[p].checkAt && u.procs[p].phase !in {CHECKED, FETCHED}
            && (s.procs[p].phase != CHECKED ==> u.procs[p] == s.procs[p])
  {
    OwnEventOnly(s, Fetch(p, answered), p);
    FetchMoves(s, p, answered);
    InsertMoves(Step(s, Fetch(p, answered)), p);
  }

  /** A request served at once is past its insert, and any window it has begins now. */
  lemma WindowBeginsNow(s: State, p: ProcId, answered: bool)
    requires p in s.procs && s.procs[p].phase !in {CHECKED, FETCHED}
    ensures var u := AtOnce(p, answered).Apply(s);
            && p in u.procs && u.procs[p].phase !in {CHECKED, FETCHED}
            && ((u.procs[p].checkAt == s.procs[p].checkAt && u.procs[p].insertAt == s.procs[p].insertAt)
                || u.procs[p].insertAt.None? || u.procs[p].checkAt == Some(s.clock))
  {
    OwnEventOnly(s, Check(p), p);
    RestMoves(Step(s, Check(p)), p, answered);
  }

  /** A window that begins now comes after every window there is. */
  lemma LatestWindowIsSeparate(s: State, u: State, p: ProcId)
    requires Safe(s) && WindowsSeparate(s) && p in s.procs
    requires u.procs.Keys == s.procs.Keys && forall q :: q in s.procs && q != p ==> u.procs[q] == s.procs[q]
    requires u.procs[p].phase !in {CHECKED, FETCHED}
    requires (u.procs[p].checkAt == s.procs[p].checkAt && u.procs[p].insertAt == s.procs[p].insertAt)
             || u.procs[p].insertAt.None? || u.procs[p].checkAt == Some(s.clock)
    ensures WindowsSeparate(u)
  {
    forall q | q in s.procs && q != p
      ensures !WindowsOverlap(u.procs[p], u.procs[q]) && !WindowsOverlap(u.procs[q], u.procs[p])
    {
      assert ProcHolds(s, q);
      assert !WindowsOverlap(s.procs[p], s.procs[q]) && !WindowsOverlap(s.procs[q], s.procs[p]);
    }
  }

  lemma {:induction false} AtOnceKeepsWindows(s: State, p: ProcId, answered: bool)
    requires Safe(s) && WindowsSeparate(s)
    ensures WindowsSeparate(AtOnce(p, answered).Apply(s))
  {
    if p in s.procs {
      var s1 := Step(s, Check(p));
      var s2 := Step(s1, Fetch(p, answered));
      OwnEventOnly(s, Check(p), p);
      OwnEventOnly(s1, Fetch(p, answered), p);
      OwnEventOnly(s2, Insert(p), p);
      WindowBeginsNow(s, p, answered);
      LatestWindowIsSeparate(s, AtOnce(p, answered).Apply(s), p);
    }
  }

  lemma {:induction false} WindowsStaySeparate(start: State, ws: seq<Whole>)
    requires Initial(start) && forall w :: w in ws ==> w.IsAtomic()
    ensures Safe(RunWhole(start, ws)) && WindowsSeparate(RunWhole(start, ws))
  {
    RunWholeIsRun(start, ws);
    RunIsSafe(start, Flatten(ws));
    if ws != [] {
      var before := ws[..|ws| - 1];
      var w := ws[|ws| - 1];
      assert w in ws && w.IsAtomic();
      WindowsStaySeparate(start, before);
      if w.One? {
        OtherEventsKeepWindows(RunWhole(start, before), w.e);
      } else {
        AtOnceKeepsWindows(RunWhole(start, before), w.p, w.answered);
      }
    }
  }

  /** No active action of the service was made without a reservation. */
  predicate NoOutsider(s: State, d: Id) {
    forall a :: a in s.outside && a < |s.table| ==> !IsActiveOf(s.table[a], d)
  }

  /** An active service has a request that made it so, unless somebody did without. */
  lemma CreatorOf(s: State, a: Id) returns (p: ProcId)
    requires Safe(s) && NoOutsider(s, a) && HasActive(s.table, a)
    ensures ActiveBy(s, p) && s.procs[p].service == a
  {
    var i: nat :| i < |s.table| && IsActiveOf(s.table[i], a);
    assert ActionOwned(s, i);
    p :| Made(s, p, i);
    assert ProcHolds(s, p);
  }

  /** When check and insert are one step, two services that block each other are never both active
      in any reachable state, whoever else creates without a reservation, as long as no active
      action of these two was made that way. */
  lemma {:induction false} NeverBothActive(start: State, ws: seq<Whole>, a: Id, b: Id)
    requires Initial(start) && forall w :: w in ws ==> w.IsAtomic()
    requires var s := RunWhole(start, ws);
             && BlockEachOther(s, a, b) && a != b && a !in s.external && b !in s.external
             && NoOutsider(s, a) && NoOutsider(s, b)
    ensures var s := RunWhole(start, ws); !(HasActive(s.table, a) && HasActive(s.table, b))
  {
    var s := RunWhole(start, ws);
    WindowsStaySeparate(start, ws);
    RunWholeIsRun(start, ws);
    if HasActive(s.table, a) && HasActive(s.table, b) {
      var p := CreatorOf(s, a);
      var q := CreatorOf(s, b);
      MutualExclusion(start, Flatten(ws), p, q);
      assert false;
    }
  }

  /** With check and insert as one step, live locks made through `lock` are pairwise disjoint, and
      when two live locks overlap the later one was made by a reservation. */
  lemma {:induction false} LocksAreDisjoint(start: State, ws: seq<Whole>, p: ProcId, q: ProcId)
    requires Initial(start) && forall w :: w in ws ==> w.IsAtomic()
    requires LiveTogether(RunWhole(start, ws), p, q)
    ensures var s := RunWhole(start, ws); var x, y := s.procs[p], s.procs[q];
            && (x.kind == RESERVE || y.kind == RESERVE)
            && x.insertAt.Some? && y.insertAt.Some? && x.insertAt != y.insertAt
            && (if x.insertAt.value < y.insertAt.value then y.kind == RESERVE else x.kind == RESERVE)
  {
    var s := RunWhole(start, ws);
    WindowsStaySeparate(start, ws);
    RunWholeIsRun(start, ws);
    assert ProcHolds(s, p) && ProcHolds(s, q) && PairHolds(s, p, q) && PairHolds(s, q, p);
    var x, y := s.procs[p], s.procs[q];
    if y.kind != RESERVE && x.insertAt.value < y.insertAt.value {
      LockDiscipline(start, Flatten(ws), p, q);
    }
    if x.kind != RESERVE && y.insertAt.value < x.insertAt.value {
      LockDiscipline(start, Flatten(ws), q, p);
    }
  }
}
