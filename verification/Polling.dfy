/** Runs of polls, in whatever order the services are polled. */
module Polling {
  import opened Common
  import opened Actions
  import opened Locks
  import opened Registry
  import opened Protocol
  import opened Exclusion

  function Elements(order: seq<Id>): set<Id> {
    set d | d in order
  }

  function Polls(p: ProcId, order: seq<Id>, remote: map<Id, Reply>): seq<Event>
    requires Elements(order) <= remote.Keys
  {
    if order == [] then []
    else
      var last := order[|order| - 1];
      assert forall d :: d in order[..|order| - 1] ==> d in Elements(order);
      assert last in Elements(order);
      Polls(p, order[..|order| - 1], remote) + [Poll(p, last, remote[last])]
  }

  predicate SameTables(s: State, u: State) {
    && u.db == s.db && u.locks == s.locks && u.nextLockId == s.nextLockId && u.table == s.table
    && u.external == s.external && u.now == s.now
  }

  predicate IsPolled(s: State, p: ProcId, x: Proc, polled: set<Id>, idle: bool) {
    && p in s.procs
    && s.procs[p] == x.(phase := s.procs[p].phase, polled := s.procs[p].polled)
    && if idle then s.procs[p].polled == polled && s.procs[p].phase == (if polled == x.target then GRANTED else POLLING)
       else s.procs[p].phase == UNDOING
  }

  /** One more poll, of a service polled before or not. */
  lemma PollOnce(s: State, p: ProcId, x: Proc, polled: set<Id>, idle: bool, d: Id, remote: Reply)
    requires IsPolled(s, p, x, polled, idle) && polled <= x.target && d in x.target && x.target != {}
    ensures SameTables(s, Step(s, Poll(p, d, remote)))
    ensures IsPolled(Step(s, Poll(p, d, remote)), p, x, polled + {d},
                     idle && (d in polled || PollAnswer(s.table, d, s.external, remote) == Idle))
  {
    if d in polled {
      assert polled + {d} == polled;
    }
  }

  /** Polling touches only the request itself; it goes on while every answer is idle, is over when
      everything locked has been polled, and turns to undoing at the first other answer. */
  lemma {:induction false} PollsRun(s: State, p: ProcId, order: seq<Id>, remote: map<Id, Reply>)
    requires p in s.procs && s.procs[p].phase == POLLING && s.procs[p].polled == {} && s.procs[p].target != {}
    requires Elements(order) <= remote.Keys && Elements(order) <= s.procs[p].target
    ensures var u := Run(s, Polls(p, order, remote));
            && SameTables(s, u)
            && IsPolled(u, p, s.procs[p], Elements(order), AllIdle(s.table, Elements(order), s.external, remote))
  {
    if order == [] {
      assert Elements(order) == {};
    } else {
      var before := order[..|order| - 1];
      var last := order[|order| - 1];
      assert order == before + [last];
      assert Elements(order) == Elements(before) + {last};
      PollsRun(s, p, before, remote);
      var t := Run(s, Polls(p, before, remote));
      RunAppends(s, Polls(p, before, remote), Poll(p, last, remote[last]));
      var idle := AllIdle(s.table, Elements(before), s.external, remote);
      PollOnce(t, p, s.procs[p], Elements(before), idle, last, remote[last]);
    }
  }

  lemma {:induction false} PollsSpare(s: State, p: ProcId, order: seq<Id>, remote: map<Id, Reply>, q: ProcId)
    requires Elements(order) <= remote.Keys && q != p
    ensures var u := Run(s, Polls(p, order, remote));
            (q in u.procs <==> q in s.procs) && (q in s.procs ==> u.procs[q] == s.procs[q])
  {
    if order != [] {
      var before := order[..|order| - 1];
      var last := order[|order| - 1];
      assert order == before + [last];
      assert Elements(order) == Elements(before) + {last};
      PollsSpare(s, p, before, remote, q);
      RunAppends(s, Polls(p, before, remote), Poll(p, last, remote[last]));
    }
  }

  lemma {:induction false} FirstTwo(s: State, a: Event, b: Event)
    ensures Run(s, [a, b]) == Step(Step(s, a), b)
  {
    RunAppends(s, [], a);
    RunAppends(s, [a], b);
    assert [] + [a] == [a] && [a] + [b] == [a, b];
  }

  lemma {:induction false} FirstThree(s: State, a: Event, b: Event, c: Event)
    ensures Run(s, [a, b, c]) == Step(Step(Step(s, a), b), c)
  {
    AppendThree(s, [], a, b, c);
    assert [] + [a, b, c] == [a, b, c];
  }
}
