/** Subtrees of the service forest, and what is left when several of them are deleted. */
module Subtrees {
  import opened Common
  import opened Registry
  import opened Integrity

  /** Everything under one of the given services. */
  function UnderAny(ss: Services, tops: set<Id>): set<Id> {
    set s | s in ss && exists t :: t in tops && Under(ss, s, t)
  }

  lemma {:induction false} UnderIsComparable(ss: Services, s: Id, a: Id, b: Id)
    requires Under(ss, s, a) && Under(ss, s, b)
    ensures Under(ss, a, b) || Under(ss, b, a)
    decreases s
  {
    if s != a && s != b {
      UnderIsComparable(ss, ss[s].parent.value, a, b);
    }
  }

  lemma SiblingIsNotUnder(ss: Services, p: Id, c: Id, d: Id)
    requires Forest(ss) && IsChild(ss, c, p) && IsChild(ss, d, p) && c != d
    ensures !Under(ss, c, d)
  {
    assert ParentHolds(ss, d) && ParentHolds(ss, c);
    if Under(ss, c, d) {
      UnderIsNotSmaller(ss, p, d);
    }
  }

  lemma SiblingsAreDisjoint(ss: Services, p: Id, c: Id, done: set<Id>)
    requires Forest(ss) && IsChild(ss, c, p) && c !in done && forall d :: d in done ==> IsChild(ss, d, p)
    ensures Descendants(ss, c) !! UnderAny(ss, done)
    ensures UnderAny(ss, done + {c}) == UnderAny(ss, done) + Descendants(ss, c)
    ensures c !in UnderAny(ss, done)
  {
    forall s | s in Descendants(ss, c)
      ensures s !in UnderAny(ss, done)
    {
      if d :| d in done && Under(ss, s, d) {
        UnderIsComparable(ss, s, c, d);
        SiblingIsNotUnder(ss, p, c, d);
        SiblingIsNotUnder(ss, p, d, c);
      }
    }
    assert c in Descendants(ss, c);
  }

  lemma {:induction false} UnderAnyIsClosed(ss: Services, tops: set<Id>)
    requires Forest(ss)
    ensures ClosedDownwards(ss, UnderAny(ss, tops))
  {
    forall c, p | IsChild(ss, c, p) && p in UnderAny(ss, tops)
      ensures c in UnderAny(ss, tops)
    {
      var t :| t in tops && Under(ss, p, t);
      assert ParentHolds(ss, c);
      assert Under(ss, c, t);
    }
  }

  /** Deleting a further child's subtree from what is left deletes what it held at the start. */
  lemma NextSubtree(db: Database, p: Id, c: Id, done: set<Id>)
    requires Consistent(db) && IsChild(db.services, c, p) && c !in done
    requires forall d :: d in done ==> IsChild(db.services, d, p)
    ensures var mid := Without(db, UnderAny(db.services, done));
            && Consistent(mid) && c in mid.services
            && Descendants(mid.services, c) == Descendants(db.services, c)
            && WithoutSubtree(mid, c) == Without(db, UnderAny(db.services, done + {c}))
            && |UnderAny(db.services, done + {c})| == |UnderAny(db.services, done)| + |Descendants(db.services, c)|
  {
    var ss := db.services;
    var gone := UnderAny(ss, done);
    var mid := Without(db, gone);
    SiblingsAreDisjoint(ss, p, c, done);
    UnderAnyIsClosed(ss, done);
    WithoutKeepsConsistent(db, gone);
    forall s | s in ss
      ensures s in Descendants(mid.services, c) <==> s in Descendants(ss, c)
    {
      if s in mid.services {
        UnderFrame(ss, mid.services, s, c);
      }
    }
    assert Descendants(mid.services, c) == Descendants(ss, c);
  }

  /** A subtree is the service and the subtrees of its children. */
  lemma SubtreeByChildren(ss: Services, a: Id)
    requires Forest(ss) && a in ss
    ensures Descendants(ss, a) == {a} + UnderAny(ss, Children(ss, a))
    ensures a !in UnderAny(ss, Children(ss, a))
  {
    forall s | s in Descendants(ss, a) && s != a
      ensures s in UnderAny(ss, Children(ss, a))
    {
      UnderThroughChild(ss, s, a);
    }
    forall s, c | c in Children(ss, a) && Under(ss, s, c)
      ensures s in Descendants(ss, a) && s != a
    {
      assert ParentHolds(ss, c);
      assert Under(ss, c, a);
      UnderIsTransitive(ss, s, c, a);
      UnderIsNotSmaller(ss, s, c);
    }
  }

  lemma ChildrenGone(db: Database, a: Id)
    requires Consistent(db) && a in db.services
    ensures var gone := UnderAny(db.services, Children(db.services, a)); var mid := Without(db, gone);
            && a in mid.services && (forall c :: !IsChild(mid.services, c, a))
            && Without(mid, {a}) == WithoutSubtree(db, a) && Consistent(WithoutSubtree(db, a))
            && |Descendants(db.services, a)| == |gone| + 1
  {
    SubtreeIsClosed(db, a);
    WithoutKeepsConsistent(db, Descendants(db.services, a));
    SubtreeByChildren(db.services, a);
    var mid := Without(db, UnderAny(db.services, Children(db.services, a)));
    forall c
      ensures !IsChild(mid.services, c, a)
    {
      assert c in db.services ==> Under(db.services, c, c);
    }
  }

  // ----------------------------------------------------------- several subtrees

  /** Deleting a further subtree from what is left deletes what it held at the start, whether or not
      some of it is gone already. */
  lemma NextTop(db: Database, tops: set<Id>, a: Id)
    requires Consistent(db) && a in Without(db, UnderAny(db.services, tops)).services
    ensures WithoutSubtree(Without(db, UnderAny(db.services, tops)), a) ==
            Without(db, UnderAny(db.services, tops + {a}))
    ensures Consistent(Without(db, UnderAny(db.services, tops)))
  {
    var ss := db.services;
    var gone := UnderAny(ss, tops);
    var mid := Without(db, gone);
    UnderAnyIsClosed(ss, tops);
    WithoutKeepsConsistent(db, gone);
    forall s | s in mid.services
      ensures Under(mid.services, s, a) <==> Under(ss, s, a)
    {
      UnderFrame(ss, mid.services, s, a);
    }
    assert WithoutSubtree(mid, a).services == Without(db, UnderAny(ss, tops + {a})).services;
    assert WithoutSubtree(mid, a).blocks == Without(db, UnderAny(ss, tops + {a})).blocks;
  }
}
