/**
 The observer list of CSubject, swept in place after every notification, and the walk up to the dispatcher.
 */
module Subject {
  // -------- std::remove with a reference into the range it rearranges --------

  /**
   What removing `x` keeps of `s` when `x` is a reference to the place just before `s`: as soon as an element has been
   moved into that place, the rest is compared with that element instead.
   */
  function Kept<T(==)>(x: T, s: seq<T>): seq<T> {
    if s == [] then []
    else
      var kept, last := Kept(x, s[..|s| - 1]), s[|s| - 1];
      if last == (if kept == [] then x else kept[0]) then kept else kept + [last]
  }

  /**
   iObservers.erase(std::remove(begin, end, consumer), end), where `consumer` is a reference to the element at `p`
   and no earlier element equals it. The first n' elements are what remains.
   */
  method RemoveAliased<T(==)>(a: array<T>, p: nat) returns (n': nat)
    requires p < a.Length && forall i :: 0 <= i < p ==> a[i] != a[p]
    modifies a
    ensures p <= n' <= a.Length
    ensures a[..n'] == old(a[..p]) + Kept(old(a[p]), old(a[p + 1..]))
  {
    ghost var x, rest := a[p], a[p + 1..];
    n' := p;
    for i := p + 1 to a.Length
      invariant p <= n' < i
      invariant a[..p] == old(a[..p]) && a[i..] == rest[i - p - 1..]
      invariant a[p..n'] == Kept(x, rest[..i - p - 1])
      invariant n' == p ==> a[p] == x
    {
      assert rest[..i - p][..i - p - 1] == rest[..i - p - 1];
      assert a[i] == rest[i - p - 1];
      if a[i] != a[p] {
        a[n'] := a[i];
        n' := n' + 1;
      }
    }
    assert rest[..a.Length - p - 1] == rest;
    assert a[..n'] == a[..p] + a[p..n'];
  }

  /** Nothing but the place itself is lost exactly if the next element is a different one and does not come again. */
  lemma {:induction false} KeptAllIff<T>(x: T, s: seq<T>)
    ensures Kept(x, s) == s <==> s == [] || (s[0] != x && s[0] !in s[1..])
    ensures |Kept(x, s)| <= |s|
    ensures s != [] && s[0] != x ==> Kept(x, s) != [] && Kept(x, s)[0] == s[0]
  {
    if |s| > 1 {
      var n := |s| - 1;
      KeptAllIff(x, s[..n]);
      assert s[..n] + [s[n]] == s;
      assert s[1..] == s[..n][1..] + [s[n]];
    }
  }

  // -------- The sweep --------

  function FirstMarked<T(==)>(s: seq<T>, marked: set<T>): (p: nat)
    ensures p <= |s|
    ensures forall i :: 0 <= i < p ==> s[i] !in marked
    ensures p < |s| ==> s[p] in marked
  {
    if s == [] || s[0] in marked then 0 else 1 + FirstMarked(s[1..], marked)
  }

  /** One pass of ProcessMarkRemoveAllListeners. */
  function Sweep<T(==)>(s: seq<T>, marked: set<T>): seq<T> {
    var p := FirstMarked(s, marked);
    if p == |s| then s else s[..p] + Kept(s[p], s[p + 1..])
  }

  class CSubject {
    var iTarget: CSubject?
    var iObservers: seq<CSubject>
    var iMarkRemoveAllListeners: bool
    var iMarkRemoveSelfAsListener: bool
    const isDispatcher: bool
    ghost var height: nat

    constructor (isDispatcher: bool)
      ensures this.isDispatcher == isDispatcher && iTarget == null && iObservers == []
      ensures !iMarkRemoveAllListeners && !iMarkRemoveSelfAsListener
    {
      this.isDispatcher := isDispatcher;
      iTarget, iObservers := null, [];
      iMarkRemoveAllListeners, iMarkRemoveSelfAsListener := false, false;
      height := 0;
    }

    ghost function Marked(): set<CSubject>
      reads this, iObservers
    {
      set o | o in iObservers && o.iMarkRemoveSelfAsListener
    }

    /** Returns the position the caller's loop goes on from: the end of the list. */
    method RemoveEventListenerInternal(p: nat) returns (it: nat)
      requires p < |iObservers| && forall i :: 0 <= i < p ==> iObservers[i] != iObservers[p]
      modifies this`iObservers
      ensures iObservers == old(iObservers)[..p] + Kept(old(iObservers)[p], old(iObservers)[p + 1..])
      ensures it == |iObservers|
    {
      var storage := new CSubject[|iObservers|](i requires 0 <= i < |iObservers| reads this => iObservers[i]);
      assert storage[..] == iObservers;
      assert storage[..p] == iObservers[..p] && storage[p + 1..] == iObservers[p + 1..];
      var size := RemoveAliased(storage, p);
      iObservers := storage[..size];
      it := size;
    }

    method RemoveAllEventListenersInternal()
      modifies this`iObservers, this`iMarkRemoveAllListeners
      ensures iObservers == [] && !iMarkRemoveAllListeners
    {
      iObservers := [];
      iMarkRemoveAllListeners := false;
    }

    method ProcessMarkRemoveAllListeners()
      modifies this`iObservers, this`iMarkRemoveAllListeners
      ensures !iMarkRemoveAllListeners
      ensures iObservers == if old(iMarkRemoveAllListeners) then [] else Sweep(old(iObservers), old(Marked()))
    {
      if iMarkRemoveAllListeners {
        RemoveAllEventListenersInternal();
      }
      var it := 0;
      ghost var s, marked := iObservers, Marked();
      while it != |iObservers|
        invariant it <= |iObservers| && !iMarkRemoveAllListeners
        invariant (iObservers == s && it <= FirstMarked(s, marked))
          || (it == |iObservers| && iObservers == Sweep(s, marked))
        decreases |iObservers| - it
      {
        if iObservers == s {
          PassUnmarked(s, marked, it);
        }
        if iObservers[it].iMarkRemoveSelfAsListener {
          it := RemoveEventListenerInternal(it);
        } else {
          it := it + 1;
        }
      }
      if iObservers == s && FirstMarked(s, marked) == |s| {
        assert Sweep(s, marked) == s;
      }
    }

    // -------- The walk to the dispatcher --------

    /**
     Attach any subject. In a tree under a dispatcher `d`, attaching one that is not part of it yet and is not itself
     a dispatcher makes a tree under `d` again.
     */
    method AddEventListener(observer: CSubject, ghost tree: set<CSubject>, ghost d: CSubject)
      modifies this`iObservers, observer`iTarget, observer`height
      ensures iObservers == old(iObservers) + [observer] && observer.iTarget == this
      ensures old(Attached(tree, d)) && this in tree && observer !in tree && !observer.isDispatcher
              ==> Attached(tree + {observer}, d)
    {
      iObservers := iObservers + [observer];
      observer.iTarget := this;
      observer.height := height + 1;
      if old(Attached(tree, d)) && this in tree && observer !in tree && !observer.isDispatcher {
        AttachedGrows(tree, d, this, observer);
      }
    }

    method GetDispatcher(ghost tree: set<CSubject>) returns (r: CSubject?)
      requires Forest(tree) && this in tree
      ensures r == Above(tree, this)
    {
      var target := iTarget;
      ghost var at := this;
      while true
        invariant at in tree && target == at.iTarget && Above(tree, this) == Above(tree, at)
        decreases at.height
      {
        if target == null {
          return null;
        }
        if target.isDispatcher {
          return target;
        }
        at := target;
        target := target.iTarget;
      }
    }
  }

  lemma PassUnmarked<T>(s: seq<T>, marked: set<T>, it: nat)
    requires it < |s| && it <= FirstMarked(s, marked)
    ensures s[it] in marked <==> it == FirstMarked(s, marked)
    ensures it == FirstMarked(s, marked) ==> forall i :: 0 <= i < it ==> s[i] != s[it]
  {
  }

  /**
   Going up from any subject that is not directly below a dispatcher stays in the set and comes closer to the top.
   */
  ghost predicate Forest(tree: set<CSubject>)
    reads tree
  {
    forall s <- tree :: s.iTarget != null && !s.iTarget.isDispatcher
      ==> s.iTarget in tree && s.iTarget.height < s.height
  }

  /** The dispatcher above a subject, if any. */
  ghost function Above(tree: set<CSubject>, s: CSubject): CSubject?
    requires Forest(tree) && s in tree
    reads tree
    decreases s.height
  {
    if s.iTarget == null then null
    else if s.iTarget.isDispatcher then s.iTarget
    else Above(tree, s.iTarget)
  }

  /** Every subject of the tree hangs, at some distance, below the one dispatcher `d`, whose target is itself. */
  ghost predicate Attached(tree: set<CSubject>, d: CSubject)
    reads tree
  {
    && Forest(tree) && d in tree && d.isDispatcher && d.iTarget == d
    && forall s <- tree :: (s.isDispatcher ==> s == d) && s.iTarget != null
          && (s.iTarget.isDispatcher ==> s.iTarget == d)
  }

  /** From every subject of such a tree, the dispatcher itself included, the walk finds that dispatcher. */
  lemma {:induction false} WalkFindsDispatcher(tree: set<CSubject>, d: CSubject, s: CSubject)
    requires Attached(tree, d) && s in tree
    ensures Above(tree, s) == d
    decreases s.height
  {
    if !s.iTarget.isDispatcher {
      WalkFindsDispatcher(tree, d, s.iTarget);
    }
  }

  lemma AttachedGrows(tree: set<CSubject>, d: CSubject, parent: CSubject, child: CSubject)
    requires Attached(tree, d) && parent in tree && child !in tree && !child.isDispatcher
    requires child.iTarget == parent && child.height == parent.height + 1
    ensures Attached(tree + {child}, d)
  {
    assert forall s :: s in tree + {child} ==> s in tree || s == child;
  }

  function Members(d: CSubject, children: seq<CSubject>): set<CSubject> {
    {d} + set c | c in children
  }

  /**
   A tree built by any series of AddEventListener under a dispatcher whose target is itself, each new child attached
   to the dispatcher or to an earlier child: from every subject in it the walk finds the dispatcher.
   */
  method AttachAll(d: CSubject, parents: seq<CSubject>, children: seq<CSubject>)
    requires d.isDispatcher && d.iTarget == d && |parents| == |children|
    requires forall i :: 0 <= i < |children| ==> children[i] != d && !children[i].isDispatcher
    requires forall i :: 0 <= i < |children| ==> children[i] !in children[..i]
    requires forall i :: 0 <= i < |children| ==> parents[i] in Members(d, children[..i])
    modifies Members(d, children)
    ensures Attached(Members(d, children), d)
    ensures forall s <- Members(d, children) :: Above(Members(d, children), s) == d
  {
    assert Members(d, children[..0]) == {d};
    for i := 0 to |children|
      invariant Attached(Members(d, children[..i]), d)
    {
      assert Members(d, children[..i + 1]) == Members(d, children[..i]) + {children[i]};
      assert parents[i] in Members(d, children[..i]) && Members(d, children[..i]) <= Members(d, children);
      parents[i].AddEventListener(children[i], Members(d, children[..i]), d);
    }
    assert children[..|children|] == children;
    forall s <- Members(d, children) ensures Above(Members(d, children), s) == d {
      WalkFindsDispatcher(Members(d, children), d, s);
    }
  }

  // -------- What sweeps do --------

  predicate Distinct<T(==)>(s: seq<T>) {
    forall i, j :: 0 <= i < j < |s| ==> s[i] != s[j]
  }

  function Unmarked<T(==)>(s: seq<T>, marked: set<T>): seq<T> {
    if s == [] then [] else (if s[0] in marked then [] else [s[0]]) + Unmarked(s[1..], marked)
  }

  function MarkedCount<T(==)>(s: seq<T>, marked: set<T>): nat {
    if s == [] then 0 else (if s[0] in marked then 1 else 0) + MarkedCount(s[1..], marked)
  }

  function Sweeps<T(==)>(s: seq<T>, marked: set<T>, k: nat): seq<T>
    decreases k
  {
    if k == 0 then s else Sweeps(Sweep(s, marked), marked, k - 1)
  }

  lemma SamePrefixIff<T>(a: seq<T>, b: seq<T>, c: seq<T>)
    ensures a + b == a + c <==> b == c
  {
    if a + b == a + c {
      assert (a + b)[|a|..] == b && (a + c)[|a|..] == c;
    }
  }

  lemma KeptAfterIff<T>(s: seq<T>, p: nat)
    requires p < |s|
    ensures Kept(s[p], s[p + 1..]) == s[p + 1..]
            <==> p + 1 == |s| || (s[p + 1] != s[p] && s[p + 1] !in s[p + 2..])
  {
    var rest := s[p + 1..];
    KeptAllIff(s[p], rest);
    if p + 1 < |s| {
      assert rest[1..] == s[p + 2..] && rest[0] == s[p + 1];
    }
  }

  /**
   A sweep deletes the first marked observer and nothing else, exactly if the next observer differs from it and comes
   once.
   */
  lemma SweepDeletesFirstIff<T>(s: seq<T>, marked: set<T>)
    requires FirstMarked(s, marked) < |s|
    ensures var p := FirstMarked(s, marked);
            Sweep(s, marked) == s[..p] + s[p + 1..]
            <==> p + 1 == |s| || (s[p + 1] != s[p] && s[p + 1] !in s[p + 2..])
  {
    var p := FirstMarked(s, marked);
    var before, kept, rest := s[..p], Kept(s[p], s[p + 1..]), s[p + 1..];
    assert Sweep(s, marked) == before + kept;
    SamePrefixIff(before, kept, rest);
    KeptAfterIff(s, p);
  }

  lemma DistinctSweep<T>(s: seq<T>, marked: set<T>)
    requires Distinct(s) && FirstMarked(s, marked) < |s|
    ensures var p := FirstMarked(s, marked);
            Sweep(s, marked) == s[..p] + s[p + 1..] && Distinct(Sweep(s, marked))
  {
    SweepDeletesFirstIff(s, marked);
  }

  lemma {:induction false} DeleteFirst<T>(s: seq<T>, marked: set<T>)
    requires FirstMarked(s, marked) < |s|
    ensures var p := FirstMarked(s, marked);
            var r := s[..p] + s[p + 1..];
            Unmarked(r, marked) == Unmarked(s, marked) && MarkedCount(r, marked) == MarkedCount(s, marked) - 1
  {
    var p := FirstMarked(s, marked);
    var r := s[..p] + s[p + 1..];
    if p == 0 {
      assert r == s[1..];
    } else {
      var s', p' := s[1..], p - 1;
      DeleteFirst(s', marked);
      assert r[1..] == s'[..p'] + s'[p' + 1..];
    }
  }

  lemma {:induction false} NoneMarked<T>(s: seq<T>, marked: set<T>)
    ensures MarkedCount(s, marked) == 0 <==> FirstMarked(s, marked) == |s|
    ensures MarkedCount(s, marked) == 0 <==> Unmarked(s, marked) == s
    ensures |Unmarked(s, marked)| + MarkedCount(s, marked) == |s|
  {
    if s != [] {
      NoneMarked(s[1..], marked);
    }
  }

  /**
   On a list without duplicates k sweeps delete the first k marked observers, no more; so the unmarked observers alone
   are left, in order, exactly when there have been as many sweeps as marked observers.
   */
  lemma {:induction false} SweepsIff<T>(s: seq<T>, marked: set<T>, k: nat)
    requires Distinct(s)
    ensures var r, m := Sweeps(s, marked, k), MarkedCount(s, marked);
            && MarkedCount(r, marked) == (if k < m then m - k else 0)
            && Unmarked(r, marked) == Unmarked(s, marked)
            && (r == Unmarked(s, marked) <==> k >= m)
    decreases k
  {
    NoneMarked(s, marked);
    if k > 0 {
      if FirstMarked(s, marked) < |s| {
        DistinctSweep(s, marked);
        DeleteFirst(s, marked);
      }
      SweepsIff(Sweep(s, marked), marked, k - 1);
    }
    NoneMarked(Sweeps(s, marked, k), marked);
  }

  /** The list without its first k marked observers. */
  function WithoutFirst<T(==)>(s: seq<T>, marked: set<T>, k: nat): seq<T> {
    if s == [] then []
    else if s[0] in marked && k > 0 then WithoutFirst(s[1..], marked, k - 1)
    else [s[0]] + WithoutFirst(s[1..], marked, k)
  }

  lemma {:induction false} WithoutNone<T>(s: seq<T>, marked: set<T>, k: nat)
    requires k == 0 || FirstMarked(s, marked) == |s|
    ensures WithoutFirst(s, marked, k) == s
  {
    if s != [] {
      WithoutNone(s[1..], marked, k);
    }
  }

  lemma {:induction false} WithoutOneMore<T>(s: seq<T>, marked: set<T>, k: nat)
    requires FirstMarked(s, marked) < |s|
    ensures var p := FirstMarked(s, marked);
            WithoutFirst(s[..p] + s[p + 1..], marked, k) == WithoutFirst(s, marked, k + 1)
  {
    var p := FirstMarked(s, marked);
    var r := s[..p] + s[p + 1..];
    if p == 0 {
      assert r == s[1..];
    } else {
      WithoutOneMore(s[1..], marked, k);
      assert r[1..] == s[1..][..p - 1] + s[1..][p..];
    }
  }

  /** On a list without duplicates k sweeps delete exactly the first k marked observers. */
  lemma {:induction false} SweepsDeleteFirst<T>(s: seq<T>, marked: set<T>, k: nat)
    requires Distinct(s)
    ensures Sweeps(s, marked, k) == WithoutFirst(s, marked, k)
    decreases k
  {
    if k == 0 || FirstMarked(s, marked) == |s| {
      WithoutNone(s, marked, k);
    }
    if k > 0 {
      if FirstMarked(s, marked) < |s| {
        DistinctSweep(s, marked);
        WithoutOneMore(s, marked, k - 1);
      } else {
        WithoutNone(s, marked, k - 1);
      }
      SweepsDeleteFirst(Sweep(s, marked), marked, k - 1);
    }
  }

  /** With duplicates a sweep can lose an unmarked observer: the second 1 goes with the marked 0. */
  lemma DuplicateIsLost()
    ensures Sweep([0, 1, 1], {0}) == [1]
  {
    assert [0, 1, 1][1..] == [1, 1] && [1, 1][..1] == [1] && [1][..0] == [];
    assert Kept(0, [1]) == [1];
  }
}
