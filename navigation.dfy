/** The `before` and `after` getters of a budget line, and the proof that, in a tree
    where no children array has been left empty, they step through the lines in
    document order (pre-order): `after` goes to the next line and `before` to the
    previous one. */
module Navigation {
  import opened Trees

  /** A getter's result: a line, `undefined`, or a thrown TypeError. */
  datatype Nav = NavLine(path: Path) | NavUndefined | NavThrew

  /** The `while` loop of `after`: climb until some ancestor-or-self has a next sibling
      and return that sibling; reaching the root makes `current.parent.children` throw. */
  function Climb<T>(t: Tree<T>, p: Path): (r: Nav)
    requires ValidPath(t, p)
    ensures r.NavLine? ==> ValidPath(t, r.path) && |r.path| <= |p|
    ensures r != NavUndefined
    decreases |p|
  {
    if |p| == 0 then NavThrew
    else
      ValidParent(t, p);
      var q := Parent(p);
      if Last(p) + 1 < |At(t, q).children| then
        ValidChild(t, q, Last(p) + 1);
        NavLine(q + [Last(p) + 1])
      else Climb(t, q)
  }

  /** `after`: the first child when there is a children array (undefined when that
      array is empty); otherwise the next sibling of the nearest line that has one. */
  function AfterOf<T>(t: Tree<T>, p: Path): (r: Nav)
    requires ValidPath(t, p)
    ensures r.NavLine? ==> ValidPath(t, r.path)
  {
    var n := At(t, p);
    if HasChildArray(n) then
      if |n.children| > 0 then
        ValidChild(t, p, 0);
        NavLine(p + [0])
      else NavUndefined
    else if |p| == 0 then NavUndefined
    else Climb(t, p)
  }

  /** `after` as the source computes it, with its `while` loop. */
  method After<T>(t: Tree<T>, p: Path) returns (r: Nav)
    requires ValidPath(t, p)
    ensures r == AfterOf(t, p)
  {
    var n := At(t, p);
    if HasChildArray(n) {
      if |n.children| > 0 {
        return NavLine(p + [0]);
      }
      return NavUndefined;
    }
    if |p| == 0 {
      return NavUndefined;
    }
    ValidParent(t, p);
    if Last(p) + 1 < |At(t, Parent(p)).children| {
      return NavLine(Parent(p) + [Last(p) + 1]);
    }
    var cur := p;
    while |cur| > 0 && Last(cur) + 1 >= |At(t, Parent(cur)).children|
      invariant ValidPath(t, cur) && Climb(t, cur) == Climb(t, p)
      invariant |cur| > 0 ==> ValidPath(t, Parent(cur)) && Last(cur) < |At(t, Parent(cur)).children|
      decreases |cur|
    {
      cur := Parent(cur);
      if |cur| > 0 {
        ValidParent(t, cur);
      }
    }
    if |cur| == 0 {
      return NavThrew;
    }
    return NavLine(Parent(cur) + [Last(cur) + 1]);
  }

  /** `before`: the parent for a first child (undefined for the root); otherwise the
      previous sibling's last descendant, or that sibling itself when it has no children
      array (undefined when its array is empty). */
  function BeforeOf<T>(t: Tree<T>, p: Path): (r: Nav)
    requires ValidPath(t, p)
    ensures r.NavLine? ==> ValidPath(t, r.path)
  {
    if LineNumber(p) == 1 then
      if |p| == 0 then NavUndefined
      else
        ValidParent(t, p);
        NavLine(Parent(p))
    else
      ValidParent(t, p);
      var prev := Parent(p) + [Last(p) - 1];
      ValidChild(t, Parent(p), Last(p) - 1);
      var n := At(t, prev);
      if HasChildArray(n) then
        var ds := Desc(n);
        if |ds| > 0 then
          LastDescValid(t, prev);
          NavLine(prev + ds[|ds| - 1])
        else NavUndefined
      else NavLine(prev)
  }

  lemma LastDescValid<T>(t: Tree<T>, r: Path)
    requires ValidPath(t, r) && |Desc(At(t, r))| > 0
    ensures ValidPath(t, r + Desc(At(t, r))[|Desc(At(t, r))| - 1])
  {
    var ds := Desc(At(t, r));
    DescMembers(At(t, r));
    assert ds[|ds| - 1] in ds;
    ValidConcat(t, r, ds[|ds| - 1]);
  }

  // ---------------------------------------------------------------------------
  // document order

  /** Every children array in the tree holds at least one line. */
  predicate NoEmptyArrays<T>(t: Tree<T>) {
    (t.hasArray ==> |t.children| > 0)
    && forall i :: 0 <= i < |t.children| ==> NoEmptyArrays(t.children[i])
  }

  lemma {:induction false} NoEmptyAt<T>(t: Tree<T>, r: Path)
    requires NoEmptyArrays(t) && ValidPath(t, r)
    ensures NoEmptyArrays(At(t, r))
    decreases |r|
  {
    if |r| > 0 {
      NoEmptyAt(t.children[r[0]], r[1..]);
    }
  }

  lemma NoEmptyChild<T>(t: Tree<T>, r: Path, i: nat)
    requires ValidPath(t, r) && NoEmptyArrays(At(t, r)) && i < |At(t, r).children|
    ensures ValidPath(t, r + [i]) && At(t, r + [i]) == At(t, r).children[i]
    ensures NoEmptyArrays(At(t, r + [i]))
  {
    ValidChild(t, r, i);
  }

  /** The lines of the subtree at `r` in document order, as positions in the whole tree. */
  function DocFrom<T>(t: Tree<T>, r: Path): (s: seq<Path>)
    requires ValidPath(t, r)
    ensures |s| >= 1 && s[0] == r
    decreases At(t, r), 1
  {
    [r] + DocKids(t, r, 0)
  }

  function DocKids<T>(t: Tree<T>, r: Path, i: nat): (s: seq<Path>)
    requires ValidPath(t, r) && i <= |At(t, r).children|
    ensures i < |At(t, r).children| ==> |s| >= 1 && s[0] == r + [i]
    ensures i == |At(t, r).children| ==> s == []
    decreases At(t, r), 0, |At(t, r).children| - i
  {
    if i == |At(t, r).children| then []
    else
      ValidChild(t, r, i);
      DocFrom(t, r + [i]) + DocKids(t, r, i + 1)
  }

  /** Climbing from a child: its next sibling if there is one, else whatever climbing
      from the parent gives. */
  lemma ClimbChild<T>(t: Tree<T>, r: Path, i: nat)
    requires ValidPath(t, r) && i < |At(t, r).children|
    ensures ValidPath(t, r + [i])
    ensures Climb(t, r + [i]) ==
      if i + 1 < |At(t, r).children| then NavLine(r + [i + 1]) else Climb(t, r)
  {
    ValidChild(t, r, i);
    assert Parent(r + [i]) == r && Last(r + [i]) == i;
  }

  /** The last line of a subtree in document order has no children array, and climbing
      from it goes as far as climbing from the subtree's top. */
  lemma {:induction false} DocLast<T>(t: Tree<T>, r: Path)
    requires ValidPath(t, r) && NoEmptyArrays(At(t, r))
    ensures var s := DocFrom(t, r);
      var l := s[|s| - 1];
      && ValidPath(t, l)
      && !HasChildArray(At(t, l))
      && Climb(t, l) == Climb(t, r)
      && (|s| > 1 ==> |l| > |r|)
    decreases At(t, r), 1
  {
    var n := At(t, r);
    if |n.children| > 0 {
      DocKidsLast(t, r, 0);
      var k := DocKids(t, r, 0);
      assert DocFrom(t, r)[|DocFrom(t, r)| - 1] == k[|k| - 1];
    }
  }

  lemma {:induction false} DocKidsLast<T>(t: Tree<T>, r: Path, i: nat)
    requires ValidPath(t, r) && NoEmptyArrays(At(t, r)) && i < |At(t, r).children|
    ensures var s := DocKids(t, r, i);
      var l := s[|s| - 1];
      && ValidPath(t, l)
      && !HasChildArray(At(t, l))
      && Climb(t, l) == Climb(t, r)
      && |l| > |r|
    decreases At(t, r), 0, |At(t, r).children| - i
  {
    NoEmptyChild(t, r, i);
    var a := DocFrom(t, r + [i]);
    var s := DocKids(t, r, i);
    assert s == a + DocKids(t, r, i + 1);
    if i + 1 < |At(t, r).children| {
      DocKidsLast(t, r, i + 1);
      var b := DocKids(t, r, i + 1);
      assert s[|s| - 1] == b[|b| - 1];
    } else {
      DocLast(t, r + [i]);
      ClimbChild(t, r, i);
      assert s == a;
    }
  }

  /** Each line of `s` is followed, according to `after`, by the next line of `s`. */
  predicate Chain<T>(t: Tree<T>, s: seq<Path>)
    decreases |s|
  {
    if |s| <= 1 then |s| == 1 ==> ValidPath(t, s[0])
    else ValidPath(t, s[0]) && AfterOf(t, s[0]) == NavLine(s[1]) && Chain(t, s[1..])
  }

  lemma {:induction false} ChainConcat<T>(t: Tree<T>, a: seq<Path>, b: seq<Path>)
    requires |a| > 0 && |b| > 0 && Chain(t, a) && Chain(t, b)
    requires ValidPath(t, a[|a| - 1]) && AfterOf(t, a[|a| - 1]) == NavLine(b[0])
    ensures Chain(t, a + b)
    decreases |a|
  {
    if |a| == 1 {
      assert (a + b)[1..] == b;
    } else {
      assert (a + b)[1..] == a[1..] + b;
      ChainConcat(t, a[1..], b);
    }
  }

  lemma {:induction false} ChainAt<T>(t: Tree<T>, s: seq<Path>, j: nat)
    requires Chain(t, s) && j < |s|
    ensures ValidPath(t, s[j])
    ensures j < |s| - 1 ==> AfterOf(t, s[j]) == NavLine(s[j + 1])
    decreases j
  {
    if j > 0 {
      ChainAt(t, s[1..], j - 1);
    }
  }

  /** After the last line of a child's subtree comes the next child. */
  lemma AfterSubtree<T>(t: Tree<T>, r: Path, i: nat)
    requires ValidPath(t, r) && NoEmptyArrays(At(t, r)) && i + 1 < |At(t, r).children|
    ensures ValidPath(t, r + [i])
    ensures var a := DocFrom(t, r + [i]);
      ValidPath(t, a[|a| - 1]) && AfterOf(t, a[|a| - 1]) == NavLine(r + [i + 1])
  {
    NoEmptyChild(t, r, i);
    DocLast(t, r + [i]);
    ClimbChild(t, r, i);
    var a := DocFrom(t, r + [i]);
    assert |a[|a| - 1]| > 0 by {
      if |a| == 1 { assert a[0] == r + [i]; }
    }
  }

  /** Within a subtree, `after` leads from each line to the next in document order. */
  lemma {:induction false} DocChain<T>(t: Tree<T>, r: Path)
    requires ValidPath(t, r) && NoEmptyArrays(At(t, r))
    ensures Chain(t, DocFrom(t, r))
    decreases At(t, r), 1
  {
    var n := At(t, r);
    if |n.children| > 0 {
      DocKidsChain(t, r, 0);
      ValidChild(t, r, 0);
      assert AfterOf(t, r) == NavLine(r + [0]);
      ChainConcat(t, [r], DocKids(t, r, 0));
    }
  }

  lemma {:induction false} DocKidsChain<T>(t: Tree<T>, r: Path, i: nat)
    requires ValidPath(t, r) && NoEmptyArrays(At(t, r)) && i < |At(t, r).children|
    ensures Chain(t, DocKids(t, r, i))
    decreases At(t, r), 0, |At(t, r).children| - i
  {
    NoEmptyChild(t, r, i);
    DocChain(t, r + [i]);
    if i + 1 < |At(t, r).children| {
      DocKidsChain(t, r, i + 1);
      DocKidsChainStep(t, r, i);
    } else {
      assert DocKids(t, r, i) == DocFrom(t, r + [i]);
    }
  }

  lemma DocKidsChainStep<T>(t: Tree<T>, r: Path, i: nat)
    requires ValidPath(t, r) && NoEmptyArrays(At(t, r)) && i + 1 < |At(t, r).children|
    requires ValidPath(t, r + [i]) && Chain(t, DocFrom(t, r + [i])) && Chain(t, DocKids(t, r, i + 1))
    ensures Chain(t, DocKids(t, r, i))
  {
    var a := DocFrom(t, r + [i]);
    assert DocKids(t, r, i) == a + DocKids(t, r, i + 1);
    AfterSubtree(t, r, i);
    ChainConcat(t, a, DocKids(t, r, i + 1));
  }

  /** The positions of a subtree's lines, seen from the whole tree. */
  function Lift(r: Path, s: seq<Path>): (l: seq<Path>)
    ensures |l| == |s|
    ensures forall j :: 0 <= j < |s| ==> l[j] == r + s[j]
  {
    if |s| == 0 then [] else [r + s[0]] + Lift(r, s[1..])
  }

  lemma LiftPrefixedConcat(r: Path, i: nat, a: seq<Path>, b: seq<Path>)
    ensures Lift(r, Prefixed(i, a) + b) == Lift(r + [i], a) + Lift(r, b)
  {
    var x := Lift(r, Prefixed(i, a) + b);
    var y := Lift(r + [i], a) + Lift(r, b);
    forall j | 0 <= j < |x| ensures x[j] == y[j] {
      if j < |a| {
        assert (Prefixed(i, a) + b)[j] == [i] + a[j];
        assert r + ([i] + a[j]) == (r + [i]) + a[j];
      } else {
        assert (Prefixed(i, a) + b)[j] == b[j - |a|];
      }
    }
  }

  /** `DocFrom` is the pre-order of `descendants`, moved under `r`. */
  lemma {:induction false} DocFromIsPreOrder<T>(t: Tree<T>, r: Path)
    requires ValidPath(t, r)
    ensures DocFrom(t, r) == Lift(r, PreOrder(At(t, r)))
    decreases At(t, r), 1
  {
    var n := At(t, r);
    DocKidsIsDesc(t, r, 0);
    assert PreOrder(n) == [[]] + DescFrom(n, 0);
    assert r + [] == r;
    assert Lift(r, PreOrder(n)) == [r] + Lift(r, DescFrom(n, 0));
  }

  lemma {:induction false} DocKidsIsDesc<T>(t: Tree<T>, r: Path, i: nat)
    requires ValidPath(t, r) && i <= |At(t, r).children|
    ensures DocKids(t, r, i) == Lift(r, DescFrom(At(t, r), i))
    decreases At(t, r), 0, |At(t, r).children| - i
  {
    var n := At(t, r);
    if i < |n.children| {
      ValidChild(t, r, i);
      var c := n.children[i];
      DocFromIsPreOrder(t, r + [i]);
      DocKidsIsDesc(t, r, i + 1);
      assert DocKids(t, r, i) == DocFrom(t, r + [i]) + DocKids(t, r, i + 1);
      DescFromHead(n, i);
      LiftPrefixedConcat(r, i, PreOrder(c), DescFrom(n, i + 1));
    }
  }

  /** The descendants from child `i` on: the subtree of child `i`, then the rest. */
  lemma DescFromHead<T>(n: Tree<T>, i: nat)
    requires i < |n.children|
    ensures DescFrom(n, i) == Prefixed(i, PreOrder(n.children[i])) + DescFrom(n, i + 1)
  {
    var c := n.children[i];
    var po := PreOrder(c);
    assert po[0] == [] && po[1..] == Desc(c);
    assert [i] + [] == [i];
    assert Prefixed(i, po) == [[i]] + Prefixed(i, Desc(c));
  }

  lemma LiftEmpty(s: seq<Path>)
    ensures Lift([], s) == s
  {
    forall j | 0 <= j < |s| ensures Lift([], s)[j] == s[j] {
      assert [] + s[j] == s[j];
    }
  }

  lemma DocRoot<T>(t: Tree<T>)
    ensures DocFrom(t, []) == PreOrder(t)
  {
    DocFromIsPreOrder(t, []);
    LiftEmpty(PreOrder(t));
  }

  /** `after` visits the lines in document order: from each line it reaches the next
      one; after the last line it throws (the climb runs past the root), and a tree
      that is only a root has nothing after it. */
  lemma AfterFollowsDocumentOrder<T>(t: Tree<T>)
    requires NoEmptyArrays(t)
    ensures var s := PreOrder(t);
      && (forall j :: 0 <= j < |s| - 1 ==> ValidPath(t, s[j]) && AfterOf(t, s[j]) == NavLine(s[j + 1]))
      && ValidPath(t, s[|s| - 1])
      && AfterOf(t, s[|s| - 1]) == if |s| == 1 then NavUndefined else NavThrew
  {
    var s := PreOrder(t);
    DocRoot(t);
    DocChain(t, []);
    DocLast(t, []);
    forall j | 0 <= j < |s| - 1 ensures ValidPath(t, s[j]) && AfterOf(t, s[j]) == NavLine(s[j + 1]) {
      ChainAt(t, s, j);
    }
  }

  /** The line that comes just before `x` in document order: the parent of a first
      child; otherwise the last line of the previous sibling's subtree. */
  function Predecessor<T>(t: Tree<T>, x: Path): Path
    requires ValidPath(t, x) && |x| > 0
  {
    ValidParent(t, x);
    if Last(x) == 0 then Parent(x)
    else
      ValidChild(t, Parent(x), Last(x) - 1);
      var s := DocFrom(t, Parent(x) + [Last(x) - 1]);
      s[|s| - 1]
  }

  lemma AfterPredecessor<T>(t: Tree<T>, x: Path)
    requires NoEmptyArrays(t) && ValidPath(t, x) && |x| > 0
    ensures ValidPath(t, Predecessor(t, x)) && AfterOf(t, Predecessor(t, x)) == NavLine(x)
  {
    ValidParent(t, x);
    NoEmptyAt(t, Parent(x));
    if Last(x) == 0 {
      AfterPredecessorFirst(t, x);
    } else {
      AfterPredecessorLater(t, x);
    }
  }

  lemma AfterPredecessorFirst<T>(t: Tree<T>, x: Path)
    requires ValidPath(t, x) && |x| > 0 && Last(x) == 0
    requires ValidPath(t, Parent(x)) && NoEmptyArrays(At(t, Parent(x)))
    ensures ValidPath(t, Predecessor(t, x)) && AfterOf(t, Predecessor(t, x)) == NavLine(x)
  {
    ValidParent(t, x);
    assert Parent(x) + [0] == x;
    AfterParent(t, Parent(x));
  }

  lemma AfterPredecessorLater<T>(t: Tree<T>, x: Path)
    requires ValidPath(t, x) && |x| > 0 && Last(x) > 0
    requires ValidPath(t, Parent(x)) && NoEmptyArrays(At(t, Parent(x)))
    ensures ValidPath(t, Predecessor(t, x)) && AfterOf(t, Predecessor(t, x)) == NavLine(x)
  {
    ValidParent(t, x);
    var q, i := Parent(x), Last(x) - 1;
    ValidChild(t, q, i + 1);
    assert q + [i + 1] == x;
    AfterSubtree(t, q, i);
    PredecessorLater(t, x);
  }

  lemma PredecessorLater<T>(t: Tree<T>, x: Path)
    requires ValidPath(t, x) && |x| > 0 && Last(x) > 0
    ensures ValidPath(t, Parent(x) + [Last(x) - 1])
    ensures var s := DocFrom(t, Parent(x) + [Last(x) - 1]); Predecessor(t, x) == s[|s| - 1]
  {
    ValidParent(t, x);
    ValidChild(t, Parent(x), Last(x) - 1);
  }

  lemma AfterParent<T>(t: Tree<T>, q: Path)
    requires ValidPath(t, q) && NoEmptyArrays(At(t, q)) && |At(t, q).children| > 0
    ensures ValidPath(t, q + [0]) && AfterOf(t, q) == NavLine(q + [0])
  {
    ValidChild(t, q, 0);
  }

  /** The last line of a subtree in document order is the last of its descendants. */
  lemma DocLastIsLastDesc<T>(t: Tree<T>, r: Path)
    requires ValidPath(t, r) && |At(t, r).children| > 0
    ensures var s := DocFrom(t, r);
      var ds := Desc(At(t, r));
      |ds| > 0 && s[|s| - 1] == r + ds[|ds| - 1]
  {
    var n := At(t, r);
    DocFromIsPreOrder(t, r);
    var ds := Desc(n);
    DescNonEmpty(n);
    var po := PreOrder(n);
    assert po == [[]] + ds;
    assert po[|po| - 1] == ds[|ds| - 1];
    var s := DocFrom(t, r);
    assert s == Lift(r, po);
    assert s[|s| - 1] == r + po[|po| - 1];
  }

  lemma DescNonEmpty<T>(n: Tree<T>)
    requires |n.children| > 0
    ensures |Desc(n)| > 0 && Desc(n)[0] == [0]
  {
    assert Desc(n) == DescFrom(n, 0);
    assert DescFrom(n, 0)[0] == [0];
  }

  lemma BeforeLaterChild<T>(t: Tree<T>, x: Path)
    requires NoEmptyArrays(t) && ValidPath(t, x) && |x| > 0 && Last(x) > 0
    ensures BeforeOf(t, x) == NavLine(Predecessor(t, x))
  {
    ValidParent(t, x);
    ValidChild(t, Parent(x), Last(x) - 1);
    NoEmptyAt(t, Parent(x) + [Last(x) - 1]);
    BeforeLaterPrev(t, x);
  }

  lemma BeforeLaterPrev<T>(t: Tree<T>, x: Path)
    requires ValidPath(t, x) && |x| > 0 && Last(x) > 0
    requires ValidPath(t, Parent(x) + [Last(x) - 1])
    requires NoEmptyArrays(At(t, Parent(x) + [Last(x) - 1]))
    ensures BeforeOf(t, x) == NavLine(Predecessor(t, x))
  {
    if |At(t, Parent(x) + [Last(x) - 1]).children| > 0 {
      BeforeAfterParent(t, x);
    } else {
      BeforeAfterLeaf(t, x);
    }
  }

  lemma BeforeAfterParent<T>(t: Tree<T>, x: Path)
    requires ValidPath(t, x) && |x| > 0 && Last(x) > 0
    requires ValidPath(t, Parent(x) + [Last(x) - 1])
    requires |At(t, Parent(x) + [Last(x) - 1]).children| > 0
    ensures BeforeOf(t, x) == NavLine(Predecessor(t, x))
  {
    DocLastIsLastDesc(t, Parent(x) + [Last(x) - 1]);
  }

  lemma BeforeAfterLeaf<T>(t: Tree<T>, x: Path)
    requires ValidPath(t, x) && |x| > 0 && Last(x) > 0
    requires ValidPath(t, Parent(x) + [Last(x) - 1])
    requires NoEmptyArrays(At(t, Parent(x) + [Last(x) - 1]))
    requires |At(t, Parent(x) + [Last(x) - 1]).children| == 0
    ensures BeforeOf(t, x) == NavLine(Predecessor(t, x))
  {
    var prev := Parent(x) + [Last(x) - 1];
    assert DocFrom(t, prev) == [prev];
  }

  /** Under no empty children arrays, `before` is the predecessor in document order. */
  lemma BeforeIsPredecessor<T>(t: Tree<T>, x: Path)
    requires NoEmptyArrays(t) && ValidPath(t, x) && |x| > 0
    ensures BeforeOf(t, x) == NavLine(Predecessor(t, x))
  {
    if Last(x) > 0 {
      BeforeLaterChild(t, x);
    }
  }

  /** `before` visits the lines in reverse document order: from each line but the
      first it reaches the previous one, and the root has nothing before it. */
  lemma BeforeFollowsDocumentOrder<T>(t: Tree<T>)
    requires NoEmptyArrays(t)
    ensures var s := PreOrder(t);
      && BeforeOf(t, s[0]) == NavUndefined
      && forall j :: 0 < j < |s| ==> ValidPath(t, s[j]) && BeforeOf(t, s[j]) == NavLine(s[j - 1])
  {
    var s := PreOrder(t);
    forall j | 0 < j < |s| ensures ValidPath(t, s[j]) && BeforeOf(t, s[j]) == NavLine(s[j - 1]) {
      BeforeStep(t, j);
    }
  }

  lemma PreOrderDistinct<T>(t: Tree<T>)
    ensures Distinct(PreOrder(t))
  {
    var s := PreOrder(t);
    DescDistinct(t);
    DescMembers(t);
    forall j | 0 < j < |s| ensures s[j] != [] {
      assert s[j] in Desc(t);
    }
    DistinctConcat([[]], Desc(t));
  }

  lemma BeforeStep<T>(t: Tree<T>, j: nat)
    requires NoEmptyArrays(t) && 0 < j < |PreOrder(t)|
    ensures var s := PreOrder(t); ValidPath(t, s[j]) && BeforeOf(t, s[j]) == NavLine(s[j - 1])
  {
    var s := PreOrder(t);
    AfterFollowsDocumentOrder(t);
    PreOrderMembers(t);
    PreOrderDistinct(t);
    var x := s[j];
    assert x in s;
    assert x != [] by { assert s[0] == [] && j != 0; }
    BeforeIsPredecessor(t, x);
    AfterPredecessor(t, x);
    var y := Predecessor(t, x);
    assert y in s;
    var m :| 0 <= m < |s| && s[m] == y;
    assert m < |s| - 1;
    assert s[m + 1] == x;
    assert m + 1 == j;
  }
}
