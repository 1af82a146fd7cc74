/** The ordered n-ary tree that budget lines form. A line is addressed by its position:
    the 0-based child positions from the root down to it. The parent of a line is the
    line one position up; it is derived, never stored.

    The JavaScript `children` property is either absent or an array. An array that is
    present but empty (what is left after its last child was removed) behaves
    differently from an absent one in a few places (`getLine`, `before`, `after`,
    `getLast`), so a node records that it has an array even when it holds no child. */
module Trees {
  import opened Js

  datatype Tree<T> = Node(data: T, children: seq<Tree<T>>, hasArray: bool)

  type Path = seq<nat>

  /** `if (line.children)`: the line carries a children array, possibly empty. */
  predicate HasChildArray<T>(t: Tree<T>) {
    t.hasArray || |t.children| > 0
  }

  predicate ValidPath<T>(t: Tree<T>, p: Path)
    decreases |p|
  {
    |p| == 0 || (p[0] < |t.children| && ValidPath(t.children[p[0]], p[1..]))
  }

  /** The line at position `p`. */
  function At<T>(t: Tree<T>, p: Path): Tree<T>
    requires ValidPath(t, p)
    decreases |p|
  {
    if |p| == 0 then t else At(t.children[p[0]], p[1..])
  }

  function Parent(p: Path): Path
    requires |p| > 0
  {
    p[..|p| - 1]
  }

  function Last(p: Path): nat
    requires |p| > 0
  {
    p[|p| - 1]
  }

  lemma {:induction false} ValidConcat<T>(t: Tree<T>, p: Path, q: Path)
    ensures ValidPath(t, p + q) <==> ValidPath(t, p) && ValidPath(At(t, p), q)
    ensures ValidPath(t, p + q) ==> At(t, p + q) == At(At(t, p), q)
    decreases |p|
  {
    if |p| > 0 {
      assert (p + q)[0] == p[0] && (p + q)[1..] == p[1..] + q;
      if p[0] < |t.children| {
        ValidConcat(t.children[p[0]], p[1..], q);
      }
    } else {
      assert p + q == q;
    }
  }

  lemma ValidChild<T>(t: Tree<T>, p: Path, i: nat)
    requires ValidPath(t, p)
    ensures ValidPath(t, p + [i]) <==> i < |At(t, p).children|
    ensures i < |At(t, p).children| ==> At(t, p + [i]) == At(t, p).children[i]
  {
    ValidConcat(t, p, [i]);
  }

  lemma ValidParent<T>(t: Tree<T>, p: Path)
    requires |p| > 0 && ValidPath(t, p)
    ensures Parent(p) + [Last(p)] == p
    ensures ValidPath(t, Parent(p)) && Last(p) < |At(t, Parent(p)).children|
    ensures At(t, Parent(p)).children[Last(p)] == At(t, p)
  {
    assert Parent(p) + [Last(p)] == p;
    ValidConcat(t, Parent(p), [Last(p)]);
  }

  lemma ValidPrefix<T>(t: Tree<T>, p: Path, q: Path)
    requires q <= p && ValidPath(t, p)
    ensures ValidPath(t, q)
  {
    assert p == q + p[|q|..];
    ValidConcat(t, q, p[|q|..]);
  }

  // ---------------------------------------------------------------------------
  // level, lineNumber and index

  /** `level`: one more than the parent's level; 0 at the root. */
  function Level(p: Path): (r: nat)
    ensures r == |p|
  {
    if |p| == 0 then 0 else Level(Parent(p)) + 1
  }

  /** `lineNumber`: the 1-based position among the parent's children; 1 for the root. */
  function LineNumber(p: Path): (r: nat)
    ensures r >= 1
  {
    if |p| == 0 then 1 else Last(p) + 1
  }

  /** The value of the `index` getter: the number 0 for the root, otherwise the
      dot-joined line numbers from the root down. */
  datatype IndexVal = Zero | Dotted(s: string)

  /** An index argument as `getLine` and `add` receive it: a number or a string.
      An absent argument behaves as the number 0. */
  datatype IndexArg = NumArg(k: int) | StrArg(s: string)

  function ArgOf(v: IndexVal): IndexArg {
    match v
    case Zero => NumArg(0)
    case Dotted(s) => StrArg(s)
  }

  /** The decimal numerals of a sequence of numbers, `String(n)` each. */
  function Numerals(ks: seq<nat>): (r: seq<string>)
    ensures |r| == |ks|
    ensures forall i :: 0 <= i < |ks| ==> r[i] == NatToString(ks[i])
  {
    if |ks| == 0 then [] else [NatToString(ks[0])] + Numerals(ks[1..])
  }

  /** The line numbers along a path (each position plus one). */
  function LineNumbers(p: Path): (r: seq<nat>)
    ensures |r| == |p|
    ensures forall i :: 0 <= i < |p| ==> r[i] == p[i] + 1
  {
    if |p| == 0 then [] else [p[0] + 1] + LineNumbers(p[1..])
  }

  function IndexOf(p: Path): IndexVal {
    if |p| == 0 then Zero else Dotted(Join(Numerals(LineNumbers(p)), '.'))
  }

  lemma NumeralsDotFree(ks: seq<nat>)
    ensures forall i :: 0 <= i < |ks| ==> '.' !in Numerals(ks)[i]
  {
    forall i | 0 <= i < |ks| ensures '.' !in Numerals(ks)[i] {
      var s := NatToString(ks[i]);
      forall j | 0 <= j < |s| ensures s[j] != '.' {
        assert IsDigit(s[j]);
      }
    }
  }

  /** Two lines at different positions never share an index. */
  lemma IndexInjective(p: Path, q: Path)
    requires IndexOf(p) == IndexOf(q)
    ensures p == q
  {
    if |p| > 0 && |q| > 0 {
      var a := Numerals(LineNumbers(p));
      var b := Numerals(LineNumbers(q));
      NumeralsDotFree(LineNumbers(p));
      NumeralsDotFree(LineNumbers(q));
      SplitJoin(a, '.');
      SplitJoin(b, '.');
      NumeralsInjective(p, q);
    }
  }

  lemma NumeralsInjective(p: Path, q: Path)
    requires Numerals(LineNumbers(p)) == Numerals(LineNumbers(q))
    ensures p == q
  {
    var a := Numerals(LineNumbers(p));
    var b := Numerals(LineNumbers(q));
    forall i | 0 <= i < |p| ensures p[i] == q[i] {
      assert a[i] == b[i];
      NatToStringInjective(p[i] + 1, q[i] + 1);
    }
  }

  // ---------------------------------------------------------------------------
  // getLine

  /** The result of `getLine`: a line, `false`, or a thrown TypeError. */
  datatype Lookup = Found(path: Path) | NotFound | Threw

  /** `getLine(k)` with a number, on the line at `q`. */
  function Hop<T>(t: Tree<T>, q: Path, k: IntOrNaN): (r: Lookup)
    requires ValidPath(t, q)
    ensures r != Threw
    ensures r.Found? ==> ValidPath(t, r.path)
    ensures r.Found? ==> r.path == q || (|r.path| == |q| + 1 && Parent(r.path) == q)
  {
    if !TruthyInt(k) then Found(q)
    else
      var n := At(t, q);
      if HasChildArray(n) && 1 <= k.i <= |n.children| then
        ValidChild(t, q, k.i - 1);
        Found(q + [k.i - 1])
      else NotFound
  }

  /** The loop of `getLine` over the segments of a dotted string: each segment is
      converted with `Number` and looked up on the previous result. Calling
      `getLine` on `false` throws. */
  function Walk<T>(t: Tree<T>, cur: Lookup, segs: seq<string>): (r: Lookup)
    requires cur.Found? ==> ValidPath(t, cur.path)
    ensures r.Found? ==> ValidPath(t, r.path)
    ensures r.Found? && cur.Found? ==> cur.path <= r.path
    decreases |segs|
  {
    if |segs| == 0 then cur
    else
      match cur
      case Found(q) => Walk(t, Hop(t, q, ToNumber(segs[0])), segs[1..])
      case NotFound => Threw
      case Threw => Threw
  }

  /** `getLine(index)` on the line at `p`. */
  function GetLine<T>(t: Tree<T>, p: Path, arg: IndexArg): (r: Lookup)
    requires ValidPath(t, p)
    ensures r.Found? ==> ValidPath(t, r.path) && p <= r.path
  {
    match arg
    case NumArg(k) => Hop(t, p, Int(k))
    case StrArg(s) => if s == "" then Found(p) else Walk(t, Found(p), Split(s, '.'))
  }

  lemma HopChild<T>(t: Tree<T>, r: Path, i: nat)
    requires ValidPath(t, r) && i < |At(t, r).children|
    ensures ValidPath(t, r + [i]) && Hop(t, r, Int(i + 1)) == Found(r + [i])
  {
    ValidChild(t, r, i);
  }

  lemma StepPath(r: Path, p: Path)
    requires |p| > 0
    ensures r + [p[0]] + p[1..] == r + p
  {
    assert p == [p[0]] + p[1..];
  }

  lemma NumeralsStep(p: Path)
    requires |p| > 0
    ensures Numerals(LineNumbers(p)) == [NatToString(p[0] + 1)] + Numerals(LineNumbers(p[1..]))
  {
    var ls := LineNumbers(p);
    assert ls[1..] == LineNumbers(p[1..]);
    assert Numerals(ls) == [NatToString(ls[0])] + Numerals(ls[1..]);
  }

  lemma {:induction false} WalkLineNumbers<T>(t: Tree<T>, r: Path, p: Path)
    requires ValidPath(t, r) && ValidPath(t, r + p)
    ensures Walk(t, Found(r), Numerals(LineNumbers(p))) == Found(r + p)
    decreases |p|
  {
    if |p| == 0 {
      assert r + p == r;
    } else {
      ValidConcat(t, r, p);
      NumeralsStep(p);
      var segs := Numerals(LineNumbers(p));
      NumberOfString(p[0] + 1);
      assert ToNumber(segs[0]) == Int(p[0] + 1);
      HopChild(t, r, p[0]);
      var r' := r + [p[0]];
      StepPath(r, p);
      assert segs[1..] == Numerals(LineNumbers(p[1..]));
      assert Walk(t, Found(r), segs) == Walk(t, Found(r'), segs[1..]);
      WalkLineNumbers(t, r', p[1..]);
    }
  }

  /** For every line under the receiver, `getLine(line.index)` relative to the receiver
      returns that line; from the root this is `root.getLine(x.index) === x`. */
  lemma GetLineIndex<T>(t: Tree<T>, r: Path, p: Path)
    requires ValidPath(t, r + p)
    ensures ValidPath(t, r)
    ensures GetLine(t, r, ArgOf(IndexOf(p))) == Found(r + p)
  {
    ValidConcat(t, r, p);
    if |p| == 0 {
      assert r + p == r;
    } else {
      var segs := Numerals(LineNumbers(p));
      NumeralsDotFree(LineNumbers(p));
      SplitJoin(segs, '.');
      assert |segs[0]| >= 1;
      var s := Join(segs, '.');
      assert s != "" by {
        if |segs| > 1 { assert |s| >= |segs[0]|; }
      }
      WalkLineNumbers(t, r, p);
    }
  }

  /** The index every line in the tree reports resolves, from the root, to that line. */
  lemma RootGetLineIndex<T>(t: Tree<T>, p: Path)
    requires ValidPath(t, p)
    ensures GetLine(t, [], ArgOf(IndexOf(p))) == Found(p)
  {
    assert [] + p == p;
    GetLineIndex(t, [], p);
  }

  /** The line numbers that name the positions `ks` (1-based), possibly out of range. */
  function Positions(ks: seq<nat>): Path
  {
    if |ks| == 0 then [] else [if ks[0] >= 1 then ks[0] - 1 else 0] + Positions(ks[1..])
  }

  /** A dotted path `k1.k2...kn` of positive numbers that stays inside the tree for `j`
      hops and then names a missing line: `getLine` returns `false` when that hop is
      the last one, and throws when more hops follow, because the next hop then
      calls `getLine` on `false`. */
  lemma {:induction false} GetLineMissingHop<T>(t: Tree<T>, r: Path, ks: seq<nat>, j: nat)
    requires ValidPath(t, r)
    requires forall i :: 0 <= i < |ks| ==> ks[i] >= 1
    requires j < |ks|
    requires ValidPath(t, r + Positions(ks[..j]))
    requires ks[j] > |At(t, r + Positions(ks[..j])).children|
    ensures Walk(t, Found(r), Numerals(ks)) == if j == |ks| - 1 then NotFound else Threw
    decreases j
  {
    WalkNumerals(t, r, ks);
    if j == 0 {
      assert r + Positions(ks[..0]) == r;
      assert Hop(t, r, Int(ks[0])) == NotFound;
      if |ks| > 1 {
        assert Walk(t, NotFound, Numerals(ks[1..])) == Threw;
      }
    } else {
      var r' := r + [ks[0] - 1];
      PositionsStep(r, ks, j);
      ValidPrefix(t, r + Positions(ks[..j]), r');
      ValidChild(t, r, ks[0] - 1);
      assert Hop(t, r, Int(ks[0])) == Found(r');
      GetLineMissingHop(t, r', ks[1..], j - 1);
    }
  }

  /** One hop of the walk over the numerals of `ks`. */
  lemma WalkNumerals<T>(t: Tree<T>, r: Path, ks: seq<nat>)
    requires ValidPath(t, r) && |ks| > 0
    ensures Walk(t, Found(r), Numerals(ks)) == Walk(t, Hop(t, r, Int(ks[0])), Numerals(ks[1..]))
  {
    var segs := Numerals(ks);
    NumberOfString(ks[0]);
    assert ToNumber(segs[0]) == Int(ks[0]);
    assert segs[1..] == Numerals(ks[1..]);
  }

  lemma PositionsStep(r: Path, ks: seq<nat>, j: nat)
    requires 0 < j <= |ks| && ks[0] >= 1
    ensures r + Positions(ks[..j]) == r + [ks[0] - 1] + Positions(ks[1..][..j - 1])
  {
    assert ks[..j][1..] == ks[1..][..j - 1];
    assert Positions(ks[..j]) == [ks[0] - 1] + Positions(ks[1..][..j - 1]);
  }

  // ---------------------------------------------------------------------------
  // descendants and document order

  function Prefixed(i: nat, ps: seq<Path>): (r: seq<Path>)
    ensures |r| == |ps|
    ensures forall j :: 0 <= j < |ps| ==> r[j] == [i] + ps[j]
  {
    if |ps| == 0 then [] else [[i] + ps[0]] + Prefixed(i, ps[1..])
  }

  /** `descendants`: every line below `t`, in pre-order (a child, then its own
      descendants, then the next child), as positions relative to `t`. */
  function Desc<T>(t: Tree<T>): seq<Path>
    decreases t, 1
  {
    DescFrom(t, 0)
  }

  function DescFrom<T>(t: Tree<T>, i: nat): seq<Path>
    requires i <= |t.children|
    decreases t, 0, |t.children| - i
  {
    if i == |t.children| then []
    else [[i]] + Prefixed(i, Desc(t.children[i])) + DescFrom(t, i + 1)
  }

  /** The whole subtree in document order: the line itself, then its descendants. */
  function PreOrder<T>(t: Tree<T>): seq<Path> {
    [[]] + Desc(t)
  }

  lemma {:induction false} DescFromMembers<T>(t: Tree<T>, i: nat)
    requires i <= |t.children|
    ensures forall q :: q in DescFrom(t, i) <==> |q| >= 1 && i <= q[0] && ValidPath(t, q)
    decreases t, 0, |t.children| - i
  {
    if i < |t.children| {
      DescFromMembers(t, i + 1);
      DescMembers(t.children[i]);
      forall q ensures q in DescFrom(t, i) <==> |q| >= 1 && i <= q[0] && ValidPath(t, q) {
        assert DescFrom(t, i) == [[i]] + Prefixed(i, Desc(t.children[i])) + DescFrom(t, i + 1);
        BlockMember(t, i, q);
      }
    }
  }

  /** The lines of block `i` of the descendants are `[i]` and the positions below it. */
  lemma BlockMember<T>(t: Tree<T>, i: nat, q: Path)
    requires i < |t.children|
    requires forall x :: x in Desc(t.children[i]) <==> |x| >= 1 && ValidPath(t.children[i], x)
    ensures (q in [[i]] + Prefixed(i, Desc(t.children[i])))
        <==> (|q| >= 1 && q[0] == i && ValidPath(t, q))
  {
    if q in Prefixed(i, Desc(t.children[i])) {
      BlockMemberBelow(t, i, q);
    }
    if |q| >= 1 && q[0] == i && ValidPath(t, q) && q != [i] {
      BlockMemberAbove(t, i, q);
    }
  }

  lemma BlockMemberBelow<T>(t: Tree<T>, i: nat, q: Path)
    requires i < |t.children|
    requires forall x :: x in Desc(t.children[i]) ==> |x| >= 1 && ValidPath(t.children[i], x)
    requires q in Prefixed(i, Desc(t.children[i]))
    ensures |q| >= 1 && q[0] == i && ValidPath(t, q)
  {
    var inner := Desc(t.children[i]);
    var block := Prefixed(i, inner);
    var j :| 0 <= j < |block| && block[j] == q;
    assert q[1..] == inner[j];
  }

  lemma BlockMemberAbove<T>(t: Tree<T>, i: nat, q: Path)
    requires i < |t.children|
    requires forall x :: |x| >= 1 && ValidPath(t.children[i], x) ==> x in Desc(t.children[i])
    requires |q| >= 1 && q[0] == i && ValidPath(t, q) && q != [i]
    ensures q in Prefixed(i, Desc(t.children[i]))
  {
    var inner := Desc(t.children[i]);
    var block := Prefixed(i, inner);
    var rest := q[1..];
    assert q == [i] + rest;
    assert |rest| >= 1 && ValidPath(t.children[i], rest);
    assert rest in inner;
    var j :| 0 <= j < |inner| && inner[j] == rest;
    assert block[j] == q;
  }

  /** The descendants are exactly the lines strictly below `t`. */
  lemma DescMembers<T>(t: Tree<T>)
    ensures forall q :: q in Desc(t) <==> |q| >= 1 && ValidPath(t, q)
    decreases t, 1
  {
    DescFromMembers(t, 0);
  }

  lemma PreOrderMembers<T>(t: Tree<T>)
    ensures forall q :: q in PreOrder(t) <==> ValidPath(t, q)
  {
    DescMembers(t);
  }

  predicate Distinct<X(==)>(s: seq<X>) {
    forall i, j :: 0 <= i < j < |s| ==> s[i] != s[j]
  }

  lemma DistinctConcat<X>(a: seq<X>, b: seq<X>)
    requires Distinct(a) && Distinct(b)
    requires forall x :: x in a ==> x !in b
    ensures Distinct(a + b)
  {
    forall i, j | 0 <= i < j < |a + b| ensures (a + b)[i] != (a + b)[j] {
      if i < |a| && j >= |a| {
        assert (a + b)[i] in a && (a + b)[j] in b;
      }
    }
  }

  lemma {:induction false} DescFromDistinct<T>(t: Tree<T>, i: nat)
    requires i <= |t.children|
    ensures Distinct(DescFrom(t, i))
    decreases t, 0, |t.children| - i
  {
    if i < |t.children| {
      DescFromDistinct(t, i + 1);
      DescDistinct(t.children[i]);
      DescFromMembers(t, i + 1);
      var inner := Desc(t.children[i]);
      var block := Prefixed(i, inner);
      DescMembers(t.children[i]);
      PrefixedDistinct(i, inner);
      PrefixedHeads(i, inner);
      DistinctConcat([[i]], block);
      var head := [[i]] + block;
      forall x | x in head ensures x !in DescFrom(t, i + 1) {
        assert x[0] == i;
      }
      DistinctConcat([[i]] + block, DescFrom(t, i + 1));
    }
  }

  lemma PrefixedDistinct(i: nat, ps: seq<Path>)
    requires Distinct(ps)
    ensures Distinct(Prefixed(i, ps))
  {
    var r := Prefixed(i, ps);
    forall a, b | 0 <= a < b < |r| ensures r[a] != r[b] {
      assert r[a][1..] == ps[a] && r[b][1..] == ps[b];
    }
  }

  lemma PrefixedHeads(i: nat, ps: seq<Path>)
    requires forall x :: x in ps ==> |x| >= 1
    ensures forall x :: x in Prefixed(i, ps) ==> |x| >= 2 && x[0] == i
  {
    var r := Prefixed(i, ps);
    forall x | x in r ensures |x| >= 2 && x[0] == i {
      var j :| 0 <= j < |r| && r[j] == x;
      assert ps[j] in ps;
    }
  }

  /** No line occurs twice among the descendants. */
  lemma DescDistinct<T>(t: Tree<T>)
    ensures Distinct(Desc(t))
    decreases t, 1
  {
    DescFromDistinct(t, 0);
  }

  // ---------------------------------------------------------------------------
  // changing the tree at a position

  /** The tree with the line at `p` replaced by `s`. */
  function Replace<T>(t: Tree<T>, p: Path, s: Tree<T>): (r: Tree<T>)
    requires ValidPath(t, p)
    ensures ValidPath(r, p) && At(r, p) == s
    decreases |p|
  {
    if |p| == 0 then s
    else t.(children := t.children[p[0] := Replace(t.children[p[0]], p[1..], s)])
  }

  /** Replacing the line at `p` leaves the lines off that position alone, and changes
      neither the data nor the number of children of the lines above it. */
  lemma {:induction false} ReplaceElsewhere<T>(t: Tree<T>, p: Path, s: Tree<T>, q: Path)
    requires ValidPath(t, p) && ValidPath(t, q)
    requires !(p <= q)
    ensures ValidPath(Replace(t, p, s), q)
    ensures q < p ==> (At(Replace(t, p, s), q).data == At(t, q).data
                       && |At(Replace(t, p, s), q).children| == |At(t, q).children|)
    ensures !(q < p) ==> At(Replace(t, p, s), q) == At(t, q)
    decreases |q|
  {
    if |q| > 0 {
      assert |p| > 0;
      if p[0] == q[0] {
        assert !(p[1..] <= q[1..]);
        assert q < p ==> q[1..] < p[1..];
        assert !(q < p) ==> !(q[1..] < p[1..]);
        ReplaceElsewhere(t.children[p[0]], p[1..], s, q[1..]);
      }
    }
  }

  lemma {:induction false} ReplaceTwice<T>(t: Tree<T>, p: Path, a: Tree<T>, b: Tree<T>)
    requires ValidPath(t, p)
    ensures Replace(Replace(t, p, a), p, b) == Replace(t, p, b)
    decreases |p|
  {
    if |p| > 0 {
      ReplaceTwice(t.children[p[0]], p[1..], a, b);
    }
  }

  lemma {:induction false} ReplaceSame<T>(t: Tree<T>, p: Path)
    requires ValidPath(t, p)
    ensures Replace(t, p, At(t, p)) == t
    decreases |p|
  {
    if |p| > 0 {
      ReplaceSame(t.children[p[0]], p[1..]);
    }
  }

  function InsertChild<T>(n: Tree<T>, pos: nat, c: Tree<T>): (r: Tree<T>)
    requires pos <= |n.children|
    ensures r.data == n.data && HasChildArray(r)
    ensures |r.children| == |n.children| + 1 && r.children[pos] == c
  {
    n.(children := n.children[..pos] + [c] + n.children[pos..], hasArray := true)
  }

  function RemoveChild<T>(n: Tree<T>, pos: nat): (r: Tree<T>)
    requires pos < |n.children|
    ensures r.data == n.data && r.hasArray == HasChildArray(n)
    ensures |r.children| + 1 == |n.children|
  {
    n.(children := n.children[..pos] + n.children[pos + 1..], hasArray := true)
  }

  /** Where `add` or `addLine` put the new line: inserted under the line it names as
      parent; pushed onto the receiver's children although its parent link names
      another line; or nowhere, because a TypeError was thrown. */
  datatype Attached = Inserted(parent: Path, pos: nat)
                    | Misplaced(container: Path, pos: nat, linkedParent: Path)
                    | AttachThrew

  /** The line whose children array receives the new line. */
  function Receiving(a: Attached): Path
    requires !a.AttachThrew?
  {
    if a.Inserted? then a.parent else a.container
  }

  predicate Fits<T>(t: Tree<T>, a: Attached) {
    !a.AttachThrew? ==> ValidPath(t, Receiving(a)) && a.pos <= |At(t, Receiving(a)).children|
  }

  /** The insertion step shared by `add` and `addLine`: `newParent` has been resolved to
      `target` and the requested 1-based position is `k`. If the parent has a children
      array and `k` is truthy and below its length, `splice(k - 1, 0, node)` inserts;
      otherwise the node is pushed onto the RECEIVER's children (`this.children.push`),
      which throws when the receiver has no children array; a parent without an array
      gets a new one holding the node. `newParent` being `false` makes the assignment
      `newParent.children = ...` throw. */
  function Placement<T>(t: Tree<T>, p: Path, target: Lookup, k: IntOrNaN): (r: Attached)
    requires ValidPath(t, p)
    requires target.Found? ==> ValidPath(t, target.path)
    ensures Fits(t, r)
    ensures r.AttachThrew? <==>
      !target.Found?
      || (HasChildArray(At(t, target.path))
          && !(TruthyInt(k) && k.i < |At(t, target.path).children|)
          && !HasChildArray(At(t, p)))
    ensures r.Inserted? ==> target == Found(r.parent)
    ensures r.Inserted? && TruthyInt(k) && 1 <= k.i < |At(t, r.parent).children|
      ==> r.pos == k.i - 1
    ensures r.Inserted? && TruthyInt(k) && k.i < |At(t, r.parent).children|
      ==> r.pos == SpliceStart(k.i - 1, |At(t, r.parent).children|)
    ensures r.Inserted? && !(TruthyInt(k) && k.i < |At(t, r.parent).children|)
      ==> r.pos == |At(t, r.parent).children|
    ensures r.Misplaced? ==>
      && r.container == p && r.pos == |At(t, p).children|
      && target == Found(r.linkedParent) && r.linkedParent != p
      && HasChildArray(At(t, r.linkedParent))
      && !(TruthyInt(k) && k.i < |At(t, r.linkedParent).children|)
  {
    match target
    case Found(q) =>
      var parent := At(t, q);
      if HasChildArray(parent) then
        if TruthyInt(k) && k.i < |parent.children| then
          Inserted(q, SpliceStart(k.i - 1, |parent.children|))
        else
          var recv := At(t, p);
          if HasChildArray(recv) then
            if q == p then Inserted(p, |recv.children|) else Misplaced(p, |recv.children|, q)
          else AttachThrew
      else Inserted(q, 0)
    case _ => AttachThrew
  }

  /** Puts `node` where the placement says: it becomes child `pos` of the receiving
      line, that line's other children keep their order around it and its data is kept,
      and no line off that position is lost. */
  function Place<T>(t: Tree<T>, a: Attached, node: Tree<T>): (r: Tree<T>)
    requires Fits(t, a)
    ensures a.AttachThrew? ==> r == t
    ensures !a.AttachThrew? ==>
      var q := Receiving(a);
      && ValidPath(r, q) && ValidPath(r, q + [a.pos])
      && At(r, q + [a.pos]) == node
      && At(r, q).children == At(t, q).children[..a.pos] + [node] + At(t, q).children[a.pos..]
      && At(r, q).data == At(t, q).data
      && (forall x :: ValidPath(t, x) && !(q <= x) ==> ValidPath(r, x))
    ensures !a.AttachThrew? ==>
      var q := Receiving(a);
      forall x :: ValidPath(t, x) && !(q <= x) && !(x < q) ==> ValidPath(r, x) && At(r, x) == At(t, x)
    ensures !a.AttachThrew? ==>
      var q := Receiving(a);
      forall x :: ValidPath(t, x) && x < q ==>
        ValidPath(r, x) && At(r, x).data == At(t, x).data && |At(r, x).children| == |At(t, x).children|
  {
    if a.AttachThrew? then t
    else
      InsertPlaces(t, Receiving(a), a.pos, node);
      Replace(t, Receiving(a), InsertChild(At(t, Receiving(a)), a.pos, node))
  }

  lemma InsertPlaces<T>(t: Tree<T>, q: Path, pos: nat, node: Tree<T>)
    requires ValidPath(t, q) && pos <= |At(t, q).children|
    ensures var t' := Replace(t, q, InsertChild(At(t, q), pos, node));
      && ValidPath(t', q + [pos])
      && At(t', q + [pos]) == node
      && At(t', q).children == At(t, q).children[..pos] + [node] + At(t, q).children[pos..]
      && At(t', q).data == At(t, q).data
      && (forall x :: ValidPath(t, x) && !(q <= x) ==> ValidPath(t', x))
    ensures var t' := Replace(t, q, InsertChild(At(t, q), pos, node));
      forall x :: ValidPath(t, x) && !(q <= x) && !(x < q) ==> At(t', x) == At(t, x)
    ensures var t' := Replace(t, q, InsertChild(At(t, q), pos, node));
      forall x :: ValidPath(t, x) && x < q ==>
        At(t', x).data == At(t, x).data && |At(t', x).children| == |At(t, x).children|
  {
    var n' := InsertChild(At(t, q), pos, node);
    var t' := Replace(t, q, n');
    ValidChild(t', q, pos);
    forall x | ValidPath(t, x) && !(q <= x)
      ensures ValidPath(t', x)
      ensures !(x < q) ==> At(t', x) == At(t, x)
      ensures x < q ==> At(t', x).data == At(t, x).data && |At(t', x).children| == |At(t, x).children|
    {
      ReplaceElsewhere(t, q, n', x);
    }
  }

  /** `remove()`: `this.parent.children.splice(lineNumber - 1, 1)`. On the root
      `this.parent` is undefined and the call throws. */
  function RemoveAt<T>(t: Tree<T>, p: Path): (r: Result<Tree<T>>)
    requires ValidPath(t, p)
    ensures r.TypeError? <==> |p| == 0
  {
    if |p| == 0 then TypeError
    else
      ValidParent(t, p);
      var q := Parent(p);
      Ok(Replace(t, q, RemoveChild(At(t, q), LineNumber(p) - 1)))
  }

  /** Removing a line deletes exactly that child of its parent: the siblings before and
      after it keep their order. */
  lemma RemoveDeletes<T>(t: Tree<T>, p: Path)
    requires ValidPath(t, p) && |p| > 0
    ensures ValidPath(t, Parent(p)) && Last(p) < |At(t, Parent(p)).children|
    ensures var q := Parent(p);
      var old_ := At(t, q).children;
      var t' := RemoveAt(t, p).value;
      && ValidPath(t', q)
      && At(t', q).children == old_[..Last(p)] + old_[Last(p) + 1..]
      && At(t', q).data == At(t, q).data
  {
    ValidParent(t, p);
    var q := Parent(p);
  }

  /** Removing a line just inserted gives back the parent's old children. */
  lemma RemoveUndoesInsert<T>(t: Tree<T>, q: Path, pos: nat, node: Tree<T>)
    requires ValidPath(t, q) && pos <= |At(t, q).children|
    ensures var t1 := Replace(t, q, InsertChild(At(t, q), pos, node));
      ValidPath(t1, q + [pos]) && RemoveAt(t1, q + [pos]) == Ok(Replace(t, q, At(t, q).(hasArray := true)))
  {
    var n0 := At(t, q);
    var n1 := InsertChild(n0, pos, node);
    var t1 := Replace(t, q, n1);
    RemoveAtChild(t1, q, pos);
    RemoveChildUndoesInsert(n0, pos, node);
    ReplaceTwice(t, q, n1, RemoveChild(n1, pos));
  }

  lemma RemoveAtChild<T>(t: Tree<T>, q: Path, pos: nat)
    requires ValidPath(t, q) && pos < |At(t, q).children|
    ensures ValidPath(t, q + [pos])
    ensures RemoveAt(t, q + [pos]) == Ok(Replace(t, q, RemoveChild(At(t, q), pos)))
  {
    var p := q + [pos];
    assert Parent(p) == q;
    assert LineNumber(p) == pos + 1;
    ValidChild(t, q, pos);
    var n := RemoveChild(At(t, q), pos);
    assert RemoveAt(t, p) == Ok(Replace(t, q, n));
  }

  lemma RemoveChildUndoesInsert<T>(n: Tree<T>, pos: nat, c: Tree<T>)
    requires pos <= |n.children|
    ensures RemoveChild(InsertChild(n, pos, c), pos) == n.(hasArray := true)
  {
    var cs := n.children;
    var n1 := InsertChild(n, pos, c);
    assert n1.children[..pos] == cs[..pos];
    assert n1.children[pos + 1..] == cs[pos..];
    assert cs[..pos] + cs[pos..] == cs;
  }

  // ---------------------------------------------------------------------------
  // siblings and ancestors

  /** The positions of the other children of the parent, in order. */
  function SiblingPositions(q: Path, n: nat, i: nat): (r: seq<Path>)
    requires i < n
    ensures |r| == n - 1
  {
    seq(n - 1, j requires 0 <= j < n - 1 => q + [if j < i then j else j + 1])
  }

  /** `siblings`: the parent's children other than this line, in order. The root has
      no parent and the getter throws. */
  method Siblings<T>(t: Tree<T>, p: Path) returns (r: Result<seq<Path>>)
    requires ValidPath(t, p)
    ensures |p| == 0 ==> r == TypeError
    ensures |p| > 0 ==> (ValidPath(t, Parent(p)) && Last(p) < |At(t, Parent(p)).children|
                         && r == Ok(SiblingPositions(Parent(p), |At(t, Parent(p)).children|, Last(p))))
  {
    if |p| == 0 {
      return TypeError;
    }
    ValidParent(t, p);
    var q := Parent(p);
    var n := |At(t, q).children|;
    var acc: seq<Path> := [];
    for i := 0 to n
      invariant |acc| == if i <= Last(p) then i else i - 1
      invariant forall j :: 0 <= j < |acc| ==> acc[j] == q + [if j < Last(p) then j else j + 1]
    {
      if i != Last(p) {
        acc := acc + [q + [i]];
      }
    }
    assert acc == SiblingPositions(q, n, Last(p));
    return Ok(acc);
  }

  /** `ancestors`: the parent, its parent, and so on up to the root. */
  method Ancestors(p: Path) returns (r: seq<Path>)
    ensures |r| == |p|
    ensures forall i :: 0 <= i < |p| ==> r[i] == p[..|p| - 1 - i]
  {
    r := [];
    var cur := p;
    while |cur| > 0
      invariant |r| <= |p| && cur == p[..|p| - |r|]
      invariant forall i :: 0 <= i < |r| ==> r[i] == p[..|p| - 1 - i]
    {
      cur := Parent(cur);
      r := r + [cur];
    }
  }

  /** `root`: walking up parent links while the level is not 0 ends at the root,
      whichever line it starts from, and passes through every ancestor. */
  method Root(p: Path) returns (r: Path, steps: nat)
    ensures r == [] && steps == Level(p)
  {
    r := p;
    steps := 0;
    while Level(r) != 0
      invariant |r| + steps == |p|
      invariant r == p[..|r|]
    {
      r := Parent(r);
      steps := steps + 1;
    }
  }

  /** `index`: the loop that collects line numbers while walking up to the root. */
  method ComputeIndex(p: Path) returns (r: IndexVal)
    ensures r == IndexOf(p)
  {
    var nums: seq<nat> := [];
    var cur := p;
    while |cur| > 0
      invariant |nums| <= |p| && cur == p[..|p| - |nums|]
      invariant nums == LineNumbers(p[|p| - |nums|..])
    {
      var lineNumber := LineNumber(cur);
      ghost var k := |p| - |nums| - 1;
      assert p[k..] == [p[k]] + p[k + 1..];
      nums := [lineNumber] + nums;
      cur := Parent(cur);
    }
    assert p[0..] == p;
    if |nums| > 0 {
      r := Dotted(Join(Numerals(nums), '.'));
    } else {
      r := Zero;
    }
  }

  /** `descendants`: each child, followed by the child's own descendants. */
  method Descendants<T>(t: Tree<T>) returns (ds: seq<Path>)
    ensures ds == Desc(t)
    decreases t
  {
    ds := [];
    for i := 0 to |t.children|
      invariant ds + DescFrom(t, i) == Desc(t)
    {
      var sub := Descendants(t.children[i]);
      DescendantsStep(t, i, ds);
      ds := ds + [[i]];
      ds := ds + Prefixed(i, sub);
    }
  }

  lemma DescendantsStep<T>(t: Tree<T>, i: nat, ds: seq<Path>)
    requires i < |t.children|
    ensures ds + DescFrom(t, i) == ds + [[i]] + Prefixed(i, Desc(t.children[i])) + DescFrom(t, i + 1)
  {
    var a, b, c := [[i]], Prefixed(i, Desc(t.children[i])), DescFrom(t, i + 1);
    assert DescFrom(t, i) == a + b + c;
    assert ds + (a + b + c) == ds + a + b + c;
  }
}
