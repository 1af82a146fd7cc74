/** The row plan of the spreadsheet export: the lines collected in document order, the
    row numbers and child rows recorded for each, the formulas the second pass writes,
    the grand total, and the file name stem. Styling and the workbook itself are not
    part of this model. */
module Excel {
  import opened Js
  import opened Trees
  import opened Lines
  import Navigation

  // ---------------------------------------------------------------------------
  // row keys

  /** `rowMap`'s key for a line: `'root'` for the root, otherwise its index. */
  function RowKey(p: Path): string {
    if |p| == 0 then "root" else Join(Numerals(LineNumbers(p)), '.')
  }

  lemma {:induction false} JoinHead(parts: seq<string>, sep: char)
    requires |parts| > 0 && |parts[0]| > 0
    ensures |Join(parts, sep)| > 0 && Join(parts, sep)[0] == parts[0][0]
  {
  }

  /** Different lines have different keys, so the model keys the row map by the
      line's position instead of the string. */
  lemma {:induction false} RowKeyInjective(p: Path, q: Path)
    requires RowKey(p) == RowKey(q)
    ensures p == q
  {
    if |p| > 0 && |q| > 0 {
      assert IndexOf(p) == IndexOf(q);
      IndexInjective(p, q);
    } else if |p| > 0 || |q| > 0 {
      var r := if |p| > 0 then p else q;
      var segs := Numerals(LineNumbers(r));
      JoinHead(segs, '.');
    }
  }

  // ---------------------------------------------------------------------------
  // collectLines

  /** One collected entry: where the line is, the key of its parent (none for the
      line the export starts from), whether it is the root, and the line itself. */
  datatype Collected = Collected(path: Path, parent: Option<Path>, isRoot: bool, line: Line)

  /** `collectLines(line, parentIndex)` on the line at `p`. */
  function Collect(t: Line, p: Path, parent: Option<Path>): (r: seq<Collected>)
    requires ValidPath(t, p)
    ensures |r| > 0 && r[0] == Collected(p, parent, |p| == 0, At(t, p))
    decreases At(t, p), 1
  {
    [Collected(p, parent, |p| == 0, At(t, p))] + CollectKids(t, p, 0)
  }

  /** The entries of children `i` and later, each child followed by its own lines. */
  function CollectKids(t: Line, p: Path, i: nat): seq<Collected>
    requires ValidPath(t, p) && i <= |At(t, p).children|
    decreases At(t, p), 0, |At(t, p).children| - i
  {
    if i == |At(t, p).children| then []
    else
      ValidChild(t, p, i);
      Collect(t, p + [i], Some(p)) + CollectKids(t, p, i + 1)
  }

  /** `collectLines`: the entry of the line, then the entries of each child. */
  method CollectLines(t: Line, p: Path, parent: Option<Path>) returns (lines: seq<Collected>)
    requires ValidPath(t, p)
    ensures lines == Collect(t, p, parent)
    decreases At(t, p)
  {
    var n := At(t, p);
    lines := [Collected(p, parent, |p| == 0, n)];
    for i := 0 to |n.children|
      invariant lines + CollectKids(t, p, i) == Collect(t, p, parent)
    {
      ValidChild(t, p, i);
      var sub := CollectLines(t, p + [i], Some(p));
      lines := lines + sub;
    }
  }

  function Paths(ls: seq<Collected>): (r: seq<Path>)
    ensures |r| == |ls| && forall k :: 0 <= k < |ls| ==> r[k] == ls[k].path
  {
    seq(|ls|, k requires 0 <= k < |ls| => ls[k].path)
  }

  lemma {:induction false} CollectKidsOrder(t: Line, p: Path, i: nat)
    requires ValidPath(t, p) && i <= |At(t, p).children|
    ensures Paths(CollectKids(t, p, i)) == Navigation.DocKids(t, p, i)
    decreases At(t, p), 0, |At(t, p).children| - i
  {
    if i < |At(t, p).children| {
      ValidChild(t, p, i);
      CollectOrder(t, p + [i], Some(p));
      CollectKidsOrder(t, p, i + 1);
      var a := Collect(t, p + [i], Some(p));
      var b := CollectKids(t, p, i + 1);
      assert CollectKids(t, p, i) == a + b;
      PathsConcat(a, b);
    }
  }

  lemma PathsConcat(a: seq<Collected>, b: seq<Collected>)
    ensures Paths(a + b) == Paths(a) + Paths(b)
  {
  }

  lemma {:induction false} CollectOrder(t: Line, p: Path, parent: Option<Path>)
    requires ValidPath(t, p)
    ensures Paths(Collect(t, p, parent)) == Navigation.DocFrom(t, p)
    decreases At(t, p), 1
  {
    CollectKidsOrder(t, p, 0);
    var ks := CollectKids(t, p, 0);
    assert Paths([Collected(p, parent, |p| == 0, At(t, p))] + ks) == [p] + Paths(ks);
  }

  /** From the root, the lines come in document order: the root, then the order of
      `descendants`. */
  lemma {:induction false} CollectIsPreOrder(t: Line)
    ensures Paths(Collect(t, [], None)) == PreOrder(t)
  {
    CollectOrder(t, [], None);
    Navigation.DocRoot(t);
  }

  /** Every entry names a line of the subtree; only the first has the given parent,
      every other one names its own parent, and only the root is flagged. */
  predicate WellCollected(t: Line, p: Path, parent: Option<Path>, ls: seq<Collected>) {
    forall k :: 0 <= k < |ls| ==>
      && ValidPath(t, ls[k].path) && p <= ls[k].path && ls[k].line == At(t, ls[k].path)
      && (ls[k].isRoot <==> |ls[k].path| == 0)
      && (k == 0 ==> ls[k].path == p && ls[k].parent == parent)
      && (k > 0 ==> |ls[k].path| > |p| && ls[k].parent == Some(Parent(ls[k].path)))
  }

  lemma {:induction false} CollectKidsFields(t: Line, p: Path, i: nat)
    requires ValidPath(t, p) && i <= |At(t, p).children|
    ensures forall k :: 0 <= k < |CollectKids(t, p, i)| ==>
      && ValidPath(t, CollectKids(t, p, i)[k].path) && p < CollectKids(t, p, i)[k].path
      && CollectKids(t, p, i)[k].line == At(t, CollectKids(t, p, i)[k].path)
      && (CollectKids(t, p, i)[k].isRoot <==> |CollectKids(t, p, i)[k].path| == 0)
      && CollectKids(t, p, i)[k].parent == Some(Parent(CollectKids(t, p, i)[k].path))
    decreases At(t, p), 0, |At(t, p).children| - i
  {
    if i < |At(t, p).children| {
      ValidChild(t, p, i);
      CollectFields(t, p + [i], Some(p));
      CollectKidsFields(t, p, i + 1);
      var a: seq<Collected> := Collect(t, p + [i], Some(p));
      var ab: seq<Collected> := a + CollectKids(t, p, i + 1);
      forall k | 0 <= k < |ab|
        ensures ValidPath(t, ab[k].path) && p < ab[k].path && ab[k].line == At(t, ab[k].path) && (ab[k].isRoot <==> |ab[k].path| == 0)
          && ab[k].parent == Some(Parent(ab[k].path))
      {
        if k < |a| {
          var e := a[k];
          assert p <= p + [i] <= e.path;
          if k == 0 {
            assert Parent(e.path) == p;
          }
        }
      }
    }
  }

  lemma {:induction false} CollectFields(t: Line, p: Path, parent: Option<Path>)
    requires ValidPath(t, p)
    ensures WellCollected(t, p, parent, Collect(t, p, parent))
    decreases At(t, p), 1
  {
    CollectKidsFields(t, p, 0);
    var ks := CollectKids(t, p, 0);
    assert forall k :: 0 < k < |Collect(t, p, parent)| ==> Collect(t, p, parent)[k] == ks[k - 1];
  }

  /** `allLines` of a budget's export: the collection from the root. */
  function AllLines(t: Line): seq<Collected> {
    Collect(t, [], None)
  }

  /** The parent key a line is collected with. */
  function ParentKey(p: Path): Option<Path> {
    if |p| == 0 then None else Some(Parent(p))
  }

  /** The entries collected for the subtree at `p`. */
  function Block(t: Line, p: Path): (r: seq<Collected>)
    requires ValidPath(t, p)
    ensures |r| == 1 + |CollectKids(t, p, 0)|
  {
    Collect(t, p, ParentKey(p))
  }

  lemma {:induction false} CollectKidsSuffix(t: Line, p: Path, i: nat)
    requires ValidPath(t, p) && i <= |At(t, p).children|
    ensures |CollectKids(t, p, i)| <= |CollectKids(t, p, 0)|
    ensures CollectKids(t, p, 0)[|CollectKids(t, p, 0)| - |CollectKids(t, p, i)|..] == CollectKids(t, p, i)
    ensures i < |At(t, p).children| ==> |CollectKids(t, p, i)| > |CollectKids(t, p, i + 1)|
  {
    if i < |At(t, p).children| {
      ValidChild(t, p, i);
    }
    if i > 0 {
      CollectKidsSuffix(t, p, i - 1);
      ValidChild(t, p, i - 1);
      var prev := CollectKids(t, p, i - 1);
      assert prev == Collect(t, p + [i - 1], Some(p)) + CollectKids(t, p, i);
      assert prev[|prev| - |CollectKids(t, p, i)|..] == CollectKids(t, p, i);
    }
  }

  /** Where the line at `p` is collected in `AllLines(t)`: after its parent and the
      entries of its earlier siblings. */
  function Offset(t: Line, p: Path): nat
    requires ValidPath(t, p)
    decreases |p|
  {
    if |p| == 0 then 0
    else
      ValidParent(t, p);
      CollectKidsSuffix(t, Parent(p), Last(p));
      Offset(t, Parent(p)) + 1 + |CollectKids(t, Parent(p), 0)| - |CollectKids(t, Parent(p), Last(p))|
  }

  /** The row the export gives the line at `q`. */
  function RowOf(t: Line, q: Path): nat {
    if ValidPath(t, q) then 2 + Offset(t, q) else 0
  }

  /** The rows of a line's children, in child order. */
  function ChildRowsOf(t: Line, p: Path): (r: seq<nat>)
    requires ValidPath(t, p)
    ensures |r| == |At(t, p).children|
  {
    seq(|At(t, p).children|, i requires 0 <= i < |At(t, p).children| => RowOf(t, p + [i]))
  }

  lemma {:induction false} SliceIn<X>(l: seq<X>, o: nat, x: seq<X>, a: nat, y: seq<X>, o2: nat)
    requires o + |x| <= |l| && l[o..o + |x|] == x
    requires a + |y| <= |x| && x[a..a + |y|] == y
    requires o2 == o + a
    ensures o2 + |y| <= |l| && l[o2..o2 + |y|] == y
  {
    forall j | 0 <= j < |y| ensures l[o2 + j] == y[j] {
      assert y[j] == x[a + j] == l[o + a + j];
    }
  }

  /** Where the block of child `i` of `q` starts inside the block of `q`. */
  function KidOffset(t: Line, q: Path, i: nat): nat
    requires ValidPath(t, q) && i <= |At(t, q).children|
  {
    CollectKidsSuffix(t, q, i);
    1 + |CollectKids(t, q, 0)| - |CollectKids(t, q, i)|
  }

  /** The child `i` of `q` is collected after `q` and the entries of the children
      before it. */
  lemma {:induction false} OffsetChild(t: Line, q: Path, i: nat)
    requires ValidPath(t, q) && i < |At(t, q).children|
    ensures ValidPath(t, q + [i]) && |CollectKids(t, q, i)| <= |CollectKids(t, q, 0)|
    ensures Offset(t, q + [i]) == Offset(t, q) + KidOffset(t, q, i)
  {
    ValidChild(t, q, i);
    CollectKidsSuffix(t, q, i);
    assert Parent(q + [i]) == q && Last(q + [i]) == i;
  }

  lemma {:induction false} KidsHead(t: Line, q: Path, i: nat)
    requires ValidPath(t, q) && i < |At(t, q).children|
    ensures ValidPath(t, q + [i])
    ensures CollectKids(t, q, i) == Block(t, q + [i]) + CollectKids(t, q, i + 1)
  {
    ValidChild(t, q, i);
    assert Parent(q + [i]) == q;
  }

  lemma {:induction false} BlockKids(t: Line, q: Path)
    requires ValidPath(t, q)
    ensures Block(t, q)[1..] == CollectKids(t, q, 0)
  {
  }

  /** `y` starts the suffix `x` of the tail of `z`. */
  lemma {:induction false} Nested<X>(z: seq<X>, ks: seq<X>, x: seq<X>, y: seq<X>, rest: seq<X>, d: nat)
    requires |z| > 0 && z[1..] == ks
    requires |x| <= |ks| && ks[|ks| - |x|..] == x
    requires x == y + rest
    requires d == 1 + |ks| - |x|
    ensures d + |y| <= |z| && z[d..d + |y|] == y
  {
    forall j | 0 <= j < |y| ensures z[d + j] == y[j] {
      assert z[d + j] == ks[d - 1 + j] == x[j];
    }
  }

  /** The block of the child `i` of `q` inside the block of `q`. */
  lemma {:induction false} BlockInParent(t: Line, q: Path, i: nat)
    requires ValidPath(t, q) && i < |At(t, q).children|
    ensures ValidPath(t, q + [i]) && |CollectKids(t, q, i)| <= |CollectKids(t, q, 0)|
    ensures var a := KidOffset(t, q, i);
      a + |Block(t, q + [i])| <= |Block(t, q)| && Block(t, q)[a..a + |Block(t, q + [i])|] == Block(t, q + [i])
  {
    KidsHead(t, q, i);
    var z, ks, x, y, rest := Block(t, q), CollectKids(t, q, 0), CollectKids(t, q, i), Block(t, q + [i]),
      CollectKids(t, q, i + 1);
    CollectKidsSuffix(t, q, i);
    BlockKids(t, q);
    var a := KidOffset(t, q, i);
    assert a == 1 + |ks| - |x|;
    Nested(z, ks, x, y, rest, a);
  }

  /** The entries of the subtree at `p` sit together in `AllLines(t)`, from
      `Offset(t, p)` on. */
  lemma {:induction false} Segment(t: Line, p: Path)
    requires ValidPath(t, p)
    ensures Offset(t, p) + |Block(t, p)| <= |AllLines(t)|
    ensures AllLines(t)[Offset(t, p)..Offset(t, p) + |Block(t, p)|] == Block(t, p)
    decreases |p|
  {
    if |p| == 0 {
      var l := AllLines(t);
      assert l[0..|l|] == l;
    } else {
      ValidParent(t, p);
      Segment(t, Parent(p));
      SegmentStep(t, Parent(p), Last(p));
      assert p == Parent(p) + [Last(p)];
    }
  }

  lemma {:induction false} SegmentStep(t: Line, q: Path, i: nat)
    requires ValidPath(t, q) && i < |At(t, q).children|
    requires Offset(t, q) + |Block(t, q)| <= |AllLines(t)|
    requires AllLines(t)[Offset(t, q)..Offset(t, q) + |Block(t, q)|] == Block(t, q)
    ensures ValidPath(t, q + [i])
    ensures Offset(t, q + [i]) + |Block(t, q + [i])| <= |AllLines(t)|
    ensures AllLines(t)[Offset(t, q + [i])..Offset(t, q + [i]) + |Block(t, q + [i])|] == Block(t, q + [i])
  {
    BlockInParent(t, q, i);
    OffsetChild(t, q, i);
    var a := KidOffset(t, q, i);
    SliceIn(AllLines(t), Offset(t, q), Block(t, q), a, Block(t, q + [i]), Offset(t, q + [i]));
  }

  /** The entries of `ls` are collected at distinct lines. */
  lemma {:induction false} AllLinesDistinct(t: Line)
    ensures Distinct(Paths(AllLines(t)))
  {
    CollectIsPreOrder(t);
    DescDistinct(t);
    DescMembers(t);
    RootFirstDistinct(Desc(t));
  }

  lemma {:induction false} RootFirstDistinct(d: seq<Path>)
    requires Distinct(d) && forall j :: 0 <= j < |d| ==> |d[j]| >= 1
    ensures Distinct([[]] + d)
  {
    var po := [[]] + d;
    forall i, j | 0 <= i < j < |po| ensures po[i] != po[j] {
      assert po[j] == d[j - 1];
      if i > 0 {
        assert po[i] == d[i - 1];
      }
    }
  }

  lemma {:induction false} AllLinesFields(t: Line)
    ensures WellCollected(t, [], None, AllLines(t))
  {
    CollectFields(t, [], None);
  }

  // ---------------------------------------------------------------------------
  // the first pass: row numbers and child rows

  /** A `rowMap` value; `level` only picks the styling and is not kept. */
  datatype RowInfo = RowInfo(rowNum: nat, childRows: seq<nat>, hasChildren: bool)

  type RowMap = map<Path, RowInfo>

  predicate HasKids(n: Line) {
    |n.children| > 0
  }

  /** One iteration of the first pass on row `row`: the line is recorded, then its
      row is appended to its parent's child rows if the parent is recorded. */
  function Step(m: RowMap, row: nat, e: Collected): RowMap {
    var m1 := m[e.path := RowInfo(row, [], HasKids(e.line))];
    if e.parent.Some? && e.parent.value in m1 then
      m1[e.parent.value := m1[e.parent.value].(childRows := m1[e.parent.value].childRows + [row])]
    else m1
  }

  lemma {:induction false} StepIs(m: RowMap, row: nat, e: Collected, recorded: RowMap, m': RowMap)
    requires recorded == m[e.path := RowInfo(row, [], HasKids(e.line))]
    requires e.parent.Some? && e.parent.value in recorded ==>
      m' == recorded[e.parent.value := recorded[e.parent.value].(childRows := recorded[e.parent.value].childRows + [row])]
    requires !(e.parent.Some? && e.parent.value in recorded) ==> m' == recorded
    ensures m' == Step(m, row, e)
  {
  }

  /** The first pass over `ls` from row `s`. */
  function Fold(m: RowMap, s: nat, ls: seq<Collected>): RowMap
    decreases |ls|
  {
    if |ls| == 0 then m
    else Fold(Step(m, s, ls[0]), s + 1, ls[1..])
  }

  lemma {:induction false} FoldConcat(m: RowMap, s: nat, a: seq<Collected>, b: seq<Collected>)
    ensures Fold(m, s, a + b) == Fold(Fold(m, s, a), s + |a|, b)
    decreases |a|
  {
    if |a| == 0 {
      assert a + b == b;
    } else {
      assert (a + b)[0] == a[0] && (a + b)[1..] == a[1..] + b;
      FoldConcat(Step(m, s, a[0]), s + 1, a[1..], b);
    }
  }

  lemma {:induction false} FoldAt(m: RowMap, s: nat, ls: seq<Collected>, j: nat)
    requires j < |ls|
    ensures Fold(m, s, ls[j..]) == Fold(Step(m, s, ls[j]), s + 1, ls[j + 1..])
  {
    assert ls[j..][0] == ls[j] && ls[j..][1..] == ls[j + 1..];
  }

  /** The rows, counted from `s`, of the entries of `ls` whose parent key is `x`. */
  function RowsUnder(ls: seq<Collected>, s: nat, x: Path): seq<nat>
    decreases |ls|
  {
    if |ls| == 0 then [] else (if ls[0].parent == Some(x) then [s] else []) + RowsUnder(ls[1..], s + 1, x)
  }

  lemma {:induction false} RowsUnderConcat(a: seq<Collected>, b: seq<Collected>, s: nat, x: Path)
    ensures RowsUnder(a + b, s, x) == RowsUnder(a, s, x) + RowsUnder(b, s + |a|, x)
    decreases |a|
  {
    if |a| == 0 {
      assert a + b == b;
    } else {
      var ab := a + b;
      assert ab[0] == a[0] && ab[1..] == a[1..] + b;
      var h := if a[0].parent == Some(x) then [s] else [];
      assert RowsUnder(a, s, x) == h + RowsUnder(a[1..], s + 1, x);
      assert RowsUnder(ab, s, x) == h + RowsUnder(a[1..] + b, s + 1, x);
      RowsUnderConcat(a[1..], b, s + 1, x);
    }
  }

  lemma {:induction false} RowsUnderNone(ls: seq<Collected>, s: nat, x: Path)
    requires forall k :: 0 <= k < |ls| ==> ls[k].parent != Some(x)
    ensures RowsUnder(ls, s, x) == []
    decreases |ls|
  {
    if |ls| > 0 {
      assert ls[0].parent != Some(x);
      RowsUnderNone(ls[1..], s + 1, x);
    }
  }

  /** Walking entries other than `x` leaves `x`'s record alone except for the rows
      its children append. */
  lemma {:induction false} FoldKeeps(m: RowMap, s: nat, ls: seq<Collected>, x: Path)
    requires x in m
    requires forall k :: 0 <= k < |ls| ==> ls[k].path != x
    ensures x in Fold(m, s, ls)
    ensures Fold(m, s, ls)[x] == m[x].(childRows := m[x].childRows + RowsUnder(ls, s, x))
    decreases |ls|
  {
    if |ls| == 0 {
      assert m[x].childRows + [] == m[x].childRows;
    } else {
      var m0 := Step(m, s, ls[0]);
      assert ls[0].path != x;
      var add := if ls[0].parent == Some(x) then [s] else [];
      StepKeeps(m, s, ls[0], x);
      FoldKeeps(m0, s + 1, ls[1..], x);
      KeepsJoin(m[x].childRows, add, RowsUnder(ls[1..], s + 1, x), RowsUnder(ls, s, x));
    }
  }

  /** A step for another line appends at most its own row to the record of `x`. */
  lemma StepKeeps(m: RowMap, s: nat, e: Collected, x: Path)
    requires x in m && e.path != x
    ensures var m0 := Step(m, s, e);
      x in m0 && m0[x] == m[x].(childRows := m[x].childRows + if e.parent == Some(x) then [s] else [])
  {
  }

  lemma KeepsJoin(a: seq<nat>, b: seq<nat>, c: seq<nat>, d: seq<nat>)
    requires d == b + c
    ensures a + b + c == a + d
  {
  }

  /** In a walk over distinct lines, the entry at position `k` is recorded with row
      `s + k` and with the rows of the later entries that name it as parent. */
  lemma {:induction false} FoldEntry(m: RowMap, s: nat, ls: seq<Collected>, k: nat)
    requires Distinct(Paths(ls)) && k < |ls|
    requires ls[k].parent != Some(ls[k].path)
    ensures ls[k].path in Fold(m, s, ls)
    ensures Fold(m, s, ls)[ls[k].path] ==
      RowInfo(s + k, RowsUnder(ls[k + 1..], s + k + 1, ls[k].path), HasKids(ls[k].line))
  {
    var x := ls[k].path;
    FoldSplit(m, s, ls, k);
    var m2 := Step(Fold(m, s, ls[..k]), s + k, ls[k]);
    StepRecords(Fold(m, s, ls[..k]), s + k, ls[k]);
    LaterOthers(ls, k, ls[k + 1..]);
    FoldKeeps(m2, s + k + 1, ls[k + 1..], x);
  }

  lemma FoldSplit(m: RowMap, s: nat, ls: seq<Collected>, k: nat)
    requires k < |ls|
    ensures Fold(m, s, ls) == Fold(Step(Fold(m, s, ls[..k]), s + k, ls[k]), s + k + 1, ls[k + 1..])
  {
    assert ls[..k] + ls[k..] == ls;
    FoldConcat(m, s, ls[..k], ls[k..]);
    FoldAt(Fold(m, s, ls[..k]), s + k, ls, k);
  }

  lemma StepRecords(m: RowMap, s: nat, e: Collected)
    requires e.parent != Some(e.path)
    ensures var m2 := Step(m, s, e);
      e.path in m2 && m2[e.path] == RowInfo(s, [], HasKids(e.line))
  {
  }

  lemma LaterOthers(ls: seq<Collected>, k: nat, rest: seq<Collected>)
    requires Distinct(Paths(ls)) && k < |ls| && rest == ls[k + 1..]
    ensures forall j :: 0 <= j < |rest| ==> rest[j].path != ls[k].path
  {
    forall j | 0 <= j < |rest| ensures rest[j].path != ls[k].path {
      assert Paths(ls)[k + 1 + j] != Paths(ls)[k];
    }
  }

  lemma {:induction false} FoldKeys(m: RowMap, s: nat, ls: seq<Collected>)
    ensures forall x :: x in Fold(m, s, ls) <==> x in m || x in Paths(ls)
    decreases |ls|
  {
    if |ls| > 0 {
      FoldKeys(Step(m, s, ls[0]), s + 1, ls[1..]);
      assert Paths(ls) == [ls[0].path] + Paths(ls[1..]);
    }
  }

  /** A child's block contributes its own row to its parent and nothing else. */
  lemma {:induction false} BlockRows(t: Line, c: Path, x: Path, s: nat)
    requires ValidPath(t, c) && |c| > |x|
    ensures RowsUnder(Collect(t, c, Some(x)), s, x) == [s]
  {
    var ks := CollectKids(t, c, 0);
    CollectKidsFields(t, c, 0);
    RowsUnderNone(ks, s + 1, x);
    assert Collect(t, c, Some(x))[1..] == ks;
  }

  /** The row on which the block of child `i` of `p` starts. */
  function KidStart(t: Line, p: Path, i: nat): nat
    requires ValidPath(t, p) && i <= |At(t, p).children|
  {
    CollectKidsSuffix(t, p, i);
    RowOf(t, p) + 1 + |CollectKids(t, p, 0)| - |CollectKids(t, p, i)|
  }

  /** The rows the children of `p` from `i` on append to `p`, walking their blocks. */
  lemma {:induction false} KidRows(t: Line, p: Path, i: nat)
    requires ValidPath(t, p) && i <= |At(t, p).children|
    ensures RowsUnder(CollectKids(t, p, i), KidStart(t, p, i), p) == ChildRowsOf(t, p)[i..]
    decreases |At(t, p).children| - i
  {
    if i < |At(t, p).children| {
      KidsRowsHead(t, p, i);
      OffsetChild(t, p, i);
      assert RowOf(t, p + [i]) == KidStart(t, p, i);
      KidRows(t, p, i + 1);
      var rs := ChildRowsOf(t, p);
      assert rs[i] == RowOf(t, p + [i]);
      HeadTail(rs, i);
    }
  }

  lemma {:induction false} HeadTail<X>(s: seq<X>, i: nat)
    requires i < |s|
    ensures s[i..] == [s[i]] + s[i + 1..]
  {
  }

  /** Of the block of child `i`, only its first entry names `p` as parent. */
  lemma {:induction false} KidsRowsHead(t: Line, p: Path, i: nat)
    requires ValidPath(t, p) && i < |At(t, p).children|
    ensures RowsUnder(CollectKids(t, p, i), KidStart(t, p, i), p)
         == [KidStart(t, p, i)] + RowsUnder(CollectKids(t, p, i + 1), KidStart(t, p, i + 1), p)
  {
    ValidChild(t, p, i);
    var a := Collect(t, p + [i], Some(p));
    var b := CollectKids(t, p, i + 1);
    assert CollectKids(t, p, i) == a + b;
    RowsUnderConcat(a, b, KidStart(t, p, i), p);
    BlockRows(t, p + [i], p, KidStart(t, p, i));
  }

  /** No entry after the block of `p` names `p` as its parent. */
  lemma {:induction false} NoLaterChildren(t: Line, p: Path)
    requires ValidPath(t, p)
    ensures Offset(t, p) + |Block(t, p)| <= |AllLines(t)|
    ensures forall j :: Offset(t, p) + |Block(t, p)| <= j < |AllLines(t)| ==> AllLines(t)[j].parent != Some(p)
  {
    var l := AllLines(t);
    Segment(t, p);
    AllLinesFields(t);
    AllLinesDistinct(t);
    forall j | Offset(t, p) + |Block(t, p)| <= j < |l| ensures l[j].parent != Some(p) {
      if l[j].parent == Some(p) {
        var c := l[j].path;
        assert Parent(c) == p;
        ValidParent(t, c);
        var i := Last(c);
        assert c == p + [i];
        Segment(t, c);
        CollectKidsSuffix(t, p, i);
      }
    }
  }

  /** `rowMap` after the first pass of a budget's export. */
  function Plan(t: Line): RowMap {
    Fold(map[], 2, AllLines(t))
  }

  /** The entries after the line at `p` that name it as parent are its children, in
      child order. */
  lemma {:induction false} LaterRows(t: Line, p: Path)
    requires ValidPath(t, p)
    ensures Offset(t, p) < |AllLines(t)|
    ensures RowsUnder(AllLines(t)[Offset(t, p) + 1..], Offset(t, p) + 3, p) == ChildRowsOf(t, p)
  {
    var l, k, b := AllLines(t), Offset(t, p), Block(t, p);
    AfterLine(t, p);
    FirstKidRows(t, p);
    NoLaterChildren(t, p);
    RowsUnderSplit(l, k + 1, CollectKids(t, p, 0), k + |b|, k + 3, p, ChildRowsOf(t, p));
  }

  /** After the entry of `p` come the entries of its children, then the lines outside
      its subtree. */
  lemma AfterLine(t: Line, p: Path)
    requires ValidPath(t, p)
    ensures Offset(t, p) + |Block(t, p)| <= |AllLines(t)|
    ensures AllLines(t)[Offset(t, p) + 1..]
         == CollectKids(t, p, 0) + AllLines(t)[Offset(t, p) + |Block(t, p)|..]
  {
    Segment(t, p);
    BlockKids(t, p);
    AfterHead(AllLines(t), Offset(t, p), Block(t, p), CollectKids(t, p, 0));
  }

  lemma FirstKidRows(t: Line, p: Path)
    requires ValidPath(t, p)
    ensures RowsUnder(CollectKids(t, p, 0), Offset(t, p) + 3, p) == ChildRowsOf(t, p)
  {
    KidRows(t, p, 0);
    assert KidStart(t, p, 0) == Offset(t, p) + 3;
    var rows := ChildRowsOf(t, p);
    assert rows[0..] == rows;
  }

  /** Entries after `a` that do not name `x` add no rows under `x`. */
  lemma {:induction false} RowsUnderSplit(l: seq<Collected>, k: nat, a: seq<Collected>, o: nat, s: nat, x: Path, rows: seq<nat>)
    requires k <= o <= |l| && l[k..] == a + l[o..]
    requires RowsUnder(a, s, x) == rows
    requires forall j :: o <= j < |l| ==> l[j].parent != Some(x)
    ensures RowsUnder(l[k..], s, x) == rows
  {
    var post := l[o..];
    RowsUnderConcat(a, post, s, x);
    forall j | 0 <= j < |post| ensures post[j].parent != Some(x) {
      assert post[j] == l[o + j];
    }
    RowsUnderNone(post, s + |a|, x);
    assert rows + [] == rows;
  }

  /** What follows the head of a slice `x` of `l`. */
  lemma {:induction false} AfterHead<X>(l: seq<X>, k: nat, x: seq<X>, tail: seq<X>)
    requires 0 < |x| && k + |x| <= |l| && l[k..k + |x|] == x && x[1..] == tail
    ensures l[k + 1..] == tail + l[k + |x|..]
  {
    assert l[k + 1..] == l[k + 1..k + |x|] + l[k + |x|..];
    assert l[k + 1..k + |x|] == x[1..];
  }

  /** The first pass records the line at `p` with its own row and with its
      children's rows in child order; the root gets row 2. */
  lemma {:induction false} PlanLine(t: Line, p: Path)
    requires ValidPath(t, p)
    ensures p in Plan(t) && Plan(t)[p] == RowInfo(RowOf(t, p), ChildRowsOf(t, p), HasKids(At(t, p)))
  {
    var l := AllLines(t);
    var k := Offset(t, p);
    AllLinesDistinct(t);
    EntryAt(t, p);
    FoldEntry(map[], 2, l, k);
    LaterRows(t, p);
  }

  /** The entry at the offset of `p` is the one collected for `p`. */
  lemma EntryAt(t: Line, p: Path)
    requires ValidPath(t, p)
    ensures Offset(t, p) < |AllLines(t)|
    ensures AllLines(t)[Offset(t, p)] == Collected(p, ParentKey(p), |p| == 0, At(t, p))
    ensures ParentKey(p) != Some(p)
  {
    Segment(t, p);
    var l, k, b := AllLines(t), Offset(t, p), Block(t, p);
    assert l[k..k + |b|][0] == l[k];
  }

  /** The first pass records every line and nothing else. */
  lemma {:induction false} PlanKeys(t: Line)
    ensures forall p :: p in Plan(t) <==> ValidPath(t, p)
  {
    AllLinesFields(t);
    FoldKeys(map[], 2, AllLines(t));
    CollectIsPreOrder(t);
    PreOrderMembers(t);
  }

  // ---------------------------------------------------------------------------
  // the rows

  /** A spreadsheet cell: empty, a text, a number or a formula. */
  datatype Cell = Blank | Text(s: string) | Number(x: Num) | Formula(f: string)

  /** A sheet row, column by column. */
  datatype Row = Row(index: string, title: string, qty: Cell, unitType: Cell, rate: Cell, freq: Cell,
                     cost: Cell, total: Cell, currency: string)

  /** `x || ''` on a number and on a string. */
  function NumOrBlank(x: Num): Cell {
    if Truthy(x) then Number(x) else Blank
  }

  function TextOrBlank(s: string): Cell {
    if s != "" then Text(s) else Blank
  }

  /** `rowMap.get(key)`; every key looked up is present (PlanKeys). */
  function Lookup(m: RowMap, p: Path): RowInfo {
    if p in m then m[p] else RowInfo(0, [], false)
  }

  /** The row the first pass adds for an entry. */
  function RowData(e: Collected): Row {
    var n := e.line;
    var d := n.data;
    var kids := HasKids(n);
    Row(if e.isRoot then "" else RowKey(e.path),
        TitleOf(d, DefaultTitle(e.path)),
        if kids then Blank else NumOrBlank(d.unitNumber),
        if kids then Blank else TextOrBlank(d.unitType),
        if kids then Blank else Number(OrNum(d.unitCost, Real(0.0))),
        if kids then Blank else NumOrBlank(d.frequency),
        Blank, Blank,
        CurrencyOf(d))
  }

  /** `H{r1},H{r2},...` */
  function TotalRefs(rows: seq<nat>): (r: seq<string>)
    ensures |r| == |rows|
    ensures forall i :: 0 <= i < |rows| ==> r[i] == "H" + NatToString(rows[i])
  {
    seq(|rows|, i requires 0 <= i < |rows| => "H" + NatToString(rows[i]))
  }

  function SumFormula(rows: seq<nat>): string {
    "SUM(" + Join(TotalRefs(rows), ',') + ")"
  }

  /** `C{r}*E{r}` and the like. */
  function Product(a: char, b: char, row: nat): string {
    [a] + NatToString(row) + "*" + [b] + NatToString(row)
  }

  /** One iteration of the second pass on row `row`: a row with child rows totals
      them and has no cost; any other row gets its quantity, rate and frequency with
      their defaults and the two product formulas. */
  function Finish(r: Row, info: RowInfo, e: Collected, row: nat): Row {
    var d := e.line.data;
    if info.hasChildren && |info.childRows| > 0 then
      r.(total := Formula(SumFormula(info.childRows)), cost := Blank)
    else
      r.(qty := Number(OrNum(d.unitNumber, Real(0.0))),
         rate := Number(OrNum(d.unitCost, Real(0.0))),
         freq := Number(OrNum(d.frequency, Real(1.0))),
         cost := Formula(Product('C', 'E', row)),
         total := Formula(Product('F', 'G', row)))
  }

  /** The rows the first pass adds, one per entry. */
  function FirstRows(ls: seq<Collected>): (r: seq<Row>)
    ensures |r| == |ls|
  {
    MapSeq(ls, RowData)
  }

  /** `f` applied to each element. */
  function MapSeq<A, B>(s: seq<A>, f: A -> B): (r: seq<B>)
    ensures |r| == |s|
  {
    seq(|s|, k requires 0 <= k < |s| => f(s[k]))
  }

  lemma {:induction false} MapSeqAt<A, B>(s: seq<A>, f: A -> B, k: nat)
    requires k < |s|
    ensures MapSeq(s, f)[k] == f(s[k])
  {
  }

  lemma {:induction false} MapSeqAppend<A, B>(s: seq<A>, f: A -> B, j: nat)
    requires j < |s|
    ensures MapSeq(s[..j], f) + [f(s[j])] == MapSeq(s[..j + 1], f)
  {
    assert forall k :: 0 <= k < j ==> s[..j + 1][k] == s[..j][k];
  }

  /** The first pass: a row per entry and the row map. */
  method FirstPass(lines: seq<Collected>) returns (rows: seq<Row>, rowMap: RowMap)
    ensures rows == FirstRows(lines)
    ensures rowMap == Fold(map[], 2, lines)
  {
    rows := [];
    rowMap := map[];
    var currentRow := 2;
    for j := 0 to |lines|
      invariant currentRow == j + 2
      invariant rows == FirstRows(lines[..j])
      invariant Fold(rowMap, currentRow, lines[j..]) == Fold(map[], 2, lines)
    {
      var e := lines[j];
      ghost var before := rowMap;
      MapSeqAppend(lines, RowData, j);
      rows := rows + [RowData(e)];
      rowMap := rowMap[e.path := RowInfo(currentRow, [], HasKids(e.line))];
      ghost var recorded := rowMap;
      if e.parent.Some? && e.parent.value in rowMap {
        var info := rowMap[e.parent.value];
        rowMap := rowMap[e.parent.value := info.(childRows := info.childRows + [currentRow])];
        assert rowMap == recorded[e.parent.value := recorded[e.parent.value].(childRows := recorded[e.parent.value].childRows + [currentRow])];
      }
      StepIs(before, currentRow, e, recorded, rowMap);
      FoldAt(before, currentRow, lines, j);
      currentRow := currentRow + 1;
    }
  }

  /** The row at position `k` of `rows` finished for entry `k` of `ls`, on row `k + 2`. */
  function FinishFn(ls: seq<Collected>, rows: seq<Row>, m: RowMap): int --> Row {
    (k: int) requires 0 <= k < |ls| && k < |rows| => Finish(rows[k], Lookup(m, ls[k].path), ls[k], k + 2)
  }

  lemma {:induction false} SeqAppend<B>(f: int --> B, j: nat)
    requires forall k :: 0 <= k <= j ==> f.requires(k)
    ensures seq(j, f) + [f(j)] == seq(j + 1, f)
  {
    var a, b := seq(j, f) + [f(j)], seq(j + 1, f);
    assert |a| == |b|;
    forall k | 0 <= k < j + 1 ensures a[k] == b[k] {
      if k < j {
        assert a[k] == seq(j, f)[k] == f(k);
      }
    }
  }

  /** The second pass: each row finished with the formulas its recorded entry asks
      for. */
  method SecondPass(lines: seq<Collected>, rows: seq<Row>, rowMap: RowMap) returns (out: seq<Row>)
    requires |rows| == |lines|
    requires forall k :: 0 <= k < |lines| ==> lines[k].path in rowMap
    ensures out == seq(|lines|, FinishFn(lines, rows, rowMap))
  {
    out := [];
    var currentRow := 2;
    ghost var f := FinishFn(lines, rows, rowMap);
    for j := 0 to |lines|
      invariant currentRow == j + 2
      invariant out == seq(j, f)
    {
      SeqAppend(f, j);
      out := out + [Finish(rows[j], rowMap[lines[j].path], lines[j], currentRow)];
      assert out[j] == f(j);
      currentRow := currentRow + 1;
    }
  }

  /** The rows of a budget's sheet after both passes. */
  function Sheet(t: Line): (r: seq<Row>)
    ensures |r| == |AllLines(t)|
  {
    seq(|AllLines(t)|, FinishFn(AllLines(t), FirstRows(AllLines(t)), Plan(t)))
  }

  /** The row plan of `exportToExcel(rootLine)` on a budget's root: the sheet rows
      and the grand total, which refers to the total cell of the root's row, row 2. */
  method ExportPlan(t: Line) returns (rows: seq<Row>, grandTotal: Cell)
    ensures rows == Sheet(t)
    ensures grandTotal == Formula("H" + NatToString(2))
  {
    var lines := CollectLines(t, [], None);
    AllLinesFields(t);
    PlanKeys(t);
    var first, rowMap := FirstPass(lines);
    rows := SecondPass(lines, first, rowMap);
    PlanLine(t, []);
    grandTotal := Blank;
    if [] in rowMap {
      grandTotal := Formula("H" + NatToString(rowMap[[]].rowNum));
    }
  }

  /** Row `k + 2` of the sheet is the first-pass row of entry `k` finished with the
      record of that entry. */
  lemma {:induction false} SheetAt(t: Line, k: nat)
    requires k < |AllLines(t)|
    ensures Sheet(t)[k] == Finish(RowData(AllLines(t)[k]), Lookup(Plan(t), AllLines(t)[k].path), AllLines(t)[k], k + 2)
  {
    MapSeqAt(AllLines(t), RowData, k);
    assert Sheet(t)[k] == FinishFn(AllLines(t), FirstRows(AllLines(t)), Plan(t))(k);
  }

  /** The row of the line at `p` is its first-pass row finished with its record. */
  lemma {:induction false} SheetRow(t: Line, p: Path)
    requires ValidPath(t, p)
    ensures Offset(t, p) < |Sheet(t)|
    ensures Sheet(t)[Offset(t, p)] == Finish(RowData(Collected(p, ParentKey(p), |p| == 0, At(t, p))),
      RowInfo(RowOf(t, p), ChildRowsOf(t, p), HasKids(At(t, p))), Collected(p, ParentKey(p), |p| == 0, At(t, p)), RowOf(t, p))
  {
    Segment(t, p);
    PlanLine(t, p);
    var k := Offset(t, p);
    assert AllLines(t)[k] == Block(t, p)[0];
    SheetAt(t, k);
  }

  /** What the sheet says on the row of the line at `p`: its index (blank for the
      root) and title; for a line with children the sum of exactly its children's
      total cells, in child order, and no cost or leaf fields; for a line without
      children its quantity, rate and frequency with their defaults, and the two
      products of its own row. */
  lemma {:induction false} SheetLine(t: Line, p: Path)
    requires ValidPath(t, p)
    ensures Offset(t, p) < |Sheet(t)| && RowOf(t, p) == Offset(t, p) + 2
    ensures var n := At(t, p);
      var r := Sheet(t)[Offset(t, p)];
      && r.index == (if |p| == 0 then "" else RowKey(p))
      && r.title == TitleOf(n.data, DefaultTitle(p))
      && (HasKids(n) ==>
            && r.total == Formula(SumFormula(ChildRowsOf(t, p)))
            && r.cost == Blank && r.qty == Blank && r.unitType == Blank && r.rate == Blank && r.freq == Blank)
      && (!HasKids(n) ==>
            && r.cost == Formula(Product('C', 'E', RowOf(t, p)))
            && r.total == Formula(Product('F', 'G', RowOf(t, p)))
            && r.qty == Number(OrNum(n.data.unitNumber, Real(0.0)))
            && r.rate == Number(OrNum(n.data.unitCost, Real(0.0)))
            && r.freq == Number(OrNum(n.data.frequency, Real(1.0))))
  {
    SheetRow(t, p);
  }

  // ---------------------------------------------------------------------------
  // the file name

  predicate IsAlnum(c: char) {
    ('a' <= c <= 'z') || ('A' <= c <= 'Z') || ('0' <= c <= '9')
  }

  /** `.replace(/[^a-zA-Z0-9]/g, '_')` */
  function Sanitize(s: string): (r: string)
    ensures |r| == |s|
    ensures forall i :: 0 <= i < |s| ==> r[i] == if IsAlnum(s[i]) then s[i] else '_'
  {
    seq(|s|, i requires 0 <= i < |s| => if IsAlnum(s[i]) then s[i] else '_')
  }

  /** `.replace(/_+/g, '_')`: every run of underscores becomes one. */
  function Collapse(s: string): (r: string)
    ensures |r| <= |s|
    ensures |s| > 0 ==> |r| > 0 && r[0] == s[0]
    decreases |s|
  {
    if |s| == 0 then ""
    else if s[0] == '_' && |s| > 1 && s[1] == '_' then Collapse(s[1..])
    else [s[0]] + Collapse(s[1..])
  }

  /** No two underscores in a row. */
  predicate NoDoubleUnderscore(s: string) {
    forall i :: 0 <= i < |s| - 1 ==> !(s[i] == '_' && s[i + 1] == '_')
  }

  /** The characters of `s` other than underscores, in order. */
  function Letters(s: string): string
    decreases |s|
  {
    if |s| == 0 then "" else (if s[0] == '_' then "" else [s[0]]) + Letters(s[1..])
  }

  lemma {:induction false} CollapseNoDouble(s: string)
    ensures NoDoubleUnderscore(Collapse(s))
    decreases |s|
  {
    if |s| > 0 {
      CollapseNoDouble(s[1..]);
      if !(s[0] == '_' && |s| > 1 && s[1] == '_') {
        var r := Collapse(s);
        var tail := Collapse(s[1..]);
        assert r == [s[0]] + tail;
        forall i | 0 <= i < |r| - 1 ensures !(r[i] == '_' && r[i + 1] == '_') {
          if i == 0 {
            assert r[1] == s[1];
          } else {
            assert r[i] == tail[i - 1] && r[i + 1] == tail[i];
          }
        }
      }
    }
  }

  lemma {:induction false} CollapseLetters(s: string)
    ensures Letters(Collapse(s)) == Letters(s)
    decreases |s|
  {
    if |s| > 0 {
      CollapseLetters(s[1..]);
      if !(s[0] == '_' && |s| > 1 && s[1] == '_') {
        var tail := Collapse(s[1..]);
        assert ([s[0]] + tail)[1..] == tail;
      }
    }
  }

  lemma {:induction false} CollapseKeeps(s: string)
    requires NoDoubleUnderscore(s)
    ensures Collapse(s) == s
    decreases |s|
  {
    if |s| > 0 {
      assert NoDoubleUnderscore(s[1..]) by {
        forall i | 0 <= i < |s[1..]| - 1 ensures !(s[1..][i] == '_' && s[1..][i + 1] == '_') {
          assert s[1..][i] == s[i + 1] && s[1..][i + 1] == s[i + 2];
        }
      }
      CollapseKeeps(s[1..]);
    }
  }

  /** A run of `k` underscores. */
  function Underscores(k: nat): (r: string)
    ensures |r| == k && forall i :: 0 <= i < k ==> r[i] == '_'
  {
    seq(k, _ => '_')
  }

  /** Collapsing distributes over a split that does not fall inside a run. */
  lemma {:induction false} CollapseConcat(a: string, b: string)
    requires a == "" || a[|a| - 1] != '_'
    ensures Collapse(a + b) == Collapse(a) + Collapse(b)
    decreases |a|
  {
    if |a| > 0 {
      var s := a + b;
      assert s[1..] == a[1..] + b;
      if |a| > 1 {
        assert s[1] == a[1];
      }
      CollapseConcat(a[1..], b);
    } else {
      assert a + b == b;
    }
  }

  /** A run of underscores at the front becomes one underscore. */
  lemma {:induction false} CollapseRunHead(k: nat, b: string)
    requires k >= 1
    requires b == "" || b[0] != '_'
    ensures Collapse(Underscores(k) + b) == "_" + Collapse(b)
    decreases k
  {
    var s := Underscores(k) + b;
    if k == 1 {
      assert s[1..] == b;
    } else {
      assert s[1] == '_';
      assert s[1..] == Underscores(k - 1) + b;
      CollapseRunHead(k - 1, b);
    }
  }

  /** Each maximal run of underscores becomes exactly one underscore, and the text
      on either side is collapsed on its own. */
  lemma {:induction false} CollapseRun(a: string, k: nat, b: string)
    requires k >= 1
    requires a == "" || a[|a| - 1] != '_'
    requires b == "" || b[0] != '_'
    ensures Collapse(a + Underscores(k) + b) == Collapse(a) + "_" + Collapse(b)
  {
    assert a + Underscores(k) + b == a + (Underscores(k) + b);
    CollapseConcat(a, Underscores(k) + b);
    CollapseRunHead(k, b);
  }

  /** `s[i..j]` is a whole run of underscores of `s`. */
  predicate MaximalRun(s: string, i: int, j: int) {
    && 0 <= i < j <= |s|
    && (forall m :: i <= m < j ==> s[m] == '_')
    && (i == 0 || s[i - 1] != '_')
    && (j == |s| || s[j] != '_')
  }

  /** Every whole run of underscores of `s` leaves one underscore in `Collapse(s)`. */
  lemma CollapseRuns(s: string)
    ensures forall i, j :: MaximalRun(s, i, j) ==>
      Collapse(s) == Collapse(s[..i]) + "_" + Collapse(s[j..])
  {
    forall i, j | MaximalRun(s, i, j)
      ensures Collapse(s) == Collapse(s[..i]) + "_" + Collapse(s[j..])
    {
      assert s[i..j] == Underscores(j - i);
      assert s == s[..i] + s[i..j] + s[j..];
      CollapseRun(s[..i], j - i, s[j..]);
    }
  }

  lemma {:induction false} CollapseChars(s: string, c: char)
    requires forall i :: 0 <= i < |s| ==> IsAlnum(s[i]) || s[i] == '_'
    ensures forall i :: 0 <= i < |Collapse(s)| ==> IsAlnum(Collapse(s)[i]) || Collapse(s)[i] == '_'
    decreases |s|
  {
    if |s| > 0 {
      CollapseChars(s[1..], c);
      if !(s[0] == '_' && |s| > 1 && s[1] == '_') {
        var tail := Collapse(s[1..]);
        assert forall i :: 1 <= i < |[s[0]] + tail| ==> ([s[0]] + tail)[i] == tail[i - 1];
      }
    }
  }

  /** The alphanumeric characters of `s`, in order. */
  function Alnums(s: string): string
    decreases |s|
  {
    if |s| == 0 then "" else (if IsAlnum(s[0]) then [s[0]] else "") + Alnums(s[1..])
  }

  lemma {:induction false} SanitizeLetters(s: string)
    ensures Letters(Sanitize(s)) == Alnums(s)
    decreases |s|
  {
    if |s| > 0 {
      SanitizeLetters(s[1..]);
      assert Sanitize(s)[1..] == Sanitize(s[1..]);
    }
  }

  /** The file name stem: the budget's title (`'Budget'` when empty) with every
      character other than a letter or digit replaced by `_`, runs of `_` collapsed. */
  function Stem(title: string): string {
    Collapse(Sanitize(OrStr(title, "Budget")))
  }

  /** The stem holds only letters, digits and single underscores; removing the
      underscores leaves the letters and digits of the title, in order; the stem is
      its own stem; and each whole run of underscores in the sanitized title leaves
      exactly one underscore between the collapsed text on either side. */
  lemma {:induction false} StemShape(title: string)
    ensures var r := Stem(title);
      && (forall i :: 0 <= i < |r| ==> IsAlnum(r[i]) || r[i] == '_')
      && NoDoubleUnderscore(r)
      && Letters(r) == Alnums(OrStr(title, "Budget"))
      && 0 < |r| <= |OrStr(title, "Budget")|
      && Stem(r) == r
    ensures var s := Sanitize(OrStr(title, "Budget"));
      forall i, j :: MaximalRun(s, i, j) ==>
        Stem(title) == Collapse(s[..i]) + "_" + Collapse(s[j..])
  {
    var s := Sanitize(OrStr(title, "Budget"));
    var r := Collapse(s);
    CollapseRuns(s);
    CollapseChars(s, '_');
    CollapseNoDouble(s);
    CollapseLetters(s);
    SanitizeLetters(OrStr(title, "Budget"));
    assert Sanitize(r) == r;
    CollapseKeeps(r);
  }
}
