/** Queries that read a line together with the lines below it: `currencies`, the
    rollup getters `start`, `end` and `modified` (through `getFirst`/`getLast`), and
    `listCategory`. */
module Queries {
  import opened Js
  import opened Trees
  import opened Lines

  // ---------------------------------------------------------------------------
  // string order and sorting

  /** The order of the default `Array.prototype.sort`: character by character, a
      proper prefix first. */
  predicate StrLt(a: string, b: string)
    decreases |a|
  {
    |b| > 0 && (|a| == 0 || a[0] < b[0] || (a[0] == b[0] && StrLt(a[1..], b[1..])))
  }

  lemma {:induction false} StrLtTotal(a: string, b: string)
    ensures a == b || StrLt(a, b) || StrLt(b, a)
    decreases |a|
  {
    if |a| > 0 && |b| > 0 && a[0] == b[0] {
      StrLtTotal(a[1..], b[1..]);
      if a[1..] == b[1..] {
        assert a == [a[0]] + a[1..] && b == [b[0]] + b[1..];
      }
    }
  }

  predicate Increasing(s: seq<string>) {
    forall i :: 0 <= i < |s| - 1 ==> StrLt(s[i], s[i + 1])
  }

  /** Insertion into a sorted list. */
  function Insert(x: string, s: seq<string>): (r: seq<string>)
    ensures |r| == |s| + 1
    ensures forall y :: y in r <==> y == x || y in s
    ensures r[0] == x || (|s| > 0 && r[0] == s[0])
  {
    if |s| == 0 then [x]
    else if StrLt(s[0], x) then [s[0]] + Insert(x, s[1..])
    else [x] + s
  }

  lemma {:induction false} InsertIncreasing(x: string, s: seq<string>)
    requires Increasing(s) && x !in s
    ensures Increasing(Insert(x, s))
  {
    if |s| > 0 {
      if StrLt(s[0], x) {
        assert Increasing(s[1..]) by {
          forall i | 0 <= i < |s[1..]| - 1 ensures StrLt(s[1..][i], s[1..][i + 1]) {
            assert s[1..][i] == s[i + 1] && s[1..][i + 1] == s[i + 2];
          }
        }
        InsertIncreasing(x, s[1..]);
        var r' := Insert(x, s[1..]);
        assert StrLt(s[0], r'[0]) by {
          if r'[0] != x {
            assert StrLt(s[0], s[1]);
          }
        }
        assert Insert(x, s) == [s[0]] + r';
      } else {
        StrLtTotal(x, s[0]);
      }
    }
  }

  /** The sort `currencies.sort()` performs, as insertion sort. */
  function SortStrings(s: seq<string>): (r: seq<string>)
    ensures |r| == |s|
    ensures forall y :: y in r <==> y in s
  {
    if |s| == 0 then [] else Insert(s[0], SortStrings(s[1..]))
  }

  /** A list without repeats sorts into a strictly increasing list. */
  lemma {:induction false} SortIncreasing(s: seq<string>)
    requires Distinct(s)
    ensures Increasing(SortStrings(s))
  {
    if |s| > 0 {
      assert Distinct(s[1..]) by {
        forall i, j | 0 <= i < j < |s[1..]| ensures s[1..][i] != s[1..][j] {
          assert s[1..][i] == s[i + 1] && s[1..][j] == s[j + 1];
        }
      }
      SortIncreasing(s[1..]);
      assert s[0] !in s[1..] by {
        forall k | 0 <= k < |s[1..]| ensures s[1..][k] != s[0] {
          assert s[1..][k] == s[k + 1];
        }
      }
      InsertIncreasing(s[0], SortStrings(s[1..]));
    }
  }

  // ---------------------------------------------------------------------------
  // currencies

  /** The codes `currencies` collects: the line's own, the default, and those of the
      children's lists. */
  function CurrencySet(n: Line): set<string>
    decreases n, 1
  {
    {CurrencyOf(n.data), DefaultCurrency} + KidsCurrencies(n, |n.children|)
  }

  function KidsCurrencies(n: Line, i: nat): set<string>
    requires i <= |n.children|
    decreases n, 0, i
  {
    if i == 0 then {} else KidsCurrencies(n, i - 1) + CurrencySet(n.children[i - 1])
  }

  lemma {:induction false} KidsCurrenciesMembers(n: Line, i: nat, c: string)
    requires i <= |n.children|
    ensures c in KidsCurrencies(n, i) <==> exists j :: 0 <= j < i && c in CurrencySet(n.children[j])
  {
    if i > 0 {
      KidsCurrenciesMembers(n, i - 1, c);
      KidsCurrenciesStep(n, i, c);
      if c in KidsCurrencies(n, i) {
        if c in CurrencySet(n.children[i - 1]) {
          assert 0 <= i - 1 < i;
        } else {
          var j :| 0 <= j < i - 1 && c in CurrencySet(n.children[j]);
          assert j < i;
        }
      }
      if exists j :: 0 <= j < i && c in CurrencySet(n.children[j]) {
        var j :| 0 <= j < i && c in CurrencySet(n.children[j]);
        if j < i - 1 {
          assert c in KidsCurrencies(n, i - 1);
        }
      }
    }
  }

  lemma KidsCurrenciesStep(n: Line, i: nat, c: string)
    requires 0 < i <= |n.children|
    ensures c in KidsCurrencies(n, i) <==> c in KidsCurrencies(n, i - 1) || c in CurrencySet(n.children[i - 1])
  {
  }

  /** The codes collected are exactly the default currency and the currency of some
      line of the subtree, the line itself included. */
  lemma CurrencySetMembers(n: Line, c: string)
    ensures c in CurrencySet(n) <==>
      c == DefaultCurrency || exists q :: ValidPath(n, q) && CurrencyOf(At(n, q).data) == c
  {
    if c in CurrencySet(n) && c != DefaultCurrency {
      var q := CurrencySetSound(n, c);
    }
    if exists q :: ValidPath(n, q) && CurrencyOf(At(n, q).data) == c {
      var q :| ValidPath(n, q) && CurrencyOf(At(n, q).data) == c;
      CurrencySetComplete(n, q);
    }
  }

  /** A collected code other than the default is the currency of some line. */
  lemma {:induction false} CurrencySetSound(n: Line, c: string) returns (q: Path)
    requires c in CurrencySet(n) && c != DefaultCurrency
    ensures ValidPath(n, q) && CurrencyOf(At(n, q).data) == c
    decreases n
  {
    if c == CurrencyOf(n.data) {
      return [];
    }
    assert c in KidsCurrencies(n, |n.children|);
    KidsCurrenciesMembers(n, |n.children|, c);
    var j: nat :| j < |n.children| && c in CurrencySet(n.children[j]);
    var q' := CurrencySetSound(n.children[j], c);
    q := [j] + q';
    assert q[0] == j && q[1..] == q';
    assert ValidPath(n, q) && At(n, q) == At(n.children[j], q');
  }

  /** The currency of every line of the subtree is collected. */
  lemma {:induction false} CurrencySetComplete(n: Line, q: Path)
    requires ValidPath(n, q)
    ensures CurrencyOf(At(n, q).data) in CurrencySet(n)
    decreases n
  {
    if |q| > 0 {
      var c := CurrencyOf(At(n, q).data);
      CurrencySetComplete(n.children[q[0]], q[1..]);
      KidsCurrenciesMembers(n, |n.children|, c);
    }
  }

  /** `currencies`: the list starts with the own code, adds the default, then every
      code of every child's list that is not in yet, and is sorted at the end. */
  method Currencies(n: Line) returns (r: seq<string>)
    ensures Increasing(r)
    ensures forall c :: c in r <==> c in CurrencySet(n)
    decreases n
  {
    var list := [CurrencyOf(n.data)];
    if DefaultCurrency !in list {
      list := list + [DefaultCurrency];
    }
    if HasChildArray(n) {
      for i := 0 to |n.children|
        invariant Distinct(list)
        invariant forall c :: c in list <==> c in {CurrencyOf(n.data), DefaultCurrency} + KidsCurrencies(n, i)
      {
        var cs := Currencies(n.children[i]);
        list := AddMissing(list, cs);
      }
    }
    SortIncreasing(list);
    r := SortStrings(list);
  }

  /** The inner loop of `currencies`: each code of `cs` not yet in `list` is pushed. */
  method AddMissing(list: seq<string>, cs: seq<string>) returns (r: seq<string>)
    requires Distinct(list)
    ensures Distinct(r) && |list| <= |r| && r[..|list|] == list
    ensures forall c :: c in r <==> c in list || c in cs
  {
    r := list;
    for j := 0 to |cs|
      invariant Distinct(r) && |list| <= |r| && r[..|list|] == list
      invariant forall c :: c in r <==> c in list || c in cs[..j]
    {
      if cs[j] !in r {
        r := r + [cs[j]];
      }
      assert cs[..j + 1] == cs[..j] + [cs[j]];
    }
    assert cs[..|cs|] == cs;
  }

  // ---------------------------------------------------------------------------
  // getFirst / getLast and the rollup getters

  /** The three time stamps the rollup getters read. */
  datatype DateField = StartDate | EndDate | ModifiedDate

  function DateOf(d: LineData, f: DateField): Num {
    match f
    case StartDate => d.start
    case EndDate => d.end
    case ModifiedDate => d.modified
  }

  /** `a > b` on numbers: false whenever NaN is involved. */
  predicate Gt(a: Num, b: Num) {
    a.Real? && b.Real? && a.v > b.v
  }

  /** The entry a stable sort by descending value puts first: the first maximum of the
      first `i` values. */
  function FirstMax(vs: seq<Num>, i: nat): (j: nat)
    requires 1 <= i <= |vs|
    ensures j < i
  {
    if i == 1 then 0
    else
      var j := FirstMax(vs, i - 1);
      if Gt(vs[i - 1], vs[j]) then i - 1 else j
  }

  /** The entry that sort puts last: the last minimum of the first `i` values. */
  function LastMin(vs: seq<Num>, i: nat): (j: nat)
    requires 1 <= i <= |vs|
    ensures j < i
  {
    if i == 1 then 0
    else
      var j := LastMin(vs, i - 1);
      if Gt(vs[i - 1], vs[j]) then j else i - 1
  }

  predicate AllReal(vs: seq<Num>) {
    forall k :: 0 <= k < |vs| ==> vs[k].Real?
  }

  lemma {:induction false} FirstMaxIsFirstMaximum(vs: seq<Num>, i: nat)
    requires 1 <= i <= |vs| && AllReal(vs)
    ensures forall k :: 0 <= k < i ==> vs[k].v <= vs[FirstMax(vs, i)].v
    ensures forall k :: 0 <= k < FirstMax(vs, i) ==> vs[k].v < vs[FirstMax(vs, i)].v
  {
    if i > 1 {
      FirstMaxIsFirstMaximum(vs, i - 1);
    }
  }

  lemma {:induction false} LastMinIsLastMinimum(vs: seq<Num>, i: nat)
    requires 1 <= i <= |vs| && AllReal(vs)
    ensures forall k :: 0 <= k < i ==> vs[LastMin(vs, i)].v <= vs[k].v
    ensures forall k :: LastMin(vs, i) < k < i ==> vs[LastMin(vs, i)].v < vs[k].v
  {
    if i > 1 {
      LastMinIsLastMinimum(vs, i - 1);
    }
  }

  /** Every descendant position is a valid position (one direction of `DescMembers`,
      which keeps the solver from matching every `ValidPath` term). */
  lemma DescValid(n: Line)
    ensures forall q :: q in Desc(n) ==> ValidPath(n, q)
  {
    DescMembers(n);
  }

  /** The field values of the lines at positions `ds` below `n`, in order. */
  function Values(n: Line, ds: seq<Path>, f: DateField): (vs: seq<Num>)
    requires forall q :: q in ds ==> ValidPath(n, q)
    ensures |vs| == |ds|
    ensures forall k :: 0 <= k < |ds| ==> vs[k] == DateOf(At(n, ds[k]).data, f)
    decreases |ds|
  {
    if |ds| == 0 then []
    else
      assert ds[0] in ds;
      [DateOf(At(n, ds[0]).data, f)] + Values(n, ds[1..], f)
  }

  /** The line `getLast(field, true)` (or `getFirst`) returns for the line at `p`: the
      descendant with the first largest (the last smallest) value, in document order;
      none when there are no descendants. */
  function Pick(t: Line, p: Path, f: DateField, getFirst: bool): (r: Option<Path>)
    requires ValidPath(t, p)
    ensures r.None? <==> |Desc(At(t, p))| == 0
    ensures r.Some? ==> exists k :: 0 <= k < |Desc(At(t, p))| && r.value == p + Desc(At(t, p))[k]
  {
    var n := At(t, p);
    var ds := Desc(n);
    if |ds| == 0 then None
    else
      DescValid(n);
      var vs := Values(n, ds, f);
      Some(p + ds[Chosen(vs, getFirst)])
  }

  /** The entry `getFirst` (the last smallest) or `getLast` (the first largest) chooses. */
  function Chosen(vs: seq<Num>, getFirst: bool): (k: nat)
    requires |vs| >= 1
    ensures k < |vs|
  {
    if getFirst then LastMin(vs, |vs|) else FirstMax(vs, |vs|)
  }

  lemma PickIs(t: Line, p: Path, f: DateField, getFirst: bool)
    requires ValidPath(t, p) && |Desc(At(t, p))| > 0
    ensures DescAllValid(At(t, p))
    ensures var ds := Desc(At(t, p));
      var k := Chosen(Values(At(t, p), ds, f), getFirst);
      ValidPath(t, p + ds[k]) && Pick(t, p, f, getFirst) == Some(p + ds[k])
  {
    var n := At(t, p);
    var ds := Desc(n);
    DescValid(n);
    var k := Chosen(Values(n, ds, f), getFirst);
    assert ds[k] in ds;
    ValidConcat(t, p, ds[k]);
  }

  lemma PickValid(t: Line, p: Path, f: DateField, getFirst: bool)
    requires ValidPath(t, p) && Pick(t, p, f, getFirst).Some?
    ensures ValidPath(t, Pick(t, p, f, getFirst).value)
  {
    var n := At(t, p);
    DescValid(n);
    var k :| 0 <= k < |Desc(n)| && Pick(t, p, f, getFirst).value == p + Desc(n)[k];
    assert Desc(n)[k] in Desc(n);
    ValidConcat(t, p, Desc(n)[k]);
  }

  /** `getLast`/`getFirst` with deep search: collect `{index, property}` for every
      descendant, pick the entry a stable descending sort puts first (or last), and
      look its index up from the root. */
  method GetLast(t: Line, p: Path, f: DateField, getFirst: bool) returns (r: Option<Path>)
    requires ValidPath(t, p)
    ensures r == Pick(t, p, f, getFirst)
  {
    var n := At(t, p);
    var items := Descendants(n);
    DescValid(n);
    var entries := Entries(n, p, items, f);
    if |entries| == 0 {
      return None;
    }
    var vs := Values(n, items, f);
    assert forall k :: 0 <= k < |entries| ==> entries[k].1 == vs[k];
    var k := Chosen(vs, getFirst);
    EntryLookup(t, p, f, getFirst, entries);
    var found := GetLine(t, [], ArgOf(entries[k].0));
    r := Some(found.path);
  }

  /** The `{index, property}` entries of `getLast`, one per descendant, in order. */
  method Entries(n: Line, p: Path, items: seq<Path>, f: DateField) returns (entries: seq<(IndexVal, Num)>)
    requires forall q :: q in items ==> ValidPath(n, q)
    ensures |entries| == |items|
    ensures forall k :: 0 <= k < |items| ==> entries[k] == (IndexOf(p + items[k]), DateOf(At(n, items[k]).data, f))
  {
    entries := [];
    for i := 0 to |items|
      invariant |entries| == i
      invariant forall k :: 0 <= k < i ==> entries[k] == (IndexOf(p + items[k]), DateOf(At(n, items[k]).data, f))
    {
      assert items[i] in items;
      entries := entries + [(IndexOf(p + items[i]), DateOf(At(n, items[i]).data, f))];
    }
  }

  /** The index stored with the chosen entry leads back to the chosen line. */
  lemma EntryLookup(t: Line, p: Path, f: DateField, getFirst: bool, entries: seq<(IndexVal, Num)>)
    requires ValidPath(t, p) && DescAllValid(At(t, p)) && |Desc(At(t, p))| > 0
    requires |entries| == |Desc(At(t, p))|
    requires forall k :: 0 <= k < |entries| ==> entries[k].0 == IndexOf(p + Desc(At(t, p))[k])
    ensures var k := Chosen(Values(At(t, p), Desc(At(t, p)), f), getFirst);
      Pick(t, p, f, getFirst).Some? && GetLine(t, [], ArgOf(entries[k].0)) == Found(Pick(t, p, f, getFirst).value)
  {
    PickIs(t, p, f, getFirst);
    var ds := Desc(At(t, p));
    var k := Chosen(Values(At(t, p), ds, f), getFirst);
    RootGetLineIndex(t, p + ds[k]);
  }

  /** The `start` (first), `end` and `modified` (last) getters: the chosen
      descendant's own field, or the line's own field when it has no descendants. */
  function Rollup(t: Line, p: Path, f: DateField): Num
    requires ValidPath(t, p)
  {
    var pick := Pick(t, p, f, f == StartDate);
    if pick.None? then DateOf(At(t, p).data, f)
    else
      PickValid(t, p, f, f == StartDate);
      DateOf(At(t, pick.value).data, f)
  }

  /** With number-valued fields, `start` is the smallest start among the descendants,
      `end` and `modified` the largest end and modification time; a line without
      descendants shows its own value. */
  lemma RollupIsExtreme(t: Line, p: Path, f: DateField)
    requires ValidPath(t, p)
    requires forall q :: q in Desc(At(t, p)) ==> ValidPath(At(t, p), q) && DateOf(At(At(t, p), q).data, f).Real?
    ensures |Desc(At(t, p))| == 0 ==> Rollup(t, p, f) == DateOf(At(t, p).data, f)
    ensures |Desc(At(t, p))| > 0 ==> (
      && Rollup(t, p, f).Real?
      && forall q :: q in Desc(At(t, p)) ==>
           ValidPath(At(t, p), q) &&
           if f == StartDate then Rollup(t, p, f).v <= DateOf(At(At(t, p), q).data, f).v
           else DateOf(At(At(t, p), q).data, f).v <= Rollup(t, p, f).v)
  {
    var n := At(t, p);
    var ds := Desc(n);
    if |ds| > 0 {
      DescValid(n);
      var vs := Values(n, ds, f);
      ValuesReal(n, ds, f);
      var k := if f == StartDate then LastMin(vs, |vs|) else FirstMax(vs, |vs|);
      ChosenExtreme(vs, f);
      RollupValue(t, p, f);
      forall q | q in ds
        ensures if f == StartDate then vs[k].v <= DateOf(At(n, q).data, f).v
                else DateOf(At(n, q).data, f).v <= vs[k].v
      {
        var m :| 0 <= m < |ds| && ds[m] == q;
        assert vs[m] == DateOf(At(n, q).data, f);
      }
    }
  }

  lemma ValuesReal(n: Line, ds: seq<Path>, f: DateField)
    requires forall q :: q in ds ==> ValidPath(n, q) && DateOf(At(n, q).data, f).Real?
    ensures AllReal(Values(n, ds, f))
  {
    var vs := Values(n, ds, f);
    forall k | 0 <= k < |vs| ensures vs[k].Real? {
      assert ds[k] in ds;
    }
  }

  lemma ChosenExtreme(vs: seq<Num>, f: DateField)
    requires |vs| > 0 && AllReal(vs)
    ensures var k := if f == StartDate then LastMin(vs, |vs|) else FirstMax(vs, |vs|);
      forall m :: 0 <= m < |vs| ==>
        if f == StartDate then vs[k].v <= vs[m].v else vs[m].v <= vs[k].v
  {
    if f == StartDate {
      LastMinIsLastMinimum(vs, |vs|);
    } else {
      FirstMaxIsFirstMaximum(vs, |vs|);
    }
  }

  /** The rollup is the value of the chosen entry. */
  lemma RollupValue(t: Line, p: Path, f: DateField)
    requires ValidPath(t, p) && |Desc(At(t, p))| > 0
    ensures DescAllValid(At(t, p)) &&
      Rollup(t, p, f) == Values(At(t, p), Desc(At(t, p)), f)[
        if f == StartDate then LastMin(Values(At(t, p), Desc(At(t, p)), f), |Desc(At(t, p))|)
        else FirstMax(Values(At(t, p), Desc(At(t, p)), f), |Desc(At(t, p))|)]
  {
    PickIs(t, p, f, f == StartDate);
    var ds := Desc(At(t, p));
    ValidConcat(t, p, ds[Chosen(Values(At(t, p), ds, f), f == StartDate)]);
  }

  predicate DescAllValid(n: Line) {
    forall q :: q in Desc(n) ==> ValidPath(n, q)
  }

  // ---------------------------------------------------------------------------
  // listCategory

  /** The `category` getter: the stored array or an empty one. */
  function CategoryOf(d: LineData): seq<string> {
    if d.category.Some? then d.category.value else []
  }

  /** `listCategory(category)` as written: the recursive calls build their own lists
      and drop them, so only the line itself can be listed. */
  function ListCategoryAsWritten(t: Line, p: Path, c: string): (r: seq<IndexVal>)
    requires ValidPath(t, p)
    ensures |r| <= 1
    ensures r == [IndexOf(p)] <==> c in CategoryOf(At(t, p).data)
  {
    if c in CategoryOf(At(t, p).data) then [IndexOf(p)] else []
  }

  /** The lines among `qs` whose category array holds `c`. */
  function WithCategory(n: Line, qs: seq<Path>, c: string): (r: seq<Path>)
    requires forall q :: q in qs ==> ValidPath(n, q)
    ensures forall q :: q in r <==> q in qs && c in CategoryOf(At(n, q).data)
    decreases |qs|
  {
    if |qs| == 0 then []
    else
      assert qs[0] in qs;
      (if c in CategoryOf(At(n, qs[0]).data) then [qs[0]] else []) + WithCategory(n, qs[1..], c)
  }

  /** `listCategory` as intended: the indexes of every line of the subtree, in
      document order, whose category array holds `c`. */
  function ListCategory(t: Line, p: Path, c: string): (r: seq<IndexVal>)
    requires ValidPath(t, p)
  {
    var n := At(t, p);
    PreOrderMembers(n);
    var hits := WithCategory(n, PreOrder(n), c);
    seq(|hits|, k requires 0 <= k < |hits| => IndexOf(p + hits[k]))
  }

  /** Every line at or below `p` that carries the category is listed, and only those. */
  lemma ListCategoryFindsAll(t: Line, p: Path, c: string, q: Path)
    requires ValidPath(t, p)
    ensures ValidPath(At(t, p), q) && c in CategoryOf(At(At(t, p), q).data)
      ==> IndexOf(p + q) in ListCategory(t, p, c)
    ensures IndexOf(p + q) in ListCategory(t, p, c) ==>
      ValidPath(At(t, p), q) && c in CategoryOf(At(At(t, p), q).data)
  {
    var n := At(t, p);
    PreOrderMembers(n);
    var hits := WithCategory(n, PreOrder(n), c);
    var r := ListCategory(t, p, c);
    if ValidPath(n, q) && c in CategoryOf(At(n, q).data) {
      var k :| 0 <= k < |hits| && hits[k] == q;
      assert r[k] == IndexOf(p + q);
    }
    if IndexOf(p + q) in r {
      var k :| 0 <= k < |r| && r[k] == IndexOf(p + q);
      assert hits[k] in hits;
      IndexInjective(p + hits[k], p + q);
      assert hits[k] == q by {
        assert (p + hits[k])[|p|..] == hits[k];
        assert (p + q)[|p|..] == q;
      }
    }
  }

  /** A budget whose root has no category and whose only child has category "x". */
  const CategoryExample: Line :=
    Node(Unset, [Node(Unset.(category := Some(["x"])), [], false)], true)

  /** The line `1` carries the category, yet `listCategory` on the root returns an
      empty list, where the intended result is `['1']`. */
  lemma ListCategoryDropsDescendants()
    ensures ListCategoryAsWritten(CategoryExample, [], "x") == []
    ensures ListCategory(CategoryExample, [], "x") == [IndexOf([0])]
  {
    var n := CategoryExample;
    assert Desc(n) == [[0]] by {
      assert Desc(n.children[0]) == [];
      assert DescFrom(n, 1) == [];
    }
    assert PreOrder(n) == [[], [0]];
    assert WithCategory(n, PreOrder(n), "x") == [[0]] by {
      assert At(n, [0]) == n.children[0];
      assert [[], [0]][1..] == [[0]];
      assert WithCategory(n, [[0]], "x") == [[0]] + WithCategory(n, [], "x");
    }
  }
}
