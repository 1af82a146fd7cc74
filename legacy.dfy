/** The standalone first version of the budget (`app.js`), which predates the modules:
    its own `Line` class with the cost fields `unit`, `frequency` and `unitCost`, the
    getters `cost`, `total` and `currency`, the methods `add`, `removeLine`, `move` and
    `getLine`, and the global `convert` over the `rates` table that its `fetch` fills.
    The tree shape, the positions and `getLine` are those of the modules. */
module Legacy {
  import opened Js
  import opened Trees
  import Lines
  import Budgets
  import Fx

  /** What a legacy line stores: `_title`, `_currency` and the three cost fields. An
      unset or deleted number is NaN, which behaves as `undefined` does here. */
  datatype Item = Item(title: string, currency: string, unit: Num, frequency: Num, unitCost: Num)

  type Line = Tree<Item>

  /** The global `rates`: the quote table of every base fetched so far. */
  type Rates = map<string, map<string, real>>

  // ---------------------------------------------------------------------------
  // convert

  /** What `convert` returns: a number, or the message string naming the code whose
      table is missing (its text is `Message`). */
  datatype Converted = Amount(n: Num) | NoRates(missing: string)

  /** The text of the message `convert` returns for a missing table. */
  function Message(missing: string): string {
    "No rates found for " + missing
  }

  /** A currency code as `convert` reads it: upper-cased, the default when empty. */
  function CodeOf(c: string): (r: string)
    ensures r != ""
    ensures c != "" ==> r == ToUpper(c)
  {
    OrStr(ToUpper(c), ToUpper(Lines.DefaultCurrency))
  }

  /** `convert(amount, from, to)`. A table for `to` must exist as well, although only
      the table of `from` is read; a quote missing from it gives NaN. */
  function Convert(rates: Rates, amount: Num, from: string, to: string): (r: Converted)
    ensures CodeOf(from) == CodeOf(to) ==> r == Amount(amount)
    ensures r.NoRates? <==> CodeOf(from) != CodeOf(to) && !(CodeOf(from) in rates && CodeOf(to) in rates)
    ensures r.NoRates? ==>
      r.missing == (if CodeOf(from) in rates then CodeOf(to) else CodeOf(from))
    ensures r.Amount? && CodeOf(from) != CodeOf(to) ==>
      r.n == if CodeOf(to) in rates[CodeOf(from)] then Times(amount, Real(rates[CodeOf(from)][CodeOf(to)])) else NaN
  {
    var f, t := CodeOf(from), CodeOf(to);
    if f == t then Amount(amount)
    else if f in rates then
      if t in rates then Amount(Times(amount, if t in rates[f] then Real(rates[f][t]) else NaN))
      else NoRates(t)
    else NoRates(f)
  }

  /** The rates table as the modules' cache. */
  function AsCache(rates: Rates): (c: Fx.RatesByBase)
    ensures forall b :: b in rates <==> b in c
  {
    map b | b in rates :: Fx.BaseRates(0, rates[b])
  }

  lemma CodesAgree(c: string)
    ensures CodeOf(c) == Fx.Code(c)
  {
  }

  /** Wherever the legacy `convert` returns a number it is the number the modules'
      `convert` returns on the same table; it differs only in returning a message
      where the modules return NaN or, when `to` has no table, the direct rate. */
  lemma ConvertAgreesWithModules(rates: Rates, amount: Num, from: string, to: string)
    requires Convert(rates, amount, from, to).Amount?
    ensures Convert(rates, amount, from, to).n == Fx.ConvertValue(AsCache(rates), amount, from, to)
  {
    CodesAgree(from);
    CodesAgree(to);
    var f, t := CodeOf(from), CodeOf(to);
    if f != t {
      assert f in rates;
      assert Fx.DirectRate(AsCache(rates), f, t) == if t in rates[f] then Some(rates[f][t]) else None;
    }
  }

  // ---------------------------------------------------------------------------
  // line data

  /** The `currency` getter: the first three characters of `_currency`, or of the
      default currency, upper-cased. */
  function CurrencyOf(d: Item): (c: string)
    ensures 1 <= |c| <= 3
    ensures forall i :: 0 <= i < |c| ==> !('a' <= c[i] <= 'z')
  {
    ToUpper(Prefix(OrStr(d.currency, Lines.DefaultCurrency), 3))
  }

  /** `new Line(options)`: the options are copied, `children` among them skipped, and
      `this.currency = this.currency || 'USD'` stores the code the getter shows. */
  function Create(o: Item): (d: Item)
    ensures d == o.(currency := d.currency)
    ensures d.currency != "" && CurrencyOf(d) == CurrencyOf(o)
  {
    var c := CurrencyOf(o);
    assert Prefix(c, 3) == c;
    Lines.ToUpperNoLower(c);
    o.(currency := c)
  }

  /** The `cost` getter: the product of the three cost fields when all are truthy,
      else `false` (`None`). A cost, when there is one, is never 0. */
  function Cost(d: Item): (r: Option<real>)
    ensures r.Some? <==> Truthy(d.unit) && Truthy(d.frequency) && Truthy(d.unitCost)
    ensures r.Some? ==> r.value == d.unit.v * d.frequency.v * d.unitCost.v && r.value != 0.0
  {
    if Truthy(d.unit) && Truthy(d.frequency) && Truthy(d.unitCost) then
      NonZeroProduct(d.unit.v, d.frequency.v, d.unitCost.v);
      Some(d.unit.v * d.frequency.v * d.unitCost.v)
    else None
  }

  lemma NonZeroProduct(a: real, b: real, c: real)
    requires a != 0.0 && b != 0.0 && c != 0.0
    ensures a * b * c != 0.0
  {
    assert a * b != 0.0;
  }

  /** `this.cost ? this.cost : 0`, the total of a line without a children array. */
  function LeafTotal(d: Item): real {
    if Cost(d).Some? then Cost(d).value else 0.0
  }

  // ---------------------------------------------------------------------------
  // total

  /** One child's share of its parent's `total`: the child's total, converted when the
      child's currency `base` is not the parent's `cur`. A message from `convert` makes
      the running total a string, and the final `toFixed` then throws. */
  function Share(rates: Rates, cur: string, base: string, sub: Result<Num>): (r: Result<Num>)
    ensures sub.TypeError? ==> r.TypeError?
    ensures sub.Ok? && cur == base ==> r == sub
  {
    match sub
    case TypeError => TypeError
    case Ok(v) =>
      if cur != base then
        match Convert(rates, v, base, cur)
        case Amount(x) => Ok(x)
        case NoRates(_) => TypeError
      else Ok(v)
  }

  /** The value of the `total` getter, rounding left out: a line with a children array
      (even an empty one) sums its children's shares, any other line gives its cost
      or 0. */
  function TotalOf(rates: Rates, n: Line): (r: Result<Num>)
    decreases n, 1, 0
  {
    if HasChildArray(n) then KidsTotal(rates, n, |n.children|) else Ok(Real(LeafTotal(n.data)))
  }

  /** The share of child `c` of a line in currency `cur`. */
  function Contribution(rates: Rates, cur: string, c: Line): Result<Num>
    decreases c, 2, 0
  {
    Share(rates, cur, CurrencyOf(c.data), TotalOf(rates, c))
  }

  /** The running total after the first `i` children. */
  function KidsTotal(rates: Rates, n: Line, i: nat): (r: Result<Num>)
    requires i <= |n.children|
    decreases n, 0, i
  {
    if i == 0 then Ok(Real(0.0))
    else
      var acc := KidsTotal(rates, n, i - 1);
      Accumulate(acc, Contribution(rates, CurrencyOf(n.data), n.children[i - 1]))
  }

  /** `total += part`: a thrown error on either side ends the sum. */
  function Accumulate(acc: Result<Num>, part: Result<Num>): (r: Result<Num>)
    ensures r.Ok? <==> acc.Ok? && part.Ok?
  {
    if acc.Ok? && part.Ok? then Ok(Plus(acc.value, part.value)) else TypeError
  }

  /** The getter's loop; a child whose total throws ends it at once. */
  method Total(rates: Rates, n: Line) returns (r: Result<Num>)
    ensures r == TotalOf(rates, n)
    decreases n, 1
  {
    if !HasChildArray(n) {
      return Ok(Real(LeafTotal(n.data)));
    }
    r := KidsSum(rates, n);
  }

  /** The loop over the children of a line that has a children array. */
  method KidsSum(rates: Rates, n: Line) returns (r: Result<Num>)
    ensures r == KidsTotal(rates, n, |n.children|)
    decreases n, 0
  {
    var total := Ok(Real(0.0));
    for i := 0 to |n.children|
      invariant total == KidsTotal(rates, n, i)
    {
      var c := n.children[i];
      var sub := Total(rates, c);
      if sub.TypeError? {
        KidsThrowsAt(rates, n, i);
        return TypeError;
      }
      KidsTotalNext(rates, n, i);
      total := Accumulate(total, Share(rates, CurrencyOf(n.data), CurrencyOf(c.data), sub));
    }
    r := total;
  }

  lemma KidsTotalNext(rates: Rates, n: Line, i: nat)
    requires i < |n.children|
    ensures var acc := KidsTotal(rates, n, i);
      var c := n.children[i];
      var part := Share(rates, CurrencyOf(n.data), CurrencyOf(c.data), TotalOf(rates, c));
      && (TotalOf(rates, c).TypeError? ==> KidsTotal(rates, n, i + 1).TypeError?)
      && KidsTotal(rates, n, i + 1) == Accumulate(acc, part)
  {
  }

  lemma KidsThrowsAt(rates: Rates, n: Line, i: nat)
    requires i < |n.children| && TotalOf(rates, n.children[i]).TypeError?
    ensures KidsTotal(rates, n, |n.children|).TypeError?
  {
    KidsTotalNext(rates, n, i);
    KidsThrown(rates, n, i + 1);
  }

  /** Once the running total has thrown (or become a string) it stays so. */
  lemma {:induction false} KidsThrown(rates: Rates, n: Line, i: nat)
    requires i <= |n.children| && KidsTotal(rates, n, i).TypeError?
    ensures KidsTotal(rates, n, |n.children|).TypeError?
    decreases |n.children| - i
  {
    if i < |n.children| {
      KidsThrown(rates, n, i + 1);
    }
  }

  /** The running total throws exactly when some child's share does. */
  lemma {:induction false} KidsTotalThrows(rates: Rates, n: Line, i: nat)
    requires i <= |n.children|
    ensures KidsTotal(rates, n, i).TypeError? <==>
      exists j :: 0 <= j < i && Contribution(rates, CurrencyOf(n.data), n.children[j]).TypeError?
  {
    if i > 0 {
      var cur := CurrencyOf(n.data);
      KidsTotalThrows(rates, n, i - 1);
      KidsTotalStep(rates, n, i);
      if KidsTotal(rates, n, i).TypeError? {
        if Contribution(rates, cur, n.children[i - 1]).TypeError? {
          assert 0 <= i - 1 < i;
        } else {
          var j :| 0 <= j < i - 1 && Contribution(rates, cur, n.children[j]).TypeError?;
          assert j < i;
        }
      }
      if exists j :: 0 <= j < i && Contribution(rates, cur, n.children[j]).TypeError? {
        var j :| 0 <= j < i && Contribution(rates, cur, n.children[j]).TypeError?;
        if j < i - 1 {
          assert KidsTotal(rates, n, i - 1).TypeError?;
        }
      }
    }
  }

  lemma KidsTotalStep(rates: Rates, n: Line, i: nat)
    requires 0 < i <= |n.children|
    ensures KidsTotal(rates, n, i).TypeError? <==>
      KidsTotal(rates, n, i - 1).TypeError? || Contribution(rates, CurrencyOf(n.data), n.children[i - 1]).TypeError?
  {
  }

  /** A child in another currency whose rates table (or the parent currency's) is
      missing makes the parent's total throw, as does a child whose total throws. */
  lemma MissingRatesThrow(rates: Rates, n: Line, j: nat)
    requires j < |n.children|
    requires var c := n.children[j];
      TotalOf(rates, c).TypeError?
      || (CurrencyOf(c.data) != CurrencyOf(n.data)
          && !(CurrencyOf(c.data) in rates && CurrencyOf(n.data) in rates))
    ensures TotalOf(rates, n).TypeError?
  {
    var c := n.children[j];
    var cur, base := CurrencyOf(n.data), CurrencyOf(c.data);
    assert CodeOf(cur) == cur && CodeOf(base) == base by {
      Lines.ToUpperNoLower(cur);
      Lines.ToUpperNoLower(base);
    }
    assert Contribution(rates, cur, c).TypeError?;
    KidsTotalThrows(rates, n, |n.children|);
  }

  // ---------------------------------------------------------------------------
  // the single-currency total as a sum of leaf amounts

  function Sum(s: seq<real>): real {
    if |s| == 0 then 0.0 else Sum(s[..|s| - 1]) + s[|s| - 1]
  }

  lemma {:induction false} SumConcat(a: seq<real>, b: seq<real>)
    ensures Sum(a + b) == Sum(a) + Sum(b)
    decreases |b|
  {
    if |b| > 0 {
      assert (a + b)[..|a + b| - 1] == a + b[..|b| - 1];
      SumConcat(a, b[..|b| - 1]);
    } else {
      assert a + b == a;
    }
  }

  /** The amounts of the lines without a children array, in document order. */
  function LeafAmounts(n: Line): seq<real>
    decreases n, 1
  {
    if HasChildArray(n) then KidsAmounts(n, |n.children|) else [LeafTotal(n.data)]
  }

  function KidsAmounts(n: Line, i: nat): seq<real>
    requires i <= |n.children|
    decreases n, 0, i
  {
    if i == 0 then [] else KidsAmounts(n, i - 1) + LeafAmounts(n.children[i - 1])
  }

  /** Every line of the subtree shows currency `c`. */
  predicate OneCurrency(n: Line, c: string)
    decreases n
  {
    CurrencyOf(n.data) == c && forall i :: 0 <= i < |n.children| ==> OneCurrency(n.children[i], c)
  }

  /** In a single currency nothing is converted and nothing throws: the total is the
      sum of the leaf amounts. */
  lemma {:induction false} TotalOneCurrency(rates: Rates, n: Line, c: string)
    requires OneCurrency(n, c)
    ensures TotalOf(rates, n) == Ok(Real(Sum(LeafAmounts(n))))
    decreases n, 1
  {
    if HasChildArray(n) {
      KidsOneCurrency(rates, n, c, |n.children|);
    } else {
      assert Sum([LeafTotal(n.data)]) == Sum([]) + LeafTotal(n.data);
    }
  }

  lemma KidsTotalSameCurrency(rates: Rates, n: Line, i: nat, a: real, b: real)
    requires i < |n.children| && CurrencyOf(n.children[i].data) == CurrencyOf(n.data)
    requires KidsTotal(rates, n, i) == Ok(Real(a)) && TotalOf(rates, n.children[i]) == Ok(Real(b))
    ensures KidsTotal(rates, n, i + 1) == Ok(Real(a + b))
  {
    KidsTotalNext(rates, n, i);
  }

  lemma KidsAmountsStep(rates: Rates, n: Line, j: nat)
    requires j < |n.children| && CurrencyOf(n.children[j].data) == CurrencyOf(n.data)
    requires KidsTotal(rates, n, j) == Ok(Real(Sum(KidsAmounts(n, j))))
    requires TotalOf(rates, n.children[j]) == Ok(Real(Sum(LeafAmounts(n.children[j]))))
    ensures KidsTotal(rates, n, j + 1) == Ok(Real(Sum(KidsAmounts(n, j + 1))))
  {
    var a, b := Sum(KidsAmounts(n, j)), Sum(LeafAmounts(n.children[j]));
    KidsTotalSameCurrency(rates, n, j, a, b);
    KidsAmountsSum(n, j);
    assert Sum(KidsAmounts(n, j + 1)) == a + b;
  }

  lemma KidsAmountsSum(n: Line, j: nat)
    requires j < |n.children|
    ensures Sum(KidsAmounts(n, j + 1)) == Sum(KidsAmounts(n, j)) + Sum(LeafAmounts(n.children[j]))
  {
    var front, back := KidsAmounts(n, j), LeafAmounts(n.children[j]);
    assert KidsAmounts(n, j + 1) == front + back;
    SumConcat(front, back);
  }

  lemma {:induction false} KidsOneCurrency(rates: Rates, n: Line, c: string, i: nat)
    requires OneCurrency(n, c) && i <= |n.children|
    ensures KidsTotal(rates, n, i) == Ok(Real(Sum(KidsAmounts(n, i))))
    decreases n, 0, i
  {
    if i > 0 {
      var k := n.children[i - 1];
      assert OneCurrency(k, c) && CurrencyOf(k.data) == CurrencyOf(n.data);
      KidsOneCurrency(rates, n, c, i - 1);
      TotalOneCurrency(rates, k, c);
      KidsAmountsStep(rates, n, i - 1);
    } else {
      assert KidsAmounts(n, 0) == [];
      assert KidsTotal(rates, n, 0) == Ok(Real(0.0));
    }
  }

  // ---------------------------------------------------------------------------
  // add

  /** `options.unit = options.unit || this.unit || 1`, and likewise `frequency`
      (default 1) and `unitCost` (default 0). */
  function Inherit(o: Item, recv: Item): (r: Item)
    ensures r.title == o.title && r.currency == o.currency
    ensures Truthy(r.unit) && Truthy(r.frequency)
    ensures Truthy(o.unit) ==> r.unit == o.unit
    ensures !Truthy(o.unit) && Truthy(recv.unit) ==> r.unit == recv.unit
    ensures !Truthy(o.unit) && !Truthy(recv.unit) ==> r.unit == Real(1.0)
    ensures Truthy(o.frequency) ==> r.frequency == o.frequency
    ensures !Truthy(o.frequency) && Truthy(recv.frequency) ==> r.frequency == recv.frequency
    ensures !Truthy(o.frequency) && !Truthy(recv.frequency) ==> r.frequency == Real(1.0)
    ensures Truthy(o.unitCost) ==> r.unitCost == o.unitCost
    ensures !Truthy(o.unitCost) && Truthy(recv.unitCost) ==> r.unitCost == recv.unitCost
    ensures !Truthy(o.unitCost) && !Truthy(recv.unitCost) ==> r.unitCost == Real(0.0)
  {
    o.(unit := OrNum(o.unit, OrNum(recv.unit, Real(1.0))),
       frequency := OrNum(o.frequency, OrNum(recv.frequency, Real(1.0))),
       unitCost := OrNum(o.unitCost, OrNum(recv.unitCost, Real(0.0))))
  }

  /** `delete this.unit; delete this.frequency; delete this.unitCost`: the receiver
      has no cost of its own any more. */
  function Cleared(d: Item): (r: Item)
    ensures Cost(r).None? && LeafTotal(r) == 0.0
    ensures r.title == d.title && r.currency == d.currency
  {
    d.(unit := NaN, frequency := NaN, unitCost := NaN)
  }

  /** `add(options, index)` on the line at `p`: the new line is built from the filled
      options, the receiver's cost fields are deleted, the index is resolved as in the
      modules and the new line, without children, is placed. */
  function AddResult(t: Line, p: Path, o: Item, index: IndexArg): (r: (Line, Attached))
    requires ValidPath(t, p)
    ensures Fits(r.0, r.1) || r.1.AttachThrew?
  {
    var recv := At(t, p).data;
    var made := Create(Inherit(o, recv));
    var t1 := Replace(t, p, At(t, p).(data := Cleared(recv)));
    var (target, k) := Budgets.ResolveIndex(t1, p, index);
    var a := Placement(t1, p, target, k);
    (Place(t1, a, Node(made, [], false)), a)
  }

  /** What `add` leaves behind: the receiver keeps its title and currency but has no
      cost, whatever happens next; the new line, when placed, sits at the reported
      position without children and holds the options with the inherited cost fields. */
  lemma AddInherits(t: Line, p: Path, o: Item, index: IndexArg)
    requires ValidPath(t, p)
    ensures var r := AddResult(t, p, o, index);
      && ValidPath(r.0, p)
      && At(r.0, p).data == Cleared(At(t, p).data)
      && (!r.1.AttachThrew? ==>
            var q := Receiving(r.1) + [r.1.pos];
            ValidPath(r.0, q) && At(r.0, q) == Node(Create(Inherit(o, At(t, p).data)), [], false))
  {
    var recv := At(t, p).data;
    var t1 := Replace(t, p, At(t, p).(data := Cleared(recv)));
    var (target, k) := Budgets.ResolveIndex(t1, p, index);
    var a := Placement(t1, p, target, k);
    var node := Node(Create(Inherit(o, recv)), [], false);
    if !a.AttachThrew? {
      var q := Receiving(a);
      assert p <= q;
      if q != p {
        InsertPlaces(t1, q, a.pos, node);
        ReplaceElsewhere(t1, q, InsertChild(At(t1, q), a.pos, node), p);
      }
    }
  }

  /** `add` changes no line off the receiver's own branch and off the branch of the
      line that receives the new child. */
  lemma AddLeavesOthers(t: Line, p: Path, o: Item, index: IndexArg, x: Path)
    requires ValidPath(t, p) && ValidPath(t, x)
    requires !(x <= p) && !(p <= x)
    requires var a := AddResult(t, p, o, index).1;
      !a.AttachThrew? ==> !(Receiving(a) <= x) && !(x < Receiving(a))
    ensures ValidPath(AddResult(t, p, o, index).0, x)
    ensures At(AddResult(t, p, o, index).0, x) == At(t, x)
  {
    ReplaceElsewhere(t, p, At(t, p).(data := Cleared(At(t, p).data)), x);
  }

  // ---------------------------------------------------------------------------
  // move

  /** What `move` did: the target did not resolve (nothing changed); a TypeError was
      thrown before anything changed; the line was removed and re-added under a line
      that was inside it, so it left the tree; or it was re-added, under the line
      that was at `newParent`, where `at` says. */
  datatype MoveOutcome = Unresolved | MoveThrew | Vanished(tree: Line)
                       | Reattached(tree: Line, newParent: Path, at: Attached)

  /** `newIndex.toString()`. */
  function IndexText(index: IndexArg): string {
    match index
    case NumArg(k) => IntToString(k)
    case StrArg(s) => s
  }

  /** The index `move` resolves the new parent with: the whole index when
      `addAsChild`, else the index without its last segment. */
  function ParentIndex(newIndex: IndexArg, addAsChild: bool): IndexArg {
    if addAsChild then newIndex
    else
      var segs := Split(IndexText(newIndex), '.');
      StrArg(Join(segs[..|segs| - 1], '.'))
  }

  /** The index the copy is added at: the last segment, or none when `addAsChild`. */
  function AddIndex(newIndex: IndexArg, addAsChild: bool): (r: IndexArg)
    ensures r == NumArg(0) || (r.StrArg? && '.' !in r.s)
  {
    if addAsChild then NumArg(0)
    else
      var segs := Split(IndexText(newIndex), '.');
      SplitPartsFree(IndexText(newIndex), '.');
      StrArg(segs[|segs| - 1])
  }

  /** Where a line that sat at `q` is after the line at `p`, not above it, was
      removed: a later sibling of `p`, or a line below one, moves up by one. */
  function Shift(q: Path, p: Path): (r: Path)
    requires |p| > 0 && !(p <= q)
    ensures |r| == |q|
  {
    var k := |p| - 1;
    if k < |q| && q[..k] == p[..k] && q[k] > p[k] then q[..k] + [q[k] - 1] + q[k + 1..] else q
  }

  /** `move(newIndex, addAsChild)` on the line at `p`. The new parent is looked up from
      the root before the line is removed; it is the line named by the index without
      its last segment, or by the whole index when `addAsChild`. The line is then
      removed and its JSON copy, which the constructor rebuilds without children, is
      added to that parent at the last segment. */
  function MoveResult(t: Line, p: Path, newIndex: IndexArg, addAsChild: bool): (r: MoveOutcome)
    requires ValidPath(t, p)
    ensures r.Unresolved? <==> GetLine(t, [], ParentIndex(newIndex, addAsChild)) == NotFound
    ensures r.Reattached? ==>
      GetLine(t, [], ParentIndex(newIndex, addAsChild)) == Found(r.newParent) && |p| > 0 && !(p <= r.newParent)
  {
    match GetLine(t, [], ParentIndex(newIndex, addAsChild))
    case NotFound => Unresolved
    case Threw => MoveThrew
    case Found(q) =>
      if |p| == 0 then MoveThrew
      else
        var t1 := RemoveAt(t, p).value;
        if p <= q then Vanished(t1)
        else
          RemoveKeeps(t, p, q);
          var (t2, a) := AddResult(t1, Shift(q, p), At(t, p).data, AddIndex(newIndex, addAsChild));
          Reattached(t2, q, a)
  }

  /** Removing the line at `p` keeps every line not inside it, at its shifted position:
      the same data, and the same subtree when it is not above `p`. */
  lemma RemoveKeeps<T>(t: Tree<T>, p: Path, q: Path)
    requires ValidPath(t, p) && |p| > 0 && ValidPath(t, q) && !(p <= q)
    ensures var t1 := RemoveAt(t, p).value;
      && ValidPath(t1, Shift(q, p))
      && At(t1, Shift(q, p)).data == At(t, q).data
      && (!(q < p) ==> At(t1, Shift(q, p)) == At(t, q))
  {
    ValidParent(t, p);
    assert p == Parent(p) + [Last(p)];
    RemoveChildKeeps(t, Parent(p), Last(p), q);
  }

  lemma {:induction false} RemoveChildKeeps<T>(t: Tree<T>, r: Path, i: nat, q: Path)
    requires ValidPath(t, r) && i < |At(t, r).children| && ValidPath(t, q) && !(r + [i] <= q)
    ensures var t1 := Replace(t, r, RemoveChild(At(t, r), i));
      && ValidPath(t1, Shift(q, r + [i]))
      && At(t1, Shift(q, r + [i])).data == At(t, q).data
      && (!(q < r + [i]) ==> At(t1, Shift(q, r + [i])) == At(t, q))
    decreases |r|
  {
    var p := r + [i];
    var t1 := Replace(t, r, RemoveChild(At(t, r), i));
    if |q| == 0 {
      assert q < p;
    } else if |r| == 0 {
      assert p == [i];
      var cs := t.children;
      assert t1.children == cs[..i] + cs[i + 1..];
      if q[0] < i {
        assert Shift(q, p) == q;
        assert t1.children[q[0]] == cs[q[0]];
      } else {
        assert q[0] != i;
        assert Shift(q, p) == [q[0] - 1] + q[1..];
        assert t1.children[q[0] - 1] == cs[q[0]];
      }
    } else if q[0] != r[0] {
      assert Shift(q, p) == q by {
        if |r| < |q| {
          assert q[..|r|][0] != p[..|r|][0];
        }
      }
    } else {
      var c := t.children[r[0]];
      assert p[1..] == r[1..] + [i];
      assert !(r[1..] + [i] <= q[1..]);
      RemoveChildKeeps(c, r[1..], i, q[1..]);
      ShiftStep(q, p);
    }
  }

  lemma ShiftStep(q: Path, p: Path)
    requires |p| > 1 && |q| > 0 && q[0] == p[0] && !(p <= q)
    ensures !(p[1..] <= q[1..])
    ensures Shift(q, p) == [q[0]] + Shift(q[1..], p[1..])
  {
    var k := |p| - 1;
    if k < |q| {
      assert q[..k] == [q[0]] + q[1..][..k - 1];
      assert p[..k] == [p[0]] + p[1..][..k - 1];
      if q[..k] == p[..k] && q[k] > p[k] {
        assert q[1..][..k - 1] == p[1..][..k - 1];
        assert q[..k] + [q[k] - 1] + q[k + 1..] == [q[0]] + (q[1..][..k - 1] + [q[k] - 1] + q[1..][k..]);
      } else {
        assert !(q[1..][..k - 1] == p[1..][..k - 1] && q[1..][k - 1] > p[1..][k - 1]);
        assert q == [q[0]] + q[1..];
      }
    } else {
      assert q == [q[0]] + q[1..];
    }
  }

  /** A `move` that throws changes nothing: on a broken dotted path or on the root,
      which has no parent to be removed from. */
  lemma MoveThrows(t: Line, p: Path, newIndex: IndexArg, addAsChild: bool)
    requires ValidPath(t, p)
    ensures var target := GetLine(t, [], ParentIndex(newIndex, addAsChild));
      MoveResult(t, p, newIndex, addAsChild).MoveThrew? <==> target == Threw || (target.Found? && |p| == 0)
  {
  }

  /** A re-added line loses its descendants: it is inserted, childless, under the
      line `getLine` named, which has lost its own cost fields; it keeps its title and
      currency, and its own cost fields are kept where truthy and inherited from the
      new parent otherwise. */
  lemma MoveDropsDescendants(t: Line, p: Path, newIndex: IndexArg, addAsChild: bool)
    requires ValidPath(t, p)
    requires MoveResult(t, p, newIndex, addAsChild).Reattached?
    ensures var r := MoveResult(t, p, newIndex, addAsChild);
      var q := r.newParent;
      && r.at.Inserted? && r.at.parent == Shift(q, p)
      && ValidPath(r.tree, r.at.parent)
      && At(r.tree, r.at.parent).data == Cleared(At(t, q).data)
      && ValidPath(r.tree, r.at.parent + [r.at.pos])
      && At(r.tree, r.at.parent + [r.at.pos]) == Node(Create(Inherit(At(t, p).data, At(t, q).data)), [], false)
  {
    var q := MoveResult(t, p, newIndex, addAsChild).newParent;
    var t1 := RemoveAt(t, p).value;
    RemoveKeeps(t, p, q);
    var q1 := Shift(q, p);
    var index := AddIndex(newIndex, addAsChild);
    AddInherits(t1, q1, At(t, p).data, index);
    AddOwnChild(t1, q1, At(t, p).data, index);
  }

  /** An index without a dot (or none) names a position under the receiver itself. */
  lemma AddOwnChild(t: Line, p: Path, o: Item, index: IndexArg)
    requires ValidPath(t, p)
    requires index == NumArg(0) || (index.StrArg? && '.' !in index.s)
    ensures var a := AddResult(t, p, o, index).1;
      a.Inserted? && a.parent == p
  {
    var t1 := Replace(t, p, At(t, p).(data := Cleared(At(t, p).data)));
    if index.StrArg? && index.s != "" {
      SplitNoSep(index.s, '.');
      assert Split(index.s, '.')[..0] == [];
    }
    assert Budgets.ResolveIndex(t1, p, index).0 == Found(p);
  }

  /** A line moved under itself or one of its descendants is removed and not put back. */
  lemma MoveIntoItself(t: Line, p: Path, newIndex: IndexArg, addAsChild: bool)
    requires ValidPath(t, p) && |p| > 0
    requires var target := GetLine(t, [], ParentIndex(newIndex, addAsChild));
      target.Found? && p <= target.path
    ensures MoveResult(t, p, newIndex, addAsChild) == Vanished(RemoveAt(t, p).value)
  {
  }

  // ---------------------------------------------------------------------------
  // getLine

  /** `getLine(index)` of the legacy line is the modules' `getLine`: a falsy index is
      the line itself; a number `k` is child `k` (1-based) when the line has it, else
      `false`; a dotted string walks one segment at a time. */
  lemma GetLineCases(t: Line, p: Path, index: IndexArg)
    requires ValidPath(t, p)
    ensures index == NumArg(0) || index == StrArg("") ==> GetLine(t, p, index) == Found(p)
    ensures index.NumArg? && index.k != 0 ==>
      GetLine(t, p, index) == if HasChildArray(At(t, p)) && 1 <= index.k <= |At(t, p).children|
                              then Found(p + [index.k - 1]) else NotFound
    ensures index.StrArg? && index.s != "" && '.' !in index.s ==>
      GetLine(t, p, index) == Hop(t, p, ToNumber(index.s))
  {
    if index.StrArg? && index.s != "" && '.' !in index.s {
      SplitNoSep(index.s, '.');
      assert [index.s][1..] == [];
      assert Walk(t, Found(p), [index.s]) == Walk(t, Hop(t, p, ToNumber(index.s)), []);
    }
  }

  // ---------------------------------------------------------------------------
  // the budget object

  /** The legacy budget: the tree under its root line. */
  class Budget {
    var root: Line

    constructor (o: Item)
      ensures root == Node(Create(o), [], false)
    {
      root := Node(Create(o), [], false);
    }

    /** `add(options, index)` on the line at `p`. */
    method Add(p: Path, o: Item, index: IndexArg) returns (a: Attached)
      requires ValidPath(root, p)
      modifies this
      ensures (root, a) == AddResult(old(root), p, o, index)
    {
      var recv := At(root, p).data;
      var made := Create(Inherit(o, recv));
      root := Replace(root, p, At(root, p).(data := Cleared(recv)));
      var (target, k) := Budgets.ResolveIndex(root, p, index);
      a := Placement(root, p, target, k);
      root := Place(root, a, Node(made, [], false));
    }

    /** `removeLine()` on the line at `p`: `this.parent.children.splice(lineNumber -
        1, 1)`, which throws on the root. */
    method RemoveLine(p: Path) returns (threw: bool)
      requires ValidPath(root, p)
      modifies this
      ensures threw <==> |p| == 0
      ensures root == if |p| == 0 then old(root) else RemoveAt(old(root), p).value
    {
      var r := RemoveAt(root, p);
      if r.TypeError? {
        return true;
      }
      root := r.value;
      threw := false;
    }

    /** `move(newIndex, addAsChild)` on the line at `p`. */
    method Move(p: Path, newIndex: IndexArg, addAsChild: bool) returns (r: MoveOutcome)
      requires ValidPath(root, p)
      modifies this
      ensures r == MoveResult(old(root), p, newIndex, addAsChild)
      ensures root == match r
        case Vanished(t) => t
        case Reattached(t, _, _) => t
        case _ => old(root)
    {
      var target := GetLine(root, [], ParentIndex(newIndex, addAsChild));
      if target.NotFound? {
        return Unresolved;
      }
      if target.Threw? {
        return MoveThrew;
      }
      var q := target.path;
      var clip := At(root, p).data;
      var before := root;
      var threw := RemoveLine(p);
      if threw {
        return MoveThrew;
      }
      if p <= q {
        return Vanished(root);
      }
      RemoveKeeps(before, p, q);
      var a := Add(Shift(q, p), clip, AddIndex(newIndex, addAsChild));
      r := Reattached(root, q, a);
    }
  }
}
