/** The operations that change a budget: `add`, `addLine`, `remove`, `move`, the
    overhead and category methods, `update` and assigning a property. The budget is
    its root line; every method names the line it runs on by its position. */
module Budgets {
  import opened Js
  import opened Trees
  import opened Lines
  import opened Options
  import opened Money
  import opened Serialize

  /** The line at `p` with its data replaced. */
  function SetData(t: Line, p: Path, d: LineData): (r: Line)
    requires ValidPath(t, p)
    ensures ValidPath(r, p) && At(r, p) == At(t, p).(data := d)
  {
    Replace(t, p, At(t, p).(data := d))
  }

  lemma RelabelPath(n: Line, d: LineData, q: Path)
    ensures ValidPath(n.(data := d), q) <==> ValidPath(n, q)
    ensures |q| > 0 && ValidPath(n, q) ==> At(n.(data := d), q) == At(n, q)
  {
  }

  /** Replacing the data at `p` keeps every line below `p` where it was. */
  lemma SetDataBelow(t: Line, p: Path, d: LineData, q: Path)
    requires ValidPath(t, p + q)
    ensures ValidPath(t, p)
    ensures ValidPath(SetData(t, p, d), p + q)
    ensures At(SetData(t, p, d), p + q).children == At(t, p + q).children
    ensures HasChildArray(At(SetData(t, p, d), p + q)) == HasChildArray(At(t, p + q))
  {
    ValidConcat(t, p, q);
    var t1 := SetData(t, p, d);
    RelabelPath(At(t, p), d, q);
    ValidConcat(t1, p, q);
    if |q| == 0 {
      assert p + q == p;
    }
  }

  /** What `add` writes straight into the receiver, past the setters (so `modified`
      is not stamped): a line with children keeps no cost data of its own. */
  function Cleared(d: LineData): (r: LineData)
    ensures r.unitNumber == Real(0.0) && r.unitType == "" && r.unitCost == Real(0.0) && r.frequency == Real(0.0)
    ensures Agree(d, r, {FUnitNumber, FUnitType, FUnitCost, FFrequency})
  {
    d.(unitNumber := Real(0.0), unitType := "", unitCost := Real(0.0), frequency := Real(0.0))
  }

  // ---------------------------------------------------------------------------
  // add

  /** The parent `add` attaches to and the 1-based position it asks for. A string
      index `a.b.k` names position `k` under the line `a.b` below the receiver; a
      number or an empty string names a position under the receiver. */
  function ResolveIndex<T>(t: Tree<T>, p: Path, index: IndexArg): (r: (Lookup, IntOrNaN))
    requires ValidPath(t, p)
    ensures r.0.Found? ==> ValidPath(t, r.0.path) && p <= r.0.path
    ensures index.NumArg? ==> r == (Found(p), Int(index.k))
  {
    match index
    case NumArg(k) => (Found(p), Int(k))
    case StrArg(s) =>
      if s == "" then (Found(p), Int(0))
      else
        var parts := Split(s, '.');
        (GetLine(t, p, StrArg(Join(parts[..|parts| - 1], '.'))), ToNumber(parts[|parts| - 1]))
  }

  /** The string index naming position `k` under the line at relative path `q`. */
  function DottedIndex(q: Path, k: nat): string {
    Join(Numerals(LineNumbers(q)) + [NatToString(k)], '.')
  }

  lemma ResolveDotted<T>(t: Tree<T>, p: Path, q: Path, k: nat)
    requires ValidPath(t, p + q)
    ensures ValidPath(t, p)
    ensures ResolveIndex(t, p, StrArg(DottedIndex(q, k))) == (Found(p + q), Int(k))
  {
    ValidConcat(t, p, q);
    var segs := Numerals(LineNumbers(q));
    var parts := segs + [NatToString(k)];
    NumeralsDotFree(LineNumbers(q));
    assert forall i :: 0 <= i < |parts| ==> '.' !in parts[i] by {
      var last := NatToString(k);
      assert forall j :: 0 <= j < |last| ==> IsDigit(last[j]);
    }
    SplitJoin(parts, '.');
    var s := DottedIndex(q, k);
    assert s != "" by {
      if |parts| > 1 {
        assert s == parts[0] + ['.'] + Join(parts[1..], '.');
      }
    }
    assert parts[..|parts| - 1] == segs;
    NumberOfString(k);
    if |q| == 0 {
      assert p + q == p;
    } else {
      GetLineIndex(t, p, q);
    }
  }

  /** The line `add` builds: `new Line(options)` on the options filled in from the
      receiver's data as it was before the call. */
  function NewLine(props: seq<Prop>, recv: LineData, now: Time, symbols: set<string>): (r: Result<LineData>)
    ensures r.TypeError? <==> HasReadOnly(props)
  {
    InheritedList(props, recv);
    Construct(InheritOptions(props, recv), now, symbols)
  }

  /** `add(options, index)` on the line at `p`, given the line it builds: the
      receiver's cost fields are cleared, the index is resolved and the new line is
      placed. The tree is the one left behind, also when an exception ends the call. */
  function AddResult(t: Line, p: Path, made: Result<LineData>, index: IndexArg): (r: (Line, Attached))
    requires ValidPath(t, p)
  {
    var t1 := SetData(t, p, Cleared(At(t, p).data));
    var (target, k) := ResolveIndex(t1, p, index);
    match made
    case TypeError => (t1, AttachThrew)
    case Ok(d) =>
      var a := Placement(t1, p, target, k);
      (Place(t1, a, Node(d, [], false)), a)
  }

  /** The receiver loses its cost data whatever happens next, and keeps everything
      else. */
  lemma AddClearsReceiver(t: Line, p: Path, made: Result<LineData>, index: IndexArg)
    requires ValidPath(t, p)
    ensures ValidPath(AddResult(t, p, made, index).0, p)
    ensures At(AddResult(t, p, made, index).0, p).data == Cleared(At(t, p).data)
  {
    var t1 := SetData(t, p, Cleared(At(t, p).data));
    var (target, k) := ResolveIndex(t1, p, index);
    if made.Ok? {
      var a := Placement(t1, p, target, k);
      var node := Node(made.value, [], false);
      if !a.AttachThrew? {
        var q := Receiving(a);
        if q != p {
          var s := InsertChild(At(t1, q), a.pos, node);
          assert Place(t1, a, node) == Replace(t1, q, s);
          ReplaceElsewhere(t1, q, s, p);
        }
      }
    }
  }

  /** Options holding a getter-only key make the constructor throw: nothing is
      added, and the receiver stays cleared. */
  lemma AddThrowsOnReadOnly(t: Line, p: Path, props: seq<Prop>, index: IndexArg, now: Time, symbols: set<string>)
    requires ValidPath(t, p) && HasReadOnly(props)
    ensures AddResult(t, p, NewLine(props, At(t, p).data, now, symbols), index)
         == (SetData(t, p, Cleared(At(t, p).data)), AttachThrew)
  {
  }

  /** The line built from a list holding one value per cost field, with the unit
      type after the unit number exactly when `b`. */
  lemma AppliedUniform(l: seq<Prop>, v: Inherited, b: bool, now: Time, symbols: set<string>)
    requires !HasReadOnly(l)
    requires Uniform(l, UnitNumber(v.unitNumber)) && Uniform(l, UnitType(v.unitType))
    requires Uniform(l, UnitCost(v.unitCost)) && Uniform(l, Frequency(v.frequency))
    requires Uniform(l, Currency(v.currency))
    requires HasKey(l, KUnitNumber) && HasKey(l, KUnitType) && HasKey(l, KUnitCost)
    requires HasKey(l, KFrequency) && HasKey(l, KCurrency)
    requires TypeLast(l, false) == b
    ensures var d1 := ApplyProps(Unset, l, now, symbols, DetachedTitle).data;
      && d1.unitType == v.unitType && d1.unitCost == v.unitCost && d1.frequency == v.frequency
      && d1.unitNumber == (if IsLumpSum(v.unitType) && b then Real(1.0) else v.unitNumber)
      && d1.currency == (if Accepted(v.currency, symbols) then v.currency else Unset.currency)
  {
    ApplyFinal(Unset, l, now, symbols, DetachedTitle);
    FinalUnitTypeUniform(l, Unset.unitType, v.unitType);
    FinalUnitCostUniform(l, Unset.unitCost, v.unitCost);
    FinalFrequencyUniform(l, Unset.frequency, v.frequency);
    FinalCurrencyUniform(l, Unset.currency, v.currency, symbols);
    FinalUnitNumberUniform(l, Unset.unitNumber, v.unitNumber, v.unitType, false);
  }

  /** The constructor keeps the cost fields of the assigned data, and its currency
      getter reads the assigned code or the default. */
  lemma ConstructKeepsCost(l: seq<Prop>, now: Time, symbols: set<string>, c: string)
    requires !HasReadOnly(l) && c != ""
    requires var d1 := ApplyProps(Unset, l, now, symbols, DetachedTitle).data;
      d1.currency == (if Accepted(c, symbols) then c else Unset.currency)
    ensures Construct(l, now, symbols).Ok?
    ensures var d1 := ApplyProps(Unset, l, now, symbols, DetachedTitle).data;
      var e := Construct(l, now, symbols).value;
      && e.unitNumber == d1.unitNumber && e.unitType == d1.unitType
      && e.unitCost == d1.unitCost && e.frequency == d1.frequency
      && CurrencyOf(e) == (if Accepted(c, symbols) then ToUpper(Prefix(c, 3)) else CurrencyOf(Unset))
  {
  }

  /** The line `add` builds from the filled-in options: each cost field is the option
      if truthy, else the receiver's value if truthy, else the default; the unit
      number is 1 instead when the unit type is a lump sum assigned after it; the
      currency is kept only when it is a known code. */
  lemma NewLineData(props: seq<Prop>, recv: LineData, now: Time, symbols: set<string>)
    requires !HasReadOnly(props)
    ensures NewLine(props, recv, now, symbols).Ok?
    ensures var e := NewLine(props, recv, now, symbols).value;
      var v := Inherit(props, recv);
      && e.unitType == v.unitType && e.unitCost == v.unitCost && e.frequency == v.frequency
      && e.unitNumber == (if IsLumpSum(v.unitType) && TypeAfterNumber(props) then Real(1.0) else v.unitNumber)
      && CurrencyOf(e) == (if Accepted(v.currency, symbols) then ToUpper(Prefix(v.currency, 3)) else CurrencyOf(Unset))
  {
    var l := InheritOptions(props, recv);
    var v := Inherit(props, recv);
    InheritedList(props, recv);
    AppliedUniform(l, v, TypeAfterNumber(props), now, symbols);
    ConstructKeepsCost(l, now, symbols, v.currency);
  }

  /** Without options the new line copies the receiver's cost data, with the
      defaults for falsy fields, and a lump-sum type forces one unit. */
  lemma NewLineWithoutOptions(recv: LineData, now: Time, symbols: set<string>)
    ensures NewLine([], recv, now, symbols).Ok?
    ensures var e := NewLine([], recv, now, symbols).value;
      && e.unitType == OrStr(recv.unitType, "ls")
      && e.unitCost == OrNum(recv.unitCost, Real(0.0))
      && e.frequency == OrNum(recv.frequency, Real(1.0))
      && e.unitNumber == (if IsLumpSum(OrStr(recv.unitType, "ls")) then Real(1.0) else OrNum(recv.unitNumber, Real(1.0)))
  {
    NewLineData([], recv, now, symbols);
  }

  /** Where `add` puts the line it built: the new line sits at the reported position
      of the receiving line, empty, holding the constructed data. */
  lemma AddPlacesNewLine(t: Line, p: Path, made: Result<LineData>, index: IndexArg)
    requires ValidPath(t, p) && made.Ok?
    requires !AddResult(t, p, made, index).1.AttachThrew?
    ensures var r := AddResult(t, p, made, index);
      var q := Receiving(r.1);
      && ValidPath(r.0, q + [r.1.pos])
      && At(r.0, q + [r.1.pos]) == Node(made.value, [], false)
  {
  }

  /** The position a numeric index gives under the line `n` (1-based `k`). */
  function NumericPosition(n: Line, k: int): (pos: nat)
    ensures pos <= |n.children|
    ensures HasChildArray(n) && 1 <= k < |n.children| ==> pos == k - 1
  {
    if !HasChildArray(n) then 0
    else if k != 0 && k < |n.children| then SpliceStart(k - 1, |n.children|)
    else |n.children|
  }

  /** `add` changes no line off the receiver's own branch and off the branch of the
      line that receives the new child: such a line is still there, unchanged. */
  lemma AddLeavesOthers(t: Line, p: Path, made: Result<LineData>, index: IndexArg, x: Path)
    requires ValidPath(t, p) && ValidPath(t, x)
    requires !(x <= p) && !(p <= x)
    requires var a := AddResult(t, p, made, index).1;
      !a.AttachThrew? ==> !(Receiving(a) <= x) && !(x < Receiving(a))
    ensures ValidPath(AddResult(t, p, made, index).0, x)
    ensures At(AddResult(t, p, made, index).0, x) == At(t, x)
  {
    ReplaceElsewhere(t, p, At(t, p).(data := Cleared(At(t, p).data)), x);
  }

  /** With a number as index the line always goes under the receiver: at position
      `k` (1-based) if that is below the current number of children (a negative `k`
      counts from the end, as `splice` does), else at the end; the other children
      keep their order. */
  lemma AddAtNumber(t: Line, p: Path, made: Result<LineData>, k: int)
    requires ValidPath(t, p) && made.Ok?
    ensures var r := AddResult(t, p, made, NumArg(k));
      var pos := NumericPosition(At(t, p), k);
      && r.1 == Inserted(p, pos)
      && ValidPath(r.0, p + [pos])
      && At(r.0, p).children == At(t, p).children[..pos] + [At(r.0, p + [pos])] + At(t, p).children[pos..]
  {
    var t1 := SetData(t, p, Cleared(At(t, p).data));
    assert At(t1, p).children == At(t, p).children;
    var a := Placement(t1, p, Found(p), Int(k));
    assert a == Inserted(p, NumericPosition(At(t, p), k));
  }

  /** With a dotted index `q.k` the line named by `q` is the parent; when `k` is not
      below its number of children the new line is still linked to that parent but
      pushed onto the RECEIVER's children, and the call throws if the receiver has
      no children array. */
  lemma AddAtDotted(t: Line, p: Path, q: Path, k: nat, made: Result<LineData>)
    requires ValidPath(t, p + q) && made.Ok?
    ensures ValidPath(t, p)
    ensures var a := AddResult(t, p, made, StrArg(DottedIndex(q, k))).1;
      var n := At(t, p + q);
      && (HasChildArray(n) && 1 <= k < |n.children| ==> a == Inserted(p + q, k - 1))
      && (!HasChildArray(n) ==> a == Inserted(p + q, 0))
      && (HasChildArray(n) && !(1 <= k < |n.children|) && |q| > 0 ==>
            a == if HasChildArray(At(t, p)) then Misplaced(p, |At(t, p).children|, p + q) else AttachThrew)
  {
    ValidConcat(t, p, q);
    var d := Cleared(At(t, p).data);
    SetDataBelow(t, p, d, q);
    var t1 := SetData(t, p, d);
    assert At(t1, p).children == At(t, p).children;
    ResolveDotted(t1, p, q, k);
    if |q| > 0 {
      assert p + q != p by {
        assert |p + q| > |p|;
      }
    }
  }

  // ---------------------------------------------------------------------------
  // addLine

  /** `addLine(newLine, index)` on the line at `p`: the same placement with the
      receiver as parent. */
  function AddLineResult(t: Line, p: Path, node: Line, k: IntOrNaN): (r: (Line, Attached))
    requires ValidPath(t, p)
  {
    var a := Placement(t, p, Found(p), k);
    (Place(t, a, node), a)
  }

  /** `addLine` never throws and always inserts under the receiver. */
  lemma AddLineInserts(t: Line, p: Path, node: Line, k: int)
    ensures ValidPath(t, p) ==>
      var r := AddLineResult(t, p, node, Int(k));
      var pos := NumericPosition(At(t, p), k);
      && r.1 == Inserted(p, pos)
      && ValidPath(r.0, p + [pos]) && At(r.0, p + [pos]) == node
      && At(r.0, p).children == At(t, p).children[..pos] + [node] + At(t, p).children[pos..]
  {
  }

  /** Removing the line `addLine` inserted gives the receiver its old children back. */
  lemma AddLineThenRemove(t: Line, p: Path, node: Line, k: int)
    requires ValidPath(t, p)
    ensures var r := AddLineResult(t, p, node, Int(k));
      var pos := NumericPosition(At(t, p), k);
      && ValidPath(r.0, p + [pos])
      && RemoveAt(r.0, p + [pos]).Ok?
      && ValidPath(RemoveAt(r.0, p + [pos]).value, p)
      && At(RemoveAt(r.0, p + [pos]).value, p).children == At(t, p).children
  {
    var pos := NumericPosition(At(t, p), k);
    RemoveUndoesInsert(t, p, pos, node);
  }

  // ---------------------------------------------------------------------------
  // overheads

  /** `addOverhead(title, rate)`: a new last entry. */
  function AddOverheadTo(d: LineData, title: string, rate: Num): (r: LineData)
    ensures r.overhead.Some? && Overheads(r) == Overheads(d) + [Overhead(title, rate)]
    ensures Agree(d, r, {FOverhead})
  {
    if d.overhead.Some? then d.(overhead := Some(d.overhead.value + [Overhead(title, rate)]))
    else d.(overhead := Some([Overhead(title, rate)]))
  }

  /** `removeOverhead(index)` as written: the guard reads `overhead[index]` (from 0)
      but `splice(index - 1, 1)` removes entry `index` counted from 1, so index 0
      removes the last entry and the last entry cannot be removed by its number. */
  function RemoveOverheadAt(d: LineData, index: int): (r: LineData)
    ensures Agree(d, r, {FOverhead})
    ensures !(d.overhead.Some? && 0 <= index < |Overheads(d)|) ==> r == d
    ensures d.overhead.Some? && index == 0 < |Overheads(d)| ==>
      r.overhead == Some(Overheads(d)[..|Overheads(d)| - 1])
    ensures d.overhead.Some? && 1 <= index < |Overheads(d)| ==>
      r.overhead == Some(Overheads(d)[..index - 1] + Overheads(d)[index..])
  {
    if d.overhead.Some? && 0 <= index < |d.overhead.value| then
      var os := d.overhead.value;
      var s := SpliceStart(index - 1, |os|);
      assert index == 0 ==> os[..s] + os[s + 1..] == os[..|os| - 1];
      d.(overhead := Some(os[..s] + os[s + 1..]))
    else d
  }

  /** `updateOverhead(index, title, rate)` (from 0): a truthy title or rate replaces
      the entry's. */
  function UpdateOverheadAt(d: LineData, index: int, title: string, rate: Num): (r: LineData)
    ensures Agree(d, r, {FOverhead})
    ensures !(d.overhead.Some? && 0 <= index < |Overheads(d)|) ==> r == d
    ensures d.overhead.Some? && 0 <= index < |Overheads(d)| ==>
      && r.overhead.Some? && |Overheads(r)| == |Overheads(d)|
      && (forall j :: 0 <= j < |Overheads(d)| && j != index ==> Overheads(r)[j] == Overheads(d)[j])
      && Overheads(r)[index].title == (if title != "" then title else Overheads(d)[index].title)
      && Overheads(r)[index].rate == (if Truthy(rate) then rate else Overheads(d)[index].rate)
  {
    if d.overhead.Some? && 0 <= index < |d.overhead.value| then
      var os := d.overhead.value;
      var o := os[index];
      d.(overhead := Some(os[index := Overhead(if title != "" then title else o.title,
                                                if Truthy(rate) then rate else o.rate)]))
    else d
  }

  /** Updating twice with the same values is updating once. */
  lemma UpdateOverheadIdempotent(d: LineData, index: int, title: string, rate: Num)
    ensures UpdateOverheadAt(UpdateOverheadAt(d, index, title, rate), index, title, rate)
         == UpdateOverheadAt(d, index, title, rate)
  {
    var r := UpdateOverheadAt(d, index, title, rate);
    if d.overhead.Some? && 0 <= index < |Overheads(d)| {
      var r2 := UpdateOverheadAt(r, index, title, rate);
      assert Overheads(r2)[index] == Overheads(r)[index];
      assert Overheads(r2) == Overheads(r);
    }
  }

  lemma {:induction false} KidsSumData(n: Line, d: LineData, cv: Converter, i: nat)
    requires CurrencyOf(d) == CurrencyOf(n.data) && i <= |n.children|
    ensures KidsSum(n.(data := d), cv, i) == KidsSum(n, cv, i)
  {
    if i > 0 {
      KidsSumData(n, d, cv, i - 1);
    }
  }

  /** Only the line's own cost fields, currency and children enter its total without
      overhead. */
  lemma TotalWithoutOverheadData(n: Line, d: LineData, cv: Converter)
    requires Agree(n.data, d, {FTitle, FStart, FEnd, FModified, FCreated, FCategory, FOverhead})
    ensures TotalWithoutOverhead(n.(data := d), cv) == TotalWithoutOverhead(n, cv)
  {
    if |n.children| > 0 {
      KidsSumData(n, d, cv, |n.children|);
    }
  }

  lemma {:induction false} WithOverheadsPrefix(base: Num, os: seq<Overhead>, o: Overhead, i: nat)
    requires i <= |os|
    ensures WithOverheads(base, os + [o], i) == WithOverheads(base, os, i)
  {
    if i > 0 {
      WithOverheadsPrefix(base, os, o, i - 1);
      assert (os + [o])[i - 1] == os[i - 1];
    }
  }

  /** A new overhead adds its rate times the total without overhead to the line's
      total, and leaves the total without overhead alone. */
  lemma AddOverheadTotal(n: Line, title: string, rate: Num, cv: Converter)
    ensures var n' := n.(data := AddOverheadTo(n.data, title, rate));
      && TotalWithoutOverhead(n', cv) == TotalWithoutOverhead(n, cv)
      && Total(n', cv) == Plus(Total(n, cv), OverheadCost(TotalWithoutOverhead(n, cv), Overhead(title, rate)))
  {
    var d := AddOverheadTo(n.data, title, rate);
    TotalWithoutOverheadData(n, d, cv);
    WithOverheadsPrefix(TotalWithoutOverhead(n, cv), Overheads(n.data), Overhead(title, rate), |Overheads(n.data)|);
  }

  // ---------------------------------------------------------------------------
  // categories

  /** `addCategory(category)`: an array is appended to an existing category array
      (without stamping `modified`); otherwise the category setter replaces the
      whole list. */
  function AddCategoryTo(d: LineData, c: CategoryArg, now: Time, symbols: set<string>): (r: LineData)
    ensures Agree(d, r, {FCategory, FModified})
    ensures d.category.Some? && c.Many? ==> r.category == Some(d.category.value + c.items) && r.modified == d.modified
    ensures !(d.category.Some? && c.Many?) ==> r.category == Some(Items(c)) && r.modified == Stamp(now)
  {
    if d.category.Some? && c.Many? then d.(category := Some(d.category.value + c.items))
    else Assign(d, Category(c), now, symbols, DetachedTitle).value
  }

  /** After `addCategory` the line holds every given category; it keeps its old ones
      only when both the old and the new value are arrays. */
  lemma AddCategoryMembers(d: LineData, c: CategoryArg, now: Time, symbols: set<string>, x: string)
    ensures var r := AddCategoryTo(d, c, now, symbols);
      r.category.Some? && (x in r.category.value <==> x in Items(c) || (d.category.Some? && c.Many? && x in d.category.value))
  {
  }

  // ---------------------------------------------------------------------------
  // the budget object

  /** A budget: the tree under its root line. */
  class Budget {
    var root: Line

    /** A budget whose root is a fresh line built from `d`. */
    constructor (d: LineData)
      ensures root == Node(d, [], false)
    {
      root := Node(d, [], false);
    }

    /** `add(options, index)` on the line at `p`; reports where the line went. */
    method Add(p: Path, props: seq<Prop>, index: IndexArg, now: Time, symbols: set<string>) returns (a: Attached)
      requires ValidPath(root, p)
      modifies this
      ensures (root, a) == AddResult(old(root), p, NewLine(props, At(old(root), p).data, now, symbols), index)
    {
      var recv := At(root, p).data;
      var made := NewLine(props, recv, now, symbols);
      root := SetData(root, p, Cleared(recv));
      var (target, k) := ResolveIndex(root, p, index);
      if made.TypeError? {
        a := AttachThrew;
        return;
      }
      a := Placement(root, p, target, k);
      root := Place(root, a, Node(made.value, [], false));
    }

    /** `addLine(newLine, index)` on the line at `p`. */
    method AddLine(p: Path, node: Line, k: IntOrNaN) returns (a: Attached)
      requires ValidPath(root, p)
      modifies this
      ensures (root, a) == AddLineResult(old(root), p, node, k)
    {
      a := Placement(root, p, Found(p), k);
      root := Place(root, a, node);
    }

    /** `remove()` on the line at `p`; the root has no parent and throws. */
    method Remove(p: Path) returns (threw: bool)
      requires ValidPath(root, p)
      modifies this
      ensures threw <==> |p| == 0
      ensures root == if |p| == 0 then old(root) else RemoveAt(old(root), p).value
    {
      var r := RemoveAt(root, p);
      if r.TypeError? {
        return true;
      }
      root := r.value;
      threw := false;
    }

    /** `move()`: only clones the line (the rest of the method is commented out), so
        nothing changes; the clone, or the TypeError it throws, is the result. */
    method Move(p: Path, now: Time, symbols: set<string>, cv: Converter) returns (r: Result<Line>)
      requires ValidPath(root, p)
      ensures r == CloneLine(root, p, now, symbols, cv)
      ensures r.TypeError? <==> AmountBelow(At(root, p), cv)
    {
      r := CloneLine(root, p, now, symbols, cv);
      CloneLineThrows(root, p, now, symbols, cv);
    }

    method AddOverhead(p: Path, title: string, rate: Num)
      requires ValidPath(root, p)
      modifies this
      ensures root == SetData(old(root), p, AddOverheadTo(At(old(root), p).data, title, rate))
    {
      root := SetData(root, p, AddOverheadTo(At(root, p).data, title, rate));
    }

    method RemoveOverhead(p: Path, index: int)
      requires ValidPath(root, p)
      modifies this
      ensures root == SetData(old(root), p, RemoveOverheadAt(At(old(root), p).data, index))
    {
      root := SetData(root, p, RemoveOverheadAt(At(root, p).data, index));
    }

    method UpdateOverhead(p: Path, index: int, title: string, rate: Num)
      requires ValidPath(root, p)
      modifies this
      ensures root == SetData(old(root), p, UpdateOverheadAt(At(old(root), p).data, index, title, rate))
    {
      root := SetData(root, p, UpdateOverheadAt(At(root, p).data, index, title, rate));
    }

    method AddCategory(p: Path, c: CategoryArg, now: Time, symbols: set<string>)
      requires ValidPath(root, p)
      modifies this
      ensures root == SetData(old(root), p, AddCategoryTo(At(old(root), p).data, c, now, symbols))
    {
      root := SetData(root, p, AddCategoryTo(At(root, p).data, c, now, symbols));
    }

    /** `update(options)`; a getter-only key throws part-way, leaving what was
        assigned before it. */
    method Update(p: Path, props: seq<Prop>, now: Time, symbols: set<string>) returns (threw: bool)
      requires ValidPath(root, p)
      modifies this
      ensures threw <==> HasReadOnly(props)
      ensures root == SetData(old(root), p, Lines.Update(At(old(root), p).data, props, now, symbols, DefaultTitle(p)).data)
    {
      var a := Lines.Update(At(root, p).data, props, now, symbols, DefaultTitle(p));
      root := SetData(root, p, a.data);
      threw := a.threw;
    }

    /** `line[key] = value` from outside, as the editing view does. */
    method Set(p: Path, prop: Prop, now: Time, symbols: set<string>) returns (threw: bool)
      requires ValidPath(root, p)
      modifies this
      ensures threw <==> prop.ReadOnly?
      ensures !threw ==> root == SetData(old(root), p, Assign(At(old(root), p).data, prop, now, symbols, DefaultTitle(p)).value)
      ensures threw ==> root == old(root)
    {
      var r := Assign(At(root, p).data, prop, now, symbols, DefaultTitle(p));
      if r.TypeError? {
        return true;
      }
      root := SetData(root, p, r.value);
      threw := false;
    }
  }
}
