/** `exportToJSON` and `cloneLine`: a line's getters are read into a plain record,
    recursively for its children, and a record is turned back into new lines by
    assigning its properties through the setters. */
module Serialize {
  import opened Js
  import opened Trees
  import opened Lines
  import opened Money
  import opened Queries

  /** The property names an export may list. */
  datatype ExportKey = XIndex | XLevel | XTitle | XUnitNumber | XUnitType | XUnitCost | XFrequency
                     | XCost | XTotal | XCurrency | XStart | XEnd | XCreated | XModified

  /** The list used when none is given, which is also the list of every nested record. */
  const DefaultKeys: seq<ExportKey> := [XIndex, XTitle, XUnitNumber, XUnitType, XUnitCost, XFrequency,
                                        XCost, XTotal, XCurrency, XStart, XEnd, XCreated, XModified]

  /** The list `cloneLine` exports the line itself with. */
  const CloneKeys: seq<ExportKey> := [XLevel, XTitle, XUnitNumber, XUnitType, XUnitCost, XFrequency,
                                      XCurrency, XStart, XEnd, XCreated, XModified]

  /** The properties a line with children does not export. */
  predicate CostKey(k: ExportKey) {
    k == XUnitNumber || k == XUnitType || k == XUnitCost || k == XFrequency || k == XCost
  }

  /** The value of an exported property: the index, a level, a string or a number. */
  datatype Value = VIndex(i: IndexVal) | VNat(n: nat) | VStr(s: string) | VNum(x: Num)

  /** One own property of an exported object. */
  datatype Entry = Entry(key: ExportKey, value: Value)

  /** Whether the value is truthy; the root's index is the number 0. */
  predicate TruthyValue(v: Value) {
    match v
    case VIndex(i) => i.Dotted?
    case VNat(n) => n != 0
    case VStr(s) => s != ""
    case VNum(x) => Truthy(x)
  }

  /** `line[property]`: the getter of the line at `p`. */
  function Getter(t: Line, p: Path, k: ExportKey, cv: Converter): (v: Value)
    requires ValidPath(t, p)
    ensures k == XIndex ==> v == VIndex(IndexOf(p))
    ensures k == XCost ==> v == VNum(Cost(At(t, p).data))
  {
    var d := At(t, p).data;
    match k
    case XIndex => VIndex(IndexOf(p))
    case XLevel => VNat(Level(p))
    case XTitle => VStr(TitleOf(d, DefaultTitle(p)))
    case XUnitNumber => VNum(d.unitNumber)
    case XUnitType => VStr(d.unitType)
    case XUnitCost => VNum(d.unitCost)
    case XFrequency => VNum(d.frequency)
    case XCost => VNum(Cost(d))
    case XTotal => VNum(Total(At(t, p), cv))
    case XCurrency => VStr(CurrencyOf(d))
    case XStart => VNum(Rollup(t, p, StartDate))
    case XEnd => VNum(Rollup(t, p, EndDate))
    case XCreated => VNum(d.created)
    case XModified => VNum(Rollup(t, p, ModifiedDate))
  }

  function Read(t: Line, p: Path, k: ExportKey, cv: Converter): Entry
    requires ValidPath(t, p)
  {
    Entry(k, Getter(t, p, k, cv))
  }

  /** `line.children && line.children.length`. */
  predicate HasKids(n: Line) {
    |n.children| > 0
  }

  /** Whether the export writes property `k`: its value is truthy or it is the index,
      and a line with children leaves out its cost fields. */
  predicate Exported(t: Line, p: Path, k: ExportKey, cv: Converter)
    requires ValidPath(t, p)
  {
    (TruthyValue(Getter(t, p, k, cv)) || k == XIndex) && !(HasKids(At(t, p)) && CostKey(k))
  }

  /** The properties written for the list `keys`, in its order. */
  function Entries(t: Line, p: Path, keys: seq<ExportKey>, cv: Converter): (r: seq<Entry>)
    requires ValidPath(t, p)
    ensures forall e :: e in r ==>
      e.key in keys && e == Read(t, p, e.key, cv) && Exported(t, p, e.key, cv)
    ensures forall k :: k in keys && Exported(t, p, k, cv) ==> Read(t, p, k, cv) in r
    decreases |keys|
  {
    if |keys| == 0 then []
    else
      var rest := Entries(t, p, keys[1..], cv);
      assert forall k :: k in keys[1..] ==> k in keys;
      if Exported(t, p, keys[0], cv) then [Read(t, p, keys[0], cv)] + rest else rest
  }

  /** An exported object: its properties, then `children` when the line has any. */
  datatype Record = Record(entries: seq<Entry>, children: seq<Record>)

  /** `exportToJSON(line, true, keys)` on the line at `p`. */
  function Export(t: Line, p: Path, keys: seq<ExportKey>, cv: Converter): (r: Record)
    requires ValidPath(t, p)
    ensures forall e :: e in r.entries ==>
      e.key in keys && e == Read(t, p, e.key, cv) && Exported(t, p, e.key, cv)
    ensures forall k :: k in keys && Exported(t, p, k, cv) ==> Read(t, p, k, cv) in r.entries
    ensures |r.children| == |At(t, p).children|
    decreases At(t, p)
  {
    var n := At(t, p);
    var kids := seq(|n.children|, i requires 0 <= i < |n.children| =>
      ValidChild(t, p, i);
      Export(t, p + [i], DefaultKeys, cv));
    assert forall i :: 0 <= i < |n.children| ==> ValidPath(t, p + [i]) && At(t, p + [i]) == n.children[i] by {
      forall i | 0 <= i < |n.children| ensures ValidPath(t, p + [i]) && At(t, p + [i]) == n.children[i] {
        ValidChild(t, p, i);
      }
    }
    Record(Entries(t, p, keys, cv), kids)
  }

  /** The `i`-th child record is the export of the `i`-th child with the default
      list, whatever list the line itself was exported with. */
  lemma ExportChild(t: Line, p: Path, keys: seq<ExportKey>, i: nat, cv: Converter)
    requires ValidPath(t, p) && i < |At(t, p).children|
    ensures ValidPath(t, p + [i]) && At(t, p + [i]) == At(t, p).children[i]
    ensures Export(t, p, keys, cv).children[i] == Export(t, p + [i], DefaultKeys, cv)
  {
    ValidChild(t, p, i);
  }

  /** The index is always exported, whatever its value (the root's is the falsy 0). */
  lemma ExportIndex(t: Line, p: Path, cv: Converter)
    requires ValidPath(t, p)
    ensures Entry(XIndex, VIndex(IndexOf(p))) in Export(t, p, DefaultKeys, cv).entries
  {
    assert XIndex in DefaultKeys;
    assert Read(t, p, XIndex, cv) == Entry(XIndex, VIndex(IndexOf(p)));
  }

  /** A line without children exports its cost when it is truthy. */
  lemma ExportLeafCost(t: Line, p: Path, cv: Converter)
    requires ValidPath(t, p) && !HasKids(At(t, p)) && Truthy(Cost(At(t, p).data))
    ensures Entry(XCost, VNum(Cost(At(t, p).data))) in Export(t, p, DefaultKeys, cv).entries
  {
    assert XCost in DefaultKeys;
    assert Exported(t, p, XCost, cv);
  }

  /** A line with children exports none of the cost fields, whatever the list. */
  lemma ExportParentNoCost(t: Line, p: Path, keys: seq<ExportKey>, cv: Converter)
    requires ValidPath(t, p) && HasKids(At(t, p))
    ensures forall e :: e in Export(t, p, keys, cv).entries ==> !CostKey(e.key)
  {
    forall e | e in Export(t, p, keys, cv).entries ensures !CostKey(e.key) {
      assert Exported(t, p, e.key, cv);
    }
  }

  // ---------------------------------------------------------------------------
  // cloneLine

  function StrOf(v: Value): string {
    if v.VStr? then v.s else ""
  }

  function NumOf(v: Value): Num {
    if v.VNum? then v.x else NaN
  }

  /** The assignment `newLine[property] = value` a copied property becomes; the level
      and the index are skipped, and `cost` and `total` have only getters. */
  function PropOf(e: Entry): Option<Prop> {
    match e.key
    case XIndex => None
    case XLevel => None
    case XTitle => Some(Title(StrOf(e.value)))
    case XUnitNumber => Some(UnitNumber(NumOf(e.value)))
    case XUnitType => Some(UnitType(StrOf(e.value)))
    case XUnitCost => Some(UnitCost(NumOf(e.value)))
    case XFrequency => Some(Frequency(NumOf(e.value)))
    case XCost => Some(ReadOnly(RCost))
    case XTotal => Some(ReadOnly(RTotal))
    case XCurrency => Some(Currency(StrOf(e.value)))
    case XStart => Some(Start(NumOf(e.value)))
    case XEnd => Some(End(NumOf(e.value)))
    case XCreated => Some(Created(NumOf(e.value)))
    case XModified => Some(Modified(NumOf(e.value)))
  }

  /** A property the copy loop assigns when its value is truthy: anything but the
      level and the index (`children` is not an entry of a record). */
  predicate Copied(e: Entry)
    ensures Copied(e) <==> PropOf(e).Some?
  {
    e.key != XLevel && e.key != XIndex
  }

  /** An amount that cannot be assigned back: a `cost` or `total` property. */
  predicate Amount(e: Entry) {
    e.key == XCost || e.key == XTotal
  }

  /** The assignments of the copy loop: the truthy properties other than the level
      and the index, in order. */
  function CloneProps(es: seq<Entry>): (r: seq<Prop>)
    ensures HasReadOnly(r) <==> exists e :: e in es && TruthyValue(e.value) && Amount(e)
    decreases |es|
  {
    if |es| == 0 then []
    else
      var rest := CloneProps(es[1..]);
      HasReadOnlyConcat(if TruthyValue(es[0].value) && PropOf(es[0]).Some? then [PropOf(es[0]).value] else [], rest);
      assert forall e :: e in es <==> e == es[0] || e in es[1..];
      (if TruthyValue(es[0].value) && PropOf(es[0]).Some? then [PropOf(es[0]).value] else []) + rest
  }

  /** The copy loop keeps the record's order: copying two runs of properties one
      after the other assigns the first run's properties, then the second's. */
  lemma {:induction false} ClonePropsConcat(a: seq<Entry>, b: seq<Entry>)
    ensures CloneProps(a + b) == CloneProps(a) + CloneProps(b)
    decreases |a|
  {
    if |a| > 0 {
      assert (a + b)[1..] == a[1..] + b;
      ClonePropsConcat(a[1..], b);
    } else {
      assert a + b == b;
    }
  }

  /** The copy loop assigns the property of every truthy copied entry, and nothing
      else. */
  lemma {:induction false} ClonePropsMembers(es: seq<Entry>)
    ensures forall e :: e in es && TruthyValue(e.value) && Copied(e) ==> PropOf(e).value in CloneProps(es)
    ensures forall x :: x in CloneProps(es) ==>
      exists e :: e in es && TruthyValue(e.value) && Copied(e) && PropOf(e) == Some(x)
    decreases |es|
  {
    if |es| > 0 {
      ClonePropsMembers(es[1..]);
      assert es == [es[0]] + es[1..];
      ClonePropsConcat([es[0]], es[1..]);
      ClonePropsOne(es[0]);
      forall x | x in CloneProps(es)
        ensures exists e :: e in es && TruthyValue(e.value) && Copied(e) && PropOf(e) == Some(x)
      {
        if x !in CloneProps(es[1..]) {
          assert PropOf(es[0]) == Some(x);
        }
      }
    }
  }

  /** One property is assigned exactly when it is truthy and copied. */
  lemma ClonePropsOne(e: Entry)
    ensures CloneProps([e]) == if TruthyValue(e.value) && Copied(e) then [PropOf(e).value] else []
  {
  }

  lemma HasReadOnlyConcat(a: seq<Prop>, b: seq<Prop>)
    ensures HasReadOnly(a + b) <==> HasReadOnly(a) || HasReadOnly(b)
  {
    if HasReadOnly(a + b) {
      var i :| 0 <= i < |a + b| && (a + b)[i].ReadOnly?;
      if i >= |a| {
        assert b[i - |a|].ReadOnly?;
      }
    }
    if HasReadOnly(b) {
      var i :| 0 <= i < |b| && b[i].ReadOnly?;
      assert (a + b)[|a| + i].ReadOnly?;
    }
    if HasReadOnly(a) {
      var i :| 0 <= i < |a| && a[i].ReadOnly?;
      assert (a + b)[i].ReadOnly?;
    }
  }

  /** `cloneLine(record)`: a new line (`new Line()`) receives the clones of the
      record's children through `addLine`, then the copied properties through the
      setters. A TypeError thrown anywhere ends the whole clone. */
  function CloneRecord(rec: Record, now: Time, symbols: set<string>): (r: Result<Line>)
    decreases rec, 1
  {
    match CloneKids(rec, now, symbols, |rec.children|)
    case TypeError => TypeError
    case Ok(kids) =>
      var base := Construct([], now, symbols);
      assert !HasReadOnly([]);
      var a := ApplyProps(base.value, CloneProps(rec.entries), now, symbols, DetachedTitle);
      if a.threw then TypeError else Ok(Node(a.data, kids, |kids| > 0))
  }

  /** The clones of the first `i` children, in order. */
  function CloneKids(rec: Record, now: Time, symbols: set<string>, i: nat): (r: Result<seq<Line>>)
    requires i <= |rec.children|
    ensures r.Ok? ==> |r.value| == i
    decreases rec, 0, i
  {
    if i == 0 then Ok([])
    else
      match CloneKids(rec, now, symbols, i - 1)
      case TypeError => TypeError
      case Ok(ks) =>
        match CloneRecord(rec.children[i - 1], now, symbols)
        case TypeError => TypeError
        case Ok(c) => Ok(ks + [c])
  }

  /** Each of the first `i` rebuilt children is the clone of its record, in order. */
  lemma {:induction false} CloneKidsEach(rec: Record, now: Time, symbols: set<string>, i: nat)
    requires i <= |rec.children|
    ensures CloneKids(rec, now, symbols, i).Ok? ==>
      forall j :: 0 <= j < i ==> CloneRecord(rec.children[j], now, symbols) == Ok(CloneKids(rec, now, symbols, i).value[j])
    decreases i
  {
    var r := CloneKids(rec, now, symbols, i);
    if i > 0 && r.Ok? {
      CloneKidsEach(rec, now, symbols, i - 1);
      var ks := CloneKids(rec, now, symbols, i - 1).value;
      var c := CloneRecord(rec.children[i - 1], now, symbols).value;
      assert r.value == ks + [c];
      forall j | 0 <= j < i ensures CloneRecord(rec.children[j], now, symbols) == Ok(r.value[j]) {
        if j < i - 1 {
          assert r.value[j] == ks[j];
        }
      }
    }
  }

  /** A clone that succeeds has one child per child record, each the clone of that
      record, in order. */
  lemma CloneRecordKids(rec: Record, now: Time, symbols: set<string>)
    ensures CloneRecord(rec, now, symbols).Ok? ==>
      var c := CloneRecord(rec, now, symbols).value;
      && |c.children| == |rec.children|
      && (forall j :: 0 <= j < |rec.children| ==> CloneRecord(rec.children[j], now, symbols) == Ok(c.children[j]))
      && (HasChildArray(c) <==> |rec.children| > 0)
  {
    CloneKidsEach(rec, now, symbols, |rec.children|);
  }

  /** The data of a clone that succeeds is a new line's once the copied properties
      are assigned through the setters. */
  lemma CloneRecordData(rec: Record, now: Time, symbols: set<string>)
    ensures CloneRecord(rec, now, symbols).Ok? ==>
      var a := ApplyProps(Construct([], now, symbols).value, CloneProps(rec.entries), now, symbols, DetachedTitle);
      !a.threw && CloneRecord(rec, now, symbols).value.data == a.data
  {
  }

  /** `cloneLine(line)` on a line: the line is exported with the clone list, its
      children with the default list, and the record is cloned. */
  function CloneLine(t: Line, p: Path, now: Time, symbols: set<string>, cv: Converter): Result<Line>
    requires ValidPath(t, p)
  {
    CloneRecord(Export(t, p, CloneKeys, cv), now, symbols)
  }

  // ---------------------------------------------------------------------------
  // when cloning throws

  /** Cloning the record throws: one of its own copied properties is an amount, or
      cloning one of its children throws. */
  predicate Raises(rec: Record)
    decreases rec, 1
  {
    HasReadOnly(CloneProps(rec.entries)) || RaisesKids(rec, |rec.children|)
  }

  /** Cloning one of the first `i` children throws. */
  predicate RaisesKids(rec: Record, i: nat)
    requires i <= |rec.children|
    decreases rec, 0, i
  {
    i > 0 && (RaisesKids(rec, i - 1) || Raises(rec.children[i - 1]))
  }

  lemma {:induction false} RaisesKidsSome(rec: Record, i: nat)
    requires i <= |rec.children|
    ensures RaisesKids(rec, i) <==> exists j :: 0 <= j < i && Raises(rec.children[j])
  {
    if i > 0 {
      RaisesKidsSome(rec, i - 1);
    }
  }

  lemma {:induction false} CloneRecordThrows(rec: Record, now: Time, symbols: set<string>)
    ensures CloneRecord(rec, now, symbols).TypeError? <==> Raises(rec)
    decreases rec, 1
  {
    CloneKidsThrows(rec, now, symbols, |rec.children|);
  }

  lemma {:induction false} CloneKidsThrows(rec: Record, now: Time, symbols: set<string>, i: nat)
    requires i <= |rec.children|
    ensures CloneKids(rec, now, symbols, i).TypeError? <==> RaisesKids(rec, i)
    decreases rec, 0, i
  {
    if i > 0 {
      CloneKidsThrows(rec, now, symbols, i - 1);
      CloneRecordThrows(rec.children[i - 1], now, symbols);
    }
  }

  /** A line whose export under the default list holds an amount: a line without
      children with a truthy cost, or any line with a truthy total. */
  predicate ShowsAmount(n: Line, cv: Converter) {
    (!HasKids(n) && Truthy(Cost(n.data))) || Truthy(Total(n, cv))
  }

  /** Some line below `n` shows an amount. */
  predicate AmountBelow(n: Line, cv: Converter) {
    exists i :: 0 <= i < |n.children| && (ShowsAmount(n.children[i], cv) || AmountBelow(n.children[i], cv))
  }

  /** The line's own export under `keys` holds an amount. */
  predicate OwnShows(n: Line, keys: seq<ExportKey>, cv: Converter) {
    (XCost in keys && !HasKids(n) && Truthy(Cost(n.data))) || (XTotal in keys && Truthy(Total(n, cv)))
  }

  lemma OwnAmount(t: Line, p: Path, keys: seq<ExportKey>, cv: Converter)
    requires ValidPath(t, p)
    ensures (exists e :: e in Export(t, p, keys, cv).entries && TruthyValue(e.value) && Amount(e)) <==>
      OwnShows(At(t, p), keys, cv)
  {
    var es := Export(t, p, keys, cv).entries;
    if XCost in keys && !HasKids(At(t, p)) && Truthy(Cost(At(t, p).data)) {
      assert Read(t, p, XCost, cv) in es;
    }
    if XTotal in keys && Truthy(Total(At(t, p), cv)) {
      assert Read(t, p, XTotal, cv) in es;
    }
  }

  lemma DefaultShows(n: Line, cv: Converter)
    ensures OwnShows(n, DefaultKeys, cv) <==> ShowsAmount(n, cv)
  {
    assert DefaultKeys[6] == XCost && DefaultKeys[7] == XTotal;
  }

  lemma CloneKeysNoAmount(n: Line, cv: Converter)
    ensures !OwnShows(n, CloneKeys, cv)
  {
    assert forall i :: 0 <= i < |CloneKeys| ==> CloneKeys[i] != XCost && CloneKeys[i] != XTotal;
  }

  lemma {:induction false} ExportRaises(t: Line, p: Path, keys: seq<ExportKey>, cv: Converter)
    requires ValidPath(t, p)
    ensures Raises(Export(t, p, keys, cv)) <==> OwnShows(At(t, p), keys, cv) || AmountBelow(At(t, p), cv)
    decreases At(t, p), 3
  {
    var n := At(t, p);
    var r := Export(t, p, keys, cv);
    assert HasReadOnly(CloneProps(r.entries)) <==> OwnShows(n, keys, cv) by {
      OwnAmount(t, p, keys, cv);
    }
    ExportKidsRaise(t, p, keys, cv);
  }

  lemma {:induction false} ExportKidsRaise(t: Line, p: Path, keys: seq<ExportKey>, cv: Converter)
    requires ValidPath(t, p)
    ensures RaisesKids(Export(t, p, keys, cv), |At(t, p).children|) <==> AmountBelow(At(t, p), cv)
    decreases At(t, p), 2
  {
    var n := At(t, p);
    var r := Export(t, p, keys, cv);
    RaisesKidsSome(r, |r.children|);
    if RaisesKids(r, |n.children|) {
      var j :| 0 <= j < |n.children| && Raises(r.children[j]);
      RaisingChildShows(t, p, keys, j, cv);
    }
    if AmountBelow(n, cv) {
      var j :| 0 <= j < |n.children| && (ShowsAmount(n.children[j], cv) || AmountBelow(n.children[j], cv));
      ShowingChildRaises(t, p, keys, j, cv);
    }
  }

  lemma {:induction false} RaisingChildShows(t: Line, p: Path, keys: seq<ExportKey>, j: nat, cv: Converter)
    requires ValidPath(t, p) && j < |At(t, p).children|
    requires Raises(Export(t, p, keys, cv).children[j])
    ensures AmountBelow(At(t, p), cv)
    decreases At(t, p), 1
  {
    ExportRaisesChild(t, p, keys, j, cv);
  }

  lemma {:induction false} ShowingChildRaises(t: Line, p: Path, keys: seq<ExportKey>, j: nat, cv: Converter)
    requires ValidPath(t, p) && j < |At(t, p).children|
    requires ShowsAmount(At(t, p).children[j], cv) || AmountBelow(At(t, p).children[j], cv)
    ensures RaisesKids(Export(t, p, keys, cv), |At(t, p).children|)
    decreases At(t, p), 1
  {
    ExportRaisesChild(t, p, keys, j, cv);
    RaisesKidsSome(Export(t, p, keys, cv), |At(t, p).children|);
  }

  lemma {:induction false} ExportRaisesChild(t: Line, p: Path, keys: seq<ExportKey>, i: nat, cv: Converter)
    requires ValidPath(t, p) && i < |At(t, p).children|
    ensures Raises(Export(t, p, keys, cv).children[i]) <==>
      ShowsAmount(At(t, p).children[i], cv) || AmountBelow(At(t, p).children[i], cv)
    decreases At(t, p), 0
  {
    ExportChild(t, p, keys, i, cv);
    ExportRaises(t, p + [i], DefaultKeys, cv);
    DefaultShows(At(t, p).children[i], cv);
  }

  /** `cloneLine` on a line throws exactly when some line below it shows a truthy cost
      (without children) or total: the nested records are exported with the default
      list, and assigning their `cost` or `total` back hits a getter-only property. */
  lemma CloneLineThrows(t: Line, p: Path, now: Time, symbols: set<string>, cv: Converter)
    requires ValidPath(t, p)
    ensures CloneLine(t, p, now, symbols, cv).TypeError? <==> AmountBelow(At(t, p), cv)
  {
    var rec := Export(t, p, CloneKeys, cv);
    CloneRecordThrows(rec, now, symbols);
    ExportRaises(t, p, CloneKeys, cv);
    CloneKeysNoAmount(At(t, p), cv);
  }

  /** What a successful `cloneLine` builds below the line: one child per child of
      the line, each the clone of that child's export under the default list, in
      order. Its own data is the one `CloneRecordContent` gives for the exported
      record. */
  lemma CloneLineKids(t: Line, p: Path, now: Time, symbols: set<string>, cv: Converter)
    requires ValidPath(t, p)
    ensures CloneLine(t, p, now, symbols, cv).Ok? ==>
      var c := CloneLine(t, p, now, symbols, cv).value;
      && |c.children| == |At(t, p).children|
      && forall i: nat :: i < |At(t, p).children| ==>
           ValidPath(t, p + [i]) && CloneRecord(Export(t, p + [i], DefaultKeys, cv), now, symbols) == Ok(c.children[i])
  {
    var rec := Export(t, p, CloneKeys, cv);
    CloneRecordKids(rec, now, symbols);
    if CloneRecord(rec, now, symbols).Ok? {
      var c := CloneRecord(rec, now, symbols).value;
      forall i: nat | i < |At(t, p).children|
        ensures ValidPath(t, p + [i]) && CloneRecord(Export(t, p + [i], DefaultKeys, cv), now, symbols) == Ok(c.children[i])
      {
        ExportChild(t, p, CloneKeys, i, cv);
      }
    }
  }

  /** A line without children never throws, and its clone has no children either. */
  lemma CloneLeaf(t: Line, p: Path, now: Time, symbols: set<string>, cv: Converter)
    requires ValidPath(t, p) && !HasKids(At(t, p))
    ensures CloneLine(t, p, now, symbols, cv).Ok?
    ensures CloneLine(t, p, now, symbols, cv).value.children == []
  {
    CloneLineThrows(t, p, now, symbols, cv);
  }
}
