/** The options object `add` receives and fills in before it builds the new line:
    `options.unitNumber = options.unitNumber || newParent.unitNumber || 1` and the like.
    A property list stands for the object; assigning a key overwrites its entry where
    it stands, or appends it as the last key, as JavaScript keeps string keys in the
    order they were created. */
module Options {
  import opened Js
  import opened Lines

  predicate HasKey(props: seq<Prop>, k: Key) {
    exists i :: 0 <= i < |props| && KeyOf(props[i]) == k
  }

  lemma HasKeyTail(props: seq<Prop>, k: Key)
    requires |props| > 0
    ensures HasKey(props, k) <==> KeyOf(props[0]) == k || HasKey(props[1..], k)
  {
    if HasKey(props, k) && KeyOf(props[0]) != k {
      var i :| 0 <= i < |props| && KeyOf(props[i]) == k;
      assert KeyOf(props[1..][i - 1]) == k;
    }
    if HasKey(props[1..], k) {
      var i :| 0 <= i < |props| - 1 && KeyOf(props[1..][i]) == k;
      assert KeyOf(props[i + 1]) == k;
    }
  }

  /** `options[key] = v`. */
  function SetOpt(props: seq<Prop>, v: Prop): (r: seq<Prop>)
    ensures forall i :: 0 <= i < |r| && KeyOf(r[i]) == KeyOf(v) ==> r[i] == v
    ensures HasKey(r, KeyOf(v))
    ensures forall i :: 0 <= i < |r| && KeyOf(r[i]) != KeyOf(v) ==> r[i] in props
    ensures forall x :: x in props && KeyOf(x) != KeyOf(v) ==> x in r
    ensures HasKey(props, KeyOf(v)) ==>
      |r| == |props| && forall i :: 0 <= i < |r| ==> KeyOf(r[i]) == KeyOf(props[i])
    ensures !HasKey(props, KeyOf(v)) ==> r == props + [v]
  {
    if HasKey(props, KeyOf(v)) then
      var r := seq(|props|, i requires 0 <= i < |props| => if KeyOf(props[i]) == KeyOf(v) then v else props[i]);
      assert HasKey(r, KeyOf(v)) by {
        var j :| 0 <= j < |props| && KeyOf(props[j]) == KeyOf(v);
        assert r[j] == v;
      }
      assert forall x :: x in props && KeyOf(x) != KeyOf(v) ==> x in r by {
        forall x | x in props && KeyOf(x) != KeyOf(v) ensures x in r {
          var i :| 0 <= i < |props| && props[i] == x;
          assert r[i] == x;
        }
      }
      r
    else
      assert KeyOf((props + [v])[|props|]) == KeyOf(v);
      props + [v]
  }

  /** The first entry with key `k`: what `options[k]` reads. */
  function Lookup(props: seq<Prop>, k: Key): (r: Option<Prop>)
    ensures r.Some? ==> KeyOf(r.value) == k && r.value in props
    ensures r.None? <==> !HasKey(props, k)
    decreases |props|
  {
    if |props| == 0 then None
    else
      HasKeyTail(props, k);
      if KeyOf(props[0]) == k then Some(props[0]) else Lookup(props[1..], k)
  }

  function NumValue(p: Option<Prop>): Num {
    match p
    case Some(UnitNumber(n)) => n
    case Some(UnitCost(n)) => n
    case Some(Frequency(n)) => n
    case Some(Start(n)) => n
    case Some(End(n)) => n
    case Some(Modified(n)) => n
    case Some(Created(n)) => n
    case _ => NaN
  }

  function StrValue(p: Option<Prop>): string {
    match p
    case Some(Title(s)) => s
    case Some(UnitType(s)) => s
    case Some(Currency(s)) => s
    case _ => ""
  }

  /** The cost fields `add` settles on for the new line: the option if truthy, else the
      receiver's value if truthy, else the default. The currency getter never returns
      a falsy value, so `this.root.currency`, the last fallback, is never read. */
  datatype Inherited = Inherited(unitNumber: Num, unitType: string, unitCost: Num, frequency: Num, currency: string)

  function Inherit(props: seq<Prop>, recv: LineData): (v: Inherited)
    ensures Truthy(v.unitNumber) && v.unitType != "" && Truthy(v.frequency) && v.currency != ""
    ensures var o := NumValue(Lookup(props, KUnitNumber));
      v.unitNumber == if Truthy(o) then o else if Truthy(recv.unitNumber) then recv.unitNumber else Real(1.0)
    ensures var o := StrValue(Lookup(props, KUnitType));
      v.unitType == if o != "" then o else if recv.unitType != "" then recv.unitType else "ls"
    ensures var o := NumValue(Lookup(props, KUnitCost));
      v.unitCost == if Truthy(o) then o else if Truthy(recv.unitCost) then recv.unitCost else Real(0.0)
    ensures var o := NumValue(Lookup(props, KFrequency));
      v.frequency == if Truthy(o) then o else if Truthy(recv.frequency) then recv.frequency else Real(1.0)
    ensures var o := StrValue(Lookup(props, KCurrency));
      v.currency == if o != "" then o else CurrencyOf(recv)
  {
    Inherited(
      OrNum(NumValue(Lookup(props, KUnitNumber)), OrNum(recv.unitNumber, Real(1.0))),
      OrStr(StrValue(Lookup(props, KUnitType)), OrStr(recv.unitType, "ls")),
      OrNum(NumValue(Lookup(props, KUnitCost)), OrNum(recv.unitCost, Real(0.0))),
      OrNum(NumValue(Lookup(props, KFrequency)), OrNum(recv.frequency, Real(1.0))),
      OrStr(StrValue(Lookup(props, KCurrency)), CurrencyOf(recv)))
  }

  /** The options object after the five assignments at the start of `add`. */
  function InheritOptions(props: seq<Prop>, recv: LineData): seq<Prop> {
    var v := Inherit(props, recv);
    SetOpt(SetOpt(SetOpt(SetOpt(SetOpt(props, UnitNumber(v.unitNumber)), UnitType(v.unitType)),
      UnitCost(v.unitCost)), Frequency(v.frequency)), Currency(v.currency))
  }

  // ---------------------------------------------------------------------------
  // what the filled-in options leave in the new line

  /** Whether the last `unitNumber`/`unitType` entry is a `unitType` one (`b` when there
      is none). */
  function TypeLast(props: seq<Prop>, b: bool): bool
    decreases |props|
  {
    if |props| == 0 then b
    else TypeLast(props[1..], if props[0].UnitType? then true else if props[0].UnitNumber? then false else b)
  }

  lemma {:induction false} TypeLastSnoc(props: seq<Prop>, x: Prop, b: bool)
    ensures TypeLast(props + [x], b) == if x.UnitType? then true else if x.UnitNumber? then false else TypeLast(props, b)
    decreases |props|
  {
    if |props| == 0 {
      assert [] + [x] == [x];
    } else {
      assert (props + [x])[1..] == props[1..] + [x];
      TypeLastSnoc(props[1..], x, if props[0].UnitType? then true else if props[0].UnitNumber? then false else b);
    }
  }

  lemma {:induction false} TypeLastKeys(a: seq<Prop>, c: seq<Prop>, b: bool)
    requires |a| == |c| && forall i :: 0 <= i < |a| ==> KeyOf(a[i]) == KeyOf(c[i])
    ensures TypeLast(a, b) == TypeLast(c, b)
    decreases |a|
  {
    if |a| > 0 {
      assert KeyOf(a[0]) == KeyOf(c[0]);
      TypeLastKeys(a[1..], c[1..], if a[0].UnitType? then true else if a[0].UnitNumber? then false else b);
    }
  }

  lemma TypeLastSetOther(props: seq<Prop>, v: Prop, b: bool)
    requires !v.UnitType? && !v.UnitNumber?
    ensures TypeLast(SetOpt(props, v), b) == TypeLast(props, b)
  {
    if HasKey(props, KeyOf(v)) {
      TypeLastKeys(SetOpt(props, v), props, b);
    } else {
      TypeLastSnoc(props, v, b);
    }
  }

  /** Every entry with the key of `v` is `v`. */
  predicate Uniform(props: seq<Prop>, v: Prop) {
    forall i :: 0 <= i < |props| && KeyOf(props[i]) == KeyOf(v) ==> props[i] == v
  }

  lemma UniformTail(props: seq<Prop>, v: Prop)
    requires |props| > 0 && Uniform(props, v)
    ensures Uniform(props[1..], v)
  {
    forall i | 0 <= i < |props[1..]| && KeyOf(props[1..][i]) == KeyOf(v) ensures props[1..][i] == v {
      assert props[1..][i] == props[i + 1];
    }
  }

  lemma {:induction false} FinalUnitCostUniform(props: seq<Prop>, x: Num, v: Num)
    requires Uniform(props, UnitCost(v))
    ensures FinalUnitCost(props, x) == if HasKey(props, KUnitCost) then v else x
    decreases |props|
  {
    if |props| > 0 {
      HasKeyTail(props, KUnitCost);
      UniformTail(props, UnitCost(v));
      FinalUnitCostUniform(props[1..], if props[0].UnitCost? then props[0].n else x, v);
    }
  }

  lemma {:induction false} FinalFrequencyUniform(props: seq<Prop>, x: Num, v: Num)
    requires Uniform(props, Frequency(v))
    ensures FinalFrequency(props, x) == if HasKey(props, KFrequency) then v else x
    decreases |props|
  {
    if |props| > 0 {
      HasKeyTail(props, KFrequency);
      UniformTail(props, Frequency(v));
      FinalFrequencyUniform(props[1..], if props[0].Frequency? then props[0].n else x, v);
    }
  }

  lemma {:induction false} FinalUnitTypeUniform(props: seq<Prop>, x: string, v: string)
    requires Uniform(props, UnitType(v))
    ensures FinalUnitType(props, x) == if HasKey(props, KUnitType) then v else x
    decreases |props|
  {
    if |props| > 0 {
      HasKeyTail(props, KUnitType);
      UniformTail(props, UnitType(v));
      FinalUnitTypeUniform(props[1..], if props[0].UnitType? then props[0].s else x, v);
    }
  }

  lemma {:induction false} FinalCurrencyUniform(props: seq<Prop>, x: string, v: string, symbols: set<string>)
    requires Uniform(props, Currency(v))
    ensures FinalCurrency(props, x, symbols) == if HasKey(props, KCurrency) && Accepted(v, symbols) then v else x
    decreases |props|
  {
    if |props| > 0 {
      HasKeyTail(props, KCurrency);
      UniformTail(props, Currency(v));
      FinalCurrencyUniform(props[1..], if props[0].Currency? && Accepted(props[0].s, symbols) then props[0].s else x, v, symbols);
    }
  }

  lemma {:induction false} TypeLastNone(props: seq<Prop>, b: bool)
    requires !HasKey(props, KUnitNumber) && !HasKey(props, KUnitType)
    ensures TypeLast(props, b) == b
    decreases |props|
  {
    if |props| > 0 {
      HasKeyTail(props, KUnitNumber);
      HasKeyTail(props, KUnitType);
      TypeLastNone(props[1..], b);
    }
  }

  /** With one `unitNumber` value and one `unitType` value throughout the list, the
      last of those entries decides: a lump-sum type sets 1, a number sets its value,
      and another type leaves what came before. */
  lemma {:induction false} FinalUnitNumberUniform(props: seq<Prop>, x: Num, n: Num, s: string, b: bool)
    requires Uniform(props, UnitNumber(n)) && Uniform(props, UnitType(s))
    ensures IsLumpSum(s) ==>
      FinalUnitNumber(props, x) == if !HasKey(props, KUnitNumber) && !HasKey(props, KUnitType) then x
                                   else if TypeLast(props, b) then Real(1.0) else n
    ensures !IsLumpSum(s) ==> FinalUnitNumber(props, x) == if HasKey(props, KUnitNumber) then n else x
    decreases |props|
  {
    if |props| > 0 {
      HasKeyTail(props, KUnitNumber);
      HasKeyTail(props, KUnitType);
      UniformTail(props, UnitNumber(n));
      UniformTail(props, UnitType(s));
      var v := match props[0]
        case UnitNumber(m) => m
        case UnitType(t) => if IsLumpSum(t) then Real(1.0) else x
        case _ => x;
      var b0 := if props[0].UnitType? then true else if props[0].UnitNumber? then false else b;
      FinalUnitNumberUniform(props[1..], v, n, s, b0);
      if !HasKey(props[1..], KUnitNumber) && !HasKey(props[1..], KUnitType) {
        TypeLastNone(props[1..], b0);
      }
    }
  }

  // ---------------------------------------------------------------------------
  // the filled-in options

  lemma SetOptOther(props: seq<Prop>, v: Prop, w: Prop)
    requires KeyOf(w) != KeyOf(v)
    ensures Uniform(props, w) ==> Uniform(SetOpt(props, v), w)
    ensures HasKey(SetOpt(props, v), KeyOf(w)) <==> HasKey(props, KeyOf(w))
  {
    var r := SetOpt(props, v);
    if HasKey(r, KeyOf(w)) {
      var i :| 0 <= i < |r| && KeyOf(r[i]) == KeyOf(w);
      var j :| 0 <= j < |props| && props[j] == r[i];
    }
    if HasKey(props, KeyOf(w)) {
      var j :| 0 <= j < |props| && KeyOf(props[j]) == KeyOf(w);
      var i :| 0 <= i < |r| && r[i] == props[j];
    }
    if Uniform(props, w) {
      forall i | 0 <= i < |r| && KeyOf(r[i]) == KeyOf(w) ensures r[i] == w {
        var j :| 0 <= j < |props| && props[j] == r[i];
      }
    }
  }

  lemma SetOptReadOnly(props: seq<Prop>, v: Prop)
    requires !v.ReadOnly?
    ensures HasReadOnly(SetOpt(props, v)) <==> HasReadOnly(props)
  {
    var r := SetOpt(props, v);
    if HasReadOnly(r) {
      var i :| 0 <= i < |r| && r[i].ReadOnly?;
      var j :| 0 <= j < |props| && props[j] == r[i];
    }
    if HasReadOnly(props) {
      var j :| 0 <= j < |props| && props[j].ReadOnly?;
      var i :| 0 <= i < |r| && r[i] == props[j];
    }
  }

  /** Whether, once `add` has filled in the options, the `unitType` entry comes after
      the `unitNumber` one: true when the caller gave no type (it is appended last),
      false when the caller gave a type but no number, else the caller's own order. */
  predicate TypeAfterNumber(props: seq<Prop>) {
    if !HasKey(props, KUnitType) then true
    else if !HasKey(props, KUnitNumber) then false
    else TypeLast(props, false)
  }

  lemma InheritedList(props: seq<Prop>, recv: LineData)
    ensures var v := Inherit(props, recv); var l := InheritOptions(props, recv);
      && Uniform(l, UnitNumber(v.unitNumber)) && Uniform(l, UnitType(v.unitType))
      && Uniform(l, UnitCost(v.unitCost)) && Uniform(l, Frequency(v.frequency))
      && Uniform(l, Currency(v.currency))
      && HasKey(l, KUnitNumber) && HasKey(l, KUnitType) && HasKey(l, KUnitCost)
      && HasKey(l, KFrequency) && HasKey(l, KCurrency)
      && TypeLast(l, false) == TypeAfterNumber(props)
      && (HasReadOnly(l) <==> HasReadOnly(props))
  {
    InheritedFields(props, recv);
    InheritedOrder(props, recv);
    InheritedReadOnly(props, recv);
  }

  lemma InheritedFields(props: seq<Prop>, recv: LineData)
    ensures var v := Inherit(props, recv); var l := InheritOptions(props, recv);
      && Uniform(l, UnitNumber(v.unitNumber)) && Uniform(l, UnitType(v.unitType))
      && Uniform(l, UnitCost(v.unitCost)) && Uniform(l, Frequency(v.frequency))
      && Uniform(l, Currency(v.currency))
      && HasKey(l, KUnitNumber) && HasKey(l, KUnitType) && HasKey(l, KUnitCost)
      && HasKey(l, KFrequency) && HasKey(l, KCurrency)
  {
    var v := Inherit(props, recv);
    assert InheritOptions(props, recv) == SetFive(props, UnitNumber(v.unitNumber), UnitType(v.unitType),
      UnitCost(v.unitCost), Frequency(v.frequency), Currency(v.currency));
    FieldsSet(props, v);
  }

  lemma FieldsSet(props: seq<Prop>, v: Inherited)
    ensures var l := SetFive(props, UnitNumber(v.unitNumber), UnitType(v.unitType),
        UnitCost(v.unitCost), Frequency(v.frequency), Currency(v.currency));
      && Uniform(l, UnitNumber(v.unitNumber)) && Uniform(l, UnitType(v.unitType))
      && Uniform(l, UnitCost(v.unitCost)) && Uniform(l, Frequency(v.frequency))
      && Uniform(l, Currency(v.currency))
      && HasKey(l, KUnitNumber) && HasKey(l, KUnitType) && HasKey(l, KUnitCost)
      && HasKey(l, KFrequency) && HasKey(l, KCurrency)
  {
    SetFiveKeeps(props, UnitNumber(v.unitNumber), UnitType(v.unitType),
      UnitCost(v.unitCost), Frequency(v.frequency), Currency(v.currency));
  }

  /** Five entries set one after the other. */
  function SetFive(props: seq<Prop>, a: Prop, b: Prop, c: Prop, d: Prop, e: Prop): seq<Prop> {
    SetOpt(SetOpt(SetOpt(SetOpt(SetOpt(props, a), b), c), d), e)
  }

  /** Each of five entries with distinct keys is present and uniform after all five
      are set. */
  lemma SetFiveKeeps(props: seq<Prop>, a: Prop, b: Prop, c: Prop, d: Prop, e: Prop)
    requires KeyOf(a) != KeyOf(b) && KeyOf(a) != KeyOf(c) && KeyOf(a) != KeyOf(d) && KeyOf(a) != KeyOf(e)
    requires KeyOf(b) != KeyOf(c) && KeyOf(b) != KeyOf(d) && KeyOf(b) != KeyOf(e)
    requires KeyOf(c) != KeyOf(d) && KeyOf(c) != KeyOf(e) && KeyOf(d) != KeyOf(e)
    ensures var l := SetFive(props, a, b, c, d, e);
      && Uniform(l, a) && Uniform(l, b) && Uniform(l, c) && Uniform(l, d) && Uniform(l, e)
      && HasKey(l, KeyOf(a)) && HasKey(l, KeyOf(b)) && HasKey(l, KeyOf(c))
      && HasKey(l, KeyOf(d)) && HasKey(l, KeyOf(e))
  {
    var l1 := SetOpt(props, a);
    var l2 := SetOpt(l1, b);
    var l3 := SetOpt(l2, c);
    var l4 := SetOpt(l3, d);
    SetFourKeeps(l1, a, b, c, d, e);
    SetOptOther(l2, c, b); SetOptOther(l3, d, b); SetOptOther(l4, e, b);
    SetOptOther(l3, d, c); SetOptOther(l4, e, c);
    SetOptOther(l4, e, d);
  }

  /** An entry `w` that is present and uniform stays so while four entries with other
      keys are set (the last of them may repeat). */
  lemma SetFourKeeps(l: seq<Prop>, w: Prop, b: Prop, c: Prop, d: Prop, e: Prop)
    requires Uniform(l, w) && HasKey(l, KeyOf(w))
    requires KeyOf(w) != KeyOf(b) && KeyOf(w) != KeyOf(c) && KeyOf(w) != KeyOf(d) && KeyOf(w) != KeyOf(e)
    ensures var r := SetOpt(SetOpt(SetOpt(SetOpt(l, b), c), d), e);
      Uniform(r, w) && HasKey(r, KeyOf(w))
  {
    var l2 := SetOpt(l, b);
    SetOptOther(l, b, w);
    var l3 := SetOpt(l2, c);
    SetOptOther(l2, c, w);
    var l4 := SetOpt(l3, d);
    SetOptOther(l3, d, w);
    SetOptOther(l4, e, w);
  }

  lemma InheritedReadOnly(props: seq<Prop>, recv: LineData)
    ensures HasReadOnly(InheritOptions(props, recv)) <==> HasReadOnly(props)
  {
    var v := Inherit(props, recv);
    var pN, pT, pC, pF, pK := UnitNumber(v.unitNumber), UnitType(v.unitType), UnitCost(v.unitCost),
      Frequency(v.frequency), Currency(v.currency);
    var l1 := SetOpt(props, pN);
    var l2 := SetOpt(l1, pT);
    var l3 := SetOpt(l2, pC);
    var l4 := SetOpt(l3, pF);
    SetOptReadOnly(props, pN); SetOptReadOnly(l1, pT); SetOptReadOnly(l2, pC);
    SetOptReadOnly(l3, pF); SetOptReadOnly(l4, pK);
  }

  /** Where the type and number entries end up. */
  lemma InheritedOrder(props: seq<Prop>, recv: LineData)
    ensures TypeLast(InheritOptions(props, recv), false) == TypeAfterNumber(props)
  {
    var v := Inherit(props, recv);
    var pN, pT, pC, pF, pK := UnitNumber(v.unitNumber), UnitType(v.unitType), UnitCost(v.unitCost),
      Frequency(v.frequency), Currency(v.currency);
    var l1 := SetOpt(props, pN);
    var l2 := SetOpt(l1, pT);
    var l3 := SetOpt(l2, pC);
    var l4 := SetOpt(l3, pF);
    SetOptOther(props, pN, pT);
    if HasKey(props, KUnitNumber) {
      TypeLastKeys(l1, props, false);
    } else {
      TypeLastSnoc(props, pN, false);
    }
    if HasKey(l1, KUnitType) {
      TypeLastKeys(l2, l1, false);
    } else {
      TypeLastSnoc(l1, pT, false);
    }
    TypeLastSetOther(l2, pC, false);
    TypeLastSetOther(l3, pF, false);
    TypeLastSetOther(l4, pK, false);
  }
}
