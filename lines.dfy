/** The stored state of one budget line (the `_`-fields of `Line`), the property lists
    that the constructor and `update` copy onto a line, the validating setters and the
    constructor itself. Reading the wall clock becomes a parameter `now`, and the table
    of known currency codes (`symbols`) a parameter. */
module Lines {
  import opened Js
  import opened Trees

  /** An entry of `overhead`: a title and a rate. Its `cost` is worked out from the
      line that holds it (module Money). */
  datatype Overhead = Overhead(title: string, rate: Num)

  /** The fields of a line. An unset string field is "", an unset number NaN: the code
      only tests them for truthiness, does arithmetic on them or exports them when they
      are truthy, and there undefined behaves as "" or NaN does. */
  datatype LineData = LineData(
    title: string,
    unitNumber: Num, unitType: string, unitCost: Num, frequency: Num,
    currency: string,
    start: Num, end: Num, modified: Num, created: Num,
    category: Option<seq<string>>,
    overhead: Option<seq<Overhead>>)

  type Line = Tree<LineData>

  /** A wall-clock reading in milliseconds. */
  type Time = n: int | n > 0 witness 1

  function Stamp(now: Time): (r: Num)
    ensures Truthy(r)
  {
    Real(now as real)
  }

  /** A line straight after `new Line()` allocates it, before any field is set. */
  const Unset := LineData("", NaN, "", NaN, NaN, "", NaN, NaN, NaN, NaN, None, None)

  const DefaultCurrency: string := "USD"

  const LevelNames: seq<string> := ["Budget", "Heading", "Sub-heading", "Activity", "Sub-activity"]

  /** One day in milliseconds: the default length of a line. */
  const DayMs: real := 86400000.0

  // ---------------------------------------------------------------------------
  // title and currency getters

  /** `levelName`: the configured name of the level; `undefined` past the fifth. */
  function LevelName(level: nat): string {
    if level < |LevelNames| then LevelNames[level] else "undefined"
  }

  /** `defaultTitle`: the level name, a dash and the line number. */
  function DefaultTitle(p: Path): string {
    LevelName(Level(p)) + "-" + NatToString(LineNumber(p))
  }

  /** The default title of a line that has no parent yet, as the constructor sees it. */
  const DetachedTitle: string := "Budget-1"

  lemma DetachedTitleIsDefault()
    ensures DefaultTitle([]) == DetachedTitle
  {
  }

  /** The `title` getter, given the default title of the line's position. */
  function TitleOf(d: LineData, defaultTitle: string): string {
    Trim(OrStr(d.title, defaultTitle))
  }

  lemma {:induction false} TrimStartNoSpace(s: string)
    requires |s| > 0 ==> !IsSpace(s[0])
    ensures TrimStart(s) == s
  {
  }

  lemma {:induction false} TrimEndNoSpace(s: string)
    requires |s| > 0 ==> !IsSpace(s[|s| - 1])
    ensures TrimEnd(s) == s
  {
  }

  /** Trimming twice is trimming once. */
  lemma TrimIdempotent(s: string)
    ensures Trim(Trim(s)) == Trim(s)
  {
    var a := TrimStart(s);
    var b := TrimEnd(a);
    if |b| > 0 {
      assert b[0] == a[0];
    }
    TrimStartNoSpace(b);
    TrimEndNoSpace(b);
  }

  /** The `currency` getter: the first three characters of the stored code, or of the
      default currency, in upper case. */
  function CurrencyOf(d: LineData): (c: string)
    ensures 1 <= |c| <= 3
    ensures forall i :: 0 <= i < |c| ==> !('a' <= c[i] <= 'z')
  {
    ToUpper(Prefix(OrStr(d.currency, DefaultCurrency), 3))
  }

  lemma ToUpperNoLower(s: string)
    requires forall i :: 0 <= i < |s| ==> !('a' <= s[i] <= 'z')
    ensures ToUpper(s) == s
  {
  }

  /** Storing the code the getter shows does not change what the getter shows. */
  lemma CurrencyNormalStable(d: LineData)
    ensures CurrencyOf(d.(currency := CurrencyOf(d))) == CurrencyOf(d)
  {
    var c := CurrencyOf(d);
    assert Prefix(c, 3) == c;
    ToUpperNoLower(c);
  }

  // ---------------------------------------------------------------------------
  // property lists and setters

  /** The value `add`, `update` and the constructor may pass for `category`: an array
      is stored as it is, anything else is wrapped in a one-element array. */
  datatype CategoryArg = One(item: string) | Many(items: seq<string>)

  function Items(c: CategoryArg): seq<string> {
    match c
    case One(x) => [x]
    case Many(xs) => xs
  }

  /** The getter-only properties of `Line`: assigning one throws a TypeError, since
      class code runs in strict mode. */
  datatype ReadOnlyKey = RLevel | RLevelName | RLineNumber | RAbsLineNumber | RIndex | RRoot
                       | RAncestors | RSiblings | RDescendants | RBefore | RAfter | RCurrencies
                       | RCost | RTotalWithoutOverhead | RTotal | RDuration | RDefaultTitle

  /** One own property of an options object, `key: value`. A list of them, in key
      order, stands for the object. */
  datatype Prop =
    | Title(s: string) | UnitNumber(n: Num) | UnitType(s: string) | UnitCost(n: Num)
    | Frequency(n: Num) | Currency(s: string) | Start(n: Num) | End(n: Num)
    | Modified(n: Num) | Created(n: Num) | Category(c: CategoryArg) | ReadOnly(key: ReadOnlyKey)

  /** The key of a property; an options object holds at most one entry per key. */
  datatype Key = KTitle | KUnitNumber | KUnitType | KUnitCost | KFrequency | KCurrency
               | KStart | KEnd | KModified | KCreated | KCategory | KReadOnly(r: ReadOnlyKey)

  function KeyOf(p: Prop): Key {
    match p
    case Title(_) => KTitle
    case UnitNumber(_) => KUnitNumber
    case UnitType(_) => KUnitType
    case UnitCost(_) => KUnitCost
    case Frequency(_) => KFrequency
    case Currency(_) => KCurrency
    case Start(_) => KStart
    case End(_) => KEnd
    case Modified(_) => KModified
    case Created(_) => KCreated
    case Category(_) => KCategory
    case ReadOnly(r) => KReadOnly(r)
  }

  predicate IsLumpSum(s: string) {
    s == "ls" || s == "lumpsum"
  }

  /** The fields of a line, to say which ones an operation leaves alone. */
  datatype Field = FTitle | FUnitNumber | FUnitType | FUnitCost | FFrequency | FCurrency
                 | FStart | FEnd | FModified | FCreated | FCategory | FOverhead

  /** `d` and `e` agree on every field outside `fs`. */
  predicate Agree(d: LineData, e: LineData, fs: set<Field>) {
    && (FTitle !in fs ==> d.title == e.title)
    && (FUnitNumber !in fs ==> d.unitNumber == e.unitNumber)
    && (FUnitType !in fs ==> d.unitType == e.unitType)
    && (FUnitCost !in fs ==> d.unitCost == e.unitCost)
    && (FFrequency !in fs ==> d.frequency == e.frequency)
    && (FCurrency !in fs ==> d.currency == e.currency)
    && (FStart !in fs ==> d.start == e.start)
    && (FEnd !in fs ==> d.end == e.end)
    && (FModified !in fs ==> d.modified == e.modified)
    && (FCreated !in fs ==> d.created == e.created)
    && (FCategory !in fs ==> d.category == e.category)
    && (FOverhead !in fs ==> d.overhead == e.overhead)
  }

  /** The fields the assignment of a property may write. */
  function Touches(p: Prop): set<Field> {
    match p
    case Title(_) => {FTitle, FModified}
    case UnitNumber(_) => {FUnitNumber, FModified}
    case UnitType(_) => {FUnitType, FUnitNumber, FModified}
    case UnitCost(_) => {FUnitCost, FModified}
    case Frequency(_) => {FFrequency, FModified}
    case Currency(_) => {FCurrency, FModified}
    case Start(_) => {FStart, FModified}
    case End(_) => {FEnd, FModified}
    case Modified(_) => {FModified}
    case Created(_) => {FCreated}
    case Category(_) => {FCategory, FModified}
    case ReadOnly(_) => {}
  }

  /** A currency code the setter accepts: its upper-case form is a known symbol. */
  predicate Accepted(c: string, symbols: set<string>) {
    ToUpper(c) in symbols
  }

  /** `set title`: stores the title only when it is non-empty, not blank and not the
      title already shown; stamps `modified` in every case. */
  function SetTitle(d: LineData, s: string, now: Time, defaultTitle: string): (r: LineData)
    ensures TitleOf(r, defaultTitle) == if Trim(s) != "" then Trim(s) else TitleOf(d, defaultTitle)
    ensures r.modified == Stamp(now)
    ensures Agree(d, r, {FTitle, FModified})
  {
    TrimIdempotent(OrStr(d.title, defaultTitle));
    if s != "" && Trim(s) != "" && s != TitleOf(d, defaultTitle) then d.(title := s, modified := Stamp(now))
    else d.(modified := Stamp(now))
  }

  /** `set currency`: a code whose upper-case form is not a known symbol is ignored. */
  function SetCurrency(d: LineData, c: string, now: Time, symbols: set<string>): (r: LineData)
    ensures Accepted(c, symbols) ==> r.currency == c && r.modified == Stamp(now)
    ensures !Accepted(c, symbols) ==> r == d
    ensures Agree(d, r, {FCurrency, FModified})
  {
    if Accepted(c, symbols) then d.(currency := c, modified := Stamp(now)) else d
  }

  /** `this[key] = value` for one property: the setter of the key, a plain field for
      `created`, and a TypeError for a getter-only key. */
  function Assign(d: LineData, p: Prop, now: Time, symbols: set<string>, defaultTitle: string)
    : (r: Result<LineData>)
    ensures r.TypeError? <==> p.ReadOnly?
    ensures r.Ok? ==> Agree(d, r.value, Touches(p))
    ensures r.Ok? && !p.Modified? && !p.Created? && !(p.Currency? && !Accepted(p.s, symbols))
      ==> r.value.modified == Stamp(now)
    ensures p.Title? ==> TitleOf(r.value, defaultTitle)
                         == if Trim(p.s) != "" then Trim(p.s) else TitleOf(d, defaultTitle)
    ensures p.UnitNumber? || p.UnitCost? || p.Frequency? || p.Start? || p.End? || p.Modified? || p.Created?
      ==> ValueOf(r.value, p) == p.n
    ensures p.UnitType? ==> r.value.unitType == p.s
                            && r.value.unitNumber == if IsLumpSum(p.s) then Real(1.0) else d.unitNumber
    ensures p.Currency? ==> r.value.currency == if Accepted(p.s, symbols) then p.s else d.currency
    ensures p.Category? ==> r.value.category == Some(Items(p.c))
  {
    match p
    case Title(s) => Ok(SetTitle(d, s, now, defaultTitle))
    case UnitNumber(n) => Ok(d.(unitNumber := n, modified := Stamp(now)))
    case UnitType(s) =>
      var d' := d.(unitType := s);
      Ok(if IsLumpSum(s) then d'.(unitNumber := Real(1.0), modified := Stamp(now)) else d'.(modified := Stamp(now)))
    case UnitCost(n) => Ok(d.(unitCost := n, modified := Stamp(now)))
    case Frequency(n) => Ok(d.(frequency := n, modified := Stamp(now)))
    case Currency(c) => Ok(SetCurrency(d, c, now, symbols))
    case Start(n) => Ok(d.(start := n, modified := Stamp(now)))
    case End(n) => Ok(d.(end := n, modified := Stamp(now)))
    case Modified(n) => Ok(d.(modified := n))
    case Created(n) => Ok(d.(created := n))
    case Category(c) => Ok(d.(category := Some(Items(c)), modified := Stamp(now)))
    case ReadOnly(_) => TypeError
  }

  /** The numeric field a numeric property names. */
  function ValueOf(d: LineData, p: Prop): Num
    requires p.UnitNumber? || p.UnitCost? || p.Frequency? || p.Start? || p.End? || p.Modified? || p.Created?
  {
    match p
    case UnitNumber(_) => d.unitNumber
    case UnitCost(_) => d.unitCost
    case Frequency(_) => d.frequency
    case Start(_) => d.start
    case End(_) => d.end
    case Modified(_) => d.modified
    case Created(_) => d.created
  }

  predicate HasReadOnly(props: seq<Prop>) {
    exists i :: 0 <= i < |props| && props[i].ReadOnly?
  }

  lemma HasReadOnlyTail(props: seq<Prop>)
    requires |props| > 0
    ensures HasReadOnly(props) <==> props[0].ReadOnly? || HasReadOnly(props[1..])
  {
    if HasReadOnly(props) && !props[0].ReadOnly? {
      var i :| 0 <= i < |props| && props[i].ReadOnly?;
      assert props[1..][i - 1].ReadOnly?;
    }
    if HasReadOnly(props[1..]) {
      var i :| 0 <= i < |props| - 1 && props[1..][i].ReadOnly?;
      assert props[i + 1].ReadOnly?;
    }
  }

  /** The state after assigning properties from left to right, and whether an
      assignment threw; the state is the one the line is left in at the throw. */
  datatype Applied = Applied(data: LineData, threw: bool)

  /** The loop `for (v in options) this[v] = options[v]`. */
  function ApplyProps(d: LineData, props: seq<Prop>, now: Time, symbols: set<string>, defaultTitle: string)
    : (r: Applied)
    ensures r.threw <==> HasReadOnly(props)
    decreases |props|
  {
    if |props| == 0 then Applied(d, false)
    else
      HasReadOnlyTail(props);
      match Assign(d, props[0], now, symbols, defaultTitle)
      case TypeError => Applied(d, true)
      case Ok(d') => ApplyProps(d', props[1..], now, symbols, defaultTitle)
  }

  // ---------------------------------------------------------------------------
  // what a property list leaves in each field, read off the list

  /** What the list leaves in `unitNumber`: the last `unitNumber` or lump-sum
      `unitType` property decides (the `unitType` setter sets `unitNumber` to 1). */
  function FinalUnitNumber(props: seq<Prop>, init: Num): Num
    decreases |props|
  {
    if |props| == 0 then init
    else
      var v := match props[0]
        case UnitNumber(n) => n
        case UnitType(s) => if IsLumpSum(s) then Real(1.0) else init
        case _ => init;
      FinalUnitNumber(props[1..], v)
  }

  function FinalUnitType(props: seq<Prop>, init: string): string
    decreases |props|
  {
    if |props| == 0 then init
    else FinalUnitType(props[1..], if props[0].UnitType? then props[0].s else init)
  }

  function FinalUnitCost(props: seq<Prop>, init: Num): Num
    decreases |props|
  {
    if |props| == 0 then init
    else FinalUnitCost(props[1..], if props[0].UnitCost? then props[0].n else init)
  }

  function FinalFrequency(props: seq<Prop>, init: Num): Num
    decreases |props|
  {
    if |props| == 0 then init
    else FinalFrequency(props[1..], if props[0].Frequency? then props[0].n else init)
  }

  /** What the list leaves in `_currency`: the last accepted code. */
  function FinalCurrency(props: seq<Prop>, init: string, symbols: set<string>): string
    decreases |props|
  {
    if |props| == 0 then init
    else FinalCurrency(props[1..], if props[0].Currency? && Accepted(props[0].s, symbols) then props[0].s else init, symbols)
  }

  /** What the list leaves in `_modified`: a `modified` property sets it, `created`
      and a rejected currency leave it, every other setter stamps the clock. */
  function FinalModified(props: seq<Prop>, init: Num, now: Time, symbols: set<string>): Num
    decreases |props|
  {
    if |props| == 0 then init
    else
      var v := match props[0]
        case Modified(n) => n
        case Created(_) => init
        case Currency(c) => if Accepted(c, symbols) then Stamp(now) else init
        case _ => Stamp(now);
      FinalModified(props[1..], v, now, symbols)
  }

  /** Assigning a list field by field ends in the values read off the list. */
  lemma {:induction false} ApplyFinal(d: LineData, props: seq<Prop>, now: Time, symbols: set<string>, dt: string)
    requires !HasReadOnly(props)
    ensures var e := ApplyProps(d, props, now, symbols, dt).data;
      && e.unitNumber == FinalUnitNumber(props, d.unitNumber)
      && e.unitType == FinalUnitType(props, d.unitType)
      && e.unitCost == FinalUnitCost(props, d.unitCost)
      && e.frequency == FinalFrequency(props, d.frequency)
      && e.currency == FinalCurrency(props, d.currency, symbols)
      && e.overhead == d.overhead
    decreases |props|
  {
    if |props| > 0 {
      HasReadOnlyTail(props);
      var d' := Assign(d, props[0], now, symbols, dt).value;
      AssignStep(d, props[0], now, symbols, dt);
      ApplyFinal(d', props[1..], now, symbols, dt);
    }
  }

  /** One assignment, read through the same per-field view. */
  lemma AssignStep(d: LineData, p: Prop, now: Time, symbols: set<string>, dt: string)
    requires !p.ReadOnly?
    ensures var e := Assign(d, p, now, symbols, dt).value;
      && e.unitNumber == FinalUnitNumber([p], d.unitNumber)
      && e.unitType == FinalUnitType([p], d.unitType)
      && e.unitCost == FinalUnitCost([p], d.unitCost)
      && e.frequency == FinalFrequency([p], d.frequency)
      && e.currency == FinalCurrency([p], d.currency, symbols)
      && e.overhead == d.overhead
  {
    assert [p][0] == p && [p][1..] == [];
    var e := Assign(d, p, now, symbols, dt).value;
    assert Agree(d, e, Touches(p));
    if p.UnitType? {
      assert e.unitType == p.s;
    }
  }

  /** Same for `modified`; it holds also when an assignment throws part-way. */
  lemma {:induction false} ApplyModified(d: LineData, props: seq<Prop>, now: Time, symbols: set<string>, dt: string)
    ensures var a := ApplyProps(d, props, now, symbols, dt);
      !a.threw ==> a.data.modified == FinalModified(props, d.modified, now, symbols)
    decreases |props|
  {
    if |props| > 0 {
      HasReadOnlyTail(props);
      if !props[0].ReadOnly? {
        var d' := Assign(d, props[0], now, symbols, dt).value;
        ApplyModified(d', props[1..], now, symbols, dt);
      }
    }
  }

  // ---------------------------------------------------------------------------
  // the constructor

  /** `this.currency = this.currency || 'USD'`: the code the getter shows is fed back
      through the setter, so a known code is stored in its normal form. */
  function NormaliseCurrency(d: LineData, now: Time, symbols: set<string>): (r: LineData)
    ensures CurrencyOf(r) == CurrencyOf(d)
    ensures r.currency == if CurrencyOf(d) in symbols then CurrencyOf(d) else d.currency
    ensures r.modified == if CurrencyOf(d) in symbols then Stamp(now) else d.modified
    ensures Agree(d, r, {FCurrency, FModified})
  {
    CurrencyNormalStable(d);
    ToUpperNoLower(CurrencyOf(d));
    SetCurrency(d, OrStr(CurrencyOf(d), DefaultCurrency), now, symbols)
  }

  /** A falsy `start` becomes now and a falsy `end` one day after `start`; each of
      those setters stamps `modified`. */
  function DefaultSpan(d: LineData, now: Time): (r: LineData)
    ensures r.start == OrNum(d.start, Stamp(now)) && Truthy(r.start)
    ensures r.end == if Truthy(d.end) then d.end else Plus(r.start, Real(DayMs))
    ensures r.modified == if !Truthy(d.start) || !Truthy(d.end) then Stamp(now) else d.modified
    ensures Agree(d, r, {FStart, FEnd, FModified})
  {
    var d3 := if !Truthy(d.start) then d.(start := Stamp(now), modified := Stamp(now)) else d;
    if !Truthy(d3.end) then d3.(end := Plus(d3.start, Real(DayMs)), modified := Stamp(now)) else d3
  }

  /** `created = created || now`, then `modified = modified || created` (a line without
      children reads its own `_modified` through the `modified` getter). */
  function DefaultStamps(d: LineData, now: Time): (r: LineData)
    ensures r.created == OrNum(d.created, Stamp(now)) && Truthy(r.created)
    ensures r.modified == OrNum(d.modified, r.created) && Truthy(r.modified)
    ensures Agree(d, r, {FCreated, FModified})
  {
    var d5 := d.(created := OrNum(d.created, Stamp(now)));
    d5.(modified := OrNum(d5.modified, d5.created))
  }

  /** `new Line(options)`: assigns the options (a getter-only key throws), then
      normalises the currency, fills in the dates and time stamps. */
  function Construct(props: seq<Prop>, now: Time, symbols: set<string>): (r: Result<LineData>)
    ensures r.TypeError? <==> HasReadOnly(props)
    ensures r.Ok? ==>
      var d1 := ApplyProps(Unset, props, now, symbols, DetachedTitle).data;
      var e := r.value;
      && Agree(d1, e, {FCurrency, FStart, FEnd, FModified, FCreated})
      && CurrencyOf(e) == CurrencyOf(d1)
      && e.currency == (if CurrencyOf(d1) in symbols then CurrencyOf(d1) else d1.currency)
      && e.start == OrNum(d1.start, Stamp(now))
      && e.end == (if Truthy(d1.end) then d1.end else Plus(e.start, Real(DayMs)))
      && e.created == OrNum(d1.created, Stamp(now))
      && e.modified == (if CurrencyOf(d1) in symbols || !Truthy(d1.start) || !Truthy(d1.end) then Stamp(now)
                        else OrNum(d1.modified, e.created))
      && Truthy(e.start) && Truthy(e.created) && Truthy(e.modified)
  {
    var a := ApplyProps(Unset, props, now, symbols, DetachedTitle);
    if a.threw then TypeError
    else Ok(DefaultStamps(DefaultSpan(NormaliseCurrency(a.data, now, symbols), now), now))
  }

  // ---------------------------------------------------------------------------
  // update

  /** `options.modified`: the first `modified` property, undefined without one. */
  function LookupModified(props: seq<Prop>): Num
    decreases |props|
  {
    if |props| == 0 then NaN
    else if props[0].Modified? then props[0].n
    else LookupModified(props[1..])
  }

  /** `update(options)`: stamps `modified` unless the options carry a truthy
      `modified`, then assigns the options in order. */
  function Update(d: LineData, props: seq<Prop>, now: Time, symbols: set<string>, defaultTitle: string)
    : (r: Applied)
    ensures r.threw <==> HasReadOnly(props)
  {
    var d0 := if !Truthy(LookupModified(props)) then d.(modified := Stamp(now)) else d;
    ApplyProps(d0, props, now, symbols, defaultTitle)
  }

  /** An update that does not throw leaves each cost field and the currency as the
      options leave them, the overheads as they were, and `modified` as the options
      leave the stamp `update` starts from (now, unless a truthy `modified` option
      is given). */
  lemma UpdateFields(d: LineData, props: seq<Prop>, now: Time, symbols: set<string>, dt: string)
    ensures var a := Update(d, props, now, symbols, dt);
      var m0 := if !Truthy(LookupModified(props)) then Stamp(now) else d.modified;
      !a.threw ==>
        && a.data.unitNumber == FinalUnitNumber(props, d.unitNumber)
        && a.data.unitType == FinalUnitType(props, d.unitType)
        && a.data.unitCost == FinalUnitCost(props, d.unitCost)
        && a.data.frequency == FinalFrequency(props, d.frequency)
        && a.data.currency == FinalCurrency(props, d.currency, symbols)
        && a.data.overhead == d.overhead
        && a.data.modified == FinalModified(props, m0, now, symbols)
  {
    var d0 := if !Truthy(LookupModified(props)) then d.(modified := Stamp(now)) else d;
    if !HasReadOnly(props) {
      ApplyFinal(d0, props, now, symbols, dt);
      ApplyModified(d0, props, now, symbols, dt);
    }
  }

  lemma {:induction false} NoModifiedKeepsStamp(props: seq<Prop>, init: Num, now: Time, symbols: set<string>)
    requires forall i :: 0 <= i < |props| ==> !props[i].Modified?
    requires init == Stamp(now)
    ensures FinalModified(props, init, now, symbols) == Stamp(now)
    decreases |props|
  {
    if |props| > 0 {
      NoModifiedKeepsStamp(props[1..], Stamp(now), now, symbols);
    }
  }

  lemma {:induction false} LastModifiedWins(props: seq<Prop>, init: Num, now: Time, symbols: set<string>)
    requires |props| > 0 && props[|props| - 1].Modified?
    ensures FinalModified(props, init, now, symbols) == props[|props| - 1].n
    decreases |props|
  {
    if |props| > 1 {
      var v := match props[0]
        case Modified(n) => n
        case Created(_) => init
        case Currency(c) => if Accepted(c, symbols) then Stamp(now) else init
        case _ => Stamp(now);
      LastModifiedWins(props[1..], v, now, symbols);
    }
  }

  /** An update without a `modified` option leaves the line modified now; one whose
      last option is `modified` leaves exactly that value. */
  lemma UpdateModified(d: LineData, props: seq<Prop>, now: Time, symbols: set<string>, dt: string)
    requires !HasReadOnly(props)
    ensures (forall i :: 0 <= i < |props| ==> !props[i].Modified?)
      ==> Update(d, props, now, symbols, dt).data.modified == Stamp(now)
    ensures |props| > 0 && props[|props| - 1].Modified?
      ==> Update(d, props, now, symbols, dt).data.modified == props[|props| - 1].n
  {
    var d0 := if !Truthy(LookupModified(props)) then d.(modified := Stamp(now)) else d;
    ApplyModified(d0, props, now, symbols, dt);
    if forall i :: 0 <= i < |props| ==> !props[i].Modified? {
      NoModifiedLookup(props);
      NoModifiedKeepsStamp(props, d0.modified, now, symbols);
    }
    if |props| > 0 && props[|props| - 1].Modified? {
      LastModifiedWins(props, d0.modified, now, symbols);
    }
  }

  lemma {:induction false} NoModifiedLookup(props: seq<Prop>)
    requires forall i :: 0 <= i < |props| ==> !props[i].Modified?
    ensures LookupModified(props) == NaN
    decreases |props|
  {
    if |props| > 0 {
      NoModifiedLookup(props[1..]);
    }
  }
}
