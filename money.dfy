/** The money aggregation of a line: `cost`, `totalWithoutOverhead`, `total` and the
    `cost` of an overhead entry. Currency conversion is a parameter: a function of the
    amount and the two codes whose NaN result means that no rate is available. */
module Money {
  import opened Js
  import opened Trees
  import opened Lines

  /** `convert(amount, from, to)`. */
  type Converter = (Num, string, string) -> Num

  /** `cost`: number of units times the unit cost. */
  function Cost(d: LineData): Num {
    Times(d.unitNumber, d.unitCost)
  }

  /** The overhead entries of a line; an absent array has none. */
  function Overheads(d: LineData): seq<Overhead> {
    if d.overhead.Some? then d.overhead.value else []
  }

  /** `total`: the total without overhead plus the cost of every overhead entry. */
  function Total(n: Line, cv: Converter): Num
    decreases n, 2
  {
    WithOverheads(TotalWithoutOverhead(n, cv), Overheads(n.data), |Overheads(n.data)|)
  }

  /** `totalWithoutOverhead`: a line with children adds up their totals, each
      converted into this line's currency when the codes differ; a line without
      children has `cost * frequency`, or 0 when the cost is falsy. */
  function TotalWithoutOverhead(n: Line, cv: Converter): Num
    decreases n, 1
  {
    if |n.children| > 0 then KidsSum(n, cv, |n.children|)
    else if Truthy(Cost(n.data)) then Times(Cost(n.data), n.data.frequency)
    else Real(0.0)
  }

  /** The running sum over the first `i` children, from 0. */
  function KidsSum(n: Line, cv: Converter, i: nat): Num
    requires i <= |n.children|
    decreases n, 0, i
  {
    if i == 0 then Real(0.0) else Plus(KidsSum(n, cv, i - 1), Share(n, cv, i - 1))
  }

  /** What child `j` adds to its parent's total. */
  function Share(n: Line, cv: Converter, j: nat): Num
    requires j < |n.children|
    decreases n, 0, 0
  {
    var c := n.children[j];
    if CurrencyOf(n.data) != CurrencyOf(c.data) then cv(Total(c, cv), CurrencyOf(c.data), CurrencyOf(n.data))
    else Total(c, cv)
  }

  /** The cost of an overhead entry: the line's total without overhead times the rate. */
  function OverheadCost(base: Num, o: Overhead): Num {
    Times(base, o.rate)
  }

  /** The running total over the first `i` overhead entries, from `base`. */
  function WithOverheads(base: Num, os: seq<Overhead>, i: nat): Num
    requires i <= |os|
  {
    if i == 0 then base else Plus(WithOverheads(base, os, i - 1), OverheadCost(base, os[i - 1]))
  }

  // ---------------------------------------------------------------------------
  // properties

  predicate RealRates(os: seq<Overhead>) {
    forall k :: 0 <= k < |os| ==> os[k].rate.Real?
  }

  function RateSum(os: seq<Overhead>, i: nat): real
    requires i <= |os| && RealRates(os)
  {
    if i == 0 then 0.0 else RateSum(os, i - 1) + os[i - 1].rate.v
  }

  lemma {:induction false} WithOverheadsLinear(base: real, os: seq<Overhead>, i: nat)
    requires i <= |os| && RealRates(os)
    ensures WithOverheads(Real(base), os, i) == Real(base * (1.0 + RateSum(os, i)))
  {
    if i > 0 {
      WithOverheadsLinear(base, os, i - 1);
      calc {
        base * (1.0 + RateSum(os, i - 1)) + base * os[i - 1].rate.v;
        base * (1.0 + RateSum(os, i - 1) + os[i - 1].rate.v);
      }
    }
  }

  /** Overheads do not compound: each one is charged on the total without overhead,
      so the total is that amount times one plus the sum of the rates. */
  lemma TotalDoesNotCompound(n: Line, cv: Converter)
    requires TotalWithoutOverhead(n, cv).Real? && RealRates(Overheads(n.data))
    ensures Total(n, cv) == Real(TotalWithoutOverhead(n, cv).v * (1.0 + RateSum(Overheads(n.data), |Overheads(n.data)|)))
  {
    WithOverheadsLinear(TotalWithoutOverhead(n, cv).v, Overheads(n.data), |Overheads(n.data)|);
  }

  lemma {:induction false} WithOverheadsNaN(base: Num, os: seq<Overhead>, i: nat)
    requires i <= |os|
    ensures WithOverheads(base, os, i).NaN? <==> base.NaN? || exists k :: 0 <= k < i && os[k].rate.NaN?
  {
    if i > 0 {
      WithOverheadsNaN(base, os, i - 1);
      if os[i - 1].rate.NaN? {
        assert exists k :: 0 <= k < i && os[k].rate.NaN?;
      }
    }
  }

  /** The total is unavailable exactly when the total without overhead is, or some
      overhead rate is not a number. */
  lemma TotalNaN(n: Line, cv: Converter)
    ensures Total(n, cv).NaN? <==>
      TotalWithoutOverhead(n, cv).NaN? || exists k :: 0 <= k < |Overheads(n.data)| && Overheads(n.data)[k].rate.NaN?
  {
    WithOverheadsNaN(TotalWithoutOverhead(n, cv), Overheads(n.data), |Overheads(n.data)|);
  }

  lemma {:induction false} KidsSumNaN(n: Line, cv: Converter, i: nat)
    requires i <= |n.children|
    ensures KidsSum(n, cv, i).NaN? <==> exists j :: 0 <= j < i && Share(n, cv, j).NaN?
  {
    if i > 0 {
      KidsSumNaN(n, cv, i - 1);
      if Share(n, cv, i - 1).NaN? {
        assert exists j :: 0 <= j < i && Share(n, cv, j).NaN?;
      }
    }
  }

  /** A parent's total without overhead is unavailable exactly when some child's
      share is: a child total that is NaN, or a conversion without a rate. */
  lemma ParentTotalNaN(n: Line, cv: Converter)
    requires |n.children| > 0
    ensures TotalWithoutOverhead(n, cv).NaN? <==> exists j :: 0 <= j < |n.children| && Share(n, cv, j).NaN?
  {
    KidsSumNaN(n, cv, |n.children|);
  }

  /** A line without children: `cost * frequency`, or 0 when the cost is 0 or NaN. */
  lemma LeafTotal(n: Line, cv: Converter)
    requires |n.children| == 0
    ensures Truthy(Cost(n.data)) ==> TotalWithoutOverhead(n, cv) == Times(Times(n.data.unitNumber, n.data.unitCost), n.data.frequency)
    ensures !Truthy(Cost(n.data)) ==> TotalWithoutOverhead(n, cv) == Real(0.0)
  {
  }

  /** Every line of the subtree shows currency `c`. */
  predicate OneCurrency(n: Line, c: string) {
    CurrencyOf(n.data) == c && forall i :: 0 <= i < |n.children| ==> OneCurrency(n.children[i], c)
  }

  /** Where every line uses one currency nothing is converted: the total does not
      depend on the exchange rates. */
  lemma {:induction false} TotalIgnoresRates(n: Line, cv1: Converter, cv2: Converter, c: string)
    requires OneCurrency(n, c)
    ensures Total(n, cv1) == Total(n, cv2)
    decreases n, 1
  {
    if |n.children| > 0 {
      KidsSumIgnoresRates(n, cv1, cv2, c, |n.children|);
    }
  }

  lemma {:induction false} KidsSumIgnoresRates(n: Line, cv1: Converter, cv2: Converter, c: string, i: nat)
    requires OneCurrency(n, c) && i <= |n.children|
    ensures KidsSum(n, cv1, i) == KidsSum(n, cv2, i)
    decreases n, 0, i
  {
    if i > 0 {
      KidsSumIgnoresRates(n, cv1, cv2, c, i - 1);
      TotalIgnoresRates(n.children[i - 1], cv1, cv2, c);
    }
  }

  // ---------------------------------------------------------------------------
  // the getters' loops

  /** The `totalWithoutOverhead` getter. */
  method ComputeTotalWithoutOverhead(n: Line, cv: Converter) returns (total: Num)
    ensures total == TotalWithoutOverhead(n, cv)
    decreases n, 1
  {
    total := Real(0.0);
    if |n.children| > 0 {
      for i := 0 to |n.children|
        invariant total == KidsSum(n, cv, i)
      {
        var base := CurrencyOf(n.children[i].data);
        var childTotal := ComputeTotal(n.children[i], cv);
        if CurrencyOf(n.data) != base {
          total := Plus(total, cv(childTotal, base, CurrencyOf(n.data)));
        } else {
          total := Plus(total, childTotal);
        }
      }
    } else {
      var cost := Cost(n.data);
      total := if Truthy(cost) then Times(cost, n.data.frequency) else Real(0.0);
    }
  }

  /** The `total` getter; each overhead entry's `cost` getter recomputes the total
      without overhead. */
  method ComputeTotal(n: Line, cv: Converter) returns (total: Num)
    ensures total == Total(n, cv)
    decreases n, 2
  {
    total := ComputeTotalWithoutOverhead(n, cv);
    ghost var base := total;
    var os := Overheads(n.data);
    for i := 0 to |os|
      invariant total == WithOverheads(base, os, i)
    {
      var withoutOverhead := ComputeTotalWithoutOverhead(n, cv);
      total := Plus(total, OverheadCost(withoutOverhead, os[i]));
    }
  }
}
