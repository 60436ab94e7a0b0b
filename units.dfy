/** The magnitude units of the data-entry script: a table of factors to absolute
    numbers, the display table, the menu of units in increasing magnitude, and the
    conversion of one value between units. */
module UnitConversion {

  /** Factor from each unit to an absolute number. */
  const ConversionFactors: map<string, nat> := map[
    "thousand" := 1_000,
    "lakhs" := 100_000,
    "million" := 1_000_000,
    "cr" := 10_000_000,
    "billion" := 1_000_000_000
  ]

  /** What the reference table shows for a unit: its display name and its number of zeroes. */
  datatype UnitDetail = UnitDetail(name: string, zeroes: nat)

  const UnitDetails: map<string, UnitDetail> := map[
    "thousand" := UnitDetail("Thousand", 3),
    "lakhs" := UnitDetail("Lakhs", 5),
    "million" := UnitDetail("Million", 6),
    "cr" := UnitDetail("Crore (Cr)", 7),
    "billion" := UnitDetail("Billion", 9)
  ]

  /** The unit keys ordered by factor: the menu order. */
  const SortedUnitKeys: seq<string> := ["thousand", "lakhs", "million", "cr", "billion"]

  /** `keys` lists the keys of `factors`, each factor strictly larger than the one before:
      what sorting the table's keys by their factors produces. */
  predicate SortsByFactor(keys: seq<string>, factors: map<string, nat>)
  {
    && (forall i :: 0 <= i < |keys| ==> keys[i] in factors)
    && (forall u :: u in factors ==> u in keys)
    && (forall i, j :: 0 <= i < |keys| && j == i + 1 && j < |keys| ==>
          keys[i] in factors && keys[j] in factors && factors[keys[i]] < factors[keys[j]])
  }

  /** In a sorted listing every later key has a larger factor than every earlier one. */
  lemma {:induction false} SortedIsIncreasing(keys: seq<string>, factors: map<string, nat>, i: nat, j: nat)
    requires SortsByFactor(keys, factors) && i < j < |keys|
    ensures factors[keys[i]] < factors[keys[j]]
    decreases j - i
  {
    if i + 1 < j {
      SortedIsIncreasing(keys, factors, i + 1, j);
    }
  }

  /** The menu lists every unit exactly once, smallest factor first. */
  lemma SortedUnitKeysSortsTheTable()
    ensures SortsByFactor(SortedUnitKeys, ConversionFactors)
  {
    var keys, f := SortedUnitKeys, ConversionFactors;
    assert f["thousand"] < f["lakhs"] < f["million"] < f["cr"] < f["billion"];
    assert f.Keys == {"thousand", "lakhs", "million", "cr", "billion"};
    assert forall i :: 0 <= i < |keys| ==> keys[i] in f;
    assert forall u :: u in f ==> u in keys;
    assert forall i, j :: 0 <= i < |keys| && j == i + 1 && j < |keys| ==>
          keys[i] in f && keys[j] in f && f[keys[i]] < f[keys[j]];
  }

  /** Sorting a table's keys by factor has one result at most: two sorted listings of the same
      table are equal. So SortedUnitKeys is exactly the sorted key list. */
  lemma {:induction false} SortedListingIsUnique(keys: seq<string>, other: seq<string>, factors: map<string, nat>)
    requires SortsByFactor(keys, factors) && SortsByFactor(other, factors)
    ensures keys == other
    decreases |keys|
  {
    EmptyListingOfEmptyTable(keys, factors);
    EmptyListingOfEmptyTable(other, factors);
    if |keys| > 0 {
      HeadsAgree(keys, other, factors);
      TailSortsRest(keys, factors);
      TailSortsRest(other, factors);
      SortedListingIsUnique(keys[1..], other[1..], factors - {keys[0]});
      SameHeadSameTail(keys, other);
    }
  }

  /** Sequences with the same first element and the same rest are equal. */
  lemma SameHeadSameTail(a: seq<string>, b: seq<string>)
    requires |a| > 0 && |b| > 0 && a[0] == b[0] && a[1..] == b[1..]
    ensures a == b
  {
    assert a == [a[0]] + a[1..];
    assert b == [b[0]] + b[1..];
  }

  /** Two sorted listings of a non-empty table start with the same key. */
  lemma HeadsAgree(keys: seq<string>, other: seq<string>, factors: map<string, nat>)
    requires SortsByFactor(keys, factors) && SortsByFactor(other, factors) && |keys| > 0
    ensures |other| > 0 && keys[0] == other[0]
  {
    assert keys[0] in factors;
    FirstIsLeast(other, factors, keys[0]);
    FirstIsLeast(keys, factors, other[0]);
  }

  /** A sorted listing is empty exactly when the table is. */
  lemma EmptyListingOfEmptyTable(keys: seq<string>, factors: map<string, nat>)
    requires SortsByFactor(keys, factors)
    ensures |keys| == 0 <==> factors.Keys == {}
  {
    if |keys| > 0 {
      assert keys[0] in factors.Keys;
    }
    if factors.Keys != {} {
      var u :| u in factors.Keys;
      assert u in keys;
    }
  }

  /** The first key of a sorted listing has a smaller factor than every other key. */
  lemma FirstIsLeast(keys: seq<string>, factors: map<string, nat>, u: string)
    requires SortsByFactor(keys, factors) && u in factors
    ensures |keys| > 0 && (u == keys[0] || factors[keys[0]] < factors[u])
  {
    assert u in keys;
    var i :| 0 <= i < |keys| && keys[i] == u;
    if i > 0 {
      SortedIsIncreasing(keys, factors, 0, i);
    }
  }

  /** Dropping the first key of a sorted listing leaves a sorted listing of the other keys. */
  lemma TailSortsRest(keys: seq<string>, factors: map<string, nat>)
    requires SortsByFactor(keys, factors) && |keys| > 0
    ensures SortsByFactor(keys[1..], factors - {keys[0]})
  {
    var rest := factors - {keys[0]};
    forall u | u in rest
      ensures u in keys[1..]
    {
      assert u in keys;
      var i :| 0 <= i < |keys| && keys[i] == u;
      assert i != 0;
      assert keys[1..][i - 1] == u;
    }
    forall i | 0 <= i < |keys[1..]|
      ensures keys[1..][i] in rest
    {
      assert keys[1..][i] == keys[i + 1];
      SortedIsIncreasing(keys, factors, 0, i + 1);
    }
  }

  /** Ten to the power `n`. */
  function Pow10(n: nat): nat
  {
    if n == 0 then 1 else 10 * Pow10(n - 1)
  }

  /** Every factor is positive, the two tables describe the same units, and the number of
      zeroes shown for a unit is the exponent of its factor. */
  lemma UnitTablesAgree()
    ensures forall u :: u in ConversionFactors ==> ConversionFactors[u] > 0
    ensures UnitDetails.Keys == ConversionFactors.Keys
    ensures forall u :: u in UnitDetails ==> Pow10(UnitDetails[u].zeroes) == ConversionFactors[u]
  {
    assert Pow10(3) == 1_000 by {
      assert Pow10(1) == 10;
      assert Pow10(2) == 100;
    }
    assert Pow10(5) == 100_000 by {
      assert Pow10(4) == 10_000;
    }
    assert Pow10(6) == 1_000_000;
    assert Pow10(7) == 10_000_000;
    assert Pow10(9) == 1_000_000_000 by {
      assert Pow10(8) == 100_000_000;
    }
  }

  /** A unit the conversion can look up. */
  predicate IsUnit(u: string)
  {
    u in ConversionFactors
  }

  /** The factor of a unit, as a number. */
  function Factor(u: string): (f: real)
    requires IsUnit(u)
    ensures f > 0.0
  {
    UnitTablesAgree();
    ConversionFactors[u] as real
  }

  /** Converts a value from one unit to another through the absolute amount. Equal units
      return the value itself and need not be in the table; otherwise both must be, since
      the lookups fail on an unknown unit. The absolute amount is preserved:
      `result × factor(to) = value × factor(from)`. */
  function ConvertUnits(value: real, fromUnit: string, toUnit: string): (r: real)
    requires fromUnit == toUnit || (IsUnit(fromUnit) && IsUnit(toUnit))
    ensures fromUnit == toUnit ==> r == value
    ensures IsUnit(fromUnit) && IsUnit(toUnit) ==> r * Factor(toUnit) == value * Factor(fromUnit)
  {
    if fromUnit == toUnit then value
    else
      var absoluteValue := value * Factor(fromUnit);
      var convertedValue := absoluteValue / Factor(toUnit);
      convertedValue
  }

  /** The amount after conversion is determined by the absolute amount it keeps. */
  lemma ConversionIsDetermined(value: real, fromUnit: string, toUnit: string, r: real)
    requires IsUnit(fromUnit) && IsUnit(toUnit)
    requires r * Factor(toUnit) == value * Factor(fromUnit)
    ensures ConvertUnits(value, fromUnit, toUnit) == r
  {
    var c := ConvertUnits(value, fromUnit, toUnit);
    CancelPositive(c, r, Factor(toUnit));
  }

  /** Converting to another unit and back returns exactly the starting value. */
  lemma ConversionRoundTrip(value: real, fromUnit: string, toUnit: string)
    requires IsUnit(fromUnit) && IsUnit(toUnit)
    ensures ConvertUnits(ConvertUnits(value, fromUnit, toUnit), toUnit, fromUnit) == value
  {
    var there := ConvertUnits(value, fromUnit, toUnit);
    ConversionIsDetermined(there, toUnit, fromUnit, value);
  }

  /** Converting in two steps is the same as converting directly. */
  lemma ConversionComposes(value: real, a: string, b: string, c: string)
    requires IsUnit(a) && IsUnit(b) && IsUnit(c)
    ensures ConvertUnits(ConvertUnits(value, a, b), b, c) == ConvertUnits(value, a, c)
  {
    var ab := ConvertUnits(value, a, b);
    var abc := ConvertUnits(ab, b, c);
    assert abc * Factor(c) == value * Factor(a);
    ConversionIsDetermined(value, a, c, abc);
  }

  /** Going to a larger unit never makes a positive amount larger. */
  lemma ConversionToLargerUnitShrinks(value: real, fromUnit: string, toUnit: string)
    requires IsUnit(fromUnit) && IsUnit(toUnit)
    requires value >= 0.0 && Factor(fromUnit) <= Factor(toUnit)
    ensures 0.0 <= ConvertUnits(value, fromUnit, toUnit) <= value
  {
    var r := ConvertUnits(value, fromUnit, toUnit);
    var f, t := Factor(fromUnit), Factor(toUnit);
    assert r * t == value * f;
    assert value * f <= value * t;
  }

  /** Multiplication by a positive factor is injective. */
  lemma CancelPositive(a: real, b: real, k: real)
    requires k > 0.0 && a * k == b * k
    ensures a == b
  {
    assert (a - b) * k == 0.0;
  }

  /** The menu choice `n` (numbered from 1) selects a unit; any other number is rejected. */
  datatype Choice = Chosen(unit: string) | Rejected

  function UnitChoice(n: int): (c: Choice)
    ensures c.Chosen? <==> 1 <= n <= |SortedUnitKeys|
    ensures c.Chosen? ==> c.unit == SortedUnitKeys[n - 1] && IsUnit(c.unit)
  {
    if 1 <= n <= |SortedUnitKeys| then
      SortedUnitKeysSortsTheTable();
      Chosen(SortedUnitKeys[n - 1])
    else Rejected
  }

  /** Every unit has exactly one menu number. */
  lemma EveryUnitHasOneChoice(u: string)
    requires IsUnit(u)
    ensures exists n :: 1 <= n <= |SortedUnitKeys| && UnitChoice(n) == Chosen(u)
    ensures forall n, m :: UnitChoice(n) == Chosen(u) && UnitChoice(m) == Chosen(u) ==> n == m
  {
    SortedUnitKeysSortsTheTable();
    var i :| 0 <= i < |SortedUnitKeys| && SortedUnitKeys[i] == u;
    assert UnitChoice(i + 1) == Chosen(u);
    forall n, m | UnitChoice(n) == Chosen(u) && UnitChoice(m) == Chosen(u)
      ensures n == m
    {
      if n < m {
        SortedIsIncreasing(SortedUnitKeys, ConversionFactors, n - 1, m - 1);
      } else if m < n {
        SortedIsIncreasing(SortedUnitKeys, ConversionFactors, m - 1, n - 1);
      }
    }
  }

  /** One answer to the menu prompt: a whole number, or text that does not read as one. */
  datatype Answer = Number(n: int) | NotANumber

  /** The answer is turned down and the prompt repeats. */
  predicate Refused(a: Answer)
  {
    a.NotANumber? || UnitChoice(a.n).Rejected?
  }

  /** The prompt loop over a sequence of answers: the first answer naming a menu entry
      gives the unit, and `used` says how many answers were read. When no answer is
      accepted, `found` is false and every answer was refused. */
  method GetUnitChoice(answers: seq<Answer>) returns (found: bool, unit: string, used: nat)
    ensures found ==> 0 < used <= |answers| && !Refused(answers[used - 1])
                      && UnitChoice(answers[used - 1].n) == Chosen(unit) && IsUnit(unit)
    ensures !found ==> used == |answers| && unit == ""
    ensures forall k :: 0 <= k < used - (if found then 1 else 0) ==> Refused(answers[k])
  {
    found, unit, used := false, "", 0;
    while used < |answers|
      invariant used <= |answers|
      invariant forall k :: 0 <= k < used ==> Refused(answers[k])
    {
      var a := answers[used];
      used := used + 1;
      if a.Number? {
        var c := UnitChoice(a.n);
        if c.Chosen? {
          found, unit := true, c.unit;
          return;
        }
      }
    }
  }
}
