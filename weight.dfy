/**
 * Runalyze\Activity\Weight: a body weight held in kilograms, with a preferred unit in
 * which it is entered and shown (kilograms, pounds or stones).
 */
module Weights {
  import opened Wrappers

  /** WeightUnit::KG, WeightUnit::POUNDS and WeightUnit::STONES. */
  datatype WeightUnit = KG | POUNDS | STONES
  {
    predicate IsPounds() { this == POUNDS }
    predicate IsStones() { this == STONES }
  }

  /** Pounds per kilogram. */
  const PoundsMultiplier: real := 2.204622
  /** Stones per kilogram. */
  const StonesMultiplier: real := 0.157473
  /** The initial value of the static `$DefaultDecimals`. */
  const InitialDefaultDecimals: int := 1

  /** The reference conversion from kilograms into a unit. */
  function InUnit(u: WeightUnit, kg: real): real
  {
    match u
    case KG => kg
    case POUNDS => kg * PoundsMultiplier
    case STONES => kg * StonesMultiplier
  }

  /** The reference conversion from a unit into kilograms. */
  function FromUnit(u: WeightUnit, x: real): real
  {
    match u
    case KG => x
    case POUNDS => x / PoundsMultiplier
    case STONES => x / StonesMultiplier
  }

  // ---------------------------------------------------------------------------
  // The argument of the setters: commas replaced by dots, then cast to a float

  /** What a setter is handed: a number, or a string such as "72,5". */
  datatype WeightInput = Number(value: real) | Text(text: string)

  /** The string with every comma replaced by a dot. */
  function ReplaceCommas(s: string): (r: string)
    ensures |r| == |s|
    ensures forall i :: 0 <= i < |s| ==> r[i] == (if s[i] == ',' then '.' else s[i])
  {
    if s == [] then []
    else ReplaceCommas(s[..|s| - 1]) + [if s[|s| - 1] == ',' then '.' else s[|s| - 1]]
  }

  predicate IsDigit(c: char)
  {
    '0' <= c <= '9'
  }

  predicate AllDigits(s: string)
  {
    forall i :: 0 <= i < |s| ==> IsDigit(s[i])
  }

  /** The length of the run of digits that `s` starts with. */
  function DigitRun(s: string): (n: nat)
    ensures n <= |s|
    ensures AllDigits(s[..n])
    ensures n < |s| ==> !IsDigit(s[n])
  {
    if s == [] || !IsDigit(s[0]) then 0
    else
      var n := 1 + DigitRun(s[1..]);
      assert forall i :: 1 <= i < n ==> s[..n][i] == s[1..][..n - 1][i - 1];
      n
  }

  /** The value of a string of decimal digits. */
  function DigitsValue(ds: string): nat
    requires AllDigits(ds)
  {
    if ds == [] then 0
    else 10 * DigitsValue(ds[..|ds| - 1]) + (ds[|ds| - 1] as int - '0' as int)
  }

  function Pow10(n: nat): (p: nat)
    ensures p > 0
  {
    if n == 0 then 1 else 10 * Pow10(n - 1)
  }

  /** The value of the digits after a decimal point. */
  function FractionValue(ds: string): real
    requires AllDigits(ds)
  {
    (DigitsValue(ds) as real) / (Pow10(|ds|) as real)
  }

  /** The value of an unsigned decimal prefix: digits, then optionally a dot and more digits. */
  function UnsignedPrefixValue(t: string): real
  {
    var k := DigitRun(t);
    var whole := DigitsValue(t[..k]) as real;
    if k < |t| && t[k] == '.' then
      var rest := t[k + 1..];
      whole + FractionValue(rest[..DigitRun(rest)])
    else
      whole
  }

  /**
   * PHP's `(float)` cast of a string: the value of its leading signed decimal number,
   * and 0 when it has none.
   */
  function FloatCast(s: string): real
  {
    if s != [] && s[0] == '-' then -UnsignedPrefixValue(s[1..])
    else if s != [] && s[0] == '+' then UnsignedPrefixValue(s[1..])
    else UnsignedPrefixValue(s)
  }

  /** The kilogram, pound or stone value a setter reads from its argument. */
  function NumericValue(w: WeightInput): real
  {
    match w
    case Number(x) => x
    case Text(t) => FloatCast(ReplaceCommas(t))
  }

  // ---------------------------------------------------------------------------
  // The class

  /** The result of number_format(value, decimals) followed by the unit when asked for. */
  datatype FormattedWeight = FormattedWeight(value: real, decimals: int, unit: Option<WeightUnit>)

  /** The `$decimals` argument of the string methods: `false`, or a number of decimals. */
  datatype Decimals = Default | Given(n: int)

  /** The number of decimals used: the static default when none is given, else the one given. */
  function EffectiveDecimals(d: Decimals, defaultDecimals: int): int
  {
    match d
    case Default => defaultDecimals
    case Given(n) => n
  }

  function UnitSuffix(withUnit: bool, u: WeightUnit): Option<WeightUnit>
  {
    if withUnit then Some(u) else None
  }

  class Weight {
    /** The weight in kilograms. */
    var weight: real
    var preferredUnit: WeightUnit

    constructor (w: WeightInput, preferredUnit: WeightUnit)
      ensures this.preferredUnit == preferredUnit
      ensures Kg() == NumericValue(w)
    {
      this.preferredUnit := preferredUnit;
      weight := 0.0;
      new;
      var self := Set(w);
    }

    /** format: a fresh weight in the configured unit, formatted. */
    static method Format(w: WeightInput, decimals: Decimals, withUnit: bool,
                         configuredUnit: WeightUnit, defaultDecimals: int)
      returns (r: FormattedWeight)
      ensures r.value == InUnit(configuredUnit, NumericValue(w))
      ensures r.decimals == EffectiveDecimals(decimals, defaultDecimals)
      ensures r.unit == UnitSuffix(withUnit, configuredUnit)
    {
      var weight := new Weight(w, configuredUnit);
      r := weight.String(decimals, withUnit, defaultDecimals);
    }

    /** unit: the preferred unit (its symbol is not modelled). */
    function Unit(): (u: WeightUnit)
      reads this
      ensures u == preferredUnit
    {
      preferredUnit
    }

    /** set: the argument, read as kilograms. */
    method Set(w: WeightInput) returns (self: Weight)
      modifies this`weight
      ensures self == this
      ensures Kg() == NumericValue(w)
    {
      weight := NumericValue(w);
      self := this;
    }

    /** setPounds: the argument, read as pounds. */
    method SetPounds(w: WeightInput) returns (self: Weight)
      modifies this`weight
      ensures self == this
      ensures Kg() == FromUnit(POUNDS, NumericValue(w))
      ensures Pounds() == NumericValue(w)
    {
      weight := NumericValue(w) / PoundsMultiplier;
      self := this;
    }

    /** setStones: the argument, read as stones. */
    method SetStones(w: WeightInput) returns (self: Weight)
      modifies this`weight
      ensures self == this
      ensures Kg() == FromUnit(STONES, NumericValue(w))
      ensures Stones() == NumericValue(w)
    {
      weight := NumericValue(w) / StonesMultiplier;
      self := this;
    }

    /** setInPreferredUnit: the argument, read in the preferred unit. */
    method SetInPreferredUnit(w: WeightInput) returns (self: Weight)
      modifies this`weight
      ensures self == this
      ensures Kg() == FromUnit(preferredUnit, NumericValue(w))
      ensures ValueInPreferredUnit() == NumericValue(w)
    {
      var ignored: Weight;
      if preferredUnit.IsPounds() {
        ignored := SetPounds(w);
      } else if preferredUnit.IsStones() {
        ignored := SetStones(w);
      } else {
        ignored := Set(w);
      }
      self := this;
    }

    /** kg: the stored weight, the one pounds() and stones() convert. */
    function Kg(): (k: real)
      reads this
      ensures InUnit(POUNDS, k) == Pounds() && InUnit(STONES, k) == Stones()
    {
      weight
    }

    /** pounds: the weight in pounds, from which the kilograms come back exactly. */
    function Pounds(): (p: real)
      reads this
      ensures p == InUnit(POUNDS, weight)
      ensures FromUnit(POUNDS, p) == weight
    {
      weight * PoundsMultiplier
    }

    /** stones: the weight in stones, from which the kilograms come back exactly. */
    function Stones(): (st: real)
      reads this
      ensures st == InUnit(STONES, weight)
      ensures FromUnit(STONES, st) == weight
    {
      weight * StonesMultiplier
    }

    /** valueInPreferredUnit. */
    function ValueInPreferredUnit(): (v: real)
      reads this
      ensures v == InUnit(preferredUnit, weight)
    {
      if preferredUnit.IsPounds() then Pounds()
      else if preferredUnit.IsStones() then Stones()
      else Kg()
    }

    /** stringKG: the weight in kilograms. */
    function StringKG(decimals: Decimals, withUnit: bool, defaultDecimals: int): (r: FormattedWeight)
      reads this
      ensures r.value == Kg()
      ensures r.decimals == EffectiveDecimals(decimals, defaultDecimals)
      ensures r.unit == UnitSuffix(withUnit, KG)
    {
      FormattedWeight(weight, EffectiveDecimals(decimals, defaultDecimals), UnitSuffix(withUnit, KG))
    }

    /** stringPounds: the weight in pounds, which converts back to kg(). */
    function StringPounds(decimals: Decimals, withUnit: bool, defaultDecimals: int): (r: FormattedWeight)
      reads this
      ensures FromUnit(POUNDS, r.value) == Kg()
      ensures r.decimals == EffectiveDecimals(decimals, defaultDecimals)
      ensures r.unit == UnitSuffix(withUnit, POUNDS)
    {
      FormattedWeight(Pounds(), EffectiveDecimals(decimals, defaultDecimals), UnitSuffix(withUnit, POUNDS))
    }

    /** stringStones: the weight in stones, which converts back to kg(). */
    function StringStones(decimals: Decimals, withUnit: bool, defaultDecimals: int): (r: FormattedWeight)
      reads this
      ensures FromUnit(STONES, r.value) == Kg()
      ensures r.decimals == EffectiveDecimals(decimals, defaultDecimals)
      ensures r.unit == UnitSuffix(withUnit, STONES)
    {
      FormattedWeight(Stones(), EffectiveDecimals(decimals, defaultDecimals), UnitSuffix(withUnit, STONES))
    }

    /** string: the weight in the preferred unit, followed by that unit when asked for. */
    function String(decimals: Decimals, withUnit: bool, defaultDecimals: int): (r: FormattedWeight)
      reads this
      ensures r.value == ValueInPreferredUnit()
      ensures r.decimals == EffectiveDecimals(decimals, defaultDecimals)
      ensures r.unit == UnitSuffix(withUnit, preferredUnit)
    {
      if preferredUnit.IsPounds() then StringPounds(decimals, withUnit, defaultDecimals)
      else if preferredUnit.IsStones() then StringStones(decimals, withUnit, defaultDecimals)
      else StringKG(decimals, withUnit, defaultDecimals)
    }
  }

  // ---------------------------------------------------------------------------
  // Properties

  /** Converting into a unit and back, or back and then into it, gives the value again. */
  lemma UnitRoundTrip(u: WeightUnit, x: real)
    ensures InUnit(u, FromUnit(u, x)) == x
    ensures FromUnit(u, InUnit(u, x)) == x
  {
  }

  /** Every conversion keeps the order of weights, and zero is zero in every unit. */
  lemma InUnitMonotone(u: WeightUnit, a: real, b: real)
    ensures a <= b <==> InUnit(u, a) <= InUnit(u, b)
    ensures InUnit(u, a) == 0.0 <==> a == 0.0
  {
  }

  /** A comma becomes a dot, and nothing else changes; a second replacement does nothing. */
  lemma {:induction false} ReplaceCommasIdempotent(s: string)
    ensures ',' !in ReplaceCommas(s)
    ensures ReplaceCommas(ReplaceCommas(s)) == ReplaceCommas(s)
    ensures ',' !in s ==> ReplaceCommas(s) == s
  {
    var r := ReplaceCommas(s);
    assert forall i :: 0 <= i < |r| ==> r[i] != ',';
  }

  /** The replacement works piecewise. */
  lemma ReplaceCommasAppend(x: string, y: string)
    ensures ReplaceCommas(x + y) == ReplaceCommas(x) + ReplaceCommas(y)
  {
    var l := ReplaceCommas(x + y);
    var r := ReplaceCommas(x) + ReplaceCommas(y);
    assert forall i :: 0 <= i < |x| ==> (x + y)[i] == x[i];
    assert forall i :: |x| <= i < |x + y| ==> (x + y)[i] == y[i - |x|];
    assert |l| == |r|;
    forall i | 0 <= i < |l|
      ensures l[i] == r[i]
    {
      if i >= |x| {
        assert r[i] == ReplaceCommas(y)[i - |x|];
      }
    }
  }

  lemma {:induction false} DigitRunOfDigits(ds: string, rest: string)
    requires AllDigits(ds)
    requires rest == [] || !IsDigit(rest[0])
    ensures DigitRun(ds + rest) == |ds|
    decreases |ds|
  {
    if ds != [] {
      assert (ds + rest)[1..] == ds[1..] + rest;
      DigitRunOfDigits(ds[1..], rest);
    } else {
      assert ds + rest == rest;
    }
  }

  /** "a.b" with digit strings a and b reads as a + b / 10^|b|. */
  lemma DecimalValue(a: string, b: string)
    requires AllDigits(a) && AllDigits(b)
    ensures FloatCast(a + "." + b) == DigitsValue(a) as real + FractionValue(b)
  {
    var t := a + "." + b;
    UnsignedDecimalValue(a, b);
    if a != [] {
      assert t[0] == a[0];
    } else {
      assert t[0] == '.';
    }
  }

  lemma UnsignedDecimalValue(a: string, b: string)
    requires AllDigits(a) && AllDigits(b)
    ensures UnsignedPrefixValue(a + "." + b) == DigitsValue(a) as real + FractionValue(b)
  {
    var t := a + ("." + b);
    assert a + "." + b == t;
    DigitRunOfDigits(a, "." + b);
    assert t[..|a|] == a;
    assert t[|a|] == '.';
    assert t[|a| + 1..] == b;
    assert b + [] == b;
    DigitRunOfDigits(b, []);
    assert b[..|b|] == b;
  }

  lemma {:induction false} DigitsValueBelow(ds: string)
    requires AllDigits(ds)
    ensures DigitsValue(ds) < Pow10(|ds|)
    decreases |ds|
  {
    if ds != [] {
      var n := |ds| - 1;
      assert AllDigits(ds[..n]);
      DigitsValueBelow(ds[..n]);
      assert IsDigit(ds[n]);
    }
  }

  /** The digits after the decimal point add a fraction in [0, 1). */
  lemma FractionBelowOne(ds: string)
    requires AllDigits(ds)
    ensures 0.0 <= FractionValue(ds) < 1.0
  {
    DigitsValueBelow(ds);
    QuotientBelowOne(DigitsValue(ds) as real, Pow10(|ds|) as real);
  }

  lemma QuotientBelowOne(x: real, p: real)
    requires 0.0 <= x < p
    ensures 0.0 <= x / p < 1.0
  {
    assert x / p * p == x;
  }

  /** A decimal comma is read as a decimal point: "72,5" sets 72.5. */
  lemma CommaIsDecimalSeparator(a: string, b: string)
    requires AllDigits(a) && AllDigits(b)
    ensures NumericValue(Text(a + "," + b)) == DigitsValue(a) as real + FractionValue(b)
  {
    ReplaceCommasAppend(a + ",", b);
    ReplaceCommasAppend(a, ",");
    assert ReplaceCommas(",") == ".";
    assert ReplaceCommas(a) == a by { ReplaceCommasIdempotent(a); }
    assert ReplaceCommas(b) == b by { ReplaceCommasIdempotent(b); }
    DecimalValue(a, b);
  }

  /** A leading minus negates what follows it. */
  lemma NegativeValue(t: string)
    requires t == [] || (t[0] != '-' && t[0] != '+')
    ensures FloatCast("-" + t) == -FloatCast(t)
  {
    assert ("-" + t)[1..] == t;
  }

  /** A string that does not start like a number reads as 0. */
  lemma NonNumericIsZero(s: string)
    requires s == [] || (!IsDigit(s[0]) && s[0] != '+' && s[0] != '-' && s[0] != '.')
    ensures FloatCast(s) == 0.0
  {
    assert s[..0] == [];
  }

  /**
   * The number of decimals only picks the precision: a given number is used whatever
   * the static default is; without one the default is used, which starts at 1; and the
   * value shown is the same in every case.
   */
  lemma DecimalsRule(w: Weight, n: int, withUnit: bool, d: int, e: int)
    ensures w.String(Given(n), withUnit, d) == w.String(Given(n), withUnit, e)
    ensures w.String(Default, withUnit, d).decimals == d
    ensures w.String(Default, withUnit, InitialDefaultDecimals).decimals == 1
    ensures w.String(Default, withUnit, d).value == w.String(Given(n), withUnit, e).value
  {
  }
}
