/**
  The solvers of the chemistry toolkit: the ideal gas law, dilution,
  molarity and mole conversion. Each takes some of its quantities as
  optional arguments and solves for the one that is missing; what is
  modelled is which quantity is solved for and when a `ValueError`,
  `KeyError` or `ZeroDivisionError` is raised. Quantities are exact reals
  in place of Python floats.
*/
module ChemSolvers {
  import opened Wrappers

  /** What a solver returns, or the exception it raises. */
  datatype Outcome = Value(x: real) | KeyError | ValueError(message: string) | ZeroDivision

  /** `a / b` on floats: division by zero raises. */
  function Div(a: real, b: real): (r: Outcome)
    ensures r.Value? <==> b != 0.0
    ensures r.Value? ==> r.x * b == a
  {
    if b == 0.0 then ZeroDivision else Value(a / b)
  }

  /** The table `R_GAS_CONSTANT`, by unit. */
  function GasConstant(unit: string): (r: Option<real>)
    ensures r.Some? ==> r.value > 0.0
  {
    if unit == "L·atm/(mol·K)" then Some(0.08206)
    else if unit == "J/(mol·K)" then Some(8.314)
    else if unit == "L·kPa/(mol·K)" then Some(8.314)
    else if unit == "cal/(mol·K)" then Some(1.987)
    else None
  }

  const DefaultGasUnit: string := "L·atm/(mol·K)"

  /** `AVOGADRO = 6.022e23`. */
  const Avogadro: real := 602200000000000000000000.0

  /** One term of `sum(x is not None for x in ...)`. */
  function Known(x: Option<real>): nat {
    if x.Some? then 1 else 0
  }

  const ThreeOfFour: string := "Provide exactly 3 variables to solve for the 4th"
  const TwoOfThree: string := "Provide exactly 2 of: moles, volume_L, molarity"
  const MolarMassRequired: string := "Molar mass required for gram conversions"

  // ----- Ideal gas law -----

  /** `ideal_gas_law`: the unit is looked up first, then exactly three of `P`, `V`, `n`, `T` must be given. */
  function IdealGasLaw(p: Option<real>, v: Option<real>, n: Option<real>, t: Option<real>, unit: string): Outcome {
    match GasConstant(unit)
    case None => KeyError
    case Some(r) =>
      if Known(p) + Known(v) + Known(n) + Known(t) != 3 then ValueError(ThreeOfFour)
      else if p.None? then Div(n.value * r * t.value, v.value)
      else if v.None? then Div(n.value * r * t.value, p.value)
      else if n.None? then Div(p.value * v.value, r * t.value)
      else Div(p.value * v.value, n.value * r)
  }

  /** Which arguments are missing decides the outcome: an unknown unit, then a count other than 3. */
  lemma IdealGasErrors(p: Option<real>, v: Option<real>, n: Option<real>, t: Option<real>, unit: string)
    ensures IdealGasLaw(p, v, n, t, unit) == KeyError <==> GasConstant(unit).None?
    ensures IdealGasLaw(p, v, n, t, unit).ValueError? <==>
      GasConstant(unit).Some? && Known(p) + Known(v) + Known(n) + Known(t) != 3
  {
  }

  /**
    A solved value is the missing quantity of `P V = n R T`: put in its
    place, the equation holds.
  */
  lemma IdealGasSolves(p: Option<real>, v: Option<real>, n: Option<real>, t: Option<real>, unit: string)
    requires IdealGasLaw(p, v, n, t, unit).Value?
    ensures var x := IdealGasLaw(p, v, n, t, unit).x; var r := GasConstant(unit).value;
      && (p.None? ==> x * v.value == n.value * r * t.value)
      && (p.Some? && v.None? ==> p.value * x == n.value * r * t.value)
      && (p.Some? && v.Some? && n.None? ==> p.value * v.value == x * r * t.value)
      && (p.Some? && v.Some? && n.Some? ==> p.value * v.value == n.value * r * x)
  {
    var x := IdealGasLaw(p, v, n, t, unit).x;
    var r := GasConstant(unit).value;
    if p.Some? && v.Some? && n.None? {
      assert x * (r * t.value) == p.value * v.value;
    } else if p.Some? && v.Some? && n.Some? {
      assert x * (n.value * r) == p.value * v.value;
    }
  }

  // ----- Dilution -----

  /** `dilution_calculator`: exactly three of `C1`, `V1`, `C2`, `V2` must be given. */
  function Dilution(c1: Option<real>, v1: Option<real>, c2: Option<real>, v2: Option<real>): Outcome {
    if Known(c1) + Known(v1) + Known(c2) + Known(v2) != 3 then ValueError(ThreeOfFour)
    else if c1.None? then Div(c2.value * v2.value, v1.value)
    else if v1.None? then Div(c2.value * v2.value, c1.value)
    else if c2.None? then Div(c1.value * v1.value, v2.value)
    else Div(c1.value * v1.value, c2.value)
  }

  lemma DilutionErrors(c1: Option<real>, v1: Option<real>, c2: Option<real>, v2: Option<real>)
    ensures Dilution(c1, v1, c2, v2).ValueError? <==> Known(c1) + Known(v1) + Known(c2) + Known(v2) != 3
  {
  }

  /** A solved value, put in place of the missing quantity, satisfies `C1 V1 = C2 V2`. */
  lemma DilutionSolves(c1: Option<real>, v1: Option<real>, c2: Option<real>, v2: Option<real>)
    requires Dilution(c1, v1, c2, v2).Value?
    ensures var x := Dilution(c1, v1, c2, v2).x;
      && (c1.None? ==> x * v1.value == c2.value * v2.value)
      && (c1.Some? && v1.None? ==> c1.value * x == c2.value * v2.value)
      && (c1.Some? && v1.Some? && c2.None? ==> c1.value * v1.value == x * v2.value)
      && (c1.Some? && v1.Some? && c2.Some? ==> c1.value * v1.value == c2.value * x)
  {
  }

  // ----- Molarity -----

  /**
    `molarity_calculator`: a mass with a molar mass is first converted and
    replaces `moles`; then exactly two of moles, volume and molarity must be given.
  */
  function Molarity(moles: Option<real>, volume: Option<real>, molarity: Option<real>,
                    massG: Option<real>, molarMass: Option<real>): Outcome
  {
    if massG.Some? && molarMass.Some? && molarMass.value == 0.0 then ZeroDivision
    else
      var m := if massG.Some? && molarMass.Some? then Some(massG.value / molarMass.value) else moles;
      if Known(m) + Known(volume) + Known(molarity) != 2 then ValueError(TwoOfThree)
      else if molarity.None? then Div(m.value, volume.value)
      else if m.None? then Value(molarity.value * volume.value)
      else Div(m.value, molarity.value)
  }

  /** Whether the molarity solver has moles to work with, given or converted from a mass. */
  predicate HasMoles(moles: Option<real>, massG: Option<real>, molarMass: Option<real>) {
    moles.Some? || (massG.Some? && molarMass.Some?)
  }

  /**
    The count is taken after the conversion: a mass with its molar mass
    stands in for the moles, and a molar mass of 0 fails before the count.
  */
  lemma MolarityErrors(moles: Option<real>, volume: Option<real>, molarity: Option<real>,
                       massG: Option<real>, molarMass: Option<real>)
    ensures Molarity(moles, volume, molarity, massG, molarMass).ValueError? <==>
      !(massG.Some? && molarMass == Some(0.0))
      && (if HasMoles(moles, massG, molarMass) then 1 else 0) + Known(volume) + Known(molarity) != 2
    ensures massG.Some? && molarMass == Some(0.0) ==>
      Molarity(moles, volume, molarity, massG, molarMass) == ZeroDivision
  {
  }

  /** A solved value, put in place of the missing quantity, satisfies `moles = molarity * volume`. */
  lemma MolaritySolves(moles: Option<real>, volume: Option<real>, molarity: Option<real>,
                       massG: Option<real>, molarMass: Option<real>)
    requires Molarity(moles, volume, molarity, massG, molarMass).Value?
    ensures var x := Molarity(moles, volume, molarity, massG, molarMass).x;
      var m := if massG.Some? && molarMass.Some? then Some(massG.value / molarMass.value) else moles;
      && (molarity.None? ==> m.Some? && m.value == x * volume.value)
      && (molarity.Some? && m.None? ==> x == molarity.value * volume.value)
      && (molarity.Some? && m.Some? ==> m.value == molarity.value * x)
  {
    var out := Molarity(moles, volume, molarity, massG, molarMass);
    var m := if massG.Some? && molarMass.Some? then Some(massG.value / molarMass.value) else moles;
    assert Known(m) + Known(volume) + Known(molarity) == 2;
    if molarity.None? {
      assert out == Div(m.value, volume.value);
    } else if m.None? {
      assert out == Value(molarity.value * volume.value);
    } else {
      assert out == Div(m.value, molarity.value);
    }
  }

  // ----- Mole conversion -----

  /** The first half of `mole_conversion`: the value in moles. */
  function ToMoles(value: real, unit: string, molarMass: Option<real>): Outcome {
    if unit == "mol" then Value(value)
    else if unit == "g" then
      if molarMass.None? then ValueError(MolarMassRequired) else Div(value, molarMass.value)
    else if unit == "particles" then Value(value / Avogadro)
    else ValueError("Unknown unit: " + unit)
  }

  /** The second half: moles in the target unit. */
  function FromMoles(moles: real, unit: string, molarMass: Option<real>): Outcome {
    if unit == "mol" then Value(moles)
    else if unit == "g" then
      if molarMass.None? then ValueError(MolarMassRequired) else Value(moles * molarMass.value)
    else if unit == "particles" then Value(moles * Avogadro)
    else ValueError("Unknown unit: " + unit)
  }

  /** `mole_conversion`: the source unit is checked and converted before the target unit is looked at. */
  function MoleConversion(value: real, fromUnit: string, toUnit: string, molarMass: Option<real>): Outcome {
    match ToMoles(value, fromUnit, molarMass)
    case Value(moles) => FromMoles(moles, toUnit, molarMass)
    case failure => failure
  }

  predicate IsUnit(u: string) {
    u == "mol" || u == "g" || u == "particles"
  }

  /**
    The conversion raises `ValueError` exactly when a unit is unknown or a
    gram conversion lacks its molar mass; the source unit is reported first.
  */
  lemma MoleConversionErrors(value: real, fromUnit: string, toUnit: string, molarMass: Option<real>)
    ensures MoleConversion(value, fromUnit, toUnit, molarMass).ValueError? <==>
      || !IsUnit(fromUnit) || (fromUnit == "g" && molarMass.None?)
      || (!(fromUnit == "g" && molarMass == Some(0.0)) && (!IsUnit(toUnit) || (toUnit == "g" && molarMass.None?)))
    ensures !IsUnit(fromUnit) ==>
      MoleConversion(value, fromUnit, toUnit, molarMass) == ValueError("Unknown unit: " + fromUnit)
    ensures MoleConversion(value, fromUnit, toUnit, molarMass) == ZeroDivision <==>
      fromUnit == "g" && molarMass == Some(0.0)
  {
  }

  /** Converting there and back gives the value again. */
  lemma MoleConversionRoundTrip(value: real, a: string, b: string, molarMass: Option<real>)
    requires MoleConversion(value, a, b, molarMass).Value?
    requires MoleConversion(MoleConversion(value, a, b, molarMass).x, b, a, molarMass).Value?
    ensures MoleConversion(MoleConversion(value, a, b, molarMass).x, b, a, molarMass).x == value
  {
    var moles := ToMoles(value, a, molarMass).x;
    BackToMoles(moles, b, molarMass);
    BackFromMoles(value, a, molarMass);
  }

  /** Converting moles to a unit and back gives the moles, when both steps succeed. */
  lemma BackToMoles(moles: real, u: string, molarMass: Option<real>)
    requires FromMoles(moles, u, molarMass).Value?
    requires ToMoles(FromMoles(moles, u, molarMass).x, u, molarMass).Value?
    ensures ToMoles(FromMoles(moles, u, molarMass).x, u, molarMass).x == moles
  {
  }

  /** Converting a value to moles and back gives the value. */
  lemma BackFromMoles(value: real, u: string, molarMass: Option<real>)
    requires ToMoles(value, u, molarMass).Value?
    ensures FromMoles(ToMoles(value, u, molarMass).x, u, molarMass) == Value(value)
  {
    if u == "g" {
      assert (value / molarMass.value) * molarMass.value == value;
    } else if u == "particles" {
      assert (value / Avogadro) * Avogadro == value;
    }
  }
}
