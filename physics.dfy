/** The thermal physics of one structure of one row:
    `calculate_weighted_effective_thermal_mass` (effective thickness method of
    EN ISO 13786:2017, Annex C.2.4) and `calculate_U_values` (with the
    slab-on-grade ground model of Kissock, ASHRAE 2013, for the base floor). */
module Physics {
  import opened Records

  /** The three heat-flow paths a structure can have. */
  datatype Topology = Internal | BaseFloor | Exterior

  const BaseFloorName := "base_floor"

  /** The branch `calculate_U_values` takes: the internal flag is tested first,
      then the structure's name, and every other structure faces the ambient air. */
  function TopologyOf(st: StructureType): Topology
  {
    if st.isInternal then Internal else if st.name == BaseFloorName then BaseFloor else Exterior
  }

  function Abs(x: real): real { if x < 0.0 then -x else x }

  // ---------------------------------------------------------------------------
  // Effective thermal mass

  /** The areal heat capacity: the base material's, plus half the insulation's
      for structures that are not internal (internal structures have none). */
  function ArealHeatCapacity(l: Layer, st: StructureType): real
  {
    l.thickness * l.density * l.specificHeat
    + (if st.isInternal then 0.0 else 0.5 * l.insulationThickness * l.insulationDensity * l.insulationSpecificHeat)
  }

  /** The quantity whose square root is the effective thermal mass:
      shc² / (1 + ω²·shc²·R²), with ω = 2π / period_of_variations and R the
      structure's interior resistance. It lies between zero and shc². */
  function EffectiveThermalMassSquared(shc: real, omega: real, r: real): (e: real)
    ensures 0.0 <= e <= shc * shc
  {
    var x := omega * shc * r;
    assert x * x == omega * omega * shc * shc * r * r;
    assert 1.0 + x * x >= 1.0;
    DivideByAtLeastOne(shc * shc, 1.0 + x * x);
    shc * shc / (1.0 + omega * omega * shc * shc * r * r)
  }

  lemma {:induction false} DivideByAtLeastOne(a: real, b: real)
    requires a >= 0.0 && b >= 1.0
    ensures 0.0 <= a / b <= a
  {
    assert a / b * b == a;
  }

  /** `sqrt` returns the non-negative square root of `x`. */
  predicate IsRootAt(sqrt: real -> real, x: real)
  {
    sqrt(x) >= 0.0 && sqrt(x) * sqrt(x) == x
  }

  /** Lines 367-395. `sqrt` stands for `np.sqrt`. */
  function EffectiveThermalMass(sqrt: real -> real, l: Layer, st: StructureType, omega: real): real
  {
    sqrt(EffectiveThermalMassSquared(ArealHeatCapacity(l, st), omega, st.interiorResistance))
  }

  lemma {:induction false} SquareMonotone(a: real, b: real)
    requires a >= 0.0 && b >= 0.0 && a * a <= b * b
    ensures a <= b
  {
    if a > b {
      PositiveProduct(a - b, a + b);
      assert false;
    }
  }

  lemma {:induction false} PositiveProduct(x: real, y: real)
    requires x > 0.0 && y > 0.0
    ensures x * y > 0.0
  {
  }

  /** The effective thermal mass is non-negative, at most the areal heat capacity
      in magnitude, and satisfies ETM²·(1 + ω²·shc²·R²) = shc². */
  lemma {:induction false} EffectiveThermalMassBounds(sqrt: real -> real, l: Layer, st: StructureType, omega: real)
    requires IsRootAt(sqrt, EffectiveThermalMassSquared(ArealHeatCapacity(l, st), omega, st.interiorResistance))
    ensures var shc, r := ArealHeatCapacity(l, st), st.interiorResistance;
            var m := EffectiveThermalMass(sqrt, l, st, omega);
            0.0 <= m <= Abs(shc) && m * m * (1.0 + omega * omega * shc * shc * r * r) == shc * shc
  {
    var shc, r := ArealHeatCapacity(l, st), st.interiorResistance;
    var e := EffectiveThermalMassSquared(shc, omega, r);
    var m := EffectiveThermalMass(sqrt, l, st, omega);
    var den := 1.0 + omega * omega * shc * shc * r * r;
    var x := omega * shc * r;
    assert x * x == omega * omega * shc * shc * r * r;
    assert den >= 1.0;
    assert e * den == shc * shc;
    assert m * m == e;
    assert Abs(shc) * Abs(shc) == shc * shc;
    SquareMonotone(m, Abs(shc));
  }

  /** A larger areal heat capacity never gives a smaller effective thermal mass
      (same period and interior resistance). */
  lemma {:induction false} EffectiveThermalMassMonotone(sqrt: real -> real, shc1: real, shc2: real, omega: real, r: real)
    requires Abs(shc1) <= Abs(shc2)
    requires IsRootAt(sqrt, EffectiveThermalMassSquared(shc1, omega, r))
    requires IsRootAt(sqrt, EffectiveThermalMassSquared(shc2, omega, r))
    ensures sqrt(EffectiveThermalMassSquared(shc1, omega, r)) <= sqrt(EffectiveThermalMassSquared(shc2, omega, r))
  {
    var c := omega * omega * r * r;
    SquaresOrdered(shc1, shc2);
    SquaredForm(shc1, omega, r, c);
    SquaredForm(shc2, omega, r, c);
    ShareMonotone(shc1 * shc1, shc2 * shc2, c);
    SqrtMonotone(sqrt, EffectiveThermalMassSquared(shc1, omega, r), EffectiveThermalMassSquared(shc2, omega, r));
  }

  lemma {:induction false} SquaresOrdered(a: real, b: real)
    requires Abs(a) <= Abs(b)
    ensures a * a <= b * b
  {
    assert Abs(a) * Abs(a) == a * a && Abs(b) * Abs(b) == b * b;
    assert Abs(a) * Abs(a) <= Abs(b) * Abs(a);
    assert Abs(b) * Abs(a) <= Abs(b) * Abs(b);
  }

  /** The squared effective thermal mass as y / (1 + c y), with y = shc squared
      and c = (omega r) squared. */
  lemma {:induction false} SquaredForm(shc: real, omega: real, r: real, c: real)
    requires c == omega * omega * r * r
    ensures c >= 0.0
    ensures EffectiveThermalMassSquared(shc, omega, r) == (shc * shc) / (1.0 + c * (shc * shc))
  {
    assert (omega * r) * (omega * r) == c;
    assert omega * omega * shc * shc * r * r == c * (shc * shc);
  }

  lemma {:induction false} SqrtMonotone(sqrt: real -> real, e1: real, e2: real)
    requires IsRootAt(sqrt, e1) && IsRootAt(sqrt, e2) && e1 <= e2
    ensures sqrt(e1) <= sqrt(e2)
  {
    SquareMonotone(sqrt(e1), sqrt(e2));
  }

  lemma {:induction false} ShareMonotone(y1: real, y2: real, c: real)
    requires 0.0 <= y1 <= y2 && c >= 0.0
    ensures y1 / (1.0 + c * y1) <= y2 / (1.0 + c * y2)
  {
    var d1, d2 := 1.0 + c * y1, 1.0 + c * y2;
    assert d1 >= 1.0 && d2 >= 1.0;
    assert y1 * d2 <= y2 * d1 by {
      assert y1 * d2 == y1 + c * y1 * y2;
      assert y2 * d1 == y2 + c * y1 * y2;
    }
    assert y1 / d1 == (y1 * d2) / (d1 * d2);
    assert y2 / d2 == (y2 * d1) / (d1 * d2);
    assert d1 * d2 > 0.0;
  }

  /** As the period of variations grows (ω → 0) the effective thermal mass tends
      to the areal heat capacity: the shortfall of its square is at most
      ω²·shc⁴·R², and there is none when ω, shc or R is zero. */
  lemma {:induction false} EffectiveThermalMassLimit(sqrt: real -> real, shc: real, omega: real, r: real)
    requires IsRootAt(sqrt, EffectiveThermalMassSquared(shc, omega, r))
    ensures var m := sqrt(EffectiveThermalMassSquared(shc, omega, r));
            0.0 <= shc * shc - m * m <= omega * omega * shc * shc * shc * shc * r * r
    ensures omega * shc * r == 0.0 ==> sqrt(EffectiveThermalMassSquared(shc, omega, r)) == Abs(shc)
  {
    var x := omega * shc * r;
    var y := shc * shc;
    var e := EffectiveThermalMassSquared(shc, omega, r);
    assert x * x == omega * omega * shc * shc * r * r;
    assert y >= 0.0 && x * x >= 0.0;
    assert e * (1.0 + x * x) == y;
    assert y - e == e * (x * x);
    assert e * (x * x) <= y * (x * x);
    assert y * (x * x) == omega * omega * shc * shc * shc * shc * r * r;
    if x == 0.0 {
      assert e == y;
      var m := sqrt(e);
      assert Abs(shc) * Abs(shc) == y;
      SquareMonotone(m, Abs(shc));
      SquareMonotone(Abs(shc), m);
    }
  }

  /** Internal structures assume no insulation: their areal heat capacity and
      effective thermal mass do not depend on the insulation cells at all. For
      other structures the insulation adds half its own heat capacity. */
  lemma {:induction false} InsulationTerm(sqrt: real -> real, l: Layer, l': Layer, st: StructureType, omega: real)
    requires l'.thickness == l.thickness && l'.density == l.density && l'.specificHeat == l.specificHeat
    ensures st.isInternal ==> ArealHeatCapacity(l, st) == ArealHeatCapacity(l', st)
    ensures st.isInternal ==> EffectiveThermalMass(sqrt, l, st, omega) == EffectiveThermalMass(sqrt, l', st, omega)
    ensures !st.isInternal ==>
      ArealHeatCapacity(l, st) - ArealHeatCapacity(l', st)
      == 0.5 * (l.insulationThickness * l.insulationDensity * l.insulationSpecificHeat
                - l'.insulationThickness * l'.insulationDensity * l'.insulationSpecificHeat)
  {
  }

  // ---------------------------------------------------------------------------
  // U-values

  /** (to ambient air, to ground, interior, total), in W/m2/K. */
  datatype UValues = UValues(toAmbientAir: real, toGround: real, interior: real, total: real)

  /** The conductivities that the structure's branch divides by are non-zero:
      the material's always; the insulation's unless the structure is internal. */
  predicate ResistancesDefined(l: Layer, st: StructureType)
  {
    l.conductivity != 0.0 && (!st.isInternal ==> l.insulationConductivity != 0.0)
  }

  function MaterialResistance(l: Layer): real
    requires l.conductivity != 0.0
  {
    l.thickness / l.conductivity
  }

  function InsulationResistance(l: Layer): real
    requires l.insulationConductivity != 0.0
  {
    l.insulationThickness / l.insulationConductivity
  }

  /** intR: the resistance from the indoor surface to the structure's thermal
      node, placed at `depth` (interior_node_depth). */
  function InteriorResistance(l: Layer, st: StructureType, depth: real): real
    requires ResistancesDefined(l, st)
  {
    if st.isInternal then depth * 0.5 * MaterialResistance(l) + st.interiorResistance
    else depth * (MaterialResistance(l) + 0.5 * InsulationResistance(l)) + st.interiorResistance
  }

  /** extR of the internal and ambient-air branches: from the node to the other
      side of the structure. */
  function ExteriorResistance(l: Layer, st: StructureType, depth: real): real
    requires ResistancesDefined(l, st)
  {
    if st.isInternal then (2.0 - depth) * 0.5 * MaterialResistance(l) + st.exteriorResistance
    else MaterialResistance(l) + InsulationResistance(l) + st.interiorResistance + st.exteriorResistance
         - InteriorResistance(l, st, depth)
  }

  /** flrR of the base floor: material, insulation and interior surface resistance. */
  function FloorResistance(l: Layer, st: StructureType): real
    requires l.conductivity != 0.0 && l.insulationConductivity != 0.0
  {
    MaterialResistance(l) + InsulationResistance(l) + st.interiorResistance
  }

  /** The two-term parallel conductance of the slab-on-grade ground model. */
  function GroundConductance(f: real): real
    requires 0.7044 + f != 0.0 && 2.818 + f != 0.0
  {
    0.114 / (0.7044 + f) + 0.8768 / (2.818 + f)
  }

  /** The ground model as both terms see it: both denominators non-zero and a
      non-zero conductance. */
  predicate GroundDefined(f: real)
  {
    0.7044 + f != 0.0 && 2.818 + f != 0.0 && GroundConductance(f) != 0.0
  }

  /** grnR: the ground resistance with the interior part taken out. */
  function GroundResistance(l: Layer, st: StructureType, depth: real): real
    requires l.conductivity != 0.0 && l.insulationConductivity != 0.0 && !st.isInternal
    requires GroundDefined(FloorResistance(l, st))
  {
    1.0 / GroundConductance(FloorResistance(l, st)) - InteriorResistance(l, st, depth)
  }

  /** Every division of the structure's branch is by a non-zero value. */
  predicate Computable(l: Layer, st: StructureType, depth: real)
  {
    ResistancesDefined(l, st)
    && InteriorResistance(l, st, depth) != 0.0
    && match TopologyOf(st)
       case BaseFloor =>
         GroundDefined(FloorResistance(l, st)) && GroundResistance(l, st, depth) != 0.0
         && InteriorResistance(l, st, depth) + GroundResistance(l, st, depth) != 0.0
       case _ =>
         ExteriorResistance(l, st, depth) != 0.0
         && ExteriorResistance(l, st, depth) + InteriorResistance(l, st, depth) != 0.0
  }

  /** Lines 416-466. */
  function CalculateUValues(l: Layer, st: StructureType, depth: real): UValues
    requires Computable(l, st, depth)
  {
    var intR := InteriorResistance(l, st, depth);
    match TopologyOf(st)
    case BaseFloor =>
      var grnR := GroundResistance(l, st, depth);
      UValues(0.0, 1.0 / grnR, 1.0 / intR, 1.0 / (intR + grnR))
    case _ =>
      var extR := ExteriorResistance(l, st, depth);
      UValues(1.0 / extR, 0.0, 1.0 / intR, 1.0 / (extR + intR))
  }

  lemma {:induction false} SeriesConductance(a: real, b: real)
    requires a != 0.0 && b != 0.0 && a + b != 0.0
    ensures 1.0 / a != 0.0 && 1.0 / b != 0.0 && 1.0 / (1.0 / (a + b)) == 1.0 / (1.0 / a) + 1.0 / (1.0 / b)
  {
  }

  /** The branches are exclusive: only the base floor has a ground U-value and it
      alone has no ambient-air U-value. In every branch the total U-value is the
      series combination of the interior and the outward U-values. */
  lemma {:induction false} UValueBranches(l: Layer, st: StructureType, depth: real)
    requires Computable(l, st, depth)
    ensures var u := CalculateUValues(l, st, depth);
            && (TopologyOf(st) != BaseFloor ==> u.toGround == 0.0 && u.toAmbientAir != 0.0)
            && (TopologyOf(st) == BaseFloor ==> u.toAmbientAir == 0.0 && u.toGround != 0.0)
            && u.interior != 0.0 && u.total != 0.0
            && 1.0 / u.total == 1.0 / u.interior + 1.0 / (u.toAmbientAir + u.toGround)
  {
    var intR := InteriorResistance(l, st, depth);
    if TopologyOf(st) == BaseFloor {
      SeriesConductance(intR, GroundResistance(l, st, depth));
    } else {
      var extR := ExteriorResistance(l, st, depth);
      SeriesConductance(intR, extR);
      assert 1.0 / (extR + intR) == 1.0 / (intR + extR);
    }
  }

  /** The resistances telescope: the total U-value is fixed by the structure's
      own resistances, with the node depth cancelling out. */
  lemma {:induction false} TotalUValueTelescopes(l: Layer, st: StructureType, depth: real)
    requires Computable(l, st, depth)
    ensures var u := CalculateUValues(l, st, depth);
            && (TopologyOf(st) == Internal ==>
                  1.0 / u.total == MaterialResistance(l) + st.interiorResistance + st.exteriorResistance)
            && (TopologyOf(st) == Exterior ==>
                  1.0 / u.total == MaterialResistance(l) + InsulationResistance(l)
                                   + st.interiorResistance + st.exteriorResistance)
            && (TopologyOf(st) == BaseFloor ==>
                  u.total == 0.114 / (0.7044 + FloorResistance(l, st)) + 0.8768 / (2.818 + FloorResistance(l, st)))
  {
    if TopologyOf(st) == BaseFloor {
      var g := GroundConductance(FloorResistance(l, st));
      assert InteriorResistance(l, st, depth) + GroundResistance(l, st, depth) == 1.0 / g;
    }
  }

  /** Consequently the total U-value does not depend on interior_node_depth. */
  lemma {:induction false} TotalUValueIndependentOfNodeDepth(l: Layer, st: StructureType, d1: real, d2: real)
    requires Computable(l, st, d1) && Computable(l, st, d2)
    ensures CalculateUValues(l, st, d1).total == CalculateUValues(l, st, d2).total
  {
    TotalUValueTelescopes(l, st, d1);
    TotalUValueTelescopes(l, st, d2);
    if TopologyOf(st) != BaseFloor {
      var t1, t2 := CalculateUValues(l, st, d1).total, CalculateUValues(l, st, d2).total;
      assert 1.0 / t1 == 1.0 / t2;
      assert t1 == 1.0 / (1.0 / t1) && t2 == 1.0 / (1.0 / t2);
    }
  }

  /** Physically meaningful inputs: positive conductivities and surface
      resistances, non-negative thicknesses, a node depth between 0 and 1. */
  predicate PhysicallyValid(l: Layer, st: StructureType, depth: real)
  {
    l.thickness >= 0.0 && l.conductivity > 0.0
    && l.insulationThickness >= 0.0 && l.insulationConductivity > 0.0
    && st.interiorResistance > 0.0 && st.exteriorResistance > 0.0
    && 0.0 <= depth <= 1.0
  }

  lemma {:induction false} NonNegativeQuotient(a: real, b: real)
    requires a >= 0.0 && b > 0.0
    ensures a / b >= 0.0
  {
  }

  /** q = c / (k + f) is positive and q·f stays below c. */
  lemma {:induction false} DampedTerm(c: real, k: real, f: real, q: real)
    requires c > 0.0 && k > 0.0 && f > 0.0 && q == c / (k + f)
    ensures q > 0.0 && q * f < c
  {
    assert q * (k + f) == c;
    assert q > 0.0;
    PositiveProduct(q, k);
    assert q * f == c - q * k;
  }

  lemma {:induction false} BelowReciprocal(g: real, f: real)
    requires g > 0.0 && g * f < 1.0
    ensures f < 1.0 / g
  {
    var r := 1.0 / g;
    assert r * g == 1.0;
    assert r > 0.0;
    PositiveProduct(1.0 - f * g, r);
    assert (1.0 - f * g) * r == r - f * (g * r);
  }

  /** The slab-on-grade model's resistance 1/G exceeds the floor's own
      resistance f: G·f < 0.114 + 0.8768 < 1. */
  lemma {:induction false} GroundExceedsFloor(f: real)
    requires f > 0.0
    ensures GroundDefined(f) && GroundConductance(f) > 0.0 && 1.0 / GroundConductance(f) > f
  {
    var a, b := 0.114 / (0.7044 + f), 0.8768 / (2.818 + f);
    DampedTerm(0.114, 0.7044, f, a);
    DampedTerm(0.8768, 2.818, f, b);
    var af, bf := a * f, b * f;
    assert af + bf < 1.0;
    var g := a + b;
    assert g == GroundConductance(f);
    assert g * f == af + bf;
    BelowReciprocal(g, f);
  }

  lemma {:induction false} InternalResistancesPositive(l: Layer, st: StructureType, depth: real)
    requires PhysicallyValid(l, st, depth) && st.isInternal
    ensures InteriorResistance(l, st, depth) > 0.0 && ExteriorResistance(l, st, depth) > 0.0
  {
    var m := MaterialResistance(l);
    NonNegativeQuotient(l.thickness, l.conductivity);
    assert depth * 0.5 * m >= 0.0;
    assert (2.0 - depth) * 0.5 * m >= 0.0;
  }

  lemma {:induction false} OuterResistancesPositive(l: Layer, st: StructureType, depth: real)
    requires PhysicallyValid(l, st, depth) && !st.isInternal
    ensures 0.0 < InteriorResistance(l, st, depth) <= FloorResistance(l, st)
    ensures ExteriorResistance(l, st, depth) >= st.exteriorResistance
  {
    var m, ins := MaterialResistance(l), InsulationResistance(l);
    NonNegativeQuotient(l.thickness, l.conductivity);
    NonNegativeQuotient(l.insulationThickness, l.insulationConductivity);
    var x := m + 0.5 * ins;
    assert x >= 0.0;
    assert depth * x >= 0.0;
    assert depth * x <= x by {
      assert x - depth * x == (1.0 - depth) * x;
      assert (1.0 - depth) * x >= 0.0;
    }
  }

  /** For physically meaningful inputs every branch is computable and its
      U-values have the expected signs: the base floor loses heat to the ground
      only, every other structure to the air only. */
  lemma {:induction false} PhysicalUValues(l: Layer, st: StructureType, depth: real)
    requires PhysicallyValid(l, st, depth)
    ensures Computable(l, st, depth)
    ensures var u := CalculateUValues(l, st, depth);
            && u.interior > 0.0 && u.total > 0.0
            && (TopologyOf(st) == BaseFloor ==> u.toGround > 0.0 && u.toAmbientAir == 0.0)
            && (TopologyOf(st) != BaseFloor ==> u.toAmbientAir > 0.0 && u.toGround == 0.0)
  {
    if st.isInternal {
      InternalResistancesPositive(l, st, depth);
    } else {
      OuterResistancesPositive(l, st, depth);
      if st.name == BaseFloorName {
        GroundExceedsFloor(FloorResistance(l, st));
      }
    }
  }
}
