/** `AmBIENCeDataset.preprocess_data` after the join: prevalency normalisation and
    heat-source derivation (both in place, column by column), the building period
    label, the material combination weights, the mapping joins and the
    `building_stock` label. */
module Preprocessing {
  import opened Wrappers
  import opened Records
  import opened Grouping
  import opened Text

  // ---------------------------------------------------------------------------
  // Prevalency normalisation

  /** A slot's prevalency as the row sum sees it: a missing cell is skipped. */
  function PrevalencyOf(h: HeatingSystem): real { GetOr(h.prevalency, 0.0) }

  /** `data[cols].sum(axis=1)`: the sum of the present prevalencies of a row. */
  function PrevalencyTotal(slots: HeatingSlots): real
  {
    PrevalencyOf(slots[0]) + PrevalencyOf(slots[1]) + PrevalencyOf(slots[2])
  }

  /** One cell of `data[c] / tot`. A missing cell stays missing; a zero total makes
      the quotient non-finite, which is modelled as missing too. */
  function Divide(p: Option<real>, total: real): Option<real>
  {
    if p.Some? && total != 0.0 then Some(p.value / total) else None
  }

  /** The row-level meaning of the normalisation loop: every prevalency of the
      row divided by the row's total taken before the loop. */
  function NormalizedPrevalencies(b: Building): Building
  {
    var total := PrevalencyTotal(b.heating);
    b.(heating := seq(3, i requires 0 <= i < 3 =>
                        b.heating[i].(prevalency := Divide(b.heating[i].prevalency, total))))
  }

  /** One assignment `data[c] = data[c] / tot` applied to one row. */
  function DivideSlot(b: Building, c: nat, total: real): Building
    requires c < 3
  {
    b.(heating := b.heating[c := b.heating[c].(prevalency := Divide(b.heating[c].prevalency, total))])
  }

  /** A row after the first `c` columns of the loop have been divided. */
  function PartlyNormalized(b: Building, total: real, c: nat): Building
    requires c <= 3
  {
    if c == 0 then b else DivideSlot(PartlyNormalized(b, total, c - 1), c - 1, total)
  }

  lemma {:induction false} PartlyNormalizedComplete(b: Building)
    ensures PartlyNormalized(b, PrevalencyTotal(b.heating), 3) == NormalizedPrevalencies(b)
  {
    var t := PrevalencyTotal(b.heating);
    var b1 := DivideSlot(b, 0, t);
    var b2 := DivideSlot(b1, 1, t);
    var b3 := DivideSlot(b2, 2, t);
    assert PartlyNormalized(b, t, 1) == b1;
    assert PartlyNormalized(b, t, 2) == b2;
    assert PartlyNormalized(b, t, 3) == b3;
    var n := NormalizedPrevalencies(b);
    assert b3.heating[0] == n.heating[0];
    assert b3.heating[1] == n.heating[1];
    assert b3.heating[2] == n.heating[2];
    assert b3.heating == n.heating;
  }

  /** Line 128: the row totals, taken before any column is divided. */
  method RowTotals(a: array<Building>) returns (total: array<real>)
    ensures fresh(total) && total.Length == a.Length
    ensures forall j :: 0 <= j < a.Length ==> total[j] == PrevalencyTotal(a[j].heating)
  {
    total := new real[a.Length];
    for i := 0 to a.Length
      invariant forall j :: 0 <= j < i ==> total[j] == PrevalencyTotal(a[j].heating)
    {
      total[i] := PrevalencyTotal(a[i].heating);
    }
  }

  /** Line 130, one column: `data[c] = data[c] / tot`. */
  method DivideColumn(a: array<Building>, c: nat, total: array<real>)
    requires c < 3 && total.Length == a.Length
    modifies a
    ensures forall j :: 0 <= j < a.Length ==> a[j] == DivideSlot(old(a[j]), c, total[j])
  {
    for i := 0 to a.Length
      invariant forall j :: 0 <= j < i ==> a[j] == DivideSlot(old(a[j]), c, total[j])
      invariant forall j :: i <= j < a.Length ==> a[j] == old(a[j])
    {
      a[i] := DivideSlot(a[i], c, total[i]);
    }
  }

  /** Lines 127-130: the row totals are taken first, then each of the three
      prevalency columns is divided by them, one column at a time. */
  method NormalizePrevalencies(a: array<Building>)
    modifies a
    ensures forall j :: 0 <= j < a.Length ==> a[j] == NormalizedPrevalencies(old(a[j]))
  {
    var total := RowTotals(a);
    for c := 0 to 3
      invariant forall j :: 0 <= j < a.Length ==> total[j] == PrevalencyTotal(old(a[j]).heating)
      invariant forall j :: 0 <= j < a.Length ==> a[j] == PartlyNormalized(old(a[j]), total[j], c)
    {
      DivideColumn(a, c, total);
    }
    forall j | 0 <= j < a.Length ensures a[j] == NormalizedPrevalencies(old(a[j])) {
      PartlyNormalizedComplete(old(a[j]));
    }
  }

  /** Whenever the row total `t` is non-zero, the normalised prevalencies of
      the row sum to one. */
  lemma {:induction false} NormalizedSumsToOne(b: Building, t: real)
    requires t == PrevalencyTotal(b.heating) && t != 0.0
    ensures PrevalencyTotal(NormalizedPrevalencies(b).heating) == 1.0
  {
    var p0, p1, p2 := PrevalencyOf(b.heating[0]), PrevalencyOf(b.heating[1]), PrevalencyOf(b.heating[2]);
    NormalizedSlot(b, 0, t);
    NormalizedSlot(b, 1, t);
    NormalizedSlot(b, 2, t);
    SharesOfTotal(p0, p1, p2, t);
  }

  /** With a non-zero row total `t`, a present prevalency stays present, a
      missing one stays missing, and the new value is the old value's share of
      the total. */
  lemma {:induction false} NormalizedShare(b: Building, i: nat, t: real)
    requires i < 3 && t == PrevalencyTotal(b.heating) && t != 0.0
    ensures NormalizedPrevalencies(b).heating[i].prevalency.Some? <==> b.heating[i].prevalency.Some?
    ensures PrevalencyOf(NormalizedPrevalencies(b).heating[i]) * t == PrevalencyOf(b.heating[i])
  {
    NormalizedSlot(b, i, t);
    ShareTimesTotal(PrevalencyOf(b.heating[i]), t, PrevalencyOf(NormalizedPrevalencies(b).heating[i]));
  }

  /** Slot i of a normalised row holds slot i's old prevalency over the total. */
  lemma {:induction false} NormalizedSlot(b: Building, i: nat, t: real)
    requires i < 3 && t == PrevalencyTotal(b.heating) && t != 0.0
    ensures PrevalencyOf(NormalizedPrevalencies(b).heating[i]) == PrevalencyOf(b.heating[i]) / t
    ensures NormalizedPrevalencies(b).heating[i].prevalency.Some? <==> b.heating[i].prevalency.Some?
  {
  }

  lemma {:induction false} ShareTimesTotal(p: real, t: real, s: real)
    requires t != 0.0 && s == p / t
    ensures s * t == p
  {
  }

  lemma {:induction false} SharesOfTotal(p0: real, p1: real, p2: real, t: real)
    requires t != 0.0 && t == p0 + p1 + p2
    ensures p0 / t + p1 / t + p2 / t == 1.0
  {
    assert p0 / t + p1 / t + p2 / t == (p0 + p1 + p2) / t;
  }

  /** A row whose prevalencies sum to zero comes out with every prevalency
      non-finite (missing): the degenerate case is surfaced, not hidden. */
  lemma {:induction false} ZeroTotalLosesAllPrevalencies(b: Building)
    requires PrevalencyTotal(b.heating) == 0.0
    ensures forall i :: 0 <= i < 3 ==> NormalizedPrevalencies(b).heating[i].prevalency.None?
  {
  }

  /** Normalising a second time changes nothing. */
  lemma {:induction false} NormalizationIdempotent(b: Building)
    ensures NormalizedPrevalencies(NormalizedPrevalencies(b)) == NormalizedPrevalencies(b)
  {
    var n := NormalizedPrevalencies(b);
    if PrevalencyTotal(b.heating) != 0.0 {
      NormalizedSumsToOne(b, PrevalencyTotal(b.heating));
      assert PrevalencyTotal(n.heating) == 1.0;
      assert NormalizedPrevalencies(n).heating == n.heating;
    } else {
      assert PrevalencyTotal(n.heating) == 0.0;
      assert NormalizedPrevalencies(n).heating == n.heating;
    }
  }

  /** Normalisation touches the prevalency cells and nothing else. */
  lemma {:induction false} NormalizationOnlyTouchesPrevalencies(b: Building, i: nat)
    requires i < 3
    ensures NormalizedPrevalencies(b).(heating := b.heating) == b
    ensures NormalizedPrevalencies(b).heating[i].(prevalency := b.heating[i].prevalency) == b.heating[i]
  {
  }

  // ---------------------------------------------------------------------------
  // Heat source

  /** "District" when the slot's dimensions say district heating, else the fuel used. */
  function DerivedHeatSource(h: HeatingSystem): Option<string>
  {
    if h.dimensions == Some("District") then Some("District") else h.fuelUsed
  }

  /** The row-level meaning of the heat-source loop. */
  function WithHeatSources(b: Building): Building
  {
    b.(heating := seq(3, i requires 0 <= i < 3 =>
                        b.heating[i].(heatSource := DerivedHeatSource(b.heating[i]))))
  }

  /** `data[c1] = data[c2]` on one row. */
  function CopyFuel(b: Building, c: nat): Building
    requires c < 3
  {
    b.(heating := b.heating[c := b.heating[c].(heatSource := b.heating[c].fuelUsed)])
  }

  /** `data.loc[data[c3] == "District", c1] = "District"` on one row. */
  function MarkDistrict(b: Building, c: nat): Building
    requires c < 3
  {
    if b.heating[c].dimensions == Some("District")
    then b.(heating := b.heating[c := b.heating[c].(heatSource := Some("District"))])
    else b
  }

  /** A row after the first `c` slots of the loop are done. */
  function PartlyDerived(b: Building, c: nat): Building
    requires c <= 3
  {
    if c == 0 then b else MarkDistrict(CopyFuel(PartlyDerived(b, c - 1), c - 1), c - 1)
  }

  lemma {:induction false} PartlyDerivedComplete(b: Building)
    ensures PartlyDerived(b, 3) == WithHeatSources(b)
  {
    var b1 := MarkDistrict(CopyFuel(b, 0), 0);
    var b2 := MarkDistrict(CopyFuel(b1, 1), 1);
    var b3 := MarkDistrict(CopyFuel(b2, 2), 2);
    assert PartlyDerived(b, 1) == b1;
    assert PartlyDerived(b, 2) == b2;
    assert PartlyDerived(b, 3) == b3;
    var n := WithHeatSources(b);
    assert b3.heating[0] == n.heating[0];
    assert b3.heating[1] == n.heating[1];
    assert b3.heating[2] == n.heating[2];
    assert b3.heating == n.heating;
  }

  /** Lines 132-137: for each slot, the heat source column is set to the fuel
      used, then overwritten with "District" on the rows whose dimensions say so. */
  method DeriveHeatSources(a: array<Building>)
    modifies a
    ensures forall j :: 0 <= j < a.Length ==> a[j] == WithHeatSources(old(a[j]))
  {
    for c := 0 to 3
      invariant forall j :: 0 <= j < a.Length ==> a[j] == PartlyDerived(old(a[j]), c)
    {
      CopyFuelColumn(a, c);
      MarkDistrictColumn(a, c);
    }
    forall j | 0 <= j < a.Length ensures a[j] == WithHeatSources(old(a[j])) {
      PartlyDerivedComplete(old(a[j]));
    }
  }

  /** Slot c's heat source column becomes its fuel-used column, row by row. */
  method CopyFuelColumn(a: array<Building>, c: nat)
    requires c < 3
    modifies a
    ensures forall j :: 0 <= j < a.Length ==> a[j] == CopyFuel(old(a[j]), c)
  {
    for i := 0 to a.Length
      invariant forall j :: 0 <= j < i ==> a[j] == CopyFuel(old(a[j]), c)
      invariant forall j :: i <= j < a.Length ==> a[j] == old(a[j])
    {
      a[i] := CopyFuel(a[i], c);
    }
  }

  /** Slot c's heat source becomes "District" on the rows whose dimensions say so. */
  method MarkDistrictColumn(a: array<Building>, c: nat)
    requires c < 3
    modifies a
    ensures forall j :: 0 <= j < a.Length ==> a[j] == MarkDistrict(old(a[j]), c)
  {
    for i := 0 to a.Length
      invariant forall j :: 0 <= j < i ==> a[j] == MarkDistrict(old(a[j]), c)
      invariant forall j :: i <= j < a.Length ==> a[j] == old(a[j])
    {
      if a[i].heating[c].dimensions == Some("District") {
        a[i] := a[i].(heating := a[i].heating[c := a[i].heating[c].(heatSource := Some("District"))]);
      }
    }
  }


  /** A slot's heat source is "District" exactly when its dimensions or its fuel
      say so, it is the fuel used whenever the dimensions are not "District", and
      no other cell of the row changes. */
  lemma {:induction false} HeatSourceRule(b: Building, i: nat)
    requires i < 3
    ensures WithHeatSources(b).heating[i].heatSource == Some("District") <==>
            b.heating[i].dimensions == Some("District") || b.heating[i].fuelUsed == Some("District")
    ensures b.heating[i].dimensions != Some("District") ==>
            WithHeatSources(b).heating[i].heatSource == b.heating[i].fuelUsed
    ensures WithHeatSources(b).heating[i].(heatSource := b.heating[i].heatSource) == b.heating[i]
    ensures WithHeatSources(b).(heating := b.heating) == b
  {
  }

  // ---------------------------------------------------------------------------
  // Material combination weights

  /** The archetype of a row, with its period label built as in line 139. */
  function BuildingArchetype(b: Building): Archetype
  {
    Archetype(b.buildingType, PeriodLabel(b.yearLow, b.yearHigh), b.locationId)
  }

  function FloorArea(b: Building): real { b.floorArea }

  /** total_area_over_material_combinations_m2 of group `g`. */
  function GroupArea(bs: seq<Building>, g: Archetype): real
  {
    SumFor(bs, BuildingArchetype, FloorArea, g)
  }

  /** Every row's group has a non-zero total area, so that no weight is a
      division by zero. */
  predicate WeightsDefined(bs: seq<Building>)
  {
    forall i :: 0 <= i < |bs| ==> GroupArea(bs, BuildingArchetype(bs[i])) != 0.0
  }

  /** Lines 146-159: the group totals are computed by a group-by, joined back,
      and every row's floor area is divided by its group's total. */
  function MaterialCombinationWeights(bs: seq<Building>): (w: seq<real>)
    requires WeightsDefined(bs)
    ensures |w| == |bs|
    ensures forall i :: 0 <= i < |bs| ==> w[i] == bs[i].floorArea / GroupArea(bs, BuildingArchetype(bs[i]))
  {
    var totals := GroupSum(bs, BuildingArchetype, FloorArea);
    seq(|bs|, i requires 0 <= i < |bs| =>
      assert BuildingArchetype(bs[i]) in KeysOf(bs, BuildingArchetype);
      bs[i].floorArea / totals[BuildingArchetype(bs[i])])
  }

  /** The rows of group `g`, in order. */
  function Members(bs: seq<Building>, g: Archetype): seq<Building>
    decreases |bs|
  {
    if bs == [] then []
    else Members(bs[..|bs| - 1], g) + (if BuildingArchetype(bs[|bs| - 1]) == g then [bs[|bs| - 1]] else [])
  }

  lemma {:induction false} GroupAreaOfMembers(bs: seq<Building>, g: Archetype)
    ensures GroupArea(bs, g) == Sum(Members(bs, g), FloorArea)
    decreases |bs|
  {
    if bs != [] {
      var p, b := bs[..|bs| - 1], bs[|bs| - 1];
      GroupAreaOfMembers(p, g);
      if BuildingArchetype(b) == g {
        var m := Members(p, g) + [b];
        assert m[..|m| - 1] == Members(p, g);
      } else {
        assert Members(bs, g) == Members(p, g);
      }
    }
  }

  /** A row's weight depends only on the rows of its own group: two tables whose
      group of that row holds the same rows give it the same weight. */
  lemma {:induction false} WeightIsLocal(bs: seq<Building>, i: nat, bs': seq<Building>, i': nat)
    requires WeightsDefined(bs) && WeightsDefined(bs')
    requires i < |bs| && i' < |bs'| && bs[i] == bs'[i']
    requires Members(bs, BuildingArchetype(bs[i])) == Members(bs', BuildingArchetype(bs[i]))
    ensures MaterialCombinationWeights(bs)[i] == MaterialCombinationWeights(bs')[i']
  {
    GroupAreaOfMembers(bs, BuildingArchetype(bs[i]));
    GroupAreaOfMembers(bs', BuildingArchetype(bs[i]));
  }

  // ---------------------------------------------------------------------------
  // Assembly of the preprocessed rows

  const DatasetName := "AmBIENCe"

  /** `prefix + "_" + str(year) + "_" + location + "_" + category`; a missing
      category makes the whole label missing. */
  function StockLabel(prefix: string, year: nat, location: string, info: Option<BuildingTypeInfo>): Option<string>
  {
    if info.None? then None
    else Some(prefix + "_" + NatToString(year) + "_" + location + "_" + info.value.category)
  }

  /** Lines 138-177 after the weights: the period label, the weight, the left
      joins of the shapefile and building type mappings, the year and the label. */
  function Assemble(bs: seq<Building>, shapefiles: map<string, ShapefileInfo>,
                    types: map<string, BuildingTypeInfo>, year: nat): (recs: seq<Record>)
    requires WeightsDefined(bs)
    ensures |recs| == |bs|
    ensures forall i :: 0 <= i < |bs| ==> recs[i].building == bs[i] && ArchetypeOf(recs[i]) == BuildingArchetype(bs[i])
    ensures forall i :: 0 <= i < |bs| ==> recs[i].weight == bs[i].floorArea / GroupArea(bs, BuildingArchetype(bs[i]))
  {
    var w := MaterialCombinationWeights(bs);
    seq(|bs|, i requires 0 <= i < |bs| =>
      var b := bs[i];
      var info := Lookup(types, b.buildingType);
      Record(b, PeriodLabel(b.yearLow, b.yearHigh), w[i], Lookup(shapefiles, b.locationId), info,
             year, StockLabel(DatasetName, year, b.locationId, info)))
  }

  /** The row-level steps before assembly, in the source's order. */
  function Cleaned(b: Building): Building
  {
    WithHeatSources(NormalizedPrevalencies(b))
  }

  function CleanedAll(joined: seq<Building>): (bs: seq<Building>)
    ensures |bs| == |joined|
  {
    seq(|joined|, i requires 0 <= i < |joined| => Cleaned(joined[i]))
  }

  /** Cleaning a row leaves its archetype and its floor area alone. */
  lemma {:induction false} CleaningKeepsArchetype(b: Building)
    ensures BuildingArchetype(Cleaned(b)) == BuildingArchetype(b)
    ensures Cleaned(b).floorArea == b.floorArea
  {
    var n := NormalizedPrevalencies(b);
    assert n.(heating := b.heating) == b;
  }

  /** Cleaning keeps every row's group and area, so it keeps the group totals. */
  lemma {:induction false} CleaningKeepsGroupAreas(joined: seq<Building>, g: Archetype)
    ensures GroupArea(CleanedAll(joined), g) == GroupArea(joined, g)
  {
    var bs := CleanedAll(joined);
    forall i | 0 <= i < |joined|
      ensures BuildingArchetype(bs[i]) == BuildingArchetype(joined[i]) && bs[i].floorArea == joined[i].floorArea
    {
      CleaningKeepsArchetype(joined[i]);
    }
    SumForMatching(joined, BuildingArchetype, FloorArea, g, bs, BuildingArchetype, FloorArea, g);
  }

  lemma {:induction false} CleaningKeepsWeightsDefined(joined: seq<Building>)
    requires WeightsDefined(joined)
    ensures WeightsDefined(CleanedAll(joined))
  {
    var bs := CleanedAll(joined);
    forall i | 0 <= i < |bs| ensures GroupArea(bs, BuildingArchetype(bs[i])) != 0.0 {
      CleaningKeepsGroupAreas(joined, BuildingArchetype(bs[i]));
      assert BuildingArchetype(bs[i]) == BuildingArchetype(joined[i]);
    }
  }

  /** The data frame `preprocess_data` returns, from the joined rows. */
  function Preprocessed(joined: seq<Building>, shapefiles: map<string, ShapefileInfo>,
                        types: map<string, BuildingTypeInfo>, year: nat): seq<Record>
    requires WeightsDefined(joined)
  {
    CleaningKeepsWeightsDefined(joined);
    Assemble(CleanedAll(joined), shapefiles, types, year)
  }

  /** The summed weight of the rows of archetype `g`. */
  function GroupWeight(recs: seq<Record>, g: Archetype): real
  {
    SumFor(recs, ArchetypeOf, Weight, g)
  }

  /** Rows whose weights are their areas' shares of a non-empty group's total
      area have weights summing to one over that group. */
  lemma {:induction false} SharesSumToOne(bs: seq<Building>, recs: seq<Record>, g: Archetype)
    requires |recs| == |bs| && GroupArea(bs, g) != 0.0
    requires forall i :: 0 <= i < |bs| ==> ArchetypeOf(recs[i]) == BuildingArchetype(bs[i])
    requires forall i :: 0 <= i < |bs| && BuildingArchetype(bs[i]) == g ==>
               recs[i].weight == bs[i].floorArea / GroupArea(bs, g)
    ensures GroupWeight(recs, g) == 1.0
  {
    var t := GroupArea(bs, g);
    forall i | 0 <= i < |bs| && BuildingArchetype(bs[i]) == g
      ensures Weight(recs[i]) == (1.0 / t) * FloorArea(bs[i])
    {
      assert bs[i].floorArea / t == (1.0 / t) * bs[i].floorArea;
    }
    SumForCorresponding(bs, BuildingArchetype, FloorArea, g, recs, ArchetypeOf, Weight, g, 1.0 / t);
    assert (1.0 / t) * t == 1.0;
  }

  /** In every group that has rows, the assembled weights sum to one. */
  lemma {:induction false} AssembledWeightsSumToOne(bs: seq<Building>, shapefiles: map<string, ShapefileInfo>,
                                 types: map<string, BuildingTypeInfo>, year: nat, g: Archetype)
    requires WeightsDefined(bs)
    requires g in KeysOf(bs, BuildingArchetype)
    ensures GroupWeight(Assemble(bs, shapefiles, types, year), g) == 1.0
  {
    var j :| 0 <= j < |bs| && BuildingArchetype(bs[j]) == g;
    assert GroupArea(bs, g) != 0.0;
    SharesSumToOne(bs, Assemble(bs, shapefiles, types, year), g);
  }

  /** The invariant of the weighting on the preprocessed table: in every group
      that has rows, the weights of its rows sum to one. */
  lemma {:induction false} PreprocessedWeightsSumToOne(joined: seq<Building>, shapefiles: map<string, ShapefileInfo>,
                                    types: map<string, BuildingTypeInfo>, year: nat, g: Archetype)
    requires WeightsDefined(joined)
    requires g in KeysOf(joined, BuildingArchetype)
    ensures GroupWeight(Preprocessed(joined, shapefiles, types, year), g) == 1.0
  {
    CleaningKeepsWeightsDefined(joined);
    var bs := CleanedAll(joined);
    var j :| 0 <= j < |joined| && BuildingArchetype(joined[j]) == g;
    assert BuildingArchetype(bs[j]) == g;
    AssembledWeightsSumToOne(bs, shapefiles, types, year, g);
  }

  /** Preprocessing keeps the rows (cleaned) and labels every row's period from
      its construction years. */
  lemma {:induction false} PreprocessedRows(joined: seq<Building>, shapefiles: map<string, ShapefileInfo>,
                         types: map<string, BuildingTypeInfo>, year: nat, i: nat)
    requires WeightsDefined(joined) && i < |joined|
    ensures |Preprocessed(joined, shapefiles, types, year)| == |joined|
    ensures Preprocessed(joined, shapefiles, types, year)[i].building == Cleaned(joined[i])
    ensures Preprocessed(joined, shapefiles, types, year)[i].period == PeriodLabel(joined[i].yearLow, joined[i].yearHigh)
  {
  }
}
