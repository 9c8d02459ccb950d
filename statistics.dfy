/** The three statistic tables for ArchetypeBuildingModel.jl: a list
    comprehension over the preprocessed rows (times heating systems or structure
    types) followed by a group-by-and-sum. */
module Statistics {
  import opened Wrappers
  import opened Records
  import opened Grouping
  import opened Physics
  import opened Preprocessing

  // ---------------------------------------------------------------------------
  // Building stock statistics

  /** The group-by columns of building_stock_statistics. */
  datatype StockKey = StockKey(buildingStock: string, buildingType: string, period: string,
                               location: string, heatSource: string)

  /** One row of the frame before grouping. */
  datatype StockRow = StockRow(key: StockKey, numberOfBuildings: real, floorArea: real)

  function RowKey(row: StockRow): StockKey { row.key }

  function RowBuildings(row: StockRow): real { row.numberOfBuildings }

  function RowFloorArea(row: StockRow): real { row.floorArea }

  /** The row of one record and one heating system; `dropna` removes it when the
      building stock label, the heat source or the prevalency is missing. */
  function SlotRow(r: Record, h: HeatingSystem): Option<StockRow>
  {
    if r.buildingStock.Some? && h.heatSource.Some? && h.prevalency.Some? then
      Some(StockRow(StockKey(r.buildingStock.value, r.building.buildingType, r.period,
                             r.building.locationId, h.heatSource.value),
                    r.building.numberOfBuildings * h.prevalency.value,
                    r.building.floorArea))
    else None
  }

  function Present<T>(o: Option<T>): seq<T>
  {
    if o.Some? then [o.value] else []
  }

  /** The surviving rows of one record, heating systems 1, 2 and 3 in order. */
  function RecordStockRows(r: Record): seq<StockRow>
  {
    Present(SlotRow(r, r.building.heating[0]))
    + Present(SlotRow(r, r.building.heating[1]))
    + Present(SlotRow(r, r.building.heating[2]))
  }

  /** The surviving rows of `product(data, heating systems)`, record by record. */
  function StockRows(data: seq<Record>): seq<StockRow>
    decreases |data|
  {
    if data == [] then [] else StockRows(data[..|data| - 1]) + RecordStockRows(data[|data| - 1])
  }

  /** The prevalency of a heating system that is counted for record `r`: zero for
      a dropped row. */
  function CountedShare(r: Record, h: HeatingSystem): real
  {
    if r.buildingStock.Some? && h.heatSource.Some? && h.prevalency.Some? then h.prevalency.value else 0.0
  }

  /** The buildings record `r` contributes to building_stock_statistics. */
  function CountedBuildings(r: Record): real
  {
    var hs := r.building.heating;
    r.building.numberOfBuildings * (CountedShare(r, hs[0]) + CountedShare(r, hs[1]) + CountedShare(r, hs[2]))
  }

  /** One aggregated row: the summed number of buildings and the mean floor area. */
  datatype StockStatistic = StockStatistic(numberOfBuildings: real, averageFloorArea: real)

  lemma {:induction false} GroupSizesPositive<T, K>(xs: seq<T>, key: T -> K)
    ensures forall k :: k in KeysOf(xs, key) ==> SumFor(xs, key, One, k) >= 1.0
  {
    forall k | k in KeysOf(xs, key) ensures SumFor(xs, key, One, k) >= 1.0 {
      CountPositive(xs, key, k);
    }
  }

  /** The group-by of lines 327-343: every group present among `rows` gets the
      sum of its members' building counts and the mean of their floor areas. */
  function AggregateStock(rows: seq<StockRow>): (m: map<StockKey, StockStatistic>)
    ensures m.Keys == KeysOf(rows, RowKey)
    ensures forall k :: k in m ==> m[k].numberOfBuildings == SumFor(rows, RowKey, RowBuildings, k)
  {
    var counts := GroupSum(rows, RowKey, RowBuildings);
    var areas := GroupSum(rows, RowKey, RowFloorArea);
    var sizes := GroupSum(rows, RowKey, One);
    GroupSizesPositive(rows, RowKey);
    map k | k in counts :: StockStatistic(counts[k], Mean(areas[k], sizes[k]))
  }

  /** The floor area column is the mean over the group's rows: the group's
      total area divided by its number of rows, of which there is at least one. */
  lemma {:induction false} MeanFloorArea(rows: seq<StockRow>, k: StockKey)
    requires k in AggregateStock(rows)
    ensures SumFor(rows, RowKey, One, k) >= 1.0
    ensures AggregateStock(rows)[k].averageFloorArea
            == SumFor(rows, RowKey, RowFloorArea, k) / SumFor(rows, RowKey, One, k)
  {
    CountPositive(rows, RowKey, k);
  }

  /** Lines 286-344. */
  function BuildingStockStatistics(data: seq<Record>): map<StockKey, StockStatistic>
  {
    AggregateStock(StockRows(data))
  }

  /** pandas' "mean" aggregation from a group's total and its number of rows. */
  function Mean(total: real, count: real): real
    requires count >= 1.0
  {
    total / count
  }

  /** The number_of_buildings column of the aggregated table. */
  function CountColumn(m: map<StockKey, StockStatistic>): map<StockKey, real>
  {
    map k | k in m :: m[k].numberOfBuildings
  }

  lemma {:induction false} RecordStockRowsTotal(r: Record)
    ensures Sum(RecordStockRows(r), RowBuildings) == CountedBuildings(r)
  {
    var hs := r.building.heating;
    var a, b, c := Present(SlotRow(r, hs[0])), Present(SlotRow(r, hs[1])), Present(SlotRow(r, hs[2]));
    SumAppend(a, b, RowBuildings);
    SumAppend(a + b, c, RowBuildings);
    SlotRowTotal(r, hs[0]);
    SlotRowTotal(r, hs[1]);
    SlotRowTotal(r, hs[2]);
    DistributeThree(r.building.numberOfBuildings, CountedShare(r, hs[0]), CountedShare(r, hs[1]), CountedShare(r, hs[2]));
  }

  /** One heating system's row, if it survives, carries the record's buildings
      times that system's counted share. */
  lemma {:induction false} SlotRowTotal(r: Record, h: HeatingSystem)
    ensures Sum(Present(SlotRow(r, h)), RowBuildings) == r.building.numberOfBuildings * CountedShare(r, h)
  {
    var o := SlotRow(r, h);
    if o.Some? {
      assert Present(o)[..0] == [];
    }
  }

  lemma {:induction false} DistributeThree(n: real, x: real, y: real, z: real)
    ensures n * x + n * y + n * z == n * (x + y + z)
  {
  }

  lemma {:induction false} StockRowsTotal(data: seq<Record>)
    ensures Sum(StockRows(data), RowBuildings) == Sum(data, CountedBuildings)
    decreases |data|
  {
    if data != [] {
      var p := data[..|data| - 1];
      StockRowsTotal(p);
      SumAppend(StockRows(p), RecordStockRows(data[|data| - 1]), RowBuildings);
      RecordStockRowsTotal(data[|data| - 1]);
    }
  }

  /** The group-by conserves building counts: summed over all groups, the
      aggregated counts are what every record contributes through its
      surviving heating systems. */
  lemma {:induction false} StockCountsConserved(data: seq<Record>, ks: seq<StockKey>)
    requires Enumerates(ks, BuildingStockStatistics(data).Keys)
    ensures forall j :: 0 <= j < |ks| ==> ks[j] in CountColumn(BuildingStockStatistics(data))
    ensures SumOfEntries(CountColumn(BuildingStockStatistics(data)), ks) == Sum(data, CountedBuildings)
  {
    var rows := StockRows(data);
    var g := GroupSum(rows, RowKey, RowBuildings);
    MapsEqual(CountColumn(BuildingStockStatistics(data)), g);
    GroupSumConserves(rows, RowKey, RowBuildings, ks);
    StockRowsTotal(data);
  }

  /** Every heating system of `r` that has a prevalency also has a heat source,
      and the building stock label is known: nothing of `r` is dropped. */
  predicate Countable(r: Record)
  {
    r.buildingStock.Some?
    && forall s :: 0 <= s < 3 ==> r.building.heating[s].prevalency.Some? ==> r.building.heating[s].heatSource.Some?
  }

  /** A countable record contributes its buildings times its prevalency total. */
  lemma {:induction false} FullyCounted(r: Record)
    requires Countable(r)
    ensures CountedBuildings(r) == r.building.numberOfBuildings * PrevalencyTotal(r.building.heating)
  {
    var hs := r.building.heating;
    assert CountedShare(r, hs[0]) == PrevalencyOf(hs[0]);
    assert CountedShare(r, hs[1]) == PrevalencyOf(hs[1]);
    assert CountedShare(r, hs[2]) == PrevalencyOf(hs[2]);
  }

  /** When every record is countable and its prevalencies are normalised, the
      aggregated counts add up to the number of buildings of the whole data. */
  lemma {:induction false} BuildingCountsConserved(data: seq<Record>, ks: seq<StockKey>)
    requires Enumerates(ks, BuildingStockStatistics(data).Keys)
    requires forall i :: 0 <= i < |data| ==> Countable(data[i]) && PrevalencyTotal(data[i].building.heating) == 1.0
    ensures forall j :: 0 <= j < |ks| ==> ks[j] in CountColumn(BuildingStockStatistics(data))
    ensures SumOfEntries(CountColumn(BuildingStockStatistics(data)), ks) == Sum(data, NumberOfBuildings)
  {
    StockCountsConserved(data, ks);
    forall i | 0 <= i < |data| ensures CountedBuildings(data[i]) == NumberOfBuildings(data[i]) {
      FullyCounted(data[i]);
    }
    SumPointwise(data, CountedBuildings, NumberOfBuildings);
  }

  /** When the members of a group share one floor area, it is the group's mean. */
  lemma {:induction false} SharedFloorArea(rows: seq<StockRow>, k: StockKey, v: real)
    requires k in AggregateStock(rows)
    requires forall i :: 0 <= i < |rows| && rows[i].key == k ==> rows[i].floorArea == v
    ensures AggregateStock(rows)[k].averageFloorArea == v
  {
    var n := SumFor(rows, RowKey, One, k);
    MeanFloorArea(rows, k);
    FloorAreaColumn(rows, k, v, n);
    DivideOut(SumFor(rows, RowKey, RowFloorArea, k), v, n);
  }

  /** A group of `n` rows that all report floor area `v` has total floor area `v * n`. */
  lemma {:induction false} FloorAreaColumn(rows: seq<StockRow>, k: StockKey, v: real, n: real)
    requires forall i :: 0 <= i < |rows| && rows[i].key == k ==> rows[i].floorArea == v
    requires SumFor(rows, RowKey, One, k) == n
    ensures SumFor(rows, RowKey, RowFloorArea, k) == v * n
  {
    SumForCorresponding(rows, RowKey, One, k, rows, RowKey, RowFloorArea, k, v);
  }

  lemma {:induction false} DivideOut(t: real, v: real, n: real)
    requires n >= 1.0 && t == v * n
    ensures t / n == v
  {
  }

  // ---------------------------------------------------------------------------
  // Structure statistics

  /** The group-by columns of structure_statistics. */
  datatype StructureKey = StructureKey(archetype: Archetype, structureType: string)

  /** The seven summed columns, each already multiplied by the row's weight. */
  datatype StructureValues = StructureValues(
    designU: real,                  // design_U_value_W_m2K
    effectiveThermalMass: real,     // effective_thermal_mass_J_m2K
    linearThermalBridges: real,     // linear_thermal_bridges_W_mK
    toAmbientAir: real,             // external_U_value_to_ambient_air_W_m2K
    toGround: real,                 // external_U_value_to_ground_W_m2K
    interior: real,                 // internal_U_value_to_structure_W_m2K
    total: real                     // total_U_value_W_m2K
  )

  datatype StructureCell = StructureCell(key: StructureKey, values: StructureValues)

  function CellKey(c: StructureCell): StructureKey { c.key }
  function DesignU(c: StructureCell): real { c.values.designU }
  function ThermalMass(c: StructureCell): real { c.values.effectiveThermalMass }
  function Bridges(c: StructureCell): real { c.values.linearThermalBridges }
  function ToAmbientAir(c: StructureCell): real { c.values.toAmbientAir }
  function ToGround(c: StructureCell): real { c.values.toGround }
  function Interior(c: StructureCell): real { c.values.interior }
  function Total(c: StructureCell): real { c.values.total }

  /** Every row has the material layer every structure type maps to. */
  predicate LayersPresent(data: seq<Record>, sts: seq<StructureType>)
  {
    forall r, st :: r in data && st in sts ==> st.mapping in r.building.layers
  }

  /** The U-value formulas divide by non-zero resistances for every row and
      structure type that has its layer. */
  predicate UValuesComputable(data: seq<Record>, sts: seq<StructureType>, depth: real)
  {
    forall r, st :: r in data && st in sts && st.mapping in r.building.layers ==>
      Computable(r.building.layers[st.mapping], st, depth)
  }

  /** The first structure mapping a row lacks, in the comprehension's order
      (rows outer, structure types inner): pandas raises a KeyError on it. */
  function MissingLayerOf(b: Building, sts: seq<StructureType>): (e: Option<string>)
    ensures e.None? <==> forall st :: st in sts ==> st.mapping in b.layers
    ensures e.Some? ==> e.value !in b.layers && exists st :: st in sts && st.mapping == e.value
    decreases |sts|
  {
    if sts == [] then None
    else if sts[0].mapping !in b.layers then Some(sts[0].mapping)
    else
      assert forall st :: st in sts ==> st == sts[0] || st in sts[1..];
      MissingLayerOf(b, sts[1..])
  }

  function MissingLayer(data: seq<Record>, sts: seq<StructureType>): (e: Option<string>)
    ensures e.None? <==> LayersPresent(data, sts)
    ensures e.Some? ==> exists r, st :: r in data && st in sts
                          && st.mapping == e.value && e.value !in r.building.layers
    decreases |data|
  {
    if data == [] then None
    else
      var e := MissingLayerOf(data[0].building, sts);
      if e.Some? then e
      else
        assert forall r :: r in data ==> r == data[0] || r in data[1..];
        MissingLayer(data[1..], sts)
  }

  /** One element of `product(data, structure types)`. */
  datatype Pair = Pair(row: Record, st: StructureType)

  /** The group of a pair's cell. */
  function PairKey(p: Pair): StructureKey { StructureKey(ArchetypeOf(p.row), p.st.name) }

  /** The rows times structure types, rows outer and structure types inner. */
  function RowPairs(r: Record, sts: seq<StructureType>): seq<Pair>
  {
    seq(|sts|, j requires 0 <= j < |sts| => Pair(r, sts[j]))
  }

  function Pairs(data: seq<Record>, sts: seq<StructureType>): seq<Pair>
    decreases |data|
  {
    if data == [] then [] else Pairs(data[..|data| - 1], sts) + RowPairs(data[|data| - 1], sts)
  }

  /** Every pair joins a row of the data with a structure type of the table. */
  lemma {:induction false} PairsFrom(data: seq<Record>, sts: seq<StructureType>)
    ensures forall i :: 0 <= i < |Pairs(data, sts)| ==> Pairs(data, sts)[i].row in data && Pairs(data, sts)[i].st in sts
    decreases |data|
  {
    if data != [] {
      var p := data[..|data| - 1];
      PairsFrom(p, sts);
      assert forall r :: r in p ==> r in data;
    }
  }

  /** Lines 479-511: the weighted cells of one row and one structure type. */
  function Cell(p: Pair, sqrt: real -> real, omega: real, depth: real): StructureCell
    requires p.st.mapping in p.row.building.layers
    requires Computable(p.row.building.layers[p.st.mapping], p.st, depth)
  {
    var l := p.row.building.layers[p.st.mapping];
    var w := p.row.weight;
    var u := CalculateUValues(l, p.st, depth);
    StructureCell(PairKey(p),
                  StructureValues(w * l.uValue, w * EffectiveThermalMass(sqrt, l, p.st, omega),
                                  w * p.st.linearThermalBridge, w * u.toAmbientAir, w * u.toGround,
                                  w * u.interior, w * u.total))
  }

  /** The cells of `product(data, structure types)`. */
  function StructureCells(data: seq<Record>, sts: seq<StructureType>, sqrt: real -> real, omega: real, depth: real)
    : seq<StructureCell>
    requires LayersPresent(data, sts) && UValuesComputable(data, sts, depth)
  {
    var ps := Pairs(data, sts);
    PairsFrom(data, sts);
    seq(|ps|, i requires 0 <= i < |ps| => Cell(ps[i], sqrt, omega, depth))
  }

  /** Lines 468-539. A KeyError when a row lacks a structure's layer; otherwise
      every (archetype, structure type) group gets the sum of its cells. */
  function StructureStatistics(data: seq<Record>, sts: seq<StructureType>, sqrt: real -> real,
                               omega: real, depth: real)
    : (res: Result<map<StructureKey, StructureValues>, string>)
    requires UValuesComputable(data, sts, depth)
    ensures res.Failure? <==> !LayersPresent(data, sts)
    ensures res.Failure? ==> exists r, st :: r in data && st in sts
                               && st.mapping == res.error && res.error !in r.building.layers
    ensures res.Success? ==>
      var cells := StructureCells(data, sts, sqrt, omega, depth);
      && res.value.Keys == KeysOf(cells, CellKey)
      && forall k :: k in res.value ==>
           res.value[k] == StructureValues(
             SumFor(cells, CellKey, DesignU, k), SumFor(cells, CellKey, ThermalMass, k),
             SumFor(cells, CellKey, Bridges, k), SumFor(cells, CellKey, ToAmbientAir, k),
             SumFor(cells, CellKey, ToGround, k), SumFor(cells, CellKey, Interior, k),
             SumFor(cells, CellKey, Total, k))
  {
    var missing := MissingLayer(data, sts);
    if missing.Some? then Failure(missing.value)
    else
      var cells := StructureCells(data, sts, sqrt, omega, depth);
      var g1, g2, g3 := GroupSum(cells, CellKey, DesignU), GroupSum(cells, CellKey, ThermalMass), GroupSum(cells, CellKey, Bridges);
      var g4, g5 := GroupSum(cells, CellKey, ToAmbientAir), GroupSum(cells, CellKey, ToGround);
      var g6, g7 := GroupSum(cells, CellKey, Interior), GroupSum(cells, CellKey, Total);
      Success(map k | k in g1 :: StructureValues(g1[k], g2[k], g3[k], g4[k], g5[k], g6[k], g7[k]))
  }

  /** Structure type names are the table's index: no two rows share one. */
  predicate UniqueNames(sts: seq<StructureType>)
  {
    forall j, j' :: 0 <= j < j' < |sts| ==> sts[j].name != sts[j'].name
  }

  /** Structure type j's name is held by no other row of the table. */
  predicate NameHeldOnce(sts: seq<StructureType>, j: nat)
    requires j < |sts|
  {
    forall i :: 0 <= i < |sts| && i != j ==> sts[i].name != sts[j].name
  }

  /** A pair's row weight. */
  function PairWeight(p: Pair): real { p.row.weight }

  /** Cell i is pair i's: same group, and its bridge column is the pair's weight
      times the structure type's linear thermal bridge. */
  predicate CellsFollow(ps: seq<Pair>, cells: seq<StructureCell>)
  {
    && |cells| == |ps|
    && (forall i :: 0 <= i < |ps| ==> CellKey(cells[i]) == PairKey(ps[i]))
    && (forall i :: 0 <= i < |ps| ==> Bridges(cells[i]) == ps[i].row.weight * ps[i].st.linearThermalBridge)
  }

  lemma {:induction false} CellsOfPairs(data: seq<Record>, sts: seq<StructureType>, sqrt: real -> real, omega: real, depth: real)
    requires LayersPresent(data, sts) && UValuesComputable(data, sts, depth)
    ensures CellsFollow(Pairs(data, sts), StructureCells(data, sts, sqrt, omega, depth))
  {
    PairsFrom(data, sts);
  }


  /** A row's weight within archetype `a`: zero for rows of other archetypes. */
  function WeightIn(r: Record, a: Archetype): real
  {
    if ArchetypeOf(r) == a then r.weight else 0.0
  }

  /** The pairs of one row carry, under the group of structure type j, the row's
      weight once if it is of archetype `a` and nothing otherwise. */
  lemma {:induction false} RowWeights(r: Record, sts: seq<StructureType>, j: nat, a: Archetype)
    requires j < |sts| && NameHeldOnce(sts, j)
    ensures SumFor(RowPairs(r, sts), PairKey, PairWeight, StructureKey(a, sts[j].name)) == WeightIn(r, a)
    ensures ArchetypeOf(r) == a ==> StructureKey(a, sts[j].name) in KeysOf(RowPairs(r, sts), PairKey)
  {
    var ps := RowPairs(r, sts);
    var k := StructureKey(a, sts[j].name);
    if ArchetypeOf(r) == a {
      assert PairKey(ps[j]) == k;
      forall i | 0 <= i < |ps| && i != j ensures PairKey(ps[i]) != k {
        assert sts[i].name != sts[j].name;
      }
      SumForUnique(ps, PairKey, PairWeight, k, j);
    } else {
      assert k !in KeysOf(ps, PairKey);
      SumForAbsent(ps, PairKey, PairWeight, k);
    }
  }



  /** Over the pairs, the group of archetype `a` and structure type j holds the
      archetype's total weight: every row of `a` is paired with j exactly once. */
  lemma {:induction false} PairWeightsAreGroupWeights(data: seq<Record>, sts: seq<StructureType>, j: nat, a: Archetype)
    requires j < |sts| && NameHeldOnce(sts, j)
    ensures SumFor(Pairs(data, sts), PairKey, PairWeight, StructureKey(a, sts[j].name)) == GroupWeight(data, a)
    decreases |data|
  {
    if data != [] {
      var p, r := data[..|data| - 1], data[|data| - 1];
      var before, last := Pairs(p, sts), RowPairs(r, sts);
      assert Pairs(data, sts) == before + last;
      PairWeightsAreGroupWeights(p, sts, j, a);
      SumForAppend(before, last, PairKey, PairWeight, StructureKey(a, sts[j].name));
      RowWeights(r, sts, j, a);
      assert GroupWeight(data, a) == GroupWeight(p, a) + WeightIn(r, a);
    }
  }

  /** The (archetype, structure type) group is present for every archetype
      present in the data and every structure type. */
  lemma {:induction false} PairGroupsPresent(data: seq<Record>, sts: seq<StructureType>, j: nat, a: Archetype)
    requires j < |sts| && NameHeldOnce(sts, j)
    requires a in KeysOf(data, ArchetypeOf)
    ensures StructureKey(a, sts[j].name) in KeysOf(Pairs(data, sts), PairKey)
    decreases |data|
  {
    var p, r := data[..|data| - 1], data[|data| - 1];
    var before, last := Pairs(p, sts), RowPairs(r, sts);
    assert Pairs(data, sts) == before + last;
    KeysOfAppend(before, last, PairKey);
    RowWeights(r, sts, j, a);
    if ArchetypeOf(r) != a {
      var i :| 0 <= i < |data| && ArchetypeOf(data[i]) == a;
      assert ArchetypeOf(p[i]) == a;
      PairGroupsPresent(p, sts, j, a);
    }
  }

  /** A pair in the group of structure type j was formed with j itself. */
  lemma {:induction false} PairOfGroup(sts: seq<StructureType>, j: nat, a: Archetype, q: Pair)
    requires j < |sts| && NameHeldOnce(sts, j)
    requires q.st in sts && PairKey(q) == StructureKey(a, sts[j].name)
    ensures q.st == sts[j]
  {
    var i :| 0 <= i < |sts| && sts[i] == q.st;
    assert sts[i].name == sts[j].name;
  }

  /** Among cells that follow the pairs, a group of structure type j sums to j's
      linear thermal bridge times the group's summed pair weight `g`. */
  lemma {:induction false} BridgeColumn(ps: seq<Pair>, cells: seq<StructureCell>, sts: seq<StructureType>, j: nat,
                                         a: Archetype, g: real)
    requires j < |sts| && NameHeldOnce(sts, j)
    requires CellsFollow(ps, cells) && forall i :: 0 <= i < |ps| ==> ps[i].st in sts
    requires SumFor(ps, PairKey, PairWeight, StructureKey(a, sts[j].name)) == g
    ensures SumFor(cells, CellKey, Bridges, StructureKey(a, sts[j].name)) == sts[j].linearThermalBridge * g
  {
    var k, b := StructureKey(a, sts[j].name), sts[j].linearThermalBridge;
    forall i | 0 <= i < |ps| && PairKey(ps[i]) == k ensures Bridges(cells[i]) == b * PairWeight(ps[i]) {
      PairOfGroup(sts, j, a, ps[i]);
    }
    SumForCorresponding(ps, PairKey, PairWeight, k, cells, CellKey, Bridges, k, b);
  }

  /** Per archetype and structure type, the summed linear_thermal_bridges column
      of cells that follow the pairs (as the structure cells do, by CellsOfPairs)
      is the type's linear thermal bridge times the archetype's total weight `g`. */
  lemma {:induction false} BridgesAreWeighted(data: seq<Record>, sts: seq<StructureType>, cells: seq<StructureCell>,
                                              j: nat, a: Archetype, g: real)
    requires j < |sts| && NameHeldOnce(sts, j) && CellsFollow(Pairs(data, sts), cells)
    requires GroupWeight(data, a) == g
    ensures SumFor(cells, CellKey, Bridges, StructureKey(a, sts[j].name)) == sts[j].linearThermalBridge * g
  {
    PairsFrom(data, sts);
    PairWeightsAreGroupWeights(data, sts, j, a);
    BridgeColumn(Pairs(data, sts), cells, sts, j, a, g);
  }

  /** Every archetype of the data has a group for every structure type among
      cells that follow the pairs. */
  lemma {:induction false} StructureGroupsPresent(data: seq<Record>, sts: seq<StructureType>, cells: seq<StructureCell>,
                                                  j: nat, a: Archetype)
    requires j < |sts| && NameHeldOnce(sts, j)
    requires CellsFollow(Pairs(data, sts), cells)
    requires a in KeysOf(data, ArchetypeOf)
    ensures StructureKey(a, sts[j].name) in KeysOf(cells, CellKey)
  {
    var ps := Pairs(data, sts);
    PairGroupsPresent(data, sts, j, a);
    var i :| 0 <= i < |ps| && PairKey(ps[i]) == StructureKey(a, sts[j].name);
    assert CellKey(cells[i]) == StructureKey(a, sts[j].name);
  }

  /** The aggregate the structure statistics report for a structure type and an
      archetype whose weights sum to 1 is that type's own linear thermal bridge. */
  lemma {:induction false} SharedBridgeAggregate(data: seq<Record>, sts: seq<StructureType>, sqrt: real -> real,
                                                 omega: real, depth: real, j: nat, a: Archetype)
    requires LayersPresent(data, sts) && UValuesComputable(data, sts, depth)
    requires UniqueNames(sts) && j < |sts|
    requires a in KeysOf(data, ArchetypeOf) && GroupWeight(data, a) == 1.0
    ensures StructureStatistics(data, sts, sqrt, omega, depth).Success?
    ensures StructureKey(a, sts[j].name) in StructureStatistics(data, sts, sqrt, omega, depth).value
    ensures StructureStatistics(data, sts, sqrt, omega, depth).value[StructureKey(a, sts[j].name)].linearThermalBridges
            == sts[j].linearThermalBridge
  {
    var cells := StructureCells(data, sts, sqrt, omega, depth);
    assert NameHeldOnce(sts, j);
    CellsOfPairs(data, sts, sqrt, omega, depth);
    BridgesAreWeighted(data, sts, cells, j, a, 1.0);
    StructureGroupsPresent(data, sts, cells, j, a);
  }


  // ---------------------------------------------------------------------------
  // Ventilation and fenestration statistics

  /** The five summed columns, each already multiplied by the row's weight. */
  datatype VentilationValues = VentilationValues(
    hruEfficiency: real,                      // HRU_efficiency
    infiltrationRate: real,                   // infiltration_rate_1_h
    totalNormalSolarEnergyTransmittance: real,
    ventilationRate: real,                    // ventilation_rate_1_h
    windowUValue: real                        // window_U_value_W_m2K
  )

  datatype VentilationCell = VentilationCell(key: Archetype, values: VentilationValues)

  function VentKey(c: VentilationCell): Archetype { c.key }
  function Hru(c: VentilationCell): real { c.values.hruEfficiency }
  function Infiltration(c: VentilationCell): real { c.values.infiltrationRate }
  function SolarTransmittance(c: VentilationCell): real { c.values.totalNormalSolarEnergyTransmittance }
  function VentilationRate(c: VentilationCell): real { c.values.ventilationRate }
  function WindowU(c: VentilationCell): real { c.values.windowUValue }

  /** The fenestration table's index: (glazing type, coated). */
  function FenestrationKey(r: Record): (string, string)
  {
    (r.building.glazingType, r.building.coated)
  }

  predicate FenestrationPresent(data: seq<Record>, fen: map<(string, string), Fenestration>)
  {
    forall i :: 0 <= i < |data| ==> FenestrationKey(data[i]) in fen
  }

  /** The first row whose window type is not in the fenestration table. */
  function MissingFenestration(data: seq<Record>, fen: map<(string, string), Fenestration>)
    : (e: Option<(string, string)>)
    ensures e.None? <==> FenestrationPresent(data, fen)
    ensures e.Some? ==> e.value !in fen && exists i :: 0 <= i < |data| && FenestrationKey(data[i]) == e.value
    decreases |data|
  {
    if data == [] then None
    else if FenestrationKey(data[0]) !in fen then Some(FenestrationKey(data[0]))
    else
      assert forall i :: 1 <= i < |data| ==> data[i] == data[1..][i - 1];
      MissingFenestration(data[1..], fen)
  }

  /** The glazing's normal solar energy transmittance times the window share
      not taken by the frame. */
  function TotalTransmittance(f: Fenestration): real
  {
    f.normalSolarTransmittance * (1.0 - f.frameAreaFraction)
  }

  /** Lines 550-588: the weighted cells of one row; the ventilation rates are the
      first row of the ventilation table. */
  function VentilationCellOf(r: Record, vent: Ventilation, fen: map<(string, string), Fenestration>)
    : VentilationCell
    requires FenestrationKey(r) in fen
  {
    var w := r.weight;
    var f := fen[FenestrationKey(r)];
    VentilationCell(ArchetypeOf(r),
      VentilationValues(w * vent.hruEfficiency, w * vent.infiltrationRate,
                        w * TotalTransmittance(f),
                        w * vent.ventilationRate, w * r.building.windowUValue))
  }

  function VentilationCells(data: seq<Record>, vent: Ventilation, fen: map<(string, string), Fenestration>)
    : seq<VentilationCell>
    requires FenestrationPresent(data, fen)
  {
    seq(|data|, i requires 0 <= i < |data| => VentilationCellOf(data[i], vent, fen))
  }

  /** Lines 541-607. A KeyError when a row's window type is not in the
      fenestration table; otherwise every archetype present gets the sum of its
      rows' cells. */
  function VentilationStatistics(data: seq<Record>, vent: Ventilation, fen: map<(string, string), Fenestration>)
    : (res: Result<map<Archetype, VentilationValues>, (string, string)>)
    ensures res.Failure? <==> !FenestrationPresent(data, fen)
    ensures res.Failure? ==> res.error !in fen && exists i :: 0 <= i < |data| && FenestrationKey(data[i]) == res.error
    ensures res.Success? ==>
      var cells := VentilationCells(data, vent, fen);
      && res.value.Keys == KeysOf(data, ArchetypeOf)
      && forall k :: k in res.value ==>
           res.value[k] == VentilationValues(
             SumFor(cells, VentKey, Hru, k), SumFor(cells, VentKey, Infiltration, k),
             SumFor(cells, VentKey, SolarTransmittance, k), SumFor(cells, VentKey, VentilationRate, k),
             SumFor(cells, VentKey, WindowU, k))
  {
    var missing := MissingFenestration(data, fen);
    if missing.Some? then Failure(missing.value)
    else
      var cells := VentilationCells(data, vent, fen);
      assert KeysOf(cells, VentKey) == KeysOf(data, ArchetypeOf) by {
        forall k | k in KeysOf(data, ArchetypeOf) ensures k in KeysOf(cells, VentKey) {
          var i :| 0 <= i < |data| && ArchetypeOf(data[i]) == k;
          assert VentKey(cells[i]) == k;
        }
      }
      var g1, g2, g3 := GroupSum(cells, VentKey, Hru), GroupSum(cells, VentKey, Infiltration),
                        GroupSum(cells, VentKey, SolarTransmittance);
      var g4, g5 := GroupSum(cells, VentKey, VentilationRate), GroupSum(cells, VentKey, WindowU);
      Success(map k | k in g1 :: VentilationValues(g1[k], g2[k], g3[k], g4[k], g5[k]))
  }

  /** Row i's cell is row i's own cell, in row i's archetype. */
  lemma {:induction false} VentilationCellsOfRows(data: seq<Record>, vent: Ventilation, fen: map<(string, string), Fenestration>)
    requires FenestrationPresent(data, fen)
    ensures var cells := VentilationCells(data, vent, fen);
            && |cells| == |data|
            && (forall i :: 0 <= i < |data| ==> cells[i] == VentilationCellOf(data[i], vent, fen))
            && (forall i :: 0 <= i < |data| ==> VentKey(cells[i]) == ArchetypeOf(data[i]))
  {
  }

  /** The aggregated columns of an archetype are the sums of its cells. */
  lemma {:induction false} VentilationEntry(data: seq<Record>, vent: Ventilation, fen: map<(string, string), Fenestration>, a: Archetype)
    requires FenestrationPresent(data, fen)
    requires a in KeysOf(data, ArchetypeOf)
    ensures VentilationStatistics(data, vent, fen).Success?
    ensures var cells := VentilationCells(data, vent, fen);
            var m := VentilationStatistics(data, vent, fen).value;
            && a in m
            && m[a].hruEfficiency == SumFor(cells, VentKey, Hru, a)
            && m[a].infiltrationRate == SumFor(cells, VentKey, Infiltration, a)
            && m[a].totalNormalSolarEnergyTransmittance == SumFor(cells, VentKey, SolarTransmittance, a)
            && m[a].ventilationRate == SumFor(cells, VentKey, VentilationRate, a)
            && m[a].windowUValue == SumFor(cells, VentKey, WindowU, a)
  {
  }

  /** A column whose cell i is row i's weight times `c` sums, per archetype, to
      `c` times the archetype's total weight `g`. */
  lemma {:induction false} ScaledColumn(data: seq<Record>, cells: seq<VentilationCell>, col: VentilationCell -> real,
                     a: Archetype, c: real, g: real)
    requires |cells| == |data|
    requires forall i :: 0 <= i < |data| ==> VentKey(cells[i]) == ArchetypeOf(data[i])
    requires forall i :: 0 <= i < |data| && ArchetypeOf(data[i]) == a ==> col(cells[i]) == Weight(data[i]) * c
    requires GroupWeight(data, a) == g
    ensures SumFor(cells, VentKey, col, a) == c * g
  {
    forall i | 0 <= i < |data| && ArchetypeOf(data[i]) == a
      ensures col(cells[i]) == c * Weight(data[i])
    {
      Commute(Weight(data[i]), c, col(cells[i]));
    }
    SumForCorresponding(data, ArchetypeOf, Weight, a, cells, VentKey, col, a, c);
  }

  lemma {:induction false} Commute(w: real, c: real, x: real)
    requires x == w * c
    ensures x == c * w
  {
  }

  /** The heat-recovery column of an archetype is the table's efficiency times
      the archetype's total weight `g`. */
  lemma {:induction false} HruColumn(data: seq<Record>, vent: Ventilation, fen: map<(string, string), Fenestration>,
                  a: Archetype, g: real)
    requires FenestrationPresent(data, fen)
    requires GroupWeight(data, a) == g
    ensures SumFor(VentilationCells(data, vent, fen), VentKey, Hru, a) == vent.hruEfficiency * g
  {
    var cells := VentilationCells(data, vent, fen);
    VentilationCellsOfRows(data, vent, fen);
    ScaledColumn(data, cells, Hru, a, vent.hruEfficiency, g);
  }

  /** The infiltration column of an archetype is the table's infiltration rate
      times the archetype's total weight `g`. */
  lemma {:induction false} InfiltrationColumn(data: seq<Record>, vent: Ventilation, fen: map<(string, string), Fenestration>,
                           a: Archetype, g: real)
    requires FenestrationPresent(data, fen)
    requires GroupWeight(data, a) == g
    ensures SumFor(VentilationCells(data, vent, fen), VentKey, Infiltration, a) == vent.infiltrationRate * g
  {
    var cells := VentilationCells(data, vent, fen);
    VentilationCellsOfRows(data, vent, fen);
    ScaledColumn(data, cells, Infiltration, a, vent.infiltrationRate, g);
  }

  /** The ventilation-rate column of an archetype is the table's ventilation
      rate times the archetype's total weight `g`. */
  lemma {:induction false} VentilationRateColumn(data: seq<Record>, vent: Ventilation, fen: map<(string, string), Fenestration>,
                              a: Archetype, g: real)
    requires FenestrationPresent(data, fen)
    requires GroupWeight(data, a) == g
    ensures SumFor(VentilationCells(data, vent, fen), VentKey, VentilationRate, a) == vent.ventilationRate * g
  {
    var cells := VentilationCells(data, vent, fen);
    VentilationCellsOfRows(data, vent, fen);
    ScaledColumn(data, cells, VentilationRate, a, vent.ventilationRate, g);
  }

  /** The global ventilation rates come out of the aggregation scaled by the
      archetype's total weight `g`, which is 1 for every archetype of the
      preprocessed data: each archetype then reports the table's own rates. */
  lemma {:induction false} VentilationRatesAreWeighted(data: seq<Record>, vent: Ventilation,
                                    fen: map<(string, string), Fenestration>, a: Archetype, g: real)
    requires FenestrationPresent(data, fen)
    requires a in KeysOf(data, ArchetypeOf)
    requires GroupWeight(data, a) == g
    ensures VentilationStatistics(data, vent, fen).Success?
    ensures var m := VentilationStatistics(data, vent, fen).value;
            && a in m
            && m[a].hruEfficiency == vent.hruEfficiency * g
            && m[a].infiltrationRate == vent.infiltrationRate * g
            && m[a].ventilationRate == vent.ventilationRate * g
  {
    VentilationEntry(data, vent, fen, a);
    HruColumn(data, vent, fen, a, g);
    InfiltrationColumn(data, vent, fen, a, g);
    VentilationRateColumn(data, vent, fen, a, g);
  }

  /** Summed over an archetype whose members share a window U-value `u`, the
      window U-value column is `u` times the archetype's total weight `g`. */
  lemma {:induction false} WindowUColumn(data: seq<Record>, vent: Ventilation, fen: map<(string, string), Fenestration>,
                      a: Archetype, u: real, g: real)
    requires FenestrationPresent(data, fen)
    requires forall i :: 0 <= i < |data| && ArchetypeOf(data[i]) == a ==> data[i].building.windowUValue == u
    requires GroupWeight(data, a) == g
    ensures SumFor(VentilationCells(data, vent, fen), VentKey, WindowU, a) == u * g
  {
    var cells := VentilationCells(data, vent, fen);
    VentilationCellsOfRows(data, vent, fen);
    ScaledColumn(data, cells, WindowU, a, u, g);
  }

  /** Summed over an archetype whose members share a fenestration row `f`, the
      solar transmittance column is f's total normal solar energy transmittance
      times the archetype's total weight `g`. */
  lemma {:induction false} SolarColumn(data: seq<Record>, vent: Ventilation, fen: map<(string, string), Fenestration>,
                    a: Archetype, f: Fenestration, g: real)
    requires FenestrationPresent(data, fen)
    requires forall i :: 0 <= i < |data| && ArchetypeOf(data[i]) == a ==> fen[FenestrationKey(data[i])] == f
    requires GroupWeight(data, a) == g
    ensures SumFor(VentilationCells(data, vent, fen), VentKey, SolarTransmittance, a)
            == TotalTransmittance(f) * g
  {
    var cells := VentilationCells(data, vent, fen);
    var t := TotalTransmittance(f);
    VentilationCellsOfRows(data, vent, fen);
    forall i | 0 <= i < |data| && ArchetypeOf(data[i]) == a
      ensures SolarTransmittance(cells[i]) == Weight(data[i]) * t
    {
      SolarCell(data[i], vent, fen, f, t);
    }
    ScaledColumn(data, cells, SolarTransmittance, a, t, g);
  }

  /** Members sharing a window (the same U-value and the same fenestration row)
      make the archetype's window columns those of the shared window, scaled by
      the archetype's total weight `g`. */
  lemma {:induction false} SharedWindowIsWeighted(data: seq<Record>, vent: Ventilation,
                               fen: map<(string, string), Fenestration>, a: Archetype,
                               u: real, f: Fenestration, g: real)
    requires FenestrationPresent(data, fen)
    requires a in KeysOf(data, ArchetypeOf)
    requires forall i :: 0 <= i < |data| && ArchetypeOf(data[i]) == a ==>
               data[i].building.windowUValue == u && fen[FenestrationKey(data[i])] == f
    requires GroupWeight(data, a) == g
    ensures VentilationStatistics(data, vent, fen).Success?
    ensures var m := VentilationStatistics(data, vent, fen).value;
            && a in m
            && m[a].windowUValue == u * g
            && m[a].totalNormalSolarEnergyTransmittance == TotalTransmittance(f) * g
  {
    VentilationEntry(data, vent, fen, a);
    WindowUColumn(data, vent, fen, a, u, g);
    SolarColumn(data, vent, fen, a, f, g);
  }

  lemma {:induction false} SolarCell(r: Record, vent: Ventilation, fen: map<(string, string), Fenestration>, f: Fenestration, g: real)
    requires FenestrationKey(r) in fen && fen[FenestrationKey(r)] == f
    requires g == TotalTransmittance(f)
    ensures SolarTransmittance(VentilationCellOf(r, vent, fen)) == Weight(r) * g
  {
  }
}
