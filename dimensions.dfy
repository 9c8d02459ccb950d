/** `AmBIENCeDataset.building_periods` and `building_stocks`: the projections of
    the rows onto a few columns with the duplicate rows dropped. */
module Dimensions {
  import opened Wrappers
  import opened Records
  import opened Grouping
  import opened Text
  import opened Preprocessing
  import opened Extrapolation

  // ---------------------------------------------------------------------------
  // building_period.csv

  /** One row of the building period table: the label and the two bounds. */
  datatype PeriodRow = PeriodRow(period: string, periodStart: nat, periodEnd: nat)

  function PeriodRowOf(r: Record): PeriodRow
  {
    PeriodRow(r.period, r.building.yearLow, r.building.yearHigh)
  }

  /** The columns `drop_duplicates` compares: the label is already the index by
      then, so only the two bounds. */
  function Span(p: PeriodRow): (nat, nat) { (p.periodStart, p.periodEnd) }

  function PeriodRows(data: seq<Record>): (ps: seq<PeriodRow>)
    ensures |ps| == |data|
  {
    seq(|data|, i requires 0 <= i < |data| => PeriodRowOf(data[i]))
  }

  /** Lines 259-284: one row per distinct (start, end), the first one met. */
  function BuildingPeriods(data: seq<Record>): seq<PeriodRow>
  {
    DedupBy(PeriodRows(data), Span)
  }

  /** Every row's label is built from its construction years. */
  predicate PeriodsLabelled(data: seq<Record>)
  {
    forall i :: 0 <= i < |data| ==> data[i].period == PeriodLabel(data[i].building.yearLow, data[i].building.yearHigh)
  }

  /** Every construction period of the data has a row of the table. */
  lemma {:induction false} BuildingPeriodsCover(data: seq<Record>, i: nat)
    requires i < |data|
    ensures exists j :: 0 <= j < |BuildingPeriods(data)|
                        && Span(BuildingPeriods(data)[j]) == (data[i].building.yearLow, data[i].building.yearHigh)
  {
    var ps := PeriodRows(data);
    var bp := BuildingPeriods(data);
    assert Span(ps[i]) in KeysOf(ps, Span);
    assert Span(ps[i]) in KeysOf(bp, Span);
    var j :| 0 <= j < |bp| && Span(bp[j]) == Span(ps[i]);
  }

  /** When the labels are built from the years, distinct spans have distinct
      labels, so the table's index has no duplicates and each label is the one
      its bounds give. */
  lemma {:induction false} PeriodIndexUnique(data: seq<Record>)
    requires PeriodsLabelled(data)
    ensures var bp := BuildingPeriods(data);
            && (forall j :: 0 <= j < |bp| ==> bp[j].period == PeriodLabel(bp[j].periodStart, bp[j].periodEnd))
            && (forall j, j' :: 0 <= j < j' < |bp| ==> bp[j].period != bp[j'].period)
  {
    var bp := BuildingPeriods(data);
    var ps := PeriodRows(data);
    forall j | 0 <= j < |bp| ensures bp[j].period == PeriodLabel(bp[j].periodStart, bp[j].periodEnd) {
      assert bp[j] in ps;
    }
    forall j, j' | 0 <= j < j' < |bp| ensures bp[j].period != bp[j'].period {
      assert Span(bp[j]) != Span(bp[j']);
      if bp[j].period == bp[j'].period {
        PeriodLabelInjective(bp[j].periodStart, bp[j].periodEnd, bp[j'].periodStart, bp[j'].periodEnd);
      }
    }
  }

  /** The preprocessed rows carry labels built from their years. */
  lemma {:induction false} AssembledPeriodsLabelled(bs: seq<Building>, shapefiles: map<string, ShapefileInfo>,
                                                   types: map<string, BuildingTypeInfo>, year: nat)
    requires WeightsDefined(bs)
    ensures PeriodsLabelled(Assemble(bs, shapefiles, types, year))
  {
  }

  /** Extrapolation copies the label and the years together, so it keeps the
      labels built from the years. */
  lemma {:induction false} ExtrapolationKeepsPeriodLabels(data: seq<Record>, ms: seq<Mapping>, tag: string,
                                                         shapefiles: map<string, ShapefileInfo>)
    requires PeriodsLabelled(data)
    ensures PeriodsLabelled(Extrapolated(data, ms, tag, shapefiles))
  {
    var e := Extrapolated(data, ms, tag, shapefiles);
    var cs := Clones(data, ms, tag, shapefiles);
    forall k | 0 <= k < |e| ensures e[k].period == PeriodLabel(e[k].building.yearLow, e[k].building.yearHigh) {
      if k >= |data| {
        ClonesPeriodLabelled(data, ms, tag, shapefiles, k - |data|);
        assert e[k] == cs[k - |data|];
      } else {
        assert e[k] == data[k];
      }
    }
  }

  lemma {:induction false} ClonesPeriodLabelled(data: seq<Record>, ms: seq<Mapping>, tag: string,
                                               shapefiles: map<string, ShapefileInfo>, k: nat)
    requires PeriodsLabelled(data)
    requires k < |Clones(data, ms, tag, shapefiles)|
    ensures var c := Clones(data, ms, tag, shapefiles)[k];
            c.period == PeriodLabel(c.building.yearLow, c.building.yearHigh)
    decreases |ms|
  {
    var init, m := ms[..|ms| - 1], ms[|ms| - 1];
    var ci := Clones(data, init, tag, shapefiles);
    if k < |ci| {
      ClonesPeriodLabelled(data, init, tag, shapefiles, k);
    } else {
      ClonesComeFromSource(data, m, tag, shapefiles, k - |ci|);
    }
  }

  // ---------------------------------------------------------------------------
  // building_stocks.csv

  /** One row of the building stock table; a missing join is a missing cell. */
  datatype StockDimension = StockDimension(
    buildingStock: Option<string>,
    stockYear: nat,
    shapefilePath: Option<string>,
    rasterWeightPath: Option<string>,
    notes: Option<string>
  )

  function StockDimensionOf(r: Record): StockDimension
  {
    StockDimension(
      r.buildingStock, r.stockYear,
      if r.shapefile.Some? then Some(r.shapefile.value.shapefilePath) else None,
      if r.typeInfo.Some? then Some(r.typeInfo.value.rasterWeightPath) else None,
      if r.shapefile.Some? then Some(r.shapefile.value.notes) else None)
  }

  function StockDimensions(data: seq<Record>): (ds: seq<StockDimension>)
    ensures |ds| == |data|
  {
    seq(|data|, i requires 0 <= i < |data| => StockDimensionOf(data[i]))
  }

  /** Lines 228-257: the distinct rows, each the first one met. */
  function BuildingStocks(data: seq<Record>): seq<StockDimension>
  {
    Dedup(StockDimensions(data))
  }

  /** Rows that share a building stock label agree on the other four columns. */
  predicate LabelDetermines(data: seq<Record>)
  {
    forall i, j :: 0 <= i < |data| && 0 <= j < |data| && data[i].buildingStock == data[j].buildingStock ==>
      StockDimensionOf(data[i]) == StockDimensionOf(data[j])
  }

  /** The table has one row per distinct row of the data, no more and no fewer. */
  lemma {:induction false} BuildingStocksCover(data: seq<Record>)
    ensures var t := BuildingStocks(data);
            && (forall i :: 0 <= i < |data| ==> StockDimensionOf(data[i]) in t)
            && (forall d :: d in t ==> exists i :: 0 <= i < |data| && StockDimensionOf(data[i]) == d)
            && Distinct(t)
  {
    var ds := StockDimensions(data);
    forall i | 0 <= i < |data| ensures StockDimensionOf(data[i]) in BuildingStocks(data) {
      assert ds[i] in ds;
    }
    forall d | d in BuildingStocks(data) ensures exists i :: 0 <= i < |data| && StockDimensionOf(data[i]) == d {
      var i :| 0 <= i < |ds| && ds[i] == d;
    }
  }

  /** When the label determines the other columns, the label is a key: no two
      rows of the table share one. */
  lemma {:induction false} StockIndexUnique(data: seq<Record>)
    requires LabelDetermines(data)
    ensures var t := BuildingStocks(data);
            forall j, j' :: 0 <= j < j' < |t| ==> t[j].buildingStock != t[j'].buildingStock
  {
    var t := BuildingStocks(data);
    var ds := StockDimensions(data);
    forall j, j' | 0 <= j < j' < |t| ensures t[j].buildingStock != t[j'].buildingStock {
      assert t[j] in t && t[j'] in t;
      var i :| 0 <= i < |ds| && ds[i] == t[j];
      var i' :| 0 <= i' < |ds| && ds[i'] == t[j'];
      assert t[j] != t[j'];
      assert ds[i] == StockDimensionOf(data[i]) && ds[i'] == StockDimensionOf(data[i']);
    }
  }
}
