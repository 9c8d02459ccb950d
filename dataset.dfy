/** The `AmBIENCeDataset` object: the lookup tables it is built with and the
    data frame `self.data`, which the constructor fills and `extrapolate`
    extends in place. */
module Dataset {
  import opened Wrappers
  import opened Records
  import opened Grouping
  import opened Preprocessing
  import opened Extrapolation
  import opened Dimensions
  import opened Statistics

  class AmbienceDataset {
    const structureTypes: seq<StructureType>
    const buildingTypes: map<string, BuildingTypeInfo>
    const shapefiles: map<string, ShapefileInfo>
    const interiorNodeDepth: real
    const periodOfVariations: real
    const fenestration: map<(string, string), Fenestration>
    const ventilation: Ventilation
    var data: seq<Record>

    /** What every state of the object keeps: each row's period label is the
        one its construction years give. */
    predicate Valid()
      reads this
    {
      PeriodsLabelled(data)
    }

    /** Lines 56-81 with `preprocess_data` (lines 108-177): the rows of the
        joined spreadsheets are cleaned in place column by column, then
        labelled, weighted and joined with the lookup tables. */
    constructor (joined: seq<Building>, structureTypes: seq<StructureType>,
                 buildingTypes: map<string, BuildingTypeInfo>, shapefiles: map<string, ShapefileInfo>,
                 interiorNodeDepth: real, periodOfVariations: real,
                 fenestration: map<(string, string), Fenestration>, ventilation: Ventilation,
                 stockYear: nat)
      requires WeightsDefined(joined)
      ensures Valid()
      ensures data == Preprocessed(joined, shapefiles, buildingTypes, stockYear)
      ensures this.structureTypes == structureTypes && this.buildingTypes == buildingTypes
      ensures this.shapefiles == shapefiles && this.fenestration == fenestration
      ensures this.ventilation == ventilation
      ensures this.interiorNodeDepth == interiorNodeDepth && this.periodOfVariations == periodOfVariations
    {
      var a := new Building[|joined|](i requires 0 <= i < |joined| => joined[i]);
      NormalizePrevalencies(a);
      DeriveHeatSources(a);
      assert a[..] == CleanedAll(joined);
      CleaningKeepsWeightsDefined(joined);
      this.structureTypes := structureTypes;
      this.buildingTypes := buildingTypes;
      this.shapefiles := shapefiles;
      this.interiorNodeDepth := interiorNodeDepth;
      this.periodOfVariations := periodOfVariations;
      this.fenestration := fenestration;
      this.ventilation := ventilation;
      data := Assemble(a[..], shapefiles, buildingTypes, stockYear);
      AssembledPeriodsLabelled(a[..], shapefiles, buildingTypes, stockYear);
    }

    /** Lines 200-226: one frame per mapping, each a renamed and rescaled copy
        of the source location's rows of the current data, appended to the
        current data. `year` is accepted and not used, as in the source. */
    method Extrapolate(mappings: seq<Mapping>, tag: string, year: nat)
      requires Valid()
      modifies this
      ensures Valid()
      ensures data == old(data) + Clones(old(data), mappings, tag, shapefiles)
    {
      var dataList: seq<seq<Record>> := [data];
      assert Flatten(dataList) == data by {
        assert dataList[..0] == [];
      }
      for k := 0 to |mappings|
        invariant Flatten(dataList) == data + Clones(data, mappings[..k], tag, shapefiles)
      {
        var df := ClonesOf(data, mappings[k], tag, shapefiles);
        assert (dataList + [df])[..|dataList|] == dataList;
        assert mappings[..k + 1][..k] == mappings[..k];
        dataList := dataList + [df];
      }
      assert mappings[..|mappings|] == mappings;
      ExtrapolationKeepsPeriodLabels(data, mappings, tag, shapefiles);
      data := Flatten(dataList);
    }

    /** Lines 286-344 on the current data: one entry per (stock, type, period,
        location, heating system) of the surviving rows, counting their
        buildings. */
    function StockStatistics(): (m: map<StockKey, StockStatistic>)
      reads this
      ensures m.Keys == KeysOf(StockRows(data), RowKey)
      ensures forall k :: k in m ==> m[k].numberOfBuildings == SumFor(StockRows(data), RowKey, RowBuildings, k)
    {
      BuildingStockStatistics(data)
    }

    /** Lines 468-539 on the current data and tables, with the angular
        frequency 2π / `period_of_variations` of line 391; `pi` stands for
        `np.pi`. A zero period raises in the source. */
    function StructureStatistics(sqrt: real -> real, pi: real): (res: Result<map<StructureKey, StructureValues>, string>)
      reads this
      requires periodOfVariations != 0.0
      requires UValuesComputable(data, structureTypes, interiorNodeDepth)
      ensures res.Failure? <==> !LayersPresent(data, structureTypes)
      ensures res.Success? ==>
        res.value.Keys == KeysOf(StructureCells(data, structureTypes, sqrt, 2.0 * pi / periodOfVariations,
                                                interiorNodeDepth), CellKey)
    {
      Statistics.StructureStatistics(data, structureTypes, sqrt, 2.0 * pi / periodOfVariations, interiorNodeDepth)
    }

    /** Lines 541-607 on the current data and tables: one entry per archetype,
        unless a row's window type is missing from the fenestration table. */
    function VentilationStatistics(): (res: Result<map<Archetype, VentilationValues>, (string, string)>)
      reads this
      ensures res.Failure? <==> !FenestrationPresent(data, fenestration)
      ensures res.Success? ==> res.value.Keys == KeysOf(data, ArchetypeOf)
    {
      Statistics.VentilationStatistics(data, ventilation, fenestration)
    }
  }
}
