/** The entities of the AmBIENCe data set after the envelope and heating-system
    tables have been joined on the reference building code. */
module Records {
  import opened Wrappers

  /** Material and insulation properties of one structure of a reference building:
      the group of columns "REFERENCE BUILDING <mapping> ..." of one row. */
  datatype Layer = Layer(
    thickness: real,                // MATERIAL THICKNESS (m)
    density: real,                  // MATERIAL DENSITY (kg/m3)
    specificHeat: real,             // MATERIAL SPECIFIC HEAT CAPACITY (J/kg/K)
    conductivity: real,             // MATERIAL THERMAL CONDUCTIVITY (W/m/K)
    insulationThickness: real,
    insulationDensity: real,
    insulationSpecificHeat: real,
    insulationConductivity: real,
    uValue: real                    // design U-VALUE (W/m2/K)
  )

  /** One of the three ranked heating systems of a reference building.
      `heatSource` is a derived column: its value in the joined input is overwritten. */
  datatype HeatingSystem = HeatingSystem(
    fuelUsed: Option<string>,
    dimensions: Option<string>,
    prevalency: Option<real>,
    heatSource: Option<string>
  )

  /** The three heating-system slots of a row ("HEATING SYSTEM 1/2/3 ..."). */
  type HeatingSlots = s: seq<HeatingSystem> | |s| == 3
    witness [HeatingSystem(None, None, None, None),
             HeatingSystem(None, None, None, None),
             HeatingSystem(None, None, None, None)]

  /** One row of the joined data: a reference building (a material combination of
      a building type, construction period and country). */
  datatype Building = Building(
    code: string,                   // REFERENCE BUILDING CODE
    buildingType: string,
    locationId: string,
    yearLow: nat,                   // CONSTRUCTION YEAR LOW
    yearHigh: nat,                  // CONSTRUCTION YEAR HIGH
    floorArea: real,                // average_gross_floor_area_m2_per_building
    numberOfBuildings: real,
    layers: map<string, Layer>,     // keyed by a structure type's `mapping`
    heating: HeatingSlots,
    glazingType: string,            // WINDOW GLAZING TYPE
    coated: string,                 // WINDOW COATED
    windowUValue: real              // WINDOW U-VALUE (W/m2/K)
  )

  /** The columns joined from the shapefile mappings, by country. */
  datatype ShapefileInfo = ShapefileInfo(shapefilePath: string, notes: string)

  /** The columns joined from the building type mappings, by building type. */
  datatype BuildingTypeInfo = BuildingTypeInfo(category: string, rasterWeightPath: string)

  /** A preprocessed row: a building plus the columns the pipeline derives for it. */
  datatype Record = Record(
    building: Building,
    period: string,                 // building_period
    weight: real,                   // material_combination_weight
    shapefile: Option<ShapefileInfo>,
    typeInfo: Option<BuildingTypeInfo>,
    stockYear: nat,                 // building_stock_year
    buildingStock: Option<string>   // missing when the category is missing
  )

  /** The archetype a row belongs to: (building_type, building_period, location_id). */
  datatype Archetype = Archetype(buildingType: string, period: string, location: string)

  function ArchetypeOf(r: Record): Archetype
  {
    Archetype(r.building.buildingType, r.period, r.building.locationId)
  }

  function Weight(r: Record): real { r.weight }

  function NumberOfBuildings(r: Record): real { r.building.numberOfBuildings }

  function LocationOf(r: Record): string { r.building.locationId }

  /** A row of the structure type table. */
  datatype StructureType = StructureType(
    name: string,                   // the table's index, e.g. "base_floor"
    mapping: string,                // which Layer of a row applies
    isInternal: bool,
    interiorResistance: real,       // interior_resistance_m2K_W
    exteriorResistance: real,       // exterior_resistance_m2K_W
    linearThermalBridge: real       // linear_thermal_bridge_W_mK
  )

  /** A row of the fenestration table, keyed by (glazing type, coated). */
  datatype Fenestration = Fenestration(normalSolarTransmittance: real, frameAreaFraction: real)

  /** The first row of the ventilation table: global rates. */
  datatype Ventilation = Ventilation(hruEfficiency: real, infiltrationRate: real, ventilationRate: real)
}
