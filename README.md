# AmBIENCe2ABM derivation pipeline

A Dafny model of the derivation pipeline of `AmBIENCeDataset` in
`src/ambience2abm/process_ambience_data.py`. The pipeline turns the
AmBIENCe reference-building data into the statistics tables that
ArchetypeBuildingModel.jl reads.

A reference building is one material combination of a building type, a
construction period and a country. The pipeline:

- normalises each row's three heating-system prevalencies and derives each
  heating system's heat source;
- labels each row's construction period;
- weights each row by its share of the floor area of its archetype, where
  an archetype is (building type, building period, location);
- optionally clones countries into new countries (`extrapolate`);
- computes per structure the effective thermal mass (effective thickness
  method, EN ISO 13786:2017, Annex C.2.4) and four U-values. The base floor
  uses Kissock's slab-on-grade ground model (ASHRAE 2013);
- aggregates everything into three tables by group-by and sum. It also
  projects the rows onto two deduplicated dimension tables: building
  stocks and building periods.

Modules, one per file:

- `Wrappers`: `Option` and `Result`.
- `Records`: the entities. A row of the joined spreadsheets is a
  `Building`; a preprocessed row is a `Record`; the lookup tables are
  datatypes. A missing (NaN) cell is `None`.
- `Text`: decimal rendering of years, the period label `"<low>-<high>"`,
  and Python's `str.replace`.
- `Grouping`: group-by-and-sum. There is a per-key sum `SumFor`, and a
  fold `GroupSum` proved equal to it key by key. Also conservation of
  totals through the group-by, and `drop_duplicates`.
- `Preprocessing`: `preprocess_data`. Normalisation and the heat-source
  derivation are in-place column loops over an `array<Building>`, proved
  against per-row functions. Weighting, joins and the stock label are
  functions on sequences.
- `Physics`: `calculate_weighted_effective_thermal_mass` and
  `calculate_U_values`, on one layer and one structure type.
- `Statistics`: the three `calculate_*_statistics` methods.
- `Extrapolation`: the value semantics of `extrapolate`.
- `Dimensions`: `building_periods` and `building_stocks`.
- `Dataset`: the `AmbienceDataset` class. Its constructor runs the
  in-place preprocessing. Its `Extrapolate` method builds the list of
  frames in a loop and reassigns `data`. Its three statistics functions
  read the current `data` and the tables the object holds.

Where the code and its design description disagree, the model follows the
code:

- `extrapolate` takes a `year` argument and never reads it. Each clone's
  label uses the row's own `building_stock_year` column.
- `extrapolate` does not recompute `material_combination_weight`. Clones
  keep their source rows' weights. After extrapolation an archetype weighs
  its old weight plus the weights of the same archetype in the source
  country of every mapping into its country (`ExtrapolatedWeights`).
  An archetype of a country that had no rows and that one mapping targets
  weighs what it weighs in the source country, so it sums to 1 when the
  source archetype does (`FreshTargetKeepsWeights`). An archetype that
  already summed to 1, in a country that one mapping targets from a source
  archetype that also sums to 1, sums to 2 (`ExistingTargetDoublesWeight`).
- `building_periods` sets the index before `drop_duplicates`. Rows are
  therefore deduplicated on (start, end) only, not on the label.

## Model

| member | source | states |
|---|---|---|
| Preprocessing.NormalizePrevalencies | src/ambience2abm/process_ambience_data.py:127-130 | the in-place column loop leaves every row as `NormalizedPrevalencies` of the old row: each present prevalency divided by the row's total of present prevalencies |
| Preprocessing.RowTotals | src/ambience2abm/process_ambience_data.py:128 | a fresh array holding each row's sum of present prevalencies |
| Preprocessing.DivideColumn | src/ambience2abm/process_ambience_data.py:129-130 | one pass of the column loop divides slot c of every row by that row's total and changes nothing else |
| Preprocessing.PartlyNormalizedComplete | src/ambience2abm/process_ambience_data.py:129-130 | dividing the three columns one after another gives the row-level normalisation |
| Preprocessing.NormalizedSumsToOne | src/ambience2abm/process_ambience_data.py:127-130 | when the row total is non-zero, the normalised prevalencies sum to 1 |
| Preprocessing.NormalizedShare | src/ambience2abm/process_ambience_data.py:129-130 | a slot is present after normalisation iff it was before, and the share times the old total is the old value |
| Preprocessing.NormalizedSlot | src/ambience2abm/process_ambience_data.py:129-130 | each normalised slot is the old value divided by the total; presence is kept in both directions |
| Preprocessing.ZeroTotalLosesAllPrevalencies | src/ambience2abm/process_ambience_data.py:128-130 | a zero row total makes all three prevalencies missing, as 0/0 is NaN |
| Preprocessing.NormalizationIdempotent | src/ambience2abm/process_ambience_data.py:127-130 | normalising twice gives the same as normalising once |
| Preprocessing.NormalizationOnlyTouchesPrevalencies | src/ambience2abm/process_ambience_data.py:129-130 | every other column of the row, and every other field of each slot, is unchanged |
| Preprocessing.DeriveHeatSources | src/ambience2abm/process_ambience_data.py:132-137 | the in-place loop over the three slots leaves every row as `WithHeatSources` of the old row |
| Preprocessing.CopyFuelColumn | src/ambience2abm/process_ambience_data.py:136 | slot c's heat source column becomes its fuel-used column in every row |
| Preprocessing.MarkDistrictColumn | src/ambience2abm/process_ambience_data.py:137 | rows whose slot c dimensions are "District" get heat source "District"; other rows are unchanged |
| Preprocessing.PartlyDerivedComplete | src/ambience2abm/process_ambience_data.py:135-137 | running the copy and the override for slots 0, 1, 2 in turn gives the row-level derivation |
| Preprocessing.HeatSourceRule | src/ambience2abm/process_ambience_data.py:132-137 | the heat source is "District" iff dimensions or fuel say "District"; otherwise it is the fuel used; no other column changes |
| Preprocessing.MaterialCombinationWeights | src/ambience2abm/process_ambience_data.py:146-159 | one weight per row: its floor area over the summed floor area of its archetype |
| Preprocessing.GroupAreaOfMembers | src/ambience2abm/process_ambience_data.py:153-155 | the group total is the sum of the floor areas of exactly the group's members |
| Preprocessing.WeightIsLocal | src/ambience2abm/process_ambience_data.py:146-159 | a row's weight depends only on the members of its own group |
| Preprocessing.SharesSumToOne | src/ambience2abm/process_ambience_data.py:156-159 | floor-area shares of a group with non-zero total area sum to 1 |
| Preprocessing.Assemble | src/ambience2abm/process_ambience_data.py:139-177 | one record per row, keeping the row and its archetype, with the weight defined by the group's floor area |
| Preprocessing.AssembledWeightsSumToOne | src/ambience2abm/process_ambience_data.py:146-159 | for every archetype present, the assembled weights of its members sum to 1 |
| Preprocessing.CleaningKeepsArchetype | src/ambience2abm/process_ambience_data.py:126-137 | normalisation and heat-source derivation keep a row's archetype and floor area |
| Preprocessing.CleaningKeepsGroupAreas | src/ambience2abm/process_ambience_data.py:126-159 | so the group floor-area totals are the same before and after cleaning |
| Preprocessing.CleaningKeepsWeightsDefined | src/ambience2abm/process_ambience_data.py:126-159 | non-zero group areas stay non-zero through cleaning |
| Preprocessing.PreprocessedWeightsSumToOne | src/ambience2abm/process_ambience_data.py:108-177 | in the frame `preprocess_data` returns, every archetype's weights sum to 1 |
| Preprocessing.PreprocessedRows | src/ambience2abm/process_ambience_data.py:108-177 | one record per joined row, holding the cleaned row and the label built from its two years |
| Text.NatToString | src/ambience2abm/process_ambience_data.py:143 | `str` of a year is a non-empty string of decimal digits |
| Text.ParseNatToString | src/ambience2abm/process_ambience_data.py:143 | the rendering of a year reads back as that year |
| Text.NatToStringInjective | src/ambience2abm/process_ambience_data.py:143 | distinct years render differently |
| Text.PeriodLabelInjective | src/ambience2abm/process_ambience_data.py:139-144 | the `"<low>-<high>"` label determines both years |
| Text.ReplaceAll | src/ambience2abm/process_ambience_data.py:206-208 | replacing a pattern by itself leaves the string unchanged |
| Text.ReplaceWithoutOccurrence | src/ambience2abm/process_ambience_data.py:206-208 | a non-empty pattern that does not occur leaves the string unchanged |
| Text.ReplaceLeftmost | src/ambience2abm/process_ambience_data.py:206-208 | the leftmost occurrence of a non-empty pattern is replaced, the text before it is kept, and replacing goes on after it |
| Text.ReplaceRepeated | src/ambience2abm/process_ambience_data.py:206-208 | k back-to-back copies of the pattern become k copies of the replacement |
| Physics.EffectiveThermalMassSquared | src/ambience2abm/process_ambience_data.py:387-395 | the squared effective thermal mass lies between 0 and shc² |
| Physics.EffectiveThermalMassBounds | src/ambience2abm/process_ambience_data.py:370-395 | the effective thermal mass m is between 0 and abs(shc), and m²·(1 + ω²·shc²·R²) = shc² |
| Physics.EffectiveThermalMassMonotone | src/ambience2abm/process_ambience_data.py:387-395 | a larger absolute areal heat capacity gives a larger or equal effective thermal mass |
| Physics.ShareMonotone | src/ambience2abm/process_ambience_data.py:387-395 | y/(1 + c·y) is monotone in y ≥ 0 for c ≥ 0, so the squared mass grows with shc² |
| Physics.EffectiveThermalMassLimit | src/ambience2abm/process_ambience_data.py:387-395 | the effective thermal mass falls short of abs(shc) by at most the damping term, and equals abs(shc) when ω·shc·R = 0 |
| Physics.InsulationTerm | src/ambience2abm/process_ambience_data.py:370-385 | the insulation term, 0.5·thickness·density·specific heat, enters the areal heat capacity exactly for structures that are not internal |
| Physics.UValueBranches | src/ambience2abm/process_ambience_data.py:428-466 | a ground U of 0 for internal and ambient-air structures and an ambient-air U of 0 for the base floor; the other U-values are non-zero; 1/total = 1/interior + 1/(the other path) |
| Physics.SeriesConductance | src/ambience2abm/process_ambience_data.py:438 | resistances in series: the total conductance's reciprocal is the sum of the two reciprocals |
| Physics.TotalUValueTelescopes | src/ambience2abm/process_ambience_data.py:429-466 | the interior and exterior resistances telescope to the material, insulation and surface resistances in series; the base floor's total is Kissock's ground conductance of the floor resistance |
| Physics.TotalUValueIndependentOfNodeDepth | src/ambience2abm/process_ambience_data.py:429-466 | the total U-value does not depend on `interior_node_depth` |
| Physics.GroundExceedsFloor | src/ambience2abm/process_ambience_data.py:445-451 | for a positive floor resistance the ground model is defined and its resistance exceeds the floor's |
| Physics.InternalResistancesPositive | src/ambience2abm/process_ambience_data.py:428-438 | with physical inputs, both resistances of an internal structure are positive |
| Physics.OuterResistancesPositive | src/ambience2abm/process_ambience_data.py:439-466 | with physical inputs, the interior resistance is positive and at most the floor resistance, and the exterior resistance is at least the exterior surface resistance |
| Physics.PhysicalUValues | src/ambience2abm/process_ambience_data.py:397-466 | physical inputs make every division defined, with positive U-values on the structure's paths and 0 on the others |
| Statistics.StockRowsTotal | src/ambience2abm/process_ambience_data.py:296-328 | the surviving record × heating system rows carry, in total, every record's counted buildings |
| Statistics.RecordStockRowsTotal | src/ambience2abm/process_ambience_data.py:296-328 | one record's rows carry its number of buildings times each present prevalency, summed over its slots |
| Statistics.AggregateStock | src/ambience2abm/process_ambience_data.py:329-343 | one entry per key of the rows; its building count is the sum over that key's rows |
| Statistics.MeanFloorArea | src/ambience2abm/process_ambience_data.py:341 | each entry's floor area is the mean over at least one row of its key |
| Statistics.StockCountsConserved | src/ambience2abm/process_ambience_data.py:296-344 | the table's building counts add up to the counted buildings of the data |
| Statistics.FullyCounted | src/ambience2abm/process_ambience_data.py:303-307 | a record whose slots all survive `dropna` counts its buildings times its prevalency total |
| Statistics.BuildingCountsConserved | src/ambience2abm/process_ambience_data.py:296-344 | with normalised prevalencies and no dropped slot, the table's counts add up to the data's number of buildings |
| Statistics.SharedFloorArea | src/ambience2abm/process_ambience_data.py:341 | rows of a key that share a floor area average to that floor area |
| Statistics.MissingLayer | src/ambience2abm/process_ambience_data.py:367-426 | no error iff every row has every structure type's layer; an error names a layer a row lacks |
| Statistics.StructureStatistics | src/ambience2abm/process_ambience_data.py:477-539 | fails iff a layer is missing; otherwise one entry per (archetype, structure type), each column the sum over that key's weighted cells |
| Statistics.PairsFrom | src/ambience2abm/process_ambience_data.py:507-509 | every record × structure type pair comes from the data and the table |
| Statistics.CellsOfPairs | src/ambience2abm/process_ambience_data.py:480-506 | cell i belongs to pair i's key and carries its weight times the thermal bridge |
| Statistics.PairWeightsAreGroupWeights | src/ambience2abm/process_ambience_data.py:485-509 | the pairs of a structure type and an archetype weigh what the archetype's records weigh |
| Statistics.BridgesAreWeighted | src/ambience2abm/process_ambience_data.py:500-538 | the summed bridge column of a group is the type's linear thermal bridge times the archetype's total weight |
| Statistics.StructureGroupsPresent | src/ambience2abm/process_ambience_data.py:507-527 | every archetype of the data has a group for every structure type |
| Statistics.SharedBridgeAggregate | src/ambience2abm/process_ambience_data.py:477-539 | for an archetype whose weights sum to 1, the reported linear thermal bridges equal the type's own value |
| Statistics.MissingFenestration | src/ambience2abm/process_ambience_data.py:562-578 | no error iff every row's (glazing type, coated) key is in the fenestration table |
| Statistics.VentilationStatistics | src/ambience2abm/process_ambience_data.py:550-607 | fails iff a fenestration key is missing; otherwise one entry per archetype, each column the sum over that archetype's weighted cells |
| Statistics.VentilationEntry | src/ambience2abm/process_ambience_data.py:597-606 | every archetype of the data has an entry, and each of its five columns is that group's sum |
| Statistics.HruColumn | src/ambience2abm/process_ambience_data.py:557-558 | a group's summed HRU column is the global efficiency times the group's total weight |
| Statistics.InfiltrationColumn | src/ambience2abm/process_ambience_data.py:559-560 | a group's summed infiltration column is the global rate times the group's total weight |
| Statistics.VentilationRateColumn | src/ambience2abm/process_ambience_data.py:579-580 | a group's summed ventilation-rate column is the global rate times the group's total weight |
| Statistics.VentilationRatesAreWeighted | src/ambience2abm/process_ambience_data.py:550-607 | the table's three global-rate columns for an archetype are the rates times its total weight |
| Statistics.WindowUColumn | src/ambience2abm/process_ambience_data.py:581-582 | members sharing a window U-value sum to that value times the group's total weight |
| Statistics.SolarCell | src/ambience2abm/process_ambience_data.py:561-578 | a row's solar column is its weight times normal transmittance × (1 − frame fraction) |
| Statistics.SolarColumn | src/ambience2abm/process_ambience_data.py:561-578 | members sharing a fenestration row sum to its net transmittance times the group's total weight |
| Statistics.SharedWindowIsWeighted | src/ambience2abm/process_ambience_data.py:550-607 | the table's window U and solar columns for such an archetype are those values times its total weight |
| Extrapolation.CloneFields | src/ambience2abm/process_ambience_data.py:201-224 | a clone is in the target country, its code has source replaced by target, its count is scaled by the coefficient, its shapefile comes from the target, and its label is rebuilt from the tag; its weight, every other field and the archetype up to the location are the source row's |
| Extrapolation.CodeWithoutSourceUnchanged | src/ambience2abm/process_ambience_data.py:206-208 | a code that does not contain the source keeps its value |
| Extrapolation.CodePrefixRenamed | src/ambience2abm/process_ambience_data.py:206-208 | a code that starts with the source country starts with the target country in the clone, the rest replaced in turn |
| Extrapolation.ClonesOf | src/ambience2abm/process_ambience_data.py:201-224 | no more clones than rows, all of them in the target country |
| Extrapolation.ClonesComeFromSource | src/ambience2abm/process_ambience_data.py:205 | every clone is `CloneFor` of some row of the source country |
| Extrapolation.SourceRowsAreCloned | src/ambience2abm/process_ambience_data.py:205 | every row of the source country has its clone among the clones |
| Extrapolation.CloneCount | src/ambience2abm/process_ambience_data.py:205 | there are exactly as many clones as rows of the source country |
| Extrapolation.AbsentSourceContributesNothing | src/ambience2abm/process_ambience_data.py:205 | a source country with no rows yields no clones |
| Extrapolation.ClonedBuildingCount | src/ambience2abm/process_ambience_data.py:222-224 | the clones hold the coefficient times the source country's number of buildings |
| Extrapolation.ClonedWeights | src/ambience2abm/process_ambience_data.py:200-225 | clones of an archetype weigh what the source country's same archetype weighs, and nothing in other countries |
| Extrapolation.ClonesAtTargets | src/ambience2abm/process_ambience_data.py:201-225 | every appended row is in the target country of some mapping |
| Extrapolation.ClonesWeight | src/ambience2abm/process_ambience_data.py:201-225 | the weight all clones bring to an archetype is the weight of its source archetype, summed over the mappings into its country |
| Extrapolation.ExtrapolatedWeights | src/ambience2abm/process_ambience_data.py:200-226 | after extrapolation an archetype weighs its old weight plus what the mappings bring |
| Extrapolation.UniqueTargetWeight | src/ambience2abm/process_ambience_data.py:201-225 | a country that only one mapping targets receives exactly that source archetype's weight |
| Extrapolation.NoTargetWeight | src/ambience2abm/process_ambience_data.py:201-225 | a country no mapping targets receives nothing |
| Extrapolation.FreshTargetKeepsWeights | src/ambience2abm/process_ambience_data.py:200-226 | a new country targeted once has the weights of its source archetype, so they sum to 1 when those do |
| Extrapolation.ExistingTargetDoublesWeight | src/ambience2abm/process_ambience_data.py:200-226 | an existing country targeted once, with both archetypes weighing 1, weighs 2 afterwards, because weights are not recomputed |
| Grouping.GroupSum | src/ambience2abm/process_ambience_data.py:329-343 | the group-by's table has exactly the keys present, each holding that key's sum |
| Grouping.GroupSumConserves | src/ambience2abm/process_ambience_data.py:329-343 | a group-by's entries, each counted once, add up to the total of the grouped rows |
| Grouping.Dedup | src/ambience2abm/process_ambience_data.py:255 | `drop_duplicates` keeps exactly the distinct rows, each once |
| Grouping.DedupBy | src/ambience2abm/process_ambience_data.py:283 | dedup on a key: distinct keys, rows from the input, and the same set of keys |
| Grouping.DedupByKeepsFirst | src/ambience2abm/process_ambience_data.py:283 | each kept row is the first one of its key |
| Dimensions.BuildingPeriodsCover | src/ambience2abm/process_ambience_data.py:268-284 | every construction period of the data has a row in the period table |
| Dimensions.PeriodIndexUnique | src/ambience2abm/process_ambience_data.py:268-284 | when labels come from the years, the period table's index has no duplicates and each label matches its bounds |
| Dimensions.AssembledPeriodsLabelled | src/ambience2abm/process_ambience_data.py:139-144 | preprocessing labels every row from its years |
| Dimensions.ExtrapolationKeepsPeriodLabels | src/ambience2abm/process_ambience_data.py:200-226 | extrapolation keeps every row's label consistent with its years |
| Dimensions.BuildingStocksCover | src/ambience2abm/process_ambience_data.py:245-257 | the stock table holds every row's projection, only those, and each once |
| Dimensions.StockIndexUnique | src/ambience2abm/process_ambience_data.py:245-257 | when the label determines the other columns, the stock table's index has no duplicates |
| Dataset.AmbienceDataset.constructor | src/ambience2abm/process_ambience_data.py:56-177 | the object holds the lookup tables it was given and `data` is the preprocessed frame of the joined rows, with consistent period labels |
| Dataset.AmbienceDataset.Extrapolate | src/ambience2abm/process_ambience_data.py:200-226 | the appending loop leaves `data` as the old rows followed by each mapping's clones, and keeps the labels consistent |
| Dataset.AmbienceDataset.StockStatistics | src/ambience2abm/process_ambience_data.py:286-344 | one entry per key of the current data's surviving stock rows, counting that key's buildings |
| Dataset.AmbienceDataset.StructureStatistics | src/ambience2abm/process_ambience_data.py:468-539 | on the object's tables, depth and ω = 2π/period: fails iff some row lacks a structure type's layer; otherwise one entry per key of the U-value cells |
| Dataset.AmbienceDataset.VentilationStatistics | src/ambience2abm/process_ambience_data.py:541-607 | on the object's tables: fails iff some row's window type is missing; otherwise one entry per archetype of the current data |

## Left out

- Reading the spreadsheets and tables (lines 58-75 and 110-112) and the
  inner join on the building code (lines 109-116). The joined rows are the
  input, and the lookup tables are maps given to the constructor.
- `ABMDataset`, CSV export and the datapackage metadata. These are file
  writing and `datetime.today()`.
- IEEE-754 arithmetic. The model computes over `real`. A NaN cell is
  `None`. A division the source could do by zero is guarded by an explicit
  precondition or modelled as a missing value.
- `np.sqrt` and `np.pi`. The square root is a parameter `sqrt`, and lemmas
  assume it is a non-negative root at the points used. The angular
  frequency ω = 2π/`period_of_variations` is a parameter.
- Physics.EffectiveThermalMassBounds: proved for that `sqrt` assumption
  only, not for the `np.sqrt` double.
- pandas mechanics. This covers index setting, join suffixes, the
  `rename`s, and the order of rows inside a group-by. A group-by is a map
  from key to sum, and a frame is a sequence of records.
- The mappings dictionary is a sequence of `Mapping`s in insertion order.
- `Series.str.replace` is a literal replace. This is exact for country
  codes without regular-expression metacharacters. Older pandas versions
  read the pattern as a regular expression.
- Years are natural numbers rendered in decimal, as `str` renders a
  non-negative `int`.
- The ventilation table is its first row only. Those are the only cells
  line 558 and the next ones read.
- Preprocessing.ZeroTotalLosesAllPrevalencies: a non-zero prevalency over
  a zero total, possible only beside a negative prevalency, is ±inf in the
  source, and `dropna` keeps it. The model makes it missing, like 0/0.
- Preprocessing.WeightsDefined is a precondition of the weighting. It
  excludes a group whose floor areas sum to 0, where the source produces
  NaN or an infinite weight.
- Dataset.AmbienceDataset.StructureStatistics requires a non-zero
  `period_of_variations`; the source raises `ZeroDivisionError` there.
- Physics.CalculateUValues and Statistics.StructureCells require every
  division to be by a non-zero value. Physics.PhysicalUValues shows this
  holds for physical inputs.
- Statistics.SharedFloorArea: stated on the rows that reach the group-by,
  not on the records.
- Statistics.BridgesAreWeighted: needs the structure type's name to occur
  once in the table (the index of `structure_types`). The caller passes the
  group's total weight as `g`.
- Statistics.VentilationRatesAreWeighted, Statistics.WindowUColumn,
  Statistics.SolarColumn and Statistics.SharedWindowIsWeighted: state the
  aggregate as a value times `g`, where `g` is the archetype's total weight
  named by a precondition. Applying them with `g` = 1 gives the value
  itself.
- `building_stocks(for_processing)`: the flag is unused in the code.
- Extrapolation.CloneFields: the clone's `notes` and `shapefile_path` are
  re-joined from the target country as one `ShapefileInfo`. A country
  missing from the shapefile table leaves both missing.
