/** `AmBIENCeDataset.extrapolate`: every row of a source country is cloned into a
    target country, with the location renamed, the building code rewritten, the
    number of buildings scaled and the `building_stock` label rebuilt from a tag.
    The weights of the clones are those of their source rows. */
module Extrapolation {
  import opened Wrappers
  import opened Records
  import opened Grouping
  import opened Text
  import opened Preprocessing

  /** One entry `c1: (c2, coeff)` of the mappings dictionary. */
  datatype Mapping = Mapping(source: string, target: string, coefficient: real)

  /** Lines 210-222 on one row of the source country: the code has every
      occurrence of the source replaced by the target, the location becomes the
      target, the shapefile columns are looked up again for the target, and the
      label is rebuilt from the tag and the row's own stock year. */
  function RenamedFor(r: Record, m: Mapping, tag: string, shapefiles: map<string, ShapefileInfo>): Record
  {
    var b := r.building;
    r.(building := b.(code := ReplaceAll(b.code, m.source, m.target), locationId := m.target),
       shapefile := Lookup(shapefiles, m.target),
       buildingStock := StockLabel(tag, r.stockYear, m.target, r.typeInfo))
  }

  /** Lines 223-224 on one row: the number of buildings times the coefficient. */
  function ScaledRecord(r: Record, k: real): Record
  {
    r.(building := r.building.(numberOfBuildings := r.building.numberOfBuildings * k))
  }

  /** The clone of one row of the source country. */
  function CloneFor(r: Record, m: Mapping, tag: string, shapefiles: map<string, ShapefileInfo>): Record
  {
    ScaledRecord(RenamedFor(r, m, tag, shapefiles), m.coefficient)
  }

  /** Lines 201-222 for one mapping: the rows of the source country, in their
      order, renamed into the target country. */
  function Renamed(data: seq<Record>, m: Mapping, tag: string, shapefiles: map<string, ShapefileInfo>)
    : (rs: seq<Record>)
    ensures |rs| <= |data|
    ensures forall i :: 0 <= i < |rs| ==> LocationOf(rs[i]) == m.target
    decreases |data|
  {
    if data == [] then []
    else
      var r := data[|data| - 1];
      Renamed(data[..|data| - 1], m, tag, shapefiles) + (if LocationOf(r) == m.source then [RenamedFor(r, m, tag, shapefiles)] else [])
  }

  /** Lines 223-224 on a whole frame. */
  function Rescaled(xs: seq<Record>, k: real): (ys: seq<Record>)
    ensures |ys| == |xs|
  {
    seq(|xs|, i requires 0 <= i < |xs| => ScaledRecord(xs[i], k))
  }

  /** Lines 201-224 for one mapping: the clones of the rows of the source
      country, in the order of the rows. */
  function ClonesOf(data: seq<Record>, m: Mapping, tag: string, shapefiles: map<string, ShapefileInfo>)
    : (cs: seq<Record>)
    ensures |cs| <= |data|
    ensures forall i :: 0 <= i < |cs| ==> LocationOf(cs[i]) == m.target
  {
    Rescaled(Renamed(data, m, tag, shapefiles), m.coefficient)
  }

  /** The frames appended to `data_list`, one per mapping, concatenated. */
  function Clones(data: seq<Record>, ms: seq<Mapping>, tag: string, shapefiles: map<string, ShapefileInfo>)
    : seq<Record>
    decreases |ms|
  {
    if ms == [] then []
    else Clones(data, ms[..|ms| - 1], tag, shapefiles) + ClonesOf(data, ms[|ms| - 1], tag, shapefiles)
  }

  /** Line 226: the original rows followed by all the clones. */
  function Extrapolated(data: seq<Record>, ms: seq<Mapping>, tag: string, shapefiles: map<string, ShapefileInfo>)
    : seq<Record>
  {
    data + Clones(data, ms, tag, shapefiles)
  }

  // ---------------------------------------------------------------------------
  // One clone

  /** The clone is in the target country, its code is the source code with the
      source replaced by the target, its count is scaled, its label is built from
      the tag, and every other column, the weight among them, is the source row's. */
  lemma {:induction false} CloneFields(r: Record, m: Mapping, tag: string, shapefiles: map<string, ShapefileInfo>)
    ensures var c := CloneFor(r, m, tag, shapefiles);
            && LocationOf(c) == m.target
            && c.building.code == ReplaceAll(r.building.code, m.source, m.target)
            && NumberOfBuildings(c) == NumberOfBuildings(r) * m.coefficient
            && c.shapefile == Lookup(shapefiles, m.target)
            && c.buildingStock == StockLabel(tag, r.stockYear, m.target, r.typeInfo)
    ensures var c := CloneFor(r, m, tag, shapefiles);
            && Weight(c) == Weight(r)
            && ArchetypeOf(c) == Archetype(r.building.buildingType, r.period, m.target)
            && c.(building := c.building.(code := r.building.code, locationId := r.building.locationId,
                                          numberOfBuildings := r.building.numberOfBuildings),
                  shapefile := r.shapefile, buildingStock := r.buildingStock) == r
  {
  }

  /** A code that does not mention the source country keeps its code. */
  lemma {:induction false} CodeWithoutSourceUnchanged(r: Record, m: Mapping, tag: string,
                                                     shapefiles: map<string, ShapefileInfo>)
    requires m.source != [] && !Occurs(m.source, r.building.code)
    ensures CloneFor(r, m, tag, shapefiles).building.code == r.building.code
  {
    ReplaceWithoutOccurrence(r.building.code, m.source, m.target);
  }

  /** A code that starts with the source country starts with the target country
      in the clone, and the rest of the code has its own occurrences replaced. */
  lemma {:induction false} CodePrefixRenamed(r: Record, m: Mapping, tag: string,
                                             shapefiles: map<string, ShapefileInfo>, rest: string)
    requires m.source != [] && r.building.code == m.source + rest
    ensures CloneFor(r, m, tag, shapefiles).building.code == m.target + ReplaceAll(rest, m.source, m.target)
  {
    var code := r.building.code;
    assert OccursAt(m.source, code, 0);
    ReplaceAtStart(code, m.source, m.target);
    assert code[|m.source|..] == rest;
  }

  // ---------------------------------------------------------------------------
  // The clones of one mapping

  /** Every renamed row is the renamed copy of a row of the source country. */
  lemma {:induction false} RenamedComeFromSource(data: seq<Record>, m: Mapping, tag: string,
                                                shapefiles: map<string, ShapefileInfo>, k: nat)
    requires k < |Renamed(data, m, tag, shapefiles)|
    ensures exists i :: 0 <= i < |data| && LocationOf(data[i]) == m.source
                        && Renamed(data, m, tag, shapefiles)[k] == RenamedFor(data[i], m, tag, shapefiles)
    decreases |data|
  {
    var p, r := data[..|data| - 1], data[|data| - 1];
    var rp := Renamed(p, m, tag, shapefiles);
    if k < |rp| {
      RenamedComeFromSource(p, m, tag, shapefiles, k);
      var i :| 0 <= i < |p| && LocationOf(p[i]) == m.source && rp[k] == RenamedFor(p[i], m, tag, shapefiles);
      assert data[i] == p[i];
    } else {
      assert LocationOf(r) == m.source && Renamed(data, m, tag, shapefiles)[k] == RenamedFor(r, m, tag, shapefiles);
    }
  }

  /** Every clone is the clone of a row of the source country. */
  lemma {:induction false} ClonesComeFromSource(data: seq<Record>, m: Mapping, tag: string,
                                               shapefiles: map<string, ShapefileInfo>, k: nat)
    requires k < |ClonesOf(data, m, tag, shapefiles)|
    ensures exists i :: 0 <= i < |data| && LocationOf(data[i]) == m.source
                        && ClonesOf(data, m, tag, shapefiles)[k] == CloneFor(data[i], m, tag, shapefiles)
  {
    RenamedComeFromSource(data, m, tag, shapefiles, k);
    var i :| 0 <= i < |data| && LocationOf(data[i]) == m.source
             && Renamed(data, m, tag, shapefiles)[k] == RenamedFor(data[i], m, tag, shapefiles);
    assert ClonesOf(data, m, tag, shapefiles)[k] == CloneFor(data[i], m, tag, shapefiles);
  }

  /** Every row of the source country is renamed. */
  lemma {:induction false} SourceRowsAreRenamed(data: seq<Record>, m: Mapping, tag: string,
                                               shapefiles: map<string, ShapefileInfo>, i: nat)
    requires i < |data| && LocationOf(data[i]) == m.source
    ensures RenamedFor(data[i], m, tag, shapefiles) in Renamed(data, m, tag, shapefiles)
    decreases |data|
  {
    var p := data[..|data| - 1];
    if i < |p| {
      SourceRowsAreRenamed(p, m, tag, shapefiles, i);
      assert data[i] == p[i];
    }
  }

  /** Every row of the source country is cloned. */
  lemma {:induction false} SourceRowsAreCloned(data: seq<Record>, m: Mapping, tag: string,
                                              shapefiles: map<string, ShapefileInfo>, i: nat)
    requires i < |data| && LocationOf(data[i]) == m.source
    ensures CloneFor(data[i], m, tag, shapefiles) in ClonesOf(data, m, tag, shapefiles)
  {
    SourceRowsAreRenamed(data, m, tag, shapefiles, i);
    var rs := Renamed(data, m, tag, shapefiles);
    var j :| 0 <= j < |rs| && rs[j] == RenamedFor(data[i], m, tag, shapefiles);
    assert ClonesOf(data, m, tag, shapefiles)[j] == CloneFor(data[i], m, tag, shapefiles);
  }

  /** Exactly one clone per row of the source country. */
  lemma {:induction false} CloneCount(data: seq<Record>, m: Mapping, tag: string,
                                     shapefiles: map<string, ShapefileInfo>)
    ensures |ClonesOf(data, m, tag, shapefiles)| as real == SumFor(data, LocationOf, One, m.source)
  {
    RenamedCount(data, m, tag, shapefiles);
  }

  lemma {:induction false} RenamedCount(data: seq<Record>, m: Mapping, tag: string,
                                       shapefiles: map<string, ShapefileInfo>)
    ensures |Renamed(data, m, tag, shapefiles)| as real == SumFor(data, LocationOf, One, m.source)
    decreases |data|
  {
    if data != [] {
      RenamedCount(data[..|data| - 1], m, tag, shapefiles);
    }
  }

  /** A source country with no rows contributes nothing. */
  lemma {:induction false} AbsentSourceContributesNothing(data: seq<Record>, m: Mapping, tag: string,
                                                         shapefiles: map<string, ShapefileInfo>)
    requires m.source !in KeysOf(data, LocationOf)
    ensures ClonesOf(data, m, tag, shapefiles) == []
  {
    CloneCount(data, m, tag, shapefiles);
    SumForAbsent(data, LocationOf, One, m.source);
  }

  /** The clones hold `coeff` times the buildings of the source country, whose
      total is `g`. */
  lemma {:induction false} ClonedBuildingCount(data: seq<Record>, m: Mapping, tag: string,
                                              shapefiles: map<string, ShapefileInfo>, g: real)
    requires SumFor(data, LocationOf, NumberOfBuildings, m.source) == g
    ensures Sum(ClonesOf(data, m, tag, shapefiles), NumberOfBuildings) == m.coefficient * g
  {
    RenamedBuildingCount(data, m, tag, shapefiles);
    RescaledSum(Renamed(data, m, tag, shapefiles), m.coefficient, g);
  }

  /** Renaming keeps the source country's buildings. */
  lemma {:induction false} RenamedBuildingCount(data: seq<Record>, m: Mapping, tag: string,
                                               shapefiles: map<string, ShapefileInfo>)
    ensures Sum(Renamed(data, m, tag, shapefiles), NumberOfBuildings) == SumFor(data, LocationOf, NumberOfBuildings, m.source)
    decreases |data|
  {
    if data != [] {
      var p, r := data[..|data| - 1], data[|data| - 1];
      RenamedBuildingCount(p, m, tag, shapefiles);
      if LocationOf(r) == m.source {
        var c := RenamedFor(r, m, tag, shapefiles);
        assert Renamed(data, m, tag, shapefiles) == Renamed(p, m, tag, shapefiles) + [c];
        SumSnoc(Renamed(p, m, tag, shapefiles), c, NumberOfBuildings);
      } else {
        assert Renamed(data, m, tag, shapefiles) == Renamed(p, m, tag, shapefiles);
      }
    }
  }

  /** Scaling every row by `k` scales a total `g` by `k`. */
  lemma {:induction false} RescaledSum(xs: seq<Record>, k: real, g: real)
    requires Sum(xs, NumberOfBuildings) == g
    ensures Sum(Rescaled(xs, k), NumberOfBuildings) == k * g
    decreases |xs|
  {
    if xs != [] {
      var p := xs[..|xs| - 1];
      var g' := Sum(p, NumberOfBuildings);
      assert Rescaled(xs, k)[..|xs| - 1] == Rescaled(p, k);
      RescaledSum(p, k, g');
      ScaledStep(k, g', g, Sum(Rescaled(p, k), NumberOfBuildings), Sum(Rescaled(xs, k), NumberOfBuildings),
                 NumberOfBuildings(xs[|xs| - 1]), NumberOfBuildings(Rescaled(xs, k)[|xs| - 1]));
    }
  }

  lemma {:induction false} ScaledStep(k: real, g': real, g: real, s': real, s: real, n: real, nc: real)
    requires s' == k * g' && g == g' + n && nc == n * k && s == s' + nc
    ensures s == k * g
  {
  }

  /** The archetype a clone in the target country comes from. */
  function SourceArchetype(a: Archetype, m: Mapping): Archetype
  {
    Archetype(a.buildingType, a.period, m.source)
  }

  /** The clones of an archetype of the target country weigh what the same
      archetype of the source country weighs; the clones weigh nothing in any
      other country. */
  lemma {:induction false} ClonedWeights(data: seq<Record>, m: Mapping, tag: string,
                                        shapefiles: map<string, ShapefileInfo>, a: Archetype)
    ensures a.location == m.target ==>
              GroupWeight(ClonesOf(data, m, tag, shapefiles), a) == GroupWeight(data, SourceArchetype(a, m))
    ensures a.location != m.target ==> GroupWeight(ClonesOf(data, m, tag, shapefiles), a) == 0.0
  {
    var rs := Renamed(data, m, tag, shapefiles);
    RenamedWeights(data, m, tag, shapefiles, a);
    SumForMatching(rs, ArchetypeOf, Weight, a, Rescaled(rs, m.coefficient), ArchetypeOf, Weight, a);
  }

  lemma {:induction false} RenamedWeights(data: seq<Record>, m: Mapping, tag: string,
                                         shapefiles: map<string, ShapefileInfo>, a: Archetype)
    ensures a.location == m.target ==>
              GroupWeight(Renamed(data, m, tag, shapefiles), a) == GroupWeight(data, SourceArchetype(a, m))
    ensures a.location != m.target ==> GroupWeight(Renamed(data, m, tag, shapefiles), a) == 0.0
    decreases |data|
  {
    if data != [] {
      var p, r := data[..|data| - 1], data[|data| - 1];
      RenamedWeights(p, m, tag, shapefiles, a);
      var tail := if LocationOf(r) == m.source then [RenamedFor(r, m, tag, shapefiles)] else [];
      SumForAppend(Renamed(p, m, tag, shapefiles), tail, ArchetypeOf, Weight, a);
      assert tail != [] ==> tail[..0] == [];
    }
  }

  // ---------------------------------------------------------------------------
  // All mappings

  /** The weight the mappings into `a`'s country bring to `a`: for each mapping
      whose target is that country, the weight of the same archetype in the
      mapping's source country. */
  function MappedWeight(data: seq<Record>, ms: seq<Mapping>, a: Archetype): real
    decreases |ms|
  {
    if ms == [] then 0.0
    else
      var m := ms[|ms| - 1];
      MappedWeight(data, ms[..|ms| - 1], a)
        + (if m.target == a.location then GroupWeight(data, SourceArchetype(a, m)) else 0.0)
  }

  /** Every clone is in the target country of some mapping. */
  lemma {:induction false} ClonesAtTargets(data: seq<Record>, ms: seq<Mapping>, tag: string,
                                          shapefiles: map<string, ShapefileInfo>, k: nat)
    requires k < |Clones(data, ms, tag, shapefiles)|
    ensures exists j :: 0 <= j < |ms| && LocationOf(Clones(data, ms, tag, shapefiles)[k]) == ms[j].target
    decreases |ms|
  {
    var init := ms[..|ms| - 1];
    var ci := Clones(data, init, tag, shapefiles);
    if k < |ci| {
      ClonesAtTargets(data, init, tag, shapefiles, k);
      var j :| 0 <= j < |init| && LocationOf(ci[k]) == init[j].target;
      assert ms[j] == init[j];
    } else {
      assert LocationOf(Clones(data, ms, tag, shapefiles)[k]) == ms[|ms| - 1].target;
    }
  }

  /** After extrapolation an archetype weighs its old weight plus what the
      mappings into its country bring: the weights are not recomputed. */
  lemma {:induction false} ExtrapolatedWeights(data: seq<Record>, ms: seq<Mapping>, tag: string,
                                              shapefiles: map<string, ShapefileInfo>, a: Archetype)
    ensures GroupWeight(Extrapolated(data, ms, tag, shapefiles), a) == GroupWeight(data, a) + MappedWeight(data, ms, a)
  {
    SumForAppend(data, Clones(data, ms, tag, shapefiles), ArchetypeOf, Weight, a);
    ClonesWeight(data, ms, tag, shapefiles, a);
  }

  lemma {:induction false} ClonesWeight(data: seq<Record>, ms: seq<Mapping>, tag: string,
                                       shapefiles: map<string, ShapefileInfo>, a: Archetype)
    ensures GroupWeight(Clones(data, ms, tag, shapefiles), a) == MappedWeight(data, ms, a)
    decreases |ms|
  {
    if ms != [] {
      var init, m := ms[..|ms| - 1], ms[|ms| - 1];
      ClonesWeight(data, init, tag, shapefiles, a);
      SumForAppend(Clones(data, init, tag, shapefiles), ClonesOf(data, m, tag, shapefiles), ArchetypeOf, Weight, a);
      ClonedWeights(data, m, tag, shapefiles, a);
    }
  }

  /** Only the mapping at index j brings weight into its target country. */
  lemma {:induction false} UniqueTargetWeight(data: seq<Record>, ms: seq<Mapping>, j: nat, a: Archetype)
    requires j < |ms| && a.location == ms[j].target
    requires forall k :: 0 <= k < |ms| && k != j ==> ms[k].target != ms[j].target
    ensures MappedWeight(data, ms, a) == GroupWeight(data, SourceArchetype(a, ms[j]))
    decreases |ms|
  {
    var init := ms[..|ms| - 1];
    if j < |init| {
      UniqueTargetWeight(data, init, j, a);
    } else {
      NoTargetWeight(data, init, a);
    }
  }

  /** Mappings none of which targets `a`'s country bring it nothing. */
  lemma {:induction false} NoTargetWeight(data: seq<Record>, ms: seq<Mapping>, a: Archetype)
    requires forall k :: 0 <= k < |ms| ==> ms[k].target != a.location
    ensures MappedWeight(data, ms, a) == 0.0
    decreases |ms|
  {
    if ms != [] {
      NoTargetWeight(data, ms[..|ms| - 1], a);
    }
  }

  /** A new country that a single mapping targets: each of its archetypes
      weighs, after extrapolation, what the archetype weighs in the source
      country, so a partition of unity there stays one here. */
  lemma {:induction false} FreshTargetKeepsWeights(data: seq<Record>, ms: seq<Mapping>, tag: string,
                                                  shapefiles: map<string, ShapefileInfo>, j: nat, a: Archetype)
    requires j < |ms| && a.location == ms[j].target
    requires forall k :: 0 <= k < |ms| && k != j ==> ms[k].target != ms[j].target
    requires ms[j].target !in KeysOf(data, LocationOf)
    ensures GroupWeight(Extrapolated(data, ms, tag, shapefiles), a) == GroupWeight(data, SourceArchetype(a, ms[j]))
  {
    ExtrapolatedWeights(data, ms, tag, shapefiles, a);
    UniqueTargetWeight(data, ms, j, a);
    assert a !in KeysOf(data, ArchetypeOf);
    SumForAbsent(data, ArchetypeOf, Weight, a);
  }

  /** A country that already has rows and is also a target: an archetype present
      in both countries with weights summing to one ends up weighing two. */
  lemma {:induction false} ExistingTargetDoublesWeight(data: seq<Record>, ms: seq<Mapping>, tag: string,
                                                      shapefiles: map<string, ShapefileInfo>, j: nat, a: Archetype)
    requires j < |ms| && a.location == ms[j].target
    requires forall k :: 0 <= k < |ms| && k != j ==> ms[k].target != ms[j].target
    requires GroupWeight(data, a) == 1.0 && GroupWeight(data, SourceArchetype(a, ms[j])) == 1.0
    ensures GroupWeight(Extrapolated(data, ms, tag, shapefiles), a) == 2.0
  {
    ExtrapolatedWeights(data, ms, tag, shapefiles, a);
    UniqueTargetWeight(data, ms, j, a);
  }
}
