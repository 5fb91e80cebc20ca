/** The dashboard blueprint: the summary figures of the home page, the facility layer of the
    dashboard map, the month-by-month trend, and the per-pathogen, per-antibiotic and per-region
    statistics, each as a function of the store with the loop that builds it. */
module Dashboard {
  import opened Common
  import opened Calendar
  import opened Models
  import opened DataProcessing

  // ---------------------------------------------------------------- pathogen tallies

  /** A `(Pathogen.name, count)` row of a `GROUP BY Pathogen.id`. */
  datatype Tally = Tally(name: string, count: nat)

  function ObsPathogen(o: Obs): Pathogen { o.pathogen }

  function TallyCount(r: Tally): real { r.count as real }

  /** One row per pathogen of `ps`: its name and the number of rows of `obs` that report it. */
  function TallyOf(obs: seq<Obs>, ps: seq<Pathogen>): (r: seq<Tally>)
    ensures |r| == |ps|
    ensures forall i :: 0 <= i < |r| ==> r[i].name == ps[i].name && r[i].count == Count(obs, InGroup(ObsPathogen, ps[i], All()))
  {
    if ps == [] then []
    else TallyOf(obs, ps[..|ps| - 1]) + [Tally(ps[|ps| - 1].name, Count(obs, InGroup(ObsPathogen, ps[|ps| - 1], All())))]
  }

  function SumTally(rs: seq<Tally>): nat
  {
    if rs == [] then 0 else SumTally(rs[..|rs| - 1]) + rs[|rs| - 1].count
  }

  /** `GROUP BY Pathogen.id ORDER BY count DESC` over the rows `obs`. */
  function PathogenTally(obs: seq<Obs>): seq<Tally>
  {
    SortDesc(TallyOf(obs, DistinctKeys(obs, ObsPathogen)), TallyCount)
  }

  lemma {:induction false} SumTallyCounts(obs: seq<Obs>, ps: seq<Pathogen>)
    ensures SumTally(TallyOf(obs, ps)) == SumCounts(obs, ObsPathogen, ps, All())
  {
    if ps != [] {
      SumTallyCounts(obs, ps[..|ps| - 1]);
      var init := TallyOf(obs, ps[..|ps| - 1]);
      var last := Tally(ps[|ps| - 1].name, Count(obs, InGroup(ObsPathogen, ps[|ps| - 1], All())));
      assert (init + [last])[..|init|] == init;
    }
  }

  /** Every pathogen that occurs has a row with a positive count. */
  lemma TallyPositive(obs: seq<Obs>)
    ensures forall x :: x in TallyOf(obs, DistinctKeys(obs, ObsPathogen)) ==> x.count > 0
  {
    var keys := DistinctKeys(obs, ObsPathogen);
    var rows := TallyOf(obs, keys);
    forall i | 0 <= i < |rows|
      ensures rows[i].count > 0
    {
      assert keys[i] in keys;
      var o :| o in obs && ObsPathogen(o) == keys[i];
      CountPositive(obs, InGroup(ObsPathogen, keys[i], All()), o);
    }
  }

  /** The rows account for every row of `obs` once. */
  lemma TallyTotal(obs: seq<Obs>)
    ensures SumTally(TallyOf(obs, DistinctKeys(obs, ObsPathogen))) == |obs|
  {
    var keys := DistinctKeys(obs, ObsPathogen);
    SumTallyCounts(obs, keys);
    SumCountsPartition(obs, ObsPathogen, keys, All());
    CountAll(obs);
  }

  /** The tally has one row per pathogen that occurs, busiest first; no row is empty and the rows
      (which the ordering only permutes) account for every row of `obs` once. */
  lemma PathogenTallyShape(obs: seq<Obs>)
    ensures var keys := DistinctKeys(obs, ObsPathogen);
            var r := PathogenTally(obs);
            |r| == |keys| && SortedDesc(r, TallyCount) && multiset(r) == multiset(TallyOf(obs, keys)) &&
            SumTally(TallyOf(obs, keys)) == |obs| &&
            forall x :: x in r ==> x.count > 0
  {
    TallyTotal(obs);
    PathogenTallyPositive(obs);
  }

  /** The ordering only permutes the grouped rows, so no ranked row is empty. */
  lemma PathogenTallyPositive(obs: seq<Obs>)
    ensures forall x :: x in PathogenTally(obs) ==> x.count > 0
  {
    var rows := TallyOf(obs, DistinctKeys(obs, ObsPathogen));
    TallyPositive(obs);
    forall x | x in PathogenTally(obs)
      ensures x.count > 0
    {
      assert x in multiset(PathogenTally(obs));
      assert x in rows;
    }
  }

  // ---------------------------------------------------------------- home

  predicate ProfileResistant(p: Profile) { p.result == "R" }

  function ReportTime(r: LabReport): real { Stamp(r.reportDate) as real }

  /** The figures of the dashboard's home page. */
  datatype Summary = Summary(
    totalSamples: nat, totalFacilities: nat, totalPathogens: nat, resistanceRate: real,
    recent: seq<LabReport>, commonResistant: seq<Tally>)

  /** The share of resistant results among all stored profiles, joined or not. */
  function ResistanceRate(t: Tables): real
  {
    Percent(Count(t.profiles, ProfileResistant), |t.profiles|)
  }

  /** `home`: the table sizes, the resistant share of all profiles, the five latest reports and the
      five pathogens with most resistant profiles. */
  function Home(t: Tables): Summary
  {
    Summary(|t.reports|, |t.facilities|, |t.pathogens|,
            ResistanceRate(t),
            Take(SortDesc(t.reports, ReportTime), 5),
            Take(PathogenTally(Filter(Join(t), Resistant)), 5))
  }

  /** The home page's rate is between 0 and 100, 0 exactly when no profile is resistant, and 100 exactly
      when every profile is. */
  lemma HomeRate(t: Tables)
    ensures var rate := ResistanceRate(t);
            0.0 <= rate <= 100.0 &&
            (rate == 0.0 <==> forall p :: p in t.profiles ==> !ProfileResistant(p)) &&
            (|t.profiles| > 0 ==> (rate == 100.0 <==> forall p :: p in t.profiles ==> ProfileResistant(p)))
  {
    var c := Count(t.profiles, ProfileResistant);
    PercentExtremes(c, |t.profiles|);
    CountAll(t.profiles);
    CountEqualIff(t.profiles, ProfileResistant, All());
    CountZero(t.profiles, ProfileResistant);
  }

  /** The latest reports: at most five, newest first, each a stored report, and none left out newer than one kept. */
  lemma HomeRecent(t: Tables)
    ensures var h := Home(t);
            var ranked := SortDesc(t.reports, ReportTime);
            |h.recent| == (if |t.reports| < 5 then |t.reports| else 5) &&
            SortedDesc(h.recent, ReportTime) &&
            (forall r :: r in h.recent ==> r in t.reports) &&
            forall i, j :: 0 <= i < |h.recent| <= j < |ranked| ==>
              Stamp(ranked[j].reportDate) <= Stamp(h.recent[i].reportDate)
  {
    var ranked := SortDesc(t.reports, ReportTime);
    TopRanked(t.reports, ReportTime, 5);
    forall r | r in Take(ranked, 5)
      ensures r in t.reports
    {
      assert r in multiset(ranked);
    }
  }

  /** The five busiest rows of a tally: busiest first, and none left out busier than one kept. */
  lemma TopTallies(obs: seq<Obs>)
    ensures |Take(PathogenTally(obs), 5)| <= 5
    ensures SortedDesc(Take(PathogenTally(obs), 5), TallyCount)
    ensures forall i, j :: 0 <= i < |Take(PathogenTally(obs), 5)| <= j < |PathogenTally(obs)| ==>
              PathogenTally(obs)[j].count <= Take(PathogenTally(obs), 5)[i].count
  {
    TopRanked(TallyOf(obs, DistinctKeys(obs, ObsPathogen)), TallyCount, 5);
  }

  /** None of the five busiest rows is empty. */
  lemma TopTalliesPositive(obs: seq<Obs>)
    ensures forall x :: x in Take(PathogenTally(obs), 5) ==> x.count > 0
  {
    var ranked := PathogenTally(obs);
    var top := Take(ranked, 5);
    PathogenTallyPositive(obs);
    forall x | x in top
      ensures x in ranked
    {
      var i :| 0 <= i < |top| && top[i] == x;
      assert ranked[i] == x;
    }
  }

  /** The most common resistant pathogens: at most five, by descending count of resistant profiles,
      each with at least one, and no pathogen left out with more than one kept. */
  lemma HomeCommonResistant(t: Tables)
    ensures |Home(t).commonResistant| <= 5 && SortedDesc(Home(t).commonResistant, TallyCount)
    ensures forall x :: x in Home(t).commonResistant ==> x.count > 0
    ensures forall i, j :: 0 <= i < |Home(t).commonResistant| <= j < |PathogenTally(Filter(Join(t), Resistant))| ==>
              PathogenTally(Filter(Join(t), Resistant))[j].count <= Home(t).commonResistant[i].count
  {
    var obs := Filter(Join(t), Resistant);
    assert Home(t).commonResistant == Take(PathogenTally(obs), 5);
    TopTallies(obs);
    TopTalliesPositive(obs);
  }

  // ---------------------------------------------------------------- pathogen distribution

  /** `pathogen_distribution`: the profile count of every pathogen, busiest first. */
  function PathogenDistribution(t: Tables): seq<Tally>
  {
    PathogenTally(Join(t))
  }

  /** On a well-formed store the distribution accounts for every profile exactly once. */
  lemma PathogenDistributionComplete(t: Tables)
    requires WellFormed(t)
    ensures var keys := DistinctKeys(Join(t), ObsPathogen);
            SortedDesc(PathogenDistribution(t), TallyCount) &&
            multiset(PathogenDistribution(t)) == multiset(TallyOf(Join(t), keys)) &&
            SumTally(TallyOf(Join(t), keys)) == |t.profiles|
  {
    PathogenTallyShape(Join(t));
    JoinComplete(t);
  }

  // ---------------------------------------------------------------- map data

  /** `latitude IS NOT NULL AND longitude IS NOT NULL`: a coordinate of 0.0 is kept. */
  predicate Located(f: Facility)
  {
    f.latitude.Some? && f.longitude.Some?
  }

  /** A facility of the map layer, with the resistant share of all its profiles. */
  datatype DataPoint = DataPoint(id: nat, latitude: real, longitude: real, level: real, name: string, facilityType: string)

  function DataPointOf(t: Tables, f: Facility): DataPoint
    requires Located(f)
  {
    var obs := FacilityObs(t, f.id);
    DataPoint(f.id, f.latitude.value, f.longitude.value, Percent(Count(obs, Resistant), |obs|), f.name, f.facilityType)
  }

  function DataPoints(t: Tables, fs: seq<Facility>): seq<DataPoint>
  {
    if fs == [] then []
    else
      var f := fs[|fs| - 1];
      DataPoints(t, fs[..|fs| - 1]) + if Located(f) then [DataPointOf(t, f)] else []
  }

  /** `map_data`. */
  function MapData(t: Tables): seq<DataPoint>
  {
    DataPoints(t, t.facilities)
  }

  /** The points are those of the located facilities, in table order. */
  lemma {:induction false} DataPointsAre(t: Tables, fs: seq<Facility>)
    ensures |DataPoints(t, fs)| == Count(fs, Located)
    ensures forall i :: 0 <= i < |DataPoints(t, fs)| ==> DataPoints(t, fs)[i] == DataPointOf(t, Filter(fs, Located)[i])
  {
    if fs != [] {
      var init := fs[..|fs| - 1];
      var f := fs[|fs| - 1];
      assert fs == init + [f];
      DataPointsAre(t, init);
      FilterSnoc(init, f, Located);
    }
  }

  /** Each point is a located facility of the store, with the resistant percentage of that facility's profiles (0 without any). */
  lemma MapDataShape(t: Tables)
    ensures |MapData(t)| == Count(t.facilities, Located)
    ensures forall i :: 0 <= i < |MapData(t)| ==>
              var p := MapData(t)[i];
              var obs := FacilityObs(t, p.id);
              (exists f :: f in t.facilities && Located(f) && f.id == p.id && p.latitude == f.latitude.value && p.longitude == f.longitude.value) &&
              0.0 <= p.level <= 100.0 &&
              p.level == Percent(Count(obs, Resistant), |obs|)
  {
    DataPointsAre(t, t.facilities);
    var located := Filter(t.facilities, Located);
    forall i | 0 <= i < |MapData(t)|
      ensures var p := MapData(t)[i];
              exists f :: f in t.facilities && Located(f) && f.id == p.id && p.latitude == f.latitude.value && p.longitude == f.longitude.value
    {
      assert located[i] in located;
    }
  }

  /** Every facility the resistance map plots is also on this layer, but not conversely: a facility at
      latitude 0.0 is on this layer and off the resistance map. */
  lemma LocatedIncludesPlotted(t: Tables)
    ensures forall f :: HasCoordinates(f) ==> Located(f)
    ensures Count(t.facilities, HasCoordinates) <= Count(t.facilities, Located)
  {
    CountMonotone(t.facilities, HasCoordinates, Located);
  }

  lemma EquatorFacilityExample()
    ensures var f := Facility(1, "Clinic", "Hospital", None, None, None, Some(0.0), Some(3.5));
            var t := Tables([], [f], [], [], [], [], [], []);
            |MapData(t)| == 1 && MapData(t)[0].id == 1 && |ResistanceMap(t)| == 0
  {
    var f := Facility(1, "Clinic", "Hospital", None, None, None, Some(0.0), Some(3.5));
    var t := Tables([], [f], [], [], [], [], [], []);
    assert [f][..0] == [];
    ResistanceMapShape(t);
    assert Count(t.facilities, HasCoordinates) == 0;
    assert Count(t.samples, Plotted) == 0;
  }

  // ---------------------------------------------------------------- antibiotic effectiveness

  function ObsAntibiotic(o: Obs): Antibiotic { o.antibiotic }

  function WithResult(code: string): Obs -> bool
  {
    (o: Obs) => o.profile.result == code
  }

  predicate SusceptibleOrIntermediate(o: Obs)
  {
    o.profile.result == "S" || o.profile.result == "I"
  }

  /** A result of one of the three categories; a stored result may be anything. */
  predicate Graded(o: Obs)
  {
    o.profile.result == "S" || o.profile.result == "I" || o.profile.result == "R"
  }

  /** One row of `antibiotic_effectiveness`, with its exact percentages. */
  datatype Effect = Effect(
    antibiotic: string, total: nat, susceptible: nat, intermediate: nat, resistant: nat,
    susceptiblePercent: real, intermediatePercent: real, resistantPercent: real)

  function EffectOf(obs: seq<Obs>, a: Antibiotic): Effect
  {
    var total := Count(obs, InGroup(ObsAntibiotic, a, All()));
    var s := Count(obs, InGroup(ObsAntibiotic, a, WithResult("S")));
    var i := Count(obs, InGroup(ObsAntibiotic, a, WithResult("I")));
    var r := Count(obs, InGroup(ObsAntibiotic, a, WithResult("R")));
    Effect(a.name, total, s, i, r, Percent(s, total), Percent(i, total), Percent(r, total))
  }

  /** The `GROUP BY Antibiotic.id` rows, one per antibiotic of `as_`. */
  function EffectsOf(obs: seq<Obs>, as_: seq<Antibiotic>): (r: seq<Effect>)
    ensures |r| == |as_|
    ensures forall i :: 0 <= i < |r| ==> r[i] == EffectOf(obs, as_[i])
  {
    if as_ == [] then [] else EffectsOf(obs, as_[..|as_| - 1]) + [EffectOf(obs, as_[|as_| - 1])]
  }

  predicate Tested(e: Effect) { e.total > 0 }

  /** `antibiotic_effectiveness`: the rows with a positive total. */
  function AntibioticEffectiveness(t: Tables): seq<Effect>
  {
    Filter(EffectsOf(Join(t), DistinctKeys(Join(t), ObsAntibiotic)), Tested)
  }

  /** Within an antibiotic's row the three percentages are those of its categories, add up to at most
      100, and add up to exactly 100 when and only when every result of that antibiotic is "S", "I" or "R". */
  lemma EffectPercents(obs: seq<Obs>, a: Antibiotic)
    ensures var e := EffectOf(obs, a);
            e.susceptible + e.intermediate + e.resistant <= e.total &&
            e.susceptiblePercent + e.intermediatePercent + e.resistantPercent <= 100.0 &&
            (e.total > 0 ==>
              (e.susceptiblePercent + e.intermediatePercent + e.resistantPercent == 100.0 <==>
               forall o :: o in obs && o.antibiotic == a ==> Graded(o)))
  {
    var e := EffectOf(obs, a);
    var g := InGroup(ObsAntibiotic, a, All());
    var gs := InGroup(ObsAntibiotic, a, WithResult("S"));
    var gi := InGroup(ObsAntibiotic, a, WithResult("I"));
    var gr := InGroup(ObsAntibiotic, a, WithResult("R"));
    var gsi := InGroup(ObsAntibiotic, a, SusceptibleOrIntermediate);
    var gg := InGroup(ObsAntibiotic, a, Graded);
    CountDisjoint(obs, gs, gi, gsi);
    CountDisjoint(obs, gsi, gr, gg);
    CountMonotone(obs, gg, g);
    CountEqualIff(obs, gg, g);
    var graded := Count(obs, gg);
    PercentAdds(e.susceptible, e.intermediate, e.total);
    PercentAdds(e.susceptible + e.intermediate, e.resistant, e.total);
    assert e.susceptiblePercent + e.intermediatePercent + e.resistantPercent == Percent(graded, e.total);
    if e.total > 0 {
      PercentAtLeast(graded, e.total, 100);
    }
  }

  /** Every row of the report is an antibiotic that was tested, one row per antibiotic. */
  lemma AntibioticEffectivenessShape(t: Tables)
    ensures var rows := AntibioticEffectiveness(t);
            var keys := DistinctKeys(Join(t), ObsAntibiotic);
            |rows| == |keys| &&
            forall i :: 0 <= i < |rows| ==> rows[i] == EffectOf(Join(t), keys[i]) && rows[i].total > 0
  {
    var obs := Join(t);
    var keys := DistinctKeys(obs, ObsAntibiotic);
    var effects := EffectsOf(obs, keys);
    forall i | 0 <= i < |effects|
      ensures Tested(effects[i])
    {
      assert keys[i] in keys;
      var o :| o in obs && ObsAntibiotic(o) == keys[i];
      CountPositive(obs, InGroup(ObsAntibiotic, keys[i], All()), o);
    }
    FilterAllKept(effects, Tested);
  }

  // ---------------------------------------------------------------- regional comparison

  predicate HasState(o: Obs) { o.facility.state.Some? }

  function ObsState(o: Obs): string
  {
    if o.facility.state.Some? then o.facility.state.value else ""
  }

  /** The joined rows whose facility has a state. */
  function StateObs(t: Tables): seq<Obs>
  {
    Filter(Join(t), HasState)
  }

  /** One row of the `GROUP BY Facility.state`: the state, its profile count and its resistant count. */
  datatype RegionCount = RegionCount(region: string, total: nat, resistant: nat)

  function RegionCountOf(obs: seq<Obs>, state: string): RegionCount
  {
    RegionCount(state, Count(obs, InGroup(ObsState, state, All())), Count(obs, InGroup(ObsState, state, Resistant)))
  }

  function RegionCounts(obs: seq<Obs>, states: seq<string>): (r: seq<RegionCount>)
    ensures |r| == |states|
    ensures forall i :: 0 <= i < |r| ==> r[i] == RegionCountOf(obs, states[i])
  {
    if states == [] then [] else RegionCounts(obs, states[..|states| - 1]) + [RegionCountOf(obs, states[|states| - 1])]
  }

  function StateCounts(t: Tables): seq<RegionCount>
  {
    var obs := StateObs(t);
    RegionCounts(obs, DistinctKeys(obs, ObsState))
  }

  predicate RegionTested(c: RegionCount) { c.total > 0 }

  datatype RegionRate = RegionRate(region: string, rate: real)

  function RegionRateOf(c: RegionCount): RegionRate
  {
    RegionRate(c.region, Percent(c.resistant, c.total))
  }

  function RegionRates(cs: seq<RegionCount>): (r: seq<RegionRate>)
    ensures |r| == |cs|
    ensures forall i :: 0 <= i < |r| ==> r[i] == RegionRateOf(cs[i])
  {
    if cs == [] then [] else RegionRates(cs[..|cs| - 1]) + [RegionRateOf(cs[|cs| - 1])]
  }

  lemma RegionRatesSnoc(cs: seq<RegionCount>, c: RegionCount)
    ensures RegionRates(cs + [c]) == RegionRates(cs) + [RegionRateOf(c)]
  {
    assert (cs + [c])[..|cs|] == cs;
  }

  /** `regional_comparison`: the resistant percentage of every state, for the states with profiles. */
  function RegionalComparison(t: Tables): seq<RegionRate>
  {
    RegionRates(Filter(StateCounts(t), RegionTested))
  }

  /** Every state group has profiles, so the `total > 0` test keeps them all. */
  lemma RegionalKeepsAll(t: Tables)
    ensures RegionalComparison(t) == RegionRates(StateCounts(t))
  {
    var obs := StateObs(t);
    var keys := DistinctKeys(obs, ObsState);
    var counts := StateCounts(t);
    forall i | 0 <= i < |counts|
      ensures RegionTested(counts[i])
    {
      assert keys[i] in keys;
      var o :| o in obs && ObsState(o) == keys[i];
      CountPositive(obs, InGroup(ObsState, keys[i], All()), o);
    }
    FilterAllKept(counts, RegionTested);
  }

  /** A row of the comparison fits the rows `obs` when its region has rows there and its rate is the
      resistant share of them. */
  predicate RegionRowFits(obs: seq<Obs>, row: RegionRate)
  {
    var total := Count(obs, InGroup(ObsState, row.region, All()));
    total > 0 && 0.0 <= row.rate <= 100.0 &&
    row.rate == Percent(Count(obs, InGroup(ObsState, row.region, Resistant)), total)
  }

  lemma RegionRows(obs: seq<Obs>, r: seq<RegionRate>)
    requires r == RegionRates(RegionCounts(obs, DistinctKeys(obs, ObsState)))
    ensures |r| == |DistinctKeys(obs, ObsState)|
    ensures forall i :: 0 <= i < |r| ==> r[i].region == DistinctKeys(obs, ObsState)[i] && RegionRowFits(obs, r[i])
  {
    var keys := DistinctKeys(obs, ObsState);
    forall i | 0 <= i < |r|
      ensures RegionRowFits(obs, r[i])
    {
      CountMonotone(obs, InGroup(ObsState, keys[i], Resistant), InGroup(ObsState, keys[i], All()));
      assert keys[i] in keys;
      var o :| o in obs && ObsState(o) == keys[i];
      CountPositive(obs, InGroup(ObsState, keys[i], All()), o);
    }
  }

  /** Each state appears once, with the resistant share of that state's profiles. */
  lemma RegionalComparisonShape(t: Tables)
    ensures forall i, j :: 0 <= i < j < |RegionalComparison(t)| ==> RegionalComparison(t)[i].region != RegionalComparison(t)[j].region
    ensures forall i :: 0 <= i < |RegionalComparison(t)| ==> RegionRowFits(StateObs(t), RegionalComparison(t)[i])
  {
    RegionalKeepsAll(t);
    RegionRows(StateObs(t), RegionalComparison(t));
  }

  /** Some row of `r` is about the state `s`. */
  predicate HasRegionRow(r: seq<RegionRate>, s: string)
  {
    exists i :: 0 <= i < |r| && r[i].region == s
  }

  /** Some joined row comes from a facility of the state `s`. */
  predicate StateReported(t: Tables, s: string)
  {
    exists o :: o in Join(t) && o.facility.state == Some(s)
  }

  /** The rows name exactly the grouped states. */
  lemma RegionRowsCover(obs: seq<Obs>, r: seq<RegionRate>, s: string)
    requires r == RegionRates(RegionCounts(obs, DistinctKeys(obs, ObsState)))
    ensures HasRegionRow(r, s) <==> s in DistinctKeys(obs, ObsState)
  {
    RegionRows(obs, r);
    RowsNameKeys(r, DistinctKeys(obs, ObsState), s);
  }

  /** Rows named position by position after the keys name exactly the keys. */
  lemma RowsNameKeys(r: seq<RegionRate>, keys: seq<string>, s: string)
    requires |r| == |keys| && forall i :: 0 <= i < |r| ==> r[i].region == keys[i]
    ensures HasRegionRow(r, s) <==> s in keys
  {
    if s in keys {
      var i :| 0 <= i < |keys| && keys[i] == s;
      assert r[i].region == s;
    }
  }

  /** A state is grouped exactly when a joined row comes from a facility of that state. */
  lemma StateGrouped(t: Tables, s: string)
    ensures s in DistinctKeys(StateObs(t), ObsState) <==> StateReported(t, s)
  {
    var obs := StateObs(t);
    if o :| o in Join(t) && o.facility.state == Some(s) {
      assert o in obs && ObsState(o) == s;
    }
  }

  /** A state has a row exactly when some profile was reported from a facility of that state. */
  lemma RegionalComparisonCovers(t: Tables)
    ensures forall s :: HasRegionRow(RegionalComparison(t), s) <==> StateReported(t, s)
  {
    RegionalKeepsAll(t);
    var r := RegionalComparison(t);
    assert r == RegionRates(RegionCounts(StateObs(t), DistinctKeys(StateObs(t), ObsState)));
    forall s
      ensures HasRegionRow(r, s) <==> StateReported(t, s)
    {
      RegionRowsCover(StateObs(t), r, s);
      StateGrouped(t, s);
    }
  }

  // ---------------------------------------------------------------- resistance trends: the month walk

  /** The loop's step: the first of the month after `c`'s, at midnight. */
  function NextMonthStart(c: DateTime): (r: DateTime)
    ensures MonthIndex(r) == MonthIndex(c) + 1 && r.day == 1 && r.second == 0
    ensures 1 <= c.month <= 12 ==> Valid(r)
  {
    if c.month == 12 then DateTime(c.year + 1, 1, 1, 0) else DateTime(c.year, c.month + 1, 1, 0)
  }

  /** `strftime('%Y-%m')`. */
  function YearMonth(c: DateTime): string
  {
    ZeroPad(DecimalString(NatOr0(c.year)), 4) + "-" + ZeroPad(DecimalString(NatOr0(c.month)), 2)
  }

  /** One month of the trend: its label, its first instant and the counts it is computed from. */
  datatype MonthRate = MonthRate(month: string, start: DateTime, total: nat, resistant: nat, rate: real)

  function RateOf(t: Tables, c: DateTime, inWindow: Obs -> bool, resistantInWindow: Obs -> bool): MonthRate
  {
    var total := Count(Join(t), inWindow);
    var resistant := Count(Join(t), resistantInWindow);
    MonthRate(YearMonth(c), c, total, resistant, Percent(resistant, total))
  }

  /** `lo <= report_date <= hi`, both ends included as the query has them. */
  function Between(lo: DateTime, hi: DateTime): Obs -> bool
  {
    (o: Obs) => Stamp(lo) <= Stamp(o.report.reportDate) <= Stamp(hi)
  }

  function ResistantBetween(lo: DateTime, hi: DateTime): Obs -> bool
  {
    (o: Obs) => Resistant(o) && Stamp(lo) <= Stamp(o.report.reportDate) <= Stamp(hi)
  }

  /** `min(datetime(c.year, c.month + 1, 1) - timedelta(days=1), end)` as written: `None` where the
      constructor raises, which is every December. */
  function MonthEndAsWritten(c: DateTime, end: DateTime): (r: Option<DateTime>)
    ensures r.None? <==> !(YearInRange(c.year) && ValidDate(c.year, c.month + 1, 1))
  {
    match Make(c.year, c.month + 1, 1)
    case None => None
    case Some(first) =>
      var last := SubDays(first, 1);
      Some(if Stamp(last) <= Stamp(end) then last else end)
  }

  /** The loop of `resistance_trends` as written, from `c` on with the months `acc` done; `Err` is the
      ValueError that escapes it. */
  function WalkAsWritten(t: Tables, c: DateTime, end: DateTime, acc: seq<MonthRate>): Result<seq<MonthRate>, string>
    requires Valid(c) && Valid(end)
    decreases MonthIndex(end) - MonthIndex(c) + 1
  {
    if Stamp(c) >= Stamp(end) then Ok(acc)
    else
      match MonthEndAsWritten(c, end)
      case None => Err("month must be in 1..12")
      case Some(me) =>
        StampMonthOrder(c, end);
        WalkAsWritten(t, NextMonthStart(c), end, acc + [RateOf(t, c, Between(c, me), ResistantBetween(c, me))])
  }

  /** `resistance_trends` as written. */
  function ResistanceTrendsAsWritten(t: Tables, now: DateTime): Result<seq<MonthRate>, string>
    requires Valid(now)
  {
    WalkAsWritten(t, YearBefore(now), now, [])
  }

  /** A walk that reaches a December before `end` raises there. */
  lemma {:induction false} WalkRaisesAtDecember(t: Tables, c: DateTime, end: DateTime, acc: seq<MonthRate>, december: int)
    requires Valid(c) && Valid(end) && december % 12 == 11 && MonthIndex(c) <= december
    requires MonthIndex(c) == december ==> Stamp(c) < Stamp(end)
    requires MonthIndex(c) < december ==> Stamp(FirstOfIndex(december)) < Stamp(end)
    ensures WalkAsWritten(t, c, end, acc).Err?
    decreases december - MonthIndex(c)
  {
    if MonthIndex(c) == december {
      assert c.month == 12;
    } else {
      StampMonthOrder(c, FirstOfIndex(december));
      match MonthEndAsWritten(c, end)
      case None =>
      case Some(me) =>
        var next := NextMonthStart(c);
        var acc' := acc + [RateOf(t, c, Between(c, me), ResistantBetween(c, me))];
        StampMonthOrder(c, end);
        assert WalkAsWritten(t, c, end, acc) == WalkAsWritten(t, next, end, acc');
        if MonthIndex(next) == december {
          FirstOfIndexOf(next);
        }
        WalkRaisesAtDecember(t, next, end, acc', december);
    }
  }

  /** The first December at or after month index `m`. */
  lemma DecemberIndex(m: int)
    ensures (m + (11 - m % 12)) % 12 == 11
  {
    assert m + (11 - m % 12) == 12 * (m / 12) + 11;
  }

  /** The trend window always spans a December before `now`, so the endpoint as written fails on every call. */
  lemma ResistanceTrendsAsWrittenRaises(t: Tables, now: DateTime)
    requires Valid(now)
    ensures ResistanceTrendsAsWritten(t, now).Err?
  {
    var start := YearBefore(now);
    var m := MonthIndex(start);
    var december := m + (11 - m % 12);
    DecemberIndex(m);
    if december > m && december == MonthIndex(now) {
      assert now.day > 1;
      FirstOfIndexOf(StartOfMonth(now));
    } else if december > m {
      StampMonthOrder(FirstOfIndex(december), now);
    }
    WalkRaisesAtDecember(t, start, now, [], december);
  }

  /** A report on the last day of a month after midnight falls outside that month's window as written,
      and before the next window's start, so it is counted in no month. */
  lemma LastDayGap(c: DateTime, end: DateTime, d: DateTime)
    requires Valid(c) && Valid(end) && Valid(d) && YearInRange(c.year) && c.month < 12
    requires d.year == c.year && d.month == c.month && d.day == DaysInMonth(c.year, c.month) && d.second > 0
    ensures MonthEndAsWritten(c, end).Some?
    ensures Stamp(d) > Stamp(MonthEndAsWritten(c, end).value)
    ensures Stamp(d) < Stamp(NextMonthStart(c))
  {
    var first := DateTime(c.year, c.month + 1, 1, 0);
    assert SubDays(first, 1) == SubDays(LastDayOfPreviousMonth(first), 0);
  }

  lemma LastDayGapExample()
    ensures var c := DateTime(2023, 5, 1, 0);
            var d := DateTime(2023, 5, 31, 43200);
            var me := MonthEndAsWritten(c, DateTime(2024, 1, 1, 0));
            me.Some? && !(Stamp(c) <= Stamp(d) <= Stamp(me.value)) && Stamp(d) < Stamp(NextMonthStart(c))
  {
    LastDayGap(DateTime(2023, 5, 1, 0), DateTime(2024, 1, 1, 0), DateTime(2023, 5, 31, 43200));
  }

  // ---------------------------------------------------------------- resistance trends: the intended walk

  /** The intended window of the month of `c`: reports of that calendar month from `c` on, up to `end` included. */
  predicate InMonthFrom(c: DateTime, end: DateTime, d: DateTime)
  {
    MonthIndex(d) == MonthIndex(c) && Stamp(c) <= Stamp(d) <= Stamp(end)
  }

  function InTrendMonth(c: DateTime, end: DateTime): Obs -> bool
  {
    (o: Obs) => InMonthFrom(c, end, o.report.reportDate)
  }

  function ResistantInTrendMonth(c: DateTime, end: DateTime): Obs -> bool
  {
    (o: Obs) => Resistant(o) && InMonthFrom(c, end, o.report.reportDate)
  }

  function MonthPoint(t: Tables, c: DateTime, end: DateTime): MonthRate
  {
    RateOf(t, c, InTrendMonth(c, end), ResistantInTrendMonth(c, end))
  }

  /** The dates the loop visits: from `c` on while before `end`, stepping to the first of the next month
      (through the year roll-over in December); `acc` holds the dates already visited. */
  function Starts(c: DateTime, end: DateTime, acc: seq<DateTime>): seq<DateTime>
    requires Valid(c) && Valid(end)
    decreases MonthIndex(end) - MonthIndex(c) + 1
  {
    if Stamp(c) >= Stamp(end) then acc
    else
      StampMonthOrder(c, end);
      Starts(NextMonthStart(c), end, acc + [c])
  }

  function TrendStarts(now: DateTime): seq<DateTime>
    requires Valid(now)
  {
    Starts(YearBefore(now), now, [])
  }

  /** One trend entry per visited date, with whole-month windows closed at `end`. */
  function PointsAt(t: Tables, cs: seq<DateTime>, end: DateTime): (r: seq<MonthRate>)
    ensures |r| == |cs|
  {
    if cs == [] then [] else PointsAt(t, cs[..|cs| - 1], end) + [MonthPoint(t, cs[|cs| - 1], end)]
  }

  lemma {:induction false} PointsAtAre(t: Tables, cs: seq<DateTime>, end: DateTime)
    ensures forall k :: 0 <= k < |cs| ==> PointsAt(t, cs, end)[k] == MonthPoint(t, cs[k], end)
  {
    if cs != [] {
      var init := cs[..|cs| - 1];
      PointsAtAre(t, init, end);
      forall k | 0 <= k < |cs| - 1
        ensures PointsAt(t, cs, end)[k] == MonthPoint(t, cs[k], end)
      {
        assert PointsAt(t, cs, end)[k] == PointsAt(t, init, end)[k];
        assert init[k] == cs[k];
      }
    }
  }

  /** `resistance_trends` with the intended month windows. */
  function ResistanceTrends(t: Tables, now: DateTime): seq<MonthRate>
    requires Valid(now)
  {
    PointsAt(t, TrendStarts(now), now)
  }

  /** The date of step `k` of a walk from `c`: `c` itself, then the first of each following month. */
  function StepStart(c: DateTime, k: nat): DateTime
  {
    if k == 0 then c else FirstOfIndex(MonthIndex(c) + k)
  }

  lemma NextStepStart(c: DateTime, k: nat)
    requires Valid(c)
    ensures StepStart(NextMonthStart(c), k) == StepStart(c, k + 1)
  {
    if k == 0 {
      FirstOfIndexOf(NextMonthStart(c));
    }
  }

  /** The walk visits step after step while the step's date is before `end`, and stops at the first that is not. */
  lemma {:induction false} StartsSteps(c: DateTime, end: DateTime, acc: seq<DateTime>)
    requires Valid(c) && Valid(end)
    ensures |Starts(c, end, acc)| >= |acc| && Starts(c, end, acc)[..|acc|] == acc
    ensures forall k :: |acc| <= k < |Starts(c, end, acc)| ==>
              Starts(c, end, acc)[k] == StepStart(c, k - |acc|) && Stamp(Starts(c, end, acc)[k]) < Stamp(end)
    ensures Stamp(StepStart(c, |Starts(c, end, acc)| - |acc|)) >= Stamp(end)
    decreases MonthIndex(end) - MonthIndex(c) + 1
  {
    if Stamp(c) < Stamp(end) {
      StampMonthOrder(c, end);
      var next := NextMonthStart(c);
      var acc' := acc + [c];
      StartsSteps(next, end, acc');
      var r := Starts(c, end, acc);
      assert r == Starts(next, end, acc');
      forall k | |acc| < k < |r|
        ensures r[k] == StepStart(c, k - |acc|)
      {
        NextStepStart(c, k - |acc| - 1);
      }
      assert r[|acc|] == acc'[|acc|];
      NextStepStart(c, |r| - |acc| - 1);
      assert r[..|acc|] == acc'[..|acc|];
    }
  }

  /** `s` steps month by month from `start`, every date before `now`, and the step after the last is not before `now`. */
  predicate MonthSteps(s: seq<DateTime>, start: DateTime, now: DateTime)
  {
    |s| >= 1 && s[0] == start && Valid(start) &&
    (forall k :: 0 <= k < |s| ==> MonthIndex(s[k]) == MonthIndex(start) + k && Stamp(s[k]) < Stamp(now)) &&
    (forall k :: 0 < k < |s| ==> Valid(s[k]) && s[k].day == 1 && s[k].second == 0) &&
    Stamp(FirstOfIndex(MonthIndex(start) + |s|)) >= Stamp(now)
  }

  /** The trend's dates: at least twelve, the first a year before `now` and each next one the first of the
      next month, all before `now`, one per calendar month. */
  lemma TrendStartsShape(now: DateTime)
    requires Valid(now)
    ensures |TrendStarts(now)| >= 12
    ensures MonthSteps(TrendStarts(now), YearBefore(now), now)
  {
    var start := YearBefore(now);
    var none: seq<DateTime> := [];
    var s := Starts(start, now, none);
    assert TrendStarts(now) == s;
    StartsSteps(start, now, none);
    assert Stamp(StepStart(start, |s|)) >= Stamp(now) by {
      assert |s| - |none| == |s|;
    }
    if |s| < 12 {
      EarlySteps(now, |s|);
    }
    assert s[0] == StepStart(start, 0);
  }

  /** The first twelve steps from a year before `now` are all before `now`. */
  lemma EarlySteps(now: DateTime, n: nat)
    requires Valid(now) && n < 12
    ensures Stamp(StepStart(YearBefore(now), n)) < Stamp(now)
  {
    var f := StepStart(YearBefore(now), n);
    if n > 0 {
      if MonthIndex(f) < MonthIndex(now) {
        StampMonthOrder(f, now);
      } else {
        FirstOfIndexOf(StartOfMonth(now));
      }
    }
  }

  /** Entry `k` of the trend counts the reports of its date's month from that date up to `now`. */
  lemma ResistanceTrendsCounts(t: Tables, now: DateTime)
    requires Valid(now)
    ensures var s := TrendStarts(now);
            var r := ResistanceTrends(t, now);
            |r| == |s| &&
            forall k :: 0 <= k < |r| ==>
              r[k].start == s[k] && r[k].month == YearMonth(s[k]) &&
              r[k].total == Count(Join(t), InTrendMonth(s[k], now)) &&
              r[k].resistant == Count(Join(t), ResistantInTrendMonth(s[k], now)) &&
              r[k].resistant <= r[k].total && 0.0 <= r[k].rate <= 100.0 &&
              r[k].rate == Percent(r[k].resistant, r[k].total)
  {
    var s := TrendStarts(now);
    var r := ResistanceTrends(t, now);
    PointsAtAre(t, s, now);
    forall k | 0 <= k < |r|
      ensures r[k].resistant <= r[k].total
    {
      CountMonotone(Join(t), ResistantInTrendMonth(s[k], now), InTrendMonth(s[k], now));
    }
  }

  /** Dates that step month by month leave no date from the first up to `now` out, and put each in one
      step's month only. */
  lemma StepsCover(s: seq<DateTime>, start: DateTime, now: DateTime, d: DateTime)
    requires Valid(now) && Valid(d) && MonthSteps(s, start, now)
    requires Stamp(start) <= Stamp(d) < Stamp(now)
    ensures 0 <= MonthIndex(d) - MonthIndex(start) < |s|
    ensures InMonthFrom(s[MonthIndex(d) - MonthIndex(start)], now, d)
    ensures forall j :: 0 <= j < |s| && j != MonthIndex(d) - MonthIndex(start) ==> !InMonthFrom(s[j], now, d)
  {
    StampMonthOrder(start, d);
    var k := MonthIndex(d) - MonthIndex(start);
    if k >= |s| {
      FirstOfMonthBefore(FirstOfIndex(MonthIndex(start) + |s|), d);
      assert false;
    }
    if k > 0 {
      FirstOfMonthBefore(s[k], d);
    }
  }

  /** Every report date from the trend's first date up to (not including) `now` is counted in exactly one entry. */
  lemma ResistanceTrendsCover(now: DateTime, d: DateTime)
    requires Valid(now) && Valid(d)
    requires Stamp(YearBefore(now)) <= Stamp(d) < Stamp(now)
    ensures 0 <= MonthIndex(d) - MonthIndex(YearBefore(now)) < |TrendStarts(now)|
    ensures InMonthFrom(TrendStarts(now)[MonthIndex(d) - MonthIndex(YearBefore(now))], now, d)
    ensures forall j :: 0 <= j < |TrendStarts(now)| && j != MonthIndex(d) - MonthIndex(YearBefore(now)) ==>
              !InMonthFrom(TrendStarts(now)[j], now, d)
  {
    TrendStartsShape(now);
    StepsCover(TrendStarts(now), YearBefore(now), now, d);
  }

  /** Agreement with the endpoint as written on a month that it does handle: a window ending at the close of
      the month, that is within a second of midnight on the last day. */
  lemma WindowsAgreeBeforeLastDay(c: DateTime, end: DateTime, d: DateTime)
    requires Valid(c) && Valid(end) && Valid(d) && YearInRange(c.year) && c.month < 12
    requires Stamp(c) <= Stamp(d) <= Stamp(end)
    requires MonthIndex(d) == MonthIndex(c) && (d.day < DaysInMonth(c.year, c.month) || d.second == 0)
    ensures InMonthFrom(c, end, d)
    ensures MonthEndAsWritten(c, end).Some? && Stamp(d) <= Stamp(MonthEndAsWritten(c, end).value)
  {
    var first := DateTime(c.year, c.month + 1, 1, 0);
    assert SubDays(first, 1) == SubDays(LastDayOfPreviousMonth(first), 0);
    assert d.year == c.year && d.month == c.month;
  }

  // ---------------------------------------------------------------- the endpoints, on the session

  /** `map_data`: for each located facility, the resistant share of its profiles. */
  method MapDataApi(db: Database) returns (points: seq<DataPoint>)
    ensures points == MapData(db.Snapshot())
  {
    var t := db.Snapshot();
    points := [];
    var i := 0;
    while i < |t.facilities|
      invariant 0 <= i <= |t.facilities|
      invariant points == DataPoints(t, t.facilities[..i])
    {
      assert t.facilities[..i + 1][..i] == t.facilities[..i];
      var f := t.facilities[i];
      if f.latitude.Some? && f.longitude.Some? {
        var level := FacilityLevel(t, f.id);
        points := points + [DataPoint(f.id, f.latitude.value, f.longitude.value, level, f.name, f.facilityType)];
      }
      i := i + 1;
    }
    assert t.facilities[..|t.facilities|] == t.facilities;
  }

  /** The resistant percentage of a facility's profiles, 0 when it has none. */
  method FacilityLevel(t: Tables, facilityId: nat) returns (level: real)
    ensures level == Percent(Count(FacilityObs(t, facilityId), Resistant), |FacilityObs(t, facilityId)|)
  {
    var obs := FacilityObs(t, facilityId);
    var resistant := 0;
    var j := 0;
    while j < |obs|
      invariant 0 <= j <= |obs|
      invariant resistant == Count(obs[..j], Resistant)
    {
      FilterPrefix(obs, j, Resistant);
      if obs[j].profile.result == "R" {
        resistant := resistant + 1;
      }
      j := j + 1;
    }
    assert obs[..|obs|] == obs;
    level := Percent(resistant, |obs|);
  }

  /** `resistance_trends`, with the intended month windows. */
  method ResistanceTrendsApi(db: Database, now: DateTime) returns (results: seq<MonthRate>)
    requires Valid(now)
    ensures results == ResistanceTrends(db.Snapshot(), now)
  {
    var t := db.Snapshot();
    var current := YearBefore(now);
    ghost var visited: seq<DateTime> := [];
    results := [];
    while Stamp(current) < Stamp(now)
      invariant Valid(current)
      invariant Starts(current, now, visited) == TrendStarts(now)
      invariant results == PointsAt(t, visited, now)
      decreases MonthIndex(now) - MonthIndex(current)
    {
      TrendLoopStep(t, current, now, visited);
      var entry := MonthEntry(t, current, now);
      results := results + [entry];
      visited := visited + [current];
      current := StepMonth(current);
    }
  }

  /** Midnight on the first of the next month: January of the next year after December. */
  method StepMonth(current: DateTime) returns (next: DateTime)
    ensures next == NextMonthStart(current)
  {
    if current.month == 12 {
      next := DateTime(current.year + 1, 1, 1, 0);
    } else {
      next := DateTime(current.year, current.month + 1, 1, 0);
    }
  }

  /** One turn of the month loop visits `c` and appends its entry. */
  lemma TrendLoopStep(t: Tables, c: DateTime, now: DateTime, visited: seq<DateTime>)
    requires Valid(c) && Valid(now) && Stamp(c) < Stamp(now)
    ensures Starts(c, now, visited) == Starts(NextMonthStart(c), now, visited + [c])
    ensures PointsAt(t, visited + [c], now) == PointsAt(t, visited, now) + [MonthPoint(t, c, now)]
  {
    StampMonthOrder(c, now);
    assert (visited + [c])[..|visited|] == visited;
  }

  /** The two counting queries of one month and its percentage. */
  method MonthEntry(t: Tables, current: DateTime, now: DateTime) returns (entry: MonthRate)
    ensures entry == MonthPoint(t, current, now)
  {
    var total := Count(Join(t), InTrendMonth(current, now));
    var resistant := Count(Join(t), ResistantInTrendMonth(current, now));
    entry := MonthRate(YearMonth(current), current, total, resistant, Percent(resistant, total));
  }

  /** `antibiotic_effectiveness`: the grouped rows, keeping those with a positive total. */
  method AntibioticEffectivenessApi(db: Database) returns (data: seq<Effect>)
    ensures data == AntibioticEffectiveness(db.Snapshot())
  {
    var t := db.Snapshot();
    var rows := EffectsOf(Join(t), DistinctKeys(Join(t), ObsAntibiotic));
    data := [];
    var j := 0;
    while j < |rows|
      invariant 0 <= j <= |rows|
      invariant data == Filter(rows[..j], Tested)
    {
      FilterPrefix(rows, j, Tested);
      if rows[j].total > 0 {
        data := data + [rows[j]];
      }
      j := j + 1;
    }
    assert rows[..|rows|] == rows;
  }

  /** `regional_comparison`: the grouped rows with a positive total, as region and rate. */
  method RegionalComparisonApi(db: Database) returns (data: seq<RegionRate>)
    ensures data == RegionalComparison(db.Snapshot())
  {
    var t := db.Snapshot();
    data := RatesOfTested(StateCounts(t));
  }

  method RatesOfTested(counts: seq<RegionCount>) returns (data: seq<RegionRate>)
    ensures data == RegionRates(Filter(counts, RegionTested))
  {
    data := [];
    var j := 0;
    while j < |counts|
      invariant 0 <= j <= |counts|
      invariant data == RegionRates(Filter(counts[..j], RegionTested))
    {
      FilterPrefix(counts, j, RegionTested);
      if counts[j].total > 0 {
        RegionRatesSnoc(Filter(counts[..j], RegionTested), counts[j]);
        data := data + [RegionRate(counts[j].region, Percent(counts[j].resistant, counts[j].total))];
      }
      j := j + 1;
    }
    assert counts[..|counts|] == counts;
  }
}
