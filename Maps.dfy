/** The map page's client logic: the locations the filter select picks, what its change handler leaves on
    the map, and the pathogen breakdown of a facility's popup. Markers and popups are modelled as the
    locations and entries they show. */
module Maps {
  import opened Common
  import Models
  import DataProcessing

  /** One entry of a facility's `pathogens` list. */
  datatype PathogenEntry = PathogenEntry(name: string, percentage: real)

  /** One element of the page's map data as the script reads it: a missing `riskLevel` or `pathogens`
      field is `None`, a missing `isEnvironmentalSample` is false. */
  datatype Location = Location(name: string, isEnvironmentalSample: bool, riskLevel: Option<string>,
                               pathogens: Option<seq<PathogenEntry>>)

  // ---------------------------------------------------------------- the filter

  /** The `mapData.filter` callback for the selected value. */
  predicate Keep(value: string, loc: Location)
  {
    (value == "environmental" && loc.isEnvironmentalSample) ||
    (value == "facility" && !loc.isEnvironmentalSample) ||
    (value == "high_risk" && loc.riskLevel == Some("High")) ||
    (value == "very_high_risk" && loc.riskLevel == Some("Very High"))
  }

  function KeepFor(value: string): Location -> bool
  {
    (loc: Location) => Keep(value, loc)
  }

  /** `filteredData`: every location for 'all', otherwise the ones the callback keeps. */
  function FilterLocations(value: string, mapData: seq<Location>): seq<Location>
  {
    if value == "all" then mapData else Filter(mapData, KeepFor(value))
  }

  /** 'all' keeps every location; any value keeps locations of the map data in their order; any value
      other than 'all' keeps exactly the locations its callback accepts. */
  lemma FilterResult(value: string, mapData: seq<Location>, loc: Location)
    ensures FilterLocations("all", mapData) == mapData
    ensures IsSubsequence(FilterLocations(value, mapData), mapData)
    ensures value != "all" ==> (loc in FilterLocations(value, mapData) <==> loc in mapData && Keep(value, loc))
  {
    FilterAllKept(mapData, All());
    FilterIsSubsequence(mapData, All());
    FilterIsSubsequence(mapData, KeepFor(value));
  }

  /** 'environmental' and 'facility' split the map data on `isEnvironmentalSample`: each location is kept by
      exactly one of them, and the two results together are as many as the locations. */
  lemma EnvironmentalFacilityPartition(mapData: seq<Location>, loc: Location)
    ensures loc in mapData ==>
              (loc in FilterLocations("environmental", mapData) <==> loc.isEnvironmentalSample) &&
              (loc in FilterLocations("facility", mapData) <==> !loc.isEnvironmentalSample)
    ensures |FilterLocations("environmental", mapData)| + |FilterLocations("facility", mapData)| == |mapData|
  {
    CountDisjoint(mapData, KeepFor("environmental"), KeepFor("facility"), All());
    CountAll(mapData);
  }

  /** 'high_risk' keeps exactly the locations whose level is "High" (so not the "Very High" ones) and
      'very_high_risk' exactly the "Very High" ones; a value the select does not offer keeps nothing. */
  lemma RiskFilters(value: string, mapData: seq<Location>, loc: Location)
    ensures loc in FilterLocations("high_risk", mapData) <==> loc in mapData && loc.riskLevel == Some("High")
    ensures loc in FilterLocations("very_high_risk", mapData) <==> loc in mapData && loc.riskLevel == Some("Very High")
    ensures value !in ["all", "environmental", "facility", "high_risk", "very_high_risk"] ==>
              FilterLocations(value, mapData) == []
  {
    if value !in ["all", "environmental", "facility", "high_risk", "very_high_risk"] {
      CountZero(mapData, KeepFor(value));
    }
  }

  /** The markers the change handler leaves on the map, as written: it removes every marker and computes
      `filteredData`, but the step that would draw it is only a comment. */
  function MarkersAfterChangeAsWritten(value: string, mapData: seq<Location>): seq<Location>
  {
    var filteredData := FilterLocations(value, mapData);
    []
  }

  /** As written, a change of the filter empties the map: even 'all' over non-empty data shows nothing,
      while the locations it selects are all of them. */
  lemma MarkersAfterChangeAsWrittenEmpties(value: string, mapData: seq<Location>)
    requires mapData != []
    ensures MarkersAfterChangeAsWritten(value, mapData) == []
    ensures |MarkersAfterChangeAsWritten("all", mapData)| < |FilterLocations("all", mapData)|
  {
    FilterResult("all", mapData, mapData[0]);
  }

  /** The markers after a change, as intended: exactly the filtered locations. */
  function MarkersAfterChange(value: string, mapData: seq<Location>): (r: seq<Location>)
    ensures IsSubsequence(r, mapData)
    ensures value == "all" ==> r == mapData
    ensures value != "all" ==> forall loc :: loc in r <==> loc in mapData && Keep(value, loc)
  {
    FilterAllKept(mapData, All());
    FilterIsSubsequence(mapData, All());
    FilterIsSubsequence(mapData, KeepFor(value));
    FilterLocations(value, mapData)
  }

  // ---------------------------------------------------------------- the popup's breakdown

  /** The breakdown a popup lists: for a facility with a non-empty `pathogens` list, its first three
      entries and whether the '...' line follows; environmental samples and facilities without entries
      have none. */
  function PopupBreakdown(loc: Location): (r: Option<(seq<PathogenEntry>, bool)>)
    ensures r.Some? <==> !loc.isEnvironmentalSample && loc.pathogens.Some? && |loc.pathogens.value| > 0
    ensures r.Some? ==> var (shown, more) := r.value;
              var ps := loc.pathogens.value;
              |shown| == (if |ps| < 3 then |ps| else 3) && ps[..|shown|] == shown && (more <==> |ps| > 3)
    ensures r.Some? ==> (r.value.1 <==> r.value.0 != loc.pathogens.value)
  {
    if loc.isEnvironmentalSample || loc.pathogens.None? || |loc.pathogens.value| == 0 then None
    else
      var ps := loc.pathogens.value;
      Some((Take(ps, 3), |ps| > 3))
  }

  function Percentage(e: PathogenEntry): real { e.percentage }

  /** On a list sorted by descending percentage the popup lists the highest ones: no entry left out has
      a higher percentage than one shown. */
  lemma PopupShowsHighest(loc: Location)
    requires loc.pathogens.Some? && SortedDesc(loc.pathogens.value, Percentage)
    ensures PopupBreakdown(loc).Some? ==>
              var ps := loc.pathogens.value;
              var shown := PopupBreakdown(loc).value.0;
              forall i, j :: 0 <= i < |shown| <= j < |ps| ==> ps[j].percentage <= shown[i].percentage
  {
    if PopupBreakdown(loc).Some? {
      var ps := loc.pathogens.value;
      var shown := PopupBreakdown(loc).value.0;
      forall i, j | 0 <= i < |shown| <= j < |ps|
        ensures ps[j].percentage <= shown[i].percentage
      {
        assert shown[i] == ps[i];
        assert Percentage(ps[i]) >= Percentage(ps[j]);
      }
    }
  }

  // ---------------------------------------------------------------- the server's map points

  /** `round(resistant / total * 100, 1)`, kept exactly as the share's tenths of a percent. */
  function EntryOf(s: DataProcessing.Share): PathogenEntry
  {
    PathogenEntry(s.name, s.tenths as real / 10.0)
  }

  function Entries(ss: seq<DataProcessing.Share>): (r: seq<PathogenEntry>)
    ensures |r| == |ss| && forall i :: 0 <= i < |ss| ==> r[i] == EntryOf(ss[i])
  {
    seq(|ss|, i requires 0 <= i < |ss| => EntryOf(ss[i]))
  }

  /** A point of the map as the page's data holds it. */
  function LocationOf(p: DataProcessing.MapPoint): Location
  {
    match p
    case FacilityPoint(_, name, _, _, _, _, risk, _, _, pathogens) =>
      Location(name, false, Some(DataProcessing.RiskLabel(risk)), Some(Entries(pathogens)))
    case SamplePoint(_, name, _, _, _, risk, _, _, _) =>
      Location(name, true, Some(DataProcessing.RiskLabel(risk)), None)
  }

  /** On the server's points the filters follow the server's classification: 'environmental' keeps the
      sample points, 'high_risk' the points classified High and 'very_high_risk' those classified Very High. */
  lemma FiltersOnServerPoints(p: DataProcessing.MapPoint)
    ensures Keep("environmental", LocationOf(p)) <==> p.SamplePoint?
    ensures Keep("facility", LocationOf(p)) <==> p.FacilityPoint?
    ensures Keep("high_risk", LocationOf(p)) <==> p.risk == DataProcessing.High
    ensures Keep("very_high_risk", LocationOf(p)) <==> p.risk == DataProcessing.VeryHigh
  {
  }

  /** Entries keep the order of descending shares. */
  lemma EntriesSorted(ss: seq<DataProcessing.Share>)
    requires SortedDesc(ss, DataProcessing.ShareTenths)
    ensures SortedDesc(Entries(ss), Percentage)
  {
    var es := Entries(ss);
    forall i, j | 0 <= i < j < |es|
      ensures Percentage(es[i]) >= Percentage(es[j])
    {
      assert DataProcessing.ShareTenths(ss[i]) >= DataProcessing.ShareTenths(ss[j]);
    }
  }

  /** A facility's popup lists its three pathogens of highest resistance, since the server sorts the
      breakdown by descending percentage. */
  lemma FacilityPopupShowsHighest(t: Models.Tables, f: Models.Facility)
    requires DataProcessing.HasCoordinates(f)
    ensures var loc := LocationOf(DataProcessing.FacilityPointOf(t, f, DataProcessing.FacilityGroups(t, f)));
            PopupBreakdown(loc).Some? ==>
              var ps := loc.pathogens.value;
              var shown := PopupBreakdown(loc).value.0;
              forall i, j :: 0 <= i < |shown| <= j < |ps| ==> ps[j].percentage <= shown[i].percentage
  {
    var p := DataProcessing.FacilityPointOf(t, f, DataProcessing.FacilityGroups(t, f));
    EntriesSorted(p.pathogens);
    PopupShowsHighest(LocationOf(p));
  }
}
