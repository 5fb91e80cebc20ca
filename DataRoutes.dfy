/** The data blueprint: the per-region resistance API, the filters of the report list, the
    direct-entry form with its antibiotic/result pairing, and the upload processors. */
module DataRoutes {
  import opened Common
  import opened Calendar
  import opened Models
  import opened Utils
  import opened DataProcessing
  import opened Dashboard

  // ---------------------------------------------------------------- get_resistance_by_region

  /** One entry of the per-region API: the state, its profile count, its resistant count and their share. */
  datatype RegionEntry = RegionEntry(region: string, totalTests: nat, resistantCount: nat, rate: real)

  /** The zero-total guard gives 0; the two-decimal rounding is left to display. */
  function RegionEntryOf(c: RegionCount): RegionEntry
  {
    RegionEntry(c.region, c.total, c.resistant, Percent(c.resistant, c.total))
  }

  function RegionEntries(cs: seq<RegionCount>): (r: seq<RegionEntry>)
    ensures |r| == |cs|
    ensures forall i :: 0 <= i < |r| ==> r[i] == RegionEntryOf(cs[i])
  {
    if cs == [] then [] else RegionEntries(cs[..|cs| - 1]) + [RegionEntryOf(cs[|cs| - 1])]
  }

  /** `get_resistance_by_region`: the state groups of the joined rows with a non-null state, without
      the `total > 0` filter of the dashboard's comparison. */
  function ResistanceByRegion(t: Tables): seq<RegionEntry>
  {
    RegionEntries(StateCounts(t))
  }

  /** One entry: a state grouped once, its counts over the joined rows of that state, and the exact share. */
  predicate RegionEntryFits(obs: seq<Obs>, e: RegionEntry)
  {
    e.totalTests == Count(obs, InGroup(ObsState, e.region, All())) &&
    e.resistantCount == Count(obs, InGroup(ObsState, e.region, Resistant)) &&
    0 < e.totalTests && e.resistantCount <= e.totalTests &&
    e.rate == Percent(e.resistantCount, e.totalTests) && 0.0 <= e.rate <= 100.0
  }

  /** Each state appears once, with the counts of its rows and their resistant share. */
  lemma ResistanceByRegionCounts(t: Tables)
    ensures forall i, j :: 0 <= i < j < |ResistanceByRegion(t)| ==>
              ResistanceByRegion(t)[i].region != ResistanceByRegion(t)[j].region
    ensures forall i :: 0 <= i < |ResistanceByRegion(t)| ==> RegionEntryFits(StateObs(t), ResistanceByRegion(t)[i])
  {
    var obs := StateObs(t);
    var keys := DistinctKeys(obs, ObsState);
    var r := ResistanceByRegion(t);
    forall i | 0 <= i < |r|
      ensures RegionEntryFits(obs, r[i])
    {
      assert r[i].region == keys[i];
      CountMonotone(obs, InGroup(ObsState, keys[i], Resistant), InGroup(ObsState, keys[i], All()));
      assert keys[i] in keys;
      var o :| o in obs && ObsState(o) == keys[i];
      CountPositive(obs, InGroup(ObsState, keys[i], All()), o);
    }
  }

  /** The API and the dashboard's regional comparison list the same states with the same rates: every
      group has rows, so the comparison's `total > 0` filter drops nothing. */
  lemma ResistanceByRegionAgrees(t: Tables)
    ensures |ResistanceByRegion(t)| == |RegionalComparison(t)|
    ensures forall i :: 0 <= i < |ResistanceByRegion(t)| ==>
              ResistanceByRegion(t)[i].region == RegionalComparison(t)[i].region &&
              ResistanceByRegion(t)[i].rate == RegionalComparison(t)[i].rate
  {
    RegionalKeepsAll(t);
  }

  /** A state has an entry exactly when some profile was reported from a facility of that state; a
      facility without a state contributes to no entry. */
  lemma ResistanceByRegionCovers(t: Tables, s: string)
    ensures (exists i :: 0 <= i < |ResistanceByRegion(t)| && ResistanceByRegion(t)[i].region == s) <==> StateReported(t, s)
  {
    ResistanceByRegionAgrees(t);
    RegionalComparisonCovers(t);
    if HasRegionRow(RegionalComparison(t), s) {
      var i :| 0 <= i < |RegionalComparison(t)| && RegionalComparison(t)[i].region == s;
      assert ResistanceByRegion(t)[i].region == s;
    }
    if i :| 0 <= i < |ResistanceByRegion(t)| && ResistanceByRegion(t)[i].region == s {
      assert RegionalComparison(t)[i].region == s;
    }
  }

  // ---------------------------------------------------------------- view_data filters

  /** The query parameters of the report list. The ids come through `type=int` (`None` when absent or
      not an integer); the dates are raw strings. */
  datatype ViewQuery = ViewQuery(facilityId: Option<int>, pathogenId: Option<int>, dateFrom: Option<string>, dateTo: Option<string>)

  /** A given date bound is parsed with `%Y-%m-%d`; a string that does not parse raises. */
  function Bound(parse: (DateFormat, string) -> Option<DateTime>, x: Option<string>): (r: Result<Option<DateTime>, string>)
    ensures !TruthyText(x) ==> r == Ok(None)
    ensures TruthyText(x) ==> (r.Ok? <==> parse(YmdDash, x.value).Some?)
    ensures TruthyText(x) && r.Ok? ==> r.value == parse(YmdDash, x.value)
  {
    if !TruthyText(x) then Ok(None)
    else match parse(YmdDash, x.value)
      case None => Err("ValueError")
      case Some(d) => Ok(Some(d))
  }

  /** A falsy id adds no filter. */
  function GivenId(x: Option<int>): (r: Option<int>)
    ensures r.Some? <==> TruthyInt(x)
    ensures r.Some? ==> r == x
  {
    if TruthyInt(x) then x else None
  }

  /** The conditions of the chained filters, once the bounds are parsed; `None` adds no condition. */
  datatype ReportFilter = ReportFilter(facilityId: Option<int>, pathogenId: Option<int>, from: Option<DateTime>, to: Option<DateTime>)

  /** The report has some profile of the pathogen: the join with the profiles. */
  predicate HasPathogenProfile(t: Tables, r: LabReport, pathogenId: int)
  {
    exists p :: p in t.profiles && p.labReportId == r.id && p.pathogenId == pathogenId
  }

  predicate PassesFilter(t: Tables, f: ReportFilter, r: LabReport)
  {
    (f.facilityId.Some? ==> r.facilityId == f.facilityId.value) &&
    (f.pathogenId.Some? ==> HasPathogenProfile(t, r, f.pathogenId.value)) &&
    (f.from.Some? ==> Stamp(f.from.value) <= Stamp(r.reportDate)) &&
    (f.to.Some? ==> Stamp(r.reportDate) <= Stamp(f.to.value))
  }

  function Passes(t: Tables, f: ReportFilter): LabReport -> bool
  {
    (r: LabReport) => PassesFilter(t, f, r)
  }

  /** The filter a query asks for, once both of its date bounds have parsed. */
  function QueryFilter(parse: (DateFormat, string) -> Option<DateTime>, q: ViewQuery): ReportFilter
    requires Bound(parse, q.dateFrom).Ok? && Bound(parse, q.dateTo).Ok?
  {
    ReportFilter(GivenId(q.facilityId), GivenId(q.pathogenId), Bound(parse, q.dateFrom).value, Bound(parse, q.dateTo).value)
  }

  /** `view_data`: the reports passing every applicable filter, newest `report_date` first, or the parse
      error of a bound. The pagination is not part of this function. */
  function ViewData(t: Tables, parse: (DateFormat, string) -> Option<DateTime>, q: ViewQuery): Result<seq<LabReport>, string>
  {
    match Bound(parse, q.dateFrom)
    case Err(e) => Err(e)
    case Ok(from) =>
      match Bound(parse, q.dateTo)
      case Err(e) => Err(e)
      case Ok(to) => Ok(SortDesc(Filter(t.reports, Passes(t, ReportFilter(GivenId(q.facilityId), GivenId(q.pathogenId), from, to))), ReportTime))
  }

  /** The list fails exactly when a given bound does not parse. */
  lemma ViewDataFails(t: Tables, parse: (DateFormat, string) -> Option<DateTime>, q: ViewQuery)
    ensures ViewData(t, parse, q).Err? <==>
              (TruthyText(q.dateFrom) && parse(YmdDash, q.dateFrom.value).None?) ||
              (TruthyText(q.dateTo) && parse(YmdDash, q.dateTo.value).None?)
  {
  }

  /** A report is listed exactly when it is stored and meets every applicable filter; both date bounds
      are inclusive, compared against the midnight the date string parses to. */
  lemma ViewDataMembership(t: Tables, parse: (DateFormat, string) -> Option<DateTime>, q: ViewQuery, r: LabReport)
    requires ViewData(t, parse, q).Ok?
    ensures r in ViewData(t, parse, q).value <==>
              r in t.reports &&
              (TruthyInt(q.facilityId) ==> r.facilityId == q.facilityId.value) &&
              (TruthyInt(q.pathogenId) ==> HasPathogenProfile(t, r, q.pathogenId.value)) &&
              (TruthyText(q.dateFrom) ==> Stamp(parse(YmdDash, q.dateFrom.value).value) <= Stamp(r.reportDate)) &&
              (TruthyText(q.dateTo) ==> Stamp(r.reportDate) <= Stamp(parse(YmdDash, q.dateTo.value).value))
  {
    var from := Bound(parse, q.dateFrom).value;
    var to := Bound(parse, q.dateTo).value;
    var f := ReportFilter(GivenId(q.facilityId), GivenId(q.pathogenId), from, to);
    var kept := Filter(t.reports, Passes(t, f));
    assert ViewData(t, parse, q).value == SortDesc(kept, ReportTime);
    assert r in SortDesc(kept, ReportTime) <==> r in kept by {
      assert r in SortDesc(kept, ReportTime) <==> r in multiset(SortDesc(kept, ReportTime));
    }
    assert Passes(t, f)(r) == PassesFilter(t, f, r);
  }

  /** The list is newest first, and it holds each stored report that passes the filter exactly as often
      as the store does. */
  lemma ViewDataNewestFirst(t: Tables, parse: (DateFormat, string) -> Option<DateTime>, q: ViewQuery)
    requires ViewData(t, parse, q).Ok?
    ensures SortedDesc(ViewData(t, parse, q).value, ReportTime)
    ensures multiset(ViewData(t, parse, q).value) == multiset(Filter(t.reports, Passes(t, QueryFilter(parse, q))))
    ensures IsSubsequence(Filter(t.reports, Passes(t, QueryFilter(parse, q))), t.reports)
  {
    FilterIsSubsequence(t.reports, Passes(t, QueryFilter(parse, q)));
  }

  /** An id parameter of 0 is falsy, so it filters nothing, exactly as an absent one. */
  lemma ViewDataZeroId(t: Tables, parse: (DateFormat, string) -> Option<DateTime>, q: ViewQuery)
    ensures ViewData(t, parse, q.(facilityId := Some(0))) == ViewData(t, parse, q.(facilityId := None))
    ensures ViewData(t, parse, q.(pathogenId := Some(0))) == ViewData(t, parse, q.(pathogenId := None))
  {
  }

  /** A report later than midnight on the `date_to` day is not listed: the upper bound covers only the first
      instant of its day. */
  lemma ViewDataDropsRestOfLastDay(t: Tables, parse: (DateFormat, string) -> Option<DateTime>, q: ViewQuery, r: LabReport)
    requires ViewData(t, parse, q).Ok? && TruthyText(q.dateTo)
    requires Stamp(r.reportDate) > Stamp(parse(YmdDash, q.dateTo.value).value)
    ensures r !in ViewData(t, parse, q).value
  {
    ViewDataMembership(t, parse, q, r);
  }

  // ---------------------------------------------------------------- process_csv_data / process_json_data

  /** The CSV processor is a stub: it stores nothing and reports no records processed. */
  function ProcessCsvData(rows: seq<Record>, facilityId: nat): (successCount: nat)
    ensures successCount == 0
  {
    0
  }

  /** The JSON processor is a stub: it stores nothing and reports no records processed. */
  function ProcessJsonData(items: seq<Record>, facilityId: nat): (successCount: nat)
    ensures successCount == 0
  {
    0
  }

  // ---------------------------------------------------------------- process_form_data

  /** The direct-entry form. `None` marks an absent field; the two lists are the repeated
      `antibiotic_id` and `result` fields, in form order. */
  datatype FormInput = FormInput(
    facilityId: Option<nat>, sampleType: string, collectionDate: Option<string>, patientIdentifier: Option<string>,
    pathogenId: Option<nat>, antibiotics: seq<nat>, results: seq<string>)

  /** The text an f-string makes of the identifier: an absent one becomes "None". */
  function FormatField(x: Option<string>): string
  {
    if x.Some? then x.value else "None"
  }

  /** The profiles the loop over the first `n` antibiotics adds: index `i` only while `i < |results|`,
      each with the next profile id after `base`. */
  function FormProfiles(reportId: nat, pathogenId: nat, abx: seq<nat>, results: seq<string>, base: nat, n: nat): seq<Profile>
    requires n <= |abx|
  {
    if n == 0 then []
    else
      var ps := FormProfiles(reportId, pathogenId, abx, results, base, n - 1);
      ps + if n - 1 < |results| then [Profile(base + |ps| + 1, reportId, pathogenId, abx[n - 1], results[n - 1])] else []
  }

  /** The profile pairing antibiotic `i` with result `i`. */
  function PairedProfile(reportId: nat, pathogenId: nat, abx: seq<nat>, results: seq<string>, base: nat, i: nat): Profile
    requires i < |abx| && i < |results|
  {
    Profile(base + i + 1, reportId, pathogenId, abx[i], results[i])
  }

  function Min(a: nat, b: nat): nat { if a <= b then a else b }

  /** Exactly one profile per index present in both lists, pairing antibiotic `i` with result `i`. */
  lemma {:induction false} FormProfilesPaired(reportId: nat, pathogenId: nat, abx: seq<nat>, results: seq<string>, base: nat, n: nat)
    requires n <= |abx|
    ensures |FormProfiles(reportId, pathogenId, abx, results, base, n)| == Min(n, |results|)
    ensures forall i :: 0 <= i < Min(n, |results|) ==>
              FormProfiles(reportId, pathogenId, abx, results, base, n)[i] == PairedProfile(reportId, pathogenId, abx, results, base, i)
  {
    if n > 0 {
      FormProfilesPaired(reportId, pathogenId, abx, results, base, n - 1);
    }
  }

  /** The report row of a submission from facility `facilityId`. */
  function FormReport(t: Tables, env: Env, userId: nat, form: FormInput, facilityId: nat, collected: DateTime): LabReport
  {
    var id := |t.reports| + 1;
    LabReport(id, env.reportIds(id), facilityId, userId, env.now, Some(collected), form.sampleType,
              HashPatientId(env.hash, FormatField(form.patientIdentifier), None, env.saltEnv))
  }

  /** Some antibiotic is paired with a result, so the loop adds at least one profile. */
  predicate HasPair(form: FormInput)
  {
    |form.antibiotics| > 0 && |form.results| > 0
  }

  /** `process_form_data` as a function of the store: a collection date that is absent or not `%Y-%m-%d`
      raises before anything is added; a missing facility violates the report's NOT NULL column at the
      flush; a missing pathogen violates the profile's at the commit when some profile is added; otherwise
      one report and its paired profiles are added. */
  function FormSubmission(t: Tables, env: Env, userId: nat, form: FormInput): Result<Tables, string>
  {
    if form.collectionDate.None? then Err("TypeError")
    else match env.parse(YmdDash, form.collectionDate.value)
      case None => Err("ValueError")
      case Some(collected) =>
        if form.facilityId.None? then Err("IntegrityError")
        else if form.pathogenId.None? && HasPair(form) then Err("IntegrityError")
        else
          var report := FormReport(t, env, userId, form, form.facilityId.value, collected);
          Ok(t.(reports := t.reports + [report],
                profiles := t.profiles + FormProfiles(report.id, GetOr(form.pathogenId, 0), form.antibiotics, form.results,
                                                      |t.profiles|, |form.antibiotics|)))
  }

  /** The submission fails exactly on a missing or unparseable collection date, a missing facility, or a
      missing pathogen with some antibiotic paired with a result; the date is checked first. */
  lemma FormSubmissionFails(t: Tables, env: Env, userId: nat, form: FormInput)
    ensures FormSubmission(t, env, userId, form).Err? <==>
              form.collectionDate.None? || env.parse(YmdDash, form.collectionDate.value).None? ||
              form.facilityId.None? || (form.pathogenId.None? && HasPair(form))
    ensures FormSubmission(t, env, userId, form) == Err("IntegrityError") <==>
              form.collectionDate.Some? && env.parse(YmdDash, form.collectionDate.value).Some? &&
              (form.facilityId.None? || (form.pathogenId.None? && HasPair(form)))
  {
  }

  /** A successful submission adds one report, from the current user at the current time, with the parsed
      collection date and the hashed identifier, plus min(|antibiotics|, |results|) profiles of that report
      pairing index `i` with index `i`; no other table changes. */
  lemma FormSubmissionAdds(t: Tables, env: Env, userId: nat, form: FormInput)
    requires FormSubmission(t, env, userId, form).Ok?
    ensures var t' := FormSubmission(t, env, userId, form).value;
            |t'.reports| == |t.reports| + 1 && t'.reports[..|t.reports|] == t.reports
    ensures var r := FormSubmission(t, env, userId, form).value.reports[|t.reports|];
            form.facilityId.Some? &&
            r.id == |t.reports| + 1 && r.facilityId == form.facilityId.value && r.userId == userId && r.reportDate == env.now &&
            r.sampleDate == env.parse(YmdDash, form.collectionDate.value) &&
            r.patientIdentifier == env.hash(FormatField(form.patientIdentifier) + EffectiveSalt(None, env.saltEnv))
    ensures var t' := FormSubmission(t, env, userId, form).value;
            |t'.profiles| == |t.profiles| + Min(|form.antibiotics|, |form.results|) && t'.profiles[..|t.profiles|] == t.profiles
    ensures var t' := FormSubmission(t, env, userId, form).value;
            forall i :: 0 <= i < Min(|form.antibiotics|, |form.results|) ==>
              form.pathogenId.Some? &&
              t'.profiles[|t.profiles| + i] ==
              Profile(|t.profiles| + i + 1, |t.reports| + 1, form.pathogenId.value, form.antibiotics[i], form.results[i])
    ensures var t' := FormSubmission(t, env, userId, form).value;
            t'.users == t.users && t'.facilities == t.facilities && t'.pathogens == t.pathogens &&
            t'.antibiotics == t.antibiotics && t'.alerts == t.alerts && t'.samples == t.samples
  {
    var pathogenId := GetOr(form.pathogenId, 0);
    var ps := FormProfiles(|t.reports| + 1, pathogenId, form.antibiotics, form.results, |t.profiles|, |form.antibiotics|);
    FormProfilesPaired(|t.reports| + 1, pathogenId, form.antibiotics, form.results, |t.profiles|, |form.antibiotics|);
    var t' := FormSubmission(t, env, userId, form).value;
    assert t'.profiles == t.profiles + ps;
    forall i | 0 <= i < Min(|form.antibiotics|, |form.results|)
      ensures form.pathogenId.Some? &&
              t'.profiles[|t.profiles| + i] ==
              Profile(|t.profiles| + i + 1, |t.reports| + 1, form.pathogenId.value, form.antibiotics[i], form.results[i])
    {
      assert t'.profiles[|t.profiles| + i] == ps[i];
    }
  }

  /** An absent identifier is hashed as the text "None", not refused. */
  lemma FormAbsentIdentifier(t: Tables, env: Env, userId: nat, form: FormInput)
    requires form.patientIdentifier.None? && FormSubmission(t, env, userId, form).Ok?
    ensures FormSubmission(t, env, userId, form).value.reports[|t.reports|].patientIdentifier ==
            env.hash("None" + EffectiveSalt(None, env.saltEnv))
  {
  }

  /** `process_form_data`: a failing date, flush or commit rolls the session back and re-raises (`Err`,
      store unchanged); otherwise the report and the paired profiles are committed and the result is true. */
  method ProcessFormData(db: Database, env: Env, userId: nat, form: FormInput) returns (r: Result<bool, string>)
    modifies db
    ensures FormSubmission(old(db.Snapshot()), env, userId, form).Err? ==>
              r == Err(FormSubmission(old(db.Snapshot()), env, userId, form).error) && db.Snapshot() == old(db.Snapshot())
    ensures FormSubmission(old(db.Snapshot()), env, userId, form).Ok? ==>
              r == Ok(true) && db.Snapshot() == FormSubmission(old(db.Snapshot()), env, userId, form).value
  {
    var saved := db.Snapshot();
    if form.collectionDate.None? {
      db.Restore(saved);
      return Err("TypeError");
    }
    var collected := env.parse(YmdDash, form.collectionDate.value);
    if collected.None? {
      db.Restore(saved);
      return Err("ValueError");
    }
    if form.facilityId.None? {
      db.Restore(saved);
      return Err("IntegrityError");
    }
    var report := FormReport(saved, env, userId, form, form.facilityId.value, collected.value);
    db.reports := db.reports + [report];
    AddFormProfiles(db, report.id, GetOr(form.pathogenId, 0), form.antibiotics, form.results);
    if form.pathogenId.None? && |form.antibiotics| > 0 && |form.results| > 0 {
      db.Restore(saved);
      return Err("IntegrityError");
    }
    return Ok(true);
  }

  /** The profile loop: `for i in range(len(antibiotics)): if i < len(results): add`. */
  method AddFormProfiles(db: Database, reportId: nat, pathogenId: nat, abx: seq<nat>, results: seq<string>)
    modifies db
    ensures db.Snapshot() == old(db.Snapshot()).(profiles := old(db.profiles) + FormProfiles(reportId, pathogenId, abx, results, |old(db.profiles)|, |abx|))
  {
    ghost var t0 := db.Snapshot();
    ghost var p0 := db.profiles;
    var i := 0;
    while i < |abx|
      invariant 0 <= i <= |abx|
      invariant db.Snapshot() == t0.(profiles := p0 + FormProfiles(reportId, pathogenId, abx, results, |p0|, i))
    {
      ghost var ps := FormProfiles(reportId, pathogenId, abx, results, |p0|, i);
      if i < |results| {
        db.profiles := db.profiles + [Profile(|db.profiles| + 1, reportId, pathogenId, abx[i], results[i])];
        assert db.profiles == p0 + (ps + [Profile(|p0| + |ps| + 1, reportId, pathogenId, abx[i], results[i])]);
      } else {
        assert FormProfiles(reportId, pathogenId, abx, results, |p0|, i + 1) == ps;
      }
      i := i + 1;
    }
  }
}
