/** The JSON endpoints and background job of the monolithic route module: twelve monthly
    resistance windows, the most resistant pathogens, per-antibiotic guidance statistics for
    one pathogen, the outbreak-alert run and the two alert-flag routes. */
module Routes {
  import opened Common
  import opened Calendar
  import opened Models
  import opened DataProcessing
  import opened MlModels

  // ---------------------------------------------------------------- resistance_trends_api windows

  // Python's `//` and `%` by 12 round toward negative infinity; for a positive divisor
  // Dafny's `/` and `%` do the same, so the source's expressions carry over unchanged.

  /** The window start as the code computes it: year `now.year - (now.month - i - 1) // 12`. */
  function TrendStartAsWritten(now: DateTime, i: int): (r: DateTime)
    ensures 1 <= r.month <= 12 && r.day == 1 && r.second == 0
  {
    DateTime(now.year - (now.month - i - 1) / 12, (now.month - i - 1) % 12 + 1, 1, 0)
  }

  /** The window end as the code computes it: the same formula one month on, or `now` for the current month. */
  function TrendEndAsWritten(now: DateTime, i: int): DateTime
  {
    if i > 0 then DateTime(now.year - (now.month - i) / 12, (now.month - i) % 12 + 1, 1, 0) else now
  }

  /** The half-open window `[start, end)` of the report-date filter. */
  predicate InWindow(start: DateTime, end: DateTime, d: DateTime)
  {
    Stamp(start) <= Stamp(d) < Stamp(end)
  }

  /** As written, each window ends where the next one starts, and only the current one ends at `now`. */
  lemma TrendTilesAsWritten(now: DateTime, i: int)
    requires i > 0
    ensures TrendEndAsWritten(now, i) == TrendStartAsWritten(now, i - 1)
    ensures TrendEndAsWritten(now, 0) == now
  {
    assert now.month - (i - 1) - 1 == now.month - i;
  }

  /** As written, offsets that reach back past January are placed one year ahead, and the window of the
      December before is inverted, so no report can fall into it. */
  lemma TrendWrapsForward(now: DateTime, i: int)
    requires Valid(now) && now.month <= i <= 11
    ensures TrendStartAsWritten(now, i).year == now.year + 1
    ensures i == now.month ==> TrendStartAsWritten(now, i) == DateTime(now.year + 1, 12, 1, 0)
    ensures i == now.month ==> forall d :: !InWindow(TrendStartAsWritten(now, i), TrendEndAsWritten(now, i), d)
  {
    assert -12 <= now.month - i - 1 < 0;
    if i == now.month {
      assert TrendEndAsWritten(now, i) == DateTime(now.year, 1, 1, 0);
    }
  }

  /** On 15 March 2024 the third window back is December 2025 to January 2024 instead of December 2023. */
  lemma TrendWindowAsWrittenExample()
    ensures var now := DateTime(2024, 3, 15, 0);
            TrendStartAsWritten(now, 3) == DateTime(2025, 12, 1, 0) &&
            TrendEndAsWritten(now, 3) == DateTime(2024, 1, 1, 0) &&
            TrendStart(now, 3) == DateTime(2023, 12, 1, 0) &&
            forall d :: !InWindow(TrendStartAsWritten(now, 3), TrendEndAsWritten(now, 3), d)
  {
    var now := DateTime(2024, 3, 15, 0);
    TrendWrapsForward(now, 3);
    assert MonthIndex(now) - 3 == 2023 * 12 + 11;
  }

  /** The intended window start: midnight on the first of the month `i` months before `now`'s. */
  function TrendStart(now: DateTime, i: int): DateTime
  {
    FirstOfIndex(MonthIndex(now) - i)
  }

  function TrendEnd(now: DateTime, i: int): DateTime
  {
    if i > 0 then TrendStart(now, i - 1) else now
  }

  /** The corrected start agrees with the code for every offset that stays within the current year. */
  lemma TrendAsWrittenAgreesWithinYear(now: DateTime, i: int)
    requires Valid(now) && 0 <= i
    ensures i < now.month ==> TrendStartAsWritten(now, i) == TrendStart(now, i)
    ensures i <= now.month ==> TrendEndAsWritten(now, i) == TrendEnd(now, i)
  {
    if i < now.month {
      assert 0 <= now.month - i - 1 < 12;
      var s := TrendStartAsWritten(now, i);
      assert s == DateTime(now.year, now.month - i, 1, 0);
      FirstOfIndexOf(s);
    }
    if 0 < i <= now.month {
      assert 0 <= now.month - i < 12;
      var e := TrendEndAsWritten(now, i);
      assert e == DateTime(now.year, now.month - i + 1, 1, 0);
      FirstOfIndexOf(e);
    }
  }

  /** Every window start is a valid first of a month, exactly `i` months before `now`'s month. */
  lemma TrendStartMonth(now: DateTime, i: int)
    ensures Valid(TrendStart(now, i)) && MonthIndex(TrendStart(now, i)) == MonthIndex(now) - i
    ensures TrendStart(now, i).day == 1 && TrendStart(now, i).second == 0
  {
  }

  /** A timestamp lies in the window of offset `i` exactly when it is in the month `i` months back and before `now`. */
  lemma TrendWindowMembership(now: DateTime, i: int, d: DateTime)
    requires Valid(now) && Valid(d) && 0 <= i
    ensures InWindow(TrendStart(now, i), TrendEnd(now, i), d) <==>
            MonthIndex(d) == MonthIndex(now) - i && Stamp(d) < Stamp(now)
  {
    TrendStartMonth(now, i);
    FirstOfMonthBefore(TrendStart(now, i), d);
    StampMonthOrder(d, now);
    if i > 0 {
      TrendStartMonth(now, i - 1);
      FirstOfMonthBefore(TrendStart(now, i - 1), d);
    }
  }

  /** The twelve windows tile the span from the start of the month eleven months back up to `now`:
      a timestamp in that span lies in exactly one window, and one outside it in none. */
  lemma TrendWindowsPartition(now: DateTime, d: DateTime)
    requires Valid(now) && Valid(d)
    ensures (exists i :: 0 <= i < 12 && InWindow(TrendStart(now, i), TrendEnd(now, i), d)) <==>
            (MonthIndex(now) - 11 <= MonthIndex(d) && Stamp(d) < Stamp(now))
    ensures forall i, j :: (0 <= i < 12 && 0 <= j < 12 && InWindow(TrendStart(now, i), TrendEnd(now, i), d) &&
                            InWindow(TrendStart(now, j), TrendEnd(now, j), d)) ==> i == j
  {
    forall i | 0 <= i < 12 {
      TrendWindowMembership(now, i, d);
    }
    if MonthIndex(now) - 11 <= MonthIndex(d) && Stamp(d) < Stamp(now) {
      StampMonthOrder(d, now);
      var i := MonthIndex(now) - MonthIndex(d);
      assert InWindow(TrendStart(now, i), TrendEnd(now, i), d);
    }
  }

  // ---------------------------------------------------------------- resistance_trends_api counts

  const MonthAbbreviations: seq<string> :=
    ["Jan", "Feb", "Mar", "Apr", "May", "Jun", "Jul", "Aug", "Sep", "Oct", "Nov", "Dec"]

  /** `strftime('%b %Y')`. */
  function MonthLabel(t: DateTime): string
  {
    (if 1 <= t.month <= 12 then MonthAbbreviations[t.month - 1] else "") + " " + DecimalString(NatOr0(t.year))
  }

  /** One entry of the trend series; the percentage is kept in tenths of a percent, as `round(.., 1)` shows it. */
  datatype TrendPoint = TrendPoint(month: string, start: DateTime, tenths: nat, total: nat, resistant: nat)

  function ReportedIn(start: DateTime, end: DateTime): Obs -> bool
  {
    (o: Obs) => InWindow(start, end, o.report.reportDate)
  }

  function ResistantIn(start: DateTime, end: DateTime): Obs -> bool
  {
    (o: Obs) => InWindow(start, end, o.report.reportDate) && Resistant(o)
  }

  /** The two counting queries of offset `i` over the joined rows `obs`, and the rounded percentage. */
  function TrendPointAt(obs: seq<Obs>, now: DateTime, i: int): TrendPoint
  {
    var s := TrendStart(now, i);
    var e := TrendEnd(now, i);
    var total := Count(obs, ReportedIn(s, e));
    var resistant := Count(obs, ResistantIn(s, e));
    TrendPoint(MonthLabel(s), s, Tenths(resistant, total), total, resistant)
  }

  /** The entries for offsets 11 down to 12 - n, in the order the loop appends them. */
  function TrendPoints(obs: seq<Obs>, now: DateTime, n: nat): seq<TrendPoint>
    requires n <= 12
  {
    if n == 0 then [] else TrendPoints(obs, now, n - 1) + [TrendPointAt(obs, now, 12 - n)]
  }

  /** `resistance_trends_api`, with the corrected month windows. */
  function ResistanceTrends(t: Tables, now: DateTime): seq<TrendPoint>
  {
    TrendPoints(Join(t), now, 12)
  }

  lemma {:induction false} TrendPointsLength(obs: seq<Obs>, now: DateTime, n: nat)
    requires n <= 12
    ensures |TrendPoints(obs, now, n)| == n
  {
    if n > 0 {
      TrendPointsLength(obs, now, n - 1);
    }
  }

  /** Entry `j` of the first `n` is the one of offset `11 - j`. */
  lemma {:induction false} TrendPointsAt(obs: seq<Obs>, now: DateTime, n: nat, j: nat)
    requires j < n <= 12
    ensures |TrendPoints(obs, now, n)| == n
    ensures TrendPoints(obs, now, n)[j] == TrendPointAt(obs, now, 11 - j)
  {
    TrendPointsLength(obs, now, n - 1);
    var p := TrendPoints(obs, now, n - 1);
    var last := TrendPointAt(obs, now, 12 - n);
    assert TrendPoints(obs, now, n) == p + [last];
    if j < n - 1 {
      TrendPointsAt(obs, now, n - 1, j);
      assert (p + [last])[j] == p[j];
    } else {
      assert 11 - j == 12 - n;
      assert (p + [last])[j] == last;
    }
  }

  lemma TrendPointsAre(obs: seq<Obs>, now: DateTime, n: nat)
    requires n <= 12
    ensures |TrendPoints(obs, now, n)| == n
    ensures forall j :: 0 <= j < n ==> TrendPoints(obs, now, n)[j] == TrendPointAt(obs, now, 11 - j)
  {
    TrendPointsLength(obs, now, n);
    forall j | 0 <= j < n
      ensures TrendPoints(obs, now, n)[j] == TrendPointAt(obs, now, 11 - j)
    {
      TrendPointsAt(obs, now, n, j);
    }
  }

  /** Profiles reported in the month with index `m`, before `now`. */
  function ReportedInMonth(m: int, now: DateTime): Obs -> bool
  {
    (o: Obs) => MonthIndex(o.report.reportDate) == m && Stamp(o.report.reportDate) < Stamp(now)
  }

  /** Entry `j` of the series starts the month `11 - j` months back and counts the rows reported in that month
      before `now`, with no more resistant ones than that. */
  predicate EntryFits(obs: seq<Obs>, now: DateTime, j: int, e: TrendPoint)
  {
    MonthIndex(e.start) == MonthIndex(now) - (11 - j) && e.resistant <= e.total &&
    e.total == Count(obs, ReportedInMonth(MonthIndex(now) - (11 - j), now)) &&
    (e.total == 0 ==> e.tenths == 0)
  }

  /** The entry of offset `11 - j` fits position `j`. */
  lemma TrendPointFacts(obs: seq<Obs>, now: DateTime, j: int)
    requires Valid(now) && j <= 11
    requires forall o :: o in obs ==> Valid(o.report.reportDate)
    ensures TrendPointAt(obs, now, 11 - j).start == TrendStart(now, 11 - j)
    ensures EntryFits(obs, now, j, TrendPointAt(obs, now, 11 - j))
  {
    var i := 11 - j;
    var m := MonthIndex(now) - (11 - j);
    var s, e := TrendStart(now, i), TrendEnd(now, i);
    TrendStartMonth(now, i);
    CountMonotone(obs, ResistantIn(s, e), ReportedIn(s, e));
    forall o | o in obs
      ensures ReportedIn(s, e)(o) == ReportedInMonth(m, now)(o)
    {
      TrendWindowMembership(now, i, o.report.reportDate);
    }
    CountSame(obs, ReportedIn(s, e), ReportedInMonth(m, now));
    var pt := TrendPointAt(obs, now, i);
    assert pt.start == s && pt.total == Count(obs, ReportedIn(s, e)) && pt.resistant == Count(obs, ResistantIn(s, e));
    assert pt.total == 0 ==> pt.tenths == 0;
  }

  /** Twelve entries, oldest month first, months without rows included, each fitting its position. */
  lemma TrendPointsShape(obs: seq<Obs>, now: DateTime)
    requires Valid(now)
    requires forall o :: o in obs ==> Valid(o.report.reportDate)
    ensures |TrendPoints(obs, now, 12)| == 12
    ensures forall j, k :: 0 <= j < k < 12 ==> Stamp(TrendPoints(obs, now, 12)[j].start) < Stamp(TrendPoints(obs, now, 12)[k].start)
    ensures forall j :: 0 <= j < 12 ==> EntryFits(obs, now, j, TrendPoints(obs, now, 12)[j])
  {
    var r := TrendPoints(obs, now, 12);
    TrendPointsAre(obs, now, 12);
    forall j | 0 <= j < 12
      ensures EntryFits(obs, now, j, r[j])
    {
      TrendPointFacts(obs, now, j);
    }
    forall j, k | 0 <= j < k < 12
      ensures Stamp(r[j].start) < Stamp(r[k].start)
    {
      TrendPointFacts(obs, now, j);
      TrendPointFacts(obs, now, k);
      TrendStartsIncrease(now, 11 - j, 11 - k);
    }
  }

  /** A window further back starts earlier. */
  lemma TrendStartsIncrease(now: DateTime, i: int, i2: int)
    requires i2 < i
    ensures Stamp(TrendStart(now, i)) < Stamp(TrendStart(now, i2))
  {
    TrendStartMonth(now, i);
    TrendStartMonth(now, i2);
    StampMonthOrder(TrendStart(now, i), TrendStart(now, i2));
  }

  /** Twelve entries, oldest month first, months without reports included; entry `j` counts the profiles
      reported in the month `11 - j` months back (and before `now`), with no more resistant ones than that. */
  lemma ResistanceTrendsShape(t: Tables, now: DateTime)
    requires Valid(now)
    requires forall o :: o in Join(t) ==> Valid(o.report.reportDate)
    ensures |ResistanceTrends(t, now)| == 12
    ensures forall j, k :: 0 <= j < k < 12 ==> Stamp(ResistanceTrends(t, now)[j].start) < Stamp(ResistanceTrends(t, now)[k].start)
    ensures forall j :: 0 <= j < 12 ==> EntryFits(Join(t), now, j, ResistanceTrends(t, now)[j])
  {
    TrendPointsShape(Join(t), now);
  }

  /** The loop step for offset `i`. */
  lemma TrendPointsSnoc(obs: seq<Obs>, now: DateTime, i: int)
    requires 0 <= i <= 11
    ensures TrendPoints(obs, now, 11 - i + 1) == TrendPoints(obs, now, 11 - i) + [TrendPointAt(obs, now, i)]
  {
    assert 12 - (11 - i + 1) == i;
  }

  /** The endpoint: the loop over the joined rows. */
  method ResistanceTrendsApi(db: Database, now: DateTime) returns (points: seq<TrendPoint>)
    ensures points == ResistanceTrends(db.Snapshot(), now)
  {
    points := TrendLoop(Join(db.Snapshot()), now);
  }

  /** The endpoint's loop `for i in range(11, -1, -1)`. */
  method TrendLoop(obs: seq<Obs>, now: DateTime) returns (points: seq<TrendPoint>)
    ensures points == TrendPoints(obs, now, 12)
  {
    points := [];
    var i := 11;
    while i >= 0
      invariant -1 <= i <= 11
      invariant points == TrendPoints(obs, now, 11 - i)
    {
      ghost var done := 11 - i;
      TrendPointsSnoc(obs, now, i);
      var entry := TrendPointAt(obs, now, i);
      points := points + [entry];
      i := i - 1;
      assert 11 - i == done + 1;
    }
    assert 11 - i == 12;
  }

  // ---------------------------------------------------------------- top_pathogens_api

  function ShareResistant(s: Share): real { s.resistant as real }

  /** `GROUP BY Pathogen.name` over all profiles. */
  function PathogenGroups(t: Tables): seq<Share>
  {
    Groups(Join(t), ObsPathogenName, DistinctKeys(Join(t), ObsPathogenName))
  }

  /** `ORDER BY resistant DESC LIMIT 10`, then the rows with samples. */
  function TopPathogens(t: Tables): seq<Share>
  {
    Filter(Take(SortDesc(PathogenGroups(t), ShareResistant), 10), HasSamples)
  }

  /** At most ten pathogens, the most resistant first: no pathogen left out has more resistant results than one shown. */
  lemma TopPathogensRanked(t: Tables)
    ensures |TopPathogens(t)| == if |PathogenGroups(t)| <= 10 then |PathogenGroups(t)| else 10
    ensures TopPathogens(t) == SortDesc(PathogenGroups(t), ShareResistant)[..|TopPathogens(t)|]
    ensures multiset(SortDesc(PathogenGroups(t), ShareResistant)) == multiset(PathogenGroups(t))
    ensures SortedDesc(TopPathogens(t), ShareResistant)
    ensures forall i, j :: 0 <= i < |TopPathogens(t)| <= j < |PathogenGroups(t)| ==>
              SortDesc(PathogenGroups(t), ShareResistant)[j].resistant <= TopPathogens(t)[i].resistant
  {
    var groups := PathogenGroups(t);
    var ranked := SortDesc(groups, ShareResistant);
    var top := Take(ranked, 10);
    TopPathogensKeepAll(t);
    TopRanked(groups, ShareResistant, 10);
    assert |ranked| == |groups|;
    forall i, j | 0 <= i < |top| <= j < |groups|
      ensures ranked[j].resistant <= top[i].resistant
    {
      assert ShareResistant(ranked[j]) <= ShareResistant(top[i]);
    }
  }

  /** Every ranked row has samples, so the `total > 0` test drops none; with ten pathogens or fewer every profile is counted. */
  lemma TopPathogensKeepAll(t: Tables)
    ensures TopPathogens(t) == Take(SortDesc(PathogenGroups(t), ShareResistant), 10)
    ensures forall s :: s in TopPathogens(t) ==> s.total > 0 && s.resistant <= s.total && s.tenths <= 1000
    ensures |PathogenGroups(t)| <= 10 ==> SumTotal(PathogenGroups(t)) == |Join(t)|
  {
    var groups := PathogenGroups(t);
    var ranked := SortDesc(groups, ShareResistant);
    var top := Take(ranked, 10);
    GroupsPresent(Join(t), ObsPathogenName);
    GroupTotals(Join(t), ObsPathogenName);
    forall i | 0 <= i < |top|
      ensures HasSamples(top[i]) && top[i].resistant <= top[i].total && top[i].tenths <= 1000
    {
      assert top[i] == ranked[i];
      assert ranked[i] in multiset(groups);
    }
    FilterAllKept(top, HasSamples);
  }

  /** The endpoint: the ranked query, then the loop keeping rows with samples. */
  method TopPathogensApi(db: Database) returns (rows: seq<Share>)
    ensures rows == TopPathogens(db.Snapshot())
  {
    var ranked := SortDesc(PathogenGroups(db.Snapshot()), ShareResistant);
    rows := RowsWithSamples(Take(ranked, 10));
  }

  // ---------------------------------------------------------------- pathogen_guidance statistics

  function ObsAntibioticName(o: Obs): string { o.antibiotic.name }

  function OfPathogen(pathogenId: nat): Obs -> bool
  {
    (o: Obs) => o.profile.pathogenId == pathogenId
  }

  function GuidanceObs(t: Tables, pathogenId: nat): seq<Obs>
  {
    Filter(Join(t), OfPathogen(pathogenId))
  }

  /** `pathogen_guidance`: 404 (`None`) for an unknown pathogen, else one row per antibiotic name tested against it. */
  function GuidanceStats(t: Tables, pathogenId: nat): Option<seq<Share>>
  {
    if PathogenById(t, pathogenId).None? then None
    else
      var obs := GuidanceObs(t, pathogenId);
      Some(Filter(Groups(obs, ObsAntibioticName, DistinctKeys(obs, ObsAntibioticName)), HasSamples))
  }

  /** The `total > 0` test keeps every group of rows that occur. */
  lemma GroupsAllKept(obs: seq<Obs>, nameOf: Obs -> string)
    ensures Filter(Groups(obs, nameOf, DistinctKeys(obs, nameOf)), HasSamples) == Groups(obs, nameOf, DistinctKeys(obs, nameOf))
  {
    var groups := Groups(obs, nameOf, DistinctKeys(obs, nameOf));
    GroupsPresent(obs, nameOf);
    forall i | 0 <= i < |groups|
      ensures HasSamples(groups[i])
    {
      assert groups[i] in groups;
    }
    FilterAllKept(groups, HasSamples);
  }

  /** The statistics exist exactly for a known pathogen. */
  lemma GuidanceStatsFound(t: Tables, pathogenId: nat)
    ensures GuidanceStats(t, pathogenId).None? <==> PathogenById(t, pathogenId).None?
  {
  }

  /** For a known pathogen the `total > 0` test drops no row: the statistics are the groups themselves. */
  lemma GuidanceStatsGroups(t: Tables, pathogenId: nat)
    requires PathogenById(t, pathogenId).Some?
    ensures GuidanceStats(t, pathogenId) ==
            Some(Groups(GuidanceObs(t, pathogenId), ObsAntibioticName, DistinctKeys(GuidanceObs(t, pathogenId), ObsAntibioticName)))
  {
    GroupsAllKept(GuidanceObs(t, pathogenId), ObsAntibioticName);
  }

  /** The rows follow the antibiotic names in order, and together they count every profile of the pathogen once. */
  lemma GuidanceStatsAre(t: Tables, pathogenId: nat)
    requires PathogenById(t, pathogenId).Some?
    ensures |GuidanceStats(t, pathogenId).value| == |DistinctKeys(GuidanceObs(t, pathogenId), ObsAntibioticName)|
    ensures forall i :: 0 <= i < |GuidanceStats(t, pathogenId).value| ==>
              GuidanceStats(t, pathogenId).value[i].name == DistinctKeys(GuidanceObs(t, pathogenId), ObsAntibioticName)[i]
    ensures SumTotal(GuidanceStats(t, pathogenId).value) == |GuidanceObs(t, pathogenId)|
    ensures SumResistant(GuidanceStats(t, pathogenId).value) == Count(GuidanceObs(t, pathogenId), Resistant)
    ensures forall s :: s in GuidanceStats(t, pathogenId).value ==> s.total > 0 && s.resistant <= s.total && s.tenths <= 1000
  {
    var obs := GuidanceObs(t, pathogenId);
    GuidanceStatsGroups(t, pathogenId);
    GroupsPresent(obs, ObsAntibioticName);
    GroupTotals(obs, ObsAntibioticName);
  }

  method PathogenGuidance(db: Database, pathogenId: nat) returns (stats: Option<seq<Share>>)
    ensures stats == GuidanceStats(db.Snapshot(), pathogenId)
  {
    var t := db.Snapshot();
    if PathogenById(t, pathogenId).None? {
      return None;
    }
    var obs := GuidanceObs(t, pathogenId);
    var rows := RowsWithSamples(Groups(obs, ObsAntibioticName, DistinctKeys(obs, ObsAntibioticName)));
    stats := Some(rows);
  }

  // ---------------------------------------------------------------- check_for_outbreaks

  /** The alert raised for one outbreak, before it is addressed to an official; `showLevel` is the `:.1f` format. */
  function OutbreakAlert(o: Outbreak, now: DateTime, showLevel: real -> string): (a: Alert)
    ensures a.alertType == "outbreak" && a.severity == o.severity && !a.read && !a.actionTaken
    ensures a.region == Some(o.location) && a.pathogenId == Some(o.pathogenId) && a.antibioticId.None?
  {
    Alert(0, 0,
          "Potential " + o.pathogen + " outbreak detected",
          "Our system has detected a potential outbreak of " + o.pathogen + " in " + o.location + ". " +
          "Resistance level: " + showLevel(o.percent) + "%. Please take appropriate measures.",
          "outbreak", o.severity, now, false, false,
          o.latitude, o.longitude, Some(o.location), Some(o.pathogenId), None)
  }

  /** The store after fanning out an alert for each of `outs` to the public health officials, in order. */
  function OutbreakAlerts(t: Tables, outs: seq<Outbreak>, now: DateTime, showLevel: real -> string): Tables
  {
    if outs == [] then t
    else
      var t1 := OutbreakAlerts(t, outs[..|outs| - 1], now, showLevel);
      t1.(alerts := t1.alerts + FanOut(t1.users, IsOfficial, OutbreakAlert(outs[|outs| - 1], now, showLevel), |t1.alerts|))
  }

  lemma OutbreakAlertsSnoc(t: Tables, outs: seq<Outbreak>, o: Outbreak, now: DateTime, showLevel: real -> string)
    ensures var t1 := OutbreakAlerts(t, outs, now, showLevel);
            OutbreakAlerts(t, outs + [o], now, showLevel) ==
            t1.(alerts := t1.alerts + FanOut(t1.users, IsOfficial, OutbreakAlert(o, now, showLevel), |t1.alerts|))
  {
    assert (outs + [o])[..|outs|] == outs;
  }

  lemma MulSucc(m: nat, n: nat)
    ensures (m + 1) * n == m * n + n && m * n >= 0
  {
  }

  /** `a` is the alert of one of `outs`, addressed to one of the officials among `users`. */
  predicate FromOutbreak(a: Alert, outs: seq<Outbreak>, users: seq<User>, now: DateTime, showLevel: real -> string)
  {
    exists k, u :: 0 <= k < |outs| && u in users && IsOfficial(u) &&
                   a == OutbreakAlert(outs[k], now, showLevel).(id := a.id, userId := u.id)
  }

  lemma FromOutbreakGrow(a: Alert, outs: seq<Outbreak>, m: nat, users: seq<User>, now: DateTime,
                         showLevel: real -> string)
    requires m <= |outs| && FromOutbreak(a, outs[..m], users, now, showLevel)
    ensures FromOutbreak(a, outs, users, now, showLevel)
  {
    var k, u :| 0 <= k < m && u in users && IsOfficial(u) &&
                a == OutbreakAlert(outs[..m][k], now, showLevel).(id := a.id, userId := u.id);
    assert outs[..m][k] == outs[k];
  }

  lemma FromOutbreakLast(outs: seq<Outbreak>, users: seq<User>, j: nat, id: nat, now: DateTime,
                         showLevel: real -> string)
    requires outs != [] && j < |Filter(users, IsOfficial)|
    ensures var u := Filter(users, IsOfficial)[j];
            FromOutbreak(OutbreakAlert(outs[|outs| - 1], now, showLevel).(id := id, userId := u.id), outs, users, now, showLevel)
  {
    var u := Filter(users, IsOfficial)[j];
    assert u in Filter(users, IsOfficial);
  }

  /** Only the alert table changes; it keeps its rows and gains one alert per outbreak and official. */
  lemma {:induction false} OutbreakAlertsFrame(t: Tables, outs: seq<Outbreak>, now: DateTime, showLevel: real -> string)
    ensures OutbreakAlerts(t, outs, now, showLevel) == t.(alerts := OutbreakAlerts(t, outs, now, showLevel).alerts)
    ensures |OutbreakAlerts(t, outs, now, showLevel).alerts| == |t.alerts| + |outs| * Count(t.users, IsOfficial)
    ensures OutbreakAlerts(t, outs, now, showLevel).alerts[..|t.alerts|] == t.alerts
  {
    if outs != [] {
      var m := |outs| - 1;
      var t1 := OutbreakAlerts(t, outs[..m], now, showLevel);
      var r := OutbreakAlerts(t, outs, now, showLevel);
      var n := Count(t.users, IsOfficial);
      OutbreakAlertsFrame(t, outs[..m], now, showLevel);
      FanOutAppended(t1.alerts, t1.users, IsOfficial, OutbreakAlert(outs[m], now, showLevel));
      MulSucc(m, n);
      assert r.alerts[..|t.alerts|] == t.alerts by {
        assert r.alerts[..|t1.alerts|] == t1.alerts;
        assert r.alerts[..|t.alerts|] == t1.alerts[..|t.alerts|];
      }
    }
  }

  /** Each added alert is the alert of one of the outbreaks addressed to an official, with the next free id. */
  lemma {:induction false} OutbreakAlertsContent(t: Tables, outs: seq<Outbreak>, now: DateTime, showLevel: real -> string)
    ensures var r := OutbreakAlerts(t, outs, now, showLevel);
            forall i :: |t.alerts| <= i < |r.alerts| ==>
              r.alerts[i].id == i + 1 && FromOutbreak(r.alerts[i], outs, t.users, now, showLevel)
  {
    if outs != [] {
      var m := |outs| - 1;
      var init := outs[..m];
      var t1 := OutbreakAlerts(t, init, now, showLevel);
      var r := OutbreakAlerts(t, outs, now, showLevel);
      var template := OutbreakAlert(outs[m], now, showLevel);
      OutbreakAlertsContent(t, init, now, showLevel);
      OutbreakAlertsFrame(t, init, now, showLevel);
      FanOutAppended(t1.alerts, t1.users, IsOfficial, template);
      forall i | |t.alerts| <= i < |r.alerts|
        ensures r.alerts[i].id == i + 1 && FromOutbreak(r.alerts[i], outs, t.users, now, showLevel)
      {
        if i < |t1.alerts| {
          assert r.alerts[i] == t1.alerts[i];
          FromOutbreakGrow(r.alerts[i], outs, m, t.users, now, showLevel);
        } else {
          FromOutbreakLast(outs, t.users, i - |t1.alerts|, i + 1, now, showLevel);
        }
      }
    }
  }

  /** Every alert the run adds for detected outbreaks is an outbreak alert of severity 3 to 5, unread and open,
      addressed to a public health official. */
  lemma OutbreakAlertsSound(t: Tables, rows: seq<DailyRow>, now: DateTime, showLevel: real -> string)
    ensures var r := OutbreakAlerts(t, Outbreaks(rows), now, showLevel);
            forall i :: |t.alerts| <= i < |r.alerts| ==>
              r.alerts[i].alertType == "outbreak" && 3 <= r.alerts[i].severity <= 5 && !r.alerts[i].read &&
              exists u :: u in t.users && u.role == PublicHealthOfficial && r.alerts[i].userId == u.id
  {
    var outs := Outbreaks(rows);
    var r := OutbreakAlerts(t, outs, now, showLevel);
    OutbreakAlertsContent(t, outs, now, showLevel);
    OutbreakBounds(rows);
    forall i | |t.alerts| <= i < |r.alerts|
      ensures r.alerts[i].alertType == "outbreak" && 3 <= r.alerts[i].severity <= 5 && !r.alerts[i].read
      ensures exists u :: u in t.users && u.role == PublicHealthOfficial && r.alerts[i].userId == u.id
    {
      assert FromOutbreak(r.alerts[i], outs, t.users, now, showLevel);
      var k, u :| 0 <= k < |outs| && u in t.users && IsOfficial(u) &&
                  r.alerts[i] == OutbreakAlert(outs[k], now, showLevel).(id := r.alerts[i].id, userId := u.id);
      assert outs[k] in outs;
    }
  }

  /** `check_for_outbreaks`: the detector, then one fan-out and one commit per outbreak. */
  method CheckForOutbreaks(db: Database, now: DateTime, showLevel: real -> string)
    requires Valid(now)
    modifies db
    ensures db.Snapshot() == OutbreakAlerts(old(db.Snapshot()), Outbreaks(DailyRows(old(db.Snapshot()), now)), now, showLevel)
  {
    var outs := PredictOutbreak(db, now);
    RaiseOutbreakAlerts(db, outs, now, showLevel);
  }

  /** The loop over the detected outbreaks. */
  method RaiseOutbreakAlerts(db: Database, outs: seq<Outbreak>, now: DateTime, showLevel: real -> string)
    modifies db
    ensures db.Snapshot() == OutbreakAlerts(old(db.Snapshot()), outs, now, showLevel)
  {
    ghost var t0 := db.Snapshot();
    var k := 0;
    while k < |outs|
      invariant 0 <= k <= |outs|
      invariant db.Snapshot() == OutbreakAlerts(t0, outs[..k], now, showLevel)
    {
      assert outs[..k + 1] == outs[..k] + [outs[k]];
      OutbreakAlertsSnoc(t0, outs[..k], outs[k], now, showLevel);
      db.AddFanOut(IsOfficial, OutbreakAlert(outs[k], now, showLevel));
      k := k + 1;
    }
    assert outs[..|outs|] == outs;
  }

  // ---------------------------------------------------------------- mark_alert_read / mark_alert_action

  /** 404 for an unknown alert, 403 for another user's, else `read` set. */
  method MarkAlertRead(db: Database, alertId: nat, currentUser: nat) returns (out: Outcome)
    modifies db
    ensures (db.Snapshot(), out) == FlagAlert(old(db.Snapshot()), alertId, currentUser, true, false)
  {
    out := db.UpdateAlert(alertId, currentUser, true, false);
  }

  /** 404 for an unknown alert, 403 for another user's, else `action_taken` set. */
  method MarkAlertAction(db: Database, alertId: nat, currentUser: nat) returns (out: Outcome)
    modifies db
    ensures (db.Snapshot(), out) == FlagAlert(old(db.Snapshot()), alertId, currentUser, false, true)
  {
    out := db.UpdateAlert(alertId, currentUser, false, true);
  }
}
