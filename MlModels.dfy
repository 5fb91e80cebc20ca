/** The outbreak detector over daily resistance rows, treatment recommendations ranked by
    local resistance, and the deterministic part of the spread forecast. */
module MlModels {
  import opened Common
  import opened Calendar
  import opened Models
  import opened DataProcessing

  // ---------------------------------------------------------------- the daily query

  /** The grouping key of the daily query: place, pathogen and calendar day of the report. */
  datatype DayKey = DayKey(state: Option<string>, city: Option<string>, latitude: Option<real>, longitude: Option<real>,
                           pathogenId: nat, pathogenName: string, day: DateTime)

  /** One result row of the daily query: a key with its profile count and its count of 'R'. */
  datatype DailyRow = DailyRow(key: DayKey, total: nat, resistant: nat)

  function DayKeyOf(o: Obs): DayKey
  {
    DayKey(o.facility.state, o.facility.city, o.facility.latitude, o.facility.longitude,
           o.pathogen.id, o.pathogen.name, StartOfDay(o.report.reportDate))
  }

  function ReportedSince(cutoff: DateTime): Obs -> bool
  {
    (o: Obs) => Stamp(o.report.reportDate) >= Stamp(cutoff)
  }

  function DailyRowsOf(obs: seq<Obs>, keys: seq<DayKey>): (r: seq<DailyRow>)
    ensures |r| == |keys|
    ensures forall i :: 0 <= i < |r| ==>
              (r[i].key == keys[i] && r[i].total == Count(obs, InGroup(DayKeyOf, keys[i], All())) &&
               r[i].resistant == Count(obs, InGroup(DayKeyOf, keys[i], Resistant)))
  {
    if keys == [] then []
    else
      var k := keys[|keys| - 1];
      DailyRowsOf(obs, keys[..|keys| - 1]) +
      [DailyRow(k, Count(obs, InGroup(DayKeyOf, k, All())), Count(obs, InGroup(DayKeyOf, k, Resistant)))]
  }

  /** The rows of the last 30 days, one per key that occurs. */
  function DailyRows(t: Tables, now: DateTime): seq<DailyRow>
    requires Valid(now)
  {
    var recent := Filter(Join(t), ReportedSince(SubDays(now, 30)));
    DailyRowsOf(recent, DistinctKeys(recent, DayKeyOf))
  }

  lemma DailyRowPresent(obs: seq<Obs>, k: DayKey, x: Obs)
    requires x in obs && DayKeyOf(x) == k
    ensures Count(obs, InGroup(DayKeyOf, k, All())) >= 1
    ensures Count(obs, InGroup(DayKeyOf, k, Resistant)) <= Count(obs, InGroup(DayKeyOf, k, All()))
  {
    CountPositive(obs, InGroup(DayKeyOf, k, All()), x);
    CountMonotone(obs, InGroup(DayKeyOf, k, Resistant), InGroup(DayKeyOf, k, All()));
  }

  predicate RowSound(r: DailyRow)
  {
    1 <= r.total && r.resistant <= r.total
  }

  /** Every daily row counts at least one profile, and no more resistant profiles than profiles. */
  lemma DailyRowsSound(t: Tables, now: DateTime)
    requires Valid(now)
    ensures forall i :: 0 <= i < |DailyRows(t, now)| ==> RowSound(DailyRows(t, now)[i])
  {
    var recent := Filter(Join(t), ReportedSince(SubDays(now, 30)));
    var keys := DistinctKeys(recent, DayKeyOf);
    forall i | 0 <= i < |keys|
      ensures RowSound(DailyRowsOf(recent, keys)[i])
    {
      assert keys[i] in keys;
      var x :| x in recent && DayKeyOf(x) == keys[i];
      DailyRowPresent(recent, keys[i], x);
    }
  }

  // ---------------------------------------------------------------- outbreak signal

  /** The key pandas groups the daily rows by; rows with a missing state or city fall in no group. */
  datatype PlaceKey = PlaceKey(state: string, city: string, pathogenId: nat, pathogenName: string)

  predicate HasPlace(r: DailyRow)
  {
    r.key.state.Some? && r.key.city.Some?
  }

  function PlaceKeyOf(r: DailyRow): PlaceKey
  {
    PlaceKey(GetOr(r.key.state, ""), GetOr(r.key.city, ""), r.key.pathogenId, r.key.pathogenName)
  }

  function InPlace(k: PlaceKey): DailyRow -> bool
  {
    (r: DailyRow) => HasPlace(r) && PlaceKeyOf(r) == k
  }

  function DayOf(r: DailyRow): real
  {
    Stamp(r.key.day) as real
  }

  /** The rows of one place and pathogen, oldest day first. */
  function PlaceGroup(rows: seq<DailyRow>, k: PlaceKey): seq<DailyRow>
  {
    SortAsc(Filter(rows, InPlace(k)), DayOf)
  }

  // ---------------------------------------------------------------- the order of the place groups

  /** Python's order on strings: code point by code point, a proper prefix first. */
  predicate TextBefore(a: string, b: string)
  {
    if a == [] then b != [] else b != [] && (a[0] < b[0] || (a[0] == b[0] && TextBefore(a[1..], b[1..])))
  }

  lemma {:induction false} TextBeforeTotal(a: string, b: string)
    ensures a == b || TextBefore(a, b) || TextBefore(b, a)
  {
    if a != [] && b != [] && a[0] == b[0] {
      TextBeforeTotal(a[1..], b[1..]);
      if a[1..] == b[1..] {
        assert a == [a[0]] + a[1..] && b == [b[0]] + b[1..];
      }
    }
  }

  lemma {:induction false} TextBeforeTransitive(a: string, b: string, c: string)
    ensures TextBefore(a, b) && TextBefore(b, c) ==> TextBefore(a, c)
  {
    if a != [] && b != [] && c != [] && a[0] == b[0] && b[0] == c[0] {
      TextBeforeTransitive(a[1..], b[1..], c[1..]);
    }
  }

  /** The order pandas' `groupby` walks its groups in: the key tuples compared field by field. */
  predicate PlaceBefore(a: PlaceKey, b: PlaceKey)
  {
    TextBefore(a.state, b.state) ||
    (a.state == b.state &&
      (TextBefore(a.city, b.city) ||
       (a.city == b.city &&
         (a.pathogenId < b.pathogenId ||
          (a.pathogenId == b.pathogenId && TextBefore(a.pathogenName, b.pathogenName))))))
  }

  lemma PlaceBeforeTotal(a: PlaceKey, b: PlaceKey)
    ensures a == b || PlaceBefore(a, b) || PlaceBefore(b, a)
  {
    TextBeforeTotal(a.state, b.state);
    TextBeforeTotal(a.city, b.city);
    TextBeforeTotal(a.pathogenName, b.pathogenName);
  }

  lemma PlaceBeforeTransitive(a: PlaceKey, b: PlaceKey, c: PlaceKey)
    ensures PlaceBefore(a, b) && PlaceBefore(b, c) ==> PlaceBefore(a, c)
  {
    TextBeforeTransitive(a.state, b.state, c.state);
    TextBeforeTransitive(a.city, b.city, c.city);
    TextBeforeTransitive(a.pathogenName, b.pathogenName, c.pathogenName);
  }

  predicate PlacesAscending(ks: seq<PlaceKey>)
  {
    forall i, j :: 0 <= i < j < |ks| ==> PlaceBefore(ks[i], ks[j])
  }

  /** `x` placed before the first key it precedes. */
  function InsertPlace(x: PlaceKey, s: seq<PlaceKey>): (r: seq<PlaceKey>)
    ensures multiset(r) == multiset(s) + multiset{x}
  {
    if s == [] then [x]
    else if PlaceBefore(x, s[0]) then [x] + s
    else
      assert s == [s[0]] + s[1..];
      [s[0]] + InsertPlace(x, s[1..])
  }

  lemma {:induction false} InsertPlaceAscending(x: PlaceKey, s: seq<PlaceKey>)
    requires PlacesAscending(s) && x !in s
    ensures PlacesAscending(InsertPlace(x, s))
  {
    if s == [] {
    } else if PlaceBefore(x, s[0]) {
      var r := [x] + s;
      forall i, j | 0 <= i < j < |r|
        ensures PlaceBefore(r[i], r[j])
      {
        if i == 0 && j > 1 {
          PlaceBeforeTransitive(x, s[0], s[j - 1]);
        } else if i > 0 {
          assert r[i] == s[i - 1] && r[j] == s[j - 1];
        }
      }
    } else {
      PlaceBeforeTotal(x, s[0]);
      assert s == [s[0]] + s[1..];
      var rest := InsertPlace(x, s[1..]);
      InsertPlaceAscending(x, s[1..]);
      var r := [s[0]] + rest;
      forall i, j | 0 <= i < j < |r|
        ensures PlaceBefore(r[i], r[j])
      {
        if i == 0 {
          assert r[j] in multiset(rest);
          if r[j] != x {
            assert r[j] in s[1..];
            var k :| 0 <= k < |s[1..]| && s[1..][k] == r[j];
            assert s[k + 1] == r[j];
          }
        } else {
          assert r[i] == rest[i - 1] && r[j] == rest[j - 1];
        }
      }
    }
  }

  /** The keys in pandas' group order: an insertion sort by `PlaceBefore`. */
  function SortPlaces(ks: seq<PlaceKey>): (r: seq<PlaceKey>)
    ensures multiset(r) == multiset(ks)
  {
    if ks == [] then []
    else
      assert ks == [ks[0]] + ks[1..];
      InsertPlace(ks[0], SortPlaces(ks[1..]))
  }

  /** Distinct keys come out strictly ascending. */
  lemma {:induction false} SortPlacesAscending(ks: seq<PlaceKey>)
    requires Distinct(ks)
    ensures PlacesAscending(SortPlaces(ks))
  {
    if ks != [] {
      assert ks == [ks[0]] + ks[1..];
      assert Distinct(ks[1..]) by {
        forall i, j | 0 <= i < j < |ks[1..]|
          ensures ks[1..][i] != ks[1..][j]
        {
          assert ks[1..][i] == ks[i + 1] && ks[1..][j] == ks[j + 1];
        }
      }
      SortPlacesAscending(ks[1..]);
      assert ks[0] !in SortPlaces(ks[1..]) by {
        assert ks[0] !in ks[1..] by {
          forall k | 0 <= k < |ks[1..]|
            ensures ks[1..][k] != ks[0]
          {
            assert ks[1..][k] == ks[k + 1];
          }
        }
        assert ks[0] !in multiset(ks[1..]);
      }
      InsertPlaceAscending(ks[0], SortPlaces(ks[1..]));
    }
  }

  /** `df.groupby(['state', 'city', 'pathogen_id', 'pathogen_name'])`: the keys of rows with a state and a
      city, in ascending key order. */
  function PlaceKeys(rows: seq<DailyRow>): seq<PlaceKey>
  {
    SortPlaces(DistinctKeys(Filter(rows, HasPlace), PlaceKeyOf))
  }

  /** The groups are exactly the keys of the rows with a place, each once, in ascending key order. */
  lemma PlaceKeysAre(rows: seq<DailyRow>)
    ensures PlacesAscending(PlaceKeys(rows))
    ensures forall k :: k in PlaceKeys(rows) <==> exists r :: r in rows && HasPlace(r) && PlaceKeyOf(r) == k
  {
    var ds := DistinctKeys(Filter(rows, HasPlace), PlaceKeyOf);
    SortPlacesAscending(ds);
    forall k
      ensures k in PlaceKeys(rows) <==> exists r :: r in rows && HasPlace(r) && PlaceKeyOf(r) == k
    {
      assert k in PlaceKeys(rows) <==> k in multiset(ds);
      if exists r :: r in rows && HasPlace(r) && PlaceKeyOf(r) == k {
        var r :| r in rows && HasPlace(r) && PlaceKeyOf(r) == k;
        assert r in Filter(rows, HasPlace);
      }
      if k in ds {
        var x :| x in Filter(rows, HasPlace) && PlaceKeyOf(x) == k;
      }
    }
  }

  /** Filtering keeps keys ascending. */
  lemma {:induction false} FilterPlacesAscending(ks: seq<PlaceKey>, p: PlaceKey -> bool)
    requires PlacesAscending(ks)
    ensures PlacesAscending(Filter(ks, p))
  {
    if ks != [] {
      var rest := Filter(ks[1..], p);
      assert PlacesAscending(ks[1..]) by {
        forall i, j | 0 <= i < j < |ks[1..]|
          ensures PlaceBefore(ks[1..][i], ks[1..][j])
        {
          assert ks[1..][i] == ks[i + 1] && ks[1..][j] == ks[j + 1];
        }
      }
      FilterPlacesAscending(ks[1..], p);
      if p(ks[0]) {
        var r := [ks[0]] + rest;
        forall i, j | 0 <= i < j < |r|
          ensures PlaceBefore(r[i], r[j])
        {
          if i == 0 {
            assert r[j] in rest;
            var k :| 0 <= k < |ks[1..]| && ks[1..][k] == r[j];
            assert ks[k + 1] == r[j];
          } else {
            assert r[i] == rest[i - 1] && r[j] == rest[j - 1];
          }
        }
      }
    }
  }

  function RowPercent(r: DailyRow): real
  {
    Percent(r.resistant, r.total)
  }

  function SumPercent(rows: seq<DailyRow>): real
  {
    if rows == [] then 0.0 else SumPercent(rows[..|rows| - 1]) + RowPercent(rows[|rows| - 1])
  }

  function SumSamples(rows: seq<DailyRow>): nat
  {
    if rows == [] then 0 else SumSamples(rows[..|rows| - 1]) + rows[|rows| - 1].total
  }

  /** The mean percentage of `rows`, 0 for none. */
  function MeanPercent(rows: seq<DailyRow>): real
  {
    if rows == [] then 0.0 else SumPercent(rows) / |rows| as real
  }

  /** At least three rows (one per facility and day) and at least ten samples. */
  predicate Eligible(g: seq<DailyRow>)
  {
    |g| >= 3 && SumSamples(g) >= 10
  }

  /** The last row (one per facility and day) is above 50 % and more than 15 points above the mean of the rows before it. */
  predicate Signal(g: seq<DailyRow>)
  {
    Eligible(g) &&
    var latest := RowPercent(g[|g| - 1]);
    latest > 50.0 && latest - MeanPercent(g[..|g| - 1]) > 15.0
  }

  /** 5 above 80 %, 4 above 60 %, otherwise 3. */
  function OutbreakSeverity(p: real): (s: int)
    ensures 3 <= s <= 5
    ensures s == 5 <==> p > 80.0
    ensures s == 4 <==> 60.0 < p <= 80.0
  {
    if p > 80.0 then 5 else if p > 60.0 then 4 else 3
  }

  datatype Outbreak = Outbreak(pathogen: string, pathogenId: nat, location: string,
                               latitude: Option<real>, longitude: Option<real>, percent: real,
                               severity: int, totalSamples: nat, resistantSamples: nat, day: DateTime)

  function OutbreakOf(k: PlaceKey, g: seq<DailyRow>): Outbreak
    requires g != []
  {
    var latest := g[|g| - 1];
    Outbreak(k.pathogenName, k.pathogenId, k.city + ", " + k.state, latest.key.latitude, latest.key.longitude,
             RowPercent(latest), OutbreakSeverity(RowPercent(latest)), latest.total, latest.resistant, latest.key.day)
  }

  function Signalled(rows: seq<DailyRow>): PlaceKey -> bool
  {
    (k: PlaceKey) => Signal(PlaceGroup(rows, k))
  }

  function OutbreakFor(rows: seq<DailyRow>, k: PlaceKey): Outbreak
    requires Signalled(rows)(k)
  {
    OutbreakOf(k, PlaceGroup(rows, k))
  }

  function OutbreakAt(rows: seq<DailyRow>): PlaceKey --> Outbreak
  {
    (k: PlaceKey) requires Signalled(rows)(k) => OutbreakFor(rows, k)
  }

  /** The outbreaks of the groups `ks`, in order. */
  function OutbreaksOf(rows: seq<DailyRow>, ks: seq<PlaceKey>): seq<Outbreak>
  {
    Select(ks, Signalled(rows), OutbreakAt(rows))
  }

  lemma OutbreaksOfPrefix(rows: seq<DailyRow>, ks: seq<PlaceKey>, i: nat)
    requires i < |ks|
    ensures OutbreaksOf(rows, ks[..i + 1]) ==
            OutbreaksOf(rows, ks[..i]) + if Signalled(rows)(ks[i]) then [OutbreakFor(rows, ks[i])] else []
  {
    assert ks[..i + 1][..i] == ks[..i];
  }

  /** `predict_outbreak` on the rows of its query. */
  function Outbreaks(rows: seq<DailyRow>): seq<Outbreak>
  {
    OutbreaksOf(rows, PlaceKeys(rows))
  }

  // ---------------------------------------------------------------- what the detector guarantees

  /** One outbreak per signalling group, in group order, each describing the group's last row. */
  lemma OutbreaksAre(rows: seq<DailyRow>, ks: seq<PlaceKey>)
    ensures |OutbreaksOf(rows, ks)| == Count(ks, Signalled(rows))
    ensures forall i :: 0 <= i < |OutbreaksOf(rows, ks)| ==>
              Signalled(rows)(Filter(ks, Signalled(rows))[i]) &&
              OutbreaksOf(rows, ks)[i] == OutbreakFor(rows, Filter(ks, Signalled(rows))[i])
  {
    SelectAre(ks, Signalled(rows), OutbreakAt(rows));
  }

  /** `predict_outbreak` reports one outbreak per signalling group, in pandas' ascending group order. */
  lemma OutbreaksInGroupOrder(rows: seq<DailyRow>)
    ensures PlacesAscending(Filter(PlaceKeys(rows), Signalled(rows)))
    ensures |Outbreaks(rows)| == |Filter(PlaceKeys(rows), Signalled(rows))|
    ensures forall i :: 0 <= i < |Outbreaks(rows)| ==>
              Signalled(rows)(Filter(PlaceKeys(rows), Signalled(rows))[i]) &&
              Outbreaks(rows)[i] == OutbreakFor(rows, Filter(PlaceKeys(rows), Signalled(rows))[i])
  {
    PlaceKeysAre(rows);
    FilterPlacesAscending(PlaceKeys(rows), Signalled(rows));
    OutbreaksAre(rows, PlaceKeys(rows));
  }

  /** What every reported outbreak satisfies: above 50 %, graded 3 to 5, and graded 5 exactly above 80 %. */
  predicate SoundOutbreak(o: Outbreak)
  {
    3 <= o.severity <= 5 && o.percent > 50.0 && (o.severity == 5 <==> o.percent > 80.0)
  }

  /** The outbreak of a signalling group is sound. */
  lemma OutbreakForBounds(rows: seq<DailyRow>, k: PlaceKey)
    requires Signalled(rows)(k)
    ensures SoundOutbreak(OutbreakFor(rows, k))
  {
    assert Signal(PlaceGroup(rows, k));
  }

  /** Every reported outbreak comes from a group whose last row is above 50 %, with severity 3 to 5. */
  lemma OutbreakBounds(rows: seq<DailyRow>)
    ensures forall o :: o in Outbreaks(rows) ==> SoundOutbreak(o)
  {
    var ks := PlaceKeys(rows);
    var r := Outbreaks(rows);
    OutbreaksAre(rows, ks);
    forall i | 0 <= i < |r|
      ensures SoundOutbreak(r[i])
    {
      OutbreakForBounds(rows, Filter(ks, Signalled(rows))[i]);
    }
  }

  /** Fewer than three rows (one per facility and day), or fewer than ten samples, never signal whatever the percentages. */
  lemma IneligibleNeverSignals(g: seq<DailyRow>)
    requires |g| < 3 || SumSamples(g) < 10
    ensures !Signal(g)
  {
  }

  function Day(n: int): DateTime { DateTime(2024, 1, n, 0) }

  function Row(n: int, total: nat, resistant: nat): DailyRow
  {
    DailyRow(DayKey(Some("S"), Some("C"), None, None, 1, "P", Day(n)), total, resistant)
  }

  /** Three rows at 25 %, 25 % and 75 % of four samples each: 75 lies 50 points above the mean 25, so severity 4. */
  lemma SignalExample()
    ensures Signal([Row(1, 4, 1), Row(2, 4, 1), Row(3, 4, 3) ])
    ensures OutbreakSeverity(RowPercent(Row(3, 4, 3))) == 4
  {
    var g := [Row(1, 4, 1), Row(2, 4, 1), Row(3, 4, 3)];
    assert g[..2] == [Row(1, 4, 1), Row(2, 4, 1)];
    assert [Row(1, 4, 1), Row(2, 4, 1)][..1] == [Row(1, 4, 1)];
    assert g[..2][..1] == [Row(1, 4, 1)];
    assert g[..2][..0] == [];
    assert RowPercent(Row(1, 4, 1)) == 25.0 && RowPercent(Row(2, 4, 1)) == 25.0;
    assert RowPercent(Row(3, 4, 3)) == 75.0;
    assert SumPercent([Row(1, 4, 1)]) == 25.0;
    assert SumPercent([Row(1, 4, 1), Row(2, 4, 1)]) == 50.0;
    assert MeanPercent(g[..2]) == 25.0;
    assert g[..1] == [Row(1, 4, 1)] && g[..1][..0] == [];
    assert SumSamples(g) == 12;
  }

  /** Three rows of twenty samples at 10 %, 10 % and 80 %: the group signals, and since 80 is not above 80
      its severity is 4, not 5. */
  lemma SignalAtEighty()
    ensures Signal([Row(1, 20, 2), Row(2, 20, 2), Row(3, 20, 16)])
    ensures OutbreakSeverity(RowPercent(Row(3, 20, 16))) == 4
  {
    var g := [Row(1, 20, 2), Row(2, 20, 2), Row(3, 20, 16)];
    assert g[..2] == [Row(1, 20, 2), Row(2, 20, 2)];
    assert [Row(1, 20, 2), Row(2, 20, 2)][..1] == [Row(1, 20, 2)];
    assert g[..2][..1] == [Row(1, 20, 2)];
    assert g[..2][..0] == [];
    assert RowPercent(Row(1, 20, 2)) == 10.0 && RowPercent(Row(2, 20, 2)) == 10.0;
    assert RowPercent(Row(3, 20, 16)) == 80.0;
    assert SumPercent([Row(1, 20, 2)]) == 10.0;
    assert SumPercent([Row(1, 20, 2), Row(2, 20, 2)]) == 20.0;
    assert MeanPercent(g[..2]) == 10.0;
    assert g[..1] == [Row(1, 20, 2)] && g[..1][..0] == [];
    assert SumSamples(g) == 60;
  }

  /** The same rows with the last one at 50 %: not above 50, so no signal. */
  lemma NoSignalAtFifty()
    ensures !Signal([Row(1, 4, 1), Row(2, 4, 1), Row(3, 4, 2)])
  {
  }

  // ---------------------------------------------------------------- predict_outbreak, on the session

  /** `predict_outbreak`: the query, then the group loop. */
  method PredictOutbreak(db: Database, now: DateTime) returns (outbreaks: seq<Outbreak>)
    requires Valid(now)
    ensures outbreaks == Outbreaks(DailyRows(db.Snapshot(), now))
  {
    var rows := DailyRows(db.Snapshot(), now);
    outbreaks := DetectOutbreaks(rows);
  }

  /** The group loop over the place groups of the daily rows. */
  method DetectOutbreaks(rows: seq<DailyRow>) returns (outbreaks: seq<Outbreak>)
    ensures outbreaks == Outbreaks(rows)
  {
    outbreaks := GroupLoop(rows, PlaceKeys(rows));
  }

  /** The loop over the groups `ks`, in order. */
  method GroupLoop(rows: seq<DailyRow>, ks: seq<PlaceKey>) returns (outbreaks: seq<Outbreak>)
    ensures outbreaks == OutbreaksOf(rows, ks)
  {
    outbreaks := [];
    var i := 0;
    while i < |ks|
      invariant 0 <= i <= |ks|
      invariant outbreaks == OutbreaksOf(rows, ks[..i])
    {
      OutbreaksOfPrefix(rows, ks, i);
      var found := GroupOutbreak(rows, ks[i]);
      outbreaks := outbreaks + found;
      i := i + 1;
    }
    assert ks[..|ks|] == ks;
  }

  /** The body of the group loop: the group's outbreak, if it signals. */
  method GroupOutbreak(rows: seq<DailyRow>, k: PlaceKey) returns (found: seq<Outbreak>)
    ensures found == if Signalled(rows)(k) then [OutbreakFor(rows, k)] else []
  {
    var g := PlaceGroup(rows, k);
    var signal := CheckGroup(g);
    found := if signal then [OutbreakOf(k, g)] else [];
  }

  /** The eligibility filter, then the comparison of the last row with the mean of the rows before it. */
  method CheckGroup(g: seq<DailyRow>) returns (signal: bool)
    ensures signal == Signal(g)
  {
    if |g| < 3 || SumSamples(g) < 10 {
      return false;
    }
    var latest := RowPercent(g[|g| - 1]);
    var previous := MeanPercent(g[..|g| - 1]);
    signal := latest > 50.0 && latest - previous > 15.0;
  }

  // ---------------------------------------------------------------- treatment recommendations

  datatype Effectiveness = HighEffect | MediumEffect | LowEffect

  /** High below 20 % resistance, Medium below 50 %, otherwise Low. */
  function EffectivenessOf(p: real): (e: Effectiveness)
    ensures e == HighEffect <==> p < 20.0
    ensures e == MediumEffect <==> 20.0 <= p < 50.0
    ensures e == LowEffect <==> p >= 50.0
  {
    if p < 20.0 then HighEffect else if p < 50.0 then MediumEffect else LowEffect
  }

  /** The effectiveness of an antibiotic stated on its counts. */
  lemma EffectivenessCounts(resistant: nat, total: nat)
    requires total > 0
    ensures EffectivenessOf(Percent(resistant, total)) == HighEffect <==> 100 * resistant < 20 * total
    ensures EffectivenessOf(Percent(resistant, total)) == LowEffect <==> 100 * resistant >= 50 * total
  {
    PercentAtLeast(resistant, total, 20);
    PercentAtLeast(resistant, total, 50);
  }

  datatype Recommendation = Recommendation(antibioticId: nat, antibioticName: string, percent: real,
                                           totalSamples: nat, effectiveness: Effectiveness)

  /** Profiles of the pathogen, restricted to facilities of `region` when it is given and non-empty. */
  function InRecommendationScope(pathogenId: nat, region: Option<string>): Obs -> bool
  {
    (o: Obs) => o.profile.pathogenId == pathogenId && (region.Some? && region.value != "" ==> o.facility.state == region)
  }

  function ObsAntibiotic(o: Obs): Antibiotic { o.antibiotic }

  function RecommendationOf(obs: seq<Obs>, a: Antibiotic): Recommendation
  {
    var total := Count(obs, InGroup(ObsAntibiotic, a, All()));
    var resistant := Count(obs, InGroup(ObsAntibiotic, a, Resistant));
    Recommendation(a.id, a.name, Percent(resistant, total), total, EffectivenessOf(Percent(resistant, total)))
  }

  predicate Tested(r: Recommendation) { r.totalSamples > 0 }

  function RecommendationsOf(obs: seq<Obs>, ks: seq<Antibiotic>): seq<Recommendation>
  {
    if ks == [] then []
    else
      var rec := RecommendationOf(obs, ks[|ks| - 1]);
      RecommendationsOf(obs, ks[..|ks| - 1]) + if Tested(rec) then [rec] else []
  }

  function ScopeObs(t: Tables, pathogenId: nat, region: Option<string>): seq<Obs>
  {
    Filter(Join(t), InRecommendationScope(pathogenId, region))
  }

  function RecPercent(r: Recommendation): real { r.percent }

  function RecAntibioticId(r: Recommendation): nat { r.antibioticId }

  /** `get_treatment_recommendations`: one row per tested antibiotic, least resistance first. */
  function Recommendations(t: Tables, pathogenId: nat, region: Option<string>): seq<Recommendation>
  {
    var obs := ScopeObs(t, pathogenId, region);
    SortAsc(RecommendationsOf(obs, DistinctKeys(obs, ObsAntibiotic)), RecPercent)
  }

  /** A recommendation row whose percentage lies in 0..100 and whose rating follows the 20/50 rule. */
  predicate RecSound(r: Recommendation)
  {
    Tested(r) && 0.0 <= r.percent <= 100.0 && r.effectiveness == EffectivenessOf(r.percent)
  }

  lemma {:induction false} RecommendationsOfSound(obs: seq<Obs>, ks: seq<Antibiotic>)
    ensures forall r :: r in RecommendationsOf(obs, ks) ==> RecSound(r)
  {
    if ks != [] {
      var a := ks[|ks| - 1];
      RecommendationsOfSound(obs, ks[..|ks| - 1]);
      CountMonotone(obs, InGroup(ObsAntibiotic, a, Resistant), InGroup(ObsAntibiotic, a, All()));
    }
  }

  /** Recommendations are ordered by resistance, list only tested antibiotics of the scope, and rate each
      by the 20/50 rule on its own percentage. */
  lemma RecommendationsSound(t: Tables, pathogenId: nat, region: Option<string>)
    ensures var rs := Recommendations(t, pathogenId, region);
            (forall i, j :: 0 <= i < j < |rs| ==> rs[i].percent <= rs[j].percent) &&
            (forall r :: r in rs ==> RecSound(r))
  {
    var obs := ScopeObs(t, pathogenId, region);
    var unsorted := RecommendationsOf(obs, DistinctKeys(obs, ObsAntibiotic));
    RecommendationsOfSound(obs, DistinctKeys(obs, ObsAntibiotic));
    forall r | r in Recommendations(t, pathogenId, region)
      ensures RecSound(r)
    {
      assert r in multiset(unsorted);
    }
  }

  /** Every row built from `ks` is the recommendation of one of its antibiotics. */
  lemma {:induction false} RecommendationsOfFrom(obs: seq<Obs>, ks: seq<Antibiotic>)
    ensures forall r :: r in RecommendationsOf(obs, ks) ==> exists a :: a in ks && r == RecommendationOf(obs, a)
  {
    if ks != [] {
      var init := ks[..|ks| - 1];
      assert ks == init + [ks[|ks| - 1]];
      RecommendationsOfFrom(obs, init);
    }
  }

  /** Every antibiotic of `ks` with samples has its row. */
  lemma {:induction false} RecommendationsOfHas(obs: seq<Obs>, ks: seq<Antibiotic>, a: Antibiotic)
    requires a in ks && Tested(RecommendationOf(obs, a))
    ensures RecommendationOf(obs, a) in RecommendationsOf(obs, ks)
  {
    var init := ks[..|ks| - 1];
    assert ks == init + [ks[|ks| - 1]];
    if a != ks[|ks| - 1] {
      RecommendationsOfHas(obs, init, a);
    }
  }

  /** No row built from `ks` carries an id that no antibiotic of `ks` has. */
  lemma RowIdsAvoid(obs: seq<Obs>, ks: seq<Antibiotic>, id: nat)
    requires forall k :: 0 <= k < |ks| ==> ks[k].id != id
    ensures forall r :: r in RecommendationsOf(obs, ks) ==> RecAntibioticId(r) != id
  {
    RecommendationsOfFrom(obs, ks);
    forall r | r in RecommendationsOf(obs, ks)
      ensures RecAntibioticId(r) != id
    {
      var a :| a in ks && r == RecommendationOf(obs, a);
      var k :| 0 <= k < |ks| && ks[k] == a;
    }
  }

  /** Antibiotics with pairwise distinct ids give rows with pairwise distinct ids. */
  lemma {:induction false} RecommendationsOfDistinct(obs: seq<Obs>, ks: seq<Antibiotic>)
    requires forall i, j :: 0 <= i < j < |ks| ==> ks[i].id != ks[j].id
    ensures forall i, j :: 0 <= i < j < |RecommendationsOf(obs, ks)| ==>
              RecAntibioticId(RecommendationsOf(obs, ks)[i]) != RecAntibioticId(RecommendationsOf(obs, ks)[j])
  {
    if ks != [] {
      var init, last := ks[..|ks| - 1], ks[|ks| - 1];
      var rest := RecommendationsOf(obs, init);
      var rec := RecommendationOf(obs, last);
      RecommendationsOfDistinct(obs, init);
      if Tested(rec) {
        assert forall k :: 0 <= k < |init| ==> init[k].id != last.id by {
          forall k | 0 <= k < |init|
            ensures init[k].id != last.id
          {
            assert ks[k] == init[k];
          }
        }
        RowIdsAvoid(obs, init, last.id);
        assert RecAntibioticId(rec) == last.id;
        KeysDistinctSnoc(rest, rec, RecAntibioticId);
        assert RecommendationsOf(obs, ks) == rest + [rec];
      }
    }
  }

  /** In a keyed antibiotics table a row with id `n` is row `n - 1`. */
  lemma KeyedAntibioticAt(abx: seq<Antibiotic>, a: Antibiotic)
    requires KeyedRows(abx, AntibioticId) && a in abx
    ensures 1 <= a.id <= |abx| && abx[a.id - 1] == a
  {
    var n :| 0 <= n < |abx| && abx[n] == a;
    assert AntibioticId(abx[n]) == n + 1;
  }

  /** Observations drawing their antibiotics from a keyed table group into antibiotics with distinct ids. */
  lemma ObsAntibioticIdsDistinct(abx: seq<Antibiotic>, obs: seq<Obs>)
    requires KeyedRows(abx, AntibioticId)
    requires forall o :: o in obs ==> o.antibiotic in abx
    ensures forall i, j :: 0 <= i < j < |DistinctKeys(obs, ObsAntibiotic)| ==>
              DistinctKeys(obs, ObsAntibiotic)[i].id != DistinctKeys(obs, ObsAntibiotic)[j].id
  {
    var keys := DistinctKeys(obs, ObsAntibiotic);
    forall k | k in keys
      ensures 1 <= k.id <= |abx| && abx[k.id - 1] == k
    {
      var o :| o in obs && ObsAntibiotic(o) == k;
      KeyedAntibioticAt(abx, k);
    }
    forall i, j | 0 <= i < j < |keys|
      ensures keys[i].id != keys[j].id
    {
      assert keys[i] in keys && keys[j] in keys;
    }
  }

  /** In a keyed store the antibiotics of the scope have pairwise distinct ids: the join takes each
      from the antibiotics table, whose row `i` has id `i + 1`. */
  lemma ScopeAntibioticIdsDistinct(t: Tables, pathogenId: nat, region: Option<string>)
    requires Keyed(t)
    ensures forall i, j :: 0 <= i < j < |DistinctKeys(ScopeObs(t, pathogenId, region), ObsAntibiotic)| ==>
              DistinctKeys(ScopeObs(t, pathogenId, region), ObsAntibiotic)[i].id !=
              DistinctKeys(ScopeObs(t, pathogenId, region), ObsAntibiotic)[j].id
  {
    var obs := ScopeObs(t, pathogenId, region);
    forall o | o in obs
      ensures o.antibiotic in t.antibiotics
    {
      assert JoinedFrom(t, o);
    }
    ObsAntibioticIdsDistinct(t.antibiotics, obs);
  }

  /** Every row of a ranking of `RecommendationsOf(obs, keys)` is the recommendation of one of its keys. */
  lemma RankedRowsFromKeys(obs: seq<Obs>, keys: seq<Antibiotic>, rs: seq<Recommendation>)
    requires multiset(rs) == multiset(RecommendationsOf(obs, keys))
    ensures forall r :: r in rs ==> exists a :: a in keys && r == RecommendationOf(obs, a)
  {
    RecommendationsOfFrom(obs, keys);
    forall r | r in rs
      ensures exists a :: a in keys && r == RecommendationOf(obs, a)
    {
      assert r in multiset(RecommendationsOf(obs, keys));
      assert r in RecommendationsOf(obs, keys);
    }
  }

  /** A ranking of the grouped rows holds the row of `a` exactly when some observation tests `a`. */
  lemma RankedRowPresent(obs: seq<Obs>, rs: seq<Recommendation>, a: Antibiotic)
    requires multiset(rs) == multiset(RecommendationsOf(obs, DistinctKeys(obs, ObsAntibiotic)))
    ensures RecommendationOf(obs, a) in rs <==> exists o :: o in obs && o.antibiotic == a
  {
    var keys := DistinctKeys(obs, ObsAntibiotic);
    var rec := RecommendationOf(obs, a);
    CountZero(obs, InGroup(ObsAntibiotic, a, All()));
    assert rec in rs <==> rec in multiset(RecommendationsOf(obs, keys));
    if exists o :: o in obs && o.antibiotic == a {
      var o :| o in obs && o.antibiotic == a;
      assert InGroup(ObsAntibiotic, a, All())(o);
      RecommendationsOfHas(obs, keys, a);
    }
    if rec in RecommendationsOf(obs, keys) {
      RecommendationsOfSound(obs, keys);
    }
  }

  /** Each recommendation is that of an antibiotic some profile in scope tests: its share is the resistant
      count over the sample count of that antibiotic among the pathogen's profiles in the region; and every
      antibiotic tested in scope has its row. */
  lemma RecommendationsCover(t: Tables, pathogenId: nat, region: Option<string>)
    ensures var obs := ScopeObs(t, pathogenId, region);
            var rs := Recommendations(t, pathogenId, region);
            multiset(rs) == multiset(RecommendationsOf(obs, DistinctKeys(obs, ObsAntibiotic))) &&
            (forall r :: r in rs ==>
               exists a :: a in DistinctKeys(obs, ObsAntibiotic) &&
                 r.antibioticId == a.id && r.antibioticName == a.name &&
                 r.totalSamples == Count(obs, InGroup(ObsAntibiotic, a, All())) &&
                 r.percent == Percent(Count(obs, InGroup(ObsAntibiotic, a, Resistant)), r.totalSamples)) &&
            (forall a :: RecommendationOf(obs, a) in rs <==> exists o :: o in obs && o.antibiotic == a)
  {
    var obs := ScopeObs(t, pathogenId, region);
    var rs := Recommendations(t, pathogenId, region);
    RankedRowsFromKeys(obs, DistinctKeys(obs, ObsAntibiotic), rs);
    forall a
      ensures RecommendationOf(obs, a) in rs <==> exists o :: o in obs && o.antibiotic == a
    {
      RankedRowPresent(obs, rs, a);
    }
  }

  /** A ranking of rows built from antibiotics with distinct ids has rows with distinct ids. */
  lemma RankedRowsDistinct(obs: seq<Obs>, keys: seq<Antibiotic>, rs: seq<Recommendation>)
    requires forall i, j :: 0 <= i < j < |keys| ==> keys[i].id != keys[j].id
    requires multiset(rs) == multiset(RecommendationsOf(obs, keys))
    ensures forall i, j :: 0 <= i < j < |rs| ==> rs[i].antibioticId != rs[j].antibioticId
  {
    var unsorted := RecommendationsOf(obs, keys);
    RecommendationsOfDistinct(obs, keys);
    PermutationKeepsKeysDistinct(rs, unsorted, RecAntibioticId);
    assert forall i, j :: 0 <= i < j < |rs| ==> RecAntibioticId(rs[i]) != RecAntibioticId(rs[j]);
  }

  /** In a keyed store no antibiotic has two recommendation rows. */
  lemma RecommendationsUnique(t: Tables, pathogenId: nat, region: Option<string>)
    requires Keyed(t)
    ensures forall i, j :: 0 <= i < j < |Recommendations(t, pathogenId, region)| ==>
              Recommendations(t, pathogenId, region)[i].antibioticId != Recommendations(t, pathogenId, region)[j].antibioticId
  {
    var obs := ScopeObs(t, pathogenId, region);
    ScopeAntibioticIdsDistinct(t, pathogenId, region);
    RankedRowsDistinct(obs, DistinctKeys(obs, ObsAntibiotic), Recommendations(t, pathogenId, region));
  }

  /** `get_treatment_recommendations`: the loop over the grouped rows, then the sort. */
  method GetTreatmentRecommendations(db: Database, pathogenId: nat, region: Option<string>) returns (rs: seq<Recommendation>)
    ensures rs == Recommendations(db.Snapshot(), pathogenId, region)
  {
    var obs := ScopeObs(db.Snapshot(), pathogenId, region);
    var recs := RecommendationRows(obs, DistinctKeys(obs, ObsAntibiotic));
    rs := SortAsc(recs, RecPercent);
  }

  /** The loop over the grouped rows, keeping those with samples. */
  method RecommendationRows(obs: seq<Obs>, ks: seq<Antibiotic>) returns (recs: seq<Recommendation>)
    ensures recs == RecommendationsOf(obs, ks)
  {
    recs := [];
    var i := 0;
    while i < |ks|
      invariant 0 <= i <= |ks|
      invariant recs == RecommendationsOf(obs, ks[..i])
    {
      assert ks[..i + 1][..i] == ks[..i];
      var row := RecommendationOf(obs, ks[i]);
      if row.totalSamples > 0 {
        recs := recs + [row];
      }
      i := i + 1;
    }
    assert ks[..|ks|] == ks;
  }

  // ---------------------------------------------------------------- predict_resistance_spread

  /** A facility point carried forward: its percentage raised by `increase`, capped at 100, and reclassified. */
  datatype Prediction = Prediction(name: string, percent: real, risk: Risk, days: int, base: MapPoint)

  function Min(a: real, b: real): real { if a <= b then a else b }

  function PredictionOf(p: MapPoint, increase: real, days: int): Prediction
    requires p.FacilityPoint?
  {
    var pct := Min(100.0, p.percentTenths as real / 10.0 + increase);
    Prediction(p.name + " (Prediction)", pct, ClassifyPercent(pct), days, p)
  }

  /** The forecast of `points`; `increase(i)` is the random draw the `i`-th location receives. */
  function Spread(points: seq<MapPoint>, increase: nat -> real, days: int): seq<Prediction>
  {
    if points == [] then []
    else
      var n := |points| - 1;
      Spread(points[..n], increase, days) +
      if points[n].FacilityPoint? then [PredictionOf(points[n], increase(n), days)] else []
  }

  predicate IsFacilityPoint(p: MapPoint) { p.FacilityPoint? }

  /** Environmental samples are skipped; each facility is forecast at most 100 % and classified by the map's rule. */
  lemma {:induction false} SpreadSound(points: seq<MapPoint>, increase: nat -> real, days: int)
    ensures |Spread(points, increase, days)| == Count(points, IsFacilityPoint)
    ensures forall q :: q in Spread(points, increase, days) ==>
              q.percent <= 100.0 && q.risk == ClassifyPercent(q.percent) && q.base in points && q.base.FacilityPoint? &&
              q.days == days
  {
    if points != [] {
      var n := |points| - 1;
      assert points == points[..n] + [points[n]];
      SpreadSound(points[..n], increase, days);
      FilterSnoc(points[..n], points[n], IsFacilityPoint);
    }
  }

  /** With draws between 2 and 8, no forecast is below today's rounded level, and one not capped rises by at least 2 points. */
  lemma SpreadRaises(p: MapPoint, increase: real, days: int)
    requires p.FacilityPoint? && 2.0 <= increase <= 8.0
    ensures PredictionOf(p, increase, days).percent >= Min(100.0, p.percentTenths as real / 10.0)
    ensures p.percentTenths as real / 10.0 + increase <= 100.0 ==>
              PredictionOf(p, increase, days).percent >= p.percentTenths as real / 10.0 + 2.0
    ensures RiskRank(PredictionOf(p, increase, days).risk) >= RiskRank(ClassifyPercent(Min(100.0, p.percentTenths as real / 10.0)))
  {
    var q := PredictionOf(p, increase, days);
    ClassifyMonotone(Min(100.0, p.percentTenths as real / 10.0), q.percent);
  }

  /** `predict_resistance_spread`: the current map, then the forecast loop over it. */
  method PredictResistanceSpread(db: Database, increase: nat -> real, days: int) returns (predicted: seq<Prediction>)
    ensures predicted == Spread(ResistanceMap(db.Snapshot()), increase, days)
  {
    var current := GenerateResistanceMap(db);
    predicted := ForecastPoints(current, increase, days);
  }

  /** The forecast loop: one prediction per facility point, environmental samples skipped. */
  method ForecastPoints(current: seq<MapPoint>, increase: nat -> real, days: int) returns (predicted: seq<Prediction>)
    ensures predicted == Spread(current, increase, days)
  {
    predicted := [];
    var i := 0;
    while i < |current|
      invariant 0 <= i <= |current|
      invariant predicted == Spread(current[..i], increase, days)
    {
      SpreadPrefix(current, increase, days, i);
      if current[i].FacilityPoint? {
        predicted := predicted + [PredictionOf(current[i], increase(i), days)];
      }
      i := i + 1;
    }
    assert current[..|current|] == current;
  }

  lemma SpreadPrefix(points: seq<MapPoint>, increase: nat -> real, days: int, i: nat)
    requires i < |points|
    ensures Spread(points[..i + 1], increase, days) ==
            Spread(points[..i], increase, days) + if points[i].FacilityPoint? then [PredictionOf(points[i], increase(i), days)] else []
  {
    assert points[..i + 1][..i] == points[..i];
  }
}
