/** The treatment blueprint: the per-antibiotic resistance statistics of a pathogen's guidance
    page, and the unfinished chart API. */
module Treatment {
  import opened Common
  import opened Models

  /** One row of `resistance_stats`; the percentage is Python's integer `round`. */
  datatype ResistanceStat = ResistanceStat(antibiotic: string, total: nat, resistant: nat, percentage: nat)

  /** A profile of the pathogen whose antibiotic row exists: a row of the `Antibiotic` join. */
  function JoinsAntibiotic(t: Tables, pathogenId: nat): Profile -> bool
  {
    (p: Profile) => p.pathogenId == pathogenId && AntibioticById(t, p.antibioticId).Some?
  }

  /** The antibiotic row a profile joins (a placeholder where there is none, never used). */
  function AntibioticOf(t: Tables): Profile -> Antibiotic
  {
    (p: Profile) => match AntibioticById(t, p.antibioticId) case Some(a) => a case None => Antibiotic(0, "", "")
  }

  /** The `DISTINCT` antibiotics tested against the pathogen, in order of first appearance. */
  function TestedAntibiotics(t: Tables, pathogenId: nat): seq<Antibiotic>
  {
    DistinctKeys(Filter(t.profiles, JoinsAntibiotic(t, pathogenId)), AntibioticOf(t))
  }

  /** `filter_by(pathogen_id=…, antibiotic_id=…)`. */
  function OfPair(pathogenId: nat, antibioticId: nat): Profile -> bool
  {
    (p: Profile) => p.pathogenId == pathogenId && p.antibioticId == antibioticId
  }

  /** The same profiles, with result 'R'. */
  function ResistantOfPair(pathogenId: nat, antibioticId: nat): Profile -> bool
  {
    (p: Profile) => p.pathogenId == pathogenId && p.antibioticId == antibioticId && p.result == "R"
  }

  /** `round(resistant / total * 100) if total > 0 else 0`, on the exact quotient. */
  function RoundedPercent(resistant: nat, total: nat): nat
  {
    if total > 0 then RoundHalfEven(100 * resistant, total) else 0
  }

  function StatOf(t: Tables, pathogenId: nat, a: Antibiotic): ResistanceStat
  {
    var total := Count(t.profiles, OfPair(pathogenId, a.id));
    var resistant := Count(t.profiles, ResistantOfPair(pathogenId, a.id));
    ResistanceStat(a.name, total, resistant, RoundedPercent(resistant, total))
  }

  /** The loop over the antibiotics, one row each. */
  function Stats(t: Tables, pathogenId: nat, abx: seq<Antibiotic>): (r: seq<ResistanceStat>)
    ensures |r| == |abx|
    ensures forall i :: 0 <= i < |r| ==> r[i] == StatOf(t, pathogenId, abx[i])
  {
    if abx == [] then [] else Stats(t, pathogenId, abx[..|abx| - 1]) + [StatOf(t, pathogenId, abx[|abx| - 1])]
  }

  /** `pathogen_guidance`: 404 (`None`) for an unknown pathogen, else one row per tested antibiotic. */
  function PathogenGuidance(t: Tables, pathogenId: nat): Option<seq<ResistanceStat>>
  {
    if PathogenById(t, pathogenId).None? then None else Some(Stats(t, pathogenId, TestedAntibiotics(t, pathogenId)))
  }

  /** The antibiotics listed are exactly those some profile of the pathogen refers to, each once. */
  lemma TestedAntibioticsAre(t: Tables, pathogenId: nat, a: Antibiotic)
    ensures a in TestedAntibiotics(t, pathogenId) <==>
              exists p :: p in t.profiles && p.pathogenId == pathogenId && AntibioticById(t, p.antibioticId) == Some(a)
    ensures forall i, j :: 0 <= i < j < |TestedAntibiotics(t, pathogenId)| ==>
              TestedAntibiotics(t, pathogenId)[i] != TestedAntibiotics(t, pathogenId)[j]
  {
    var joined := Filter(t.profiles, JoinsAntibiotic(t, pathogenId));
    if a in TestedAntibiotics(t, pathogenId) {
      var p :| p in joined && AntibioticOf(t)(p) == a;
      assert p in t.profiles && JoinsAntibiotic(t, pathogenId)(p);
    }
    if p :| p in t.profiles && p.pathogenId == pathogenId && AntibioticById(t, p.antibioticId) == Some(a) {
      assert JoinsAntibiotic(t, pathogenId)(p);
      assert p in joined && AntibioticOf(t)(p) == a;
    }
  }

  /** The guidance exists exactly for a known pathogen, with one row per tested antibiotic, in the same order. */
  lemma PathogenGuidanceRows(t: Tables, pathogenId: nat)
    ensures PathogenGuidance(t, pathogenId).None? <==> PathogenById(t, pathogenId).None?
    ensures PathogenGuidance(t, pathogenId).Some? ==>
              |PathogenGuidance(t, pathogenId).value| == |TestedAntibiotics(t, pathogenId)| &&
              forall i :: 0 <= i < |TestedAntibiotics(t, pathogenId)| ==>
                PathogenGuidance(t, pathogenId).value[i].antibiotic == TestedAntibiotics(t, pathogenId)[i].name
  {
  }

  /** A tested antibiotic has at least one profile with the pathogen. */
  lemma TestedHasProfiles(t: Tables, pathogenId: nat, a: Antibiotic)
    requires a in TestedAntibiotics(t, pathogenId)
    ensures Count(t.profiles, OfPair(pathogenId, a.id)) > 0
  {
    TestedAntibioticsAre(t, pathogenId, a);
    var p :| p in t.profiles && p.pathogenId == pathogenId && AntibioticById(t, p.antibioticId) == Some(a);
    CountPositive(t.profiles, OfPair(pathogenId, a.id), p);
  }

  /** A row's total counts every profile of the pair and its resistant count those with 'R'; the
      total is positive, the percentage is the nearest integer to the exact share (ties to even) and
      never exceeds 100. */
  lemma StatOfTested(t: Tables, pathogenId: nat, a: Antibiotic)
    requires a in TestedAntibiotics(t, pathogenId)
    ensures StatOf(t, pathogenId, a).total == Count(t.profiles, OfPair(pathogenId, a.id)) > 0
    ensures StatOf(t, pathogenId, a).resistant == Count(t.profiles, ResistantOfPair(pathogenId, a.id))
    ensures StatOf(t, pathogenId, a).resistant <= StatOf(t, pathogenId, a).total
    ensures StatOf(t, pathogenId, a).percentage <= 100
    ensures 2 * Abs(StatOf(t, pathogenId, a).percentage * StatOf(t, pathogenId, a).total - 100 * StatOf(t, pathogenId, a).resistant)
              <= StatOf(t, pathogenId, a).total
  {
    TestedHasProfiles(t, pathogenId, a);
    var s := StatOf(t, pathogenId, a);
    CountMonotone(t.profiles, ResistantOfPair(pathogenId, a.id), OfPair(pathogenId, a.id));
    RoundedPercentBounded(s.resistant, s.total);
    RoundHalfEvenNearest(100 * s.resistant, s.total);
  }

  /** Rounding an exact multiple gives the multiplier back. */
  lemma RoundExact(k: nat, d: nat)
    requires d > 0
    ensures RoundHalfEven(k * d, d) == k
  {
    var q, r := (k * d) / d, (k * d) % d;
    assert k * d == q * d + r;
    if q < k {
      MulMonotone(q + 1, k, d);
      assert false;
    }
    if q > k {
      MulMonotone(k + 1, q, d);
      assert false;
    }
  }

  /** Only 'R' is resistant: with no 'R' result of the pair the row reads 0%, and with only 'R' results 100%. */
  lemma StatOfExtremes(t: Tables, pathogenId: nat, a: Antibiotic)
    requires a in TestedAntibiotics(t, pathogenId)
    ensures (forall p :: p in t.profiles && OfPair(pathogenId, a.id)(p) ==> p.result != "R") ==>
              StatOf(t, pathogenId, a).percentage == 0
    ensures (forall p :: p in t.profiles && OfPair(pathogenId, a.id)(p) ==> p.result == "R") ==>
              StatOf(t, pathogenId, a).percentage == 100
  {
    TestedHasProfiles(t, pathogenId, a);
    var total := Count(t.profiles, OfPair(pathogenId, a.id));
    if forall p :: p in t.profiles && OfPair(pathogenId, a.id)(p) ==> p.result != "R" {
      CountZero(t.profiles, ResistantOfPair(pathogenId, a.id));
      RoundExact(0, total);
    }
    if forall p :: p in t.profiles && OfPair(pathogenId, a.id)(p) ==> p.result == "R" {
      CountSame(t.profiles, ResistantOfPair(pathogenId, a.id), OfPair(pathogenId, a.id));
      RoundExact(100, total);
    }
  }

  /** One more antibiotic adds its row at the end. */
  lemma StatsStep(t: Tables, pathogenId: nat, abx: seq<Antibiotic>, i: nat)
    requires i < |abx|
    ensures Stats(t, pathogenId, abx[..i + 1]) == Stats(t, pathogenId, abx[..i]) + [StatOf(t, pathogenId, abx[i])]
  {
    assert abx[..i + 1][..i] == abx[..i];
  }

  /** The guidance page's statistics, as the route computes them. */
  method ResistanceStatistics(db: Database, pathogenId: nat) returns (stats: Option<seq<ResistanceStat>>)
    ensures stats == PathogenGuidance(db.Snapshot(), pathogenId)
  {
    var t := db.Snapshot();
    if PathogenById(t, pathogenId).None? {
      return None;
    }
    var abx := TestedAntibiotics(t, pathogenId);
    var rows: seq<ResistanceStat> := [];
    var i := 0;
    while i < |abx|
      invariant 0 <= i <= |abx|
      invariant rows == Stats(t, pathogenId, abx[..i])
    {
      var total, resistant := CountPair(t.profiles, pathogenId, abx[i].id);
      var percentage := if total > 0 then RoundHalfEven(100 * resistant, total) else 0;
      StatsStep(t, pathogenId, abx, i);
      rows := rows + [ResistanceStat(abx[i].name, total, resistant, percentage)];
      i := i + 1;
    }
    assert abx[..|abx|] == abx;
    return Some(rows);
  }

  /** `len(profiles)` and `sum(1 for p in profiles if p.result == 'R')` over the pair's profiles. */
  method CountPair(profiles: seq<Profile>, pathogenId: nat, antibioticId: nat) returns (total: nat, resistant: nat)
    ensures total == Count(profiles, OfPair(pathogenId, antibioticId))
    ensures resistant == Count(profiles, ResistantOfPair(pathogenId, antibioticId))
  {
    total, resistant := 0, 0;
    var j := 0;
    while j < |profiles|
      invariant 0 <= j <= |profiles|
      invariant total == Count(profiles[..j], OfPair(pathogenId, antibioticId))
      invariant resistant == Count(profiles[..j], ResistantOfPair(pathogenId, antibioticId))
    {
      FilterPrefix(profiles, j, OfPair(pathogenId, antibioticId));
      FilterPrefix(profiles, j, ResistantOfPair(pathogenId, antibioticId));
      var p := profiles[j];
      if p.pathogenId == pathogenId && p.antibioticId == antibioticId {
        total := total + 1;
        if p.result == "R" {
          resistant := resistant + 1;
        }
      }
      j := j + 1;
    }
    assert profiles[..|profiles|] == profiles;
  }

  /** `pathogen_resistance_api` is unfinished: its body is `pass`, so it returns nothing. */
  function PathogenResistanceApi(pathogenId: nat): (r: Option<seq<ResistanceStat>>)
    ensures r.None?
  {
    None
  }
}
