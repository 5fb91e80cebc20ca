/** Batch ingestion of laboratory results with find-or-create catalogs and critical
    alerts, environmental samples with load-graded alerts, and the resistance map. */
module DataProcessing {
  import opened Common
  import opened Calendar
  import opened Models
  import opened Utils

  /** An uploaded lab record: field name to parsed value. */
  type Record = map<string, Value>

  /** What ingestion takes from outside the store. */
  datatype Env = Env(
    now: DateTime,                                     // datetime.utcnow()
    hash: string -> string,                            // hex SHA-256
    saltEnv: Option<string>,                           // the PATIENT_ID_SALT environment variable
    parse: (DateFormat, string) -> Option<DateTime>,   // strptime, None where it raises ValueError
    reportIds: nat -> string,                          // generate_report_id(), by the id of the report it labels
    showReal: real -> string)                          // str() of a float

  // ---------------------------------------------------------------- record fields

  /** `record.get(key, default)` as stored in a text column. */
  function Get(rec: Record, key: string, default: string): string
  {
    if key in rec then Render(rec[key]) else default
  }

  predicate Complete(rec: Record)
  {
    "pathogen" in rec && "antibiotic" in rec && "result" in rec
  }

  /** A date field parsed by `format_date`; `None` when absent or when parsing raises (caught by a bare except). */
  function DateField(env: Env, rec: Record, key: string): Option<DateTime>
  {
    if key in rec && rec[key].Text? then
      match FormatDate(env.parse, rec[key].s)
      case Ok(d) => Some(d)
      case Err(_) => None
    else None
  }

  function ReportDate(env: Env, rec: Record): DateTime
  {
    match DateField(env, rec, "report_date")
    case Some(d) => d
    case None => env.now
  }

  function SampleDate(env: Env, rec: Record): Option<DateTime>
  {
    DateField(env, rec, "sample_date")
  }

  /** Report and sample dates default to now and to none when the field is absent or does not parse. */
  lemma DatesDefault(env: Env, rec: Record)
    ensures ("report_date" !in rec || (rec["report_date"].Text? && FormatDate(env.parse, rec["report_date"].s).Err?)) ==>
              ReportDate(env, rec) == env.now
    ensures ("sample_date" !in rec || (rec["sample_date"].Text? && FormatDate(env.parse, rec["sample_date"].s).Err?)) ==>
              SampleDate(env, rec).None?
    ensures ("report_date" in rec && rec["report_date"].Text? && FormatDate(env.parse, rec["report_date"].s).Ok?) ==>
              ReportDate(env, rec) == FormatDate(env.parse, rec["report_date"].s).value
  {
  }

  /** The stored patient identifier: the salted hash of a truthy `patient_id`, else empty. */
  function PatientIdentifier(env: Env, rec: Record): string
  {
    var v := if "patient_id" in rec then rec["patient_id"] else Text("");
    if Truthy(v) then HashPatientId(env.hash, Render(v), None, env.saltEnv) else ""
  }

  /** A non-empty identifier is stored only as its hash under the environment salt; an empty one stays empty. */
  lemma PatientIdentifierHashed(env: Env, rec: Record, id: string)
    requires "patient_id" in rec && rec["patient_id"] == Text(id)
    ensures id != "" ==> PatientIdentifier(env, rec) == env.hash(id + EffectiveSalt(None, env.saltEnv))
    ensures id == "" ==> PatientIdentifier(env, rec) == ""
  {
  }

  lemma PatientIdentifierAbsent(env: Env, rec: Record)
    requires "patient_id" !in rec
    ensures PatientIdentifier(env, rec) == ""
  {
  }

  /** `record['result'] == 'R' and record.get('is_critical', False)`. */
  predicate IsCritical(rec: Record)
    requires Complete(rec)
  {
    rec["result"] == Text("R") && "is_critical" in rec && Truthy(rec["is_critical"])
  }

  /** Doctors and public health officials receive critical-resistance alerts. */
  predicate IsClinician(u: User)
  {
    u.role == Doctor || u.role == PublicHealthOfficial
  }

  function PathogenName(p: Pathogen): string { p.name }
  function AntibioticName(a: Antibiotic): string { a.name }

  function ReportFor(env: Env, fac: Facility, userId: nat, rec: Record, id: nat): LabReport
  {
    LabReport(id, env.reportIds(id), fac.id, userId, ReportDate(env, rec), SampleDate(env, rec),
              Get(rec, "sample_type", ""), PatientIdentifier(env, rec))
  }

  /** The critical-resistance alert before it is addressed to a recipient. */
  function ResistanceAlert(fac: Facility, pathogen: string, antibiotic: string, pid: nat, aid: nat, now: DateTime): (a: Alert)
    ensures a.severity == 4 && a.alertType == "critical_resistance" && !a.read && !a.actionTaken
  {
    Alert(0, 0,
          "Critical resistance detected: " + pathogen + " to " + antibiotic,
          "A critical resistance pattern has been detected at " + fac.name + ". " +
          pathogen + " showing resistance to " + antibiotic + ". " +
          "Consider revising treatment protocols for affected patients.",
          "critical_resistance", 4, now, false, false,
          fac.latitude, fac.longitude, fac.state, Some(pid), Some(aid))
  }

  // ---------------------------------------------------------------- ingestion, as a function of the store

  /** The catalog row a record's pathogen gets when its name is new. */
  function NewPathogen(t: Tables, rec: Record): Pathogen
    requires Complete(rec)
  {
    Pathogen(|t.pathogens| + 1, Render(rec["pathogen"]), Get(rec, "scientific_name", ""), Get(rec, "pathogen_type", ""))
  }

  /** The catalog row a record's antibiotic gets when its name is new. */
  function NewAntibiotic(t: Tables, rec: Record): Antibiotic
    requires Complete(rec)
  {
    Antibiotic(|t.antibiotics| + 1, Render(rec["antibiotic"]), Get(rec, "drug_class", ""))
  }

  /** The pathogen catalog after looking up the record's pathogen, and the id found or created. */
  function StorePathogen(t: Tables, rec: Record): (seq<Pathogen>, nat)
    requires Complete(rec)
  {
    FindOrCreate(t.pathogens, PathogenName, PathogenId, Render(rec["pathogen"]), NewPathogen(t, rec))
  }

  /** The antibiotic catalog after looking up the record's antibiotic, and the id found or created. */
  function StoreAntibiotic(t: Tables, rec: Record): (seq<Antibiotic>, nat)
    requires Complete(rec)
  {
    FindOrCreate(t.antibiotics, AntibioticName, AntibioticId, Render(rec["antibiotic"]), NewAntibiotic(t, rec))
  }

  /** The catalog rows, report and profile one complete record adds, with the pathogen and antibiotic ids it uses. */
  function StoreRecord(t: Tables, env: Env, fac: Facility, userId: nat, rec: Record): (Tables, nat, nat)
    requires Complete(rec)
  {
    var ps := StorePathogen(t, rec);
    var abs := StoreAntibiotic(t, rec);
    var rep := ReportFor(env, fac, userId, rec, |t.reports| + 1);
    var prof := Profile(|t.profiles| + 1, rep.id, ps.1, abs.1, Render(rec["result"]));
    (t.(pathogens := ps.0, antibiotics := abs.0, reports := t.reports + [rep], profiles := t.profiles + [prof]), ps.1, abs.1)
  }

  /** The effect of one record on the store, and whether it was counted. */
  function IngestRecord(t: Tables, env: Env, fac: Facility, userId: nat, rec: Record): (Tables, bool)
  {
    if !Complete(rec) then (t, false)
    else
      var s := StoreRecord(t, env, fac, userId, rec);
      if IsCritical(rec) then
        var template := ResistanceAlert(fac, Render(rec["pathogen"]), Render(rec["antibiotic"]), s.1, s.2, env.now);
        (s.0.(alerts := s.0.alerts + FanOut(s.0.users, IsClinician, template, |s.0.alerts|)), true)
      else (s.0, true)
  }

  /** The store after ingesting `data` in order, and the number of records counted. */
  function IngestAll(t: Tables, env: Env, fac: Facility, userId: nat, data: seq<Record>): (Tables, nat)
  {
    if data == [] then (t, 0)
    else
      var prev := IngestAll(t, env, fac, userId, data[..|data| - 1]);
      var step := IngestRecord(prev.0, env, fac, userId, data[|data| - 1]);
      (step.0, prev.1 + if step.1 then 1 else 0)
  }

  // ---------------------------------------------------------------- what ingestion guarantees

  predicate CriticalRecord(rec: Record)
  {
    Complete(rec) && IsCritical(rec)
  }

  lemma IngestAllSnoc(t: Tables, env: Env, fac: Facility, userId: nat, data: seq<Record>, rec: Record)
    ensures IngestAll(t, env, fac, userId, data + [rec]).0 ==
            IngestRecord(IngestAll(t, env, fac, userId, data).0, env, fac, userId, rec).0
    ensures IngestAll(t, env, fac, userId, data + [rec]).1 ==
            IngestAll(t, env, fac, userId, data).1 +
            if IngestRecord(IngestAll(t, env, fac, userId, data).0, env, fac, userId, rec).1 then 1 else 0
  {
    assert (data + [rec])[..|data + [rec]| - 1] == data;
  }

  /** Ingesting one more record of a batch is one more step of the record loop. */
  lemma IngestAllPrefix(t: Tables, env: Env, fac: Facility, userId: nat, data: seq<Record>, i: nat)
    requires i < |data|
    ensures IngestAll(t, env, fac, userId, data[..i + 1]).0 ==
            IngestRecord(IngestAll(t, env, fac, userId, data[..i]).0, env, fac, userId, data[i]).0
    ensures IngestAll(t, env, fac, userId, data[..i + 1]).1 ==
            IngestAll(t, env, fac, userId, data[..i]).1 +
            if IngestRecord(IngestAll(t, env, fac, userId, data[..i]).0, env, fac, userId, data[i]).1 then 1 else 0
  {
    assert data[..i + 1][..i] == data[..i];
  }

  /** Exactly the complete records are counted, so the count never exceeds the batch size. */
  lemma {:induction false} IngestCount(t: Tables, env: Env, fac: Facility, userId: nat, data: seq<Record>)
    ensures IngestAll(t, env, fac, userId, data).1 == Count(data, Complete) <= |data|
  {
    if data != [] {
      var init := data[..|data| - 1];
      assert data == init + [data[|data| - 1]];
      IngestCount(t, env, fac, userId, init);
      IngestAllSnoc(t, env, fac, userId, init, data[|data| - 1]);
      FilterSnoc(init, data[|data| - 1], Complete);
    }
  }

  /** Ingestion leaves users, facilities and environmental samples alone. */
  lemma {:induction false} IngestKeeps(t: Tables, env: Env, fac: Facility, userId: nat, data: seq<Record>)
    ensures var t2 := IngestAll(t, env, fac, userId, data).0;
            t2.users == t.users && t2.facilities == t.facilities && t2.samples == t.samples
  {
    if data != [] {
      var init := data[..|data| - 1];
      assert data == init + [data[|data| - 1]];
      IngestKeeps(t, env, fac, userId, init);
      IngestAllSnoc(t, env, fac, userId, init, data[|data| - 1]);
    }
  }

  lemma StoreRecordCatalogs(before: Tables, t: Tables, env: Env, fac: Facility, userId: nat, rec: Record)
    requires Complete(rec)
    requires AddedOnlyWhenAbsent(before.pathogens, t.pathogens, PathogenName)
    requires AddedOnlyWhenAbsent(before.antibiotics, t.antibiotics, AntibioticName)
    ensures AddedOnlyWhenAbsent(before.pathogens, StoreRecord(t, env, fac, userId, rec).0.pathogens, PathogenName)
    ensures AddedOnlyWhenAbsent(before.antibiotics, StoreRecord(t, env, fac, userId, rec).0.antibiotics, AntibioticName)
  {
    FindOrCreateAddsOnlyWhenAbsent(before.pathogens, t.pathogens, PathogenName, PathogenId, Render(rec["pathogen"]),
                                   NewPathogen(t, rec));
    FindOrCreateAddsOnlyWhenAbsent(before.antibiotics, t.antibiotics, AntibioticName, AntibioticId, Render(rec["antibiotic"]),
                                   NewAntibiotic(t, rec));
    assert StoreRecord(t, env, fac, userId, rec).0.pathogens == StorePathogen(t, rec).0;
    assert StoreRecord(t, env, fac, userId, rec).0.antibiotics == StoreAntibiotic(t, rec).0;
  }

  /** Catalog rows are created only for names not yet present, so a batch adds at most one row per name,
      even when the name repeats within the batch. */
  lemma {:induction false} IngestCatalogs(t: Tables, env: Env, fac: Facility, userId: nat, data: seq<Record>)
    ensures AddedOnlyWhenAbsent(t.pathogens, IngestAll(t, env, fac, userId, data).0.pathogens, PathogenName)
    ensures AddedOnlyWhenAbsent(t.antibiotics, IngestAll(t, env, fac, userId, data).0.antibiotics, AntibioticName)
  {
    if data == [] {
      AddedOnlyWhenAbsentRefl(t.pathogens, PathogenName);
      AddedOnlyWhenAbsentRefl(t.antibiotics, AntibioticName);
    } else {
      var init := data[..|data| - 1];
      var rec := data[|data| - 1];
      assert data == init + [rec];
      IngestCatalogs(t, env, fac, userId, init);
      IngestAllSnoc(t, env, fac, userId, init, rec);
      if Complete(rec) {
        StoreRecordCatalogs(t, IngestAll(t, env, fac, userId, init).0, env, fac, userId, rec);
      }
    }
  }

  /** The k-th complete record of the batch becomes the k-th new report and the k-th new profile,
      with its result stored as given. */
  predicate RowsFollowRecords(t: Tables, t2: Tables, env: Env, fac: Facility, userId: nat, cs: seq<Record>)
  {
    |t2.reports| == |t.reports| + |cs| && t2.reports[..|t.reports|] == t.reports &&
    |t2.profiles| == |t.profiles| + |cs| && t2.profiles[..|t.profiles|] == t.profiles &&
    forall i :: 0 <= i < |cs| ==>
      t2.reports[|t.reports| + i] == ReportFor(env, fac, userId, cs[i], |t.reports| + i + 1) &&
      t2.profiles[|t.profiles| + i].labReportId == |t.reports| + i + 1 &&
      t2.profiles[|t.profiles| + i].result == Get(cs[i], "result", "")
  }

  /** What storing one record does to each table. */
  lemma StoreRecordEffect(t: Tables, env: Env, fac: Facility, userId: nat, rec: Record)
    requires Complete(rec)
    ensures var s := StoreRecord(t, env, fac, userId, rec);
            s.0.reports == t.reports + [ReportFor(env, fac, userId, rec, |t.reports| + 1)] &&
            s.0.profiles == t.profiles + [Profile(|t.profiles| + 1, |t.reports| + 1, s.1, s.2, Get(rec, "result", ""))] &&
            s.0.users == t.users && s.0.facilities == t.facilities && s.0.alerts == t.alerts && s.0.samples == t.samples
  {
  }

  lemma RowsStep(t: Tables, t1: Tables, t2: Tables, env: Env, fac: Facility, userId: nat, cs: seq<Record>, rec: Record, pid: nat, aid: nat)
    requires RowsFollowRecords(t, t1, env, fac, userId, cs)
    requires t2.reports == t1.reports + [ReportFor(env, fac, userId, rec, |t1.reports| + 1)]
    requires t2.profiles == t1.profiles + [Profile(|t1.profiles| + 1, |t1.reports| + 1, pid, aid, Get(rec, "result", ""))]
    ensures RowsFollowRecords(t, t2, env, fac, userId, cs + [rec])
  {
    assert t2.reports[..|t.reports|] == t1.reports[..|t.reports|];
    assert t2.profiles[..|t.profiles|] == t1.profiles[..|t.profiles|];
    var cs2 := cs + [rec];
    forall i | 0 <= i < |cs2|
      ensures t2.reports[|t.reports| + i] == ReportFor(env, fac, userId, cs2[i], |t.reports| + i + 1)
      ensures t2.profiles[|t.profiles| + i].labReportId == |t.reports| + i + 1
      ensures t2.profiles[|t.profiles| + i].result == Get(cs2[i], "result", "")
    {
      if i < |cs| {
        assert cs2[i] == cs[i];
        assert t2.reports[|t.reports| + i] == t1.reports[|t.reports| + i];
        assert t2.profiles[|t.profiles| + i] == t1.profiles[|t.profiles| + i];
      }
    }
  }

  /** A complete record adds one report and one profile whatever its alerts; an incomplete one changes nothing. */
  lemma IngestRecordRows(t: Tables, env: Env, fac: Facility, userId: nat, rec: Record)
    ensures !Complete(rec) ==> IngestRecord(t, env, fac, userId, rec).0 == t
    ensures Complete(rec) ==> IngestRecord(t, env, fac, userId, rec).0.reports == StoreRecord(t, env, fac, userId, rec).0.reports
    ensures Complete(rec) ==> IngestRecord(t, env, fac, userId, rec).0.profiles == StoreRecord(t, env, fac, userId, rec).0.profiles
  {
  }

  lemma IngestRowsStep(t: Tables, env: Env, fac: Facility, userId: nat, init: seq<Record>, rec: Record)
    requires RowsFollowRecords(t, IngestAll(t, env, fac, userId, init).0, env, fac, userId, Filter(init, Complete))
    ensures RowsFollowRecords(t, IngestAll(t, env, fac, userId, init + [rec]).0, env, fac, userId,
                              Filter(init + [rec], Complete))
  {
    var t1 := IngestAll(t, env, fac, userId, init).0;
    var t2 := IngestAll(t, env, fac, userId, init + [rec]).0;
    IngestAllSnoc(t, env, fac, userId, init, rec);
    assert t2 == IngestRecord(t1, env, fac, userId, rec).0;
    FilterSnoc(init, rec, Complete);
    IngestRecordRows(t1, env, fac, userId, rec);
    if Complete(rec) {
      var r := StoreRecord(t1, env, fac, userId, rec);
      StoreRecordEffect(t1, env, fac, userId, rec);
      RowsStep(t, t1, t2, env, fac, userId, Filter(init, Complete), rec, r.1, r.2);
    }
  }

  lemma {:induction false} IngestRows(t: Tables, env: Env, fac: Facility, userId: nat, data: seq<Record>)
    ensures RowsFollowRecords(t, IngestAll(t, env, fac, userId, data).0, env, fac, userId, Filter(data, Complete))
  {
    if data != [] {
      var init := data[..|data| - 1];
      var rec := data[|data| - 1];
      assert data == init + [rec];
      IngestRows(t, env, fac, userId, init);
      IngestRowsStep(t, env, fac, userId, init, rec);
    }
  }

  /** Alerts after `t` grow by `per` copies per critical record, all of severity 4. */
  predicate AlertsGrew(t: Tables, t2: Tables, criticals: nat, per: nat)
  {
    |t2.alerts| == |t.alerts| + criticals * per &&
    t2.alerts[..|t.alerts|] == t.alerts &&
    forall i :: |t.alerts| <= i < |t2.alerts| ==>
      t2.alerts[i].severity == 4 && t2.alerts[i].alertType == "critical_resistance" && !t2.alerts[i].read
  }

  lemma AlertsGrowBy(t: Tables, t1: Tables, t2: Tables, criticals: nat, per: nat, added: seq<Alert>)
    requires AlertsGrew(t, t1, criticals, per)
    requires t2.alerts == t1.alerts + added && |added| == per
    requires forall a :: a in added ==> a.severity == 4 && a.alertType == "critical_resistance" && !a.read
    ensures AlertsGrew(t, t2, criticals + 1, per)
  {
    assert t2.alerts[..|t.alerts|] == t1.alerts[..|t.alerts|];
    assert (criticals + 1) * per == criticals * per + per;
    forall i | |t.alerts| <= i < |t2.alerts|
      ensures t2.alerts[i].severity == 4 && t2.alerts[i].alertType == "critical_resistance" && !t2.alerts[i].read
    {
      if i >= |t1.alerts| {
        assert t2.alerts[i] == added[i - |t1.alerts|];
        assert added[i - |t1.alerts|] in added;
      } else {
        assert t2.alerts[i] == t1.alerts[i];
      }
    }
  }

  lemma AlertsStep(t: Tables, t1: Tables, env: Env, fac: Facility, userId: nat, criticals: nat, rec: Record)
    requires t1.users == t.users
    requires AlertsGrew(t, t1, criticals, Count(t.users, IsClinician))
    ensures AlertsGrew(t, IngestRecord(t1, env, fac, userId, rec).0,
                       criticals + (if CriticalRecord(rec) then 1 else 0), Count(t.users, IsClinician))
  {
    var t2 := IngestRecord(t1, env, fac, userId, rec).0;
    if Complete(rec) {
      var r := StoreRecord(t1, env, fac, userId, rec);
      StoreRecordEffect(t1, env, fac, userId, rec);
      if IsCritical(rec) {
        var template := ResistanceAlert(fac, Render(rec["pathogen"]), Render(rec["antibiotic"]), r.1, r.2, env.now);
        var added := FanOut(t1.users, IsClinician, template, |t1.alerts|);
        assert t2.alerts == t1.alerts + added;
        FanOutCopies(t1.users, IsClinician, template, |t1.alerts|);
        forall a | a in added
          ensures a.severity == 4 && a.alertType == "critical_resistance" && !a.read
        {
          assert a == template.(id := a.id, userId := a.userId);
        }
        AlertsGrowBy(t, t1, t2, criticals, Count(t.users, IsClinician), added);
      }
    }
  }

  /** Each critical record raises one alert per doctor or public health official, all of severity 4. */
  lemma {:induction false} IngestAlerts(t: Tables, env: Env, fac: Facility, userId: nat, data: seq<Record>)
    ensures AlertsGrew(t, IngestAll(t, env, fac, userId, data).0, Count(data, CriticalRecord), Count(t.users, IsClinician))
  {
    if data != [] {
      var init := data[..|data| - 1];
      var rec := data[|data| - 1];
      assert data == init + [rec];
      IngestAlerts(t, env, fac, userId, init);
      IngestKeeps(t, env, fac, userId, init);
      IngestAllSnoc(t, env, fac, userId, init, rec);
      FilterSnoc(init, rec, CriticalRecord);
      AlertsStep(t, IngestAll(t, env, fac, userId, init).0, env, fac, userId, Count(init, CriticalRecord), rec);
    }
  }

  /** Adding catalog rows, one report and one profile with valid keys and references keeps a store well formed. */
  lemma WellFormedAfterStore(t: Tables, ps: seq<Pathogen>, abs: seq<Antibiotic>, rep: LabReport, prof: Profile)
    requires WellFormed(t)
    requires KeyedRows(ps, PathogenId) && |t.pathogens| <= |ps|
    requires KeyedRows(abs, AntibioticId) && |t.antibiotics| <= |abs|
    requires rep.id == |t.reports| + 1 && ReportRefers(rep, |t.facilities|, |t.users|)
    requires prof.id == |t.profiles| + 1 && ProfileRefers(prof, |t.reports| + 1, |ps|, |abs|)
    ensures WellFormed(t.(pathogens := ps, antibiotics := abs, reports := t.reports + [rep], profiles := t.profiles + [prof]))
  {
    var t2 := t.(pathogens := ps, antibiotics := abs, reports := t.reports + [rep], profiles := t.profiles + [prof]);
    KeyedAppend(t.reports, ReportKey, rep);
    KeyedAppend(t.profiles, ProfileId, prof);
    assert Keyed(t2);
    ReportsReferGrow(t.reports, |t.facilities|, |t.users|, |t.facilities|, |t.users|, [rep]);
    ProfilesReferGrow(t.profiles, |t.reports|, |t.pathogens|, |t.antibiotics|, |t.reports| + 1, |ps|, |abs|, [prof]);
    AlertsReferGrow(t.alerts, |t.users|, |t.pathogens|, |t.antibiotics|, |t.users|, |ps|, |abs|, []);
    SamplesReferGrow(t.samples, |t.users|, |t.pathogens|, |t.users|, |ps|, []);
    assert t.alerts + [] == t.alerts && t.samples + [] == t.samples;
  }

  /** Looking up a record's names keeps each catalog keyed and only appends to it; the ids found name rows
      carrying the record's names. */
  lemma StoreCatalogsKeyed(t: Tables, rec: Record)
    requires Complete(rec) && KeyedRows(t.pathogens, PathogenId) && KeyedRows(t.antibiotics, AntibioticId)
    ensures KeyedRows(StorePathogen(t, rec).0, PathogenId) && |t.pathogens| <= |StorePathogen(t, rec).0|
    ensures RefersTo(StorePathogen(t, rec).1, |StorePathogen(t, rec).0|)
    ensures StorePathogen(t, rec).0[StorePathogen(t, rec).1 - 1].name == Render(rec["pathogen"])
    ensures KeyedRows(StoreAntibiotic(t, rec).0, AntibioticId) && |t.antibiotics| <= |StoreAntibiotic(t, rec).0|
    ensures RefersTo(StoreAntibiotic(t, rec).1, |StoreAntibiotic(t, rec).0|)
    ensures StoreAntibiotic(t, rec).0[StoreAntibiotic(t, rec).1 - 1].name == Render(rec["antibiotic"])
  {
    StorePathogenKeyed(t, rec);
    StoreAntibioticKeyed(t, rec);
  }

  lemma StorePathogenKeyed(t: Tables, rec: Record)
    requires Complete(rec) && KeyedRows(t.pathogens, PathogenId)
    ensures KeyedRows(StorePathogen(t, rec).0, PathogenId) && |t.pathogens| <= |StorePathogen(t, rec).0|
    ensures RefersTo(StorePathogen(t, rec).1, |StorePathogen(t, rec).0|)
    ensures StorePathogen(t, rec).0[StorePathogen(t, rec).1 - 1].name == Render(rec["pathogen"])
  {
    FindOrCreateKeyed(t.pathogens, PathogenName, PathogenId, Render(rec["pathogen"]), NewPathogen(t, rec));
    FindOrCreateGrows(t.pathogens, PathogenName, PathogenId, Render(rec["pathogen"]), NewPathogen(t, rec));
  }

  lemma StoreAntibioticKeyed(t: Tables, rec: Record)
    requires Complete(rec) && KeyedRows(t.antibiotics, AntibioticId)
    ensures KeyedRows(StoreAntibiotic(t, rec).0, AntibioticId) && |t.antibiotics| <= |StoreAntibiotic(t, rec).0|
    ensures RefersTo(StoreAntibiotic(t, rec).1, |StoreAntibiotic(t, rec).0|)
    ensures StoreAntibiotic(t, rec).0[StoreAntibiotic(t, rec).1 - 1].name == Render(rec["antibiotic"])
  {
    FindOrCreateKeyed(t.antibiotics, AntibioticName, AntibioticId, Render(rec["antibiotic"]), NewAntibiotic(t, rec));
    FindOrCreateGrows(t.antibiotics, AntibioticName, AntibioticId, Render(rec["antibiotic"]), NewAntibiotic(t, rec));
  }

  /** Storing a record keeps keys and references intact. */
  lemma StoreRecordWellFormed(t: Tables, env: Env, fac: Facility, userId: nat, rec: Record)
    requires Complete(rec) && WellFormed(t)
    requires RefersTo(fac.id, |t.facilities|) && RefersTo(userId, |t.users|)
    ensures WellFormed(StoreRecord(t, env, fac, userId, rec).0)
  {
    var ps, abs := StorePathogen(t, rec), StoreAntibiotic(t, rec);
    StoreCatalogsKeyed(t, rec);
    var rep := ReportFor(env, fac, userId, rec, |t.reports| + 1);
    var prof := Profile(|t.profiles| + 1, rep.id, ps.1, abs.1, Render(rec["result"]));
    assert ReportRefers(rep, |t.facilities|, |t.users|);
    assert ProfileRefers(prof, |t.reports| + 1, |ps.0|, |abs.0|);
    WellFormedAfterStore(t, ps.0, abs.0, rep, prof);
  }

  /** The catalogs and ids a stored record ends up with are those of its two lookups. */
  lemma StoreRecordParts(t: Tables, env: Env, fac: Facility, userId: nat, rec: Record)
    requires Complete(rec)
    ensures StoreRecord(t, env, fac, userId, rec).0.pathogens == StorePathogen(t, rec).0
    ensures StoreRecord(t, env, fac, userId, rec).1 == StorePathogen(t, rec).1
    ensures StoreRecord(t, env, fac, userId, rec).0.antibiotics == StoreAntibiotic(t, rec).0
    ensures StoreRecord(t, env, fac, userId, rec).2 == StoreAntibiotic(t, rec).1
  {
  }

  /** One record of a batch keeps the store well formed. */
  lemma IngestRecordWellFormed(t: Tables, env: Env, fac: Facility, userId: nat, rec: Record)
    requires WellFormed(t) && RefersTo(fac.id, |t.facilities|) && RefersTo(userId, |t.users|)
    ensures WellFormed(IngestRecord(t, env, fac, userId, rec).0)
  {
    if Complete(rec) {
      var s := StoreRecord(t, env, fac, userId, rec);
      StoreRecordWellFormed(t, env, fac, userId, rec);
      StoreRecordParts(t, env, fac, userId, rec);
      StoreCatalogsKeyed(t, rec);
      if IsCritical(rec) {
        var template := ResistanceAlert(fac, Render(rec["pathogen"]), Render(rec["antibiotic"]), s.1, s.2, env.now);
        FanOutWellFormed(s.0, IsClinician, template);
      }
    }
  }

  /** Ingesting a batch for an existing facility and user keeps keys and references intact. */
  lemma {:induction false} IngestWellFormed(t: Tables, env: Env, fac: Facility, userId: nat, data: seq<Record>)
    requires WellFormed(t) && RefersTo(fac.id, |t.facilities|) && RefersTo(userId, |t.users|)
    ensures WellFormed(IngestAll(t, env, fac, userId, data).0)
  {
    if data != [] {
      var init := data[..|data| - 1];
      var rec := data[|data| - 1];
      assert data == init + [rec];
      IngestWellFormed(t, env, fac, userId, init);
      IngestKeeps(t, env, fac, userId, init);
      IngestAllSnoc(t, env, fac, userId, init, rec);
      IngestRecordWellFormed(IngestAll(t, env, fac, userId, init).0, env, fac, userId, rec);
    }
  }

  // ---------------------------------------------------------------- ingestion, on the session

  method FindOrCreatePathogen(db: Database, name: string, scientificName: string, pathogenType: string) returns (id: nat)
    modifies db
    ensures (db.pathogens, id) ==
            FindOrCreate(old(db.pathogens), PathogenName, PathogenId, name,
                         Pathogen(|old(db.pathogens)| + 1, name, scientificName, pathogenType))
    ensures db.Snapshot() == old(db.Snapshot()).(pathogens := db.pathogens)
  {
    var r := FindOrCreate(db.pathogens, PathogenName, PathogenId, name,
                          Pathogen(|db.pathogens| + 1, name, scientificName, pathogenType));
    db.pathogens := r.0;
    id := r.1;
  }

  method FindOrCreateAntibiotic(db: Database, name: string, drugClass: string) returns (id: nat)
    modifies db
    ensures (db.antibiotics, id) ==
            FindOrCreate(old(db.antibiotics), AntibioticName, AntibioticId, name,
                         Antibiotic(|old(db.antibiotics)| + 1, name, drugClass))
    ensures db.Snapshot() == old(db.Snapshot()).(antibiotics := db.antibiotics)
  {
    var r := FindOrCreate(db.antibiotics, AntibioticName, AntibioticId, name,
                          Antibiotic(|db.antibiotics| + 1, name, drugClass));
    db.antibiotics := r.0;
    id := r.1;
  }

  /** `create_resistance_alert`: one copy per doctor or public health official. */
  method CreateResistanceAlert(db: Database, fac: Facility, pathogen: string, antibiotic: string, pid: nat, aid: nat, now: DateTime)
    modifies db
    ensures db.Snapshot() == old(db.Snapshot()).(alerts := old(db.alerts) +
              FanOut(db.users, IsClinician, ResistanceAlert(fac, pathogen, antibiotic, pid, aid, now), |old(db.alerts)|))
  {
    db.AddFanOut(IsClinician, ResistanceAlert(fac, pathogen, antibiotic, pid, aid, now));
  }

  /** `process_lab_data`: rejects an unknown facility or user before touching the store; otherwise
      ingests every record in order and returns the number counted. */
  method ProcessLabData(db: Database, data: seq<Record>, facilityId: nat, userId: nat, env: Env) returns (r: Result<nat, string>)
    modifies db
    ensures FacilityById(old(db.Snapshot()), facilityId).None? ==>
              r == Err("Invalid facility ID") && db.Snapshot() == old(db.Snapshot())
    ensures FacilityById(old(db.Snapshot()), facilityId).Some? && UserById(old(db.Snapshot()), userId).None? ==>
              r == Err("Invalid user ID") && db.Snapshot() == old(db.Snapshot())
    ensures FacilityById(old(db.Snapshot()), facilityId).Some? && UserById(old(db.Snapshot()), userId).Some? ==>
              r.Ok? && (db.Snapshot(), r.value) ==
              IngestAll(old(db.Snapshot()), env, FacilityById(old(db.Snapshot()), facilityId).value, userId, data)
  {
    var saved := db.Snapshot();
    var facility := FacilityById(saved, facilityId);
    if facility.None? {
      db.Restore(saved);
      return Err("Invalid facility ID");
    }
    var user := UserById(saved, userId);
    if user.None? {
      db.Restore(saved);
      return Err("Invalid user ID");
    }
    var count := IngestBatch(db, env, facility.value, userId, data);
    return Ok(count);
  }

  /** The loop over the records of a batch. */
  method IngestBatch(db: Database, env: Env, fac: Facility, userId: nat, data: seq<Record>) returns (count: nat)
    modifies db
    ensures db.Snapshot() == IngestAll(old(db.Snapshot()), env, fac, userId, data).0
    ensures count == IngestAll(old(db.Snapshot()), env, fac, userId, data).1
  {
    ghost var saved := db.Snapshot();
    count := 0;
    var i := 0;
    while i < |data|
      invariant 0 <= i <= |data|
      invariant db.Snapshot() == IngestAll(saved, env, fac, userId, data[..i]).0
      invariant count == IngestAll(saved, env, fac, userId, data[..i]).1
    {
      count := IngestNext(db, env, fac, userId, saved, data, i, count);
      i := i + 1;
    }
    assert data[..|data|] == data;
  }

  /** One turn of the record loop: ingests record `i` and advances the count. */
  method IngestNext(db: Database, env: Env, fac: Facility, userId: nat, ghost saved: Tables, data: seq<Record>, i: nat, count: nat)
    returns (count': nat)
    requires i < |data|
    requires db.Snapshot() == IngestAll(saved, env, fac, userId, data[..i]).0
    requires count == IngestAll(saved, env, fac, userId, data[..i]).1
    modifies db
    ensures db.Snapshot() == IngestAll(saved, env, fac, userId, data[..i + 1]).0
    ensures count' == IngestAll(saved, env, fac, userId, data[..i + 1]).1
  {
    IngestAllPrefix(saved, env, fac, userId, data, i);
    var counted := IngestOne(db, env, fac, userId, data[i]);
    count' := if counted then count + 1 else count;
  }

  /** The body of the record loop: skip an incomplete record, otherwise store it and raise its alerts. */
  method IngestOne(db: Database, env: Env, fac: Facility, userId: nat, rec: Record) returns (counted: bool)
    modifies db
    ensures db.Snapshot() == IngestRecord(old(db.Snapshot()), env, fac, userId, rec).0
    ensures counted == IngestRecord(old(db.Snapshot()), env, fac, userId, rec).1
  {
    if !Complete(rec) {
      return false;
    }
    var pid, aid := StoreOne(db, env, fac, userId, rec);
    if IsCritical(rec) {
      CreateResistanceAlert(db, fac, Render(rec["pathogen"]), Render(rec["antibiotic"]), pid, aid, env.now);
    }
    return true;
  }

  method StoreOne(db: Database, env: Env, fac: Facility, userId: nat, rec: Record) returns (pid: nat, aid: nat)
    requires Complete(rec)
    modifies db
    ensures db.Snapshot() == StoreRecord(old(db.Snapshot()), env, fac, userId, rec).0
    ensures pid == StoreRecord(old(db.Snapshot()), env, fac, userId, rec).1
    ensures aid == StoreRecord(old(db.Snapshot()), env, fac, userId, rec).2
  {
    ghost var t := db.Snapshot();
    pid := FindOrCreatePathogen(db, Render(rec["pathogen"]), Get(rec, "scientific_name", ""), Get(rec, "pathogen_type", ""));
    aid := FindOrCreateAntibiotic(db, Render(rec["antibiotic"]), Get(rec, "drug_class", ""));
    ghost var t1 := t.(pathogens := StorePathogen(t, rec).0, antibiotics := StoreAntibiotic(t, rec).0);
    assert db.Snapshot() == t1;
    var rep := ReportFor(env, fac, userId, rec, |db.reports| + 1);
    var prof := Profile(|db.profiles| + 1, rep.id, pid, aid, Render(rec["result"]));
    db.reports := db.reports + [rep];
    db.profiles := db.profiles + [prof];
    assert db.Snapshot() == t1.(reports := t.reports + [rep], profiles := t.profiles + [prof]);
  }

  // ---------------------------------------------------------------- environmental samples

  /** The fields of a submitted environmental sample; `None` where the key is absent. */
  datatype EnvInput = EnvInput(
    sampleId: Option<string>, sampleType: Option<string>, collectionDate: Option<string>,
    latitude: Option<real>, longitude: Option<real>, locationDescription: Option<string>,
    detected: bool, pathogenName: Option<string>, scientificName: Option<string>,
    pathogenType: Option<string>, pathogenLoad: Option<real>)

  /** The collection date, today at midnight when absent. */
  function CollectionDate(env: Env, input: EnvInput): Result<DateTime, string>
  {
    match input.collectionDate
    case None => Ok(StartOfDay(env.now))
    case Some(s) => FormatDate(env.parse, s)
  }

  /** A detected sample with a non-empty pathogen name finds or creates that pathogen (type 'bacteria' by default). */
  function EnvPathogen(t: Tables, input: EnvInput): (seq<Pathogen>, Option<nat>)
  {
    if input.detected && input.pathogenName.Some? && input.pathogenName.value != "" then
      var name := input.pathogenName.value;
      var (ps, pid) := FindOrCreate(t.pathogens, PathogenName, PathogenId, name,
                                    Pathogen(|t.pathogens| + 1, name, GetOr(input.scientificName, ""), GetOr(input.pathogenType, "bacteria")));
      (ps, Some(pid))
    else (t.pathogens, None)
  }

  function SampleFor(t: Tables, input: EnvInput, userId: nat, date: DateTime, pid: Option<nat>, newSampleId: string): EnvSample
  {
    EnvSample(|t.samples| + 1, GetOr(input.sampleId, newSampleId), GetOr(input.sampleType, "unknown"), date,
              GetOr(input.latitude, 0.0), GetOr(input.longitude, 0.0), GetOr(input.locationDescription, ""),
              input.detected, pid, if pid.Some? then input.pathogenLoad else None, userId)
  }

  /** Severity 5 above a load of 1000, 4 above 500, otherwise (and with no or a zero load) 3. */
  function EnvSeverity(load: Option<real>): (s: int)
    ensures s == 5 <==> load.Some? && load.value > 1000.0
    ensures s == 4 <==> load.Some? && 500.0 < load.value <= 1000.0
    ensures s == 3 <==> load.None? || load.value <= 500.0
  {
    if TruthyReal(load) then
      if load.value > 1000.0 then 5 else if load.value > 500.0 then 4 else 3
    else 3
  }

  predicate IsOfficial(u: User)
  {
    u.role == PublicHealthOfficial
  }

  function LoadNote(env: Env, load: Option<real>): string
  {
    if TruthyReal(load) then "Pathogen load: " + env.showReal(load.value) + ". " else ""
  }

  /** The environmental-detection alert before it is addressed to a recipient. */
  function EnvironmentalAlert(env: Env, p: Pathogen, sample: EnvSample): (a: Alert)
    ensures a.severity == EnvSeverity(sample.pathogenLoad) && a.alertType == "environmental_detection"
    ensures a.region == Some(sample.locationDescription) && a.pathogenId == Some(p.id) && a.antibioticId.None?
    ensures a.latitude == Some(sample.latitude) && a.longitude == Some(sample.longitude)
  {
    Alert(0, 0,
          p.name + " detected in environmental sample",
          p.name + " has been detected in a " + sample.sampleType + " sample collected at " + sample.locationDescription + ". " +
          "Collection date: " + IsoDate(sample.collectionDate) + ". " +
          LoadNote(env, sample.pathogenLoad) +
          "Please monitor the situation and consider preventive measures.",
          "environmental_detection", EnvSeverity(sample.pathogenLoad), env.now, false, false,
          Some(sample.latitude), Some(sample.longitude), Some(sample.locationDescription), Some(p.id), None)
  }

  /** `create_environmental_alert`: nothing when the sample's pathogen is not found, otherwise one copy per official. */
  function EnvAlerts(t: Tables, env: Env, sample: EnvSample): Tables
  {
    if sample.pathogenId.None? then t
    else match PathogenById(t, sample.pathogenId.value)
      case None => t
      case Some(p) => t.(alerts := t.alerts + FanOut(t.users, IsOfficial, EnvironmentalAlert(env, p, sample), |t.alerts|))
  }

  /** `process_environmental_sample`: the store afterwards and the new sample's id, or the error it raises. */
  function ProcessEnvironmental(t: Tables, env: Env, input: EnvInput, userId: nat, newSampleId: string): (Tables, Result<nat, string>)
  {
    if UserById(t, userId).None? then (t, Err("Invalid user ID"))
    else match CollectionDate(env, input)
      case Err(e) => (t, Err(e))
      case Ok(date) =>
        var pid := EnvPathogen(t, input).1;
        var sample := SampleFor(t, input, userId, date, pid, newSampleId);
        var t1 := WithSample(t, input, userId, date, newSampleId);
        (if input.detected && pid.Some? then EnvAlerts(t1, env, sample) else t1, Ok(sample.id))
  }

  /** The store once the sample's pathogen is found or created and the sample appended. */
  function WithSample(t: Tables, input: EnvInput, userId: nat, date: DateTime, newSampleId: string): Tables
  {
    var ep := EnvPathogen(t, input);
    t.(pathogens := ep.0, samples := t.samples + [SampleFor(t, input, userId, date, ep.1, newSampleId)])
  }

  // ---------------------------------------------------------------- what environmental processing guarantees

  predicate NameGiven(input: EnvInput)
  {
    input.detected && input.pathogenName.Some? && input.pathogenName.value != ""
  }

  /** A detected sample with a name refers to a catalog row of that name; the catalog only grows by absent names. */
  lemma EnvPathogenKeyed(t: Tables, input: EnvInput)
    requires KeyedRows(t.pathogens, PathogenId)
    ensures var (ps, pid) := EnvPathogen(t, input);
            KeyedRows(ps, PathogenId) && |t.pathogens| <= |ps| && AddedOnlyWhenAbsent(t.pathogens, ps, PathogenName) &&
            (pid.Some? <==> NameGiven(input)) &&
            (pid.Some? ==> RefersTo(pid.value, |ps|) && ps[pid.value - 1].name == input.pathogenName.value)
  {
    AddedOnlyWhenAbsentRefl(t.pathogens, PathogenName);
    if NameGiven(input) {
      var name := input.pathogenName.value;
      var newP := Pathogen(|t.pathogens| + 1, name, GetOr(input.scientificName, ""), GetOr(input.pathogenType, "bacteria"));
      FindOrCreateKeyed(t.pathogens, PathogenName, PathogenId, name, newP);
      FindOrCreateAddsOnlyWhenAbsent(t.pathogens, t.pathogens, PathogenName, PathogenId, name, newP);
    }
  }

  /** The call fails exactly for an unknown user or an unreadable collection date, and then changes nothing. */
  lemma ProcessEnvironmentalErrors(t: Tables, env: Env, input: EnvInput, userId: nat, newSampleId: string)
    ensures var (t2, r) := ProcessEnvironmental(t, env, input, userId, newSampleId);
            (r.Err? <==> UserById(t, userId).None? || CollectionDate(env, input).Err?) &&
            (r.Err? ==> t2 == t) &&
            (UserById(t, userId).None? ==> r == Err("Invalid user ID")) &&
            (UserById(t, userId).Some? && input.collectionDate.Some? && CollectionDate(env, input).Err? ==>
               r == Err("Date format not recognized: " + input.collectionDate.value))
  {
  }

  /** A sample whose pathogen is found fans the environmental alert for that pathogen out to the officials. */
  lemma EnvAlertsAre(t: Tables, env: Env, sample: EnvSample)
    requires Keyed(t) && sample.pathogenId.Some? && RefersTo(sample.pathogenId.value, |t.pathogens|)
    ensures t.pathogens[sample.pathogenId.value - 1].id == sample.pathogenId.value
    ensures EnvAlerts(t, env, sample) ==
            t.(alerts := t.alerts + FanOut(t.users, IsOfficial,
                                           EnvironmentalAlert(env, t.pathogens[sample.pathogenId.value - 1], sample), |t.alerts|))
  {
    var p := t.pathogens[sample.pathogenId.value - 1];
    assert PathogenById(t, sample.pathogenId.value) == Some(p);
  }

  /** A sample whose pathogen is found appends one alert per public health official and changes nothing else. */
  lemma EnvAlertsFrame(t: Tables, env: Env, sample: EnvSample)
    requires Keyed(t) && sample.pathogenId.Some? && RefersTo(sample.pathogenId.value, |t.pathogens|)
    ensures EnvAlerts(t, env, sample) == t.(alerts := EnvAlerts(t, env, sample).alerts)
    ensures |EnvAlerts(t, env, sample).alerts| == |t.alerts| + Count(t.users, IsOfficial)
    ensures EnvAlerts(t, env, sample).alerts[..|t.alerts|] == t.alerts
  {
    EnvAlertsAre(t, env, sample);
    FanOutAppended(t.alerts, t.users, IsOfficial, EnvironmentalAlert(env, t.pathogens[sample.pathogenId.value - 1], sample));
  }

  /** The appended alert at position `i` is an environmental detection of the sample's pathogen, graded by the
      sample's load, for the next official in table order. */
  lemma EnvAlertsContent(t: Tables, env: Env, sample: EnvSample, i: nat)
    requires Keyed(t) && sample.pathogenId.Some? && RefersTo(sample.pathogenId.value, |t.pathogens|)
    requires |t.alerts| <= i < |t.alerts| + |Filter(t.users, IsOfficial)|
    ensures i < |EnvAlerts(t, env, sample).alerts|
    ensures EnvAlerts(t, env, sample).alerts[i].alertType == "environmental_detection"
    ensures EnvAlerts(t, env, sample).alerts[i].severity == EnvSeverity(sample.pathogenLoad)
    ensures EnvAlerts(t, env, sample).alerts[i].userId == Filter(t.users, IsOfficial)[i - |t.alerts|].id
    ensures EnvAlerts(t, env, sample).alerts[i].pathogenId == sample.pathogenId
  {
    var a := EnvironmentalAlert(env, t.pathogens[sample.pathogenId.value - 1], sample);
    EnvAlertsAre(t, env, sample);
    OfficialAlertAt(t, EnvAlerts(t, env, sample), a, i);
  }

  /** When `after` appends the fan-out of `a` to the officials, alert `i` is `a` addressed to the next official. */
  lemma OfficialAlertAt(before: Tables, after: Tables, a: Alert, i: nat)
    requires after.alerts == before.alerts + FanOut(before.users, IsOfficial, a, |before.alerts|)
    requires |before.alerts| <= i < |before.alerts| + |Filter(before.users, IsOfficial)|
    ensures i < |after.alerts|
    ensures after.alerts[i].alertType == a.alertType && after.alerts[i].severity == a.severity
    ensures after.alerts[i].pathogenId == a.pathogenId
    ensures after.alerts[i].userId == Filter(before.users, IsOfficial)[i - |before.alerts|].id
  {
    FanOutIndex(before.alerts, before.users, IsOfficial, a, i);
  }

  /** A successful call appends exactly one sample, with the next id, and touches only pathogens, samples and alerts. */
  lemma ProcessEnvironmentalStores(t: Tables, env: Env, input: EnvInput, userId: nat, newSampleId: string)
    requires WellFormed(t)
    ensures var (t2, r) := ProcessEnvironmental(t, env, input, userId, newSampleId);
            r.Ok? ==>
              r.value == |t.samples| + 1 && |t2.samples| == r.value && t2.samples[..|t.samples|] == t.samples &&
              t2.samples[|t.samples|].userId == userId && t2.samples[|t.samples|].detected == input.detected &&
              (t2.samples[|t.samples|].pathogenId.Some? <==> NameGiven(input)) &&
              t2.users == t.users && t2.facilities == t.facilities && t2.antibiotics == t.antibiotics &&
              t2.reports == t.reports && t2.profiles == t.profiles &&
              AddedOnlyWhenAbsent(t.pathogens, t2.pathogens, PathogenName) &&
              |t2.alerts| == |t.alerts| + (if NameGiven(input) then Count(t.users, IsOfficial) else 0)
  {
    if UserById(t, userId).Some? && CollectionDate(env, input).Ok? {
      var date := CollectionDate(env, input).value;
      var pid := EnvPathogen(t, input).1;
      EnvPathogenKeyed(t, input);
      var sample := SampleFor(t, input, userId, date, pid, newSampleId);
      var t1 := WithSample(t, input, userId, date, newSampleId);
      assert t1.samples[..|t.samples|] == t.samples;
      assert Keyed(t1) by { KeyedAppend(t.samples, SampleId, sample); }
      if input.detected && pid.Some? {
        EnvAlertsFrame(t1, env, sample);
      }
    }
  }

  /** Appending a sample by an existing user keeps keys and references intact. */
  lemma WithSampleWellFormed(t: Tables, input: EnvInput, userId: nat, date: DateTime, newSampleId: string)
    requires WellFormed(t) && UserById(t, userId).Some?
    ensures WellFormed(WithSample(t, input, userId, date, newSampleId))
  {
    var ps := EnvPathogen(t, input).0;
    var pid := EnvPathogen(t, input).1;
    EnvPathogenKeyed(t, input);
    var sample := SampleFor(t, input, userId, date, pid, newSampleId);
    KeyedMember(t.users, UserId, UserById(t, userId).value);
    assert SampleRefers(sample, |t.users|, |ps|);
    KeyedAppend(t.samples, SampleId, sample);
    SamplesReferGrow(t.samples, |t.users|, |t.pathogens|, |t.users|, |ps|, [sample]);
    ProfilesReferGrow(t.profiles, |t.reports|, |t.pathogens|, |t.antibiotics|, |t.reports|, |ps|, |t.antibiotics|, []);
    AlertsReferGrow(t.alerts, |t.users|, |t.pathogens|, |t.antibiotics|, |t.users|, |ps|, |t.antibiotics|, []);
    assert t.alerts + [] == t.alerts && t.profiles + [] == t.profiles;
  }

  /** The alerts of a sample whose pathogen is found keep keys and references intact. */
  lemma EnvAlertsWellFormed(t: Tables, env: Env, sample: EnvSample)
    requires WellFormed(t) && sample.pathogenId.Some? && RefersTo(sample.pathogenId.value, |t.pathogens|)
    ensures WellFormed(EnvAlerts(t, env, sample))
  {
    var p := t.pathogens[sample.pathogenId.value - 1];
    assert PathogenById(t, sample.pathogenId.value) == Some(p);
    var template := EnvironmentalAlert(env, p, sample);
    assert EnvAlerts(t, env, sample) == t.(alerts := t.alerts + FanOut(t.users, IsOfficial, template, |t.alerts|));
    FanOutWellFormed(t, IsOfficial, template);
  }

  /** The store a successful call leaves: the sample stored, and its alerts when a named pathogen was detected. */
  lemma ProcessEnvironmentalOk(t: Tables, env: Env, input: EnvInput, userId: nat, newSampleId: string, date: DateTime)
    requires UserById(t, userId).Some? && CollectionDate(env, input) == Ok(date)
    ensures var t1 := WithSample(t, input, userId, date, newSampleId);
            ProcessEnvironmental(t, env, input, userId, newSampleId).0 ==
              if input.detected && EnvPathogen(t, input).1.Some?
              then EnvAlerts(t1, env, t1.samples[|t.samples|]) else t1
  {
  }

  /** Processing a sample by an existing user keeps keys and references intact. */
  lemma ProcessEnvironmentalWellFormed(t: Tables, env: Env, input: EnvInput, userId: nat, newSampleId: string)
    requires WellFormed(t)
    ensures WellFormed(ProcessEnvironmental(t, env, input, userId, newSampleId).0)
  {
    if UserById(t, userId).Some? && CollectionDate(env, input).Ok? {
      var date := CollectionDate(env, input).value;
      var t1 := WithSample(t, input, userId, date, newSampleId);
      var sample := t1.samples[|t.samples|];
      WithSampleWellFormed(t, input, userId, date, newSampleId);
      ProcessEnvironmentalOk(t, env, input, userId, newSampleId, date);
      var pid := EnvPathogen(t, input).1;
      if input.detected && pid.Some? {
        EnvPathogenKeyed(t, input);
        assert sample.pathogenId == pid;
        EnvAlertsWellFormed(t1, env, sample);
      }
    }
  }

  // ---------------------------------------------------------------- environmental samples, on the session

  /** `process_environmental_sample`, with the generated "ENV-..." id passed in. */
  method ProcessEnvironmentalSample(db: Database, input: EnvInput, userId: nat, env: Env, newSampleId: string)
    returns (r: Result<nat, string>)
    modifies db
    ensures (db.Snapshot(), r) == ProcessEnvironmental(old(db.Snapshot()), env, input, userId, newSampleId)
  {
    var saved := db.Snapshot();
    if UserById(saved, userId).None? {
      db.Restore(saved);
      return Err("Invalid user ID");
    }
    var date := CollectionDate(env, input);
    if date.Err? {
      db.Restore(saved);
      return Err(date.error);
    }
    var pid: Option<nat> := None;
    if NameGiven(input) {
      var name := input.pathogenName.value;
      var id := FindOrCreatePathogen(db, name, GetOr(input.scientificName, ""), GetOr(input.pathogenType, "bacteria"));
      pid := Some(id);
    }
    assert (db.pathogens, pid) == EnvPathogen(saved, input);
    var sample := SampleFor(saved, input, userId, date.value, pid, newSampleId);
    db.samples := db.samples + [sample];
    if input.detected && pid.Some? {
      CreateEnvironmentalAlert(db, env, sample);
    }
    return Ok(sample.id);
  }

  /** `create_environmental_alert`. */
  method CreateEnvironmentalAlert(db: Database, env: Env, sample: EnvSample)
    modifies db
    ensures db.Snapshot() == EnvAlerts(old(db.Snapshot()), env, sample)
  {
    if sample.pathogenId.None? {
      return;
    }
    var p := PathogenById(db.Snapshot(), sample.pathogenId.value);
    if p.None? {
      return;
    }
    db.AddFanOut(IsOfficial, EnvironmentalAlert(env, p.value, sample));
  }

  // ---------------------------------------------------------------- risk levels of the map

  datatype Risk = Low | Medium | High | VeryHigh

  function RiskLabel(r: Risk): string
  {
    match r
    case Low => "Low"
    case Medium => "Medium"
    case High => "High"
    case VeryHigh => "Very High"
  }

  function RiskColor(r: Risk): string
  {
    match r
    case Low => "#28a745"
    case Medium => "#ffc107"
    case High => "#fd7e14"
    case VeryHigh => "#dc3545"
  }

  function RiskRank(r: Risk): nat
  {
    match r
    case Low => 0
    case Medium => 1
    case High => 2
    case VeryHigh => 3
  }

  /** Very High from 75 %, High from 50 %, Medium from 25 %, otherwise Low. */
  function ClassifyPercent(p: real): (r: Risk)
    ensures r == VeryHigh <==> p >= 75.0
    ensures r == High <==> 50.0 <= p < 75.0
    ensures r == Medium <==> 25.0 <= p < 50.0
    ensures r == Low <==> p < 25.0
  {
    if p >= 75.0 then VeryHigh else if p >= 50.0 then High else if p >= 25.0 then Medium else Low
  }

  /** A higher percentage never gets a lower risk level. */
  lemma ClassifyMonotone(p: real, q: real)
    requires p <= q
    ensures RiskRank(ClassifyPercent(p)) <= RiskRank(ClassifyPercent(q))
  {
  }

  /** The level of a facility, stated on its counts: no samples is Low, otherwise the thresholds compare 100 * resistant with the total. */
  lemma ClassifyCounts(resistant: nat, total: nat)
    ensures total == 0 ==> ClassifyPercent(Percent(resistant, total)) == Low
    ensures total > 0 ==> (ClassifyPercent(Percent(resistant, total)) == VeryHigh <==> 100 * resistant >= 75 * total)
    ensures total > 0 ==> (ClassifyPercent(Percent(resistant, total)) == Low <==> 100 * resistant < 25 * total)
    ensures total > 0 ==> (ClassifyPercent(Percent(resistant, total)) == High <==> 50 * total <= 100 * resistant < 75 * total)
  {
    if total > 0 {
      PercentAtLeast(resistant, total, 75);
      PercentAtLeast(resistant, total, 50);
      PercentAtLeast(resistant, total, 25);
    }
  }

  /** The level of an environmental sample: Very High above a load of 1000, High above 500, otherwise Medium. */
  function ClassifyLoad(load: Option<real>): (r: Risk)
    ensures r != Low
    ensures r == VeryHigh <==> load.Some? && load.value > 1000.0
    ensures r == High <==> load.Some? && 500.0 < load.value <= 1000.0
  {
    if TruthyReal(load) then
      if load.value > 1000.0 then VeryHigh else if load.value > 500.0 then High else Medium
    else Medium
  }

  /** The map's sample level and the alert's severity grade loads alike: severity 3, 4, 5 for Medium, High, Very High. */
  lemma EnvSeverityMatchesLoadRisk(load: Option<real>)
    ensures EnvSeverity(load) == RiskRank(ClassifyLoad(load)) + 2
  {
  }

  // ---------------------------------------------------------------- the map, as a function of the store

  function AtFacility(facilityId: nat): Obs -> bool
  {
    (o: Obs) => o.report.facilityId == facilityId
  }

  function ObsPathogenName(o: Obs): string { o.pathogen.name }

  /** The profiles reported by a facility, with their pathogens. */
  function FacilityObs(t: Tables, facilityId: nat): seq<Obs>
  {
    Filter(Join(t), AtFacility(facilityId))
  }

  /** One row of the per-pathogen `GROUP BY`, with its percentage rounded to tenths. */
  datatype Share = Share(name: string, total: nat, resistant: nat, tenths: nat)

  function Tenths(resistant: nat, total: nat): nat
  {
    if total > 0 then RoundHalfEven(1000 * resistant, total) else 0
  }

  /** The group of the rows whose `nameOf` is `name`: its size, its resistant rows and their share in tenths of a percent. */
  function ShareOf(obs: seq<Obs>, nameOf: Obs -> string, name: string): Share
  {
    var total := Count(obs, InGroup(nameOf, name, All()));
    var resistant := Count(obs, InGroup(nameOf, name, Resistant));
    Share(name, total, resistant, Tenths(resistant, total))
  }

  /** `GROUP BY nameOf` with `COUNT` and the `SUM` of resistant rows, one row per name of `names`. */
  function Groups(obs: seq<Obs>, nameOf: Obs -> string, names: seq<string>): (r: seq<Share>)
    ensures |r| == |names|
    ensures forall i :: 0 <= i < |r| ==> r[i] == ShareOf(obs, nameOf, names[i])
  {
    if names == [] then [] else Groups(obs, nameOf, names[..|names| - 1]) + [ShareOf(obs, nameOf, names[|names| - 1])]
  }

  function SumTotal(ss: seq<Share>): nat
  {
    if ss == [] then 0 else SumTotal(ss[..|ss| - 1]) + ss[|ss| - 1].total
  }

  function SumResistant(ss: seq<Share>): nat
  {
    if ss == [] then 0 else SumResistant(ss[..|ss| - 1]) + ss[|ss| - 1].resistant
  }

  predicate HasSamples(s: Share) { s.total > 0 }

  function ShareTenths(s: Share): real { s.tenths as real }

  /** Rows with samples, highest percentage first; rows of equal percentage keep their group order. */
  function Breakdown(groups: seq<Share>): seq<Share>
  {
    SortDesc(Filter(groups, HasSamples), ShareTenths)
  }

  function ShowOpt(o: Option<string>): string
  {
    if o.Some? then o.value else "None"
  }

  function Location(f: Facility): string
  {
    ShowOpt(f.city) + ", " + ShowOpt(f.state) + ", " + ShowOpt(f.country)
  }

  /** A point of the map: a facility with its resistance summary, or a detected environmental sample. */
  datatype MapPoint =
    | FacilityPoint(facilityId: nat, name: string, latitude: real, longitude: real, location: string,
                    percentTenths: nat, risk: Risk, totalSamples: nat, totalResistant: nat, pathogens: seq<Share>)
    | SamplePoint(key: string, name: string, latitude: real, longitude: real, location: string,
                  risk: Risk, sampleType: string, pathogen: Option<string>, pathogenLoad: Option<real>)

  predicate HasCoordinates(f: Facility)
  {
    TruthyReal(f.latitude) && TruthyReal(f.longitude)
  }

  function FacilityGroups(t: Tables, f: Facility): seq<Share>
  {
    var obs := FacilityObs(t, f.id);
    Groups(obs, ObsPathogenName, DistinctKeys(obs, ObsPathogenName))
  }

  function FacilityPointOf(t: Tables, f: Facility, groups: seq<Share>): MapPoint
    requires HasCoordinates(f)
  {
    var total := SumTotal(groups);
    var resistant := SumResistant(groups);
    FacilityPoint(f.id, f.name, f.latitude.value, f.longitude.value, Location(f),
                  Tenths(resistant, total), ClassifyPercent(Percent(resistant, total)), total, resistant, Breakdown(groups))
  }

  function FacilityPoints(t: Tables, fs: seq<Facility>): seq<MapPoint>
  {
    if fs == [] then []
    else
      var f := fs[|fs| - 1];
      FacilityPoints(t, fs[..|fs| - 1]) + if HasCoordinates(f) then [FacilityPointOf(t, f, FacilityGroups(t, f))] else []
  }

  /** Detected samples with non-zero coordinates are plotted. */
  predicate Plotted(s: EnvSample)
  {
    s.detected && s.latitude != 0.0 && s.longitude != 0.0
  }

  function SamplePointOf(t: Tables, s: EnvSample): MapPoint
  {
    var pathogen := if s.pathogenId.Some? && PathogenById(t, s.pathogenId.value).Some?
                    then Some(PathogenById(t, s.pathogenId.value).value.name) else None;
    SamplePoint("env-" + DecimalString(s.id), "Environmental Sample: " + s.sampleId, s.latitude, s.longitude,
                s.locationDescription, ClassifyLoad(s.pathogenLoad), s.sampleType, pathogen, s.pathogenLoad)
  }

  function SamplePoints(t: Tables, ss: seq<EnvSample>): seq<MapPoint>
  {
    if ss == [] then []
    else
      var s := ss[|ss| - 1];
      SamplePoints(t, ss[..|ss| - 1]) + if Plotted(s) then [SamplePointOf(t, s)] else []
  }

  /** `generate_resistance_map`: facility points in table order, then sample points in table order. */
  function ResistanceMap(t: Tables): seq<MapPoint>
  {
    FacilityPoints(t, t.facilities) + SamplePoints(t, t.samples)
  }

  // ---------------------------------------------------------------- what the map guarantees

  lemma {:induction false} GroupSums(obs: seq<Obs>, nameOf: Obs -> string, names: seq<string>)
    ensures SumTotal(Groups(obs, nameOf, names)) == SumCounts(obs, nameOf, names, All())
    ensures SumResistant(Groups(obs, nameOf, names)) == SumCounts(obs, nameOf, names, Resistant)
  {
    if names != [] {
      var init := names[..|names| - 1];
      GroupSums(obs, nameOf, init);
      assert Groups(obs, nameOf, names)[..|names| - 1] == Groups(obs, nameOf, init);
    }
  }

  /** Grouping by any name loses no row: the group sizes add up to all rows and the resistant counts to the resistant rows. */
  lemma GroupTotals(obs: seq<Obs>, nameOf: Obs -> string)
    ensures SumTotal(Groups(obs, nameOf, DistinctKeys(obs, nameOf))) == |obs|
    ensures SumResistant(Groups(obs, nameOf, DistinctKeys(obs, nameOf))) == Count(obs, Resistant)
  {
    var names := DistinctKeys(obs, nameOf);
    GroupSums(obs, nameOf, names);
    assert forall x :: x in obs ==> nameOf(x) in names;
    SumCountsPartition(obs, nameOf, names, All());
    SumCountsPartition(obs, nameOf, names, Resistant);
    CountAll(obs);
  }

  /** Every group of a name that occurs holds at least one row, no more resistant rows than rows, and at most 100.0%. */
  lemma GroupsPresent(obs: seq<Obs>, nameOf: Obs -> string)
    ensures forall s :: s in Groups(obs, nameOf, DistinctKeys(obs, nameOf)) ==>
              s.total > 0 && s.tenths <= 1000 && s.resistant <= s.total
  {
    var names := DistinctKeys(obs, nameOf);
    var groups := Groups(obs, nameOf, names);
    forall i | 0 <= i < |groups|
      ensures HasSamples(groups[i]) && groups[i].tenths <= 1000 && groups[i].resistant <= groups[i].total
    {
      assert names[i] in names;
      var x :| x in obs && nameOf(x) == names[i];
      ShareOfPresent(obs, nameOf, names[i], x);
    }
  }

  /** The facility totals count every profile reported there, and exactly those with result 'R' as resistant. */
  lemma FacilityTotals(t: Tables, f: Facility)
    ensures SumTotal(FacilityGroups(t, f)) == |FacilityObs(t, f.id)|
    ensures SumResistant(FacilityGroups(t, f)) == Count(FacilityObs(t, f.id), Resistant)
  {
    GroupTotals(FacilityObs(t, f.id), ObsPathogenName);
  }

  /** A group of a name that occurs holds at least one profile, no more resistant ones than profiles,
      and a percentage of at most 100.0. */
  lemma ShareOfPresent(obs: seq<Obs>, nameOf: Obs -> string, name: string, x: Obs)
    requires x in obs && nameOf(x) == name
    ensures HasSamples(ShareOf(obs, nameOf, name)) && ShareOf(obs, nameOf, name).resistant <= ShareOf(obs, nameOf, name).total
    ensures ShareOf(obs, nameOf, name).tenths <= 1000
  {
    var s := ShareOf(obs, nameOf, name);
    CountPositive(obs, InGroup(nameOf, name, All()), x);
    CountMonotone(obs, InGroup(nameOf, name, Resistant), InGroup(nameOf, name, All()));
    TenthsBounded(s.resistant, s.total);
  }

  /** Every group holds at least one profile, so the breakdown lists each pathogen of the facility once, sorted. */
  lemma BreakdownComplete(t: Tables, f: Facility)
    ensures var groups := FacilityGroups(t, f);
            multiset(Breakdown(groups)) == multiset(groups) && SortedDesc(Breakdown(groups), ShareTenths)
    ensures forall s :: s in Breakdown(FacilityGroups(t, f)) ==> s.total > 0 && s.tenths <= 1000 && s.resistant <= s.total
  {
    var obs := FacilityObs(t, f.id);
    var groups := FacilityGroups(t, f);
    GroupsPresent(obs, ObsPathogenName);
    assert forall i :: 0 <= i < |groups| ==> HasSamples(groups[i]) by {
      forall i | 0 <= i < |groups| ensures HasSamples(groups[i]) {
        assert groups[i] in groups;
      }
    }
    FilterAllKept(groups, HasSamples);
    assert Breakdown(groups) == SortDesc(groups, ShareTenths);
    forall s | s in Breakdown(groups)
      ensures s.total > 0 && s.tenths <= 1000 && s.resistant <= s.total
    {
      assert s in multiset(groups);
    }
  }

  lemma TenthsBounded(resistant: nat, total: nat)
    requires resistant <= total
    ensures Tenths(resistant, total) <= 1000
  {
    if total > 0 {
      MulMonotone(resistant, total, 1000);
      RoundHalfEvenAtMost(1000 * resistant, total, 1000);
    }
  }

  /** A plotted facility reports all its profiles, the resistant ones among them, and the level their ratio earns. */
  lemma FacilityPointSummary(t: Tables, f: Facility)
    requires HasCoordinates(f)
    ensures var p := FacilityPointOf(t, f, FacilityGroups(t, f));
            var obs := FacilityObs(t, f.id);
            p.facilityId == f.id && p.totalSamples == |obs| && p.totalResistant == Count(obs, Resistant) &&
            p.percentTenths == Tenths(Count(obs, Resistant), |obs|) &&
            p.risk == ClassifyPercent(Percent(Count(obs, Resistant), |obs|)) &&
            (|obs| == 0 ==> p.risk == Low && p.pathogens == []) &&
            (|obs| > 0 ==> (p.risk == VeryHigh <==> 100 * Count(obs, Resistant) >= 75 * |obs|))
  {
    var obs := FacilityObs(t, f.id);
    FacilityTotals(t, f);
    ClassifyCounts(Count(obs, Resistant), |obs|);
    if |obs| == 0 {
      assert DistinctKeys(obs, ObsPathogenName) == [];
    }
  }

  /** The facility points are those of the facilities with coordinates, in table order. */
  lemma {:induction false} FacilityPointsAre(t: Tables, fs: seq<Facility>)
    ensures |FacilityPoints(t, fs)| == Count(fs, HasCoordinates)
    ensures forall i :: 0 <= i < |FacilityPoints(t, fs)| ==>
              FacilityPoints(t, fs)[i] == FacilityPointOf(t, Filter(fs, HasCoordinates)[i], FacilityGroups(t, Filter(fs, HasCoordinates)[i]))
  {
    if fs != [] {
      var init := fs[..|fs| - 1];
      var f := fs[|fs| - 1];
      assert fs == init + [f];
      FacilityPointsAre(t, init);
      FilterSnoc(init, f, HasCoordinates);
    }
  }

  /** The sample points are those of the detected samples with non-zero coordinates, in table order. */
  lemma {:induction false} SamplePointsAre(t: Tables, ss: seq<EnvSample>)
    ensures |SamplePoints(t, ss)| == Count(ss, Plotted)
    ensures forall i :: 0 <= i < |SamplePoints(t, ss)| ==> SamplePoints(t, ss)[i] == SamplePointOf(t, Filter(ss, Plotted)[i])
  {
    if ss != [] {
      var init := ss[..|ss| - 1];
      var s := ss[|ss| - 1];
      assert ss == init + [s];
      SamplePointsAre(t, init);
      FilterSnoc(init, s, Plotted);
    }
  }

  /** Facilities come first, then samples; a sample point is never Low. */
  lemma ResistanceMapShape(t: Tables)
    ensures |ResistanceMap(t)| == Count(t.facilities, HasCoordinates) + Count(t.samples, Plotted)
    ensures forall i :: 0 <= i < Count(t.facilities, HasCoordinates) ==> ResistanceMap(t)[i].FacilityPoint?
    ensures forall i :: Count(t.facilities, HasCoordinates) <= i < |ResistanceMap(t)| ==>
              ResistanceMap(t)[i].SamplePoint? && ResistanceMap(t)[i].risk != Low
  {
    FacilityPointsAre(t, t.facilities);
    SamplePointsAre(t, t.samples);
    var fp: seq<MapPoint> := FacilityPoints(t, t.facilities);
    var sp: seq<MapPoint> := SamplePoints(t, t.samples);
    forall i | 0 <= i < |fp|
      ensures (fp + sp)[i].FacilityPoint?
    {
      assert (fp + sp)[i] == fp[i];
    }
    forall i | |fp| <= i < |fp| + |sp|
      ensures (fp + sp)[i].SamplePoint? && (fp + sp)[i].risk != Low
    {
      assert (fp + sp)[i] == sp[i - |fp|];
      SamplePointRisk(t, Filter(t.samples, Plotted)[i - |fp|]);
    }
  }

  lemma SamplePointRisk(t: Tables, s: EnvSample)
    ensures SamplePointOf(t, s).SamplePoint? && SamplePointOf(t, s).risk == ClassifyLoad(s.pathogenLoad)
  {
  }

  // ---------------------------------------------------------------- the map, on the session

  /** `generate_resistance_map`. */
  method GenerateResistanceMap(db: Database) returns (points: seq<MapPoint>)
    ensures points == ResistanceMap(db.Snapshot())
  {
    var t := db.Snapshot();
    points := [];
    var i := 0;
    while i < |t.facilities|
      invariant 0 <= i <= |t.facilities|
      invariant points == FacilityPoints(t, t.facilities[..i])
    {
      assert t.facilities[..i + 1][..i] == t.facilities[..i];
      var f := t.facilities[i];
      if HasCoordinates(f) {
        var p := FacilityEntry(t, f);
        points := points + [p];
      }
      i := i + 1;
    }
    assert t.facilities[..|t.facilities|] == t.facilities;
    var samplePoints := [];
    i := 0;
    while i < |t.samples|
      invariant 0 <= i <= |t.samples|
      invariant samplePoints == SamplePoints(t, t.samples[..i])
    {
      assert t.samples[..i + 1][..i] == t.samples[..i];
      var s := t.samples[i];
      if Plotted(s) {
        samplePoints := samplePoints + [SamplePointOf(t, s)];
      }
      i := i + 1;
    }
    assert t.samples[..|t.samples|] == t.samples;
    points := points + samplePoints;
  }

  /** One facility's entry: the group sums, then the breakdown of groups with samples. */
  method FacilityEntry(t: Tables, f: Facility) returns (p: MapPoint)
    requires HasCoordinates(f)
    ensures p == FacilityPointOf(t, f, FacilityGroups(t, f))
  {
    var groups := FacilityGroups(t, f);
    var total, resistant := SumGroups(groups);
    var rows := RowsWithSamples(groups);
    p := FacilityPoint(f.id, f.name, f.latitude.value, f.longitude.value, Location(f),
                       Tenths(resistant, total), ClassifyPercent(Percent(resistant, total)), total, resistant,
                       SortDesc(rows, ShareTenths));
  }

  method SumGroups(groups: seq<Share>) returns (total: nat, resistant: nat)
    ensures total == SumTotal(groups) && resistant == SumResistant(groups)
  {
    total, resistant := 0, 0;
    var j := 0;
    while j < |groups|
      invariant 0 <= j <= |groups|
      invariant total == SumTotal(groups[..j]) && resistant == SumResistant(groups[..j])
    {
      assert groups[..j + 1][..j] == groups[..j];
      total := total + groups[j].total;
      resistant := resistant + groups[j].resistant;
      j := j + 1;
    }
    assert groups[..|groups|] == groups;
  }

  method RowsWithSamples(groups: seq<Share>) returns (rows: seq<Share>)
    ensures rows == Filter(groups, HasSamples)
  {
    rows := [];
    var j := 0;
    while j < |groups|
      invariant 0 <= j <= |groups|
      invariant rows == Filter(groups[..j], HasSamples)
    {
      FilterPrefix(groups, j, HasSamples);
      if groups[j].total > 0 {
        rows := rows + [groups[j]];
      }
      j := j + 1;
    }
    assert groups[..|groups|] == groups;
  }
}
