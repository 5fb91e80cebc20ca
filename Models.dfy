/** The persistent entities of the surveillance database, the whole store as one
    value (`Tables`), the store as a mutable object (`Database`) whose tables the
    ingestion code grows, and the profile/report/facility/pathogen/antibiotic join
    that every statistic is computed over. */
module Models {
  import opened Common
  import opened Calendar

  /** The six roles of role-based access control. */
  datatype UserRole = Admin | LabTechnician | Doctor | Researcher | PublicHealthOfficial | FieldWorker

  /** The enum's stored value. */
  function RoleValue(r: UserRole): string
  {
    match r
    case Admin => "admin"
    case LabTechnician => "lab_technician"
    case Doctor => "doctor"
    case Researcher => "researcher"
    case PublicHealthOfficial => "public_health_official"
    case FieldWorker => "field_worker"
  }

  /** `UserRole(value)`: the role with that stored value, `None` where the enum raises ValueError. */
  function RoleFromValue(s: string): (r: Option<UserRole>)
    ensures r.Some? ==> RoleValue(r.value) == s
    ensures forall role: UserRole :: RoleValue(role) == s ==> r == Some(role)
  {
    if s == "admin" then Some(Admin)
    else if s == "lab_technician" then Some(LabTechnician)
    else if s == "doctor" then Some(Doctor)
    else if s == "researcher" then Some(Researcher)
    else if s == "public_health_official" then Some(PublicHealthOfficial)
    else if s == "field_worker" then Some(FieldWorker)
    else None
  }

  datatype User = User(
    id: nat, username: string, email: string, passwordHash: Option<string>,
    firebaseUid: Option<string>, role: UserRole, fullName: string, isActive: bool)

  /** Coordinates are nullable floats; `None` is SQL NULL. */
  datatype Facility = Facility(
    id: nat, name: string, facilityType: string, city: Option<string>, state: Option<string>,
    country: Option<string>, latitude: Option<real>, longitude: Option<real>)

  /** `name` carries no unique constraint: de-duplication rests on look-up before insert. */
  datatype Pathogen = Pathogen(id: nat, name: string, scientificName: string, pathogenType: string)

  datatype Antibiotic = Antibiotic(id: nat, name: string, drugClass: string)

  datatype LabReport = LabReport(
    id: nat, reportId: string, facilityId: nat, userId: nat, reportDate: DateTime,
    sampleDate: Option<DateTime>, sampleType: string, patientIdentifier: string)

  /** A susceptibility result: by convention "R", "I" or "S", but stored as given. */
  datatype Profile = Profile(id: nat, labReportId: nat, pathogenId: nat, antibioticId: nat, result: string)

  datatype Alert = Alert(
    id: nat, userId: nat, title: string, message: string, alertType: string, severity: int,
    createdAt: DateTime, read: bool, actionTaken: bool,
    latitude: Option<real>, longitude: Option<real>, region: Option<string>,
    pathogenId: Option<nat>, antibioticId: Option<nat>)

  datatype EnvSample = EnvSample(
    id: nat, sampleId: string, sampleType: string, collectionDate: DateTime,
    latitude: real, longitude: real, locationDescription: string, detected: bool,
    pathogenId: Option<nat>, pathogenLoad: Option<real>, userId: nat)

  /** The whole store as a value. */
  datatype Tables = Tables(
    users: seq<User>, facilities: seq<Facility>, pathogens: seq<Pathogen>,
    antibiotics: seq<Antibiotic>, reports: seq<LabReport>, profiles: seq<Profile>,
    alerts: seq<Alert>, samples: seq<EnvSample>)

  /** Python truthiness of a nullable float column: NULL and 0.0 are falsy. */
  predicate TruthyReal(x: Option<real>)
  {
    x.Some? && x.value != 0.0
  }

  // ---------------------------------------------------------------- keys and references

  predicate RefersTo(id: nat, size: nat)
  {
    1 <= id <= size
  }

  /** Auto-increment keys: row `i` of a table has id `i + 1`. */
  predicate KeyedRows<T>(rows: seq<T>, idOf: T -> nat)
  {
    forall i :: 0 <= i < |rows| ==> idOf(rows[i]) == i + 1
  }

  function UserId(u: User): nat { u.id }
  function FacilityId(f: Facility): nat { f.id }
  function PathogenId(p: Pathogen): nat { p.id }
  function AntibioticId(a: Antibiotic): nat { a.id }
  function ReportKey(r: LabReport): nat { r.id }
  function ProfileId(p: Profile): nat { p.id }
  function AlertId(a: Alert): nat { a.id }
  function SampleId(s: EnvSample): nat { s.id }

  predicate Keyed(t: Tables)
  {
    KeyedRows(t.users, UserId) && KeyedRows(t.facilities, FacilityId) && KeyedRows(t.pathogens, PathogenId) &&
    KeyedRows(t.antibiotics, AntibioticId) && KeyedRows(t.reports, ReportKey) && KeyedRows(t.profiles, ProfileId) &&
    KeyedRows(t.alerts, AlertId) && KeyedRows(t.samples, SampleId)
  }

  /** Appending the row with the next id keeps a table keyed. */
  lemma KeyedAppend<T>(rows: seq<T>, idOf: T -> nat, x: T)
    requires KeyedRows(rows, idOf) && idOf(x) == |rows| + 1
    ensures KeyedRows(rows + [x], idOf)
  {
    assert forall i :: 0 <= i < |rows| ==> (rows + [x])[i] == rows[i];
  }

  predicate ReportRefers(r: LabReport, facilities: nat, users: nat)
  {
    RefersTo(r.facilityId, facilities) && RefersTo(r.userId, users)
  }

  predicate ProfileRefers(p: Profile, reports: nat, pathogens: nat, antibiotics: nat)
  {
    RefersTo(p.labReportId, reports) && RefersTo(p.pathogenId, pathogens) && RefersTo(p.antibioticId, antibiotics)
  }

  predicate AlertRefers(a: Alert, users: nat, pathogens: nat, antibiotics: nat)
  {
    RefersTo(a.userId, users) &&
    (a.pathogenId.Some? ==> RefersTo(a.pathogenId.value, pathogens)) &&
    (a.antibioticId.Some? ==> RefersTo(a.antibioticId.value, antibiotics))
  }

  predicate SampleRefers(s: EnvSample, users: nat, pathogens: nat)
  {
    RefersTo(s.userId, users) && (s.pathogenId.Some? ==> RefersTo(s.pathogenId.value, pathogens))
  }

  predicate ReportsRefer(rs: seq<LabReport>, facilities: nat, users: nat)
  {
    forall r :: r in rs ==> ReportRefers(r, facilities, users)
  }

  predicate ProfilesRefer(ps: seq<Profile>, reports: nat, pathogens: nat, antibiotics: nat)
  {
    forall p :: p in ps ==> ProfileRefers(p, reports, pathogens, antibiotics)
  }

  predicate AlertsRefer(as_: seq<Alert>, users: nat, pathogens: nat, antibiotics: nat)
  {
    forall a :: a in as_ ==> AlertRefers(a, users, pathogens, antibiotics)
  }

  predicate SamplesRefer(ss: seq<EnvSample>, users: nat, pathogens: nat)
  {
    forall s :: s in ss ==> SampleRefers(s, users, pathogens)
  }

  /** Every foreign key names an existing row. */
  predicate Referential(t: Tables)
  {
    ReportsRefer(t.reports, |t.facilities|, |t.users|) &&
    ProfilesRefer(t.profiles, |t.reports|, |t.pathogens|, |t.antibiotics|) &&
    AlertsRefer(t.alerts, |t.users|, |t.pathogens|, |t.antibiotics|) &&
    SamplesRefer(t.samples, |t.users|, |t.pathogens|)
  }

  predicate WellFormed(t: Tables)
  {
    Keyed(t) && Referential(t)
  }

  /** References stay valid when the referenced tables grow, and when a row with valid references is appended. */
  lemma ReportsReferGrow(rs: seq<LabReport>, f: nat, u: nat, f2: nat, u2: nat, extra: seq<LabReport>)
    requires ReportsRefer(rs, f, u) && f <= f2 && u <= u2 && ReportsRefer(extra, f2, u2)
    ensures ReportsRefer(rs + extra, f2, u2)
  {
  }

  lemma ProfilesReferGrow(ps: seq<Profile>, r: nat, p: nat, a: nat, r2: nat, p2: nat, a2: nat, extra: seq<Profile>)
    requires ProfilesRefer(ps, r, p, a) && r <= r2 && p <= p2 && a <= a2 && ProfilesRefer(extra, r2, p2, a2)
    ensures ProfilesRefer(ps + extra, r2, p2, a2)
  {
  }

  lemma AlertsReferGrow(as_: seq<Alert>, u: nat, p: nat, a: nat, u2: nat, p2: nat, a2: nat, extra: seq<Alert>)
    requires AlertsRefer(as_, u, p, a) && u <= u2 && p <= p2 && a <= a2 && AlertsRefer(extra, u2, p2, a2)
    ensures AlertsRefer(as_ + extra, u2, p2, a2)
  {
  }

  lemma SamplesReferGrow(ss: seq<EnvSample>, u: nat, p: nat, u2: nat, p2: nat, extra: seq<EnvSample>)
    requires SamplesRefer(ss, u, p) && u <= u2 && p <= p2 && SamplesRefer(extra, u2, p2)
    ensures SamplesRefer(ss + extra, u2, p2)
  {
  }

  // ---------------------------------------------------------------- look-up by primary key

  function UserById(t: Tables, id: nat): (r: Option<User>)
    ensures r.Some? ==> r.value in t.users && r.value.id == id
    ensures Keyed(t) && RefersTo(id, |t.users|) ==> r == Some(t.users[id - 1])
  {
    var r := First(t.users, HasKey(UserId, id));
    if Keyed(t) && RefersTo(id, |t.users|) then
      FirstKeyed(t.users, UserId, id);
      r
    else r
  }

  function FacilityById(t: Tables, id: nat): (r: Option<Facility>)
    ensures r.Some? ==> r.value in t.facilities && r.value.id == id
    ensures Keyed(t) && RefersTo(id, |t.facilities|) ==> r == Some(t.facilities[id - 1])
  {
    var r := First(t.facilities, HasKey(FacilityId, id));
    if Keyed(t) && RefersTo(id, |t.facilities|) then
      FirstKeyed(t.facilities, FacilityId, id);
      r
    else r
  }

  function PathogenById(t: Tables, id: nat): (r: Option<Pathogen>)
    ensures r.Some? ==> r.value in t.pathogens && r.value.id == id
    ensures Keyed(t) && RefersTo(id, |t.pathogens|) ==> r == Some(t.pathogens[id - 1])
  {
    var r := First(t.pathogens, HasKey(PathogenId, id));
    if Keyed(t) && RefersTo(id, |t.pathogens|) then
      FirstKeyed(t.pathogens, PathogenId, id);
      r
    else r
  }

  function AntibioticById(t: Tables, id: nat): (r: Option<Antibiotic>)
    ensures r.Some? ==> r.value in t.antibiotics && r.value.id == id
    ensures Keyed(t) && RefersTo(id, |t.antibiotics|) ==> r == Some(t.antibiotics[id - 1])
  {
    var r := First(t.antibiotics, HasKey(AntibioticId, id));
    if Keyed(t) && RefersTo(id, |t.antibiotics|) then
      FirstKeyed(t.antibiotics, AntibioticId, id);
      r
    else r
  }

  function ReportById(t: Tables, id: nat): (r: Option<LabReport>)
    ensures r.Some? ==> r.value in t.reports && r.value.id == id
    ensures Keyed(t) && RefersTo(id, |t.reports|) ==> r == Some(t.reports[id - 1])
  {
    var r := First(t.reports, HasKey(ReportKey, id));
    if Keyed(t) && RefersTo(id, |t.reports|) then
      FirstKeyed(t.reports, ReportKey, id);
      r
    else r
  }

  /** In a table keyed by position, the first row with id `id` is row `id - 1`. */
  function HasKey<T>(key: T -> nat, id: nat): T -> bool
  {
    (x: T) => key(x) == id
  }

  lemma HasKeyAt<T>(key: T -> nat, id: nat, x: T)
    ensures HasKey(key, id)(x) <==> key(x) == id
  {
  }

  lemma {:induction false} FirstKeyed<T>(xs: seq<T>, key: T -> nat, id: nat)
    requires KeyedRows(xs, key)
    requires RefersTo(id, |xs|)
    ensures First(xs, HasKey(key, id)) == Some(xs[id - 1])
  {
    FirstKeyedFrom(xs, key, id, 0);
  }

  lemma {:induction false} FirstKeyedFrom<T>(xs: seq<T>, key: T -> nat, id: nat, k: nat)
    requires forall i :: 0 <= i < |xs| ==> key(xs[i]) == k + i + 1
    requires k + 1 <= id <= k + |xs|
    ensures First(xs, HasKey(key, id)) == Some(xs[id - k - 1])
    decreases |xs|
  {
    if key(xs[0]) != id {
      FirstKeyedFrom(xs[1..], key, id, k + 1);
    }
  }

  // ---------------------------------------------------------------- the observation join

  /** One resistance profile joined with its report, the report's facility, its pathogen and its antibiotic. */
  datatype Obs = Obs(profile: Profile, report: LabReport, facility: Facility, pathogen: Pathogen, antibiotic: Antibiotic)

  /** The join conditions and membership of every part in its table. */
  predicate JoinedFrom(t: Tables, o: Obs)
  {
    o.profile in t.profiles && o.report in t.reports && o.facility in t.facilities &&
    o.pathogen in t.pathogens && o.antibiotic in t.antibiotics &&
    o.report.id == o.profile.labReportId && o.facility.id == o.report.facilityId &&
    o.pathogen.id == o.profile.pathogenId && o.antibiotic.id == o.profile.antibioticId
  }

  function JoinProfile(t: Tables, p: Profile): (r: Option<Obs>)
    ensures r.Some? ==> r.value.profile == p
    ensures r.Some? && p in t.profiles ==> JoinedFrom(t, r.value)
  {
    match ReportById(t, p.labReportId)
    case None => None
    case Some(rep) =>
      match FacilityById(t, rep.facilityId)
      case None => None
      case Some(fac) =>
        match PathogenById(t, p.pathogenId)
        case None => None
        case Some(pat) =>
          match AntibioticById(t, p.antibioticId)
          case None => None
          case Some(ab) => Some(Obs(p, rep, fac, pat, ab))
  }

  /** Inner join of `ps` with the other tables, in profile order. */
  function JoinAll(t: Tables, ps: seq<Profile>): (r: seq<Obs>)
    ensures |r| <= |ps|
    ensures forall o :: o in r ==> o.profile in ps
    ensures (forall p :: p in ps ==> p in t.profiles) ==> forall o :: o in r ==> JoinedFrom(t, o)
  {
    if ps == [] then []
    else
      var rest := JoinAll(t, ps[1..]);
      match JoinProfile(t, ps[0])
      case None => rest
      case Some(o) => [o] + rest
  }

  function Join(t: Tables): (r: seq<Obs>)
    ensures forall o :: o in r ==> JoinedFrom(t, o)
  {
    JoinAll(t, t.profiles)
  }

  /** In a well-formed store no profile is lost to the join: row `i` of the join is profile `i`. */
  lemma {:induction false} JoinAllComplete(t: Tables, ps: seq<Profile>)
    requires WellFormed(t)
    requires forall p :: p in ps ==> p in t.profiles
    ensures |JoinAll(t, ps)| == |ps|
    ensures forall i :: 0 <= i < |ps| ==> JoinAll(t, ps)[i].profile == ps[i]
  {
    if ps != [] {
      JoinProfileTotal(t, ps[0]);
      var o := JoinProfile(t, ps[0]).value;
      var tail := ps[1..];
      forall q | q in tail ensures q in t.profiles {
        assert q in ps;
      }
      JoinAllComplete(t, tail);
      var rest := JoinAll(t, tail);
      var r := JoinAll(t, ps);
      assert r == [o] + rest;
      forall i | 0 <= i < |ps|
        ensures r[i].profile == ps[i]
      {
        if i > 0 {
          assert r[i] == rest[i - 1];
          assert ps[i] == tail[i - 1];
        }
      }
    }
  }

  /** Every profile of a well-formed store has its join row. */
  lemma JoinProfileTotal(t: Tables, p: Profile)
    requires WellFormed(t) && p in t.profiles
    ensures JoinProfile(t, p).Some?
  {
    var rep := t.reports[p.labReportId - 1];
    assert ReportById(t, p.labReportId) == Some(rep);
    assert rep in t.reports;
    assert FacilityById(t, rep.facilityId).Some?;
    assert PathogenById(t, p.pathogenId).Some?;
    assert AntibioticById(t, p.antibioticId).Some?;
  }

  lemma JoinComplete(t: Tables)
    requires WellFormed(t)
    ensures |Join(t)| == |t.profiles|
    ensures forall i :: 0 <= i < |t.profiles| ==> Join(t)[i].profile == t.profiles[i]
  {
    JoinAllComplete(t, t.profiles);
  }

  /** A profile counts as resistant exactly when its stored code is "R". */
  predicate Resistant(o: Obs)
  {
    o.profile.result == "R"
  }

  // ---------------------------------------------------------------- catalogs looked up by name

  function HasName<T>(nameOf: T -> string, name: string): T -> bool
  {
    (x: T) => nameOf(x) == name
  }

  /** `filter_by(name=name).first()`, inserting `newRow` when no row has the name; the result carries the row's id. */
  function FindOrCreate<T>(rows: seq<T>, nameOf: T -> string, idOf: T -> nat, name: string, newRow: T): (r: (seq<T>, nat))
    requires nameOf(newRow) == name
    ensures (exists x :: x in rows && nameOf(x) == name) ==> r.0 == rows
    ensures (forall x :: x in rows ==> nameOf(x) != name) ==> r.0 == rows + [newRow] && r.1 == idOf(newRow)
    ensures exists x :: x in r.0 && nameOf(x) == name && idOf(x) == r.1
  {
    match First(rows, HasName(nameOf, name))
    case Some(x) => (rows, idOf(x))
    case None => (rows + [newRow], idOf(newRow))
  }

  /** Looking up a name either keeps the rows or appends the new row. */
  lemma FindOrCreateGrows<T>(rows: seq<T>, nameOf: T -> string, idOf: T -> nat, name: string, newRow: T)
    requires nameOf(newRow) == name
    ensures |rows| <= |FindOrCreate(rows, nameOf, idOf, name, newRow).0|
  {
    if exists x :: x in rows && nameOf(x) == name {
      assert FindOrCreate(rows, nameOf, idOf, name, newRow).0 == rows;
    }
  }

  /** Rows added after `before` never repeat a name that an earlier row already has. */
  predicate AddedOnlyWhenAbsent<T(==)>(before: seq<T>, after: seq<T>, nameOf: T -> string)
  {
    |before| <= |after| && after[..|before|] == before &&
    forall i, j :: |before| <= i < |after| && 0 <= j < i ==> nameOf(after[j]) != nameOf(after[i])
  }

  lemma AddedOnlyWhenAbsentRefl<T>(rows: seq<T>, nameOf: T -> string)
    ensures AddedOnlyWhenAbsent(rows, rows, nameOf)
  {
  }

  /** Find-or-create keeps every batch of additions free of repeated names. */
  lemma FindOrCreateAddsOnlyWhenAbsent<T>(before: seq<T>, rows: seq<T>, nameOf: T -> string, idOf: T -> nat, name: string, newRow: T)
    requires nameOf(newRow) == name
    requires AddedOnlyWhenAbsent(before, rows, nameOf)
    ensures AddedOnlyWhenAbsent(before, FindOrCreate(rows, nameOf, idOf, name, newRow).0, nameOf)
  {
    var after := FindOrCreate(rows, nameOf, idOf, name, newRow).0;
    if forall x :: x in rows ==> nameOf(x) != name {
      assert after == rows + [newRow];
      assert after[..|before|] == rows[..|before|];
      forall i, j | |before| <= i < |after| && 0 <= j < i
        ensures nameOf(after[j]) != nameOf(after[i])
      {
        if i == |rows| {
          assert after[j] == rows[j];
          assert rows[j] in rows;
        } else {
          assert after[i] == rows[i] && after[j] == rows[j];
        }
      }
    }
  }

  /** In a keyed catalog the returned id is the position (plus one) of a row with the name, and keys stay keyed. */
  lemma FindOrCreateKeyed<T>(rows: seq<T>, nameOf: T -> string, idOf: T -> nat, name: string, newRow: T)
    requires nameOf(newRow) == name && KeyedRows(rows, idOf) && idOf(newRow) == |rows| + 1
    ensures var r := FindOrCreate(rows, nameOf, idOf, name, newRow);
            KeyedRows(r.0, idOf) && RefersTo(r.1, |r.0|) && nameOf(r.0[r.1 - 1]) == name
  {
    var r := FindOrCreate(rows, nameOf, idOf, name, newRow);
    var x :| x in r.0 && nameOf(x) == name && idOf(x) == r.1;
    var k :| 0 <= k < |r.0| && r.0[k] == x;
    if forall y :: y in rows ==> nameOf(y) != name {
      assert r.0 == rows + [newRow];
    }
    assert idOf(r.0[k]) == k + 1;
  }

  // ---------------------------------------------------------------- alert fan-out

  /** One copy of `template` per recipient, in user order, with consecutive fresh ids after `base`. */
  function FanOut(users: seq<User>, recipient: User -> bool, template: Alert, base: nat): (r: seq<Alert>)
    ensures |r| == Count(users, recipient)
  {
    if users == [] then []
    else
      var init := FanOut(users[..|users| - 1], recipient, template, base);
      var u := users[|users| - 1];
      assert users == users[..|users| - 1] + [u];
      FilterSnoc(users[..|users| - 1], u, recipient);
      if recipient(u) then init + [template.(id := base + |init| + 1, userId := u.id)] else init
  }

  /** Copy `i` carries id `base + i + 1` and is addressed to the `i`-th recipient. */
  lemma {:induction false} FanOutAt(users: seq<User>, recipient: User -> bool, template: Alert, base: nat)
    ensures forall i :: 0 <= i < |FanOut(users, recipient, template, base)| ==>
              FanOut(users, recipient, template, base)[i] ==
              template.(id := base + i + 1, userId := Filter(users, recipient)[i].id)
  {
    if users != [] {
      var init := users[..|users| - 1];
      var u := users[|users| - 1];
      assert users == init + [u];
      FilterSnoc(init, u, recipient);
      FanOutAt(init, recipient, template, base);
      var r, r0 := FanOut(users, recipient, template, base), FanOut(init, recipient, template, base);
      forall i | 0 <= i < |r|
        ensures r[i] == template.(id := base + i + 1, userId := Filter(users, recipient)[i].id)
      {
        if i < |r0| {
          assert r[i] == r0[i];
          assert Filter(users, recipient)[i] == Filter(init, recipient)[i];
        }
      }
    }
  }

  lemma {:induction false} FanOutSnoc(users: seq<User>, u: User, recipient: User -> bool, template: Alert, base: nat)
    ensures FanOut(users + [u], recipient, template, base) ==
            FanOut(users, recipient, template, base) +
            (if recipient(u) then [template.(id := base + |FanOut(users, recipient, template, base)| + 1, userId := u.id)] else [])
  {
    var us := users + [u];
    assert us[..|us| - 1] == users;
    assert us[|us| - 1] == u;
  }

  /** Every copy is the template with only its id and recipient changed. */
  lemma FanOutCopies(users: seq<User>, recipient: User -> bool, template: Alert, base: nat)
    ensures forall a :: a in FanOut(users, recipient, template, base) ==> a == template.(id := a.id, userId := a.userId)
  {
    FanOutAt(users, recipient, template, base);
    var r := FanOut(users, recipient, template, base);
    forall a | a in r
      ensures a == template.(id := a.id, userId := a.userId)
    {
      var i :| 0 <= i < |r| && r[i] == a;
    }
  }

  /** The copies differ from the template only in id and recipient, and each names a distinct recipient's id. */
  lemma FanOutRecipients(users: seq<User>, recipient: User -> bool, template: Alert, base: nat)
    ensures forall a :: a in FanOut(users, recipient, template, base) ==>
              exists u :: u in users && recipient(u) && a.userId == u.id
  {
    FanOutAt(users, recipient, template, base);
    var r := FanOut(users, recipient, template, base);
    forall a | a in r
      ensures exists u :: u in users && recipient(u) && a.userId == u.id
    {
      var i :| 0 <= i < |r| && r[i] == a;
      var u := Filter(users, recipient)[i];
      assert u in Filter(users, recipient);
    }
  }

  /** A row of a keyed table has an id that refers into the table. */
  lemma KeyedMember<T>(rows: seq<T>, idOf: T -> nat, x: T)
    requires KeyedRows(rows, idOf) && x in rows
    ensures RefersTo(idOf(x), |rows|)
  {
    var k :| 0 <= k < |rows| && rows[k] == x;
  }

  /** Appending a fan-out keeps the existing alerts and adds one copy per recipient, in user order. */
  lemma FanOutAppended(alerts: seq<Alert>, users: seq<User>, recipient: User -> bool, template: Alert)
    ensures var r := alerts + FanOut(users, recipient, template, |alerts|);
            |r| == |alerts| + Count(users, recipient) && r[..|alerts|] == alerts &&
            forall i :: |alerts| <= i < |r| ==> r[i] == template.(id := i + 1, userId := Filter(users, recipient)[i - |alerts|].id)
  {
    FanOutAt(users, recipient, template, |alerts|);
    var added := FanOut(users, recipient, template, |alerts|);
    assert (alerts + added)[..|alerts|] == alerts;
    forall i | |alerts| <= i < |alerts| + |added|
      ensures (alerts + added)[i] == added[i - |alerts|]
    {
    }
  }
  /** The copy at position `i` is the template with the next id, addressed to the matching recipient. */
  lemma FanOutIndex(alerts: seq<Alert>, users: seq<User>, recipient: User -> bool, template: Alert, i: nat)
    requires |alerts| <= i < |alerts| + Count(users, recipient)
    ensures i < |alerts + FanOut(users, recipient, template, |alerts|)|
    ensures (alerts + FanOut(users, recipient, template, |alerts|))[i] ==
            template.(id := i + 1, userId := Filter(users, recipient)[i - |alerts|].id)
  {
    FanOutAppended(alerts, users, recipient, template);
  }



  /** Fanned-out alert ids continue the table's keys. */
  lemma FanOutKeyed(alerts: seq<Alert>, users: seq<User>, recipient: User -> bool, template: Alert)
    requires KeyedRows(alerts, AlertId)
    ensures KeyedRows(alerts + FanOut(users, recipient, template, |alerts|), AlertId)
  {
    FanOutAt(users, recipient, template, |alerts|);
    var added := FanOut(users, recipient, template, |alerts|);
    forall i | 0 <= i < |alerts + added|
      ensures AlertId((alerts + added)[i]) == i + 1
    {
      if i >= |alerts| {
        assert (alerts + added)[i] == added[i - |alerts|];
      } else {
        assert (alerts + added)[i] == alerts[i];
      }
    }
  }

  /** Fanned-out alerts address existing users and keep the template's references. */
  lemma FanOutRefers(users: seq<User>, recipient: User -> bool, template: Alert, base: nat, p: nat, a: nat)
    requires KeyedRows(users, UserId)
    requires template.pathogenId.Some? ==> RefersTo(template.pathogenId.value, p)
    requires template.antibioticId.Some? ==> RefersTo(template.antibioticId.value, a)
    ensures AlertsRefer(FanOut(users, recipient, template, base), |users|, p, a)
  {
    FanOutAt(users, recipient, template, base);
    var added := FanOut(users, recipient, template, base);
    forall x | x in added
      ensures AlertRefers(x, |users|, p, a)
    {
      var i :| 0 <= i < |added| && added[i] == x;
      var u := Filter(users, recipient)[i];
      assert u in Filter(users, recipient);
      KeyedMember(users, UserId, u);
    }
  }

  /** Fanning out an alert that refers to existing catalog rows keeps the store well formed. */
  lemma FanOutWellFormed(t: Tables, recipient: User -> bool, template: Alert)
    requires WellFormed(t)
    requires template.pathogenId.Some? ==> RefersTo(template.pathogenId.value, |t.pathogens|)
    requires template.antibioticId.Some? ==> RefersTo(template.antibioticId.value, |t.antibiotics|)
    ensures WellFormed(t.(alerts := t.alerts + FanOut(t.users, recipient, template, |t.alerts|)))
  {
    var added := FanOut(t.users, recipient, template, |t.alerts|);
    FanOutKeyed(t.alerts, t.users, recipient, template);
    FanOutRefers(t.users, recipient, template, |t.alerts|, |t.pathogens|, |t.antibiotics|);
    AlertsReferGrow(t.alerts, |t.users|, |t.pathogens|, |t.antibiotics|, |t.users|, |t.pathogens|, |t.antibiotics|, added);
  }

  // ---------------------------------------------------------------- alert flags

  /** The result of an alert route: done, 404 for an unknown id, or refused for an alert of another user. */
  datatype Outcome = Done | NotFound | Forbidden

  /** The alert with the flags a route sets raised; a flag it does not name keeps its value. */
  function Flagged(a: Alert, setRead: bool, setAction: bool): Alert
  {
    a.(read := setRead || a.read, actionTaken := setAction || a.actionTaken)
  }

  /** `Alert.query.get_or_404(id)`, an ownership check against the current user, then the flag update. */
  function FlagAlert(t: Tables, alertId: nat, userId: nat, setRead: bool, setAction: bool): (Tables, Outcome)
  {
    match FirstIndex(t.alerts, HasKey(AlertId, alertId))
    case None => (t, NotFound)
    case Some(k) =>
      if t.alerts[k].userId != userId then (t, Forbidden)
      else (t.(alerts := t.alerts[k := Flagged(t.alerts[k], setRead, setAction)]), Done)
  }

  /** Only the addressed alert of the caller changes, only in the named flags; anything else leaves the store as it was. */
  lemma FlagAlertEffect(t: Tables, alertId: nat, userId: nat, setRead: bool, setAction: bool)
    ensures var (t2, out) := FlagAlert(t, alertId, userId, setRead, setAction);
            (out != Done ==> t2 == t) &&
            (out == NotFound <==> forall a :: a in t.alerts ==> a.id != alertId) &&
            t2 == t.(alerts := t2.alerts) && |t2.alerts| == |t.alerts| &&
            (forall i :: 0 <= i < |t.alerts| && t.alerts[i].id != alertId ==> t2.alerts[i] == t.alerts[i]) &&
            (out == Done ==> exists k :: 0 <= k < |t.alerts| && t.alerts[k].id == alertId && t.alerts[k].userId == userId &&
                                         t2.alerts[k] == Flagged(t.alerts[k], setRead, setAction))
  {
    match FirstIndex(t.alerts, HasKey(AlertId, alertId))
    case None =>
      assert FlagAlert(t, alertId, userId, setRead, setAction) == (t, NotFound);
      forall a | a in t.alerts ensures a.id != alertId {
        var i :| 0 <= i < |t.alerts| && t.alerts[i] == a;
        HasKeyAt(AlertId, alertId, t.alerts[i]);
      }
    case Some(k) =>
      HasKeyAt(AlertId, alertId, t.alerts[k]);
      assert t.alerts[k] in t.alerts && t.alerts[k].id == alertId;
      if t.alerts[k].userId == userId {
        var t2 := t.(alerts := t.alerts[k := Flagged(t.alerts[k], setRead, setAction)]);
        assert FlagAlert(t, alertId, userId, setRead, setAction) == (t2, Done);
        forall i | 0 <= i < |t.alerts| && t.alerts[i].id != alertId ensures t2.alerts[i] == t.alerts[i] {
          assert i != k;
        }
      } else {
        assert FlagAlert(t, alertId, userId, setRead, setAction) == (t, Forbidden);
      }
  }

  /** Raising flags on one alert keeps every id, so the same alert is found again by id. */
  lemma FlaggedKeepsIndex(alerts: seq<Alert>, k: nat, alertId: nat, setRead: bool, setAction: bool)
    requires k < |alerts|
    ensures FirstIndex(alerts[k := Flagged(alerts[k], setRead, setAction)], HasKey(AlertId, alertId)) ==
            FirstIndex(alerts, HasKey(AlertId, alertId))
  {
    var a2 := alerts[k := Flagged(alerts[k], setRead, setAction)];
    forall i | 0 <= i < |alerts|
      ensures HasKey(AlertId, alertId)(a2[i]) == HasKey(AlertId, alertId)(alerts[i])
    {
      if i == k {
        assert a2[i] == Flagged(alerts[k], setRead, setAction);
      } else {
        assert a2[i] == alerts[i];
      }
      assert AlertId(a2[i]) == AlertId(alerts[i]);
    }
    FirstIndexAgree(a2, HasKey(AlertId, alertId), alerts, HasKey(AlertId, alertId));
  }

  /** Setting a flag twice is setting it once, and setting read then action is dismissing. */
  lemma FlagAlertComposes(t: Tables, alertId: nat, userId: nat)
    ensures var (t1, _) := FlagAlert(t, alertId, userId, true, false);
            FlagAlert(t1, alertId, userId, true, false).0 == t1 &&
            FlagAlert(t1, alertId, userId, false, true).0 == FlagAlert(t, alertId, userId, true, true).0
  {
    var (t1, out) := FlagAlert(t, alertId, userId, true, false);
    if out == Done {
      var k := FirstIndex(t.alerts, HasKey(AlertId, alertId)).value;
      assert t1.alerts == t.alerts[k := Flagged(t.alerts[k], true, false)];
      FlaggedKeepsIndex(t.alerts, k, alertId, true, false);
    } else {
      assert t1 == t;
    }
  }

  /** Keyword arguments the generated `Alert(...)` constructor accepts: its mapped attributes. */
  const AlertAttributes: set<string> := {
    "id", "user_id", "title", "message", "alert_type", "severity", "created_at", "read",
    "action_taken", "latitude", "longitude", "region", "pathogen_id", "antibiotic_id",
    "pathogen", "antibiotic", "user" }

  /** The instance dictionary of a mapped object holds the attributes set on it and the ORM's state slot. */
  function InstanceDictKeys(setAttrs: set<string>): (keys: set<string>)
    ensures "_sa_instance_state" in keys && setAttrs <= keys
  {
    setAttrs + {"_sa_instance_state"}
  }

  /** The copy idiom `Alert(**alert.__dict__)`: every key must be a mapped attribute, or TypeError is raised. */
  predicate CopyConstructorAccepts(kwargs: set<string>)
  {
    kwargs <= AlertAttributes
  }

  /** The copy idiom always raises, whatever attributes were set on the template. */
  lemma CopyIdiomAlwaysRaises(setAttrs: set<string>)
    ensures !CopyConstructorAccepts(InstanceDictKeys(setAttrs))
  {
    assert "_sa_instance_state" !in AlertAttributes;
  }

  /** The fan-out loop as written: the first copy raises, the handler swallows the error, and nothing is flushed. */
  function FanOutAsWritten(users: seq<User>, recipient: User -> bool, template: Alert, base: nat): (r: seq<Alert>)
    ensures r == []
  {
    if Count(users, recipient) > 0 && !CopyConstructorAccepts(InstanceDictKeys({"title", "message"})) then []
    else FanOut(users, recipient, template, base)
  }

  /** With a single recipient the code as written creates no alert where one is intended. */
  lemma FanOutAsWrittenLosesAlert(u: User, recipient: User -> bool, template: Alert, base: nat)
    requires recipient(u)
    ensures |FanOutAsWritten([u], recipient, template, base)| == 0
    ensures |FanOut([u], recipient, template, base)| == 1
  {
    assert [u][1..] == [];
  }

  // ---------------------------------------------------------------- the mutable store

  /** The database session: tables that grow as rows are added and flushed. */
  class Database {
    var users: seq<User>
    var facilities: seq<Facility>
    var pathogens: seq<Pathogen>
    var antibiotics: seq<Antibiotic>
    var reports: seq<LabReport>
    var profiles: seq<Profile>
    var alerts: seq<Alert>
    var samples: seq<EnvSample>

    function Snapshot(): Tables
      reads this
    {
      Tables(users, facilities, pathogens, antibiotics, reports, profiles, alerts, samples)
    }

    constructor (t: Tables)
      ensures Snapshot() == t
    {
      users, facilities, pathogens, antibiotics := t.users, t.facilities, t.pathogens, t.antibiotics;
      reports, profiles, alerts, samples := t.reports, t.profiles, t.alerts, t.samples;
    }

    /** Adds one copy of `template` per recipient, in user order: the fan-out loops of the alert producers. */
    method AddFanOut(recipient: User -> bool, template: Alert)
      modifies this
      ensures Snapshot() == old(Snapshot()).(alerts := old(alerts) + FanOut(users, recipient, template, |old(alerts)|))
    {
      ghost var a0 := alerts;
      var j := 0;
      while j < |users|
        invariant 0 <= j <= |users|
        invariant alerts == a0 + FanOut(users[..j], recipient, template, |a0|)
        invariant users == old(users) && facilities == old(facilities) && pathogens == old(pathogens)
        invariant antibiotics == old(antibiotics) && reports == old(reports) && profiles == old(profiles)
        invariant samples == old(samples) && a0 == old(alerts)
      {
        var u := users[j];
        assert users[..j + 1] == users[..j] + [u];
        FanOutSnoc(users[..j], u, recipient, template, |a0|);
        if recipient(u) {
          alerts := alerts + [template.(id := |alerts| + 1, userId := u.id)];
        }
        j := j + 1;
      }
      assert users[..|users|] == users;
    }

    /** The flag assignments of the alert routes on the alert at position `k`. */
    method SetAlertFlags(k: nat, setRead: bool, setAction: bool)
      requires k < |alerts|
      modifies this
      ensures Snapshot() == old(Snapshot()).(alerts := old(alerts)[k := Flagged(old(alerts)[k], setRead, setAction)])
    {
      var a := alerts[k];
      if setRead {
        a := a.(read := true);
      }
      if setAction {
        a := a.(actionTaken := true);
      }
      alerts := alerts[k := a];
    }

    /** An alert route on the session: look-up, ownership check, flag update. */
    method UpdateAlert(alertId: nat, userId: nat, setRead: bool, setAction: bool) returns (out: Outcome)
      modifies this
      ensures (Snapshot(), out) == FlagAlert(old(Snapshot()), alertId, userId, setRead, setAction)
    {
      var k := FirstIndex(alerts, HasKey(AlertId, alertId));
      if k.None? {
        return NotFound;
      }
      if alerts[k.value].userId != userId {
        return Forbidden;
      }
      SetAlertFlags(k.value, setRead, setAction);
      return Done;
    }

    /** Rollback: every table returns to the given snapshot. */
    method Restore(t: Tables)
      modifies this
      ensures Snapshot() == t
    {
      users, facilities, pathogens, antibiotics := t.users, t.facilities, t.pathogens, t.antibiotics;
      reports, profiles, alerts, samples := t.reports, t.profiles, t.alerts, t.samples;
    }
  }
}
