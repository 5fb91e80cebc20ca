/** The admin blueprint: the dashboard's counts and `add_facility`, both behind `admin_required`. */
module Admin {
  import opened Common
  import opened Models
  import opened Auth

  /** The four counts the dashboard shows; three of them are not implemented and fixed at 0. */
  datatype AdminCounts = AdminCounts(labReports: nat, activeUsers: nat, alerts: nat, resistancePatterns: nat)

  function ActiveUser(u: User): bool { u.isActive }

  /** `admin_dashboard`'s counts: the active users, and zero for the rest. */
  function AdminDashboardCounts(t: Tables): (r: AdminCounts)
    ensures r.labReports == 0 && r.alerts == 0 && r.resistancePatterns == 0
    ensures r.activeUsers <= |t.users|
    ensures r.activeUsers == |t.users| <==> forall u :: u in t.users ==> u.isActive
    ensures r.activeUsers == 0 <==> forall u :: u in t.users ==> !u.isActive
  {
    CountAll(t.users);
    CountEqualIff(t.users, ActiveUser, All());
    CountZero(t.users, ActiveUser);
    AdminCounts(0, Count(t.users, ActiveUser), 0, 0)
  }

  /** The fields of the add-facility form; `None` is a field missing from the request. */
  datatype FacilityForm = FacilityForm(
    name: Option<string>, facilityType: Option<string>, city: Option<string>, state: Option<string>,
    country: Option<string>, latitude: Option<string>, longitude: Option<string>)

  datatype AddOutcome = MissingRequired | BadCoordinate | Added(id: nat)

  /** `float(x) if x else None`: `parseFloat` is Python's `float`, `None` where it raises. */
  function Coordinate(x: Option<string>, parseFloat: string -> Option<real>): (r: Result<Option<real>, string>)
    ensures !TruthyText(x) ==> r == Ok(None)
    ensures TruthyText(x) ==> (r.Ok? <==> parseFloat(x.value).Some?)
    ensures TruthyText(x) && r.Ok? ==> r.value == parseFloat(x.value)
  {
    if !TruthyText(x) then Ok(None)
    else match parseFloat(x.value)
      case Some(v) => Ok(Some(v))
      case None => Err("ValueError")
  }

  /** `add_facility` on a posted form: refused unless name, city and country are non-empty; otherwise the
      facility is added with the next id. A type missing from the form is stored as the empty string. */
  function AddFacility(t: Tables, form: FacilityForm, parseFloat: string -> Option<real>): (Tables, AddOutcome)
  {
    if !TruthyText(form.name) || !TruthyText(form.city) || !TruthyText(form.country) then (t, MissingRequired)
    else
      var lat := Coordinate(form.latitude, parseFloat);
      var lng := Coordinate(form.longitude, parseFloat);
      if lat.Err? || lng.Err? then (t, BadCoordinate)
      else
        var f := Facility(|t.facilities| + 1, form.name.value, if form.facilityType.Some? then form.facilityType.value else "",
                          form.city, form.state, form.country, lat.value, lng.value);
        (t.(facilities := t.facilities + [f]), Added(f.id))
  }

  /** The form is refused exactly when a required field is empty or missing (or a coordinate is not a
      number); a refusal changes nothing, and a success adds one facility carrying the form's values
      and `None` for each empty coordinate, and changes no other table. */
  lemma AddFacilityOutcome(t: Tables, form: FacilityForm, parseFloat: string -> Option<real>)
    ensures var (t2, o) := AddFacility(t, form, parseFloat);
            (o == MissingRequired <==> form.name in {None, Some("")} || form.city in {None, Some("")} || form.country in {None, Some("")}) &&
            (!o.Added? ==> t2 == t) &&
            (o.Added? ==>
              t2 == t.(facilities := t2.facilities) && |t2.facilities| == |t.facilities| + 1 &&
              t2.facilities[..|t.facilities|] == t.facilities &&
              var f := t2.facilities[|t.facilities|];
              f.id == o.id == |t.facilities| + 1 && Some(f.name) == form.name && f.city == form.city && f.country == form.country &&
              (!TruthyText(form.latitude) ==> f.latitude.None?) && (!TruthyText(form.longitude) ==> f.longitude.None?))
  {
    var (t2, o) := AddFacility(t, form, parseFloat);
    if o.Added? {
      assert t2.facilities[..|t.facilities|] == t.facilities;
    }
  }

  /** Adding a facility with the next id keeps the store's keys and references. */
  lemma AddFacilityKeepsWellFormed(t: Tables, form: FacilityForm, parseFloat: string -> Option<real>)
    requires WellFormed(t)
    ensures WellFormed(AddFacility(t, form, parseFloat).0)
  {
    var (t2, o) := AddFacility(t, form, parseFloat);
    if o.Added? {
      KeyedAppend(t.facilities, FacilityId, t2.facilities[|t.facilities|]);
      assert t2.facilities == t.facilities + [t2.facilities[|t.facilities|]];
    }
  }

  /** The route behind its guards: a visitor who is not an administrator is sent to the login page and
      the store is left alone. */
  function AddFacilityRoute(t: Tables, current: Option<User>, form: FacilityForm, parseFloat: string -> Option<real>)
    : Guarded<(Tables, AddOutcome)>
  {
    AdminRequired(current, AddFacility(t, form, parseFloat))
  }

  /** `admin_required` on the admin views: only an administrator reaches them. */
  lemma AdminViewsGuarded(t: Tables, current: Option<User>, form: FacilityForm, parseFloat: string -> Option<real>)
    ensures AddFacilityRoute(t, current, form, parseFloat).Proceed? <==> current.Some? && current.value.role == Admin
    ensures AdminRequired(current, AdminDashboardCounts(t)).Proceed? <==> current.Some? && current.value.role == Admin
  {
  }

  method AddFacilityMethod(db: Database, form: FacilityForm, parseFloat: string -> Option<real>) returns (o: AddOutcome)
    modifies db
    ensures (db.Snapshot(), o) == AddFacility(old(db.Snapshot()), form, parseFloat)
  {
    if !TruthyText(form.name) || !TruthyText(form.city) || !TruthyText(form.country) {
      return MissingRequired;
    }
    var lat := Coordinate(form.latitude, parseFloat);
    var lng := Coordinate(form.longitude, parseFloat);
    if lat.Err? || lng.Err? {
      return BadCoordinate;
    }
    var f := Facility(|db.facilities| + 1, form.name.value, if form.facilityType.Some? then form.facilityType.value else "",
                      form.city, form.state, form.country, lat.value, lng.value);
    db.facilities := db.facilities + [f];
    return Added(f.id);
  }
}
