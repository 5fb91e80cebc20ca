/** The alerts blueprint: the filtered alert list, the acknowledge/resolve/dismiss transitions,
    manual alerts sent by role, and the notification APIs (latest unread alerts, unread counts). */
module Alerts {
  import opened Common
  import opened Calendar
  import opened Models

  // ---------------------------------------------------------------- alerts_view

  /** The query parameters of the list; `None` where absent (the severity through `type=int`). */
  datatype AlertQuery = AlertQuery(alertType: Option<string>, severity: Option<int>, read: Option<string>, actionTaken: Option<string>)

  /** A present flag parameter means true exactly when it reads 'true' in any letter case. */
  predicate FlagParam(s: string) { Lower(s) == "true" }

  predicate ListedFor(userId: nat, q: AlertQuery, a: Alert)
  {
    a.userId == userId &&
    (TruthyText(q.alertType) ==> a.alertType == q.alertType.value) &&
    (TruthyInt(q.severity) ==> a.severity == q.severity.value) &&
    (q.read.Some? ==> a.read == FlagParam(q.read.value)) &&
    (q.actionTaken.Some? ==> a.actionTaken == FlagParam(q.actionTaken.value))
  }

  function Listed(userId: nat, q: AlertQuery): Alert -> bool
  {
    (a: Alert) => ListedFor(userId, q, a)
  }

  function CreatedKey(a: Alert): real { Stamp(a.createdAt) as real }

  /** `alerts_view`: the caller's alerts passing the applicable filters, newest first (pagination aside). */
  function AlertsView(t: Tables, userId: nat, q: AlertQuery): seq<Alert>
  {
    SortDesc(Filter(t.alerts, Listed(userId, q)), CreatedKey)
  }

  /** An alert is listed exactly when it is the caller's and meets every applicable filter; the list is
      newest first. */
  lemma AlertsViewMembership(t: Tables, userId: nat, q: AlertQuery, a: Alert)
    ensures a in AlertsView(t, userId, q) <==> a in t.alerts && ListedFor(userId, q, a)
    ensures SortedDesc(AlertsView(t, userId, q), CreatedKey)
  {
    var kept := Filter(t.alerts, Listed(userId, q));
    assert a in AlertsView(t, userId, q) <==> a in multiset(AlertsView(t, userId, q));
    assert a in kept <==> a in multiset(kept);
    assert Listed(userId, q)(a) == ListedFor(userId, q, a);
  }

  /** Any flag value other than 'true' in some letter case selects false: `?read=1` lists the unread alerts. */
  lemma FlagParamExamples()
    ensures FlagParam("True") && FlagParam("TRUE") && FlagParam("true")
    ensures !FlagParam("1") && !FlagParam("yes") && !FlagParam("")
  {
    assert Lower("True") == "true";
    assert Lower("TRUE") == "true";
    assert Lower("1") == "1";
    assert Lower("yes") == "yes";
  }

  // ---------------------------------------------------------------- acknowledge / resolve / dismiss

  /** `acknowledge_alert`: 404 for an unknown id, no change for another user's alert, else `read` set. */
  method AcknowledgeAlert(db: Database, alertId: nat, currentUser: nat) returns (out: Outcome)
    modifies db
    ensures (db.Snapshot(), out) == FlagAlert(old(db.Snapshot()), alertId, currentUser, true, false)
  {
    out := db.UpdateAlert(alertId, currentUser, true, false);
  }

  /** `resolve_alert`: 404 for an unknown id, no change for another user's alert, else `action_taken` set. */
  method ResolveAlert(db: Database, alertId: nat, currentUser: nat) returns (out: Outcome)
    modifies db
    ensures (db.Snapshot(), out) == FlagAlert(old(db.Snapshot()), alertId, currentUser, false, true)
  {
    out := db.UpdateAlert(alertId, currentUser, false, true);
  }

  /** `dismiss_alert`: 404 for an unknown id, no change for another user's alert, else both flags set. */
  method DismissAlert(db: Database, alertId: nat, currentUser: nat) returns (out: Outcome)
    modifies db
    ensures (db.Snapshot(), out) == FlagAlert(old(db.Snapshot()), alertId, currentUser, true, true)
  {
    out := db.UpdateAlert(alertId, currentUser, true, true);
  }

  /** Acknowledging sets only `read`, resolving only `action_taken`, dismissing both; nothing else of the alert changes. */
  lemma TransitionsSetTheirFlags(a: Alert)
    ensures Flagged(a, true, false) == a.(read := true)
    ensures Flagged(a, false, true) == a.(actionTaken := true)
    ensures Flagged(a, true, true) == a.(read := true, actionTaken := true)
  {
  }

  /** On the caller's own alert the route succeeds and changes exactly that alert; on someone else's it
      is refused and the store is unchanged. */
  lemma TransitionOwnership(t: Tables, k: nat, currentUser: nat, setRead: bool, setAction: bool)
    requires k < |t.alerts| && KeyedRows(t.alerts, AlertId)
    ensures t.alerts[k].userId != currentUser ==>
              FlagAlert(t, t.alerts[k].id, currentUser, setRead, setAction) == (t, Forbidden)
    ensures t.alerts[k].userId == currentUser ==>
              FlagAlert(t, t.alerts[k].id, currentUser, setRead, setAction) ==
              (t.(alerts := t.alerts[k := Flagged(t.alerts[k], setRead, setAction)]), Done)
  {
    var r := FirstIndex(t.alerts, HasKey(AlertId, t.alerts[k].id));
    assert HasKey(AlertId, t.alerts[k].id)(t.alerts[k]);
    assert AlertId(t.alerts[r.value]) == r.value + 1;
  }

  // ---------------------------------------------------------------- create_alert

  /** The fields of a manual alert; title and message are `None` when absent, the ids when absent or empty. */
  datatype AlertForm = AlertForm(
    title: Option<string>, message: Option<string>, alertType: string, severity: int,
    pathogenId: Option<nat>, antibioticId: Option<nat>, targetRole: Option<string>)

  /** The result of `create_alert`: refused for a non-admin, ValueError for an unknown role, IntegrityError at the
      commit when some alert lacks its NOT NULL title or message, or sent to `count` users. */
  datatype Created = NotAdmin | UnknownRole | CommitFailed | Sent(count: nat)

  /** 'all' selects every role (`None`); any other value must name a role. */
  function Target(value: Option<string>): (r: Option<Option<UserRole>>)
    ensures value == Some("all") ==> r == Some(None)
    ensures value != Some("all") ==> (r.Some? <==> value.Some? && RoleFromValue(value.value).Some?)
    ensures value != Some("all") && r.Some? ==> r.value == RoleFromValue(value.value)
  {
    if value == Some("all") then Some(None)
    else if value.Some? && RoleFromValue(value.value).Some? then Some(RoleFromValue(value.value))
    else None
  }

  /** The active users, of the given role when there is one. */
  function Recipients(role: Option<UserRole>): User -> bool
  {
    (u: User) => u.isActive && (role.None? || u.role == role.value)
  }

  /** The alert before it is addressed: unread, no action taken, created now. */
  function ManualAlert(form: AlertForm, now: DateTime): Alert
  {
    Alert(0, 0, GetOr(form.title, ""), GetOr(form.message, ""), form.alertType, form.severity, now, false, false,
          None, None, None, form.pathogenId, form.antibioticId)
  }

  /** `create_alert` on the store. */
  function CreateAlertEffect(t: Tables, current: User, form: AlertForm, now: DateTime): (Tables, Created)
  {
    if current.role != Admin then (t, NotAdmin)
    else match Target(form.targetRole)
      case None => (t, UnknownRole)
      case Some(role) =>
        if (form.title.None? || form.message.None?) && Count(t.users, Recipients(role)) > 0 then (t, CommitFailed)
        else
          (t.(alerts := t.alerts + FanOut(t.users, Recipients(role), ManualAlert(form, now), |t.alerts|)),
           Sent(Count(t.users, Recipients(role))))
  }

  /** A non-admin, an unknown role and a failed commit leave the store unchanged; the commit fails exactly
      when some recipient's alert lacks a title or a message. */
  lemma CreateAlertRefused(t: Tables, current: User, form: AlertForm, now: DateTime)
    ensures current.role != Admin <==> CreateAlertEffect(t, current, form, now).1 == NotAdmin
    ensures current.role == Admin && Target(form.targetRole).None? <==> CreateAlertEffect(t, current, form, now).1 == UnknownRole
    ensures CreateAlertEffect(t, current, form, now).1 == CommitFailed <==>
              current.role == Admin && Target(form.targetRole).Some? &&
              (form.title.None? || form.message.None?) && Count(t.users, Recipients(Target(form.targetRole).value)) > 0
    ensures !CreateAlertEffect(t, current, form, now).1.Sent? ==> CreateAlertEffect(t, current, form, now).0 == t
  {
  }

  /** For an admin and a known target, the count is the number of recipients, the existing alerts stay,
      and alert `|t.alerts| + i` is the form's alert, with the posted title and message, addressed to the
      `i`-th recipient in user order. */
  lemma CreateAlertSends(t: Tables, current: User, form: AlertForm, now: DateTime, i: nat)
    requires CreateAlertEffect(t, current, form, now).1.Sent?
    requires i < CreateAlertEffect(t, current, form, now).1.count
    ensures var role := Target(form.targetRole).value;
            var t2 := CreateAlertEffect(t, current, form, now).0;
            CreateAlertEffect(t, current, form, now).1.count == Count(t.users, Recipients(role)) &&
            t2 == t.(alerts := t2.alerts) &&
            |t2.alerts| == |t.alerts| + Count(t.users, Recipients(role)) && t2.alerts[..|t.alerts|] == t.alerts &&
            form.title.Some? && form.message.Some? &&
            t2.alerts[|t.alerts| + i] ==
            ManualAlert(form, now).(id := |t.alerts| + i + 1, userId := Filter(t.users, Recipients(role))[i].id) &&
            t2.alerts[|t.alerts| + i].title == form.title.value && t2.alerts[|t.alerts| + i].message == form.message.value
  {
    var role := Target(form.targetRole).value;
    FanOutAppended(t.alerts, t.users, Recipients(role), ManualAlert(form, now));
    FanOutIndex(t.alerts, t.users, Recipients(role), ManualAlert(form, now), |t.alerts| + i);
  }

  /** A user receives the alert exactly when active and, unless the target is 'all', of the target role. */
  lemma RecipientsAre(form: AlertForm, u: User)
    requires Target(form.targetRole).Some?
    ensures Recipients(Target(form.targetRole).value)(u) <==>
              u.isActive && (form.targetRole == Some("all") || RoleValue(u.role) == form.targetRole.value)
  {
    if form.targetRole != Some("all") {
      var r := RoleFromValue(form.targetRole.value).value;
      assert RoleValue(r) == form.targetRole.value;
      if RoleValue(u.role) == form.targetRole.value {
        assert u.role == r;
      }
    }
  }

  /** `create_alert`; `send_alert` for each recipient is not modelled. */
  method CreateAlert(db: Database, current: User, form: AlertForm, now: DateTime) returns (out: Created)
    modifies db
    ensures (db.Snapshot(), out) == CreateAlertEffect(old(db.Snapshot()), current, form, now)
  {
    if current.role != Admin {
      return NotAdmin;
    }
    var target := Target(form.targetRole);
    if target.None? {
      return UnknownRole;
    }
    var n := |Filter(db.users, Recipients(target.value))|;
    if (form.title.None? || form.message.None?) && n > 0 {
      return CommitFailed;
    }
    db.AddFanOut(Recipients(target.value), ManualAlert(form, now));
    return Sent(n);
  }

  // ---------------------------------------------------------------- get_latest_alerts

  predicate RecentUnreadFor(userId: nat, since: DateTime, a: Alert)
  {
    a.userId == userId && !a.read && Stamp(since) <= Stamp(a.createdAt)
  }

  function RecentUnread(userId: nat, since: DateTime): Alert -> bool
  {
    (a: Alert) => RecentUnreadFor(userId, since, a)
  }

  /** `get_latest_alerts`: the caller's unread alerts created at or after one day before `now`, newest first. */
  function LatestAlerts(t: Tables, userId: nat, now: DateTime): seq<Alert>
    requires Valid(now)
  {
    SortDesc(Filter(t.alerts, RecentUnread(userId, SubDays(now, 1))), CreatedKey)
  }

  /** The latest alerts are exactly the caller's unread ones from the last day, newest first. */
  lemma LatestAlertsAre(t: Tables, userId: nat, now: DateTime, a: Alert)
    requires Valid(now)
    ensures a in LatestAlerts(t, userId, now) <==>
              a in t.alerts && a.userId == userId && !a.read && Stamp(SubDays(now, 1)) <= Stamp(a.createdAt)
    ensures SortedDesc(LatestAlerts(t, userId, now), CreatedKey)
  {
    var kept := Filter(t.alerts, RecentUnread(userId, SubDays(now, 1)));
    assert a in LatestAlerts(t, userId, now) <==> a in multiset(LatestAlerts(t, userId, now));
    assert a in kept <==> a in multiset(kept);
    assert RecentUnread(userId, SubDays(now, 1))(a) == RecentUnreadFor(userId, SubDays(now, 1), a);
  }

  // ---------------------------------------------------------------- get_alert_counts

  function UnreadOf(userId: nat): Alert -> bool
  {
    (a: Alert) => a.userId == userId && !a.read
  }

  function AlertSeverity(a: Alert): int { a.severity }

  /** The caller's unread alerts. */
  function Unread(t: Tables, userId: nat): seq<Alert>
  {
    Filter(t.alerts, UnreadOf(userId))
  }

  /** The `GROUP BY Alert.severity` groups of the unread alerts. */
  function SeverityKeys(t: Tables, userId: nat): seq<int>
  {
    DistinctKeys(Unread(t, userId), AlertSeverity)
  }

  function SeverityCount(t: Tables, userId: nat, severity: int): nat
  {
    Count(Unread(t, userId), InGroup(AlertSeverity, severity, All()))
  }

  /** The response: the unread count and the per-severity counts. The route keys the dictionary by
      `str(severity)` (routes/alerts.py:200-204); here it is keyed by the integer severity itself. */
  datatype AlertCounts = AlertCounts(unreadCount: nat, severityCounts: map<int, nat>)

  /** `get_alert_counts`, with the loop that fills the dictionary. */
  method GetAlertCounts(db: Database, userId: nat) returns (c: AlertCounts)
    ensures c.unreadCount == Count(db.alerts, UnreadOf(userId))
    ensures forall s :: s in c.severityCounts <==> s in SeverityKeys(db.Snapshot(), userId)
    ensures forall s :: s in c.severityCounts ==> c.severityCounts[s] == SeverityCount(db.Snapshot(), userId, s)
  {
    var t := db.Snapshot();
    var keys := SeverityKeys(t, userId);
    var data: map<int, nat> := map[];
    var i := 0;
    while i < |keys|
      invariant 0 <= i <= |keys|
      invariant forall s :: s in data <==> s in keys[..i]
      invariant forall s :: s in data ==> data[s] == SeverityCount(t, userId, s)
    {
      assert keys[..i + 1] == keys[..i] + [keys[i]];
      data := data[keys[i] := SeverityCount(t, userId, keys[i])];
      i := i + 1;
    }
    assert keys[..|keys|] == keys;
    c := AlertCounts(Count(t.alerts, UnreadOf(userId)), data);
  }

  /** Every unread alert falls in exactly one severity group, so the group counts add up to the unread count. */
  lemma UnreadCountIsSum(t: Tables, userId: nat)
    ensures SumCounts(Unread(t, userId), AlertSeverity, SeverityKeys(t, userId), All()) == Count(t.alerts, UnreadOf(userId))
  {
    var unread := Unread(t, userId);
    var keys := SeverityKeys(t, userId);
    assert Distinct(keys);
    SumCountsPartition(unread, AlertSeverity, keys, All());
    CountAll(unread);
  }

  /** Each group holds at least one unread alert of that severity. */
  lemma SeverityGroupsPopulated(t: Tables, userId: nat, s: int)
    requires s in SeverityKeys(t, userId)
    ensures SeverityCount(t, userId, s) > 0
  {
    var a :| a in Unread(t, userId) && AlertSeverity(a) == s;
    CountPositive(Unread(t, userId), InGroup(AlertSeverity, s, All()), a);
  }
}
