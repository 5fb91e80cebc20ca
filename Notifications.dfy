/** Browser notifications for alerts: the VAPID key decoding (the URL-safe alphabet of section 5 of
    RFC 4648 mapped to the standard alphabet of section 4, with padding restored), the priority icon,
    the new-alert filter over the latest-alerts feed, the navbar badge and the permission guard. */
module Notifications {
  import opened Common
  import opened Calendar
  import opened Models
  import opened Alerts

  // ---------------------------------------------------------------- urlBase64ToUint8Array

  newtype byte = x: int | 0 <= x < 256

  /** `(4 - length % 4) % 4`: the only count below 4 that makes the length a multiple of 4. */
  function PaddingLength(n: nat): (p: nat)
    ensures p < 4 && (n + p) % 4 == 0
    ensures p == 0 <==> n % 4 == 0
  {
    (4 - n % 4) % 4
  }

  function Repeat(c: char, n: nat): (r: string)
    ensures |r| == n && forall i :: 0 <= i < n ==> r[i] == c
  {
    if n == 0 then [] else [c] + Repeat(c, n - 1)
  }

  /** `.replace(/-/g, '+').replace(/_/g, '/')` on one character. */
  function StandardChar(c: char): char
  {
    if c == '-' then '+' else if c == '_' then '/' else c
  }

  /** The reverse mapping, from the standard alphabet back to the URL-safe one. */
  function UrlSafeChar(c: char): char
  {
    if c == '+' then '-' else if c == '/' then '_' else c
  }

  function ToStandard(s: string): (r: string)
    ensures |r| == |s| && forall i :: 0 <= i < |s| ==> r[i] == StandardChar(s[i])
  {
    seq(|s|, i requires 0 <= i < |s| => StandardChar(s[i]))
  }

  function ToUrlSafe(s: string): (r: string)
    ensures |r| == |s| && forall i :: 0 <= i < |s| ==> r[i] == UrlSafeChar(s[i])
  {
    seq(|s|, i requires 0 <= i < |s| => UrlSafeChar(s[i]))
  }

  /** The text handed to `atob`. */
  function Normalised(s: string): string
  {
    ToStandard(s + Repeat('=', PaddingLength(|s|)))
  }

  /** The normalised key is padded to a multiple of 4 with at most three `=`, keeps every other character
      of the standard alphabet, and contains no character of the URL-safe pair. */
  lemma NormalisedShape(s: string)
    ensures |Normalised(s)| % 4 == 0 && |s| <= |Normalised(s)| < |s| + 4
    ensures forall i :: 0 <= i < |Normalised(s)| ==> Normalised(s)[i] != '-' && Normalised(s)[i] != '_'
    ensures forall i :: 0 <= i < |s| && s[i] != '-' && s[i] != '_' ==> Normalised(s)[i] == s[i]
    ensures forall i :: |s| <= i < |Normalised(s)| ==> Normalised(s)[i] == '='
  {
    var padded := s + Repeat('=', PaddingLength(|s|));
    assert forall i :: 0 <= i < |s| ==> padded[i] == s[i];
    assert forall i :: |s| <= i < |padded| ==> padded[i] == '=';
  }

  /** For a key in the URL-safe alphabet (no `+` or `/`), the mapping is undone by its reverse. */
  lemma AlphabetRoundTrip(s: string)
    requires forall i :: 0 <= i < |s| ==> s[i] != '+' && s[i] != '/'
    ensures ToUrlSafe(ToStandard(s)) == s
  {
  }

  /** `new Uint8Array(rawData.length)` filled with `rawData.charCodeAt(i)`; a store into a Uint8Array
      keeps the low 8 bits. */
  method ToUint8Array(raw: string) returns (out: array<byte>)
    ensures fresh(out) && out.Length == |raw|
    ensures forall i :: 0 <= i < |raw| ==> out[i] as int == raw[i] as int % 256
  {
    out := new byte[|raw|];
    for i := 0 to |raw|
      invariant forall j :: 0 <= j < i ==> out[j] as int == raw[j] as int % 256
    {
      out[i] := (raw[i] as int % 256) as byte;
    }
  }

  /** `urlBase64ToUint8Array`; `atob` is the browser's decoder, `None` where it throws. */
  method UrlBase64ToUint8Array(s: string, atob: string -> Option<string>) returns (r: Option<array<byte>>)
    ensures r.None? <==> atob(Normalised(s)).None?
    ensures r.Some? ==> fresh(r.value) && r.value.Length == |atob(Normalised(s)).value|
    ensures r.Some? ==> forall i :: 0 <= i < r.value.Length ==> r.value[i] as int == atob(Normalised(s)).value[i] as int % 256
  {
    var padding := Repeat('=', PaddingLength(|s|));
    var base64 := ToStandard(s + padding);
    var raw := atob(base64);
    if raw.None? {
      return None;
    }
    var out := ToUint8Array(raw.value);
    return Some(out);
  }

  // ---------------------------------------------------------------- the alert feed on the client

  /** A JSON value as the client sees it. */
  datatype JsValue = JsNum(n: int) | JsStr(s: string)

  type JsObject = map<string, JsValue>

  /** One record of `/alerts/api/latest`: these keys and no others; `format` is `strftime`. */
  function LatestRecord(a: Alert, format: DateTime -> string): JsObject
  {
    map["id" := JsNum(a.id), "title" := JsStr(a.title), "message" := JsStr(a.message),
        "alert_type" := JsStr(a.alertType), "severity" := JsNum(a.severity), "created_at" := JsStr(format(a.createdAt))]
  }

  function LatestFeed(t: Tables, userId: nat, now: DateTime, format: DateTime -> string): (r: seq<JsObject>)
    requires Valid(now)
    ensures |r| == |LatestAlerts(t, userId, now)|
  {
    var alerts := LatestAlerts(t, userId, now);
    seq(|alerts|, i requires 0 <= i < |alerts| => LatestRecord(alerts[i], format))
  }

  /** `alert.status === 'new'`; a missing key is `undefined`, which is not `'new'`. */
  function StatusIsNew(o: JsObject): bool
  {
    "status" in o && o["status"] == JsStr("new")
  }

  /** `alerts.filter(alert => alert.status === 'new')`, as written. */
  function NewAlertsAsWritten(records: seq<JsObject>): seq<JsObject>
  {
    Filter(records, StatusIsNew)
  }

  /** The feed has no `status` key, so the filter as written keeps nothing: no alert is ever notified and
      the counter is always given 0. */
  lemma NewAlertsAsWrittenEmpty(t: Tables, userId: nat, now: DateTime, format: DateTime -> string)
    requires Valid(now)
    ensures NewAlertsAsWritten(LatestFeed(t, userId, now, format)) == []
    ensures BadgeAfter(|NewAlertsAsWritten(LatestFeed(t, userId, now, format))|, Badge(false, "")) == Badge(false, "")
  {
    var feed := LatestFeed(t, userId, now, format);
    CountZero(feed, StatusIsNew);
    assert Count(feed, StatusIsNew) == |Filter(feed, StatusIsNew)|;
  }

  /** A concrete case: one unread alert from today is in the feed, yet the filter drops it. */
  lemma NewAlertsAsWrittenExample(format: DateTime -> string)
    ensures var rec := LatestRecord(Alert(1, 1, "t", "m", "system", 2, DateTime(2024, 5, 1, 0), false, false,
                                         None, None, None, None, None), format);
            NewAlertsAsWritten([rec]) == []
  {
  }

  /** The alerts the check is evidently meant to notify: every record of the feed, which holds only the
      caller's unread alerts of the last day. */
  function NewAlerts(records: seq<JsObject>): seq<JsObject>
  {
    records
  }

  /** Corrected, the notifications are one per unread alert of the caller from the last day, newest first,
      and the badge shows exactly when there is one. */
  lemma NewAlertsAreRecentUnread(t: Tables, userId: nat, now: DateTime, format: DateTime -> string, a: Alert)
    requires Valid(now)
    ensures var feed := NewAlerts(LatestFeed(t, userId, now, format));
            (LatestRecord(a, format) in feed <== a in t.alerts && a.userId == userId && !a.read && Stamp(SubDays(now, 1)) <= Stamp(a.createdAt)) &&
            |feed| == |LatestAlerts(t, userId, now)| &&
            (BadgeAfter(|feed|, Badge(false, "")).shown <==>
              exists b :: b in t.alerts && b.userId == userId && !b.read && Stamp(SubDays(now, 1)) <= Stamp(b.createdAt))
  {
    LatestAlertsAre(t, userId, now, a);
    var alerts := LatestAlerts(t, userId, now);
    var feed := LatestFeed(t, userId, now, format);
    if a in alerts {
      var i :| 0 <= i < |alerts| && alerts[i] == a;
      assert feed[i] == LatestRecord(a, format);
    }
    if b :| b in t.alerts && b.userId == userId && !b.read && Stamp(SubDays(now, 1)) <= Stamp(b.createdAt) {
      LatestAlertsAre(t, userId, now, b);
    }
    if |alerts| > 0 {
      LatestAlertsAre(t, userId, now, alerts[0]);
    }
  }

  // ---------------------------------------------------------------- icon, badge, permission

  /** `getAlertIconUrl(alert.priority)`; `None` is an absent priority. */
  function AlertIconUrl(priority: Option<JsValue>): string
  {
    match priority
    case Some(JsStr("critical")) => "/static/icons/alert-critical.svg"
    case Some(JsStr("high")) => "/static/icons/alert-high.svg"
    case Some(JsStr("medium")) => "/static/icons/alert-medium.svg"
    case Some(JsStr("low")) => "/static/icons/alert-low.svg"
    case _ => "/static/icons/alert.svg"
  }

  const Priorities: seq<string> := ["critical", "high", "medium", "low"]

  /** Each of the four priorities has its own icon, different from the default; anything else gets the
      default. The feed's records carry no `priority`, so they always get the default. */
  lemma AlertIconCases(p: string, q: string, a: Alert, format: DateTime -> string)
    ensures p in Priorities && q in Priorities && p != q ==> AlertIconUrl(Some(JsStr(p))) != AlertIconUrl(Some(JsStr(q)))
    ensures p in Priorities ==> AlertIconUrl(Some(JsStr(p))) != AlertIconUrl(None)
    ensures p !in Priorities ==> AlertIconUrl(Some(JsStr(p))) == "/static/icons/alert.svg"
    ensures "priority" !in LatestRecord(a, format) && AlertIconUrl(None) == "/static/icons/alert.svg"
  {
  }

  /** The navbar badge: whether it is shown and its text. */
  datatype Badge = Badge(shown: bool, text: string)

  /** `updateAlertCounter(count)`: a positive count is shown with its digits; otherwise the badge is
      hidden and its text left as it was. */
  function BadgeAfter(count: int, b: Badge): (r: Badge)
    ensures r.shown <==> count > 0
    ensures count > 0 ==> r.text == DecimalString(count)
    ensures count <= 0 ==> r.text == b.text
  {
    if count > 0 then Badge(true, DecimalString(count)) else b.(shown := false)
  }

  /** A shown notification. */
  datatype Note = Note(title: string, body: string, icon: string, tag: string)

  function NoteFor(id: nat, title: string, message: string, priority: Option<JsValue>): Note
  {
    Note("AMR Alert: " + title, message, AlertIconUrl(priority), "amr-alert-" + DecimalString(id))
  }

  /** `sendNotification`: nothing unless the permission is 'granted'; a missing or zero id is replaced by
      `Date.now()`, and the priority defaults to 'medium'. */
  function SendNotification(permission: string, title: string, message: string, priority: Option<string>,
                            alertId: Option<nat>, nowMillis: nat): Option<Note>
  {
    if permission != "granted" then None
    else
      var id := if alertId.Some? && alertId.value != 0 then alertId.value else nowMillis;
      var p := if priority.Some? then priority.value else "medium";
      Some(NoteFor(id, title, message, Some(JsStr(p))))
  }

  /** The guard and the defaults of `sendNotification`. */
  lemma SendNotificationGuard(permission: string, title: string, message: string, priority: Option<string>,
                              alertId: Option<nat>, nowMillis: nat)
    ensures SendNotification(permission, title, message, priority, alertId, nowMillis).None? <==> permission != "granted"
    ensures var n := SendNotification(permission, title, message, priority, alertId, nowMillis);
            n.Some? ==>
              n.value.title == "AMR Alert: " + title && n.value.body == message &&
              (priority.None? ==> n.value.icon == "/static/icons/alert-medium.svg") &&
              (alertId.Some? && alertId.value != 0 ==> n.value.tag == "amr-alert-" + DecimalString(alertId.value)) &&
              (!(alertId.Some? && alertId.value != 0) ==> n.value.tag == "amr-alert-" + DecimalString(nowMillis))
  {
  }
}
