/** The client's offline queue: forms submitted while offline are stored as pending uploads and sent
    again when the browser comes back online; a status indicator shows the queue's state. */
module OfflineManager {
  import opened Common

  /** One stored submission; `data` is the object the form's entries were copied into. */
  datatype Upload = Upload(url: string, httpMethod: string, data: map<string, string>, timestamp: string)

  /** `for (const [key, value] of formData.entries()) data[key] = value`: a later entry overwrites an
      earlier one with the same key. */
  function EntriesObject(entries: seq<(string, string)>): map<string, string>
  {
    if entries == [] then map[]
    else EntriesObject(entries[..|entries| - 1])[entries[|entries| - 1].0 := entries[|entries| - 1].1]
  }

  /** Every key of the form is kept, with the value of its LAST entry: repeated fields keep one value. */
  lemma {:induction false} EntriesObjectLastWins(entries: seq<(string, string)>, k: string)
    ensures k in EntriesObject(entries) <==> exists i :: 0 <= i < |entries| && entries[i].0 == k
    ensures forall i :: (0 <= i < |entries| && entries[i].0 == k && forall j :: i < j < |entries| ==> entries[j].0 != k) ==>
              k in EntriesObject(entries) && EntriesObject(entries)[k] == entries[i].1
  {
    if entries != [] {
      var init := entries[..|entries| - 1];
      EntriesObjectLastWins(init, k);
      assert forall i :: 0 <= i < |init| ==> init[i] == entries[i];
    }
  }

  /** The text and colour class `updateSyncStatus` gives the indicator; an unknown status removes the
      colour classes and leaves the text as it was. */
  function StatusDisplay(status: string, text: string): (string, Option<string>)
  {
    if status == "up-to-date" then ("Synced", Some("text-success"))
    else if status == "pending" then ("Pending Sync", Some("text-warning"))
    else if status == "syncing" then ("Syncing...", Some("text-info"))
    else if status == "error" then ("Sync Error", Some("text-danger"))
    else (text, None)
  }

  const KnownStatuses: seq<string> := ["up-to-date", "pending", "syncing", "error"]

  /** The four statuses are told apart by both text and colour, and they do not depend on what was
      shown before; any other status keeps the old text with no colour. */
  lemma StatusDisplayCases(a: string, b: string, text: string, text2: string)
    ensures a in KnownStatuses ==> StatusDisplay(a, text).1.Some? && StatusDisplay(a, text) == StatusDisplay(a, text2)
    ensures a in KnownStatuses && b in KnownStatuses && a != b ==>
              StatusDisplay(a, text).0 != StatusDisplay(b, text).0 && StatusDisplay(a, text).1 != StatusDisplay(b, text).1
    ensures a !in KnownStatuses ==> StatusDisplay(a, text) == (text, None)
  {
  }

  /** An upload the server did not accept (a network error or a response that is not ok). */
  function NotDelivered(delivered: Upload -> bool): Upload -> bool
  {
    (u: Upload) => !delivered(u)
  }

  /** The queue after a sync: exactly the failed uploads, in their original order. */
  lemma FailedUploads(q: seq<Upload>, delivered: Upload -> bool, u: Upload)
    ensures u in Filter(q, NotDelivered(delivered)) <==> u in q && !delivered(u)
    ensures IsSubsequence(Filter(q, NotDelivered(delivered)), q)
    ensures Filter(q, NotDelivered(delivered)) == [] <==> forall x :: x in q ==> delivered(x)
  {
    FilterIsSubsequence(q, NotDelivered(delivered));
  }

  /** The `for...of` loop of `syncPendingUploads`: each upload is sent once, and the ones that fail are
      kept, in their order. */
  method SendAll(queue: seq<Upload>, delivered: Upload -> bool) returns (failed: seq<Upload>)
    ensures failed == Filter(queue, NotDelivered(delivered))
  {
    failed := [];
    var i := 0;
    while i < |queue|
      invariant 0 <= i <= |queue|
      invariant failed == Filter(queue[..i], NotDelivered(delivered))
    {
      assert queue[..i + 1] == queue[..i] + [queue[i]];
      FilterSnoc(queue[..i], queue[i], NotDelivered(delivered));
      if !delivered(queue[i]) {
        failed := failed + [queue[i]];
      }
      i := i + 1;
    }
    assert queue[..|queue|] == queue;
  }

  /** The local-storage queue and the sync-status indicator (absent from pages without one). */
  class OfflineStore {
    var pendingUploads: seq<Upload>
    var hasIndicator: bool
    var text: string
    var colour: Option<string>

    /** An empty queue (`'[]'` when nothing is stored). */
    constructor (hasIndicator: bool)
      ensures pendingUploads == [] && this.hasIndicator == hasIndicator && text == "" && colour == None
    {
      pendingUploads, this.hasIndicator, text, colour := [], hasIndicator, "", None;
    }

    /** `updateSyncStatus`: nothing happens without an indicator element. */
    method UpdateSyncStatus(status: string)
      modifies this
      ensures pendingUploads == old(pendingUploads) && hasIndicator == old(hasIndicator)
      ensures hasIndicator ==> (text, colour) == StatusDisplay(status, old(text))
      ensures !hasIndicator ==> text == old(text) && colour == old(colour)
    {
      if !hasIndicator {
        return;
      }
      colour := None;
      if status == "up-to-date" {
        text, colour := "Synced", Some("text-success");
      } else if status == "pending" {
        text, colour := "Pending Sync", Some("text-warning");
      } else if status == "syncing" {
        text, colour := "Syncing...", Some("text-info");
      } else if status == "error" {
        text, colour := "Sync Error", Some("text-danger");
      }
    }

    /** `storeFormData`: the form's entries become one upload at the end of the queue, and the status
        becomes 'pending'. */
    method StoreFormData(url: string, httpMethod: string, entries: seq<(string, string)>, timestamp: string)
      modifies this
      ensures pendingUploads == old(pendingUploads) + [Upload(url, httpMethod, EntriesObject(entries), timestamp)]
      ensures hasIndicator == old(hasIndicator)
      ensures hasIndicator ==> (text, colour) == StatusDisplay("pending", old(text))
      ensures !hasIndicator ==> text == old(text) && colour == old(colour)
    {
      var data := map[];
      var i := 0;
      while i < |entries|
        invariant 0 <= i <= |entries|
        invariant data == EntriesObject(entries[..i])
      {
        assert entries[..i + 1][..i] == entries[..i];
        data := data[entries[i].0 := entries[i].1];
        i := i + 1;
      }
      assert entries[..|entries|] == entries;
      pendingUploads := pendingUploads + [Upload(url, httpMethod, data, timestamp)];
      UpdateSyncStatus("pending");
    }

    /** `syncPendingUploads`: offline it does nothing; with an empty queue it only reports 'up-to-date';
        otherwise every upload is sent once, the queue keeps the failed ones in order, and the status
        is 'pending' if any failed and 'up-to-date' if none did. */
    method SyncPendingUploads(online: bool, delivered: Upload -> bool)
      modifies this
      ensures !online ==> pendingUploads == old(pendingUploads) && text == old(text) && colour == old(colour)
      ensures online ==> pendingUploads == Filter(old(pendingUploads), NotDelivered(delivered))
      ensures hasIndicator == old(hasIndicator)
      ensures online && hasIndicator ==>
                (text, colour) == StatusDisplay(if pendingUploads == [] then "up-to-date" else "pending", old(text))
      ensures online && !hasIndicator ==> text == old(text) && colour == old(colour)
    {
      if !online {
        return;
      }
      UpdateSyncStatus("syncing");
      var queue := pendingUploads;
      if |queue| == 0 {
        UpdateSyncStatus("up-to-date");
        return;
      }
      var failed := SendAll(queue, delivered);
      pendingUploads := failed;
      if |failed| > 0 {
        UpdateSyncStatus("pending");
      } else {
        UpdateSyncStatus("up-to-date");
      }
    }

    /** `getPendingUploadsCount`. */
    method GetPendingUploadsCount() returns (n: nat)
      ensures n == |pendingUploads|
    {
      n := |pendingUploads|;
    }
  }

  /** Storing while offline and then syncing with every upload failing keeps the stored upload at the end
      of the queue; a fully delivered sync empties it. */
  lemma StoreThenSync(q: seq<Upload>, u: Upload, delivered: Upload -> bool)
    ensures delivered(u) ==> Filter(q + [u], NotDelivered(delivered)) == Filter(q, NotDelivered(delivered))
    ensures !delivered(u) ==> Filter(q + [u], NotDelivered(delivered)) == Filter(q, NotDelivered(delivered)) + [u]
    ensures (forall x :: x in q + [u] ==> !delivered(x)) ==> Filter(q + [u], NotDelivered(delivered)) == q + [u]
  {
    FilterSnoc(q, u, NotDelivered(delivered));
    if forall x :: x in q + [u] ==> !delivered(x) {
      FilterAllKept(q + [u], NotDelivered(delivered));
    }
  }
}
