/** The queue handlers of the dashboard, as steps against the store's tables. The
    store (`queue_entries`, `billable_events`) and the session's billable counter
    are the fields of one object; each handler reads and then writes them in the
    order the page does. A failing store call is an input flag. */
module Dashboard {
  import opened QueueModel
  import opened QueueTable

  datatype RequeueResult =
    | RequeuedAt(position: int) // the update was issued at this position
    | NoBarberAssigned          // "This client has no assigned barber and cannot be re-queued."
    | QueueUnavailable          // the position query failed; nothing was written
    | RequeueFailed             // the update failed

  class Session {
    /** The store's `queue_entries` table. */
    var rows: seq<Entry>
    /** The store's append-only `billable_events` table. */
    var events: seq<BillableEvent>
    /** `billableEventsCount`: this month's billable events as the session counts them. */
    var billableCount: int
    /** The signed-in owner's shop. */
    const shop: Option<Shop>

    ghost predicate Valid()
      reads this
    {
      UniqueIds(rows)
    }

    constructor (shop: Option<Shop>, rows: seq<Entry>, events: seq<BillableEvent>, billableCount: int)
      requires UniqueIds(rows)
      ensures Valid()
      ensures this.shop == shop && this.rows == rows && this.events == events
      ensures this.billableCount == billableCount
    {
      this.shop := shop;
      this.rows := rows;
      this.events := events;
      this.billableCount := billableCount;
    }

    /** `handleRequeue(entry)`: refuses an entry without a barber id; otherwise reads
        the barber's first waiting position, then writes the entry back as waiting
        one place in front of it (or at 1). */
    method Requeue(entry: Entry, queryFails: bool, updateFails: bool) returns (result: RequeueResult)
      requires Valid()
      modifies this`rows
      ensures Valid()
      ensures entry.barber.None? || entry.barber.value.id == "" ==>
                result == NoBarberAssigned && rows == old(rows)
      ensures entry.barber.Some? && entry.barber.value.id != "" && queryFails ==>
                result == QueueUnavailable && rows == old(rows)
      ensures entry.barber.Some? && entry.barber.value.id != "" && !queryFails ==>
                var p := RequeuePosition(old(rows), entry.barber.value.id);
                && (updateFails ==> result == RequeueFailed && rows == old(rows))
                && (!updateFails ==> result == RequeuedAt(p) && rows == WithRequeue(old(rows), entry.id, p))
    {
      if entry.barber.None? || entry.barber.value.id == "" {
        return NoBarberAssigned;
      }
      if queryFails {
        return QueueUnavailable;
      }
      var newPosition := RequeuePosition(rows, entry.barber.value.id);
      if updateFails {
        return RequeueFailed;
      }
      rows := WithRequeue(rows, entry.id, newPosition);
      result := RequeuedAt(newPosition);
    }

    /** `handleUpdateStatus(id, newStatus)`: for `done`, first inserts one billable
        event (a failed insert only warns), then updates the status whatever the
        insert did. The status update's own error is ignored. No precondition on
        the entry's current status is checked. */
    method UpdateStatus(id: EntryId, newStatus: Status, insertFails: bool, updateFails: bool)
      returns (billingWarning: bool)
      requires Valid()
      modifies this`rows, this`events
      ensures Valid()
      ensures billingWarning <==> newStatus == Done && shop.Some? && insertFails
      ensures events == old(events) +
                (if newStatus == Done && shop.Some? && !insertFails
                 then [BillableEvent(shop.value.id, id)] else [])
      ensures newStatus == Done && shop.Some? && !insertFails ==>
                BillableCount(events, shop.value.id) == BillableCount(old(events), shop.value.id) + 1
      ensures rows == if updateFails then old(rows) else WithStatus(old(rows), id, newStatus)
    {
      billingWarning := false;
      if newStatus == Done && shop.Some? {
        if insertFails {
          billingWarning := true;
        } else {
          BillableCountAppend(events, BillableEvent(shop.value.id, id), shop.value.id);
          events := events + [BillableEvent(shop.value.id, id)];
        }
      }
      if !updateFails {
        rows := WithStatus(rows, id, newStatus);
      }
    }

    /** `handleUpdateQueueEntry()`: with an entry open in the edit dialog, sets its
        barber to the one chosen; the dialog closes only on success. */
    method ReassignBarber(editing: Option<Entry>, chosen: Barber, updateFails: bool)
      returns (dialogClosed: bool)
      requires Valid()
      modifies this`rows
      ensures Valid()
      ensures dialogClosed <==> editing.Some? && !updateFails
      ensures rows == if dialogClosed then WithBarber(old(rows), editing.value.id, chosen) else old(rows)
    {
      if editing.None? {
        return false;
      }
      if updateFails {
        return false;
      }
      rows := WithBarber(rows, editing.value.id, chosen);
      dialogClosed := true;
    }

    /** `handleDeleteFromQueue(id)`: unless the owner confirms, nothing happens;
        otherwise the row is removed for good, and a failure leaves the table as
        it was. */
    method DeleteEntry(id: EntryId, confirmed: bool, deleteFails: bool) returns (deleted: bool)
      requires Valid()
      modifies this`rows
      ensures Valid()
      ensures deleted <==> confirmed && !deleteFails
      ensures rows == if deleted then WithoutEntry(old(rows), id) else old(rows)
    {
      if !confirmed || deleteFails {
        return false;
      }
      WithoutEntryKeepsUniqueIds(rows, id);
      rows := WithoutEntry(rows, id);
      deleted := true;
    }

    /** The change-feed callback for an inserted billable event of this shop:
        `setBillableEventsCount(currentCount => currentCount + 1)`. */
    method OnBillableEventInserted()
      modifies this`billableCount
      ensures billableCount == old(billableCount) + 1
    {
      billableCount := billableCount + 1;
    }
  }
}
