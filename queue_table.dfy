/** The `queue_entries` and `billable_events` tables as values, the row updates
    the dashboard handlers issue against them, and the queries they read. */
module QueueTable {
  import opened QueueModel

  // ---------------------------------------------------------------------------
  // Row updates: `update(...).eq('id', id)` and `delete().eq('id', id)`
  // ---------------------------------------------------------------------------

  /** Applies `f` to every row whose id is `id`, and to no other row. */
  function UpdateRows(rows: seq<Entry>, id: EntryId, f: Entry -> Entry): (r: seq<Entry>)
    ensures |r| == |rows|
    ensures forall i :: 0 <= i < |rows| ==> r[i] == if rows[i].id == id then f(rows[i]) else rows[i]
  {
    if rows == [] then []
    else [if rows[0].id == id then f(rows[0]) else rows[0]] + UpdateRows(rows[1..], id, f)
  }

  /** `update({ status })`: only the status of the addressed row changes. */
  function WithStatus(rows: seq<Entry>, id: EntryId, s: Status): (r: seq<Entry>)
    ensures |r| == |rows|
    ensures forall i :: 0 <= i < |rows| ==> r[i] == if rows[i].id == id then rows[i].(status := s) else rows[i]
  {
    UpdateRows(rows, id, (e: Entry) => e.(status := s))
  }

  /** The row a requeue writes: waiting again, at position `p`. */
  function Requeued(e: Entry, p: int): Entry {
    e.(status := Waiting, position := p)
  }

  /** `update({ status: 'waiting', queue_position })`: only those two fields of the
      addressed row change. */
  function WithRequeue(rows: seq<Entry>, id: EntryId, p: int): (r: seq<Entry>)
    ensures |r| == |rows|
    ensures forall i :: 0 <= i < |rows| ==> r[i] == if rows[i].id == id then Requeued(rows[i], p) else rows[i]
  {
    UpdateRows(rows, id, e => Requeued(e, p))
  }

  /** `update({ barber_id })`: only the barber of the addressed row changes (the
      joined record follows the new id). */
  function WithBarber(rows: seq<Entry>, id: EntryId, b: Barber): (r: seq<Entry>)
    ensures |r| == |rows|
    ensures forall i :: 0 <= i < |rows| ==> r[i] == if rows[i].id == id then rows[i].(barber := Some(b)) else rows[i]
  {
    UpdateRows(rows, id, (e: Entry) => e.(barber := Some(b)))
  }

  /** `delete().eq('id', id)`: the addressed row goes, every other row stays, in
      order (`WithoutEntryAppend`). */
  function WithoutEntry(rows: seq<Entry>, id: EntryId): (r: seq<Entry>)
    ensures |r| <= |rows|
    ensures forall x :: x in r <==> x in rows && x.id != id
  {
    if rows == [] then []
    else (if rows[0].id == id then [] else [rows[0]]) + WithoutEntry(rows[1..], id)
  }

  /** Deleting splits over concatenation, so the remaining rows keep their order. */
  lemma {:induction false} WithoutEntryAppend(s: seq<Entry>, t: seq<Entry>, id: EntryId)
    ensures WithoutEntry(s + t, id) == WithoutEntry(s, id) + WithoutEntry(t, id)
  {
    if s == [] {
      assert s + t == t;
    } else {
      assert (s + t)[0] == s[0] && (s + t)[1..] == s[1..] + t;
      WithoutEntryAppend(s[1..], t, id);
    }
  }

  lemma TailKeepsUniqueIds(rows: seq<Entry>)
    requires rows != [] && UniqueIds(rows)
    ensures UniqueIds(rows[1..])
    ensures forall x :: x in rows[1..] ==> x.id != rows[0].id
  {
    forall x | x in rows[1..] ensures x.id != rows[0].id {
      var k :| 0 <= k < |rows[1..]| && rows[1..][k] == x;
      assert rows[k + 1] == x;
    }
  }

  lemma ConsKeepsUniqueIds(h: Entry, t: seq<Entry>)
    requires UniqueIds(t)
    requires forall y :: y in t ==> y.id != h.id
    ensures UniqueIds([h] + t)
  {
    var r := [h] + t;
    forall i, j | 0 <= i < j < |r| ensures r[i].id != r[j].id {
      assert r[j] == t[j - 1];
      if i == 0 {
        assert t[j - 1] in t;
      } else {
        assert r[i] == t[i - 1];
      }
    }
  }

  /** Deleting keeps the ids unique. */
  lemma {:induction false} WithoutEntryKeepsUniqueIds(rows: seq<Entry>, id: EntryId)
    requires UniqueIds(rows)
    ensures UniqueIds(WithoutEntry(rows, id))
  {
    if rows != [] {
      TailKeepsUniqueIds(rows);
      WithoutEntryKeepsUniqueIds(rows[1..], id);
      if rows[0].id != id {
        ConsKeepsUniqueIds(rows[0], WithoutEntry(rows[1..], id));
      }
    }
  }

  /** Deleting an absent id leaves the table as it is. */
  lemma {:induction false} WithoutAbsentEntry(rows: seq<Entry>, id: EntryId)
    requires forall x :: x in rows ==> x.id != id
    ensures WithoutEntry(rows, id) == rows
  {
    if rows != [] {
      assert rows[0] in rows;
      assert forall x :: x in rows[1..] ==> x in rows;
      WithoutAbsentEntry(rows[1..], id);
      assert WithoutEntry(rows, id) == [rows[0]] + WithoutEntry(rows[1..], id);
      assert rows == [rows[0]] + rows[1..];
    }
  }

  /** With unique ids, deleting a present id removes exactly one row. */
  lemma {:induction false} WithoutEntryRemovesOne(rows: seq<Entry>, k: nat)
    requires UniqueIds(rows) && k < |rows|
    ensures |WithoutEntry(rows, rows[k].id)| == |rows| - 1
  {
    TailKeepsUniqueIds(rows);
    if k == 0 {
      WithoutAbsentEntry(rows[1..], rows[0].id);
    } else {
      assert rows[1..][k - 1] == rows[k];
      WithoutEntryRemovesOne(rows[1..], k - 1);
    }
  }

  // ---------------------------------------------------------------------------
  // The requeue query and position rule
  // ---------------------------------------------------------------------------

  /** The queue position of barber `b`'s first waiting entry (`.eq('barber_id', b)
      .eq('status', 'waiting').order('queue_position').limit(1)`), or `None` when
      `b` has no waiting entry. */
  function MinWaitingPosition(rows: seq<Entry>, b: BarberId): (m: Option<int>)
    ensures m.None? <==> forall x :: x in rows ==> !WaitingFor(x, b)
    ensures m.Some? ==> exists x :: x in rows && WaitingFor(x, b) && x.position == m.value
    ensures m.Some? ==> forall x :: x in rows && WaitingFor(x, b) ==> m.value <= x.position
  {
    if rows == [] then None
    else
      var rest := MinWaitingPosition(rows[1..], b);
      assert rows == [rows[0]] + rows[1..];
      if WaitingFor(rows[0], b) then
        if rest.Some? && rest.value < rows[0].position then rest else Some(rows[0].position)
      else rest
  }

  /** `newPosition`: one in front of barber `b`'s first waiting entry, or 1 when
      `b` has none. It may be zero or negative; positions are never renumbered. */
  function RequeuePosition(rows: seq<Entry>, b: BarberId): (p: int)
    ensures forall x :: x in rows && WaitingFor(x, b) ==> p < x.position
    ensures (exists x :: x in rows && WaitingFor(x, b)) ==>
              exists x :: x in rows && WaitingFor(x, b) && p == x.position - 1
    ensures (forall x :: x in rows ==> !WaitingFor(x, b)) ==> p == 1
  {
    match MinWaitingPosition(rows, b)
    case Some(m) => m - 1
    case None => 1
  }

  /** With unique ids, the requeued row is the only row left with its id. */
  lemma RequeuedRowIsUnique(rows: seq<Entry>, k: nat, p: int)
    requires UniqueIds(rows) && k < |rows|
    ensures forall y :: y in WithRequeue(rows, rows[k].id, p) && y.id == rows[k].id ==> y == Requeued(rows[k], p)
  {
    var after := WithRequeue(rows, rows[k].id, p);
    forall y | y in after && y.id == rows[k].id ensures y == Requeued(rows[k], p) {
      var j :| 0 <= j < |after| && after[j] == y;
      assert j == k;
    }
  }

  /** After a requeue for barber `b`, the requeued row is strictly ahead of every
      other waiting row of `b`. */
  lemma {:induction false} RequeueGoesToFront(rows: seq<Entry>, id: EntryId, b: BarberId)
    ensures var p := RequeuePosition(rows, b);
            var after := WithRequeue(rows, id, p);
            forall y :: y in after && WaitingFor(y, b) && y.id != id ==> p < y.position
  {
    var p := RequeuePosition(rows, b);
    var after := WithRequeue(rows, id, p);
    forall y | y in after && WaitingFor(y, b) && y.id != id ensures p < y.position {
      var k :| 0 <= k < |after| && after[k] == y;
      assert rows[k] == y && y in rows;
    }
  }

  // ---------------------------------------------------------------------------
  // The single-service invariant under each update
  // ---------------------------------------------------------------------------

  /** Marking a row anything but `in_progress` never creates a second service. */
  lemma {:induction false} NonStartKeepsSingleService(rows: seq<Entry>, id: EntryId, s: Status)
    requires SingleServicePerBarber(rows) && s != InProgress
    ensures SingleServicePerBarber(WithStatus(rows, id, s))
  {
    var r := WithStatus(rows, id, s);
    forall i, j | 0 <= i < j < |r| && r[i].status == InProgress && r[j].status == InProgress
                  && r[i].barber.Some? && r[j].barber.Some?
      ensures r[i].barber.value.id != r[j].barber.value.id
    {
      assert r[i] == rows[i] && r[j] == rows[j];
    }
  }

  /** A requeue makes its row waiting, so it keeps the invariant. */
  lemma {:induction false} RequeueKeepsSingleService(rows: seq<Entry>, id: EntryId, p: int)
    requires SingleServicePerBarber(rows)
    ensures SingleServicePerBarber(WithRequeue(rows, id, p))
  {
    var r := WithRequeue(rows, id, p);
    forall i, j | 0 <= i < j < |r| && r[i].status == InProgress && r[j].status == InProgress
                  && r[i].barber.Some? && r[j].barber.Some?
      ensures r[i].barber.value.id != r[j].barber.value.id
    {
      assert r[i] == rows[i] && r[j] == rows[j];
    }
  }

  /** Reassigning a row that is not being served keeps the invariant; reassigning
      an `in_progress` row is not checked and can break it. */
  lemma {:induction false} ReassignKeepsSingleService(rows: seq<Entry>, id: EntryId, b: Barber)
    requires SingleServicePerBarber(rows)
    requires forall k :: 0 <= k < |rows| && rows[k].id == id ==> rows[k].status != InProgress
    ensures SingleServicePerBarber(WithBarber(rows, id, b))
  {
    var r := WithBarber(rows, id, b);
    forall i, j | 0 <= i < j < |r| && r[i].status == InProgress && r[j].status == InProgress
                  && r[i].barber.Some? && r[j].barber.Some?
      ensures r[i].barber.value.id != r[j].barber.value.id
    {
      assert r[i] == rows[i] && r[j] == rows[j];
    }
  }

  lemma ReassignServingRowBreaksSingleService()
    ensures var bo := Barber("b1", "Bo");
            var rows := [Entry("e1", "s", 1, InProgress, Some(bo), 0, None),
                         Entry("e2", "s", 2, InProgress, Some(Barber("b2", "Al")), 0, None)];
            SingleServicePerBarber(rows) && !SingleServicePerBarber(WithBarber(rows, "e2", bo))
  {
    var bo := Barber("b1", "Bo");
    var rows := [Entry("e1", "s", 1, InProgress, Some(bo), 0, None),
                 Entry("e2", "s", 2, InProgress, Some(Barber("b2", "Al")), 0, None)];
    var r := WithBarber(rows, "e2", bo);
    assert r[0] == rows[0] && r[1] == rows[1].(barber := Some(bo));
  }

  /** Starting a row of a barber who serves no one keeps the invariant. */
  lemma {:induction false} StartFreeBarberKeepsSingleService(rows: seq<Entry>, k: nat, b: BarberId)
    requires UniqueIds(rows) && SingleServicePerBarber(rows)
    requires k < |rows| && AssignedTo(rows[k], b)
    requires forall x :: x in rows && AssignedTo(x, b) ==> x.status != InProgress
    ensures SingleServicePerBarber(WithStatus(rows, rows[k].id, InProgress))
  {
    var r := WithStatus(rows, rows[k].id, InProgress);
    forall i, j | 0 <= i < j < |r| && r[i].status == InProgress && r[j].status == InProgress
                  && r[i].barber.Some? && r[j].barber.Some?
      ensures r[i].barber.value.id != r[j].barber.value.id
    {
      if i == k {
        assert r[j] == rows[j] && rows[j] in rows;
      } else if j == k {
        assert r[i] == rows[i] && rows[i] in rows;
      } else {
        assert r[i] == rows[i] && r[j] == rows[j];
      }
    }
  }

  /** Two rows the same barber is serving at once. */
  predicate Conflict(a: Entry, b: Entry) {
    a.status == InProgress && b.status == InProgress && a.barber.Some? && b.barber.Some?
    && a.barber.value.id == b.barber.value.id
  }

  /** The invariant splits into the head against the tail, and the tail. */
  lemma SingleServiceTail(rows: seq<Entry>)
    requires rows != [] && SingleServicePerBarber(rows)
    ensures SingleServicePerBarber(rows[1..])
    ensures forall y :: y in rows[1..] ==> !Conflict(rows[0], y)
  {
    var t := rows[1..];
    forall i, j | 0 <= i < j < |t| && t[i].status == InProgress && t[j].status == InProgress
                  && t[i].barber.Some? && t[j].barber.Some?
      ensures t[i].barber.value.id != t[j].barber.value.id
    {
      assert t[i] == rows[i + 1] && t[j] == rows[j + 1];
    }
    forall y | y in t ensures !Conflict(rows[0], y) {
      var k :| 0 <= k < |t| && t[k] == y;
      assert rows[k + 1] == y;
    }
  }

  /** A head that conflicts with no row of a conflict-free tail keeps it so. */
  lemma SingleServiceCons(h: Entry, t: seq<Entry>)
    requires SingleServicePerBarber(t)
    requires forall y :: y in t ==> !Conflict(h, y)
    ensures SingleServicePerBarber([h] + t)
  {
    var r := [h] + t;
    forall i, j | 0 <= i < j < |r| && r[i].status == InProgress && r[j].status == InProgress
                  && r[i].barber.Some? && r[j].barber.Some?
      ensures r[i].barber.value.id != r[j].barber.value.id
    {
      assert r[j] == t[j - 1];
      if i == 0 {
        assert t[j - 1] in t;
      } else {
        assert r[i] == t[i - 1];
      }
    }
  }

  /** Deleting a row keeps the invariant. */
  lemma {:induction false} DeleteKeepsSingleService(rows: seq<Entry>, id: EntryId)
    requires SingleServicePerBarber(rows)
    ensures SingleServicePerBarber(WithoutEntry(rows, id))
  {
    if rows != [] {
      SingleServiceTail(rows);
      DeleteKeepsSingleService(rows[1..], id);
      if rows[0].id != id {
        SingleServiceCons(rows[0], WithoutEntry(rows[1..], id));
      }
    }
  }

  // ---------------------------------------------------------------------------
  // Billable events
  // ---------------------------------------------------------------------------

  /** The billable-events count query for a shop (`.eq('shop_id', shopId)`; the
      month filter on `created_at` is not modelled). */
  function BillableCount(events: seq<BillableEvent>, shopId: ShopId): (r: nat)
    ensures r <= |events|
    ensures (forall ev :: ev in events ==> ev.shopId != shopId) ==> r == 0
  {
    if events == [] then 0
    else
      assert forall ev :: ev in events[1..] ==> ev in events;
      (if events[0].shopId == shopId then 1 else 0) + BillableCount(events[1..], shopId)
  }

  /** Appending one event of a shop raises that shop's count by exactly one and
      leaves every other shop's count alone. */
  lemma {:induction false} BillableCountAppend(events: seq<BillableEvent>, ev: BillableEvent, shopId: ShopId)
    ensures BillableCount(events + [ev], shopId)
            == BillableCount(events, shopId) + (if ev.shopId == shopId then 1 else 0)
  {
    if events != [] {
      assert (events + [ev])[1..] == events[1..] + [ev];
      BillableCountAppend(events[1..], ev, shopId);
    }
  }
}
