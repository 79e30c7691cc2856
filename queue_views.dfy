/** The derived views both dashboards compute from the entries they hold
    (`queueEntries`): per-barber lists, the Start gate, and the completed and
    no-show lists with their truncation. */
module QueueViews {
  import opened QueueModel
  import opened SeqUtil
  import opened QueueTable

  /** The sort key of `.order('queue_position')`. */
  function Position(e: Entry): int { e.position }

  /** The sort key of `sort((a, b) => b.created_at - a.created_at)`: newest first. */
  function NewestFirst(e: Entry): int { -e.createdAt }

  // ---------------------------------------------------------------------------
  // Per-barber views
  // ---------------------------------------------------------------------------

  /** The filter predicate of `barberQueue`. */
  function OfBarber(b: BarberId): Entry -> bool {
    (e: Entry) => AssignedTo(e, b)
  }

  /** `barberQueue`: the entries of the view assigned to barber `b`, each as many
      times as the view holds it; their order is the view's (`BarberViewsOfAppend`). */
  function BarberQueue(view: seq<Entry>, b: BarberId): (r: seq<Entry>)
    ensures forall x :: x in r <==> x in view && AssignedTo(x, b)
    ensures forall x :: multiset(r)[x] == if AssignedTo(x, b) then multiset(view)[x] else 0
    ensures SortedBy(view, Position) ==> SortedBy(r, Position)
  {
    FilterKeepsSorted(view, OfBarber(b), Position);
    FilterCounts(view, OfBarber(b));
    Filter(view, OfBarber(b))
  }

  /** `waitingForBarber`: barber `b`'s waiting entries, each as many times as the
      view holds it, in the order of the view, so in queue-position order when
      the view is. */
  function WaitingForBarber(view: seq<Entry>, b: BarberId): (r: seq<Entry>)
    ensures forall x :: x in r <==> x in view && WaitingFor(x, b)
    ensures forall x :: multiset(r)[x] == if WaitingFor(x, b) then multiset(view)[x] else 0
    ensures SortedBy(view, Position) ==> SortedBy(r, Position)
  {
    var q := BarberQueue(view, b);
    FilterKeepsSorted(q, IsWaiting, Position);
    FilterCounts(q, IsWaiting);
    Filter(q, IsWaiting)
  }

  /** Both per-barber lists keep or drop a single entry on its own merits. */
  lemma BarberViewsOfOne(x: Entry, b: BarberId)
    ensures BarberQueue([x], b) == if AssignedTo(x, b) then [x] else []
    ensures WaitingForBarber([x], b) == if WaitingFor(x, b) then [x] else []
  {
    FilterOne(x, OfBarber(b));
    FilterOne(x, IsWaiting);
  }

  /** Both per-barber lists of a view split where the view splits, so each keeps
      the view's order; with `BarberViewsOfOne` this fixes them completely. */
  lemma BarberViewsOfAppend(s: seq<Entry>, t: seq<Entry>, b: BarberId)
    ensures BarberQueue(s + t, b) == BarberQueue(s, b) + BarberQueue(t, b)
    ensures WaitingForBarber(s + t, b) == WaitingForBarber(s, b) + WaitingForBarber(t, b)
  {
    FilterAppend(s, t, OfBarber(b));
    FilterAppend(BarberQueue(s, b), BarberQueue(t, b), IsWaiting);
  }

  predicate IsWaiting(e: Entry) { e.status == Waiting }

  /** The index `find` stops at: the first entry being served, or `|s|` when none is. */
  function FirstInProgressIndex(s: seq<Entry>): (i: nat)
    ensures i <= |s|
    ensures forall j :: 0 <= j < i ==> s[j].status != InProgress
    ensures i < |s| ==> s[i].status == InProgress
  {
    if s == [] || s[0].status == InProgress then 0
    else
      var i := FirstInProgressIndex(s[1..]);
      assert forall j :: 0 < j < i + 1 ==> s[j] == s[1..][j - 1];
      i + 1
  }

  /** `find(entry => entry.status === 'in_progress')`: the first entry being served. */
  function FirstInProgress(s: seq<Entry>): (r: Option<Entry>)
    ensures r.None? <==> forall x :: x in s ==> x.status != InProgress
    ensures r.Some? ==> exists i :: 0 <= i < |s| && s[i] == r.value && r.value.status == InProgress
                                     && forall j :: 0 <= j < i ==> s[j].status != InProgress
  {
    var i := FirstInProgressIndex(s);
    if i == |s| then None else Some(s[i])
  }

  /** `inProgressWithBarber`: the entry barber `b` is serving, as the view shows
      it: the first of `b`'s in-progress entries in view order. */
  function InProgressWithBarber(view: seq<Entry>, b: BarberId): (r: Option<Entry>)
    ensures r.None? <==> forall x :: x in view && AssignedTo(x, b) ==> x.status != InProgress
    ensures r.Some? ==> r.value in view && AssignedTo(r.value, b) && r.value.status == InProgress
    ensures r.Some? ==> var q := BarberQueue(view, b);
                        exists i :: 0 <= i < |q| && q[i] == r.value
                                    && forall j :: 0 <= j < i ==> q[j].status != InProgress
  {
    FirstInProgress(BarberQueue(view, b))
  }

  /** The Start button of barber `b`'s waiting entries is enabled exactly when the
      view shows no entry of `b` in progress and the trial quota is not used up:
      `disabled={!!inProgressWithBarber || (isTrial && trialUsages <= 0)}`. */
  predicate StartEnabled(view: seq<Entry>, b: BarberId, trial: bool, usages: int): (ok: bool)
    ensures ok <==> (forall x :: x in view && AssignedTo(x, b) ==> x.status != InProgress)
                    && !(trial && usages <= 0)
  {
    InProgressWithBarber(view, b).None? && !(trial && usages <= 0)
  }

  /** The Start gate as the dashboard evaluates it for a shop and a billable count. */
  predicate StartEnabledFor(view: seq<Entry>, b: BarberId, shop: Shop, billableCount: int): (ok: bool)
    ensures ok ==> !TrialExhausted(shop.subscription, billableCount)
  {
    StartEnabled(view, b, IsTrial(shop.subscription), TrialUsages(billableCount))
  }

  /** Starting a waiting entry through an enabled Start button keeps "at most one
      entry in progress per barber", provided the view shows every entry that
      barber is serving and the entry's row is as the view shows it. */
  lemma {:induction false} GatedStartKeepsSingleService(
    rows: seq<Entry>, view: seq<Entry>, e: Entry, b: BarberId, trial: bool, usages: int)
    requires UniqueIds(rows) && SingleServicePerBarber(rows)
    requires e in rows && e in WaitingForBarber(view, b)
    requires StartEnabled(view, b, trial, usages)
    requires forall x :: x in rows && AssignedTo(x, b) && x.status == InProgress ==> x in view
    ensures SingleServicePerBarber(WithStatus(rows, e.id, InProgress))
  {
    var k :| 0 <= k < |rows| && rows[k] == e;
    assert forall x :: x in rows && AssignedTo(x, b) ==> x.status != InProgress;
    StartFreeBarberKeepsSingleService(rows, k, b);
  }

  /** In a view sorted by position, an entry that is strictly ahead of every other
      waiting entry of barber `b` heads `b`'s waiting list. */
  lemma {:induction false} FrontEntryHeadsWaitingList(view: seq<Entry>, x: Entry, b: BarberId)
    requires SortedBy(view, Position)
    requires x in view && WaitingFor(x, b)
    requires forall y :: y in view && WaitingFor(y, b) && y != x ==> x.position < y.position
    ensures WaitingForBarber(view, b) != [] && WaitingForBarber(view, b)[0] == x
  {
    var w := WaitingForBarber(view, b);
    assert x in w;
    var k :| 0 <= k < |w| && w[k] == x;
    assert w[0] in w;
    assert k == 0 || Position(w[0]) <= Position(w[k]);
  }

  /** After a requeue for barber `b`, the requeued row heads `b`'s waiting list in
      any position-sorted view drawn from the updated table that shows it. */
  lemma {:induction false} RequeuedRowHeadsWaitingList(rows: seq<Entry>, k: nat, b: BarberId, view: seq<Entry>)
    requires UniqueIds(rows) && k < |rows| && AssignedTo(rows[k], b)
    requires var after := WithRequeue(rows, rows[k].id, RequeuePosition(rows, b));
             && SortedBy(view, Position)
             && (forall y :: y in view ==> y in after)
             && Requeued(rows[k], RequeuePosition(rows, b)) in view
    ensures var w := WaitingForBarber(view, b);
            w != [] && w[0] == Requeued(rows[k], RequeuePosition(rows, b))
  {
    var id := rows[k].id;
    var p := RequeuePosition(rows, b);
    var x := Requeued(rows[k], p);
    RequeueGoesToFront(rows, id, b);
    RequeuedRowIsUnique(rows, k, p);
    assert forall y :: y in view && WaitingFor(y, b) && y != x ==> x.position < y.position;
    FrontEntryHeadsWaitingList(view, x, b);
  }

  // ---------------------------------------------------------------------------
  // The shop's unfinished entries (the waitwise live-queue query)
  // ---------------------------------------------------------------------------

  /** `.eq('shop_id', shopId).in('status', ['waiting', 'in_progress'])
      .order('queue_position')`: exactly the shop's waiting and in-progress entries,
      each as many times as the table holds it, sorted by queue position. */
  function ActiveQueue(rows: seq<Entry>, shopId: ShopId): (r: seq<Entry>)
    ensures forall x :: x in r <==> x in rows && x.shopId == shopId && IsActive(x)
    ensures forall x :: multiset(r)[x] == if x.shopId == shopId && IsActive(x) then multiset(rows)[x] else 0
    ensures SortedBy(r, Position)
  {
    var p := (e: Entry) => e.shopId == shopId && IsActive(e);
    FilterCounts(rows, p);
    SortBy(Filter(rows, p), Position)
  }

  /** When all of barber `b`'s entries belong to the shop, the shop's active queue
      shows every entry `b` is serving. */
  lemma ActiveQueueShowsServing(rows: seq<Entry>, shopId: ShopId, b: BarberId)
    requires forall x :: x in rows && AssignedTo(x, b) ==> x.shopId == shopId
    ensures forall x :: x in rows && AssignedTo(x, b) && x.status == InProgress ==> x in ActiveQueue(rows, shopId)
  {
  }

  // ---------------------------------------------------------------------------
  // Completed and no-show lists
  // ---------------------------------------------------------------------------

  /** `fullCompletedList`: the view's done entries, newest first. */
  function FullCompletedList(view: seq<Entry>): (r: seq<Entry>)
    ensures forall x :: x in r <==> x in view && x.status == Done
    ensures SortedBy(r, NewestFirst)
    ensures multiset(r) == multiset(Filter(view, IsDone))
  {
    SortBy(Filter(view, IsDone), NewestFirst)
  }

  /** `fullNoShowList`: the view's no-show entries, newest first. */
  function FullNoShowList(view: seq<Entry>): (r: seq<Entry>)
    ensures forall x :: x in r <==> x in view && x.status == NoShow
    ensures SortedBy(r, NewestFirst)
    ensures multiset(r) == multiset(Filter(view, IsNoShow))
  {
    SortBy(Filter(view, IsNoShow), NewestFirst)
  }

  /** How many entries a collapsed list shows: `slice(0, 5)`. */
  const VisibleLimit: nat := 5

  /** `visibleCompletedList` / `visibleNoShowList`: the whole list when expanded,
      otherwise its first five entries. */
  function VisibleList(full: seq<Entry>, showAll: bool): (r: seq<Entry>)
    ensures r <= full
    ensures |r| == if showAll || |full| <= VisibleLimit then |full| else VisibleLimit
  {
    if showAll || |full| <= VisibleLimit then full else full[..VisibleLimit]
  }

  /** The "See all" link: `full.length > 5 && !showAll`. It appears exactly when the
      collapsed list hides some entry. */
  predicate SeeAllShown(full: seq<Entry>, showAll: bool): (b: bool)
    ensures b <==> |VisibleList(full, showAll)| < |full|
  {
    |full| > VisibleLimit && !showAll
  }
}
