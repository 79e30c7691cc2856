/** What the waitwise dashboard adds to the shared queue model: its live-queue
    query, the barber colour map, and what its views promise. */
module Waitwise {
  import opened QueueModel
  import opened SeqUtil
  import opened QueueTable
  import opened QueueViews

  /** `fetchQueueData`: on success the entries become the shop's active queue; a
      failed query logs and leaves the entries as they were. */
  function FetchQueueData(previous: seq<Entry>, rows: seq<Entry>, shopId: ShopId, queryFails: bool): (r: seq<Entry>)
    ensures queryFails ==> r == previous
    ensures !queryFails ==> (forall x :: x in r <==> x in rows && x.shopId == shopId && IsActive(x))
                            && (forall x :: multiset(r)[x] == if x.shopId == shopId && IsActive(x)
                                                               then multiset(rows)[x] else 0)
                            && SortedBy(r, Position)
  {
    if queryFails then previous else ActiveQueue(rows, shopId)
  }

  /** The chart colours, assigned to barbers by roster index. */
  const Palette: seq<string> := ["#FF6384", "#36A2EB", "#FFCE56", "#4BC0C0", "#9966FF", "#FF9F40"]

  /** No barber of `barbers[..n]` after index `i` has barber `i`'s name, so `i`'s
      colour is the one left for that name once `n` barbers are placed. */
  predicate LastWithName(barbers: seq<Barber>, i: int, n: int)
    requires 0 <= i < n <= |barbers|
  {
    forall j :: i < j < n ==> barbers[j].name != barbers[i].name
  }

  /** A barber that is last with its name among `n + 1` barbers is so among `n`,
      and barber `n` has another name. */
  lemma LastWithNameShrinks(barbers: seq<Barber>, i: int, n: int)
    requires 0 <= i < n < |barbers| && LastWithName(barbers, i, n + 1)
    ensures LastWithName(barbers, i, n) && barbers[n].name != barbers[i].name
  {
  }

  /** The `forEach` of `barberColorMap` with the colour list as a parameter:
      barber `i`'s name is set to colour `i mod |palette|`, a later barber with the
      same name overwriting an earlier one. */
  method AssignColors(barbers: seq<Barber>, palette: seq<string>) returns (colors: map<string, string>)
    requires palette != []
    ensures colors.Keys == RosterNames(barbers)
    ensures forall i :: 0 <= i < |barbers| && LastWithName(barbers, i, |barbers|) ==>
              colors[barbers[i].name] == palette[i % |palette|]
  {
    colors := map[];
    for n := 0 to |barbers|
      invariant forall i :: 0 <= i < n ==> barbers[i].name in colors
      invariant forall name :: name in colors ==> exists i :: 0 <= i < n && barbers[i].name == name
      invariant forall i :: 0 <= i < n && LastWithName(barbers, i, n) ==>
                  colors[barbers[i].name] == palette[i % |palette|]
    {
      colors := colors[barbers[n].name := palette[n % |palette|]];
      forall i | 0 <= i < n && LastWithName(barbers, i, n + 1)
        ensures colors[barbers[i].name] == palette[i % |palette|]
      {
        LastWithNameShrinks(barbers, i, n);
      }
    }
  }

  /** `barberColorMap`: every roster name gets the colour of its index mod 6; when
      two barbers share a name, the later one's colour wins. */
  method BarberColorMap(barbers: seq<Barber>) returns (colors: map<string, string>)
    ensures colors.Keys == RosterNames(barbers)
    ensures forall i :: 0 <= i < |barbers| && LastWithName(barbers, i, |barbers|) ==>
              colors[barbers[i].name] == Palette[i % 6]
  {
    colors := AssignColors(barbers, Palette);
  }

  /** After a requeue, the requeued client heads their barber's waiting list on
      the live view, provided they belong to the shop. */
  lemma RequeuedClientHeadsLiveQueue(rows: seq<Entry>, shopId: ShopId, k: nat, b: BarberId)
    requires UniqueIds(rows) && k < |rows|
    requires AssignedTo(rows[k], b) && rows[k].shopId == shopId
    ensures var p := RequeuePosition(rows, b);
            var w := WaitingForBarber(ActiveQueue(WithRequeue(rows, rows[k].id, p), shopId), b);
            w != [] && w[0] == Requeued(rows[k], p)
  {
    var p := RequeuePosition(rows, b);
    var after := WithRequeue(rows, rows[k].id, p);
    assert after[k] == Requeued(rows[k], p);
    RequeuedRowHeadsWaitingList(rows, k, b, ActiveQueue(after, shopId));
  }

  /** Starting a client through an enabled Start button keeps at most one client
      in progress per barber, as long as the barber's entries all belong to the
      shop (so the live view shows everything the barber is serving). */
  lemma StartUnderGateKeepsSingleService(rows: seq<Entry>, shop: Shop, billableCount: int, e: Entry, b: BarberId)
    requires UniqueIds(rows) && SingleServicePerBarber(rows)
    requires forall x :: x in rows && AssignedTo(x, b) ==> x.shopId == shop.id
    requires e in WaitingForBarber(ActiveQueue(rows, shop.id), b)
    requires StartEnabledFor(ActiveQueue(rows, shop.id), b, shop, billableCount)
    ensures SingleServicePerBarber(WithStatus(rows, e.id, InProgress))
  {
    var view := ActiveQueue(rows, shop.id);
    ActiveQueueShowsServing(rows, shop.id, b);
    GatedStartKeepsSingleService(rows, view, e, b, IsTrial(shop.subscription), TrialUsages(billableCount));
  }

  /** The live view holds only waiting and in-progress entries, so the completed
      and no-show lists computed from it are always empty. */
  lemma CompletedAndNoShowListsAlwaysEmpty(rows: seq<Entry>, shopId: ShopId)
    ensures FullCompletedList(ActiveQueue(rows, shopId)) == []
    ensures FullNoShowList(ActiveQueue(rows, shopId)) == []
  {
    var view := ActiveQueue(rows, shopId);
    assert forall x :: x in view ==> IsActive(x);
    NothingFinishedListsNothing(view);
  }

  /** A view of unfinished entries gives empty completed and no-show lists. */
  lemma NothingFinishedListsNothing(view: seq<Entry>)
    requires forall x :: x in view ==> IsActive(x)
    ensures FullCompletedList(view) == [] && FullNoShowList(view) == []
  {
    FilterNone(view, IsDone);
    FilterNone(view, IsNoShow);
    assert |FullCompletedList(view)| == |multiset(Filter(view, IsDone))| == 0;
    assert |FullNoShowList(view)| == |multiset(Filter(view, IsNoShow))| == 0;
  }

  /** An entry created on the day that starts at `dayStart` and ends just before
      `dayEnd`, on the clock of `created_at`. */
  predicate CreatedOnDay(e: Entry, dayStart: int, dayEnd: int) {
    dayStart <= e.createdAt < dayEnd
  }

  /** The "Completed Today" list drawn from all of the shop's entries: exactly its
      done entries created on the current day, each once per row, newest first. */
  function ShopCompletedList(rows: seq<Entry>, shopId: ShopId, dayStart: int, dayEnd: int): (r: seq<Entry>)
    ensures forall x :: x in r <==> x in rows && x.shopId == shopId && x.status == Done
                                    && CreatedOnDay(x, dayStart, dayEnd)
    ensures forall x :: multiset(r)[x] == if x.shopId == shopId && x.status == Done && CreatedOnDay(x, dayStart, dayEnd)
                                          then multiset(rows)[x] else 0
    ensures SortedBy(r, NewestFirst)
  {
    var p := (e: Entry) => e.shopId == shopId && CreatedOnDay(e, dayStart, dayEnd);
    var today := Filter(rows, p);
    FilterCounts(rows, p);
    FilterCounts(today, IsDone);
    FullCompletedList(today)
  }

  /** The no-show list drawn from all of the shop's entries: exactly its no-show
      entries, each once per row, newest first, so requeue and delete can be
      reached from it. */
  function ShopNoShowList(rows: seq<Entry>, shopId: ShopId): (r: seq<Entry>)
    ensures forall x :: x in r <==> x in rows && x.shopId == shopId && x.status == NoShow
    ensures forall x :: multiset(r)[x] == if x.shopId == shopId && x.status == NoShow then multiset(rows)[x] else 0
    ensures SortedBy(r, NewestFirst)
  {
    var p := (e: Entry) => e.shopId == shopId;
    var own := Filter(rows, p);
    FilterCounts(rows, p);
    FilterCounts(own, IsNoShow);
    FullNoShowList(own)
  }
}
