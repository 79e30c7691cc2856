/** What the barberconnect dashboard adds to the shared queue model: its
    time-window queue query, the per-barber client and revenue tallies, and a
    "See all" link with its own threshold. */
module BarberConnect {
  import opened QueueModel
  import opened SeqUtil
  import opened QueueTable
  import opened QueueViews

  // ---------------------------------------------------------------------------
  // The queue query: today's opening hours
  // ---------------------------------------------------------------------------

  /** An entry created between today's opening and closing time, both included.
      `today` is the start of the current day on the same clock as `createdAt`. */
  predicate InWindow(e: Entry, today: int, open: int, close: int) {
    today + open <= e.createdAt <= today + close
  }

  /** `fetchQueueData(shop)`: nothing when the shop has no opening or closing time or
      the query fails; otherwise every entry of the shop created within today's
      opening hours, whatever its status, each once per row, sorted by queue
      position. */
  function TimeWindowQueue(rows: seq<Entry>, shop: Shop, today: int, queryFails: bool): (r: seq<Entry>)
    ensures shop.openingTime.None? || shop.closingTime.None? || queryFails ==> r == []
    ensures shop.openingTime.Some? && shop.closingTime.Some? && !queryFails ==>
              && (forall x :: x in r <==> x in rows && x.shopId == shop.id
                                          && InWindow(x, today, shop.openingTime.value, shop.closingTime.value))
              && (forall x :: multiset(r)[x] ==
                    if x.shopId == shop.id && InWindow(x, today, shop.openingTime.value, shop.closingTime.value)
                    then multiset(rows)[x] else 0)
              && SortedBy(r, Position)
  {
    if shop.openingTime.None? || shop.closingTime.None? || queryFails then []
    else
      var open := shop.openingTime.value;
      var close := shop.closingTime.value;
      var p := (e: Entry) => e.shopId == shop.id && InWindow(e, today, open, close);
      FilterCounts(rows, p);
      SortBy(Filter(rows, p), Position)
  }

  /** After a requeue, the requeued client heads their barber's waiting list on the
      time-window view, provided the client belongs to the shop and was created
      within today's opening hours. */
  lemma RequeuedClientHeadsWindowQueue(rows: seq<Entry>, shop: Shop, today: int, k: nat, b: BarberId)
    requires UniqueIds(rows) && k < |rows|
    requires AssignedTo(rows[k], b) && rows[k].shopId == shop.id
    requires shop.openingTime.Some? && shop.closingTime.Some?
    requires InWindow(rows[k], today, shop.openingTime.value, shop.closingTime.value)
    ensures var p := RequeuePosition(rows, b);
            var w := WaitingForBarber(TimeWindowQueue(WithRequeue(rows, rows[k].id, p), shop, today, false), b);
            w != [] && w[0] == Requeued(rows[k], p)
  {
    var p := RequeuePosition(rows, b);
    var after := WithRequeue(rows, rows[k].id, p);
    var view := TimeWindowQueue(after, shop, today, false);
    assert after[k] == Requeued(rows[k], p);
    WindowQueueShows(after, shop, today, k);
    RequeuedRowHeadsWaitingList(rows, k, b, view);
  }

  /** The time-window view shows every row of the shop created in today's hours. */
  lemma WindowQueueShows(rows: seq<Entry>, shop: Shop, today: int, k: nat)
    requires k < |rows| && rows[k].shopId == shop.id
    requires shop.openingTime.Some? && shop.closingTime.Some?
    requires InWindow(rows[k], today, shop.openingTime.value, shop.closingTime.value)
    ensures rows[k] in TimeWindowQueue(rows, shop, today, false)
  {
    assert rows[k] in rows;
  }

  // ---------------------------------------------------------------------------
  // The Start gate over the time-window view
  // ---------------------------------------------------------------------------

  /** With the Start gate evaluated over the time-window view, an in-progress entry
      created outside today's opening hours is invisible to it: a barber already
      serving that client can be started on a second one. For instance opening
      hours 540..1020 in minutes, today starting at 0: a client `serving` who
      joined yesterday at 10:00 (-1440 + 600 = -840), was started then and never marked
      done, and a client `next` created today at 600 and waiting for `b`. */
  lemma WindowedGateAdmitsSecondService(
    serving: Entry, next: Entry, shop: Shop, today: int, billableCount: int, b: BarberId)
    requires shop.openingTime.Some? && shop.closingTime.Some?
    requires !TrialExhausted(shop.subscription, billableCount)
    requires serving.shopId == shop.id && next.shopId == shop.id && serving.id != next.id
    requires serving.status == InProgress && AssignedTo(serving, b)
    requires !InWindow(serving, today, shop.openingTime.value, shop.closingTime.value)
    requires next.status == Waiting && AssignedTo(next, b)
    requires InWindow(next, today, shop.openingTime.value, shop.closingTime.value)
    ensures var rows := [serving, next];
            var view := TimeWindowQueue(rows, shop, today, false);
            && UniqueIds(rows) && SingleServicePerBarber(rows)
            && next in WaitingForBarber(view, b)
            && StartEnabledFor(view, b, shop, billableCount)
            && !SingleServicePerBarber(WithStatus(rows, next.id, InProgress))
  {
    WindowShowsOnlyNext(serving, next, shop, today);
    GateOverWaitingOnly(TimeWindowQueue([serving, next], shop, today, false), next, shop, billableCount, b);
    SecondStartBreaksSingleService(serving, next, b);
  }

  /** A view showing only a client waiting for `b` enables `b`'s Start button for
      that client, unless the trial is used up. */
  lemma GateOverWaitingOnly(view: seq<Entry>, next: Entry, shop: Shop, billableCount: int, b: BarberId)
    requires !TrialExhausted(shop.subscription, billableCount)
    requires next.status == Waiting && AssignedTo(next, b)
    requires forall x :: x in view <==> x == next
    ensures next in WaitingForBarber(view, b) && StartEnabledFor(view, b, shop, billableCount)
  {
  }

  /** Starting a second client of a barber who is serving one breaks the
      single-service invariant. */
  lemma SecondStartBreaksSingleService(serving: Entry, next: Entry, b: BarberId)
    requires serving.id != next.id
    requires serving.status == InProgress && AssignedTo(serving, b)
    requires next.status == Waiting && AssignedTo(next, b)
    ensures UniqueIds([serving, next]) && SingleServicePerBarber([serving, next])
    ensures !SingleServicePerBarber(WithStatus([serving, next], next.id, InProgress))
  {
    var started := WithStatus([serving, next], next.id, InProgress);
    assert started[0] == serving && started[1] == next.(status := InProgress);
  }

  /** Of a client created outside today's hours and one created within them, the
      time-window view shows only the second. */
  lemma WindowShowsOnlyNext(serving: Entry, next: Entry, shop: Shop, today: int)
    requires shop.openingTime.Some? && shop.closingTime.Some?
    requires serving.shopId == shop.id && next.shopId == shop.id
    requires !InWindow(serving, today, shop.openingTime.value, shop.closingTime.value)
    requires InWindow(next, today, shop.openingTime.value, shop.closingTime.value)
    ensures forall x :: x in TimeWindowQueue([serving, next], shop, today, false) <==> x == next
  {
  }

  /** The gate as evidently intended: evaluated over all of the shop's waiting and
      in-progress entries, not only those of today's window. */
  predicate ServingGate(rows: seq<Entry>, shop: Shop, b: BarberId, billableCount: int): (ok: bool)
    ensures ok ==> forall x :: x in rows && x.shopId == shop.id && AssignedTo(x, b) ==> x.status != InProgress
  {
    StartEnabledFor(ActiveQueue(rows, shop.id), b, shop, billableCount)
  }

  /** Starting a client listed on the time-window view through the corrected gate
      keeps at most one client in progress per barber. */
  lemma CorrectedGateKeepsSingleService(
    rows: seq<Entry>, shop: Shop, today: int, billableCount: int, e: Entry, b: BarberId)
    requires UniqueIds(rows) && SingleServicePerBarber(rows)
    requires forall x :: x in rows && AssignedTo(x, b) ==> x.shopId == shop.id
    requires e in WaitingForBarber(TimeWindowQueue(rows, shop, today, false), b)
    requires ServingGate(rows, shop, b, billableCount)
    ensures SingleServicePerBarber(WithStatus(rows, e.id, InProgress))
  {
    var live := ActiveQueue(rows, shop.id);
    ActiveQueueShowsServing(rows, shop.id, b);
    assert e in live;
    assert e in WaitingForBarber(live, b);
    GatedStartKeepsSingleService(rows, live, e, b, IsTrial(shop.subscription), TrialUsages(billableCount));
  }

  // ---------------------------------------------------------------------------
  // The "See all" link as written
  // ---------------------------------------------------------------------------

  /** The "See all" link as written: `full.length > 10 && !showAll`, while the
      collapsed list still shows only five entries. */
  predicate SeeAllShownAtTen(full: seq<Entry>, showAll: bool): (b: bool)
    ensures b ==> |VisibleList(full, showAll)| < |full|
  {
    |full| > 10 && !showAll
  }

  /** A collapsed list of six to ten entries hides some of them and offers no link
      to show them. */
  lemma SeeAllAtTenHidesWithoutLink(full: seq<Entry>)
    requires VisibleLimit < |full| <= 10
    ensures |VisibleList(full, false)| < |full|
    ensures !SeeAllShownAtTen(full, false)
    ensures SeeAllShown(full, false)
  {
  }

  // ---------------------------------------------------------------------------
  // Per-barber client and revenue tallies over the completed list
  // ---------------------------------------------------------------------------

  /** One bar of a chart: a barber name and its amount. */
  datatype Tally = Tally(name: string, amount: int)

  /** `entry.barbers?.name` is truthy: the entry has a barber with a non-empty name. */
  predicate Credited(e: Entry) {
    e.barber.Some? && e.barber.value.name != ""
  }

  predicate CreditedTo(e: Entry, name: string) {
    Credited(e) && e.barber.value.name == name
  }

  /** The barber names the completed entries credit. */
  function CreditedNames(done: seq<Entry>): set<string> {
    set i | 0 <= i < |done| && Credited(done[i]) :: done[i].barber.value.name
  }

  /** What the chart gives `name`: the weights of the entries credited to it. */
  function CreditTotal(done: seq<Entry>, name: string, weight: Entry -> int): int {
    if done == [] then 0
    else
      var last := done[|done| - 1];
      CreditTotal(done[..|done| - 1], name, weight) + (if CreditedTo(last, name) then weight(last) else 0)
  }

  /** The weights of all credited entries, whoever they are credited to. */
  function CreditedSum(done: seq<Entry>, weight: Entry -> int): int {
    if done == [] then 0
    else
      var last := done[|done| - 1];
      CreditedSum(done[..|done| - 1], weight) + (if Credited(last) then weight(last) else 0)
  }

  function TallyNames(tallies: seq<Tally>): set<string> {
    set t | t in tallies :: t.name
  }

  /** The chart the dashboard builds: one bar per distinct name, for every roster
      name and every credited name, each holding that name's credited total. */
  predicate TalliesOf(tallies: seq<Tally>, barbers: seq<Barber>, done: seq<Entry>, weight: Entry -> int) {
    && (forall i, j :: 0 <= i < j < |tallies| ==> tallies[i].name != tallies[j].name)
    && TallyNames(tallies) == RosterNames(barbers) + CreditedNames(done)
    && (forall t :: t in tallies ==> t.amount == CreditTotal(done, t.name, weight))
  }

  /** A name no entry is credited to gets nothing. */
  lemma {:induction false} UncreditedNameGetsZero(done: seq<Entry>, name: string, weight: Entry -> int)
    requires forall i :: 0 <= i < |done| ==> !CreditedTo(done[i], name)
    ensures CreditTotal(done, name, weight) == 0
  {
    if done != [] {
      var init := done[..|done| - 1];
      assert forall i :: 0 <= i < |init| ==> init[i] == done[i];
      UncreditedNameGetsZero(init, name, weight);
    }
  }

  /** Appending an entry adds its credited name, if any. */
  lemma CreditedNamesSnoc(done: seq<Entry>, e: Entry)
    ensures CreditedNames(done + [e]) == CreditedNames(done) + (if Credited(e) then {e.barber.value.name} else {})
  {
    var d := done + [e];
    assert forall i :: 0 <= i < |done| ==> d[i] == done[i];
    assert d[|done|] == e;
  }

  /** Appending an entry adds its weight to the name it is credited to. */
  lemma CreditTotalSnoc(done: seq<Entry>, e: Entry, name: string, weight: Entry -> int)
    ensures CreditTotal(done + [e], name, weight)
            == CreditTotal(done, name, weight) + (if CreditedTo(e, name) then weight(e) else 0)
  {
    assert (done + [e])[..|done|] == done;
  }

  /** `names` lists the keys of `amounts`, each once. */
  ghost predicate KeyOrder(amounts: map<string, int>, names: seq<string>) {
    && (forall k :: k in amounts <==> k in names)
    && (forall i, j :: 0 <= i < j < |names| ==> names[i] != names[j])
  }

  /** Setting a key keeps the key list in step: a new key goes at the end. */
  lemma KeyOrderPut(amounts: map<string, int>, names: seq<string>, name: string, v: int)
    requires KeyOrder(amounts, names)
    ensures KeyOrder(amounts[name := v], if name in amounts then names else names + [name])
  {
  }

  /** The roster's names as an object's keys list them after `acc[barber.name] = 0`
      for each barber in turn: each name once, where it first occurs. */
  function RosterOrder(barbers: seq<Barber>): (r: seq<string>)
    ensures forall k :: k in r <==> k in RosterNames(barbers)
    ensures forall i, j :: 0 <= i < j < |r| ==> r[i] != r[j]
  {
    if barbers == [] then []
    else
      var r0 := RosterOrder(barbers[..|barbers| - 1]);
      var name := barbers[|barbers| - 1].name;
      RosterNamesSnoc(barbers);
      if name in r0 then r0 else r0 + [name]
  }

  lemma RosterNamesSnoc(barbers: seq<Barber>)
    requires barbers != []
    ensures RosterNames(barbers) == RosterNames(barbers[..|barbers| - 1]) + {barbers[|barbers| - 1].name}
  {
    var init := barbers[..|barbers| - 1];
    forall i | 0 <= i < |init| ensures init[i].name in RosterNames(barbers) {
      assert init[i] == barbers[i];
    }
    forall k | k in RosterNames(barbers) ensures k in RosterNames(init) + {barbers[|barbers| - 1].name} {
      var i :| 0 <= i < |barbers| && barbers[i].name == k;
      if i < |init| {
        assert init[i] == barbers[i];
      }
    }
  }

  /** Name `a` occurs in the roster before name `c` first does. */
  predicate NamedBefore(barbers: seq<Barber>, a: string, c: string) {
    exists p :: 0 <= p < |barbers| && barbers[p].name == a && forall q :: 0 <= q <= p ==> barbers[q].name != c
  }

  /** `RosterOrder` lists the names in the order of their first occurrence. */
  lemma {:induction false} RosterOrderFollowsRoster(barbers: seq<Barber>)
    ensures forall i, j :: 0 <= i < j < |RosterOrder(barbers)| ==>
              NamedBefore(barbers, RosterOrder(barbers)[i], RosterOrder(barbers)[j])
  {
    if barbers != [] {
      var init := barbers[..|barbers| - 1];
      var name := barbers[|barbers| - 1].name;
      var r0 := RosterOrder(init);
      var r := RosterOrder(barbers);
      RosterOrderFollowsRoster(init);
      forall i, j | 0 <= i < j < |r| ensures NamedBefore(barbers, r[i], r[j]) {
        if j < |r0| {
          assert r[i] == r0[i] && r[j] == r0[j];
          assert NamedBefore(init, r0[i], r0[j]);
          var p :| 0 <= p < |init| && init[p].name == r0[i] && forall q :: 0 <= q <= p ==> init[q].name != r0[j];
          assert barbers[p] == init[p];
          assert forall q :: 0 <= q <= p ==> barbers[q] == init[q];
        } else {
          assert r[i] == r0[i] && r[j] == name && name !in RosterNames(init);
          assert r0[i] in r0 && r0[i] in RosterNames(init);
          var p :| 0 <= p < |init| && init[p].name == r0[i];
          assert barbers[p] == init[p];
          assert forall q :: 0 <= q <= p ==> barbers[q] == init[q] && init[q].name in RosterNames(init);
        }
      }
    }
  }

  /** One more barber adds their name at the end, unless it is listed already. */
  lemma RosterOrderSnoc(barbers: seq<Barber>, n: nat)
    requires n < |barbers|
    ensures var r := RosterOrder(barbers[..n]);
            RosterOrder(barbers[..n + 1]) == if barbers[n].name in r then r else r + [barbers[n].name]
  {
    assert barbers[..n + 1][..n] == barbers[..n] && barbers[..n + 1][n] == barbers[n];
  }

  /** `barbers.reduce((acc, barber) => { acc[barber.name] = 0; ... }, {})`. */
  method StartAtZero(barbers: seq<Barber>) returns (amounts: map<string, int>, names: seq<string>)
    ensures KeyOrder(amounts, names)
    ensures amounts.Keys == RosterNames(barbers)
    ensures names == RosterOrder(barbers)
    ensures forall k :: k in amounts ==> amounts[k] == 0
  {
    amounts := map[];
    names := [];
    for n := 0 to |barbers|
      invariant KeyOrder(amounts, names)
      invariant names == RosterOrder(barbers[..n])
      invariant forall k :: k in amounts ==> amounts[k] == 0
    {
      var name := barbers[n].name;
      RosterOrderSnoc(barbers, n);
      KeyOrderPut(amounts, names, name, 0);
      if name !in amounts {
        names := names + [name];
      }
      amounts := amounts[name := 0];
    }
    assert barbers[..|barbers|] == barbers;
  }

  /** The chart so far after the entries `seen`: the key list in step with the
      map, the keys the starting names plus the credited names, and each amount
      that name's credited total. */
  ghost predicate CreditedSoFar(amounts: map<string, int>, names: seq<string>, start: set<string>,
                                seen: seq<Entry>, weight: Entry -> int) {
    && KeyOrder(amounts, names)
    && amounts.Keys == start + CreditedNames(seen)
    && (forall k :: k in amounts ==> amounts[k] == CreditTotal(seen, k, weight))
  }

  /** One step of the `forEach`: `counts[name] = (counts[name] || 0) + weight`
      when the entry has a named barber. */
  method AddCredit(amounts: map<string, int>, names: seq<string>, ghost start: set<string>,
                   ghost seen: seq<Entry>, e: Entry, weight: Entry -> int)
    returns (amounts': map<string, int>, names': seq<string>)
    requires CreditedSoFar(amounts, names, start, seen, weight)
    ensures CreditedSoFar(amounts', names', start, seen + [e], weight)
  {
    CreditedNamesSnoc(seen, e);
    amounts', names' := amounts, names;
    if Credited(e) {
      var name := e.barber.value.name;
      var current := 0;
      if name in amounts {
        current := amounts[name];
      } else {
        assert forall i :: 0 <= i < |seen| ==> !CreditedTo(seen[i], name);
        UncreditedNameGetsZero(seen, name, weight);
      }
      KeyOrderPut(amounts, names, name, current + weight(e));
      if name !in amounts {
        names' := names + [name];
      }
      amounts' := amounts[name := current + weight(e)];
    }
    forall k | k in amounts' ensures amounts'[k] == CreditTotal(seen + [e], k, weight) {
      CreditTotalSnoc(seen, e, k, weight);
    }
  }

  /** `fullCompletedList.forEach(...)`: adds each credited entry's weight to its
      barber's name, a name missing so far starting at 0. */
  method AddCredits(start: map<string, int>, startNames: seq<string>, done: seq<Entry>, weight: Entry -> int)
    returns (amounts: map<string, int>, names: seq<string>)
    requires KeyOrder(start, startNames)
    requires forall k :: k in start ==> start[k] == 0
    ensures KeyOrder(amounts, names)
    ensures amounts.Keys == start.Keys + CreditedNames(done)
    ensures forall k :: k in amounts ==> amounts[k] == CreditTotal(done, k, weight)
  {
    amounts, names := start, startNames;
    assert CreditedNames([]) == {};
    for m := 0 to |done|
      invariant CreditedSoFar(amounts, names, start.Keys, done[..m], weight)
    {
      assert done[..m + 1] == done[..m] + [done[m]];
      amounts, names := AddCredit(amounts, names, start.Keys, done[..m], done[m], weight);
    }
    assert done[..|done|] == done;
  }

  /** `Object.keys(counts).map(name => ({ name, clients: counts[name] }))`. */
  method ListTallies(amounts: map<string, int>, names: seq<string>) returns (tallies: seq<Tally>)
    requires KeyOrder(amounts, names)
    ensures |tallies| == |names|
    ensures forall j :: 0 <= j < |names| ==> tallies[j] == Tally(names[j], amounts[names[j]])
    ensures TallyNames(tallies) == amounts.Keys
  {
    tallies := [];
    for i := 0 to |names|
      invariant |tallies| == i
      invariant forall j :: 0 <= j < i ==> tallies[j] == Tally(names[j], amounts[names[j]])
    {
      tallies := tallies + [Tally(names[i], amounts[names[i]])];
    }
    assert TallyNames(tallies) == amounts.Keys by {
      forall k | k in amounts ensures k in TallyNames(tallies) {
        var j :| 0 <= j < |names| && names[j] == k;
        assert tallies[j].name == k;
      }
    }
  }

  /** The shared shape of `barberClientCount` and `barberRevenue`: start every roster
      name at 0, add each credited entry's weight to its barber's name, and list
      the names in insertion order. */
  method TallyPerBarber(barbers: seq<Barber>, done: seq<Entry>, weight: Entry -> int) returns (tallies: seq<Tally>)
    ensures TalliesOf(tallies, barbers, done, weight)
  {
    var start, startNames := StartAtZero(barbers);
    var amounts, names := AddCredits(start, startNames, done, weight);
    tallies := ListTallies(amounts, names);
    forall t | t in tallies ensures t.amount == CreditTotal(done, t.name, weight) {
      var j :| 0 <= j < |tallies| && tallies[j] == t;
    }
  }

  /** `barberClientCount`: each completed client counts once. */
  function OneClient(e: Entry): int { 1 }

  /** `barberClientCount`: the client-count chart over the view's completed list. */
  method BarberClientCount(barbers: seq<Barber>, view: seq<Entry>) returns (tallies: seq<Tally>)
    ensures TalliesOf(tallies, barbers, FullCompletedList(view), OneClient)
  {
    var done := FullCompletedList(view);
    tallies := TallyPerBarber(barbers, done, OneClient);
  }

  /** The price sum of an entry's services: `sum + (qes.services?.price || 0)`, a
      missing service or price adding nothing. */
  function ServiceTotal(prices: seq<Option<int>>): (r: int)
    ensures (forall i :: 0 <= i < |prices| ==> prices[i].None? || prices[i].value >= 0) ==> r >= 0
    ensures (forall i :: 0 <= i < |prices| ==> prices[i].None?) ==> r == 0
  {
    if prices == [] then 0
    else (if prices[0].Some? then prices[0].value else 0) + ServiceTotal(prices[1..])
  }

  /** Summing prices splits over concatenation, so the order of an entry's
      services does not matter to its total piecewise. */
  lemma {:induction false} ServiceTotalAppend(a: seq<Option<int>>, b: seq<Option<int>>)
    ensures ServiceTotal(a + b) == ServiceTotal(a) + ServiceTotal(b)
  {
    if a == [] {
      assert a + b == b;
    } else {
      assert (a + b)[0] == a[0];
      assert (a + b)[1..] == a[1..] + b;
      ServiceTotalAppend(a[1..], b);
    }
  }

  /** An entry's revenue: its services' total, or 0 when it carries no services. */
  function EntryTotal(e: Entry): (r: int)
    ensures e.services.None? ==> r == 0
    ensures e.services.Some? && (forall i :: 0 <= i < |e.services.value| ==> e.services.value[i].None?) ==> r == 0
  {
    if e.services.Some? then ServiceTotal(e.services.value) else 0
  }

  /** `barberRevenue`: the revenue chart over the view's completed list. */
  method BarberRevenue(barbers: seq<Barber>, view: seq<Entry>) returns (tallies: seq<Tally>)
    ensures TalliesOf(tallies, barbers, FullCompletedList(view), EntryTotal)
  {
    var done := FullCompletedList(view);
    tallies := TallyPerBarber(barbers, done, EntryTotal);
  }

  // ---------------------------------------------------------------------------
  // The bars add up
  // ---------------------------------------------------------------------------

  function TallyTotal(tallies: seq<Tally>): int {
    if tallies == [] then 0 else tallies[0].amount + TallyTotal(tallies[1..])
  }

  function NameSum(names: seq<string>, done: seq<Entry>, weight: Entry -> int): int {
    if names == [] then 0 else CreditTotal(done, names[0], weight) + NameSum(names[1..], done, weight)
  }

  function TallyNameSeq(tallies: seq<Tally>): (r: seq<string>)
    ensures |r| == |tallies| && forall i :: 0 <= i < |r| ==> r[i] == tallies[i].name
  {
    if tallies == [] then [] else [tallies[0].name] + TallyNameSeq(tallies[1..])
  }

  lemma {:induction false} TallyTotalIsNameSum(tallies: seq<Tally>, done: seq<Entry>, weight: Entry -> int)
    requires forall t :: t in tallies ==> t.amount == CreditTotal(done, t.name, weight)
    ensures TallyTotal(tallies) == NameSum(TallyNameSeq(tallies), done, weight)
  {
    if tallies != [] {
      assert tallies[0] in tallies;
      assert forall t :: t in tallies[1..] ==> t in tallies;
      TallyTotalIsNameSum(tallies[1..], done, weight);
      assert TallyNameSeq(tallies)[1..] == TallyNameSeq(tallies[1..]);
    }
  }

  lemma {:induction false} NameSumOfNothing(names: seq<string>, weight: Entry -> int)
    ensures NameSum(names, [], weight) == 0
  {
    if names != [] {
      NameSumOfNothing(names[1..], weight);
    }
  }

  /** Appending one entry adds its weight to the sum over distinct names exactly
      once when its barber's name is among them, and not at all otherwise. */
  lemma {:induction false} NameSumSnoc(names: seq<string>, done: seq<Entry>, e: Entry, weight: Entry -> int)
    requires forall i, j :: 0 <= i < j < |names| ==> names[i] != names[j]
    ensures NameSum(names, done + [e], weight)
            == NameSum(names, done, weight) + (if Credited(e) && e.barber.value.name in names then weight(e) else 0)
  {
    if names != [] {
      assert (done + [e])[..|done|] == done;
      assert names == [names[0]] + names[1..];
      NameSumSnoc(names[1..], done, e, weight);
      if Credited(e) && e.barber.value.name == names[0] {
        assert e.barber.value.name !in names[1..];
      }
    }
  }

  lemma {:induction false} NameSumIsCreditedSum(names: seq<string>, done: seq<Entry>, weight: Entry -> int)
    requires forall i, j :: 0 <= i < j < |names| ==> names[i] != names[j]
    requires forall i :: 0 <= i < |done| && Credited(done[i]) ==> done[i].barber.value.name in names
    ensures NameSum(names, done, weight) == CreditedSum(done, weight)
  {
    if done == [] {
      NameSumOfNothing(names, weight);
    } else {
      var init := done[..|done| - 1];
      var last := done[|done| - 1];
      assert done == init + [last];
      assert forall i :: 0 <= i < |init| ==> init[i] == done[i];
      NameSumIsCreditedSum(names, init, weight);
      NameSumSnoc(names, init, last, weight);
    }
  }

  /** The bars of a chart add up to the total weight of the credited entries:
      every completed entry with a named barber is counted once, in one bar. */
  lemma TalliesAddUp(tallies: seq<Tally>, barbers: seq<Barber>, done: seq<Entry>, weight: Entry -> int)
    requires TalliesOf(tallies, barbers, done, weight)
    ensures TallyTotal(tallies) == CreditedSum(done, weight)
  {
    var names := TallyNameSeq(tallies);
    TallyTotalIsNameSum(tallies, done, weight);
    forall i | 0 <= i < |done| && Credited(done[i]) ensures done[i].barber.value.name in names {
      var n := done[i].barber.value.name;
      assert n in CreditedNames(done);
      var t :| t in tallies && t.name == n;
      var j :| 0 <= j < |tallies| && tallies[j] == t;
      assert names[j] == n;
    }
    NameSumIsCreditedSum(names, done, weight);
  }

  /** A roster barber without a credited completed entry shows 0 clients and 0
      revenue. */
  lemma IdleBarberShowsZero(tallies: seq<Tally>, barbers: seq<Barber>, done: seq<Entry>, weight: Entry -> int, t: Tally)
    requires TalliesOf(tallies, barbers, done, weight)
    requires t in tallies && t.name !in CreditedNames(done)
    ensures t.name in RosterNames(barbers) && t.amount == 0
  {
    assert t.name in TallyNames(tallies);
    assert forall i :: 0 <= i < |done| ==> !CreditedTo(done[i], t.name);
    UncreditedNameGetsZero(done, t.name, weight);
  }

  /** The weight of each credited entry counted once is the number of credited
      entries. */
  lemma {:induction false} CreditedClientsCount(done: seq<Entry>)
    ensures CreditedSum(done, OneClient) == |Filter(done, Credited)|
  {
    if done != [] {
      var init := done[..|done| - 1];
      assert done == init + [done[|done| - 1]];
      CreditedClientsCount(init);
      FilterSnoc(init, done[|done| - 1], Credited);
    }
  }

  /** The client counts add up to the number of completed clients that have a
      named barber. */
  lemma ClientCountsAddUp(tallies: seq<Tally>, barbers: seq<Barber>, view: seq<Entry>)
    requires TalliesOf(tallies, barbers, FullCompletedList(view), OneClient)
    ensures TallyTotal(tallies) == |Filter(FullCompletedList(view), Credited)|
  {
    TalliesAddUp(tallies, barbers, FullCompletedList(view), OneClient);
    CreditedClientsCount(FullCompletedList(view));
  }
}
