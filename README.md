# Barbershop queue dashboards — a verified queue-table model

Two variants of a barbershop owner's dashboard share most of their code: waitwise and
barberconnect. Clients join a per-shop queue. The owner works it: starts a waiting client
with a barber, marks them done or a no-show, requeues a no-show, reassigns a client to
another barber, or deletes an entry. Marking a client done logs a billable event. A
shop on trial gets 100 billable clients a month, and the Start button is disabled once
they are used up and while the barber is already serving someone.

The model keeps the store's `queue_entries` and `billable_events` tables as sequences.
The dashboard's operations are modelled as follows:

- The four queue handlers are methods of one `Dashboard.Session` object, each proved
  against a pure update function of the table.
- The derived views are pure functions with their properties proved: the per-barber
  lists, the Start gate, the completed and no-show lists and their truncation, the two
  queue queries, the colour map and the client and revenue charts.

The two variants' handlers are identical apart from how they notify the user (waitwise
shows toasts, barberconnect shows alerts), so they are modelled once. For the
`Dashboard.Session` handlers, the `QueueTable` rules and the trial and per-barber rows,
where a row below cites one variant the other variant's copy reads the same. Two rows
are exceptions:

- `QueueViews.ActiveQueue` is waitwise's query only; barberconnect's is the opening-hours
  query `BarberConnect.TimeWindowQueue`.
- `QueueViews.SeeAllShown` is waitwise's `> 5` link; barberconnect's `> 10` link is
  `BarberConnect.SeeAllShownAtTen`.

Files:

- `queue_model.dfy`: the entities, the single-service invariant and the trial quota.
- `seq_util.dfy`: order-preserving filter and a sort by key.
- `queue_table.dfy`: row updates and delete, the requeue position rule, how each update
  affects the invariant, and the billable count.
- `queue_views.dfy`: per-barber views, the Start gate, the waitwise live queue and the
  completed/no-show lists.
- `dashboard.dfy`: the handlers.
- `waitwise.dfy` and `barberconnect.dfy`: what each variant adds.

Modelling choices:

- A store call that can fail is a boolean input of the handler.
- The owner's confirmation of a delete is a boolean input.
- Timestamps are abstract integers. Barberconnect's "today" is an input on the same
  clock as `created_at`, and the opening and closing times are offsets from it.
- Prices are integer cents.
- The bounds of "today" for the corrected completed list are inputs on the clock of
  `created_at`, like barberconnect's "today".

## Model

| member | source | states |
|---|---|---|
| QueueModel.IsTrial | waitwise/src/app/dashboard/page.tsx:484 | a shop is on trial exactly when its subscription is `trial` or null, i.e. neither active nor past due |
| QueueModel.TrialUsages | waitwise/src/app/dashboard/page.tsx:485 | the usages left reach 0 exactly when the count reaches the 100 allowance, and fall below 100 exactly when the count is positive |
| QueueModel.DisplayedUsages | waitwise/src/app/dashboard/page.tsx:693 | the card shows 100 − count while the count is at most 100, and 0 once the count reaches 100, never a negative number |
| QueueModel.TrialExhausted | barberconnect/src/app/dashboard/page.tsx:438-439 | the trial half of the gate holds exactly when the shop is on trial and the card shows 0 |
| QueueTable.UpdateRows | waitwise/src/app/dashboard/page.tsx:290-293 | an update addressed by id changes every row with that id and leaves every other row, and the length, unchanged |
| QueueTable.WithStatus | waitwise/src/app/dashboard/page.tsx:312 | a status update changes only the status of the addressed row |
| QueueTable.WithRequeue | waitwise/src/app/dashboard/page.tsx:290-293 | a requeue update changes only the addressed row, to waiting at the new position |
| QueueTable.WithBarber | waitwise/src/app/dashboard/page.tsx:340-343 | a reassign changes only the barber of the addressed row |
| QueueTable.WithoutEntry | waitwise/src/app/dashboard/page.tsx:320 | after a delete, a row is present exactly when it was present before and has another id |
| QueueTable.WithoutEntryAppend | waitwise/src/app/dashboard/page.tsx:320 | deleting from two tables joined together is deleting from each, so the remaining rows keep their order |
| QueueTable.WithoutEntryKeepsUniqueIds | waitwise/src/app/dashboard/page.tsx:320 | deleting keeps ids unique |
| QueueTable.WithoutAbsentEntry | waitwise/src/app/dashboard/page.tsx:320 | deleting an id that no row has leaves the table unchanged |
| QueueTable.WithoutEntryRemovesOne | waitwise/src/app/dashboard/page.tsx:320 | with unique ids, deleting a present id removes exactly one row |
| QueueTable.MinWaitingPosition | waitwise/src/app/dashboard/page.tsx:276-282 | the barber's first waiting position: none exactly when the barber has no waiting row, otherwise a waiting row's position no larger than any other |
| QueueTable.RequeuePosition | waitwise/src/app/dashboard/page.tsx:289 | the new position is one less than the barber's smallest waiting position, or 1 when there is none, and lies below every waiting position of that barber |
| QueueTable.RequeuedRowIsUnique | waitwise/src/app/dashboard/page.tsx:290-293 | with unique ids, the requeued row is the only row with its id after the update |
| QueueTable.RequeueGoesToFront | barberconnect/src/app/dashboard/page.tsx:260-263 | after the requeue, every other waiting row of the barber has a larger position than the requeued row |
| QueueTable.NonStartKeepsSingleService | waitwise/src/app/dashboard/page.tsx:312 | setting any status but in_progress keeps "at most one client in progress per barber" |
| QueueTable.RequeueKeepsSingleService | waitwise/src/app/dashboard/page.tsx:290-293 | a requeue keeps the single-service invariant |
| QueueTable.ReassignKeepsSingleService | waitwise/src/app/dashboard/page.tsx:340-343 | reassigning a row that is not in progress keeps the invariant; the edit button sits on waiting cards only |
| QueueTable.ReassignServingRowBreaksSingleService | waitwise/src/app/dashboard/page.tsx:340-343 | the reassign update does not look at the status: moving an in-progress row onto a busy barber breaks the invariant |
| QueueTable.DeleteKeepsSingleService | waitwise/src/app/dashboard/page.tsx:320 | deleting keeps the single-service invariant |
| QueueTable.StartFreeBarberKeepsSingleService | waitwise/src/app/dashboard/page.tsx:799 | starting a row of a barber who serves no one keeps the single-service invariant |
| QueueTable.BillableCount | waitwise/src/app/dashboard/page.tsx:156-160 | a shop's billable count never exceeds the number of events, and is 0 when none of them is the shop's |
| QueueTable.BillableCountAppend | waitwise/src/app/dashboard/page.tsx:303-305 | inserting one billable event raises that shop's count by one and leaves every other shop's count alone |
| QueueViews.BarberQueue | waitwise/src/app/dashboard/page.tsx:750 | a barber's queue holds exactly the view's entries assigned to that barber, each as many times as the view holds it, and is sorted by position when the view is |
| QueueViews.WaitingForBarber | waitwise/src/app/dashboard/page.tsx:751 | a barber's waiting list holds exactly the view's waiting entries of that barber, each as many times as the view holds it (so the count badge is their number), sorted by position when the view is |
| QueueViews.BarberViewsOfOne | waitwise/src/app/dashboard/page.tsx:750-751 | a one-entry view gives that entry in a barber's queue exactly when it is the barber's, and in the waiting list exactly when it is also waiting |
| QueueViews.BarberViewsOfAppend | waitwise/src/app/dashboard/page.tsx:750-751 | both per-barber lists of two views joined together are the two views' lists joined together, so the lists keep the view's order whatever it is |
| QueueViews.FirstInProgressIndex | waitwise/src/app/dashboard/page.tsx:752 | `find` stops at the first in-progress entry, or past the end when there is none |
| QueueViews.FirstInProgress | waitwise/src/app/dashboard/page.tsx:752 | `find` returns nothing exactly when no entry is in progress, otherwise the first in-progress entry |
| QueueViews.InProgressWithBarber | waitwise/src/app/dashboard/page.tsx:752 | nothing exactly when the view shows no in-progress entry of the barber, otherwise the first of them in view order: the one the in-progress card shows and "Mark as Done" completes |
| QueueViews.StartEnabled | waitwise/src/app/dashboard/page.tsx:799 | Start is enabled exactly when the view shows no in-progress entry of the barber and the trial quota is not used up |
| QueueViews.StartEnabledFor | barberconnect/src/app/dashboard/page.tsx:664 | an enabled Start button implies the trial is not exhausted |
| QueueViews.GatedStartKeepsSingleService | waitwise/src/app/dashboard/page.tsx:799 | starting a waiting entry through an enabled button keeps the single-service invariant, provided the view shows every entry the barber is serving |
| QueueViews.FrontEntryHeadsWaitingList | waitwise/src/app/dashboard/page.tsx:751 | in a position-sorted view, an entry ahead of all of the barber's other waiting entries is first in the barber's waiting list |
| QueueViews.RequeuedRowHeadsWaitingList | waitwise/src/app/dashboard/page.tsx:289-293 | after a requeue, the requeued client heads their barber's waiting list in any sorted view of the table that shows them |
| QueueViews.ActiveQueue | waitwise/src/app/dashboard/page.tsx:97-102 | the live queue holds exactly the shop's waiting and in-progress entries, each as many times as the table holds it, sorted by position |
| QueueViews.ActiveQueueShowsServing | waitwise/src/app/dashboard/page.tsx:97-102 | when all of a barber's entries belong to the shop, the live queue shows every entry the barber is serving |
| QueueViews.FullCompletedList | waitwise/src/app/dashboard/page.tsx:256 | exactly the view's done entries, as a permutation of the filtered list, newest first |
| QueueViews.FullNoShowList | waitwise/src/app/dashboard/page.tsx:257 | exactly the view's no-show entries, as a permutation of the filtered list, newest first |
| QueueViews.VisibleList | waitwise/src/app/dashboard/page.tsx:259-260 | the visible list is a prefix of the full list: all of it when expanded or at most 5 long, otherwise 5 entries |
| QueueViews.SeeAllShown | waitwise/src/app/dashboard/page.tsx:829 | "See all" is shown exactly when the collapsed list hides an entry |
| Dashboard.Session.Requeue | waitwise/src/app/dashboard/page.tsx:271-299 | a missing or empty barber id gives a refusal with no change, and so does a failed position query; otherwise the update, if it succeeds, sets the entry to waiting at the requeue position, and a failed update changes nothing |
| Dashboard.Session.UpdateStatus | waitwise/src/app/dashboard/page.tsx:301-313 | marking an entry done with a shop present appends exactly one billable event for (shop, entry), which raises the shop's count by one; a failed insert appends nothing and warns; any other status appends nothing; the status update runs either way |
| Dashboard.Session.ReassignBarber | waitwise/src/app/dashboard/page.tsx:337-351 | with an entry open, the barber of that row is set; the dialog closes exactly on success, and otherwise nothing changes |
| Dashboard.Session.DeleteEntry | barberconnect/src/app/dashboard/page.tsx:288-296 | the row is removed exactly when the owner confirms and the delete succeeds, and otherwise nothing changes |
| Dashboard.Session.OnBillableEventInserted | waitwise/src/app/dashboard/page.tsx:225-226 | each billable-event insert notification raises the session's count by exactly one |
| Waitwise.FetchQueueData | waitwise/src/app/dashboard/page.tsx:95-109 | a failed query keeps the previous entries; a successful one gives exactly the shop's waiting and in-progress entries, each as many times as the table holds it, sorted by position |
| Waitwise.AssignColors | waitwise/src/app/dashboard/page.tsx:265-267 | the `forEach` sets exactly the roster's names, each to the colour of its last barber's index mod the palette size |
| Waitwise.BarberColorMap | waitwise/src/app/dashboard/page.tsx:262-269 | the map's keys are exactly the roster's names; barber i's name maps to colour i mod 6 unless a later barber has the same name |
| Waitwise.RequeuedClientHeadsLiveQueue | waitwise/src/app/dashboard/page.tsx:271-299 | after a requeue, the client is first in their barber's waiting list on the live queue |
| Waitwise.StartUnderGateKeepsSingleService | waitwise/src/app/dashboard/page.tsx:799 | on the live queue, starting through an enabled button keeps at most one client in progress per barber |
| Waitwise.CompletedAndNoShowListsAlwaysEmpty | waitwise/src/app/dashboard/page.tsx:256-257 | the completed and no-show lists computed from the live queue are always empty |
| Waitwise.ShopCompletedList | waitwise/src/app/dashboard/page.tsx:256 | drawn from all of the shop's entries, for the "Completed Today" card (line 820): exactly its done entries created today, each as many times as the table holds it, newest first |
| Waitwise.ShopNoShowList | waitwise/src/app/dashboard/page.tsx:257 | drawn from all of the shop's entries: exactly its no-show entries, each as many times as the table holds it, newest first |
| BarberConnect.TimeWindowQueue | barberconnect/src/app/dashboard/page.tsx:79-103 | empty when an opening or closing time is missing or the query fails; otherwise exactly the shop's entries of every status created in [today + opening, today + closing], each as many times as the table holds it, sorted by position |
| BarberConnect.RequeuedClientHeadsWindowQueue | barberconnect/src/app/dashboard/page.tsx:242-270 | after a requeue, a client created within today's hours is first in their barber's waiting list on the window view |
| BarberConnect.WindowedGateAdmitsSecondService | barberconnect/src/app/dashboard/page.tsx:664 | with the gate evaluated over the window view, a barber serving a client created outside the window can be started on a second client |
| BarberConnect.ServingGate | barberconnect/src/app/dashboard/page.tsx:664 | the corrected gate holds only when none of the barber's entries in the shop is in progress |
| BarberConnect.CorrectedGateKeepsSingleService | barberconnect/src/app/dashboard/page.tsx:664 | starting a client from the window view through the corrected gate keeps at most one client in progress per barber |
| BarberConnect.SeeAllShownAtTen | barberconnect/src/app/dashboard/page.tsx:694 | when the as-written link is shown, the collapsed list does hide entries |
| BarberConnect.SeeAllAtTenHidesWithoutLink | barberconnect/src/app/dashboard/page.tsx:723 | a collapsed list of 6 to 10 entries hides some of them, shows no link as written, and would show one under the threshold-5 rule |
| BarberConnect.UncreditedNameGetsZero | barberconnect/src/app/dashboard/page.tsx:209-213 | a name no completed entry is credited to gets 0 |
| BarberConnect.RosterOrder | barberconnect/src/app/dashboard/page.tsx:205-208 | the key list the `reduce` builds holds exactly the roster's names, each once |
| BarberConnect.RosterOrderFollowsRoster | barberconnect/src/app/dashboard/page.tsx:205-208 | in that key list, each name occurs in the roster before the next name's first occurrence: first-occurrence order |
| BarberConnect.StartAtZero | barberconnect/src/app/dashboard/page.tsx:205-208 | every roster name is a key, starting at 0, and the key list is the roster's names in first-occurrence order |
| BarberConnect.AddCredit | barberconnect/src/app/dashboard/page.tsx:210-212 | one step of the loop keeps the keys equal to the starting names plus the credited names and each amount equal to that name's credited total |
| BarberConnect.AddCredits | barberconnect/src/app/dashboard/page.tsx:209-213 | after the loop the keys are the roster names plus the credited names, each holding that name's credited total |
| BarberConnect.ListTallies | barberconnect/src/app/dashboard/page.tsx:214 | one bar per key, in key order, with that key's amount |
| BarberConnect.TallyPerBarber | barberconnect/src/app/dashboard/page.tsx:204-231 | one bar per distinct name, for exactly the roster names plus the names of credited completed entries, each with its credited total |
| BarberConnect.BarberClientCount | barberconnect/src/app/dashboard/page.tsx:204-215 | each name's bar counts the completed entries credited to it, one per client |
| BarberConnect.ServiceTotal | barberconnect/src/app/dashboard/page.tsx:224-226 | the price sum is 0 when every service or price is missing, and non-negative for non-negative prices |
| BarberConnect.ServiceTotalAppend | barberconnect/src/app/dashboard/page.tsx:224-226 | the price sum of two lists of services joined together is the sum of their price sums |
| BarberConnect.EntryTotal | barberconnect/src/app/dashboard/page.tsx:224-226 | an entry with no services, or with only missing services or prices, earns 0 |
| BarberConnect.BarberRevenue | barberconnect/src/app/dashboard/page.tsx:217-231 | each name's bar is the sum of the service totals of the completed entries credited to it |
| BarberConnect.TalliesAddUp | barberconnect/src/app/dashboard/page.tsx:209-213 | the bars of a chart add up to the total weight of all credited completed entries, each counted once |
| BarberConnect.IdleBarberShowsZero | barberconnect/src/app/dashboard/page.tsx:205-208 | a bar whose name no completed entry is credited to is a roster barber showing 0 |
| BarberConnect.CreditedClientsCount | barberconnect/src/app/dashboard/page.tsx:210-211 | counting one per credited entry gives the number of credited entries |
| BarberConnect.ClientCountsAddUp | barberconnect/src/app/dashboard/page.tsx:204-215 | the client counts add up to the number of completed clients that have a named barber |

## Left out

- Realtime subscriptions and asynchronous refetching are not modelled. The table is the source of truth, a view is a function of it, and "the view is stale" is not modelled.
- Auth redirects, avatar and QR code handling, the billing portal and the analytics function are not modelled, because they are foreign calls.
- Barber and service management are not modelled, because their refusals are database foreign-key errors.
- Toasts, alerts and console logging are not modelled; only the result codes the handlers would report are kept.
- JavaScript dates, time zones and ISO string comparison are replaced by abstract integer timestamps; the month filter of the billable-count query is not modelled (`QueueTable.BillableCount` counts a shop's events).
- Floating-point prices are modelled as integer cents; `NaN` is not modelled.
- BarberConnect.TimeWindowQueue: an empty-string opening or closing time counts as missing in the source; the model has only present or missing times.
- QueueModel.IsTrial: subscription values other than trial, active and past due are not modelled. The source would treat them as not on trial, as it treats active.
- QueueViews.FullCompletedList: JavaScript's `sort` is stable, so entries with the same `created_at` keep their view order; the model proves the list sorted newest first and a permutation, but does not state the order among equal timestamps.
- QueueViews.FullNoShowList: the same order among equal timestamps as `QueueViews.FullCompletedList` is not stated.
- BarberConnect.TallyPerBarber: does not state the order of the bars. `Object.keys` lists integer-like keys first, in ascending order; the model keeps plain insertion order.
- Waitwise.AssignColors: a JavaScript plain object ignores the assignment `map["__proto__"] = colour` (line 266), so a barber named `__proto__` gets no colour there; the model's map gives every roster name a key.
- Waitwise.BarberColorMap: the same `__proto__` difference as `Waitwise.AssignColors`.
- BarberConnect.TallyPerBarber: a JavaScript plain object ignores `counts["__proto__"] = …` (lines 206, 211, 219, 227), so a barber named `__proto__` gets no bar there; the model gives every roster name a bar.
- Entry fields that no modelled operation reads (client name, service names and ids) are not modelled.
- The Start click itself is `handleUpdateStatus(id, 'in_progress')`: `Dashboard.Session.UpdateStatus` models the write, and the gate lemmas state what the button guarantees about it.

## Findings

| source | as written | input that shows it | evidently intended | confidence | as-written member | corrected member |
|---|---|---|---|---|---|---|
| waitwise/src/app/dashboard/page.tsx:256-257 | the completed and no-show lists filter `queueEntries`, which the query at lines 97-102 fills with waiting and in-progress entries only | any table: every done or no-show entry is missing from the view, so both cards stay empty and requeue or delete from them cannot be reached | the "Completed Today" card (line 820) shows the shop's done entries created today, and the no-show card its no-show entries | high; not executed | Waitwise.CompletedAndNoShowListsAlwaysEmpty | Waitwise.ShopCompletedList |
| barberconnect/src/app/dashboard/page.tsx:664 | the Start gate reads the view, which holds only entries created within today's opening hours (lines 79-96) | opening hours 540–1020 in minutes, today starting at 0; a client joined yesterday at 10:00 (−840), was started with barber `b` and never marked done; a client waiting for `b` joined today at 600; Start is enabled and starts a second service | the gate considers every entry the barber is serving | medium; not executed | BarberConnect.WindowedGateAdmitsSecondService | BarberConnect.CorrectedGateKeepsSingleService |
| barberconnect/src/app/dashboard/page.tsx:694 | "See all" appears only above 10 entries, while the collapsed list shows 5 (lines 201-202; the same at line 723) | a completed or no-show list of 6 to 10 entries: 1 to 5 are hidden and there is no link to show them | "See all" appears whenever the collapsed list hides an entry, as in waitwise (line 829) | high; not executed | BarberConnect.SeeAllShownAtTen | QueueViews.SeeAllShown |
