/** The entities the two barbershop dashboards read and write: queue entries with
    their joined barber and services, shops, billable events, and the trial quota. */
module QueueModel {

  datatype Option<T> = None | Some(value: T)

  type EntryId = string
  type BarberId = string
  type ShopId = string

  datatype Status = Waiting | InProgress | Done | NoShow

  /** A barber as the roster lists it and as the queue query joins it onto an entry. */
  datatype Barber = Barber(id: BarberId, name: string)

  /** One row of `queue_entries` as the dashboard selects it: the joined barber
      (`barbers ( id, name )`, null when unassigned) and the prices of the linked
      services (`queue_entry_services ( services ( price ) )`; the list or any one
      service may be null). Prices are integer cents; `createdAt` is an abstract
      timestamp. */
  datatype Entry = Entry(
    id: EntryId,
    shopId: ShopId,
    position: int,
    status: Status,
    barber: Option<Barber>,
    createdAt: int,
    services: Option<seq<Option<int>>>)

  datatype Subscription = Trial | Active | PastDue

  /** The signed-in owner's shop; a missing opening or closing time is `None`. */
  datatype Shop = Shop(
    id: ShopId,
    subscription: Option<Subscription>,
    openingTime: Option<int>,
    closingTime: Option<int>)

  /** One row of the append-only `billable_events` table. */
  datatype BillableEvent = BillableEvent(shopId: ShopId, entryId: EntryId)

  /** `entry.barbers?.id === b`: a null barber matches no barber id. */
  predicate AssignedTo(e: Entry, b: BarberId) {
    e.barber.Some? && e.barber.value.id == b
  }

  predicate WaitingFor(e: Entry, b: BarberId) {
    AssignedTo(e, b) && e.status == Waiting
  }

  /** The status filter of the live queue query: `.in('status', ['waiting', 'in_progress'])`. */
  predicate IsActive(e: Entry) {
    e.status == Waiting || e.status == InProgress
  }

  predicate IsDone(e: Entry) { e.status == Done }

  predicate IsNoShow(e: Entry) { e.status == NoShow }

  /** The primary key of `queue_entries`. */
  predicate UniqueIds(rows: seq<Entry>) {
    forall i, j :: 0 <= i < j < |rows| ==> rows[i].id != rows[j].id
  }

  /** The workflow invariant: no barber serves two clients at once. */
  predicate SingleServicePerBarber(rows: seq<Entry>) {
    forall i, j ::
      0 <= i < j < |rows| && rows[i].status == InProgress && rows[j].status == InProgress
      && rows[i].barber.Some? && rows[j].barber.Some?
      ==> rows[i].barber.value.id != rows[j].barber.value.id
  }

  /** The names of a barber roster, as the keys of the per-name dictionaries. */
  function RosterNames(barbers: seq<Barber>): set<string> {
    set i | 0 <= i < |barbers| :: barbers[i].name
  }

  // ---------------------------------------------------------------------------
  // Trial quota
  // ---------------------------------------------------------------------------

  /** Free billable clients per month while on trial. */
  const TrialAllowance: int := 100

  /** A shop is on trial when its subscription status is `'trial'` or null. */
  predicate IsTrial(s: Option<Subscription>): (b: bool)
    ensures b <==> !(s == Some(Active) || s == Some(PastDue))
  {
    match s
    case None => true
    case Some(Trial) => true
    case Some(_) => false
  }

  /** `trialUsages`: the allowance left after this month's billable events; it goes
      negative once the count passes the allowance. */
  function TrialUsages(billableCount: int): (r: int)
    ensures r <= 0 <==> billableCount >= TrialAllowance
    ensures r < TrialAllowance <==> billableCount > 0
  {
    TrialAllowance - billableCount
  }

  /** The number the usage card shows: `trialUsages > 0 ? trialUsages : 0`. */
  function DisplayedUsages(billableCount: int): (r: nat)
    ensures billableCount <= TrialAllowance ==> r == TrialAllowance - billableCount
    ensures billableCount >= TrialAllowance ==> r == 0
    ensures r <= TrialAllowance || billableCount < 0
  {
    var u := TrialUsages(billableCount);
    if u > 0 then u else 0
  }

  /** The trial half of the Start gate: on trial with no usages left. */
  predicate TrialExhausted(s: Option<Subscription>, billableCount: int): (b: bool)
    ensures b <==> IsTrial(s) && DisplayedUsages(billableCount) == 0
  {
    IsTrial(s) && TrialUsages(billableCount) <= 0
  }
}
