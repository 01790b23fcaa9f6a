/** Billing accounts: what one observed subscription does to them, and what entitles an account. */
module Billing {
  import opened Outcomes

  type Actor = string
  type Customer = nat
  type SubscriptionId = nat
  type Price = string
  type EventId = string

  const FRESH_SECONDS := 86400

  datatype Standing = Live(active: bool) | Canceled | IncompleteExpired

  datatype Item = Item(price: Price, quantity: int, periodEnd: Option<int>)

  /**
   * A subscription as fetched from the provider; `Live(true)` is its "active" status, `Live(false)` any other not
   * final.
   */
  datatype Subscription = Subscription(
    id: SubscriptionId, customer: Customer, standing: Standing, items: Option<seq<Item>>,
    invoicePaid: bool, remaining: Option<int>, periodEnd: Option<int>)

  datatype Account = Account(customer: Customer, subscription: Option<SubscriptionId>, active: bool, validUntil: int,
    checkedAt: int)

  datatype Ledger = Ledger(
    accounts: map<Actor, Account>, retired: map<SubscriptionId, Customer>, events: set<EventId>)

  datatype Refusal = RetiredMismatch | AnotherBound | ItemsMissing

  predicate Final(s: Subscription) { s.standing.Canceled? || s.standing.IncompleteExpired? }

  /** The table's uniqueness constraint on customers. */
  ghost predicate UniqueCustomers(l: Ledger) {
    forall a, b :: a in l.accounts && b in l.accounts && l.accounts[a].customer == l.accounts[b].customer ==> a == b
  }

  function AccountOf(l: Ledger, customer: Customer): (owner: Option<Actor>)
    requires UniqueCustomers(l)
    ensures owner.Some? ==> owner.value in l.accounts && l.accounts[owner.value].customer == customer
    ensures owner.None? ==> forall a :: a in l.accounts ==> l.accounts[a].customer != customer
  {
    if exists a :: a in l.accounts && l.accounts[a].customer == customer
    then Some(var a :| a in l.accounts && l.accounts[a].customer == customer; a) else None
  }

  predicate MayBind(account: Account, id: SubscriptionId) {
    account.subscription.None? || account.subscription == Some(id)
  }

  /** The one item sold here, once, fully paid. */
  predicate PaidFor(s: Subscription, price: Price) {
    && s.items.Some? && |s.items.value| == 1 && s.items.value[0].price == price && s.items.value[0].quantity == 1
    && s.invoicePaid && s.remaining == Some(0) && s.standing == Live(true)
  }

  function PeriodEnd(s: Subscription): int
    requires s.items.Some?
  {
    var first := if s.items.value == [] then None else s.items.value[0].periodEnd;
    if first.Some? then first.value else if s.periodEnd.Some? then s.periodEnd.value else 0
  }

  function Released(account: Account, now: int): Account {
    account.(subscription := None, active := false, validUntil := 0, checkedAt := now)
  }

  function Bound(account: Account, s: Subscription, price: Price, now: int): Account
    requires s.items.Some?
  {
    account.(subscription := Some(s.id), active := PaidFor(s, price), validUntil := PeriodEnd(s), checkedAt := now)
  }

  /**
   * The tombstone of an ended subscription is inserted first; a call can stop here, with the account not yet released.
   */
  function Tombstoned(l: Ledger, s: Subscription): (r: Ledger)
    requires UniqueCustomers(l)
    ensures UniqueCustomers(r)
  {
    if AccountOf(l, s.customer).None? || s.id in l.retired || !Final(s) then l
    else l.(retired := l.retired[s.id := s.customer])
  }

  /** The ledger after one observed subscription. */
  function Observed(l: Ledger, s: Subscription, price: Price, now: int): (r: Result<Ledger, Refusal>)
    requires UniqueCustomers(l)
    ensures r.Ok? ==> UniqueCustomers(r.value)
  {
    var owner := AccountOf(l, s.customer);
    if owner.None? then Ok(l)
    else if s.id in l.retired then
      if l.retired[s.id] != s.customer then Err(RetiredMismatch) else Ok(l)
    else
      var a, account := owner.value, l.accounts[owner.value];
      if Final(s) then
        var marked := Tombstoned(l, s);
        Ok(if MayBind(account, s.id) then marked.(accounts := l.accounts[a := Released(account, now)]) else marked)
      else if !MayBind(account, s.id) then Err(AnotherBound)
      else if s.items.None? then Err(ItemsMissing)
      else Ok(l.(accounts := l.accounts[a := Bound(account, s, price, now)]))
  }

  /** Stale state grants nothing: the last check must be less than a day old and not in the future. */
  predicate Entitled(l: Ledger, actor: Actor, now: int) {
    actor in l.accounts
    && var account := l.accounts[actor];
       account.active && account.validUntil > now && account.checkedAt <= now && now - account.checkedAt < FRESH_SECONDS
  }

  // ---- Events

  /** What an event names: a subscription, an invoice's subscription in its two places, or something else. */
  datatype Subject =
    | Plan(id: SubscriptionId)
    | Invoice(current: Option<SubscriptionId>, legacy: Option<SubscriptionId>)
    | Unrelated

  datatype Event = Event(id: EventId, subject: Subject)

  /** The subscription to fetch, if any; an invoice naming two different ones names none. */
  function Named(subject: Subject): Option<SubscriptionId> {
    match subject
    case Plan(id) => Some(id)
    case Invoice(current, legacy) =>
      if current.Some? && legacy.Some? && current != legacy then None
      else if current.Some? then current else legacy
    case Unrelated => None
  }

  /** The event is recorded together with its effect, or not at all; `fetched` is the provider's current answer. */
  function Delivered(l: Ledger, e: Event, fetched: Option<Subscription>, price: Price, now: int): (r: Ledger)
    requires UniqueCustomers(l)
    ensures UniqueCustomers(r)
  {
    if e.id in l.events || Named(e.subject).None? || fetched.None? || fetched.value.id != Named(e.subject).value then l
    else
      var observed := Observed(l, fetched.value, price, now);
      if observed.Err? then l else observed.value.(events := l.events + {e.id})
  }

  // ---- The rows in place

  class Store {
    var accounts: map<Actor, Account>
    var retired: map<SubscriptionId, Customer>
    var events: set<EventId>

    constructor (l: Ledger)
      ensures Rows() == l
    {
      accounts, retired, events := l.accounts, l.retired, l.events;
    }

    function Rows(): Ledger
      reads this
    {
      Ledger(accounts, retired, events)
    }

    method ApplySubscription(s: Subscription, price: Price, now: int) returns (refused: Option<Refusal>)
      requires UniqueCustomers(Rows())
      modifies this
      ensures var after := Observed(old(Rows()), s, price, now);
        if after.Ok? then refused.None? && Rows() == after.value
        else refused == Some(after.error) && Rows() == old(Rows())
    {
      var owner := AccountOf(Rows(), s.customer);
      if owner.None? {
        return None;
      }
      var a := owner.value;
      var existing := accounts[a].subscription;
      if s.id in retired {
        return if retired[s.id] != s.customer then Some(RetiredMismatch) else None;
      }
      if s.standing.Canceled? || s.standing.IncompleteExpired? {
        retired := retired[s.id := s.customer];
        assert Rows() == Tombstoned(old(Rows()), s);
        if existing.None? || existing.value == s.id {
          var released := accounts[a].(subscription := None, active := false, validUntil := 0, checkedAt := now);
          accounts := accounts[a := released];
        }
        return None;
      }
      if existing.Some? && existing.value != s.id {
        return Some(AnotherBound);
      }
      if s.items.None? {
        return Some(ItemsMissing);
      }
      var items := s.items.value;
      var eligible := |items| == 1 && items[0].price == price && items[0].quantity == 1;
      var paid := s.invoicePaid && s.remaining == Some(0);
      var active := eligible && paid && s.standing == Live(true);
      var periodEnd := PeriodEnd(s);
      accounts := accounts[a :=
        accounts[a].(subscription := Some(s.id), active := active, validUntil := periodEnd, checkedAt := now)];
      return None;
    }

    method Webhook(e: Event, fetched: Option<Subscription>, price: Price, now: int)
      requires UniqueCustomers(Rows())
      modifies this
      ensures Rows() == Delivered(old(Rows()), e, fetched, price, now)
    {
      if e.id in events || Named(e.subject).None? {
        return;
      }
      if fetched.None? || fetched.value.id != Named(e.subject).value {
        return;
      }
      var refused := ApplySubscription(fetched.value, price, now);
      if refused.None? {
        events := events + {e.id};
      }
    }
  }
}
