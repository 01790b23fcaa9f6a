/** The checkout call: its durable intent row, and the points at which it waits for the payment provider. */
module Checkout {
  import opened Outcomes
  import opened Billing

  type Attempt = nat
  type SessionId = nat

  const RETRY_SECONDS := 23 * 3600

  datatype IntentState = Pending | Opened | Completed

  datatype Intent = Intent(attempt: Attempt, createdAt: int, session: Option<SessionId>, state: IntentState)

  datatype Rows = Rows(ledger: Ledger, intents: map<Actor, Intent>)

  datatype SessionStatus = Open | Complete(plan: SubscriptionId) | Expired

  datatype Session = Session(customer: Customer, status: SessionStatus)

  /** Where a call stands; each point but the last is either a request to the provider or a write to the rows. */
  datatype Point =
    | Start
    | ReadingSession(known: Option<Customer>, saved: Attempt, session: SessionId)
    | ReadingPlan(customer: Customer, saved: Attempt, session: SessionId, plan: SubscriptionId)
    | Reconciling(customer: Customer, saved: Attempt, session: SessionId, seen: Subscription)
    | Replacing(customer: Customer, saved: Attempt, session: SessionId)
    | CreatingCustomer(selected: Attempt)
    | Enrolling(selected: Attempt, customer: Customer)
    | ReadingPrice(selected: Attempt, customer: Customer)
    | Posting(selected: Attempt, customer: Customer)
    | Recording(selected: Attempt, customer: Customer, session: SessionId)
    | Ended

  datatype Call = Call(actor: Actor, attempt: Attempt, now: int, point: Point)

  datatype Progress = Progress(rows: Rows, point: Point)

  function CustomerOf(l: Ledger, a: Actor): Option<Customer> {
    if a in l.accounts then Some(l.accounts[a].customer) else None
  }

  /** With the attempt chosen, a customer comes next, unless the account already has one. */
  function Onward(existing: Option<Customer>, selected: Attempt): Point {
    if existing.Some? then ReadingPrice(selected, existing.value) else CreatingCustomer(selected)
  }

  /** From the start of a call to its first request. */
  function Selected(r: Rows, c: Call): Progress {
    var existing := CustomerOf(r.ledger, c.actor);
    if c.actor in r.ledger.accounts && r.ledger.accounts[c.actor].subscription.Some? then Progress(r, Ended)
    else if c.actor !in r.intents then
      Progress(r.(intents := r.intents[c.actor := Intent(c.attempt, c.now, None, Pending)]),
        Onward(existing, c.attempt))
    else
      var saved := r.intents[c.actor];
      if saved.session.Some? then Progress(r, ReadingSession(existing, saved.attempt, saved.session.value))
      else if saved.createdAt <= c.now && c.now - saved.createdAt < RETRY_SECONDS then
        Progress(r, Onward(existing, saved.attempt))
      else Progress(r, Ended)
  }

  /** What the provider's answer about the stored session leads to. */
  function SessionSeen(p: Point, answer: Session): Point
    requires p.ReadingSession?
  {
    if p.known != Some(answer.customer) then Ended
    else match answer.status
      case Open => Ended
      case Complete(plan) => ReadingPlan(answer.customer, p.saved, p.session, plan)
      case Expired => Replacing(answer.customer, p.saved, p.session)
  }

  function PlanSeen(p: Point, answer: Subscription): Point
    requires p.ReadingPlan?
  {
    if answer.id == p.plan && answer.customer == p.customer then Reconciling(p.customer, p.saved, p.session, answer)
    else Ended
  }

  /** The subscription behind a completed session is applied; only its end lets the intent be replaced. */
  function Reconciled(r: Rows, c: Call, price: Price): Progress
    requires c.point.Reconciling? && UniqueCustomers(r.ledger)
  {
    var observed := Observed(r.ledger, c.point.seen, price, c.now);
    if observed.Err? then Progress(r, Ended)
    else
      var applied := r.(ledger := observed.value);
      if Final(c.point.seen) then Progress(applied, Replacing(c.point.customer, c.point.saved, c.point.session))
      else if c.actor in r.intents then
        Progress(applied.(intents := r.intents[c.actor := r.intents[c.actor].(state := Completed)]), Ended)
      else Progress(applied, Ended)
  }

  /** The intent moves to this call's own attempt, if it still is the one whose session was found dead. */
  function Replaced(r: Rows, c: Call): Progress
    requires c.point.Replacing?
  {
    if && c.point.saved != c.attempt && c.actor in r.intents
       && r.intents[c.actor].attempt == c.point.saved && r.intents[c.actor].session == Some(c.point.session)
    then
      Progress(r.(intents := r.intents[c.actor := Intent(c.attempt, c.now, None, Pending)]),
               ReadingPrice(c.attempt, c.point.customer))
    else Progress(r, Ended)
  }

  function Enrolled(r: Rows, c: Call): Progress
    requires c.point.Enrolling? && UniqueCustomers(r.ledger)
  {
    if c.actor in r.ledger.accounts || AccountOf(r.ledger, c.point.customer).Some? then Progress(r, Ended)
    else
      var account := Account(c.point.customer, None, false, 0, 0);
      Progress(r.(ledger := r.ledger.(accounts := r.ledger.accounts[c.actor := account])),
               ReadingPrice(c.point.selected, c.point.customer))
  }

  function Recorded(r: Rows, c: Call): Progress
    requires c.point.Recording?
  {
    if c.actor in r.intents && r.intents[c.actor].attempt == c.point.selected then
      Progress(r.(intents := r.intents[c.actor := r.intents[c.actor].(session := Some(c.point.session),
        state := Opened)]), Ended)
    else Progress(r, Ended)
  }

  predicate WritesRows(p: Point) { p.Start? || p.Reconciling? || p.Replacing? || p.Enrolling? || p.Recording? }

  /** The stretch of a call between two requests. */
  function Written(r: Rows, c: Call, price: Price): Progress
    requires WritesRows(c.point) && UniqueCustomers(r.ledger)
  {
    match c.point
    case Start => Selected(r, c)
    case Reconciling(_, _, _, _) => Reconciled(r, c, price)
    case Replacing(_, _, _) => Replaced(r, c)
    case Enrolling(_, _) => Enrolled(r, c)
    case Recording(_, _, _) => Recorded(r, c)
  }

  // ---- The rows in place

  class CheckoutDesk {
    const store: Store
    var intents: map<Actor, Intent>

    constructor (store: Store, intents: map<Actor, Intent>)
      ensures this.store == store && this.intents == intents
    {
      this.store, this.intents := store, intents;
    }

    function Contents(): Rows
      reads this, store
    {
      Rows(store.Rows(), intents)
    }

    method SelectAttempt(c: Call) returns (point: Point)
      requires c.point.Start?
      modifies this
      ensures Progress(Contents(), point) == Selected(old(Contents()), c)
    {
      var existing := None;
      if c.actor in store.accounts {
        var account := store.accounts[c.actor];
        if account.subscription.Some? {
          return Ended;
        }
        existing := Some(account.customer);
      }
      var selected := c.attempt;
      if c.actor in intents {
        var saved := intents[c.actor];
        if saved.session.Some? {
          return ReadingSession(existing, saved.attempt, saved.session.value);
        }
        if !(saved.createdAt <= c.now && c.now - saved.createdAt < RETRY_SECONDS) {
          return Ended;
        }
        selected := saved.attempt;
      } else {
        intents := intents[c.actor := Intent(c.attempt, c.now, None, Pending)];
      }
      if existing.Some? {
        return ReadingPrice(selected, existing.value);
      }
      return CreatingCustomer(selected);
    }

    method Reconcile(c: Call, price: Price) returns (point: Point)
      requires c.point.Reconciling? && UniqueCustomers(Contents().ledger)
      modifies this, store
      ensures Progress(Contents(), point) == Reconciled(old(Contents()), c, price)
    {
      var refused := store.ApplySubscription(c.point.seen, price, c.now);
      if refused.Some? {
        return Ended;
      }
      if Final(c.point.seen) {
        return Replacing(c.point.customer, c.point.saved, c.point.session);
      }
      if c.actor in intents {
        intents := intents[c.actor := intents[c.actor].(state := Completed)];
      }
      return Ended;
    }

    method ReplaceIntent(c: Call) returns (point: Point)
      requires c.point.Replacing?
      modifies this
      ensures Progress(Contents(), point) == Replaced(old(Contents()), c)
    {
      if c.point.saved == c.attempt {
        return Ended;
      }
      if c.actor !in intents || intents[c.actor].attempt != c.point.saved
         || intents[c.actor].session != Some(c.point.session) {
        return Ended;
      }
      intents := intents[c.actor := Intent(c.attempt, c.now, None, Pending)];
      return ReadingPrice(c.attempt, c.point.customer);
    }

    method Enroll(c: Call) returns (point: Point)
      requires c.point.Enrolling? && UniqueCustomers(Contents().ledger)
      modifies store
      ensures Progress(Contents(), point) == Enrolled(old(Contents()), c)
    {
      var taken := AccountOf(store.Rows(), c.point.customer);
      if c.actor in store.accounts || taken.Some? {
        return Ended;
      }
      store.accounts := store.accounts[c.actor := Account(c.point.customer, None, false, 0, 0)];
      return ReadingPrice(c.point.selected, c.point.customer);
    }

    method RecordSession(c: Call) returns (point: Point)
      requires c.point.Recording?
      modifies this
      ensures Progress(Contents(), point) == Recorded(old(Contents()), c)
    {
      if c.actor in intents && intents[c.actor].attempt == c.point.selected {
        intents := intents[c.actor := intents[c.actor].(session := Some(c.point.session), state := Opened)];
      }
      return Ended;
    }

    /** The rows move as the specification of the whole stretch says, whichever point the call stands at. */
    method Write(c: Call, price: Price) returns (point: Point)
      requires WritesRows(c.point) && UniqueCustomers(Contents().ledger)
      modifies this, store
      ensures Progress(Contents(), point) == Written(old(Contents()), c, price)
    {
      match c.point {
        case Start => point := SelectAttempt(c);
        case Reconciling(_, _, _, _) => point := Reconcile(c, price);
        case Replacing(_, _, _) => point := ReplaceIntent(c);
        case Enrolling(_, _) => point := Enroll(c);
        case Recording(_, _, _) => point := RecordSession(c);
      }
    }
  }
}
