/**
 * Checkout calls running side by side against a payment provider that moves, answers late or not at all, and forgets.
 */
module CheckoutWorld {
  import opened Billing
  import opened Checkout
  import BillingRuns

  const KEY_SECONDS := 24 * 3600
  const CALL_SECONDS := 3600

  type CallId = nat

  datatype Key = Key(customer: Customer, attempt: Attempt)

  /** The provider's record of an idempotency key: the session the first request made, and when. */
  datatype Posted = Posted(session: SessionId, at: int)

  datatype Contract = Contract(customer: Customer, session: SessionId, ended: bool)

  datatype Provider = Provider(
    sessions: map<SessionId, Session>, posted: map<Key, Posted>, plans: map<SubscriptionId, Contract>, time: int)

  datatype World = World(rows: Rows, calls: map<CallId, Call>, provider: Provider)

  const EMPTY := World(Rows(BillingRuns.EMPTY, map[]), map[], Provider(map[], map[], map[], 0))

  /** What comes back from one request, where it is not settled by the provider's own state. */
  datatype Answer =
    | Nothing | ThePlan(s: Subscription) | TheCustomer(customer: Customer) | ThePrice(usable: bool)
    | NewSession(id: SessionId)

  datatype Step =
    | Begin(id: CallId, actor: Actor, attempt: Attempt)
    | Write(id: CallId, price: Price)
    | Request(id: CallId, answer: Answer)
    | Drop(id: CallId)
    | Pay(session: SessionId, plan: SubscriptionId)
    | Expire(session: SessionId)
    | EndPlan(plan: SubscriptionId)
    | Forget(key: Key)
    | Wait(seconds: nat)
    | Billed(step: BillingRuns.Step)

  // ---- One step

  function AtPoint(w: World, id: CallId, p: Point): World
    requires id in w.calls
  {
    if p.Ended? then w.(calls := w.calls - {id}) else w.(calls := w.calls[id := w.calls[id].(point := p)])
  }

  /** The provider makes one session per key, and answers a repeated key with the session it made. */
  function PostSession(p: Provider, key: Key, id: SessionId): Provider {
    if key in p.posted || id in p.sessions then p
    else p.(sessions := p.sessions[id := Session(key.customer, Open)], posted := p.posted[key := Posted(id, p.time)])
  }

  predicate Truthful(p: Provider, s: Subscription) {
    s.id in p.plans && s.customer == p.plans[s.id].customer && Final(s) == p.plans[s.id].ended
  }

  predicate Reads(point: Point) {
    point.ReadingSession? || point.ReadingPlan? || point.CreatingCustomer? || point.ReadingPrice?
  }

  /** The point after a request that makes no session. */
  function Learnt(p: Provider, point: Point, answer: Answer): Point
    requires Reads(point)
  {
    match point
    case ReadingSession(_, _, x) => if x in p.sessions then SessionSeen(point, p.sessions[x]) else Ended
    case ReadingPlan(_, _, _, _) =>
      if answer.ThePlan? && Truthful(p, answer.s) then PlanSeen(point, answer.s) else Ended
    case CreatingCustomer(selected) => if answer.TheCustomer? then Enrolling(selected, answer.customer) else Ended
    case ReadingPrice(selected, customer) => if answer == ThePrice(true) then Posting(selected, customer) else Ended
  }

  function Requested(w: World, id: CallId, answer: Answer): World
    requires id in w.calls
  {
    var point := w.calls[id].point;
    if Reads(point) then AtPoint(w, id, Learnt(w.provider, point, answer))
    else if !point.Posting? then w
    else if !answer.NewSession? then AtPoint(w, id, Ended)
    else
      var key := Key(point.customer, point.selected);
      var done := PostSession(w.provider, key, answer.id);
      AtPoint(w.(provider := done), id,
              if key in done.posted then Recording(point.selected, point.customer, done.posted[key].session) else Ended)
  }

  function WrittenIn(w: World, id: CallId, price: Price): World
    requires id in w.calls && UniqueCustomers(w.rows.ledger)
  {
    if !WritesRows(w.calls[id].point) then w
    else
      var progress := Written(w.rows, w.calls[id], price);
      AtPoint(w.(rows := progress.rows), id, progress.point)
  }

  /** What the provider does by itself: customers pay, sessions expire, subscriptions end, keys lapse, time passes. */
  function Moved(p: Provider, step: Step): Provider {
    match step
    case Pay(x, plan) =>
      if x in p.sessions && p.sessions[x].status.Open? && plan !in p.plans then
        p.(sessions := p.sessions[x := p.sessions[x].(status := Complete(plan))],
           plans := p.plans[plan := Contract(p.sessions[x].customer, x, false)])
      else p
    case Expire(x) =>
      if x in p.sessions && p.sessions[x].status.Open? then
        p.(sessions := p.sessions[x := p.sessions[x].(status := Expired)])
      else p
    case EndPlan(plan) => if plan in p.plans then p.(plans := p.plans[plan := p.plans[plan].(ended := true)]) else p
    case Forget(key) => p.(posted := p.posted - {key})
    case Wait(seconds) => p.(time := p.time + seconds)
    case _ => p
  }

  function StepOf(w: World, step: Step): World
    requires UniqueCustomers(w.rows.ledger)
  {
    match step
    case Begin(id, actor, attempt) =>
      if id in w.calls then w else w.(calls := w.calls[id := Call(actor, attempt, w.provider.time, Start)])
    case Write(id, price) => if id in w.calls then WrittenIn(w, id, price) else w
    case Request(id, answer) => if id in w.calls then Requested(w, id, answer) else w
    case Drop(id) => w.(calls := w.calls - {id})
    case Billed(step) =>
      if step.Opened? then w else w.(rows := w.rows.(ledger := BillingRuns.StepOf(w.rows.ledger, step)))
    case _ => w.(provider := Moved(w.provider, step))
  }

  // ---- What is assumed of the provider and of the callers

  /**
   * Either calls of one account follow each other, or they overlap and an attempt id is not taken up again while its
   * key is held, or neither is promised.
   */
  datatype Discipline = OneAtATime | FreshAttempts | Unrestrained

  /** Each account has its own. */
  type Disciplines = Actor -> Discipline

  /** Keys are held for a day, and a call that has not finished within an hour takes no further step. */
  ghost predicate Fair(w: World, step: Step) {
    match step
    case Forget(key) => key in w.provider.posted ==> w.provider.posted[key].at + KEY_SECONDS <= w.provider.time
    case Write(id, _) => id in w.calls ==> w.provider.time < w.calls[id].now + CALL_SECONDS
    case Request(id, _) => id in w.calls ==> w.provider.time < w.calls[id].now + CALL_SECONDS
    case _ => true
  }

  ghost predicate Disciplined(w: World, step: Step, d: Disciplines) {
    && (step.Begin? && d(step.actor).OneAtATime? ==> forall id :: id in w.calls ==> w.calls[id].actor != step.actor)
    && (step.Write? && step.id in w.calls ==> FreshWrite(w, step.id, d))
  }

  ghost predicate FreshWrite(w: World, id: CallId, d: Disciplines)
    requires id in w.calls
  {
    var c := w.calls[id];
    d(c.actor).FreshAttempts? && c.point.Replacing? ==> Key(c.point.customer, c.attempt) !in w.provider.posted
  }

  datatype Moment = Moment(before: World, step: Step, after: World)

  /** Any sequence of steps from nothing, in any order. */
  ghost predicate Run(trace: seq<Moment>, d: Disciplines) {
    && (forall k :: 0 <= k < |trace| ==>
          && UniqueCustomers(trace[k].before.rows.ledger) && trace[k].after == StepOf(trace[k].before, trace[k].step)
          && Fair(trace[k].before, trace[k].step) && Disciplined(trace[k].before, trace[k].step, d))
    && (trace != [] ==> trace[0].before == EMPTY)
    && (forall k :: 0 < k < |trace| ==> trace[k].before == trace[k - 1].after)
  }
}
