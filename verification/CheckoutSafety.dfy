/** The invariant behind the checkout protocol, as the provider alone can change it. */
module CheckoutSafety {
  import opened Outcomes
  import opened Billing
  import opened Checkout
  import opened CheckoutWorld

  /** The session can still lead to a payment, or leads to one that goes on. */
  ghost predicate LiveFor(p: Provider, x: SessionId, c: Customer) {
    && x in p.sessions && p.sessions[x].customer == c
    && match p.sessions[x].status
       case Open => true
       case Complete(plan) => plan in p.plans && !p.plans[plan].ended
       case Expired => false
  }

  ghost predicate Dead(p: Provider, x: SessionId) {
    && x in p.sessions
    && match p.sessions[x].status
       case Open => false
       case Complete(plan) => plan in p.plans && p.plans[plan].ended
       case Expired => true
  }

  ghost predicate OnlyLive(p: Provider, c: Customer, x: SessionId) {
    forall y :: LiveFor(p, y, c) ==> y == x
  }

  // ---- One account

  /** The session made under the intent's key, while no answer is recorded. */
  ghost predicate MadeFor(p: Provider, c: Customer, i: Intent, x: SessionId) {
    var key := Key(c, i.attempt);
    || i.createdAt + KEY_SECONDS <= p.time
    || (key in p.posted && p.posted[key].session == x && i.createdAt <= p.posted[key].at)
  }

  ghost predicate IntentOk(p: Provider, c: Customer, i: Intent, d: Discipline) {
    && (forall x, y :: LiveFor(p, x, c) && LiveFor(p, y, c) ==> x == y)
    && (forall x :: LiveFor(p, x, c) ==> if i.session.Some? then x == i.session.value else MadeFor(p, c, i, x))
    && (d.FreshAttempts? ==> var key := Key(c, i.attempt); key in p.posted ==>
          i.createdAt <= p.posted[key].at && OnlyLive(p, c, p.posted[key].session))
  }

  ghost predicate AccountOk(p: Provider, holder: Option<Customer>, i: Intent, d: Discipline) {
    i.createdAt <= p.time && (holder.Some? && !d.Unrestrained? ==> IntentOk(p, holder.value, i, d))
  }

  // ---- One call

  /** Until the call must have stopped, its key answers with a session already made. */
  ghost predicate Spent(p: Provider, c: Customer, k: Attempt, now: int) {
    var key := Key(c, k);
    now + CALL_SECONDS <= p.time || (key in p.posted && now + CALL_SECONDS <= p.posted[key].at + KEY_SECONDS)
  }

  ghost predicate FirstFor(i: Intent, k: Attempt, now: int) {
    i.attempt == k && i.session.None? && now < i.createdAt + RETRY_SECONDS
  }

  ghost predicate MayPost(p: Provider, holder: Option<Customer>, i: Option<Intent>, now: int, k: Attempt,
      d: Discipline) {
    && i.Some?
    && (|| d.Unrestrained?
        || FirstFor(i.value, k, now)
        || (d.FreshAttempts? && holder.Some? && Spent(p, holder.value, k, now)))
  }

  ghost predicate MayRecord(p: Provider, c: Customer, i: Option<Intent>, now: int, k: Attempt, x: SessionId,
      d: Discipline) {
    && i.Some?
    && if d.Unrestrained? then true
       else if d.OneAtATime? then i.value.attempt == k && OnlyLive(p, c, x)
       else Spent(p, c, k, now) && (i.value.attempt == k && p.time < now + CALL_SECONDS ==> OnlyLive(p, c, x))
  }

  ghost predicate CallOk(p: Provider, holder: Option<Customer>, i: Option<Intent>, c: Call, d: Discipline) {
    && c.now <= p.time
    && match c.point
       case Start => true
       case Ended => true
       case ReadingSession(known, _, _) => known.Some? ==> holder == known
       case ReadingPlan(customer, _, x, plan) =>
         holder == Some(customer) && x in p.sessions && p.sessions[x].status == Complete(plan)
       case Reconciling(customer, _, x, seen) => holder == Some(customer) && (Final(seen) ==> Dead(p, x))
       case Replacing(customer, _, x) => holder == Some(customer) && Dead(p, x)
       case CreatingCustomer(k) => MayPost(p, holder, i, c.now, k, d)
       case Enrolling(k, _) => MayPost(p, holder, i, c.now, k, d)
       case ReadingPrice(k, customer) => holder == Some(customer) && MayPost(p, holder, i, c.now, k, d)
       case Posting(k, customer) => holder == Some(customer) && MayPost(p, holder, i, c.now, k, d)
       case Recording(k, customer, x) => holder == Some(customer) && MayRecord(p, customer, i, c.now, k, x, d)
  }

  // ---- The whole world

  /** An account's intent, whatever its state word. */
  function IntentOf(r: Rows, a: Actor): Option<Intent> {
    if a in r.intents then Some(r.intents[a].(state := Pending)) else None
  }

  ghost predicate Owned(r: Rows, c: Customer) {
    exists a :: CustomerOf(r.ledger, a) == Some(c) && a in r.intents
  }

  ghost predicate OwnersOk(w: World) {
    && (forall x :: x in w.provider.sessions ==> Owned(w.rows, w.provider.sessions[x].customer))
    && (forall key :: key in w.provider.posted ==> Owned(w.rows, key.customer))
  }

  ghost predicate ProviderOk(p: Provider) {
    && (forall x :: x in p.sessions && p.sessions[x].status.Complete? ==> p.sessions[x].status.plan in p.plans)
    && (forall plan :: plan in p.plans ==>
          && p.plans[plan].session in p.sessions
          && p.sessions[p.plans[plan].session] == Session(p.plans[plan].customer, Complete(plan)))
  }

  ghost predicate AccountIn(w: World, a: Actor, d: Disciplines) {
    var i := IntentOf(w.rows, a);
    i.Some? ==> AccountOk(w.provider, CustomerOf(w.rows.ledger, a), i.value, d(a))
  }

  ghost predicate CallIn(w: World, c: Call, d: Disciplines) {
    CallOk(w.provider, CustomerOf(w.rows.ledger, c.actor), IntentOf(w.rows, c.actor), c, d(c.actor))
  }

  /** The accounts whose calls follow each other have one call at most. */
  ghost predicate Alone(w: World, d: Disciplines) {
    forall m, n :: m in w.calls && n in w.calls && w.calls[m].actor == w.calls[n].actor ==>
      d(w.calls[m].actor).OneAtATime? ==> m == n
  }

  ghost predicate WorldOk(w: World, d: Disciplines) {
    && UniqueCustomers(w.rows.ledger) && OwnersOk(w) && ProviderOk(w.provider)
    && (forall a :: AccountIn(w, a, d))
    && (forall id :: id in w.calls ==> CallIn(w, w.calls[id], d))
    && Alone(w, d)
  }

  // ---- What the provider does by itself

  /** Sessions and subscriptions only end, time only passes, and keys only lapse when a day old. */
  ghost predicate Wanes(p: Provider, q: Provider) {
    && p.time <= q.time
    && (forall x, c :: LiveFor(q, x, c) ==> LiveFor(p, x, c))
    && (forall x :: Dead(p, x) ==> Dead(q, x))
    && (forall x :: x in p.sessions && p.sessions[x].status.Complete? ==>
      x in q.sessions && q.sessions[x] == p.sessions[x])
    && (forall key :: key in q.posted ==> key in p.posted && q.posted[key] == p.posted[key])
    && (forall key :: key in p.posted && key !in q.posted ==> p.posted[key].at + KEY_SECONDS <= q.time)
  }

  lemma WaningKeeps(w: World, v: World, d: Disciplines)
    requires WorldOk(w, d) && v == w.(provider := v.provider) && Wanes(w.provider, v.provider)
    requires OwnersOk(v) && ProviderOk(v.provider)
    ensures WorldOk(v, d)
  {
    forall a ensures AccountIn(v, a, d) { assert AccountIn(w, a, d); }
    forall id | id in v.calls ensures CallIn(v, v.calls[id], d) { assert CallIn(w, w.calls[id], d); }
  }

  lemma MovesWane(p: Provider, step: Step)
    requires ProviderOk(p)
    requires step.Forget? && step.key in p.posted ==> p.posted[step.key].at + KEY_SECONDS <= p.time
    ensures Wanes(p, Moved(p, step))
  {
    var q := Moved(p, step);
    forall x, c | LiveFor(q, x, c) ensures LiveFor(p, x, c) {}
  }

  lemma MovedStaysOk(p: Provider, step: Step)
    requires ProviderOk(p)
    ensures ProviderOk(Moved(p, step)) && Moved(p, step).sessions.Keys == p.sessions.Keys
    ensures forall x :: x in p.sessions ==> Moved(p, step).sessions[x].customer == p.sessions[x].customer
  {
  }

  lemma MoveKeeps(w: World, step: Step, d: Disciplines)
    requires WorldOk(w, d)
    requires step.Forget? && step.key in w.provider.posted ==>
      w.provider.posted[step.key].at + KEY_SECONDS <= w.provider.time
    ensures WorldOk(w.(provider := Moved(w.provider, step)), d)
  {
    MovesWane(w.provider, step);
    MovedStaysOk(w.provider, step);
    WaningKeeps(w, w.(provider := Moved(w.provider, step)), d);
  }
}
