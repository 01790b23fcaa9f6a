/**
 * What a checkout call does in each stretch, in the fields of the rows; and that a call nobody disturbs opens a
 * session.
 */
module CheckoutLaws {
  import opened Outcomes
  import opened Billing
  import opened BillingLaws
  import opened Checkout
  import opened CheckoutWorld

  // ---- The first stretch

  /** With an attempt chosen, the call goes on to the price, or to a customer first if the account has none. */
  ghost predicate GoesOn(r: Rows, c: Call, point: Point, selected: Attempt) {
    if c.actor in r.ledger.accounts then point == ReadingPrice(selected, r.ledger.accounts[c.actor].customer)
    else point == CreatingCustomer(selected)
  }

  /** An account that has a subscription is sent away; nothing is written. */
  lemma BoundIsSentAway(r: Rows, c: Call)
    requires c.actor in r.ledger.accounts && r.ledger.accounts[c.actor].subscription.Some?
    ensures Selected(r, c) == Progress(r, Ended)
  {
  }

  ghost predicate Free(r: Rows, a: Actor) { a in r.ledger.accounts ==> r.ledger.accounts[a].subscription == None }

  /** The first call of an account stores its own attempt as the intent. */
  lemma FirstCallStoresIntent(r: Rows, c: Call)
    requires Free(r, c.actor) && c.actor !in r.intents
    ensures var p := Selected(r, c);
      && p.rows.ledger == r.ledger && p.rows.intents == r.intents[c.actor := Intent(c.attempt, c.now, None, Pending)]
      && GoesOn(r, c, p.point, c.attempt)
  {
  }

  /**
   * A stored session is asked about; an intent without one goes on under its own attempt within 23 hours, and no later.
   */
  lemma LaterCallFollowsIntent(r: Rows, c: Call)
    requires Free(r, c.actor) && c.actor in r.intents
    ensures var p, saved := Selected(r, c), r.intents[c.actor];
      && p.rows == r
      && if saved.session.Some? then
           && p.point.ReadingSession? && p.point.saved == saved.attempt && p.point.session == saved.session.value
           && p.point.known == if c.actor in r.ledger.accounts then Some(r.ledger.accounts[c.actor].customer) else None
         else if saved.createdAt <= c.now < saved.createdAt + 82800 then GoesOn(r, c, p.point, saved.attempt)
         else p.point == Ended
  {
  }

  // ---- What the answers lead to

  /** Only an expired session of this customer, or a completed one, leads on. */
  lemma SessionAnswers(known: Option<Customer>, saved: Attempt, x: SessionId, answer: Session)
    ensures var p := SessionSeen(ReadingSession(known, saved, x), answer);
      if known != Some(answer.customer) || answer.status == Open then p == Ended
      else if answer.status == Expired then p == Replacing(answer.customer, saved, x)
      else p == ReadingPlan(answer.customer, saved, x, answer.status.plan)
  {
  }

  lemma PlanAnswers(customer: Customer, saved: Attempt, x: SessionId, plan: SubscriptionId, answer: Subscription)
    ensures var p := PlanSeen(ReadingPlan(customer, saved, x, plan), answer);
      p == if answer.id == plan && answer.customer == customer then Reconciling(customer, saved, x, answer) else Ended
  {
  }

  /** An answer about a session is the provider's own; a made-up subscription is not believed. */
  lemma AnswersAreTrue(p: Provider, point: Point, answer: Answer)
    requires Reads(point)
    ensures point.ReadingSession? ==>
      Learnt(p, point, answer) ==
        if point.session in p.sessions then SessionSeen(point, p.sessions[point.session]) else Ended
    ensures point.ReadingPlan? && Learnt(p, point, answer) != Ended ==>
      && answer.ThePlan? && answer.s.id in p.plans && answer.s.customer == p.plans[answer.s.id].customer
      && (p.plans[answer.s.id].ended <==> answer.s.standing == Canceled || answer.s.standing == IncompleteExpired)
      && Learnt(p, point, answer) == PlanSeen(point, answer.s)
    ensures point.CreatingCustomer? ==>
      Learnt(p, point, answer) == if answer.TheCustomer? then Enrolling(point.selected, answer.customer) else Ended
    ensures point.ReadingPrice? ==>
      Learnt(p, point, answer) == if answer == ThePrice(true) then Posting(point.selected, point.customer) else Ended
  {
  }

  // ---- Reconciling a completed session

  /**
   * A running subscription behind a completed session binds its account, as paid as it is, and completes the intent.
   */
  lemma RunningPlanIsApplied(r: Rows, c: Call, price: Price, a: Actor, end: int)
    requires UniqueCustomers(r.ledger) && c.point.Reconciling? && c.point.seen.standing.Live?
    requires var s := c.point.seen;
      && a in r.ledger.accounts && r.ledger.accounts[a].customer == s.customer && s.id !in r.ledger.retired
      && (r.ledger.accounts[a].subscription == None || r.ledger.accounts[a].subscription == Some(s.id))
      && LastsUntil(s, end)
    ensures var p, s := Reconciled(r, c, price), c.point.seen;
      && p.point == Ended && OnlyAccount(r.ledger, p.rows.ledger, a) && p.rows.ledger.retired == r.ledger.retired
      && p.rows.ledger.accounts[a] == Account(s.customer, Some(s.id), p.rows.ledger.accounts[a].active, end, c.now)
      && (p.rows.ledger.accounts[a].active <==> PaidInFull(s, price))
      && p.rows.intents ==
           if c.actor in r.intents then r.intents[c.actor := r.intents[c.actor].(state := Completed)] else r.intents
  {
    ObservedRunning(r.ledger, c.point.seen, price, c.now, a, end);
  }

  /**
   * An ended subscription behind a completed session is retired, releases its account, and lets the intent be replaced.
   */
  lemma EndedPlanIsApplied(r: Rows, c: Call, price: Price, a: Actor)
    requires UniqueCustomers(r.ledger) && c.point.Reconciling?
    requires c.point.seen.standing == Canceled || c.point.seen.standing == IncompleteExpired
    requires var s := c.point.seen;
      && a in r.ledger.accounts && r.ledger.accounts[a].customer == s.customer && s.id !in r.ledger.retired
    ensures var p, s := Reconciled(r, c, price), c.point.seen;
      && p.point == Replacing(c.point.customer, c.point.saved, c.point.session) && p.rows.intents == r.intents
      && OnlyAccount(r.ledger, p.rows.ledger, a) && p.rows.ledger.retired == r.ledger.retired[s.id := s.customer]
      && (r.ledger.accounts[a].subscription == None || r.ledger.accounts[a].subscription == Some(s.id) ==>
            p.rows.ledger.accounts[a] == Account(s.customer, None, false, 0, c.now))
  {
    ObservedEnd(r.ledger, c.point.seen, price, c.now, a);
  }

  /** A subscription that billing refuses ends the call without a write. */
  lemma RefusedPlanEnds(r: Rows, c: Call, price: Price)
    requires UniqueCustomers(r.ledger) && c.point.Reconciling? && Observed(r.ledger, c.point.seen, price, c.now).Err?
    ensures Reconciled(r, c, price) == Progress(r, Ended)
  {
  }

  // ---- Writing the intent and the account

  /**
   * The intent moves to this call's attempt exactly if it differs, and the attempt and session checked are still
   * stored.
   */
  lemma ReplaceExactly(r: Rows, c: Call)
    requires c.point.Replacing?
    ensures var p := Replaced(r, c);
      if c.attempt != c.point.saved && c.actor in r.intents
         && r.intents[c.actor].attempt == c.point.saved && r.intents[c.actor].session == Some(c.point.session)
      then
        && p.rows.ledger == r.ledger && p.rows.intents == r.intents[c.actor := Intent(c.attempt, c.now, None, Pending)]
        && p.point == ReadingPrice(c.attempt, c.point.customer)
      else p == Progress(r, Ended)
  {
  }

  lemma EnrollExactly(r: Rows, c: Call)
    requires c.point.Enrolling? && UniqueCustomers(r.ledger)
    ensures var p := Enrolled(r, c);
      if c.actor in r.ledger.accounts
         || exists b :: b in r.ledger.accounts && r.ledger.accounts[b].customer == c.point.customer
      then p == Progress(r, Ended)
      else
        && p.rows.intents == r.intents && p.rows.ledger.retired == r.ledger.retired
        && p.rows.ledger.events == r.ledger.events
        && p.rows.ledger.accounts == r.ledger.accounts[c.actor := Account(c.point.customer, None, false, 0, 0)]
        && p.point == ReadingPrice(c.point.selected, c.point.customer)
  {
  }

  lemma RecordExactly(r: Rows, c: Call)
    requires c.point.Recording?
    ensures var p := Recorded(r, c);
      && p.point == Ended && p.rows.ledger == r.ledger
      && p.rows.intents ==
           if c.actor in r.intents && r.intents[c.actor].attempt == c.point.selected
           then r.intents[c.actor := r.intents[c.actor].(session := Some(c.point.session), state := Opened)]
           else r.intents
  {
  }

  // ---- A call nobody disturbs

  /** The call's request makes an open session of its customer under its key, or finds the one made before. */
  lemma PostExactly(w: World, id: CallId, x: SessionId)
    requires id in w.calls && w.calls[id].point.Posting? && x !in w.provider.sessions
    ensures var c := w.calls[id];
      var key := Key(c.point.customer, c.point.selected);
      var v := Requested(w, id, NewSession(x));
      && v.rows == w.rows && v.calls.Keys == w.calls.Keys
      && if key in w.provider.posted then
           && v.provider == w.provider
           && v.calls[id] == c.(point := Recording(c.point.selected, c.point.customer, w.provider.posted[key].session))
         else
           && v.provider.sessions == w.provider.sessions[x := Session(c.point.customer, Open)]
           && v.provider.posted == w.provider.posted[key := Posted(x, w.provider.time)]
           && v.provider.plans == w.provider.plans && v.provider.time == w.provider.time
           && v.calls[id] == c.(point := Recording(c.point.selected, c.point.customer, x))
  {
  }

  /** From the price on: ask for it, post, and store the answer. */
  function Finish(w: World, id: CallId, x: SessionId): World
    requires UniqueCustomers(w.rows.ledger)
  {
    var priced := StepOf(w, Request(id, ThePrice(true)));
    assert priced.rows == w.rows;
    var posted := StepOf(priced, Request(id, NewSession(x)));
    assert posted.rows == w.rows;
    StepOf(posted, Write(id, ""))
  }

  /** The account's intent is this attempt, with an open session of its customer. */
  ghost predicate HasOpenSession(w: World, a: Actor, customer: Customer, k: Attempt, x: SessionId) {
    && a in w.rows.intents && w.rows.intents[a].attempt == k && w.rows.intents[a].session == Some(x)
    && w.rows.intents[a].state == Opened
    && x in w.provider.sessions && w.provider.sessions[x] == Session(customer, Open)
  }

  lemma FinishOpens(w: World, id: CallId, x: SessionId, k: Attempt, customer: Customer)
    requires UniqueCustomers(w.rows.ledger) && id in w.calls && w.calls[id].point == ReadingPrice(k, customer)
    requires w.calls[id].actor in w.rows.intents && w.rows.intents[w.calls[id].actor].attempt == k
    requires Key(customer, k) !in w.provider.posted && x !in w.provider.sessions
    ensures var v := Finish(w, id, x); HasOpenSession(v, w.calls[id].actor, customer, k, x) && id !in v.calls
  {
    var c := w.calls[id];
    var priced := StepOf(w, Request(id, ThePrice(true)));
    assert priced == w.(calls := w.calls[id := c.(point := Posting(k, customer))]);
    PostExactly(priced, id, x);
    var posted := StepOf(priced, Request(id, NewSession(x)));
    RecordExactly(posted.rows, posted.calls[id]);
  }

  /**
   * A checkout that nobody disturbs, of an account with a customer, no subscription and no intent yet, ends with an
   * open session of that customer stored under the call's own attempt.
   */
  lemma FirstCheckoutOpens(w: World, id: CallId, x: SessionId, a: Actor)
    requires UniqueCustomers(w.rows.ledger) && id in w.calls && w.calls[id].point.Start? && w.calls[id].actor == a
    requires a in w.rows.ledger.accounts && w.rows.ledger.accounts[a].subscription.None? && a !in w.rows.intents
    requires Key(w.rows.ledger.accounts[a].customer, w.calls[id].attempt) !in w.provider.posted
    requires x !in w.provider.sessions
    ensures var v := StepOf(w, Write(id, ""));
      && UniqueCustomers(v.rows.ledger)
      && HasOpenSession(Finish(v, id, x), a, w.rows.ledger.accounts[a].customer, w.calls[id].attempt, x)
  {
    FirstCallStoresIntent(w.rows, w.calls[id]);
    FinishOpens(StepOf(w, Write(id, "")), id, x, w.calls[id].attempt, w.rows.ledger.accounts[a].customer);
  }

  /** And of an account whose stored session has expired, it ends so under a new attempt. */
  lemma ExpiredCheckoutReopens(w: World, id: CallId, x: SessionId, a: Actor, gone: SessionId)
    requires UniqueCustomers(w.rows.ledger) && id in w.calls && w.calls[id].point.Start? && w.calls[id].actor == a
    requires a in w.rows.ledger.accounts && w.rows.ledger.accounts[a].subscription.None? && a in w.rows.intents
    requires w.rows.intents[a].session == Some(gone) && w.rows.intents[a].attempt != w.calls[id].attempt
    requires gone in w.provider.sessions
    requires w.provider.sessions[gone] == Session(w.rows.ledger.accounts[a].customer, Expired)
    requires Key(w.rows.ledger.accounts[a].customer, w.calls[id].attempt) !in w.provider.posted
    requires x !in w.provider.sessions
    ensures var one := StepOf(w, Write(id, ""));
      && UniqueCustomers(one.rows.ledger)
      && var two := StepOf(one, Request(id, Nothing));
         && UniqueCustomers(two.rows.ledger)
         && var three := StepOf(two, Write(id, ""));
            && UniqueCustomers(three.rows.ledger)
            && HasOpenSession(Finish(three, id, x), a, w.rows.ledger.accounts[a].customer, w.calls[id].attempt, x)
  {
    var c, customer, saved := w.calls[id], w.rows.ledger.accounts[a].customer, w.rows.intents[a].attempt;
    LaterCallFollowsIntent(w.rows, c);
    var one := StepOf(w, Write(id, ""));
    assert one == w.(calls := w.calls[id := c.(point := ReadingSession(Some(customer), saved, gone))]);
    var two := StepOf(one, Request(id, Nothing));
    assert two == w.(calls := w.calls[id := c.(point := Replacing(customer, saved, gone))]);
    ReplaceExactly(two.rows, two.calls[id]);
    FinishOpens(StepOf(two, Write(id, "")), id, x, c.attempt, customer);
  }
}
