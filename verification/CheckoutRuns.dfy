/** Over whole runs: an account never owes two payments, and a new attempt follows only a dead session. */
module CheckoutRuns {
  import opened Outcomes
  import opened Billing
  import opened Checkout
  import opened CheckoutWorld
  import opened CheckoutSafety
  import opened CheckoutSteps
  import opened CheckoutWrites
  import BillingRuns

  lemma BilledKeepsCustomers(l: Ledger, step: BillingRuns.Step)
    requires UniqueCustomers(l) && !step.Opened?
    ensures forall b :: CustomerOf(BillingRuns.StepOf(l, step), b) == CustomerOf(l, b)
  {
  }

  lemma BilledKeeps(w: World, step: BillingRuns.Step, d: Disciplines)
    requires WorldOk(w, d) && !step.Opened?
    ensures WorldOk(StepOf(w, Billed(step)), d)
  {
    var v := StepOf(w, Billed(step));
    BilledKeepsCustomers(w.rows.ledger, step);
    forall a ensures AccountIn(v, a, d) { assert AccountIn(w, a, d); }
    forall id | id in v.calls ensures CallIn(v, v.calls[id], d) { assert CallIn(w, w.calls[id], d); }
    forall c: Customer | Owned(w.rows, c) ensures Owned(v.rows, c) {
      var b :| CustomerOf(w.rows.ledger, b) == Some(c) && b in w.rows.intents;
      assert CustomerOf(v.rows.ledger, b) == Some(c);
    }
  }

  lemma WriteKeeps(w: World, id: CallId, price: Price, d: Disciplines)
    requires WorldOk(w, d) && id in w.calls && Fair(w, Write(id, price)) && Disciplined(w, Write(id, price), d)
    ensures WorldOk(WrittenIn(w, id, price), d)
  {
    match w.calls[id].point
    case Start => SelectKeeps(w, id, price, d);
    case Reconciling(_, _, _, _) => ReconcileKeeps(w, id, price, d);
    case Replacing(_, _, _) => ReplaceKeeps(w, id, price, d);
    case Enrolling(_, _) => EnrollKeeps(w, id, price, d);
    case Recording(_, _, _) => RecordKeeps(w, id, price, d);
    case _ =>
  }

  lemma CallsCome(w: World, step: Step, d: Disciplines)
    requires WorldOk(w, d) && Disciplined(w, step, d) && (step.Begin? || step.Drop?)
    ensures WorldOk(StepOf(w, step), d)
  {
    var v := StepOf(w, step);
    forall a ensures AccountIn(v, a, d) { assert AccountIn(w, a, d); }
  }

  /** Every step keeps the invariant. */
  lemma StepKeeps(w: World, step: Step, d: Disciplines)
    requires WorldOk(w, d) && Fair(w, step) && Disciplined(w, step, d)
    ensures WorldOk(StepOf(w, step), d)
  {
    match step
    case Begin(_, _, _) => CallsCome(w, step, d);
    case Drop(_) => CallsCome(w, step, d);
    case Write(id, price) => if id in w.calls { WriteKeeps(w, id, price, d); }
    case Request(id, answer) => if id in w.calls { RequestKeeps(w, id, answer, d); }
    case Billed(billing) => if !billing.Opened? { BilledKeeps(w, billing, d); }
    case _ => MoveKeeps(w, step, d);
  }

  lemma {:induction false} RunKeeps(trace: seq<Moment>, d: Disciplines, k: nat)
    requires Run(trace, d) && k < |trace|
    ensures WorldOk(trace[k].before, d) && WorldOk(trace[k].after, d)
  {
    if k > 0 {
      RunKeeps(trace, d, k - 1);
    }
    StepKeeps(trace[k].before, trace[k].step, d);
  }

  // ---- The theorems

  /** What an account may have to pay: a session still open, or a subscription still running. */
  datatype Debt = OpenSession(x: SessionId) | RunningPlan(plan: SubscriptionId)

  ghost predicate Owes(w: World, a: Actor, debt: Debt) {
    && a in w.rows.ledger.accounts
    && var c, p := w.rows.ledger.accounts[a].customer, w.provider;
       match debt
       case OpenSession(x) => x in p.sessions && p.sessions[x] == Session(c, Open)
       case RunningPlan(plan) => plan in p.plans && p.plans[plan].customer == c && !p.plans[plan].ended
  }

  function SessionOf(p: Provider, debt: Debt): SessionId
    requires debt.RunningPlan? ==> debt.plan in p.plans
  {
    match debt
    case OpenSession(x) => x
    case RunningPlan(plan) => p.plans[plan].session
  }

  lemma DebtIsLive(w: World, a: Actor, debt: Debt)
    requires ProviderOk(w.provider) && Owes(w, a, debt)
    ensures LiveFor(w.provider, SessionOf(w.provider, debt), w.rows.ledger.accounts[a].customer)
  {
  }

  lemma SameDebt(w: World, a: Actor, d: Disciplines, one: Debt, two: Debt)
    requires WorldOk(w, d) && Owes(w, a, one) && Owes(w, a, two) && !d(a).Unrestrained?
    ensures one == two
  {
    DebtIsLive(w, a, one);
    DebtIsLive(w, a, two);
    assert AccountIn(w, a, d);
  }

  /**
   * Whatever requests are lost, whenever calls are cut off and however the provider moves, an account never has two
   * things to pay, and nothing is payable in the name of a customer without an account.
   */
  lemma OnePaymentPerAccount(trace: seq<Moment>, d: Disciplines, k: nat, a: Actor, one: Debt, two: Debt)
    requires Run(trace, d) && k < |trace|
    ensures Owes(trace[k].after, a, one) && Owes(trace[k].after, a, two) && !d(a).Unrestrained? ==> one == two
    ensures forall x :: x in trace[k].after.provider.sessions ==>
      exists b :: CustomerOf(trace[k].after.rows.ledger, b) == Some(trace[k].after.provider.sessions[x].customer)
  {
    var w := trace[k].after;
    RunKeeps(trace, d, k);
    if Owes(w, a, one) && Owes(w, a, two) && !d(a).Unrestrained? {
      SameDebt(w, a, d, one, two);
    }
    forall x | x in w.provider.sessions
      ensures exists b :: CustomerOf(w.rows.ledger, b) == Some(w.provider.sessions[x].customer)
    {
      var b :| CustomerOf(w.rows.ledger, b) == Some(w.provider.sessions[x].customer) && b in w.rows.intents;
    }
  }

  /** Only a call that replaces the intent it read changes an attempt. */
  lemma AttemptMovesBy(w: World, step: Step, a: Actor)
    requires UniqueCustomers(w.rows.ledger) && a in w.rows.intents
    ensures var v := StepOf(w, step);
      && a in v.rows.intents
      && (v.rows.intents[a].attempt != w.rows.intents[a].attempt ==>
            && step.Write? && step.id in w.calls && w.calls[step.id].actor == a && w.calls[step.id].point.Replacing?
            && w.rows.intents[a].session == Some(w.calls[step.id].point.session))
  {
  }

  /** An account's attempt moves on only when the session stored for it has expired, or its subscription has ended. */
  lemma NewAttemptAfterDeadSession(trace: seq<Moment>, d: Disciplines, k: nat, a: Actor)
    requires Run(trace, d) && k < |trace| && a in trace[k].before.rows.intents
    ensures a in trace[k].after.rows.intents
    ensures trace[k].after.rows.intents[a].attempt != trace[k].before.rows.intents[a].attempt ==>
      var stored := trace[k].before.rows.intents[a].session;
      stored.Some? && Dead(trace[k].before.provider, stored.value)
  {
    var m := trace[k];
    RunKeeps(trace, d, k);
    AttemptMovesBy(m.before, m.step, a);
    if m.after.rows.intents[a].attempt != m.before.rows.intents[a].attempt {
      assert CallIn(m.before, m.before.calls[m.step.id], d);
    }
  }

  /**
   * The provider makes a session only under the attempt stored for the account, less than a day after it was stored.
   */
  lemma SessionsMadeInTheWindow(trace: seq<Moment>, d: Disciplines, k: nat, id: CallId, answer: Answer)
    requires Run(trace, d) && k < |trace| && trace[k].step == Request(id, answer) && id in trace[k].before.calls
    requires !d(trace[k].before.calls[id].actor).Unrestrained?
    requires trace[k].after.provider.sessions != trace[k].before.provider.sessions
    ensures var w, c := trace[k].before, trace[k].before.calls[id];
      && c.actor in w.rows.intents && w.rows.intents[c.actor].attempt == c.point.selected
      && w.rows.intents[c.actor].session.None?
      && w.rows.intents[c.actor].createdAt <= w.provider.time < w.rows.intents[c.actor].createdAt + KEY_SECONDS
      && (forall x :: !LiveFor(w.provider, x, c.point.customer))
  {
    var w, c := trace[k].before, trace[k].before.calls[id];
    RunKeeps(trace, d, k);
    assert CallIn(w, c, d) && AccountIn(w, c.actor, d);
    FirstPost(w.provider, CustomerOf(w.rows.ledger, c.actor), IntentOf(w.rows, c.actor), c, d(c.actor));
  }
}
