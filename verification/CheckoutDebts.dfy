/**
 * How an account comes to owe twice, whatever its callers do; and what becomes of an account whose release was cut off.
 */
module CheckoutDebts {
  import opened Billing
  import opened Checkout
  import opened CheckoutWorld
  import opened CheckoutSafety
  import opened CheckoutRuns
  import BillingRuns

  // ---- Two debts

  ghost predicate OwedBy(p: Provider, c: Customer, debt: Debt) {
    match debt
    case OpenSession(x) => x in p.sessions && p.sessions[x] == Session(c, Open)
    case RunningPlan(plan) => plan in p.plans && p.plans[plan].customer == c && !p.plans[plan].ended
  }

  ghost predicate OwesTwice(p: Provider, c: Customer) {
    exists one, two :: one != two && OwedBy(p, c, one) && OwedBy(p, c, two)
  }

  /** A request whose key the provider does not hold makes a session for the customer. */
  ghost predicate Makes(w: World, step: Step, c: Customer) {
    && step.Request? && step.id in w.calls && step.answer.NewSession? && step.answer.id !in w.provider.sessions
    && var point := w.calls[step.id].point;
       point.Posting? && point.customer == c && Key(point.customer, point.selected) !in w.provider.posted
  }

  ghost predicate MakesWhileOwing(m: Moment, c: Customer) {
    Makes(m.before, m.step, c) && exists debt :: OwedBy(m.before.provider, c, debt)
  }

  /** A session is made under a key not held before. */
  ghost predicate PostsNew(p: Provider, key: Key, x: SessionId, q: Provider) {
    key !in p.posted && x !in p.sessions && q == PostSession(p, key, x)
  }

  /** Requests that make a session add it; every other step leaves the provider alone or is one of its own moves. */
  lemma ProviderStep(w: World, step: Step, c: Customer)
    requires UniqueCustomers(w.rows.ledger)
    ensures var q := StepOf(w, step).provider;
      || (exists key, x :: PostsNew(w.provider, key, x, q) && (Makes(w, step, c) <==> key.customer == c))
      || (!Makes(w, step, c) && (q == w.provider || q == Moved(w.provider, step)))
  {
    if step.Request? && step.id in w.calls && step.answer.NewSession? && w.calls[step.id].point.Posting? {
      var point := w.calls[step.id].point;
      var key := Key(point.customer, point.selected);
      if key !in w.provider.posted && step.answer.id !in w.provider.sessions {
        assert PostsNew(w.provider, key, step.answer.id, StepOf(w, step).provider);
      }
    }
  }

  /** A debt after one of the provider's moves was a debt before, as the session it was paid through or as itself. */
  function Earlier(p: Provider, step: Step, debt: Debt): Debt {
    if step.Pay? && debt == RunningPlan(step.plan) && step.plan !in p.plans then OpenSession(step.session) else debt
  }

  lemma MovedOwes(p: Provider, step: Step, c: Customer, debt: Debt)
    requires OwedBy(Moved(p, step), c, debt)
    ensures OwedBy(p, c, Earlier(p, step, debt))
  {
  }

  lemma MovedOwesOnce(p: Provider, step: Step, c: Customer)
    requires ProviderOk(p) && OwesTwice(Moved(p, step), c)
    ensures OwesTwice(p, c)
  {
    var q := Moved(p, step);
    var one, two :| one != two && OwedBy(q, c, one) && OwedBy(q, c, two);
    MovedOwes(p, step, c, one);
    MovedOwes(p, step, c, two);
    assert Earlier(p, step, one) != Earlier(p, step, two);
  }

  lemma PostedOwes(p: Provider, key: Key, x: SessionId, c: Customer, debt: Debt)
    requires key !in p.posted && x !in p.sessions
    ensures OwedBy(PostSession(p, key, x), c, debt) <==>
      OwedBy(p, c, debt) || (key.customer == c && debt == OpenSession(x))
  {
  }

  lemma PostedOwesTwice(p: Provider, key: Key, x: SessionId, c: Customer)
    requires key !in p.posted && x !in p.sessions
    ensures OwesTwice(PostSession(p, key, x), c) <==>
      OwesTwice(p, c) || (key.customer == c && exists debt :: OwedBy(p, c, debt))
  {
    var q := PostSession(p, key, x);
    if OwesTwice(q, c) {
      var one, two :| one != two && OwedBy(q, c, one) && OwedBy(q, c, two);
      PostedOwes(p, key, x, c, one);
      PostedOwes(p, key, x, c, two);
    }
    if OwesTwice(p, c) {
      var one, two :| one != two && OwedBy(p, c, one) && OwedBy(p, c, two);
      PostedOwes(p, key, x, c, one);
      PostedOwes(p, key, x, c, two);
    }
    if debt :| key.customer == c && OwedBy(p, c, debt) {
      PostedOwes(p, key, x, c, debt);
      PostedOwes(p, key, x, c, OpenSession(x));
      assert debt != OpenSession(x);
    }
  }

  lemma PostedStaysOk(p: Provider, key: Key, x: SessionId)
    requires ProviderOk(p)
    ensures ProviderOk(PostSession(p, key, x))
  {
  }

  lemma StepStaysOk(w: World, step: Step)
    requires UniqueCustomers(w.rows.ledger) && ProviderOk(w.provider)
    ensures ProviderOk(StepOf(w, step).provider)
  {
    ProviderStep(w, step, 0);
    MovedStaysOk(w.provider, step);
    if key, x :| PostsNew(w.provider, key, x, StepOf(w, step).provider) {
      PostedStaysOk(w.provider, key, x);
    }
  }

  /** One step makes a customer owe twice exactly if it makes a session while something is owed. */
  lemma TwiceStep(m: Moment, c: Customer)
    requires UniqueCustomers(m.before.rows.ledger) && ProviderOk(m.before.provider)
    requires m.after == StepOf(m.before, m.step)
    ensures OwesTwice(m.after.provider, c) ==> OwesTwice(m.before.provider, c) || MakesWhileOwing(m, c)
    ensures MakesWhileOwing(m, c) ==> OwesTwice(m.after.provider, c)
  {
    var p := m.before.provider;
    ProviderStep(m.before, m.step, c);
    if key, x :| PostsNew(p, key, x, m.after.provider) && (Makes(m.before, m.step, c) <==> key.customer == c) {
      PostedOwesTwice(p, key, x, c);
    } else if OwesTwice(m.after.provider, c) && m.after.provider != p {
      MovedOwesOnce(p, m.step, c);
    }
  }

  lemma {:induction false} ProviderStaysOk(trace: seq<Moment>, d: Disciplines, k: nat)
    requires Run(trace, d) && k < |trace|
    ensures ProviderOk(trace[k].before.provider) && ProviderOk(trace[k].after.provider)
  {
    if k > 0 {
      ProviderStaysOk(trace, d, k - 1);
    }
    StepStaysOk(trace[k].before, trace[k].step);
  }

  lemma NothingOwed(c: Customer)
    ensures !OwesTwice(EMPTY.provider, c)
  {
  }

  lemma {:induction false} TwiceWasMade(trace: seq<Moment>, d: Disciplines, k: nat, c: Customer) returns (j: nat)
    requires Run(trace, d) && k < |trace| && OwesTwice(trace[k].after.provider, c)
    ensures j <= k && MakesWhileOwing(trace[j], c)
  {
    ProviderStaysOk(trace, d, k);
    TwiceStep(trace[k], c);
    NothingOwed(c);
    if MakesWhileOwing(trace[k], c) {
      j := k;
    } else {
      j := TwiceWasMade(trace, d, k - 1, c);
    }
  }

  /**
   * Whatever the callers do, a customer comes to owe two payments in a run if and only if some request makes a session,
   * under a key the provider does not hold, while a session of theirs is open or a subscription of theirs is running.
   */
  lemma OwesTwiceExactly(trace: seq<Moment>, d: Disciplines, c: Customer)
    requires Run(trace, d)
    ensures (exists k :: 0 <= k < |trace| && OwesTwice(trace[k].after.provider, c)) <==>
      (exists k :: 0 <= k < |trace| && MakesWhileOwing(trace[k], c))
  {
    if k :| 0 <= k < |trace| && OwesTwice(trace[k].after.provider, c) {
      var j := TwiceWasMade(trace, d, k, c);
    }
    if k :| 0 <= k < |trace| && MakesWhileOwing(trace[k], c) {
      ProviderStaysOk(trace, d, k);
      TwiceStep(trace[k], c);
    }
  }

  // ---- An account that can never check out again

  /** Whatever a checkout step does to the billing rows is a step of billing. */
  lemma LedgerStep(w: World, step: Step)
    requires UniqueCustomers(w.rows.ledger)
    ensures var l := StepOf(w, step).rows.ledger;
      l == w.rows.ledger || exists b: BillingRuns.Step :: l == BillingRuns.StepOf(w.rows.ledger, b)
  {
    if step.Write? && step.id in w.calls && WritesRows(w.calls[step.id].point) {
      WriteLedger(w.rows, w.calls[step.id], step.price);
    }
  }

  lemma WriteLedger(r: Rows, c: Call, price: Price)
    requires UniqueCustomers(r.ledger) && WritesRows(c.point)
    ensures var l := Written(r, c, price).rows.ledger;
      l == r.ledger || exists b: BillingRuns.Step :: l == BillingRuns.StepOf(r.ledger, b)
  {
    var l := Written(r, c, price).rows.ledger;
    if c.point.Reconciling? {
      assert l == BillingRuns.StepOf(r.ledger, BillingRuns.Fetched(c.point.seen, price, c.now));
    } else if c.point.Enrolling? {
      assert l == BillingRuns.StepOf(r.ledger, BillingRuns.Opened(c.actor, c.point.customer));
    }
  }

  lemma BillingKeepsStranded(l: Ledger, b: BillingRuns.Step, a: Actor, id: SubscriptionId)
    requires UniqueCustomers(l) && BillingRuns.Stranded(l, a, id)
    ensures BillingRuns.Stranded(BillingRuns.StepOf(l, b), a, id)
  {
    var m := BillingRuns.Moment(l, b, BillingRuns.StepOf(l, b));
    BillingRuns.StrandedKept(m, a, id);
  }

  lemma {:induction false} StrandedStays(trace: seq<Moment>, d: Disciplines, i: nat, j: nat, a: Actor,
      id: SubscriptionId)
    requires Run(trace, d) && i <= j < |trace| && BillingRuns.Stranded(trace[i].before.rows.ledger, a, id)
    ensures BillingRuns.Stranded(trace[j].before.rows.ledger, a, id)
    ensures BillingRuns.Stranded(trace[j].after.rows.ledger, a, id)
  {
    if i < j {
      StrandedStays(trace, d, i, j - 1, a, id);
    }
    var w := trace[j].before;
    LedgerStep(w, trace[j].step);
    if b: BillingRuns.Step :| trace[j].after.rows.ledger == BillingRuns.StepOf(w.rows.ledger, b) {
      BillingKeepsStranded(w.rows.ledger, b, a, id);
    }
  }

  /** The step takes a call of this account from its start. */
  ghost predicate BeginsCheckout(w: World, step: Step, call: CallId, a: Actor) {
    step.Write? && step.id == call && call in w.calls && w.calls[call].actor == a && w.calls[call].point.Start?
  }

  /**
   * An account left bound to a retired subscription stays so in every run, and every checkout it begins afterwards ends
   * at its first step, without a request and without touching a row.
   */
  lemma StrandedNeverChecksOut(trace: seq<Moment>, d: Disciplines, i: nat, j: nat, a: Actor, id: SubscriptionId,
      call: CallId)
    requires Run(trace, d) && i <= j < |trace| && BillingRuns.Stranded(trace[i].before.rows.ledger, a, id)
    ensures BillingRuns.Stranded(trace[j].after.rows.ledger, a, id)
    ensures var w := trace[j].before;
      BeginsCheckout(w, trace[j].step, call, a) ==> trace[j].after == w.(calls := w.calls - {call})
  {
    StrandedStays(trace, d, i, j, a, id);
  }
}
