/** What an observed subscription does to an account, and what entitles it, in the fields of both. */
module BillingLaws {
  import opened Outcomes
  import opened Billing
  import opened BillingRuns

  /** An active subscription to exactly one unit at the price, its latest invoice paid with nothing remaining. */
  ghost predicate PaidInFull(s: Subscription, price: Price) {
    && s.standing == Live(true)
    && s.items.Some? && |s.items.value| == 1 && s.items.value[0].price == price && s.items.value[0].quantity == 1
    && s.invoicePaid && s.remaining == Some(0)
  }

  /** The period ends with the first item's, else with the subscription's own, else it never began. */
  ghost predicate LastsUntil(s: Subscription, end: int) {
    && s.items.Some?
    && (s.items.value != [] && s.items.value[0].periodEnd.Some? ==> end == s.items.value[0].periodEnd.value)
    && (s.items.value == [] || s.items.value[0].periodEnd.None? ==>
      end == if s.periodEnd.Some? then s.periodEnd.value else 0)
  }

  lemma PeriodLasts(s: Subscription, end: int)
    requires s.items.Some?
    ensures LastsUntil(s, end) <==> end == PeriodEnd(s)
  {
  }

  /** Only the account of `a` may differ. */
  ghost predicate OnlyAccount(l: Ledger, r: Ledger, a: Actor) {
    && r.accounts.Keys == l.accounts.Keys && r.events == l.events
    && forall b :: b in l.accounts && b != a ==> r.accounts[b] == l.accounts[b]
  }

  lemma OwnerFound(l: Ledger, a: Actor)
    requires UniqueCustomers(l) && a in l.accounts
    ensures AccountOf(l, l.accounts[a].customer) == Some(a)
  {
  }

  /** A subscription of nobody here, or one retired before, changes nothing; one retired for someone else is refused. */
  lemma ObservedForNobody(l: Ledger, s: Subscription, price: Price, now: int)
    requires UniqueCustomers(l)
    ensures (forall a :: a in l.accounts ==> l.accounts[a].customer != s.customer) ==>
      Observed(l, s, price, now) == Ok(l)
    ensures forall a :: a in l.accounts && l.accounts[a].customer == s.customer && s.id in l.retired ==>
      Observed(l, s, price, now) == if l.retired[s.id] == s.customer then Ok(l) else Err(RetiredMismatch)
  {
  }

  /** An ended subscription is retired, and releases the account that is free or bound to it and no other. */
  lemma ObservedEnd(l: Ledger, s: Subscription, price: Price, now: int, a: Actor)
    requires UniqueCustomers(l) && a in l.accounts && l.accounts[a].customer == s.customer && s.id !in l.retired
    requires s.standing == Canceled || s.standing == IncompleteExpired
    ensures Observed(l, s, price, now).Ok?
    ensures var r := Observed(l, s, price, now).value;
      && OnlyAccount(l, r, a) && r.retired == l.retired[s.id := s.customer]
      && if l.accounts[a].subscription == None || l.accounts[a].subscription == Some(s.id)
         then r.accounts[a] == Account(s.customer, None, false, 0, now) else r.accounts[a] == l.accounts[a]
  {
    OwnerFound(l, a);
  }

  /** A running subscription binds the account that is free or bound to it, active exactly if it is paid in full. */
  lemma ObservedRunning(l: Ledger, s: Subscription, price: Price, now: int, a: Actor, end: int)
    requires UniqueCustomers(l) && a in l.accounts && l.accounts[a].customer == s.customer && s.id !in l.retired
    requires s.standing.Live? && (s.items.Some? ==> LastsUntil(s, end))
    ensures var bound, r := l.accounts[a].subscription, Observed(l, s, price, now);
      if bound.Some? && bound != Some(s.id) then r == Err(AnotherBound)
      else if s.items.None? then r == Err(ItemsMissing)
      else
        && r.Ok? && OnlyAccount(l, r.value, a) && r.value.retired == l.retired
        && var account := r.value.accounts[a];
           && account.customer == s.customer && account.subscription == Some(s.id) && account.checkedAt == now
           && account.validUntil == end && (account.active <==> PaidInFull(s, price))
  {
    OwnerFound(l, a);
    if s.items.Some? {
      PeriodLasts(s, end);
    }
  }

  /**
   * A running subscription just observed entitles its account exactly if it is paid in full, from now on for less than
   * a day, while its period lasts.
   */
  lemma EntitledExactly(l: Ledger, s: Subscription, price: Price, now: int, a: Actor, end: int, at: int)
    requires UniqueCustomers(l) && a in l.accounts && l.accounts[a].customer == s.customer && s.id !in l.retired
    requires s.standing.Live? && LastsUntil(s, end)
    requires l.accounts[a].subscription == None || l.accounts[a].subscription == Some(s.id)
    ensures Observed(l, s, price, now).Ok?
    ensures Entitled(Observed(l, s, price, now).value, a, at) <==>
      PaidInFull(s, price) && now <= at < now + 86400 && at < end
  {
    ObservedRunning(l, s, price, now, a, end);
  }

  /** An account released, or of another actor, or never opened, is not entitled by anything observed for this one. */
  lemma EndedIsNotEntitled(l: Ledger, s: Subscription, price: Price, now: int, a: Actor, at: int)
    requires UniqueCustomers(l) && a in l.accounts && l.accounts[a].customer == s.customer && s.id !in l.retired
    requires s.standing == Canceled || s.standing == IncompleteExpired
    requires l.accounts[a].subscription == None || l.accounts[a].subscription == Some(s.id)
    ensures Observed(l, s, price, now).Ok? && !Entitled(Observed(l, s, price, now).value, a, at)
  {
    ObservedEnd(l, s, price, now, a);
  }

  /** Over whole runs: whoever is entitled has paid in full, in the latest report written to the account. */
  lemma EntitledHasPaid(trace: seq<Moment>, owner: SubscriptionId -> Customer, a: Actor, at: int)
    returns (k: nat, s: Subscription, price: Price, now: int, end: int)
    requires Run(trace, owner) && trace != [] && Entitled(trace[|trace| - 1].after, a, at)
    ensures k < |trace| && Applies(trace[k].step, s, price, now) && PaidInFull(s, price)
    ensures now <= at < now + 86400 && LastsUntil(s, end) && at < end
    ensures var account := trace[|trace| - 1].after.accounts[a];
      && account == Account(s.customer, Some(s.id), true, end, now)
      && forall m :: k < m < |trace| ==> a in trace[m].before.accounts && trace[m].before.accounts[a] == account
  {
    k, s, price, now := EntitledIsPaid(trace, owner, a, at);
    end := PeriodEnd(s);
  }

  /** An account is opened once per actor and per customer, without a subscription. */
  lemma OpenedExactly(l: Ledger, a: Actor, customer: Customer)
    requires UniqueCustomers(l)
    ensures var r := StepOf(l, Opened(a, customer));
      if a in l.accounts || exists b :: b in l.accounts && l.accounts[b].customer == customer then r == l
      else OnlyAccount(l, r.(accounts := r.accounts - {a}), a) && r.retired == l.retired
           && a in r.accounts && r.accounts[a] == Account(customer, None, false, 0, 0)
  {
  }

  // ---- Events

  /** A subscription event names its subscription; an invoice names one in either place, but not two different ones. */
  lemma NamedExactly(subject: Subject, id: SubscriptionId)
    ensures Named(subject) == Some(id) <==>
      || subject == Plan(id)
      || subject == Invoice(Some(id), None) || subject == Invoice(None, Some(id))
      || subject == Invoice(Some(id), Some(id))
  {
  }

  /**
   * A delivery takes effect exactly if it is new and the subscription it names was fetched and not refused; then it is
   * recorded.
   */
  lemma DeliveredExactly(l: Ledger, e: Event, fetched: Option<Subscription>, price: Price, now: int)
    requires UniqueCustomers(l)
    ensures var r := Delivered(l, e, fetched, price, now);
      if e.id !in l.events && fetched.Some? && Named(e.subject) == Some(fetched.value.id)
         && Observed(l, fetched.value, price, now).Ok?
      then
        && r.events == l.events + {e.id}
        && r.(events := l.events) == Observed(l, fetched.value, price, now).value
      else r == l
  {
    if fetched.Some? && Observed(l, fetched.value, price, now).Ok? {
      ObservedKeepsEvents(l, fetched.value, price, now);
    }
  }

  lemma ObservedKeepsEvents(l: Ledger, s: Subscription, price: Price, now: int)
    requires UniqueCustomers(l) && Observed(l, s, price, now).Ok?
    ensures Observed(l, s, price, now).value.events == l.events
  {
  }
}
