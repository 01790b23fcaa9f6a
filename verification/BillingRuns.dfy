/** Whole runs of the billing ledger: how an account gets and loses its subscription, and what entitles it. */
module BillingRuns {
  import opened Outcomes
  import opened Billing

  /**
   * A customer row inserted by a checkout, a subscription fetched by a refresh or a checkout, an event delivered, or a
   * fetch cut off between the two statements that record an end, which only a webhook runs in one transaction.
   */
  datatype Step =
    | Opened(actor: Actor, customer: Customer)
    | Fetched(s: Subscription, price: Price, now: int)
    | Notified(e: Event, fetched: Option<Subscription>, price: Price, now: int)
    | CutOff(s: Subscription)

  const EMPTY := Ledger(map[], map[], {})

  function StepOf(l: Ledger, step: Step): (r: Ledger)
    requires UniqueCustomers(l)
    ensures UniqueCustomers(r)
  {
    match step
    case Opened(actor, customer) =>
      if actor in l.accounts || AccountOf(l, customer).Some? then l
      else l.(accounts := l.accounts[actor := Account(customer, None, false, 0, 0)])
    case Fetched(s, price, now) =>
      var observed := Observed(l, s, price, now);
      if observed.Ok? then observed.value else l
    case Notified(e, fetched, price, now) => Delivered(l, e, fetched, price, now)
    case CutOff(s) => Tombstoned(l, s)
  }

  datatype Moment = Moment(before: Ledger, step: Step, after: Ledger)

  function SeenIn(step: Step): Option<Subscription> {
    match step
    case Opened(_, _) => None
    case Fetched(s, _, _) => Some(s)
    case Notified(_, fetched, _, _) => fetched
    case CutOff(s) => Some(s)
  }

  /** Any sequence of steps; the provider always reports a subscription under the same customer. */
  ghost predicate Run(trace: seq<Moment>, owner: SubscriptionId -> Customer) {
    && (forall k :: 0 <= k < |trace| ==>
          && UniqueCustomers(trace[k].before) && trace[k].after == StepOf(trace[k].before, trace[k].step)
          && (SeenIn(trace[k].step).Some? ==>
            owner(SeenIn(trace[k].step).value.id) == SeenIn(trace[k].step).value.customer))
    && (trace != [] ==> trace[0].before == EMPTY)
    && (forall k :: 0 < k < |trace| ==> trace[k].before == trace[k - 1].after)
  }

  // ---- What every step keeps

  ghost predicate BoundTo(l: Ledger, a: Actor, id: SubscriptionId) {
    a in l.accounts && l.accounts[a].subscription == Some(id)
  }

  ghost predicate LedgerOk(l: Ledger, owner: SubscriptionId -> Customer) {
    && UniqueCustomers(l)
    && (forall id :: id in l.retired ==> l.retired[id] == owner(id))
    && (forall a, id :: BoundTo(l, a, id) ==> owner(id) == l.accounts[a].customer)
  }

  /** The step applied `s` at this price and time to the account of `a`. */
  ghost predicate Applies(step: Step, s: Subscription, price: Price, now: int) {
    || step == Fetched(s, price, now)
    || (step.Notified? && step.fetched == Some(s) && step.price == price && step.now == now)
  }

  /** What one step does to one account. */
  ghost predicate Moves(m: Moment, a: Actor) {
    a in m.before.accounts && a in m.after.accounts && m.after.accounts[a].customer == m.before.accounts[a].customer
    && (m.after.accounts[a] == m.before.accounts[a]
        || exists s, price, now :: Applied(m, a, s, price, now))
  }

  ghost predicate Applied(m: Moment, a: Actor, s: Subscription, price: Price, now: int) {
    && a in m.before.accounts && a in m.after.accounts
    && Applies(m.step, s, price, now) && s.customer == m.before.accounts[a].customer && s.id !in m.before.retired
    && MayBind(m.before.accounts[a], s.id)
    && if Final(s) then m.after.accounts[a] == Released(m.before.accounts[a], now) && s.id in m.after.retired
       else s.items.Some? && m.after.accounts[a] == Bound(m.before.accounts[a], s, price, now)
  }

  lemma ObservedKeeps(l: Ledger, s: Subscription, price: Price, now: int, owner: SubscriptionId -> Customer)
    requires LedgerOk(l, owner) && owner(s.id) == s.customer
    ensures var r := Observed(l, s, price, now); r.Ok? ==>
      && LedgerOk(r.value, owner) && r.value.events == l.events
      && (forall id :: id in l.retired ==> id in r.value.retired)
      && (s.id in l.retired ==> r.value == l)
  {
    var r := Observed(l, s, price, now);
    if r.Ok? {
      forall a, id | BoundTo(r.value, a, id)
        ensures owner(id) == r.value.accounts[a].customer
      {
        assert BoundTo(l, a, id) || id == s.id;
      }
    }
  }

  lemma StepKeeps(m: Moment, owner: SubscriptionId -> Customer)
    requires LedgerOk(m.before, owner) && m.after == StepOf(m.before, m.step)
    requires SeenIn(m.step).Some? ==> owner(SeenIn(m.step).value.id) == SeenIn(m.step).value.customer
    ensures LedgerOk(m.after, owner)
    ensures forall id :: id in m.before.retired ==> id in m.after.retired
    ensures m.before.events <= m.after.events
  {
    if m.step.CutOff? {
      forall a, id | BoundTo(m.after, a, id) ensures BoundTo(m.before, a, id) {}
    } else if SeenIn(m.step).Some? {
      ObservedKeeps(m.before, SeenIn(m.step).value, m.step.price, m.step.now, owner);
    } else if m.step.Opened? {
      forall a, id | BoundTo(m.after, a, id) ensures BoundTo(m.before, a, id) {}
    }
  }

  lemma StepMoves(m: Moment, a: Actor)
    requires UniqueCustomers(m.before) && m.after == StepOf(m.before, m.step) && a in m.before.accounts
    ensures Moves(m, a)
  {
    if !m.step.CutOff? && SeenIn(m.step).Some? && m.after.accounts != m.before.accounts {
      var s := SeenIn(m.step).value;
      assert m.after.accounts[a] == m.before.accounts[a] || Applied(m, a, s, m.step.price, m.step.now);
    }
  }

  lemma {:induction false} RunKeeps(trace: seq<Moment>, owner: SubscriptionId -> Customer, k: nat)
    requires Run(trace, owner) && k < |trace|
    ensures LedgerOk(trace[k].before, owner) && LedgerOk(trace[k].after, owner)
  {
    if k > 0 {
      RunKeeps(trace, owner, k - 1);
    }
    StepKeeps(trace[k], owner);
  }

  /** Tombstones and recorded events are never taken back. */
  lemma {:induction false} RunGrows(trace: seq<Moment>, owner: SubscriptionId -> Customer, i: nat, j: nat)
    requires Run(trace, owner) && i <= j < |trace|
    ensures forall id :: id in trace[i].after.retired ==> id in trace[j].after.retired
    ensures trace[i].after.events <= trace[j].after.events
  {
    if i < j {
      RunGrows(trace, owner, i, j - 1);
      RunKeeps(trace, owner, j);
      StepKeeps(trace[j], owner);
    }
  }

  // ---- The binding over a whole run

  /** The step reported the end of `id` to the account bound to it. */
  ghost predicate Ends(m: Moment, a: Actor, id: SubscriptionId) {
    exists s: Subscription, price, now :: s.id == id && Final(s) && Applied(m, a, s, price, now)
  }

  /** One step leaves the binding alone, or it reports the end of the bound subscription; never a replacement. */
  lemma BindingStep(m: Moment, owner: SubscriptionId -> Customer, a: Actor, id: SubscriptionId)
    requires LedgerOk(m.before, owner) && m.after == StepOf(m.before, m.step) && BoundTo(m.before, a, id)
    ensures
      || BoundTo(m.after, a, id)
      || (Ends(m, a, id) && m.after.accounts[a].subscription.None? && id in m.after.retired)
  {
    StepMoves(m, a);
    if !BoundTo(m.after, a, id) {
      var s, price, now :| Applied(m, a, s, price, now);
    }
  }

  // ---- Bindings a cut-off leaves behind

  /** The account is still bound to a subscription that is already retired. */
  ghost predicate Stranded(l: Ledger, a: Actor, id: SubscriptionId) {
    BoundTo(l, a, id) && id in l.retired
  }

  /** The call that was to release the account stopped after the tombstone. */
  ghost predicate CutShort(m: Moment, a: Actor, id: SubscriptionId) {
    m.step.CutOff? && Final(m.step.s) && m.step.s.id == id && BoundTo(m.before, a, id) && id !in m.before.retired
  }

  /** A stranded account is not written again. */
  lemma StrandedKept(m: Moment, a: Actor, id: SubscriptionId)
    requires UniqueCustomers(m.before) && m.after == StepOf(m.before, m.step) && Stranded(m.before, a, id)
    ensures a in m.after.accounts && m.after.accounts[a] == m.before.accounts[a]
  {
    StepMoves(m, a);
  }

  lemma CutShortStrands(m: Moment, a: Actor, id: SubscriptionId)
    requires UniqueCustomers(m.before) && m.after == StepOf(m.before, m.step) && CutShort(m, a, id)
    requires m.step.s.customer == m.before.accounts[a].customer
    ensures Stranded(m.after, a, id)
  {
    assert AccountOf(m.before, m.before.accounts[a].customer) == Some(a);
  }

  lemma BoundThenRetired(m: Moment, a: Actor, id: SubscriptionId)
    requires UniqueCustomers(m.before) && m.after == StepOf(m.before, m.step)
    requires BoundTo(m.before, a, id) && BoundTo(m.after, a, id) && id !in m.before.retired && id in m.after.retired
    requires SeenIn(m.step).Some? && SeenIn(m.step).value.id == id ==>
      SeenIn(m.step).value.customer == m.before.accounts[a].customer
    ensures CutShort(m, a, id)
  {
    if SeenIn(m.step).Some? {
      var s := SeenIn(m.step).value;
      assert s.id == id && Final(s);
      assert AccountOf(m.before, s.customer) == Some(a);
    }
  }

  lemma NewlyBound(m: Moment, a: Actor, id: SubscriptionId)
    requires UniqueCustomers(m.before) && m.after == StepOf(m.before, m.step)
    requires !BoundTo(m.before, a, id) && BoundTo(m.after, a, id)
    ensures id !in m.after.retired
  {
    if a in m.before.accounts {
      StepMoves(m, a);
    }
  }

  /** One step strands a binding exactly if it is cut short there. */
  lemma StrandedStep(m: Moment, owner: SubscriptionId -> Customer, a: Actor, id: SubscriptionId)
    requires LedgerOk(m.before, owner) && m.after == StepOf(m.before, m.step)
    requires SeenIn(m.step).Some? ==> owner(SeenIn(m.step).value.id) == SeenIn(m.step).value.customer
    ensures Stranded(m.after, a, id) <==> Stranded(m.before, a, id) || CutShort(m, a, id)
    ensures Stranded(m.before, a, id) ==> m.after.accounts[a] == m.before.accounts[a]
  {
    StepKeeps(m, owner);
    if Stranded(m.before, a, id) {
      StrandedKept(m, a, id);
    } else if CutShort(m, a, id) {
      CutShortStrands(m, a, id);
    } else if Stranded(m.after, a, id) && BoundTo(m.before, a, id) {
      BoundThenRetired(m, a, id);
    } else if Stranded(m.after, a, id) {
      NewlyBound(m, a, id);
    }
  }

  lemma {:induction false} StrandedStays(trace: seq<Moment>, owner: SubscriptionId -> Customer, i: nat, j: nat,
      a: Actor, id: SubscriptionId)
    requires Run(trace, owner) && i <= j < |trace| && Stranded(trace[i].after, a, id)
    ensures Stranded(trace[j].after, a, id) && trace[j].after.accounts[a] == trace[i].after.accounts[a]
  {
    if i < j {
      StrandedStays(trace, owner, i, j - 1, a, id);
      RunKeeps(trace, owner, j);
      StrandedStep(trace[j], owner, a, id);
    }
  }

  lemma {:induction false} StrandedWasCut(trace: seq<Moment>, owner: SubscriptionId -> Customer, j: nat, a: Actor,
      id: SubscriptionId)
    returns (k: nat)
    requires Run(trace, owner) && j < |trace| && Stranded(trace[j].after, a, id)
    ensures k <= j && CutShort(trace[k], a, id)
  {
    RunKeeps(trace, owner, j);
    StrandedStep(trace[j], owner, a, id);
    if CutShort(trace[j], a, id) {
      k := j;
    } else {
      k := StrandedWasCut(trace, owner, j - 1, a, id);
    }
  }

  ghost predicate CutBefore(trace: seq<Moment>, n: nat, a: Actor, id: SubscriptionId)
    requires n <= |trace|
  {
    exists k :: 0 <= k < n && CutShort(trace[k], a, id)
  }

  /**
   * An account is bound to a retired subscription if and only if a call recording its end outside a webhook was cut off
   * between its two statements; from then on no step ever writes the account again.
   */
  lemma StrandedExactly(trace: seq<Moment>, owner: SubscriptionId -> Customer, j: nat, a: Actor, id: SubscriptionId)
    requires Run(trace, owner) && j < |trace|
    ensures Stranded(trace[j].after, a, id) <==> CutBefore(trace, j + 1, a, id)
    ensures forall k :: 0 <= k <= j && CutShort(trace[k], a, id) ==>
      trace[j].after.accounts[a] == trace[k].before.accounts[a]
  {
    if Stranded(trace[j].after, a, id) {
      var k := StrandedWasCut(trace, owner, j, a, id);
    }
    forall k | 0 <= k <= j && CutShort(trace[k], a, id)
      ensures Stranded(trace[j].after, a, id) && trace[j].after.accounts[a] == trace[k].before.accounts[a]
    {
      RunKeeps(trace, owner, k);
      StrandedStep(trace[k], owner, a, id);
      StrandedStays(trace, owner, k, j, a, id);
    }
  }

  ghost predicate Unbound(l: Ledger, id: SubscriptionId) {
    id in l.retired && forall b :: !BoundTo(l, b, id)
  }

  lemma {:induction false} UnboundStays(trace: seq<Moment>, owner: SubscriptionId -> Customer, i: nat, j: nat,
      id: SubscriptionId)
    requires Run(trace, owner) && i <= j < |trace| && Unbound(trace[i].after, id)
    ensures Unbound(trace[j].after, id)
  {
    if i < j {
      UnboundStays(trace, owner, i, j - 1, id);
      RunKeeps(trace, owner, j);
      StepKeeps(trace[j], owner);
      forall b | BoundTo(trace[j].after, b, id)
        ensures Stranded(trace[j].before, b, id)
      {
        StrandedStep(trace[j], owner, b, id);
      }
    }
  }

  /**
   * A bound subscription stays bound until its own end is reported; it then stays retired, no account is ever bound to
   * it again, and no later report of it changes anything. One that is already retired was cut off and stays bound for
   * good.
   */
  lemma {:induction false} ReleasedOnlyByItsEnd(
      trace: seq<Moment>, owner: SubscriptionId -> Customer, i: nat, j: nat, a: Actor, id: SubscriptionId)
    returns (k: nat)
    requires Run(trace, owner) && i <= j < |trace| && BoundTo(trace[i].before, a, id)
    ensures id in trace[i].before.retired <==> CutBefore(trace, i, a, id)
    ensures id in trace[i].before.retired ==> BoundTo(trace[j].after, a, id)
    ensures BoundTo(trace[j].after, a, id)
      || (&& i <= k <= j && Ends(trace[k], a, id)
          && trace[k].after.accounts[a].subscription.None? && Unbound(trace[j].after, id))
    decreases j - i
  {
    k := i;
    RunKeeps(trace, owner, i);
    if i > 0 {
      StrandedExactly(trace, owner, i - 1, a, id);
    }
    BindingStep(trace[i], owner, a, id);
    StrandedStep(trace[i], owner, a, id);
    if !BoundTo(trace[i].after, a, id) {
      OnlyHolder(trace[i], owner, a, id);
      UnboundStays(trace, owner, i, j, id);
    } else if i < j {
      k := ReleasedOnlyByItsEnd(trace, owner, i + 1, j, a, id);
    }
  }

  /** Nobody else can hold the subscription of the account that is released. */
  lemma OnlyHolder(m: Moment, owner: SubscriptionId -> Customer, a: Actor, id: SubscriptionId)
    requires LedgerOk(m.before, owner) && LedgerOk(m.after, owner) && m.after == StepOf(m.before, m.step)
    requires BoundTo(m.before, a, id) && Ends(m, a, id) && m.after.accounts[a].subscription.None?
    requires id in m.after.retired
    ensures Unbound(m.after, id)
  {
    StepMoves(m, a);
    assert m.after.accounts[a].customer == owner(id);
  }

  /** Once retired, absorbed: a later report of the subscription leaves the accounts and tombstones as they are. */
  lemma RetiredIsAbsorbed(trace: seq<Moment>, owner: SubscriptionId -> Customer, i: nat, j: nat)
    requires Run(trace, owner) && i < j < |trace| && SeenIn(trace[j].step).Some?
    requires SeenIn(trace[j].step).value.id in trace[i].after.retired
    ensures trace[j].after.(events := {}) == trace[j].before.(events := {})
  {
    RunGrows(trace, owner, i, j - 1);
    RunKeeps(trace, owner, j);
    var step := trace[j].step;
    if !step.CutOff? {
      ObservedKeeps(trace[j].before, SeenIn(step).value, step.price, step.now, owner);
    }
  }

  /** A delivery that changed anything is recorded, and every later delivery of that event changes nothing. */
  lemma EventsApplyOnce(trace: seq<Moment>, owner: SubscriptionId -> Customer, i: nat, j: nat)
    requires Run(trace, owner) && i < j < |trace| && trace[i].step.Notified? && trace[j].step.Notified?
    requires trace[i].step.e.id == trace[j].step.e.id && trace[i].after != trace[i].before
    ensures trace[j].after == trace[j].before
  {
    RunGrows(trace, owner, i, j - 1);
  }

  // ---- What entitles

  /** The account was last written at step `k`, with this subscription live and paid, and untouched up to `j`. */
  ghost predicate LastWritten(trace: seq<Moment>, k: nat, j: nat, a: Actor, s: Subscription, price: Price, now: int)
    requires j < |trace|
  {
    && k <= j && Applied(trace[k], a, s, price, now) && PaidFor(s, price) && a in trace[j].after.accounts
    && trace[j].after.accounts[a] == Bound(trace[k].before.accounts[a], s, price, now)
    && forall m :: k < m <= j ==>
         a in trace[m].before.accounts && trace[m].before.accounts[a] == trace[j].after.accounts[a]
  }

  lemma {:induction false} ActiveWasWritten(trace: seq<Moment>, owner: SubscriptionId -> Customer, j: nat, a: Actor)
    returns (k: nat, s: Subscription, price: Price, now: int)
    requires Run(trace, owner) && j < |trace| && a in trace[j].after.accounts && trace[j].after.accounts[a].active
    ensures LastWritten(trace, k, j, a, s, price, now)
  {
    var m := trace[j];
    RunKeeps(trace, owner, j);
    StepMoves(m, a);
    if m.after.accounts[a] == m.before.accounts[a] {
      k, s, price, now := ActiveWasWritten(trace, owner, j - 1, a);
    } else {
      k := j;
      s, price, now :| Applied(m, a, s, price, now);
    }
  }

  /**
   * An entitled account is bound to a subscription last seen active and fully paid, under a day ago, by the latest
   * write; it is not retired unless a call was cut off.
   */
  lemma EntitledIsPaid(trace: seq<Moment>, owner: SubscriptionId -> Customer, a: Actor, now: int)
    returns (k: nat, s: Subscription, price: Price, at: int)
    requires Run(trace, owner) && trace != []
    requires Entitled(trace[|trace| - 1].after, a, now)
    ensures LastWritten(trace, k, |trace| - 1, a, s, price, at)
    ensures BoundTo(trace[|trace| - 1].after, a, s.id)
    ensures s.id in trace[|trace| - 1].after.retired <==> CutBefore(trace, |trace|, a, s.id)
    ensures at <= now < at + FRESH_SECONDS && PeriodEnd(s) > now
  {
    k, s, price, at := ActiveWasWritten(trace, owner, |trace| - 1, a);
    RunKeeps(trace, owner, |trace| - 1);
    assert BoundTo(trace[|trace| - 1].after, a, s.id);
    StrandedExactly(trace, owner, |trace| - 1, a, s.id);
  }
  // ---- A canceled plan that still entitles

  const ALICE: Actor := "alice"
  const PLAN := Subscription(7, 5, Live(true), Some([Item("plan", 1, Some(100))]), true, Some(0), None)
  const ENDED := PLAN.(standing := Canceled)

  const NEW := Account(5, None, false, 0, 0)
  const PAID := Account(5, Some(7), true, 100, 10)

  function OfAlice(account: Account, retired: map<SubscriptionId,
      Customer>): Ledger { Ledger(map[ALICE := account], retired, {}) }

  lemma Opens()
    ensures StepOf(EMPTY, Opened(ALICE, 5)) == OfAlice(NEW, map[])
  {
  }

  lemma Pays()
    ensures StepOf(OfAlice(NEW, map[]), Fetched(PLAN, "plan", 10)) == OfAlice(PAID, map[])
  {
    var l := OfAlice(NEW, map[]);
    assert l.accounts[ALICE].customer == 5;
    assert AccountOf(l, 5) == Some(ALICE);
    assert l.accounts[ALICE := PAID] == OfAlice(PAID, map[]).accounts;
  }

  lemma StopsHalfway()
    ensures StepOf(OfAlice(PAID, map[]), CutOff(ENDED)) == OfAlice(PAID, map[7 := 5])
  {
    var l := OfAlice(PAID, map[]);
    assert l.accounts[ALICE].customer == 5;
    assert AccountOf(l, 5) == Some(ALICE);
  }

  /** A run of three steps ends with an account bound to a canceled plan and still entitled by it. */
  lemma CanceledStillEntitles() returns (trace: seq<Moment>)
    ensures Run(trace, _ => 5) && |trace| == 3
    ensures trace[2].step == CutOff(ENDED) && Final(ENDED)
    ensures Stranded(trace[2].after, ALICE, ENDED.id) && Entitled(trace[2].after, ALICE, 20)
  {
    Opens();
    Pays();
    StopsHalfway();
    trace := [
      Moment(EMPTY, Opened(ALICE, 5), OfAlice(NEW, map[])),
      Moment(OfAlice(NEW, map[]), Fetched(PLAN, "plan", 10), OfAlice(PAID, map[])),
      Moment(OfAlice(PAID, map[]), CutOff(ENDED), OfAlice(PAID, map[7 := 5]))];
  }
}
