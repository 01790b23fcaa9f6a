/** The writes of a checkout call keep the invariant. */
module CheckoutWrites {
  import opened Outcomes
  import opened Billing
  import opened Checkout
  import opened CheckoutWorld
  import opened CheckoutSafety
  import opened CheckoutSteps

  // ---- Writes to one account's rows

  /** Only the rows of `a` differ, and an owned customer stays owned. */
  ghost predicate OnlyOf(r: Rows, s: Rows, a: Actor) {
    && (forall b :: b != a ==> CustomerOf(s.ledger, b) == CustomerOf(r.ledger, b) && IntentOf(s, b) == IntentOf(r, b))
    && (CustomerOf(r.ledger, a).Some? ==> CustomerOf(s.ledger, a) == CustomerOf(r.ledger, a))
    && (IntentOf(r, a).Some? ==> IntentOf(s, a).Some?)
  }

  lemma OwnersStay(w: World, s: Rows, a: Actor)
    requires OwnersOk(w) && OnlyOf(w.rows, s, a)
    ensures OwnersOk(w.(rows := s))
  {
    forall c: Customer | Owned(w.rows, c) ensures Owned(s, c) {
      var b :| CustomerOf(w.rows.ledger, b) == Some(c) && b in w.rows.intents;
      assert IntentOf(w.rows, b).Some? && IntentOf(s, b).Some?;
      assert CustomerOf(s.ledger, b) == Some(c) && b in s.intents;
    }
  }

  /** To write the rows of one account is safe when its own record and its other calls still are in order. */
  lemma WriteApart(w: World, s: Rows, id: CallId, d: Disciplines)
    requires WorldOk(w, d) && id in w.calls && OnlyOf(w.rows, s, w.calls[id].actor) && UniqueCustomers(s.ledger)
    requires AccountIn(w.(rows := s), w.calls[id].actor, d)
    requires forall other :: other in w.calls && other != id && w.calls[other].actor == w.calls[id].actor ==>
      CallIn(w.(rows := s), w.calls[other], d)
    ensures Apart(w.(rows := s), id, d)
  {
    var v := w.(rows := s);
    OwnersStay(w, s, w.calls[id].actor);
    forall a ensures AccountIn(v, a, d) { assert AccountIn(w, a, d); }
    forall other | other in v.calls && other != id
      ensures CallIn(v, v.calls[other], d)
    {
      assert CallIn(w, w.calls[other], d);
    }
  }

  /** A write that changes neither customer nor intent. */
  lemma WriteBeside(w: World, s: Rows, id: CallId, d: Disciplines)
    requires WorldOk(w, d) && id in w.calls && UniqueCustomers(s.ledger)
    requires forall b :: CustomerOf(s.ledger, b) == CustomerOf(w.rows.ledger, b)
    requires forall b :: IntentOf(s, b) == IntentOf(w.rows, b)
    ensures Apart(w.(rows := s), id, d) && CallIn(w.(rows := s), w.calls[id], d)
  {
    assert CallIn(w, w.calls[id], d) && AccountIn(w, w.calls[id].actor, d);
    forall other | other in w.calls
      ensures CallIn(w.(rows := s), w.calls[other], d)
    {
      assert CallIn(w, w.calls[other], d);
    }
    WriteApart(w, s, id, d);
  }

  // ---- Start

  lemma FirstIntent(w: World, id: CallId, d: Disciplines)
    requires WorldOk(w, d) && id in w.calls && w.calls[id].point.Start?
    requires w.calls[id].actor !in w.rows.intents && !Selected(w.rows, w.calls[id]).point.Ended?
    ensures var s := Selected(w.rows, w.calls[id]);
      var v := w.(rows := s.rows); Apart(v, id, d) && CallIn(v, w.calls[id].(point := s.point), d)
  {
    var c := w.calls[id];
    var s := Selected(w.rows, c);
    assert CallIn(w, c, d);
    forall other | other in w.calls && other != id && w.calls[other].actor == c.actor
      ensures CallIn(w.(rows := s.rows), w.calls[other], d)
    {
      assert CallIn(w, w.calls[other], d);
    }
    WriteApart(w, s.rows, id, d);
  }

  lemma SelectKeeps(w: World, id: CallId, price: Price, d: Disciplines)
    requires WorldOk(w, d) && id in w.calls && w.calls[id].point.Start?
    ensures WorldOk(WrittenIn(w, id, price), d)
  {
    var c := w.calls[id];
    var s := Selected(w.rows, c);
    assert CallIn(w, c, d);
    if c.actor !in w.rows.intents && !s.point.Ended? {
      FirstIntent(w, id, d);
    }
    Advances(w.(rows := s.rows), id, s.point, d);
  }

  // ---- Reconciling

  lemma ReconcileKeeps(w: World, id: CallId, price: Price, d: Disciplines)
    requires WorldOk(w, d) && id in w.calls && w.calls[id].point.Reconciling?
    ensures WorldOk(WrittenIn(w, id, price), d)
  {
    var c := w.calls[id];
    var s := Reconciled(w.rows, c, price);
    ReconciledRows(w.rows, c, price);
    WriteBeside(w, s.rows, id, d);
    assert CallIn(w.(rows := s.rows), c, d);
    Advances(w.(rows := s.rows), id, s.point, d);
  }

  lemma ReconciledRows(r: Rows, c: Call, price: Price)
    requires UniqueCustomers(r.ledger) && c.point.Reconciling?
    ensures UniqueCustomers(Reconciled(r, c, price).rows.ledger)
    ensures var s := Reconciled(r, c, price).rows;
      forall b :: CustomerOf(s.ledger, b) == CustomerOf(r.ledger, b) && IntentOf(s, b) == IntentOf(r, b)
  {
  }

  // ---- Replacing

  lemma NextIntent(w: World, id: CallId, d: Disciplines)
    requires WorldOk(w, d) && id in w.calls && w.calls[id].point.Replacing?
    requires FreshWrite(w, id, d)
    requires !Replaced(w.rows, w.calls[id]).point.Ended?
    ensures var s := Replaced(w.rows, w.calls[id]);
      var v := w.(rows := s.rows); Apart(v, id, d) && CallIn(v, w.calls[id].(point := s.point), d)
  {
    var c := w.calls[id];
    var s := Replaced(w.rows, c);
    assert CallIn(w, c, d) && AccountIn(w, c.actor, d);
    forall x ensures d(c.actor).Unrestrained? || !LiveFor(w.provider, x, c.point.customer) {}
    forall other | other in w.calls && other != id && w.calls[other].actor == c.actor
      ensures CallIn(w.(rows := s.rows), w.calls[other], d)
    {
      assert CallIn(w, w.calls[other], d);
    }
    WriteApart(w, s.rows, id, d);
  }

  lemma ReplaceKeeps(w: World, id: CallId, price: Price, d: Disciplines)
    requires WorldOk(w, d) && id in w.calls && w.calls[id].point.Replacing?
    requires FreshWrite(w, id, d)
    ensures WorldOk(WrittenIn(w, id, price), d)
  {
    var s := Replaced(w.rows, w.calls[id]);
    if !s.point.Ended? {
      NextIntent(w, id, d);
    }
    Advances(w.(rows := s.rows), id, s.point, d);
  }

  // ---- Enrolling

  lemma NewAccount(w: World, id: CallId, d: Disciplines)
    requires WorldOk(w, d) && id in w.calls && w.calls[id].point.Enrolling?
    requires !Enrolled(w.rows, w.calls[id]).point.Ended?
    ensures var s := Enrolled(w.rows, w.calls[id]);
      var v := w.(rows := s.rows); Apart(v, id, d) && CallIn(v, w.calls[id].(point := s.point), d)
  {
    var c := w.calls[id];
    var s := Enrolled(w.rows, c);
    var v := w.(rows := s.rows);
    assert CallIn(w, c, d) && AccountIn(w, c.actor, d);
    assert !Owned(w.rows, c.point.customer);
    assert forall key :: key in w.provider.posted ==> key.customer != c.point.customer;
    forall other | other in w.calls && other != id && w.calls[other].actor == c.actor
      ensures CallIn(v, w.calls[other], d)
    {
      assert CallIn(w, w.calls[other], d);
    }
    WriteApart(w, s.rows, id, d);
  }

  lemma EnrollKeeps(w: World, id: CallId, price: Price, d: Disciplines)
    requires WorldOk(w, d) && id in w.calls && w.calls[id].point.Enrolling?
    ensures WorldOk(WrittenIn(w, id, price), d)
  {
    var s := Enrolled(w.rows, w.calls[id]);
    if !s.point.Ended? {
      NewAccount(w, id, d);
    }
    Advances(w.(rows := s.rows), id, s.point, d);
  }

  // ---- Recording

  lemma RecordKeeps(w: World, id: CallId, price: Price, d: Disciplines)
    requires WorldOk(w, d) && id in w.calls && w.calls[id].point.Recording?
    requires w.provider.time < w.calls[id].now + CALL_SECONDS
    ensures WorldOk(WrittenIn(w, id, price), d)
  {
    var c := w.calls[id];
    var s := Recorded(w.rows, c);
    var v := w.(rows := s.rows);
    assert CallIn(w, c, d) && AccountIn(w, c.actor, d);
    if w.rows.intents[c.actor].attempt == c.point.selected {
      var i := IntentOf(w.rows, c.actor).value;
      assert IntentOf(s.rows, c.actor) == Some(i.(session := Some(c.point.session)));
      forall other | other in w.calls && other != id && w.calls[other].actor == c.actor
        ensures CallIn(v, w.calls[other], d)
      {
        assert CallIn(w, w.calls[other], d);
      }
      WriteApart(w, s.rows, id, d);
    }
    Advances(v, id, Ended, d);
  }
}
