/** Every step of a checkout call keeps the invariant. */
module CheckoutSteps {
  import opened Outcomes
  import opened Billing
  import opened Checkout
  import opened CheckoutWorld
  import opened CheckoutSafety

  /** The invariant, but for one call. */
  ghost predicate Apart(w: World, id: CallId, d: Disciplines) {
    && UniqueCustomers(w.rows.ledger) && OwnersOk(w) && ProviderOk(w.provider)
    && (forall a :: AccountIn(w, a, d))
    && (forall other :: other in w.calls && other != id ==> CallIn(w, w.calls[other], d))
    && Alone(w, d)
  }

  lemma Advances(u: World, id: CallId, point: Point, d: Disciplines)
    requires id in u.calls && Apart(u, id, d)
    requires point.Ended? || CallIn(u, u.calls[id].(point := point), d)
    ensures WorldOk(AtPoint(u, id, point), d)
  {
    var v := AtPoint(u, id, point);
    forall a ensures AccountIn(v, a, d) { assert AccountIn(u, a, d); }
  }

  // ---- Requests

  /** The request that makes a session belongs to the intent's own attempt, and finds no live session. */
  lemma FirstPost(p: Provider, holder: Option<Customer>, i: Option<Intent>, c: Call, d: Discipline)
    requires CallOk(p, holder, i, c, d) && c.point.Posting? && p.time < c.now + CALL_SECONDS && !d.Unrestrained?
    requires i.Some? && AccountOk(p, holder, i.value, d) && Key(c.point.customer, c.point.selected) !in p.posted
    ensures FirstFor(i.value, c.point.selected, c.now)
    ensures i.value.createdAt <= p.time < i.value.createdAt + KEY_SECONDS
    ensures forall y :: !LiveFor(p, y, c.point.customer)
  {
    assert forall y :: LiveFor(p, y, c.point.customer) ==> MadeFor(p, c.point.customer, i.value, y);
  }

  /** Sessions and keys of other customers are untouched. */
  lemma PostedElsewhere(p: Provider, key: Key, x: SessionId, c: Customer)
    requires c != key.customer
    ensures var q := PostSession(p, key, x);
      && (forall y :: LiveFor(q, y, c) <==> LiveFor(p, y, c))
      && (forall k :: Key(c, k) in q.posted <==> Key(c, k) in p.posted)
      && (forall k :: Key(c, k) in p.posted ==> q.posted[Key(c, k)] == p.posted[Key(c, k)])
  {
  }

  lemma AccountElsewhere(p: Provider, key: Key, x: SessionId, holder: Option<Customer>, i: Intent, d: Discipline)
    requires AccountOk(p, holder, i, d) && holder != Some(key.customer)
    ensures AccountOk(PostSession(p, key, x), holder, i, d)
  {
    if holder.Some? && !d.Unrestrained? {
      var q, c := PostSession(p, key, x), holder.value;
      PostedElsewhere(p, key, x, c);
      forall y | LiveFor(q, y, c) && i.session.None? ensures MadeFor(q, c, i, y) { assert MadeFor(p, c, i, y); }
    }
  }

  lemma AccountAfterPost(p: Provider, key: Key, x: SessionId, i: Intent, d: Discipline)
    requires AccountOk(p, Some(key.customer), i, d) && key !in p.posted && x !in p.sessions
    requires i.attempt == key.attempt && i.session.None? && forall y :: !LiveFor(p, y, key.customer)
    ensures AccountOk(PostSession(p, key, x), Some(key.customer), i, d)
    ensures OnlyLive(PostSession(p, key, x), key.customer, x)
  {
    var q := PostSession(p, key, x);
    forall y | LiveFor(q, y, key.customer) ensures y == x { assert !LiveFor(p, y, key.customer); }
  }

  /** Another call of the same account still may do what it was about to; it cannot hold an answer for this key. */
  lemma CallBesidePost(p: Provider, key: Key, x: SessionId, i: Option<Intent>, c: Call, d: Discipline)
    requires CallOk(p, Some(key.customer), i, c, d) && key !in p.posted && x !in p.sessions
    requires i.Some? && (d.Unrestrained? || (i.value.attempt == key.attempt && d.FreshAttempts?))
    ensures CallOk(PostSession(p, key, x), Some(key.customer), i, c, d)
  {
  }

  lemma CallElsewhere(p: Provider, key: Key, x: SessionId, holder: Option<Customer>, i: Option<Intent>, c: Call,
      d: Discipline)
    requires CallOk(p, holder, i, c, d) && holder != Some(key.customer) && key !in p.posted && x !in p.sessions
    ensures CallOk(PostSession(p, key, x), holder, i, c, d)
  {
    if holder.Some? {
      PostedElsewhere(p, key, x, holder.value);
    }
  }

  lemma OwnersAfterPost(w: World, a: Actor, key: Key, x: SessionId)
    requires OwnersOk(w) && ProviderOk(w.provider) && CustomerOf(w.rows.ledger, a) == Some(key.customer)
    requires IntentOf(w.rows, a).Some? && x !in w.provider.sessions
    ensures var v := w.(provider := PostSession(w.provider, key, x)); OwnersOk(v) && ProviderOk(v.provider)
  {
    assert Owned(w.rows, key.customer);
  }

  lemma NewPostKeeps(w: World, id: CallId, x: SessionId, d: Disciplines)
    requires WorldOk(w, d) && id in w.calls && w.calls[id].point.Posting?
    requires w.provider.time < w.calls[id].now + CALL_SECONDS
    requires Key(w.calls[id].point.customer, w.calls[id].point.selected) !in w.provider.posted
    requires x !in w.provider.sessions
    ensures WorldOk(Requested(w, id, NewSession(x)), d)
  {
    var c := w.calls[id];
    var key := Key(c.point.customer, c.point.selected);
    var v := w.(provider := PostSession(w.provider, key, x));
    var holder, i := CustomerOf(w.rows.ledger, c.actor), IntentOf(w.rows, c.actor);
    assert CallIn(w, c, d) && AccountIn(w, c.actor, d);
    if !d(c.actor).Unrestrained? {
      FirstPost(w.provider, holder, i, c, d(c.actor));
      AccountAfterPost(w.provider, key, x, i.value, d(c.actor));
    }
    OwnersAfterPost(w, c.actor, key, x);
    forall a ensures AccountIn(v, a, d) {
      assert AccountIn(w, a, d);
      if a != c.actor && a in w.rows.intents {
        AccountElsewhere(w.provider, key, x, CustomerOf(w.rows.ledger, a), IntentOf(w.rows, a).value, d(a));
      }
    }
    forall other | other in v.calls && other != id ensures CallIn(v, v.calls[other], d) {
      var o := w.calls[other];
      assert CallIn(w, o, d);
      if o.actor == c.actor {
        CallBesidePost(w.provider, key, x, i, o, d(o.actor));
      } else {
        CallElsewhere(w.provider, key, x, CustomerOf(w.rows.ledger, o.actor), IntentOf(w.rows, o.actor), o, d(o.actor));
      }
    }
    assert CallIn(v, c.(point := Recording(c.point.selected, c.point.customer, x)), d);
    Advances(v, id, Recording(c.point.selected, c.point.customer, x), d);
  }

  lemma PostKeeps(w: World, id: CallId, answer: Answer, d: Disciplines)
    requires WorldOk(w, d) && id in w.calls && w.calls[id].point.Posting?
    requires w.provider.time < w.calls[id].now + CALL_SECONDS
    ensures WorldOk(Requested(w, id, answer), d)
  {
    var c := w.calls[id];
    var key := Key(c.point.customer, c.point.selected);
    assert CallIn(w, c, d) && AccountIn(w, c.actor, d);
    if !answer.NewSession? || (key !in w.provider.posted && answer.id in w.provider.sessions) {
      Advances(w, id, Ended, d);
    } else if key in w.provider.posted {
      Advances(w, id, Recording(c.point.selected, c.point.customer, w.provider.posted[key].session), d);
    } else {
      NewPostKeeps(w, id, answer.id, d);
    }
  }

  lemma ReadKeeps(w: World, id: CallId, answer: Answer, d: Disciplines)
    requires WorldOk(w, d) && id in w.calls && Reads(w.calls[id].point)
    ensures WorldOk(AtPoint(w, id, Learnt(w.provider, w.calls[id].point, answer)), d)
  {
    Advances(w, id, Learnt(w.provider, w.calls[id].point, answer), d);
  }

  lemma RequestKeeps(w: World, id: CallId, answer: Answer, d: Disciplines)
    requires WorldOk(w, d) && id in w.calls && w.provider.time < w.calls[id].now + CALL_SECONDS
    ensures WorldOk(Requested(w, id, answer), d)
  {
    var c := w.calls[id];
    if Reads(c.point) {
      ReadKeeps(w, id, answer, d);
    } else if c.point.Posting? {
      PostKeeps(w, id, answer, d);
    }
  }
}
