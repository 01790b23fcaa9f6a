/**
 * Why overlapping calls must not take up an old attempt id: a run in which an account owes two payments. One server
 * handles its requests one after another, so calls overlap only if a request reaches the provider after its call gave
 * up on it, or if two servers share the store.
 */
module CheckoutOverlap {
  import opened Outcomes
  import opened Billing
  import opened Checkout
  import opened CheckoutWorld
  import opened CheckoutRuns
  import BillingRuns

  /** No account promises anything. */
  function Anyhow(a: Actor): Discipline { Unrestrained }

  ghost predicate EndsIn(trace: seq<Moment>, w: World) {
    Run(trace, Anyhow) && w == if trace == [] then EMPTY else trace[|trace| - 1].after
  }

  ghost predicate Reached(w: World) { exists trace :: EndsIn(trace, w) }

  lemma Then(w: World, step: Step, v: World)
    requires Reached(w) && UniqueCustomers(w.rows.ledger) && Fair(w, step) && StepOf(w, step) == v
    ensures Reached(v)
  {
    var trace :| EndsIn(trace, w);
    assert EndsIn(trace + [Moment(w, step, v)], v);
  }

  // ---- A shop with one account

  const ALICE: Actor := "alice"
  const CUSTOMER: Customer := 5
  const LEDGER := Ledger(map[ALICE := Account(CUSTOMER, None, false, 0, 0)], map[], {})

  function Shop(i: Intent, calls: map<CallId, Call>, p: Provider): World {
    World(Rows(LEDGER, map[ALICE := i]), calls, p)
  }

  function At(attempt: Attempt, now: int, point: Point): Call { Call(ALICE, attempt, now, point) }

  lemma Begins(i: Intent, calls: map<CallId, Call>, p: Provider, id: CallId, attempt: Attempt)
    requires Reached(Shop(i, calls, p)) && id !in calls
    ensures Reached(Shop(i, calls[id := At(attempt, p.time, Start)], p))
  {
    Then(Shop(i, calls, p), Begin(id, ALICE, attempt), Shop(i, calls[id := At(attempt, p.time, Start)], p));
  }

  lemma AsksForSession(i: Intent, calls: map<CallId, Call>, p: Provider, id: CallId, next: Attempt, x: SessionId)
    requires Reached(Shop(i, calls[id := At(next, p.time, Start)], p)) && i.session == Some(x)
    ensures Reached(Shop(i, calls[id := At(next, p.time, ReadingSession(Some(CUSTOMER), i.attempt, x))], p))
  {
    Then(Shop(i, calls[id := At(next, p.time, Start)], p), Write(id, ""),
         Shop(i, calls[id := At(next, p.time, ReadingSession(Some(CUSTOMER), i.attempt, x))], p));
  }

  lemma SeesExpired(i: Intent, calls: map<CallId, Call>, p: Provider, id: CallId, next: Attempt, x: SessionId)
    requires Reached(Shop(i, calls[id := At(next, p.time, ReadingSession(Some(CUSTOMER), i.attempt, x))], p))
    requires x in p.sessions && p.sessions[x] == Session(CUSTOMER, Expired)
    ensures Reached(Shop(i, calls[id := At(next, p.time, Replacing(CUSTOMER, i.attempt, x))], p))
  {
    Then(Shop(i, calls[id := At(next, p.time, ReadingSession(Some(CUSTOMER), i.attempt, x))], p), Request(id, Nothing),
         Shop(i, calls[id := At(next, p.time, Replacing(CUSTOMER, i.attempt, x))], p));
  }

  lemma Replaces(i: Intent, calls: map<CallId, Call>, p: Provider, id: CallId, next: Attempt, x: SessionId)
    requires Reached(Shop(i, calls[id := At(next, p.time, Replacing(CUSTOMER, i.attempt, x))], p))
    requires i.session == Some(x) && next != i.attempt
    ensures Reached(Shop(Intent(next, p.time, None, Pending),
      calls[id := At(next, p.time, ReadingPrice(next, CUSTOMER))], p))
  {
    Then(Shop(i, calls[id := At(next, p.time, Replacing(CUSTOMER, i.attempt, x))], p), Write(id, ""),
         Shop(Intent(next, p.time, None, Pending), calls[id := At(next, p.time, ReadingPrice(next, CUSTOMER))], p));
  }

  lemma SeesPrice(i: Intent, calls: map<CallId, Call>, p: Provider, id: CallId, attempt: Attempt, k: Attempt)
    requires Reached(Shop(i, calls[id := At(attempt, p.time, ReadingPrice(k, CUSTOMER))], p))
    ensures Reached(Shop(i, calls[id := At(attempt, p.time, Posting(k, CUSTOMER))], p))
  {
    Then(Shop(i, calls[id := At(attempt, p.time, ReadingPrice(k, CUSTOMER))], p), Request(id, ThePrice(true)),
         Shop(i, calls[id := At(attempt, p.time, Posting(k, CUSTOMER))], p));
  }

  /** A call finds the stored session expired, and takes over the intent with an attempt of its own. */
  lemma TakesOver(i: Intent, calls: map<CallId, Call>, p: Provider, id: CallId, next: Attempt)
    requires Reached(Shop(i, calls, p)) && id !in calls && i.session.Some? && i.session.value in p.sessions
    requires next != i.attempt
    requires p.sessions[i.session.value] == Session(CUSTOMER, Expired)
    ensures Reached(Shop(Intent(next, p.time, None, Pending), calls[id := At(next, p.time, Posting(next, CUSTOMER))],
      p))
  {
    var x := i.session.value;
    Begins(i, calls, p, id, next);
    AsksForSession(i, calls, p, id, next, x);
    SeesExpired(i, calls, p, id, next, x);
    Replaces(i, calls, p, id, next, x);
    SeesPrice(Intent(next, p.time, None, Pending), calls, p, id, next, next);
  }

  lemma SelectsSaved(i: Intent, calls: map<CallId, Call>, p: Provider, id: CallId, attempt: Attempt)
    requires Reached(Shop(i, calls[id := At(attempt, p.time, Start)], p))
    requires i.session.None? && i.createdAt <= p.time < i.createdAt + RETRY_SECONDS
    ensures Reached(Shop(i, calls[id := At(attempt, p.time, ReadingPrice(i.attempt, CUSTOMER))], p))
  {
    Then(Shop(i, calls[id := At(attempt, p.time, Start)], p), Write(id, ""),
         Shop(i, calls[id := At(attempt, p.time, ReadingPrice(i.attempt, CUSTOMER))], p));
  }

  /** A call finds the intent still without an answer, and goes on under its attempt. */
  lemma TakesUp(i: Intent, calls: map<CallId, Call>, p: Provider, id: CallId, attempt: Attempt)
    requires Reached(Shop(i, calls, p)) && id !in calls && i.session.None?
    requires i.createdAt <= p.time < i.createdAt + RETRY_SECONDS
    ensures Reached(Shop(i, calls[id := At(attempt, p.time, Posting(i.attempt, CUSTOMER))], p))
  {
    Begins(i, calls, p, id, attempt);
    SelectsSaved(i, calls, p, id, attempt);
    SeesPrice(i, calls, p, id, attempt, i.attempt);
  }

  /** The call's request makes a session, or finds the one its key stands for. */
  lemma Posts(i: Intent, calls: map<CallId, Call>, p: Provider, id: CallId, attempt: Attempt, now: int, k: Attempt,
      x: SessionId)
    requires Reached(Shop(i, calls[id := At(attempt, now, Posting(k, CUSTOMER))], p)) && x !in p.sessions
    requires p.time < now + CALL_SECONDS
    ensures var key := Key(CUSTOMER, k); var q := PostSession(p, key, x);
      key in q.posted && Reached(Shop(i, calls[id := At(attempt, now, Recording(k, CUSTOMER, q.posted[key].session))],
        q))
  {
    var key := Key(CUSTOMER, k);
    var q := PostSession(p, key, x);
    var c := At(attempt, now, Posting(k, CUSTOMER));
    Then(Shop(i, calls[id := c], p), Request(id, NewSession(x)),
         Shop(i, calls[id := At(attempt, now, Recording(k, CUSTOMER, q.posted[key].session))], q));
  }

  lemma Records(i: Intent, calls: map<CallId, Call>, p: Provider, id: CallId, attempt: Attempt, now: int, x: SessionId)
    requires Reached(Shop(i, calls[id := At(attempt, now, Recording(i.attempt, CUSTOMER, x))], p)) && id !in calls
    requires p.time < now + CALL_SECONDS
    ensures Reached(Shop(i.(session := Some(x), state := Opened), calls, p))
  {
    var w := Shop(i, calls[id := At(attempt, now, Recording(i.attempt, CUSTOMER, x))], p);
    assert calls[id := At(attempt, now, Recording(i.attempt, CUSTOMER, x))] - {id} == calls;
    Then(w, Write(id, ""), Shop(i.(session := Some(x), state := Opened), calls, p));
  }

  lemma Provides(i: Intent, calls: map<CallId, Call>, p: Provider, step: Step)
    requires Reached(Shop(i, calls, p)) && (step.Expire? || step.Wait? || step.Forget?)
    requires step.Forget? && step.key in p.posted ==> p.posted[step.key].at + KEY_SECONDS <= p.time
    ensures Reached(Shop(i, calls, Moved(p, step)))
  {
    Then(Shop(i, calls, p), step, Shop(i, calls, Moved(p, step)));
  }

  function Answered(i: Intent, x: SessionId): Intent { i.(session := Some(x), state := Opened) }

  /** The provider after a session made under a key, open or expired. */
  function With(p: Provider, k: Attempt, x: SessionId, status: SessionStatus): Provider {
    p.(sessions := p.sessions[x := Session(CUSTOMER, status)],
      posted := p.posted[Key(CUSTOMER, k) := Posted(x, p.time)])
  }

  lemma ThenExpires(p: Provider, k: Attempt, x: SessionId)
    ensures Moved(With(p, k, x, Open), Expire(x)) == With(p, k, x, Expired)
  {
  }

  lemma Makes(i: Intent, calls: map<CallId, Call>, p: Provider, id: CallId, attempt: Attempt, x: SessionId)
    requires Reached(Shop(i, calls[id := At(attempt, p.time, Posting(i.attempt, CUSTOMER))], p)) && id !in calls
    requires Key(CUSTOMER, i.attempt) !in p.posted && x !in p.sessions
    ensures Reached(Shop(Answered(i, x), calls, With(p, i.attempt, x, Open)))
  {
    Posts(i, calls, p, id, attempt, p.time, i.attempt, x);
    Records(i, calls, With(p, i.attempt, x, Open), id, attempt, p.time, x);
  }

  /** A call about to post makes a session, records it, and the session expires. */
  lemma MakesAndExpires(i: Intent, calls: map<CallId, Call>, p: Provider, id: CallId, attempt: Attempt, x: SessionId)
    requires Reached(Shop(i, calls[id := At(attempt, p.time, Posting(i.attempt, CUSTOMER))], p)) && id !in calls
    requires Key(CUSTOMER, i.attempt) !in p.posted && x !in p.sessions
    ensures Reached(Shop(Answered(i, x), calls, With(p, i.attempt, x, Expired)))
  {
    var q := With(p, i.attempt, x, Open);
    Makes(i, calls, p, id, attempt, x);
    ThenExpires(p, i.attempt, x);
    Provides(Answered(i, x), calls, q, Expire(x));
  }

  // ---- The run

  const NOTHING := Provider(map[], map[], map[], 0)

  const NO_CALLS: map<CallId, Call> := map[]

  function Unenrolled(point: Point): World {
    World(Rows(BillingRuns.EMPTY, map[ALICE := Intent(1, 0, None, Pending)]), NO_CALLS[0 := At(1, 0, point)], NOTHING)
  }

  lemma FirstCallBegins()
    ensures Reached(EMPTY.(calls := NO_CALLS[0 := At(1, 0, Start)]))
  {
    assert EndsIn([], EMPTY);
    Then(EMPTY, Begin(0, ALICE, 1), EMPTY.(calls := NO_CALLS[0 := At(1, 0, Start)]));
  }

  lemma FirstCallSelects()
    ensures Reached(Unenrolled(CreatingCustomer(1)))
  {
    FirstCallBegins();
    Then(EMPTY.(calls := NO_CALLS[0 := At(1, 0, Start)]), Write(0, ""), Unenrolled(CreatingCustomer(1)));
  }

  lemma FirstCallStarts()
    ensures Reached(Unenrolled(Enrolling(1, CUSTOMER)))
  {
    FirstCallSelects();
    Then(Unenrolled(CreatingCustomer(1)), Request(0, TheCustomer(CUSTOMER)), Unenrolled(Enrolling(1, CUSTOMER)));
  }

  lemma FirstCallEnrols()
    ensures Reached(Shop(Intent(1, 0, None, Pending), NO_CALLS[0 := At(1, 0, Posting(1, CUSTOMER))], NOTHING))
  {
    var i := Intent(1, 0, None, Pending);
    FirstCallStarts();
    Then(Unenrolled(Enrolling(1, CUSTOMER)), Write(0, ""),
      Shop(i, NO_CALLS[0 := At(1, 0, ReadingPrice(1, CUSTOMER))], NOTHING));
    SeesPrice(i, NO_CALLS, NOTHING, 0, 1, 1);
  }

  /** Almost a day after attempts 1 and 2 came to nothing. */
  const STALE := Provider(
    map[10 := Session(CUSTOMER, Expired), 11 := Session(CUSTOMER, Expired)],
    map[Key(CUSTOMER, 1) := Posted(10, 0), Key(CUSTOMER, 2) := Posted(11, 0)], map[], 86390)

  lemma TwoDeadAttempts()
    ensures Reached(Shop(Intent(2, 0, Some(11), Opened), NO_CALLS, STALE))
  {
    var i, j := Intent(1, 0, None, Pending), Intent(2, 0, None, Pending);
    FirstCallEnrols();
    MakesAndExpires(i, NO_CALLS, NOTHING, 0, 1, 10);
    var p := With(NOTHING, 1, 10, Expired);
    TakesOver(Answered(i, 10), NO_CALLS, p, 1, 2);
    MakesAndExpires(j, NO_CALLS, p, 1, 2, 11);
    var q := With(p, 2, 11, Expired);
    Provides(Answered(j, 11), NO_CALLS, q, Wait(86390));
    assert Moved(q, Wait(86390)) == STALE;
  }

  const LATE := 86390

  /** Attempt 1 is taken up again; one call under it waits, another brings the old session back. */
  lemma OldAttemptAgain()
    ensures Reached(Shop(Intent(1, LATE, Some(10), Opened), NO_CALLS[2 := At(1, LATE, Posting(1, CUSTOMER))], STALE))
  {
    var i := Intent(1, LATE, None, Pending);
    var waiting := NO_CALLS[2 := At(1, LATE, Posting(1, CUSTOMER))];
    TwoDeadAttempts();
    TakesOver(Intent(2, 0, Some(11), Opened), NO_CALLS, STALE, 2, 1);
    TakesUp(i, waiting, STALE, 3, 9);
    Posts(i, waiting, STALE, 3, 9, LATE, 1, 12);
    Records(i, waiting, STALE, 3, 9, LATE, 10);
  }

  const WAITING := At(1, LATE, Posting(1, CUSTOMER))

  const THIRD := At(3, LATE, Recording(3, CUSTOMER, 13))

  /** A third attempt makes session 13. */
  lemma ThirdAttempt()
    ensures Reached(Shop(Intent(3, LATE, None, Pending), NO_CALLS[2 := WAITING][4 := THIRD], With(STALE, 3, 13, Open)))
  {
    var waiting := NO_CALLS[2 := WAITING];
    OldAttemptAgain();
    TakesOver(Intent(1, LATE, Some(10), Opened), waiting, STALE, 4, 3);
    Posts(Intent(3, LATE, None, Pending), waiting, STALE, 4, 3, LATE, 3, 13);
  }

  function Lapsed(): Provider {
    var p := With(STALE, 3, 13, Open);
    p.(time := 86400, posted := p.posted - {Key(CUSTOMER, 1)})
  }

  /** The key of attempt 1 lapses while a call under it still waits. */
  lemma OldKeyLapses()
    ensures Reached(Shop(Intent(3, LATE, None, Pending), NO_CALLS[2 := WAITING][4 := THIRD], Lapsed()))
  {
    var i, calls, p := Intent(3, LATE, None, Pending), NO_CALLS[2 := WAITING][4 := THIRD], With(STALE, 3, 13, Open);
    ThirdAttempt();
    Provides(i, calls, p, Wait(10));
    Provides(i, calls, p.(time := 86400), Forget(Key(CUSTOMER, 1)));
  }

  /** Its request now makes session 14. */
  lemma WaitingCallPosts()
    ensures Reached(Shop(Intent(3, LATE, None, Pending),
      NO_CALLS[4 := THIRD][2 := At(1, LATE, Recording(1, CUSTOMER, 14))],
                         With(Lapsed(), 1, 14, Open)))
  {
    OldKeyLapses();
    assert NO_CALLS[2 := WAITING][4 := THIRD] == NO_CALLS[4 := THIRD][2 := WAITING];
    Posts(Intent(3, LATE, None, Pending), NO_CALLS[4 := THIRD], Lapsed(), 2, 1, LATE, 1, 14);
  }

  /** With calls that overlap and an attempt id used again a day later, an account can owe two payments. */
  lemma OverlapCanOweTwice() returns (trace: seq<Moment>)
    ensures Run(trace, Anyhow) && trace != []
    ensures Owes(trace[|trace| - 1].after, ALICE, OpenSession(13))
    ensures Owes(trace[|trace| - 1].after, ALICE, OpenSession(14))
  {
    WaitingCallPosts();
    var w := Shop(Intent(3, LATE, None, Pending), NO_CALLS[4 := THIRD][2 := At(1, LATE, Recording(1, CUSTOMER, 14))],
                  With(Lapsed(), 1, 14, Open));
    trace :| EndsIn(trace, w);
  }
}
