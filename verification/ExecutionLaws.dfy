/**
 * What each step of a run does, in the fields of its targets; and that a rollout in which nothing goes wrong succeeds.
 */
module ExecutionLaws {
  import opened Characters
  import opened Outcomes
  import opened Execution
  import opened ExecutionRuns

  // ---- Rehearsals stay on staging

  /** A rehearsal runs on the staging computers, in the order of the pairs; any other run on the production ones. */
  ghost predicate OnItsSide(r: Run) {
    && |r.targets| == |r.scheme.pairs|
    && forall i :: 0 <= i < |r.targets| ==>
         r.targets[i].target == if r.rehearsal then r.scheme.pairs[i].staging else r.scheme.pairs[i].production
  }

  lemma StartedExactly(id: nat, scheme: Scheme, hash: nat, rehearsal: bool)
    ensures var r := Started(id, scheme, hash, rehearsal);
      && r.id == id && r.scheme == scheme && r.hash == hash && r.rehearsal == rehearsal
      && r.current == 0 && r.finished == None && OnItsSide(r)
      && forall i :: 0 <= i < |r.targets| ==>
           r.targets[i] == TargetRun(r.targets[i].target, Capture, None, None, None, None, [])
  {
  }

  /** A run keeps its plan and its computers. */
  ghost predicate SameRun(r: Run, v: Run) {
    && v.id == r.id && v.scheme == r.scheme && v.hash == r.hash && v.rehearsal == r.rehearsal
    && |v.targets| == |r.targets| && forall i :: 0 <= i < |r.targets| ==> v.targets[i].target == r.targets[i].target
  }

  lemma StepKeepsRun(r: Run, step: Step)
    requires Enabled(r, step)
    ensures SameRun(r, StepOf(r, step))
  {
    if step.Mutated? {
      MutationKeepsRun(r, step.answer, step.now);
    }
  }

  lemma MutationKeepsRun(r: Run, answer: Option<Response>, now: int)
    requires Enabled(r, Mutated(answer, now))
    ensures SameRun(r, StepOf(r, Mutated(answer, now)))
  {
    var t := r.targets[r.current];
    var assessed := Assessed(r, answer, t.phase == Restore);
    assert assessed.Some? ==> SameRun(r, assessed.value) && Current(assessed.value);
  }

  /** At every point of every run of a rehearsal each target is the staging computer of its pair. */
  lemma {:induction false} RunStaysOnItsSide(trace: seq<Moment>, k: nat)
    requires History(trace) && k < |trace|
    ensures OnItsSide(trace[k].before) && OnItsSide(trace[k].after) && SameRun(trace[0].before, trace[k].after)
  {
    if k > 0 {
      RunStaysOnItsSide(trace, k - 1);
    }
    StepKeepsRun(trace[k].before, trace[k].step);
  }

  // ---- One step

  /** Only the current target changes. */
  ghost predicate Touches(r: Run, v: Run, t: TargetRun) {
    && Current(r) && SameRun(r, v) && v.targets[r.current] == t
    && forall i :: 0 <= i < |r.targets| && i != r.current ==> v.targets[i] == r.targets[i]
  }

  ghost predicate Stays(r: Run, v: Run) { v.current == r.current && v.finished == r.finished }

  ghost predicate Stops(r: Run, v: Run, now: int) { v.current == r.current && v.finished == Some(now) }

  /** After a pass the next target is current, or the run ends. */
  ghost predicate Proceeds(r: Run, v: Run, now: int) {
    if r.current < |r.targets| - 1 then v.current == r.current + 1 && v.finished == r.finished else Stops(r, v, now)
  }

  lemma CaptureExactly(r: Run, report: Text, now: int)
    requires Enabled(r, Captured(report, now))
    ensures var v, t := StepOf(r, Captured(report, now)), r.targets[r.current];
      Stays(r, v) && Touches(r, v, TargetRun(t.target, Baseline, Some(report.state), Some(now), t.baseline, t.health,
        t.evidence + [report]))
  {
  }

  /** The check before the change is recorded, whatever it says, and leads to review. */
  lemma BaselineExactly(r: Run, h: Health, now: int)
    requires Current(r) && r.targets[r.current].phase == Baseline
    ensures HealthFinished(r, h, now).Some?
    ensures var v, t := HealthFinished(r, h, now).value, r.targets[r.current];
      Stays(r, v) && Touches(r, v, t.(phase := Review, baseline := Some(h)))
  {
  }

  /** The check after it passes the target, asks for a restoration, or, where nothing was changed, fails it. */
  lemma VerifyExactly(r: Run, h: Health, now: int)
    requires Current(r) && r.targets[r.current].phase == Verify
    ensures HealthFinished(r, h, now).Some?
    ensures var v, t := HealthFinished(r, h, now).value, r.targets[r.current];
      if h.passed then Proceeds(r, v, now) && Touches(r, v, t.(phase := Passed, health := Some(h)))
      else if r.scheme.restart || t.before != Some(r.scheme.desired) then
        Stays(r, v) && Touches(r, v, t.(phase := Restore, health := Some(h)))
      else Stops(r, v, now) && Touches(r, v, t.(phase := Failed, health := Some(h)))
  {
  }

  lemma CheckRefusals(r: Run, h: Health, now: int)
    requires Current(r)
    ensures HealthFinished(r, h, now).None? <==>
      r.targets[r.current].phase != Baseline && r.targets[r.current].phase != Verify
  {
  }

  lemma ReviewExactly(r: Run, step: Step)
    requires Enabled(r, step) && (step.Approved? || step.Reopened?)
    ensures var v, t := StepOf(r, step), r.targets[r.current];
      Stays(r, v) && Touches(r, v, t.(phase := if step.Reopened? then Review
                                               else if r.scheme.restart || t.before != Some(r.scheme.desired) then Apply
                                               else Verify))
  {
  }

  // ---- The answer of the change command

  lemma LabelsDiffer()
    ensures Label(Running) == "Running" && Label(Stopped) == "Stopped"
  {
  }

  /** The answer is about this service and this change. */
  ghost predicate About(v: Response, service: string, before: Service, desired: Service) {
    v.service == service && v.before == Label(before) && v.desired == Label(desired)
  }

  /** An answer is refused exactly if it is none, nothing was captured, or it is about something else. */
  lemma AssessRefusals(r: Run, answer: Option<Response>, restore: bool)
    requires Current(r)
    ensures var before := r.targets[r.current].before;
      Assessed(r, answer, restore).Some? <==>
        before.Some? && answer.Some?
        && if restore then About(answer.value, r.scheme.service, r.scheme.desired, before.value)
           else About(answer.value, r.scheme.service, before.value, r.scheme.desired)
  {
  }

  /** A change counts as made only if seen, after the stop a restart needs; as undone only if seen undone. */
  lemma AssessChangeExactly(r: Run, v: Response, before: Service)
    requires Current(r) && r.targets[r.current].before == Some(before)
    requires About(v, r.scheme.service, before, r.scheme.desired)
    ensures Assessed(r, Some(v), false).Some?
    ensures var w, t := Assessed(r, Some(v), false).value, r.targets[r.current];
      && Stays(r, w)
      && Touches(r, w, t.(evidence := t.evidence + [Answer(v)],
           phase := if v.verified && v.actual == Label(r.scheme.desired) && (v.stoppedVerified || !r.scheme.restart)
                    then Verify
                    else if v.rollbackAttempted && v.rollbackVerified && v.actual == Label(before) then Restored
                    else Unknown))
  {
  }

  lemma AssessRestorationExactly(r: Run, v: Response, before: Service)
    requires Current(r) && r.targets[r.current].before == Some(before)
    requires About(v, r.scheme.service, r.scheme.desired, before)
    ensures Assessed(r, Some(v), true).Some?
    ensures var w, t := Assessed(r, Some(v), true).value, r.targets[r.current];
      && Stays(r, w)
      && Touches(r, w, t.(evidence := t.evidence + [Answer(v)],
           phase := if v.verified && v.actual == Label(before) then Restored else Unknown))
  {
  }

  /** A run goes on after an answer that leads to a check, and ends with any other. */
  lemma AnsweredExactly(r: Run, answer: Option<Response>, now: int)
    requires Enabled(r, Mutated(answer, now))
    ensures var restore := r.targets[r.current].phase == Restore;
      var v, w := StepOf(r, Mutated(answer, now)), Assessed(r, answer, restore);
      if w.Some? then
        && v.targets == w.value.targets
        && if w.value.targets[r.current].phase == Verify then Stays(r, v) else Stops(r, v, now)
      else
        var t := r.targets[r.current];
        Stops(r, v, now) && exists note :: Touches(r, v, t.(phase := Unknown, evidence := t.evidence + [Message(note)]))
  {
    var t := r.targets[r.current];
    if Assessed(r, answer, t.phase == Restore).None? {
      FailExactly(r, "Response does not match", now);
    }
  }

  // ---- Giving up

  lemma FailExactly(r: Run, note: string, now: int)
    requires Current(r)
    ensures var v, t := FailedCurrent(r, note, now), r.targets[r.current];
      Stops(r, v, now) && Touches(r, v, t.(phase := Unknown, evidence := t.evidence + [Message(note)]))
  {
  }

  /** A restart of the application ends an unfinished run; what is not at rest is unknown from then on. */
  lemma InterruptExactly(r: Run, now: int)
    ensures r.finished.Some? ==> Interrupted(r, now) == r
    ensures r.finished.None? ==>
      var v := Interrupted(r, now);
      && SameRun(r, v) && v.current == r.current && v.finished == Some(now)
      && forall i :: 0 <= i < |r.targets| ==>
           var t := r.targets[i];
           if t.phase == Passed || t.phase == Restored || t.phase == Failed then v.targets[i] == t
           else v.targets[i] == t.(phase := Unknown,
             evidence := t.evidence + [Message("Restart: no automatic continuation or retry")])
  {
  }

  // ---- What counts as evidence of a success

  ghost predicate Reported(t: TargetRun, service: string, state: Service) {
    exists e :: e in t.evidence && e.Report? && SameIgnoringCase(e.service, service) && e.state == state
  }

  ghost predicate Answered(t: TargetRun, v: Response) { Answer(v) in t.evidence }

  ghost predicate SeenChanged(t: TargetRun, scheme: Scheme, before: Service) {
    exists v :: Answered(t, v) && About(v, scheme.service, before, scheme.desired)
      && v.actual == Label(scheme.desired) && v.verified && (scheme.restart ==> v.stoppedVerified)
  }

  lemma ReportedExactly(t: TargetRun, service: string, state: Service)
    ensures ReportedBefore(t, service, state) <==> Reported(t, service, state)
  {
  }

  lemma ChangedExactly(t: TargetRun, scheme: Scheme, before: Service)
    ensures ChangeConfirmed(t, scheme, before) <==> SeenChanged(t, scheme, before)
  {
    if ChangeConfirmed(t, scheme, before) {
      var i :| 0 <= i < |t.evidence| && t.evidence[i].Answer? && Confirms(scheme, before, t.evidence[i].response);
      assert Answered(t, t.evidence[i].response);
    }
  }

  /**
   * Captured, checked, changed and checked again in that order, and over by now; without a change only in production.
   */
  lemma EvidencedExactly(r: Run, t: TargetRun, now: int)
    ensures EvidencedSuccess(r, t, now) <==>
      && t.phase == Passed && t.before.Some? && t.captured.Some? && t.baseline.Some? && t.health.Some?
      && t.health.value.passed && r.finished.Some?
      && t.captured.value <= t.baseline.value.at && t.baseline.value.at <= t.health.value.at
      && t.health.value.at <= r.finished.value && r.finished.value <= now
      && Reported(t, r.scheme.service, t.before.value)
      && (if r.scheme.restart || t.before.value != r.scheme.desired then SeenChanged(t, r.scheme, t.before.value)
          else !r.rehearsal)
  {
    if t.before.Some? {
      ReportedExactly(t, r.scheme.service, t.before.value);
      ChangedExactly(t, r.scheme, t.before.value);
    }
  }

  lemma SuccessfulExactly(r: Run)
    ensures Successful(r) <==>
      r.finished != None && |r.targets| > 0 && forall t :: t in r.targets ==> t.phase == Passed
  {
    assert forall i :: 0 <= i < |r.targets| ==> r.targets[i] in r.targets;
  }

  // ---- A rollout in which nothing goes wrong

  /** The check after a change passes, the change is confirmed, and nobody gives up, reopens or restarts. */
  ghost predicate GoesWell(m: Moment)
    requires Enabled(m.before, m.step)
  {
    var t := m.before.targets[m.before.current];
    match m.step
    case Captured(_, _) => true
    case Checked(h, _) => t.phase == Verify ==> h.passed
    case Approved(_) => true
    case Mutated(answer, _) =>
      t.before.Some? && answer.Some? && Confirms(m.before.scheme, t.before.value, answer.value)
    case _ => false
  }

  function Stage(p: Phase): nat {
    match p
    case Capture => 0
    case Baseline => 1
    case Review => 2
    case Apply => 3
    case Verify => 4
    case _ => 5
  }

  function Rank(r: Run): nat
    requires Current(r)
  {
    5 * r.current + Stage(r.targets[r.current].phase)
  }

  predicate Calm(r: Run) {
    Current(r) && r.targets[r.current].phase in {Capture, Baseline, Review, Apply, Verify, Passed}
  }

  /** A confirmed change leads to its check. */
  lemma ChangeGoesWell(r: Run, v: Response, now: int)
    requires Enabled(r, Mutated(Some(v), now)) && r.targets[r.current].phase == Apply
    requires r.targets[r.current].before.Some? && Confirms(r.scheme, r.targets[r.current].before.value, v)
    ensures var w := StepOf(r, Mutated(Some(v), now)); Current(w) && w.current == r.current
    ensures var w := StepOf(r, Mutated(Some(v), now)); w.targets[w.current].phase == Verify
  {
    AssessChangeExactly(r, v, r.targets[r.current].before.value);
  }

  lemma StepGoesWell(m: Moment, clock: int)
    requires Staged(m.before, clock) && Calm(m.before) && Enabled(m.before, m.step) && GoesWell(m)
    requires m.after == StepOf(m.before, m.step)
    ensures Calm(m.after) && Rank(m.after) > Rank(m.before)
  {
    var r := m.before;
    if r.current + 1 < |r.targets| {
      assert Untouched(r.targets[r.current + 1]);
    }
    match m.step
    case Mutated(answer, now) => ChangeGoesWell(r, answer.value, now);
    case _ =>
  }

  lemma {:induction false} CalmRun(trace: seq<Moment>, k: nat)
    requires History(trace) && k < |trace| && forall i :: 0 <= i <= k ==> GoesWell(trace[i])
    ensures Calm(trace[k].after) && Rank(trace[k].after) > k
  {
    if k > 0 {
      CalmRun(trace, k - 1);
    } else {
      assert Calm(trace[0].before);
    }
    HistoryStaged(trace, k);
    StepGoesWell(trace[k], ClockBefore(trace, k));
  }

  /**
   * A rollout in which nothing goes wrong never ends badly: it takes at most five steps a target, and once it has
   * taken that many, or has ended, it is a success.
   */
  lemma WellRunSucceeds(trace: seq<Moment>, k: nat)
    requires History(trace) && k < |trace| && forall i :: 0 <= i <= k ==> GoesWell(trace[i])
    ensures var r := trace[k].after;
      && k < 5 * |r.targets| && (r.finished.Some? <==> Successful(r)) && (k == 5 * |r.targets| - 1 ==> Successful(r))
  {
    CalmRun(trace, k);
    HistoryStaged(trace, k);
    StagedSuccess(trace[k].after, trace[k].step.now);
  }

  /**
   * Whenever such a rollout has not ended, there is a step it can go well with, given a change where one is rehearsed.
   */
  lemma WellRunGoesOn(r: Run, clock: int, found: Service)
    requires Staged(r, clock) && Calm(r) && r.finished.None?
    requires r.targets[r.current].phase == Review ==> NeedsChange(r, r.targets[r.current]) || !r.rehearsal
    ensures exists step :: Enabled(r, step) && GoesWell(Moment(r, step, StepOf(r, step))) && Timely(step, clock)
  {
    var t, s := r.targets[r.current], r.scheme;
    assert TargetOk(r, t, clock);
    var step :=
      match t.phase
      case Capture => Captured(Report(s.service, found), clock)
      case Baseline => Checked(Health(clock, false), clock)
      case Review => Approved(clock)
      case Apply =>
        Mutated(Some(Response(s.service, Label(t.before.value), Label(s.desired), Label(s.desired), true, true, false,
          false)), clock)
      case _ => Checked(Health(clock, true), clock);
    assert Enabled(r, step) && GoesWell(Moment(r, step, StepOf(r, step)));
  }
}
