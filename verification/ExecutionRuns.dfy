/**
 * Staged rollout over whole runs, as the application drives them: in order, stopping at the first trouble, and proven.
 */
module ExecutionRuns {
  import opened Characters
  import opened Outcomes
  import opened Execution

  /** What reaches an unfinished run; each step carries the time it is taken at. */
  datatype Step =
    | Captured(report: Text, now: int)
    | Checked(h: Health, now: int)
    | Approved(now: int)
    | Reopened(now: int)
    | Mutated(answer: Option<Response>, now: int)
    | Gave(note: string, now: int)
    | Reloaded(now: int)

  predicate NeedsChange(r: Run, t: TargetRun) { r.scheme.restart || t.before != Some(r.scheme.desired) }

  /** Where the application takes each step. */
  predicate Enabled(r: Run, step: Step) {
    && Current(r) && r.finished.None?
    && var t := r.targets[r.current];
       match step
       case Captured(report, _) => t.phase == Capture && report.Report?
         && SameIgnoringCase(report.service, r.scheme.service)
       case Checked(_, _) => t.phase in {Baseline, Verify}
       case Approved(_) => t.phase == Review && (!r.rehearsal || NeedsChange(r, t))
       case Reopened(_) => t.phase == Apply
       case Mutated(_, _) => t.phase in {Apply, Restore}
       case Gave(_, _) => true
       case Reloaded(_) => true
  }

  function StepOf(r: Run, step: Step): Run
    requires Enabled(r, step)
  {
    var t := r.targets[r.current];
    match step
    case Captured(report, now) =>
      Advanced(WithCurrent(r, t.(before := Some(report.state), captured := Some(now),
                                 evidence := t.evidence + [report], phase := Baseline)), now)
    case Checked(h, now) => HealthFinished(r, h, now).value
    case Approved(_) => WithCurrent(r, t.(phase := if NeedsChange(r, t) then Apply else Verify))
    case Reopened(_) => WithCurrent(r, t.(phase := Review))
    case Mutated(answer, now) =>
      var assessed := Assessed(r, answer, t.phase == Restore);
      if assessed.Some? then Advanced(assessed.value, now) else FailedCurrent(r, "Response does not match", now)
    case Gave(note, now) => FailedCurrent(r, note, now)
    case Reloaded(now) => Interrupted(r, now)
  }

  // ---- What is known of a target in each phase

  ghost predicate Known(t: TargetRun, service: string, clock: int) {
    && t.before.Some? && t.captured.Some? && t.captured.value <= clock && ReportedBefore(t, service, t.before.value)
  }

  ghost predicate Measured(t: TargetRun, service: string, clock: int) {
    Known(t, service, clock) && t.baseline.Some? && t.captured.value <= t.baseline.value.at <= clock
  }

  /** The change is made and seen, or none was needed. */
  ghost predicate Settled(r: Run, t: TargetRun) {
    t.before.Some? && if NeedsChange(r, t) then ChangeConfirmed(t, r.scheme, t.before.value) else !r.rehearsal
  }

  ghost predicate Proven(r: Run, t: TargetRun, clock: int) {
    && Measured(t, r.scheme.service, clock) && Settled(r, t)
    && t.health.Some? && t.health.value.passed && t.baseline.value.at <= t.health.value.at <= clock
  }

  /** An answer reports the service back in, or still in, the state it was found in. */
  ghost predicate ShownAsFound(t: TargetRun) {
    && t.before.Some?
    && exists i :: 0 <= i < |t.evidence| && t.evidence[i].Answer? && Undone(t.evidence[i].response, t.before.value)
  }

  predicate Undone(v: Response, before: Service) {
    v.actual == Label(before) && (v.verified || (v.rollbackAttempted && v.rollbackVerified))
  }

  ghost predicate CheckFailed(t: TargetRun) { t.before.Some? && t.health.Some? && !t.health.value.passed }

  ghost predicate TargetOk(r: Run, t: TargetRun, clock: int) {
    match t.phase
    case Baseline => Known(t, r.scheme.service, clock)
    case Review => Measured(t, r.scheme.service, clock)
    case Apply => Measured(t, r.scheme.service, clock) && NeedsChange(r, t)
    case Verify => Measured(t, r.scheme.service, clock) && Settled(r, t)
    case Passed => Proven(r, t, clock)
    case Restore => CheckFailed(t) && NeedsChange(r, t)
    case Restored => ShownAsFound(t)
    case Failed => CheckFailed(t) && !NeedsChange(r, t)
    case _ => true
  }

  ghost predicate Untouched(t: TargetRun) {
    t.before.None? && t.captured.None? && t.baseline.None? && t.health.None?
      && (t.phase == Capture || t.phase == Unknown)
  }

  ghost predicate EndedBefore(t: TargetRun, now: int) {
    t.phase == Passed ==> t.health.Some? && t.health.value.at <= now
  }

  /**
   * Before the current target all passed, after it none has started; the run is over exactly when its current target
   * is.
   */
  ghost predicate Staged(r: Run, clock: int) {
    && Current(r)
    && (forall k :: 0 <= k < r.current ==> r.targets[k].phase == Passed)
    && (forall k :: r.current < k < |r.targets| ==>
      Untouched(r.targets[k]) && (r.finished.None? ==> r.targets[k].phase == Capture))
    && (forall k :: 0 <= k < |r.targets| ==> TargetOk(r, r.targets[k], clock))
    && (r.finished.Some? <==> Terminal(r.targets[r.current].phase))
    && (r.targets[r.current].phase == Passed ==> r.current == |r.targets| - 1)
    && (r.finished.Some? ==> r.finished.value <= clock && forall k :: 0 <= k < |r.targets| ==>
      EndedBefore(r.targets[k], r.finished.value))
  }

  // ---- Every step keeps it

  predicate Timely(step: Step, clock: int) {
    clock <= step.now && (step.Checked? ==> clock <= step.h.at <= step.now)
  }

  lemma KeepsProof(r: Run, v: Run, t: TargetRun, clock: int, later: int)
    requires TargetOk(r, t, clock) && clock <= later && v.scheme == r.scheme && v.rehearsal == r.rehearsal
    ensures TargetOk(v, t, later)
  {
  }

  /** The current target moves to `t`, and the run goes on from there. */
  ghost predicate Moves(r: Run, v: Run, t: TargetRun, clock: int, now: int) {
    && Staged(r, clock) && r.finished.None? && clock <= now
    && TargetOk(r, t, now) && v == Advanced(WithCurrent(r, t), now)
  }

  lemma MoveKeepsStaged(r: Run, v: Run, t: TargetRun, clock: int, now: int)
    requires Moves(r, v, t, clock, now)
    ensures Staged(v, now)
  {
    var u := WithCurrent(r, t);
    forall k | 0 <= k < |v.targets| ensures TargetOk(v, v.targets[k], now) {
      if k != r.current {
        KeepsProof(r, v, r.targets[k], clock, now);
      } else {
        KeepsProof(r, v, t, now, now);
      }
    }
    if v.current != r.current {
      assert Untouched(r.targets[v.current]);
    }
    if v.finished.Some? {
      forall k | 0 <= k < |v.targets| ensures EndedBefore(v.targets[k], now) {
        assert TargetOk(v, v.targets[k], now);
      }
    }
  }

  lemma AppendedReport(t: TargetRun, text: Text, service: string, before: Service)
    requires ReportedBefore(t, service, before) || Reports(text, service, before)
    ensures ReportedBefore(t.(evidence := t.evidence + [text]), service, before)
  {
    var u := t.(evidence := t.evidence + [text]);
    if ReportedBefore(t, service, before) {
      var i :| 0 <= i < |t.evidence| && Reports(t.evidence[i], service, before);
      assert u.evidence[i] == t.evidence[i];
    } else {
      assert u.evidence[|t.evidence|] == text;
    }
  }

  lemma CaptureMoves(r: Run, report: Text, now: int, clock: int)
    requires Staged(r, clock) && Enabled(r, Captured(report, now)) && clock <= now
    ensures Staged(StepOf(r, Captured(report, now)), now)
  {
    var t := r.targets[r.current];
    AppendedReport(t, report, r.scheme.service, report.state);
    var u := t.(before := Some(report.state), captured := Some(now), evidence := t.evidence + [report],
      phase := Baseline);
    assert ReportedBefore(u, r.scheme.service, report.state) by {
      var i :| 0 <= i < |u.evidence| && Reports(u.evidence[i], r.scheme.service, report.state);
    }
    MoveKeepsStaged(r, StepOf(r, Captured(report, now)), u, clock, now);
  }

  lemma CheckMoves(r: Run, h: Health, now: int, clock: int)
    requires Staged(r, clock) && Enabled(r, Checked(h, now)) && clock <= h.at <= now
    ensures Staged(StepOf(r, Checked(h, now)), now)
  {
    var t := r.targets[r.current];
    assert TargetOk(r, t, clock);
    var u :=
      if t.phase == Baseline then t.(baseline := Some(h), phase := Review)
      else t.(health := Some(h), phase := if h.passed then Passed
                                          else if t.before == Some(r.scheme.desired) && !r.scheme.restart then Failed
                                          else Restore);
    MoveKeepsStaged(r, StepOf(r, Checked(h, now)), u, clock, now);
  }

  lemma ReviewMoves(r: Run, step: Step, clock: int)
    requires Staged(r, clock) && Enabled(r, step) && (step.Approved? || step.Reopened?) && clock <= step.now
    ensures Staged(StepOf(r, step), step.now)
  {
    var t := r.targets[r.current];
    assert TargetOk(r, t, clock);
    var u := t.(phase := if step.Reopened? then Review else if NeedsChange(r, t) then Apply else Verify);
    MoveKeepsStaged(r, StepOf(r, step), u, clock, step.now);
  }

  lemma FailureMoves(r: Run, note: string, now: int, clock: int)
    requires Staged(r, clock) && r.finished.None? && clock <= now
    ensures Staged(FailedCurrent(r, note, now), now)
  {
    var t := r.targets[r.current];
    MoveKeepsStaged(r, FailedCurrent(r, note, now), t.(phase := Unknown, evidence := t.evidence + [Message(note)]),
      clock, now);
  }

  lemma MutationMoves(r: Run, answer: Option<Response>, now: int, clock: int)
    requires Staged(r, clock) && Enabled(r, Mutated(answer, now)) && clock <= now
    ensures Staged(StepOf(r, Mutated(answer, now)), now)
  {
    var t := r.targets[r.current];
    var assessed := Assessed(r, answer, t.phase == Restore);
    if assessed.None? {
      FailureMoves(r, "Response does not match", now, clock);
    } else {
      var u := assessed.value.targets[r.current];
      assert assessed.value == WithCurrent(r, u);
      assert TargetOk(r, t, clock);
      if u.phase == Restored {
        assert u.evidence[|t.evidence|] == Answer(answer.value) && Undone(answer.value, t.before.value);
      } else if u.phase == Verify {
        AppendedReport(t, Answer(answer.value), r.scheme.service, t.before.value);
        assert u.evidence[|t.evidence|] == Answer(answer.value) && Confirms(r.scheme, t.before.value, answer.value);
      }
      MoveKeepsStaged(r, StepOf(r, Mutated(answer, now)), u, clock, now);
    }
  }

  lemma StepKeepsStaged(r: Run, step: Step, clock: int)
    requires Staged(r, clock) && Enabled(r, step) && Timely(step, clock)
    ensures Staged(StepOf(r, step), step.now)
  {
    match step
    case Captured(report, now) => CaptureMoves(r, report, now, clock);
    case Checked(h, now) => CheckMoves(r, h, now, clock);
    case Approved(_) => ReviewMoves(r, step, clock);
    case Reopened(_) => ReviewMoves(r, step, clock);
    case Mutated(answer, now) => MutationMoves(r, answer, now, clock);
    case Gave(note, now) => FailureMoves(r, note, now, clock);
    case Reloaded(now) =>
  }

  // ---- Whole runs

  datatype Moment = Moment(before: Run, step: Step, after: Run)

  function ClockBefore(trace: seq<Moment>, k: nat): int
    requires k <= |trace|
  {
    if k == 0 then if trace == [] then 0 else trace[0].step.now else trace[k - 1].step.now
  }

  /** Any steps the application may take, in order of time, from a new run. */
  ghost predicate History(trace: seq<Moment>) {
    && (forall k :: 0 <= k < |trace| ==>
          && Enabled(trace[k].before, trace[k].step) && trace[k].after == StepOf(trace[k].before, trace[k].step)
          && Timely(trace[k].step, ClockBefore(trace, k)))
    && (trace != [] ==> exists id, scheme, hash, rehearsal :: trace[0].before == Started(id, scheme, hash, rehearsal))
    && (forall k :: 0 < k < |trace| ==> trace[k].before == trace[k - 1].after)
  }

  lemma {:induction false} HistoryStaged(trace: seq<Moment>, k: nat)
    requires History(trace) && k < |trace|
    ensures Staged(trace[k].before, ClockBefore(trace, k)) && Staged(trace[k].after, trace[k].step.now)
  {
    if k > 0 {
      HistoryStaged(trace, k - 1);
    }
    StepKeepsStaged(trace[k].before, trace[k].step, ClockBefore(trace, k));
  }

  /** Every target before one that has started is passed; and once a target ended badly, no later one has started. */
  lemma LaterTargetsWait(trace: seq<Moment>, k: nat, i: nat, j: nat)
    requires History(trace) && k < |trace| && i < j < |trace[k].after.targets|
    ensures trace[k].after.targets[i].phase != Passed ==> Untouched(trace[k].after.targets[j])
    ensures !Untouched(trace[k].after.targets[j]) ==> trace[k].after.targets[i].phase == Passed
  {
    HistoryStaged(trace, k);
  }

  lemma BadEndIsCurrent(r: Run, clock: int, i: nat)
    requires Staged(r, clock) && i < |r.targets| && r.targets[i].phase in {Failed, Restored, Unknown}
    ensures r.finished.Some? && !Successful(r)
  {
    if i > r.current {
      assert Untouched(r.targets[i]);
    }
  }

  lemma StepsNeedAnUnfinishedRun(trace: seq<Moment>, k: nat)
    requires History(trace) && k < |trace| - 1
    ensures trace[k].after.finished.None?
  {
    assert Enabled(trace[k + 1].before, trace[k + 1].step);
  }

  /** A finished run takes no further step, so what its targets say is final. */
  lemma BadEndStops(trace: seq<Moment>, k: nat, i: nat)
    requires History(trace) && k < |trace| && i < |trace[k].after.targets|
    requires trace[k].after.targets[i].phase in {Failed, Restored, Unknown}
    ensures k == |trace| - 1 && trace[k].after.finished.Some? && !Successful(trace[k].after)
  {
    HistoryStaged(trace, k);
    BadEndIsCurrent(trace[k].after, trace[k].step.now, i);
    if k < |trace| - 1 {
      StepsNeedAnUnfinishedRun(trace, k);
      assert false;
    }
  }

  /**
   * A target a run has passed carries its whole proof: the state it was found in, a check before and a passing check
   * after, and the confirmed change unless none was needed. The journal counts it a success.
   */
  lemma PassedIsEvidenced(trace: seq<Moment>, k: nat, i: nat, now: int)
    requires History(trace) && k < |trace| && i < |trace[k].after.targets|
    requires trace[k].after.targets[i].phase == Passed
    ensures Proven(trace[k].after, trace[k].after.targets[i], trace[k].step.now)
    ensures trace[k].after.finished.Some? && trace[k].step.now <= now ==>
      EvidencedSuccess(trace[k].after, trace[k].after.targets[i], now)
  {
    HistoryStaged(trace, k);
    assert TargetOk(trace[k].after, trace[k].after.targets[i], trace[k].step.now);
    assert trace[k].after.finished.Some? ==> EndedBefore(trace[k].after.targets[i], trace[k].after.finished.value);
  }

  /**
   * A failed target had a failing check and was never changed; a restored one was reported in the state it was found
   * in. Only unknown says nothing.
   */
  lemma BadEndsMean(trace: seq<Moment>, k: nat, i: nat)
    requires History(trace) && k < |trace| && i < |trace[k].after.targets|
    ensures var r, t := trace[k].after, trace[k].after.targets[i];
      && (t.phase == Failed ==> CheckFailed(t) && t.before == Some(r.scheme.desired) && !r.scheme.restart)
      && (t.phase == Restored ==> ShownAsFound(t))
      && (t.phase == Restore ==> CheckFailed(t) && (r.scheme.restart || t.before != Some(r.scheme.desired)))
  {
    HistoryStaged(trace, k);
    assert TargetOk(trace[k].after, trace[k].after.targets[i], trace[k].step.now);
  }

  lemma StagedSuccess(r: Run, clock: int)
    requires Staged(r, clock)
    ensures Successful(r) <==> r.current == |r.targets| - 1 && r.targets[r.current].phase == Passed
    ensures Successful(r) ==> forall i :: 0 <= i < |r.targets| ==>
      r.targets[i].health.Some? && r.targets[i].health.value.passed
  {
    forall i | Successful(r) && 0 <= i < |r.targets|
      ensures r.targets[i].health.Some? && r.targets[i].health.value.passed
    {
      assert TargetOk(r, r.targets[i], clock);
    }
  }

  /** A run succeeds exactly when its last target is passed; every target then has its passing check. */
  lemma SuccessMeansAllChecked(trace: seq<Moment>, k: nat)
    requires History(trace) && k < |trace|
    ensures var r := trace[k].after;
      && (Successful(r) <==> r.current == |r.targets| - 1 && r.targets[r.current].phase == Passed)
      && (Successful(r) ==> forall i :: 0 <= i < |r.targets| ==>
        r.targets[i].health.Some? && r.targets[i].health.value.passed)
  {
    HistoryStaged(trace, k);
    StagedSuccess(trace[k].after, trace[k].step.now);
  }
}
