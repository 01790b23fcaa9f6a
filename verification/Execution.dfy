/** One reviewed execution run: the phases of its targets, and the operations that move them. */
module Execution {
  import opened Characters
  import opened Outcomes
  import Mission

  type Target = Mission.Target

  datatype Service = Running | Stopped

  datatype Phase = Capture | Baseline | Review | Apply | Verify | Restore | Passed | Restored | Failed | Unknown

  datatype Page = Page(path: string, status: nat, contains: string)

  datatype Check = Tcp(port: nat) | Http(port: nat, tls: bool, first: Page, followups: seq<Page>)

  datatype Pair = Pair(production: Target, staging: Target)

  datatype Scheme = Scheme(restart: bool, service: string, desired: Service, health: Check, pairs: seq<Pair>)

  datatype Health = Health(at: int, passed: bool)

  /** What the guarded change command answers; labels that are missing are empty. */
  datatype Response = Response(
    service: string, before: string, desired: string, actual: string,
    verified: bool, stoppedVerified: bool, rollbackAttempted: bool, rollbackVerified: bool)

  /** A piece of stored evidence, as it reads when parsed. */
  datatype Text = Report(service: string, state: Service) | Answer(response: Response) | Message(note: string)

  datatype TargetRun = TargetRun(
    target: Target, phase: Phase, before: Option<Service>, captured: Option<int>,
    baseline: Option<Health>, health: Option<Health>, evidence: seq<Text>)

  datatype Run = Run(
    id: nat, scheme: Scheme, hash: nat, rehearsal: bool, targets: seq<TargetRun>, current: nat, finished: Option<int>)

  function Label(s: Service): string { if s.Running? then "Running" else "Stopped" }

  predicate Terminal(p: Phase) { p.Passed? || p.Restored? || p.Failed? || p.Unknown? }

  function Started(id: nat, scheme: Scheme, hash: nat, rehearsal: bool): Run {
    Run(id, scheme, hash, rehearsal,
        seq(|scheme.pairs|, i requires 0 <= i < |scheme.pairs| =>
              TargetRun(if rehearsal then scheme.pairs[i].staging else scheme.pairs[i].production,
                        Capture, None, None, None, None, [])),
        0, None)
  }

  predicate Current(r: Run) { r.current < |r.targets| }

  function WithCurrent(r: Run, t: TargetRun): Run
    requires Current(r)
  {
    r.(targets := r.targets[r.current := t])
  }

  function Advanced(r: Run, now: int): Run
    requires Current(r)
  {
    var phase := r.targets[r.current].phase;
    if phase == Passed then
      if r.current + 1 < |r.targets| then r.(current := r.current + 1) else r.(finished := Some(now))
    else if phase in {Failed, Restored, Unknown} then r.(finished := Some(now))
    else r
  }

  /** A check before the change leads to review; a check after it decides. Nothing else awaits a check. */
  function HealthFinished(r: Run, h: Health, now: int): Option<Run>
    requires Current(r)
  {
    var t := r.targets[r.current];
    match t.phase
    case Baseline => Some(Advanced(WithCurrent(r, t.(baseline := Some(h), phase := Review)), now))
    case Verify =>
      var next :=
        if h.passed then Passed
        else if t.before == Some(r.scheme.desired) && !r.scheme.restart then Failed
        else Restore;
      Some(Advanced(WithCurrent(r, t.(health := Some(h), phase := next)), now))
    case _ => None
  }

  function FailedCurrent(r: Run, note: string, now: int): Run
    requires Current(r)
  {
    var t := r.targets[r.current];
    Advanced(WithCurrent(r, t.(phase := Unknown, evidence := t.evidence + [Message(note)])), now)
  }

  const RESTART_NOTE := "Restart: no automatic continuation or retry"

  function CutOff(t: TargetRun): TargetRun {
    if t.phase in {Passed, Restored, Failed} then t
    else t.(phase := Unknown, evidence := t.evidence + [Message(RESTART_NOTE)])
  }

  function Interrupted(r: Run, now: int): Run {
    if r.finished.Some? then r
    else r.(finished := Some(now),
            targets := seq(|r.targets|, i requires 0 <= i < |r.targets| => CutOff(r.targets[i])))
  }

  /** The answer reports this change made and seen. */
  predicate Confirms(scheme: Scheme, before: Service, v: Response) {
    && v.service == scheme.service && v.before == Label(before) && v.desired == Label(scheme.desired)
    && v.actual == Label(scheme.desired) && v.verified && (scheme.restart ==> v.stoppedVerified)
  }

  function AssessedPhase(scheme: Scheme, original: Service, v: Response, restore: bool): Phase {
    var desired := if restore then original else scheme.desired;
    if v.verified && v.actual == Label(desired) && (!scheme.restart || restore || v.stoppedVerified) then
      if restore then Restored else Verify
    else if !restore && v.rollbackVerified && v.rollbackAttempted && v.actual == Label(original) then Restored
    else Unknown
  }

  function Assessed(r: Run, answer: Option<Response>, restore: bool): Option<Run>
    requires Current(r)
  {
    var t := r.targets[r.current];
    if t.before.None? || answer.None? then None
    else
      var original, v := t.before.value, answer.value;
      var before := if restore then r.scheme.desired else original;
      var desired := if restore then original else r.scheme.desired;
      if v.service != r.scheme.service || v.before != Label(before) || v.desired != Label(desired) then None
      else
        Some(WithCurrent(r, t.(phase := AssessedPhase(r.scheme, original, v, restore),
          evidence := t.evidence + [Answer(v)])))
  }

  predicate Successful(r: Run) {
    r.finished.Some? && r.targets != [] && forall i :: 0 <= i < |r.targets| ==> r.targets[i].phase == Passed
  }

  // ---- Evidence of a success

  predicate Reports(text: Text, service: string, state: Service) {
    text.Report? && SameIgnoringCase(text.service, service) && text.state == state
  }

  predicate ReportedBefore(t: TargetRun, service: string, before: Service) {
    exists i :: 0 <= i < |t.evidence| && Reports(t.evidence[i], service, before)
  }

  predicate ChangeConfirmed(t: TargetRun, scheme: Scheme, before: Service) {
    exists i :: 0 <= i < |t.evidence| && t.evidence[i].Answer? && Confirms(scheme, before, t.evidence[i].response)
  }

  predicate EvidencedSuccess(r: Run, t: TargetRun, now: int) {
    && t.before.Some? && t.captured.Some? && t.baseline.Some? && t.health.Some?
    && t.phase == Passed && t.health.value.passed
    && t.captured.value <= t.baseline.value.at <= t.health.value.at
    && r.finished.Some? && t.health.value.at <= r.finished.value <= now
    && ReportedBefore(t, r.scheme.service, t.before.value)
    && if t.before.value == r.scheme.desired && !r.scheme.restart then !r.rehearsal
       else ChangeConfirmed(t, r.scheme, t.before.value)
  }

  // ---- The run in place

  class RunRecord {
    const id: nat
    const scheme: Scheme
    const hash: nat
    const rehearsal: bool
    var targets: seq<TargetRun>
    var current: nat
    var finished: Option<int>

    constructor (id: nat, scheme: Scheme, hash: nat, rehearsal: bool)
      ensures Contents() == Started(id, scheme, hash, rehearsal)
    {
      this.id, this.scheme, this.hash, this.rehearsal := id, scheme, hash, rehearsal;
      current, finished := 0, None;
      targets := Started(id, scheme, hash, rehearsal).targets;
    }

    function Contents(): Run
      reads this
    {
      Run(id, scheme, hash, rehearsal, targets, current, finished)
    }

    method Advance(now: int)
      requires Current(Contents())
      modifies this
      ensures Contents() == Advanced(old(Contents()), now)
    {
      if targets[current].phase == Passed {
        if current + 1 < |targets| {
          current := current + 1;
        } else {
          finished := Some(now);
        }
      } else if targets[current].phase in {Failed, Restored, Unknown} {
        finished := Some(now);
      }
    }

    method FinishHealth(h: Health, now: int) returns (accepted: bool)
      requires Current(Contents())
      modifies this
      ensures var r := HealthFinished(old(Contents()), h, now);
        accepted == r.Some? && Contents() == if r.Some? then r.value else old(Contents())
    {
      var t := targets[current];
      match t.phase {
        case Baseline =>
          t := t.(baseline := Some(h), phase := Review);
        case Verify =>
          if h.passed {
            t := t.(phase := Passed);
          } else if t.before == Some(scheme.desired) && !scheme.restart {
            t := t.(phase := Failed);
          } else {
            t := t.(phase := Restore);
          }
          t := t.(health := Some(h));
        case _ =>
          return false;
      }
      targets := targets[current := t];
      Advance(now);
      return true;
    }

    method FailCurrent(note: string, now: int)
      requires Current(Contents())
      modifies this
      ensures Contents() == FailedCurrent(old(Contents()), note, now)
    {
      var t := targets[current];
      targets := targets[current := t.(phase := Unknown, evidence := t.evidence + [Message(note)])];
      Advance(now);
    }

    method InterruptAfterRestart(now: int)
      modifies this
      ensures Contents() == Interrupted(old(Contents()), now)
    {
      if finished.Some? {
        return;
      }
      var i := 0;
      while i < |targets|
        invariant i <= |targets| == |old(targets)|
        invariant forall k :: 0 <= k < |targets| ==>
          targets[k] == if k < i then CutOff(old(targets)[k]) else old(targets)[k]
        invariant Contents() == old(Contents()).(targets := targets)
      {
        var t := targets[i];
        if t.phase !in {Passed, Restored, Failed} {
          targets := targets[i := t.(phase := Unknown, evidence := t.evidence + [Message(RESTART_NOTE)])];
        }
        i := i + 1;
      }
      finished := Some(now);
    }

    method AssessMutation(answer: Option<Response>, restore: bool) returns (accepted: bool)
      requires Current(Contents())
      modifies this
      ensures var r := Assessed(old(Contents()), answer, restore);
        accepted == r.Some? && Contents() == if r.Some? then r.value else old(Contents())
    {
      var t := targets[current];
      if t.before.None? || answer.None? {
        return false;
      }
      var original, v := t.before.value, answer.value;
      var before, desired := original, scheme.desired;
      if restore {
        before, desired := scheme.desired, original;
      }
      if v.service != scheme.service || v.before != Label(before) || v.desired != Label(desired) {
        return false;
      }
      var next := Unknown;
      if v.verified && v.actual == Label(desired) && (!scheme.restart || restore || v.stoppedVerified) {
        next := if restore then Restored else Verify;
      } else if !restore && v.rollbackVerified && v.rollbackAttempted && v.actual == Label(original) {
        next := Restored;
      }
      targets := targets[current := t.(phase := next, evidence := t.evidence + [Answer(v)])];
      return true;
    }
  }
}
