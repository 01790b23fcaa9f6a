/** Progress over whole runs: what is confirmed stays confirmed, steps go in order, and the pilot goes first. */
module MissionRuns {
  import opened Outcomes
  import opened Redaction
  import opened Mission
  import opened MissionTransfer
  import opened MissionValid

  datatype Op =
    | Begin(target: Id, task: nat)
    | Record(target: Id, task: nat, e: Evidence)
    | Verify(target: Id, task: nat, passed: bool, note: string)
    | Pause
    | Resume
    | Release
    | MapLocally(profiles: seq<Target>)
    | Reload

  function Done(m: Plan, r: Result<Plan, Refusal>): Plan { if r.Ok? then r.value else m }

  /** A stored mission with a step left running comes back interrupted and paused. */
  function Reloaded(m: Plan): Plan {
    if exists i :: 0 <= i < |m.outcomes| && m.outcomes[i].status == Running then Paused(m) else m
  }

  function StepOf(m: Plan, op: Op, redact: string -> string): Plan
    requires Shaped(m)
  {
    match op
    case Begin(target, task) => Done(m, Begun(m, target, task))
    case Record(target, task, e) => Done(m, Recorded(m, target, task, e))
    case Verify(target, task, passed, note) => Done(m, Verified(m, target, task, passed, note, redact))
    case Pause => Paused(m)
    case Resume => m.(paused := false)
    case Release => Done(m, Released(m))
    case MapLocally(profiles) => Done(m, MappedLocally(m, profiles))
    case Reload => Reloaded(m)
  }

  // ---- Progress

  /** Before a step that is no longer pending, every earlier step of the same target is confirmed. */
  ghost predicate InOrder(m: Plan) {
    forall i, j :: 0 <= i < |m.outcomes| && 0 <= j < |m.outcomes| ==>
      && m.outcomes[i].target == m.outcomes[j].target && m.outcomes[i].task < m.outcomes[j].task
      && m.outcomes[j].status != Pending ==>
        m.outcomes[i].status == Passed
  }

  /** Before anything happens on another target, every step of the pilot is confirmed. */
  ghost predicate PilotFirst(m: Plan) {
    forall i :: 0 <= i < |m.outcomes| && m.outcomes[i].target != m.pilot && m.outcomes[i].status != Pending ==>
      PilotPassed(m)
  }

  ghost predicate Progress(m: Plan) { Shaped(m) && InOrder(m) && PilotFirst(m) }

  /** Outcome by outcome: the same step, confirmed if it was confirmed, and not pending if it was not. */
  ghost predicate Advanced(m: Plan, n: Plan) {
    && |n.outcomes| == |m.outcomes|
    && forall i :: 0 <= i < |m.outcomes| ==>
         && n.outcomes[i].task == m.outcomes[i].task
         && (m.outcomes[i].status == Passed ==> n.outcomes[i].(target := m.outcomes[i].target) == m.outcomes[i])
         && (m.outcomes[i].status != Pending ==> n.outcomes[i].status != Pending)
  }

  /** One outcome changes its status, with everything its new status asks for already there. */
  lemma OneChange(m: Plan, i: nat, o: Outcome)
    requires Progress(m) && i < |m.outcomes| && o.target == m.outcomes[i].target && o.task == m.outcomes[i].task
    requires m.outcomes[i].status != Passed && o.status != Pending
    requires m.outcomes[i].status == Pending ==>
      && (o.target != m.pilot ==> PilotPassed(m))
      && (forall k :: 0 <= k < |m.outcomes| && m.outcomes[k].target == o.target && m.outcomes[k].task < o.task ==>
            m.outcomes[k].status == Passed)
    ensures Progress(m.(outcomes := m.outcomes[i := o])) && Advanced(m, m.(outcomes := m.outcomes[i := o]))
  {
    var n := m.(outcomes := m.outcomes[i := o]);
    forall k | 0 <= k < |n.outcomes| && n.outcomes[k].target != n.pilot && n.outcomes[k].status != Pending
      ensures PilotPassed(n)
    {
      assert m.outcomes[k].status != Pending || k == i;
      assert PilotPassed(m);
    }
  }

  lemma StatusOnly(m: Plan, n: Plan)
    requires Progress(m) && n.targets == m.targets && n.pilot == m.pilot && n.evidence == m.evidence
    requires |n.outcomes| == |m.outcomes|
    requires forall i :: 0 <= i < |m.outcomes| ==> n.outcomes[i] == Stopped(m.outcomes[i])
    ensures Progress(n) && Advanced(m, n)
  {
    assert PilotPassed(m) ==> PilotPassed(n);
    forall i, j | 0 <= i < |n.outcomes| && 0 <= j < |n.outcomes| && n.outcomes[i].target == n.outcomes[j].target
                  && n.outcomes[i].task < n.outcomes[j].task && n.outcomes[j].status != Pending
      ensures n.outcomes[i].status == Passed
    {
      assert m.outcomes[i].status == Passed;
    }
  }

  lemma RenamingKeepsProgress(m: Plan, profiles: seq<Target>)
    requires Progress(m) && MappedLocally(m, profiles).Ok?
    ensures var n := MappedLocally(m, profiles).value; Progress(n) && Advanced(m, n)
  {
    var n := MappedLocally(m, profiles).value;
    MappingRelocates(m, profiles);
    RenamedProgress(m, n, Mapping(m.targets, profiles).value);
  }

  lemma RenamedPilot(m: Plan, n: Plan, mapped: map<Id, Target>)
    requires Relocates(m, n, mapped) && PilotPassed(m)
    ensures PilotPassed(n)
  {
    forall i | 0 <= i < |n.outcomes| && n.outcomes[i].target == n.pilot
      ensures n.outcomes[i].status == Passed
    {
      assert m.outcomes[i].target == m.pilot;
    }
  }

  lemma RenamedOrder(m: Plan, n: Plan, mapped: map<Id, Target>)
    requires Relocates(m, n, mapped) && InOrder(m)
    ensures InOrder(n)
  {
    forall i, j | 0 <= i < |n.outcomes| && 0 <= j < |n.outcomes| && n.outcomes[i].target == n.outcomes[j].target
                  && n.outcomes[i].task < n.outcomes[j].task && n.outcomes[j].status != Pending
      ensures n.outcomes[i].status == Passed
    {
      assert m.outcomes[i].target == m.outcomes[j].target;
    }
  }

  lemma RenamedProgress(m: Plan, n: Plan, mapped: map<Id, Target>)
    requires Progress(m) && Relocates(m, n, mapped)
    ensures Progress(n) && Advanced(m, n)
  {
    RenamedOrder(m, n, mapped);
    if PilotPassed(m) {
      RenamedPilot(m, n, mapped);
    }
    forall i | 0 <= i < |n.outcomes| && n.outcomes[i].target != n.pilot && n.outcomes[i].status != Pending
      ensures PilotPassed(n)
    {
      assert m.outcomes[i].target != m.pilot;
    }
  }

  lemma RecordKeepsProgress(m: Plan, target: Id, task: nat, e: Evidence)
    requires Progress(m) && Recorded(m, target, task, e).Ok?
    ensures var n := Recorded(m, target, task, e).value; Progress(n) && Advanced(m, n)
  {
    var i := Find(m.outcomes, target, task);
    var o := m.outcomes[i].(status := Review, evidence := m.outcomes[i].evidence + [e.id]);
    OneChange(m, i, o);
  }

  lemma BeginKeepsProgress(m: Plan, target: Id, task: nat)
    requires Progress(m) && Begun(m, target, task).Ok?
    ensures var n := Begun(m, target, task).value; Progress(n) && Advanced(m, n)
  {
    var i := Find(m.outcomes, target, task);
    OneChange(m, i, m.outcomes[i].(status := Running, evidence := [], verification := ""));
  }

  lemma VerifyKeepsProgress(m: Plan, op: Op, redact: string -> string)
    requires op.Verify? && Progress(m) && Verified(m, op.target, op.task, op.passed, op.note, redact).Ok?
    ensures var n := Verified(m, op.target, op.task, op.passed, op.note, redact).value; Progress(n) && Advanced(m, n)
  {
    var i := Find(m.outcomes, op.target, op.task);
    var o := m.outcomes[i].(status := if op.passed then Passed else Failed, verification := redact(op.note));
    OneChange(m, i, o);
  }

  lemma StepKeepsProgress(m: Plan, op: Op, redact: string -> string)
    requires Progress(m)
    ensures var n := StepOf(m, op, redact); Progress(n) && Advanced(m, n)
  {
    var n := StepOf(m, op, redact);
    if n == m {
    } else {
      match op
      case Begin(target, task) => BeginKeepsProgress(m, target, task);
      case Record(target, task, e) => RecordKeepsProgress(m, target, task, e);
      case Verify(_, _, _, _) => VerifyKeepsProgress(m, op, redact);
      case Pause => StatusOnly(m, n);
      case Resume =>
      case Release =>
      case MapLocally(profiles) => RenamingKeepsProgress(m, profiles);
      case Reload => StatusOnly(m, n);
    }
  }

  // ---- Whole runs

  datatype Moment = Moment(before: Plan, op: Op, after: Plan)

  ghost predicate StartsNew(m: Plan, redact: string -> string) {
    exists objective, targets, tasks :: Created(objective, targets, tasks, redact) == Ok(m)
  }

  ghost predicate Run(trace: seq<Moment>, redact: string -> string) {
    && (forall k :: 0 <= k < |trace| ==>
          Shaped(trace[k].before) && trace[k].after == StepOf(trace[k].before, trace[k].op, redact))
    && (trace != [] ==> StartsNew(trace[0].before, redact))
    && (forall k :: 0 < k < |trace| ==> trace[k].before == trace[k - 1].after)
  }

  lemma {:induction false} FreshOutcomes(targets: seq<Target>, count: nat)
    ensures forall i :: 0 <= i < |Fresh(targets, count)| ==>
      Fresh(targets, count)[i].status == Pending && FindTarget(targets, Fresh(targets, count)[i].target) < |targets|
  {
    if targets != [] {
      var rest := targets[..|targets| - 1];
      FreshOutcomes(rest, count);
      forall i | 0 <= i < |Fresh(targets, count)|
        ensures Fresh(targets, count)[i].status == Pending
        ensures FindTarget(targets, Fresh(targets, count)[i].target) < |targets|
      {
        if i < |Fresh(rest, count)| {
          var t := FindTarget(rest, Fresh(rest, count)[i].target);
          assert targets[t] == rest[t];
        } else {
          assert targets[|targets| - 1].profile == Fresh(targets, count)[i].target;
        }
      }
    }
  }

  lemma NewMissionProgress(m: Plan, redact: string -> string)
    requires StartsNew(m, redact)
    ensures Progress(m)
  {
    var objective, targets, tasks :| Created(objective, targets, tasks, redact) == Ok(m);
    FreshOutcomes(targets, |tasks|);
  }

  lemma {:induction false} RunKeepsProgress(trace: seq<Moment>, redact: string -> string, k: nat)
    requires Run(trace, redact) && k < |trace|
    ensures Progress(trace[k].before) && Progress(trace[k].after) && Advanced(trace[k].before, trace[k].after)
  {
    if k == 0 {
      NewMissionProgress(trace[0].before, redact);
    } else {
      RunKeepsProgress(trace, redact, k - 1);
    }
    StepKeepsProgress(trace[k].before, trace[k].op, redact);
  }

  /** Between any two points of a run nothing confirmed is lost or altered, and nothing begun becomes pending again. */
  lemma {:induction false} ConfirmedStays(trace: seq<Moment>, redact: string -> string, i: nat, j: nat)
    requires Run(trace, redact) && i <= j < |trace|
    ensures Advanced(trace[i].before, trace[j].after)
  {
    RunKeepsProgress(trace, redact, j);
    if i < j {
      ConfirmedStays(trace, redact, i, j - 1);
    }
  }

  /**
   * The outcomes of one target, step by step: confirmed ones first, then at most one that is active or failed, then
   * only pending ones.
   */
  lemma OneOpenStep(trace: seq<Moment>, redact: string -> string, k: nat, i: nat, j: nat)
    requires Run(trace, redact) && k < |trace|
    requires var o := trace[k].after.outcomes;
      i < |o| && j < |o| && o[i].target == o[j].target && o[i].task < o[j].task && o[i].status != Passed
    ensures trace[k].after.outcomes[j].status == Pending
  {
    RunKeepsProgress(trace, redact, k);
  }

  lemma PilotGoesFirst(trace: seq<Moment>, redact: string -> string, k: nat, i: nat, j: nat)
    requires Run(trace, redact) && k < |trace| && i < |trace[k].after.outcomes| && j < |trace[k].after.outcomes|
    requires trace[k].after.outcomes[i].target != trace[k].after.pilot && trace[k].after.outcomes[i].status != Pending
    requires trace[k].after.outcomes[j].target == trace[k].after.pilot
    ensures trace[k].after.outcomes[j].status == Passed
  {
    RunKeepsProgress(trace, redact, k);
    assert PilotPassed(trace[k].after);
  }

  // ---- The stored check along a run

  /** Evidence ids are never reused, and no more evidence is taken than a mission may hold. */
  ghost predicate Careful(m: Plan, op: Op) {
    op.Record? ==> op.e.id !in Elements(Ids(m.evidence)) && |m.evidence| < MAX_EVIDENCE
  }

  lemma StepKeepsValid(m: Plan, op: Op, lower: char -> char)
    requires Shaped(m) && Valid(m) && Careful(m, op)
    ensures Valid(StepOf(m, op, Redactor(lower)))
  {
    var n := StepOf(m, op, Redactor(lower));
    if n == m {
    } else {
      match op
      case Begin(target, task) => BeginKeepsValid(m, target, task);
      case Record(target, task, e) => RecordKeepsValid(m, target, task, e);
      case Verify(target, task, passed, note) =>
        VerifyKeepsValid(m, target, task, passed, note, Redactor(lower));
        RedactionKeepsWords(note, lower);
      case MapLocally(profiles) => MappingKeepsValid(m, profiles);
      case _ => PauseKeepsValid(m);
    }
  }

  /** A mission that was storable when made can be loaded again at any point of its run. */
  lemma {:induction false} RunStaysValid(trace: seq<Moment>, lower: char -> char, k: nat)
    requires Run(trace, Redactor(lower)) && k < |trace| && Valid(trace[0].before)
    requires forall i :: 0 <= i < |trace| ==> Careful(trace[i].before, trace[i].op)
    ensures Valid(trace[k].after)
  {
    if k > 0 {
      RunStaysValid(trace, lower, k - 1);
    }
    StepKeepsValid(trace[k].before, trace[k].op, lower);
  }
}
