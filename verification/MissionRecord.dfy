/** The mission changed in place, operation by operation, as the specification says. */
module MissionRecord {
  import opened Characters
  import opened Outcomes
  import opened Mission

  /** A refusal leaves the mission as it was; otherwise it becomes what the specification says. */
  ghost predicate Becomes(was: Plan, r: Result<Plan, Refusal>, refused: Option<Refusal>, now: Plan) {
    if r.Ok? then refused.None? && now == r.value else refused == Some(r.error) && now == was
  }

  class Record {
    var objective: string
    var targets: seq<Target>
    var tasks: seq<Task>
    var outcomes: seq<Outcome>
    var evidence: seq<Evidence>
    var pilot: Id
    var rollout: bool
    var paused: bool
    var handoff: string
    const redact: string -> string

    constructor (m: Plan, redact: string -> string)
      ensures Contents() == m && this.redact == redact
    {
      objective, targets, tasks, outcomes, evidence := m.objective, m.targets, m.tasks, m.outcomes, m.evidence;
      pilot, rollout, paused, handoff := m.pilot, m.rollout, m.paused, m.handoff;
      this.redact := redact;
    }

    function Contents(): Plan
      reads this
    {
      Plan(objective, targets, tasks, outcomes, evidence, pilot, rollout, paused, handoff)
    }

    method Begin(target: Id, task: nat) returns (refused: Option<Refusal>)
      modifies this
      ensures Becomes(old(Contents()), Begun(old(Contents()), target, task), refused, Contents())
    {
      if paused {
        return Some(IsPaused);
      }
      if target != pilot && (!rollout || !PilotPassed(Contents())) {
        return Some(NotReleased);
      }
      var k := 0;
      while k < |outcomes|
        invariant k <= |outcomes|
        invariant forall j :: 0 <= j < k && outcomes[j].target == target && outcomes[j].task < task ==>
          outcomes[j].status == Passed
      {
        if outcomes[k].target == target && outcomes[k].task < task && outcomes[k].status != Passed {
          return Some(EarlierOpen);
        }
        k := k + 1;
      }
      var i := Find(outcomes, target, task);
      if i == |outcomes| {
        return Some(NoSuchStep);
      }
      if outcomes[i].status in {Running, Passed, Review} {
        return Some(AlreadyStarted);
      }
      outcomes := outcomes[i := outcomes[i].(status := Running, evidence := [], verification := "")];
      return None;
    }

    method RecordEvidence(target: Id, task: nat, e: Evidence) returns (refused: Option<Refusal>)
      modifies this
      ensures Becomes(old(Contents()), Recorded(old(Contents()), target, task, e), refused, Contents())
    {
      if e.target.profile != target {
        return Some(OtherComputer);
      }
      var t := FindTarget(targets, target);
      if t == |targets| {
        return Some(NoSuchComputer);
      }
      if !SameEndpoint(targets[t], e.target) {
        return Some(OtherEndpoint);
      }
      var i := Find(outcomes, target, task);
      if i == |outcomes| {
        return Some(NoSuchStep);
      }
      if outcomes[i].status != Running {
        return Some(NotRunning);
      }
      if Empty(e) {
        return Some(EmptyFinding);
      }
      outcomes := outcomes[i := outcomes[i].(status := Review, evidence := outcomes[i].evidence + [e.id])];
      evidence := evidence + [e];
      return None;
    }

    method Verify(target: Id, task: nat, passed: bool, note: string) returns (refused: Option<Refusal>)
      modifies this
      ensures Becomes(old(Contents()), Verified(old(Contents()), target, task, passed, note, redact), refused,
        Contents())
    {
      if Blank(note) {
        return Some(NoReason);
      }
      var i := Find(outcomes, target, task);
      if i == |outcomes| {
        return Some(NoSuchStep);
      }
      if outcomes[i].status != Review || outcomes[i].evidence == [] {
        return Some(NothingToReview);
      }
      var status := if passed then Passed else Failed;
      outcomes := outcomes[i := outcomes[i].(status := status, verification := redact(note))];
      return None;
    }

    method Pause()
      modifies this
      ensures Contents() == Paused(old(Contents()))
    {
      paused := true;
      var i := 0;
      while i < |outcomes|
        invariant i <= |outcomes| == |old(outcomes)|
        invariant forall k :: 0 <= k < |outcomes| ==>
          outcomes[k] == if k < i then Stopped(old(outcomes)[k]) else old(outcomes)[k]
        invariant Contents() == old(Contents()).(paused := true, outcomes := outcomes)
      {
        if outcomes[i].status == Running {
          outcomes := outcomes[i := outcomes[i].(status := Interrupted)];
        }
        i := i + 1;
      }
    }

    method AllowRollout() returns (refused: Option<Refusal>)
      modifies this
      ensures Becomes(old(Contents()), Released(old(Contents())), refused, Contents())
    {
      if !PilotPassed(Contents()) {
        return Some(PilotUnfinished);
      }
      rollout := true;
      return None;
    }

    /** First every target is looked up, and only then is anything renamed. */
    method MapLocalProfiles(profiles: seq<Target>) returns (refused: Option<Refusal>)
      requires Shaped(Contents())
      modifies this
      ensures Becomes(old(Contents()), MappedLocally(old(Contents()), profiles), refused, Contents())
    {
      if !paused {
        return Some(NotPaused);
      }
      var mapping := LookUp(targets, profiles);
      if mapping.Err? {
        return Some(mapping.error);
      }
      MappingCovers(Contents(), profiles);
      RenameAll(mapping.value);
      return None;
    }

    method RenameAll(mapped: map<Id, Target>)
      requires Covers(mapped, Contents())
      modifies this
      ensures Contents() == Renamed(old(Contents()), mapped)
    {
      var i := 0;
      while i < |outcomes|
        invariant i <= |outcomes| == |old(outcomes)|
        invariant forall k :: 0 <= k < |outcomes| ==>
          outcomes[k] == if k < i then Renamed(old(Contents()), mapped).outcomes[k] else old(outcomes)[k]
        invariant Contents() == old(Contents()).(outcomes := outcomes)
      {
        outcomes := outcomes[i := outcomes[i].(target := mapped[outcomes[i].target].profile)];
        i := i + 1;
      }
      i := 0;
      while i < |evidence|
        invariant i <= |evidence| == |old(evidence)|
        invariant forall k :: 0 <= k < |evidence| ==>
          evidence[k] == if k < i then Renamed(old(Contents()), mapped).evidence[k] else old(evidence)[k]
        invariant Contents() == old(Contents()).(outcomes := Renamed(old(Contents()), mapped).outcomes,
          evidence := evidence)
      {
        evidence := evidence[i := evidence[i].(target := mapped[evidence[i].target.profile])];
        i := i + 1;
      }
      pilot := mapped[pilot].profile;
      var before := targets;
      targets := seq(|before|, k requires 0 <= k < |before| && before[k].profile in mapped =>
        mapped[before[k].profile]);
    }
  }

  method LookUp(targets: seq<Target>, profiles: seq<Target>) returns (r: Result<map<Id, Target>, Refusal>)
    ensures r == Mapping(targets, profiles)
  {
    var mapped: map<Id, Target> := map[];
    var used: set<Id> := {};
    var t := 0;
    while t < |targets|
      invariant t <= |targets| && Mapping(targets[..t], profiles) == Ok(mapped)
      invariant forall x :: x in used <==> Taken(targets[..t], profiles, x)
    {
      MappingGrows(targets, profiles, t);
      var found := Matches(profiles, targets[t].endpoint);
      if |found| != 1 {
        MappingFails(targets, profiles, t + 1);
        return Err(NoUniqueProfile);
      }
      if found[0].profile in used {
        MappingFails(targets, profiles, t + 1);
        return Err(SameProfile);
      }
      TakenGrows(targets, profiles, t);
      used := used + {found[0].profile};
      mapped := mapped[targets[t].profile := found[0]];
      t := t + 1;
    }
    assert targets[..t] == targets;
    return Ok(mapped);
  }

  lemma MappingGrows(targets: seq<Target>, profiles: seq<Target>, t: nat)
    requires t < |targets| && Mapping(targets[..t], profiles).Ok?
    ensures var mapped, found := Mapping(targets[..t], profiles).value, Matches(profiles, targets[t].endpoint);
      Mapping(targets[..t + 1], profiles) ==
      if |found| != 1 then Err(NoUniqueProfile)
      else if Taken(targets[..t], profiles, found[0].profile) then Err(SameProfile)
      else Ok(mapped[targets[t].profile := found[0]])
  {
    assert targets[..t + 1][..t] == targets[..t];
  }

  lemma TakenGrows(targets: seq<Target>, profiles: seq<Target>, t: nat)
    requires t < |targets|
    ensures forall x :: Taken(targets[..t + 1], profiles, x) <==>
      Taken(targets[..t], profiles, x) || FoundOnly(profiles, targets[t].endpoint, x)
  {
    var front, more := targets[..t], targets[..t + 1];
    forall x
      ensures Taken(more, profiles, x) <==> Taken(front, profiles, x) || FoundOnly(profiles, targets[t].endpoint, x)
    {
      if i :| 0 <= i < |front| && FoundOnly(profiles, front[i].endpoint, x) {
        assert FoundOnly(profiles, more[i].endpoint, x);
      }
      if FoundOnly(profiles, targets[t].endpoint, x) {
        assert FoundOnly(profiles, more[t].endpoint, x);
      }
      if i :| 0 <= i < |more| && FoundOnly(profiles, more[i].endpoint, x) {
        assert i < t ==> FoundOnly(profiles, front[i].endpoint, x);
      }
    }
  }

  /** A prefix without a mapping leaves the whole without one, for the same reason. */
  lemma {:induction false} MappingFails(targets: seq<Target>, profiles: seq<Target>, t: nat)
    requires t <= |targets| && Mapping(targets[..t], profiles).Err?
    ensures Mapping(targets, profiles) == Mapping(targets[..t], profiles)
    decreases |targets|
  {
    if t < |targets| {
      var rest := targets[..|targets| - 1];
      assert rest[..t] == targets[..t];
      MappingFails(rest, profiles, t);
    } else {
      assert targets[..t] == targets;
    }
  }

  /** An imported mission, renumbered and redacted loop by loop. */
  method Import(m: Plan, ids: seq<Id>, redact: string -> string) returns (r: Result<Plan, Refusal>)
    requires |ids| == |m.evidence|
    ensures r == Imported(m, ids, redact)
  {
    if !Valid(m) {
      return Err(Invalid);
    }
    var outcomes, evidence := m.outcomes, m.evidence;
    var i := 0;
    while i < |outcomes|
      invariant i <= |outcomes| == |m.outcomes|
      invariant forall k :: 0 <= k < |outcomes| ==>
        outcomes[k] == if k < i then Reissued(m, m.outcomes[k], ids) else m.outcomes[k]
    {
      outcomes := outcomes[i := Reissued(m, m.outcomes[i], ids)];
      i := i + 1;
    }
    assert outcomes == ReissuedAll(m, ids);
    i := 0;
    while i < |evidence|
      invariant i <= |evidence| == |m.evidence|
      invariant forall k :: 0 <= k < |evidence| ==>
        evidence[k] == if k < i then Redacted(m.evidence[k], ids[k], redact) else m.evidence[k]
    {
      evidence := evidence[i := Redacted(evidence[i], ids[i], redact)];
      i := i + 1;
    }
    assert evidence == RedactedAll(m, ids, redact);
    return Ok(m.(paused := true, rollout := false, objective := redact(m.objective), handoff := redact(m.handoff),
                 outcomes := outcomes, evidence := evidence));
  }
}
