/**
 * When each operation on a mission is accepted and what it changes, in the fields of the mission; and what the release
 * gates.
 */
module MissionLaws {
  import opened Characters
  import opened Outcomes
  import opened Mission
  import opened MissionValid
  import opened MissionRuns

  // ---- One step

  ghost predicate IsStep(o: Outcome, target: Id, task: nat) { o.target == target && o.task == task }

  /** The step meant: the first outcome of this target and number. */
  ghost predicate Means(m: Plan, i: int, target: Id, task: nat) {
    && 0 <= i < |m.outcomes| && IsStep(m.outcomes[i], target, task)
    && forall k :: 0 <= k < i ==> !IsStep(m.outcomes[k], target, task)
  }

  lemma MeantIsFound(m: Plan, target: Id, task: nat)
    ensures var i := Find(m.outcomes, target, task);
      if i < |m.outcomes| then forall k :: Means(m, k, target, task) <==> k == i
      else forall k :: !Means(m, k, target, task)
  {
    var i := Find(m.outcomes, target, task);
    assert forall k :: 0 <= k < i ==> !IsStep(m.outcomes[k], target, task);
    assert i < |m.outcomes| ==> IsStep(m.outcomes[i], target, task);
  }

  /** Outcome `i` is `o` now, and nothing else differs but the evidence. */
  ghost predicate OnlyOutcome(m: Plan, n: Plan, i: nat, o: Outcome) {
    && n == m.(outcomes := n.outcomes, evidence := n.evidence) && i < |m.outcomes| == |n.outcomes| && n.outcomes[i] == o
    && forall k :: 0 <= k < |m.outcomes| && k != i ==> n.outcomes[k] == m.outcomes[k]
  }

  /**
   * Other computers than the pilot may go on: the operator released the rollout, and every step of the pilot is
   * confirmed.
   */
  ghost predicate MayGoOn(m: Plan, target: Id) {
    || target == m.pilot
    || (m.rollout && forall i :: 0 <= i < |m.outcomes| && m.outcomes[i].target == m.pilot ==>
      m.outcomes[i].status == Passed)
  }

  ghost predicate EarlierConfirmed(m: Plan, target: Id, task: nat) {
    forall i :: 0 <= i < |m.outcomes| && m.outcomes[i].target == target && m.outcomes[i].task < task ==>
      m.outcomes[i].status == Passed
  }

  ghost predicate Startable(s: Status) { s == Pending || s == Failed || s == Interrupted }

  lemma BeginExactly(m: Plan, target: Id, task: nat)
    ensures Begun(m, target, task).Ok? <==>
      && !m.paused && MayGoOn(m, target) && EarlierConfirmed(m, target, task)
      && exists i :: Means(m, i, target, task) && Startable(m.outcomes[i].status)
    ensures forall i :: Begun(m, target, task).Ok? && Means(m, i, target, task) ==>
      && OnlyOutcome(m, Begun(m, target, task).value, i, Outcome(target, task, Running, [], ""))
      && Begun(m, target, task).value.evidence == m.evidence
  {
    MeantIsFound(m, target, task);
  }

  /** Why a step does not start, in the order of the checks. */
  lemma BeginRefusals(m: Plan, target: Id, task: nat)
    requires Begun(m, target, task).Err?
    ensures Begun(m, target, task).error ==
      if m.paused then IsPaused
      else if !MayGoOn(m, target) then NotReleased
      else if !EarlierConfirmed(m, target, task) then EarlierOpen
      else if forall i :: !Means(m, i, target, task) then NoSuchStep
      else AlreadyStarted
  {
    MeantIsFound(m, target, task);
    var i := Find(m.outcomes, target, task);
    assert i < |m.outcomes| ==> Means(m, i, target, task);
  }

  /** The observation is of this target: the same endpoint as the first target of that id. */
  ghost predicate SeenOn(m: Plan, t: int, target: Id, e: Evidence) {
    && 0 <= t < |m.targets| && m.targets[t].profile == target
    && (forall k :: 0 <= k < t ==> m.targets[k].profile != target)
    && e.target.profile == target && e.target.endpoint == m.targets[t].endpoint
  }

  lemma TargetIsFound(m: Plan, target: Id, e: Evidence)
    ensures var t := FindTarget(m.targets, target);
      if t < |m.targets| && e.target.profile == target && e.target.endpoint == m.targets[t].endpoint
      then SeenOn(m, t, target, e) else forall k :: !SeenOn(m, k, target, e)
  {
    var t := FindTarget(m.targets, target);
    forall k | SeenOn(m, k, target, e)
      ensures k == t
    {
    }
  }

  /** A running step takes an observation of its own computer that says something, and waits for review. */
  lemma RecordExactly(m: Plan, target: Id, task: nat, e: Evidence)
    ensures Recorded(m, target, task, e).Ok? <==>
      && (exists t :: SeenOn(m, t, target, e)) && (e.facts != map[] || !Blank(e.notes))
      && exists i :: Means(m, i, target, task) && m.outcomes[i].status == Running
    ensures forall i :: Recorded(m, target, task, e).Ok? && Means(m, i, target, task) ==>
      var n, o := Recorded(m, target, task, e).value, m.outcomes[i];
      && OnlyOutcome(m, n, i, Outcome(target, task, Review, o.evidence + [e.id], o.verification))
      && n.evidence == m.evidence + [e]
  {
    MeantIsFound(m, target, task);
    TargetIsFound(m, target, e);
  }

  lemma RecordRefusals(m: Plan, target: Id, task: nat, e: Evidence)
    requires Recorded(m, target, task, e).Err?
    ensures Recorded(m, target, task, e).error ==
      if e.target.profile != target then OtherComputer
      else if forall t :: 0 <= t < |m.targets| ==> m.targets[t].profile != target then NoSuchComputer
      else if forall t :: !SeenOn(m, t, target, e) then OtherEndpoint
      else if forall i :: !Means(m, i, target, task) then NoSuchStep
      else if forall i :: Means(m, i, target, task) ==> m.outcomes[i].status != Running then NotRunning
      else EmptyFinding
  {
    MeantIsFound(m, target, task);
    TargetIsFound(m, target, e);
    var i, t := Find(m.outcomes, target, task), FindTarget(m.targets, target);
    assert i < |m.outcomes| ==> Means(m, i, target, task);
    assert t < |m.targets| ==> m.targets[t].profile == target;
    assert t < |m.targets| && e.target.profile == target ==>
      (e.target.endpoint == m.targets[t].endpoint <==> SeenOn(m, t, target, e));
  }

  /** A step under review with evidence takes a reasoned verdict. */
  lemma VerifyExactly(m: Plan, target: Id, task: nat, passed: bool, note: string, redact: string -> string)
    ensures Verified(m, target, task, passed, note, redact).Ok? <==>
      && !Blank(note)
      && exists i :: Means(m, i, target, task) && m.outcomes[i].status == Review && m.outcomes[i].evidence != []
    ensures forall i :: Verified(m, target, task, passed, note, redact).Ok? && Means(m, i, target, task) ==>
      var n, verdict := Verified(m, target, task, passed, note, redact).value, if passed then Passed else Failed;
      && OnlyOutcome(m, n, i, Outcome(target, task, verdict, m.outcomes[i].evidence, redact(note)))
      && n.evidence == m.evidence
  {
    MeantIsFound(m, target, task);
  }

  lemma VerifyRefusals(m: Plan, target: Id, task: nat, passed: bool, note: string, redact: string -> string)
    requires Verified(m, target, task, passed, note, redact).Err?
    ensures Verified(m, target, task, passed, note, redact).error ==
      if Blank(note) then NoReason
      else if forall i :: !Means(m, i, target, task) then NoSuchStep
      else NothingToReview
  {
    MeantIsFound(m, target, task);
    var i := Find(m.outcomes, target, task);
    assert i < |m.outcomes| ==> Means(m, i, target, task);
  }

  /** Pausing interrupts what runs, and only that. */
  lemma PauseExactly(m: Plan)
    ensures var n := Paused(m);
      && n.paused && n == m.(paused := true, outcomes := n.outcomes) && |n.outcomes| == |m.outcomes|
      && forall i :: 0 <= i < |m.outcomes| ==>
           && n.outcomes[i].(status := m.outcomes[i].status) == m.outcomes[i]
           && n.outcomes[i].status == if m.outcomes[i].status == Running then Interrupted else m.outcomes[i].status
  {
  }

  lemma ReleaseExactly(m: Plan)
    ensures Released(m) ==
      if forall i :: 0 <= i < |m.outcomes| && m.outcomes[i].target == m.pilot ==> m.outcomes[i].status == Passed
      then Ok(m.(rollout := true)) else Err(PilotUnfinished)
  {
  }

  // ---- A new mission

  ghost predicate TextsOk(t: Task) {
    && !Blank(t.title) && !Blank(t.expectation)
    && |t.title| <= 4096 && |t.expectation| <= 8192 && |t.recovery| <= 8192 && |t.command| <= 8192
    && (t.kind == SshCommand ==> !Blank(t.command) && !Blank(t.recovery))
  }

  /** What a new mission must be made of. */
  ghost predicate Makeable(objective: string, targets: seq<Target>, tasks: seq<Task>) {
    && !Blank(objective) && |objective| <= 4096 && 1 <= |targets| <= 256 && 1 <= |tasks| <= 64
    && (forall i, j :: 0 <= i < j < |targets| ==> targets[i].profile != targets[j].profile)
    && (forall i :: 0 <= i < |targets| ==> !Blank(targets[i].endpoint.host) && targets[i].endpoint.port != 0)
    && (forall i :: 0 <= i < |tasks| ==> TextsOk(tasks[i]))
  }

  lemma MakeableExactly(objective: string, targets: seq<Target>, tasks: seq<Task>)
    ensures Objection(objective, targets, tasks).None? <==> Makeable(objective, targets, tasks)
  {
  }

  lemma CreateExactly(objective: string, targets: seq<Target>, tasks: seq<Task>, redact: string -> string)
    ensures Created(objective, targets, tasks, redact).Ok? <==> Makeable(objective, targets, tasks)
    ensures Created(objective, targets, tasks, redact).Ok? ==>
      var m := Created(objective, targets, tasks, redact).value;
      && m.objective == redact(objective) && m.targets == targets && m.tasks == tasks && m.evidence == []
      && m.pilot == targets[0].profile && !m.rollout && !m.paused && m.handoff == ""
      && m.outcomes == Fresh(targets, |tasks|)
  {
    MakeableExactly(objective, targets, tasks);
  }

  /** Its outcomes are every step of every target, pending, target by target and step by step. */
  lemma {:induction false} FreshExactly(targets: seq<Target>, count: nat, t: nat, k: nat)
    requires t < |targets| && k < count
    ensures |Fresh(targets, count)| == |targets| * count && 0 <= t * count + k < |Fresh(targets, count)|
    ensures Fresh(targets, count)[t * count + k] == Outcome(targets[t].profile, k, Pending, [], "")
  {
    FreshCount(targets, count);
    FreshCount(targets[..|targets| - 1], count);
    RowsInside(|targets|, count, t, k);
    if t < |targets| - 1 {
      FreshExactly(targets[..|targets| - 1], count, t, k);
    } else {
      assert t * count + k == |Fresh(targets[..|targets| - 1], count)| + k;
    }
  }

  lemma {:induction false} FreshCount(targets: seq<Target>, count: nat)
    ensures |Fresh(targets, count)| == |targets| * count
  {
    if targets != [] {
      FreshCount(targets[..|targets| - 1], count);
      assert |targets| * count == (|targets| - 1) * count + count;
    }
  }

  lemma RowsInside(n: nat, count: nat, t: nat, k: nat)
    requires t < n && k < count
    ensures 0 <= t * count + k < n * count
  {
    assert (t + 1) * count <= n * count;
    assert (t + 1) * count == t * count + count;
  }

  lemma CreateRefusals(objective: string, targets: seq<Target>, tasks: seq<Task>, redact: string -> string)
    requires Created(objective, targets, tasks, redact).Err?
    ensures Created(objective, targets, tasks, redact).error ==
      if Blank(objective) || |objective| > 4096 then BadObjective
      else if |targets| < 1 || |targets| > 256 || |tasks| < 1 || |tasks| > 64 then BadCounts
      else if exists i, j :: 0 <= i < j < |targets| && targets[i].profile == targets[j].profile then TargetTwice
      else if (forall i :: 0 <= i < |targets| ==> !Blank(targets[i].endpoint.host) && targets[i].endpoint.port != 0)
              && (forall i :: 0 <= i < |tasks| ==> !Blank(tasks[i].title) && !Blank(tasks[i].expectation)) then TooLong
      else MissingText
  {
  }

  // ---- The check of a stored mission

  /** Each step of each target has one outcome, and there is no other. */
  ghost predicate OneEach(m: Plan) {
    && (forall i :: 0 <= i < |m.outcomes| ==> m.outcomes[i].task < |m.tasks|)
    && (forall i :: 0 <= i < |m.outcomes| ==>
          exists t :: 0 <= t < |m.targets| && m.targets[t].profile == m.outcomes[i].target)
    && (forall i, j :: 0 <= i < j < |m.outcomes| ==>
          m.outcomes[i].target != m.outcomes[j].target || m.outcomes[i].task != m.outcomes[j].task)
    && (forall t, k :: 0 <= t < |m.targets| && 0 <= k < |m.tasks| ==> HasStep(m, m.targets[t].profile, k))
  }

  ghost predicate HasStep(m: Plan, target: Id, task: nat) {
    exists i :: 0 <= i < |m.outcomes| && IsStep(m.outcomes[i], target, task)
  }

  /**
   * What is confirmed or under review has evidence, what is confirmed has a reason, and all evidence is of that
   * computer.
   */
  ghost predicate Evidenced(m: Plan, o: Outcome) {
    && (o.status == Passed || o.status == Review ==> |o.evidence| >= 1)
    && (o.status == Passed ==> !Blank(o.verification))
    && forall x :: x in o.evidence ==>
         exists e :: e in m.evidence && e.id == x && e.target.profile == o.target
  }

  /** An observation is of a target of the mission, at its endpoint, and says something. */
  ghost predicate Observed(m: Plan, e: Evidence) {
    && (exists t :: t in m.targets && t.profile == e.target.profile && t.endpoint == e.target.endpoint)
    && (e.facts.Keys != {} || !Blank(e.notes))
  }

  lemma OutcomeOkExactly(m: Plan, o: Outcome)
    ensures OutcomeOk(m.evidence, o) <==> Evidenced(m, o)
  {
    if OutcomeOk(m.evidence, o) {
      forall x | x in o.evidence
        ensures exists e :: e in m.evidence && e.id == x && e.target.profile == o.target
      {
        assert BelongsTo(m.evidence, x, o.target);
      }
    }
    if Evidenced(m, o) {
      forall i | 0 <= i < |o.evidence|
        ensures BelongsTo(m.evidence, o.evidence[i], o.target)
      {
        assert o.evidence[i] in o.evidence;
        var e :| e in m.evidence && e.id == o.evidence[i] && e.target.profile == o.target;
      }
    }
  }

  lemma EvidenceOkExactly(m: Plan, e: Evidence)
    ensures EvidenceOk(m.targets, e) <==> Observed(m, e)
  {
    assert e.facts == map[] <==> e.facts.Keys == {};
    if Observed(m, e) {
      var t :| t in m.targets && t.profile == e.target.profile && t.endpoint == e.target.endpoint;
      var i :| 0 <= i < |m.targets| && m.targets[i] == t;
      assert SameEndpoint(m.targets[i], e.target);
    }
  }

  lemma OneEachHasAllKeys(m: Plan)
    requires Distinct(m.targets) && OneEach(m)
    ensures Unique(Keys(m.outcomes)) && Elements(Keys(m.outcomes)) == Elements(Keys(Fresh(m.targets, |m.tasks|)))
  {
    var keys, all := Keys(m.outcomes), Keys(Fresh(m.targets, |m.tasks|));
    FreshKeys(m.targets, |m.tasks|);
    forall i, j | 0 <= i < j < |keys| ensures keys[i] != keys[j] {}
    forall i | 0 <= i < |keys|
      ensures keys[i] in Elements(all)
    {
      var t :| 0 <= t < |m.targets| && m.targets[t].profile == m.outcomes[i].target;
      assert (m.targets[t].profile, m.outcomes[i].task) in Keys(Fresh(m.targets, |m.tasks|));
    }
    forall i | 0 <= i < |all|
      ensures all[i] in Elements(keys)
    {
      var t :| 0 <= t < |m.targets| && m.targets[t].profile == all[i].0;
      assert HasStep(m, m.targets[t].profile, all[i].1);
      var j :| 0 <= j < |m.outcomes| && IsStep(m.outcomes[j], all[i].0, all[i].1);
      assert keys[j] == all[i];
    }
  }

  /**
   * Counting keys is exact: the structure is sound exactly for makeable parts, a pilot among the targets, and one
   * outcome each.
   */
  lemma StructureExactly(m: Plan)
    ensures StructureOk(m.objective, m.targets, m.tasks, m.pilot, Keys(m.outcomes)) <==>
      && Makeable(m.objective, m.targets, m.tasks) && OneEach(m)
      && exists t :: 0 <= t < |m.targets| && m.targets[t].profile == m.pilot
  {
    var keys, all := Keys(m.outcomes), Keys(Fresh(m.targets, |m.tasks|));
    MakeableExactly(m.objective, m.targets, m.tasks);
    if StructureOk(m.objective, m.targets, m.tasks, m.pilot, keys) {
      SoundHasOneEach(m);
    }
    if Makeable(m.objective, m.targets, m.tasks) && OneEach(m) {
      OneEachHasAllKeys(m);
      FreshKeys(m.targets, |m.tasks|);
      CountUnique(all);
      CountUnique(keys);
    }
  }

  lemma SoundHasOneEach(m: Plan)
    requires StructureOk(m.objective, m.targets, m.tasks, m.pilot, Keys(m.outcomes))
    ensures OneEach(m)
  {
    var keys, all := Keys(m.outcomes), Keys(Fresh(m.targets, |m.tasks|));
    StructureMeans(m.objective, m.targets, m.tasks, m.pilot, keys);
    FreshKeys(m.targets, |m.tasks|);
    forall i | 0 <= i < |m.outcomes|
      ensures m.outcomes[i].task < |m.tasks|
      ensures exists t :: 0 <= t < |m.targets| && m.targets[t].profile == m.outcomes[i].target
    {
      assert keys[i] == (m.outcomes[i].target, m.outcomes[i].task);
    }
    forall i, j | 0 <= i < j < |m.outcomes|
      ensures m.outcomes[i].target != m.outcomes[j].target || m.outcomes[i].task != m.outcomes[j].task
    {
      assert keys[i] != keys[j];
    }
    forall t, k | 0 <= t < |m.targets| && 0 <= k < |m.tasks|
      ensures HasStep(m, m.targets[t].profile, k)
    {
      assert (m.targets[t].profile, k) in all;
      assert (m.targets[t].profile, k) in Elements(all) && (m.targets[t].profile, k) in Elements(keys);
      var i :| 0 <= i < |keys| && keys[i] == (m.targets[t].profile, k);
      assert IsStep(m.outcomes[i], m.targets[t].profile, k);
    }
  }

  /** The check accepts exactly the missions that could have come to be. */
  lemma ValidExactly(m: Plan)
    ensures Valid(m) <==>
      && Makeable(m.objective, m.targets, m.tasks) && OneEach(m)
      && (exists t :: 0 <= t < |m.targets| && m.targets[t].profile == m.pilot)
      && (forall i, j :: 0 <= i < j < |m.evidence| ==> m.evidence[i].id != m.evidence[j].id) && |m.evidence| <= 16384
      && (forall i :: 0 <= i < |m.outcomes| ==> Evidenced(m, m.outcomes[i]))
      && (forall i :: 0 <= i < |m.evidence| ==> Observed(m, m.evidence[i]))
  {
    StructureExactly(m);
    forall i | 0 <= i < |m.outcomes| ensures OutcomeOk(m.evidence, m.outcomes[i]) <==> Evidenced(m, m.outcomes[i]) {
      OutcomeOkExactly(m, m.outcomes[i]);
    }
    forall i | 0 <= i < |m.evidence| ensures EvidenceOk(m.targets, m.evidence[i]) <==> Observed(m, m.evidence[i]) {
      EvidenceOkExactly(m, m.evidence[i]);
    }
    CountUnique(Ids(m.evidence));
    assert Unique(Ids(m.evidence)) <==>
      forall i, j :: 0 <= i < j < |m.evidence| ==> m.evidence[i].id != m.evidence[j].id by {
      assert forall i :: 0 <= i < |m.evidence| ==> Ids(m.evidence)[i] == m.evidence[i].id;
    }
  }

  /** A mission left with a running step comes back paused and interrupted; any other comes back as it was. */
  lemma ReloadExactly(m: Plan)
    ensures (forall i :: 0 <= i < |m.outcomes| ==> m.outcomes[i].status != Running) ==> Reloaded(m) == m
    ensures (exists i :: 0 <= i < |m.outcomes| && m.outcomes[i].status == Running) ==> Reloaded(m) == Paused(m)
  {
  }

  // ---- Onto local profiles

  ghost predicate OnlyAt(profiles: seq<Target>, e: Endpoint, j: int) {
    && 0 <= j < |profiles| && profiles[j].endpoint == e
    && forall k :: 0 <= k < |profiles| && k != j ==> profiles[k].endpoint != e
  }

  /** Exactly one place in the list has this endpoint, and `p` is there. */
  ghost predicate OnlyLocal(profiles: seq<Target>, e: Endpoint, p: Target) {
    exists j :: OnlyAt(profiles, e, j) && profiles[j] == p
  }

  lemma {:induction false} NoMatches(profiles: seq<Target>, e: Endpoint)
    ensures Matches(profiles, e) == [] <==> forall k :: 0 <= k < |profiles| ==> profiles[k].endpoint != e
  {
    if profiles != [] {
      NoMatches(profiles[..|profiles| - 1], e);
    }
  }

  lemma {:induction false} OneMatch(profiles: seq<Target>, e: Endpoint, p: Target)
    ensures Matches(profiles, e) == [p] <==> OnlyLocal(profiles, e, p)
  {
    if profiles != [] {
      var rest, last := profiles[..|profiles| - 1], profiles[|profiles| - 1];
      var before := Matches(rest, e);
      OneMatch(rest, e, p);
      NoMatches(rest, e);
      if last.endpoint == e {
        LastMatch(profiles, e, p);
        assert |before + [last]| == |before| + 1;
        assert before == [] ==> before + [last] == [last];
      } else {
        EarlierMatch(profiles, e, p);
        assert before + [] == before;
      }
    }
  }

  lemma LastMatch(profiles: seq<Target>, e: Endpoint, p: Target)
    requires profiles != [] && profiles[|profiles| - 1].endpoint == e
    ensures OnlyLocal(profiles, e, p) <==>
      profiles[|profiles| - 1] == p && forall k :: 0 <= k < |profiles| - 1 ==> profiles[k].endpoint != e
  {
    var n := |profiles| - 1;
    if profiles[n] == p && forall k :: 0 <= k < n ==> profiles[k].endpoint != e {
      assert OnlyAt(profiles, e, n);
    }
  }

  lemma EarlierMatch(profiles: seq<Target>, e: Endpoint, p: Target)
    requires profiles != [] && profiles[|profiles| - 1].endpoint != e
    ensures OnlyLocal(profiles, e, p) <==> OnlyLocal(profiles[..|profiles| - 1], e, p)
  {
    var rest := profiles[..|profiles| - 1];
    if j :| OnlyAt(profiles, e, j) && profiles[j] == p {
      OnlyEarlier(profiles, e, j);
    }
    if j :| OnlyAt(rest, e, j) && rest[j] == p {
      OnlyEarlier(profiles, e, j);
    }
  }

  lemma OnlyEarlier(profiles: seq<Target>, e: Endpoint, j: int)
    requires profiles != [] && profiles[|profiles| - 1].endpoint != e
    ensures var rest := profiles[..|profiles| - 1];
      && (OnlyAt(profiles, e, j) <==> OnlyAt(rest, e, j))
      && (0 <= j < |rest| ==> rest[j] == profiles[j])
  {
  }

  /** Every target has one local profile of its endpoint, and no two the same. */
  ghost predicate Assigns(profiles: seq<Target>, targets: seq<Target>, locals: seq<Target>) {
    && |locals| == |targets|
    && (forall i :: 0 <= i < |targets| ==> OnlyLocal(profiles, targets[i].endpoint, locals[i]))
    && forall i, j :: 0 <= i < j < |locals| ==> locals[i].profile != locals[j].profile
  }

  lemma TakenExactly(targets: seq<Target>, profiles: seq<Target>, x: Id)
    ensures Taken(targets, profiles, x) <==>
      exists i, p :: 0 <= i < |targets| && OnlyLocal(profiles, targets[i].endpoint, p) && p.profile == x
  {
    if i :| 0 <= i < |targets| && FoundOnly(profiles, targets[i].endpoint, x) {
      var found := Matches(profiles, targets[i].endpoint);
      assert found == [found[0]];
      OneMatch(profiles, targets[i].endpoint, found[0]);
    }
    if i, p :| 0 <= i < |targets| && OnlyLocal(profiles, targets[i].endpoint, p) && p.profile == x {
      OneMatch(profiles, targets[i].endpoint, p);
      assert FoundOnly(profiles, targets[i].endpoint, x);
    }
  }

  lemma AssignsOneMore(profiles: seq<Target>, targets: seq<Target>, locals: seq<Target>, t: Target, p: Target)
    requires Assigns(profiles, targets, locals) && OnlyLocal(profiles, t.endpoint, p)
    requires !Taken(targets, profiles, p.profile)
    ensures Assigns(profiles, targets + [t], locals + [p])
  {
    TakenExactly(targets, profiles, p.profile);
    forall i | 0 <= i < |locals|
      ensures locals[i].profile != p.profile
    {
      assert OnlyLocal(profiles, targets[i].endpoint, locals[i]);
    }
  }

  lemma LastIsMapped(targets: seq<Target>, profiles: seq<Target>) returns (p: Target)
    requires targets != [] && Mapping(targets, profiles).Ok?
    ensures Mapping(targets[..|targets| - 1], profiles).Ok?
    ensures OnlyLocal(profiles, targets[|targets| - 1].endpoint, p)
    ensures !Taken(targets[..|targets| - 1], profiles, p.profile)
  {
    var found := Matches(profiles, targets[|targets| - 1].endpoint);
    p := found[0];
    assert found == [p];
    OneMatch(profiles, targets[|targets| - 1].endpoint, p);
  }

  lemma {:induction false} MappingAssigns(targets: seq<Target>, profiles: seq<Target>) returns (locals: seq<Target>)
    requires Mapping(targets, profiles).Ok?
    ensures Assigns(profiles, targets, locals)
  {
    locals := [];
    if targets != [] {
      var rest, t := targets[..|targets| - 1], targets[|targets| - 1];
      var p := LastIsMapped(targets, profiles);
      var before := MappingAssigns(rest, profiles);
      AssignsOneMore(profiles, rest, before, t, p);
      assert targets == rest + [t];
      locals := before + [p];
    }
  }

  lemma OnlyOneLocal(profiles: seq<Target>, e: Endpoint, p: Target, q: Target)
    requires OnlyLocal(profiles, e, p) && OnlyLocal(profiles, e, q)
    ensures p == q
  {
  }

  /** The mapping gives every target its local profile. */
  lemma {:induction false} MappedIsAssigned(targets: seq<Target>, profiles: seq<Target>, locals: seq<Target>, i: nat)
    requires Distinct(targets) && Mapping(targets, profiles).Ok? && Assigns(profiles, targets, locals) && i < |targets|
    ensures targets[i].profile in Mapping(targets, profiles).value
    ensures Mapping(targets, profiles).value[targets[i].profile] == locals[i]
    decreases |targets|
  {
    var n := |targets| - 1;
    var rest, t := targets[..n], targets[n];
    if i == n {
      var found := Matches(profiles, t.endpoint);
      assert found == [found[0]];
      OneMatch(profiles, t.endpoint, found[0]);
      OnlyOneLocal(profiles, t.endpoint, found[0], locals[n]);
    } else {
      AssignsFront(profiles, targets, locals);
      MappedIsAssigned(rest, profiles, locals[..n], i);
      assert targets[i].profile != t.profile;
    }
  }

  lemma AssignsFront(profiles: seq<Target>, targets: seq<Target>, locals: seq<Target>)
    requires targets != [] && Assigns(profiles, targets, locals)
    ensures Assigns(profiles, targets[..|targets| - 1], locals[..|targets| - 1])
    ensures !Taken(targets[..|targets| - 1], profiles, locals[|targets| - 1].profile)
  {
    var n := |targets| - 1;
    var rest := targets[..n];
    TakenExactly(rest, profiles, locals[n].profile);
    forall i, p | 0 <= i < |rest| && OnlyLocal(profiles, rest[i].endpoint, p)
      ensures p.profile != locals[n].profile
    {
      OnlyOneLocal(profiles, targets[i].endpoint, p, locals[i]);
    }
  }

  lemma {:induction false} AssignedIsMapped(targets: seq<Target>, profiles: seq<Target>, locals: seq<Target>)
    requires Assigns(profiles, targets, locals)
    ensures Mapping(targets, profiles).Ok?
  {
    if targets != [] {
      var n := |targets| - 1;
      AssignsFront(profiles, targets, locals);
      AssignedIsMapped(targets[..n], profiles, locals[..n]);
      OneMatch(profiles, targets[n].endpoint, locals[n]);
    }
  }

  /** Whatever named a target names its local profile now, and nothing else changes. */
  ghost predicate Follows(m: Plan, n: Plan) {
    && n == m.(outcomes := n.outcomes, evidence := n.evidence, pilot := n.pilot, targets := n.targets)
    && |n.targets| == |m.targets| && |n.outcomes| == |m.outcomes| && |n.evidence| == |m.evidence|
    && (forall t :: 0 <= t < |m.targets| && m.targets[t].profile == m.pilot ==> n.pilot == n.targets[t].profile)
    && (forall i, t :: 0 <= i < |m.outcomes| && 0 <= t < |m.targets| && m.targets[t].profile == m.outcomes[i].target ==>
          n.outcomes[i] == m.outcomes[i].(target := n.targets[t].profile))
    && (forall i, t :: 0 <= i < |m.evidence| && 0 <= t < |m.targets|
                       && m.targets[t].profile == m.evidence[i].target.profile ==>
          n.evidence[i] == m.evidence[i].(target := n.targets[t]))
  }

  /** A paused mission is mapped exactly if every target has one local profile of its endpoint and no two share one. */
  lemma MapExactly(m: Plan, profiles: seq<Target>)
    requires Shaped(m)
    ensures MappedLocally(m, profiles).Ok? <==> m.paused && exists locals :: Assigns(profiles, m.targets, locals)
    ensures MappedLocally(m, profiles).Ok? ==>
      var n := MappedLocally(m, profiles).value; Assigns(profiles, m.targets, n.targets) && Follows(m, n)
    ensures !m.paused ==> MappedLocally(m, profiles) == Err(NotPaused)
  {
    if Mapping(m.targets, profiles).Ok? {
      var locals := MappingAssigns(m.targets, profiles);
      forall i | 0 <= i < |m.targets|
        ensures m.targets[i].profile in Mapping(m.targets, profiles).value
        ensures Mapping(m.targets, profiles).value[m.targets[i].profile] == locals[i]
      {
        MappedIsAssigned(m.targets, profiles, locals, i);
      }
      if m.paused {
        assert MappedLocally(m, profiles).value.targets == locals;
      }
    }
    if locals :| Assigns(profiles, m.targets, locals) {
      AssignedIsMapped(m.targets, profiles, locals);
    }
  }

  // ---- Import

  /**
   * What is stored of an imported mission: its own text and findings redacted, under new ids, with nothing running or
   * released.
   */
  lemma ImportExactly(m: Plan, ids: seq<Id>, redact: string -> string)
    requires |ids| == |m.evidence|
    ensures Imported(m, ids, redact).Ok? <==> Valid(m)
    ensures Imported(m, ids, redact).Ok? ==>
      var n := Imported(m, ids, redact).value;
      && n == m.(paused := true, rollout := false, objective := redact(m.objective), handoff := redact(m.handoff),
                 outcomes := n.outcomes, evidence := n.evidence)
      && |n.outcomes| == |m.outcomes| && |n.evidence| == |m.evidence|
      && (forall i :: 0 <= i < |m.outcomes| ==>
            && n.outcomes[i] == m.outcomes[i].(status := n.outcomes[i].status, evidence := n.outcomes[i].evidence)
            && n.outcomes[i].status == if m.outcomes[i].status == Running then Interrupted else m.outcomes[i].status)
    ensures Imported(m, ids, redact).Ok? ==>
      var n := Imported(m, ids, redact).value;
      forall i :: 0 <= i < |m.evidence| ==>
        && n.evidence[i] ==
             m.evidence[i].(id := ids[i], notes := redact(m.evidence[i].notes), facts := n.evidence[i].facts)
        && n.evidence[i].facts.Keys == m.evidence[i].facts.Keys
        && forall k :: k in m.evidence[i].facts ==> n.evidence[i].facts[k] == redact(m.evidence[i].facts[k])
  {
  }

  // ---- What the release and the pause gate

  lemma RecordStartsNothing(m: Plan, n: Plan, target: Id, task: nat, e: Evidence, i: nat)
    requires i < |m.outcomes| && i < |n.outcomes| && Recorded(m, target, task, e) == Ok(n)
    ensures n.outcomes[i].status == Running ==> m.outcomes[i].status == Running
  {
  }

  lemma VerifyStartsNothing(m: Plan, n: Plan, target: Id, task: nat, passed: bool, note: string,
      redact: string -> string, i: nat)
    requires i < |m.outcomes| && i < |n.outcomes| && Verified(m, target, task, passed, note, redact) == Ok(n)
    ensures n.outcomes[i].status == Running ==> m.outcomes[i].status == Running
  {
  }

  lemma PauseStartsNothing(m: Plan, i: nat)
    requires i < |m.outcomes|
    ensures Paused(m).outcomes[i].status == Running ==> m.outcomes[i].status == Running
  {
  }

  /**
   * A step starts only by Begin, on a mission that is not paused, and on another computer than the pilot only released.
   */
  lemma StartsOnlyByBegin(m: Plan, op: Op, redact: string -> string, i: nat)
    requires Shaped(m) && i < |m.outcomes| && i < |StepOf(m, op, redact).outcomes|
    requires m.outcomes[i].status != Running && StepOf(m, op, redact).outcomes[i].status == Running
    ensures op == Begin(m.outcomes[i].target, m.outcomes[i].task) && !m.paused && MayGoOn(m, m.outcomes[i].target)
    ensures EarlierConfirmed(m, m.outcomes[i].target, m.outcomes[i].task)
  {
    if op.Begin? {
      BeginExactly(m, op.target, op.task);
    } else if StepOf(m, op, redact) != m {
      match op
      case Record(target, task, e) => RecordStartsNothing(m, StepOf(m, op, redact), target, task, e, i);
      case Verify(target, task, passed, note) =>
        VerifyStartsNothing(m, StepOf(m, op, redact), target, task, passed, note, redact, i);
      case MapLocally(profiles) => RenamedKeepsOthers(m, profiles, i);
      case _ => PauseStartsNothing(m, i);
    }
  }

  /** The rollout was released at step `j`, with the pilot confirmed. */
  ghost predicate ReleasedAt(m: Moment) {
    && m.op.Release?
    && forall i :: 0 <= i < |m.before.outcomes| && m.before.outcomes[i].target == m.before.pilot ==>
         m.before.outcomes[i].status == Passed
  }

  lemma RolloutStep(m: Plan, op: Op, redact: string -> string)
    requires Shaped(m)
    ensures StepOf(m, op, redact).rollout <==> m.rollout || (op.Release? && Released(m).Ok?)
  {
  }

  lemma {:induction false} RolloutWasReleased(trace: seq<Moment>, redact: string -> string, k: nat) returns (j: nat)
    requires Run(trace, redact) && k < |trace| && trace[k].after.rollout
    ensures j <= k && ReleasedAt(trace[j])
  {
    RolloutStep(trace[k].before, trace[k].op, redact);
    ReleaseExactly(trace[k].before);
    if trace[k].before.rollout {
      if k == 0 {
        NewIsUnreleased(trace[0].before, redact);
      }
      j := RolloutWasReleased(trace, redact, k - 1);
    } else {
      j := k;
    }
  }

  lemma NewIsUnreleased(m: Plan, redact: string -> string)
    requires StartsNew(m, redact)
    ensures !m.rollout && forall i :: 0 <= i < |m.outcomes| ==> m.outcomes[i].status == Pending
  {
    var objective, targets, tasks :| Created(objective, targets, tasks, redact) == Ok(m);
    FreshOutcomes(targets, |tasks|);
  }

  /** An outcome leaves Pending only by Begin; elsewhere its computer's relation to the pilot is kept. */
  lemma BegunIsGated(m: Plan, target: Id, task: nat, i: nat)
    requires Begun(m, target, task).Ok? && i < |m.outcomes|
    ensures var n := Begun(m, target, task).value;
      && n.pilot == m.pilot && |n.outcomes| == |m.outcomes| && n.outcomes[i].target == m.outcomes[i].target
      && (n.outcomes[i].status != m.outcomes[i].status ==> m.outcomes[i].target == target && MayGoOn(m, target))
  {
  }

  lemma RenamedKeepsOthers(m: Plan, profiles: seq<Target>, i: nat)
    requires Shaped(m) && MappedLocally(m, profiles).Ok? && i < |m.outcomes|
    ensures var n := MappedLocally(m, profiles).value;
      && |n.outcomes| == |m.outcomes| && n.outcomes[i].status == m.outcomes[i].status
      && (n.outcomes[i].target != n.pilot ==> m.outcomes[i].target != m.pilot)
  {
  }

  lemma LeavesPending(m: Plan, op: Op, redact: string -> string, i: nat)
    requires Shaped(m) && i < |m.outcomes|
    ensures var n := StepOf(m, op, redact);
      && |n.outcomes| == |m.outcomes|
      && (m.outcomes[i].status == Pending && n.outcomes[i].status != Pending ==>
            op.Begin? && op.target == m.outcomes[i].target && MayGoOn(m, op.target))
      && (n.outcomes[i].target != n.pilot ==> m.outcomes[i].target != m.pilot)
  {
    if StepOf(m, op, redact) != m {
      match op
      case Begin(target, task) => BegunIsGated(m, target, task, i);
      case MapLocally(profiles) => RenamedKeepsOthers(m, profiles, i);
      case Record(_, _, _) =>
      case Verify(_, _, _, _) =>
      case Pause =>
      case Resume =>
      case Release =>
      case Reload =>
    }
  }

  /**
   * Over any run: whatever was begun on another computer than the pilot was begun after an operator released the
   * rollout, with every step of the pilot confirmed.
   */
  lemma {:induction false} OthersWaitForRelease(trace: seq<Moment>, redact: string -> string, k: nat,
      i: nat) returns (j: nat)
    requires Run(trace, redact) && k < |trace| && i < |trace[k].after.outcomes|
    requires trace[k].after.outcomes[i].target != trace[k].after.pilot && trace[k].after.outcomes[i].status != Pending
    ensures j < k && ReleasedAt(trace[j])
  {
    RunKeepsProgress(trace, redact, k);
    var m := trace[k].before;
    LeavesPending(m, trace[k].op, redact, i);
    if k == 0 {
      NewIsUnreleased(m, redact);
    }
    if m.outcomes[i].status == Pending {
      j := RolloutWasReleased(trace, redact, k - 1);
    } else {
      j := OthersWaitForRelease(trace, redact, k - 1, i);
    }
  }
}
