/** A mission over many targets: its steps, its evidence, the check of a stored mission, and every operation on it. */
module Mission {
  import opened Characters
  import opened Outcomes

  type Id = nat

  const MAX_EVIDENCE := 16384

  datatype Endpoint = Endpoint(host: string, port: nat, protocol: string, username: string, domain: string,
    route: string)

  datatype Target = Target(profile: Id, name: string, endpoint: Endpoint)

  datatype StepKind = Observe | Operator | Inventory | Services | Processes | Events | SshCommand

  datatype Task = Task(title: string, kind: StepKind, expectation: string, recovery: string, command: string)

  datatype Status = Pending | Running | Review | Passed | Failed | Interrupted

  datatype Evidence = Evidence(id: Id, target: Target, facts: map<string, string>, notes: string)

  datatype Outcome = Outcome(target: Id, task: nat, status: Status, evidence: seq<Id>, verification: string)

  datatype Plan = Plan(
    objective: string, targets: seq<Target>, tasks: seq<Task>, outcomes: seq<Outcome>, evidence: seq<Evidence>,
    pilot: Id, rollout: bool, paused: bool, handoff: string)

  datatype Refusal =
    | BadObjective | BadCounts | TargetTwice | MissingText | TooLong
    | PilotUnfinished | IsPaused | NotReleased | EarlierOpen | NoSuchStep | AlreadyStarted
    | OtherComputer | NoSuchComputer | OtherEndpoint | NotRunning | EmptyFinding | NoReason | NothingToReview
    | NotPaused | NoUniqueProfile | SameProfile | Invalid

  // ---- A new mission

  predicate Distinct(targets: seq<Target>) {
    forall i, j :: 0 <= i < j < |targets| ==> targets[i].profile != targets[j].profile
  }

  predicate Usable(t: Task) {
    && |t.title| <= 4096 && |t.expectation| <= 8192 && |t.recovery| <= 8192 && |t.command| <= 8192
    && (t.kind == SshCommand ==> !Blank(t.command) && !Blank(t.recovery))
  }

  /** Why a new mission is refused, in the order the checks are made. */
  function Objection(objective: string, targets: seq<Target>, tasks: seq<Task>): Option<Refusal> {
    if Blank(objective) || |objective| > 4096 then Some(BadObjective)
    else if targets == [] || |targets| > 256 || tasks == [] || |tasks| > 64 then Some(BadCounts)
    else if !Distinct(targets) then Some(TargetTwice)
    else if (exists i :: 0 <= i < |targets| && (Blank(targets[i].endpoint.host) || targets[i].endpoint.port == 0))
            || (exists i :: 0 <= i < |tasks| && (Blank(tasks[i].title) || Blank(tasks[i].expectation)))
    then Some(MissingText)
    else if exists i :: 0 <= i < |tasks| && !Usable(tasks[i]) then Some(TooLong)
    else None
  }

  /** One pending outcome for every step of every target, target by target. */
  function Fresh(targets: seq<Target>, count: nat): seq<Outcome> {
    if targets == [] then []
    else Fresh(targets[..|targets| - 1], count)
         + seq(count, (k: nat) => Outcome(targets[|targets| - 1].profile, k, Pending, [], ""))
  }

  function Created(objective: string, targets: seq<Target>, tasks: seq<Task>,
      redact: string -> string): Result<Plan, Refusal> {
    var objection := Objection(objective, targets, tasks);
    if objection.Some? then Err(objection.value)
    else Ok(Plan(redact(objective), targets, tasks, Fresh(targets, |tasks|), [], targets[0].profile, false, false, ""))
  }

  // ---- Operations

  predicate PilotPassed(m: Plan) {
    forall i :: 0 <= i < |m.outcomes| && m.outcomes[i].target == m.pilot ==> m.outcomes[i].status == Passed
  }

  /** The first position of `x`, or the length. */
  function IndexOf<T(==)>(s: seq<T>, x: T): (i: nat)
    ensures i <= |s|
    ensures i < |s| ==> s[i] == x
    ensures forall k :: 0 <= k < i ==> s[k] != x
  {
    if s == [] || s[0] == x then 0 else 1 + IndexOf(s[1..], x)
  }

  /** The first outcome of this target and step, or the number of outcomes. */
  function Find(outcomes: seq<Outcome>, target: Id, task: nat): (i: nat)
    ensures i <= |outcomes|
    ensures i < |outcomes| ==> outcomes[i].target == target && outcomes[i].task == task
    ensures forall k :: 0 <= k < i ==> !(outcomes[k].target == target && outcomes[k].task == task)
  {
    var i := IndexOf(Keys(outcomes), (target, task));
    assert forall k :: 0 <= k < |outcomes| ==> Keys(outcomes)[k] == (outcomes[k].target, outcomes[k].task);
    i
  }

  function Begun(m: Plan, target: Id, task: nat): Result<Plan, Refusal> {
    var i := Find(m.outcomes, target, task);
    if m.paused then Err(IsPaused)
    else if target != m.pilot && (!m.rollout || !PilotPassed(m)) then Err(NotReleased)
    else if exists k :: 0 <= k < |m.outcomes| && m.outcomes[k].target == target && m.outcomes[k].task < task
                        && m.outcomes[k].status != Passed
    then Err(EarlierOpen)
    else if i == |m.outcomes| then Err(NoSuchStep)
    else if m.outcomes[i].status in {Running, Passed, Review} then Err(AlreadyStarted)
    else Ok(m.(outcomes := m.outcomes[i := m.outcomes[i].(status := Running, evidence := [], verification := "")]))
  }

  function FindTarget(targets: seq<Target>, profile: Id): (i: nat)
    ensures i <= |targets|
    ensures i < |targets| ==> targets[i].profile == profile
    ensures forall k :: 0 <= k < i ==> targets[k].profile != profile
  {
    var profiles := seq(|targets|, i requires 0 <= i < |targets| => targets[i].profile);
    assert forall k :: 0 <= k < |targets| ==> profiles[k] == targets[k].profile;
    IndexOf(profiles, profile)
  }

  /** The display name is no part of the identity. */
  predicate SameEndpoint(t: Target, u: Target) { t.profile == u.profile && t.endpoint == u.endpoint }

  predicate Empty(e: Evidence) { e.facts == map[] && Blank(e.notes) }

  function Recorded(m: Plan, target: Id, task: nat, e: Evidence): Result<Plan, Refusal> {
    var t := FindTarget(m.targets, target);
    var i := Find(m.outcomes, target, task);
    if e.target.profile != target then Err(OtherComputer)
    else if t == |m.targets| then Err(NoSuchComputer)
    else if !SameEndpoint(m.targets[t], e.target) then Err(OtherEndpoint)
    else if i == |m.outcomes| then Err(NoSuchStep)
    else if m.outcomes[i].status != Running then Err(NotRunning)
    else if Empty(e) then Err(EmptyFinding)
    else
      var o := m.outcomes[i].(status := Review, evidence := m.outcomes[i].evidence + [e.id]);
      Ok(m.(outcomes := m.outcomes[i := o], evidence := m.evidence + [e]))
  }

  function Verified(m: Plan, target: Id, task: nat, passed: bool, note: string,
      redact: string -> string): Result<Plan, Refusal> {
    var i := Find(m.outcomes, target, task);
    if Blank(note) then Err(NoReason)
    else if i == |m.outcomes| then Err(NoSuchStep)
    else if m.outcomes[i].status != Review || m.outcomes[i].evidence == [] then Err(NothingToReview)
    else
      var o := m.outcomes[i].(status := if passed then Passed else Failed, verification := redact(note));
      Ok(m.(outcomes := m.outcomes[i := o]))
  }

  function Stopped(o: Outcome): Outcome { if o.status == Running then o.(status := Interrupted) else o }

  function Paused(m: Plan): Plan {
    m.(paused := true, outcomes := seq(|m.outcomes|, i requires 0 <= i < |m.outcomes| => Stopped(m.outcomes[i])))
  }

  function Released(m: Plan): Result<Plan, Refusal> {
    if PilotPassed(m) then Ok(m.(rollout := true)) else Err(PilotUnfinished)
  }

  // ---- Mapping onto this computer's profiles

  /** The profiles with this endpoint. */
  function Matches(profiles: seq<Target>, e: Endpoint): (i: seq<Target>)
    ensures forall k :: 0 <= k < |i| ==> i[k] in profiles && i[k].endpoint == e
  {
    if profiles == [] then []
    else
      var last := profiles[|profiles| - 1];
      Matches(profiles[..|profiles| - 1], e) + if last.endpoint == e then [last] else []
  }

  /** A target found this profile, and no other. */
  predicate Taken(targets: seq<Target>, profiles: seq<Target>, x: Id) {
    exists i :: 0 <= i < |targets| && FoundOnly(profiles, targets[i].endpoint, x)
  }

  predicate FoundOnly(profiles: seq<Target>, e: Endpoint, x: Id) {
    var found := Matches(profiles, e);
    |found| == 1 && found[0].profile == x
  }

  /** The one local profile of every target, each profile once; or the first target that has none of its own. */
  function Mapping(targets: seq<Target>, profiles: seq<Target>): (r: Result<map<Id, Target>, Refusal>)
    ensures r.Ok? ==> forall k :: k in r.value ==> exists i :: 0 <= i < |targets| && targets[i].profile == k
  {
    if targets == [] then Ok(map[])
    else
      var rest, t := targets[..|targets| - 1], targets[|targets| - 1];
      var before := Mapping(rest, profiles);
      if before.Err? then before
      else
        var found := Matches(profiles, t.endpoint);
        if |found| != 1 then Err(NoUniqueProfile)
        else if Taken(rest, profiles, found[0].profile) then Err(SameProfile)
        else Ok(before.value[t.profile := found[0]])
  }

  /** Every id that the mapping looks up belongs to a target of the mission. */
  ghost predicate Shaped(m: Plan) {
    && Distinct(m.targets) && FindTarget(m.targets, m.pilot) < |m.targets|
    && (forall i :: 0 <= i < |m.outcomes| ==> FindTarget(m.targets, m.outcomes[i].target) < |m.targets|)
    && (forall i :: 0 <= i < |m.evidence| ==> FindTarget(m.targets, m.evidence[i].target.profile) < |m.targets|)
  }

  ghost predicate Covers(mapped: map<Id, Target>, m: Plan) {
    && m.pilot in mapped
    && (forall i :: 0 <= i < |m.targets| ==> m.targets[i].profile in mapped)
    && (forall i :: 0 <= i < |m.outcomes| ==> m.outcomes[i].target in mapped)
    && (forall i :: 0 <= i < |m.evidence| ==> m.evidence[i].target.profile in mapped)
  }

  function Renamed(m: Plan, mapped: map<Id, Target>): Plan
    requires Covers(mapped, m)
  {
    m.(outcomes := seq(|m.outcomes|, i requires 0 <= i < |m.outcomes| =>
                         m.outcomes[i].(target := mapped[m.outcomes[i].target].profile)),
       evidence := seq(|m.evidence|, i requires 0 <= i < |m.evidence| =>
                         m.evidence[i].(target := mapped[m.evidence[i].target.profile])),
       pilot := mapped[m.pilot].profile,
       targets := seq(|m.targets|, i requires 0 <= i < |m.targets| => mapped[m.targets[i].profile]))
  }

  function MappedLocally(m: Plan, profiles: seq<Target>): Result<Plan, Refusal>
    requires Shaped(m)
  {
    if !m.paused then Err(NotPaused)
    else
      var mapping := Mapping(m.targets, profiles);
      if mapping.Err? then Err(mapping.error)
      else
        MappingCovers(m, profiles);
        Ok(Renamed(m, mapping.value))
  }

  lemma {:induction false} MappingDefined(targets: seq<Target>, profiles: seq<Target>, k: nat)
    requires Mapping(targets, profiles).Ok? && k < |targets|
    ensures targets[k].profile in Mapping(targets, profiles).value
  {
    if k < |targets| - 1 {
      MappingDefined(targets[..|targets| - 1], profiles, k);
    }
  }

  /** Every lookup of the renaming is defined. */
  lemma MappingCovers(m: Plan, profiles: seq<Target>)
    requires Shaped(m) && Mapping(m.targets, profiles).Ok?
    ensures Covers(Mapping(m.targets, profiles).value, m)
  {
    forall i | 0 <= i < |m.targets| ensures m.targets[i].profile in Mapping(m.targets, profiles).value {
      MappingDefined(m.targets, profiles, i);
    }
  }

  // ---- The check of a stored mission

  function Elements<T>(s: seq<T>): set<T> { set i | 0 <= i < |s| :: s[i] }

  function Keys(outcomes: seq<Outcome>): seq<(Id, nat)> {
    seq(|outcomes|, i requires 0 <= i < |outcomes| => (outcomes[i].target, outcomes[i].task))
  }

  function Ids(evidence: seq<Evidence>): seq<Id> {
    seq(|evidence|, i requires 0 <= i < |evidence| => evidence[i].id)
  }

  predicate BelongsTo(evidence: seq<Evidence>, id: Id, target: Id) {
    exists i :: 0 <= i < |evidence| && evidence[i].id == id && evidence[i].target.profile == target
  }

  predicate OutcomeOk(evidence: seq<Evidence>, o: Outcome) {
    && (o.status in {Passed, Review} ==> o.evidence != [])
    && (o.status == Passed ==> !Blank(o.verification))
    && (forall i :: 0 <= i < |o.evidence| ==> BelongsTo(evidence, o.evidence[i], o.target))
  }

  predicate EvidenceOk(targets: seq<Target>, e: Evidence) {
    (exists i :: 0 <= i < |targets| && SameEndpoint(targets[i], e.target)) && !Empty(e)
  }

  /** Exactly one outcome for every step of every target. */
  predicate StructureOk(objective: string, targets: seq<Target>, tasks: seq<Task>, pilot: Id, keys: seq<(Id, nat)>) {
    && Objection(objective, targets, tasks).None?
    && (exists i :: 0 <= i < |targets| && targets[i].profile == pilot)
    && |keys| == |Fresh(targets, |tasks|)| && |Elements(keys)| == |keys|
    && Elements(Keys(Fresh(targets, |tasks|))) <= Elements(keys)
  }

  predicate Valid(m: Plan) {
    && StructureOk(m.objective, m.targets, m.tasks, m.pilot, Keys(m.outcomes))
    && |Elements(Ids(m.evidence))| == |m.evidence| && |m.evidence| <= MAX_EVIDENCE
    && (forall i :: 0 <= i < |m.outcomes| ==> OutcomeOk(m.evidence, m.outcomes[i]))
    && (forall i :: 0 <= i < |m.evidence| ==> EvidenceOk(m.targets, m.evidence[i]))
  }

  // ---- Import

  function RedactedFacts(facts: map<string, string>, redact: string -> string): map<string, string> {
    map k | k in facts :: redact(facts[k])
  }

  function PositionOf(evidence: seq<Evidence>, id: Id): (i: nat)
    ensures i <= |evidence|
    ensures i < |evidence| ==> evidence[i].id == id
    ensures forall k :: 0 <= k < i ==> evidence[k].id != id
  {
    assert forall k :: 0 <= k < |evidence| ==> Ids(evidence)[k] == evidence[k].id;
    IndexOf(Ids(evidence), id)
  }

  /** The `i`th piece of evidence gets the `i`th new id. */
  function Reissued(m: Plan, o: Outcome, ids: seq<Id>): Outcome
    requires |ids| == |m.evidence| && OutcomeOk(m.evidence, o)
  {
    Stopped(o.(evidence := seq(|o.evidence|, i requires 0 <= i < |o.evidence| =>
                                 assert BelongsTo(m.evidence, o.evidence[i], o.target);
                                 ids[PositionOf(m.evidence, o.evidence[i])])))
  }

  function ReissuedAll(m: Plan, ids: seq<Id>): seq<Outcome>
    requires |ids| == |m.evidence| && Valid(m)
  {
    seq(|m.outcomes|, i requires 0 <= i < |m.outcomes| => Reissued(m, m.outcomes[i], ids))
  }

  function Redacted(e: Evidence, id: Id, redact: string -> string): Evidence {
    e.(id := id, notes := redact(e.notes), facts := RedactedFacts(e.facts, redact))
  }

  function RedactedAll(m: Plan, ids: seq<Id>, redact: string -> string): seq<Evidence>
    requires |ids| == |m.evidence|
  {
    seq(|m.evidence|, i requires 0 <= i < |m.evidence| => Redacted(m.evidence[i], ids[i], redact))
  }

  /** The imported mission is history: paused, not released, with new evidence ids and its text redacted again. */
  function Imported(m: Plan, ids: seq<Id>, redact: string -> string): Result<Plan, Refusal>
    requires |ids| == |m.evidence|
  {
    if !Valid(m) then Err(Invalid)
    else
      Ok(m.(paused := true, rollout := false, objective := redact(m.objective), handoff := redact(m.handoff),
            outcomes := ReissuedAll(m, ids), evidence := RedactedAll(m, ids, redact)))
  }
}
