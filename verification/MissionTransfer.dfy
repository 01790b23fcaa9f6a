/** Moving a mission: onto this computer's profiles, and in from a handoff. Nothing it recorded is lost on the way. */
module MissionTransfer {
  import opened Characters
  import opened Redaction
  import opened Mission
  import opened MissionValid

  // ---- Onto local profiles

  ghost predicate Injective(mapped: map<Id, Target>) {
    forall k, l :: k in mapped && l in mapped && mapped[k].profile == mapped[l].profile ==> k == l
  }

  lemma {:induction false} MappingInjective(targets: seq<Target>, profiles: seq<Target>)
    requires Mapping(targets, profiles).Ok?
    ensures Injective(Mapping(targets, profiles).value)
  {
    if targets != [] {
      var rest, t := targets[..|targets| - 1], targets[|targets| - 1];
      var before := Mapping(rest, profiles).value;
      MappingInjective(rest, profiles);
      forall k | k in before
        ensures Taken(rest, profiles, before[k].profile)
      {
        MappedIsTaken(rest, profiles, k);
      }
      assert forall k :: k in before ==> before[k].profile != Matches(profiles, t.endpoint)[0].profile;
    }
  }

  lemma {:induction false} MappedIsTaken(targets: seq<Target>, profiles: seq<Target>, k: Id)
    requires Mapping(targets, profiles).Ok? && k in Mapping(targets, profiles).value
    ensures Taken(targets, profiles, Mapping(targets, profiles).value[k].profile)
  {
    var rest, t := targets[..|targets| - 1], targets[|targets| - 1];
    var before := Mapping(rest, profiles).value;
    if t.profile == k {
      assert FoundOnly(profiles, targets[|targets| - 1].endpoint, Matches(profiles, t.endpoint)[0].profile);
    } else {
      MappedIsTaken(rest, profiles, k);
      var i :| 0 <= i < |rest| && FoundOnly(profiles, rest[i].endpoint, before[k].profile);
      assert FoundOnly(profiles, targets[i].endpoint, before[k].profile);
    }
  }

  lemma {:induction false} MappingPreserves(targets: seq<Target>, profiles: seq<Target>, i: nat)
    requires Distinct(targets) && Mapping(targets, profiles).Ok? && i < |targets|
    ensures targets[i].profile in Mapping(targets, profiles).value
    ensures var local := Mapping(targets, profiles).value[targets[i].profile];
      local in profiles && local.endpoint == targets[i].endpoint
  {
    if i < |targets| - 1 {
      MappingPreserves(targets[..|targets| - 1], profiles, i);
    }
  }

  lemma {:induction false} FreshLength(targets: seq<Target>, others: seq<Target>, count: nat)
    requires |targets| == |others|
    ensures |Fresh(targets, count)| == |Fresh(others, count)|
  {
    if targets != [] {
      FreshLength(targets[..|targets| - 1], others[..|others| - 1], count);
    }
  }

  /** The same endpoints under other names and ids. */
  ghost predicate Relocates(m: Plan, n: Plan, mapped: map<Id, Target>) {
    && Covers(mapped, m) && n == Renamed(m, mapped) && Injective(mapped)
    && (forall i :: 0 <= i < |m.targets| ==> n.targets[i].endpoint == m.targets[i].endpoint)
  }

  lemma RelocatedKeys(m: Plan, n: Plan, mapped: map<Id, Target>)
    requires Relocates(m, n, mapped) && Unique(Keys(m.outcomes))
    ensures Unique(Keys(n.outcomes))
  {
    forall i, j | 0 <= i < j < |n.outcomes| ensures Keys(n.outcomes)[i] != Keys(n.outcomes)[j] {
      assert Keys(m.outcomes)[i] != Keys(m.outcomes)[j];
    }
  }

  lemma RelocatedCover(m: Plan, n: Plan, mapped: map<Id, Target>)
    requires Relocates(m, n, mapped) && Distinct(m.targets) && Distinct(n.targets)
    requires Elements(Keys(Fresh(m.targets, |m.tasks|))) <= Elements(Keys(m.outcomes))
    ensures Elements(Keys(Fresh(n.targets, |n.tasks|))) <= Elements(Keys(n.outcomes))
  {
    var all := Fresh(n.targets, |n.tasks|);
    FreshKeys(n.targets, |n.tasks|);
    FreshKeys(m.targets, |m.tasks|);
    forall i | 0 <= i < |all| ensures Keys(all)[i] in Elements(Keys(n.outcomes)) {
      var t :| 0 <= t < |n.targets| && n.targets[t].profile == all[i].target;
      assert (m.targets[t].profile, all[i].task) in Keys(Fresh(m.targets, |m.tasks|));
      assert (m.targets[t].profile, all[i].task) in Elements(Keys(m.outcomes));
      var j :| 0 <= j < |m.outcomes| && Keys(m.outcomes)[j] == (m.targets[t].profile, all[i].task);
      assert Keys(n.outcomes)[j] == Keys(all)[i];
    }
  }

  lemma RelocatedStructure(m: Plan, n: Plan, mapped: map<Id, Target>)
    requires Relocates(m, n, mapped) && StructureOk(m.objective, m.targets, m.tasks, m.pilot, Keys(m.outcomes))
    ensures StructureOk(n.objective, n.targets, n.tasks, n.pilot, Keys(n.outcomes))
  {
    StructureMeans(m.objective, m.targets, m.tasks, m.pilot, Keys(m.outcomes));
    RelocatedKeys(m, n, mapped);
    CountUnique(Keys(n.outcomes));
    RelocatedCover(m, n, mapped);
    FreshLength(m.targets, n.targets, |m.tasks|);
    var i :| 0 <= i < |m.targets| && m.targets[i].profile == m.pilot;
    assert n.targets[i].profile == n.pilot;
  }

  lemma RelocatedRecords(m: Plan, n: Plan, mapped: map<Id, Target>)
    requires Relocates(m, n, mapped) && Valid(m)
    ensures forall i :: 0 <= i < |n.outcomes| ==> OutcomeOk(n.evidence, n.outcomes[i])
    ensures forall i :: 0 <= i < |n.evidence| ==> EvidenceOk(n.targets, n.evidence[i])
    ensures forall i :: 0 <= i < |n.evidence| ==> n.evidence[i].target.endpoint == m.evidence[i].target.endpoint
  {
    forall i | 0 <= i < |n.outcomes| ensures OutcomeOk(n.evidence, n.outcomes[i]) {
      var o := m.outcomes[i];
      assert OutcomeOk(m.evidence, o);
      forall j | 0 <= j < |o.evidence| ensures BelongsTo(n.evidence, o.evidence[j], n.outcomes[i].target) {
        assert BelongsTo(m.evidence, o.evidence[j], o.target);
        var k :| 0 <= k < |m.evidence| && m.evidence[k].id == o.evidence[j] && m.evidence[k].target.profile == o.target;
        assert n.evidence[k].id == o.evidence[j];
      }
    }
    forall i | 0 <= i < |n.evidence|
      ensures EvidenceOk(n.targets, n.evidence[i]) && n.evidence[i].target.endpoint == m.evidence[i].target.endpoint
    {
      assert EvidenceOk(m.targets, m.evidence[i]);
      var t :| 0 <= t < |m.targets| && SameEndpoint(m.targets[t], m.evidence[i].target);
      assert n.targets[t] == n.evidence[i].target;
    }
  }

  lemma MappingRelocates(m: Plan, profiles: seq<Target>)
    requires Shaped(m) && MappedLocally(m, profiles).Ok?
    ensures Relocates(m, MappedLocally(m, profiles).value, Mapping(m.targets, profiles).value)
    ensures forall i :: 0 <= i < |m.targets| ==> MappedLocally(m, profiles).value.targets[i] in profiles
  {
    MappingCovers(m, profiles);
    MappingInjective(m.targets, profiles);
    forall i | 0 <= i < |m.targets|
      ensures Mapping(m.targets, profiles).value[m.targets[i].profile] in profiles
      ensures Mapping(m.targets, profiles).value[m.targets[i].profile].endpoint == m.targets[i].endpoint
    {
      MappingPreserves(m.targets, profiles, i);
    }
  }

  /**
   * Nothing but names and ids changed: statuses, notes and links, and the endpoint each record speaks of, are the same.
   */
  ghost predicate SameHistory(m: Plan, n: Plan) {
    && |n.outcomes| == |m.outcomes| && |n.evidence| == |m.evidence| && |n.targets| == |m.targets|
    && (forall i :: 0 <= i < |m.outcomes| ==> n.outcomes[i].(target := m.outcomes[i].target) == m.outcomes[i])
    && (forall i :: 0 <= i < |m.evidence| ==> n.evidence[i].(target := m.evidence[i].target) == m.evidence[i])
    && (forall i :: 0 <= i < |m.evidence| ==> n.evidence[i].target.endpoint == m.evidence[i].target.endpoint)
    && (forall i :: 0 <= i < |m.targets| ==> n.targets[i].endpoint == m.targets[i].endpoint)
    && (forall i, t :: 0 <= i < |m.outcomes| && 0 <= t < |m.targets| ==>
          (m.outcomes[i].target == m.targets[t].profile <==> n.outcomes[i].target == n.targets[t].profile))
  }

  lemma RelocatedHistory(m: Plan, n: Plan, mapped: map<Id, Target>)
    requires Relocates(m, n, mapped) && Valid(m)
    ensures SameHistory(m, n)
  {
    RelocatedRecords(m, n, mapped);
  }

  /** Mapping onto local profiles never panics on a valid mission, keeps it valid, and keeps its history. */
  lemma MappingKeepsValid(m: Plan, profiles: seq<Target>)
    requires Valid(m)
    ensures Shaped(m)
    ensures MappedLocally(m, profiles).Ok? ==>
      var n := MappedLocally(m, profiles).value;
      && Valid(n) && SameHistory(m, n) && (forall i :: 0 <= i < |n.targets| ==> n.targets[i] in profiles)
  {
    ValidIsShaped(m);
    if MappedLocally(m, profiles).Ok? {
      var n, mapped := MappedLocally(m, profiles).value, Mapping(m.targets, profiles).value;
      MappingRelocates(m, profiles);
      RelocatedIsValid(m, n, mapped);
      RelocatedHistory(m, n, mapped);
    }
  }

  lemma RelocatedIsValid(m: Plan, n: Plan, mapped: map<Id, Target>)
    requires Relocates(m, n, mapped) && Valid(m)
    ensures Valid(n)
  {
    RelocatedStructure(m, n, mapped);
    RelocatedRecords(m, n, mapped);
    assert Ids(n.evidence) == Ids(m.evidence);
  }

  // ---- In from a handoff

  /** What redaction must leave behind. */
  ghost predicate SurvivesRedaction(m: Plan, redact: string -> string) {
    && !Blank(redact(m.objective)) && |redact(m.objective)| <= 4096
    && forall i :: 0 <= i < |m.evidence| && m.evidence[i].facts == map[] ==> !Blank(redact(m.evidence[i].notes))
  }

  lemma SameIndex<T>(s: seq<T>, i: nat, j: nat)
    requires Unique(s) && i < |s| && j < |s| && s[i] == s[j]
    ensures i == j
  {
  }

  lemma PositionUnique(evidence: seq<Evidence>, k: nat)
    requires k < |evidence| && Unique(Ids(evidence))
    ensures PositionOf(evidence, evidence[k].id) == k
  {
    SameIndex(Ids(evidence), PositionOf(evidence, evidence[k].id), k);
  }

  lemma ReissuedOk(m: Plan, o: Outcome, ids: seq<Id>, redact: string -> string)
    requires |ids| == |m.evidence| && OutcomeOk(m.evidence, o) && Unique(Ids(m.evidence))
    ensures OutcomeOk(RedactedAll(m, ids, redact), Reissued(m, o, ids))
  {
    var all := RedactedAll(m, ids, redact);
    forall j | 0 <= j < |o.evidence|
      ensures BelongsTo(all, Reissued(m, o, ids).evidence[j], o.target)
    {
      assert BelongsTo(m.evidence, o.evidence[j], o.target);
      var k :| 0 <= k < |m.evidence| && m.evidence[k].id == o.evidence[j] && m.evidence[k].target.profile == o.target;
      PositionUnique(m.evidence, k);
      assert all[k].id == Reissued(m, o, ids).evidence[j] && all[k].target.profile == o.target;
    }
  }

  lemma RedactedOk(m: Plan, ids: seq<Id>, redact: string -> string, i: nat)
    requires |ids| == |m.evidence| && i < |m.evidence| && EvidenceOk(m.targets, m.evidence[i])
    ensures EvidenceOk(m.targets, RedactedAll(m, ids, redact)[i]) <==>
      (m.evidence[i].facts == map[] ==> !Blank(redact(m.evidence[i].notes)))
  {
    var e := m.evidence[i];
    var after := Redacted(e, ids[i], redact);
    assert RedactedAll(m, ids, redact)[i] == after;
    if e.facts != map[] {
      var k :| k in e.facts;
      assert k in after.facts;
    }
    var t :| 0 <= t < |m.targets| && SameEndpoint(m.targets[t], e.target);
    assert SameEndpoint(m.targets[t], after.target);
  }

  /** An imported mission is valid exactly when redaction leaves its text non-blank and its objective short enough. */
  lemma ImportKeepsValid(m: Plan, ids: seq<Id>, redact: string -> string)
    requires Valid(m) && |ids| == |m.evidence| && Unique(ids)
    ensures var n := Imported(m, ids, redact).value; Valid(n) <==> SurvivesRedaction(m, redact)
  {
    var n := Imported(m, ids, redact).value;
    CountUnique(Ids(m.evidence));
    assert Ids(n.evidence) == ids;
    CountUnique(ids);
    assert Keys(n.outcomes) == Keys(m.outcomes);
    forall i | 0 <= i < |n.outcomes| ensures OutcomeOk(n.evidence, n.outcomes[i]) {
      ReissuedOk(m, m.outcomes[i], ids, redact);
    }
    forall i | 0 <= i < |n.evidence|
      ensures EvidenceOk(n.targets, n.evidence[i]) <==>
        (m.evidence[i].facts == map[] ==> !Blank(redact(m.evidence[i].notes)))
    {
      RedactedOk(m, ids, redact, i);
    }
  }

  /** Every link from an outcome to its evidence survives the renumbering. */
  lemma ImportCarriesLinks(m: Plan, ids: seq<Id>, redact: string -> string, i: nat, j: nat)
    requires Valid(m) && |ids| == |m.evidence| && Unique(ids)
    requires i < |m.outcomes| && j < |m.outcomes[i].evidence|
    ensures var n := Imported(m, ids, redact).value;
      && |n.outcomes[i].evidence| == |m.outcomes[i].evidence| && |n.evidence| == |m.evidence|
      && n.outcomes[i].target == m.outcomes[i].target && n.outcomes[i].task == m.outcomes[i].task
      && (forall k :: 0 <= k < |m.evidence| ==>
            (m.outcomes[i].evidence[j] == m.evidence[k].id <==> n.outcomes[i].evidence[j] == n.evidence[k].id))
  {
    var n := Imported(m, ids, redact).value;
    assert OutcomeOk(m.evidence, m.outcomes[i])
      && BelongsTo(m.evidence, m.outcomes[i].evidence[j], m.outcomes[i].target);
    CountUnique(Ids(m.evidence));
    var p := PositionOf(m.evidence, m.outcomes[i].evidence[j]);
    assert n.outcomes[i].evidence[j] == ids[p];
    forall k | 0 <= k < |m.evidence|
      ensures m.outcomes[i].evidence[j] == m.evidence[k].id <==> n.outcomes[i].evidence[j] == n.evidence[k].id
    {
      PositionUnique(m.evidence, k);
      assert k != p ==> ids[k] != ids[p];
    }
  }

  /** Only the length can break: masking never blanks a text. */
  lemma ImportKeepsShortValid(m: Plan, ids: seq<Id>, lower: char -> char)
    requires Valid(m) && |ids| == |m.evidence| && Unique(ids)
    ensures Valid(Imported(m, ids, Redactor(lower)).value) <==> |Redact(m.objective, lower)| <= 4096
  {
    ImportKeepsValid(m, ids, Redactor(lower));
    RedactionKeepsWords(m.objective, lower);
    forall i | 0 <= i < |m.evidence| && m.evidence[i].facts == map[]
      ensures !Blank(Redactor(lower)(m.evidence[i].notes))
    {
      RedactionKeepsWords(m.evidence[i].notes, lower);
      assert EvidenceOk(m.targets, m.evidence[i]);
    }
  }

  /**
   * It does break: with an objective of the full length ending in a short secret, a new mission and an import both fail
   * the check.
   */
  lemma LongObjectiveBreaks(targets: seq<Target>, tasks: seq<Task>, lower: char -> char)
    requires Objection(LongText(4088), targets, tasks).None?
    requires Lowered("token=x", lower) == "token=x" && lower('a') == 'a'
    ensures !Valid(Created(LongText(4088), targets, tasks, Redactor(lower)).value)
    ensures var m := Created(LongText(4088), targets, tasks, s => s).value;
      Valid(m) && !Valid(Imported(m, [], Redactor(lower)).value)
  {
    RedactionGrows(4088, lower);
    CreatedIsValid(LongText(4088), targets, tasks, Redactor(lower));
    CreatedIsValid(LongText(4088), targets, tasks, s => s);
    ImportKeepsShortValid(Created(LongText(4088), targets, tasks, s => s).value, [], lower);
  }
}
