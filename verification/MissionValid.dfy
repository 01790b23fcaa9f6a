/** The check of a stored mission is an invariant of its operations, and exactly when it is not. */
module MissionValid {
  import opened Characters
  import opened Mission

  // ---- Counting without repetition

  ghost predicate Unique<T>(s: seq<T>) {
    forall i, j :: 0 <= i < j < |s| ==> s[i] != s[j]
  }

  lemma {:induction false} CountUnique<T>(s: seq<T>)
    ensures |Elements(s)| <= |s|
    ensures |Elements(s)| == |s| <==> Unique(s)
  {
    if s != [] {
      var rest, last := s[..|s| - 1], s[|s| - 1];
      CountUnique(rest);
      assert Elements(s) == Elements(rest) + {last};
      if last in Elements(rest) {
        assert Elements(s) == Elements(rest);
        var i :| 0 <= i < |rest| && rest[i] == last;
        assert s[i] == s[|s| - 1];
      } else {
        assert forall i :: 0 <= i < |rest| ==> rest[i] != last && s[i] == rest[i];
      }
    }
  }

  lemma SubsetOfSameSize<T>(small: set<T>, large: set<T>)
    requires small <= large && |small| == |large|
    ensures small == large
  {
    assert |large - small| == 0;
  }

  // ---- One outcome for every step of every target

  lemma {:induction false} FreshKeys(targets: seq<Target>, count: nat)
    requires Distinct(targets)
    ensures forall i :: 0 <= i < |Fresh(targets, count)| ==>
      Fresh(targets, count)[i].task < count
      && exists t :: 0 <= t < |targets| && targets[t].profile == Fresh(targets, count)[i].target
    ensures forall t, k :: 0 <= t < |targets| && 0 <= k < count ==>
      (targets[t].profile, k) in Keys(Fresh(targets, count))
    ensures Unique(Keys(Fresh(targets, count)))
  {
    if targets != [] {
      var rest, last := targets[..|targets| - 1], targets[|targets| - 1];
      FreshKeys(rest, count);
      var all, before := Fresh(targets, count), Fresh(rest, count);
      assert |all| == |before| + count;
      forall t, k | 0 <= t < |targets| && 0 <= k < count ensures (targets[t].profile, k) in Keys(all) {
        if t < |rest| {
          assert (rest[t].profile, k) in Keys(before);
          var i :| 0 <= i < |before| && Keys(before)[i] == (targets[t].profile, k);
          assert Keys(all)[i] == (targets[t].profile, k);
        } else {
          assert Keys(all)[|before| + k] == (last.profile, k);
        }
      }
      forall i, j | 0 <= i < j < |all| ensures Keys(all)[i] != Keys(all)[j] {
        if j < |before| {
          assert Keys(before)[i] != Keys(before)[j];
        } else if i < |before| {
          assert before[i] == all[i];
        }
      }
    }
  }

  /** The outcomes of a valid mission are those of a new one, in some order. */
  lemma StructureMeans(objective: string, targets: seq<Target>, tasks: seq<Task>, pilot: Id, keys: seq<(Id, nat)>)
    requires StructureOk(objective, targets, tasks, pilot, keys)
    ensures Unique(keys) && Elements(keys) == Elements(Keys(Fresh(targets, |tasks|)))
    ensures forall i :: 0 <= i < |keys| ==> keys[i].1 < |tasks|
    ensures forall i :: 0 <= i < |keys| ==> exists t :: 0 <= t < |targets| && targets[t].profile == keys[i].0
  {
    var all := Keys(Fresh(targets, |tasks|));
    FreshKeys(targets, |tasks|);
    CountUnique(all);
    CountUnique(keys);
    SubsetOfSameSize(Elements(all), Elements(keys));
    forall i | 0 <= i < |keys|
      ensures keys[i].1 < |tasks| && exists t :: 0 <= t < |targets| && targets[t].profile == keys[i].0
    {
      assert keys[i] in Elements(all);
    }
  }

  /** What a valid mission says of its parts: the renaming's lookups are all defined. */
  lemma ValidIsShaped(m: Plan)
    requires Valid(m)
    ensures Shaped(m)
  {
    StructureMeans(m.objective, m.targets, m.tasks, m.pilot, Keys(m.outcomes));
    forall i | 0 <= i < |m.outcomes| ensures FindTarget(m.targets, m.outcomes[i].target) < |m.targets| {
      assert Keys(m.outcomes)[i].0 == m.outcomes[i].target;
    }
    forall i | 0 <= i < |m.evidence| ensures FindTarget(m.targets, m.evidence[i].target.profile) < |m.targets| {
      assert EvidenceOk(m.targets, m.evidence[i]);
    }
  }

  // ---- The operations

  lemma CreatedIsValid(objective: string, targets: seq<Target>, tasks: seq<Task>, redact: string -> string)
    requires Created(objective, targets, tasks, redact).Ok?
    ensures Valid(Created(objective, targets, tasks, redact).value) <==>
      !Blank(redact(objective)) && |redact(objective)| <= 4096
  {
    var m := Created(objective, targets, tasks, redact).value;
    FreshKeys(targets, |tasks|);
    CountUnique(Keys(m.outcomes));
    CountUnique(Ids(m.evidence));
    FreshIsPending(targets, |tasks|);
  }

  lemma {:induction false} FreshIsPending(targets: seq<Target>, count: nat)
    ensures forall i :: 0 <= i < |Fresh(targets, count)| ==>
      Fresh(targets, count)[i].status == Pending && Fresh(targets, count)[i].evidence == []
  {
    if targets != [] {
      FreshIsPending(targets[..|targets| - 1], count);
    }
  }

  /** An outcome may be changed in place as long as it keeps its step and passes its own check. */
  lemma ChangeOutcome(m: Plan, i: nat, o: Outcome)
    requires Valid(m) && i < |m.outcomes| && o.target == m.outcomes[i].target && o.task == m.outcomes[i].task
    ensures Valid(m.(outcomes := m.outcomes[i := o])) <==> OutcomeOk(m.evidence, o)
  {
    var n := m.(outcomes := m.outcomes[i := o]);
    assert Keys(n.outcomes) == Keys(m.outcomes);
    assert n.outcomes[i] == o;
  }

  lemma BeginKeepsValid(m: Plan, target: Id, task: nat)
    requires Valid(m) && Begun(m, target, task).Ok?
    ensures Valid(Begun(m, target, task).value)
  {
    var i := Find(m.outcomes, target, task);
    ChangeOutcome(m, i, m.outcomes[i].(status := Running, evidence := [], verification := ""));
  }

  /** Verifying keeps the mission valid exactly when a passing note still says something after redaction. */
  lemma VerifyKeepsValid(m: Plan, target: Id, task: nat, passed: bool, note: string, redact: string -> string)
    requires Valid(m) && Verified(m, target, task, passed, note, redact).Ok?
    ensures Valid(Verified(m, target, task, passed, note, redact).value) <==> (passed ==> !Blank(redact(note)))
  {
    var i := Find(m.outcomes, target, task);
    var o := m.outcomes[i].(status := if passed then Passed else Failed, verification := redact(note));
    assert OutcomeOk(m.evidence, m.outcomes[i]);
    ChangeOutcome(m, i, o);
  }

  lemma BelongsStill(before: seq<Evidence>, e: Evidence, id: Id, target: Id)
    requires BelongsTo(before, id, target)
    ensures BelongsTo(before + [e], id, target)
  {
    var i :| 0 <= i < |before| && before[i].id == id && before[i].target.profile == target;
    assert (before + [e])[i] == before[i];
  }

  lemma OutcomeStillOk(before: seq<Evidence>, e: Evidence, o: Outcome)
    requires OutcomeOk(before, o)
    ensures OutcomeOk(before + [e], o)
  {
    forall j | 0 <= j < |o.evidence| ensures BelongsTo(before + [e], o.evidence[j], o.target) {
      BelongsStill(before, e, o.evidence[j], o.target);
    }
  }

  lemma ReviewOk(before: seq<Evidence>, e: Evidence, o: Outcome)
    requires OutcomeOk(before, o) && e.target.profile == o.target
    ensures OutcomeOk(before + [e], o.(status := Review, evidence := o.evidence + [e.id]))
  {
    OutcomeStillOk(before, e, o);
    assert (before + [e])[|before|] == e;
    assert BelongsTo(before + [e], e.id, o.target);
  }

  lemma ElementsAppend<T>(s: seq<T>, x: T)
    ensures Elements(s + [x]) == Elements(s) + {x}
  {
    var t := s + [x];
    assert t[|s|] == x && forall i :: 0 <= i < |s| ==> t[i] == s[i];
  }

  lemma OneMoreId(evidence: seq<Evidence>, e: Evidence)
    requires |Elements(Ids(evidence))| == |evidence|
    ensures |Elements(Ids(evidence + [e]))| == |evidence| + 1 <==> e.id !in Elements(Ids(evidence))
  {
    assert Ids(evidence + [e]) == Ids(evidence) + [e.id];
    ElementsAppend(Ids(evidence), e.id);
  }

  /** Recording keeps the mission valid exactly when the evidence id is new and the list is not full. */
  lemma RecordKeepsValid(m: Plan, target: Id, task: nat, e: Evidence)
    requires Valid(m) && Recorded(m, target, task, e).Ok?
    ensures Valid(Recorded(m, target, task, e).value) <==>
      e.id !in Elements(Ids(m.evidence)) && |m.evidence| < MAX_EVIDENCE
  {
    var n := Recorded(m, target, task, e).value;
    var i := Find(m.outcomes, target, task);
    assert Keys(n.outcomes) == Keys(m.outcomes);
    OneMoreId(m.evidence, e);
    forall k | 0 <= k < |n.outcomes| ensures OutcomeOk(n.evidence, n.outcomes[k]) {
      OutcomeStillOk(m.evidence, e, m.outcomes[k]);
      if k == i {
        ReviewOk(m.evidence, e, m.outcomes[i]);
      }
    }
    forall k | 0 <= k < |n.evidence| ensures EvidenceOk(n.targets, n.evidence[k]) {
      if k < |m.evidence| {
        assert n.evidence[k] == m.evidence[k];
      } else {
        assert SameEndpoint(m.targets[FindTarget(m.targets, target)], e.target);
      }
    }
  }

  lemma PauseKeepsValid(m: Plan)
    requires Valid(m)
    ensures Valid(Paused(m)) && (Released(m).Ok? ==> Valid(Released(m).value))
  {
    assert Keys(Paused(m).outcomes) == Keys(m.outcomes);
    forall i | 0 <= i < |m.outcomes| ensures OutcomeOk(m.evidence, Stopped(m.outcomes[i])) {
      assert OutcomeOk(m.evidence, m.outcomes[i]);
    }
  }
}
