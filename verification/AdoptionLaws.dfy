/** Adoption does not depend on the order of the edits, and changes nothing but what they name. */
module AdoptionLaws {
  import opened Outcomes
  import opened Adoption

  // ---- What the edits leave behind

  /** Every edit has a step of its own. */
  predicate Slots(steps: seq<Step>, edits: seq<ParameterEdit>, n: nat)
    requires n <= |edits|
  {
    && (forall i :: 0 <= i < n ==> edits[i].step < |steps|)
    && (forall i, j :: 0 <= i < j < n ==> edits[i].step != edits[j].step)
  }

  lemma {:induction false} NamedAt(steps: seq<Step>, edits: seq<ParameterEdit>, n: nat, k: nat)
    requires n <= |edits| && Slots(steps, edits, n) && k < |steps|
    ensures forall i :: 0 <= i < n && edits[i].step == k ==> Named(steps, edits, n)[k] == Parameter(edits[i].name)
    ensures (forall i :: 0 <= i < n ==> edits[i].step != k) ==> Named(steps, edits, n)[k] == steps[k]
  {
    if n > 0 {
      NamedAt(steps, edits, n - 1, k);
    }
  }

  function Look(a: Assertions, after: Option<nat>): Option<Anchor> {
    match after
    case Some(i) => if i in a.after then Some(a.after[i]) else None
    case None => a.final
  }

  lemma {:induction false} AssertedAt(source: Procedure, start: Assertions, anchors: seq<Anchor>,
      edits: seq<AssertionEdit>, n: nat, after: Option<nat>)
    requires n <= |edits| && AssertionsFit(source, anchors, edits, n)
    ensures forall i :: 0 <= i < n && edits[i].after == after ==>
      Look(Asserted(start, anchors, edits, n), after) == Some(anchors[edits[i].anchor])
    ensures (forall i :: 0 <= i < n ==> edits[i].after != after) ==>
      Look(Asserted(start, anchors, edits, n), after) == Look(start, after)
  {
    if n > 0 {
      AssertedAt(source, start, anchors, edits, n - 1, after);
    }
  }

  lemma SameLooks(a: Assertions, b: Assertions)
    requires forall after :: Look(a, after) == Look(b, after)
    ensures a == b
  {
    assert Look(a, None) == Look(b, None);
    forall i: nat ensures i in a.after <==> i in b.after
      ensures i in a.after ==> a.after[i] == b.after[i]
    {
      assert Look(a, Some(i)) == Look(b, Some(i));
    }
    assert a.after.Keys == b.after.Keys;
  }

  // ---- Order does not matter

  predicate DistinctBy<T, K(==)>(s: seq<T>, key: T -> K) {
    forall i, j :: 0 <= i < j < |s| ==> key(s[i]) != key(s[j])
  }

  lemma {:induction false} CountedOnce<T, K>(s: seq<T>, key: T -> K, x: T)
    requires DistinctBy(s, key)
    ensures multiset(s)[x] <= 1
  {
    if s != [] {
      var rest, last := s[..|s| - 1], s[|s| - 1];
      CountedOnce(rest, key, x);
      assert s == rest + [last];
      assert forall i :: 0 <= i < |rest| ==> rest[i] == s[i] && key(s[i]) != key(s[|s| - 1]);
      assert last !in rest;
    }
  }

  lemma TwoPlaces<T>(s: seq<T>, i: nat, j: nat)
    requires i < j < |s| && s[i] == s[j]
    ensures multiset(s)[s[i]] >= 2
  {
    var front, back := s[..j], s[j..];
    assert s == front + back;
    assert front[i] == s[i] && back[0] == s[j];
    assert multiset(s) == multiset(front) + multiset(back);
    assert s[i] in multiset(front) && s[i] in multiset(back);
  }

  lemma Reordered<T, K>(s: seq<T>, t: seq<T>, key: T -> K)
    requires multiset(s) == multiset(t) && DistinctBy(s, key)
    ensures DistinctBy(t, key)
  {
    forall i, j | 0 <= i < j < |t| ensures key(t[i]) != key(t[j]) {
      CountedOnce(s, key, t[i]);
      if t[i] == t[j] {
        TwoPlaces(t, i, j);
      } else {
        assert t[i] in multiset(s) && t[j] in multiset(s);
        var a, b :| 0 <= a < |s| && 0 <= b < |s| && s[a] == t[i] && s[b] == t[j];
        assert a < b || b < a;
      }
    }
  }

  lemma SameMembers<T>(s: seq<T>, t: seq<T>)
    requires multiset(s) == multiset(t)
    ensures |s| == |t|
    ensures forall i :: 0 <= i < |s| ==> exists j :: 0 <= j < |t| && t[j] == s[i]
  {
    assert |multiset(s)| == |multiset(t)|;
    forall i | 0 <= i < |s| ensures exists j :: 0 <= j < |t| && t[j] == s[i] {
      assert s[i] in multiset(t);
    }
  }

  lemma ParametersFitAnyOrder(source: Procedure, s: seq<ParameterEdit>, t: seq<ParameterEdit>)
    requires multiset(s) == multiset(t) && ParametersFit(source, s, |s|)
    ensures ParametersFit(source, t, |t|)
  {
    SameMembers(t, s);
    assert DistinctBy(s, (e: ParameterEdit) => e.step) && DistinctBy(s, (e: ParameterEdit) => e.name);
    Reordered(s, t, (e: ParameterEdit) => e.step);
    Reordered(s, t, (e: ParameterEdit) => e.name);
  }

  lemma AssertionsFitAnyOrder(source: Procedure, anchors: seq<Anchor>, s: seq<AssertionEdit>, t: seq<AssertionEdit>)
    requires multiset(s) == multiset(t) && AssertionsFit(source, anchors, s, |s|)
    ensures AssertionsFit(source, anchors, t, |t|)
  {
    SameMembers(t, s);
    assert DistinctBy(s, (e: AssertionEdit) => e.after);
    Reordered(s, t, (e: AssertionEdit) => e.after);
  }

  lemma Counterpart<T>(s: seq<T>, t: seq<T>, i: nat) returns (j: nat)
    requires multiset(s) == multiset(t) && i < |s|
    ensures j < |t| && t[j] == s[i]
  {
    assert s[i] in multiset(t);
    j :| 0 <= j < |t| && t[j] == s[i];
  }

  lemma NamedSomewhere(steps: seq<Step>, s: seq<ParameterEdit>, t: seq<ParameterEdit>, i: nat)
    requires multiset(s) == multiset(t) && Slots(steps, s, |s|) && Slots(steps, t, |t|) && i < |s|
    ensures Named(steps, s, |s|)[s[i].step] == Named(steps, t, |t|)[s[i].step]
  {
    var j := Counterpart(s, t, i);
    NamedAt(steps, s, |s|, s[i].step);
    NamedAt(steps, t, |t|, s[i].step);
  }

  lemma NamedAtAnyOrder(steps: seq<Step>, s: seq<ParameterEdit>, t: seq<ParameterEdit>, k: nat)
    requires multiset(s) == multiset(t) && Slots(steps, s, |s|) && Slots(steps, t, |t|) && k < |steps|
    ensures Named(steps, s, |s|)[k] == Named(steps, t, |t|)[k]
  {
    if i :| 0 <= i < |s| && s[i].step == k {
      NamedSomewhere(steps, s, t, i);
    } else if j :| 0 <= j < |t| && t[j].step == k {
      NamedSomewhere(steps, t, s, j);
    } else {
      NamedAt(steps, s, |s|, k);
      NamedAt(steps, t, |t|, k);
    }
  }

  lemma NamedAnyOrder(steps: seq<Step>, s: seq<ParameterEdit>, t: seq<ParameterEdit>)
    requires multiset(s) == multiset(t) && Slots(steps, s, |s|) && Slots(steps, t, |t|)
    ensures Named(steps, s, |s|) == Named(steps, t, |t|)
  {
    forall k | 0 <= k < |steps| ensures Named(steps, s, |s|)[k] == Named(steps, t, |t|)[k] {
      NamedAtAnyOrder(steps, s, t, k);
    }
  }

  lemma AssertedAnyOrder(source: Procedure, start: Assertions, anchors: seq<Anchor>, s: seq<AssertionEdit>,
      t: seq<AssertionEdit>)
    requires multiset(s) == multiset(t) && AssertionsFit(source, anchors, s, |s|)
    requires AssertionsFit(source, anchors, t, |t|)
    ensures Asserted(start, anchors, s, |s|) == Asserted(start, anchors, t, |t|)
  {
    var a, b := Asserted(start, anchors, s, |s|), Asserted(start, anchors, t, |t|);
    forall after ensures Look(a, after) == Look(b, after) {
      AssertedAt(source, start, anchors, s, |s|, after);
      AssertedAt(source, start, anchors, t, |t|, after);
      if i :| 0 <= i < |s| && s[i].after == after {
        var j := Counterpart(s, t, i);
      } else if j :| 0 <= j < |t| && t[j].after == after {
        var i := Counterpart(t, s, j);
        assert false;
      }
    }
    SameLooks(a, b);
  }

  ghost predicate SameEdits(p: Proposal, q: Proposal) {
    && multiset(p.parameters) == multiset(q.parameters) && multiset(p.assertions) == multiset(q.assertions)
    && p.assumptions == q.assumptions && p.missing == q.missing
  }

  lemma ProposalOkAnyOrder(p: Proposal, q: Proposal)
    requires SameEdits(p, q) && ProposalOk(p)
    ensures ProposalOk(q) && (Changes(p) <==> Changes(q))
  {
    SameMembers(q.parameters, p.parameters);
    SameMembers(q.assertions, p.assertions);
  }

  lemma FitsAnyOrder(p: Proposal, q: Proposal, context: Context, source: Procedure, reviewed: bool)
    requires SameEdits(p, q) && Fits(p, context, source, reviewed)
    ensures Fits(q, context, source, reviewed) && Edited(q, context, source) == Edited(p, context, source)
  {
    ProposalOkAnyOrder(p, q);
    ParametersFitAnyOrder(source, p.parameters, q.parameters);
    AssertionsFitAnyOrder(source, context.anchors, p.assertions, q.assertions);
    NamedAnyOrder(source.steps, p.parameters, q.parameters);
    AssertedAnyOrder(source, Assertions(source.expectedAfter, source.expectedFinal), context.anchors, p.assertions,
      q.assertions);
  }

  /** Permuting the parameters and the assertions changes neither whether a proposal is adopted nor what comes out. */
  lemma AdoptionCommutes(p: Proposal, q: Proposal, context: Context, source: Procedure, reviewed: bool, checks: Checks)
    requires SameEdits(p, q)
    ensures Adopted(p, context, source, reviewed, checks) == Adopted(q, context, source, reviewed, checks)
  {
    if Fits(p, context, source, reviewed) {
      FitsAnyOrder(p, q, context, source, reviewed);
    } else if Fits(q, context, source, reviewed) {
      FitsAnyOrder(q, p, context, source, reviewed);
    }
  }

  // ---- Nothing else changes

  predicate NamedBy(e: ParameterEdit, k: nat, step: Step) { e.step == k && step == Parameter(e.name) }

  predicate AddedBy(e: AssertionEdit, context: Context, after: Option<nat>, now: Option<Anchor>) {
    e.after == after && e.anchor < |context.anchors| && now == Some(context.anchors[e.anchor])
  }

  /** Each step is the source's own, or a slot that one edit named. */
  ghost predicate StepKept(p: Proposal, source: Procedure, r: Procedure, k: nat)
    requires k < |source.steps| == |r.steps|
  {
    || r.steps[k] == source.steps[k]
    || (source.steps[k].TextRequired?
        && exists i :: 0 <= i < |p.parameters| && NamedBy(p.parameters[i], k, r.steps[k]))
  }

  /** Each assertion is the source's own, or one that an edit added where the source had none. */
  ghost predicate AssertionKept(p: Proposal, context: Context, source: Procedure, r: Procedure, after: Option<nat>) {
    var was := Look(Assertions(source.expectedAfter, source.expectedFinal), after);
    var now := Look(Assertions(r.expectedAfter, r.expectedFinal), after);
    || now == was
    || (was.None? && exists i :: 0 <= i < |p.assertions| && AddedBy(p.assertions[i], context, after, now))
  }

  lemma StepsKept(p: Proposal, context: Context, source: Procedure, reviewed: bool, k: nat)
    requires Fits(p, context, source, reviewed) && k < |source.steps|
    ensures StepKept(p, source, Edited(p, context, source), k)
  {
    NamedAt(source.steps, p.parameters, |p.parameters|, k);
  }

  lemma AssertionsKept(p: Proposal, context: Context, source: Procedure, reviewed: bool, after: Option<nat>)
    requires Fits(p, context, source, reviewed)
    ensures AssertionKept(p, context, source, Edited(p, context, source), after)
  {
    var start := Assertions(source.expectedAfter, source.expectedFinal);
    AssertedAt(source, start, context.anchors, p.assertions, |p.assertions|, after);
    if i :| 0 <= i < |p.assertions| && p.assertions[i].after == after {
      assert AssertionFits(source, context.anchors, p.assertions[i]);
    }
  }

  /** The names the edits gave are new, valid, and each given once. */
  lemma NewNamesDistinct(p: Proposal, context: Context, source: Procedure, reviewed: bool, i: nat, k: nat)
    requires Fits(p, context, source, reviewed) && i < |p.parameters| && k < |source.steps|
    requires Edited(p, context, source).steps[k] == Parameter(p.parameters[i].name)
    ensures NameOk(p.parameters[i].name) && k == p.parameters[i].step
  {
    NamedAt(source.steps, p.parameters, |p.parameters|, k);
    assert ParameterFits(source, p.parameters[i]);
  }

  /**
   * An adopted procedure is the source but for named slots and added assertions: nothing already asserted is lost,
   * every edit took effect, and each new name stands at exactly one step.
   */
  lemma AdoptionFrames(p: Proposal, context: Context, source: Procedure, reviewed: bool, checks: Checks)
    requires Adopted(p, context, source, reviewed, checks).Some?
    ensures var r := Adopted(p, context, source, reviewed, checks).value;
      && reviewed && context.source == source && checks.valid(r)
      && r.header == source.header && |r.steps| == |source.steps|
      && (forall k :: 0 <= k < |source.steps| ==> StepKept(p, source, r, k))
      && (forall after :: AssertionKept(p, context, source, r, after))
    ensures var r := Adopted(p, context, source, reviewed, checks).value;
      && (forall i :: 0 <= i < |p.parameters| ==>
            p.parameters[i].step < |r.steps| && r.steps[p.parameters[i].step] == Parameter(p.parameters[i].name))
      && (forall i, k :: 0 <= i < |p.parameters| && 0 <= k < |r.steps| ==>
            r.steps[k] == Parameter(p.parameters[i].name) ==> k == p.parameters[i].step)
  {
    var r := Adopted(p, context, source, reviewed, checks).value;
    forall k | 0 <= k < |source.steps| ensures StepKept(p, source, r, k) { StepsKept(p, context, source, reviewed, k); }
    forall after ensures AssertionKept(p, context, source, r, after) {
      AssertionsKept(p, context, source, reviewed, after);
    }
    forall i | 0 <= i < |p.parameters|
      ensures p.parameters[i].step < |r.steps| && r.steps[p.parameters[i].step] == Parameter(p.parameters[i].name)
    {
      assert ParameterFits(source, p.parameters[i]);
      NamedAt(source.steps, p.parameters, |p.parameters|, p.parameters[i].step);
    }
    forall i, k | 0 <= i < |p.parameters| && 0 <= k < |r.steps| && r.steps[k] == Parameter(p.parameters[i].name)
      ensures k == p.parameters[i].step
    {
      NewNamesDistinct(p, context, source, reviewed, i, k);
    }
  }

  // ---- The anchors come from the source

  lemma {:induction false} OnceKeeps(anchors: seq<Anchor>, x: Anchor)
    ensures x in Once(anchors) <==> x in anchors
    ensures forall i, j :: 0 <= i < j < |Once(anchors)| ==> Once(anchors)[i] != Once(anchors)[j]
  {
    if anchors != [] {
      var rest, last := anchors[..|anchors| - 1], anchors[|anchors| - 1];
      OnceKeeps(rest, x);
      OnceKeeps(rest, last);
      assert anchors == rest + [last];
    }
  }

  lemma {:induction false} ClickedAre(steps: seq<Step>, x: Anchor)
    ensures x in Clicked(steps) <==> exists k :: 0 <= k < |steps| && steps[k].OnAnchor? && steps[k].anchor == x
  {
    if steps != [] {
      var rest, last := steps[..|steps| - 1], steps[|steps| - 1];
      ClickedAre(rest, x);
      if k :| 0 <= k < |steps| && steps[k].OnAnchor? && steps[k].anchor == x {
        assert k < |rest| ==> rest[k] == steps[k];
      }
      if x in Clicked(rest) {
        var k :| 0 <= k < |rest| && rest[k].OnAnchor? && rest[k].anchor == x;
        assert steps[k] == rest[k];
      }
    }
  }

  lemma {:induction false} ExpectedAre(after: map<nat, Anchor>, n: nat, x: Anchor)
    ensures x in Expected(after, n) <==> exists k :: 0 <= k < n && k in after && after[k] == x
  {
    if n > 0 {
      ExpectedAre(after, n - 1, x);
    }
  }

  ghost predicate Mentions(p: Procedure, x: Anchor) {
    || (exists k :: 0 <= k < |p.steps| && p.steps[k].OnAnchor? && p.steps[k].anchor == x)
    || (exists k :: 0 <= k < |p.steps| && k in p.expectedAfter && p.expectedAfter[k] == x)
    || p.expectedFinal == Some(x)
  }

  /** A context offers each anchor of its procedure once, and no other. */
  lemma ContextOffersTheSource(source: Procedure, explanation: string, checks: Checks, x: Anchor)
    requires Built(source, explanation, checks).Some?
    ensures var anchors := Built(source, explanation, checks).value.anchors;
      && (x in anchors <==> Mentions(source, x))
      && (forall i, j :: 0 <= i < j < |anchors| ==> anchors[i] != anchors[j])
  {
    OnceKeeps(Mentioned(source), x);
    ClickedAre(source.steps, x);
    ExpectedAre(source.expectedAfter, |source.steps|, x);
  }

  /** An assertion of the source stands as it was, and an added one names an anchor the source shows. */
  ghost predicate AssertedFromSource(source: Procedure, r: Procedure, after: Option<nat>) {
    var was := Look(Assertions(source.expectedAfter, source.expectedFinal), after);
    var now := Look(Assertions(r.expectedAfter, r.expectedFinal), after);
    (was.Some? ==> now == was) && (now.Some? && now != was ==> Mentions(source, now.value))
  }

  lemma AssertedAnchor(p: Proposal, source: Procedure, explanation: string, r: Procedure, checks: Checks,
      after: Option<nat>)
    requires Built(source, explanation, checks).Some?
    requires AssertionKept(p, Built(source, explanation, checks).value, source, r, after)
    ensures AssertedFromSource(source, r, after)
  {
    var anchors := Built(source, explanation, checks).value.anchors;
    var now := Look(Assertions(r.expectedAfter, r.expectedFinal), after);
    if now.Some? && now.value in anchors {
      ContextOffersTheSource(source, explanation, checks, now.value);
    }
  }

  lemma SameMentions(source: Procedure, r: Procedure, x: Anchor)
    requires |r.steps| == |source.steps|
    requires forall k :: 0 <= k < |source.steps| && r.steps[k] != source.steps[k] ==>
      !source.steps[k].OnAnchor? && !r.steps[k].OnAnchor?
    requires forall after :: AssertedFromSource(source, r, after)
    ensures Mentions(r, x) <==> Mentions(source, x)
  {
    assert AssertedFromSource(source, r, None);
    forall k: nat | k < |source.steps|
      ensures k in r.expectedAfter ==> Mentions(source, r.expectedAfter[k])
      ensures k in source.expectedAfter ==> k in r.expectedAfter && r.expectedAfter[k] == source.expectedAfter[k]
    {
      assert AssertedFromSource(source, r, Some(k));
    }
  }

  /**
   * A procedure adopted from the context built for it mentions exactly the anchors its source mentions: every assertion
   * of the source stands as it was, and each added one names an anchor the source shows.
   */
  lemma AdoptionInventsNoAnchor(p: Proposal, source: Procedure, explanation: string, reviewed: bool, checks: Checks,
      x: Anchor)
    requires Built(source, explanation, checks).Some?
    requires Adopted(p, Built(source, explanation, checks).value, source, reviewed, checks).Some?
    ensures var r := Adopted(p, Built(source, explanation, checks).value, source, reviewed, checks).value;
      (Mentions(r, x) <==> Mentions(source, x)) && forall after :: AssertedFromSource(source, r, after)
  {
    var context := Built(source, explanation, checks).value;
    var r := Adopted(p, context, source, reviewed, checks).value;
    AdoptionFrames(p, context, source, reviewed, checks);
    forall after
      ensures AssertedFromSource(source, r, after)
    {
      AssertedAnchor(p, source, explanation, r, checks, after);
    }
    forall k | 0 <= k < |source.steps| && r.steps[k] != source.steps[k]
      ensures !source.steps[k].OnAnchor? && !r.steps[k].OnAnchor?
    {
      assert StepKept(p, source, r, k);
    }
    SameMentions(source, r, x);
  }
}
