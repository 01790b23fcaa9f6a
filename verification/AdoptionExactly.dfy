/** When a proposal is adopted, and what comes out, in its own fields; and the order in which anchors are offered. */
module AdoptionExactly {
  import opened Characters
  import opened Outcomes
  import opened Adoption
  import opened AdoptionLaws

  // ---- Proposals

  ghost predicate Note(s: string) {
    && 1 <= |s| <= 1024 && (exists c :: c in s && !IsSpace(c))
    && forall c :: c in s ==> !(c as int < 0x20 || 0x7F <= c as int <= 0x9F)
  }

  lemma NoteExactly(s: string)
    ensures Bounded(s) <==> Note(s)
  {
    assert forall i :: 0 <= i < |s| ==> s[i] in s;
  }

  /** The sizes a proposal may have; one that asks for more information proposes nothing. */
  ghost predicate Sized(p: Proposal) {
    && |p.parameters| <= 200 && |p.assertions| <= 201 && |p.assumptions| <= 8 && |p.missing| <= 8
    && (|p.missing| > 0 ==> |p.parameters| == 0 && |p.assertions| == 0)
  }

  ghost predicate Noted(p: Proposal) {
    && (forall e :: e in p.parameters ==> Note(e.reason)) && (forall e :: e in p.assertions ==> Note(e.reason))
    && (forall s :: s in p.assumptions ==> Note(s)) && (forall s :: s in p.missing ==> Note(s))
  }

  ghost predicate Referring(p: Proposal) {
    && (forall e :: e in p.parameters ==> e.step < 200)
    && (forall e :: e in p.assertions ==> e.anchor < 401 && (e.after.Some? ==> e.after.value < 200))
  }

  lemma ProposalExactly(p: Proposal)
    ensures ProposalOk(p) <==> Sized(p) && Noted(p) && Referring(p)
  {
    forall s: string ensures Bounded(s) <==> Note(s) { NoteExactly(s); }
    assert forall i :: 0 <= i < |p.parameters| ==> p.parameters[i] in p.parameters;
    assert forall i :: 0 <= i < |p.assertions| ==> p.assertions[i] in p.assertions;
    assert forall i :: 0 <= i < |p.assumptions| ==> p.assumptions[i] in p.assumptions;
    assert forall i :: 0 <= i < |p.missing| ==> p.missing[i] in p.missing;
  }

  // ---- Edits

  /** A name of 1 to 64 letters, digits and underscores that no slot of the source has. */
  ghost predicate NewName(source: Procedure, name: string) {
    && 1 <= |name| <= 64 && Parameter(name) !in source.steps
    && forall c :: c in name ==> 'a' <= c <= 'z' || 'A' <= c <= 'Z' || '0' <= c <= '9' || c == '_'
  }

  /** The edits name open text slots, each slot once, and no two alike. */
  ghost predicate NamesSlots(source: Procedure, edits: seq<ParameterEdit>) {
    && (forall e :: e in edits ==>
          NewName(source, e.name) && e.step < |source.steps| && source.steps[e.step] == TextRequired)
    && (forall i, j :: 0 <= i < j < |edits| ==> edits[i].step != edits[j].step)
    && (forall i, j :: 0 <= i < j < |edits| ==> edits[i].name != edits[j].name)
  }

  lemma NameExactly(source: Procedure, name: string)
    ensures NameOk(name) && name !in Names(source.steps) <==> NewName(source, name)
  {
    assert forall i :: 0 <= i < |name| ==> name[i] in name;
    if Parameter(name) in source.steps {
      var i :| 0 <= i < |source.steps| && source.steps[i] == Parameter(name);
      assert name in Names(source.steps);
    }
  }

  lemma SlotsExactly(source: Procedure, edits: seq<ParameterEdit>)
    ensures ParametersFit(source, edits, |edits|) <==> NamesSlots(source, edits)
  {
    forall name: string ensures NameOk(name) && name !in Names(source.steps) <==> NewName(source, name) {
      NameExactly(source, name);
    }
    assert forall i :: 0 <= i < |edits| ==> edits[i] in edits;
  }

  /** What the source asserts there: after a step, or at the end. */
  function Standing(source: Procedure, after: Option<nat>): Option<Anchor> {
    match after
    case None => source.expectedFinal
    case Some(k) => if k in source.expectedAfter then Some(source.expectedAfter[k]) else None
  }

  /** The edits assert offered anchors, each place once, and none against what stands there. */
  ghost predicate AssertsAnchors(source: Procedure, anchors: seq<Anchor>, edits: seq<AssertionEdit>) {
    && (forall e :: e in edits ==>
          && e.anchor < |anchors| && (e.after.Some? ==> e.after.value < |source.steps|)
          && (Standing(source, e.after).None? || Standing(source, e.after) == Some(anchors[e.anchor])))
    && (forall i, j :: 0 <= i < j < |edits| ==> edits[i].after != edits[j].after)
  }

  lemma PlacesExactly(source: Procedure, anchors: seq<Anchor>, edits: seq<AssertionEdit>)
    ensures AssertionsFit(source, anchors, edits, |edits|) <==> AssertsAnchors(source, anchors, edits)
  {
    assert forall i :: 0 <= i < |edits| ==> edits[i] in edits;
  }

  // ---- The result

  /** The slot an edit names has that name, and every other step is the source's own. */
  ghost predicate StepsNamed(source: Procedure, edits: seq<ParameterEdit>, steps: seq<Step>) {
    && |steps| == |source.steps|
    && (forall e :: e in edits && e.step < |steps| ==> steps[e.step] == Parameter(e.name))
    && (forall k :: 0 <= k < |steps| && (forall e :: e in edits ==> e.step != k) ==> steps[k] == source.steps[k])
  }

  /** The anchor an edit asserts stands where it says, and elsewhere what the source asserts. */
  ghost predicate AnchorsAsserted(source: Procedure, anchors: seq<Anchor>, edits: seq<AssertionEdit>, r: Procedure) {
    && (forall e :: e in edits && e.anchor < |anchors| ==> Standing(r, e.after) == Some(anchors[e.anchor]))
    && (forall after :: (forall e :: e in edits ==> e.after != after) ==> Standing(r, after) == Standing(source, after))
  }

  lemma NamedStep(source: Procedure, edits: seq<ParameterEdit>, k: nat)
    requires ParametersFit(source, edits, |edits|) && k < |source.steps|
    ensures forall e :: e in edits && e.step == k ==> Named(source.steps, edits, |edits|)[k] == Parameter(e.name)
    ensures (forall e :: e in edits ==> e.step != k) ==> Named(source.steps, edits, |edits|)[k] == source.steps[k]
  {
    NamedAt(source.steps, edits, |edits|, k);
    assert forall i :: 0 <= i < |edits| ==> edits[i] in edits;
  }

  lemma SameSteps(source: Procedure, edits: seq<ParameterEdit>, steps: seq<Step>, named: seq<Step>)
    requires StepsNamed(source, edits, steps) && StepsNamed(source, edits, named)
    ensures steps == named
  {
    forall k | 0 <= k < |steps| ensures steps[k] == named[k] {
      if e :| e in edits && e.step == k {
        assert steps[e.step] == named[e.step];
      }
    }
  }

  lemma NamedIsNamed(source: Procedure, edits: seq<ParameterEdit>)
    requires ParametersFit(source, edits, |edits|)
    ensures StepsNamed(source, edits, Named(source.steps, edits, |edits|))
  {
    forall k | 0 <= k < |source.steps|
      ensures forall e :: e in edits && e.step == k ==> Named(source.steps, edits, |edits|)[k] == Parameter(e.name)
      ensures (forall e :: e in edits ==> e.step != k) ==> Named(source.steps, edits, |edits|)[k] == source.steps[k]
    {
      NamedStep(source, edits, k);
    }
  }

  lemma NamedExactly(source: Procedure, edits: seq<ParameterEdit>, steps: seq<Step>)
    requires ParametersFit(source, edits, |edits|)
    ensures steps == Named(source.steps, edits, |edits|) <==> StepsNamed(source, edits, steps)
  {
    NamedIsNamed(source, edits);
    if StepsNamed(source, edits, steps) {
      SameSteps(source, edits, steps, Named(source.steps, edits, |edits|));
    }
  }

  lemma AssertedExactly(source: Procedure, anchors: seq<Anchor>, edits: seq<AssertionEdit>, r: Procedure)
    requires AssertionsFit(source, anchors, edits, |edits|)
    ensures var start := Assertions(source.expectedAfter, source.expectedFinal);
      Assertions(r.expectedAfter, r.expectedFinal) == Asserted(start, anchors, edits, |edits|) <==>
        AnchorsAsserted(source, anchors, edits, r)
  {
    var start := Assertions(source.expectedAfter, source.expectedFinal);
    var a, b := Asserted(start, anchors, edits, |edits|), Assertions(r.expectedAfter, r.expectedFinal);
    forall after
      ensures Standing(r, after) == Look(b, after) && Standing(source, after) == Look(start, after)
      ensures forall e :: e in edits && e.after == after ==> Look(a, after) == Some(anchors[e.anchor])
      ensures (forall e :: e in edits ==> e.after != after) ==> Look(a, after) == Look(start, after)
    {
      AssertedAt(source, start, anchors, edits, |edits|, after);
      assert forall i :: 0 <= i < |edits| ==> edits[i] in edits;
    }
    if AnchorsAsserted(source, anchors, edits, r) {
      forall after ensures Look(a, after) == Look(b, after) {
        if e :| e in edits && e.after == after {
          assert Standing(r, e.after) == Some(anchors[e.anchor]);
        }
      }
      SameLooks(a, b);
    }
  }

  /** Everything that has to be so for the proposal to fit. */
  ghost predicate Fitting(p: Proposal, context: Context, source: Procedure) {
    && Sized(p) && Noted(p) && Referring(p) && |p.missing| == 0 && (|p.parameters| > 0 || |p.assertions| > 0)
    && context.source == source && NamesSlots(source, p.parameters)
    && AssertsAnchors(source, context.anchors, p.assertions)
  }

  /** The source with the edits in it. */
  ghost predicate WithEdits(p: Proposal, context: Context, source: Procedure, r: Procedure) {
    && r.header == source.header && StepsNamed(source, p.parameters, r.steps)
    && AnchorsAsserted(source, context.anchors, p.assertions, r)
  }

  lemma FitsExactly(p: Proposal, context: Context, source: Procedure, reviewed: bool)
    ensures Fits(p, context, source, reviewed) <==> reviewed && Fitting(p, context, source)
  {
    ProposalExactly(p);
    SlotsExactly(source, p.parameters);
    PlacesExactly(source, context.anchors, p.assertions);
  }

  lemma EditedExactly(p: Proposal, context: Context, source: Procedure, reviewed: bool, r: Procedure)
    requires Fits(p, context, source, reviewed)
    ensures r == Edited(p, context, source) <==> WithEdits(p, context, source, r)
  {
    NamedExactly(source, p.parameters, r.steps);
    AssertedExactly(source, context.anchors, p.assertions, r);
  }

  /** A procedure is adopted exactly if it is the source with the edits of a reviewed, fitting proposal, and sound. */
  lemma AdoptedExactly(p: Proposal, context: Context, source: Procedure, reviewed: bool, checks: Checks, r: Procedure)
    ensures Adopted(p, context, source, reviewed, checks) == Some(r) <==>
      reviewed && Fitting(p, context, source) && WithEdits(p, context, source, r) && checks.valid(r)
  {
    FitsExactly(p, context, source, reviewed);
    if Fits(p, context, source, reviewed) {
      EditedExactly(p, context, source, reviewed, r);
    }
  }

  // ---- The context

  lemma MentionedAre(p: Procedure, x: Anchor)
    ensures x in Mentioned(p) <==> Mentions(p, x)
  {
    ClickedAre(p.steps, x);
    ExpectedAre(p.expectedAfter, |p.steps|, x);
  }

  /**
   * A context is made of a sound procedure that mentions suitable anchors only, and an explanation that says something.
   */
  lemma BuiltExactly(source: Procedure, explanation: string, checks: Checks)
    ensures Built(source, explanation, checks).Some? <==>
      && checks.valid(source) && |explanation| <= 4096 && (exists c :: c in explanation && !IsSpace(c))
      && forall x :: Mentions(source, x) ==> checks.safe(x) && |x.context| <= 256
    ensures Built(source, explanation, checks).Some? ==>
      var context := Built(source, explanation, checks).value;
      context.explanation == explanation && context.source == source
  {
    forall x ensures x in Mentioned(source) <==> Mentions(source, x) { MentionedAre(source, x); }
    assert forall i :: 0 <= i < |Mentioned(source)| ==> Mentioned(source)[i] in Mentioned(source);
    assert forall i :: 0 <= i < |explanation| ==> explanation[i] in explanation;
  }

  // ---- The order of the anchors

  /** A place of a procedure: first the steps, then what is expected after them, then what is expected at the end. */
  datatype Place = Place(part: nat, step: nat)

  predicate Earlier(a: Place, b: Place) { a.part < b.part || (a.part == b.part && a.step < b.step) }

  ghost predicate MentionedAt(p: Procedure, at: Place, x: Anchor) {
    match at.part
    case 0 => at.step < |p.steps| && p.steps[at.step].OnAnchor? && p.steps[at.step].anchor == x
    case 1 => at.step < |p.steps| && at.step in p.expectedAfter && p.expectedAfter[at.step] == x
    case _ => at == Place(2, 0) && p.expectedFinal == Some(x)
  }

  function StepPlaces(steps: seq<Step>): (s: seq<Place>)
    ensures |s| == |Clicked(steps)|
  {
    if steps == [] then []
    else StepPlaces(steps[..|steps| - 1]) + if steps[|steps| - 1].OnAnchor? then [Place(0, |steps| - 1)] else []
  }

  function ExpectedPlaces(after: map<nat, Anchor>, n: nat): (s: seq<Place>)
    ensures |s| == |Expected(after, n)|
  {
    if n == 0 then [] else ExpectedPlaces(after, n - 1) + if n - 1 in after then [Place(1, n - 1)] else []
  }

  function Places(p: Procedure): (s: seq<Place>)
    ensures |s| == |Mentioned(p)|
  {
    StepPlaces(p.steps) + ExpectedPlaces(p.expectedAfter, |p.steps|)
      + if p.expectedFinal.Some? then [Place(2, 0)] else []
  }

  ghost predicate Rising(s: seq<Place>) { forall i, j :: 0 <= i < j < |s| ==> Earlier(s[i], s[j]) }

  /** Places in order, each the place of the anchor at its index. */
  ghost predicate Located(p: Procedure, s: seq<Place>, anchors: seq<Anchor>) {
    |s| == |anchors| && Rising(s) && forall i :: 0 <= i < |s| ==> MentionedAt(p, s[i], anchors[i])
  }

  ghost predicate Below(s: seq<Place>, a: Place) { forall i :: 0 <= i < |s| ==> Earlier(s[i], a) }

  lemma LocatedMore(p: Procedure, s: seq<Place>, anchors: seq<Anchor>, a: Place, x: Anchor)
    requires Located(p, s, anchors) && Below(s, a) && MentionedAt(p, a, x)
    ensures Located(p, s + [a], anchors + [x])
  {
  }

  lemma {:induction false} StepPlacesAre(p: Procedure, n: nat)
    requires n <= |p.steps|
    ensures Located(p, StepPlaces(p.steps[..n]), Clicked(p.steps[..n])) && Below(StepPlaces(p.steps[..n]), Place(0, n))
    ensures forall k: nat :: k < n && p.steps[k].OnAnchor? ==> Place(0, k) in StepPlaces(p.steps[..n])
  {
    if n > 0 {
      StepPlacesAre(p, n - 1);
      assert p.steps[..n][..n - 1] == p.steps[..n - 1];
      var last := p.steps[n - 1];
      if last.OnAnchor? {
        LocatedMore(p, StepPlaces(p.steps[..n - 1]), Clicked(p.steps[..n - 1]), Place(0, n - 1), last.anchor);
      }
    }
  }

  lemma {:induction false} ExpectedPlacesAre(p: Procedure, n: nat)
    requires n <= |p.steps|
    ensures Located(p, ExpectedPlaces(p.expectedAfter, n), Expected(p.expectedAfter, n))
    ensures forall i :: 0 <= i < |ExpectedPlaces(p.expectedAfter, n)| ==>
      ExpectedPlaces(p.expectedAfter, n)[i].part == 1
    ensures Below(ExpectedPlaces(p.expectedAfter, n), Place(1, n))
    ensures forall k: nat :: k < n && k in p.expectedAfter ==> Place(1, k) in ExpectedPlaces(p.expectedAfter, n)
  {
    if n > 0 {
      ExpectedPlacesAre(p, n - 1);
      if n - 1 in p.expectedAfter {
        LocatedMore(p, ExpectedPlaces(p.expectedAfter, n - 1), Expected(p.expectedAfter, n - 1), Place(1, n - 1),
          p.expectedAfter[n - 1]);
      }
    }
  }

  lemma LocatedTogether(p: Procedure, s: seq<Place>, anchors: seq<Anchor>, t: seq<Place>, others: seq<Anchor>)
    requires Located(p, s, anchors) && Located(p, t, others) && forall i :: 0 <= i < |t| ==> Below(s, t[i])
    ensures Located(p, s + t, anchors + others)
  {
  }

  lemma BelowLater(s: seq<Place>, a: Place, t: seq<Place>)
    requires Below(s, a) && forall i :: 0 <= i < |t| ==> t[i].part > a.part
    ensures forall i :: 0 <= i < |t| ==> Below(s, t[i])
  {
  }

  lemma PlacesAre(p: Procedure)
    ensures Located(p, Places(p), Mentioned(p))
  {
    StepPlacesAre(p, |p.steps|);
    ExpectedPlacesAre(p, |p.steps|);
    assert p.steps[..|p.steps|] == p.steps;
    var s, t := StepPlaces(p.steps), ExpectedPlaces(p.expectedAfter, |p.steps|);
    var clicked, expected := Clicked(p.steps), Expected(p.expectedAfter, |p.steps|);
    BelowLater(s, Place(0, |p.steps|), t);
    LocatedTogether(p, s, clicked, t, expected);
    if p.expectedFinal.Some? {
      assert Below(s + t, Place(2, 0));
      LocatedMore(p, s + t, clicked + expected, Place(2, 0), p.expectedFinal.value);
    } else {
      assert s + t + [] == s + t && clicked + expected + [] == clicked + expected;
    }
  }

  lemma PlacesAreAll(p: Procedure, at: Place, x: Anchor)
    requires MentionedAt(p, at, x)
    ensures at in Places(p)
  {
    StepPlacesAre(p, |p.steps|);
    ExpectedPlacesAre(p, |p.steps|);
    assert p.steps[..|p.steps|] == p.steps;
  }

  lemma {:induction false} OnceInOrder(anchors: seq<Anchor>, i: nat, j: nat) returns (a: nat)
    requires i < j < |Once(anchors)|
    ensures a < |anchors| && anchors[a] == Once(anchors)[i]
    ensures forall b :: 0 <= b <= a ==> anchors[b] != Once(anchors)[j]
  {
    var rest, last := anchors[..|anchors| - 1], anchors[|anchors| - 1];
    if j < |Once(rest)| {
      a := OnceInOrder(rest, i, j);
    } else {
      OnceKeeps(rest, Once(rest)[i]);
      OnceKeeps(rest, last);
      a :| 0 <= a < |rest| && rest[a] == Once(rest)[i];
    }
  }

  /** Anchors are offered in the order in which they are first mentioned. */
  lemma OfferedInOrder(source: Procedure, explanation: string, checks: Checks, i: nat, j: nat)
    requires Built(source, explanation, checks).Some?
    requires i < j < |Built(source, explanation, checks).value.anchors|
    ensures var anchors := Built(source, explanation, checks).value.anchors;
      exists at :: MentionedAt(source, at, anchors[i])
        && forall b :: MentionedAt(source, b, anchors[j]) ==> Earlier(at, b)
  {
    var all := Mentioned(source);
    var a := OnceInOrder(all, i, j);
    PlacesAre(source);
    var s := Places(source);
    assert MentionedAt(source, s[a], Once(all)[i]);
    forall b | MentionedAt(source, b, Once(all)[j]) ensures Earlier(s[a], b) {
      PlacesAreAll(source, b, Once(all)[j]);
      var k :| 0 <= k < |s| && s[k] == b;
      assert MentionedAt(source, s[k], all[k]);
    }
  }
}
