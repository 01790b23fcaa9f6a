/** Adopting a compiler's proposal: named input slots and visible assertions, added to a demonstrated procedure. */
module Adoption {
  import opened Characters
  import opened Outcomes

  const MAX_STEPS := 200

  datatype Anchor = Anchor(text: string, context: string)

  /**
   * `OnAnchor` is a click on a visible anchor; `Fixed` stands for every step that is neither a slot nor on an anchor.
   */
  datatype Step = TextRequired | Parameter(name: string) | OnAnchor(anchor: Anchor, how: nat) | Fixed(what: nat)

  datatype Procedure = Procedure(
    header: nat, steps: seq<Step>, expectedAfter: map<nat, Anchor>, expectedFinal: Option<Anchor>)

  /** The checks of procedures and of anchor text. */
  datatype Checks = Checks(valid: Procedure -> bool, safe: Anchor -> bool)

  datatype Context = Context(explanation: string, anchors: seq<Anchor>, source: Procedure)

  datatype ParameterEdit = ParameterEdit(step: nat, name: string, reason: string)

  datatype AssertionEdit = AssertionEdit(after: Option<nat>, anchor: nat, reason: string)

  datatype Proposal = Proposal(
    parameters: seq<ParameterEdit>, assertions: seq<AssertionEdit>, assumptions: seq<string>, missing: seq<string>)

  // ---- The anchors offered

  function Clicked(steps: seq<Step>): seq<Anchor> {
    if steps == [] then []
    else
      var last := steps[|steps| - 1];
      Clicked(steps[..|steps| - 1]) + if last.OnAnchor? then [last.anchor] else []
  }

  function Expected(after: map<nat, Anchor>, n: nat): seq<Anchor> {
    if n == 0 then [] else Expected(after, n - 1) + if n - 1 in after then [after[n - 1]] else []
  }

  /** Every anchor of the procedure: clicks, then the assertions after steps, then the final one. */
  function Mentioned(p: Procedure): seq<Anchor> {
    Clicked(p.steps) + Expected(p.expectedAfter, |p.steps|)
      + if p.expectedFinal.Some? then [p.expectedFinal.value] else []
  }

  function Once(anchors: seq<Anchor>): seq<Anchor> {
    if anchors == [] then []
    else
      var before, last := Once(anchors[..|anchors| - 1]), anchors[|anchors| - 1];
      if last in before then before else before + [last]
  }

  predicate AllSafe(anchors: seq<Anchor>, checks: Checks) {
    forall i :: 0 <= i < |anchors| ==> checks.safe(anchors[i]) && |anchors[i].context| <= 256
  }

  function Built(source: Procedure, explanation: string, checks: Checks): Option<Context> {
    if !checks.valid(source) || Blank(explanation) || |explanation| > 4096
       || !AllSafe(Mentioned(source), checks)
    then None
    else Some(Context(explanation, Once(Mentioned(source)), source))
  }

  method NewContext(source: Procedure, explanation: string, checks: Checks) returns (r: Option<Context>)
    ensures r == Built(source, explanation, checks)
  {
    if !checks.valid(source) || Blank(explanation) || |explanation| > 4096 {
      return None;
    }
    var mentioned := Mentioned(source);
    var anchors: seq<Anchor> := [];
    var i := 0;
    while i < |mentioned|
      invariant i <= |mentioned| && anchors == Once(mentioned[..i])
      invariant AllSafe(mentioned[..i], checks)
    {
      assert mentioned[..i + 1][..i] == mentioned[..i];
      var anchor := mentioned[i];
      if !checks.safe(anchor) || |anchor.context| > 256 {
        return None;
      }
      if anchor !in anchors {
        anchors := anchors + [anchor];
      }
      i := i + 1;
    }
    assert mentioned[..i] == mentioned;
    return Some(Context(explanation, anchors, source));
  }

  // ---- What a proposal may say

  predicate Bounded(s: string) { !Blank(s) && |s| <= 1024 && NoControls(s) }

  predicate ProposalOk(p: Proposal) {
    && |p.parameters| <= 200 && |p.assertions| <= 201 && |p.assumptions| <= 8 && |p.missing| <= 8
    && (forall i :: 0 <= i < |p.parameters| ==> p.parameters[i].step < MAX_STEPS && Bounded(p.parameters[i].reason))
    && (forall i :: 0 <= i < |p.assertions| ==>
          && (p.assertions[i].after.Some? ==> p.assertions[i].after.value < MAX_STEPS)
          && p.assertions[i].anchor < 2 * MAX_STEPS + 1 && Bounded(p.assertions[i].reason))
    && (forall i :: 0 <= i < |p.assumptions| ==> Bounded(p.assumptions[i]))
    && (forall i :: 0 <= i < |p.missing| ==> Bounded(p.missing[i]))
    && (p.missing == [] || (p.parameters == [] && p.assertions == []))
  }

  predicate IsNameChar(c: char) { 'a' <= c <= 'z' || 'A' <= c <= 'Z' || '0' <= c <= '9' || c == '_' }

  predicate NameOk(s: string) { 1 <= |s| <= 64 && forall i :: 0 <= i < |s| ==> IsNameChar(s[i]) }

  function Names(steps: seq<Step>): set<string> {
    set i | 0 <= i < |steps| && steps[i].Parameter? :: steps[i].name
  }

  // ---- The edits, one after the other

  predicate ParameterFits(source: Procedure, e: ParameterEdit) {
    NameOk(e.name) && e.name !in Names(source.steps) && e.step < |source.steps| && source.steps[e.step].TextRequired?
  }

  /** The first `n` edits name different slots, each with a name of its own. */
  predicate ParametersFit(source: Procedure, edits: seq<ParameterEdit>, n: nat)
    requires n <= |edits|
  {
    && (forall i :: 0 <= i < n ==> ParameterFits(source, edits[i]))
    && (forall i, j :: 0 <= i < j < n ==> edits[i].step != edits[j].step && edits[i].name != edits[j].name)
  }

  function Named(steps: seq<Step>, edits: seq<ParameterEdit>, n: nat): (r: seq<Step>)
    requires n <= |edits| && forall i :: 0 <= i < n ==> edits[i].step < |steps|
    ensures |r| == |steps|
  {
    if n == 0 then steps else Named(steps, edits, n - 1)[edits[n - 1].step := Parameter(edits[n - 1].name)]
  }

  predicate AssertionFits(source: Procedure, anchors: seq<Anchor>, e: AssertionEdit) {
    && e.anchor < |anchors|
    && match e.after
       case Some(i) =>
         i < |source.steps| && (i in source.expectedAfter ==> source.expectedAfter[i] == anchors[e.anchor])
       case None => source.expectedFinal.None? || source.expectedFinal == Some(anchors[e.anchor])
  }

  predicate AssertionsFit(source: Procedure, anchors: seq<Anchor>, edits: seq<AssertionEdit>, n: nat)
    requires n <= |edits|
  {
    && (forall i :: 0 <= i < n ==> AssertionFits(source, anchors, edits[i]))
    && (forall i, j :: 0 <= i < j < n ==> edits[i].after != edits[j].after)
  }

  datatype Assertions = Assertions(after: map<nat, Anchor>, final: Option<Anchor>)

  function Placed(a: Assertions, after: Option<nat>, anchor: Anchor): Assertions {
    match after
    case Some(i) => a.(after := a.after[i := anchor])
    case None => a.(final := Some(anchor))
  }

  function Asserted(a: Assertions, anchors: seq<Anchor>, edits: seq<AssertionEdit>, n: nat): Assertions
    requires n <= |edits| && forall i :: 0 <= i < n ==> edits[i].anchor < |anchors|
  {
    if n == 0 then a else Placed(Asserted(a, anchors, edits, n - 1), edits[n - 1].after, anchors[edits[n - 1].anchor])
  }

  predicate Changes(p: Proposal) { p.parameters != [] || p.assertions != [] }

  predicate Fits(p: Proposal, context: Context, source: Procedure, reviewed: bool) {
    && ProposalOk(p) && reviewed && context.source == source && p.missing == [] && Changes(p)
    && ParametersFit(source, p.parameters, |p.parameters|)
    && AssertionsFit(source, context.anchors, p.assertions, |p.assertions|)
  }

  function Edited(p: Proposal, context: Context, source: Procedure): Procedure
    requires ParametersFit(source, p.parameters, |p.parameters|)
    requires AssertionsFit(source, context.anchors, p.assertions, |p.assertions|)
  {
    var start := Assertions(source.expectedAfter, source.expectedFinal);
    var a := Asserted(start, context.anchors, p.assertions, |p.assertions|);
    var steps := Named(source.steps, p.parameters, |p.parameters|);
    source.(steps := steps, expectedAfter := a.after, expectedFinal := a.final)
  }

  /** The edited procedure, if the proposal fits, was reviewed, and what it makes is a sound procedure. */
  function Adopted(p: Proposal, context: Context, source: Procedure, reviewed: bool,
      checks: Checks): Option<Procedure> {
    if !Fits(p, context, source, reviewed) || !checks.valid(Edited(p, context, source)) then None
    else Some(Edited(p, context, source))
  }

  method NameSlots(source: Procedure, edits: seq<ParameterEdit>) returns (steps: seq<Step>, ok: bool)
    ensures ok == ParametersFit(source, edits, |edits|)
    ensures ok ==> steps == Named(source.steps, edits, |edits|)
  {
    steps := source.steps;
    ok := false;
    var positions: set<nat>, names: set<string> := {}, {};
    var i := 0;
    while i < |edits|
      invariant i <= |edits| && ParametersFit(source, edits, i) && steps == Named(source.steps, edits, i)
      invariant positions == set k | 0 <= k < i :: edits[k].step
      invariant names == set k | 0 <= k < i :: edits[k].name
    {
      var e := edits[i];
      if e.step in positions || e.name in names || !ParameterFits(source, e) {
        return;
      }
      positions, names := positions + {e.step}, names + {e.name};
      steps := steps[e.step := Parameter(e.name)];
      i := i + 1;
    }
    ok := true;
  }

  method AddAssertions(source: Procedure, anchors: seq<Anchor>, edits: seq<AssertionEdit>) returns (a: Assertions,
      ok: bool)
    ensures ok == AssertionsFit(source, anchors, edits, |edits|)
    ensures ok ==> a == Asserted(Assertions(source.expectedAfter, source.expectedFinal), anchors, edits, |edits|)
  {
    a := Assertions(source.expectedAfter, source.expectedFinal);
    ok := false;
    var places: set<Option<nat>> := {};
    var i := 0;
    while i < |edits|
      invariant i <= |edits| && AssertionsFit(source, anchors, edits, i)
      invariant a == Asserted(Assertions(source.expectedAfter, source.expectedFinal), anchors, edits, i)
      invariant places == set k | 0 <= k < i :: edits[k].after
    {
      var e := edits[i];
      if e.after in places || !AssertionFits(source, anchors, e) {
        return;
      }
      places := places + {e.after};
      match e.after {
        case Some(at) => a := a.(after := a.after[at := anchors[e.anchor]]);
        case None => a := a.(final := Some(anchors[e.anchor]));
      }
      i := i + 1;
    }
    ok := true;
  }

  method Adopt(p: Proposal, context: Context, source: Procedure, reviewed: bool,
      checks: Checks) returns (r: Option<Procedure>)
    ensures r == Adopted(p, context, source, reviewed, checks)
  {
    if !ProposalOk(p) || !reviewed || context.source != source || p.missing != [] || !Changes(p) {
      return None;
    }
    var steps, named := NameSlots(source, p.parameters);
    if !named {
      return None;
    }
    var a, asserted := AddAssertions(source, context.anchors, p.assertions);
    if !asserted {
      return None;
    }
    var result := source.(steps := steps, expectedAfter := a.after, expectedFinal := a.final);
    return if checks.valid(result) then Some(result) else None;
  }
}
