/**
 * When rewriting a second time changes nothing, for all accepted texts; and that rewriting a well-formed descriptor is
 * safe.
 */
module SddlFixedPoint {
  import opened Outcomes
  import opened SddlText
  import opened Sddl
  import opened SddlMeaning
  import opened SddlCanonical

  // ---- Searching in a concatenation

  lemma AtAppend(a: string, b: string, pat: string, i: nat)
    requires |pat| == 2
    ensures i + 2 <= |a| ==> (At(a + b, pat, i) <==> At(a, pat, i))
    ensures i >= |a| ==> (At(a + b, pat, i) <==> At(b, pat, i - |a|))
    ensures i + 1 == |a| && At(a + b, pat, i) ==> b != [] && a[i] == pat[0] && b[0] == pat[1]
  {
    var s := a + b;
    if i + 2 <= |a| {
      assert s[i..i + 2] == a[i..i + 2];
    }
    if i >= |a| && i + 2 <= |s| {
      assert s[i..i + 2] == b[i - |a|..i - |a| + 2];
    }
    if i + 1 == |a| && At(s, pat, i) {
      assert s[i..i + 2][0] == a[i] && s[i..i + 2][1] == b[0];
    }
  }

  /** A two-character text occurs in a concatenation exactly inside a part or across the cut. */
  lemma ContainsAppend(a: string, b: string, pat: string)
    requires |pat| == 2
    requires a == [] || b == [] || a[|a| - 1] != pat[0] || b[0] != pat[1]
    ensures Contains(a + b, pat) <==> Contains(a, pat) || Contains(b, pat)
  {
    if Contains(a + b, pat) {
      var i: nat :| At(a + b, pat, i);
      AtAppend(a, b, pat, i);
      if i + 2 <= |a| {
        assert At(a, pat, i);
      } else if i >= |a| {
        assert At(b, pat, i - |a|);
      }
    }
    if Contains(a, pat) {
      var i: nat :| At(a, pat, i);
      AtAppend(a, b, pat, i);
    }
    if Contains(b, pat) {
      var i: nat :| At(b, pat, i);
      AtAppend(a, b, pat, i + |a|);
    }
  }

  lemma ShortContainsNothing(s: string, pat: string)
    requires |s| < |pat|
    ensures !Contains(s, pat)
  {
  }

  // ---- Where a SACL marker can hide

  lemma {:induction false} JoinMarker(fields: seq<string>)
    requires fields != []
    ensures Contains(Join(fields, ';'), "S:") <==> exists i :: 0 <= i < |fields| && Contains(fields[i], "S:")
  {
    if |fields| > 1 {
      var rest := Join(fields[1..], ';');
      JoinMarker(fields[1..]);
      ShortContainsNothing(";", "S:");
      ContainsAppend(fields[0], ";", "S:");
      ContainsAppend(fields[0] + ";", rest, "S:");
      assert Contains(Join(fields, ';'), "S:") <==> Contains(fields[0], "S:") || Contains(rest, "S:");
      if i :| 0 <= i < |fields| && Contains(fields[i], "S:") {
        if i > 0 {
          assert fields[1..][i - 1] == fields[i];
        }
      }
    }
  }

  ghost predicate MarkerOutsideFlags(a: Ace) {
    Contains(a.rights, "S:") || Contains(a.objectId, "S:") || Contains(a.inheritId, "S:") || Contains(a.sid, "S:")
  }

  lemma RenderedMarker(a: Ace)
    ensures Contains(Rendered(a), "S:") <==> Contains(a.flags, "S:") || MarkerOutsideFlags(a)
  {
    var fields := Fields(a);
    var inner := Join(fields, ';');
    JoinMarker(fields);
    ShortContainsNothing("(", "S:");
    ShortContainsNothing(")", "S:");
    ContainsAppend("(", inner, "S:");
    ContainsAppend("(" + inner, ")", "S:");
    ShortContainsNothing(fields[0], "S:");
    assert fields[1] == a.flags && fields[2] == a.rights && fields[3] == a.objectId && fields[4] == a.inheritId
      && fields[5] == a.sid;
  }

  lemma {:induction false} AcesMarker(aces: seq<Ace>)
    ensures Contains(AcesText(aces), "S:") <==> exists i :: 0 <= i < |aces| && Contains(Rendered(aces[i]), "S:")
  {
    if aces == [] {
      ShortContainsNothing("", "S:");
    } else {
      AcesMarker(aces[1..]);
      assert RenderedAll(aces)[1..] == RenderedAll(aces[1..]);
      var first := Rendered(aces[0]);
      assert first[|first| - 1] == ')';
      ContainsAppend(first, AcesText(aces[1..]), "S:");
      if i :| 0 <= i < |aces| && Contains(Rendered(aces[i]), "S:") {
        if i > 0 {
          assert aces[1..][i - 1] == aces[i];
        }
      }
    }
  }

  lemma TextMarker(d: Descriptor)
    requires Sound(d)
    ensures Contains(Text(d), "S:") <==>
      Contains(d.prefix, "S:") || Contains(d.control, "S:") || Contains(AcesText(d.aces), "S:")
  {
    var aces := AcesText(d.aces);
    var n := |d.prefix|;
    assert d.prefix[n - 2..n] == "D:";
    assert d.prefix[n - 2..n][1] == d.prefix[n - 1] == ':';
    ContainsAppend(d.prefix, d.control, "S:");
    if d.aces != [] {
      assert aces[0] == Rendered(d.aces[0])[0] == '(';
    }
    ContainsAppend(d.prefix + d.control, aces, "S:");
  }

  // ---- The condition

  /** Nothing is left that a second pass would delete or refuse. */
  ghost predicate Final(c: Descriptor) {
    && !Contains(c.control, "AI") && !Contains(c.control, "AR") && !Contains(c.control, "S:")
    && forall i :: 0 <= i < |c.aces| ==>
         !Contains(c.aces[i].flags, "S:") && ('P' in c.control ==> !Contains(c.aces[i].flags, "ID"))
  }

  lemma {:induction false} RemovedKeepsChar(s: string, pat: string, c: char)
    requires |pat| == 2 && c !in pat
    ensures c in Removed(s, pat) <==> c in s
  {
    if |s| < 2 {
    } else if s[..2] == pat {
      RemovedKeepsChar(s[2..], pat, c);
      assert s == s[..2] + s[2..];
    } else {
      RemovedKeepsChar(s[1..], pat, c);
      assert s == [s[0]] + s[1..];
    }
  }

  lemma ProtectedIsStable(control: string)
    ensures Protected(control) <==> 'P' in control
  {
    RemovedKeepsChar(control, "AI", 'P');
    RemovedKeepsChar(Removed(control, "AI"), "AR", 'P');
  }

  lemma ResidualStable(control: string)
    ensures Residual(control) == control <==> !Contains(control, "AI") && !Contains(control, "AR")
  {
    RemovedStable(control, "AI");
    RemovedStable(control, "AR");
    RemovedStable(Removed(control, "AI"), "AR");
  }

  /** A first pass never introduces a SACL marker except in what it deletes from. */
  lemma CanonicalMarker(d: Descriptor)
    requires Sound(d) && !Contains(Text(d), "S:")
    ensures var c := Canonical(d);
      Contains(Text(c), "S:") <==>
        Contains(c.control, "S:") || exists i :: 0 <= i < |c.aces| && Contains(c.aces[i].flags, "S:")
  {
    var c := Canonical(d);
    CanonicalSound(d);
    TextMarker(d);
    TextMarker(c);
    AcesMarker(d.aces);
    AcesMarker(c.aces);
    forall i | 0 <= i < |c.aces|
      ensures Contains(Rendered(c.aces[i]), "S:") <==> Contains(c.aces[i].flags, "S:")
    {
      var a := CanonicalMembers(d, c.aces[i]);
      var k :| 0 <= k < |d.aces| && d.aces[k] == a;
      RenderedMarker(c.aces[i]);
      RenderedMarker(a);
    }
  }

  // ---- A stable descriptor is its own canonical form

  lemma {:induction false} SortedStays(run: seq<Ace>)
    requires Ordered(RenderedAll(run))
    ensures SortedRun(run) == run
  {
    if run != [] {
      assert RenderedAll(run[1..]) == RenderedAll(run)[1..];
      SortedStays(run[1..]);
      if |run| > 1 {
        assert Leq(RenderedAll(run)[0], RenderedAll(run)[1]);
      }
      assert run == [run[0]] + run[1..];
    }
  }

  lemma SortedTwice(run: seq<Ace>)
    ensures SortedRun(SortedRun(run)) == SortedRun(run)
  {
    SortedRendered(run);
    SortedOrdered(RenderedAll(run));
    SortedStays(SortedRun(run));
  }

  lemma SortedRunsTwice(runs: seq<seq<Ace>>)
    ensures SortedRuns(SortedRuns(runs)) == SortedRuns(runs)
  {
    forall i | 0 <= i < |runs|
      ensures SortedRuns(SortedRuns(runs))[i] == SortedRuns(runs)[i]
    {
      SortedTwice(runs[i]);
    }
  }

  /** Sorting the runs of a list whose runs are sorted gives the list back. */
  lemma CanonicalAcesStay(aces: seq<Ace>)
    ensures SortedFlat(Runs(SortedFlat(Runs(aces)))) == SortedFlat(Runs(aces))
  {
    RunsOfSortedFlat(aces);
    SortedRunsTwice(Runs(aces));
    SortedFlatIsFlat(Runs(aces));
    SortedFlatIsFlat(SortedRuns(Runs(aces)));
  }

  lemma StripStays(aces: seq<Ace>, protected: bool)
    requires protected ==> forall i :: 0 <= i < |aces| ==> !Contains(aces[i].flags, "ID")
    ensures StrippedAll(aces, protected) == aces
  {
    forall i | 0 <= i < |aces|
      ensures Stripped(aces[i], protected) == aces[i]
    {
      RemovedStable(aces[i].flags, "ID");
    }
  }

  lemma StableIsCanonical(d: Descriptor)
    requires Final(Canonical(d))
    ensures Canonical(Canonical(d)) == Canonical(d)
  {
    var c := Canonical(d);
    ResidualStable(c.control);
    ProtectedIsStable(c.control);
    StripStays(c.aces, Protected(c.control));
    CanonicalAcesStay(StrippedAll(d.aces, Protected(d.control)));
  }

  // ---- A fixed point has nothing left to delete

  function FlagLength(aces: seq<Ace>): nat {
    if aces == [] then 0 else |aces[0].flags| + FlagLength(aces[1..])
  }

  lemma {:induction false} FlagLengthAppend(a: seq<Ace>, b: seq<Ace>)
    ensures FlagLength(a + b) == FlagLength(a) + FlagLength(b)
  {
    if a == [] {
      assert a + b == b;
    } else {
      FlagLengthAppend(a[1..], b);
      assert (a + b)[1..] == a[1..] + b;
    }
  }

  lemma {:induction false} FlagLengthInsert(x: Ace, aces: seq<Ace>)
    ensures FlagLength(InsertAce(x, aces)) == |x.flags| + FlagLength(aces)
  {
    if aces != [] && !Leq(Rendered(x), Rendered(aces[0])) {
      FlagLengthInsert(x, aces[1..]);
      assert InsertAce(x, aces)[1..] == InsertAce(x, aces[1..]);
    } else {
      assert ([x] + aces)[1..] == aces;
    }
  }

  lemma {:induction false} FlagLengthSorted(run: seq<Ace>)
    ensures FlagLength(SortedRun(run)) == FlagLength(run)
  {
    if run != [] {
      FlagLengthSorted(run[1..]);
      FlagLengthInsert(run[0], SortedRun(run[1..]));
    }
  }

  lemma {:induction false} FlagLengthFlat(runs: seq<seq<Ace>>)
    ensures FlagLength(SortedFlat(runs)) == FlagLength(Flat(runs))
  {
    if runs != [] {
      var n := |runs| - 1;
      FlagLengthFlat(runs[..n]);
      FlagLengthSorted(runs[n]);
      FlagLengthAppend(SortedFlat(runs[..n]), SortedRun(runs[n]));
      FlagLengthAppend(Flat(runs[..n]), runs[n]);
    }
  }

  lemma {:induction false} FlagLengthStripped(aces: seq<Ace>)
    ensures FlagLength(StrippedAll(aces, true)) <= FlagLength(aces)
    ensures FlagLength(StrippedAll(aces, true)) == FlagLength(aces) ==>
      forall i :: 0 <= i < |aces| ==> !Contains(aces[i].flags, "ID")
  {
    if aces != [] {
      FlagLengthStripped(aces[1..]);
      RemovedStable(aces[0].flags, "ID");
      assert StrippedAll(aces, true)[1..] == StrippedAll(aces[1..], true);
      assert StrippedAll(aces, true)[0] == Stripped(aces[0], true);
    }
  }

  lemma FixedIsStable(c: Descriptor)
    requires Canonical(c) == c
    ensures !Contains(c.control, "AI") && !Contains(c.control, "AR")
    ensures 'P' in c.control ==> forall i :: 0 <= i < |c.aces| ==> !Contains(c.aces[i].flags, "ID")
  {
    ResidualStable(c.control);
    ProtectedIsStable(c.control);
    if Protected(c.control) {
      var stripped := StrippedAll(c.aces, true);
      FlagLengthFlat(Runs(stripped));
      RunsCover(stripped);
      FlagLengthStripped(c.aces);
    }
  }

  // ---- Main results

  /**
   * A condition on the descriptor as it was read: deleting AI and AR from its control flags leaves neither of them and
   * no S:, and no ACE's flags hold S: or, under protection, ID once ID is deleted from them.
   */
  ghost predicate LeavesNothing(d: Descriptor) {
    var control, protected := Residual(d.control), Protected(d.control);
    && !Contains(control, "AI") && !Contains(control, "AR") && !Contains(control, "S:")
    && forall i :: 0 <= i < |d.aces| ==> LeavesNothingIn(d.aces[i], protected)
  }

  ghost predicate LeavesNothingIn(a: Ace, protected: bool) {
    !Contains(Stripped(a, protected).flags, "S:") && (protected ==> !Contains(Removed(a.flags, "ID"), "ID"))
  }

  /** Every ACE of the list is in the sorted runs. */
  lemma {:induction false} SortedFlatHasAll(runs: seq<seq<Ace>>, a: Ace)
    requires a in Flat(runs)
    ensures a in SortedFlat(runs)
  {
    var n := |runs| - 1;
    if a in Flat(runs[..n]) {
      SortedFlatHasAll(runs[..n], a);
    } else {
      assert a in runs[n] && a in SortedRun(runs[n]);
    }
  }

  lemma StrippedInCanonical(d: Descriptor, i: nat)
    requires i < |d.aces|
    ensures Stripped(d.aces[i], Protected(d.control)) in Canonical(d).aces
  {
    var stripped := StrippedAll(d.aces, Protected(d.control));
    RunsCover(stripped);
    assert stripped[i] in stripped;
    SortedFlatHasAll(Runs(stripped), stripped[i]);
  }

  lemma FinalLeavesNothing(d: Descriptor)
    requires Final(Canonical(d))
    ensures LeavesNothing(d)
  {
    var c := Canonical(d);
    forall i | 0 <= i < |d.aces|
      ensures LeavesNothingIn(d.aces[i], Protected(d.control))
    {
      StrippedInCanonical(d, i);
      var j :| 0 <= j < |c.aces| && c.aces[j] == Stripped(d.aces[i], Protected(d.control));
    }
  }

  /** What is left after the first pass can be told from the descriptor before it. */
  lemma FinalExactly(d: Descriptor)
    ensures Final(Canonical(d)) <==> LeavesNothing(d)
  {
    var c := Canonical(d);
    if LeavesNothing(d) {
      forall i | 0 <= i < |c.aces|
        ensures !Contains(c.aces[i].flags, "S:") && ('P' in c.control ==> !Contains(c.aces[i].flags, "ID"))
      {
        var a := CanonicalMembers(d, c.aces[i]);
        var k :| 0 <= k < |d.aces| && d.aces[k] == a;
        assert LeavesNothingIn(d.aces[k], Protected(d.control));
      }
    }
    if Final(c) {
      FinalLeavesNothing(d);
    }
  }

  /**
   * Rewriting a second time changes nothing if and only if the first time leaves nothing to delete or refuse in what
   * was read.
   */
  lemma FixedPointExactly(s: string)
    requires Parsed(s).Ok?
    ensures Normalized(Normalized(s).value) == Normalized(s) <==> LeavesNothing(Parsed(s).value)
  {
    FirstPassIsFinal(s);
    FinalExactly(Parsed(s).value);
  }

  /** The rewritten text is a fixed point exactly when nothing deletable or refused is left in it. */
  lemma FirstPassIsFinal(s: string)
    requires Parsed(s).Ok?
    ensures Normalized(Normalized(s).value) == Normalized(s) <==> Final(Canonical(Parsed(s).value))
  {
    var d := Parsed(s).value;
    var c := Canonical(d);
    ParsedText(s);
    CanonicalSound(d);
    TextParsed(c);
    CanonicalMarker(d);
    assert HasSacl(Text(c)) <==> Contains(Text(c), "S:");
    if Final(c) {
      StableIsCanonical(d);
    }
    if Normalized(Text(c)) == Ok(Text(c)) {
      CanonicalSound(c);
      SoundTextInjective(Canonical(c), c);
      FixedIsStable(c);
    }
  }

  // ---- A text on which the two passes differ

  /** A text of control flags alone, without an S that could begin a SACL, is rewritten to its residual flags. */
  lemma BareTextNormalized(control: string)
    requires '(' !in control && 'S' !in control
    ensures Parsed("D:" + control) == Ok(Descriptor("D:", control, []))
    ensures Normalized("D:" + control) == Ok("D:" + Residual(control))
  {
    var d, s := Descriptor("D:", control, []), "D:" + control;
    assert At(d.prefix, "D:", 0);
    assert Text(d) == s && Text(Canonical(d)) == "D:" + Residual(control);
    TextParsed(d);
    assert 'S' !in s;
    forall i: nat
      ensures !At(s, "S:", i)
    {
      if i + 2 <= |s| {
        assert s[i..i + 2][0] == s[i];
      }
    }
  }

  lemma NestedWords()
    ensures Residual("AAII") == "AI" && Residual("AI") == ""
  {
    assert "AAII"[1..] == "AII" && "AII"[..2] == "AI" && "AII"[2..] == "I" && "AAII"[..2] == "AA";
    assert Removed("AII", "AI") == "I";
    assert "AI"[..2] == "AI" && "AI"[2..] == "";
    assert Removed("AAII", "AI") == ['A'] + "I";
    assert Removed("AI", "AR") == "AI";
  }

  /** Deleting AI can leave another AI: this text is accepted, changed by the first pass and again by the second. */
  lemma SecondPassDeletesMore()
    ensures Parsed("D:AAII").Ok? && Normalized("D:AAII") == Ok("D:AI")
    ensures Normalized("D:AI") == Ok("D:") && Normalized("D:AAII") != Normalized("D:AI")
  {
    NestedWords();
    BareTextNormalized("AAII");
    BareTextNormalized("AI");
    NestedTexts();
  }

  lemma NestedTexts()
    ensures "D:" + "AAII" == "D:AAII" && "D:" + "AI" == "D:AI" && "D:" + "" == "D:"
    ensures "D:AI" != "D:"
  {
    assert |"D:AI"| == 4;
  }

  /** Control flags made of the words P, AI and AR. */
  predicate ControlWords(control: string) {
    || control == []
    || (control[0] == 'P' && ControlWords(control[1..]))
    || (|control| >= 2 && (control[..2] == "AI" || control[..2] == "AR") && ControlWords(control[2..]))
  }

  predicate OnlyP(s: string) { forall i :: 0 <= i < |s| ==> s[i] == 'P' }

  lemma {:induction false} WordsRemoved(control: string, pat: string)
    requires ControlWords(control) && (pat == "AI" || pat == "AR")
    ensures ControlWords(Removed(control, pat))
    ensures pat == "AR" && !Contains(control, "AI") ==> OnlyP(Removed(control, pat))
    ensures !Contains(Removed(control, pat), pat)
    decreases |control|, 1
  {
    if |control| < 2 {
      ShortContainsNothing(control, pat);
    } else if control[0] == 'P' && ControlWords(control[1..]) {
      WordsRemoved(control[1..], pat);
      ShiftAt(control, "AI");
      var rest := control[1..];
      assert control == ['P'] + rest && rest != "" && ['P', rest[0]][0] != pat[0];
      LeadingPKept(Removed(rest, pat), pat);
    } else {
      WordsRemovedWord(control, pat);
    }
  }

  lemma LeadingPKept(rest: string, pat: string)
    requires ControlWords(rest) && (pat == "AI" || pat == "AR") && !Contains(rest, pat)
    ensures ControlWords(['P'] + rest) && !Contains(['P'] + rest, pat)
    ensures OnlyP(rest) ==> OnlyP(['P'] + rest)
  {
    assert (['P'] + rest)[1..] == rest;
    ShortContainsNothing("P", pat);
    ContainsAppend("P", rest, pat);
  }

  lemma {:induction false} WordsRemovedWord(control: string, pat: string)
    requires |control| >= 2 && (control[..2] == "AI" || control[..2] == "AR") && ControlWords(control[2..])
    requires (pat == "AI" || pat == "AR")
    ensures ControlWords(Removed(control, pat))
    ensures pat == "AR" && !Contains(control, "AI") ==> OnlyP(Removed(control, pat))
    ensures !Contains(Removed(control, pat), pat)
    decreases |control|, 0
  {
    var word, rest := control[..2], control[2..];
    WordsRemoved(rest, pat);
    assert control == word + rest;
    if word == pat {
      if Contains(rest, "AI") {
        var i: nat :| At(rest, "AI", i);
        AtAppend(word, rest, "AI", i + 2);
      }
    } else {
      var kept := Removed(rest, pat);
      assert rest != "" ==> [word[1], rest[0]][0] != pat[0];
      RemovedSkipsWord(word, rest, pat);
      assert (word + kept)[..2] == word && (word + kept)[2..] == kept;
      assert pat == "AR" ==> At(control, "AI", 0);
      assert forall i: nat :: i != 0 ==> !At(word, pat, i);
      assert word[0..2] == word;
      ContainsAppend(word, kept, pat);
    }
  }

  lemma OnlyPContainsNothing(s: string, pat: string)
    requires OnlyP(s) && |pat| == 2 && (pat[0] != 'P' || pat[1] != 'P')
    ensures !Contains(s, pat)
  {
    forall i: nat
      ensures !At(s, pat, i)
    {
      if i + 2 <= |s| {
        assert s[i..i + 2][0] == s[i] && s[i..i + 2][1] == s[i + 1];
      }
    }
  }

  lemma FlagTextContains(flags: string)
    requires FlagText(flags)
    ensures !Contains(flags, "S:") && (Contains(flags, "ID") ==> HasFlag(flags, "ID"))
  {
    forall i: nat | i < |flags|
      ensures flags[i] != ':' && (i % 2 == 0 ==> flags[i] != 'D')
    {
      var k: nat := i / 2;
      assert FlagWord(flags[2 * k..2 * k + 2]);
      assert flags[2 * k..2 * k + 2][i - 2 * k] == flags[i];
    }
    forall i: nat
      ensures !At(flags, "S:", i)
    {
      if i + 2 <= |flags| {
        assert flags[i..i + 2][1] == flags[i + 1];
      }
    }
    if Contains(flags, "ID") {
      var i: nat :| At(flags, "ID", i);
      assert flags[i..i + 2][1] == flags[i + 1];
      var k: nat := i / 2;
      assert i == 2 * k;
      assert flags[2 * k..2 * k + 2] == "ID";
    }
  }

  lemma WellFormedIsFinal(d: Descriptor)
    requires ControlWords(d.control) && WellFormedFlags(d.aces)
    ensures Final(Canonical(d)) && WellFormedFlags(Canonical(d).aces) && ControlWords(Canonical(d).control)
  {
    var c := Canonical(d);
    WordsRemoved(d.control, "AI");
    WordsRemoved(Removed(d.control, "AI"), "AR");
    OnlyPContainsNothing(c.control, "AI");
    OnlyPContainsNothing(c.control, "AR");
    OnlyPContainsNothing(c.control, "S:");
    ProtectedIsStable(d.control);
    RemovedKeepsChar(d.control, "AI", 'P');
    RemovedKeepsChar(Removed(d.control, "AI"), "AR", 'P');
    forall i | 0 <= i < |c.aces|
      ensures FlagText(c.aces[i].flags) && !Contains(c.aces[i].flags, "S:")
      ensures 'P' in c.control ==> !Contains(c.aces[i].flags, "ID")
    {
      var a := CanonicalMembers(d, c.aces[i]);
      var k :| 0 <= k < |d.aces| && d.aces[k] == a;
      RemovedWord(a.flags, "IO");
      FlagTextContains(c.aces[i].flags);
    }
  }

  /**
   * On well-formed descriptors, rewriting is accepted again, changes nothing the second time, and grants every token
   * exactly what the original granted.
   */
  lemma WellFormedRewriting(s: string, wanted: set<nat>, q: Request)
    requires Parsed(s).Ok? && ControlWords(Parsed(s).value.control) && WellFormedFlags(Parsed(s).value.aces)
    ensures var n := Normalized(s).value;
      && Normalized(n) == Ok(n) && Parsed(n).Ok?
      && (Grants(Parsed(n).value.aces, wanted, q) <==> Grants(Parsed(s).value.aces, wanted, q))
      && Parsed(n).value.prefix == Parsed(s).value.prefix
  {
    var d := Parsed(s).value;
    ParsedText(s);
    WellFormedIsFinal(d);
    FirstPassIsFinal(s);
    CanonicalSound(d);
    TextParsed(Canonical(d));
    WellFormedIsSafe(d.aces);
    CanonicalGrantsTheSame(d, wanted, q);
  }
}
