/**
 * What the canonical form is, position by position and without its own vocabulary of runs and keys; and what is
 * accepted.
 */
module SddlLaws {
  import opened Outcomes
  import opened SddlText
  import opened Sddl
  import opened SddlMeaning
  import opened SddlCanonical

  // ---- Byte order and deletion

  /** The first place where two texts differ decides, and a proper beginning comes first. */
  ghost predicate Before(a: string, b: string) {
    a <= b || exists k :: DecidedAt(a, b, k)
  }

  ghost predicate DecidedAt(a: string, b: string, k: int) {
    0 <= k < |a| && k < |b| && a[..k] == b[..k] && a[k] < b[k]
  }

  lemma DecidedLater(c: char, a: string, b: string, k: nat)
    ensures DecidedAt([c] + a, [c] + b, k + 1) <==> DecidedAt(a, b, k)
  {
    if k < |a| && k < |b| {
      assert ([c] + a)[..k + 1] == [c] + a[..k] && ([c] + b)[..k + 1] == [c] + b[..k];
      assert ([c] + a)[..k + 1][1..] == a[..k] && ([c] + b)[..k + 1][1..] == b[..k];
    }
  }

  /** Behind a common first character, the rest decides. */
  lemma BeforeBehind(c: char, a: string, b: string)
    ensures Before([c] + a, [c] + b) <==> Before(a, b)
  {
    assert [c] + a <= [c] + b <==> a <= b by { assert ([c] + a)[1..] == a && ([c] + b)[1..] == b; }
    if k :| DecidedAt(a, b, k) {
      DecidedLater(c, a, b, k);
    }
    if k :| DecidedAt([c] + a, [c] + b, k) {
      assert k > 0;
      DecidedLater(c, a, b, k - 1);
    }
  }

  lemma {:induction false} LeqExactly(a: string, b: string)
    ensures Leq(a, b) <==> Before(a, b)
  {
    if a != [] && b != [] && a[0] == b[0] {
      LeqExactly(a[1..], b[1..]);
      BeforeBehind(a[0], a[1..], b[1..]);
      assert a == [a[0]] + a[1..] && b == [b[0]] + b[1..];
    } else if a != [] && b != [] {
      FirstDecides(a, b);
    }
  }

  lemma FirstDecides(a: string, b: string)
    requires a != [] && b != [] && a[0] != b[0]
    ensures Before(a, b) <==> a[0] < b[0]
  {
    assert DecidedAt(a, b, 0) <==> a[0] < b[0];
    forall k: int | 0 < k < |a| && k < |b|
      ensures a[..k] != b[..k]
    {
      assert a[..k][0] == a[0] && b[..k][0] == b[0];
    }
  }

  lemma RestOfCut(s: string, i: nat)
    requires 0 < i && i + 2 <= |s|
    ensures s[1..][..i - 1] == s[1..i] && s[1..][i - 1 + 2..] == s[i + 2..] && [s[0]] + s[1..i] == s[..i]
  {
  }

  lemma RemovedSkips(s: string, pat: string)
    requires |pat| == 2 && |s| >= 2 && !At(s, pat, 0)
    ensures Removed(s, pat) == [s[0]] + Removed(s[1..], pat)
  {
  }

  lemma Regroup(c: char, a: string, b: string)
    ensures [c] + (a + b) == ([c] + a) + b
  {
  }

  /**
   * Deleting a word cuts out its first occurrence and goes on behind it. Without one, `RemovedStable`, nothing changes.
   */
  lemma {:induction false} RemovedCutsFirst(s: string, pat: string, i: nat)
    requires |pat| == 2 && At(s, pat, i) && forall j: nat :: j < i ==> !At(s, pat, j)
    ensures Removed(s, pat) == s[..i] + Removed(s[i + 2..], pat)
    decreases i
  {
    if i == 0 {
      assert s[..2] == pat;
    } else {
      ShiftAt(s, pat);
      RemovedSkips(s, pat);
      RemovedCutsFirst(s[1..], pat, i - 1);
      RestOfCut(s, i);
      Regroup(s[0], s[1..i], Removed(s[i + 2..], pat));
    }
  }

  // ---- Positions

  /** Same type, and both inherited or both explicit. */
  ghost predicate Alike(a: Ace, b: Ace) {
    a.kind == b.kind && (Contains(a.flags, "ID") <==> Contains(b.flags, "ID"))
  }

  /** A neighbour of another type or origin begins here, or the list begins or ends. */
  ghost predicate Break(aces: seq<Ace>, n: nat)
    requires n <= |aces|
  {
    n == 0 || n == |aces| || !Alike(aces[n - 1], aces[n])
  }

  /**
   * `after` arranges `before`: type and origin stay at their positions, neighbours that are alike stand in byte order,
   * and between any two breaks there are the same ACE texts.
   */
  ghost predicate Arranged(before: seq<Ace>, after: seq<Ace>) {
    && |after| == |before|
    && (forall i :: 0 <= i < |before| ==> Alike(after[i], before[i]))
    && (forall i :: 0 <= i < |before| - 1 && Alike(before[i], before[i + 1]) ==>
          Before(Rendered(after[i]), Rendered(after[i + 1])))
    && (forall n :: 0 <= n <= |before| && Break(before, n) ==>
          multiset(RenderedAll(after[..n])) == multiset(RenderedAll(before[..n])))
  }

  lemma KeyIsAlike(a: Ace, b: Ace)
    ensures Key(a) == Key(b) <==> Alike(a, b)
  {
  }

  ghost predicate AllAlike(run: seq<Ace>) {
    forall i, j :: 0 <= i < |run| && 0 <= j < |run| ==> Alike(run[i], run[j])
  }

  ghost predicate InOrder(run: seq<Ace>) {
    forall i :: 0 <= i < |run| - 1 ==> Before(Rendered(run[i]), Rendered(run[i + 1]))
  }

  /** A sorted run arranges it. */
  ghost predicate RunArranged(run: seq<Ace>, sorted: seq<Ace>) {
    && run != [] && |sorted| == |run| && AllAlike(run) && InOrder(sorted)
    && (forall i :: 0 <= i < |run| ==> Alike(sorted[i], run[i]))
    && multiset(RenderedAll(sorted)) == multiset(RenderedAll(run))
  }

  lemma SortedRunArranged(run: seq<Ace>)
    requires run != [] && OneKey(run, Key(run[0]))
    ensures RunArranged(run, SortedRun(run))
  {
    var sorted := SortedRun(run);
    SortedRendered(run);
    SortedOrdered(RenderedAll(run));
    SortedRunKey(run, Key(run[0]));
    assert |RenderedAll(sorted)| == |multiset(RenderedAll(sorted))|
        == |multiset(RenderedAll(run))| == |RenderedAll(run)|;
    forall i, j | 0 <= i < |run| && 0 <= j < |run|
      ensures Alike(run[i], run[j]) && Alike(sorted[i], run[i])
    {
      KeyIsAlike(run[i], run[j]);
      KeyIsAlike(sorted[i], run[i]);
    }
    forall i | 0 <= i < |sorted| - 1
      ensures Before(Rendered(sorted[i]), Rendered(sorted[i + 1]))
    {
      assert Leq(RenderedAll(sorted)[i], RenderedAll(sorted)[i + 1]);
      LeqExactly(Rendered(sorted[i]), Rendered(sorted[i + 1]));
    }
  }

  lemma InsideRun(before: seq<Ace>, run: seq<Ace>, n: nat)
    requires AllAlike(run) && n <= |before + run|
    ensures |before| < n < |before + run| ==> !Break(before + run, n)
  {
    if |before| < n < |before + run| {
      assert Alike(run[n - 1 - |before|], run[n - |before|]);
    }
  }

  lemma ArrangedBreak(before: seq<Ace>, after: seq<Ace>, run: seq<Ace>, sorted: seq<Ace>, n: nat)
    requires Arranged(before, after) && RunArranged(run, sorted) && n <= |before + run| && Break(before + run, n)
    ensures multiset(RenderedAll((after + sorted)[..n])) == multiset(RenderedAll((before + run)[..n]))
  {
    var all, now := before + run, after + sorted;
    InsideRun(before, run, n);
    if n <= |before| {
      assert all[..n] == before[..n] && now[..n] == after[..n];
      if 0 < n < |before| {
        assert all[n - 1] == before[n - 1] && all[n] == before[n];
      }
      assert Break(before, n);
    } else {
      assert Break(before, |before|) && before[..|before|] == before && after[..|before|] == after;
      assert all[..n] == all && now[..n] == now;
      RenderedAppend(before, run);
      RenderedAppend(after, sorted);
    }
  }

  lemma ArrangedAppend(before: seq<Ace>, after: seq<Ace>, run: seq<Ace>, sorted: seq<Ace>)
    requires Arranged(before, after) && RunArranged(run, sorted)
    requires before != [] ==> !Alike(before[|before| - 1], run[0])
    ensures Arranged(before + run, after + sorted)
  {
    var all, now, m := before + run, after + sorted, |before|;
    forall i | 0 <= i < |all|
      ensures Alike(now[i], all[i])
    {
      if i >= m {
        assert Alike(sorted[i - m], run[i - m]);
      }
    }
    forall i | 0 <= i < |all| - 1 && Alike(all[i], all[i + 1])
      ensures Before(Rendered(now[i]), Rendered(now[i + 1]))
    {
      if i >= m {
        assert Before(Rendered(sorted[i - m]), Rendered(sorted[i - m + 1]));
      }
    }
    forall n | 0 <= n <= |all| && Break(all, n)
      ensures multiset(RenderedAll(now[..n])) == multiset(RenderedAll(all[..n]))
    {
      ArrangedBreak(before, after, run, sorted, n);
    }
  }

  lemma {:induction false} RunsArranged(runs: seq<seq<Ace>>)
    requires Maximal(runs)
    ensures Arranged(Flat(runs), SortedFlat(runs))
  {
    if runs != [] {
      var front, last := runs[..|runs| - 1], runs[|runs| - 1];
      assert runs == front + [last];
      LastRunApart(front, last);
      RunsArranged(front);
      SortedRunArranged(last);
      if Flat(front) != [] {
        KeyIsAlike(Flat(front)[|Flat(front)| - 1], last[0]);
      }
      ArrangedAppend(Flat(front), SortedFlat(front), last, SortedRun(last));
    }
  }

  /** Under a protected DACL, each ACE without the word ID in its flags; otherwise each as it is. */
  function Kept(d: Descriptor): (r: seq<Ace>)
    ensures |r| == |d.aces|
  {
    var protected := 'P' in Removed(Removed(d.control, "AI"), "AR");
    seq(|d.aces|, i requires 0 <= i < |d.aces| =>
      d.aces[i].(flags := if protected then Removed(d.aces[i].flags, "ID") else d.aces[i].flags))
  }

  /**
   * The canonical form keeps the prefix, the control flags without AI and AR, and every ACE, arranged: type and origin
   * at every position as they were, so that nothing moves between explicit and inherited or past another type.
   */
  lemma CanonicalArranges(d: Descriptor)
    ensures var c := Canonical(d);
      c.prefix == d.prefix && c.control == Removed(Removed(d.control, "AI"), "AR") && Arranged(Kept(d), c.aces)
  {
    var stripped := StrippedAll(d.aces, Protected(d.control));
    assert stripped == Kept(d);
    RunsMaximal(stripped);
    RunsCover(stripped);
    RunsArranged(Runs(stripped));
  }

  // ---- What is accepted

  /**
   * An ACE is read from between the parentheses at the front; without them it is invalid, with other than six fields
   * unsupported.
   */
  lemma AceRefusals(tail: string)
    requires tail != []
    ensures tail[0] != '(' || ')' !in tail ==> ParsedAces(tail) == Err(InvalidAce)
    ensures forall close: nat | 0 < close < |tail| && tail[0] == '(' && tail[close] == ')' && ')' !in tail[..close] ::
      var fields := Split(tail[1..close], ';');
      |fields| != 6 || (fields[0] != "A" && fields[0] != "D") ==> ParsedAces(tail) == Err(UnsupportedAce)
  {
    var close := Find(tail, ")");
    if close.Some? {
      AtChar(tail, ')', close.value);
    }
    forall k: nat
      ensures At(tail, ")", k) <==> k < |tail| && tail[k] == ')'
    {
      AtChar(tail, ')', k);
    }
    forall k: nat | k < |tail| && tail[k] == ')' && ')' !in tail[..k]
      ensures close == Some(k)
    {
      FirstClose(tail, k);
    }
  }

  lemma FirstClose(tail: string, k: nat)
    requires k < |tail| && tail[k] == ')' && ')' !in tail[..k]
    ensures Find(tail, ")") == Some(k)
  {
    AtChar(tail, ')', k);
    forall j: nat | j < k
      ensures !At(tail, ")", j)
    {
      AtChar(tail, ')', j);
      assert tail[..k][j] == tail[j];
    }
    FindIs(tail, ")", k);
  }

  lemma {:induction false} AceErrors(tail: string)
    ensures ParsedAces(tail).Err? ==> ParsedAces(tail).error == InvalidAce || ParsedAces(tail).error == UnsupportedAce
  {
    if tail != [] && tail[0] == '(' && Find(tail, ")").Some? {
      var close := Find(tail, ")").value;
      AtChar(tail, ')', close);
      AceErrors(tail[close + 1..]);
    }
  }

  lemma ParsedExactly(s: string)
    ensures ParsedDacl(s).Ok? <==> exists d :: Sound(d) && Text(d) == s
  {
    if ParsedDacl(s).Ok? {
      ParsedText(s);
    }
    if d :| Sound(d) && Text(d) == s {
      TextParsed(d);
    }
  }

  /** A text is rewritten exactly if it has no SACL marker and is the text of a descriptor of standard ACEs. */
  lemma AcceptedExactly(s: string)
    ensures Normalized(s).Ok? <==> !Contains(s, "S:") && exists d :: Sound(d) && Text(d) == s
  {
    ParsedExactly(s);
  }

  /** A SACL is refused before a missing DACL, and that before the ACEs are read. */
  lemma RefusalsInOrder(s: string)
    ensures Contains(s, "S:") <==> Normalized(s) == Err(SaclUnsupported)
    ensures !Contains(s, "S:") && !Contains(s, "D:") <==> Normalized(s) == Err(DaclRequired)
  {
    if DaclStart(s).Some? {
      var start := DaclStart(s).value;
      AceErrors(s[start + ControlEnd(s[start..])..]);
    }
  }

  // ---- An explicit ACE stays before an inherited one

  const EXPLICIT := Ace(Allow, "OICI", "FA", "", "", "SY")
  const INHERITED := Ace(Allow, "ID", "FA", "", "", "BA")

  lemma PlainFlags()
    ensures !Contains(EXPLICIT.flags, "ID") && Contains(INHERITED.flags, "ID")
  {
    assert At("ID", "ID", 0);
    forall i: nat
      ensures !At("OICI", "ID", i)
    {
      if i + 2 <= 4 {
        assert "OICI"[i..i + 2][1] == "OICI"[i + 1];
      }
    }
  }

  /** Two ACEs of different origin are their own canonical order. */
  lemma TwoOrigins(a: Ace, b: Ace)
    requires !Alike(a, b)
    ensures SortedFlat(Runs([a, b])) == [a, b]
  {
    KeyIsAlike(a, b);
    SingleRun(a);
    RunsSnoc([a], b);
    assert [a] + [b] == [a, b] && [a, b][..1] == [a];
    var runs := Runs([a]);
    assert Runs([a, b]) == runs + [[b]];
    assert (runs + [[b]])[..|runs|] == runs;
    assert SortedRun([b]) == [b];
  }

  function Unprotected(a: Ace, b: Ace): Descriptor { Descriptor("D:", "", [a, b]) }

  lemma UnprotectedStays(a: Ace, b: Ace)
    requires !Alike(a, b)
    ensures Canonical(Unprotected(a, b)) == Unprotected(a, b)
  {
    TwoOrigins(a, b);
    assert StrippedAll([a, b], false) == [a, b];
  }

  /**
   * An explicit ACE in front of an inherited one of the same type, and the other way round, are both left as they are:
   * the two descriptors never get the same canonical form.
   */
  lemma OriginsAreNotSwapped()
    ensures Canonical(Unprotected(EXPLICIT, INHERITED)) == Unprotected(EXPLICIT, INHERITED)
    ensures Canonical(Unprotected(INHERITED, EXPLICIT)) == Unprotected(INHERITED, EXPLICIT)
    ensures Text(Canonical(Unprotected(EXPLICIT, INHERITED))) != Text(Canonical(Unprotected(INHERITED, EXPLICIT)))
  {
    PlainFlags();
    TwoOriginsStay(EXPLICIT, INHERITED);
  }

  lemma TwoOriginsStay(a: Ace, b: Ace)
    requires Plain(a) && Plain(b) && !Alike(a, b)
    ensures Canonical(Unprotected(a, b)) == Unprotected(a, b) && Canonical(Unprotected(b, a)) == Unprotected(b, a)
    ensures Text(Canonical(Unprotected(a, b))) != Text(Canonical(Unprotected(b, a)))
  {
    UnprotectedStays(a, b);
    UnprotectedStays(b, a);
    if Text(Unprotected(a, b)) == Text(Unprotected(b, a)) {
      SameTextSameFirst(a, b);
    }
  }

  lemma SameTextSameFirst(a: Ace, b: Ace)
    requires Plain(a) && Plain(b) && Text(Unprotected(a, b)) == Text(Unprotected(b, a))
    ensures a == b
  {
    SoundPair(a, b);
    SoundPair(b, a);
    SoundTextInjective(Unprotected(a, b), Unprotected(b, a));
    assert Unprotected(a, b).aces[0] == Unprotected(b, a).aces[0];
  }

  lemma SoundPair(a: Ace, b: Ace)
    requires Plain(a) && Plain(b)
    ensures Sound(Unprotected(a, b))
  {
    assert At("D:", "D:", 0);
  }
}
