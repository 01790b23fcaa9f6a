/** What a resolved icon guarantees, and why resolving fails. */
module IconMatch {
  import opened Outcomes
  import opened FramePipeline
  import opened IconAnchor

  ghost predicate IsPassing(g: Grid, m: Match) {
    m.x < g.columns && m.y < g.rows && g.passes(m.x, m.y) && m == WindowAt(g, m.x, m.y)
  }

  // ---- The candidates are the passing windows that come close

  ghost predicate InRowUpTo(g: Grid, m: Match, y: nat, n: nat) {
    m.y == y && m.x < n && g.passes(m.x, m.y) && m == WindowAt(g, m.x, m.y) && Near(m)
  }

  lemma {:induction false} RowCandidates(g: Grid, before: Seen, y: nat, n: nat, m: Match)
    ensures m in RowSeen(g, before, y, n).candidates <==> m in before.candidates || InRowUpTo(g, m, y, n)
  {
    if n > 0 {
      RowCandidates(g, before, y, n - 1, m);
    }
  }

  lemma {:induction false} RowsCandidates(g: Grid, n: nat, m: Match)
    ensures m in RowsSeen(g, n).candidates <==> m.y < n && InRowUpTo(g, m, m.y, g.columns)
  {
    if n > 0 {
      RowsCandidates(g, n - 1, m);
      RowCandidates(g, RowsSeen(g, n - 1), n - 1, g.columns, m);
    }
  }

  lemma CandidatesAre(g: Grid, m: Match)
    ensures m in AllSeen(g).candidates <==> IsPassing(g, m) && Near(m)
  {
    RowsCandidates(g, g.rows, m);
  }

  // ---- Ranking

  ghost predicate Ordered(s: seq<Match>) { forall i, j :: 0 <= i < j < |s| ==> s[i].error <= s[j].error }

  lemma {:induction false} PlacedInOrder(s: seq<Match>, m: Match)
    requires Ordered(s)
    ensures Ordered(Placed(s, m))
  {
    if s != [] && s[|s| - 1].error > m.error {
      PlacedInOrder(s[..|s| - 1], m);
      PlacedBelow(s[..|s| - 1], m, s[|s| - 1]);
    }
  }

  lemma {:induction false} PlacedHasAll(s: seq<Match>, m: Match)
    ensures multiset(Placed(s, m)) == multiset(s) + multiset{m}
  {
    if s != [] && s[|s| - 1].error > m.error {
      PlacedHasAll(s[..|s| - 1], m);
      assert s == s[..|s| - 1] + [s[|s| - 1]];
    }
  }

  lemma {:induction false} PlacedBelow(s: seq<Match>, m: Match, top: Match)
    requires m.error <= top.error && forall i :: 0 <= i < |s| ==> s[i].error <= top.error
    ensures forall i :: 0 <= i < |Placed(s, m)| ==> Placed(s, m)[i].error <= top.error
  {
    if s != [] && s[|s| - 1].error > m.error {
      PlacedBelow(s[..|s| - 1], m, top);
    }
  }

  lemma {:induction false} RankedInOrder(s: seq<Match>, n: nat)
    requires n <= |s|
    ensures Ordered(Ranked(s, n))
  {
    if n > 0 {
      RankedInOrder(s, n - 1);
      PlacedInOrder(Ranked(s, n - 1), s[n - 1]);
    }
  }

  /** Placing the next window into all before it. */
  lemma PlacedFront(s: seq<Match>, n: nat, before: seq<Match>)
    requires 0 < n <= |s| && multiset(before) == multiset(s[..n - 1])
    ensures multiset(Placed(before, s[n - 1])) == multiset(s[..n])
  {
    PlacedHasAll(before, s[n - 1]);
    assert s[..n] == s[..n - 1] + [s[n - 1]];
  }

  lemma {:induction false} RankedHasFront(s: seq<Match>, n: nat)
    requires n <= |s|
    ensures multiset(Ranked(s, n)) == multiset(s[..n])
  {
    if n == 0 {
      assert s[..n] == [] && Ranked(s, n) == [];
    } else {
      RankedHasFront(s, n - 1);
      PlacedFront(s, n, Ranked(s, n - 1));
    }
  }

  lemma ByErrorSorts(s: seq<Match>)
    ensures Ordered(ByError(s)) && multiset(ByError(s)) == multiset(s)
  {
    RankedInOrder(s, |s|);
    RankedHasFront(s, |s|);
    assert s[..|s|] == s;
  }

  lemma RankedHasAll(s: seq<Match>, m: Match)
    ensures m in ByError(s) <==> m in s
  {
    ByErrorSorts(s);
    assert m in multiset(s) <==> m in multiset(ByError(s));
  }

  // ---- The guarantee

  predicate FarFrom(m: Match, n: Match) { Apart(m.x, n.x) > SIDE / 2 || Apart(m.y, n.y) > SIDE / 2 }

  /** Least error of all passing windows, within 2.5%, and no passing window elsewhere within 2 points of it. */
  ghost predicate Clear(g: Grid, m: Match) {
    && IsPassing(g, m) && Good(m)
    && (forall n :: IsPassing(g, n) ==> m.error <= n.error)
    && (forall n :: IsPassing(g, n) && FarFrom(n, m) ==> (n.error - m.error) * 1000 >= 20 * TOTAL)
  }

  lemma BestIsLeast(g: Grid, best: Match, n: Match)
    requires var ranked := ByError(AllSeen(g).candidates); ranked != [] && best == ranked[0]
    requires IsPassing(g, n)
    ensures IsPassing(g, best) && Near(best) && best.error <= n.error
  {
    var ranked := ByError(AllSeen(g).candidates);
    assert best in ranked;
    RankedHasAll(AllSeen(g).candidates, best);
    CandidatesAre(g, best);
    if Near(n) {
      CandidatesAre(g, n);
      RankedHasAll(AllSeen(g).candidates, n);
      var i :| 0 <= i < |ranked| && ranked[i] == n;
      ByErrorSorts(AllSeen(g).candidates);
    }
  }

  /** A window beyond the 4.5% cut-off is 2 points worse than any good one, so the cut-off hides no rival. */
  lemma NoRivalElsewhere(g: Grid, n: Match)
    requires var ranked := ByError(AllSeen(g).candidates);
      ranked != [] && Good(ranked[0]) && forall i :: 0 < i < |ranked| ==> !Rival(ranked[0], ranked[i])
    requires IsPassing(g, n) && FarFrom(n, ByError(AllSeen(g).candidates)[0])
    ensures (n.error - ByError(AllSeen(g).candidates)[0].error) * 1000 >= 20 * TOTAL
  {
    var ranked := ByError(AllSeen(g).candidates);
    if Near(n) {
      CandidatesAre(g, n);
      RankedHasAll(AllSeen(g).candidates, n);
      var i :| 0 <= i < |ranked| && ranked[i] == n;
      assert i > 0;
    }
  }

  lemma ChosenIsClear(g: Grid, m: Match)
    requires Chosen(ByError(AllSeen(g).candidates)) == Ok(m)
    ensures Clear(g, m)
  {
    var ranked := ByError(AllSeen(g).candidates);
    assert m in ranked;
    RankedHasAll(AllSeen(g).candidates, m);
    CandidatesAre(g, m);
    forall n | IsPassing(g, n) ensures m.error <= n.error { BestIsLeast(g, m, n); }
    forall n | IsPassing(g, n) && FarFrom(n, m)
      ensures (n.error - m.error) * 1000 >= 20 * TOTAL
    {
      NoRivalElsewhere(g, n);
    }
  }

  /** The window found is the clear best of all windows that pass the quick look. */
  lemma ResolvedIsClear(a: Icon, f: FrameUpdate, m: Match)
    requires Resolved(a, f) == Ok(m)
    ensures |a.rgb| == BYTES && FrameOk(f) && SIDE <= f.width && SIDE <= f.height && Clear(GridOf(a, f), m)
    ensures Inside(f, m.x, m.y) && m.error == Error(a, f, m.x, m.y, SIDE)
  {
    ChosenIsClear(GridOf(a, f), m);
  }

  /**
   * No window is good, or there is a best one with a rival elsewhere: nothing else makes the search of a sound frame
   * fail.
   */
  lemma FailureHasCause(g: Grid)
    requires Chosen(ByError(AllSeen(g).candidates)).Err?
    ensures var r := Chosen(ByError(AllSeen(g).candidates)).error;
      && (r.NotFound? ==> forall n :: IsPassing(g, n) ==> !Near(n))
      && (r.TooFar? ==> forall n :: IsPassing(g, n) ==> !Good(n))
      && (r.Ambiguous? ==> exists m, n :: Twins(g, m, n))
      && (r.NotFound? || r.TooFar? || r.Ambiguous?)
  {
    var ranked := ByError(AllSeen(g).candidates);
    if ranked == [] {
      forall n | IsPassing(g, n) ensures !Near(n) { CandidatesAre(g, n); }
    } else if !Good(ranked[0]) {
      forall n | IsPassing(g, n) ensures !Good(n) { BestIsLeast(g, ranked[0], n); }
    } else {
      var i :| 0 < i < |ranked| && Rival(ranked[0], ranked[i]);
      RivalsAreTwins(g, i);
      assert Twins(g, ranked[0], ranked[i]);
    }
  }

  /** Two passing windows apart from each other, the first of least error and good, the second within 2 points. */
  ghost predicate Twins(g: Grid, m: Match, n: Match) {
    && IsPassing(g, m) && Good(m) && IsPassing(g, n) && FarFrom(n, m) && (n.error - m.error) * 1000 < 20 * TOTAL
    && forall k :: IsPassing(g, k) ==> m.error <= k.error
  }

  lemma RivalsAreTwins(g: Grid, i: nat)
    requires var ranked := ByError(AllSeen(g).candidates);
      0 < i < |ranked| && Good(ranked[0]) && Rival(ranked[0], ranked[i])
    ensures Twins(g, ByError(AllSeen(g).candidates)[0], ByError(AllSeen(g).candidates)[i])
  {
    var ranked := ByError(AllSeen(g).candidates);
    assert ranked[0] in ranked && ranked[i] in ranked;
    RankedHasAll(AllSeen(g).candidates, ranked[0]);
    RankedHasAll(AllSeen(g).candidates, ranked[i]);
    CandidatesAre(g, ranked[0]);
    CandidatesAre(g, ranked[i]);
    forall k | IsPassing(g, k) ensures ranked[0].error <= k.error { BestIsLeast(g, ranked[0], k); }
  }
}
