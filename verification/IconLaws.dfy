/**
 * What the search for an icon answers exactly: the thresholds in numbers, the error as a distance, and every refusal.
 */
module IconLaws {
  import opened Outcomes
  import opened FramePipeline
  import opened IconAnchor
  import opened IconMatch
  import opened IconCapture

  // ---- Thresholds

  /** The largest error is 440640; 4.5 and 2.5 percent of it, and 2 points, in whole errors. */
  lemma ThresholdsExactly(m: Match, n: Match)
    ensures Near(m) <==> m.error <= 19828
    ensures Good(m) <==> m.error <= 11016
    ensures m.error <= n.error ==>
      (Rival(m, n) <==> n.error - m.error <= 8812 && !(-12 <= m.x - n.x <= 12 && -12 <= m.y - n.y <= 12))
  {
  }

  /** The sum of the squared distances of `n` times each value from `total`. */
  function Deviations(s: seq<int>, n: int, total: int): int {
    if s == [] then 0
    else
      var d := n * s[|s| - 1] - total;
      Deviations(s[..|s| - 1], n, total) + d * d
  }

  lemma SquareOfDifference(n: int, v: int, t: int)
    ensures (n * v - t) * (n * v - t) == n * n * (v * v) - 2 * n * t * v + t * t
  {
    assert (n * v) * (n * v) == n * n * (v * v) && (n * v) * t == n * t * v;
  }

  lemma SpreadSums(a: int, b: int, c: int, sum: int, squares: int, k: int, v: int)
    ensures a * squares - b * sum + k * c + (a * (v * v) - b * v + c) ==
      a * (squares + v * v) - b * (sum + v) + (k + 1) * c
  {
  }

  lemma {:induction false} DeviationsAre(s: seq<int>, n: int, t: int)
    ensures Deviations(s, n, t) == n * n * Squares(s) - 2 * n * t * Sum(s) + |s| * (t * t)
  {
    if s != [] {
      var rest, v := s[..|s| - 1], s[|s| - 1];
      DeviationsAre(rest, n, t);
      SquareOfDifference(n, v, t);
      SpreadSums(n * n, 2 * n * t, t * t, Sum(rest), Squares(rest), |rest|, v);
    }
  }

  lemma DeviationsOfMean(s: seq<int>)
    ensures Deviations(s, |s|, Sum(s)) == |s| * (|s| * Squares(s) - Sum(s) * Sum(s))
  {
    DeviationsAre(s, |s|, Sum(s));
    MeanStep(|s|, Sum(s), Squares(s));
  }

  lemma MeanStep(n: int, t: int, q: int)
    ensures n * n * q - 2 * n * t * t + n * (t * t) == n * (n * q - t * t)
  {
    assert n * (n * q - t * t) == n * n * q - n * (t * t);
    assert 2 * n * t * t == 2 * (n * (t * t));
  }

  /** A template has 24 rows of 24 colours, some two of its bytes 64 apart, and a variance of 200 or more. */
  lemma TemplateExactly(a: Icon)
    ensures TemplateOk(a) <==>
      && |a.rgb| == 1728 && (forall b :: b in a.rgb ==> 0 <= b <= 255)
      && (exists b, c :: b in a.rgb && c in a.rgb && b - c >= 64)
      && Deviations(a.rgb, 1728, Sum(a.rgb)) >= 200 * 1728 * 1728 * 1728
  {
    DeviationsOfMean(a.rgb);
    if |a.rgb| == 1728 {
      var spread := |a.rgb| * Squares(a.rgb) - Sum(a.rgb) * Sum(a.rgb);
      assert Deviations(a.rgb, 1728, Sum(a.rgb)) == 1728 * spread;
      assert forall i :: 0 <= i < |a.rgb| ==> a.rgb[i] in a.rgb;
    }
  }

  /** A frame has four bytes for each of its pixels, in 32 MB at most. */
  lemma FrameExactly(f: FrameUpdate)
    ensures FrameOk(f) <==> 1 <= f.width * f.height <= 8388608 && |f.pixels| == 4 * (f.width * f.height)
  {
  }

  // ---- One window

  predicate Within(i: int, j: int, far: int) { -far <= i - j <= far }

  const LOOKED_AT := {0, 5, 11, 17, 23}

  /** The look at 25 pixels of the window, red, green and blue of each. */
  lemma PassesExactly(a: Icon, f: FrameUpdate, x: nat, y: nat)
    requires |a.rgb| == BYTES && FrameOk(f) && Inside(f, x, y)
    ensures Passes(a, f, x, y) <==>
      forall sx: nat, sy: nat, c: nat :: sx in LOOKED_AT && sy in LOOKED_AT && c < 3 ==>
        Within(IconByte(a, sx, sy, c), FrameByte(f, x + sx, y + sy, c), 40)
  {
    if Passes(a, f, x, y) {
      forall sx: nat, sy: nat, c: nat | sx in LOOKED_AT && sy in LOOKED_AT && c < 3
        ensures Within(IconByte(a, sx, sy, c), FrameByte(f, x + sx, y + sy, c), 40)
      {
        var i, j := Sample(sx), Sample(sy);
        assert SamplePasses(a, f, x, y, i, j);
        assert ByteError(a, f, x, y, SAMPLES[i], SAMPLES[j], c) <= 40;
      }
    } else {
      var i, j :| 0 <= i < |SAMPLES| && 0 <= j < |SAMPLES| && !SamplePasses(a, f, x, y, i, j);
      var c :| 0 <= c < 3 && !(ByteError(a, f, x, y, SAMPLES[i], SAMPLES[j], c) <= 40);
      assert SAMPLES[i] in LOOKED_AT && SAMPLES[j] in LOOKED_AT;
      assert !Within(IconByte(a, SAMPLES[i], SAMPLES[j], c), FrameByte(f, x + SAMPLES[i], y + SAMPLES[j], c), 40);
    }
  }

  function Sample(s: nat): (i: nat)
    requires s in LOOKED_AT
    ensures i < |SAMPLES| && SAMPLES[i] == s
  {
    if s == 0 then 0 else if s == 5 then 1 else if s == 11 then 2 else if s == 17 then 3 else 4
  }

  /** How far two sequences of bytes are apart in all. */
  function Distance(s: seq<int>, t: seq<int>): nat
    requires |s| == |t|
  {
    if s == [] then 0
    else
      var d := s[|s| - 1] - t[|t| - 1];
      Distance(s[..|s| - 1], t[..|t| - 1]) + if d < 0 then -d else d
  }

  lemma {:induction false} DistanceAdds(s: seq<int>, t: seq<int>, u: seq<int>, v: seq<int>)
    requires |s| == |t| && |u| == |v|
    ensures Distance(s + u, t + v) == Distance(s, t) + Distance(u, v)
  {
    if u == [] {
      assert s + u == s && t + v == t;
    } else {
      DistanceAdds(s, t, u[..|u| - 1], v[..|v| - 1]);
      assert (s + u)[..|s + u| - 1] == s + u[..|u| - 1];
      assert (t + v)[..|t + v| - 1] == t + v[..|v| - 1];
    }
  }

  function PixelBytes(f: FrameUpdate, x: nat, y: nat): (s: seq<int>)
    requires FrameOk(f) && x < f.width && y < f.height
    ensures |s| == 3
  {
    [FrameByte(f, x, y, 0), FrameByte(f, x, y, 1), FrameByte(f, x, y, 2)]
  }

  lemma PixelDistance(a: Icon, f: FrameUpdate, x: nat, y: nat, sx: nat, sy: nat)
    requires |a.rgb| == BYTES && FrameOk(f) && Inside(f, x, y) && sx < SIDE && sy < SIDE
    ensures sy * 72 + sx * 3 + 3 <= |a.rgb|
    ensures PixelError(a, f, x, y, sx, sy) ==
      Distance(a.rgb[sy * 72 + sx * 3..sy * 72 + sx * 3 + 3], PixelBytes(f, x + sx, y + sy))
  {
    var i := sy * 72 + sx * 3;
    DistanceOfThree(a.rgb[i..i + 3], PixelBytes(f, x + sx, y + sy));
  }

  lemma DistanceOfThree(s: seq<int>, t: seq<int>)
    requires |s| == |t| == 3
    ensures Distance(s, t) == Apart(s[0], t[0]) + Apart(s[1], t[1]) + Apart(s[2], t[2])
  {
    assert s == [s[0]] + [s[1]] + [s[2]] && t == [t[0]] + [t[1]] + [t[2]];
    DistanceAdds([s[0]] + [s[1]], [t[0]] + [t[1]], [s[2]], [t[2]]);
    DistanceAdds([s[0]], [t[0]], [s[1]], [t[1]]);
    DistanceOfOne(s[0], t[0]);
    DistanceOfOne(s[1], t[1]);
    DistanceOfOne(s[2], t[2]);
  }

  lemma DistanceOfOne(i: int, j: int)
    ensures Distance([i], [j]) == Apart(i, j)
  {
    assert Distance([i][..0], [j][..0]) == 0;
  }

  lemma DistanceSplits(s: seq<int>, i: nat, k: nat, j: nat, t: seq<int>, u: seq<int>)
    requires i <= k <= j <= |s| && |t| == k - i && |u| == j - k
    ensures Distance(s[i..j], t + u) == Distance(s[i..k], t) + Distance(s[k..j], u)
  {
    assert s[i..j] == s[i..k] + s[k..j];
    DistanceAdds(s[i..k], t, s[k..j], u);
  }

  lemma RowGrows(f: FrameUpdate, x: nat, y: nat, n: nat)
    requires FrameOk(f) && x + n < f.width && y < f.height
    ensures RowBytes(f, x, y, x + n + 1) == RowBytes(f, x, y, x + n) + PixelBytes(f, x + n, y)
  {
  }

  /** The first `n` pixels of a row are apart by what a copy of them would be. */
  ghost predicate RowAgrees(a: Icon, f: FrameUpdate, x: nat, y: nat, sy: nat, n: nat)
    requires |a.rgb| == BYTES && FrameOk(f) && Inside(f, x, y) && sy < SIDE && n <= SIDE
  {
    RowError(a, f, x, y, sy, n) == Distance(a.rgb[sy * 72..sy * 72 + n * 3], RowBytes(f, x, y + sy, x + n))
  }

  lemma RowStep(s: seq<int>, i: nat, m: nat, t: seq<int>, u: seq<int>, whole: seq<int>, row: nat, pixel: nat)
    requires i + m * 3 + 3 <= |s| && |t| == m * 3 && |u| == 3 && whole == t + u
    requires row == Distance(s[i..i + m * 3], t) && pixel == Distance(s[i + m * 3..i + m * 3 + 3], u)
    ensures Distance(s[i..i + (m + 1) * 3], whole) == row + pixel
  {
    DistanceSplits(s, i, i + m * 3, i + m * 3 + 3, t, u);
  }

  lemma RowAgreesStep(a: Icon, f: FrameUpdate, x: nat, y: nat, sy: nat, m: nat)
    requires |a.rgb| == BYTES && FrameOk(f) && Inside(f, x, y) && sy < SIDE && m < SIDE
    requires RowAgrees(a, f, x, y, sy, m)
    ensures RowAgrees(a, f, x, y, sy, m + 1)
  {
    PixelDistance(a, f, x, y, m, sy);
    RowGrows(f, x, y + sy, m);
    RowStep(a.rgb, sy * 72, m, RowBytes(f, x, y + sy, x + m), PixelBytes(f, x + m, y + sy),
      RowBytes(f, x, y + sy, x + m + 1), RowError(a, f, x, y, sy, m), PixelError(a, f, x, y, m, sy));
  }

  lemma {:induction false} RowDistance(a: Icon, f: FrameUpdate, x: nat, y: nat, sy: nat, n: nat)
    requires |a.rgb| == BYTES && FrameOk(f) && Inside(f, x, y) && sy < SIDE && n <= SIDE
    ensures RowAgrees(a, f, x, y, sy, n)
  {
    if n > 0 {
      RowDistance(a, f, x, y, sy, n - 1);
      RowAgreesStep(a, f, x, y, sy, n - 1);
    }
  }

  lemma WindowGrows(f: FrameUpdate, x: nat, y: nat, n: nat)
    requires FrameOk(f) && x + SIDE <= f.width && y + n < f.height
    ensures WindowBytes(f, x, y, y + n + 1) == WindowBytes(f, x, y, y + n) + RowBytes(f, x, y + n, x + SIDE)
  {
  }

  /** And so are the first `n` rows. */
  ghost predicate RowsAgree(a: Icon, f: FrameUpdate, x: nat, y: nat, n: nat)
    requires |a.rgb| == BYTES && FrameOk(f) && Inside(f, x, y) && n <= SIDE
  {
    Error(a, f, x, y, n) == Distance(a.rgb[0..n * 72], WindowBytes(f, x, y, y + n))
  }

  lemma RowsStep(s: seq<int>, m: nat, t: seq<int>, u: seq<int>, whole: seq<int>, rows: nat, row: nat)
    requires m * 72 + 72 <= |s| && |t| == m * 72 && |u| == 72 && whole == t + u
    requires rows == Distance(s[0..m * 72], t) && row == Distance(s[m * 72..m * 72 + 72], u)
    ensures Distance(s[0..(m + 1) * 72], whole) == rows + row
  {
    DistanceSplits(s, 0, m * 72, m * 72 + 72, t, u);
  }

  lemma RowsAgreeStep(a: Icon, f: FrameUpdate, x: nat, y: nat, m: nat)
    requires |a.rgb| == BYTES && FrameOk(f) && Inside(f, x, y) && m < SIDE && RowsAgree(a, f, x, y, m)
    ensures RowsAgree(a, f, x, y, m + 1)
  {
    RowDistance(a, f, x, y, m, SIDE);
    WindowGrows(f, x, y, m);
    RowsStep(a.rgb, m, WindowBytes(f, x, y, y + m), RowBytes(f, x, y + m, x + SIDE), WindowBytes(f, x, y, y + m + 1),
      Error(a, f, x, y, m), RowError(a, f, x, y, m, SIDE));
  }

  lemma {:induction false} RowsDistance(a: Icon, f: FrameUpdate, x: nat, y: nat, n: nat)
    requires |a.rgb| == BYTES && FrameOk(f) && Inside(f, x, y) && n <= SIDE
    ensures RowsAgree(a, f, x, y, n)
  {
    if n > 0 {
      RowsDistance(a, f, x, y, n - 1);
      RowsAgreeStep(a, f, x, y, n - 1);
    }
  }

  /** The error of a window is how far the template is from what a capture of that window would copy. */
  lemma ErrorIsDistance(a: Icon, f: FrameUpdate, x: nat, y: nat)
    requires |a.rgb| == BYTES && FrameOk(f) && Inside(f, x, y)
    ensures Error(a, f, x, y, SIDE) == Distance(a.rgb, Template(f, x, y).rgb)
  {
    RowsDistance(a, f, x, y, SIDE);
    assert a.rgb[0..SIDE * 72] == a.rgb;
  }

  // ---- The window chosen

  /** Row by row, and in each row from the left. */
  ghost predicate Before(m: Match, n: Match) { m.y < n.y || (m.y == n.y && m.x < n.x) }

  ghost predicate InScanOrder(s: seq<Match>) { forall i, j :: 0 <= i < j < |s| ==> Before(s[i], s[j]) }

  lemma {:induction false} RowInScanOrder(g: Grid, before: Seen, y: nat, n: nat)
    requires InScanOrder(before.candidates) && forall m :: m in before.candidates ==> m.y < y
    ensures var s := RowSeen(g, before, y, n).candidates;
      InScanOrder(s) && forall m :: m in s ==> m.y < y || (m.y == y && m.x < n)
  {
    if n > 0 {
      RowInScanOrder(g, before, y, n - 1);
    }
  }

  lemma {:induction false} RowsInScanOrder(g: Grid, n: nat)
    ensures InScanOrder(RowsSeen(g, n).candidates) && forall m :: m in RowsSeen(g, n).candidates ==> m.y < n
  {
    if n > 0 {
      RowsInScanOrder(g, n - 1);
      RowInScanOrder(g, RowsSeen(g, n - 1), n - 1, g.columns);
    }
  }

  lemma {:induction false} PlacedHead(s: seq<Match>, m: Match)
    requires s != [] && Ordered(s)
    ensures Placed(s, m) != [] && Placed(s, m)[0] == if m.error < s[0].error then m else s[0]
  {
    if s[|s| - 1].error > m.error {
      if |s| > 1 {
        PlacedHead(s[..|s| - 1], m);
      } else {
        assert Placed(s[..0], m) == [m];
      }
    }
  }

  /** The first window of least error. */
  ghost predicate FirstLeast(s: seq<Match>, n: nat, i: int)
    requires n <= |s|
  {
    && 0 <= i < n && (forall j :: 0 <= j < n ==> s[i].error <= s[j].error)
    && (forall j :: 0 <= j < i ==> s[i].error < s[j].error)
  }

  lemma FirstLeastOn(s: seq<Match>, n: nat, i: int)
    requires n < |s| && FirstLeast(s, n, i)
    ensures FirstLeast(s, n + 1, if s[n].error < s[i].error then n else i)
  {
  }

  lemma {:induction false} RankedHead(s: seq<Match>, n: nat) returns (i: int)
    requires 0 < n <= |s|
    ensures Ranked(s, n) != [] && FirstLeast(s, n, i) && Ranked(s, n)[0] == s[i]
  {
    if n == 1 {
      assert Ranked(s, 0) == [];
      i := 0;
    } else {
      i := RankedHead(s, n - 1);
      RankedInOrder(s, n - 1);
      PlacedHead(Ranked(s, n - 1), s[n - 1]);
      FirstLeastOn(s, n - 1, i);
      i := if s[n - 1].error < s[i].error then n - 1 else i;
    }
  }

  /** No passing window with the same error comes before it. */
  ghost predicate First(g: Grid, m: Match) {
    forall n :: IsPassing(g, n) && n.error == m.error ==> n == m || Before(m, n)
  }

  lemma CandidateAt(g: Grid, m: Match) returns (i: nat)
    requires IsPassing(g, m) && Near(m)
    ensures i < |AllSeen(g).candidates| && AllSeen(g).candidates[i] == m
  {
    CandidatesAre(g, m);
    i :| 0 <= i < |AllSeen(g).candidates| && AllSeen(g).candidates[i] == m;
  }

  lemma HeadIsFirst(g: Grid, n: Match)
    requires IsPassing(g, n) && Near(n)
    ensures var ranked := ByError(AllSeen(g).candidates);
      && ranked != [] && ranked[0].error <= n.error
      && (ranked[0].error == n.error ==> ranked[0] == n || Before(ranked[0], n))
  {
    var s := AllSeen(g).candidates;
    var j := CandidateAt(g, n);
    var i := RankedHead(s, |s|);
    RowsInScanOrder(g, g.rows);
    assert i < j ==> Before(s[i], s[j]);
  }

  lemma ClearIsChosen(g: Grid, m: Match)
    requires Clear(g, m) && First(g, m)
    ensures Chosen(ByError(AllSeen(g).candidates)) == Ok(m)
  {
    var ranked := ByError(AllSeen(g).candidates);
    HeadIsFirst(g, m);
    BestIsLeast(g, ranked[0], m);
    forall i | 0 < i < |ranked| ensures !Rival(ranked[0], ranked[i]) {
      assert ranked[i] in ranked;
      RankedHasAll(AllSeen(g).candidates, ranked[i]);
      CandidatesAre(g, ranked[i]);
    }
  }

  lemma ChosenIsFirst(g: Grid, m: Match)
    requires Chosen(ByError(AllSeen(g).candidates)) == Ok(m)
    ensures First(g, m)
  {
    forall n | IsPassing(g, n) && n.error == m.error ensures n == m || Before(m, n) { HeadIsFirst(g, n); }
  }

  // ---- How many are examined

  function Cells(g: Grid, rows: nat): set<(nat, nat)> {
    set x: nat, y: nat | x < g.columns && y < rows && g.passes(x, y) :: (x, y)
  }

  function RowCells(g: Grid, y: nat, n: nat): set<(nat, nat)> { set x: nat | x < n && g.passes(x, y) :: (x, y) }

  lemma {:induction false} RowCount(g: Grid, before: Seen, y: nat, n: nat)
    ensures RowSeen(g, before, y, n).examined == before.examined + |RowCells(g, y, n)|
  {
    if n == 0 {
      assert RowCells(g, y, 0) == {};
    } else {
      RowCount(g, before, y, n - 1);
      assert RowCells(g, y, n) == RowCells(g, y, n - 1) + if g.passes(n - 1, y) then {(n - 1, y)} else {};
    }
  }

  /** As many windows are examined as pass the quick look. */
  lemma {:induction false} ExaminedCount(g: Grid, n: nat)
    ensures RowsSeen(g, n).examined == |Cells(g, n)|
  {
    if n == 0 {
      assert Cells(g, 0) == {};
    } else {
      ExaminedCount(g, n - 1);
      RowCount(g, RowsSeen(g, n - 1), n - 1, g.columns);
      assert Cells(g, n) == Cells(g, n - 1) + RowCells(g, n - 1, g.columns);
      assert Cells(g, n - 1) !! RowCells(g, n - 1, g.columns);
    }
  }

  // ---- The whole search

  /** Template and frame are sound, and not too many windows have to be compared. */
  ghost predicate Searched(a: Icon, f: FrameUpdate) {
    TemplateOk(a) && FrameOk(f) && f.width >= 24 && f.height >= 24 && |Cells(GridOf(a, f), f.height - 23)| <= 4096
  }

  lemma JudgedExactly(g: Grid, m: Match)
    ensures Judged(AllSeen(g)) == Ok(m) <==> |Cells(g, g.rows)| <= 4096 && Clear(g, m) && First(g, m)
    ensures Judged(AllSeen(g)) == Err(TooMany) <==> |Cells(g, g.rows)| > 4096
    ensures |Cells(g, g.rows)| <= 4096 ==> Judged(AllSeen(g)) == Chosen(ByError(AllSeen(g).candidates))
  {
    ExaminedCount(g, g.rows);
    if Chosen(ByError(AllSeen(g).candidates)) == Ok(m) {
      ChosenIsClear(g, m);
      ChosenIsFirst(g, m);
    }
    if Clear(g, m) && First(g, m) {
      ClearIsChosen(g, m);
    }
  }

  lemma ResolvedIs(a: Icon, f: FrameUpdate)
    requires TemplateOk(a) && FrameOk(f) && f.width >= 24 && f.height >= 24
    ensures Resolved(a, f) == Judged(AllSeen(GridOf(a, f))) && GridOf(a, f).rows == f.height - 23
  {
  }

  /** A window is found exactly if it is the clear best, and the first of those as good as it is. */
  lemma ResolvedExactly(a: Icon, f: FrameUpdate, m: Match)
    ensures Resolved(a, f) == Ok(m) <==> Searched(a, f) && Clear(GridOf(a, f), m) && First(GridOf(a, f), m)
  {
    if TemplateOk(a) && FrameOk(f) && f.width >= 24 && f.height >= 24 {
      ResolvedIs(a, f);
      JudgedExactly(GridOf(a, f), m);
    }
  }

  /** The refusals before the search, in order. */
  lemma NotSearched(a: Icon, f: FrameUpdate)
    ensures Resolved(a, f) == Err(BadTemplate) <==> !TemplateOk(a)
    ensures Resolved(a, f) == Err(BadFrame) <==> TemplateOk(a) && !FrameOk(f)
    ensures Resolved(a, f) == Err(TooSmall) <==> TemplateOk(a) && FrameOk(f) && (f.width < 24 || f.height < 24)
    ensures Resolved(a, f) == Err(TooMany) <==>
      && TemplateOk(a) && FrameOk(f) && f.width >= 24 && f.height >= 24
      && |Cells(GridOf(a, f), f.height - 23)| > 4096
  {
    if TemplateOk(a) && FrameOk(f) && f.width >= 24 && f.height >= 24 {
      ResolvedIs(a, f);
      JudgedExactly(GridOf(a, f), Match(0, 0, 0));
    }
  }

  ghost predicate SomeNear(g: Grid) { exists n :: IsPassing(g, n) && Near(n) }

  ghost predicate SomeGood(g: Grid) { exists n :: IsPassing(g, n) && Good(n) }

  lemma NothingChosen(g: Grid)
    ensures var r := Chosen(ByError(AllSeen(g).candidates));
      && (r == Err(NotFound) <==> !SomeNear(g))
      && (r == Err(TooFar) <==> SomeNear(g) && !SomeGood(g))
      && (r == Err(Ambiguous) <==> SomeGood(g) && forall m :: !(Clear(g, m) && First(g, m)))
  {
    var r, ranked := Chosen(ByError(AllSeen(g).candidates)), ByError(AllSeen(g).candidates);
    if m :| Clear(g, m) && First(g, m) {
      ClearIsChosen(g, m);
    }
    if r.Ok? {
      ChosenIsClear(g, r.value);
      ChosenIsFirst(g, r.value);
    } else {
      FailureHasCause(g);
    }
    if ranked != [] {
      assert ranked[0] in ranked;
      RankedHasAll(AllSeen(g).candidates, ranked[0]);
      CandidatesAre(g, ranked[0]);
    }
  }

  /** A search without a result: nothing close, nothing close enough, or the best is not clear. */
  lemma SearchedInVain(a: Icon, f: FrameUpdate)
    requires Searched(a, f)
    ensures var g := GridOf(a, f);
      && (Resolved(a, f) == Err(NotFound) <==> !SomeNear(g))
      && (Resolved(a, f) == Err(TooFar) <==> SomeNear(g) && !SomeGood(g))
      && (Resolved(a, f) == Err(Ambiguous) <==> SomeGood(g) && forall m :: !(Clear(g, m) && First(g, m)))
  {
    ResolvedIs(a, f);
    JudgedExactly(GridOf(a, f), Match(0, 0, 0));
    NothingChosen(GridOf(a, f));
  }

  // ---- Capturing

  /** A point of the frame that lies in the word and in the window. */
  ghost predicate Shared(b: Box, left: nat, top: nat, i: int, j: int) {
    b.x <= i < b.x + b.w && b.y <= j < b.y + b.h && left <= i < left + 24 && top <= j < top + 24
  }

  lemma OverlapsExactly(b: Box, left: nat, top: nat)
    requires b.w > 0 && b.h > 0
    ensures Overlaps(b, left, top) <==> exists i, j :: Shared(b, left, top, i, j)
  {
    var i, j := if b.x < left then left else b.x, if b.y < top then top else b.y;
    assert Overlaps(b, left, top) ==> Shared(b, left, top, i, j);
  }

  ghost predicate ClearOfWords(screen: Screen, left: nat, top: nat) {
    forall b :: b in screen.words ==> !Overlaps(b, left, top)
  }

  lemma WordsExactly(screen: Screen, left: nat, top: nat)
    ensures OverWords(screen, left, top) <==> !ClearOfWords(screen, left, top)
  {
  }

  /** The window around the point, if it lies in a sound frame, under no band, over no word of this very frame. */
  ghost predicate Capturable(f: FrameUpdate, screen: Screen, x: nat, y: nat) {
    && FrameOk(f) && screen.matches && 12 <= x && 12 <= y && x + 12 <= f.width && y + 12 <= f.height
    && !screen.masks(x - 12, y - 12) && ClearOfWords(screen, x - 12, y - 12)
  }

  lemma CornerExactly(f: FrameUpdate, screen: Screen, x: nat, y: nat)
    ensures Corner(f, screen, x, y).Ok? <==> Capturable(f, screen, x, y)
    ensures Capturable(f, screen, x, y) ==> Corner(f, screen, x, y) == Ok((x - 12, y - 12))
  {
    if 12 <= x && 12 <= y {
      WordsExactly(screen, x - 12, y - 12);
    }
  }

  lemma SettledExactly(a: Icon, found: Result<Match, Refusal>, left: nat, top: nat, b: Icon)
    ensures Settled(a, found, left, top) == Ok(b) <==>
      a == b && found.Ok? && Within(found.value.x, left, 1) && Within(found.value.y, top, 1)
  {
  }

  lemma CapturedIs(f: FrameUpdate, screen: Screen, x: nat, y: nat, left: nat, top: nat)
    requires Corner(f, screen, x, y) == Ok((left, top))
    ensures Captured(f, screen, x, y) == Retaken(f, left, top)
  {
  }

  /** An icon is captured exactly if it is copied from there and found there, up to a pixel. */
  lemma CapturedExactly(f: FrameUpdate, screen: Screen, x: nat, y: nat, a: Icon)
    ensures Captured(f, screen, x, y) == Ok(a) <==>
      && Capturable(f, screen, x, y) && a == Template(f, x - 12, y - 12)
      && Resolved(a, f).Ok? && Within(Resolved(a, f).value.x, x - 12, 1) && Within(Resolved(a, f).value.y, y - 12, 1)
  {
    CornerExactly(f, screen, x, y);
    if Capturable(f, screen, x, y) {
      CapturedIs(f, screen, x, y, x - 12, y - 12);
      var b := Template(f, x - 12, y - 12);
      SettledExactly(b, Resolved(b, f), x - 12, y - 12, a);
    }
  }

  /** The refusals, in order. */
  lemma CaptureRefusals(f: FrameUpdate, screen: Screen, x: nat, y: nat)
    requires !Capturable(f, screen, x, y)
    ensures Captured(f, screen, x, y) == Err(
      if !FrameOk(f) then BadSource else if !screen.matches then OtherFrame else if x < 12 || y < 12 then TooClose
      else if x + 12 > f.width || y + 12 > f.height then Outside
      else if screen.masks(x - 12, y - 12) then Masked else OverText)
  {
    CornerExactly(f, screen, x, y);
  }
}
