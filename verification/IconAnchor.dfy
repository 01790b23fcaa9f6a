/** Finding a captured 24 by 24 icon in a frame: the windows examined, their errors, and the match. */
module IconAnchor {
  import opened Outcomes
  import opened FramePipeline

  const SIDE := 24
  const BYTES := 24 * 24 * 3
  const TOTAL := BYTES * 255
  const MOST_EXAMINED := 4096

  /** The template's colour bytes, row by row. */
  datatype Icon = Icon(rgb: seq<int>)

  /** A window of the frame, with its summed error; the error is kept where the source keeps one minus its share. */
  datatype Match = Match(x: nat, y: nat, error: nat)

  datatype Refusal = BadTemplate | BadFrame | TooSmall | TooMany | NotFound | TooFar | Ambiguous

  // ---- Templates and frames

  function Sum(s: seq<int>): int { if s == [] then 0 else Sum(s[..|s| - 1]) + s[|s| - 1] }

  function Squares(s: seq<int>): int { if s == [] then 0 else Squares(s[..|s| - 1]) + s[|s| - 1] * s[|s| - 1] }

  /** Contrast of 64 and a variance of 200, the latter multiplied out by the square of the count. */
  predicate TemplateOk(a: Icon) {
    && |a.rgb| == BYTES && (forall i :: 0 <= i < |a.rgb| ==> 0 <= a.rgb[i] < 256)
    && (exists i, j :: 0 <= i < |a.rgb| && 0 <= j < |a.rgb| && a.rgb[i] - a.rgb[j] >= 64)
    && |a.rgb| * Squares(a.rgb) - Sum(a.rgb) * Sum(a.rgb) >= 200 * |a.rgb| * |a.rgb|
  }

  predicate FrameOk(f: FrameUpdate) {
    0 < f.width * f.height * 4 <= 32 * 1024 * 1024 && |f.pixels| == f.width * f.height * 4
  }

  /** The window at (x, y) lies in the frame. */
  predicate Inside(f: FrameUpdate, x: nat, y: nat) { x + SIDE <= f.width && y + SIDE <= f.height }

  lemma PixelInFrame(f: FrameUpdate, x: nat, y: nat)
    requires FrameOk(f) && x < f.width && y < f.height
    ensures 0 <= (y * f.width + x) * 4 && (y * f.width + x) * 4 + 4 <= |f.pixels|
  {
    assert y * f.width + x + 1 <= (y + 1) * f.width <= f.height * f.width by {
      assert (y + 1) * f.width == y * f.width + f.width;
      assert (f.height - (y + 1)) * f.width >= 0;
    }
  }

  function FrameByte(f: FrameUpdate, x: nat, y: nat, c: nat): int
    requires FrameOk(f) && x < f.width && y < f.height && c < 3
  {
    PixelInFrame(f, x, y);
    f.pixels[(y * f.width + x) * 4 + c]
  }

  function IconByte(a: Icon, sx: nat, sy: nat, c: nat): int
    requires |a.rgb| == BYTES && sx < SIDE && sy < SIDE && c < 3
  {
    a.rgb[(sy * SIDE + sx) * 3 + c]
  }

  function Apart(i: int, j: int): nat { if i < j then j - i else i - j }

  /** How far the template is from the window at (x, y) in one colour of one of its pixels. */
  function ByteError(a: Icon, f: FrameUpdate, x: nat, y: nat, sx: nat, sy: nat, c: nat): nat
    requires |a.rgb| == BYTES && FrameOk(f) && Inside(f, x, y) && sx < SIDE && sy < SIDE && c < 3
  {
    Apart(IconByte(a, sx, sy, c), FrameByte(f, x + sx, y + sy, c))
  }

  function PixelError(a: Icon, f: FrameUpdate, x: nat, y: nat, sx: nat, sy: nat): nat
    requires |a.rgb| == BYTES && FrameOk(f) && Inside(f, x, y) && sx < SIDE && sy < SIDE
  {
    ByteError(a, f, x, y, sx, sy, 0) + ByteError(a, f, x, y, sx, sy, 1) + ByteError(a, f, x, y, sx, sy, 2)
  }

  function RowError(a: Icon, f: FrameUpdate, x: nat, y: nat, sy: nat, n: nat): nat
    requires |a.rgb| == BYTES && FrameOk(f) && Inside(f, x, y) && sy < SIDE && n <= SIDE
  {
    if n == 0 then 0 else RowError(a, f, x, y, sy, n - 1) + PixelError(a, f, x, y, n - 1, sy)
  }

  function Error(a: Icon, f: FrameUpdate, x: nat, y: nat, n: nat): nat
    requires |a.rgb| == BYTES && FrameOk(f) && Inside(f, x, y) && n <= SIDE
  {
    if n == 0 then 0 else Error(a, f, x, y, n - 1) + RowError(a, f, x, y, n - 1, SIDE)
  }

  // ---- Windows

  const SAMPLES := [0, 5, 11, 17, 23]

  predicate SamplePasses(a: Icon, f: FrameUpdate, x: nat, y: nat, i: nat, j: nat)
    requires |a.rgb| == BYTES && FrameOk(f) && Inside(f, x, y) && i < |SAMPLES| && j < |SAMPLES|
  {
    forall c :: 0 <= c < 3 ==> ByteError(a, f, x, y, SAMPLES[i], SAMPLES[j], c) <= 40
  }

  /** The quick look at 25 pixels: no colour is off by more than 40. */
  predicate Passes(a: Icon, f: FrameUpdate, x: nat, y: nat)
    requires |a.rgb| == BYTES && FrameOk(f) && Inside(f, x, y)
  {
    forall i, j :: 0 <= i < |SAMPLES| && 0 <= j < |SAMPLES| ==> SamplePasses(a, f, x, y, i, j)
  }

  /** The windows of a frame, each with the answer of the quick look and its error. */
  datatype Grid = Grid(columns: nat, rows: nat, passes: (nat, nat) -> bool, error: (nat, nat) -> nat)

  function GridOf(a: Icon, f: FrameUpdate): Grid
    requires |a.rgb| == BYTES && FrameOk(f) && SIDE <= f.width && SIDE <= f.height
  {
    Grid(f.width - SIDE + 1, f.height - SIDE + 1,
         (x: nat, y: nat) => Inside(f, x, y) && Passes(a, f, x, y),
         (x: nat, y: nat) => if Inside(f, x, y) then Error(a, f, x, y, SIDE) else 0)
  }

  /** The grid's answers are those of the frame. */
  ghost predicate Portrays(g: Grid, a: Icon, f: FrameUpdate) {
    && |a.rgb| == BYTES && FrameOk(f) && SIDE <= f.width && SIDE <= f.height
    && g.columns == f.width - SIDE + 1 && g.rows == f.height - SIDE + 1
    && forall x: nat, y: nat {:trigger Inside(f, x, y)} :: Inside(f, x, y) ==>
         (g.passes(x, y) <==> Passes(a, f, x, y)) && g.error(x, y) == Error(a, f, x, y, SIDE)
  }

  lemma GridPortrays(a: Icon, f: FrameUpdate)
    requires |a.rgb| == BYTES && FrameOk(f) && SIDE <= f.width && SIDE <= f.height
    ensures Portrays(GridOf(a, f), a, f)
  {
  }

  // ---- The decision

  /** Within 4.5%, within 2.5%, and closer than 2% to each other, of the largest possible error. */
  predicate Near(m: Match) { m.error * 1000 <= 45 * TOTAL }

  predicate Good(m: Match) { m.error * 1000 <= 25 * TOTAL }

  predicate Rival(best: Match, other: Match) {
    (Apart(other.x, best.x) > SIDE / 2 || Apart(other.y, best.y) > SIDE / 2)
    && (other.error - best.error) * 1000 < 20 * TOTAL
  }

  /** How many windows were compared in full, and which came close. */
  datatype Seen = Seen(examined: nat, candidates: seq<Match>)

  function WindowAt(g: Grid, x: nat, y: nat): Match { Match(x, y, g.error(x, y)) }

  function Looked(s: Seen, g: Grid, x: nat, y: nat): Seen {
    if !g.passes(x, y) then s
    else Seen(s.examined + 1, s.candidates + if Near(WindowAt(g, x, y)) then [WindowAt(g, x, y)] else [])
  }

  function RowSeen(g: Grid, before: Seen, y: nat, n: nat): (s: Seen)
    ensures s.examined >= before.examined
  {
    if n == 0 then before else Looked(RowSeen(g, before, y, n - 1), g, n - 1, y)
  }

  function RowsSeen(g: Grid, n: nat): Seen {
    if n == 0 then Seen(0, []) else RowSeen(g, RowsSeen(g, n - 1), n - 1, g.columns)
  }

  function AllSeen(g: Grid): Seen { RowsSeen(g, g.rows) }

  /** In order of error, equals in the order they came. */
  function Placed(sorted: seq<Match>, m: Match): seq<Match> {
    if sorted == [] || sorted[|sorted| - 1].error <= m.error then sorted + [m]
    else Placed(sorted[..|sorted| - 1], m) + [sorted[|sorted| - 1]]
  }

  function Ranked(windows: seq<Match>, n: nat): seq<Match>
    requires n <= |windows|
  {
    if n == 0 then [] else Placed(Ranked(windows, n - 1), windows[n - 1])
  }

  function ByError(windows: seq<Match>): seq<Match> { Ranked(windows, |windows|) }

  function Chosen(ranked: seq<Match>): Result<Match, Refusal> {
    if ranked == [] then Err(NotFound)
    else if !Good(ranked[0]) then Err(TooFar)
    else if exists i :: 0 < i < |ranked| && Rival(ranked[0], ranked[i]) then Err(Ambiguous)
    else Ok(ranked[0])
  }

  function Judged(s: Seen): Result<Match, Refusal> {
    if s.examined > MOST_EXAMINED then Err(TooMany) else Chosen(ByError(s.candidates))
  }

  function Resolved(a: Icon, f: FrameUpdate): Result<Match, Refusal> {
    if !TemplateOk(a) then Err(BadTemplate)
    else if !FrameOk(f) then Err(BadFrame)
    else if f.width < SIDE || f.height < SIDE then Err(TooSmall)
    else Judged(AllSeen(GridOf(a, f)))
  }

  // ---- The search in loops

  /** The difference in one colour of one pixel of the window. */
  method CompareByte(a: Icon, f: FrameUpdate, x: nat, y: nat, sx: nat, sy: nat, c: nat) returns (apart: nat)
    requires |a.rgb| == BYTES && FrameOk(f) && Inside(f, x, y) && sx < SIDE && sy < SIDE && c < 3
    ensures apart == ByteError(a, f, x, y, sx, sy, c)
  {
    PixelInFrame(f, x + sx, y + sy);
    var i, j := (sy * SIDE + sx) * 3, ((y + sy) * f.width + (x + sx)) * 4;
    return Apart(a.rgb[i + c], f.pixels[j + c]);
  }

  method LookAtSample(a: Icon, f: FrameUpdate, x: nat, y: nat, i: nat, j: nat) returns (ok: bool)
    requires |a.rgb| == BYTES && FrameOk(f) && Inside(f, x, y) && i < |SAMPLES| && j < |SAMPLES|
    ensures ok == SamplePasses(a, f, x, y, i, j)
  {
    for c := 0 to 3
      invariant forall d :: 0 <= d < c ==> ByteError(a, f, x, y, SAMPLES[i], SAMPLES[j], d) <= 40
    {
      var apart := CompareByte(a, f, x, y, SAMPLES[i], SAMPLES[j], c);
      if apart > 40 {
        return false;
      }
    }
    return true;
  }

  /** The quick look at one window, row by row. */
  method LookAtWindow(a: Icon, f: FrameUpdate, x: nat, y: nat) returns (ok: bool)
    requires |a.rgb| == BYTES && FrameOk(f) && Inside(f, x, y)
    ensures ok == Passes(a, f, x, y)
  {
    for j := 0 to |SAMPLES|
      invariant forall i, k :: 0 <= i < |SAMPLES| && 0 <= k < j ==> SamplePasses(a, f, x, y, i, k)
    {
      for i := 0 to |SAMPLES|
        invariant forall h :: 0 <= h < i ==> SamplePasses(a, f, x, y, h, j)
      {
        var sample := LookAtSample(a, f, x, y, i, j);
        if !sample {
          return false;
        }
      }
    }
    return true;
  }

  method CompareRow(a: Icon, f: FrameUpdate, x: nat, y: nat, sy: nat, before: nat) returns (error: nat)
    requires |a.rgb| == BYTES && FrameOk(f) && Inside(f, x, y) && sy < SIDE
    ensures error == before + RowError(a, f, x, y, sy, SIDE)
  {
    error := before;
    for sx := 0 to SIDE
      invariant error == before + RowError(a, f, x, y, sy, sx)
    {
      ghost var soFar := error;
      for c := 0 to 3
        invariant error == soFar + (if c > 0 then ByteError(a, f, x, y, sx, sy, 0) else 0)
                                 + (if c > 1 then ByteError(a, f, x, y, sx, sy, 1) else 0)
                                 + (if c > 2 then ByteError(a, f, x, y, sx, sy, 2) else 0)
      {
        var apart := CompareByte(a, f, x, y, sx, sy, c);
        error := error + apart;
      }
    }
  }

  /** The full comparison of one window. */
  method WindowError(a: Icon, f: FrameUpdate, x: nat, y: nat) returns (error: nat)
    requires |a.rgb| == BYTES && FrameOk(f) && Inside(f, x, y)
    ensures error == Error(a, f, x, y, SIDE)
  {
    error := 0;
    for sy := 0 to SIDE
      invariant error == Error(a, f, x, y, sy)
    {
      error := CompareRow(a, f, x, y, sy, error);
    }
  }

  lemma {:induction false} RowOnlyAdds(g: Grid, before: Seen, y: nat, n: nat, m: nat)
    requires n <= m
    ensures RowSeen(g, before, y, n).examined <= RowSeen(g, before, y, m).examined
  {
    if n < m {
      RowOnlyAdds(g, before, y, n, m - 1);
    }
  }

  lemma {:induction false} RowsOnlyAdd(g: Grid, n: nat, m: nat)
    requires n <= m
    ensures RowsSeen(g, n).examined <= RowsSeen(g, m).examined
  {
    if n < m {
      RowsOnlyAdd(g, n, m - 1);
    }
  }

  method LookAt(a: Icon, f: FrameUpdate, ghost g: Grid, x: nat, y: nat) returns (passes: bool)
    requires Portrays(g, a, f) && x < g.columns && y < g.rows
    ensures passes == g.passes(x, y)
  {
    assert Inside(f, x, y);
    passes := LookAtWindow(a, f, x, y);
  }

  method Compare(a: Icon, f: FrameUpdate, ghost g: Grid, x: nat, y: nat) returns (error: nat)
    requires Portrays(g, a, f) && x < g.columns && y < g.rows
    ensures error == g.error(x, y)
  {
    assert Inside(f, x, y);
    error := WindowError(a, f, x, y);
  }

  method CollectRow(a: Icon, f: FrameUpdate, ghost g: Grid, y: nat, before: Seen) returns (s: Seen)
    requires Portrays(g, a, f) && y < g.rows
    ensures var whole := RowSeen(g, before, y, g.columns);
      if whole.examined <= MOST_EXAMINED || before.examined > MOST_EXAMINED then s == whole
      else s.examined > MOST_EXAMINED
  {
    s := before;
    var x := 0;
    while x <= f.width - SIDE
      invariant x <= g.columns && s == RowSeen(g, before, y, x)
    {
      var passes := LookAt(a, f, g, x, y);
      if passes {
        s := s.(examined := s.examined + 1);
        if before.examined <= MOST_EXAMINED < s.examined {
          RowOnlyAdds(g, before, y, x + 1, g.columns);
          return;
        }
        var error := Compare(a, f, g, x, y);
        if error * 1000 <= 45 * TOTAL {
          s := s.(candidates := s.candidates + [Match(x, y, error)]);
        }
      }
      x := x + 1;
    }
  }

  /** All windows, until too many had to be compared. */
  method Collect(a: Icon, f: FrameUpdate, ghost g: Grid) returns (s: Seen)
    requires Portrays(g, a, f)
    ensures var all := AllSeen(g); if all.examined <= MOST_EXAMINED then s == all else s.examined > MOST_EXAMINED
  {
    s := Seen(0, []);
    var y := 0;
    while y <= f.height - SIDE
      invariant y <= g.rows && s == RowsSeen(g, y) && s.examined <= MOST_EXAMINED
    {
      s := CollectRow(a, f, g, y, s);
      RowsOnlyAdd(g, y + 1, g.rows);
      if s.examined > MOST_EXAMINED {
        return;
      }
      y := y + 1;
    }
  }

  method Resolve(a: Icon, f: FrameUpdate) returns (r: Result<Match, Refusal>)
    ensures r == Resolved(a, f)
  {
    if !TemplateOk(a) {
      return Err(BadTemplate);
    }
    if !FrameOk(f) {
      return Err(BadFrame);
    }
    if f.width < SIDE || f.height < SIDE {
      return Err(TooSmall);
    }
    GridPortrays(a, f);
    var s := Collect(a, f, GridOf(a, f));
    if s.examined > MOST_EXAMINED {
      return Err(TooMany);
    }
    var candidates := ByError(s.candidates);
    if candidates == [] {
      return Err(NotFound);
    }
    var best := candidates[0];
    if !Good(best) {
      return Err(TooFar);
    }
    if exists i :: 0 < i < |candidates| && Rival(best, candidates[i]) {
      return Err(Ambiguous);
    }
    return Ok(best);
  }
}
