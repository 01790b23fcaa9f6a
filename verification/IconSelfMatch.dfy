/** A captured icon matches its own window exactly, and so finds the place it was taken from. */
module IconSelfMatch {
  import opened Outcomes
  import opened FramePipeline
  import opened IconAnchor
  import opened IconMatch
  import opened IconCapture

  lemma {:induction false} RowByteAt(f: FrameUpdate, left: nat, row: nat, right: nat, sx: nat, c: nat)
    requires FrameOk(f) && left <= right <= f.width && row < f.height && left + sx < right && c < 3
    ensures RowBytes(f, left, row, right)[sx * 3 + c] == FrameByte(f, left + sx, row, c)
    decreases right - left
  {
    if left + sx < right - 1 {
      RowByteAt(f, left, row, right - 1, sx, c);
    }
  }

  lemma {:induction false} WindowByteAt(f: FrameUpdate, left: nat, top: nat, bottom: nat, sx: nat, sy: nat, c: nat)
    requires FrameOk(f) && left + SIDE <= f.width && top <= bottom <= f.height && sx < SIDE && top + sy < bottom
    requires c < 3
    ensures (sy * SIDE + sx) * 3 + c < |WindowBytes(f, left, top, bottom)|
    ensures WindowBytes(f, left, top, bottom)[(sy * SIDE + sx) * 3 + c] == FrameByte(f, left + sx, top + sy, c)
    decreases bottom - top
  {
    var before := |WindowBytes(f, left, top, bottom - 1)|;
    if top + sy < bottom - 1 {
      WindowByteAt(f, left, top, bottom - 1, sx, sy, c);
    } else {
      RowByteAt(f, left, top + sy, left + SIDE, sx, c);
      assert (sy * SIDE + sx) * 3 + c == before + (sx * 3 + c);
    }
  }

  lemma OwnByteError(f: FrameUpdate, left: nat, top: nat, sx: nat, sy: nat, c: nat)
    requires FrameOk(f) && Inside(f, left, top) && sx < SIDE && sy < SIDE && c < 3
    ensures ByteError(Template(f, left, top), f, left, top, sx, sy, c) == 0
  {
    WindowByteAt(f, left, top, top + SIDE, sx, sy, c);
  }

  lemma {:induction false} OwnRowError(f: FrameUpdate, left: nat, top: nat, sy: nat, n: nat)
    requires FrameOk(f) && Inside(f, left, top) && sy < SIDE && n <= SIDE
    ensures RowError(Template(f, left, top), f, left, top, sy, n) == 0
  {
    if n > 0 {
      OwnRowError(f, left, top, sy, n - 1);
      OwnByteError(f, left, top, n - 1, sy, 0);
      OwnByteError(f, left, top, n - 1, sy, 1);
      OwnByteError(f, left, top, n - 1, sy, 2);
    }
  }

  lemma {:induction false} OwnError(f: FrameUpdate, left: nat, top: nat, n: nat)
    requires FrameOk(f) && Inside(f, left, top) && n <= SIDE
    ensures Error(Template(f, left, top), f, left, top, n) == 0
  {
    if n > 0 {
      OwnError(f, left, top, n - 1);
      OwnRowError(f, left, top, n - 1, SIDE);
    }
  }

  lemma OwnSamplePasses(f: FrameUpdate, left: nat, top: nat, i: nat, j: nat)
    requires FrameOk(f) && Inside(f, left, top) && i < |SAMPLES| && j < |SAMPLES|
    ensures SamplePasses(Template(f, left, top), f, left, top, i, j)
  {
    var sx, sy := SAMPLES[i], SAMPLES[j];
    forall c | 0 <= c < 3
      ensures ByteError(Template(f, left, top), f, left, top, sx, sy, c) <= 40
    {
      OwnByteError(f, left, top, sx, sy, c);
    }
  }

  lemma OwnWindowPasses(f: FrameUpdate, left: nat, top: nat)
    requires FrameOk(f) && Inside(f, left, top)
    ensures Passes(Template(f, left, top), f, left, top)
  {
    forall i, j | 0 <= i < |SAMPLES| && 0 <= j < |SAMPLES|
      ensures SamplePasses(Template(f, left, top), f, left, top, i, j)
    {
      OwnSamplePasses(f, left, top, i, j);
    }
  }

  lemma OwnWindowIsExamined(a: Icon, f: FrameUpdate, left: nat, top: nat)
    requires FrameOk(f) && Inside(f, left, top) && a == Template(f, left, top)
    ensures IsPassing(GridOf(a, f), Match(left, top, 0))
  {
    OwnError(f, left, top, SIDE);
    OwnWindowPasses(f, left, top);
  }

  /** The window taken, and where the search finds it. */
  lemma CaptureTakes(f: FrameUpdate, screen: Screen, x: nat, y: nat, a: Icon) returns (left: nat, top: nat, m: Match)
    requires Captured(f, screen, x, y) == Ok(a)
    ensures FrameOk(f) && Inside(f, left, top) && left + SIDE / 2 == x && top + SIDE / 2 == y
    ensures a == Template(f, left, top) && Resolved(a, f) == Ok(m) && Close(m.x, left) && Close(m.y, top)
  {
    var corner := Corner(f, screen, x, y).value;
    left, top := corner.0, corner.1;
    m := Resolved(a, f).value;
  }

  lemma PerfectMatch(g: Grid, own: Match, m: Match)
    requires Clear(g, m) && IsPassing(g, own) && own.error == 0
    ensures m.error == 0 && forall n :: IsPassing(g, n) && FarFrom(n, m) ==> n.error * 1000 >= 20 * TOTAL
  {
  }

  /** The search finds a window without any error, and every passing window elsewhere is at least 2 points off. */
  ghost predicate FoundAlone(a: Icon, f: FrameUpdate, m: Match) {
    && |a.rgb| == BYTES && FrameOk(f) && SIDE <= f.width && SIDE <= f.height && Resolved(a, f) == Ok(m) && m.error == 0
    && forall n :: IsPassing(GridOf(a, f), n) && FarFrom(n, m) ==> n.error * 1000 >= 20 * TOTAL
  }

  lemma FoundWithoutError(a: Icon, f: FrameUpdate, left: nat, top: nat, m: Match)
    requires FrameOk(f) && Inside(f, left, top) && a == Template(f, left, top) && Resolved(a, f) == Ok(m)
    ensures FoundAlone(a, f, m)
  {
    ResolvedIsClear(a, f, m);
    OwnWindowIsExamined(a, f, left, top);
    PerfectMatch(GridOf(a, f), Match(left, top, 0), m);
  }

  /**
   * A captured icon is found again on its own frame without any error, within a pixel of where it was taken, and every
   * passing window elsewhere on the frame is at least 2 points off.
   */
  lemma CaptureFindsItself(f: FrameUpdate, screen: Screen, x: nat, y: nat, a: Icon) returns (left: nat, top: nat,
      m: Match)
    requires Captured(f, screen, x, y) == Ok(a)
    ensures FoundAlone(a, f, m)
    ensures left + SIDE / 2 == x && top + SIDE / 2 == y && Close(m.x, left) && Close(m.y, top)
  {
    left, top, m := CaptureTakes(f, screen, x, y, a);
    FoundWithoutError(a, f, left, top, m);
  }
}
