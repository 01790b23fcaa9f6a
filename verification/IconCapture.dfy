/** Capturing an icon: the pixels copied, and the search that must find them where they were taken. */
module IconCapture {
  import opened Outcomes
  import opened FramePipeline
  import opened IconAnchor

  datatype CaptureRefusal =
    | BadSource | OtherFrame | TooClose | Outside | Masked | OverText | Unresolved(cause: Refusal) | Elsewhere

  /** The bounds of one recognised word. */
  datatype Box = Box(x: nat, y: nat, w: nat, h: nat)

  /**
   * Recognised text: whether it was read from this very frame, its words, and the windows its redaction bands lie over.
   */
  datatype Screen = Screen(matches: bool, words: seq<Box>, masks: (nat, nat) -> bool)

  /** The colour bytes of one row of the window, then of its rows. */
  function RowBytes(f: FrameUpdate, left: nat, row: nat, right: nat): (s: seq<int>)
    requires FrameOk(f) && left <= right <= f.width && row < f.height
    ensures |s| == (right - left) * 3
    decreases right - left
  {
    if left == right then []
    else
      var x := right - 1;
      RowBytes(f, left, row, x) + [FrameByte(f, x, row, 0), FrameByte(f, x, row, 1), FrameByte(f, x, row, 2)]
  }

  function WindowBytes(f: FrameUpdate, left: nat, top: nat, bottom: nat): (s: seq<int>)
    requires FrameOk(f) && left + SIDE <= f.width && top <= bottom <= f.height
    ensures |s| == (bottom - top) * SIDE * 3
    decreases bottom - top
  {
    if top == bottom then [] else WindowBytes(f, left, top, bottom - 1) + RowBytes(f, left, bottom - 1, left + SIDE)
  }

  /** What is copied of the window at (left, top). */
  function Template(f: FrameUpdate, left: nat, top: nat): Icon
    requires FrameOk(f) && Inside(f, left, top)
  {
    Icon(WindowBytes(f, left, top, top + SIDE))
  }

  method CopyRow(f: FrameUpdate, left: nat, row: nat, before: seq<int>) returns (rgb: seq<int>)
    requires FrameOk(f) && left + SIDE <= f.width && row < f.height
    ensures rgb == before + RowBytes(f, left, row, left + SIDE)
  {
    rgb := before;
    assert before + [] == before;
    for col := left to left + SIDE
      invariant rgb == before + RowBytes(f, left, row, col)
    {
      PixelInFrame(f, col, row);
      var i := (row * f.width + col) * 4;
      assert f.pixels[i..i + 3] == [f.pixels[i], f.pixels[i + 1], f.pixels[i + 2]];
      rgb := rgb + f.pixels[i..i + 3];
    }
  }

  method CopyWindow(f: FrameUpdate, left: nat, top: nat) returns (rgb: seq<int>)
    requires FrameOk(f) && Inside(f, left, top)
    ensures Icon(rgb) == Template(f, left, top)
  {
    rgb := [];
    for row := top to top + SIDE
      invariant rgb == WindowBytes(f, left, top, row)
    {
      rgb := CopyRow(f, left, row, rgb);
    }
  }

  predicate Close(i: nat, j: nat) { Apart(i, j) <= 1 }

  /** The template is kept if it was found where it was taken, within a pixel. */
  function Settled(a: Icon, found: Result<Match, Refusal>, left: nat, top: nat): Result<Icon, CaptureRefusal> {
    if found.Err? then Err(Unresolved(found.error))
    else if Close(found.value.x, left) && Close(found.value.y, top) then Ok(a)
    else Err(Elsewhere)
  }

  predicate Overlaps(b: Box, left: nat, top: nat) {
    b.x < left + SIDE && b.x + b.w > left && b.y < top + SIDE && b.y + b.h > top
  }

  predicate OverWords(screen: Screen, left: nat, top: nat) {
    exists i :: 0 <= i < |screen.words| && Overlaps(screen.words[i], left, top)
  }

  /** The corner of the window around a point, clear of detected text and redaction bands. */
  function Corner(f: FrameUpdate, screen: Screen, x: nat, y: nat): (r: Result<(nat, nat), CaptureRefusal>)
    ensures r.Ok? ==> FrameOk(f) && Inside(f, r.value.0, r.value.1)
  {
    if !FrameOk(f) then Err(BadSource)
    else if !screen.matches then Err(OtherFrame)
    else if x < SIDE / 2 || y < SIDE / 2 then Err(TooClose)
    else if !Inside(f, x - SIDE / 2, y - SIDE / 2) then Err(Outside)
    else if screen.masks(x - SIDE / 2, y - SIDE / 2) then Err(Masked)
    else if OverWords(screen, x - SIDE / 2, y - SIDE / 2) then Err(OverText)
    else Ok((x - SIDE / 2, y - SIDE / 2))
  }

  /** The window at a corner, if it is found where it was taken. */
  function Retaken(f: FrameUpdate, left: nat, top: nat): Result<Icon, CaptureRefusal>
    requires FrameOk(f) && Inside(f, left, top)
  {
    Settled(Template(f, left, top), Resolved(Template(f, left, top), f), left, top)
  }

  function Captured(f: FrameUpdate, screen: Screen, x: nat, y: nat): Result<Icon, CaptureRefusal> {
    match Corner(f, screen, x, y)
    case Err(cause) => Err(cause)
    case Ok((left, top)) => Retaken(f, left, top)
  }

  method FindCorner(f: FrameUpdate, screen: Screen, x: nat, y: nat) returns (r: Result<(nat, nat), CaptureRefusal>)
    ensures r == Corner(f, screen, x, y)
  {
    if !FrameOk(f) {
      return Err(BadSource);
    }
    if !screen.matches {
      return Err(OtherFrame);
    }
    if x < SIDE / 2 || y < SIDE / 2 {
      return Err(TooClose);
    }
    var left, top := x - SIDE / 2, y - SIDE / 2;
    if left + SIDE > f.width || top + SIDE > f.height {
      return Err(Outside);
    }
    if screen.masks(left, top) {
      return Err(Masked);
    }
    if exists i :: 0 <= i < |screen.words| && Overlaps(screen.words[i], left, top) {
      return Err(OverText);
    }
    return Ok((left, top));
  }

  method Capture(f: FrameUpdate, screen: Screen, x: nat, y: nat) returns (r: Result<Icon, CaptureRefusal>)
    ensures r == Captured(f, screen, x, y)
  {
    var corner := FindCorner(f, screen, x, y);
    if corner.Err? {
      return Err(corner.error);
    }
    r := CaptureWindow(f, corner.value.0, corner.value.1);
  }

  method CaptureWindow(f: FrameUpdate, left: nat, top: nat) returns (r: Result<Icon, CaptureRefusal>)
    requires FrameOk(f) && Inside(f, left, top)
    ensures r == Retaken(f, left, top)
  {
    var rgb := CopyWindow(f, left, top);
    var found := Resolve(Icon(rgb), f);
    r := Settle(Icon(rgb), found, left, top);
  }

  method Settle(a: Icon, found: Result<Match, Refusal>, left: nat, top: nat) returns (r: Result<Icon, CaptureRefusal>)
    ensures r == Settled(a, found, left, top)
  {
    if found.Err? {
      return Err(Unresolved(found.error));
    }
    return if Close(found.value.x, left) && Close(found.value.y, top) then Ok(a) else Err(Elsewhere);
  }
}
