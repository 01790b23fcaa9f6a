/**
 * Frames, their damage rectangles, the latest-value slot and the partial texture upload. Rectangles use inclusive
 * edges.
 */
module FramePipeline {
  import opened Outcomes

  datatype DirtyRegion = DirtyRegion(left: nat, top: nat, right: nat, bottom: nat)

  /** `pixels` holds four bytes per pixel, row by row. */
  datatype FrameUpdate = FrameUpdate(width: nat, height: nat, pixels: seq<int>, dirty: seq<DirtyRegion>)

  datatype Image<Color> = Image(width: nat, height: nat, pixels: seq<Color>)

  datatype Upload<Color> = Upload(left: nat, top: nat, image: Image<Color>, full: bool)

  // ---- Damage

  function Full(f: FrameUpdate): DirtyRegion {
    DirtyRegion(0, 0, if f.width == 0 then 0 else f.width - 1, if f.height == 0 then 0 else f.height - 1)
  }

  predicate ValidRegion(r: DirtyRegion, f: FrameUpdate) {
    r.left <= r.right < f.width && r.top <= r.bottom < f.height
  }

  function Min(a: nat, b: nat): nat { if a < b then a else b }

  function Max(a: nat, b: nat): nat { if a > b then a else b }

  function Hull(a: DirtyRegion, b: DirtyRegion): DirtyRegion {
    DirtyRegion(Min(a.left, b.left), Min(a.top, b.top), Max(a.right, b.right), Max(a.bottom, b.bottom))
  }

  function HullAll(regions: seq<DirtyRegion>): DirtyRegion
    requires regions != []
  {
    if |regions| == 1 then regions[0] else Hull(HullAll(regions[..|regions| - 1]), regions[|regions| - 1])
  }

  predicate AllValid(regions: seq<DirtyRegion>, f: FrameUpdate) {
    forall i :: 0 <= i < |regions| ==> ValidRegion(regions[i], f)
  }

  /** The whole frame when damage is missing or invalid, else the hull of all dirty regions. */
  function Damage(f: FrameUpdate): DirtyRegion {
    if f.dirty == [] || !AllValid(f.dirty, f) then Full(f) else HullAll(f.dirty)
  }

  method DamageBounds(f: FrameUpdate) returns (bounds: DirtyRegion)
    ensures bounds == Damage(f)
  {
    if f.dirty == [] {
      return Full(f);
    }
    bounds := f.dirty[0];
    for i := 0 to |f.dirty|
      invariant AllValid(f.dirty[..i], f)
      invariant bounds == if i == 0 then f.dirty[0] else HullAll(f.dirty[..i])
    {
      var r := f.dirty[i];
      if r.left > r.right || r.top > r.bottom || r.right >= f.width || r.bottom >= f.height {
        return Full(f);
      }
      assert f.dirty[..i + 1][..i] == f.dirty[..i];
      bounds := bounds.(left := Min(bounds.left, r.left));
      bounds := bounds.(top := Min(bounds.top, r.top));
      bounds := bounds.(right := Max(bounds.right, r.right));
      bounds := bounds.(bottom := Max(bounds.bottom, r.bottom));
    }
    assert f.dirty[..|f.dirty|] == f.dirty;
  }

  /** The newer frame, carrying the damage of the frame it replaces. */
  function Merged(newer: FrameUpdate, older: FrameUpdate): FrameUpdate {
    newer.(dirty :=
      if newer.width != older.width || newer.height != older.height then [Full(newer)]
      else [Hull(Damage(newer), Damage(older))])
  }

  method MergeDamage(newer: FrameUpdate, older: FrameUpdate) returns (merged: FrameUpdate)
    ensures merged == Merged(newer, older)
  {
    var r := Full(newer);
    if newer.width == older.width && newer.height == older.height {
      var a := DamageBounds(newer);
      var b := DamageBounds(older);
      r := Hull(a, b);
    }
    merged := newer.(dirty := [r]);
  }

  // ---- The latest-value slot

  function Slotted(slot: Option<FrameUpdate>, frame: FrameUpdate): FrameUpdate {
    if slot.Some? then Merged(frame, slot.value) else frame
  }

  class FrameMailbox {
    var frame: Option<FrameUpdate>
    var published: nat
    var replaced: nat
    ghost var taken: nat

    /** Every published frame was taken, was replaced by a newer one, or is still waiting. */
    ghost predicate Valid()
      reads this
    {
      published == taken + replaced + if frame.Some? then 1 else 0
    }

    constructor ()
      ensures Valid() && frame == None && published == 0 && replaced == 0
    {
      frame, published, replaced, taken := None, 0, 0, 0;
    }

    method Publish(update: FrameUpdate)
      requires Valid()
      modifies this
      ensures Valid() && frame == Some(Slotted(old(frame), update))
      ensures published == old(published) + 1 && taken == old(taken)
      ensures replaced == old(replaced) + if old(frame).Some? then 1 else 0
    {
      var latest := update;
      if frame.Some? {
        latest := MergeDamage(latest, frame.value);
        replaced := replaced + 1;
      }
      published := published + 1;
      frame := Some(latest);
    }

    method Take() returns (update: Option<FrameUpdate>)
      requires Valid()
      modifies this
      ensures Valid() && update == old(frame) && frame == None
      ensures published == old(published) && replaced == old(replaced)
      ensures taken == old(taken) + if update.Some? then 1 else 0
    {
      update := frame;
      if frame.Some? {
        taken := taken + 1;
      }
      frame := None;
    }
  }

  // ---- The upload

  predicate WellFormed(f: FrameUpdate) {
    f.width != 0 && f.height != 0 && |f.pixels| == f.width * f.height * 4
  }

  lemma PixelInRange(width: nat, height: nat, x: nat, y: nat)
    requires x < width && y < height
    ensures 0 <= y * width + x < width * height
  {
    assert (y + 1) * width <= height * width;
  }

  /** The four bytes of one pixel of a frame. */
  function BytesAt(f: FrameUpdate, x: nat, y: nat): seq<int>
    requires WellFormed(f) && x < f.width && y < f.height
  {
    PixelInRange(f.width, f.height, x, y);
    var at := (y * f.width + x) * 4;
    f.pixels[at..at + 4]
  }

  function ColorAt<Color>(f: FrameUpdate, x: nat, y: nat, convert: seq<int> -> Color): Color
    requires WellFormed(f) && x < f.width && y < f.height
  {
    convert(BytesAt(f, x, y))
  }

  predicate Complete<Color>(image: Image<Color>) { |image.pixels| == image.width * image.height }

  function PixelAt<Color>(image: Image<Color>, x: nat, y: nat): Color
    requires Complete(image) && x < image.width && y < image.height
  {
    PixelInRange(image.width, image.height, x, y);
    image.pixels[y * image.width + x]
  }

  function PatchWidth(r: DirtyRegion): int { r.right - r.left + 1 }

  function PatchHeight(r: DirtyRegion): int { r.bottom - r.top + 1 }

  /** The image holds exactly the frame's pixels inside `r`. */
  ghost predicate ShowsRegion<Color(!new)>(image: Image<Color>, f: FrameUpdate, r: DirtyRegion,
      convert: seq<int> -> Color)
    requires WellFormed(f) && ValidRegion(r, f)
  {
    && image.width == PatchWidth(r) && image.height == PatchHeight(r) && Complete(image)
    && forall x: nat, y: nat :: x < image.width && y < image.height ==>
         PixelAt(image, x, y) == ColorAt(f, r.left + x, r.top + y, convert)
  }

  /** The rectangle that is uploaded: the damage if the texture has the frame's size, else everything. */
  function UploadRegion(f: FrameUpdate, previous: Option<(nat, nat)>): DirtyRegion {
    if previous == Some((f.width, f.height)) then Damage(f) else Full(f)
  }

  lemma {:induction false} HullAllValid(regions: seq<DirtyRegion>, f: FrameUpdate)
    requires regions != [] && AllValid(regions, f)
    ensures ValidRegion(HullAll(regions), f)
    ensures forall i :: 0 <= i < |regions| ==> Within(regions[i], HullAll(regions))
  {
    if |regions| > 1 {
      HullAllValid(regions[..|regions| - 1], f);
    }
  }

  predicate Within(r: DirtyRegion, s: DirtyRegion) {
    s.left <= r.left && s.top <= r.top && r.right <= s.right && r.bottom <= s.bottom
  }

  lemma DamageValid(f: FrameUpdate)
    requires f.width != 0 && f.height != 0
    ensures ValidRegion(Damage(f), f)
  {
    if f.dirty != [] && AllValid(f.dirty, f) {
      HullAllValid(f.dirty, f);
    }
  }

  lemma IndexParts(i: nat, width: nat, height: nat)
    requires i < width * height
    ensures i % width < width && i / width < height && (i / width) * width + i % width == i
  {
    var q := i / width;
    assert q >= height ==> q * width >= height * width;
  }

  lemma PartsOfIndex(x: nat, y: nat, width: nat)
    requires x < width
    ensures (y * width + x) % width == x && (y * width + x) / width == y
  {
    var i := y * width + x;
    SameQuotient(y - i / width, width, i % width - x);
  }

  lemma SameQuotient(d: int, width: int, gap: int)
    requires d * width == gap && width > 0 && -width < gap < width
    ensures d == 0 && gap == 0
  {
    assert d >= 1 ==> d * width >= width;
    assert d <= -1 ==> d * width <= -width;
  }

  /** The frame's pixels inside `r`. */
  function RegionImage<Color>(f: FrameUpdate, r: DirtyRegion, convert: seq<int> -> Color): Image<Color>
    requires WellFormed(f) && ValidRegion(r, f)
  {
    var width, height := PatchWidth(r), PatchHeight(r);
    Image(width, height, seq(width * height, i requires 0 <= i < width * height =>
      IndexParts(i, width, height); ColorAt(f, r.left + i % width, r.top + i / width, convert)))
  }

  /** The whole frame, converted pixel by pixel. */
  function FullImage<Color>(f: FrameUpdate, convert: seq<int> -> Color): Image<Color>
    requires WellFormed(f)
  {
    RegionImage(f, Full(f), convert)
  }

  lemma RegionImageShows<Color(!new)>(f: FrameUpdate, r: DirtyRegion, convert: seq<int> -> Color)
    requires WellFormed(f) && ValidRegion(r, f)
    ensures ShowsRegion(RegionImage(f, r, convert), f, r, convert)
  {
    var image := RegionImage(f, r, convert);
    forall x: nat, y: nat | x < image.width && y < image.height
      ensures PixelAt(image, x, y) == ColorAt(f, r.left + x, r.top + y, convert)
    {
      PixelInRange(image.width, image.height, x, y);
      PartsOfIndex(x, y, image.width);
    }
  }

  /** Images are determined by their pixels. */
  lemma SamePixels<Color(!new)>(a: Image<Color>, b: Image<Color>)
    requires Complete(a) && Complete(b) && a.width == b.width && a.height == b.height
    requires forall x: nat, y: nat :: x < a.width && y < a.height ==> PixelAt(a, x, y) == PixelAt(b, x, y)
    ensures a == b
  {
    forall i | 0 <= i < |a.pixels|
      ensures a.pixels[i] == b.pixels[i]
    {
      IndexParts(i, a.width, a.height);
      assert PixelAt(a, i % a.width, i / a.width) == PixelAt(b, i % a.width, i / a.width);
    }
  }

  lemma ShownOnce<Color(!new)>(a: Image<Color>, f: FrameUpdate, r: DirtyRegion, convert: seq<int> -> Color)
    requires WellFormed(f) && ValidRegion(r, f) && ShowsRegion(a, f, r, convert)
    ensures a == RegionImage(f, r, convert)
  {
    RegionImageShows(f, r, convert);
    SamePixels(a, RegionImage(f, r, convert));
  }

  /** Patch pixel `(x, y)` of `r` has been pushed, with the right color. */
  ghost predicate Pushed<Color(!new)>(pixels: seq<Color>, f: FrameUpdate, r: DirtyRegion, x: nat, y: nat,
      convert: seq<int> -> Color)
    requires WellFormed(f) && ValidRegion(r, f) && x < PatchWidth(r) && y < PatchHeight(r)
  {
    0 <= y * PatchWidth(r) + x < |pixels| && pixels[y * PatchWidth(r) + x] == ColorAt(f, r.left + x, r.top + y, convert)
  }

  /** All patch pixels before `(col, row)` in reading order have been pushed. */
  ghost predicate Filled<Color(!new)>(pixels: seq<Color>, f: FrameUpdate, r: DirtyRegion, row: nat, col: nat,
      convert: seq<int> -> Color)
    requires WellFormed(f) && ValidRegion(r, f)
  {
    && |pixels| == row * PatchWidth(r) + col
    && forall x: nat, y: nat :: x < PatchWidth(r) && y < PatchHeight(r) && (y < row || (y == row && x < col)) ==>
         Pushed(pixels, f, r, x, y, convert)
  }

  lemma FilledPush<Color(!new)>(pixels: seq<Color>, f: FrameUpdate, r: DirtyRegion, row: nat, col: nat,
      convert: seq<int> -> Color)
    requires WellFormed(f) && ValidRegion(r, f) && row < PatchHeight(r) && col < PatchWidth(r)
    requires Filled(pixels, f, r, row, col, convert)
    ensures Filled(pixels + [ColorAt(f, r.left + col, r.top + row, convert)], f, r, row, col + 1, convert)
  {
    var more := pixels + [ColorAt(f, r.left + col, r.top + row, convert)];
    forall x: nat, y: nat | x < PatchWidth(r) && y < PatchHeight(r) && (y < row || (y == row && x < col + 1))
      ensures Pushed(more, f, r, x, y, convert)
    {
      if y < row || x < col {
        assert Pushed(pixels, f, r, x, y, convert);
      }
    }
  }

  lemma FilledRow<Color(!new)>(pixels: seq<Color>, f: FrameUpdate, r: DirtyRegion, row: nat, convert: seq<int> -> Color)
    requires WellFormed(f) && ValidRegion(r, f) && Filled(pixels, f, r, row, PatchWidth(r), convert)
    ensures Filled(pixels, f, r, row + 1, 0, convert)
  {
    assert (row + 1) * PatchWidth(r) == row * PatchWidth(r) + PatchWidth(r);
  }

  lemma FilledShows<Color(!new)>(pixels: seq<Color>, f: FrameUpdate, r: DirtyRegion, convert: seq<int> -> Color)
    requires WellFormed(f) && ValidRegion(r, f) && Filled(pixels, f, r, PatchHeight(r), 0, convert)
    ensures Image(PatchWidth(r), PatchHeight(r), pixels) == RegionImage(f, r, convert)
  {
    var image := Image(PatchWidth(r), PatchHeight(r), pixels);
    forall x: nat, y: nat | x < image.width && y < image.height
      ensures PixelAt(image, x, y) == ColorAt(f, r.left + x, r.top + y, convert)
    {
      assert Pushed(pixels, f, r, x, y, convert);
    }
    ShownOnce(image, f, r, convert);
  }

  function UploadOf<Color>(f: FrameUpdate, previous: Option<(nat, nat)>, convert: seq<int> -> Color): Upload<Color>
    requires WellFormed(f)
  {
    DamageValid(f);
    var r := UploadRegion(f, previous);
    Upload(r.left, r.top, RegionImage(f, r, convert), r == Full(f))
  }

  /** Converts only the damaged rectangle; refuses a frame whose pixel count does not fit its size. */
  method PrepareUpload<Color(!new)>(f: FrameUpdate, previous: Option<(nat, nat)>, convert: seq<int> -> Color)
    returns (upload: Option<Upload<Color>>)
    ensures upload == if WellFormed(f) then Some(UploadOf(f, previous, convert)) else None
  {
    if f.width == 0 || f.height == 0 || |f.pixels| != f.width * f.height * 4 {
      return None;
    }
    DamageValid(f);
    var r := Full(f);
    if previous == Some((f.width, f.height)) {
      r := DamageBounds(f);
    }
    var width, height := r.right - r.left + 1, r.bottom - r.top + 1;
    if r.left == 0 && r.top == 0 && width == f.width && height == f.height {
      return Some(Upload(0, 0, FullImage(f, convert), true));
    }
    var pixels := ConvertRegion(f, r, convert);
    return Some(Upload(r.left, r.top, Image(width, height, pixels), false));
  }

  method ConvertRegion<Color(!new)>(f: FrameUpdate, r: DirtyRegion,
      convert: seq<int> -> Color) returns (pixels: seq<Color>)
    requires WellFormed(f) && ValidRegion(r, f)
    ensures Image(PatchWidth(r), PatchHeight(r), pixels) == RegionImage(f, r, convert)
  {
    var width, height := r.right - r.left + 1, r.bottom - r.top + 1;
    pixels := [];
    for row := 0 to height
      invariant Filled(pixels, f, r, row, 0, convert)
    {
      for col := 0 to width
        invariant Filled(pixels, f, r, row, col, convert)
      {
        FilledPush(pixels, f, r, row, col, convert);
        PixelInRange(f.width, f.height, r.left + col, r.top + row);
        var at := ((r.top + row) * f.width + r.left + col) * 4;
        pixels := pixels + [convert(f.pixels[at..at + 4])];
      }
      FilledRow(pixels, f, r, row, convert);
    }
    FilledShows(pixels, f, r, convert);
  }
}
