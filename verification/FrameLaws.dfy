/** Damage is the least rectangle that covers what was announced, and an upload converts no more than that. */
module FrameLaws {
  import opened Outcomes
  import opened FramePipeline
  import opened FrameRuns

  /** Every region has its edges in order and inside the frame. */
  ghost predicate Usable(f: FrameUpdate) {
    && f.dirty != []
    && forall i :: 0 <= i < |f.dirty| ==>
         var r := f.dirty[i]; r.left <= r.right && r.right < f.width && r.top <= r.bottom && r.bottom < f.height
  }

  ghost predicate CoversAll(r: DirtyRegion, regions: seq<DirtyRegion>) {
    forall i :: 0 <= i < |regions| ==> Covers(r, regions[i])
  }

  ghost predicate Covers(r: DirtyRegion, s: DirtyRegion) {
    forall x: nat, y: nat :: s.left <= x <= s.right && s.top <= y <= s.bottom ==> Holds(r, x, y)
  }

  lemma CoversIsWithin(r: DirtyRegion, s: DirtyRegion)
    requires s.left <= s.right && s.top <= s.bottom
    ensures Covers(r, s) <==> Within(s, r)
  {
    if Covers(r, s) {
      assert Holds(r, s.left, s.top) && Holds(r, s.right, s.bottom);
    }
  }

  lemma {:induction false} HullIsLeast(regions: seq<DirtyRegion>, r: DirtyRegion)
    requires regions != [] && forall i :: 0 <= i < |regions| ==> Within(regions[i], r)
    ensures Within(HullAll(regions), r)
  {
    if |regions| > 1 {
      HullIsLeast(regions[..|regions| - 1], r);
    }
  }

  /** The whole frame, edges included. */
  ghost predicate IsWhole(r: DirtyRegion, f: FrameUpdate) {
    r.left == 0 && r.top == 0 && r.right + 1 == f.width && r.bottom + 1 == f.height
  }

  /**
   * The damage covers every announced region and lies within every rectangle that does; unusable regions mean
   * everything.
   */
  lemma DamageIsLeast(f: FrameUpdate)
    requires Sized(f)
    ensures Usable(f) ==> CoversAll(Damage(f), f.dirty)
    ensures Usable(f) ==> forall r: DirtyRegion :: CoversAll(r, f.dirty) ==> Covers(r, Damage(f))
    ensures !Usable(f) ==> IsWhole(Damage(f), f)
  {
    if Usable(f) {
      assert forall i :: 0 <= i < |f.dirty| ==> ValidRegion(f.dirty[i], f);
      HullAllValid(f.dirty, f);
      forall r: DirtyRegion | CoversAll(r, f.dirty)
        ensures Covers(r, Damage(f))
      {
        forall i | 0 <= i < |f.dirty|
          ensures Within(f.dirty[i], r)
        {
          CoversIsWithin(r, f.dirty[i]);
        }
        HullIsLeast(f.dirty, r);
      }
    }
  }

  /** A merged frame has the newer picture, and the least damage that covers both, or everything after a resize. */
  lemma MergedIsLeast(newer: FrameUpdate, older: FrameUpdate)
    requires Sized(newer)
    ensures var m := Merged(newer, older);
      && m.width == newer.width && m.height == newer.height && m.pixels == newer.pixels
      && if newer.width == older.width && newer.height == older.height then
           && Covers(Damage(m), Damage(newer)) && Covers(Damage(m), Damage(older))
           && forall r: DirtyRegion :: Covers(r, Damage(newer)) && Covers(r, Damage(older)) ==> Covers(r, Damage(m))
         else IsWhole(Damage(m), m)
  {
    MergedDamageIs(newer, older);
    DamageValid(newer);
    if SameSize(newer, older) {
      DamageValid(older);
      forall r: DirtyRegion | Covers(r, Damage(newer)) && Covers(r, Damage(older))
        ensures Covers(r, Hull(Damage(newer), Damage(older)))
      {
        CoversIsWithin(r, Damage(newer));
        CoversIsWithin(r, Damage(older));
      }
    }
  }

  /**
   * An upload is the damaged rectangle where the texture has the frame's size, and the whole frame where it has not.
   */
  lemma UploadIsNoLarger<Color(!new)>(f: FrameUpdate, previous: Option<(nat, nat)>, convert: seq<int> -> Color)
    requires WellFormed(f)
    ensures var u, r := UploadOf(f, previous, convert), Damage(f);
      if previous == Some((f.width, f.height)) then
        && u.left == r.left && u.top == r.top
        && u.image.width == r.right + 1 - r.left && u.image.height == r.bottom + 1 - r.top
        && (u.full <==> u.image.width == f.width && u.image.height == f.height)
      else u.full && u.left == 0 && u.top == 0 && u.image.width == f.width && u.image.height == f.height
  {
    DamageValid(f);
  }

  /** Each converted pixel is the frame's pixel at that place, from its four bytes in order. */
  lemma UploadShowsPixels<Color(!new)>(f: FrameUpdate, previous: Option<(nat, nat)>, convert: seq<int> -> Color,
      x: nat, y: nat)
    requires WellFormed(f) && var u := UploadOf(f, previous, convert); x < u.image.width && y < u.image.height
    ensures var u := UploadOf(f, previous, convert);
      && |u.image.pixels| == u.image.width * u.image.height && u.left + x < f.width && u.top + y < f.height
      && 0 <= y * u.image.width + x < |u.image.pixels|
      && 0 <= ((u.top + y) * f.width + (u.left + x)) * 4 <= |f.pixels| - 4
      && var at := ((u.top + y) * f.width + (u.left + x)) * 4;
         u.image.pixels[y * u.image.width + x] == convert(f.pixels[at..at + 4])
  {
    DamageValid(f);
    var u, r := UploadOf(f, previous, convert), UploadRegion(f, previous);
    RegionImageShows(f, r, convert);
    PixelInRange(u.image.width, u.image.height, x, y);
    PixelInRange(f.width, f.height, u.left + x, u.top + y);
    assert PixelAt(u.image, x, y) == ColorAt(f, r.left + x, r.top + y, convert);
  }
  /**
   * A first upload uses every byte of the frame; a frame whose bytes do not fill its picture is not converted at all.
   */
  lemma WholeUploadUsesEveryByte<Color(!new)>(f: FrameUpdate, convert: seq<int> -> Color)
    ensures WellFormed(f) <==> f.width * f.height >= 1 && 4 * (f.width * f.height) == |f.pixels|
    ensures WellFormed(f) ==> 4 * |UploadOf(f, None, convert).image.pixels| == |f.pixels|
  {
    if f.width > 0 && f.height > 0 {
      PixelInRange(f.width, f.height, 0, 0);
    }
    if WellFormed(f) {
      UploadComplete(f, None, convert);
    }
  }
}
