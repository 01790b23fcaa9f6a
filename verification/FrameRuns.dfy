/**
 * The whole presentation pipeline: frames are published into the mailbox, delivered to the session, and drawn onto
 * the texture by partial uploads. It must end up where uploading everything every time would.
 */
module FrameRuns {
  import opened Outcomes
  import opened FramePipeline

  /**
   * `pending` waits in the mailbox and `latest` in the session; `queued` and `held` are the frames they stand for,
   * oldest first. `shown` is the frame drawn last. `last` is the frame published last on this connection.
   */
  datatype Pipeline<Color> = Pipeline(
    pending: Option<FrameUpdate>, queued: seq<FrameUpdate>, latest: Option<FrameUpdate>, held: seq<FrameUpdate>,
    texture: Option<Image<Color>>, shown: Option<FrameUpdate>, last: Option<FrameUpdate>,
    published: nat, replaced: nat, taken: nat)

  /** A reconnection gives the session a new mailbox and forgets its undrawn frame; the texture stays. */
  datatype Event = Publish(frame: FrameUpdate) | Deliver | Draw | Reconnect

  function SizeOf<Color>(texture: Option<Image<Color>>): Option<(nat, nat)> {
    if texture.None? then None else Some((texture.value.width, texture.value.height))
  }

  /** A partial upload overwrites its rectangle and nothing else. */
  function Patched<Color>(t: Image<Color>, u: Upload<Color>): (r: Image<Color>)
    requires Complete(t) && Complete(u.image)
    ensures r.width == t.width && r.height == t.height && Complete(r)
  {
    Image(t.width, t.height, seq(t.width * t.height, i requires 0 <= i < t.width * t.height =>
      IndexParts(i, t.width, t.height);
      var x, y := i % t.width, i / t.width;
      if u.left <= x < u.left + u.image.width && u.top <= y < u.top + u.image.height
      then PixelAt(u.image, x - u.left, y - u.top) else t.pixels[i]))
  }

  function Uploaded<Color>(texture: Option<Image<Color>>, u: Upload<Color>): Image<Color>
    requires texture.Some? ==> Complete(texture.value)
    requires Complete(u.image)
  {
    if u.full || texture.None? then u.image else Patched(texture.value, u)
  }

  ghost predicate TextureOk<Color>(s: Pipeline<Color>) { s.texture.Some? ==> Complete(s.texture.value) }

  lemma UploadComplete<Color>(f: FrameUpdate, previous: Option<(nat, nat)>, convert: seq<int> -> Color)
    requires WellFormed(f)
    ensures Complete(UploadOf(f, previous, convert).image)
  {
  }

  /** A frame that cannot be converted is dropped and leaves the texture as it was. */
  function Drawn<Color>(s: Pipeline<Color>, convert: seq<int> -> Color): (t: Pipeline<Color>)
    requires TextureOk(s)
    ensures TextureOk(t)
  {
    if s.latest.None? then s
    else
      var f := s.latest.value;
      if !WellFormed(f) then s.(latest := None, held := [])
      else
        UploadComplete(f, SizeOf(s.texture), convert);
        s.(latest := None, held := [], shown := Some(f),
           texture := Some(Uploaded(s.texture, UploadOf(f, SizeOf(s.texture), convert))))
  }

  function Step<Color>(s: Pipeline<Color>, e: Event, convert: seq<int> -> Color): (t: Pipeline<Color>)
    requires TextureOk(s)
    ensures TextureOk(t)
  {
    match e
    case Publish(f) =>
      s.(pending := Some(Slotted(s.pending, f)), queued := s.queued + [f], last := Some(f),
        published := s.published + 1,
         replaced := s.replaced + if s.pending.Some? then 1 else 0)
    case Deliver =>
      if s.pending.None? then s
      else
        s.(pending := None, queued := [], latest := Some(Slotted(s.latest, s.pending.value)), held := s.held + s.queued,
           taken := s.taken + 1)
    case Draw => Drawn(s, convert)
    case Reconnect =>
      s.(pending := None, queued := [], latest := None, held := [], last := None, published := 0, replaced := 0,
        taken := 0)
  }

  function Run<Color>(s: Pipeline<Color>, events: seq<Event>, convert: seq<int> -> Color): (t: Pipeline<Color>)
    requires TextureOk(s)
    ensures TextureOk(t)
    decreases |events|
  {
    if events == [] then s else Run(Step(s, events[0], convert), events[1..], convert)
  }

  function Start<Color>(): Pipeline<Color> { Pipeline(None, [], None, [], None, None, None, 0, 0, 0) }

  // ---- One upload

  predicate Holds(r: DirtyRegion, x: nat, y: nat) { r.left <= x <= r.right && r.top <= y <= r.bottom }

  predicate SameSize(f: FrameUpdate, g: FrameUpdate) { f.width == g.width && f.height == g.height }

  /** A texture of the frame's size already shows the frame at every pixel outside `r`. */
  ghost predicate OutsideAgrees<Color>(f: FrameUpdate, r: DirtyRegion, texture: Option<Image<Color>>,
      convert: seq<int> -> Color)
    requires WellFormed(f) && (texture.Some? ==> Complete(texture.value))
  {
    SizeOf(texture) == Some((f.width, f.height)) ==>
      forall x: nat, y: nat :: x < f.width && y < f.height && !Holds(r, x, y) ==>
        PixelAt(texture.value, x, y) == ColorAt(f, x, y, convert)
  }

  lemma FullImagePixel<Color(!new)>(f: FrameUpdate, x: nat, y: nat, convert: seq<int> -> Color)
    requires WellFormed(f) && x < f.width && y < f.height
    ensures var image := FullImage(f, convert);
      Complete(image) && image.width == f.width && image.height == f.height
        && PixelAt(image, x, y) == ColorAt(f, x, y, convert)
  {
    RegionImageShows(f, Full(f), convert);
  }

  lemma PatchedPixel<Color>(t: Image<Color>, u: Upload<Color>, x: nat, y: nat)
    requires Complete(t) && Complete(u.image) && x < t.width && y < t.height
    ensures PixelAt(Patched(t, u), x, y) ==
      if u.left <= x < u.left + u.image.width && u.top <= y < u.top + u.image.height
      then PixelAt(u.image, x - u.left, y - u.top) else PixelAt(t, x, y)
  {
    PixelInRange(t.width, t.height, x, y);
    PartsOfIndex(x, y, t.width);
  }

  /** A patched texture shows the frame inside the damage and what it showed before outside. */
  lemma PatchedShows<Color(!new)>(t: Image<Color>, f: FrameUpdate, u: Upload<Color>, x: nat, y: nat,
      convert: seq<int> -> Color)
    requires WellFormed(f) && u == UploadOf(f, Some((f.width, f.height)), convert) && Complete(u.image)
    requires Complete(t) && t.width == f.width && t.height == f.height && x < f.width && y < f.height
    ensures PixelAt(Patched(t, u), x, y) ==
      if Holds(Damage(f), x, y) then ColorAt(f, x, y, convert) else PixelAt(t, x, y)
  {
    DamageValid(f);
    var r := Damage(f);
    RegionImageShows(f, r, convert);
    PatchedPixel(t, u, x, y);
    if Holds(r, x, y) {
      assert PixelAt(u.image, x - r.left, y - r.top) == ColorAt(f, r.left + (x - r.left), r.top + (y - r.top), convert);
    }
  }

  lemma AgreeingPatch<Color(!new)>(t: Image<Color>, f: FrameUpdate, u: Upload<Color>, convert: seq<int> -> Color)
    requires WellFormed(f) && u == UploadOf(f, Some((f.width, f.height)), convert) && Complete(u.image)
    requires Complete(t) && t.width == f.width && t.height == f.height && OutsideAgrees(f, Damage(f), Some(t), convert)
    ensures Patched(t, u) == FullImage(f, convert)
  {
    forall x: nat, y: nat | x < f.width && y < f.height
      ensures PixelAt(Patched(t, u), x, y) == PixelAt(FullImage(f, convert), x, y)
    {
      FullImagePixel(f, x, y, convert);
      PatchedShows(t, f, u, x, y, convert);
    }
    SamePixels(Patched(t, u), FullImage(f, convert));
  }

  lemma PatchAgreed<Color(!new)>(t: Image<Color>, f: FrameUpdate, u: Upload<Color>, convert: seq<int> -> Color)
    requires WellFormed(f) && u == UploadOf(f, Some((f.width, f.height)), convert) && Complete(u.image)
    requires Complete(t) && t.width == f.width && t.height == f.height && Patched(t, u) == FullImage(f, convert)
    ensures OutsideAgrees(f, Damage(f), Some(t), convert)
  {
    forall x: nat, y: nat | x < f.width && y < f.height && !Holds(Damage(f), x, y)
      ensures PixelAt(t, x, y) == ColorAt(f, x, y, convert)
    {
      FullImagePixel(f, x, y, convert);
      PatchedShows(t, f, u, x, y, convert);
    }
  }

  /** Patching a texture gives the whole frame if and only if the texture agreed with it outside the damage. */
  lemma PatchExactly<Color(!new)>(t: Image<Color>, f: FrameUpdate, u: Upload<Color>, convert: seq<int> -> Color)
    requires WellFormed(f) && u == UploadOf(f, Some((f.width, f.height)), convert) && Complete(u.image)
    requires Complete(t) && t.width == f.width && t.height == f.height
    ensures Patched(t, u) == FullImage(f, convert) <==> OutsideAgrees(f, Damage(f), Some(t), convert)
  {
    if OutsideAgrees(f, Damage(f), Some(t), convert) {
      AgreeingPatch(t, f, u, convert);
    } else if Patched(t, u) == FullImage(f, convert) {
      PatchAgreed(t, f, u, convert);
    }
  }

  /**
   * Whatever the texture holds, uploading a frame shows it if and only if the texture agreed with it outside the
   * damage.
   */
  lemma UploadExactly<Color(!new)>(texture: Option<Image<Color>>, f: FrameUpdate, convert: seq<int> -> Color)
    requires WellFormed(f) && (texture.Some? ==> Complete(texture.value))
    ensures var u := UploadOf(f, SizeOf(texture), convert);
      Complete(u.image) && (Uploaded(texture, u) == FullImage(f, convert) <==>
        OutsideAgrees(f, Damage(f), texture, convert))
  {
    UploadComplete(f, SizeOf(texture), convert);
    if SizeOf(texture) == Some((f.width, f.height)) && Damage(f) != Full(f) {
      PatchExactly(texture.value, f, UploadOf(f, SizeOf(texture), convert), convert);
    }
  }

  // ---- What a slot carries

  ghost predicate SamePicture(f: FrameUpdate, g: FrameUpdate) { f.(dirty := []) == g.(dirty := []) }

  function Newest(batch: seq<FrameUpdate>): FrameUpdate
    requires batch != []
  {
    batch[|batch| - 1]
  }

  ghost predicate OneSize(batch: seq<FrameUpdate>)
    requires batch != []
  {
    forall i :: 0 <= i < |batch| ==> SameSize(batch[i], Newest(batch))
  }

  /** The hull of everything the frames announced. */
  function Announced(batch: seq<FrameUpdate>): DirtyRegion
    requires batch != []
  {
    if |batch| == 1 then Damage(batch[0]) else Hull(Announced(batch[..|batch| - 1]), Damage(Newest(batch)))
  }

  /** The damage of a batch: what its frames announced, or everything once their sizes differ. */
  ghost function BatchDamage(batch: seq<FrameUpdate>): DirtyRegion
    requires batch != []
  {
    if OneSize(batch) then Announced(batch) else Full(Newest(batch))
  }

  predicate Sized(f: FrameUpdate) { f.width != 0 && f.height != 0 }

  lemma HullWithFull(r: DirtyRegion, f: FrameUpdate)
    requires ValidRegion(r, f)
    ensures Hull(Full(f), r) == Full(f) && Hull(r, Full(f)) == Full(f)
  {
  }

  lemma {:induction false} AnnouncedValid(batch: seq<FrameUpdate>)
    requires batch != [] && OneSize(batch) && Sized(Newest(batch))
    ensures ValidRegion(Announced(batch), Newest(batch))
  {
    DamageValid(Newest(batch));
    if |batch| > 1 {
      var front := batch[..|batch| - 1];
      assert SameSize(Newest(front), Newest(batch));
      assert OneSize(front);
      AnnouncedValid(front);
    }
  }

  lemma BatchDamageValid(batch: seq<FrameUpdate>)
    requires batch != [] && Sized(Newest(batch))
    ensures ValidRegion(BatchDamage(batch), Newest(batch))
  {
    if OneSize(batch) {
      AnnouncedValid(batch);
    }
  }

  lemma HullsJoin(a: DirtyRegion, b: DirtyRegion, c: DirtyRegion)
    ensures Hull(Hull(b, a), c) == Hull(Hull(b, c), a)
  {
  }

  lemma AnnouncedSnoc(front: seq<FrameUpdate>, f: FrameUpdate)
    requires front != []
    ensures Announced(front + [f]) == Hull(Announced(front), Damage(f))
  {
    assert (front + [f])[..|front|] == front;
  }

  lemma {:induction false} AnnouncedAppend(a: seq<FrameUpdate>, b: seq<FrameUpdate>)
    requires a != [] && b != []
    ensures Announced(a + b) == Hull(Announced(b), Announced(a))
  {
    var front, f := b[..|b| - 1], Newest(b);
    assert b == front + [f];
    if front == [] {
      assert b == [f];
      AnnouncedSnoc(a, f);
    } else {
      assert a + b == (a + front) + [f];
      AnnouncedSnoc(a + front, f);
      AnnouncedSnoc(front, f);
      AnnouncedAppend(a, front);
      HullsJoin(Announced(a), Announced(front), Damage(f));
    }
  }

  lemma OneSizeAppend(a: seq<FrameUpdate>, b: seq<FrameUpdate>)
    requires a != [] && b != []
    ensures OneSize(a + b) <==> OneSize(a) && OneSize(b) && SameSize(Newest(a), Newest(b))
  {
    var ab := a + b;
    assert Newest(ab) == Newest(b);
    if OneSize(ab) {
      forall i | 0 <= i < |a|
        ensures SameSize(a[i], Newest(b))
      {
        assert ab[i] == a[i];
      }
      forall i | 0 <= i < |b|
        ensures SameSize(b[i], Newest(b))
      {
        assert ab[|a| + i] == b[i];
      }
    }
  }

  lemma BatchDamageAppend(a: seq<FrameUpdate>, b: seq<FrameUpdate>)
    requires a != [] && b != [] && Sized(Newest(b))
    ensures BatchDamage(a + b) ==
      if SameSize(Newest(a), Newest(b)) then Hull(BatchDamage(b), BatchDamage(a)) else Full(Newest(b))
  {
    assert Newest(a + b) == Newest(b);
    OneSizeAppend(a, b);
    AnnouncedAppend(a, b);
    BatchDamageValid(b);
    if SameSize(Newest(a), Newest(b)) {
      BatchDamageValid(a);
      HullWithFull(BatchDamage(a), Newest(b));
      HullWithFull(BatchDamage(b), Newest(b));
    }
  }

  /** A slot shows the newest frame of its batch and carries the damage of the whole batch. */
  ghost predicate Carries(slot: Option<FrameUpdate>, batch: seq<FrameUpdate>) {
    && (slot.None? <==> batch == [])
    && (slot.Some? ==> SamePicture(slot.value, Newest(batch)))
    && (slot.Some? && Sized(slot.value) ==> Damage(slot.value) == BatchDamage(batch))
  }

  lemma MergedDamageIs(f: FrameUpdate, older: FrameUpdate)
    requires Sized(f)
    ensures Damage(Merged(f, older)) == if SameSize(f, older) then Hull(Damage(f), Damage(older)) else Full(f)
  {
    DamageValid(f);
    if SameSize(f, older) {
      DamageValid(older);
    }
    var merged := Merged(f, older);
    assert ValidRegion(merged.dirty[0], merged);
    assert AllValid(merged.dirty, merged);
  }

  /** Merging a frame over a slot joins what they stand for: no skipped announcement is lost. */
  lemma SlottedCarries(slot: Option<FrameUpdate>, older: seq<FrameUpdate>, f: FrameUpdate, newer: seq<FrameUpdate>)
    requires Carries(slot, older) && Carries(Some(f), newer)
    ensures Carries(Some(Slotted(slot, f)), older + newer)
  {
    if slot.None? {
      assert older + newer == newer;
    } else {
      assert Newest(older + newer) == Newest(newer);
      if Sized(f) {
        MergedDamageIs(f, slot.value);
        BatchDamageAppend(older, newer);
      }
    }
  }

  /** Both slots carry their batches, and every published frame was taken, was replaced, or is pending. */
  ghost predicate Faithful<Color>(s: Pipeline<Color>) {
    && TextureOk(s) && Carries(s.pending, s.queued) && Carries(s.latest, s.held)
    && s.published == s.taken + s.replaced + if s.pending.Some? then 1 else 0
  }

  lemma StepFaithful<Color>(s: Pipeline<Color>, e: Event, convert: seq<int> -> Color)
    requires Faithful(s)
    ensures Faithful(Step(s, e, convert))
  {
    match e
    case Publish(f) => SlottedCarries(s.pending, s.queued, f, [f]);
    case Deliver =>
      if s.pending.Some? {
        SlottedCarries(s.latest, s.held, s.pending.value, s.queued);
      }
    case Draw =>
    case Reconnect =>
  }

  lemma {:induction false} RunFaithful<Color>(s: Pipeline<Color>, events: seq<Event>, convert: seq<int> -> Color)
    requires Faithful(s)
    ensures Faithful(Run(s, events, convert))
    decreases |events|
  {
    if events != [] {
      StepFaithful(s, events[0], convert);
      RunFaithful(Step(s, events[0], convert), events[1..], convert);
    }
  }

  lemma SameFullImage<Color>(f: FrameUpdate, g: FrameUpdate, convert: seq<int> -> Color)
    requires SamePicture(f, g) && WellFormed(g)
    ensures WellFormed(f) && FullImage(f, convert) == FullImage(g, convert)
  {
    assert FullImage(f, convert).pixels == FullImage(g, convert).pixels;
  }

  lemma DrawFaithful<Color(!new)>(s: Pipeline<Color>, convert: seq<int> -> Color)
    requires Faithful(s) && s.held != [] && WellFormed(Newest(s.held))
    ensures Step(s, Draw, convert).texture == Some(FullImage(Newest(s.held), convert)) <==>
      OutsideAgrees(Newest(s.held), BatchDamage(s.held), s.texture, convert)
  {
    var f := s.latest.value;
    SameFullImage(f, Newest(s.held), convert);
    UploadExactly(s.texture, f, convert);
    assert forall x: nat, y: nat :: x < f.width && y < f.height ==>
      ColorAt(f, x, y, convert) == ColorAt(Newest(s.held), x, y, convert);
  }

  // ---- Main result: when the picture is right

  /**
   * After any events whatever, a drawing shows exactly the newest frame delivered if and only if, outside the hull of
   * all that was announced since the drawing before, the texture already agreed with it; a malformed newest frame, or
   * none, leaves the texture alone. Every published frame was taken, was replaced, or is pending.
   */
  lemma DrawnExactly<Color(!new)>(events: seq<Event>, convert: seq<int> -> Color)
    ensures var s := Run(Start<Color>(), events, convert);
      var t := Step(s, Draw, convert);
      && s.published == s.taken + s.replaced + (if s.pending.Some? then 1 else 0)
      && (if s.held != [] && WellFormed(Newest(s.held))
          then t.texture == Some(FullImage(Newest(s.held), convert)) <==>
                 OutsideAgrees(Newest(s.held), BatchDamage(s.held), s.texture, convert)
          else t.texture == s.texture)
  {
    var s := Run(Start<Color>(), events, convert);
    RunFaithful(Start<Color>(), events, convert);
    if s.held != [] && WellFormed(Newest(s.held)) {
      DrawFaithful(s, convert);
    }
  }

  // ---- A discipline under which it always is

  ghost predicate Differ(f: FrameUpdate, g: FrameUpdate, x: nat, y: nat)
    requires WellFormed(f) && WellFormed(g) && SameSize(f, g) && x < f.width && y < f.height
  {
    BytesAt(f, x, y) != BytesAt(g, x, y)
  }

  /** Every pixel that changed lies in some dirty region. */
  ghost predicate CoversDifference(f: FrameUpdate, g: FrameUpdate)
    requires WellFormed(f) && WellFormed(g) && SameSize(f, g)
  {
    forall x: nat, y: nat :: x < f.width && y < f.height && Differ(f, g, x, y) ==>
      exists i :: 0 <= i < |f.dirty| && Holds(f.dirty[i], x, y)
  }

  /**
   * A well-formed frame announces its difference from the frame before it, or everything. After a frame of another size
   * nothing is owed.
   */
  ghost predicate Honest(f: FrameUpdate, before: Option<FrameUpdate>) {
    WellFormed(f) && before.Some? ==>
      || Damage(f) == Full(f)
      || (WellFormed(before.value) && (SameSize(f, before.value) ==> CoversDifference(f, before.value)))
  }

  /** The frame before: the last one of this connection or, for its first, the frame still shown from an earlier one. */
  function Before<Color>(s: Pipeline<Color>): Option<FrameUpdate> {
    if s.last.Some? then s.last else s.shown
  }

  ghost predicate HonestRun<Color(!new)>(s: Pipeline<Color>, events: seq<Event>, convert: seq<int> -> Color)
    requires TextureOk(s)
    decreases |events|
  {
    events != [] ==>
      && (events[0].Publish? ==> Honest(events[0].frame, Before(s)))
      && HonestRun(Step(s, events[0], convert), events[1..], convert)
  }

  ghost predicate ShownBy<Color>(texture: Option<Image<Color>>, shown: Option<FrameUpdate>,
      convert: seq<int> -> Color) {
    if shown.None? then texture.None?
    else WellFormed(shown.value) && texture == Some(FullImage(shown.value, convert))
  }

  function Predecessor(batch: seq<FrameUpdate>, i: nat, shown: Option<FrameUpdate>): Option<FrameUpdate>
    requires i < |batch|
  {
    if i == 0 then shown else Some(batch[i - 1])
  }

  ghost predicate Chained(batch: seq<FrameUpdate>, shown: Option<FrameUpdate>) {
    forall i :: 0 <= i < |batch| ==> Honest(batch[i], Predecessor(batch, i, shown))
  }

  lemma ChainedFront(batch: seq<FrameUpdate>, n: nat, shown: Option<FrameUpdate>)
    requires n <= |batch| && Chained(batch, shown)
    ensures Chained(batch[..n], shown)
  {
    forall i | 0 <= i < n
      ensures Honest(batch[..n][i], Predecessor(batch[..n], i, shown))
    {
      assert Honest(batch[i], Predecessor(batch, i, shown));
    }
  }

  lemma DifferenceInDamage(f: FrameUpdate, before: FrameUpdate, x: nat, y: nat)
    requires WellFormed(f) && WellFormed(before) && SameSize(f, before) && CoversDifference(f, before)
    requires Damage(f) != Full(f) && x < f.width && y < f.height && Differ(f, before, x, y)
    ensures Holds(Damage(f), x, y)
  {
    HullAllValid(f.dirty, f);
    var i :| 0 <= i < |f.dirty| && Holds(f.dirty[i], x, y);
    assert Within(f.dirty[i], HullAll(f.dirty));
  }

  /** A pixel that differs from the shown frame was announced, or differed already in the frame before. */
  lemma DifferenceStems(f: FrameUpdate, before: FrameUpdate, shown: FrameUpdate, x: nat, y: nat)
    requires Honest(f, Some(before)) && WellFormed(f) && WellFormed(shown) && SameSize(f, before) && SameSize(f, shown)
    requires x < f.width && y < f.height && Differ(f, shown, x, y)
    ensures Holds(Damage(f), x, y) || (WellFormed(before) && Differ(before, shown, x, y))
  {
    if Damage(f) != Full(f) && Differ(f, before, x, y) {
      DifferenceInDamage(f, before, x, y);
    }
  }

  lemma FrontOf(batch: seq<FrameUpdate>)
    requires |batch| > 1 && OneSize(batch)
    ensures var front := batch[..|batch| - 1];
      && OneSize(front) && Newest(front) == batch[|batch| - 2] && SameSize(Newest(front), Newest(batch))
      && Announced(batch) == Hull(Announced(front), Damage(Newest(batch)))
  {
    assert SameSize(batch[|batch| - 2], Newest(batch));
  }

  /**
   * Along a chain of honest frames, the differences add up: the last differs from the shown one only where announced.
   */
  lemma {:induction false} ChainAnnounces(batch: seq<FrameUpdate>, shown: FrameUpdate, x: nat, y: nat)
    requires batch != [] && OneSize(batch) && Chained(batch, Some(shown))
    requires WellFormed(Newest(batch)) && WellFormed(shown) && SameSize(Newest(batch), shown)
    requires x < shown.width && y < shown.height && Differ(Newest(batch), shown, x, y)
    ensures Holds(Announced(batch), x, y)
  {
    var n := |batch| - 1;
    assert Honest(batch[n], Predecessor(batch, n, Some(shown)));
    if n == 0 {
      DifferenceStems(batch[0], shown, shown, x, y);
    } else {
      FrontOf(batch);
      ChainedFront(batch, n, Some(shown));
      DifferenceStems(batch[n], batch[n - 1], shown, x, y);
      if !Holds(Damage(batch[n]), x, y) {
        ChainAnnounces(batch[..n], shown, x, y);
      }
    }
  }

  lemma ChainAgrees<Color(!new)>(batch: seq<FrameUpdate>, texture: Option<Image<Color>>, shown: Option<FrameUpdate>,
                                 convert: seq<int> -> Color)
    requires batch != [] && Chained(batch, shown) && WellFormed(Newest(batch)) && ShownBy(texture, shown, convert)
    ensures texture.Some? ==> Complete(texture.value)
    ensures OutsideAgrees(Newest(batch), BatchDamage(batch), texture, convert)
  {
    var f := Newest(batch);
    if shown.Some? {
      FullImagePixel(shown.value, 0, 0, convert);
    }
    if SizeOf(texture) == Some((f.width, f.height)) {
      forall x: nat, y: nat | x < f.width && y < f.height && !Holds(BatchDamage(batch), x, y)
        ensures PixelAt(texture.value, x, y) == ColorAt(f, x, y, convert)
      {
        FullImagePixel(shown.value, x, y, convert);
        if Differ(f, shown.value, x, y) {
          ChainAnnounces(batch, shown.value, x, y);
        }
      }
    }
  }

  lemma HonestAfter(f: FrameUpdate, before: FrameUpdate, other: Option<FrameUpdate>)
    requires Honest(f, Some(before)) && (!WellFormed(before) || (other.Some? && SamePicture(before, other.value)))
    ensures Honest(f, other)
  {
    if WellFormed(f) && other.Some? && Damage(f) != Full(f) && SameSize(f, other.value) {
      forall x: nat, y: nat | x < f.width && y < f.height && Differ(f, other.value, x, y)
        ensures exists i :: 0 <= i < |f.dirty| && Holds(f.dirty[i], x, y)
      {
        assert Differ(f, before, x, y);
      }
    }
  }

  /** The frame published last is the newest one waiting or, once nothing waits, the one shown. */
  ghost predicate UpToLast(last: Option<FrameUpdate>, batch: seq<FrameUpdate>, shown: Option<FrameUpdate>) {
    if last.None? then batch == []
    else if batch != [] then Newest(batch) == last.value
    else !WellFormed(last.value) || (shown.Some? && SamePicture(shown.value, last.value))
  }

  /** The texture shows `shown`, and what waits is honest from there up to the frame published last. */
  ghost predicate Telling<Color(!new)>(s: Pipeline<Color>, convert: seq<int> -> Color) {
    var batch := s.held + s.queued;
    && Faithful(s) && ShownBy(s.texture, s.shown, convert) && Chained(batch, s.shown)
    && UpToLast(s.last, batch, s.shown)
  }

  lemma PredecessorSnoc(batch: seq<FrameUpdate>, f: FrameUpdate, i: nat, shown: Option<FrameUpdate>)
    requires i <= |batch|
    ensures Predecessor(batch + [f], i, shown) ==
      if i < |batch| then Predecessor(batch, i, shown) else if batch == [] then shown else Some(Newest(batch))
  {
  }

  lemma ChainedSnoc(batch: seq<FrameUpdate>, f: FrameUpdate, shown: Option<FrameUpdate>)
    requires Chained(batch, shown) && Honest(f, if batch == [] then shown else Some(Newest(batch)))
    ensures Chained(batch + [f], shown) && Newest(batch + [f]) == f
  {
    var more := batch + [f];
    forall i | 0 <= i < |more|
      ensures Honest(more[i], Predecessor(more, i, shown))
    {
      PredecessorSnoc(batch, f, i, shown);
      if i < |batch| {
        assert Honest(batch[i], Predecessor(batch, i, shown)) && more[i] == batch[i];
      } else {
        assert more[i] == f;
      }
    }
  }

  lemma PublishTelling<Color(!new)>(s: Pipeline<Color>, f: FrameUpdate, convert: seq<int> -> Color)
    requires Telling(s, convert) && Honest(f, Before(s))
    ensures Telling(Step(s, Publish(f), convert), convert)
  {
    StepFaithful(s, Publish(f), convert);
    var batch := s.held + s.queued;
    assert s.held + (s.queued + [f]) == batch + [f];
    if batch == [] && s.last.Some? {
      HonestAfter(f, s.last.value, s.shown);
    }
    ChainedSnoc(batch, f, s.shown);
  }

  lemma DeliverTelling<Color(!new)>(s: Pipeline<Color>, convert: seq<int> -> Color)
    requires Telling(s, convert)
    ensures Telling(Step(s, Deliver, convert), convert)
  {
    StepFaithful(s, Deliver, convert);
    assert (s.held + s.queued) + [] == s.held + s.queued;
  }

  lemma DrawTelling<Color(!new)>(s: Pipeline<Color>, convert: seq<int> -> Color)
    requires Telling(s, convert)
    ensures Telling(Step(s, Draw, convert), convert)
  {
    if s.held == [] {
      assert Step(s, Draw, convert) == s;
    } else {
      StepFaithful(s, Draw, convert);
      var t := Step(s, Draw, convert);
      var now := t.shown;
      DrawEmptiesHeld(s, convert);
      if WellFormed(Newest(s.held)) {
        ShowsNewest(s, convert);
      }
      RestTold(s, now);
      assert t.held + t.queued == s.queued;
    }
  }

  lemma DrawEmptiesHeld<Color(!new)>(s: Pipeline<Color>, convert: seq<int> -> Color)
    requires Faithful(s) && s.held != []
    ensures var t := Step(s, Draw, convert);
      && t.held == [] && t.queued == s.queued && t.last == s.last
      && (!WellFormed(Newest(s.held)) ==> t.shown == s.shown && t.texture == s.texture)
  {
  }

  lemma RestTold<Color>(s: Pipeline<Color>, now: Option<FrameUpdate>)
    requires s.held != [] && Chained(s.held + s.queued, s.shown) && UpToLast(s.last, s.held + s.queued, s.shown)
    requires !WellFormed(Newest(s.held)) || (now.Some? && SamePicture(Newest(s.held), now.value))
    ensures Chained(s.queued, now) && UpToLast(s.last, s.queued, now)
  {
    RestChained(s.held, s.queued, s.shown, now);
    RestUpToLast(s.last, s.held, s.queued, s.shown, now);
  }

  lemma ShowsNewest<Color(!new)>(s: Pipeline<Color>, convert: seq<int> -> Color)
    requires Telling(s, convert) && s.held != [] && WellFormed(Newest(s.held))
    ensures var t := Step(s, Draw, convert);
      ShownBy(t.texture, t.shown, convert) && t.shown.Some? && SamePicture(t.shown.value, Newest(s.held))
  {
    assert (s.held + s.queued)[..|s.held|] == s.held;
    ChainedFront(s.held + s.queued, |s.held|, s.shown);
    ChainAgrees(s.held, s.texture, s.shown, convert);
    DrawFaithful(s, convert);
    SameFullImage(s.latest.value, Newest(s.held), convert);
  }

  /** What is left after a drawing is honest from the frame now shown. */
  lemma RestChained(held: seq<FrameUpdate>, queued: seq<FrameUpdate>, shown: Option<FrameUpdate>,
      now: Option<FrameUpdate>)
    requires held != [] && Chained(held + queued, shown)
    requires !WellFormed(Newest(held)) || (now.Some? && SamePicture(Newest(held), now.value))
    ensures Chained(queued, now)
  {
    var batch := held + queued;
    forall i | 0 <= i < |queued|
      ensures Honest(queued[i], Predecessor(queued, i, now))
    {
      assert Honest(batch[|held| + i], Predecessor(batch, |held| + i, shown));
      if i == 0 {
        HonestAfter(queued[0], Newest(held), now);
      }
    }
  }

  lemma RestUpToLast(last: Option<FrameUpdate>, held: seq<FrameUpdate>, queued: seq<FrameUpdate>,
      shown: Option<FrameUpdate>,
                     now: Option<FrameUpdate>)
    requires held != [] && UpToLast(last, held + queued, shown)
    requires !WellFormed(Newest(held)) || (now.Some? && SamePicture(Newest(held), now.value))
    ensures UpToLast(last, queued, now)
  {
    if queued != [] {
      assert Newest(held + queued) == Newest(queued);
    } else {
      assert held + queued == held;
    }
  }

  lemma {:induction false} RunTelling<Color(!new)>(s: Pipeline<Color>, events: seq<Event>, convert: seq<int> -> Color)
    requires Telling(s, convert) && HonestRun(s, events, convert)
    ensures Telling(Run(s, events, convert), convert)
    decreases |events|
  {
    if events != [] {
      match events[0] {
        case Publish(f) => PublishTelling(s, f, convert);
        case Deliver => DeliverTelling(s, convert);
        case Draw => DrawTelling(s, convert);
        case Reconnect => StepFaithful(s, Reconnect, convert);
      }
      RunTelling(Step(s, events[0], convert), events[1..], convert);
    }
  }

  /**
   * After any interleaving of publishing, delivering, drawing and reconnecting, with any resizes, delivering and
   * drawing what is left shows exactly the pixels of the frame published last, although most uploads were partial.
   */
  lemma PartialUploadsShowTheLastFrame<Color(!new)>(events: seq<Event>, convert: seq<int> -> Color)
    requires HonestRun(Start<Color>(), events, convert)
    ensures var s := Run(Start<Color>(), events, convert);
      && s.published == s.taken + s.replaced + (if s.pending.Some? then 1 else 0)
      && (s.last.Some? && WellFormed(s.last.value) ==>
            Step(Step(s, Deliver, convert), Draw, convert).texture == Some(FullImage(s.last.value, convert)))
      && (s.last.Some? && WellFormed(s.last.value) && s.pending.None? && s.latest.None? ==>
            s.texture == Some(FullImage(s.last.value, convert)))
  {
    var s := Run(Start<Color>(), events, convert);
    RunTelling(Start<Color>(), events, convert);
    DeliverTelling(s, convert);
    DrawTelling(Step(s, Deliver, convert), convert);
    if s.last.Some? && WellFormed(s.last.value) {
      SettledShows(Step(Step(s, Deliver, convert), Draw, convert), convert);
      if s.pending.None? && s.latest.None? {
        SettledShows(s, convert);
      }
    }
  }

  lemma SettledShows<Color(!new)>(s: Pipeline<Color>, convert: seq<int> -> Color)
    requires Telling(s, convert) && s.pending.None? && s.latest.None? && s.last.Some? && WellFormed(s.last.value)
    ensures s.texture == Some(FullImage(s.last.value, convert))
  {
    assert s.held + s.queued == [];
    SameFullImage(s.shown.value, s.last.value, convert);
  }

  // ---- A run that ends with stale pixels

  const BLANK := FrameUpdate(2, 1, [0, 0, 0, 0, 0, 0, 0, 0], [])
  const FIRST := FrameUpdate(2, 1, [1, 1, 1, 1, 1, 1, 1, 1], [])
  const FRESH := FrameUpdate(2, 1, [2, 2, 2, 2, 0, 0, 0, 0], [DirtyRegion(0, 0, 0, 0)])

  lemma TwoPixels(f: FrameUpdate)
    requires f.width == 2 && f.height == 1 && |f.pixels| == 8
    ensures BytesAt(f, 0, 0) == f.pixels[0..4] && BytesAt(f, 1, 0) == f.pixels[4..8]
  {
  }

  /** The fresh frame announces all that was drawn into the blank picture, and nothing more. */
  lemma FreshFromBlank()
    ensures CoversDifference(FRESH, BLANK) && Damage(FRESH) == DirtyRegion(0, 0, 0, 0)
    ensures BytesAt(FRESH, 1, 0) == [0, 0, 0, 0] && BytesAt(FIRST, 1, 0) == [1, 1, 1, 1]
  {
    TwoPixels(FRESH);
    TwoPixels(BLANK);
    TwoPixels(FIRST);
    assert Holds(FRESH.dirty[0], 0, 0);
    assert AllValid(FRESH.dirty, FRESH);
  }

  /** Nothing waits to be drawn. */
  predicate Idle<Color>(s: Pipeline<Color>) { s.pending.None? && s.latest.None? && s.queued == [] && s.held == [] }

  /** A frame is published, delivered and drawn. */
  function Showing(f: FrameUpdate): seq<Event> { [Publish(f), Deliver, Draw] }

  lemma RunAppend<Color>(s: Pipeline<Color>, a: seq<Event>, b: seq<Event>, convert: seq<int> -> Color)
    requires TextureOk(s)
    ensures Run(s, a + b, convert) == Run(Run(s, a, convert), b, convert)
    decreases |a|
  {
    if a == [] {
      assert a + b == b;
    } else {
      assert (a + b)[1..] == a[1..] + b;
      RunAppend(Step(s, a[0], convert), a[1..], b, convert);
    }
  }

  lemma RunCons<Color>(s: Pipeline<Color>, e: Event, rest: seq<Event>, convert: seq<int> -> Color)
    requires TextureOk(s)
    ensures Run(s, [e] + rest, convert) == Run(Step(s, e, convert), rest, convert)
  {
    assert ([e] + rest)[1..] == rest;
  }

  lemma RunThree<Color>(s: Pipeline<Color>, a: Event, b: Event, c: Event, convert: seq<int> -> Color)
    requires TextureOk(s)
    ensures Run(s, [a, b, c], convert) == Step(Step(Step(s, a, convert), b, convert), c, convert)
  {
    assert [a, b, c] == [a] + [b, c] && [b, c] == [b] + [c] && [c] == [c] + [];
    RunCons(s, a, [b, c], convert);
    RunCons(Step(s, a, convert), b, [c], convert);
    RunCons(Step(Step(s, a, convert), b, convert), c, [], convert);
  }

  lemma ReadyToDraw<Color>(s: Pipeline<Color>, f: FrameUpdate, convert: seq<int> -> Color)
    requires TextureOk(s) && Idle(s)
    ensures var ready := Step(Step(s, Publish(f), convert), Deliver, convert);
      && ready.latest == Some(f) && ready.pending.None? && ready.queued == [] && ready.texture == s.texture
      && ready.last == Some(f)
  {
  }

  lemma DrawsLatest<Color>(s: Pipeline<Color>, f: FrameUpdate, convert: seq<int> -> Color)
    requires TextureOk(s) && s.latest == Some(f) && s.pending.None? && s.queued == [] && s.last == Some(f)
    ensures var t := Step(s, Draw, convert);
      && Idle(t) && t.last == Some(f)
      && (WellFormed(f) ==>
            var u := UploadOf(f, SizeOf(s.texture), convert);
            Complete(u.image) && t.texture == Some(Uploaded(s.texture, u)))
  {
    if WellFormed(f) {
      UploadComplete(f, SizeOf(s.texture), convert);
      assert Drawn(s, convert).texture == Some(Uploaded(s.texture, UploadOf(f, SizeOf(s.texture), convert)));
    }
  }

  lemma ShowingRuns<Color>(s: Pipeline<Color>, f: FrameUpdate, convert: seq<int> -> Color)
    requires TextureOk(s) && Idle(s)
    ensures var t := Run(s, Showing(f), convert);
      && t == Step(Step(Step(s, Publish(f), convert), Deliver, convert), Draw, convert)
      && Idle(t) && t.last == Some(f)
      && (WellFormed(f) ==>
            var u := UploadOf(f, SizeOf(s.texture), convert);
            Complete(u.image) && t.texture == Some(Uploaded(s.texture, u)))
  {
    RunThree(s, Publish(f), Deliver, Draw, convert);
    ReadyToDraw(s, f, convert);
    DrawsLatest(Step(Step(s, Publish(f), convert), Deliver, convert), f, convert);
  }

  /** A frame drawn over another one shows stale pixels when it differs from it outside its damage. */
  lemma StaleOver<Color(!new)>(s: Pipeline<Color>, below: FrameUpdate, f: FrameUpdate, x: nat, y: nat,
      convert: seq<int> -> Color)
    requires WellFormed(f) && WellFormed(below) && SameSize(f, below) && x < f.width && y < f.height
    requires !Holds(Damage(f), x, y) && ColorAt(below, x, y, convert) != ColorAt(f, x, y, convert)
    requires Idle(s) && s.texture == Some(FullImage(below, convert))
    ensures TextureOk(s)
    ensures var t := Run(s, Showing(f), convert);
      t.last == Some(f) && Idle(t) && t.texture != Some(FullImage(f, convert))
  {
    FullImagePixel(below, x, y, convert);
    assert !OutsideAgrees(f, Damage(f), s.texture, convert);
    UploadExactly(s.texture, f, convert);
    ShowingRuns(s, f, convert);
  }

  lemma FirstIsShown<Color(!new)>(convert: seq<int> -> Color)
    ensures var s := Run(Start<Color>(), Showing(FIRST), convert);
      Idle(s) && s.texture == Some(FullImage(FIRST, convert))
  {
    ShowingRuns(Start<Color>(), FIRST, convert);
  }

  /** The old frame is drawn; then the connection may be replaced. */
  function OldPicture(reconnected: bool): seq<Event> { Showing(FIRST) + if reconnected then [Reconnect] else [] }

  lemma OldPictureStays<Color(!new)>(reconnected: bool, convert: seq<int> -> Color)
    ensures var s := Run(Start<Color>(), OldPicture(reconnected), convert);
      Idle(s) && s.texture == Some(FullImage(FIRST, convert))
  {
    FirstIsShown(convert);
    var s := Run(Start<Color>(), Showing(FIRST), convert);
    var middle: seq<Event> := if reconnected then [Reconnect] else [];
    RunAppend(Start<Color>(), Showing(FIRST), middle, convert);
    if reconnected {
      assert middle[1..] == [];
      assert Run(s, middle, convert) == Step(s, Reconnect, convert);
    }
  }

  /**
   * A connection starts from a blank picture, and its first frame announces only what was drawn into it. After a
   * reconnection, or a reactivation that blanks the picture of the same connection, the texture keeps old pixels
   * wherever that frame is still blank.
   */
  lemma FreshPictureShowsStalePixels<Color(!new)>(reconnected: bool, convert: seq<int> -> Color)
    requires convert([1, 1, 1, 1]) != convert([0, 0, 0, 0])
    ensures CoversDifference(FRESH, BLANK)
    ensures var s := Run(Start<Color>(), OldPicture(reconnected) + Showing(FRESH), convert);
      s.last == Some(FRESH) && Idle(s) && s.texture != Some(FullImage(FRESH, convert))
  {
    FreshFromBlank();
    OldPictureStays(reconnected, convert);
    RunAppend(Start<Color>(), OldPicture(reconnected), Showing(FRESH), convert);
    StaleOver(Run(Start<Color>(), OldPicture(reconnected), convert), FIRST, FRESH, 1, 0, convert);
  }
}
