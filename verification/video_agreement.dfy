/** The two video paths show the same picture: up to the rotation of the scanout and its 16-bit colours. */
module VideoAgreement {
  import opened Wrappers
  import opened Arithmetic
  import opened Pixels
  import opened GameVideo
  import opened GameWidget
  import Scanout

  /** A 1280x480 widget surface whose background is clear and on which the frame has been drawn. */
  ghost predicate Surface(pixels: array<bv32>, f: Frame, g: Geometry)
    requires Readable(f) && Sane(g) && g.sourceWidth == f.width && g.sourceHeight == f.height
    requires g.targetWidth == 1280 && g.targetHeight == 480
    reads pixels
  {
    && pixels.Length == 480 * 1280
    && exists frame: seq<bv32>, was: seq<bv32> ::
         && |was| == pixels.Length && (forall i :: 0 <= i < |was| ==> was[i] == BACKGROUND)
         && Grid(|frame|, f.height, f.width) && Converted(frame, f)
         && Scaled(pixels, was, frame, g, g.height, 0)
  }

  lemma SamePlace(w: nat, h: nat)
    requires Fits(w, h)
    ensures ComputeScaledLayout(w, h).Some? && Place(w, h, 1280, 480).Some?
    ensures var l, g := ComputeScaledLayout(w, h).value, Place(w, h, 1280, 480).value;
      Sane(g) && g.x == l.x && g.y == l.y && g.width == l.width && g.height == l.height && g.scale == l.scale
      && g.sourceWidth == w && g.sourceHeight == h && g.targetWidth == 1280 && g.targetHeight == 480
  {
    LayoutExists(w, h);
    assert 1248 / w >= 1 && 448 / h >= 1;
  }

  /** The widget also draws frames of up to the whole surface, which the framebuffer refuses. */
  lemma WidgetFits(w: nat, h: nat)
    ensures Place(w, h, 1280, 480).Some? <==> 1 <= w <= 1280 && 1 <= h <= 480
  {
    if 1 <= w <= 1280 && 1 <= h <= 480 {
      if Fits(w, h) {
        SamePlace(w, h);
      } else {
        assert w > 1248 ==> 1248 / w == 0;
        assert h > 448 ==> 448 / h == 0;
      }
    } else if w > 0 && h > 0 {
      var scale := Max(Min(1248 / w, 448 / h), 1);
      assert Times(w, scale) >= w && Times(h, scale) >= h;
    }
  }

  lemma SamePixel(f: Frame, x: nat, y: nat)
    requires Readable(f) && x < f.width && y < f.height
    ensures Rgb888To565(Pixel888(f, x, y)) == Pixel565(f, x, y)
  {
    PixelIsCovered(f, x, y);
    if f.rgb565 {
      SpreadThenDrop(ReadU16(f.data, PixelOffset(f, x, y)));
    } else {
      AlphaIsDropped(ReadU32(f.data, PixelOffset(f, x, y)));
    }
  }

  lemma SameSample(f: Frame, l: Layout, g: Geometry, frame: seq<bv32>, x: nat, y: nat)
    requires Placed(f, l) && Fits(f.width, f.height) && Place(f.width, f.height, 1280, 480) == Some(g)
    requires Converted(frame, f) && x < 1280 && y < 480 && Inside(l, 1279 - x, y)
    ensures Sane(g) && Covers(g, y, x) && Grid(|frame|, g.sourceHeight, g.sourceWidth)
    ensures Rgb888To565(Sampled(frame, g, y, x)) == Magnified(f, l, 1279 - x, y)
  {
    SamePlace(f.width, f.height);
    LayoutExists(f.width, f.height);
    QuotBound(x - l.x, l.scale, f.width);
    QuotBound(y - l.y, l.scale, f.height);
    SamePixel(f, Quot(x - l.x, l.scale), Quot(y - l.y, l.scale));
    var at := Idx(Quot(y - l.y, l.scale), Quot(x - l.x, l.scale), f.width);
  }

  /**
   For every frame the framebuffer accepts, its scanout is the rotation of the widget's surface, pixel by pixel after the
   colours are cut to 16 bits, and black beyond it. With `FbTarget.Present`, which promises `Pictured` after any earlier
   frames, this holds after every run of presents.
   */
  lemma {:induction false} PathsAgree(memory: array<bv16>, rowWords: nat, pixels: array<bv32>, f: Frame, l: Layout, g: Geometry)
    requires Buffer(memory.Length, rowWords) && Placed(f, l) && Fits(f.width, f.height)
    requires Place(f.width, f.height, 1280, 480) == Some(g) && Sane(g)
    requires Pictured(memory, rowWords, f, l) && Surface(pixels, f, g)
    ensures forall x: nat, y: nat {:trigger Idx(y, x, 1280)} :: (x < 1280 && y < 480 ==>
      && Idx(1279 - x, y, rowWords) < memory.Length && Idx(y, x, 1280) < pixels.Length
      && memory[Idx(1279 - x, y, rowWords)] == Rgb888To565(pixels[Idx(y, x, 1280)]))
    ensures forall r: nat, c: nat {:trigger Idx(r, c, rowWords)} :: (r < 1280 && 480 <= c < rowWords ==>
      Idx(r, c, rowWords) < memory.Length && memory[Idx(r, c, rowWords)] == 0)
  {
    var frame: seq<bv32>, was: seq<bv32> :|
      && |was| == pixels.Length && (forall i :: 0 <= i < |was| ==> was[i] == BACKGROUND)
      && Grid(|frame|, f.height, f.width) && Converted(frame, f) && Scaled(pixels, was, frame, g, g.height, 0);
    LayoutExists(f.width, f.height);
    SamePlace(f.width, f.height);
    IdxFitsAll(memory.Length, 1280, rowWords);
    IdxFitsAll(pixels.Length, 480, 1280);
    hide ComputeScaledLayout, Place, Magnified, Sampled, Readable, Rgb888To565, Converted, Times;
    OpaqueBlackIsBlack();
    forall x: nat, y: nat | x < 1280 && y < 480
      ensures memory[Idx(1279 - x, y, rowWords)] == Rgb888To565(pixels[Idx(y, x, 1280)])
    {
      if Inside(l, 1279 - x, y) {
        SameSample(f, l, g, frame, x, y);
      }
    }
  }

  /** So the scanout holds, word for word, what the dashboard's own rotation makes of the widget's surface. */
  lemma ScanoutIsStagedSurface(memory: array<bv16>, rowWords: nat, pixels: array<bv32>, f: Frame, l: Layout, g: Geometry,
                               canvas: seq<bv16>, black: seq<bv16>, staged: seq<bv16>)
    requires Buffer(memory.Length, rowWords) && Placed(f, l) && Fits(f.width, f.height)
    requires Place(f.width, f.height, 1280, 480) == Some(g) && Sane(g)
    requires Pictured(memory, rowWords, f, l) && Surface(pixels, f, g)
    requires |canvas| == pixels.Length == 480 * 1280
    requires forall i :: 0 <= i < |canvas| ==> canvas[i] == Rgb888To565(pixels[i])
    requires |black| == |staged| == memory.Length && forall i :: 0 <= i < |black| ==> black[i] == 0
    requires Scanout.Staged(staged, black, rowWords, canvas, 1280, 0)
    ensures forall r: nat, c: nat {:trigger Idx(r, c, rowWords)} :: (r < 1280 && c < rowWords ==>
      Idx(r, c, rowWords) < memory.Length && memory[Idx(r, c, rowWords)] == staged[Idx(r, c, rowWords)])
  {
    PathsAgree(memory, rowWords, pixels, f, l, g);
    IdxFitsAll(memory.Length, 1280, rowWords);
    IdxFitsAll(pixels.Length, 480, 1280);
    hide ComputeScaledLayout, Place, Surface, Pictured, Readable, Rgb888To565;
    forall r: nat, c: nat | r < 1280 && c < rowWords
      ensures memory[Idx(r, c, rowWords)] == staged[Idx(r, c, rowWords)]
    {
      if c < 480 {
        assert memory[Idx(1279 - (1279 - r), c, rowWords)] == Rgb888To565(pixels[Idx(c, 1279 - r, 1280)]);
      }
    }
  }

  predicate Accepted(f: Frame) {
    Readable(f) && Fits(f.width, f.height)
  }

  /**
   After a run of presents, with sizes and formats changing at will, the scanout shows the last frame that was accepted,
   and nothing of the ones before it.
   */
  method PresentRun(fb: FbTarget, frames: seq<Frame>) returns (shown: Option<nat>)
    requires fb.Valid()
    requires forall i :: 0 <= i < |frames| ==>
      (frames[i].pitch >= frames[i].width * PixelBytes(frames[i]) ==> Readable(frames[i]))
    modifies fb, fb.memory, fb.staging
    ensures fb.Valid()
    ensures shown.None? ==> unchanged(fb.memory) && forall i :: 0 <= i < |frames| ==> !Accepted(frames[i])
    ensures shown.Some? ==>
      && shown.value < |frames| && Accepted(frames[shown.value])
      && (forall i :: shown.value < i < |frames| ==> !Accepted(frames[i]))
      && OnScreen(fb.memory, fb.rowWords, frames[shown.value])
  {
    shown := None;
    var i := 0;
    while i < |frames|
      invariant i <= |frames| && fb.Valid()
      invariant shown.None? ==> unchanged(fb.memory) && forall j :: 0 <= j < i ==> !Accepted(frames[j])
      invariant shown.Some? ==>
        && shown.value < i && Accepted(frames[shown.value])
        && (forall j :: shown.value < j < i ==> !Accepted(frames[j]))
        && OnScreen(fb.memory, fb.rowWords, frames[shown.value])
    {
      var outcome := fb.Present(frames[i]);
      if outcome.Shown? {
        shown := Some(i);
      }
      i := i + 1;
    }
  }
}
