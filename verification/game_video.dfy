/**
 The framebuffer path of the emulator video (`native/src/game_video.rs`): integer nearest-neighbour scaling, drawn in
 place into a rotated staging buffer and published to the mapped scanout.

 A logical point (x, y) lies in physical row 1279 - x and column y.
 */
module GameVideo {
  import opened Wrappers
  import opened Arithmetic
  import opened Pixels

  const LOGICAL_WIDTH: nat := 1280
  const LOGICAL_HEIGHT: nat := 480
  const SAFE_INSET: nat := 16

  datatype Layout = Layout(x: nat, y: nat, width: nat, height: nat, scale: nat)

  function Min(a: nat, b: nat): nat { if a < b then a else b }

  function ComputeScaledLayout(sourceWidth: nat, sourceHeight: nat): Option<Layout> {
    var usableWidth, usableHeight := LOGICAL_WIDTH - 2 * SAFE_INSET, LOGICAL_HEIGHT - 2 * SAFE_INSET;
    if sourceWidth == 0 || sourceHeight == 0 || sourceWidth > usableWidth || sourceHeight > usableHeight then None
    else
      var scale := Min(usableWidth / sourceWidth, usableHeight / sourceHeight);
      if scale < 1 then None
      else
        var width, height := Times(sourceWidth, scale), Times(sourceHeight, scale);
        if width > LOGICAL_WIDTH || height > LOGICAL_HEIGHT then None
        else
          var x, y := (LOGICAL_WIDTH - width) / 2, (LOGICAL_HEIGHT - height) / 2;
          if x >= SAFE_INSET && y >= SAFE_INSET
             && x + width <= LOGICAL_WIDTH - SAFE_INSET && y + height <= LOGICAL_HEIGHT - SAFE_INSET
          then Some(Layout(x, y, width, height, scale)) else None
  }

  predicate Fits(sourceWidth: nat, sourceHeight: nat) {
    1 <= sourceWidth <= 1248 && 1 <= sourceHeight <= 448
  }

  lemma DivMulBound(a: nat, b: nat)
    requires b > 0
    ensures Times(b, a / b) <= a < Times(b, a / b + 1)
    ensures b <= a ==> a / b >= 1
  {
  }

  lemma TimesRight(a: nat, b: nat, c: nat)
    requires b <= c
    ensures Times(a, b) <= Times(a, c)
  {
  }

  /**
   A layout exists for exactly the sizes that fit the safe area; it is centred, inside the area, and of the largest whole
   scale that fits.
   */
  lemma LayoutExists(w: nat, h: nat)
    ensures ComputeScaledLayout(w, h).Some? <==> Fits(w, h)
    ensures Fits(w, h) ==>
      var l := ComputeScaledLayout(w, h).value;
      && l.scale >= 1 && l.width == Times(w, l.scale) && l.height == Times(h, l.scale)
      && l.x + l.width <= 1264 && l.y + l.height <= 464 && l.x >= 16 && l.y >= 16
      && l.x == (1280 - l.width) / 2 && l.y == (480 - l.height) / 2
      && (Times(w, l.scale + 1) > 1248 || Times(h, l.scale + 1) > 448)
  {
    if Fits(w, h) {
      DivMulBound(1248, w);
      DivMulBound(448, h);
      hide Times;
      var scale := Min(1248 / w, 448 / h);
      TimesRight(w, scale, 1248 / w);
      TimesRight(h, scale, 448 / h);
    }
  }

  // ---- Source frames ----

  /** A frame in a caller's buffer: bytes, row pitch in bytes, and either 16-bit or 32-bit little-endian pixels. */
  datatype Frame = Frame(data: seq<bv8>, width: nat, height: nat, pitch: nat, rgb565: bool)

  function PixelBytes(f: Frame): nat {
    if f.rgb565 then 2 else 4
  }

  /** What the caller promises: the buffer covers every pixel of every row. */
  predicate Readable(f: Frame) {
    && f.pitch >= f.width * PixelBytes(f)
    && (f.height > 0 ==> |f.data| >= (f.height - 1) * f.pitch + f.width * PixelBytes(f))
  }

  lemma PixelIsCovered(f: Frame, x: nat, y: nat)
    requires Readable(f) && x < f.width && y < f.height
    ensures PixelOffset(f, x, y) + PixelBytes(f) <= |f.data|
  {
    assert y * f.pitch <= (f.height - 1) * f.pitch;
    assert (x + 1) * PixelBytes(f) <= f.width * PixelBytes(f);
  }

  function PixelOffset(f: Frame, x: nat, y: nat): nat {
    y * f.pitch + x * PixelBytes(f)
  }

  function ReadU16(data: seq<bv8>, at: nat): bv16
    requires at + 2 <= |data|
  {
    (data[at] as bv16) | ((data[at + 1] as bv16) << 8)
  }

  function ReadU32(data: seq<bv8>, at: nat): bv32
    requires at + 4 <= |data|
  {
    (data[at] as bv32) | ((data[at + 1] as bv32) << 8) | ((data[at + 2] as bv32) << 16) | ((data[at + 3] as bv32) << 24)
  }

  /** The pixel of a frame as the framebuffer shows it. */
  function Pixel565(f: Frame, x: nat, y: nat): bv16
    requires Readable(f) && x < f.width && y < f.height
  {
    PixelIsCovered(f, x, y);
    if f.rgb565 then ReadU16(f.data, PixelOffset(f, x, y)) else Rgb888To565(ReadU32(f.data, PixelOffset(f, x, y)))
  }

  // ---- The picture ----

  predicate Placed(f: Frame, l: Layout) {
    Readable(f) && ComputeScaledLayout(f.width, f.height) == Some(l)
  }

  /** Physical row and column lie in the picture's rectangle. */
  predicate Inside(l: Layout, row: int, column: int) {
    0 <= 1279 - row - l.x < l.width && 0 <= column - l.y < l.height
  }

  function Magnified(f: Frame, l: Layout, row: int, column: int): bv16
    requires Placed(f, l) && Inside(l, row, column)
  {
    LayoutExists(f.width, f.height);
    QuotBound(1279 - row - l.x, l.scale, f.width);
    QuotBound(column - l.y, l.scale, f.height);
    Pixel565(f, Quot(1279 - row - l.x, l.scale), Quot(column - l.y, l.scale))
  }

  ghost predicate Buffer(length: nat, rowWords: nat) {
    rowWords >= 600 && Grid(length, 1280, rowWords)
  }

  /** How far a column-major walk over the picture has come. */
  predicate Walked(l: Layout, row: int, column: int, x: int, y: int) {
    1279 - row - l.x < x || (1279 - row - l.x == x && column - l.y < y)
  }

  /** How far a walk over source pixels, and over the duplicate rows of the current one, has come. */
  predicate Tiled(l: Layout, row: int, column: int, sx: int, sy: int, duplicate: int)
    requires l.scale > 0 && Inside(l, row, column)
  {
    var x, y := 1279 - row - l.x, column - l.y;
    Quot(x, l.scale) < sx ||
    (Quot(x, l.scale) == sx &&
     (Quot(y, l.scale) < sy || (Quot(y, l.scale) == sy && Rem(x, l.scale) < duplicate)))
  }

  ghost predicate DrawnColumns(a: array<bv16>, was: seq<bv16>, rowWords: nat, f: Frame, l: Layout, x: int, y: int)
    requires Buffer(a.Length, rowWords) && |was| == a.Length && Placed(f, l)
    reads a
  {
    IdxFitsAll(a.Length, 1280, rowWords);
    forall r: nat, c: nat {:trigger Idx(r, c, rowWords)} :: r < 1280 && c < rowWords ==>
      a[Idx(r, c, rowWords)] ==
      if Inside(l, r, c) && Walked(l, r, c, x, y) then Magnified(f, l, r, c) else was[Idx(r, c, rowWords)]
  }

  ghost predicate DrawnTiles(a: array<bv16>, was: seq<bv16>, rowWords: nat, f: Frame, l: Layout,
                             sx: int, sy: int, duplicate: int)
    requires Buffer(a.Length, rowWords) && |was| == a.Length && Placed(f, l) && l.scale > 0
    reads a
  {
    IdxFitsAll(a.Length, 1280, rowWords);
    forall r: nat, c: nat {:trigger Idx(r, c, rowWords)} :: r < 1280 && c < rowWords ==>
      a[Idx(r, c, rowWords)] ==
      if Inside(l, r, c) && Tiled(l, r, c, sx, sy, duplicate) then Magnified(f, l, r, c) else was[Idx(r, c, rowWords)]
  }

  /** The whole picture is in the buffer and everything around it is as before. */
  ghost predicate Drawn(a: array<bv16>, was: seq<bv16>, rowWords: nat, f: Frame, l: Layout)
    requires Buffer(a.Length, rowWords) && |was| == a.Length && Placed(f, l)
    reads a
  {
    IdxFitsAll(a.Length, 1280, rowWords);
    forall r: nat, c: nat {:trigger Idx(r, c, rowWords)} :: r < 1280 && c < rowWords ==>
      a[Idx(r, c, rowWords)] == if Inside(l, r, c) then Magnified(f, l, r, c) else was[Idx(r, c, rowWords)]
  }

  /** The columns of a run all show the source pixel the run was drawn for. */
  lemma RunShows(sy: nat, scale: nat)
    requires scale > 0
    ensures forall y: nat {:trigger Quot(y, scale)} :: Times(sy, scale) <= y < Times(sy, scale) + scale ==> Quot(y, scale) == sy
  {
    forall y: nat | Times(sy, scale) <= y < Times(sy, scale) + scale
      ensures Quot(y, scale) == sy
    {
      QuotOf(sy, y - Times(sy, scale), scale);
    }
  }

  method DrawRgb565(staging: array<bv16>, rowWords: nat, f: Frame, l: Layout)
    requires Buffer(staging.Length, rowWords) && Placed(f, l) && f.rgb565
    modifies staging
    ensures Drawn(staging, old(staging[..]), rowWords, f, l)
  {
    ghost var was := staging[..];
    LayoutExists(f.width, f.height);
    IdxFitsAll(staging.Length, 1280, rowWords);
    hide ComputeScaledLayout, Readable, Magnified, Quot, Times, Idx;
    TimesNext(0, l.scale);
    var sourceX := 0;
    while sourceX < f.width
      invariant sourceX <= f.width
      invariant DrawnColumns(staging, was, rowWords, f, l, Times(sourceX, l.scale), 0)
    {
      TimesNext(sourceX, l.scale);
      TimesMonotone(sourceX + 1, f.width, l.scale);
      var firstPhysicalRow := 1279 - l.x - Times(sourceX, l.scale);
      var duplicate := 0;
      while duplicate < l.scale
        invariant duplicate <= l.scale
        invariant DrawnColumns(staging, was, rowWords, f, l, Times(sourceX, l.scale) + duplicate, 0)
      {
        DrawRow(staging, rowWords, f, l, sourceX, duplicate, firstPhysicalRow - duplicate, was);
        duplicate := duplicate + 1;
      }
      sourceX := sourceX + 1;
    }
  }

  /** One physical row: every source pixel of the column, each repeated along the row. */
  method DrawRow(staging: array<bv16>, rowWords: nat, f: Frame, l: Layout, sourceX: nat, duplicate: nat, row: nat,
                 ghost was: seq<bv16>)
    requires Buffer(staging.Length, rowWords) && Placed(f, l) && f.rgb565 && |was| == staging.Length
    requires sourceX < f.width && duplicate < l.scale
    requires row == 1279 - l.x - Times(sourceX, l.scale) - duplicate
    requires DrawnColumns(staging, was, rowWords, f, l, Times(sourceX, l.scale) + duplicate, 0)
    modifies staging
    ensures DrawnColumns(staging, was, rowWords, f, l, Times(sourceX, l.scale) + duplicate + 1, 0)
  {
    LayoutExists(f.width, f.height);
    hide ComputeScaledLayout, Readable, Quot, Times, PixelOffset, ReadU16;
    ghost var x := Times(sourceX, l.scale) + duplicate;
    QuotOf(sourceX, duplicate, l.scale);
    TimesNext(0, l.scale);
    var offset := Idx(row, l.y, rowWords);
    var sourceY := 0;
    while sourceY < f.height
      invariant sourceY <= f.height
      invariant offset == Idx(row, l.y + Times(sourceY, l.scale), rowWords)
      invariant DrawnColumns(staging, was, rowWords, f, l, x, Times(sourceY, l.scale))
    {
      TimesNext(sourceY, l.scale);
      TimesMonotone(sourceY + 1, f.height, l.scale);
      TimesNext(sourceX, l.scale);
      TimesMonotone(sourceX + 1, f.width, l.scale);
      PixelIsCovered(f, sourceX, sourceY);
      var pixel := ReadU16(f.data, PixelOffset(f, sourceX, sourceY));
      RunShows(sourceY, l.scale);
      FillRun(staging, 1280, rowWords, offset, row, l.y + Times(sourceY, l.scale), l.scale, pixel);
      offset := offset + l.scale;
      sourceY := sourceY + 1;
    }
  }

  /** A run of a 32-bit frame belongs to one duplicate row of one source pixel, and to nothing else. */
  lemma TileOf(sx: nat, sy: nat, duplicate: nat, scale: nat)
    requires duplicate < scale
    ensures forall x: nat {:trigger Quot(x, scale)} ::
      x == Times(sx, scale) + duplicate <==> Quot(x, scale) == sx && Rem(x, scale) == duplicate
    ensures forall y: nat {:trigger Quot(y, scale)} ::
      Times(sy, scale) <= y < Times(sy, scale) + scale <==> Quot(y, scale) == sy
  {
    hide Times, Quot;
    QuotOf(sx, duplicate, scale);
    forall y: nat
      ensures Times(sy, scale) <= y < Times(sy, scale) + scale <==> Quot(y, scale) == sy
    {
      QuotRange(y, scale);
      if Times(sy, scale) <= y < Times(sy, scale) + scale {
        QuotOf(sy, y - Times(sy, scale), scale);
      }
    }
    forall x: nat
      ensures x == Times(sx, scale) + duplicate <==> Quot(x, scale) == sx && Rem(x, scale) == duplicate
    {
      var r := Rem(x, scale);
    }
  }

  method DrawXrgb(staging: array<bv16>, rowWords: nat, f: Frame, l: Layout)
    requires Buffer(staging.Length, rowWords) && Placed(f, l) && !f.rgb565
    modifies staging
    ensures Drawn(staging, old(staging[..]), rowWords, f, l)
  {
    ghost var was := staging[..];
    LayoutExists(f.width, f.height);
    IdxFitsAll(staging.Length, 1280, rowWords);
    hide ComputeScaledLayout, Readable, Magnified, Times, Idx, Quot;
    var sourceX := 0;
    while sourceX < f.width
      invariant sourceX <= f.width
      invariant DrawnTiles(staging, was, rowWords, f, l, sourceX, 0, 0)
    {
      DrawTileColumn(staging, rowWords, f, l, sourceX, was);
      sourceX := sourceX + 1;
    }
    forall x: nat | x < l.width
      ensures Quot(x, l.scale) < f.width
    {
      QuotBound(x, l.scale, f.width);
    }
  }

  /** One column of source pixels, each a square of `scale` rows by `scale` columns. */
  method DrawTileColumn(staging: array<bv16>, rowWords: nat, f: Frame, l: Layout, sourceX: nat, ghost was: seq<bv16>)
    requires Buffer(staging.Length, rowWords) && Placed(f, l) && !f.rgb565 && |was| == staging.Length
    requires sourceX < f.width && l.scale > 0
    requires DrawnTiles(staging, was, rowWords, f, l, sourceX, 0, 0)
    modifies staging
    ensures DrawnTiles(staging, was, rowWords, f, l, sourceX + 1, 0, 0)
  {
    LayoutExists(f.width, f.height);
    hide ComputeScaledLayout, Readable, Times, Quot, PixelOffset, ReadU32, Rgb888To565;
    TimesNext(sourceX, l.scale);
    TimesMonotone(sourceX + 1, f.width, l.scale);
    var firstPhysicalRow := 1279 - l.x - Times(sourceX, l.scale);
    var sourceY := 0;
    while sourceY < f.height
      invariant sourceY <= f.height
      invariant DrawnTiles(staging, was, rowWords, f, l, sourceX, sourceY, 0)
    {
      TimesNext(sourceY, l.scale);
      TimesMonotone(sourceY + 1, f.height, l.scale);
      PixelIsCovered(f, sourceX, sourceY);
      var pixel := Rgb888To565(ReadU32(f.data, PixelOffset(f, sourceX, sourceY)));
      var duplicate := 0;
      while duplicate < l.scale
        invariant duplicate <= l.scale
        invariant DrawnTiles(staging, was, rowWords, f, l, sourceX, sourceY, duplicate)
      {
        var row := firstPhysicalRow - duplicate;
        TileOf(sourceX, sourceY, duplicate, l.scale);
        FillRun(staging, 1280, rowWords, Idx(row, l.y + Times(sourceY, l.scale), rowWords), row,
                l.y + Times(sourceY, l.scale), l.scale, pixel);
        duplicate := duplicate + 1;
      }
      sourceY := sourceY + 1;
    }
    forall y: nat | y < l.height
      ensures Quot(y, l.scale) < f.height
    {
      QuotBound(y, l.scale, f.height);
    }
  }

  datatype Presented = Shown | PitchTooSmall | DoesNotFit

  /** The framebuffer target: a mapped scanout, a staging copy of it, and the size of the last frame. */
  class FbTarget {
    const memory: array<bv16>
    const staging: array<bv16>
    const rowWords: nat
    var lastWidth: nat
    var lastHeight: nat

    /** Outside the last frame's rectangle both buffers are black. */
    ghost predicate Valid()
      reads this, memory, staging
    {
      && memory != staging && memory.Length == staging.Length && Buffer(memory.Length, rowWords)
      && BlackAround(memory, rowWords, ComputeScaledLayout(lastWidth, lastHeight))
      && BlackAround(staging, rowWords, ComputeScaledLayout(lastWidth, lastHeight))
    }

    constructor (words: nat, rowWords: nat)
      requires Buffer(words, rowWords)
      ensures Valid() && fresh(memory) && fresh(staging) && this.rowWords == rowWords
    {
      memory := new bv16[words](_ => 0);
      staging := new bv16[words](_ => 0);
      this.rowWords, lastWidth, lastHeight := rowWords, 0, 0;
      new;
      IdxFitsAll(words, 1280, rowWords);
    }

    method BeginFrame(width: nat, height: nat)
      requires Valid()
      modifies this, memory, staging
      ensures Valid() && lastWidth == width && lastHeight == height
      ensures old(lastWidth) != width || old(lastHeight) != height ==> Blank(memory) && Blank(staging)
      ensures old(lastWidth) == width && old(lastHeight) == height ==> unchanged(memory) && unchanged(staging)
    {
      if lastWidth != width || lastHeight != height {
        IdxFitsAll(memory.Length, 1280, rowWords);
        forall i | 0 <= i < staging.Length { staging[i] := 0; }
        forall i | 0 <= i < memory.Length { memory[i] := 0; }
        lastWidth, lastHeight := width, height;
      }
    }

    /** Copies the picture's rows from the staging buffer to the scanout. */
    method Publish(l: Layout)
      requires Buffer(memory.Length, rowWords) && memory.Length == staging.Length && memory != staging
      requires l.x + l.width <= 1280 && l.y + l.height <= rowWords
      modifies memory
      ensures forall r: nat, c: nat {:trigger Idx(r, c, rowWords)} ::
        (r < 1280 && c < rowWords ==>
           Idx(r, c, rowWords) < memory.Length
           && memory[Idx(r, c, rowWords)] ==
              if Inside(l, r, c) then staging[Idx(r, c, rowWords)] else old(memory[Idx(r, c, rowWords)]))
    {
      IdxFitsAll(memory.Length, 1280, rowWords);
      var firstPhysicalRow := 1280 - l.x - l.width;
      var row := 0;
      while row < l.width
        invariant row <= l.width
        invariant forall r: nat, c: nat {:trigger Idx(r, c, rowWords)} ::
          r < 1280 && c < rowWords ==>
            memory[Idx(r, c, rowWords)] ==
            if Inside(l, r, c) && r < firstPhysicalRow + row
            then staging[Idx(r, c, rowWords)] else old(memory[Idx(r, c, rowWords)])
      {
        CopyRun(firstPhysicalRow + row, l.y, l.height);
        row := row + 1;
      }
    }

    /** One row's words, copied from the staging buffer to the scanout. */
    method CopyRun(row: nat, column: nat, count: nat)
      requires Buffer(memory.Length, rowWords) && memory.Length == staging.Length && memory != staging
      requires row < 1280 && column + count <= rowWords
      modifies memory
      ensures forall r: nat, c: nat {:trigger Idx(r, c, rowWords)} ::
        (r < 1280 && c < rowWords ==>
           Idx(r, c, rowWords) < memory.Length
           && memory[Idx(r, c, rowWords)] ==
              if r == row && column <= c < column + count
              then staging[Idx(r, c, rowWords)] else old(memory[Idx(r, c, rowWords)]))
    {
      IdxFitsAll(memory.Length, 1280, rowWords);
      var offset := Idx(row, column, rowWords);
      var copied := 0;
      while copied < count
        invariant copied <= count
        invariant forall r: nat, c: nat {:trigger Idx(r, c, rowWords)} :: r < 1280 && c < rowWords ==>
          memory[Idx(r, c, rowWords)] ==
          if r == row && column <= c < column + copied
          then staging[Idx(r, c, rowWords)] else old(memory[Idx(r, c, rowWords)])
      {
        assert offset + copied == Idx(row, column + copied, rowWords);
        ApartFrom(row, column + copied, rowWords);
        memory[offset + copied] := staging[offset + copied];
        copied := copied + 1;
      }
    }

    /**
     Whatever was on screen before, a frame that fits leaves exactly its magnified picture on a black scanout; a frame that
     does not changes nothing.
     */
    method Present(f: Frame) returns (outcome: Presented)
      requires Valid() && (f.pitch >= f.width * PixelBytes(f) ==> Readable(f))
      modifies this, memory, staging
      ensures Valid()
      ensures outcome.PitchTooSmall? <==> f.pitch < f.width * PixelBytes(f)
      ensures outcome.Shown? <==> Readable(f) && Fits(f.width, f.height)
      ensures outcome.Shown? ==> OnScreen(memory, rowWords, f)
      ensures !outcome.Shown? ==> unchanged(memory)
    {
      if f.pitch < f.width * PixelBytes(f) {
        return PitchTooSmall;
      }
      LayoutExists(f.width, f.height);
      var layout := ComputeScaledLayout(f.width, f.height);
      if layout.None? {
        return DoesNotFit;
      }
      BeginFrame(f.width, f.height);
      if f.rgb565 {
        DrawRgb565(staging, rowWords, f, layout.value);
      } else {
        DrawXrgb(staging, rowWords, f, layout.value);
      }
      IdxFitsAll(memory.Length, 1280, rowWords);
      Publish(layout.value);
      return Shown;
    }
  }

  ghost predicate Blank(a: array<bv16>)
    reads a
  {
    forall i :: 0 <= i < a.Length ==> a[i] == 0
  }

  ghost predicate BlackAround(a: array<bv16>, rowWords: nat, l: Option<Layout>)
    requires Buffer(a.Length, rowWords)
    reads a
  {
    IdxFitsAll(a.Length, 1280, rowWords);
    forall r: nat, c: nat {:trigger Idx(r, c, rowWords)} ::
      r < 1280 && c < rowWords && (l.Some? ==> !Inside(l.value, r, c)) ==> a[Idx(r, c, rowWords)] == 0
  }

  /** The scanout shows the frame's magnified picture and is black everywhere else. */
  ghost predicate Pictured(a: array<bv16>, rowWords: nat, f: Frame, l: Layout)
    requires Buffer(a.Length, rowWords) && Placed(f, l)
    reads a
  {
    IdxFitsAll(a.Length, 1280, rowWords);
    forall r: nat, c: nat {:trigger Idx(r, c, rowWords)} :: r < 1280 && c < rowWords ==>
      a[Idx(r, c, rowWords)] == if Inside(l, r, c) then Magnified(f, l, r, c) else 0
  }

  ghost predicate OnScreen(a: array<bv16>, rowWords: nat, f: Frame)
    requires Buffer(a.Length, rowWords)
    reads a
  {
    var l := ComputeScaledLayout(f.width, f.height);
    Readable(f) && l.Some? && Pictured(a, rowWords, f, l.value)
  }
}
