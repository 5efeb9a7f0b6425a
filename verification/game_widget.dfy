/**
 The widget path of the emulator video: a frame converted to 32-bit pixels (`convert_to_xrgb` in
 `native/src/game_video.rs`) and magnified by row duplication (`scale_game_frame` in `native/src/wayland.rs`).
 */
module GameWidget {
  import opened Wrappers
  import opened Arithmetic
  import opened Pixels
  import opened GameVideo

  const GAME_INSET: nat := 16
  const BACKGROUND: bv32 := 0xff00_0000

  /** The pixel of a frame as the widget shows it. */
  function Pixel888(f: Frame, x: nat, y: nat): bv32
    requires Readable(f) && x < f.width && y < f.height
  {
    PixelIsCovered(f, x, y);
    if f.rgb565 then Rgb565To888(ReadU16(f.data, PixelOffset(f, x, y)))
    else 0xff00_0000 | (ReadU32(f.data, PixelOffset(f, x, y)) & 0x00ff_ffff)
  }

  ghost predicate Converted(output: seq<bv32>, f: Frame)
    requires Readable(f)
  {
    && Grid(|output|, f.height, f.width)
    && forall x: nat, y: nat {:trigger Idx(y, x, f.width)} :: x < f.width && y < f.height ==>
         Idx(y, x, f.width) < |output| && output[Idx(y, x, f.width)] == Pixel888(f, x, y)
  }

  method ConvertToXrgb(f: Frame) returns (output: seq<bv32>)
    requires Readable(f)
    ensures |output| == f.height * f.width && Converted(output, f)
  {
    output := [];
    var y := 0;
    while y < f.height
      invariant y <= f.height && |output| == Idx(y, 0, f.width)
      invariant forall c: nat, r: nat {:trigger Idx(r, c, f.width)} :: c < f.width && r < y ==>
        Idx(r, c, f.width) < |output| && output[Idx(r, c, f.width)] == Pixel888(f, c, r)
    {
      var x := 0;
      while x < f.width
        invariant x <= f.width && |output| == Idx(y, x, f.width)
        invariant forall c: nat, r: nat {:trigger Idx(r, c, f.width)} :: c < f.width && (r < y || (r == y && c < x)) ==>
          Idx(r, c, f.width) < |output| && output[Idx(r, c, f.width)] == Pixel888(f, c, r)
      {
        PixelIsCovered(f, x, y);
        var value := if f.rgb565 then Rgb565To888(ReadU16(f.data, PixelOffset(f, x, y)))
                     else 0xff00_0000 | (ReadU32(f.data, PixelOffset(f, x, y)) & 0x00ff_ffff);
        ApartFrom(y, x, f.width);
        output := output + [value];
        assert Idx(y, x, f.width) + 1 == Idx(y, x + 1, f.width);
        x := x + 1;
      }
      assert Idx(y, f.width, f.width) == Idx(y + 1, 0, f.width);
      y := y + 1;
    }
  }

  /** Where a frame lies on a widget surface, and how much it is magnified. */
  datatype Geometry = Geometry(sourceWidth: nat, sourceHeight: nat, targetWidth: nat, targetHeight: nat,
                               scale: nat, width: nat, height: nat, x: nat, y: nat)

  function Max(a: nat, b: nat): nat { if a < b then b else a }

  function Place(sourceWidth: nat, sourceHeight: nat, targetWidth: nat, targetHeight: nat): Option<Geometry> {
    if sourceWidth == 0 || sourceHeight == 0 || targetWidth <= GAME_INSET * 2 || targetHeight <= GAME_INSET * 2 then None
    else
      var scale := Max(Min((targetWidth - GAME_INSET * 2) / sourceWidth, (targetHeight - GAME_INSET * 2) / sourceHeight), 1);
      var width, height := Times(sourceWidth, scale), Times(sourceHeight, scale);
      if width > targetWidth || height > targetHeight then None
      else Some(Geometry(sourceWidth, sourceHeight, targetWidth, targetHeight, scale, width, height,
                         (targetWidth - width) / 2, (targetHeight - height) / 2))
  }

  predicate Sane(g: Geometry) {
    && g.scale >= 1 && g.width == Times(g.sourceWidth, g.scale) && g.height == Times(g.sourceHeight, g.scale)
    && g.x + g.width <= g.targetWidth && g.y + g.height <= g.targetHeight
  }

  predicate Covers(g: Geometry, row: int, column: int) {
    0 <= column - g.x < g.width && 0 <= row - g.y < g.height
  }

  function Sampled(frame: seq<bv32>, g: Geometry, row: int, column: int): bv32
    requires Sane(g) && Covers(g, row, column) && Grid(|frame|, g.sourceHeight, g.sourceWidth)
  {
    QuotBound(column - g.x, g.scale, g.sourceWidth);
    QuotBound(row - g.y, g.scale, g.sourceHeight);
    IdxBound(Quot(row - g.y, g.scale), Quot(column - g.x, g.scale), g.sourceWidth, g.sourceHeight);
    frame[Idx(Quot(row - g.y, g.scale), Quot(column - g.x, g.scale), g.sourceWidth)]
  }

  /** The picture's first `rows` rows, and `columns` columns of the next one, are drawn; the rest is as before. */
  ghost predicate Scaled(pixels: array<bv32>, was: seq<bv32>, frame: seq<bv32>, g: Geometry, rows: int, columns: int)
    requires Grid(pixels.Length, g.targetHeight, g.targetWidth) && |was| == pixels.Length
    requires Sane(g) && Grid(|frame|, g.sourceHeight, g.sourceWidth)
    reads pixels
  {
    IdxFitsAll(pixels.Length, g.targetHeight, g.targetWidth);
    forall r: nat, c: nat {:trigger Idx(r, c, g.targetWidth)} :: r < g.targetHeight && c < g.targetWidth ==>
      pixels[Idx(r, c, g.targetWidth)] ==
      if Covers(g, r, c) && (r - g.y < rows || (r - g.y == rows && c - g.x < columns))
      then Sampled(frame, g, r, c) else was[Idx(r, c, g.targetWidth)]
  }

  /** Draws the frame's picture over whatever the surface holds, or nothing when it has no place there. */
  method ScaleGameFrame(frame: seq<bv32>, sourceWidth: nat, sourceHeight: nat, pixels: array<bv32>,
                        targetWidth: nat, targetHeight: nat)
    modifies pixels
    ensures var g := Place(sourceWidth, sourceHeight, targetWidth, targetHeight);
      if pixels.Length >= targetWidth * targetHeight && |frame| >= sourceWidth * sourceHeight && g.Some?
      then Sane(g.value) && Grid(pixels.Length, targetHeight, targetWidth) && Grid(|frame|, sourceHeight, sourceWidth)
           && Scaled(pixels, old(pixels[..]), frame, g.value, g.value.height, 0)
      else pixels[..] == old(pixels[..])
  {
    if pixels.Length < targetWidth * targetHeight || |frame| < sourceWidth * sourceHeight
       || sourceWidth == 0 || sourceHeight == 0 || targetWidth <= GAME_INSET * 2 || targetHeight <= GAME_INSET * 2 {
      return;
    }
    var scale := Max(Min((targetWidth - GAME_INSET * 2) / sourceWidth, (targetHeight - GAME_INSET * 2) / sourceHeight), 1);
    var width, height := Times(sourceWidth, scale), Times(sourceHeight, scale);
    if width > targetWidth || height > targetHeight {
      return;
    }
    var g := Geometry(sourceWidth, sourceHeight, targetWidth, targetHeight, scale, width, height,
                      (targetWidth - width) / 2, (targetHeight - height) / 2);
    Magnify(frame, g, pixels);
  }

  method Magnify(frame: seq<bv32>, g: Geometry, pixels: array<bv32>)
    requires Grid(pixels.Length, g.targetHeight, g.targetWidth) && Sane(g) && Grid(|frame|, g.sourceHeight, g.sourceWidth)
    modifies pixels
    ensures Scaled(pixels, old(pixels[..]), frame, g, g.height, 0)
  {
    ghost var was := pixels[..];
    IdxFitsAll(pixels.Length, g.targetHeight, g.targetWidth);
    TimesNext(0, g.scale);
    hide Times, Quot, Idx, Grid;
    var sourceY := 0;
    while sourceY < g.sourceHeight
      invariant sourceY <= g.sourceHeight
      invariant Scaled(pixels, was, frame, g, Times(sourceY, g.scale), 0)
    {
      TimesNext(sourceY, g.scale);
      TimesMonotone(sourceY + 1, g.sourceHeight, g.scale);
      MagnifyRow(frame, g, pixels, sourceY, was);
      var duplicate := 1;
      while duplicate < g.scale
        invariant 1 <= duplicate <= g.scale
        invariant Scaled(pixels, was, frame, g, Times(sourceY, g.scale) + duplicate, 0)
      {
        DuplicateRow(frame, g, pixels, sourceY, duplicate, was);
        duplicate := duplicate + 1;
      }
      sourceY := sourceY + 1;
    }
  }

  /** The first of the rows that show one source row. */
  method MagnifyRow(frame: seq<bv32>, g: Geometry, pixels: array<bv32>, sourceY: nat, ghost was: seq<bv32>)
    requires Grid(pixels.Length, g.targetHeight, g.targetWidth) && Sane(g) && Grid(|frame|, g.sourceHeight, g.sourceWidth)
    requires |was| == pixels.Length && sourceY < g.sourceHeight && Times(sourceY, g.scale) < g.height
    requires Scaled(pixels, was, frame, g, Times(sourceY, g.scale), 0)
    modifies pixels
    ensures Scaled(pixels, was, frame, g, Times(sourceY, g.scale) + 1, 0)
  {
    QuotOf(sourceY, 0, g.scale);
    TimesNext(0, g.scale);
    hide Times, Quot, Grid;
    var row := g.y + Times(sourceY, g.scale);
    var firstRow := Idx(row, g.x, g.targetWidth);
    var sourceX := 0;
    while sourceX < g.sourceWidth
      invariant sourceX <= g.sourceWidth
      invariant Scaled(pixels, was, frame, g, Times(sourceY, g.scale), Times(sourceX, g.scale))
    {
      TimesNext(sourceX, g.scale);
      TimesMonotone(sourceX + 1, g.sourceWidth, g.scale);
      IdxBoundGrid(sourceY, sourceX, |frame|, g.sourceHeight, g.sourceWidth);
      var value := frame[Idx(sourceY, sourceX, g.sourceWidth)];
      RunShows(sourceX, g.scale);
      FillRun(pixels, g.targetHeight, g.targetWidth, firstRow + Times(sourceX, g.scale), row,
              g.x + Times(sourceX, g.scale), g.scale, value);
      sourceX := sourceX + 1;
    }
  }

  lemma IdxBoundGrid(row: nat, column: nat, length: nat, rows: nat, width: nat)
    requires Grid(length, rows, width) && row < rows && column < width
    ensures Idx(row, column, width) < length
  {
    IdxBound(row, column, width, rows);
  }

  /** Another row that shows the same source row: a copy of the first. */
  method DuplicateRow(frame: seq<bv32>, g: Geometry, pixels: array<bv32>, sourceY: nat, duplicate: nat,
                      ghost was: seq<bv32>)
    requires Grid(pixels.Length, g.targetHeight, g.targetWidth) && Sane(g) && Grid(|frame|, g.sourceHeight, g.sourceWidth)
    requires |was| == pixels.Length && sourceY < g.sourceHeight && 1 <= duplicate < g.scale
    requires Times(sourceY, g.scale) + g.scale <= g.height
    requires Scaled(pixels, was, frame, g, Times(sourceY, g.scale) + duplicate, 0)
    modifies pixels
    ensures Scaled(pixels, was, frame, g, Times(sourceY, g.scale) + duplicate + 1, 0)
  {
    QuotOf(sourceY, 0, g.scale);
    QuotOf(sourceY, duplicate, g.scale);
    IdxFitsAll(pixels.Length, g.targetHeight, g.targetWidth);
    hide Times, Quot, Grid;
    var first := g.y + Times(sourceY, g.scale);
    var row := first + duplicate;
    var copied := 0;
    while copied < g.width
      invariant copied <= g.width
      invariant Scaled(pixels, was, frame, g, Times(sourceY, g.scale) + duplicate, copied)
    {
      ApartFrom(row, g.x + copied, g.targetWidth);
      pixels[Idx(row, g.x + copied, g.targetWidth)] := pixels[Idx(first, g.x + copied, g.targetWidth)];
      copied := copied + 1;
    }
  }
}
