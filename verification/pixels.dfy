/** Pixel formats and the index arithmetic of row-major images. */
module Pixels {

  function Red(color: bv32): bv32 { (color >> 16) & 0xff }
  function Green(color: bv32): bv32 { (color >> 8) & 0xff }
  function Blue(color: bv32): bv32 { color & 0xff }

  function Pack(red: bv32, green: bv32, blue: bv32): bv16 {
    ((((red & 0xf8) << 8) | ((green & 0xfc) << 3) | (blue >> 3)) & 0xffff) as bv16
  }

  /** Drops the low bits of each channel (`rgb888_to_565` in `native/src/game_video.rs`). */
  function Rgb888To565(color: bv32): bv16 {
    Pack(Red(color), Green(color), Blue(color))
  }

  function Red5(pixel: bv16): bv32 { ((pixel >> 11) & 0x1f) as bv32 }
  function Green6(pixel: bv16): bv32 { ((pixel >> 5) & 0x3f) as bv32 }
  function Blue5(pixel: bv16): bv32 { (pixel & 0x1f) as bv32 }
  function Spread5(c: bv32): bv32 { c * 255 / 31 }
  function Spread6(c: bv32): bv32 { c * 255 / 63 }
  function Join(red: bv32, green: bv32, blue: bv32): bv32 { 0xff00_0000 | (red << 16) | (green << 8) | blue }

  /** Spreads each channel over eight bits, opaque (`convert_to_xrgb`). */
  function Rgb565To888(pixel: bv16): bv32 {
    Join(Spread5(Red5(pixel)), Spread6(Green6(pixel)), Spread5(Blue5(pixel)))
  }

  lemma SpreadFive(c: bv32)
    requires c < 32
    ensures Spread5(c) <= 255 && Spread5(c) & 0xf8 == c << 3 && Spread5(c) >> 3 == c
  {
  }

  lemma SpreadSix(c: bv32)
    requires c < 64
    ensures Spread6(c) <= 255 && Spread6(c) & 0xfc == c << 2
  {
  }

  lemma Joined(red: bv32, green: bv32, blue: bv32)
    requires red <= 255 && green <= 255 && blue <= 255
    ensures var color := Join(red, green, blue); Red(color) == red && Green(color) == green && Blue(color) == blue
  {
  }

  lemma Packed(pixel: bv16, red: bv32, green: bv32, blue: bv32)
    requires red & 0xf8 == Red5(pixel) << 3 && green & 0xfc == Green6(pixel) << 2 && blue >> 3 == Blue5(pixel)
    ensures Pack(red, green, blue) == pixel
  {
  }

  lemma Channels(pixel: bv16)
    ensures Red5(pixel) < 32 && Green6(pixel) < 64 && Blue5(pixel) < 32
  {
  }

  /** The widget path shows a 16-bit pixel at full depth; the framebuffer path takes exactly that pixel back. */
  lemma SpreadThenDrop(pixel: bv16)
    ensures Rgb888To565(Rgb565To888(pixel)) == pixel
  {
    hide Red5, Green6, Blue5, Spread5, Spread6, Join, Pack, Red, Green, Blue;
    var red, green, blue := Spread5(Red5(pixel)), Spread6(Green6(pixel)), Spread5(Blue5(pixel));
    Channels(pixel);
    SpreadFive(Red5(pixel));
    SpreadSix(Green6(pixel));
    SpreadFive(Blue5(pixel));
    Joined(red, green, blue);
    Packed(pixel, red, green, blue);
  }

  lemma OpaqueBlackIsBlack()
    ensures Rgb888To565(0xff00_0000) == 0
  {
  }

  lemma AlphaIsDropped(color: bv32)
    ensures Rgb888To565(0xff00_0000 | (color & 0x00ff_ffff)) == Rgb888To565(color)
  {
  }

  // ---- Indices ----

  function Idx(row: nat, column: nat, width: nat): nat {
    row * width + column
  }

  lemma IdxBound(row: nat, column: nat, width: nat, rows: nat)
    requires row < rows && column < width
    ensures Idx(row, column, width) < rows * width
  {
    assert (row + 1) * width <= rows * width;
  }

  lemma IdxInjective(row: nat, column: nat, row': nat, column': nat, width: nat)
    requires column < width && column' < width
    ensures Idx(row, column, width) == Idx(row', column', width) ==> row == row' && column == column'
  {
    if row < row' {
      assert (row + 1) * width <= row' * width;
    } else if row' < row {
      assert (row' + 1) * width <= row * width;
    }
  }

  /** A buffer that holds at least `rows` rows of `width` words. */
  predicate Grid(length: nat, rows: nat, width: nat) {
    length >= rows * width
  }

  lemma IdxFitsAll(length: nat, rows: nat, width: nat)
    requires Grid(length, rows, width)
    ensures forall r: nat, c: nat {:trigger Idx(r, c, width)} :: r < rows && c < width ==> Idx(r, c, width) < length
  {
    forall r: nat, c: nat | r < rows && c < width
      ensures Idx(r, c, width) < length
    {
      IdxBound(r, c, width, rows);
    }
  }

  /** No other place of the buffer has the index of this one. */
  lemma ApartFrom(row: nat, column: nat, width: nat)
    requires column < width
    ensures forall r: nat, c: nat {:trigger Idx(r, c, width)} ::
      c < width && Idx(r, c, width) == Idx(row, column, width) ==> r == row && c == column
  {
    forall r: nat, c: nat | c < width
      ensures Idx(r, c, width) == Idx(row, column, width) ==> r == row && c == column
    {
      IdxInjective(r, c, row, column, width);
    }
  }

  /** A run of one value along a row: `count` copies of it from `offset` on. */
  method FillRun<T>(a: array<T>, rows: nat, width: nat, offset: nat, ghost row: nat, ghost column: nat, count: nat, value: T)
    requires Grid(a.Length, rows, width) && row < rows && column + count <= width
    requires offset == Idx(row, column, width)
    modifies a
    ensures forall r: nat, c: nat {:trigger Idx(r, c, width)} ::
      (r < rows && c < width ==>
         Idx(r, c, width) < a.Length
         && (a[Idx(r, c, width)] ==
             if r == row && column <= c < column + count then value else old(a[Idx(r, c, width)])))
  {
    IdxFitsAll(a.Length, rows, width);
    var copy := 0;
    while copy < count
      invariant copy <= count
      invariant forall r: nat, c: nat {:trigger Idx(r, c, width)} :: r < rows && c < width ==>
        a[Idx(r, c, width)] ==
        if r == row && column <= c < column + copy then value else old(a[Idx(r, c, width)])
    {
      assert offset + copy == Idx(row, column + copy, width);
      ApartFrom(row, column + copy, width);
      a[offset + copy] := value;
      copy := copy + 1;
    }
  }
}
