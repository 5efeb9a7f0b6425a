/** The dashboard's rotation between its 1280x480 canvas and the 600x1280 scanout (`native/src/fbdev.rs`). */
module Scanout {
  import opened Arithmetic
  import opened Pixels

  const CANVAS_WIDTH: nat := 1280
  const CANVAS_HEIGHT: nat := 480
  const PHYSICAL_WIDTH: nat := 600
  const PHYSICAL_HEIGHT: nat := 1280

  /** The first `columns` columns of the canvas, and `rows` points of the next, are in the frame; the rest is as before. */
  ghost predicate Staged(frame: seq<bv16>, was: seq<bv16>, rowWords: nat, canvas: seq<bv16>, columns: int, rows: int)
    requires |frame| == |was| && Grid(|frame|, PHYSICAL_HEIGHT, rowWords) && rowWords >= PHYSICAL_WIDTH
    requires |canvas| == CANVAS_WIDTH * CANVAS_HEIGHT
  {
    IdxFitsAll(|frame|, PHYSICAL_HEIGHT, rowWords);
    IdxFitsAll(|canvas|, CANVAS_HEIGHT, CANVAS_WIDTH);
    forall r: nat, c: nat {:trigger Idx(r, c, rowWords)} :: r < PHYSICAL_HEIGHT && c < rowWords ==>
      frame[Idx(r, c, rowWords)] ==
      if c < CANVAS_HEIGHT && (1279 - r < columns || (1279 - r == columns && c < rows))
      then canvas[Idx(c, 1279 - r, CANVAS_WIDTH)] else was[Idx(r, c, rowWords)]
  }

  predicate Accepts(canvasLength: nat, rowWords: nat, frameLength: nat) {
    canvasLength == CANVAS_WIDTH * CANVAS_HEIGHT && rowWords >= PHYSICAL_WIDTH && frameLength >= PHYSICAL_HEIGHT * rowWords
  }

  method StageCanvasForScanout(canvas: seq<bv16>, rowWords: nat, frame: array<bv16>) returns (ok: bool)
    modifies frame
    ensures ok <==> Accepts(|canvas|, rowWords, frame.Length)
    ensures ok ==> Staged(frame[..], old(frame[..]), rowWords, canvas, CANVAS_WIDTH, 0)
    ensures !ok ==> frame[..] == old(frame[..])
  {
    if |canvas| != CANVAS_WIDTH * CANVAS_HEIGHT || rowWords < PHYSICAL_WIDTH || frame.Length < PHYSICAL_HEIGHT * rowWords {
      return false;
    }
    ghost var was := frame[..];
    IdxFitsAll(frame.Length, PHYSICAL_HEIGHT, rowWords);
    IdxFitsAll(|canvas|, CANVAS_HEIGHT, CANVAS_WIDTH);
    var x := 0;
    while x < CANVAS_WIDTH
      invariant x <= CANVAS_WIDTH && Staged(frame[..], was, rowWords, canvas, x, 0)
    {
      var y := 0;
      while y < CANVAS_HEIGHT
        invariant y <= CANVAS_HEIGHT && Staged(frame[..], was, rowWords, canvas, x, y)
      {
        ApartFrom(1279 - x, y, rowWords);
        frame[Idx(1279 - x, y, rowWords)] := canvas[Idx(y, x, CANVAS_WIDTH)];
        y := y + 1;
      }
      x := x + 1;
    }
    return true;
  }

  /** The first `columns` columns of the canvas, and `rows` points of the next, come from the frame. */
  ghost predicate Restored(canvas: seq<bv16>, was: seq<bv16>, rowWords: nat, frame: seq<bv16>, columns: int, rows: int)
    requires |canvas| == |was| == CANVAS_WIDTH * CANVAS_HEIGHT
    requires Grid(|frame|, PHYSICAL_HEIGHT, rowWords) && rowWords >= PHYSICAL_WIDTH
  {
    IdxFitsAll(|frame|, PHYSICAL_HEIGHT, rowWords);
    IdxFitsAll(|canvas|, CANVAS_HEIGHT, CANVAS_WIDTH);
    forall y: nat, x: nat {:trigger Idx(y, x, CANVAS_WIDTH)} :: y < CANVAS_HEIGHT && x < CANVAS_WIDTH ==>
      canvas[Idx(y, x, CANVAS_WIDTH)] ==
      if x < columns || (x == columns && y < rows) then frame[Idx(1279 - x, y, rowWords)] else was[Idx(y, x, CANVAS_WIDTH)]
  }

  method ReadScanoutIntoCanvas(frame: seq<bv16>, rowWords: nat, canvas: array<bv16>) returns (ok: bool)
    modifies canvas
    ensures ok <==> Accepts(canvas.Length, rowWords, |frame|)
    ensures ok ==> Restored(canvas[..], old(canvas[..]), rowWords, frame, CANVAS_WIDTH, 0)
    ensures !ok ==> canvas[..] == old(canvas[..])
  {
    if |frame| < PHYSICAL_HEIGHT * rowWords || rowWords < PHYSICAL_WIDTH || canvas.Length != CANVAS_WIDTH * CANVAS_HEIGHT {
      return false;
    }
    ghost var was := canvas[..];
    IdxFitsAll(|frame|, PHYSICAL_HEIGHT, rowWords);
    IdxFitsAll(canvas.Length, CANVAS_HEIGHT, CANVAS_WIDTH);
    var x := 0;
    while x < CANVAS_WIDTH
      invariant x <= CANVAS_WIDTH && Restored(canvas[..], was, rowWords, frame, x, 0)
    {
      var y := 0;
      while y < CANVAS_HEIGHT
        invariant y <= CANVAS_HEIGHT && Restored(canvas[..], was, rowWords, frame, x, y)
      {
        ApartFrom(y, x, CANVAS_WIDTH);
        canvas[Idx(y, x, CANVAS_WIDTH)] := frame[Idx(1279 - x, y, rowWords)];
        y := y + 1;
      }
      x := x + 1;
    }
    return true;
  }

  /** Reading a staged scanout gives the canvas back, whatever was in either buffer before. */
  lemma {:induction false} RotationRoundTrip(canvas: seq<bv16>, frame: seq<bv16>, was: seq<bv16>, restored: seq<bv16>,
                                             before: seq<bv16>, rowWords: nat)
    requires Accepts(|canvas|, rowWords, |frame|) && |was| == |frame|
    requires |restored| == |before| == |canvas|
    requires Staged(frame, was, rowWords, canvas, CANVAS_WIDTH, 0)
    requires Restored(restored, before, rowWords, frame, CANVAS_WIDTH, 0)
    ensures restored == canvas
  {
    forall i | 0 <= i < |canvas|
      ensures restored[i] == canvas[i]
    {
      var y, x := i / CANVAS_WIDTH, i % CANVAS_WIDTH;
      assert Idx(y, x, CANVAS_WIDTH) == i;
      assert y < CANVAS_HEIGHT;
      var at := Idx(1279 - x, y, rowWords);
    }
  }
}
