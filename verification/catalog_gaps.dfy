/**
 What the catalog reader skips between two tokens (`native/src/catalog.rs`): exactly the gaps that can be written there,
 with white space, line comments and nested block comments.
 */
module CatalogGaps {
  import opened Wrappers
  import opened CatalogReader
  import opened CatalogSyntax
  import opened CatalogRoundTrip

  lemma AtJoin(s: string, c: nat, a: string, b: string)
    requires At(s, c, a) && At(s, c + |a|, b)
    ensures At(s, c, a + b)
  {
    assert s[c..c + |a + b|] == s[c..c + |a|] + s[c + |a|..c + |a| + |b|];
  }

  lemma AtOne(s: string, c: nat)
    requires c < |s|
    ensures At(s, c, [s[c]])
  {
  }

  lemma AtMark(s: string, c: nat, first: char, second: char)
    requires Pair(s, c, first, second)
    ensures At(s, c, [first, second])
  {
  }

  // ---- Block comments ----

  /** Text of one character, before a body. */
  lemma CharPart(s: string, c: nat, rest: seq<Part>)
    requires c < |s| && !Pair(s, c, '#', '|') && !Pair(s, c, '|', '#')
    requires At(s, c + 1, ShowParts(rest) + "|#") && ValidParts(rest, "|#")
    ensures var body := [Words([s[c]])] + rest;
      ValidParts(body, "|#") && ShowParts(body) == [s[c]] + ShowParts(rest) && PartsDepth(body) == PartsDepth(rest)
  {
    var body, after := [Words([s[c]])] + rest, ShowParts(rest) + "|#";
    assert body[1..] == rest;
    AtOne(s, c);
    AtJoin(s, c, [s[c]], after);
    PairAt(s, c, [s[c]] + after, 0, '#', '|');
    PairAt(s, c, [s[c]] + after, 0, '|', '#');
    assert ValidWords([s[c]], after);
    hide ValidWords, Pair, At;
  }

  lemma NestedPart(inner: seq<Part>, rest: seq<Part>)
    requires ValidParts(inner, "|#") && ValidParts(rest, "|#")
    ensures var body := [Nested(inner)] + rest;
      ValidParts(body, "|#") && ShowParts(body) == "#|" + ShowParts(inner) + "|#" + ShowParts(rest)
      && PartsDepth(body) == Max(1 + PartsDepth(inner), PartsDepth(rest))
  {
    assert ([Nested(inner)] + rest)[1..] == rest;
  }

  lemma NestedAt(s: string, c: nat, inner: string, rest: string)
    requires Pair(s, c, '#', '|') && At(s, c + 2, inner + "|#") && At(s, c + 4 + |inner|, rest + "|#")
    ensures At(s, c, "#|" + inner + "|#" + rest + "|#")
  {
    AtMark(s, c, '#', '|');
    AtJoin(s, c, "#|", inner + "|#");
    AtJoin(s, c, "#|" + (inner + "|#"), rest + "|#");
    assert "#|" + (inner + "|#") + (rest + "|#") == "#|" + inner + "|#" + rest + "|#";
  }

  /** A block that closes was written: its text, its nested comments, and its closing mark. */
  lemma {:induction false} BlockWasWritten(s: string, c: nat, depth: nat, e: nat) returns (body: seq<Part>)
    requires c <= |s| && 1 <= depth <= MAXIMUM_DEPTH && SkipBlock(s, c, depth) == Ok(e)
    ensures At(s, c, ShowParts(body) + "|#") && ValidParts(body, "|#") && depth + PartsDepth(body) <= MAXIMUM_DEPTH
    ensures SkipBlock(s, c + |ShowParts(body)| + 2, depth - 1) == Ok(e)
    decreases |s| - c
  {
    hide ValidParts, ShowParts, PartsDepth, At;
    if Pair(s, c, '#', '|') {
      var inner := BlockWasWritten(s, c + 2, depth + 1, e);
      var next := c + 4 + |ShowParts(inner)|;
      Ends(s, c + 2, ShowParts(inner));
      var rest := BlockWasWritten(s, next, depth, e);
      body := [Nested(inner)] + rest;
      NestedPart(inner, rest);
      NestedAt(s, c, ShowParts(inner), ShowParts(rest));
    } else if Pair(s, c, '|', '#') {
      body := [];
      NoParts();
      AtMark(s, c, '|', '#');
      assert "" + "|#" == "|#";
    } else {
      var rest := BlockWasWritten(s, c + 1, depth, e);
      body := [Words([s[c]])] + rest;
      CharPart(s, c, rest);
      AtOne(s, c);
      AtJoin(s, c, [s[c]], ShowParts(rest) + "|#");
      Associates([s[c]], ShowParts(rest), "|#");
    }
  }

  lemma Ends(s: string, c: nat, text: string)
    requires At(s, c, text + "|#")
    ensures c + |text| + 2 <= |s|
  {
  }

  // ---- Gaps ----

  lemma {:induction false} LineWasWritten(s: string, c: nat)
    requires c <= |s|
    ensures var e := SkipLine(s, c);
      (forall i :: c <= i < e ==> s[i] != '\n') && (e == |s| || s[e] == '\n')
    decreases |s| - c
  {
    if c < |s| && s[c] != '\n' {
      LineWasWritten(s, c + 1);
    }
  }

  /** The gap stands at the cursor, ends at `e`, and is valid before what follows. */
  predicate GapAt(s: string, c: nat, gap: Gap, e: nat) {
    e <= |s| && At(s, c, ShowGap(gap)) && c + |ShowGap(gap)| == e && ValidGap(gap, s[e..])
  }

  lemma RestOf(s: string, d: nat, text: string, e: nat)
    requires At(s, d, text) && d + |text| == e
    ensures s[d..] == text + s[e..]
  {
  }

  lemma GapGrows(piece: Piece, rest: Gap, after: string)
    requires ValidPiece(piece, ShowGap(rest) + after) && ValidGap(rest, after)
    ensures ValidGap([piece] + rest, after) && ShowGap([piece] + rest) == ShowPiece(piece) + ShowGap(rest)
  {
    hide ShowPiece, ValidPiece;
    assert ([piece] + rest)[1..] == rest;
  }

  /** One more piece before a gap. */
  lemma PiecePrepends(s: string, c: nat, piece: Piece, rest: Gap, e: nat)
    requires At(s, c, ShowPiece(piece)) && GapAt(s, c + |ShowPiece(piece)|, rest, e)
    requires ValidPiece(piece, s[c + |ShowPiece(piece)|..])
    ensures GapAt(s, c, [piece] + rest, e)
  {
    hide ShowPiece, ValidPiece, ShowGap, ValidGap, At;
    RestOf(s, c + |ShowPiece(piece)|, ShowGap(rest), e);
    AtJoin(s, c, ShowPiece(piece), ShowGap(rest));
    GapGrows(piece, rest, s[e..]);
  }

  lemma WhiteStep(s: string, c: nat)
    requires c < |s| && White(s[c])
    ensures At(s, c, ShowPiece(Space(s[c]))) && ValidPiece(Space(s[c]), s[c + 1..])
    ensures SkipSpace(s, c) == SkipSpace(s, c + 1)
  {
    WhiteIsSkipped(s, c);
    AtOne(s, c);
  }

  lemma LineShows(s: string, c: nat, e: nat)
    requires c < e <= |s| && s[c] == ';'
    ensures ShowPiece(Line(s[c + 1..e])) == s[c..e] && |s[c..e]| == e - c && At(s, c, s[c..e])
  {
    assert [s[c]] + s[c + 1..e] == s[c..e];
  }

  lemma LineIsValid(s: string, c: nat, e: nat)
    requires c <= e <= |s| && (forall i :: c <= i < e ==> s[i] != '\n') && (e == |s| || s[e] == '\n')
    ensures ValidPiece(Line(s[c..e]), s[e..])
  {
  }

  lemma LineStep(s: string, c: nat) returns (piece: Piece)
    requires c < |s| && s[c] == ';'
    ensures At(s, c, ShowPiece(piece)) && ValidPiece(piece, s[c + |ShowPiece(piece)|..]) && ShowPiece(piece) != ""
    ensures SkipSpace(s, c) == SkipSpace(s, c + |ShowPiece(piece)|)
  {
    hide SkipSpace, SkipLine, ShowPiece, ValidPiece, At;
    var e := SkipLine(s, c + 1);
    LineWasWritten(s, c + 1);
    LineStarts(s, c, e);
    piece := Line(s[c + 1..e]);
    LineShows(s, c, e);
    LineIsValid(s, c + 1, e);
  }

  lemma BlockStep(s: string, c: nat, e: nat) returns (piece: Piece)
    requires Pair(s, c, '#', '|') && SkipBlock(s, c + 2, 1) == Ok(e)
    ensures At(s, c, ShowPiece(piece)) && ValidPiece(piece, s[c + |ShowPiece(piece)|..]) && ShowPiece(piece) != ""
    ensures c + |ShowPiece(piece)| == e && SkipSpace(s, c) == SkipSpace(s, e)
  {
    var body := BlockWasWritten(s, c + 2, 1, e);
    hide SkipSpace, ValidParts, ShowParts;
    assert SkipBlock(s, c + 2 + |ShowParts(body)| + 2, 0) == Ok(e);
    Ends(s, c + 2, ShowParts(body));
    hide SkipBlock;
    piece := Block(body);
    AtMark(s, c, '#', '|');
    AtJoin(s, c, "#|", ShowParts(body) + "|#");
    Associates("#|", ShowParts(body), "|#");
    BlockStarts(s, c, e);
  }

  predicate Stops(s: string, c: nat)
    requires c <= |s|
  {
    c == |s| || (!White(s[c]) && s[c] != ';' && !Pair(s, c, '#', '|'))
  }

  lemma StopsExactly(s: string, c: nat)
    requires c <= |s|
    ensures Stops(s, c) ==> SkipSpace(s, c) == Ok(c)
    ensures c < |s| && !Stops(s, c) && s[c] != ';' && !White(s[c]) && SkipSpace(s, c).Ok? ==> SkipBlock(s, c + 2, 1).Ok?
  {
  }

  /** Whatever is skipped is a valid gap, and behind it something stands that is not skipped. */
  lemma {:induction false} GapWasWritten(s: string, c: nat, e: nat) returns (gap: Gap)
    requires c <= |s| && SkipSpace(s, c) == Ok(e)
    ensures GapAt(s, c, gap, e) && Stops(s, e)
    decreases |s| - c
  {
    hide SkipSpace, SkipBlock, SkipLine, ShowPiece, ValidPiece, ShowGap, ValidGap, GapAt, At;
    StopsExactly(s, c);
    if Stops(s, c) {
      gap := [];
      EmptyGap(s, c);
    } else {
      var piece: Piece;
      if White(s[c]) {
        piece := Space(s[c]);
        WhiteStep(s, c);
        SpaceShows(s[c]);
      } else if s[c] == ';' {
        piece := LineStep(s, c);
      } else {
        piece := BlockStep(s, c, SkipBlock(s, c + 2, 1).value);
      }
      AtEnds(s, c, ShowPiece(piece));
      var rest := GapWasWritten(s, c + |ShowPiece(piece)|, e);
      gap := [piece] + rest;
      PiecePrepends(s, c, piece, rest, e);
    }
  }

  lemma EmptyGap(s: string, c: nat)
    requires c <= |s|
    ensures GapAt(s, c, [], c)
  {
  }

  lemma SpaceShows(c: char)
    ensures |ShowPiece(Space(c))| == 1
  {
  }

  lemma AtEnds(s: string, c: nat, text: string)
    requires At(s, c, text)
    ensures c + |text| <= |s|
  {
  }

  lemma WrittenGapIsSkipped(s: string, c: nat, gap: Gap, e: nat)
    requires GapAt(s, c, gap, e) && Stops(s, e)
    ensures SkipSpace(s, c) == Ok(e)
  {
    hide SkipSpace, ShowGap, ValidGap;
    AtTail(s, e);
    AtJoin(s, c, ShowGap(gap), s[e..]);
    SkipsGap(s, c, gap, s[e..]);
    StopsExactly(s, e);
  }

  lemma AtTail(s: string, e: nat)
    requires e <= |s|
    ensures At(s, e, s[e..]) && (s[e..] == "" ==> e == |s|)
  {
  }

  /** From a cursor the reader skips to `e` exactly when a valid gap ends there and nothing more can be skipped. */
  lemma SkipsExactlyGaps(s: string, c: nat, e: nat)
    requires c <= |s| && e <= |s|
    ensures SkipSpace(s, c) == Ok(e) <==> (exists gap :: GapAt(s, c, gap, e)) && Stops(s, e)
  {
    hide SkipSpace, GapAt, Stops;
    if SkipSpace(s, c) == Ok(e) {
      var gap := GapWasWritten(s, c, e);
    }
    if (exists gap :: GapAt(s, c, gap, e)) && Stops(s, e) {
      var gap :| GapAt(s, c, gap, e);
      WrittenGapIsSkipped(s, c, gap, e);
    }
  }
}
