/** Lines and fields: the text functions the catalog's readers and writers share. */
module TextRows {

  predicate Absent(s: string, c: char) {
    forall i :: 0 <= i < |s| ==> s[i] != c
  }

  /** The fields of a line, split at every `c`; a line always has at least one. */
  function Split(s: string, c: char): (fields: seq<string>)
    ensures |fields| >= 1
  {
    if s == "" then [""]
    else
      var rest := Split(s[1..], c);
      if s[0] == c then [""] + rest else [[s[0]] + rest[0]] + rest[1..]
  }

  function Join(fields: seq<string>, c: char): string {
    if fields == [] then ""
    else if |fields| == 1 then fields[0]
    else fields[0] + [c] + Join(fields[1..], c)
  }

  function StripReturn(s: string): string {
    if s != "" && s[|s| - 1] == '\r' then s[..|s| - 1] else s
  }

  /** The lines of a text: ended by a newline or by the end of the text, without a carriage return before the newline. */
  function Lines(t: string): seq<string> {
    if t == "" then []
    else
      var pieces := Split(t, '\n');
      EndedLines(pieces)
  }

  /** All pieces but the last were ended by a newline; an empty last piece is no line. */
  function EndedLines(pieces: seq<string>): seq<string>
    requires |pieces| >= 1
  {
    if |pieces| == 1 then (if pieces[0] == "" then [] else pieces)
    else [StripReturn(pieces[0])] + EndedLines(pieces[1..])
  }

  /** Rows, each ended by a newline. */
  function Rows(rows: seq<string>): string {
    if rows == [] then "" else rows[0] + "\n" + Rows(rows[1..])
  }

  lemma {:induction false} SplitAbsent(s: string, c: char)
    requires Absent(s, c)
    ensures Split(s, c) == [s]
  {
    if s != "" {
      assert s[0] != c;
      SplitAbsent(s[1..], c);
      assert [s[0]] + s[1..] == s;
    }
  }

  lemma {:induction false} SplitFirst(a: string, c: char, rest: string)
    requires Absent(a, c)
    ensures Split(a + [c] + rest, c) == [a] + Split(rest, c)
  {
    var s := a + [c] + rest;
    if a == "" {
      assert s[1..] == rest;
    } else {
      assert s[0] == a[0] && s[0] != c;
      assert s[1..] == a[1..] + [c] + rest;
      SplitFirst(a[1..], c, rest);
      assert [a[0]] + a[1..] == a;
    }
  }

  lemma {:induction false} SplitJoin(fields: seq<string>, c: char)
    requires |fields| >= 1 && forall i :: 0 <= i < |fields| ==> Absent(fields[i], c)
    ensures Split(Join(fields, c), c) == fields
  {
    if |fields| == 1 {
      SplitAbsent(fields[0], c);
    } else {
      SplitFirst(fields[0], c, Join(fields[1..], c));
      SplitJoin(fields[1..], c);
    }
  }

  /** A row that survives being written and read as a line. */
  predicate CleanRow(row: string) {
    Absent(row, '\n') && (row == "" || row[|row| - 1] != '\r')
  }

  lemma {:induction false} RowsSplit(rows: seq<string>)
    requires forall i :: 0 <= i < |rows| ==> CleanRow(rows[i])
    ensures Split(Rows(rows), '\n') == rows + [""]
  {
    if rows != [] {
      SplitFirst(rows[0], '\n', Rows(rows[1..]));
      assert rows[0] + ['\n'] + Rows(rows[1..]) == Rows(rows);
      RowsSplit(rows[1..]);
    }
  }

  lemma {:induction false} EndedRows(rows: seq<string>)
    requires forall i :: 0 <= i < |rows| ==> CleanRow(rows[i])
    ensures EndedLines(rows + [""]) == rows
  {
    if rows != [] {
      assert (rows + [""])[1..] == rows[1..] + [""];
      EndedRows(rows[1..]);
    }
  }

  lemma LinesOfRows(rows: seq<string>)
    requires forall i :: 0 <= i < |rows| ==> CleanRow(rows[i])
    ensures Lines(Rows(rows)) == rows
  {
    if rows != [] {
      RowsSplit(rows);
      EndedRows(rows);
    }
  }

  lemma {:induction false} RowsLength(rows: seq<string>, bound: nat)
    requires forall i :: 0 <= i < |rows| ==> |rows[i]| + 1 <= bound
    ensures |Rows(rows)| <= |rows| * bound
  {
    if rows != [] {
      RowsLength(rows[1..], bound);
      assert |rows| * bound == bound + (|rows| - 1) * bound;
    }
  }
}
