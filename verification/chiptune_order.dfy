/** The order in which the chiptune player tries its files (`native/src/chiptune_ui/mod.rs`). */
module ChiptuneOrder {
  import opened Arithmetic
  import opened AudioRing

  /** The file `attempt` places after, or before, the current one, around the list. */
  function Candidate(count: nat, current: nat, direction: int, attempt: nat): (file: nat)
    requires current < count && 1 <= attempt <= count
    ensures file < count
  {
    if direction < 0 then (current + count - attempt % count) % count else (current + attempt) % count
  }

  function FileCandidates(count: nat, current: nat, direction: int): (files: seq<nat>)
    requires current < count
    ensures |files| == count
  {
    seq(count, k requires 0 <= k < count => Candidate(count, current, direction, k + 1))
  }

  lemma CandidateIs(count: nat, current: nat, direction: int, attempt: nat)
    requires current < count && 1 <= attempt <= count
    ensures Candidate(count, current, direction, attempt)
         == if direction < 0 then (if attempt <= current then current - attempt else current + count - attempt)
            else (if current + attempt < count then current + attempt else current + attempt - count)
  {
    if direction < 0 {
      if attempt == count {
        DivUnique(count, count, 1, 0);
        DivUnique(current + count, count, 1, current);
      } else {
        DivUnique(attempt, count, 0, attempt);
        if attempt <= current {
          DivUnique(current + count - attempt, count, 1, current - attempt);
        } else {
          DivUnique(current + count - attempt, count, 0, current + count - attempt);
        }
      }
    } else {
      SlotWraps(current, attempt, count);
    }
  }

  /** Every file is tried once, the neighbour first and the current file last. */
  lemma EveryFileOnce(count: nat, current: nat, direction: int)
    requires current < count
    ensures var files := FileCandidates(count, current, direction);
      && (forall i, j :: 0 <= i < j < count ==> files[i] != files[j])
      && (forall f :: 0 <= f < count ==> f in files)
      && files[count - 1] == current
  {
    var files := FileCandidates(count, current, direction);
    hide Candidate;
    forall i, j | 0 <= i < j < count
      ensures files[i] != files[j]
    {
      CandidateIs(count, current, direction, i + 1);
      CandidateIs(count, current, direction, j + 1);
    }
    forall f | 0 <= f < count
      ensures f in files
    {
      var attempt :=
        if direction < 0 then (if f < current then current - f else current + count - f)
        else if f > current then f - current else f + count - current;
      CandidateIs(count, current, direction, attempt);
      assert files[attempt - 1] == f;
    }
    CandidateIs(count, current, direction, count);
  }

  /** Going forward and then back from the first candidate returns to the file. */
  lemma StepAndBack(count: nat, current: nat)
    requires current < count
    ensures Candidate(count, Candidate(count, current, 1, 1), -1, 1) == current
  {
    CandidateIs(count, current, 1, 1);
    CandidateIs(count, Candidate(count, current, 1, 1), -1, 1);
    hide Candidate;
  }

  // ---- Shuffle ----

  function ShuffleOffset(count: nat, random: nat): nat {
    if count > 1 then 1 + random % (count - 1) else 0
  }

  /** The candidates from `attempt` on. */
  function ShuffleFrom(count: nat, current: nat, offset: nat, attempt: nat): seq<nat>
    requires current < count && attempt <= count
    decreases count - attempt
  {
    if attempt == count then []
    else
      var candidate := (current + offset + attempt) % count;
      (if count == 1 || candidate != current then [candidate] else [])
      + ShuffleFrom(count, current, offset, attempt + 1)
  }

  function ShuffleCandidates(count: nat, current: nat, random: nat): seq<nat>
    requires current < count
  {
    ShuffleFrom(count, current, ShuffleOffset(count, random), 0)
  }

  predicate Distinct(s: seq<nat>) {
    forall i, j :: 0 <= i < j < |s| ==> s[i] != s[j]
  }

  lemma ShuffledIs(count: nat, current: nat, offset: nat, attempt: nat)
    requires current < count && offset < count && attempt < count
    ensures (current + offset + attempt) % count == Slot(Slot(current, offset, count), attempt, count)
  {
    var first := Slot(current, offset, count);
    SlotWraps(current, offset, count);
    SlotWraps(first, attempt, count);
    var n := current + offset + attempt;
    if n < count {
      DivUnique(n, count, 0, n);
    } else if n < 2 * count {
      DivUnique(n, count, 1, n - count);
    } else {
      DivUnique(n, count, 2, n - 2 * count);
    }
  }

  lemma {:induction false} ShuffleFromHolds(count: nat, current: nat, offset: nat, attempt: nat)
    requires 1 < count && current < count && 1 <= offset < count && attempt <= count
    ensures var r := ShuffleFrom(count, current, offset, attempt);
      && Distinct(r) && current !in r
      && forall f :: f in r <==> (f != current && exists k :: attempt <= k < count && Slot(Slot(current, offset, count), k, count) == f)
    decreases count - attempt
  {
    if attempt < count {
      var first := Slot(current, offset, count);
      var rest := ShuffleFrom(count, current, offset, attempt + 1);
      ShuffleFromHolds(count, current, offset, attempt + 1);
      ShuffledIs(count, current, offset, attempt);
      var candidate := Slot(first, attempt, count);
      hide Slot;
      if candidate in rest {
        var k :| attempt + 1 <= k < count && Slot(first, k, count) == candidate;
        SlotsDiffer(first, attempt, k, count);
      }
    }
  }

  /** Shuffle tries every other file exactly once and never the current one. */
  lemma EveryOtherFileOnce(count: nat, current: nat, random: nat)
    requires 1 < count && current < count
    ensures var files := ShuffleCandidates(count, current, random);
      Distinct(files) && forall f: nat :: f in files <==> f < count && f != current
  {
    var offset := ShuffleOffset(count, random);
    ShuffleFromHolds(count, current, offset, 0);
    var files, first := ShuffleCandidates(count, current, random), Slot(current, offset, count);
    forall f: nat | f < count && f != current
      ensures f in files
    {
      var k := if f >= first then f - first else f + count - first;
      SlotWraps(first, k, count);
      assert Slot(first, k, count) == f;
    }
    hide ShuffleCandidates;
  }
}
