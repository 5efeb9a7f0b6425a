/**
 The queue between the emulator's audio callback and the thread that writes the sound device
 (`native/src/game_audio.rs`). Every section under the queue's lock is one atomic step.
 */
module AudioRing {
  import opened Arithmetic

  const QUEUE_FRAMES: nat := 16384
  const CUSHION_FRAMES: nat := 1024
  const WRITE_CHUNK_FRAMES: nat := 2048

  /** What the writer finds when it holds the lock: it must end, it must wait, or it has taken a chunk. */
  datatype Taken = Stopped | Waiting | Chunk(samples: seq<int>)

  function Min(a: nat, b: nat): nat { if a < b then a else b }

  /** The newest `limit` elements. */
  function Newest(s: seq<int>, limit: nat): seq<int> {
    if |s| <= limit then s else s[|s| - limit..]
  }

  function Excess(n: nat, limit: nat): nat { if n <= limit then 0 else n - limit }

  function Silence(n: nat): seq<int> { seq(n, _ => 0) }

  // ---- Slots ----

  /** The slot of the element `i` places after the one at `head`. */
  function Slot(head: nat, i: nat, capacity: nat): (slot: nat)
    requires capacity > 0
    ensures slot < capacity
  {
    (head + i) % capacity
  }

  lemma SlotWraps(head: nat, i: nat, capacity: nat)
    requires head < capacity && i <= capacity
    ensures Slot(head, i, capacity) == if head + i < capacity then head + i else head + i - capacity
  {
    if head + i < capacity {
      DivUnique(head + i, capacity, 0, head + i);
    } else {
      DivUnique(head + i, capacity, 1, head + i - capacity);
    }
  }

  lemma SlotsDiffer(head: nat, i: nat, j: nat, capacity: nat)
    requires head < capacity && i < j < capacity
    ensures Slot(head, i, capacity) != Slot(head, j, capacity)
  {
    SlotWraps(head, i, capacity);
    SlotWraps(head, j, capacity);
    hide Slot;
  }

  lemma SlotsAdd(head: nat, i: nat, j: nat, capacity: nat)
    requires head < capacity && i <= capacity && j <= capacity && i + j <= capacity
    ensures Slot(Slot(head, i, capacity), j, capacity) == Slot(head, i + j, capacity)
  {
    SlotWraps(head, i, capacity);
    SlotWraps(head, i + j, capacity);
    var h := Slot(head, i, capacity);
    hide Slot;
    SlotWraps(h, j, capacity);
  }

  /** Cutting the samples to the capacity, and then the queue to what is free, leaves the newest of both. */
  lemma MakingRoom(queued: seq<int>, samples: seq<int>, capacity: nat)
    requires |queued| <= capacity
    ensures var kept := if |samples| > capacity then samples[|samples| - capacity..] else samples;
      var cut := Excess(|kept|, capacity - |queued|);
      && cut <= |queued| && queued[cut..] + kept == Newest(queued + samples, capacity)
      && Excess(|queued| + |samples|, capacity) == |samples| - |kept| + cut
  {
  }

  // ---- The queue ----

  class Ring {
    var queue: array<int>
    var head: nat
    var size: nat
    var dropped: nat
    var stopping: bool
    var workerFailed: bool

    ghost predicate Valid()
      reads this
    {
      && size <= queue.Length
      && (queue.Length > 0 ==> head < queue.Length)
    }

    /** What is queued, oldest first. */
    ghost function Contents(): (s: seq<int>)
      requires Valid()
      reads this, queue
      ensures |s| == size
    {
      seq(size, i requires 0 <= i < size reads this, queue =>
        if queue.Length == 0 then 0 else queue[Slot(head, i, queue.Length)])
    }

    predicate Accepting()
      reads this
    {
      queue.Length > 0 && !stopping && !workerFailed
    }

    constructor ()
      ensures Valid() && fresh(queue) && Contents() == [] && queue.Length == 0
      ensures dropped == 0 && !stopping && !workerFailed
    {
      queue, head, size, dropped := new int[0], 0, 0, 0;
      stopping, workerFailed := false, false;
    }

    /** The player opens the device: a queue with a cushion of silence. */
    method Open()
      modifies this
      ensures Valid() && fresh(queue) && queue.Length == QUEUE_FRAMES
      ensures Contents() == Silence(CUSHION_FRAMES) && dropped == 0 && !stopping && !workerFailed
    {
      queue := new int[QUEUE_FRAMES](_ => 0);
      head, size, dropped := 0, CUSHION_FRAMES, 0;
      stopping, workerFailed := false, false;
      assert forall i :: 0 <= i < size ==> queue[Slot(head, i, queue.Length)] == 0;
    }

    /** Makes room at the old end for `n` samples more. */
    method Advance(n: nat)
      requires Valid() && n <= size && queue.Length > 0
      modifies this`head, this`size
      ensures Valid() && Contents() == old(Contents())[n..]
    {
      ghost var was := Contents();
      SlotWraps(head, n, queue.Length);
      forall i | 0 <= i < size - n
        ensures queue[Slot(Slot(head, n, queue.Length), i, queue.Length)] == was[n + i]
      {
        SlotsAdd(head, n, i, queue.Length);
      }
      head := (head + n) % queue.Length;
      size := size - n;
      assert head == Slot(old(head), n, queue.Length);
    }

    /** Stores samples behind the queued ones, where there is room for them. */
    method Store(source: seq<int>)
      requires Valid() && queue.Length > 0 && size + |source| <= queue.Length
      modifies this`size, queue
      ensures Valid() && Contents() == old(Contents()) + source
    {
      ghost var was := Contents();
      var capacity := queue.Length;
      var tail := (head + size) % capacity;
      assert tail == Slot(head, size, capacity);
      var index := 0;
      while index < |source|
        invariant index <= |source| && |was| == size
        invariant forall i :: 0 <= i < size + index ==>
          queue[Slot(head, i, capacity)] == (was + source)[i]
      {
        var slot := (tail + index) % capacity;
        SlotsAdd(head, size, index, capacity);
        assert slot == Slot(head, size + index, capacity);
        forall i | 0 <= i < size + index
          ensures Slot(head, i, capacity) != slot
        {
          SlotsDiffer(head, i, size + index, capacity);
        }
        queue[slot] := source[index];
        index := index + 1;
      }
      assert index == |source|;
      size := size + |source|;
    }

    /** What does not fit beside `count` new samples goes, and is counted. */
    method MakeRoom(count: nat)
      requires Valid() && count <= queue.Length && queue.Length > 0
      modifies this`head, this`size, this`dropped
      ensures Valid() && size + count <= queue.Length
      ensures Excess(count, queue.Length - old(size)) <= old(size)
      ensures Contents() == old(Contents())[Excess(count, queue.Length - old(size))..]
      ensures dropped == old(dropped) + Excess(count, queue.Length - old(size))
    {
      var free := queue.Length - size;
      if count > free {
        var shortfall := count - free;
        Advance(shortfall);
        dropped := dropped + shortfall;
      } else {
        assert Contents() == Contents()[0..];
      }
    }

    /** The producer: the newest samples stay, and what had to go is counted. */
    method Enqueue(samples: seq<int>)
      requires Valid()
      modifies this`head, this`size, this`dropped, queue
      ensures Valid()
      ensures Contents() == if Accepting() then Newest(old(Contents()) + samples, queue.Length) else old(Contents())
      ensures dropped == old(dropped)
                       + if Accepting() then Excess(old(size) + |samples|, queue.Length) else 0
    {
      if queue.Length == 0 || stopping || workerFailed {
        return;
      }
      MakingRoom(Contents(), samples, queue.Length);
      hide Newest, Excess, Slot;
      var capacity := queue.Length;
      var source := samples;
      if |source| > capacity {
        dropped := dropped + (|source| - capacity);
        source := source[|source| - capacity..];
      }
      MakeRoom(|source|);
      Store(source);
    }

    /** The writer: at most one chunk from the old end. */
    method Take() returns (r: Taken)
      requires Valid()
      modifies this`head, this`size
      ensures Valid()
      ensures r == if stopping then Stopped else if old(size) == 0 then Waiting
                   else Chunk(old(Contents())[..Min(old(size), WRITE_CHUNK_FRAMES)])
      ensures Contents() == if r.Chunk? then old(Contents())[Min(old(size), WRITE_CHUNK_FRAMES)..] else old(Contents())
    {
      if stopping {
        return Stopped;
      }
      if size == 0 {
        return Waiting;
      }
      var count := Min(size, WRITE_CHUNK_FRAMES);
      var capacity := queue.Length;
      var output: seq<int> := [];
      var index := 0;
      while index < count
        invariant index <= count && |output| == index
        invariant output == Contents()[..index]
      {
        output := output + [queue[(head + index) % capacity]];
        index := index + 1;
      }
      Advance(count);
      return Chunk(output);
    }

    /** The writer cannot start the device. */
    method FailTrigger()
      requires Valid()
      modifies this`workerFailed
      ensures Valid() && workerFailed && Contents() == old(Contents())
    {
      workerFailed := true;
    }

    /** The writer cannot write the device. */
    method FailWrite()
      requires Valid()
      modifies this`workerFailed, this`size
      ensures Valid() && workerFailed && Contents() == []
    {
      workerFailed := true;
      size := 0;
    }

    method DiscardPending()
      requires Valid()
      modifies this`head, this`size
      ensures Valid() && Contents() == []
    {
      head, size := 0, 0;
    }

    method BeginClose()
      requires Valid()
      modifies this`stopping
      ensures Valid() && stopping && Contents() == old(Contents())
    {
      stopping := true;
    }

    method FinishClose()
      modifies this`queue, this`head, this`size
      ensures Valid() && fresh(queue) && queue.Length == 0 && Contents() == []
    {
      queue := new int[0];
      head, size := 0, 0;
    }
  }
}
