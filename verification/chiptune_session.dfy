/**
 The chiptune player's block pipeline (`native/src/chiptune_ui/mod.rs`): decoded blocks wait until the sound queue takes
 them, and the next track begins only after the last block of this one is queued.
 */
module ChiptuneSession {
  import opened Wrappers
  import opened OggPlayer

  const BLOCK_NS: nat := 16_666_667

  /** One decoded block, as the player hands it on: always a full tick of frames. */
  datatype Block = Block(frames: seq<Stereo>, ended: bool)

  // ---- Blocks of a track ----

  function Padded(frames: seq<Stereo>): (r: seq<Stereo>)
    requires |frames| <= FRAMES_PER_TICK
    ensures |r| == FRAMES_PER_TICK && frames <= r
  {
    frames + seq(FRAMES_PER_TICK - |frames|, _ => (0, 0))
  }

  /** The blocks a stream is cut into; one that breaks off has none for what is left before the break. */
  function TrackBlocks(stream: seq<Stereo>, whole: bool): (r: seq<Block>)
    ensures whole ==> Track(r)
    decreases |stream|
  {
    if |stream| < FRAMES_PER_TICK then if whole then [Block(Padded(stream), true)] else []
    else [Block(stream[..FRAMES_PER_TICK], false)] + TrackBlocks(stream[FRAMES_PER_TICK..], whole)
  }

  /** The blocks of the packets of a file. */
  function FileBlocks(packets: seq<Packet>): seq<Block> {
    TrackBlocks(StreamOf(packets), AllPlayable(packets))
  }

  function AllBlocks(files: seq<seq<Packet>>): seq<seq<Block>> {
    if files == [] then [] else [FileBlocks(files[0])] + AllBlocks(files[1..])
  }

  /** Exactly the last block of a track says that it has ended. */
  predicate Track(blocks: seq<Block>) {
    blocks != [] && forall i :: 0 <= i < |blocks| ==> (blocks[i].ended <==> i == |blocks| - 1)
  }

  function Sound(blocks: seq<Block>): seq<Stereo> {
    if blocks == [] then [] else blocks[0].frames + Sound(blocks[1..])
  }

  /** The blocks of a track are its frames in order, with less than one block of silence behind them. */
  lemma {:induction false} BlocksAreTheStream(stream: seq<Stereo>)
    ensures var blocks := TrackBlocks(stream, true);
      stream <= Sound(blocks) && |Sound(blocks)| == |blocks| * FRAMES_PER_TICK <= |stream| + FRAMES_PER_TICK
    decreases |stream|
  {
    var blocks := TrackBlocks(stream, true);
    if |stream| < FRAMES_PER_TICK {
      assert blocks[1..] == [];
      assert Sound(blocks) == Padded(stream) + [];
    } else {
      var rest := stream[FRAMES_PER_TICK..];
      BlocksAreTheStream(rest);
      assert blocks[1..] == TrackBlocks(rest, true);
      assert stream == stream[..FRAMES_PER_TICK] + rest;
    }
  }

  /** The blocks of a track that breaks off are a beginning of its frames, and less than one block of them is missing. */
  lemma {:induction false} BrokenBlocksBegin(stream: seq<Stereo>)
    ensures var blocks := TrackBlocks(stream, false);
      Sound(blocks) <= stream && |stream| < |Sound(blocks)| + FRAMES_PER_TICK
    decreases |stream|
  {
    var blocks := TrackBlocks(stream, false);
    if |stream| >= FRAMES_PER_TICK {
      var rest := stream[FRAMES_PER_TICK..];
      BrokenBlocksBegin(rest);
      assert blocks[1..] == TrackBlocks(rest, false);
      assert stream == stream[..FRAMES_PER_TICK] + rest;
    }
  }

  /** The block that is decoded is the first one of what is left, and the others stay. */
  lemma BlockIsFirst(player: Player, block: DecodeBlock, rest: seq<Stereo>, frames: seq<Stereo>)
    requires player.Valid() && block.frames <= FRAMES_PER_TICK && player.SilentFrom(block.frames)
    requires player.Block(block.frames) + player.Rest() == rest && frames == player.Block(FRAMES_PER_TICK)
    requires block.ended ==> block.frames < FRAMES_PER_TICK && player.Rest() == []
    requires !block.ended ==> block.frames == FRAMES_PER_TICK
    ensures block.ended ==> TrackBlocks(rest, true) == [Block(frames, true)]
    ensures !block.ended ==> forall whole :: TrackBlocks(rest, whole) == [Block(frames, false)] + TrackBlocks(player.Rest(), whole)
  {
    if block.ended {
      assert rest == player.Block(block.frames);
      assert Padded(rest) == frames;
    } else {
      assert rest[..FRAMES_PER_TICK] == frames && rest[FRAMES_PER_TICK..] == player.Rest();
    }
  }

  /** Decoding a track to its end, or to where it breaks off, gives exactly its blocks, whatever pieces are handed out. */
  method DecodeTrack(player: Player) returns (blocks: seq<Block>)
    requires player.Valid()
    modifies player, player.samples
    ensures blocks == TrackBlocks(old(player.Rest()), AllPlayable(old(player.packets)))
  {
    blocks := [];
    var over := false;
    ghost var whole := AllPlayable(player.packets);
    while !over
      invariant player.Valid() && (!over ==> (AllPlayable(player.packets) <==> whole))
      invariant TrackBlocks(old(player.Rest()), whole) == blocks + if over then [] else TrackBlocks(player.Rest(), whole)
      decreases !over, |player.Rest()|
    {
      ghost var rest := player.Rest();
      var r := player.Decode();
      if r.Err? {
        over := true;
      } else {
        var frames := player.Samples();
        BlockIsFirst(player, r.value, rest, frames);
        over := r.value.ended;
        BlockTaken(player, r.value, rest);
        hide TrackBlocks, StreamOf, AllPlayable;
        Associates(blocks, [Block(frames, over)], if over then [] else TrackBlocks(player.Rest(), whole));
        blocks := blocks + [Block(frames, over)];
      }
    }
  }

  lemma BlockTaken(player: Player, block: DecodeBlock, rest: seq<Stereo>)
    requires player.Valid() && block.frames <= FRAMES_PER_TICK && player.Block(block.frames) + player.Rest() == rest
    ensures block.frames > 0 ==> |player.Rest()| < |rest|
  {
  }

  // ---- Queueing ----

  function Latest(a: nat, b: nat): nat {
    if a < b then b else a
  }

  /** What the sound queue answers when it is given a block. */
  datatype Answer = Queued | Busy | Failed

  datatype Event = Queue(frames: seq<Stereo>) | Advance

  /** What has to happen for the blocks left of this track, and for the tracks after it. */
  function Remaining(blocks: seq<Block>, tracks: seq<seq<Block>>): seq<Event>
    decreases |tracks|, |blocks|
  {
    if blocks == [] then []
    else [Queue(blocks[0].frames)] + if blocks[0].ended then Onward(tracks) else Remaining(blocks[1..], tracks)
  }

  /** The next track begins; when none can be opened, playback ends. */
  function Onward(tracks: seq<seq<Block>>): seq<Event>
    decreases |tracks|, 0
  {
    [Advance] + if tracks == [] then [] else Remaining(tracks[0], tracks[1..])
  }

  /** What was done, and then what is due. */
  function Story(done: seq<Event>, due: seq<Event>): seq<Event> {
    done + due
  }

  lemma DoneNext(log: seq<Event>, e: Event, rest: seq<Event>)
    ensures Story(log, [e] + rest) == Story(log + [e], rest)
  {
  }

  lemma NothingDone(due: seq<Event>)
    ensures Story([], due) == due
  {
  }

  class Session {
    var audible: bool
    var nextBlock: nat
    var pending: Option<seq<Stereo>>
    var pendingEnd: bool
    var paused: bool
    /** The open track, if there is one. */
    var player: Player?
    /** The files the coming advances will open. */
    var files: seq<seq<Packet>>
    ghost var log: seq<Event>

    ghost function Repr(): set<object>
      reads this`player
    {
      {this} + if player == null then {} else {player, player.samples}
    }

    ghost predicate Valid()
      reads this, player
    {
      && (pendingEnd ==> pending.Some?) && (pending.Some? ==> player != null)
      && (player != null ==> player.Valid())
      && forall i :: 0 <= i < |files| ==> Stream(files[i])
    }

    /** The blocks the open track still has. */
    ghost function Playing(): seq<Block>
      reads this`player, player
    {
      if player == null then [] else TrackBlocks(player.Rest(), AllPlayable(player.packets))
    }

    /** What is due when no block waits. */
    ghost function Later(): seq<Event>
      reads this`player, player, this`pendingEnd, this`files
    {
      if pendingEnd then Onward(AllBlocks(files)) else Remaining(Playing(), AllBlocks(files))
    }

    /** What is still due. */
    ghost function Due(): seq<Event>
      reads this, player
    {
      if player == null then []
      else if pending.Some? then [Queue(pending.value)] + Later()
      else Later()
    }

    constructor (first: seq<Packet>, later: seq<seq<Packet>>, now: nat)
      requires Stream(first) && forall i :: 0 <= i < |later| ==> Stream(later[i])
      ensures Valid() && fresh(Repr()) && audible && !paused && log == []
      ensures Due() == Remaining(FileBlocks(first), AllBlocks(later))
    {
      audible, nextBlock, pending, pendingEnd, paused := true, now, None, false, false;
      player := new Player(first);
      files, log := later, [];
    }

    method FailPlayback()
      modifies this`player, this`pending, this`pendingEnd
      ensures player == null && pending == None && !pendingEnd
    {
      player, pending, pendingEnd := null, None, false;
    }

    /** The track is over: the next one opens, or playback fails. */
    method Advance()
      requires pending.None? && !pendingEnd && forall i :: 0 <= i < |files| ==> Stream(files[i])
      modifies this`player, this`files, this`paused, this`pending, this`pendingEnd, this`log
      ensures Valid() && fresh(Repr() - {this}) && pending.None? && !pendingEnd && log == old(log) + [Event.Advance]
      ensures Story(log, Due()) == Story(old(log), Onward(AllBlocks(old(files))))
    {
      ghost var coming := AllBlocks(files);
      DoneNext(log, Event.Advance, if coming == [] then [] else Remaining(coming[0], coming[1..]));
      log := log + [Event.Advance];
      if files == [] {
        FailPlayback();
      } else {
        player := new Player(files[0]);
        assert coming[0] == FileBlocks(files[0]) && coming[1..] == AllBlocks(files[1..]);
        files, paused, pending, pendingEnd := files[1..], false, None, false;
      }
    }

    /** Hands a block to the sound queue; a busy queue leaves it waiting. */
    method Flush(pcm: seq<Stereo>, answer: Answer) returns (done: bool)
      modifies this`pending, this`audible, this`log
      ensures done == !(old(audible) && answer == Busy)
      ensures pending == if done then None else Some(pcm)
      ensures audible == (old(audible) && answer != Failed)
      ensures log == if old(audible) && answer == Queued then old(log) + [Queue(pcm)] else old(log)
    {
      if audible {
        match answer {
          case Queued => log := log + [Queue(pcm)];
          case Busy =>
            pending := Some(pcm);
            return false;
          case Failed => audible := false;
        }
      }
      pending := None;
      return true;
    }

    /** Offers one block to the queue, and goes on to the next track after the last one. */
    method Offer(pcm: seq<Stereo>, answer: Answer) returns (done: bool)
      requires player != null && player.Valid() && pending.None? && forall i :: 0 <= i < |files| ==> Stream(files[i])
      modifies this
      ensures Valid() && fresh(Repr() - old(Repr())) && old(log) <= log && nextBlock == old(nextBlock)
      ensures audible == (old(audible) && answer != Failed)
      ensures audible ==> Story(log, Due()) == Story(old(log), [Queue(pcm)] + old(Later()))
      ensures !audible ==> Story(log, Due()) == Story(old(log), old(Later()))
      ensures old(audible) && answer == Queued ==> |log| > |old(log)|
      ensures done == !(old(audible) && answer == Busy)
    {
      ghost var rest := Later();
      DoneNext(log, Queue(pcm), rest);
      hide Remaining, Onward, Story, AllBlocks, TrackBlocks;
      done := Flush(pcm, answer);
      assert Later() == rest;
      if done && pendingEnd {
        pendingEnd := false;
        Advance();
      }
    }

    /** The block that waits is offered again. */
    method FlushPending(answer: Answer) returns (worked: bool)
      requires Valid() && pending.Some?
      modifies this
      ensures Valid() && fresh(Repr() - old(Repr())) && old(log) <= log && nextBlock == old(nextBlock)
      ensures audible == (old(audible) && answer != Failed) && old(Due()) != []
      ensures Story(log, Due()) == Story(old(log), if audible then old(Due()) else old(Due())[1..])
      ensures old(audible) && answer == Queued ==> |log| > |old(log)|
      ensures worked == !(old(audible) && answer == Busy)
    {
      hide Remaining, Onward, Story, AllBlocks, TrackBlocks;
      var pcm := pending.value;
      assert Due() == [Queue(pcm)] + Later();
      pending := None;
      worked := Offer(pcm, answer);
    }

    /** The next block, or nothing where the track breaks off. */
    method DecodeNext() returns (block: Option<Block>)
      requires Valid() && player != null && pending.None?
      modifies player, player.samples, this`pendingEnd
      ensures player.Valid() && block.Some? == (old(Playing()) != []) && pending.None?
      ensures block.Some? ==> old(Due()) == [Queue(block.value.frames)] + Later()
      ensures block.None? ==> !pendingEnd
    {
      ghost var rest, playable := player.Rest(), AllPlayable(player.packets);
      var r := player.Decode();
      if r.Err? {
        return None;
      }
      var frames := player.Samples();
      pendingEnd := r.value.ended;
      BlockIsFirst(player, r.value, rest, frames);
      return Some(Block(frames, r.value.ended));
    }

    /** The next block is decoded and offered; a track that breaks off ends playback. */
    method PlayNext(answer: Answer) returns (worked: bool)
      requires Valid() && pending.None? && player != null
      modifies Repr()
      ensures Valid() && fresh(Repr() - old(Repr())) && old(log) <= log && nextBlock == old(nextBlock)
      ensures worked == (old(Playing()) != [])
      ensures !worked ==> log == old(log) && Due() == old(Due()) == [] && audible == old(audible)
      ensures worked ==> audible == (old(audible) && answer != Failed) && old(Due()) != []
      ensures worked ==> Story(log, Due()) == Story(old(log), if audible then old(Due()) else old(Due())[1..])
      ensures worked && old(audible) && answer == Queued ==> |log| > |old(log)|
    {
      var block := DecodeNext();
      if block.None? {
        assert Remaining([], AllBlocks(files)) == [];
        FailPlayback();
        return false;
      }
      hide Remaining, Onward, Story, AllBlocks, TrackBlocks;
      var done := Offer(block.value.frames, answer);
      return true;
    }

    /** Whether a turn has a block to offer: one that waits, or the next one when the device or the clock asks for it. */
    ghost predicate Ready(now: nat)
      reads this, player
    {
      player != null && !paused && (pending.Some? || (Playing() != [] && (audible || nextBlock <= now)))
    }

    /**
     One turn of the player. While the sound device works, what was done and what is still due together never change: no
     block is lost, repeated or overtaken, and the next track begins only after the last block is queued. Without a device
     exactly the offered block is dropped.
     */
    method Generate(now: nat, answer: Answer) returns (worked: bool)
      requires Valid()
      modifies Repr()
      ensures Valid() && fresh(Repr() - old(Repr())) && old(log) <= log
      ensures old(audible) && answer != Failed ==> Story(log, Due()) == Story(old(log), old(Due())) && audible
      ensures old(audible) && answer == Queued && !old(paused) && old(Due()) != [] ==> |log| > |old(log)|
      ensures !old(Ready(now)) ==> !worked && log == old(log) && Due() == old(Due()) && audible == old(audible)
      ensures old(Ready(now)) ==> audible == (old(audible) && answer != Failed) && old(Due()) != []
      ensures old(Ready(now)) && !audible ==> Story(log, Due()) == Story(old(log), old(Due())[1..])
      ensures old(Ready(now)) && old(pending).Some? ==> worked == !(old(audible) && answer == Busy)
      ensures old(Ready(now)) && old(pending).None? ==> worked
      ensures nextBlock == if old(Ready(now)) && old(pending).None? then Latest(old(nextBlock) + BLOCK_NS, now) else old(nextBlock)
    {
      hide Story, TrackBlocks, AllBlocks, Onward;
      if player == null || paused {
        return false;
      }
      if pending.Some? {
        worked := FlushPending(answer);
        return;
      }
      if !audible && now < nextBlock {
        return false;
      }
      worked := PlayNext(answer);
      if worked {
        nextBlock := Latest(nextBlock + BLOCK_NS, now);
      }
    }

    method TogglePause()
      requires Valid()
      modifies this`paused
      ensures Valid() && paused == !old(paused) && Due() == old(Due())
    {
      paused := !paused;
    }

    /** A press of the pause key, perhaps, and a turn in which the device works. */
    method TakeTurn(turn: Turn)
      requires Valid() && audible && turn.answer != Failed
      modifies Repr()
      ensures Valid() && fresh(Repr() - old(Repr())) && audible
      ensures Story(log, Due()) == Story(old(log), old(Due()))
    {
      hide Story, Remaining, Onward, AllBlocks, TrackBlocks;
      if turn.pause {
        TogglePause();
      }
      var worked := Generate(turn.now, turn.answer);
    }
  }

  // ---- Whole runs ----

  datatype Turn = Turn(now: nat, answer: Answer, pause: bool)

  /**
   However often the queue was busy and playback was paused, and whatever pieces the library handed out, what has been done
   is a beginning of what the decoded files ask for, and the rest is still due.
   */
  method Play(first: seq<Packet>, later: seq<seq<Packet>>, turns: seq<Turn>) returns (session: Session)
    requires forall i :: 0 <= i < |turns| ==> turns[i].answer != Failed
    requires Stream(first) && forall i :: 0 <= i < |later| ==> Stream(later[i])
    ensures session.Valid() && Story(session.log, session.Due()) == Remaining(FileBlocks(first), AllBlocks(later))
  {
    session := new Session(first, later, 0);
    NothingDone(session.Due());
    ghost var asked := Remaining(FileBlocks(first), AllBlocks(later));
    hide Remaining, Onward, Story, FileBlocks, AllBlocks, TrackBlocks;
    var n := 0;
    while n < |turns|
      invariant n <= |turns| && fresh(session.Repr()) && session.Valid() && session.audible
      invariant Story(session.log, session.Due()) == asked
    {
      session.TakeTurn(turns[n]);
      n := n + 1;
    }
  }

  /** Every advance comes after all the blocks of the track before it. */
  lemma {:induction false} TrackThenAdvance(blocks: seq<Block>, tracks: seq<seq<Block>>)
    requires Track(blocks)
    ensures Remaining(blocks, tracks) == Queues(blocks) + Onward(tracks)
    decreases |blocks|
  {
    if |blocks| == 1 {
      assert blocks[0].ended && blocks[1..] == [];
      assert Queues([]) == [];
      assert Queues(blocks) == [Queue(blocks[0].frames)];
    } else {
      var rest := blocks[1..];
      assert !blocks[0].ended;
      forall i | 0 <= i < |rest|
        ensures rest[i].ended <==> i == |rest| - 1
      {
        assert rest[i] == blocks[i + 1];
      }
      TrackThenAdvance(rest, tracks);
    }
  }

  /** A playable file is heard whole and in order, with less than one block of silence behind it, before the next one. */
  lemma FileIsHeard(packets: seq<Packet>, later: seq<seq<Packet>>)
    requires AllPlayable(packets)
    ensures var blocks := FileBlocks(packets);
      && Remaining(blocks, AllBlocks(later)) == Queues(blocks) + Onward(AllBlocks(later))
      && StreamOf(packets) <= Sound(blocks) && |Sound(blocks)| <= |StreamOf(packets)| + FRAMES_PER_TICK
  {
    BlocksAreTheStream(StreamOf(packets));
    TrackThenAdvance(FileBlocks(packets), AllBlocks(later));
  }

  function Queues(blocks: seq<Block>): seq<Event> {
    if blocks == [] then [] else [Queue(blocks[0].frames)] + Queues(blocks[1..])
  }
}
