/**
 The Ogg block assembler (`native/src/chiptune.rs`): whatever pieces the decoder library hands out, and however its
 links change between mono and stereo, the blocks are the stereo stream.
 */
module OggPlayer {
  import opened Wrappers

  const FRAMES_PER_TICK: nat := 735

  type Stereo = (int, int)

  /** What the library has decoded and not yet handed out: interleaved samples of one link, or damage. */
  datatype Packet = Pcm(rate: nat, channels: nat, samples: seq<int>) | Damaged

  datatype DecodeError = StreamDamaged | WrongFormat | PartialFrame

  /** How far one read gets. */
  datatype Progress = More(frames: nat) | Over | Broken(error: DecodeError)

  datatype DecodeBlock = DecodeBlock(ended: bool, frames: nat)

  /** A packet the player takes: 44.1 kHz, mono or stereo. */
  predicate Accepted(p: Packet) {
    p.Pcm? && p.rate == 44100 && (p.channels == 1 || p.channels == 2)
  }

  predicate WholeFrames(p: Packet)
    requires Accepted(p)
  {
    |p.samples| % p.channels == 0
  }

  /** The library never hands out an empty piece except at the end of the stream. */
  predicate Stream(packets: seq<Packet>) {
    forall i :: 0 <= i < |packets| ==> packets[i].Pcm? ==> packets[i].samples != []
  }

  /** The stereo frames of interleaved samples; a mono sample sounds on both sides. */
  function FramesOf(samples: seq<int>, channels: nat): (r: seq<Stereo>)
    requires channels == 1 || channels == 2
    ensures |r| == |samples| / channels
  {
    seq(|samples| / channels, k requires 0 <= k < |samples| / channels =>
      (samples[k * channels], samples[k * channels + channels - 1]))
  }

  /** The stream up to its end or to the first place where it cannot be played. */
  function StreamOf(packets: seq<Packet>): seq<Stereo> {
    if packets == [] || !Accepted(packets[0]) then []
    else
      FramesOf(packets[0].samples, packets[0].channels)
      + if WholeFrames(packets[0]) then StreamOf(packets[1..]) else []
  }

  predicate AllPlayable(packets: seq<Packet>) {
    packets == [] || (Accepted(packets[0]) && WholeFrames(packets[0]) && AllPlayable(packets[1..]))
  }

  function Carried(pending: Option<int>): seq<Stereo> {
    if pending.Some? then [(pending.value, pending.value)] else []
  }

  lemma FramesSplit(samples: seq<int>, channels: nat, n: nat)
    requires channels == 1 || channels == 2
    requires n <= |samples| && n % channels == 0
    ensures FramesOf(samples, channels) == FramesOf(samples[..n], channels) + FramesOf(samples[n..], channels)
    ensures |samples| % channels == |samples[n..]| % channels
  {
    if channels == 1 {
    } else {
    }
  }

  function Min(a: nat, b: nat): nat { if a < b then a else b }

  // ---- The library ----

  /** `ov_read`: at most `limit` samples from the front of what is left, whole frames while there are any. */
  function Piece(p: Packet, limit: nat): nat
    requires p.Pcm?
  {
    var n := Min(|p.samples|, limit);
    if p.channels == 2 && n >= 2 then n - n % 2 else n
  }

  function AfterPiece(packets: seq<Packet>, limit: nat): seq<Packet>
    requires packets != [] && packets[0].Pcm?
  {
    var n := Piece(packets[0], limit);
    if n == |packets[0].samples| then packets[1..]
    else [packets[0].(samples := packets[0].samples[n..])] + packets[1..]
  }

  lemma PieceStays(packets: seq<Packet>, limit: nat)
    requires packets != [] && packets[0].Pcm? && Stream(packets) && limit >= 2
    ensures Stream(AfterPiece(packets, limit)) && 0 < Piece(packets[0], limit) <= Min(|packets[0].samples|, limit)
  {
    assert packets[0].samples != [];
    var rest := AfterPiece(packets, limit);
    forall i | 0 <= i < |rest| && rest[i].Pcm?
      ensures rest[i].samples != []
    {
      if rest == packets[1..] {
        assert rest[i] == packets[i + 1];
      } else if i > 0 {
        assert rest[i] == packets[i];
      }
    }
  }

  lemma Associates<T>(a: seq<T>, b: seq<T>, c: seq<T>)
    ensures a + b + c == a + (b + c)
    ensures a + [] == a
  {
  }

  /** A piece of whole frames is the next part of the stream. */
  lemma PieceOfStream(packets: seq<Packet>, limit: nat)
    requires packets != [] && Accepted(packets[0]) && Stream(packets) && limit >= 2
    requires Piece(packets[0], limit) % packets[0].channels == 0
    ensures var p := packets[0];
      var n := Piece(p, limit);
      && n <= |p.samples|
      && StreamOf(packets) == FramesOf(p.samples[..n], p.channels) + StreamOf(AfterPiece(packets, limit))
      && (AllPlayable(packets) <==> AllPlayable(AfterPiece(packets, limit)))
  {
    var p, rest := packets[0], AfterPiece(packets, limit);
    var n := Piece(p, limit);
    FramesSplit(p.samples, p.channels, n);
    hide FramesOf, Piece;
    if n == |p.samples| {
      assert p.samples[..n] == p.samples;
    } else {
      var q := p.(samples := p.samples[n..]);
      assert rest[0] == q && rest[1..] == packets[1..];
      assert WholeFrames(p) == WholeFrames(q);
      Associates(FramesOf(p.samples[..n], p.channels), FramesOf(q.samples, p.channels),
        if WholeFrames(p) then StreamOf(packets[1..]) else []);
    }
  }

  /** A piece that is not whole frames is the end of what can be played. */
  lemma PieceOfHalfFrame(packets: seq<Packet>, limit: nat)
    requires packets != [] && Accepted(packets[0]) && limit >= 2
    requires Piece(packets[0], limit) % packets[0].channels != 0
    ensures StreamOf(packets) == [] && !AllPlayable(packets)
  {
    var p := packets[0];
    if p.channels == 2 {
      assert |p.samples| <= 1;
      assert FramesOf(p.samples, 2) == [];
    }
    hide FramesOf;
  }

  /** Decoded frames fit the block, or are two mono frames for its last place. */
  lemma CountFits(decoded: seq<int>, channels: nat, remaining: nat)
    requires (channels == 1 || channels == 2) && |decoded| % channels == 0 && remaining >= 1
    requires 0 < |decoded| <= if remaining < 2 then 2 else remaining
    ensures var count := |decoded| / channels;
      && 0 < count && Min(count, remaining) * channels <= |decoded|
      && (count <= remaining ==> decoded[..count * channels] == decoded)
      && (count > remaining ==>
            remaining == 1 && channels == 1
            && FramesOf(decoded, channels) == FramesOf(decoded[..channels], channels) + [(decoded[1], decoded[1])])
  {
    if channels == 1 {
    } else {
    }
  }

  lemma NothingCarried(stream: seq<Stereo>)
    ensures Carried(None) + stream == stream
  {
  }

  lemma NothingLeft(packets: seq<Packet>)
    requires packets == [] || !Accepted(packets[0])
    ensures StreamOf(packets) == [] && (AllPlayable(packets) <==> packets == [])
  {
  }

  // ---- The player ----

  class Player {
    const whole: seq<Packet>
    var packets: seq<Packet>
    var pendingMono: Option<int>
    const samples: array<int>

    ghost predicate Valid()
      reads this
    {
      samples.Length == FRAMES_PER_TICK * 2 && Stream(packets) && Stream(whole)
    }

    /** What is still to be heard. */
    ghost function Rest(): seq<Stereo>
      reads this
    {
      Carried(pendingMono) + StreamOf(packets)
    }

    constructor (stream: seq<Packet>)
      requires Stream(stream)
      ensures Valid() && whole == packets == stream && pendingMono == None && Rest() == StreamOf(stream) && fresh(samples)
    {
      whole, packets, pendingMono := stream, stream, None;
      samples := new int[FRAMES_PER_TICK * 2](_ => 0);
    }

    /** The first `n` stereo frames of the block. */
    ghost function Block(n: nat): (r: seq<Stereo>)
      requires samples.Length == FRAMES_PER_TICK * 2 && n <= FRAMES_PER_TICK
      reads samples
      ensures |r| == n
    {
      seq(n, k requires 0 <= k < n reads samples => (samples[k * 2], samples[k * 2 + 1]))
    }

    ghost predicate SilentFrom(n: nat)
      requires samples.Length == FRAMES_PER_TICK * 2 && n <= FRAMES_PER_TICK
      reads samples
    {
      forall k :: n * 2 <= k < samples.Length ==> samples[k] == 0
    }

    /** Spreads decoded samples over both sides of the block from frame `at` on. */
    method Spread(piece: seq<int>, channels: nat, at: nat, count: nat)
      requires samples.Length == FRAMES_PER_TICK * 2 && (channels == 1 || channels == 2)
      requires at + count <= FRAMES_PER_TICK && count * channels <= |piece|
      requires SilentFrom(at)
      modifies samples
      ensures Block(at + count) == old(Block(at)) + FramesOf(piece[..count * channels], channels)
      ensures SilentFrom(at + count)
    {
      var frames := FramesOf(piece[..count * channels], channels);
      var index := 0;
      while index < count
        invariant index <= count && |frames| == count
        invariant Block(at + index) == old(Block(at)) + frames[..index]
        invariant SilentFrom(at + index)
      {
        ghost var before := Block(at + index);
        samples[(at + index) * 2] := piece[index * channels];
        samples[(at + index) * 2 + 1] := piece[index * channels + channels - 1];
        assert frames[index] == (piece[index * channels], piece[index * channels + channels - 1]);
        assert Block(at + index) == before;
        assert Block(at + index + 1) == before + [frames[index]];
        index := index + 1;
      }
      assert frames[..count] == frames;
    }

    method Clear()
      requires samples.Length == FRAMES_PER_TICK * 2
      modifies samples
      ensures SilentFrom(0)
    {
      forall k | 0 <= k < samples.Length {
        samples[k] := 0;
      }
    }

    /**
     One block: the next frames of the stream, a full tick of them unless the stream ends, followed by silence. It fails
     exactly when the stream cannot be played that far.
     */
    method Decode() returns (r: Result<DecodeBlock, DecodeError>)
      requires Valid()
      modifies this, samples
      ensures Valid()
      ensures r.Ok? ==> r.value.frames <= FRAMES_PER_TICK && SilentFrom(r.value.frames)
      ensures r.Ok? ==> Block(r.value.frames) + Rest() == old(Rest())
      ensures r.Ok? && r.value.ended ==> r.value.frames < FRAMES_PER_TICK && Rest() == [] && AllPlayable(old(packets))
      ensures r.Ok? && !r.value.ended ==> r.value.frames == FRAMES_PER_TICK
      ensures r.Ok? ==> (AllPlayable(packets) <==> AllPlayable(old(packets)))
      ensures r.Err? <==> !AllPlayable(old(packets)) && |old(Rest())| < FRAMES_PER_TICK
    {
      Clear();
      var frames := 0;
      if pendingMono.Some? {
        samples[0], samples[1] := pendingMono.value, pendingMono.value;
        pendingMono := None;
        frames := 1;
      }
      assert Block(frames) + Rest() == old(Rest());
      hide FramesOf, Block, SilentFrom, StreamOf, AllPlayable;
      while frames < FRAMES_PER_TICK
        invariant Valid() && frames <= FRAMES_PER_TICK && SilentFrom(frames)
        invariant Block(frames) + Rest() == old(Rest())
        invariant frames < FRAMES_PER_TICK ==> pendingMono == None
        invariant AllPlayable(packets) <==> AllPlayable(old(packets))
        decreases FRAMES_PER_TICK - frames
      {
        var step := ReadMore(frames);
        match step {
          case More(n) => frames := n;
          case Over => return Ok(DecodeBlock(true, frames));
          case Broken(error) => return Err(error);
        }
      }
      return Ok(DecodeBlock(false, frames));
    }

    /** One call of the library, and what is done with the piece it hands out. */
    method ReadMore(frames: nat) returns (step: Progress)
      requires Valid() && frames < FRAMES_PER_TICK && SilentFrom(frames) && pendingMono == None
      modifies this`packets, this`pendingMono, samples
      ensures Valid()
      ensures step.More? ==>
        && frames < step.frames <= FRAMES_PER_TICK && SilentFrom(step.frames)
        && Block(step.frames) + Rest() == old(Block(frames)) + old(Rest())
        && (step.frames < FRAMES_PER_TICK ==> pendingMono == None)
        && (AllPlayable(packets) <==> AllPlayable(old(packets)))
      ensures !step.More? ==> Block(frames) == old(Block(frames)) && SilentFrom(frames) && old(Rest()) == []
      ensures step.Over? ==> Rest() == [] && packets == [] && AllPlayable(old(packets)) && AllPlayable(packets)
      ensures step.Broken? ==> !AllPlayable(old(packets))
    {
      hide FramesOf, Block, SilentFrom, StreamOf, AllPlayable, Piece, AfterPiece;
      NothingCarried(StreamOf(packets));
      var remaining := FRAMES_PER_TICK - frames;
      var limit := if remaining < 2 then 2 else remaining;
      if packets == [] {
        NothingLeft(packets);
        return Over;
      }
      var packet := packets[0];
      if !Accepted(packet) {
        NothingLeft(packets);
        if packet.Damaged? {
          return Broken(StreamDamaged);
        }
        PieceStays(packets, limit);
        packets := AfterPiece(packets, limit);
        return Broken(WrongFormat);
      }
      PieceStays(packets, limit);
      var amount := Piece(packet, limit);
      if amount % packet.channels != 0 {
        PieceOfHalfFrame(packets, limit);
        packets := AfterPiece(packets, limit);
        return Broken(PartialFrame);
      }
      PieceOfStream(packets, limit);
      packets := AfterPiece(packets, limit);
      ghost var sofar, rest := Block(frames), StreamOf(packets);
      var n := Place(packet.samples[..amount], packet.channels, frames);
      Associates(sofar, FramesOf(packet.samples[..amount], packet.channels), rest);
      Associates(Block(n), Carried(pendingMono), rest);
      return More(n);
    }

    /** Adds decoded frames to the block; one that does not fit is carried to the next. */
    method Place(decoded: seq<int>, channels: nat, at: nat) returns (frames: nat)
      requires samples.Length == FRAMES_PER_TICK * 2 && (channels == 1 || channels == 2)
      requires at < FRAMES_PER_TICK && SilentFrom(at) && pendingMono == None
      requires |decoded| % channels == 0 && 0 < |decoded| && |decoded| <= (if FRAMES_PER_TICK - at < 2 then 2 else FRAMES_PER_TICK - at)
      modifies this`pendingMono, samples
      ensures at < frames <= FRAMES_PER_TICK && SilentFrom(frames)
      ensures frames < FRAMES_PER_TICK ==> pendingMono == None
      ensures Block(frames) + Carried(pendingMono) == old(Block(at)) + FramesOf(decoded, channels)
    {
      var remaining := FRAMES_PER_TICK - at;
      var count := |decoded| / channels;
      CountFits(decoded, channels, remaining);
      Spread(decoded, channels, at, Min(count, remaining));
      if count > remaining {
        pendingMono := Some(decoded[remaining]);
      }
      hide SilentFrom;
      frames := at + Min(count, remaining);
    }

    method Samples() returns (r: seq<Stereo>)
      requires Valid()
      ensures r == Block(FRAMES_PER_TICK)
    {
      r := [];
      while |r| < FRAMES_PER_TICK
        invariant |r| <= FRAMES_PER_TICK && r == Block(|r|)
      {
        r := r + [(samples[|r| * 2], samples[|r| * 2 + 1])];
      }
    }

    method Rewind(possible: bool) returns (ok: bool)
      requires Valid()
      modifies this
      ensures Valid() && ok == possible
      ensures ok ==> packets == whole && Rest() == StreamOf(whole)
      ensures !ok ==> packets == old(packets) && pendingMono == old(pendingMono)
    {
      if possible {
        packets, pendingMono := whole, None;
      }
      return possible;
    }
  }
}
