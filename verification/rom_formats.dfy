/** Which uploaded files count as a ROM of a system (`native/src/uploader/mod.rs`). */
module RomFormats {
  import opened Wrappers

  type Byte = n: nat | n < 256
  type Bytes = seq<Byte>

  datatype Format = Format(extension: string, color: string, maximum: nat)

  datatype RomError = UnknownSystem | WrongSize | NoHeader | HeaderChecksum | NoColorSupport | TooShort
                    | CutHeader | BlockLength | BlockChecksum

  function FormatOf(name: string): Option<Format> {
    if name == "nes" then Some(Format("nes", "#FF5F00", 8_388_608))
    else if name == "gb" then Some(Format("gb", "#87AF87", 8_388_608))
    else if name == "gbc" then Some(Format("gbc", "#5F87D7", 8_388_608))
    else if name == "zx" then Some(Format("tap", "#AF87D7", 8_388_608))
    else if name == "gba" then Some(Format("gba", "#875FD7", 33_554_432))
    else None
  }

  const LOGO: Bytes :=
    [206, 237, 102, 102, 204, 13, 0, 11, 3, 115, 0, 131, 0, 12, 0, 13, 0, 8, 17, 31, 136, 137, 0,
     14, 220, 204, 110, 230, 221, 221, 217, 153, 187, 187, 103, 99, 110, 14, 236, 204, 221, 220,
     153, 159, 187, 185, 51, 62]

  // ---- Tapes ----

  function Flip(a: Byte, b: Byte): Byte {
    ((a as bv8) ^ (b as bv8)) as int
  }

  function Xor(bytes: Bytes): Byte {
    if bytes == [] then 0 else Flip(Xor(bytes[..|bytes| - 1]), bytes[|bytes| - 1])
  }

  /** A 16-bit length, low byte first. */
  function Length(low: Byte, high: Byte): (n: nat)
    ensures n < 0x1_0000
  {
    low as int + 256 * (high as int)
  }

  /** A block with its length before it. */
  function Framed(block: Bytes): Bytes
    requires |block| < 0x1_0000
  {
    [|block| % 256, |block| / 256] + block
  }

  predicate Block(block: Bytes) {
    2 <= |block| < 0x1_0000 && Xor(block) == 0
  }

  predicate Blocks(blocks: seq<Bytes>) {
    forall i :: 0 <= i < |blocks| ==> Block(blocks[i])
  }

  /** A tape: its blocks one after the other. */
  function Tape(blocks: seq<Bytes>): Bytes
    requires Blocks(blocks)
  {
    if blocks == [] then [] else Framed(blocks[0]) + Tape(blocks[1..])
  }

  /** The blocks of a tape, or why it is none. */
  function BlocksOf(bytes: Bytes): Result<seq<Bytes>, RomError>
    decreases |bytes|
  {
    if bytes == [] then Ok([])
    else if |bytes| < 2 then Err(CutHeader)
    else
      var n := Length(bytes[0], bytes[1]);
      if n < 2 || n > |bytes| - 2 then Err(BlockLength)
      else if Xor(bytes[2..n + 2]) != 0 then Err(BlockChecksum)
      else
        match BlocksOf(bytes[n + 2..])
        case Err(e) => Err(e)
        case Ok(rest) => Ok([bytes[2..n + 2]] + rest)
  }

  lemma LengthOfFramed(n: nat)
    requires n < 0x1_0000
    ensures Length(n % 256, n / 256) == n
  {
  }

  lemma FramedOfLength(low: Byte, high: Byte)
    ensures Length(low, high) % 256 == low && Length(low, high) / 256 == high
  {
  }

  lemma FramedParts(block: Bytes, rest: Bytes)
    requires |block| < 0x1_0000
    ensures var tape := Framed(block) + rest;
      && |tape| == |block| + 2 + |rest| && Length(tape[0], tape[1]) == |block|
      && tape[2..|block| + 2] == block && tape[|block| + 2..] == rest
  {
    LengthOfFramed(|block|);
    hide Length;
  }

  /** Reading a tape begins with its first block. */
  lemma ReadsFirstBlock(block: Bytes, rest: Bytes)
    requires Block(block)
    ensures BlocksOf(Framed(block) + rest)
         == match BlocksOf(rest) case Err(e) => Err(e) case Ok(blocks) => Ok([block] + blocks)
  {
    FramedParts(block, rest);
    hide Length, Framed, Xor;
  }

  /** Reading blocks undoes writing a tape. */
  lemma {:induction false} TapeIsRead(blocks: seq<Bytes>)
    requires Blocks(blocks)
    ensures BlocksOf(Tape(blocks)) == Ok(blocks)
    decreases |blocks|
  {
    if blocks != [] {
      TapeIsRead(blocks[1..]);
      assert Block(blocks[0]);
      ReadsFirstBlock(blocks[0], Tape(blocks[1..]));
      hide BlocksOf, Framed, Block;
      assert blocks == [blocks[0]] + blocks[1..];
    }
  }

  lemma Reframed(low: Byte, high: Byte, block: Bytes)
    requires |block| == Length(low, high)
    ensures Framed(block) == [low, high] + block
  {
    FramedOfLength(low, high);
    hide Length;
  }

  lemma CutApart(bytes: Bytes, n: nat)
    requires n + 2 <= |bytes|
    ensures bytes == [bytes[0], bytes[1]] + bytes[2..n + 2] + bytes[n + 2..]
  {
  }

  lemma FirstBlockWasFramed(bytes: Bytes)
    requires BlocksOf(bytes).Ok? && bytes != []
    ensures var n := Length(bytes[0], bytes[1]);
      && n + 2 <= |bytes| && Block(bytes[2..n + 2]) && bytes == Framed(bytes[2..n + 2]) + bytes[n + 2..]
  {
    hide Length, Xor, Framed;
    var n := Length(bytes[0], bytes[1]);
    Reframed(bytes[0], bytes[1], bytes[2..n + 2]);
    CutApart(bytes, n);
  }

  lemma {:induction false} ReadTapeWasWritten(bytes: Bytes)
    requires BlocksOf(bytes).Ok?
    ensures Blocks(BlocksOf(bytes).value) && Tape(BlocksOf(bytes).value) == bytes
    decreases |bytes|
  {
    if bytes != [] {
      FirstBlockWasFramed(bytes);
      var n := Length(bytes[0], bytes[1]);
      hide Length, Xor, Framed, Block;
      ReadTapeWasWritten(bytes[n + 2..]);
      var rest := BlocksOf(bytes[n + 2..]).value;
      assert BlocksOf(bytes).value == [bytes[2..n + 2]] + rest;
      PrependBlock(bytes[2..n + 2], rest);
    }
  }

  lemma PrependBlock(block: Bytes, rest: seq<Bytes>)
    requires Block(block) && Blocks(rest)
    ensures Blocks([block] + rest) && Tape([block] + rest) == Framed(block) + Tape(rest)
  {
    assert ([block] + rest)[1..] == rest;
    hide Block, Framed;
    forall i | 0 <= i < |[block] + rest|
      ensures Block(([block] + rest)[i])
    {
      if i > 0 {
        assert ([block] + rest)[i] == rest[i - 1];
      }
    }
  }

  ghost predicate IsTape(bytes: Bytes, blocks: seq<Bytes>) {
    Blocks(blocks) && Tape(blocks) == bytes
  }

  /** The bytes of a tape have one reading only. */
  lemma TapeIsUnique(bytes: Bytes, a: seq<Bytes>, b: seq<Bytes>)
    requires IsTape(bytes, a) && IsTape(bytes, b)
    ensures a == b
  {
    TapeIsRead(a);
    TapeIsRead(b);
  }

  function Verdict(bytes: Bytes): Result<(), RomError> {
    match BlocksOf(bytes)
    case Err(e) => Err(e)
    case Ok(_) => Ok(())
  }

  function TapCheck(bytes: Bytes): Result<(), RomError> {
    if |bytes| < 4 then Err(TooShort) else Verdict(bytes)
  }

  lemma VerdictOfFirst(bytes: Bytes)
    requires bytes != []
    ensures Verdict(bytes) ==
      if |bytes| < 2 then Err(CutHeader)
      else
        var n := Length(bytes[0], bytes[1]);
        if n < 2 || n > |bytes| - 2 then Err(BlockLength)
        else if Xor(bytes[2..n + 2]) != 0 then Err(BlockChecksum)
        else Verdict(bytes[n + 2..])
  {
  }

  /** A tape is accepted exactly when it is one or more blocks of at least two bytes whose bytes cancel out. */
  lemma TapAcceptsExactlyTapes(bytes: Bytes)
    ensures TapCheck(bytes).Ok? <==> bytes != [] && exists blocks :: IsTape(bytes, blocks)
  {
    if TapCheck(bytes).Ok? {
      ReadTapeWasWritten(bytes);
      assert IsTape(bytes, BlocksOf(bytes).value);
    }
    if bytes != [] && exists blocks :: IsTape(bytes, blocks) {
      var blocks :| IsTape(bytes, blocks);
      TapeIsRead(blocks);
      assert Block(blocks[0]) && bytes == Framed(blocks[0]) + Tape(blocks[1..]);
    }
  }

  lemma SliceOfRest(bytes: Bytes, at: nat, n: nat)
    requires at + 2 + n <= |bytes|
    ensures bytes[at..][2..n + 2] == bytes[at + 2..at + 2 + n] && bytes[at..][n + 2..] == bytes[at + 2 + n..]
  {
  }

  method CheckTap(bytes: Bytes) returns (r: Result<(), RomError>)
    ensures r == TapCheck(bytes)
  {
    if |bytes| < 4 {
      return Err(TooShort);
    }
    var offset := 0;
    while offset < |bytes|
      invariant offset <= |bytes|
      invariant Verdict(bytes) == Verdict(bytes[offset..])
      decreases |bytes| - offset
    {
      VerdictOfFirst(bytes[offset..]);
      hide Length, Xor, Verdict;
      if |bytes| - offset < 2 {
        return Err(CutHeader);
      }
      var n := Length(bytes[offset], bytes[offset + 1]);
      offset := offset + 2;
      if n < 2 || n > |bytes| - offset {
        return Err(BlockLength);
      }
      SliceOfRest(bytes, offset - 2, n);
      var sum := Folded(bytes[offset..offset + n]);
      if sum != 0 {
        return Err(BlockChecksum);
      }
      offset := offset + n;
    }
    assert Verdict([]) == Ok(());
    return Ok(());
  }

  method Folded(bytes: Bytes) returns (sum: Byte)
    ensures sum == Xor(bytes)
  {
    sum := 0;
    var n := 0;
    while n < |bytes|
      invariant n <= |bytes| && sum == Xor(bytes[..n])
    {
      assert bytes[..n + 1][..n] == bytes[..n];
      sum := Flip(sum, bytes[n]);
      n := n + 1;
    }
    assert bytes[..n] == bytes;
  }

  // ---- All systems ----

  /** The header checksum, on bytes that wrap around. */
  function HeaderSum(bytes: Bytes): Byte {
    if bytes == [] then 0 else (HeaderSum(bytes[..|bytes| - 1]) as int - bytes[|bytes| - 1] as int - 1) % 256
  }

  /** What `validate_rom` answers. */
  function RomCheck(name: string, bytes: Bytes): Result<(), RomError> {
    match FormatOf(name)
    case None => Err(UnknownSystem)
    case Some(format) =>
      if bytes == [] || |bytes| > format.maximum then Err(WrongSize)
      else if name == "nes" then
        if |bytes| < 16 || bytes[..4] != [0x4e, 0x45, 0x53, 0x1a] then Err(NoHeader) else Ok(())
      else if name == "gb" || name == "gbc" then
        if |bytes| < 336 || bytes[260..308] != LOGO then Err(NoHeader)
        else if HeaderSum(bytes[308..333]) != bytes[333] then Err(HeaderChecksum)
        else if name == "gbc" && bytes[323] != 128 && bytes[323] != 192 then Err(NoColorSupport)
        else Ok(())
      else if name == "zx" then TapCheck(bytes)
      else Ok(())
  }

  predicate IsRom(name: string, bytes: Bytes) {
    RomCheck(name, bytes).Ok?
  }
}
