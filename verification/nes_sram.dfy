/** The legacy save decoder (`native/src/nes_sram.rs`): run lengths escaped by a tag byte. */
module NesSram {
  import opened Wrappers

  type Byte = n: nat | n < 256

  /** What an encoded byte or escape stands for: one byte, or `more + 1` copies of one. */
  datatype Token = Literal(value: Byte) | Run(value: Byte, more: Byte)

  /** The bytes a run stands for. */
  function RunBytes(more: Byte): (n: nat)
    ensures 1 <= n <= 256
  {
    more as int + 1
  }

  function Copies(value: Byte, n: nat): (r: seq<Byte>)
    ensures |r| == n
  {
    seq(n, _ => value)
  }

  function Meaning(t: Token): seq<Byte> {
    match t
    case Literal(value) => [value]
    case Run(value, more) => Copies(value, RunBytes(more))
  }

  function Expand(tokens: seq<Token>): seq<Byte> {
    if tokens == [] then [] else Meaning(tokens[0]) + Expand(tokens[1..])
  }

  function Written(t: Token, tag: Byte): seq<Byte> {
    match t
    case Literal(value) => [value]
    case Run(value, more) => [tag, value, more]
  }

  function Write(tokens: seq<Token>, tag: Byte): seq<Byte> {
    if tokens == [] then [] else Written(tokens[0], tag) + Write(tokens[1..], tag)
  }

  /** A literal is never the tag. */
  predicate Writable(tokens: seq<Token>, tag: Byte) {
    forall i :: 0 <= i < |tokens| ==> tokens[i].Literal? ==> tokens[i].value != tag
  }

  /** The tokens that fill exactly `n` bytes, read from the front of the input. */
  function Tokens(input: seq<Byte>, tag: Byte, n: nat): Option<seq<Token>>
    decreases n
  {
    if n == 0 then Some([])
    else if input == [] then None
    else if input[0] != tag then
      match Tokens(input[1..], tag, n - 1)
      case None => None
      case Some(rest) => Some([Literal(input[0])] + rest)
    else if |input| < 3 || n < RunBytes(input[2]) then None
    else
      match Tokens(input[3..], tag, n - RunBytes(input[2]))
      case None => None
      case Some(rest) => Some([Run(input[1], input[2])] + rest)
  }

  function Decoded(input: seq<Byte>, n: nat): Option<seq<Byte>> {
    if input == [] || n == 0 then None
    else
      match Tokens(input[1..], input[0], n)
      case None => None
      case Some(tokens) => Some(Expand(tokens))
  }

  method Decode(input: seq<Byte>, output: array<Byte>) returns (ok: bool)
    modifies output
    ensures ok == Decoded(input, output.Length).Some?
    ensures output[..] == if ok then Decoded(input, output.Length).value else old(output[..])
  {
    if input == [] || output.Length == 0 {
      return false;
    }
    var decoded := new Byte[output.Length](_ => 0);
    var tag := input[0];
    var inputIndex, outputIndex := 1, 0;
    ContinuesAtStart(input, output.Length);
    hide Continues, Decoded, Copies;
    assert decoded[..0] == [];
    while outputIndex < output.Length
      invariant 1 <= inputIndex <= |input| && outputIndex <= output.Length
      invariant output[..] == old(output[..])
      invariant Continues(input, output.Length, inputIndex, decoded[..outputIndex])
      decreases output.Length - outputIndex
    {
      if inputIndex >= |input| {
        EndsTooSoon(input, output.Length, inputIndex, decoded[..outputIndex]);
        return false;
      }
      var value := input[inputIndex];
      ghost var was := decoded[..outputIndex];
      inputIndex := inputIndex + 1;
      if value != tag {
        ContinuesLiteral(input, output.Length, inputIndex - 1, was);
        decoded[outputIndex] := value;
        outputIndex := outputIndex + 1;
        assert decoded[..outputIndex] == was + [value];
        continue;
      }
      if |input| - inputIndex < 2 {
        EndsTooSoon(input, output.Length, inputIndex - 1, was);
        return false;
      }
      var repeated := input[inputIndex];
      var runLength := RunBytes(input[inputIndex + 1]);
      inputIndex := inputIndex + 2;
      if output.Length - outputIndex < runLength {
        EndsTooSoon(input, output.Length, inputIndex - 3, was);
        return false;
      }
      ContinuesRun(input, output.Length, inputIndex - 3, was);
      Fill(decoded, outputIndex, runLength, repeated);
      outputIndex := outputIndex + runLength;
    }
    assert decoded[..output.Length] == decoded[..];
    ContinuesAtEnd(input, output.Length, inputIndex, decoded[..]);
    CopyFrom(output, decoded);
    return true;
  }

  method Fill(a: array<Byte>, from: nat, count: nat, value: Byte)
    requires from + count <= a.Length
    modifies a
    ensures a[..from + count] == old(a[..from]) + Copies(value, count)
  {
    forall k | from <= k < from + count {
      a[k] := value;
    }
  }

  method CopyFrom(output: array<Byte>, source: array<Byte>)
    requires output.Length == source.Length && output != source
    modifies output
    ensures output[..] == old(source[..])
  {
    forall k | 0 <= k < output.Length {
      output[k] := source[k];
    }
  }

  /** What was decoded so far, followed by what the rest decodes to, is what the whole input decodes to. */
  ghost predicate Continues(input: seq<Byte>, n: nat, at: nat, done: seq<Byte>)
    requires input != [] && n > 0 && 1 <= at <= |input| && |done| <= n
  {
    var rest := Tokens(input[at..], input[0], n - |done|);
    Decoded(input, n) == match rest case None => None case Some(tokens) => Some(done + Expand(tokens))
  }

  lemma Regroup(a: seq<Byte>, b: seq<Byte>, c: seq<Byte>)
    ensures a + (b + c) == a + b + c
  {
  }

  lemma ContinuesAtStart(input: seq<Byte>, n: nat)
    requires input != [] && n > 0
    ensures Continues(input, n, 1, [])
  {
    var r := Tokens(input[1..], input[0], n);
    if r.Some? {
      assert [] + Expand(r.value) == Expand(r.value);
    }
  }

  lemma ContinuesAtEnd(input: seq<Byte>, n: nat, at: nat, done: seq<Byte>)
    requires input != [] && n > 0 && 1 <= at <= |input| && |done| == n && Continues(input, n, at, done)
    ensures Decoded(input, n) == Some(done)
  {
    assert done + [] == done;
  }

  /** The input ends, a run is cut off, or a run is longer than what is left to fill. */
  lemma EndsTooSoon(input: seq<Byte>, n: nat, at: nat, done: seq<Byte>)
    requires input != [] && n > 0 && 1 <= at <= |input| && |done| < n && Continues(input, n, at, done)
    requires at < |input| ==> input[at] == input[0] && (|input| - at < 3 || n - |done| < RunBytes(input[at + 2]))
    ensures Decoded(input, n) == None
  {
  }

  lemma ContinuesLiteral(input: seq<Byte>, n: nat, at: nat, done: seq<Byte>)
    requires input != [] && 1 <= at < |input| && |done| < n && Continues(input, n, at, done)
    requires input[at] != input[0]
    ensures Continues(input, n, at + 1, done + [input[at]])
  {
    assert input[at..][1..] == input[at + 1..];
    var rest := Tokens(input[at + 1..], input[0], n - |done| - 1);
    if rest.Some? {
      FirstToken(Literal(input[at]), rest.value, input[0]);
      Regroup(done, [input[at]], Expand(rest.value));
    }
  }

  lemma ContinuesRun(input: seq<Byte>, n: nat, at: nat, done: seq<Byte>)
    requires input != [] && 1 <= at && at + 3 <= |input| && |done| < n && Continues(input, n, at, done)
    requires input[at] == input[0] && RunBytes(input[at + 2]) <= n - |done|
    ensures Continues(input, n, at + 3, done + Copies(input[at + 1], RunBytes(input[at + 2])))
  {
    assert input[at..][3..] == input[at + 3..];
    var copies := Copies(input[at + 1], RunBytes(input[at + 2]));
    var rest := Tokens(input[at + 3..], input[0], n - |done| - |copies|);
    if rest.Some? {
      FirstToken(Run(input[at + 1], input[at + 2]), rest.value, input[0]);
      Regroup(done, copies, Expand(rest.value));
    }
  }

  // ---- When it succeeds ----

  lemma ReadsFirstToken(t: Token, after: seq<Byte>, tag: Byte, n: nat)
    requires t.Literal? ==> t.value != tag
    ensures Tokens(Written(t, tag) + after, tag, |Meaning(t)| + n)
         == match Tokens(after, tag, n) case None => None case Some(rest) => Some([t] + rest)
  {
    var s := Written(t, tag) + after;
    assert s[|Written(t, tag)|..] == after;
  }

  /** Reading tokens undoes writing them, whatever follows. */
  lemma {:induction false} TokensAreRead(tokens: seq<Token>, tag: Byte, after: seq<Byte>)
    requires Writable(tokens, tag)
    ensures Tokens(Write(tokens, tag) + after, tag, |Expand(tokens)|) == Some(tokens)
    decreases |tokens|
  {
    if tokens != [] {
      TokensAreRead(tokens[1..], tag, after);
      var first, rest := Written(tokens[0], tag), Write(tokens[1..], tag);
      ReadsFirstToken(tokens[0], rest + after, tag, |Expand(tokens[1..])|);
      hide Tokens, Written, Meaning;
      assert first + rest + after == first + (rest + after);
      assert tokens == [tokens[0]] + tokens[1..];
    }
  }

  predicate WereWritten(tokens: seq<Token>, input: seq<Byte>, tag: Byte, n: nat) {
    Writable(tokens, tag) && Write(tokens, tag) <= input && |Expand(tokens)| == n
  }

  lemma OneMoreWritten(t: Token, rest: seq<Token>, after: seq<Byte>, tag: Byte, n: nat)
    requires WereWritten(rest, after, tag, n) && (t.Literal? ==> t.value != tag)
    ensures WereWritten([t] + rest, Written(t, tag) + after, tag, |Meaning(t)| + n)
  {
    FirstToken(t, rest, tag);
    hide Written, Write, Expand, Meaning;
  }

  lemma {:induction false} ReadTokensWereWritten(input: seq<Byte>, tag: Byte, n: nat)
    ensures var r := Tokens(input, tag, n); r.Some? ==> WereWritten(r.value, input, tag, n)
    decreases n
  {
    if n > 0 && Tokens(input, tag, n).Some? {
      hide WereWritten;
      if input[0] != tag {
        ReadTokensWereWritten(input[1..], tag, n - 1);
        OneMoreWritten(Literal(input[0]), Tokens(input[1..], tag, n - 1).value, input[1..], tag, n - 1);
        assert input == [input[0]] + input[1..];
      } else {
        var k := RunBytes(input[2]);
        ReadTokensWereWritten(input[3..], tag, n - k);
        OneMoreWritten(Run(input[1], input[2]), Tokens(input[3..], tag, n - k).value, input[3..], tag, n - k);
        assert input == [tag, input[1], input[2]] + input[3..];
      }
    }
  }

  lemma FirstToken(t: Token, rest: seq<Token>, tag: Byte)
    ensures Write([t] + rest, tag) == Written(t, tag) + Write(rest, tag)
    ensures Expand([t] + rest) == Meaning(t) + Expand(rest)
  {
    assert ([t] + rest)[1..] == rest;
  }

  /** The tokens are an encoding of the output at the front of the bytes after the tag. */
  predicate Encodes(tokens: seq<Token>, input: seq<Byte>, output: seq<Byte>)
    requires input != []
  {
    Writable(tokens, input[0]) && Write(tokens, input[0]) <= input[1..] && Expand(tokens) == output
  }

  /** Decoding gives an output exactly when the bytes after the tag begin with an encoding of it. */
  lemma DecodesExactlyEncodings(input: seq<Byte>, output: seq<Byte>)
    requires input != [] && output != []
    ensures Decoded(input, |output|) == Some(output) <==> exists tokens :: Encodes(tokens, input, output)
  {
    var r := Tokens(input[1..], input[0], |output|);
    ReadTokensWereWritten(input[1..], input[0], |output|);
    if Decoded(input, |output|) == Some(output) {
      assert Encodes(r.value, input, output);
    }
    if tokens :| Encodes(tokens, input, output) {
      var w := Write(tokens, input[0]);
      TokensAreRead(tokens, input[0], input[1..][|w|..]);
      assert w + input[1..][|w|..] == input[1..];
    }
  }

  // ---- Encoding ----

  function MaximumEncodedSize(n: nat): nat {
    n * 3 + 1
  }

  /** How many equal bytes the data begin with, up to 256. */
  function RunLength(data: seq<Byte>): (k: nat)
    requires data != []
    ensures 1 <= k <= 256 && k <= |data| && forall i :: 0 <= i < k ==> data[i] == data[0]
  {
    LeadingRun(data, 1)
  }

  function LeadingRun(data: seq<Byte>, k: nat): (r: nat)
    requires 1 <= k <= 256 && k <= |data| && forall i :: 0 <= i < k ==> data[i] == data[0]
    ensures k <= r <= 256 && r <= |data| && forall i :: 0 <= i < r ==> data[i] == data[0]
    decreases |data| - k
  {
    if k < 256 && k < |data| && data[k] == data[0] then LeadingRun(data, k + 1) else k
  }

  /** The first token of the encoder and the data behind it. */
  function FirstOf(data: seq<Byte>, tag: Byte): (r: (Token, seq<Byte>))
    requires data != []
    ensures Meaning(r.0) + r.1 == data && |r.1| < |data| && (r.0.Literal? ==> r.0.value != tag)
    ensures |Written(r.0, tag)| <= 3 * (|data| - |r.1|)
  {
    var k := RunLength(data);
    assert data == Copies(data[0], k) + data[k..];
    if data[0] == tag || k > 3 then (Run(data[0], k - 1), data[k..]) else (Literal(data[0]), data[1..])
  }

  /** An encoder: runs of more than three, and every occurrence of the tag, are escaped. */
  function Compressed(data: seq<Byte>, tag: Byte): (tokens: seq<Token>)
    ensures Writable(tokens, tag)
    decreases |data|
  {
    if data == [] then []
    else
      var (first, rest) := FirstOf(data, tag);
      [first] + Compressed(rest, tag)
  }

  function Encode(data: seq<Byte>, tag: Byte): seq<Byte> {
    [tag] + Write(Compressed(data, tag), tag)
  }

  lemma {:induction false} CompressedMeansData(data: seq<Byte>, tag: Byte)
    ensures Expand(Compressed(data, tag)) == data
    ensures |Write(Compressed(data, tag), tag)| <= 3 * |data|
    decreases |data|
  {
    if data != [] {
      var (first, rest) := FirstOf(data, tag);
      CompressedMeansData(rest, tag);
      FirstToken(first, Compressed(rest, tag), tag);
      hide Meaning, Written, FirstOf;
    }
  }

  /** Decoding undoes encoding for every tag, within the size the caller allows for. */
  lemma EncodedIsDecoded(data: seq<Byte>, tag: Byte)
    requires data != []
    ensures Decoded(Encode(data, tag), |data|) == Some(data)
    ensures |Encode(data, tag)| <= MaximumEncodedSize(|data|)
  {
    CompressedMeansData(data, tag);
    var w := Write(Compressed(data, tag), tag);
    TokensAreRead(Compressed(data, tag), tag, []);
    assert w + [] == w && Encode(data, tag)[1..] == w;
  }

  /** The size is needed: a lone tag takes three bytes and the tag. */
  lemma MaximumIsReached(tag: Byte)
    ensures |Encode([tag], tag)| == MaximumEncodedSize(1)
  {
    assert RunLength([tag]) == 1;
    assert Compressed([tag][1..], tag) == [];
    assert Compressed([tag], tag) == [Run(tag, 0)] + [];
    FirstToken(Run(tag, 0), [], tag);
  }
}
