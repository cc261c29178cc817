/**
 Chunked task output: the Rust runtime's chunk_output (rust-runtime/src/chunking.rs),
 the Go SDK's ChunkOutput (sdk/plugin/chunking.go) and the size check the agent
 runs on a response (internal/pluginruntime/client.go).
 */
module Chunking {
  import opened Wrappers
  import opened Base64

  datatype Chunk = Chunk(index: int, eof: bool, data: string)

  datatype ChunkingConfig = ChunkingConfig(enabled: bool, maxChunkBytes: nat, maxTotalBytes: nat)

  // ---- Cutting a sequence into pieces of at most `step` elements ----

  function Pieces<T>(s: seq<T>, step: nat): seq<seq<T>>
    requires step > 0
    decreases |s|
  {
    if s == [] then [] else if |s| <= step then [s] else [s[..step]] + Pieces(s[step..], step)
  }

  function Concat<T>(parts: seq<seq<T>>): seq<T> {
    if parts == [] then [] else parts[0] + Concat(parts[1..])
  }

  lemma {:induction false} PiecesConcat<T>(s: seq<T>, step: nat)
    requires step > 0
    ensures Concat(Pieces(s, step)) == s
    decreases |s|
  {
    if |s| > step {
      PiecesConcat(s[step..], step);
      assert Pieces(s, step)[1..] == Pieces(s[step..], step);
    } else if s != [] {
      assert Pieces(s, step)[1..] == [] && s + [] == s;
    }
  }

  /** Every piece but the last is full; the last is not empty. */
  lemma {:induction false} PiecesSizes<T>(s: seq<T>, step: nat, i: nat)
    requires step > 0 && i < |Pieces(s, step)|
    ensures 0 < |Pieces(s, step)[i]| <= step
    ensures i < |Pieces(s, step)| - 1 ==> |Pieces(s, step)[i]| == step
    decreases |s|
  {
    if |s| > step && i > 0 {
      PiecesSizes(s[step..], step, i - 1);
    }
  }

  // ---- Reading chunks back ----

  /** Decode each chunk on its own, then join. */
  function DecodeEach(chunks: seq<Chunk>): Option<seq<byte>> {
    if chunks == [] then Some([])
    else
      match (Decode(chunks[0].data), DecodeEach(chunks[1..]))
      case (Some(a), Some(b)) => Some(a + b)
      case _ => None
  }

  /** Join the chunks' text, without decoding. */
  function Text(chunks: seq<Chunk>): string {
    if chunks == [] then "" else chunks[0].data + Text(chunks[1..])
  }

  predicate EofOnLastOnly(chunks: seq<Chunk>) {
    forall i :: 0 <= i < |chunks| ==> (chunks[i].eof <==> i == |chunks| - 1)
  }

  predicate NumberedFrom(chunks: seq<Chunk>, first: int) {
    forall i :: 0 <= i < |chunks| ==> chunks[i].index == first + i
  }

  // ---- The Rust runtime ----

  function Capped(output: seq<byte>, config: ChunkingConfig): seq<byte> {
    if config.enabled && config.maxTotalBytes > 0 && |output| > config.maxTotalBytes
      then output[..config.maxTotalBytes] else output
  }

  /** The capped output: a prefix, cut to the total only when chunking is on, a total is set and the output exceeds it. */
  lemma CappedLaw(output: seq<byte>, config: ChunkingConfig)
    ensures Capped(output, config) <= output
    ensures |Capped(output, config)| ==
            if config.enabled && 0 < config.maxTotalBytes < |output| then config.maxTotalBytes else |output|
  {}

  /** The chunks carry exactly the encodings of `parts`. */
  predicate Carries(chunks: seq<Chunk>, parts: seq<seq<byte>>) {
    |chunks| == |parts| && forall i :: 0 <= i < |parts| ==> chunks[i].data == Encode(parts[i])
  }

  lemma {:induction false} CarriedPartsDecode(chunks: seq<Chunk>, parts: seq<seq<byte>>)
    requires Carries(chunks, parts)
    ensures DecodeEach(chunks) == Some(Concat(parts))
    decreases |parts|
  {
    if parts != [] {
      DecodeEncode(parts[0]);
      CarriedPartsDecode(chunks[1..], parts[1..]);
    }
  }

  function StepOf(config: ChunkingConfig, total: nat): nat {
    if config.maxChunkBytes == 0 then total else config.maxChunkBytes
  }

  /** The parts chunk_output encodes. */
  function Parts(output: seq<byte>, config: ChunkingConfig): seq<seq<byte>> {
    var capped := Capped(output, config);
    if !config.enabled then [output]
    else if capped == [] then []
    else Pieces(capped, StepOf(config, |capped|))
  }

  method ChunkOutput(output: seq<byte>, config: ChunkingConfig) returns (chunks: seq<Chunk>)
    ensures DecodeEach(chunks) == Some(Capped(output, config))
    ensures Carries(chunks, Parts(output, config))
    ensures forall i :: 0 <= i < |chunks| ==> chunks[i].index == i + 1 && (chunks[i].eof <==> i == |chunks| - 1)
    ensures chunks == [] <==> config.enabled && Capped(output, config) == []
    ensures config.enabled && config.maxChunkBytes > 0 ==>
              forall i :: 0 <= i < |chunks| ==>
                var part := Decode(chunks[i].data);
                part.Some? && 0 < |part.value| <= config.maxChunkBytes &&
                (i < |chunks| - 1 ==> |part.value| == config.maxChunkBytes)
    ensures !config.enabled || (config.maxChunkBytes == 0 && chunks != []) ==> |chunks| == 1
  {
    hide Encode, Decode;
    if !config.enabled {
      chunks := [Chunk(1, true, Encode(output))];
      CarriedPartsDecode(chunks, [output]);
      assert Concat([output]) == output by { assert [output][1..] == [] && output + [] == output; }
      return;
    }
    var capped := output;
    if config.maxTotalBytes > 0 && |output| > config.maxTotalBytes {
      capped := output[..config.maxTotalBytes];
    }
    if capped == [] {
      return [];
    }
    var step := if config.maxChunkBytes == 0 then |capped| else config.maxChunkBytes;
    chunks := CutAndEncode(capped, step);
    ghost var parts := Pieces(capped, step);
    CarriedPartsDecode(chunks, parts);
    PiecesConcat(capped, step);
    forall i | 0 <= i < |chunks| && config.maxChunkBytes > 0
      ensures Decode(chunks[i].data) == Some(parts[i]) && 0 < |parts[i]| <= step
      ensures i < |chunks| - 1 ==> |parts[i]| == step
    {
      DecodeEncode(parts[i]);
      PiecesSizes(capped, step, i);
    }
  }

  /** The while loop of chunk_output. */
  method CutAndEncode(capped: seq<byte>, step: nat) returns (chunks: seq<Chunk>)
    requires capped != [] && step > 0
    ensures Carries(chunks, Pieces(capped, step))
    ensures NumberedFrom(chunks, 1) && EofOnLastOnly(chunks)
  {
    hide Encode, Pieces;
    chunks := [];
    var index, idx := 1, 0;
    ghost var parts := Pieces(capped, step);
    while idx < |capped|
      invariant 0 <= idx <= |capped|
      // idx + step cannot overflow: past the first round step is below the output's length
      invariant idx == 0 || step < |capped| || idx == |capped|
      invariant index == |chunks| + 1 && |chunks| <= |parts|
      invariant parts[|chunks|..] == Pieces(capped[idx..], step)
      invariant forall i :: 0 <= i < |chunks| ==>
                  chunks[i] == Chunk(i + 1, i == |chunks| - 1 && idx == |capped|, Encode(parts[i]))
    {
      var end := if idx + step < |capped| then idx + step else |capped|;
      var part := capped[idx..end];
      var eof := end >= |capped|;
      FirstPiece(capped, step, idx, end);
      assert parts[|chunks|] == part;
      assert parts[|chunks| + 1..] == parts[|chunks|..][1..];
      chunks := chunks + [Chunk(index, eof, Encode(part))];
      index := index + 1;
      idx := end;
    }
    assert capped[idx..] == [];
    NoPieces<byte>(step);
  }

  lemma NoPieces<T>(step: nat)
    requires step > 0
    ensures Pieces<T>([], step) == []
  {}

  lemma FirstPiece<T>(s: seq<T>, step: nat, idx: nat, end: nat)
    requires step > 0 && idx < |s| && end == if idx + step < |s| then idx + step else |s|
    ensures Pieces(s[idx..], step) == [s[idx..end]] + Pieces(s[end..], step)
  {
    if end < |s| {
      assert s[idx..][..step] == s[idx..end] && s[idx..][step..] == s[end..];
    } else {
      assert s[idx..] == s[idx..end];
    }
  }

  // ---- The Go SDK ----

  const SDK_CHUNK_SIZE := 256 * 1024

  function Limit(maxChunkBytes: int): (n: nat) {
    if maxChunkBytes <= 0 then SDK_CHUNK_SIZE else maxChunkBytes
  }

  method SdkChunkOutput(output: seq<byte>, maxChunkBytes: int) returns (chunks: seq<Chunk>)
    ensures chunks == [] <==> |Encode(output)| <= if maxChunkBytes <= 0 then 262144 else maxChunkBytes
    ensures chunks != [] ==> Decode(Text(chunks)) == Some(output)
    ensures chunks != [] ==> SdkPieces(chunks, output, Limit(maxChunkBytes))
    ensures forall i :: 0 <= i < |chunks| ==> chunks[i].index == i && (chunks[i].eof <==> i == |chunks| - 1)
    ensures forall i :: 0 <= i < |chunks| ==>
              0 < |chunks[i].data| <= (if maxChunkBytes <= 0 then 262144 else maxChunkBytes) &&
              (i < |chunks| - 1 ==> |chunks[i].data| == if maxChunkBytes <= 0 then 262144 else maxChunkBytes)
  {
    var limit := if maxChunkBytes <= 0 then SDK_CHUNK_SIZE else maxChunkBytes;
    var encoded := Encode(output);
    if |encoded| <= limit {
      return [];
    }
    ghost var whole := encoded;
    ghost var parts := Pieces(whole, limit);
    chunks := [];
    var index := 0;
    while |encoded| > 0
      invariant index == |chunks| <= |parts|
      invariant parts[index..] == Pieces(encoded, limit)
      invariant forall i :: 0 <= i < |chunks| ==> chunks[i].data == parts[i]
      invariant NumberedFrom(chunks, 0)
      invariant forall i :: 0 <= i < |chunks| ==> (chunks[i].eof <==> i == |chunks| - 1 && encoded == [])
      decreases |encoded|
    {
      var end := limit;
      if end > |encoded| {
        end := |encoded|;
      }
      assert Pieces(encoded, limit)[0] == encoded[..end];
      assert Pieces(encoded, limit)[1..] == Pieces(encoded[end..], limit);
      assert parts[index + 1..] == parts[index..][1..];
      chunks := chunks + [Chunk(index, end == |encoded|, encoded[..end])];
      encoded := encoded[end..];
      index := index + 1;
    }
    TextOfPieces(chunks, parts);
    PiecesConcat(whole, limit);
    DecodeEncode(output);
    forall i | 0 <= i < |chunks|
      ensures 0 < |chunks[i].data| <= limit && (i < |chunks| - 1 ==> |chunks[i].data| == limit)
    {
      PiecesSizes(whole, limit, i);
    }
  }

  /** The chunks hold the successive pieces of the encoded output. */
  predicate SdkPieces(chunks: seq<Chunk>, output: seq<byte>, limit: nat) {
    limit > 0 &&
    var parts := Pieces(Encode(output), limit);
    |chunks| == |parts| && forall i :: 0 <= i < |parts| ==> chunks[i].data == parts[i]
  }

  lemma {:induction false} TextOfPieces(chunks: seq<Chunk>, parts: seq<string>)
    requires |chunks| == |parts| && forall i :: 0 <= i < |parts| ==> chunks[i].data == parts[i]
    ensures Text(chunks) == Concat(parts)
    decreases |parts|
  {
    if parts != [] {
      TextOfPieces(chunks[1..], parts[1..]);
    }
  }

  /**
   An SDK reader that decodes chunk by chunk, as readers of the Rust runtime may, gets
   the output exactly when the chunk size is a multiple of four characters; otherwise
   some chunk does not decode at all.
   */
  lemma SdkChunksDecodeAlone(chunks: seq<Chunk>, output: seq<byte>, limit: nat)
    requires |Encode(output)| > limit > 0 && SdkPieces(chunks, output, limit)
    ensures DecodeEach(chunks) == Some(output) <==> limit % 4 == 0
    ensures DecodeEach(chunks) == None <==> limit % 4 != 0
  {
    hide Encode, Decode;
    if limit % 4 == 0 {
      var n := limit / 4 * 3;
      AlignedPieces(output, limit);
      CarriedPartsDecode(chunks, Pieces(output, n));
      PiecesConcat(output, n);
    } else {
      assert chunks[0].data == Encode(output)[..limit];
      if Decode(chunks[0].data).Some? {
        DecodableLength(chunks[0].data);
        assert false;
      }
    }
  }

  /** Cutting the text at a multiple of four is encoding the bytes cut at three for each four. */
  lemma {:induction false} AlignedPieces(output: seq<byte>, limit: nat)
    requires limit > 0 && limit % 4 == 0
    ensures var parts, texts := Pieces(output, limit / 4 * 3), Pieces(Encode(output), limit);
            |parts| == |texts| && forall i :: 0 <= i < |parts| ==> texts[i] == Encode(parts[i])
    decreases |output|
  {
    hide Encode;
    var n, text := limit / 4 * 3, Encode(output);
    EncodeLength(output);
    if |text| > limit {
      assert output == output[..n] + output[n..];
      EncodeAppend(output[..n], output[n..]);
      EncodeLength(output[..n]);
      assert text[..limit] == Encode(output[..n]) && text[limit..] == Encode(output[n..]);
      AlignedPieces(output[n..], limit);
    }
  }

  // ---- The agent's size check ----

  function DecodedLen(n: nat): nat { n / 4 * 3 }

  function Estimate(chunks: seq<Chunk>): nat {
    if chunks == [] then 0 else DecodedLen(|chunks[0].data|) + Estimate(chunks[1..])
  }

  lemma {:induction false} EstimateAppend(a: seq<Chunk>, b: seq<Chunk>)
    ensures Estimate(a + b) == Estimate(a) + Estimate(b)
    decreases |a|
  {
    if a == [] {
      assert a + b == b;
    } else {
      assert (a + b)[1..] == a[1..] + b;
      EstimateAppend(a[1..], b);
    }
  }

  /** The early exit never changes the verdict: it is the verdict on the whole estimate. */
  method ValidateChunkSize(chunks: seq<Chunk>, maxBytes: int) returns (ok: bool)
    ensures ok <==> maxBytes <= 0 || Estimate(chunks) <= maxBytes
  {
    if maxBytes <= 0 {
      return true;
    }
    var total := 0;
    for i := 0 to |chunks|
      invariant total == Estimate(chunks[..i]) <= maxBytes
    {
      total := total + DecodedLen(|chunks[i].data|);
      assert chunks[..i + 1] == chunks[..i] + [chunks[i]];
      EstimateAppend(chunks[..i], [chunks[i]]);
      if total > maxBytes {
        assert chunks == chunks[..i + 1] + chunks[i + 1..];
        EstimateAppend(chunks[..i + 1], chunks[i + 1..]);
        return false;
      }
    }
    assert chunks[..|chunks|] == chunks;
    return true;
  }

  predicate ExactParts(parts: seq<seq<byte>>) {
    forall i :: 0 <= i < |parts| ==> |parts[i]| % 3 == 0
  }

  /**
   The estimate never falls short of the decoded total, exceeds it by at most two
   bytes per chunk, and equals it exactly when every part is a multiple of three.
   */
  lemma {:induction false} EstimateSlack(chunks: seq<Chunk>, parts: seq<seq<byte>>)
    requires Carries(chunks, parts)
    ensures |Concat(parts)| <= Estimate(chunks) <= |Concat(parts)| + 2 * |chunks|
    ensures Estimate(chunks) == |Concat(parts)| <==> ExactParts(parts)
    decreases |parts|
  {
    hide Encode;
    if parts != [] {
      EncodeLength(parts[0]);
      EstimateSlack(chunks[1..], parts[1..]);
      assert ExactParts(parts) <==> |parts[0]| % 3 == 0 && ExactParts(parts[1..]) by {
        if |parts[0]| % 3 == 0 && ExactParts(parts[1..]) {
          forall i | 0 <= i < |parts| ensures |parts[i]| % 3 == 0 {
            assert i > 0 ==> parts[i] == parts[1..][i - 1];
          }
        }
      }
    }
  }

  /** An accepted response of the runtime really is within the limit. */
  lemma AcceptedIsWithinLimit(chunks: seq<Chunk>, output: seq<byte>, config: ChunkingConfig, maxBytes: int)
    requires Carries(chunks, Parts(output, config)) && DecodeEach(chunks) == Some(Capped(output, config))
    requires maxBytes > 0 && Estimate(chunks) <= maxBytes
    ensures |Capped(output, config)| <= maxBytes
  {
    CarriedPartsDecode(chunks, Parts(output, config));
    EstimateSlack(chunks, Parts(output, config));
  }

  /** Decoding is the exact inverse of encoding, so any response that decodes carries its own parts. */
  lemma {:induction false} DecodedPartsCarried(chunks: seq<Chunk>) returns (parts: seq<seq<byte>>)
    requires DecodeEach(chunks).Some?
    ensures Carries(chunks, parts) && Concat(parts) == DecodeEach(chunks).value
    decreases |chunks|
  {
    hide Encode, Decode;
    parts := [];
    if chunks != [] {
      EncodeDecode(chunks[0].data);
      var rest := DecodedPartsCarried(chunks[1..]);
      parts := [Decode(chunks[0].data).value] + rest;
      assert parts[1..] == rest;
    }
  }

  /** The check is sound for every plugin: whatever decodes and is accepted is within the limit, to two bytes per chunk. */
  lemma AnyAcceptedIsWithinLimit(chunks: seq<Chunk>, maxBytes: int)
    requires DecodeEach(chunks).Some? && maxBytes > 0
    ensures Estimate(chunks) <= maxBytes ==> |DecodeEach(chunks).value| <= maxBytes
    ensures |DecodeEach(chunks).value| + 2 * |chunks| <= maxBytes ==> Estimate(chunks) <= maxBytes
  {
    var parts := DecodedPartsCarried(chunks);
    EstimateSlack(chunks, parts);
  }

  function RoundUp3(n: nat): nat { (n + 2) / 3 * 3 }

  /** The estimate in closed form: full chunks and a remainder, each rounded up to three bytes. */
  lemma {:induction false} EstimateOfPieces(chunks: seq<Chunk>, s: seq<byte>, step: nat, full: nat, rest: nat)
    requires step > 0 && Carries(chunks, Pieces(s, step))
    requires rest < step && |s| == full * step + rest
    ensures Estimate(chunks) == full * RoundUp3(step) + RoundUp3(rest)
    decreases full
  {
    hide Encode, RoundUp3;
    if full == 0 {
      OnePiece(chunks, s, step);
    } else {
      OneLess(full, step);
      OneLess(full, RoundUp3(step));
      assert Pieces(s, step) == [s[..step]] + Pieces(s[step..], step) by {
        assert |s| == step ==> s[..step] == s;
      }
      EncodeRounds(s[..step]);
      EstimateOfPieces(chunks[1..], s[step..], step, full - 1, rest);
    }
  }

  lemma OnePiece(chunks: seq<Chunk>, s: seq<byte>, step: nat)
    requires |s| < step && Carries(chunks, Pieces(s, step))
    ensures Estimate(chunks) == RoundUp3(|s|)
  {
    hide Encode;
    if s != [] {
      EncodeRounds(s);
      assert chunks[1..] == [];
    }
  }

  lemma EncodeRounds(bs: seq<byte>)
    ensures DecodedLen(|Encode(bs)|) == RoundUp3(|bs|)
  {
    hide Encode;
    EncodeLength(bs);
  }

  lemma OneLess(n: nat, d: nat)
    requires n > 0
    ensures n * d == (n - 1) * d + d >= d
  {}

  /**
   A response cut to its own limit is not always accepted: it is exactly when its
   full chunks and its remainder, each rounded up to three bytes, fit.
   */
  lemma CappedResponseAccepted(chunks: seq<Chunk>, output: seq<byte>, config: ChunkingConfig, maxBytes: nat)
    requires config.enabled && config.maxChunkBytes > 0 && Carries(chunks, Parts(output, config))
    ensures var n, c := |Capped(output, config)|, config.maxChunkBytes;
            Estimate(chunks) <= maxBytes <==> n / c * RoundUp3(c) + RoundUp3(n % c) <= maxBytes
  {
    hide Encode;
    var n, c := |Capped(output, config)|, config.maxChunkBytes;
    EstimateOfPieces(chunks, Capped(output, config), c, n / c, n % c);
  }

  /** With the default limits (8 MiB results in 256 KiB chunks) a full result is refused. */
  lemma FullDefaultResponseRefused(chunks: seq<Chunk>, output: seq<byte>)
    requires |output| >= 8388608
    requires Carries(chunks, Parts(output, ChunkingConfig(true, 262144, 8388608)))
    ensures |Capped(output, ChunkingConfig(true, 262144, 8388608))| == 8388608
    ensures Estimate(chunks) == 8388672 > 8388608
  {
    EstimateOfPieces(chunks, Capped(output, ChunkingConfig(true, 262144, 8388608)), 262144, 32, 0);
  }
}
