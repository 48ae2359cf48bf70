/** Reading and writing RIFF/WAVE files (chapter 2 of Multimedia Programming Interface and Data Specifications 1.0). */
module WavCodec {
  import opened Wrappers

  type Byte = b: int | 0 <= b < 256

  function Le16(n: nat): (r: seq<Byte>)
    requires n < 0x1_0000
    ensures |r| == 2
  {
    [n % 256, n / 256]
  }

  function Le32(n: nat): (r: seq<Byte>)
    requires n < 0x1_0000_0000
    ensures |r| == 4
  {
    [n % 256, n / 256 % 256, n / 65536 % 256, n / 16777216]
  }

  /** The number with these bytes, least significant first. */
  function FromLe(s: seq<Byte>): nat {
    if s == [] then 0 else s[0] as int + 256 * FromLe(s[1..])
  }

  function U16(s: seq<Byte>, at: nat): nat
    requires at + 2 <= |s|
  {
    FromLe(s[at..at + 2])
  }

  function U32(s: seq<Byte>, at: nat): nat
    requires at + 4 <= |s|
  {
    FromLe(s[at..at + 4])
  }

  lemma FromTwo(a: Byte, b: Byte)
    ensures FromLe([a, b]) == a as int + 256 * b as int
  {
    assert [a, b][1..] == [b] && [b][1..] == [];
    assert FromLe([b]) == b as int;
  }

  lemma FromFour(a: Byte, b: Byte, c: Byte, d: Byte)
    ensures FromLe([a, b, c, d]) == a as int + 256 * b as int + 65536 * c as int + 16777216 * d as int
  {
    FromTwo(c, d);
    assert [a, b, c, d][1..] == [b, c, d] && [b, c, d][1..] == [c, d];
    assert FromLe([b, c, d]) == b as int + 256 * FromLe([c, d]);
  }

  lemma Le32RoundTrip(n: nat)
    requires n < 0x1_0000_0000
    ensures FromLe(Le32(n)) == n
  {
    FromFour(n % 256, n / 256 % 256, n / 65536 % 256, n / 16777216);
    assert n / 65536 == n / 256 / 256;
    assert n / 16777216 == n / 65536 / 256;
  }

  const RIFF: seq<Byte> := [0x52, 0x49, 0x46, 0x46]
  const WAVE: seq<Byte> := [0x57, 0x41, 0x56, 0x45]
  const FMT: seq<Byte> := [0x66, 0x6D, 0x74, 0x20]
  const DATA: seq<Byte> := [0x64, 0x61, 0x74, 0x61]

  const RATE := 16_000

  predicate IsSampleRateHz(n: nat) { n in {8000, 16000, 22050, 24000, 44100, 48000} }

  // ----- The writer -----

  function FmtBody(channels: nat): (r: seq<Byte>)
    requires channels <= 2
    ensures |r| == 16
  {
    Le16(1) + Le16(channels) + Le32(RATE) + Le32(RATE * 2 * channels) + Le16(2 * channels) + Le16(16)
  }

  /** The 44 bytes in front of the samples. */
  function Header(channels: nat, dataBytes: nat): (r: seq<Byte>)
    requires channels <= 2 && 36 + dataBytes < 0x1_0000_0000
    ensures |r| == 44
  {
    RIFF + Le32(36 + dataBytes) + WAVE + (FMT + Le32(16) + FmtBody(channels)) + (DATA + Le32(dataBytes))
  }

  method Put(buffer: array<Byte>, at: nat, bytes: seq<Byte>)
    requires at + |bytes| <= buffer.Length
    modifies buffer
    ensures buffer[..at + |bytes|] == old(buffer[..at]) + bytes
    ensures forall k :: at + |bytes| <= k < buffer.Length ==> buffer[k] == old(buffer[k])
  {
    for i := 0 to |bytes|
      invariant forall k :: 0 <= k < at || at + |bytes| <= k < buffer.Length ==> buffer[k] == old(buffer[k])
      invariant forall k :: 0 <= k < i ==> buffer[at + k] == bytes[k]
    {
      buffer[at + i] := bytes[i];
    }
    assert buffer[at..at + |bytes|] == bytes;
    assert buffer[..at + |bytes|] == buffer[..at] + buffer[at..at + |bytes|];
  }

  method PutFmt(wav: array<Byte>, channels: nat)
    requires channels <= 2 && 44 <= wav.Length
    modifies wav
    ensures wav[..36] == old(wav[..12]) + (FMT + Le32(16) + FmtBody(channels))
    ensures forall k :: 36 <= k < wav.Length ==> wav[k] == old(wav[k])
  {
    Put(wav, 12, FMT);
    Put(wav, 16, Le32(16));
    ghost var start := wav[..20];
    assert start == old(wav[..12]) + (FMT + Le32(16));
    PutFmtBody(wav, channels);
    assert wav[..36] == start + FmtBody(channels);
  }

  method PutFmtBody(wav: array<Byte>, channels: nat)
    requires channels <= 2 && 44 <= wav.Length
    modifies wav
    ensures wav[..36] == old(wav[..20]) + FmtBody(channels)
    ensures forall k :: 36 <= k < wav.Length ==> wav[k] == old(wav[k])
  {
    Put(wav, 20, Le16(1));
    Put(wav, 22, Le16(channels));
    Put(wav, 24, Le32(RATE));
    ghost var half := Le16(1) + Le16(channels) + Le32(RATE);
    assert wav[..28] == old(wav[..20]) + half;
    Put(wav, 28, Le32(RATE * 2 * channels));
    Put(wav, 32, Le16(2 * channels));
    Put(wav, 34, Le16(16));
    assert FmtBody(channels) == half + (Le32(RATE * 2 * channels) + Le16(2 * channels) + Le16(16));
  }

  method PutHeader(wav: array<Byte>, channels: nat, dataBytes: nat)
    requires channels <= 2 && 36 + dataBytes < 0x1_0000_0000 && wav.Length == 44 + dataBytes
    modifies wav
    ensures wav[..44] == Header(channels, dataBytes)
    ensures forall k :: 44 <= k < wav.Length ==> wav[k] == old(wav[k])
  {
    PutRiff(wav, dataBytes);
    PutFmt(wav, channels);
    ghost var start := wav[..36];
    Put(wav, 36, DATA);
    Put(wav, 40, Le32(dataBytes));
    assert wav[..44] == start + (DATA + Le32(dataBytes));
  }

  method PutRiff(wav: array<Byte>, dataBytes: nat)
    requires 36 + dataBytes < 0x1_0000_0000 && wav.Length == 44 + dataBytes
    modifies wav
    ensures wav[..12] == RIFF + Le32(36 + dataBytes) + WAVE
    ensures forall k :: 12 <= k < wav.Length ==> wav[k] == old(wav[k])
  {
    Put(wav, 0, RIFF);
    Put(wav, 4, Le32(36 + dataBytes));
    Put(wav, 8, WAVE);
  }

  /** The fields of the header, one by one, at their places in the file. */
  lemma HeaderSays(channels: nat, dataBytes: nat)
    requires channels <= 2 && 36 + dataBytes < 0x1_0000_0000
    ensures var h := Header(channels, dataBytes);
      && h[0..4] == [0x52, 0x49, 0x46, 0x46] && h[4..8] == Le32(36 + dataBytes) && h[8..12] == [0x57, 0x41, 0x56, 0x45]
      && h[12..16] == [0x66, 0x6D, 0x74, 0x20] && h[16..20] == [16, 0, 0, 0] && h[20..22] == [1, 0]
      && h[22..24] == [channels, 0] && h[24..28] == [0x80, 0x3E, 0, 0]
      && h[28..32] == BytesPerSecond(channels)
      && h[32..34] == [2 * channels, 0] && h[34..36] == [16, 0]
      && h[36..40] == [0x64, 0x61, 0x74, 0x61] && h[40..44] == Le32(dataBytes)
  {
    FmtSays(channels);
    HeaderParts(channels, dataBytes);
  }

  /** Bytes per second, least significant byte first. */
  function BytesPerSecond(channels: nat): seq<Byte> {
    if channels == 2 then [0, 0xFA, 0, 0] else if channels == 1 then [0, 0x7D, 0, 0] else [0, 0, 0, 0]
  }

  lemma FmtSays(channels: nat)
    requires channels <= 2
    ensures var f := FmtBody(channels);
      && f[0..2] == [1, 0] && f[2..4] == [channels, 0] && f[4..8] == [0x80, 0x3E, 0, 0]
      && f[8..12] == BytesPerSecond(channels) && f[12..14] == [2 * channels, 0] && f[14..16] == [16, 0]
  {
    assert Le32(RATE) == [0x80, 0x3E, 0, 0] && Le32(RATE * 2 * channels) == BytesPerSecond(channels);
    SixParts(Le16(1), Le16(channels), Le32(RATE), Le32(RATE * 2 * channels), Le16(2 * channels), Le16(16));
  }

  lemma SixParts(a: seq<Byte>, b: seq<Byte>, c: seq<Byte>, d: seq<Byte>, e: seq<Byte>, f: seq<Byte>)
    requires |a| == |b| == |e| == |f| == 2 && |c| == |d| == 4
    ensures var s := a + b + c + d + e + f;
      s[0..2] == a && s[2..4] == b && s[4..8] == c && s[8..12] == d && s[12..14] == e && s[14..16] == f
  {
  }

  lemma HeaderParts(channels: nat, dataBytes: nat)
    requires channels <= 2 && 36 + dataBytes < 0x1_0000_0000
    ensures var h := Header(channels, dataBytes);
      && h[0..4] == RIFF && h[4..8] == Le32(36 + dataBytes) && h[8..12] == WAVE && h[12..16] == FMT
      && h[16..20] == Le32(16) && h[36..40] == DATA && h[40..44] == Le32(dataBytes)
      && forall i, j :: 0 <= i <= j <= 16 ==> h[20 + i..20 + j] == FmtBody(channels)[i..j]
  {
  }

  datatype WriteError = OutOfRange

  /** Mono 16 kHz samples as a file; a length that does not fit its 32-bit field is refused by the buffer. */
  method Pcm16ToWav(bytes: seq<Byte>) returns (r: Result<seq<Byte>, WriteError>)
    ensures r == if 36 + |bytes| < 0x1_0000_0000 then Ok(Header(1, |bytes|) + bytes) else Err(OutOfRange)
  {
    if 36 + |bytes| >= 0x1_0000_0000 { return Err(OutOfRange); }
    var wav := new Byte[44 + |bytes|];
    PutHeader(wav, 1, |bytes|);
    Put(wav, 44, bytes);
    assert wav[..] == wav[..44 + |bytes|];
    return Ok(wav[..]);
  }

  // ----- The parser -----

  datatype WavError =
    | NotRiffWave
    | TruncatedChunk(tag: seq<Byte>)
    | IncompleteFmt
    | NotMono16BitPcm
    | UnsupportedRate(rate: nat)
    | MissingFmt
    | MissingData
    | OddData

  /** Samples and their rate; the encoding and the channel count are fixed. */
  datatype Pcm16Wav = Pcm16Wav(rate: nat, bytes: seq<Byte>)

  /** What the scan has met so far. */
  datatype Found = Found(rate: Option<nat>, data: Option<seq<Byte>>)

  function ReadFmt(body: seq<Byte>): Result<nat, WavError> {
    if |body| < 16 then Err(IncompleteFmt)
    else if U16(body, 0) != 1 || U16(body, 2) != 1 || U16(body, 14) != 16 then Err(NotMono16BitPcm)
    else if !IsSampleRateHz(U32(body, 4)) then Err(UnsupportedRate(U32(body, 4)))
    else Ok(U32(body, 4))
  }

  function Absorb(found: Found, tag: seq<Byte>, body: seq<Byte>): Result<Found, WavError> {
    if tag == FMT then
      match ReadFmt(body)
      case Err(e) => Err(e)
      case Ok(rate) => Ok(found.(rate := Some(rate)))
    else if tag == DATA then Ok(found.(data := Some(body)))
    else Ok(found)
  }

  function Conclude(found: Found): Result<Pcm16Wav, WavError> {
    if found.rate.None? then Err(MissingFmt)
    else if found.data.None? then Err(MissingData)
    else if |found.data.value| % 2 != 0 then Err(OddData)
    else Ok(Pcm16Wav(found.rate.value, found.data.value))
  }

  function Drop(s: seq<Byte>, n: nat): (r: seq<Byte>)
    ensures |r| == if n <= |s| then |s| - n else 0
  {
    if n <= |s| then s[n..] else []
  }

  /** What is done with a chunk of this tag and body. */
  type Handler<!S> = (S, seq<Byte>, seq<Byte>) -> Result<S, WavError>

  /** Chunk by chunk over the bytes that are left, until too few are left or a chunk is refused. */
  function Scan<S>(rest: seq<Byte>, state: S, handle: Handler<S>): Result<S, WavError>
    decreases |rest|, 0
  {
    if |rest| < 8 then Ok(state)
    else
      var tag, end := rest[..4], 8 + U32(rest, 4);
      if end > |rest| then Err(TruncatedChunk(tag))
      else ScanOn(handle(state, tag, rest[8..end]), Drop(rest, end + end % 2), handle)
  }

  function ScanOn<S>(next: Result<S, WavError>, rest: seq<Byte>, handle: Handler<S>): Result<S, WavError>
    decreases |rest|, 1
  {
    match next
    case Err(e) => Err(e)
    case Ok(state) => Scan(rest, state, handle)
  }

  function Outcome(scanned: Result<Found, WavError>): Result<Pcm16Wav, WavError> {
    match scanned
    case Err(e) => Err(e)
    case Ok(found) => Conclude(found)
  }

  function Parse(file: seq<Byte>): Result<Pcm16Wav, WavError> {
    if |file| < 12 || file[..4] != RIFF || file[8..12] != WAVE then Err(NotRiffWave)
    else Outcome(Scan(file[12..], Found(None, None), Absorb))
  }

  lemma SliceOfDrop(file: seq<Byte>, offset: nat, from: nat, to: nat)
    requires from <= to && offset + to <= |file|
    ensures file[offset..][from..to] == file[offset + from..offset + to]
  {
  }

  lemma DropDrop(file: seq<Byte>, offset: nat, n: nat)
    requires offset <= |file|
    ensures Drop(file[offset..], n) == Drop(file, offset + n)
  {
  }

  /** The chunk in front is handled, and the scan goes on behind it and its padding. */
  lemma {:induction false} ScanFirst<S>(
    rest: seq<Byte>, tag: seq<Byte>, body: seq<Byte>, after: seq<Byte>, state: S, handle: Handler<S>)
    requires 8 + |body| <= |rest| && rest[..4] == tag && U32(rest, 4) == |body| && rest[8..8 + |body|] == body
    requires after == Drop(rest, 8 + |body| + |body| % 2)
    ensures Scan(rest, state, handle) == ScanOn(handle(state, tag, body), after, handle)
  {
  }

  lemma {:induction false} ScanTruncated<S>(rest: seq<Byte>, state: S, handle: Handler<S>)
    requires 8 <= |rest| < 8 + U32(rest, 4)
    ensures Scan(rest, state, handle) == Err(TruncatedChunk(rest[..4]))
  {
  }

  /** The bytes from an offset on, part by part. */
  lemma PartsAtOffset(file: seq<Byte>, offset: nat, rest: seq<Byte>, length: nat)
    requires offset + 8 <= |file| && rest == Drop(file, offset)
    ensures |rest| == |file| - offset
    ensures rest[..4] == file[offset..offset + 4] && U32(rest, 4) == U32(file, offset + 4)
    ensures 8 + length <= |rest| ==> rest[8..8 + length] == file[offset + 8..offset + 8 + length]
    ensures Drop(rest, 8 + length + length % 2) == Drop(file, offset + 8 + length + length % 2)
  {
    SliceOfDrop(file, offset, 0, 4);
    SliceOfDrop(file, offset, 4, 8);
    if 8 + length <= |rest| { SliceOfDrop(file, offset, 8, 8 + length); }
    DropDrop(file, offset, 8 + length + length % 2);
  }

  lemma {:induction false} TruncatedAtOffset<S>(file: seq<Byte>, offset: nat, state: S, handle: Handler<S>)
    requires offset + 8 <= |file| < offset + 8 + U32(file, offset + 4)
    ensures Scan(Drop(file, offset), state, handle) == Err(TruncatedChunk(file[offset..offset + 4]))
  {
    PartsAtOffset(file, offset, Drop(file, offset), 0);
    ScanTruncated(Drop(file, offset), state, handle);
  }

  lemma {:induction false} ChunkAtOffset<S>(
    file: seq<Byte>, offset: nat, from: nat, to: nat, next: nat, state: S, handle: Handler<S>)
    requires offset + 8 == from <= to <= |file| && to == from + U32(file, offset + 4) && next == to + (to - from) % 2
    ensures Scan(Drop(file, offset), state, handle) ==
      ScanOn(handle(state, file[offset..offset + 4], file[from..to]), Drop(file, next), handle)
  {
    PartsAtOffset(file, offset, Drop(file, offset), to - from);
    ScanFirst(Drop(file, offset), file[offset..offset + 4], file[from..to], Drop(file, next), state, handle);
  }

  method ParsePcm16Wav(file: seq<Byte>) returns (r: Result<Pcm16Wav, WavError>)
    ensures r == Parse(file)
  {
    if |file| < 12 || file[..4] != RIFF || file[8..12] != WAVE { return Err(NotRiffWave); }
    var found := Found(None, None);
    var offset := 12;
    while offset + 8 <= |file|
      invariant Parse(file) == Outcome(Scan(Drop(file, offset), found, Absorb))
      decreases |file| - offset
    {
      var tag, length := file[offset..offset + 4], U32(file, offset + 4);
      var bodyStart := offset + 8;
      var bodyEnd := bodyStart + length;
      if bodyEnd > |file| {
        TruncatedAtOffset(file, offset, found, Absorb);
        return Err(TruncatedChunk(tag));
      }
      var after := bodyEnd + length % 2;
      ChunkAtOffset(file, offset, bodyStart, bodyEnd, after, found, Absorb);
      var next := Absorb(found, tag, file[bodyStart..bodyEnd]);
      if next.Err? { return Err(next.error); }
      found := next.value;
      offset := after;
    }
    return Conclude(found);
  }

  // ----- Chunks -----

  datatype Chunk = Chunk(tag: seq<Byte>, body: seq<Byte>, pad: Byte)

  ghost predicate IsChunk(c: Chunk) { |c.tag| == 4 && |c.body| < 0x1_0000_0000 }

  ghost predicate IsForeign(c: Chunk) { IsChunk(c) && c.tag != FMT && c.tag != DATA }

  /** A chunk padded to even length. */
  function Encode(c: Chunk): seq<Byte>
    requires |c.body| < 0x1_0000_0000
  {
    c.tag + Le32(|c.body|) + c.body + if |c.body| % 2 == 1 then [c.pad] else []
  }

  ghost function EncodeAll(chunks: seq<Chunk>): seq<Byte>
    requires forall c :: c in chunks ==> IsChunk(c)
  {
    if chunks == [] then [] else assert IsChunk(chunks[0]); Encode(chunks[0]) + EncodeAll(chunks[1..])
  }

  lemma EncodedChunk(c: Chunk, rest: seq<Byte>)
    requires IsChunk(c)
    ensures var s := Encode(c) + rest; var n := |c.body|;
      8 + n <= |s| && s[..4] == c.tag && U32(s, 4) == n && s[8..8 + n] == c.body && |Encode(c)| == 8 + n + n % 2
  {
    var s := Encode(c) + rest;
    assert s[4..8] == Le32(|c.body|);
    Le32RoundTrip(|c.body|);
  }

  /** A whole chunk at the front is absorbed and the scan goes on behind it. */
  lemma {:induction false} ScanChunk<S>(c: Chunk, rest: seq<Byte>, state: S, handle: Handler<S>)
    requires IsChunk(c)
    ensures Scan(Encode(c) + rest, state, handle) == ScanOn(handle(state, c.tag, c.body), rest, handle)
  {
    EncodedChunk(c, rest);
    assert Drop(Encode(c) + rest, |Encode(c)|) == rest;
    ScanFirst(Encode(c) + rest, c.tag, c.body, rest, state, handle);
  }

  lemma {:induction false} ScanAgrees<S>(
    chunks: seq<Chunk>, one: seq<Byte>, other: seq<Byte>, state: S, handle: Handler<S>)
    requires (forall c :: c in chunks ==> IsChunk(c)) && forall s :: Scan(one, s, handle) == Scan(other, s, handle)
    ensures Scan(EncodeAll(chunks) + one, state, handle) == Scan(EncodeAll(chunks) + other, state, handle)
    decreases chunks
  {
    if chunks == [] {
      assert [] + one == one && [] + other == other;
    } else {
      var c, more := chunks[0], EncodeAll(chunks[1..]);
      assert c in chunks;
      assert EncodeAll(chunks) + one == Encode(c) + (more + one);
      assert EncodeAll(chunks) + other == Encode(c) + (more + other);
      ScanChunk(c, more + one, state, handle);
      ScanChunk(c, more + other, state, handle);
      var next := handle(state, c.tag, c.body);
      if next.Ok? { ScanAgrees(chunks[1..], one, other, next.value, handle); }
    }
  }

  lemma ParseStarts(size: seq<Byte>, rest: seq<Byte>)
    requires |size| == 4
    ensures Parse(RIFF + size + WAVE + rest) == Outcome(Scan(rest, Found(None, None), Absorb))
  {
    var start := RIFF + size + WAVE;
    var file := start + rest;
    assert file[..4] == RIFF && file[8..12] == WAVE && file[12..] == rest;
  }

  /** A foreign chunk between chunks changes nothing, whatever follows and whatever the file says of its size. */
  lemma ForeignChunkIsIgnored(size: seq<Byte>, newSize: seq<Byte>, before: seq<Chunk>, foreign: Chunk, rest: seq<Byte>)
    requires |size| == |newSize| == 4 && IsForeign(foreign) && forall c :: c in before ==> IsChunk(c)
    ensures Parse(RIFF + newSize + WAVE + (EncodeAll(before) + (Encode(foreign) + rest))) ==
            Parse(RIFF + size + WAVE + (EncodeAll(before) + rest))
  {
    var inserted := Encode(foreign) + rest;
    forall f: Found ensures Scan(inserted, f, Absorb) == Scan(rest, f, Absorb) {
      ScanChunk(foreign, rest, f, Absorb);
    }
    ScanAgrees(before, inserted, rest, Found(None, None), Absorb);
    ParseStarts(newSize, EncodeAll(before) + inserted);
    ParseStarts(size, EncodeAll(before) + rest);
  }

  /** What the writer's `fmt ` chunk says. */
  lemma FmtReadsBack()
    ensures ReadFmt(FmtBody(1)) == Ok(RATE)
  {
    var body := FmtBody(1);
    assert body[0..2] == [1, 0] && body[2..4] == [1, 0] && body[4..8] == [0x80, 0x3E, 0, 0] && body[14..16] == [16, 0];
    FromTwo(1, 0);
    FromTwo(16, 0);
    FromFour(0x80, 0x3E, 0, 0);
  }

  /** The printed file as chunks. */
  lemma PrintedAsChunks(bytes: seq<Byte>)
    requires 36 + |bytes| < 0x1_0000_0000 && |bytes| % 2 == 0
    ensures Header(1, |bytes|) + bytes ==
      RIFF + Le32(36 + |bytes|) + WAVE + (Encode(Chunk(FMT, FmtBody(1), 0)) + Encode(Chunk(DATA, bytes, 0)))
  {
    assert Encode(Chunk(FMT, FmtBody(1), 0)) == FMT + Le32(16) + FmtBody(1);
    assert Encode(Chunk(DATA, bytes, 0)) == DATA + Le32(|bytes|) + bytes;
  }

  /** Scanning the printer's two chunks, at any point of the scan. */
  lemma ScanPrinted(bytes: seq<Byte>, found: Found)
    requires |bytes| < 0x1_0000_0000 && |bytes| % 2 == 0
    ensures Outcome(Scan(Encode(Chunk(FMT, FmtBody(1), 0)) + Encode(Chunk(DATA, bytes, 0)), found, Absorb)) ==
            Ok(Pcm16Wav(RATE, bytes))
  {
    var fmt, data := Chunk(FMT, FmtBody(1), 0), Chunk(DATA, bytes, 0);
    FmtReadsBack();
    ScanChunk(fmt, Encode(data), found, Absorb);
    assert Encode(data) + [] == Encode(data);
    ScanChunk(data, [], found.(rate := Some(RATE)), Absorb);
  }

  /** Parsing what was printed returns the samples and their format. */
  lemma ParseInvertsPrint(bytes: seq<Byte>)
    requires 36 + |bytes| < 0x1_0000_0000
    ensures Parse(Header(1, |bytes|) + bytes) == if |bytes| % 2 == 0 then Ok(Pcm16Wav(RATE, bytes)) else Err(OddData)
  {
    if |bytes| % 2 == 0 {
      PrintedAsChunks(bytes);
      ParseStarts(Le32(36 + |bytes|), Encode(Chunk(FMT, FmtBody(1), 0)) + Encode(Chunk(DATA, bytes, 0)));
      ScanPrinted(bytes, Found(None, None));
    } else {
      OddPrintIsRefused(bytes);
    }
  }

  /** The printer adds no pad byte, so an odd payload is the last chunk unpadded, and the parser refuses it. */
  lemma OddPrintIsRefused(bytes: seq<Byte>)
    requires 36 + |bytes| < 0x1_0000_0000 && |bytes| % 2 == 1
    ensures Parse(Header(1, |bytes|) + bytes) == Err(OddData)
  {
    var fmt := Chunk(FMT, FmtBody(1), 0);
    var last := DATA + Le32(|bytes|) + bytes;
    assert Header(1, |bytes|) + bytes == RIFF + Le32(36 + |bytes|) + WAVE + (Encode(fmt) + last);
    ParseStarts(Le32(36 + |bytes|), Encode(fmt) + last);
    FmtReadsBack();
    ScanChunk(fmt, last, Found(None, None), Absorb);
    ScanOddData(bytes, Some(RATE));
  }

  lemma ScanOddData(bytes: seq<Byte>, rate: Option<nat>)
    requires |bytes| < 0x1_0000_0000 && |bytes| % 2 == 1 && rate.Some?
    ensures Outcome(Scan(DATA + Le32(|bytes|) + bytes, Found(rate, None), Absorb)) == Err(OddData)
  {
    var last := DATA + Le32(|bytes|) + bytes;
    assert last[..4] == DATA && last[4..8] == Le32(|bytes|) && last[8..8 + |bytes|] == bytes;
    Le32RoundTrip(|bytes|);
    ScanFirst(last, DATA, bytes, [], Found(rate, None), Absorb);
  }
}
