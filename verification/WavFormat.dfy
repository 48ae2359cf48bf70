/** What a file has to look like for the WAV parser to accept it, and what it then reads: the chunks of the file as a
    list, without scanning. */
module WavFormat {
  import opened Wrappers
  import opened WavCodec

  datatype Part = Part(tag: seq<Byte>, body: seq<Byte>)

  /** Four bytes as a number, least significant first. */
  function Word(s: seq<Byte>, at: nat): nat
    requires at + 4 <= |s|
  {
    s[at] as int + 0x100 * s[at + 1] as int + 0x1_0000 * s[at + 2] as int + 0x100_0000 * s[at + 3] as int
  }

  /** The bytes begin with this chunk. */
  ghost predicate Leads(rest: seq<Byte>, p: Part) {
    8 + |p.body| <= |rest| && p.tag == rest[..4] && Word(rest, 4) == |p.body| && p.body == rest[8..8 + |p.body|]
  }

  /** What comes after it and its padding to even length, if the file does not end before. */
  function Behind(rest: seq<Byte>, p: Part): seq<Byte> { Drop(rest, 8 + |p.body| + |p.body| % 2) }

  /** The bytes are these chunks and fewer than eight bytes more. */
  ghost predicate Chain(rest: seq<Byte>, parts: seq<Part>)
    decreases |parts|
  {
    if parts == [] then |rest| < 8 else Leads(rest, parts[0]) && Chain(Behind(rest, parts[0]), parts[1..])
  }

  /** The body of the last chunk with this tag. */
  function LastBody(parts: seq<Part>, tag: seq<Byte>): Option<seq<Byte>>
    decreases |parts|
  {
    if parts == [] then None
    else
      var later := LastBody(parts[1..], tag);
      if later.Some? then later else if parts[0].tag == tag then Some(parts[0].body) else None
  }

  /** Uncompressed, one channel, sixteen bits, at a rate that the pipeline knows. */
  predicate IsFormat(body: seq<Byte>) {
    && 16 <= |body|
    && body[0] == 1 && body[1] == 0 && body[2] == 1 && body[3] == 0 && body[14] == 16 && body[15] == 0
    && Word(body, 4) in {8_000, 16_000, 22_050, 24_000, 44_100, 48_000}
  }

  /** "fmt " and "data" */
  const FORMAT_TAG: seq<Byte> := ['f' as int, 'm' as int, 't' as int, ' ' as int]
  const DATA_TAG: seq<Byte> := ['d' as int, 'a' as int, 't' as int, 'a' as int]

  ghost predicate AllFormats(parts: seq<Part>) { forall p :: p in parts && p.tag == FORMAT_TAG ==> IsFormat(p.body) }

  /** These chunks hold this audio. */
  ghost predicate Holds(parts: seq<Part>, w: Pcm16Wav) {
    && AllFormats(parts)
    && LastBody(parts, FORMAT_TAG).Some? && LastBody(parts, DATA_TAG) == Some(w.bytes) && |w.bytes| % 2 == 0
    && 16 <= |LastBody(parts, FORMAT_TAG).value| && w.rate == Word(LastBody(parts, FORMAT_TAG).value, 4)
  }

  ghost predicate StartsAsWave(file: seq<Byte>) {
    && 12 <= |file| && file[0] == 'R' as int && file[1] == 'I' as int && file[2] == 'F' as int && file[3] == 'F' as int
    && file[8] == 'W' as int && file[9] == 'A' as int && file[10] == 'V' as int && file[11] == 'E' as int
  }

  // ----- The scan over a chain -----

  lemma WordIs(s: seq<Byte>, at: nat)
    requires at + 4 <= |s|
    ensures U32(s, at) == Word(s, at)
  {
    assert s[at..at + 4] == [s[at], s[at + 1], s[at + 2], s[at + 3]];
    FromFour(s[at], s[at + 1], s[at + 2], s[at + 3]);
  }

  lemma HalfIs(s: seq<Byte>, at: nat)
    requires at + 2 <= |s|
    ensures U16(s, at) == s[at] as int + 0x100 * s[at + 1] as int
  {
    assert s[at..at + 2] == [s[at], s[at + 1]];
    FromTwo(s[at], s[at + 1]);
  }

  lemma FormatIs(body: seq<Byte>)
    ensures ReadFmt(body).Ok? <==> IsFormat(body)
    ensures IsFormat(body) ==> ReadFmt(body) == Ok(Word(body, 4))
  {
    if 16 <= |body| {
      WordIs(body, 4);
      HalfIs(body, 0);
      HalfIs(body, 2);
      HalfIs(body, 14);
    }
  }

  function Fold<S>(state: S, parts: seq<Part>, handle: Handler<S>): Result<S, WavError>
    decreases |parts|
  {
    if parts == [] then Ok(state)
    else
      match handle(state, parts[0].tag, parts[0].body)
      case Err(e) => Err(e)
      case Ok(next) => Fold(next, parts[1..], handle)
  }

  lemma PartIsScanned<S>(rest: seq<Byte>, p: Part, state: S, handle: Handler<S>)
    requires Leads(rest, p)
    ensures Scan(rest, state, handle) == ScanOn(handle(state, p.tag, p.body), Behind(rest, p), handle)
  {
    WordIs(rest, 4);
    ScanFirst(rest, p.tag, p.body, Behind(rest, p), state, handle);
  }

  lemma {:induction false} ChainIsScanned<S>(rest: seq<Byte>, parts: seq<Part>, state: S, handle: Handler<S>)
    requires Chain(rest, parts)
    ensures Scan(rest, state, handle) == Fold(state, parts, handle)
    decreases |parts|
  {
    if parts != [] {
      PartIsScanned(rest, parts[0], state, handle);
      var next := handle(state, parts[0].tag, parts[0].body);
      if next.Ok? { ChainIsScanned(Behind(rest, parts[0]), parts[1..], next.value, handle); }
    }
  }

  /** A scan that ends well has met a chain. */
  lemma {:induction false} ScannedIsChain<S>(rest: seq<Byte>, state: S, handle: Handler<S>) returns (parts: seq<Part>)
    requires Scan(rest, state, handle).Ok?
    ensures Chain(rest, parts)
    decreases |rest|
  {
    if |rest| < 8 { return []; }
    var p := FirstPart(rest, state, handle);
    PartIsScanned(rest, p, state, handle);
    var more := ScannedIsChain(Behind(rest, p), handle(state, p.tag, p.body).value, handle);
    parts := [p] + more;
    assert parts[1..] == more;
  }

  lemma FirstPart<S>(rest: seq<Byte>, state: S, handle: Handler<S>) returns (p: Part)
    requires 8 <= |rest| && Scan(rest, state, handle).Ok?
    ensures Leads(rest, p) && |Behind(rest, p)| < |rest|
  {
    WordIs(rest, 4);
    var n := U32(rest, 4);
    if 8 + n > |rest| { ScanTruncated(rest, state, handle); }
    p := Part(rest[..4], rest[8..8 + n]);
  }

  /** The later of a chunk's body and what was found before it. */
  ghost predicate Sums(before: Found, parts: seq<Part>, after: Found) {
    && after.data == (if LastBody(parts, DATA_TAG).Some? then LastBody(parts, DATA_TAG) else before.data)
    && match LastBody(parts, FORMAT_TAG)
       case None => after.rate == before.rate
       case Some(body) => 16 <= |body| && after.rate == Some(Word(body, 4))
  }

  lemma TagsAre()
    ensures FMT == FORMAT_TAG && DATA == DATA_TAG && FMT != DATA
  {
  }

  lemma {:induction false} AbsorbedAll(found: Found, parts: seq<Part>)
    ensures Fold(found, parts, Absorb).Ok? <==> AllFormats(parts)
    ensures Fold(found, parts, Absorb).Ok? ==> Sums(found, parts, Fold(found, parts, Absorb).value)
    decreases |parts|
  {
    if parts != [] {
      TagsAre();
      FormatIs(parts[0].body);
      assert parts == [parts[0]] + parts[1..];
      var next := Absorb(found, parts[0].tag, parts[0].body);
      if next.Ok? { AbsorbedAll(next.value, parts[1..]); }
    }
  }

  lemma ChunksConclude(rest: seq<Byte>, parts: seq<Part>, w: Pcm16Wav)
    requires Chain(rest, parts)
    ensures Outcome(Scan(rest, Found(None, None), Absorb)) == Ok(w) <==> Holds(parts, w)
  {
    ChainIsScanned(rest, parts, Found(None, None), Absorb);
    AbsorbedAll(Found(None, None), parts);
  }

  lemma StartIs(file: seq<Byte>)
    ensures StartsAsWave(file) <==> 12 <= |file| && file[..4] == RIFF && file[8..12] == WAVE
  {
    if 12 <= |file| {
      assert file[..4] == [file[0], file[1], file[2], file[3]];
      assert file[8..12] == [file[8], file[9], file[10], file[11]];
    }
  }

  /** A file is read as this audio if and only if it is a RIFF/WAVE file of whole chunks, all of whose format chunks are
      mono 16-bit PCM at a known rate, and whose last format and last data chunk say so. */
  lemma ParsesIff(file: seq<Byte>, w: Pcm16Wav)
    ensures Parse(file) == Ok(w) <==>
      StartsAsWave(file) && exists parts :: Chain(file[12..], parts) && Holds(parts, w)
  {
    StartIs(file);
    if StartsAsWave(file) {
      if Parse(file) == Ok(w) {
        var parts := ScannedIsChain(file[12..], Found(None, None), Absorb);
        ChunksConclude(file[12..], parts, w);
      }
      forall parts | Chain(file[12..], parts) && Holds(parts, w) ensures Parse(file) == Ok(w) {
        ChunksConclude(file[12..], parts, w);
      }
    }
  }
}
