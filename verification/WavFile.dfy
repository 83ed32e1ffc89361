/** The RIFF/WAVE walker: the last format and data chunks of a padded chunk list. */
module WavFile {
  import opened Options
  import opened ByteCodes

  datatype Error = NotWav | TruncatedChunk | TruncatedFormat | MissingChunks | UnsupportedLayout
  datatype Result<+T> = Ok(value: T) | Err(error: Error)

  datatype Format = Format(channels: nat, sampleRate: nat, bits: nat)
  datatype Info = Info(format: Format, duration: real)

  const RIFF: seq<Byte> := [0x52, 0x49, 0x46, 0x46]
  const WAVE: seq<Byte> := [0x57, 0x41, 0x56, 0x45]
  const FMT: seq<Byte> := [0x66, 0x6D, 0x74, 0x20]
  const DATA: seq<Byte> := [0x64, 0x61, 0x74, 0x61]

  /** What the walk has seen so far. */
  datatype Seen = Seen(fmt: Option<Format>, data: Option<nat>)

  function FormatOf(body: seq<Byte>): Format
    requires |body| >= 16
  {
    Format(Little(body[2..4]), Little(body[4..8]), Little(body[14..16]))
  }

  /** The two chunks after the walk. */
  function Conclude(seen: Seen): Result<Info> {
    if seen.fmt.None? || seen.data.None? then Err(MissingChunks)
    else
      var f := seen.fmt.value;
      if f.channels < 1 || f.sampleRate < 1 || f.bits < 8 then Err(UnsupportedLayout)
      else Ok(Info(f, Seconds(seen.data.value, f)))
  }

  function Seconds(bytes: nat, f: Format): real
    requires f.channels >= 1 && f.sampleRate >= 1 && f.bits >= 8
  {
    FrameBytesPositive(f);
    bytes as real / (f.sampleRate * f.channels * (f.bits / 8)) as real
  }

  lemma FrameBytesPositive(f: Format)
    requires f.channels >= 1 && f.sampleRate >= 1 && f.bits >= 8
    ensures f.sampleRate * f.channels * (f.bits / 8) >= 1
  {
    Positive(f.sampleRate, f.channels);
    Positive(f.sampleRate * f.channels, f.bits / 8);
  }

  lemma Positive(a: nat, b: nat)
    requires a >= 1 && b >= 1
    ensures a * b >= 1
  {
  }

  /** The walk from `index`. */
  function Walk(raw: seq<Byte>, index: nat, seen: Seen): Result<Seen>
    decreases |raw| - index
  {
    if index + 8 > |raw| then Ok(seen)
    else
      var size := Little(raw[index + 4..index + 8]);
      var body := index + 8;
      if body + size > |raw| then Err(TruncatedChunk)
      else
        var next := Visit(raw[index..index + 4], raw[body..body + size], seen);
        if next.Err? then next else Walk(raw, body + size + size % 2, next.value)
  }

  /** One chunk. */
  function Visit(id: seq<Byte>, body: seq<Byte>, seen: Seen): Result<Seen> {
    if id == FMT then
      if |body| < 16 then Err(TruncatedFormat) else Ok(seen.(fmt := Some(FormatOf(body))))
    else if id == DATA then Ok(seen.(data := Some(|body|)))
    else Ok(seen)
  }

  lemma FormatInPlace(raw: seq<Byte>, body: nat, size: nat)
    requires 16 <= size && body + size <= |raw|
    ensures FormatOf(raw[body..body + size]) ==
            Format(Little(raw[body + 2..body + 4]), Little(raw[body + 4..body + 8]), Little(raw[body + 14..body + 16]))
  {
    Within(raw, body, size, 2, 4);
    Within(raw, body, size, 4, 8);
    Within(raw, body, size, 14, 16);
  }

  /** The walker. */
  method DecodeWav(raw: seq<Byte>) returns (r: Result<Info>)
    ensures r == Decoded(raw)
  {
    if |raw| < 12 || raw[..4] != RIFF || raw[8..12] != WAVE {
      return Err(NotWav);
    }
    var index := 12;
    var fmt: Option<Format> := None;
    var dataLen: Option<nat> := None;
    while index + 8 <= |raw|
      invariant Walk(raw, 12, Seen(None, None)) == Walk(raw, index, Seen(fmt, dataLen))
      decreases |raw| - index
    {
      var chunk := raw[index..index + 4];
      var size := Little(raw[index + 4..index + 8]);
      var body := index + 8;
      if body + size > |raw| {
        return Err(TruncatedChunk);
      }
      if chunk == FMT {
        if size < 16 {
          return Err(TruncatedFormat);
        }
        FormatInPlace(raw, body, size);
        fmt := Some(Format(Little(raw[body + 2..body + 4]), Little(raw[body + 4..body + 8]),
                           Little(raw[body + 14..body + 16])));
      } else if chunk == DATA {
        dataLen := Some(size);
      }
      index := body + size + size % 2;
    }
    if fmt.None? || dataLen.None? {
      return Err(MissingChunks);
    }
    var f := fmt.value;
    if f.channels < 1 || f.sampleRate < 1 || f.bits < 8 {
      return Err(UnsupportedLayout);
    }
    r := Ok(Info(f, Seconds(dataLen.value, f)));
  }

  function Decoded(raw: seq<Byte>): Result<Info> {
    if |raw| < 12 || raw[..4] != RIFF || raw[8..12] != WAVE then Err(NotWav)
    else
      var seen := Walk(raw, 12, Seen(None, None));
      if seen.Err? then Err(seen.error) else Conclude(seen.value)
  }

  // ------------------------------------------------------------------- chunk lists

  /** A chunk with its padding byte, which is written only after an odd body. */
  datatype Chunk = Chunk(id: seq<Byte>, body: seq<Byte>, pad: Byte)

  predicate WellFormed(c: Chunk) {
    |c.id| == 4 && |c.body| < 0x1_0000_0000
  }

  function ChunkBytes(c: Chunk): seq<Byte> {
    c.id + LittleBytes(|c.body|, 4) + c.body + (if |c.body| % 2 == 1 then [c.pad] else [])
  }

  function ListBytes(chunks: seq<Chunk>): seq<Byte> {
    if chunks == [] then [] else ChunkBytes(chunks[0]) + ListBytes(chunks[1..])
  }

  function FileBytes(sizeField: seq<Byte>, chunks: seq<Chunk>, trailing: seq<Byte>): seq<Byte> {
    RIFF + sizeField + WAVE + ListBytes(chunks) + trailing
  }

  /** The chunks visited in order: the first malformed format chunk stops, otherwise later
      ones win. */
  function Summary(chunks: seq<Chunk>, seen: Seen): Result<Seen>
    decreases |chunks|
  {
    if chunks == [] then Ok(seen)
    else
      var next := Visit(chunks[0].id, chunks[0].body, seen);
      if next.Err? then next else Summary(chunks[1..], next.value)
  }

  /** The middle part of a stretch that stands after `a`. */
  lemma PartOf(a: seq<Byte>, x: seq<Byte>, m: seq<Byte>, y: seq<Byte>, b: seq<Byte>)
    ensures var raw, at := a + (x + m + y) + b, |a| + |x|;
            at + |m| <= |raw| && raw[at..at + |m|] == m
  {
    var raw, at := a + (x + m + y) + b, |a| + |x|;
    var found := raw[at..at + |m|];
    forall k | 0 <= k < |m|
      ensures found[k] == m[k]
    {
      assert raw[at + k] == (x + m + y)[|x| + k];
    }
  }

  /** A chunk stands at `at`. */
  predicate ChunkAt(raw: seq<Byte>, at: nat, c: Chunk) {
    && at + 8 + |c.body| <= |raw| && raw[at..at + 4] == c.id
    && Little(raw[at + 4..at + 8]) == |c.body| && raw[at + 8..at + 8 + |c.body|] == c.body
  }

  /** A chunk at the front of what is left is read as itself. */
  lemma ReadsChunk(raw: seq<Byte>, at: nat, c: Chunk, tail: seq<Byte>)
    requires at <= |raw| && raw[at..] == ChunkBytes(c) + tail && WellFormed(c)
    ensures ChunkAt(raw, at, c) && at + 8 + |c.body| + |c.body| % 2 <= |raw|
    ensures raw[at + 8 + |c.body| + |c.body| % 2..] == tail
  {
    var size, pad := LittleBytes(|c.body|, 4), if |c.body| % 2 == 1 then [c.pad] else [];
    WidthsAre();
    LittleRoundTrip(|c.body|, 4);
    var left := raw[at..];
    ChunkParts(c.id, size, c.body, pad, tail);
    Suffix(raw, at, 0, 4);
    Suffix(raw, at, 4, 8);
    Suffix(raw, at, 8, 8 + |c.body|);
    SuffixStep(raw, at, ChunkBytes(c), tail);
  }

  lemma SuffixStep(raw: seq<Byte>, at: nat, one: seq<Byte>, tail: seq<Byte>)
    requires at <= |raw| && raw[at..] == one + tail
    ensures at + |one| <= |raw| && raw[at + |one|..] == tail
  {
    var rest := raw[at + |one|..];
    forall k | 0 <= k < |tail|
      ensures rest[k] == tail[k]
    {
      assert raw[at..][|one| + k] == (one + tail)[|one| + k];
    }
  }

  lemma ChunkParts(id: seq<Byte>, size: seq<Byte>, body: seq<Byte>, pad: seq<Byte>, after: seq<Byte>)
    requires |id| == 4 && |size| == 4
    ensures var left := (id + size + body + pad) + after;
            && 8 + |body| <= |left|
            && left[0..4] == id && left[4..8] == size && left[8..8 + |body|] == body
  {
    assert [] + (id + size + body + pad) + after == (id + size + body + pad) + after;
    assert [] + id + (size + body + pad) == id + size + body + pad;
    PartOf([], [], id, size + body + pad, after);
    assert id + size + (body + pad) == id + size + body + pad;
    PartOf([], id, size, body + pad, after);
    PartOf([], id + size, body, pad, after);
  }

  lemma WalkStep(raw: seq<Byte>, at: nat, c: Chunk, seen: Seen)
    requires ChunkAt(raw, at, c)
    ensures var next := Visit(c.id, c.body, seen);
            Walk(raw, at, seen) == if next.Err? then next else Walk(raw, at + 8 + |c.body| + |c.body| % 2, next.value)
  {
  }

  lemma ListStep(raw: seq<Byte>, at: nat, chunks: seq<Chunk>, trailing: seq<Byte>)
    requires chunks != [] && WellFormed(chunks[0])
    requires at <= |raw| && raw[at..] == ListBytes(chunks) + trailing
    ensures var c, next := chunks[0], at + 8 + |chunks[0].body| + |chunks[0].body| % 2;
            ChunkAt(raw, at, c) && next <= |raw| && raw[next..] == ListBytes(chunks[1..]) + trailing
  {
    Regroup(ChunkBytes(chunks[0]), ListBytes(chunks[1..]), trailing);
    ReadsChunk(raw, at, chunks[0], ListBytes(chunks[1..]) + trailing);
  }

  /** Where the chunk after the one at `at` begins. */
  function Next(at: nat, c: Chunk): nat { at + 8 + |c.body| + |c.body| % 2 }

  /** The chunks stand one after the other from `at` to `end`. */
  predicate ListAt(raw: seq<Byte>, at: nat, chunks: seq<Chunk>, end: nat)
    decreases |chunks|
  {
    if chunks == [] then at == end
    else ChunkAt(raw, at, chunks[0]) && ListAt(raw, Next(at, chunks[0]), chunks[1..], end)
  }

  lemma {:induction false} ListStands(raw: seq<Byte>, at: nat, chunks: seq<Chunk>, trailing: seq<Byte>)
    requires forall i :: 0 <= i < |chunks| ==> WellFormed(chunks[i])
    requires at <= |raw| && raw[at..] == ListBytes(chunks) + trailing
    ensures |trailing| <= |raw| && ListAt(raw, at, chunks, |raw| - |trailing|)
    decreases |chunks|
  {
    if chunks == [] {
      assert |raw[at..]| == |trailing|;
    } else {
      ListStep(raw, at, chunks, trailing);
      ListStands(raw, Next(at, chunks[0]), chunks[1..], trailing);
    }
  }

  lemma {:induction false} WalkReadsList(raw: seq<Byte>, at: nat, chunks: seq<Chunk>, end: nat, seen: Seen)
    requires ListAt(raw, at, chunks, end) && |raw| < end + 8
    ensures Walk(raw, at, seen) == Summary(chunks, seen)
    decreases |chunks|
  {
    if chunks != [] {
      WalkStep(raw, at, chunks[0], seen);
      var next := Visit(chunks[0].id, chunks[0].body, seen);
      if next.Ok? {
        WalkReadsList(raw, Next(at, chunks[0]), chunks[1..], end, next.value);
      }
    }
  }

  /** Round trip: for every padded chunk list, whatever the RIFF size field and up to seven
      stray bytes at the end, decoding the file concludes from the chunks in order. */
  lemma WavRoundTrip(sizeField: seq<Byte>, chunks: seq<Chunk>, trailing: seq<Byte>)
    requires |sizeField| == 4 && |trailing| < 8
    requires forall i :: 0 <= i < |chunks| ==> WellFormed(chunks[i])
    ensures var seen := Summary(chunks, Seen(None, None));
            Decoded(FileBytes(sizeField, chunks, trailing)) ==
            if seen.Err? then Err(seen.error) else Conclude(seen.value)
  {
    Header(RIFF, sizeField, WAVE, ListBytes(chunks), trailing);
    WalksList(FileBytes(sizeField, chunks, trailing), 12, chunks, trailing, Seen(None, None));
  }

  lemma WalksList(raw: seq<Byte>, at: nat, chunks: seq<Chunk>, trailing: seq<Byte>, seen: Seen)
    requires forall i :: 0 <= i < |chunks| ==> WellFormed(chunks[i])
    requires at <= |raw| && raw[at..] == ListBytes(chunks) + trailing && |trailing| < 8
    ensures Walk(raw, at, seen) == Summary(chunks, seen)
  {
    ListStands(raw, at, chunks, trailing);
    WalkReadsList(raw, at, chunks, |raw| - |trailing|, seen);
  }

  lemma Header(a: seq<Byte>, b: seq<Byte>, c: seq<Byte>, list: seq<Byte>, trailing: seq<Byte>)
    requires |a| == |b| == |c| == 4
    ensures var raw := a + b + c + list + trailing;
            |raw| >= 12 && raw[..4] == a && raw[8..12] == c && raw[12..] == list + trailing
  {
  }

  /** The last format and data chunks decide. */
  lemma {:induction false} LastChunksDecide(chunks: seq<Chunk>, seen: Seen, f: nat, d: nat)
    requires forall i :: 0 <= i < |chunks| && chunks[i].id == FMT ==> |chunks[i].body| >= 16
    requires f < |chunks| && chunks[f].id == FMT && (forall i :: f < i < |chunks| ==> chunks[i].id != FMT)
    requires d < |chunks| && chunks[d].id == DATA && (forall i :: d < i < |chunks| ==> chunks[i].id != DATA)
    ensures Summary(chunks, seen) == Ok(Seen(Some(FormatOf(chunks[f].body)), Some(|chunks[d].body|)))
    decreases |chunks|
  {
    var next := Visit(chunks[0].id, chunks[0].body, seen).value;
    var rest := chunks[1..];
    assert FMT[0] != DATA[0];
    if f == 0 {
      OnlyData(rest, next, d - 1);
    } else if d == 0 {
      OnlyFormat(rest, next, f - 1);
    } else {
      LastChunksDecide(rest, next, f - 1, d - 1);
    }
  }

  lemma {:induction false} OnlyData(chunks: seq<Chunk>, seen: Seen, d: nat)
    requires forall i :: 0 <= i < |chunks| ==> chunks[i].id != FMT
    requires d < |chunks| && chunks[d].id == DATA && (forall i :: d < i < |chunks| ==> chunks[i].id != DATA)
    ensures Summary(chunks, seen) == Ok(seen.(data := Some(|chunks[d].body|)))
    decreases |chunks|
  {
    var next := Visit(chunks[0].id, chunks[0].body, seen).value;
    if d == 0 {
      Neither(chunks[1..], next);
    } else {
      OnlyData(chunks[1..], next, d - 1);
    }
  }

  lemma {:induction false} OnlyFormat(chunks: seq<Chunk>, seen: Seen, f: nat)
    requires forall i :: 0 <= i < |chunks| ==> chunks[i].id != DATA
    requires forall i :: 0 <= i < |chunks| && chunks[i].id == FMT ==> |chunks[i].body| >= 16
    requires f < |chunks| && chunks[f].id == FMT && (forall i :: f < i < |chunks| ==> chunks[i].id != FMT)
    ensures Summary(chunks, seen) == Ok(seen.(fmt := Some(FormatOf(chunks[f].body))))
    decreases |chunks|
  {
    var next := Visit(chunks[0].id, chunks[0].body, seen).value;
    if f == 0 {
      Neither(chunks[1..], next);
    } else {
      OnlyFormat(chunks[1..], next, f - 1);
    }
  }

  lemma {:induction false} Neither(chunks: seq<Chunk>, seen: Seen)
    requires forall i :: 0 <= i < |chunks| ==> chunks[i].id != DATA && chunks[i].id != FMT
    ensures Summary(chunks, seen) == Ok(seen)
    decreases |chunks|
  {
    if chunks != [] {
      Neither(chunks[1..], seen);
    }
  }

  /** A format body as a writer lays it out: `tag`, `rate` and `align` are not read back. */
  function FormatBody(f: Format, tag: seq<Byte>, rate: seq<Byte>, align: seq<Byte>, extra: seq<Byte>): seq<Byte> {
    tag + LittleBytes(f.channels, 2) + LittleBytes(f.sampleRate, 4) + rate + align + LittleBytes(f.bits, 2) + extra
  }

  lemma FormatParts(tag: seq<Byte>, a: seq<Byte>, b: seq<Byte>, rate: seq<Byte>, align: seq<Byte>, c: seq<Byte>,
                    extra: seq<Byte>)
    requires |tag| == |a| == |align| == |c| == 2 && |b| == |rate| == 4
    ensures var body := tag + a + b + rate + align + c + extra;
            |body| >= 16 && body[2..4] == a && body[4..8] == b && body[14..16] == c
  {
  }

  /** Every format whose fields fit theirs is read back from its body. */
  lemma FormatRoundTrip(f: Format, tag: seq<Byte>, rate: seq<Byte>, align: seq<Byte>, extra: seq<Byte>)
    requires f.channels < 0x1_0000 && f.sampleRate < 0x1_0000_0000 && f.bits < 0x1_0000
    requires |tag| == 2 && |rate| == 4 && |align| == 2
    ensures var body := FormatBody(f, tag, rate, align, extra); |body| >= 16 && FormatOf(body) == f
  {
    WidthsAre();
    LittleRoundTrip(f.channels, 2);
    LittleRoundTrip(f.sampleRate, 4);
    LittleRoundTrip(f.bits, 2);
    FormatParts(tag, LittleBytes(f.channels, 2), LittleBytes(f.sampleRate, 4), rate, align, LittleBytes(f.bits, 2),
                extra);
  }
}
