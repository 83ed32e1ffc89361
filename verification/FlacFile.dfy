/** The FLAC metadata walker: the first STREAMINFO block and its packed fields. */
module FlacFile {
  import opened Options
  import opened ByteCodes

  datatype Error = NotFlac | TruncatedStreamInfo | InvalidSampleRate | MissingStreamInfo
  datatype Result<+T> = Ok(value: T) | Err(error: Error)

  /** `duration` is unknown when the sample count is. */
  datatype Info = Info(channels: nat, sampleRate: nat, bits: nat, duration: Option<real>)

  const FLAC: seq<Byte> := [0x66, 0x4C, 0x61, 0x43]

  // ------------------------------------------------------------- the packed fields

  datatype Fields = Fields(sampleRate: nat, channels: nat, bits: nat, totalSamples: nat)

  /** Field widths 20, 3, 5 and 36; channels and bits are stored less one. */
  predicate FieldsFit(f: Fields) {
    f.sampleRate < 0x10_0000 && 1 <= f.channels <= 8 && 1 <= f.bits <= 32 && f.totalSamples < 0x10_0000_0000
  }

  function Pack(f: Fields): nat
    requires FieldsFit(f)
  {
    f.sampleRate * 0x1000_0000_0000 + (f.channels - 1) * 0x200_0000_0000
    + (f.bits - 1) * 0x10_0000_0000 + f.totalSamples
  }

  /** The shifts and masks of the decoder. */
  function Unpack(packed: nat): Fields {
    Fields(packed / 0x1000_0000_0000 % 0x10_0000,
           packed / 0x200_0000_0000 % 8 + 1,
           packed / 0x10_0000_0000 % 32 + 1,
           packed % 0x10_0000_0000)
  }

  lemma Above36(q: nat, r: nat)
    requires r < 0x10_0000_0000
    ensures (q * 0x10_0000_0000 + r) / 0x10_0000_0000 == q && (q * 0x10_0000_0000 + r) % 0x10_0000_0000 == r
  {
  }

  lemma Above41(q: nat, r: nat)
    requires r < 0x200_0000_0000
    ensures (q * 0x200_0000_0000 + r) / 0x200_0000_0000 == q
  {
  }

  lemma Above44(q: nat, r: nat)
    requires r < 0x1000_0000_0000
    ensures (q * 0x1000_0000_0000 + r) / 0x1000_0000_0000 == q
  {
  }

  lemma BitsAndTotal(f: Fields)
    requires FieldsFit(f)
    ensures Pack(f) % 0x10_0000_0000 == f.totalSamples
    ensures Pack(f) / 0x10_0000_0000 % 32 + 1 == f.bits
  {
    var upper := f.sampleRate * 8 + (f.channels - 1);
    assert Pack(f) == (upper * 32 + (f.bits - 1)) * 0x10_0000_0000 + f.totalSamples;
    Above36(upper * 32 + (f.bits - 1), f.totalSamples);
    LowFive(upper, f.bits - 1);
  }

  lemma LowFive(q: nat, r: nat)
    requires r < 32
    ensures (q * 32 + r) % 32 == r
  {
  }

  lemma ChannelsField(f: Fields)
    requires FieldsFit(f)
    ensures Pack(f) / 0x200_0000_0000 % 8 + 1 == f.channels
  {
    Above41(f.sampleRate * 8 + (f.channels - 1), (f.bits - 1) * 0x10_0000_0000 + f.totalSamples);
  }

  lemma RateField(f: Fields)
    requires FieldsFit(f)
    ensures Pack(f) / 0x1000_0000_0000 % 0x10_0000 == f.sampleRate
  {
    Above44(f.sampleRate, (f.channels - 1) * 0x200_0000_0000 + (f.bits - 1) * 0x10_0000_0000 + f.totalSamples);
  }

  /** Packing and unpacking are inverse, both ways. */
  lemma PackUnpack(f: Fields)
    requires FieldsFit(f)
    ensures Pack(f) < 0x1_0000_0000_0000_0000 && Unpack(Pack(f)) == f
  {
    BitsAndTotal(f);
    ChannelsField(f);
    RateField(f);
  }

  lemma UnpackPack(packed: nat)
    requires packed < 0x1_0000_0000_0000_0000
    ensures FieldsFit(Unpack(packed)) && Pack(Unpack(packed)) == packed
  {
    var high := packed / 0x10_0000_0000;
    assert packed / 0x200_0000_0000 == high / 32;
    assert packed / 0x1000_0000_0000 == high / 32 / 8;
  }

  function Duration(f: Fields): Option<real>
    requires f.sampleRate >= 1
  {
    if f.totalSamples == 0 then None else Some(f.totalSamples as real / f.sampleRate as real)
  }

  // ------------------------------------------------------------------- the walker

  /** `raw[lo:hi]` as Python slices it: cut at the end of the bytes. */
  function Slice(raw: seq<Byte>, lo: nat, hi: nat): seq<Byte>
    requires lo <= hi
  {
    if lo >= |raw| then [] else raw[lo..if hi < |raw| then hi else |raw|]
  }

  function StreamInfo(length: nat, body: seq<Byte>): Result<Info> {
    if length < 34 then Err(TruncatedStreamInfo)
    else
      var f := Unpack(Big(Slice(body, 10, 18)));
      if f.sampleRate < 1 then Err(InvalidSampleRate)
      else Ok(Info(f.channels, f.sampleRate, f.bits, Duration(f)))
  }

  /** The walk from `index`. */
  function Walk(raw: seq<Byte>, index: nat): Result<Info>
    decreases |raw| - index
  {
    if index + 4 > |raw| then Err(MissingStreamInfo)
    else
      var length := Big(raw[index + 1..index + 4]);
      if raw[index] % 128 == 0 then StreamInfo(length, Slice(raw, index + 4, index + 4 + length))
      else if raw[index] >= 128 then Err(MissingStreamInfo)
      else Walk(raw, index + 4 + length)
  }

  function Decoded(raw: seq<Byte>): Result<Info> {
    if |raw| < 4 || raw[..4] != FLAC then Err(NotFlac) else Walk(raw, 4)
  }

  method ReadStreamInfo(length: nat, body: seq<Byte>) returns (r: Result<Info>)
    ensures r == StreamInfo(length, body)
  {
    if length < 34 {
      return Err(TruncatedStreamInfo);
    }
    var packed := Big(Slice(body, 10, 18));
    var f := Unpack(packed);
    if f.sampleRate < 1 {
      return Err(InvalidSampleRate);
    }
    r := Ok(Info(f.channels, f.sampleRate, f.bits, Duration(f)));
  }

  /** The walker. */
  method DecodeFlac(raw: seq<Byte>) returns (r: Result<Info>)
    ensures r == Decoded(raw)
  {
    if |raw| < 4 || raw[..4] != FLAC {
      return Err(NotFlac);
    }
    var index := 4;
    while index + 4 <= |raw|
      invariant Walk(raw, 4) == Walk(raw, index)
      decreases |raw| - index
    {
      var header := raw[index];
      var last := header >= 128;
      var blockType := header % 128;
      var length := Big(raw[index + 1..index + 4]);
      var body := Slice(raw, index + 4, index + 4 + length);
      if blockType == 0 {
        r := ReadStreamInfo(length, body);
        return;
      }
      if last {
        break;
      }
      index := index + 4 + length;
    }
    return Err(MissingStreamInfo);
  }

  // ------------------------------------------------------------------ block lists

  datatype Block = Block(last: bool, kind: nat, body: seq<Byte>)

  predicate WellFormed(b: Block) {
    b.kind < 128 && |b.body| < 0x100_0000
  }

  function BlockBytes(b: Block): seq<Byte>
    requires WellFormed(b)
  {
    [b.kind + if b.last then 128 else 0] + BigBytes(|b.body|, 3) + b.body
  }

  function ListBytes(blocks: seq<Block>): seq<Byte>
    requires forall i :: 0 <= i < |blocks| ==> WellFormed(blocks[i])
  {
    if blocks == [] then [] else BlockBytes(blocks[0]) + ListBytes(blocks[1..])
  }

  /** The first STREAMINFO that no last block precedes. */
  function FirstInfo(blocks: seq<Block>): Result<Info> {
    if blocks == [] then Err(MissingStreamInfo)
    else if blocks[0].kind == 0 then StreamInfo(|blocks[0].body|, blocks[0].body)
    else if blocks[0].last then Err(MissingStreamInfo)
    else FirstInfo(blocks[1..])
  }

  predicate HasLast(blocks: seq<Block>) {
    blocks != [] && (blocks[0].last || HasLast(blocks[1..]))
  }

  lemma Front(head: seq<Byte>, size: seq<Byte>, body: seq<Byte>, tail: seq<Byte>)
    requires |head| == 1 && |size| == 3
    ensures var left := head + size + body + tail;
            && |left| >= 4 + |body| && left[0] == head[0] && left[1..4] == size
            && left[4..4 + |body|] == body && left[4 + |body|..] == tail
  {
  }

  /** A block stands at `at`. */
  predicate BlockAt(raw: seq<Byte>, at: nat, b: Block) {
    && at + 4 + |b.body| <= |raw| && raw[at] % 128 == b.kind && (raw[at] >= 128 <==> b.last)
    && Big(raw[at + 1..at + 4]) == |b.body| && raw[at + 4..at + 4 + |b.body|] == b.body
  }

  /** A block at the front of what is left is read as itself. */
  lemma ReadsBlock(raw: seq<Byte>, at: nat, b: Block, tail: seq<Byte>)
    requires WellFormed(b) && at <= |raw| && raw[at..] == BlockBytes(b) + tail
    ensures BlockAt(raw, at, b) && raw[at + 4 + |b.body|..] == tail
  {
    var head, size := [b.kind + if b.last then 128 else 0], BigBytes(|b.body|, 3);
    WidthsAre();
    BigRoundTrip(|b.body|, 3);
    Front(head, size, b.body, tail);
    var left := raw[at..];
    assert left[0] == raw[at];
    Suffix(raw, at, 1, 4);
    Suffix(raw, at, 4, 4 + |b.body|);
    Suffix(raw, at, 4 + |b.body|, |left|);
    assert left[4 + |b.body|..|left|] == left[4 + |b.body|..];
    assert raw[at + 4 + |b.body|..|raw|] == raw[at + 4 + |b.body|..];
  }

  lemma WalkStep(raw: seq<Byte>, at: nat, b: Block)
    requires BlockAt(raw, at, b)
    ensures Walk(raw, at) ==
            if b.kind == 0 then StreamInfo(|b.body|, b.body)
            else if b.last then Err(MissingStreamInfo)
            else Walk(raw, at + 4 + |b.body|)
  {
    if |b.body| == 0 {
      assert Slice(raw, at + 4, at + 4) == [] == b.body;
    } else {
      assert Slice(raw, at + 4, at + 4 + |b.body|) == b.body;
    }
  }

  lemma ListStep(raw: seq<Byte>, at: nat, blocks: seq<Block>, trailing: seq<Byte>)
    requires forall i :: 0 <= i < |blocks| ==> WellFormed(blocks[i])
    requires blocks != [] && at <= |raw| && raw[at..] == ListBytes(blocks) + trailing
    ensures BlockAt(raw, at, blocks[0]) && raw[at + 4 + |blocks[0].body|..] == ListBytes(blocks[1..]) + trailing
  {
    Regroup(BlockBytes(blocks[0]), ListBytes(blocks[1..]), trailing);
    ReadsBlock(raw, at, blocks[0], ListBytes(blocks[1..]) + trailing);
  }

  /** The blocks stand one after the other from `at` to `end`. */
  predicate ListAt(raw: seq<Byte>, at: nat, blocks: seq<Block>, end: nat)
    decreases |blocks|
  {
    if blocks == [] then at == end
    else BlockAt(raw, at, blocks[0]) && ListAt(raw, at + 4 + |blocks[0].body|, blocks[1..], end)
  }

  lemma {:induction false} ListStands(raw: seq<Byte>, at: nat, blocks: seq<Block>, trailing: seq<Byte>)
    requires forall i :: 0 <= i < |blocks| ==> WellFormed(blocks[i])
    requires at <= |raw| && raw[at..] == ListBytes(blocks) + trailing
    ensures |trailing| <= |raw| && ListAt(raw, at, blocks, |raw| - |trailing|)
    decreases |blocks|
  {
    if blocks == [] {
      assert |raw[at..]| == |trailing|;
    } else {
      ListStep(raw, at, blocks, trailing);
      ListStands(raw, at + 4 + |blocks[0].body|, blocks[1..], trailing);
    }
  }

  lemma {:induction false} WalkReadsList(raw: seq<Byte>, at: nat, blocks: seq<Block>, end: nat)
    requires ListAt(raw, at, blocks, end) && (|raw| < end + 4 || HasLast(blocks))
    ensures Walk(raw, at) == FirstInfo(blocks)
    decreases |blocks|
  {
    if blocks != [] {
      WalkStep(raw, at, blocks[0]);
      if blocks[0].kind != 0 && !blocks[0].last {
        WalkReadsList(raw, at + 4 + |blocks[0].body|, blocks[1..], end);
      }
    }
  }

  /** Round trip: for every block list, decoding the file gives the first STREAMINFO before
      a last block.  What follows the blocks (the audio frames) does not matter once the
      list has a last block. */
  lemma FlacRoundTrip(blocks: seq<Block>, frames: seq<Byte>)
    requires forall i :: 0 <= i < |blocks| ==> WellFormed(blocks[i])
    requires |frames| < 4 || HasLast(blocks)
    ensures Decoded(FLAC + ListBytes(blocks) + frames) == FirstInfo(blocks)
  {
    Header(FLAC, ListBytes(blocks), frames);
    WalksList(FLAC + ListBytes(blocks) + frames, 4, blocks, frames);
  }

  lemma WalksList(raw: seq<Byte>, at: nat, blocks: seq<Block>, frames: seq<Byte>)
    requires forall i :: 0 <= i < |blocks| ==> WellFormed(blocks[i])
    requires at <= |raw| && raw[at..] == ListBytes(blocks) + frames
    requires |frames| < 4 || HasLast(blocks)
    ensures Walk(raw, at) == FirstInfo(blocks)
  {
    ListStands(raw, at, blocks, frames);
    WalkReadsList(raw, at, blocks, |raw| - |frames|);
  }

  lemma Header(magic: seq<Byte>, list: seq<Byte>, frames: seq<Byte>)
    requires |magic| == 4
    ensures var raw := magic + list + frames; |raw| >= 4 && raw[..4] == magic && raw[4..] == list + frames
  {
  }

  /** A STREAMINFO body as a writer lays it out: block and frame sizes, the packed fields,
      the checksum. */
  lemma StreamInfoRoundTrip(f: Fields, sizes: seq<Byte>, checksum: seq<Byte>)
    requires FieldsFit(f) && f.sampleRate >= 1 && |sizes| == 10 && |checksum| == 16
    ensures var body := sizes + BigBytes(Pack(f), 8) + checksum;
            StreamInfo(|body|, body) ==
            Ok(Info(f.channels, f.sampleRate, f.bits, Duration(f)))
  {
    var body := sizes + BigBytes(Pack(f), 8) + checksum;
    PackUnpack(f);
    WidthsAre();
    BigRoundTrip(Pack(f), 8);
    assert Slice(body, 10, 18) == BigBytes(Pack(f), 8);
  }

  // -------------------------------------------------------------- cut-off files

  /** A file cut inside STREAMINFO still has the header's length; only the bytes that are
      there are read. */
  function Cut(body: seq<Byte>, kept: nat): Result<Info>
    requires kept <= |body|
  {
    StreamInfo(|body|, body[..kept])
  }

  /** Such a file: the header of a STREAMINFO block, last or not, and what is left of its
      body. */
  lemma CutFile(last: bool, body: seq<Byte>, kept: nat)
    requires kept <= |body| < 0x100_0000
    ensures Decoded(FLAC + ([if last then 128 else 0] + BigBytes(|body|, 3) + body[..kept])) == Cut(body, kept)
  {
    WidthsAre();
    BigRoundTrip(|body|, 3);
    CutParts(FLAC, [if last then 128 else 0], BigBytes(|body|, 3), body, kept);
  }

  lemma CutParts(magic: seq<Byte>, header: seq<Byte>, size: seq<Byte>, body: seq<Byte>, kept: nat)
    requires |magic| == 4 && |header| == 1 && |size| == 3 && kept <= |body|
    requires header[0] % 128 == 0 && Big(size) == |body|
    ensures var raw := magic + (header + size + body[..kept]);
            |raw| >= 4 && raw[..4] == magic && Walk(raw, 4) == Cut(body, kept)
  {
    FourParts(magic, header, size, body[..kept]);
    WalkReadsCut(magic + (header + size + body[..kept]), body, kept);
  }

  lemma FourParts(magic: seq<Byte>, header: seq<Byte>, size: seq<Byte>, rest: seq<Byte>)
    requires |magic| == 4 && |header| == 1 && |size| == 3
    ensures var raw := magic + (header + size + rest);
            && |raw| == 8 + |rest| && raw[..4] == magic && raw[4] == header[0]
            && raw[5..8] == size && raw[8..] == rest
  {
  }

  lemma WalkReadsCut(raw: seq<Byte>, body: seq<Byte>, kept: nat)
    requires kept <= |body| && |raw| == 8 + kept && raw[8..] == body[..kept]
    requires raw[4] % 128 == 0 && Big(raw[5..8]) == |body|
    ensures Walk(raw, 4) == Cut(body, kept)
  {
    var seen := Slice(raw, 8, 8 + |body|);
    if kept == 0 {
      assert seen == [] == body[..kept];
    } else {
      assert 8 + |body| < |raw| ==> false;
      assert raw[8..|raw|] == raw[8..];
    }
  }

  /** Whether the facts come out as they were, or an error does. */
  predicate Undeceived(body: seq<Byte>, kept: nat)
    requires kept <= |body|
  {
    Cut(body, kept).Err? || Cut(body, kept) == StreamInfo(|body|, body)
  }

  /** The sample rate a whole STREAMINFO body states. */
  function StatedRate(body: seq<Byte>): nat
    requires 34 <= |body|
  {
    Unpack(Big(body[10..18])).sampleRate
  }

  /** Every cut of a STREAMINFO body is refused or read with its facts unchanged, except
      exactly a cut one byte short of the packed fields at a rate of 256 Hz or more, and a
      cut two bytes short at 65536 Hz or more: those are accepted at the rate divided by 256
      for every missing byte. */
  lemma CutStreamInfo(body: seq<Byte>, kept: nat)
    requires kept <= |body|
    ensures |body| < 34 ==> Cut(body, kept) == Err(TruncatedStreamInfo)
    ensures 34 <= |body| && kept >= 18 ==> Cut(body, kept) == StreamInfo(|body|, body)
    ensures 34 <= |body| && kept <= 15 ==> Cut(body, kept) == Err(InvalidSampleRate)
    ensures 34 <= |body| && kept == 17 ==> ReadsAs(Cut(body, kept), StatedRate(body) / 256)
    ensures 34 <= |body| && kept == 16 ==> ReadsAs(Cut(body, kept), StatedRate(body) / 65536)
    ensures Undeceived(body, kept) <==>
            || |body| < 34 || kept >= 18 || kept <= 15
            || (kept == 17 && StatedRate(body) < 256) || (kept == 16 && StatedRate(body) < 65536)
  {
    if |body| >= 34 {
      if kept >= 18 {
        assert Slice(body[..kept], 10, 18) == Slice(body, 10, 18);
      } else if kept <= 15 {
        var seen := Slice(body[..kept], 10, 18);
        assert |seen| <= 5;
        FewBytesNoRate(seen);
      } else {
        var packed := body[10..18];
        assert Slice(body, 10, 18) == packed && Slice(body[..kept], 10, 18) == packed[..kept - 10];
        MissingBytesDivide(packed);
      }
    }
  }

  /** Accepted at that rate, or refused if it is zero. */
  predicate ReadsAs(r: Result<Info>, rate: nat) {
    if rate == 0 then r == Err(InvalidSampleRate) else r.Ok? && r.value.sampleRate == rate
  }

  lemma MissingBytesDivide(packed: seq<Byte>)
    requires |packed| == 8
    ensures Unpack(Big(packed[..7])).sampleRate == Unpack(Big(packed)).sampleRate / 256
    ensures Unpack(Big(packed[..6])).sampleRate == Unpack(Big(packed)).sampleRate / 65536
  {
    BigBound(packed);
    WidthsAre();
    assert packed[..7][..6] == packed[..6];
    RateShifts(Big(packed[..7]), packed[7]);
    RateShifts(Big(packed[..6]), packed[6]);
  }

  lemma RateShifts(above: nat, byte: Byte)
    requires above * 256 + byte < 0x1_0000_0000_0000_0000
    ensures Unpack(above).sampleRate == Unpack(above * 256 + byte).sampleRate / 256
  {
    var q, low := above / 0x1000_0000_0000, above % 0x1000_0000_0000 * 256 + byte;
    assert low / 0x1000_0000_0000 < 256;
    Above44(q * 256 + low / 0x1000_0000_0000, low % 0x1000_0000_0000);
    Above8(q, low / 0x1000_0000_0000);
  }

  lemma Above8(q: nat, r: nat)
    requires r < 256
    ensures (q * 256 + r) / 256 == q
  {
  }

  lemma FewBytesNoRate(seen: seq<Byte>)
    requires |seen| <= 5
    ensures Unpack(Big(seen)).sampleRate == 0
  {
    BigBound(seen);
    PowGrows(|seen|, 5);
    assert Pow256(4) == 256 * Pow256(3) && Pow256(5) == 0x100_0000_0000 by {
      WidthsAre();
    }
    Above44(0, Big(seen));
  }

  lemma {:induction false} PowGrows(a: nat, b: nat)
    requires a <= b
    ensures Pow256(a) <= Pow256(b)
  {
    if a < b {
      PowGrows(a, b - 1);
    }
  }

  const SIZES: seq<Byte> := [0, 0, 0, 0, 0, 0, 0, 0, 0, 0]
  const PACKED: seq<Byte> := [0x0A, 0xC4, 0x42, 0xF0, 0, 0, 0, 1]

  /** A 44100 Hz stream cut one byte short of its packed fields reads as 172 Hz. */
  lemma CutStreamInfoMisread()
    ensures var body := SIZES + PACKED + SIZES + [0, 0, 0, 0, 0, 0];
            && Cut(body, 18).Ok? && Cut(body, 18).value.sampleRate == 44100
            && Cut(body, 17).Ok? && Cut(body, 17).value.sampleRate == 172
  {
    var body := SIZES + PACKED + SIZES + [0, 0, 0, 0, 0, 0];
    assert Slice(body[..18], 10, 18) == PACKED;
    assert Slice(body[..17], 10, 18) == PACKED[..7];
    BigOfPacked();
  }

  lemma BigOfPacked()
    ensures Big(PACKED) == 0x0AC4_42F0_0000_0001 && Big(PACKED[..7]) == 0x0A_C442_F000_0000
  {
    assert Big([]) == 0;
    assert PACKED[..7][..6] == PACKED[..6] && PACKED[..6][..5] == PACKED[..5] && PACKED[..5][..4] == PACKED[..4];
    assert PACKED[..4][..3] == PACKED[..3] && PACKED[..3][..2] == PACKED[..2] && PACKED[..2][..1] == PACKED[..1];
    assert PACKED[..1][..0] == [];
    assert Big(PACKED[..1]) == 0x0A;
    assert Big(PACKED[..2]) == 0x0AC4;
    assert Big(PACKED[..3]) == 0x0A_C442;
    assert Big(PACKED[..4]) == 0x0AC4_42F0;
    assert Big(PACKED[..5]) == 0x0A_C442_F000;
    assert Big(PACKED[..6]) == 0x0AC4_42F0_0000;
  }
}
