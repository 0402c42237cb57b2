/** Framing of Java's LZ4 block streams; the block decoder and the checksum are abstract. */
module Lz4 {
  import opened Base
  import opened Bytes

  const HEADER_LEN: nat := 21
  const MAX_DECOMPRESSED: nat := 0x400_0000
  const MAGIC: seq<byte> := [0x4C, 0x5A, 0x34, 0x42, 0x6C, 0x6F, 0x63, 0x6B]

  datatype Lz4Error = Malformed | OutputTooLarge

  /** Decode a block into a buffer of the given size; `None` is a decoder failure. */
  type Decoder = (seq<byte>, nat) -> Option<seq<byte>>

  type Checksum = seq<byte> -> u32

  datatype Codec = Codec(decode: Decoder, hash: Checksum)

  // ----- little-endian numbers -----

  function LittleEndian(n: nat, k: nat): (b: seq<byte>)
    ensures |b| == k
  {
    if k == 0 then [] else [n % 0x100] + LittleEndian(n / 0x100, k - 1)
  }

  function LowNumber(b: seq<byte>): nat {
    if b == [] then 0 else b[0] + 0x100 * LowNumber(b[1..])
  }

  lemma {:induction false} LowNumberReads(n: nat, k: nat)
    requires n < Span(k)
    ensures LowNumber(LittleEndian(n, k)) == n
    decreases k
  {
    if k > 0 {
      LowNumberReads(n / 0x100, k - 1);
      assert LittleEndian(n, k)[1..] == LittleEndian(n / 0x100, k - 1);
    }
  }

  lemma {:induction false} LowNumberWrites(b: seq<byte>)
    ensures LowNumber(b) < Span(|b|) && LittleEndian(LowNumber(b), |b|) == b
    decreases |b|
  {
    if b != [] {
      LowNumberWrites(b[1..]);
      LowByte(b[0], LowNumber(b[1..]), Span(|b| - 1));
      assert LittleEndian(LowNumber(b), |b|) == [b[0]] + LittleEndian(LowNumber(b[1..]), |b| - 1);
      assert b == [b[0]] + b[1..];
    }
  }

  lemma LowByte(x: byte, high: nat, span: nat)
    requires high < span
    ensures (x + 0x100 * high) % 0x100 == x && (x + 0x100 * high) / 0x100 == high && x + 0x100 * high < 0x100 * span
  {
  }

  // ----- blocks -----

  function PowerOfTwo(k: nat): nat {
    if k == 0 then 1 else 2 * PowerOfTwo(k - 1)
  }

  function MaxBody(level: nat): nat {
    PowerOfTwo(10 + level)
  }

  /** A block of level 0 holds a kibibyte, and each level doubles that. */
  lemma LevelsDouble(level: nat)
    ensures MaxBody(0) == 1024 && MaxBody(level + 1) == 2 * MaxBody(level)
  {
    assert PowerOfTwo(10) == 2 * PowerOfTwo(9) == 4 * PowerOfTwo(8) == 8 * PowerOfTwo(7) == 16 * PowerOfTwo(6);
    assert PowerOfTwo(6) == 2 * PowerOfTwo(5) == 4 * PowerOfTwo(4) == 8 * PowerOfTwo(3) == 16 * PowerOfTwo(2);
    assert PowerOfTwo(2) == 4;
  }

  /** A block of the stream: how it is stored and what it stands for. */
  datatype Block = Block(raw: bool, level: nat, stored: seq<byte>, plain: seq<byte>)

  ghost predicate ValidBlock(b: Block, codec: Codec) {
    && b.level < 16 && b.stored != [] && b.plain != [] && |b.stored| < 0x1_0000_0000 && |b.plain| < 0x1_0000_0000
    && |b.plain| <= MaxBody(b.level)
    && if b.raw then b.stored == b.plain else codec.decode(b.stored, |b.plain|) == Some(b.plain)
  }

  function Header(raw: bool, level: nat, storedLen: nat, plainLen: nat, checksum: nat): (h: seq<byte>)
    requires level < 16
    ensures |h| == HEADER_LEN
  {
    MAGIC + [(if raw then 0x10 else 0x20) + level]
    + LittleEndian(storedLen, 4) + LittleEndian(plainLen, 4) + LittleEndian(checksum, 4)
  }

  /** The checksum keeps its low 28 bits. */
  function Check(plain: seq<byte>, codec: Codec): nat {
    codec.hash(plain) % 0x1000_0000
  }

  function Frame(b: Block, codec: Codec): seq<byte>
    requires b.level < 16
  {
    Header(b.raw, b.level, |b.stored|, |b.plain|, Check(b.plain, codec)) + b.stored
  }

  /** Magic, method and level, both lengths, the low 28 bits of the plain checksum, then the stored bytes. */
  lemma FrameIsLaidOut(b: Block, codec: Codec)
    requires b.level < 16
    ensures var f := Frame(b, codec);
      && f[..8] == [0x4C, 0x5A, 0x34, 0x42, 0x6C, 0x6F, 0x63, 0x6B] && f[8] == (if b.raw then 16 else 32) + b.level
      && f[9..13] == LittleEndian(|b.stored|, 4) && f[13..17] == LittleEndian(|b.plain|, 4)
      && f[17..21] == LittleEndian(codec.hash(b.plain) % 0x1000_0000, 4) && f[21..] == b.stored
  {
  }

  function EndFrame(raw: bool, level: nat): seq<byte>
    requires level < 16
  {
    Header(raw, level, 0, 0, 0)
  }

  // ----- reading one block -----

  datatype Fields = Fields(raw: bool, level: nat, storedLen: nat, plainLen: nat, checksum: nat)

  /** Parse the 21 header bytes. */
  function ParseHeader(h: seq<byte>): Option<Fields>
    requires |h| == HEADER_LEN
  {
    var family := h[8] / 0x10;
    if h[..8] != MAGIC || (family != 1 && family != 2) then None
    else Some(Fields(family == 1, h[8] % 0x10, LowNumber(h[9..13]), LowNumber(h[13..17]), LowNumber(h[17..21])))
  }

  /** The checks made before any block byte is read. */
  predicate Consistent(f: Fields) {
    && f.plainLen <= PowerOfTwo(10 + f.level)
    && (f.storedLen == 0 <==> f.plainLen == 0)
    && (f.raw ==> f.storedLen == f.plainLen)
  }

  /** Expand and check one stored block. */
  function Expand(f: Fields, stored: seq<byte>, codec: Codec): Option<seq<byte>> {
    match if f.raw then Some(stored) else codec.decode(stored, f.plainLen)
    case None => None
    case Some(plain) => if |plain| != f.plainLen || Check(plain, codec) != f.checksum then None else Some(plain)
  }

  datatype Step = Failed(error: Lz4Error) | Ended | Read(block: Block, next: nat)

  function ReadStep(body: seq<byte>, pos: nat, have: nat, codec: Codec): Step {
    if pos + HEADER_LEN > |body| then Failed(Malformed)
    else
      match ParseHeader(body[pos..pos + HEADER_LEN])
      case None => Failed(Malformed)
      case Some(f) =>
        if !Consistent(f) then Failed(Malformed)
        else if f.plainLen == 0 then if f.checksum == 0 then Ended else Failed(Malformed)
        else if have + f.plainLen > MAX_DECOMPRESSED then Failed(OutputTooLarge)
        else
          var at := pos + HEADER_LEN;
          if at + f.storedLen > |body| then Failed(Malformed)
          else
            var stored := body[at..at + f.storedLen];
            match Expand(f, stored, codec)
            case None => Failed(Malformed)
            case Some(plain) => Read(Block(f.raw, f.level, stored, plain), at + f.storedLen)
  }

  lemma HeaderParts(raw: bool, level: nat, storedLen: nat, plainLen: nat, checksum: nat)
    requires level < 16
    ensures var h := Header(raw, level, storedLen, plainLen, checksum);
      && h[..8] == MAGIC && h[8] == (if raw then 0x10 else 0x20) + level && h[9..13] == LittleEndian(storedLen, 4)
      && h[13..17] == LittleEndian(plainLen, 4) && h[17..21] == LittleEndian(checksum, 4)
  {
  }

  lemma HeaderParses(raw: bool, level: nat, storedLen: nat, plainLen: nat, checksum: nat)
    requires level < 16 && storedLen < Span(4) && plainLen < Span(4) && checksum < Span(4)
    ensures ParseHeader(Header(raw, level, storedLen, plainLen, checksum))
      == Some(Fields(raw, level, storedLen, plainLen, checksum))
  {
    HeaderParts(raw, level, storedLen, plainLen, checksum);
    LowNumberReads(storedLen, 4);
    LowNumberReads(plainLen, 4);
    LowNumberReads(checksum, 4);
  }

  lemma ParsedIsHeader(h: seq<byte>)
    requires |h| == HEADER_LEN && ParseHeader(h).Some?
    ensures var f := ParseHeader(h).value;
      f.level < 16 && f.storedLen < Span(4) && f.plainLen < Span(4) && f.checksum < Span(4)
      && h == Header(f.raw, f.level, f.storedLen, f.plainLen, f.checksum)
  {
    var f := ParseHeader(h).value;
    LowNumberWrites(h[9..13]);
    LowNumberWrites(h[13..17]);
    LowNumberWrites(h[17..21]);
    HeaderParts(f.raw, f.level, f.storedLen, f.plainLen, f.checksum);
    SameParts(h, Header(f.raw, f.level, f.storedLen, f.plainLen, f.checksum));
  }

  lemma SameParts(h: seq<byte>, g: seq<byte>)
    requires |h| == |g| == HEADER_LEN
    requires h[..8] == g[..8] && h[8] == g[8] && h[9..13] == g[9..13] && h[13..17] == g[13..17]
    requires h[17..21] == g[17..21]
    ensures h == g
  {
    assert h == h[..8] + [h[8]] + h[9..13] + h[13..17] + h[17..21];
    assert g == g[..8] + [g[8]] + g[9..13] + g[13..17] + g[17..21];
  }

  /** A block that is read is valid, framed exactly so in the body, and moves the cursor. */
  lemma ReadIsFrame(body: seq<byte>, pos: nat, have: nat, codec: Codec)
    requires ReadStep(body, pos, have, codec).Read?
    ensures var b, next := ReadStep(body, pos, have, codec).block, ReadStep(body, pos, have, codec).next;
      && ValidBlock(b, codec) && have + |b.plain| <= MAX_DECOMPRESSED
      && pos < next <= |body| && body[pos..next] == Frame(b, codec)
  {
    Spans();
    ParsedIsHeader(body[pos..pos + HEADER_LEN]);
    var next := ReadStep(body, pos, have, codec).next;
    assert body[pos..next] == body[pos..pos + HEADER_LEN] + body[pos + HEADER_LEN..next];
  }

  /** An end block stands at this position. */
  ghost predicate ClosedAt(body: seq<byte>, pos: nat) {
    pos + HEADER_LEN <= |body| && exists raw, level :: level < 16 && body[pos..pos + HEADER_LEN] == EndFrame(raw, level)
  }

  /** Reading ends on an end block. */
  lemma EndedIsFrame(body: seq<byte>, pos: nat, have: nat, codec: Codec)
    requires ReadStep(body, pos, have, codec).Ended?
    ensures ClosedAt(body, pos)
  {
    ParsedIsHeader(body[pos..pos + HEADER_LEN]);
    var f := ParseHeader(body[pos..pos + HEADER_LEN]).value;
    assert body[pos..pos + HEADER_LEN] == EndFrame(f.raw, f.level);
  }

  /** Output is refused as too large exactly where a sound header announces more than the cap still allows. */
  lemma TooLargeIsOverCap(body: seq<byte>, pos: nat, have: nat, codec: Codec)
    ensures ReadStep(body, pos, have, codec) == Failed(OutputTooLarge) <==>
      exists f: Fields :: Announces(body, pos, f) && f.plainLen > 0 && have + f.plainLen > MAX_DECOMPRESSED
  {
    Spans();
    if pos + HEADER_LEN <= |body| && ParseHeader(body[pos..pos + HEADER_LEN]).Some? {
      ParsedIsHeader(body[pos..pos + HEADER_LEN]);
    }
    forall f | Announces(body, pos, f) ensures ParseHeader(body[pos..pos + HEADER_LEN]) == Some(f) {
      HeaderParses(f.raw, f.level, f.storedLen, f.plainLen, f.checksum);
    }
  }

  /** A header with these fields stands at `pos`, and they agree with each other. */
  ghost predicate Announces(body: seq<byte>, pos: nat, f: Fields) {
    && pos + HEADER_LEN <= |body| && f.level < 16
    && f.storedLen < Span(4) && f.plainLen < Span(4) && f.checksum < Span(4)
    && body[pos..pos + HEADER_LEN] == Header(f.raw, f.level, f.storedLen, f.plainLen, f.checksum)
    && f.plainLen <= PowerOfTwo(10 + f.level) && (f.storedLen == 0 <==> f.plainLen == 0)
    && (f.raw ==> f.storedLen == f.plainLen)
  }

  lemma FrameParts(body: seq<byte>, pos: nat, b: Block, codec: Codec)
    requires b.level < 16 && pos + |Frame(b, codec)| <= |body| && body[pos..pos + |Frame(b, codec)|] == Frame(b, codec)
    ensures |Frame(b, codec)| == HEADER_LEN + |b.stored|
    ensures body[pos..pos + HEADER_LEN] == Header(b.raw, b.level, |b.stored|, |b.plain|, Check(b.plain, codec))
    ensures body[pos + HEADER_LEN..pos + HEADER_LEN + |b.stored|] == b.stored
  {
    var frame := Frame(b, codec);
    assert body[pos..pos + HEADER_LEN] == frame[..HEADER_LEN];
    assert body[pos + HEADER_LEN..pos + |frame|] == frame[HEADER_LEN..];
  }

  /** A framed valid block is read back. */
  lemma FrameIsRead(body: seq<byte>, pos: nat, have: nat, b: Block, codec: Codec)
    requires ValidBlock(b, codec) && have + |b.plain| <= MAX_DECOMPRESSED
    requires pos + |Frame(b, codec)| <= |body| && body[pos..pos + |Frame(b, codec)|] == Frame(b, codec)
    ensures ReadStep(body, pos, have, codec) == Read(b, pos + |Frame(b, codec)|)
  {
    Spans();
    FrameParts(body, pos, b, codec);
    HeaderParses(b.raw, b.level, |b.stored|, |b.plain|, Check(b.plain, codec));
  }

  lemma EndIsRead(body: seq<byte>, pos: nat, have: nat, codec: Codec)
    requires ClosedAt(body, pos)
    ensures ReadStep(body, pos, have, codec) == Ended
  {
    var raw, level :| level < 16 && body[pos..pos + HEADER_LEN] == EndFrame(raw, level);
    Spans();
    HeaderParses(raw, level, 0, 0, 0);
  }

  // ----- whole streams -----

  function Plain(blocks: seq<Block>): seq<byte> {
    if blocks == [] then [] else Plain(blocks[..|blocks| - 1]) + blocks[|blocks| - 1].plain
  }

  predicate Leveled(blocks: seq<Block>) {
    forall b | b in blocks :: b.level < 16
  }

  function Frames(blocks: seq<Block>, codec: Codec): seq<byte>
    requires Leveled(blocks)
  {
    if blocks == [] then [] else Frames(blocks[..|blocks| - 1], codec) + Frame(blocks[|blocks| - 1], codec)
  }

  ghost predicate AllValid(blocks: seq<Block>, codec: Codec) {
    forall b | b in blocks :: ValidBlock(b, codec)
  }

  /** The first `pos` bytes are these valid blocks, and `out` is what they stand for. */
  ghost predicate Decoded(body: seq<byte>, pos: nat, blocks: seq<Block>, out: seq<byte>, codec: Codec) {
    && AllValid(blocks, codec) && Leveled(blocks) && pos <= |body| && body[..pos] == Frames(blocks, codec)
    && out == Plain(blocks) && |out| <= MAX_DECOMPRESSED
  }

  lemma OneMoreDecoded(body: seq<byte>, pos: nat, blocks: seq<Block>, out: seq<byte>, codec: Codec)
    requires Decoded(body, pos, blocks, out, codec) && ReadStep(body, pos, |out|, codec).Read?
    ensures var s := ReadStep(body, pos, |out|, codec);
      pos < s.next && Decoded(body, s.next, blocks + [s.block], out + s.block.plain, codec)
  {
    var s := ReadStep(body, pos, |out|, codec);
    var all := blocks + [s.block];
    ReadIsFrame(body, pos, |out|, codec);
    assert all[..|blocks|] == blocks && forall b :: b in all <==> b in blocks || b == s.block;
    assert body[..s.next] == body[..pos] + body[pos..s.next];
  }

  /**
   Read one block behind `out`: the position after it, `None` at the end block, or an error that
   leaves `out` alone.
   */
  method TakeBlock(body: seq<byte>, at: nat, out: seq<byte>, codec: Codec)
    returns (r: Result<Option<nat>, Lz4Error>, grown: seq<byte>)
    ensures match ReadStep(body, at, |out|, codec)
      case Failed(e) => r == Err(e) && grown == out
      case Ended => r == Ok(None) && grown == out
      case Read(b, next) => r == Ok(Some(next)) && grown == out + b.plain
  {
    grown := out;
    if at + HEADER_LEN > |body| { return Err(Malformed), grown; }
    var header := ParseHeader(body[at..at + HEADER_LEN]);
    if header.None? || !Consistent(header.value) { return Err(Malformed), grown; }
    var f := header.value;
    if f.plainLen == 0 {
      return if f.checksum == 0 then Ok(None) else Err(Malformed), grown;
    }
    var start := |out|;
    if start + f.plainLen > MAX_DECOMPRESSED { return Err(OutputTooLarge), grown; }
    var from := at + HEADER_LEN;
    if from + f.storedLen > |body| { return Err(Malformed), grown; }
    var stored := body[from..from + f.storedLen];
    var plain := if f.raw then Some(stored) else codec.decode(stored, f.plainLen);
    if plain.None? || |plain.value| != f.plainLen { return Err(Malformed), grown; }
    grown := out + plain.value;
    if codec.hash(grown[start..]) % 0x1000_0000 != f.checksum {
      grown := grown[..start];
      return Err(Malformed), grown;
    }
    return Ok(Some(from + f.storedLen)), grown;
  }

  /**
   Decode a stream. Whatever the bytes, the output is the concatenation of a prefix of valid
   blocks, never longer than the cap; success means the end block follows them.
   */
  method Unlz4(body: seq<byte>, codec: Codec)
    returns (r: Result<(), Lz4Error>, out: seq<byte>, ghost blocks: seq<Block>, ghost pos: nat)
    ensures Decoded(body, pos, blocks, out, codec) && |out| <= 67_108_864
    ensures r == match ReadStep(body, pos, |out|, codec)
                 case Ended => Ok(())
                 case Failed(e) => Err(e)
                 case Read(_, _) => Err(Malformed)
    ensures !ReadStep(body, pos, |out|, codec).Read?
    ensures r.Ok? ==> ClosedAt(body, pos)
  {
    var at := 0;
    out, blocks, pos := [], [], 0;
    while true
      invariant at == pos && Decoded(body, pos, blocks, out, codec)
      decreases |body| - at
    {
      var step, grown := TakeBlock(body, at, out, codec);
      match step {
        case Err(e) => return Err(e), out, blocks, pos;
        case Ok(None) =>
          EndedIsFrame(body, at, |out|, codec);
          return Ok(()), out, blocks, pos;
        case Ok(Some(next)) =>
          OneMoreDecoded(body, at, blocks, out, codec);
          blocks := blocks + [ReadStep(body, at, |out|, codec).block];
          at, pos, out := next, next, grown;
      }
    }
  }

  // ----- decoding what was framed -----

  lemma {:induction false} PlainGrows(blocks: seq<Block>, k: nat)
    requires k < |blocks|
    ensures |Plain(blocks[..k])| + |blocks[k].plain| <= |Plain(blocks)|
    decreases |blocks|
  {
    var n := |blocks| - 1;
    if k < n {
      assert blocks[..n][..k] == blocks[..k];
      PlainGrows(blocks[..n], k);
    }
  }

  lemma PrefixLeveled(blocks: seq<Block>, k: nat)
    requires Leveled(blocks) && k <= |blocks|
    ensures Leveled(blocks[..k])
  {
    assert forall b | b in blocks[..k] :: b in blocks;
  }

  lemma FramesGrow(blocks: seq<Block>, k: nat, codec: Codec)
    requires Leveled(blocks) && k < |blocks| && Leveled(blocks[..k]) && Leveled(blocks[..k + 1])
    ensures Frames(blocks[..k + 1], codec) == Frames(blocks[..k], codec) + Frame(blocks[k], codec)
  {
    assert blocks[..k + 1][..k] == blocks[..k];
  }

  lemma {:induction false} FramesStart(blocks: seq<Block>, k: nat, codec: Codec)
    requires Leveled(blocks) && k <= |blocks| && Leveled(blocks[..k])
    ensures Frames(blocks[..k], codec) <= Frames(blocks, codec)
    decreases |blocks|
  {
    var n := |blocks| - 1;
    if k == |blocks| {
      assert blocks[..k] == blocks;
    } else {
      assert blocks[..n][..k] == blocks[..k];
      FramesStart(blocks[..n], k, codec);
      PrefixStays(Frames(blocks[..k], codec), Frames(blocks[..n], codec), Frame(blocks[n], codec));
    }
  }

  lemma PrefixStays(a: seq<byte>, b: seq<byte>, c: seq<byte>)
    requires a <= b
    ensures a <= b + c
  {
  }

  lemma InPlace(front: seq<byte>, frame: seq<byte>, all: seq<byte>)
    requires front + frame <= all
    ensures |front| + |frame| <= |all| && all[|front|..|front| + |frame|] == frame
  {
    assert all[..|front| + |frame|] == front + frame;
    assert all[|front|..|front| + |frame|] == (front + frame)[|front|..];
  }

  lemma FrameInPlace(blocks: seq<Block>, k: nat, codec: Codec)
    requires Leveled(blocks) && k < |blocks| && Leveled(blocks[..k])
    ensures |Frames(blocks[..k], codec)| + |Frame(blocks[k], codec)| <= |Frames(blocks, codec)|
    ensures var at := |Frames(blocks[..k], codec)|;
      Frames(blocks, codec)[at..at + |Frame(blocks[k], codec)|] == Frame(blocks[k], codec)
  {
    PrefixLeveled(blocks, k + 1);
    FramesGrow(blocks, k, codec);
    FramesStart(blocks, k + 1, codec);
    InPlace(Frames(blocks[..k], codec), Frame(blocks[k], codec), Frames(blocks, codec));
  }

  /** A body that starts with these framed blocks. */
  ghost predicate StartsWith(body: seq<byte>, blocks: seq<Block>, codec: Codec) {
    && AllValid(blocks, codec) && Leveled(blocks) && |Plain(blocks)| <= MAX_DECOMPRESSED
    && |Frames(blocks, codec)| <= |body| && body[..|Frames(blocks, codec)|] == Frames(blocks, codec)
  }

  lemma SliceOfPrefix(s: seq<byte>, n: nat, lo: nat, hi: nat)
    requires lo <= hi <= n <= |s|
    ensures s[..n][lo..hi] == s[lo..hi]
  {
  }

  /** Each framed block in turn is what is read there. */
  lemma BlockIsRead(body: seq<byte>, blocks: seq<Block>, k: nat, codec: Codec)
    requires StartsWith(body, blocks, codec) && k < |blocks| && Leveled(blocks[..k])
    ensures ReadStep(body, |Frames(blocks[..k], codec)|, |Plain(blocks[..k])|, codec).Read?
    ensures ReadStep(body, |Frames(blocks[..k], codec)|, |Plain(blocks[..k])|, codec).block == blocks[k]
  {
    var at, n := |Frames(blocks[..k], codec)|, |Frames(blocks, codec)|;
    assert blocks[k] in blocks;
    FrameInPlace(blocks, k, codec);
    PlainGrows(blocks, k);
    var frame := Frame(blocks[k], codec);
    SliceOfPrefix(body, n, at, at + |frame|);
    FrameIsRead(body, at, |Plain(blocks[..k])|, blocks[k], codec);
  }

  lemma PrefixGrows(s: seq<Block>, k: nat)
    requires k < |s|
    ensures s[..k + 1] == s[..k] + [s[k]]
  {
  }

  /** Two readings of one body agree as far as both go. */
  lemma {:induction false} SameBlocks(body: seq<byte>, a: seq<Block>, b: seq<Block>, k: nat, codec: Codec)
    requires StartsWith(body, a, codec) && StartsWith(body, b, codec) && k <= |a| && k <= |b|
    ensures a[..k] == b[..k]
    decreases k
  {
    if k > 0 {
      SameBlocks(body, a, b, k - 1, codec);
      PrefixLeveled(a, k - 1);
      PrefixLeveled(b, k - 1);
      BlockIsRead(body, a, k - 1, codec);
      BlockIsRead(body, b, k - 1, codec);
      PrefixGrows(a, k - 1);
      PrefixGrows(b, k - 1);
    }
  }

  /**
   Any valid blocks within the size limit, framed and closed by an end block, decode to the
   concatenation of their plain bytes, whatever follows.
   */
  lemma StreamIsDecoded(body: seq<byte>, framed: seq<Block>, codec: Codec, pos: nat, blocks: seq<Block>, out: seq<byte>)
    requires StartsWith(body, framed, codec) && ClosedAt(body, |Frames(framed, codec)|)
    requires Decoded(body, pos, blocks, out, codec) && !ReadStep(body, pos, |out|, codec).Read?
    ensures out == Plain(framed) && ReadStep(body, pos, |out|, codec) == Ended
  {
    EndIsRead(body, |Frames(framed, codec)|, |Plain(framed)|, codec);
    assert StartsWith(body, blocks, codec);
    var k := if |blocks| <= |framed| then |blocks| else |framed|;
    SameBlocks(body, blocks, framed, k, codec);
    PrefixLeveled(blocks, k);
    PrefixLeveled(framed, k);
    if |blocks| < |framed| {
      assert blocks[..k] == blocks;
      BlockIsRead(body, framed, k, codec);
    } else if |framed| < |blocks| {
      assert framed[..k] == framed;
      BlockIsRead(body, blocks, k, codec);
    } else {
      assert blocks[..k] == blocks && framed[..k] == framed;
    }
  }

  /** Valid blocks within the size limit, framed and closed. */
  ghost predicate IsStream(body: seq<byte>, codec: Codec) {
    exists framed :: StartsWith(body, framed, codec) && ClosedAt(body, |Frames(framed, codec)|)
  }

  /** The decoder succeeds on exactly these bodies. */
  lemma SucceedsOnStreams(body: seq<byte>, codec: Codec, pos: nat, blocks: seq<Block>, out: seq<byte>)
    requires Decoded(body, pos, blocks, out, codec) && !ReadStep(body, pos, |out|, codec).Read?
    ensures ReadStep(body, pos, |out|, codec) == Ended <==> IsStream(body, codec)
  {
    if ReadStep(body, pos, |out|, codec) == Ended {
      EndedIsFrame(body, pos, |out|, codec);
      assert StartsWith(body, blocks, codec);
    }
    if framed :| StartsWith(body, framed, codec) && ClosedAt(body, |Frames(framed, codec)|) {
      StreamIsDecoded(body, framed, codec, pos, blocks, out);
    }
  }
}
