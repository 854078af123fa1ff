/**
 The replay file: the data padded and cut into 8192-byte pieces, each compressed on its own, behind a
 68-byte header. zlib and CRC-32 are parameters; all that is asked of zlib is that it inflates back.
 */
module ReplayFile {
  import opened Bytes
  import opened Digits
  import opened Replay

  const PIECE := 8192
  const HEADER_SIZE := 68
  /** "Warcraft III recorded game", 0x1A, 0. */
  const MAGIC: seq<Byte> := [87, 97, 114, 99, 114, 97, 102, 116, 32, 73, 73, 73, 32, 114, 101, 99, 111, 114, 100, 101,
                             100, 32, 103, 97, 109, 101, 0x1A, 0]
  const TFT: seq<Byte> := [80, 88, 51, 87]

  type Codec = seq<Byte> -> seq<Byte>
  type Checksum = seq<Byte> -> U32

  // ---- writing ----

  /** Always at least one byte of padding: a whole piece of it when the data fills its pieces exactly. */
  function Padded(d: seq<Byte>): (p: seq<Byte>)
    ensures |p| % PIECE == 0 && |p| > |d| && p[..|d|] == d
  {
    d + seq(PIECE - |d| % PIECE, i => 0)
  }

  function Cut(p: seq<Byte>): (pieces: seq<seq<Byte>>)
    requires |p| % PIECE == 0
    ensures |pieces| == |p| / PIECE
    ensures forall b :: b in pieces ==> |b| == PIECE
  {
    if p == [] then [] else [p[..PIECE]] + Cut(p[PIECE..])
  }

  function Deflated(pieces: seq<seq<Byte>>, deflate: Codec): (blocks: seq<seq<Byte>>)
    ensures |blocks| == |pieces|
    ensures forall i :: 0 <= i < |blocks| ==> blocks[i] == deflate(pieces[i])
  {
    seq(|pieces|, i requires 0 <= i < |pieces| => deflate(pieces[i]))
  }

  function TotalSize(blocks: seq<seq<Byte>>): nat {
    if blocks == [] then 0 else |blocks[0]| + TotalSize(blocks[1..])
  }

  /** `c ^= c >> 16`, of which the low half is used. */
  function Folded(c: U32): nat {
    Xor(c, c / 0x1_0000) % 0x1_0000
  }

  function BlockCrc(head: seq<Byte>, block: seq<Byte>, crc: Checksum): U32 {
    Folded(crc(head)) + Folded(crc(block)) * 0x1_0000
  }

  function BlockHead(block: seq<Byte>): seq<Byte> {
    Le16(|block| % 0x1_0000) + Le16(PIECE)
  }

  function PackedBlock(block: seq<Byte>, crc: Checksum): seq<Byte> {
    BlockHead(block) + Le32(BlockCrc(BlockHead(block) + Le32(0), block, crc)) + block
  }

  function PackedBlocks(blocks: seq<seq<Byte>>, crc: Checksum): seq<Byte> {
    if blocks == [] then [] else PackedBlock(blocks[0], crc) + PackedBlocks(blocks[1..], crc)
  }

  function HeaderStart(total: nat, size: nat, count: nat, version: U32, build: U16, length: U32): seq<Byte> {
    MAGIC + Le32(HEADER_SIZE) + Le32(total % U32_SIZE) + Le32(1) + Le32(size % U32_SIZE) + Le32(count % U32_SIZE)
    + TFT + Le32(version) + Le16(build) + Le16(32768) + Le32(length)
  }

  /** `build_and_compress`. */
  function PackedFile(d: seq<Byte>, version: U32, build: U16, length: U32, deflate: Codec, crc: Checksum): seq<Byte> {
    var blocks := Deflated(Cut(Padded(d)), deflate);
    var start := HeaderStart(HEADER_SIZE + TotalSize(blocks) + |blocks| * 8, |d|, |blocks|, version, build, length);
    start + Le32(crc(start + Le32(0))) + PackedBlocks(blocks, crc)
  }

  // ---- reading ----

  function ReadBlocks(s: seq<Byte>, n: nat, inflate: Codec, crc: Checksum): Read<seq<Byte>>
    decreases n
  {
    if n == 0 then Got([], s)
    else if |s| < 8 || |s| < 8 + FromLe16(s[..2]) || FromLe16(s[2..4]) != PIECE then Fail
    else
      var size := FromLe16(s[..2]);
      var block := s[8..8 + size];
      if FromLe32(s[4..8]) != BlockCrc(s[..4] + Le32(0), block, crc) then Fail
      else match ReadBlocks(s[8 + size..], n - 1, inflate, crc)
           case Fail => Fail
           case Got(more, rest) => Got(inflate(block) + more, rest)
  }

  /** Reads a file back, checking sizes and checksums. */
  function ReadFile(s: seq<Byte>, inflate: Codec, crc: Checksum): Read<seq<Byte>> {
    if |s| < HEADER_SIZE || s[..28] != MAGIC || FromLe32(s[32..36]) != |s|
       || FromLe32(s[64..68]) != crc(s[..64] + Le32(0)) then Fail
    else match ReadBlocks(s[68..], FromLe32(s[44..48]), inflate, crc)
         case Fail => Fail
         case Got(d, rest) =>
           if rest != [] || FromLe32(s[40..44]) > |d| then Fail else Got(d[..FromLe32(s[40..44])], [])
  }

  // ---- the round trip ----

  function Joined(pieces: seq<seq<Byte>>): seq<Byte> {
    if pieces == [] then [] else pieces[0] + Joined(pieces[1..])
  }

  lemma {:induction false} CutJoins(p: seq<Byte>)
    requires |p| % PIECE == 0
    ensures Joined(Cut(p)) == p
  {
    if p != [] { CutJoins(p[PIECE..]); }
  }

  lemma {:induction false} PackedSize(blocks: seq<seq<Byte>>, crc: Checksum)
    ensures |PackedBlocks(blocks, crc)| == TotalSize(blocks) + |blocks| * 8
  {
    hide Le16, Le32, BlockCrc;
    if blocks != [] { PackedSize(blocks[1..], crc); }
  }

  lemma BlockFields(block: seq<Byte>, crc: Checksum, tail: seq<Byte>)
    requires |block| < 0x1_0000
    ensures
      var s := PackedBlock(block, crc) + tail;
      && |s| == 8 + |block| + |tail| && FromLe16(s[..2]) == |block| && FromLe16(s[2..4]) == PIECE
      && s[8..8 + |block|] == block && s[8 + |block|..] == tail
      && FromLe32(s[4..8]) == BlockCrc(s[..4] + Le32(0), block, crc)
  {
    hide Le16, Le32, FromLe16, FromLe32, BlockCrc;
    var s := PackedBlock(block, crc) + tail;
    assert s[..4] == BlockHead(block) && s[..2] == Le16(|block|) && s[2..4] == Le16(PIECE);
    assert s[4..8] == Le32(BlockCrc(BlockHead(block) + Le32(0), block, crc));
  }

  lemma {:induction false} BlocksRoundTrip(pieces: seq<seq<Byte>>, deflate: Codec, inflate: Codec, crc: Checksum)
    requires forall b :: b in pieces ==> inflate(deflate(b)) == b && |deflate(b)| < 0x1_0000
    ensures ReadBlocks(PackedBlocks(Deflated(pieces, deflate), crc), |pieces|, inflate, crc) == Got(Joined(pieces), [])
  {
    hide PackedBlock, FromLe16, FromLe32, BlockCrc, Le32;
    if pieces != [] {
      var blocks := Deflated(pieces, deflate);
      assert blocks[1..] == Deflated(pieces[1..], deflate);
      BlocksRoundTrip(pieces[1..], deflate, inflate, crc);
      BlockFields(blocks[0], crc, PackedBlocks(blocks[1..], crc));
    }
  }

  lemma HeaderFields(total: nat, size: nat, count: nat, version: U32, build: U16, length: U32,
                     crc: U32, tail: seq<Byte>)
    requires total < U32_SIZE && size < U32_SIZE && count < U32_SIZE
    ensures
      var start := HeaderStart(total, size, count, version, build, length);
      var s := start + Le32(crc) + tail;
      && |start| == 64 && |s| == 68 + |tail| && s[..28] == MAGIC && s[..64] == start && s[68..] == tail
      && FromLe32(s[32..36]) == total && FromLe32(s[40..44]) == size && FromLe32(s[44..48]) == count
      && FromLe32(s[64..68]) == crc
  {
    hide Le16, Le32, FromLe32;
    var start := HeaderStart(total, size, count, version, build, length);
    var s := start + Le32(crc) + tail;
    assert s[..64] == start && s[64..68] == Le32(crc);
    assert start[..28] == MAGIC && start[32..36] == Le32(total);
    assert start[40..44] == Le32(size) && start[44..48] == Le32(count);
    assert s[32..36] == start[32..36] && s[40..44] == start[40..44] && s[44..48] == start[44..48];
    assert s[..28] == start[..28];
  }

  /**
   The file reads back to the data it was built from, its size fields tell its real sizes, and its
   checksums hold, for every compressor that inflates back and stays below 64 KiB a piece.
   */
  lemma FileRoundTrip(d: seq<Byte>, version: U32, build: U16, length: U32, deflate: Codec,
                      inflate: Codec, crc: Checksum)
    requires forall b :: |b| == PIECE ==> inflate(deflate(b)) == b && |deflate(b)| < 0x1_0000
    requires |PackedFile(d, version, build, length, deflate, crc)| < U32_SIZE && |d| < U32_SIZE
    ensures ReadFile(PackedFile(d, version, build, length, deflate, crc), inflate, crc) == Got(d, [])
  {
    hide PackedBlocks, Le32, FromLe32, HeaderStart, ReadBlocks, Cut, Deflated, TotalSize, Joined, Padded, ReadFile;
    var p := Padded(d);
    var pieces := Cut(p);
    var blocks := Deflated(pieces, deflate);
    var tail := PackedBlocks(blocks, crc);
    var total := HEADER_SIZE + TotalSize(blocks) + |blocks| * 8;
    var start := HeaderStart(total, |d|, |blocks|, version, build, length);
    var s := start + Le32(crc(start + Le32(0))) + tail;
    assert s == PackedFile(d, version, build, length, deflate, crc);
    hide PackedFile;
    PackedSize(blocks, crc);
    CutJoins(p);
    BlocksRoundTrip(pieces, deflate, inflate, crc);
    HeaderLength(total, |d|, |blocks|, version, build, length);
    assert |s| == total;
    HeaderFields(total, |d|, |blocks|, version, build, length, crc(start + Le32(0)), tail);
    ReadsBack(s, inflate, crc, d, p, |blocks|);
  }

  lemma HeaderLength(total: nat, size: nat, count: nat, version: U32, build: U16, length: U32)
    ensures |HeaderStart(total, size, count, version, build, length)| == 64
  {}

  lemma ReadsBack(s: seq<Byte>, inflate: Codec, crc: Checksum, d: seq<Byte>, p: seq<Byte>, n: nat)
    requires |s| >= HEADER_SIZE && s[..28] == MAGIC && FromLe32(s[32..36]) == |s|
    requires FromLe32(s[64..68]) == crc(s[..64] + Le32(0)) && FromLe32(s[40..44]) == |d| && FromLe32(s[44..48]) == n
    requires ReadBlocks(s[68..], n, inflate, crc) == Got(p, []) && |d| <= |p| && p[..|d|] == d
    ensures ReadFile(s, inflate, crc) == Got(d, [])
  {
    hide ReadBlocks, FromLe32, Le32;
  }

  // ---- the header and the checksums, field by field ----

  lemma StartTells(total: nat, size: nat, count: nat, version: U32, build: U16, length: U32)
    ensures
      var s := HeaderStart(total, size, count, version, build, length);
      && |s| == 64 && s[28..32] == [68, 0, 0, 0] && s[36..40] == [1, 0, 0, 0] && s[48..52] == [80, 88, 51, 87]
      && FromLe32(s[44..48]) == count % U32_SIZE && FromLe32(s[52..56]) == version && FromLe16(s[56..58]) == build
      && FromLe16(s[58..60]) == 32768 && FromLe32(s[60..64]) == length
  {
    assert Le32(68) == [68, 0, 0, 0] && Le32(1) == [1, 0, 0, 0];
    hide Le16, Le32, FromLe32, FromLe16;
    var s := HeaderStart(total, size, count, version, build, length);
    assert s[28..32] == Le32(HEADER_SIZE) && s[36..40] == Le32(1) && s[44..48] == Le32(count % U32_SIZE);
    assert s[48..52] == TFT && s[52..56] == Le32(version) && s[56..58] == Le16(build);
    assert s[58..60] == Le16(32768) && s[60..64] == Le32(length);
  }

  lemma PieceCount(d: seq<Byte>)
    ensures |Cut(Padded(d))| == |d| / 8192 + 1
  {
    var n, r := |d| / PIECE, |d| % PIECE;
    assert |Padded(d)| == (n + 1) * PIECE;
  }

  /** The header of a file names its version, build and length in their places, and counts one piece for every
      8192 bytes begun, one more when the data fills its pieces exactly. */
  lemma HeaderTells(d: seq<Byte>, version: U32, build: U16, length: U32, deflate: Codec, crc: Checksum)
    ensures
      var s := PackedFile(d, version, build, length, deflate, crc);
      && |s| >= 68 && s[28..32] == [68, 0, 0, 0] && s[36..40] == [1, 0, 0, 0] && s[48..52] == [80, 88, 51, 87]
      && FromLe32(s[44..48]) == (|d| / 8192 + 1) % U32_SIZE && FromLe32(s[52..56]) == version
      && FromLe16(s[56..58]) == build && FromLe16(s[58..60]) == 32768 && FromLe32(s[60..64]) == length
  {
    PieceCount(d);
    hide Padded, Cut, TotalSize, PackedBlocks, HeaderStart, FromLe16, FromLe32, Le32;
    var blocks := Deflated(Cut(Padded(d)), deflate);
    var total := HEADER_SIZE + TotalSize(blocks) + |blocks| * 8;
    StartTells(total, |d|, |blocks|, version, build, length);
    var start := HeaderStart(total, |d|, |blocks|, version, build, length);
    var s := PackedFile(d, version, build, length, deflate, crc);
    assert s[..64] == start;
    assert s[28..32] == start[28..32] && s[36..40] == start[36..40] && s[44..48] == start[44..48];
    assert s[48..52] == start[48..52] && s[52..56] == start[52..56] && s[56..58] == start[56..58];
    assert s[58..60] == start[58..60] && s[60..64] == start[60..64];
  }

  lemma SixteenBits()
    ensures Pow(2, 16) == 0x1_0000
  {
    assert Pow(2, 8) == 0x100;
  }

  lemma FoldedBits(c: U32, k: nat)
    requires k < 16
    ensures DigitAt(Folded(c), 2, k) == (DigitAt(c, 2, k) + DigitAt(c, 2, k + 16)) % 2
  {
    SixteenBits();
    hide DigitAt, Xor, Pow;
    var x := Xor(c, c / 0x1_0000);
    XorBits(c, c / 0x1_0000, k);
    DigitsJoin(c % 0x1_0000, c / 0x1_0000, 2, 16, k + 16);
    DigitsJoin(x % 0x1_0000, x / 0x1_0000, 2, 16, k);
    assert c == c % 0x1_0000 + c / 0x1_0000 * 0x1_0000 && x == x % 0x1_0000 + x / 0x1_0000 * 0x1_0000;
  }

  lemma TwoHalves(a: nat, b: nat, k: nat)
    requires a < 0x1_0000 && k < 16
    ensures DigitAt(a + b * 0x1_0000, 2, k) == DigitAt(a, 2, k)
    ensures DigitAt(a + b * 0x1_0000, 2, k + 16) == DigitAt(b, 2, k)
  {
    SixteenBits();
    hide DigitAt, Pow;
    DigitsJoin(a, b, 2, 16, k);
    DigitsJoin(a, b, 2, 16, k + 16);
  }

  /** A block's checksum: each of its low sixteen bits is the sum modulo 2 of two bits, sixteen apart, of the
      checksum of its head, and each of the high sixteen the same of the checksum of its bytes. */
  lemma BlockCrcFolds(head: seq<Byte>, block: seq<Byte>, crc: Checksum, k: nat)
    requires k < 16
    ensures
      var c := BlockCrc(head, block, crc);
      && DigitAt(c, 2, k) == (DigitAt(crc(head), 2, k) + DigitAt(crc(head), 2, k + 16)) % 2
      && DigitAt(c, 2, k + 16) == (DigitAt(crc(block), 2, k) + DigitAt(crc(block), 2, k + 16)) % 2
  {
    hide DigitAt, Xor;
    var a, b := Folded(crc(head)), Folded(crc(block));
    FoldedBits(crc(head), k);
    FoldedBits(crc(block), k);
    TwoHalves(a, b, k);
  }

  // ---- the loops of `build_and_compress` ----

  lemma {:induction false} CutFront(p: seq<Byte>, k: nat)
    requires |p| % PIECE == 0 && k < |p| / PIECE
    ensures Cut(p)[k] == p[k * PIECE..(k + 1) * PIECE]
  {
    if k > 0 {
      CutFront(p[PIECE..], k - 1);
      SliceShift(p, PIECE, (k - 1) * PIECE, k * PIECE);
    }
  }

  lemma SliceShift(p: seq<Byte>, d: nat, lo: nat, hi: nat)
    requires lo <= hi && d + hi <= |p|
    ensures p[d..][lo..hi] == p[d + lo..d + hi]
  {}

  lemma {:induction false} TotalSizeSnoc(blocks: seq<seq<Byte>>, b: seq<Byte>)
    ensures TotalSize(blocks + [b]) == TotalSize(blocks) + |b|
  {
    if blocks == [] {
      assert [b][1..] == [] && blocks + [b] == [b];
    } else {
      TotalSizeSnoc(blocks[1..], b);
      assert (blocks + [b])[1..] == blocks[1..] + [b];
    }
  }

  lemma {:induction false} PackedSnoc(blocks: seq<seq<Byte>>, b: seq<Byte>, crc: Checksum)
    ensures PackedBlocks(blocks + [b], crc) == PackedBlocks(blocks, crc) + PackedBlock(b, crc)
  {
    hide PackedBlock;
    if blocks == [] {
      assert [b][1..] == [] && blocks + [b] == [b];
    } else {
      PackedSnoc(blocks[1..], b, crc);
      assert (blocks + [b])[1..] == blocks[1..] + [b];
    }
  }

  /** Compresses the pieces one by one, adding up their sizes. */
  method CompressPieces(padded: seq<Byte>, deflate: Codec) returns (blocks: seq<seq<Byte>>, total: nat)
    requires |padded| % PIECE == 0
    ensures blocks == Deflated(Cut(padded), deflate) && total == TotalSize(blocks)
  {
    hide TotalSize, Cut;
    blocks, total := [], 0;
    NoSize();
    var pos := 0;
    while pos < |padded|
      invariant pos == |blocks| * PIECE <= |padded| && total == TotalSize(blocks)
      invariant forall i :: 0 <= i < |blocks| ==> blocks[i] == deflate(Cut(padded)[i])
    {
      CutFront(padded, |blocks|);
      var block := deflate(padded[pos..pos + PIECE]);
      TotalSizeSnoc(blocks, block);
      blocks := blocks + [block];
      total := total + |block|;
      pos := pos + PIECE;
    }
  }

  lemma NoSize()
    ensures TotalSize([]) == 0
  {}

  method BuildAndCompress(data: seq<Byte>, version: U32, build: U16, length: U32, deflate: Codec, crc: Checksum)
    returns (out: seq<Byte>)
    ensures out == PackedFile(data, version, build, length, deflate, crc)
  {
    hide Le16, Le32, BlockCrc, Deflated, Cut, TotalSize, PackedBlocks, HeaderStart;
    var pad := PIECE - |data| % PIECE;
    var padded := data + seq(pad, i => 0);
    assert padded == Padded(data);
    var blocks, compressedTotal := CompressPieces(padded, deflate);
    var start := HeaderStart(HEADER_SIZE + compressedTotal + |blocks| * 8, |data|, |blocks|, version, build, length);
    var header := start + Le32(0);
    var sum := crc(header);
    assert header[..|header| - 4] == start;
    header := header[..|header| - 4] + Le32(sum);
    out := AppendBlocks(header, blocks, crc);
  }

  method AppendBlocks(header: seq<Byte>, blocks: seq<seq<Byte>>, crc: Checksum) returns (out: seq<Byte>)
    ensures out == header + PackedBlocks(blocks, crc)
  {
    hide Le16, Le32, BlockCrc;
    out := header;
    for i := 0 to |blocks|
      invariant out == header + PackedBlocks(blocks[..i], crc)
    {
      var block := blocks[i];
      var head := Le16(|block| % 0x1_0000) + Le16(PIECE) + Le32(0);
      var sum := BlockCrc(head, block, crc);
      head := head[..4] + Le32(sum);
      assert head + block == PackedBlock(block, crc);
      PackedSnoc(blocks[..i], block, crc);
      assert blocks[..i + 1] == blocks[..i] + [block];
      out := out + (head + block);
    }
    assert blocks[..|blocks|] == blocks;
  }
}
