/** The PNG encoder, and the decoder that undoes it. */
module Png {
  import opened Crc
  import MachineWords
  import opened Wrappers

  /** What zlib's `compress` answers. */
  datatype Compressed = Done(bytes: seq<Byte>) | MemError | BufError

  datatype Status = OK | INTERNAL_SERVER_ERROR

  datatype Chunk = Chunk(kind: seq<Byte>, data: seq<Byte>)

  /** An image as a decoder delivers it, the top row first. */
  datatype Image = Image(width: nat, height: nat, rows: seq<seq<Byte>>)

  const SIGNATURE: seq<Byte> := [137, 80, 78, 71, 13, 10, 26, 10]
  const IHDR: seq<Byte> := [73, 72, 68, 82]
  const IDAT: seq<Byte> := [73, 68, 65, 84]
  const IEND: seq<Byte> := [73, 69, 78, 68]

  const LIMIT := 0x1_0000_0000

  // ----- numbers --------------------------------------------------------------------------------

  /** The four bytes of a number, the highest first; what does not fit is lost. */
  function BigEndian(n: nat): (s: seq<Byte>)
    ensures |s| == 4
  {
    [n / 0x1000000 % 256, n / 0x10000 % 256, n / 0x100 % 256, n % 256]
  }

  function Number(s: seq<Byte>): nat
    requires |s| == 4
  {
    ((s[0] as int * 256 + s[1]) * 256 + s[2]) * 256 + s[3]
  }

  lemma NumberOfBigEndian(n: nat)
    requires n < LIMIT
    ensures Number(BigEndian(n)) == n
  {
    var a, b, c := n / 256, n / 0x10000, n / 0x1000000;
    NumberOfDigits(n, a, b, c);
    assert BigEndian(n) == [c % 256, b % 256, a % 256, n % 256];
  }

  lemma NumberOfDigits(n: nat, a: nat, b: nat, c: nat)
    requires n < LIMIT && a == n / 256 && b == n / 0x10000 && c == n / 0x1000000
    ensures n == n % 256 + 256 * (a % 256) + 0x10000 * (b % 256) + 0x1000000 * (c % 256)
  {
    DividedTwice(n, 256, 256);
    DividedTwice(n, 0x10000, 256);
    assert n == 256 * a + n % 256 && a == 256 * b + a % 256 && b == 256 * c + b % 256 && c < 256;
  }

  lemma DividedTwice(n: nat, d: nat, e: nat)
    requires (d == 256 || d == 0x10000) && e == 256
    ensures n / d / e == n / (d * e)
  {
    if d == 256 {
      assert n / 256 / 256 == n / 0x10000;
    } else {
      assert n / 0x10000 / 256 == n / 0x1000000;
    }
  }

  // ----- chunks: section 3.2 of RFC 2083 --------------------------------------------------------

  // `check` is the CRC.  What is said of chunks holds for any check of four bytes.

  /** A chunk as it stands in the file: length, type, data and check. */
  function Written(check: seq<Byte> -> Word, c: Chunk): seq<Byte> {
    BigEndian(|c.data|) + c.kind + c.data + BigEndian(check(c.kind + c.data))
  }

  function WrittenAll(check: seq<Byte> -> Word, cs: seq<Chunk>): seq<Byte> {
    if cs == [] then [] else Written(check, cs[0]) + WrittenAll(check, cs[1..])
  }

  /** The first chunk of a file and what follows it, if its check is right. */
  function ReadChunk(check: seq<Byte> -> Word, s: seq<Byte>): (r: Option<(Chunk, seq<Byte>)>)
    ensures r.Some? ==> |r.value.1| < |s|
  {
    if |s| < 12 then None else
      var n := Number(s[..4]);
      if |s| < n + 12 then None else
        var c := Chunk(s[4..8], s[8..n + 8]);
        if s[n + 8..n + 12] != BigEndian(check(c.kind + c.data)) then None else Some((c, s[n + 12..]))
  }

  function ReadChunks(check: seq<Byte> -> Word, s: seq<Byte>): Option<seq<Chunk>>
    decreases |s|
  {
    if s == [] then Some([]) else
      match ReadChunk(check, s)
      case None => None
      case Some((c, rest)) =>
        match ReadChunks(check, rest)
        case None => None
        case Some(cs) => Some([c] + cs)
  }

  ghost predicate Proper(c: Chunk) {
    |c.kind| == 4 && |c.data| < LIMIT - 4
  }

  /** What reading makes of a length, a type with data, and four more bytes. */
  lemma ReadParts(check: seq<Byte> -> Word, body: seq<Byte>, crc: seq<Byte>, rest: seq<Byte>)
    requires 4 <= |body| < LIMIT && |crc| == 4
    ensures ReadChunk(check, BigEndian(|body| - 4) + body + crc + rest)
         == if crc == BigEndian(check(body)) then Some((Chunk(body[..4], body[4..]), rest)) else None
  {
    var n := |body| - 4;
    var s := BigEndian(n) + body + crc + rest;
    NumberOfBigEndian(n);
    assert s[..4] == BigEndian(n);
    assert s[4..8] == body[..4] && s[8..n + 8] == body[4..];
    assert s[n + 8..n + 12] == crc && s[n + 12..] == rest;
    assert body[..4] + body[4..] == body;
  }

  lemma ReadChunkUndoesWritten(check: seq<Byte> -> Word, c: Chunk, rest: seq<Byte>)
    requires Proper(c)
    ensures ReadChunk(check, Written(check, c) + rest) == Some((c, rest))
  {
    var body := c.kind + c.data;
    ReadParts(check, body, BigEndian(check(body)), rest);
    assert BigEndian(|c.data|) + body == BigEndian(|c.data|) + c.kind + c.data;
    assert body[..4] == c.kind && body[4..] == c.data;
  }

  /** Reading gives back any list of chunks. */
  lemma {:induction false} ReadUndoesWrite(check: seq<Byte> -> Word, cs: seq<Chunk>)
    requires forall c :: c in cs ==> Proper(c)
    ensures ReadChunks(check, WrittenAll(check, cs)) == Some(cs)
  {
    if cs != [] {
      ReadChunkUndoesWritten(check, cs[0], WrittenAll(check, cs[1..]));
      ReadUndoesWrite(check, cs[1..]);
      assert [cs[0]] + cs[1..] == cs;
    }
  }

  lemma OtherCheckIsRefused(check: seq<Byte> -> Word, body: seq<Byte>, damaged: seq<Byte>, rest: seq<Byte>)
    requires 4 <= |body| < LIMIT && |damaged| == |body| && check(body) != check(damaged)
    ensures var n, crc := BigEndian(|body| - 4), BigEndian(check(body));
            ReadChunk(check, n + body + crc + rest).Some? && ReadChunk(check, n + damaged + crc + rest) == None
  {
    NumberOfBigEndian(check(body));
    NumberOfBigEndian(check(damaged));
    ReadParts(check, body, BigEndian(check(body)), rest);
    ReadParts(check, damaged, BigEndian(check(body)), rest);
  }

  /** A chunk whose type or data was damaged within four consecutive bytes is refused. */
  lemma DamageIsRefused(body: seq<Byte>, damaged: seq<Byte>, i: nat, rest: seq<Byte>)
    requires |body| == |damaged| < LIMIT && i + 4 <= |body|
    requires body[..i] == damaged[..i] && body[i + 4..] == damaged[i + 4..] && body != damaged
    ensures var n, crc := BigEndian(|body| - 4), BigEndian(CrcOf(body));
            ReadChunk(CrcOf, n + body + crc + rest).Some? && ReadChunk(CrcOf, n + damaged + crc + rest) == None
  {
    assert body == body[..i] + body[i..i + 4] + body[i + 4..];
    assert damaged == body[..i] + damaged[i..i + 4] + body[i + 4..];
    BurstsAreSeen(body[..i], body[i..i + 4], damaged[i..i + 4], body[i + 4..]);
    OtherCheckIsRefused(CrcOf, body, damaged, rest);
  }

  // ----- rows -----------------------------------------------------------------------------------

  /** The size of `i` rows. */
  function Size(stride: nat, i: nat): nat
    decreases i
  {
    if i == 0 then 0 else Size(stride, i - 1) + stride
  }

  lemma {:induction false} SizeIs(stride: nat, i: nat)
    ensures Size(stride, i) == stride * i
    decreases i
  {
    if i > 0 {
      SizeIs(stride, i - 1);
    }
  }

  lemma {:induction false} SizeGrows(stride: nat, i: nat, height: nat)
    requires i <= height
    ensures Size(stride, i) <= Size(stride, height)
    decreases height
  {
    if i < height {
      SizeGrows(stride, i, height - 1);
    }
  }

  /** The rows of the buffer with a filter byte before each: the buffer holds the bottom row first, the file
      the top row. */
  function Filtered(pixels: seq<Byte>, stride: nat, height: nat): (s: seq<Byte>)
    requires |pixels| == Size(stride, height)
    ensures |s| == Size(stride + 1, height)
    decreases height
  {
    if height == 0 then [] else
      var k := Size(stride, height - 1);
      [0] + pixels[k..] + Filtered(pixels[..k], stride, height - 1)
  }

  /** The rows of filtered data, for the one filter the encoder uses. */
  function Unfiltered(s: seq<Byte>, stride: nat, height: nat): Option<seq<seq<Byte>>>
    decreases height
  {
    if height == 0 then if s == [] then Some([]) else None
    else if |s| < stride + 1 || s[0] != 0 then None else
      match Unfiltered(s[stride + 1..], stride, height - 1)
      case None => None
      case Some(rows) => Some([s[1..stride + 1]] + rows)
  }

  /** The rows of a buffer that holds the bottom row first, from the top. */
  function TopDown(pixels: seq<Byte>, stride: nat, height: nat): seq<seq<Byte>>
    requires |pixels| == Size(stride, height)
    decreases height
  {
    if height == 0 then [] else
      var k := Size(stride, height - 1);
      [pixels[k..]] + TopDown(pixels[..k], stride, height - 1)
  }

  lemma {:induction false} UnfilteredUndoes(pixels: seq<Byte>, stride: nat, height: nat)
    requires |pixels| == Size(stride, height)
    ensures Unfiltered(Filtered(pixels, stride, height), stride, height) == Some(TopDown(pixels, stride, height))
    decreases height
  {
    if height > 0 {
      var k := Size(stride, height - 1);
      var s, init := Filtered(pixels, stride, height), pixels[..k];
      assert s[stride + 1..] == Filtered(init, stride, height - 1);
      assert s[1..stride + 1] == pixels[k..];
      UnfilteredUndoes(init, stride, height - 1);
    }
  }

  /** Row `j` of the file is the row of the buffer that begins at `k`. */
  ghost predicate IsRow(row: seq<Byte>, pixels: seq<Byte>, k: nat, stride: nat) {
    k + stride <= |pixels| && row == pixels[k..k + stride]
  }

  /** `rows` are the rows of the buffer from the last to the first. */
  ghost predicate RowsOf(rows: seq<seq<Byte>>, pixels: seq<Byte>, stride: nat, height: nat) {
    |rows| == height && forall j: nat :: j < height ==> IsRow(rows[j], pixels, Size(stride, height - 1 - j), stride)
  }

  /** Every row is there, in the other order. */
  lemma {:induction false} TopDownIsRows(pixels: seq<Byte>, stride: nat, height: nat)
    requires |pixels| == Size(stride, height)
    ensures RowsOf(TopDown(pixels, stride, height), pixels, stride, height)
    decreases height
  {
    if height > 0 {
      var k, rows := Size(stride, height - 1), TopDown(pixels, stride, height);
      var init := pixels[..k];
      var rest := TopDown(init, stride, height - 1);
      TopDownIsRows(init, stride, height - 1);
      assert rows == [pixels[k..]] + rest && IsRow(rows[0], pixels, k, stride);
      forall j: nat | 0 < j < height
        ensures IsRow(rows[j], pixels, Size(stride, height - 1 - j), stride)
      {
        assert rows[j] == rest[j - 1];
        RowOfInit(rest[j - 1], pixels, k, Size(stride, height - 1 - 1 - (j - 1)), stride);
      }
    }
  }

  lemma RowOfInit(row: seq<Byte>, pixels: seq<Byte>, k: nat, i: nat, stride: nat)
    requires k <= |pixels| && IsRow(row, pixels[..k], i, stride)
    ensures IsRow(row, pixels, i, stride)
  {
    EarlierSlice(pixels, k, i, i + stride);
  }

  // ----- the file -------------------------------------------------------------------------------

  /** Eight bits a channel, red, green and blue, no interlace. */
  function Header(width: nat, height: nat): seq<Byte> {
    BigEndian(width) + BigEndian(height) + [8, 2, 0, 0, 0]
  }

  function End(): Chunk {
    Chunk(IEND, [])
  }

  function Chunks(width: nat, height: nat, z: seq<Byte>): seq<Chunk> {
    [Chunk(IHDR, Header(width, height)), Chunk(IDAT, z), End()]
  }

  function File(check: seq<Byte> -> Word, width: nat, height: nat, z: seq<Byte>): seq<Byte> {
    SIGNATURE + WrittenAll(check, Chunks(width, height, z))
  }

  function Joined(cs: seq<Chunk>): seq<Byte> {
    if cs == [] then [] else cs[0].data + Joined(cs[1..])
  }

  /** A decoder for such images: the signature, a header, data chunks, an end. */
  function Decode(check: seq<Byte> -> Word, inflate: seq<Byte> -> Option<seq<Byte>>, s: seq<Byte>): Option<Image> {
    if |s| < 8 || s[..8] != SIGNATURE then None else
      match ReadChunks(check, s[8..])
      case None => None
      case Some(cs) =>
        if |cs| < 2 || cs[0].kind != IHDR || |cs[0].data| != 13 || cs[0].data[8..] != [8, 2, 0, 0, 0]
           || cs[|cs| - 1] != End() || exists i :: 0 < i < |cs| - 1 && cs[i].kind != IDAT then None
        else
          var width, height := Number(cs[0].data[..4]), Number(cs[0].data[4..8]);
          match inflate(Joined(cs[1..|cs| - 1]))
          case None => None
          case Some(data) =>
            match Unfiltered(data, 3 * width, height)
            case None => None
            case Some(rows) => Some(Image(width, height, rows))
  }

  /** Decoding what the encoder wrote gives the rows of the buffer back, the last one first. */
  lemma DecodeUndoesFile(check: seq<Byte> -> Word, inflate: seq<Byte> -> Option<seq<Byte>>, pixels: seq<Byte>,
                         width: nat, height: nat, z: seq<Byte>)
    requires width < LIMIT && height < LIMIT && |z| < LIMIT - 4
    requires |pixels| == Size(3 * width, height) && inflate(z) == Some(Filtered(pixels, 3 * width, height))
    ensures Decode(check, inflate, File(check, width, height, z))
         == Some(Image(width, height, TopDown(pixels, 3 * width, height)))
  {
    var s, cs := File(check, width, height, z), Chunks(width, height, z);
    assert s[8..] == WrittenAll(check, cs);
    ReadUndoesWrite(check, cs);
    HeaderHolds(width, height);
    assert cs[1..2] == [Chunk(IDAT, z)];
    JoinedOne(Chunk(IDAT, z));
    UnfilteredUndoes(pixels, 3 * width, height);
  }

  /** Every image survives: where zlib gives back what it packed, decoding the file gives the header and the
      pixels, row by row. */
  lemma RoundTrip(check: seq<Byte> -> Word, compress: seq<Byte> -> Compressed, inflate: seq<Byte> -> Option<seq<Byte>>,
                  pixels: seq<Byte>, width: nat, height: nat)
    requires width < LIMIT && height < LIMIT && |pixels| == Size(3 * width, height)
    requires forall s: seq<Byte> :: compress(s).Done? ==> inflate(compress(s).bytes) == Some(s)
    requires var packed := compress(Filtered(pixels, 3 * width, height)); packed.Done? && |packed.bytes| < LIMIT - 4
    ensures var z := compress(Filtered(pixels, 3 * width, height)).bytes;
            var image := Decode(check, inflate, File(check, width, height, z));
            && image.Some? && image.value.width == width && image.value.height == height
            && RowsOf(image.value.rows, pixels, 3 * width, height)
  {
    DecodeUndoesFile(check, inflate, pixels, width, height, compress(Filtered(pixels, 3 * width, height)).bytes);
    TopDownIsRows(pixels, 3 * width, height);
  }

  lemma JoinedOne(c: Chunk)
    ensures Joined([c]) == c.data
  {
    assert Joined([c][1..]) == [];
  }

  lemma HeaderHolds(width: nat, height: nat)
    requires width < LIMIT && height < LIMIT
    ensures var h := Header(width, height);
            && |h| == 13 && h[8..] == [8, 2, 0, 0, 0]
            && Number(h[..4]) == width && Number(h[4..8]) == height
  {
    var h := Header(width, height);
    NumberOfBigEndian(width);
    NumberOfBigEndian(height);
    assert h[..4] == BigEndian(width) && h[4..8] == BigEndian(height);
  }

  lemma WrittenThree(check: seq<Byte> -> Word, a: Chunk, b: Chunk, c: Chunk)
    ensures WrittenAll(check, [a, b, c]) == Written(check, a) + Written(check, b) + Written(check, c)
  {
    assert [a, b, c][1..] == [b, c] && [b, c][1..] == [c] && [c][1..] == [];
    assert WrittenAll(check, [b, c]) == Written(check, b) + WrittenAll(check, [c]);
    assert WrittenAll(check, [c]) == Written(check, c) + [];
  }

  /** 8 for the signature, 25 for the header, 12 more than the data, 12 for the end. */
  lemma FileSize(check: seq<Byte> -> Word, width: nat, height: nat, z: seq<Byte>)
    ensures |File(check, width, height, z)| == 8 + 25 + 12 + |z| + 12
  {
    WrittenThree(check, Chunk(IHDR, Header(width, height)), Chunk(IDAT, z), End());
  }

  // ----- the bytes of the file ------------------------------------------------------------------

  /** At `i` stands a number, its highest byte first. */
  predicate NumberAt(s: seq<Byte>, i: nat, n: int) {
    i + 4 <= |s| && n == 0x1000000 * s[i] as int + 0x10000 * s[i + 1] as int + 0x100 * s[i + 2] as int + s[i + 3] as int
  }

  /** At `i` stands a chunk: the length of its data, its type, its data, and the check of both. */
  ghost predicate ChunkAt(check: seq<Byte> -> Word, s: seq<Byte>, i: nat, kind: seq<Byte>, data: seq<Byte>) {
    var end := i + 8 + |data|;
    && end + 4 <= |s|
    && NumberAt(s, i, |data|) && s[i + 4..i + 8] == kind && s[i + 8..end] == data
    && NumberAt(s, end, check(s[i + 4..end]))
  }

  lemma BigEndianAt(s: seq<Byte>, i: nat, n: nat)
    requires n < LIMIT && i + 4 <= |s| && s[i..i + 4] == BigEndian(n)
    ensures NumberAt(s, i, n)
  {
    NumberOfBigEndian(n);
    var b := BigEndian(n);
    assert s[i..i + 4][0] == b[0] && s[i..i + 4][1] == b[1] && s[i..i + 4][2] == b[2] && s[i..i + 4][3] == b[3];
  }

  lemma WrittenAt(check: seq<Byte> -> Word, c: Chunk, before: seq<Byte>, after: seq<Byte>)
    requires Proper(c)
    ensures ChunkAt(check, before + Written(check, c) + after, |before|, c.kind, c.data)
  {
    var i, n, w := |before|, |c.data|, Written(check, c);
    var s := before + w + after;
    var crc := check(c.kind + c.data);
    WrittenSlices(check, c);
    assert s[i..i + 12 + n] == w;
    SubSlice(s, i, 12 + n, 0, 4);
    SubSlice(s, i, 12 + n, 4, 8);
    SubSlice(s, i, 12 + n, 8, 8 + n);
    SubSlice(s, i, 12 + n, 4, 8 + n);
    SubSlice(s, i, 12 + n, 8 + n, 12 + n);
    BigEndianAt(s, i, n);
    BigEndianAt(s, i + 8 + n, crc);
  }

  lemma WrittenSlices(check: seq<Byte> -> Word, c: Chunk)
    requires Proper(c)
    ensures var w, n := Written(check, c), |c.data|;
            && |w| == 12 + n && w[0..4] == BigEndian(n) && w[4..8] == c.kind && w[8..8 + n] == c.data
            && w[4..8 + n] == c.kind + c.data && w[8 + n..12 + n] == BigEndian(check(c.kind + c.data))
  {
  }

  /** The file, byte by byte: the eight bytes of the signature; a header chunk with width and height, eight bits
      and three colours; the compressed pixels in one data chunk; and an empty chunk at the end. */
  lemma FileLayout(check: seq<Byte> -> Word, width: nat, height: nat, z: seq<Byte>) returns (header: seq<Byte>)
    requires width < LIMIT && height < LIMIT && |z| < LIMIT - 4
    ensures |header| == 13 && NumberAt(header, 0, width) && NumberAt(header, 4, height)
    ensures header[8..] == [8, 2, 0, 0, 0]
    ensures var s := File(check, width, height, z);
            && |s| == 8 + 25 + 12 + |z| + 12 && s[..8] == [137, 80, 78, 71, 13, 10, 26, 10]
            && ChunkAt(check, s, 8, [73, 72, 68, 82], header)
            && ChunkAt(check, s, 33, [73, 68, 65, 84], z)
            && ChunkAt(check, s, 33 + 12 + |z|, [73, 69, 78, 68], [])
  {
    header := Header(width, height);
    HeaderBytes(width, height);
    var c0, c1, c2 := Chunk(IHDR, header), Chunk(IDAT, z), End();
    var w0, w1, w2 := Written(check, c0), Written(check, c1), Written(check, c2);
    FileParts(check, width, height, z);
    Regroup(SIGNATURE + w0, w1, w2);
    Regroup(SIGNATURE, w0, w1 + w2);
    WrittenAt(check, c0, SIGNATURE, w1 + w2);
    WrittenAt(check, c1, SIGNATURE + w0, w2);
    WrittenAt(check, c2, SIGNATURE + w0 + w1, []);
    assert SIGNATURE + w0 + w1 + w2 + [] == SIGNATURE + w0 + w1 + w2;
  }

  lemma HeaderBytes(width: nat, height: nat)
    requires width < LIMIT && height < LIMIT
    ensures var h := Header(width, height);
            |h| == 13 && NumberAt(h, 0, width) && NumberAt(h, 4, height) && h[8..] == [8, 2, 0, 0, 0]
  {
    var h := Header(width, height);
    assert h[0..4] == BigEndian(width) && h[4..8] == BigEndian(height);
    BigEndianAt(h, 0, width);
    BigEndianAt(h, 4, height);
  }

  // ----- the encoder ----------------------------------------------------------------------------

  /** At `at` stands the row that starts at `src`, behind its filter byte. */
  ghost predicate RowAt(all: seq<Byte>, at: nat, pixels: seq<Byte>, src: nat, stride: nat) {
    && at + 1 + stride <= |all| && src + stride <= |pixels|
    && all[at..at + 1 + stride] == [0] + pixels[src..src + stride]
  }

  /** Row `j` of the file is row `height - j - 1` of the buffer. */
  lemma {:induction false} FilteredRow(all: seq<Byte>, pixels: seq<Byte>, stride: nat, height: nat,
                                       j: nat, at: nat, src: nat)
    requires |pixels| == Size(stride, height) && all == Filtered(pixels, stride, height) && j < height
    requires at == Size(stride + 1, j) && src == Size(stride, height - j - 1)
    ensures RowAt(all, at, pixels, src, stride)
    decreases height
  {
    var k := Size(stride, height - 1);
    if j > 0 {
      var rest := Filtered(pixels[..k], stride, height - 1);
      assert at == Size(stride + 1, j - 1) + stride + 1;
      FilteredRow(rest, pixels[..k], stride, height - 1, j - 1, at - stride - 1, src);
      FilteredFront(all, pixels, stride, height, k, rest);
      RowOfRest(all, pixels, k, rest, at - stride - 1, src, stride);
    } else {
      FilteredFront(all, pixels, stride, height, k, Filtered(pixels[..k], stride, height - 1));
      RowOfFirst(all, pixels, k, Filtered(pixels[..k], stride, height - 1), stride);
    }
  }

  lemma FilteredFront(all: seq<Byte>, pixels: seq<Byte>, stride: nat, height: nat, k: nat, rest: seq<Byte>)
    requires |pixels| == Size(stride, height) && all == Filtered(pixels, stride, height) && height > 0
    requires k == Size(stride, height - 1) && rest == Filtered(pixels[..k], stride, height - 1)
    ensures |pixels| == k + stride && all == [0] + pixels[k..] + rest
  {
  }

  lemma RowOfFirst(all: seq<Byte>, pixels: seq<Byte>, k: nat, rest: seq<Byte>, stride: nat)
    requires |pixels| == k + stride && all == [0] + pixels[k..] + rest
    ensures RowAt(all, 0, pixels, k, stride)
  {
    FirstSlice([0] + pixels[k..], rest);
  }

  lemma RowOfRest(all: seq<Byte>, pixels: seq<Byte>, k: nat, rest: seq<Byte>, at: nat, src: nat, stride: nat)
    requires |pixels| == k + stride && RowAt(rest, at, pixels[..k], src, stride) && all == [0] + pixels[k..] + rest
    ensures RowAt(all, stride + 1 + at, pixels, src, stride)
  {
    LaterSlice([0] + pixels[k..], rest, at, at + 1 + stride);
    EarlierSlice(pixels, k, src, src + stride);
  }

  lemma FirstSlice(a: seq<Byte>, b: seq<Byte>)
    ensures (a + b)[0..|a|] == a
  {
  }

  lemma LaterSlice(a: seq<Byte>, b: seq<Byte>, i: nat, j: nat)
    requires i <= j <= |b|
    ensures (a + b)[|a| + i..|a| + j] == b[i..j]
  {
  }

  lemma EarlierSlice(s: seq<Byte>, k: nat, i: nat, j: nat)
    requires i <= j <= k <= |s|
    ensures s[..k][i..j] == s[i..j]
  {
  }

  lemma SubSlice(s: seq<Byte>, o: nat, n: nat, i: nat, j: nat)
    requires o + n <= |s| && i <= j <= n
    ensures s[o..o + n][i..j] == s[o + i..o + j]
  {
    var a, b := s[o..o + n][i..j], s[o + i..o + j];
    assert |a| == |b|;
    forall k | 0 <= k < j - i
      ensures a[k] == b[k]
    {
      assert a[k] == s[o..o + n][i + k] == s[o + (i + k)];
      assert b[k] == s[o + i + k];
    }
  }

  /** Where row `i` begins. */
  method RowStart(stride: nat, i: nat) returns (at: nat)
    ensures at == Size(stride, i)
  {
    SizeIs(stride, i);
    at := stride * i;
  }

  /** One row: the filter byte and a copy. */
  method FilterRow(buffer: array<Byte>, src: nat, filtered: array<Byte>, at: nat, length: nat, ghost total: seq<Byte>,
                   ghost row: seq<Byte>)
    requires buffer != filtered && src + length <= buffer.Length && row == buffer[..][src..src + length]
    requires at + 1 + length <= |total| <= filtered.Length && filtered[..at] == total[..at]
    requires total[at..at + 1 + length] == [0] + row
    modifies filtered
    ensures filtered[..at + 1 + length] == total[..at + 1 + length]
  {
    filtered[at] := 0;
    assert total[at..at + 1 + length][0] == 0;
    for i := 0 to length
      invariant filtered[..at + 1 + i] == total[..at + 1 + i]
    {
      assert total[at..at + 1 + length][i + 1] == row[i];
      filtered[at + 1 + i] := buffer[src + i];
    }
  }

  /** `total` holds row `j` of the file. */
  ghost predicate HoldsRow(total: seq<Byte>, pixels: seq<Byte>, stride: nat, height: nat, j: nat) {
    j < height && RowAt(total, Size(stride + 1, j), pixels, Size(stride, height - j - 1), stride)
  }

  lemma FilteredHoldsRow(all: seq<Byte>, pixels: seq<Byte>, stride: nat, height: nat, j: nat)
    requires |pixels| == Size(stride, height) && all == Filtered(pixels, stride, height) && j < height
    ensures HoldsRow(all, pixels, stride, height, j)
  {
    FilteredRow(all, pixels, stride, height, j, Size(stride + 1, j), Size(stride, height - j - 1));
  }

  lemma FilteredHoldsRows(all: seq<Byte>, pixels: seq<Byte>, stride: nat, height: nat)
    requires |pixels| == Size(stride, height) && all == Filtered(pixels, stride, height)
    ensures forall j: nat :: j < height ==> HoldsRow(all, pixels, stride, height, j)
  {
    forall j: nat | j < height
      ensures HoldsRow(all, pixels, stride, height, j)
    {
      FilteredHoldsRow(all, pixels, stride, height, j);
    }
  }

  /** The loop over the rows. */
  method FilterRows(buffer: array<Byte>, offset: nat, filtered: array<Byte>, stride: nat, height: nat,
                    ghost pixels: seq<Byte>, ghost total: seq<Byte>)
    requires buffer != filtered && Size(stride + 1, height) == |total| <= filtered.Length
    requires offset + |pixels| <= buffer.Length && pixels == buffer[..][offset..offset + |pixels|]
    requires forall j: nat :: j < height ==> HoldsRow(total, pixels, stride, height, j)
    modifies filtered
    ensures filtered[..|total|] == total
  {
    ghost var all := buffer[..];
    var end := 0;
    for j := 0 to height
      invariant end == Size(stride + 1, j) <= |total| && filtered[..end] == total[..end] && buffer[..] == all
    {
      var at := RowStart(stride + 1, j);
      var src := RowStart(stride, height - j - 1);
      assert HoldsRow(total, pixels, stride, height, j);
      SubSlice(all, offset, |pixels|, src, src + stride);
      FilterRow(buffer, offset + src, filtered, at, stride, total, pixels[src..src + stride]);
      end := at + 1 + stride;
    }
  }

  method FilterImage(buffer: array<Byte>, offset: nat, filtered: array<Byte>, width: nat, height: nat)
    requires buffer != filtered && offset + Size(3 * width, height) <= buffer.Length
    requires Size(3 * width + 1, height) <= filtered.Length
    modifies filtered
    ensures filtered[..Size(3 * width + 1, height)]
         == Filtered(buffer[offset..offset + Size(3 * width, height)], 3 * width, height)
  {
    ghost var pixels := buffer[offset..offset + Size(3 * width, height)];
    FilteredHoldsRows(Filtered(pixels, 3 * width, height), pixels, 3 * width, height);
    FilterRows(buffer, offset, filtered, 3 * width, height, pixels, Filtered(pixels, 3 * width, height));
  }

  lemma Regroup(a: seq<Byte>, b: seq<Byte>, c: seq<Byte>)
    ensures a + (b + c) == a + b + c
  {
  }

  /** Writes some bytes at `p` and moves on behind them. */
  method Put(dst: array<Byte>, start: nat, p: nat, bytes: seq<Byte>) returns (q: nat)
    requires start <= p && p + |bytes| <= dst.Length
    modifies dst
    ensures q == p + |bytes| && dst[start..q] == old(dst[start..p]) + bytes && dst[..start] == old(dst[..start])
  {
    q := p;
    for i := 0 to |bytes|
      invariant q == p + i && dst[start..q] == old(dst[start..p]) + bytes[..i] && dst[..start] == old(dst[..start])
    {
      dst[q] := bytes[i];
      q := q + 1;
    }
  }

  /** `check` is the CRC by another name, under which the solver need not look into it. */
  ghost predicate IsCrc(check: seq<Byte> -> Word) {
    forall s: seq<Byte> {:trigger CrcOf(s)} :: check(s) == CrcOf(s)
  }

  lemma CrcIsCrc()
    ensures IsCrc(CrcOf)
  {
  }

  lemma NamedIend(check: seq<Byte> -> Word, p: seq<Byte>)
    requires IsCrc(check) && p == IEND
    ensures check(p) == 0xae426082
  {
    MachineWords.CrcOfIend(p);
  }

  method NamedCrc(dst: array<Byte>, offset: nat, length: nat, table: array<Word>, ghost check: seq<Byte> -> Word)
    returns (r: Word)
    requires offset + length <= dst.Length && IsTable(table[..]) && IsCrc(check)
    ensures r == check(dst[offset..offset + length])
  {
    r := PngCrc(table, dst, offset, length);
  }

  /** The CRC of the chunk just written, over its type and data. */
  method PutCrc(dst: array<Byte>, start: nat, p: nat, n: nat, table: array<Word>,
                ghost check: seq<Byte> -> Word, ghost before: seq<Byte>, ghost c: Chunk)
    returns (q: nat)
    requires start <= p && p + 4 <= dst.Length && IsTable(table[..]) && IsCrc(check)
    requires |c.kind| == 4 && |c.data| == n && dst[start..p] == before + (BigEndian(n) + c.kind + c.data)
    modifies dst
    ensures q == p + 4 && dst[start..q] == before + Written(check, c) && dst[..start] == old(dst[..start])
  {
    Tail(dst[start..p], before, BigEndian(n), c.kind, c.data);
    assert dst[start..p][p - n - 4 - start..] == dst[p - n - 4..p];
    var crc := NamedCrc(dst, p - n - 4, n + 4, table, check);
    q := Put(dst, start, p, BigEndian(crc));
    Regroup(before, BigEndian(n) + c.kind + c.data, BigEndian(crc));
  }

  lemma Tail(s: seq<Byte>, a: seq<Byte>, b: seq<Byte>, c: seq<Byte>, d: seq<Byte>)
    requires s == a + (b + c + d)
    ensures s[|s| - |c| - |d|..] == c + d
  {
  }

  method PutHeader(dst: array<Byte>, start: nat, p0: nat, width: nat, height: nat, table: array<Word>,
                   ghost check: seq<Byte> -> Word)
    returns (p: nat)
    requires start <= p0 && p0 + 25 <= dst.Length && IsTable(table[..]) && IsCrc(check)
    modifies dst
    ensures p == p0 + 25 && dst[..start] == old(dst[..start])
    ensures dst[start..p] == old(dst[start..p0]) + Written(check, Chunk(IHDR, Header(width, height)))
  {
    ghost var before, w, h := dst[start..p0], BigEndian(width), BigEndian(height);
    p := Put(dst, start, p0, BigEndian(13));
    p := Put(dst, start, p, ['I' as int, 'H' as int, 'D' as int, 'R' as int]);
    p := Put(dst, start, p, BigEndian(width));
    p := Put(dst, start, p, BigEndian(height));
    p := Put(dst, start, p, [8, 2, 0, 0, 0]);
    RegroupHeader(before, BigEndian(13), IHDR, w, h, [8, 2, 0, 0, 0]);
    p := PutCrc(dst, start, p, 13, table, check, before, Chunk(IHDR, Header(width, height)));
  }

  lemma RegroupHeader(o: seq<Byte>, n: seq<Byte>, k: seq<Byte>, w: seq<Byte>, h: seq<Byte>, t: seq<Byte>)
    ensures o + n + k + w + h + t == o + (n + k + (w + h + t))
  {
  }

  method PutData(dst: array<Byte>, start: nat, p0: nat, z: seq<Byte>, table: array<Word>,
                 ghost check: seq<Byte> -> Word)
    returns (p: nat)
    requires start <= p0 && p0 + 12 + |z| <= dst.Length && IsTable(table[..]) && IsCrc(check)
    modifies dst
    ensures p == p0 + 12 + |z| && dst[..start] == old(dst[..start])
    ensures dst[start..p] == old(dst[start..p0]) + Written(check, Chunk(IDAT, z))
  {
    ghost var before := dst[start..p0];
    p := Put(dst, start, p0, BigEndian(|z|));
    p := Put(dst, start, p, ['I' as int, 'D' as int, 'A' as int, 'T' as int]);
    p := Put(dst, start, p, z);
    RegroupHeader(before, BigEndian(|z|), IDAT, z, [], []);
    assert z + [] + [] == z && before + BigEndian(|z|) + IDAT + z + [] + [] == before + BigEndian(|z|) + IDAT + z;
    p := PutCrc(dst, start, p, |z|, table, check, before, Chunk(IDAT, z));
  }

  method PutEnd(dst: array<Byte>, start: nat, p0: nat, ghost check: seq<Byte> -> Word) returns (p: nat)
    requires start <= p0 && p0 + 12 <= dst.Length && check(IEND) == 0xae426082
    modifies dst
    ensures p == p0 + 12 && dst[..start] == old(dst[..start])
    ensures dst[start..p] == old(dst[start..p0]) + Written(check, End())
  {
    ghost var before := dst[start..p0];
    p := Put(dst, start, p0, [0, 0, 0, 0]);
    p := Put(dst, start, p, ['I' as int, 'E' as int, 'N' as int, 'D' as int]);
    p := Put(dst, start, p, [174, 66, 96, 130]);
    EndWritten(check);
    RegroupEnd(before, [0, 0, 0, 0], IEND, [174, 66, 96, 130]);
  }

  lemma EndWritten(check: seq<Byte> -> Word)
    requires check(IEND) == 0xae426082
    ensures Written(check, End()) == [0, 0, 0, 0] + IEND + [174, 66, 96, 130]
  {
    assert IEND + [] == IEND && [0, 0, 0, 0] + IEND + [] == [0, 0, 0, 0] + IEND;
  }

  lemma RegroupEnd(o: seq<Byte>, n: seq<Byte>, k: seq<Byte>, c: seq<Byte>)
    ensures o + n + k + c == o + (n + k + c)
  {
  }

  /** What stands before the compressed pixels. */
  function Front(check: seq<Byte> -> Word, width: nat, height: nat): seq<Byte> {
    SIGNATURE + Written(check, Chunk(IHDR, Header(width, height)))
  }

  method PutFront(dst: array<Byte>, start: nat, width: nat, height: nat, table: array<Word>,
                  ghost check: seq<Byte> -> Word)
    returns (p: nat)
    requires start + 8 + 25 <= dst.Length && IsTable(table[..]) && IsCrc(check)
    modifies dst
    ensures p == start + 8 + 25 && dst[..start] == old(dst[..start]) && dst[start..p] == Front(check, width, height)
  {
    p := Put(dst, start, start, [137, 80, 78, 71, 13, 10, 26, 10]);
    assert dst[start..p] == SIGNATURE;
    p := PutHeader(dst, start, p, width, height, table, check);
  }

  method PutBack(dst: array<Byte>, start: nat, p0: nat, width: nat, height: nat, z: seq<Byte>, table: array<Word>,
                 ghost check: seq<Byte> -> Word)
    returns (p: nat)
    requires start <= p0 && p0 + 12 + |z| + 12 <= dst.Length && dst[start..p0] == Front(check, width, height)
    requires IsTable(table[..]) && IsCrc(check) && check(IEND) == 0xae426082
    modifies dst
    ensures start <= p <= dst.Length && dst[..start] == old(dst[..start])
    ensures dst[start..p] == File(check, width, height, z)
  {
    p := PutData(dst, start, p0, z, table, check);
    p := PutEnd(dst, start, p, check);
    FileParts(check, width, height, z);
  }

  /** `trell_png_encode`, under a name for the CRC. */
  method EncodeAs(buffer: array<Byte>, offset: nat, filtered: array<Byte>, width: nat, height: nat, table: array<Word>,
                  compress: seq<Byte> -> Compressed, bound: nat, dst: array<Byte>, start: nat,
                  ghost check: seq<Byte> -> Word)
    returns (status: Status, end: nat)
    requires buffer != filtered && buffer != dst && filtered != dst && IsTable(table[..])
    requires offset + Size(3 * width, height) <= buffer.Length && Size(3 * width + 1, height) <= filtered.Length
    requires forall s: seq<Byte> ::
               compress(s).Done? && |s| == Size(3 * width + 1, height) ==> |compress(s).bytes| <= bound
    requires start + 8 + 25 + 12 + bound + 12 <= dst.Length
    requires IsCrc(check)
    modifies filtered, dst
    ensures var packed := compress(Filtered(old(buffer[offset..offset + Size(3 * width, height)]), 3 * width, height));
            && (status == OK <==> packed.Done?)
            && (status == OK ==>
                  start <= end <= dst.Length && dst[start..end] == File(check, width, height, packed.bytes))
            && (status != OK ==> end == start)
    ensures dst[..start] == old(dst[..start])
  {
    FilterImage(buffer, offset, filtered, width, height);
    var size := RowStart(3 * width + 1, height);
    ghost var f := filtered[..size];
    var p := PutFront(dst, start, width, height, table, check);
    assert filtered[..size] == f;
    match compress(filtered[..size])
    case MemError =>
      return INTERNAL_SERVER_ERROR, start;
    case BufError =>
      return INTERNAL_SERVER_ERROR, start;
    case Done(z) =>
      NamedIend(check, IEND);
      p := PutBack(dst, start, p, width, height, z, table, check);
      return OK, p;
  }

  /** `trell_png_encode`.  Nothing of the file is announced unless the compression succeeds. */
  method Encode(buffer: array<Byte>, offset: nat, filtered: array<Byte>, width: nat, height: nat,
                table: array<Word>, compress: seq<Byte> -> Compressed, bound: nat, dst: array<Byte>, start: nat)
    returns (status: Status, end: nat)
    requires buffer != filtered && buffer != dst && filtered != dst && IsTable(table[..])
    requires offset + Size(3 * width, height) <= buffer.Length && Size(3 * width + 1, height) <= filtered.Length
    requires forall s: seq<Byte> ::
               compress(s).Done? && |s| == Size(3 * width + 1, height) ==> |compress(s).bytes| <= bound
    requires start + 8 + 25 + 12 + bound + 12 <= dst.Length
    modifies filtered, dst
    ensures var packed := compress(Filtered(old(buffer[offset..offset + Size(3 * width, height)]), 3 * width, height));
            && (status == OK <==> packed.Done?)
            && (status == OK ==>
                  start <= end <= dst.Length && dst[start..end] == File(CrcOf, width, height, packed.bytes))
            && (status != OK ==> end == start)
    ensures dst[..start] == old(dst[..start])
  {
    CrcIsCrc();
    status, end := EncodeAs(buffer, offset, filtered, width, height, table, compress, bound, dst, start, CrcOf);
  }

  lemma FileParts(check: seq<Byte> -> Word, width: nat, height: nat, z: seq<Byte>)
    ensures File(check, width, height, z)
         == Front(check, width, height) + Written(check, Chunk(IDAT, z)) + Written(check, End())
  {
    var c0, c1, c2 := Chunk(IHDR, Header(width, height)), Chunk(IDAT, z), End();
    WrittenThree(check, c0, c1, c2);
    RegroupFour(SIGNATURE, Written(check, c0), Written(check, c1), Written(check, c2));
  }

  lemma RegroupFour(a: seq<Byte>, b: seq<Byte>, c: seq<Byte>, d: seq<Byte>)
    ensures a + b + c + d == a + (b + c + d)
  {
  }
}
