/**
 * The tile-data decoder (`getTileIds`): a layer's `data` field becomes a flat,
 * row-major array of `width * height` 32-bit tile ids. Plain data is taken as
 * the integer array it already is; base64 data (after base64 decoding and the
 * optional gzip or zlib inflation, which are outside this model) is read as a
 * byte stream in 4-byte little-endian chunks.
 */
module TileData {
  import opened Common

  /**
   * The fields of a layer record that the decoder reads. `plain` is what the
   * JSON reader's `asIntArray` yields for plain data; `stream` is the byte
   * sequence the chosen input stream yields for base64 data.
   */
  datatype LayerData = LayerData(
    encoding: Option<string>,
    compression: Option<string>,
    plain: seq<Uint32>,
    stream: seq<Int8>)

  /** Absent, empty or `csv`: the data is already an integer array. */
  predicate IsPlainEncoding(encoding: Option<string>) {
    encoding == None || encoding == Some("") || encoding == Some("csv")
  }

  /** Absent or empty (no inflation), `gzip` or `zlib`. */
  predicate IsKnownCompression(compression: Option<string>) {
    compression == None || compression == Some("") || compression == Some("gzip") || compression == Some("zlib")
  }

  /** `unsignedByteToInt`: `b & 0xFF` of a sign-extended Java byte. */
  function UnsignedByteToInt(b: Int8): (r: int)
    ensures 0 <= r < 256
    ensures (r - b) % 256 == 0
  {
    if b < 0 then b + 256 else b
  }

  /**
   * `b0 | b1 << 8 | b2 << 16 | b3 << 24` over the unsigned bytes. Each byte
   * lands in its own eight bits, so the bitwise or is the sum written here.
   */
  function Word(b0: Int8, b1: Int8, b2: Int8, b3: Int8): Uint32 {
    UnsignedByteToInt(b0)
    + 0x100 * (UnsignedByteToInt(b1) + 0x100 * (UnsignedByteToInt(b2) + 0x100 * UnsignedByteToInt(b3)))
  }

  /** The id held by the `i`-th 4-byte chunk of the stream. */
  function WordAt(stream: seq<Int8>, i: nat): Uint32
    requires 4 * i + 4 <= |stream|
  {
    Word(stream[4 * i], stream[4 * i + 1], stream[4 * i + 2], stream[4 * i + 3])
  }

  /** What `getTileIds` returns for a layer of `width` by `height` cells. */
  function TileIds(data: LayerData, width: nat, height: nat): Result<seq<Uint32>> {
    if IsPlainEncoding(data.encoding) then Success(data.plain)
    else if data.encoding != Some("base64") then Failure(UnrecognisedEncoding(data.encoding.value))
    else if !IsKnownCompression(data.compression) then Failure(UnrecognisedCompression(data.compression.value))
    else if |data.stream| < 4 * (width * height) then Failure(PrematureEndOfTileData)
    else Success(seq(width * height, i requires 0 <= i < width * height => WordAt(data.stream, i)))
  }

  lemma CellIndexInRange(x: nat, y: nat, width: nat, height: nat)
    requires x < width && y < height
    ensures y * width + x < width * height
  {
    assert y * width + x < (y + 1) * width;
    RowsFit(y + 1, height, width);
  }

  lemma RowsFit(rows: nat, height: nat, width: nat)
    requires rows <= height
    ensures rows * width <= width * height
  {
    assert height * width == width * height;
  }

  /**
   * `getTileIds`: nested loops over rows and columns, reading one 4-byte chunk
   * per cell into `ids[y * width + x]`.
   */
  method GetTileIds(data: LayerData, width: nat, height: nat) returns (r: Result<seq<Uint32>>)
    ensures r == TileIds(data, width, height)
  {
    if IsPlainEncoding(data.encoding) {
      return Success(data.plain);
    }
    if data.encoding != Some("base64") {
      return Failure(UnrecognisedEncoding(data.encoding.value));
    }
    if !IsKnownCompression(data.compression) {
      return Failure(UnrecognisedCompression(data.compression.value));
    }
    r := ReadTileIds(data.stream, width, height);
  }

  /** The chunk-reading loops of `getTileIds` for base64 data. */
  method ReadTileIds(stream: seq<Int8>, width: nat, height: nat) returns (r: Result<seq<Uint32>>)
    ensures r == TileIds(LayerData(Some("base64"), None, [], stream), width, height)
  {
    var n := width * height;
    var ids := new Uint32[n];
    var pos := 0;
    ghost var i := 0;  // y * width + x, the cell being read
    for y := 0 to height
      invariant i == y * width && pos == 4 * i
      invariant y < height ==> i + width <= n
      invariant 4 * i <= |stream|
      invariant forall k :: 0 <= k < i ==> ids[k] == WordAt(stream, k)
    {
      for x := 0 to width
        invariant i == y * width + x && pos == 4 * i
        invariant i + (width - x) <= n
        invariant 4 * i <= |stream|
        invariant forall k :: 0 <= k < i ==> ids[k] == WordAt(stream, k)
      {
        if pos + 4 > |stream| {
          return Failure(PrematureEndOfTileData);
        }
        ids[y * width + x] := Word(stream[pos], stream[pos + 1], stream[pos + 2], stream[pos + 3]);
        pos := pos + 4;
        i := i + 1;
      }
      assert i == (y + 1) * width;
      if y + 1 < height {
        RowsFit(y + 2, height, width);
        assert (y + 2) * width == i + width;
      }
    }
    assert i == n by {
      assert height * width == n;
    }
    assert ids[..] == seq(n, k requires 0 <= k < n => WordAt(stream, k));
    return Success(ids[..]);
  }

  // ---------------------------------------------------------------------
  // The inverse: how an editor writes ids, and the round trip.

  /** The Java byte whose bits are the unsigned value `n`. */
  function SignedByte(n: int): (b: Int8)
    requires 0 <= n < 256
    ensures UnsignedByteToInt(b) == n
  {
    if n < 128 then n else n - 256
  }

  /** The four little-endian bytes of an id. */
  function ChunkOf(t: Uint32): (bytes: seq<Int8>)
    ensures |bytes| == 4
  {
    [SignedByte(t % 0x100), SignedByte(t / 0x100 % 0x100),
     SignedByte(t / 0x1_0000 % 0x100), SignedByte(t / 0x100_0000)]
  }

  lemma WordOfChunk(t: Uint32)
    ensures var c := ChunkOf(t); Word(c[0], c[1], c[2], c[3]) == t
  {
    var q1 := t / 0x100;
    var q2 := q1 / 0x100;
    assert t / 0x1_0000 == q2;
    assert t / 0x100_0000 == q2 / 0x100;
  }

  lemma DivMod256(low: int, high: int)
    requires 0 <= low < 256 && 0 <= high
    ensures (low + 0x100 * high) % 0x100 == low
    ensures (low + 0x100 * high) / 0x100 == high
  {
  }

  lemma ChunkOfWord(b0: Int8, b1: Int8, b2: Int8, b3: Int8)
    ensures ChunkOf(Word(b0, b1, b2, b3)) == [b0, b1, b2, b3]
  {
    var u0, u1, u2, u3 := UnsignedByteToInt(b0), UnsignedByteToInt(b1), UnsignedByteToInt(b2), UnsignedByteToInt(b3);
    var t := Word(b0, b1, b2, b3);
    var r2 := u2 + 0x100 * u3;
    var r1 := u1 + 0x100 * r2;
    DivMod256(u0, r1);
    DivMod256(u1, r2);
    DivMod256(u2, u3);
    assert t / 0x1_0000 == r2;
    assert t / 0x100_0000 == u3;
  }

  /** The byte stream an editor writes for a row-major id array (before compression and base64). */
  function EncodeIds(ids: seq<Uint32>): (stream: seq<Int8>)
    ensures |stream| == 4 * |ids|
  {
    if ids == [] then [] else EncodeIds(ids[..|ids| - 1]) + ChunkOf(ids[|ids| - 1])
  }

  lemma {:induction false} EncodeIdsAt(ids: seq<Uint32>, i: nat)
    requires i < |ids|
    ensures EncodeIds(ids)[4 * i .. 4 * i + 4] == ChunkOf(ids[i])
  {
    var init := ids[..|ids| - 1];
    if i < |ids| - 1 {
      EncodeIdsAt(init, i);
      assert init[i] == ids[i];
      assert EncodeIds(ids)[4 * i .. 4 * i + 4] == EncodeIds(init)[4 * i .. 4 * i + 4];
    }
  }

  /**
   * Decoding what an editor encoded gives back every id, in row-major order,
   * whichever supported compression was declared.
   */
  lemma {:induction false} DecodeEncodeIds(ids: seq<Uint32>, compression: Option<string>, width: nat, height: nat)
    requires |ids| == width * height
    requires IsKnownCompression(compression)
    ensures TileIds(LayerData(Some("base64"), compression, [], EncodeIds(ids)), width, height) == Success(ids)
  {
    var stream := EncodeIds(ids);
    forall i | 0 <= i < |ids|
      ensures WordAt(stream, i) == ids[i]
    {
      EncodeIdsAt(ids, i);
      var c := ChunkOf(ids[i]);
      assert stream[4 * i] == c[0] && stream[4 * i + 1] == c[1] && stream[4 * i + 2] == c[2] && stream[4 * i + 3] == c[3];
      WordOfChunk(ids[i]);
    }
    assert seq(width * height, i requires 0 <= i < width * height => WordAt(stream, i)) == ids;
  }

  /**
   * The id of cell (x, y) comes from chunk `y * width + x`: row-major order,
   * each chunk read little-endian.
   */
  lemma TileIdAtCell(data: LayerData, width: nat, height: nat, x: nat, y: nat)
    requires data.encoding == Some("base64") && IsKnownCompression(data.compression)
    requires TileIds(data, width, height).Success?
    requires x < width && y < height
    ensures y * width + x < width * height
    ensures |TileIds(data, width, height).value| == width * height
    ensures 4 * (y * width + x) + 4 <= |data.stream|
    ensures var i := y * width + x;
      TileIds(data, width, height).value[i]
      == UnsignedByteToInt(data.stream[4 * i])
         + 0x100 * UnsignedByteToInt(data.stream[4 * i + 1])
         + 0x1_0000 * UnsignedByteToInt(data.stream[4 * i + 2])
         + 0x100_0000 * UnsignedByteToInt(data.stream[4 * i + 3])
  {
    var i := y * width + x;
    CellIndexInRange(x, y, width, height);
    TileIdAt(data, width, height, i);
  }

  lemma TileIdAt(data: LayerData, width: nat, height: nat, i: nat)
    requires data.encoding == Some("base64") && IsKnownCompression(data.compression)
    requires TileIds(data, width, height).Success?
    requires i < width * height
    ensures |TileIds(data, width, height).value| == width * height
    ensures 4 * i + 4 <= |data.stream|
    ensures TileIds(data, width, height).value[i]
      == UnsignedByteToInt(data.stream[4 * i])
         + 0x100 * UnsignedByteToInt(data.stream[4 * i + 1])
         + 0x1_0000 * UnsignedByteToInt(data.stream[4 * i + 2])
         + 0x100_0000 * UnsignedByteToInt(data.stream[4 * i + 3])
  {
    var n := width * height;
    assert 4 * i + 4 <= 4 * n;
    assert TileIds(data, width, height).value[i] == WordAt(data.stream, i);
  }

  /** The three ways the decoder refuses a layer, and nothing else refuses it. */
  lemma TileIdsFailures(data: LayerData, width: nat, height: nat)
    ensures TileIds(data, width, height).Failure? <==>
      (!IsPlainEncoding(data.encoding) &&
       (data.encoding != Some("base64")
        || !IsKnownCompression(data.compression)
        || |data.stream| < 4 * (width * height)))
    ensures TileIds(data, width, height) == Failure(PrematureEndOfTileData) <==>
      (data.encoding == Some("base64") && IsKnownCompression(data.compression)
       && |data.stream| < 4 * (width * height))
  {
  }

  // ---------------------------------------------------------------------
  // The chunk read as written (see README, Findings).

  /**
   * One call `read(buffer, offset, length)` on a stream of `stream` whose
   * read position is `pos`, into a 4-byte buffer: a negative offset or length,
   * or a range past the buffer, is an `IndexOutOfBoundsException`; otherwise
   * 0 for an empty request, -1 at end of stream, else at least one and at
   * most `length` of the available bytes. How many is the stream's choice
   * (an inflating stream often delivers fewer than asked): `grant`.
   */
  function ReadCall(stream: seq<Int8>, pos: nat, offset: int, length: int, grant: nat): (r: Result<int>)
    ensures r.Success? ==> -1 <= r.value <= length
    ensures r.Success? && r.value > 0 ==> pos + r.value <= |stream|
    ensures r.Success? && length > 0 ==> (r.value == -1 <==> pos >= |stream|)
  {
    if offset < 0 || length < 0 || offset + length > 4 then Failure(IndexOutOfBounds)
    else if length == 0 then Success(0)
    else if pos >= |stream| then Success(-1)
    else Success(Min(Min(length, |stream| - pos), if grant == 0 then 1 else grant))
  }

  function Min(a: int, b: int): int {
    if a < b then a else b
  }

  /** How many bytes the stream delivers on call `k` (everything asked for once the schedule runs out). */
  function Grant(grants: seq<nat>, k: nat): nat {
    if k < |grants| then grants[k] else 4
  }

  /** The outcome of reading one chunk as the source's read loop does. */
  function ChunkReadAsWritten(stream: seq<Int8>, pos: nat): Result<nat> {
    if pos + 4 <= |stream| then Success(pos + 4)
    else if pos >= |stream| then Failure(IndexOutOfBounds)
    else Failure(PrematureEndOfTileData)
  }

  /**
   * The read loop of one cell as written: `read = in.read(temp)`, then while
   * `read < 4` ask for the rest at offset `read`, stopping at end of stream.
   * When the stream is already exhausted the first call yields -1 and the
   * next call is made with offset -1. The outcome does not depend on how the
   * stream splits its deliveries.
   */
  method ReadChunkAsWritten(stream: seq<Int8>, pos: nat, grants: seq<nat>) returns (r: Result<nat>)
    ensures r == ChunkReadAsWritten(stream, pos)
  {
    var first := ReadCall(stream, pos, 0, 4, Grant(grants, 0));
    var read := first.value;
    if read == -1 {
      // The loop's first call asks for 5 bytes at offset -1.
      var curr := ReadCall(stream, pos, read, 4 - read, Grant(grants, 1));
      return Failure(curr.error);
    }
    var at := pos + read;
    var k := 1;
    while read < 4
      invariant 1 <= read <= 4
      invariant at == pos + read && at <= |stream|
      decreases 4 - read
    {
      var curr := ReadCall(stream, at, read, 4 - read, Grant(grants, k));
      if curr.value == -1 {
        break;
      }
      read := read + curr.value;
      at := at + curr.value;
      k := k + 1;
    }
    if read != 4 {
      return Failure(PrematureEndOfTileData);
    }
    return Success(at);
  }

  /** The read the decoder intends: four bytes, or "premature end of tile data". */
  function ChunkRead(stream: seq<Int8>, pos: nat): (r: Result<nat>)
    ensures r.Success? <==> ChunkReadAsWritten(stream, pos).Success?
    ensures r.Failure? ==> r.error == PrematureEndOfTileData
  {
    if pos + 4 <= |stream| then Success(pos + 4) else Failure(PrematureEndOfTileData)
  }

  /**
   * A stream that ends exactly on a chunk boundary one cell too early is
   * reported as an index error instead of the premature end of tile data.
   */
  lemma ExhaustedStreamMisreported(stream: seq<Int8>)
    ensures ChunkReadAsWritten(stream, |stream|) == Failure(IndexOutOfBounds)
    ensures ChunkRead(stream, |stream|) == Failure(PrematureEndOfTileData)
  {
  }
}
