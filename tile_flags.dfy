/**
 * The tile-id bit layout shared by tile-layer data and tile-stamp objects:
 * bit 31 flips horizontally, bit 30 vertically, bit 29 diagonally, and bits
 * 0..28 hold the global tile id. Also the fixed table that turns the three
 * flags into a cell's (flip-horizontal, flip-vertical, rotation).
 */
module TileFlags {
  import opened Common

  /** `FLAG_FLIP_HORIZONTALLY`, `FLAG_FLIP_VERTICALLY`, `FLAG_FLIP_DIAGONALLY` and `MASK_CLEAR`, as unsigned bit patterns. */
  const FlagFlipHorizontally: Uint32 := 0x8000_0000
  const FlagFlipVertically: Uint32 := 0x4000_0000
  const FlagFlipDiagonally: Uint32 := 0x2000_0000
  const MaskClear: Uint32 := 0xE000_0000

  datatype Flags = Flags(horizontal: bool, vertical: bool, diagonal: bool)

  /** Bit `2^k` of the pattern `t`, for `k` one of 29, 30, 31. */
  predicate BitSet(t: Uint32, pow: int)
    requires pow == Two29 || pow == Two30 || pow == Two31
  {
    t / pow % 2 == 1
  }

  /** The three `(id & FLAG_...) != 0` tests. */
  function FlagsOf(id: Uint32): (f: Flags)
    ensures f.horizontal <==> id >= Two31
    ensures f.horizontal <==> ToSigned32(id) < 0
  {
    Flags(BitSet(id, Two31), BitSet(id, Two30), BitSet(id, Two29))
  }

  /** `id & ~MASK_CLEAR`: the id with its three flag bits cleared. */
  function GlobalId(id: Uint32): (gid: int)
    ensures 0 <= gid < Two29
    ensures gid <= id
    ensures (id - gid) % Two29 == 0
  {
    id % Two29
  }

  /** The id that a map editor writes for a tile and its flags. */
  function Compose(f: Flags, gid: int): (id: Uint32)
    requires 0 <= gid < Two29
  {
    gid
    + (if f.horizontal then FlagFlipHorizontally else 0)
    + (if f.vertical then FlagFlipVertically else 0)
    + (if f.diagonal then FlagFlipDiagonally else 0)
  }

  /** Decoding recovers the flags and the tile id that were encoded. */
  lemma DecodeCompose(f: Flags, gid: int)
    requires 0 <= gid < Two29
    ensures FlagsOf(Compose(f, gid)) == f
    ensures GlobalId(Compose(f, gid)) == gid
  {
  }

  /** Every 32-bit id is exactly its flags plus its global id: nothing is lost. */
  lemma ComposeDecode(id: Uint32)
    ensures Compose(FlagsOf(id), GlobalId(id)) == id
  {
  }

  // ---------------------------------------------------------------------
  // Cells

  /** `Cell.ROTATE_0` .. `Cell.ROTATE_270`: counter-clockwise quarter turns. */
  datatype Rotation = Rotate0 | Rotate90 | Rotate180 | Rotate270

  /** What a cell records about how its tile is drawn. */
  datatype Orientation = Orientation(flipHorizontally: bool, flipVertically: bool, rotation: Rotation)

  /** `createTileLayerCell`: the diagonal flip becomes a rotation plus at most one flip. */
  function CellOrientation(f: Flags): (o: Orientation)
    ensures !f.diagonal ==> o == Orientation(f.horizontal, f.vertical, Rotate0)
    ensures f.diagonal ==> o.rotation == Rotate90 || o.rotation == Rotate270
    ensures f.diagonal ==> !(o.flipHorizontally && o.flipVertically)
  {
    if f.diagonal then
      if f.horizontal && f.vertical then Orientation(true, false, Rotate270)
      else if f.horizontal then Orientation(false, false, Rotate270)
      else if f.vertical then Orientation(false, false, Rotate90)
      else Orientation(false, true, Rotate270)
    else
      Orientation(f.horizontal, f.vertical, Rotate0)
  }

  /** The table read backwards: which flags, if any, produce this orientation. */
  function FlagsFor(o: Orientation): (r: Option<Flags>)
  {
    match o.rotation
    case Rotate0 => Some(Flags(o.flipHorizontally, o.flipVertically, false))
    case Rotate90 =>
      if !o.flipHorizontally && !o.flipVertically then Some(Flags(false, true, true)) else None
    case Rotate180 => None
    case Rotate270 =>
      if o.flipHorizontally && !o.flipVertically then Some(Flags(true, true, true))
      else if !o.flipHorizontally && !o.flipVertically then Some(Flags(true, false, true))
      else if !o.flipHorizontally && o.flipVertically then Some(Flags(false, false, true))
      else None
  }

  /** The table loses nothing: each of the eight flag combinations has its own orientation. */
  lemma CellOrientationInvertible(f: Flags)
    ensures FlagsFor(CellOrientation(f)) == Some(f)
  {
  }

  lemma CellOrientationInjective(f: Flags, g: Flags)
    requires CellOrientation(f) == CellOrientation(g)
    ensures f == g
  {
    CellOrientationInvertible(f);
    CellOrientationInvertible(g);
  }

  /** `Cell.ROTATE_180` never comes out of the table, and every other orientation does. */
  lemma OrientationsReached(o: Orientation)
    ensures (exists f :: CellOrientation(f) == o) <==> FlagsFor(o).Some?
  {
    if FlagsFor(o).Some? {
      assert CellOrientation(FlagsFor(o).value) == o;
    }
    if f :| CellOrientation(f) == o {
      CellOrientationInvertible(f);
    }
  }

  /**
   * The flips a tile-stamp object takes from its gid: the horizontal and
   * vertical bits only; the diagonal bit is not consulted.
   */
  function StampFlips(id: Uint32): (flips: (bool, bool))
    ensures flips == (FlagsOf(id).horizontal, FlagsOf(id).vertical)
  {
    (BitSet(id, Two31), BitSet(id, Two30))
  }

  /** Setting or clearing the diagonal bit of a stamp's gid changes neither its flips nor its tile. */
  lemma StampIgnoresDiagonal(f: Flags, gid: int)
    requires 0 <= gid < Two29
    ensures StampFlips(Compose(f, gid)) == StampFlips(Compose(f.(diagonal := !f.diagonal), gid))
    ensures GlobalId(Compose(f, gid)) == GlobalId(Compose(f.(diagonal := !f.diagonal), gid))
  {
    DecodeCompose(f, gid);
    DecodeCompose(f.(diagonal := !f.diagonal), gid);
  }
}
