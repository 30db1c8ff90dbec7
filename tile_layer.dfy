/**
 * The cell-placement loop of `loadTileLayer`: the decoded ids are visited in
 * row-major order; an id whose global tile id names a loaded tile becomes a
 * cell with that tile and the orientation its flags select, placed in the
 * source row or, when the y axis is flipped, in the mirrored row. An id with
 * no tile leaves the cell empty. Data shorter than the layer stops the loop
 * at the first missing id, after the cells before it are placed.
 */
module TileLayers {
  import opened Common
  import opened TileFlags
  import opened MapModel
  import TileData

  /** `TiledMapTileLayer`: a width-by-height grid of optional cells, indexed `[x, y]`. */
  class TileLayer {
    const width: nat
    const height: nat
    const cells: array2<Option<Cell>>

    constructor (width: nat, height: nat)
      ensures this.width == width && this.height == height
      ensures fresh(cells) && cells.Length0 == width && cells.Length1 == height
      ensures forall x, y :: 0 <= x < width && 0 <= y < height ==> cells[x, y] == None
    {
      this.width := width;
      this.height := height;
      cells := new Option<Cell>[width, height]((x, y) => None);
    }

    ghost predicate Valid()
      reads this
    {
      cells.Length0 == width && cells.Length1 == height
    }
  }

  /** `flipY ? height - 1 - y : y`: the layer row that source row `y` lands in. */
  function Row(flipY: bool, height: nat, y: nat): int {
    if flipY then height - 1 - y else y
  }

  /** Rows map onto rows one to one, and mapping twice is the identity: the row a cell came from is `Row` of the row it sits in. */
  lemma RowInvolution(flipY: bool, height: nat, y: nat)
    requires y < height
    ensures 0 <= Row(flipY, height, y) < height
    ensures Row(flipY, height, Row(flipY, height, y)) == y
  {
  }

  /** With the y axis flipped, the first source row is the layer's top row and the last is row 0. */
  lemma FlipMirrorsRows(height: nat)
    requires height > 0
    ensures Row(true, height, 0) == height - 1 && Row(true, height, height - 1) == 0
    ensures forall y :: 0 <= y < height ==> Row(false, height, y) == y
  {
  }

  /** The cell an id makes, if its global tile id names a loaded tile. */
  function CellFor(id: Uint32, tiles: map<int, Tile>): (c: Option<Cell>)
    ensures c.Some? <==> GlobalId(id) in tiles
    ensures c.Some? ==> c.value.tile == tiles[GlobalId(id)] && c.value.orientation == CellOrientation(FlagsOf(id))
  {
    var gid := GlobalId(id);
    if gid in tiles then Some(Cell(tiles[gid], CellOrientation(FlagsOf(id)))) else None
  }

  /** An id written for a tile and its flags places that tile, oriented by those flags. */
  lemma CellForComposed(f: Flags, gid: int, tiles: map<int, Tile>)
    requires 0 <= gid < Two29 && gid in tiles
    ensures CellFor(Compose(f, gid), tiles) == Some(Cell(tiles[gid], CellOrientation(f)))
  {
    DecodeCompose(f, gid);
  }

  /** The id 0 (no tile) leaves its cell empty unless a tile is registered under id 0. */
  lemma EmptyIdLeavesCell(tiles: map<int, Tile>)
    requires 0 !in tiles
    ensures CellFor(0, tiles) == None
  {
  }

  /** The cell at `[x, row]` after the loop: the one the id at `index` makes, when that id was read and names a tile, else what was there. */
  function Placed(prior: Option<Cell>, ids: seq<Uint32>, tiles: map<int, Tile>, index: nat): Option<Cell> {
    if index < |ids| && CellFor(ids[index], tiles).Some? then CellFor(ids[index], tiles) else prior
  }

  /** The id index read for layer cell `[x, row]`. */
  function SourceIndex(flipY: bool, width: nat, height: nat, x: nat, row: nat): (i: nat)
    requires x < width && row < height
    ensures i < width * height
  {
    RowInvolution(flipY, height, row);
    TileData.CellIndexInRange(x, Row(flipY, height, row), width, height);
    Row(flipY, height, row) * width + x
  }

  /** What the loop leaves at layer cell `[x, row]` that held `prior`, once the loop has passed its source position. */
  function Final(prior: Option<Cell>, ids: seq<Uint32>, tiles: map<int, Tile>, flipY: bool,
                 width: nat, height: nat, x: nat, row: nat): Option<Cell>
    requires x < width && row < height
  {
    Placed(prior, ids, tiles, SourceIndex(flipY, width, height, x, row))
  }

  /** A source row after row `y` starts at or beyond the index where row `y + 1` starts. */
  lemma LaterRowsLaterIndices(flipY: bool, width: nat, height: nat, y: nat, x': nat, row': nat)
    requires x' < width && row' < height && Row(flipY, height, row') > y
    ensures SourceIndex(flipY, width, height, x', row') >= y * width + width
  {
    RowInvolution(flipY, height, row');
    var y' := Row(flipY, height, row');
    assert y' * width >= (y + 1) * width;
  }

  /**
   * The placement loop. On ids covering the layer, every cell holds what its
   * id makes (or stays as it was when the id names no tile); on too few ids
   * the loop fails at index `|ids|` after placing the cells whose ids were
   * read, and the cells whose ids are missing stay as they were.
   */
  method PlaceCells(layer: TileLayer, ids: seq<Uint32>, tiles: map<int, Tile>, flipY: bool) returns (r: Outcome)
    requires layer.Valid()
    modifies layer.cells
    ensures r == if |ids| >= layer.width * layer.height then Pass
                 else Fail(TileDataTooShort(|ids|, layer.width * layer.height))
    ensures forall x, row :: 0 <= x < layer.width && 0 <= row < layer.height ==>
      layer.cells[x, row] == Final(old(layer.cells[x, row]), ids, tiles, flipY, layer.width, layer.height, x, row)
  {
    var width, height := layer.width, layer.height;
    for y := 0 to height
      invariant y * width <= |ids|
      invariant forall x', row' :: 0 <= x' < width && 0 <= row' < height ==>
        layer.cells[x', row'] ==
          if Row(flipY, height, row') < y then Final(old(layer.cells[x', row']), ids, tiles, flipY, width, height, x', row')
          else old(layer.cells[x', row'])
    {
      r := PlaceRow(layer, ids, tiles, flipY, y);
      if r.Fail? {
        forall x', row' | 0 <= x' < width && 0 <= row' < height && Row(flipY, height, row') > y
          ensures SourceIndex(flipY, width, height, x', row') >= |ids|
        {
          LaterRowsLaterIndices(flipY, width, height, y, x', row');
        }
        TileData.RowsFit(y + 1, height, width);
        return;
      }
    }
    TileData.RowsFit(height, height, width);
    return Pass;
  }

  /** One pass of the outer loop: source row `y` into layer row `Row(flipY, height, y)`, stopping at the first missing id. */
  method PlaceRow(layer: TileLayer, ids: seq<Uint32>, tiles: map<int, Tile>, flipY: bool, y: nat) returns (r: Outcome)
    requires layer.Valid() && y < layer.height
    modifies layer.cells
    ensures r == if |ids| >= y * layer.width + layer.width then Pass
                 else Fail(TileDataTooShort(|ids|, layer.width * layer.height))
    ensures forall x', row' :: 0 <= x' < layer.width && 0 <= row' < layer.height ==>
      layer.cells[x', row'] ==
        if Row(flipY, layer.height, row') == y then Placed(old(layer.cells[x', row']), ids, tiles, y * layer.width + x')
        else old(layer.cells[x', row'])
  {
    var width, height := layer.width, layer.height;
    RowInvolution(flipY, height, y);
    var row := Row(flipY, height, y);
    for x := 0 to width
      invariant forall x', row' :: 0 <= x' < width && 0 <= row' < height ==>
        layer.cells[x', row'] ==
          if Row(flipY, height, row') == y && x' < x then Placed(old(layer.cells[x', row']), ids, tiles, y * width + x')
          else old(layer.cells[x', row'])
      invariant x > 0 ==> y * width + x <= |ids|
    {
      var index := y * width + x;
      if index >= |ids| {
        return Fail(TileDataTooShort(|ids|, width * height));
      }
      var cell := CellFor(ids[index], tiles);
      if cell.Some? {
        layer.cells[x, row] := cell;
      }
    }
    return Pass;
  }
}
