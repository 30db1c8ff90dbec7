/**
 * The map-wide settings `loadTiledMap` fixes before reading layers: the
 * loader parameters (with their defaults when none are given), the tile size
 * and the map's size in pixels, which staggered maps compute with Java's
 * 32-bit integer arithmetic.
 */
module MapSize {
  import opened Common

  /** The two loader parameters the decoder reads. */
  datatype Parameters = Parameters(convertObjectToTileSpace: bool, flipY: bool)

  /** The map record's header fields; absent numbers read as 0. */
  datatype MapRecord = MapRecord(orientation: Option<string>, width: Int32, height: Int32, tileWidth: Int32, tileHeight: Int32)

  datatype Settings = Settings(
    convertObjectToTileSpace: bool,
    flipY: bool,
    mapTileWidth: Int32,
    mapTileHeight: Int32,
    mapWidthInPixels: Int32,
    mapHeightInPixels: Int32)

  /** Java's `a / 2` on `int`: the quotient truncated toward zero. */
  function Half(a: int): (r: int)
    ensures a >= 0 ==> 0 <= a - 2 * r <= 1
    ensures a < 0 ==> -1 <= a - 2 * r <= 0
  {
    if a >= 0 then a / 2 else -((-a) / 2)
  }

  /**
   * `mapWidth * tileWidth` and `mapHeight * tileHeight`, each wrapped to 32
   * bits; a staggered map taller than one row is half a tile wider and, in
   * height, half the rows plus half a tile.
   */
  function PixelSize(m: MapRecord): (r: (Int32, Int32)) {
    var w := Wrap32(m.width * m.tileWidth);
    var h := Wrap32(m.height * m.tileHeight);
    if m.orientation == Some("staggered") && m.height > 1 then
      (Wrap32(w + Half(m.tileWidth)), Wrap32(Half(h) + Half(m.tileHeight)))
    else (w, h)
  }

  /** The settings: the given parameters, or `flipY` on and no tile-space conversion when none are given. */
  function LoadSettings(parameter: Option<Parameters>, m: MapRecord): (s: Settings)
    ensures parameter == None ==> s.flipY && !s.convertObjectToTileSpace
    ensures parameter.Some? ==>
      (s.flipY == parameter.value.flipY && s.convertObjectToTileSpace == parameter.value.convertObjectToTileSpace)
    ensures (s.mapWidthInPixels, s.mapHeightInPixels) == PixelSize(m)
    ensures s.mapTileWidth == m.tileWidth && s.mapTileHeight == m.tileHeight
  {
    var size := PixelSize(m);
    match parameter
    case None => Settings(false, true, m.tileWidth, m.tileHeight, size.0, size.1)
    case Some(p) => Settings(p.convertObjectToTileSpace, p.flipY, m.tileWidth, m.tileHeight, size.0, size.1)
  }

  /** Without staggering (or with a single row), the size is the tile count times the tile size when that fits in an `int`. */
  lemma OrthogonalSize(m: MapRecord)
    requires m.orientation != Some("staggered") || m.height <= 1
    requires 0 <= m.width * m.tileWidth < Two31 && 0 <= m.height * m.tileHeight < Two31
    ensures PixelSize(m) == (m.width * m.tileWidth, m.height * m.tileHeight)
  {
  }

  /**
   * A staggered map's rows overlap by half a tile: with non-negative sizes
   * that fit, the width gains half a tile and the height is half the rows
   * plus half a tile, which for an even tile height is `(rows + 1) * tileHeight / 2`.
   */
  lemma StaggeredSize(m: MapRecord)
    requires m.orientation == Some("staggered") && m.height > 1
    requires m.width >= 0 && m.tileWidth >= 0 && m.tileHeight >= 0
    requires m.width * m.tileWidth + m.tileWidth < Two31 && m.height * m.tileHeight < Two31
    ensures PixelSize(m).0 == m.width * m.tileWidth + m.tileWidth / 2
    ensures PixelSize(m).1 == m.height * m.tileHeight / 2 + m.tileHeight / 2
    ensures m.tileHeight % 2 == 0 ==> PixelSize(m).1 == (m.height + 1) * m.tileHeight / 2
  {
    var wp := m.width * m.tileWidth;
    var hp := m.height * m.tileHeight;
    assert 0 <= wp && 0 <= hp;
    assert (m.height + 1) * m.tileHeight == hp + m.tileHeight;
    if m.tileHeight % 2 == 0 {
      HalfOfSum(hp, m.tileHeight);
    }
  }

  lemma HalfOfSum(a: nat, b: nat)
    requires b % 2 == 0
    ensures (a + b) / 2 == a / 2 + b / 2
  {
  }

  /** The products wrap like Java's: 65536 tiles of 65536 pixels make a map 0 pixels wide. */
  lemma WidthWraps()
    ensures PixelSize(MapRecord(None, 0x1_0000, 1, 0x1_0000, 1)).0 == 0
  {
  }
}
