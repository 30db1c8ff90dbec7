/**
 * The coordinate and id arithmetic of `loadObject`: scaling into tile space,
 * flipping the y axis, the anchor each kind of object gets, polygon and
 * polyline vertices, and the tile stamp's gid. Also the anchor of an image
 * layer, which follows the same flip.
 */
module ObjectGeometry {
  import opened Common
  import opened TileFlags
  import opened MapModel
  import opened Properties

  /** A polygon or polyline point as written, relative to the object. */
  datatype Point = Point(x: real, y: real)

  /**
   * The fields of an object record that `loadObject` reads. Numbers the
   * record leaves out read as 0 (`x`, `y`, `id`); `width` and `height` stay
   * optional because a tile stamp defaults them to its region's size.
   */
  datatype ObjectRecord = ObjectRecord(
    typ: Option<string>,
    name: Option<string>,
    id: Int32,
    x: real,
    y: real,
    width: Option<real>,
    height: Option<real>,
    polygon: Option<seq<Point>>,
    polyline: Option<seq<Point>>,
    ellipse: bool,
    gid: Option<string>,
    rotation: Option<real>,
    visible: bool,
    properties: seq<PropertyRecord>)

  /** Where objects are placed: the y flip, the scale into tile space and the height the flip mirrors in. */
  datatype Placement = Placement(flipY: bool, scaleX: real, scaleY: real, heightInPixels: real)

  /** `convertObjectToTileSpace ? 1 / tileSize : 1`. */
  function Scale(convert: bool, tileSize: int): (s: real)
    requires convert ==> tileSize != 0
    ensures !convert ==> s == 1.0
    ensures convert ==> s * tileSize as real == 1.0
  {
    if convert then 1.0 / tileSize as real else 1.0
  }

  /** A y coordinate as written, in the output's axis: mirrored in `height` when flipping. */
  function Target(flipY: bool, height: real, y: real): real {
    if flipY then height - y else y
  }

  /** Rectangles, ellipses and the `y` property: `flipY ? y - height : y`. */
  function BoxY(flipY: bool, y: real, height: real): real {
    if flipY then y - height else y
  }

  /** Tile stamps: `flipY ? y : y - height`. */
  function StampY(flipY: bool, y: real, height: real): real {
    if flipY then y else y - height
  }

  function Min(a: real, b: real): real {
    if a <= b then a else b
  }

  /** Mirroring twice gives the coordinate back. */
  lemma TargetInvolution(flipY: bool, height: real, y: real)
    ensures Target(flipY, height, Target(flipY, height, y)) == y
  {
  }

  /**
   * A rectangle's record `y` is its top edge (the y axis points down in the
   * editor). In either output axis its anchor is the lower of its two edges.
   */
  lemma RectangleAnchorIsMinCorner(flipY: bool, mapHeight: real, y: real, height: real, scale: real)
    requires height >= 0.0 && scale > 0.0
    ensures BoxY(flipY, Target(flipY, mapHeight, y) * scale, height * scale)
         == Min(Target(flipY, mapHeight, y) * scale, Target(flipY, mapHeight, y + height) * scale)
  {
    if flipY {
      assert Target(flipY, mapHeight, y + height) * scale == Target(flipY, mapHeight, y) * scale - height * scale;
    } else {
      assert Target(flipY, mapHeight, y + height) * scale == Target(flipY, mapHeight, y) * scale + height * scale;
    }
  }

  /**
   * A tile stamp's record `y` is its bottom edge. The opposite formula gives
   * it, too, the lower of its two edges in either output axis.
   */
  lemma StampAnchorIsMinCorner(flipY: bool, mapHeight: real, y: real, height: real, scale: real)
    requires height >= 0.0 && scale > 0.0
    ensures StampY(flipY, Target(flipY, mapHeight, y) * scale, height * scale)
         == Min(Target(flipY, mapHeight, y - height) * scale, Target(flipY, mapHeight, y) * scale)
  {
    if flipY {
      assert Target(flipY, mapHeight, y - height) * scale == Target(flipY, mapHeight, y) * scale + height * scale;
    } else {
      assert Target(flipY, mapHeight, y - height) * scale == Target(flipY, mapHeight, y) * scale - height * scale;
    }
  }

  /** `Float.intValue`: the fraction dropped, toward zero. */
  function Truncate(r: real): (n: int)
    ensures n as real <= r < n as real + 1.0 || n as real - 1.0 < r <= n as real
    ensures r >= 0.0 ==> 0 <= n && n as real <= r
    ensures r <= 0.0 ==> n <= 0 && r <= n as real
  {
    if r >= 0.0 then r.Floor else -((-r).Floor)
  }

  /** Truncation toward zero is odd: negating first negates the result. */
  lemma TruncateNegate(r: real)
    ensures Truncate(-r) == -Truncate(r)
  {
    if r == 0.0 {
      assert -r == 0.0;
    }
  }

  /** Coordinate `i` of the flat list before truncation: `x` of point `i / 2` if `i` is even, else its `y`. */
  function Coordinate(points: seq<Point>, scaleX: real, scaleY: real, flipY: bool, i: nat): real
    requires i < 2 * |points|
  {
    var point := points[i / 2];
    if i % 2 == 0 then point.x * scaleX else point.y * scaleY * (if flipY then -1.0 else 1.0)
  }

  /** The vertex list of a polygon or polyline: `x0, y0, x1, y1, ...`, scaled, y negated under the flip, truncated. */
  function FlatVertices(points: seq<Point>, scaleX: real, scaleY: real, flipY: bool): (v: seq<int>)
    ensures |v| == 2 * |points|
  {
    seq(2 * |points|, i requires 0 <= i < 2 * |points| => Truncate(Coordinate(points, scaleX, scaleY, flipY, i)))
  }

  /**
   * The vertex loop of `loadObject` followed by `convertArrayToPrimitive`:
   * first the scaled coordinates are collected, then each is truncated into
   * the output array.
   */
  method ConvertVertices(points: seq<Point>, scaleX: real, scaleY: real, flipY: bool) returns (vertices: array<int>)
    ensures fresh(vertices)
    ensures vertices[..] == FlatVertices(points, scaleX, scaleY, flipY)
  {
    var coords: seq<real> := [];
    for k := 0 to |points|
      invariant |coords| == 2 * k
      invariant forall i :: 0 <= i < 2 * k ==> coords[i] == Coordinate(points, scaleX, scaleY, flipY, i)
    {
      assert (2 * k) / 2 == k && (2 * k) % 2 == 0;
      assert (2 * k + 1) / 2 == k && (2 * k + 1) % 2 == 1;
      coords := coords + [points[k].x * scaleX, points[k].y * scaleY * (if flipY then -1.0 else 1.0)];
    }
    vertices := new int[|coords|];
    for i := 0 to |coords|
      invariant forall j :: 0 <= j < i ==> vertices[j] == Truncate(coords[j])
    {
      vertices[i] := Truncate(coords[i]);
    }
    assert forall j :: 0 <= j < |coords| ==> vertices[..][j] == FlatVertices(points, scaleX, scaleY, flipY)[j];
  }

  /** Flipping the y axis negates every y vertex and leaves every x vertex alone. */
  lemma FlipNegatesVertexY(points: seq<Point>, scaleX: real, scaleY: real, k: nat)
    requires k < |points|
    ensures FlatVertices(points, scaleX, scaleY, true)[2 * k] == FlatVertices(points, scaleX, scaleY, false)[2 * k]
    ensures FlatVertices(points, scaleX, scaleY, true)[2 * k + 1] == -FlatVertices(points, scaleX, scaleY, false)[2 * k + 1]
  {
    assert (2 * k) / 2 == k && (2 * k) % 2 == 0;
    assert (2 * k + 1) / 2 == k && (2 * k + 1) % 2 == 1;
    var y := points[k].y * scaleY;
    assert Coordinate(points, scaleX, scaleY, true, 2 * k + 1) == -y;
    assert Coordinate(points, scaleX, scaleY, false, 2 * k + 1) == y;
    TruncateNegate(y);
  }

  // ---------------------------------------------------------------------
  // Objects

  /** The scaled position and size every object starts from. */
  function AnchorX(r: ObjectRecord, p: Placement): real { r.x * p.scaleX }
  function AnchorY(r: ObjectRecord, p: Placement): real { Target(p.flipY, p.heightInPixels, r.y) * p.scaleY }
  function ScaledWidth(r: ObjectRecord, p: Placement): real { (if r.width.Some? then r.width.value else 0.0) * p.scaleX }
  function ScaledHeight(r: ObjectRecord, p: Placement): real { (if r.height.Some? then r.height.value else 0.0) * p.scaleY }

  /** `(int) Long.parseLong(gid)`: the low 32 bits of the long, as an id bit pattern. */
  function StampId(gid: string): (r: Result<Uint32>)
    ensures r.Success? <==> ParseLong(gid).Some?
    ensures r.Success? ==> (r.value - ParseLong(gid).value) % Two32 == 0
  {
    match ParseLong(gid)
    case None => Failure(NumberFormat(gid))
    case Some(n) => Success(Bits32(n))
  }

  /**
   * The shape `loadObject` builds: polygon, polyline, ellipse, tile stamp
   * (a gid) or rectangle, checked in that order. A stamp whose tile is not in
   * the map's tilesets fails: the stamp object reads the tile's region.
   */
  function ObjectShape(r: ObjectRecord, p: Placement, tiles: map<int, Tile>): Result<Shape> {
    var x, y := AnchorX(r, p), AnchorY(r, p);
    var w, h := ScaledWidth(r, p), ScaledHeight(r, p);
    if r.polygon.Some? then Success(PolygonShape(x, y, FlatVertices(r.polygon.value, p.scaleX, p.scaleY, p.flipY)))
    else if r.polyline.Some? then Success(PolylineShape(x, y, FlatVertices(r.polyline.value, p.scaleX, p.scaleY, p.flipY)))
    else if r.ellipse then Success(EllipseShape(x, BoxY(p.flipY, y, h), w, h))
    else if r.gid.Some? then
      match StampId(r.gid.value)
      case Failure(e) => Failure(e)
      case Success(id) =>
        if GlobalId(id) !in tiles then Failure(MissingTile(GlobalId(id)))
        else
          var tile := tiles[GlobalId(id)];
          var flips := StampFlips(id);
          var objectWidth := if r.width.Some? then r.width.value else tile.regionWidth as real;
          var objectHeight := if r.height.Some? then r.height.value else tile.regionHeight as real;
          Success(TileStampShape(tile, flips.0, flips.1, x, StampY(p.flipY, y, h),
            p.scaleX * (objectWidth / tile.regionWidth as real),
            p.scaleY * (objectHeight / tile.regionHeight as real),
            if r.rotation.Some? then r.rotation.value else 0.0))
    else Success(RectangleShape(x, BoxY(p.flipY, y, h), w, h))
  }

  /**
   * The properties `loadObject` writes before the custom ones: the stamp's
   * signed `gid`, `rotation` and `type` when present, `id` when not 0, and
   * always `x`, `y`, `width` and `height`. A stamp's `y` is its anchor, every
   * other object's is the box corner.
   */
  function SynthesizedProperties(r: ObjectRecord, p: Placement, shape: Shape): map<string, PropertyValue> {
    var y := AnchorY(r, p);
    var h := ScaledHeight(r, p);
    var withGid: map<string, PropertyValue> :=
      if shape.TileStampShape? && r.gid.Some? && StampId(r.gid.value).Success?
      then map["gid" := IntValue(ToSigned32(StampId(r.gid.value).value))] else map[];
    var withRotation := if r.rotation.Some? then withGid["rotation" := FloatValue(r.rotation.value)] else withGid;
    var withType := if r.typ.Some? then withRotation["type" := StringValue(r.typ.value)] else withRotation;
    var withId := if r.id != 0 then withType["id" := IntValue(r.id)] else withType;
    withId["x" := FloatValue(AnchorX(r, p))]
          ["y" := FloatValue(if shape.TileStampShape? then y else BoxY(p.flipY, y, h))]
          ["width" := FloatValue(ScaledWidth(r, p))]
          ["height" := FloatValue(ScaledHeight(r, p))]
  }

  /**
   * A rectangle at (10, 20), 30 wide and 40 high, on a map 100 pixels high,
   * flipped and unscaled: its anchor and its `y` property are 40, the lower
   * edge once the axis points up.
   */
  lemma RectangleExample(tiles: map<int, Tile>)
    ensures var r := ObjectRecord(None, None, 0, 10.0, 20.0, Some(30.0), Some(40.0), None, None, false, None, None, true, []);
      var p := Placement(true, 1.0, 1.0, 100.0);
      ObjectShape(r, p, tiles) == Success(RectangleShape(10.0, 40.0, 30.0, 40.0))
      && SynthesizedProperties(r, p, RectangleShape(10.0, 40.0, 30.0, 40.0))["y"] == FloatValue(40.0)
  {
  }

  /**
   * A stamp's gid text is parsed as a `long` and cut to its low 32 bits; the
   * flips come from bits 31 and 30 of what is left and the tile from bits 0
   * to 28. The diagonal bit plays no part.
   */
  lemma StampFromGid(r: ObjectRecord, p: Placement, tiles: map<int, Tile>, n: Int64)
    requires r.polygon == None && r.polyline == None && !r.ellipse
    requires r.gid == Some(Decimal(n))
    requires GlobalId(Bits32(n)) in tiles
    ensures ObjectShape(r, p, tiles).Success?
    ensures var s := ObjectShape(r, p, tiles).value;
      s.TileStampShape? && s.tile == tiles[GlobalId(Bits32(n))]
      && s.flipHorizontally == FlagsOf(Bits32(n)).horizontal
      && s.flipVertically == FlagsOf(Bits32(n)).vertical
      && s.y == StampY(p.flipY, AnchorY(r, p), ScaledHeight(r, p))
  {
    ParseDecimalOfDecimal(n, -Two63, Two63 - 1);
  }

  /** A gid past 32 bits wraps: `4294967297` names tile 1, unflipped. */
  lemma StampGidWraps(r: ObjectRecord, p: Placement, tiles: map<int, Tile>)
    requires r.polygon == None && r.polyline == None && !r.ellipse
    requires r.gid == Some(Decimal(Two32 + 1))
    requires 1 in tiles
    ensures ObjectShape(r, p, tiles).Success?
    ensures var s := ObjectShape(r, p, tiles).value;
      s.TileStampShape? && s.tile == tiles[1] && !s.flipHorizontally && !s.flipVertically
  {
    StampFromGid(r, p, tiles, Two32 + 1);
  }

  /** A stamp with no size of its own is drawn at its region's size: the extra scale is 1. */
  lemma StampDefaultSize(r: ObjectRecord, p: Placement, tiles: map<int, Tile>)
    requires r.polygon == None && r.polyline == None && !r.ellipse && r.gid.Some?
    requires r.width == None && r.height == None
    requires ObjectShape(r, p, tiles).Success?
    ensures ObjectShape(r, p, tiles).value.TileStampShape?
    ensures ObjectShape(r, p, tiles).value.scaleX == p.scaleX
    ensures ObjectShape(r, p, tiles).value.scaleY == p.scaleY
  {
  }

  // ---------------------------------------------------------------------
  // Image layers

  /** `loadImageLayer`'s y: mirrored under the flip, then lowered by the image's height if there is an image. */
  function ImageLayerY(flipY: bool, mapHeightInPixels: real, offsetY: real, imageHeight: Option<Positive>): real {
    var y := Target(flipY, mapHeightInPixels, offsetY);
    if imageHeight.Some? then y - imageHeight.value as real else y
  }

  /** Under the flip, an image layer is anchored at its lower edge in the upward axis. */
  lemma ImageLayerAnchor(mapHeightInPixels: real, offsetY: real, imageHeight: Positive)
    ensures ImageLayerY(true, mapHeightInPixels, offsetY, Some(imageHeight))
         == Target(true, mapHeightInPixels, offsetY + imageHeight as real)
    ensures ImageLayerY(true, mapHeightInPixels, offsetY, Some(imageHeight))
         < Target(true, mapHeightInPixels, offsetY)
  {
  }
}
