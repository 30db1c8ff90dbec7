/**
 * The objects a decoded map is made of, as far as the decoder builds them:
 * property bags, map objects with their shapes, object collections, tiles and
 * tilesets, and tile-layer cells. Bags, collections and tilesets are updated
 * in place by the decoder, so they are classes; shapes and cells are values.
 */
module MapModel {
  import opened Common
  import opened TileFlags

  /** A texture-region side length. */
  type Positive = x: int | x > 0 witness 1

  /** A typed property value, as `castProperty` produces it or as the deferred reference pass writes it. */
  datatype PropertyValue =
    | StringValue(text: string)
    | IntValue(integer: Int32)
    | FloatValue(number: real)
    | BoolValue(truth: bool)
    | ColorValue(rrggbbaa: string)    // the hex text handed to `Color.valueOf`
    | ObjectValue(target: Option<MapObject>)  // `None` is the Java `null`

  /** `MapProperties`: a name-keyed bag where the last write for a name wins. */
  class PropertyBag {
    var entries: map<string, PropertyValue>

    constructor ()
      ensures entries == map[]
    {
      entries := map[];
    }

    method Put(name: string, value: PropertyValue)
      modifies this
      ensures entries == old(entries)[name := value]
    {
      entries := entries[name := value];
    }
  }

  /**
   * The geometry of a map object, already scaled and flipped. Polygon and
   * polyline vertices are the flat list `x0, y0, x1, y1, ...` relative to the
   * anchor `(x, y)`.
   */
  datatype Shape =
    | RectangleShape(x: real, y: real, width: real, height: real)
    | EllipseShape(x: real, y: real, width: real, height: real)
    | PolygonShape(x: real, y: real, vertices: seq<int>)
    | PolylineShape(x: real, y: real, vertices: seq<int>)
    | TileStampShape(tile: Tile, flipHorizontally: bool, flipVertically: bool,
                     x: real, y: real, scaleX: real, scaleY: real, rotation: real)

  /** A map object: its shape, name, visibility and its own property bag. */
  class MapObject {
    const shape: Shape
    const name: Option<string>
    const visible: bool
    const props: PropertyBag

    constructor (shape: Shape, name: Option<string>, visible: bool)
      ensures this.shape == shape && this.name == name && this.visible == visible
      ensures fresh(props) && props.entries == map[]
    {
      this.shape := shape;
      this.name := name;
      this.visible := visible;
      props := new PropertyBag();
    }
  }

  /** `MapObjects`: the ordered objects of an object layer or of a tile. */
  class ObjectList {
    var items: seq<MapObject>

    constructor ()
      ensures items == []
    {
      items := [];
    }

    method Add(o: MapObject)
      modifies this
      ensures items == old(items) + [o]
    {
      items := items + [o];
    }
  }

  /** The frames and their durations (in milliseconds) of an animated tile. A frame may be `null`. */
  datatype Animation = Animation(frames: seq<Option<Tile>>, intervals: seq<Int32>)

  /**
   * A tile: static (`animation == None`) or animated. The size of its
   * texture region is given: textures are outside this model.
   */
  class Tile {
    const id: int
    const animation: Option<Animation>
    const regionWidth: Positive
    const regionHeight: Positive
    const props: PropertyBag
    const objects: ObjectList

    constructor (id: int, animation: Option<Animation>, regionWidth: Positive, regionHeight: Positive)
      ensures this.id == id && this.animation == animation
      ensures this.regionWidth == regionWidth && this.regionHeight == regionHeight
      ensures fresh(props) && props.entries == map[]
      ensures fresh(objects) && objects.items == []
    {
      this.id := id;
      this.animation := animation;
      this.regionWidth := regionWidth;
      this.regionHeight := regionHeight;
      props := new PropertyBag();
      objects := new ObjectList();
    }
  }

  /** `TiledMapTileSet`: tiles by global id. Every tile sits under its own id. */
  class TileSet {
    var tiles: map<int, Tile>
    const props: PropertyBag

    ghost predicate Valid()
      reads this
    {
      forall k | k in tiles :: tiles[k].id == k
    }

    constructor ()
      ensures tiles == map[] && Valid()
      ensures fresh(props) && props.entries == map[]
    {
      tiles := map[];
      props := new PropertyBag();
    }

    /** `putTile`: the id's slot now holds `tile`, whatever it held before. */
    method PutTile(id: int, tile: Tile)
      modifies this
      ensures tiles == old(tiles)[id := tile]
    {
      tiles := tiles[id := tile];
    }
  }

  /** A tile-layer cell: the tile and how it is drawn. */
  datatype Cell = Cell(tile: Tile, orientation: Orientation)
}
