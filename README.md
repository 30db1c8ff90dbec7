# TMJ map decoding, modelled in Dafny

This project models the decoding core of libgdx's loader for Tiled JSON
(TMJ) maps, `BaseTmjMapLoader`, and proves properties of that model. The
model takes the map's JSON fields as given values. JSON parsing, base64,
inflation and textures are outside it. It covers these parts of the loader:

- **Tile-layer data** (`tile_data.dfy`, module `TileData`). `getTileIds`
  dispatches on `encoding` and `compression`. Its read loop turns the
  decoded byte stream into row-major 32-bit ids, four little-endian bytes
  each, and fails on a short stream. The `InputStream.read` protocol is
  modelled with explicit per-call grants.
- **Flag bits and cells** (`tile_flags.dfy`, module `TileFlags`). Each id
  carries three flip flags (bits 31, 30, 29) and a 29-bit global tile id.
  `createTileLayerCell` turns the diagonal flip into a rotation plus flips.
  Tile-stamp objects take only the horizontal and vertical flags.
- **Cell placement** (`tile_layer.dfy`, module `TileLayers`). The loop of
  `loadTileLayer` writes a cell only where the tile lookup succeeds, in row
  `height - 1 - y` under `flipY`. The layer is a `TileLayer` class over an
  `array2`.
- **Parallax** (`parallax.dfy`, module `ParallaxPass`). The breadth-first
  pass of `loadTiledMap` runs over the group layers. The layers form an
  arena: parent indices, child lists, and a factor array updated in place.
- **Properties** (`properties.dfy`, module `Properties`). `castProperty`
  covers `int`, `float`, `bool` and `color`, and the `#AARRGGBB` to
  `RRGGBBAA` reordering. The effects of one `loadProperties` call are
  listed as puts and deferred object references.
- **The decoder's state** (`decode_context.dfy`, module `Decoding`). A
  `DecodeContext` class holds the settings, the `idToObject` index and the
  queue of pending object references. Its methods are `loadProperties`,
  `loadObject`, the object loops of `loadObjectGroup` and
  `addTileObjectGroup`, and the flush that resolves references at the end
  of `loadTiledMap`.
- **Object geometry** (`objects.dfy`, module `ObjectGeometry`). This is
  the arithmetic of `loadObject`. It scales into tile space, flips the y
  axis and gives each kind of object its anchor. It also covers polygon
  and polyline vertices (`convertArrayToPrimitive`), the tile stamp's
  `long` gid cut to 32 bits, and the image-layer anchor of
  `loadImageLayer`.
- **Map size** (`map_size.dfy`, module `MapSize`). The settings and pixel
  size computed in `loadTiledMap`, in Java `int` arithmetic: staggered
  maps, division toward zero and overflow.
- **Paths** (`paths.dfy`, module `Paths`). `getRelativeFileHandle` is a
  fold over the tokens of the path, split on `/` and `\`.
- **Tileset tiles** (`tilesets.dfy`, module `TileSets`). This is the loop
  of `loadTileSet` over a tileset's `tiles`. It covers animated tiles
  (`createAnimatedTile`), tile properties (`addTileProperties`), tile
  object groups (`addTileObjectGroup`), and replacing static tiles by
  animated ones.
- **Two whole-load examples** (`scenarios.dfy`, module `Scenarios`). One
  is a forward object reference. The other is an ordinary object run
  through the `type` guard of `loadObject`.

Shared pieces live in `common.dfy` (module `Common`) and `map_model.dfy`
(module `MapModel`). `Common` holds `Option`, `Result`, the error kinds,
Java's 32- and 64-bit integers and the decimal parser. `MapModel` holds
property bags, map objects, object lists, tiles, tilesets and cells.

Integers are mathematical integers. Java's `int` width is written out
wherever it matters: the `(int)` cast of the stamp gid, `firstgid + id`,
and the pixel-size products. This is done with explicit wrap functions
(`Bits32`, `Wrap32`) rather than bit-vectors. Floats are reals.
`Float.valueOf` is a parameter of type `FloatParser`.

## Model

In the source column, every path is `gdx/src/com/badlogic/gdx/maps/tiled/BaseTmjMapLoader.java`.

| member | source | states |
|---|---|---|
| Common.Bits32 | gdx/src/com/badlogic/gdx/maps/tiled/BaseTmjMapLoader.java:454 | The `(int)` cast keeps the low 32 bits: the result is congruent to the input modulo 2^32 and is the input itself when it already fits |
| Common.ToSigned32 | gdx/src/com/badlogic/gdx/maps/tiled/BaseTmjMapLoader.java:461 | The signed `int` read from a bit pattern has that pattern and is negative exactly when bit 31 is set |
| Common.Wrap32 | gdx/src/com/badlogic/gdx/maps/tiled/BaseTmjMapLoader.java:208-209 | Java `int` arithmetic wraps: the result is congruent to the exact value modulo 2^32 and equals it when it is in range |
| Common.ParseDecimal | gdx/src/com/badlogic/gdx/maps/tiled/BaseTmjMapLoader.java:521 | A parse succeeds only on non-empty text and only with a value inside the type's bounds; the empty string fails |
| Common.ParseIntDecimal | gdx/src/com/badlogic/gdx/maps/tiled/BaseTmjMapLoader.java:521 | `Integer.parseInt` succeeds exactly on decimal text (an optional sign, then one or more ASCII digits and nothing else) whose value lies in the `int` range, and returns that value |
| Common.ParseLongDecimal | gdx/src/com/badlogic/gdx/maps/tiled/BaseTmjMapLoader.java:454 | `Long.parseLong` succeeds exactly on decimal text whose value lies in the `long` range, and returns that value |
| Common.ParseDecimalOfDecimal | gdx/src/com/badlogic/gdx/maps/tiled/BaseTmjMapLoader.java:521 | Round trip: parsing the decimal text of any in-range number gives that number back |
| Common.ParseIntOfDecimal | gdx/src/com/badlogic/gdx/maps/tiled/BaseTmjMapLoader.java:521 | Round trip: `Integer.parseInt` reads back the decimal text of every `int` |
| Common.ParseLongOfDecimal | gdx/src/com/badlogic/gdx/maps/tiled/BaseTmjMapLoader.java:454 | Round trip: `Long.parseLong` reads back the decimal text of every `long` |
| TileFlags.FlagsOf | gdx/src/com/badlogic/gdx/maps/tiled/BaseTmjMapLoader.java:36-39 | The horizontal flag is bit 31, so it is set exactly when the id is a negative `int` |
| TileFlags.GlobalId | gdx/src/com/badlogic/gdx/maps/tiled/BaseTmjMapLoader.java:324 | `id & ~MASK_CLEAR` is below 2^29, at most the id, and differs from it by a multiple of 2^29 |
| TileFlags.DecodeCompose | gdx/src/com/badlogic/gdx/maps/tiled/BaseTmjMapLoader.java:320-324 | Decoding an id built from flags and a global id returns those flags and that global id |
| TileFlags.ComposeDecode | gdx/src/com/badlogic/gdx/maps/tiled/BaseTmjMapLoader.java:36-39 | Every 32-bit id is exactly its three flags plus its global id: the split loses nothing |
| TileFlags.CellOrientation | gdx/src/com/badlogic/gdx/maps/tiled/BaseTmjMapLoader.java:564-583 | Without the diagonal flag the cell keeps both flips unrotated; with it the rotation is 90 or 270 and at most one flip is set |
| TileFlags.CellOrientationInvertible | gdx/src/com/badlogic/gdx/maps/tiled/BaseTmjMapLoader.java:564-583 | The orientation table read backwards recovers the flags of each of the eight cases |
| TileFlags.CellOrientationInjective | gdx/src/com/badlogic/gdx/maps/tiled/BaseTmjMapLoader.java:564-583 | Different flag combinations give different cell orientations |
| TileFlags.OrientationsReached | gdx/src/com/badlogic/gdx/maps/tiled/BaseTmjMapLoader.java:564-583 | An orientation comes out of the table exactly when the inverse table has an entry for it; `ROTATE_180` never does |
| TileFlags.StampIgnoresDiagonal | gdx/src/com/badlogic/gdx/maps/tiled/BaseTmjMapLoader.java:454-458 | Toggling the diagonal bit of a stamp gid changes neither its flips nor its tile |
| TileData.UnsignedByteToInt | gdx/src/com/badlogic/gdx/maps/tiled/BaseTmjMapLoader.java:107-109 | `b & 0xFF` lies in 0..255 and is congruent to the signed byte modulo 256 |
| TileData.GetTileIds | gdx/src/com/badlogic/gdx/maps/tiled/BaseTmjMapLoader.java:56-102 | The method's loops compute `TileIds`: plain ids for csv, a row-major decode of the stream for base64, and otherwise the encoding, compression or short-stream error |
| TileData.ReadTileIds | gdx/src/com/badlogic/gdx/maps/tiled/BaseTmjMapLoader.java:77-92 | The nested loops fill the `width*height` ids from consecutive 4-byte chunks or fail with the premature-end error |
| TileData.CellIndexInRange | gdx/src/com/badlogic/gdx/maps/tiled/BaseTmjMapLoader.java:89 | The slot `y*width + x` of every cell lies inside the `width*height` array |
| TileData.WordOfChunk | gdx/src/com/badlogic/gdx/maps/tiled/BaseTmjMapLoader.java:89-90 | Assembling the four little-endian bytes of a 32-bit value gives that value back |
| TileData.ChunkOfWord | gdx/src/com/badlogic/gdx/maps/tiled/BaseTmjMapLoader.java:89-90 | Splitting an assembled word gives back the four bytes it came from |
| TileData.EncodeIds | gdx/src/com/badlogic/gdx/maps/tiled/BaseTmjMapLoader.java:77-92 | The encoder the decoder inverts writes exactly four bytes per id |
| TileData.DecodeEncodeIds | gdx/src/com/badlogic/gdx/maps/tiled/BaseTmjMapLoader.java:77-92 | Round trip: decoding the encoding of `width*height` ids returns those ids under every accepted compression |
| TileData.TileIdAtCell | gdx/src/com/badlogic/gdx/maps/tiled/BaseTmjMapLoader.java:79-90 | Cell (x, y) holds `b0 \| b1<<8 \| b2<<16 \| b3<<24` from chunk `y*width + x` of the stream |
| TileData.TileIdAt | gdx/src/com/badlogic/gdx/maps/tiled/BaseTmjMapLoader.java:89-90 | Entry `i` of a decoded layer is the little-endian word of stream bytes `4i` to `4i+3` |
| TileData.TileIdsFailures | gdx/src/com/badlogic/gdx/maps/tiled/BaseTmjMapLoader.java:61-101 | Decoding fails exactly for an unknown encoding, an unknown compression or too short a stream; the premature-end error is exactly the short stream |
| TileData.ReadCall | gdx/src/com/badlogic/gdx/maps/tiled/BaseTmjMapLoader.java:81-83 | One `read` call returns -1 at end of stream, or at most the requested length of bytes that exist |
| TileData.ReadChunkAsWritten | gdx/src/com/badlogic/gdx/maps/tiled/BaseTmjMapLoader.java:81-88 | The read loop as written, whatever the stream grants per call, ends like `ChunkReadAsWritten` |
| TileData.ChunkRead | gdx/src/com/badlogic/gdx/maps/tiled/BaseTmjMapLoader.java:81-88 | The corrected chunk read succeeds in the same cases and reports every short read as premature end |
| TileData.ExhaustedStreamMisreported | gdx/src/com/badlogic/gdx/maps/tiled/BaseTmjMapLoader.java:81-88 | At the exact end of the stream the loop as written fails with an index error, and the corrected one with premature end |
| TileLayers.RowInvolution | gdx/src/com/badlogic/gdx/maps/tiled/BaseTmjMapLoader.java:328 | The target row is inside the layer, and mapping it again gives the source row back |
| TileLayers.FlipMirrorsRows | gdx/src/com/badlogic/gdx/maps/tiled/BaseTmjMapLoader.java:328 | Under `flipY` the first and last rows swap; without it every row stays |
| TileLayers.CellForComposed | gdx/src/com/badlogic/gdx/maps/tiled/BaseTmjMapLoader.java:319-327 | An id composed from flags and a known tile gives that tile with the flags' orientation |
| TileLayers.EmptyIdLeavesCell | gdx/src/com/badlogic/gdx/maps/tiled/BaseTmjMapLoader.java:324-325 | Id 0 (no tile) makes no cell when no tileset holds global id 0 |
| TileLayers.SourceIndex | gdx/src/com/badlogic/gdx/maps/tiled/BaseTmjMapLoader.java:319-328 | The id read for a target cell lies inside the `width*height` ids |
| TileLayers.PlaceCells | gdx/src/com/badlogic/gdx/maps/tiled/BaseTmjMapLoader.java:317-331 | Every grid cell ends as the cell its (row-mapped) id makes, or keeps its old value when the lookup fails; too few ids is an error |
| TileLayers.PlaceRow | gdx/src/com/badlogic/gdx/maps/tiled/BaseTmjMapLoader.java:318-330 | One source row writes exactly its target row, cell by cell, and leaves every other row unchanged |
| MapSize.Half | gdx/src/com/badlogic/gdx/maps/tiled/BaseTmjMapLoader.java:214-215 | Java's `/ 2` rounds toward zero: the remainder `a - 2*r` is 0 or 1 for a non-negative `a`, and 0 or -1 for a negative one |
| MapSize.LoadSettings | gdx/src/com/badlogic/gdx/maps/tiled/BaseTmjMapLoader.java:171-218 | Without parameters `flipY` is on and tile-space conversion off; otherwise both come from the parameters; the tile size and pixel size come from the map |
| MapSize.OrthogonalSize | gdx/src/com/badlogic/gdx/maps/tiled/BaseTmjMapLoader.java:208-209 | A non-staggered map is `width*tilewidth` by `height*tileheight` pixels when those fit in an `int` |
| MapSize.StaggeredSize | gdx/src/com/badlogic/gdx/maps/tiled/BaseTmjMapLoader.java:211-217 | A staggered map taller than one row gains half a tile in width and is half its height plus half a tile high |
| MapSize.WidthWraps | gdx/src/com/badlogic/gdx/maps/tiled/BaseTmjMapLoader.java:208 | A 65536-tile-wide map of 65536-pixel tiles overflows to width 0 |
| ObjectGeometry.Scale | gdx/src/com/badlogic/gdx/maps/tiled/BaseTmjMapLoader.java:418-419 | The scale is 1 without conversion, and the tile size's inverse with it |
| ObjectGeometry.TargetInvolution | gdx/src/com/badlogic/gdx/maps/tiled/BaseTmjMapLoader.java:422 | Flipping y twice in the same height gives the coordinate back |
| ObjectGeometry.RectangleAnchorIsMinCorner | gdx/src/com/badlogic/gdx/maps/tiled/BaseTmjMapLoader.java:448 | The rectangle and ellipse anchor `flipY ? y - height : y` is the lower of the box's two edges in the output axis |
| ObjectGeometry.StampAnchorIsMinCorner | gdx/src/com/badlogic/gdx/maps/tiled/BaseTmjMapLoader.java:463 | The stamp anchor `flipY ? y : y - height` is also the lower edge, for a record whose `y` is the stamp's bottom |
| ObjectGeometry.Truncate | gdx/src/com/badlogic/gdx/maps/tiled/BaseTmjMapLoader.java:115 | `intValue` drops the fraction toward zero: the result is within 1 of the input, on the zero side |
| ObjectGeometry.TruncateNegate | gdx/src/com/badlogic/gdx/maps/tiled/BaseTmjMapLoader.java:115 | Truncation commutes with negation |
| ObjectGeometry.FlatVertices | gdx/src/com/badlogic/gdx/maps/tiled/BaseTmjMapLoader.java:430-435 | A polygon or polyline has two coordinates per point |
| ObjectGeometry.ConvertVertices | gdx/src/com/badlogic/gdx/maps/tiled/BaseTmjMapLoader.java:111-118 | The array loop fills a new array with exactly the flat, truncated vertex list |
| ObjectGeometry.FlipNegatesVertexY | gdx/src/com/badlogic/gdx/maps/tiled/BaseTmjMapLoader.java:433 | Under `flipY` each vertex keeps its x and has its y negated |
| ObjectGeometry.StampId | gdx/src/com/badlogic/gdx/maps/tiled/BaseTmjMapLoader.java:454 | A gid parses exactly when it is a `long`, and keeps that value's low 32 bits |
| ObjectGeometry.RectangleExample | gdx/src/com/badlogic/gdx/maps/tiled/BaseTmjMapLoader.java:421-425 | A 30 by 40 rectangle at (10, 20) on a 100-pixel map, flipped, is anchored at y 40, and its `y` property is 40 |
| ObjectGeometry.StampFromGid | gdx/src/com/badlogic/gdx/maps/tiled/BaseTmjMapLoader.java:453-463 | A stamp record builds a stamp of the gid's tile, with the gid's horizontal and vertical flips, at the stamp anchor |
| ObjectGeometry.StampGidWraps | gdx/src/com/badlogic/gdx/maps/tiled/BaseTmjMapLoader.java:454 | The gid 4294967297 wraps to tile 1, unflipped |
| ObjectGeometry.StampDefaultSize | gdx/src/com/badlogic/gdx/maps/tiled/BaseTmjMapLoader.java:464-467 | A stamp without its own size is drawn at its region's size, so its scale is only the tile-space scale |
| ObjectGeometry.ImageLayerAnchor | gdx/src/com/badlogic/gdx/maps/tiled/BaseTmjMapLoader.java:360-372 | Under `flipY` an image layer is anchored at its lower edge, below the flipped offset |
| Paths.Parent | gdx/src/com/badlogic/gdx/maps/tiled/BaseTmjMapLoader.java:122 | `parent()` drops the last segment, or keeps the root |
| Paths.Tokens | gdx/src/com/badlogic/gdx/maps/tiled/BaseTmjMapLoader.java:121 | The tokenizer yields only non-empty tokens free of separators |
| Paths.TokensAtSeparator | gdx/src/com/badlogic/gdx/maps/tiled/BaseTmjMapLoader.java:121 | A separator splits the text: the tokens of `a`, a separator, then `b` are the tokens of `a` followed by those of `b`, so leading, trailing and repeated separators yield no empty token |
| Paths.TokenLengthBeforeSeparator | gdx/src/com/badlogic/gdx/maps/tiled/BaseTmjMapLoader.java:121 | A token ends at the first separator after it, whatever follows |
| Paths.ChildThenUp | gdx/src/com/badlogic/gdx/maps/tiled/BaseTmjMapLoader.java:125-128 | A name followed by `..` returns to the starting directory |
| Paths.UpAtRoot | gdx/src/com/badlogic/gdx/maps/tiled/BaseTmjMapLoader.java:125-126 | Any number of `..` at the root stays at the root |
| Paths.FoldAppend | gdx/src/com/badlogic/gdx/maps/tiled/BaseTmjMapLoader.java:123-130 | Resolving two token lists in turn is resolving their concatenation |
| Paths.FoldWithoutUp | gdx/src/com/badlogic/gdx/maps/tiled/BaseTmjMapLoader.java:127-129 | Tokens without `..` are appended as segments, in order |
| Paths.SeparatorsEquivalent | gdx/src/com/badlogic/gdx/maps/tiled/BaseTmjMapLoader.java:121 | Turning every backslash into a slash leaves the tokens unchanged |
| Paths.TokensOfJoin | gdx/src/com/badlogic/gdx/maps/tiled/BaseTmjMapLoader.java:121-124 | Round trip: tokenizing tokens joined with `/` gives the tokens back |
| Paths.ExampleTokens | gdx/src/com/badlogic/gdx/maps/tiled/BaseTmjMapLoader.java:121 | `..\tiles/./grass.png` splits into `..`, `tiles`, `.`, `grass.png` |
| Paths.ResolveExample | gdx/src/com/badlogic/gdx/maps/tiled/BaseTmjMapLoader.java:120-132 | That path resolved against `maps/level.tmj` is `tiles/./grass.png` |
| Properties.CastPropertyOutcome | gdx/src/com/badlogic/gdx/maps/tiled/BaseTmjMapLoader.java:544-561 | A cast succeeds exactly for a supported type whose value converts; an unsupported type is the type error; no type or `string` gives the raw text |
| Properties.StringTypeRejectedAsWritten | gdx/src/com/badlogic/gdx/maps/tiled/BaseTmjMapLoader.java:544-561 | The cast as written agrees with the corrected one except that it rejects type `string` |
| Properties.IntCastRoundTrip | gdx/src/com/badlogic/gdx/maps/tiled/BaseTmjMapLoader.java:547-548 | An `int` property written in decimal casts back to its value |
| Properties.ColorRoundTrip | gdx/src/com/badlogic/gdx/maps/tiled/BaseTmjMapLoader.java:553-557 | The reordering and Tiled's `#AARRGGBB` form are inverse to each other |
| Properties.ColorExample | gdx/src/com/badlogic/gdx/maps/tiled/BaseTmjMapLoader.java:553-557 | `#80FF0000` becomes `FF000080` |
| Properties.BoolCast | gdx/src/com/badlogic/gdx/maps/tiled/BaseTmjMapLoader.java:551-552 | `Boolean.valueOf` never fails and is true exactly for `true` in any letter case |
| Properties.Effects | gdx/src/com/badlogic/gdx/maps/tiled/BaseTmjMapLoader.java:510-540 | A property list yields at most one effect per record, and exactly one per record when nothing fails |
| Properties.EffectsStopAtFailure | gdx/src/com/badlogic/gdx/maps/tiled/BaseTmjMapLoader.java:510-540 | Once a prefix of the records fails, the records after it change nothing |
| Properties.BadReferenceFailsAtEnqueue | gdx/src/com/badlogic/gdx/maps/tiled/BaseTmjMapLoader.java:517-535 | An object reference whose value is not an `int` fails while the list is read, after exactly the records before it |
| Properties.AllSucceed | gdx/src/com/badlogic/gdx/maps/tiled/BaseTmjMapLoader.java:510-540 | When every record converts, the effects are the records' effects in order |
| Properties.LastPutWins | gdx/src/com/badlogic/gdx/maps/tiled/BaseTmjMapLoader.java:537-538 | A name ends with the value of its last put |
| Properties.UnputNameUnchanged | gdx/src/com/badlogic/gdx/maps/tiled/BaseTmjMapLoader.java:537-538 | A name that no record puts keeps its old value, or stays absent |
| MapModel.PropertyBag.Put | gdx/src/com/badlogic/gdx/maps/tiled/BaseTmjMapLoader.java:538 | A put replaces the name's value and leaves the other names alone |
| MapModel.ObjectList.Add | gdx/src/com/badlogic/gdx/maps/tiled/BaseTmjMapLoader.java:502 | An object is appended at the end |
| MapModel.TileSet.PutTile | gdx/src/com/badlogic/gdx/maps/tiled/BaseTmjMapLoader.java:667 | The id's slot holds the new tile, whatever it held before |
| Decoding.RefsAppend | gdx/src/com/badlogic/gdx/maps/tiled/BaseTmjMapLoader.java:523-531 | Queueing two runs of deferred references for one bag queues the first run, then the second |
| Decoding.LastReferenceWins | gdx/src/com/badlogic/gdx/maps/tiled/BaseTmjMapLoader.java:254-257 | After the flush a name holds the object (or `null`) its last queued reference looks up |
| Decoding.UnreferencedNameUnchanged | gdx/src/com/badlogic/gdx/maps/tiled/BaseTmjMapLoader.java:254-257 | A name no reference targets is untouched by the flush |
| Decoding.OtherBagsUnchanged | gdx/src/com/badlogic/gdx/maps/tiled/BaseTmjMapLoader.java:254-257 | A bag no reference targets is untouched by the flush |
| Decoding.LaterObjectsResolve | gdx/src/com/badlogic/gdx/maps/tiled/BaseTmjMapLoader.java:518-531 | A reference resolved eagerly would find `null`, while the deferred flush finds an object indexed later |
| Decoding.GroupErrorIsFirst | gdx/src/com/badlogic/gdx/maps/tiled/BaseTmjMapLoader.java:349-351 | An object group fails with the error of its first failing object |
| Decoding.PutSynthesized | gdx/src/com/badlogic/gdx/maps/tiled/BaseTmjMapLoader.java:461-495 | The puts of `loadObject` leave the object's bag holding the synthesized properties |
| Decoding.DecodeContext.constructor | gdx/src/com/badlogic/gdx/maps/tiled/BaseTmjMapLoader.java:167-169 | A load starts with an empty index and an empty reference queue |
| Decoding.DecodeContext.LoadProperties | gdx/src/com/badlogic/gdx/maps/tiled/BaseTmjMapLoader.java:506-542 | The bag receives the list's puts, the queue the list's references in order, up to the first failure, which is the result; the index is untouched |
| Decoding.DecodeContext.LoadPropertyAt | gdx/src/com/badlogic/gdx/maps/tiled/BaseTmjMapLoader.java:510-540 | One pass of the loop extends the done prefix by one record, or fails with the list's error |
| Decoding.DecodeContext.LoadProperty | gdx/src/com/badlogic/gdx/maps/tiled/BaseTmjMapLoader.java:511-539 | One record either queues a reference, puts its cast value, or fails with nothing changed |
| Decoding.DecodeContext.PlacementFor | gdx/src/com/badlogic/gdx/maps/tiled/BaseTmjMapLoader.java:418-422 | The placement carries the loader's `flipY` and the container height, with unit scales when there is no tile-space conversion |
| Decoding.DecodeContext.LoadObject | gdx/src/com/badlogic/gdx/maps/tiled/BaseTmjMapLoader.java:416-503 | An object is built with its record's shape, name and visibility; its bag holds the synthesized then the custom properties; it is indexed under its id, 0 included, and appended; any failure leaves index and list unchanged |
| Decoding.DecodeContext.LoadObjectAsWritten | gdx/src/com/badlogic/gdx/maps/tiled/BaseTmjMapLoader.java:414-415 | Only a record whose `type` is `object` is loaded; any other changes nothing |
| Decoding.DecodeContext.LoadObjects | gdx/src/com/badlogic/gdx/maps/tiled/BaseTmjMapLoader.java:349-351 | The result is the group's first error. On success every record's object is appended in record order with its record's shape, name, visibility and bag; the index is the old index with each object put under its id in turn; the queue is the old queue followed by the objects' references in order. On failure the same holds of the records before the failing one, and the queue may also hold the references that record queued |
| Decoding.DecodeContext.LoadObjectAt | gdx/src/com/badlogic/gdx/maps/tiled/BaseTmjMapLoader.java:349-351 | One pass of the group loop: on success one object is appended and the objects, index and queue are loaded one record further; on failure nothing is appended and the group stops with the first error of all its records |
| Decoding.DecodeContext.Flush | gdx/src/com/badlogic/gdx/maps/tiled/BaseTmjMapLoader.java:254-257 | The queue runs in order and empties; each bag it names ends as its references resolve against the final index |
| Decoding.GroupStep | gdx/src/com/badlogic/gdx/maps/tiled/BaseTmjMapLoader.java:349-351 | Loading record `k` after the records before it extends the loaded group by its object, its index entry and its references, in that order |
| Decoding.GroupFails | gdx/src/com/badlogic/gdx/maps/tiled/BaseTmjMapLoader.java:349-351 | A failing record after loaded ones is the group's first error and leaves the group stopped there |
| Decoding.IndexAfterFrame | gdx/src/com/badlogic/gdx/maps/tiled/BaseTmjMapLoader.java:501 | The index after a group gains exactly the records' ids, and every other id keeps its object |
| Decoding.IndexAfterLast | gdx/src/com/badlogic/gdx/maps/tiled/BaseTmjMapLoader.java:501 | After a group an object is found under its id unless a later record of the group reuses that id |
| Decoding.IndexAfterAppend | gdx/src/com/badlogic/gdx/maps/tiled/BaseTmjMapLoader.java:349-351 | Indexing a group in two parts is indexing it at once |
| Decoding.QueuedByAppend | gdx/src/com/badlogic/gdx/maps/tiled/BaseTmjMapLoader.java:349-351 | A group loaded in two parts queues the same references, in the same order, as loading it at once |
| ParallaxPass.Ancestry | gdx/src/com/badlogic/gdx/maps/tiled/BaseTmjMapLoader.java:237 | A layer's chain of enclosing groups starts at the layer, follows parents and ends at a top-level layer |
| ParallaxPass.EffectiveIsProduct | gdx/src/com/badlogic/gdx/maps/tiled/BaseTmjMapLoader.java:236-237 | A layer's final factor is the product of its declared factor and those of all its enclosing groups |
| ParallaxPass.TopLevelUnchanged | gdx/src/com/badlogic/gdx/maps/tiled/BaseTmjMapLoader.java:239-252 | A top-level layer keeps its declared factor |
| ParallaxPass.Groups | gdx/src/com/badlogic/gdx/maps/tiled/BaseTmjMapLoader.java:239 | `getByType` keeps exactly the top-level groups, each once |
| ParallaxPass.Propagate | gdx/src/com/badlogic/gdx/maps/tiled/BaseTmjMapLoader.java:239-252 | After the pass every layer's factor is its final factor, and every group was dequeued exactly once |
| ParallaxPass.Start | gdx/src/com/badlogic/gdx/maps/tiled/BaseTmjMapLoader.java:239 | The initial queue and factors satisfy the loop invariant |
| ParallaxPass.Finish | gdx/src/com/badlogic/gdx/maps/tiled/BaseTmjMapLoader.java:240 | Once the queue is empty every factor is final and the dequeued groups are exactly the groups |
| ParallaxPass.Dequeue | gdx/src/com/badlogic/gdx/maps/tiled/BaseTmjMapLoader.java:241-242 | The dequeued head is an unprocessed group whose own factor is final, and progress is made |
| ParallaxPass.PropagateGroup | gdx/src/com/badlogic/gdx/maps/tiled/BaseTmjMapLoader.java:244-251 | Visiting one group's children makes each child's factor final and queues each child group |
| ParallaxPass.ChildStep | gdx/src/com/badlogic/gdx/maps/tiled/BaseTmjMapLoader.java:245-250 | Multiplying one child by its group's factor and queueing it if a group keeps the invariant |
| ParallaxPass.ChildFactors | gdx/src/com/badlogic/gdx/maps/tiled/BaseTmjMapLoader.java:245-246 | The child's product is its final factor; other factors keep their state |
| ParallaxPass.ChildQueue | gdx/src/com/badlogic/gdx/maps/tiled/BaseTmjMapLoader.java:247-250 | The queue stays duplicate-free and holds every ready group not yet processed |
| ParallaxPass.AllReady | gdx/src/com/badlogic/gdx/maps/tiled/BaseTmjMapLoader.java:240-252 | When every ready group has been processed, every layer's group has been, since groups precede their children |
| TileSets.FrameOf | gdx/src/com/badlogic/gdx/maps/tiled/BaseTmjMapLoader.java:713-714 | A frame needs both `tileid` and `duration` and a static target; its tile is the set's tile at `firstgid + tileid`, or `null` |
| TileSets.AnimationOf | gdx/src/com/badlogic/gdx/maps/tiled/BaseTmjMapLoader.java:712-717 | The animation exists exactly when every frame reads, and holds frame i's tile and duration at index i |
| TileSets.AnimationFailsAtFirstBadFrame | gdx/src/com/badlogic/gdx/maps/tiled/BaseTmjMapLoader.java:712-715 | An animation fails with the error of its first bad frame |
| TileSets.AnimationAsWritten | gdx/src/com/badlogic/gdx/maps/tiled/BaseTmjMapLoader.java:708-712 | As written, every tile with an `animation` fails on `frames.get("frame")` |
| TileSets.AnimatedTileFailsAsWritten | gdx/src/com/badlogic/gdx/maps/tiled/BaseTmjMapLoader.java:708-719 | A one-frame animation fails as written, while the frames read directly make an animation |
| TileSets.CreateAnimatedTile | gdx/src/com/badlogic/gdx/maps/tiled/BaseTmjMapLoader.java:706-722 | With an animation, a new tile with the static tile's id and the frames' animation, or the first frame error; without one, none |
| TileSets.TileHeader | gdx/src/com/badlogic/gdx/maps/tiled/BaseTmjMapLoader.java:679-690 | `terrain`, `probability` and `type` are put as strings when present; other names are unchanged |
| TileSets.AddTileProperties | gdx/src/com/badlogic/gdx/maps/tiled/BaseTmjMapLoader.java:678-695 | A tile's bag gets the header puts, then the custom properties with their queued references |
| TileSets.AddTileObjectGroup | gdx/src/com/badlogic/gdx/maps/tiled/BaseTmjMapLoader.java:697-704 | The group's objects are loaded into the tile's objects against its region height, with the index and queue of `LoadObjects`; a group without `objects` is a null dereference that changes nothing |
| TileSets.LoadTileElement | gdx/src/com/badlogic/gdx/maps/tiled/BaseTmjMapLoader.java:651-662 | An element fails with its animation, property or object error. Otherwise an animated tile is made exactly when the element has an animation; the element's properties and objects go to that tile (from nothing) or to the static tile (after what it held); the index gains the objects and the queue their references, in order |
| TileSets.OverrideTile | gdx/src/com/badlogic/gdx/maps/tiled/BaseTmjMapLoader.java:660-661 | The properties and then the object group are applied to one tile, failing with the first error; on success the tile is overridden by the element, the index gains its objects and the queue its property then object references |
| TileSets.ReplacedTiles | gdx/src/com/badlogic/gdx/maps/tiled/BaseTmjMapLoader.java:665-668 | Replacement keeps the set's ids, each tile under its own id, and changes exactly the animated ids |
| TileSets.LoadTiles | gdx/src/com/badlogic/gdx/maps/tiled/BaseTmjMapLoader.java:649-668 | The first element error is the result and leaves the set unchanged. On success the set keeps its ids; a tile some element animates is the animated tile of the last such element, overridden by that element alone; every other tile is the same static tile, holding its old properties and objects with those of the elements naming it on top, in order; the index and queue gain every element's objects and references in order |
| TileSets.LoadTileElements | gdx/src/com/badlogic/gdx/maps/tiled/BaseTmjMapLoader.java:651-663 | The element loop fails with the first element's error, or returns the animated tiles matching the elements that made them, with every static tile, the index and the queue loaded by all the elements |
| TileSets.LoadTileStep | gdx/src/com/badlogic/gdx/maps/tiled/BaseTmjMapLoader.java:652-662 | One element naming a tile of the set fails with its own error, or does what its load records: the index and queue gain its objects and references, the static tile gains its properties and objects exactly when it writes there, and every other tile is untouched |
| TileSets.LoadTileNext | gdx/src/com/badlogic/gdx/maps/tiled/BaseTmjMapLoader.java:651-659 | One turn of the element loop: the set stays loaded one element further and the element's animated tile, if any, joins the others; an error is the loop's first |
| TileSets.LoadTileOne | gdx/src/com/badlogic/gdx/maps/tiled/BaseTmjMapLoader.java:652-662 | The element's id is looked up in the set: an id naming no tile is skipped, otherwise the element is read into its tile; on success the set is loaded one element further |
| TileSets.LoadTileNamed | gdx/src/com/badlogic/gdx/maps/tiled/BaseTmjMapLoader.java:654-662 | An element naming a tile writes that tile alone and leaves what the earlier elements wrote as it was |
| TileSets.TilesStep | gdx/src/com/badlogic/gdx/maps/tiled/BaseTmjMapLoader.java:651-662 | One more element keeps the set loaded: its load fits, the index and queue gain its objects and references, and each static tile gains exactly what it wrote there |
| TileSets.StaticStep | gdx/src/com/badlogic/gdx/maps/tiled/BaseTmjMapLoader.java:660-661 | A static tile gains an element's properties and objects when the element writes there, and keeps its state otherwise |
| TileSets.OverridesStep | gdx/src/com/badlogic/gdx/maps/tiled/BaseTmjMapLoader.java:655-658 | One more element keeps the animated tiles matched: its animated tile, if any, is the one now found under its id |
| TileSets.ElementErrorsStep | gdx/src/com/badlogic/gdx/maps/tiled/BaseTmjMapLoader.java:651-662 | An element error after error-free elements is the loop's first error |
| TileSets.LoadedSnapshot | gdx/src/com/badlogic/gdx/maps/tiled/BaseTmjMapLoader.java:651-662 | A loaded set's tiles hold the static entries and objects the elements wrote, read off per tile id |
| TileSets.TilesReplaced | gdx/src/com/badlogic/gdx/maps/tiled/BaseTmjMapLoader.java:665-668 | After the replacement loop every tile of the set is the last animated tile for its id or the loaded static tile, and each tile stays under its own id |
| TileSets.ReplaceTiles | gdx/src/com/badlogic/gdx/maps/tiled/BaseTmjMapLoader.java:666-668 | After the replacement loop the set is the old set overridden by the animated tiles, the later one winning |
| Scenarios.ForwardReference | gdx/src/com/badlogic/gdx/maps/tiled/BaseTmjMapLoader.java:517-531 | An object property naming an object read later is absent before the flush and holds that object after it |
| Scenarios.SkippedObject | gdx/src/com/badlogic/gdx/maps/tiled/BaseTmjMapLoader.java:414-415 | An ordinary object record is dropped by the loader as written and kept by the corrected one |

## Left out

- JSON parsing and tree access are not modelled: records such as `ObjectRecord`, `PropertyRecord` and `TileElement` hold the fields already read, with defaults applied.
- Base64 decoding and GZIP/zlib inflation (lines 67-73) are not modelled: the layer's bytes come as the decoded stream. An `IOException` from them is not modelled.
- Textures, `ImageResolver`, `TextureRegion` and `Color.valueOf` are not modelled: a tile's region width and height are given positive integers, and a color is the hex text passed to `Color.valueOf`.
- `Float.valueOf` and `Float.parseFloat` are a parameter (`FloatParser`); floats are reals, so rounding is not modelled.
- `Integer.parseInt` and `Long.parseLong` accept ASCII digits only; Java also accepts other Unicode digits.
- Asset-loader plumbing (`getDependencies`, `getDependencyAssetDescriptors`, `Parameters`' texture filters) is not modelled.
- `addStaticTiles` is abstract here. `LoadTiles` requires a set whose tiles each sit under their own id, as that strategy leaves it.
- External tileset files (lines 593-606), the tileset image fields (607-627), the tileset's name, and its own properties and `firstgid` (631-637) are not modelled.
- The debug `System.out.println` at line 103 is not modelled.
- `loadLayer`'s dispatch, `loadLayerGroup` and `loadBasicLayerInfo` (lines 263-304, 388-404) are not modelled as code. The layer tree reaches `Propagate` as a `LayerTree`, and each layer's declared parallax factor is an entry of the factor array.
- The map property puts (lines 188-205) and the map's own properties (220-223) are not modelled. Map-level properties go through the same `LoadProperties`.
- The `name()` check of `loadProperties` (line 509) is not modelled: the record list is given directly.
- The property `value` falling back to `asString()` (line 515) is not modelled: each record carries its value text.
- The texture lookup of `loadImageLayer` is not modelled; only its anchor arithmetic (`ImageLayerY`) is.
- `TileSets.LoadTileElement` and `TileSets.CreateAnimatedTile`: the animated tile's region size is modelled as the static tile's. In the source an `AnimatedTiledMapTile` reports the region of its current frame, chosen by a global render clock.
- `AnimatedTiledMapTile`'s own behaviour (frame timing) and the `ClassCastException` a non-static frame tile would raise are not modelled. A frame naming an animated tile is reported as a `ClassCast` error.
- `TileSets.LoadTileElement`: tile objects are loaded through the corrected `LoadObjects`, without the `type` guard of the finding at line 415. With the guard as written no ordinary tile object would load.
- `ObjectGeometry.Scale` requires a non-zero tile size when converting to tile space. Java would divide by zero into an infinite float.
- `MapSize`: map width and height and tile sizes are integers; their products wrap as Java `int` does.
- A tile stamp whose gid names no tile is reported as `MissingTile`. Java builds the stamp on a `null` tile and fails reading its region.
- Ids and bytes are modelled as mathematical integers with explicit 32-bit wrapping (`Bits32`, `Wrap32`) and byte ranges (`Int8`, `Uint32`), not as `bv32`/`bv8` bit-vectors.
- A property record whose `name` is missing is not modelled: names are strings.
- Concurrency is not modelled: a load runs in one thread.
- Object id 0 is indexed like any other: line 501 puts every object into `idToObject`, id 0 included, and line 484 skips only the `id` property when the id is 0. `LoadObject` states both.
- GetTileIds: models the corrected chunk read (see "## Findings"). When the stream ends exactly at a cell boundary it reports premature end, where the source throws `IndexOutOfBoundsException` (lines 81-88).
- ReadTileIds: models the corrected chunk read, as `GetTileIds` does.
- GetTileIds: the id array has the exact `width*height` entries. The `new int[width * height]` of line 78 can overflow Java `int`, which the model does not capture: a negative product throws `NegativeArraySizeException`, and a wrapped one allocates the wrong size.
- Effects: uses the corrected `CastProperty` of the finding at lines 544-561, which accepts type `string` where the source throws (lines 558-559).
- LoadProperties: models the corrected cast of the finding at lines 544-561, through `Effects`.
- LoadProperty: models the corrected cast of the finding at lines 544-561.
- LoadPropertyAt: models the corrected cast of the finding at lines 544-561.
- AddTileProperties: models the corrected cast of the finding at lines 544-561, through `LoadProperties`.
- LoadObjects: loads every record without the `type` guard of line 415 (see "## Findings"), for layer groups (lines 349-351) as well as for tile object groups.
- LoadObject: an object's `rotation` is read as an optional real. `Float.parseFloat(rotation)` at line 477 throws `NumberFormatException` on text that is not a number, which the model does not capture.
- LoadTiles: the replacement loop of lines 666-668 is applied as one update of the set's tile map, `tiles + Overrides(animated)`. `ReplaceTiles` models that loop put by put on map values and proves it equal to the same update.

## Findings

| source | as written | input that shows it | evidently intended | confidence | as-written member | corrected member |
|---|---|---|---|---|---|---|
| gdx/src/com/badlogic/gdx/maps/tiled/BaseTmjMapLoader.java:81-88 | When the stream is exhausted exactly at a cell boundary, `read(temp)` returns -1. `read(temp, -1, 5)` then throws `IndexOutOfBoundsException` | A base64 layer of 1 by 1 cells with an empty stream | Report "Premature end of tile data" | not executed | TileData.ExhaustedStreamMisreported | TileData.ChunkRead |
| gdx/src/com/badlogic/gdx/maps/tiled/BaseTmjMapLoader.java:712 | `frames.get("frame")` on the TMJ `animation` array returns `null`, which the for-each then dereferences | A tile element with `animation` `[{"tileid": 3, "duration": 100}]` | Iterate the frames of the array itself | not executed | TileSets.AnimatedTileFailsAsWritten | TileSets.CreateAnimatedTile |
| gdx/src/com/badlogic/gdx/maps/tiled/BaseTmjMapLoader.java:415 | An object is loaded only when its `type` is `"object"`, but in TMJ `type` holds the object's class, so ordinary objects are skipped | An object record with no `type` | Load every object record | not executed | Scenarios.SkippedObject | Decoding.DecodeContext.LoadObject |
| gdx/src/com/badlogic/gdx/maps/tiled/BaseTmjMapLoader.java:544-561 | A property of type `"string"` falls into the error branch, though the message lists `string` as supported | A property with type `string` and value `abc` | Return the raw string | not executed | Properties.StringTypeRejectedAsWritten | Properties.CastPropertyOutcome |
