/**
 * The per-tile overrides of an embedded tileset in `loadTileSet`: for each
 * tile element whose id names a tile of the set, an animation (which makes
 * a new animated tile in place of the static one), the tile's properties and
 * its object group. Once every element is read, the animated tiles replace
 * the static ones in the set.
 */
module TileSets {
  import opened Common
  import opened MapModel
  import opened Properties
  import opened ObjectGeometry
  import opened Decoding

  /** One frame of a tile's `animation`: the local tile id and the duration; either may be missing. */
  datatype FrameRecord = FrameRecord(tileid: Option<Int32>, duration: Option<Int32>)

  /** A tile's `objectgroup`; its `objects` member may be missing. */
  datatype ObjectGroupRecord = ObjectGroupRecord(objects: Option<seq<ObjectRecord>>)

  /**
   * One element of a tileset's `tiles`. `id` reads as 0 when missing; an
   * element without `properties` has none.
   */
  datatype TileElement = TileElement(
    id: Option<Int32>,
    animation: Option<seq<FrameRecord>>,
    terrain: Option<string>,
    probability: Option<string>,
    typ: Option<string>,
    properties: seq<PropertyRecord>,
    objectGroup: Option<ObjectGroupRecord>)

  /** `firstgid + getInt("id", 0)`, in Java's 32-bit arithmetic. */
  function Key(firstgid: Int32, e: TileElement): Int32 {
    Wrap32(firstgid + if e.id.Some? then e.id.value else 0)
  }

  /**
   * One frame of `createAnimatedTile`: the tile with global id
   * `firstgid + tileid` (or `null` when the set has none) cast to a static
   * tile, and the duration. A missing `tileid` or `duration` throws, and so
   * does the cast of an animated tile.
   */
  function FrameOf(f: FrameRecord, firstgid: Int32, tiles: map<int, Tile>): (r: Result<(Option<Tile>, Int32)>)
    ensures r.Success? <==> (f.tileid.Some? && f.duration.Some? &&
      !(Wrap32(firstgid + f.tileid.value) in tiles && tiles[Wrap32(firstgid + f.tileid.value)].animation.Some?))
    ensures r.Success? ==> r.value.1 == f.duration.value
    ensures r.Success? ==> (r.value.0.Some? <==> Wrap32(firstgid + f.tileid.value) in tiles)
    ensures r.Success? && r.value.0.Some? ==>
      r.value.0.value == tiles[Wrap32(firstgid + f.tileid.value)] && r.value.0.value.animation.None?
  {
    match f.tileid
    case None => Failure(MissingFrameField("tileid"))
    case Some(t) =>
      var gid := Wrap32(firstgid + t);
      if gid in tiles && tiles[gid].animation.Some? then Failure(ClassCast)
      else
        match f.duration
        case None => Failure(MissingFrameField("duration"))
        case Some(d) => Success((if gid in tiles then Some(tiles[gid]) else None, d))
  }

  /**
   * The animation the frames make: one frame tile and one interval per
   * frame record, in order; the first frame that fails fails the animation.
   */
  function AnimationOf(frames: seq<FrameRecord>, firstgid: Int32, tiles: map<int, Tile>): (r: Result<Animation>)
    ensures r.Success? <==> forall i :: 0 <= i < |frames| ==> FrameOf(frames[i], firstgid, tiles).Success?
    ensures r.Success? ==> |r.value.frames| == |frames| && |r.value.intervals| == |frames|
    ensures r.Success? ==> forall i :: 0 <= i < |frames| ==>
      r.value.frames[i] == FrameOf(frames[i], firstgid, tiles).value.0 &&
      r.value.intervals[i] == FrameOf(frames[i], firstgid, tiles).value.1
    decreases |frames|
  {
    if frames == [] then Success(Animation([], []))
    else
      var prefix := frames[..|frames| - 1];
      assert forall i :: 0 <= i < |prefix| ==> prefix[i] == frames[i];
      match AnimationOf(prefix, firstgid, tiles)
      case Failure(e) => Failure(e)
      case Success(a) =>
        match FrameOf(frames[|frames| - 1], firstgid, tiles)
        case Failure(e) => Failure(e)
        case Success(frame) => Success(Animation(a.frames + [frame.0], a.intervals + [frame.1]))
  }

  /** An animation fails with the error of its first failing frame. */
  lemma {:induction false} AnimationFailsAtFirstBadFrame(frames: seq<FrameRecord>, firstgid: Int32, tiles: map<int, Tile>, k: nat)
    requires k < |frames| && FrameOf(frames[k], firstgid, tiles).Failure?
    requires AnimationOf(frames[..k], firstgid, tiles).Success?
    ensures AnimationOf(frames, firstgid, tiles) == Failure(FrameOf(frames[k], firstgid, tiles).error)
    decreases |frames|
  {
    var prefix := frames[..|frames| - 1];
    if k < |frames| - 1 {
      assert prefix[k] == frames[k] && prefix[..k] == frames[..k];
      AnimationFailsAtFirstBadFrame(prefix, firstgid, tiles, k);
    } else {
      assert prefix == frames[..k];
    }
  }

  /** One more frame that succeeds extends the animation by its tile and duration. */
  lemma AnimationStep(frames: seq<FrameRecord>, k: nat, firstgid: Int32, tiles: map<int, Tile>)
    requires k < |frames| && AnimationOf(frames[..k], firstgid, tiles).Success?
    requires FrameOf(frames[k], firstgid, tiles).Success?
    ensures var a, frame := AnimationOf(frames[..k], firstgid, tiles).value, FrameOf(frames[k], firstgid, tiles).value;
      AnimationOf(frames[..k + 1], firstgid, tiles) == Success(Animation(a.frames + [frame.0], a.intervals + [frame.1]))
  {
    assert frames[..k + 1][..k] == frames[..k];
  }

  /**
   * `createAnimatedTile` as written: it iterates `frames.get("frame")`, but
   * `animation` is a JSON array whose elements have no names, so the lookup
   * is `null` and the loop over it throws. Without `animation` there is no
   * animated tile.
   */
  function AnimationAsWritten(animation: Option<seq<FrameRecord>>): (r: Result<Option<Animation>>)
    ensures animation.Some? <==> r.Failure?
  {
    if animation.Some? then Failure(NullReference("frame")) else Success(None)
  }

  /**
   * A tile with a one-frame animation over a tile the set does not have: the
   * frames make an animation with a `null` frame, while the loader as written
   * fails on the tile.
   */
  lemma AnimatedTileFailsAsWritten()
    ensures var frames := [FrameRecord(Some(3), Some(100))];
      && AnimationAsWritten(Some(frames)) == Failure(NullReference("frame"))
      && AnimationOf(frames, 1, map[]) == Success(Animation([None], [100]))
  {
    var frames := [FrameRecord(Some(3), Some(100))];
    assert frames[..0] == [];
    assert Wrap32(1 + 3) == 4;
    assert FrameOf(frames[0], 1, map[]) == Success((None, 100));
    assert AnimationOf(frames[..0], 1, map[]) == Success(Animation([], []));
    assert frames[..|frames| - 1] == frames[..0];
    var none: Option<Tile> := None;
    var empty: seq<Option<Tile>>, noIntervals: seq<Int32> := [], [];
    assert empty + [none] == [none] && noIntervals + [100] == [100];
    assert AnimationOf(frames, 1, map[]) == Success(Animation([None], [100]));
  }

  /**
   * `createAnimatedTile`, iterating the frames themselves: with an
   * `animation`, a new animated tile with the static tile's id (and region)
   * and the frames' animation; without one, none.
   */
  method CreateAnimatedTile(tiles: map<int, Tile>, tile: Tile, animation: Option<seq<FrameRecord>>, firstgid: Int32)
    returns (r: Result<Option<Tile>>)
    ensures animation.None? ==> r == Success(None)
    ensures animation.Some? ==>
      match AnimationOf(animation.value, firstgid, tiles)
      case Failure(e) => r == Failure(e)
      case Success(a) =>
        && r.Success? && r.value.Some? && fresh(r.value.value)
        && fresh(r.value.value.props) && fresh(r.value.value.objects)
        && r.value.value.id == tile.id && r.value.value.animation == Some(a)
        && r.value.value.regionWidth == tile.regionWidth && r.value.value.regionHeight == tile.regionHeight
        && r.value.value.props.entries == map[] && r.value.value.objects.items == []
  {
    if animation.None? {
      return Success(None);
    }
    var frames := animation.value;
    var staticTiles: seq<Option<Tile>> := [];
    var intervals: seq<Int32> := [];
    for k := 0 to |frames|
      invariant AnimationOf(frames[..k], firstgid, tiles) == Success(Animation(staticTiles, intervals))
    {
      var frame := FrameOf(frames[k], firstgid, tiles);
      if frame.Failure? {
        AnimationFailsAtFirstBadFrame(frames, firstgid, tiles, k);
        return Failure(frame.error);
      }
      AnimationStep(frames, k, firstgid, tiles);
      staticTiles := staticTiles + [frame.value.0];
      intervals := intervals + [frame.value.1];
    }
    assert frames[..|frames|] == frames;
    var animated := new Tile(tile.id, Some(Animation(staticTiles, intervals)), tile.regionWidth, tile.regionHeight);
    return Success(Some(animated));
  }

  /** The string properties `addTileProperties` puts before the custom ones: `terrain`, `probability` and `type`, when present. */
  function TileHeader(entries: map<string, PropertyValue>, e: TileElement): (r: map<string, PropertyValue>)
    ensures forall name :: name in r <==> (name in entries || (name == "terrain" && e.terrain.Some?)
      || (name == "probability" && e.probability.Some?) || (name == "type" && e.typ.Some?))
    ensures e.terrain.Some? ==> r["terrain"] == StringValue(e.terrain.value)
    ensures e.probability.Some? ==> r["probability"] == StringValue(e.probability.value)
    ensures e.typ.Some? ==> r["type"] == StringValue(e.typ.value)
    ensures forall name :: name in entries && name !in {"terrain", "probability", "type"} ==> r[name] == entries[name]
  {
    var withTerrain := if e.terrain.Some? then entries["terrain" := StringValue(e.terrain.value)] else entries;
    var withProbability := if e.probability.Some? then withTerrain["probability" := StringValue(e.probability.value)] else withTerrain;
    if e.typ.Some? then withProbability["type" := StringValue(e.typ.value)] else withProbability
  }

  /**
   * `addTileProperties`: the string properties, then the custom ones, into
   * the tile's bag; a failing custom property fails after what came before it.
   */
  method AddTileProperties(ctx: DecodeContext, tile: Tile, e: TileElement) returns (r: Outcome)
    modifies ctx, tile.props
    ensures var effects := Effects(e.properties, ctx.parseFloat);
      && tile.props.entries == ApplyPuts(TileHeader(old(tile.props.entries), e), effects.0)
      && ctx.pending == old(ctx.pending) + Refs(tile.props, Deferred(effects.0))
      && r == (if effects.1 == None then Pass else Fail(effects.1.value))
    ensures ctx.idToObject == old(ctx.idToObject)
  {
    if e.terrain.Some? {
      tile.props.Put("terrain", StringValue(e.terrain.value));
    }
    if e.probability.Some? {
      tile.props.Put("probability", StringValue(e.probability.value));
    }
    if e.typ.Some? {
      tile.props.Put("type", StringValue(e.typ.value));
    }
    r := ctx.LoadProperties(tile.props, e.properties);
  }

  /** Where `loadObject` places a tile's objects: in a container as high as the tile's region. */
  function TilePlacement(ctx: DecodeContext, tile: Tile): Placement
    requires ctx.ScalesDefined()
  {
    ctx.PlacementFor(tile.regionHeight as real)
  }

  /** What stops `addTileObjectGroup`: a group without `objects`, or the first object that fails. */
  function GroupError(ctx: DecodeContext, tile: Tile, e: TileElement, mapTiles: map<int, Tile>): Option<Error>
    requires ctx.ScalesDefined()
  {
    match e.objectGroup
    case None => None
    case Some(group) =>
      match group.objects
      case None => Some(NullReference("objects"))
      case Some(records) => FirstError(Errors(records, TilePlacement(ctx, tile), mapTiles, ctx.parseFloat))
  }

  /** The records of the objects an element's group appends to its tile: none without a group. */
  function GroupRecords(e: TileElement): seq<ObjectRecord> {
    if e.objectGroup.Some? && e.objectGroup.value.objects.Some? then e.objectGroup.value.objects.value else []
  }

  /**
   * `addTileObjectGroup`: each object of the tile's group, in order, into the
   * tile's objects, placed in the tile's region; the objects are indexed by
   * id and queue their references like any other. A group without `objects`
   * throws, and so does the first object that fails.
   */
  method AddTileObjectGroup(ctx: DecodeContext, tile: Tile, e: TileElement, mapTiles: map<int, Tile>) returns (r: Outcome)
    requires ctx.ScalesDefined()
    modifies ctx, tile.objects
    ensures r == (if GroupError(ctx, tile, e, mapTiles) == None then Pass else Fail(GroupError(ctx, tile, e, mapTiles).value))
    ensures r.Pass? ==>
      GroupLoaded(tile.objects.items, ctx.idToObject, ctx.pending, old(tile.objects.items), old(ctx.idToObject), old(ctx.pending),
                  GroupRecords(e), |GroupRecords(e)|, TilePlacement(ctx, tile), mapTiles, ctx.parseFloat)
    ensures r.Fail? && e.objectGroup.value.objects.Some? ==>
      GroupStopped(tile.objects.items, ctx.idToObject, ctx.pending, old(tile.objects.items), old(ctx.idToObject), old(ctx.pending),
                   GroupRecords(e), TilePlacement(ctx, tile), mapTiles, ctx.parseFloat, r.error)
    ensures r.Fail? && e.objectGroup.value.objects.None? ==>
      tile.objects.items == old(tile.objects.items) && ctx.idToObject == old(ctx.idToObject) && ctx.pending == old(ctx.pending)
    ensures |old(tile.objects.items)| <= |tile.objects.items|
    ensures fresh(ObjectBags(tile.objects.items[|old(tile.objects.items)|..]))
  {
    if e.objectGroup.None? {
      var items := tile.objects.items;
      assert items[|items|..] == [] && GroupRecords(e)[..0] == [];
      return Pass;
    }
    if e.objectGroup.value.objects.None? {
      return Fail(NullReference("objects"));
    }
    r := ctx.LoadObjects(tile.objects, e.objectGroup.value.objects.value, tile.regionHeight as real, mapTiles);
  }

  /** The parts of every tile of the set. */
  function Parts(tiles: map<int, Tile>): set<object> {
    (set k | k in tiles :: tiles[k].props) + (set k | k in tiles :: tiles[k].objects)
  }

  /** Every tile of the set has its own bag and its own object list, as the tiles `addStaticTiles` makes do. */
  ghost predicate OwnParts(tiles: map<int, Tile>) {
    forall k, k' {:trigger ApartTiles(tiles, k, k')} :: k in tiles && k' in tiles && k != k' ==> ApartTiles(tiles, k, k')
  }

  /** The tiles under `k` and `k'` have different bags and different object lists. */
  ghost predicate ApartTiles(tiles: map<int, Tile>, k: int, k': int)
    requires k in tiles && k' in tiles
  {
    tiles[k].props != tiles[k'].props && tiles[k].objects != tiles[k'].objects
  }

  /**
   * What stops one tile element: its animation, then its properties, then
   * its object group, read against the tile it overrides. An element whose
   * id names no tile of the set is skipped.
   */
  function ElementError(ctx: DecodeContext, tiles: map<int, Tile>, firstgid: Int32, e: TileElement, mapTiles: map<int, Tile>): Option<Error>
    requires ctx.ScalesDefined()
  {
    var key := Key(firstgid, e);
    if key !in tiles then None
    else if e.animation.Some? && AnimationOf(e.animation.value, firstgid, tiles).Failure? then
      Some(AnimationOf(e.animation.value, firstgid, tiles).error)
    else if Effects(e.properties, ctx.parseFloat).1.Some? then Effects(e.properties, ctx.parseFloat).1
    else GroupError(ctx, tiles[key], e, mapTiles)
  }

  /** Each element's error (or `None`), in element order. */
  function ElementErrors(ctx: DecodeContext, tiles: map<int, Tile>, firstgid: Int32, elements: seq<TileElement>,
                         mapTiles: map<int, Tile>): (errors: seq<Option<Error>>)
    requires ctx.ScalesDefined()
    ensures |errors| == |elements|
  {
    seq(|elements|, i requires 0 <= i < |elements| => ElementError(ctx, tiles, firstgid, elements[i], mapTiles))
  }

  /**
   * What an element leaves in the tile it writes to, which held the entries
   * `entries` and the objects `items`: the string and custom properties on
   * top of the entries, and after the items the group's objects, each
   * matching its record.
   */
  ghost predicate Overridden(ctx: DecodeContext, t: Tile, entries: map<string, PropertyValue>, items: seq<MapObject>,
                             e: TileElement, mapTiles: map<int, Tile>)
    requires ctx.ScalesDefined()
    reads t.props, t.objects, ObjectBags(t.objects.items)
  {
    && t.props.entries == ApplyPuts(TileHeader(entries, e), Effects(e.properties, ctx.parseFloat).0)
    && |items| <= |t.objects.items| && t.objects.items[..|items|] == items
    && ObjectsMatch(t.objects.items[|items|..], GroupRecords(e), TilePlacement(ctx, t), mapTiles, ctx.parseFloat)
  }

  /** What one element of the loop did: nothing, as its id names no tile of the set, or wrote to `target`, appending `added`. */
  datatype ElementLoad = Skipped | Wrote(target: Tile, added: seq<MapObject>)

  /** The references an element queues: its custom properties' on the tile it writes to, then its objects', in order. */
  function ElementQueued(load: ElementLoad, e: TileElement, parseFloat: FloatParser): seq<PendingRef> {
    match load
    case Skipped => []
    case Wrote(t, added) =>
      Refs(t.props, Deferred(Effects(e.properties, parseFloat).0)) +
      (if |added| == |GroupRecords(e)| then QueuedBy(added, GroupRecords(e), parseFloat) else [])
  }

  /** The index after an element: its objects put under their ids, in order. */
  function ElementIndex(index: map<int, MapObject>, load: ElementLoad, e: TileElement): map<int, MapObject> {
    if load.Wrote? && |load.added| == |GroupRecords(e)| then IndexAfter(index, load.added, GroupRecords(e)) else index
  }

  /**
   * `addTileProperties` then `addTileObjectGroup` on the tile an element
   * writes to: on success the tile is overridden by the element, the index
   * holds its objects and the queue its references, in order.
   */
  method OverrideTile(ctx: DecodeContext, tile: Tile, e: TileElement, mapTiles: map<int, Tile>) returns (r: Outcome)
    requires ctx.ScalesDefined()
    modifies ctx, tile.props, tile.objects
    ensures var error := if Effects(e.properties, ctx.parseFloat).1.Some? then Effects(e.properties, ctx.parseFloat).1
                         else GroupError(ctx, tile, e, mapTiles);
      r == if error == None then Pass else Fail(error.value)
    ensures r.Pass? ==>
      && Overridden(ctx, tile, old(tile.props.entries), old(tile.objects.items), e, mapTiles)
      && var load := Wrote(tile, tile.objects.items[|old(tile.objects.items)|..]);
         && ctx.idToObject == ElementIndex(old(ctx.idToObject), load, e)
         && ctx.pending == old(ctx.pending) + ElementQueued(load, e, ctx.parseFloat)
    ensures |old(tile.objects.items)| <= |tile.objects.items|
    ensures fresh(ObjectBags(tile.objects.items[|old(tile.objects.items)|..]))
  {
    r := AddTileProperties(ctx, tile, e);
    if r.Fail? {
      return;
    }
    ghost var queued := ctx.pending;
    r := AddTileObjectGroup(ctx, tile, e, mapTiles);
    if r.Pass? {
      var records := GroupRecords(e);
      assert records[..|records|] == records;
      AppendAssociative(old(ctx.pending), Refs(tile.props, Deferred(Effects(e.properties, ctx.parseFloat).0)),
                        QueuedBy(tile.objects.items[|old(tile.objects.items)|..], records, ctx.parseFloat));
    }
  }

  /**
   * One element of the loop over `tiles` whose id names the tile `tile` of
   * the set: an animated tile is made if the element has an animation, and
   * the string and custom properties and the object group go to the
   * animated tile, or else to the static one. The animated tile is
   * returned; the set itself is not changed.
   */
  method LoadTileElement(ctx: DecodeContext, tileSet: TileSet, tile: Tile, firstgid: Int32, e: TileElement,
                         mapTiles: map<int, Tile>) returns (r: Result<Option<Tile>>)
    requires ctx.ScalesDefined() && tileSet.Valid()
    requires Key(firstgid, e) in tileSet.tiles && tileSet.tiles[Key(firstgid, e)] == tile
    modifies ctx, tile.props, tile.objects
    ensures var error := ElementError(ctx, tileSet.tiles, firstgid, e, mapTiles);
      (error.Some? <==> r.Failure?) && (r.Failure? ==> r.error == error.value)
    ensures r.Success? ==> (r.value.Some? <==> e.animation.Some?)
    ensures r.Success? && r.value.Some? ==>
      var t := r.value.value;
      && fresh(t) && fresh(t.props) && fresh(t.objects)
      && AnimatedAs(tileSet.tiles, Key(firstgid, e), t, e.animation.value, firstgid)
      && unchanged(tile.props, tile.objects)
    ensures r.Success? ==>
      var t := if r.value.Some? then r.value.value else tile;
      var items := if r.value.Some? then [] else old(tile.objects.items);
      && Overridden(ctx, t, if r.value.Some? then map[] else old(tile.props.entries), items, e, mapTiles)
      && ctx.idToObject == ElementIndex(old(ctx.idToObject), Wrote(t, t.objects.items[|items|..]), e)
      && ctx.pending == old(ctx.pending) + ElementQueued(Wrote(t, t.objects.items[|items|..]), e, ctx.parseFloat)
      && fresh(ObjectBags(t.objects.items[|items|..]))
  {
    var animated := CreateAnimatedTile(tileSet.tiles, tile, e.animation, firstgid);
    if animated.Failure? {
      return Failure(animated.error);
    }
    var target := if animated.value.Some? then animated.value.value else tile;
    var loaded := OverrideTile(ctx, target, e, mapTiles);
    if loaded.Fail? {
      return Failure(loaded.error);
    }
    return Success(animated.value);
  }

  /** The parts of an element's target that the element wrote and nothing else writes: its objects' bags and, for an animated tile, the tile's own bag and list. */
  ghost function LoadParts(e: TileElement, load: ElementLoad): set<object> {
    if load.Skipped? then {}
    else
      var bags: set<object> := ObjectBags(load.added);
      bags + if e.animation.Some? then {load.target.props, load.target.objects} else {}
  }

  /** The parts the first `|loads|` elements wrote that nothing else writes. */
  ghost function LoadsParts(elements: seq<TileElement>, loads: seq<ElementLoad>): set<object> {
    set i, o | 0 <= i < |loads| && i < |elements| && o in LoadParts(elements[i], loads[i]) :: o
  }

  /**
   * What an element did, as `load` records it: nothing when its id names no
   * tile of the set; otherwise objects matching its group's records, written
   * to the static tile under its id, or, with an animation, to a new
   * animated tile for it that the element overrode from nothing.
   */
  ghost predicate LoadFits(ctx: DecodeContext, tiles: map<int, Tile>, firstgid: Int32, e: TileElement, load: ElementLoad,
                           mapTiles: map<int, Tile>)
    requires ctx.ScalesDefined()
    reads LoadParts(e, load)
  {
    var key := Key(firstgid, e);
    && (load.Skipped? <==> key !in tiles)
    && (load.Wrote? ==>
         && ObjectsMatch(load.added, GroupRecords(e), TilePlacement(ctx, load.target), mapTiles, ctx.parseFloat)
         && (e.animation.None? ==> load.target == tiles[key])
         && (e.animation.Some? ==>
              && AnimatedAs(tiles, key, load.target, e.animation.value, firstgid)
              && load.target.objects.items == load.added
              && Overridden(ctx, load.target, map[], [], e, mapTiles)))
  }

  /** Each of the first `|loads|` elements did what its load records. */
  ghost predicate LoadsFit(ctx: DecodeContext, tiles: map<int, Tile>, firstgid: Int32, elements: seq<TileElement>,
                           loads: seq<ElementLoad>, mapTiles: map<int, Tile>)
    requires ctx.ScalesDefined() && |loads| <= |elements|
    reads LoadsParts(elements, loads)
  {
    forall i {:trigger LoadFits(ctx, tiles, firstgid, elements[i], loads[i], mapTiles)} ::
      0 <= i < |loads| ==> LoadFits(ctx, tiles, firstgid, elements[i], loads[i], mapTiles)
  }

  /** The references the first `|loads|` elements queue, in element order. */
  function LoadsQueued(loads: seq<ElementLoad>, elements: seq<TileElement>, parseFloat: FloatParser): seq<PendingRef>
    requires |loads| <= |elements|
    decreases |loads|
  {
    if loads == [] then []
    else LoadsQueued(loads[..|loads| - 1], elements, parseFloat) + ElementQueued(loads[|loads| - 1], elements[|loads| - 1], parseFloat)
  }

  /** The index after the first `|loads|` elements, each in turn. */
  function LoadsIndex(index: map<int, MapObject>, loads: seq<ElementLoad>, elements: seq<TileElement>): map<int, MapObject>
    requires |loads| <= |elements|
    decreases |loads|
  {
    if loads == [] then index
    else ElementIndex(LoadsIndex(index, loads[..|loads| - 1], elements), loads[|loads| - 1], elements[|loads| - 1])
  }

  /** Whether element `e` writes to the static tile under `key`: it names that tile and has no animation. */
  predicate OnStatic(firstgid: Int32, e: TileElement, key: int) {
    Key(firstgid, e) == key && e.animation.None?
  }

  /** The entries of the static tile under `key`, which were `entries`, after the first `n` elements. */
  function StaticEntries(entries: map<string, PropertyValue>, elements: seq<TileElement>, n: nat, firstgid: Int32, key: int,
                         parseFloat: FloatParser): map<string, PropertyValue>
    requires n <= |elements|
    decreases n
  {
    if n == 0 then entries
    else
      var before := StaticEntries(entries, elements, n - 1, firstgid, key, parseFloat);
      var e := elements[n - 1];
      if OnStatic(firstgid, e, key) then ApplyPuts(TileHeader(before, e), Effects(e.properties, parseFloat).0) else before
  }

  /** The records of the objects the first `n` elements append to the static tile under `key`, in order. */
  function StaticRecords(elements: seq<TileElement>, n: nat, firstgid: Int32, key: int): seq<ObjectRecord>
    requires n <= |elements|
    decreases n
  {
    if n == 0 then []
    else StaticRecords(elements, n - 1, firstgid, key) + if OnStatic(firstgid, elements[n - 1], key) then GroupRecords(elements[n - 1]) else []
  }

  /** The objects the first `|loads|` elements append to the static tile under `key`, in order. */
  function StaticAdded(loads: seq<ElementLoad>, elements: seq<TileElement>, firstgid: Int32, key: int): seq<MapObject>
    requires |loads| <= |elements|
    decreases |loads|
  {
    if loads == [] then []
    else
      var n := |loads| - 1;
      StaticAdded(loads[..n], elements, firstgid, key) + if OnStatic(firstgid, elements[n], key) && loads[n].Wrote? then loads[n].added else []
  }

  /** The last of the first `n` elements that animates the tile under `key`, if any: its animated tile ends up in the set. */
  function LastAnimating(elements: seq<TileElement>, n: nat, firstgid: Int32, key: int): (r: Option<nat>)
    requires n <= |elements|
    ensures r.Some? ==> r.value < n && Key(firstgid, elements[r.value]) == key && elements[r.value].animation.Some?
    decreases n
  {
    if n == 0 then None
    else if Key(firstgid, elements[n - 1]) == key && elements[n - 1].animation.Some? then Some(n - 1)
    else LastAnimating(elements, n - 1, firstgid, key)
  }

  /** The tile the replacement loop leaves under each id it writes: the last animated tile with that id. */
  function Overrides(animated: seq<Tile>): map<int, Tile>
    decreases |animated|
  {
    if animated == [] then map[]
    else
      var t := animated[|animated| - 1];
      Overrides(animated[..|animated| - 1])[t.id := t]
  }

  /** `t` is the animated tile the frames make for the static tile under `key`: same id and region, the frames' animation. */
  predicate AnimatedAs(tiles: map<int, Tile>, key: int, t: Tile, frames: seq<FrameRecord>, firstgid: Int32) {
    && key in tiles && t.id == key
    && AnimationOf(frames, firstgid, tiles).Success?
    && t.animation == Some(AnimationOf(frames, firstgid, tiles).value)
    && t.regionWidth == tiles[key].regionWidth && t.regionHeight == tiles[key].regionHeight
  }

  /**
   * The overrides are exactly the tiles of the set that one of the first
   * `|loads|` elements animates, each the animated tile the last such
   * element wrote to.
   */
  ghost predicate OverridesMatch(overrides: map<int, Tile>, tiles: map<int, Tile>, elements: seq<TileElement>,
                                 loads: seq<ElementLoad>, firstgid: Int32)
    requires |loads| <= |elements|
  {
    forall k {:trigger OverridesMatchAt(overrides, tiles, elements, loads, firstgid, k)} ::
      OverridesMatchAt(overrides, tiles, elements, loads, firstgid, k)
  }

  /** `OverridesMatch` for the id `k`. */
  ghost predicate OverridesMatchAt(overrides: map<int, Tile>, tiles: map<int, Tile>, elements: seq<TileElement>,
                                   loads: seq<ElementLoad>, firstgid: Int32, k: int)
    requires |loads| <= |elements|
  {
    && (k in overrides <==> k in tiles && LastAnimating(elements, |loads|, firstgid, k).Some?)
    && (k in overrides ==>
         var i := LastAnimating(elements, |loads|, firstgid, k).value;
         && loads[i].Wrote? && overrides[k] == loads[i].target
         && AnimatedAs(tiles, k, overrides[k], elements[i].animation.value, firstgid))
  }

  /** Reading one more element keeps the overrides matched: its animated tile, if any, takes its id's slot. */
  lemma OverridesStep(animated: seq<Tile>, tiles: map<int, Tile>, elements: seq<TileElement>, loads: seq<ElementLoad>,
                      firstgid: Int32, load: ElementLoad, made: Option<Tile>)
    requires |loads| < |elements|
    requires OverridesMatch(Overrides(animated), tiles, elements, loads, firstgid)
    requires made.Some? <==> Key(firstgid, elements[|loads|]) in tiles && elements[|loads|].animation.Some?
    requires made.Some? ==>
      && load.Wrote? && load.target == made.value
      && AnimatedAs(tiles, Key(firstgid, elements[|loads|]), made.value, elements[|loads|].animation.value, firstgid)
    ensures OverridesMatch(Overrides(if made.Some? then animated + [made.value] else animated), tiles, elements, loads + [load], firstgid)
  {
    var animated' := if made.Some? then animated + [made.value] else animated;
    if made.Some? {
      assert animated'[..|animated|] == animated;
    }
    forall k
      ensures OverridesMatchAt(Overrides(animated'), tiles, elements, loads + [load], firstgid, k)
    {
      OverrideStepAt(Overrides(animated), tiles, elements, loads, firstgid, load, made, k);
    }
  }

  /** `OverridesStep` for one id. */
  lemma OverrideStepAt(overrides: map<int, Tile>, tiles: map<int, Tile>, elements: seq<TileElement>, loads: seq<ElementLoad>,
                       firstgid: Int32, load: ElementLoad, made: Option<Tile>, k: int)
    requires |loads| < |elements|
    requires OverridesMatchAt(overrides, tiles, elements, loads, firstgid, k)
    requires made.Some? <==> Key(firstgid, elements[|loads|]) in tiles && elements[|loads|].animation.Some?
    requires made.Some? ==>
      && load.Wrote? && load.target == made.value
      && AnimatedAs(tiles, Key(firstgid, elements[|loads|]), made.value, elements[|loads|].animation.value, firstgid)
    ensures OverridesMatchAt(if made.Some? then overrides[made.value.id := made.value] else overrides,
                             tiles, elements, loads + [load], firstgid, k)
  {
    var n := |loads|;
    if k == Key(firstgid, elements[n]) && elements[n].animation.Some? {
      assert LastAnimating(elements, n + 1, firstgid, k) == Some(n);
      assert (loads + [load])[n] == load;
    } else {
      assert LastAnimating(elements, n + 1, firstgid, k) == LastAnimating(elements, n, firstgid, k);
      if k in overrides {
        var i := LastAnimating(elements, n, firstgid, k).value;
        assert (loads + [load])[i] == loads[i];
      }
    }
  }

  /** One more put of the replacement loop. */
  lemma OverridesSnoc(tiles: map<int, Tile>, animated: seq<Tile>, i: nat)
    requires i < |animated|
    ensures (tiles + Overrides(animated[..i]))[animated[i].id := animated[i]] == tiles + Overrides(animated[..i + 1])
  {
    assert animated[..i + 1][..i] == animated[..i];
  }

  /**
   * The set after the replacements: the same ids, each tile under its own
   * id, the last animated tile for an id in place of its static tile and
   * every other tile as it was.
   */
  lemma ReplacedTiles(tiles: map<int, Tile>, overrides: map<int, Tile>, elements: seq<TileElement>, loads: seq<ElementLoad>,
                      firstgid: Int32)
    requires |loads| <= |elements|
    requires forall k :: k in tiles ==> tiles[k].id == k
    requires OverridesMatch(overrides, tiles, elements, loads, firstgid)
    ensures (tiles + overrides).Keys == tiles.Keys
    ensures forall k :: k in tiles + overrides ==> (tiles + overrides)[k].id == k
    ensures forall k :: k in tiles ==>
      match LastAnimating(elements, |loads|, firstgid, k)
      case None => (tiles + overrides)[k] == tiles[k]
      case Some(i) =>
        && loads[i].Wrote? && (tiles + overrides)[k] == loads[i].target
        && AnimatedAs(tiles, k, (tiles + overrides)[k], elements[i].animation.value, firstgid)
  {
    forall k | k in tiles + overrides
      ensures k in tiles
    {
      assert OverridesMatchAt(overrides, tiles, elements, loads, firstgid, k);
    }
    forall k | k in tiles
      ensures match LastAnimating(elements, |loads|, firstgid, k)
        case None => (tiles + overrides)[k] == tiles[k]
        case Some(i) =>
          && loads[i].Wrote? && (tiles + overrides)[k] == loads[i].target
          && AnimatedAs(tiles, k, (tiles + overrides)[k], elements[i].animation.value, firstgid)
    {
      assert OverridesMatchAt(overrides, tiles, elements, loads, firstgid, k);
    }
  }

  /** The references queued after one more element: its own after the others'. */
  lemma QueuedSnoc(elements: seq<TileElement>, loads: seq<ElementLoad>, load: ElementLoad, parseFloat: FloatParser)
    requires |loads| < |elements|
    ensures LoadsQueued(loads + [load], elements, parseFloat) ==
            LoadsQueued(loads, elements, parseFloat) + ElementQueued(load, elements[|loads|], parseFloat)
  {
    assert (loads + [load])[..|loads|] == loads;
  }

  /** The index after one more element: its objects put in after the others'. */
  lemma IndexSnoc(elements: seq<TileElement>, loads: seq<ElementLoad>, load: ElementLoad, index0: map<int, MapObject>)
    requires |loads| < |elements|
    ensures LoadsIndex(index0, loads + [load], elements) == ElementIndex(LoadsIndex(index0, loads, elements), load, elements[|loads|])
  {
    assert (loads + [load])[..|loads|] == loads;
  }

  /** The parts written after one more element: its own and the others'. */
  lemma PartsSnoc(elements: seq<TileElement>, loads: seq<ElementLoad>, load: ElementLoad)
    requires |loads| < |elements|
    ensures LoadsParts(elements, loads + [load]) == LoadsParts(elements, loads) + LoadParts(elements[|loads|], load)
  {
    var loads' := loads + [load];
    assert loads'[|loads|] == load;
    assert forall i :: 0 <= i < |loads| ==> loads'[i] == loads[i];
  }

  /** The objects of the static tile under `key` after one more element: its own after the others', if it writes there. */
  lemma AddedSnoc(elements: seq<TileElement>, loads: seq<ElementLoad>, load: ElementLoad, firstgid: Int32, key: int)
    requires |loads| < |elements|
    ensures StaticAdded(loads + [load], elements, firstgid, key) ==
      StaticAdded(loads, elements, firstgid, key) + if OnStatic(firstgid, elements[|loads|], key) && load.Wrote? then load.added else []
  {
    assert (loads + [load])[..|loads|] == loads;
  }

  /** The state of every tile and of the decoder after the first `|loads|` elements. */
  function EntriesOf(tiles: map<int, Tile>): map<int, map<string, PropertyValue>>
    reads set k | k in tiles :: tiles[k].props
  {
    map k | k in tiles :: tiles[k].props.entries
  }

  /** The objects of every tile of the set. */
  function ItemsOf(tiles: map<int, Tile>): map<int, seq<MapObject>>
    reads set k | k in tiles :: tiles[k].objects
  {
    map k | k in tiles :: tiles[k].objects.items
  }

  /**
   * The first `|loads|` elements have been read, with no error, from a set
   * whose tiles held `entries0` and `items0`, into an index that was
   * `index0` and onto a queue that was `pending0`: each did what its load
   * records, the index and queue hold their objects and references in
   * order, and each static tile holds what the elements naming it wrote.
   */
  ghost predicate TilesLoaded(ctx: DecodeContext, tiles: map<int, Tile>, entries0: map<int, map<string, PropertyValue>>,
                              items0: map<int, seq<MapObject>>, index0: map<int, MapObject>, pending0: seq<PendingRef>,
                              firstgid: Int32, elements: seq<TileElement>, loads: seq<ElementLoad>, mapTiles: map<int, Tile>)
    requires ctx.ScalesDefined() && |loads| <= |elements|
    reads ctx, Parts(tiles), LoadsParts(elements, loads)
  {
    && LoadsFit(ctx, tiles, firstgid, elements, loads, mapTiles)
    && ctx.idToObject == LoadsIndex(index0, loads, elements)
    && ctx.pending == pending0 + LoadsQueued(loads, elements, ctx.parseFloat)
    && forall k {:trigger StaticLoaded(tiles[k], entries0, items0, firstgid, elements, loads, k, ctx.parseFloat)} ::
         k in tiles ==> StaticLoaded(tiles[k], entries0, items0, firstgid, elements, loads, k, ctx.parseFloat)
  }

  /**
   * The static tile `t` under `key`, which held `entries0[key]` and
   * `items0[key]`, holds what the first `|loads|` elements wrote to it: their
   * string and custom properties on top, and their objects after its own.
   */
  ghost predicate StaticLoaded(t: Tile, entries0: map<int, map<string, PropertyValue>>, items0: map<int, seq<MapObject>>,
                               firstgid: Int32, elements: seq<TileElement>, loads: seq<ElementLoad>, key: int,
                               parseFloat: FloatParser)
    requires |loads| <= |elements|
    reads t.props, t.objects
  {
    && key in entries0 && key in items0
    && t.props.entries == StaticEntries(entries0[key], elements, |loads|, firstgid, key, parseFloat)
    && t.objects.items == items0[key] + StaticAdded(loads, elements, firstgid, key)
  }

  /**
   * One more element keeps a static tile loaded: the tile gains the
   * element's properties and objects when the element writes to it, and is
   * left alone otherwise.
   */
  lemma StaticStep(entries0: map<int, map<string, PropertyValue>>, items0: map<int, seq<MapObject>>, firstgid: Int32,
                   elements: seq<TileElement>, loads: seq<ElementLoad>, load: ElementLoad, key: int, parseFloat: FloatParser,
                   entries: map<string, PropertyValue>, items: seq<MapObject>,
                   entries': map<string, PropertyValue>, items': seq<MapObject>)
    requires |loads| < |elements| && key in entries0 && key in items0
    requires entries == StaticEntries(entries0[key], elements, |loads|, firstgid, key, parseFloat)
    requires items == items0[key] + StaticAdded(loads, elements, firstgid, key)
    requires var e := elements[|loads|];
      if OnStatic(firstgid, e, key) then
        && load.Wrote?
        && entries' == ApplyPuts(TileHeader(entries, e), Effects(e.properties, parseFloat).0)
        && |items| <= |items'| && items'[..|items|] == items && load.added == items'[|items|..]
      else entries' == entries && items' == items
    ensures entries' == StaticEntries(entries0[key], elements, |loads| + 1, firstgid, key, parseFloat)
    ensures items' == items0[key] + StaticAdded(loads + [load], elements, firstgid, key)
  {
    AddedSnoc(elements, loads, load, firstgid, key);
    if OnStatic(firstgid, elements[|loads|], key) {
      assert items' == items + items'[|items|..];
      AppendAssociative(items0[key], StaticAdded(loads, elements, firstgid, key), load.added);
    }
  }

  /**
   * What element `e`, which did what `load` records, left in the static
   * tile `t` under `key`, which held `entries` and `items`: its properties
   * on top and its objects after the others when it writes there, and
   * nothing otherwise.
   */
  ghost predicate StaticMoved(t: Tile, entries: map<string, PropertyValue>, items: seq<MapObject>, e: TileElement,
                              load: ElementLoad, firstgid: Int32, key: int, parseFloat: FloatParser)
    reads t.props, t.objects
  {
    if OnStatic(firstgid, e, key) then
      && load.Wrote?
      && t.props.entries == ApplyPuts(TileHeader(entries, e), Effects(e.properties, parseFloat).0)
      && |items| <= |t.objects.items| && t.objects.items[..|items|] == items
      && load.added == t.objects.items[|items|..]
    else t.props.entries == entries && t.objects.items == items
  }

  /**
   * One more element keeps the set loaded: it did what its load records,
   * the index and the queue gained its objects and references, and every
   * static tile, which held what the elements before wrote to it, took
   * what this one wrote there.
   */
  lemma TilesStep(ctx: DecodeContext, tiles: map<int, Tile>, entries0: map<int, map<string, PropertyValue>>,
                  items0: map<int, seq<MapObject>>, index0: map<int, MapObject>, pending0: seq<PendingRef>,
                  firstgid: Int32, elements: seq<TileElement>, loads: seq<ElementLoad>, load: ElementLoad,
                  mapTiles: map<int, Tile>, entries: map<int, map<string, PropertyValue>>, items: map<int, seq<MapObject>>,
                  key: int)
    requires ctx.ScalesDefined() && |loads| < |elements| && key == Key(firstgid, elements[|loads|])
    requires LoadsFit(ctx, tiles, firstgid, elements, loads, mapTiles)
    requires LoadFits(ctx, tiles, firstgid, elements[|loads|], load, mapTiles)
    requires ctx.idToObject == ElementIndex(LoadsIndex(index0, loads, elements), load, elements[|loads|])
    requires ctx.pending == pending0 + LoadsQueued(loads, elements, ctx.parseFloat) + ElementQueued(load, elements[|loads|], ctx.parseFloat)
    requires tiles.Keys <= entries0.Keys && tiles.Keys <= items0.Keys && entries.Keys == items.Keys == tiles.Keys
    requires forall k :: k in tiles ==>
      && entries[k] == StaticEntries(entries0[k], elements, |loads|, firstgid, k, ctx.parseFloat)
      && items[k] == items0[k] + StaticAdded(loads, elements, firstgid, k)
    requires forall k :: k in tiles && k != key ==> tiles[k].props.entries == entries[k] && tiles[k].objects.items == items[k]
    requires key in tiles ==> StaticMoved(tiles[key], entries[key], items[key], elements[|loads|], load, firstgid, key, ctx.parseFloat)
    ensures TilesLoaded(ctx, tiles, entries0, items0, index0, pending0, firstgid, elements, loads + [load], mapTiles)
  {
    var pf := ctx.parseFloat;
    LoadsFitSnoc(ctx, tiles, firstgid, elements, loads, load, mapTiles);
    QueuedSnoc(elements, loads, load, pf);
    IndexSnoc(elements, loads, load, index0);
    AppendAssociative(pending0, LoadsQueued(loads, elements, pf), ElementQueued(load, elements[|loads|], pf));
    forall k | k in tiles
      ensures StaticLoaded(tiles[k], entries0, items0, firstgid, elements, loads + [load], k, pf)
    {
      if k != key {
        assert !OnStatic(firstgid, elements[|loads|], k);
      }
      assert StaticMoved(tiles[k], entries[k], items[k], elements[|loads|], load, firstgid, k, pf);
      StaticStep(entries0, items0, firstgid, elements, loads, load, k, pf, entries[k], items[k],
                 tiles[k].props.entries, tiles[k].objects.items);
    }
  }

  /** What a loaded set's tiles hold, read off as maps from tile id. */
  lemma LoadedSnapshot(ctx: DecodeContext, tiles: map<int, Tile>, entries0: map<int, map<string, PropertyValue>>,
                       items0: map<int, seq<MapObject>>, index0: map<int, MapObject>, pending0: seq<PendingRef>,
                       firstgid: Int32, elements: seq<TileElement>, loads: seq<ElementLoad>, mapTiles: map<int, Tile>)
    requires ctx.ScalesDefined() && |loads| <= |elements|
    requires TilesLoaded(ctx, tiles, entries0, items0, index0, pending0, firstgid, elements, loads, mapTiles)
    ensures tiles.Keys <= entries0.Keys && tiles.Keys <= items0.Keys
    ensures EntriesOf(tiles).Keys == ItemsOf(tiles).Keys == tiles.Keys
    ensures forall k :: k in tiles ==>
      && EntriesOf(tiles)[k] == StaticEntries(entries0[k], elements, |loads|, firstgid, k, ctx.parseFloat)
      && ItemsOf(tiles)[k] == items0[k] + StaticAdded(loads, elements, firstgid, k)
  {
    forall k | k in tiles
      ensures k in entries0 && k in items0
      ensures EntriesOf(tiles)[k] == StaticEntries(entries0[k], elements, |loads|, firstgid, k, ctx.parseFloat)
      ensures ItemsOf(tiles)[k] == items0[k] + StaticAdded(loads, elements, firstgid, k)
    {
      assert StaticLoaded(tiles[k], entries0, items0, firstgid, elements, loads, k, ctx.parseFloat);
    }
    assert forall k :: k in tiles.Keys ==> k in entries0.Keys && k in items0.Keys;
  }

  /** One more element that did what its load records keeps the loads fitting. */
  lemma LoadsFitSnoc(ctx: DecodeContext, tiles: map<int, Tile>, firstgid: Int32, elements: seq<TileElement>,
                     loads: seq<ElementLoad>, load: ElementLoad, mapTiles: map<int, Tile>)
    requires ctx.ScalesDefined() && |loads| < |elements|
    requires LoadsFit(ctx, tiles, firstgid, elements, loads, mapTiles)
    requires LoadFits(ctx, tiles, firstgid, elements[|loads|], load, mapTiles)
    ensures LoadsFit(ctx, tiles, firstgid, elements, loads + [load], mapTiles)
  {
    var loads' := loads + [load];
    forall i | 0 <= i < |loads'|
      ensures LoadFits(ctx, tiles, firstgid, elements[i], loads'[i], mapTiles)
    {
      if i < |loads| {
        assert loads'[i] == loads[i];
      }
    }
  }

  /**
   * The loop over a tileset's `tiles` and the replacement of static tiles by
   * animated ones. It fails with the first failing element's error, before
   * any replacement. Otherwise, with `loads` recording what each element
   * did: the index and the queue hold the elements' objects and references
   * in order, and every tile of the set is as `LoadedTile` says: the
   * animated tile of the last element animating it, or the static tile
   * holding what the elements naming it wrote. The set keeps its ids and
   * each tile stays under its own id.
   */
  method LoadTiles(ctx: DecodeContext, tileSet: TileSet, firstgid: Int32, elements: seq<TileElement>, mapTiles: map<int, Tile>,
                   ghost parts: set<object>)
    returns (r: Outcome, ghost loads: seq<ElementLoad>)
    requires ctx.ScalesDefined() && tileSet.Valid() && OwnParts(tileSet.tiles) && parts == Parts(tileSet.tiles)
    modifies ctx, tileSet, parts
    ensures var error := FirstError(ElementErrors(ctx, old(tileSet.tiles), firstgid, elements, mapTiles));
      r == if error == None then Pass else Fail(error.value)
    ensures tileSet.Valid()
    ensures r.Fail? ==> tileSet.tiles == old(tileSet.tiles)
    ensures r.Pass? ==>
      SetLoaded(ctx, old(tileSet.tiles), tileSet.tiles, old(EntriesOf(tileSet.tiles)), old(ItemsOf(tileSet.tiles)),
                old(ctx.idToObject), old(ctx.pending), firstgid, elements, loads, mapTiles)
  {
    ghost var tiles, entries0, items0 := tileSet.tiles, EntriesOf(tileSet.tiles), ItemsOf(tileSet.tiles);
    ghost var index0, pending0 := ctx.idToObject, ctx.pending;
    var animated;
    r, animated, loads := LoadTileElements(ctx, tileSet, firstgid, elements, mapTiles, parts);
    if r.Fail? {
      return;
    }
    assert tileSet !in parts;
    tileSet.tiles := tileSet.tiles + Overrides(animated);
    TilesReplaced(ctx, tiles, entries0, items0, index0, pending0, firstgid, elements, animated, loads, mapTiles);
  }

  /** What the tiles `tiles` reach: their bags, their object lists and their objects' bags. */
  ghost function TilesFootprint(tiles: map<int, Tile>): set<object>
    reads Parts(tiles)
  {
    Parts(tiles) + (set k, o | k in tiles && o in ObjectBags(tiles[k].objects.items) :: o)
  }

  /**
   * The set `tiles`, which was `tiles0` with the entries `entries0` and the
   * objects `items0`, after every element was read into an index that was
   * `index0` and onto a queue that was `pending0`, and the animated tiles
   * put in: each element did what its load records, the index and the
   * queue gained the elements' objects and references in order, the set
   * keeps its ids, and each tile is as `LoadedTile` says.
   */
  ghost predicate SetLoaded(ctx: DecodeContext, tiles0: map<int, Tile>, tiles: map<int, Tile>,
                            entries0: map<int, map<string, PropertyValue>>, items0: map<int, seq<MapObject>>,
                            index0: map<int, MapObject>, pending0: seq<PendingRef>, firstgid: Int32,
                            elements: seq<TileElement>, loads: seq<ElementLoad>, mapTiles: map<int, Tile>)
    requires ctx.ScalesDefined()
    reads ctx, LoadsParts(elements, loads), TilesFootprint(tiles)
  {
    && |loads| == |elements|
    && LoadsFit(ctx, tiles0, firstgid, elements, loads, mapTiles)
    && ctx.idToObject == LoadsIndex(index0, loads, elements)
    && ctx.pending == pending0 + LoadsQueued(loads, elements, ctx.parseFloat)
    && tiles.Keys == tiles0.Keys
    && forall k {:trigger LoadedTile(ctx, tiles0, tiles, entries0, items0, firstgid, elements, loads, mapTiles, k)} ::
         k in tiles ==> LoadedTile(ctx, tiles0, tiles, entries0, items0, firstgid, elements, loads, mapTiles, k)
  }

  /**
   * The tile under `key` in the set `tiles`, which was `tiles0` with the
   * entries `entries0` and the objects `items0` before the loop, after the
   * elements did what `loads` records: the animated tile of the last element
   * animating it, overridden by that element alone (its frames read from
   * `tiles0`), or else the static tile, holding the string and custom
   * properties and the objects of the elements that name it, in order.
   */
  ghost predicate LoadedTile(ctx: DecodeContext, tiles0: map<int, Tile>, tiles: map<int, Tile>,
                             entries0: map<int, map<string, PropertyValue>>, items0: map<int, seq<MapObject>>, firstgid: Int32,
                             elements: seq<TileElement>, loads: seq<ElementLoad>, mapTiles: map<int, Tile>, key: int)
    requires ctx.ScalesDefined() && |loads| <= |elements|
    reads if key in tiles then {tiles[key].props, tiles[key].objects} + ObjectBags(tiles[key].objects.items) else {}
  {
    && key in tiles
    && match LastAnimating(elements, |loads|, firstgid, key)
       case None =>
         && key in tiles0 && tiles[key] == tiles0[key]
         && StaticLoaded(tiles[key], entries0, items0, firstgid, elements, loads, key, ctx.parseFloat)
       case Some(i) =>
         && loads[i].Wrote? && tiles[key] == loads[i].target
         && AnimatedAs(tiles0, key, tiles[key], elements[i].animation.value, firstgid)
         && Overridden(ctx, tiles[key], map[], [], elements[i], mapTiles)
  }

  /** Once every element is read, each tile of the set after the replacements is loaded as `LoadedTile` says. */
  lemma TilesReplaced(ctx: DecodeContext, tiles: map<int, Tile>, entries0: map<int, map<string, PropertyValue>>,
                      items0: map<int, seq<MapObject>>, index0: map<int, MapObject>, pending0: seq<PendingRef>,
                      firstgid: Int32, elements: seq<TileElement>, animated: seq<Tile>, loads: seq<ElementLoad>,
                      mapTiles: map<int, Tile>)
    requires |loads| == |elements| && forall k :: k in tiles ==> tiles[k].id == k
    requires Loading(ctx, tiles, entries0, items0, index0, pending0, firstgid, elements, animated, loads, mapTiles)
    ensures forall k :: k in tiles + Overrides(animated) ==> (tiles + Overrides(animated))[k].id == k
    ensures SetLoaded(ctx, tiles, tiles + Overrides(animated), entries0, items0, index0, pending0, firstgid, elements, loads, mapTiles)
  {
    var overrides := Overrides(animated);
    ReplacedTiles(tiles, overrides, elements, loads, firstgid);
    forall k | k in tiles
      ensures LoadedTile(ctx, tiles, tiles + overrides, entries0, items0, firstgid, elements, loads, mapTiles, k)
    {
      assert OverridesMatchAt(overrides, tiles, elements, loads, firstgid, k);
      match LastAnimating(elements, |loads|, firstgid, k)
      case None =>
        assert StaticLoaded(tiles[k], entries0, items0, firstgid, elements, loads, k, ctx.parseFloat);
      case Some(i) =>
        assert LoadFits(ctx, tiles, firstgid, elements[i], loads[i], mapTiles);
    }
  }

  /**
   * The loop over a tileset's `tiles`: each element in order, up to the first
   * that fails. On success the animated tiles made, in order, are returned
   * and `loads` records what each element did; the set itself is not changed.
   */
  method LoadTileElements(ctx: DecodeContext, tileSet: TileSet, firstgid: Int32, elements: seq<TileElement>,
                          mapTiles: map<int, Tile>, ghost parts: set<object>) returns (r: Outcome, animated: seq<Tile>, ghost loads: seq<ElementLoad>)
    requires ctx.ScalesDefined() && tileSet.Valid() && OwnParts(tileSet.tiles) && parts == Parts(tileSet.tiles)
    modifies ctx, parts
    ensures tileSet.tiles == old(tileSet.tiles)
    ensures var error := FirstError(ElementErrors(ctx, tileSet.tiles, firstgid, elements, mapTiles));
      r == if error == None then Pass else Fail(error.value)
    ensures r.Pass? ==>
      && |loads| == |elements| && tileSet !in LoadsParts(elements, loads)
      && Loading(ctx, tileSet.tiles, old(EntriesOf(tileSet.tiles)), old(ItemsOf(tileSet.tiles)), old(ctx.idToObject),
                 old(ctx.pending), firstgid, elements, animated, loads, mapTiles)
  {
    ghost var tiles := tileSet.tiles;
    ghost var errors := ElementErrors(ctx, tiles, firstgid, elements, mapTiles);
    ghost var entries0, items0 := EntriesOf(tiles), ItemsOf(tiles);
    ghost var index0, pending0 := ctx.idToObject, ctx.pending;
    animated, loads := [], [];
    LoadingOnEntry(ctx, tiles, firstgid, elements, mapTiles);
    for j := 0 to |elements|
      invariant |loads| == j && tileSet.tiles == tiles && tileSet !in LoadsParts(elements, loads)
      invariant FirstError(errors[..j]) == None
      invariant Loading(ctx, tiles, entries0, items0, index0, pending0, firstgid, elements, animated, loads, mapTiles)
    {
      var next;
      next, animated, loads := LoadTileNext(ctx, tileSet, firstgid, elements, mapTiles, parts, j, animated, loads,
                                            entries0, items0, index0, pending0);
      if next.Fail? {
        return next, animated, loads;
      }
    }
    assert errors[..|elements|] == errors;
    return Pass, animated, loads;
  }

  /** The elements' errors up to one more element: the first error is that element's, when the earlier ones had none. */
  lemma ElementErrorsStep(ctx: DecodeContext, tiles: map<int, Tile>, firstgid: Int32, elements: seq<TileElement>,
                          mapTiles: map<int, Tile>, j: nat, error: Option<Error>)
    requires ctx.ScalesDefined() && j < |elements|
    requires FirstError(ElementErrors(ctx, tiles, firstgid, elements, mapTiles)[..j]) == None
    requires error == ElementError(ctx, tiles, firstgid, elements[j], mapTiles)
    ensures error.None? ==> FirstError(ElementErrors(ctx, tiles, firstgid, elements, mapTiles)[..j + 1]) == None
    ensures error.Some? ==> FirstError(ElementErrors(ctx, tiles, firstgid, elements, mapTiles)) == error
  {
    var errors := ElementErrors(ctx, tiles, firstgid, elements, mapTiles);
    assert errors[..j + 1][..j] == errors[..j];
    if error.Some? {
      FirstErrorStops(errors, j + 1);
    }
  }

  /** Before the loop over `tiles`, no element has been read and the set is loaded as it stands. */
  lemma LoadingOnEntry(ctx: DecodeContext, tiles: map<int, Tile>, firstgid: Int32, elements: seq<TileElement>,
                       mapTiles: map<int, Tile>)
    requires ctx.ScalesDefined()
    ensures Loading(ctx, tiles, EntriesOf(tiles), ItemsOf(tiles), ctx.idToObject, ctx.pending, firstgid, elements, [], [], mapTiles)
  {
    forall k | k in tiles
      ensures StaticLoaded(tiles[k], EntriesOf(tiles), ItemsOf(tiles), firstgid, elements, [], k, ctx.parseFloat)
    {
    }
    forall k
      ensures OverridesMatchAt(map[], tiles, elements, [], firstgid, k)
    {
    }
  }

  /**
   * The loop over `tiles` has read the first `|loads|` elements, with no
   * error, from a set whose tiles held `entries0` and `items0`, into an
   * index that was `index0` and onto a queue that was `pending0`, and made
   * the animated tiles `animated`: the set is loaded that far, the animated
   * tiles match the elements that made them, and what the elements wrote
   * is none of the set's own parts.
   */
  ghost predicate Loading(ctx: DecodeContext, tiles: map<int, Tile>, entries0: map<int, map<string, PropertyValue>>,
                          items0: map<int, seq<MapObject>>, index0: map<int, MapObject>, pending0: seq<PendingRef>,
                          firstgid: Int32, elements: seq<TileElement>, animated: seq<Tile>, loads: seq<ElementLoad>,
                          mapTiles: map<int, Tile>)
    reads ctx, Parts(tiles), LoadsParts(elements, loads)
  {
    && ctx.ScalesDefined() && |loads| <= |elements|
    && OverridesMatch(Overrides(animated), tiles, elements, loads, firstgid)
    && LoadsParts(elements, loads) !! Parts(tiles)
    && TilesLoaded(ctx, tiles, entries0, items0, index0, pending0, firstgid, elements, loads, mapTiles)
  }

  /**
   * One turn of the loop over `tiles`: the element is read, and on success
   * its animated tile, if it made one, joins the others and the set is
   * loaded one element further.
   */
  method LoadTileNext(ctx: DecodeContext, tileSet: TileSet, firstgid: Int32, elements: seq<TileElement>,
                      mapTiles: map<int, Tile>, ghost parts: set<object>, j: nat, animated: seq<Tile>, ghost loads: seq<ElementLoad>,
                      ghost entries0: map<int, map<string, PropertyValue>>, ghost items0: map<int, seq<MapObject>>,
                      ghost index0: map<int, MapObject>, ghost pending0: seq<PendingRef>)
    returns (r: Outcome, animated': seq<Tile>, ghost loads': seq<ElementLoad>)
    requires tileSet.Valid() && OwnParts(tileSet.tiles) && parts == Parts(tileSet.tiles) && j == |loads| < |elements|
    requires tileSet !in LoadsParts(elements, loads)
    requires Loading(ctx, tileSet.tiles, entries0, items0, index0, pending0, firstgid, elements, animated, loads, mapTiles)
    requires FirstError(ElementErrors(ctx, tileSet.tiles, firstgid, elements, mapTiles)[..j]) == None
    modifies ctx, parts
    ensures tileSet.tiles == old(tileSet.tiles)
    ensures var errors := ElementErrors(ctx, tileSet.tiles, firstgid, elements, mapTiles);
      && (r.Pass? ==> FirstError(errors[..j + 1]) == None)
      && (r.Fail? ==> FirstError(errors) == Some(r.error))
    ensures r.Pass? ==>
      |loads'| == j + 1 && tileSet !in LoadsParts(elements, loads') &&
      Loading(ctx, tileSet.tiles, entries0, items0, index0, pending0, firstgid, elements, animated', loads', mapTiles)
  {
    var loaded;
    ghost var load;
    loaded, load := LoadTileOne(ctx, tileSet, firstgid, elements, mapTiles, parts, j, loads, entries0, items0, index0, pending0);
    ElementErrorsStep(ctx, tileSet.tiles, firstgid, elements, mapTiles, j,
                      if loaded.Failure? then Some(loaded.error) else None);
    if loaded.Failure? {
      return Fail(loaded.error), animated, loads;
    }
    OverridesStep(animated, tileSet.tiles, elements, loads, firstgid, load, loaded.value);
    PartsSnoc(elements, loads, load);
    animated' := if loaded.value.Some? then animated + [loaded.value.value] else animated;
    loads' := loads + [load];
    r := Pass;
  }

  /**
   * The element of one turn of the loop over `tiles`: its id is looked up
   * in the set, and when it names a tile the element is read into it. On
   * success the set is loaded one element further.
   */
  method LoadTileOne(ctx: DecodeContext, tileSet: TileSet, firstgid: Int32, elements: seq<TileElement>,
                     mapTiles: map<int, Tile>, ghost parts: set<object>, j: nat, ghost loads: seq<ElementLoad>,
                      ghost entries0: map<int, map<string, PropertyValue>>, ghost items0: map<int, seq<MapObject>>,
                      ghost index0: map<int, MapObject>, ghost pending0: seq<PendingRef>)
    returns (loaded: Result<Option<Tile>>, ghost load: ElementLoad)
    requires ctx.ScalesDefined() && tileSet.Valid() && OwnParts(tileSet.tiles) && parts == Parts(tileSet.tiles)
    requires j == |loads| < |elements| && LoadsParts(elements, loads) !! parts
    requires TilesLoaded(ctx, tileSet.tiles, entries0, items0, index0, pending0, firstgid, elements, loads, mapTiles)
    modifies ctx, parts
    ensures var error := ElementError(ctx, tileSet.tiles, firstgid, elements[j], mapTiles);
      (error.Some? <==> loaded.Failure?) && (loaded.Failure? ==> loaded.error == error.value)
    ensures loaded.Success? ==>
      var e, key := elements[j], Key(firstgid, elements[j]);
      && fresh(LoadParts(e, load))
      && (loaded.value.Some? <==> key in tileSet.tiles && e.animation.Some?)
      && (loaded.value.Some? ==>
           load.Wrote? && load.target == loaded.value.value && AnimatedAs(tileSet.tiles, key, load.target, e.animation.value, firstgid))
      && TilesLoaded(ctx, tileSet.tiles, entries0, items0, index0, pending0, firstgid, elements, loads + [load], mapTiles)
  {
    ghost var tiles := tileSet.tiles;
    ghost var entries, items := EntriesOf(tiles), ItemsOf(tiles);
    LoadedSnapshot(ctx, tiles, entries0, items0, index0, pending0, firstgid, elements, loads, mapTiles);
    var key := Key(firstgid, elements[j]);
    loaded, load := Success(None), Skipped;
    if key in tileSet.tiles {
      loaded, load := LoadTileNamed(ctx, tileSet, firstgid, elements, mapTiles, j, loads, entries, items);
      if loaded.Failure? {
        return;
      }
    }
    TilesStep(ctx, tiles, entries0, items0, index0, pending0, firstgid, elements, loads, load, mapTiles, entries, items, key);
  }

  /**
   * One element of the loop whose id names a tile of the set: the element
   * is read into that tile, which alone changes, and the loads before it
   * keep fitting.
   */
  method LoadTileNamed(ctx: DecodeContext, tileSet: TileSet, firstgid: Int32, elements: seq<TileElement>,
                       mapTiles: map<int, Tile>, j: nat, ghost loads: seq<ElementLoad>,
                       ghost entries: map<int, map<string, PropertyValue>>, ghost items: map<int, seq<MapObject>>)
    returns (loaded: Result<Option<Tile>>, ghost load: ElementLoad)
    requires ctx.ScalesDefined() && tileSet.Valid() && OwnParts(tileSet.tiles) && j == |loads| < |elements|
    requires Key(firstgid, elements[j]) in tileSet.tiles
    requires var tile := tileSet.tiles[Key(firstgid, elements[j])];
      tile.props !in LoadsParts(elements, loads) && tile.objects !in LoadsParts(elements, loads)
    requires entries == EntriesOf(tileSet.tiles) && items == ItemsOf(tileSet.tiles)
    requires LoadsFit(ctx, tileSet.tiles, firstgid, elements, loads, mapTiles)
    modifies ctx, tileSet.tiles[Key(firstgid, elements[j])].props, tileSet.tiles[Key(firstgid, elements[j])].objects
    ensures tileSet.tiles == old(tileSet.tiles)
    ensures var error := ElementError(ctx, tileSet.tiles, firstgid, elements[j], mapTiles);
      (error.Some? <==> loaded.Failure?) && (loaded.Failure? ==> loaded.error == error.value)
    ensures loaded.Success? ==>
      var tiles, e, key := tileSet.tiles, elements[j], Key(firstgid, elements[j]);
      && fresh(LoadParts(e, load)) && load.Wrote? && (loaded.value.Some? <==> e.animation.Some?)
      && (loaded.value.Some? ==> load.target == loaded.value.value)
      && LoadsFit(ctx, tiles, firstgid, elements, loads, mapTiles)
      && LoadFits(ctx, tiles, firstgid, e, load, mapTiles)
      && ctx.idToObject == ElementIndex(old(ctx.idToObject), load, e)
      && ctx.pending == old(ctx.pending) + ElementQueued(load, e, ctx.parseFloat)
      && StaticMoved(tiles[key], entries[key], items[key], e, load, firstgid, key, ctx.parseFloat)
      && forall k :: k in tiles && k != key ==> tiles[k].props.entries == entries[k] && tiles[k].objects.items == items[k]
  {
    ghost var tiles := tileSet.tiles;
    var key := Key(firstgid, elements[j]);
    var tile := tileSet.tiles[key];
    label Before:
    loaded, load := LoadTileStep(ctx, tileSet, tile, firstgid, elements[j], mapTiles, entries, items);
    if loaded.Failure? {
      return;
    }
    forall i | 0 <= i < |loads|
      ensures LoadFits(ctx, tiles, firstgid, elements[i], loads[i], mapTiles)
    {
      assert old@Before(LoadFits(ctx, tiles, firstgid, elements[i], loads[i], mapTiles));
      assert LoadParts(elements[i], loads[i]) <= LoadsParts(elements, loads);
    }
  }

  /**
   * One element of the loop, as `LoadTileElement` reads it, whose id names
   * the tile `tile` of the set, and what it did: the load it records fits,
   * the index and the queue gain its objects and references, and the
   * static tile, which held `entries` and `items`, gains the element's
   * properties and objects when it writes there and is left alone
   * otherwise.
   */
  method LoadTileStep(ctx: DecodeContext, tileSet: TileSet, tile: Tile, firstgid: Int32, e: TileElement,
                      mapTiles: map<int, Tile>, ghost entries: map<int, map<string, PropertyValue>>,
                      ghost items: map<int, seq<MapObject>>)
    returns (r: Result<Option<Tile>>, ghost load: ElementLoad)
    requires ctx.ScalesDefined() && tileSet.Valid() && OwnParts(tileSet.tiles)
    requires Key(firstgid, e) in tileSet.tiles && tileSet.tiles[Key(firstgid, e)] == tile
    requires entries == EntriesOf(tileSet.tiles) && items == ItemsOf(tileSet.tiles)
    modifies ctx, tile.props, tile.objects
    ensures var error := ElementError(ctx, tileSet.tiles, firstgid, e, mapTiles);
      (error.Some? <==> r.Failure?) && (r.Failure? ==> r.error == error.value)
    ensures r.Success? ==>
      && LoadFits(ctx, tileSet.tiles, firstgid, e, load, mapTiles) && fresh(LoadParts(e, load))
      && load.Wrote? && (r.value.Some? <==> e.animation.Some?)
      && (r.value.Some? ==> load.target == r.value.value)
      && ctx.idToObject == ElementIndex(old(ctx.idToObject), load, e)
      && ctx.pending == old(ctx.pending) + ElementQueued(load, e, ctx.parseFloat)
    ensures r.Success? ==>
      StaticMoved(tile, entries[Key(firstgid, e)], items[Key(firstgid, e)], e, load, firstgid, Key(firstgid, e), ctx.parseFloat)
    ensures forall k :: k in tileSet.tiles && k != Key(firstgid, e) ==>
      tileSet.tiles[k].props.entries == entries[k] && tileSet.tiles[k].objects.items == items[k]
  {
    r := LoadTileElement(ctx, tileSet, tile, firstgid, e, mapTiles);
    forall k | k in tileSet.tiles && k != Key(firstgid, e)
      ensures tileSet.tiles[k].props.entries == entries[k] && tileSet.tiles[k].objects.items == items[k]
    {
      assert ApartTiles(tileSet.tiles, k, Key(firstgid, e));
    }
    if r.Failure? {
      return r, Skipped;
    }
    var t := if r.value.Some? then r.value.value else tile;
    var n := if r.value.Some? then 0 else |items[Key(firstgid, e)]|;
    load := Wrote(t, t.objects.items[n..]);
    if r.value.Some? {
      assert t.objects.items[n..] == t.objects.items;
    }
  }

  /** The replacement loop: each animated tile, in order, put under its id. */
  method ReplaceTiles(tiles: map<int, Tile>, animated: seq<Tile>) returns (replaced: map<int, Tile>)
    ensures replaced == tiles + Overrides(animated)
  {
    replaced := tiles;
    for i := 0 to |animated|
      invariant replaced == tiles + Overrides(animated[..i])
    {
      replaced := replaced[animated[i].id := animated[i]];
      OverridesSnoc(tiles, animated, i);
    }
    assert animated[..|animated|] == animated;
  }
}
