/**
 * Whole-load behaviour of the decoder state on small documents: an object
 * property that names an object read later in the document, and an ordinary
 * object record under the `type` guard of the JSON loader.
 */
module Scenarios {
  import opened Common
  import opened MapModel
  import opened Properties
  import opened ObjectGeometry
  import opened Decoding
  import MapSize

  /** A plain rectangle record with id `id`, no `type` and no custom properties. */
  function PlainObject(id: Int32): ObjectRecord {
    ObjectRecord(None, None, id, 0.0, 0.0, None, None, None, None, false, None, None, true, [])
  }

  /** The settings of a 10 by 10 orthogonal map of 16-pixel tiles, with the default parameters. */
  function SmallMap(): MapSize.Settings {
    MapSize.Settings(false, true, 16, 16, 160, 160)
  }

  /** One property `link` of type `object` whose value is the id 7. */
  function LinkRecords(): seq<PropertyRecord> {
    [PropertyRecord("link", "7", Some("object"))]
  }

  /** Reading `LinkRecords()` succeeds, stores nothing and defers one reference to id 7. */
  lemma LinkRecordsDefer(parseFloat: FloatParser)
    ensures Effects(LinkRecords(), parseFloat) == ([Defer("link", 7)], None)
    ensures ApplyPuts(map[], [Defer("link", 7)]) == map[]
    ensures Deferred([Defer("link", 7)]) == [("link", 7)]
  {
    var records := LinkRecords();
    ghost var effects := [Defer("link", 7)];
    ParseIntOfDecimal(7);
    assert Decimal(7) == "7";
    assert ParseInt("7") == Some(7);
    assert effects[..0] == [];
    assert |records| == 1 && records[..|records| - 1] == [];
    assert Effects(records[..|records| - 1], parseFloat) == ([], None);
    assert PropertyEffect(records[|records| - 1], parseFloat) == Success(Defer("link", 7));
    assert [] + [Defer("link", 7)] == effects;
  }

  /**
   * A property `link` of type `object` with value `7`, read before the object
   * with id 7: the bag has no `link` until the end of the load, and then
   * holds that object.
   */
  method ForwardReference(parseFloat: FloatParser) returns (target: MapObject, beforeFlush: bool, link: PropertyValue)
    ensures !beforeFlush
    ensures link == ObjectValue(Some(target))
  {
    var ctx := new DecodeContext(SmallMap(), parseFloat);
    var holder := new PropertyBag();
    var records := LinkRecords();
    LinkRecordsDefer(parseFloat);
    var loaded := ctx.LoadProperties(holder, records);
    assert ctx.pending == [PendingRef(holder, "link", 7)];
    beforeFlush := "link" in holder.entries;
    var objects := new ObjectList();
    var made := ctx.LoadObject(objects, PlainObject(7), 160.0, map[]);
    assert Effects([], parseFloat) == ([], None);
    target := made.value;
    ghost var queued := ctx.pending;
    assert queued == [PendingRef(holder, "link", 7)] + Refs(target.props, Deferred([]));
    assert queued[0] in queued;
    ctx.Flush();
    assert holder.entries == Resolved(map[], holder, queued, ctx.idToObject);
    link := holder.entries["link"];
  }

  /**
   * An ordinary object record (no `type`): the loader as written leaves the
   * layer empty, while loading it without the guard adds the object.
   */
  method SkippedObject(parseFloat: FloatParser) returns (asWritten: nat, corrected: nat)
    ensures asWritten == 0 && corrected == 1
  {
    var ctx := new DecodeContext(SmallMap(), parseFloat);
    var layer := new ObjectList();
    var skipped := ctx.LoadObjectAsWritten(layer, PlainObject(1), 160.0, map[]);
    asWritten := |layer.items|;
    var fixed := new ObjectList();
    assert Effects([], parseFloat) == ([], None);
    var loaded := ctx.LoadObject(fixed, PlainObject(1), 160.0, map[]);
    corrected := |fixed.items|;
  }
}
