/**
 * The state one `loadTiledMap` call carries between its steps: the settings
 * fixed at the start, the index of objects by id (`idToObject`) and the
 * queue of object references that wait for the end of the load
 * (`runOnEndOfLoadTiled`). Property loading, object loading, the final flush
 * of the queue and the tile overrides of a tileset work on this state.
 */
module Decoding {
  import opened Common
  import opened TileFlags
  import opened MapModel
  import opened Properties
  import opened ObjectGeometry
  import MapSize

  /** A queued reference: when the load ends, `bag[name]` is set to the object with id `id`, or `null`. */
  datatype PendingRef = PendingRef(bag: PropertyBag, name: string, id: Int32)

  /** The bags the queue will write to. */
  function Bags(refs: seq<PendingRef>): set<PropertyBag> {
    set p | p in refs :: p.bag
  }

  /** The queue entries for `bag` that the deferred `(name, id)` pairs make. */
  function Refs(bag: PropertyBag, deferred: seq<(string, Int32)>): (refs: seq<PendingRef>)
    ensures |refs| == |deferred|
    ensures forall i :: 0 <= i < |refs| ==> refs[i] == PendingRef(bag, deferred[i].0, deferred[i].1)
  {
    seq(|deferred|, i requires 0 <= i < |deferred| => PendingRef(bag, deferred[i].0, deferred[i].1))
  }

  /** Queueing two runs of deferred pairs for a bag queues the first run, then the second. */
  lemma RefsAppend(bag: PropertyBag, x: seq<(string, Int32)>, y: seq<(string, Int32)>)
    ensures Refs(bag, x + y) == Refs(bag, x) + Refs(bag, y)
  {
  }

  /** `idToObject.get(id)`: the object, or `null`. */
  function Lookup(index: map<int, MapObject>, id: int): (o: Option<MapObject>)
    ensures o.Some? <==> id in index
    ensures o.Some? ==> o.value == index[id]
  {
    if id in index then Some(index[id]) else None
  }

  /** The entries of `bag` once the queued references `refs` have run, in order, against `index`. */
  function Resolved(entries: map<string, PropertyValue>, bag: PropertyBag, refs: seq<PendingRef>,
                    index: map<int, MapObject>): map<string, PropertyValue>
    decreases |refs|
  {
    if refs == [] then entries
    else
      var before := Resolved(entries, bag, refs[..|refs| - 1], index);
      var p := refs[|refs| - 1];
      if p.bag == bag then before[p.name := ObjectValue(Lookup(index, p.id))] else before
  }

  /** The last queued reference for a bag and name decides its value: the object with that id, or `null` when no object has it. */
  lemma {:induction false} LastReferenceWins(entries: map<string, PropertyValue>, bag: PropertyBag, refs: seq<PendingRef>,
                                           index: map<int, MapObject>, k: nat)
    requires k < |refs| && refs[k].bag == bag
    requires forall j :: k < j < |refs| ==> !(refs[j].bag == bag && refs[j].name == refs[k].name)
    ensures refs[k].name in Resolved(entries, bag, refs, index)
    ensures Resolved(entries, bag, refs, index)[refs[k].name] == ObjectValue(Lookup(index, refs[k].id))
    decreases |refs|
  {
    if k < |refs| - 1 {
      var prefix := refs[..|refs| - 1];
      assert prefix[k] == refs[k];
      forall j | k < j < |prefix|
        ensures !(prefix[j].bag == bag && prefix[j].name == prefix[k].name)
      {
        assert prefix[j] == refs[j];
      }
      LastReferenceWins(entries, bag, prefix, index, k);
    }
  }

  /** A name no queued reference of the bag mentions keeps its value. */
  lemma {:induction false} UnreferencedNameUnchanged(entries: map<string, PropertyValue>, bag: PropertyBag, refs: seq<PendingRef>,
                                                   index: map<int, MapObject>, name: string)
    requires forall j :: 0 <= j < |refs| ==> !(refs[j].bag == bag && refs[j].name == name)
    ensures name in Resolved(entries, bag, refs, index) <==> name in entries
    ensures name in entries ==> Resolved(entries, bag, refs, index)[name] == entries[name]
    decreases |refs|
  {
    if refs != [] {
      var prefix := refs[..|refs| - 1];
      forall j | 0 <= j < |prefix|
        ensures !(prefix[j].bag == bag && prefix[j].name == name)
      {
        assert prefix[j] == refs[j];
      }
      UnreferencedNameUnchanged(entries, bag, prefix, index, name);
    }
  }

  /** A bag no queued reference names is left as it is. */
  lemma {:induction false} OtherBagsUnchanged(entries: map<string, PropertyValue>, bag: PropertyBag, refs: seq<PendingRef>,
                                            index: map<int, MapObject>)
    requires bag !in Bags(refs)
    ensures Resolved(entries, bag, refs, index) == entries
    decreases |refs|
  {
    if refs != [] {
      assert refs[|refs| - 1] in refs;
      var prefix := refs[..|refs| - 1];
      assert Bags(prefix) <= Bags(refs) by {
        forall p | p in prefix ensures p in refs {
        }
      }
      OtherBagsUnchanged(entries, bag, prefix, index);
    }
  }

  /**
   * Resolution reads the index as it is when the load ends, not as it was
   * when the reference was queued: an object indexed after its reference was
   * read is found, and growing the index only turns `null` into objects.
   */
  lemma {:induction false} LaterObjectsResolve(entries: map<string, PropertyValue>, bag: PropertyBag, refs: seq<PendingRef>,
                                             index: map<int, MapObject>, later: map<int, MapObject>, name: string, k: nat)
    requires k < |refs| && refs[k].bag == bag && refs[k].name == name
    requires forall j :: k < j < |refs| ==> !(refs[j].bag == bag && refs[j].name == name)
    requires refs[k].id !in index && refs[k].id in later
    ensures name in Resolved(entries, bag, refs, index) && name in Resolved(entries, bag, refs, later)
    ensures Resolved(entries, bag, refs, index)[name] == ObjectValue(None)
    ensures Resolved(entries, bag, refs, later)[name] == ObjectValue(Some(later[refs[k].id]))
  {
    LastReferenceWins(entries, bag, refs, index, k);
    LastReferenceWins(entries, bag, refs, later, k);
  }

  /** One more record: its effect is appended, or its error ends the list. */
  lemma EffectStep(records: seq<PropertyRecord>, k: nat, parseFloat: FloatParser)
    requires k < |records| && Effects(records[..k], parseFloat).1 == None
    ensures Effects(records[..k + 1], parseFloat) ==
      match PropertyEffect(records[k], parseFloat)
      case Failure(e) => (Effects(records[..k], parseFloat).0, Some(e))
      case Success(x) => (Effects(records[..k], parseFloat).0 + [x], None)
  {
    assert records[..k + 1][..k] == records[..k];
  }

  lemma SnocDefer(entries: map<string, PropertyValue>, bag: PropertyBag, effects: seq<Effect>, name: string, id: Int32)
    ensures ApplyPuts(entries, effects + [Defer(name, id)]) == ApplyPuts(entries, effects)
    ensures Refs(bag, Deferred(effects + [Defer(name, id)])) == Refs(bag, Deferred(effects)) + [PendingRef(bag, name, id)]
  {
    assert (effects + [Defer(name, id)])[..|effects|] == effects;
  }

  lemma SnocPut(entries: map<string, PropertyValue>, bag: PropertyBag, effects: seq<Effect>, name: string, v: PropertyValue)
    ensures ApplyPuts(entries, effects + [Put(name, v)]) == ApplyPuts(entries, effects)[name := v]
    ensures Deferred(effects + [Put(name, v)]) == Deferred(effects)
  {
    assert (effects + [Put(name, v)])[..|effects|] == effects;
  }

  /** The first `k` records have been loaded into `bag`, whose entries were `entries0`, with the queue `pending0` before them. */
  ghost predicate LoadedUpTo(entries: map<string, PropertyValue>, pending: seq<PendingRef>, entries0: map<string, PropertyValue>,
                             pending0: seq<PendingRef>, bag: PropertyBag, records: seq<PropertyRecord>, k: nat, parseFloat: FloatParser)
    requires k <= |records|
  {
    var effects := Effects(records[..k], parseFloat);
    && effects.1 == None
    && entries == ApplyPuts(entries0, effects.0)
    && pending == pending0 + Refs(bag, Deferred(effects.0))
  }

  /** What stops `loadObject` on a record: its shape (a bad or dangling `gid`) or one of its custom properties. */
  function ObjectError(r: ObjectRecord, p: Placement, tiles: map<int, Tile>, parseFloat: FloatParser): Option<Error> {
    match ObjectShape(r, p, tiles)
    case Failure(e) => Some(e)
    case Success(_) => Effects(r.properties, parseFloat).1
  }

  /** Each record's error (or `None`), in record order. */
  function Errors(records: seq<ObjectRecord>, p: Placement, tiles: map<int, Tile>, parseFloat: FloatParser): (errors: seq<Option<Error>>)
    ensures |errors| == |records|
  {
    seq(|records|, i requires 0 <= i < |records| => ObjectError(records[i], p, tiles, parseFloat))
  }

  /** The first error of a list of steps, the steps after it not being taken. */
  function FirstError(errors: seq<Option<Error>>): Option<Error>
    decreases |errors|
  {
    if errors == [] then None
    else
      var before := FirstError(errors[..|errors| - 1]);
      if before.Some? then before else errors[|errors| - 1]
  }

  /** Once a step has failed, the steps after it change nothing. */
  lemma {:induction false} FirstErrorStops(errors: seq<Option<Error>>, j: nat)
    requires j <= |errors| && FirstError(errors[..j]).Some?
    ensures FirstError(errors) == FirstError(errors[..j])
    decreases |errors|
  {
    if j < |errors| {
      var prefix := errors[..|errors| - 1];
      assert prefix[..j] == errors[..j];
      FirstErrorStops(prefix, j);
    } else {
      assert errors[..j] == errors;
    }
  }

  /** The steps succeed exactly when each of them does. */
  lemma {:induction false} FirstErrorNone(errors: seq<Option<Error>>)
    ensures FirstError(errors) == None <==> forall i :: 0 <= i < |errors| ==> errors[i] == None
    decreases |errors|
  {
    if errors != [] {
      var prefix := errors[..|errors| - 1];
      FirstErrorNone(prefix);
      assert forall i :: 0 <= i < |prefix| ==> prefix[i] == errors[i];
    }
  }

  /** The steps fail with the error of the first failing one. */
  lemma FirstErrorAt(errors: seq<Option<Error>>, k: nat)
    requires k < |errors| && errors[k].Some?
    requires forall i :: 0 <= i < k ==> errors[i] == None
    ensures FirstError(errors) == errors[k]
  {
    assert errors[..k + 1][..k] == errors[..k];
    FirstErrorNone(errors[..k]);
    FirstErrorStops(errors, k + 1);
  }

  /** An object group fails exactly when one of its records does, and then with the first failing record's error. */
  lemma GroupErrorIsFirst(records: seq<ObjectRecord>, p: Placement, tiles: map<int, Tile>, parseFloat: FloatParser, k: nat)
    requires k <= |records|
    requires forall i :: 0 <= i < k ==> ObjectError(records[i], p, tiles, parseFloat) == None
    requires k < |records| ==> ObjectError(records[k], p, tiles, parseFloat).Some?
    ensures FirstError(Errors(records, p, tiles, parseFloat)) ==
      if k == |records| then None else ObjectError(records[k], p, tiles, parseFloat)
  {
    var errors := Errors(records, p, tiles, parseFloat);
    if k == |records| {
      FirstErrorNone(errors);
    } else {
      FirstErrorAt(errors, k);
    }
  }

  /**
   * The properties `loadObject` writes into a new object's empty bag before
   * its custom ones, in the order it writes them.
   */
  method PutSynthesized(bag: PropertyBag, rec: ObjectRecord, p: Placement, shape: Shape)
    requires bag.entries == map[]
    modifies bag
    ensures bag.entries == SynthesizedProperties(rec, p, shape)
  {
    var y, h := AnchorY(rec, p), ScaledHeight(rec, p);
    if shape.TileStampShape? && rec.gid.Some? && StampId(rec.gid.value).Success? {
      bag.Put("gid", IntValue(ToSigned32(StampId(rec.gid.value).value)));
    }
    if rec.rotation.Some? {
      bag.Put("rotation", FloatValue(rec.rotation.value));
    }
    if rec.typ.Some? {
      bag.Put("type", StringValue(rec.typ.value));
    }
    if rec.id != 0 {
      bag.Put("id", IntValue(rec.id));
    }
    bag.Put("x", FloatValue(AnchorX(rec, p)));
    if shape.TileStampShape? {
      bag.Put("y", FloatValue(y));
    } else {
      bag.Put("y", FloatValue(BoxY(p.flipY, y, h)));
    }
    bag.Put("width", FloatValue(ScaledWidth(rec, p)));
    bag.Put("height", FloatValue(h));
  }

  /**
   * What `loadObject` leaves in each object of a group: the shape, name and
   * visibility its record gives, and a bag holding the synthesized
   * properties and then the custom ones.
   */
  ghost predicate ObjectsMatch(objects: seq<MapObject>, records: seq<ObjectRecord>, p: Placement, tiles: map<int, Tile>,
                               parseFloat: FloatParser)
    reads ObjectBags(objects)
  {
    && |objects| == |records|
    && forall i {:trigger ObjectMatches(objects[i], records[i], p, tiles, parseFloat)} :: 0 <= i < |records| ==>
         ObjectMatches(objects[i], records[i], p, tiles, parseFloat)
  }

  /** What `loadObject` leaves in one object: the shape, name and visibility of its record, and its bag. */
  ghost predicate ObjectMatches(o: MapObject, rec: ObjectRecord, p: Placement, tiles: map<int, Tile>, parseFloat: FloatParser)
    reads o.props
  {
    && ObjectShape(rec, p, tiles).Success?
    && o.shape == ObjectShape(rec, p, tiles).value
    && o.name == rec.name && o.visible == rec.visible
    && o.props.entries == ApplyPuts(SynthesizedProperties(rec, p, o.shape), Effects(rec.properties, parseFloat).0)
  }

  /** The ids the records carry. */
  function Ids(records: seq<ObjectRecord>): set<int> {
    set i | 0 <= i < |records| :: records[i].id
  }

  /** The index once each object has been put under its record's id, in order. */
  function IndexAfter(index: map<int, MapObject>, objects: seq<MapObject>, records: seq<ObjectRecord>): map<int, MapObject>
    requires |objects| == |records|
    decreases |records|
  {
    if records == [] then index
    else IndexAfter(index, objects[..|objects| - 1], records[..|records| - 1])[records[|records| - 1].id := objects[|objects| - 1]]
  }

  /** The queue entries the objects of a group add: each object's deferred references, in record order. */
  function QueuedBy(objects: seq<MapObject>, records: seq<ObjectRecord>, parseFloat: FloatParser): seq<PendingRef>
    requires |objects| == |records|
    decreases |records|
  {
    if records == [] then []
    else
      QueuedBy(objects[..|objects| - 1], records[..|records| - 1], parseFloat) +
      Refs(objects[|objects| - 1].props, Deferred(Effects(records[|records| - 1].properties, parseFloat).0))
  }

  /** Each object whose id no later record reuses is the one found under that id. */
  ghost predicate IndexedLast(index: map<int, MapObject>, objects: seq<MapObject>, records: seq<ObjectRecord>)
    requires |objects| == |records|
  {
    forall i :: 0 <= i < |records| && (forall j :: i < j < |records| ==> records[j].id != records[i].id) ==>
      records[i].id in index && index[records[i].id] == objects[i]
  }

  /** The index gains exactly the records' ids, and every other id keeps its entry. */
  lemma {:induction false} IndexAfterFrame(index: map<int, MapObject>, objects: seq<MapObject>, records: seq<ObjectRecord>)
    requires |objects| == |records|
    ensures IndexAfter(index, objects, records).Keys == index.Keys + Ids(records)
    ensures forall id :: id in index && id !in Ids(records) ==> IndexAfter(index, objects, records)[id] == index[id]
    decreases |records|
  {
    if records != [] {
      var n := |records| - 1;
      IndexAfterFrame(index, objects[..n], records[..n]);
      forall id | id in Ids(records)
        ensures id in Ids(records[..n]) || id == records[n].id
      {
        var i :| 0 <= i < |records| && records[i].id == id;
        if i < n {
          assert records[..n][i] == records[i];
        }
      }
      forall id | id in Ids(records[..n])
        ensures id in Ids(records)
      {
        var i :| 0 <= i < n && records[..n][i].id == id;
        assert records[i] == records[..n][i];
      }
      assert records[n].id in Ids(records);
    }
  }

  /** After the group, an object is found under its id unless a later record of the group reuses it. */
  lemma {:induction false} IndexAfterLast(index: map<int, MapObject>, objects: seq<MapObject>, records: seq<ObjectRecord>)
    requires |objects| == |records|
    ensures IndexedLast(IndexAfter(index, objects, records), objects, records)
    decreases |records|
  {
    if records != [] {
      var n := |records| - 1;
      var objects', records' := objects[..n], records[..n];
      IndexAfterLast(index, objects', records');
      forall i | 0 <= i < |records| && (forall j :: i < j < |records| ==> records[j].id != records[i].id)
        ensures records[i].id in IndexAfter(index, objects, records)
        ensures IndexAfter(index, objects, records)[records[i].id] == objects[i]
      {
        if i < n {
          assert records'[i] == records[i] && objects'[i] == objects[i];
          assert records[n].id != records[i].id;
          assert forall j :: i < j < n ==> records'[j].id != records'[i].id;
        }
      }
    }
  }

  /** Cutting a concatenation inside its second part. */
  lemma AppendPrefix<T>(a: seq<T>, b: seq<T>, n: nat)
    requires n < |b|
    ensures (a + b)[..|a| + n] == a + b[..n] && (a + b)[|a| + n] == b[n]
  {
  }

  /** Taking one more element of a sequence. */
  lemma TakeSnoc<T>(s: seq<T>, k: nat)
    requires k < |s|
    ensures s[..k + 1] == s[..k] + [s[k]] && s[..k + 1][..k] == s[..k]
  {
  }

  /** The parts of a sequence with one more element at its end. */
  lemma SnocSlices<T>(s: seq<T>, x: T, m: nat)
    requires m <= |s|
    ensures (s + [x])[m..] == s[m..] + [x] && (s + [x])[..m] == s[..m]
  {
  }

  /** A concatenation is the concatenation without its last element, then that element. */
  lemma AppendLast<T>(a: seq<T>, b: seq<T>)
    requires b != []
    ensures a + b == (a + b[..|b| - 1]) + [b[|b| - 1]] && b == b[..|b| - 1] + [b[|b| - 1]]
  {
  }

  lemma AppendAssociative<T>(a: seq<T>, b: seq<T>, c: seq<T>)
    ensures a + b + c == a + (b + c)
  {
  }

  /** Loading a group in two parts indexes its objects as loading it at once does. */
  lemma {:induction false} IndexAfterAppend(index: map<int, MapObject>, objects: seq<MapObject>, records: seq<ObjectRecord>,
                                          more: seq<MapObject>, moreRecords: seq<ObjectRecord>)
    requires |objects| == |records| && |more| == |moreRecords|
    ensures IndexAfter(index, objects + more, records + moreRecords) ==
      IndexAfter(IndexAfter(index, objects, records), more, moreRecords)
    decreases |moreRecords|
  {
    if moreRecords == [] {
      assert objects + more == objects && records + moreRecords == records;
    } else {
      var n := |moreRecords| - 1;
      AppendPrefix(objects, more, n);
      AppendPrefix(records, moreRecords, n);
      IndexAfterAppend(index, objects, records, more[..n], moreRecords[..n]);
    }
  }

  /** Loading a group in two parts queues the references that loading it at once does, in the same order. */
  lemma {:induction false} QueuedByAppend(objects: seq<MapObject>, records: seq<ObjectRecord>,
                                        more: seq<MapObject>, moreRecords: seq<ObjectRecord>, parseFloat: FloatParser)
    requires |objects| == |records| && |more| == |moreRecords|
    ensures QueuedBy(objects + more, records + moreRecords, parseFloat) ==
      QueuedBy(objects, records, parseFloat) + QueuedBy(more, moreRecords, parseFloat)
    decreases |moreRecords|
  {
    if moreRecords == [] {
      assert objects + more == objects && records + moreRecords == records;
    } else {
      var n := |moreRecords| - 1;
      AppendLast(objects, more);
      AppendLast(records, moreRecords);
      QueuedByAppend(objects, records, more[..n], moreRecords[..n], parseFloat);
      QueuedBySnoc(objects + more[..n], records + moreRecords[..n], more[n], moreRecords[n], parseFloat);
      QueuedBySnoc(more[..n], moreRecords[..n], more[n], moreRecords[n], parseFloat);
      var last := Refs(more[n].props, Deferred(Effects(moreRecords[n].properties, parseFloat).0));
      AppendAssociative(QueuedBy(objects, records, parseFloat), QueuedBy(more[..n], moreRecords[..n], parseFloat), last);
    }
  }

  /** One more object: its index entry is put last. */
  lemma IndexAfterSnoc(index: map<int, MapObject>, objects: seq<MapObject>, records: seq<ObjectRecord>, o: MapObject, r: ObjectRecord)
    requires |objects| == |records|
    ensures IndexAfter(index, objects + [o], records + [r]) == IndexAfter(index, objects, records)[r.id := o]
  {
    assert (objects + [o])[..|objects|] == objects && (records + [r])[..|records|] == records;
  }

  /** One more object: its references are queued last. */
  lemma QueuedBySnoc(objects: seq<MapObject>, records: seq<ObjectRecord>, o: MapObject, r: ObjectRecord, parseFloat: FloatParser)
    requires |objects| == |records|
    ensures QueuedBy(objects + [o], records + [r], parseFloat) ==
      QueuedBy(objects, records, parseFloat) + Refs(o.props, Deferred(Effects(r.properties, parseFloat).0))
  {
    assert (objects + [o])[..|objects|] == objects && (records + [r])[..|records|] == records;
  }

  /** One more object that matches its record. */
  lemma ObjectsMatchSnoc(objects: seq<MapObject>, records: seq<ObjectRecord>, o: MapObject, r: ObjectRecord,
                         p: Placement, tiles: map<int, Tile>, parseFloat: FloatParser)
    requires ObjectsMatch(objects, records, p, tiles, parseFloat) && ObjectMatches(o, r, p, tiles, parseFloat)
    ensures ObjectsMatch(objects + [o], records + [r], p, tiles, parseFloat)
  {
    forall i | 0 <= i < |records| + 1
      ensures ObjectMatches((objects + [o])[i], (records + [r])[i], p, tiles, parseFloat)
    {
      if i < |records| {
        assert ObjectMatches(objects[i], records[i], p, tiles, parseFloat);
      } else {
        assert (objects + [o])[i] == o && (records + [r])[i] == r;
      }
    }
  }

  /** The bags of a list of objects. */
  function ObjectBags(objects: seq<MapObject>): set<PropertyBag> {
    set o | o in objects :: o.props
  }

  /** The bags of the objects from `from` on, once more objects are appended. */
  lemma ObjectBagsAppend(items: seq<MapObject>, added: seq<MapObject>, from: nat)
    requires from <= |items|
    ensures ObjectBags((items + added)[from..]) == ObjectBags(items[from..]) + ObjectBags(added)
  {
    assert (items + added)[from..] == items[from..] + added;
  }

  /**
   * The first `k` records of a group have been loaded, with no error, after
   * the objects `before`, into an index that was `index0` and onto a queue
   * that was `pending0`.
   */
  ghost predicate GroupLoaded(items: seq<MapObject>, index: map<int, MapObject>, pending: seq<PendingRef>,
                              before: seq<MapObject>, index0: map<int, MapObject>, pending0: seq<PendingRef>,
                              records: seq<ObjectRecord>, k: nat, p: Placement, tiles: map<int, Tile>, parseFloat: FloatParser)
    requires k <= |records|
    reads ObjectBags(items)
  {
    && FirstError(Errors(records, p, tiles, parseFloat)[..k]) == None
    && |items| == |before| + k && items[..|before|] == before
    && ObjectsMatch(items[|before|..], records[..k], p, tiles, parseFloat)
    && index == IndexAfter(index0, items[|before|..], records[..k])
    && pending == pending0 + QueuedBy(items[|before|..], records[..k], parseFloat)
  }

  /** Loading record `k` after the `k` before it extends the loaded group by its object, its index entry and its references. */
  lemma GroupStep(items: seq<MapObject>, index: map<int, MapObject>, pending: seq<PendingRef>,
                  before: seq<MapObject>, index0: map<int, MapObject>, pending0: seq<PendingRef>,
                  records: seq<ObjectRecord>, k: nat, p: Placement, tiles: map<int, Tile>, parseFloat: FloatParser, o: MapObject)
    requires k < |records| && GroupLoaded(items, index, pending, before, index0, pending0, records, k, p, tiles, parseFloat)
    requires ObjectError(records[k], p, tiles, parseFloat) == None
    requires ObjectMatches(o, records[k], p, tiles, parseFloat)
    ensures GroupLoaded(items + [o], index[records[k].id := o],
                        pending + Refs(o.props, Deferred(Effects(records[k].properties, parseFloat).0)),
                        before, index0, pending0, records, k + 1, p, tiles, parseFloat)
  {
    var errors := Errors(records, p, tiles, parseFloat);
    TakeSnoc(errors, k);
    assert FirstError(errors[..k + 1]) == None;
    TakeSnoc(records, k);
    SnocSlices(items, o, |before|);
    var added, added' := items[|before|..], (items + [o])[|before|..];
    assert added' == added + [o];
    ObjectsMatchSnoc(added, records[..k], o, records[k], p, tiles, parseFloat);
    assert ObjectsMatch(added', records[..k + 1], p, tiles, parseFloat);
    IndexAfterSnoc(index0, added, records[..k], o, records[k]);
    assert index[records[k].id := o] == IndexAfter(index0, added', records[..k + 1]);
    QueuedBySnoc(added, records[..k], o, records[k], parseFloat);
    AppendAssociative(pending0, QueuedBy(added, records[..k], parseFloat), Refs(o.props, Deferred(Effects(records[k].properties, parseFloat).0)));
    assert pending + Refs(o.props, Deferred(Effects(records[k].properties, parseFloat).0)) ==
           pending0 + QueuedBy(added', records[..k + 1], parseFloat);
  }

  /**
   * The group stopped at a record with `error`: the records before it, as
   * many as the objects appended after `before`, have been loaded as
   * `GroupLoaded` says, except that the queue may hold more references after
   * theirs (those the failing record queued before its error).
   */
  ghost predicate GroupStopped(items: seq<MapObject>, index: map<int, MapObject>, pending: seq<PendingRef>,
                               before: seq<MapObject>, index0: map<int, MapObject>, pending0: seq<PendingRef>,
                               records: seq<ObjectRecord>, p: Placement, tiles: map<int, Tile>, parseFloat: FloatParser, error: Error)
    reads ObjectBags(items)
  {
    var n := |items| - |before|;
    && 0 <= n < |records|
    && ObjectError(records[n], p, tiles, parseFloat) == Some(error)
    && var queued := pending0 + QueuedBy(items[|before|..], records[..n], parseFloat);
       && |queued| <= |pending|
       && GroupLoaded(items, index, pending[..|queued|], before, index0, pending0, records, n, p, tiles, parseFloat)
  }

  /** Record `k` failing after the `k` before it loaded fails the group with its error, leaving its references queued. */
  lemma GroupFails(items: seq<MapObject>, index: map<int, MapObject>, pending: seq<PendingRef>, pending': seq<PendingRef>,
                   before: seq<MapObject>, index0: map<int, MapObject>, pending0: seq<PendingRef>,
                   records: seq<ObjectRecord>, k: nat, p: Placement, tiles: map<int, Tile>, parseFloat: FloatParser)
    requires k < |records| && GroupLoaded(items, index, pending, before, index0, pending0, records, k, p, tiles, parseFloat)
    requires ObjectError(records[k], p, tiles, parseFloat).Some?
    requires |pending| <= |pending'| && pending'[..|pending|] == pending
    ensures FirstError(Errors(records, p, tiles, parseFloat)) == ObjectError(records[k], p, tiles, parseFloat)
    ensures GroupStopped(items, index, pending', before, index0, pending0, records, p, tiles, parseFloat,
                         ObjectError(records[k], p, tiles, parseFloat).value)
  {
    var errors := Errors(records, p, tiles, parseFloat);
    TakeSnoc(errors, k);
    FirstErrorStops(errors, k + 1);
  }

  /**
   * One pass of the object loop on record `k` ended with `r`: the pass
   * appended `added` to `items0`; on `Pass` that is one object and the group
   * is loaded through record `k`, on `Fail` nothing and the group stopped
   * with the first error of all the records.
   */
  ghost predicate ObjectAtDone(r: Outcome, items: seq<MapObject>, index: map<int, MapObject>, pending: seq<PendingRef>,
                               items0: seq<MapObject>, added: seq<MapObject>,
                               before: seq<MapObject>, index0: map<int, MapObject>, pending0: seq<PendingRef>,
                               records: seq<ObjectRecord>, k: nat, p: Placement, tiles: map<int, Tile>, parseFloat: FloatParser)
    requires k < |records|
    reads ObjectBags(items)
  {
    && items == items0 + added
    && (r.Pass? ==> |added| == 1 && GroupLoaded(items, index, pending, before, index0, pending0, records, k + 1, p, tiles, parseFloat))
    && (r.Fail? ==>
          && added == []
          && FirstError(Errors(records, p, tiles, parseFloat)) == Some(r.error)
          && GroupStopped(items, index, pending, before, index0, pending0, records, p, tiles, parseFloat, r.error))
  }

  /** A record that loads as `o` ends its pass with `Pass`, one object appended. */
  lemma ObjectAtPasses(items: seq<MapObject>, index: map<int, MapObject>, pending: seq<PendingRef>,
                       before: seq<MapObject>, index0: map<int, MapObject>, pending0: seq<PendingRef>,
                       records: seq<ObjectRecord>, k: nat, p: Placement, tiles: map<int, Tile>, parseFloat: FloatParser, o: MapObject)
    requires k < |records| && GroupLoaded(items, index, pending, before, index0, pending0, records, k, p, tiles, parseFloat)
    requires ObjectError(records[k], p, tiles, parseFloat) == None
    requires ObjectMatches(o, records[k], p, tiles, parseFloat)
    ensures ObjectAtDone(Pass, items + [o], index[records[k].id := o],
                         pending + Refs(o.props, Deferred(Effects(records[k].properties, parseFloat).0)),
                         items, [o], before, index0, pending0, records, k, p, tiles, parseFloat)
  {
    GroupStep(items, index, pending, before, index0, pending0, records, k, p, tiles, parseFloat, o);
  }

  /** A record with an error ends its pass with that error, nothing appended. */
  lemma ObjectAtFails(items: seq<MapObject>, index: map<int, MapObject>, pending: seq<PendingRef>, pending': seq<PendingRef>,
                      before: seq<MapObject>, index0: map<int, MapObject>, pending0: seq<PendingRef>,
                      records: seq<ObjectRecord>, k: nat, p: Placement, tiles: map<int, Tile>, parseFloat: FloatParser)
    requires k < |records| && GroupLoaded(items, index, pending, before, index0, pending0, records, k, p, tiles, parseFloat)
    requires ObjectError(records[k], p, tiles, parseFloat).Some?
    requires |pending| <= |pending'| && pending'[..|pending|] == pending
    ensures ObjectAtDone(Fail(ObjectError(records[k], p, tiles, parseFloat).value), items, index, pending', items, [],
                         before, index0, pending0, records, k, p, tiles, parseFloat)
  {
    GroupFails(items, index, pending, pending', before, index0, pending0, records, k, p, tiles, parseFloat);
    assert items + [] == items;
  }

  /** Whether the JSON loader loads an object record: only one whose `type` is `object` passes the guard of `loadObject`. */
  predicate LoadedAsWritten(r: ObjectRecord) {
    r.typ == Some("object")
  }

  /**
   * One `loadTiledMap` call's decoder state. The settings are fixed when the
   * call starts; the index and the queue grow as the document is read.
   */
  class DecodeContext {
    const settings: MapSize.Settings
    /** `Float.valueOf` / `Float.parseFloat`, given. */
    const parseFloat: FloatParser
    var idToObject: map<int, MapObject>
    var pending: seq<PendingRef>

    constructor (settings: MapSize.Settings, parseFloat: FloatParser)
      ensures this.settings == settings && this.parseFloat == parseFloat
      ensures idToObject == map[] && pending == []
    {
      this.settings := settings;
      this.parseFloat := parseFloat;
      idToObject := map[];
      pending := [];
    }

    /**
     * `loadProperties`: each record, in order, is put into `bag` under its
     * cast value, or queued when its type is `object`. The first record that
     * fails ends the call; what the records before it did stays done.
     */
    method LoadProperties(bag: PropertyBag, records: seq<PropertyRecord>) returns (r: Outcome)
      modifies this, bag
      ensures var effects := Effects(records, parseFloat);
        && bag.entries == ApplyPuts(old(bag.entries), effects.0)
        && pending == old(pending) + Refs(bag, Deferred(effects.0))
        && r == (if effects.1 == None then Pass else Fail(effects.1.value))
      ensures idToObject == old(idToObject)
    {
      for k := 0 to |records|
        invariant LoadedUpTo(bag.entries, pending, old(bag.entries), old(pending), bag, records, k, parseFloat)
        invariant idToObject == old(idToObject)
      {
        r := LoadPropertyAt(bag, records, k, old(bag.entries), old(pending));
        if r.Fail? {
          return;
        }
      }
      assert records[..|records|] == records;
      return Pass;
    }

    /** One pass of the loop of `loadProperties`: record `k` after the `k` before it succeeded. */
    method LoadPropertyAt(bag: PropertyBag, records: seq<PropertyRecord>, k: nat,
                          ghost entries: map<string, PropertyValue>, ghost queued: seq<PendingRef>) returns (r: Outcome)
      requires k < |records| && LoadedUpTo(bag.entries, pending, entries, queued, bag, records, k, parseFloat)
      modifies this, bag
      ensures idToObject == old(idToObject)
      ensures r.Pass? ==> LoadedUpTo(bag.entries, pending, entries, queued, bag, records, k + 1, parseFloat)
      ensures r.Fail? ==> var effects := Effects(records, parseFloat);
        && effects.1.Some? && r == Fail(effects.1.value)
        && bag.entries == ApplyPuts(entries, effects.0) && pending == queued + Refs(bag, Deferred(effects.0))
    {
      ghost var before := Effects(records[..k], parseFloat).0;
      EffectStep(records, k, parseFloat);
      r := LoadProperty(bag, records[k]);
      if r.Fail? {
        EffectsStopAtFailure(records, k + 1, parseFloat);
        return;
      }
      match PropertyEffect(records[k], parseFloat)
      case Success(Defer(name, id)) => SnocDefer(entries, bag, before, name, id);
      case Success(Put(name, v)) => SnocPut(entries, bag, before, name, v);
    }

    /**
     * One record of `loadProperties`: type `object` queues a reference to the
     * id its value parses to (failing when it is not an `int`); any other type
     * puts the cast value (failing when the cast does).
     */
    method LoadProperty(bag: PropertyBag, record: PropertyRecord) returns (r: Outcome)
      modifies this, bag
      ensures idToObject == old(idToObject)
      ensures match PropertyEffect(record, parseFloat)
        case Failure(e) => r == Fail(e) && bag.entries == old(bag.entries) && pending == old(pending)
        case Success(Put(name, v)) => r == Pass && bag.entries == old(bag.entries)[name := v] && pending == old(pending)
        case Success(Defer(name, id)) => r == Pass && bag.entries == old(bag.entries) && pending == old(pending) + [PendingRef(bag, name, id)]
    {
      if record.typ == Some("object") {
        match ParseInt(record.value)
        case None =>
          return Fail(BadObjectReference(record.name, record.value));
        case Some(id) =>
          pending := pending + [PendingRef(bag, record.name, id)];
      } else {
        match CastProperty(record.name, record.value, record.typ, parseFloat)
        case Failure(e) =>
          return Fail(e);
        case Success(v) =>
          bag.Put(record.name, v);
      }
      return Pass;
    }

    /** The tile size divides when objects are converted to tile space. */
    predicate ScalesDefined() {
      settings.convertObjectToTileSpace ==> settings.mapTileWidth != 0 && settings.mapTileHeight != 0
    }

    /** The scale and flip `loadObject` applies, for a container `heightInPixels` high. */
    function PlacementFor(heightInPixels: real): (p: Placement)
      requires ScalesDefined()
      ensures p.flipY == settings.flipY && p.heightInPixels == heightInPixels
      ensures !settings.convertObjectToTileSpace ==> p.scaleX == 1.0 && p.scaleY == 1.0
    {
      Placement(settings.flipY,
                Scale(settings.convertObjectToTileSpace, settings.mapTileWidth),
                Scale(settings.convertObjectToTileSpace, settings.mapTileHeight),
                heightInPixels)
    }

    /**
     * `loadObject`, without the guard on `type`: builds the shape, writes the
     * synthesized properties and then the custom ones into the new object's
     * bag, indexes the object under its id (0 included) and appends it to
     * `objects`. A bad `gid` or a dangling one fails before anything changes;
     * a failing custom property fails after the references before it were
     * queued, with the object neither indexed nor added.
     */
    method LoadObject(objects: ObjectList, rec: ObjectRecord, heightInPixels: real, tiles: map<int, Tile>)
      returns (r: Result<MapObject>)
      requires ScalesDefined()
      modifies this, objects
      ensures var p := PlacementFor(heightInPixels);
        var error := ObjectError(rec, p, tiles, parseFloat);
        && (error.Some? <==> r.Failure?)
        && (r.Failure? ==> r.error == error.value && objects.items == old(objects.items) && idToObject == old(idToObject))
        && (r.Failure? ==> |old(pending)| <= |pending| && pending[..|old(pending)|] == old(pending))
        && (ObjectShape(rec, p, tiles).Failure? ==> pending == old(pending))
        && (r.Success? ==>
             var o := r.value;
             var effects := Effects(rec.properties, parseFloat);
             && fresh(o) && fresh(o.props)
             && o.shape == ObjectShape(rec, p, tiles).value && o.name == rec.name && o.visible == rec.visible
             && o.props.entries == ApplyPuts(SynthesizedProperties(rec, p, o.shape), effects.0)
             && pending == old(pending) + Refs(o.props, Deferred(effects.0))
             && idToObject == old(idToObject)[rec.id := o]
             && objects.items == old(objects.items) + [o])
    {
      var p := PlacementFor(heightInPixels);
      var built := ObjectShape(rec, p, tiles);
      if built.Failure? {
        return Failure(built.error);
      }
      var shape := built.value;
      var o := new MapObject(shape, rec.name, rec.visible);
      PutSynthesized(o.props, rec, p, shape);
      var loaded := LoadProperties(o.props, rec.properties);
      if loaded.Fail? {
        return Failure(loaded.error);
      }
      idToObject := idToObject[rec.id := o];
      objects.Add(o);
      return Success(o);
    }

    /**
     * `loadObject` as the JSON loader writes it: a record is loaded only when
     * its `type` is `object`; any other record (the usual case) is skipped
     * and nothing changes.
     */
    method LoadObjectAsWritten(objects: ObjectList, rec: ObjectRecord, heightInPixels: real, tiles: map<int, Tile>)
      returns (r: Option<Result<MapObject>>)
      requires ScalesDefined()
      modifies this, objects
      ensures r.Some? <==> LoadedAsWritten(rec)
      ensures !LoadedAsWritten(rec) ==>
        objects.items == old(objects.items) && idToObject == old(idToObject) && pending == old(pending)
    {
      if LoadedAsWritten(rec) {
        var loaded := LoadObject(objects, rec, heightInPixels, tiles);
        return Some(loaded);
      }
      return None;
    }

    /**
     * The object loop of `loadObjectGroup` and `addTileObjectGroup`: each
     * record in order, up to the first that fails. On success every record's
     * object has been appended, in record order and matching its record; the
     * index has been updated by each of them in turn and the queue has gained
     * their references in the same order. On failure the same holds of the
     * records before the failing one, which is the record after the appended
     * objects.
     */
    method LoadObjects(objects: ObjectList, records: seq<ObjectRecord>, heightInPixels: real, tiles: map<int, Tile>)
      returns (r: Outcome)
      requires ScalesDefined()
      modifies this, objects
      ensures var p := PlacementFor(heightInPixels);
        var error := FirstError(Errors(records, p, tiles, parseFloat));
        r == (if error == None then Pass else Fail(error.value))
      ensures r.Pass? ==> GroupLoaded(objects.items, idToObject, pending, old(objects.items), old(idToObject), old(pending),
                                      records, |records|, PlacementFor(heightInPixels), tiles, parseFloat)
      ensures r.Fail? ==> GroupStopped(objects.items, idToObject, pending, old(objects.items), old(idToObject), old(pending),
                                       records, PlacementFor(heightInPixels), tiles, parseFloat, r.error)
      ensures |old(objects.items)| <= |objects.items|
      ensures fresh(ObjectBags(objects.items[|old(objects.items)|..]))
    {
      ghost var before, index0, pending0 := objects.items, idToObject, pending;
      ghost var p := PlacementFor(heightInPixels);
      ghost var made: set<PropertyBag> := {};
      assert before[|before|..] == [] && records[..0] == [];
      for k := 0 to |records|
        invariant GroupLoaded(objects.items, idToObject, pending, before, index0, pending0, records, k, p, tiles, parseFloat)
        invariant fresh(made) && ObjectBags(objects.items[|before|..]) <= made
      {
        ghost var items, added := objects.items, [];
        r, added := LoadObjectAt(objects, records, k, heightInPixels, tiles, before, index0, pending0);
        assert ObjectAtDone(r, objects.items, idToObject, pending, items, added, before, index0, pending0, records, k, p, tiles, parseFloat);
        if r.Fail? {
          assert FirstError(Errors(records, p, tiles, parseFloat)) == Some(r.error);
          assert objects.items == items;
          return;
        }
        ObjectBagsAppend(items, added, |before|);
        made := made + ObjectBags(added);
      }
      assert Errors(records, p, tiles, parseFloat)[..|records|] == Errors(records, p, tiles, parseFloat);
      return Pass;
    }

    /** One pass of the object loop: record `k` after the `k` before it were loaded. */
    method LoadObjectAt(objects: ObjectList, records: seq<ObjectRecord>, k: nat, heightInPixels: real, tiles: map<int, Tile>,
                        ghost before: seq<MapObject>, ghost index0: map<int, MapObject>, ghost pending0: seq<PendingRef>)
      returns (r: Outcome, ghost added: seq<MapObject>)
      requires ScalesDefined() && k < |records|
      requires GroupLoaded(objects.items, idToObject, pending, before, index0, pending0, records, k,
                           PlacementFor(heightInPixels), tiles, parseFloat)
      modifies this, objects
      ensures ObjectAtDone(r, objects.items, idToObject, pending, old(objects.items), added, before, index0, pending0,
                           records, k, PlacementFor(heightInPixels), tiles, parseFloat)
      ensures r.Pass? ==> fresh(ObjectBags(added))
    {
      var p := PlacementFor(heightInPixels);
      ghost var items, index, queued := objects.items, idToObject, pending;
      var loaded := LoadObject(objects, records[k], heightInPixels, tiles);
      if loaded.Failure? {
        ObjectAtFails(items, index, queued, pending, before, index0, pending0, records, k, p, tiles, parseFloat);
        return Fail(loaded.error), [];
      }
      ObjectAtPasses(items, index, queued, before, index0, pending0, records, k, p, tiles, parseFloat, loaded.value);
      return Pass, [loaded.value];
    }

    /**
     * The end of the load: every queued reference, in the order it was
     * queued, writes the object its id names now (or `null`) into its bag.
     * The queue is then dropped.
     */
    method Flush()
      modifies this, Bags(pending)
      ensures pending == [] && idToObject == old(idToObject)
      ensures forall b :: b in old(Bags(pending)) ==> b.entries == Resolved(old(b.entries), b, old(pending), idToObject)
    {
      var refs := pending;
      for k := 0 to |refs|
        invariant pending == refs && idToObject == old(idToObject)
        invariant forall b :: b in Bags(refs) ==> b.entries == Resolved(old(b.entries), b, refs[..k], idToObject)
      {
        var p := refs[k];
        assert p in refs;
        assert refs[..k + 1][..k] == refs[..k];
        p.bag.Put(p.name, ObjectValue(if p.id in idToObject then Some(idToObject[p.id]) else None));
      }
      assert refs[..|refs|] == refs;
      pending := [];
    }
  }
}
