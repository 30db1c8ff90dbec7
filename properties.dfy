/**
 * Custom properties: `castProperty`, which turns a `(name, value, type)`
 * record into a typed value, and the first pass of `loadProperties`, which
 * either casts a record and puts it in the bag or, for type `object`, defers
 * it as a reference to an object id resolved once the whole map is built.
 */
module Properties {
  import opened Common
  import opened MapModel

  /** One entry of a `properties` array. */
  datatype PropertyRecord = PropertyRecord(name: string, value: string, typ: Option<string>)

  /** `Float.valueOf`: a partial parser, given. */
  type FloatParser = string -> Option<real>

  function LowerAscii(c: char): char {
    if 'A' <= c <= 'Z' then (c as int - 'A' as int + 'a' as int) as char else c
  }

  /** `Boolean.valueOf(value)`: `"true"` in any mix of cases. */
  predicate IsTrueIgnoringCase(value: string) {
    |value| == 4 && LowerAscii(value[0]) == 't' && LowerAscii(value[1]) == 'r'
    && LowerAscii(value[2]) == 'u' && LowerAscii(value[3]) == 'e'
  }

  /**
   * The color cast's string work: `value.substring(3) + value.substring(1, 3)`.
   * Tiled writes `#AARRGGBB`; the result is the `RRGGBBAA` text that
   * `Color.valueOf` reads. A value shorter than 3 characters makes
   * `substring` throw.
   */
  function ColorHex(value: string): (r: Result<string>)
    ensures r.Success? <==> |value| >= 3
    ensures r.Failure? ==> r.error == ColorTooShort(value)
    ensures r.Success? ==> |r.value| == |value| - 1
    ensures r.Success? ==> r.value[..|value| - 3] == value[3..] && r.value[|value| - 3..] == value[1..3]
  {
    if |value| < 3 then Failure(ColorTooShort(value)) else Success(value[3..] + value[1..3])
  }

  /** How Tiled writes an `RRGGBBAA` color: `#` and the alpha first. */
  function TiledColor(rrggbbaa: string): string
    requires |rrggbbaa| == 8
  {
    "#" + rrggbbaa[6..] + rrggbbaa[..6]
  }

  /**
   * `castProperty` as written: only an absent type yields the raw string;
   * `string` (which the TMJ format writes for every plain property) falls
   * through to the error, although the error text lists it as supported.
   */
  function CastPropertyAsWritten(name: string, value: string, typ: Option<string>, parseFloat: FloatParser): Result<PropertyValue> {
    if typ == None then Success(StringValue(value))
    else CastTyped(name, value, typ.value, parseFloat)
  }

  /** `castProperty` as intended: an absent type and type `string` both yield the raw string. */
  function CastProperty(name: string, value: string, typ: Option<string>, parseFloat: FloatParser): Result<PropertyValue> {
    if typ == None || typ == Some("string") then Success(StringValue(value))
    else CastTyped(name, value, typ.value, parseFloat)
  }

  /** The dispatch on a present type string shared by both versions. */
  function CastTyped(name: string, value: string, typ: string, parseFloat: FloatParser): Result<PropertyValue> {
    if typ == "int" then
      match ParseInt(value)
      case None => Failure(NumberFormat(value))
      case Some(n) => Success(IntValue(n))
    else if typ == "float" then
      match parseFloat(value)
      case None => Failure(NumberFormat(value))
      case Some(x) => Success(FloatValue(x))
    else if typ == "bool" then Success(BoolValue(IsTrueIgnoringCase(value)))
    else if typ == "color" then
      match ColorHex(value)
      case Failure(e) => Failure(e)
      case Success(hex) => Success(ColorValue(hex))
    else Failure(WrongPropertyType(name, typ))
  }

  predicate IsSupportedType(typ: Option<string>) {
    typ == None || typ.value in {"string", "int", "float", "bool", "color"}
  }

  // ---------------------------------------------------------------------
  // Properties of the cast

  /**
   * Which records cast: every supported type whose value parses, and no
   * other; an unsupported type is the "wrong type" error naming it.
   */
  lemma CastPropertyOutcome(name: string, value: string, typ: Option<string>, parseFloat: FloatParser)
    ensures CastProperty(name, value, typ, parseFloat).Success? <==>
      (typ == None || typ == Some("string") || typ == Some("bool")
       || (typ == Some("int") && ParseInt(value).Some?)
       || (typ == Some("float") && parseFloat(value).Some?)
       || (typ == Some("color") && |value| >= 3))
    ensures !IsSupportedType(typ) <==>
      typ.Some? && CastProperty(name, value, typ, parseFloat) == Failure(WrongPropertyType(name, typ.value))
    ensures typ == None || typ == Some("string") <==> CastProperty(name, value, typ, parseFloat) == Success(StringValue(value))
  {
  }

  /** The two versions differ exactly on type `string`. */
  lemma StringTypeRejectedAsWritten(name: string, value: string, typ: Option<string>, parseFloat: FloatParser)
    ensures typ != Some("string") ==> CastPropertyAsWritten(name, value, typ, parseFloat) == CastProperty(name, value, typ, parseFloat)
    ensures typ == Some("string") ==>
      CastPropertyAsWritten(name, value, typ, parseFloat) == Failure(WrongPropertyType(name, "string"))
      && CastProperty(name, value, typ, parseFloat) == Success(StringValue(value))
  {
  }

  /** An `int` property holding the decimal text of any `int` casts back to that number. */
  lemma IntCastRoundTrip(name: string, n: Int32, parseFloat: FloatParser)
    ensures CastProperty(name, Decimal(n), Some("int"), parseFloat) == Success(IntValue(n))
  {
    ParseDecimalOfDecimal(n, -Two31, Two31 - 1);
  }

  /** The color cast undoes the way Tiled writes colors, and the other way round. */
  lemma ColorRoundTrip(rrggbbaa: string, value: string)
    requires |rrggbbaa| == 8
    requires |value| == 9 && value[0] == '#'
    ensures ColorHex(TiledColor(rrggbbaa)) == Success(rrggbbaa)
    ensures ColorHex(value).Success? && TiledColor(ColorHex(value).value) == value
  {
    var t := TiledColor(rrggbbaa);
    assert t[3..] == rrggbbaa[..6];
    assert t[1..3] == rrggbbaa[6..];
    assert rrggbbaa[..6] + rrggbbaa[6..] == rrggbbaa;
    var hex := ColorHex(value).value;
    assert hex[6..] == value[1..3] && hex[..6] == value[3..];
    assert value == [value[0]] + value[1..3] + value[3..];
  }

  /** Half-transparent red. */
  lemma ColorExample(name: string, parseFloat: FloatParser)
    ensures CastProperty(name, "#80FF0000", Some("color"), parseFloat) == Success(ColorValue("FF000080"))
  {
    assert "#80FF0000"[3..] == "FF0000";
    assert "#80FF0000"[1..3] == "80";
    assert "FF0000" + "80" == "FF000080";
  }

  /** `bool` is true exactly for "true" in any case, and false for anything else, never an error. */
  lemma BoolCast(name: string, value: string, parseFloat: FloatParser)
    ensures CastProperty(name, value, Some("bool"), parseFloat) == Success(BoolValue(true)) <==>
      (|value| == 4 && forall i :: 0 <= i < 4 ==> LowerAscii(value[i]) == "true"[i])
    ensures CastProperty(name, value, Some("bool"), parseFloat).Success?
  {
    if |value| == 4 && forall i :: 0 <= i < 4 ==> LowerAscii(value[i]) == "true"[i] {
      assert LowerAscii(value[0]) == "true"[0];
      assert LowerAscii(value[1]) == "true"[1];
      assert LowerAscii(value[2]) == "true"[2];
      assert LowerAscii(value[3]) == "true"[3];
    }
  }

  // ---------------------------------------------------------------------
  // The first pass of `loadProperties`

  /** What one record does to its bag: a put now, or a reference resolved later. */
  datatype Effect = Put(name: string, value: PropertyValue) | Defer(name: string, id: Int32)

  /**
   * One record. Type `object` needs an `int` id (`Integer.parseInt`), and a
   * value that is not one fails here, while the record is read.
   */
  function PropertyEffect(r: PropertyRecord, parseFloat: FloatParser): Result<Effect> {
    if r.typ == Some("object") then
      match ParseInt(r.value)
      case None => Failure(BadObjectReference(r.name, r.value))
      case Some(id) => Success(Defer(r.name, id))
    else
      match CastProperty(r.name, r.value, r.typ, parseFloat)
      case Failure(e) => Failure(e)
      case Success(v) => Success(Put(r.name, v))
  }

  /**
   * The effects of the records, in order, up to the first record that fails,
   * and that record's error. The effects before a failure have happened when
   * the exception is thrown.
   */
  function Effects(records: seq<PropertyRecord>, parseFloat: FloatParser): (r: (seq<Effect>, Option<Error>))
    ensures |r.0| <= |records|
    ensures r.1 == None ==> |r.0| == |records|
    decreases |records|
  {
    if records == [] then ([], None)
    else
      var before := Effects(records[..|records| - 1], parseFloat);
      if before.1.Some? then before
      else
        match PropertyEffect(records[|records| - 1], parseFloat)
        case Failure(e) => (before.0, Some(e))
        case Success(x) => (before.0 + [x], None)
  }

  /** A bag's entries after the puts among `effects`. */
  function ApplyPuts(entries: map<string, PropertyValue>, effects: seq<Effect>): map<string, PropertyValue>
    decreases |effects|
  {
    if effects == [] then entries
    else
      var before := ApplyPuts(entries, effects[..|effects| - 1]);
      match effects[|effects| - 1]
      case Put(name, value) => before[name := value]
      case Defer(_, _) => before
  }

  /** The `(name, id)` references among `effects`, in order. */
  function Deferred(effects: seq<Effect>): seq<(string, Int32)>
    decreases |effects|
  {
    if effects == [] then []
    else
      var before := Deferred(effects[..|effects| - 1]);
      match effects[|effects| - 1]
      case Put(_, _) => before
      case Defer(name, id) => before + [(name, id)]
  }

  /** Once a record has failed, the records after it do nothing. */
  lemma {:induction false} EffectsStopAtFailure(records: seq<PropertyRecord>, j: nat, parseFloat: FloatParser)
    requires j <= |records|
    requires Effects(records[..j], parseFloat).1.Some?
    ensures Effects(records, parseFloat) == Effects(records[..j], parseFloat)
    decreases |records|
  {
    if j < |records| {
      var init := records[..|records| - 1];
      assert init[..j] == records[..j];
      EffectsStopAtFailure(init, j, parseFloat);
    } else {
      assert records[..j] == records;
    }
  }

  /**
   * An `object` property whose value is not an `int` stops the pass at that
   * record: its error is the reference error, and neither it nor any later
   * record has had an effect, so nothing is left for the end of the load.
   */
  lemma {:induction false} BadReferenceFailsAtEnqueue(records: seq<PropertyRecord>, k: nat, parseFloat: FloatParser)
    requires k < |records|
    requires records[k].typ == Some("object") && ParseInt(records[k].value) == None
    requires forall j :: 0 <= j < k ==> PropertyEffect(records[j], parseFloat).Success?
    ensures Effects(records, parseFloat).1 == Some(BadObjectReference(records[k].name, records[k].value))
    ensures |Effects(records, parseFloat).0| == k
  {
    AllSucceed(records[..k], parseFloat);
    var upTo := records[..k + 1];
    assert upTo[..k] == records[..k];
    EffectsStopAtFailure(records, k + 1, parseFloat);
  }

  /** When every record casts, every record has its effect, in order. */
  lemma {:induction false} AllSucceed(records: seq<PropertyRecord>, parseFloat: FloatParser)
    requires forall j :: 0 <= j < |records| ==> PropertyEffect(records[j], parseFloat).Success?
    ensures Effects(records, parseFloat).1 == None
    ensures forall j :: 0 <= j < |records| ==> Effects(records, parseFloat).0[j] == PropertyEffect(records[j], parseFloat).value
    decreases |records|
  {
    if records != [] {
      AllSucceed(records[..|records| - 1], parseFloat);
    }
  }

  /** The last put for a name decides its entry. */
  lemma {:induction false} LastPutWins(entries: map<string, PropertyValue>, effects: seq<Effect>, k: nat)
    requires k < |effects| && effects[k].Put?
    requires forall j :: k < j < |effects| ==> !(effects[j].Put? && effects[j].name == effects[k].name)
    ensures effects[k].name in ApplyPuts(entries, effects)
    ensures ApplyPuts(entries, effects)[effects[k].name] == effects[k].value
    decreases |effects|
  {
    if k < |effects| - 1 {
      LastPutWins(entries, effects[..|effects| - 1], k);
    }
  }

  /** A name that no record puts keeps the entry it had. */
  lemma {:induction false} UnputNameUnchanged(entries: map<string, PropertyValue>, effects: seq<Effect>, name: string)
    requires forall j :: 0 <= j < |effects| ==> !(effects[j].Put? && effects[j].name == name)
    ensures name in ApplyPuts(entries, effects) <==> name in entries
    ensures name in entries ==> ApplyPuts(entries, effects)[name] == entries[name]
    decreases |effects|
  {
    if effects != [] {
      UnputNameUnchanged(entries, effects[..|effects| - 1], name);
    }
  }
}
