/**
 * Shared vocabulary of the TMJ map decoder model: optional values, results
 * carrying the decoder's failure kinds, Java's 32-bit integer arithmetic and
 * the decimal parsing that `Integer.parseInt` and `Long.parseLong` perform.
 */
module Common {

  datatype Option<+T> = None | Some(value: T)

  /** Every way one decode can abort (the source throws; the model returns). */
  datatype Error =
    | UnrecognisedEncoding(encoding: string)
    | UnrecognisedCompression(compression: string)
    | PrematureEndOfTileData
    | IndexOutOfBounds
    | TileDataTooShort(length: nat, cells: nat)
    | WrongPropertyType(name: string, typ: string)
    | NumberFormat(value: string)
    | BadObjectReference(name: string, value: string)
    | ColorTooShort(value: string)
    | MissingTile(gid: int)
    | MissingFrameField(field: string)
    | NullReference(member: string)
    | ClassCast

  datatype Result<+T> = Success(value: T) | Failure(error: Error)

  datatype Outcome = Pass | Fail(error: Error)

  const Two29: int := 0x2000_0000
  const Two30: int := 0x4000_0000
  const Two31: int := 0x8000_0000
  const Two32: int := 0x1_0000_0000
  const Two63: int := 0x8000_0000_0000_0000

  /** Java's `byte`: signed, -128..127. */
  type Int8 = x: int | -128 <= x < 128

  /** Java's `int`. */
  type Int32 = x: int | -Two31 <= x < Two31

  /** Java's `long`. */
  type Int64 = x: int | -Two63 <= x < Two63

  /**
   * The 32 bits of a Java `int`, read as an unsigned number: bit k of the
   * pattern is `(t / 2^k) % 2`. Tile ids are kept in this form.
   */
  type Uint32 = x: int | 0 <= x < Two32

  /** The bit pattern of a Java `int` (or the low 32 bits of a `long`, as the narrowing cast `(int)` keeps them). */
  function Bits32(x: int): (t: Uint32)
    ensures (t - x) % Two32 == 0
    ensures 0 <= x < Two32 ==> t == x
  {
    x % Two32
  }

  /** The signed Java `int` whose bit pattern is `t`. */
  function ToSigned32(t: Uint32): (r: Int32)
    ensures Bits32(r) == t
    ensures r < 0 <==> t >= Two31
  {
    if t < Two31 then t else t - Two32
  }

  /** Two's-complement wrap of a mathematical integer into Java's `int`. */
  function Wrap32(x: int): (r: Int32)
    ensures (r - x) % Two32 == 0
    ensures -Two31 <= x < Two31 ==> r == x
  {
    ToSigned32(Bits32(x))
  }

  // ---------------------------------------------------------------------
  // Decimal parsing, ASCII digits only.

  predicate IsDigit(c: char) {
    '0' <= c <= '9'
  }

  predicate AllDigits(s: string) {
    forall i :: 0 <= i < |s| ==> IsDigit(s[i])
  }

  /** The value of a run of decimal digits, most significant first. */
  function DigitsValue(s: string): nat
    requires AllDigits(s)
    decreases |s|
  {
    if s == [] then 0
    else DigitsValue(s[..|s| - 1]) * 10 + (s[|s| - 1] as int - '0' as int)
  }

  /** The text after an optional leading sign. */
  function Unsigned(s: string): string
    requires |s| > 0
  {
    if s[0] == '-' || s[0] == '+' then s[1..] else s
  }

  /** Decimal text: an optional sign, then at least one digit and nothing else. */
  predicate IsDecimalText(s: string) {
    |s| > 0 && |Unsigned(s)| > 0 && AllDigits(Unsigned(s))
  }

  /** The number decimal text denotes: its digits' value, negated after a minus sign. */
  function DecimalValue(s: string): int
    requires IsDecimalText(s)
  {
    if s[0] == '-' then -(DigitsValue(Unsigned(s)) as int) else DigitsValue(Unsigned(s))
  }

  /**
   * `Integer.parseInt` (bounds of `Int32`) and `Long.parseLong` (bounds of
   * `Int64`): an optional sign, at least one digit, nothing else, and the
   * value inside the bounds; anything else is a `NumberFormatException`.
   */
  function ParseDecimal(s: string, lo: int, hi: int): (r: Option<int>)
    ensures r.Some? ==> lo <= r.value <= hi
    ensures r.Some? ==> |s| > 0
    ensures s == [] ==> r == None
  {
    if s == [] then None
    else
      var digits := if s[0] == '-' || s[0] == '+' then s[1..] else s;
      if digits == [] || !AllDigits(digits) then None
      else
        var magnitude: int := DigitsValue(digits);
        var v := if s[0] == '-' then -magnitude else magnitude;
        if lo <= v <= hi then Some(v) else None
  }

  function ParseInt(s: string): Option<Int32> {
    match ParseDecimal(s, -Two31, Two31 - 1)
    case None => None
    case Some(v) => Some(v)
  }

  function ParseLong(s: string): Option<Int64> {
    match ParseDecimal(s, -Two63, Two63 - 1)
    case None => None
    case Some(v) => Some(v)
  }

  /** Decimal digits of a natural number, as `Integer.toString` writes them. */
  function Digits(n: nat): (s: string)
    decreases n
  {
    if n < 10 then [('0' as int + n) as char]
    else Digits(n / 10) + [('0' as int + n % 10) as char]
  }

  function Decimal(n: int): string {
    if n < 0 then "-" + Digits(-n) else Digits(n)
  }

  lemma {:induction false} DigitsValueOfDigits(n: nat)
    ensures |Digits(n)| > 0 && AllDigits(Digits(n))
    ensures DigitsValue(Digits(n)) == n
    decreases n
  {
    if n >= 10 {
      DigitsValueOfDigits(n / 10);
      var s := Digits(n);
      assert s[..|s| - 1] == Digits(n / 10);
    }
  }

  /** Parsing what `Decimal` writes gives the number back. */
  lemma {:induction false} ParseDecimalOfDecimal(n: int, lo: int, hi: int)
    requires lo <= n <= hi
    ensures ParseDecimal(Decimal(n), lo, hi) == Some(n)
  {
    var m := if n < 0 then -n else n;
    DigitsValueOfDigits(m);
    var d := Digits(m);
    if n < 0 {
      assert Decimal(n)[1..] == d;
    } else {
      assert IsDigit(d[0]);
    }
  }

  /** `Integer.parseInt` accepts decimal text whose value fits in an `int`, and nothing else. */
  lemma ParseIntDecimal(s: string)
    ensures ParseInt(s).Some? <==> IsDecimalText(s) && -Two31 <= DecimalValue(s) < Two31
    ensures ParseInt(s).Some? ==> ParseInt(s).value == DecimalValue(s)
  {
  }

  /** `Long.parseLong` accepts decimal text whose value fits in a `long`, and nothing else. */
  lemma ParseLongDecimal(s: string)
    ensures ParseLong(s).Some? <==> IsDecimalText(s) && -Two63 <= DecimalValue(s) < Two63
    ensures ParseLong(s).Some? ==> ParseLong(s).value == DecimalValue(s)
  {
  }

  /** `Integer.parseInt` reads back what `Integer.toString` writes. */
  lemma ParseIntOfDecimal(n: Int32)
    ensures ParseInt(Decimal(n)) == Some(n)
  {
    ParseDecimalOfDecimal(n, -Two31, Two31 - 1);
  }

  /** `Long.parseLong` reads back what `Long.toString` writes. */
  lemma ParseLongOfDecimal(n: Int64)
    ensures ParseLong(Decimal(n)) == Some(n)
  {
    ParseDecimalOfDecimal(n, -Two63, Two63 - 1);
  }
}
