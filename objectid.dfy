/**
 * Mongo ObjectIDs: twelve bytes, written by `ID.Hex()` as 24 lower-case hex
 * digits and read back by `primitive.ObjectIDFromHex`, which refuses any
 * string that is not exactly 24 hex digits of either case.
 */
module ObjectIds {
  import opened Wrappers

  function Pow16(k: nat): (r: nat)
    ensures r >= 1
  {
    if k == 0 then 1 else 16 * Pow16(k - 1)
  }

  /** Number of hex digits in an ObjectID's text form. */
  const HexWidth: nat := 24

  type ObjectId = n: int | 0 <= n < Pow16(HexWidth)

  /** The all-zero ObjectID that a failed ObjectIDFromHex leaves behind. */
  const NilObjectId: ObjectId := 0

  function HexDigit(d: int): (c: char)
    requires 0 <= d < 16
  {
    if d < 10 then ('0' as int + d) as char else ('a' as int + (d - 10)) as char
  }

  /** The value of a hex digit of either case, as encoding/hex reads it. */
  function HexValue(c: char): Option<int>
  {
    if '0' <= c <= '9' then Some(c as int - '0' as int)
    else if 'a' <= c <= 'f' then Some(c as int - 'a' as int + 10)
    else if 'A' <= c <= 'F' then Some(c as int - 'A' as int + 10)
    else None
  }

  lemma HexValueOfDigit(d: int)
    requires 0 <= d < 16
    ensures HexValue(HexDigit(d)) == Some(d)
  {
  }

  /** The `width` lowest hex digits of `n`, most significant first. */
  function ToHexDigits(n: nat, width: nat): (s: string)
    requires n < Pow16(width)
    ensures |s| == width
  {
    if width == 0 then "" else ToHexDigits(n / 16, width - 1) + [HexDigit(n % 16)]
  }

  /** The number a string of hex digits denotes, or None if one is not a digit. */
  function FromHexDigits(s: string): (r: Option<nat>)
    ensures r.Some? ==> r.value < Pow16(|s|)
  {
    if |s| == 0 then Some(0)
    else
      match (FromHexDigits(s[..|s| - 1]), HexValue(s[|s| - 1]))
      case (Some(high), Some(low)) => Some(high * 16 + low)
      case _ => None
  }

  lemma {:induction false} FromHexDigitsToHexDigits(n: nat, width: nat)
    requires n < Pow16(width)
    ensures FromHexDigits(ToHexDigits(n, width)) == Some(n)
  {
    if width > 0 {
      var s := ToHexDigits(n, width);
      FromHexDigitsToHexDigits(n / 16, width - 1);
      HexValueOfDigit(n % 16);
      assert s[..|s| - 1] == ToHexDigits(n / 16, width - 1);
    }
  }

  /** `ID.Hex()`: always 24 characters. */
  function Hex(id: ObjectId): (s: string)
    ensures |s| == HexWidth
  {
    ToHexDigits(id, HexWidth)
  }

  /** `primitive.ObjectIDFromHex`: None for the error it returns. */
  function FromHex(s: string): (r: Option<ObjectId>)
    ensures r.Some? ==> |s| == HexWidth
  {
    if |s| != HexWidth then None
    else
      match FromHexDigits(s)
      case Some(n) => Some(n)
      case None => None
  }

  /** Every ObjectID survives the trip through its hex text. */
  lemma FromHexHex(id: ObjectId)
    ensures FromHex(Hex(id)) == Some(id)
  {
    FromHexDigitsToHexDigits(id, HexWidth);
  }

  /** Distinct ObjectIDs have distinct hex texts. */
  lemma HexInjective(a: ObjectId, b: ObjectId)
    requires Hex(a) == Hex(b)
    ensures a == b
  {
    FromHexHex(a);
    FromHexHex(b);
  }
}
