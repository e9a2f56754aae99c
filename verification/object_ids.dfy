/** GridFS file ids are bson ObjectIds: 12-byte numbers whose string form
    (`str(fid)`) is 24 lower-case hexadecimal digits, and which
    `ObjectId(s)` parses back from 24 hexadecimal digits of either case. */
module ObjectIds {
  import opened Base

  const ID_DIGITS: nat := 24

  function Pow16(k: nat): (r: nat)
    ensures r > 0
  {
    if k == 0 then 1 else 16 * Pow16(k - 1)
  }

  /** An ObjectId, as the number its 12 bytes spell. */
  type Id = n: nat | n < Pow16(ID_DIGITS)

  function HexDigit(d: nat): (c: char)
    requires d < 16
    ensures DigitValue(c) == Some(d)
  {
    if d < 10 then ('0' as int + d) as char else ('a' as int + d - 10) as char
  }

  /** The value of one hexadecimal digit, as `bytes.fromhex` reads it. */
  function DigitValue(c: char): (r: Option<nat>)
    ensures r.Some? ==> r.value < 16
  {
    if '0' <= c <= '9' then Some(c as int - '0' as int)
    else if 'a' <= c <= 'f' then Some(c as int - 'a' as int + 10)
    else if 'A' <= c <= 'F' then Some(c as int - 'A' as int + 10)
    else None
  }

  /** `n` written as exactly `width` hexadecimal digits, most significant first. */
  function Hex(n: nat, width: nat): (s: string)
    requires n < Pow16(width)
    ensures |s| == width
  {
    if width == 0 then "" else Hex(n / 16, width - 1) + [HexDigit(n % 16)]
  }

  /** Reads a string of hexadecimal digits as a number; `None` if any character is not a digit. */
  function ParseHex(s: string): (r: Option<nat>)
    ensures r.Some? ==> r.value < Pow16(|s|)
  {
    if s == [] then Some(0)
    else
      match (ParseHex(s[..|s| - 1]), DigitValue(s[|s| - 1]))
      case (Some(high), Some(low)) => Some(high * 16 + low)
      case _ => None
  }

  /** `str(fid)` */
  function IdString(id: Id): (s: string)
    ensures |s| == ID_DIGITS
  {
    Hex(id, ID_DIGITS)
  }

  /** `ObjectId(s)` for a string `s`: `None` where the constructor raises InvalidId. */
  function ParseObjectId(s: string): (r: Option<Id>)
    ensures r.Some? ==> |s| == ID_DIGITS
  {
    if |s| != ID_DIGITS then None
    else
      match ParseHex(s)
      case Some(n) => Some(n)
      case None => None
  }

  /** Reading back the digits `Hex` writes yields the number written. */
  lemma {:induction false} ParseHexOfHex(n: nat, width: nat)
    requires n < Pow16(width)
    ensures ParseHex(Hex(n, width)) == Some(n)
  {
    if width > 0 {
      var s := Hex(n, width);
      assert s[..|s| - 1] == Hex(n / 16, width - 1);
      assert s[|s| - 1] == HexDigit(n % 16);
      ParseHexOfHex(n / 16, width - 1);
    }
  }

  /** The string `str(fid)` publishes is parsed back by `ObjectId(...)` to the same id. */
  lemma ParseIdString(id: Id)
    ensures ParseObjectId(IdString(id)) == Some(id)
  {
    ParseHexOfHex(id, ID_DIGITS);
  }

  /** Distinct ids have distinct string forms, so a message names at most one blob. */
  lemma IdStringInjective(a: Id, b: Id)
    ensures IdString(a) == IdString(b) <==> a == b
  {
    if IdString(a) == IdString(b) {
      ParseIdString(a);
      ParseIdString(b);
    }
  }
}
