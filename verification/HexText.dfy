/** Hexadecimal fields: printed in upper case at a fixed width, read in either case. */
module HexText {
  import opened Prelude

  function Digit(d: nat): byte
    requires d < 16
  {
    if d < 10 then 48 + d else 55 + d
  }

  function Hex(v: nat, width: nat): (s: seq<byte>)
    ensures |s| == width
  {
    if width == 0 then [] else Hex(v / 16, width - 1) + [Digit(v % 16)]
  }

  function DigitValue(c: int): Option<nat> {
    if 48 <= c <= 57 then Some(c - 48)
    else if 65 <= c <= 70 then Some(c - 55)
    else if 97 <= c <= 102 then Some(c - 87)
    else None
  }

  function HexValue(digits: seq<int>): Option<nat> {
    if digits == [] then Some(0)
    else
      match (HexValue(digits[..|digits| - 1]), DigitValue(digits[|digits| - 1]))
      case (Some(high), Some(low)) => Some(16 * high + low)
      case _ => None
  }

  function Pow16(n: nat): nat {
    if n == 0 then 1 else 16 * Pow16(n - 1)
  }

  lemma {:induction false} HexReads(v: nat, width: nat)
    requires v < Pow16(width)
    ensures HexValue(Hex(v, width)) == Some(v)
  {
    if width > 0 {
      HexReads(v / 16, width - 1);
      var s := Hex(v, width);
      assert s[..|s| - 1] == Hex(v / 16, width - 1);
    }
  }

  lemma Pow16Values()
    ensures Pow16(2) == 0x100 && Pow16(4) == 0x1_0000 && Pow16(8) == 0x1_0000_0000
  {
    assert Pow16(3) == 0x1000;
    assert Pow16(6) == 0x100_0000;
  }
}
