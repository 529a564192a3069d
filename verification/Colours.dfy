/** The two JSON colour types: printed as a quoted hex text of at least six digits. */
module Colours {
  import opened Wrappers
  import opened Digits
  import opened Strings

  const TWO_TO_THE_31 := 0x8000_0000
  const TWO_TO_THE_32 := 0x1_0000_0000
  const WHITE := 0xFFFFFF

  /** %06x of a natural number. */
  function Hex(n: nat, width: nat): string {
    var s := Print(n, 16);
    Zeros(if |s| < width then width - |s| else 0) + s
  }

  /** %06x: the sign of a negative number takes one of the six places. */
  function HexInt(n: int): string {
    if n < 0 then "-" + Hex(-n, 5) else Hex(n, 6)
  }

  function Marshalled(n: int): string {
    "\"#" + HexInt(n) + "\""
  }

  class Colour {
    var value: nat  // a uint32

    method MarshalJSON() returns (b: string)
      ensures b == Marshalled(value)
    {
      b := "\"#" + Hex(value, 6) + "\"";
    }

    method UnmarshalJSON(b: string) returns (ok: bool)
      modifies this
      ensures ok <==> ReadColour(b).Some?
      ensures value == if ok then ReadColour(b).value else old(value)
    {
      var parsed := ParseUint(b, 10, TWO_TO_THE_32);
      if parsed.Some? {
        value := parsed.value;
        return true;
      }
      if |b| < 2 {
        return false;
      }
      var s := b[1..|b| - 1];
      s := TrimPrefix(s, "#");
      var tmp := ParseUint(s, 16, TWO_TO_THE_32);
      if tmp.None? || tmp.value > WHITE {
        return false;
      }
      value := tmp.value;
      return true;
    }
  }

  /** What Colour reads: a bare decimal number, or a quoted hex text. */
  function ReadColour(b: string): Option<nat> {
    var parsed := ParseUint(b, 10, TWO_TO_THE_32);
    if parsed.Some? then parsed
    else if |b| < 2 then None
    else
      var tmp := ParseUint(TrimPrefix(b[1..|b| - 1], "#"), 16, TWO_TO_THE_32);
      if tmp.None? || tmp.value > WHITE then None else tmp
  }

  class HexColour {
    var value: int

    method MarshalJSON() returns (b: string)
      ensures b == Marshalled(value)
    {
      b := "\"#" + HexInt(value) + "\"";
    }

    method UnmarshalJSON(data: string) returns (ok: bool)
      modifies this
      ensures ok <==> ReadHexColour(data).Some?
      ensures value == if ok then ReadHexColour(data).value else old(value)
    {
      var str := TrimPrefix(data, "\"");
      str := TrimPrefix(str, "#");
      str := TrimSuffix(str, "\"");
      var i := ParseInt(str, 16, TWO_TO_THE_31);
      if i.None? || i.value < 0 || i.value > WHITE {
        return false;
      }
      value := i.value;
      return true;
    }
  }

  function ReadHexColour(data: string): Option<int> {
    var i := ParseInt(TrimSuffix(TrimPrefix(TrimPrefix(data, "\""), "#"), "\""), 16, TWO_TO_THE_31);
    if i.None? || i.value < 0 || i.value > WHITE then None else i
  }

  // ----- what is printed -----

  function SixteenTo(k: nat): nat {
    if k == 0 then 1 else 16 * SixteenTo(k - 1)
  }

  lemma {:induction false} PrintIsShort(n: nat, k: nat)
    requires k >= 1 && n < SixteenTo(k)
    ensures |Print(n, 16)| <= k
    decreases k
  {
    if n >= 16 {
      assert k > 1 && n / 16 < SixteenTo(k - 1);
      PrintIsShort(n / 16, k - 1);
    }
  }

  lemma {:induction false} PrintIsLowerCase(n: nat)
    ensures forall i | 0 <= i < |Print(n, 16)| :: Print(n, 16)[i] in "0123456789abcdef"
    decreases n
  {
    if n >= 16 {
      PrintIsLowerCase(n / 16);
    }
  }

  /** A colour up to white is printed as a number sign and six lower-case hex digits, between quotes. */
  lemma PrintedShape(n: nat)
    requires n <= 0xFFFFFF
    ensures var h := HexInt(n);
            && Marshalled(n) == "\"#" + h + "\"" && |h| == 6
            && forall i | 0 <= i < 6 :: h[i] in "0123456789abcdef"
  {
    assert SixteenTo(2) == 256 && SixteenTo(4) == 0x10000 && SixteenTo(6) == 0x1000000;
    PrintIsShort(n, 6);
    PrintIsLowerCase(n);
    assert '0' in "0123456789abcdef" by {
      assert "0123456789abcdef"[0] == '0';
    }
  }

  // ----- print, then read -----

  lemma HexReads(n: nat, width: nat, limit: nat)
    ensures ParseUint(Hex(n, width), 16, limit) == if n < limit then Some(n) else None
  {
    var s := Print(n, 16);
    ValueOfPadded(if |s| < width then width - |s| else 0, s, 16);
    ValueOfPrint(n, 16);
  }

  lemma HexIsDigits(n: nat, width: nat)
    ensures Hex(n, width) != "" && forall i | 0 <= i < |Hex(n, width)| :: IsDigit(Hex(n, width)[i], 16)
  {
    PrintIsDigits(n, 16);
  }

  lemma {:induction false} BadDigit(s: string, base: Base, i: nat)
    requires i < |s| && !IsDigit(s[i], base)
    ensures Value(s, base).None?
    decreases |s|
  {
    if i < |s| - 1 {
      BadDigit(s[..|s| - 1], base, i);
    }
  }

  /** Every Colour up to white survives; every larger one is printed in a form that is rejected. */
  lemma ColourRoundTrip(n: nat)
    ensures ReadColour(Marshalled(n)) == if n <= WHITE then Some(n) else None
  {
    var b := Marshalled(n);
    BadDigit(b, 10, 0);
    assert b[1..|b| - 1] == "#" + Hex(n, 6);
    assert TrimPrefix("#" + Hex(n, 6), "#") == Hex(n, 6);
    HexReads(n, 6, TWO_TO_THE_32);
  }

  /** The other colour type agrees, and also rejects what it printed for a negative number. */
  lemma HexColourRoundTrip(n: int)
    ensures ReadHexColour(Marshalled(n)) == if 0 <= n <= WHITE then Some(n) else None
  {
    var h := HexInt(n);
    Trimmed(h);
    if n < 0 {
      assert h[1..] == Hex(-n, 5);
      HexReads(-n, 5, TWO_TO_THE_31 + 1);
    } else {
      HexReads(n, 6, TWO_TO_THE_31);
      HexIsDigits(n, 6);
      assert IsDigit(h[0], 16);
    }
  }

  lemma Trimmed(h: string)
    ensures TrimSuffix(TrimPrefix(TrimPrefix("\"#" + h + "\"", "\""), "#"), "\"") == h
  {
  }

  /** Between quotes, with or without the number sign: any non-empty hex text is read for its value, up to white. */
  lemma HexTextIsRead(h: string, hash: string)
    requires (hash == "" || hash == "#") && forall i | 0 <= i < |h| :: IsDigit(h[i], 16)
    ensures var v := Value(h, 16);
            && v.Some?
            && ReadColour("\"" + hash + h + "\"") == if h != "" && v.value <= 0xFFFFFF then v else None
  {
    DigitsHaveValue(h, 16);
    assert "\"" + hash + h + "\"" == "\"" + (hash + h) + "\"";
    QuotedIsRead(hash + h);
    HashTrimmed(h, hash);
  }

  lemma QuotedIsRead(inner: string)
    ensures ReadColour("\"" + inner + "\"") ==
            var tmp := ParseUint(TrimPrefix(inner, "#"), 16, TWO_TO_THE_32);
            if tmp.None? || tmp.value > WHITE then None else tmp
  {
    var b := "\"" + inner + "\"";
    BadDigit(b, 10, 0);
    assert b[1..|b| - 1] == inner;
  }

  lemma HashTrimmed(h: string, hash: string)
    requires (hash == "" || hash == "#") && (h != "" ==> h[0] != '#')
    ensures TrimPrefix(hash + h, "#") == h
  {
    if hash == "" {
      assert hash + h == h;
      assert h != "" ==> h[0] != "#"[0];
    } else {
      assert (hash + h)[1..] == h;
    }
  }

  lemma {:induction false} DigitsHaveValue(s: string, base: Base)
    requires forall i | 0 <= i < |s| :: IsDigit(s[i], base)
    ensures Value(s, base).Some?
    decreases |s|
  {
    if s != "" {
      DigitsHaveValue(s[..|s| - 1], base);
    }
  }

  /** Reading keeps a colour within range if and only if it was not written as a bare decimal above white. */
  lemma OutOfRangeIff(b: string)
    ensures (ReadColour(b).Some? && ReadColour(b).value > WHITE) <==>
            (ParseUint(b, 10, TWO_TO_THE_32).Some? && ParseUint(b, 10, TWO_TO_THE_32).value > WHITE)
  {
  }

  /** Such a colour is accepted, and what is then printed for it cannot be read back. */
  lemma DecimalSkipsTheCheck(n: nat)
    requires WHITE < n < TWO_TO_THE_32
    ensures ReadColour(Print(n, 10)) == Some(n) && ReadColour(Marshalled(n)).None?
  {
    ParseUintOfPrint(n, 10, TWO_TO_THE_32);
    ColourRoundTrip(n);
  }
}
