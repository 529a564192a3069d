/** Positional number text: what Go's %d and %x print and what strconv reads back. */
module Digits {
  import opened Wrappers

  /** The bases the printers and parsers are used with. */
  type Base = b: nat | b == 10 || b == 16 witness 10

  const SYMBOLS := "0123456789abcdef"

  function Symbol(d: nat): char
    requires d < 16
  {
    SYMBOLS[d]
  }

  function DigitValue(c: char): Option<nat> {
    if '0' <= c <= '9' then Some(c as int - '0' as int)
    else if 'a' <= c <= 'f' then Some(c as int - 'a' as int + 10)
    else if 'A' <= c <= 'F' then Some(c as int - 'A' as int + 10)
    else None
  }

  predicate IsDigit(c: char, base: Base) {
    DigitValue(c).Some? && DigitValue(c).value < base
  }

  lemma SymbolReads(d: nat)
    requires d < 16
    ensures DigitValue(Symbol(d)) == Some(d)
  {
  }

  /** Which characters are digits, and what they are worth; letters count in either case. */
  lemma DigitsAre(c: char, base: Base)
    ensures IsDigit(c, base) <==>
            c in "0123456789" || (base == 16 && (c in "abcdef" || c in "ABCDEF"))
    ensures forall k | 0 <= k < 10 && c == "0123456789"[k] :: DigitValue(c) == Some(k)
    ensures forall k | 0 <= k < 6 && (c == "abcdef"[k] || c == "ABCDEF"[k]) :: DigitValue(c) == Some(10 + k)
  {
    assert "0123456789" == ['0', '1', '2', '3', '4', '5', '6', '7', '8', '9'];
    assert "abcdef" == ['a', 'b', 'c', 'd', 'e', 'f'] && "ABCDEF" == ['A', 'B', 'C', 'D', 'E', 'F'];
  }

  /** The shortest text of n. */
  function Print(n: nat, base: Base): (s: string)
    ensures s != []
    decreases n
  {
    if n < base then [Symbol(n)] else Print(n / base, base) + [Symbol(n % base)]
  }

  /** The value of a digit text, most significant first; None when a character is no digit. */
  function Value(s: string, base: Base): Option<nat>
  {
    if s == [] then Some(0)
    else
      var high := Value(s[..|s| - 1], base);
      if high.None? || !IsDigit(s[|s| - 1], base) then None
      else Some(high.value * base + DigitValue(s[|s| - 1]).value)
  }

  lemma DivMod(n: nat, base: Base)
    ensures (n / base) * base + n % base == n
    ensures n > 0 ==> n / base < n
  {
  }

  lemma ValueStep(s: string, c: char, base: Base)
    requires Value(s, base).Some? && IsDigit(c, base)
    ensures Value(s + [c], base) == Some(Value(s, base).value * base + DigitValue(c).value)
  {
    assert (s + [c])[..|s + [c]| - 1] == s;
  }

  lemma {:induction false} ValueOfPrint(n: nat, base: Base)
    ensures Value(Print(n, base), base) == Some(n)
    decreases n
  {
    if n < base {
      SymbolReads(n);
      ValueStep([], Symbol(n), base);
      assert [] + [Symbol(n)] == Print(n, base);
    } else {
      DivMod(n, base);
      var q, d := n / base, n % base;
      ValueOfPrint(q, base);
      DigitAppended(Print(q, base), q, d, base);
      assert Print(n, base) == Print(q, base) + [Symbol(d)];
    }
  }

  lemma DigitAppended(s: string, q: nat, d: nat, base: Base)
    requires Value(s, base) == Some(q) && d < base
    ensures Value(s + [Symbol(d)], base) == Some(q * base + d)
  {
  }

  lemma {:induction false} PrintIsDigits(n: nat, base: Base)
    ensures forall i | 0 <= i < |Print(n, base)| :: IsDigit(Print(n, base)[i], base)
    decreases n
  {
    SymbolReads(n % base);
    if n >= base {
      PrintIsDigits(n / base, base);
    }
  }

  lemma PrintInjective(m: nat, n: nat, base: Base)
    requires Print(m, base) == Print(n, base)
    ensures m == n
  {
    ValueOfPrint(m, base);
    ValueOfPrint(n, base);
  }

  /** Leading zeros do not change the value. */
  lemma {:induction false} ValueOfPadded(k: nat, s: string, base: Base)
    ensures Value(Zeros(k) + s, base) == Value(s, base)
    decreases k + |s|
  {
    var t := Zeros(k) + s;
    if s != [] {
      ValueOfPadded(k, s[..|s| - 1], base);
      assert t[..|t| - 1] == Zeros(k) + s[..|s| - 1];
    } else if k > 0 {
      ValueOfPadded(k - 1, [], base);
      assert t[..|t| - 1] == Zeros(k - 1) + [];
      assert t[|t| - 1] == '0';
    }
  }

  function Zeros(k: nat): string {
    seq(k, _ => '0')
  }

  /** How many decimal digits a text starts with. */
  function CountDigits(s: string): (n: nat)
    ensures n <= |s|
  {
    if s != "" && '0' <= s[0] <= '9' then 1 + CountDigits(s[1..]) else 0
  }

  /** %d of a signed number. */
  function PrintInt(n: int): string {
    if n < 0 then "-" + Print(-n, 10) else Print(n, 10)
  }

  /** strconv.ParseUint: digits only, at least one, below the limit. */
  function ParseUint(s: string, base: Base, limit: nat): Option<nat>
  {
    if s == [] then None
    else
      var v := Value(s, base);
      if v.None? || v.value >= limit then None else v
  }

  /** strconv.ParseInt: an optional sign, then as ParseUint; the range is -limit .. limit - 1. */
  function ParseInt(s: string, base: Base, limit: nat): Option<int>
  {
    if s == [] then None
    else if s[0] == '-' then
      var v := ParseUint(s[1..], base, limit + 1);
      if v.None? then None else Some(0 - v.value as int)
    else
      var v := ParseUint(if s[0] == '+' then s[1..] else s, base, limit);
      if v.None? then None else Some(v.value)
  }

  /** A sign in front changes the sign only; an unsigned number has none. */
  lemma SignsRead(s: string, base: Base, limit: nat)
    requires s != "" && s[0] != '-' && s[0] != '+'
    ensures ParseInt("+" + s, base, limit) == ParseInt(s, base, limit)
    ensures ParseInt("-" + s, base, limit) ==
            (var v := ParseUint(s, base, limit + 1); if v.None? then None else Some(-(v.value as int)))
    ensures ParseInt(s, base, limit) ==
            (var v := ParseUint(s, base, limit); if v.None? then None else Some(v.value as int))
  {
    assert ("+" + s)[1..] == s && ("-" + s)[1..] == s;
  }

  lemma ParseUintOfPrint(n: nat, base: Base, limit: nat)
    ensures ParseUint(Print(n, base), base, limit) == if n < limit then Some(n) else None
  {
    ValueOfPrint(n, base);
  }

  lemma ParseIntOfPrint(n: int, limit: nat)
    requires 0 <= n + limit && n < limit
    ensures ParseInt(PrintInt(n), 10, limit) == Some(n)
  {
    var s := PrintInt(n);
    if n < 0 {
      ParseUintOfPrint(-n, 10, limit + 1);
      assert s[1..] == Print(-n, 10);
    } else {
      ParseUintOfPrint(n, 10, limit);
      PrintIsDigits(n, 10);
      assert IsDigit(s[0], 10);
    }
  }
}
