/**
 The hand-written JSON forms of id lists: printed as an array of strings, read as an array of
 strings or, failing that, of integers. Arrays and strings are as in sections 5 and 7 of
 RFC 8259, without escapes.
 */
module JsonNumbers {
  import opened Wrappers
  import opened Digits
  import opened Strings

  const TWO_TO_THE_63 := 0x8000_0000_0000_0000
  const TWO_TO_THE_64 := 0x1_0000_0000_0000_0000

  /** The element type of Int64StringSlice and of UInt64StringSlice. */
  datatype Width = Int64 | UInt64

  predicate InRange(w: Width, n: int) {
    match w
    case Int64 => -TWO_TO_THE_63 <= n < TWO_TO_THE_63
    case UInt64 => 0 <= n < TWO_TO_THE_64
  }

  /** strconv.ParseInt or ParseUint, base 10, 64 bits. */
  function ParseNumber(w: Width, s: string): Option<int> {
    match w
    case Int64 => ParseInt(s, 10, TWO_TO_THE_63)
    case UInt64 => var v := ParseUint(s, 10, TWO_TO_THE_64); if v.None? then None else Some(v.value)
  }

  lemma NumberRoundTrip(w: Width, n: int)
    requires InRange(w, n)
    ensures ParseNumber(w, PrintInt(n)) == Some(n)
  {
    match w
    case Int64 => ParseIntOfPrint(n, TWO_TO_THE_63);
    case UInt64 => ParseUintOfPrint(n, 10, TWO_TO_THE_64);
  }

  // ----- the JSON reader -----

  datatype Item = Text(s: string) | Number(digits: string) | Null

  function SkipSpace(s: string): (r: string)
    ensures |r| <= |s|
  {
    if s != "" && (s[0] == ' ' || s[0] == '\t' || s[0] == '\n' || s[0] == '\r') then SkipSpace(s[1..]) else s
  }

  predicate IsPlain(c: char) {
    c != '"' && c != '\\' && c >= ' '
  }

  /** A string up to its closing quote, and what follows. */
  function TakeText(s: string): (r: Option<(string, string)>)
    ensures r.Some? ==> |r.value.1| < |s|
  {
    if s == "" then None
    else if s[0] == '"' then Some(("", s[1..]))
    else if !IsPlain(s[0]) then None
    else
      var r := TakeText(s[1..]);
      if r.None? then None else Some(([s[0]] + r.value.0, r.value.1))
  }

  /** An integer literal: an optional minus, then digits without a leading zero. */
  function TakeNumber(s: string): (r: Option<(string, string)>)
    ensures r.Some? ==> |r.value.1| < |s|
  {
    var sign := if s != "" && s[0] == '-' then 1 else 0;
    var n := CountDigits(s[sign..]);
    if n == 0 || (n > 1 && s[sign] == '0') then None else Some((s[..sign + n], s[sign + n..]))
  }

  function TakeItem(s: string): (r: Option<(Item, string)>)
    ensures r.Some? ==> |r.value.1| < |s|
  {
    if s == "" then None
    else if s[0] == '"' then
      var r := TakeText(s[1..]);
      if r.None? then None else Some((Text(r.value.0), r.value.1))
    else if "null" <= s then Some((Null, s[4..]))
    else
      var r := TakeNumber(s);
      if r.None? then None else Some((Number(r.value.0), r.value.1))
  }

  /** What follows an item: a comma and more items, or the end of the array and of the text. */
  function TakeTail(s: string): Option<seq<Item>>
    decreases |s|
  {
    var t := SkipSpace(s);
    if t == "" then None
    else if t[0] == ']' then if SkipSpace(t[1..]) == "" then Some([]) else None
    else if t[0] != ',' then None
    else
      var item := TakeItem(SkipSpace(t[1..]));
      if item.None? then None
      else
        var rest := TakeTail(item.value.1);
        if rest.None? then None else Some([item.value.0] + rest.value)
  }

  /** The items of an array; `null` reads as an empty slice. */
  function TakeArray(b: string): Option<seq<Item>> {
    var s := SkipSpace(b);
    if "null" <= s && SkipSpace(s[4..]) == "" then Some([])
    else if s == "" || s[0] != '[' then None
    else
      var t := SkipSpace(s[1..]);
      if t != "" && t[0] == ']' then if SkipSpace(t[1..]) == "" then Some([]) else None
      else
        var item := TakeItem(t);
        if item.None? then None
        else
          var rest := TakeTail(item.value.1);
          if rest.None? then None else Some([item.value.0] + rest.value)
  }

  /** json.Unmarshal into []string: null leaves the zero value. */
  function AsStrings(items: seq<Item>): Option<seq<string>> {
    if exists x | x in items :: x.Number? then None
    else
      Some(seq(|items|, i requires 0 <= i < |items| =>
        if items[i].Text? then items[i].s else ""))
  }

  /** json.Unmarshal into []int64 or []uint64. */
  function AsNumbers(w: Width, items: seq<Item>): Option<seq<int>> {
    if exists x | x in items :: x.Text? || (x.Number? && ParseNumber(w, x.digits).None?) then None
    else
      Some(seq(|items|, i requires 0 <= i < |items| =>
        if items[i].Number? && ParseNumber(w, items[i].digits).Some? then ParseNumber(w, items[i].digits).value else 0))
  }

  // ----- the slice type -----

  /** The numbers of the texts read before the first that is no number, then zeros. */
  function Filled(w: Width, values: seq<string>): (r: seq<int>)
    ensures |r| == |values|
  {
    if values == [] then []
    else if ParseNumber(w, values[0]).None? then seq(|values|, _ => 0)
    else [ParseNumber(w, values[0]).value] + Filled(w, values[1..])
  }

  predicate AllNumbers(w: Width, values: seq<string>) {
    forall v | v in values :: ParseNumber(w, v).Some?
  }

  function Quote(t: string): string {
    "\"" + t + "\""
  }

  function QuoteAll(texts: seq<string>): (q: seq<string>)
    ensures |q| == |texts| && forall i | 0 <= i < |texts| :: q[i] == Quote(texts[i])
  {
    seq(|texts|, i requires 0 <= i < |texts| => Quote(texts[i]))
  }

  function Printed(xs: seq<int>): (t: seq<string>)
    ensures |t| == |xs| && forall i | 0 <= i < |xs| :: t[i] == PrintInt(xs[i])
  {
    seq(|xs|, i requires 0 <= i < |xs| => PrintInt(xs[i]))
  }

  function ArrayOf(texts: seq<string>): string {
    "[" + Join(QuoteAll(texts), ",") + "]"
  }

  /** The printed text of a list. */
  function Marshalled(xs: seq<int>): string {
    ArrayOf(Printed(xs))
  }

  /** What reading b leaves in a slice that held `before`, and whether it succeeded. */
  function Unmarshalled(w: Width, b: string, before: seq<int>): (bool, seq<int>) {
    var items := TakeArray(b);
    if items.None? then (false, before)
    else if AsStrings(items.value).Some? then
      var values := AsStrings(items.value).value;
      (AllNumbers(w, values), Filled(w, values))
    else
      var numbers := AsNumbers(w, items.value);
      if numbers.None? then (false, before) else (true, numbers.value)
  }

  class Slice {
    const width: Width
    var items: array<int>

    constructor (w: Width, xs: seq<int>)
      ensures width == w && items[..] == xs && fresh(items)
    {
      width := w;
      items := new int[|xs|](i requires 0 <= i < |xs| => xs[i]);
    }

    method MarshalJSON() returns (b: string)
      ensures b == Marshalled(items[..])
    {
      var values := new string[items.Length];
      for i := 0 to items.Length
        invariant items[..] == old(items[..])
        invariant forall k | 0 <= k < i :: values[k] == Quote(PrintInt(items[k]))
      {
        values[i] := Quote(PrintInt(items[i]));
      }
      assert values[..] == QuoteAll(Printed(items[..]));
      b := "[" + Join(values[..], ",") + "]";
    }

    method UnmarshalJSON(b: string) returns (ok: bool)
      modifies this
      ensures (ok, items[..]) == Unmarshalled(width, b, old(items[..]))
      ensures items != old(items) ==> fresh(items)
    {
      var parsed := TakeArray(b);
      if parsed.None? {
        return false;
      }
      var strings := AsStrings(parsed.value);
      if strings.None? {
        var numbers := AsNumbers(width, parsed.value);
        if numbers.None? {
          return false;
        }
        items := new int[|numbers.value|](i requires 0 <= i < |numbers.value| => numbers.value[i]);
        assert items[..] == numbers.value;
        return true;
      }
      ok := Fill(strings.value);
    }

    /** Reads the texts one by one into a new array; stops at the first that is no number. */
    method Fill(values: seq<string>) returns (ok: bool)
      modifies this
      ensures ok <==> AllNumbers(width, values)
      ensures items[..] == Filled(width, values) && fresh(items)
    {
      items := new int[|values|](_ => 0);
      for i := 0 to |values|
        invariant fresh(items) && items.Length == |values|
        invariant forall k | i <= k < |values| :: items[k] == 0
        invariant forall k | 0 <= k < i :: ParseNumber(width, values[k]) == Some(items[k])
      {
        var value := ParseNumber(width, values[i]);
        if value.None? {
          FilledUpTo(width, values, i, items[..]);
          assert values[i] in values;
          return false;
        }
        items[i] := value.value;
      }
      FilledUpTo(width, values, |values|, items[..]);
      return true;
    }
  }

  lemma {:induction false} FilledUpTo(w: Width, values: seq<string>, n: nat, r: seq<int>)
    requires n <= |values| == |r|
    requires forall k | 0 <= k < n :: ParseNumber(w, values[k]) == Some(r[k])
    requires forall k | n <= k < |r| :: r[k] == 0
    requires n < |values| ==> ParseNumber(w, values[n]).None?
    ensures r == Filled(w, values)
    decreases n
  {
    if n > 0 {
      FilledUpTo(w, values[1..], n - 1, r[1..]);
      assert r == [r[0]] + r[1..];
    }
  }

  // ----- reading back -----

  lemma {:induction false} TextIsTaken(x: string, rest: string)
    requires forall k | 0 <= k < |x| :: IsPlain(x[k])
    ensures TakeText(x + "\"" + rest) == Some((x, rest))
  {
    var s := x + "\"" + rest;
    if x != "" {
      TextIsTaken(x[1..], rest);
      assert s[1..] == x[1..] + "\"" + rest;
      assert x == [x[0]] + x[1..];
    } else {
      assert s[1..] == rest;
    }
  }

  lemma PrintIntIsPlain(n: int)
    ensures forall k | 0 <= k < |PrintInt(n)| :: IsPlain(PrintInt(n)[k])
  {
    var m := if n < 0 then -n else n;
    PrintIsDigits(m, 10);
    forall k | 0 <= k < |Print(m, 10)|
      ensures IsPlain(Print(m, 10)[k])
    {
      assert IsDigit(Print(m, 10)[k], 10);
    }
  }

  // ----- arrays of tokens -----

  ghost predicate EndsItem(rest: string) {
    rest != "" && (rest[0] == ',' || rest[0] == ']')
  }

  /** In front of a comma or a closing bracket, the token reads as the item. */
  ghost predicate Reads(token: string, item: Item) {
    token != "" && token[0] != ']' && SkipSpace(token) == token
    && forall rest | EndsItem(rest) :: TakeItem(token + rest) == Some((item, rest))
  }

  ghost predicate AllRead(tokens: seq<string>, items: seq<Item>) {
    |tokens| == |items| && forall i | 0 <= i < |tokens| :: Reads(tokens[i], items[i])
  }

  /** What follows an item in a printed array, before the closing bracket. */
  function More(tokens: seq<string>): string {
    if tokens == [] then "" else "," + Join(tokens, ",")
  }

  lemma FirstIsTaken(tokens: seq<string>, items: seq<Item>)
    requires tokens != [] && AllRead(tokens, items)
    ensures var s := Join(tokens, ",") + "]";
            SkipSpace(s) == s && s[0] != ']' && TakeItem(s) == Some((items[0], More(tokens[1..]) + "]"))
  {
    var rest := More(tokens[1..]) + "]";
    JoinHead(tokens, ",");
    assert Join(tokens, ",") + "]" == tokens[0] + rest;
    assert Reads(tokens[0], items[0]) && EndsItem(rest);
  }

  lemma TailStart(tokens: seq<string>)
    requires tokens != []
    ensures var s := More(tokens) + "]"; s[0] == ',' && SkipSpace(s) == s && s[1..] == Join(tokens, ",") + "]"
  {
  }

  lemma {:induction false} TailIsTaken(tokens: seq<string>, items: seq<Item>)
    requires AllRead(tokens, items)
    ensures TakeTail(More(tokens) + "]") == Some(items)
  {
    var s := More(tokens) + "]";
    if tokens == [] {
      assert s == "]" && s[1..] == "" && items == [];
    } else {
      TailStart(tokens);
      FirstIsTaken(tokens, items);
      TailIsTaken(tokens[1..], items[1..]);
      assert items == [items[0]] + items[1..];
    }
  }

  lemma ArrayStart(inner: string)
    ensures var s := "[" + inner + "]"; SkipSpace(s) == s && s[0] == '[' && !("null" <= s) && s[1..] == inner + "]"
  {
  }

  /** An array of tokens reads back as its items. */
  lemma ArrayIsTaken(tokens: seq<string>, items: seq<Item>)
    requires AllRead(tokens, items)
    ensures TakeArray("[" + Join(tokens, ",") + "]") == Some(items)
  {
    ArrayStart(Join(tokens, ","));
    if tokens == [] {
      assert Join(tokens, ",") + "]" == "]" && "]"[1..] == "" && items == [];
    } else {
      FirstIsTaken(tokens, items);
      TailIsTaken(tokens[1..], items[1..]);
      assert items == [items[0]] + items[1..];
    }
  }

  // ----- the tokens of numbers -----

  lemma QuoteReads(n: int)
    ensures Reads(Quote(PrintInt(n)), Text(PrintInt(n)))
  {
    var t := PrintInt(n);
    PrintIntIsPlain(n);
    forall rest | EndsItem(rest)
      ensures TakeItem(Quote(t) + rest) == Some((Text(t), rest))
    {
      TextIsTaken(t, rest);
      assert (Quote(t) + rest)[1..] == t + "\"" + rest;
    }
  }

  lemma {:induction false} DigitsAreCounted(d: string, rest: string)
    requires forall k | 0 <= k < |d| :: '0' <= d[k] <= '9'
    requires rest != "" ==> !('0' <= rest[0] <= '9')
    ensures CountDigits(d + rest) == |d|
  {
    if d != "" {
      DigitsAreCounted(d[1..], rest);
      assert (d + rest)[1..] == d[1..] + rest;
    } else {
      assert d + rest == rest;
    }
  }

  lemma {:induction false} NoLeadingZero(n: nat)
    ensures |Print(n, 10)| > 1 ==> Print(n, 10)[0] != '0'
    ensures Print(n, 10)[0] == '0' ==> n == 0
  {
    if n >= 10 {
      NoLeadingZero(n / 10);
    }
  }

  lemma LiteralIsTaken(sign: string, d: string, rest: string)
    requires (sign == "" || sign == "-") && d != "" && (forall k | 0 <= k < |d| :: '0' <= d[k] <= '9')
    requires EndsItem(rest) && (|d| > 1 ==> d[0] != '0')
    ensures TakeNumber(sign + d + rest) == Some((sign + d, rest))
  {
    var s := sign + d + rest;
    assert s[|sign|..] == d + rest;
    DigitsAreCounted(d, rest);
    assert s[..|sign| + |d|] == sign + d && s[|sign| + |d|..] == rest;
  }

  lemma NumberIsTaken(n: int, rest: string)
    requires EndsItem(rest)
    ensures TakeNumber(PrintInt(n) + rest) == Some((PrintInt(n), rest))
  {
    var m := if n < 0 then -n else n;
    PrintIsDigits(m, 10);
    forall k | 0 <= k < |Print(m, 10)|
      ensures '0' <= Print(m, 10)[k] <= '9'
    {
      assert IsDigit(Print(m, 10)[k], 10);
    }
    NoLeadingZero(m);
    LiteralIsTaken(if n < 0 then "-" else "", Print(m, 10), rest);
    assert "" + Print(m, 10) == Print(m, 10);
  }

  lemma NumberReads(n: int)
    ensures Reads(PrintInt(n), Number(PrintInt(n)))
  {
    PrintIsDigits(if n < 0 then -n else n, 10);
    assert IsDigit(Print(if n < 0 then -n else n, 10)[0], 10);
    forall rest | EndsItem(rest)
      ensures TakeItem(PrintInt(n) + rest) == Some((Number(PrintInt(n)), rest))
    {
      NumberIsTaken(n, rest);
      assert (PrintInt(n) + rest)[0] == PrintInt(n)[0];
      assert "null"[0] == 'n';
    }
  }

  // ----- round trips -----

  lemma FilledWithPrinted(w: Width, xs: seq<int>)
    requires forall x | x in xs :: InRange(w, x)
    ensures AllNumbers(w, Printed(xs)) && Filled(w, Printed(xs)) == xs
  {
    forall k | 0 <= k < |xs|
      ensures ParseNumber(w, Printed(xs)[k]) == Some(xs[k])
    {
      assert xs[k] in xs;
      NumberRoundTrip(w, xs[k]);
    }
    FilledUpTo(w, Printed(xs), |xs|, xs);
  }

  /** Reading what was printed gives the list back, for both element types and whatever was there before. */
  lemma MarshalRoundTrip(w: Width, xs: seq<int>, before: seq<int>)
    requires forall x | x in xs :: InRange(w, x)
    ensures Unmarshalled(w, Marshalled(xs), before) == (true, xs)
  {
    var items := seq(|xs|, i requires 0 <= i < |xs| => Text(PrintInt(xs[i])));
    forall i | 0 <= i < |xs|
      ensures Reads(QuoteAll(Printed(xs))[i], items[i])
    {
      QuoteReads(xs[i]);
    }
    ArrayIsTaken(QuoteAll(Printed(xs)), items);
    assert forall x | x in items :: x.Text?;
    assert AsStrings(items).value == Printed(xs);
    FilledWithPrinted(w, xs);
  }

  /** So does reading the same numbers without quotes, by way of the fallback. */
  lemma BareRoundTrip(w: Width, xs: seq<int>, before: seq<int>)
    requires forall x | x in xs :: InRange(w, x)
    ensures Unmarshalled(w, "[" + Join(Printed(xs), ",") + "]", before) == (true, xs)
  {
    var items := seq(|xs|, i requires 0 <= i < |xs| => Number(PrintInt(xs[i])));
    forall i | 0 <= i < |xs|
      ensures Reads(Printed(xs)[i], items[i]) && ParseNumber(w, items[i].digits) == Some(xs[i])
    {
      assert xs[i] in xs;
      NumberReads(xs[i]);
      NumberRoundTrip(w, xs[i]);
    }
    ArrayIsTaken(Printed(xs), items);
    BareItems(w, xs, items);
  }

  lemma BareItems(w: Width, xs: seq<int>, items: seq<Item>)
    requires |items| == |xs|
    requires forall i | 0 <= i < |xs| :: items[i].Number? && ParseNumber(w, items[i].digits) == Some(xs[i])
    ensures xs == [] || AsStrings(items).None?
    ensures AsNumbers(w, items) == Some(xs)
    ensures xs == [] ==> AsStrings(items) == Some([])
  {
    if xs != [] {
      assert items[0] in items;
    }
    forall x | x in items
      ensures x.Number? && ParseNumber(w, x.digits).Some?
    {
    }
    assert AsNumbers(w, items).value == xs;
    assert xs == [] ==> AsStrings(items).value == [];
  }
}
