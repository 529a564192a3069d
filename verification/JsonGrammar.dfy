/** The reader of the id lists accepts exactly the arrays of the grammar, white space included. */
module JsonGrammar {
  import opened Wrappers
  import opened Digits
  import opened Strings
  import opened JsonNumbers

  // ----- the grammar -----

  predicate IsSpaceChar(c: char) {
    c == ' ' || c == '\t' || c == '\n' || c == '\r'
  }

  ghost predicate IsSpace(w: string) {
    forall k | 0 <= k < |w| :: IsSpaceChar(w[k])
  }

  /** r is what follows some white space at the start of s. */
  ghost predicate Follows(s: string, r: string) {
    |r| <= |s| && s[|s| - |r|..] == r && IsSpace(s[..|s| - |r|])
  }

  ghost predicate AllDigits(d: string) {
    d != "" && forall k | 0 <= k < |d| :: '0' <= d[k] <= '9'
  }

  /** An integer literal: an optional minus, and digits without a leading zero. */
  ghost predicate IsLiteral(d: string) {
    var m := if d != "" && d[0] == '-' then d[1..] else d;
    AllDigits(m) && (|m| > 1 ==> m[0] != '0')
  }

  ghost predicate IsToken(t: string, item: Item) {
    match item
    case Text(s) => t == "\"" + s + "\"" && forall k | 0 <= k < |s| :: s[k] != '"' && s[k] != '\\' && s[k] >= ' '
    case Number(d) => t == d && IsLiteral(d)
    case Null => t == "null"
  }

  /** s is white space, a token for the item, and the rest. */
  ghost predicate ItemThen(s: string, item: Item, rest: string) {
    exists t :: IsToken(t, item) && Follows(s, t + rest)
  }

  /** After an item: a comma and more items, or the closing bracket and nothing but white space. */
  ghost predicate IsRest(s: string, items: seq<Item>)
    decreases |items|
  {
    if items == [] then exists r :: Follows(s, "]" + r) && IsSpace(r)
    else exists r, rest :: Follows(s, "," + r) && ItemThen(r, items[0], rest) && IsRest(rest, items[1..])
  }

  /** A whole text that stands for the items; null stands for none. */
  ghost predicate IsArray(s: string, items: seq<Item>) {
    || (items == [] && exists r :: Follows(s, "null" + r) && IsSpace(r))
    || exists r :: Follows(s, "[" + r) && IsItems(r, items)
  }

  ghost predicate IsItems(s: string, items: seq<Item>) {
    if items == [] then IsRest(s, [])
    else exists rest :: ItemThen(s, items[0], rest) && IsRest(rest, items[1..])
  }

  // ----- white space -----

  lemma {:induction false} SkipFollows(s: string)
    ensures Follows(s, SkipSpace(s)) && (SkipSpace(s) != "" ==> !IsSpaceChar(SkipSpace(s)[0]))
  {
    if s != "" && IsSpaceChar(s[0]) {
      SkipFollows(s[1..]);
      var r := SkipSpace(s[1..]);
      assert s[..|s| - |r|] == [s[0]] + s[1..][..|s| - 1 - |r|];
    }
  }

  lemma {:induction false} FollowsIsSkip(s: string, r: string)
    requires Follows(s, r) && r != "" && !IsSpaceChar(r[0])
    ensures SkipSpace(s) == r
  {
    if |r| < |s| {
      var w := s[..|s| - |r|];
      assert IsSpaceChar(w[0]) && w[0] == s[0];
      assert s[1..][..|s| - 1 - |r|] == w[1..];
      assert IsSpace(w[1..]);
      FollowsIsSkip(s[1..], r);
    } else {
      assert s[0..] == s;
    }
  }

  lemma {:induction false} SpaceSkipsAway(s: string)
    ensures IsSpace(s) <==> SkipSpace(s) == ""
  {
    if s != "" {
      SpaceSkipsAway(s[1..]);
      assert s == [s[0]] + s[1..];
    }
  }

  // ----- tokens -----

  lemma {:induction false} TextTaken(s: string)
    requires TakeText(s).Some?
    ensures var (x, rest) := TakeText(s).value;
            s == x + "\"" + rest && forall k | 0 <= k < |x| :: IsPlain(x[k])
  {
    if s[0] == '"' {
      assert s == "" + "\"" + s[1..];
    } else {
      TextTaken(s[1..]);
      var (x, rest) := TakeText(s[1..]).value;
      assert s == [s[0]] + (x + "\"" + rest);
      assert [s[0]] + (x + "\"" + rest) == [s[0]] + x + "\"" + rest;
    }
  }

  lemma {:induction false} CountedAreDigits(s: string)
    ensures forall k | 0 <= k < CountDigits(s) :: '0' <= s[k] <= '9'
    ensures CountDigits(s) < |s| ==> !('0' <= s[CountDigits(s)] <= '9')
  {
    if s != "" && '0' <= s[0] <= '9' {
      CountedAreDigits(s[1..]);
    }
  }

  lemma NumberTaken(s: string)
    requires TakeNumber(s).Some?
    ensures var (d, rest) := TakeNumber(s).value; s == d + rest && IsLiteral(d)
  {
    var sign := if s != "" && s[0] == '-' then 1 else 0;
    CountedAreDigits(s[sign..]);
    var n := CountDigits(s[sign..]);
    var d := s[..sign + n];
    var m := if d[0] == '-' then d[1..] else d;
    assert m == s[sign..][..n];
  }

  lemma ItemTaken(s: string)
    requires TakeItem(s).Some?
    ensures var (item, rest) := TakeItem(s).value; exists t :: IsToken(t, item) && s == t + rest
  {
    var (item, rest) := TakeItem(s).value;
    if s[0] == '"' {
      TextTaken(s[1..]);
      var t := "\"" + item.s + "\"";
      assert s == [s[0]] + s[1..] == "\"" + (item.s + "\"" + rest) == t + rest;
      assert IsToken(t, item);
    } else if "null" <= s {
      assert s == "null" + rest && IsToken("null", item);
    } else {
      NumberTaken(s);
      assert IsToken(item.digits, item);
    }
  }

  ghost predicate NoDigitFirst(rest: string) {
    rest != "" ==> !('0' <= rest[0] <= '9')
  }

  lemma QuotedIsTaken(x: string, rest: string)
    requires forall k | 0 <= k < |x| :: IsPlain(x[k])
    ensures TakeItem("\"" + x + "\"" + rest) == Some((Text(x), rest))
  {
    TextIsTaken(x, rest);
    assert ("\"" + x + "\"" + rest)[1..] == x + "\"" + rest;
  }

  lemma NullIsTaken(rest: string)
    ensures TakeItem("null" + rest) == Some((Null, rest))
  {
    assert ("null" + rest)[4..] == rest && ("null" + rest)[..4] == "null";
  }

  lemma NumeralIsTaken(d: string, rest: string)
    requires IsLiteral(d) && NoDigitFirst(rest)
    ensures TakeItem(d + rest) == Some((Number(d), rest)) && (d[0] == '-' || '0' <= d[0] <= '9')
  {
    var sign := if d[0] == '-' then "-" else "";
    var m := if d[0] == '-' then d[1..] else d;
    assert d == sign + m;
    LiteralBeforeRest(sign, m, rest);
    assert (d + rest)[0] == d[0] && "null"[0] == 'n';
  }

  /** A token in front of something that does not go on with a digit is taken whole. */
  lemma TokenIsTaken(t: string, item: Item, rest: string)
    requires IsToken(t, item) && NoDigitFirst(rest)
    ensures TakeItem(t + rest) == Some((item, rest)) && t != "" && !IsSpaceChar(t[0]) && t[0] != ']'
  {
    match item
    case Text(x) => QuotedIsTaken(x, rest);
    case Null => NullIsTaken(rest);
    case Number(d) => NumeralIsTaken(d, rest);
  }

  lemma LiteralBeforeRest(sign: string, d: string, rest: string)
    requires (sign == "" || sign == "-") && AllDigits(d) && (|d| > 1 ==> d[0] != '0') && NoDigitFirst(rest)
    ensures TakeNumber(sign + d + rest) == Some((sign + d, rest))
  {
    var s := sign + d + rest;
    assert s[|sign|..] == d + rest;
    DigitsAreCounted(d, rest);
    assert s[..|sign| + |d|] == sign + d && s[|sign| + |d|..] == rest;
  }

  // ----- arrays -----

  lemma RestStart(s: string, items: seq<Item>)
    requires IsRest(s, items)
    ensures s != "" && NoDigitFirst(s)
  {
    var r :| Follows(s, (if items == [] then "]" else ",") + r);
    var u := (if items == [] then "]" else ",") + r;
    if |u| < |s| {
      assert IsSpaceChar(s[..|s| - |u|][0]);
    } else {
      assert s == s[0..] == u;
    }
  }

  lemma ItemThenIff(s: string, item: Item, rest: string)
    requires rest != "" && NoDigitFirst(rest)
    ensures ItemThen(s, item, rest) <==> TakeItem(SkipSpace(s)) == Some((item, rest))
  {
    if t :| IsToken(t, item) && Follows(s, t + rest) {
      TokenIsTaken(t, item, rest);
      FollowsIsSkip(s, t + rest);
    }
    if TakeItem(SkipSpace(s)) == Some((item, rest)) {
      ItemTaken(SkipSpace(s));
      SkipFollows(s);
    }
  }

  lemma ItemStart(s: string, item: Item, rest: string)
    requires ItemThen(s, item, rest) && NoDigitFirst(rest)
    ensures SkipSpace(s) != "" && SkipSpace(s)[0] != ']'
  {
    var t :| IsToken(t, item) && Follows(s, t + rest);
    TokenIsTaken(t, item, rest);
    FollowsIsSkip(s, t + rest);
  }

  lemma BracketEnds(s: string)
    requires SkipSpace(s) != "" && SkipSpace(s)[0] == ']' && SkipSpace(SkipSpace(s)[1..]) == ""
    ensures IsRest(s, [])
  {
    var t := SkipSpace(s);
    SkipFollows(s);
    assert t == "]" + t[1..];
    SpaceSkipsAway(t[1..]);
  }

  lemma CommaGoesOn(s: string, r: string, item: Item, rest: string, items: seq<Item>)
    requires SkipSpace(s) == "," + r && TakeItem(SkipSpace(r)) == Some((item, rest)) && IsRest(rest, items)
    ensures IsRest(s, [item] + items)
  {
    SkipFollows(s);
    RestStart(rest, items);
    ItemThenIff(r, item, rest);
    assert ([item] + items)[1..] == items;
  }

  lemma {:induction false} TailIsRest(s: string)
    requires TakeTail(s).Some?
    ensures IsRest(s, TakeTail(s).value)
    decreases |s|
  {
    var t := SkipSpace(s);
    if t[0] == ']' {
      BracketEnds(s);
    } else {
      var (item, rest) := TakeItem(SkipSpace(t[1..])).value;
      TailIsRest(rest);
      assert t == "," + t[1..];
      CommaGoesOn(s, t[1..], item, rest, TakeTail(rest).value);
    }
  }

  lemma {:induction false} RestIsTaken(s: string, items: seq<Item>)
    requires IsRest(s, items)
    ensures TakeTail(s) == Some(items)
    decreases |items|
  {
    if items == [] {
      var r :| Follows(s, "]" + r) && IsSpace(r);
      FollowsIsSkip(s, "]" + r);
      SpaceSkipsAway(r);
      assert ("]" + r)[1..] == r;
    } else {
      var r, rest :| Follows(s, "," + r) && ItemThen(r, items[0], rest) && IsRest(rest, items[1..]);
      FollowsIsSkip(s, "," + r);
      assert ("," + r)[1..] == r;
      RestStart(rest, items[1..]);
      ItemThenIff(r, items[0], rest);
      RestIsTaken(rest, items[1..]);
      assert items == [items[0]] + items[1..];
    }
  }

  /** What follows the opening bracket. */
  function TakeItems(s: string): Option<seq<Item>> {
    var t := SkipSpace(s);
    if t != "" && t[0] == ']' then if SkipSpace(t[1..]) == "" then Some([]) else None
    else
      var item := TakeItem(t);
      if item.None? then None
      else
        var rest := TakeTail(item.value.1);
        if rest.None? then None else Some([item.value.0] + rest.value)
  }

  lemma ItemsTaken(s: string)
    requires TakeItems(s).Some?
    ensures IsItems(s, TakeItems(s).value)
  {
    var t := SkipSpace(s);
    if t != "" && t[0] == ']' {
      BracketEnds(s);
    } else {
      var (item, rest) := TakeItem(t).value;
      TailIsRest(rest);
      RestStart(rest, TakeTail(rest).value);
      ItemThenIff(s, item, rest);
      assert ([item] + TakeTail(rest).value)[1..] == TakeTail(rest).value;
    }
  }

  lemma FirstAndRest(s: string, item: Item, rest: string, items: seq<Item>)
    requires ItemThen(s, item, rest) && IsRest(rest, items)
    ensures TakeItem(SkipSpace(s)) == Some((item, rest)) && TakeTail(rest) == Some(items)
    ensures SkipSpace(s) != "" && SkipSpace(s)[0] != ']'
  {
    RestStart(rest, items);
    ItemThenIff(s, item, rest);
    ItemStart(s, item, rest);
    RestIsTaken(rest, items);
  }

  lemma NoItemsTaken(s: string)
    requires IsRest(s, [])
    ensures TakeItems(s) == Some([])
  {
    var r :| Follows(s, "]" + r) && IsSpace(r);
    FollowsIsSkip(s, "]" + r);
    SpaceSkipsAway(r);
    assert ("]" + r)[1..] == r;
  }

  lemma ItemsAreTaken(s: string, items: seq<Item>)
    requires IsItems(s, items)
    ensures TakeItems(s) == Some(items)
  {
    if items == [] {
      NoItemsTaken(s);
    } else {
      var rest :| ItemThen(s, items[0], rest) && IsRest(rest, items[1..]);
      FirstAndRest(s, items[0], rest, items[1..]);
      assert items == [items[0]] + items[1..];
    }
  }

  lemma NullOrBracket(b: string)
    ensures TakeArray(b) ==
            var s := SkipSpace(b);
            if "null" <= s && IsSpace(s[4..]) then Some([])
            else if s == "" || s[0] != '[' then None
            else TakeItems(s[1..])
  {
    if "null" <= SkipSpace(b) {
      SpaceSkipsAway(SkipSpace(b)[4..]);
    }
  }

  /** A text is read as these items if and only if the grammar makes it stand for them. */
  lemma ArrayIff(b: string, items: seq<Item>)
    ensures TakeArray(b) == Some(items) <==> IsArray(b, items)
  {
    NullOrBracket(b);
    SkipFollows(b);
    var s := SkipSpace(b);
    if TakeArray(b) == Some(items) {
      if "null" <= s && IsSpace(s[4..]) {
        assert s == "null" + s[4..];
      } else {
        assert s == "[" + s[1..];
        ItemsTaken(s[1..]);
      }
    }
    if r :| items == [] && Follows(b, "null" + r) && IsSpace(r) {
      FollowsIsSkip(b, "null" + r);
      assert ("null" + r)[4..] == r;
    }
    if r :| Follows(b, "[" + r) && IsItems(r, items) {
      FollowsIsSkip(b, "[" + r);
      assert ("[" + r)[1..] == r && ("[" + r)[0] != "null"[0];
      ItemsAreTaken(r, items);
    }
  }

  // ----- what a text reads as -----

  /** The number an item stands for: quoted or bare, in range; a bare null is zero. */
  function NumberOf(w: Width, item: Item): Option<int> {
    match item
    case Text(s) => ParseNumber(w, s)
    case Number(d) => ParseNumber(w, d)
    case Null => Some(0)
  }

  /** All items are texts, or all are bare. */
  ghost predicate AllQuoted(items: seq<Item>) {
    forall x | x in items :: x.Text?
  }

  ghost predicate AllBare(items: seq<Item>) {
    (forall x | x in items :: !x.Text?) && (items != [] ==> exists x | x in items :: x.Number?)
  }

  ghost predicate AllHaveNumbers(w: Width, items: seq<Item>) {
    forall x | x in items :: NumberOf(w, x).Some?
  }

  lemma TextsAreFilled(w: Width, items: seq<Item>, values: seq<string>)
    requires AllQuoted(items) && |values| == |items| && forall i | 0 <= i < |items| :: values[i] == items[i].s
    ensures AllNumbers(w, values) <==> AllHaveNumbers(w, items)
    ensures AllNumbers(w, values) ==>
              forall i | 0 <= i < |items| :: Some(Filled(w, values)[i]) == NumberOf(w, items[i])
  {
    forall i | 0 <= i < |items|
      ensures NumberOf(w, items[i]) == ParseNumber(w, values[i])
    {
      assert items[i] in items;
    }
    if AllHaveNumbers(w, items) {
      forall v | v in values
        ensures ParseNumber(w, v).Some?
      {
        var i :| 0 <= i < |values| && values[i] == v;
        assert items[i] in items;
      }
    }
    if AllNumbers(w, values) {
      forall i | 0 <= i < |items|
        ensures ParseNumber(w, values[i]).Some?
      {
        assert values[i] in values;
      }
      var r := seq(|values|, i requires 0 <= i < |values| => ParseNumber(w, values[i]).value);
      FilledUpTo(w, values, |values|, r);
    }
  }

  /**
   Reading an array succeeds if and only if its items are all quoted or all bare and each is a number in range, and then
   leaves these numbers. A bare null counts as zero, but not beside quoted numbers, nor when nothing else is bare.
   */
  lemma ReadsIff(w: Width, b: string, items: seq<Item>, before: seq<int>)
    requires IsArray(b, items)
    ensures var (ok, xs) := Unmarshalled(w, b, before);
            && (ok <==> (AllQuoted(items) || AllBare(items)) && AllHaveNumbers(w, items))
            && (ok ==> |xs| == |items| && forall i | 0 <= i < |xs| :: Some(xs[i]) == NumberOf(w, items[i]))
  {
    ArrayIff(b, items);
    if AsStrings(items).Some? {
      QuotedReads(w, items);
    } else {
      BareReads(w, items);
    }
  }

  /** Without a bare number: a null becomes the empty text, which is no number. */
  lemma QuotedReads(w: Width, items: seq<Item>)
    requires AsStrings(items).Some?
    ensures var values := AsStrings(items).value;
            && (AllNumbers(w, values) <==> (AllQuoted(items) || AllBare(items)) && AllHaveNumbers(w, items))
            && (AllNumbers(w, values) ==>
                  forall i | 0 <= i < |items| :: Some(Filled(w, values)[i]) == NumberOf(w, items[i]))
  {
    var values := AsStrings(items).value;
    if AllQuoted(items) {
      forall i | 0 <= i < |items|
        ensures values[i] == items[i].s
      {
        assert items[i] in items;
      }
      TextsAreFilled(w, items, values);
    } else {
      var x :| x in items && !x.Text?;
      var i :| 0 <= i < |items| && items[i] == x;
      assert values[i] == "" && values[i] in values && ParseNumber(w, "").None?;
    }
  }

  lemma BareReads(w: Width, items: seq<Item>)
    requires AsStrings(items).None?
    ensures AsNumbers(w, items).Some? <==> (AllQuoted(items) || AllBare(items)) && AllHaveNumbers(w, items)
    ensures AsNumbers(w, items).Some? ==>
              && |AsNumbers(w, items).value| == |items|
              && forall i | 0 <= i < |items| :: Some(AsNumbers(w, items).value[i]) == NumberOf(w, items[i])
  {
    var x :| x in items && x.Number?;
    if AsNumbers(w, items).Some? {
      forall i | 0 <= i < |items|
        ensures Some(AsNumbers(w, items).value[i]) == NumberOf(w, items[i])
      {
        assert items[i] in items;
      }
    }
  }

  /** Any other text is refused and leaves the slice as it was. */
  lemma OthersAreRefused(w: Width, b: string, before: seq<int>)
    requires forall items :: !IsArray(b, items)
    ensures Unmarshalled(w, b, before) == (false, before)
  {
    if TakeArray(b).Some? {
      ArrayIff(b, TakeArray(b).value);
    }
  }
}
