/** The check of a panel's naming scheme: which placeholders it contains, and which are allowed. */
module NamingScheme {
  import opened Wrappers
  import opened Digits
  import opened Strings

  // ----- finding placeholders -----

  /** The expression %([^%]+)% matches s from i to j. */
  ghost predicate MatchAt(s: string, i: int, j: int) {
    0 <= i && i + 1 < j < |s| && s[i] == '%' && s[j] == '%' && forall k | i < k < j :: s[k] != '%'
  }

  /** The position of the first percent sign, or the length. */
  function NextPercent(s: string): (n: nat)
    ensures n <= |s| && (n < |s| ==> s[n] == '%') && forall k | 0 <= k < n :: s[k] != '%'
  {
    if s == "" || s[0] == '%' then 0 else 1 + NextPercent(s[1..])
  }

  /** FindAllStringSubmatch: the captured texts of the leftmost non-overlapping matches. */
  function FindAll(s: string): seq<string>
    decreases |s|
  {
    if s == "" then []
    else if s[0] != '%' then FindAll(s[1..])
    else
      var n := NextPercent(s[1..]);
      if 0 < n < |s| - 1 then [s[1..n + 1]] + FindAll(s[n + 2..]) else FindAll(s[1..])
  }

  lemma MatchShift(s: string, i: int, j: int, d: nat)
    requires d <= |s| && i >= d
    ensures MatchAt(s, i, j) <==> MatchAt(s[d..], i - d, j - d)
  {
  }

  /** A match is the first, at i, if no match starts before. */
  ghost predicate FirstMatch(s: string, i: int, j: int) {
    MatchAt(s, i, j) && forall a, b | MatchAt(s, a, b) :: i <= a
  }

  lemma MatchAtStart(s: string, n: nat)
    requires s != "" && s[0] == '%' && 0 < n < |s| - 1 && n == NextPercent(s[1..])
    ensures MatchAt(s, 0, n + 1)
    ensures forall i, j | FirstMatch(s, i, j) :: i == 0 && j == n + 1
  {
  }

  lemma FirstMatchShift(s: string, i: int, j: int)
    requires s != "" && (forall b :: !MatchAt(s, 0, b)) && FirstMatch(s, i, j)
    ensures i >= 1 && FirstMatch(s[1..], i - 1, j - 1) && s[i + 1..j] == s[1..][i..j - 1] && s[j + 1..] == s[1..][j..]
  {
    MatchShift(s, i, j, 1);
    forall a, b | MatchAt(s[1..], a, b)
      ensures i - 1 <= a
    {
      MatchShift(s, a + 1, b + 1, 1);
    }
    SliceShift(s, i, j - 1);
  }

  lemma SliceShift(s: string, i: nat, j: nat)
    requires i <= j < |s| - 1
    ensures s[1..][i..j] == s[i + 1..j + 1] && s[1..][j + 1..] == s[j + 2..]
  {
  }

  lemma SomeMatchShift(s: string)
    requires s != "" && forall b :: !MatchAt(s, 0, b)
    ensures (forall i, j :: !MatchAt(s, i, j)) <==> forall i, j :: !MatchAt(s[1..], i, j)
  {
    if i, j :| MatchAt(s, i, j) {
      MatchShift(s, i, j, 1);
    }
    if i, j :| MatchAt(s[1..], i, j) {
      MatchShift(s, i + 1, j + 1, 1);
    }
  }

  /** Without a match nothing is found; otherwise the leftmost match, then what follows its end. */
  lemma {:induction false} FindAllIsLeftmost(s: string)
    ensures FindAll(s) == [] <==> forall i, j :: !MatchAt(s, i, j)
    ensures forall i, j | FirstMatch(s, i, j) :: FindAll(s) == [s[i + 1..j]] + FindAll(s[j + 1..])
    decreases |s|
  {
    if s != "" {
      var n := NextPercent(s[1..]);
      if s[0] == '%' && 0 < n < |s| - 1 {
        MatchAtStart(s, n);
      } else {
        FindAllIsLeftmost(s[1..]);
        NoMatchAtStart(s);
        SomeMatchShift(s);
        forall i, j | FirstMatch(s, i, j)
          ensures FindAll(s) == [s[i + 1..j]] + FindAll(s[j + 1..])
        {
          FirstMatchShift(s, i, j);
        }
      }
    }
  }

  lemma NoMatchAtStart(s: string)
    requires s != "" && !(s[0] == '%' && 0 < NextPercent(s[1..]) < |s| - 1)
    ensures forall j :: !MatchAt(s, 0, j)
  {
  }

  // ----- the same placeholders, from the text cut at its percent signs -----

  /** Takes a non-empty closed segment and skips two, otherwise skips one. */
  function Walk(segments: seq<string>): seq<string>
    decreases |segments|
  {
    if |segments| < 2 then []
    else if segments[0] != "" then [segments[0]] + Walk(segments[2..])
    else Walk(segments[1..])
  }

  lemma {:induction false} PiecesAtPercent(s: string)
    ensures var n := NextPercent(s);
            Pieces(s, "%") == if n == |s| then [s] else [s[..n]] + Pieces(s[n + 1..], "%")
    decreases |s|
  {
    if s != "" {
      if s[0] == '%' {
        assert s[..1] == "%";
        assert s[..0] == "";
      } else {
        assert s[..1][0] != "%"[0];
        PiecesAtPercent(s[1..]);
        var n := NextPercent(s[1..]);
        assert s == [s[0]] + s[1..];
        if n < |s| - 1 {
          assert [s[0]] + s[1..][..n] == s[..n + 1];
          assert s[1..][n + 1..] == s[n + 2..];
          assert ([s[1..][..n]] + Pieces(s[n + 2..], "%"))[1..] == Pieces(s[n + 2..], "%");
        }
      }
    }
  }

  /** The scan finds exactly the segments the walk takes, for every text. */
  lemma {:induction false} FindAllIsWalk(s: string)
    ensures FindAll(s) == Walk(Pieces(s, "%")[1..])
    decreases |s|
  {
    if s == "" {
    } else if s[0] != '%' {
      FindAllIsWalk(s[1..]);
      assert s[..1][0] != "%"[0];
      assert ([[s[0]] + Pieces(s[1..], "%")[0]] + Pieces(s[1..], "%")[1..])[1..] == Pieces(s[1..], "%")[1..];
    } else {
      var t := s[1..];
      assert s[..1] == "%";
      assert ([""] + Pieces(t, "%"))[1..] == Pieces(t, "%");
      PiecesAtPercent(t);
      var n := NextPercent(t);
      if 0 < n < |t| {
        assert t[n + 1..] == s[n + 2..] && t[..n] == s[1..n + 1];
        FindAllIsWalk(s[n + 2..]);
        assert ([t[..n]] + Pieces(t[n + 1..], "%"))[2..] == Pieces(t[n + 1..], "%")[1..];
      } else {
        FindAllIsWalk(t);
        if n == 0 && t != "" {
          assert t[..0] == "";
          assert ([""] + Pieces(t[1..], "%"))[1..] == Pieces(t[1..], "%");
        }
      }
    }
  }

  // ----- the four placeholder languages -----

  const FORMAT_CHARS := "ymd-/._ "

  /** ^[a-z_]+$ */
  predicate IsSimple(c: string) {
    c != "" && forall k | 0 <= k < |c| :: 'a' <= c[k] <= 'z' || c[k] == '_'
  }

  /** [ymd\-/._ ]+ */
  predicate IsFormat(f: string) {
    f != "" && forall k | 0 <= k < |f| :: f[k] in FORMAT_CHARS
  }

  /** \d+(?::([ymd\-/._ ]+))?$ */
  predicate IsCountAndFormat(t: string) {
    var n := CountDigits(t);
    n > 0 && (n == |t| || (t[n] == ':' && IsFormat(t[n + 1..])))
  }

  /** ^date:([ymd\-/._ ]+)$ */
  predicate IsDateFormat(c: string) {
    "date:" <= c && IsFormat(c[5..])
  }

  /** ^date_(days|weeks|months):(-?\d+)(?::([ymd\-/._ ]+))?$ */
  predicate IsDateOffset(c: string) {
    || ("date_days:" <= c && IsCountAndFormat(TrimPrefix(c[10..], "-")))
    || ("date_weeks:" <= c && IsCountAndFormat(TrimPrefix(c[11..], "-")))
    || ("date_months:" <= c && IsCountAndFormat(TrimPrefix(c[12..], "-")))
  }

  /** ^date_timestamp:(\d+)(?::([ymd\-/._ ]+))?$ */
  predicate IsDateTimestamp(c: string) {
    "date_timestamp:" <= c && IsCountAndFormat(c[15..])
  }

  const SIMPLE_PLACEHOLDERS :=
    ["id", "username", "nickname", "id_padded", "claimed", "claim_indicator", "claimed_by", "date"]

  /** No text is in two of the languages. */
  lemma LanguagesAreDisjoint(c: string)
    ensures !(IsSimple(c) && (IsDateFormat(c) || IsDateOffset(c) || IsDateTimestamp(c)))
    ensures !(IsDateFormat(c) && (IsDateOffset(c) || IsDateTimestamp(c)))
    ensures !(IsDateOffset(c) && IsDateTimestamp(c))
  {
    if "date:" <= c {
      assert c[4] == "date:"[4] == ':';
    }
    if "date_days:" <= c {
      assert c[5] == "date_days:"[5] == 'd' && c[9] == "date_days:"[9] == ':';
    }
    if "date_weeks:" <= c {
      assert c[5] == "date_weeks:"[5] == 'w' && c[10] == "date_weeks:"[10] == ':';
    }
    if "date_months:" <= c {
      assert c[5] == "date_months:"[5] == 'm' && c[11] == "date_months:"[11] == ':';
    }
    if "date_timestamp:" <= c {
      assert c[5] == "date_timestamp:"[5] == 't' && c[14] == "date_timestamp:"[14] == ':';
    }
    if "date_days:" <= c || "date_weeks:" <= c || "date_months:" <= c || "date_timestamp:" <= c {
      assert c[4] == '_';
    }
  }

  /** What a placeholder may be, stated without an order of checks. */
  predicate IsAllowed(c: string) {
    (IsSimple(c) && c in SIMPLE_PLACEHOLDERS) || IsDateFormat(c) || IsDateOffset(c) || IsDateTimestamp(c)
  }

  // ----- the languages by their words -----

  ghost predicate IsFormatText(f: string) {
    f != "" && forall k | 0 <= k < |f| :: f[k] in ['y', 'm', 'd', '-', '/', '.', '_', ' ']
  }

  ghost predicate IsNumeral(n: string) {
    n != "" && forall k | 0 <= k < |n| :: '0' <= n[k] <= '9'
  }

  /** Nothing, or a colon and a format. */
  ghost predicate IsSuffix(f: string) {
    f == "" || (f[0] == ':' && IsFormatText(f[1..]))
  }

  ghost predicate SplitsAt(t: string, i: int) {
    0 <= i <= |t| && IsNumeral(t[..i]) && IsSuffix(t[i..])
  }

  ghost predicate IsNumeralThenSuffix(t: string) {
    exists i :: SplitsAt(t, i)
  }

  lemma FormatIff(f: string)
    ensures IsFormat(f) <==> IsFormatText(f)
  {
    forall c: char
      ensures c in FORMAT_CHARS <==> c in ['y', 'm', 'd', '-', '/', '.', '_', ' ']
    {
      assert FORMAT_CHARS == ['y', 'm', 'd', '-', '/', '.', '_', ' '];
    }
  }

  lemma {:induction false} DigitsFirst(n: string, f: string)
    requires (forall k | 0 <= k < |n| :: '0' <= n[k] <= '9') && (f != "" ==> !('0' <= f[0] <= '9'))
    ensures CountDigits(n + f) == |n|
  {
    if n != "" {
      DigitsFirst(n[1..], f);
      assert (n + f)[1..] == n[1..] + f;
    } else {
      assert n + f == f;
    }
  }

  lemma {:induction false} CountedAreDigits(t: string)
    ensures forall k | 0 <= k < CountDigits(t) :: '0' <= t[k] <= '9'
  {
    if t != "" && '0' <= t[0] <= '9' {
      CountedAreDigits(t[1..]);
    }
  }

  lemma CountAndFormatIff(t: string)
    ensures IsCountAndFormat(t) <==> IsNumeralThenSuffix(t)
  {
    var m := CountDigits(t);
    if m < |t| {
      FormatIff(t[m + 1..]);
      assert t[m..][1..] == t[m + 1..];
    }
    if IsCountAndFormat(t) {
      CountedAreDigits(t);
      assert SplitsAt(t, m);
    }
    if i :| SplitsAt(t, i) {
      DigitsFirst(t[..i], t[i..]);
      assert t == t[..i] + t[i..];
    }
  }

  /** An optional minus in front. */
  ghost predicate IsOffsetText(t: string) {
    exists s :: (t == s || t == "-" + s) && IsNumeralThenSuffix(s)
  }

  lemma OffsetIff(t: string)
    ensures IsCountAndFormat(TrimPrefix(t, "-")) <==> IsOffsetText(t)
  {
    var s := TrimPrefix(t, "-");
    CountAndFormatIff(s);
    assert t == s || t == "-" + s;
    if u :| (t == u || t == "-" + u) && IsNumeralThenSuffix(u) {
      if t == u {
        var i :| SplitsAt(u, i);
        assert u[0] == u[..i][0] != "-"[0];
        assert s == u;
      } else {
        assert ("-" + u)[1..] == u;
        assert s == u;
      }
    }
  }

  lemma PrefixIff(c: string, p: string)
    ensures p <= c <==> exists t :: c == p + t
    ensures p <= c ==> c == p + c[|p|..]
    ensures forall t | c == p + t :: t == c[|p|..]
  {
    if p <= c {
      assert c == p + c[|p|..];
    }
  }

  /** The exact list of what a placeholder may be. */
  lemma AllowedIff(c: string)
    ensures IsAllowed(c) <==>
            || c in ["id", "username", "nickname", "id_padded", "claimed", "claim_indicator", "claimed_by", "date"]
            || (exists f :: c == "date:" + f && IsFormatText(f))
            || (exists t ::
                  (c == "date_days:" + t || c == "date_weeks:" + t || c == "date_months:" + t) && IsOffsetText(t))
            || (exists t :: c == "date_timestamp:" + t && IsNumeralThenSuffix(t))
  {
    SimpleIff(c);
    DateFormatIff(c);
    DateOffsetIff(c);
    TimestampIff(c);
  }

  lemma SimpleIff(c: string)
    ensures IsSimple(c) && c in SIMPLE_PLACEHOLDERS <==>
            c in ["id", "username", "nickname", "id_padded", "claimed", "claim_indicator", "claimed_by", "date"]
  {
    assert SIMPLE_PLACEHOLDERS
        == ["id", "username", "nickname", "id_padded", "claimed", "claim_indicator", "claimed_by", "date"];
  }

  lemma DateFormatIff(c: string)
    ensures IsDateFormat(c) <==> exists f :: c == "date:" + f && IsFormatText(f)
  {
    PrefixIff(c, "date:");
    if "date:" <= c {
      FormatIff(c[5..]);
    }
  }

  lemma DateOffsetIff(c: string)
    ensures IsDateOffset(c) <==>
            exists t :: (c == "date_days:" + t || c == "date_weeks:" + t || c == "date_months:" + t) && IsOffsetText(t)
  {
    PrefixIff(c, "date_days:");
    PrefixIff(c, "date_weeks:");
    PrefixIff(c, "date_months:");
    if "date_days:" <= c {
      OffsetIff(c[10..]);
    }
    if "date_weeks:" <= c {
      OffsetIff(c[11..]);
    }
    if "date_months:" <= c {
      OffsetIff(c[12..]);
    }
  }

  lemma TimestampIff(c: string)
    ensures IsDateTimestamp(c) <==> exists t :: c == "date_timestamp:" + t && IsNumeralThenSuffix(t)
  {
    PrefixIff(c, "date_timestamp:");
    if "date_timestamp:" <= c {
      CountAndFormatIff(c[15..]);
    }
  }

  // ----- the order of the checks -----

  datatype Language = Simple | Format | Offset | Timestamp

  predicate IsIn(c: string, l: Language) {
    match l
    case Simple => IsSimple(c)
    case Format => IsDateFormat(c)
    case Offset => IsDateOffset(c)
    case Timestamp => IsDateTimestamp(c)
  }

  predicate Passes(c: string, l: Language) {
    IsIn(c, l) && (l == Simple ==> c in SIMPLE_PLACEHOLDERS)
  }

  /** The first language the text is in decides. */
  predicate Decide(c: string, order: seq<Language>) {
    order != [] && if IsIn(c, order[0]) then Passes(c, order[0]) else Decide(c, order[1..])
  }

  lemma OnlyLanguage(c: string, l: Language, m: Language)
    requires IsIn(c, l) && IsIn(c, m)
    ensures l == m
  {
    LanguagesAreDisjoint(c);
  }

  lemma {:induction false} DecidedIff(c: string, order: seq<Language>)
    ensures Decide(c, order) <==> exists l | l in order :: Passes(c, l)
  {
    if order != [] {
      DecidedIff(c, order[1..]);
      assert order == [order[0]] + order[1..];
      forall l | IsIn(c, l) && IsIn(c, order[0])
        ensures l == order[0]
      {
        OnlyLanguage(c, l, order[0]);
      }
    }
  }

  /** Checking the four languages in any order accepts the same placeholders. */
  lemma OrderIsIrrelevant(c: string, order: seq<Language>)
    requires forall l: Language :: l in order
    ensures Decide(c, order) <==> IsAllowed(c)
  {
    DecidedIff(c, order);
    assert Passes(c, Simple) || Passes(c, Format) || Passes(c, Offset) || Passes(c, Timestamp) <==> IsAllowed(c);
  }

  // ----- the validator -----

  method ValidatePlaceholder(content: string) returns (ok: bool)
    ensures ok <==> IsAllowed(content)
  {
    if IsDateOffset(content) {
      return true;
    }
    if IsDateTimestamp(content) {
      return true;
    }
    if IsDateFormat(content) {
      return true;
    }
    if IsSimple(content) {
      return content in SIMPLE_PLACEHOLDERS;
    }
    return false;
  }

  ghost predicate AllAllowed(placeholders: seq<string>) {
    forall c | c in placeholders :: IsAllowed(c)
  }

  method ValidateNamingScheme(namingScheme: Option<string>) returns (ok: bool)
    ensures ok <==> (namingScheme.None? || (|namingScheme.value| <= 100 && AllAllowed(FindAll(namingScheme.value))))
    ensures ok && namingScheme.Some? ==> AllAllowed(Walk(Pieces(namingScheme.value, "%")[1..]))
  {
    if namingScheme.None? {
      return true;
    }
    if |namingScheme.value| > 100 {
      return false;
    }
    var matches := FindAll(namingScheme.value);
    FindAllIsWalk(namingScheme.value);
    ok := true;
    for i := 0 to |matches|
      invariant AllAllowed(matches[..i])
    {
      assert matches[..i + 1] == matches[..i] + [matches[i]];
      var allowed := ValidatePlaceholder(matches[i]);
      if !allowed {
        return false;
      }
    }
    assert matches[..|matches|] == matches;
    return true;
  }
}
