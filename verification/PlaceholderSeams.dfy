/** One insertion: a message in which a name completes a token, and what any such message held before. */
module PlaceholderSeams {
  import opened Strings
  import opened Placeholders

  // ----- one name: a message it completes to a token -----

  ghost predicate NoPercent(v: string) {
    forall k | 0 <= k < |v| :: v[k] != '%'
  }

  /** The name at place i of the token t, within its percent signs. */
  ghost predicate IsPart(v: string, t: string, i: int) {
    1 <= i && i + |v| < |t| && OccursAt(v, t, i)
  }

  /** The message in which the name would complete t: what precedes it in t, the placeholder, what follows. */
  function Around(t: string, i: nat, v: string, needle: string): string
    requires i + |v| <= |t|
  {
    t[..i] + needle + t[i + |v|..]
  }

  /** The percent signs of that message: at both ends, and those of the placeholder. */
  lemma PercentsAround(t: string, i: nat, v: string, needle: string, k: nat)
    requires IsToken(t) && IsToken(needle) && IsPart(v, t, i) && k < |Around(t, i, v, needle)|
    ensures Around(t, i, v, needle)[k] == '%' <==>
            k == 0 || k == i || k == i + |needle| - 1 || k == |Around(t, i, v, needle)| - 1
  {
    var c := Around(t, i, v, needle);
    if k < i {
      assert c[k] == t[k];
    } else if k < i + |needle| {
      assert c[k] == needle[k - i];
    } else {
      assert c[k] == t[k - i - |needle| + i + |v|];
    }
  }

  /** A token occurs between two percent signs that have none in between. */
  lemma TokenPercents(t: string, c: string, k: int, x: int)
    requires IsToken(t) && OccursAt(t, c, k) && k <= x < k + |t|
    ensures c[x] == '%' <==> x == k || x == k + |t| - 1
  {
    assert c[x] == c[k..k + |t|][x - k] == t[x - k];
  }

  /** That message holds three texts between neighbouring percent signs, hence no other token. */
  lemma NoTokenAround(t: string, i: nat, v: string, needle: string, w: string)
    requires IsToken(t) && IsToken(needle) && IsPart(v, t, i)
    requires IsToken(w) && w != t[..i] + "%" && w != needle && w != "%" + t[i + |v|..]
    ensures !Occurs(w, Around(t, i, v, needle))
  {
    var c := Around(t, i, v, needle);
    forall k
      ensures !OccursAt(w, c, k)
    {
      if 0 <= k && k + |w| <= |c| {
        NotHere(t, i, v, needle, w, k);
      }
    }
  }

  lemma SegmentsAround(t: string, i: nat, v: string, needle: string)
    requires IsToken(needle) && i + |v| <= |t|
    ensures var c := Around(t, i, v, needle);
            && c[0..i + 1] == t[..i] + "%"
            && c[i..i + |needle|] == needle
            && c[i + |needle| - 1..|c|] == "%" + t[i + |v|..]
  {
    var p, q := t[..i], t[i + |v|..];
    var c, m := p + needle + q, i + |needle| - 1;
    assert c[0..i + 1] == p + needle[..1];
    assert c[m + 1..] == q;
    assert c[m..] == [c[m]] + c[m + 1..] && c[m] == needle[|needle| - 1];
  }

  lemma NotHere(t: string, i: nat, v: string, needle: string, w: string, k: nat)
    requires IsToken(t) && IsToken(needle) && IsPart(v, t, i)
    requires IsToken(w) && w != t[..i] + "%" && w != needle && w != "%" + t[i + |v|..]
    requires k + |w| <= |Around(t, i, v, needle)|
    ensures !OccursAt(w, Around(t, i, v, needle), k)
  {
    var c := Around(t, i, v, needle);
    var second := i + |needle| - 1;
    SegmentsAround(t, i, v, needle);
    if OccursAt(w, c, k) {
      TokenPercents(w, c, k, k);
      PercentsAround(t, i, v, needle, k);
      var next := if k == 0 then i else if k == i then second else |c| - 1;
      PercentsAround(t, i, v, needle, next);
      PercentsAround(t, i, v, needle, k + |w| - 1);
      TokenPercents(w, c, k, k + |w| - 1);
      if next < k + |w| {
        TokenPercents(w, c, k, next);
      }
    }
  }

  /** The placeholder occurs nowhere before its place. */
  lemma NotEarlier(t: string, i: nat, v: string, needle: string, k: nat)
    requires IsToken(t) && IsToken(needle) && IsPart(v, t, i) && !(needle[..|needle| - 1] <= t) && k < i
    ensures !OccursAt(needle, Around(t, i, v, needle), k)
  {
    var c := Around(t, i, v, needle);
    if |needle| - 1 == i {
      assert c[..|needle|][..i] == t[..i] != needle[..i];
      assert c[..|needle|] != needle;
    }
    if OccursAt(needle, c, k) {
      PercentsAround(t, i, v, needle, k);
      TokenPercents(needle, c, k, k);
      PercentsAround(t, i, v, needle, k + |needle| - 1);
      TokenPercents(needle, c, k, k + |needle| - 1);
      PercentsAround(t, i, v, needle, i);
      if i < k + |needle| {
        TokenPercents(needle, c, k, i);
      }
    }
  }

  lemma NoneInEnd(q: string, needle: string)
    requires IsToken(needle) && forall k | 0 <= k < |q| - 1 :: q[k] != '%'
    ensures !Occurs(needle, q)
  {
    forall k
      ensures !OccursAt(needle, q, k)
    {
      if 0 <= k && k + |needle| <= |q| {
        assert q[k..k + |needle|][0] == q[k] != needle[0];
      }
    }
  }

  lemma ReplaceOnly(p: string, needle: string, q: string, v: string)
    requires needle != "" && !Occurs(needle, q) && forall k | 0 <= k < |p| :: !OccursAt(needle, p + needle + q, k)
    ensures ReplaceAll(p + needle + q, needle, v) == p + v + q
  {
    ReplaceFirst(p, needle, q, v);
    NothingToReplace(q, needle, v);
  }

  lemma CompletedAround(t: string, i: nat, v: string, needle: string)
    requires IsToken(t) && IsToken(needle) && IsPart(v, t, i) && !(needle[..|needle| - 1] <= t)
    ensures ReplaceAll(Around(t, i, v, needle), needle, v) == t
  {
    var p, q := t[..i], t[i + |v|..];
    forall k | 0 <= k < |p|
      ensures !OccursAt(needle, p + needle + q, k)
    {
      NotEarlier(t, i, v, needle, k);
    }
    NoneInEnd(q, needle);
    ReplaceOnly(p, needle, q, v);
    assert t == p + v + q;
  }

  // ----- one name: what a message that ends with the token held -----

  /** s holds t up to the first inserted name and from the last on, each followed or preceded by a percent sign. */
  ghost predicate Seams(t: string, v: string, s: string, i: int, j: int) {
    && i <= j && IsPart(v, t, i) && IsPart(v, t, j)
    && Occurs(t[..i] + "%", s) && Occurs("%" + t[j + |v|..], s)
  }

  /** The same of an end of t that starts s. */
  ghost predicate EndSeams(t: string, v: string, from: nat, s: string, i: int, j: int) {
    && from <= i <= j && IsPart(v, t, i) && IsPart(v, t, j)
    && t[from..i] + "%" <= s && Occurs("%" + t[j + |v|..], s)
  }

  lemma {:induction false} EndSpans(t: string, from: nat, s: string, needle: string, v: string) returns (i: int, j: int)
    requires IsToken(t) && IsToken(needle) && NoPercent(v) && 1 <= from < |t|
    requires t[from..] <= ReplaceAll(s, needle, v)
    ensures t[from..] <= s || EndSeams(t, v, from, s, i, j)
    decreases |s|
  {
    i, j := from, from;
    if |s| < |needle| {
    } else if s[..|needle|] == needle {
      var rest := s[|needle|..];
      NameInEnd(t, from, v, ReplaceAll(rest, needle, v));
      var first, last := EndSpans(t, from + |v|, rest, needle, v);
      j := if t[from + |v|..] <= rest then from else last;
      NameBefore(t, from, s, needle, v, first, last);
    } else if from + 1 < |t| {
      TailOfEnd(t, from, s[0], ReplaceAll(s[1..], needle, v));
      i, j := EndSpans(t, from + 1, s[1..], needle, v);
      OneBefore(t, from, s, v, i, j);
    }
  }

  /** An end of a token that starts with an inserted name holds the whole name. */
  lemma NameInEnd(t: string, from: nat, v: string, after: string)
    requires IsToken(t) && NoPercent(v) && 1 <= from < |t| && t[from..] <= v + after
    ensures IsPart(v, t, from) && t[from + |v|..] <= after
  {
    assert (v + after)[|t| - from - 1] == t[from..][|t| - from - 1] == '%';
    PercentPast(v, after, |t| - from - 1);
    assert (v + after)[..|v|] == v == t[from..][..|v|] == t[from..from + |v|];
    assert t[from + |v|..] == t[from..][|v|..] <= (v + after)[|v|..] == after;
  }

  lemma NameBefore(t: string, from: nat, s: string, needle: string, v: string, i: int, j: int)
    requires IsToken(needle) && needle <= s && 1 <= from && IsPart(v, t, from)
    requires t[from + |v|..] <= s[|needle|..] || EndSeams(t, v, from + |v|, s[|needle|..], i, j)
    ensures EndSeams(t, v, from, s, from, if t[from + |v|..] <= s[|needle|..] then from else j)
  {
    assert t[from..from] + "%" == "%" <= s;
    if t[from + |v|..] <= s[|needle|..] {
      PercentBefore(s, |needle|, t[from + |v|..]);
    } else {
      OccursAfter("%" + t[j + |v|..], s, |needle|);
    }
  }

  lemma TailOfEnd(t: string, from: nat, c: char, after: string)
    requires from < |t| && t[from..] <= [c] + after
    ensures t[from + 1..] <= after && t[from] == c
  {
    assert t[from + 1..] == t[from..][1..] <= ([c] + after)[1..] == after;
    assert t[from..][0] == c;
  }

  lemma OneBefore(t: string, from: nat, s: string, v: string, i: int, j: int)
    requires from + 1 < |t| && s != "" && s[0] == t[from]
    requires t[from + 1..] <= s[1..] || EndSeams(t, v, from + 1, s[1..], i, j)
    ensures t[from..] <= s || EndSeams(t, v, from, s, i, j)
  {
    assert s == [s[0]] + s[1..];
    if t[from + 1..] <= s[1..] {
      assert t[from..] == [t[from]] + t[from + 1..];
    } else {
      assert t[from..i] + "%" == [t[from]] + (t[from + 1..i] + "%");
      OccursAfter("%" + t[j + |v|..], s, 1);
    }
  }

  lemma OccursAfter(t: string, s: string, from: nat)
    requires from <= |s| && Occurs(t, s[from..])
    ensures Occurs(t, s)
  {
    var k :| OccursAt(t, s[from..], k);
    OccursLater(t, s, from, k);
  }

  lemma PercentBefore(s: string, n: nat, u: string)
    requires 1 <= n <= |s| && s[n - 1] == '%' && u <= s[n..]
    ensures Occurs("%" + u, s)
  {
    assert s[n - 1..n - 1 + |"%" + u|] == "%" + u;
    assert OccursAt("%" + u, s, n - 1);
  }

  lemma StartSpans(t: string, s: string, needle: string, v: string) returns (i: int, j: int)
    requires IsToken(t) && IsToken(needle) && NoPercent(v)
    requires |s| >= |needle| && s[..|needle|] != needle && OccursAt(t, ReplaceAll(s, needle, v), 0)
    ensures Occurs(t, s) || Seams(t, v, s, i, j)
  {
    var after := ReplaceAll(s[1..], needle, v);
    assert t[0..] == t == ([s[0]] + after)[..|t|];
    TailOfEnd(t, 0, s[0], after);
    i, j := EndSpans(t, 1, s[1..], needle, v);
    OneBefore(t, 0, s, v, i, j);
    SeamsAtStart(t, v, s, i, j);
  }

  lemma SeamsAtStart(t: string, v: string, s: string, i: int, j: int)
    requires t[0..] <= s || EndSeams(t, v, 0, s, i, j)
    ensures Occurs(t, s) || Seams(t, v, s, i, j)
  {
    if t[0..] <= s {
      assert OccursAt(t, s, 0);
    } else {
      assert t[0..i] == t[..i];
      assert OccursAt(t[..i] + "%", s, 0);
    }
  }

  /** A token after one insertion was there before, or was put together around inserted names. */
  lemma {:induction false} TokenSpans(t: string, s: string, needle: string, v: string, k: int) returns (i: int, j: int)
    requires IsToken(t) && IsToken(needle) && NoPercent(v) && OccursAt(t, ReplaceAll(s, needle, v), k)
    ensures Occurs(t, s) || Seams(t, v, s, i, j)
    decreases |s|
  {
    i, j := 0, 0;
    var r := ReplaceAll(s, needle, v);
    assert r[k] == r[k..k + |t|][0] == '%';
    if |s| < |needle| {
      assert OccursAt(t, s, k);
    } else if s[..|needle|] == needle {
      var after := ReplaceAll(s[|needle|..], needle, v);
      PercentPast(v, after, k);
      OccursInTail(t, v, after, k);
      i, j := TokenSpans(t, s[|needle|..], needle, v, k - |v|);
      SeamsAfter(t, v, s, |needle|, i, j);
    } else if k > 0 {
      OccursInTail(t, [s[0]], ReplaceAll(s[1..], needle, v), k);
      i, j := TokenSpans(t, s[1..], needle, v, k - 1);
      SeamsAfter(t, v, s, 1, i, j);
    } else {
      i, j := StartSpans(t, s, needle, v);
    }
  }

  lemma SeamsAfter(t: string, v: string, s: string, from: nat, i: int, j: int)
    requires from <= |s| && (Occurs(t, s[from..]) || Seams(t, v, s[from..], i, j))
    ensures Occurs(t, s) || Seams(t, v, s, i, j)
  {
    if Occurs(t, s[from..]) {
      OccursAfter(t, s, from);
    } else {
      OccursAfter(t[..i] + "%", s, from);
      OccursAfter("%" + t[j + |v|..], s, from);
    }
  }
}
