/** The parts of Go's strings package the models use: search, replace, split and join. */
module Strings {
  ghost predicate OccursAt(t: string, s: string, i: int) {
    0 <= i && i + |t| <= |s| && s[i..i + |t|] == t
  }

  ghost predicate Occurs(t: string, s: string) {
    exists i :: OccursAt(t, s, i)
  }

  /** strings.ReplaceAll: every non-overlapping occurrence, leftmost first. */
  function ReplaceAll(s: string, needle: string, value: string): string
    requires needle != ""
    decreases |s|
  {
    if |s| < |needle| then s
    else if s[..|needle|] == needle then value + ReplaceAll(s[|needle|..], needle, value)
    else [s[0]] + ReplaceAll(s[1..], needle, value)
  }

  /** strings.Split: the text between those occurrences. */
  function Pieces(s: string, needle: string): (p: seq<string>)
    requires needle != ""
    ensures p != []
    decreases |s|
  {
    if |s| < |needle| then [s]
    else if s[..|needle|] == needle then [""] + Pieces(s[|needle|..], needle)
    else
      var rest := Pieces(s[1..], needle);
      [[s[0]] + rest[0]] + rest[1..]
  }

  /** strings.Join. */
  function Join(p: seq<string>, sep: string): string {
    if p == [] then ""
    else if |p| == 1 then p[0] else p[0] + sep + Join(p[1..], sep)
  }

  lemma JoinHead(p: seq<string>, sep: string)
    requires p != []
    ensures Join(p, sep) == p[0] + (if |p| == 1 then "" else sep + Join(p[1..], sep))
  {
  }

  lemma JoinCons(c: char, p: seq<string>, sep: string)
    requires p != []
    ensures Join([[c] + p[0]] + p[1..], sep) == [c] + Join(p, sep)
  {
  }

  /** Replacing keeps the text between the occurrences and exchanges the separators. */
  lemma {:induction false} ReplaceAllIsJoin(s: string, needle: string, value: string)
    requires needle != ""
    ensures ReplaceAll(s, needle, value) == Join(Pieces(s, needle), value)
    decreases |s|
  {
    if |s| < |needle| {
    } else if s[..|needle|] == needle {
      var rest := Pieces(s[|needle|..], needle);
      ReplaceAllIsJoin(s[|needle|..], needle, value);
      assert ([""] + rest)[1..] == rest;
      assert Join([""] + rest, value) == "" + value + Join(rest, value);
    } else {
      var rest := Pieces(s[1..], needle);
      ReplaceAllIsJoin(s[1..], needle, value);
      JoinCons(s[0], rest, value);
      assert Pieces(s, needle) == [[s[0]] + rest[0]] + rest[1..];
    }
  }

  lemma {:induction false} ReplaceBySame(s: string, needle: string)
    requires needle != ""
    ensures ReplaceAll(s, needle, needle) == s
    decreases |s|
  {
    if |s| >= |needle| {
      if s[..|needle|] == needle {
        ReplaceBySame(s[|needle|..], needle);
        assert s == needle + s[|needle|..];
      } else {
        ReplaceBySame(s[1..], needle);
        assert s == [s[0]] + s[1..];
      }
    }
  }

  /** The pieces are the text cut at the occurrences, for every text. */
  lemma PiecesRebuild(s: string, needle: string)
    requires needle != ""
    ensures Join(Pieces(s, needle), needle) == s
  {
  }

  lemma {:induction false} NothingToReplace(s: string, needle: string, value: string)
    requires needle != "" && !Occurs(needle, s)
    ensures ReplaceAll(s, needle, value) == s
    decreases |s|
  {
    if |s| >= |needle| {
      assert !OccursAt(needle, s, 0);
      forall i
        ensures !OccursAt(needle, s[1..], i)
      {
        assert !OccursAt(needle, s, i + 1);
        if 0 <= i && i + |needle| <= |s| - 1 {
          assert s[1..][i..i + |needle|] == s[i + 1..i + 1 + |needle|];
        }
      }
      NothingToReplace(s[1..], needle, value);
      assert s == [s[0]] + s[1..];
    }
  }

  /** strings.TrimPrefix. */
  function TrimPrefix(s: string, prefix: string): string {
    if prefix <= s then s[|prefix|..] else s
  }

  /** strings.TrimSuffix. */
  function TrimSuffix(s: string, suffix: string): string {
    if |suffix| <= |s| && s[|s| - |suffix|..] == suffix then s[..|s| - |suffix|] else s
  }

  lemma OccursLater(t: string, s: string, from: nat, i: int)
    requires from <= |s| && OccursAt(t, s[from..], i)
    ensures Occurs(t, s)
  {
    assert s[from + i..from + i + |t|] == s[from..][i..i + |t|];
    assert OccursAt(t, s, from + i);
  }

  lemma OccursInTail(t: string, v: string, rest: string, i: int)
    requires OccursAt(t, v + rest, i) && i >= |v|
    ensures OccursAt(t, rest, i - |v|)
  {
  }

  /** When t occurs nowhere before, the occurrence after p is the first one replaced. */
  lemma {:induction false} ReplaceFirst(p: string, t: string, q: string, v: string)
    requires t != "" && forall k | 0 <= k < |p| :: !OccursAt(t, p + t + q, k)
    ensures ReplaceAll(p + t + q, t, v) == p + v + ReplaceAll(q, t, v)
  {
    var s := p + t + q;
    if p == "" {
      assert s[..|t|] == t && s[|t|..] == q;
      assert p + v == v;
    } else {
      assert !OccursAt(t, s, 0);
      assert s[1..] == p[1..] + t + q;
      forall k | 0 <= k < |p| - 1
        ensures !OccursAt(t, p[1..] + t + q, k)
      {
        assert s[1..][k..k + |t|] == s[k + 1..k + 1 + |t|];
        assert !OccursAt(t, s, k + 1);
      }
      ReplaceFirst(p[1..], t, q, v);
      assert [p[0]] + (p[1..] + v + ReplaceAll(q, t, v)) == p + v + ReplaceAll(q, t, v);
    }
  }
}
