/** Two inserted names that put a basic placeholder together again. */
module PlaceholderPairs {
  import opened Wrappers
  import opened Strings
  import opened Placeholders
  import opened PlaceholderNames
  import opened PlaceholderSeams
  import opened PlaceholderParts

  /** Two placeholders between two percent signs. */
  function Both(first: string, second: string): string {
    "%" + first + (second + "%")
  }

  lemma NoneInBoth(first: string, second: string, w: string)
    requires IsToken(first) && IsToken(second) && IsToken(w) && |w| > 2 && w != first && w != second
    ensures !Occurs(w, Both(first, second))
  {
    var c, n, m := Both(first, second), |first|, |second|;
    assert c[1..1 + n] == first && c[1 + n..1 + n + m] == second;
    forall k
      ensures !OccursAt(w, c, k)
    {
      if 0 <= k && k + |w| <= |c| {
        NotInBoth(first, second, w, k);
      }
    }
  }

  lemma PercentsOfBoth(first: string, second: string, k: nat)
    requires IsToken(first) && IsToken(second) && k < |first| + |second| + 2
    ensures Both(first, second)[k] == '%' <==>
            k == 0 || k == 1 || k == |first| || k == |first| + 1 || k == |first| + |second|
              || k == |first| + |second| + 1
  {
    var c := Both(first, second);
    if k == 0 || k == |first| + |second| + 1 {
      assert c[k] == '%';
    } else if k <= |first| {
      assert c[k] == first[k - 1];
    } else {
      assert c[k] == second[k - 1 - |first|];
    }
  }

  lemma NotInBoth(first: string, second: string, w: string, k: nat)
    requires IsToken(first) && IsToken(second) && IsToken(w) && |w| > 2 && w != first && w != second
    requires k + |w| <= |first| + |second| + 2
    ensures !OccursAt(w, Both(first, second), k)
  {
    var c, n, m := Both(first, second), |first|, |second|;
    assert c[1..1 + n] == first && c[1 + n..1 + n + m] == second;
    if OccursAt(w, c, k) {
      PercentsOfBoth(first, second, k);
      TokenPercents(w, c, k, k);
      PercentsOfBoth(first, second, k + |w| - 1);
      TokenPercents(w, c, k, k + |w| - 1);
      PercentsOfBoth(first, second, k + 1);
      TokenPercents(w, c, k, k + 1);
      var end := if k == 1 then n else n + m;
      if k <= end < k + |w| {
        PercentsOfBoth(first, second, end);
        TokenPercents(w, c, k, end);
      }
    }
  }

  /** When two names make up what stands between the percent signs, the two placeholders between them give the token. */
  lemma TwoInsertions(first: string, second: string, a: string, b: string)
    requires IsToken(first) && IsToken(second) && |first| > 2 && first != second
    requires NoPercent(a) && second != "%" + a + "%"
    ensures ReplaceAll(ReplaceAll(Both(first, second), first, a), second, b) == "%" + a + b + "%"
  {
    FirstInsertion(first, second, a);
    SecondInsertion(second, a, b);
    assert "%" + a + second + "%" == "%" + a + (second + "%");
  }

  lemma FirstInsertion(first: string, second: string, a: string)
    requires IsToken(first) && IsToken(second) && |first| > 2 && first != second
    ensures ReplaceAll(Both(first, second), first, a) == "%" + a + (second + "%")
  {
    var q := second + "%";
    var c := "%" + first + q;
    assert c[1] == first[0] == '%';
    assert !OccursAt(first, c, 0) by {
      if OccursAt(first, c, 0) {
        TokenPercents(first, c, 0, 1);
      }
    }
    forall k
      ensures !OccursAt(first, q, k)
    {
      if 0 <= k && k + |first| <= |q| {
        NotInEnd(first, second, k);
      }
    }
    ReplaceOnly("%", first, q, a);
  }

  lemma NotInEnd(first: string, second: string, k: nat)
    requires IsToken(first) && IsToken(second) && |first| > 2 && first != second && k + |first| <= |second| + 1
    ensures !OccursAt(first, second + "%", k)
  {
    var q := second + "%";
    assert q[..|second|] == second && q[|second| - 1] == '%';
    if OccursAt(first, q, k) {
      TokenPercents(first, q, k, k);
      TokenPercents(first, q, k, k + |first| - 1);
      if k <= |second| - 1 < k + |first| {
        TokenPercents(first, q, k, |second| - 1);
      }
    }
  }

  lemma SecondInsertion(second: string, a: string, b: string)
    requires IsToken(second) && NoPercent(a) && second != "%" + a + "%"
    ensures ReplaceAll("%" + a + second + "%", second, b) == "%" + a + b + "%"
  {
    var p := "%" + a;
    var c := p + second + "%";
    forall k | 0 <= k < |p|
      ensures !OccursAt(second, c, k)
    {
      assert c[k] == p[k];
      assert c[|p|] == second[0] == '%';
      if OccursAt(second, c, k) {
        TokenPercents(second, c, k, k);
      }
      assert c[0..|p| + 1] == "%" + a + "%";
      if OccursAt(second, c, k) {
        TokenPercents(second, c, k, k + |second| - 1);
        if |p| < k + |second| {
          TokenPercents(second, c, k, |p|);
        }
      }
    }
    NoneInEnd("%", second);
    ReplaceOnly(p, second, "%", b);
  }

  lemma FilledTwo(content: string, ticket: Ticket, now: int, names: Names, y: Substitution, z: Substitution)
    requires Named(names) == [y, z]
    ensures Filled(content, ticket, now, names)
         == ReplaceAll(ReplaceAll(Substitute(content, Resolved(ticket, now)), y.token, y.value), z.token, z.value)
  {
    var basic := Substitute(content, Resolved(ticket, now));
    SubstituteBoth(content, Resolved(ticket, now), [y, z]);
    assert [y, z][..1] == [y] && [y][..0] == [];
    assert Substitute(basic, [y]) == ReplaceAll(basic, y.token, y.value);
  }

  lemma NotTheStart(needle: string, t: string, a: string, b: string)
    requires needle != "" && t == "%" + a + b + "%" && !(needle[..|needle| - 1] <= t)
    ensures needle != "%" + a + "%"
  {
    var w := "%" + a + "%";
    assert w[..|w| - 1] == "%" + a <= t;
  }

  /** Two inserted names that make up a resolved token bring it back, whatever each of them can do alone. */
  lemma TwoNamesReturnToken(ticket: Ticket, now: int, names: Names, x: Substitution, y: Substitution, z: Substitution)
    requires x in Resolved(ticket, now) && Named(names) == [y, z] && NoPercent(y.value)
    requires x.token == "%" + y.value + z.value + "%"
    ensures Filled(Both(y.token, z.token), ticket, now, names) == x.token
  {
    var subs, c := Resolved(ticket, now), Both(y.token, z.token);
    NamesApply(ticket, now, names, y);
    NamesApply(ticket, now, names, z);
    forall w | w in subs
      ensures !Occurs(w.token, c)
    {
      TokensAre(ticket, now, names);
      NoneInBoth(y.token, z.token, w.token);
    }
    NothingToSubstitute(c, subs);
    FilledTwo(c, ticket, now, names, y, z);
    NotTheStart(z.token, x.token, y.value, z.value);
    TwoTokens(names, y, z);
    TwoInsertions(y.token, z.token, y.value, z.value);
  }

  lemma TwoTokens(names: Names, y: Substitution, z: Substitution)
    requires Named(names) == [y, z]
    ensures y.token != z.token && |y.token| > 2
  {
    assert y == Named(names)[0] && z == Named(names)[1];
    assert "%username%"[1] != "%nickname%"[1] && "%username%"[1] != "%server%"[1] && "%nickname%"[1] != "%server%"[1];
    if names.username.Some? {
      assert y.token == "%username%";
    } else {
      assert y.token == "%nickname%";
    }
  }

  lemma DateAndTime(ticket: Ticket, now: int) returns (x: Substitution)
    ensures x in Resolved(ticket, now) && x.token == "%datetime%" && x.token == "%" + "date" + "time" + "%"
    ensures IsSpared("date", x.token) && IsSpared("time", x.token)
  {
    var subs := Resolved(ticket, now);
    x := subs[|subs| - 1];
  }

  /** It happens: "date" and "time". */
  lemma DateAndTimeCompleteToken(ticket: Ticket, now: int)
    ensures Filled(Both("%username%", "%nickname%"), ticket, now, Names(Some("date"), Some("time"), None))
            == "%datetime%"
  {
    var names := Names(Some("date"), Some("time"), None);
    var a, b := Substitution("%username%", "date"), Substitution("%nickname%", "time");
    var x := DateAndTime(ticket, now);
    assert Named(names) == [a, b];
    TwoNamesReturnToken(ticket, now, names, x, a, b);
  }

  /** Neither of the two can do it alone. */
  lemma NeitherAlone(ticket: Ticket, now: int)
    ensures !CanReturn("%datetime%", ticket, now, Names(Some("date"), None, None))
    ensures !CanReturn("%datetime%", ticket, now, Names(None, Some("time"), None))
  {
    var a, b := Substitution("%username%", "date"), Substitution("%nickname%", "time");
    var one, other := Names(Some("date"), None, None), Names(None, Some("time"), None);
    var x := DateAndTime(ticket, now);
    assert Named(one) == [a] && Named(other) == [b];
    PartReturnsIff(ticket, now, one, x, a);
    PartReturnsIff(ticket, now, other, x, b);
  }
}
