/** Which name, inserted after the basic placeholders, can put one of them together again. */
module PlaceholderParts {
  import opened Wrappers
  import opened Strings
  import opened Placeholders
  import opened PlaceholderNames
  import opened PlaceholderSeams

  // ----- the exact condition on one name -----

  /** t is one of the tokens the substitutions replace. */
  ghost predicate IsReplaced(t: string, subs: seq<Substitution>) {
    exists x :: x in subs && x.token == t
  }

  /**
   v is a part of t such that what precedes it, closed by a percent sign, is no replaced token, and what follows it,
   opened by one, is none either.
   */
  ghost predicate CompletesAt(v: string, t: string, subs: seq<Substitution>, i: int) {
    IsPart(v, t, i) && !IsReplaced(t[..i] + "%", subs) && !IsReplaced("%" + t[i + |v|..], subs)
  }

  ghost predicate Completes(v: string, t: string, subs: seq<Substitution>) {
    exists i :: CompletesAt(v, t, subs, i)
  }

  /** Some message ends with t in it. */
  ghost predicate CanReturn(t: string, ticket: Ticket, now: int, names: Names) {
    exists content :: Occurs(t, Filled(content, ticket, now, names))
  }

  lemma IsReplacedToken(t: string, ticket: Ticket, now: int)
    requires IsReplaced(t, Resolved(ticket, now))
    ensures t in RESOLVED_TOKENS
  {
    TokensAre(ticket, now, Names(None, None, None));
  }

  /** No message keeps a replaced token through the basic substitutions. */
  lemma NotReplaced(w: string, content: string, ticket: Ticket, now: int)
    requires Occurs(w, Substitute(content, Resolved(ticket, now)))
    ensures !IsReplaced(w, Resolved(ticket, now))
  {
    if x :| x in Resolved(ticket, now) && x.token == w {
      NoResolvedTokenLeft(content, ticket, now, x);
    }
  }

  /** A resolved token that starts another but for its last percent sign. */
  lemma StartsOf(t: string, w: string, j: int)
    requires t in RESOLVED_TOKENS && w in RESOLVED_TOKENS && 1 < j < |t| - 1 && w == t[..j] + "%"
    ensures j == 5 && (t == "%user_id%" || t == "%datetime%")
  {
    assert |w| >= 6 && |w| == j + 1;
    assert w[1] == t[1] && w[2] == t[2] && w[3] == t[3] && w[4] == t[4];
  }

  /** One that ends another but for its first percent sign. */
  lemma EndsOf(t: string, w: string, m: int)
    requires t in RESOLVED_TOKENS && w in RESOLVED_TOKENS && 1 < m < |t| && w == "%" + t[m..]
    ensures m == 5 && t == "%datetime%"
  {
    assert |w| >= 6 && |w| == |t| - m + 1;
    assert w[|w| - 2] == t[|t| - 2] && w[|w| - 3] == t[|t| - 3] && w[|w| - 4] == t[|t| - 4] && w[|w| - 5] == t[|t| - 5];
  }

  /** No name stands both before and after the middle of that token. */
  lemma NotOnBothSides(v: string, t: string)
    requires v != "" && |v| <= 4 && t == "%datetime%"
    ensures !(OccursAt(v, t, 5 - |v|) && OccursAt(v, t, 5))
  {
    if |v| == 1 {
      assert t[4..5][0] != t[5..6][0];
    } else if |v| == 2 {
      assert t[3..5][1] != t[5..7][1];
    } else if |v| == 3 {
      assert t[2..5][0] != t[5..8][0];
    } else {
      assert t[1..5][0] != t[5..9][0];
    }
  }

  lemma EmptyCompletes(t: string, ticket: Ticket, now: int)
    requires t in RESOLVED_TOKENS
    ensures CompletesAt("", t, Resolved(ticket, now), 2)
  {
    if IsReplaced(t[..2] + "%", Resolved(ticket, now)) {
      IsReplacedToken(t[..2] + "%", ticket, now);
    }
    if IsReplaced("%" + t[2..], Resolved(ticket, now)) {
      IsReplacedToken("%" + t[2..], ticket, now);
      EndsOf(t, "%" + t[2..], 2);
    }
    assert t[2..2] == "";
  }

  /** Of a first and a last inserted name, one alone would do. */
  lemma OneIsEnough(v: string, t: string, ticket: Ticket, now: int, i: int, j: int)
    requires t in RESOLVED_TOKENS && i <= j && IsPart(v, t, i) && IsPart(v, t, j)
    requires var subs := Resolved(ticket, now); !IsReplaced(t[..i] + "%", subs) && !IsReplaced("%" + t[j + |v|..], subs)
    ensures Completes(v, t, Resolved(ticket, now))
  {
    var subs := Resolved(ticket, now);
    if v == "" {
      EmptyCompletes(t, ticket, now);
    } else if !IsReplaced(t[..j] + "%", subs) {
      assert CompletesAt(v, t, subs, j);
    } else {
      assert j != i;
      IsReplacedToken(t[..j] + "%", ticket, now);
      StartsOf(t, t[..j] + "%", j);
      if t == "%datetime%" && i + |v| == 5 {
        NotOnBothSides(v, t);
      } else if IsReplaced("%" + t[i + |v|..], subs) {
        IsReplacedToken("%" + t[i + |v|..], ticket, now);
        EndsOf(t, "%" + t[i + |v|..], i + |v|);
      }
      assert CompletesAt(v, t, subs, i);
    }
  }

  lemma FilledOne(content: string, ticket: Ticket, now: int, names: Names, y: Substitution)
    requires Named(names) == [y]
    ensures Filled(content, ticket, now, names)
            == ReplaceAll(Substitute(content, Resolved(ticket, now)), y.token, y.value)
  {
    SubstituteBoth(content, Resolved(ticket, now), [y]);
    assert [y][..0] == [];
  }

  lemma ReturnsOnlyIf(content: string, ticket: Ticket, now: int, names: Names, x: Substitution, y: Substitution)
    requires x in Resolved(ticket, now) && Named(names) == [y] && NoPercent(y.value)
    requires Occurs(x.token, Filled(content, ticket, now, names))
    ensures Completes(y.value, x.token, Resolved(ticket, now))
  {
    var t, v, basic := x.token, y.value, Substitute(content, Resolved(ticket, now));
    FilledOne(content, ticket, now, names, y);
    ResolvedAreInert(ticket, now);
    NameTokens(names);
    TokensAre(ticket, now, names);
    var k :| OccursAt(t, Filled(content, ticket, now, names), k);
    var i, j := TokenSpans(t, basic, y.token, v, k);
    NoResolvedTokenLeft(content, ticket, now, x);
    NotReplaced(t[..i] + "%", content, ticket, now);
    NotReplaced("%" + t[j + |v|..], content, ticket, now);
    OneIsEnough(v, t, ticket, now, i, j);
  }

  /** The message around the name is free of resolved tokens. */
  lemma AroundIsFree(t: string, i: nat, v: string, needle: string, subs: seq<Substitution>)
    requires IsToken(t) && IsToken(needle) && CompletesAt(v, t, subs, i)
    requires forall z | z in subs :: IsToken(z.token) && z.token != needle
    ensures forall z | z in subs :: !Occurs(z.token, Around(t, i, v, needle))
  {
    forall z | z in subs
      ensures !Occurs(z.token, Around(t, i, v, needle))
    {
      NoTokenAround(t, i, v, needle, z.token);
    }
  }

  /** So only the insertion of the name changes it. */
  lemma CompletedText(ticket: Ticket, now: int, names: Names, x: Substitution, y: Substitution, i: int)
    requires x in Resolved(ticket, now) && Named(names) == [y]
             && CompletesAt(y.value, x.token, Resolved(ticket, now), i)
    ensures Filled(Around(x.token, i, y.value, y.token), ticket, now, names) == x.token
  {
    var t, v, subs := x.token, y.value, Resolved(ticket, now);
    NamesApply(ticket, now, names, y);
    AroundIsFree(t, i, v, y.token, subs);
    var c := Around(t, i, v, y.token);
    NothingToSubstitute(c, subs);
    FilledOne(c, ticket, now, names, y);
    CompletedAround(t, i, v, y.token);
  }

  /**
   When one name is inserted, and it has no percent sign, some message ends with a resolved token in it if and only if
   the name is a part of that token between two texts that are not resolved tokens themselves.
   */
  lemma NameReturnsTokenIff(ticket: Ticket, now: int, names: Names, x: Substitution, y: Substitution)
    requires x in Resolved(ticket, now) && Named(names) == [y] && NoPercent(y.value)
    ensures CanReturn(x.token, ticket, now, names) <==> Completes(y.value, x.token, Resolved(ticket, now))
  {
    if CanReturn(x.token, ticket, now, names) {
      var content :| Occurs(x.token, Filled(content, ticket, now, names));
      ReturnsOnlyIf(content, ticket, now, names, x, y);
    }
    if i :| CompletesAt(y.value, x.token, Resolved(ticket, now), i) {
      CompletedText(ticket, now, names, x, y, i);
      assert OccursAt(x.token, x.token, 0);
    }
  }

  // ----- which names those are -----

  /** The places at which the text before, or the text after, is a resolved token: "_id", "time" and "date". */
  predicate IsTokenApart(v: string, t: string, i: int) {
    (i == 5 && (t == "%user_id%" || t == "%datetime%")) || (i + |v| == 5 && t == "%datetime%")
  }

  lemma AreReplaced(ticket: Ticket, now: int)
    ensures var subs := Resolved(ticket, now);
            IsReplaced("%user%", subs) && IsReplaced("%time%", subs) && IsReplaced("%date%", subs)
  {
    var subs := Resolved(ticket, now);
    assert subs[1] in subs && subs[|subs| - 3] in subs && subs[|subs| - 2] in subs;
  }

  lemma Cuts()
    ensures "%user_id%"[..5] + "%" == "%user%" && "%datetime%"[..5] + "%" == "%date%"
            && "%" + "%datetime%"[5..] == "%time%"
  {
  }

  lemma StartIsReplacedIff(t: string, ticket: Ticket, now: int, i: int)
    requires t in RESOLVED_TOKENS && 1 <= i < |t| - 1
    ensures IsReplaced(t[..i] + "%", Resolved(ticket, now)) <==> i == 5 && (t == "%user_id%" || t == "%datetime%")
  {
    var w := t[..i] + "%";
    AreReplaced(ticket, now);
    if IsReplaced(w, Resolved(ticket, now)) {
      IsReplacedToken(w, ticket, now);
      StartsOf(t, w, i);
    } else if i == 5 {
      Cuts();
    }
  }

  lemma EndIsReplacedIff(t: string, ticket: Ticket, now: int, m: int)
    requires t in RESOLVED_TOKENS && 1 < m < |t|
    ensures IsReplaced("%" + t[m..], Resolved(ticket, now)) <==> m == 5 && t == "%datetime%"
  {
    var w := "%" + t[m..];
    AreReplaced(ticket, now);
    if IsReplaced(w, Resolved(ticket, now)) {
      IsReplacedToken(w, ticket, now);
      EndsOf(t, w, m);
    } else if m == 5 {
      Cuts();
    }
  }

  lemma CompletesAtIff(v: string, t: string, ticket: Ticket, now: int, i: int)
    requires t in RESOLVED_TOKENS && v != "" && IsPart(v, t, i)
    ensures CompletesAt(v, t, Resolved(ticket, now), i) <==> !IsTokenApart(v, t, i)
  {
    StartIsReplacedIff(t, ticket, now, i);
    EndIsReplacedIff(t, ticket, now, i + |v|);
  }

  lemma PartPlace(v: string, t: string, i: int)
    requires IsToken(t) && v != "" && NoPercent(v) && OccursAt(v, t, i)
    ensures IsPart(v, t, i)
  {
    assert t[i..i + |v|][0] == t[i] && t[i..i + |v|][|v| - 1] == t[i + |v| - 1];
  }

  /** The parts of a resolved token that never bring it back. */
  predicate IsSpared(v: string, t: string) {
    || (t == "%user_id%" && v in ["_", "_i", "_id"])
    || (t == "%datetime%" && v in ["ti", "tim", "time", "te", "ate", "date"])
  }

  /** Each of them stands in its token at one place only. */
  lemma SparedStandsApart(v: string, t: string, i: int)
    requires IsSpared(v, t) && OccursAt(v, t, i)
    ensures IsTokenApart(v, t, i)
  {
    assert t[i..i + |v|][0] == t[i];
    if |v| > 1 {
      assert t[i..i + |v|][1] == t[i + 1];
    }
  }

  lemma PartsOfUserId()
    ensures var t := "%user_id%"; t[5..6] == "_" && t[5..7] == "_i" && t[5..8] == "_id"
  {
  }

  lemma PartsOfDatetime()
    ensures var t := "%datetime%"; t[5..6] == "t" && t[5..7] == "ti" && t[5..8] == "tim" && t[5..9] == "time"
    ensures var t := "%datetime%"; t[4..5] == "e" && t[3..5] == "te" && t[2..5] == "ate" && t[1..5] == "date"
    ensures var t := "%datetime%"; t[3..4] == "t" && t[8..9] == "e"
  {
  }

  lemma ApartAre(v: string, t: string, i: int)
    requires v != "" && IsPart(v, t, i) && IsTokenApart(v, t, i)
    ensures IsSpared(v, t) || (t == "%datetime%" && (v == "t" || v == "e"))
  {
    if t == "%user_id%" {
      assert v == t[5..5 + |v|];
    } else if i == 5 {
      assert v == t[5..5 + |v|];
    } else {
      assert v == t[5 - |v|..5];
    }
    PartsOfUserId();
    PartsOfDatetime();
  }

  /** And every other part stands at some place where it can be inserted. */
  lemma OthersStand(v: string, t: string, i: int) returns (j: int)
    requires v != "" && IsPart(v, t, i) && !IsSpared(v, t)
    ensures IsPart(v, t, j) && !IsTokenApart(v, t, j)
  {
    j := i;
    if IsTokenApart(v, t, i) {
      ApartAre(v, t, i);
      PartsOfDatetime();
      j := if v == "t" then 3 else 8;
    }
  }

  /** A part of a resolved token brings that token back, in some message, unless it is one of those nine. */
  lemma PartReturnsIff(ticket: Ticket, now: int, names: Names, x: Substitution, y: Substitution)
    requires x in Resolved(ticket, now) && Named(names) == [y] && y.value != "" && NoPercent(y.value)
    ensures CanReturn(x.token, ticket, now, names) <==> Occurs(y.value, x.token) && !IsSpared(y.value, x.token)
  {
    var t, v := x.token, y.value;
    NameReturnsTokenIff(ticket, now, names, x, y);
    ResolvedAreInert(ticket, now);
    TokensAre(ticket, now, names);
    if i :| CompletesAt(v, t, Resolved(ticket, now), i) {
      CompletesAtIff(v, t, ticket, now, i);
      if IsSpared(v, t) {
        SparedStandsApart(v, t, i);
      }
    }
    if Occurs(v, t) && !IsSpared(v, t) {
      var i :| OccursAt(v, t, i);
      PartPlace(v, t, i);
      var j := OthersStand(v, t, i);
      CompletesAtIff(v, t, ticket, now, j);
    }
  }

  lemma UserIsPart()
    ensures IsPart("user", "%user%", 1) && "%user%" in RESOLVED_TOKENS
  {
    assert "%user%"[1..5] == "user";
    assert RESOLVED_TOKENS[1] == "%user%";
  }

  lemma AroundUser()
    ensures Around("%user%", 1, "user", "%username%") == "%%username%%"
  {
    assert "%user%"[..1] == "%" && "%user%"[5..] == "%";
  }

  /** It happens: the name "user" between two more percent signs. */
  lemma UsernameCompletesToken(ticket: Ticket, now: int)
    ensures Filled("%%username%%", ticket, now, Names(Some("user"), None, None)) == "%user%"
  {
    var x, y, names := Resolved(ticket, now)[1], Substitution("%username%", "user"), Names(Some("user"), None, None);
    assert x in Resolved(ticket, now) && Named(names) == [y];
    UserIsPart();
    AroundUser();
    CompletesAtIff("user", "%user%", ticket, now, 1);
    CompletedText(ticket, now, names, x, y, 1);
  }
}
