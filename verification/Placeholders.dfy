/** Sequential placeholder substitution in a message: the placeholders that need no API call. */
module Placeholders {
  import opened Wrappers
  import opened Digits
  import opened Strings

  predicate IsTokenChar(c: char) {
    'a' <= c <= 'z' || c == '_'
  }

  /** A lower-case name between two percent signs. */
  ghost predicate IsToken(t: string) {
    |t| >= 2 && t[0] == '%' && t[|t| - 1] == '%' && forall k | 0 < k < |t| - 1 :: IsTokenChar(t[k])
  }

  /** What the substitutions insert: no percent sign, and somewhere a digit. */
  ghost predicate IsInert(v: string) {
    (forall k | 0 <= k < |v| :: v[k] != '%') && exists k | 0 <= k < |v| :: '0' <= v[k] <= '9'
  }

  /** No percent sign, not empty, and not a part of the token t. */
  ghost predicate Blocks(v: string, t: string) {
    v != "" && (forall k | 0 <= k < |v| :: v[k] != '%') && !Occurs(v, t)
  }

  lemma InertBlocks(v: string, t: string)
    requires IsInert(v) && IsToken(t)
    ensures Blocks(v, t)
  {
    var k :| 0 <= k < |v| && '0' <= v[k] <= '9';
    forall i
      ensures !OccursAt(v, t, i)
    {
      if 0 <= i && i + |v| <= |t| {
        assert t[i..i + |v|][k] == t[i + k] != v[k];
      }
    }
  }

  // ----- inserted values neither contain nor complete a token -----

  /** u is a proper end of the token t. */
  ghost predicate IsTokenEnd(u: string, t: string) {
    IsToken(t) && 0 < |u| < |t| && t[|t| - |u|..] == u
  }

  lemma BlocksEnd(u: string, v: string, rest: string, t: string)
    requires Blocks(v, t) && IsTokenEnd(u, t)
    ensures !(u <= v + rest)
  {
    assert u[|u| - 1] == t[|t| - 1] == '%';
    if |u| <= |v| {
      assert (v + rest)[|u| - 1] == v[|u| - 1];
    } else {
      assert !OccursAt(v, t, |t| - |u|);
      assert t[|t| - |u|..|t| - |u| + |v|] == u[..|v|];
      assert (v + rest)[..|v|] == v;
    }
  }

  lemma PercentPast(v: string, rest: string, i: nat)
    requires (forall k | 0 <= k < |v| :: v[k] != '%') && i < |v + rest| && (v + rest)[i] == '%'
    ensures i >= |v|
  {
  }

  /** The end of a token can start a replaced text only if it started the text before. */
  lemma {:induction false} TokenEndSurvives(u: string, s: string, needle: string, value: string, t: string)
    requires IsToken(needle) && Blocks(value, t) && IsTokenEnd(u, t)
    requires u <= ReplaceAll(s, needle, value)
    ensures u <= s
    decreases |s|
  {
    if |s| >= |needle| {
      var r := ReplaceAll(s, needle, value);
      if s[..|needle|] == needle {
        BlocksEnd(u, value, ReplaceAll(s[|needle|..], needle, value), t);
      } else if |u| > 1 {
        assert r[1..] == ReplaceAll(s[1..], needle, value) && u[1..] <= r[1..];
        assert t[|t| - |u[1..]|..] == u[1..];
        TokenEndSurvives(u[1..], s[1..], needle, value, t);
        assert u == [u[0]] + u[1..] && s == [s[0]] + s[1..];
      } else {
        assert u == [r[0]] && r[0] == s[0];
      }
    }
  }

  /** Replacing one token by a value that blocks t leaves no new occurrence of t, and none if t is that token. */
  lemma {:induction false} NoNewTokens(s: string, needle: string, value: string, t: string, i: int)
    requires IsToken(needle) && IsToken(t) && Blocks(value, t)
    requires OccursAt(t, ReplaceAll(s, needle, value), i)
    ensures t != needle && Occurs(t, s)
    decreases |s|
  {
    var r := ReplaceAll(s, needle, value);
    assert r[i] == r[i..i + |t|][0] == '%';
    if |s| < |needle| {
      assert OccursAt(t, s, i);
    } else if s[..|needle|] == needle {
      var after := ReplaceAll(s[|needle|..], needle, value);
      PercentPast(value, after, i);
      OccursInTail(t, value, after, i);
      NoNewTokens(s[|needle|..], needle, value, t, i - |value|);
      var n :| OccursAt(t, s[|needle|..], n);
      OccursLater(t, s, |needle|, n);
    } else if i > 0 {
      OccursInTail(t, [s[0]], ReplaceAll(s[1..], needle, value), i);
      NoNewTokens(s[1..], needle, value, t, i - 1);
      var n :| OccursAt(t, s[1..], n);
      OccursLater(t, s, 1, n);
    } else {
      TokenStart(s, needle, value, t);
    }
  }

  lemma TokenStart(s: string, needle: string, value: string, t: string)
    requires IsToken(needle) && IsToken(t) && Blocks(value, t)
    requires |s| >= |needle| && s[..|needle|] != needle && OccursAt(t, ReplaceAll(s, needle, value), 0)
    ensures t != needle && Occurs(t, s)
  {
    var rest := ReplaceAll(s[1..], needle, value);
    assert ([s[0]] + rest)[..|t|] == t;
    assert t[0] == s[0] && t[1..] == rest[..|t| - 1];
    TokenEndSurvives(t[1..], s[1..], needle, value, t);
    assert s[1..][..|t| - 1] == t[1..];
    assert t == [t[0]] + t[1..] && s[..|t|] == [s[0]] + s[1..][..|t| - 1];
    assert OccursAt(t, s, 0);
  }

  // ----- one after another -----

  type Needle = s: string | s != "" witness "%"

  datatype Substitution = Substitution(token: Needle, value: string)

  ghost predicate IsInertEntry(x: Substitution) {
    IsToken(x.token) && IsInert(x.value)
  }

  ghost predicate AreInert(subs: seq<Substitution>) {
    forall x | x in subs :: IsInertEntry(x)
  }

  function Substitute(content: string, subs: seq<Substitution>): string
    decreases |subs|
  {
    if subs == [] then content
    else
      var n := |subs| - 1;
      ReplaceAll(Substitute(content, subs[..n]), subs[n].token, subs[n].value)
  }

  /** After any list of substitutions whose values block t, it occurs only if it did before and was not replaced. */
  lemma {:induction false} OnlyOldTokens(content: string, subs: seq<Substitution>, t: string)
    requires IsToken(t) && Occurs(t, Substitute(content, subs))
    requires forall x | x in subs :: IsToken(x.token) && Blocks(x.value, t)
    ensures Occurs(t, content) && forall x | x in subs :: x.token != t
    decreases |subs|
  {
    if subs != [] {
      var n := |subs| - 1;
      var i :| OccursAt(t, Substitute(content, subs), i);
      NoNewTokens(Substitute(content, subs[..n]), subs[n].token, subs[n].value, t, i);
      OnlyOldTokens(content, subs[..n], t);
      assert subs == subs[..n] + [subs[n]];
    }
  }

  lemma {:induction false} NothingToSubstitute(content: string, subs: seq<Substitution>)
    requires forall x | x in subs :: !Occurs(x.token, content)
    ensures Substitute(content, subs) == content
    decreases |subs|
  {
    if subs != [] {
      var n := |subs| - 1;
      NothingToSubstitute(content, subs[..n]);
      assert subs[n] in subs;
      NothingToReplace(content, subs[n].token, subs[n].value);
    }
  }

  // ----- the seven placeholders -----

  datatype Ticket = Ticket(userId: nat, id: int, channelId: Option<nat>)

  /** The resolved placeholders in the order they are replaced. */
  function Resolved(ticket: Ticket, now: int): seq<Substitution> {
    [Substitution("%user_id%", Print(ticket.userId, 10)),
     Substitution("%user%", "<@" + Print(ticket.userId, 10) + ">"),
     Substitution("%ticket_id%", PrintInt(ticket.id))]
    + (if ticket.channelId.Some?
       then [Substitution("%channel%", "<#" + Print(ticket.channelId.value, 10) + ">")] else [])
    + [Substitution("%time%", "<t:" + PrintInt(now) + ":t>"),
       Substitution("%date%", "<t:" + PrintInt(now) + ":d>"),
       Substitution("%datetime%", "<t:" + PrintInt(now) + ":f>")]
  }

  lemma PrintIsInert(n: nat)
    ensures IsInert(Print(n, 10))
  {
    PrintIsDigits(n, 10);
    assert IsDigit(Print(n, 10)[0], 10);
    forall k | 0 <= k < |Print(n, 10)|
      ensures Print(n, 10)[k] != '%'
    {
      assert IsDigit(Print(n, 10)[k], 10);
    }
  }

  lemma WrappedIsInert(before: string, v: string, after: string)
    requires IsInert(v) && '%' !in before && '%' !in after
    ensures IsInert(before + v + after)
  {
    var k :| 0 <= k < |v| && '0' <= v[k] <= '9';
    assert (before + v + after)[|before| + k] == v[k];
  }

  lemma PrintIntIsInert(n: int)
    ensures IsInert(PrintInt(n))
  {
    if n < 0 {
      PrintIsInert(-n);
      WrappedIsInert("-", Print(-n, 10), "");
      assert "-" + Print(-n, 10) + "" == PrintInt(n);
    } else {
      PrintIsInert(n);
    }
  }

  lemma LiteralTokens()
    ensures IsToken("%user_id%") && IsToken("%user%") && IsToken("%ticket_id%") && IsToken("%channel%")
    ensures IsToken("%time%") && IsToken("%date%") && IsToken("%datetime%")
  {
  }

  lemma ResolvedValues(ticket: Ticket, now: int)
    ensures IsInert(Print(ticket.userId, 10)) && IsInert("<@" + Print(ticket.userId, 10) + ">")
            && IsInert(PrintInt(ticket.id))
    ensures ticket.channelId.Some? ==> IsInert("<#" + Print(ticket.channelId.value, 10) + ">")
    ensures forall style | '%' !in style :: IsInert("<t:" + PrintInt(now) + style)
  {
    PrintIsInert(ticket.userId);
    PrintIntIsInert(ticket.id);
    PrintIntIsInert(now);
    WrappedIsInert("<@", Print(ticket.userId, 10), ">");
    if ticket.channelId.Some? {
      PrintIsInert(ticket.channelId.value);
      WrappedIsInert("<#", Print(ticket.channelId.value, 10), ">");
    }
    forall style | '%' !in style
      ensures IsInert("<t:" + PrintInt(now) + style)
    {
      WrappedIsInert("<t:", PrintInt(now), style);
    }
  }

  lemma AllInert(a: Substitution, b: Substitution, c: Substitution, more: seq<Substitution>, d: Substitution,
                 e: Substitution, f: Substitution)
    requires IsInertEntry(a) && IsInertEntry(b) && IsInertEntry(c) && IsInertEntry(d) && IsInertEntry(e)
             && IsInertEntry(f) && AreInert(more)
    ensures AreInert([a, b, c] + more + [d, e, f])
  {
  }

  lemma ResolvedAreInert(ticket: Ticket, now: int)
    ensures AreInert(Resolved(ticket, now))
  {
    LiteralTokens();
    ResolvedValues(ticket, now);
    assert '%' !in ":t>" && '%' !in ":d>" && '%' !in ":f>";
    var more := if ticket.channelId.Some?
      then [Substitution("%channel%", "<#" + Print(ticket.channelId.value, 10) + ">")] else [];
    AllInert(Substitution("%user_id%", Print(ticket.userId, 10)),
             Substitution("%user%", "<@" + Print(ticket.userId, 10) + ">"),
             Substitution("%ticket_id%", PrintInt(ticket.id)), more,
             Substitution("%time%", "<t:" + PrintInt(now) + ":t>"),
             Substitution("%date%", "<t:" + PrintInt(now) + ":d>"),
             Substitution("%datetime%", "<t:" + PrintInt(now) + ":f>"));
  }

  /** No resolved token is left anywhere in the text, whatever the message was. */
  lemma NoResolvedTokenLeft(content: string, ticket: Ticket, now: int, x: Substitution)
    requires x in Resolved(ticket, now)
    ensures !Occurs(x.token, Substitute(content, Resolved(ticket, now)))
  {
    ResolvedAreInert(ticket, now);
    forall y | y in Resolved(ticket, now)
      ensures Blocks(y.value, x.token)
    {
      InertBlocks(y.value, x.token);
    }
    if Occurs(x.token, Substitute(content, Resolved(ticket, now))) {
      OnlyOldTokens(content, Resolved(ticket, now), x.token);
    }
  }

  /** Substituting again, even at another time or for another ticket with a channel or not, changes nothing. */
  lemma SubstitutingTwice(content: string, first: Ticket, second: Ticket, now: int, later: int)
    requires second.channelId.Some? ==> first.channelId.Some?
    ensures var once := Substitute(content, Resolved(first, now)); Substitute(once, Resolved(second, later)) == once
  {
    ResolvedAreInert(first, now);
    ResolvedAreInert(second, later);
    var once := Substitute(content, Resolved(first, now));
    forall y | y in Resolved(second, later)
      ensures !Occurs(y.token, once)
    {
      var x := SameToken(first, second, now, later, y);
      NoResolvedTokenLeft(content, first, now, x);
    }
    NothingToSubstitute(once, Resolved(second, later));
  }

  lemma SameToken(first: Ticket, second: Ticket, now: int, later: int, y: Substitution) returns (x: Substitution)
    requires (second.channelId.Some? ==> first.channelId.Some?) && y in Resolved(second, later)
    ensures x in Resolved(first, now) && x.token == y.token
  {
    var a, b := Resolved(first, now), Resolved(second, later);
    var i :| 0 <= i < |b| && b[i] == y;
    var j := if first.channelId.Some? && second.channelId.None? && i > 2 then i + 1 else i;
    assert a[j].token == b[i].token;
    x := a[j];
  }

  lemma OneMore(content: string, subs: seq<Substitution>, n: nat)
    requires n < |subs|
    ensures n == 0 ==> Substitute(content, subs[..n]) == content
    ensures Substitute(content, subs[..n + 1])
            == ReplaceAll(Substitute(content, subs[..n]), subs[n].token, subs[n].value)
  {
    assert subs[..n + 1][..n] == subs[..n];
  }

  /** The placeholders that need no API call. */
  method ReplaceBasic(content: string, ticket: Ticket, now: int) returns (r: string)
    ensures r == Substitute(content, Resolved(ticket, now))
    ensures forall x | x in Resolved(ticket, now) :: !Occurs(x.token, r)
  {
    ghost var all := Resolved(ticket, now);
    r := ReplaceAll(content, "%user_id%", Print(ticket.userId, 10));
    OneMore(content, all, 0);
    r := ReplaceAll(r, "%user%", "<@" + Print(ticket.userId, 10) + ">");
    OneMore(content, all, 1);
    r := ReplaceAll(r, "%ticket_id%", PrintInt(ticket.id));
    OneMore(content, all, 2);
    if ticket.channelId.Some? {
      r := ReplaceAll(r, "%channel%", "<#" + Print(ticket.channelId.value, 10) + ">");
      OneMore(content, all, 3);
    }
    ghost var n := |all| - 3;
    assert r == Substitute(content, all[..n]);
    r := ReplaceAll(r, "%time%", "<t:" + PrintInt(now) + ":t>");
    OneMore(content, all, n);
    r := ReplaceAll(r, "%date%", "<t:" + PrintInt(now) + ":d>");
    OneMore(content, all, n + 1);
    r := ReplaceAll(r, "%datetime%", "<t:" + PrintInt(now) + ":f>");
    OneMore(content, all, n + 2);
    assert all[..|all|] == all;
    forall x | x in Resolved(ticket, now)
      ensures !Occurs(x.token, r)
    {
      NoResolvedTokenLeft(content, ticket, now, x);
    }
  }
}
