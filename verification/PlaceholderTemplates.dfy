/**
 What the basic substitutions mean for a message whose placeholders stand apart: each is replaced by its own value, and
 the text between them stays.
 */
module PlaceholderTemplates {
  import opened Wrappers
  import opened Digits
  import opened Strings
  import opened Placeholders
  import opened PlaceholderNames
  import opened PlaceholderSeams

  /** The tokens in question. */
  ghost predicate AreTokens(known: seq<string>) {
    forall w | w in known :: IsToken(w) && |w| > 2
  }

  /** A value without a percent sign and with a character that no token has. */
  ghost predicate IsPlainValue(v: string) {
    NoPercent(v) && exists k | 0 <= k < |v| :: !IsTokenChar(v[k])
  }

  // ----- messages by their placeholders -----

  /** texts[0], then each placeholder with the text after it. */
  function Render(texts: seq<string>, tokens: seq<string>): string
    requires |texts| == |tokens| + 1
    decreases |tokens|
  {
    if tokens == [] then texts[0] else texts[0] + tokens[0] + Render(texts[1..], tokens[1..])
  }

  /** The same with the value of each placeholder in its place. */
  function RenderWith(texts: seq<string>, tokens: seq<string>, subs: seq<Substitution>): string
    requires |texts| == |tokens| + 1
    decreases |tokens|
  {
    if tokens == [] then texts[0]
    else texts[0] + ValueIn(subs, tokens[0]) + RenderWith(texts[1..], tokens[1..], subs)
  }

  /** What stands for the token; one that is not replaced stays. */
  function ValueIn(subs: seq<Substitution>, token: string): string {
    if subs == [] then token else if subs[0].token == token then subs[0].value else ValueIn(subs[1..], token)
  }

  /** No percent sign but those of the placeholders, and between two of them no text that they would make a token. */
  ghost predicate StandApart(texts: seq<string>, tokens: seq<string>, known: seq<string>) {
    && |texts| == |tokens| + 1
    && (forall x | x in texts :: NoPercent(x))
    && (forall t | t in tokens :: IsToken(t) && |t| > 2)
    && forall i | 1 <= i < |tokens| :: "%" + texts[i] + "%" !in known
  }

  lemma ApartTail(texts: seq<string>, tokens: seq<string>, known: seq<string>)
    requires StandApart(texts, tokens, known) && tokens != []
    ensures StandApart(texts[1..], tokens[1..], known)
    ensures NoPercent(texts[0]) && NoPercent(texts[1]) && IsToken(tokens[0]) && |tokens[0]| > 2
  {
    assert texts[0] in texts && texts[1] in texts && tokens[0] in tokens;
    forall i | 1 <= i < |tokens| - 1
      ensures "%" + texts[1..][i] + "%" !in known
    {
      assert texts[1..][i] == texts[i + 1];
    }
  }

  // ----- one substitution -----

  function MergedTexts(texts: seq<string>, tokens: seq<string>, t: string, v: string): (r: seq<string>)
    requires |texts| == |tokens| + 1
    ensures |r| == |MergedTokens(tokens, t)| + 1
    decreases |tokens|
  {
    if tokens == [] then texts
    else
      var rest := MergedTexts(texts[1..], tokens[1..], t, v);
      if tokens[0] == t then [texts[0] + v + rest[0]] + rest[1..] else [texts[0]] + rest
  }

  function MergedTokens(tokens: seq<string>, t: string): seq<string> {
    if tokens == [] then []
    else (if tokens[0] == t then [] else [tokens[0]]) + MergedTokens(tokens[1..], t)
  }

  lemma {:induction false} SkipPrefix(p: string, rest: string, t: string, v: string)
    requires t != "" && forall k | 0 <= k < |p| :: !OccursAt(t, p + rest, k)
    ensures ReplaceAll(p + rest, t, v) == p + ReplaceAll(rest, t, v)
  {
    var s := p + rest;
    if p == "" {
      assert s == rest;
    } else {
      assert !OccursAt(t, s, 0);
      assert s[1..] == p[1..] + rest;
      forall k | 0 <= k < |p| - 1
        ensures !OccursAt(t, p[1..] + rest, k)
      {
        assert !OccursAt(t, s, k + 1);
        assert k + |t| <= |s| - 1 ==> s[1..][k..k + |t|] == s[k + 1..k + 1 + |t|];
      }
      SkipPrefix(p[1..], rest, t, v);
      if |s| >= |t| {
        assert [p[0]] + (p[1..] + ReplaceAll(rest, t, v)) == p + ReplaceAll(rest, t, v);
      } else {
        assert |rest| < |t|;
      }
    }
  }

  /** Another token is not in the way: t starts neither in the text before it nor in it. */
  lemma NoOtherStart(text: string, token: string, texts: seq<string>, tokens: seq<string>, t: string, k: nat,
                     known: seq<string>)
    requires NoPercent(text) && IsToken(token) && |token| > 2 && IsToken(t) && |t| > 2 && t != token
    requires StandApart(texts, tokens, known) && (tokens != [] ==> "%" + texts[0] + "%" != t) && k < |text + token|
    ensures !OccursAt(t, text + token + Render(texts, tokens), k)
  {
    var rest := Render(texts, tokens);
    var s, last := text + token + rest, |text| + |token| - 1;
    assert s[|text|..|text| + |token|] == token;
    if OccursAt(t, s, k) {
      TokenPercents(t, s, k, k);
      TokenPercents(t, s, k, k + |t| - 1);
      PercentsBefore(text, token, rest, k);
      if k == |text| {
        PercentsBefore(text, token, rest, last);
        if last < k + |t| {
          TokenPercents(t, s, k, last);
        }
        PercentsBefore(text, token, rest, if k + |t| - 1 <= last then k + |t| - 1 else last);
      } else {
        EndsAtNext(texts, tokens, t, s[last..], known);
      }
    }
  }

  lemma PercentsBefore(text: string, token: string, rest: string, k: nat)
    requires NoPercent(text) && IsToken(token) && k < |text| + |token|
    ensures (text + token + rest)[k] == '%' <==> k == |text| || k == |text| + |token| - 1
  {
    if k < |text| {
      assert (text + token + rest)[k] == text[k];
    } else {
      assert (text + token + rest)[k] == token[k - |text|];
    }
  }

  /** A token that starts at a closing percent sign would be made of the text after it. */
  lemma EndsAtNext(texts: seq<string>, tokens: seq<string>, t: string, s: string, known: seq<string>)
    requires StandApart(texts, tokens, known) && IsToken(t) && |t| > 2 && s == "%" + Render(texts, tokens)
    requires tokens != [] ==> "%" + texts[0] + "%" != t
    ensures !OccursAt(t, s, 0)
  {
    var n := |texts[0]|;
    assert texts[0] in texts && s[1..n + 1] == texts[0];
    forall x | 1 <= x <= n
      ensures s[x] != '%'
    {
      assert s[x] == texts[0][x - 1];
    }
    if tokens != [] {
      assert tokens[0] in tokens && s[n + 1] == tokens[0][0];
      assert s[..n + 2] == "%" + texts[0] + "%";
    }
    if OccursAt(t, s, 0) {
      TokenPercents(t, s, 0, |t| - 1);
      if tokens != [] && n + 1 < |t| {
        TokenPercents(t, s, 0, n + 1);
      }
    }
  }

  lemma ReplaceThis(text: string, t: string, rest: string, v: string)
    requires NoPercent(text) && IsToken(t)
    ensures ReplaceAll(text + t + rest, t, v) == text + v + ReplaceAll(rest, t, v)
  {
    var s := text + t + rest;
    forall k | 0 <= k < |text|
      ensures !OccursAt(t, s, k)
    {
      PercentsBefore(text, t, rest, k);
      assert k + |t| <= |s| ==> s[k..k + |t|][0] == s[k];
    }
    ReplaceFirst(text, t, rest, v);
  }

  lemma SkipOther(text: string, token: string, texts: seq<string>, tokens: seq<string>, t: string, v: string,
                  known: seq<string>)
    requires NoPercent(text) && IsToken(token) && |token| > 2 && IsToken(t) && |t| > 2 && t != token
    requires StandApart(texts, tokens, known) && (tokens != [] ==> "%" + texts[0] + "%" != t)
    ensures ReplaceAll(text + token + Render(texts, tokens), t, v)
         == text + token + ReplaceAll(Render(texts, tokens), t, v)
  {
    forall k | 0 <= k < |text + token|
      ensures !OccursAt(t, text + token + Render(texts, tokens), k)
    {
      NoOtherStart(text, token, texts, tokens, t, k, known);
    }
    SkipPrefix(text + token, Render(texts, tokens), t, v);
  }

  lemma {:induction false} ReplacingMerges(texts: seq<string>, tokens: seq<string>, t: string, v: string,
                                           known: seq<string>)
    requires StandApart(texts, tokens, known) && t in known && IsToken(t) && |t| > 2
    ensures ReplaceAll(Render(texts, tokens), t, v) == Render(MergedTexts(texts, tokens, t, v), MergedTokens(tokens, t))
    decreases |tokens|
  {
    if tokens == [] {
      assert texts[0] in texts;
      NoneInEnd(texts[0], t);
      NothingToReplace(texts[0], t, v);
    } else {
      ApartTail(texts, tokens, known);
      ReplacingMerges(texts[1..], tokens[1..], t, v, known);
      if tokens[0] == t {
        ReplaceThis(texts[0], t, Render(texts[1..], tokens[1..]), v);
        MergedFirst(texts, tokens, t, v);
      } else {
        assert |tokens| > 1 ==> "%" + texts[1] + "%" !in known;
        SkipOther(texts[0], tokens[0], texts[1..], tokens[1..], t, v, known);
        MergedOther(texts, tokens, t, v);
      }
    }
  }

  lemma Prepend(head: string, texts: seq<string>, tokens: seq<string>)
    requires |texts| == |tokens| + 1
    ensures Render([head + texts[0]] + texts[1..], tokens) == head + Render(texts, tokens)
  {
    assert ([head + texts[0]] + texts[1..])[1..] == texts[1..];
    if tokens != [] {
      Regroup3(head, texts[0], tokens[0], Render(texts[1..], tokens[1..]));
    }
  }

  lemma Regroup3(a: string, b: string, c: string, e: string)
    ensures a + b + c + e == a + (b + c + e)
  {
  }

  lemma MergedFirst(texts: seq<string>, tokens: seq<string>, t: string, v: string)
    requires |texts| == |tokens| + 1 && tokens != [] && tokens[0] == t
    ensures Render(MergedTexts(texts, tokens, t, v), MergedTokens(tokens, t))
         == texts[0] + v + Render(MergedTexts(texts[1..], tokens[1..], t, v), MergedTokens(tokens[1..], t))
  {
    Prepend(texts[0] + v, MergedTexts(texts[1..], tokens[1..], t, v), MergedTokens(tokens[1..], t));
    assert MergedTokens(tokens, t) == MergedTokens(tokens[1..], t);
  }

  lemma MergedOther(texts: seq<string>, tokens: seq<string>, t: string, v: string)
    requires |texts| == |tokens| + 1 && tokens != [] && tokens[0] != t
    ensures Render(MergedTexts(texts, tokens, t, v), MergedTokens(tokens, t))
         == texts[0] + tokens[0] + Render(MergedTexts(texts[1..], tokens[1..], t, v), MergedTokens(tokens[1..], t))
  {
    var inner, kept := MergedTexts(texts[1..], tokens[1..], t, v), MergedTokens(tokens[1..], t);
    assert ([texts[0]] + inner)[1..] == inner && ([tokens[0]] + kept)[1..] == kept;
  }

  // ----- the merged message still has its placeholders apart -----

  lemma OtherMakesNoToken(x: string, k: nat, known: seq<string>)
    requires k < |x| && !IsTokenChar(x[k]) && AreTokens(known)
    ensures "%" + x + "%" !in known
  {
    var w := "%" + x + "%";
    assert w[k + 1] == x[k];
  }

  lemma {:induction false} MergedApart(texts: seq<string>, tokens: seq<string>, t: string, v: string,
                                       known: seq<string>)
    requires StandApart(texts, tokens, known) && IsPlainValue(v) && AreTokens(known)
    ensures StandApart(MergedTexts(texts, tokens, t, v), MergedTokens(tokens, t), known)
    ensures MergedTokens(tokens, t) != [] ==>
              MergedTexts(texts, tokens, t, v)[0] == texts[0] || HasOther(MergedTexts(texts, tokens, t, v)[0])
    decreases |tokens|
  {
    if tokens != [] {
      ApartTail(texts, tokens, known);
      MergedApart(texts[1..], tokens[1..], t, v, known);
      var inner, kept := MergedTexts(texts[1..], tokens[1..], t, v), MergedTokens(tokens[1..], t);
      if tokens[0] == t {
        OtherInside(texts[0], v, inner[0]);
        HeadMerged(texts[0] + v + inner[0], inner, kept, known);
        assert MergedTokens(tokens, t) == kept;
      } else {
        assert |tokens| > 1 ==> "%" + texts[1] + "%" !in known;
        HeadKept(texts[0], tokens[0], inner, kept, texts[1], known);
      }
    }
  }

  ghost predicate HasOther(x: string) {
    exists k | 0 <= k < |x| :: !IsTokenChar(x[k])
  }

  lemma OtherInside(a: string, v: string, b: string)
    requires IsPlainValue(v) && NoPercent(a)
    ensures HasOther(a + v + b) && (NoPercent(b) ==> NoPercent(a + v + b))
  {
    var k :| 0 <= k < |v| && !IsTokenChar(v[k]);
    assert (a + v + b)[|a| + k] == v[k];
  }

  lemma HeadMerged(head: string, texts: seq<string>, tokens: seq<string>, known: seq<string>)
    requires StandApart(texts, tokens, known) && NoPercent(head)
    ensures StandApart([head] + texts[1..], tokens, known)
  {
  }

  lemma HeadKept(text: string, token: string, texts: seq<string>, tokens: seq<string>, was: string, known: seq<string>)
    requires StandApart(texts, tokens, known) && NoPercent(text) && IsToken(token) && |token| > 2
    requires AreTokens(known)
    requires tokens != [] ==> HasOther(texts[0]) || (texts[0] == was && "%" + was + "%" !in known)
    ensures StandApart([text] + texts, [token] + tokens, known)
  {
    var all := [text] + texts;
    forall i | 1 <= i < |tokens| + 1
      ensures "%" + all[i] + "%" !in known
    {
      assert all[i] == texts[i - 1];
      if i == 1 && HasOther(texts[0]) {
        var k :| 0 <= k < |texts[0]| && !IsTokenChar(texts[0][k]);
        OtherMakesNoToken(texts[0], k, known);
      }
    }
  }

  // ----- all substitutions -----

  ghost predicate ArePlain(subs: seq<Substitution>, known: seq<string>) {
    forall x | x in subs :: x.token in known && IsPlainValue(x.value)
  }

  lemma {:induction false} MergedValues(texts: seq<string>, tokens: seq<string>, subs: seq<Substitution>)
    requires |texts| == |tokens| + 1 && subs != []
    ensures RenderWith(MergedTexts(texts, tokens, subs[0].token, subs[0].value), MergedTokens(tokens, subs[0].token),
                       subs[1..])
         == RenderWith(texts, tokens, subs)
    decreases |tokens|
  {
    var t, v := subs[0].token, subs[0].value;
    if tokens != [] {
      MergedValues(texts[1..], tokens[1..], subs);
      var inner, kept := MergedTexts(texts[1..], tokens[1..], t, v), MergedTokens(tokens[1..], t);
      if tokens[0] == t {
        PrependWith(texts[0] + v, inner, kept, subs[1..]);
        assert MergedTokens(tokens, t) == kept;
      } else {
        assert ([texts[0]] + inner)[1..] == inner && ([tokens[0]] + kept)[1..] == kept;
      }
    }
  }

  lemma PrependWith(head: string, texts: seq<string>, tokens: seq<string>, subs: seq<Substitution>)
    requires |texts| == |tokens| + 1
    ensures RenderWith([head + texts[0]] + texts[1..], tokens, subs) == head + RenderWith(texts, tokens, subs)
  {
    assert ([head + texts[0]] + texts[1..])[1..] == texts[1..];
    if tokens != [] {
      Regroup3(head, texts[0], ValueIn(subs, tokens[0]), RenderWith(texts[1..], tokens[1..], subs));
    }
  }

  lemma {:induction false} RenderNothing(texts: seq<string>, tokens: seq<string>)
    requires |texts| == |tokens| + 1
    ensures RenderWith(texts, tokens, []) == Render(texts, tokens)
    decreases |tokens|
  {
    if tokens != [] {
      RenderNothing(texts[1..], tokens[1..]);
    }
  }

  lemma {:induction false} FillsApart(texts: seq<string>, tokens: seq<string>, subs: seq<Substitution>,
                                      known: seq<string>)
    requires StandApart(texts, tokens, known) && ArePlain(subs, known) && AreTokens(known)
    ensures Substitute(Render(texts, tokens), subs) == RenderWith(texts, tokens, subs)
    decreases |subs|
  {
    if subs == [] {
      RenderNothing(texts, tokens);
    } else {
      var x, rest := subs[0], subs[1..];
      assert subs == [x] + rest && x in subs;
      SubstituteBoth(Render(texts, tokens), [x], rest);
      assert [x][..0] == [];
      ReplacingMerges(texts, tokens, x.token, x.value, known);
      MergedApart(texts, tokens, x.token, x.value, known);
      FillsApart(MergedTexts(texts, tokens, x.token, x.value), MergedTokens(tokens, x.token), rest, known);
      MergedValues(texts, tokens, subs);
    }
  }

  const ALL_TOKENS := RESOLVED_TOKENS + NAME_TOKENS

  lemma AllAreTokens(t: string)
    requires t in ALL_TOKENS
    ensures IsToken(t) && |t| > 2
  {
    LiteralTokens();
    assert IsToken("%username%") && IsToken("%nickname%") && IsToken("%server%");
  }

  // ----- the placeholders and their values -----

  /** What each placeholder stands for; one whose lookup fails stays in the text, and so does an empty nickname. */
  function Meaning(token: string, ticket: Ticket, now: int, names: Names): string {
    if token == "%user_id%" then Print(ticket.userId, 10)
    else if token == "%user%" then "<@" + Print(ticket.userId, 10) + ">"
    else if token == "%ticket_id%" then PrintInt(ticket.id)
    else if token == "%channel%" && ticket.channelId.Some? then "<#" + Print(ticket.channelId.value, 10) + ">"
    else if token == "%time%" then "<t:" + PrintInt(now) + ":t>"
    else if token == "%date%" then "<t:" + PrintInt(now) + ":d>"
    else if token == "%datetime%" then "<t:" + PrintInt(now) + ":f>"
    else if token == "%username%" && names.username.Some? then names.username.value
    else if token == "%nickname%" && names.nickname.Some? && names.nickname.value != "" then names.nickname.value
    else if token == "%server%" && names.server.Some? then names.server.value
    else token
  }

  function RenderMeaning(texts: seq<string>, tokens: seq<string>, ticket: Ticket, now: int, names: Names): string
    requires |texts| == |tokens| + 1
    decreases |tokens|
  {
    if tokens == [] then texts[0]
    else
      texts[0] + Meaning(tokens[0], ticket, now, names) + RenderMeaning(texts[1..], tokens[1..], ticket, now, names)
  }

  /** The list replaces the token. */
  ghost predicate Has(subs: seq<Substitution>, token: string) {
    exists x | x in subs :: x.token == token
  }

  /** The first substitution of a list for the token, if any. */
  lemma {:induction false} ValueSplits(first: seq<Substitution>, second: seq<Substitution>, token: string)
    ensures ValueIn(first + second, token) ==
            if Has(first, token) then ValueIn(first, token) else ValueIn(second, token)
  {
    var all := first + second;
    if first == [] {
      assert all == second;
    } else {
      assert all[1..] == first[1..] + second && first == [first[0]] + first[1..];
      ValueSplits(first[1..], second, token);
    }
  }

  lemma ValueOfThree(x: Substitution, y: Substitution, z: Substitution, token: string)
    ensures ValueIn([x, y, z], token) ==
            if x.token == token then x.value else if y.token == token then y.value
            else if z.token == token then z.value else token
    ensures Has([x, y, z], token) <==>
            x.token == token || y.token == token || z.token == token
  {
    assert [x, y, z][1..] == [y, z] && [y, z][1..] == [z] && [z][1..] == [];
    assert ValueIn([z], token) == if z.token == token then z.value else token;
    assert ValueIn([y, z], token) == if y.token == token then y.value else ValueIn([z], token);
    assert x in [x, y, z] && y in [x, y, z] && z in [x, y, z];
  }

  lemma ValueOfInserted(t: Needle, name: Option<string>, token: string)
    ensures ValueIn(Inserted(t, name), token) == if name.Some? && t == token then name.value else token
    ensures Has(Inserted(t, name), token) <==> name.Some? && t == token
  {
    if name.Some? {
      var x := Substitution(t, name.value);
      assert [x][1..] == [];
      assert x in [x];
    }
  }

  lemma HasEither(a: seq<Substitution>, b: seq<Substitution>, token: string)
    ensures Has(a + b, token) <==> Has(a, token) || Has(b, token)
  {
    forall w: Substitution
      ensures w in a + b <==> w in a || w in b
    {
    }
  }

  lemma ValueInNamed(names: Names, token: string)
    ensures ValueIn(Named(names), token) ==
            if token == "%username%" && names.username.Some? then names.username.value
            else if token == "%nickname%" && names.nickname.Some?
                 && names.nickname.value != "" then names.nickname.value
            else if token == "%server%" && names.server.Some? then names.server.value
            else token
  {
    var nickname := if names.nickname == Some("") then None else names.nickname;
    var u, n, g := Inserted("%username%", names.username), Inserted("%nickname%", nickname),
                   Inserted("%server%", names.server);
    ValueSplits(u + n, g, token);
    ValueSplits(u, n, token);
    ValueOfInserted("%username%", names.username, token);
    ValueOfInserted("%nickname%", nickname, token);
    ValueOfInserted("%server%", names.server, token);
    HasEither(u, n, token);
  }

  function ChannelOf(ticket: Ticket): seq<Substitution> {
    Inserted("%channel%", if ticket.channelId.Some? then Some("<#" + Print(ticket.channelId.value, 10) + ">") else None)
  }

  function FirstThree(ticket: Ticket): seq<Substitution> {
    [Substitution("%user_id%", Print(ticket.userId, 10)),
     Substitution("%user%", "<@" + Print(ticket.userId, 10) + ">"),
     Substitution("%ticket_id%", PrintInt(ticket.id))]
  }

  function Times(now: int): seq<Substitution> {
    [Substitution("%time%", "<t:" + PrintInt(now) + ":t>"),
     Substitution("%date%", "<t:" + PrintInt(now) + ":d>"),
     Substitution("%datetime%", "<t:" + PrintInt(now) + ":f>")]
  }

  lemma ResolvedInGroups(ticket: Ticket, now: int)
    ensures Resolved(ticket, now) == FirstThree(ticket) + (ChannelOf(ticket) + Times(now))
  {
  }

  lemma ValueInFirst(ticket: Ticket, token: string)
    ensures ValueIn(FirstThree(ticket), token) ==
            if token == "%user_id%" then Print(ticket.userId, 10)
            else if token == "%user%" then "<@" + Print(ticket.userId, 10) + ">"
            else if token == "%ticket_id%" then PrintInt(ticket.id)
            else token
    ensures Has(FirstThree(ticket), token) <==>
            token == "%user_id%" || token == "%user%" || token == "%ticket_id%"
  {
    var f := FirstThree(ticket);
    ValueOfThree(f[0], f[1], f[2], token);
    assert f == [f[0], f[1], f[2]];
  }

  lemma ValueInTimes(now: int, token: string)
    ensures ValueIn(Times(now), token) ==
            if token == "%time%" then "<t:" + PrintInt(now) + ":t>"
            else if token == "%date%" then "<t:" + PrintInt(now) + ":d>"
            else if token == "%datetime%" then "<t:" + PrintInt(now) + ":f>"
            else token
    ensures Has(Times(now), token) <==>
            token == "%time%" || token == "%date%" || token == "%datetime%"
  {
    var f := Times(now);
    ValueOfThree(f[0], f[1], f[2], token);
    assert f == [f[0], f[1], f[2]];
  }

  lemma ValueInFour(a: seq<Substitution>, b: seq<Substitution>, c: seq<Substitution>, e: seq<Substitution>,
                    token: string)
    ensures ValueIn(a + (b + (c + e)), token) ==
            if Has(a, token) then ValueIn(a, token)
            else if Has(b, token) then ValueIn(b, token)
            else if Has(c, token) then ValueIn(c, token)
            else ValueIn(e, token)
  {
    ValueSplits(a, b + (c + e), token);
    ValueSplits(b, c + e, token);
    ValueSplits(c, e, token);
  }

  lemma MeaningIs(token: string, ticket: Ticket, now: int, names: Names)
    ensures ValueIn(Resolved(ticket, now) + Named(names), token) == Meaning(token, ticket, now, names)
  {
    ResolvedInGroups(ticket, now);
    Groups(FirstThree(ticket), ChannelOf(ticket), Times(now), Named(names));
    ValueInFour(FirstThree(ticket), ChannelOf(ticket), Times(now), Named(names), token);
    ValueInFirst(ticket, token);
    ValueOfInserted("%channel%", if ticket.channelId.Some? then Some("<#" + Print(ticket.channelId.value, 10) + ">")
                                 else None, token);
    ValueInTimes(now, token);
    ValueInNamed(names, token);
  }

  lemma Groups<T>(a: seq<T>, b: seq<T>, c: seq<T>, e: seq<T>)
    ensures (a + (b + c)) + e == a + (b + (c + e))
  {
  }

  lemma ArePlainAll(ticket: Ticket, now: int, names: Names)
    requires forall y | y in Named(names) :: IsPlainValue(y.value)
    ensures ArePlain(Resolved(ticket, now) + Named(names), ALL_TOKENS) && AreTokens(ALL_TOKENS)
  {
    ResolvedAreInert(ticket, now);
    TokensAre(ticket, now, names);
    forall t | t in ALL_TOKENS
      ensures IsToken(t) && |t| > 2
    {
      AllAreTokens(t);
    }
    forall x | x in Resolved(ticket, now) + Named(names)
      ensures x.token in ALL_TOKENS && IsPlainValue(x.value)
    {
      InEither(RESOLVED_TOKENS, NAME_TOKENS, x.token);
      if x in Resolved(ticket, now) {
        InertIsPlain(x.value);
      }
    }
  }

  lemma InEither(a: seq<string>, b: seq<string>, t: string)
    ensures t in a + b <==> t in a || t in b
  {
  }

  lemma InertIsPlain(v: string)
    requires IsInert(v)
    ensures IsPlainValue(v)
  {
    var k :| 0 <= k < |v| && '0' <= v[k] <= '9';
    assert !IsTokenChar(v[k]);
  }

  lemma {:induction false} SameRender(texts: seq<string>, tokens: seq<string>, ticket: Ticket, now: int, names: Names)
    requires |texts| == |tokens| + 1
    ensures RenderWith(texts, tokens, Resolved(ticket, now) + Named(names))
         == RenderMeaning(texts, tokens, ticket, now, names)
    decreases |tokens|
  {
    if tokens != [] {
      SameRender(texts[1..], tokens[1..], ticket, now, names);
      MeaningIs(tokens[0], ticket, now, names);
    }
  }

  /**
   The whole function on a message whose placeholders stand apart: each is replaced by what it stands for and the text
   between them stays, when no inserted name has a percent sign or is made of token characters only.
   */
  lemma MessageIsFilled(texts: seq<string>, tokens: seq<string>, ticket: Ticket, now: int, names: Names)
    requires StandApart(texts, tokens, ALL_TOKENS) && forall y | y in Named(names) :: IsPlainValue(y.value)
    ensures Filled(Render(texts, tokens), ticket, now, names) == RenderMeaning(texts, tokens, ticket, now, names)
  {
    ArePlainAll(ticket, now, names);
    FillsApart(texts, tokens, Resolved(ticket, now) + Named(names), ALL_TOKENS);
    SameRender(texts, tokens, ticket, now, names);
  }

  // ----- one placeholder, and any name without a percent sign -----

  ghost predicate AreFree(subs: seq<Substitution>) {
    forall x | x in subs :: IsToken(x.token) && |x.token| > 2 && NoPercent(x.value)
  }

  lemma NoTokenInside(s: string, t: string)
    requires NoPercent(s) && IsToken(t)
    ensures !Occurs(t, s)
  {
    NoneInEnd(s, t);
  }

  lemma {:induction false} OneIsFilled(before: string, t: string, after: string, subs: seq<Substitution>)
    requires NoPercent(before) && NoPercent(after) && IsToken(t) && |t| > 2 && AreFree(subs)
    ensures Substitute(before + t + after, subs) == before + ValueIn(subs, t) + after
    decreases |subs|
  {
    if subs != [] {
      var x, rest := subs[0], subs[1..];
      assert subs == [x] + rest && x in subs && [x][..0] == [];
      SubstituteBoth(before + t + after, [x], rest);
      NoTokenInside(after, x.token);
      NothingToReplace(after, x.token, x.value);
      if x.token == t {
        ReplaceThis(before, t, after, x.value);
        PlainStays(before + x.value + after, rest);
      } else {
        SkipOther(before, t, [after], [], x.token, x.value, []);
        OneIsFilled(before, t, after, rest);
      }
    }
  }

  lemma PlainStays(s: string, subs: seq<Substitution>)
    requires NoPercent(s) && AreFree(subs)
    ensures Substitute(s, subs) == s
  {
    forall x | x in subs
      ensures !Occurs(x.token, s)
    {
      NoTokenInside(s, x.token);
    }
    NothingToSubstitute(s, subs);
  }

  /** A message with one placeholder: it is replaced by what it stands for, for any names without a percent sign. */
  lemma OnePlaceholderIsFilled(before: string, token: string, after: string, ticket: Ticket, now: int, names: Names)
    requires NoPercent(before) && NoPercent(after) && token in ALL_TOKENS
    requires forall y | y in Named(names) :: NoPercent(y.value)
    ensures Filled(before + token + after, ticket, now, names) == before + Meaning(token, ticket, now, names) + after
  {
    AllAreTokens(token);
    ResolvedAreInert(ticket, now);
    TokensAre(ticket, now, names);
    forall x | x in Resolved(ticket, now) + Named(names)
      ensures IsToken(x.token) && |x.token| > 2 && NoPercent(x.value)
    {
      InEither(RESOLVED_TOKENS, NAME_TOKENS, x.token);
      AllAreTokens(x.token);
    }
    OneIsFilled(before, token, after, Resolved(ticket, now) + Named(names));
    MeaningIs(token, ticket, now, names);
  }
}
