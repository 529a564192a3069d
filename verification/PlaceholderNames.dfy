/** The whole substitution: after the basic placeholders, the names that need an API call. */
module PlaceholderNames {
  import opened Wrappers
  import opened Strings
  import opened Placeholders

  /** What the lookups answer: a user name, a nickname that may be empty, a server name. */
  datatype Names = Names(username: Option<string>, nickname: Option<string>, server: Option<string>)

  /** The substitution of one name, if it is inserted. */
  function Inserted(token: Needle, name: Option<string>): seq<Substitution> {
    if name.Some? then [Substitution(token, name.value)] else []
  }

  function Named(names: Names): seq<Substitution> {
    Inserted("%username%", names.username)
    + Inserted("%nickname%", if names.nickname == Some("") then None else names.nickname)
    + Inserted("%server%", names.server)
  }

  /** The text after all substitutions. */
  function Filled(content: string, ticket: Ticket, now: int, names: Names): string {
    Substitute(content, Resolved(ticket, now) + Named(names))
  }

  lemma {:induction false} SubstituteBoth(content: string, first: seq<Substitution>, then_: seq<Substitution>)
    ensures Substitute(content, first + then_) == Substitute(Substitute(content, first), then_)
    decreases |then_|
  {
    if then_ == [] {
      assert first + then_ == first;
    } else {
      var n := |then_| - 1;
      SubstituteBoth(content, first, then_[..n]);
      assert (first + then_)[..|first| + n] == first + then_[..n];
    }
  }

  const RESOLVED_TOKENS := ["%user_id%", "%user%", "%ticket_id%", "%channel%", "%time%", "%date%", "%datetime%"]
  const NAME_TOKENS := ["%username%", "%nickname%", "%server%"]

  lemma TokensAre(ticket: Ticket, now: int, names: Names)
    ensures forall x | x in Resolved(ticket, now) :: x.token in RESOLVED_TOKENS
    ensures forall y | y in Named(names) :: y.token in NAME_TOKENS
  {
    forall i | 0 <= i < |RESOLVED_TOKENS|
      ensures RESOLVED_TOKENS[i] in RESOLVED_TOKENS
    {
    }
    assert NAME_TOKENS[0] in NAME_TOKENS && NAME_TOKENS[1] in NAME_TOKENS && NAME_TOKENS[2] in NAME_TOKENS;
  }

  /** No name placeholder is a resolved token, or starts one but for its last percent sign. */
  lemma TokensDiffer(t: string, needle: string)
    requires t in RESOLVED_TOKENS && needle in NAME_TOKENS
    ensures needle != "" && t != needle && !(needle[..|needle| - 1] <= t)
  {
    assert needle[1] == 'n' || needle[1] == 's' || (needle[1] == 'u' && needle[5] == 'n');
    assert t[1] != 'n' && t[1] != 's' && (t[1] == 'u' ==> t[5] != 'n');
  }

  lemma NameTokens(names: Names)
    ensures forall x | x in Named(names) :: IsToken(x.token)
  {
    assert IsToken("%username%") && IsToken("%nickname%") && IsToken("%server%");
  }

  /** So a name placeholder and a resolved token never stand for each other. */
  lemma NamesApply(ticket: Ticket, now: int, names: Names, y: Substitution)
    requires y in Named(names)
    ensures IsToken(y.token)
    ensures forall x | x in Resolved(ticket, now) ::
              IsToken(x.token) && x.token != y.token && !(y.token[..|y.token| - 1] <= x.token)
  {
    ResolvedAreInert(ticket, now);
    NameTokens(names);
    TokensAre(ticket, now, names);
    forall x | x in Resolved(ticket, now)
      ensures x.token != y.token && !(y.token[..|y.token| - 1] <= x.token)
    {
      TokensDiffer(x.token, y.token);
    }
  }

  /** No name that is inserted is a part of t, is empty, or has a percent sign. */
  ghost predicate AllBlock(names: Names, t: string) {
    forall y | y in Named(names) :: Blocks(y.value, t)
  }

  /** Then the whole text is free of the resolved token t, however many names are inserted. */
  lemma NamesKeepTokensOut(content: string, ticket: Ticket, now: int, names: Names, x: Substitution)
    requires x in Resolved(ticket, now) && AllBlock(names, x.token)
    ensures !Occurs(x.token, Filled(content, ticket, now, names))
  {
    ResolvedAreInert(ticket, now);
    NameTokens(names);
    NoResolvedTokenLeft(content, ticket, now, x);
    SubstituteBoth(content, Resolved(ticket, now), Named(names));
    if Occurs(x.token, Filled(content, ticket, now, names)) {
      OnlyOldTokens(Substitute(content, Resolved(ticket, now)), Named(names), x.token);
    }
  }

  method InsertName(content: string, ghost done: seq<Substitution>, text: string, token: Needle, name: Option<string>)
    returns (r: string)
    requires text == Substitute(content, done)
    ensures r == Substitute(content, done + Inserted(token, name))
  {
    r := text;
    if name.Some? {
      r := ReplaceAll(r, token, name.value);
      assert (done + [Substitution(token, name.value)])[..|done|] == done;
    } else {
      assert done + [] == done;
    }
  }

  lemma Regroup<T>(first: seq<T>, a: seq<T>, b: seq<T>, c: seq<T>)
    ensures first + a + b + c == first + (a + b + c)
  {
  }

  method InsertNames(content: string, ghost first: seq<Substitution>, basic: string, names: Names) returns (r: string)
    requires basic == Substitute(content, first)
    ensures r == Substitute(content, first + Named(names))
  {
    var nickname := if names.nickname == Some("") then None else names.nickname;
    ghost var a, b := Inserted("%username%", names.username), Inserted("%nickname%", nickname);
    r := InsertName(content, first, basic, "%username%", names.username);
    r := InsertName(content, first + a, r, "%nickname%", nickname);
    r := InsertName(content, first + a + b, r, "%server%", names.server);
    Regroup(first, a, b, Inserted("%server%", names.server));
  }

  method ReplacePlaceholders(content: string, ticket: Ticket, now: int, names: Names) returns (r: string)
    ensures r == Filled(content, ticket, now, names)
    ensures forall x | x in Resolved(ticket, now) && AllBlock(names, x.token) :: !Occurs(x.token, r)
  {
    r := ReplaceBasic(content, ticket, now);
    r := InsertNames(content, Resolved(ticket, now), r, names);
    forall x | x in Resolved(ticket, now) && AllBlock(names, x.token)
      ensures !Occurs(x.token, r)
    {
      NamesKeepTokensOut(content, ticket, now, names, x);
    }
  }
}
