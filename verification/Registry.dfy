/**
 The `clients` map of the live-chat socket manager: guild id to the list of its
 connected clients. The functions are the specification of the register and
 unregister arms of `Run`; they are generic in the client type so that both the
 imperative class and the protocol model use the same definitions.
 */
module Registry {
  import opened Sequences

  type Table<C> = map<nat, seq<C>>

  function Lookup<C>(t: Table<C>, guild: nat): seq<C> {
    if guild in t then t[guild] else []
  }

  /** The register arm. */
  function Add<C>(t: Table<C>, guild: nat, client: C): Table<C> {
    t[guild := Lookup(t, guild) + [client]]
  }

  /** The position of the first occurrence, or -1. */
  function IndexOf<C(==)>(s: seq<C>, client: C): (i: int)
    ensures -1 <= i < |s|
    ensures i == -1 <==> client !in s
    ensures i >= 0 ==> s[i] == client && client !in s[..i]
  {
    if s == [] then -1
    else if s[0] == client then 0
    else
      var i := IndexOf(s[1..], client);
      if i == -1 then -1 else i + 1
  }

  function Cut<C>(s: seq<C>, i: int): seq<C>
    requires -1 <= i < |s|
  {
    if i == -1 then s else s[..i] + s[i + 1..]
  }

  /** The unregister arm: an empty list is left alone, and the gauge is then not touched either. */
  function Remove<C(==)>(t: Table<C>, guild: nat, client: C): Table<C> {
    var list := Lookup(t, guild);
    if list == [] then t else t[guild := Cut(list, IndexOf(list, client))]
  }

  function GaugeDelta<C>(t: Table<C>, guild: nat): int {
    if Lookup(t, guild) == [] then 0 else -1
  }

  /** A registered client comes last in its guild's list; other lists are as they were. */
  lemma AddIs<C>(t: Table<C>, guild: nat, client: C, other: nat)
    ensures Lookup(Add(t, guild, client), other) ==
            if other == guild then Lookup(t, guild) + [client] else Lookup(t, other)
  {
  }

  /** Unregistering takes the first occurrence out of the guild's list and keeps the order of the rest. */
  lemma RemoveIs<C>(t: Table<C>, guild: nat, client: C, other: nat, i: nat)
    requires i < |Lookup(t, guild)| && Lookup(t, guild)[i] == client && client !in Lookup(t, guild)[..i]
    ensures Lookup(Remove(t, guild, client), other) ==
            if other == guild then Lookup(t, guild)[..i] + Lookup(t, guild)[i + 1..] else Lookup(t, other)
  {
    var j := IndexOf(Lookup(t, guild), client);
    assert j == i;
  }

  /** Unregistering a client that is not listed changes no list. */
  lemma RemoveAbsent<C>(t: Table<C>, guild: nat, client: C, other: nat)
    requires client !in Lookup(t, guild)
    ensures Lookup(Remove(t, guild, client), other) == Lookup(t, other)
  {
  }

  ghost function AnyGuild<C>(t: Table<C>): nat
    requires t != map[]
    ensures AnyGuild(t) in t
  {
    var g :| g in t;
    g
  }

  /** The number of list entries over all guilds. */
  ghost function Total<C>(t: Table<C>): nat
    decreases |t|
  {
    if t == map[] then 0
    else
      var g := AnyGuild(t);
      |t[g]| + Total(t - {g})
  }

  lemma {:induction false} TotalSplit<C>(t: Table<C>, guild: nat)
    requires guild in t
    ensures Total(t) == |t[guild]| + Total(t - {guild})
    decreases |t|
  {
    var h := AnyGuild(t);
    if h != guild {
      TotalSplit(t - {h}, guild);
      TotalSplit(t - {guild}, h);
      assert t - {h} - {guild} == t - {guild} - {h};
    }
  }

  lemma TotalUpdate<C>(t: Table<C>, guild: nat, list: seq<C>)
    ensures Total(t[guild := list]) == Total(t) - |Lookup(t, guild)| + |list|
  {
    var u := t[guild := list];
    TotalSplit(u, guild);
    assert u - {guild} == t - {guild};
    if guild in t {
      TotalSplit(t, guild);
    } else {
      assert t - {guild} == t;
    }
  }

  /** Cutting the only occurrence of a client removes exactly that client. */
  lemma CutMembers<C>(s: seq<C>, i: nat)
    requires i < |s| && Distinct(s)
    ensures Distinct(Cut(s, i))
    ensures forall c :: c in Cut(s, i) <==> c in s && c != s[i]
    ensures |Cut(s, i)| == |s| - 1
  {
  }
}
