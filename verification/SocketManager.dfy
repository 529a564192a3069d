/**
 The live-chat socket manager as an object: one method per arm of the select in
 `Run`, each proved against the table functions of `Registry`.
 */
module SocketManagers {
  import opened Sequences
  import opened Registry

  /** A relayed chat message; `encodable` says whether its JSON encoding succeeds. */
  datatype Relay = Relay(guild: nat, ticket: int, encodable: bool, body: string)

  class Client {
    const guild: nat
    const ticket: int
    var authenticated: bool
    var received: seq<string>  // message events accepted on tx, oldest first

    constructor (guild: nat, ticket: int)
      ensures this.guild == guild && this.ticket == ticket
      ensures !authenticated && received == []
    {
      this.guild, this.ticket := guild, ticket;
      authenticated, received := false, [];
    }

    method Write(body: string)
      modifies this`received
      ensures received == old(received) + [body]
    {
      received := received + [body];
    }

    predicate Wants(msg: Relay)
      reads this`authenticated
    {
      msg.encodable && authenticated && guild == msg.guild && ticket == msg.ticket
    }
  }

  /** Go's copy over an overlapping slice: drops element i of the first n by shifting the rest down. */
  method ShiftOut<C>(a: array<C>, i: nat, n: nat) returns (m: nat)
    requires i < n <= a.Length
    modifies a
    ensures m == n - 1 && a[..m] == Cut(old(a[..n]), i)
  {
    var k := i;
    while k + 1 < n
      invariant i <= k < n
      invariant forall x | 0 <= x < i :: a[x] == old(a[x])
      invariant forall x | i <= x < k :: a[x] == old(a[x + 1])
      invariant forall x | k < x < n :: a[x] == old(a[x])
    {
      a[k] := a[k + 1];
      k := k + 1;
    }
    m := n - 1;
  }

  class SocketManager {
    var clients: Table<Client>
    var gauge: int

    /** Every listed client sits once in the list of its own guild, and the gauge counts the list entries. */
    ghost predicate Valid()
      reads this
    {
      && (forall g | g in clients :: Distinct(clients[g]) && forall c | c in clients[g] :: c.guild == g)
      && gauge == Total(clients)
    }

    constructor ()
      ensures Valid() && clients == map[] && gauge == 0
    {
      clients, gauge := map[], 0;
    }

    /** Faithful on any table; a valid table stays valid when the client is new. */
    method Register(client: Client)
      modifies this
      ensures clients == Add(old(clients), client.guild, client) && gauge == old(gauge) + 1
      ensures old(Valid() && client !in Lookup(clients, client.guild)) ==>
                Valid() && client in Lookup(clients, client.guild)
    {
      var guildClients := Lookup(clients, client.guild);
      TotalUpdate(clients, client.guild, guildClients + [client]);
      guildClients := guildClients + [client];
      clients := clients[client.guild := guildClients];
      gauge := gauge + 1;
    }

    /** Faithful on any table; a valid table stays valid when the client is listed, and never lists it again. */
    method Unregister(client: Client)
      modifies this
      ensures clients == Remove(old(clients), client.guild, client)
      ensures gauge == old(gauge) + GaugeDelta(old(clients), client.guild)
      ensures old(Valid() && client in Lookup(clients, client.guild)) ==>
                Valid() && client !in Lookup(clients, client.guild)
    {
      var guildClients := Lookup(clients, client.guild);
      if |guildClients| == 0 {
        return;
      }
      ghost var before := guildClients;

      var i := -1;
      for index := 0 to |guildClients|
        invariant i == -1
        invariant client !in guildClients[..index]
      {
        if guildClients[index] == client {
          i := index;
          break;
        }
      }
      FirstOccurrence(guildClients, client, i);

      if i != -1 {
        var backing := new Client[|guildClients|](k requires 0 <= k < |guildClients| => guildClients[k]);
        assert backing[..|guildClients|] == guildClients;
        var n := ShiftOut(backing, i, |guildClients|);
        guildClients := backing[..n];
      }

      TotalUpdate(clients, client.guild, guildClients);
      clients := clients[client.guild := guildClients];
      gauge := gauge - 1;
      if i != -1 && Distinct(before) {
        CutMembers(before, i);
      }
    }

    /** Each client of the guild that wants the message receives it once, every other client nothing. */
    method Broadcast(msg: Relay)
      requires Valid()
      modifies Lookup(clients, msg.guild)
      ensures forall c | c in Lookup(clients, msg.guild) ::
                && c.authenticated == old(c.authenticated)
                && c.received == old(c.received)
                   + (if msg.encodable && old(c.authenticated) && c.guild == msg.guild && c.ticket == msg.ticket
                      then [msg.body] else [])
    {
      var guildClients := Lookup(clients, msg.guild);
      if |guildClients| == 0 || !msg.encodable {
        return;
      }
      for j := 0 to |guildClients|
        invariant forall c | c in guildClients :: c.authenticated == old(c.authenticated)
        invariant forall x | 0 <= x < j :: var c := guildClients[x];
                    c.received == old(c.received) + (if old(c.Wants(msg)) then [msg.body] else [])
        invariant forall x | j <= x < |guildClients| :: guildClients[x].received == old(guildClients[x].received)
      {
        var client := guildClients[j];
        if !client.authenticated {
          continue;
        }
        if client.guild != msg.guild || client.ticket != msg.ticket {
          continue;
        }
        client.Write(msg.body);
      }
    }
  }

  lemma FirstOccurrence(s: seq<Client>, client: Client, i: int)
    requires -1 <= i < |s|
    requires i == -1 ==> client !in s
    requires i >= 0 ==> s[i] == client && client !in s[..i]
    ensures i == IndexOf(s, client)
  {
  }
}
