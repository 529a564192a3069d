/** What every reachable state of the live-chat protocol satisfies. */
module LiveChatSafety {
  import opened Sequences
  import opened Registry
  import opened LiveChat

  /** The positions in log[a..b] of the broadcasts a client is meant to see, in order. */
  function Picked(log: seq<Message>, a: nat, b: nat, guild: nat, ticket: int): seq<nat>
    requires b <= |log|
  {
    if b <= a then []
    else Picked(log, a, b - 1, guild, ticket) + (if Relevant(log[b - 1], guild, ticket) then [b - 1] else [])
  }

  predicate Relevant(m: Message, guild: nat, ticket: int) {
    m.encodable && Matches(m, guild, ticket)
  }

  ghost predicate LocalOk(cl: Client) {
    && (cl.read.Unstarted? <==> cl.handler.Registering? || cl.handler.Registered?)
    && (cl.write.Idle? <==> !cl.handler.Finished?)
    && (cl.txOpen <==> !cl.read.Closed?)
    && (cl.read.Handling? && cl.read.event.Other? ==> cl.authenticated)
    && (cl.authenticated <==> cl.grant.Some?)
    && (cl.authenticated ==> !cl.read.Unstarted? && Entitles(cl.grant.value, cl.guild))
    && (!cl.authenticated ==> cl.delivered == [])
  }

  ghost predicate TableOk(s: State) {
    && (forall g | g in s.table :: Distinct(s.table[g]))
    && (forall g, c | g in s.table && c in s.table[g] ::
          c in s.clients && s.clients[c].guild == g && Listed(s.clients[c]))
    && (forall c | c in s.clients && Listed(s.clients[c]) :: c in Lookup(s.table, s.clients[c].guild))
    && s.gauge == Total(s.table)
  }

  ghost predicate RunOk(s: State) {
    !s.run.Select? ==>
      && s.run.at + 1 == |s.log|
      && s.run.msg == s.log[s.run.at] && s.run.msg.encodable
      && s.run.list == Lookup(s.table, s.run.msg.guild)
      && s.run.j <= |s.run.list|
      && (s.run.Sending? ==>
            && s.run.j < |s.run.list| && s.run.list[s.run.j] in s.clients
            && var cl := s.clients[s.run.list[s.run.j]];
               cl.authenticated && Matches(s.run.msg, cl.guild, cl.ticket))
  }

  ghost predicate HistoryOk(s: State, c: nat)
    requires c in s.clients
  {
    var cl := s.clients[c];
    cl.authenticated ==>
      && cl.authAt <= Passed(s, c) <= |s.log|
      && cl.delivered == Picked(s.log, cl.authAt, Passed(s, c), cl.guild, cl.ticket)
  }

  ghost predicate Inv(s: State) {
    && TableOk(s)
    && RunOk(s)
    && forall c | c in s.clients :: LocalOk(s.clients[c]) && HistoryOk(s, c)
  }

  // ----- steps that touch one client's own record -----

  ghost predicate Private(step: Step) {
    match step
    case Connect(_, _, _) => false
    case Register(_) => false
    case Unregister(_) => false
    case Take(_) => false
    case Visit => false
    case Deliver => false
    case _ => true
  }

  /** A new record for a listed-as-before client; authentication may have become visible just now. */
  ghost predicate SameHistory(s: State, c: nat, cl: Client)
    requires c in s.clients
  {
    var was := s.clients[c];
    && cl.guild == was.guild && cl.ticket == was.ticket && cl.delivered == was.delivered
    && cl.leftAt == was.leftAt && Listed(cl) == Listed(was)
    && (was.authenticated ==> cl.authenticated && cl.authAt == was.authAt)
    && (cl.authenticated && !was.authenticated ==> Listed(was) && cl.authAt == Passed(s, c))
  }

  lemma HandleEffect(s: State, c: nat)
    requires Enabled(s, Handle(c)) && LocalOk(s.clients[c])
    ensures LocalOk(HandleEvent(s, c)) && SameHistory(s, c, HandleEvent(s, c))
  {
  }

  lemma PrivateEffect(s: State, step: Step) returns (cl: Client)
    requires Enabled(s, step) && Private(step) && step.c in s.clients && LocalOk(s.clients[step.c])
    ensures Do(s, step) == Set(s, step.c, cl)
    ensures LocalOk(cl) && SameHistory(s, step.c, cl)
    ensures !step.Handle? ==> cl.authenticated == s.clients[step.c].authenticated
  {
    cl := Do(s, step).clients[step.c];
    if step.Handle? {
      HandleEffect(s, step.c);
    }
  }

  lemma PrivateStep(s: State, step: Step)
    requires Inv(s) && Enabled(s, step) && Private(step)
    ensures Inv(Do(s, step))
  {
    var cl := PrivateEffect(s, step);
    SetKeepsInv(s, step.c, cl);
  }

  lemma SetKeepsInv(s: State, c: nat, cl: Client)
    requires Inv(s) && c in s.clients && LocalOk(cl) && SameHistory(s, c, cl)
    ensures Inv(Set(s, c, cl))
  {
    var s' := Set(s, c, cl);
    assert HistoryOk(s, c) && LocalOk(s.clients[c]);
    if !s.clients[c].authenticated {
      assert Passed(s', c) == Passed(s, c);
      assert cl.delivered == [];
    }
    forall d | d in s'.clients
      ensures LocalOk(s'.clients[d]) && HistoryOk(s', d)
    {
      if d != c {
        assert HistoryOk(s, d) && Passed(s', d) == Passed(s, d);
      }
    }
  }

  // ----- steps of Run -----

  lemma ConnectStep(s: State, c: nat, guild: nat, ticket: int)
    requires Inv(s) && c !in s.clients
    ensures Inv(Do(s, Connect(c, guild, ticket)))
  {
    var s' := Do(s, Connect(c, guild, ticket));
    forall d | d in s'.clients
      ensures LocalOk(s'.clients[d]) && HistoryOk(s', d)
    {
      if d != c {
        assert HistoryOk(s, d) && Passed(s', d) == Passed(s, d);
      }
    }
  }

  lemma RegisterStep(s: State, c: nat)
    requires Inv(s) && Enabled(s, Register(c))
    ensures Inv(Do(s, Register(c)))
  {
    var s' := Do(s, Register(c));
    var g := s.clients[c].guild;
    var old_ := Lookup(s.table, g);
    assert c !in old_;
    TotalUpdate(s.table, g, old_ + [c]);
    assert Distinct(old_ + [c]);
    assert c in s'.table[g];
    forall d | d in s'.clients
      ensures LocalOk(s'.clients[d]) && HistoryOk(s', d)
      ensures Listed(s'.clients[d]) ==> d in Lookup(s'.table, s'.clients[d].guild)
    {
      if d != c {
        assert HistoryOk(s, d) && Passed(s', d) == Passed(s, d);
      }
    }
  }

  /** When a read loop unregisters, its client is listed: neither early exit of the arm is taken. */
  lemma UnregisterStep(s: State, c: nat)
    requires Inv(s) && Enabled(s, Unregister(c))
    ensures Inv(Do(s, Unregister(c)))
  {
    var s' := Do(s, Unregister(c));
    var g := s.clients[c].guild;
    var list := Lookup(s.table, g);
    assert c in list && g in s.table;
    var i := IndexOf(list, c);
    CutMembers(list, i);
    TotalUpdate(s.table, g, Cut(list, i));
    forall d | d in s'.clients
      ensures LocalOk(s'.clients[d]) && HistoryOk(s', d)
      ensures Listed(s'.clients[d]) ==> d in Lookup(s'.table, s'.clients[d].guild)
    {
      assert HistoryOk(s, d);
      if d != c {
        assert Passed(s', d) == Passed(s, d);
      }
    }
  }

  lemma {:induction false} PickedExtend(log: seq<Message>, m: Message, a: nat, b: nat, guild: nat, ticket: int)
    requires b <= |log|
    ensures Picked(log + [m], a, b, guild, ticket) == Picked(log, a, b, guild, ticket)
  {
    if b > a {
      PickedExtend(log, m, a, b - 1, guild, ticket);
      assert (log + [m])[b - 1] == log[b - 1];
    }
  }

  lemma TakeStep(s: State, msg: Message)
    requires Inv(s) && s.run == Select
    ensures Inv(Do(s, Take(msg)))
  {
    var s' := Do(s, Take(msg));
    forall c | c in s'.clients && s'.clients[c].authenticated
      ensures HistoryOk(s', c)
    {
      var cl := s.clients[c];
      assert HistoryOk(s, c);
      PickedExtend(s.log, msg, cl.authAt, Passed(s, c), cl.guild, cl.ticket);
      if Listed(cl) {
        assert c in Lookup(s.table, cl.guild);
        assert Passed(s, c) == |s.log|;
        if Relevant(msg, cl.guild, cl.ticket) {
          assert Pending(s'.run, c);
        } else if !Pending(s'.run, c) {
          assert Passed(s', c) == |s.log| + 1;
        }
      }
    }
  }

  lemma VisitStep(s: State)
    requires Inv(s) && s.run.Visiting?
    ensures Inv(Do(s, Visit))
  {
    var s' := Do(s, Visit);
    var list, j := s.run.list, s.run.j;
    forall c | c in s'.clients
      ensures HistoryOk(s', c)
    {
      assert HistoryOk(s, c);
      if j < |list| {
        assert list[j..] == [list[j]] + list[j + 1..];
        assert list[j] !in list[j + 1..];
      }
    }
  }

  lemma DeliverStep(s: State)
    requires Inv(s) && Enabled(s, Deliver)
    ensures Inv(Do(s, Deliver))
  {
    var s' := Do(s, Deliver);
    var list, j := s.run.list, s.run.j;
    var c := list[j];
    assert list[j..] == [c] + list[j + 1..];
    assert c !in list[j + 1..];
    assert c in s.table[s.run.msg.guild] && Listed(s.clients[c]);
    assert Pending(s.run, c) && !Pending(s'.run, c);
    assert Passed(s', c) == s.run.at + 1;
    forall d | d in s'.clients
      ensures LocalOk(s'.clients[d]) && HistoryOk(s', d)
    {
      assert HistoryOk(s, d);
      if d != c {
        assert Pending(s'.run, d) == Pending(s.run, d);
        assert Passed(s', d) == Passed(s, d);
      }
    }
  }

  lemma StepKeepsInv(s: State, step: Step)
    requires Inv(s) && Enabled(s, step)
    ensures Inv(Do(s, step))
  {
    match step
    case Connect(c, guild, ticket) => ConnectStep(s, c, guild, ticket);
    case Register(c) => RegisterStep(s, c);
    case Unregister(c) => UnregisterStep(s, c);
    case Take(msg) => TakeStep(s, msg);
    case Visit => VisitStep(s);
    case Deliver => DeliverStep(s);
    case _ => PrivateStep(s, step);
  }

  lemma {:induction false} RunKeepsInv(states: seq<State>, steps: seq<Step>, i: nat)
    requires IsRun(states, steps) && i < |states|
    ensures Inv(states[i])
  {
    if i > 0 {
      RunKeepsInv(states, steps, i - 1);
      StepKeepsInv(states[i - 1], steps[i - 1]);
    }
  }
}
