/** The promises of the live-chat protocol, over every run. */
module LiveChatTheorems {
  import opened Wrappers
  import opened Sequences
  import opened Registry
  import opened LiveChat
  import opened LiveChatSafety

  /** A registered client is listed exactly once, under its own guild and nowhere else; others are not listed. */
  lemma ListedExactlyOnce(states: seq<State>, steps: seq<Step>, i: nat, c: nat, guild: nat)
    requires IsRun(states, steps) && i < |states| && c in states[i].clients
    ensures c in Lookup(states[i].table, guild) <==>
            Listed(states[i].clients[c]) && guild == states[i].clients[c].guild
    ensures Distinct(Lookup(states[i].table, guild))
  {
    RunKeepsInv(states, steps, i);
  }

  lemma GaugeCountsListed(states: seq<State>, steps: seq<Step>, i: nat)
    requires IsRun(states, steps) && i < |states|
    ensures states[i].gauge == Total(states[i].table)
  {
    RunKeepsInv(states, steps, i);
  }

  /** No goroutine is ever blocked sending on a closed tx, and no tx is closed twice. */
  lemma NeverSendsOnClosed(states: seq<State>, steps: seq<Step>, i: nat)
    requires IsRun(states, steps) && i < |states|
    ensures var s := states[i];
            s.run.Sending? ==> s.run.j < |s.run.list| && s.run.list[s.run.j] in s.clients
                               && s.clients[s.run.list[s.run.j]].txOpen
    ensures forall c | c in states[i].clients
            && (SendsOnTx(states[i].clients[c].read) || Enabled(states[i], Close(c))) ::
              states[i].clients[c].txOpen
  {
    RunKeepsInv(states, steps, i);
    var s := states[i];
    if s.run.Sending? {
      var c := s.run.list[s.run.j];
      assert c in s.table[s.run.msg.guild];
      assert LocalOk(s.clients[c]);
    }
    forall c | c in s.clients && (SendsOnTx(s.clients[c].read) || Enabled(s, Close(c)))
      ensures s.clients[c].txOpen
    {
      assert LocalOk(s.clients[c]);
    }
  }

  /** The "no clients" exit and the i == -1 case of the unregister arm cannot happen. */
  lemma UnregisterFindsItsClient(states: seq<State>, steps: seq<Step>, i: nat, c: nat)
    requires IsRun(states, steps) && i < |states| && Enabled(states[i], Unregister(c))
    ensures var s, g := states[i], states[i].clients[c].guild;
            && g in s.table && s.table[g] != [] && IndexOf(s.table[g], c) >= 0
            && Do(s, Unregister(c)).gauge == s.gauge - 1
            && Total(Do(s, Unregister(c)).table) == Total(s.table) - 1
  {
    RunKeepsInv(states, steps, i);
    StepKeepsInv(states[i], Unregister(c));
    assert c in Lookup(states[i].table, states[i].clients[c].guild);
  }

  // ----- which broadcasts reach a client -----

  /** Step k makes c's authentication visible, on an attempt that entitles it. */
  ghost predicate AuthenticatedBy(states: seq<State>, steps: seq<Step>, c: nat, k: nat)
    requires IsRun(states, steps)
  {
    && k < |steps| && steps[k] == Handle(c) && c in states[k].clients
    && var cl := states[k].clients[c];
       !cl.authenticated && Listed(cl)
       && cl.read.Handling? && cl.read.event.Auth? && Entitles(cl.read.event.attempt, cl.guild)
  }

  lemma AuthChange(s: State, step: Step, c: nat)
    requires Enabled(s, step) && (c in s.clients ==> LocalOk(s.clients[c]))
    requires var s' := Do(s, step); c in s'.clients && s'.clients[c].authenticated
    ensures c in s.clients && s.clients[c].guild == Do(s, step).clients[c].guild
    ensures s.clients[c].authenticated ==> Do(s, step).clients[c].authAt == s.clients[c].authAt
    ensures !s.clients[c].authenticated ==>
              && step == Handle(c) && Do(s, step).clients[c].authAt == Passed(s, c)
              && Listed(s.clients[c]) && s.clients[c].read.event.Auth?
              && Entitles(s.clients[c].read.event.attempt, s.clients[c].guild)
  {
    if Private(step) && step.c == c {
      var cl := PrivateEffect(s, step);
    }
  }

  lemma {:induction false} AuthOrigin(states: seq<State>, steps: seq<Step>, i: nat, c: nat)
    requires IsRun(states, steps) && i < |states| && c in states[i].clients && states[i].clients[c].authenticated
    ensures exists k | 0 <= k < i ::
              AuthenticatedBy(states, steps, c, k) && states[i].clients[c].authAt == Passed(states[k], c)
  {
    RunKeepsInv(states, steps, i);
    assert i > 0;
    RunKeepsInv(states, steps, i - 1);
    AuthChange(states[i - 1], steps[i - 1], c);
    if states[i - 1].clients[c].authenticated {
      AuthOrigin(states, steps, i - 1, c);
    } else {
      assert AuthenticatedBy(states, steps, c, i - 1);
    }
  }

  /** The client was registered and is no longer listed. */
  predicate HasLeft(cl: Client) {
    cl.handler != Registering && !Listed(cl)
  }

  lemma LeaveChange(s: State, step: Step, c: nat)
    requires Enabled(s, step) && (c in s.clients ==> LocalOk(s.clients[c]))
    requires var s' := Do(s, step); c in s'.clients && HasLeft(s'.clients[c])
    ensures c in s.clients
    ensures Listed(s.clients[c]) ==> step == Unregister(c) && Do(s, step).clients[c].leftAt == |s.log|
    ensures !Listed(s.clients[c]) ==> HasLeft(s.clients[c]) && Do(s, step).clients[c].leftAt == s.clients[c].leftAt
  {
    if Private(step) && step.c == c {
      var cl := PrivateEffect(s, step);
    }
  }

  lemma {:induction false} LeaveOrigin(states: seq<State>, steps: seq<Step>, i: nat, c: nat)
    requires IsRun(states, steps) && i < |states| && c in states[i].clients
    requires HasLeft(states[i].clients[c])
    ensures exists m | 0 <= m < i :: steps[m] == Unregister(c) && states[i].clients[c].leftAt == |states[m].log|
  {
    RunKeepsInv(states, steps, i);
    assert i > 0;
    RunKeepsInv(states, steps, i - 1);
    LeaveChange(states[i - 1], steps[i - 1], c);
    if !Listed(states[i - 1].clients[c]) {
      LeaveOrigin(states, steps, i - 1, c);
    }
  }

  ghost predicate Increasing(q: seq<nat>) {
    forall x, y | 0 <= x < y < |q| :: q[x] < q[y]
  }

  /** q holds the positions from a to b of the relevant broadcasts, and no others. */
  ghost predicate HoldsRelevant(q: seq<nat>, log: seq<Message>, a: nat, b: nat, guild: nat, ticket: int)
    requires b <= |log|
  {
    forall k :: k in q <==> a <= k < b && Relevant(log[k], guild, ticket)
  }

  lemma {:induction false} PickedIs(log: seq<Message>, a: nat, b: nat, guild: nat, ticket: int)
    requires b <= |log|
    ensures var q := Picked(log, a, b, guild, ticket);
            Increasing(q) && HoldsRelevant(q, log, a, b, guild, ticket)
  {
    if b > a {
      PickedIs(log, a, b - 1, guild, ticket);
      OneMorePicked(Picked(log, a, b - 1, guild, ticket), log, a, b, guild, ticket);
    }
  }

  lemma OneMorePicked(q: seq<nat>, log: seq<Message>, a: nat, b: nat, guild: nat, ticket: int)
    requires a < b <= |log| && Increasing(q) && HoldsRelevant(q, log, a, b - 1, guild, ticket)
    ensures var r := q + (if Relevant(log[b - 1], guild, ticket) then [b - 1] else []);
            Increasing(r) && HoldsRelevant(r, log, a, b, guild, ticket)
  {
    assert forall x | 0 <= x < |q| :: q[x] in q;
    assert forall k :: k in q + [b - 1] <==> k in q || k == b - 1;
  }

  /** The broadcasts taken between the positions `from` and `to`, in order, without repeats, and no others. */
  ghost predicate ExactSegment(s: State, c: nat, from: nat, to: nat)
    requires c in s.clients
  {
    var cl := s.clients[c];
    && from <= to <= |s.log|
    && Increasing(cl.delivered) && HoldsRelevant(cl.delivered, s.log, from, to, cl.guild, cl.ticket)
  }

  /**
   The message events handed to a client are exactly the relevant broadcasts of a
   contiguous stretch: it begins where Run stood for that client when its
   authentication became visible, and ends where Run stood when the client was
   unregistered, or stands now.
   */
  lemma DeliveredSegment(states: seq<State>, steps: seq<Step>, i: nat, c: nat)
    requires IsRun(states, steps) && i < |states| && c in states[i].clients
    ensures !states[i].clients[c].authenticated ==> states[i].clients[c].delivered == []
    ensures states[i].clients[c].authenticated && Listed(states[i].clients[c]) ==>
              exists k | 0 <= k < i :: AuthenticatedBy(states, steps, c, k)
                && ExactSegment(states[i], c, Passed(states[k], c), Passed(states[i], c))
    ensures states[i].clients[c].authenticated && !Listed(states[i].clients[c]) ==>
              exists k, m | 0 <= k < i && 0 <= m < i :: AuthenticatedBy(states, steps, c, k)
                && steps[m] == Unregister(c)
                && ExactSegment(states[i], c, Passed(states[k], c), |states[m].log|)
  {
    RunKeepsInv(states, steps, i);
    var s := states[i];
    var cl := s.clients[c];
    assert LocalOk(cl) && HistoryOk(s, c);
    if cl.authenticated {
      AuthOrigin(states, steps, i, c);
      PickedIs(s.log, cl.authAt, Passed(s, c), cl.guild, cl.ticket);
      assert ExactSegment(s, c, cl.authAt, Passed(s, c));
      if !Listed(cl) {
        LeaveOrigin(states, steps, i, c);
      }
    }
  }

  // ----- who is let in, and who is turned away -----

  /** An auth event is granted exactly when the client is not yet authenticated and the attempt entitles it. */
  lemma GrantedIff(s: State, c: nat)
    requires Enabled(s, Handle(c)) && s.clients[c].read.event.Auth?
    ensures var cl := s.clients[c];
            HandleEvent(s, c).read == SendAuthenticated <==>
            !cl.authenticated && Entitles(cl.read.event.attempt, cl.guild)
    ensures HandleEvent(s, c).read == SendAuthenticated ==> HandleEvent(s, c).authenticated
  {
  }

  lemma AuthIsKept(s: State, step: Step, c: nat)
    requires Enabled(s, step) && c in s.clients && LocalOk(s.clients[c])
    ensures c in Do(s, step).clients
    ensures s.clients[c].authenticated ==> Do(s, step).clients[c].authenticated
    ensures step == Handle(c) && s.clients[c].read.event.Auth? && !s.clients[c].authenticated
            && Entitles(s.clients[c].read.event.attempt, s.clients[c].guild) ==>
              Do(s, step).clients[c].authenticated
  {
    if Private(step) && step.c == c {
      var cl := PrivateEffect(s, step);
    }
  }

  lemma {:induction false} GrantLasts(states: seq<State>, steps: seq<Step>, i: nat, c: nat, k: nat)
    requires IsRun(states, steps) && k < i < |states| && AuthenticatedBy(states, steps, c, k)
    ensures c in states[i].clients && states[i].clients[c].authenticated
  {
    RunKeepsInv(states, steps, i - 1);
    if i - 1 > k {
      GrantLasts(states, steps, i - 1, c, k);
    }
    AuthIsKept(states[i - 1], steps[i - 1], c);
  }

  /** A client is authenticated in a reachable state if and only if an auth event of it was granted before. */
  lemma AuthenticatedIff(states: seq<State>, steps: seq<Step>, i: nat, c: nat)
    requires IsRun(states, steps) && i < |states| && c in states[i].clients
    ensures states[i].clients[c].authenticated <==> exists k | 0 <= k < i :: AuthenticatedBy(states, steps, c, k)
  {
    if states[i].clients[c].authenticated {
      AuthOrigin(states, steps, i, c);
    }
    if k :| 0 <= k < i && AuthenticatedBy(states, steps, c, k) {
      GrantLasts(states, steps, i, c, k);
    }
  }

  /** What is left to do for a read loop that will never take another event; None while it still may. */
  function WayOut(r: ReadPc): Option<nat> {
    match r
    case SendMalformed => Some(8)
    case FlushRequest(ThenReport) => Some(7)
    case FlushWait(ThenReport) => Some(6)
    case SendError => Some(5)
    case FlushRequest(ThenLeave) => Some(4)
    case FlushWait(ThenLeave) => Some(3)
    case Leaving => Some(2)
    case Closing => Some(1)
    case Closed => Some(0)
    case _ => None
  }

  predicate IsLeaving(r: ReadPc) {
    WayOut(r).Some?
  }

  /** The step ends c's read loop: a failed read, an unauthenticated event, or an auth event that is not granted. */
  predicate TurnsAway(s: State, step: Step, c: nat)
    requires Enabled(s, step)
  {
    && c in s.clients
    && (|| step == ReadFails(c)
        || (step.Receive? && step.c == c && step.event.Other? && !s.clients[c].authenticated)
        || (step == Handle(c) && s.clients[c].read.event.Auth?
            && (s.clients[c].authenticated || !Entitles(s.clients[c].read.event.attempt, s.clients[c].guild))))
  }

  /** The steps in which c's read loop takes part. */
  predicate MovesReader(step: Step, c: nat) {
    match step
    case StartRead(d) => d == c
    case ReadReady(d) => d == c
    case ReadFails(d) => d == c
    case Receive(d, _) => d == c
    case Handle(d) => d == c
    case ReaderSend(d) => d == c
    case FlushBegin(d) => d == c
    case FlushAck(d) => d == c
    case FlushTimeout(d) => d == c
    case Unregister(d) => d == c
    case Close(d) => d == c
    case _ => false
  }

  lemma ReadStays(s: State, step: Step, c: nat)
    requires Enabled(s, step) && c in s.clients && !MovesReader(step, c)
    ensures c in Do(s, step).clients && Do(s, step).clients[c].read == s.clients[c].read
  {
  }

  /** Where such a step takes it. */
  function ReadAfter(s: State, step: Step, c: nat): ReadPc
    requires Enabled(s, step) && c in s.clients && MovesReader(step, c)
  {
    var r := s.clients[c].read;
    match step
    case StartRead(_) => Starting
    case ReadReady(_) => AwaitEvent
    case ReadFails(_) => Leaving
    case Receive(_, e) => if !s.clients[c].authenticated && e.Other? then Leaving else Handling(e)
    case Handle(_) => HandleEvent(s, c).read
    case ReaderSend(_) => AfterSend(r)
    case FlushBegin(_) => FlushWait(r.after)
    case FlushAck(_) => Resume(r.after)
    case FlushTimeout(_) => Resume(r.after)
    case Unregister(_) => Closing
    case Close(_) => Closed
  }

  lemma ReadMoves(s: State, step: Step, c: nat)
    requires Enabled(s, step) && c in s.clients && MovesReader(step, c)
    ensures c in Do(s, step).clients && Do(s, step).clients[c].read == ReadAfter(s, step, c)
  {
  }

  /** One step: a read loop starts to leave only when it is turned away, and from then on only moves towards the end. */
  lemma LeavingStep(s: State, step: Step, c: nat)
    requires Enabled(s, step) && c in s.clients && LocalOk(s.clients[c])
    ensures c in Do(s, step).clients
    ensures var r, r' := s.clients[c].read, Do(s, step).clients[c].read;
            && (IsLeaving(r') <==> IsLeaving(r) || TurnsAway(s, step, c))
            && (IsLeaving(r) ==> r' == r || WayOut(r').value < WayOut(r).value)
  {
    if MovesReader(step, c) {
      ReadMoves(s, step, c);
    } else {
      ReadStays(s, step, c);
    }
  }

  lemma NotThereYet(s: State, step: Step, c: nat)
    requires Enabled(s, step) && c !in s.clients && c in Do(s, step).clients
    ensures !IsLeaving(Do(s, step).clients[c].read)
  {
  }

  /** A step that turned c away at k. */
  predicate TurnedAwayAt(states: seq<State>, steps: seq<Step>, c: nat, k: nat)
    requires IsRun(states, steps)
  {
    k < |steps| && TurnsAway(states[k], steps[k], c)
  }

  ghost predicate WasTurnedAway(states: seq<State>, steps: seq<Step>, c: nat, i: nat)
    requires IsRun(states, steps)
  {
    exists k | 0 <= k < i :: TurnedAwayAt(states, steps, c, k)
  }

  lemma WasTurnedAwayStep(states: seq<State>, steps: seq<Step>, c: nat, i: nat)
    requires IsRun(states, steps) && i < |steps|
    ensures WasTurnedAway(states, steps, c, i + 1) <==>
            WasTurnedAway(states, steps, c, i) || TurnsAway(states[i], steps[i], c)
  {
    assert TurnedAwayAt(states, steps, c, i) <==> TurnsAway(states[i], steps[i], c);
  }

  lemma {:induction false} ClientStays(states: seq<State>, steps: seq<Step>, k: nat, i: nat, c: nat)
    requires IsRun(states, steps) && k <= i < |states| && c in states[k].clients
    ensures c in states[i].clients
  {
    if k < i {
      ClientStays(states, steps, k, i - 1, c);
    }
  }

  lemma AbsentWasNotTurnedAway(states: seq<State>, steps: seq<Step>, c: nat, i: nat)
    requires IsRun(states, steps) && i < |states| && c !in states[i].clients
    ensures !WasTurnedAway(states, steps, c, i)
  {
    if k :| 0 <= k < i && TurnedAwayAt(states, steps, c, k) {
      ClientStays(states, steps, k, i, c);
    }
  }

  /**
   In every reachable state a client's read loop is on its way out if and only if it was turned away before: a refused
   auth event always ends in leaving, and nothing else but a failed read or an early event does.
   */
  lemma {:induction false} LeavingIff(states: seq<State>, steps: seq<Step>, i: nat, c: nat)
    requires IsRun(states, steps) && i < |states| && c in states[i].clients
    ensures IsLeaving(states[i].clients[c].read) <==> WasTurnedAway(states, steps, c, i)
  {
    if i > 0 {
      RunKeepsInv(states, steps, i - 1);
      var s, step := states[i - 1], steps[i - 1];
      WasTurnedAwayStep(states, steps, c, i - 1);
      if c in s.clients {
        LeavingIff(states, steps, i - 1, c);
        LeavingStep(s, step, c);
      } else {
        AbsentWasNotTurnedAway(states, steps, c, i - 1);
        NotThereYet(s, step, c);
      }
    }
  }

  /** So it handles no further event: each of its later steps brings it nearer to the end. */
  lemma {:induction false} LeavingDescends(states: seq<State>, steps: seq<Step>, k: nat, i: nat, c: nat)
    requires IsRun(states, steps) && k <= i < |states| && c in states[k].clients && IsLeaving(states[k].clients[c].read)
    ensures c in states[i].clients
    ensures var r, r' := states[k].clients[c].read, states[i].clients[c].read;
            IsLeaving(r') && (r' == r || WayOut(r').value < WayOut(r).value)
  {
    if k < i {
      LeavingDescends(states, steps, k, i - 1, c);
      RunKeepsInv(states, steps, i - 1);
      LeavingStep(states[i - 1], steps[i - 1], c);
    }
  }

  /** Handing the error event over to the write loop. */
  predicate TellsError(states: seq<State>, steps: seq<Step>, c: nat, k: nat)
    requires IsRun(states, steps)
  {
    k < |steps| && steps[k] == ReaderSend(c) && c in states[k].clients && states[k].clients[c].read == SendError
  }

  lemma ErrorIsTold(s: State, step: Step, c: nat)
    requires Enabled(s, step) && c in s.clients && LocalOk(s.clients[c])
    requires IsLeaving(s.clients[c].read) && WayOut(s.clients[c].read).value >= 5
    ensures c in Do(s, step).clients && IsLeaving(Do(s, step).clients[c].read)
    ensures WayOut(Do(s, step).clients[c].read).value >= 5 || (step == ReaderSend(c) && s.clients[c].read == SendError)
  {
    if MovesReader(step, c) {
      ReadMoves(s, step, c);
    } else {
      ReadStays(s, step, c);
    }
  }

  /** A client whose auth event was refused is told of an error before its read loop goes on to leave. */
  lemma {:induction false} RefusedIsTold(states: seq<State>, steps: seq<Step>, k: nat, i: nat, c: nat)
    requires IsRun(states, steps) && k < i < |states| && c in states[k].clients
    requires TurnedAwayAt(states, steps, c, k) && steps[k] == Handle(c)
    ensures c in states[i].clients && IsLeaving(states[i].clients[c].read)
    ensures WayOut(states[i].clients[c].read).value >= 5 || exists m | k < m < i :: TellsError(states, steps, c, m)
  {
    RunKeepsInv(states, steps, i - 1);
    if i - 1 == k {
      LeavingStep(states[k], steps[k], c);
      assert WayOut(HandleEvent(states[k], c).read).value >= 5;
    } else {
      RefusedIsTold(states, steps, k, i - 1, c);
      LeavingStep(states[i - 1], steps[i - 1], c);
      if WayOut(states[i - 1].clients[c].read).value >= 5 {
        ErrorIsTold(states[i - 1], steps[i - 1], c);
        assert WayOut(states[i].clients[c].read).value >= 5 || TellsError(states, steps, c, i - 1);
      }
    }
  }

  /**
   An auth event that is not granted: in every later state the client is on its way out, so it handles no other event,
   and once it is past reporting it was told of an error.
   */
  lemma RefusedLeaves(states: seq<State>, steps: seq<Step>, k: nat, i: nat, c: nat)
    requires IsRun(states, steps) && k < i < |states| && steps[k] == Handle(c)
    requires c in states[k].clients && states[k].clients[c].read.Handling? && states[k].clients[c].read.event.Auth?
    requires var cl := states[k].clients[c]; cl.authenticated || !Entitles(cl.read.event.attempt, cl.guild)
    ensures c in states[i].clients
    ensures var r := states[i].clients[c].read;
            && (r.SendMalformed? || r.SendError? || r.FlushRequest? || r.FlushWait?
                || r.Leaving? || r.Closing? || r.Closed?)
            && (r == FlushRequest(ThenLeave) || r == FlushWait(ThenLeave) || r.Leaving? || r.Closing? || r.Closed? ==>
                  exists m | k < m < i :: TellsError(states, steps, c, m))
  {
    assert TurnedAwayAt(states, steps, c, k);
    RefusedIsTold(states, steps, k, i, c);
  }
}
