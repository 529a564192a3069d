/** When `Run` is blocked for good: no progress is promised, and exactly when it is lost. */
module LiveChatStall {
  import opened Wrappers
  import opened LiveChat
  import opened LiveChatSafety

  /** The client `Run` is writing to. */
  ghost predicate Target(s: State, c: nat) {
    s.run.Sending? && s.run.j < |s.run.list| && s.run.list[s.run.j] == c && c in s.clients
  }

  /**
   The write loop of that client will never receive again: it has ended, or it is acknowledging
   a flush whose read loop no longer waits.
   */
  predicate IsWedged(cl: Client) {
    cl.write == Dead || (cl.write == Acking && !cl.read.FlushWait?)
  }

  // ----- continuations -----

  /** These steps can be taken one after another from s. */
  predicate CanTake(s: State, steps: seq<Step>)
    decreases |steps|
  {
    steps == [] || (Enabled(s, steps[0]) && CanTake(Do(s, steps[0]), steps[1..]))
  }

  function After(s: State, steps: seq<Step>): State
    requires CanTake(s, steps)
    decreases |steps|
  {
    if steps == [] then s else After(Do(s, steps[0]), steps[1..])
  }

  /** Whatever happens from here on, `Run` stays where it is. */
  ghost predicate NeverMoves(s: State) {
    forall steps | CanTake(s, steps) :: After(s, steps).run == s.run
  }

  /** While `Run` is blocked on a wedged client, every step leaves it there, and the client wedged. */
  lemma WedgedStep(s: State, step: Step, c: nat)
    requires Inv(s) && Target(s, c) && IsWedged(s.clients[c]) && Enabled(s, step)
    ensures var r := Do(s, step);
            Target(r, c) && IsWedged(r.clients[c]) && r.run == s.run && r.table == s.table && r.log == s.log
  {
    assert LocalOk(s.clients[c]);
  }

  lemma {:induction false} WedgedForever(s: State, steps: seq<Step>, c: nat)
    requires Inv(s) && Target(s, c) && IsWedged(s.clients[c]) && CanTake(s, steps)
    ensures var r := After(s, steps); r.run == s.run && r.table == s.table && r.log == s.log
    decreases |steps|
  {
    if steps != [] {
      WedgedStep(s, steps[0], c);
      StepKeepsInv(s, steps[0]);
      WedgedForever(Do(s, steps[0]), steps[1..], c);
    }
  }

  /** Otherwise at most two steps hand the event over: the write loop starts, or finishes what it does, and receives. */
  lemma ReleasedInTwo(s: State, c: nat) returns (steps: seq<Step>)
    requires Inv(s) && Target(s, c) && !IsWedged(s.clients[c])
    ensures |steps| <= 2 && CanTake(s, steps) && After(s, steps).run.Visiting? && After(s, steps).run.j == s.run.j + 1
  {
    assert LocalOk(s.clients[c]);
    if s.clients[c].write == Selecting {
      steps := [Deliver];
      TakesOne(s, Deliver);
    } else {
      var first := if s.clients[c].write == Idle then StartWrite(c)
                   else if s.clients[c].write == Emitting then EmitOk(c) else FlushAck(c);
      steps := [first, Deliver];
      assert steps[1..] == [Deliver];
      TakesOne(Do(s, first), Deliver);
    }
  }

  lemma TakesOne(s: State, step: Step)
    requires Enabled(s, step)
    ensures CanTake(s, [step]) && After(s, [step]) == Do(s, step)
  {
    assert [step][1..] == [];
  }

  /**
   In a reachable state in which `Run` writes to a client, it never moves again if and only if that client is wedged.
   */
  lemma NeverMovesIff(states: seq<State>, steps: seq<Step>, i: nat)
    requires IsRun(states, steps) && i < |states| && states[i].run.Sending?
    ensures exists c :: Target(states[i], c) && (NeverMoves(states[i]) <==> IsWedged(states[i].clients[c]))
  {
    RunKeepsInv(states, steps, i);
    var s := states[i];
    var c := s.run.list[s.run.j];
    assert Target(s, c);
    if IsWedged(s.clients[c]) {
      forall more | CanTake(s, more)
        ensures After(s, more).run == s.run
      {
        WedgedForever(s, more, c);
      }
    } else {
      var more := ReleasedInTwo(s, c);
      assert After(s, more).run != s.run;
    }
  }

  // ----- both ways happen -----

  /** One more step at the end of a run. */
  lemma Then(states: seq<State>, steps: seq<Step>, step: Step)
    returns (states': seq<State>, steps': seq<Step>, s: State)
    requires IsRun(states, steps) && Enabled(states[|steps|], step)
    ensures IsRun(states', steps') && |steps'| == |steps| + 1
    ensures s == states'[|steps'|] == Do(states[|steps|], step)
  {
    s := Do(states[|steps|], step);
    states', steps' := states + [s], steps + [step];
  }

  const GRANTING := AuthAttempt(true, true, true, Some((5, 1)), Some(true), true, Some(true))

  /** Client 0 of guild 1 and ticket 5 is connected, both loops running. */
  lemma Connected() returns (states: seq<State>, steps: seq<Step>)
    ensures IsRun(states, steps) && |steps| == 5
    ensures states[5] == State(map[1 := [0]], 1, map[0 := Waiting()], Select, [])
  {
    states, steps := [INITIAL], [];
    var s;
    states, steps, s := Then(states, steps, Connect(0, 1, 5));
    states, steps, s := Then(states, steps, Register(0));
    assert s.table == map[1 := [0]] by { assert [] + [0] == [0]; }
    states, steps, s := Then(states, steps, StartRead(0));
    states, steps, s := Then(states, steps, StartWrite(0));
    states, steps, s := Then(states, steps, ReadReady(0));
  }

  function Waiting(): Client {
    NewClient(1, 5).(handler := Finished, read := AwaitEvent, write := Selecting)
  }

  /** It has authenticated; its write loop is writing the confirmation. */
  lemma Authenticated() returns (states: seq<State>, steps: seq<Step>)
    ensures IsRun(states, steps) && |steps| == 8
    ensures states[8] == State(map[1 := [0]], 1, map[0 := Granted(AwaitEvent, Emitting)], Select, [])
  {
    states, steps := Connected();
    var s;
    states, steps, s := Then(states, steps, Receive(0, Auth(GRANTING)));
    states, steps, s := Then(states, steps, Handle(0));
    states, steps, s := Then(states, steps, ReaderSend(0));
  }

  function Granted(read: ReadPc, write: WritePc): Client {
    Waiting().(authenticated := true, grant := Some(GRANTING), read := read, write := write)
  }

  /** A second auth event was refused, and its flush timed out when the write loop was about to acknowledge it. */
  lemma TimedOut() returns (states: seq<State>, steps: seq<Step>)
    ensures IsRun(states, steps) && |steps| == 15
    ensures states[15] == State(map[1 := [0]], 1, map[0 := Granted(Leaving, Acking)], Select, [])
  {
    states, steps := Refused();
    var s;
    states, steps, s := Then(states, steps, EmitOk(0));
    states, steps, s := Then(states, steps, FlushBegin(0));
    states, steps, s := Then(states, steps, FlushTimeout(0));
  }

  lemma Refused() returns (states: seq<State>, steps: seq<Step>)
    ensures IsRun(states, steps) && |steps| == 12
    ensures states[12] == State(map[1 := [0]], 1, map[0 := Granted(FlushRequest(ThenLeave), Emitting)], Select, [])
  {
    states, steps := Authenticated();
    var s;
    states, steps, s := Then(states, steps, EmitOk(0));
    states, steps, s := Then(states, steps, Receive(0, Auth(GRANTING)));
    states, steps, s := Then(states, steps, Handle(0));
    states, steps, s := Then(states, steps, ReaderSend(0));
  }

  /** A broadcast for that client, taken while its write loop cannot receive. */
  lemma Broadcast(states: seq<State>, steps: seq<Step>) returns (states': seq<State>, steps': seq<Step>)
    requires IsRun(states, steps)
    requires var s := states[|steps|];
             && s.run == Select && s.table == map[1 := [0]] && 0 in s.clients
             && s.clients[0].guild == 1 && s.clients[0].ticket == 5 && s.clients[0].authenticated
    ensures IsRun(states', steps') && |steps'| == |steps| + 2
    ensures Target(states'[|steps'|], 0) && states'[|steps'|].clients == states[|steps|].clients
  {
    var s;
    states', steps', s := Then(states, steps, Take(Message(1, 5, true)));
    states', steps', s := Then(states', steps', Visit);
  }

  /** A run of eleven steps: the write fails, then a broadcast is taken. */
  lemma DeadWriterStalls() returns (states: seq<State>, steps: seq<Step>)
    ensures IsRun(states, steps) && |steps| == 11
    ensures Target(states[11], 0) && states[11].clients[0].write == Dead && NeverMoves(states[11])
  {
    states, steps := Authenticated();
    var s;
    states, steps, s := Then(states, steps, WriteFails(0));
    states, steps := Broadcast(states, steps);
    NeverMovesIff(states, steps, 11);
  }

  /** A run of seventeen steps in which no write has failed: after the timed-out flush a broadcast is taken. */
  lemma TimedOutFlushStalls() returns (states: seq<State>, steps: seq<Step>)
    ensures IsRun(states, steps) && |steps| == 17
    ensures Target(states[17], 0) && states[17].clients[0].write == Acking && NeverMoves(states[17])
  {
    states, steps := TimedOut();
    states, steps := Broadcast(states, steps);
    NeverMovesIff(states, steps, 17);
  }
}
