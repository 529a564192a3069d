/**
 The live-chat protocol as a state machine: the `Run` goroutine, one connection
 handler per client, one read loop and one write loop per client. Channels are
 unbuffered, so a send and its receive are one joint step. Every failure of the
 socket, of a timer or of an external lookup is a step the environment may take.

 Three fields record history and influence no step: `delivered`, `authAt`, `leftAt`.
 */
module LiveChat {
  import opened Wrappers
  import opened Registry

  datatype Message = Message(guild: nat, ticket: int, encodable: bool)

  /** What the external calls made by one auth event answer; None is an error. */
  datatype AuthAttempt = AuthAttempt(
    wellFormed: bool,
    tokenParses: bool,
    claimsParse: bool,
    ticket: Option<(int, nat)>,      // id and guild of the loaded ticket row
    permission: Option<bool>,
    botContext: bool,
    premium: Option<bool>)

  datatype Event = Auth(attempt: AuthAttempt) | Other

  datatype HandlerPc = Registering | Registered | ReadStarted | Finished

  datatype AfterFlush = ThenReport | ThenLeave

  datatype ReadPc =
    | Unstarted
    | Starting
    | AwaitEvent
    | Handling(event: Event)
    | SendMalformed
    | SendError
    | SendAuthenticated
    | FlushRequest(after: AfterFlush)
    | FlushWait(after: AfterFlush)
    | Leaving        // blocked on the unregister channel
    | Closing        // unregistered, tx not closed yet
    | Closed

  datatype WritePc = Idle | Selecting | Emitting | Acking | Dead

  datatype Client = Client(
    guild: nat,
    ticket: int,
    handler: HandlerPc,
    read: ReadPc,
    write: WritePc,
    txOpen: bool,
    authenticated: bool,
    grant: Option<AuthAttempt>,
    delivered: seq<nat>,   // positions in the broadcast log, in the order handed over
    authAt: nat,
    leftAt: nat)

  datatype RunPc =
    | Select
    | Visiting(at: nat, msg: Message, list: seq<nat>, j: nat)   // about to examine list[j], or done
    | Sending(at: nat, msg: Message, list: seq<nat>, j: nat)    // blocked in Write to list[j]

  datatype State = State(
    table: Table<nat>,
    gauge: int,
    clients: map<nat, Client>,
    run: RunPc,
    log: seq<Message>)     // broadcasts taken by Run, oldest first

  datatype Step =
    | Connect(c: nat, guild: nat, ticket: int)
    | Register(c: nat)
    | StartRead(c: nat)
    | StartWrite(c: nat)
    | ReadReady(c: nat)
    | ReadFails(c: nat)
    | Receive(c: nat, event: Event)
    | Handle(c: nat)
    | ReaderSend(c: nat)
    | EmitOk(c: nat)
    | WriteFails(c: nat)
    | FlushBegin(c: nat)
    | FlushAck(c: nat)
    | FlushTimeout(c: nat)
    | Unregister(c: nat)
    | Close(c: nat)
    | SeeClosed(c: nat)
    | Take(msg: Message)
    | Visit
    | Deliver

  function NewClient(guild: nat, ticket: int): Client {
    Client(guild, ticket, Registering, Unstarted, Idle, true, false, None, [], 0, 0)
  }

  const INITIAL := State(map[], 0, map[], Select, [])

  // ----- the event handler -----

  datatype AuthError =
    | AlreadyAuthenticated | InvalidToken | InvalidClaims | TicketLoad | TicketNotFound
    | PermissionLookup | Forbidden | NoBotContext | PremiumLookup | NotPremium

  /** The checks of one auth event, in the source's order. */
  function HandleAuthEvent(authenticated: bool, guild: nat, a: AuthAttempt): Result<(), AuthError> {
    if authenticated then Err(AlreadyAuthenticated)
    else if !a.tokenParses then Err(InvalidToken)
    else if !a.claimsParse then Err(InvalidClaims)
    else if a.ticket.None? then Err(TicketLoad)
    else if a.ticket.value.0 == 0 || a.ticket.value.1 == 0 || a.ticket.value.1 != guild then Err(TicketNotFound)
    else if a.permission.None? then Err(PermissionLookup)
    else if !a.permission.value then Err(Forbidden)
    else if !a.botContext then Err(NoBotContext)
    else if a.premium.None? then Err(PremiumLookup)
    else if !a.premium.value then Err(NotPremium)
    else Ok(())
  }

  /** What an attempt must show for its client to read the ticket's chat. */
  predicate Entitles(a: AuthAttempt, guild: nat) {
    && a.wellFormed && a.tokenParses && a.claimsParse
    && a.ticket.Some? && a.ticket.value.0 != 0 && a.ticket.value.1 == guild
    && guild != 0
    && a.permission == Some(true)
    && a.botContext
    && a.premium == Some(true)
  }

  // ----- steps -----

  predicate SendsOnTx(r: ReadPc) {
    r.SendMalformed? || r.SendError? || r.SendAuthenticated?
  }

  function AfterSend(r: ReadPc): ReadPc
    requires SendsOnTx(r)
  {
    match r
    case SendMalformed => FlushRequest(ThenReport)
    case SendError => FlushRequest(ThenLeave)
    case SendAuthenticated => AwaitEvent
  }

  function Resume(a: AfterFlush): ReadPc {
    if a == ThenReport then SendError else Leaving
  }

  predicate Enabled(s: State, step: Step) {
    match step
    case Connect(c, _, _) => c !in s.clients
    case Register(c) => c in s.clients && s.clients[c].handler == Registering && s.run == Select
    case StartRead(c) => c in s.clients && s.clients[c].handler == Registered
    case StartWrite(c) => c in s.clients && s.clients[c].handler == ReadStarted
    case ReadReady(c) => c in s.clients && s.clients[c].read == Starting
    case ReadFails(c) => c in s.clients && (s.clients[c].read == Starting || s.clients[c].read == AwaitEvent)
    case Receive(c, _) => c in s.clients && s.clients[c].read == AwaitEvent
    case Handle(c) => c in s.clients && s.clients[c].read.Handling?
    case ReaderSend(c) => c in s.clients && SendsOnTx(s.clients[c].read) && s.clients[c].write == Selecting
    case EmitOk(c) => c in s.clients && s.clients[c].write == Emitting
    case WriteFails(c) => c in s.clients && (s.clients[c].write == Emitting || s.clients[c].write == Selecting)
    case FlushBegin(c) => c in s.clients && s.clients[c].read.FlushRequest? && s.clients[c].write == Selecting
    case FlushAck(c) => c in s.clients && s.clients[c].read.FlushWait? && s.clients[c].write == Acking
    case FlushTimeout(c) => c in s.clients && s.clients[c].read.FlushWait?
    case Unregister(c) => c in s.clients && s.clients[c].read == Leaving && s.run == Select
    case Close(c) => c in s.clients && s.clients[c].read == Closing
    case SeeClosed(c) => c in s.clients && s.clients[c].write == Selecting && !s.clients[c].txOpen
    case Take(_) => s.run == Select
    case Visit => s.run.Visiting?
    case Deliver =>
      && s.run.Sending? && s.run.j < |s.run.list|
      && s.run.list[s.run.j] in s.clients && s.clients[s.run.list[s.run.j]].write == Selecting
  }

  function Set(s: State, c: nat, cl: Client): State {
    s.(clients := s.clients[c := cl])
  }

  /** Broadcasts that Run has already moved past for this client. */
  function Passed(s: State, c: nat): nat
    requires c in s.clients
  {
    var cl := s.clients[c];
    if !Listed(cl) then cl.leftAt
    else if Pending(s.run, c) then s.run.at
    else |s.log|
  }

  predicate Pending(run: RunPc, c: nat) {
    !run.Select? && run.j <= |run.list| && c in run.list[run.j..]
  }

  /** Registered with Run and not yet unregistered. */
  predicate Listed(cl: Client) {
    !cl.handler.Registering? && !cl.read.Closing? && !cl.read.Closed?
  }

  function HandleEvent(s: State, c: nat): Client
    requires c in s.clients && s.clients[c].read.Handling?
  {
    var cl := s.clients[c];
    match cl.read.event
    case Other => cl.(read := AwaitEvent)
    case Auth(a) =>
      if !a.wellFormed then cl.(read := SendMalformed)
      else if HandleAuthEvent(cl.authenticated, cl.guild, a).Err? then cl.(read := SendError)
      else cl.(authenticated := true, grant := Some(a), authAt := Passed(s, c), read := SendAuthenticated)
  }

  predicate Matches(m: Message, guild: nat, ticket: int) {
    m.guild == guild && m.ticket == ticket
  }

  /** One turn of the loop over the guild's clients: skip list[j], or go on to write to it. */
  function Examine(s: State): RunPc
    requires s.run.Visiting?
  {
    var (at, msg, list, j) := (s.run.at, s.run.msg, s.run.list, s.run.j);
    if j >= |list| then Select
    else if list[j] in s.clients && s.clients[list[j]].authenticated
            && Matches(msg, s.clients[list[j]].guild, s.clients[list[j]].ticket)
    then Sending(at, msg, list, j)
    else Visiting(at, msg, list, j + 1)
  }

  function HandOver(s: State): State
    requires Enabled(s, Deliver)
  {
    var c := s.run.list[s.run.j];
    var cl := s.clients[c];
    Set(s, c, cl.(write := Emitting, delivered := cl.delivered + [s.run.at]))
    .(run := Visiting(s.run.at, s.run.msg, s.run.list, s.run.j + 1))
  }

  function TakeMessage(s: State, msg: Message): State {
    var guildClients := Lookup(s.table, msg.guild);
    var s' := s.(log := s.log + [msg]);
    if guildClients == [] || !msg.encodable then s' else s'.(run := Visiting(|s.log|, msg, guildClients, 0))
  }

  function Do(s: State, step: Step): State
    requires Enabled(s, step)
  {
    match step
    case Connect(c, guild, ticket) => Set(s, c, NewClient(guild, ticket))
    case Register(c) =>
      var cl := s.clients[c];
      Set(s, c, cl.(handler := Registered)).(table := Add(s.table, cl.guild, c), gauge := s.gauge + 1)
    case StartRead(c) => Set(s, c, s.clients[c].(handler := ReadStarted, read := Starting))
    case StartWrite(c) => Set(s, c, s.clients[c].(handler := Finished, write := Selecting))
    case ReadReady(c) => Set(s, c, s.clients[c].(read := AwaitEvent))
    case ReadFails(c) => Set(s, c, s.clients[c].(read := Leaving))
    case Receive(c, e) =>
      var cl := s.clients[c];
      Set(s, c, cl.(read := if !cl.authenticated && e.Other? then Leaving else Handling(e)))
    case Handle(c) => Set(s, c, HandleEvent(s, c))
    case ReaderSend(c) => Set(s, c, s.clients[c].(read := AfterSend(s.clients[c].read), write := Emitting))
    case EmitOk(c) => Set(s, c, s.clients[c].(write := Selecting))
    case WriteFails(c) => Set(s, c, s.clients[c].(write := Dead))
    case FlushBegin(c) => Set(s, c, s.clients[c].(read := FlushWait(s.clients[c].read.after), write := Acking))
    case FlushAck(c) => Set(s, c, s.clients[c].(read := Resume(s.clients[c].read.after), write := Selecting))
    case FlushTimeout(c) => Set(s, c, s.clients[c].(read := Resume(s.clients[c].read.after)))
    case Unregister(c) =>
      var cl := s.clients[c];
      Set(s, c, cl.(read := Closing, leftAt := |s.log|))
      .(table := Remove(s.table, cl.guild, c), gauge := s.gauge + GaugeDelta(s.table, cl.guild))
    case Close(c) => Set(s, c, s.clients[c].(read := Closed, txOpen := false))
    case SeeClosed(c) => Set(s, c, s.clients[c].(write := Dead))
    case Take(msg) => TakeMessage(s, msg)
    case Visit => s.(run := Examine(s))
    case Deliver => HandOver(s)
  }

  /** The states of a run: each is obtained from the one before by an enabled step. */
  predicate IsRun(states: seq<State>, steps: seq<Step>) {
    && |states| == |steps| + 1
    && states[0] == INITIAL
    && forall i | 0 <= i < |steps| ::
         Enabled(states[i], steps[i]) && states[i + 1] == Do(states[i], steps[i])
  }
}
