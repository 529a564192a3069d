/** No multi-panel message is lost track of silently, over every run of the handlers. */
module MultiPanelAccounting {
  import opened Wrappers
  import opened Sequences
  import opened MultiPanels

  ghost predicate Named(rows: map<nat, Row>, m: nat) {
    exists id | id in rows :: rows[id].message == m
  }

  ghost predicate Referenced(w: World, m: nat) {
    Named(w.rows, m)
  }

  /**
   Every live message is named by a row, or is in `hand` (the handler holds its id),
   or was lost or abandoned; and never two of these.
   */
  ghost predicate Accounted(w: World, hand: set<nat>) {
    && (forall m | m in w.live && !Referenced(w, m) :: m in w.lost || m in w.abandoned || m in hand)
    && (forall id | id in w.rows :: var m := w.rows[id].message; m !in w.lost && m !in w.abandoned && m !in hand)
    && w.abandoned <= w.ignored
    && w.lost !! w.ignored && hand !! w.lost && hand !! w.abandoned
  }

  /** Rows and messages are numbered below the next ones, and no two rows name one message. */
  ghost predicate Numbered(w: World, hand: set<nat>) {
    && (forall m | m in w.live :: m < w.nextMessage)
    && (forall m | m in w.lost :: m < w.nextMessage)
    && (forall m | m in w.ignored :: m < w.nextMessage)
    && (forall m | m in hand :: m < w.nextMessage)
    && (forall id | id in w.rows :: id < w.nextRow && w.rows[id].message < w.nextMessage)
    && OneToOne(w.rows)
    && (forall id | id in w.rows && w.rows[id].message in w.live :: w.live[w.rows[id].message] == w.rows[id].channel)
  }

  ghost predicate Inv(w: World, hand: set<nat>) {
    Accounted(w, hand) && Numbered(w, hand)
  }

  /** Nobody but the handlers deletes: what was lost or abandoned is still live. */
  ghost predicate LiveKept(w: World) {
    w.lost + w.abandoned <= w.live.Keys
  }

  /** Every message whose delete was ignored has been moved off. */
  ghost predicate MovedOff(w: World) {
    w.ignored == w.abandoned
  }

  ghost predicate Steady(w: World, w': World) {
    (LiveKept(w) ==> LiveKept(w')) && (MovedOff(w) ==> MovedOff(w'))
  }

  // ----- names -----

  ghost predicate OneToOne(rows: map<nat, Row>) {
    forall i, j | i in rows && j in rows && i != j :: rows[i].message != rows[j].message
  }

  /** Setting a row exchanges the message it named. */
  lemma NamedAfterSet(rows: map<nat, Row>, id: nat, row: Row)
    requires OneToOne(rows) && !Named(rows, row.message)
    ensures OneToOne(rows[id := row])
    ensures forall m :: Named(rows[id := row], m) <==>
                        m == row.message || (Named(rows, m) && (id in rows ==> m != rows[id].message))
  {
    var rows' := rows[id := row];
    forall m
      ensures Named(rows', m) <==> m == row.message || (Named(rows, m) && (id in rows ==> m != rows[id].message))
    {
      assert rows'[id].message == row.message;
      if j :| j in rows && j != id && rows[j].message == m {
        assert rows'[j].message == m;
      }
      if j :| j in rows' && j != id && rows'[j].message == m {
        assert rows[j].message == m;
      }
    }
  }

  lemma NamedAfterDrop(rows: map<nat, Row>, id: nat)
    requires OneToOne(rows) && id in rows
    ensures OneToOne(rows - {id})
    ensures forall m :: Named(rows - {id}, m) <==> Named(rows, m) && m != rows[id].message
  {
    var rows' := rows - {id};
    forall m
      ensures Named(rows', m) <==> Named(rows, m) && m != rows[id].message
    {
      if j :| j in rows && j != id && rows[j].message == m {
        assert rows'[j].message == m;
      }
      if j :| j in rows' && rows'[j].message == m {
        assert rows[j].message == m;
      }
    }
  }

  /** The row names a live message, in the channel it says. */
  ghost predicate NamesLive(w: World, id: nat) {
    id in w.rows && w.rows[id].message in w.live && w.live[w.rows[id].message] == w.rows[id].channel
  }

  // ----- primitives -----

  lemma SendKeeps(w: World, channel: nat, fault: Option<Fault>)
    requires Inv(w, {})
    ensures var (w', r) := Sent(w, channel, fault);
            match r
            case Err(_) => w' == w
            case Ok(m) =>
              && Inv(w', {m}) && !Referenced(w', m) && m !in w'.ignored
              && w'.rows == w.rows && m in w'.live && w'.live[m] == channel
                          && m == w.nextMessage && (forall x | x != m :: x in w'.live <==> x in w.live)
                          && Steady(w, w') && forall j | j in w.rows :: NamesLive(w, j) <==> NamesLive(w', j)
  {
  }

  /** A delete that is not ignored leaves the message dead. */
  lemma DeleteKeeps(w: World, id: nat, fault: MessageFault)
    requires Inv(w, {}) && id in w.rows
    ensures var (w1, del) := Deleted(w, w.rows[id], fault);
            var w' := Ignoring(w1, w.rows[id].message, del);
            && Inv(w1, {}) && Inv(w', {}) && w'.rows == w.rows && w'.nextMessage == w.nextMessage
            && (w.rows[id].message in w'.live ==> WasIgnored(del) && w.rows[id].message in w'.ignored)
            && (LiveKept(w) ==> LiveKept(w'))
            && w'.ignored == (if WasIgnored(del) && w.rows[id].message in w.live
                              then w.ignored + {w.rows[id].message} else w.ignored)
  {
  }

  /** The row may move off its message once that message is dead, or its delete failed and was ignored. */
  lemma MoveKeeps(w: World, id: nat, row: Row, ok: bool, del: Option<Fault>)
    requires Inv(w, {row.message}) && id in w.rows && !Referenced(w, row.message)
    requires row.message in w.live && w.live[row.message] == row.channel && row.message !in w.ignored
    requires w.rows[id].message in w.live ==> WasIgnored(del) && w.rows[id].message in w.ignored
    ensures Inv(Moved(w, id, row, ok, del), {})
    ensures ok ==> Moved(w, id, row, ok, del).rows[id] == row
    ensures Moved(w, id, row, ok, del).live == w.live
    ensures LiveKept(w) ==> LiveKept(Moved(w, id, row, ok, del))
  {
    NamedAfterSet(w.rows, id, row);
    MoveAccounted(w, id, row, ok, del);
  }

  lemma MoveAccounted(w: World, id: nat, row: Row, ok: bool, del: Option<Fault>)
    requires Accounted(w, {row.message}) && id in w.rows && !Referenced(w, row.message)
    requires row.message !in w.ignored
    requires w.rows[id].message in w.live ==> WasIgnored(del) && w.rows[id].message in w.ignored
    requires forall m :: Named(w.rows[id := row], m) <==>
             m == row.message || (Named(w.rows, m) && m != w.rows[id].message)
    requires OneToOne(w.rows)
    ensures Accounted(Moved(w, id, row, ok, del), {})
  {
  }

  // ----- the handlers -----

  lemma ResentKeeps(w: World, id: nat, channel: nat, send: Option<Fault>, rowOk: bool, del: Option<Fault>)
    requires Inv(w, {}) && id in w.rows
    requires w.rows[id].message in w.live ==> WasIgnored(del) && w.rows[id].message in w.ignored
    ensures var (w', done) := Resent(w, id, channel, send, rowOk, del);
            && Inv(w', {}) && w'.rows.Keys == w.rows.Keys
            && (forall j | j in w.rows && j != id :: w'.rows[j] == w.rows[j] && (NamesLive(w, j) <==> NamesLive(w', j)))
            && (done ==> NamesLive(w', id) && w'.rows[id] == Row(channel, w.nextMessage))
            && (LiveKept(w) ==> LiveKept(w')) && w'.ignored == w.ignored
            && w'.abandoned == (if done && w.rows[id].message in w.live
                                then w.abandoned + {w.rows[id].message} else w.abandoned)
  {
    SendKeeps(w, channel, send);
    var (w1, sent) := Sent(w, channel, send);
    if sent.Ok? {
      MoveKeeps(w1, id, Row(channel, sent.value), rowOk, del);
    }
  }

  /** The message a truthful "not found" speaks of is dead. */
  lemma NotFoundIsDead(w: World, id: nat, fault: MessageFault)
    requires Inv(w, {}) && id in w.rows
    ensures var e := Edited(w, w.rows[id], fault);
            && (e.None? ==> NamesLive(w, id))
            && (e.Some? && IsNotFound(e.value) ==> w.rows[id].message !in w.live)
  {
  }

  /** The old message is live, its delete is ignored, and a later call of the same update fails. */
  predicate UpdateOvercounts(w: World, id: nat, c: UpdateCalls)
    requires id in w.rows
  {
    && w.rows[id].channel != c.channel && w.rows[id].message in w.live
    && c.del.Some? && IsClientError(c.del.value) && !(c.send.None? && c.rowOk)
  }

  /** Likewise for a re-send, which also ignores transport errors and looks things up in between. */
  predicate ResendOvercounts(w: World, id: nat, c: ResendCalls)
    requires id in w.rows
  {
    && w.rows[id].message in w.live
    && c.del.Some? && (c.del.value.Status? ==> IsClientError(c.del.value))
    && !(c.lookupsOk && c.send.None? && c.rowOk)
  }

  predicate RemoveOvercounts(w: World, id: nat, del: MessageFault, rowOk: bool)
    requires id in w.rows
  {
    w.rows[id].message in w.live && del == Some(Status(403)) && !rowOk
  }

  /** The common part of an update to another channel and of a re-send. */
  lemma DeleteThenResend(w: World, id: nat, fault: MessageFault, channel: nat, send: Option<Fault>, rowOk: bool)
    requires Inv(w, {}) && id in w.rows
    ensures var (w1, del) := Deleted(w, w.rows[id], fault);
            var (w', done) := Resent(Ignoring(w1, w.rows[id].message, del), id, channel, send, rowOk, del);
            && Inv(w', {}) && w'.rows.Keys == w.rows.Keys
            && (done ==> NamesLive(w', id) && w'.rows[id] == Row(channel, w.nextMessage))
            && (LiveKept(w) ==> LiveKept(w'))
            && (MovedOff(w) ==> (MovedOff(w') <==> !(w.rows[id].message in w.live && WasIgnored(del) && !done)))
  {
    DeleteKeeps(w, id, fault);
    var (w1, del) := Deleted(w, w.rows[id], fault);
    ResentKeeps(Ignoring(w1, w.rows[id].message, del), id, channel, send, rowOk, del);
  }

  lemma UpdateKeeps(w: World, id: nat, c: UpdateCalls)
    requires Inv(w, {}) && id in w.rows
    ensures var (w', reply) := Update(w, id, c);
            && Inv(w', {}) && w'.rows.Keys == w.rows.Keys
            && (reply == Success ==> NamesLive(w', id) && w'.rows[id].channel == c.channel)
            && (LiveKept(w) ==> LiveKept(w'))
            && (MovedOff(w) ==> (MovedOff(w') <==> !UpdateOvercounts(w, id, c)))
  {
    var row := w.rows[id];
    if row.channel != c.channel {
      DeleteKeeps(w, id, c.del);
      DeleteThenResend(w, id, c.del, c.channel, c.send, c.rowOk);
    } else {
      NotFoundIsDead(w, id, c.edit);
      var edit := Edited(w, row, c.edit);
      if edit.Some? && IsNotFound(edit.value) {
        ResentKeeps(w, id, c.channel, c.send, c.rowOk, None);
      }
    }
  }

  lemma ResendKeeps(w: World, id: nat, c: ResendCalls)
    requires Inv(w, {}) && id in w.rows
    ensures var (w', reply) := Resend(w, id, c);
            && Inv(w', {}) && w'.rows.Keys == w.rows.Keys
            && (reply == Success ==> NamesLive(w', id) && w'.rows[id] == Row(w.rows[id].channel, w.nextMessage))
            && (LiveKept(w) ==> LiveKept(w'))
            && (MovedOff(w) ==> (MovedOff(w') <==> !ResendOvercounts(w, id, c)))
  {
    var row := w.rows[id];
    DeleteKeeps(w, id, c.del);
    DeleteThenResend(w, id, c.del, row.channel, c.send, c.rowOk);
  }

  /** A new row takes the message out of the handler's hand. */
  lemma InsertKeeps(w: World, row: Row)
    requires Inv(w, {row.message}) && !Referenced(w, row.message)
    requires row.message in w.live && w.live[row.message] == row.channel
    ensures Inv(w.(rows := w.rows[w.nextRow := row], nextRow := w.nextRow + 1), {})
  {
    NamedAfterSet(w.rows, w.nextRow, row);
  }

  /** A sent message whose row write failed is lost. */
  lemma LoseKeeps(w: World, m: nat)
    requires Inv(w, {m}) && !Referenced(w, m) && m !in w.ignored
    ensures Inv(w.(lost := w.lost + {m}), {}) && (m in w.live ==> Steady(w, w.(lost := w.lost + {m})))
  {
  }

  lemma CreateKeeps(w: World, channel: nat, send: Option<Fault>, rowOk: bool, targetsOk: bool)
    requires Inv(w, {})
    ensures var (w', reply) := Create(w, channel, send, rowOk, targetsOk);
            && Inv(w', {})
            && (reply == Success ==> NamesLive(w', w.nextRow) && w'.rows[w.nextRow].channel == channel)
            && Steady(w, w')
  {
    SendKeeps(w, channel, send);
    var (w1, sent) := Sent(w, channel, send);
    if sent.Ok? {
      if rowOk {
        InsertKeeps(w1, Row(channel, sent.value));
      } else {
        LoseKeeps(w1, sent.value);
      }
    }
  }

  lemma RemoveKeeps(w: World, id: nat, fault: MessageFault, rowOk: bool)
    requires Inv(w, {}) && id in w.rows
    ensures var w' := Remove(w, id, fault, rowOk).0;
            && Inv(w', {}) && (LiveKept(w) ==> LiveKept(w'))
            && (MovedOff(w) ==> (MovedOff(w') <==> !RemoveOvercounts(w, id, fault, rowOk)))
  {
    var row := w.rows[id];
    DeleteKeeps(w, id, fault);
    var (w1, del) := Deleted(w, row, fault);
    var w2 := Ignoring(w1, row.message, del);
    NamedAfterDrop(w2.rows, id);
  }

  /** In DeletePanel the row moves first; its old message is then in hand. */
  lemma MoveFirstKeeps(w: World, id: nat, row: Row)
    requires Inv(w, {row.message}) && id in w.rows && !Referenced(w, row.message)
    requires row.message in w.live && w.live[row.message] == row.channel
    ensures var w' := w.(rows := w.rows[id := row]);
            Inv(w', {w.rows[id].message}) && !Referenced(w', w.rows[id].message)
  {
    NamedAfterSet(w.rows, id, row);
  }

  lemma DropKeeps(w: World, row: Row, fault: MessageFault)
    requires Inv(w, {row.message}) && !Referenced(w, row.message)
    requires row.message in w.live ==> w.live[row.message] == row.channel
    ensures var w' := Dropped(w, row, fault);
            && Inv(w', {}) && w'.rows == w.rows
            && (forall id | id in w.rows :: NamesLive(w, id) <==> NamesLive(w', id))
            && Steady(w, w')
  {
  }

  lemma MoveAndDropKeeps(w: World, id: nat, row: Row, fault: MessageFault)
    requires Inv(w, {row.message}) && id in w.rows && !Referenced(w, row.message)
    requires row.message in w.live && w.live[row.message] == row.channel
    ensures var w' := Dropped(w.(rows := w.rows[id := row]), w.rows[id], fault);
            && Inv(w', {}) && w'.rows == w.rows[id := row] && NamesLive(w', id)
            && (forall j | j in w.rows && j != id :: NamesLive(w, j) <==> NamesLive(w', j))
            && Steady(w, w')
  {
    MoveFirstKeeps(w, id, row);
    var w2 := w.(rows := w.rows[id := row]);
    assert NamesLive(w2, id);
    assert forall j | j in w.rows && j != id :: NamesLive(w, j) <==> NamesLive(w2, j);
    DropKeeps(w2, w.rows[id], fault);
  }

  lemma ReplaceKeeps(w: World, id: nat, c: RefreshCalls)
    requires Inv(w, {}) && id in w.rows
    ensures var (w', reply) := Replace(w, id, c);
            && Inv(w', {}) && w'.rows.Keys == w.rows.Keys
            && (forall j | j in w.rows && j != id :: w'.rows[j] == w.rows[j] && (NamesLive(w, j) <==> NamesLive(w', j)))
            && (reply == Success ==> (NamesLive(w', id) <==> c.send.None? || NamesLive(w, id)))
            && Steady(w, w')
  {
    var row := w.rows[id];
    SendKeeps(w, row.channel, c.send);
    var (w1, sent) := Sent(w, row.channel, c.send);
    if c.panelsOk && sent.Ok? {
      if c.rowOk {
        var row' := Row(row.channel, sent.value);
        MoveAndDropKeeps(w1, id, row', c.del);
      } else {
        LoseKeeps(w1, sent.value);
      }
    }
  }

  lemma RefreshKeeps(w: World, id: nat, c: RefreshCalls)
    requires Inv(w, {}) && id in w.rows
    ensures var (w', reply) := Refresh(w, id, c);
            && Inv(w', {}) && w'.rows.Keys == w.rows.Keys
            && (forall j | j in w.rows && j != id :: w'.rows[j] == w.rows[j] && (NamesLive(w, j) <==> NamesLive(w', j)))
            && (reply == Success ==> NamesLive(w', id))
            && Steady(w, w')
  {
    NotFoundIsDead(w, id, c.edit);
    var edit := Edited(w, w.rows[id], c.edit);
    if c.panelsOk && edit.Some? && IsNotFound(edit.value) {
      ResentKeeps(w, id, w.rows[id].channel, c.send, c.rowOk, None);
    }
  }

  lemma RoundKeeps(w: World, id: nat, deleting: bool, c: RefreshCalls)
    requires Inv(w, {}) && id in w.rows
    ensures var (w', reply) := Round(w, id, deleting, c);
            && Inv(w', {}) && w'.rows.Keys == w.rows.Keys
            && (forall j | j in w.rows && j != id :: w'.rows[j] == w.rows[j] && (NamesLive(w, j) <==> NamesLive(w', j)))
            && (reply == Success ==> (NamesLive(w', id) <==> !deleting || c.send.None? || NamesLive(w, id)))
            && Steady(w, w')
  {
    if deleting {
      ReplaceKeeps(w, id, c);
    } else {
      RefreshKeeps(w, id, c);
    }
  }

  /** Some round of a refresh loop gave the row a message that was live then. */
  ghost predicate Renewed(ids: seq<nat>, deleting: bool, calls: seq<RefreshCalls>, id: nat)
    requires |calls| == |ids|
  {
    exists i :: 0 <= i < |ids| && ids[i] == id && (!deleting || calls[i].send.None?)
  }

  lemma RenewedCons(ids: seq<nat>, deleting: bool, calls: seq<RefreshCalls>, id: nat)
    requires |calls| == |ids| > 0
    ensures Renewed(ids, deleting, calls, id) <==>
            (ids[0] == id && (!deleting || calls[0].send.None?)) || Renewed(ids[1..], deleting, calls[1..], id)
  {
    if i :| 0 <= i < |ids[1..]| && ids[1..][i] == id && (!deleting || calls[1..][i].send.None?) {
      assert ids[i + 1] == id && calls[i + 1] == calls[1..][i];
    }
    if i :| 1 <= i < |ids| && ids[i] == id && (!deleting || calls[i].send.None?) {
      assert ids[1..][i - 1] == id && calls[1..][i - 1] == calls[i];
    }
  }

  /** After a refresh loop that did not fail, a row names a live message if it did before or a round renewed it. */
  lemma {:induction false} RoundsKeep(w: World, ids: seq<nat>, deleting: bool, calls: seq<RefreshCalls>)
    requires Inv(w, {}) && |calls| == |ids| && forall id | id in ids :: id in w.rows
    ensures var (w', reply) := Rounds(w, ids, deleting, calls);
            && Inv(w', {}) && w'.rows.Keys == w.rows.Keys
            && (reply == Success ==> forall id | id in w.rows ::
                  NamesLive(w', id) <==> NamesLive(w, id) || Renewed(ids, deleting, calls, id))
            && Steady(w, w')
    decreases |ids|
  {
    if ids != [] {
      RoundKeeps(w, ids[0], deleting, calls[0]);
      var (w1, reply) := Round(w, ids[0], deleting, calls[0]);
      if reply == Success {
        RoundsKeep(w1, ids[1..], deleting, calls[1..]);
        forall id
          ensures Renewed(ids, deleting, calls, id) <==>
                  (ids[0] == id && (!deleting || calls[0].send.None?)) || Renewed(ids[1..], deleting, calls[1..], id)
        {
          RenewedCons(ids, deleting, calls, id);
        }
      }
    }
  }

  // ----- runs -----

  datatype Op =
    | DoCreate(channel: nat, send: Option<Fault>, rowOk: bool, targetsOk: bool)
    | DoUpdate(id: nat, update: UpdateCalls)
    | DoResend(id: nat, resend: ResendCalls)
    | DoRemove(id: nat, del: MessageFault, rowOk: bool)
    | DoRefresh(ids: seq<nat>, deleting: bool, ready: bool, calls: seq<RefreshCalls>)
    | Vanish(message: nat)   // someone deletes a message on Discord

  /** A handler whose multi-panel does not exist answers with an error and does nothing. */
  function Apply(w: World, op: Op): (World, Reply) {
    match op
    case DoCreate(channel, send, rowOk, targetsOk) => Create(w, channel, send, rowOk, targetsOk)
    case DoUpdate(id, c) => if id in w.rows then Update(w, id, c) else (w, Failed)
    case DoResend(id, c) => if id in w.rows then Resend(w, id, c) else (w, Failed)
    case DoRemove(id, del, rowOk) => if id in w.rows then Remove(w, id, del, rowOk) else (w, Failed)
    case DoRefresh(ids, deleting, ready, calls) =>
      if |calls| == |ids| && forall id | id in ids :: id in w.rows then RefreshAll(w, ids, deleting, ready, calls)
      else (w, Failed)
    case Vanish(m) => (w.(live := w.live - {m}), Success)
  }

  predicate Overcounts(w: World, op: Op) {
    match op
    case DoUpdate(id, c) => id in w.rows && UpdateOvercounts(w, id, c)
    case DoResend(id, c) => id in w.rows && ResendOvercounts(w, id, c)
    case DoRemove(id, del, rowOk) => id in w.rows && RemoveOvercounts(w, id, del, rowOk)
    case _ => false
  }

  lemma ApplyKeeps(w: World, op: Op)
    requires Inv(w, {})
    ensures var w' := Apply(w, op).0;
            && Inv(w', {})
            && (!op.Vanish? && LiveKept(w) ==> LiveKept(w'))
            && (MovedOff(w) ==> (MovedOff(w') <==> !Overcounts(w, op)))
  {
    match op
    case DoCreate(channel, send, rowOk, targetsOk) => CreateKeeps(w, channel, send, rowOk, targetsOk);
    case DoUpdate(id, c) => if id in w.rows { UpdateKeeps(w, id, c); }
    case DoResend(id, c) => if id in w.rows { ResendKeeps(w, id, c); }
    case DoRemove(id, del, rowOk) => if id in w.rows { RemoveKeeps(w, id, del, rowOk); }
    case DoRefresh(ids, deleting, ready, calls) =>
      if |calls| == |ids| && (forall id | id in ids :: id in w.rows) && ready {
        assert forall id | id in FirstFive(ids) :: id in ids;
        RoundsKeep(w, FirstFive(ids), deleting, FirstFive(calls));
      }
    case Vanish(m) => VanishKeeps(w, m);
  }

  lemma VanishKeeps(w: World, m: nat)
    requires Inv(w, {})
    ensures Inv(w.(live := w.live - {m}), {})
  {
    var w' := w.(live := w.live - {m});
    forall x
      ensures Referenced(w', x) == Referenced(w, x)
    {
    }
  }

  function RunAll(w: World, ops: seq<Op>): World
    decreases |ops|
  {
    if ops == [] then w else Apply(RunAll(w, ops[..|ops| - 1]), ops[|ops| - 1]).0
  }

  lemma {:induction false} RunKeeps(ops: seq<Op>)
    ensures Inv(RunAll(INITIAL, ops), {})
    decreases |ops|
  {
    if ops != [] {
      RunKeeps(ops[..|ops| - 1]);
      ApplyKeeps(RunAll(INITIAL, ops[..|ops| - 1]), ops[|ops| - 1]);
    }
  }

  ghost function Orphans(w: World): set<nat> {
    set m | m in w.live && !Referenced(w, m)
  }

  lemma OrphansOf(w: World)
    requires Inv(w, {})
    ensures Orphans(w) == w.live.Keys * (w.lost + w.abandoned) && w.lost !! w.abandoned
  {
    forall m | m in w.lost + w.abandoned
      ensures !Referenced(w, m)
    {
    }
  }

  /**
   After any run: the live messages no row names are exactly the live ones among the sends
   whose row write failed and the failed deletes whose row has moved on.
   */
  lemma OrphansAreAccountedFor(ops: seq<Op>)
    ensures var w := RunAll(INITIAL, ops);
            && Orphans(w) == w.live.Keys * (w.lost + w.abandoned)
            && w.lost !! w.abandoned
  {
    RunKeeps(ops);
    OrphansOf(RunAll(INITIAL, ops));
  }

  /** In a run in which nobody but the handlers deletes messages, all of them are live. */
  lemma {:induction false} RunKeepsLive(ops: seq<Op>)
    requires forall o | o in ops :: !o.Vanish?
    ensures LiveKept(RunAll(INITIAL, ops))
    decreases |ops|
  {
    if ops != [] {
      var n := |ops| - 1;
      RunKeepsLive(ops[..n]);
      RunKeeps(ops[..n]);
      ApplyKeeps(RunAll(INITIAL, ops[..n]), ops[n]);
    }
  }

  /** So their number is that of the lost sends plus that of the abandoned messages. */
  lemma OrphanCount(ops: seq<Op>)
    requires forall o | o in ops :: !o.Vanish?
    ensures var w := RunAll(INITIAL, ops); |Orphans(w)| == |w.lost| + |w.abandoned|
  {
    RunKeepsLive(ops);
    OrphansAreAccountedFor(ops);
    var w := RunAll(INITIAL, ops);
    assert Orphans(w) == w.lost + w.abandoned;
  }

  // ----- counting every ignored delete instead -----

  /** The unreferenced live messages are as many as the lost sends and the live messages whose delete was ignored. */
  ghost predicate CountIsRight(w: World) {
    |Orphans(w)| == |w.lost| + |w.ignored|
  }

  lemma CountIsRightIff(w: World)
    requires Inv(w, {}) && LiveKept(w)
    ensures CountIsRight(w) <==> MovedOff(w)
  {
    OrphansOf(w);
    assert Orphans(w) == w.lost + w.abandoned;
    if CountIsRight(w) {
      SubsetOfSameSize(w.abandoned, w.ignored);
    }
  }

  /**
   A call makes a right count wrong if and only if it ignores the delete of a live message and then fails to move the
   row.
   */
  lemma CallOvercountsIff(w: World, op: Op)
    requires Inv(w, {}) && LiveKept(w) && CountIsRight(w) && !op.Vanish?
    ensures CountIsRight(Apply(w, op).0) <==> !Overcounts(w, op)
  {
    ApplyKeeps(w, op);
    CountIsRightIff(w);
    CountIsRightIff(Apply(w, op).0);
  }

  /** The count is right after every prefix of the run. */
  ghost predicate RightThroughout(ops: seq<Op>)
    decreases |ops|
  {
    CountIsRight(RunAll(INITIAL, ops)) && (ops != [] ==> RightThroughout(ops[..|ops| - 1]))
  }

  predicate NoCallOvercounts(ops: seq<Op>)
    decreases |ops|
  {
    ops != [] ==>
      var n := |ops| - 1;
      NoCallOvercounts(ops[..n]) && !Overcounts(RunAll(INITIAL, ops[..n]), ops[n])
  }

  lemma LastCallOvercountsIff(ops: seq<Op>)
    requires ops != [] && forall o | o in ops :: !o.Vanish?
    requires CountIsRight(RunAll(INITIAL, ops[..|ops| - 1]))
    ensures CountIsRight(RunAll(INITIAL, ops)) <==> !Overcounts(RunAll(INITIAL, ops[..|ops| - 1]), ops[|ops| - 1])
  {
    var n := |ops| - 1;
    RunKeeps(ops[..n]);
    RunKeepsLive(ops[..n]);
    CallOvercountsIff(RunAll(INITIAL, ops[..n]), ops[n]);
  }

  lemma NothingOrphaned()
    ensures CountIsRight(RunAll(INITIAL, []))
  {
    assert Orphans(INITIAL) == {};
  }

  /** Over a run the count is right at every point if and only if no call of it does that. */
  lemma {:induction false} RunOvercountsIff(ops: seq<Op>)
    requires forall o | o in ops :: !o.Vanish?
    ensures RightThroughout(ops) <==> NoCallOvercounts(ops)
    decreases |ops|
  {
    if ops == [] {
      NothingOrphaned();
    } else {
      var init := ops[..|ops| - 1];
      RunOvercountsIff(init);
      if RightThroughout(init) {
        LastCallOvercountsIff(ops);
      }
    }
  }

  /** It happens: a delete refused with 403, then a failed send, leaves the row on its live message. */
  lemma IgnoredDeletesOvercount()
    ensures var ops := [DoCreate(1, None, true, true),
                        DoUpdate(0, UpdateCalls(2, Some(Status(403)), None, Some(Status(403)), true, true))];
            var w := RunAll(INITIAL, ops);
            NamesLive(w, 0) && w.ignored == {0} && w.live.Keys == {0} && Orphans(w) == {} && !CountIsRight(w)
  {
  }

  /** Whatever failed before: an update or resend that reports success leaves its row naming a live message. */
  lemma SuccessNamesLive(ops: seq<Op>, op: Op)
    requires op.DoUpdate? || op.DoResend?
    requires Apply(RunAll(INITIAL, ops), op).1 == Success
    ensures var w := Apply(RunAll(INITIAL, ops), op).0; NamesLive(w, op.id) && !(w.rows[op.id].message in Orphans(w))
    ensures op.DoUpdate? ==> Apply(RunAll(INITIAL, ops), op).0.rows[op.id].channel == op.update.channel
  {
    RunKeeps(ops);
    var w := RunAll(INITIAL, ops);
    match op
    case DoUpdate(id, c) => UpdateKeeps(w, id, c);
    case DoResend(id, c) => ResendKeeps(w, id, c);
  }

  /**
   After a panel update or delete that reports success, each of the panel's multi-panels names a live message if and
   only if it did before, or it is among the first five and, for a delete, its send succeeded.
   */
  lemma PanelRefreshNamesLive(ops: seq<Op>, ids: seq<nat>, deleting: bool, ready: bool, calls: seq<RefreshCalls>,
                              id: nat)
    requires var w := RunAll(INITIAL, ops); |calls| == |ids| && (forall i | i in ids :: i in w.rows) && id in w.rows
    requires RefreshAll(RunAll(INITIAL, ops), ids, deleting, ready, calls).1 == Success
    ensures var w := RunAll(INITIAL, ops);
            NamesLive(RefreshAll(w, ids, deleting, ready, calls).0, id) <==>
            NamesLive(w, id) || exists i ::
              0 <= i < |ids| && i < 5 && ids[i] == id && (!deleting || calls[i].send.None?)
  {
    RunKeeps(ops);
    assert forall i | i in FirstFive(ids) :: i in ids;
    RoundsKeep(RunAll(INITIAL, ops), FirstFive(ids), deleting, FirstFive(calls));
    assert forall i | 0 <= i < |FirstFive(ids)| :: FirstFive(ids)[i] == ids[i] && FirstFive(calls)[i] == calls[i];
  }

  /** It happens: the message is gone and the send is refused, yet the panel delete reports success. */
  lemma RefusedSendIsSwallowed()
    ensures var refresh := DoRefresh([0], true, true, [RefreshCalls(true, None, Some(Status(403)), true, None)]);
            var (w, reply) := Apply(RunAll(INITIAL, [DoCreate(1, None, true, true), Vanish(0)]), refresh);
            0 in w.rows && reply == Success && !NamesLive(w, 0)
  {
    var create := DoCreate(1, None, true, true);
    var ops := [create, Vanish(0)];
    assert ops[..|ops| - 1] == [create] && [create][..0] == [];
    assert RunAll(INITIAL, []) == INITIAL;
    assert RunAll(INITIAL, [create]) == Apply(INITIAL, create).0;
    var w := RunAll(INITIAL, ops);
    assert w == Apply(RunAll(INITIAL, [create]), Vanish(0)).0;
    assert w.rows == map[0 := Row(1, 0)] && w.live == map[];
    assert [0][1..] == [];
  }
}
