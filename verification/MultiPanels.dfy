/**
 Multi-panels: each database row names one Discord message. The handlers move row
 and message together while every REST call and every database call may fail.
 A failed call has no effect. A reply of "not found" about a message is truthful.

 `lost`, `ignored` and `abandoned` record what the calls answered and influence nothing.
 */
module MultiPanels {
  import opened Wrappers

  /** A failed call: a REST error with its status code, or no REST error at all. */
  datatype Fault = Status(code: int) | Transport

  /** A failure the environment may inject into an edit or a delete: it may not claim a live message missing. */
  type MessageFault = f: Option<Fault> | f != Some(Status(404)) && f != Some(Status(10008)) witness None

  predicate IsClientError(f: Fault) {
    f.Status? && 400 <= f.code < 500
  }

  predicate IsNotFound(f: Fault) {
    f == Status(404) || f == Status(10008)
  }

  datatype Row = Row(channel: nat, message: nat)

  datatype World = World(
    rows: map<nat, Row>,
    nextRow: nat,
    live: map<nat, nat>,       // live messages and their channels
    nextMessage: nat,
    lost: set<nat>,            // sent, but the row write that should name them failed
    ignored: set<nat>,         // live, but a delete of them failed and the handler went on
    abandoned: set<nat>)       // such messages whose row has moved off them

  datatype Reply = Success | Failed

  const INITIAL := World(map[], 0, map[], 0, {}, {}, {})

  // ----- Discord -----

  function Deleted(w: World, row: Row, fault: MessageFault): (World, Option<Fault>) {
    if fault.Some? then (w, fault)
    else if row.message in w.live && w.live[row.message] == row.channel
    then (w.(live := w.live - {row.message}), None)
    else (w, Some(Status(404)))
  }

  function Edited(w: World, row: Row, fault: MessageFault): Option<Fault> {
    if fault.Some? then fault
    else if row.message in w.live && w.live[row.message] == row.channel then None
    else Some(Status(404))
  }

  function Sent(w: World, channel: nat, fault: Option<Fault>): (World, Result<nat, Fault>) {
    if fault.Some? then (w, Err(fault.value))
    else (w.(live := w.live[w.nextMessage := channel], nextMessage := w.nextMessage + 1), Ok(w.nextMessage))
  }

  // ----- the rows -----

  /** A delete failed, not because the message was already gone, and the handler goes on. */
  predicate WasIgnored(del: Option<Fault>) {
    del.Some? && !IsNotFound(del.value)
  }

  function Ignoring(w: World, message: nat, del: Option<Fault>): World {
    if WasIgnored(del) && message in w.live then w.(ignored := w.ignored + {message}) else w
  }

  function Abandoning(w: World, message: nat, del: Option<Fault>): World {
    if WasIgnored(del) && message in w.live then w.(abandoned := w.abandoned + {message}) else w
  }

  /** Makes the row name another message; `del` is what deleting the old one had answered. */
  function Moved(w: World, id: nat, row: Row, ok: bool, del: Option<Fault>): World
    requires id in w.rows
  {
    if ok then Abandoning(w, w.rows[id].message, del).(rows := w.rows[id := row])
    else w.(lost := w.lost + {row.message})
  }

  /** Sends the message afresh and makes the row name it. */
  function Resent(w: World, id: nat, channel: nat, send: Option<Fault>, rowOk: bool, del: Option<Fault>): (World, bool)
    requires id in w.rows
  {
    var (w1, sent) := Sent(w, channel, send);
    if sent.Err? then (w1, false) else (Moved(w1, id, Row(channel, sent.value), rowOk, del), rowOk)
  }

  // ----- the handlers -----

  /** MultiPanelCreate, after validation: send, then insert the row, then its targets. */
  function Create(w: World, channel: nat, send: Option<Fault>, rowOk: bool, targetsOk: bool): (World, Reply) {
    var (w1, sent) := Sent(w, channel, send);
    if sent.Err? then (w1, Failed)
    else if !rowOk then (w1.(lost := w1.lost + {sent.value}), Failed)
    else
      var w2 := w1.(rows := w1.rows[w1.nextRow := Row(channel, sent.value)], nextRow := w1.nextRow + 1);
      (w2, if targetsOk then Success else Failed)
  }

  datatype UpdateCalls = UpdateCalls(
    channel: nat, del: MessageFault, edit: MessageFault, send: Option<Fault>, rowOk: bool, targetsOk: bool)

  /** MultiPanelUpdate, after validation. A new channel means delete and send; the old one means edit or re-send. */
  function Update(w: World, id: nat, c: UpdateCalls): (World, Reply)
    requires id in w.rows
  {
    var row := w.rows[id];
    if row.channel != c.channel then
      var (w1, del) := Deleted(w, row, c.del);
      if del.Some? && !IsClientError(del.value) then (w1, Failed)
      else
        var (w2, done) := Resent(Ignoring(w1, row.message, del), id, c.channel, c.send, c.rowOk, del);
        (w2, if done && c.targetsOk then Success else Failed)
    else
      var edit := Edited(w, row, c.edit);
      if edit.None? then
        (w, if c.rowOk && c.targetsOk then Success else Failed)
      else if IsNotFound(edit.value) then
        var (w1, done) := Resent(w, id, c.channel, c.send, c.rowOk, None);
        (w1, if done && c.targetsOk then Success else Failed)
      else (w, Failed)
  }

  datatype ResendCalls = ResendCalls(del: MessageFault, lookupsOk: bool, send: Option<Fault>, rowOk: bool)

  /** MultiPanelResend. Only a non-client REST error stops it at the delete; a transport error is ignored. */
  function Resend(w: World, id: nat, c: ResendCalls): (World, Reply)
    requires id in w.rows
  {
    var row := w.rows[id];
    var (w1, del) := Deleted(w, row, c.del);
    if del.Some? && del.value.Status? && !IsClientError(del.value) then (w1, Failed)
    else
      var w2 := Ignoring(w1, row.message, del);
      if !c.lookupsOk then (w2, Failed)
      else
        var (w3, done) := Resent(w2, id, row.channel, c.send, c.rowOk, del);
        (w3, if done then Success else Failed)
  }

  /** MultiPanelDelete: 403 and 404 on the message are swallowed, then the row goes. */
  function Remove(w: World, id: nat, delFault: MessageFault, rowOk: bool): (World, Reply)
    requires id in w.rows
  {
    var row := w.rows[id];
    var (w1, del) := Deleted(w, row, delFault);
    if del.Some? && del.value != Status(403) && del.value != Status(404) then (w1, Failed)
    else
      var w2 := Ignoring(w1, row.message, del);
      if !rowOk then (w2, Failed)
      else
        (Abandoning(w2, row.message, del).(rows := w2.rows - {id}), Success)
  }

  datatype RefreshCalls = RefreshCalls(
    panelsOk: bool, edit: MessageFault, send: Option<Fault>, rowOk: bool, del: MessageFault)

  /** Deletes a message its row no longer names, ignoring any error. */
  function Dropped(w: World, row: Row, fault: MessageFault): World {
    var (w1, del) := Deleted(w, row, fault);
    Abandoning(Ignoring(w1, row.message, del), row.message, del)
  }

  /** DeletePanel, one multi-panel: send first, then the row, then delete the old message and ignore any error. */
  function Replace(w: World, id: nat, c: RefreshCalls): (World, Reply)
    requires id in w.rows
  {
    var row := w.rows[id];
    if !c.panelsOk then (w, Failed)
    else
      var (w1, sent) := Sent(w, row.channel, c.send);
      if sent.Err? then (w1, if IsClientError(sent.error) then Success else Failed)
      else if !c.rowOk then (w1.(lost := w1.lost + {sent.value}), Failed)
      else
        (Dropped(w1.(rows := w1.rows[id := Row(row.channel, sent.value)]), row, c.del), Success)
  }

  /** UpdatePanel, one multi-panel: edit; re-send only when the message is gone. */
  function Refresh(w: World, id: nat, c: RefreshCalls): (World, Reply)
    requires id in w.rows
  {
    var row := w.rows[id];
    if !c.panelsOk then (w, Failed)
    else
      var edit := Edited(w, row, c.edit);
      if edit.None? then (w, Success)
      else if !IsNotFound(edit.value) then (w, Failed)
      else
        var (w1, done) := Resent(w, id, row.channel, c.send, c.rowOk, None);
        (w1, if done then Success else Failed)
  }

  /** One round of a refresh loop. */
  function Round(w: World, id: nat, deleting: bool, c: RefreshCalls): (World, Reply)
    requires id in w.rows
  {
    if deleting then Replace(w, id, c) else Refresh(w, id, c)
  }

  /** The refresh loop over the panel's multi-panels, in order, at most five, stopped by the first failure. */
  function Rounds(w: World, ids: seq<nat>, deleting: bool, calls: seq<RefreshCalls>): (r: (World, Reply))
    requires |calls| == |ids|
    requires forall id | id in ids :: id in w.rows
    decreases |ids|
  {
    if ids == [] then (w, Success)
    else
      var (w1, reply) := Round(w, ids[0], deleting, calls[0]);
      assert w1.rows.Keys == w.rows.Keys;
      if reply == Failed then (w1, Failed) else Rounds(w1, ids[1..], deleting, calls[1..])
  }

  lemma RoundsStep(w: World, ids: seq<nat>, deleting: bool, calls: seq<RefreshCalls>, i: nat)
    requires |calls| == |ids| && i < |ids| && forall id | id in ids :: id in w.rows
    ensures var (w1, reply) := Round(w, ids[i], deleting, calls[i]);
            && w1.rows.Keys == w.rows.Keys
            && Rounds(w, ids[i..], deleting, calls[i..])
            == if reply == Failed then (w1, Failed) else Rounds(w1, ids[i + 1..], deleting, calls[i + 1..])
  {
    assert ids[i..][1..] == ids[i + 1..] && calls[i..][1..] == calls[i + 1..];
  }

  const MAX_REFRESHED := 5

  function FirstFive<T>(s: seq<T>): seq<T> {
    if |s| > MAX_REFRESHED then s[..MAX_REFRESHED] else s
  }

  /** DeletePanel and UpdatePanel as far as multi-panels are concerned. */
  function RefreshAll(w: World, ids: seq<nat>, deleting: bool, ready: bool, calls: seq<RefreshCalls>): (World, Reply)
    requires |calls| == |ids|
    requires forall id | id in ids :: id in w.rows
  {
    if !ready then (w, Failed) else Rounds(w, FirstFive(ids), deleting, FirstFive(calls))
  }

  // ----- the handlers as they run -----

  class Backend {
    var world: World

    constructor ()
      ensures world == INITIAL
    {
      world := INITIAL;
    }

    method DeleteMessage(row: Row, fault: MessageFault) returns (err: Option<Fault>)
      modifies this
      ensures (world, err) == Deleted(old(world), row, fault)
    {
      var (w, e) := Deleted(world, row, fault);
      world, err := w, e;
    }

    method SendMessage(channel: nat, fault: Option<Fault>) returns (sent: Result<nat, Fault>)
      modifies this
      ensures (world, sent) == Sent(old(world), channel, fault)
    {
      var (w, s) := Sent(world, channel, fault);
      world, sent := w, s;
    }

    method MultiPanelUpdate(id: nat, c: UpdateCalls) returns (reply: Reply)
      requires id in world.rows
      modifies this
      ensures (world, reply) == Update(old(world), id, c)
    {
      var multiPanel := world.rows[id];
      var messageId := multiPanel.message;
      var resent := false;
      var del: Option<Fault> := None;
      if multiPanel.channel != c.channel {
        del := DeleteMessage(multiPanel, c.del);
        if del.Some? && !IsClientError(del.value) {
          return Failed;
        }
        world := Ignoring(world, multiPanel.message, del);
        var sent := SendMessage(c.channel, c.send);
        if sent.Err? {
          return Failed;
        }
        messageId, resent := sent.value, true;
      } else {
        var err := Edited(world, multiPanel, c.edit);
        if err.Some? {
          if IsNotFound(err.value) {
            var sent := SendMessage(c.channel, c.send);
            if sent.Err? {
              return Failed;
            }
            messageId, resent := sent.value, true;
          } else {
            return Failed;
          }
        }
      }

      if !c.rowOk {
        if resent {
          world := world.(lost := world.lost + {messageId});
        }
        return Failed;
      }
      assert !resent ==> world.rows[id := Row(c.channel, messageId)] == world.rows;
      world := Moved(world, id, Row(c.channel, messageId), true, del);
      reply := if c.targetsOk then Success else Failed;
    }

    method MultiPanelResend(id: nat, c: ResendCalls) returns (reply: Reply)
      requires id in world.rows
      modifies this
      ensures (world, reply) == Resend(old(world), id, c)
    {
      var multiPanel := world.rows[id];
      var del := DeleteMessage(multiPanel, c.del);
      if del.Some? && del.value.Status? && !IsClientError(del.value) {
        return Failed;
      }
      world := Ignoring(world, multiPanel.message, del);
      if !c.lookupsOk {
        return Failed;
      }
      var sent := SendMessage(multiPanel.channel, c.send);
      if sent.Err? {
        return Failed;
      }
      world := Moved(world, id, Row(multiPanel.channel, sent.value), c.rowOk, del);
      reply := if c.rowOk then Success else Failed;
    }

    /** The body of the loop in DeletePanel. */
    method ReplaceMessage(id: nat, c: RefreshCalls) returns (reply: Reply)
      requires id in world.rows
      modifies this
      ensures (world, reply) == Replace(old(world), id, c)
    {
      var multiPanel := world.rows[id];
      if !c.panelsOk {
        return Failed;
      }
      var sent := SendMessage(multiPanel.channel, c.send);
      if sent.Err? {
        return if IsClientError(sent.error) then Success else Failed;
      }
      if !c.rowOk {
        world := world.(lost := world.lost + {sent.value});
        return Failed;
      }
      world := world.(rows := world.rows[id := Row(multiPanel.channel, sent.value)]);
      var del := DeleteMessage(multiPanel, c.del);
      world := Abandoning(Ignoring(world, multiPanel.message, del), multiPanel.message, del);
      reply := Success;
    }

    /** The body of the loop in UpdatePanel. */
    method RefreshMessage(id: nat, c: RefreshCalls) returns (reply: Reply)
      requires id in world.rows
      modifies this
      ensures (world, reply) == Refresh(old(world), id, c)
    {
      var multiPanel := world.rows[id];
      if !c.panelsOk {
        return Failed;
      }
      var err := Edited(world, multiPanel, c.edit);
      if err.Some? {
        if !IsNotFound(err.value) {
          return Failed;
        }
        var sent := SendMessage(multiPanel.channel, c.send);
        if sent.Err? {
          return Failed;
        }
        world := Moved(world, id, Row(multiPanel.channel, sent.value), c.rowOk, None);
        if !c.rowOk {
          return Failed;
        }
      }
      reply := Success;
    }

    method RefreshOne(id: nat, deleting: bool, c: RefreshCalls) returns (reply: Reply)
      requires id in world.rows
      modifies this
      ensures (world, reply) == Round(old(world), id, deleting, c)
    {
      if deleting {
        reply := ReplaceMessage(id, c);
      } else {
        reply := RefreshMessage(id, c);
      }
    }

    method RefreshMultiPanels(ids: seq<nat>, deleting: bool, ready: bool, calls: seq<RefreshCalls>)
      returns (reply: Reply)
      requires |calls| == |ids| && forall id | id in ids :: id in world.rows
      modifies this
      ensures (world, reply) == RefreshAll(old(world), ids, deleting, ready, calls)
    {
      if !ready {
        return Failed;
      }
      ghost var w0, keys := world, world.rows.Keys;
      var first, firstCalls := FirstFive(ids), FirstFive(calls);
      var i := 0;
      while i < |ids|
        invariant 0 <= i <= |first|
        invariant world.rows.Keys == keys
        invariant Rounds(w0, first, deleting, firstCalls) == Rounds(world, first[i..], deleting, firstCalls[i..])
      {
        // Only update 5 multi-panels maximum
        if i >= MAX_REFRESHED {
          break;
        }
        RoundsStep(world, first, deleting, firstCalls, i);
        reply := RefreshOne(ids[i], deleting, calls[i]);
        if reply == Failed {
          return;
        }
        i := i + 1;
      }
      reply := Success;
    }
  }
}
