/** When each multi-panel handler reports success: exactly which of its calls must be answered, in which situation. */
module MultiPanelReplies {
  import opened Wrappers
  import opened MultiPanels
  import opened MultiPanelAccounting

  /** A REST error of the client class. */
  ghost predicate Is4xx(f: Fault) {
    f.Status? && 400 <= f.code <= 499
  }

  lemma CreateSucceedsIff(w: World, channel: nat, send: Option<Fault>, rowOk: bool, targetsOk: bool)
    ensures Create(w, channel, send, rowOk, targetsOk).1 == Success <==> send.None? && rowOk && targetsOk
  {
  }

  /**
   An update to another channel needs the delete answered or refused with a client error, and the send. One to the
   same channel needs the edit answered, and the send only if the message is gone.
   */
  lemma UpdateSucceedsIff(w: World, id: nat, c: UpdateCalls)
    requires id in w.rows
    ensures Update(w, id, c).1 == Success <==>
            && c.rowOk && c.targetsOk
            && (if w.rows[id].channel != c.channel then (c.del.Some? ==> Is4xx(c.del.value)) && c.send.None?
                else c.edit.None? && (NamesLive(w, id) || c.send.None?))
  {
  }

  /** The row moves exactly when a message was sent for it and its write succeeds; then it names that message. */
  lemma UpdateMovesRow(w: World, id: nat, c: UpdateCalls)
    requires id in w.rows
    ensures var sends :=
              if w.rows[id].channel != c.channel then c.del.Some? ==> Is4xx(c.del.value)
              else c.edit.None? && !NamesLive(w, id);
            Update(w, id, c).0.rows ==
            if sends && c.send.None? && c.rowOk then w.rows[id := Row(c.channel, w.nextMessage)] else w.rows
  {
  }

  /** With every call answered an update succeeds, whether or not the old message is still there. */
  lemma AnsweredUpdateSucceeds(w: World, id: nat, channel: nat)
    requires id in w.rows
    ensures Update(w, id, UpdateCalls(channel, None, None, None, true, true)).1 == Success
  {
    UpdateSucceedsIff(w, id, UpdateCalls(channel, None, None, None, true, true));
  }

  /** An answered edit of a message that is there changes neither rows nor messages. */
  lemma EditChangesNothing(w: World, id: nat, c: UpdateCalls)
    requires id in w.rows && w.rows[id].channel == c.channel && c.edit.None? && NamesLive(w, id)
    ensures Update(w, id, c).0 == w
  {
  }

  /** A re-send goes on after any failed delete but a REST error that is not of the client class. */
  lemma ResendSucceedsIff(w: World, id: nat, c: ResendCalls)
    requires id in w.rows
    ensures Resend(w, id, c).1 == Success <==>
            (c.del.Some? && c.del.value.Status? ==> Is4xx(c.del.value)) && c.lookupsOk && c.send.None? && c.rowOk
  {
  }

  /** A deletion needs the message deleted, gone already or protected, and then drops the row and no other. */
  lemma RemoveSucceedsIff(w: World, id: nat, del: MessageFault, rowOk: bool)
    requires id in w.rows
    ensures Remove(w, id, del, rowOk).1 == Success <==> (del.None? || del == Some(Status(403))) && rowOk
    ensures Remove(w, id, del, rowOk).0.rows ==
            if Remove(w, id, del, rowOk).1 == Success then w.rows - {id} else w.rows
  {
  }

  /** In a panel delete a send refused with a client error is swallowed; any other failed call is not. */
  lemma ReplaceSucceedsIff(w: World, id: nat, c: RefreshCalls)
    requires id in w.rows
    ensures Replace(w, id, c).1 == Success <==>
            c.panelsOk && (if c.send.None? then c.rowOk else Is4xx(c.send.value))
  {
  }

  /** A panel update sends afresh only what is gone. */
  lemma RefreshSucceedsIff(w: World, id: nat, c: RefreshCalls)
    requires id in w.rows
    ensures Refresh(w, id, c).1 == Success <==>
            c.panelsOk && c.edit.None? && (NamesLive(w, id) || (c.send.None? && c.rowOk))
  {
  }

  // ----- the refresh loop -----

  /** What round i of the loop needs; `gone` says whether its message is. */
  ghost predicate RoundSucceeds(deleting: bool, c: RefreshCalls, gone: bool) {
    && c.panelsOk
    && if deleting then (if c.send.None? then c.rowOk else Is4xx(c.send.value))
       else c.edit.None? && (gone ==> c.send.None? && c.rowOk)
  }

  /** A message is gone in its round if it was before the loop and no earlier round was for the same multi-panel. */
  ghost predicate AllRoundsSucceed(w: World, ids: seq<nat>, deleting: bool, calls: seq<RefreshCalls>)
    requires |calls| == |ids|
  {
    forall i | 0 <= i < |ids| :: RoundSucceeds(deleting, calls[i], !NamesLive(w, ids[i]) && ids[i] !in ids[..i])
  }

  lemma RoundSucceedsIff(w: World, id: nat, deleting: bool, c: RefreshCalls)
    requires id in w.rows
    ensures Round(w, id, deleting, c).1 == Success <==> RoundSucceeds(deleting, c, !NamesLive(w, id))
  {
    if deleting {
      ReplaceSucceedsIff(w, id, c);
    } else {
      RefreshSucceedsIff(w, id, c);
    }
  }

  lemma LaterRounds(w: World, w1: World, ids: seq<nat>, deleting: bool, calls: seq<RefreshCalls>)
    requires |calls| == |ids| > 0 && (deleting || NamesLive(w1, ids[0]))
    requires forall j | j in ids && j != ids[0] :: NamesLive(w, j) <==> NamesLive(w1, j)
    ensures AllRoundsSucceed(w, ids, deleting, calls) <==>
            RoundSucceeds(deleting, calls[0], !NamesLive(w, ids[0]))
              && AllRoundsSucceed(w1, ids[1..], deleting, calls[1..])
  {
    forall i | 1 <= i < |ids|
      ensures calls[1..][i - 1] == calls[i] && ids[1..][i - 1] == ids[i]
      ensures !deleting ==>
                (!NamesLive(w, ids[i]) && ids[i] !in ids[..i] <==>
                   !NamesLive(w1, ids[i]) && ids[i] !in ids[1..][..i - 1])
    {
      assert ids[..i] == [ids[0]] + ids[1..][..i - 1];
    }
    assert ids[..0] == [];
    if AllRoundsSucceed(w, ids, deleting, calls) {
      forall i | 0 <= i < |ids| - 1
        ensures RoundSucceeds(deleting, calls[1..][i], !NamesLive(w1, ids[1..][i]) && ids[1..][i] !in ids[1..][..i])
      {
        assert RoundSucceeds(deleting, calls[i + 1], !NamesLive(w, ids[i + 1]) && ids[i + 1] !in ids[..i + 1]);
      }
    }
    if RoundSucceeds(deleting, calls[0], !NamesLive(w, ids[0]))
      && AllRoundsSucceed(w1, ids[1..], deleting, calls[1..]) {
      forall i | 1 <= i < |ids|
        ensures RoundSucceeds(deleting, calls[i], !NamesLive(w, ids[i]) && ids[i] !in ids[..i])
      {
        assert RoundSucceeds(deleting, calls[1..][i - 1],
                             !NamesLive(w1, ids[1..][i - 1]) && ids[1..][i - 1] !in ids[1..][..i - 1]);
      }
    }
  }

  lemma {:induction false} RoundsSucceedIff(w: World, ids: seq<nat>, deleting: bool, calls: seq<RefreshCalls>)
    requires Inv(w, {}) && |calls| == |ids| && forall id | id in ids :: id in w.rows
    ensures Rounds(w, ids, deleting, calls).1 == Success <==> AllRoundsSucceed(w, ids, deleting, calls)
    decreases |ids|
  {
    if ids != [] {
      RoundKeeps(w, ids[0], deleting, calls[0]);
      RoundSucceedsIff(w, ids[0], deleting, calls[0]);
      var (w1, reply) := Round(w, ids[0], deleting, calls[0]);
      if reply == Success {
        RoundsSucceedIff(w1, ids[1..], deleting, calls[1..]);
        LaterRounds(w, w1, ids, deleting, calls);
      } else {
        assert ids[..0] == [];
      }
    }
  }

  /** A panel update or delete succeeds if and only if the lookups before the loop and the first five rounds do. */
  lemma RefreshAllSucceedsIff(w: World, ids: seq<nat>, deleting: bool, ready: bool, calls: seq<RefreshCalls>)
    requires Inv(w, {}) && |calls| == |ids| && forall id | id in ids :: id in w.rows
    ensures RefreshAll(w, ids, deleting, ready, calls).1 == Success <==>
            ready && forall i | 0 <= i < |ids| && i < 5 ::
              RoundSucceeds(deleting, calls[i], !NamesLive(w, ids[i]) && ids[i] !in ids[..i])
  {
    var first, firstCalls := FirstFive(ids), FirstFive(calls);
    assert forall id | id in first :: id in ids;
    RoundsSucceedIff(w, first, deleting, firstCalls);
    forall i | 0 <= i < |first|
      ensures first[i] == ids[i] && firstCalls[i] == calls[i] && first[..i] == ids[..i]
    {
    }
  }

  /** So nothing is stuck: after any run, an update of a multi-panel whose message somebody deleted sends it afresh. */
  lemma DeletedMessageIsSentAfresh(ops: seq<Op>, id: nat)
    requires id in RunAll(INITIAL, ops).rows && !NamesLive(RunAll(INITIAL, ops), id)
    ensures var w := RunAll(INITIAL, ops);
            var (w', reply) := Update(w, id, UpdateCalls(w.rows[id].channel, None, None, None, true, true));
            reply == Success && NamesLive(w', id) && w'.rows[id].message == w.nextMessage
  {
    var w := RunAll(INITIAL, ops);
    AnsweredUpdateSucceeds(w, id, w.rows[id].channel);
    RunKeeps(ops);
    UpdateKeeps(w, id, UpdateCalls(w.rows[id].channel, None, None, None, true, true));
  }
}
