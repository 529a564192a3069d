# Verified model of the ticket dashboard

A Dafny model of the stateful cores of the dashboard's API server and web client, with proofs of
what they keep. Databases, Redis and Discord are values or objects; every call to them that can
fail is a parameter of the step that makes it. Concurrency is a state machine over joint steps.

One module per file. Each core has its operations in one module and, where the proofs are long, its
theorems in another.

- `SocketManager`, `LiveChat`, `LiveChatSafety`, `LiveChatTheorems`, `LiveChatStall`, `Registry`: the live-chat
  websocket server. `SocketManager` is the `Run` goroutine's state as it is updated, including the
  in-place removal; `LiveChat` is the protocol of `Run`, the connection handlers, the read loops and
  the write loops over unbuffered channels. Both use the table operations of `Registry`.
- `RateLimit`: the Redis ticket limiter, from the script on one key up to traces over all guilds.
- `MultiPanels`, `MultiPanelAccounting`, `MultiPanelReplies`, `MultiPanelLayout`: the life of a multi-panel's
  database row and Discord message under partial failure, and when each handler succeeds; the resolution of its
  panels and its button rows.
- `FormInputs`, `FormSaving`, `FormTheorems`, `FormPositions`: the server's checks on a form update, and
  the save transaction. `FormEditor`, `FormEditorTheorems`, `FormRounds`: the client's list editor, up to
  what is stored, and any number of edit-and-save rounds.
- `ActiveGuilds`, `ActiveGuildsTheorems`, `ActiveGuildsHistory`: the three loops that turn the stored
  links of a multi-server subscription into the user's selection, for one run and for many.
- `Visibility`: the per-ticket decision against the panel list of panel-team members.
- `ThreadMode`: the invariant that panel and settings validation keep jointly; auto-close clamping.
- `Members`: the goroutine collector behind a team's member list.
- `Placeholders`, `PlaceholderNames`, `PlaceholderTemplates`, `PlaceholderSeams`, `PlaceholderParts`,
  `PlaceholderPairs`: the substitutions in a ticket message, what they mean for it, and which inserted names put a
  placeholder together again.
- `NamingScheme`, `JsonNumbers`, `JsonGrammar`, `Colours`: the other text transformations, over `Strings` and `Digits`.
- `BlankFields`: the recursive pruning of an embed's JSON tree in the client.
- `Secrets`: the matching of supplied with stored integration secrets.
- `Sequences`, `Counting`, `Sorting`, `Strings`, `Digits`, `Wrappers`: shared definitions.

`dafny verify dfyconfig.toml` checks everything. Nothing was executed.

## Where a natural claim is false

The code is kept as it is; each case has a concrete input and, unless it says otherwise, the exact condition.

- A multi-panel's unreferenced live messages are not always as many as the lost sends and the ignored
  deletes: an update whose delete is refused with 403 and whose send then fails leaves the row on its
  live message (`MultiPanelAccounting.IgnoredDeletesOvercount`). A call makes a right count wrong if and
  only if it ignores the delete of a live message and a later call of the same handler fails
  (`CallOvercountsIff`, over runs `RunOvercountsIff`). Counting the live messages whose row has moved on
  is right as long as nobody else deletes messages (`OrphanCount`).
- A panel delete that reports success may leave a multi-panel without a live message: exactly those that
  named none before and either had their send refused, which is swallowed, or come after the fifth, which
  are not refreshed (`MultiPanelAccounting.PanelRefreshNamesLive`; a run in which a send is refused,
  `RefusedSendIsSwallowed`).
- An accepted form update need not cover the remaining inputs: update ids 1 and 1 over rows 1 and 2
  pass every check (`FormInputs.RepeatedUpdateIsAccepted`). It covers them if and only if its update ids
  are distinct (`AcceptedCoversIffDistinct`). The stored positions are then 1 and 2 only if the old
  position of row 2 was 1 (`FormTheorems.RepeatedUpdateSpoilsPositions`); in general they are 1 to n if
  and only if the old positions of the rows left out are the positions of the overridden updates
  (`FormPositions.StoredPositionsIff`).
- When the editor saves a created input and the reload after the save fails, the input is still marked as
  new, and the next save is refused (`FormRounds.SavedAgainIsRefused`). All saves of a session are accepted
  if and only if no save but the last that created an input was followed by a failed reload
  (`SessionIsAcceptedIff`).
- Nothing checks that the selected guilds of a subscription differ: guild 1 selected twice gets two
  entitlements (`ActiveGuildsTheorems.SelectedTwice`). Two stand for one guild if and only if a guild
  without a link is selected twice, or a selected guild already had two links (`OnePerGuildIff`).
- A second run with the same selection can add an entitlement (`SwitchedThenDoubled`), because an SKU
  switch does not recreate the link. It changes nothing if and only if every selected guild that had links
  had one whose SKU was not switched (`IdempotentIff`); where a guild has at most one link, if and only if
  the first run switched no SKU (`IdempotentIffNoSwitch`). Over any number of runs the user keeps at most
  one live entitlement per guild if and only if no run selects an unlinked guild twice or a guild with a
  loose entitlement, from the start or from an earlier switch (`ActiveGuildsHistory.OnePerGuildThroughoutIff`).
- A name inserted after the basic placeholders can rebuild one: the name "user" in the message
  "%%username%%" (`PlaceholderParts.UsernameCompletesToken`). When one name is inserted and it has no
  percent sign, some message ends with a given basic placeholder in it if and only if the name is a part
  of it between two texts that are not basic placeholders themselves (`NameReturnsTokenIff`): every
  non-empty part does it but nine, `_`, `_i`, `_id` of `%user_id%` and `ti`, `tim`, `time`, `te`, `ate`,
  `date` of `%datetime%` (`PartReturnsIff`).
- Several names are not independent: "date" and "time" together rebuild `%datetime%`, which neither can
  alone (`PlaceholderPairs.DateAndTimeCompleteToken`, `NeitherAlone`). For several names the model has two
  one-way results: names none of which is empty, has a percent sign or is a part of the placeholder never
  bring it back (`PlaceholderNames.NamesKeepTokensOut`), and two that make it up between them do
  (`PlaceholderPairs.TwoNamesReturnToken`).
- The range check of a colour is skipped for a bare decimal number if and only if it is written so
  (`Colours.OutOfRangeIff`); every one above 0xFFFFFF is accepted, and the text then printed for it cannot
  be read back (`Colours.DecimalSkipsTheCheck`).
- The stored target rows of a multi-panel look configurations up by panel id while the message pairs
  them by position: one panel configured twice with different labels (`MultiPanelLayout.RowsDisagree`).
  They agree if and only if the configurations of one panel are equal (`RowsAgreeWithMessageIff`).
- Live chat promises no progress. In a run of eleven steps a write fails and `Run` then blocks for good
  (`LiveChatStall.DeadWriterStalls`); in one of seventeen no write fails, but a flush times out
  (`TimedOutFlushStalls`). While `Run` writes to a client it never moves again if and only if that
  client's write loop has ended, or is acknowledging a flush nobody waits for (`NeverMovesIff`).
- The member collector waits for ever when there is no user to fetch and an unused wait group is not
  ready (`Members.StuckWithoutUsers`), and only then (`NeverStuckIff`).

Where the code and its own words differ, the model follows the code: a naming scheme of exactly 100
characters is accepted although the message asks for fewer (app/http/endpoints/api/panel/validation.go:316-317),
and the fallback check "All existing inputs must be included" compares numbers only
(app/http/endpoints/api/forms/updateinputs.go:145-156).

## Model

| member | source | states |
|---|---|---|
| `LiveChatTheorems.ListedExactlyOnce` | app/http/endpoints/api/ticket/livechat/manager.go:46-75 | in every state of every run a client is in a guild's list exactly when it is registered, not yet unregistered, and of that guild; no list holds a client twice |
| `LiveChatTheorems.GaugeCountsListed` | app/http/endpoints/api/ticket/livechat/manager.go:54-75 | the websocket gauge always equals the total length of all client lists |
| `LiveChatTheorems.NeverSendsOnClosed` | app/http/endpoints/api/ticket/livechat/client.go:40-49 | no goroutine is ever blocked sending on a closed `tx`, and none is closed twice |
| `LiveChatTheorems.UnregisterFindsItsClient` | app/http/endpoints/api/ticket/livechat/manager.go:55-75 | the empty-list exit and the -1 case of the unregister arm are unreachable, so gauge and total fall by one together |
| `LiveChatTheorems.AuthOrigin` | app/http/endpoints/api/ticket/livechat/eventhandler.go:40-114 | an authenticated client got there by one handled auth event that met every requirement, and the position it reads from is where `Run` stood then |
| `LiveChatTheorems.LeaveOrigin` | app/http/endpoints/api/ticket/livechat/client.go:44-49 | a client that is no longer listed was unregistered at one step, which fixes where its stretch ends |
| `LiveChatTheorems.DeliveredSegment` | app/http/endpoints/api/ticket/livechat/manager.go:76-103 | over any run, the message events handed to a client are exactly the relevant broadcasts, in order and without repeats, between its authentication becoming visible and its unregistration; none without authentication |
| `LiveChatTheorems.GrantedIff` | app/http/endpoints/api/ticket/livechat/eventhandler.go:40-107 | an auth event is granted if and only if the client is not yet authenticated and token, claims, ticket, guild, permission, bot context and premium all hold; a grant authenticates |
| `LiveChatTheorems.AuthenticatedIff` | app/http/endpoints/api/ticket/livechat/eventhandler.go:109-114 | a client is authenticated in a reachable state if and only if one of its auth events was granted before |
| `LiveChatTheorems.LeavingIff` | app/http/endpoints/api/ticket/livechat/client.go:56-83 | a read loop is on its way out if and only if it was turned away before: a failed read, another event before authentication, or an auth event that was not granted |
| `LiveChatTheorems.RefusedLeaves` | app/http/endpoints/api/ticket/livechat/client.go:75-81 | after an auth event that is not granted the client handles no further event in any later state, and once past reporting it was told of an error |
| `LiveChatTheorems.LeavingDescends` | app/http/endpoints/api/ticket/livechat/client.go:44-83 | a read loop on its way out only moves towards its end |
| `LiveChatStall.NeverMovesIff` | app/http/endpoints/api/ticket/livechat/client.go:85-123 | in every reachable state in which `Run` writes to a client, no continuation lets it move if and only if that client's write loop has ended or is acknowledging a flush whose read loop no longer waits |
| `LiveChatStall.ReleasedInTwo` | app/http/endpoints/api/ticket/livechat/client.go:89-123 | otherwise at most two steps hand the event over |
| `LiveChatStall.WedgedForever` | app/http/endpoints/api/ticket/livechat/manager.go:99-102 | a wedged client stays so over every continuation, and no client is registered and no broadcast taken meanwhile |
| `LiveChatStall.DeadWriterStalls` | app/http/endpoints/api/ticket/livechat/client.go:107-118 | a run that ends blocked for good after a failed write |
| `LiveChatStall.TimedOutFlushStalls` | app/http/endpoints/api/ticket/livechat/client.go:119-136 | a run that ends blocked for good without a failed write, after a flush timed out |
| `LiveChatSafety.StepKeepsInv` | app/http/endpoints/api/ticket/livechat/livechat.go:40-43 | every enabled step of handler, read loop, write loop or `Run` keeps the protocol invariant |
| `LiveChatSafety.RunKeepsInv` | app/http/endpoints/api/ticket/livechat/livechat.go:21-45 | so the invariant holds in every reachable state |
| `LiveChatSafety.UnregisterStep` | app/http/endpoints/api/ticket/livechat/client.go:44-49 | the deferred unregister finds its client listed and keeps the invariant |
| `SocketManagers.ShiftOut` | app/http/endpoints/api/ticket/livechat/manager.go:69-71 | the in-place copy removes exactly the element at i and keeps the order of the rest |
| `Registry.AddIs` | app/http/endpoints/api/ticket/livechat/manager.go:49-53 | a registered client comes last in its guild's list and other lists stay |
| `Registry.RemoveIs` | app/http/endpoints/api/ticket/livechat/manager.go:55-75 | an unregistered client's first occurrence goes, the order of the rest and the other lists stay |
| `SocketManagers.SocketManager.Register` | app/http/endpoints/api/ticket/livechat/manager.go:49-54 | the client is appended to its guild's list, the other lists are unchanged, the gauge rises by one; the table stays valid |
| `SocketManagers.SocketManager.Unregister` | app/http/endpoints/api/ticket/livechat/manager.go:55-75 | the first occurrence is cut from its guild's list, other lists are unchanged, the gauge falls unless the list was empty |
| `SocketManagers.SocketManager.Broadcast` | app/http/endpoints/api/ticket/livechat/manager.go:76-103 | exactly the authenticated clients of the guild and ticket get the event, each once, and nobody else does |
| `RateLimit.Redis.TakeToken` | rpc/ratelimit.go:9-31 | the script answers and leaves the key as the one-key counter with expiry does |
| `RateLimit.NextIsSound` | rpc/ratelimit.go:9-31 | a call keeps the counter within 1 and the limit, and the key never without an expiry |
| `RateLimit.StaysWithinRoom` | rpc/ratelimit.go:9-31 | the tokens granted from any key state on fit the room left in a stretch, for every time-ordered trace |
| `RateLimit.GuildsAreIndependent` | rpc/ratelimit.go:36-37 | in a trace over all guilds, a guild's tokens are those of its own calls alone |
| `RateLimit.StoreStaysSound` | rpc/ratelimit.go:20-28 | in every reachable store each key carries an expiry and a counter within the limit |
| `RateLimit.SlidingWindowBound` | rpc/ratelimit.go:9-50 | no half-open stretch of one interval holds more than 2 * limit - 1 granted tokens of a guild |
| `RateLimit.BoundIsAttained` | rpc/ratelimit.go:9-31 | for every limit and interval a trace reaches that bound |
| `RateLimit.ShippedBound` | rpc/ratelimit.go:33-34 | with limit 10 and thirty seconds the bound is 19 |
| `RateLimit.GrantedIff` | rpc/ratelimit.go:9-31 | a call is granted if and only if fewer than `limit` calls came before it in its window; windows last one interval and are opened by the first call after the window before |
| `RateLimit.TokenGrantedIff` | rpc/ratelimit.go:9-37 | likewise for every call of a trace over all guilds, among the calls of its guild |
| `RateLimit.RefusedOnlyWhenFull` | rpc/ratelimit.go:16-28 | in a time-ordered trace over all guilds a call is refused only when `limit` tokens of its guild were granted within the interval that ends with it |
| `MultiPanels.Backend.MultiPanelUpdate` | app/http/endpoints/api/panel/multipanelupdate.go:147-258 | the handler moves row and message as the transition does, for every combination of failing calls |
| `MultiPanels.Backend.MultiPanelResend` | app/http/endpoints/api/panel/multipanelresend.go:57-97 | likewise for the re-send |
| `MultiPanels.Backend.RefreshMultiPanels` | app/http/endpoints/api/panel/paneldelete.go:92-123 | likewise for the refresh loop over at most five multi-panels |
| `MultiPanelAccounting.UpdateKeeps` | app/http/endpoints/api/panel/multipanelupdate.go:147-222 | an update keeps the accounting of every live message; a successful one leaves the row naming a live message in the requested channel |
| `MultiPanelAccounting.ResendKeeps` | app/http/endpoints/api/panel/multipanelresend.go:57-97 | likewise for a re-send, in the row's own channel |
| `MultiPanelAccounting.CreateKeeps` | app/http/endpoints/api/panel/multipanelcreate.go:134-164 | likewise for a creation; a failed row write loses the sent message |
| `MultiPanelAccounting.RemoveKeeps` | app/http/endpoints/api/panel/multipaneldelete.go:47-72 | likewise for the deletion of a multi-panel |
| `MultiPanelAccounting.ReplaceKeeps` | app/http/endpoints/api/panel/paneldelete.go:98-122 | likewise for one round of the panel-delete loop, which sends before it deletes |
| `MultiPanelAccounting.RefreshKeeps` | app/http/endpoints/api/panel/panelupdate.go:354-407 | likewise for one round of the panel-update loop |
| `MultiPanelAccounting.ApplyKeeps` | app/http/endpoints/api/panel/panelupdate.go:348-408 | every handler keeps the accounting, and what was lost or abandoned live; so does a message deleted on Discord by somebody else, but for the latter |
| `MultiPanelAccounting.OrphansAreAccountedFor` | app/http/endpoints/api/panel/multipanelupdate.go:147-222 | after any run the live messages no row names are exactly the live ones among the sends whose row write failed and the failed deletes whose row has moved on |
| `MultiPanelAccounting.OrphanCount` | app/http/endpoints/api/panel/multipanelresend.go:57-97 | over every run in which nobody but the handlers deletes messages, their number is that of the lost sends plus that of the live messages whose delete failed and whose row has moved on |
| `MultiPanelAccounting.CallOvercountsIff` | app/http/endpoints/api/panel/multipanelupdate.go:151-222 | a call makes the count over all ignored deletes wrong if and only if it ignores the delete of a live message and a later lookup, send or row write of the same call fails |
| `MultiPanelAccounting.RunOvercountsIff` | app/http/endpoints/api/panel/multipanelresend.go:57-97 | so over a run that count is right at every point if and only if no call does that |
| `MultiPanelAccounting.IgnoredDeletesOvercount` | app/http/endpoints/api/panel/multipanelupdate.go:151-174 | a run in which that count is wrong |
| `MultiPanelAccounting.SuccessNamesLive` | app/http/endpoints/api/panel/multipanelresend.go:80-97 | whatever failed before, an update or re-send that reports success leaves its row naming a live message |
| `MultiPanelAccounting.PanelRefreshNamesLive` | app/http/endpoints/api/panel/paneldelete.go:92-123 | after a panel update or delete that reports success, a multi-panel names a live message if and only if it did before, or it is among the first five and, for a delete, its send succeeded |
| `MultiPanelAccounting.RefusedSendIsSwallowed` | app/http/endpoints/api/panel/paneldelete.go:105-112 | a run in which a panel delete reports success and a multi-panel names no live message |
| `MultiPanelReplies.UpdateSucceedsIff` | app/http/endpoints/api/panel/multipanelupdate.go:147-258 | which calls an update needs answered to succeed: for another channel the delete, or a client error from it, and the send; for the same one the edit, and the send only when the message is gone |
| `MultiPanelReplies.UpdateMovesRow` | app/http/endpoints/api/panel/multipanelupdate.go:160-222 | its row moves exactly when a message was sent for it and the row write succeeds |
| `MultiPanelReplies.DeletedMessageIsSentAfresh` | app/http/endpoints/api/panel/multipanelupdate.go:175-205 | after any run, an answered update of a multi-panel whose message is gone succeeds and leaves it naming a new live message |
| `MultiPanelReplies.CreateSucceedsIff` | app/http/endpoints/api/panel/multipanelcreate.go:134-164 | a creation needs every call answered |
| `MultiPanelReplies.ResendSucceedsIff` | app/http/endpoints/api/panel/multipanelresend.go:57-97 | a re-send goes on after any failed delete but a REST error that is no client error; every other call must be answered |
| `MultiPanelReplies.RemoveSucceedsIff` | app/http/endpoints/api/panel/multipaneldelete.go:47-72 | a deletion succeeds when the message is deleted, gone or protected and the row is deleted, and drops that row only |
| `MultiPanelReplies.ReplaceSucceedsIff` | app/http/endpoints/api/panel/paneldelete.go:92-122 | one round of the panel-delete loop swallows a send refused with a client error and no other failure |
| `MultiPanelReplies.RefreshSucceedsIff` | app/http/endpoints/api/panel/panelupdate.go:354-407 | one round of the panel-update loop sends only what is gone |
| `MultiPanelReplies.RefreshAllSucceedsIff` | app/http/endpoints/api/panel/paneldelete.go:85-123 | a panel delete or update succeeds if and only if the lookups before the loop and each of the first five rounds do |
| `MultiPanelLayout.ValidatePanels` | app/http/endpoints/api/panel/multipanelcreate.go:249-281 | accepts exactly 2 to 15 configurations that all name stored panels, and collects the panels found |
| `MultiPanelLayout.PanelsMatchConfigs` | app/http/endpoints/api/panel/multipanelcreate.go:265-279 | when stored ids are unique, panel i is the stored panel configuration i names |
| `MultiPanelLayout.Resolve` | app/http/endpoints/api/panel/multipanelcreate.go:122-132 | so each entry of the message shows the panel and the texts of one configuration, index by index |
| `MultiPanelLayout.RowsAgreeWithMessageIff` | app/http/endpoints/api/panel/multipanelcreate.go:166-187 | the stored target rows agree with the message if and only if configurations of one panel are equal |
| `MultiPanelLayout.RowsDisagree` | app/http/endpoints/api/panel/multipanelcreate.go:171-178 | one panel configured twice with different labels stores the first label twice |
| `MultiPanelLayout.ButtonRows` | app/http/endpoints/api/panel/multipanelmessagedata.go:128-145 | the rows concatenate to the buttons; each has 1 to 5, all but the last exactly 5; there are ceil(n/5), at most 3 for an accepted request |
| `FormInputs.ArePositionsCorrect` | app/http/endpoints/api/forms/updateinputs.go:210-231 | true if and only if the positions are 1 to n in some order |
| `FormInputs.DuplicateValues` | app/http/endpoints/api/forms/updateinputs.go:233-264 | collects exactly the non-empty values that occur more than once |
| `FormInputs.ValidateOptions` | app/http/endpoints/api/forms/updateinputs.go:266-294 | accepts exactly the option lists with a permitted count and no repeated non-empty value |
| `FormInputs.ValidateInputs` | app/http/endpoints/api/forms/updateinputs.go:84-183 | answers with the first failing check, in the handler's order |
| `FormInputs.FirstFailureIsFirst` | app/http/endpoints/api/forms/updateinputs.go:84-183 | a refusal names a check if and only if it fails and none before it does |
| `FormInputs.AcceptedIff` | app/http/endpoints/api/forms/updateinputs.go:84-183 | a request passes every check if and only if it leaves one to five inputs, deletes stored ones only, has one update per remaining input and only such, numbers the positions 1 to n, and every input has the options of its type |
| `FormInputs.OptionsOkIff` | app/http/endpoints/api/forms/updateinputs.go:266-294 | a string select has an option, a radio group 2 to 10, a checkbox group 1 to 10, and non-empty values differ |
| `FormInputs.PositionsOkIff` | app/http/endpoints/api/forms/updateinputs.go:210-231 | the positions are accepted if and only if they differ and lie between 1 and their number |
| `FormInputs.AcceptedCoversIffDistinct` | app/http/endpoints/api/forms/updateinputs.go:113-156 | the update ids of an accepted request are the existing ids minus the deleted ones if and only if they are distinct |
| `FormInputs.RepeatedUpdateIsAccepted` | app/http/endpoints/api/forms/updateinputs.go:145-156 | update ids 1 and 1 over rows 1 and 2 pass every check |
| `FormSaving.ClampLengths` | app/http/endpoints/api/forms/updateinputs.go:317-360 | the branches compute the clamped pair for every type: the maximum is the requested one when the choices allow it, else their number, which for string selects and checkbox groups is the number of options and for other selects 25; other types keep their lengths |
| `FormSaving.ClampedIsStable` | app/http/endpoints/api/forms/updateinputs.go:321-360 | a stored select input can be answered, clamping again changes nothing, and lengths survive if and only if they were within the caps |
| `FormSaving.FormStore.SaveInputs` | app/http/endpoints/api/forms/updateinputs.go:296-509 | the table is as after all deletes, updates and creates, or, when any call failed, unchanged |
| `FormTheorems.SavedRows` | app/http/endpoints/api/forms/updateinputs.go:296-509 | the table after an accepted save, row by row; other forms are untouched |
| `FormTheorems.SavedLengths` | app/http/endpoints/api/forms/updateinputs.go:316-372 | after an accepted save no stored string select or checkbox group asks for more choices than it has options, radio groups store no lengths, and text inputs store theirs unchanged |
| `FormPositions.StoredPositionsIff` | app/http/endpoints/api/forms/updateinputs.go:158-162 | after any accepted save the form has 1 to 5 rows, at positions 1 to n in some order if and only if the old positions of the rows left out of the update are the positions of the overridden updates |
| `FormPositions.StoredKept` | app/http/endpoints/api/forms/updateinputs.go:311-384 | every kept row stands where its last update puts it, or where it was, under its old custom id |
| `FormPositions.DistinctUpdatesSuffice` | app/http/endpoints/api/forms/updateinputs.go:137-162 | distinct update ids meet that condition |
| `FormTheorems.SavedFormIsNumbered` | app/http/endpoints/api/forms/updateinputs.go:158-162 | with distinct update ids the stored positions are 1 to n in some order, the rows are the updated and the created ones, and every kept input keeps its custom id |
| `FormTheorems.RepeatedUpdateSpoilsPositions` | app/http/endpoints/api/forms/updateinputs.go:311-384 | updating row 1 twice over rows 1 and 2 stores position 2 and the old position of row 2, so 1 and 2 only if that was 1 |
| `FormEditor.Editor.AddInput` | frontend/src/views/Forms.svelte:126-146 | appends a new input at the next position unless there are five |
| `FormEditor.Editor.DeleteInput` | frontend/src/views/Forms.svelte:148-173 | removes the input, moves every later one up, and records the id of a stored one |
| `FormEditor.Editor.ChangePosition` | frontend/src/views/Forms.svelte:175-198 | exchanges two neighbours in the list while positions stay in place |
| `FormEditorTheorems.RemovedIs` | frontend/src/views/Forms.svelte:148-159 | a deletion keeps the order of the other inputs and moves the later ones up by one |
| `FormEditorTheorems.SwappedIs` | frontend/src/views/Forms.svelte:173-194 | a move exchanges two neighbours while positions stay with their places |
| `FormEditorTheorems.BodyIs` | frontend/src/views/Forms.svelte:204-230 | what is sent of an input is what it shows |
| `FormEditorTheorems.EditKeepsConsistent` | frontend/src/views/Forms.svelte:126-198 | an in-range edit keeps `inputs[i].position == i + 1` and accounts for every stored input as kept or deleted, once |
| `FormEditorTheorems.EditsKeepConsistent` | frontend/src/views/Forms.svelte:126-198 | so does any sequence of in-range edits |
| `FormEditorTheorems.PayloadIsAccepted` | frontend/src/views/Forms.svelte:200-230 | the payload of a non-empty draft passes every structural check of the server; only its option lists can be refused |
| `FormEditorTheorems.EditedFormIsAccepted` | frontend/src/views/Forms.svelte:126-230 | from a loaded form through any edits to an accepted save |
| `FormEditorTheorems.SavedFormShowsDraft` | frontend/src/views/Forms.svelte:200-235 | after the save, the row that stores item i sits at position i + 1 with the item's title and type, under its old custom id if it had one |
| `FormEditorTheorems.SavedFormHasNoOtherRows` | app/http/endpoints/api/forms/updateinputs.go:296-509 | and the form has no row besides those of the draft's items |
| `FormRounds.LoadsReady` | frontend/src/views/Forms.svelte:250-263 | the rows of a numbered form, listed by position, load as a consistent draft |
| `FormRounds.LoadedIsInStep` | frontend/src/views/Forms.svelte:250-263 | so after loading a numbered form the editor accounts for exactly its rows |
| `FormRounds.EmptyFormIsReady` | frontend/src/views/Forms.svelte:99-106 | a new form without inputs is a starting point |
| `FormRounds.RoundIsAccepted` | frontend/src/views/Forms.svelte:200-248 | from a draft that accounts for the rows, any edits and the save are accepted and leave the form numbered |
| `FormRounds.RefusedAfterFailedReload` | frontend/src/views/Forms.svelte:235-245 | when inputs were created and the reload failed, the next save is refused for its number of updates, whatever is edited in between |
| `FormRounds.InStepAfterFailedReload` | frontend/src/views/Forms.svelte:235-245 | when none were created, a failed reload leaves the draft accounting for the rows |
| `FormRounds.SessionIsAcceptedIff` | frontend/src/views/Forms.svelte:126-263 | every save of any number is accepted if and only if no save but the last that created an input was followed by a failed reload |
| `FormRounds.SavedAgainIsRefused` | frontend/src/views/Forms.svelte:241-245 | an input added to an empty form, saved, not reloaded and saved again is refused |
| `ActiveGuilds.Premium.SetActiveGuilds` | app/http/endpoints/api/premium/activeguilds.go:21-169 | succeeds if and only if every check passes and no database call fails, up to and including the commit, and then leaves the reconciled database; otherwise changes nothing |
| `ActiveGuilds.CountCalls` | app/http/endpoints/api/premium/activeguilds.go:98-164 | the first loop deletes one link per stale link; the third makes one call per other link and three more per switched one |
| `ActiveGuilds.LoopCalls` | app/http/endpoints/api/premium/activeguilds.go:98-169 | so with two calls per deletion and per added guild, three lookups and the commit, the calls of a run are known from the database before it |
| `ActiveGuilds.DropAllIs` | app/http/endpoints/api/premium/activeguilds.go:98-111 | the first loop removes exactly the links and entitlements of guilds no longer selected |
| `ActiveGuilds.AddAllIs` | app/http/endpoints/api/premium/activeguilds.go:113-127 | the second adds one entitlement and one link for each newly selected guild, in order |
| `ActiveGuilds.SwitchAllIs` | app/http/endpoints/api/premium/activeguilds.go:129-164 | the third recreates exactly the entitlements on another SKU, keeping their expiry, without their links |
| `ActiveGuilds.StillThere` | app/http/endpoints/api/premium/activeguilds.go:139-142 | the entitlement-not-found case of the third loop is unreachable |
| `ActiveGuildsTheorems.TrackedMatchSelection` | app/http/endpoints/api/premium/activeguilds.go:98-164 | whatever is selected and linked, every selected guild has a tracked entitlement, and every tracked one is for a selected guild, of this user and on the current SKU |
| `ActiveGuildsTheorems.OneEntitlementPerGuild` | app/http/endpoints/api/premium/activeguilds.go:98-164 | with one link per guild and no unlinked guild selected twice, tracked entitlements correspond one to one to the selected guilds |
| `ActiveGuildsTheorems.OnePerGuildIff` | app/http/endpoints/api/premium/activeguilds.go:113-127 | two stand for one guild if and only if a guild without a link is selected twice or a selected guild had two links |
| `ActiveGuildsTheorems.SelectedTwice` | app/http/endpoints/api/premium/activeguilds.go:114-127 | guild 1 selected twice with nothing stored leaves two entitlements and two links |
| `ActiveGuildsTheorems.WithinTheLimit` | app/http/endpoints/api/premium/activeguilds.go:61-64 | when no selected guild had two links, the tracked entitlements are the added ones and one per linked selected guild, never more than were selected, so at most the permitted number; as many as selected guilds when no unlinked one is selected twice |
| `ActiveGuildsTheorems.LinksAfterRun` | app/http/endpoints/api/premium/activeguilds.go:98-162 | whatever is selected, no link dangles, the user's links are for the selection minus the guilds all of whose links were switched, other users' links are unchanged; one link per guild is kept if and only if no unlinked guild is selected twice |
| `ActiveGuildsTheorems.OthersUntouched` | app/http/endpoints/api/premium/activeguilds.go:98-164 | entitlements of other users are not touched |
| `ActiveGuildsTheorems.IdempotentIff` | app/http/endpoints/api/premium/activeguilds.go:98-164 | for every selection, running again with it changes nothing if and only if every selected guild that had links had one that was not switched |
| `ActiveGuildsTheorems.IdempotentIffNoSwitch` | app/http/endpoints/api/premium/activeguilds.go:129-164 | with one link per guild before, for every selection: if and only if the first run switched no SKU |
| `ActiveGuildsTheorems.SwitchedThenDoubled` | app/http/endpoints/api/premium/activeguilds.go:144-162 | one link on another SKU, selected twice in a row, ends with two entitlements |
| `ActiveGuildsHistory.LooseAfterRun` | app/http/endpoints/api/premium/activeguilds.go:144-162 | a guild has an entitlement without a link after a run if and only if it had one before or the run switched its SKU |
| `ActiveGuildsHistory.OnePerGuildAfterRunIff` | app/http/endpoints/api/premium/activeguilds.go:98-164 | a run keeps at most one live entitlement per guild, linked or not, if and only if it selects no unlinked guild twice and none that has an entitlement without a link |
| `ActiveGuildsHistory.LooseThroughout` | app/http/endpoints/api/premium/activeguilds.go:98-164 | over any number of runs no link dangles, and the guilds with an entitlement without a link are those of the start and the switched ones |
| `ActiveGuildsHistory.OnePerGuildThroughoutIff` | app/http/endpoints/api/premium/activeguilds.go:98-164 | from any database in which it holds, over any number of runs, it holds throughout if and only if no run selects an unlinked guild twice, or a guild that had an entitlement without a link at the start or was switched by an earlier run |
| `Placeholders.NoNewTokens` | app/http/endpoints/api/ticket/placeholders.go:17-29 | replacing a token by a value without a percent sign that is no part of t makes no new occurrence of t, and leaves none if t is that token |
| `Placeholders.OnlyOldTokens` | app/http/endpoints/api/ticket/placeholders.go:17-29 | after any list of such replacements no replaced token occurs, and every other one was there before |
| `Placeholders.NoResolvedTokenLeft` | app/http/endpoints/api/ticket/placeholders.go:15-29 | after the seven basic substitutions no resolved token occurs anywhere, for every message |
| `Placeholders.SubstitutingTwice` | app/http/endpoints/api/ticket/placeholders.go:15-29 | substituting again, at another time or for another ticket, changes nothing, provided a second ticket with a channel only follows a first one with one |
| `Placeholders.ReplaceBasic` | app/http/endpoints/api/ticket/placeholders.go:15-29 | the reassignments compute the seven substitutions in order and leave none of their tokens |
| `PlaceholderNames.ReplacePlaceholders` | app/http/endpoints/api/ticket/placeholders.go:15-47 | the whole function computes all substitutions in order, and leaves no resolved token that every inserted name blocks |
| `PlaceholderNames.NamesApply` | app/http/endpoints/api/ticket/placeholders.go:17-44 | no name placeholder is a resolved token, or starts one but for its last percent sign |
| `PlaceholderNames.NamesKeepTokensOut` | app/http/endpoints/api/ticket/placeholders.go:15-47 | however many names are inserted, none of which is empty, has a percent sign or is a part of the token: it occurs in no text |
| `PlaceholderTemplates.MessageIsFilled` | app/http/endpoints/api/ticket/placeholders.go:15-47 | in a message whose placeholders stand apart each one is replaced by what it stands for and the text between them stays, for names without a percent sign that are not made of token characters only |
| `PlaceholderTemplates.OnePlaceholderIsFilled` | app/http/endpoints/api/ticket/placeholders.go:15-47 | a single placeholder is replaced by what it stands for, for all names without a percent sign |
| `PlaceholderSeams.TokenSpans` | app/http/endpoints/api/ticket/placeholders.go:32-44 | a token found after a name was inserted was there before, or the text held its start before the first and its end after the last inserted name, each next to a percent sign |
| `PlaceholderParts.NameReturnsTokenIff` | app/http/endpoints/api/ticket/placeholders.go:15-47 | when one name without a percent sign is inserted, some message ends with a resolved token in it if and only if the name is a part of it between two texts that are not resolved tokens |
| `PlaceholderParts.PartReturnsIff` | app/http/endpoints/api/ticket/placeholders.go:15-47 | so for a non-empty name if and only if it is a part of the token other than nine listed ones |
| `PlaceholderParts.UsernameCompletesToken` | app/http/endpoints/api/ticket/placeholders.go:32-34 | for every ticket and time the whole function turns "%%username%%" and the name "user" into the token for the user |
| `PlaceholderPairs.TwoNamesReturnToken` | app/http/endpoints/api/ticket/placeholders.go:32-44 | two inserted names that make up a resolved token bring it back in the message of their two placeholders between percent signs |
| `PlaceholderPairs.DateAndTimeCompleteToken` | app/http/endpoints/api/ticket/placeholders.go:27-40 | the user name "date" and the nickname "time" rebuild the token for date and time |
| `PlaceholderPairs.NeitherAlone` | app/http/endpoints/api/ticket/placeholders.go:27-40 | neither of the two does it alone, in any message |
| `Strings.ReplaceAllIsJoin` | app/http/endpoints/api/ticket/placeholders.go:17-29 | replacing keeps the text between the occurrences and exchanges the separators |
| `Strings.PiecesRebuild` | app/http/endpoints/api/ticket/placeholders.go:17-29 | the pieces joined with the token are the text again, for every text |
| `NamingScheme.FindAllIsLeftmost` | app/http/endpoints/api/panel/validation.go:301-322 | nothing is found exactly when the expression matches nowhere; otherwise the leftmost match, then what follows its end |
| `NamingScheme.FindAllIsWalk` | app/http/endpoints/api/panel/validation.go:300-322 | the matches are the segments a walk over the text cut at `%` takes |
| `NamingScheme.LanguagesAreDisjoint` | app/http/endpoints/api/panel/validation.go:303-307 | no text belongs to two of the four placeholder languages |
| `NamingScheme.AllowedIff` | app/http/endpoints/api/panel/validation.go:303-353 | the allowed placeholders are exactly eight names, date formats, date offsets in days, weeks or months, and date timestamps, spelled out as texts |
| `NamingScheme.OrderIsIrrelevant` | app/http/endpoints/api/panel/validation.go:329-353 | checking them in any order accepts the same placeholders |
| `NamingScheme.ValidateNamingScheme` | app/http/endpoints/api/panel/validation.go:310-358 | accepts exactly schemes of at most 100 characters all of whose placeholders are allowed |
| `JsonNumbers.Slice.MarshalJSON` | utils/types/int64stringslice.go:12-19 | prints the list as an array of quoted decimals |
| `JsonNumbers.Slice.UnmarshalJSON` | utils/types/int64stringslice.go:21-43 | reads an array of strings, else of integers; an unreadable number leaves the numbers before it, then zeros |
| `JsonNumbers.MarshalRoundTrip` | utils/types/uint64stringslice.go:12-43 | for both element types, reading what was printed gives every list back |
| `JsonNumbers.BareRoundTrip` | utils/types/uint64stringslice.go:25-33 | reading the same numbers without quotes gives the list back by way of the fallback |
| `JsonNumbers.ArrayIsTaken` | utils/types/uint64stringslice.go:12-24 | an array of quoted texts or integer literals reads back as its items |
| `JsonGrammar.ArrayIff` | utils/types/uint64stringslice.go:21-33 | a text is read as a list of items if and only if the array grammar makes it stand for them, white space included and nothing after it |
| `JsonGrammar.ReadsIff` | utils/types/uint64stringslice.go:21-43 | reading an array succeeds if and only if its items are all quoted or all bare and each is a number in range, and then leaves these numbers |
| `JsonGrammar.OthersAreRefused` | utils/types/int64stringslice.go:21-33 | any other text is refused and leaves the slice as it was |
| `Colours.Colour.UnmarshalJSON` | utils/types/colour.go:19-44 | reads a bare decimal or a quoted hex text, and changes nothing on an error |
| `Colours.HexColour.UnmarshalJSON` | utils/hexcode.go:19-35 | reads a quoted hex text within range, and changes nothing on an error |
| `Colours.ColourRoundTrip` | utils/types/colour.go:15-44 | every colour up to 0xFFFFFF survives print and parse; every larger one is rejected |
| `Colours.HexColourRoundTrip` | utils/hexcode.go:15-35 | likewise for the other type, which also rejects what it prints for a negative number |
| `Colours.PrintedShape` | utils/types/colour.go:15-17 | a colour up to white is printed as a number sign and six lower-case hex digits between quotes |
| `Colours.HexTextIsRead` | utils/types/colour.go:25-42 | between quotes, with or without the number sign, any hex text is read for its value up to white |
| `Colours.OutOfRangeIff` | utils/types/colour.go:20-42 | a colour above 0xFFFFFF is read if and only if it was written as a bare decimal |
| `Colours.DecimalSkipsTheCheck` | utils/types/colour.go:20-23 | such a colour is accepted and cannot be read back once printed |
| `ThreadMode.ValidateTicketNotificationChannel` | app/http/endpoints/api/panel/validation.go:461-503 | accepts exactly when a given channel is a text channel and thread mode has a channel, its own or the guild's |
| `ThreadMode.NotificationChannelOkIff` | app/http/endpoints/api/panel/validation.go:461-503 | with channels told apart by their ids: the panel's channel is a listed text channel, or it has none and needs none or the guild has one |
| `ThreadMode.SettingsOkIff` | app/http/endpoints/api/settings/updatesettings.go:130-215 | the accepted settings; periods count against sixty days only for a premium guild with auto-close enabled |
| `ThreadMode.StoredPeriods` | app/http/endpoints/api/settings/updatesettings.go:193-211 | a period is stored as it is if auto-close is enabled, the guild is premium and the period positive, and not at all otherwise |
| `ThreadMode.PanelIsStored` | app/http/endpoints/api/panel/panelcreate.go:149-163 | an accepted panel is stored with its channel in thread mode only, and nothing else changes |
| `ThreadMode.SettingsForm.Validate` | app/http/endpoints/api/settings/updatesettings.go:130-300 | accepts exactly the stated conditions and rewrites the form to what is stored; the second dependency check is unreachable |
| `ThreadMode.SettingsForm.ClampAutoClose` | app/http/endpoints/api/settings/updatesettings.go:193-211 | the four conditional rewrites compute the clamped periods |
| `ThreadMode.AutoCloseRoundTrip` | app/http/endpoints/api/settings/updatesettings.go:423-438 | a clamped form is shown again as it was saved, clamping twice is clamping once, and disabled or free-tier forms never exceed the limit |
| `ThreadMode.StepKeepsInv` | app/http/endpoints/api/panel/panelcreate.go:160-162 | creating, updating, deleting a panel and updating the settings keep the invariant |
| `ThreadMode.EveryPanelHasItsChannel` | app/http/endpoints/api/panel/panelupdate.go:111-113 | in every reachable state each panel in thread mode has a channel, its own or the guild's, and no other panel stores one |
| `ThreadMode.DisablingIsSafeIff` | app/http/endpoints/api/settings/updatesettings.go:140-154 | turning the guild's thread mode off is accepted if and only if it leaves no panel without a channel |
| `ThreadMode.Handlers.UpdateSettingsHandler` | app/http/endpoints/api/settings/updatesettings.go:55-87 | the handler makes the machine's settings step |
| `ThreadMode.Handlers.StorePanel` | app/http/endpoints/api/panel/panelcreate.go:149-163 | the handler makes the machine's create step |
| `ThreadMode.Handlers.UpdatePanelRow` | app/http/endpoints/api/panel/panelupdate.go:62-113 | the handler makes the machine's update step |
| `Visibility.AnswerIsCanView` | utils/permissionutils.go:53-184 | whatever calls fail, an answer is the order-free condition: opened it, full access, default team, or a team of the panel |
| `Visibility.AnswersWhenUp` | utils/permissionutils.go:53-100 | with every call answered, only a user outside the server is turned away without an answer |
| `Visibility.OpenerAlwaysSees` | utils/permissionutils.go:53-58 | whoever opened the ticket sees it, whatever calls fail |
| `Visibility.ClassificationIsPanelTeamOnly` | utils/permissionutils.go:188-311 | likewise for the panel-team-only classification |
| `Visibility.GetAccessiblePanelIds` | utils/permissionutils.go:316-364 | the loops yield exactly the panels that use a team of the user, direct or through a role |
| `Visibility.AccessibleIff` | utils/permissionutils.go:327-361 | a panel is in that list if and only if the user belongs to one of its teams |
| `Visibility.FilterAgrees` | utils/permissionutils.go:313-364 | for a user the classification calls panel-team-only, whatever calls fail, an answer of the decision is yes exactly when the user opened the ticket or its panel is in that list |
| `Visibility.ViewIsMonotone` | utils/permissionutils.go:53-184 | adding roles or memberships never turns a yes of the decision into a no, whatever calls fail |
| `Members.StepKeepsInv` | app/http/endpoints/api/team/getmembers.go:120-160 | every step of a fetcher or the collector keeps the counter and the received users in step |
| `Members.CollectorOutlivesSenders` | app/http/endpoints/api/team/getmembers.go:145-160 | the collector never stops while a goroutine has yet to send |
| `Members.NeverStuckIff` | app/http/endpoints/api/team/getmembers.go:123-162 | no run is stuck before its end if and only if there is a user, or an unused wait group is ready |
| `Members.StuckWithoutUsers` | app/http/endpoints/api/team/getmembers.go:145-162 | with no user and an idle wait group the collector waits for ever |
| `Members.RunsAreShort` | app/http/endpoints/api/team/getmembers.go:127-160 | every run ends: at most three steps for each user and one for the collector |
| `Members.LessIsByKey` | app/http/endpoints/api/team/getmembers.go:167-173 | the comparison orders roles before users, then by id |
| `Members.SameListing` | app/http/endpoints/api/team/getmembers.go:105-176 | every interleaving ends in the same sorted list: each role once, then each user that could be fetched once, ids ascending |
| `Members.ListingIs` | app/http/endpoints/api/team/getmembers.go:105-176 | that list has roles before users and ids ascending, and every role and fetched user as often as given |
| `Sorting.SortedIsUnique` | app/http/endpoints/api/team/getmembers.go:166-173 | sorting has one answer when different elements have different keys |
| `BlankFields.RemoveBlankEmbedFields` | frontend/src/js/util.js:67-91 | the two loops leave exactly the pruned fields, in order, at every depth |
| `BlankFields.SetBlankStringsToNull` | frontend/src/js/util.js:56-65 | empty strings and the text "null" become null, at every depth |
| `BlankFields.PruningKeepsLeaves` | frontend/src/js/util.js:67-91 | pruning keeps exactly the non-blank leaves, at their paths |
| `BlankFields.PrunedIsClean` | frontend/src/js/util.js:67-91 | no blank value and no empty container is left below the root |
| `BlankFields.UnchangedIffClean` | frontend/src/js/util.js:67-91 | a tree is unchanged if and only if it is clean, so a second pass changes nothing |
| `BlankFields.NullingKeepsLeaves` | frontend/src/js/util.js:56-65 | nulling turns the empty text and the text "null" into null and keeps every other leaf |
| `BlankFields.NullingKeepsKeys` | frontend/src/js/util.js:56-65 | and keeps the keys in their order |
| `BlankFields.SubmittedLeaves` | frontend/src/js/util.js:56-91 | both helpers together keep exactly the leaves that are neither blank nor the text "null" |
| `Secrets.AcceptableCovers` | app/http/endpoints/api/integrations/activateintegration.go:78-108 | equal lengths and every supplied name found leave no stored name without a value, and stored names are distinct |
| `Secrets.MatchSecrets` | app/http/endpoints/api/integrations/editsecrets.go:47-75 | for every iteration order the loop accepts exactly those requests and gives each stored id the value supplied for its name |
| `Secrets.AssignedIsUnique` | app/http/endpoints/api/integrations/activateintegration.go:84-108 | so the resulting map does not depend on the order |

## Left out

- Live-chat progress and the draining by `Flush`: the source notes a race, and `Run` can block for ever.
- Websocket read limits, ping timing and the content of error events: they only end a loop or add an event
  that is not a broadcast.
- Redis persistence and clock steps backwards: traces are ordered in time; a key is gone from the tick of
  its expiry on.
- Discord and database calls have no effect when they fail, "not found" about a message is truthful, and
  the list of multi-panels of a panel names each once; writes of the target rows only decide the reply.
- MultiPanels.Backend.RefreshMultiPanels: the panel's own row and message are not part of this model.
- Interleavings of HTTP handlers for panels, settings, forms and subscriptions: their checks are not in
  one transaction with their writes, so each handler is one step.
- FormSaving.FormStore.SaveInputs: the rows of select options are not modelled; nor are description,
  placeholder, style and the required flag, which are copied.
- FormEditor.Editor.ChangePosition: called at the ends of the list the client would fail; the buttons
  there are disabled, so the model requires a neighbour.
- FormEditor.Input: form inputs are objects with their own positions; the surrounding list of forms and
  reactivity are not modelled.
- Field-tag validation of request bodies, audit logging, HTTP statuses and premium lookups beyond their answer.
- PlaceholderParts.NameReturnsTokenIff: does not cover names that have a percent sign, nor several names at once; the
  replacement of placeholders in embed fields and of the avatar URL is not modelled.
- PlaceholderTemplates.MessageIsFilled: the text between two placeholders must not be the name of a third, and names
  made of lower-case letters and underscores only are the subject of `PlaceholderTemplates.OnePlaceholderIsFilled`.
- JsonNumbers.Slice.UnmarshalJSON: JSON strings with escapes are not read; fractions and exponents are
  rejected as the integer decoder does. Both slice types are one class with a width.
- NamingScheme.FindAll: the regular-expression engine is replaced by its leftmost non-overlapping scan,
  and a scheme is a sequence of characters, not of bytes.
- The tables behind `ActiveGuildsTheorems.SelectedTwice` and `FormTheorems.RepeatedUpdateSpoilsPositions` are defined in
  another repository: the link table is taken to have no unique constraint on user and guild, the form-input table none
  on form and position. With one, the second insert or update would fail and roll the transaction back.
- ActiveGuildsTheorems.WithinTheLimit: counts the entitlements one run tracks; those without a link, left by earlier
  runs, are the subject of `ActiveGuildsHistory`.
- FormRounds.LoadsReady: the server lists a form's inputs by position, which is assumed because the query is defined
  in another repository; what the editor shows of an input besides its row is arbitrary.
- Members.SameListing: lookups that answer with one id answer with one user. The wait group belongs to
  another repository; its channel is taken to be ready once the last goroutine is done.
- `sort.Slice` is a sorted permutation, computed by insertion; its own algorithm is not modelled.
- Visibility.HasPermissionToViewTicket: the database queries have their relational meaning, which is
  assumed because they are defined in another repository. `permission.GetPermissionLevel` and the listing
  query itself are not part of this model.
- Visibility.IsPanelTeamMemberOnly: a missing member and a failed lookup are the same error.
- ThreadMode.SettingsForm.Validate: checks on language, colours, the context-menu panel, the archive
  duration and the overflow category are one parameter.
- BlankFields.RemoveBlankEmbedFields: works on values, so the sharing of objects between trees is not
  captured; numbers and booleans are one kind of leaf.
- Secrets.MatchSecrets: the copy of the supplied values handed to the validation request, and that
  request, are not modelled.
- Role mentions in panel creation, the dropdown label check, support hours, dates, embeds, tags and simple
  caps: single-branch or bound to libraries.
