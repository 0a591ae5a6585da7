# NovaConnect: a verified model of its core state machines

This project models the parts of NovaConnect whose correctness depends on many steps working together, and proves in
Dafny what they promise. `dafny verify dfyconfig.toml` checks everything.

What is modelled, in the system's own terms:

- **Destroying messages safely** (`Tables`, `LegalHold`, `EditHistory`, `MessageDelete`, `FileVersions`, `Retention`,
  `RetentionLaws`, `StoreRuns`, `HeldRuns`, `DeletedRuns`). The tables are maps with the schema's cascades
  (`migrations/1737800000000_initial_schema.js`, `migrations/1793000000000_file-versions.js`). Retention's two batch
  loops are methods over that database, shown to do what one purge of whole reply trees does; stored files shared by
  forwards, versions and recordings go with their last use and not before. `StoreRuns` puts every writer of messages
  into one run: posting, editing, rewriting a call's or card's post, taking back a failed upload, forwarding, versions,
  deletion, retention, holds, channel and team deletion. `HeldRuns` says exactly which of them cost a held message its
  row or a wording, `DeletedRuns` that a deleted message has no text again until it is edited or rewritten.
- **Calls and meetings** (`Rooms`, `GroupCalls`, `CallLaws`, `CallOutcomes`, `MeetSignaling`, `MeetingLaws`,
  `BreakoutLaws`, `MeetingSteps`, `MeetServer`). Each socket event, timer and disconnect is one step on the shared room
  map. The handlers are class methods, each proved to be its step; `CallLaws` and `MeetingSteps` say what each does in
  terms of who is where, the other laws are about every run of calls and meetings together. `CallOutcomes` adds crashes,
  the records in Redis and the recovery at startup.
- **Presence** (`PresenceGrace`, `PresenceSweep`). The grace module as timers, a queue of work per person and writes in
  flight; the status sweep as a loop over rows.
- **Search** (`Calendar`, `TimeText`, `SearchDates`, `SearchTokens`, `SearchQuery`, `SearchFilter`, `SearchAgreement`,
  `Search`). The query language down to the calendar arithmetic of JavaScript's Date, both search engines' filters, results and rebuilding.
- **Others**: the iOS client's history refresh (`ChatReliability`), the audit log's CSV (`Csv`), calendar conflicts
  (`MeetingConflicts`).

Where the code does not do what it is for, the model keeps the code, and a lemma gives the exact condition:

- A deletion that read another wording than the row's, or an edit between a deletion's two halves, destroys a held wording
  without a copy; so does deleting a deleted message that was edited (`MessageDelete.HeldHistoryKeptIff`,
  `MessageDelete.LateEditLostIff`, `MessageDelete.HeldWordingsLost`). So do rewriting a call's or card's own post in place,
  and taking a message back when its upload failed (`HeldRuns.HeldWordingSurvivesIff`).
- A reply's place is not checked against its post's, so deleting an unheld channel or team takes held replies posted
  elsewhere along, and only these (`LegalHold.DeletionsSpareHeldIff`, `LegalHold.HeldReplyElsewhereIsDestroyed`).
- Nothing stops a request from naming the id its own message is about to get as the one it answers. Such a message answers
  itself, and retention then neither deletes nor blanks it (`RetentionLaws.PurgesAllIff`, `RetentionLaws.OneThatAnswersItself`).
- `gcall:start` and `gcall:join` wait between their check and their change; `GroupCalls.LateStartKeepsOnePlaceIff` and
  `GroupCalls.LateJoinKeepsOneCallIff` say when the late half is harmless, `GroupCalls.OverlappingJoins` when it is not;
  `GroupCalls.LateJoinAfterDisconnect` when it puts a dropped connection into the call.
- Startup recovery looks only at running calls, so a call this process is just ending is reported twice, with no crash
  (`CallOutcomes.OutcomeLaw`, `CallOutcomes.RaceHappens`). Nor does it know why a call ended: a 1:1 call declined or not
  answered just before a crash is reported as cancelled (`CallOutcomes.SaysWhyIff`, `CallOutcomes.RecoveryForgetsWhy`).
- `has_more` is also true when exactly one full page was left, and the client is then told of more that is not there
  (`ChatReliability.ServerPageExactIff`, `ChatReliability.Refresh`).
- `on:9999-12-31` in a time zone not ahead of UTC, with no earlier end, ends in the year 10000, whose text starts with a
  sign: the database then finds nothing although the index does (`SearchAgreement.EnginesAgreeIff`).
- The number of breakout rooms is not made whole, so a plan can name rooms that are not there
  (`BreakoutLaws.PlansFitIff`, `BreakoutLaws.EveryPlanFitsIffWhole`, `BreakoutLaws.TwoAndAHalfRooms`).

## Model

| member | source | states |
|---|---|---|
| LegalHold.HeldIffHoldsFor | src/legalHold.js:21-40 | the condition retention skips by holds exactly when the query for a message's holds answers any, and that query answers exactly the active holds covering it |
| LegalHold.HeldIff | src/legalHold.js:21-27 | a message is held exactly while its channel, its chat, its author or a person taking part in its chat is on an active hold |
| LegalHold.QueryHoldsFor | src/legalHold.js:30-40 | the loop answers the active holds covering the message, in id order |
| LegalHold.PreserveMessage | src/legalHold.js:43-54 | one copy is added, of the row as the caller read it and of the edits and files as they are; nothing else changes |
| LegalHold.ChannelDeleteBlock | src/legalHold.js:57-60 | no reason exactly when no message posted in the channel is held |
| LegalHold.TeamDeleteBlock | src/legalHold.js:61-64 | no reason exactly when no message posted in any of the team's channels is held |
| LegalHold.DeletionTakes | src/routes/teams.js:272-313 | deleting a channel or a team with nothing on hold takes its channels' messages and every reply under one and leaves every other message as it was; with something on hold nothing changes |
| LegalHold.DropSparesHeldIff | src/routes/teams.js:272-313 | dropping unblocked channels spares every held message exactly when no held reply, posted outside them, lies under one of their messages |
| LegalHold.DeletionsSpareHeldIff | src/routes/teams.js:272-313 | a channel's or a team's deletion spares every held message exactly when it is blocked or there is no such reply |
| LegalHold.DeletionsSpareHeld | src/routes/teams.js:272-313 | in particular with every reply in its post's place no deletion destroys a held message |
| LegalHold.HeldReplyElsewhereIsDestroyed | src/routes/messages.js:128-138 | rows in which deleting an unblocked channel, and an unblocked team, destroys a held reply, with no copy kept |
| EditHistory.EditKeepsHistory | src/routes/messages.js:225-257 | an edit only adds the new wording to the history of the row as it is by then; saving the wording the request read adds nothing |
| EditHistory.EditMarksTheRow | src/routes/messages.js:225-257 | the row gets the new wording, the mark and the time, the replaced one is dated, and nothing else of the row or of any other message changes |
| EditHistory.EditShowsOnTop | src/editHistory.js:7-20 | what "(edited)" opens after an edit is what it opened before under the new wording |
| EditHistory.NeverEdited | src/editHistory.js:7-20 | a message never edited is one line, its original, written when it was posted unless that is not known |
| EditHistory.EditPutsOneLineOnTop | src/editHistory.js:7-20 | an edit puts its wording and time on top of the version list and changes below only the current mark |
| EditHistory.ViewsShowHistory | src/editHistory.js:7-20 | the version list is the whole history, newest first, with exactly its first line current |
| MessageDelete.DeleteForEveryone | src/messageDelete.js:11-26 | copy, blanked row and dropped edits in this order, for the row as read (what that leaves: the two rows below); answers the holds a copy was kept for |
| MessageDelete.DeletionLeavesNoText | src/messageDelete.js:14-19 | after a deletion the message's only wording is an empty one, with the recall's or the read row's metadata, no edit and no search entry is left, and no other message and no file is touched |
| MessageDelete.DeletionKeepsOneCopy | src/legalHold.js:43-54 | one copy is kept exactly for a held message not deleted before: what was read, every earlier wording, each file's key, and exactly the holds covering it |
| DeletedRuns.DeletedHasNoText | src/messageDelete.js:14-19 | over every run, as long as its row is there and nothing edits or rewrites it, a deleted message has no text, no earlier wording and no search entry |
| MessageDelete.HeldHistoryKeptIff | src/messageDelete.js:11-26 | with nothing between its halves, deleting a held message leaves its whole history in a kept copy exactly when one had it before, or the row as read was not marked deleted and still had the current wording |
| MessageDelete.LateEditLostIff | src/messageDelete.js:13-19 | an edit between the copy and the emptying of the row is lost exactly when it is one, unless a copy held its history before |
| MessageDelete.HeldWordingsLost | src/messageDelete.js:11-26 | the two ways a held wording is lost: a row read before an edit, and a deleted message edited and deleted again |
| FileVersions.Replace | src/fileVersions.js:20-41 | the current version is kept under its number and the next becomes current, or nothing changes when the file is gone or has fifty versions |
| FileVersions.ReplaceKeepsNumbering | src/fileVersions.js:20-41 | kept versions stay numbered 1 to version_no - 1 with at most fifty in all, and a change is refused exactly at fifty |
| FileVersions.KeptCount | src/fileVersions.js:24-25 | the count the limit is checked by is one less than the current version's number |
| FileVersions.ReplacePutsOneLineOnTop | src/fileVersions.js:53-63 | the version list becomes one new line followed by the old list with its current mark cleared |
| FileVersions.ChangesKeepEveryVersion | src/fileVersions.js:18-63 | over any uploads and restores, each by anyone at any time, the list only grows on top: no version's file, uploader, time or note changes |
| FileVersions.RestoreTakesThatVersion | src/routes/messages.js:484-495 | restoring makes the kept version of that number, and no other, current again under the next number, noted as restored; a number not kept or a fiftieth version reached changes nothing |
| FileVersions.UploadTakesTheFile | src/fileVersions.js:43-47 | an upload becomes the next version with the stored file's columns, or changes nothing at fifty |
| FileVersions.RestoreBringsBack | src/routes/messages.js:484-495 | after any later changes, restoring a version's number makes the file it had the current one |
| FileVersions.FirstVersionIsTheSharers | src/fileVersions.js:53-63 | the first version is listed as put up by whoever shared the file, when they did |
| Retention.FilesOf | src/retention.js:68-78 | the rows found name exactly the stored objects the messages' attachments and all their versions use |
| Retention.UsedIffReferenced | src/retention.js:87-101 | the queries for a key find a row exactly when some attachment, version or recording uses that object |
| Retention.RemoveStoredFiles | src/retention.js:81-103 | of the files given, exactly the objects nothing uses any more are deleted, each tried once, unless the storage refuses |
| Retention.LeavesAreDoomed | src/retention.js:109-122 | a batch of rows that may go and have no replies left is part of the reply trees that go as a whole |
| Retention.DoomedLeafLeft | src/retention.js:109-122 | while a message that goes (its whole tree may, and it does not answer itself) is not gone, some such row can go next, so the loop does not stop before |
| Retention.ReferencesSplit | src/retention.js:68-103 | every use of an object is by the rows being removed or by the rest |
| Retention.BatchCompose | src/retention.js:105-143 | removing rows and unused objects batch by batch ends where removing them at once does, wherever an object's uses fall |
| Retention.DeletedAll | src/retention.js:109-122 | when the query finds nothing more, gone are exactly the messages whose whole reply tree may go and that do not answer themselves |
| Retention.PurgeScope | src/retention.js:105-143 | terminates, and whatever the batches leaves exactly: messages whose whole tree may go gone but for those that answer themselves, remaining posts that may go blanked, unused objects removed, counts right |
| RetentionLaws.YoungAndElsewhereUntouched | src/retention.js:62-65 | a message made at the cutoff or later, or in no place of the scope, keeps its row, edits, attachments, versions, search entry and every object they use |
| RetentionLaws.PendingCardUntouched | src/retention.js:63-65 | so does one whose card still waits for an answer |
| RetentionLaws.UnansweredGoes | src/retention.js:109-122 | any other message, older than the cutoff, in the scope, on no hold and answered by none, is gone after a run, with its edits, files and search entry |
| RetentionLaws.ThreadGoes | src/retention.js:109-122 | and so is each message of a set closed under replies all of which are so and none of which answers itself |
| RetentionLaws.AnsweredIsEmptied | src/retention.js:124-141 | such a post with an answer that stays is kept with its text, metadata, edits, files and search entry gone and its place, author and time as they were |
| RetentionLaws.AnsweredReplyUntouched | src/retention.js:124-128 | such a reply, or a post emptied before, with an answer that stays is left as it is |
| RetentionLaws.PurgeValid | src/retention.js:105-143 | what a run leaves satisfies the schema's keys and the version numbering |
| RetentionLaws.GoneClosed | src/retention.js:109-122 | every reply to a message that goes goes with it |
| RetentionLaws.PurgesAllIff | src/retention.js:109-128 | a run deletes every message that may go with its whole reply tree exactly when none of these answers itself, and leaves of them exactly those that do |
| RetentionLaws.OwnParentStays | src/retention.js:112-128 | a message that answers itself is neither deleted nor blanked by any run |
| RetentionLaws.OneThatAnswersItself | src/routes/messages.js:128-138 | rows with such a message, long past the limit and held by nobody, that every run leaves as they are |
| RetentionLaws.SecondRunChangesNothing | src/retention.js:105-143 | a second run at the same cutoff changes no row and no search entry, and deletes nothing |
| RetentionLaws.HeldUntouched | src/retention.js:64-65 | no run touches a held message's row, edits, attachments, versions, search entry or any object they use |
| RetentionLaws.ClearedForAReply | src/retention.js:124-141 | a post is blanked rather than deleted only for a reply under it that stays |
| RetentionLaws.PreviewBoundsRun | src/retention.js:184-187 | deleted plus cleared is never more than the preview counted |
| RetentionLaws.PreviewCounts | src/retention.js:184-187 | the preview counts exactly the messages past the limit |
| RetentionLaws.StorageFollowsUse | src/retention.js:81-103 | a stored object is kept while anything uses it and gone once the run removed its last use |
| StoreRuns.RunSound | src/retention.js:81-103 | over every run of posts, forwards, edits, rewrites, taken back uploads, versions, thumbnails, deletions whole or in halves, retention, dropped channels and holds, every object still used is stored |
| StoreRuns.ReplaceUses | src/fileVersions.js:20-41 | putting up a version drops no use of any object and adds only the new version's |
| HeldRuns.HeldWordingSurvivesIff | src/messageDelete.js:11-26 | while a hold stands, the wordings a message has while it is up are on record at every moment of a run exactly when no step rewrites the newest over, takes the row back, drops it with a channel it was not posted in, deletes it having read another wording, or empties it with no copy of them; no other step does harm |
| HeldRuns.HarmedIsLost | src/callPosts.js:33-35 | each of these steps does lose the wordings, when no copy held them |
| HeldRuns.RowStaysIff | src/legalHold.js:21-27 | a held message keeps its row under the hold exactly through the requests that do not take it back or drop it along |
| HeldRuns.HeldRowSurvives | src/retention.js:105-143 | over every run in which nothing takes it along a held message keeps its row |
| HeldRuns.HeldRowStaysInPlace | src/routes/teams.js:272-313 | with every reply in its post's place no dropped channel or team costs a held message its row |
| GroupCalls.EveryRunValid | src/group-calls.js:112-271 | over every run: one call per place and per person, each call alive (ringing or somebody in it; 1:1 calls answered with two people or ringing with at most one), room entries of calls name members |
| CallLaws.StartLaw | src/group-calls.js:163-213 | a start begins a ringing call with nobody in it exactly where none runs, for someone in no call, and to one person only if online and in no call; else nothing changes |
| CallLaws.JoinLaw | src/group-calls.js:216-239 | a join puts the connection in exactly when the call runs and neither it nor its person is elsewhere; a call is answered, and a 1:1 call stops ringing, once a second person is in; every other call is as it was |
| CallLaws.DeclineLaw | src/group-calls.js:243-249 | a decline ends a 1:1 call in which at most one person is, unless its caller declines; else nothing changes |
| CallLaws.LeaveLaw | src/group-calls.js:251-259 | leaving takes the connection out; the call is over and its place free exactly when it was the last, or the last of one of the two in an answered 1:1 call, and otherwise goes on with the others; every other call is as it was |
| CallLaws.LeaveLeavesNothing | src/group-calls.js:137-149 | after leaving no call has the connection and its room entry names no call |
| CallLaws.HangingUpEndsTheCall | src/group-calls.js:145-147 | an answered 1:1 call left with one person is over for both: its place is free and nobody is in its room |
| CallLaws.RingTimeoutLaw | src/group-calls.js:206-210 | the timer ends a ringing call nobody joined and a 1:1 call with one person, as not answered; any other only stops ringing |
| CallLaws.DisconnectLaw | src/group-calls.js:268-270 | a connection that drops leaves the call it is in as one that hangs up, and none if it is in none |
| GroupCalls.DirectCallHasBoth | src/group-calls.js:137-149 | a connected 1:1 call joined only by the chat's two people has exactly these two in it, an unconnected one still rings |
| GroupCalls.DisconnectLeavesNothing | src/group-calls.js:268-270 | after a disconnect no call has the connection, and its room entry names no call |
| GroupCalls.LateJoinKeepsOneCallIff | src/group-calls.js:225-233 | the half of a join after its wait keeps one call per person exactly when the person entered no other call meanwhile |
| GroupCalls.LateJoinAfterDisconnect | src/group-calls.js:225-233 | when the connection dropped during the wait of a join, the late half leaves it in the call exactly when the call still runs |
| GroupCalls.OverlappingJoins | src/group-calls.js:216-233 | two overlapping joins of one person, each allowed when it began, put them in two calls |
| GroupCalls.LateStartKeepsOnePlaceIff | src/group-calls.js:167-187 | the half of a start after its wait keeps one call per place exactly when none was started there meanwhile |
| GroupCalls.CallServer.InGroupCall | src/group-calls.js:57-63 | true exactly when a connection of the user is in a call other than the one excepted |
| GroupCalls.CallServer.EndCall | src/group-calls.js:112-128 | the call and its place are free, each member still in its room is taken out, and its outcome is left to post; an ended call changes nothing |
| GroupCalls.CallServer.LeaveOne | src/group-calls.js:137-149 | one connection out; the call ends with its last one, and a connected 1:1 call with one person left |
| GroupCalls.CallServer.OnStart | src/group-calls.js:163-213 | a call is begun exactly when none runs there, nobody needed is in one and the other person of a 1:1 chat is online |
| GroupCalls.CallServer.OnJoin | src/group-calls.js:216-239 | the join as a step, with when a call counts as connected and its record is renewed |
| GroupCalls.CallServer.OnDecline | src/group-calls.js:243-249 | a decline ends a 1:1 call exactly before it connected and not by its caller |
| GroupCalls.CallServer.OnLeave | src/group-calls.js:251-259 | the only one in an unanswered 1:1 call cancels it, anyone else just leaves |
| GroupCalls.CallServer.OnRingTimeout | src/group-calls.js:206-210 | the timer ends an empty call and an unanswered 1:1 call and leaves others running |
| GroupCalls.CallServer.OnDisconnect | src/group-calls.js:268-270 | going through all calls is leaving the one the connection is in |
| CallOutcomes.StepEvolves | src/group-calls.js:104-128 | no handler changes what a running call's outcome will say, but for two people meeting in it; a call ends with the record it had |
| CallOutcomes.AtMostOneOutcome | src/group-calls.js:112-128 | at every moment a second outcome is there only after a crash between the post and the dropping of its record, or once recovery took the record of a call just being ended |
| CallOutcomes.AtLeastOneOutcome | src/group-calls.js:277-290 | with crashes at any step, a call begun that is to have an outcome and is settled has one, unless a post failed, whatever other calls do |
| CallOutcomes.OutcomeLaw | src/group-calls.js:86-128 | a settled call none of whose posts failed has no outcome if never announced; otherwise at least one, and more than one exactly when a crash fell between post and dropping or recovery raced its end with no crash before both had posted |
| CallOutcomes.SilentCallsStaySilent | src/group-calls.js:90-91 | a channel call whose post failed never gets an outcome |
| CallOutcomes.OutcomesSayWhatHappened | src/group-calls.js:86-99 | for every outcome in every run: talked exactly when two people were once in the call together; of an unmet 1:1 call, as the process that ended it posts it, declined exactly when declined, missed exactly when not answered, else cancelled, and as recovery posts it, cancelled; an unmet group call missed; none while the call runs |
| CallOutcomes.SaysWhyIff | src/group-calls.js:81-98 | the outcome of an unmet 1:1 call says why it ended except exactly when recovery posts it for one declined or not answered |
| CallOutcomes.RecoveryForgetsWhy | src/group-calls.js:277-288 | a crash between the end of such a call and its post makes recovery report it as cancelled |
| CallOutcomes.RecoverySparesRunningCalls | src/group-calls.js:281-288 | recovery never posts for or removes a call running in this process |
| CallOutcomes.RaceHappens | src/group-calls.js:277-290 | such a double outcome is reached from a fresh start, without a crash |
| MeetSignaling.StepValid | src/meet-signaling.js:95-148 | every meeting event keeps: entries belong to the joined meeting and its owner, breakout rooms hold people only while open, plans live while someone is inside, time limits belong to open rooms |
| MeetingLaws.CallsSpareMeetings | src/group-calls.js:112-149 | no call handler changes any meeting entry of the shared room map |
| MeetingLaws.MeetingsAddNoCalls | src/meet-signaling.js:156-181 | no meeting handler puts a connection into a call, though some take one out of a call's room |
| MeetingLaws.EverySiteRunValid | src/group-calls.js:163-271 | over every interleaving of call and meeting events on one room map, both keep all they keep alone |
| MeetingLaws.AdmissionIff | src/meet-signaling.js:156-303 | over every run, past a meeting's lobby are exactly those who joined it and asked to enter, own it or were let in by its owner while its media room was up, and have since neither left, joined nor been turned away; waiting are exactly the others who asked |
| MeetingSteps.JoinLaw | src/meet-signaling.js:230-257 | a join of an active link puts the connection in the lobby, not yet waiting, wherever it was; nobody else's entry changes |
| MeetingSteps.RequestLaw | src/meet-signaling.js:260-274 | from the lobby the owner is in the main room, anyone else waits and exactly the owner's connections inside are told |
| MeetingSteps.DecisionLaw | src/meet-signaling.js:277-303 | admitted by the owner, someone waiting is in the main room, unless the media room is gone; denied, they are nowhere; everyone else is where they were and the owner's connections are told |
| MeetingSteps.OthersDecideNothing | src/meet-signaling.js:277-303 | nobody but the owner decides, and only about someone waiting |
| MeetingSteps.LeaveLaw | src/meet-signaling.js:144-181 | leaving takes the connection out of its meeting alone; the breakout plan and its time limit go exactly when nobody else is inside |
| MeetingLaws.DeniedMustJoinAgain | src/meet-signaling.js:291-303 | someone denied is in no meeting until they join again, whatever else happens |
| MeetingLaws.MovesKeepLobby | src/meet-signaling.js:117-142 | breakout events and timers change nothing of anyone's entry but the room of those past the lobby |
| MeetingLaws.LobbyListStaysCurrent | src/meet-signaling.js:306-315 | the list an owner's connection makes of one answer and the notices since equals a fresh answer, also from a breakout room and across calls |
| MeetingLaws.LobbyNotices | src/meet-signaling.js:95-99 | every lobby event changes who waits exactly as the notice it sends to the owner's connections inside says |
| BreakoutLaws.PeopleAreInRoomsThereAreIff | src/meet-signaling.js:430-446 | over every run of calls and meetings, everyone inside is at every moment in a room there is, and in the main room while rooms are closed or absent, exactly when no opening sends someone inside to a room that is not there |
| MeetingSteps.SetupLaw | src/meet-signaling.js:403-411 | setup with assignments makes 1 to 20 closed rooms with exactly the assignments that name one, and nothing while rooms are open |
| MeetingSteps.TurnsLaw | src/meet-signaling.js:403-414 | setup without assignments gives the i-th in the order drawn room i modulo the number of rooms |
| MeetingSteps.AssignLaw | src/meet-signaling.js:420-429 | one person's assignment is set, or taken away for a number that names no room; while rooms are open they go to that room, or to the main room, and nobody else moves |
| MeetingSteps.OpenLaw | src/meet-signaling.js:430-446 | opening sends exactly those inside who have a room to it and starts the time limit asked for |
| MeetingSteps.CloseLaw | src/meet-signaling.js:135-142 | closing, by the owner or by the time limit, brings everyone inside and nobody else to the main room, keeps the plan and calls off the limit |
| MeetingSteps.VisitLaw | src/meet-signaling.js:460-470 | the owner goes to the open room of that number or to the main room, the return button takes anyone inside there; nobody else moves |
| MeetingSteps.OthersManageNothing | src/meet-signaling.js:378-384 | nobody but the owner inside the meeting manages its rooms |
| BreakoutLaws.PlansFitIff | src/meet-signaling.js:403-419 | setup alone can make a plan naming rooms that are not there: exactly with a number that is not whole, when its whole part is given or more people take turns than it has rooms |
| BreakoutLaws.EveryPlanFitsIffWhole | src/meet-signaling.js:406-411 | whatever is given, the plan fits: exactly with a whole number of rooms |
| BreakoutLaws.PeopleAreInRoomsThereAre | src/meet-signaling.js:135-148 | so over every run with such setups, whole numbers in particular, everyone inside is in a room there is |
| BreakoutLaws.TwoAndAHalfRooms | src/meet-signaling.js:406-411 | with 2.5 rooms and room 2 given, opening puts a person into a third room of two |
| BreakoutLaws.TwoAndAHalfRoomsInTurn | src/meet-signaling.js:412-414 | with 2.5 rooms, taking turns puts people into room 2 of two and into room 0.5 |
| BreakoutLaws.TimeLimitIsTheCurrentOne | src/meet-signaling.js:135-142 | a running time limit is that of rooms open now |
| BreakoutLaws.SpentLimitsStaySpent | src/meet-signaling.js:430-445 | a time limit that ran out or was called off never runs again, so it closes no later session |
| BreakoutLaws.SpreadSizes | src/meet-signaling.js:412-414 | taking turns over n rooms puts everyone in one room each and fills the first rooms with one person more |
| BreakoutLaws.AutomaticRoomsAreEvenIff | src/meet-signaling.js:403-419 | automatic setup gives everyone but the one setting up a room there is, none with more than one person more than another, exactly with a whole number of rooms or no more people than whole rooms |
| MeetServer.Server.NotifyOwners | src/meet-signaling.js:95-99 | a notice goes to exactly the owner's connections inside the meeting |
| MeetServer.Server.LeaveMeeting | src/meet-signaling.js:156-181 | the leave step with its notice; keeps what every step keeps, and the notice brings every owner's list inside up to date |
| MeetServer.Server.OnJoin | src/meet-signaling.js:230-257 | the join step: out of any meeting before, into this one's lobby; keeps what every step keeps, with the right notice |
| MeetServer.Server.OnRequestJoin | src/meet-signaling.js:260-274 | the owner goes in, anyone else waits and the owner is told rightly; answers whether inside; keeps what every step keeps |
| MeetServer.Server.OnAdmit | src/meet-signaling.js:277-288 | the admit step: only the owner, only someone waiting; keeps what every step keeps, with the right notice |
| MeetServer.Server.OnDeny | src/meet-signaling.js:291-303 | the deny step: only the owner, only someone waiting; keeps what every step keeps, with the right notice |
| MeetServer.Server.OnLobbyList | src/meet-signaling.js:306-315 | the owner alone is answered, with exactly those waiting |
| MeetServer.Server.CloseBreakouts | src/meet-signaling.js:135-142 | the loop brings everyone home and calls off the time limit |
| MeetServer.Server.EndBreakoutsIfEmpty | src/meet-signaling.js:144-148 | the plan and its time limit go exactly when nobody is inside |
| MeetServer.Server.OnSetup | src/meet-signaling.js:403-419 | the plan made from what is given, or from taking turns in the order drawn, for any number sent; keeps what every step keeps |
| MeetServer.Server.OnAssign | src/meet-signaling.js:420-429 | one person's room in the plan, and their move while rooms are open |
| MeetServer.Server.OnOpen | src/meet-signaling.js:430-446 | opening with or without a time limit sends everyone assigned and inside to their room; open rooms are left alone |
| MeetServer.Server.OnVisit | src/meet-signaling.js:460-466 | the owner goes to an open room in range, or to the main room |
| PresenceGrace.NoOfflineWriteAfterReconnect | src/presence-grace.js:12-17 | for every interleaving no offline write starts between a reconnect and the next disconnect, and none is in flight once the reconnect's promise resolved |
| PresenceGrace.DisconnectWritesOnce | src/presence-grace.js:18-31 | a disconnect followed by nothing else leads to exactly one write with its own time, whatever older work is queued or in flight |
| PresenceGrace.InternalStepsRunOut | src/presence-grace.js:6-31 | timers, queued work and writes can only go on finitely long |
| PresenceGrace.SomethingCanHappen | src/presence-grace.js:6-31 | until nothing is left, some timer, queued work or write can go on |
| PresenceGrace.LateEndSparesNewer | src/presence-grace.js:26-29 | an older write that ends after a newer disconnect leaves the newer transition and its timer alone |
| PresenceGrace.WritesOnlyWhenGone | src/presence-grace.js:23-27 | a write starts only while the person has no connection, for the disconnect that counts, and carries its time |
| PresenceGrace.EndLaw | src/presence-grace.js:26-29 | a write that ended well ends its own disconnect, one that failed leaves it |
| PresenceGrace.ReconnectResolves | src/presence-grace.js:6-17 | for every interleaving a reconnect's promise is queued until it resolves, and has resolved once nothing is left to do |
| PresenceGrace.Grace.OnReconnect | src/presence-grace.js:12-17 | the reconnect step for one person, nobody else touched |
| PresenceGrace.Grace.OnDisconnect | src/presence-grace.js:18-31 | the disconnect step for one person, nobody else touched |
| PresenceGrace.Grace.OnStart | src/presence-grace.js:6-11 | the queue's head starts: a reconnect resolves, a transition writes only if it is the current one and nobody is connected |
| PresenceGrace.Grace.OnEnd | src/presence-grace.js:26-29 | a finished write clears only its own transition, a failed one leaves it |
| PresenceSweep.WhenShown | src/presenceRules.js:24-33 | for each status, the facts under which it is shown |
| PresenceSweep.ActivityShown | src/realtime.js:176-187 | exactly when each call status shows: nothing from a lobby, presenting over a meeting over another call, on any of the person's connections |
| PresenceSweep.SweepShows | src/realtime.js:111-126 | what the sweep makes of each row: the connected show what their facts give, the settled whether they are out of office now, the just gone what they showed; only the status changes |
| PresenceSweep.Presence.Sweep | src/realtime.js:111-126 | with nothing else happening the sweep is recomputing everyone connected or settled as away; someone in the reconnect grace is left alone |
| PresenceSweep.Presence.Refresh | src/realtime.js:102-106 | one connected person's status becomes what the sweep would make it |
| PresenceSweep.Presence.CallActivity | src/realtime.js:176-187 | presenting before in a meeting before in a call, in whatever order the rooms are looked through |
| PresenceSweep.Presence.EveryDeviceIdle | src/realtime.js:16-19 | true exactly when the person has a connection and all of them are idle |
| PresenceSweep.Presence.Connects | src/realtime.js:194-200 | the two maps keep recording exactly the open connections; answers whether this is the first |
| PresenceSweep.Presence.Disconnects | src/realtime.js:252-260 | the connection is gone from both maps; answers whether it was the person's last |
| ChatReliability.Merge | ios-app/Native/ChatReliability.swift:6-10 | in id order, each message once, the incoming copy where both have one |
| ChatReliability.MergeAssociative | ios-app/Native/ChatReliability.swift:6-10 | pages and live messages may be merged in any grouping |
| ChatReliability.IncomingWins | ios-app/Native/ChatReliability.swift:6-10 | a merge holds exactly the last copy of each message that arrived and the last copy there was of each other, in id order |
| ChatReliability.Refresh | ios-app/Native/ChatReliability.swift:11-27 | ends against any server; from a faithful one returns the server's copy of everything from the earliest message kept, with more reported when older ones exist, and only then if the server is exact; from the real list also in vain, exactly when its pages come out even at the earliest message kept; stops at the first page after which it is cancelled, and fails only for a failed fetch or a page not older than the one before |
| ChatReliability.ServerPageExactIff | src/routes/messages.js:93-113 | the message list is always faithful, and exact unless exactly one full page is left |
| ChatReliability.BelowIff | src/routes/messages.js:100-110 | exactly the messages with ids below the cursor come before it |
| Csv.ExportReadsBack | src/audit.js:84-92 | a reader for section 2 of RFC 4180 gets back the header and each row's guarded cells, for any quotes, commas and line breaks |
| Csv.CellsReadBack | src/audit.js:84-88 | each cell read back is the row's value of the column its header names, behind a ' exactly when it starts with = + - @, a tab or a carriage return, and none read back does |
| MeetingConflicts.GroupConflicts | src/meetingConflicts.js:15-37 | everyone in people with an overlap gets one group with all of them, in start order, the viewer first and then by name |
| MeetingConflicts.FindConflicts | src/meetingConflicts.js:41-59 | everything reported is a busy, undeclined meeting of that person overlapping an occurrence, with a title exactly when the viewer is invited to it too; with up to 2000 rows in the window from first start to last end none is missed; the viewer first, then by name, each in start order |
| MeetingConflicts.ClashIff | src/meetingConflicts.js:11 | times that last overlap exactly when there is an instant in both |
| MeetingConflicts.Query | src/meetingConflicts.js:47-53 | exactly the rows filling the window, all of them up to 2000; of more, 2000 of which none starts later than one left out |
| MeetingConflicts.ReportedOnce | src/meetingConflicts.js:15-37 | with one row per person and meeting and distinct starts, an overlap reported is reported once, as its own item |
| MeetingConflicts.Window | src/meetingConflicts.js:43-44 | exactly the first start and the last end of the occurrences |
| Calendar.DateOfDay | src/searchQuery.js:38-41 | every day number is a day of the calendar, and is its number |
| Calendar.DayOfDate | src/searchQuery.js:38-41 | every day of the calendar is found again from its number |
| Calendar.DaysFollow | src/searchQuery.js:38-41 | the date of each day number is the Gregorian calendar's day after the one before |
| Calendar.DaysBegin | src/searchQuery.js:38-41 | and day 0 is the first of January 1970 |
| Text.LessIff | src/searchQuery.js:44-45 | texts compare at the first place where they differ, a beginning before the whole |
| TimeText.TextOrder | src/searchQuery.js:45 | in years 0 to 9999 stored times compare as text exactly as they do as seconds, also with old fractions behind |
| TimeText.FarTextIsFirst | src/searchQuery.js:45 | no such text comes before that of a time past the year 9999 |
| TimeText.ParseReadsBack | src/search.js:58-63 | the index's number is the second the stored text was written for |
| SearchDates.AcceptsRealDays | src/searchQuery.js:34-42 | a date is accepted exactly when it is a real calendar day from the year 100 on, as that day's local midnight |
| SearchDates.DayStartsAreFourDigits | src/searchQuery.js:34-45 | accepted days start, and but for 9999-12-31 not ahead of UTC also end, in a year of four digits |
| SearchTokens.Tokenize | src/searchQuery.js:18-29 | the scan finds the tokens by the alternatives in order |
| SearchTokens.TokensCover | src/searchQuery.js:18-29 | the tokens' raw texts are the query in order, with only blanks between them |
| SearchTokens.TokensWellFormed | src/searchQuery.js:20-27 | how each kind of token was written: quoted values have no quote, others no blank, keys are letters |
| SearchTokens.QuotedKeyFirst | src/searchQuery.js:20-25 | a key with a quoted value is one filter, whatever follows |
| SearchTokens.KeyFirst | src/searchQuery.js:20-25 | a key with a value up to a blank is one filter, unless a quote opens there and is closed |
| SearchTokens.PhraseFirst | src/searchQuery.js:20-26 | a quoted text is one phrase |
| SearchTokens.WordFirst | src/searchQuery.js:20-27 | anything else up to a blank is a word |
| SearchTokens.WrittenReadsBack | src/searchQuery.js:18-29 | whatever filters, phrases and words are written with blanks between them, exactly those are read back |
| SearchQuery.ParseSearchQuery | src/searchQuery.js:47-84 | an instant is within the bounds exactly when it satisfies every accepted date filter; people, places, words in order; has: on exactly when asked |
| SearchQuery.QueryMeans | src/searchQuery.js:47-84 | from the tokens typed: the window is exactly the instants that keep to every real date said, in the searcher's time zone; people, places and has: filters are exactly those said, in order, and the text is exactly the rest as typed |
| SearchQuery.TrimIs | src/searchQuery.js:56 | trimming takes the blanks at both ends and those alone |
| SearchQuery.NothingIsDropped | src/searchQuery.js:54-76 | every token becomes a filter or its text is found in the query's text |
| SearchFilter.LinksAgree | src/searchFilter.js:73-77 | the index's link pattern and the database's two patterns accept the same bodies |
| SearchFilter.LinkIff | src/searchFilter.js:73-77 | both accept exactly the bodies in which http:// or https:// stands, in any case |
| SearchFilter.BuildFilter | src/searchFilter.js:34-52 | which documents pass: a visible place, not deleted, and every narrowing; none without places or authors |
| SearchFilter.SqlConditions | src/searchFilter.js:58-74 | which rows the database's conditions accept |
| SearchAgreement.EnginesAgreeIff | src/search.js:267-300 | for any query typed, places and people found, the index and the database accept the same of all stored messages, exactly unless on:9999-12-31 alone ends the query not ahead of UTC and there is something to search |
| SearchAgreement.FoundIff | src/search.js:267-300 | for any query typed, the index accepts exactly the stored messages that are visible, undeleted, by someone asked for, in the query's window, and with the file and link asked for; the database the same, but none for the one far end |
| SearchAgreement.FarEndIff | src/searchQuery.js:62-72 | a query ends past the year 9999 exactly when on:9999-12-31 is said not ahead of UTC and no other accepted date ends it sooner |
| SearchAgreement.FarWitness | src/searchQuery.js:45 | for each such query a stored row the index accepts and the database refuses |
| SearchFilter.MessagesFromPostgres | src/search.js:281-300 | the two selects over the table put together, newest first up to the limit: how often each row comes, and that what is cut off is no newer |
| SearchFilter.NeverTwice | src/search.js:281-300 | in what is returned a message comes twice only if it is in a visible channel and a visible chat at once, and never three times |
| Search.HydrateMessages | src/search.js:246-265 | the current rows of the ids that may be shown, in the ids' order |
| Search.ShownIsCurrent | src/search.js:246-265 | whatever a stale index finds, only current, undeleted, visible messages are shown, and none of these is missing |
| Search.ShownInOrder | src/search.js:246-265 | what is shown comes in the order of the results |
| Search.ReindexAll | src/search.js:104-167 | the batches by id and the stale pages leave exactly the messages not deleted, as they are now |

## Left out

- Handlers are atomic steps. `gcall:start`, `gcall:join` and the deletion of a message are also split at their wait (see above). A recording of a call's record made after a slow "Started a meeting" post, and the moves of breakout rooms, which wait for each person's room, are not split.
- Access checks before a handler runs (sessions, membership of a chat or channel, active accounts), and the errors they answer.
- Sockets, Redis, mediasoup, Meilisearch, S3 and Postgres: assumed to store and deliver; the seven-day expiry of call records is not modelled.
- MeetingLaws.LobbyListStaysCurrent: for a connection that neither leaves nor joins a meeting itself in between; notices are delivered in order.
- BreakoutLaws: numbers of rooms are real numbers; the rounding of JavaScript's `%` is not modelled.
- Calls: durations in outcome texts, the heartbeat's time, the mode, titles and the events sent to clients. The startup pass over stale "Started a meeting" posts is a rewrite in `StoreRuns` only.
- HeldRuns.HeldWordingSurvivesIff: of the wordings a message has while it is up; one edited into a message already deleted is not among them (MessageDelete.HeldWordingsLost).
- CallOutcomes.AtLeastOneOutcome: not for calls whose outcome post failed; the code ignores that failure in recovery and waits for the next start after `end`.
- In-call chat, captions, whiteboards, recordings, spotlight and Together mode.
- Retention.RemoveStoredFiles: which storage driver holds an object is not modelled, and a failed deletion is one fixed set of refused objects per run.
- Retention.PurgeScope: nothing else changes the database between its batches; the hourly schedule, policy parsing and meeting-chat lines are left out.
- RetentionLaws.HeldUntouched: says nothing of copies' files after the hold is released; clean-up of recordings by the scheduler ignores holds and versions and is not modelled.
- EditHistory: announcement rendering of a version.
- FileVersions: thumbnails' sizes and types, storage drivers, notes' length limit, who may change a file.
- PresenceGrace: other users of the users.status column while a write is slow; the write itself.
- PresenceSweep.Presence.Sweep: with no event between its rows; statuses are read and written as one step. Out-of-office forms, participant lists and device labels are left out.
- ChatReliability.Refresh: ids are the database's serial numbers; the server's messages do not change during a refresh.
- SearchQuery: highlighted terms, labels of applied filters, the 200-character limit; resolving people and places in the database.
- SearchTokens: lower case is modelled for the letters that can end in a to z.
- SearchFilter: ranking, typo tolerance, text matching, file and people search. Created times are stored texts of years 0 to 9999.
- Search.ReindexAll: the index's task queue; the database does not change meanwhile; the number of removed documents.
- TimeText.ParseReadsBack: Date.parse only for the 19-character form the database stores.
- MeetingConflicts.FindConflicts: times are numbers in the order of their texts; names are compared by any collation.
- Csv: other exports that use the same cells.
