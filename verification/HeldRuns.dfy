/** Over every run of requests and retention: which of them cost a held message its row or a wording,
    and that nothing else does. */
module HeldRuns {
  import opened Common
  import opened Tables
  import opened LegalHold
  import opened EditHistory
  import opened MessageDelete
  import FileVersions
  import opened Retention
  import opened RetentionLaws
  import opened StoreRuns

  /** Hold h is active and covers the message, whose row is there. */
  ghost predicate HoldOn(db: Db, h: Id, id: Id) {
    h in db.holds && !db.holds[h].released && id in db.messages && Covers(db, db.holds[h], db.messages[id])
  }

  /** The wordings `history` of the message are where they were, or in a kept copy. */
  ghost predicate Safe(db: Db, id: Id, history: seq<Wording>) {
    (id in db.messages && !db.messages[id].deleted && history <= History(db, id)) || Kept(db, id, history)
  }

  // ---------------------------------------------------------------------------- what harms

  /** An unblocked deletion of these channels takes the message along. */
  ghost predicate TakenAlong(db: Db, id: Id, channels: set<Id>) {
    exists root :: root in MessagesIn(db, channels) && Under(db, id, root)
  }

  /** The request destroys the message's row. */
  ghost predicate Destroys(db: Db, id: Id, e: Event) {
    match e
    case TakenBack(root) => Under(db, id, root)
    case DropChannel(channel) => ChannelDeleteBlock(db, channel) == None && TakenAlong(db, id, {channel})
    case DropTeam(team) => TeamDeleteBlock(db, team) == None && TakenAlong(db, id, ChannelsOf(db, team))
    case _ => false
  }

  /** Of these wordings the last is the one in the row. */
  predicate Newest(db: Db, id: Id, history: seq<Wording>)
    requires id in db.messages
  {
    |history| == |History(db, id)|
  }

  predicate Differs(db: Db, id: Id, body: string, metadata: Option<string>)
    requires id in db.messages
  {
    body != db.messages[id].body || metadata != db.messages[id].metadata
  }

  /** The request replaces the newest of these wordings, or empties the row, with no copy of what it holds. */
  predicate Overwrites(db: Db, id: Id, history: seq<Wording>, e: Event)
    requires id in db.messages
  {
    match e
    case Rewritten(other, body, metadata, _) => other == id && Newest(db, id, history)
      && Differs(db, id, body, metadata)
    case Deleted(other, read, _, _) => other == id
      && (read.deleted || (Newest(db, id, history) && Differs(db, id, read.body, read.metadata)))
    case DeletionBlanks(other, _, _, _) => other == id
    case _ => false
  }

  /** No copy holds these wordings yet, and the request destroys or overwrites them. */
  ghost predicate Harms(db: Db, id: Id, history: seq<Wording>, e: Event) {
    id in db.messages && Enabled(db, e) && !Kept(db, id, history)
      && (Destroys(db, id, e) || Overwrites(db, id, history, e))
  }

  // ---------------------------------------------------------------------------- one step

  lemma PreservedGrows(db: Db, e: Event)
    ensures db.preserved <= Step(db, e).preserved
  {
    hide NewMessage, NewObjects, CopiesOf, EditMessage, Delete, Copied, Blanked, Rewrite, DeleteMessages,
         FileVersions.ApplyChange,
         Purge, DropChannels, ChannelDeleteBlock, TeamDeleteBlock, SamePlace, TakenAlong, Under, Insert;
    match e
    case Post(id, message, att, upload) => InsertLeaves(db, id, message);
    case Forward(source, id, message, copies, now) => InsertLeaves(db, id, message);
    case Recorded(recording, key, id, message, att, file) => InsertLeaves(db, id, message);
    case Edited(id, read, body, metadata, now) => EditLeaves(db, id, read, body, metadata, now, id);
    case Rewritten(id, body, metadata, now) => if id in db.messages { RewriteLeaves(db, id, body, metadata, now, id); }
    case Deleted(id, read, recalled, now) => DeleteLeavesOthers(db, id, read, recalled, now, id);
    case DeletionCopies(id, read, recalled) => CopyLeaves(db, id, read, recalled);
    case DeletionBlanks(id, read, recalled, now) => BlankLeavesOthers(db, id, read, recalled, now, id);
    case TakenBack(root) => TakeBackLeaves(db, root, root);
    case Purged(scope, cutoff, now, broken) => PurgeKeepsHolds(db, scope, cutoff, now, broken);
    case Change(att, change) => ChangeKeepsMessages(db, att, change);
    case DropChannel(channel) => DropLeaves(db, 0, {channel});
    case DropTeam(team) => DropLeaves(db, 0, ChannelsOf(db, team));
    case _ =>
  }

  lemma InsertLeaves(db: Db, id: Id, message: Message)
    ensures Insert(db, id, message).preserved == db.preserved
  {
  }

  predicate SamePlace(m: Message, m': Message) {
    m'.author == m.author && m'.channel == m.channel && m'.chat == m.chat
  }

  lemma EditLeaves(db: Db, id: Id, read: Message, body: string, metadata: Option<string>, now: string, other: Id)
    ensures var db' := EditMessage(db, id, read, body, metadata, now);
            && db'.preserved == db.preserved && db'.holds == db.holds && db'.participants == db.participants
            && (other in db.messages ==> other in db'.messages && SamePlace(db.messages[other], db'.messages[other]))
            && (other in db.messages ==> db'.messages[other].deleted == db.messages[other].deleted)
            && (other != id && other in db.messages ==>
                  db'.messages[other] == db.messages[other] && db'.EditsOf(other) == db.EditsOf(other))
  {
  }

  lemma RewriteLeaves(db: Db, id: Id, body: string, metadata: Option<string>, now: string, other: Id)
    requires id in db.messages
    ensures var db' := Rewrite(db, id, body, metadata, now);
            && db'.preserved == db.preserved && db'.holds == db.holds && db'.participants == db.participants
               && db'.edits == db.edits
            && (other in db.messages ==> other in db'.messages && SamePlace(db.messages[other], db'.messages[other]))
            && (other != id && other in db.messages ==> db'.messages[other] == db.messages[other])
            && db'.messages[id] == db.messages[id].(body := body, metadata := metadata, updatedAt := now)
  {
  }

  lemma DeleteLeavesOthers(db: Db, id: Id, read: Message, recalled: bool, now: string, other: Id)
    ensures var db' := Delete(db, id, read, recalled, now);
            && db.preserved <= db'.preserved && db'.holds == db.holds && db'.participants == db.participants
            && (other in db.messages ==> other in db'.messages && SamePlace(db.messages[other], db'.messages[other]))
            && (other != id && other in db.messages ==>
                  db'.messages[other] == db.messages[other] && db'.EditsOf(other) == db.EditsOf(other))
            && (id in db.messages ==> db'.messages[id].deleted)
            && (read.deleted ==> db'.preserved == db.preserved)
  {
    hide HoldsFor, Copy;
  }

  lemma CopyLeaves(db: Db, id: Id, read: Message, recalled: bool)
    ensures var db' := Copied(db, id, read, recalled);
            db.preserved <= db'.preserved && db' == db.(preserved := db'.preserved)
  {
  }

  lemma BlankLeavesOthers(db: Db, id: Id, read: Message, recalled: bool, now: string, other: Id)
    ensures var db' := Blanked(db, id, read, recalled, now);
            && db'.preserved == db.preserved && db'.holds == db.holds && db'.participants == db.participants
            && (other in db.messages ==> other in db'.messages && SamePlace(db.messages[other], db'.messages[other]))
            && (other != id && other in db.messages ==>
                  db'.messages[other] == db.messages[other] && db'.EditsOf(other) == db.EditsOf(other))
            && (id in db.messages ==> db'.messages[id].deleted)
  {
  }

  lemma KeptStays(db: Db, db': Db, id: Id, history: seq<Wording>)
    requires db.preserved <= db'.preserved && Kept(db, id, history)
    ensures Kept(db', id, history)
  {
    var i :| 0 <= i < |db.preserved| && db.preserved[i].message == id && history <= CopiedHistory(db.preserved[i]);
    assert db'.preserved[i] == db.preserved[i];
  }

  /** The row is in the same places, by the same person, under the same holds. */
  ghost predicate StillCovered(db: Db, db': Db, h: Id, id: Id)
    requires h in db.holds && id in db.messages
  {
    && id in db'.messages && SamePlace(db.messages[id], db'.messages[id])
    && h in db'.holds && db'.holds[h] == db.holds[h] && db.participants <= db'.participants
  }

  ghost predicate SameText(db: Db, db': Db, id: Id)
    requires id in db.messages
  {
    && id in db'.messages && db'.messages[id].deleted == db.messages[id].deleted
       && db'.messages[id].body == db.messages[id].body
    && db'.messages[id].metadata == db.messages[id].metadata && db'.EditsOf(id) == db.EditsOf(id)
  }

  /** Requests that leave the row of a held message be: all but those that destroy it, edit it, rewrite
      it or delete it for everyone. */
  lemma RowUntouched(db: Db, h: Id, id: Id, e: Event)
    requires Sound(db) && HoldOn(db, h, id) && e != ReleaseHold(h) && Enabled(db, e) && !Destroys(db, id, e)
    requires !((e.Edited? || e.Rewritten? || e.Deleted? || e.DeletionBlanks?) && e.id == id)
    ensures StillCovered(db, Step(db, e), h, id) && SameText(db, Step(db, e), id)
  {
    hide NewMessage, NewObjects, CopiesOf, Covers, Sound, EditMessage, Delete, Copied, Blanked, Rewrite,
         DeleteMessages, FileVersions.ApplyChange, Purge, DropChannels, ChannelDeleteBlock, TeamDeleteBlock;
    match e
    case Edited(other, read, body, metadata, now) => EditLeaves(db, other, read, body, metadata, now, id);
    case Rewritten(other, body, metadata, now) => RewriteLeaves(db, other, body, metadata, now, id);
    case Deleted(other, read, recalled, now) => DeleteLeavesOthers(db, other, read, recalled, now, id);
    case DeletionCopies(other, read, recalled) => CopyLeaves(db, other, read, recalled);
    case DeletionBlanks(other, read, recalled, now) => BlankLeavesOthers(db, other, read, recalled, now, id);
    case Purged(scope, cutoff, now, broken) =>
      HeldNow(db, h, id);
      HeldUntouched(db, scope, cutoff, now, broken, id);
      PurgeKeepsHolds(db, scope, cutoff, now, broken);
    case DropChannel(channel) => DropLeaves(db, id, {channel});
    case DropTeam(team) => DropLeaves(db, id, ChannelsOf(db, team));
    case TakenBack(root) => TakeBackLeaves(db, id, root);
    case Change(att, change) => ChangeKeepsMessages(db, att, change);
    case _ => NewRowsLeave(db, h, id, e);
  }

  lemma HeldNow(db: Db, h: Id, id: Id)
    requires HoldOn(db, h, id)
    ensures Held(db, db.messages[id])
  {
    assert ActiveOn(db, h, db.messages[id]);
  }

  lemma NewRowsLeave(db: Db, h: Id, id: Id, e: Event)
    requires HoldOn(db, h, id) && Enabled(db, e) && e != ReleaseHold(h)
    requires e.Post? || e.Forward? || e.Recorded? || e.Thumbnailed? || e.PlaceHold? || e.ReleaseHold?
             || e.AddParticipant?
    ensures StillCovered(db, Step(db, e), h, id) && SameText(db, Step(db, e), id)
  {
    hide NewObjects, CopiesOf, Covers;
  }

  lemma PurgeKeepsHolds(db: Db, scope: Retention.Scope, cutoff: string, now: string, broken: set<Object>)
    ensures var db' := Purge(db, scope, cutoff, now, broken);
            db'.holds == db.holds && db'.participants == db.participants && db'.preserved == db.preserved
  {
  }

  lemma ChangeKeepsMessages(db: Db, att: Id, change: FileVersions.Change)
    ensures var db' := FileVersions.ApplyChange(db, att, change);
            db'.messages == db.messages && db'.edits == db.edits && db'.holds == db.holds
              && db'.participants == db.participants && db'.preserved == db.preserved
    ensures change.Upload? ==>
            var stored := db.stored + FileVersions.FromUpload(change.upload).Objects();
            var db' := FileVersions.ApplyChange(db.(stored := stored), att, change);
            db'.messages == db.messages && db'.edits == db.edits && db'.holds == db.holds
              && db'.participants == db.participants && db'.preserved == db.preserved
  {
  }

  lemma DropLeaves(db: Db, id: Id, channels: set<Id>)
    ensures var db' := DropChannels(db, channels);
            && (id in db.messages ==> (id in db'.messages <==> !TakenAlong(db, id, channels)))
               && db'.preserved == db.preserved
            && db'.holds == db.holds && db'.participants == db.participants
            && (id in db'.messages ==>
                  id in db.messages && db'.messages[id] == db.messages[id] && db'.EditsOf(id) == db.EditsOf(id))
  {
    hide Under, MessagesIn;
  }

  lemma TakeBackLeaves(db: Db, id: Id, root: Id)
    ensures var db' := DeleteMessages(db, {root});
            && (id in db.messages ==> (id in db'.messages <==> !Under(db, id, root))) && db'.preserved == db.preserved
            && db'.holds == db.holds && db'.participants == db.participants
            && (id in db'.messages ==>
                  id in db.messages && db'.messages[id] == db.messages[id] && db'.EditsOf(id) == db.EditsOf(id))
  {
    hide Under;
  }

  /** A hold's message keeps its row, under the hold, exactly through the requests that do not destroy it. */
  lemma RowStaysIff(db: Db, h: Id, id: Id, e: Event)
    requires Sound(db) && HoldOn(db, h, id) && e != ReleaseHold(h)
    ensures HoldOn(Step(db, e), h, id) <==> !(Enabled(db, e) && Destroys(db, id, e))
  {
    hide Sound, NewObjects, CopiesOf, NewMessage, EditMessage, Delete, Copied, Blanked, Rewrite, DeleteMessages,
         DropChannels, ChannelDeleteBlock, TeamDeleteBlock, FileVersions.ApplyChange, Purge, Under, Covers, TakenAlong;
    if Enabled(db, e) {
      if Destroys(db, id, e) {
        match e
        case TakenBack(root) => TakeBackLeaves(db, id, root);
        case DropChannel(channel) => DropLeaves(db, id, {channel});
        case DropTeam(team) => DropLeaves(db, id, ChannelsOf(db, team));
      } else if (e.Edited? || e.Rewritten? || e.Deleted? || e.DeletionBlanks?) && e.id == id {
        OwnRowStays(db, h, id, e);
        CoveredStays(db, Step(db, e), h, id);
      } else {
        RowUntouched(db, h, id, e);
        CoveredStays(db, Step(db, e), h, id);
      }
    }
  }

  lemma OwnRowStays(db: Db, h: Id, id: Id, e: Event)
    requires h in db.holds && id in db.messages && (e.Edited? || e.Rewritten? || e.Deleted? || e.DeletionBlanks?)
             && e.id == id
    ensures StillCovered(db, Step(db, e), h, id)
  {
    hide EditMessage, Delete, Copied, Blanked, Rewrite;
    match e
    case Edited(_, read, body, metadata, now) => EditLeaves(db, id, read, body, metadata, now, id);
    case Rewritten(_, body, metadata, now) => RewriteLeaves(db, id, body, metadata, now, id);
    case Deleted(_, read, recalled, now) => DeleteLeavesOthers(db, id, read, recalled, now, id);
    case DeletionBlanks(_, read, recalled, now) => BlankLeavesOthers(db, id, read, recalled, now, id);
  }

  lemma CoveredStays(db: Db, db': Db, h: Id, id: Id)
    requires HoldOn(db, h, id) && StillCovered(db, db', h, id)
    ensures HoldOn(db', h, id)
  {
  }

  /** Wordings in a row that is up stay safe through every request that does not harm them... */
  lemma UnharmedIsSafe(db: Db, h: Id, id: Id, history: seq<Wording>, e: Event)
    requires Sound(db) && HoldOn(db, h, id) && e != ReleaseHold(h) && Enabled(db, e)
    requires !db.messages[id].deleted && history <= History(db, id) && !Destroys(db, id, e)
             && !Overwrites(db, id, history, e)
    ensures Safe(Step(db, e), id, history)
  {
    hide Sound, NewMessage, NewObjects, CopiesOf, EditMessage, Delete, Copied, Blanked, Rewrite, Covers, Destroys, Kept;
    if e.Edited? && e.id == id {
      EditKeepsHistory(db, id, e.read, e.body, e.metadata, e.now);
      EditLeaves(db, id, e.read, e.body, e.metadata, e.now, id);
    } else if e.Rewritten? && e.id == id {
      RewriteLeaves(db, id, e.body, e.metadata, e.now, id);
    } else if e.Deleted? && e.id == id {
      HeldNow(db, h, id);
      CopyHolds(db, id, e.read, e.recalled, e.now, history);
    } else {
      RowUntouched(db, h, id, e);
    }
  }

  lemma CopyHolds(db: Db, id: Id, read: Message, recalled: bool, now: string, history: seq<Wording>)
    requires id in db.messages && Held(db, db.messages[id]) && history <= History(db, id) && !read.deleted
    requires Newest(db, id, history) ==> !Differs(db, id, read.body, read.metadata)
    ensures Kept(Delete(db, id, read, recalled, now), id, history)
  {
    HeldIffHoldsFor(db, id);
    var copy := Copy(db, id, read, recalled);
    var db' := Delete(db, id, read, recalled, now);
    assert db'.preserved[|db.preserved|] == copy;
    assert CopiedHistory(copy) == EditHistory.Replaced(db.EditsOf(id)) + [Wording(read.body, read.metadata)];
    assert history <= CopiedHistory(copy);
  }

  /** ... and are lost in one that does. */
  lemma HarmedIsLost(db: Db, id: Id, history: seq<Wording>, e: Event)
    requires id in db.messages && !db.messages[id].deleted && history <= History(db, id) && Harms(db, id, history, e)
    ensures !Safe(Step(db, e), id, history)
  {
    hide NewMessage, NewObjects, CopiesOf, EditMessage, Delete, Copied, Blanked, Rewrite, DeleteMessages, DropChannels,
         ChannelDeleteBlock, TeamDeleteBlock, Under, TakenAlong, Kept;
    var db' := Step(db, e);
    match e
    case TakenBack(root) => TakeBackLeaves(db, id, root); SamePreserved(db, db', id, history);
    case DropChannel(channel) => DropLeaves(db, id, {channel}); SamePreserved(db, db', id, history);
    case DropTeam(team) => DropLeaves(db, id, ChannelsOf(db, team)); SamePreserved(db, db', id, history);
    case Rewritten(_, body, metadata, now) =>
      RewriteLeaves(db, id, body, metadata, now, id);
      SamePreserved(db, db', id, history);
      assert history == History(db, id);
      assert History(db', id)[|history| - 1] == Wording(body, metadata);
    case Deleted(_, read, recalled, now) =>
      DeleteLeavesOthers(db, id, read, recalled, now, id);
      if read.deleted {
        SamePreserved(db, db', id, history);
      } else {
        CopyMisses(db, id, read, recalled, now, history);
      }
    case DeletionBlanks(_, read, recalled, now) =>
      BlankLeavesOthers(db, id, read, recalled, now, id);
      SamePreserved(db, db', id, history);
  }

  lemma CopyMisses(db: Db, id: Id, read: Message, recalled: bool, now: string, history: seq<Wording>)
    requires id in db.messages && history == History(db, id) && Differs(db, id, read.body, read.metadata)
             && !Kept(db, id, history)
    ensures !Kept(Delete(db, id, read, recalled, now), id, history)
  {
    var copy := Copy(db, id, read, recalled);
    var db' := Delete(db, id, read, recalled, now);
    assert CopiedHistory(copy)[|history| - 1] == Wording(read.body, read.metadata);
    assert forall i | 0 <= i < |db.preserved| :: db'.preserved[i] == db.preserved[i];
    assert forall i | |db.preserved| <= i < |db'.preserved| :: db'.preserved[i] == copy;
  }

  // ---------------------------------------------------------------------------- whole runs

  predicate Standing(h: Id, events: seq<Event>) {
    forall e | e in events :: e != ReleaseHold(h)
  }

  /** At every moment of the run. */
  ghost predicate SafeThroughout(db: Db, id: Id, history: seq<Wording>, events: seq<Event>)
    decreases |events|
  {
    Safe(db, id, history) && (events != [] ==> SafeThroughout(Step(db, events[0]), id, history, events[1..]))
  }

  ghost predicate NeverHarmed(db: Db, id: Id, history: seq<Wording>, events: seq<Event>)
    decreases |events|
  {
    events != [] ==> !Harms(db, id, history, events[0]) && NeverHarmed(Step(db, events[0]), id, history, events[1..])
  }

  /** While a hold stands, the wordings a message has while it is up are on record at every moment of a
      run exactly when no step harms them: no call's or card's post rewritten over its newest wording,
      no message taken back or dropped with a channel it was not posted in, and no deletion that read
      another wording than the row's. Posting, forwarding, editing, versions, deletions of the row as it
      is, retention and holds are never among these. */
  lemma {:induction false} HeldWordingSurvivesIff(db: Db, h: Id, id: Id, history: seq<Wording>, events: seq<Event>)
    requires Sound(db) && Standing(h, events) && Safe(db, id, history)
    requires HoldOn(db, h, id) || Kept(db, id, history)
    ensures SafeThroughout(db, id, history, events) <==> NeverHarmed(db, id, history, events)
    decreases |events|
  {
    if events != [] {
      var e, db' := events[0], Step(db, events[0]);
      assert e in events && forall x | x in events[1..] :: x in events;
      StepSound(db, e);
      StepSafeIff(db, h, id, history, e);
      hide Step, Sound, Safe, HoldOn, Kept, Harms;
      if Safe(db', id, history) { HeldWordingSurvivesIff(db', h, id, history, events[1..]); }
    }
  }

  lemma StepSafeIff(db: Db, h: Id, id: Id, history: seq<Wording>, e: Event)
    requires Sound(db) && e != ReleaseHold(h) && Safe(db, id, history)
    requires HoldOn(db, h, id) || Kept(db, id, history)
    ensures Safe(Step(db, e), id, history) <==> !Harms(db, id, history, e)
    ensures Safe(Step(db, e), id, history) ==> HoldOn(Step(db, e), h, id) || Kept(Step(db, e), id, history)
  {
    hide Sound, Step, Enabled, HoldOn, Kept, Destroys, Overwrites;
    if Kept(db, id, history) {
      PreservedGrows(db, e);
      KeptStays(db, Step(db, e), id, history);
    } else if !Enabled(db, e) {
      NothingHappens(db, e);
    } else if Harms(db, id, history, e) {
      HarmedIsLost(db, id, history, e);
    } else {
      HasRow(db, h, id);
      UnharmedIsSafe(db, h, id, history, e);
      RowStaysIff(db, h, id, e);
    }
  }

  lemma NothingHappens(db: Db, e: Event)
    requires !Enabled(db, e)
    ensures Step(db, e) == db
  {
  }

  lemma HasRow(db: Db, h: Id, id: Id)
    requires HoldOn(db, h, id)
    ensures id in db.messages
  {
  }

  ghost predicate NeverDestroyed(db: Db, id: Id, events: seq<Event>)
    decreases |events|
  {
    events != [] ==>
      !(Enabled(db, events[0]) && Destroys(db, id, events[0])) && NeverDestroyed(Step(db, events[0]), id, events[1..])
  }

  /** A held message's row outlives every run in which nothing takes it along. */
  lemma {:induction false} HeldRowSurvives(db: Db, h: Id, id: Id, events: seq<Event>)
    requires Sound(db) && Standing(h, events) && HoldOn(db, h, id) && NeverDestroyed(db, id, events)
    ensures HoldOn(Run(db, events), h, id)
    decreases |events|
  {
    if events != [] {
      var e := events[0];
      assert e in events && forall x | x in events[1..] :: x in events;
      StepSound(db, e);
      RowStaysIff(db, h, id, e);
      hide Step, Sound, HoldOn, Destroys, Enabled;
      HeldRowSurvives(Step(db, e), h, id, events[1..]);
    }
  }

  /** Where replies stay in their post's place, dropping channels and teams costs no held message its row. */
  lemma HeldRowStaysInPlace(db: Db, h: Id, id: Id, e: Event)
    requires Sound(db) && HoldOn(db, h, id) && RepliesStayInPlace(db) && (e.DropChannel? || e.DropTeam?)
    ensures HoldOn(Step(db, e), h, id)
  {
    RowStaysIff(db, h, id, e);
    HeldNow(db, h, id);
    hide Covers, Sound, HoldOn;
    if e.DropChannel? {
      DeletionsSpareHeld(db, e.channel);
      DropLeaves(db, id, {e.channel});
    } else {
      DeletionsSpareHeld(db, e.team);
      DropLeaves(db, id, ChannelsOf(db, e.team));
    }
  }
}
