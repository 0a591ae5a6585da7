/** Over every run of requests and retention: a deleted message has no text again until it is edited or
    rewritten. */
module DeletedRuns {
  import opened Common
  import opened Tables
  import opened LegalHold
  import opened EditHistory
  import opened MessageDelete
  import FileVersions
  import opened Retention
  import opened RetentionLaws
  import opened StoreRuns
  import opened HeldRuns

  /** The row is marked deleted, and nothing of a text is left in it, its edits or the search index. */
  predicate Empty(db: Db, id: Id) {
    id in db.messages && db.messages[id].deleted && db.messages[id].body == "" && db.EditsOf(id) == []
      && id !in db.indexed
  }

  /** At every moment of the run until the row itself goes. */
  ghost predicate EmptyWhileThere(db: Db, id: Id, events: seq<Event>)
    decreases |events|
  {
    id in db.messages ==> Empty(db, id) && (events != [] ==> EmptyWhileThere(Step(db, events[0]), id, events[1..]))
  }

  predicate NeverWritten(id: Id, events: seq<Event>) {
    forall e | e in events && (e.Edited? || e.Rewritten?) :: e.id != id
  }

  /** Once deleted, a message has no text as long as it is there and nothing edits or rewrites it. */
  lemma DeletedHasNoText(db: Db, id: Id, read: Message, recalled: bool, now: string, events: seq<Event>)
    requires Sound(db) && id in db.messages && NeverWritten(id, events)
    ensures EmptyWhileThere(Step(db, Deleted(id, read, recalled, now)), id, events)
  {
    StepSound(db, Deleted(id, read, recalled, now));
    DeletionLeavesNoText(db, id, read, recalled, now);
    hide Sound, Delete;
    StaysEmpty(Step(db, Deleted(id, read, recalled, now)), id, events);
  }

  lemma {:induction false} StaysEmpty(db: Db, id: Id, events: seq<Event>)
    requires Sound(db) && Empty(db, id) && NeverWritten(id, events)
    ensures EmptyWhileThere(db, id, events)
    decreases |events|
  {
    if events != [] {
      var e := events[0];
      assert e in events && forall x | x in events[1..] :: x in events;
      StepSound(db, e);
      StepStaysEmpty(db, id, e);
      hide Step, Sound, Empty;
      if id in Step(db, e).messages { StaysEmpty(Step(db, e), id, events[1..]); }
    }
  }

  lemma StepStaysEmpty(db: Db, id: Id, e: Event)
    requires Empty(db, id) && ((e.Edited? || e.Rewritten?) ==> e.id != id)
    ensures id in Step(db, e).messages ==> Empty(Step(db, e), id)
  {
    hide NewObjects, CopiesOf, EditMessage, Delete, Copied, Blanked, Rewrite, DeleteMessages, DropChannels,
         ChannelDeleteBlock, TeamDeleteBlock, FileVersions.ApplyChange, Purge, References,
         Insert, NewMessage, WithThumbnail, FirstVersion;
    if Enabled(db, e) {
      match e
      case Edited(other, read, body, metadata, now) => EditSpares(db, other, read, body, metadata, now, id);
      case Rewritten(other, body, metadata, now) => RewriteLeaves(db, other, body, metadata, now, id);
        RewriteSpares(db, other, body, metadata, now);
      case Deleted(other, read, recalled, now) => DeletionLeavesNoText(db, other, read, recalled, now);
      case DeletionCopies(other, read, recalled) => CopyLeaves(db, other, read, recalled);
      case DeletionBlanks(other, read, recalled, now) => BlankSpares(db, other, read, recalled, now, id);
      case Purged(scope, cutoff, now, broken) => PurgeSpares(db, scope, cutoff, now, broken, id);
      case DropChannel(channel) => DropSpares(db, id, {channel});
      case DropTeam(team) => DropSpares(db, id, ChannelsOf(db, team));
      case TakenBack(root) => TakeBackSpares(db, id, root);
      case Change(att, change) => ChangeSpares(db, att, change);
      case Post(other, message, _, _) => InsertSpares(db, other, message, id);
      case Forward(_, other, message, _, _) => InsertSpares(db, other, message, id);
      case Recorded(_, _, other, message, _, _) => InsertSpares(db, other, message, id);
      case Thumbnailed(att, thumb) => ThumbnailSpares(db, att, thumb);
      case _ =>
    }
  }

  lemma InsertSpares(db: Db, id: Id, message: Message, other: Id)
    requires NewMessage(db, id, message) && Empty(db, other)
    ensures Empty(Insert(db, id, message), other)
  {
  }

  lemma ThumbnailSpares(db: Db, att: Id, thumb: Option<string>)
    requires att in db.attachments
    ensures SameMessages(db, WithThumbnail(db, att, thumb))
  {
  }

  lemma EditSpares(db: Db, id: Id, read: Message, body: string, metadata: Option<string>, now: string, other: Id)
    requires other in db.messages && other != id
    ensures var db' := EditMessage(db, id, read, body, metadata, now);
            && other in db'.messages && db'.messages[other] == db.messages[other]
            && db'.EditsOf(other) == db.EditsOf(other) && db'.indexed == db.indexed
  {
  }

  lemma RewriteSpares(db: Db, id: Id, body: string, metadata: Option<string>, now: string)
    requires id in db.messages
    ensures Rewrite(db, id, body, metadata, now).indexed == db.indexed
  {
  }

  lemma BlankSpares(db: Db, id: Id, read: Message, recalled: bool, now: string, other: Id)
    requires Empty(db, other)
    ensures Empty(Blanked(db, id, read, recalled, now), other)
  {
  }

  lemma PurgeSpares(db: Db, scope: Retention.Scope, cutoff: string, now: string, broken: set<Object>, id: Id)
    requires Empty(db, id)
    ensures id in Purge(db, scope, cutoff, now, broken).messages ==> Empty(Purge(db, scope, cutoff, now, broken), id)
  {
    hide GoneSet, Expired, References;
  }

  lemma DropSpares(db: Db, id: Id, channels: set<Id>)
    ensures var db' := DropChannels(db, channels);
            db'.indexed == db.indexed && (id in db'.messages ==>
              id in db.messages && db'.messages[id] == db.messages[id] && db'.EditsOf(id) == db.EditsOf(id))
  {
    hide Under, MessagesIn;
  }

  lemma TakeBackSpares(db: Db, id: Id, root: Id)
    ensures var db' := DeleteMessages(db, {root});
            db'.indexed == db.indexed && (id in db'.messages ==>
              id in db.messages && db'.messages[id] == db.messages[id] && db'.EditsOf(id) == db.EditsOf(id))
  {
    hide Under;
  }

  lemma ChangeSpares(db: Db, att: Id, change: FileVersions.Change)
    ensures change.Upload? ==>
            var stored := db.stored + FileVersions.FromUpload(change.upload).Objects();
            SameMessages(db, FileVersions.ApplyChange(db.(stored := stored), att, change))
    ensures SameMessages(db, FileVersions.ApplyChange(db, att, change))
  {
  }

  predicate SameMessages(db: Db, db': Db) {
    db'.messages == db.messages && db'.edits == db.edits && db'.indexed == db.indexed
  }
}
