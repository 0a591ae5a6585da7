/** Everything that changes messages' text and rows, their files, and holds, one request or run at a
    time: whatever their order, no stored object still used is ever deleted. */
module StoreRuns {
  import opened Common
  import opened Tables
  import opened LegalHold
  import opened EditHistory
  import opened MessageDelete
  import opened FileVersions
  import opened Retention
  import opened RetentionLaws

  datatype Event =
    | Post(id: Id, message: Message, att: Id, upload: Option<File>)
    | Edited(id: Id, read: Message, body: string, metadata: Option<string>, now: string)
    | Forward(source: Id, id: Id, message: Message, copies: map<Id, Id>, now: string)
    | Rewritten(id: Id, body: string, metadata: Option<string>,
      now: string)   // a call's or a card's own post, in place
    | TakenBack(id: Id)                                                        // a new message whose upload failed
    | Change(att: Id, change: FileVersions.Change)
    | Deleted(id: Id, read: Message, recalled: bool, now: string)              // `read`: the row as the request read it
    | DeletionCopies(id: Id, read: Message, recalled: bool)                    // the same with something between its
    | DeletionBlanks(id: Id, read: Message, recalled: bool, now: string)       // halves
    | Thumbnailed(att: Id, thumb: Option<string>)                              // an old picture gets its thumbnail
    | Purged(scope: Retention.Scope, cutoff: string, now: string, broken: set<Object>)
    | Recorded(recording: Id, key: string, id: Id, message: Message, att: Id, file: File)
    | PlaceHold(h: Id, hold: Hold)
    | ReleaseHold(h: Id)
    | AddParticipant(p: Participant)
    | DropChannel(channel: Id)
    | DropTeam(team: Id)

  /** A new row's serial id is larger than any given out before. */
  predicate NewMessage(db: Db, id: Id, message: Message) {
    && (forall m | m in db.messages :: m < id)
    && id !in db.edits && !message.deleted
    && (message.parent.Some? ==> message.parent.value in db.messages || message.parent.value == id)
  }

  /** An upload's key is made fresh, and the thumbnail's key from it. */
  predicate NewObjects(db: Db, file: File) {
    file.Objects() !! db.stored && file.Objects() !! References(db)
  }

  function FirstVersion(message: Id, file: File, owner: Option<Id>, now: string): Attachment {
    Attachment(message, file, owner, now, 1, None, None, None)
  }

  // The attachments of a forwarded copy: each of the source's current files once, as a first version.
  predicate CopiesOf(db: Db, source: Id, copies: map<Id, Id>) {
    && (forall n | n in copies ::
          n !in db.attachments && copies[n] in db.attachments && db.attachments[copies[n]].message == source)
    && (forall a | a in db.attachments && db.attachments[a].message == source ::
          exists n :: n in copies && copies[n] == a)
  }

  /** Whether the request gets through to the database at all. */
  predicate Enabled(db: Db, e: Event) {
    match e
    case Post(id, message, att, file) =>
      NewMessage(db, id, message) && (file.Some? ==> att !in db.attachments && NewObjects(db, file.value))
    case Forward(source, id, message, copies, _) =>
      source in db.messages && !db.messages[source].deleted && NewMessage(db, id, message) && message.parent == None
        && CopiesOf(db, source, copies)
    case Change(att, change) =>
      att in db.attachments && db.attachments[att].message in db.messages
        && !db.messages[db.attachments[att].message].deleted &&
      (change.Upload? ==> NewObjects(db, FromUpload(change.upload)))
    case Rewritten(id, _, _, _) => id in db.messages
    case TakenBack(id) => id in db.messages
    case Deleted(id, _, _, _) => id in db.messages
    case DeletionCopies(id, _, _) => id in db.messages
    case DeletionBlanks(id, _, _, _) => id in db.messages
    case Thumbnailed(att, _) => att in db.attachments
    case Recorded(recording, key, id, message, att, file) =>
      recording !in db.recordings && NewMessage(db, id, message) && att !in db.attachments &&
      file.Key() == key && key != "" && file.thumbKey == None && NewObjects(db, file)
    case PlaceHold(h, hold) => h !in db.holds && !hold.released
    case ReleaseHold(h) => h in db.holds
    case _ => true
  }

  function Insert(db: Db, id: Id, message: Message): Db {
    db.(messages := db.messages[id := message], indexed := db.indexed + {id})
  }

  /** updatePost, the sweep of stale meeting posts and resolveDecomCards: the row's text or metadata
      changes with no edit kept, whatever the row's state. */
  function Rewrite(db: Db, id: Id, body: string, metadata: Option<string>, now: string): Db
    requires id in db.messages
  {
    db.(messages := db.messages[id := db.messages[id].(body := body, metadata := metadata, updatedAt := now)])
  }

  /** backfillThumbnails: the thumbnail stored, if one could be made, and the row's columns set. */
  function WithThumbnail(db: Db, att: Id, thumb: Option<string>): Db
    requires att in db.attachments
  {
    var file := db.attachments[att].file.(thumbKey := thumb, thumbState := Some(if thumb.Some? then "done"
      else "none"));
    db.(attachments := db.attachments[att := db.attachments[att].(file := file)],
        stored := db.stored + if thumb.Some? then {Thumbnail(thumb.value)} else {})
  }

  ghost function Perform(db: Db, e: Event): Db
    requires Enabled(db, e)
  {
    match e
    case Post(id, message, att, file) =>
      if file == None then Insert(db, id, message)
      else Insert(db, id, message).(attachments := db.attachments[att := FirstVersion(id, file.value, message.author,
        message.createdAt)],
                                    stored := db.stored + file.value.Objects())
    case Edited(id, read, body, metadata, now) => EditMessage(db, id, read, body, metadata, now)
    case Forward(source, id, message, copies, now) =>
      Insert(db, id, message).(attachments := db.attachments + map n | n in copies ::
        FirstVersion(id, db.attachments[copies[n]].file, message.author, now))
    case Rewritten(id, body, metadata, now) => Rewrite(db, id, body, metadata, now)
    case TakenBack(id) => DeleteMessages(db, {id})
    case Change(att, change) =>
      ApplyChange(if change.Upload? then db.(stored := db.stored + FromUpload(change.upload).Objects())
        else db, att, change)
    case Deleted(id, read, recalled, now) => Delete(db, id, read, recalled, now)
    case DeletionCopies(id, read, recalled) => Copied(db, id, read, recalled)
    case DeletionBlanks(id, read, recalled, now) => Blanked(db, id, read, recalled, now)
    case Thumbnailed(att, thumb) => WithThumbnail(db, att, thumb)
    case Purged(scope, cutoff, now, broken) => Purge(db, scope, cutoff, now, broken)
    case Recorded(recording, key, id, message, att, file) =>
      Insert(db, id, message).(attachments := db.attachments[att := FirstVersion(id, file, message.author,
        message.createdAt)],
                               recordings := db.recordings[recording := key], stored := db.stored + {Stored(key)})
    case PlaceHold(h, hold) => db.(holds := db.holds[h := hold])
    case ReleaseHold(h) => db.(holds := db.holds[h := db.holds[h].(released := true)])
    case AddParticipant(p) => db.(participants := db.participants + {p})
    case DropChannel(channel) => DeleteChannel(db, channel)
    case DropTeam(team) => DeleteTeam(db, team)
  }

  ghost function Step(db: Db, e: Event): Db {
    if Enabled(db, e) then Perform(db, e) else db
  }

  ghost function Run(db: Db, events: seq<Event>): Db
    decreases |events|
  {
    if events == [] then db else Run(Step(db, events[0]), events[1..])
  }

  // ---------------------------------------------------------------------------- files are safe

  /** The rows are sound, and everything an attachment, a version or a recording uses is stored. */
  ghost predicate Sound(db: Db) {
    ValidRows(db) && References(db) <= db.stored
  }

  lemma {:induction false} RunSound(db: Db, events: seq<Event>)
    requires Sound(db)
    ensures Sound(Run(db, events))
    decreases |events|
  {
    if events != [] {
      StepSound(db, events[0]);
      RunSound(Step(db, events[0]), events[1..]);
    }
  }

  lemma StepSound(db: Db, e: Event)
    requires Sound(db)
    ensures Sound(Step(db, e))
  {
    hide Delete, Copied, Blanked, WithThumbnail, Purge, ApplyChange, Rewrite, DeleteMessages, DropChannels,
         ChannelDeleteBlock, TeamDeleteBlock, EditMessage, References, ValidRows, NewMessage, NewObjects, CopiesOf;
    if Enabled(db, e) {
      match e
      case Post(id, message, att, file) => PostSound(db, id, message, att, file);
      case Edited(id, read, body, metadata, now) => EditSound(db, id, read, body, metadata, now);
      case Forward(source, id, message, copies, now) => ForwardSound(db, source, id, message, copies, now);
      case Rewritten(id, body, metadata, now) => RewriteSound(db, id, body, metadata, now);
      case TakenBack(id) => TakeBackSound(db, id);
      case Change(att, change) => ChangeSound(db, att, change);
      case Deleted(id, read, recalled, now) => DeleteSound(db, id, read, recalled, now);
      case DeletionCopies(id, read, recalled) => HalvesSound(db, id, read, recalled, "");
      case DeletionBlanks(id, read, recalled, now) => HalvesSound(db, id, read, recalled, now);
      case Thumbnailed(att, thumb) => ThumbnailSound(db, att, thumb);
      case Purged(scope, cutoff, now, broken) => PurgeSound(db, scope, cutoff, now, broken);
      case Recorded(recording, key, id, message, att, file) => RecordSound(db, recording, key, id, message, att, file);
      case DropChannel(channel) => DropSound(db, {channel});
      case DropTeam(team) => DropSound(db, ChannelsOf(db, team));
      case PlaceHold(_, _) => SameTables(db, Perform(db, e));
      case ReleaseHold(_) => SameTables(db, Perform(db, e));
      case AddParticipant(_) => SameTables(db, Perform(db, e));
    }
  }

  lemma SameTables(db: Db, db': Db)
    requires Sound(db) && db'.messages == db.messages && db'.edits == db.edits && db'.attachments == db.attachments
    requires db'.versions == db.versions && db'.recordings == db.recordings && db'.stored == db.stored
    ensures Sound(db')
  {
  }

  lemma InsertSound(db: Db, id: Id, message: Message)
    requires Sound(db) && NewMessage(db, id, message)
    ensures Sound(Insert(db, id, message))
  {
  }

  /** Attaching new first versions to a message. */
  lemma AttachSound(db: Db, more: map<Id, Attachment>)
    requires Sound(db) && more.Keys !! db.attachments.Keys
    requires forall n | n in more ::
               more[n].message in db.messages && more[n].versionNo == 1 && more[n].file.Objects() <= db.stored
    ensures Sound(db.(attachments := db.attachments + more))
  {
    AttachValid(db, more);
    AttachUses(db, more);
  }

  lemma AttachValid(db: Db, more: map<Id, Attachment>)
    requires ValidRows(db) && more.Keys !! db.attachments.Keys
    requires forall n | n in more :: more[n].message in db.messages && more[n].versionNo == 1
    ensures ValidRows(db.(attachments := db.attachments + more))
  {
    var db' := db.(attachments := db.attachments + more);
    forall a, n: nat | a in db'.attachments && 1 <= n < db'.attachments[a].versionNo
      ensures VersionKey(a, n) in db'.versions {
      assert a in db.attachments;
    }
    forall v | v in db'.versions
      ensures v.attachment in db'.attachments && 1 <= v.no < db'.attachments[v.attachment].versionNo {
      assert v.attachment !in more;
    }
  }

  lemma AttachUses(db: Db, more: map<Id, Attachment>)
    requires References(db) <= db.stored
    requires forall n | n in more :: more[n].file.Objects() <= db.stored
    ensures References(db.(attachments := db.attachments + more)) <= db.stored
  {
    var db' := db.(attachments := db.attachments + more);
    forall o | o in References(db') ensures o in db.stored {
      if a :| a in db'.attachments && o in db'.attachments[a].file.Objects() && a !in more {
        assert a in db.attachments && o in References(db);
      } else if a :| a in more && o in more[a].file.Objects() {
      } else {
        assert o in References(db);
      }
    }
  }

  lemma StoreSound(db: Db, objects: set<Object>)
    requires Sound(db)
    ensures Sound(db.(stored := db.stored + objects))
  {
  }

  lemma RecordingSound(db: Db, recording: Id, key: string)
    requires Sound(db) && Stored(key) in db.stored && recording !in db.recordings
    ensures Sound(db.(recordings := db.recordings[recording := key]))
  {
    var db' := db.(recordings := db.recordings[recording := key]);
    assert References(db') <= References(db) + {Stored(key)};
  }

  lemma PostSound(db: Db, id: Id, message: Message, att: Id, file: Option<File>)
    requires Sound(db) && Enabled(db, Post(id, message, att, file))
    ensures Sound(Perform(db, Post(id, message, att, file)))
  {
    hide ValidRows, References, Sound;
    InsertSound(db, id, message);
    if file.Some? {
      StoreSound(Insert(db, id, message), file.value.Objects());
      var first := FirstVersion(id, file.value, message.author, message.createdAt);
      var mid := Insert(db, id, message).(stored := db.stored + file.value.Objects());
      AttachSound(mid, map[att := first]);
      assert mid.attachments + map[att := first] == mid.attachments[att := first];
    }
  }

  lemma ForwardSound(db: Db, source: Id, id: Id, message: Message, copies: map<Id, Id>, now: string)
    requires Sound(db) && Enabled(db, Forward(source, id, message, copies, now))
    ensures Sound(Perform(db, Forward(source, id, message, copies, now)))
  {
    InsertSound(db, id, message);
    var more := map n | n in copies :: FirstVersion(id, db.attachments[copies[n]].file, message.author, now);
    forall n | n in more ensures more[n].file.Objects() <= db.stored {
      forall o | o in more[n].file.Objects() ensures o in References(db) {
        assert o in db.attachments[copies[n]].file.Objects();
      }
    }
    AttachSound(Insert(db, id, message), more);
  }

  lemma RecordSound(db: Db, recording: Id, key: string, id: Id, message: Message, att: Id, file: File)
    requires Sound(db) && Enabled(db, Recorded(recording, key, id, message, att, file))
    ensures Sound(Perform(db, Recorded(recording, key, id, message, att, file)))
  {
    var posted := Post(id, message, att, Some(file));
    assert file.Objects() == {Stored(key)};
    hide ValidRows, References, Sound, Insert, NewMessage, NewObjects;
    PostSound(db, id, message, att, Some(file));
    RecordingSound(Perform(db, posted), recording, key);
  }

  lemma EditSound(db: Db, id: Id, read: Message, body: string, metadata: Option<string>, now: string)
    requires Sound(db)
    ensures Sound(EditMessage(db, id, read, body, metadata, now))
  {
  }

  lemma RewriteSound(db: Db, id: Id, body: string, metadata: Option<string>, now: string)
    requires Sound(db) && id in db.messages
    ensures Sound(Rewrite(db, id, body, metadata, now))
  {
  }

  lemma TakeBackSound(db: Db, id: Id)
    requires Sound(db)
    ensures Sound(DeleteMessages(db, {id}))
  {
    hide ValidRows, ReferencesIn, Cascade;
    CascadeValid(db, {id});
    ReferencesSplit(db, Cascade(db, {id}));
  }

  lemma DeleteSound(db: Db, id: Id, read: Message, recalled: bool, now: string)
    requires Sound(db) && id in db.messages
    ensures Sound(Delete(db, id, read, recalled, now))
  {
  }

  lemma HalvesSound(db: Db, id: Id, read: Message, recalled: bool, now: string)
    requires Sound(db) && id in db.messages
    ensures Sound(Copied(db, id, read, recalled)) && Sound(Blanked(db, id, read, recalled, now))
  {
    hide HoldsFor, Copy;
  }

  lemma ThumbnailSound(db: Db, att: Id, thumb: Option<string>)
    requires Sound(db) && att in db.attachments
    ensures Sound(WithThumbnail(db, att, thumb))
  {
    var db' := WithThumbnail(db, att, thumb);
    forall o | o in References(db') ensures o in db'.stored {
      if a :| a in db'.attachments && o in db'.attachments[a].file.Objects() {
        assert o in db.attachments[a].file.Objects() || (a == att && thumb.Some? && o == Thumbnail(thumb.value));
        assert o in db.attachments[a].file.Objects() ==> o in References(db);
      } else {
        assert o in References(db);
      }
    }
    hide References, ValidVersions;
  }

  lemma PurgeSound(db: Db, scope: Retention.Scope, cutoff: string, now: string, broken: set<Object>)
    requires Sound(db)
    ensures Sound(Purge(db, scope, cutoff, now, broken))
  {
    hide ValidRows, RowsAfter, References;
    PurgeValid(db, scope, cutoff, now, broken);
    forall o | o in References(Purge(db, scope, cutoff, now, broken))
      ensures o in Purge(db, scope, cutoff, now, broken).stored {
      PurgeShrinksUse(db, scope, cutoff, now, broken);
      StorageFollowsUse(db, scope, cutoff, now, broken, o);
    }
  }

  lemma PurgeShrinksUse(db: Db, scope: Retention.Scope, cutoff: string, now: string, broken: set<Object>)
    ensures References(Purge(db, scope, cutoff, now, broken)) <= References(db)
  {
    ReferencesSplit(db, GoneSet(db, scope, cutoff) + ClearedSet(db, scope, cutoff));
  }

  lemma DropSound(db: Db, channels: set<Id>)
    requires Sound(db)
    ensures Sound(DropChannels(db, channels))
  {
    hide ValidRows, ReferencesIn, Cascade, MessagesIn;
    CascadeValid(db, MessagesIn(db, channels));
    TeamsIrrelevant(DeleteMessages(db, MessagesIn(db, channels)), db.channelTeam - channels);
    ReferencesSplit(db, Cascade(db, MessagesIn(db, channels)));
  }

  lemma TeamsIrrelevant(db: Db, channelTeam: map<Id, Id>)
    requires ValidRows(db)
    ensures ValidRows(db.(channelTeam := channelTeam))
  {
  }

  lemma ChangeSound(db: Db, att: Id, change: FileVersions.Change)
    requires Sound(db) && Enabled(db, Change(att, change))
    ensures Sound(Perform(db, Change(att, change)))
  {
    var start := if change.Upload? then db.(stored := db.stored + FromUpload(change.upload).Objects()) else db;
    assert Sound(start);
    OneChange(start, att, change);
    if change.Upload? {
      ReplaceUses(start, att, FromUpload(change.upload), change.byUser, change.comment, change.now);
    } else if VersionKey(att, change.no) in start.versions {
      assert start.versions[VersionKey(att, change.no)].file.Objects() <= References(start);
      ReplaceUses(start, att, FromVersion(start.versions[VersionKey(att, change.no)]), change.byUser,
        Some(RestoredNote(change.no)), change.now);
    }
  }

  /** Replacing a file drops no use: the replaced one is kept, the new one added. */
  lemma ReplaceUses(db: Db, a: Id, next: File, byUser: Id, comment: Option<string>, now: string)
    requires ValidRows(db)
    ensures var outcome := ReplaceCurrent(db, a, next, byUser, comment, now);
            outcome.Replaced? ==>
              References(outcome.db) == References(db) + next.Objects() && outcome.db.stored == db.stored
  {
    var outcome := ReplaceCurrent(db, a, next, byUser, comment, now);
    if outcome.Replaced? {
      KeepAndAdd(db, outcome.db, a, AsKept(db.attachments[a]), next);
    }
  }

  lemma KeepAndAdd(db: Db, db': Db, a: Id, v: Version, next: File)
    requires a in db.attachments && v.file == db.attachments[a].file
             && VersionKey(a, db.attachments[a].versionNo) !in db.versions
    requires db'.versions == db.versions[VersionKey(a, db.attachments[a].versionNo) := v]
             && db'.recordings == db.recordings
    requires db'.attachments.Keys == db.attachments.Keys && db'.attachments[a].file.Objects() == next.Objects()
    requires forall b | b in db.attachments && b != a :: db'.attachments[b] == db.attachments[b]
    ensures References(db') == References(db) + next.Objects()
  {
    NoUseDropped(db, db', a, v, next);
    OnlyNextAdded(db, db', a, v, next);
    hide References;
  }

  lemma NoUseDropped(db: Db, db': Db, a: Id, v: Version, next: File)
    requires a in db.attachments && v.file == db.attachments[a].file
             && VersionKey(a, db.attachments[a].versionNo) !in db.versions
    requires db'.versions == db.versions[VersionKey(a, db.attachments[a].versionNo) := v]
             && db'.recordings == db.recordings
    requires db'.attachments.Keys == db.attachments.Keys && db'.attachments[a].file.Objects() == next.Objects()
    requires forall b | b in db.attachments && b != a :: db'.attachments[b] == db.attachments[b]
    ensures References(db) + next.Objects() <= References(db')
  {
    var kept := VersionKey(a, db.attachments[a].versionNo);
    forall o | o in References(db) + next.Objects() ensures o in References(db') {
      if o in next.Objects() {
        assert o in db'.attachments[a].file.Objects();
      } else if b :| b in db.attachments && o in db.attachments[b].file.Objects() {
        assert if b == a then o in db'.versions[kept].file.Objects() else o in db'.attachments[b].file.Objects();
      } else if v :| v in db.versions && o in db.versions[v].file.Objects() {
        assert o in db'.versions[v].file.Objects();
      }
    }
  }

  lemma OnlyNextAdded(db: Db, db': Db, a: Id, v: Version, next: File)
    requires a in db.attachments && v.file == db.attachments[a].file
             && VersionKey(a, db.attachments[a].versionNo) !in db.versions
    requires db'.versions == db.versions[VersionKey(a, db.attachments[a].versionNo) := v]
             && db'.recordings == db.recordings
    requires db'.attachments.Keys == db.attachments.Keys && db'.attachments[a].file.Objects() == next.Objects()
    requires forall b | b in db.attachments && b != a :: db'.attachments[b] == db.attachments[b]
    ensures References(db') <= References(db) + next.Objects()
  {
    var kept := VersionKey(a, db.attachments[a].versionNo);
    forall o | o in References(db') ensures o in References(db) + next.Objects() {
      if b :| b in db'.attachments && o in db'.attachments[b].file.Objects() {
        assert b == a || o in db.attachments[b].file.Objects();
      } else if v :| v in db'.versions && o in db'.versions[v].file.Objects() {
        assert if v == kept then o in db.attachments[a].file.Objects() else o in db.versions[v].file.Objects();
      }
    }
  }
}
