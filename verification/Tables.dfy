/** The database rows behind messages, files and legal hold, as maps from primary keys, with the
    cascades their foreign keys declare, and the file storage they point into. */
module Tables {
  import opened Common
  import Text

  type Id = nat

  datatype Message = Message(
    channel: Option<Id>, chat: Option<Id>, author: Option<Id>,
    body: string, metadata: Option<string>, parent: Option<Id>,
    edited: bool, deleted: bool, createdAt: string, updatedAt: string)

  // A message_edits row: the version an edit replaced.
  datatype Edit = Edit(body: string, metadata: Option<string>, replacedAt: string)

  // The columns that describe one stored file, wherever it is recorded.
  datatype File = File(
    filename: string, storageKey: Option<string>, originalName: string, mimeType: Option<string>,
    size: Option<nat>, thumbKey: Option<string>, thumbState: Option<string>)
  {
    // COALESCE(storage_key, filename)
    function Key(): string { storageKey.GetOr(filename) }

    // An empty key names no object.
    function Objects(): set<Object> {
      (if Key() != "" then {Stored(Key())} else {}) +
      (if thumbKey.Some? && thumbKey.value != "" then {Thumbnail(thumbKey.value)} else {})
    }
  }

  // The attachments row is always the current version.
  datatype Attachment = Attachment(
    message: Id, file: File, uploadedBy: Option<Id>, createdAt: string,
    versionNo: nat, versionBy: Option<Id>, versionAt: Option<string>, comment: Option<string>)

  // attachment_versions is keyed by (attachment_id, version_no).
  datatype VersionKey = VersionKey(attachment: Id, no: nat)
  datatype Version = Version(file: File, uploadedBy: Option<Id>, uploadedAt: string, comment: Option<string>)

  datatype HoldScope = Person | Channel | Chat
  datatype Hold = Hold(scope: HoldScope, scopeId: Id, released: bool)

  datatype Participant = Participant(chat: Id, user: Id)

  // A preserved_messages row. `file` lists what the copy names as the message's files.
  datatype Preserved = Preserved(
    message: Id, holds: seq<Id>, author: Option<Id>, channel: Option<Id>, chat: Option<Id>,
    body: string, metadata: Option<string>, edits: seq<Edit>, files: set<string>, recalled: bool)

  // What the file storage holds: uploaded files and recordings, and the thumbnails made from them.
  datatype Object = Stored(key: string) | Thumbnail(key: string)

  datatype Db = Db(
    messages: map<Id, Message>,
    edits: map<Id, seq<Edit>>,             // message -> its edits, oldest first; no key when none
    attachments: map<Id, Attachment>,
    versions: map<VersionKey, Version>,
    recordings: map<Id, string>,           // recording -> storage key
    holds: map<Id, Hold>,
    participants: set<Participant>,
    channelTeam: map<Id, Id>,              // channel -> team
    preserved: seq<Preserved>,
    stored: set<Object>,                   // the file storage
    indexed: set<Id>)                      // the search index
  {
    // The message_edits rows of one message.
    function EditsOf(id: Id): seq<Edit> {
      if id in edits then edits[id] else []
    }
  }

  /** Every object some attachment, file version or recording uses. */
  function References(db: Db): set<Object> {
    ReferencesIn(db.attachments, db.versions, db.recordings)
  }

  function ReferencesIn(attachments: map<Id, Attachment>, versions: map<VersionKey, Version>, recordings: map<Id,
                        string>): set<Object> {
    (set a, o | a in attachments && o in attachments[a].file.Objects() :: o) +
    (set v, o | v in versions && o in versions[v].file.Objects() :: o) +
    (set r | r in recordings :: Stored(recordings[r]))
  }

  const MAX_VERSIONS: nat := 50

  /** What the schema's keys and the way rows are made guarantee. A row's parent is checked when it is
      inserted and never changed, so it is an earlier row, with a smaller serial id, or the row itself:
      nothing stops a request from naming the id its own row is about to get. */
  ghost predicate ValidRows(db: Db) {
    && (forall id | id in db.messages && db.messages[id].parent.Some? ::
          db.messages[id].parent.value in db.messages && db.messages[id].parent.value <= id)
    && (forall id | id in db.edits :: id in db.messages)
    && (forall a | a in db.attachments :: db.attachments[a].message in db.messages)
    && ValidVersions(db)
  }

  /** Kept versions are numbered exactly 1 .. version_no - 1, and there are at most 50 in all. */
  ghost predicate ValidVersions(db: Db) {
    && (forall v | v in db.versions ::
          v.attachment in db.attachments && 1 <= v.no < db.attachments[v.attachment].versionNo)
    && (forall a, n: nat {:trigger VersionKey(a, n)} | a in db.attachments && 1 <= n < db.attachments[a].versionNo ::
          VersionKey(a, n) in db.versions)
    && (forall a | a in db.attachments :: 1 <= db.attachments[a].versionNo <= MAX_VERSIONS)
  }

  // ---------------------------------------------------------------------------- reply trees

  predicate ChildOf(db: Db, child: Id, id: Id) {
    child in db.messages && db.messages[child].parent == Some(id)
  }

  predicate HasReplies(db: Db, id: Id) {
    exists child :: child in db.messages && ChildOf(db, child, id)
  }

  /** The row names itself as the message it answers. */
  predicate OwnParent(db: Db, id: Id) {
    ChildOf(db, id, id)
  }

  /** `id` is `root` or in the reply tree under it. */
  predicate Under(db: Db, id: Id, root: Id)
    decreases id
  {
    id in db.messages &&
    (id == root ||
     (db.messages[id].parent.Some? && db.messages[id].parent.value < id
     && Under(db, db.messages[id].parent.value, root)))
  }

  lemma {:induction false} UnderTrans(db: Db, id: Id, mid: Id, root: Id)
    requires Under(db, id, mid) && Under(db, mid, root)
    ensures Under(db, id, root)
    decreases id
  {
    if id != mid {
      UnderTrans(db, db.messages[id].parent.value, mid, root);
    }
  }

  /** Someone strictly below `root` is below one of its direct replies. */
  lemma {:induction false} UnderChild(db: Db, id: Id, root: Id) returns (child: Id)
    requires Under(db, id, root) && id != root
    ensures ChildOf(db, child, root) && Under(db, id, child)
    decreases id
  {
    var p := db.messages[id].parent.value;
    if p == root {
      child := id;
    } else {
      child := UnderChild(db, p, root);
    }
  }

  // ---------------------------------------------------------------------------- deleting rows

  /** The rows left when these messages are gone: edits, attachments and their versions cascade. */
  function WithoutMessages(db: Db, gone: set<Id>): Db {
    WithoutFilesAndEdits(db, gone).(messages := db.messages - gone)
  }

  /** The rows left when these messages lose their attachments (and versions) and edit history. */
  function WithoutFilesAndEdits(db: Db, ids: set<Id>): Db {
    WithoutAttachments(db, ids).(edits := db.edits - ids)
  }

  function WithoutAttachments(db: Db, ids: set<Id>): Db {
    db.(attachments := map a | a in db.attachments && db.attachments[a].message !in ids :: db.attachments[a],
        versions := map v | v in db.versions && !(v.attachment in db.attachments
          && db.attachments[v.attachment].message in ids)
                      :: db.versions[v])
  }

  /** DELETE FROM messages WHERE id IN (ids): parent_message_id cascades, so reply trees go too. */
  function Cascade(db: Db, ids: set<Id>): set<Id> {
    set id | id in db.messages && exists root :: root in ids && Under(db, id, root)
  }

  function DeleteMessages(db: Db, ids: set<Id>): Db {
    WithoutMessages(db, Cascade(db, ids))
  }

  /** Messages without replies take nothing else along. */
  lemma DeleteLeaves(db: Db, ids: set<Id>)
    requires forall id | id in ids :: id in db.messages && !HasReplies(db, id)
    ensures DeleteMessages(db, ids) == WithoutMessages(db, ids)
  {
    forall id | id in db.messages
      ensures id in Cascade(db, ids) <==> id in ids
    {
      if id in ids {
        assert Under(db, id, id);
      } else if root :| root in ids && Under(db, id, root) {
        var child := UnderChild(db, id, root);
        assert false;
      }
    }
    assert Cascade(db, ids) == ids;
  }

  /** Dropping a set of messages that contains every reply to its members keeps the rows valid. */
  lemma WithoutMessagesValid(db: Db, gone: set<Id>)
    requires ValidRows(db)
    requires forall id | id in db.messages && db.messages[id].parent.Some? && db.messages[id].parent.value in gone ::
               id in gone
    ensures ValidRows(WithoutMessages(db, gone))
  {
  }

  lemma CascadeValid(db: Db, ids: set<Id>)
    requires ValidRows(db)
    ensures ValidRows(DeleteMessages(db, ids))
  {
    var gone := Cascade(db, ids);
    forall id | id in db.messages && db.messages[id].parent.Some? && db.messages[id].parent.value in gone
      ensures id in gone
    {
      var p := db.messages[id].parent.value;
      var root :| root in ids && Under(db, p, root);
      assert p == id || Under(db, id, root);
    }
    WithoutMessagesValid(db, gone);
  }

  // ---------------------------------------------------------------------------- the live database

  /** The database and the file storage the modules below read and change. */
  class Database {
    var messages: map<Id, Message>
    var edits: map<Id, seq<Edit>>
    var attachments: map<Id, Attachment>
    var versions: map<VersionKey, Version>
    var recordings: map<Id, string>
    var holds: map<Id, Hold>
    var participants: set<Participant>
    var channelTeam: map<Id, Id>
    var preserved: seq<Preserved>
    var stored: set<Object>
    var indexed: set<Id>

    function Rows(): Db
      reads this
    {
      Db(messages, edits, attachments, versions, recordings, holds, participants, channelTeam, preserved, stored,
        indexed)
    }
  }
}
