/** Message retention: a run over one scope (channels, or chats) deletes what is past the limit in
    batches, and removes the stored files nothing uses any more. */
module Retention {
  import opened Common
  import opened Tables
  import opened LegalHold
  import Text

  datatype Scope = Channels | Chats

  const BATCH: nat := 500

  predicate PendingCard(m: Message) {
    m.metadata.Some? && Text.Contains(m.metadata.value, "\"cardType\"")
      && Text.Contains(m.metadata.value, "\"status\":\"pending\"")
  }

  /** expiredSql: the row is past its scope's limit and may go. */
  predicate Expired(db: Db, scope: Scope, cutoff: string, m: Message) {
    && (match scope case Channels => m.channel.Some? case Chats => m.chat.Some?)
    && Text.Less(m.createdAt, cutoff) && !PendingCard(m) && !Held(db, m)
  }

  // ---------------------------------------------------------------------------- what a run does

  /** A message should go when it and its whole reply tree may go. */
  ghost predicate Doomed(db: Db, scope: Scope, cutoff: string, id: Id) {
    id in db.messages && forall d | d in db.messages && Under(db, d, id) :: Expired(db, scope, cutoff, db.messages[d])
  }

  /** What a run deletes: the first loop wants rows nothing answers, and so never sees one that answers itself. */
  ghost function GoneSet(db: Db, scope: Scope, cutoff: string): set<Id> {
    set id | id in db.messages && Doomed(db, scope, cutoff, id) && !OwnParent(db, id)
  }

  predicate Clearable(db: Db, scope: Scope, cutoff: string, id: Id) {
    id in db.messages && Expired(db, scope, cutoff, db.messages[id]) && db.messages[id].parent == None
      && !db.messages[id].deleted
  }

  /** A post that may go but is kept for its thread is cleared. */
  ghost function ClearedSet(db: Db, scope: Scope, cutoff: string): set<Id> {
    set id | id in db.messages && id !in GoneSet(db, scope, cutoff) && Clearable(db, scope, cutoff, id)
  }

  function Blank(m: Message, now: string): Message {
    m.(deleted := true, body := "", metadata := None, updatedAt := now)
  }

  /** The rows without the messages in `gone`, those in `cleared` blanked, and neither's edits or files. */
  function RowsAfter(db: Db, gone: set<Id>, cleared: set<Id>, now: string): Db {
    WithoutFilesAndEdits(db, gone + cleared).(
      messages := map id | id in db.messages && id !in gone ::
        if id in cleared then Blank(db.messages[id], now) else db.messages[id])
  }

  /** The same with the stored objects that nothing uses any more gone too, except those whose deletion
      failed (`broken`), and the search entries. */
  function After(db: Db, gone: set<Id>, cleared: set<Id>, now: string, broken: set<Object>): Db {
    var rows := RowsAfter(db, gone, cleared, now);
    rows.(stored := db.stored - Released(db, rows, broken), indexed := db.indexed - gone - cleared)
  }

  function Released(before: Db, after: Db, broken: set<Object>): set<Object> {
    References(before) - References(after) - broken
  }

  /** One run over a scope, as a whole. */
  ghost function Purge(db: Db, scope: Scope, cutoff: string, now: string, broken: set<Object>): Db {
    After(db, GoneSet(db, scope, cutoff), ClearedSet(db, scope, cutoff), now, broken)
  }

  /** preview: SELECT COUNT(*) of what may go. */
  function Preview(db: Db, scope: Scope, cutoff: string): nat {
    |MayGo(db, scope, cutoff)|
  }

  function MayGo(db: Db, scope: Scope, cutoff: string): set<Id> {
    set id | id in db.messages && Expired(db, scope, cutoff, db.messages[id])
  }

  function FilesAmong(objects: set<Object>): nat {
    |set o | o in objects && o.Stored?|
  }

  // ---------------------------------------------------------------------------- the batches

  // A row of filesOf: a stored file and its thumbnail.
  datatype FileRow = FileRow(key: string, thumb: Option<string>)
  {
    function Objects(): set<Object> {
      (if key != "" then {Stored(key)} else {})
        + (if thumb.Some? && thumb.value != "" then {Thumbnail(thumb.value)} else {})
    }
  }

  function RowOf(f: File): FileRow { FileRow(f.Key(), f.thumbKey) }

  function ObjectsOf(files: seq<FileRow>): set<Object> {
    set f, o | f in files && o in f.Objects() :: o
  }

  /** The objects the attachments of these messages, and every version of them, use. */
  function ObjectsUsedBy(db: Db, ids: set<Id>): set<Object> {
    (set a, o | a in db.attachments && db.attachments[a].message in ids && o in db.attachments[a].file.Objects() :: o) +
    (set v, o | v in db.versions && v.attachment in db.attachments && db.attachments[v.attachment].message in ids &&
                o in db.versions[v].file.Objects() :: o)
  }

  method FilesOf(db: Database, ids: set<Id>) returns (files: seq<FileRow>)
    ensures ObjectsOf(files) == ObjectsUsedBy(db.Rows(), ids)
  {
    files := [];
    var current := set a | a in db.attachments && db.attachments[a].message in ids;
    var todo := current;
    while todo != {}
      invariant todo <= current
      invariant ObjectsOf(files) == set a, o | a in current - todo && o in db.attachments[a].file.Objects() :: o
      decreases todo
    {
      var a :| a in todo;
      AddFile(files, db.attachments[a].file);
      files := files + [RowOf(db.attachments[a].file)];
      todo := todo - {a};
    }
    var earlier := set v | v in db.versions && v.attachment in db.attachments
      && db.attachments[v.attachment].message in ids;
    var rest := earlier;
    ghost var first := ObjectsOf(files);
    while rest != {}
      invariant rest <= earlier
      invariant ObjectsOf(files) == first + set v, o | v in earlier - rest && o in db.versions[v].file.Objects() :: o
      decreases rest
    {
      var v :| v in rest;
      AddFile(files, db.versions[v].file);
      files := files + [RowOf(db.versions[v].file)];
      rest := rest - {v};
    }
  }

  lemma AddFile(files: seq<FileRow>, f: File)
    ensures ObjectsOf(files + [RowOf(f)]) == ObjectsOf(files) + f.Objects()
  {
    var more := files + [RowOf(f)];
    forall o ensures o in ObjectsOf(more) <==> o in ObjectsOf(files) || o in f.Objects() {
      if o in f.Objects() {
        assert RowOf(f) in more && o in RowOf(f).Objects();
      }
      if o in ObjectsOf(files) {
        var row :| row in files && o in row.Objects();
        assert row in more;
      }
    }
  }

  /** SELECT 1 FROM attachments, attachment_versions and recordings (thumbnails: the first two). */
  predicate Used(db: Database, o: Object)
    reads db
  {
    match o
    case Stored(key) =>
      (exists a :: a in db.attachments && db.attachments[a].file.Key() == key) ||
      (exists v :: v in db.versions && db.versions[v].file.Key() == key) ||
      (exists r :: r in db.recordings && db.recordings[r] == key)
    case Thumbnail(key) =>
      (exists a :: a in db.attachments && db.attachments[a].file.thumbKey == Some(key)) ||
      (exists v :: v in db.versions && db.versions[v].file.thumbKey == Some(key))
  }

  lemma UsedIffReferenced(db: Database, o: Object)
    requires o.key != ""
    ensures Used(db, o) <==> o in References(db.Rows())
  {
    forall f: File
      ensures o in f.Objects() <==>
                (match o case Stored(key) => f.Key() == key case Thumbnail(key) => f.thumbKey == Some(key)) {
    }
    if Used(db, o) {
      if a :| a in db.attachments && o in db.attachments[a].file.Objects() {
      } else if v :| v in db.versions && o in db.versions[v].file.Objects() {
      } else {
        var r :| r in db.recordings && db.recordings[r] == o.key;
        assert Stored(db.recordings[r]) in References(db.Rows());
      }
    }
  }

  method RemoveIfUnused(db: Database, o: Object, broken: set<Object>) returns (removed: bool)
    requires o.key != ""
    modifies db`stored
    ensures db.stored == old(db.stored) - ({o} - References(old(db.Rows())) - broken)
    ensures removed <==> o !in References(old(db.Rows())) && o !in broken
  {
    UsedIffReferenced(db, o);
    removed := !Used(db, o) && o !in broken;
    if removed { db.stored := db.stored - {o}; }
  }

  // Of the objects in `seen`, exactly the unused ones are gone from the storage, bar the broken ones.
  ghost predicate Swept(start: set<Object>, now: set<Object>, seen: set<Object>, used: set<Object>,
                        broken: set<Object>, removed: nat) {
    now == start - (seen - used - broken) && removed == FilesAmong(seen - used - broken)
  }

  /** Deletes each of the objects in `files` that no row uses any more; answers how many files went. */
  method RemoveStoredFiles(db: Database, files: seq<FileRow>, broken: set<Object>) returns (removed: nat)
    modifies db`stored
    ensures var unused := ObjectsOf(files) - References(old(db.Rows())) - broken;
            db.stored == old(db.stored) - unused && removed == FilesAmong(unused)
  {
    hide ObjectsOf, ReferencesIn, Swept, FilesAmong;
    removed := 0;
    var seen: set<Object> := {};
    SweepNone(db.stored, References(db.Rows()), broken);
    ghost var used, start := References(db.Rows()), db.stored;
    for i := 0 to |files|
      invariant ReferencesIn(db.attachments, db.versions, db.recordings) == used
      invariant seen == ObjectsOf(files[..i])
      invariant Swept(start, db.stored, seen, used, broken, removed)
    {
      var f := files[i];
      if f.key != "" && Stored(f.key) !in seen {
        SweepOne(start, db.stored, seen, used, broken, removed, Stored(f.key));
        seen := seen + {Stored(f.key)};
        var gone := RemoveIfUnused(db, Stored(f.key), broken);
        if gone { removed := removed + 1; }
      }
      if f.thumb.Some? && f.thumb.value != "" && Thumbnail(f.thumb.value) !in seen {
        SweepOne(start, db.stored, seen, used, broken, removed, Thumbnail(f.thumb.value));
        seen := seen + {Thumbnail(f.thumb.value)};
        var _ := RemoveIfUnused(db, Thumbnail(f.thumb.value), broken);
      }
      GrowObjects(files[..i], f);
      assert files[..i + 1] == files[..i] + [f];
    }
    assert files[..|files|] == files;
    SweepAll(start, db.stored, seen, used, broken, removed);
  }

  lemma SweepNone(start: set<Object>, used: set<Object>, broken: set<Object>)
    ensures Swept(start, start, {}, used, broken, 0) && ObjectsOf([]) == {}
  {
  }

  lemma SweepAll(start: set<Object>, now: set<Object>, seen: set<Object>, used: set<Object>, broken: set<Object>,
                 removed: nat)
    requires Swept(start, now, seen, used, broken, removed)
    ensures now == start - (seen - used - broken) && removed == FilesAmong(seen - used - broken)
  {
  }

  lemma SweepOne(start: set<Object>, now: set<Object>, seen: set<Object>, used: set<Object>, broken: set<Object>,
                 removed: nat, o: Object)
    requires Swept(start, now, seen, used, broken, removed) && o !in seen
    ensures Swept(start, now - ({o} - used - broken), seen + {o}, used, broken,
                  removed + if o.Stored? && o !in used && o !in broken then 1 else 0)
  {
    GrowFiles(seen, o, used, broken);
    assert seen + {o} - used - broken == (seen - used - broken) + ({o} - used - broken);
  }

  lemma GrowObjects(files: seq<FileRow>, f: FileRow)
    ensures ObjectsOf(files + [f]) == ObjectsOf(files) + f.Objects()
  {
    var more := files + [f];
    forall o ensures o in ObjectsOf(more) <==> o in ObjectsOf(files) || o in f.Objects() {
      if o in f.Objects() {
        assert f in more;
      }
      if o in ObjectsOf(files) {
        var row :| row in files && o in row.Objects();
        assert row in more;
      }
    }
  }

  lemma GrowFiles(seen: set<Object>, o: Object, used: set<Object>, broken: set<Object>)
    requires o !in seen
    ensures FilesAmong(seen + {o} - used - broken)
            == FilesAmong(seen - used - broken) + if o.Stored? && o !in used && o !in broken then 1 else 0
  {
    var before := set x | x in seen - used - broken && x.Stored?;
    var after := set x | x in seen + {o} - used - broken && x.Stored?;
    if o.Stored? && o !in used && o !in broken {
      assert after == before + {o};
    } else {
      assert after == before;
    }
  }

  // ---------------------------------------------------------------------------- one batch after another

  lemma SameRules(db: Db, db': Db, scope: Scope, cutoff: string)
    requires db.holds == db'.holds && db.participants == db'.participants
    ensures forall m :: Held(db, m) <==> Held(db', m)
    ensures forall m :: Expired(db, scope, cutoff, m) <==> Expired(db', scope, cutoff, m)
  {
    forall m ensures Held(db, m) <==> Held(db', m) {
      forall h ensures ActiveOn(db, h, m) <==> ActiveOn(db', h, m) {
      }
    }
  }

  lemma ReferencesSplit(db: Db, ids: set<Id>)
    ensures References(db) == References(WithoutAttachments(db, ids)) + ObjectsUsedBy(db, ids)
  {
    var rest := WithoutAttachments(db, ids);
    forall o | o in References(db) ensures o in References(rest) + ObjectsUsedBy(db, ids) {
      if a :| a in db.attachments && o in db.attachments[a].file.Objects() {
        assert a in rest.attachments || db.attachments[a].message in ids;
      } else if v :| v in db.versions && o in db.versions[v].file.Objects() {
        assert v in rest.versions || (v.attachment in db.attachments && db.attachments[v.attachment].message in ids);
      }
    }
    forall o | o in References(rest) ensures o in References(db) {
      if a :| a in rest.attachments && o in rest.attachments[a].file.Objects() {
        assert a in db.attachments;
      } else if v :| v in rest.versions && o in rest.versions[v].file.Objects() {
        assert v in db.versions;
      }
    }
    assert ObjectsUsedBy(db, ids) <= References(db);
  }

  lemma WithoutTwice(db: Db, first: set<Id>, second: set<Id>)
    ensures WithoutAttachments(WithoutAttachments(db, first), second) == WithoutAttachments(db, first + second)
  {
    var one := WithoutAttachments(db, first);
    var two, both := WithoutAttachments(one, second), WithoutAttachments(db, first + second);
    assert two.attachments == both.attachments;
    forall v ensures v in two.versions <==> v in both.versions {
    }
    assert two.versions == both.versions;
  }

  /** Removing one more batch of rows, then its unused objects, is removing them all at once: an object
      shared by several batches goes with the last row that uses it. */
  lemma BatchCompose(db: Db, gone: set<Id>, cleared: set<Id>, gone': set<Id>, cleared': set<Id>, now: string,
                     broken: set<Object>)
    requires gone <= gone' && cleared <= cleared' && gone' !! cleared'
    ensures var cur := After(db, gone, cleared, now, broken);
            var ids := (gone' - gone) + (cleared' - cleared);
            var rows := RowsAfter(cur, gone' - gone, cleared' - cleared, now);
            var unused := ObjectsUsedBy(cur, ids) - References(rows) - broken;
            && rows.(stored := cur.stored - unused, indexed := cur.indexed - ids) ==
                  After(db, gone', cleared', now, broken)
            && FilesAmong(Released(db, rows, broken)) == FilesAmong(Released(db, cur, broken)) + FilesAmong(unused)
  {
    var cur := After(db, gone, cleared, now, broken);
    var ids := (gone' - gone) + (cleared' - cleared);
    var rows := RowsAfter(cur, gone' - gone, cleared' - cleared, now);
    var unused := ObjectsUsedBy(cur, ids) - References(rows) - broken;
    var next := After(db, gone', cleared', now, broken);
    WithoutTwice(db, gone + cleared, ids);
    assert (gone + cleared) + ids == gone' + cleared';
    RowsCompose(db, gone, cleared, gone', cleared', now);
    ReferencesSplit(cur, ids);
    ReferencesSplit(db, gone + cleared);
    assert References(rows) == References(WithoutAttachments(cur, ids));
    assert References(cur) == References(WithoutAttachments(db, gone + cleared));
    assert Released(db, rows, broken) == Released(db, cur, broken) + unused;
    FilesDisjoint(Released(db, cur, broken), unused);
  }

  lemma RowsCompose(db: Db, gone: set<Id>, cleared: set<Id>, gone': set<Id>, cleared': set<Id>, now: string)
    requires gone <= gone' && cleared <= cleared' && gone' !! cleared'
    ensures RowsAfter(RowsAfter(db, gone, cleared, now), gone' - gone, cleared' - cleared, now) ==
              RowsAfter(db, gone', cleared', now)
  {
    var one := RowsAfter(db, gone, cleared, now);
    var ids := (gone' - gone) + (cleared' - cleared);
    WithoutTwice(db, gone + cleared, ids);
    assert (gone + cleared) + ids == gone' + cleared';
    assert one.edits - ids == db.edits - (gone' + cleared');
    assert RowsAfter(one, gone' - gone, cleared' - cleared, now).messages ==
             RowsAfter(db, gone', cleared', now).messages;
  }

  lemma FilesDisjoint(a: set<Object>, b: set<Object>)
    requires a !! b
    ensures FilesAmong(a + b) == FilesAmong(a) + FilesAmong(b)
  {
    var fa, fb := set o | o in a && o.Stored?, set o | o in b && o.Stored?;
    assert (set o | o in a + b && o.Stored?) == fa + fb;
  }

  // ---------------------------------------------------------------------------- the fixpoint

  /** `gone` holds only messages that go, and every reply to its members. */
  ghost predicate PartlyPurged(db: Db, scope: Scope, cutoff: string, gone: set<Id>) {
    && gone <= GoneSet(db, scope, cutoff)
    && forall id | id in db.messages && db.messages[id].parent.Some? && db.messages[id].parent.value in gone ::
          id in gone
  }

  /** A message that may go and whose replies are all gone goes; so does any batch of them. */
  lemma LeavesAreDoomed(db: Db, scope: Scope, cutoff: string, gone: set<Id>, ids: set<Id>)
    requires ValidRows(db) && PartlyPurged(db, scope, cutoff, gone)
    requires forall id | id in ids :: id in db.messages && Expired(db, scope, cutoff, db.messages[id])
    requires forall id, child | id in ids && ChildOf(db, child, id) :: child in gone
    ensures PartlyPurged(db, scope, cutoff, gone + ids)
  {
    forall id | id in ids ensures id in GoneSet(db, scope, cutoff) {
      forall d | d in db.messages && Under(db, d, id) ensures Expired(db, scope, cutoff, db.messages[d]) {
        if d != id {
          var child := UnderChild(db, d, id);
          assert child in GoneSet(db, scope, cutoff);
        }
      }
    }
    forall id | id in db.messages && db.messages[id].parent.Some? && db.messages[id].parent.value in gone + ids
      ensures id in gone + ids
    {
      assert ChildOf(db, id, db.messages[id].parent.value);
    }
  }

  /** While a message that goes is left, some message that goes is left without replies. */
  lemma DoomedLeafLeft(db: Db, scope: Scope, cutoff: string, gone: set<Id>, some: Id) returns (id: Id)
    requires ValidRows(db) && PartlyPurged(db, scope, cutoff, gone)
    requires some in GoneSet(db, scope, cutoff) && some !in gone
    ensures id in db.messages && id !in gone && Expired(db, scope, cutoff, db.messages[id])
    ensures forall child: Id | ChildOf(db, child, id) :: child in gone
  {
    var left := GoneSet(db, scope, cutoff) - gone;
    assert some in left;
    id := MaxExists(left);
    assert Under(db, id, id);
    forall child: Id | ChildOf(db, child, id) ensures child in gone {
      assert child != id;
      assert Under(db, child, id);
      forall d | d in db.messages && Under(db, d, child) ensures Expired(db, scope, cutoff, db.messages[d]) {
        UnderTrans(db, d, child, id);
      }
      assert child in gone || child in left;
      assert child > id;
    }
  }

  // ---------------------------------------------------------------------------- the run

  datatype Counts = Counts(deleted: nat, cleared: nat, files: nat)

  /** DELETE FROM messages WHERE id IN (...), cascades included. */
  method DeleteRows(db: Database, ids: set<Id>)
    modifies db
    ensures db.Rows() == DeleteMessages(old(db.Rows()), ids)
  {
    var gone := Cascade(db.Rows(), ids);
    var rows := WithoutMessages(db.Rows(), gone);
    db.messages := db.messages - gone;
    db.edits := db.edits - gone;
    db.versions, db.attachments := rows.versions, rows.attachments;
  }

  /** The three statements that clear a batch of posts. */
  method ClearRows(db: Database, ids: set<Id>, now: string)
    modifies db
    ensures db.Rows() == RowsAfter(old(db.Rows()), {}, ids, now)
  {
    db.messages := map id | id in db.messages :: if id in ids then Blank(db.messages[id], now) else db.messages[id];
    var rows := WithoutAttachments(db.Rows(), ids);
    db.versions, db.attachments := rows.versions, rows.attachments;
    db.edits := db.edits - ids;
    assert {} + ids == ids;
  }

  // A batch the first loop may pick: rows that may go and have no replies left.
  ghost predicate LeafBatch(cur: Db, scope: Scope, cutoff: string, batch: set<Id>) {
    forall id | id in batch ::
      id in cur.messages && Expired(cur, scope, cutoff, cur.messages[id]) && !HasReplies(cur, id)
  }

  lemma LeafBatchIsDoomed(before: Db, scope: Scope, cutoff: string, gone: set<Id>, batch: set<Id>, now: string,
                          broken: set<Object>)
    requires ValidRows(before) && PartlyPurged(before, scope, cutoff, gone)
    requires LeafBatch(After(before, gone, {}, now, broken), scope, cutoff, batch)
    ensures PartlyPurged(before, scope, cutoff, gone + batch) && gone !! batch
  {
    var cur := After(before, gone, {}, now, broken);
    SameRules(before, cur, scope, cutoff);
    forall id, child: Id | id in batch && ChildOf(before, child, id) ensures child in gone {
      assert child in gone || ChildOf(cur, child, id);
      assert !HasReplies(cur, id);
    }
    LeavesAreDoomed(before, scope, cutoff, gone, batch);
  }

  /** Deleting such a batch and then its unused objects is one step of the whole purge. */
  lemma DeleteStep(before: Db, gone: set<Id>, batch: set<Id>, now: string, broken: set<Object>)
    requires gone !! batch
    requires forall id | id in batch ::
               id in After(before, gone, {}, now, broken).messages
               && !HasReplies(After(before, gone, {}, now, broken), id)
    ensures var cur := After(before, gone, {}, now, broken);
            var rows := DeleteMessages(cur, batch);
            var unused := ObjectsUsedBy(cur, batch) - References(rows) - broken;
            && rows.(stored := cur.stored - unused, indexed := cur.indexed - batch) ==
                  After(before, gone + batch, {}, now, broken)
            && FilesAmong(Released(before, rows, broken)) == FilesAmong(Released(before, cur, broken))
                  + FilesAmong(unused)
  {
    var cur := After(before, gone, {}, now, broken);
    var none: set<Id> := {};
    DeleteLeaves(cur, batch);
    DeleteIsRowsAfter(cur, batch, now);
    assert (gone + batch) - gone == batch && none - none == none && batch + none == batch;
    BatchCompose(before, gone, none, gone + batch, none, now, broken);
  }

  lemma DeleteIsRowsAfter(db: Db, batch: set<Id>, now: string)
    ensures RowsAfter(db, batch, {}, now) == WithoutMessages(db, batch)
  {
    assert batch + {} == batch;
    assert RowsAfter(db, batch, {}, now).messages == db.messages - batch;
  }

  lemma ReplySurvives(before: Db, gone: set<Id>, id: Id, now: string, broken: set<Object>)
    requires HasReplies(After(before, gone, {}, now, broken), id)
    ensures exists child: Id :: ChildOf(before, child, id) && child !in gone
  {
    var cur := After(before, gone, {}, now, broken);
    var child: Id :| child in cur.messages && ChildOf(cur, child, id);
    assert ChildOf(before, child, id) && child !in gone;
  }

  /** When no row that may go is left without replies, all that goes is gone. */
  lemma DeletedAll(before: Db, scope: Scope, cutoff: string, gone: set<Id>, now: string, broken: set<Object>)
    requires ValidRows(before) && PartlyPurged(before, scope, cutoff, gone)
    requires var cur := After(before, gone, {}, now, broken);
             forall id | id in cur.messages && Expired(cur, scope, cutoff, cur.messages[id]) :: HasReplies(cur, id)
    ensures gone == GoneSet(before, scope, cutoff)
  {
    var cur := After(before, gone, {}, now, broken);
    SameRules(before, cur, scope, cutoff);
    forall some | some in GoneSet(before, scope, cutoff) ensures some in gone {
      if some !in gone {
        var id := DoomedLeafLeft(before, scope, cutoff, gone, some);
        ReplySurvives(before, gone, id, now, broken);
        assert false;
      }
    }
  }

  // How far a run has come: the rows, and the counts so far.
  ghost predicate Progress(before: Db, cur: Db, gone: set<Id>, cleared: set<Id>, now: string, broken: set<Object>,
                           counts: Counts) {
    && cur == After(before, gone, cleared, now, broken) && gone !! cleared
    && counts == Counts(|gone|, |cleared|, FilesAmong(Released(before, cur, broken)))
  }

  // The rows after a batch of statements and the removal of the objects they left unused.
  function SweptRows(cur: Db, rows: Db, batch: set<Id>, broken: set<Object>): Db {
    rows.(stored := cur.stored - (ObjectsUsedBy(cur, batch) - References(rows) - broken),
      indexed := cur.indexed - batch)
  }

  function SweptFiles(cur: Db, rows: Db, batch: set<Id>, broken: set<Object>): nat {
    FilesAmong(ObjectsUsedBy(cur, batch) - References(rows) - broken)
  }

  method DeleteBatch(db: Database, batch: set<Id>, broken: set<Object>) returns (removed: nat)
    modifies db
    ensures var cur, rows := old(db.Rows()), DeleteMessages(old(db.Rows()), batch);
            db.Rows() == SweptRows(cur, rows, batch, broken) && removed == SweptFiles(cur, rows, batch, broken)
  {
    var files := FilesOf(db, batch);
    DeleteRows(db, batch);
    removed := RemoveStoredFiles(db, files, broken);
    db.indexed := db.indexed - batch;
  }

  lemma DeleteProgress(before: Db, cur: Db, scope: Scope, cutoff: string, gone: set<Id>, batch: set<Id>, now: string,
                       broken: set<Object>, counts: Counts)
    requires ValidRows(before) && PartlyPurged(before, scope, cutoff, gone)
             && Progress(before, cur, gone, {}, now, broken, counts)
    requires LeafBatch(cur, scope, cutoff, batch)
    ensures var rows := DeleteMessages(cur, batch);
            Progress(before, SweptRows(cur, rows, batch, broken), gone + batch, {}, now, broken,
                     counts.(deleted := counts.deleted + |batch|, files := counts.files
                       + SweptFiles(cur, rows, batch, broken)))
    ensures PartlyPurged(before, scope, cutoff, gone + batch) && |gone + batch| == |gone| + |batch|
  {
    hide After, DeleteMessages, ObjectsUsedBy, FilesAmong, PartlyPurged, ValidRows, Expired;
    LeafBatchIsDoomed(before, scope, cutoff, gone, batch, now, broken);
    DeleteStep(before, gone, batch, now, broken);
    var rows := DeleteMessages(cur, batch);
    assert Released(before, SweptRows(cur, rows, batch, broken), broken) == Released(before, rows, broken);
  }

  /** The first loop: replies and posts without replies, until none is left that may go. */
  method DeletePass(db: Database, scope: Scope, cutoff: string, ghost now: string,
                    broken: set<Object>) returns (counts: Counts)
    requires ValidRows(db.Rows())
    modifies db
    ensures var before := old(db.Rows());
            Progress(before, db.Rows(), GoneSet(before, scope, cutoff), {}, now, broken, counts)
  {
    hide After, DeleteMessages, ObjectsUsedBy, FilesAmong, ValidRows, Expired, GoneSet, HasReplies, SweptRows,
         SweptFiles;
    ghost var before := db.Rows();
    ghost var gone: set<Id> := {};
    counts := Counts(0, 0, 0);
    AfterNothing(before, now, broken);
    while true
      invariant PartlyPurged(before, scope, cutoff, gone)
      invariant Progress(before, db.Rows(), gone, {}, now, broken, counts)
      decreases |GoneSet(before, scope, cutoff)| - |gone|
    {
      var rows := set id | id in db.messages && Expired(db.Rows(), scope, cutoff, db.messages[id])
        && !HasReplies(db.Rows(), id);
      var ids, batch := FirstIds(rows, BATCH);
      if ids == [] {
        assert forall id | id in db.messages && Expired(db.Rows(), scope, cutoff, db.messages[id]) ::
                 id in rows || HasReplies(db.Rows(), id);
        break;
      }
      DeleteProgress(before, db.Rows(), scope, cutoff, gone, batch, now, broken, counts);
      gone := gone + batch;
      SubsetSize(gone, GoneSet(before, scope, cutoff));
      var removed := DeleteBatch(db, batch, broken);
      counts := counts.(deleted := counts.deleted + |ids|, files := counts.files + removed);
    }
    DeletedAll(before, scope, cutoff, gone, now, broken);
  }

  /** The second loop: posts whose threads still have newer replies. */
  method ClearPass(db: Database, scope: Scope, cutoff: string, now: string, broken: set<Object>, ghost before: Db,
                   start: Counts) returns (counts: Counts)
    requires Progress(before, db.Rows(), GoneSet(before, scope, cutoff), {}, now, broken, start)
    modifies db
    ensures Progress(before, db.Rows(), GoneSet(before, scope, cutoff), ClearedSet(before, scope, cutoff), now, broken,
            counts)
  {
    hide After, RowsAfter, ObjectsUsedBy, FilesAmong, Clearable, GoneSet;
    ghost var gone := GoneSet(before, scope, cutoff);
    ghost var cleared: set<Id> := {};
    counts := start;
    while true
      invariant cleared <= ClearedSet(before, scope, cutoff)
      invariant Progress(before, db.Rows(), gone, cleared, now, broken, counts)
      decreases |ClearedSet(before, scope, cutoff)| - |cleared|
    {
      var rows := set id | id in db.messages && Clearable(db.Rows(), scope, cutoff, id);
      ClearableLeft(before, scope, cutoff, cleared, now, broken);
      var ids, batch := FirstIds(rows, BATCH);
      assert ClearedSet(before, scope, cutoff) == cleared + rows;
      if ids == [] { break; }
      ClearProgress(before, db.Rows(), gone, cleared, batch, now, broken, counts);
      cleared := cleared + batch;
      SubsetSize(cleared, ClearedSet(before, scope, cutoff));
      var removed := ClearBatch(db, batch, now, broken);
      counts := counts.(cleared := counts.cleared + |ids|, files := counts.files + removed);
      if |ids| < BATCH { break; }
    }
  }

  /** One run over a scope, batch by batch, does exactly what Purge says, whatever the batches were. */
  method PurgeScope(db: Database, scope: Scope, cutoff: string, now: string,
                    broken: set<Object>) returns (counts: Counts)
    requires ValidRows(db.Rows())
    modifies db
    ensures var before := old(db.Rows());
            && db.Rows() == Purge(before, scope, cutoff, now, broken)
            && counts.deleted == |GoneSet(before, scope, cutoff)|
            && counts.cleared == |ClearedSet(before, scope, cutoff)|
            && counts.files == FilesAmong(Released(before, db.Rows(), broken))
  {
    hide After, GoneSet, ClearedSet, FilesAmong;
    ghost var before := db.Rows();
    counts := DeletePass(db, scope, cutoff, now, broken);
    counts := ClearPass(db, scope, cutoff, now, broken, before, counts);
  }

  method ClearBatch(db: Database, batch: set<Id>, now: string, broken: set<Object>) returns (removed: nat)
    modifies db
    ensures var cur, rows := old(db.Rows()), RowsAfter(old(db.Rows()), {}, batch, now);
            db.Rows() == SweptRows(cur, rows, batch, broken) && removed == SweptFiles(cur, rows, batch, broken)
  {
    var files := FilesOf(db, batch);
    ClearRows(db, batch, now);
    removed := RemoveStoredFiles(db, files, broken);
    db.indexed := db.indexed - batch;
  }

  /** What the second loop may still clear: the posts to be cleared that are not yet. */
  lemma ClearableLeft(before: Db, scope: Scope, cutoff: string, cleared: set<Id>, now: string, broken: set<Object>)
    requires cleared <= ClearedSet(before, scope, cutoff)
    ensures var cur := After(before, GoneSet(before, scope, cutoff), cleared, now, broken);
            (set id | id in cur.messages && Clearable(cur, scope, cutoff, id)) ==
              ClearedSet(before, scope, cutoff) - cleared
  {
    hide After, GoneSet, Clearable;
    var gone := GoneSet(before, scope, cutoff);
    var cur := After(before, gone, cleared, now, broken);
    forall id: Id
      ensures id in cur.messages && Clearable(cur, scope, cutoff, id) <==>
                id in ClearedSet(before, scope, cutoff) && id !in cleared
    {
      ClearableOne(before, gone, cleared, scope, cutoff, now, broken, id);
    }
  }

  /** What is still to be cleared is what was to be, and neither gone nor cleared yet. */
  lemma ClearableOne(before: Db, gone: set<Id>, cleared: set<Id>, scope: Scope, cutoff: string, now: string,
                     broken: set<Object>, id: Id)
    ensures var cur := After(before, gone, cleared, now, broken);
            id in cur.messages && Clearable(cur, scope, cutoff, id) <==>
            Clearable(before, scope, cutoff, id) && id !in gone && id !in cleared
    ensures Clearable(before, scope, cutoff, id) ==> id in before.messages
  {
    SameRules(before, After(before, gone, cleared, now, broken), scope, cutoff);
    hide Expired, References, WithoutAttachments;
  }

  lemma ClearProgress(before: Db, cur: Db, gone: set<Id>, cleared: set<Id>, batch: set<Id>, now: string,
                      broken: set<Object>, counts: Counts)
    requires Progress(before, cur, gone, cleared, now, broken, counts) && batch !! cleared && batch !! gone
    ensures var rows := RowsAfter(cur, {}, batch, now);
            Progress(before, SweptRows(cur, rows, batch, broken), gone, cleared + batch, now, broken,
                     counts.(cleared := counts.cleared + |batch|, files := counts.files
                       + SweptFiles(cur, rows, batch, broken)))
  {
    hide After, RowsAfter, ObjectsUsedBy, FilesAmong;
    BatchCompose(before, gone, cleared, gone, cleared + batch, now, broken);
    assert gone - gone == {} && (cleared + batch) - cleared == batch;
    assert (gone - gone) + batch == batch;
    var rows := RowsAfter(cur, {}, batch, now);
    assert Released(before, SweptRows(cur, rows, batch, broken), broken) == Released(before, rows, broken);
  }

  lemma AfterNothing(db: Db, now: string, broken: set<Object>)
    ensures After(db, {}, {}, now, broken) == db
    ensures FilesAmong(Released(db, db, broken)) == 0
  {
    assert RowsAfter(db, {}, {}, now).messages == db.messages;
    assert RowsAfter(db, {}, {}, now).edits == db.edits;
    assert RowsAfter(db, {}, {}, now).attachments == db.attachments;
    assert RowsAfter(db, {}, {}, now).versions == db.versions;
    assert Released(db, db, broken) == {};
  }
}
