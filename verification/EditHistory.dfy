/** Edit history: every edit keeps the wording it replaced, and what "(edited)" opens. */
module EditHistory {
  import opened Common
  import opened Tables

  datatype Wording = Wording(body: string, metadata: Option<string>)

  /** Every wording a message has had that is still on record, oldest first, the current one last. */
  function History(db: Db, id: Id): seq<Wording>
    requires id in db.messages
  {
    Replaced(db.EditsOf(id)) + [Wording(db.messages[id].body, db.messages[id].metadata)]
  }

  function Replaced(edits: seq<Edit>): (r: seq<Wording>)
    ensures |r| == |edits|
  {
    seq(|edits|, i requires 0 <= i < |edits| => Wording(edits[i].body, edits[i].metadata))
  }

  /** PUT /api/messages/:id, after the permission checks: saving the message as the request read it is no
      edit; otherwise the wording the row has by then is kept. The route does not look at `deleted`. */
  function EditMessage(db: Db, id: Id, read: Message, body: string, metadata: Option<string>, now: string): Db {
    if id !in db.messages || (body == read.body && metadata == read.metadata) then db
    else
      var m := db.messages[id];
      db.(edits := db.edits[id := db.EditsOf(id) + [Edit(m.body, m.metadata, now)]],
          messages := db.messages[id := m.(body := body, metadata := metadata, edited := true, updatedAt := now)])
  }

  /** An edit loses no wording, whatever came since the request read the message: the history grows by the
      new one, and by nothing when that is the one it read. */
  lemma EditKeepsHistory(db: Db, id: Id, read: Message, body: string, metadata: Option<string>, now: string)
    requires id in db.messages
    ensures var db' := EditMessage(db, id, read, body, metadata, now);
            id in db'.messages &&
            History(db', id) == if body == read.body && metadata == read.metadata then History(db, id)
                                else History(db, id) + [Wording(body, metadata)]
  {
    var db' := EditMessage(db, id, read, body, metadata, now);
    if body != read.body || metadata != read.metadata {
      assert Replaced(db'.EditsOf(id)) == Replaced(db.EditsOf(id))
               + [Wording(db.messages[id].body, db.messages[id].metadata)];
    }
  }

  /** It marks the row edited at that time, keeps when the wording before was replaced, and changes nothing
      else of the row and nothing of another. */
  lemma EditMarksTheRow(db: Db, id: Id, read: Message, body: string, metadata: Option<string>, now: string)
    requires id in db.messages && (body != read.body || metadata != read.metadata)
    ensures var db', m := EditMessage(db, id, read, body, metadata, now), db.messages[id];
            && db'.messages.Keys == db.messages.Keys
            && db'.messages[id] ==
               Message(m.channel, m.chat, m.author, body, metadata, m.parent, true, m.deleted, m.createdAt, now)
            && db'.EditsOf(id) != [] && db'.EditsOf(id)[|db'.EditsOf(id)| - 1].replacedAt == now
            && (forall other | other in db.messages && other != id ::
                  db'.messages[other] == db.messages[other] && db'.EditsOf(other) == db.EditsOf(other))
  {
  }

  // One line of what "(edited)" opens; the banner it shows is read from the metadata.
  datatype View = View(wording: Wording, writtenAt: Option<string>, current: bool, original: bool)
  {
    function Past(): View { this.(current := false) }
  }

  function Past(views: seq<View>): (r: seq<View>)
    ensures |r| == |views|
  {
    seq(|views|, i requires 0 <= i < |views| => views[i].Past())
  }

  function Reverse<T>(s: seq<T>): (r: seq<T>)
    ensures |r| == |s|
    ensures forall i | 0 <= i < |s| :: r[i] == s[|s| - 1 - i]
  {
    seq(|s|, i requires 0 <= i < |s| => s[|s| - 1 - i])
  }

  /** editVersions: newest first. Each wording was written when the one before it was replaced, the
      first when the message was; an untracked message's first known wording is not its original. */
  function EditVersions(message: Message, edits: seq<Edit>, untracked: bool): seq<View> {
    var all := Replaced(edits) + [Wording(message.body, message.metadata)];
    var writtenAt := [message.createdAt] + seq(|edits|, i requires 0 <= i < |edits| => edits[i].replacedAt);
    Reverse(seq(|all|, i requires 0 <= i < |all| =>
      View(all[i], if i == 0 && untracked then None else Some(writtenAt[i]), i == |all| - 1, i == 0 && !untracked)))
  }

  /** A message never edited is one line, written when it was posted, its original unless it had been edited
      before edits were kept. */
  lemma NeverEdited(message: Message, untracked: bool)
    ensures EditVersions(message, [], untracked)
            == [View(Wording(message.body, message.metadata), if untracked then None else Some(message.createdAt),
                     true, !untracked)]
  {
  }

  /** An edit puts its own wording, dated by the edit, on top of the list as it was; no line below
      changes except that the one above it is no longer the current one. */
  lemma EditPutsOneLineOnTop(message: Message, edits: seq<Edit>, untracked: bool, wording: Wording, now: string)
    ensures var edited := message.(body := wording.body, metadata := wording.metadata, edited := true,
            updatedAt := now);
            EditVersions(edited, edits + [Edit(message.body, message.metadata, now)], untracked)
            == [View(wording, Some(now), true, false)] + Past(EditVersions(message, edits, untracked))
  {
    var edited := message.(body := wording.body, metadata := wording.metadata, edited := true, updatedAt := now);
    var after := EditVersions(edited, edits + [Edit(message.body, message.metadata, now)], untracked);
    var before := EditVersions(message, edits, untracked);
    forall i | 0 < i < |after| ensures after[i] == before[i - 1].Past() {
    }
  }

  /** So what "(edited)" opens after an edit is what it opened before under the new wording. */
  lemma EditShowsOnTop(db: Db, id: Id, read: Message, wording: Wording, now: string, untracked: bool)
    requires id in db.messages && (wording.body != read.body || wording.metadata != read.metadata)
    ensures var db' := EditMessage(db, id, read, wording.body, wording.metadata, now);
            EditVersions(db'.messages[id], db'.EditsOf(id), untracked)
            == [View(wording, Some(now), true, false)]
              + Past(EditVersions(db.messages[id], db.EditsOf(id), untracked))
  {
    EditPutsOneLineOnTop(db.messages[id], db.EditsOf(id), untracked, wording, now);
  }

  /** The list shows the whole history, newest first, and exactly its first line as current. */
  lemma ViewsShowHistory(db: Db, id: Id, untracked: bool)
    requires id in db.messages
    ensures var views := EditVersions(db.messages[id], db.EditsOf(id), untracked);
            && |views| == |History(db, id)|
            && (forall i | 0 <= i < |views| ::
                  views[i].wording == History(db, id)[|views| - 1 - i] && (views[i].current <==> i == 0))
            && (forall i | 0 <= i < |views| :: views[i].original <==> i == |views| - 1 && !untracked)
  {
  }
}
