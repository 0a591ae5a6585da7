/** Deleting a message for everyone, by its author, a moderator or an admin's recall: the text and
    its earlier wordings go, after a copy is kept for the holds on it. */
module MessageDelete {
  import opened Common
  import opened Tables
  import opened LegalHold
  import opened EditHistory

  const RECALLED := "{\"recalled\":true}"

  /** The first half of deleteForEveryone: a copy, when the message is held. `msg` is the row as the
      caller read it before the call. */
  ghost function Copied(db: Db, id: Id, msg: Message, recalled: bool): Db {
    var copies := if !msg.deleted && HoldsFor(db, id) != [] then [Copy(db, id, msg, recalled)] else [];
    db.(preserved := db.preserved + copies)
  }

  /** The second half: the row is emptied, its edits and search entry go. */
  function Blanked(db: Db, id: Id, msg: Message, recalled: bool, now: string): Db {
    var metadata := if recalled then Some(RECALLED) else msg.metadata;
    db.(messages := if id in db.messages
                    then db.messages[id := db.messages[id].(deleted := true, body := "", metadata := metadata,
                                                            updatedAt := now)]
                    else db.messages,
        edits := db.edits - {id},
        indexed := db.indexed - {id})
  }

  /** The database after deleteForEveryone, when nothing comes between its halves. */
  ghost function Delete(db: Db, id: Id, msg: Message, recalled: bool, now: string): Db {
    Blanked(Copied(db, id, msg, recalled), id, msg, recalled, now)
  }

  /** Deletes the message; answers the holds a copy was kept for. */
  method DeleteForEveryone(db: Database, id: Id, msg: Message, recalled: bool, now: string) returns (holds: seq<Id>)
    modifies db
    ensures db.Rows() == Delete(old(db.Rows()), id, msg, recalled, now)
    ensures holds == if msg.deleted then [] else HoldsFor(old(db.Rows()), id)
  {
    holds := [];
    if !msg.deleted { holds := QueryHoldsFor(db, id); }
    if holds != [] {
      PreserveMessage(db, id, msg, holds, recalled);
    }
    var metadata := if recalled then Some(RECALLED) else msg.metadata;
    if id in db.messages {
      db.messages := db.messages[id := db.messages[id].(deleted := true, body := "", metadata := metadata,
        updatedAt := now)];
    }
    db.edits := db.edits - {id};
    db.indexed := db.indexed - {id};
  }

  /** A deleted message's text is kept nowhere but in a hold's copy: its history is one empty wording, it
      is not found by search, and who wrote it where and when is all that stays. No other message, and no
      file, changes. */
  lemma DeletionLeavesNoText(db: Db, id: Id, msg: Message, recalled: bool, now: string)
    requires id in db.messages
    ensures var db', row := Delete(db, id, msg, recalled, now), db.messages[id];
            var metadata := if recalled then Some("{\"recalled\":true}") else msg.metadata;
            && db'.messages.Keys == db.messages.Keys
            && db'.messages[id] == Message(row.channel, row.chat, row.author, "", metadata, row.parent, row.edited,
                 true, row.createdAt, now)
            && History(db', id) == [Wording("", metadata)] && id !in db'.indexed
    ensures var db' := Delete(db, id, msg, recalled, now);
            && (forall other | other in db.messages && other != id ::
                  && db'.messages[other] == db.messages[other] && db'.EditsOf(other) == db.EditsOf(other)
                  && (other in db'.indexed <==> other in db.indexed))
            && db'.attachments == db.attachments && db'.versions == db.versions && db'.stored == db.stored
  {
    hide Copy, HoldsFor;
  }

  /** The copy is kept exactly for a held message not deleted before: one, in the words and the place the
      caller read, with every earlier wording, the name of each file, and the holds it is kept for. */
  lemma DeletionKeepsOneCopy(db: Db, id: Id, msg: Message, recalled: bool, now: string)
    requires id in db.messages
    ensures var db' := Delete(db, id, msg, recalled, now);
            if !msg.deleted && Held(db, db.messages[id])
            then |db'.preserved| == |db.preserved| + 1 && db.preserved <= db'.preserved
                 && CopyOf(db'.preserved[|db.preserved|], db, id, msg)
                 && db'.preserved[|db.preserved|].recalled == recalled
            else db'.preserved == db.preserved
  {
    HeldIffHoldsFor(db, id);
    hide HoldsFor, ActiveOn;
    var copy := Copy(db, id, msg, recalled);
    if !msg.deleted && Held(db, db.messages[id]) {
      assert CopyOf(copy, db, id, msg);
    }
  }

  ghost predicate CopyOf(copy: Preserved, db: Db, id: Id, msg: Message)
    requires id in db.messages
  {
    && copy.message == id && copy.author == msg.author && copy.channel == msg.channel && copy.chat == msg.chat
    && copy.edits == db.EditsOf(id) && copy.body == msg.body && copy.metadata == msg.metadata
    && Ascending(copy.holds) && (forall h :: h in copy.holds <==> ActiveOn(db, h, db.messages[id]))
    && (forall k :: k in copy.files <==>
          exists a :: a in db.attachments && db.attachments[a].message == id && db.attachments[a].file.Key() == k)
  }

  /** The wordings a kept copy holds, oldest first. */
  function CopiedHistory(copy: Preserved): seq<Wording> {
    Replaced(copy.edits) + [Wording(copy.body, copy.metadata)]
  }

  /** Some kept copy of the message holds all of this history. */
  ghost predicate Kept(db: Db, id: Id, history: seq<Wording>) {
    exists i | 0 <= i < |db.preserved| :: db.preserved[i].message == id && history <= CopiedHistory(db.preserved[i])
  }

  /** When deleting a held message leaves its whole history in a kept copy: when one was kept before,
      or the caller's row was not marked deleted and still had the row's wording. So a delete that
      races an edit loses the newest wording, and so does deleting a deleted message that was edited. */
  lemma HeldHistoryKeptIff(db: Db, id: Id, msg: Message, recalled: bool, now: string)
    requires id in db.messages && Held(db, db.messages[id])
    ensures var history := History(db, id);
            Kept(Delete(db, id, msg, recalled, now), id, history) <==>
            Kept(db, id, history) ||
            (!msg.deleted && msg.body == db.messages[id].body && msg.metadata == db.messages[id].metadata)
  {
    HeldIffHoldsFor(db, id);
    var db' := Delete(db, id, msg, recalled, now);
    var history := History(db, id);
    var row := db.messages[id];
    assert forall i | 0 <= i < |db.preserved| :: db'.preserved[i] == db.preserved[i];
    if !msg.deleted {
      var copy := Copy(db, id, msg, recalled);
      assert db'.preserved[|db.preserved|] == copy;
      assert |CopiedHistory(copy)| == |history|;
      assert CopiedHistory(copy)[|history| - 1] == Wording(msg.body, msg.metadata);
      assert history[|history| - 1] == Wording(row.body, row.metadata);
      if msg.body == row.body && msg.metadata == row.metadata {
        assert CopiedHistory(copy) == history;
      }
    }
  }

  /** The two ways a held wording is lost: the row changed after it was read, and a deleted message
      edited and deleted again. */
  lemma HeldWordingsLost() returns (raced: Db, again: Db, row: Message, read: Message)
    ensures 10 in raced.messages && Held(raced, raced.messages[10]) && !raced.messages[10].deleted && !read.deleted
    ensures !Kept(Delete(raced, 10, read, false, "t2"), 10, History(raced, 10))
    ensures again == EditMessage(Delete(raced, 10, row, false, "t2"), 10, row, "text", None, "t3")
    ensures 10 in again.messages && Held(again, again.messages[10]) && again.messages[10].body == "text"
    ensures !Kept(Delete(again, 10, again.messages[10], false, "t4"), 10, History(again, 10))
  {
    read := Message(Some(1), None, Some(5), "first", None, None, false, false, "t0", "t0");
    row := read.(body := "second", edited := true, updatedAt := "t1");
    raced := NO_ROWS.(messages := map[10 := row], edits := map[10 := [Edit("first", None, "t1")]],
                      holds := map[3 := Hold(Channel, 1, false)]);
    assert ActiveOn(raced, 3, row);
    HeldHistoryKeptIff(raced, 10, read, false, "t2");
    HeldIffHoldsFor(raced, 10);
    var deleted := Delete(raced, 10, row, false, "t2");
    again := EditMessage(deleted, 10, row, "text", None, "t3");
    assert ActiveOn(again, 3, again.messages[10]);
    HeldHistoryKeptIff(again, 10, again.messages[10], false, "t4");
    assert |again.preserved| == 1 && CopiedHistory(again.preserved[0])[1] == Wording("second", None);
    assert History(again, 10)[1] == Wording("text", None);
  }

  /** deleteForEveryone waits between its halves. An edit that comes there, of a held message just
      copied as it was, is lost exactly when it is one, unless a copy held its history before. */
  lemma LateEditLostIff(db: Db, id: Id, recalled: bool, now: string, read: Message, body: string,
                        metadata: Option<string>, at: string)
    requires id in db.messages && Held(db, db.messages[id]) && !db.messages[id].deleted
    ensures var row := db.messages[id];
            var edited := EditMessage(Copied(db, id, row, recalled), id, read, body, metadata, at);
            id in edited.messages &&
            (Kept(Blanked(edited, id, row, recalled, now), id, History(edited, id)) <==>
             Kept(db, id, History(edited, id)) || (body == read.body && metadata == read.metadata))
  {
    hide HoldsFor, Copy, Kept;
    var row := db.messages[id];
    var copy := Copy(db, id, row, recalled);
    var mid := Copied(db, id, row, recalled);
    var edited := EditMessage(mid, id, read, body, metadata, at);
    HeldIffHoldsFor(db, id);
    assert mid == db.(preserved := db.preserved + [copy]);
    CopyIsHistory(db, id, recalled);
    EditGrows(mid, id, read, body, metadata, at);
    KeptWith(db, mid, id, copy, History(edited, id));
    SamePreserved(mid, Blanked(edited, id, row, recalled, now), id, History(edited, id));
    hide Blanked, EditMessage;
    assert History(mid, id) == History(db, id);
  }

  lemma CopyIsHistory(db: Db, id: Id, recalled: bool)
    requires id in db.messages
    ensures CopiedHistory(Copy(db, id, db.messages[id], recalled)) == History(db, id)
            && Copy(db, id, db.messages[id], recalled).message == id
  {
  }

  /** An edit either changes nothing or makes the history longer. */
  lemma EditGrows(db: Db, id: Id, read: Message, body: string, metadata: Option<string>, at: string)
    requires id in db.messages
    ensures var db' := EditMessage(db, id, read, body, metadata, at);
            && id in db'.messages && db'.preserved == db.preserved
            && (if body == read.body && metadata == read.metadata then History(db', id) == History(db, id)
                else |History(db', id)| == |History(db, id)| + 1)
  {
  }

  lemma KeptWith(db: Db, db': Db, id: Id, copy: Preserved, history: seq<Wording>)
    requires db'.preserved == db.preserved + [copy] && copy.message == id
    ensures Kept(db', id, history) <==> Kept(db, id, history) || history <= CopiedHistory(copy)
  {
    assert forall i | 0 <= i < |db.preserved| :: db'.preserved[i] == db.preserved[i];
    assert db'.preserved[|db.preserved|] == copy;
  }

  lemma SamePreserved(db: Db, db': Db, id: Id, history: seq<Wording>)
    requires db'.preserved == db.preserved
    ensures Kept(db', id, history) <==> Kept(db, id, history)
  {
  }
}
