/** What a retention run over one scope guarantees. */
module RetentionLaws {
  import opened Common
  import opened Tables
  import opened LegalHold
  import opened Retention
  import opened Text

  /** What is left is a valid database. */
  lemma PurgeValid(db: Db, scope: Scope, cutoff: string, now: string, broken: set<Object>)
    requires ValidRows(db)
    ensures ValidRows(Purge(db, scope, cutoff, now, broken))
  {
    GoneClosed(db, scope, cutoff);
    RowsAfterValid(db, GoneSet(db, scope, cutoff), ClearedSet(db, scope, cutoff), now);
  }

  lemma RowsAfterValid(db: Db, gone: set<Id>, cleared: set<Id>, now: string)
    requires ValidRows(db)
    requires forall id | id in db.messages && db.messages[id].parent.Some? && db.messages[id].parent.value in gone ::
               id in gone
    ensures ValidRows(RowsAfter(db, gone, cleared, now))
  {
    var db' := RowsAfter(db, gone, cleared, now);
    forall a, n: nat | a in db'.attachments && 1 <= n < db'.attachments[a].versionNo
      ensures VersionKey(a, n) in db'.versions {
      assert VersionKey(a, n) in db.versions;
    }
  }

  /** Every reply to a message that goes, goes. */
  lemma GoneClosed(db: Db, scope: Scope, cutoff: string)
    requires ValidRows(db)
    ensures forall id | id in db.messages && db.messages[id].parent.Some?
            && db.messages[id].parent.value in GoneSet(db, scope, cutoff) ::
              id in GoneSet(db, scope, cutoff)
  {
    forall id | id in db.messages && db.messages[id].parent.Some?
      && db.messages[id].parent.value in GoneSet(db, scope, cutoff)
      ensures id in GoneSet(db, scope, cutoff)
    {
      var p := db.messages[id].parent.value;
      assert Under(db, p, p) && Under(db, id, p);
      forall d | d in db.messages && Under(db, d, id) ensures Expired(db, scope, cutoff, db.messages[d]) {
        UnderTrans(db, d, id, p);
      }
    }
  }

  lemma {:induction false} UnderSurvives(db: Db, db': Db, id: Id, root: Id)
    requires Under(db, id, root) && id in db'.messages
    requires forall m | m in db'.messages :: m in db.messages && db'.messages[m].parent == db.messages[m].parent
    requires forall m | m in db'.messages && db.messages[m].parent.Some?
             && db.messages[m].parent.value in db.messages ::
               db.messages[m].parent.value in db'.messages
    ensures Under(db', id, root)
    decreases id
  {
    if id != root {
      UnderSurvives(db, db', db.messages[id].parent.value, root);
    }
  }

  /** A second run at the same cutoff, whenever it comes, finds nothing to do. */
  lemma SecondRunChangesNothing(db: Db, scope: Scope, cutoff: string, now: string, later: string, broken: set<Object>,
                                broken': set<Object>)
    requires ValidRows(db)
    ensures var db' := Purge(db, scope, cutoff, now, broken);
            GoneSet(db', scope, cutoff) == {} && ClearedSet(db', scope, cutoff) == {}
              && Purge(db', scope, cutoff, later, broken') == db'
  {
    var db' := Purge(db, scope, cutoff, now, broken);
    NothingLeftToDelete(db, scope, cutoff, now, broken);
    NothingLeftToClear(db, scope, cutoff, now, broken);
    AfterNothing(db', later, broken');
  }

  lemma NothingLeftToDelete(db: Db, scope: Scope, cutoff: string, now: string, broken: set<Object>)
    requires ValidRows(db)
    ensures GoneSet(Purge(db, scope, cutoff, now, broken), scope, cutoff) == {}
  {
    hide ValidRows, Purge, Doomed;
    forall id | id in Purge(db, scope, cutoff, now, broken).messages
      ensures id !in GoneSet(Purge(db, scope, cutoff, now, broken), scope, cutoff)
    {
      SurvivorStays(db, scope, cutoff, now, broken, id);
    }
  }

  lemma SurvivorStays(db: Db, scope: Scope, cutoff: string, now: string, broken: set<Object>, id: Id)
    requires ValidRows(db) && id in Purge(db, scope, cutoff, now, broken).messages
    ensures id !in GoneSet(Purge(db, scope, cutoff, now, broken), scope, cutoff)
  {
    hide Expired, References, Doomed, GoneSet, ClearedSet, ValidRows, Under;
    var db' := Purge(db, scope, cutoff, now, broken);
    GoneClosed(db, scope, cutoff);
    forall d | d in db'.messages && Expired(db', scope, cutoff, db'.messages[d])
      ensures Expired(db, scope, cutoff, db.messages[d]) {
      ExpiredBefore(db, scope, cutoff, now, broken, d);
    }
    NoneGoesAgain(db, db', scope, cutoff, id);
  }

  /** Whoever would go of those left would have gone before, and so is not left. */
  lemma NoneGoesAgain(db: Db, db': Db, scope: Scope, cutoff: string, id: Id)
    requires db'.messages.Keys == db.messages.Keys - GoneSet(db, scope, cutoff)
    requires forall m | m in db'.messages :: db'.messages[m].parent == db.messages[m].parent
    requires forall m | m in db.messages && db.messages[m].parent.Some?
             && db.messages[m].parent.value in GoneSet(db, scope, cutoff) ::
               m in GoneSet(db, scope, cutoff)
    requires forall d | d in db'.messages && Expired(db', scope, cutoff, db'.messages[d]) ::
               Expired(db, scope, cutoff, db.messages[d])
    requires id in db'.messages
    ensures id !in GoneSet(db', scope, cutoff)
  {
    hide Expired;
    if id in GoneSet(db', scope, cutoff) {
      forall d | d in db.messages && Under(db, d, id) ensures Expired(db, scope, cutoff, db.messages[d]) {
        if d in db'.messages {
          UnderSurvives(db, db', d, id);
        } else {
          assert Under(db, d, d);
        }
      }
    }
  }

  lemma ExpiredBefore(db: Db, scope: Scope, cutoff: string, now: string, broken: set<Object>, id: Id)
    requires id in Purge(db, scope, cutoff, now, broken).messages
    requires Expired(Purge(db, scope, cutoff, now, broken), scope, cutoff,
             Purge(db, scope, cutoff, now, broken).messages[id])
    ensures Expired(db, scope, cutoff, db.messages[id])
  {
    SameRules(db, Purge(db, scope, cutoff, now, broken), scope, cutoff);
  }

  lemma NothingLeftToClear(db: Db, scope: Scope, cutoff: string, now: string, broken: set<Object>)
    ensures ClearedSet(Purge(db, scope, cutoff, now, broken), scope, cutoff) == {}
  {
    ClearableLeft(db, scope, cutoff, ClearedSet(db, scope, cutoff), now, broken);
    var db' := Purge(db, scope, cutoff, now, broken);
    forall id | id in db'.messages ensures !Clearable(db', scope, cutoff, id) {
      assert id !in (set x | x in db'.messages && Clearable(db', scope, cutoff, x));
    }
  }

  /** A message that answers itself outlives every run with its text: it is neither deleted nor cleared. */
  lemma OwnParentStays(db: Db, scope: Scope, cutoff: string, now: string, broken: set<Object>, id: Id)
    requires id in db.messages && OwnParent(db, id)
    ensures var db' := Purge(db, scope, cutoff, now, broken);
            id in db'.messages && db'.messages[id] == db.messages[id] && db'.EditsOf(id) == db.EditsOf(id)
  {
    assert id !in GoneSet(db, scope, cutoff) && id !in ClearedSet(db, scope, cutoff);
  }

  /** So a run deletes every message that may go with its whole reply tree exactly when none of these
      answers itself; what it leaves of them is exactly those that do. */
  lemma PurgesAllIff(db: Db, scope: Scope, cutoff: string, now: string, broken: set<Object>)
    ensures (forall id | Doomed(db, scope, cutoff, id) :: id !in Purge(db, scope, cutoff, now, broken).messages) <==>
            (forall id | Doomed(db, scope, cutoff, id) :: !OwnParent(db, id))
    ensures forall id | Doomed(db, scope, cutoff, id) ::
              id in Purge(db, scope, cutoff, now, broken).messages <==> OwnParent(db, id)
  {
    var db' := Purge(db, scope, cutoff, now, broken);
    forall id | Doomed(db, scope, cutoff, id) ensures id in db'.messages <==> OwnParent(db, id) {
      assert id in db'.messages <==> id !in GoneSet(db, scope, cutoff);
    }
  }

  /** A row such a request makes: long past the limit, held by nobody, answered by nobody else. */
  lemma OneThatAnswersItself() returns (db: Db)
    ensures ValidRows(db) && 10 in db.messages && Doomed(db, Channels, "2026", 10)
    ensures forall now: string, broken: set<Object> :: Purge(db, Channels, "2026", now, broken).messages == db.messages
  {
    var row := Message(Some(1), None, Some(5), "post", None, Some(10), false, false, "2020-01-01 00:00:00",
      "2020-01-01 00:00:00");
    db := NO_ROWS.(messages := map[10 := row]);
    assert OwnParent(db, 10);
    AloneIsDoomed(db, row);
    hide Expired, Purge, Doomed, Under, Less, ReferencesIn;
    forall now: string, broken: set<Object> ensures Purge(db, Channels, "2026", now, broken).messages == db.messages {
      OwnParentStays(db, Channels, "2026", now, broken, 10);
      OnlyFewer(db, Channels, "2026", now, broken);
    }
  }

  lemma AloneIsDoomed(db: Db, row: Message)
    requires db.messages == map[10 := row] && db.holds == map[] && row.channel.Some? && row.metadata == None
    requires row.createdAt == "2020-01-01 00:00:00"
    ensures Doomed(db, Channels, "2026", 10)
  {
    LongAgo();
  }

  lemma OnlyFewer(db: Db, scope: Scope, cutoff: string, now: string, broken: set<Object>)
    ensures Purge(db, scope, cutoff, now, broken).messages.Keys <= db.messages.Keys
  {
  }

  lemma LongAgo()
    ensures Less("2020-01-01 00:00:00", "2026")
  {
    var a, b := "2020-01-01 00:00:00", "2026";
    assert Less(a[3..], b[3..]);
    assert Less(a[2..], b[2..]) by { assert a[2..][1..] == a[3..] && b[2..][1..] == b[3..]; }
    assert Less(a[1..], b[1..]) by { assert a[1..][1..] == a[2..] && b[1..][1..] == b[2..]; }
  }

  /** The run touches neither the message's row, its edits, its attachments and their versions, its search
      entry, nor any stored object those use. */
  ghost predicate Untouched(db: Db, db': Db, id: Id)
    requires id in db.messages
  {
    && id in db'.messages && db'.messages[id] == db.messages[id] && db'.EditsOf(id) == db.EditsOf(id)
    && (id in db.indexed <==> id in db'.indexed)
    && (forall a | a in db.attachments && db.attachments[a].message == id ::
          && a in db'.attachments && db'.attachments[a] == db.attachments[a]
          && (forall n: nat | VersionKey(a, n) in db.versions ::
                VersionKey(a, n) in db'.versions
                  && db'.versions[VersionKey(a, n)] == db.versions[VersionKey(a, n)]))
    && (forall o | o in ObjectsUsedBy(db, {id}) && o in db.stored :: o in db'.stored)
  }

  lemma LeftAlone(db: Db, scope: Scope, cutoff: string, now: string, broken: set<Object>, id: Id)
    requires id in db.messages && id !in GoneSet(db, scope, cutoff) && id !in ClearedSet(db, scope, cutoff)
    ensures Untouched(db, Purge(db, scope, cutoff, now, broken), id)
  {
    HeldObjectsUsed(db, Purge(db, scope, cutoff, now, broken), id);
  }

  lemma NotExpiredUntouched(db: Db, scope: Scope, cutoff: string, now: string, broken: set<Object>, id: Id)
    requires id in db.messages && !Expired(db, scope, cutoff, db.messages[id])
    ensures Untouched(db, Purge(db, scope, cutoff, now, broken), id)
  {
    hide Purge;
    assert Under(db, id, id);
    assert id !in GoneSet(db, scope, cutoff) && id !in ClearedSet(db, scope, cutoff);
    LeftAlone(db, scope, cutoff, now, broken, id);
  }

  /** While a hold covers a message, no run touches anything of it. */
  lemma HeldUntouched(db: Db, scope: Scope, cutoff: string, now: string, broken: set<Object>, id: Id)
    requires id in db.messages && Held(db, db.messages[id])
    ensures Untouched(db, Purge(db, scope, cutoff, now, broken), id)
  {
    NotExpiredUntouched(db, scope, cutoff, now, broken, id);
  }

  /** Nor of a message made at the cutoff or after it, or not posted in a place of this scope. */
  lemma YoungAndElsewhereUntouched(db: Db, scope: Scope, cutoff: string, now: string, broken: set<Object>, id: Id)
    requires id in db.messages
    requires !Less(db.messages[id].createdAt, cutoff) || (scope == Channels && db.messages[id].channel == None)
             || (scope == Chats && db.messages[id].chat == None)
    ensures Untouched(db, Purge(db, scope, cutoff, now, broken), id)
  {
    NotExpiredUntouched(db, scope, cutoff, now, broken, id);
  }

  /** Nor of a card that still waits for an answer. */
  lemma PendingCardUntouched(db: Db, scope: Scope, cutoff: string, now: string, broken: set<Object>, id: Id)
    requires id in db.messages && db.messages[id].metadata.Some?
    requires var text := db.messages[id].metadata.value;
             Contains(text, "\"cardType\"") && Contains(text, "\"status\":\"pending\"")
    ensures Untouched(db, Purge(db, scope, cutoff, now, broken), id)
  {
    NotExpiredUntouched(db, scope, cutoff, now, broken, id);
  }

  // What the limit says of one message: of the scope, older than the cutoff, no waiting card, on no hold.
  predicate PastLimit(db: Db, scope: Scope, cutoff: string, m: Message) {
    && (if scope == Channels then m.channel != None else m.chat != None) && Less(m.createdAt, cutoff) && !Held(db, m)
    && (m.metadata == None || !Contains(m.metadata.value, "\"cardType\"")
        || !Contains(m.metadata.value, "\"status\":\"pending\""))
  }

  /** Everything else that nobody answers goes, with its edits, its files and its search entry... */
  lemma UnansweredGoes(db: Db, scope: Scope, cutoff: string, now: string, broken: set<Object>, id: Id)
    requires id in db.messages && PastLimit(db, scope, cutoff, db.messages[id])
    requires forall r | r in db.messages :: db.messages[r].parent != Some(id)
    ensures Emptied(Purge(db, scope, cutoff, now, broken), id)
            && id !in Purge(db, scope, cutoff, now, broken).messages
  {
    hide Expired;
    assert Expired(db, scope, cutoff, db.messages[id]) by { PastLimitExpired(db, scope, cutoff, db.messages[id]); }
    forall d | d in db.messages && Under(db, d, id) ensures d == id {
      if d != id {
        var _ := UnderChild(db, d, id);
        assert false;
      }
    }
    assert !ChildOf(db, id, id);
    assert id in GoneSet(db, scope, cutoff);
    hide References;
  }

  lemma PastLimitExpired(db: Db, scope: Scope, cutoff: string, m: Message)
    ensures PastLimit(db, scope, cutoff, m) <==> Expired(db, scope, cutoff, m)
  {
  }

  // No edit, file or search entry of the message is left.
  ghost predicate Emptied(db: Db, id: Id) {
    db.EditsOf(id) == [] && id !in db.indexed && forall a | a in db.attachments :: db.attachments[a].message != id
  }

  /** ... and so does a whole thread, when each message in it is past the limit and none names itself. */
  lemma ThreadGoes(db: Db, scope: Scope, cutoff: string, now: string, broken: set<Object>, id: Id, thread: set<Id>)
    requires ValidRows(db) && id in thread && thread <= db.messages.Keys
    requires forall r | r in db.messages && db.messages[r].parent.Some? && db.messages[r].parent.value in thread ::
               r in thread
    requires forall d | d in thread :: PastLimit(db, scope, cutoff, db.messages[d]) && !OwnParent(db, d)
    ensures id !in Purge(db, scope, cutoff, now, broken).messages && Emptied(Purge(db, scope, cutoff, now, broken), id)
  {
    hide Expired, ValidRows, PastLimit;
    forall d | d in db.messages && Under(db, d, id) ensures Expired(db, scope, cutoff, db.messages[d]) {
      StaysIn(db, d, id, thread);
      PastLimitExpired(db, scope, cutoff, db.messages[d]);
    }
    assert id in GoneSet(db, scope, cutoff);
    hide References;
  }

  lemma {:induction false} StaysIn(db: Db, id: Id, root: Id, thread: set<Id>)
    requires Under(db, id, root) && root in thread
    requires forall r | r in db.messages && db.messages[r].parent.Some? && db.messages[r].parent.value in thread ::
               r in thread
    ensures id in thread
    decreases id
  {
    if id != root { StaysIn(db, db.messages[id].parent.value, root, thread); }
  }

  /** A post with an answer that stays is kept for it, as an empty one: its text, metadata, edits, files and
      search entry go, who wrote it where and when stays. */
  lemma AnsweredIsEmptied(db: Db, scope: Scope, cutoff: string, now: string, broken: set<Object>, id: Id, reply: Id)
    requires ValidRows(db) && id in db.messages && PastLimit(db, scope, cutoff, db.messages[id])
    requires db.messages[id].parent == None && !db.messages[id].deleted
    requires reply in db.messages && db.messages[reply].parent == Some(id)
             && !PastLimit(db, scope, cutoff, db.messages[reply])
    ensures var db', m := Purge(db, scope, cutoff, now, broken), db.messages[id];
            && id in db'.messages && Emptied(db', id)
            && db'.messages[id] ==
               Message(m.channel, m.chat, m.author, "", None, None, m.edited, true, m.createdAt, now)
  {
    KeptForReply(db, scope, cutoff, id, reply);
    PastLimitExpired(db, scope, cutoff, db.messages[id]);
    hide Expired, References, ValidRows, PastLimit, GoneSet;
    assert id in ClearedSet(db, scope, cutoff);
  }

  /** A reply, or a post emptied before, is left as it is for an answer that stays. */
  lemma AnsweredReplyUntouched(db: Db, scope: Scope, cutoff: string, now: string, broken: set<Object>, id: Id,
                               reply: Id)
    requires ValidRows(db) && id in db.messages && (db.messages[id].parent.Some? || db.messages[id].deleted)
    requires reply in db.messages && db.messages[reply].parent == Some(id)
             && !PastLimit(db, scope, cutoff, db.messages[reply])
    ensures Untouched(db, Purge(db, scope, cutoff, now, broken), id)
  {
    KeptForReply(db, scope, cutoff, id, reply);
    hide Expired, ValidRows, PastLimit, GoneSet, Purge, Untouched;
    LeftAlone(db, scope, cutoff, now, broken, id);
  }

  lemma KeptForReply(db: Db, scope: Scope, cutoff: string, id: Id, reply: Id)
    requires ValidRows(db) && id in db.messages && reply in db.messages && db.messages[reply].parent == Some(id)
             && !PastLimit(db, scope, cutoff, db.messages[reply])
    ensures id !in GoneSet(db, scope, cutoff)
  {
    PastLimitExpired(db, scope, cutoff, db.messages[reply]);
    hide Expired, PastLimit;
    assert Under(db, id, id);
    assert Under(db, reply, id);
  }

  lemma HeldObjectsUsed(db: Db, db': Db, id: Id)
    requires forall a | a in db.attachments && db.attachments[a].message == id ::
               a in db'.attachments && db'.attachments[a] == db.attachments[a]
    requires forall v | v in db.versions && v.attachment in db.attachments
             && db.attachments[v.attachment].message == id ::
               v in db'.versions && db'.versions[v] == db.versions[v]
    ensures ObjectsUsedBy(db, {id}) <= References(db')
  {
    forall o | o in ObjectsUsedBy(db, {id}) ensures o in References(db') {
      if a :| a in db.attachments && db.attachments[a].message in {id} && o in db.attachments[a].file.Objects() {
        assert a in db'.attachments;
      } else {
        var v :| v in db.versions && v.attachment in db.attachments && db.attachments[v.attachment].message in {id}
          && o in db.versions[v].file.Objects();
        assert v in db'.versions;
      }
    }
  }

  /** A post is cleared, rather than deleted, only for a reply under it that stays. */
  lemma ClearedForAReply(db: Db, scope: Scope, cutoff: string, now: string, broken: set<Object>, id: Id)
    requires ValidRows(db) && id in ClearedSet(db, scope, cutoff)
    ensures exists d :: d in Purge(db, scope, cutoff, now, broken).messages && d != id && Under(db, d, id)
  {
    var d :| d in db.messages && Under(db, d, id) && !Expired(db, scope, cutoff, db.messages[d]);
    assert Under(db, d, d);
    assert d !in GoneSet(db, scope, cutoff);
  }

  /** The preview counts the messages past the limit. */
  lemma PreviewCounts(db: Db, scope: Scope, cutoff: string)
    ensures Preview(db, scope, cutoff) == |set id | id in db.messages && PastLimit(db, scope, cutoff, db.messages[id])|
  {
    var past := set id | id in db.messages && PastLimit(db, scope, cutoff, db.messages[id]);
    forall id | id in db.messages ensures id in past <==> id in MayGo(db, scope, cutoff) {
      PastLimitExpired(db, scope, cutoff, db.messages[id]);
    }
    assert past == MayGo(db, scope, cutoff);
  }

  /** A run deletes and clears no more messages than the preview shown before it counted. */
  lemma PreviewBoundsRun(db: Db, scope: Scope, cutoff: string)
    ensures |GoneSet(db, scope, cutoff)| + |ClearedSet(db, scope, cutoff)| <= Preview(db, scope, cutoff)
  {
    var may := MayGo(db, scope, cutoff);
    assert GoneSet(db, scope, cutoff) <= may by {
      forall id | id in GoneSet(db, scope, cutoff) ensures id in may {
        assert Under(db, id, id);
      }
    }
    DisjointSizes(GoneSet(db, scope, cutoff), ClearedSet(db, scope, cutoff), may);
  }

  lemma DisjointSizes(a: set<Id>, b: set<Id>, whole: set<Id>)
    requires a <= whole && b <= whole && a !! b
    ensures |a| + |b| <= |whole|
  {
    assert |a + b| == |a| + |b|;
    SubsetSize(a + b, whole);
  }

  /** The storage keeps every object something still uses, and loses every object whose last use the run
      removed, in whichever batches its uses fell, unless the storage refused. */
  lemma StorageFollowsUse(db: Db, scope: Scope, cutoff: string, now: string, broken: set<Object>, o: Object)
    requires o in db.stored
    ensures var db' := Purge(db, scope, cutoff, now, broken);
            && References(db') <= References(db)
            && (o in References(db') ==> o in db'.stored)
            && (o in References(db) && o !in References(db') && o !in broken ==> o !in db'.stored)
            && (o !in References(db) ==> o in db'.stored)
  {
    var db' := Purge(db, scope, cutoff, now, broken);
    var rows := RowsAfter(db, GoneSet(db, scope, cutoff), ClearedSet(db, scope, cutoff), now);
    assert References(db') == References(rows) ==
             References(WithoutAttachments(db, GoneSet(db, scope, cutoff) + ClearedSet(db, scope, cutoff)));
    ReferencesSplit(db, GoneSet(db, scope, cutoff) + ClearedSet(db, scope, cutoff));
  }
}
