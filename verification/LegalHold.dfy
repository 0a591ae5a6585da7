/** Legal hold: which messages an active hold covers, the copy kept when one is deleted, and what
    blocks deleting a channel or a team. */
module LegalHold {
  import opened Common
  import opened Tables

  /** The condition under which one hold covers a message; a NULL column equals nothing. */
  predicate Covers(db: Db, hold: Hold, m: Message) {
    match hold.scope
    case Channel => m.channel == Some(hold.scopeId)
    case Chat => m.chat == Some(hold.scopeId)
    case Person =>
      m.author == Some(hold.scopeId) ||
      (m.chat.Some? && Participant(m.chat.value, hold.scopeId) in db.participants)
  }

  predicate ActiveOn(db: Db, h: Id, m: Message) {
    h in db.holds && !db.holds[h].released && Covers(db, db.holds[h], m)
  }

  /** heldSql: EXISTS an active hold covering the row. */
  predicate Held(db: Db, m: Message) {
    exists h :: h in db.holds && ActiveOn(db, h, m)
  }

  /** holdsFor: the ids of the active holds joined to this message's row, in order. */
  ghost function HoldsFor(db: Db, id: Id): seq<Id> {
    if id in db.messages then SortedIds(set h | h in db.holds && ActiveOn(db, h, db.messages[id])) else []
  }

  /** The two queries agree: retention skips a message exactly when deleting it would keep a copy. */
  lemma HeldIffHoldsFor(db: Db, id: Id)
    requires id in db.messages
    ensures Held(db, db.messages[id]) <==> HoldsFor(db, id) != []
    ensures forall h :: h in HoldsFor(db, id) <==> ActiveOn(db, h, db.messages[id])
  {
    var ids := HoldsFor(db, id);
    if Held(db, db.messages[id]) {
      var h :| h in db.holds && ActiveOn(db, h, db.messages[id]);
      assert h in ids;
    }
    if ids != [] {
      assert ids[0] in ids;
      assert ActiveOn(db, ids[0], db.messages[id]);
    }
  }

  predicate OnHold(db: Db, scope: HoldScope, target: Option<Id>) {
    exists h: Id ::
      h in db.holds && Some(db.holds[h].scopeId) == target && db.holds[h].scope == scope && !db.holds[h].released
  }

  /** A message is held exactly while its channel, its chat, its author or a person in its chat is. */
  lemma HeldIff(db: Db, m: Message)
    ensures Held(db, m) <==>
            OnHold(db, Channel, m.channel) || OnHold(db, Chat, m.chat) || OnHold(db, Person, m.author)
            || exists p :: p in db.participants && Some(p.chat) == m.chat && OnHold(db, Person, Some(p.user))
  {
    if Held(db, m) {
      var h :| h in db.holds && ActiveOn(db, h, m);
      if db.holds[h].scope == Person && m.author != Some(db.holds[h].scopeId) {
        var p := Participant(m.chat.value, db.holds[h].scopeId);
        assert p in db.participants && Some(p.chat) == m.chat && OnHold(db, Person, Some(p.user));
      }
    }
    forall scope: HoldScope, target: Option<Id>
      | OnHold(db, scope, target) && (match scope case Channel => target == m.channel case Chat => target == m.chat
                                      case Person => target == m.author)
      ensures Held(db, m) {
      var h: Id :| h in db.holds && Some(db.holds[h].scopeId) == target && db.holds[h].scope == scope
        && !db.holds[h].released;
      assert ActiveOn(db, h, m);
    }
    if p :| p in db.participants && Some(p.chat) == m.chat && OnHold(db, Person, Some(p.user)) {
      var h: Id :| h in db.holds && Some(db.holds[h].scopeId) == Some(p.user) && db.holds[h].scope == Person
        && !db.holds[h].released;
      assert p == Participant(m.chat.value, db.holds[h].scopeId);
      assert ActiveOn(db, h, m);
    }
  }

  /** What preserveMessage writes for the row as the caller read it (`msg`). */
  ghost function Copy(db: Db, id: Id, msg: Message, recalled: bool): Preserved {
    Preserved(id, HoldsFor(db, id), msg.author, msg.channel, msg.chat, msg.body, msg.metadata, db.EditsOf(id),
              set a | a in db.attachments && db.attachments[a].message == id :: db.attachments[a].file.Key(), recalled)
  }

  method QueryHoldsFor(db: Database, id: Id) returns (ids: seq<Id>)
    ensures ids == HoldsFor(db.Rows(), id)
  {
    if id !in db.messages { return []; }
    var m := db.messages[id];
    var active := set h | h in db.holds && ActiveOn(db.Rows(), h, m);
    var picked;
    ids, picked := FirstIds(active, |active| + 1);
    forall x: Id ensures x in ids <==> x in HoldsFor(db.Rows(), id) {
      assert x in active <==> x in HoldsFor(db.Rows(), id);
    }
    AscendingUnique(ids, HoldsFor(db.Rows(), id));
  }

  method PreserveMessage(db: Database, id: Id, msg: Message, holds: seq<Id>, recalled: bool)
    requires holds == HoldsFor(db.Rows(), id)
    modifies db`preserved
    ensures db.preserved == old(db.preserved) + [Copy(old(db.Rows()), id, msg, recalled)]
  {
    var edits := if id in db.edits then db.edits[id] else [];
    var files := set a | a in db.attachments && db.attachments[a].message == id :: db.attachments[a].file.Key();
    db.preserved := db.preserved + [Preserved(id, holds, msg.author, msg.channel, msg.chat, msg.body, msg.metadata,
      edits, files, recalled)];
  }

  // ---------------------------------------------------------------------------- deleting channels and teams

  const CHANNEL_HELD :=
    "This channel has messages on legal hold, so it can\U{2019}t be deleted until the hold is released."
  const TEAM_HELD :=
    "This team has messages on legal hold, so it can\U{2019}t be deleted until the hold is released."

  function ChannelDeleteBlock(db: Db, channel: Id): (why: Option<string>)
    ensures why == None <==> forall id | id in db.messages && db.messages[id].channel == Some(channel) ::
              !Held(db, db.messages[id])
  {
    if exists id :: id in db.messages && db.messages[id].channel == Some(channel) && Held(db, db.messages[id])
    then Some(CHANNEL_HELD) else None
  }

  /** JOIN channels c ON c.id = m.channel_id WHERE c.team_id = team. */
  function TeamDeleteBlock(db: Db, team: Id): (why: Option<string>)
    ensures why == None <==>
            forall c | c in db.channelTeam && db.channelTeam[c] == team :: ChannelDeleteBlock(db, c) == None
  {
    if exists id ::
      id in db.messages && db.messages[id].channel.Some? && db.messages[id].channel.value in db.channelTeam &&
                    db.channelTeam[db.messages[id].channel.value] == team && Held(db, db.messages[id])
    then Some(TEAM_HELD) else None
  }

  /** Messages of these channels. */
  function MessagesIn(db: Db, channels: set<Id>): set<Id> {
    set id | id in db.messages && db.messages[id].channel.Some? && db.messages[id].channel.value in channels
  }

  /** DELETE FROM channels: the channels' messages go, and with them every reply under one. */
  function DropChannels(db: Db, channels: set<Id>): Db {
    DeleteMessages(db, MessagesIn(db, channels)).(channelTeam := db.channelTeam - channels)
  }

  /** DELETE /api/channels/:id and /api/teams/:id, after the permission checks. */
  function DeleteChannel(db: Db, channel: Id): Db {
    if ChannelDeleteBlock(db, channel).Some? then db else DropChannels(db, {channel})
  }

  function DeleteTeam(db: Db, team: Id): Db {
    if TeamDeleteBlock(db, team).Some? then db
    else DropChannels(db, ChannelsOf(db, team))
  }

  function ChannelsOf(db: Db, team: Id): set<Id> {
    set c | c in db.channelTeam && db.channelTeam[c] == team
  }

  /** The messages of these channels are gone and so is every reply under one; every other message is as it
      was, and so are the copies kept. */
  ghost predicate ChannelsTaken(db: Db, db': Db, channels: set<Id>) {
    && (forall id | id in db'.messages ::
          && id in db.messages && db'.messages[id] == db.messages[id] && !InSome(db.messages[id], channels)
          && (db.messages[id].parent.Some? ==> db.messages[id].parent.value in db'.messages))
    && (forall id | id in db.messages && id !in db'.messages ::
          InSome(db.messages[id], channels)
            || (db.messages[id].parent.Some? && db.messages[id].parent.value !in db'.messages))
    && db'.channelTeam == db.channelTeam - channels && db'.preserved == db.preserved
  }

  /** Deleting a channel or a team with nothing on hold takes its channels; otherwise it changes nothing. */
  lemma DeletionTakes(db: Db, target: Id, team: bool)
    requires ValidRows(db)
    ensures var db' := if team then DeleteTeam(db, target) else DeleteChannel(db, target);
            var channels := if team then set c | c in db.channelTeam && db.channelTeam[c] == target else {target};
            if exists id :: id in db.messages && InSome(db.messages[id], channels) && Held(db, db.messages[id])
            then db' == db else ChannelsTaken(db, db', channels)
  {
    var channels := if team then ChannelsOf(db, target) else {target};
    DropTakes(db, channels);
    hide ValidRows, Held, DropChannels, ChannelsTaken;
    if team {
      TeamBlocked(db, target);
    }
  }

  predicate InSome(m: Message, channels: set<Id>) {
    m.channel.Some? && m.channel.value in channels
  }

  lemma TeamBlocked(db: Db, team: Id)
    ensures TeamDeleteBlock(db, team).Some? <==>
            exists id :: id in db.messages && InSome(db.messages[id], ChannelsOf(db, team)) && Held(db, db.messages[id])
  {
    hide Held;
    if id :| id in db.messages && InSome(db.messages[id], ChannelsOf(db, team)) && Held(db, db.messages[id]) {
      assert ChannelDeleteBlock(db, db.messages[id].channel.value) != None;
    }
    if c :| c in db.channelTeam && db.channelTeam[c] == team && ChannelDeleteBlock(db, c) != None {
      var id :| id in db.messages && db.messages[id].channel == Some(c) && Held(db, db.messages[id]);
      assert InSome(db.messages[id], ChannelsOf(db, team));
    }
  }

  lemma DropTakes(db: Db, channels: set<Id>)
    requires ValidRows(db)
    ensures ChannelsTaken(db, DropChannels(db, channels), channels)
  {
    hide ValidRows, Cascade;
    var own, gone := MessagesIn(db, channels), Cascade(db, MessagesIn(db, channels));
    assert DropChannels(db, channels).messages == db.messages - gone;
    forall id | id in db.messages
      ensures id in gone <==> id in own || (db.messages[id].parent.Some? && db.messages[id].parent.value in gone) {
      CascadeIff(db, own, id);
    }
    ParentsThere(db);
  }

  lemma ParentsThere(db: Db)
    requires ValidRows(db)
    ensures forall id | id in db.messages && db.messages[id].parent.Some? :: db.messages[id].parent.value in db.messages
  {
  }

  /** What a cascade takes: the rows themselves, and every row whose parent it takes. */
  lemma CascadeIff(db: Db, ids: set<Id>, id: Id)
    requires ValidRows(db) && id in db.messages && ids <= db.messages.Keys
    ensures id in Cascade(db, ids) <==>
            id in ids || (db.messages[id].parent.Some? && db.messages[id].parent.value in Cascade(db, ids))
  {
    if id in ids { assert Under(db, id, id); }
    if db.messages[id].parent.Some? && db.messages[id].parent.value in Cascade(db, ids) {
      var p := db.messages[id].parent.value;
      var root :| root in ids && Under(db, p, root);
      assert p == id || Under(db, id, root);
    }
    if id in Cascade(db, ids) && id !in ids {
      var root :| root in ids && Under(db, id, root);
      assert Under(db, db.messages[id].parent.value, root);
    }
  }

  /** A reply is in the same channel as the message it answers, or neither is in one. The routes that
      post a reply do not check this: parent_message_id is taken from the request as it is. */
  predicate RepliesStayInPlace(db: Db) {
    forall id | id in db.messages && db.messages[id].parent.Some? && db.messages[id].parent.value in db.messages ::
      db.messages[db.messages[id].parent.value].channel == db.messages[id].channel
  }

  lemma {:induction false} SamePlaceUnder(db: Db, id: Id, root: Id)
    requires RepliesStayInPlace(db) && ValidRows(db) && Under(db, id, root)
    ensures root in db.messages && db.messages[id].channel == db.messages[root].channel
    decreases id
  {
    if id != root {
      SamePlaceUnder(db, db.messages[id].parent.value, root);
    }
  }

  ghost predicate SparesHeld(db: Db, after: Db) {
    forall id | id in db.messages && Held(db, db.messages[id]) :: id in after.messages
  }

  /** A held reply, posted outside these channels, in the reply tree under a message of theirs. */
  ghost predicate HeldReplyElsewhere(db: Db, channels: set<Id>) {
    exists id, root ::
      root in MessagesIn(db, channels) && Under(db, id, root) && id !in MessagesIn(db, channels)
      && Held(db, db.messages[id])
  }

  /** The blocks look at the channels' own messages only: what dropping unblocked channels destroys that
      is held is exactly the held replies posted elsewhere. */
  lemma DropSparesHeldIff(db: Db, channels: set<Id>)
    requires forall c | c in channels :: ChannelDeleteBlock(db, c) == None
    ensures SparesHeld(db, DropChannels(db, channels)) <==> !HeldReplyElsewhere(db, channels)
  {
    var gone := Cascade(db, MessagesIn(db, channels));
    assert DropChannels(db, channels).messages == db.messages - gone;
    if HeldReplyElsewhere(db, channels) {
      var id, root :| root in MessagesIn(db, channels) && Under(db, id, root) && id !in MessagesIn(db, channels)
        && Held(db, db.messages[id]);
      assert id in gone;
    } else {
      forall id | id in db.messages && Held(db, db.messages[id]) ensures id !in gone {
        assert id !in MessagesIn(db, channels);
      }
    }
  }

  /** A channel's or a team's deletion destroys a held message exactly when it is not blocked and such a
      reply is there. */
  lemma DeletionsSpareHeldIff(db: Db, target: Id)
    ensures SparesHeld(db, DeleteChannel(db, target)) <==>
              ChannelDeleteBlock(db, target).Some? || !HeldReplyElsewhere(db, {target})
    ensures SparesHeld(db, DeleteTeam(db, target)) <==>
              TeamDeleteBlock(db, target).Some? || !HeldReplyElsewhere(db, ChannelsOf(db, target))
  {
    if ChannelDeleteBlock(db, target) == None { DropSparesHeldIff(db, {target}); }
    if TeamDeleteBlock(db, target) == None { DropSparesHeldIff(db, ChannelsOf(db, target)); }
  }

  /** Where replies stay in their post's place, neither deletion destroys a held message. */
  lemma DeletionsSpareHeld(db: Db, target: Id)
    requires ValidRows(db) && RepliesStayInPlace(db)
    ensures forall id | id in db.messages && Held(db, db.messages[id]) ::
              id in DeleteChannel(db, target).messages && id in DeleteTeam(db, target).messages
  {
    forall id | id in db.messages && Held(db, db.messages[id])
      ensures id in DeleteChannel(db, target).messages && id in DeleteTeam(db, target).messages
    {
      DropSparesHeld(db, {target}, id);
      DropSparesHeld(db, ChannelsOf(db, target), id);
    }
  }

  lemma DropSparesHeld(db: Db, channels: set<Id>, id: Id)
    requires ValidRows(db) && RepliesStayInPlace(db)
    requires id in db.messages && Held(db, db.messages[id])
    ensures (forall c | c in channels :: ChannelDeleteBlock(db, c) == None) ==>
              id in DropChannels(db, channels).messages
  {
    if root :| root in MessagesIn(db, channels) && Under(db, id, root) {
      SamePlaceUnder(db, id, root);
      var c := db.messages[root].channel.value;
      assert ChannelDeleteBlock(db, c) != None;
    }
  }

  const NO_ROWS := Db(map[], map[], map[], map[], map[], map[], {}, map[], [], {}, {})

  /** A post in channel 1 of team 4 and, under it, a reply by held person 7 posted in channel 2 of
      team 5: nothing in channel 1 or team 4 is held, so either can be deleted, and the held reply goes
      with it, uncopied. */
  lemma HeldReplyElsewhereIsDestroyed() returns (db: Db)
    ensures ValidRows(db) && !RepliesStayInPlace(db)
    ensures 11 in db.messages && Held(db, db.messages[11]) && ChannelDeleteBlock(db, 1) == None
            && TeamDeleteBlock(db, 4) == None
    ensures 11 !in DeleteChannel(db, 1).messages && DeleteChannel(db, 1).preserved == []
    ensures 11 !in DeleteTeam(db, 4).messages && DeleteTeam(db, 4).preserved == []
  {
    var post := Message(Some(1), None, Some(5), "post", None, None, false, false, "2026-01-01 00:00:00",
      "2026-01-01 00:00:00");
    var reply := Message(Some(2), None, Some(7), "reply", None, Some(10), false, false, "2026-01-01 00:00:01",
      "2026-01-01 00:00:01");
    db := NO_ROWS.(messages := map[10 := post, 11 := reply], holds := map[3 := Hold(Person, 7, false)],
      channelTeam := map[1 := 4, 2 := 5]);
    assert ActiveOn(db, 3, reply);
    assert Under(db, 10, 10) && Under(db, 11, 10);
    assert 10 in MessagesIn(db, {1}) && 11 in Cascade(db, MessagesIn(db, {1}));
    assert 1 in ChannelsOf(db, 4) && 10 in MessagesIn(db, ChannelsOf(db, 4))
           && 11 in Cascade(db, MessagesIn(db, ChannelsOf(db, 4)));
  }
}
