/** What each call handler does, told by who is in which call: it takes out or brings in exactly the one
    it is about, ends exactly the calls that are over, and leaves every other call alone. */
module CallLaws {
  import opened Common
  import opened Rooms
  import opened GroupCalls

  // ---------------------------------------------------------------------------- what a handler may change

  /** Nobody is in it, or one person's devices only. */
  predicate OneAtMost(members: set<Socket>) {
    forall s, t | s in members && t in members :: s.user == t.user
  }

  lemma OneAtMostIff(members: set<Socket>)
    ensures DistinctUsers(members) < 2 <==> OneAtMost(members)
  {
    var users := Users(members);
    if OneAtMost(members) {
      if s :| s in members {
        assert users == {s.user};
      } else {
        assert users == {};
      }
    } else {
      var s, t :| s in members && t in members && s.user != t.user;
      SubsetSize({s.user, t.user}, users);
    }
  }

  predicate OtherCallsSame(w: World, w': World, id: CallId) {
    && (forall c | c in w.calls && c != id :: c in w'.calls && w'.calls[c] == w.calls[c])
    && (forall c | c in w'.calls && c != id :: c in w.calls)
    && (forall c | c in w.records && c != id :: c in w'.records && w'.records[c] == w.records[c])
    && (forall s | s in w.rooms && w.rooms[s] != InCall(id) :: s in w'.rooms && w'.rooms[s] == w.rooms[s])
  }

  /** The call is over for that reason: it and its place are free, no connection is in its room, its record
      waits for the outcome, and every other call is as it was. */
  predicate Over(w: World, w': World, id: CallId, reason: Reason)
    requires id in w.calls
  {
    var call := w.calls[id];
    && OtherCallsSame(w, w', id) && w'.used == w.used && w'.records == w.records
    && id !in w'.calls && call.place !in w'.byPlace
    && (forall p | p in w.byPlace && p != call.place :: p in w'.byPlace && w'.byPlace[p] == w.byPlace[p])
    && (forall p | p in w'.byPlace :: p in w.byPlace)
    && (forall s | s in w'.rooms :: s in w.rooms && w'.rooms[s] != InCall(id))
    && w'.ending == w.ending[id := Ending(Record(call.place, call.direct, call.startedBy, call.startedAt,
         call.connectedAt, call.postId), reason, false)]
  }

  /** The call goes on as `call`, and only the connections in `moved` go in or out of its room. */
  ghost predicate GoesOnAs(w: World, w': World, id: CallId, call: Call, moved: set<Socket>) {
    && OtherCallsSame(w, w', id) && w'.byPlace == w.byPlace && w'.ending == w.ending && w'.used == w.used
    && id in w'.calls && w'.calls[id] == call
    && (forall s | s !in moved :: (s in w.rooms <==> s in w'.rooms) && (s in w.rooms ==> w'.rooms[s] == w.rooms[s]))
  }

  // ---------------------------------------------------------------------------- leaving

  /** The last connection goes; or, of two people talking in a 1:1 chat, the last one of either. */
  predicate LastToLeave(call: Call, s: Socket) {
    call.members == {s} || (call.direct && !OneAtMost(call.members) && OneAtMost(call.members - {s}))
  }

  /** Leaving takes the connection out, ends the call when it is the last to leave, and otherwise lets the
      others go on. */
  ghost predicate Left(w: World, w': World, s: Socket, id: CallId)
    requires id in w.calls
  {
    if LastToLeave(w.calls[id], s) then Over(w, w', id, OtherReason)
    else GoesOnAs(w, w', id, w.calls[id].(members := w.calls[id].members - {s}), {s})
         && (s in w'.rooms ==> w'.rooms[s] != InCall(id)) && w'.records == w.records
  }

  lemma ConnectedIff(w: World, id: CallId)
    requires Valid(w) && id in w.calls
    ensures w.calls[id].connected <==> w.calls[id].direct && !OneAtMost(w.calls[id].members)
    ensures w.calls[id].direct && w.calls[id].members == {} ==> !w.calls[id].connected
    ensures !OneAtMost(w.calls[id].members) ==> w.calls[id].connectedAt.Some?
  {
    OneAtMostIff(w.calls[id].members);
    hide DistinctUsers;
    assert CallAlive(w.calls[id]);
  }

  lemma EndIsOver(w: World, id: CallId, reason: Reason)
    requires Valid(w) && id in w.calls
    ensures Over(w, End(w, id, reason), id, reason)
  {
    hide DistinctUsers, OneCallPerUser, CallsAlive;
    assert forall c | c in w.calls && c != id :: w.calls[c].place != w.calls[id].place;
  }

  /** gcall:leave, of someone in the call. */
  lemma LeaveLaw(w: World, s: Socket, id: CallId)
    requires Valid(w) && id in w.calls && s in w.calls[id].members
    ensures Left(w, Step(w, EvLeave(s, id)), s, id)
  {
    LeaveCallLaw(w, s, id);
    ConnectedIff(w, id);
    EndIsOver(w, id, OtherReason);
    hide Valid, LeaveCall, Over, GoesOnAs, End;
    if |w.calls[id].members| == 1 {
      OnlyOne(w.calls[id].members, s);
    }
  }

  lemma OnlyOne(members: set<Socket>, s: Socket)
    requires s in members && |members| == 1
    ensures members == {s}
  {
    SubsetSize(members - {s}, {});
    assert |members - {s}| == 0;
  }

  lemma LeaveCallLaw(w: World, s: Socket, id: CallId)
    requires Valid(w) && id in w.calls && s in w.calls[id].members
    ensures Left(w, LeaveCall(w, s, id), s, id)
  {
    ConnectedIff(w, id);
    OneAtMostIff(w.calls[id].members - {s});
    assert w.calls[id].members - {s} == {} <==> w.calls[id].members == {s};
    OneOut(w, s, id);
    LeftThenEnds(w, s, id);
    hide Valid, DistinctUsers, Over, OneAtMost, GoesOnAs, End, RoomsWithout;
  }

  function Without(w: World, s: Socket, id: CallId): World
    requires id in w.calls
  {
    w.(calls := w.calls[id := w.calls[id].(members := w.calls[id].members - {s})],
       rooms := RoomsWithout(w.rooms, {s}, id))
  }

  lemma OneOut(w: World, s: Socket, id: CallId)
    requires id in w.calls
    ensures var left := Without(w, s, id);
            GoesOnAs(w, left, id, w.calls[id].(members := w.calls[id].members - {s}), {s})
              && (s in left.rooms ==> left.rooms[s] != InCall(id))
  {
  }

  lemma LeftThenEnds(w: World, s: Socket, id: CallId)
    requires Valid(w) && id in w.calls && s in w.calls[id].members
    ensures Over(w, End(Without(w, s, id), id, OtherReason), id, OtherReason)
  {
    hide DistinctUsers, OneCallPerUser, CallsAlive, RecordsFollow;
    var left := Without(w, s, id);
    var over := End(left, id, OtherReason);
    assert over.calls == w.calls - {id};
    forall t | t in over.rooms ensures t in w.rooms && over.rooms[t] != InCall(id) && over.rooms[t] == w.rooms[t] {
      assert t in left.rooms;
    }
    hide Valid, OneCallPerPlace, RoomsAreMembers;
  }

  /** Whoever is in no call, or leaves another, changes nothing. */
  lemma OthersLeaveNothing(w: World, s: Socket, id: CallId)
    requires id !in w.calls || s !in w.calls[id].members
    ensures Step(w, EvLeave(s, id)) == w
  {
  }

  lemma LeaveOutOfRooms(w: World, s: Socket, id: CallId)
    requires Valid(w) && id in w.calls && s in w.calls[id].members
    ensures var w' := Leave(w, s, id);
            && RoomsAreMembers(w')
            && forall c | c in w'.calls && s in w'.calls[c].members :: c in w.calls && s in w.calls[c].members
  {
    LeaveValid(w, s, id);
    hide DistinctUsers, OneCallPerUser, OneCallPerPlace, CallsAlive, RoomsAreMembers;
  }

  /** After leaving, no call has the connection, and no room of a call does. */
  lemma LeaveLeavesNothing(w: World, s: Socket, id: CallId)
    requires Valid(w) && id in w.calls && s in w.calls[id].members
    ensures var w' := Step(w, EvLeave(s, id));
            && (forall c | c in w'.calls :: s !in w'.calls[c].members)
            && (s in w'.rooms ==> !w'.rooms[s].InCall?)
  {
    LeaveLaw(w, s, id);
    OnlyCallOf(w, s);
    LeaveOutOfRooms(w, s, id);
    hide Valid, Leave, OneAtMost;
  }

  /** A 1:1 call that has been answered is over for both as soon as one of the two hangs up. */
  lemma HangingUpEndsTheCall(w: World, s: Socket, id: CallId)
    requires Valid(w) && id in w.calls && s in w.calls[id].members && w.calls[id].direct && w.calls[id].connected
    requires forall t, u | t in w.calls[id].members - {s} && u in w.calls[id].members - {s} :: t.user == u.user
    ensures var w' := Step(w, EvLeave(s, id));
            id !in w'.calls && w.calls[id].place !in w'.byPlace && forall t | t in w'.rooms :: w'.rooms[t] != InCall(id)
  {
    LeaveLaw(w, s, id);
    ConnectedIff(w, id);
  }

  /** A connection that drops leaves as one that hangs up. */
  lemma DisconnectLaw(w: World, s: Socket)
    requires Valid(w)
    ensures (forall c | c in w.calls :: s !in w.calls[c].members) ==> Step(w, EvDisconnect(s)) == w
    ensures forall c | c in w.calls && s in w.calls[c].members :: Left(w, Step(w, EvDisconnect(s)), s, c)
  {
    OnlyCallOf(w, s);
    if exists id :: id in w.calls && s in w.calls[id].members {
      var id :| id in w.calls && s in w.calls[id].members && Disconnect(w, s) == LeaveCall(w, s, id);
      LeaveCallLaw(w, s, id);
      hide Valid, LeaveCall, Left;
    }
  }

  // ---------------------------------------------------------------------------- starting and joining

  predicate InNoCallBut(w: World, user: UserId, but: Option<CallId>) {
    forall c, s | c in w.calls && s in w.calls[c].members && s.user == user :: but == Some(c)
  }

  lemma InNoCallIff(w: World, user: UserId, but: Option<CallId>)
    ensures InNoCallBut(w, user, but) <==> !InCallBut(w.calls, user, but)
  {
    if c :| c in w.calls && but != Some(c) && user in Users(w.calls[c].members) {
      var s :| s in w.calls[c].members && s.user == user;
    }
    if c, s :| c in w.calls && s in w.calls[c].members && s.user == user && but != Some(c) {
      assert user in Users(w.calls[c].members);
    }
  }

  /** gcall:start begins a ringing call with nobody in it, exactly where none runs, for someone in no call,
      and to one person only if that person is there and in no call either. */
  lemma StartLaw(w: World, user: UserId, place: Place, direct: bool, other: UserId, online: bool, postId: Option<nat>,
                 id: CallId, now: nat)
    requires Valid(w) && id !in w.used
    ensures var w' := Step(w, EvStart(user, place, direct, other, online, postId, id, now));
            if (forall c | c in w.calls :: w.calls[c].place != place) && InNoCallBut(w, user, None)
               && (direct ==> online && InNoCallBut(w, other, None))
            then w' == World(w.calls[id := Call(place, direct, user, now, false, None, postId, {}, true)],
                             w.byPlace[place := id], w.rooms,
                             w.records[id := Record(place, direct, user, now, None, postId)], w.ending, w.used + {id})
                 && id !in w.calls
            else w' == w
  {
    InNoCallIff(w, user, None);
    InNoCallIff(w, other, None);
    hide InCallBut, InNoCallBut, OneCallPerUser, CallsAlive, RoomsAreMembers;
  }

  /** gcall:join puts the connection in, exactly when the call runs, it is in no meeting or call, and the
      person is in no other; the call counts as answered, and stops ringing in a 1:1 chat, from the moment a
      second person is in it. */
  lemma JoinLaw(w: World, s: Socket, id: CallId, now: nat)
    requires Valid(w)
    ensures var w' := Step(w, EvJoin(s, id, now));
            if id in w.calls && s !in w.calls[id].members && s !in w.rooms && InNoCallBut(w, s.user, Some(id))
            then s in w'.rooms && w'.rooms[s] == InCall(id)
                 && GoesOnAs(w, w', id, WithMember(w.calls[id], s, now), {s})
                 && id in w'.records && w'.records[id].connectedAt == WithMember(w.calls[id], s, now).connectedAt
            else w' == w
  {
    InNoCallIff(w, s.user, Some(id));
    hide InCallBut, InNoCallBut;
    if CanJoin(w, s, id) {
      EnterLaw(w, s, id, now);
      hide Valid, Enter, GoesOnAs, WithMember;
    }
  }

  lemma EnterLaw(w: World, s: Socket, id: CallId, now: nat)
    requires RecordsFollow(w) && id in w.calls && s !in w.rooms
    ensures var w' := Enter(w, s, id, now);
            && s in w'.rooms && w'.rooms[s] == InCall(id)
            && GoesOnAs(w, w', id, WithMember(w.calls[id], s, now), {s})
            && id in w'.records && w'.records[id].connectedAt == WithMember(w.calls[id], s, now).connectedAt
  {
    BothIff(w.calls[id], s);
    hide Valid, SomeoneElse, DistinctUsers;
  }

  lemma BothIff(call: Call, s: Socket)
    ensures DistinctUsers(call.members + {s}) >= 2 <==> SomeoneElse(call, s)
  {
    OneAtMostIff(call.members + {s});
    hide DistinctUsers;
    if t :| t in call.members && t.user != s.user {
      assert t in call.members + {s} && s in call.members + {s};
    } else {
      assert forall t | t in call.members + {s} :: t.user == s.user;
    }
  }

  predicate SomeoneElse(call: Call, s: Socket) {
    exists t :: t in call.members && t.user != s.user
  }

  function WithMember(call: Call, s: Socket, now: nat): Call {
    var met := SomeoneElse(call, s);
    Call(call.place, call.direct, call.startedBy, call.startedAt, call.connected || (call.direct && met),
      if call.connectedAt == None && met then Some(now) else call.connectedAt, call.postId, call.members + {s},
      call.ringing && !(call.direct && met))
  }

  // ---------------------------------------------------------------------------- giving up

  /** gcall:decline ends a 1:1 call nobody but its caller is in, for the caller too, when it is not the
      caller who declines; anything else it leaves as it is. */
  lemma DeclineLaw(w: World, user: UserId, id: CallId)
    requires Valid(w)
    ensures var w' := Step(w, EvDecline(user, id));
            if id in w.calls && w.calls[id].direct && OneAtMost(w.calls[id].members) && w.calls[id].startedBy != user
            then Over(w, w', id, Declined) else w' == w
  {
    if id in w.calls {
      ConnectedIff(w, id);
      EndIsOver(w, id, Declined);
      hide Valid, Over, End, OneAtMost;
    }
  }

  /** The ring timer ends a call nobody ever joined, and a 1:1 call nobody answered; any other goes on and
      only stops ringing. */
  lemma RingTimeoutLaw(w: World, id: CallId)
    requires Valid(w)
    ensures var w' := Step(w, EvRingTimeout(id));
            if id !in w.calls || !w.calls[id].ringing then w' == w
            else if w.calls[id].members == {} then Over(w, w', id, OtherReason)
            else if w.calls[id].direct && OneAtMost(w.calls[id].members) then Over(w, w', id, NoAnswer)
            else GoesOnAs(w, w', id, w.calls[id].(ringing := false), {}) && w'.records == w.records
  {
    if id in w.calls {
      ConnectedIff(w, id);
      EndIsOver(w, id, OtherReason);
      EndIsOver(w, id, NoAnswer);
      StopsRinging(w, id);
      hide Valid, Over, End, OneAtMost, GoesOnAs;
    }
  }

  lemma StopsRinging(w: World, id: CallId)
    requires id in w.calls
    ensures GoesOnAs(w, w.(calls := w.calls[id := w.calls[id].(ringing := false)]), id,
                     w.calls[id].(ringing := false), {})
  {
  }
}
