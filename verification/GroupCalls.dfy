/** Calls in chats and channels: who is in which call, as one state that each socket event, timer and
    disconnect changes. */
module GroupCalls {
  import opened Common
  import opened Rooms

  // A chat (1:1 or group) or a channel; at most one call runs in each.
  datatype Place = Chat(id: nat) | Channel(id: nat)

  datatype Call = Call(
    place: Place, direct: bool, startedBy: UserId, startedAt: nat,
    connected: bool,              // 1:1 calls: both people have been in it
    connectedAt: Option<nat>,     // when two different people were first in it
    postId: Option<nat>,          // a channel's "Started a meeting" post
    members: set<Socket>, ringing: bool)

  // What is kept in Redis about a running call.
  datatype Record = Record(place: Place, direct: bool, startedBy: UserId, startedAt: nat, connectedAt: Option<nat>,
    postId: Option<nat>)

  datatype Reason = Declined | NoAnswer | OtherReason

  // The work `end` leaves behind: post the outcome, then drop the record.
  datatype Ending = Ending(record: Record, reason: Reason, posted: bool)

  datatype World = World(
    calls: map<CallId, Call>, byPlace: map<Place, CallId>, rooms: RoomMap,
    records: map<CallId, Record>, ending: map<CallId, Ending>, used: set<CallId>)

  function Users(members: set<Socket>): set<UserId> {
    set s | s in members :: s.user
  }

  function DistinctUsers(members: set<Socket>): nat {
    |Users(members)|
  }

  function RecordOf(call: Call): Record {
    Record(call.place, call.direct, call.startedBy, call.startedAt, call.connectedAt, call.postId)
  }

  /** isBusy: some connection of the user is in a call other than `except`. */
  predicate InCallBut(calls: map<CallId, Call>, user: UserId, except: Option<CallId>) {
    exists c :: c in calls && except != Some(c) && user in Users(calls[c].members)
  }

  // ---------------------------------------------------------------------------- the handlers

  function RoomsWithout(rooms: RoomMap, members: set<Socket>, id: CallId): RoomMap {
    map s | s in rooms && !(s in members && rooms[s] == InCall(id)) :: rooms[s]
  }

  /** end: the call and its place are free, everyone still in it is taken out of the room. */
  function End(w: World, id: CallId, reason: Reason): World {
    if id !in w.calls then w
    else
      var call := w.calls[id];
      w.(calls := w.calls - {id}, byPlace := w.byPlace - {call.place},
         rooms := RoomsWithout(w.rooms, call.members, id),
         ending := w.ending[id := Ending(RecordOf(call), reason, false)])
  }

  /** leave: one connection out; the call ends with its last one, and a 1:1 call when one person is left. */
  function LeaveCall(w: World, s: Socket, id: CallId): World {
    if id !in w.calls || s !in w.calls[id].members then w
    else
      var call := w.calls[id];
      var members := call.members - {s};
      var left := w.(calls := w.calls[id := call.(members := members)], rooms := RoomsWithout(w.rooms, {s}, id));
      if members == {} || (call.direct && call.connected && DistinctUsers(members) < 2) then End(left, id, OtherReason)
        else left
  }

  predicate CanStart(w: World, user: UserId, place: Place, direct: bool, other: UserId, online: bool) {
    && !(place in w.byPlace && w.byPlace[place] in w.calls)
    && !InCallBut(w.calls, user, None)
    && (direct ==> online && !InCallBut(w.calls, other, None))
  }

  /** The second half of gcall:start: from the new call on. */
  function Register(w: World, user: UserId, place: Place, direct: bool, postId: Option<nat>, id: CallId,
                    now: nat): World {
    var call := Call(place, direct, user, now, false, None, postId, {}, true);
    w.(calls := w.calls[id := call], byPlace := w.byPlace[place := id], records := w.records[id := RecordOf(call)],
      used := w.used + {id})
  }

  /** gcall:start: when a call already runs there, or anyone is busy or away, nothing changes. */
  function Start(w: World, user: UserId, place: Place, direct: bool, other: UserId, online: bool, postId: Option<nat>,
                 id: CallId, now: nat): World {
    if CanStart(w, user, place, direct, other, online) then Register(w, user, place, direct, postId, id, now) else w
  }

  predicate CanJoin(w: World, s: Socket, id: CallId) {
    id in w.calls && s !in w.calls[id].members && !InCallBut(w.calls, s.user, Some(id)) && s !in w.rooms
  }

  /** The second half of gcall:join: after createRoom, only that the call still runs is looked at again. */
  function Enter(w: World, s: Socket, id: CallId, now: nat): World {
    if id !in w.calls then w
    else
      var call := w.calls[id];
      var members := call.members + {s};
      var both := DistinctUsers(members) >= 2;
      var joined := call.(members := members,
                          connectedAt := if call.connectedAt == None && both then Some(now) else call.connectedAt,
                          connected := call.connected || (call.direct && both),
                          ringing := call.ringing && !(call.direct && both));
      w.(calls := w.calls[id := joined], rooms := w.rooms[s := InCall(id)],
         records := if joined.connectedAt != call.connectedAt then w.records[id := RecordOf(joined)] else w.records)
  }

  function Join(w: World, s: Socket, id: CallId, now: nat): World {
    if CanJoin(w, s, id) then Enter(w, s, id, now) else w
  }

  function Decline(w: World, user: UserId, id: CallId): World {
    if id in w.calls && w.calls[id].direct && !w.calls[id].connected
      && w.calls[id].startedBy != user then End(w, id, Declined) else w
  }

  /** gcall:leave: the caller giving up on a 1:1 call nobody answered cancels it. */
  function Leave(w: World, s: Socket, id: CallId): World {
    if id !in w.calls then w
    else
      var call := w.calls[id];
      if call.direct && !call.connected && s in call.members && |call.members| == 1 then End(w, id, OtherReason)
        else LeaveCall(w, s, id)
  }

  /** The ring timer of a call, while it is set. */
  function RingTimeout(w: World, id: CallId): World {
    if id !in w.calls || !w.calls[id].ringing then w
    else
      var call := w.calls[id];
      if call.members == {} then End(w, id, OtherReason)
      else if call.direct && !call.connected then End(w, id, NoAnswer)
      else w.(calls := w.calls[id := call.(ringing := false)])
  }

  /** A connection drops: it leaves the call it is in (Valid: there is at most one). */
  ghost function Disconnect(w: World, s: Socket): World {
    if id :| id in w.calls && s in w.calls[id].members then LeaveCall(w, s, id) else w
  }

  datatype Event =
    | EvStart(user: UserId, place: Place, direct: bool, other: UserId, online: bool, postId: Option<nat>, id: CallId,
      now: nat)
    | EvJoin(s: Socket, id: CallId, now: nat)
    | EvDecline(user: UserId, id: CallId)
    | EvLeave(s: Socket, id: CallId)
    | EvRingTimeout(id: CallId)
    | EvDisconnect(s: Socket)

  /** One handler, run to its end. A new call's random id was never used before. */
  ghost function Step(w: World, e: Event): World {
    match e
    case EvStart(user, place, direct, other, online, postId, id, now) =>
      if id in w.used then w else Start(w, user, place, direct, other, online, postId, id, now)
    case EvJoin(s, id, now) => Join(w, s, id, now)
    case EvDecline(user, id) => Decline(w, user, id)
    case EvLeave(s, id) => Leave(w, s, id)
    case EvRingTimeout(id) => RingTimeout(w, id)
    case EvDisconnect(s) => Disconnect(w, s)
  }

  // ---------------------------------------------------------------------------- what every step keeps

  /** byScope and calls are inverse: each running call is the one its place names. */
  ghost predicate OneCallPerPlace(w: World) {
    && (forall p | p in w.byPlace :: w.byPlace[p] in w.calls && w.calls[w.byPlace[p]].place == p)
    && (forall c | c in w.calls :: w.calls[c].place in w.byPlace && w.byPlace[w.calls[c].place] == c)
  }

  ghost predicate OneCallPerUser(w: World) {
    forall c, d, u | c in w.calls && d in w.calls && u in Users(w.calls[c].members)
      && u in Users(w.calls[d].members) :: c == d
  }

  /** A running call still rings or has someone in it; a 1:1 call has been answered and has two people
      in it, or has not and still rings with at most one. */
  ghost predicate CallsAlive(w: World) {
    forall c | c in w.calls :: CallAlive(w.calls[c])
  }

  predicate CallAlive(call: Call) {
    && (call.ringing || call.members != {})
    && (call.direct ==>
          if call.connected then DistinctUsers(call.members) >= 2 else DistinctUsers(call.members) <= 1 && call.ringing)
    && (call.connected ==> call.direct && call.connectedAt.Some?)
    && (DistinctUsers(call.members) >= 2 ==> call.connectedAt.Some?)
  }

  /** A connection the room map puts in a call is in that running call. */
  ghost predicate RoomsAreMembers(w: World) {
    forall s | s in w.rooms && w.rooms[s].InCall? :: w.rooms[s].call in w.calls && s in w.calls[w.rooms[s].call].members
  }

  /** Ids are used once, and a running call's record says what the call does. */
  ghost predicate RecordsFollow(w: World) {
    && w.calls.Keys <= w.used && w.ending.Keys <= w.used && w.records.Keys <= w.used
    && w.calls.Keys !! w.ending.Keys
    && (forall c | c in w.calls :: c in w.records && w.records[c] == RecordOf(w.calls[c]))
  }

  ghost predicate Valid(w: World) {
    OneCallPerPlace(w) && OneCallPerUser(w) && CallsAlive(w) && RoomsAreMembers(w) && RecordsFollow(w)
  }

  const EMPTY := World(map[], map[], map[], map[], map[], {})

  ghost function Run(w: World, events: seq<Event>): World
    decreases |events|
  {
    if events == [] then w else Step(Run(w, events[..|events| - 1]), events[|events| - 1])
  }

  lemma {:induction false} EveryRunValid(w: World, events: seq<Event>)
    requires Valid(w)
    ensures Valid(Run(w, events))
    decreases |events|
  {
    if events != [] {
      var before := events[..|events| - 1];
      EveryRunValid(w, before);
      StepValid(Run(w, before), events[|events| - 1]);
    }
  }

  lemma StepValid(w: World, e: Event)
    requires Valid(w)
    ensures Valid(Step(w, e))
  {
    hide Valid, Start, Join, Decline, Leave, RingTimeout, Disconnect;
    match e
    case EvStart(user, place, direct, other, online, postId, id, now) =>
      if id !in w.used { StartValid(w, user, place, direct, other, online, postId, id, now); }
    case EvJoin(s, id, now) => JoinValid(w, s, id, now);
    case EvDecline(user, id) => DeclineValid(w, user, id);
    case EvLeave(s, id) => LeaveValid(w, s, id);
    case EvRingTimeout(id) => RingTimeoutValid(w, id);
    case EvDisconnect(s) => DisconnectValid(w, s);
  }

  /** Ending a call keeps all this even when the call itself is not as a running call should be. */
  lemma EndValid(w: World, id: CallId, reason: Reason)
    requires OneCallPerPlace(w) && OneCallPerUser(w) && RoomsAreMembers(w) && RecordsFollow(w)
    requires forall c | c in w.calls && c != id :: CallAlive(w.calls[c])
    requires id in w.calls
    ensures Valid(End(w, id, reason))
  {
    var w' := End(w, id, reason);
    assert forall c | c in w.calls && c != id :: w.calls[c].place != w.calls[id].place;
    forall s | s in w'.rooms && w'.rooms[s].InCall?
      ensures w'.rooms[s].call in w'.calls && s in w'.calls[w'.rooms[s].call].members {
      assert w.rooms[s].call in w.calls && s in w.calls[w.rooms[s].call].members;
    }
  }

  lemma StartValid(w: World, user: UserId, place: Place, direct: bool, other: UserId, online: bool,
                   postId: Option<nat>, id: CallId, now: nat)
    requires Valid(w) && id !in w.used
    ensures Valid(Start(w, user, place, direct, other, online, postId, id, now))
  {
    if CanStart(w, user, place, direct, other, online) {
      RegisterValid(w, user, place, direct, postId, id, now);
    }
  }

  lemma RegisterValid(w: World, user: UserId, place: Place, direct: bool, postId: Option<nat>, id: CallId, now: nat)
    requires Valid(w) && id !in w.used && place !in w.byPlace
    ensures Valid(Register(w, user, place, direct, postId, id, now))
  {
    var w' := Register(w, user, place, direct, postId, id, now);
    assert Users({}) == {};
    assert id !in w.calls;
  }

  lemma JoinValid(w: World, s: Socket, id: CallId, now: nat)
    requires Valid(w)
    ensures Valid(Join(w, s, id, now))
  {
    if CanJoin(w, s, id) {
      EnterKeeps(w, s, id, now);
    }
  }

  lemma EnterKeeps(w: World, s: Socket, id: CallId, now: nat)
    requires Valid(w) && id in w.calls
    ensures var w' := Enter(w, s, id, now);
            OneCallPerPlace(w') && CallsAlive(w') && RoomsAreMembers(w') && RecordsFollow(w')
    ensures OneCallPerUser(Enter(w, s, id, now)) <==> !InCallBut(w.calls, s.user, Some(id))
  {
    EnterAlive(w, s, id, now);
    EnterRooms(w, s, id, now);
    EnterOneCallPerUser(w, s, id, now);
  }

  lemma EnterAlive(w: World, s: Socket, id: CallId, now: nat)
    requires CallsAlive(w) && id in w.calls
    ensures CallsAlive(Enter(w, s, id, now))
  {
    hide Users, DistinctUsers;
    UsersGrow(w.calls[id].members, s);
    var call := w.calls[id];
    assert CallAlive(call);
    assert CallAlive(Enter(w, s, id, now).calls[id]);
  }

  lemma EnterRooms(w: World, s: Socket, id: CallId, now: nat)
    requires OneCallPerPlace(w) && RoomsAreMembers(w) && RecordsFollow(w) && id in w.calls
    ensures var w' := Enter(w, s, id, now); OneCallPerPlace(w') && RoomsAreMembers(w') && RecordsFollow(w')
  {
    hide DistinctUsers;
  }

  lemma EnterOneCallPerUser(w: World, s: Socket, id: CallId, now: nat)
    requires OneCallPerUser(w) && id in w.calls
    ensures OneCallPerUser(Enter(w, s, id, now)) <==> !InCallBut(w.calls, s.user, Some(id))
  {
    hide DistinctUsers;
    var w' := Enter(w, s, id, now);
    assert w'.calls[id].members == w.calls[id].members + {s};
    assert Users(w'.calls[id].members) == Users(w.calls[id].members) + {s.user};
    if c :| c in w.calls && Some(id) != Some(c) && s.user in Users(w.calls[c].members) {
      assert c in w'.calls && s.user in Users(w'.calls[c].members) && s.user in Users(w'.calls[id].members);
    }
  }

  lemma UsersGrow(members: set<Socket>, s: Socket)
    ensures Users(members + {s}) == Users(members) + {s.user}
    ensures DistinctUsers(members) <= DistinctUsers(members + {s}) <= DistinctUsers(members) + 1
  {
    var users := Users(members);
    assert Users(members + {s}) == users + {s.user};
    if s.user in users {
      assert users + {s.user} == users;
    } else {
      assert |users + {s.user}| == |users| + 1;
    }
  }

  lemma UsersShrink(members: set<Socket>, s: Socket)
    ensures Users(members - {s}) <= Users(members)
    ensures DistinctUsers(members - {s}) <= DistinctUsers(members)
  {
    SubsetSize(Users(members - {s}), Users(members));
  }

  lemma DeclineValid(w: World, user: UserId, id: CallId)
    requires Valid(w)
    ensures Valid(Decline(w, user, id))
  {
    if id in w.calls { EndValid(w, id, Declined); }
  }

  lemma LeaveValid(w: World, s: Socket, id: CallId)
    requires Valid(w)
    ensures Valid(Leave(w, s, id))
  {
    if id in w.calls {
      EndValid(w, id, OtherReason);
      LeaveCallValid(w, s, id);
    }
  }

  /** The connection is out, but the call not looked at yet. */
  function Out(w: World, s: Socket, id: CallId): World
    requires id in w.calls
  {
    w.(calls := w.calls[id := w.calls[id].(members := w.calls[id].members - {s})],
      rooms := RoomsWithout(w.rooms, {s}, id))
  }

  lemma LeaveCallValid(w: World, s: Socket, id: CallId)
    requires Valid(w)
    ensures Valid(LeaveCall(w, s, id))
  {
    if id in w.calls && s in w.calls[id].members {
      var members := w.calls[id].members - {s};
      OutKeeps(w, s, id);
      UsersShrink(w.calls[id].members, s);
      assert CallAlive(w.calls[id]);
      hide OneCallPerPlace, OneCallPerUser, RoomsAreMembers, RecordsFollow, DistinctUsers, End, RoomsWithout;
      if members == {} || (w.calls[id].direct && w.calls[id].connected && DistinctUsers(members) < 2) {
        EndValid(Out(w, s, id), id, OtherReason);
      }
    }
  }

  lemma OutKeeps(w: World, s: Socket, id: CallId)
    requires Valid(w) && id in w.calls
    ensures var left := Out(w, s, id);
            && OneCallPerPlace(left) && OneCallPerUser(left) && RoomsAreMembers(left) && RecordsFollow(left)
            && forall c | c in left.calls && c != id :: CallAlive(left.calls[c])
  {
    hide CallAlive, DistinctUsers;
    var left := Out(w, s, id);
    UsersShrink(w.calls[id].members, s);
    forall x | x in left.rooms && left.rooms[x].InCall?
      ensures left.rooms[x].call in left.calls && x in left.calls[left.rooms[x].call].members {
      assert w.rooms[x].call in w.calls && x in w.calls[w.rooms[x].call].members;
    }
  }

  lemma RingTimeoutValid(w: World, id: CallId)
    requires Valid(w)
    ensures Valid(RingTimeout(w, id))
  {
    hide OneCallPerPlace, OneCallPerUser, RoomsAreMembers, DistinctUsers, End;
    if id in w.calls && w.calls[id].ringing {
      var call := w.calls[id];
      if call.members == {} {
        EndValid(w, id, OtherReason);
      } else if call.direct && !call.connected {
        EndValid(w, id, NoAnswer);
      } else {
        QuietValid(w, id);
      }
    }
  }

  lemma QuietValid(w: World, id: CallId)
    requires Valid(w) && id in w.calls && w.calls[id].members != {} && !(w.calls[id].direct && !w.calls[id].connected)
    ensures Valid(w.(calls := w.calls[id := w.calls[id].(ringing := false)]))
  {
    hide DistinctUsers;
    assert CallAlive(w.calls[id].(ringing := false));
  }

  lemma DisconnectValid(w: World, s: Socket)
    requires Valid(w)
    ensures Valid(Disconnect(w, s))
  {
    if exists id :: id in w.calls && s in w.calls[id].members {
      var id :| id in w.calls && s in w.calls[id].members && Disconnect(w, s) == LeaveCall(w, s, id);
      LeaveCallValid(w, s, id);
    }
  }

  /** After a disconnect no call has the connection, and no room of a call does. */
  lemma DisconnectLeavesNothing(w: World, s: Socket)
    requires Valid(w)
    ensures forall c | c in Disconnect(w, s).calls :: s !in Disconnect(w, s).calls[c].members
    ensures s in Disconnect(w, s).rooms ==> !Disconnect(w, s).rooms[s].InCall?
  {
    forall c, d | c in w.calls && d in w.calls && s in w.calls[c].members && s in w.calls[d].members ensures c == d {
      assert s.user in Users(w.calls[c].members) && s.user in Users(w.calls[d].members);
    }
    DisconnectValid(w, s);
  }

  // ---------------------------------------------------------------------------- handlers that are not atomic

  /** gcall:join checks, waits for its room, and then only looks again whether the call still runs. The
      late half keeps everything else, and keeps one call per person exactly when the person has not
      entered another call meanwhile. */
  lemma LateJoinKeepsOneCallIff(w: World, s: Socket, id: CallId, now: nat)
    requires Valid(w)
    ensures OneCallPerPlace(Enter(w, s, id, now)) && CallsAlive(Enter(w, s, id, now))
    ensures OneCallPerUser(Enter(w, s, id, now)) <==> !(id in w.calls && InCallBut(w.calls, s.user, Some(id)))
  {
    if id in w.calls { EnterKeeps(w, s, id, now); }
  }

  /** So two joins of one person that overlap, each allowed when it began, put them in two calls. */
  lemma OverlappingJoins(w: World, s: Socket, t: Socket, c: CallId, d: CallId, now: nat)
    requires Valid(w) && CanJoin(w, s, c) && CanJoin(w, t, d) && s.user == t.user && c != d
    ensures !OneCallPerUser(Enter(Enter(w, s, c, now), t, d, now))
  {
    var mid := Enter(w, s, c, now);
    EnterKeeps(w, s, c, now);
    JoinValid(w, s, c, now);
    assert s.user in Users(mid.calls[c].members);
    assert InCallBut(mid.calls, t.user, Some(d));
    EnterKeeps(mid, t, d, now);
  }

  /** Nor is it looked at again whether the connection is still there: when it dropped meanwhile, the late
      half puts it into the call after all, exactly when the call still runs, and its disconnect has been. */
  lemma LateJoinAfterDisconnect(w: World, s: Socket, id: CallId, now: nat)
    requires Valid(w)
    ensures var dropped := Disconnect(w, s); var after := Enter(dropped, s, id, now);
            (exists c :: c in after.calls && s in after.calls[c].members) <==> id in dropped.calls
  {
    DisconnectLeavesNothing(w, s);
    hide Disconnect, DistinctUsers;
    var dropped := Disconnect(w, s);
    if id in dropped.calls {
      assert s in Enter(dropped, s, id, now).calls[id].members;
    }
  }

  /** gcall:start looks for a running call, waits for the other person's connections in a 1:1 chat, and
      does not look again: the late half keeps one call per place exactly when none started meanwhile. */
  lemma LateStartKeepsOnePlaceIff(w: World, user: UserId, place: Place, direct: bool, postId: Option<nat>, id: CallId,
                                  now: nat)
    requires Valid(w) && id !in w.used
    ensures OneCallPerPlace(Register(w, user, place, direct, postId, id, now)) <==> place !in w.byPlace
  {
    var w' := Register(w, user, place, direct, postId, id, now);
    if place in w.byPlace {
      assert w.byPlace[place] in w'.calls && w'.calls[w.byPlace[place]].place == place;
    }
  }

  // ---------------------------------------------------------------------------- who may be in a 1:1 call

  /** Only these people ever join the call. */
  predicate OnlyJoins(id: CallId, people: set<UserId>, events: seq<Event>) {
    forall i | 0 <= i < |events| && events[i].EvJoin? && events[i].id == id :: events[i].s.user in people
  }

  /** A connected 1:1 call joined by the chat's two people only has exactly these two in it. */
  lemma {:induction false} DirectCallHasBoth(w: World, events: seq<Event>, id: CallId, a: UserId, b: UserId)
    requires Valid(w) && OnlyJoins(id, {a, b}, events) && id !in w.used
    ensures var w' := Run(w, events);
            id in w'.calls && w'.calls[id].direct ==>
            (w'.calls[id].connected ==> Users(w'.calls[id].members) == {a, b}) &&
            (!w'.calls[id].connected ==> w'.calls[id].ringing)
  {
    EveryRunValid(w, events);
    MembersAmong(w, events, id, {a, b});
    var w' := Run(w, events);
    if id in w'.calls && w'.calls[id].direct && w'.calls[id].connected {
      var users := Users(w'.calls[id].members);
      assert CallAlive(w'.calls[id]);
      if users != {a, b} {
        SubsetSize(users, if a in users then {a} else {b});
        assert false;
      }
    }
  }

  lemma {:induction false} MembersAmong(w: World, events: seq<Event>, id: CallId, people: set<UserId>)
    requires OnlyJoins(id, people, events) && (id in w.calls ==> Users(w.calls[id].members) <= people)
    ensures id in Run(w, events).calls ==> Users(Run(w, events).calls[id].members) <= people
    decreases |events|
  {
    if events != [] {
      var before := events[..|events| - 1];
      MembersAmong(w, before, id, people);
      MembersAmongStep(Run(w, before), events[|events| - 1], id, people);
    }
  }

  lemma MembersAmongStep(w: World, e: Event, id: CallId, people: set<UserId>)
    requires e.EvJoin? && e.id == id ==> e.s.user in people
    requires id in w.calls ==> Users(w.calls[id].members) <= people
    ensures id in Step(w, e).calls ==> Users(Step(w, e).calls[id].members) <= people
  {
    hide InCallBut, DistinctUsers;
    if id in Step(w, e).calls && id in w.calls {
      forall u | u in Users(Step(w, e).calls[id].members) ensures u in people {
        var s :| s in Step(w, e).calls[id].members && s.user == u;
        assert s in w.calls[id].members || (e.EvJoin? && e.s == s && e.id == id);
      }
    }
  }

  // ---------------------------------------------------------------------------- the server's own state

  class CallServer {
    var calls: map<CallId, Call>
    var byPlace: map<Place, CallId>
    var rooms: RoomMap
    var records: map<CallId, Record>
    var ending: map<CallId, Ending>
    var used: set<CallId>

    function Snapshot(): World
      reads this
    {
      World(calls, byPlace, rooms, records, ending, used)
    }

    constructor ()
      ensures Snapshot() == EMPTY
    {
      calls, byPlace, rooms, records, ending, used := map[], map[], map[], map[], map[], {};
    }

    method InGroupCall(user: UserId, except: Option<CallId>) returns (busy: bool)
      ensures busy <==> InCallBut(calls, user, except)
    {
      var todo := calls.Keys;
      while todo != {}
        invariant todo <= calls.Keys
        invariant forall c | c in calls.Keys - todo && except != Some(c) :: user !in Users(calls[c].members)
        decreases todo
      {
        var c :| c in todo;
        todo := todo - {c};
        if except != Some(c) {
          var members := calls[c].members;
          while members != {}
            invariant members <= calls[c].members
            invariant forall s | s in calls[c].members - members :: s.user != user
            decreases members
          {
            var s :| s in members;
            if s.user == user {
              assert user in Users(calls[c].members);
              return true;
            }
            members := members - {s};
          }
        }
      }
      return false;
    }

    method EndCall(id: CallId, reason: Reason)
      modifies this
      ensures Snapshot() == End(old(Snapshot()), id, reason)
    {
      if id !in calls { return; }
      var call := calls[id];
      calls := calls - {id};
      ending := ending[id := Ending(RecordOf(call), reason, false)];
      byPlace := byPlace - {call.place};
      var todo := call.members;
      while todo != {}
        invariant todo <= call.members
        invariant rooms == RoomsWithout(old(rooms), call.members - todo, id)
        invariant calls == old(calls) - {id} && byPlace == old(byPlace) - {call.place} && records == old(records)
                  && used == old(used)
        invariant ending == old(ending)[id := Ending(RecordOf(call), reason, false)]
        decreases todo
      {
        var s :| s in todo;
        if s in rooms && rooms[s] == InCall(id) { rooms := rooms - {s}; }
        todo := todo - {s};
      }
      assert call.members - todo == call.members;
    }

    method LeaveOne(s: Socket, id: CallId)
      modifies this
      ensures Snapshot() == LeaveCall(old(Snapshot()), s, id)
    {
      if id !in calls || s !in calls[id].members { return; }
      var call := calls[id];
      calls := calls[id := call.(members := call.members - {s})];
      if s in rooms && rooms[s] == InCall(id) { rooms := rooms - {s}; }
      assert rooms == RoomsWithout(old(rooms), {s}, id);
      if calls[id].members == {} {
        EndCall(id, OtherReason);
      } else if call.direct && call.connected && DistinctUsers(calls[id].members) < 2 {
        EndCall(id, OtherReason);
      }
    }

    method OnStart(user: UserId, place: Place, direct: bool, other: UserId, online: bool, postId: Option<nat>,
                   id: CallId, now: nat)
      modifies this
      ensures Snapshot() == Start(old(Snapshot()), user, place, direct, other, online, postId, id, now)
      ensures old(Valid(Snapshot())) && id !in old(used) ==> Valid(Snapshot())
    {
      hide Valid;
      if Valid(Snapshot()) && id !in used { StartValid(Snapshot(), user, place, direct, other, online, postId, id,
        now); }
      hide Users, Register;
      if place in byPlace && byPlace[place] in calls { return; }
      var busy := InGroupCall(user, None);
      if busy { return; }
      if direct {
        if !online { return; }
        busy := InGroupCall(other, None);
        if busy { return; }
      }
      Begin(user, place, direct, postId, id, now);
    }

    method Begin(user: UserId, place: Place, direct: bool, postId: Option<nat>, id: CallId, now: nat)
      modifies this
      ensures Snapshot() == Register(old(Snapshot()), user, place, direct, postId, id, now)
    {
      var call := Call(place, direct, user, now, false, None, postId, {}, true);
      calls := calls[id := call];
      byPlace := byPlace[place := id];
      records := records[id := RecordOf(call)];
      used := used + {id};
    }

    method OnJoin(s: Socket, id: CallId, now: nat)
      modifies this
      ensures Snapshot() == Join(old(Snapshot()), s, id, now)
      ensures old(Valid(Snapshot())) ==> Valid(Snapshot())
    {
      if Valid(Snapshot()) { JoinValid(Snapshot(), s, id, now); }
      hide Valid;
      if id !in calls || s in calls[id].members { return; }
      var busy := InGroupCall(s.user, Some(id));
      if busy || s in rooms { return; }
      var call := calls[id];
      call := call.(members := call.members + {s});
      if call.connectedAt == None && DistinctUsers(call.members) >= 2 {
        call := call.(connectedAt := Some(now));
        records := records[id := RecordOf(call)];
      }
      if call.direct && DistinctUsers(call.members) >= 2 {
        call := call.(connected := true, ringing := false);
      }
      calls := calls[id := call];
      rooms := rooms[s := InCall(id)];
    }

    method OnDecline(user: UserId, id: CallId)
      modifies this
      ensures Snapshot() == Decline(old(Snapshot()), user, id)
      ensures old(Valid(Snapshot())) ==> Valid(Snapshot())
    {
      if Valid(Snapshot()) { DeclineValid(Snapshot(), user, id); }
      hide Valid;
      if id !in calls { return; }
      var call := calls[id];
      if call.direct && !call.connected && call.startedBy != user { EndCall(id, Declined); }
    }

    method OnLeave(s: Socket, id: CallId)
      modifies this
      ensures Snapshot() == Leave(old(Snapshot()), s, id)
      ensures old(Valid(Snapshot())) ==> Valid(Snapshot())
    {
      if Valid(Snapshot()) { LeaveValid(Snapshot(), s, id); }
      hide Valid;
      if id !in calls { return; }
      var call := calls[id];
      if call.direct && !call.connected && s in call.members && |call.members| == 1 {
        EndCall(id, OtherReason);
      } else {
        LeaveOne(s, id);
      }
    }

    method OnRingTimeout(id: CallId)
      modifies this
      ensures Snapshot() == RingTimeout(old(Snapshot()), id)
      ensures old(Valid(Snapshot())) ==> Valid(Snapshot())
    {
      if Valid(Snapshot()) { RingTimeoutValid(Snapshot(), id); }
      hide Valid;
      if id !in calls || !calls[id].ringing { return; }
      if calls[id].members == {} {
        EndCall(id, OtherReason);
      } else if calls[id].direct && !calls[id].connected {
        EndCall(id, NoAnswer);
      } else {
        calls := calls[id := calls[id].(ringing := false)];
      }
    }

    /** Leaves every call; at most one has the connection, so this is leaving that one. */
    method OnDisconnect(s: Socket)
      requires Valid(Snapshot())
      modifies this
      ensures Snapshot() == Disconnect(old(Snapshot()), s) && Valid(Snapshot())
    {
      DisconnectValid(Snapshot(), s);
      ghost var before := Snapshot();
      OnlyCallOf(before, s);
      var todo := calls.Keys;
      while todo != {}
        invariant forall c | c in before.calls && s in before.calls[c].members ::
                    if c in todo then Snapshot() == before else Snapshot() == LeaveCall(before, s, c)
        invariant (forall c | c in before.calls :: s !in before.calls[c].members) ==> Snapshot() == before
        decreases todo
      {
        var c :| c in todo;
        ghost var member := c in before.calls && s in before.calls[c].members;
        if !member {
          LeavingOthers(before, Snapshot(), s, c);
        }
        LeaveOne(s, c);
        todo := todo - {c};
      }
    }
  }

  lemma OnlyCallOf(w: World, s: Socket)
    requires Valid(w)
    ensures forall c, d | c in w.calls && d in w.calls && s in w.calls[c].members && s in w.calls[d].members :: c == d
  {
    forall c, d | c in w.calls && d in w.calls && s in w.calls[c].members && s in w.calls[d].members ensures c == d {
      assert s.user in Users(w.calls[c].members) && s.user in Users(w.calls[d].members);
    }
  }

  /** Leaving a call one is not in changes nothing, before or after leaving the one call one is in. */
  lemma LeavingOthers(before: World, now: World, s: Socket, c: CallId)
    requires Valid(before)
    requires now == before || exists d ::
               d in before.calls && s in before.calls[d].members && now == LeaveCall(before, s, d)
    requires !(c in before.calls && s in before.calls[c].members) || now != before
    ensures LeaveCall(now, s, c) == now
  {
    OnlyCallOf(before, s);
  }
}
