/** What holds over every run of calls and meetings together: they share the room map. */
module MeetingLaws {
  import opened Common
  import opened Rooms
  import Calls = GroupCalls
  import opened MeetSignaling

  datatype Site = Site(calls: Calls.World, meet: Meetings)

  datatype SiteEvent = OnCall(call: Calls.Event) | OnMeet(meet: Event)

  ghost function SiteStep(site: Site, e: SiteEvent): Site {
    match e
    case OnCall(c) => var w := Calls.Step(site.calls, c); Site(w, site.meet.(rooms := w.rooms))
    case OnMeet(c) => var m := Step(site.meet, c).m; Site(site.calls.(rooms := m.rooms), m)
  }

  ghost predicate SiteValid(site: Site) {
    Calls.Valid(site.calls) && Valid(site.meet) && site.calls.rooms == site.meet.rooms
  }

  ghost function SiteRun(site: Site, events: seq<SiteEvent>): Site
    decreases |events|
  {
    if events == [] then site else SiteStep(SiteRun(site, events[..|events| - 1]), events[|events| - 1])
  }

  // ---------------------------------------------------------------------------- one room map, two writers

  predicate MeetingEntry(rooms: RoomMap, s: Socket) {
    s in rooms && rooms[s].InMeeting?
  }

  predicate CallEntry(rooms: RoomMap, s: Socket) {
    s in rooms && rooms[s].InCall?
  }

  ghost predicate SameMeetings(rooms: RoomMap, rooms': RoomMap) {
    && (forall s: Socket | MeetingEntry(rooms, s) :: MeetingEntry(rooms', s) && rooms'[s] == rooms[s])
    && (forall s: Socket | MeetingEntry(rooms', s) :: MeetingEntry(rooms, s))
  }

  ghost predicate NoNewCalls(rooms: RoomMap, rooms': RoomMap) {
    forall s: Socket | CallEntry(rooms', s) :: CallEntry(rooms, s) && rooms'[s] == rooms[s]
  }

  /** No call handler touches anyone's meeting entry. */
  lemma CallsSpareMeetings(w: Calls.World, e: Calls.Event)
    ensures SameMeetings(w.rooms, Calls.Step(w, e).rooms)
  {
    hide Calls.DistinctUsers, Calls.InCallBut, Calls.Users, Calls.End, Calls.LeaveCall, SameMeetings;
    assert SameMeetings(w.rooms, w.rooms) by { SameHere(w.rooms); }
    match e
    case EvStart(user, place, direct, other, online, postId, id, now) =>
    case EvJoin(s, id, now) => JoinSpares(w, s, id, now);
    case EvDecline(user, id) => EndSpares(w, id, Calls.Declined);
    case EvLeave(s, id) => EndSpares(w, id, Calls.OtherReason); LeaveSpares(w, s, id);
    case EvRingTimeout(id) => EndSpares(w, id, Calls.OtherReason); EndSpares(w, id, Calls.NoAnswer);
    case EvDisconnect(s) =>
      if exists id :: id in w.calls && s in w.calls[id].members {
        var id :| id in w.calls && s in w.calls[id].members && Calls.Disconnect(w, s) == Calls.LeaveCall(w, s, id);
        LeaveSpares(w, s, id);
      }
  }

  lemma SameHere(rooms: RoomMap)
    ensures SameMeetings(rooms, rooms)
  {
  }

  lemma EndSpares(w: Calls.World, id: CallId, reason: Calls.Reason)
    ensures SameMeetings(w.rooms, Calls.End(w, id, reason).rooms)
  {
  }

  lemma LeaveSpares(w: Calls.World, s: Socket, id: CallId)
    ensures SameMeetings(w.rooms, Calls.LeaveCall(w, s, id).rooms)
  {
    hide Calls.DistinctUsers;
  }

  lemma JoinSpares(w: Calls.World, s: Socket, id: CallId, now: nat)
    ensures SameMeetings(w.rooms, Calls.Join(w, s, id, now).rooms)
  {
    hide Calls.DistinctUsers, Calls.InCallBut;
  }

  /** No meeting handler puts anyone in a call, though some take a connection out of a call's room. */
  lemma MeetingsAddNoCalls(m: Meetings, e: Event)
    ensures NoNewCalls(m.rooms, Step(m, e).m.rooms)
  {
    hide OwnersInside, People, Waits, Setup;
    SetupKeepsRooms(m, e);
  }

  lemma SetupKeepsRooms(m: Meetings, e: Event)
    ensures e.EvSetup? ==> Setup(m, e.o, e.count, e.given, e.order).rooms == m.rooms
  {
  }

  /** Neither writer breaks what the other keeps. */
  lemma SiteStepValid(site: Site, e: SiteEvent)
    requires SiteValid(site)
    ensures SiteValid(SiteStep(site, e))
  {
    hide Calls.Step, Step;
    match e
    case OnCall(c) =>
      Calls.StepValid(site.calls, c);
      CallsSpareMeetings(site.calls, c);
      ForeignEntries(site.meet, Calls.Step(site.calls, c).rooms);
    case OnMeet(c) =>
      StepValid(site.meet, c);
      MeetingsAddNoCalls(site.meet, c);
      FewerCallEntries(site.calls, Step(site.meet, c).m.rooms);
  }

  lemma ForeignEntries(m: Meetings, rooms: RoomMap)
    requires Valid(m) && SameMeetings(m.rooms, rooms)
    ensures Valid(m.(rooms := rooms))
  {
    var m' := m.(rooms := rooms);
    forall s: Socket ensures EntryOk(m', s) {
      assert EntryOk(m, s);
      assert MeetingEntry(rooms, s) ==> MeetingEntry(m.rooms, s);
    }
    forall s: Socket, c: Code | Inside(m.rooms, s, c) ensures Inside(rooms, s, c) { assert MeetingEntry(m.rooms, s); }
    EntriesValid(m, rooms, m.joined);
  }

  lemma FewerCallEntries(w: Calls.World, rooms: RoomMap)
    requires Calls.Valid(w) && NoNewCalls(w.rooms, rooms)
    ensures Calls.Valid(w.(rooms := rooms))
  {
    hide Calls.CallAlive, Calls.DistinctUsers;
    forall s: Socket | s in rooms && rooms[s].InCall?
      ensures rooms[s].call in w.calls && s in w.calls[rooms[s].call].members { assert CallEntry(rooms, s); }
  }

  lemma {:induction false} EverySiteRunValid(site: Site, events: seq<SiteEvent>)
    requires SiteValid(site)
    ensures SiteValid(SiteRun(site, events))
    decreases |events|
  {
    if events != [] {
      var before := events[..|events| - 1];
      EverySiteRunValid(site, before);
      SiteStepValid(SiteRun(site, before), events[|events| - 1]);
    }
  }

  // ---------------------------------------------------------------------------- admission

  // What was asked and decided, read off the events alone: the meeting each connection joined and has not
  // left; who has not been turned away since; who asked to enter since joining; and whom the owner let in
  // after that.
  datatype Log = Log(latest: map<Socket, Code>, present: set<Socket>, asked: set<Socket>, letIn: set<Socket>)

  /** It joined this meeting, and has neither left nor been turned away since. */
  predicate IsAt(log: Log, s: Socket, code: Code) {
    s in log.present && s in log.latest && log.latest[s] == code
  }

  /** It asked to enter, is not the owner, and has had no answer. */
  predicate Unanswered(owners: map<Code, UserId>, log: Log, s: Socket, code: Code) {
    IsAt(log, s, code) && s in log.asked && s !in log.letIn && code in owners && s.user != owners[code]
  }

  /** The owner decides, over a connection that joined the meeting, on someone with no answer yet. */
  predicate Decides(owners: map<Code, UserId>, log: Log, o: Socket, code: Code, target: Socket) {
    o in log.latest && log.latest[o] == code && code in owners && owners[code] == o.user
      && Unanswered(owners, log, target, code)
  }

  function Written(owners: map<Code, UserId>, log: Log, e: Event): Log {
    match e
    case EvJoin(s, code, active) =>
      if code in owners && active
      then Log(log.latest[s := code], log.present + {s}, log.asked - {s}, log.letIn - {s}) else log
    case EvRequestJoin(s, code) => if IsAt(log, s, code) then log.(asked := log.asked + {s}) else log
    case EvAdmit(o, code, target, up) =>
      if up && Decides(owners, log, o, code, target) then log.(letIn := log.letIn + {target}) else log
    case EvDeny(o, code, target) =>
      if Decides(owners, log, o, code, target) then log.(present := log.present - {target}) else log
    case EvLeave(s) => log.(latest := log.latest - {s}, present := log.present - {s})
    case _ => log
  }

  function Chronicle(start: Meetings, events: seq<SiteEvent>): Log
    decreases |events|
  {
    if events == [] then Log(start.joined, {}, {}, {})
    else
      var log := Chronicle(start, events[..|events| - 1]);
      var e := events[|events| - 1];
      if e.OnMeet? then Written(start.owners, log, e.meet) else log
  }

  /** Whoever asked, as the owner, or was let in. */
  predicate IsIn(owners: map<Code, UserId>, log: Log, s: Socket, code: Code) {
    IsAt(log, s, code) && code in owners && s in log.asked && (s.user == owners[code] || s in log.letIn)
  }

  ghost predicate AdmittedOk(m: Meetings, log: Log, s: Socket) {
    && (s in m.joined <==> s in log.latest) && (s in m.joined ==> m.joined[s] == log.latest[s])
    && (MeetingEntry(m.rooms, s) <==> s in log.present)
    && (MeetingEntry(m.rooms, s) ==>
          var e := m.rooms[s];
          && (!e.inLobby <==> IsIn(m.owners, log, s, e.code))
          && (e.inLobby && e.waiting <==> Unanswered(m.owners, log, s, e.code))
          && (s in log.letIn ==> s in log.asked && s.user != e.owner))
  }

  const NOWHERE: RoomMap := map[]

  /** Nobody is anywhere yet. */
  ghost predicate Opening(site: Site) {
    SiteValid(site) && site.meet.rooms == NOWHERE
  }

  lemma AdmittedStep(m: Meetings, log: Log, e: Event, s: Socket)
    requires Valid(m) && (forall x: Socket :: AdmittedOk(m, log, x))
    ensures AdmittedOk(Step(m, e).m, Written(m.owners, log, e), s)
  {
    assert AdmittedOk(m, log, s) && EntryOk(m, s);
    hide AdmittedOk, EntryOk, Valid, Written, Join, RequestJoin, Admit, Deny, Leave, BreakoutStep;
    match e
    case EvJoin(t, code, active) => JoinAdmits(m, log, t, code, active, s);
    case EvRequestJoin(t, code) => RequestAdmits(m, log, t, code, s);
    case EvAdmit(o, code, target, up) => DecisionAdmits(m, log, o, code, target, up, s);
    case EvDeny(o, code, target) => DecisionAdmits(m, log, o, code, target, true, s);
    case EvLeave(t) => LeaveAdmits(m, log, t, s);
    case _ => MoveAdmits(m, log, e, s);
  }

  lemma MoveAdmits(m: Meetings, log: Log, e: Event, s: Socket)
    requires AdmittedOk(m, log, s) && EntryOk(m, s) && !Lobby(e)
    ensures AdmittedOk(Step(m, e).m, Written(m.owners, log, e), s)
  {
    MovesKeepLobby(m, e);
    MovesKeepJoins(m, e);
    OwnersStay(m, e);
    var rooms' := Step(m, e).m.rooms;
    assert s in m.rooms ==> SameButRoom(m.rooms[s], rooms'[s]);
    hide Step;
  }

  lemma MovesKeepJoins(m: Meetings, e: Event)
    requires !Lobby(e)
    ensures Step(m, e).m.joined == m.joined
  {
    hide People, Spread, Given, Home, Placed, Moved;
  }

  lemma JoinAdmits(m: Meetings, log: Log, t: Socket, code: Code, active: bool, s: Socket)
    requires Valid(m) && AdmittedOk(m, log, s) && EntryOk(m, s)
    ensures AdmittedOk(Join(m, t, code, active).m, Written(m.owners, log, EvJoin(t, code, active)), s)
  {
    hide OwnersInside, People, Valid;
  }

  lemma LeaveAdmits(m: Meetings, log: Log, t: Socket, s: Socket)
    requires Valid(m) && AdmittedOk(m, log, s) && EntryOk(m, s)
    ensures AdmittedOk(Leave(m, t).m, Written(m.owners, log, EvLeave(t)), s)
  {
    hide OwnersInside, People, Valid;
  }

  lemma RequestAdmits(m: Meetings, log: Log, t: Socket, code: Code, s: Socket)
    requires Valid(m) && AdmittedOk(m, log, s) && EntryOk(m, s)
    ensures AdmittedOk(RequestJoin(m, t, code).m, Written(m.owners, log, EvRequestJoin(t, code)), s)
  {
    hide OwnersInside, People, Valid;
  }

  lemma DecisionAdmits(m: Meetings, log: Log, o: Socket, code: Code, target: Socket, up: bool, s: Socket)
    requires Valid(m) && (forall x: Socket :: AdmittedOk(m, log, x))
    ensures AdmittedOk(Admit(m, o, code, target, up).m, Written(m.owners, log, EvAdmit(o, code, target, up)), s)
    ensures AdmittedOk(Deny(m, o, code, target).m, Written(m.owners, log, EvDeny(o, code, target)), s)
  {
    assert AdmittedOk(m, log, s) && EntryOk(m, s);
    assert AdmittedOk(m, log, o);
    assert MayDecide(m, o, code, target) <==> Decides(m.owners, log, o, code, target) by {
      assert AdmittedOk(m, log, target) && EntryOk(m, target);
    }
    hide OwnersInside, People, Valid, Waits;
  }

  /** Breakout events, whoever sends them and whatever timer fires, leave everyone on the side of the
      lobby they were on: only their room inside the same meeting changes. */
  lemma MovesKeepLobby(m: Meetings, e: Event)
    requires !Lobby(e)
    ensures OnlyRoomsChanged(m.rooms, Step(m, e).m.rooms)
  {
    hide People, Setup;
    SetupKeepsRooms(m, e);
  }

  lemma {:induction false} AdmittedThroughout(site: Site, events: seq<SiteEvent>)
    requires Opening(site)
    ensures SiteRun(site, events).meet.owners == site.meet.owners
    ensures forall s: Socket :: AdmittedOk(SiteRun(site, events).meet, Chronicle(site.meet, events), s)
    decreases |events|
  {
    if events != [] {
      var before, e := events[..|events| - 1], events[|events| - 1];
      AdmittedThroughout(site, before);
      EverySiteRunValid(site, before);
      AdmittedSiteStep(SiteRun(site, before), Chronicle(site.meet, before), e);
    }
  }

  lemma AdmittedSiteStep(site: Site, log: Log, e: SiteEvent)
    requires SiteValid(site) && (forall s: Socket :: AdmittedOk(site.meet, log, s))
    ensures SiteStep(site, e).meet.owners == site.meet.owners
    ensures var log' := if e.OnMeet? then Written(site.meet.owners, log, e.meet) else log;
            forall s: Socket :: AdmittedOk(SiteStep(site, e).meet, log', s)
  {
    hide Calls.Step, Step, Written;
    if e.OnCall? {
      CallsSpareMeetings(site.calls, e.call);
      var m' := SiteStep(site, e).meet;
      forall s: Socket ensures AdmittedOk(m', log, s) {
        assert AdmittedOk(site.meet, log, s);
        assert MeetingEntry(m'.rooms, s) ==> MeetingEntry(site.meet.rooms, s);
      }
    } else {
      OwnersStay(site.meet, e.meet);
      forall s: Socket ensures AdmittedOk(SiteStep(site, e).meet, Written(site.meet.owners, log, e.meet), s) {
        AdmittedStep(site.meet, log, e.meet, s);
      }
    }
  }

  lemma OwnersStay(m: Meetings, e: Event)
    ensures Step(m, e).m.owners == m.owners
  {
    hide OwnersInside, People, Waits;
  }

  /** Over every run of calls and meetings: in a meeting past its lobby are exactly those who joined it,
      asked to enter, and own it or were let in by its owner, and have since neither left, joined again nor
      been turned away; and exactly those of the others who asked are waiting. */
  lemma AdmissionIff(site: Site, events: seq<SiteEvent>, s: Socket, code: Code)
    requires Opening(site)
    ensures var log, rooms := Chronicle(site.meet, events), SiteRun(site, events).meet.rooms;
            && (Inside(rooms, s, code) <==> IsIn(site.meet.owners, log, s, code))
            && (Waits(rooms, s, code) <==> Unanswered(site.meet.owners, log, s, code))
            && (MeetingEntry(rooms, s) && rooms[s].code == code <==> IsAt(log, s, code))
  {
    AdmittedThroughout(site, events);
    EverySiteRunValid(site, events);
    assert EntryOk(SiteRun(site, events).meet, s);
    assert AdmittedOk(SiteRun(site, events).meet, Chronicle(site.meet, events), s);
  }

  predicate JoinsMeeting(e: SiteEvent, s: Socket) {
    e.OnMeet? && e.meet.EvJoin? && e.meet.s == s
  }

  /** Someone denied is out, and stays out of every meeting until they join again. */
  lemma DeniedMustJoinAgain(site: Site, o: Socket, code: Code, target: Socket, events: seq<SiteEvent>)
    requires MayDecide(site.meet, o, code, target)
    requires forall e | e in events :: !JoinsMeeting(e, target)
    ensures !MeetingEntry(SiteRun(SiteStep(site, OnMeet(EvDeny(o, code, target))), events).meet.rooms, target)
  {
    OutStaysOut(SiteStep(site, OnMeet(EvDeny(o, code, target))), target, events);
  }

  lemma {:induction false} OutStaysOut(site: Site, s: Socket, events: seq<SiteEvent>)
    requires !MeetingEntry(site.meet.rooms, s) && site.calls.rooms == site.meet.rooms
    requires forall e | e in events :: !JoinsMeeting(e, s)
    ensures !MeetingEntry(SiteRun(site, events).meet.rooms, s)
    ensures SiteRun(site, events).calls.rooms == SiteRun(site, events).meet.rooms
    decreases |events|
  {
    if events != [] {
      var before, e := events[..|events| - 1], events[|events| - 1];
      assert forall x | x in before :: x in events;
      OutStaysOut(site, s, before);
      assert e in events;
      OutStep(SiteRun(site, before), s, e);
    }
  }

  lemma OutStep(site: Site, s: Socket, e: SiteEvent)
    requires !MeetingEntry(site.meet.rooms, s) && site.calls.rooms == site.meet.rooms && !JoinsMeeting(e, s)
    ensures !MeetingEntry(SiteStep(site, e).meet.rooms, s)
  {
    if e.OnCall? {
      hide Calls.Step;
      CallsSpareMeetings(site.calls, e.call);
    } else if Lobby(e.meet) {
      hide OwnersInside, People;
    } else {
      MovesKeepLobby(site.meet, e.meet);
      hide Step;
      assert s in site.meet.rooms ==> SameButRoom(site.meet.rooms[s], Step(site.meet, e.meet).m.rooms[s]);
    }
  }

  // ---------------------------------------------------------------------------- the owner's lobby list

  /** What one connection makes of a notice: it only sees those sent to it. */
  function Seen(view: set<Socket>, notice: Option<Notice>, o: Socket): set<Socket> {
    if notice.None? || o !in notice.value.to then view
    else if notice.value.left then view - {notice.value.peer}
    else view + {notice.value.peer}
  }

  ghost function View(site: Site, events: seq<SiteEvent>, o: Socket, start: set<Socket>): set<Socket>
    decreases |events|
  {
    if events == [] then start
    else
      var before, e := events[..|events| - 1], events[|events| - 1];
      var view := View(site, before, o, start);
      if e.OnMeet? then Seen(view, Step(SiteRun(site, before).meet, e.meet).notice, o) else view
  }

  /** The connection neither leaves nor joins a meeting itself. */
  predicate Stays(e: SiteEvent, o: Socket) {
    e.OnMeet? ==> (e.meet.EvLeave? || e.meet.EvJoin? ==> e.meet.s != o)
  }

  ghost predicate OwnerInside(m: Meetings, o: Socket, code: Code) {
    Inside(m.rooms, o, code) && code in m.owners && m.owners[code] == o.user
  }

  lemma LobbyNotices(m: Meetings, e: Event, o: Socket, code: Code)
    requires Valid(m) && OwnerInside(m, o, code) && Stays(OnMeet(e), o) && Lobby(e)
    ensures OwnerInside(Step(m, e).m, o, code)
    ensures Waiting(Step(m, e).m.rooms, code) == Seen(Waiting(m.rooms, code), Step(m, e).notice, o)
  {
    hide Valid, Join, Leave, RequestJoin, Admit, Deny;
    match e
    case EvJoin(s, c, active) => JoinNotices(m, s, c, active, o, code);
    case EvRequestJoin(s, c) => RequestNotices(m, s, c, o, code);
    case EvAdmit(d, c, target, up) => DecisionNotices(m, d, c, target, up, o, code);
    case EvDeny(d, c, target) => DecisionNotices(m, d, c, target, true, o, code);
    case EvLeave(s) => LeaveNotices(m, s, o, code);
  }

  lemma RequestNotices(m: Meetings, s: Socket, c: Code, o: Socket, code: Code)
    requires Valid(m) && OwnerInside(m, o, code)
    ensures var r := RequestJoin(m, s, c);
            OwnerInside(r.m, o, code) && Waiting(r.m.rooms, code) == Seen(Waiting(m.rooms, code), r.notice, o)
  {
    hide Valid;
    ValidEntry(m, o);
    ValidEntry(m, s);
  }

  lemma DecisionNotices(m: Meetings, d: Socket, c: Code, target: Socket, up: bool, o: Socket, code: Code)
    requires Valid(m) && OwnerInside(m, o, code)
    ensures var r := Admit(m, d, c, target, up);
            OwnerInside(r.m, o, code) && Waiting(r.m.rooms, code) == Seen(Waiting(m.rooms, code), r.notice, o)
    ensures var r := Deny(m, d, c, target);
            OwnerInside(r.m, o, code) && Waiting(r.m.rooms, code) == Seen(Waiting(m.rooms, code), r.notice, o)
  {
    hide Valid;
    ValidEntry(m, target);
  }

  lemma LeaveNotices(m: Meetings, s: Socket, o: Socket, code: Code)
    requires Valid(m) && OwnerInside(m, o, code) && s != o
    ensures var r := Leave(m, s);
            OwnerInside(r.m, o, code) && Waiting(r.m.rooms, code) == Seen(Waiting(m.rooms, code), r.notice, o)
  {
    hide Valid, People;
    ValidEntry(m, s);
  }

  lemma JoinNotices(m: Meetings, s: Socket, c: Code, active: bool, o: Socket, code: Code)
    requires Valid(m) && OwnerInside(m, o, code) && s != o
    ensures var r := Join(m, s, c, active);
            OwnerInside(r.m, o, code) && Waiting(r.m.rooms, code) == Seen(Waiting(m.rooms, code), r.notice, o)
  {
    hide Valid, Leave;
    LeaveNotices(m, s, o, code);
    LeaveKeepsOwners(m, s);
    LeaveTakesOut(m, s);
  }

  lemma LeaveTakesOut(m: Meetings, s: Socket)
    requires Valid(m)
    ensures !MeetingEntry(Leave(m, s).m.rooms, s)
  {
    ValidEntry(m, s);
  }

  lemma ValidEntry(m: Meetings, s: Socket)
    requires Valid(m)
    ensures EntryOk(m, s)
  {
  }

  lemma SiteNotices(site: Site, e: SiteEvent, o: Socket, code: Code)
    requires SiteValid(site) && OwnerInside(site.meet, o, code) && Stays(e, o)
    ensures OwnerInside(SiteStep(site, e).meet, o, code)
    ensures Waiting(SiteStep(site, e).meet.rooms, code) ==
            if e.OnMeet? then Seen(Waiting(site.meet.rooms, code), Step(site.meet, e.meet).notice, o)
              else Waiting(site.meet.rooms, code)
  {
    var m := site.meet;
    if e.OnCall? {
      hide Calls.Step;
      CallsSpareMeetings(site.calls, e.call);
      var rooms' := Calls.Step(site.calls, e.call).rooms;
      assert MeetingEntry(m.rooms, o);
      forall s: Socket ensures Waits(rooms', s, code) <==> Waits(m.rooms, s, code) {
        assert MeetingEntry(rooms', s) <==> MeetingEntry(m.rooms, s);
      }
    } else if Lobby(e.meet) {
      LobbyNotices(m, e.meet, o, code);
    } else {
      MovesKeepLobby(m, e.meet);
      OwnersStay(m, e.meet);
      SamePeople(m.rooms, Step(m, e.meet).m.rooms, code);
      hide Step;
      assert SameButRoom(m.rooms[o], Step(m, e.meet).m.rooms[o]);
    }
  }

  /** An owner's connection that asked for the lobby list while inside, and has since applied the
      notices sent to it in order, has exactly the list a fresh answer would give, whatever breakout
      room it is in and whatever calls do meanwhile. */
  lemma {:induction false} LobbyListStaysCurrent(site: Site, events: seq<SiteEvent>, o: Socket, code: Code)
    requires SiteValid(site) && OwnerInside(site.meet, o, code)
    requires forall e | e in events :: Stays(e, o)
    ensures LobbyList(site.meet, o, code).Some?
    ensures var m' := SiteRun(site, events).meet;
            OwnerInside(m', o, code) && LobbyList(m', o, code) ==
              Some(View(site, events, o, LobbyList(site.meet, o, code).value))
    decreases |events|
  {
    ValidEntry(site.meet, o);
    if events != [] {
      var before, e := events[..|events| - 1], events[|events| - 1];
      assert forall x | x in before :: x in events;
      LobbyListStaysCurrent(site, before, o, code);
      EverySiteRunValid(site, before);
      assert e in events;
      var mid := SiteRun(site, before);
      SiteNotices(mid, e, o, code);
      SiteStepValid(mid, e);
      ValidEntry(mid.meet, o);
      ValidEntry(SiteStep(mid, e).meet, o);
    }
  }
}
