/** What each meeting handler does, told by who is where: whom it lets in, turns away or moves, and that it
    leaves everyone else where they were. */
module MeetingSteps {
  import opened Common
  import opened Rooms
  import opened MeetSignaling
  import opened BreakoutLaws

  // ---------------------------------------------------------------------------- the lobby

  /** The same entries, but for this connection's. */
  ghost predicate OthersStay(rooms: RoomMap, rooms': RoomMap, s: Socket) {
    forall t: Socket | t != s :: (t in rooms <==> t in rooms') && (t in rooms ==> rooms'[t] == rooms[t])
  }

  // In the lobby of the meeting, in its main room.
  predicate InLobby(m: Meetings, s: Socket, code: Code, waiting: bool) {
    code in m.owners && s in m.joined && m.joined[s] == code && s in m.rooms
      && m.rooms[s] == InMeeting(code, Main, m.owners[code], true, waiting)
  }

  /** Past the lobby, in the meeting's main room. */
  predicate InMain(rooms: RoomMap, s: Socket, code: Code) {
    s in rooms && rooms[s].InMeeting? && rooms[s].code == code && rooms[s].room == Main && !rooms[s].inLobby
  }

  /** meet:join puts the connection in the lobby of a meeting whose link is active, not yet asking to enter,
      wherever it was before; any other join changes nothing. */
  lemma JoinLaw(m: Meetings, s: Socket, code: Code, active: bool)
    ensures var m' := Step(m, EvJoin(s, code, active)).m;
            if active && code in m.owners
            then InLobby(m', s, code, false) && OthersStay(m.rooms, m'.rooms, s)
                 && m'.joined == m.joined[s := code]
            else m' == m
  {
    hide People, OwnersInside;
  }

  /** Leaving, or dropping the connection, takes it out of its meeting; the meeting's rooms and time limit go
      exactly when nobody is left inside. */
  lemma LeaveLaw(m: Meetings, s: Socket)
    requires s in m.joined
    ensures var m', code := Step(m, EvLeave(s)).m, m.joined[s];
            && s !in m'.rooms && s !in m'.joined && OthersStay(m.rooms, m'.rooms, s)
            && m'.joined == m.joined - {s}
            && m'.breakouts == (if exists t: Socket :: t != s && Inside(m.rooms, t, code) then m.breakouts
                                else m.breakouts - {code})
            && m'.armed == (if code !in m'.breakouts && code in m.breakouts && m.breakouts[code].timer.Some?
                            then m.armed - {m.breakouts[code].timer.value} else m.armed)
  {
    var m', code := Step(m, EvLeave(s)).m, m.joined[s];
    if t: Socket :| t != s && Inside(m.rooms, t, code) {
      assert t in People(m.rooms - {s}, code);
    } else {
      forall t: Socket | t in m.rooms - {s} ensures !Inside(m.rooms - {s}, t, code) {
        assert Inside(m.rooms - {s}, t, code) ==> t != s && Inside(m.rooms, t, code);
      }
      assert People(m.rooms - {s}, code) == {};
    }
    hide OwnersInside, People;
  }

  /** meet:request-join: from the lobby the owner is in, and anyone else waits and the owner is told. */
  lemma RequestLaw(m: Meetings, s: Socket, code: Code, waiting: bool)
    requires InLobby(m, s, code, waiting)
    ensures var r := Step(m, EvRequestJoin(s, code));
            && OthersStay(m.rooms, r.m.rooms, s) && r.m == m.(rooms := r.m.rooms)
            && (if s.user == m.owners[code] then InMain(r.m.rooms, s, code) && r.notice == None
                else InLobby(r.m, s, code, true) && r.notice.Some? && !r.notice.value.left && r.notice.value.peer == s
                     && forall o: Socket :: o in r.notice.value.to <==>
                          Inside(m.rooms, o, code) && o.user == m.owners[code])
  {
  }

  /** meet:admit by the owner brings someone waiting into the main room, as long as the meeting's media room
      is up; meet:deny puts them out; both tell the owner's connections, and change nothing else. */
  lemma DecisionLaw(m: Meetings, o: Socket, code: Code, target: Socket)
    requires o in m.joined && m.joined[o] == code && InLobby(m, target, code, true) && m.owners[code] == o.user
    ensures var r := Step(m, EvAdmit(o, code, target, true));
            InMain(r.m.rooms, target, code) && OthersStay(m.rooms, r.m.rooms, target) && r.m == m.(rooms := r.m.rooms)
              && TellsOwner(m, r, code, target)
    ensures var r := Step(m, EvDeny(o, code, target));
            target !in r.m.rooms && OthersStay(m.rooms, r.m.rooms, target) && r.m == m.(rooms := r.m.rooms)
              && TellsOwner(m, r, code, target)
    ensures Step(m, EvAdmit(o, code, target, false)) == Result(m, None)
  {
  }

  /** Every connection of the owner inside before hears that this one is off the lobby list. */
  predicate TellsOwner(m: Meetings, r: Result, code: Code, target: Socket) {
    r.notice.Some? && r.notice.value.left && r.notice.value.peer == target && code in m.owners
      && forall o | o in m.rooms && Inside(m.rooms, o, code) && o.user == m.owners[code] && o != target ::
           o in r.notice.value.to
  }

  /** Nobody but the owner decides, and only about someone waiting. */
  lemma OthersDecideNothing(m: Meetings, o: Socket, code: Code, target: Socket, up: bool)
    requires Valid(m)
    requires o !in m.joined || m.joined[o] != code || code !in m.owners || m.owners[code] != o.user
             || !InLobby(m, target, code, true)
    ensures Step(m, EvAdmit(o, code, target, up)) == Result(m, None)
    ensures Step(m, EvDeny(o, code, target)) == Result(m, None)
  {
    assert EntryOk(m, target);
  }

  // ---------------------------------------------------------------------------- breakout rooms

  /** The meeting this connection is inside and owns. */
  predicate RunsMeeting(m: Meetings, o: Socket, code: Code) {
    Inside(m.rooms, o, code) && code in m.owners && m.owners[code] == o.user
  }

  /** Each connection inside the meeting goes where `place` says, or stays; nobody else is touched. */
  ghost predicate MovesTo(rooms: RoomMap, rooms': RoomMap, code: Code, place: Socket -> Option<MeetingRoom>) {
    && rooms'.Keys == rooms.Keys
    && forall s: Socket | s in rooms ::
         rooms'[s] == if Inside(rooms, s, code) && place(s).Some? then rooms[s].(room := place(s).value) else rooms[s]
  }

  // As many rooms as this, and the index names one of them.
  predicate Names(index: real, count: nat) {
    exists i: nat :: i < count && index == Number(i)
  }

  function Number(i: nat): real { i as real }

  lemma NamesIff(index: real, count: nat)
    ensures Names(index, count) <==> IsRoom(index, count)
  {
    if IsRoom(index, count) {
      var i: nat := index.Floor;
      assert index == Number(i) && i < count;
    }
  }

  /** sfu:breakout-assign gives one person a room, or none when there is no such room; while the rooms are
      open, that person goes there at once, or to the main room. */
  lemma AssignLaw(m: Meetings, o: Socket, code: Code, target: Socket, index: real)
    requires RunsMeeting(m, o, code) && code in m.breakouts
    ensures var m', p := Step(m, EvAssign(o, target, index)).m, m.breakouts[code];
            var there := Names(index, p.count);
            && m' == m.(rooms := m'.rooms, breakouts := m.breakouts[code := p.(assign := m'.breakouts[code].assign)])
            && code in m'.breakouts
            && m'.breakouts[code].assign == (if there then p.assign[target := index] else p.assign - {target})
            && MovesTo(m.rooms, m'.rooms, code, s => if s != target || !p.open then None
                 else if there then Some(Room(index)) else Some(Main))
  {
    NamesIff(index, m.breakouts[code].count);
    hide Names, IsRoom;
  }

  /** sfu:breakout-open sends everyone inside who has a room there. */
  lemma OpenLaw(m: Meetings, o: Socket, code: Code, timed: bool)
    requires RunsMeeting(m, o, code) && code in m.breakouts && !m.breakouts[code].open
    ensures var m', p := Step(m, EvOpen(o, timed)).m, m.breakouts[code];
            && MovesTo(m.rooms, m'.rooms, code, s => if s in p.assign then Some(Room(p.assign[s])) else None)
            && m'.breakouts == m.breakouts[code := Plan(p.count, p.assign, true, if timed then Some(m.next) else None)]
            && m'.armed == (if timed then m.armed[m.next := code] else m.armed)
            && m'.owners == m.owners && m'.joined == m.joined
  {
  }

  /** Closing, by the owner or when the time is up, brings everyone inside back to the main room, and the
      rooms stay as they were set up. */
  lemma CloseLaw(m: Meetings, o: Socket, code: Code, id: nat)
    requires code in m.breakouts
    ensures RunsMeeting(m, o, code) ==> Closed(m, Step(m, EvClose(o)).m, code)
    ensures id in m.armed && m.armed[id] == code ==>
              Closed(m.(armed := m.armed - {id}), Step(m, EvTimeIsUp(id)).m, code)
  {
    CloseCloses(m, code);
    CloseCloses(m.(armed := m.armed - {id}), code);
  }

  lemma CloseCloses(m: Meetings, code: Code)
    requires code in m.breakouts
    ensures Closed(m, Close(m, code), code)
  {
  }

  ghost predicate Closed(m: Meetings, m': Meetings, code: Code)
    requires code in m.breakouts
  {
    var p := m.breakouts[code];
    && MovesTo(m.rooms, m'.rooms, code, s => Some(Main))
    && m'.breakouts == m.breakouts[code := Plan(p.count, p.assign, false, None)]
    && m'.armed == (if p.timer == None then m.armed else m.armed - {p.timer.value})
    && m'.owners == m.owners && m'.joined == m.joined && m'.next == m.next
  }

  /** sfu:breakout-join takes the owner into the room of that number while rooms are open, else to the main
      room; the return button takes anyone inside to the main room. Neither moves anyone else. */
  lemma VisitLaw(m: Meetings, o: Socket, code: Code, index: real)
    requires Inside(m.rooms, o, code)
    ensures var rooms' := Step(m, EvVisit(o, index)).m.rooms;
            var there := code in m.breakouts && m.breakouts[code].open && Names(index, m.breakouts[code].count);
            RunsMeeting(m, o, code) ==>
              MovesTo(m.rooms, rooms', code, s => if s != o then None else if there then Some(Room(index))
                                                  else Some(Main))
    ensures MovesTo(m.rooms, Step(m, EvReturn(o)).m.rooms, code, s => if s != o then None else Some(Main))
    ensures Step(m, EvVisit(o, index)).m == m.(rooms := Step(m, EvVisit(o, index)).m.rooms)
            && Step(m, EvReturn(o)).m == m.(rooms := Step(m, EvReturn(o)).m.rooms)
  {
    if code in m.breakouts { NamesIff(index, m.breakouts[code].count); }
    hide Names, IsRoom;
  }

  // At least one room and at most twenty.
  function RoomCount(count: int): (n: nat) {
    if count < 1 then 1 else if count > 20 then 20 else count
  }

  /** sfu:breakout-setup makes closed rooms, each given assignment that names one kept and every other dropped;
      it changes nothing while rooms are open. */
  lemma SetupLaw(m: Meetings, o: Socket, code: Code, count: int, given: map<Socket, real>, order: seq<Socket>)
    requires RunsMeeting(m, o, code)
    ensures var m', n := Step(m, EvSetup(o, count as real, Some(given), order)).m, RoomCount(count);
            if code in m.breakouts && m.breakouts[code].open then m' == m
            else m' == m.(breakouts := m.breakouts[code :=
                   Plan(n, map s | s in given && Names(given[s], n) :: given[s], false, None)])
  {
    var n := RoomCount(count);
    WholeCount(count);
    forall s | s in given ensures Taken(given[s], n as real) <==> Names(given[s], n) {
      NamesIff(given[s], n);
    }
    assert Given(given, n as real) == map s | s in given && Names(given[s], n) :: given[s];
    hide Names, Taken, Bounded;
  }

  lemma WholeCount(count: int)
    ensures Bounded(count as real) == RoomCount(count) as real
            && (RoomCount(count) as real).Floor == RoomCount(count)
  {
  }

  /** With no assignment given, everyone in the order drawn gets the rooms in turn. */
  lemma TurnsLaw(m: Meetings, o: Socket, code: Code, count: int, order: seq<Socket>)
    requires RunsMeeting(m, o, code) && !(code in m.breakouts && m.breakouts[code].open)
    requires forall i, j | 0 <= i < j < |order| :: order[i] != order[j]
    ensures var m', n := Step(m, EvSetup(o, count as real, None, order)).m, RoomCount(count);
            && code in m'.breakouts && m' == m.(breakouts := m.breakouts[code := m'.breakouts[code]])
            && var p := m'.breakouts[code];
               && p.count == n && !p.open && p.timer == None
               && (forall s :: s in p.assign <==> s in order)
               && (forall i | 0 <= i < |order| :: order[i] in p.assign && p.assign[order[i]] == Number(i % n))
  {
    var n := RoomCount(count);
    WholeCount(count);
    SpreadKeys(order, n as real);
    forall i | 0 <= i < |order|
      ensures order[i] in Spread(order, n as real) && Spread(order, n as real)[order[i]] == Number(i % n) {
      SpreadAt(order, n as real, i);
      TurnWhole(i, n);
    }
    hide Spread, Bounded;
  }

  /** Nobody but the owner, inside, manages the rooms. */
  lemma OthersManageNothing(m: Meetings, o: Socket, e: Event)
    requires forall code: Code :: !RunsMeeting(m, o, code)
    requires (e.EvSetup? || e.EvAssign? || e.EvOpen? || e.EvClose? || e.EvVisit?) && e.o == o
    ensures Step(m, e).m == m
  {
    assert !Runs(m, o) by {
      if Runs(m, o) { assert RunsMeeting(m, o, m.rooms[o].code); }
    }
  }
}
