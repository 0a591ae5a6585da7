/** Meetings: the lobby, the owner's admissions, and breakout rooms. Every socket event, timer and
    disconnect is one step. */
module MeetSignaling {
  import opened Common
  import opened Rooms

  // A meeting's breakout rooms: how many, who goes where, and the running time limit.
  datatype Plan = Plan(count: nat, assign: map<Socket, real>, open: bool, timer: Option<nat>)

  datatype Meetings = Meetings(
    owners: map<Code, UserId>,     // meet_links: who created each meeting
    rooms: RoomMap,
    joined: map<Socket, Code>,     // each connection's roomCode and meetingId
    breakouts: map<Code, Plan>,
    armed: map<nat, Code>,         // running time limits, each with the meeting it closes
    next: nat)                     // the id the next time limit gets

  // A `lobby-waiting` or, with `left`, a `lobby-left` notice about one connection.
  datatype Notice = Notice(to: set<Socket>, left: bool, peer: Socket)

  datatype Result = Result(m: Meetings, notice: Option<Notice>)

  /** In the meeting, past its lobby, whichever of its rooms. */
  predicate Inside(rooms: RoomMap, s: Socket, code: Code) {
    s in rooms && rooms[s].InMeeting? && rooms[s].code == code && !rooms[s].inLobby
  }

  predicate Waits(rooms: RoomMap, s: Socket, code: Code) {
    s in rooms && rooms[s].InMeeting? && rooms[s].code == code && rooms[s].room == Main && rooms[s].inLobby
      && rooms[s].waiting
  }

  function People(rooms: RoomMap, code: Code): set<Socket> {
    set s | s in rooms && Inside(rooms, s, code)
  }

  function Waiting(rooms: RoomMap, code: Code): set<Socket> {
    set s | s in rooms && Waits(rooms, s, code)
  }

  /** notifyOwners: the owner's connections that are inside this meeting. */
  function OwnersInside(rooms: RoomMap, code: Code, owner: UserId): set<Socket> {
    set s | s in rooms && Inside(rooms, s, code) && s.user == owner
  }

  // ---------------------------------------------------------------------------- the lobby

  function Disarm(armed: map<nat, Code>, timer: Option<nat>): map<nat, Code> {
    if timer.Some? then armed - {timer.value} else armed
  }

  function EndIfEmpty(m: Meetings, code: Code): Meetings {
    if People(m.rooms, code) != {} || code !in m.breakouts then m
    else m.(breakouts := m.breakouts - {code}, armed := Disarm(m.armed, m.breakouts[code].timer))
  }

  /** leave: whatever the room map says of the connection goes. */
  function Leave(m: Meetings, s: Socket): Result {
    if s !in m.joined then Result(m, None)
    else
      var code := m.joined[s];
      var rooms := m.rooms - {s};
      var notice := if s in m.rooms && m.rooms[s].InMeeting? && m.rooms[s].inLobby
                    then Some(Notice(OwnersInside(rooms, code, m.rooms[s].owner), true, s)) else None;
      Result(EndIfEmpty(m.(rooms := rooms, joined := m.joined - {s}), code), notice)
  }

  /** meet:join: into the lobby of a meeting whose link is active, out of any meeting before. */
  function Join(m: Meetings, s: Socket, code: Code, active: bool): Result {
    if code !in m.owners || !active then Result(m, None)
    else
      var r := Leave(m, s);
      r.(m := r.m.(rooms := r.m.rooms[s := InMeeting(code, Main, m.owners[code], true, false)],
        joined := r.m.joined[s := code]))
  }

  /** meet:request-join: the owner goes straight in, anyone else waits. */
  function RequestJoin(m: Meetings, s: Socket, code: Code): Result {
    if !(s in m.joined && m.joined[s] == code && s in m.rooms) then Result(m, None)
    else
      var e := m.rooms[s];
      if !e.InMeeting? || !e.inLobby then Result(m, None)
      else if e.owner == s.user then Result(m.(rooms := m.rooms[s := e.(inLobby := false)]), None)
      else Result(m.(rooms := m.rooms[s := e.(waiting := true)]),
        Some(Notice(OwnersInside(m.rooms, code, e.owner), false, s)))
  }

  predicate MayDecide(m: Meetings, o: Socket, code: Code, target: Socket) {
    o in m.joined && m.joined[o] == code && code in m.owners && m.owners[code] == o.user && Waits(m.rooms, target, code)
  }

  /** meet:admit; `up` says whether the meeting's media room exists. */
  function Admit(m: Meetings, o: Socket, code: Code, target: Socket, up: bool): Result {
    if !MayDecide(m, o, code, target) || !up then Result(m, None)
    else
      var rooms := m.rooms[target := m.rooms[target].(inLobby := false)];
      Result(m.(rooms := rooms), Some(Notice(OwnersInside(rooms, code, o.user), true, target)))
  }

  function Deny(m: Meetings, o: Socket, code: Code, target: Socket): Result {
    if !MayDecide(m, o, code, target) then Result(m, None)
    else
      var rooms := m.rooms - {target};
      Result(m.(rooms := rooms), Some(Notice(OwnersInside(rooms, code, o.user), true, target)))
  }

  /** meet:lobby-list, answered to the owner only. */
  function LobbyList(m: Meetings, o: Socket, code: Code): Option<set<Socket>> {
    if o in m.joined && m.joined[o] == code && code in m.owners
      && m.owners[code] == o.user then Some(Waiting(m.rooms, code)) else None
  }

  // ---------------------------------------------------------------------------- breakout rooms

  /** breakoutOwner: the meeting this connection is inside and owns. */
  predicate Runs(m: Meetings, o: Socket) {
    o in m.rooms && m.rooms[o].InMeeting? && !m.rooms[o].inLobby && m.rooms[o].code in m.owners
      && m.owners[m.rooms[o].code] == o.user
  }

  /** moveSocket: nobody in a lobby or a call is moved. */
  function Moved(rooms: RoomMap, s: Socket, room: MeetingRoom): RoomMap {
    if s in rooms && rooms[s].InMeeting? && !rooms[s].inLobby then rooms[s := rooms[s].(room := room)] else rooms
  }

  function Home(rooms: RoomMap, code: Code): RoomMap {
    map s | s in rooms :: if Inside(rooms, s, code) then rooms[s].(room := Main) else rooms[s]
  }

  function Placed(rooms: RoomMap, code: Code, assign: map<Socket, real>): RoomMap {
    map s | s in rooms :: if Inside(rooms, s, code) && s in assign then rooms[s].(room := Room(assign[s])) else rooms[s]
  }

  /** Math.max(1, Math.min(20, Number(count) || 0)): what the rooms are counted by. As many rooms are made
      as its whole part. */
  function Bounded(count: real): real {
    if count < 1.0 then 1.0 else if count > 20.0 then 20.0 else count
  }

  predicate Whole(x: real) {
    x == x.Floor as real
  }

  /** A room there is. */
  predicate IsRoom(index: real, count: nat) {
    Whole(index) && 0.0 <= index < count as real
  }

  /** A given assignment is taken when it is a whole number from 0 and less than the bounded count. */
  predicate Taken(index: real, bound: real) {
    Whole(index) && 0.0 <= index < bound
  }

  function Given(given: map<Socket, real>, bound: real): map<Socket, real> {
    map s | s in given && Taken(given[s], bound) :: given[s]
  }

  /** i % n on JavaScript's numbers. */
  function Turn(i: nat, bound: real): real
    requires bound >= 1.0
  {
    i as real - bound * (i as real / bound).Floor as real
  }

  /** Everyone in turn. */
  function Spread(order: seq<Socket>, bound: real): map<Socket, real>
    requires bound >= 1.0
  {
    if order == [] then map[]
    else Spread(order[..|order| - 1], bound)[order[|order| - 1] := Turn(|order| - 1, bound)]
  }

  /** Some order of exactly these connections. */
  predicate Arranges(order: seq<Socket>, people: set<Socket>) {
    && (forall i, j | 0 <= i < j < |order| :: order[i] != order[j])
    && Elements(order) == people
  }

  function Elements(order: seq<Socket>): set<Socket> {
    set s | s in order
  }

  /** sfu:breakout-setup: rooms as given, or everyone but this connection in some random order. */
  function Setup(m: Meetings, o: Socket, count: real, given: Option<map<Socket, real>>, order: seq<Socket>): Meetings {
    if !Runs(m, o) || (m.rooms[o].code in m.breakouts && m.breakouts[m.rooms[o].code].open) then m
    else
      var n := Bounded(count);
      var assign := if given.Some? then Given(given.value, n) else Spread(order, n);
      m.(breakouts := m.breakouts[m.rooms[o].code := Plan(n.Floor, assign, false, None)])
  }

  /** sfu:breakout-assign: an index out of range takes the person out of any room. */
  function Assign(m: Meetings, o: Socket, target: Socket, index: real): Meetings {
    if !Runs(m, o) || m.rooms[o].code !in m.breakouts then m
    else
      var code := m.rooms[o].code;
      var p := m.breakouts[code];
      var fits := IsRoom(index, p.count);
      var p' := p.(assign := if fits then p.assign[target := index] else p.assign - {target});
      var room := if fits then Room(index) else Main;
      m.(breakouts := m.breakouts[code := p'],
         rooms := if p.open && Inside(m.rooms, target, code) then Moved(m.rooms, target, room) else m.rooms)
  }

  /** sfu:breakout-open, with or without a time limit. */
  function Open(m: Meetings, o: Socket, timed: bool): Meetings {
    if !Runs(m, o) || m.rooms[o].code !in m.breakouts || m.breakouts[m.rooms[o].code].open then m
    else
      var code := m.rooms[o].code;
      var p := m.breakouts[code];
      m.(breakouts := m.breakouts[code := p.(open := true, timer := if timed then Some(m.next) else None)],
         armed := if timed then m.armed[m.next := code] else m.armed,
         next := if timed then m.next + 1 else m.next,
         rooms := Placed(m.rooms, code, p.assign))
  }

  /** closeBreakouts: everyone is back in the main room. */
  function Close(m: Meetings, code: Code): Meetings {
    if code !in m.breakouts then m
    else
      var p := m.breakouts[code];
      m.(breakouts := m.breakouts[code := p.(open := false, timer := None)], armed := Disarm(m.armed, p.timer),
        rooms := Home(m.rooms, code))
  }

  function CloseBy(m: Meetings, o: Socket): Meetings {
    if Runs(m, o) then Close(m, m.rooms[o].code) else m
  }

  /** sfu:breakout-join: the owner looks into a room, or goes back. */
  function Visit(m: Meetings, o: Socket, index: real): Meetings {
    if !Runs(m, o) then m
    else
      var code := m.rooms[o].code;
      var open := code in m.breakouts && m.breakouts[code].open && IsRoom(index, m.breakouts[code].count);
      m.(rooms := Moved(m.rooms, o, if open then Room(index) else Main))
  }

  function Return(m: Meetings, s: Socket): Meetings {
    m.(rooms := Moved(m.rooms, s, Main))
  }

  function TimeIsUp(m: Meetings, id: nat): Meetings {
    if id !in m.armed then m else Close(m.(armed := m.armed - {id}), m.armed[id])
  }

  // ---------------------------------------------------------------------------- runs

  datatype Event =
    | EvJoin(s: Socket, code: Code, active: bool)
    | EvRequestJoin(s: Socket, code: Code)
    | EvAdmit(o: Socket, code: Code, target: Socket, up: bool)
    | EvDeny(o: Socket, code: Code, target: Socket)
    | EvLeave(s: Socket)
    | EvSetup(o: Socket, count: real, given: Option<map<Socket, real>>, order: seq<Socket>)
    | EvAssign(o: Socket, target: Socket, index: real)
    | EvOpen(o: Socket, timed: bool)
    | EvClose(o: Socket)
    | EvVisit(o: Socket, index: real)
    | EvReturn(s: Socket)
    | EvTimeIsUp(id: nat)

  predicate Lobby(e: Event) {
    e.EvJoin? || e.EvRequestJoin? || e.EvAdmit? || e.EvDeny? || e.EvLeave?
  }

  function LobbyStep(m: Meetings, e: Event): Result
    requires Lobby(e)
  {
    match e
    case EvJoin(s, code, active) => Join(m, s, code, active)
    case EvRequestJoin(s, code) => RequestJoin(m, s, code)
    case EvAdmit(o, code, target, up) => Admit(m, o, code, target, up)
    case EvDeny(o, code, target) => Deny(m, o, code, target)
    case EvLeave(s) => Leave(m, s)
  }

  function BreakoutStep(m: Meetings, e: Event): Meetings
    requires !Lobby(e)
  {
    match e
    case EvSetup(o, count, given, order) => Setup(m, o, count, given, order)
    case EvAssign(o, target, index) => Assign(m, o, target, index)
    case EvOpen(o, timed) => Open(m, o, timed)
    case EvClose(o) => CloseBy(m, o)
    case EvVisit(o, index) => Visit(m, o, index)
    case EvReturn(s) => Return(m, s)
    case EvTimeIsUp(id) => TimeIsUp(m, id)
  }

  function Step(m: Meetings, e: Event): Result {
    if Lobby(e) then LobbyStep(m, e) else Result(BreakoutStep(m, e), None)
  }

  // ---------------------------------------------------------------------------- what every step keeps

  /** A meeting entry belongs to a connection that joined this meeting, and names its owner, who never waits. */
  ghost predicate EntryOk(m: Meetings, s: Socket) {
    s in m.rooms && m.rooms[s].InMeeting? ==>
      var e := m.rooms[s];
      && s in m.joined && m.joined[s] == e.code && e.code in m.owners && e.owner == m.owners[e.code]
      && (e.inLobby ==> e.room == Main) && (e.waiting ==> s.user != e.owner)
      && (!e.inLobby && e.room.Room? ==> e.code in m.breakouts && m.breakouts[e.code].open)
  }

  /** A plan has 1 to 20 rooms, lives while someone is inside, and has a time limit running only while it
      is open. */
  ghost predicate PlanOk(m: Meetings, code: Code) {
    code in m.breakouts ==>
      var p := m.breakouts[code];
      && 1 <= p.count <= 20
      && People(m.rooms, code) != {}
      && (p.timer.Some? ==> p.open && p.timer.value in m.armed && m.armed[p.timer.value] == code)
  }

  /** Every running time limit is the one the open rooms of its meeting were given. */
  ghost predicate TimerOk(m: Meetings, id: nat) {
    id in m.armed ==> id < m.next && m.armed[id] in m.breakouts && m.breakouts[m.armed[id]].timer == Some(id)
  }

  ghost predicate Valid(m: Meetings) {
    (forall s: Socket :: EntryOk(m, s)) && (forall code: Code :: PlanOk(m, code)) && (forall id: nat :: TimerOk(m, id))
  }

  lemma StepValid(m: Meetings, e: Event)
    requires Valid(m)
    ensures Valid(Step(m, e).m)
  {
    hide Valid, Join, Leave, RequestJoin, Admit, Deny, Setup, Assign, Open, CloseBy, Visit, Return, TimeIsUp;
    match e
    case EvJoin(s, code, active) => JoinValid(m, s, code, active);
    case EvRequestJoin(s, code) => RequestJoinValid(m, s, code);
    case EvAdmit(o, code, target, up) => DecideValid(m, o, code, target, up);
    case EvDeny(o, code, target) => DecideValid(m, o, code, target, true);
    case EvLeave(s) => LeaveValid(m, s);
    case EvSetup(o, count, given, order) => SetupValid(m, o, count, given, order);
    case EvAssign(o, target, index) => AssignValid(m, o, target, index);
    case EvOpen(o, timed) => OpenValid(m, o, timed);
    case EvClose(o) => CloseByValid(m, o);
    case EvVisit(o, index) => VisitValid(m, o, index);
    case EvReturn(s) => ReturnValid(m, s);
    case EvTimeIsUp(id) => TimeIsUpValid(m, id);
  }

  /** Same connections and lobby, only rooms changed: nobody comes or goes. */
  predicate OnlyRoomsChanged(rooms: RoomMap, rooms': RoomMap) {
    rooms'.Keys == rooms.Keys && forall s | s in rooms :: SameButRoom(rooms[s], rooms'[s])
  }

  predicate SameButRoom(e: Entry, e': Entry) {
    if e.InMeeting? then e'.InMeeting? && e'.(room := e.room) == e && (e.inLobby ==> e' == e) else e' == e
  }

  lemma SamePeople(rooms: RoomMap, rooms': RoomMap, code: Code)
    requires OnlyRoomsChanged(rooms, rooms')
    ensures People(rooms', code) == People(rooms, code)
    ensures Waiting(rooms', code) == Waiting(rooms, code)
  {
    forall s | s in rooms
      ensures Inside(rooms', s, code) <==> Inside(rooms, s, code) { assert SameButRoom(rooms[s], rooms'[s]); }
    forall s | s in rooms
      ensures Waits(rooms', s, code) <==> Waits(rooms, s, code) { assert SameButRoom(rooms[s], rooms'[s]); }
  }

  lemma LeaveValid(m: Meetings, s: Socket)
    requires Valid(m)
    ensures Valid(Leave(m, s).m)
    ensures s !in Leave(m, s).m.rooms || (!m.rooms[s].InMeeting? && s !in m.joined)
  {
    assert EntryOk(m, s);
    if s in m.joined {
      var code := m.joined[s];
      var m' := Leave(m, s).m;
      forall x: Socket ensures EntryOk(m', x) {
        assert EntryOk(m, x);
        if x in m'.rooms && m'.rooms[x].InMeeting? && m'.rooms[x].code == code
          && !m'.rooms[x].inLobby { assert x in People(m'.rooms, code); }
      }
      forall c: Code
        ensures PlanOk(m', c) { assert PlanOk(m, c);
                if c != code { LeavePeople(m, s, c); } if code in m.breakouts { assert PlanOk(m, code); } }
      forall id: nat ensures TimerOk(m', id) { assert TimerOk(m, id); }
    }
  }

  lemma LeavePeople(m: Meetings, s: Socket, code: Code)
    requires EntryOk(m, s) && s in m.joined && code != m.joined[s]
    ensures People(m.rooms - {s}, code) == People(m.rooms, code)
  {
  }

  /** Entries that are right, with nobody inside taken out, keep everything else right. */
  lemma EntriesValid(m: Meetings, rooms: RoomMap, joined: map<Socket, Code>)
    requires Valid(m) && var m' := m.(rooms := rooms, joined := joined); forall s :: EntryOk(m', s)
    requires forall s, c | Inside(m.rooms, s, c) :: Inside(rooms, s, c)
    ensures Valid(m.(rooms := rooms, joined := joined))
  {
    var m' := m.(rooms := rooms, joined := joined);
    forall c: Code ensures PlanOk(m', c) {
      assert PlanOk(m, c);
      if c in m.breakouts { assert People(m.rooms, c) <= People(rooms, c); }
    }
    forall id: nat ensures TimerOk(m', id) { assert TimerOk(m, id); }
  }

  lemma JoinValid(m: Meetings, s: Socket, code: Code, active: bool)
    requires Valid(m)
    ensures Valid(Join(m, s, code, active).m)
  {
    if code in m.owners && active {
      var r := Leave(m, s).m;
      LeaveValid(m, s);
      LeaveKeepsOwners(m, s);
      hide Leave;
      var m' := Join(m, s, code, active).m;
      forall x: Socket ensures EntryOk(m', x) { assert EntryOk(r, x); }
      EntriesValid(r, m'.rooms, m'.joined);
    }
  }

  lemma LeaveKeepsOwners(m: Meetings, s: Socket)
    ensures Leave(m, s).m.owners == m.owners
  {
  }

  lemma RequestJoinValid(m: Meetings, s: Socket, code: Code)
    requires Valid(m)
    ensures Valid(RequestJoin(m, s, code).m)
  {
    var m' := RequestJoin(m, s, code).m;
    forall x: Socket ensures EntryOk(m', x) { assert EntryOk(m, x); }
    EntriesValid(m, m'.rooms, m'.joined);
  }

  lemma DecideValid(m: Meetings, o: Socket, code: Code, target: Socket, up: bool)
    requires Valid(m)
    ensures Valid(Admit(m, o, code, target, up).m) && Valid(Deny(m, o, code, target).m)
  {
    var m1, m2 := Admit(m, o, code, target, up).m, Deny(m, o, code, target).m;
    forall x: Socket ensures EntryOk(m1, x) && EntryOk(m2, x) { assert EntryOk(m, x); }
    EntriesValid(m, m1.rooms, m1.joined);
    EntriesValid(m, m2.rooms, m2.joined);
  }

  predicate Armed(m: Meetings, code: Code, id: nat) {
    id in m.armed && m.armed[id] == code
  }

  /** Closed or absent: everyone inside is in the main room. */
  ghost predicate MainUnlessOpen(m: Meetings, code: Code) {
    forall s: Socket | Inside(m.rooms, s, code) ::
      m.rooms[s].room == Main || (code in m.breakouts && m.breakouts[code].open)
  }

  lemma ValidAt(m: Meetings, code: Code)
    requires Valid(m)
    ensures MainUnlessOpen(m, code)
    ensures PlanOk(m, code)
    ensures forall id: nat | Armed(m, code, id) ::
              code in m.breakouts && m.breakouts[code].timer == Some(id) && m.breakouts[code].open && id < m.next
    ensures m.next !in m.armed
  {
    assert PlanOk(m, code);
    forall id: nat | Armed(m, code, id)
      ensures code in m.breakouts && m.breakouts[code].timer == Some(id) && id < m.next { assert TimerOk(m, id); }
    forall s: Socket | Inside(m.rooms, s, code)
      ensures m.rooms[s].room == Main || (code in m.breakouts && m.breakouts[code].open) { assert EntryOk(m, s); }
    assert TimerOk(m, m.next);
  }

  predicate OthersSame(breakouts: map<Code, Plan>, breakouts': map<Code, Plan>, code: Code) {
    && (forall c: Code | c in breakouts && c != code :: c in breakouts' && breakouts'[c] == breakouts[c])
    && (forall c: Code | c in breakouts' && c != code :: c in breakouts)
  }

  /** A step that only moves people and changes one meeting's plan. */
  lemma PlanValid(m: Meetings, m': Meetings, code: Code)
    requires Valid(m) && OnlyRoomsChanged(m.rooms, m'.rooms) && m'.owners == m.owners && m'.joined == m.joined
    requires code in m.breakouts || People(m.rooms, code) != {}
    requires code in m'.breakouts && OthersSame(m.breakouts, m'.breakouts, code)
    requires 1 <= m'.breakouts[code].count <= 20
    requires MainUnlessOpen(m', code)
    requires forall s: Socket, c: Code | c != code && Inside(m.rooms, s, c) :: m'.rooms[s] == m.rooms[s]
    requires m'.next >= m.next && (m'.breakouts[code].timer.Some? ==> m'.breakouts[code].open)
    requires forall id: nat :: Armed(m', code, id) <==> m'.breakouts[code].timer == Some(id)
    requires forall id: nat | Armed(m', code, id) :: id < m'.next
    requires forall id: nat, c: Code | c != code :: Armed(m', c, id) <==> Armed(m, c, id)
    ensures Valid(m')
  {
    forall s: Socket ensures EntryOk(m', s) {
      assert EntryOk(m, s);
      if s in m.rooms {
        assert SameButRoom(m.rooms[s], m'.rooms[s]);
        if m.rooms[s].InMeeting? && !m.rooms[s].inLobby && m.rooms[s].code != code {
          assert Inside(m.rooms, s, m.rooms[s].code);
        }
        if m.rooms[s].InMeeting? && !m.rooms[s].inLobby && m.rooms[s].code == code { assert Inside(m'.rooms, s, code); }
      }
    }
    forall c: Code ensures PlanOk(m', c) {
      assert PlanOk(m, c);
      SamePeople(m.rooms, m'.rooms, c);
      if c in m'.breakouts {
        if m'.breakouts[c].timer.Some? {
          var id := m'.breakouts[c].timer.value;
          assert c != code ==> Armed(m, c, id);
          assert Armed(m', c, id);
        }
      }
    }
    forall id: nat ensures TimerOk(m', id) {
      assert TimerOk(m, id);
      if id in m'.armed {
        var c := m'.armed[id];
        assert Armed(m', c, id);
        if c != code { assert Armed(m, c, id); }
      }
    }
  }

  lemma SetupValid(m: Meetings, o: Socket, count: real, given: Option<map<Socket, real>>, order: seq<Socket>)
    requires Valid(m)
    ensures Valid(Setup(m, o, count, given, order))
  {
    var m' := Setup(m, o, count, given, order);
    if m' != m {
      var code := m.rooms[o].code;
      assert o in People(m.rooms, code);
      ValidAt(m, code);
      PlanValid(m, m', code);
    }
  }

  lemma AssignValid(m: Meetings, o: Socket, target: Socket, index: real)
    requires Valid(m)
    ensures Valid(Assign(m, o, target, index))
  {
    if Runs(m, o) && m.rooms[o].code in m.breakouts {
      var code := m.rooms[o].code;
      ValidAt(m, code);
      PlanValid(m, Assign(m, o, target, index), code);
    }
  }

  lemma OpenValid(m: Meetings, o: Socket, timed: bool)
    requires Valid(m)
    ensures Valid(Open(m, o, timed))
  {
    var m' := Open(m, o, timed);
    if m' != m {
      var code := m.rooms[o].code;
      ValidAt(m, code);
      PlanValid(m, m', code);
    }
  }

  /** A closing meeting's time limit may already be off: it is what closes it. */
  lemma CloseValid(m: Meetings, code: Code)
    requires Valid(m)
    ensures Valid(Close(m, code))
    ensures code in m.breakouts && m.breakouts[code].timer.Some? ==>
              Close(m.(armed := m.armed - {m.breakouts[code].timer.value}), code) == Close(m, code)
  {
    if code in m.breakouts {
      ValidAt(m, code);
      PlanValid(m, Close(m, code), code);
    }
  }

  lemma CloseByValid(m: Meetings, o: Socket)
    requires Valid(m)
    ensures Valid(CloseBy(m, o))
  {
    if Runs(m, o) { CloseValid(m, m.rooms[o].code); }
  }

  lemma TimeIsUpValid(m: Meetings, id: nat)
    requires Valid(m)
    ensures Valid(TimeIsUp(m, id))
  {
    if id in m.armed {
      assert TimerOk(m, id);
      CloseValid(m, m.armed[id]);
    }
  }

  lemma VisitValid(m: Meetings, o: Socket, index: real)
    requires Valid(m)
    ensures Valid(Visit(m, o, index))
  {
    MovedValid(m, o, Visit(m, o, index).rooms);
  }

  lemma ReturnValid(m: Meetings, s: Socket)
    requires Valid(m)
    ensures Valid(Return(m, s))
  {
    MovedValid(m, s, Return(m, s).rooms);
  }

  lemma MovedValid(m: Meetings, s: Socket, rooms: RoomMap)
    requires Valid(m) && OnlyRoomsChanged(m.rooms, rooms)
    requires forall x | x in rooms && x != s :: rooms[x] == m.rooms[x]
    requires s in rooms && rooms[s].InMeeting? && rooms[s].room.Room? && rooms[s] != m.rooms[s]
             ==> rooms[s].code in m.breakouts && m.breakouts[rooms[s].code].open
    ensures Valid(m.(rooms := rooms))
  {
    var m' := m.(rooms := rooms);
    forall x: Socket ensures EntryOk(m', x) {
      assert EntryOk(m, x);
      if x in m.rooms { assert SameButRoom(m.rooms[x], rooms[x]); }
    }
    EntriesValid(m, rooms, m.joined);
  }
}
