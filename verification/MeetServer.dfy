/** The meeting handlers as the server runs them: each is its step of MeetSignaling, keeps what every
    step keeps, and tells the owner's connections what changed in the lobby. */
module MeetServer {
  import opened Common
  import opened Rooms
  import opened MeetSignaling
  import opened MeetingLaws

  /** For every connection of an owner inside a meeting that is not itself leaving or joining, the notice
      turns the waiting list it had into the one there is now. */
  ghost predicate NoticeRight(m: Meetings, e: Event, after: Result) {
    forall o: Socket, code: Code | OwnerInside(m, o, code) && Stays(OnMeet(e), o) ::
      Waiting(after.m.rooms, code) == Seen(Waiting(m.rooms, code), after.notice, o)
  }

  lemma NoticesRight(m: Meetings, e: Event)
    requires Valid(m) && Lobby(e)
    ensures NoticeRight(m, e, Step(m, e))
  {
    hide Valid, Step;
    forall o: Socket, code: Code | OwnerInside(m, o, code) && Stays(OnMeet(e), o)
      ensures Waiting(Step(m, e).m.rooms, code) == Seen(Waiting(m.rooms, code), Step(m, e).notice, o)
    {
      LobbyNotices(m, e, o, code);
    }
  }

  /** A lobby step keeps what every step keeps, and its notice is right. */
  lemma LobbyStepRight(m: Meetings, e: Event, after: Result)
    requires Lobby(e) && after == Step(m, e)
    ensures Valid(m) ==> Valid(after.m) && NoticeRight(m, e, after)
  {
    hide Valid, Step, NoticeRight;
    if Valid(m) {
      StepValid(m, e);
      NoticesRight(m, e);
    }
  }

  lemma StepRight(m: Meetings, e: Event, after: Meetings)
    requires !Lobby(e) && after == Step(m, e).m
    ensures Valid(m) ==> Valid(after)
  {
    hide Valid, Step;
    if Valid(m) { StepValid(m, e); }
  }

  class Server {
    const owners: map<Code, UserId>
    var rooms: RoomMap
    var joined: map<Socket, Code>
    var breakouts: map<Code, Plan>
    var armed: map<nat, Code>
    var next: nat

    function Snapshot(): Meetings
      reads this
    {
      Meetings(owners, rooms, joined, breakouts, armed, next)
    }

    constructor (owners: map<Code, UserId>)
      ensures Snapshot() == Meetings(owners, map[], map[], map[], map[], 0)
      ensures Valid(Snapshot())
    {
      this.owners := owners;
      rooms, joined, breakouts, armed, next := map[], map[], map[], map[], 0;
    }

    /** The people inside a meeting; with an owner given, only that owner's connections. */
    method Find(code: Code, owner: Option<UserId>) returns (found: set<Socket>)
      ensures found == if owner.Some? then OwnersInside(rooms, code, owner.value) else People(rooms, code)
    {
      found := {};
      var todo := rooms.Keys;
      while todo != {}
        invariant todo <= rooms.Keys
        invariant forall s: Socket ::
                    s in found <==>
                      s in rooms && s !in todo && Inside(rooms, s, code) && (owner.Some? ==> s.user == owner.value)
        decreases todo
      {
        var s :| s in todo;
        if Inside(rooms, s, code) && (owner == None || s.user == owner.value) { found := found + {s}; }
        todo := todo - {s};
      }
    }

    method NotifyOwners(code: Code, owner: UserId, left: bool, peer: Socket) returns (notice: Notice)
      ensures notice == Notice(OwnersInside(rooms, code, owner), left, peer)
    {
      var to := Find(code, Some(owner));
      notice := Notice(to, left, peer);
    }

    method EndBreakoutsIfEmpty(code: Code)
      modifies this
      ensures Snapshot() == EndIfEmpty(old(Snapshot()), code)
    {
      var people := Find(code, None);
      if people != {} || code !in breakouts { return; }
      if breakouts[code].timer.Some? { armed := armed - {breakouts[code].timer.value}; }
      breakouts := breakouts - {code};
    }

    method LeaveMeeting(s: Socket) returns (notice: Option<Notice>)
      modifies this
      ensures Result(Snapshot(), notice) == Leave(old(Snapshot()), s)
      ensures old(Valid(Snapshot())) ==>
                Valid(Snapshot()) && NoticeRight(old(Snapshot()), EvLeave(s), Result(Snapshot(), notice))
    {
      LobbyStepRight(Snapshot(), EvLeave(s), Leave(Snapshot(), s));
      hide Valid, NoticeRight;
      notice := None;
      if s !in joined { return; }
      var code := joined[s];
      if s in rooms {
        var mapping := rooms[s];
        rooms := rooms - {s};
        if mapping.InMeeting? && mapping.inLobby {
          var n := NotifyOwners(code, mapping.owner, true, s);
          notice := Some(n);
        }
      } else {
        assert rooms - {s} == rooms;
      }
      joined := joined - {s};
      EndBreakoutsIfEmpty(code);
    }

    method OnJoin(s: Socket, code: Code, active: bool) returns (notice: Option<Notice>)
      modifies this
      ensures Result(Snapshot(), notice) == Join(old(Snapshot()), s, code, active)
      ensures old(Valid(Snapshot())) ==>
                Valid(Snapshot()) && NoticeRight(old(Snapshot()), EvJoin(s, code, active), Result(Snapshot(), notice))
    {
      LobbyStepRight(Snapshot(), EvJoin(s, code, active), Join(Snapshot(), s, code, active));
      hide Valid, NoticeRight;
      notice := None;
      if code !in owners || !active { return; }
      if s in joined { notice := LeaveMeeting(s); }
      joined := joined[s := code];
      rooms := rooms[s := InMeeting(code, Main, owners[code], true, false)];
    }

    method OnRequestJoin(s: Socket, code: Code) returns (admitted: bool, notice: Option<Notice>)
      modifies this
      ensures Result(Snapshot(), notice) == RequestJoin(old(Snapshot()), s, code)
      ensures admitted <==> s in joined && joined[s] == code && s in rooms && !(rooms[s].InMeeting? && rooms[s].inLobby)
      ensures old(Valid(Snapshot())) ==>
                Valid(Snapshot()) && NoticeRight(old(Snapshot()), EvRequestJoin(s, code), Result(Snapshot(), notice))
    {
      LobbyStepRight(Snapshot(), EvRequestJoin(s, code), RequestJoin(Snapshot(), s, code));
      hide Valid, NoticeRight;
      admitted, notice := false, None;
      if s !in joined || joined[s] != code || s !in rooms { return; }
      var mapping := rooms[s];
      if !mapping.InMeeting? || !mapping.inLobby { return true, None; }
      if mapping.owner == s.user {
        rooms := rooms[s := mapping.(inLobby := false)];
        return true, None;
      }
      var n := NotifyOwners(code, mapping.owner, false, s);
      rooms := rooms[s := mapping.(waiting := true)];
      notice := Some(n);
    }

    method OnAdmit(o: Socket, code: Code, target: Socket, up: bool) returns (notice: Option<Notice>)
      modifies this
      ensures Result(Snapshot(), notice) == Admit(old(Snapshot()), o, code, target, up)
      ensures old(Valid(Snapshot())) ==>
                Valid(Snapshot()) && NoticeRight(old(Snapshot()), EvAdmit(o, code, target, up),
                  Result(Snapshot(), notice))
    {
      LobbyStepRight(Snapshot(), EvAdmit(o, code, target, up), Admit(Snapshot(), o, code, target, up));
      hide Valid, NoticeRight;
      notice := None;
      if o !in joined || joined[o] != code || code !in owners || owners[code] != o.user || !up
        || !Waits(rooms, target, code) { return; }
      rooms := rooms[target := rooms[target].(inLobby := false)];
      var n := NotifyOwners(code, o.user, true, target);
      notice := Some(n);
    }

    method OnDeny(o: Socket, code: Code, target: Socket) returns (notice: Option<Notice>)
      modifies this
      ensures Result(Snapshot(), notice) == Deny(old(Snapshot()), o, code, target)
      ensures old(Valid(Snapshot())) ==>
                Valid(Snapshot()) && NoticeRight(old(Snapshot()), EvDeny(o, code, target), Result(Snapshot(), notice))
    {
      LobbyStepRight(Snapshot(), EvDeny(o, code, target), Deny(Snapshot(), o, code, target));
      hide Valid, NoticeRight;
      notice := None;
      if o !in joined || joined[o] != code || code !in owners || owners[code] != o.user
        || !Waits(rooms, target, code) { return; }
      rooms := rooms - {target};
      var n := NotifyOwners(code, o.user, true, target);
      notice := Some(n);
    }

    method OnLobbyList(o: Socket, code: Code) returns (answer: Option<set<Socket>>)
      ensures answer == LobbyList(Snapshot(), o, code)
    {
      if o !in joined || joined[o] != code || code !in owners || owners[code] != o.user { return None; }
      var waiting := {};
      var todo := rooms.Keys;
      while todo != {}
        invariant todo <= rooms.Keys
        invariant forall s: Socket :: s in waiting <==> s in rooms && s !in todo && Waits(rooms, s, code)
        decreases todo
      {
        var s :| s in todo;
        if Waits(rooms, s, code) { waiting := waiting + {s}; }
        todo := todo - {s};
      }
      assert waiting == Waiting(rooms, code);
      answer := Some(waiting);
    }

    method MoveSocket(s: Socket, room: MeetingRoom)
      modifies this`rooms
      ensures rooms == Moved(old(rooms), s, room)
    {
      if s !in rooms || !rooms[s].InMeeting? || rooms[s].inLobby || rooms[s].room == room { return; }
      rooms := rooms[s := rooms[s].(room := room)];
    }

    /** The loop of closeBreakouts: one connection after the other goes back to the main room. */
    method BringHome(code: Code)
      modifies this`rooms
      ensures rooms == Home(old(rooms), code)
    {
      var todo := Find(code, None);
      ghost var people := todo;
      while todo != {}
        invariant todo <= people
        invariant rooms.Keys == old(rooms).Keys
        invariant forall s: Socket | s in rooms ::
                    rooms[s] == if s in people && s !in todo then old(rooms)[s].(room := Main) else old(rooms)[s]
        decreases todo
      {
        var s :| s in todo;
        if rooms[s].room != Main { MoveSocket(s, Main); }
        todo := todo - {s};
      }
    }

    method CloseBreakouts(code: Code)
      modifies this
      ensures Snapshot() == Close(old(Snapshot()), code)
    {
      if code !in breakouts { return; }
      var p := breakouts[code];
      if p.timer.Some? { armed := armed - {p.timer.value}; }
      breakouts := breakouts[code := p.(open := false, timer := None)];
      BringHome(code);
    }

    /** The loop of sfu:breakout-open: everyone assigned and inside goes to their room. */
    method SendOut(code: Code, assign: map<Socket, real>)
      modifies this`rooms
      ensures rooms == Placed(old(rooms), code, assign)
    {
      var todo := assign.Keys;
      while todo != {}
        invariant todo <= assign.Keys
        invariant rooms.Keys == old(rooms).Keys
        invariant forall s: Socket | s in rooms ::
                    rooms[s] == if s in assign && s !in todo
                    && Inside(old(rooms), s, code) then old(rooms)[s].(room := Room(assign[s])) else old(rooms)[s]
        decreases todo
      {
        var s :| s in todo;
        if Inside(rooms, s, code) { MoveSocket(s, Room(assign[s])); }
        todo := todo - {s};
      }
    }

    method OnSetup(o: Socket, count: real, given: Option<map<Socket, real>>, order: seq<Socket>)
      modifies this
      ensures Snapshot() == Setup(old(Snapshot()), o, count, given, order)
      ensures old(Valid(Snapshot())) ==> Valid(Snapshot())
    {
      StepRight(Snapshot(), EvSetup(o, count, given, order), Setup(Snapshot(), o, count, given, order));
      hide Valid;
      if !Runs(Snapshot(), o) { return; }
      var code := rooms[o].code;
      if code in breakouts && breakouts[code].open { return; }
      var n := Bounded(count);
      var assign: map<Socket, real>;
      if given.Some? {
        assign := TakeGiven(given.value, n);
      } else {
        assign := TakeTurns(order, n);
      }
      breakouts := breakouts[code := Plan(n.Floor, assign, false, None)];
    }

    method TakeGiven(given: map<Socket, real>, n: real) returns (assign: map<Socket, real>)
      ensures assign == Given(given, n)
    {
      assign := map[];
      var todo := given.Keys;
      while todo != {}
        invariant todo <= given.Keys
        invariant forall s: Socket :: s in assign <==> s in given && s !in todo && Taken(given[s], n)
        invariant forall s: Socket | s in assign :: assign[s] == given[s]
        decreases todo
      {
        var s :| s in todo;
        if Taken(given[s], n) { assign := assign[s := given[s]]; }
        todo := todo - {s};
      }
    }

    method TakeTurns(order: seq<Socket>, n: real) returns (assign: map<Socket, real>)
      requires n >= 1.0
      ensures assign == Spread(order, n)
    {
      assign := map[];
      for i := 0 to |order|
        invariant assign == Spread(order[..i], n)
      {
        assert order[..i + 1][..i] == order[..i];
        assign := assign[order[i] := Turn(i, n)];
      }
      assert order[..|order|] == order;
    }

    method OnAssign(o: Socket, target: Socket, index: real)
      modifies this
      ensures Snapshot() == Assign(old(Snapshot()), o, target, index)
      ensures old(Valid(Snapshot())) ==> Valid(Snapshot())
    {
      StepRight(Snapshot(), EvAssign(o, target, index), Assign(Snapshot(), o, target, index));
      hide Valid;
      if !Runs(Snapshot(), o) || rooms[o].code !in breakouts { return; }
      var code := rooms[o].code;
      var p := breakouts[code];
      var valid := IsRoom(index, p.count);
      if valid {
        breakouts := breakouts[code := p.(assign := p.assign[target := index])];
      } else {
        breakouts := breakouts[code := p.(assign := p.assign - {target})];
      }
      if p.open && Inside(rooms, target, code) { MoveSocket(target, if valid then Room(index) else Main); }
    }

    method OnOpen(o: Socket, timed: bool)
      modifies this
      ensures Snapshot() == Open(old(Snapshot()), o, timed)
      ensures old(Valid(Snapshot())) ==> Valid(Snapshot())
    {
      StepRight(Snapshot(), EvOpen(o, timed), Open(Snapshot(), o, timed));
      hide Valid;
      if !Runs(Snapshot(), o) || rooms[o].code !in breakouts || breakouts[rooms[o].code].open { return; }
      var code := rooms[o].code;
      var p := breakouts[code];
      if timed {
        breakouts := breakouts[code := p.(open := true, timer := Some(next))];
        armed := armed[next := code];
        next := next + 1;
      } else {
        breakouts := breakouts[code := p.(open := true, timer := None)];
      }
      SendOut(code, p.assign);
    }

    method OnClose(o: Socket)
      modifies this
      ensures Snapshot() == CloseBy(old(Snapshot()), o)
      ensures old(Valid(Snapshot())) ==> Valid(Snapshot())
    {
      StepRight(Snapshot(), EvClose(o), CloseBy(Snapshot(), o));
      hide Valid;
      if Runs(Snapshot(), o) { CloseBreakouts(rooms[o].code); }
    }

    method OnVisit(o: Socket, index: real)
      modifies this
      ensures Snapshot() == Visit(old(Snapshot()), o, index)
      ensures old(Valid(Snapshot())) ==> Valid(Snapshot())
    {
      StepRight(Snapshot(), EvVisit(o, index), Visit(Snapshot(), o, index));
      hide Valid;
      if !Runs(Snapshot(), o) { return; }
      var code := rooms[o].code;
      if code in breakouts && breakouts[code].open && IsRoom(index, breakouts[code].count) {
        MoveSocket(o, Room(index));
      } else {
        MoveSocket(o, Main);
      }
    }

    method OnReturn(s: Socket)
      modifies this
      ensures Snapshot() == Return(old(Snapshot()), s)
      ensures old(Valid(Snapshot())) ==> Valid(Snapshot())
    {
      StepRight(Snapshot(), EvReturn(s), Return(Snapshot(), s));
      hide Valid;
      MoveSocket(s, Main);
    }

    method OnTimeIsUp(id: nat)
      modifies this
      ensures Snapshot() == TimeIsUp(old(Snapshot()), id)
      ensures old(Valid(Snapshot())) ==> Valid(Snapshot())
    {
      StepRight(Snapshot(), EvTimeIsUp(id), TimeIsUp(Snapshot(), id));
      hide Valid;
      if id !in armed { return; }
      var code := armed[id];
      armed := armed - {id};
      CloseBreakouts(code);
    }
  }
}
