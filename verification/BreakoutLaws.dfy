/** Breakout rooms, over every run of calls and meetings together: who is in which room, when a time limit
    runs, and what a plan assigns. */
module BreakoutLaws {
  import opened Common
  import opened Rooms
  import Calls = GroupCalls
  import opened MeetSignaling
  import opened MeetingLaws
  import opened Division

  /** With breakout rooms closed or absent everyone inside is in the main room; with them open everyone is
      there or in a room there is. */
  ghost predicate RoomsExist(m: Meetings) {
    forall s: Socket, code: Code | Inside(m.rooms, s, code) ::
      m.rooms[s].room == Main || (code in m.breakouts && m.breakouts[code].open
        && IsRoom(m.rooms[s].room.index, m.breakouts[code].count))
  }

  /** Opening sends nobody inside to a room that is not there. */
  ghost predicate OpeningFits(m: Meetings, e: Event) {
    e.EvOpen? && Runs(m, e.o) && m.rooms[e.o].code in m.breakouts && !m.breakouts[m.rooms[e.o].code].open ==>
      var p := m.breakouts[m.rooms[e.o].code];
      forall s | s in p.assign && Inside(m.rooms, s, m.rooms[e.o].code) :: IsRoom(p.assign[s], p.count)
  }

  /** That is the one step that can put someone in a room that is not there. */
  lemma RoomsExistIff(m: Meetings, e: Event)
    requires Valid(m) && RoomsExist(m)
    ensures RoomsExist(Step(m, e).m) <==> OpeningFits(m, e)
  {
    hide Valid, RoomsExist, OpeningFits, Open, Setup, Assign, CloseBy, TimeIsUp, Visit, Return, Join, Leave,
         RequestJoin, Admit, Deny, Runs;
    if e.EvOpen? {
      OpenRooms(m, e.o, e.timed);
    } else {
      OthersFit(m, e);
      if Lobby(e) { LobbyRooms(m, e); } else { OtherRooms(m, e); }
    }
  }

  lemma OthersFit(m: Meetings, e: Event)
    requires !e.EvOpen?
    ensures OpeningFits(m, e)
  {
  }

  lemma OpenRooms(m: Meetings, o: Socket, timed: bool)
    requires Valid(m) && RoomsExist(m)
    ensures RoomsExist(Open(m, o, timed)) <==> OpeningFits(m, EvOpen(o, timed))
  {
    var m' := Open(m, o, timed);
    if m' != m || (Runs(m, o) && m.rooms[o].code in m.breakouts && !m.breakouts[m.rooms[o].code].open) {
      hide Valid;
      var code := m.rooms[o].code;
      var p := m.breakouts[code];
      forall s: Socket, c: Code ensures Inside(m'.rooms, s, c) <==> Inside(m.rooms, s, c) {}
      if RoomsExist(m') {
        forall s | s in p.assign && Inside(m.rooms, s, code) ensures IsRoom(p.assign[s], p.count) {
          assert Inside(m'.rooms, s, code) && m'.rooms[s].room == Room(p.assign[s]);
        }
      }
      if OpeningFits(m, EvOpen(o, timed)) {
        forall s: Socket, c: Code | Inside(m'.rooms, s, c)
          ensures m'.rooms[s].room == Main || (c in m'.breakouts && m'.breakouts[c].open
                  && IsRoom(m'.rooms[s].room.index, m'.breakouts[c].count))
        {
          assert Inside(m.rooms, s, c);
        }
      }
    }
  }

  lemma LobbyRooms(m: Meetings, e: Event)
    requires Valid(m) && RoomsExist(m) && Lobby(e)
    ensures RoomsExist(Step(m, e).m)
  {
    hide Valid, RoomsExist, Join, Leave, RequestJoin, Admit, Deny, OnlyMainEntered;
    match e
    case EvJoin(s, code, active) => JoinRooms(m, s, code, active);
    case EvRequestJoin(s, code) => RequestKeeps(m, s, code); EntersMain(m, RequestJoin(m, s, code).m);
    case EvAdmit(o, code, target, up) =>
      DecideKeeps(m, o, code, target, up);
      EntersMain(m, Admit(m, o, code, target, up).m);
    case EvDeny(o, code, target) => DecideKeeps(m, o, code, target, true); EntersMain(m, Deny(m, o, code, target).m);
    case EvLeave(s) => LeaveRooms(m, s);
  }

  /** Whoever is inside was there before in the same room, or is new and in the main room. */
  ghost predicate OnlyMainEntered(m: Meetings, m': Meetings) {
    forall s: Socket, code: Code | Inside(m'.rooms, s, code) ::
      m'.rooms[s].room == Main || (Inside(m.rooms, s, code) && m'.rooms[s].room == m.rooms[s].room)
  }

  lemma EntersMain(m: Meetings, m': Meetings)
    requires RoomsExist(m) && OnlyMainEntered(m, m') && m'.breakouts == m.breakouts
    ensures RoomsExist(m')
  {
  }

  lemma RequestKeeps(m: Meetings, s: Socket, code: Code)
    requires Valid(m)
    ensures OnlyMainEntered(m, RequestJoin(m, s, code).m) && RequestJoin(m, s, code).m.breakouts == m.breakouts
  {
    assert EntryOk(m, s);
  }

  lemma DecideKeeps(m: Meetings, o: Socket, code: Code, target: Socket, up: bool)
    requires Valid(m)
    ensures OnlyMainEntered(m, Admit(m, o, code, target, up).m)
            && Admit(m, o, code, target, up).m.breakouts == m.breakouts
    ensures OnlyMainEntered(m, Deny(m, o, code, target).m) && Deny(m, o, code, target).m.breakouts == m.breakouts
  {
    assert EntryOk(m, target);
  }

  lemma LeaveRooms(m: Meetings, s: Socket)
    requires RoomsExist(m)
    ensures RoomsExist(Leave(m, s).m)
  {
    if s in m.joined {
      var m' := Leave(m, s).m;
      forall x: Socket, c: Code | Inside(m'.rooms, x, c)
        ensures m'.rooms[x].room == Main || (c in m'.breakouts && m'.breakouts[c].open
                && IsRoom(m'.rooms[x].room.index, m'.breakouts[c].count))
      {
        assert Inside(m.rooms, x, c) && x in People(m.rooms - {s}, c);
      }
    }
  }

  lemma JoinRooms(m: Meetings, s: Socket, code: Code, active: bool)
    requires RoomsExist(m)
    ensures RoomsExist(Join(m, s, code, active).m)
  {
    LeaveRooms(m, s);
    hide Leave;
  }

  lemma OtherRooms(m: Meetings, e: Event)
    requires RoomsExist(m) && !Lobby(e) && !e.EvOpen?
    ensures RoomsExist(Step(m, e).m)
  {
    hide RoomsExist, Setup, Assign, Close, TimeIsUp, Visit, Return, Runs;
    match e
    case EvSetup(o, count, given, order) => SetupRooms(m, o, count, given, order);
    case EvAssign(o, target, index) => AssignRooms(m, o, target, index);
    case EvClose(o) => if Runs(m, o) { RunsEntry(m, o); CloseRooms(m, m.rooms[o].code); }
    case EvVisit(o, index) => VisitRooms(m, o, index);
    case EvReturn(s) => VisitRooms(m, s, 0.0);
    case EvTimeIsUp(id) => TimeRooms(m, id);
  }

  lemma RunsEntry(m: Meetings, o: Socket)
    requires Runs(m, o)
    ensures o in m.rooms && m.rooms[o].InMeeting?
  {
  }

  lemma SetupRooms(m: Meetings, o: Socket, count: real, given: Option<map<Socket, real>>, order: seq<Socket>)
    requires RoomsExist(m)
    ensures RoomsExist(Setup(m, o, count, given, order))
  {
    hide Bounded, Spread, Given;
  }

  lemma AssignRooms(m: Meetings, o: Socket, target: Socket, index: real)
    requires RoomsExist(m)
    ensures RoomsExist(Assign(m, o, target, index))
  {
  }

  lemma CloseRooms(m: Meetings, code: Code)
    requires RoomsExist(m)
    ensures RoomsExist(Close(m, code))
  {
    if code in m.breakouts {
      var m' := Close(m, code);
      forall s: Socket, c: Code | Inside(m'.rooms, s, c)
        ensures m'.rooms[s].room == Main || (c in m'.breakouts && m'.breakouts[c].open
                && IsRoom(m'.rooms[s].room.index, m'.breakouts[c].count))
      {
        assert Inside(m.rooms, s, c);
      }
    }
  }

  lemma TimeRooms(m: Meetings, id: nat)
    requires RoomsExist(m)
    ensures RoomsExist(TimeIsUp(m, id))
  {
    hide Close;
    if id in m.armed {
      var off := m.(armed := m.armed - {id});
      assert RoomsExist(off);
      CloseRooms(off, m.armed[id]);
    }
  }

  lemma VisitRooms(m: Meetings, o: Socket, index: real)
    requires RoomsExist(m)
    ensures RoomsExist(Visit(m, o, index)) && RoomsExist(Return(m, o))
  {
  }

  /** At every moment of the run. */
  ghost predicate RoomsExistThroughout(site: Site, events: seq<SiteEvent>)
    decreases |events|
  {
    RoomsExist(SiteRun(site, events).meet) && (events != [] ==> RoomsExistThroughout(site, events[..|events| - 1]))
  }

  ghost predicate OpeningsFit(site: Site, events: seq<SiteEvent>)
    decreases |events|
  {
    events != [] ==>
      var before, e := events[..|events| - 1], events[|events| - 1];
      OpeningsFit(site, before) && (e.OnMeet? ==> OpeningFits(SiteRun(site, before).meet, e.meet))
  }

  /** Over every run of calls and meetings: everyone inside is at every moment in a room there is, and in
      the main room while breakout rooms are closed or absent, exactly when no opening sends someone
      inside to a room that is not there. */
  lemma {:induction false} PeopleAreInRoomsThereAreIff(site: Site, events: seq<SiteEvent>)
    requires SiteValid(site) && RoomsExist(site.meet)
    ensures RoomsExistThroughout(site, events) <==> OpeningsFit(site, events)
    decreases |events|
  {
    if events != [] {
      var before, e := events[..|events| - 1], events[|events| - 1];
      PeopleAreInRoomsThereAreIff(site, before);
      EverySiteRunValid(site, before);
      var mid := SiteRun(site, before);
      hide RoomsExist, OpeningFits, Step, Calls.Step, SiteValid;
      if RoomsExistThroughout(site, before) {
        SiteRoomsIff(mid, e);
      }
    }
  }

  lemma SiteRoomsIff(site: Site, e: SiteEvent)
    requires SiteValid(site) && RoomsExist(site.meet)
    ensures RoomsExist(SiteStep(site, e).meet) <==> (e.OnMeet? ==> OpeningFits(site.meet, e.meet))
  {
    hide OpeningFits, Calls.Step, Step;
    if e.OnCall? {
      CallsSpareMeetings(site.calls, e.call);
      var rooms' := Calls.Step(site.calls, e.call).rooms;
      forall s: Socket, c: Code ensures Inside(rooms', s, c) <==> Inside(site.meet.rooms, s, c) {
        assert MeetingEntry(rooms', s) <==> MeetingEntry(site.meet.rooms, s);
      }
      forall s: Socket, c: Code | Inside(rooms', s, c)
        ensures rooms'[s] == site.meet.rooms[s] { assert MeetingEntry(site.meet.rooms, s); }
    } else {
      RoomsExistIff(site.meet, e.meet);
    }
  }

  // ---------------------------------------------------------------------------- what setup makes

  /** Every assignment of a plan names a room it has. */
  predicate PlanFits(p: Plan) {
    forall s | s in p.assign :: IsRoom(p.assign[s], p.count)
  }

  ghost predicate PlansFit(m: Meetings) {
    forall code: Code | code in m.breakouts :: PlanFits(m.breakouts[code])
  }

  /** When setup makes a plan that fits: given assignments are checked against the bounded count, the
      rooms are its whole part, and turns are taken by its remainder. So it does with a whole number of
      rooms; with another it does when no given assignment is its whole part, or when everyone sent on in
      turn finds one of the first rooms. */
  ghost predicate SetupFits(m: Meetings, e: Event) {
    e.EvSetup? && Runs(m, e.o) && !(m.rooms[e.o].code in m.breakouts && m.breakouts[m.rooms[e.o].code].open) ==>
      var n := Bounded(e.count);
      || Whole(n)
      || (e.given.Some? && forall s | s in e.given.value :: e.given.value[s] != n.Floor as real)
      || (e.given.None? && |e.order| <= n.Floor)
  }

  /** The automatic order is some order of everyone inside but the one setting up. */
  ghost predicate SetupArranged(m: Meetings, e: Event) {
    e.EvSetup? && e.given.None? && Runs(m, e.o) ==> Arranges(e.order, People(m.rooms, m.rooms[e.o].code) - {e.o})
  }

  /** Setup is the one step that can make a plan that does not fit. */
  lemma PlansFitIff(m: Meetings, e: Event)
    requires PlansFit(m) && SetupArranged(m, e)
    ensures PlansFit(Step(m, e).m) <==> SetupFits(m, e)
  {
    hide Spread, Given, Bounded, Home, Placed, Moved, OwnersInside, People, Waits, Arranges;
    if e.EvSetup? && Runs(m, e.o) && !(m.rooms[e.o].code in m.breakouts && m.breakouts[m.rooms[e.o].code].open) {
      var p := Setup(m, e.o, e.count, e.given, e.order).breakouts[m.rooms[e.o].code];
      var n := Bounded(e.count);
      BoundedIs(e.count);
      if e.given.Some? {
        GivenFitsIff(e.given.value, n);
      } else {
        AreDistinct(e.order, m, e.o);
        SpreadFitsIff(e.order, n);
      }
      assert PlanFits(p) <==> SetupFits(m, e);
      SetupPlans(m, e.o, e.count, e.given, e.order);
    } else {
      OtherPlans(m, e);
    }
  }

  lemma BoundedIs(count: real)
    ensures 1.0 <= Bounded(count) <= 20.0 && 1 <= Bounded(count).Floor <= 20
  {
  }

  lemma AreDistinct(order: seq<Socket>, m: Meetings, o: Socket)
    requires Runs(m, o) && Arranges(order, People(m.rooms, m.rooms[o].code) - {o})
    ensures Arranges(order, Elements(order))
  {
  }

  lemma SetupPlans(m: Meetings, o: Socket, count: real, given: Option<map<Socket, real>>, order: seq<Socket>)
    requires Runs(m, o) && !(m.rooms[o].code in m.breakouts && m.breakouts[m.rooms[o].code].open) && PlansFit(m)
    ensures PlansFit(Setup(m, o, count, given, order)) <==>
              PlanFits(Setup(m, o, count, given, order).breakouts[m.rooms[o].code])
  {
    hide Spread, Given, Bounded;
  }

  lemma OtherPlans(m: Meetings, e: Event)
    requires PlansFit(m)
    requires !(e.EvSetup? && Runs(m, e.o) && !(m.rooms[e.o].code in m.breakouts && m.breakouts[m.rooms[e.o].code].open))
    ensures PlansFit(Step(m, e).m)
  {
    hide Spread, Given, Bounded, Home, Placed, Moved, OwnersInside, People, Waits;
  }

  lemma GivenFitsIff(given: map<Socket, real>, n: real)
    requires n >= 1.0
    ensures PlanFits(Plan(n.Floor, Given(given, n), false, None)) <==> Whole(n) || forall s | s in given ::
              given[s] != n.Floor as real
  {
    forall s | s in given
      ensures Taken(given[s], n) && !IsRoom(given[s], n.Floor) <==> !Whole(n) && given[s] == n.Floor as real {
      if Taken(given[s], n) { assert given[s].Floor <= n.Floor; }
    }
    if s :| s in given && !Whole(n) && given[s] == n.Floor as real {
      assert s in Given(given, n);
    }
  }

  /** A time limit that runs out closes the rooms it was set for: those open now, after with it. */
  lemma TimeLimitIsTheCurrentOne(site: Site, events: seq<SiteEvent>, id: nat)
    requires SiteValid(site)
    ensures var m := SiteRun(site, events).meet;
            id in m.armed ==>
              m.armed[id] in m.breakouts && m.breakouts[m.armed[id]].open && m.breakouts[m.armed[id]].timer == Some(id)
  {
    EverySiteRunValid(site, events);
    var m := SiteRun(site, events).meet;
    assert TimerOk(m, id);
    if id in m.armed { assert PlanOk(m, m.armed[id]); }
  }

  /** A time limit that ran out or was called off never runs again, so it cannot close rooms after later. */
  lemma {:induction false} SpentLimitsStaySpent(site: Site, events: seq<SiteEvent>, id: nat)
    requires id < site.meet.next && id !in site.meet.armed
    ensures id < SiteRun(site, events).meet.next && id !in SiteRun(site, events).meet.armed
    decreases |events|
  {
    if events != [] {
      var before, e := events[..|events| - 1], events[|events| - 1];
      SpentLimitsStaySpent(site, before, id);
      if e.OnMeet? { LimitStep(SiteRun(site, before).meet, e.meet, id); }
    }
  }

  lemma LimitStep(m: Meetings, e: Event, id: nat)
    requires id < m.next && id !in m.armed
    ensures id < Step(m, e).m.next && id !in Step(m, e).m.armed
  {
    hide OwnersInside, People, Waits, Home, Placed, Moved, Spread, Given;
  }

  lemma {:induction false} SpreadAt(order: seq<Socket>, n: real, i: nat)
    requires n >= 1.0 && i < |order| && Arranges(order, Elements(order))
    ensures order[i] in Spread(order, n) && Spread(order, n)[order[i]] == Turn(i, n)
    decreases |order|
  {
    hide Turn;
    if i < |order| - 1 {
      Shorter(order);
      SpreadAt(order[..|order| - 1], n, i);
    }
  }

  lemma Shorter(order: seq<Socket>)
    requires order != [] && Arranges(order, Elements(order))
    ensures Arranges(order[..|order| - 1], Elements(order[..|order| - 1]))
  {
  }

  lemma {:induction false} SpreadKeys(order: seq<Socket>, n: real)
    requires n >= 1.0
    ensures Spread(order, n).Keys == Elements(order)
    decreases |order|
  {
    hide Turn;
    if order != [] {
      SpreadKeys(order[..|order| - 1], n);
      assert order == order[..|order| - 1] + [order[|order| - 1]];
    }
  }

  lemma SpreadFitsIff(order: seq<Socket>, n: real)
    requires n >= 1.0 && Arranges(order, Elements(order))
    ensures PlanFits(Plan(n.Floor, Spread(order, n), false, None)) <==> Whole(n) || |order| <= n.Floor
  {
    hide Turn, Spread;
    SpreadKeys(order, n);
    if Whole(n) || |order| <= n.Floor {
      forall s | s in Spread(order, n) ensures IsRoom(Spread(order, n)[s], n.Floor) {
        var i :| 0 <= i < |order| && order[i] == s;
        SpreadAt(order, n, i);
        if Whole(n) { TurnWhole(i, n.Floor); } else { TurnSmall(i, n); }
      }
    } else {
      SpreadAt(order, n, n.Floor);
      TurnSmall(n.Floor, n);
      assert !IsRoom(Spread(order, n)[order[n.Floor]], n.Floor);
    }
  }

  /** The first people in turn get the rooms in turn. */
  lemma TurnSmall(i: nat, n: real)
    requires n >= 1.0 && i as real < n
    ensures Turn(i, n) == i as real
  {
    var x := i as real / n;
    assert x * n == i as real;
    if x >= 1.0 { NotLess(1.0, x, n); }
    if x < 0.0 { Less(x, 0.0, n); }
    assert 0.0 <= x < 1.0;
    FloorIs(x, 0);
  }

  lemma Less(x: real, y: real, n: real)
    requires x < y && n > 0.0
    ensures x * n < y * n
  {
  }

  lemma NotLess(x: real, y: real, n: real)
    requires x <= y && n > 0.0
    ensures x * n <= y * n
  {
  }

  /** With a whole number of rooms, turns are remainders. */
  lemma TurnWhole(i: nat, k: nat)
    requires k >= 1
    ensures Turn(i, k as real) == (i % k) as real
  {
    var q, r := i / k, i % k;
    var n, x := k as real, i as real / k as real;
    QuotientParts(i, k);
    assert x * n == i as real;
    AsReal(q, k, r);
    AsReal(q + 1, k, 0);
    if x < q as real { Less(x, q as real, n); }
    if x >= (q + 1) as real { NotLess((q + 1) as real, x, n); }
    assert q as real <= x < (q + 1) as real;
    FloorIs(x, q);
    assert n * q as real == q as real * n;
  }

  lemma FloorIs(x: real, q: int)
    requires q as real <= x < (q + 1) as real
    ensures x.Floor == q
  {
  }

  lemma QuotientParts(i: nat, k: nat)
    requires k >= 1
    ensures i == i / k * k + i % k && i < (i / k + 1) * k && 0 <= i % k < k
  {
  }

  lemma AsReal(q: nat, k: nat, r: nat)
    ensures (q * k + r) as real == q as real * k as real + r as real
  {
  }

  /** Whatever is given and whoever is there, setup makes a plan that fits: exactly with a whole number of
      rooms. */
  lemma EveryPlanFitsIffWhole(m: Meetings, o: Socket, count: real)
    requires Runs(m, o) && !(m.rooms[o].code in m.breakouts && m.breakouts[m.rooms[o].code].open)
    ensures (forall given: map<Socket, real> ::
              PlanFits(Setup(m, o, count, Some(given), []).breakouts[m.rooms[o].code])) <==> Whole(Bounded(count))
  {
    var n := Bounded(count);
    BoundedIs(count);
    forall given: map<Socket, real>
      ensures PlanFits(Setup(m, o, count, Some(given), []).breakouts[m.rooms[o].code]) <==>
                Whole(n) || forall s | s in given :: given[s] != n.Floor as real
    {
      GivenFitsIff(given, n);
    }
    if !Whole(n) {
      var given := map[o := n.Floor as real];
      GivenFitsIff(given, n);
      assert o in given && given[o] == n.Floor as real;
      assert !PlanFits(Setup(m, o, count, Some(given), []).breakouts[m.rooms[o].code]);
    }
  }

  predicate IsIn(rooms: RoomMap, s: Socket, index: real) {
    s in rooms && rooms[s].InMeeting? && rooms[s].room == Room(index)
  }

  /** Two and a half rooms are two, but room number 2 is accepted as given: opening such a plan sends the
      person to a room that is not there. */
  lemma TwoAndAHalfRooms(m: Meetings, o: Socket, s: Socket)
    requires Runs(m, o) && Inside(m.rooms, s, m.rooms[o].code) && m.rooms[o].code !in m.breakouts
    ensures var after := Open(Setup(m, o, 2.5, Some(map[s := 2.0]), []), o, false);
            after.breakouts[m.rooms[o].code].count == 2 && IsIn(after.rooms, s, 2.0) && !RoomsExist(after)
  {
    var code := m.rooms[o].code;
    assert Bounded(2.5) == 2.5 && (2.5).Floor == 2;
    var planned := Setup(m, o, 2.5, Some(map[s := 2.0]), []);
    assert planned.breakouts[code].assign == map[s := 2.0];
    hide Setup;
    var after := Open(planned, o, false);
    assert Inside(after.rooms, s, code) && after.rooms[s].room == Room(2.0);
  }

  /** And taking turns comes to room 2 and then to room 0.5. */
  lemma TwoAndAHalfRoomsInTurn(m: Meetings, o: Socket, order: seq<Socket>)
    requires Runs(m, o) && m.rooms[o].code !in m.breakouts && |order| >= 4
    requires Arranges(order, People(m.rooms, m.rooms[o].code) - {o})
    ensures var after := Open(Setup(m, o, 2.5, None, order), o, false);
            after.breakouts[m.rooms[o].code].count == 2 && IsIn(after.rooms, order[2], 2.0)
              && IsIn(after.rooms, order[3], 0.5) && !RoomsExist(after)
  {
    var code := m.rooms[o].code;
    assert Bounded(2.5) == 2.5 && (2.5).Floor == 2;
    AreDistinct(order, m, o);
    SpreadAt(order, 2.5, 2);
    SpreadAt(order, 2.5, 3);
    assert Turn(2, 2.5) == 2.0 && Turn(3, 2.5) == 0.5;
    assert order[2] in Elements(order) && order[3] in Elements(order);
    hide Spread, Turn, Bounded;
    var planned := Setup(m, o, 2.5, None, order);
    var p := planned.breakouts[code];
    assert p.assign == Spread(order, 2.5) && p.count == 2 && planned.rooms == m.rooms && Runs(planned, o);
    hide Setup, Arranges, Runs;
    OpenSends(planned, o, order[2]);
    OpenSends(planned, o, order[3]);
  }

  lemma OpenSends(m: Meetings, o: Socket, s: Socket)
    requires Runs(m, o) && m.rooms[o].code in m.breakouts && !m.breakouts[m.rooms[o].code].open
    requires s in m.breakouts[m.rooms[o].code].assign && Inside(m.rooms, s, m.rooms[o].code)
    ensures var m' := Open(m, o, false); var p := m.breakouts[m.rooms[o].code];
            && IsIn(m'.rooms, s, p.assign[s]) && m.rooms[o].code in m'.breakouts
               && m'.breakouts[m.rooms[o].code].count == p.count
            && (!IsRoom(p.assign[s], p.count) ==> !RoomsExist(m'))
  {
    assert Inside(Open(m, o, false).rooms, s, m.rooms[o].code);
  }

  ghost predicate SetupsFit(site: Site, events: seq<SiteEvent>)
    decreases |events|
  {
    events != [] ==>
      var before, e := events[..|events| - 1], events[|events| - 1];
      var m := SiteRun(site, before).meet;
      SetupsFit(site, before) && (e.OnMeet? ==> SetupArranged(m, e.meet) && SetupFits(m, e.meet))
  }

  /** So over every run whose setups fit, with a whole number of rooms in particular, everyone inside is
      at every moment in a room there is. */
  lemma {:induction false} PeopleAreInRoomsThereAre(site: Site, events: seq<SiteEvent>)
    requires SiteValid(site) && RoomsExist(site.meet) && PlansFit(site.meet) && SetupsFit(site, events)
    ensures RoomsExistThroughout(site, events) && PlansFit(SiteRun(site, events).meet)
    decreases |events|
  {
    if events != [] {
      var before, e := events[..|events| - 1], events[|events| - 1];
      PeopleAreInRoomsThereAre(site, before);
      EverySiteRunValid(site, before);
      var mid := SiteRun(site, before);
      hide RoomsExist, Step, Calls.Step, SiteValid, SetupFits, PlansFit, SetupArranged;
      if e.OnMeet? {
        PlansFitIff(mid.meet, e.meet);
        FittingPlansOpen(mid.meet, e.meet);
      } else {
        SamePlans(mid.meet, SiteStep(mid, e).meet);
      }
      SiteRoomsIff(mid, e);
    }
  }

  lemma SamePlans(m: Meetings, m': Meetings)
    requires m'.breakouts == m.breakouts
    ensures PlansFit(m) ==> PlansFit(m')
  {
  }

  lemma FittingPlansOpen(m: Meetings, e: Event)
    requires PlansFit(m)
    ensures OpeningFits(m, e)
  {
  }

  // ---------------------------------------------------------------------------- even rooms

  function SizeOf(assign: map<Socket, real>, room: nat): nat {
    |Assigned(assign, room)|
  }

  function Assigned(assign: map<Socket, real>, room: nat): set<Socket> {
    set s | s in assign && assign[s] == room as real
  }

  /** Everyone has a room there is, and no room has more than one person more than another. */
  ghost predicate Even(p: Plan, people: set<Socket>) {
    p.assign.Keys == people && PlanFits(p) && forall a: nat, b: nat | a < p.count && b < p.count ::
      SizeOf(p.assign, a) <= SizeOf(p.assign, b) + 1
  }

  /** Spreading n people over a whole number of rooms gives the first n % count rooms one person more
      than the rest. */
  lemma {:induction false} SpreadSizes(order: seq<Socket>, count: nat, room: nat, full: nat, over: nat)
    requires count > 0 && room < count && Arranges(order, Elements(order))
    requires |order| == full * count + over && over < count
    ensures SizeOf(Spread(order, count as real), room) == full + if room < over then 1 else 0
    decreases |order|
  {
    if order == [] {
      NoneAtAll(full, over, count);
      assert Assigned(Spread(order, count as real), room) == {};
    } else {
      var init := order[..|order| - 1];
      var full', over' := if over > 0 then full else full - 1, if over > 0 then over - 1 else count - 1;
      OneFewer(full, over, count);
      Shorter(order);
      SpreadSizes(init, count, room, full', over');
      Remainder(|init|, full', over', count);
      SpreadOneMore(order, count, room);
    }
  }

  lemma NoneAtAll(full: nat, over: nat, count: nat)
    requires count > 0 && full * count + over == 0
    ensures full == 0 && over == 0
  {
    if full > 0 { AtLeastOnce(full, count); }
  }

  lemma OneFewer(full: nat, over: nat, count: nat)
    requires count > 0 && full * count + over > 0
    ensures over > 0 || full > 0
    ensures over == 0 ==> full * count - 1 == (full - 1) * count + (count - 1)
  {
  }

  lemma SpreadOneMore(order: seq<Socket>, count: nat, room: nat)
    requires count > 0 && order != [] && Arranges(order, Elements(order))
    ensures SizeOf(Spread(order, count as real), room) ==
            SizeOf(Spread(order[..|order| - 1], count as real), room) + if (|order| - 1) % count == room then 1 else 0
  {
    var init, last := order[..|order| - 1], order[|order| - 1];
    TurnWhole(|order| - 1, count);
    var turn := (|order| - 1) % count;
    hide Turn;
    var small := Spread(init, count as real);
    assert Spread(order, count as real) == small[last := turn as real];
    SpreadKeys(init, count as real);
    assert last !in small;
    AssignedOneMore(small, last, turn, room);
  }

  lemma AssignedOneMore(assign: map<Socket, real>, s: Socket, turn: nat, room: nat)
    requires s !in assign
    ensures SizeOf(assign[s := turn as real], room) == SizeOf(assign, room) + if turn == room then 1 else 0
  {
    assert Assigned(assign[s := turn as real], room) == if turn == room then Assigned(assign, room) + {s}
           else Assigned(assign, room);
  }

  /** Automatic setup is even exactly with a whole number of rooms, or when there are no more people to
      place than whole rooms. */
  lemma AutomaticRoomsAreEvenIff(m: Meetings, o: Socket, count: real, order: seq<Socket>)
    requires Runs(m, o) && !(m.rooms[o].code in m.breakouts && m.breakouts[m.rooms[o].code].open)
    requires Arranges(order, People(m.rooms, m.rooms[o].code) - {o})
    ensures Even(Setup(m, o, count, None, order).breakouts[m.rooms[o].code], People(m.rooms, m.rooms[o].code) - {o})
            <==> Whole(Bounded(count)) || |order| <= Bounded(count).Floor
  {
    var n := Bounded(count);
    BoundedIs(count);
    AreDistinct(order, m, o);
    SpreadKeys(order, n);
    SpreadFitsIff(order, n);
    var p := Setup(m, o, count, None, order).breakouts[m.rooms[o].code];
    hide Spread, People;
    if Whole(n) || |order| <= n.Floor {
      forall a: nat, b: nat | a < p.count && b < p.count ensures SizeOf(p.assign, a) <= SizeOf(p.assign, b) + 1 {
        if Whole(n) { WholeSizes(order, n.Floor, a, b); } else { SmallSize(order, n, a); }
      }
    }
  }

  lemma WholeSizes(order: seq<Socket>, count: nat, a: nat, b: nat)
    requires a < count && b < count && Arranges(order, Elements(order))
    ensures SizeOf(Spread(order, count as real), a) <= SizeOf(Spread(order, count as real), b) + 1
  {
    QuotientParts(|order|, count);
    SpreadSizes(order, count, a, |order| / count, |order| % count);
    SpreadSizes(order, count, b, |order| / count, |order| % count);
  }

  /** Fewer people than rooms: nobody shares one. */
  lemma SmallSize(order: seq<Socket>, n: real, room: nat)
    requires n >= 1.0 && |order| <= n.Floor && Arranges(order, Elements(order))
    ensures SizeOf(Spread(order, n), room) <= 1
  {
    var assign := Spread(order, n);
    SpreadKeys(order, n);
    if room < |order| {
      forall s | s in Assigned(assign, room) ensures s == order[room] {
        var i :| 0 <= i < |order| && order[i] == s;
        SpreadAt(order, n, i);
        TurnSmall(i, n);
      }
      SubsetSize(Assigned(assign, room), {order[room]});
    } else {
      forall s | s in assign ensures assign[s] != room as real {
        var i :| 0 <= i < |order| && order[i] == s;
        SpreadAt(order, n, i);
        TurnSmall(i, n);
      }
      assert Assigned(assign, room) == {};
    }
  }
}
