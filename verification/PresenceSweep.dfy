/** Which status everyone else sees for a person, and the sweep that keeps it current. */
module PresenceSweep {
  import opened Common
  import opened Rooms

  type Instant = nat

  datatype Status = Online | Away | Brb | Busy | Dnd | Offline | OutOfOffice | InACall | InAMeeting | Presenting

  datatype Row = Row(status: Status, chosen: Option<Status>, oooOn: bool, oooStart: Option<Instant>,
    oooEnd: Option<Instant>)

  predicate IsOutOfOffice(row: Row, now: Instant) {
    if !row.oooOn then false
    else if row.oooStart.Some? && row.oooStart.value > now then false
    else if row.oooEnd.Some? && row.oooEnd.value <= now then false
    else true
  }

  function ShownStatus(connected: bool, chosen: Option<Status>, call: Option<Status>, calendarMeeting: bool,
                       outOfOffice: bool, idle: bool): Status {
    var picked := chosen.GetOr(Online);
    if !connected || picked == Offline then (if outOfOffice then OutOfOffice else Offline)
    else if picked == Dnd then Dnd
    else if call.Some? then call.value
    else if outOfOffice && picked != Busy then OutOfOffice
    else if calendarMeeting && picked == Online then InAMeeting
    else if idle && picked == Online then Away
    else picked
  }

  // The statuses a person can choose; resetting chooses none.
  predicate Choosable(chosen: Option<Status>) {
    chosen.None? || chosen.value in {Online, Away, Brb, Busy, Dnd, Offline}
  }

  predicate CallStatus(call: Option<Status>) {
    call.None? || call.value in {InACall, InAMeeting, Presenting}
  }

  /** When each status shows, from the facts. */
  lemma WhenShown(connected: bool, chosen: Option<Status>, call: Option<Status>, meeting: bool, ooo: bool, idle: bool)
    requires Choosable(chosen) && CallStatus(call)
    ensures var shown := ShownStatus(connected, chosen, call, meeting, ooo, idle);
            var here := connected && chosen != Some(Offline);
            var free := here && chosen != Some(Dnd) && call == None;
            && (shown == Offline <==> !here && !ooo)
            && (shown == Dnd <==> connected && chosen == Some(Dnd))
            && (shown == OutOfOffice <==> ooo && (!here || (free && chosen != Some(Busy))))
            && (shown == InACall || shown == Presenting ==> here && call == Some(shown))
            && (here && chosen != Some(Dnd) && call.Some? ==> shown == call.value)
            && (shown == InAMeeting <==>
                  here && chosen != Some(Dnd) && (call == Some(InAMeeting)
                  || (call == None && !ooo && meeting && chosen in {None, Some(Online)})))
            && (shown == Busy <==> free && chosen == Some(Busy))
            && (shown == Brb <==> free && !ooo && chosen == Some(Brb))
            && (shown == Away <==>
                  free && !ooo && (chosen == Some(Away) || (chosen in {None, Some(Online)} && !meeting && idle)))
            && (shown == Online <==> free && !ooo && !meeting && !idle && chosen in {None, Some(Online)})
  {
  }

  // ---------------------------------------------------------------------------- who is connected, and where

  // Every open connection, and whether it is idle: what onlineSockets and socketInfo record between them.
  type Devices = map<Socket, bool>

  function DevicesOf(d: Devices, user: UserId): set<Socket> {
    set s | s in d && s.user == user
  }

  predicate Connected(d: Devices, user: UserId) {
    DevicesOf(d, user) != {}
  }

  predicate AllIdle(d: Devices, user: UserId) {
    Connected(d, user) && forall s | s in d && s.user == user :: d[s]
  }

  // Everything a status depends on besides the person's row. `channels` are the calls in channels,
  // `sharing` the connections sharing their screen, `busy` the people in a calendar meeting now.
  datatype Facts = Facts(devices: Devices, rooms: RoomMap, channels: set<CallId>, sharing: set<Socket>,
    busy: set<UserId>, now: Instant)

  /** The person's connections that are past any lobby. */
  predicate Takes(rooms: RoomMap, s: Socket, user: UserId) {
    s in rooms && s.user == user && !(rooms[s].InMeeting? && rooms[s].inLobby)
  }

  predicate Meets(f: Facts, s: Socket) {
    s in f.rooms && (f.rooms[s].InMeeting? || (f.rooms[s].InCall? && f.rooms[s].call in f.channels))
  }

  function Activity(f: Facts, user: UserId): Option<Status> {
    if exists s :: s in f.rooms && Takes(f.rooms, s, user) && s in f.sharing then Some(Presenting)
    else if exists s :: s in f.rooms && Takes(f.rooms, s, user) && Meets(f, s) then Some(InAMeeting)
    else if exists s :: s in f.rooms && Takes(f.rooms, s, user) then Some(InACall)
    else None
  }

  /** The status this person is to show by the facts. */
  function StatusNow(f: Facts, user: UserId, row: Row): Status {
    ShownStatus(Connected(f.devices, user), row.chosen, Activity(f, user), user in f.busy, IsOutOfOffice(row, f.now),
      AllIdle(f.devices, user))
  }

  predicate Settled(row: Row) {
    row.status == Offline || row.status == OutOfOffice
  }

  /** Full recomputation: everyone connected and everyone settled as away shows their status now; a
      disconnected person still in the reconnect grace is left alone. */
  function Recomputed(f: Facts, user: UserId, row: Row): Row {
    if Connected(f.devices, user) || Settled(row) then row.(status := StatusNow(f, user, row)) else row
  }

  function AllRecomputed(f: Facts, users: map<UserId, Row>): map<UserId, Row> {
    map u | u in users :: Recomputed(f, u, users[u])
  }

  /** The rows the sweep's query picks. */
  predicate Picked(f: Facts, user: UserId, row: Row) {
    row.oooOn || row.status == OutOfOffice || Connected(f.devices, user)
  }

  /** Whoever the query skips has nothing to change. */
  lemma SkippedAgree(f: Facts, user: UserId, row: Row)
    requires !Picked(f, user, row)
    ensures Recomputed(f, user, row) == row
  {
  }

  // The person's connections in a call or a meeting, past any lobby.
  function Seen(rooms: RoomMap, user: UserId): set<Socket> {
    set s | s in rooms && s.user == user && (rooms[s].InCall? || !rooms[s].inLobby)
  }

  // Those in a meeting, which any call in a channel counts as.
  function SeenMeeting(f: Facts, user: UserId): set<Socket> {
    set s | s in Seen(f.rooms, user) && (f.rooms[s].InMeeting? || f.rooms[s].call in f.channels)
  }

  /** What a person's calls show: nothing from a lobby; sharing a screen over a meeting, and a meeting over
      another call, on whichever of their connections. */
  lemma ActivityShown(f: Facts, user: UserId)
    ensures var seen := Seen(f.rooms, user);
            && (Activity(f, user) == None <==> seen == {})
            && (Activity(f, user) == Some(Presenting) <==> seen * f.sharing != {})
            && (Activity(f, user) == Some(InAMeeting) <==> seen * f.sharing == {} && SeenMeeting(f, user) != {})
            && (Activity(f, user) == Some(InACall) <==>
                  seen != {} && seen * f.sharing == {} && SeenMeeting(f, user) == {})
  {
    var seen, meeting := Seen(f.rooms, user), SeenMeeting(f, user);
    assert forall s | s in f.rooms && Takes(f.rooms, s, user) :: s in seen;
    assert forall s | s in f.rooms && Takes(f.rooms, s, user) && Meets(f, s) :: s in meeting;
    assert forall s | s in f.rooms && Takes(f.rooms, s, user) && s in f.sharing :: s in seen * f.sharing;
    if s :| s in seen { assert s in f.rooms && Takes(f.rooms, s, user); }
    if s :| s in seen * f.sharing { assert s in f.rooms && Takes(f.rooms, s, user); }
    if s :| s in meeting { assert s in f.rooms && Takes(f.rooms, s, user) && Meets(f, s); }
  }

  /** Out of office now: it is on, has begun, and has not ended. */
  predicate Absent(row: Row, now: Instant) {
    row.oooOn && row.oooStart.GetOr(0) <= now && (row.oooEnd.Some? ==> now < row.oooEnd.value)
  }

  /** What the sweep does to one person's row: only the status changes. Connected, they show what their
      facts give; gone and settled, whether they are out of office; gone a moment ago, what they showed. */
  lemma SweepShows(f: Facts, users: map<UserId, Row>, u: UserId)
    requires u in users
    ensures var row, row' := users[u], AllRecomputed(f, users)[u];
            var here := exists s :: s in f.devices && s.user == u;
            var idle := forall s | s in f.devices && s.user == u :: f.devices[s];
            && row' == row.(status := row'.status)
            && row'.status ==
               (if here then ShownStatus(true, row.chosen, Activity(f, u), u in f.busy, Absent(row, f.now), idle)
                else if row.status != Offline && row.status != OutOfOffice then row.status
                else if Absent(row, f.now) then OutOfOffice else Offline)
  {
    if s :| s in f.devices && s.user == u {
      assert s in DevicesOf(f.devices, u);
    } else {
      assert DevicesOf(f.devices, u) == {};
    }
    hide Activity;
  }

  class Presence {
    var onlineSockets: map<UserId, set<Socket>>
    var idle: map<Socket, bool>                 // socketInfo
    var users: map<UserId, Row>
    var rooms: RoomMap
    var channels: set<CallId>
    var sharing: set<Socket>

    /** The two maps agree: a person's set holds exactly their connections. */
    ghost predicate Valid()
      reads this
    {
      && (forall u: UserId | u in onlineSockets :: onlineSockets[u] == DevicesOf(idle, u))
      && (forall s | s in idle :: s.user in onlineSockets)
    }

    function Now(busy: set<UserId>, now: Instant): Facts
      reads this
    {
      Facts(idle, rooms, channels, sharing, busy, now)
    }

    constructor (users: map<UserId, Row>)
      ensures Valid() && idle == map[] && this.users == users
    {
      onlineSockets, idle, rooms, channels, sharing := map[], map[], map[], {}, {};
      this.users := users;
    }

    method Connects(s: Socket) returns (wasOffline: bool)
      requires Valid()
      modifies this`onlineSockets, this`idle
      ensures Valid() && idle == old(idle)[s := false]
      ensures wasOffline <==> !Connected(old(idle), s.user)
    {
      wasOffline := s.user !in onlineSockets || onlineSockets[s.user] == {};
      var before := if s.user in onlineSockets then onlineSockets[s.user] else {};
      assert before == DevicesOf(idle, s.user);
      onlineSockets := onlineSockets[s.user := before + {s}];
      idle := idle[s := false];
      assert forall u: UserId ::
               DevicesOf(idle, u) == if u == s.user then DevicesOf(old(idle), u) + {s} else DevicesOf(old(idle), u);
    }

    method GoesIdle(s: Socket, now: bool) returns (changed: bool)
      requires Valid()
      modifies this`idle
      ensures Valid() && idle == if s in old(idle) then old(idle)[s := now] else old(idle)
      ensures changed <==> idle != old(idle)
    {
      if s !in idle || idle[s] == now {
        return false;
      }
      idle := idle[s := now];
      assert forall u: UserId :: DevicesOf(idle, u) == DevicesOf(old(idle), u);
      return true;
    }

    /** `last` starts the reconnect grace. */
    method Disconnects(s: Socket) returns (last: bool)
      requires Valid()
      modifies this`onlineSockets, this`idle
      ensures Valid() && idle == old(idle) - {s}
      ensures s in old(idle) ==> (last <==> !Connected(idle, s.user))
    {
      idle := idle - {s};
      assert forall u: UserId :: DevicesOf(idle, u) == DevicesOf(old(idle), u) - {s};
      if s.user !in onlineSockets { return false; }
      onlineSockets := onlineSockets[s.user := onlineSockets[s.user] - {s}];
      last := onlineSockets[s.user] == {};
    }

    method IsOnline(user: UserId) returns (online: bool)
      requires Valid()
      ensures online <==> Connected(idle, user)
    {
      online := user in onlineSockets && onlineSockets[user] != {};
    }

    method EveryDeviceIdle(user: UserId) returns (every: bool)
      requires Valid()
      ensures every <==> AllIdle(idle, user)
    {
      if user !in onlineSockets || onlineSockets[user] == {} { return false; }
      var todo := onlineSockets[user];
      while todo != {}
        invariant todo <= onlineSockets[user]
        invariant forall s | s in onlineSockets[user] && s !in todo :: s in idle && idle[s]
        decreases todo
      {
        var s :| s in todo;
        if s !in idle || !idle[s] { return false; }
        todo := todo - {s};
      }
      return true;
    }

    /** callActivity: goes through the room map in any order. */
    method CallActivity(user: UserId, ghost f: Facts) returns (kind: Option<Status>)
      requires f.rooms == rooms && f.channels == channels && f.sharing == sharing
      ensures kind == Activity(f, user)
    {
      kind := None;
      var todo := rooms.Keys;
      while todo != {}
        invariant todo <= rooms.Keys
        invariant forall s | s in rooms && s !in todo && Takes(rooms, s, user) :: s !in sharing
        invariant kind == Some(InAMeeting) <==> exists s ::
                    s in rooms && s !in todo && Takes(rooms, s, user) && Meets(f, s)
        invariant kind != None <==> exists s :: s in rooms && s !in todo && Takes(rooms, s, user)
        invariant kind in {None, Some(InAMeeting), Some(InACall)}
        decreases todo
      {
        var s :| s in todo;
        todo := todo - {s};
        if s.user != user || (rooms[s].InMeeting? && rooms[s].inLobby) { continue; }
        assert Takes(rooms, s, user);
        if s in sharing { return Some(Presenting); }
        var meeting := rooms[s].InMeeting? || rooms[s].call in channels;
        assert meeting == Meets(f, s);
        kind := if meeting then Some(InAMeeting) else if kind.Some? then kind else Some(InACall);
      }
    }

    /** The status written only if it differs. */
    method Write(user: UserId, shown: Status)
      requires user in users
      modifies this`users
      ensures users == old(users)[user := old(users)[user].(status := shown)]
    {
      if shown != users[user].status {
        users := users[user := users[user].(status := shown)];
      }
    }

    method Compute(user: UserId, row: Row, busy: set<UserId>, now: Instant, online: bool) returns (shown: Status)
      requires Valid() && online == Connected(idle, user)
      ensures shown == StatusNow(Now(busy, now), user, row)
    {
      var call := CallActivity(user, Now(busy, now));
      var every := EveryDeviceIdle(user);
      shown := ShownStatus(online, row.chosen, call, user in busy, IsOutOfOffice(row, now), every);
    }

    /** refreshPresence, after something that could change one connected person's status. */
    method Refresh(user: UserId, busy: set<UserId>, now: Instant)
      requires Valid()
      modifies this`users
      ensures users == if user in old(users) && Connected(idle, user)
                       then old(users)[user := Recomputed(Now(busy, now), user, old(users)[user])] else old(users)
    {
      var online := IsOnline(user);
      if !online || user !in users { return; }
      var shown := Compute(user, users[user], busy, now, online);
      Write(user, shown);
    }

    /** refreshScheduledPresence, with nothing else happening meanwhile: the same as recomputing everyone. */
    method Sweep(busy: set<UserId>, now: Instant)
      requires Valid()
      modifies this`users
      ensures users == AllRecomputed(Now(busy, now), old(users))
    {
      ghost var f := Now(busy, now);
      var picked := Pick(busy, now);
      var todo := picked;
      while todo != {}
        invariant todo <= picked && users.Keys == old(users).Keys
        invariant forall u | u in users ::
                    users[u] == if u in picked && u !in todo then Recomputed(f, u, old(users)[u]) else old(users)[u]
        decreases todo
      {
        var u :| u in todo;
        todo := todo - {u};
        var row := users[u];
        var online := IsOnline(u);
        if !online && !Settled(row) { continue; }
        var shown := Compute(u, row, busy, now, online);
        Write(u, shown);
      }
      forall u | u in users ensures users[u] == Recomputed(f, u, old(users)[u]) {
        if u !in picked { SkippedAgree(f, u, old(users)[u]); }
      }
    }

    method Pick(busy: set<UserId>, now: Instant) returns (picked: set<UserId>)
      requires Valid()
      ensures picked == set u | u in users && Picked(Now(busy, now), u, users[u])
    {
      picked := {};
      var todo := users.Keys;
      while todo != {}
        invariant todo <= users.Keys
        invariant forall u: UserId :: u in picked <==> u in users && u !in todo && Picked(Now(busy, now), u, users[u])
        decreases todo
      {
        var u :| u in todo;
        var online := IsOnline(u);
        if users[u].oooOn || users[u].status == OutOfOffice || online { picked := picked + {u}; }
        todo := todo - {u};
      }
    }
  }
}
