/** What a chat or channel is told once a call is over, and the records that carry it over a crash. */
module CallOutcomes {
  import opened Common
  import opened Rooms
  import opened GroupCalls

  datatype Kind = Talked | DeclinedCall | MissedCall | CancelledCall | MeetingEnded

  // A chat's outcome is a new message; a channel's is its "Started a meeting" post rewritten, so there a
  // second one writes over the first. It comes from the process that ended the call, or from recovery.
  datatype Post = Post(call: CallId, kind: Kind, recovered: bool)

  /** A chat always gets an outcome; a channel only when its "Started a meeting" post was made. */
  predicate Speaks(r: Record) {
    r.place.Chat? || r.postId.Some?
  }

  function OutcomeKind(r: Record, reason: Reason): Kind {
    if r.place.Channel? then MeetingEnded
    else if r.connectedAt.Some? then Talked
    else if !r.direct then MissedCall
    else match reason
      case Declined => DeclinedCall
      case NoAnswer => MissedCall
      case OtherReason => CancelledCall
  }

  function Posted(posts: seq<Post>, id: CallId, r: Record, reason: Reason, recovered: bool): seq<Post> {
    if Speaks(r) then posts + [Post(id, OutcomeKind(r, reason), recovered)] else posts
  }

  function Count(posts: seq<Post>, id: CallId): nat {
    if posts == [] then 0
    else Count(posts[..|posts| - 1], id) + if posts[|posts| - 1].call == id then 1 else 0
  }

  // The startup recovery: not begun in this process, or going through the records it found.
  datatype Sweep = NotBegun | Sweeping(left: set<CallId>, took: Option<Taken>)

  datatype Taken = Taken(id: CallId, record: Record, posted: bool)

  datatype Server = Server(w: World, posts: seq<Post>, sweep: Sweep)

  datatype ServerEvent =
    | Handle(e: Event)
    | EndPost(id: CallId, ok: bool)   // `end` posts the outcome; a failure leaves the record
    | EndDrop(id: CallId)             // and then drops the record
    | Crash                           // memory is lost; records, posts and old ids stay
    | SweepBegin
    | SweepTake(id: CallId)           // reads the record and looks whether the call runs here
    | SweepPost(ok: bool)             // a failure is ignored
    | SweepDrop

  function AfterEndPost(s: Server, id: CallId, ok: bool): Server {
    if id !in s.w.ending || s.w.ending[id].posted then s
    else
      var e := s.w.ending[id];
      if ok then s.(w := s.w.(ending := s.w.ending[id := e.(posted := true)]),
        posts := Posted(s.posts, id, e.record, e.reason, false))
      else s.(w := s.w.(ending := s.w.ending - {id}))
  }

  function AfterEndDrop(s: Server, id: CallId): Server {
    if id !in s.w.ending || !s.w.ending[id].posted then s
    else s.(w := s.w.(ending := s.w.ending - {id}, records := s.w.records - {id}))
  }

  function AfterCrash(s: Server): Server {
    s.(w := World(map[], map[], map[], s.w.records, map[], s.w.used), sweep := NotBegun)
  }

  function AfterSweepBegin(s: Server): Server {
    if s.sweep != NotBegun then s else s.(sweep := Sweeping(s.w.records.Keys, None))
  }

  predicate Takes(s: Server, id: CallId) {
    s.sweep.Sweeping? && s.sweep.took == None && id in s.sweep.left && id in s.w.records && id !in s.w.calls
  }

  function AfterSweepTake(s: Server, id: CallId): Server {
    if !(s.sweep.Sweeping? && s.sweep.took == None && id in s.sweep.left) then s
    else
      var took := if Takes(s, id) then Some(Taken(id, s.w.records[id], false)) else None;
      s.(sweep := Sweeping(s.sweep.left - {id}, took))
  }

  predicate Recovering(s: Server) {
    s.sweep.Sweeping? && s.sweep.took.Some?
  }

  function AfterSweepPost(s: Server, ok: bool): Server {
    if !Recovering(s) || s.sweep.took.value.posted then s
    else
      var t := s.sweep.took.value;
      s.(sweep := s.sweep.(took := Some(t.(posted := true))),
        posts := if ok then Posted(s.posts, t.id, t.record, OtherReason, true) else s.posts)
  }

  function AfterSweepDrop(s: Server): Server {
    if !Recovering(s) || !s.sweep.took.value.posted then s
    else s.(w := s.w.(records := s.w.records - {s.sweep.took.value.id}), sweep := s.sweep.(took := None))
  }

  ghost function ServerStep(s: Server, e: ServerEvent): Server {
    match e
    case Handle(c) => s.(w := Step(s.w, c))
    case EndPost(id, ok) => AfterEndPost(s, id, ok)
    case EndDrop(id) => AfterEndDrop(s, id)
    case Crash => AfterCrash(s)
    case SweepBegin => AfterSweepBegin(s)
    case SweepTake(id) => AfterSweepTake(s, id)
    case SweepPost(ok) => AfterSweepPost(s, ok)
    case SweepDrop => AfterSweepDrop(s)
  }

  // ---------------------------------------------------------------------------- what has happened so far

  datatype History = History(
    begun: map<CallId, Record>,   // every call started, as it was recorded then
    met: set<CallId>,             // two different people were in it together
    declined: set<CallId>,        // someone declined it and so ended it
    unanswered: set<CallId>,      // its ring timer ended it with someone waiting in it
    torn: set<CallId>,            // a crash fell after a post and before its record was dropped
    raced: set<CallId>,           // recovery took the record while this process was still ending the call,
                                  // and no crash came before both had posted
    failed: set<CallId>,          // `end` could not post it, since the last crash
    lost: set<CallId>)            // recovery could not post it

  ghost function Together(w: World): set<CallId> {
    set c | c in w.calls && DistinctUsers(w.calls[c].members) >= 2
  }

  ghost function Begun(begun: map<CallId, Record>, w: World): map<CallId, Record> {
    map c | c in begun.Keys + w.calls.Keys :: if c in begun then begun[c] else RecordOf(w.calls[c])
  }

  /** The calls that stop running in a step. */
  ghost function Stopped(w: World, w': World): set<CallId> {
    set c | c in w.calls && c !in w'.calls
  }

  ghost function TornBy(s: Server): set<CallId> {
    set c | c in s.w.records && Count(s.posts, c) >= 1
  }

  /** Races that a crash cuts short: not both outcomes were posted yet. */
  ghost function Unfinished(raced: set<CallId>, s: Server): set<CallId> {
    set c | c in raced && Count(s.posts, c) < 2
  }

  ghost function NoteHandler(h: History, w: World, e: Event): History {
    var w' := Step(w, e);
    h.(begun := Begun(h.begun, w'), met := h.met + Together(w'),
       declined := if e.EvDecline? then h.declined + Stopped(w, w') else h.declined,
       unanswered := if e.EvRingTimeout? then h.unanswered + set c | c in Stopped(w, w') && w.calls[c].members != {}
         else h.unanswered)
  }

  ghost function Note(h: History, s: Server, e: ServerEvent): History {
    match e
    case Handle(c) => NoteHandler(h, s.w, c)
    case EndPost(id, ok) => if !ok && id in s.w.ending && !s.w.ending[id].posted then h.(failed := h.failed + {id})
      else h
    case Crash => h.(torn := h.torn + TornBy(s), raced := h.raced - Unfinished(h.raced, s), failed := {})
    case SweepTake(id) => if Takes(s, id) && id in s.w.ending then h.(raced := h.raced + {id}) else h
    case SweepPost(ok) => if !ok && Recovering(s)
      && !s.sweep.took.value.posted then h.(lost := h.lost + {s.sweep.took.value.id}) else h
    case _ => h
  }

  datatype Story = Story(server: Server, history: History)

  const BEGINNING := Story(Server(EMPTY, [], NotBegun), History(map[], {}, {}, {}, {}, {}, {}, {}))

  ghost function Tell(events: seq<ServerEvent>): Story
    decreases |events|
  {
    if events == [] then BEGINNING else Next(Tell(events[..|events| - 1]), events[|events| - 1])
  }

  ghost function Next(t: Story, e: ServerEvent): Story {
    Story(ServerStep(t.server, e), Note(t.history, t.server, e))
  }

  /** This call is over and done with, whatever other calls do: `end` has it no more in hand, and
      recovery in this process neither has it in hand nor comes to it any more. */
  predicate Settled(s: Server, id: CallId) {
    && id !in s.w.calls && id !in s.w.ending
    && !(Recovering(s) && s.sweep.took.value.id == id)
    && (id in s.w.records ==> s.sweep.Sweeping? && id !in s.sweep.left)
  }

  // ---------------------------------------------------------------------------- how handlers change calls

  /** What any handler does, seen from the calls' records: calls go on with the same place, or end with
      the record they had; new calls are fresh, alone and unanswered. */
  ghost predicate Evolves(w: World, w': World) {
    && w.used <= w'.used && w.records.Keys <= w'.records.Keys
    && (forall c | c in w.calls && c in w'.calls :: GoesOn(w.calls[c], w'.calls[c]))
    && (forall c | c in w.calls && c !in w'.calls ::
          c in w'.ending && w'.ending[c] == Ending(RecordOf(w.calls[c]), w'.ending[c].reason, false))
    && (forall c | c in w'.calls && c !in w.calls ::
          c !in w.used && w'.calls[c].members == {} && w'.calls[c].connectedAt == None)
    && (forall c | c in w.ending :: c in w'.ending && w'.ending[c] == w.ending[c])
    && (forall c | c in w'.ending && c !in w.ending :: c in w.calls && c !in w'.calls)
    && (forall c | c in w'.records && c !in w'.calls :: c in w.records && w'.records[c] == w.records[c])
  }

  ghost predicate GoesOn(call: Call, call': Call) {
    && RecordOf(call').(connectedAt := None) == RecordOf(call).(connectedAt := None)
    && (call'.connectedAt.Some? <==> call.connectedAt.Some? || DistinctUsers(call'.members) >= 2)
  }

  lemma EndEvolves(w: World, id: CallId, reason: Reason)
    requires Valid(w) && id in w.calls
    ensures Evolves(w, End(w, id, reason))
  {
    hide DistinctUsers, OneCallPerUser, OneCallPerPlace, RoomsAreMembers;
    forall c | c in w.calls ensures GoesOn(w.calls[c], w.calls[c]) { assert CallAlive(w.calls[c]); }
  }

  lemma LeaveEvolves(w: World, s: Socket, id: CallId)
    requires Valid(w)
    ensures Evolves(w, LeaveCall(w, s, id))
  {
    hide DistinctUsers, OneCallPerUser, OneCallPerPlace, RoomsAreMembers;
    forall c | c in w.calls ensures GoesOn(w.calls[c], w.calls[c]) { assert CallAlive(w.calls[c]); }
    if id in w.calls && s in w.calls[id].members { UsersShrink(w.calls[id].members, s); }
  }

  lemma EnterEvolves(w: World, s: Socket, id: CallId, now: nat)
    requires Valid(w) && id in w.calls
    ensures Evolves(w, Enter(w, s, id, now))
  {
    hide DistinctUsers, OneCallPerUser, OneCallPerPlace, RoomsAreMembers;
    forall c | c in w.calls ensures GoesOn(w.calls[c], w.calls[c]) { assert CallAlive(w.calls[c]); }
  }

  lemma RegisterEvolves(w: World, user: UserId, place: Place, direct: bool, postId: Option<nat>, id: CallId, now: nat)
    requires Valid(w) && id !in w.used
    ensures Evolves(w, Register(w, user, place, direct, postId, id, now))
  {
    hide DistinctUsers, OneCallPerUser, OneCallPerPlace, RoomsAreMembers;
    forall c | c in w.calls ensures GoesOn(w.calls[c], w.calls[c]) { assert CallAlive(w.calls[c]); }
  }

  lemma StaysEvolves(w: World)
    requires Valid(w)
    ensures Evolves(w, w)
    ensures forall c | c in w.calls :: Evolves(w, w.(calls := w.calls[c := w.calls[c].(ringing := false)]))
  {
    hide DistinctUsers, OneCallPerUser, OneCallPerPlace, RoomsAreMembers;
    forall c | c in w.calls ensures GoesOn(w.calls[c], w.calls[c]) { assert CallAlive(w.calls[c]); }
  }

  lemma StepEvolves(w: World, e: Event)
    requires Valid(w)
    ensures Evolves(w, Step(w, e))
  {
    hide Valid, Evolves, End, LeaveCall, Enter, Register, CanStart, CanJoin;
    StaysEvolves(w);
    match e
    case EvStart(user, place, direct, other, online, postId, id, now) =>
      if id !in w.used { RegisterEvolves(w, user, place, direct, postId, id, now); }
    case EvJoin(s, id, now) => if CanJoin(w, s, id) { CanJoinRuns(w, s, id); EnterEvolves(w, s, id, now); }
    case EvDecline(user, id) => if id in w.calls { EndEvolves(w, id, Declined); }
    case EvLeave(s, id) => if id in w.calls { EndEvolves(w, id, OtherReason); LeaveEvolves(w, s, id); }
    case EvRingTimeout(id) => if id in w.calls { EndEvolves(w, id, OtherReason); EndEvolves(w, id, NoAnswer); }
    case EvDisconnect(s) =>
      if exists id :: id in w.calls && s in w.calls[id].members {
        var id :| id in w.calls && s in w.calls[id].members && Disconnect(w, s) == LeaveCall(w, s, id);
        LeaveEvolves(w, s, id);
      }
  }

  lemma CanJoinRuns(w: World, s: Socket, id: CallId)
    requires CanJoin(w, s, id)
    ensures id in w.calls
  {
  }

  /** A call that a handler ends carries the reason that belongs to the event. */
  ghost predicate EndsBecause(w: World, w': World, e: Event) {
    forall c | c in w'.ending && c !in w.ending ::
      && (w'.ending[c].reason == Declined <==> e.EvDecline?)
      && (w'.ending[c].reason == NoAnswer <==> e.EvRingTimeout? && c in w.calls && w.calls[c].members != {})
  }

  lemma StepEndsBecause(w: World, e: Event)
    ensures EndsBecause(w, Step(w, e), e)
  {
    hide DistinctUsers, InCallBut;
  }

  // ---------------------------------------------------------------------------- what every run keeps

  /** A record of a call, wherever it is, says how the call started and whether people met in it. */
  ghost predicate RecordOk(h: History, id: CallId, r: Record) {
    id in h.begun && r.(connectedAt := None) == h.begun[id] && (r.connectedAt.Some? <==> id in h.met)
  }

  /** What an outcome of the call has to say. Recovery knows no reason, so what it says of a 1:1 call in
      which nobody met is that it was cancelled, even when it was declined or not answered. */
  ghost function Verdict(h: History, id: CallId, recovered: bool): Kind
    requires id in h.begun
  {
    var r := h.begun[id];
    if r.place.Channel? then MeetingEnded
    else if id in h.met then Talked
    else if !r.direct then MissedCall
    else if recovered then CancelledCall
    else if id in h.declined then DeclinedCall
    else if id in h.unanswered then MissedCall
    else CancelledCall
  }

  ghost predicate Says(h: History, p: Post) {
    p.call in h.begun && Speaks(h.begun[p.call]) && p.kind == Verdict(h, p.call, p.recovered)
  }

  ghost predicate ReasonOk(h: History, id: CallId, reason: Reason) {
    (reason == Declined <==> id in h.declined) && (reason == NoAnswer <==> id in h.unanswered)
  }

  ghost predicate RecordsOk(w: World, h: History) {
    && h.begun.Keys == w.used && h.met <= w.used && h.declined + h.unanswered <= w.used - w.calls.Keys
    && (forall c | c in w.records :: RecordOk(h, c, w.records[c]))
    && (forall c | c in w.calls :: RecordOk(h, c, RecordOf(w.calls[c])))
    && (forall c | c in w.ending :: RecordOk(h, c, w.ending[c].record) && ReasonOk(h, c, w.ending[c].reason))
  }

  ghost predicate PostsOk(s: Server, h: History) {
    forall p | p in s.posts :: p.call !in s.w.calls && Says(h, p)
  }

  ghost predicate TakenOk(s: Server, h: History) {
    Recovering(s) ==>
      s.sweep.took.value.id !in s.w.calls && RecordOk(h, s.sweep.took.value.id, s.sweep.took.value.record)
  }

  ghost predicate Sound(t: Story) {
    Valid(t.server.w) && RecordsOk(t.server.w, t.history) && PostsOk(t.server, t.history)
      && TakenOk(t.server, t.history)
  }

  lemma HandlerRecordsOk(w: World, h: History, e: Event)
    requires Valid(w) && RecordsOk(w, h)
    ensures RecordsOk(Step(w, e), NoteHandler(h, w, e))
  {
    hide Step, DistinctUsers, Valid, ReasonOk;
    StepEvolves(w, e);
    HandlerReasonsOk(w, h, e);
    StepRecordsFollow(w, e);
    UsedAreBegun(w, e);
    var w', h' := Step(w, e), NoteHandler(h, w, e);
    forall c | c in w'.calls ensures RecordOk(h', c, RecordOf(w'.calls[c])) {
      if c in w.calls {
        assert GoesOn(w.calls[c], w'.calls[c]) && RecordOk(h, c, RecordOf(w.calls[c]));
      } else {
        Nobody();
        assert c !in h.met;
      }
    }
    forall c | c in w'.records ensures RecordOk(h', c, w'.records[c]) {
      if c !in w'.calls { assert c in w.records && RecordOk(h, c, w.records[c]); }
    }
    forall c | c in w'.ending ensures RecordOk(h', c, w'.ending[c].record) {
      if c in w.ending {
        assert RecordOk(h, c, w.ending[c].record);
      } else {
        assert RecordOk(h, c, RecordOf(w.calls[c]));
      }
    }
  }

  /** Why a call ended is noted when it does and never after, as no id is used again. */
  lemma HandlerReasonsOk(w: World, h: History, e: Event)
    requires Valid(w) && RecordsOk(w, h)
    ensures var w', h' := Step(w, e), NoteHandler(h, w, e);
            && h'.declined + h'.unanswered <= w'.used - w'.calls.Keys
            && forall c | c in w'.ending :: ReasonOk(h', c, w'.ending[c].reason)
  {
    hide Step, DistinctUsers, Valid, RecordOk, Together, Begun, GoesOn;
    StepEvolves(w, e);
    StepEndsBecause(w, e);
    StepRecordsFollow(w, e);
    var w', h' := Step(w, e), NoteHandler(h, w, e);
    forall c | c in w'.ending ensures ReasonOk(h', c, w'.ending[c].reason) {
      if c in w.ending {
        assert ReasonOk(h, c, w.ending[c].reason) && c !in w.calls;
      } else {
        assert c in w.calls && c !in h.declined + h.unanswered;
        assert c in Stopped(w, w');
      }
    }
  }

  lemma Nobody()
    ensures DistinctUsers({}) == 0
  {
    assert Users({}) == {};
  }

  lemma StepRecordsFollow(w: World, e: Event)
    requires Valid(w)
    ensures RecordsFollow(w) && RecordsFollow(Step(w, e))
  {
    hide Step;
    StepValid(w, e);
  }

  lemma UsedAreBegun(w: World, e: Event)
    ensures Step(w, e).used <= w.used + Step(w, e).calls.Keys
  {
    hide DistinctUsers, InCallBut;
  }

  lemma {:induction false} EveryRunSound(events: seq<ServerEvent>)
    ensures Sound(Tell(events))
    decreases |events|
  {
    if events != [] {
      var before := events[..|events| - 1];
      EveryRunSound(before);
      NextSound(Tell(before), events[|events| - 1]);
    }
  }

  lemma NextSound(t: Story, e: ServerEvent)
    requires Sound(t)
    ensures Sound(Next(t, e))
  {
    hide Valid, Step, DistinctUsers, NoteHandler, RecordsOk, Count;
    var s, h := t.server, t.history;
    match e
    case Handle(c) =>
      StepValid(s.w, c);
      HandlerRecordsOk(s.w, h, c);
      HandlerPostsOk(s, h, c);
    case EndPost(id, ok) => EndSound(t, id, ok);
    case EndDrop(id) => EndSound(t, id, true);
    case Crash => CrashSound(t);
    case _ => SweepSound(t, e);
  }

  /** An outcome already given stays right: its call runs no more, so nobody can meet in it now. */
  lemma HandlerPostsOk(s: Server, h: History, e: Event)
    requires Valid(s.w) && RecordsOk(s.w, h) && PostsOk(s, h) && TakenOk(s, h)
    ensures PostsOk(s.(w := Step(s.w, e)), NoteHandler(h, s.w, e))
            && TakenOk(s.(w := Step(s.w, e)), NoteHandler(h, s.w, e))
  {
    hide Step, DistinctUsers, Valid;
    StepEvolves(s.w, e);
    var w', h' := Step(s.w, e), NoteHandler(h, s.w, e);
    forall id | id in h.begun && id !in s.w.calls
      ensures id !in w'.calls && h'.begun[id] == h.begun[id] && (id in h'.met <==> id in h.met)
              && (id in h'.declined <==> id in h.declined) && (id in h'.unanswered <==> id in h.unanswered) {
      assert id in s.w.used;
    }
  }

  /** Finishing an ended call, or dropping the record of one that does not run, touches no running call. */
  lemma BookkeepingValid(w: World, records: map<CallId, Record>, ending: map<CallId, Ending>)
    requires Valid(w) && ending.Keys <= w.ending.Keys && records.Keys <= w.records.Keys
    requires forall c | c in w.calls :: c in records && records[c] == w.records[c]
    ensures Valid(w.(records := records, ending := ending))
  {
    hide DistinctUsers, CallAlive;
  }

  lemma EndSound(t: Story, id: CallId, ok: bool)
    requires Sound(t)
    ensures Sound(Next(t, EndPost(id, ok))) && Sound(Next(t, EndDrop(id)))
  {
    hide Valid, DistinctUsers, Count;
    var s, h, w := t.server, t.history, t.server.w;
    assert RecordsFollow(w) by { ValidRecords(w); }
    if id in w.ending {
      var e := w.ending[id];
      assert RecordOk(h, id, e.record) && ReasonOk(h, id, e.reason);
      BookkeepingValid(w, w.records, w.ending[id := e.(posted := true)]);
      BookkeepingValid(w, w.records, w.ending - {id});
      BookkeepingValid(w, w.records - {id}, w.ending - {id});
      EndPostsOk(t, id, ok);
    }
  }

  lemma ValidRecords(w: World)
    requires Valid(w)
    ensures RecordsFollow(w)
  {
  }

  lemma EndPostsOk(t: Story, id: CallId, ok: bool)
    requires Sound(t)
    ensures PostsOk(Next(t, EndPost(id, ok)).server, Next(t, EndPost(id, ok)).history)
    ensures PostsOk(Next(t, EndDrop(id)).server, Next(t, EndDrop(id)).history)
  {
    hide OneCallPerPlace, OneCallPerUser, CallsAlive, RoomsAreMembers, DistinctUsers, Count, OutcomeKind, Says;
    var h, h' := t.history, Next(t, EndPost(id, ok)).history;
    assert forall p | Says(h, p) :: Says(h', p) by { SaysOnly(h, h'); }
    if id in t.server.w.ending && Speaks(t.server.w.ending[id].record) {
      var e := t.server.w.ending[id];
      assert RecordOk(h, id, e.record) && ReasonOk(h, id, e.reason);
      RightPost(h, id, e.record, e.reason, false);
    }
  }

  lemma SaysOnly(h: History, h': History)
    requires h'.begun == h.begun && h'.met == h.met && h'.declined == h.declined && h'.unanswered == h.unanswered
    ensures forall p | Says(h, p) :: Says(h', p)
    ensures forall c, r | RecordOk(h, c, r) :: RecordOk(h', c, r)
  {
  }

  lemma RightPost(h: History, id: CallId, r: Record, reason: Reason, recovered: bool)
    requires RecordOk(h, id, r) && Speaks(r)
    requires if recovered then reason == OtherReason else ReasonOk(h, id, reason)
    ensures Says(h, Post(id, OutcomeKind(r, reason), recovered))
  {
  }

  lemma CrashSound(t: Story)
    requires Sound(t)
    ensures Sound(Next(t, Crash))
  {
    hide DistinctUsers, Count;
    var h := t.history;
    SaysOnly(h, Next(t, Crash).history);
  }

  lemma SweepSound(t: Story, e: ServerEvent)
    requires Sound(t) && (e.SweepBegin? || e.SweepTake? || e.SweepPost? || e.SweepDrop?)
    ensures Sound(Next(t, e))
  {
    hide DistinctUsers, Count, Valid, OutcomeKind, Says, RecordOk, Posted;
    var s, h, w := t.server, t.history, t.server.w;
    SaysOnly(h, Next(t, e).history);
    ValidRecords(w);
    if e.SweepDrop? && Recovering(s) {
      BookkeepingValid(w, w.records - {s.sweep.took.value.id}, w.ending);
    }
    if e.SweepPost? && Recovering(s) {
      RecoveryPostOk(s, h, e.ok);
    }
  }

  lemma RecoveryPostOk(s: Server, h: History, ok: bool)
    requires PostsOk(s, h) && TakenOk(s, h) && Recovering(s)
    ensures PostsOk(AfterSweepPost(s, ok), h)
  {
    var t := s.sweep.took.value;
    if Speaks(t.record) { RightPost(h, t.id, t.record, OtherReason, true); }
  }

  // ---------------------------------------------------------------------------- how often an outcome is given

  predicate Took(s: Server, id: CallId) {
    Recovering(s) && s.sweep.took.value.id == id
  }

  predicate TookUnposted(s: Server, id: CallId) {
    Took(s, id) && !s.sweep.took.value.posted
  }

  predicate EndsUnposted(s: Server, id: CallId) {
    id in s.w.ending && !s.w.ending[id].posted
  }

  /** Recovery will still come to the call's record. */
  predicate ToRecover(s: Server, id: CallId) {
    id in s.w.records && (s.sweep == NotBegun || (s.sweep.Sweeping? && id in s.sweep.left) || TookUnposted(s, id))
  }

  ghost predicate AtMostOnce(t: Story, id: CallId) {
    var s, n := t.server, Count(t.server.posts, id);
    && n <= 1
    && (n == 1 ==>
          !EndsUnposted(s, id) && !TookUnposted(s, id) && (id in s.w.records ==> id in s.w.ending || Took(s, id)))
    && (Took(s, id) ==> id !in s.w.ending)
  }

  ghost predicate AtLeastOnce(t: Story, id: CallId) {
    var s, h, n := t.server, t.history, Count(t.server.posts, id);
    && (n >= 1 || id in s.w.calls || id in h.lost || (EndsUnposted(s, id) && id in s.w.records) || ToRecover(s, id)
       || (id in h.failed && id in s.w.records))
    && (id in s.w.ending && s.w.ending[id].posted ==> n >= 1)
    && (Took(s, id) && s.sweep.took.value.posted ==> n >= 1 || id in h.lost)
  }

  /** After a torn end the record is still there, and recovery posts a second outcome. */
  ghost predicate TornTwice(t: Story, id: CallId) {
    var s, h, n := t.server, t.history, Count(t.server.posts, id);
    n >= 2 || id in h.lost || (n >= 1 && id !in s.w.calls && id !in s.w.ending && ToRecover(s, id))
  }

  function OneIf(b: bool): nat {
    if b then 1 else 0
  }

  /** A race is two posts, made or to be made, unless one fails. */
  ghost predicate RacedTwice(t: Story, id: CallId) {
    var s, h := t.server, t.history;
    Count(s.posts, id) + OneIf(EndsUnposted(s, id)) + OneIf(TookUnposted(s, id)) >= 2 || id in h.lost || id in h.failed
  }

  ghost predicate Ledger(t: Story, id: CallId) {
    && (Took(t.server, id) ==> id !in t.server.sweep.left)
    && (id in t.history.torn || id in t.history.raced || AtMostOnce(t, id))
    && (id in t.history.begun && Speaks(t.history.begun[id]) ==> AtLeastOnce(t, id))
    && (id in t.history.torn ==> TornTwice(t, id))
    && (id in t.history.raced && id in t.history.begun && Speaks(t.history.begun[id]) ==> RacedTwice(t, id))
    && (id in t.history.raced ==> id in t.history.begun)
  }

  lemma CountPosted(posts: seq<Post>, id: CallId, c: CallId, r: Record, reason: Reason, recovered: bool)
    ensures Count(Posted(posts, c, r, reason, recovered), id) ==
              Count(posts, id) + if c == id && Speaks(r) then 1 else 0
  {
    if Speaks(r) {
      var p := Post(c, OutcomeKind(r, reason), recovered);
      assert (posts + [p])[..|posts|] == posts;
    }
  }

  lemma {:induction false} CountFinds(posts: seq<Post>, id: CallId)
    ensures Count(posts, id) >= 1 <==> exists p :: p in posts && p.call == id
  {
    if posts != [] {
      var init := posts[..|posts| - 1];
      CountFinds(init, id);
      assert posts == init + [posts[|posts| - 1]];
    }
  }

  lemma HandlerLedger(t: Story, e: Event, id: CallId)
    requires Sound(t) && Ledger(t, id)
    ensures Ledger(Next(t, Handle(e)), id)
  {
    hide Step, DistinctUsers, Count, Valid, Says;
    var s := t.server;
    StepEvolves(s.w, e);
    StepRecordsFollow(s.w, e);
    PostedIsOver(s, t.history, id);
  }

  lemma PostedIsOver(s: Server, h: History, id: CallId)
    requires PostsOk(s, h) && RecordsOk(s.w, h)
    ensures Count(s.posts, id) >= 1 ==> id in s.w.used && id !in s.w.calls && Speaks(h.begun[id])
  {
    CountFinds(s.posts, id);
    if Count(s.posts, id) >= 1 {
      var p :| p in s.posts && p.call == id;
      SaysBegun(h, p);
    }
  }

  lemma SaysBegun(h: History, p: Post)
    requires Says(h, p)
    ensures p.call in h.begun && Speaks(h.begun[p.call])
  {
  }

  lemma EndPostLedger(t: Story, e: ServerEvent, id: CallId)
    requires Sound(t) && Ledger(t, id) && e.EndPost?
    ensures Ledger(Next(t, e), id)
  {
    hide DistinctUsers, Count, Valid, TakenOk, OutcomeKind, Says, Posted;
    var s := t.server;
    PostedIsOver(s, t.history, id);
    if e.id in s.w.ending {
      var r := s.w.ending[e.id];
      CountPosted(s.posts, id, e.id, r.record, r.reason, false);
      assert RecordOk(t.history, e.id, r.record);
      assert Speaks(r.record) == Speaks(t.history.begun[e.id]);
    }
  }

  lemma SweepPostLedger(t: Story, e: ServerEvent, id: CallId)
    requires Sound(t) && Ledger(t, id) && e.SweepPost?
    ensures Ledger(Next(t, e), id)
  {
    hide DistinctUsers, Count, Valid, OutcomeKind, Says, Posted;
    var s := t.server;
    PostedIsOver(s, t.history, id);
    if Recovering(s) {
      var r := s.sweep.took.value;
      CountPosted(s.posts, id, r.id, r.record, OtherReason, true);
      assert RecordOk(t.history, r.id, r.record);
      assert Speaks(r.record) == Speaks(t.history.begun[r.id]);
    }
  }

  lemma OtherLedger(t: Story, e: ServerEvent, id: CallId)
    requires Sound(t) && Ledger(t, id) && (e.EndDrop? || e.Crash? || e.SweepBegin? || e.SweepTake? || e.SweepDrop?)
    ensures Ledger(Next(t, e), id)
  {
    hide DistinctUsers, Count, Valid, OutcomeKind, Says, Posted;
    ValidRecords(t.server.w);
    PostedIsOver(t.server, t.history, id);
  }

  lemma {:induction false} EveryRunLedger(events: seq<ServerEvent>, id: CallId)
    ensures Ledger(Tell(events), id)
    decreases |events|
  {
    if events != [] {
      var before, e := events[..|events| - 1], events[|events| - 1];
      EveryRunSound(before);
      EveryRunLedger(before, id);
      hide Sound, Ledger, Next;
      match e
      case Handle(c) => HandlerLedger(Tell(before), c, id);
      case EndPost(_, _) => EndPostLedger(Tell(before), e, id);
      case SweepPost(_) => SweepPostLedger(Tell(before), e, id);
      case _ => OtherLedger(Tell(before), e, id);
    }
  }

  // ---------------------------------------------------------------------------- main results

  /** At any moment: a second outcome is there only after a crash between the post and the dropping of
      the record, or once recovery took the record while `end` was still at work. */
  lemma AtMostOneOutcome(events: seq<ServerEvent>, id: CallId)
    ensures var t := Tell(events); id !in t.history.torn && id !in t.history.raced ==> Count(t.server.posts, id) <= 1
  {
    EveryRunLedger(events, id);
  }

  /** Crashes at any step included: a settled call that has to be told about has its outcome, unless a
      post itself failed. Other calls may run, end or be recovered meanwhile. */
  lemma AtLeastOneOutcome(events: seq<ServerEvent>, id: CallId)
    ensures var t := Tell(events); var h := t.history;
            Settled(t.server, id) && id in h.begun && Speaks(h.begun[id]) && id !in h.failed && id !in h.lost
            ==> Count(t.server.posts, id) >= 1
  {
    EveryRunLedger(events, id);
  }

  /** A channel whose "Started a meeting" post failed never hears of the call's end. */
  lemma SilentCallsStaySilent(events: seq<ServerEvent>, id: CallId)
    ensures var t := Tell(events);
            var h := t.history; id !in h.begun || !Speaks(h.begun[id]) ==> Count(t.server.posts, id) == 0
  {
    EveryRunSound(events);
    PostedIsOver(Tell(events).server, Tell(events).history, id);
  }

  /** The exact law: a settled call none of whose posts failed has no outcome if it was to have none, and
      otherwise exactly one, unless a crash fell between its post and the dropping of its record or
      recovery raced its end; and each of these two does give it a second. */
  lemma OutcomeLaw(events: seq<ServerEvent>, id: CallId)
    ensures var t := Tell(events); var h := t.history; var n := Count(t.server.posts, id);
            Settled(t.server, id) && id in h.begun && id !in h.failed && id !in h.lost ==>
            if h.begun[id].place.Channel? && h.begun[id].postId == None then n == 0
            else n >= 1 && (n >= 2 <==> id in h.torn || id in h.raced)
  {
    EveryRunLedger(events, id);
    SilentCallsStaySilent(events, id);
  }

  /** What every outcome ever given says of its call, exactly, and that none is given while the call runs.
      Of a 1:1 call in which nobody met, the process that ended it says whether it was declined, not
      answered, or cancelled; recovery says cancelled whatever happened. */
  lemma OutcomesSayWhatHappened(events: seq<ServerEvent>, p: Post)
    requires p in Tell(events).server.posts
    ensures p.call !in Tell(events).server.w.calls && p.call in Tell(events).history.begun
    ensures var h, r := Tell(events).history, Tell(events).history.begun[p.call];
            && (p.kind == MeetingEnded <==> r.place.Channel?) && (r.place.Channel? ==> r.postId.Some?)
            && (p.kind == Talked <==> r.place.Chat? && p.call in h.met)
            && (r.place.Chat? && !r.direct && p.call !in h.met ==> p.kind == MissedCall)
    ensures var h, r := Tell(events).history, Tell(events).history.begun[p.call];
            r.place.Chat? && r.direct && p.call !in h.met && !p.recovered ==>
              && (p.kind == DeclinedCall <==> p.call in h.declined)
              && (p.kind == MissedCall <==> p.call in h.unanswered)
              && (p.kind == CancelledCall <==> p.call !in h.declined && p.call !in h.unanswered)
    ensures var h, r := Tell(events).history, Tell(events).history.begun[p.call];
            r.place.Chat? && r.direct && p.call !in h.met && p.recovered ==> p.kind == CancelledCall
  {
    EveryRunSound(events);
    NotBoth(events, p.call);
  }

  /** A call ends once: it is not both declined and not answered. */
  lemma {:induction false} NotBoth(events: seq<ServerEvent>, id: CallId)
    ensures var h := Tell(events).history; id !in h.declined || id !in h.unanswered
    decreases |events|
  {
    if events != [] {
      var before := events[..|events| - 1];
      NotBoth(before, id);
      EveryRunSound(before);
      hide Valid, Step, DistinctUsers, ServerStep;
    }
  }

  /** So an outcome of a 1:1 call in which nobody met says why it ended, except exactly when recovery gives it
      for a call that was declined or not answered. */
  lemma SaysWhyIff(events: seq<ServerEvent>, p: Post)
    requires p in Tell(events).server.posts
    requires p.call in Tell(events).history.begun ==>
               Tell(events).history.begun[p.call].place.Chat? && Tell(events).history.begun[p.call].direct
    requires p.call !in Tell(events).history.met
    ensures var h := Tell(events).history;
            p.kind == (if p.call in h.declined then DeclinedCall else if p.call in h.unanswered then MissedCall
                       else CancelledCall) <==>
            !p.recovered || p.call !in h.declined + h.unanswered
  {
    OutcomesSayWhatHappened(events, p);
  }

  /** That comes about when a crash falls between the end of such a call and its post. */
  lemma RecoveryForgetsWhy(s: Server, id: CallId)
    requires Valid(s.w) && EndsUnposted(s, id) && s.w.ending[id].reason != OtherReason
    requires id in s.w.records && s.w.records[id].place.Chat? && s.w.records[id].direct
             && s.w.records[id].connectedAt == None
    ensures AfterSweepPost(AfterSweepTake(AfterSweepBegin(AfterCrash(s)), id), true).posts ==
              s.posts + [Post(id, CancelledCall, true)]
  {
    var begun := AfterSweepBegin(AfterCrash(s));
    assert id in begun.sweep.left && Takes(begun, id);
  }

  /** Recovery never ends a call that runs in this process. */
  lemma RecoverySparesRunningCalls(events: seq<ServerEvent>, ok: bool)
    ensures var s := Tell(events).server;
            Recovering(s) ==>
              s.sweep.took.value.id !in s.w.calls && AfterSweepPost(s, ok).w.calls == s.w.calls
              && AfterSweepDrop(s).w.calls == s.w.calls
  {
    EveryRunSound(events);
  }

  /** Recovery looks only at whether the call still runs, not at whether this process is just ending it.
      A record taken in that moment is posted by both, with no crash anywhere. */
  lemma RaceGivesTwo(s: Server, id: CallId)
    requires id in s.w.records && id !in s.w.calls && EndsUnposted(s, id) && s.sweep.Sweeping? && s.sweep.took == None
             && id in s.sweep.left
    requires Speaks(s.w.records[id]) && Speaks(s.w.ending[id].record)
    ensures Count(AfterSweepPost(AfterEndPost(AfterSweepTake(s, id), id, true), true).posts, id) == Count(s.posts, id)
              + 2
  {
    var r, e := s.w.records[id], s.w.ending[id];
    CountPosted(s.posts, id, id, e.record, e.reason, false);
    CountPosted(Posted(s.posts, id, e.record, e.reason, false), id, id, r, OtherReason, true);
  }

  const OPENING: Event := EvStart(1, Chat(0), false, 1, true, None, 0, 0)

  const JOINING: Event := EvJoin(Socket(0, 1), 0, 0)
  const LEAVING: Event := EvLeave(Socket(0, 1), 0)

  /** Such a moment comes soon after a fresh start: the only one in a group call leaves as recovery begins. */
  lemma RaceHappens()
    ensures Count(Tell([Handle(OPENING), Handle(JOINING), SweepBegin, Handle(LEAVING), SweepTake(0), EndPost(0, true),
                        SweepPost(true)]).server.posts, 0) == 2
  {
    hide Count, AfterSweepBegin, AfterSweepTake, AfterEndPost, AfterSweepPost, Tell;
    var s2 := ServerStep(ServerStep(BEGINNING.server, Handle(OPENING)), Handle(JOINING));
    var s4 := ServerStep(AfterSweepBegin(s2), Handle(LEAVING));
    TellSeven(Handle(OPENING), Handle(JOINING), SweepBegin, Handle(LEAVING), SweepTake(0), EndPost(0, true),
      SweepPost(true));
    RaceOpens();
    RaceGivesTwo(s4, 0);
  }

  lemma RaceOpens()
    ensures var s := ServerStep(AfterSweepBegin(ServerStep(ServerStep(BEGINNING.server, Handle(OPENING)),
            Handle(JOINING))),
                                Handle(LEAVING));
            && 0 in s.w.records && 0 !in s.w.calls && EndsUnposted(s, 0)
            && s.sweep.Sweeping? && s.sweep.took == None && 0 in s.sweep.left
            && Speaks(s.w.records[0]) && Speaks(s.w.ending[0].record) && Count(s.posts, 0) == 0
  {
    var w1 := Register(EMPTY, 1, Chat(0), false, None, 0, 0);
    assert CanStart(EMPTY, 1, Chat(0), false, 1, true);
    assert ServerStep(BEGINNING.server, Handle(OPENING)).w == w1;
    OneJoins(w1, Socket(0, 1));
    var w2 := Step(w1, JOINING);
    var begun := AfterSweepBegin(Server(w2, [], NotBegun));
    hide Join, Enter, CanJoin, Register;
    OneLeaves(w2, Socket(0, 1));
  }

  lemma OneJoins(w: World, s: Socket)
    requires 0 in w.calls && w.calls[0].members == {} && !w.calls[0].direct && s !in w.rooms && w.calls.Keys == {0}
    ensures var w' := Join(w, s, 0, 0);
            && 0 in w'.calls && w'.calls[0].members == {s} && RecordOf(w'.calls[0]) == RecordOf(w.calls[0])
            && w'.records == w.records && w'.ending == w.ending
  {
    assert CanJoin(w, s, 0);
    assert w.calls[0].members + {s} == {s};
    assert Users({s}) == {s.user};
    assert DistinctUsers({s}) == 1;
  }

  lemma OneLeaves(w: World, s: Socket)
    requires 0 in w.calls && w.calls[0].members == {s} && !w.calls[0].direct
    ensures var w' := Leave(w, s, 0);
            && 0 !in w'.calls && w'.records == w.records && 0 in w'.ending
            && w'.ending[0] == Ending(RecordOf(w.calls[0]), OtherReason, false)
  {
    assert w.calls[0].members - {s} == {};
  }

  lemma TellSeven(a: ServerEvent, b: ServerEvent, c: ServerEvent, d: ServerEvent, e: ServerEvent, f: ServerEvent,
                  g: ServerEvent)
    ensures Tell([a, b, c, d, e, f, g]).server ==
            ServerStep(ServerStep(ServerStep(ServerStep(ServerStep(ServerStep(ServerStep(BEGINNING.server, a), b), c),
              d), e), f), g)
  {
    hide ServerStep, Note;
    hide Tell;
    TellOne([], a);
    TellOne([a], b);
    TellOne([a, b], c);
    TellOne([a, b, c], d);
    TellOne([a, b, c, d], e);
    TellOne([a, b, c, d, e], f);
    TellOne([a, b, c, d, e, f], g);
    assert [] + [a] == [a] && [a] + [b] == [a, b] && [a, b] + [c] == [a, b, c] && [a, b, c] + [d] == [a, b, c, d];
    assert [a, b, c, d] + [e] == [a, b, c, d, e] && [a, b, c, d, e] + [f] == [a, b, c, d, e, f];
    assert [a, b, c, d, e, f] + [g] == [a, b, c, d, e, f, g];
    assert Tell([]).server == BEGINNING.server by { TellNothing(); }
  }

  lemma TellNothing()
    ensures Tell([]) == BEGINNING
  {
  }

  lemma TellOne(before: seq<ServerEvent>, e: ServerEvent)
    ensures Tell(before + [e]).server == ServerStep(Tell(before).server, e)
  {
    hide ServerStep, Note;
    assert (before + [e])[..|before|] == before;
  }
}
