/** The few seconds between a person's last connection closing and their being shown as offline:
    timers, a queue of work per person, and writes that may be slow. */
module PresenceGrace {
  import opened Common
  import opened Rooms

  type Instant = nat

  // One disconnect's pending transition, told apart by its number.
  datatype Transition = Transition(number: nat, lastSeen: Instant)

  datatype Work = Settle(ticket: nat) | GoOffline(transition: Transition)

  // What the module holds of one person, with the writes started and the reconnects resolved so far.
  datatype Person = Person(
    state: Option<Transition>, armed: set<Transition>, queue: seq<Work>,
    writing: bool,                  // the queue's head is a write in flight
    writes: seq<Instant>, resolved: set<nat>, next: nat)

  function Cancelled(p: Person): set<Transition> {
    if p.state.Some? then p.armed - {p.state.value} else p.armed
  }

  /** reconnect: the returned promise is the queued work numbered `p.next`. */
  function Reconnect(p: Person): Person {
    p.(armed := Cancelled(p), state := None, queue := p.queue + [Settle(p.next)], next := p.next + 1)
  }

  function Disconnect(p: Person, now: Instant): Person {
    var t := Transition(p.next, now);
    p.(armed := Cancelled(p) + {t}, state := Some(t), next := p.next + 1)
  }

  function TimerFires(p: Person, t: Transition): Person {
    if t in p.armed then p.(armed := p.armed - {t}, queue := p.queue + [GoOffline(t)]) else p
  }

  /** The queue's head starts once the work before it is settled. */
  function StartHead(p: Person, connected: bool): Person {
    if p.queue == [] || p.writing then p
    else match p.queue[0]
      case Settle(ticket) => p.(queue := p.queue[1..], resolved := p.resolved + {ticket})
      case GoOffline(t) =>
        if p.state == Some(t) && !connected then p.(writing := true, writes := p.writes + [t.lastSeen])
        else p.(queue := p.queue[1..])
  }

  /** The write in flight ends, well or not. */
  function WriteEnds(p: Person, ok: bool): Person {
    if !p.writing || p.queue == [] || !p.queue[0].GoOffline? then p
    else
      var done := ok && p.state == Some(p.queue[0].transition);
      p.(writing := false, queue := p.queue[1..], state := if done then None else p.state)
  }

  datatype Event =
    | EvReconnect
    | EvDisconnect(now: Instant)
    | EvTimer(t: Transition)
    | EvStart(connected: bool)
    | EvEnd(ok: bool)

  function Step(p: Person, e: Event): Person {
    match e
    case EvReconnect => Reconnect(p)
    case EvDisconnect(now) => Disconnect(p, now)
    case EvTimer(t) => TimerFires(p, t)
    case EvStart(connected) => StartHead(p, connected)
    case EvEnd(ok) => WriteEnds(p, ok)
  }

  function Run(p: Person, events: seq<Event>): Person
    decreases |events|
  {
    if events == [] then p else Step(Run(p, events[..|events| - 1]), events[|events| - 1])
  }

  function Number(w: Work): nat {
    match w case Settle(ticket) => ticket case GoOffline(t) => t.number
  }

  /** Only the current transition's timer runs; queued work is numbered once, and no number is reused. */
  ghost predicate Valid(p: Person) {
    && (forall t | t in p.armed :: p.state == Some(t) && GoOffline(t) !in p.queue)
    && (p.state.Some? ==> p.state.value.number < p.next && Settle(p.state.value.number) !in p.queue)
    && (forall w | w in p.queue :: Number(w) < p.next)
    && Distinct(p.queue)
    && (forall n: nat | n in p.resolved :: n < p.next && Settle(n) !in p.queue)
    && (p.writing ==> p.queue != [] && p.queue[0].GoOffline?)
  }

  predicate Distinct(queue: seq<Work>) {
    forall i, j | 0 <= i < j < |queue| :: queue[i] != queue[j]
  }

  lemma Rest(queue: seq<Work>)
    requires queue != [] && Distinct(queue)
    ensures Distinct(queue[1..]) && queue[0] !in queue[1..]
    ensures forall w | w in queue[1..] :: w in queue
    ensures forall w | w in queue && w != queue[0] :: w in queue[1..]
  {
    assert queue == [queue[0]] + queue[1..];
  }

  const NOBODY := Person(None, {}, [], false, [], {}, 0)

  lemma StepValid(p: Person, e: Event)
    requires Valid(p)
    ensures Valid(Step(p, e))
  {
    hide Distinct;
    match e
    case EvReconnect => Behind(p.queue, Settle(p.next), p.next);
    case EvDisconnect(now) =>
      Behind(p.queue, GoOffline(Transition(p.next, now)), p.next);
      Behind(p.queue, Settle(p.next), p.next);
    case EvTimer(t) => if t in p.armed { Behind(p.queue, GoOffline(t), p.next); }
    case _ => HeadValid(p, e);
  }

  lemma HeadValid(p: Person, e: Event)
    requires Valid(p) && (e.EvStart? || e.EvEnd?)
    ensures Valid(Step(p, e))
  {
    hide Distinct;
    if p.queue != [] {
      Rest(p.queue);
      assert p.queue[0] in p.queue;
      assert Number(p.queue[0]) < p.next;
    }
  }

  /** New work at the end of the queue. */
  lemma Behind(queue: seq<Work>, w: Work, next: nat)
    requires Distinct(queue) && forall x | x in queue :: Number(x) < next
    requires Number(w) == next || w !in queue
    ensures w !in queue
    ensures Distinct(queue + [w])
  {
  }

  lemma {:induction false} EveryRunValid(p: Person, events: seq<Event>)
    requires Valid(p)
    ensures Valid(Run(p, events))
    decreases |events|
  {
    if events != [] {
      EveryRunValid(p, events[..|events| - 1]);
      StepValid(Run(p, events[..|events| - 1]), events[|events| - 1]);
    }
  }

  // ---------------------------------------------------------------------------- after a reconnect

  /** However timers, queued work and slow writes interleave afterwards, no offline write starts from a
      reconnect until the next disconnect, and once the reconnect's promise resolves none is in flight. */
  lemma {:induction false} NoOfflineWriteAfterReconnect(p: Person, events: seq<Event>)
    requires Valid(p)
    requires forall e | e in events :: !e.EvDisconnect?
    ensures var p' := Run(Reconnect(p), events);
            && p'.state == None
            && p'.writes == p.writes
            && (p.next in p'.resolved ==> !p'.writing)
            && (p'.writing ==> p'.queue != [] && Settle(p.next) in p'.queue[1..])
    decreases |events|
  {
    StepValid(p, EvReconnect);
    if events == [] {
      if p.writing { assert Reconnect(p).queue[1..] == p.queue[1..] + [Settle(p.next)]; }
    } else {
      var before, e := events[..|events| - 1], events[|events| - 1];
      assert forall x | x in before :: x in events;
      assert e in events;
      NoOfflineWriteAfterReconnect(p, before);
      EveryRunValid(Reconnect(p), before);
      StaysOnline(Run(Reconnect(p), before), e, p.next);
    }
  }

  lemma StaysOnline(p: Person, e: Event, ticket: nat)
    requires Valid(p) && p.state == None && !e.EvDisconnect?
             && (p.writing ==> p.queue != [] && Settle(ticket) in p.queue[1..])
    ensures var p' := Step(p, e);
            p'.state == None && p'.writes == p.writes
            && (p'.writing ==> p'.queue != [] && Settle(ticket) in p'.queue[1..])
               && (ticket in p'.resolved ==> !p'.writing)
  {
    StepValid(p, e);
    var p' := Step(p, e);
    if p'.writing {
      assert p.writing;
      assert p'.queue[1..] == p.queue[1..] + p'.queue[|p.queue|..];
      assert Settle(ticket) in p'.queue;
    }
  }

  // ---------------------------------------------------------------------------- after a disconnect

  predicate Internal(e: Event) {
    e.EvTimer? || e.EvStart? || e.EvEnd?
  }

  /** Nothing left to happen for this person. */
  predicate Quiet(p: Person) {
    p.armed == {} && p.queue == []
  }

  function Left(p: Person): nat {
    3 * |p.armed| + 2 * |p.queue| + if p.writing then 0 else 1
  }

  /** Every timer, start and end that does something is one of finitely many left to happen... */
  lemma InternalStepsRunOut(p: Person, e: Event)
    requires Valid(p) && Internal(e)
    ensures Step(p, e) == p || Left(Step(p, e)) < Left(p)
  {
    hide Valid;
    match e
    case EvTimer(t) => if t in p.armed { assert |p.armed - {t}| == |p.armed| - 1; }
    case _ =>
  }

  /** ... and until nothing is left, one of them can happen. */
  lemma SomethingCanHappen(p: Person) returns (e: Event)
    requires Valid(p) && !Quiet(p)
    ensures Internal(e) && e != EvStart(true) && Step(p, e) != p
  {
    if p.armed != {} {
      var t :| t in p.armed;
      e := EvTimer(t);
      assert t !in Step(p, e).armed;
    } else if p.writing {
      e := EvEnd(true);
    } else {
      e := EvStart(false);
    }
  }

  /** Where the transition `t` stands, `before` being the writes from before its disconnect. */
  ghost predicate Underway(p: Person, t: Transition, before: seq<Instant>) {
    var queued := GoOffline(t) in p.queue;
    if p.writing && p.queue != [] && p.queue[0] == GoOffline(t) then p.writes == before + [t.lastSeen]
      && p.state == Some(t)
    else if t in p.armed || queued then p.writes == before && p.state == Some(t)
    else p.writes == before + [t.lastSeen] && (p.state == None || p.state == Some(t))
  }

  /** A disconnect not followed by another event leads to exactly one write, carrying its own time,
      whatever older work is still queued or in flight; and none before everything older is done. */
  lemma {:induction false} DisconnectWritesOnce(p: Person, now: Instant, events: seq<Event>)
    requires Valid(p)
    requires forall e | e in events :: Internal(e) && e != EvStart(true)
    ensures var p' := Run(Disconnect(p, now), events);
            && Underway(p', Transition(p.next, now), p.writes)
            && (Quiet(p') ==> p'.writes == p.writes + [now])
    decreases |events|
  {
    var t := Transition(p.next, now);
    StepValid(p, EvDisconnect(now));
    if events == [] {
      assert Number(GoOffline(t)) == p.next;
    } else {
      var before, e := events[..|events| - 1], events[|events| - 1];
      assert forall x | x in before :: x in events;
      assert e in events;
      DisconnectWritesOnce(p, now, before);
      EveryRunValid(Disconnect(p, now), before);
      UnderwayStep(Run(Disconnect(p, now), before), t, p.writes, e);
    }
  }

  lemma UnderwayStep(p: Person, t: Transition, before: seq<Instant>, e: Event)
    requires Valid(p) && Underway(p, t, before) && Internal(e) && e != EvStart(true)
    ensures Underway(Step(p, e), t, before)
  {
    StepValid(p, e);
    var p' := Step(p, e);
    if p.queue != [] { Rest(p.queue); }
  }

  /** An older transition that ends late, well or not, takes nothing away from a newer one. */
  lemma LateEndSparesNewer(p: Person, now: Instant, ok: bool)
    requires Valid(p) && p.writing
    ensures var p' := WriteEnds(Disconnect(p, now), ok);
            p'.state == Some(Transition(p.next, now)) && Transition(p.next, now) in p'.armed && p'.writes == p.writes
  {
    assert Number(p.queue[0]) < p.next by { assert p.queue[0] in p.queue; }
  }

  /** A write starts only while the person has no connection, for the disconnect that counts, once the work
      before it is done; it says when that disconnect was. */
  lemma WritesOnlyWhenGone(p: Person, e: Event)
    requires Step(p, e).writes != p.writes
    ensures e == EvStart(false) && !p.writing && p.queue != [] && p.state.Some?
            && p.queue[0] == GoOffline(p.state.value)
    ensures Step(p, e).writing && Step(p, e).writes == p.writes + [p.state.value.lastSeen]
  {
  }

  /** A disconnect is over once its write ended well; one that ended badly stays, for the next to replace. */
  lemma EndLaw(p: Person, ok: bool)
    requires Valid(p) && p.writing
    ensures var p' := Step(p, EvEnd(ok));
            && !p'.writing && p'.queue == p.queue[1..] && p'.armed == p.armed && p'.writes == p.writes
            && p'.state == (if ok && p.state.Some? && p.queue[0] == GoOffline(p.state.value) then None else p.state)
  {
  }

  /** A reconnect's promise is queued until it resolves, whatever happens, so it resolves once nothing is
      left to do. */
  lemma {:induction false} ReconnectResolves(p: Person, events: seq<Event>)
    requires Valid(p)
    ensures var p' := Run(Reconnect(p), events);
            && (p.next in p'.resolved || Settle(p.next) in p'.queue)
            && (Quiet(p') ==> p.next in p'.resolved)
    decreases |events|
  {
    StepValid(p, EvReconnect);
    if events != [] {
      var before, e := events[..|events| - 1], events[|events| - 1];
      ReconnectResolves(p, before);
      EveryRunValid(Reconnect(p), before);
      var mid := Run(Reconnect(p), before);
      if mid.queue != [] { Rest(mid.queue); }
    }
  }

  // ---------------------------------------------------------------------------- the module's own state

  class Grace {
    var states: map<UserId, Transition>
    var queues: map<UserId, seq<Work>>       // nobody with nothing queued
    var timers: map<UserId, set<Transition>>
    var writing: set<UserId>
    var writes: map<UserId, seq<Instant>>
    var resolved: map<UserId, set<nat>>
    var next: map<UserId, nat>

    /** What the maps say of one person. */
    function Of(id: UserId): Person
      reads this
    {
      Person(if id in states then Some(states[id]) else None, if id in timers then timers[id] else {},
             if id in queues then queues[id] else [], id in writing, if id in writes then writes[id] else [],
             if id in resolved then resolved[id] else {}, if id in next then next[id] else 0)
    }

    ghost predicate Tidy()
      reads this
    {
      forall id | id in queues :: queues[id] != []
    }

    constructor ()
      ensures Tidy() && forall id :: Of(id) == NOBODY
    {
      states, queues, timers, writing, writes, resolved, next := map[], map[], map[], {}, map[], map[], map[];
    }

    method Enqueue(id: UserId, work: Work)
      requires Tidy()
      modifies this`queues
      ensures Tidy() && Of(id) == old(Of(id)).(queue := old(Of(id)).queue + [work])
      ensures forall other: UserId | other != id :: Of(other) == old(Of(other))
    {
      if id in queues {
        queues := queues[id := queues[id] + [work]];
      } else {
        queues := queues[id := [work]];
      }
    }

    method Dequeue(id: UserId)
      requires Tidy() && id in queues
      modifies this`queues
      ensures Tidy() && Of(id) == old(Of(id)).(queue := old(Of(id)).queue[1..])
      ensures forall other: UserId | other != id :: Of(other) == old(Of(other))
    {
      if |queues[id]| == 1 {
        queues := queues - {id};
      } else {
        queues := queues[id := queues[id][1..]];
      }
    }

    method CancelTimer(id: UserId)
      modifies this`timers
      ensures Of(id) == old(Of(id)).(armed := Cancelled(old(Of(id))))
      ensures forall other: UserId | other != id :: Of(other) == old(Of(other))
    {
      if id in states && id in timers { timers := timers[id := timers[id] - {states[id]}]; }
    }

    method OnReconnect(id: UserId) returns (ticket: nat)
      requires Tidy()
      modifies this
      ensures Tidy() && Of(id) == Reconnect(old(Of(id))) && ticket == old(Of(id)).next
      ensures forall other: UserId | other != id :: Of(other) == old(Of(other))
    {
      CancelTimer(id);
      states := states - {id};
      ticket := if id in next then next[id] else 0;
      next := next[id := ticket + 1];
      Enqueue(id, Settle(ticket));
    }

    method OnDisconnect(id: UserId, now: Instant)
      requires Tidy()
      modifies this
      ensures Tidy() && Of(id) == Disconnect(old(Of(id)), now)
      ensures forall other: UserId | other != id :: Of(other) == old(Of(other))
    {
      CancelTimer(id);
      var state := Transition(if id in next then next[id] else 0, now);
      next := next[id := state.number + 1];
      states := states[id := state];
      timers := timers[id := (if id in timers then timers[id] else {}) + {state}];
    }

    method OnTimer(id: UserId, t: Transition)
      requires Tidy()
      modifies this
      ensures Tidy() && Of(id) == TimerFires(old(Of(id)), t)
      ensures forall other: UserId | other != id :: Of(other) == old(Of(other))
    {
      if id in timers && t in timers[id] {
        timers := timers[id := timers[id] - {t}];
        Enqueue(id, GoOffline(t));
      }
    }

    method OnStart(id: UserId, connected: bool)
      requires Tidy()
      modifies this
      ensures Tidy() && Of(id) == StartHead(old(Of(id)), connected)
      ensures forall other: UserId | other != id :: Of(other) == old(Of(other))
    {
      if id !in queues || id in writing { return; }
      match queues[id][0]
      case Settle(ticket) =>
        resolved := resolved[id := (if id in resolved then resolved[id] else {}) + {ticket}];
        Dequeue(id);
      case GoOffline(t) =>
        if id in states && states[id] == t && !connected {
          writing := writing + {id};
          writes := writes[id := (if id in writes then writes[id] else []) + [t.lastSeen]];
        } else {
          Dequeue(id);
        }
    }

    method OnEnd(id: UserId, ok: bool)
      requires Tidy()
      modifies this
      ensures Tidy() && Of(id) == WriteEnds(old(Of(id)), ok)
      ensures forall other: UserId | other != id :: Of(other) == old(Of(other))
    {
      if id !in writing || id !in queues || !queues[id][0].GoOffline? { return; }
      var t := queues[id][0].transition;
      writing := writing - {id};
      if ok && id in states && states[id] == t { states := states - {id}; }
      Dequeue(id);
    }
  }
}
