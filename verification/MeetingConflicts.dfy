/** Which meetings already fill the time of one being planned, for each person invited. */
module MeetingConflicts {
  import opened Common
  import opened Sorting

  type PersonId = nat
  type MeetingId = nat
  type Instant = nat      // the database's UTC text, which compares as the moments do

  datatype Occurrence = Occurrence(start: Instant, end: Instant)

  // A meeting_attendees row with its meeting.
  datatype Attendance = Attendance(user: PersonId, meeting: MeetingId, title: string, start: Instant, end: Instant,
    allDay: bool, declined: bool, busy: bool)

  datatype Person = Person(id: PersonId, name: string)

  datatype Item = Item(occurrence: Instant, meeting: MeetingId, start: Instant, end: Instant, allDay: bool,
    title: Option<string>)

  datatype Group = Group(user: PersonId, name: string, isMe: bool, affected: nat, items: seq<Item>)

  predicate Overlaps(aStart: Instant, aEnd: Instant, bStart: Instant, bEnd: Instant) {
    aStart < bEnd && bStart < aEnd
  }

  predicate Hits(o: Occurrence, b: Attendance) {
    Overlaps(o.start, o.end, b.start, b.end)
  }

  function ItemOf(o: Occurrence, b: Attendance, mine: set<MeetingId>): Item {
    Item(o.start, b.meeting, b.start, b.end, b.allDay, if b.meeting in mine then Some(b.title) else None)
  }

  // ---------------------------------------------------------------------------- one person's items

  predicate SameOverlap(x: Item, y: Item) {
    x.meeting == y.meeting && x.occurrence == y.occurrence
  }

  ghost predicate NoneTwice(items: seq<Item>) {
    && (forall x, y | x in items && y in items && SameOverlap(x, y) :: x == y)
    && (forall x | x in items :: multiset(items)[x] == 1)
  }

  /** Every item is an overlap of this person's. */
  ghost predicate AllReal(items: seq<Item>, occurrences: seq<Occurrence>, busy: seq<Attendance>, user: PersonId,
                          mine: set<MeetingId>) {
    forall x | x in items :: IsReal(x, occurrences, busy, user, mine)
  }

  ghost predicate IsReal(x: Item, occurrences: seq<Occurrence>, busy: seq<Attendance>, user: PersonId,
                         mine: set<MeetingId>) {
    exists o, b :: o in occurrences && b in busy && b.user == user && Hits(o, b) && x == ItemOf(o, b, mine)
  }

  predicate Reports(items: seq<Item>, o: Occurrence, b: Attendance) {
    exists x :: x in items && x.meeting == b.meeting && x.occurrence == o.start
  }

  // ---------------------------------------------------------------------------- grouping

  function ListOf(byPerson: map<PersonId, seq<Item>>, user: PersonId): seq<Item> {
    if user in byPerson then byPerson[user] else []
  }

  ghost predicate ListsRight(byPerson: map<PersonId, seq<Item>>, occurrences: seq<Occurrence>, busy: seq<Attendance>,
                             mine: set<MeetingId>) {
    forall u: PersonId :: NoneTwice(ListOf(byPerson, u)) && AllReal(ListOf(byPerson, u), occurrences, busy, u, mine)
  }

  ghost predicate Covered(byPerson: map<PersonId, seq<Item>>, o: Occurrence, b: Attendance) {
    Hits(o, b) ==> Reports(ListOf(byPerson, b.user), o, b)
  }

  /** The nested loops of groupConflicts. */
  method Collect(occurrences: seq<Occurrence>, busy: seq<Attendance>,
                 mine: set<MeetingId>) returns (byPerson: map<PersonId, seq<Item>>)
    ensures ListsRight(byPerson, occurrences, busy, mine)
    ensures forall o, b | o in occurrences && b in busy :: Covered(byPerson, o, b)
  {
    byPerson := map[];
    for i := 0 to |occurrences|
      invariant ListsRight(byPerson, occurrences, busy, mine)
      invariant forall a, b | 0 <= a < i && b in busy :: Covered(byPerson, occurrences[a], b)
    {
      for j := 0 to |busy|
        invariant ListsRight(byPerson, occurrences, busy, mine)
        invariant forall a, b | 0 <= a < i && b in busy :: Covered(byPerson, occurrences[a], b)
        invariant forall k | 0 <= k < j :: Covered(byPerson, occurrences[i], busy[k])
      {
        var before := byPerson;
        byPerson := Add(byPerson, occurrences[i], busy[j], mine);
        AddRight(before, occurrences, busy, mine, occurrences[i], busy[j]);
        AddCovers(before, occurrences[i], busy[j], mine);
      }
    }
  }

  /** One turn of the inner loop. */
  function Add(byPerson: map<PersonId, seq<Item>>, o: Occurrence, b: Attendance,
               mine: set<MeetingId>): map<PersonId, seq<Item>> {
    if !Hits(o, b) || Reports(ListOf(byPerson, b.user), o, b) then byPerson
    else byPerson[b.user := ListOf(byPerson, b.user) + [ItemOf(o, b, mine)]]
  }

  lemma AddRight(byPerson: map<PersonId, seq<Item>>, occurrences: seq<Occurrence>, busy: seq<Attendance>,
                 mine: set<MeetingId>, o: Occurrence, b: Attendance)
    requires ListsRight(byPerson, occurrences, busy, mine) && o in occurrences && b in busy
    ensures ListsRight(Add(byPerson, o, b, mine), occurrences, busy, mine)
  {
    var after := Add(byPerson, o, b, mine);
    forall u: PersonId ensures NoneTwice(ListOf(after, u)) && AllReal(ListOf(after, u), occurrences, busy, u, mine) {
      assert NoneTwice(ListOf(byPerson, u)) && AllReal(ListOf(byPerson, u), occurrences, busy, u, mine);
      if u == b.user && after != byPerson {
        var list, x := ListOf(byPerson, u), ItemOf(o, b, mine);
        assert forall y | y in list :: !SameOverlap(y, x);
        assert IsReal(x, occurrences, busy, u, mine);
      }
    }
  }

  lemma AddCovers(byPerson: map<PersonId, seq<Item>>, o: Occurrence, b: Attendance, mine: set<MeetingId>)
    ensures Covered(Add(byPerson, o, b, mine), o, b)
    ensures forall p, c :: Covered(byPerson, p, c) ==> Covered(Add(byPerson, o, b, mine), p, c)
  {
    var after := Add(byPerson, o, b, mine);
    if after != byPerson {
      var x := ItemOf(o, b, mine);
      assert x in ListOf(after, b.user);
      forall p, c | Covered(byPerson, p, c) ensures Covered(after, p, c) {
        if Hits(p, c) {
          var y :| y in ListOf(byPerson, c.user) && y.meeting == c.meeting && y.occurrence == p.start;
          assert y in ListOf(after, c.user);
        }
      }
    }
  }

  // ---------------------------------------------------------------------------- in order

  function Starts(items: seq<Item>): set<Instant> {
    set x | x in items :: x.occurrence
  }

  const EARLIER: (Item, Item) -> bool := (x: Item, y: Item) => x.start <= y.start

  /** The viewer first, then by name as `collation` ranks names. */
  function Placing(collation: string -> nat): (Group, Group) -> bool {
    (g: Group, h: Group) => if g.isMe != h.isMe then g.isMe else collation(g.name) <= collation(h.name)
  }

  ghost predicate GroupRight(g: Group, occurrences: seq<Occurrence>, busy: seq<Attendance>, people: seq<Person>,
                             viewer: PersonId, mine: set<MeetingId>) {
    && Person(g.user, g.name) in people && g.isMe == (g.user == viewer)
    && g.items != [] && Ordered(g.items, EARLIER) && NoneTwice(g.items)
       && AllReal(g.items, occurrences, busy, g.user, mine)
    && g.affected == |Starts(g.items)|
  }

  ghost predicate Told(out: seq<Group>, o: Occurrence, b: Attendance) {
    exists g :: g in out && g.user == b.user && Reports(g.items, o, b)
  }

  ghost predicate OncePerPerson(out: seq<Group>) {
    && (forall g, h | g in out && h in out && g.user == h.user :: g == h)
    && (forall g | g in out :: multiset(out)[g] == 1)
  }

  predicate DistinctPeople(people: seq<Person>) {
    forall i, j | 0 <= i < j < |people| :: people[i].id != people[j].id
  }

  method GroupConflicts(occurrences: seq<Occurrence>, busy: seq<Attendance>, people: seq<Person>, viewer: PersonId,
                        mine: set<MeetingId>, collation: string -> nat)
    returns (out: seq<Group>)
    requires DistinctPeople(people)
    ensures forall g | g in out :: GroupRight(g, occurrences, busy, people, viewer, mine)
    ensures forall o, b, p | o in occurrences && b in busy && Hits(o, b) && p in people && p.id == b.user ::
              Told(out, o, b)
    ensures OncePerPerson(out) && Ordered(out, Placing(collation))
  {
    hide OncePerPerson, GroupRight, ListsRight, Covered, Told;
    var byPerson := Collect(occurrences, busy, mine);
    var found := [];
    assert OncePerPerson(found) by { NobodyTwice(); }
    for k := 0 to |people|
      invariant forall g | g in found :: GroupRight(g, occurrences, busy, people, viewer, mine)
      invariant forall g | g in found :: exists i :: 0 <= i < k && people[i].id == g.user
      invariant OncePerPerson(found)
      invariant forall i | 0 <= i < k :: AllTold(found, occurrences, busy, people[i].id)
    {
      var p := people[k];
      var items := ListOf(byPerson, p.id);
      if items != [] {
        var g := MakeGroup(p, items, occurrences, busy, people, viewer, mine, byPerson);
        Grow(found, g);
        GrowTold(found, g, occurrences, busy);
        GroupTells(found, g, byPerson, occurrences, busy);
        found := found + [g];
      } else {
        NothingToTell(found, p.id, byPerson, occurrences, busy);
      }
    }
    out := Sort(found, Placing(collation));
    SameGroups(found, out);
    forall o, b, p | o in occurrences && b in busy && Hits(o, b) && p in people && p.id == b.user
      ensures Told(out, o, b) {
      assert AllTold(found, occurrences, busy, p.id);
    }
  }

  lemma NobodyTwice()
    ensures OncePerPerson([])
  {
  }

  ghost predicate AllTold(out: seq<Group>, occurrences: seq<Occurrence>, busy: seq<Attendance>, user: PersonId) {
    forall o, b | o in occurrences && b in busy && Hits(o, b) && b.user == user :: Told(out, o, b)
  }

  method MakeGroup(p: Person, items: seq<Item>, occurrences: seq<Occurrence>, busy: seq<Attendance>,
                   people: seq<Person>, viewer: PersonId,
                   mine: set<MeetingId>, ghost byPerson: map<PersonId, seq<Item>>) returns (g: Group)
    requires p in people && items == ListOf(byPerson, p.id) != [] && ListsRight(byPerson, occurrences, busy, mine)
    ensures GroupRight(g, occurrences, busy, people, viewer, mine)
    ensures g.user == p.id && multiset(g.items) == multiset(items)
  {
    assert NoneTwice(items) && AllReal(items, occurrences, busy, p.id, mine);
    var sorted := Sort(items, EARLIER);
    SameItems(items, sorted);
    g := Group(p.id, p.name, p.id == viewer, |Starts(sorted)|, sorted);
  }

  lemma Grow(found: seq<Group>, g: Group)
    requires OncePerPerson(found) && forall h | h in found :: h.user != g.user
    ensures OncePerPerson(found + [g])
  {
  }

  lemma GrowTold(found: seq<Group>, g: Group, occurrences: seq<Occurrence>, busy: seq<Attendance>)
    ensures forall u: PersonId :: AllTold(found, occurrences, busy, u) ==> AllTold(found + [g], occurrences, busy, u)
  {
    hide Reports;
    forall o, b | Told(found, o, b) ensures Told(found + [g], o, b) {
      var h :| h in found && h.user == b.user && Reports(h.items, o, b);
      assert h in found + [g];
    }
  }

  lemma GroupTells(found: seq<Group>, g: Group, byPerson: map<PersonId, seq<Item>>, occurrences: seq<Occurrence>,
                   busy: seq<Attendance>)
    requires multiset(g.items) == multiset(ListOf(byPerson, g.user))
    requires forall o, b | o in occurrences && b in busy :: Covered(byPerson, o, b)
    ensures AllTold(found + [g], occurrences, busy, g.user)
  {
    SameItems(ListOf(byPerson, g.user), g.items);
    forall o, b | o in occurrences && b in busy && Hits(o, b) && b.user == g.user ensures Told(found + [g], o, b) {
      assert Covered(byPerson, o, b);
      assert Reports(g.items, o, b);
      assert g in found + [g];
    }
  }

  lemma NothingToTell(found: seq<Group>, user: PersonId, byPerson: map<PersonId, seq<Item>>,
                      occurrences: seq<Occurrence>, busy: seq<Attendance>)
    requires ListOf(byPerson, user) == []
    requires forall o, b | o in occurrences && b in busy :: Covered(byPerson, o, b)
    ensures AllTold(found, occurrences, busy, user)
  {
    forall o, b | o in occurrences && b in busy && Hits(o, b) ensures b.user != user { assert Covered(byPerson, o, b); }
  }

  lemma SameItems(items: seq<Item>, sorted: seq<Item>)
    requires multiset(items) == multiset(sorted)
    ensures forall x :: x in items <==> x in sorted
    ensures NoneTwice(items) ==> NoneTwice(sorted)
    ensures items != [] ==> sorted != []
  {
    assert forall x :: x in items <==> x in multiset(items);
    assert forall x :: x in sorted <==> x in multiset(sorted);
    if items != [] { assert items[0] in sorted; }
  }

  lemma SameGroups(found: seq<Group>, out: seq<Group>)
    requires multiset(found) == multiset(out)
    ensures forall g :: g in found <==> g in out
    ensures OncePerPerson(found) ==> OncePerPerson(out)
    ensures forall o, b :: Told(found, o, b) <==> Told(out, o, b)
  {
    assert forall g :: g in found <==> g in multiset(found);
    assert forall g :: g in out <==> g in multiset(out);
  }

  // ---------------------------------------------------------------------------- finding them

  /** The meetings anyone is invited to, whatever they answered. */
  function InvitedTo(table: seq<Attendance>, user: PersonId): set<MeetingId> {
    set b | b in table && b.user == user :: b.meeting
  }

  predicate Fills(b: Attendance, users: set<PersonId>, exclude: Option<MeetingId>, from: Instant, to: Instant) {
    b.user in users && !b.declined && b.busy && b.start < to && b.end > from && Some(b.meeting) != exclude
  }

  /** The rows of the query before its LIMIT, in table order. */
  function Filling(table: seq<Attendance>, users: set<PersonId>, exclude: Option<MeetingId>, from: Instant,
                   to: Instant): seq<Attendance> {
    if table == [] then []
    else
      var rest := Filling(table[..|table| - 1], users, exclude, from, to);
      var b := table[|table| - 1];
      if Fills(b, users, exclude, from, to) then rest + [b] else rest
  }

  lemma {:induction false} FillingIs(table: seq<Attendance>, users: set<PersonId>, exclude: Option<MeetingId>,
                                     from: Instant, to: Instant)
    ensures forall b ::
              b in Filling(table, users, exclude, from, to) <==> b in table && Fills(b, users, exclude, from, to)
  {
    if table != [] {
      FillingIs(table[..|table| - 1], users, exclude, from, to);
      assert table == table[..|table| - 1] + [table[|table| - 1]];
    }
  }

  /** The earliest start and the latest end of the occurrences: the window the query asks about. */
  function FirstStart(occurrences: seq<Occurrence>): (r: Instant)
    requires occurrences != []
    ensures forall o | o in occurrences :: r <= o.start
    ensures exists o :: o in occurrences && o.start == r
  {
    var last := occurrences[|occurrences| - 1];
    if |occurrences| == 1 then last.start
    else
      var r := FirstStart(occurrences[..|occurrences| - 1]);
      assert occurrences == occurrences[..|occurrences| - 1] + [last];
      if last.start < r then last.start else r
  }

  function LastEnd(occurrences: seq<Occurrence>): (r: Instant)
    requires occurrences != []
    ensures forall o | o in occurrences :: o.end <= r
    ensures exists o :: o in occurrences && o.end == r
  {
    var last := occurrences[|occurrences| - 1];
    if |occurrences| == 1 then last.end
    else
      var r := LastEnd(occurrences[..|occurrences| - 1]);
      assert occurrences == occurrences[..|occurrences| - 1] + [last];
      if last.end > r then last.end else r
  }

  method Window(occurrences: seq<Occurrence>) returns (from: Instant, to: Instant)
    requires occurrences != []
    ensures from == FirstStart(occurrences) && to == LastEnd(occurrences)
  {
    from, to := occurrences[0].start, occurrences[0].end;
    for i := 1 to |occurrences|
      invariant from == FirstStart(occurrences[..i]) && to == LastEnd(occurrences[..i])
    {
      assert occurrences[..i + 1][..i] == occurrences[..i];
      if occurrences[i].start < from { from := occurrences[i].start; }
      if occurrences[i].end > to { to := occurrences[i].end; }
    }
    assert occurrences[..|occurrences|] == occurrences;
  }

  const SOONER: (Attendance, Attendance) -> bool := (a: Attendance, b: Attendance) => a.start <= b.start

  const LIMIT := 2000

  /** ... ORDER BY start_at LIMIT 2000: what is cut off starts no sooner than what is kept. */
  method Query(table: seq<Attendance>, users: set<PersonId>, exclude: Option<MeetingId>, from: Instant,
               to: Instant) returns (busy: seq<Attendance>)
    ensures forall b | b in busy :: b in table && Fills(b, users, exclude, from, to)
    ensures |Filling(table, users, exclude, from, to)| <= LIMIT ==>
              multiset(busy) == multiset(Filling(table, users, exclude, from, to))
    ensures |busy| == if |Filling(table, users, exclude, from, to)| <= LIMIT then |Filling(table, users, exclude, from,
            to)| else LIMIT
    ensures forall b, c | b in busy && c in table && Fills(c, users, exclude, from, to) && c !in busy ::
              b.start <= c.start
  {
    var found := [];
    for i := 0 to |table|
      invariant found == Filling(table[..i], users, exclude, from, to)
    {
      assert table[..i + 1][..i] == table[..i];
      if Fills(table[i], users, exclude, from, to) { found := found + [table[i]]; }
    }
    assert table[..|table|] == table;
    FillingIs(table, users, exclude, from, to);
    var sorted := Sort(found, SOONER);
    assert forall b | b in sorted :: b in multiset(sorted);
    assert |multiset(sorted)| == |multiset(found)|;
    busy := if |sorted| <= LIMIT then sorted else sorted[..LIMIT];
    forall b, c | b in busy && c in table && Fills(c, users, exclude, from, to) && c !in busy
      ensures b.start <= c.start {
      assert c in multiset(found);
      var i :| 0 <= i < |busy| && busy[i] == b;
      var j :| 0 <= j < |sorted| && sorted[j] == c;
      assert i < j && SOONER(sorted[i], sorted[j]);
    }
  }

  method PeopleOf(users: seq<Person>, ids: set<PersonId>) returns (people: seq<Person>)
    requires DistinctPeople(users)
    ensures DistinctPeople(people)
    ensures forall p :: p in people <==> p in users && p.id in ids
  {
    people := [];
    for i := 0 to |users|
      invariant DistinctPeople(people)
      invariant forall p :: p in people <==> p in users[..i] && p.id in ids
    {
      if users[i].id in ids {
        assert forall k | 0 <= k < |people| :: people[k] in people && people[k] in users[..i];
        people := people + [users[i]];
      }
    }
    assert users[..|users|] == users;
  }

  ghost predicate Invited(table: seq<Attendance>, user: PersonId, meeting: MeetingId) {
    exists c :: c in table && c.user == user && c.meeting == meeting
  }

  /** This occurrence and this row of a person asked about share time, in a meeting that fills theirs. */
  ghost predicate Clash(o: Occurrence, b: Attendance, users: set<PersonId>, exclude: Option<MeetingId>) {
    b.user in users && !b.declined && b.busy && exclude != Some(b.meeting) && o.start < b.end && b.start < o.end
  }

  /** For times that last, exactly when there is an instant in both; the end is not part of either. */
  lemma ClashIff(o: Occurrence, b: Attendance, users: set<PersonId>, exclude: Option<MeetingId>)
    requires o.start < o.end && b.start < b.end
    requires b.user in users && !b.declined && b.busy && exclude != Some(b.meeting)
    ensures Clash(o, b, users, exclude) <==> exists t: nat :: Within(t, o.start, o.end) && Within(t, b.start, b.end)
  {
    if Clash(o, b, users, exclude) {
      var t: nat := if o.start < b.start then b.start else o.start;
      assert Within(t, o.start, o.end) && Within(t, b.start, b.end);
    }
  }

  predicate Within(t: Instant, from: Instant, to: Instant) {
    from <= t < to
  }

  /** A conflict reported, of a person asked about; its title is given exactly when the viewer is invited to
      it too. */
  ghost predicate IsConflict(x: Item, occurrences: seq<Occurrence>, table: seq<Attendance>, users: set<PersonId>,
                             exclude: Option<MeetingId>, viewer: PersonId, user: PersonId) {
    exists o, b ::
      o in occurrences && b in table && b.user == user && Clash(o, b, users, exclude)
      && x == Item(o.start, b.meeting, b.start, b.end, b.allDay,
                   if Invited(table, viewer, b.meeting) then Some(b.title) else None)
  }

  lemma ItemIs(o: Occurrence, b: Attendance, table: seq<Attendance>, viewer: PersonId)
    ensures ItemOf(o, b, InvitedTo(table, viewer)) ==
            Item(o.start, b.meeting, b.start, b.end, b.allDay,
                 if Invited(table, viewer, b.meeting) then Some(b.title) else None)
  {
    if Invited(table, viewer, b.meeting) {
      var c :| c in table && c.user == viewer && c.meeting == b.meeting;
      assert c.meeting in InvitedTo(table, viewer);
    }
  }

  /** The viewer first, then by name; each person's meetings by their start. */
  predicate InOrder(out: seq<Group>, viewer: PersonId, collation: string -> nat) {
    && (forall i, j | 0 <= i < j < |out| ::
          (out[j].user == viewer ==> out[i].user == viewer)
          && (out[i].user != viewer && out[j].user != viewer ==> collation(out[i].name) <= collation(out[j].name)))
    && (forall g, i, j | g in out && 0 <= i < j < |g.items| :: g.items[i].start <= g.items[j].start)
  }

  lemma OrderedIsInOrder(out: seq<Group>, viewer: PersonId, collation: string -> nat)
    requires Ordered(out, Placing(collation))
    requires forall g | g in out :: Ordered(g.items, EARLIER) && g.isMe == (g.user == viewer)
    ensures InOrder(out, viewer, collation)
  {
    forall i, j | 0 <= i < j < |out|
      ensures (out[j].user == viewer ==> out[i].user == viewer)
        && (out[i].user != viewer && out[j].user != viewer ==> collation(out[i].name) <= collation(out[j].name)) {
      assert out[i] in out && out[j] in out && Placing(collation)(out[i], out[j]);
    }
    forall g, i, j | g in out && 0 <= i < j < |g.items| ensures g.items[i].start <= g.items[j].start {
      assert EARLIER(g.items[i], g.items[j]);
    }
  }

  // The window the query asks about holds no more rows than its LIMIT.
  predicate FitsLimit(table: seq<Attendance>, ids: set<PersonId>, exclude: Option<MeetingId>,
                      occurrences: seq<Occurrence>)
    requires occurrences != []
  {
    |Filling(table, ids, exclude, FirstStart(occurrences), LastEnd(occurrences))| <= 2000
  }

  /** Everything reported is a conflict; and unless more than 2000 rows fill the window from the first
      start to the last end, every conflict is reported: the window leaves none out. */
  method FindConflicts(table: seq<Attendance>, users: seq<Person>, occurrences: seq<Occurrence>, ids: set<PersonId>,
                       viewer: PersonId, exclude: Option<MeetingId>, collation: string -> nat)
    returns (out: seq<Group>)
    requires DistinctPeople(users)
    ensures Answer(out, occurrences, table, ids, exclude, viewer)
    ensures occurrences != [] && FitsLimit(table, ids, exclude, occurrences) ==>
      forall o, b, p | o in occurrences && b in table && Clash(o, b, ids, exclude) && p in users
        && p.id == b.user :: Told(out, o, b)
    ensures InOrder(out, viewer, collation)
    ensures forall g | g in out ::
              g.isMe == (g.user == viewer) && Person(g.user, g.name) in users && g.items != []
                && g.affected == |set x | x in g.items :: x.occurrence|
  {
    hide GroupRight, IsConflict, Told, NoneTwice, OncePerPerson, Ordered, InOrder, Clash, Hits, Filling, Fills;
    out := [];
    NobodyTwice();
    assert InOrder(out, viewer, collation) by { OrderedIsInOrder(out, viewer, collation); }
    if occurrences == [] || ids == {} {
      NoClash(occurrences, ids, exclude);
      return;
    }
    var from, to := Window(occurrences);
    var busy := Query(table, ids, exclude, from, to);
    FillingIs(table, ids, exclude, from, to);
    if |Filling(table, ids, exclude, from, to)| <= LIMIT { SameRows(Filling(table, ids, exclude, from, to), busy); }
    var mine := InvitedTo(table, viewer);
    var people := PeopleOf(users, ids);
    out := GroupConflicts(occurrences, busy, people, viewer, mine, collation);
    GroupsReport(out, occurrences, busy, table, people, ids, exclude, viewer, from, to);
    OrderedIsInOrder(out, viewer, collation);
    forall o, b, p | o in occurrences && b in table && Clash(o, b, ids, exclude) && p in users && p.id == b.user
      && FitsLimit(table, ids, exclude, occurrences)
      ensures Told(out, o, b) {
      ClashFills(o, b, occurrences, ids, exclude);
      assert p in people && b in busy;
    }
  }

  lemma NoClash(occurrences: seq<Occurrence>, ids: set<PersonId>, exclude: Option<MeetingId>)
    requires occurrences == [] || ids == {}
    ensures forall o, b | o in occurrences :: !Clash(o, b, ids, exclude)
  {
  }

  /** An overlap lies in the window. */
  lemma ClashFills(o: Occurrence, b: Attendance, occurrences: seq<Occurrence>, ids: set<PersonId>,
                   exclude: Option<MeetingId>)
    requires o in occurrences && Clash(o, b, ids, exclude)
    ensures Hits(o, b) && Fills(b, ids, exclude, FirstStart(occurrences), LastEnd(occurrences)) && b.user in ids
  {
  }

  lemma GroupsReport(out: seq<Group>, occurrences: seq<Occurrence>, busy: seq<Attendance>, table: seq<Attendance>,
                     people: seq<Person>, ids: set<PersonId>, exclude: Option<MeetingId>, viewer: PersonId,
                     from: Instant, to: Instant)
    requires forall g | g in out :: GroupRight(g, occurrences, busy, people, viewer, InvitedTo(table, viewer))
    requires forall b | b in busy :: b in table && Fills(b, ids, exclude, from, to)
    ensures forall g, x | g in out && x in g.items ::
              IsConflict(x, occurrences, table, ids, exclude, viewer, g.user)
    ensures forall g | g in out ::
              NoneTwice(g.items) && Ordered(g.items, EARLIER) && g.isMe == (g.user == viewer)
                && Person(g.user, g.name) in people && g.items != []
                && g.affected == |set x | x in g.items :: x.occurrence|
  {
    hide NoneTwice, Ordered;
    forall g, x | g in out && x in g.items ensures IsConflict(x, occurrences, table, ids, exclude, viewer, g.user) {
      assert GroupRight(g, occurrences, busy, people, viewer, InvitedTo(table, viewer));
      assert IsReal(x, occurrences, busy, g.user, InvitedTo(table, viewer));
      var o, b :| o in occurrences && b in busy && b.user == g.user && Hits(o, b)
        && x == ItemOf(o, b, InvitedTo(table, viewer));
      ItemIs(o, b, table, viewer);
    }
  }

  lemma SameRows(a: seq<Attendance>, b: seq<Attendance>)
    requires multiset(a) == multiset(b)
    ensures forall x :: x in a <==> x in b
  {
    assert forall x :: x in a <==> x in multiset(a);
    assert forall x :: x in b <==> x in multiset(b);
  }

  /** What FindConflicts answers, as its callers rely on it. */
  ghost predicate Answer(out: seq<Group>, occurrences: seq<Occurrence>, table: seq<Attendance>, ids: set<PersonId>,
                         exclude: Option<MeetingId>, viewer: PersonId) {
    && (forall g, x | g in out && x in g.items :: IsConflict(x, occurrences, table, ids, exclude, viewer, g.user))
    && (forall g | g in out :: NoneTwice(g.items)) && OncePerPerson(out)
  }

  /** With one row per person and meeting and no two occurrences starting together, an overlap that is
      reported is reported once: in one group, as one item, and that item is the overlap's own. */
  lemma ReportedOnce(out: seq<Group>, occurrences: seq<Occurrence>, table: seq<Attendance>, ids: set<PersonId>,
                     exclude: Option<MeetingId>, viewer: PersonId,
                     o: Occurrence, b: Attendance)
    requires Answer(out, occurrences, table, ids, exclude, viewer) && Told(out, o, b) && o in occurrences && b in table
    requires forall p, q | p in occurrences && q in occurrences && p.start == q.start :: p == q
    requires forall c, d | c in table && d in table && c.user == d.user && c.meeting == d.meeting :: c == d
    ensures var item := Item(o.start, b.meeting, b.start, b.end, b.allDay,
                             if Invited(table, viewer, b.meeting) then Some(b.title) else None);
            && (exists g :: g in out && multiset(out)[g] == 1 && g.user == b.user && multiset(g.items)[item] == 1)
            && (forall g, x | g in out && g.user == b.user && x in g.items && x.meeting == b.meeting
                && x.occurrence == o.start :: x == item)
  {
    var item := Item(o.start, b.meeting, b.start, b.end, b.allDay,
                     if Invited(table, viewer, b.meeting) then Some(b.title) else None);
    forall g, x | g in out && g.user == b.user && x in g.items && x.meeting == b.meeting && x.occurrence == o.start
      ensures x == item
    {
      assert IsConflict(x, occurrences, table, ids, exclude, viewer, g.user);
    }
    var g :| g in out && g.user == b.user && Reports(g.items, o, b);
    assert NoneTwice(g.items);
  }
}
