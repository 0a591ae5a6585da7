/** The iOS client's message list: merging what it has with what arrives, and paging back over a gap. */
module ChatReliability {
  import opened Common
  import opened Division

  datatype Message = Message(id: nat, content: string)

  datatype Page = Page(messages: seq<Message>, hasMore: bool)

  datatype Result = Ok(page: Page) | FetchFailed | OutOfOrder | Cancelled

  predicate AscendingIds(ms: seq<Message>) {
    forall i, j | 0 <= i < j < |ms| :: ms[i].id < ms[j].id
  }

  /** The latest copy of each message in the list. */
  function ById(ms: seq<Message>): map<nat, Message> {
    if ms == [] then map[] else ById(ms[..|ms| - 1])[ms[|ms| - 1].id := ms[|ms| - 1]]
  }

  /** merge's result: in id order, each message once, the incoming copy where both have one. */
  ghost predicate IsMerge(existing: seq<Message>, incoming: seq<Message>, merged: seq<Message>) {
    AscendingIds(merged) && ById(merged) == ById(existing) + ById(incoming)
  }

  method Merge(existing: seq<Message>, incoming: seq<Message>) returns (merged: seq<Message>)
    ensures IsMerge(existing, incoming, merged)
  {
    var byId := Copies(map[], existing);
    byId := Copies(byId, incoming);
    ByIdKeys(existing);
    ByIdKeys(incoming);
    merged := SortedById(byId);
  }

  method Copies(start: map<nat, Message>, ms: seq<Message>) returns (byId: map<nat, Message>)
    ensures byId == start + ById(ms)
  {
    byId := start;
    for i := 0 to |ms|
      invariant byId == start + ById(ms[..i])
    {
      assert ms[..i + 1][..i] == ms[..i];
      byId := byId[ms[i].id := ms[i]];
    }
    assert ms[..|ms|] == ms;
  }

  ghost predicate Keyed(byId: map<nat, Message>) {
    forall n | n in byId :: byId[n].id == n
  }

  method SortedById(byId: map<nat, Message>) returns (ms: seq<Message>)
    requires Keyed(byId)
    ensures AscendingIds(ms) && ById(ms) == byId
  {
    ms := [];
    var rest := byId.Keys;
    while rest != {}
      invariant rest <= byId.Keys && AscendingIds(ms)
      invariant forall n | n in rest :: forall i | 0 <= i < |ms| :: ms[i].id < n
      invariant ById(ms) == byId - rest
      decreases rest
    {
      var n := Smallest(rest);
      assert (ms + [byId[n]])[..|ms|] == ms;
      ms := ms + [byId[n]];
      rest := rest - {n};
    }
  }

  lemma {:induction false} ByIdKeys(ms: seq<Message>)
    ensures Keyed(ById(ms))
    ensures forall i | 0 <= i < |ms| :: ms[i].id in ById(ms)
    ensures forall n | n in ById(ms) :: ById(ms)[n] in ms
  {
    if ms != [] {
      var init := ms[..|ms| - 1];
      ByIdKeys(init);
      assert ms == init + [ms[|ms| - 1]];
    }
  }

  lemma {:induction false} ByIdConcat(a: seq<Message>, b: seq<Message>)
    ensures ById(a + b) == ById(a) + ById(b)
  {
    if b == [] {
      assert a + b == a;
    } else {
      var init := b[..|b| - 1];
      ByIdConcat(a, init);
      assert (a + b)[..|a + b| - 1] == a + init;
    }
  }

  lemma {:induction false} Once(ms: seq<Message>, k: nat)
    requires AscendingIds(ms) && k < |ms|
    ensures ms[k].id in ById(ms) && ById(ms)[ms[k].id] == ms[k]
  {
    if k < |ms| - 1 { Once(ms[..|ms| - 1], k); }
  }

  /** In a list in id order every message is its own latest copy. */
  lemma Members(ms: seq<Message>)
    requires AscendingIds(ms)
    ensures forall m :: m in ms <==> m.id in ById(ms) && ById(ms)[m.id] == m
  {
    ByIdKeys(ms);
    hide ById;
    forall m | m in ms ensures m.id in ById(ms) && ById(ms)[m.id] == m {
      var k :| 0 <= k < |ms| && ms[k] == m;
      Once(ms, k);
    }
  }

  lemma AllButLast(ms: seq<Message>)
    requires AscendingIds(ms) && ms != []
    ensures ById(ms[..|ms| - 1]) == ById(ms) - {ms[|ms| - 1].id}
  {
    LastIsNew(ms);
    PutBack(ById(ms[..|ms| - 1]), ms[|ms| - 1]);
  }

  lemma LastIsNew(ms: seq<Message>)
    requires AscendingIds(ms) && ms != []
    ensures ms[|ms| - 1].id !in ById(ms[..|ms| - 1])
  {
    ByIdKeys(ms[..|ms| - 1]);
  }

  lemma PutBack(copies: map<nat, Message>, m: Message)
    requires m.id !in copies
    ensures copies[m.id := m] - {m.id} == copies
  {
  }

  /** A list in id order is determined by its latest copies. */
  lemma {:induction false} SameCopiesSameList(a: seq<Message>, b: seq<Message>)
    requires AscendingIds(a) && AscendingIds(b) && ById(a) == ById(b)
    ensures a == b
    decreases |a|
  {
    hide ById, AscendingIds;
    SameMembers(a, b);
    if a != [] {
      SameLast(a, b);
      AllButLast(a);
      AllButLast(b);
      ShorterAscends(a);
      ShorterAscends(b);
      SameCopiesSameList(a[..|a| - 1], b[..|b| - 1]);
      assert a == a[..|a| - 1] + [a[|a| - 1]] && b == b[..|b| - 1] + [b[|b| - 1]];
    }
  }

  lemma SameMembers(a: seq<Message>, b: seq<Message>)
    requires AscendingIds(a) && AscendingIds(b) && ById(a) == ById(b)
    ensures forall m :: m in a <==> m in b
    ensures a == [] <==> b == []
  {
    Members(a);
    Members(b);
    hide ById;
    assert (a != [] ==> a[0] in a) && (b != [] ==> b[0] in b);
  }

  lemma SameLast(a: seq<Message>, b: seq<Message>)
    requires AscendingIds(a) && AscendingIds(b) && a != [] && b != [] && forall m :: m in a <==> m in b
    ensures a[|a| - 1] == b[|b| - 1]
  {
    var x, y := a[|a| - 1], b[|b| - 1];
    assert x in b && y in a;
    var i :| 0 <= i < |b| && b[i] == x;
    var j :| 0 <= j < |a| && a[j] == y;
  }

  lemma ShorterAscends(ms: seq<Message>)
    requires AscendingIds(ms) && ms != []
    ensures AscendingIds(ms[..|ms| - 1])
  {
  }

  /** Merging is associative, so live messages and pages may arrive in any grouping. */
  lemma MergeAssociative(a: seq<Message>, b: seq<Message>, c: seq<Message>, ab: seq<Message>, bc: seq<Message>,
                         left: seq<Message>, right: seq<Message>)
    requires IsMerge(a, b, ab) && IsMerge(b, c, bc) && IsMerge(ab, c, left) && IsMerge(a, bc, right)
    ensures left == right
  {
    assert (ById(a) + ById(b)) + ById(c) == ById(a) + (ById(b) + ById(c));
    SameCopiesSameList(left, right);
  }

  /** No later message of the list is a copy of the same one. */
  predicate LastCopy(ms: seq<Message>, i: nat)
    requires i < |ms|
  {
    forall j | i < j < |ms| :: ms[j].id != ms[i].id
  }

  ghost predicate Latest(ms: seq<Message>, m: Message) {
    exists i: nat :: i < |ms| && ms[i] == m && LastCopy(ms, i)
  }

  lemma {:induction false} ByIdIsLatest(ms: seq<Message>, m: Message)
    ensures m.id in ById(ms) && ById(ms)[m.id] == m <==> Latest(ms, m)
    ensures m.id in ById(ms) <==> exists x :: x in ms && x.id == m.id
  {
    if ms != [] {
      var init, last := ms[..|ms| - 1], ms[|ms| - 1];
      ByIdIsLatest(init, m);
      assert ms == init + [last];
      hide ById;
      if last.id == m.id {
        assert LastCopy(ms, |ms| - 1);
        assert last in ms;
      } else {
        if i: nat :| i < |init| && init[i] == m && LastCopy(init, i) { assert LastCopy(ms, i); }
        if i: nat :| i < |ms| && ms[i] == m && LastCopy(ms, i) {
          assert i < |init| && forall j | i < j < |init| :: ms[j] == init[j];
          assert LastCopy(init, i);
        }
      }
    }
  }

  /** A merge holds the last copy of each message that arrived, the last copy there was of each other, and
      nothing else, in id order. */
  lemma IncomingWins(existing: seq<Message>, incoming: seq<Message>, merged: seq<Message>, m: Message)
    requires IsMerge(existing, incoming, merged)
    ensures m in merged <==>
            Latest(incoming, m) || (Latest(existing, m) && forall x | x in incoming :: x.id != m.id)
    ensures forall i, j | 0 <= i < j < |merged| :: merged[i].id < merged[j].id
  {
    Members(merged);
    ByIdIsLatest(existing, m);
    ByIdIsLatest(incoming, m);
  }

  // ---------------------------------------------------------------------------- the server

  /** How many of the server's messages, in id order, come before the cursor. */
  function Below(db: seq<Message>, before: Option<nat>): (n: nat)
    ensures n <= |db|
  {
    if before == None || db == [] || db[|db| - 1].id < before.value then |db| else Below(db[..|db| - 1], before)
  }

  lemma {:induction false} BelowAt(db: seq<Message>, k: nat)
    requires AscendingIds(db) && k < |db|
    ensures Below(db, Some(db[k].id)) == k
  {
    if k < |db| - 1 {
      BelowAt(db[..|db| - 1], k);
    } else if k > 0 {
      assert db[..k][k - 1].id < db[k].id;
    }
  }

  /** Exactly the messages with smaller ids come before the cursor. */
  lemma {:induction false} BelowIff(db: seq<Message>, before: Option<nat>, i: nat)
    requires AscendingIds(db) && i < |db|
    ensures i < Below(db, before) <==> before == None || db[i].id < before.value
  {
    if before.Some? && db[|db| - 1].id >= before.value && i < |db| - 1 { BelowIff(db[..|db| - 1], before, i); }
  }

  lemma {:induction false} BelowBound(db: seq<Message>, before: Option<nat>)
    requires AscendingIds(db)
    ensures before.Some? ==> forall i | 0 <= i < Below(db, before) :: db[i].id < before.value
  {
    if before.Some? && db != [] && db[|db| - 1].id >= before.value { BelowBound(db[..|db| - 1], before); }
  }

  /** The page holds the newest messages before the cursor, at least one if there is one, and does not
      hide that older ones exist. */
  ghost predicate Faithful(db: seq<Message>, before: Option<nat>, page: Page) {
    var hi, n := Below(db, before), |page.messages|;
    n <= hi && page.messages == db[hi - n..hi] && (hi > 0 ==> n > 0) && (hi > n ==> page.hasMore)
  }

  /** And says there are older ones only if there are. */
  ghost predicate Exact(db: seq<Message>, before: Option<nat>, page: Page) {
    Faithful(db, before, page) && (page.hasMore <==> Below(db, before) > |page.messages|)
  }

  type Api = (nat, Option<nat>) -> Option<Page>

  ghost predicate Serves(api: Api, db: seq<Message>) {
    AscendingIds(db) && forall k: nat, before: Option<nat> ::
      api(k, before).Some? && Faithful(db, before, api(k, before).value)
  }

  ghost predicate ServesExactly(api: Api, db: seq<Message>) {
    Serves(api, db) && forall k: nat, before: Option<nat> :: Exact(db, before, api(k, before).value)
  }

  /** The message list of a channel or chat: the last `limit` rows, and whether the page came out full. */
  function ServerPage(db: seq<Message>, before: Option<nat>, limit: nat): Page {
    var hi := Below(db, before);
    var n := if hi < limit then hi else limit;
    Page(db[hi - n..hi], n == limit)
  }

  /** That server is always faithful, and exact unless exactly one full page is left: then it says there
      is more although there is not. */
  lemma ServerPageExactIff(db: seq<Message>, before: Option<nat>, limit: nat)
    requires limit > 0
    ensures Faithful(db, before, ServerPage(db, before, limit))
    ensures Exact(db, before, ServerPage(db, before, limit)) <==> Below(db, before) != limit
  {
  }

  // ---------------------------------------------------------------------------- refresh

  ghost predicate HoldsFrom(ms: seq<Message>, db: seq<Message>, from: nat) {
    forall i | 0 <= i < |db| && db[i].id >= from :: db[i] in ms
  }

  ghost predicate OlderThanAll(m: Message, ms: seq<Message>) {
    forall i | 0 <= i < |ms| :: m.id < ms[i].id
  }

  lemma Slices(db: seq<Message>, lo: nat, mid: nat)
    requires lo <= mid <= |db| && AscendingIds(db)
    ensures ById(db[mid..]) + ById(db[lo..mid]) == ById(db[lo..])
    ensures AscendingIds(db[lo..])
  {
    assert db[lo..] == db[lo..mid] + db[mid..];
    ByIdConcat(db[lo..mid], db[mid..]);
    Commute(db[lo..mid], db[mid..]);
  }

  lemma Commute(a: seq<Message>, b: seq<Message>)
    requires forall i, j | 0 <= i < |a| && 0 <= j < |b| :: a[i].id < b[j].id
    ensures ById(a) + ById(b) == ById(b) + ById(a)
  {
    ByIdKeys(a);
    ByIdKeys(b);
    hide ById;
    forall n | n in ById(a) ensures n !in ById(b) {
      assert ById(a)[n] in a;
      assert forall y | y in b :: y.id != n;
    }
  }

  /** What `current` merged with all of the server's messages from index `lo` up holds. */
  lemma Caught(db: seq<Message>, lo: nat, current: seq<Message>, result: seq<Message>, merged: seq<Message>)
    requires AscendingIds(db) && lo <= |db| && ById(result) == ById(db[lo..]) && IsMerge(current, result, merged)
    ensures forall i | lo <= i < |db| :: db[i] in merged
    ensures forall m | m in merged :: m in current || exists i :: lo <= i < |db| && db[i] == m
  {
    var tail := db[lo..];
    Members(tail);
    Members(merged);
    ByIdKeys(current);
    hide ById;
    assert forall i | lo <= i < |db| :: db[i] in tail by { assert forall i | lo <= i < |db| :: db[i] == tail[i - lo]; }
    forall m | m in merged ensures m in current || exists i :: lo <= i < |db| && db[i] == m {
      if m.id in ById(tail) {
        var k :| 0 <= k < |tail| && tail[k] == m;
        assert db[lo + k] == m;
      } else {
        assert m == ById(current)[m.id];
      }
    }
  }

  /** The loop stops with everything from the earliest kept message caught, or with everything. */
  ghost predicate Reached(db: seq<Message>, lo: nat, current: seq<Message>) {
    lo == 0 || (lo < |db| && (current == [] || db[lo].id <= current[0].id))
  }

  lemma HoldsAll(db: seq<Message>, lo: nat, current: seq<Message>, merged: seq<Message>)
    requires AscendingIds(db) && Reached(db, lo, current) && forall i | lo <= i < |db| :: db[i] in merged
    ensures current != [] ==> HoldsFrom(merged, db, current[0].id)
    ensures db != [] ==> db[|db| - 1] in merged
  {
  }

  lemma OlderIff(db: seq<Message>, lo: nat, current: seq<Message>, merged: seq<Message>)
    requires AscendingIds(db) && AscendingIds(current) && lo <= |db| && merged != [] && Reached(db, lo, current)
    requires forall i | lo <= i < |db| :: db[i] in merged
    requires forall m | m in merged :: m in current || exists i :: lo <= i < |db| && db[i] == m
    ensures lo > 0 <==> exists m :: m in db && OlderThanAll(m, merged)
  {
    if lo > 0 {
      forall m | m in merged ensures db[lo].id <= m.id {
        if m in current { assert current[0].id <= m.id; }
      }
      assert OlderThanAll(db[0], merged);
    } else {
      forall m | m in db ensures !OlderThanAll(m, merged) { assert m in merged; }
    }
  }

  /** One more page of a faithful server. */
  lemma TakePage(db: seq<Message>, before: Option<nat>, page: Page, result: seq<Message>, merged: seq<Message>)
    requires AscendingIds(db) && Faithful(db, before, page)
    requires ById(result) == ById(db[Below(db, before)..]) && IsMerge(result, page.messages, merged)
    ensures |page.messages| <= Below(db, before) && ById(merged) == ById(db[Below(db, before) - |page.messages|..])
    ensures page.messages == [] ==> Below(db, before) == 0
    ensures Below(db, before) - |page.messages| > 0 ==> page.hasMore
    ensures Exact(db, before, page) ==> (page.hasMore <==> Below(db, before) - |page.messages| > 0)
    ensures page.messages != [] ==>
      var lo := Below(db, before) - |page.messages|;
      page.messages[0] == db[lo] && Below(db, Some(db[lo].id)) == lo
        && (before.Some? ==> page.messages[0].id < before.value)
  {
    var mid := Below(db, before);
    var lo := mid - |page.messages|;
    Slices(db, lo, mid);
    BelowBound(db, before);
    if page.messages != [] { BelowAt(db, lo); }
  }

  /** What a page list is worth to a client that had `current`, when the server holds `db`. */
  ghost predicate Complete(db: seq<Message>, current: seq<Message>, ms: seq<Message>) {
    && (current != [] ==> HoldsFrom(ms, db, current[0].id))
    && (db != [] ==> db[|db| - 1] in ms)
    && (forall m | m in ms :: m in current || m in db)
  }

  ghost predicate OlderExist(db: seq<Message>, ms: seq<Message>) {
    exists m :: m in db && OlderThanAll(m, ms)
  }

  lemma Finished(db: seq<Message>, lo: nat, current: seq<Message>, result: seq<Message>, merged: seq<Message>)
    requires AscendingIds(db) && lo <= |db| && ById(result) == ById(db[lo..]) && IsMerge(current, result, merged)
             && Reached(db, lo, current)
    ensures Complete(db, current, merged)
    ensures AscendingIds(current) && merged != [] ==> (OlderExist(db, merged) <==> lo > 0)
  {
    Caught(db, lo, current, result, merged);
    HoldsAll(db, lo, current, merged);
    if AscendingIds(current) && merged != [] { OlderIff(db, lo, current, merged); }
  }

  lemma NothingLost(current: seq<Message>, result: seq<Message>, merged: seq<Message>)
    requires IsMerge(current, result, merged)
    ensures AscendingIds(merged) && ById(current).Keys <= ById(merged).Keys
  {
  }

  // ---------------------------------------------------------------------------- the real message list

  ghost predicate Lists(api: Api, db: seq<Message>, limit: nat) {
    limit > 0 && AscendingIds(db) && forall k: nat, before: Option<nat> ::
      api(k, before) == Some(ServerPage(db, before, limit))
  }

  lemma ListsServes(api: Api, db: seq<Message>, limit: nat)
    requires Lists(api, db, limit)
    ensures Serves(api, db)
  {
    forall k: nat, before: Option<nat> ensures api(k, before).Some? && Faithful(db, before, api(k, before).value) {
      ServerPageExactIff(db, before, limit);
    }
  }

  /** The pages come out even, and the oldest of them is the one that reaches the earliest message kept
      (or, with nothing kept, the only one). */
  predicate FalseMore(db: seq<Message>, current: seq<Message>, limit: nat)
    requires limit > 0
  {
    && db != [] && |db| % limit == 0
    && (if current == [] then |db| == limit
        else db[0].id <= current[0].id && (|db| == limit || (limit < |db| && db[limit].id > current[0].id)))
  }

  /** Where paging stops: after `pages` full pages that did not reach far enough, at a page of those before
      index `hi`. That page is full and the last exactly when the client is told of more in vain. */
  lemma StopsAt(db: seq<Message>, current: seq<Message>, limit: nat, pages: nat, hi: nat)
    requires AscendingIds(db) && limit > 0 && hi + pages * limit == |db|
    requires pages > 0 ==> current != [] && hi < |db| && db[hi].id > current[0].id
    requires hi < limit || current == [] || db[hi - limit].id <= current[0].id
    ensures hi == limit <==> FalseMore(db, current, limit)
  {
    EvenPages(|db|, limit, pages, hi);
    if hi > limit && |db| % limit == 0 && current != [] {
      assert hi - limit >= limit;
      assert db[limit].id <= db[hi - limit].id;
    }
  }

  lemma EvenPages(n: nat, limit: nat, pages: nat, hi: nat)
    requires limit > 0 && hi + pages * limit == n
    ensures n % limit == hi % limit
    ensures hi > limit && n % limit == 0 ==> hi >= 2 * limit
    ensures hi == limit ==> n % limit == 0
    ensures 0 < hi < limit ==> n % limit != 0
    ensures pages > 0 ==> n > hi
    ensures pages == 0 ==> n == hi
  {
    if pages > 0 {
      assert pages * limit == (pages - 1) * limit + limit;
      EvenPages(n - limit, limit, pages - 1, hi);
      MinusOne(n, limit);
    }
    if limit < hi < 2 * limit { MinusOne(hi, limit); }
  }

  /** After `pages` full pages that did not reach far enough, those before index `hi` are still to come. */
  ghost predicate Paging(api: Api, db: seq<Message>, current: seq<Message>, limit: nat, pages: nat, hi: nat) {
    Lists(api, db, limit) ==>
      hi + pages * limit == |db| && (pages > 0 ==> current != [] && hi < |db| && db[hi].id > current[0].id)
  }

  /** What the client is told at the end: of more in vain exactly when the pages come out even. */
  ghost predicate MoreLaw(api: Api, db: seq<Message>, current: seq<Message>, limit: nat, more: bool, lo: nat) {
    Lists(api, db, limit) ==> (more && lo == 0 <==> FalseMore(db, current, limit))
  }

  lemma PagingGoesOn(api: Api, db: seq<Message>, current: seq<Message>, limit: nat, pages: nat, k: nat,
                     before: Option<nat>, page: Page)
    requires Paging(api, db, current, limit, pages, Below(db, before)) && api(k, before) == Some(page)
    requires page.messages != [] && page.hasMore && current != [] && page.messages[0].id > current[0].id
             && |page.messages| <= Below(db, before)
    ensures Paging(api, db, current, limit, pages + 1, Below(db, before) - |page.messages|)
  {
    assert (pages + 1) * limit == pages * limit + limit;
  }

  lemma PagingStops(api: Api, db: seq<Message>, current: seq<Message>, limit: nat, pages: nat, k: nat,
                    before: Option<nat>, page: Page)
    requires Paging(api, db, current, limit, pages, Below(db, before)) && api(k, before) == Some(page)
             && |page.messages| <= Below(db, before)
    requires page.messages == [] || current == [] || page.messages[0].id <= current[0].id || !page.hasMore
    ensures MoreLaw(api, db, current, limit, page.hasMore, Below(db, before) - |page.messages|)
  {
    if Lists(api, db, limit) {
      assert page == ServerPage(db, before, limit);
      StopsAt(db, current, limit, pages, Below(db, before));
    }
  }

  /** Where the loop is: `result` holds the server's messages from index `lo` up. */
  ghost predicate Going(api: Api, db: seq<Message>, current: seq<Message>, limit: nat, before: Option<nat>,
                        result: seq<Message>, lo: nat, pages: nat) {
    Serves(api, db) ==>
      lo <= |db| && ById(result) == ById(db[lo..]) && Below(db, before) == lo
      && Paging(api, db, current, limit, pages, lo)
  }

  /** Where it ends. */
  ghost predicate Ended(api: Api, db: seq<Message>, current: seq<Message>, limit: nat, result: seq<Message>,
                        more: bool, lo: nat) {
    Serves(api, db) ==>
      && lo <= |db| && ById(result) == ById(db[lo..]) && Reached(db, lo, current) && (lo > 0 ==> more)
      && (ServesExactly(api, db) ==> (more <==> lo > 0)) && MoreLaw(api, db, current, limit, more, lo)
  }

  predicate Enough(current: seq<Message>, page: Page) {
    page.messages == [] || current == [] || page.messages[0].id <= current[0].id || !page.hasMore
  }

  function Next(lo: nat, page: Page): nat {
    if |page.messages| <= lo then lo - |page.messages| else 0
  }

  lemma PageTurns(api: Api, db: seq<Message>, current: seq<Message>, limit: nat, k: nat, before: Option<nat>,
                  page: Page, result: seq<Message>, merged: seq<Message>, lo: nat, pages: nat)
    requires Going(api, db, current, limit, before, result, lo, pages) && api(k, before) == Some(page)
             && IsMerge(result, page.messages, merged)
    ensures Serves(api, db) && page.messages != [] && before.Some? ==> page.messages[0].id < before.value
    ensures Enough(current, page) ==> Ended(api, db, current, limit, merged, page.hasMore, Next(lo, page))
    ensures !Enough(current, page) ==>
              Going(api, db, current, limit, Some(page.messages[0].id), merged, Next(lo, page), pages + 1)
  {
    hide Going, Ended, ById, IsMerge, Lists, FalseMore;
    if Serves(api, db) { TurnFacts(api, db, current, limit, k, before, page, result, merged, lo, pages); }
    if Enough(current, page) {
      TurnEnds(api, db, current, limit, k, before, page, result, merged, lo, pages);
    } else {
      TurnGoesOn(api, db, current, limit, k, before, page, result, merged, lo, pages);
    }
  }

  lemma TurnFacts(api: Api, db: seq<Message>, current: seq<Message>, limit: nat, k: nat, before: Option<nat>,
                  page: Page, result: seq<Message>, merged: seq<Message>, lo: nat, pages: nat)
    requires Going(api, db, current, limit, before, result, lo, pages) && api(k, before) == Some(page)
             && IsMerge(result, page.messages, merged) && Serves(api, db)
    ensures lo <= |db| && Below(db, before) == lo && |page.messages| <= lo && ById(merged) == ById(db[Next(lo, page)..])
    ensures page.messages == [] ==> lo == 0
    ensures Next(lo, page) > 0 ==> page.hasMore
    ensures ServesExactly(api, db) ==> (page.hasMore <==> Next(lo, page) > 0)
    ensures page.messages != [] ==>
      page.messages[0] == db[Next(lo, page)] && Below(db, Some(page.messages[0].id)) == Next(lo, page)
        && (before.Some? ==> page.messages[0].id < before.value)
  {
    hide ById, IsMerge, Lists, FalseMore, Paging, Below;
    TakePage(db, before, page, result, merged);
  }

  lemma TurnEnds(api: Api, db: seq<Message>, current: seq<Message>, limit: nat, k: nat, before: Option<nat>,
                 page: Page, result: seq<Message>, merged: seq<Message>, lo: nat, pages: nat)
    requires Going(api, db, current, limit, before, result, lo, pages) && api(k, before) == Some(page)
             && IsMerge(result, page.messages, merged)
    requires Enough(current, page)
    ensures Ended(api, db, current, limit, merged, page.hasMore, Next(lo, page))
  {
    if Serves(api, db) {
      hide ById, IsMerge, Lists, FalseMore, Paging, MoreLaw, Below;
      TurnFacts(api, db, current, limit, k, before, page, result, merged, lo, pages);
      PagingStops(api, db, current, limit, pages, k, before, page);
    }
  }

  lemma TurnGoesOn(api: Api, db: seq<Message>, current: seq<Message>, limit: nat, k: nat, before: Option<nat>,
                   page: Page, result: seq<Message>, merged: seq<Message>, lo: nat, pages: nat)
    requires Going(api, db, current, limit, before, result, lo, pages) && api(k, before) == Some(page)
             && IsMerge(result, page.messages, merged)
    requires !Enough(current, page)
    ensures Going(api, db, current, limit, Some(page.messages[0].id), merged, Next(lo, page), pages + 1)
  {
    if Serves(api, db) {
      hide ById, IsMerge, Lists, FalseMore, Paging, Below;
      TurnFacts(api, db, current, limit, k, before, page, result, merged, lo, pages);
      PagingGoesOn(api, db, current, limit, pages, k, before, page);
    }
  }

  /** What the client may rely on: from a faithful server, and from the real message list, which is one. */
  ghost predicate Promised(api: Api, db: seq<Message>, limit: nat, current: seq<Message>, page: Page) {
    && (Serves(api, db) || Lists(api, db, limit) ==> Complete(db, current, page.messages))
    && (AscendingIds(current) && page.messages != [] ==>
          && (Serves(api, db) || Lists(api, db, limit) ==> (OlderExist(db, page.messages) ==> page.hasMore))
          && (ServesExactly(api, db) ==> (page.hasMore <==> OlderExist(db, page.messages)))
          && (Lists(api, db, limit) ==>
                (page.hasMore && !OlderExist(db, page.messages) <==> FalseMore(db, current, limit))))
  }

  lemma Concludes(api: Api, db: seq<Message>, limit: nat, current: seq<Message>, result: seq<Message>, more: bool,
                  lo: nat,
                  merged: seq<Message>)
    requires Ended(api, db, current, limit, result, more, lo) && IsMerge(current, result, merged)
    ensures Promised(api, db, limit, current, Page(merged, more))
  {
    if Lists(api, db, limit) { ListsServes(api, db, limit); }
    hide ById, IsMerge, Complete, OlderExist, Lists, FalseMore, Reached;
    if Serves(api, db) { Finished(db, lo, current, result, merged); }
  }

  lemma GoingStarts(api: Api, db: seq<Message>, current: seq<Message>, limit: nat)
    ensures Going(api, db, current, limit, None, [], |db|, 0)
  {
    assert db[|db|..] == [];
  }

  /** A cancellation is seen at the page after which it comes, and ends the refresh there. */
  ghost predicate StoppedAt(cancelled: nat -> bool, yes: bool) {
    exists last: nat :: cancelled(last) == yes && forall j: nat | j < last :: !cancelled(j)
  }

  /** A page that is not older than the one before it. */
  predicate TooLate(page: Page, before: nat) {
    page.messages != [] && page.messages[0].id >= before
  }

  /** Against any server and cancelled at any point the loop ends (its cursor falls towards the earliest
      message kept), and what it returns is in id order and loses nothing the client had. From a server
      that serves `db` faithfully it never fails unless cancelled, and returns the server's copy of every
      message from the earliest one kept up, with `hasMore` set whenever older ones exist; from one that
      is exact, only then. From the real message list, in pages of `limit`, it is also set with nothing
      older there, exactly when the pages come out even at the earliest message kept. */
  method Refresh(api: Api, cancelled: nat -> bool, current: seq<Message>, ghost db: seq<Message>,
                 ghost limit: nat) returns (r: Result)
    ensures r.Ok? ==> AscendingIds(r.page.messages) && ById(current).Keys <= ById(r.page.messages).Keys
    ensures Serves(api, db) || Lists(api, db, limit) ==> r.Ok? || (r.Cancelled? && exists k :: cancelled(k))
    ensures r.Ok? ==> Promised(api, db, limit, current, r.page)
    ensures r.Ok? || r.Cancelled? ==> StoppedAt(cancelled, r.Cancelled?)
    ensures r.FetchFailed? ==> exists k, before :: api(k, before) == None
    ensures r.OutOfOrder? ==> exists k, before, page :: api(k, Some(before)) == Some(page) && TooLate(page, before)
  {
    var result := [];
    var before: Option<nat> := None;
    var more := false;
    var k := 0;
    ghost var lo: nat, pages: nat := |db|, 0;
    if Lists(api, db, limit) { ListsServes(api, db, limit); }
    GoingStarts(api, db, current, limit);
    hide Going, Ended, Promised, IsMerge, ById, AscendingIds;
    while true
      invariant before.Some? ==> current != [] && before.value > current[0].id
      invariant Going(api, db, current, limit, before, result, lo, pages)
      invariant forall j: nat | j < k :: !cancelled(j)
      decreases before.None?, if before.Some? && current != [] then before.value - current[0].id else 0
    {
      var answer := api(k, before);
      if answer.None? { return FetchFailed; }
      var page := answer.value;
      var merged := Merge(result, page.messages);
      PageTurns(api, db, current, limit, k, before, page, result, merged, lo, pages);
      lo, pages := Next(lo, page), pages + 1;
      result := merged;
      more := page.hasMore;
      if page.messages == [] { break; }
      var first := page.messages[0].id;
      if before.Some? && first >= before.value { return OutOfOrder; }
      before := Some(first);
      if current == [] || first <= current[0].id { break; }
      if !more || cancelled(k) { break; }
      k := k + 1;
    }
    assert StoppedAt(cancelled, cancelled(k));
    if cancelled(k) { return Cancelled; }
    var merged := Merge(current, result);
    NothingLost(current, result, merged);
    Concludes(api, db, limit, current, result, more, lo, merged);
    return Ok(Page(merged, more));
  }
}
