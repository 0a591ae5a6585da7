/** The search index next to the database: rebuilding it, and reading results back. */
module Search {
  import opened Common
  import opened SearchFilter

  predicate Keyed(table: map<nat, Row>) {
    forall id | id in table :: table[id].id == id && id > 0
  }

  // ---------------------------------------------------------------------------- results

  predicate Shown(id: nat, table: map<nat, Row>, channels: seq<nat>, conversations: seq<nat>) {
    id in table && !table[id].deleted && Visible(table[id].channel, table[id].conversation, channels, conversations)
  }

  /** The current rows of the ids that may be shown, in the ids' order. */
  function Hydrated(ids: seq<nat>, table: map<nat, Row>, channels: seq<nat>, conversations: seq<nat>): seq<Row> {
    if ids == [] then []
    else
      var id := ids[|ids| - 1];
      Hydrated(ids[..|ids| - 1], table, channels, conversations)
        + if Shown(id, table, channels, conversations) then [table[id]] else []
  }

  method HydrateMessages(ids: seq<nat>, table: map<nat, Row>, channels: seq<nat>,
                         conversations: seq<nat>) returns (shown: seq<Row>)
    ensures shown == Hydrated(ids, table, channels, conversations)
  {
    if ids == [] || (channels == [] && conversations == []) {
      NothingVisible(ids, table);
      return [];
    }
    var byId: map<nat, Row> := map[];
    for i := 0 to |ids|
      invariant forall id :: id in byId <==> id in ids[..i] && Shown(id, table, channels, conversations)
      invariant forall id | id in byId :: byId[id] == table[id]
    {
      if Shown(ids[i], table, channels, conversations) { byId := byId[ids[i] := table[ids[i]]]; }
    }
    shown := [];
    for i := 0 to |ids|
      invariant shown == Hydrated(ids[..i], table, channels, conversations)
    {
      assert ids[..i + 1][..i] == ids[..i];
      if ids[i] in byId { shown := shown + [byId[ids[i]]]; }
    }
    assert ids[..|ids|] == ids;
  }

  lemma {:induction false} NothingVisible(ids: seq<nat>, table: map<nat, Row>)
    ensures Hydrated(ids, table, [], []) == []
  {
    if ids != [] { NothingVisible(ids[..|ids| - 1], table); }
  }

  /** However stale the index is, what is shown is current, not deleted, and somewhere the searcher may
      look; and nothing found that may be shown is missing. */
  lemma {:induction false} ShownIsCurrent(ids: seq<nat>, table: map<nat, Row>, channels: seq<nat>,
                                          conversations: seq<nat>)
    requires Keyed(table)
    ensures forall r ::
              r in Hydrated(ids, table, channels, conversations) <==>
                r.id in ids && r.id in table && table[r.id] == r && !r.deleted
                && ((r.channel.Some? && r.channel.value in channels)
                    || (r.conversation.Some? && r.conversation.value in conversations))
    ensures |Hydrated(ids, table, channels, conversations)| <= |ids|
  {
    if ids != [] {
      var init := ids[..|ids| - 1];
      ShownIsCurrent(init, table, channels, conversations);
      assert ids == init + [ids[|ids| - 1]];
    }
  }

  /** What is shown comes in the order of the results. */
  lemma {:induction false} ShownInOrder(ids: seq<nat>, table: map<nat, Row>, channels: seq<nat>,
                                        conversations: seq<nat>, i: nat, j: nat)
    requires Keyed(table) && i < j < |Hydrated(ids, table, channels, conversations)|
    ensures var shown := Hydrated(ids, table, channels, conversations);
            exists a, b :: 0 <= a < b < |ids| && ids[a] == shown[i].id && ids[b] == shown[j].id
    decreases |ids|
  {
    var init := ids[..|ids| - 1];
    var before := Hydrated(init, table, channels, conversations);
    if j < |before| {
      ShownInOrder(init, table, channels, conversations, i, j);
      var a, b :| 0 <= a < b < |init| && init[a] == before[i].id && init[b] == before[j].id;
      assert ids[a] == before[i].id && ids[b] == before[j].id;
    } else {
      ShownIsCurrent(init, table, channels, conversations);
      assert before[i] in before;
      var a :| 0 <= a < |init| && init[a] == before[i].id;
      assert ids[a] == before[i].id && ids[|ids| - 1] == ids[|ids| - 1];
    }
  }

  // ---------------------------------------------------------------------------- rebuilding

  /** The index as it should be: every message not deleted, as it is now, and nothing else. */
  function Rebuilt(table: map<nat, Row>): map<nat, Doc> {
    map id | id in table && !table[id].deleted :: IndexOf(table[id])
  }

  function LiveAfter(table: map<nat, Row>, last: nat): set<nat> {
    set id | id in table && !table[id].deleted && id > last
  }

  const BATCH := 500
  const PAGE := 1000

  function Docs(table: map<nat, Row>, ids: set<nat>): map<nat, Doc>
    requires ids <= table.Keys
  {
    map id | id in ids :: IndexOf(table[id])
  }

  function Elements(ids: seq<nat>): set<nat> {
    set id | id in ids
  }

  /** reindexAll: batches by id, then away with what the database no longer has. */
  method ReindexAll(table: map<nat, Row>, index: map<nat, Doc>) returns (rebuilt: map<nat, Doc>, indexed: nat)
    requires Keyed(table)
    ensures rebuilt == Rebuilt(table)
    ensures forall id :: id in rebuilt <==> id in table && !table[id].deleted
    ensures forall id | id in rebuilt :: rebuilt[id] == IndexOf(table[id])
    ensures indexed == |set id | id in table && !table[id].deleted|
  {
    hide Docs, Rebuilt, LiveAfter;
    LiveKeys(table, 0);
    var more, live := UpsertAll(table, index);
    indexed := |live|;
    rebuilt := RemoveStale(more, live);
    AllLive(table, index);
    AllLiveAre(table);
  }

  lemma AllLiveAre(table: map<nat, Row>)
    requires Keyed(table)
    ensures LiveAfter(table, 0) == set id | id in table && !table[id].deleted
    ensures forall id :: id in Rebuilt(table) <==> id in table && !table[id].deleted
    ensures forall id | id in Rebuilt(table) :: Rebuilt(table)[id] == IndexOf(table[id])
  {
  }

  method UpsertAll(table: map<nat, Row>, index: map<nat, Doc>) returns (more: map<nat, Doc>, live: set<nat>)
    ensures live == LiveAfter(table, 0) <= table.Keys && more == index + Docs(table, live)
  {
    hide Docs, IndexOf, LiveAfter;
    more := index;
    var last := 0;
    live := {};
    assert more == index + Docs(table, live) by { NoDocs(index, table); }
    while true
      invariant live + LiveAfter(table, last) == LiveAfter(table, 0)
      invariant live <= table.Keys && more == index + Docs(table, live)
      decreases LiveAfter(table, last)
    {
      LiveKeys(table, last);
      var rows, picked := FirstIds(LiveAfter(table, last), BATCH);
      if rows == [] { break; }
      more := Upsert(more, table, rows, picked);
      DocsUnion(index, table, live, picked);
      NextBatch(table, last, rows, picked);
      live := live + picked;
      last := rows[|rows| - 1];
    }
  }

  lemma NoDocs(index: map<nat, Doc>, table: map<nat, Row>)
    ensures index == index + Docs(table, {})
  {
  }

  lemma LiveKeys(table: map<nat, Row>, last: nat)
    ensures LiveAfter(table, last) <= table.Keys
  {
  }

  lemma AllLive(table: map<nat, Row>, index: map<nat, Doc>)
    requires Keyed(table)
    ensures LiveAfter(table, 0) <= table.Keys
    ensures (map id | id in index + Docs(table, LiveAfter(table, 0)) && id in LiveAfter(table, 0) ::
              (index + Docs(table, LiveAfter(table, 0)))[id]) == Rebuilt(table)
  {
    hide IndexOf;
  }

  method Upsert(index: map<nat, Doc>, table: map<nat, Row>, rows: seq<nat>,
                ghost picked: set<nat>) returns (more: map<nat, Doc>)
    requires picked <= table.Keys && forall x :: x in rows <==> x in picked
    ensures more == index + Docs(table, picked)
  {
    hide IndexOf;
    more := index;
    for i := 0 to |rows|
      invariant Elements(rows[..i]) <= table.Keys
      invariant more == index + Docs(table, Elements(rows[..i]))
    {
      assert rows[i] in picked;
      assert Elements(rows[..i + 1]) == Elements(rows[..i]) + {rows[i]};
      more := more[rows[i] := IndexOf(table[rows[i]])];
    }
    assert Elements(rows[..|rows|]) == picked;
  }

  lemma DocsUnion(index: map<nat, Doc>, table: map<nat, Row>, a: set<nat>, b: set<nat>)
    requires a <= table.Keys && b <= table.Keys
    ensures (index + Docs(table, a)) + Docs(table, b) == index + Docs(table, a + b)
  {
    hide IndexOf;
  }

  lemma NextBatch(table: map<nat, Row>, last: nat, rows: seq<nat>, picked: set<nat>)
    requires rows != [] && Ascending(rows) && (forall x :: x in rows <==> x in picked)
             && picked <= LiveAfter(table, last)
    requires forall x, y | x in picked && y in LiveAfter(table, last) - picked :: x < y
    ensures LiveAfter(table, rows[|rows| - 1]) == LiveAfter(table, last) - picked
    ensures rows[|rows| - 1] in picked
  {
    assert rows[|rows| - 1] in rows;
    assert forall x | x in picked :: x <= rows[|rows| - 1];
  }

  /** The index is listed page by page, and what is not live goes, in slices. */
  method RemoveStale(index: map<nat, Doc>, live: set<nat>) returns (rest: map<nat, Doc>)
    ensures rest == map id | id in index && id in live :: index[id]
  {
    hide Elements;
    var listing, all := FirstIds(index.Keys, |index.Keys| + 1);
    ElementsAre(listing, all);
    var stale := [];
    var offset := 0;
    ElementsAre([], {});
    while offset < |listing|
      invariant Elements(stale) == Elements(listing[..Min(offset, |listing|)]) - live
      decreases |listing| - offset
    {
      var end := Min(offset + PAGE, |listing|);
      var more := StaleIn(listing[offset..end], live);
      ElementsOf(listing, offset, end);
      ElementsJoin(stale, more);
      stale := stale + more;
      offset := offset + PAGE;
    }
    assert listing[..|listing|] == listing;
    assert Elements(stale) == index.Keys - live;
    rest := DeleteSlices(index, stale);
  }

  lemma ElementsAre(ids: seq<nat>, s: set<nat>)
    requires forall x :: x in ids <==> x in s
    ensures Elements(ids) == s
  {
  }

  method DeleteSlices(index: map<nat, Doc>, stale: seq<nat>) returns (rest: map<nat, Doc>)
    ensures rest == index - Elements(stale)
  {
    rest := index;
    var i := 0;
    while i < |stale|
      invariant rest == index - Elements(stale[..Min(i, |stale|)])
      decreases |stale| - i
    {
      var end := Min(i + PAGE, |stale|);
      ElementsOf(stale, i, end);
      rest := rest - Elements(stale[i..end]);
      i := i + PAGE;
    }
    assert stale[..|stale|] == stale;
  }

  function Min(a: nat, b: nat): nat {
    if a < b then a else b
  }

  lemma ElementsOf(ids: seq<nat>, from: nat, to: nat)
    requires from <= to <= |ids|
    ensures Elements(ids[..to]) == Elements(ids[..from]) + Elements(ids[from..to])
  {
    assert ids[..to] == ids[..from] + ids[from..to];
    ElementsJoin(ids[..from], ids[from..to]);
  }

  lemma ElementsJoin(a: seq<nat>, b: seq<nat>)
    ensures Elements(a + b) == Elements(a) + Elements(b)
  {
  }

  method StaleIn(page: seq<nat>, live: set<nat>) returns (stale: seq<nat>)
    ensures Elements(stale) == Elements(page) - live
  {
    stale := [];
    for i := 0 to |page|
      invariant Elements(stale) == Elements(page[..i]) - live
    {
      ElementsOf(page, i, i + 1);
      assert page[i..i + 1] == [page[i]];
      if page[i] !in live {
        ElementsJoin(stale, [page[i]]);
        stale := stale + [page[i]];
      }
    }
    assert page[..|page|] == page;
  }
}
