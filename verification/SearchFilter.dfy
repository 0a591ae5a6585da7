/** The search bar's filters, as the search index and as the database apply them. */
module SearchFilter {
  import opened Common
  import opened Sorting
  import opened Text
  import opened TimeText

  // A messages row; `attached` says whether it has an attachment.
  datatype Row = Row(id: nat, channel: Option<nat>, conversation: Option<nat>, author: nat, createdAt: string,
    body: string, deleted: bool, attached: bool)

  // What the index keeps of it.
  datatype Doc = Doc(id: nat, channel: Option<nat>, conversation: Option<nat>, author: nat, createdTs: int,
    hasFile: bool, hasLink: bool, deleted: bool)

  // ---------------------------------------------------------------------------- links

  function AsciiLower(s: string): string {
    if s == "" then "" else [if 'A' <= s[0] <= 'Z' then 'a' + (s[0] - 'A') else s[0]] + AsciiLower(s[1..])
  }

  /** The case-insensitive https?:\/\/ matches at the start. */
  predicate LinkHere(s: string) {
    var l := AsciiLower(s);
    "http" <= l && ("://" <= l[4..] || (|l| > 4 && l[4] == 's' && "://" <= l[5..]))
  }

  /** /https?:\/\//i finds a match. */
  predicate HasLinkIn(body: string) {
    LinkHere(body) || (body != "" && HasLinkIn(body[1..]))
  }

  /** The two ILIKE patterns of the database's condition. */
  predicate LikesLink(body: string) {
    Contains(AsciiLower(body), "http://") || Contains(AsciiLower(body), "https://")
  }

  lemma {:induction false} LinksAgree(body: string)
    ensures HasLinkIn(body) <==> LikesLink(body)
  {
    LinkHereLikes(body);
    if body != "" {
      LinksAgree(body[1..]);
      assert AsciiLower(body)[1..] == AsciiLower(body[1..]);
    }
  }

  lemma LinkHereLikes(s: string)
    ensures LinkHere(s) <==> "http://" <= AsciiLower(s) || "https://" <= AsciiLower(s)
  {
    var l := AsciiLower(s);
    assert "http://" == "http" + "://" && "https://" == "http" + "s" + "://";
    if LinkHere(s) {
      assert l == "http" + l[4..];
      if "://" <= l[4..] { assert l[..7] == "http://"; } else { assert l[..8] == "https://"; }
    }
    if "http://" <= l { assert l[..7] == "http://" && l[..4] == "http" && l[4..7] == "://" && l[4..][..3] == "://"; }
    if "https://" <= l { assert l[..8] == "https://" && l[..4] == "http" && l[4] == 's' && l[5..][..3] == "://"; }
  }

  /** http:// or https:// stands somewhere, in any case. */
  ghost predicate MentionsLink(body: string) {
    exists before, link, after :: body == before + link + after && IsLinkStart(link)
  }

  predicate IsLinkStart(link: string) {
    SameButCase(link, "http://") || SameButCase(link, "https://")
  }

  /** Letter by letter the same, or its capital. */
  predicate SameButCase(s: string, lower: string) {
    |s| == |lower| && forall i | 0 <= i < |s| ::
      s[i] == lower[i] || ('a' <= lower[i] <= 'z' && s[i] as int + 32 == lower[i] as int)
  }

  lemma {:induction false} LowerAt(s: string)
    ensures |AsciiLower(s)| == |s|
    ensures forall i | 0 <= i < |s| ::
              AsciiLower(s)[i] == if 'A' <= s[i] <= 'Z' then 'a' + (s[i] - 'A') else s[i]
  {
    if s != "" { LowerAt(s[1..]); }
  }

  lemma LowerIs(s: string, lower: string)
    requires lower == "http://" || lower == "https://"
    ensures AsciiLower(s) == lower <==> SameButCase(s, lower)
  {
    LowerAt(s);
    if SameButCase(s, lower) {
      forall i | 0 <= i < |s| ensures AsciiLower(s)[i] == lower[i] {
      }
    }
  }

  lemma {:induction false} LowerParts(a: string, b: string)
    ensures AsciiLower(a + b) == AsciiLower(a) + AsciiLower(b)
  {
    if a == "" {
      assert a + b == b;
    } else {
      LowerParts(a[1..], b);
      assert (a + b)[1..] == a[1..] + b;
    }
  }

  lemma ContainsLower(body: string, lower: string)
    requires lower == "http://" || lower == "https://"
    ensures Contains(AsciiLower(body), lower) <==>
            exists before, link, after :: body == before + link + after && SameButCase(link, lower)
  {
    hide SameButCase, AsciiLower, Contains;
    ContainsIff(AsciiLower(body), lower);
    if before, link, after :| body == before + link + after && SameButCase(link, lower) {
      LowerIs(link, lower);
      LowerParts(before + link, after);
      LowerParts(before, link);
      assert AsciiLower(body) == AsciiLower(before) + lower + AsciiLower(after);
    }
    if before, after :| AsciiLower(body) == before + lower + after {
      CutLower(body, before, lower, after);
    }
  }

  lemma CutLower(body: string, before: string, lower: string, after: string)
    requires AsciiLower(body) == before + lower + after && (lower == "http://" || lower == "https://")
    ensures exists b, link, a :: body == b + link + a && SameButCase(link, lower)
  {
    hide SameButCase, AsciiLower;
    LowerAt(body);
    var i, j := |before|, |before| + |lower|;
    var b, link, a := body[..i], body[i..j], body[j..];
    assert body == b + link + a;
    LowerParts(b + link, a);
    LowerParts(b, link);
    LowerAt(b);
    LowerAt(link);
    assert (AsciiLower(b) + AsciiLower(link) + AsciiLower(a))[i..j] == AsciiLower(link);
    assert (before + lower + after)[i..j] == lower;
    LowerIs(link, lower);
  }

  lemma LinkIff(body: string)
    ensures LikesLink(body) <==> MentionsLink(body)
    ensures HasLinkIn(body) <==> MentionsLink(body)
  {
    LinksAgree(body);
    ContainsLower(body, "http://");
    ContainsLower(body, "https://");
    hide AsciiLower, Contains, SameButCase, HasLinkIn;
    if before, link, after :| body == before + link + after && SameButCase(link, "http://") {
      assert IsLinkStart(link);
    }
    if before, link, after :| body == before + link + after && SameButCase(link, "https://") {
      assert IsLinkStart(link);
    }
  }

  // ---------------------------------------------------------------------------- the index

  /** filterFields and the rest of the document. */
  function IndexOf(r: Row): Doc {
    Doc(r.id, r.channel, r.conversation, r.author, Parse(r.createdAt).GetOr(0), r.attached, HasLinkIn(r.body),
      r.deleted)
  }

  // The narrowing of a search; each date bound twice, as a number and as text.
  datatype Extra = Extra(authors: Option<seq<nat>>, afterTs: Option<int>, beforeTs: Option<int>,
                         afterSql: Option<string>, beforeSql: Option<string>, hasFile: bool, hasLink: bool)

  datatype Condition =
    | InPlaces(channels: seq<nat>, conversations: seq<nat>)
    | NotDeleted
    | AuthorIn(authors: seq<nat>)
    | TsFrom(ts: int)
    | TsBefore(ts: int)
    | WithFile
    | WithLink

  predicate Meets(d: Doc, c: Condition) {
    match c
    case InPlaces(channels, conversations) => (d.channel.Some? && d.channel.value in channels)
      || (d.conversation.Some? && d.conversation.value in conversations)
    case NotDeleted => !d.deleted
    case AuthorIn(authors) => d.author in authors
    case TsFrom(ts) => d.createdTs >= ts
    case TsBefore(ts) => d.createdTs < ts
    case WithFile => d.hasFile
    case WithLink => d.hasLink
  }

  predicate MeetsAll(d: Doc, conditions: seq<Condition>) {
    forall c | c in conditions :: Meets(d, c)
  }

  /** No filter means no results. */
  predicate Passes(d: Doc, filter: Option<seq<Condition>>) {
    filter.Some? && MeetsAll(d, filter.value)
  }

  predicate MayBeFrom(author: nat, authors: Option<seq<nat>>) {
    authors.Some? ==> author in authors.value
  }

  predicate InTs(ts: int, x: Extra) {
    (x.afterTs.Some? ==> ts >= x.afterTs.value) && (x.beforeTs.Some? ==> ts < x.beforeTs.value)
  }

  predicate Visible(channel: Option<nat>, conversation: Option<nat>, channels: seq<nat>, conversations: seq<nat>) {
    (channel.Some? && channel.value in channels) || (conversation.Some? && conversation.value in conversations)
  }

  /** What the search index is to accept. */
  predicate IndexAccepts(d: Doc, channels: seq<nat>, conversations: seq<nat>, x: Extra) {
    && Visible(d.channel, d.conversation, channels, conversations) && !d.deleted
    && MayBeFrom(d.author, x.authors) && InTs(d.createdTs, x) && (x.hasFile ==> d.hasFile) && (x.hasLink ==> d.hasLink)
  }

  method BuildFilter(channels: seq<nat>, conversations: seq<nat>, x: Extra) returns (filter: Option<seq<Condition>>)
    ensures forall d :: Passes(d, filter) <==> IndexAccepts(d, channels, conversations, x)
  {
    if channels == [] && conversations == [] { return None; }
    var parts := Push([], InPlaces(channels, conversations));
    parts := Push(parts, NotDeleted);
    if x.authors.Some? {
      if x.authors.value == [] { return None; }
      parts := Push(parts, AuthorIn(x.authors.value));
    }
    if x.afterTs.Some? { parts := Push(parts, TsFrom(x.afterTs.value)); }
    if x.beforeTs.Some? { parts := Push(parts, TsBefore(x.beforeTs.value)); }
    if x.hasFile { parts := Push(parts, WithFile); }
    if x.hasLink { parts := Push(parts, WithLink); }
    filter := Some(parts);
  }

  method Push(parts: seq<Condition>, c: Condition) returns (more: seq<Condition>)
    ensures more == parts + [c] && forall d :: MeetsAll(d, more) <==> MeetsAll(d, parts) && Meets(d, c)
  {
    more := parts + [c];
    forall d ensures MeetsAll(d, more) <==> MeetsAll(d, parts) && Meets(d, c) {
      assert c in more && forall k | k in parts :: k in more;
    }
  }

  // ---------------------------------------------------------------------------- the database

  datatype Sql =
    | Never
    | UserIn(authors: seq<nat>)
    | AtFrom(at: string)
    | AtBefore(at: string)
    | AttachmentExists
    | BodyLikesLink

  predicate SqlHolds(r: Row, c: Sql) {
    match c
    case Never => false
    case UserIn(authors) => r.author in authors
    case AtFrom(at) => !Less(r.createdAt, at)
    case AtBefore(at) => Less(r.createdAt, at)
    case AttachmentExists => r.attached
    case BodyLikesLink => LikesLink(r.body)
  }

  predicate InText(createdAt: string, x: Extra) {
    (x.afterSql.Some? ==> !Less(createdAt, x.afterSql.value))
    && (x.beforeSql.Some? ==> Less(createdAt, x.beforeSql.value))
  }

  predicate HoldsAll(r: Row, sql: seq<Sql>) {
    forall c | c in sql :: SqlHolds(r, c)
  }

  /** What the database's conditions are to say of a row. */
  predicate RowMeets(r: Row, x: Extra) {
    MayBeFrom(r.author, x.authors) && InText(r.createdAt, x) && (x.hasFile ==> r.attached)
      && (x.hasLink ==> LikesLink(r.body))
  }

  method SqlConditions(x: Extra) returns (sql: seq<Sql>)
    ensures forall r :: HoldsAll(r, sql) <==> RowMeets(r, x)
  {
    hide LikesLink, Less;
    sql := [];
    if x.authors.Some? {
      if x.authors.value == [] {
        sql := PushSql([], Never);
        return;
      }
      sql := PushSql(sql, UserIn(x.authors.value));
    }
    if x.afterSql.Some? { sql := PushSql(sql, AtFrom(x.afterSql.value)); }
    if x.beforeSql.Some? { sql := PushSql(sql, AtBefore(x.beforeSql.value)); }
    if x.hasFile { sql := PushSql(sql, AttachmentExists); }
    if x.hasLink { sql := PushSql(sql, BodyLikesLink); }
  }

  method PushSql(sql: seq<Sql>, c: Sql) returns (more: seq<Sql>)
    ensures more == sql + [c] && forall r :: HoldsAll(r, more) <==> HoldsAll(r, sql) && SqlHolds(r, c)
  {
    more := sql + [c];
    forall r ensures HoldsAll(r, more) <==> HoldsAll(r, sql) && SqlHolds(r, c) {
      assert c in more && forall k | k in sql :: k in more;
    }
  }

  /** How often the database's UNION ALL holds a row whose text matches: once for a channel the searcher
      sees, once for a chat. */
  function TimesReturned(r: Row, channels: seq<nat>, conversations: seq<nat>, x: Extra): nat {
    (if InSelect(r, channels, x, true) then 1 else 0) + (if InSelect(r, conversations, x, false) then 1 else 0)
  }

  /** The WHERE of one of the two SELECTs: by channel, or by conversation. */
  predicate InSelect(r: Row, places: seq<nat>, x: Extra, byChannel: bool) {
    var place := if byChannel then r.channel else r.conversation;
    !r.deleted && RowMeets(r, x) && place.Some? && place.value in places
  }

  // ---------------------------------------------------------------------------- the database's rows

  /** One SELECT over the table. */
  function Select(table: seq<Row>, matches: Row -> bool, places: seq<nat>, x: Extra, byChannel: bool): seq<Row> {
    if table == [] then []
    else
      var r := table[|table| - 1];
      Select(table[..|table| - 1], matches, places, x, byChannel) + if matches(r)
        && InSelect(r, places, x, byChannel) then [r] else []
  }

  predicate DistinctIds(table: seq<Row>) {
    forall i, j | 0 <= i < j < |table| :: table[i].id != table[j].id
  }

  lemma {:induction false} SelectOnce(table: seq<Row>, matches: Row -> bool, places: seq<nat>, x: Extra,
                                      byChannel: bool)
    requires DistinctIds(table)
    ensures forall r :: multiset(Select(table, matches, places, x, byChannel))[r] ==
                        if r in table && matches(r) && InSelect(r, places, x, byChannel) then 1 else 0
  {
    hide InSelect;
    if table != [] {
      var init, last := table[..|table| - 1], table[|table| - 1];
      SelectOnce(init, matches, places, x, byChannel);
      assert table == init + [last] && last !in init;
    }
  }

  /** Newest first. */
  const NEWER: (Row, Row) -> bool := (a: Row, b: Row) => !Less(a.createdAt, b.createdAt)

  lemma {:induction false} LessOrder(a: string, b: string, c: string)
    ensures !(Less(a, b) && Less(b, a))
    ensures !Less(a, b) && !Less(b, c) ==> !Less(a, c)
  {
    if a != "" && b != "" && c != "" {
      LessOrder(a[1..], b[1..], c[1..]);
    } else if a != "" && b != "" {
      LessOrder(a[1..], b[1..], "");
    }
  }

  lemma NewerRanks()
    ensures Ranks(NEWER)
  {
    forall a: Row, b: Row ensures NEWER(a, b) || NEWER(b, a) { LessOrder(a.createdAt, b.createdAt, ""); }
    forall a: Row, b: Row, c: Row | NEWER(a, b) && NEWER(b, c)
      ensures NEWER(a, c) { LessOrder(a.createdAt, b.createdAt, c.createdAt); }
  }

  function Limit(limit: int): (n: nat)
    ensures 1 <= n <= 100 && (1 <= limit <= 100 ==> n == limit) && (limit == 0 ==> n == 25)
            && (limit > 100 ==> n == 100) && (limit < 0 ==> n == 1)
  {
    var n := if limit == 0 then 25 else limit;
    if n > 100 then 100 else if n < 1 then 1 else n
  }

  /** How often a row of the table is in the two SELECTs together. */
  function Times(table: seq<Row>, matches: Row -> bool, channels: seq<nat>, conversations: seq<nat>, x: Extra,
                 r: Row): nat {
    if r in table && matches(r) then TimesReturned(r, channels, conversations, x) else 0
  }

  /** SELECT ... UNION ALL SELECT ..., each only where there are places for it. */
  method UnionAll(table: seq<Row>, matches: Row -> bool, channels: seq<nat>, conversations: seq<nat>,
                  x: Extra) returns (all: seq<Row>)
    requires DistinctIds(table)
    ensures forall r :: multiset(all)[r] == Times(table, matches, channels, conversations, x, r)
  {
    hide InSelect, DistinctIds, Select;
    SelectOnce(table, matches, channels, x, true);
    SelectOnce(table, matches, conversations, x, false);
    NoPlaces(table, matches, x);
    var one := if channels == [] then [] else Select(table, matches, channels, x, true);
    var two := if conversations == [] then [] else Select(table, matches, conversations, x, false);
    all := one + two;
  }

  /** messagesFromPostgres: the two SELECTs put together, newest first, up to the limit; `matches` is the
      text search. */
  method MessagesFromPostgres(table: seq<Row>, matches: Row -> bool, channels: seq<nat>, conversations: seq<nat>,
                              x: Extra, limit: int) returns (rows: seq<Row>)
    requires DistinctIds(table)
    ensures |rows| <= Limit(limit)
    ensures forall i, j | 0 <= i < j < |rows| :: !Less(rows[i].createdAt, rows[j].createdAt)
    ensures forall r :: multiset(rows)[r] <= Times(table, matches, channels, conversations, x, r)
    ensures |rows| < Limit(limit) ==> forall r ::
              multiset(rows)[r] == Times(table, matches, channels, conversations, x, r)
    ensures forall r, s | r in rows && Times(table, matches, channels, conversations, x, s) > multiset(rows)[s] ::
              !Less(r.createdAt, s.createdAt)
  {
    hide Times, DistinctIds, Less, Limit;
    var all := UnionAll(table, matches, channels, conversations, x);
    NewerRanks();
    var sorted := Sort(all, NEWER);
    var n := Limit(limit);
    rows := if |sorted| <= n then sorted else sorted[..n];
    CutOff(sorted, n, rows);
  }

  lemma {:induction false} NoPlaces(table: seq<Row>, matches: Row -> bool, x: Extra)
    ensures Select(table, matches, [], x, true) == [] && Select(table, matches, [], x, false) == []
  {
    if table != [] { NoPlaces(table[..|table| - 1], matches, x); }
  }

  /** What a limit cuts off a list in order is not before what it leaves. */
  lemma CutOff(sorted: seq<Row>, n: nat, rows: seq<Row>)
    requires Ordered(sorted, NEWER) && rows == if |sorted| <= n then sorted else sorted[..n]
    ensures forall i, j | 0 <= i < j < |rows| :: !Less(rows[i].createdAt, rows[j].createdAt)
    ensures forall r :: multiset(rows)[r] <= multiset(sorted)[r]
    ensures forall r, s | r in rows && multiset(sorted)[s] > multiset(rows)[s] :: !Less(r.createdAt, s.createdAt)
  {
    hide Less;
    forall i, j | 0 <= i < j < |rows| ensures !Less(rows[i].createdAt, rows[j].createdAt) {
      assert NEWER(sorted[i], sorted[j]);
    }
    if |sorted| > n {
      assert sorted == rows + sorted[n..];
      forall r, s | r in rows && multiset(sorted)[s] > multiset(rows)[s] ensures !Less(r.createdAt, s.createdAt) {
        assert s in multiset(sorted[n..]);
        var i :| 0 <= i < |rows| && rows[i] == r;
        var j :| 0 <= j < |sorted[n..]| && sorted[n..][j] == s;
        assert NEWER(sorted[i], sorted[n + j]);
      }
    }
  }

  /** In what the database returns, a message comes twice only if it is in a visible channel and a visible
      chat at once; so a message in a single place never does, nor does any come three times. */
  lemma NeverTwice(table: seq<Row>, rows: seq<Row>, matches: Row -> bool, channels: seq<nat>, conversations: seq<nat>,
                   x: Extra, i: nat, j: nat)
    requires DistinctIds(table) && i < j < |rows| && rows[i].id == rows[j].id
    requires forall r :: multiset(rows)[r] <= Times(table, matches, channels, conversations, x, r)
    ensures rows[i] == rows[j] && multiset(rows)[rows[i]] == 2
    ensures var r := rows[i];
            r.channel.Some? && r.channel.value in channels && r.conversation.Some?
            && r.conversation.value in conversations
  {
    var r, s := rows[i], rows[j];
    assert r in multiset(rows) && s in multiset(rows);
    assert rows == rows[..j] + [rows[j]] + rows[j + 1..];
    assert multiset(rows[..j])[r] >= 1 by { assert r in rows[..j]; }
    assert r == s by {
      var a :| 0 <= a < |table| && table[a] == r;
      var b :| 0 <= b < |table| && table[b] == s;
    }
  }
}
