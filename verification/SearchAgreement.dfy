/** The two search engines accept the same messages, and the one query for which they do not. */
module SearchAgreement {
  import opened Common
  import opened Text
  import opened Calendar
  import opened TimeText
  import opened SearchDates
  import opened SearchTokens
  import opened SearchQuery
  import opened SearchFilter

  /** The bounds of a parsed query, as both engines get them. */
  function ExtraOf(q: Query, authors: Option<seq<nat>>): Extra
    requires (q.after.Some? ==> InRange(q.after.value)) && (q.before.Some? ==> InRange(q.before.value))
  {
    Extra(authors,
          if q.after.Some? then Some(SecondOf(q.after.value)) else None,
          if q.before.Some? then Some(SecondOf(q.before.value)) else None,
          if q.after.Some? then Some(SqlTime(q.after.value)) else None,
          if q.before.Some? then Some(SqlTime(q.before.value)) else None,
          q.hasFile, q.hasLink)
  }

  /** The row's time is a stored one, perhaps with an old fraction and offset behind it. */
  ghost predicate Stored(r: Row, ms: int, tail: string) {
    InRange(ms) && FourDigits(ms) && r.createdAt == SqlTime(ms) + tail
  }

  /** The day after the year 9999 has no four-digit text. */
  predicate FarEnd(q: Query) {
    q.before.Some? && StampOf(SecondOf(q.before.value)).date.year >= 10000
  }

  /** What a query's bounds are, from the dates it accepted. */
  ghost predicate Bounded(q: Query) {
    && (q.after.Some? ==> InRange(q.after.value) && FourDigits(q.after.value))
    && (q.before.Some? ==> InRange(q.before.value) && (FourDigits(q.before.value) || FarEnd(q)))
  }

  ghost predicate SaysLastDay(tokens: seq<Token>) {
    exists t :: t in tokens && t.Keyed? && t.key == "on" && DateShape(Trim(t.value)) == Some(Date(9999, 12, 31))
  }

  lemma ParsedIsBounded(q: Query, raw: string, tz: Option<int>)
    requires Answers(q, Uses(Tokens(raw), Zone(tz)))
    ensures Bounded(q)
    ensures FarEnd(q) ==> Zone(tz) >= 0 && SaysLastDay(Tokens(raw))
  {
    assert -840 <= Zone(tz) <= 840;
    var tokens, zone := Tokens(raw), Zone(tz);
    AnswersBounds(q, Uses(tokens, zone));
    hide Answers, Tokens, Zone, Begins, Ends, SaysLastDay;
    if q.after.Some? { BeginsBounded(tokens, zone, q.after.value); }
    if q.before.Some? { EndsBounded(tokens, zone, q.before.value); }
  }

  lemma AnswersBounds(q: Query, uses: seq<Use>)
    requires Answers(q, uses)
    ensures (q.after.Some? ==> Begins(uses, q.after.value)) && (q.before.Some? ==> Ends(uses, q.before.value))
  {
  }

  lemma BeginsBounded(tokens: seq<Token>, tz: int, ms: int)
    requires -840 <= tz <= 840 && Begins(Uses(tokens, tz), ms)
    ensures InRange(ms) && FourDigits(ms) && ms % 1000 == 0
  {
    hide Uses, UseOf, Trim, DateShape, FourDigits, InRange;
    var u :| u in Uses(tokens, tz) && (u.After? || u.On?) && u.start == ms;
    StartNamed(tokens, tz, u);
  }

  lemma EndsBounded(tokens: seq<Token>, tz: int, ms: int)
    requires -840 <= tz <= 840 && Ends(Uses(tokens, tz), ms)
    ensures InRange(ms) && (FourDigits(ms) || StampOf(SecondOf(ms)).date.year >= 10000) && ms % 1000 == 0
    ensures StampOf(SecondOf(ms)).date.year >= 10000 ==> tz >= 0 && SaysLastDay(tokens)
  {
    hide Uses, UseOf, Trim, DateShape, InRange, StampOf, SecondOf;
    var u :| u in Uses(tokens, tz) && ((u.Before? && u.start == ms) || (u.On? && u.start + MS_A_DAY == ms));
    StartNamed(tokens, tz, u);
  }

  lemma {:induction false} StartNamed(tokens: seq<Token>, tz: int, u: Use)
    requires u in Uses(tokens, tz) && (u.After? || u.Before? || u.On?) && -840 <= tz <= 840
    ensures exists t ::
              t in tokens && t.Keyed? && UseOf(t, tz) == u && NamesInstants(DateShape(Trim(t.value)), tz, u.start)
    ensures u.On? ==> exists t ::
              t in tokens && t.Keyed? && t.key == "on" && NamesInstants(DateShape(Trim(t.value)), tz, u.start)
    decreases |tokens|
  {
    hide NamesInstants, DateShape, LocalDayStart, Trim, Lower;
    var t := tokens[|tokens| - 1];
    if UseOf(t, tz) == u {
      assert LocalDayStart(Trim(t.value), tz) == Some(u.start);
      DayStartsAreFourDigits(Trim(t.value), tz);
    } else {
      StartNamed(tokens[..|tokens| - 1], tz, u);
    }
  }

  lemma TimesAgree(r: Row, ms: int, tail: string, q: Query)
    requires Stored(r, ms, tail) && Bounded(q)
    ensures var x := ExtraOf(q, None);
            if FarEnd(q) then !InText(r.createdAt, x) else InText(r.createdAt, x) <==>
              InTs(Parse(r.createdAt).GetOr(0), x)
  {
    hide SqlTime, FourDigits, SecondOf, Parse, StampOf;
    ParseReadsBack(ms, tail);
    if q.after.Some? {
      TextOrder(ms, q.after.value, tail, "");
      assert SqlTime(q.after.value) + "" == SqlTime(q.after.value);
    }
    if q.before.Some? {
      if FarEnd(q) {
        FarTextIsFirst(ms, q.before.value, tail);
      } else {
        TextOrder(ms, q.before.value, tail, "");
        assert SqlTime(q.before.value) + "" == SqlTime(q.before.value);
      }
    }
  }

  predicate IndexTakes(q: Query, authors: Option<seq<nat>>, channels: seq<nat>, conversations: seq<nat>, r: Row)
    requires Bounded(q)
  {
    IndexAccepts(IndexOf(r), channels, conversations, ExtraOf(q, authors))
  }

  predicate DatabaseTakes(q: Query, authors: Option<seq<nat>>, channels: seq<nat>, conversations: seq<nat>, r: Row)
    requires Bounded(q)
  {
    TimesReturned(r, channels, conversations, ExtraOf(q, authors)) > 0
  }

  /** Both engines accept the same of all stored rows, each indexed as it is. */
  ghost predicate EnginesAgree(q: Query, authors: Option<seq<nat>>, channels: seq<nat>, conversations: seq<nat>)
    requires Bounded(q)
  {
    forall r: Row, ms: int, tail: string | Stored(r, ms, tail) ::
      IndexTakes(q, authors, channels, conversations, r) <==> DatabaseTakes(q, authors, channels, conversations, r)
  }

  /** There is somewhere to look and, if people were named, someone was found. */
  predicate Searchable(authors: Option<seq<nat>>, channels: seq<nat>, conversations: seq<nat>) {
    (channels != [] || conversations != []) && authors != Some([])
  }

  lemma BoundedInRange(q: Query)
    requires Bounded(q)
    ensures (q.after.Some? ==> InRange(q.after.value)) && (q.before.Some? ==> InRange(q.before.value))
  {
  }

  lemma SameVerdict(q: Query, authors: Option<seq<nat>>, channels: seq<nat>, conversations: seq<nat>, r: Row, ms: int,
                    tail: string)
    requires Bounded(q) && Stored(r, ms, tail)
    ensures !FarEnd(q) ==>
              (IndexTakes(q, authors, channels, conversations, r) <==>
                DatabaseTakes(q, authors, channels, conversations, r))
    ensures FarEnd(q) ==> !DatabaseTakes(q, authors, channels, conversations, r)
  {
    BoundedInRange(q);
    hide Parse, LikesLink, HasLinkIn, InText, InTs, Stored, Bounded, FarEnd, SqlTime, InRange;
    TimesAgree(r, ms, tail, q);
    LinksAgree(r.body);
    SameBounds(q, authors);
  }

  lemma SameBounds(q: Query, authors: Option<seq<nat>>)
    requires (q.after.Some? ==> InRange(q.after.value)) && (q.before.Some? ==> InRange(q.before.value))
    ensures forall at :: InText(at, ExtraOf(q, authors)) == InText(at, ExtraOf(q, None))
    ensures forall ts :: InTs(ts, ExtraOf(q, authors)) == InTs(ts, ExtraOf(q, None))
  {
  }

  // ---------------------------------------------------------------------------- when a query ends past the year 9999

  /** A token that ends the window: a date accepted for before: or on:. */
  predicate NamesEnd(t: Token, tz: int) {
    t.Keyed? && (t.key == "before" || t.key == "on") && LocalDayStart(Trim(t.value), tz).Some?
  }

  predicate IsLastDay(t: Token) {
    t.Keyed? && t.key == "on" && DateShape(Trim(t.value)) == Some(Date(9999, 12, 31))
  }

  /** on:9999-12-31 is said, in a time zone not ahead of UTC, and no other date ends the window sooner. */
  ghost predicate OnlyLastDayEnds(tokens: seq<Token>, tz: int) {
    && tz >= 0
    && (exists t :: t in tokens && IsLastDay(t))
    && (forall t | t in tokens && NamesEnd(t, tz) :: IsLastDay(t))
  }

  lemma FarIsLater(x: int, y: int)
    requires FourDigits(x) && StampOf(SecondOf(y)).date.year >= 10000
    ensures x < y && SecondOf(x) < SecondOf(y)
  {
    SoonerIff(SecondOf(x), SecondOf(y));
    hide StampOf;
    assert SecondOf(x) < SecondOf(y);
  }

  /** What an ending token does to the window. */
  function EndOf(u: Use): int
    requires u.Before? || u.On?
  {
    if u.Before? then u.start else u.start + MS_A_DAY
  }

  lemma EndingUse(t: Token, tz: int)
    requires -840 <= tz <= 840 && NamesEnd(t, tz)
    ensures var u := UseOf(t, tz);
            && (u.Before? || u.On?) && InRange(EndOf(u))
            && (if IsLastDay(t) && tz >= 0 then StampOf(SecondOf(EndOf(u))).date.year >= 10000
                  else FourDigits(EndOf(u)))
  {
    hide LocalDayStart, DateShape, Trim, Lower, FourDigits, StampOf, SecondOf, InRange;
    DayStartsAreFourDigits(Trim(t.value), tz);
  }

  lemma LastDayEnds(t: Token, tz: int)
    requires IsLastDay(t)
    ensures NamesEnd(t, tz)
  {
    var d := Date(9999, 12, 31);
    assert Real(d);
    AcceptsRealDays(Trim(t.value), tz);
    hide DateShape, Trim, LocalDayStart;
  }

  /** A filter that ends the window lets no later instant in. */
  lemma NothingAfter(q: Query, uses: seq<Use>, u: Use)
    requires Answers(q, uses) && u in uses && (u.Before? || u.On?)
    ensures q.before.Some? && (q.before.value <= EndOf(u) || (q.after.Some? && q.before.value <= q.after.value))
  {
    var ms := if q.after.Some? && q.after.value > EndOf(u) then q.after.value else EndOf(u);
    assert !Allows(u, ms);
    assert !InWindow(q, ms);
  }

  /** A far end is no token's but the last day's. */
  lemma FarEndIsLastDays(q: Query, tokens: seq<Token>, tz: int, t: Token)
    requires -840 <= tz <= 840 && Answers(q, Uses(tokens, tz)) && Bounded(q) && t in tokens && NamesEnd(t, tz)
    ensures q.before.Some?
    ensures FarEnd(q) ==> IsLastDay(t) && tz >= 0
  {
    hide Answers, UseOf, NamesEnd, IsLastDay, InRange, FourDigits, StampOf, SecondOf;
    EndingUse(t, tz);
    UsesOf(tokens, tz, t);
    var e := EndOf(UseOf(t, tz));
    NothingAfter(q, Uses(tokens, tz), UseOf(t, tz));
    if FarEnd(q) && FourDigits(e) {
      FarIsLater(e, q.before.value);
      if q.after.Some? { FarIsLater(q.after.value, q.before.value); }
    }
  }

  /** The token behind the window's end. */
  lemma EndHasToken(q: Query, tokens: seq<Token>, tz: int) returns (t: Token)
    requires -840 <= tz <= 840 && Answers(q, Uses(tokens, tz)) && q.before.Some?
    ensures t in tokens && NamesEnd(t, tz)
    ensures (UseOf(t, tz).Before? || UseOf(t, tz).On?) && q.before.value == EndOf(UseOf(t, tz))
  {
    hide *;
    var u := EndUse(q, Uses(tokens, tz));
    t := TokenOf(tokens, tz, u);
    UseEnds(t, tz);
  }

  lemma EndUse(q: Query, uses: seq<Use>) returns (u: Use)
    requires Answers(q, uses) && q.before.Some?
    ensures u in uses && (u.Before? || u.On?) && q.before.value == EndOf(u)
  {
    hide Answers;
    AnswersBounds(q, uses);
    u :| u in uses && ((u.Before? && u.start == q.before.value) || (u.On? && u.start + MS_A_DAY == q.before.value));
  }

  lemma UseEnds(t: Token, tz: int)
    requires UseOf(t, tz).Before? || UseOf(t, tz).On?
    ensures NamesEnd(t, tz)
  {
    hide LocalDayStart, Trim, Lower;
  }

  lemma {:induction false} TokenOf(tokens: seq<Token>, tz: int, u: Use) returns (t: Token)
    requires u in Uses(tokens, tz)
    ensures t in tokens && UseOf(t, tz) == u
    decreases |tokens|
  {
    hide UseOf;
    t := tokens[|tokens| - 1];
    if UseOf(t, tz) != u { t := TokenOf(tokens[..|tokens| - 1], tz, u); }
  }

  /** Exactly which queries end past the year 9999, from what was typed. */
  lemma FarEndIff(q: Query, raw: string, offset: Option<int>)
    requires Answers(q, Uses(Tokens(raw), Zone(offset)))
    ensures FarEnd(q) <==> OnlyLastDayEnds(Tokens(raw), Zone(offset))
  {
    var tokens, tz := Tokens(raw), Zone(offset);
    ZoneIsNear(offset);
    ParsedIsBounded(q, raw, offset);
    hide Answers, Bounded, UseOf, NamesEnd, IsLastDay, Zone, Tokens, Uses, EndOf;
    forall t | t in tokens && NamesEnd(t, tz) ensures q.before.Some? && (FarEnd(q) ==> IsLastDay(t) && tz >= 0) {
      FarEndIsLastDays(q, tokens, tz, t);
    }
    forall t | t in tokens && IsLastDay(t) ensures NamesEnd(t, tz) { LastDayEnds(t, tz); }
    if q.before.Some? {
      var t := EndHasToken(q, tokens, tz);
      EndingUse(t, tz);
      hide FourDigits, SecondOf, StampOf;
    }
  }

  lemma ZoneIsNear(offset: Option<int>)
    ensures -840 <= Zone(offset) <= 840
  {
  }

  // ---------------------------------------------------------------------------- agreement

  /** A row the index accepts and the database, for a far end, does not return. */
  lemma FarWitness(q: Query, authors: Option<seq<nat>>, channels: seq<nat>, conversations: seq<nat>)
    returns (r: Row, ms: int)
    requires Bounded(q) && FarEnd(q) && Searchable(authors, channels, conversations)
    ensures Stored(r, ms, "") && IndexTakes(q, authors, channels, conversations, r)
            && !DatabaseTakes(q, authors, channels, conversations, r)
  {
    hide Parse, SqlTime, StampOf, SecondOf, HasLinkIn, DatabaseTakes, InRange, FourDigits;
    BoundedInRange(q);
    NineteenSeventy();
    HttpIsLink();
    ms := if q.after.Some? then q.after.value else 0;
    r := Row(0,
             if channels != [] then Some(channels[0]) else None,
             if channels == [] then Some(conversations[0]) else None,
             if authors.Some? then authors.value[0] else 0,
             SqlTime(ms), "http://", false, true);
    assert SqlTime(ms) + "" == SqlTime(ms);
    ParseReadsBack(ms, "");
    FarIsLater(ms, q.before.value);
    SameVerdict(q, authors, channels, conversations, r, ms, "");
    hide FarEnd;
    Taken(q, authors, channels, conversations, r, ms);
  }

  lemma Taken(q: Query, authors: Option<seq<nat>>, channels: seq<nat>, conversations: seq<nat>, r: Row, ms: int)
    requires Bounded(q) && q.before.Some? && SecondOf(ms) < SecondOf(q.before.value)
             && (q.after.Some? ==> ms == q.after.value)
    requires Visible(r.channel, r.conversation, channels, conversations) && !r.deleted && MayBeFrom(r.author, authors)
    requires Parse(r.createdAt) == Some(SecondOf(ms)) && r.attached && HasLinkIn(r.body)
    ensures IndexTakes(q, authors, channels, conversations, r)
  {
    BoundedInRange(q);
    hide Parse, SqlTime, SecondOf, HasLinkIn, InRange, Bounded;
  }

  lemma NineteenSeventy()
    ensures InRange(0) && FourDigits(0)
  {
    EpochYears();
    YearOf(0);
    assert SecondOf(0) / 86400 == 0;
    assert DayFromYear(1970) == 0;
    YearsApart(0, 1970);
    YearsApart(1970, 10000);
    hide DateOf;
  }

  lemma HttpIsLink()
    ensures HasLinkIn("http://")
  {
    var s := "http://";
    assert s[1..] == "ttp://" && s[2..] == "tp://" && s[3..] == "p://" && s[4..] == "://" && s[5..] == "//"
           && s[6..] == "/";
    assert AsciiLower("/") == "/" && AsciiLower("//") == "//" && AsciiLower("://") == "://";
    assert AsciiLower("p://") == "p://" && AsciiLower("tp://") == "tp://" && AsciiLower("ttp://") == "ttp://";
    assert AsciiLower(s) == s;
    LinkHereLikes(s);
  }

  /** For any query typed, any places and any people found: the engines accept the same of all messages
      exactly when the query does not end past the year 9999, which is to say unless on:9999-12-31 alone
      ends it, or when nothing can be found anyway. */
  lemma EnginesAgreeIff(q: Query, raw: string, offset: Option<int>, authors: Option<seq<nat>>, channels: seq<nat>,
                        conversations: seq<nat>)
    requires Answers(q, Uses(Tokens(raw), Zone(offset)))
    ensures Bounded(q)
    ensures EnginesAgree(q, authors, channels, conversations) <==>
            !OnlyLastDayEnds(Tokens(raw), Zone(offset)) || !Searchable(authors, channels, conversations)
  {
    ParsedIsBounded(q, raw, offset);
    FarEndIff(q, raw, offset);
    hide Answers, Tokens, Uses, Zone, OnlyLastDayEnds, Bounded, FarEnd, Stored, IndexTakes, DatabaseTakes;
    forall r: Row, ms: int, tail: string | Stored(r, ms, tail)
      ensures !FarEnd(q) ==>
                (IndexTakes(q, authors, channels, conversations, r) <==>
                  DatabaseTakes(q, authors, channels, conversations, r))
    {
      SameVerdict(q, authors, channels, conversations, r, ms, tail);
    }
    if !Searchable(authors, channels, conversations) {
      forall r: Row
        ensures !IndexTakes(q, authors, channels, conversations, r)
        && !DatabaseTakes(q, authors, channels, conversations, r) {
        NothingFound(q, authors, channels, conversations, r);
      }
    } else if FarEnd(q) {
      var r, ms := FarWitness(q, authors, channels, conversations);
    }
  }

  lemma NothingFound(q: Query, authors: Option<seq<nat>>, channels: seq<nat>, conversations: seq<nat>, r: Row)
    requires Bounded(q) && !Searchable(authors, channels, conversations)
    ensures !IndexTakes(q, authors, channels, conversations, r)
            && !DatabaseTakes(q, authors, channels, conversations, r)
  {
    BoundedInRange(q);
    hide SqlTime, SecondOf, InRange, Bounded;
    NothingMeets(ExtraOf(q, authors), channels, conversations, r);
  }

  lemma NothingMeets(x: Extra, channels: seq<nat>, conversations: seq<nat>, r: Row)
    requires x.authors == Some([]) || (channels == [] && conversations == [])
    ensures !IndexAccepts(IndexOf(r), channels, conversations, x) && TimesReturned(r, channels, conversations, x) == 0
  {
    hide InText, InTs, LikesLink, HasLinkIn, Parse;
  }

  // ---------------------------------------------------------------------------- what is found

  lemma WholeSeconds(q: Query, raw: string, offset: Option<int>)
    requires Answers(q, Uses(Tokens(raw), Zone(offset)))
    ensures (q.after.Some? ==> q.after.value % 1000 == 0) && (q.before.Some? ==> q.before.value % 1000 == 0)
  {
    ZoneIsNear(offset);
    AnswersBounds(q, Uses(Tokens(raw), Zone(offset)));
    hide Answers, Tokens, Zone, Begins, Ends;
    if q.after.Some? { BeginsBounded(Tokens(raw), Zone(offset), q.after.value); }
    if q.before.Some? { EndsBounded(Tokens(raw), Zone(offset), q.before.value); }
  }

  /** The message is where the searcher may look, not deleted, by someone asked for, at a time in the window,
      and has the file and the link asked for. */
  ghost predicate Matches(q: Query, authors: Option<seq<nat>>, channels: seq<nat>, conversations: seq<nat>, r: Row,
                          ms: int) {
    && ((r.channel.Some? && r.channel.value in channels)
        || (r.conversation.Some? && r.conversation.value in conversations))
    && !r.deleted && (authors.Some? ==> r.author in authors.value)
    && (q.after.Some? ==> q.after.value <= ms) && (q.before.Some? ==> ms < q.before.value)
    && (q.hasFile ==> r.attached) && (q.hasLink ==> MentionsLink(r.body))
  }

  /** For any query typed: the index accepts exactly the messages that match, and so does the database, but
      for a query that ends past the year 9999, for which it accepts none. */
  lemma FoundIff(q: Query, raw: string, offset: Option<int>, authors: Option<seq<nat>>, channels: seq<nat>,
                 conversations: seq<nat>, r: Row, ms: int, tail: string)
    requires Answers(q, Uses(Tokens(raw), Zone(offset))) && Stored(r, ms, tail)
    ensures Bounded(q)
    ensures IndexTakes(q, authors, channels, conversations, r) <==>
              Matches(q, authors, channels, conversations, r, ms)
    ensures DatabaseTakes(q, authors, channels, conversations, r) <==>
              Matches(q, authors, channels, conversations, r, ms) && !OnlyLastDayEnds(Tokens(raw), Zone(offset))
  {
    ParsedIsBounded(q, raw, offset);
    FarEndIff(q, raw, offset);
    WholeSeconds(q, raw, offset);
    ParseReadsBack(ms, tail);
    LinkIff(r.body);
    hide Answers, Tokens, Uses, Zone, OnlyLastDayEnds;
    SameVerdict(q, authors, channels, conversations, r, ms, tail);
    IndexMatches(q, authors, channels, conversations, r, ms);
    hide Matches, IndexTakes, DatabaseTakes, FarEnd, Bounded, Stored;
  }

  lemma IndexMatches(q: Query, authors: Option<seq<nat>>, channels: seq<nat>, conversations: seq<nat>, r: Row, ms: int)
    requires Bounded(q) && Parse(r.createdAt) == Some(SecondOf(ms))
    requires (q.after.Some? ==> q.after.value % 1000 == 0) && (q.before.Some? ==> q.before.value % 1000 == 0)
    requires HasLinkIn(r.body) <==> MentionsLink(r.body)
    ensures IndexTakes(q, authors, channels, conversations, r) <==>
              Matches(q, authors, channels, conversations, r, ms)
  {
    BoundedInRange(q);
    if q.after.Some? { SecondOrder(ms, q.after.value); }
    if q.before.Some? { SecondOrder(ms, q.before.value); }
    hide Parse, SqlTime, SecondOf, HasLinkIn, MentionsLink, InRange, Bounded;
  }

  lemma SecondOrder(ms: int, whole: int)
    requires whole % 1000 == 0
    ensures SecondOf(ms) < SecondOf(whole) <==> ms < whole
  {
  }
}
