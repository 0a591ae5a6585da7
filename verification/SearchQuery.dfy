/** The search bar's query language: which filters its tokens stand for, and what stays free text. */
module SearchQuery {
  import opened Common
  import opened Calendar
  import opened SearchDates
  import opened SearchTokens

  function TrimStart(s: string): string {
    if s != "" && Blank(s[0]) then TrimStart(s[1..]) else s
  }

  function TrimEnd(s: string): string {
    if s != "" && Blank(s[|s| - 1]) then TrimEnd(s[..|s| - 1]) else s
  }

  function Trim(s: string): string {
    TrimEnd(TrimStart(s))
  }

  datatype Use =
    | Word(word: string)
    | From(person: string) | In(place: string) | HasFile | HasLink
    | After(start: int) | Before(start: int) | On(start: int)

  /** The searcher's time zone, when it is a whole number of minutes within 14 hours. */
  function Zone(tz: Option<int>): int {
    if tz.Some? && -840 <= tz.value <= 840 then tz.value else 0
  }

  /** What becomes of a token: a filter, or text as it was written. */
  function UseOf(t: Token, tz: int): Use {
    if t.Plain? then Word(t.text)
    else
      var value := Trim(t.value);
      if t.key == "from" && value != "" then From(value)
      else if t.key == "in" && value != "" then In(value)
      else if t.key == "has" && Lower(value) == "file" then HasFile
      else if t.key == "has" && Lower(value) == "link" then HasLink
      else
        var start := LocalDayStart(value, tz);
        if t.key == "after" && start.Some? then After(start.value)
        else if t.key == "before" && start.Some? then Before(start.value)
        else if t.key == "on" && start.Some? then On(start.value)
        else Word(t.raw)
  }

  function Uses(tokens: seq<Token>, tz: int): seq<Use> {
    if tokens == [] then [] else Uses(tokens[..|tokens| - 1], tz) + [UseOf(tokens[|tokens| - 1], tz)]
  }

  /** Whether an instant satisfies a filter; only dates limit instants. */
  predicate Allows(u: Use, ms: int) {
    match u
    case After(start) => start <= ms
    case Before(start) => ms < start
    case On(start) => start <= ms < start + MS_A_DAY
    case _ => true
  }

  datatype Query = Query(text: string, from: seq<string>, places: seq<string>, hasFile: bool, hasLink: bool,
                         after: Option<int>, before: Option<int>, hasFilters: bool)

  predicate InWindow(q: Query, ms: int) {
    (q.after.Some? ==> q.after.value <= ms) && (q.before.Some? ==> ms < q.before.value)
  }

  function People(uses: seq<Use>): seq<string> {
    if uses == [] then []
    else People(uses[..|uses| - 1]) + var u := uses[|uses| - 1]; if u.From? then [u.person] else []
  }

  function Places(uses: seq<Use>): seq<string> {
    if uses == [] then []
    else Places(uses[..|uses| - 1]) + var u := uses[|uses| - 1]; if u.In? then [u.place] else []
  }

  function Words(uses: seq<Use>): seq<string> {
    if uses == [] then []
    else Words(uses[..|uses| - 1]) + var u := uses[|uses| - 1]; if u.Word? then [u.word] else []
  }

  /** words.join(' ') */
  function Spaced(words: seq<string>): string {
    if words == [] then ""
      else if |words| == 1 then words[0] else Spaced(words[..|words| - 1]) + " " + words[|words| - 1]
  }

  /** The bounds kept while reading date filters one by one. */
  predicate Bounds(uses: seq<Use>, after: Option<int>, before: Option<int>, ms: int) {
    (forall u | u in uses :: Allows(u, ms)) <==>
      (after.Some? ==> after.value <= ms) && (before.Some? ==> ms < before.value)
  }

  function Latest(a: Option<int>, b: int): Option<int> {
    if a.None? || a.value < b then Some(b) else a
  }

  function Earliest(a: Option<int>, b: int): Option<int> {
    if a.None? || b < a.value then Some(b) else a
  }

  lemma BoundsStep(uses: seq<Use>, after: Option<int>, before: Option<int>, u: Use, after': Option<int>,
                   before': Option<int>)
    requires forall ms :: Bounds(uses, after, before, ms)
    requires after' == if u.After? || u.On? then Latest(after, u.start) else after
    requires before' == if u.Before? then Earliest(before, u.start)
             else if u.On? then Earliest(before, u.start + MS_A_DAY) else before
    ensures forall ms :: Bounds(uses + [u], after', before', ms)
  {
    forall ms ensures Bounds(uses + [u], after', before', ms) {
      assert Bounds(uses, after, before, ms);
      assert (forall v | v in uses + [u] :: Allows(v, ms)) <==>
               (forall v | v in uses :: Allows(v, ms)) && Allows(u, ms) by {
        assert u in uses + [u];
        assert forall v | v in uses :: v in uses + [u];
      }
    }
  }

  // What the loop over the tokens has gathered.
  datatype Gathered = Gathered(from: seq<string>, places: seq<string>, words: seq<string>, hasFile: bool, hasLink: bool,
                               hasFilters: bool, after: Option<int>, before: Option<int>)

  /** One turn of the loop. */
  function Gather(g: Gathered, u: Use): Gathered {
    var h := g.(hasFilters := g.hasFilters || !u.Word?);
    match u
    case Word(w) => h.(words := g.words + [w])
    case From(person) => h.(from := g.from + [person])
    case In(place) => h.(places := g.places + [place])
    case HasFile => h.(hasFile := true)
    case HasLink => h.(hasLink := true)
    case After(start) => h.(after := Latest(g.after, start))
    case Before(start) => h.(before := Earliest(g.before, start))
    case On(start) => h.(after := Latest(g.after, start), before := Earliest(g.before, start + MS_A_DAY))
  }

  ghost predicate SomeFilter(uses: seq<Use>) {
    exists u :: u in uses && !u.Word?
  }

  /** Some accepted filter begins there. */
  ghost predicate Begins(uses: seq<Use>, ms: int) {
    exists u :: u in uses && (u.After? || u.On?) && u.start == ms
  }

  ghost predicate Ends(uses: seq<Use>, ms: int) {
    exists u :: u in uses && ((u.Before? && u.start == ms) || (u.On? && u.start + MS_A_DAY == ms))
  }

  ghost predicate Sums(uses: seq<Use>, g: Gathered) {
    && g.from == People(uses) && g.places == Places(uses) && g.words == Words(uses)
    && (g.hasFile <==> HasFile in uses) && (g.hasLink <==> HasLink in uses) && (g.hasFilters <==> SomeFilter(uses))
    && (forall ms :: Bounds(uses, g.after, g.before, ms))
    && (g.after.Some? ==> Begins(uses, g.after.value)) && (g.before.Some? ==> Ends(uses, g.before.value))
  }

  lemma SumsStep(uses: seq<Use>, g: Gathered, u: Use)
    requires Sums(uses, g)
    ensures Sums(uses + [u], Gather(g, u))
  {
    var all := uses + [u];
    var g' := Gather(g, u);
    assert all[..|uses|] == uses;
    BoundsStep(uses, g.after, g.before, u, g'.after, g'.before);
    hide Bounds, Allows;
    assert u in all && forall v | v in uses :: v in all;
    MoreEnds(uses, u);
    hide Begins, Ends;
  }

  lemma MoreEnds(uses: seq<Use>, u: Use)
    ensures forall ms :: Begins(uses, ms) ==> Begins(uses + [u], ms)
    ensures forall ms :: Ends(uses, ms) ==> Ends(uses + [u], ms)
    ensures u.After? || u.On? ==> Begins(uses + [u], u.start)
    ensures u.Before? ==> Ends(uses + [u], u.start)
    ensures u.On? ==> Ends(uses + [u], u.start + MS_A_DAY)
  {
    assert u in uses + [u] && forall v | v in uses :: v in uses + [u];
  }

  /** An instant lies between the query's bounds exactly when it satisfies every date filter accepted,
      and each bound is one filter's; people, places and words are kept in order, and has: filters are
      either on or off. */
  ghost predicate Answers(q: Query, uses: seq<Use>) {
    && (forall ms :: InWindow(q, ms) <==> forall u | u in uses :: Allows(u, ms))
    && (q.after.Some? ==> Begins(uses, q.after.value)) && (q.before.Some? ==> Ends(uses, q.before.value))
    && q.from == People(uses) && q.places == Places(uses)
    && (q.hasFile <==> HasFile in uses) && (q.hasLink <==> HasLink in uses)
    && q.text == Trim(Spaced(Words(uses)))
    && (q.hasFilters <==> SomeFilter(uses))
  }

  function QueryOf(g: Gathered): Query {
    Query(Trim(Spaced(g.words)), g.from, g.places, g.hasFile, g.hasLink, g.after, g.before, g.hasFilters)
  }

  lemma SumsAnswer(uses: seq<Use>, g: Gathered)
    requires Sums(uses, g)
    ensures Answers(QueryOf(g), uses)
  {
    hide Begins, Ends, Allows, SomeFilter, Trim, Spaced;
    var q := QueryOf(g);
    forall ms ensures InWindow(q, ms) <==> forall u | u in uses :: Allows(u, ms) {
      assert Bounds(uses, g.after, g.before, ms);
    }
  }

  method ParseSearchQuery(raw: string, tzOffset: Option<int>) returns (q: Query)
    ensures Answers(q, Uses(Tokens(raw), Zone(tzOffset)))
  {
    hide Sums, UseOf, Answers, Tokens;
    var tz := Zone(tzOffset);
    var tokens := Tokenize(raw);
    var g := Gathered([], [], [], false, false, false, None, None);
    NothingGathered(g);
    for i := 0 to |tokens|
      invariant Sums(Uses(tokens[..i], tz), g)
    {
      SumsStep(Uses(tokens[..i], tz), g, UseOf(tokens[i], tz));
      assert tokens[..i + 1][..i] == tokens[..i];
      g := Gather(g, UseOf(tokens[i], tz));
    }
    assert tokens[..|tokens|] == tokens;
    SumsAnswer(Uses(tokens, tz), g);
    q := QueryOf(g);
  }

  lemma NothingGathered(g: Gathered)
    requires g == Gathered([], [], [], false, false, false, None, None)
    ensures Sums([], g)
  {
  }

  // ---------------------------------------------------------------------------- nothing is dropped

  ghost predicate Holds(text: string, part: string) {
    exists p, s :: text == p + part + s
  }

  /** No blank at either end. */
  predicate Tight(s: string) {
    s != "" && !Blank(s[0]) && !Blank(s[|s| - 1])
  }

  lemma {:induction false} TrimStartKeeps(p: string, x: string)
    requires x != "" && !Blank(x[0])
    ensures exists p' :: TrimStart(p + x) == p' + x
    decreases |p|
  {
    if p != "" && Blank(p[0]) {
      assert (p + x)[1..] == p[1..] + x;
      TrimStartKeeps(p[1..], x);
    } else {
      assert p == "" ==> p + x == x;
      assert TrimStart(p + x) == p + x;
    }
  }

  lemma {:induction false} TrimEndKeeps(x: string, s: string)
    requires x != "" && !Blank(x[|x| - 1])
    ensures exists s' :: TrimEnd(x + s) == x + s'
    decreases |s|
  {
    if s != "" && Blank(s[|s| - 1]) {
      assert (x + s)[..|x + s| - 1] == x + s[..|s| - 1];
      TrimEndKeeps(x, s[..|s| - 1]);
    } else {
      assert s == "" ==> x + s == x;
      assert TrimEnd(x + s) == x + s;
    }
  }

  /** Trimming takes away nothing that has no blank at its ends. */
  lemma TrimKeeps(p: string, x: string, s: string)
    requires Tight(x)
    ensures Holds(Trim(p + x + s), x)
  {
    hide Blank;
    assert p + x + s == p + (x + s);
    TrimStartKeeps(p, x + s);
    var p' :| TrimStart(p + x + s) == p' + (x + s);
    assert p' + (x + s) == (p' + x) + s;
    assert (p' + x)[|p' + x| - 1] == x[|x| - 1];
    TrimEndKeeps(p' + x, s);
    var s' :| TrimEnd((p' + x) + s) == p' + x + s';
  }

  lemma TrimParts(w: string)
    ensures exists p, s :: w == p + Trim(w) + s
    ensures Trim(w) == "" || Tight(Trim(w))
  {
    StartParts(w);
    EndParts(TrimStart(w));
    hide TrimStart, TrimEnd, Blank;
    var p :| w == p + TrimStart(w);
    var s :| TrimStart(w) == Trim(w) + s;
    Associate(p, Trim(w), s);
  }

  lemma Associate(p: string, x: string, s: string)
    ensures p + (x + s) == p + x + s
  {
  }

  lemma {:induction false} StartParts(w: string)
    ensures exists p :: w == p + TrimStart(w)
    ensures TrimStart(w) == "" || !Blank(TrimStart(w)[0])
  {
    hide Blank;
    if w != "" && Blank(w[0]) {
      StartParts(w[1..]);
      var p :| w[1..] == p + TrimStart(w[1..]);
      assert w == ([w[0]] + p) + TrimStart(w);
    } else {
      assert w == "" + TrimStart(w);
    }
  }

  lemma {:induction false} EndParts(w: string)
    requires w == "" || !Blank(w[0])
    ensures exists s :: w == TrimEnd(w) + s
    ensures TrimEnd(w) == "" || (TrimEnd(w)[0] == w[0] && !Blank(TrimEnd(w)[|TrimEnd(w)| - 1]))
    decreases |w|
  {
    hide Blank;
    if w != "" && Blank(w[|w| - 1]) {
      var init := w[..|w| - 1];
      EndParts(init);
      var s :| init == TrimEnd(init) + s;
      assert w == TrimEnd(w) + (s + [w[|w| - 1]]);
    } else {
      assert w == TrimEnd(w) + "";
    }
  }

  lemma {:induction false} SpacedParts(words: seq<string>, k: nat)
    requires k < |words|
    ensures exists p, s :: Spaced(words) == p + words[k] + s
    decreases |words|
  {
    if |words| == 1 {
      assert Spaced(words) == "" + words[k] + "";
    } else if k == |words| - 1 {
      assert Spaced(words) == (Spaced(words[..k]) + " ") + words[k] + "";
    } else {
      var init := words[..|words| - 1];
      SpacedParts(init, k);
      var p, s :| Spaced(init) == p + words[k] + s;
      assert Spaced(words) == p + words[k] + (s + " " + words[|words| - 1]);
    }
  }

  lemma {:induction false} WordsOf(uses: seq<Use>, w: string)
    ensures w in Words(uses) <==> Word(w) in uses
  {
    if uses != [] {
      WordsOf(uses[..|uses| - 1], w);
      assert uses == uses[..|uses| - 1] + [uses[|uses| - 1]];
    }
  }

  /** Every token becomes a filter or its text is found, to its outer blanks, in the query's text:
      an unknown key or a date that is none stays as it was typed. */
  lemma NothingIsDropped(tokens: seq<Token>, tz: int, t: Token)
    requires t in tokens
    ensures UseOf(t, tz).Word? ==>
      var w := Trim(UseOf(t, tz).word);
      w == "" || Holds(Trim(Spaced(Words(Uses(tokens, tz)))), w)
    ensures !UseOf(t, tz).Word? ==> UseOf(t, tz) in Uses(tokens, tz)
  {
    UsesOf(tokens, tz, t);
    hide UseOf, Uses, Trim, Spaced, Holds;
    var u := UseOf(t, tz);
    if u.Word? {
      var words := Words(Uses(tokens, tz));
      WordsOf(Uses(tokens, tz), u.word);
      var k :| 0 <= k < |words| && words[k] == u.word;
      WordKept(words, k);
    }
  }

  lemma WordKept(words: seq<string>, k: nat)
    requires k < |words|
    ensures Trim(words[k]) == "" || Holds(Trim(Spaced(words)), Trim(words[k]))
  {
    var w := words[k];
    SpacedParts(words, k);
    TrimParts(w);
    hide Trim, Spaced, Holds, Tight;
    var p, s :| Spaced(words) == p + w + s;
    var p', s' :| w == p' + Trim(w) + s';
    if Trim(w) != "" {
      TrimKeeps(p + p', Trim(w), s' + s);
      Regroup(p, p', Trim(w), s', s);
    }
  }

  lemma Regroup(p: string, q: string, x: string, r: string, s: string)
    ensures p + (q + x + r) + s == (p + q) + x + (r + s)
  {
  }

  lemma {:induction false} UsesOf(tokens: seq<Token>, tz: int, t: Token)
    requires t in tokens
    ensures UseOf(t, tz) in Uses(tokens, tz)
  {
    hide UseOf;
    if t != tokens[|tokens| - 1] { UsesOf(tokens[..|tokens| - 1], tz, t); }
  }

  // ---------------------------------------------------------------------------- what a query means

  /** The token is this key with a real date from the year 100 on, whose day starts then in that time zone. */
  predicate Dated(t: Token, key: string, tz: int, start: int) {
    t.Keyed? && t.key == key &&
    var d := DateShape(Trim(t.value));
    d.Some? && d.value.year >= 100 && Real(d.value) && start == DayOf(d.value) * 86400000 + tz * 60000
  }

  predicate NamesDay(t: Token, key: string) {
    t.Keyed? && t.key == key && var d := DateShape(Trim(t.value)); d.Some? && d.value.year >= 100 && Real(d.value)
  }

  predicate Says(t: Token, key: string) {
    t.Keyed? && t.key == key && Trim(t.value) != ""
  }

  predicate Has(t: Token, what: string) {
    t.Keyed? && t.key == "has" && Lower(Trim(t.value)) == what
  }

  predicate IsFilter(t: Token) {
    Says(t, "from") || Says(t, "in") || Has(t, "file") || Has(t, "link") || NamesDay(t, "after")
      || NamesDay(t, "before") || NamesDay(t, "on")
  }

  /** The trimmed values said for a key, in order. */
  function Said(tokens: seq<Token>, key: string): seq<string> {
    if tokens == [] then []
    else Said(tokens[..|tokens| - 1], key)
           + if Says(tokens[|tokens| - 1], key) then [Trim(tokens[|tokens| - 1].value)] else []
  }

  /** The tokens that are no filters, a phrase without its quotes, the rest as typed. */
  function Left(tokens: seq<Token>): seq<string> {
    if tokens == [] then []
    else
      var t := tokens[|tokens| - 1];
      Left(tokens[..|tokens| - 1]) + if IsFilter(t) then [] else [if t.Plain? then t.text else t.raw]
  }

  /** An instant keeps to the date the token names, if it names one. */
  ghost predicate Keeps(t: Token, tz: int, ms: int) {
    && (forall start | Dated(t, "after", tz, start) :: start <= ms)
    && (forall start | Dated(t, "before", tz, start) :: ms < start)
    && (forall start | Dated(t, "on", tz, start) :: start <= ms < start + 86400000)
  }

  lemma DayLaw(t: Token, key: string, tz: int)
    requires t.Keyed?
    ensures NamesDay(t, key) <==> t.key == key && LocalDayStart(Trim(t.value), tz).Some?
    ensures forall start ::
              Dated(t, key, tz, start) <==> t.key == key && LocalDayStart(Trim(t.value), tz) == Some(start)
  {
    AcceptsRealDays(Trim(t.value), tz);
    hide Trim, DateShape, Real, DayOf, LocalDayStart;
  }

  lemma UseLaw(t: Token, tz: int)
    ensures var u := UseOf(t, tz);
            && (u.From? <==> Says(t, "from")) && (u.From? ==> u.person == Trim(t.value))
            && (u.In? <==> Says(t, "in")) && (u.In? ==> u.place == Trim(t.value))
            && (u.HasFile? <==> Has(t, "file")) && (u.HasLink? <==> Has(t, "link"))
            && (u.Word? <==> !IsFilter(t)) && (u.Word? ==> u.word == if t.Plain? then t.text else t.raw)
    ensures forall ms :: Allows(UseOf(t, tz), ms) <==> Keeps(t, tz, ms)
  {
    if t.Plain? {
      PlainIsNone(t);
    } else {
      DayLaw(t, "after", tz);
      DayLaw(t, "before", tz);
      DayLaw(t, "on", tz);
      hide Trim, Lower, LocalDayStart, NamesDay, Dated;
    }
  }

  lemma PlainIsNone(t: Token)
    requires t.Plain?
    ensures !IsFilter(t) && !Says(t, "from") && !Says(t, "in") && !Has(t, "file") && !Has(t, "link")
    ensures forall tz, ms :: Keeps(t, tz, ms)
  {
    hide Trim, Lower, DateShape, DayOf, Real;
  }

  lemma {:induction false} UsesAre(tokens: seq<Token>, tz: int)
    ensures forall u :: u in Uses(tokens, tz) <==> exists t :: t in tokens && UseOf(t, tz) == u
  {
    hide UseOf;
    if tokens != [] {
      var init, t := tokens[..|tokens| - 1], tokens[|tokens| - 1];
      UsesAre(init, tz);
      assert tokens == init + [t];
    }
  }

  lemma {:induction false} UsesSay(tokens: seq<Token>, tz: int)
    ensures People(Uses(tokens, tz)) == Said(tokens, "from") && Places(Uses(tokens, tz)) == Said(tokens, "in")
            && Words(Uses(tokens, tz)) == Left(tokens)
  {
    if tokens != [] {
      var init, t := tokens[..|tokens| - 1], tokens[|tokens| - 1];
      UsesSay(init, tz);
      UseLaw(t, tz);
      OneMore(Uses(init, tz), UseOf(t, tz));
      hide UseOf, Says, Has, IsFilter, Trim, Keeps, Allows, People, Places, Words;
    }
  }

  lemma OneMore(uses: seq<Use>, u: Use)
    ensures People(uses + [u]) == People(uses) + if u.From? then [u.person] else []
    ensures Places(uses + [u]) == Places(uses) + if u.In? then [u.place] else []
    ensures Words(uses + [u]) == Words(uses) + if u.Word? then [u.word] else []
  {
    assert (uses + [u])[..|uses|] == uses;
  }

  /** From what was typed: an instant is in the window exactly when it keeps to every date said; the people,
      the places and the has: filters are those said; and the text is the rest, as it was typed. */
  lemma QueryMeans(q: Query, raw: string, offset: Option<int>)
    requires Answers(q, Uses(Tokens(raw), Zone(offset)))
    ensures var tokens := Tokens(raw);
            var tz := if offset.Some? && -840 <= offset.value <= 840 then offset.value else 0;
            && (forall ms :: InWindow(q, ms) <==> forall t | t in tokens :: Keeps(t, tz, ms))
            && q.from == Said(tokens, "from") && q.places == Said(tokens, "in")
            && (q.hasFile <==> exists t :: t in tokens && Has(t, "file"))
            && (q.hasLink <==> exists t :: t in tokens && Has(t, "link"))
            && q.text == Trim(Spaced(Left(tokens)))
            && (q.hasFilters <==> exists t :: t in tokens && IsFilter(t))
  {
    var tokens, tz := Tokens(raw), Zone(offset);
    UsesAre(tokens, tz);
    UsesSay(tokens, tz);
    forall t | t in tokens ensures UseOf(t, tz) in Uses(tokens, tz) && (UseOf(t, tz).Word? <==> !IsFilter(t))
        && (UseOf(t, tz).HasFile? <==> Has(t, "file")) && (UseOf(t, tz).HasLink? <==> Has(t, "link"))
        && forall ms :: Allows(UseOf(t, tz), ms) <==> Keeps(t, tz, ms) {
      UseLaw(t, tz);
    }
    hide Tokens, Uses, UseOf, Keeps, Allows, Has, IsFilter, Trim, Spaced, InWindow;
    if u :| u in Uses(tokens, tz) && !u.Word? {
      var t :| t in tokens && UseOf(t, tz) == u;
    }
  }

  /** Trimming takes the blanks at both ends, and those alone. */
  lemma TrimIs(p: string, x: string, s: string)
    requires AllBlank(p) && AllBlank(s) && (x == "" || Tight(x))
    ensures Trim(p + x + s) == x
  {
    hide Blank;
    if x == "" {
      assert p + x + s == (p + s) + "";
      SkipsStart(p + s, "");
    } else {
      assert p + x + s == p + (x + s);
      SkipsStart(p, x + s);
      SkipsEnd(x, s);
    }
  }

  lemma {:induction false} SkipsStart(p: string, y: string)
    requires AllBlank(p) && (y == "" || !Blank(y[0]))
    ensures TrimStart(p + y) == y
  {
    hide Blank;
    if p != "" {
      SkipsStart(p[1..], y);
      assert (p + y)[1..] == p[1..] + y;
    } else {
      assert p + y == y;
    }
  }

  lemma {:induction false} SkipsEnd(x: string, s: string)
    requires AllBlank(s) && x != "" && !Blank(x[|x| - 1])
    ensures TrimEnd(x + s) == x
    decreases |s|
  {
    hide Blank;
    if s != "" {
      SkipsEnd(x, s[..|s| - 1]);
      assert (x + s)[..|x + s| - 1] == x + s[..|s| - 1];
    } else {
      assert x + s == x;
    }
  }

  lemma {:induction false} SpacedIs(word: string, words: seq<string>)
    requires words != []
    ensures Spaced([word]) == word && Spaced([word] + words) == word + " " + Spaced(words)
    decreases |words|
  {
    var all := [word] + words;
    if |words| == 1 {
      assert all[..1] == [word];
    } else {
      var init := words[..|words| - 1];
      SpacedIs(word, init);
      assert all[..|all| - 1] == [word] + init;
    }
  }
}
