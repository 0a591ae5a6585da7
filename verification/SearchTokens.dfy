/** How the search bar splits what is typed into tokens. */
module SearchTokens {
  /** The white space of \s, \S and trim. */
  predicate Blank(c: char) {
    c in "\t\n\U{000B}\U{000C}\r \U{00A0}\U{1680}\U{2028}\U{2029}\U{202F}\U{205F}\U{3000}\U{FEFF}"
      || '\U{2000}' <= c <= '\U{200A}'
  }

  predicate Letter(c: char) {
    'a' <= c <= 'z' || 'A' <= c <= 'Z'
  }

  function Blanks(s: string): (n: nat)
    ensures n <= |s| && (forall i | 0 <= i < n :: Blank(s[i])) && (n < |s| ==> !Blank(s[n]))
  {
    if s == "" || !Blank(s[0]) then 0 else 1 + Blanks(s[1..])
  }

  function LetterRun(s: string): (n: nat)
    ensures n <= |s| && (forall i | 0 <= i < n :: Letter(s[i])) && (n < |s| ==> !Letter(s[n]))
  {
    if s == "" || !Letter(s[0]) then 0 else 1 + LetterRun(s[1..])
  }

  function WordRun(s: string): (n: nat)
    ensures n <= |s| && (forall i | 0 <= i < n :: !Blank(s[i])) && (n < |s| ==> Blank(s[n]))
  {
    if s == "" || Blank(s[0]) then 0 else 1 + WordRun(s[1..])
  }

  /** Where the next quote is, or the length when there is none. */
  function QuoteAt(s: string): (n: nat)
    ensures n <= |s| && (forall i | 0 <= i < n :: s[i] != '"') && (n < |s| ==> s[n] == '"')
  {
    if s == "" || s[0] == '"' then 0 else 1 + QuoteAt(s[1..])
  }

  datatype Token = Keyed(key: string, value: string, raw: string) | Plain(text: string, raw: string)

  /** Lower case as far as it can end in a letter a to z: U+212A is the Kelvin sign. */
  function LowerChar(c: char): char {
    if 'A' <= c <= 'Z' then 'a' + (c - 'A') else if c == '\U{212A}' then 'k' else c
  }

  function Lower(s: string): string {
    if s == "" then "" else [LowerChar(s[0])] + Lower(s[1..])
  }

  /** Letters and a colon come first. */
  predicate StartsKey(s: string) {
    var k := LetterRun(s);
    k > 0 && k + 1 < |s| && s[k] == ':'
  }

  /** ([A-Za-z]+):"([^"]*)" */
  predicate IsQuotedKey(s: string) {
    StartsKey(s) && var k := LetterRun(s); s[k + 1] == '"' && k + 2 + QuoteAt(s[k + 2..]) < |s|
  }

  function TakeQuotedKey(s: string): (t: Token)
    requires IsQuotedKey(s)
    ensures t.raw != "" && t.raw <= s
  {
    var k := LetterRun(s);
    var q := k + 2 + QuoteAt(s[k + 2..]);
    Keyed(Lower(s[..k]), s[k + 2..q], s[..q + 1])
  }

  /** ([A-Za-z]+):(\S+) */
  predicate IsKey(s: string) {
    StartsKey(s) && !Blank(s[LetterRun(s) + 1])
  }

  function TakeKey(s: string): (t: Token)
    requires IsKey(s)
    ensures t.raw != "" && t.raw <= s
  {
    var k := LetterRun(s);
    var n := WordRun(s[k + 1..]);
    Keyed(Lower(s[..k]), s[k + 1..][..n], s[..k + 1 + n])
  }

  /** "([^"]*)" */
  predicate IsPhrase(s: string) {
    s != "" && s[0] == '"' && 1 + QuoteAt(s[1..]) < |s|
  }

  function TakePhrase(s: string): (t: Token)
    requires IsPhrase(s)
    ensures t.raw != "" && t.raw <= s
  {
    var p := 1 + QuoteAt(s[1..]);
    Plain(s[1..p], s[..p + 1])
  }

  /** (\S+) */
  function TakeWord(s: string): (t: Token)
    requires s != "" && !Blank(s[0])
    ensures t.raw != "" && t.raw <= s
  {
    Plain(s[..WordRun(s)], s[..WordRun(s)])
  }

  /** The alternatives in the order they are tried. */
  function First(s: string): (t: Token)
    requires s != "" && !Blank(s[0])
    ensures t.raw != "" && t.raw <= s
  {
    if IsQuotedKey(s) then TakeQuotedKey(s)
      else if IsKey(s) then TakeKey(s) else if IsPhrase(s) then TakePhrase(s) else TakeWord(s)
  }

  function Tokens(s: string): seq<Token>
    decreases |s|
  {
    var rest := s[Blanks(s)..];
    if rest == "" then [] else [First(rest)] + Tokens(rest[|First(rest).raw|..])
  }

  /** The scan of tokenize, from where the last match ended. */
  method Tokenize(raw: string) returns (tokens: seq<Token>)
    ensures tokens == Tokens(raw)
  {
    hide First, Blank;
    tokens := [];
    var rest := raw;
    while true
      invariant Tokens(raw) == tokens + Tokens(rest)
      decreases |rest|
    {
      rest := rest[Blanks(rest)..];
      if rest == "" { break; }
      var t := First(rest);
      tokens := tokens + [t];
      rest := rest[|t.raw|..];
    }
  }

  /** The query is the tokens' raw texts in order, with nothing but blanks before, between and after. */
  predicate Covers(s: string, tokens: seq<Token>) {
    if tokens == [] then AllBlank(s)
    else
      var n := |s| - |s[Blanks(s)..]|;
      tokens[0].raw != "" && tokens[0].raw <= s[n..] && Covers(s[n..][|tokens[0].raw|..], tokens[1..])
  }

  predicate AllBlank(s: string) {
    forall i | 0 <= i < |s| :: Blank(s[i])
  }

  lemma {:induction false} TokensCover(s: string)
    ensures Covers(s, Tokens(s))
    decreases |s|
  {
    var rest := s[Blanks(s)..];
    if rest != "" {
      TokensCover(rest[|First(rest).raw|..]);
      assert Tokens(s)[1..] == Tokens(rest[|First(rest).raw|..]);
    }
  }

  predicate AllLetters(s: string) {
    forall i | 0 <= i < |s| :: Letter(s[i])
  }

  predicate NoBlanks(s: string) {
    forall i | 0 <= i < |s| :: !Blank(s[i])
  }

  /** What each kind of token was written as. */
  ghost predicate WellFormed(t: Token) {
    match t
    case Keyed(key, value, raw) =>
      exists k :: k != "" && AllLetters(k) && Lower(k) == key &&
        ((raw == k + ":\"" + value + "\"" && '"' !in value)
        || (raw == k + ":" + value && value != "" && NoBlanks(value)))
    case Plain(text, raw) =>
      (raw == "\"" + text + "\"" && '"' !in text) || (raw == text && text != "" && NoBlanks(text))
  }

  lemma FirstWellFormed(s: string)
    requires s != "" && !Blank(s[0])
    ensures WellFormed(First(s))
  {
    hide WellFormed, IsQuotedKey, IsKey, IsPhrase, TakeQuotedKey, TakeKey, TakePhrase, TakeWord, Blank;
    if IsQuotedKey(s) { QuotedKeyForm(s); }
      else if IsKey(s) { KeyForm(s); } else if IsPhrase(s) { PhraseForm(s); } else { WordForm(s); }
  }

  lemma QuotedKeyForm(s: string)
    requires IsQuotedKey(s)
    ensures WellFormed(TakeQuotedKey(s))
  {
    hide Blank, Letter, Lower;
    var n := LetterRun(s);
    var k, tail := s[..n], s[n + 2..];
    var v := tail[..QuoteAt(tail)];
    assert '"' !in v;
    assert AllLetters(k);
    var t := TakeQuotedKey(s);
    assert t.value == v;
    assert t.raw == k + ":\"" + v + "\"";
  }

  lemma KeyForm(s: string)
    requires IsKey(s)
    ensures WellFormed(TakeKey(s))
  {
    hide Blank, Letter, Lower;
    var n := LetterRun(s);
    var k := s[..n];
    assert AllLetters(k);
    var t := TakeKey(s);
    assert t.raw == k + ":" + t.value;
  }

  lemma PhraseForm(s: string)
    requires IsPhrase(s)
    ensures WellFormed(TakePhrase(s))
  {
    var tail := s[1..];
    var v := tail[..QuoteAt(tail)];
    var t := TakePhrase(s);
    assert t.text == v && '"' !in v;
    assert t.raw == "\"" + v + "\"";
  }

  lemma WordForm(s: string)
    requires s != "" && !Blank(s[0])
    ensures WellFormed(TakeWord(s))
  {
    hide Blank;
  }

  lemma {:induction false} TokensWellFormed(s: string)
    ensures forall t | t in Tokens(s) :: WellFormed(t)
    decreases |s|
  {
    hide WellFormed;
    var rest := s[Blanks(s)..];
    if rest != "" {
      FirstWellFormed(rest);
      TokensWellFormed(rest[|First(rest).raw|..]);
    }
  }

  // ---------------------------------------------------------------------------- what is written is read back

  // Nothing, or a blank, comes next.
  predicate WordEnds(rest: string) {
    rest == "" || Blank(rest[0])
  }

  lemma LetterRunIs(k: string, x: string)
    requires AllLetters(k) && (x == "" || !Letter(x[0]))
    ensures LetterRun(k + x) == |k|
  {
    hide Letter;
    assert forall i | 0 <= i < |k| :: (k + x)[i] == k[i];
    assert x != "" ==> (k + x)[|k|] == x[0];
  }

  lemma QuoteAtIs(v: string, x: string)
    requires '"' !in v && x != "" && x[0] == '"'
    ensures QuoteAt(v + x) == |v|
  {
    assert forall i | 0 <= i < |v| :: (v + x)[i] == v[i];
    assert x != "" ==> (v + x)[|v|] == x[0];
  }

  lemma NoQuoteAt(s: string)
    requires '"' !in s
    ensures QuoteAt(s) == |s|
  {
  }

  lemma WordRunIs(w: string, x: string)
    requires NoBlanks(w) && WordEnds(x)
    ensures WordRun(w + x) == |w|
  {
    hide Blank;
    assert forall i | 0 <= i < |w| :: (w + x)[i] == w[i];
    assert x != "" ==> (w + x)[|w|] == x[0];
  }

  /** letters:"anything but quotes" is one filter, whatever follows. */
  lemma QuotedKeyFirst(k: string, v: string, rest: string)
    requires k != "" && AllLetters(k) && '"' !in v
    ensures First(k + ":\"" + v + "\"" + rest) == Keyed(Lower(k), v, k + ":\"" + v + "\"")
  {
    hide *;
    var s, after := k + ":\"" + v + "\"" + rest, v + ("\"" + rest);
    Regrouped(k, v, rest);
    AfterKey(k, "\"" + after);
    QuoteAtIs(v, "\"" + rest);
    Slices(k, ":\"", v, "\"", rest);
    assert s[|k| + 1] == '"' && s[|k| + 2..] == after;
    TakesQuotedKey(s);
    QuotedKeyIs(s, |k|, |v|);
  }

  lemma Slices(a: string, b: string, c: string, d: string, e: string)
    ensures var s := a + b + c + d + e;
            && s[..|a|] == a && s[|a|..|a| + |b|] == b && s[|a| + |b|..|a| + |b| + |c|] == c
            && s[..|a| + |b| + |c| + |d|] == a + b + c + d && s[|a| + |b|..] == c + (d + e)
            && s[|a|..] == b + (c + (d + e))
  {
  }

  lemma Regrouped(k: string, v: string, rest: string)
    ensures k + ":\"" + v + "\"" + rest == k + (":" + ("\"" + (v + ("\"" + rest))))
  {
  }

  lemma TakesQuotedKey(s: string)
    requires StartsKey(s) && LetterRun(s) + 2 <= |s| && s[LetterRun(s) + 1] == '"'
    requires LetterRun(s) + 2 + QuoteAt(s[LetterRun(s) + 2..]) < |s|
    ensures IsQuotedKey(s) && s != "" && !Blank(s[0]) && First(s) == TakeQuotedKey(s)
  {
    hide Letter, Blank, TakeQuotedKey, TakeKey, IsKey;
    FirstLetter(s);
  }

  lemma QuotedKeyIs(s: string, k: nat, v: nat)
    requires IsQuotedKey(s) && LetterRun(s) == k && k + 2 + v < |s| && QuoteAt(s[k + 2..]) == v
    ensures TakeQuotedKey(s) == Keyed(Lower(s[..k]), s[k + 2..k + 2 + v], s[..k + 2 + v + 1])
  {
    hide Letter, Lower, Blank, IsQuotedKey, StartsKey, LetterRun, QuoteAt;
  }

  /** Letters, a colon and something come first. */
  lemma AfterKey(k: string, after: string)
    requires k != "" && AllLetters(k) && after != ""
    ensures var s := k + (":" + after); LetterRun(s) == |k| && StartsKey(s) && |k| + 2 <= |s|
  {
    hide Letter, Blank;
    NoLetters();
    LetterRunIs(k, ":" + after);
  }

  lemma NoLetters()
    ensures !Letter(':') && !Letter('"') && !Blank(':') && !Blank('"') && Blank(' ')
    ensures forall c: char :: Letter(c) ==> !Blank(c) && c != '"'
  {
  }

  /** letters:word is one filter, unless a quote opens there and is closed. */
  lemma KeyFirst(k: string, v: string, rest: string)
    requires k != "" && AllLetters(k) && v != "" && NoBlanks(v) && WordEnds(rest)
    requires v[0] == '"' ==> '"' !in v[1..] + rest
    ensures First(k + ":" + v + rest) == Keyed(Lower(k), v, k + ":" + v)
  {
    hide *;
    var s := k + ":" + v + rest;
    KeySlices(k, v, rest);
    AfterKey(k, v + rest);
    WordRunIs(v, rest);
    if v[0] == '"' { NoQuoteAt(v[1..] + rest); }
    FirstNotBlank(v);
    TakesKey(s);
    KeyIs(s, |k|, |v|);
  }

  lemma KeySlices(k: string, v: string, rest: string)
    requires v != ""
    ensures var s := k + ":" + v + rest;
            && |s| == |k| + 1 + |v| + |rest| && s == k + (":" + (v + rest)) && s[..|k|] == k
            && s[|k| + 1..] == v + rest && s[|k| + 1..|k| + 1 + |v|] == v
            && s[..|k| + 1 + |v|] == k + ":" + v && s[|k| + 1] == v[0] && s[|k| + 2..] == v[1..] + rest
  {
    var s := k + ":" + v + rest;
    assert s[|k| + 2..] == (v + rest)[1..];
  }

  lemma FirstNotBlank(v: string)
    requires v != "" && NoBlanks(v)
    ensures !Blank(v[0])
  {
  }

  lemma TakesKey(s: string)
    requires StartsKey(s) && LetterRun(s) + 2 <= |s| && !Blank(s[LetterRun(s) + 1])
    requires s[LetterRun(s) + 1] == '"' ==> QuoteAt(s[LetterRun(s) + 2..]) == |s[LetterRun(s) + 2..]|
    ensures IsKey(s) && s != "" && !Blank(s[0]) && First(s) == TakeKey(s)
  {
    hide Letter, Blank, TakeQuotedKey, TakeKey;
    FirstLetter(s);
  }

  lemma FirstLetter(s: string)
    requires StartsKey(s)
    ensures s != "" && !Blank(s[0])
  {
    hide Letter, Blank;
    NoLetters();
  }

  lemma KeyIs(s: string, k: nat, v: nat)
    requires IsKey(s) && LetterRun(s) == k && k + 1 + v <= |s| && WordRun(s[k + 1..]) == v
    ensures TakeKey(s) == Keyed(Lower(s[..k]), s[k + 1..k + 1 + v], s[..k + 1 + v])
  {
    hide Letter, Lower, Blank, IsKey, StartsKey, LetterRun, WordRun;
    assert s[k + 1..][..v] == s[k + 1..k + 1 + v];
  }

  /** A text between quotes is one phrase. */
  lemma PhraseFirst(v: string, rest: string)
    requires '"' !in v
    ensures First("\"" + v + "\"" + rest) == Plain(v, "\"" + v + "\"")
  {
    hide Letter, Lower, Blank;
    var s := "\"" + v + "\"" + rest;
    NoLetters();
    assert s[0] == '"' && LetterRun(s) == 0;
    assert s[1..] == v + ("\"" + rest);
    QuoteAtIs(v, "\"" + rest);
    assert s[1..1 + |v|] == v && s[..1 + |v| + 1] == "\"" + v + "\"";
  }

  // Letters, a colon and more.
  predicate LooksKeyed(w: string) {
    exists n :: 0 < n && n + 1 < |w| && AllLetters(w[..n]) && w[n] == ':'
  }

  /** Anything else up to a blank is a word. */
  lemma WordFirst(w: string, rest: string)
    requires w != "" && NoBlanks(w) && WordEnds(rest) && !LooksKeyed(w)
    requires w[0] == '"' ==> '"' !in w[1..] + rest
    ensures First(w + rest) == Plain(w, w)
  {
    hide Letter, Lower, Blank;
    var s := w + rest;
    NoLetters();
    if StartsKey(s) { NotAKey(w, rest); }
    if w[0] == '"' {
      assert s[1..] == w[1..] + rest;
      NoQuoteAt(w[1..] + rest);
    }
    WordRunIs(w, rest);
    assert s[..|w|] == w;
  }

  lemma NotAKey(w: string, rest: string)
    requires w != "" && NoBlanks(w) && WordEnds(rest) && !LooksKeyed(w) && StartsKey(w + rest)
    ensures !IsQuotedKey(w + rest) && !IsKey(w + rest)
  {
    hide Letter, Blank;
    NoLetters();
    var s, n := w + rest, LetterRun(w + rest);
    assert |w| < |s| ==> s[|w|] == rest[0];
    assert n < |w|;
    assert AllLetters(w[..n]) by { assert forall i | 0 <= i < n :: s[i] == w[i]; }
    assert w[n] == s[n];
    assert n + 1 == |w| && s[n + 1] == rest[0];
  }

  /** A filter, a phrase or a word with no stray quote. */
  ghost predicate Clean(t: Token) {
    match t
    case Keyed(key, value, raw) =>
      exists k :: k != "" && AllLetters(k) && Lower(k) == key &&
        ((raw == k + ":\"" + value + "\"" && '"' !in value)
        || (raw == k + ":" + value && value != "" && NoBlanks(value) && value[0] != '"'))
    case Plain(text, raw) =>
      (raw == "\"" + text + "\"" && '"' !in text)
      || (raw == text && text != "" && NoBlanks(text) && text[0] != '"' && !LooksKeyed(text))
  }

  function Written(tokens: seq<Token>): string {
    if tokens == [] then "" else if |tokens| == 1 then tokens[0].raw else tokens[0].raw + " " + Written(tokens[1..])
  }

  lemma CleanFirst(t: Token, rest: string)
    requires Clean(t) && WordEnds(rest)
    ensures t.raw != "" && !Blank(t.raw[0]) && First(t.raw + rest) == t
  {
    hide Letter, Lower, Blank, First;
    NoLetters();
    match t
    case Keyed(key, value, raw) =>
      var k :| k != "" && AllLetters(k) && Lower(k) == key &&
        ((raw == k + ":\"" + value + "\"" && '"' !in value)
        || (raw == k + ":" + value && value != "" && NoBlanks(value) && value[0] != '"'));
      assert raw[0] == k[0];
      if raw == k + ":\"" + value + "\"" && '"' !in value {
        QuotedKeyFirst(k, value, rest);
      } else {
        KeyFirst(k, value, rest);
      }
    case Plain(text, raw) =>
      if raw == "\"" + text + "\"" && '"' !in text {
        PhraseFirst(text, rest);
      } else {
        WordFirst(text, rest);
      }
  }

  /** Whatever filters, phrases and words are written with blanks between them, exactly those are read. */
  lemma {:induction false} WrittenReadsBack(tokens: seq<Token>)
    requires forall t | t in tokens :: Clean(t)
    ensures Tokens(Written(tokens)) == tokens
  {
    hide Clean, First, Blank, Tokens;
    NothingTyped();
    if tokens != [] {
      var t, more := tokens[0], tokens[1..];
      assert t in tokens && forall x | x in more :: x in tokens;
      WrittenReadsBack(more);
      NoLetters();
      var rest := if more == [] then "" else " " + Written(more);
      CleanFirst(t, rest);
      assert Written(tokens) == t.raw + rest;
      NextToken(t, rest);
      assert WordEnds(rest);
      if more != [] { BlankSkipped(Written(more)); }
      assert tokens == [t] + more;
    }
  }

  lemma NothingTyped()
    ensures Tokens("") == []
  {
  }

  lemma NextToken(t: Token, rest: string)
    requires t.raw != "" && !Blank(t.raw[0]) && First(t.raw + rest) == t
    ensures Tokens(t.raw + rest) == [t] + Tokens(rest)
  {
    hide First, Blank;
    var s := t.raw + rest;
    assert s[0] == t.raw[0] && Blanks(s) == 0 && s[0..] == s && s[|t.raw|..] == rest;
  }

  lemma BlankSkipped(s: string)
    ensures Tokens(" " + s) == Tokens(s)
  {
    hide First;
    assert (" " + s)[1..] == s;
    assert (" " + s)[1 + Blanks(s)..] == s[Blanks(s)..];
  }

  /** Keys are read in either case. */
  lemma {:induction false} LowerLetters(k: string)
    requires AllLetters(k)
    ensures |Lower(k)| == |k|
    ensures forall i | 0 <= i < |k| ::
              'a' <= Lower(k)[i] <= 'z' && (k[i] == Lower(k)[i] || k[i] as int + 32 == Lower(k)[i] as int)
  {
    if k != "" { LowerLetters(k[1..]); }
  }
}
