/**
  The query filter language (crates/cce-core/src/retrieval.rs): a quote-aware
  tokenizer and the extraction of `lang:`, `path:`, `type:`, `pat:` and
  `patterntype:structural` tokens.
 */
module QueryFilters {
  import opened Common
  import opened Wrappers

  /** Unicode White_Space. */
  predicate White(c: char) {
    var n := c as int;
    || 0x09 <= n <= 0x0D || n == 0x20 || n == 0x85 || n == 0xA0 || n == 0x1680
    || 0x2000 <= n <= 0x200A || n == 0x2028 || n == 0x2029 || n == 0x202F || n == 0x205F || n == 0x3000
  }

  /** The 25 white-space characters of Unicode. */
  const SPACES := "\t\n\U{B}\U{C}\r \U{85}\U{A0}\U{1680}\U{2000}\U{2001}\U{2002}\U{2003}\U{2004}\U{2005}\U{2006}\U{2007}\U{2008}\U{2009}\U{200A}\U{2028}\U{2029}\U{202F}\U{205F}\U{3000}"

  lemma WhiteExactly(c: char)
    ensures White(c) <==> c in SPACES
  {
  }

  predicate KeyChar(c: char) {
    'a' <= c <= 'z' || 'A' <= c <= 'Z' || '0' <= c <= '9' || c == '_'
  }

  /** The digits, the letters and the underscore, by code point. */
  lemma KeyCharExactly(c: char)
    ensures var n := c as int; KeyChar(c) <==> 48 <= n <= 57 || 65 <= n <= 90 || n == 95 || 97 <= n <= 122
  {
  }

  predicate Mark(c: char) {
    c == '\'' || c == '"'
  }

  // ----- Tokens -----

  /** A quote opens only right after the first `key:` of a token. */
  predicate KeyColon(prefix: string) {
    prefix != "" && prefix[|prefix| - 1] == ':' && forall i :: 0 <= i < |prefix| - 1 ==> KeyChar(prefix[i])
  }

  /** The quotation mark still open after the characters of a token. */
  function OpenQuote(token: string): Option<char> {
    if token == "" then None else
    var front, c := token[..|token| - 1], token[|token| - 1];
    match OpenQuote(front)
    case Some(mark) => if c == mark then None else Some(mark)
    case None => if Mark(c) && KeyColon(front) then Some(c) else None
  }

  datatype Scan = Scan(tokens: seq<string>, token: string)

  function Feed(st: Scan, c: char): Scan {
    if OpenQuote(st.token).None? && White(c)
    then if st.token == "" then st else Scan(st.tokens + [st.token], "")
    else Scan(st.tokens, st.token + [c])
  }

  function FeedAll(st: Scan, text: string): Scan
    decreases |text|
  {
    if text == "" then st else FeedAll(Feed(st, text[0]), text[1..])
  }

  function Finish(st: Scan): seq<string> {
    if st.token == "" then st.tokens else st.tokens + [st.token]
  }

  /** The scan of the first `n` characters. */
  function ScanOf(query: string, n: nat): Scan
    requires n <= |query|
  {
    if n == 0 then Scan([], "") else Feed(ScanOf(query, n - 1), query[n - 1])
  }

  function Tokens(query: string): seq<string> {
    Finish(ScanOf(query, |query|))
  }

  lemma QuoteGrows(token: string, c: char)
    ensures OpenQuote(token + [c]) ==
            match OpenQuote(token)
            case Some(mark) => if c == mark then None else Some(mark)
            case None => if Mark(c) && KeyColon(token) then Some(c) else None
  {
    assert (token + [c])[..|token|] == token;
  }

  /** The token being read: from its start to the scanned position. */
  function Reading(query: string, tokenStart: Option<nat>, index: nat): string
    requires index <= |query|
  {
    if tokenStart.Some? && tokenStart.value < index then query[tokenStart.value..index] else ""
  }

  /** The loop's variables at `index`, against the scan of the characters before it. */
  ghost predicate Tracks(query: string, index: nat, tokens: seq<string>, tokenStart: Option<nat>, quote: Option<char>) {
    && index <= |query|
    && (tokenStart.Some? ==> tokenStart.value < index)
    && ScanOf(query, index) == Scan(tokens, Reading(query, tokenStart, index))
    && quote == OpenQuote(Reading(query, tokenStart, index))
  }

  lemma ReadInside(query: string, index: nat, tokens: seq<string>, tokenStart: Option<nat>, quote: Option<char>)
    requires Tracks(query, index, tokens, tokenStart, quote) && index < |query| && quote.Some?
    ensures Tracks(query, index + 1, tokens, tokenStart, if query[index] == quote.value then None else quote)
  {
    var token := Reading(query, tokenStart, index);
    QuoteGrows(token, query[index]);
    assert Reading(query, tokenStart, index + 1) == token + [query[index]];
  }

  lemma ReadSpace(query: string, index: nat, tokens: seq<string>, tokenStart: Option<nat>)
    requires Tracks(query, index, tokens, tokenStart, None) && index < |query| && White(query[index])
    ensures Tracks(query, index + 1,
                   if tokenStart.Some? then tokens + [query[tokenStart.value..index]] else tokens, None, None)
  {
  }

  lemma ReadCharacter(query: string, index: nat, tokens: seq<string>, tokenStart: Option<nat>)
    requires Tracks(query, index, tokens, tokenStart, None) && index < |query| && !White(query[index])
    ensures var start := if tokenStart.Some? then tokenStart.value else index;
            Tracks(query, index + 1, tokens, Some(start),
                   if Mark(query[index]) && KeyColon(query[start..index]) then Some(query[index]) else None)
  {
    var start := if tokenStart.Some? then tokenStart.value else index;
    var token := Reading(query, tokenStart, index);
    assert token == query[start..index];
    QuoteGrows(token, query[index]);
    assert Reading(query, Some(start), index + 1) == token + [query[index]];
  }

  method TokenizeFilters(query: string) returns (tokens: seq<string>)
    ensures tokens == Tokens(query)
  {
    tokens := [];
    var tokenStart: Option<nat> := None;
    var quote: Option<char> := None;
    for index := 0 to |query|
      invariant Tracks(query, index, tokens, tokenStart, quote)
    {
      var character := query[index];
      if quote.Some? {
        ReadInside(query, index, tokens, tokenStart, quote);
        if character == quote.value {
          quote := None;
        }
        continue;
      }
      if White(character) {
        ReadSpace(query, index, tokens, tokenStart);
        if tokenStart.Some? {
          tokens := tokens + [query[tokenStart.value..index]];
          tokenStart := None;
        }
        continue;
      }
      ReadCharacter(query, index, tokens, tokenStart);
      var start := if tokenStart.Some? then tokenStart.value else index;
      tokenStart := Some(start);
      if Mark(character) && KeyColon(query[start..index]) {
        quote := Some(character);
      }
    }
    if tokenStart.Some? {
      assert query[tokenStart.value..] == Reading(query, tokenStart, |query|);
      tokens := tokens + [query[tokenStart.value..]];
    }
  }

  // ----- Filters -----

  datatype Filters = Filters(
    pathPrefix: Option<string>,
    language: Option<string>,
    hitType: Option<string>,
    pattern: Option<string>)

  const NO_FILTERS := Filters(None, None, None, None)

  datatype Decision =
    | Keep
    | Language(value: string)
    | PathPrefix(value: string)
    | HitType(value: string)
    | Pattern(value: string)
    | Structural

  /** `split_once(':')` */
  function ColonAt(token: string): (at: Option<nat>)
    ensures at.Some? ==> at.value < |token| && token[at.value] == ':' && ':' !in token[..at.value]
    ensures at.None? ==> ':' !in token
  {
    if token == "" then None
    else if token[0] == ':' then Some(0)
    else match ColonAt(token[1..])
         case None => None
         case Some(i) =>
           assert token[..i + 1] == [token[0]] + token[1..][..i];
           Some(i + 1)
  }

  function Unquote(raw: string, mark: char): Option<string> {
    if raw != "" && raw[0] == mark && raw[1..] != "" && raw[|raw| - 1] == mark
    then Some(raw[1..|raw| - 1])
    else None
  }

  function Value(raw: string): string {
    match Unquote(raw, '\'')
    case Some(v) => v
    case None =>
      match Unquote(raw, '"')
      case Some(v) => v
      case None => raw
  }

  function Decide(token: string): Decision {
    match ColonAt(token)
    case None => Keep
    case Some(at) =>
      var key, raw := token[..at], token[at + 1..];
      var value := Value(raw);
      if raw != "" && Mark(raw[0]) && value == raw then Keep
      else if value == "" then Keep
      else if key == "lang" then Language(AsciiLower(value))
      else if key == "path" then PathPrefix(value)
      else if key == "type" && (value == "diff" || value == "commit" || value == "file") then HitType(value)
      else if key == "pat" then Pattern(value)
      else if key == "patterntype" && value == "structural" then Structural
      else Keep
  }

  /** The tokens no filter claims, in order. */
  function Kept(tokens: seq<string>): seq<string> {
    if tokens == [] then [] else
    Kept(tokens[..|tokens| - 1]) + if Decide(tokens[|tokens| - 1]).Keep? then [tokens[|tokens| - 1]] else []
  }

  /** Each filter takes the value of its last token. */
  function LastValues(tokens: seq<string>): Filters {
    if tokens == [] then NO_FILTERS else
    WithValue(LastValues(tokens[..|tokens| - 1]), Decide(tokens[|tokens| - 1]))
  }

  function WithValue(earlier: Filters, decision: Decision): Filters {
    match decision
    case Language(value) => earlier.(language := Some(value))
    case PathPrefix(value) => earlier.(pathPrefix := Some(value))
    case HitType(value) => earlier.(hitType := Some(value))
    case Pattern(value) => earlier.(pattern := Some(value))
    case _ => earlier
  }

  predicate AsksStructural(tokens: seq<string>) {
    tokens != [] && (AsksStructural(tokens[..|tokens| - 1]) || Decide(tokens[|tokens| - 1]).Structural?)
  }

  /** What one more token adds. */
  lemma NextToken(tokens: seq<string>, n: nat)
    requires n < |tokens|
    ensures Kept(tokens[..n + 1]) == Kept(tokens[..n]) + if Decide(tokens[n]).Keep? then [tokens[n]] else []
    ensures LastValues(tokens[..n + 1]) == WithValue(LastValues(tokens[..n]), Decide(tokens[n]))
    ensures AsksStructural(tokens[..n + 1]) <==> AsksStructural(tokens[..n]) || Decide(tokens[n]).Structural?
  {
    assert tokens[..n + 1][..n] == tokens[..n];
  }

  function Join(tokens: seq<string>): string {
    if tokens == [] then ""
    else if |tokens| == 1 then tokens[0]
    else tokens[0] + " " + Join(tokens[1..])
  }

  function Parsed(query: string): (string, Filters) {
    var tokens := Tokens(query);
    var kept, filters := Kept(tokens), LastValues(tokens);
    if AsksStructural(tokens) && filters.pattern.None?
    then ("", filters.(pattern := Some(Join(kept))))
    else (Join(kept), filters)
  }

  method ParseQueryFilters(query: string) returns (clean: string, filters: Filters)
    ensures (clean, filters) == Parsed(query)
  {
    filters := NO_FILTERS;
    var structural := false;
    var kept: seq<string> := [];
    var tokens := TokenizeFilters(query);
    for n := 0 to |tokens|
      invariant kept == Kept(tokens[..n]) && filters == LastValues(tokens[..n])
      invariant structural <==> AsksStructural(tokens[..n])
    {
      var token := tokens[n];
      NextToken(tokens, n);
      var colon := ColonAt(token);
      if colon.None? {
        kept := kept + [token];
        continue;
      }
      var key, raw := token[..colon.value], token[colon.value + 1..];
      var quoted := raw != "" && Mark(raw[0]);
      var value := Value(raw);
      if quoted && value == raw {
        kept := kept + [token];
        continue;
      }
      if value == "" {
        kept := kept + [token];
        continue;
      }
      if key == "lang" {
        filters := filters.(language := Some(AsciiLower(value)));
      } else if key == "path" {
        filters := filters.(pathPrefix := Some(value));
      } else if key == "type" && (value == "diff" || value == "commit" || value == "file") {
        filters := filters.(hitType := Some(value));
      } else if key == "pat" {
        filters := filters.(pattern := Some(value));
      } else if key == "patterntype" && value == "structural" {
        structural := true;
      } else {
        kept := kept + [token];
      }
    }
    assert tokens[..|tokens|] == tokens;
    if structural && filters.pattern.None? {
      filters := filters.(pattern := Some(Join(kept)));
      kept := [];
    }
    clean := Join(kept);
  }

  // ----- Tokenizing again -----

  /** White space only inside an open quote. */
  ghost predicate Solid(token: string) {
    forall i :: 0 <= i < |token| && White(token[i]) ==> OpenQuote(token[..i]).Some?
  }

  ghost predicate WellFormed(tokens: seq<string>) {
    && (forall i :: 0 <= i < |tokens| ==> tokens[i] != "" && Solid(tokens[i]))
    && (forall i :: 0 <= i < |tokens| - 1 ==> OpenQuote(tokens[i]).None?)
  }

  ghost predicate ScanOk(st: Scan) {
    && (forall i :: 0 <= i < |st.tokens| ==> st.tokens[i] != "" && Solid(st.tokens[i]) && OpenQuote(st.tokens[i]).None?)
    && Solid(st.token)
  }

  lemma FeedOk(st: Scan, c: char)
    requires ScanOk(st)
    ensures ScanOk(Feed(st, c))
  {
    var longer := st.token + [c];
    if Feed(st, c).token == longer {
      forall i | 0 <= i < |longer| && White(longer[i]) ensures OpenQuote(longer[..i]).Some? {
        if i < |st.token| {
          assert longer[..i] == st.token[..i];
        } else {
          assert longer[..i] == st.token;
        }
      }
    }
  }

  /** Scanning prefix by prefix is scanning character by character. */
  lemma {:induction false} ScanFromStart(query: string, n: nat)
    requires n <= |query|
    ensures FeedAll(ScanOf(query, n), query[n..]) == ScanOf(query, |query|)
    decreases |query| - n
  {
    if n < |query| {
      ScanFromStart(query, n + 1);
      assert query[n..][1..] == query[n + 1..];
    }
  }

  lemma ScanAll(query: string)
    ensures ScanOf(query, |query|) == FeedAll(Scan([], ""), query)
  {
    ScanFromStart(query, 0);
    assert query[0..] == query;
  }

  lemma {:induction false} FeedAllOk(st: Scan, text: string)
    requires ScanOk(st)
    ensures ScanOk(FeedAll(st, text))
    decreases |text|
  {
    if text != "" {
      FeedOk(st, text[0]);
      FeedAllOk(Feed(st, text[0]), text[1..]);
    }
  }

  /** Tokens hold white space only inside quotes, and only the last can have its quote open. */
  lemma TokensAreWellFormed(query: string)
    ensures WellFormed(Tokens(query))
  {
    ScanAll(query);
    FeedAllOk(Scan([], ""), query);
  }

  lemma {:induction false} KeptIsWellFormed(tokens: seq<string>)
    requires WellFormed(tokens)
    ensures WellFormed(Kept(tokens))
    ensures (forall i :: 0 <= i < |tokens| ==> OpenQuote(tokens[i]).None?) ==>
              forall i :: 0 <= i < |Kept(tokens)| ==> OpenQuote(Kept(tokens)[i]).None?
    ensures forall i :: 0 <= i < |Kept(tokens)| ==> Decide(Kept(tokens)[i]).Keep?
  {
    if tokens != [] {
      var front := tokens[..|tokens| - 1];
      KeptIsWellFormed(front);
      assert forall i :: 0 <= i < |front| ==> OpenQuote(front[i]).None?;
    }
  }

  lemma {:induction false} FeedSolid(tokens: seq<string>, read: string, rest: string)
    requires Solid(read + rest)
    ensures FeedAll(Scan(tokens, read), rest) == Scan(tokens, read + rest)
    decreases |rest|
  {
    if rest == "" {
      assert read + rest == read;
    } else {
      var token := read + rest;
      assert token[|read|] == rest[0] && token[..|read|] == read;
      assert (read + [rest[0]]) + rest[1..] == token;
      FeedSolid(tokens, read + [rest[0]], rest[1..]);
    }
  }

  lemma {:induction false} FeedAppend(st: Scan, first: string, second: string)
    ensures FeedAll(st, first + second) == FeedAll(FeedAll(st, first), second)
    decreases |first|
  {
    if first == "" {
      assert first + second == second;
    } else {
      assert (first + second)[1..] == first[1..] + second;
      FeedAppend(Feed(st, first[0]), first[1..], second);
    }
  }

  /** A closed token and a space are read as one token. */
  lemma FeedClosed(done: seq<string>, token: string, rest: string)
    requires token != "" && Solid(token) && OpenQuote(token).None?
    ensures FeedAll(Scan(done, ""), token + " " + rest) == FeedAll(Scan(done + [token], ""), rest)
  {
    var read := Scan(done, token);
    assert token + " " + rest == token + (" " + rest);
    assert "" + token == token;
    FeedSolid(done, "", token);
    FeedAppend(Scan(done, ""), token, " " + rest);
    assert (" " + rest)[0] == ' ' && (" " + rest)[1..] == rest;
    assert FeedAll(read, " " + rest) == FeedAll(Feed(read, ' '), rest);
  }

  /** Re-tokenizing tokens joined by single spaces gives the tokens back, quoted spans and an unclosed tail included. */
  lemma {:induction false} TokensOfJoin(done: seq<string>, tokens: seq<string>)
    requires WellFormed(tokens)
    ensures Finish(FeedAll(Scan(done, ""), Join(tokens))) == done + tokens
    decreases |tokens|
  {
    if |tokens| == 1 {
      assert "" + tokens[0] == tokens[0];
      FeedSolid(done, "", tokens[0]);
      assert tokens == [tokens[0]];
    } else if |tokens| > 1 {
      var first, rest := tokens[0], tokens[1..];
      FeedClosed(done, first, Join(rest));
      TokensOfJoin(done + [first], rest);
      assert done + [first] + rest == done + tokens;
    } else {
      assert done + tokens == done;
    }
  }

  lemma {:induction false} NothingToExtract(tokens: seq<string>)
    requires forall i :: 0 <= i < |tokens| ==> Decide(tokens[i]).Keep?
    ensures Kept(tokens) == tokens && LastValues(tokens) == NO_FILTERS && !AsksStructural(tokens)
  {
    if tokens != [] {
      NothingToExtract(tokens[..|tokens| - 1]);
      assert tokens == tokens[..|tokens| - 1] + [tokens[|tokens| - 1]];
    }
  }

  /** Well-formed tokens that no filter claims parse to their own text. */
  lemma ParseOfKept(tokens: seq<string>)
    requires WellFormed(tokens) && forall i :: 0 <= i < |tokens| ==> Decide(tokens[i]).Keep?
    ensures Parsed(Join(tokens)) == (Join(tokens), NO_FILTERS)
  {
    TokensOfJoin([], tokens);
    ScanAll(Join(tokens));
    assert [] + tokens == tokens;
    assert Tokens(Join(tokens)) == tokens;
    NothingToExtract(tokens);
  }

  /** Parsing is idempotent: the cleaned query parses to itself with no filters. */
  lemma ParseIsIdempotent(query: string)
    ensures Parsed(Parsed(query).0) == (Parsed(query).0, NO_FILTERS)
  {
    var tokens := Tokens(query);
    TokensAreWellFormed(query);
    KeptIsWellFormed(tokens);
    if AsksStructural(tokens) && LastValues(tokens).pattern.None? {
      ParseOfKept([]);
      assert Join([]) == "" == Parsed(query).0;
    } else {
      ParseOfKept(Kept(tokens));
      assert Parsed(query).0 == Join(Kept(tokens));
    }
  }

  /** A quoted value without its closing mark is never half-parsed: the token is kept whole, as the query's tail. */
  lemma UnclosedIsKept(query: string, token: string)
    requires token in Tokens(query) && OpenQuote(token).Some?
    ensures Decide(token).Keep?
    ensures token == Tokens(query)[|Tokens(query)| - 1]
  {
    TokensAreWellFormed(query);
    var at := OpenQuoteShape(token);
    OpenIsKept(token, at, OpenQuote(token).value);
  }

  lemma OpenIsKept(token: string, at: nat, mark: char)
    requires OpensAt(token, at, mark)
    ensures Decide(token).Keep?
  {
    assert ':' in token;
    var colon := ColonAt(token).value;
    assert colon == at;
    var raw := token[at + 1..];
    assert raw[0] == mark;
    assert raw[1..] != "" ==> raw[|raw| - 1] == token[|token| - 1] != mark;
    assert Value(raw) == raw;
  }

  /** The quote opens right after the first colon, and its mark does not occur again. */
  ghost predicate OpensAt(token: string, at: nat, mark: char) {
    && at + 1 < |token| && token[at] == ':' && (forall i :: 0 <= i < at ==> token[i] != ':')
    && token[at + 1] == mark && Mark(mark)
    && forall i :: at + 2 <= i < |token| ==> token[i] != mark
  }

  lemma {:induction false} OpenQuoteShape(token: string) returns (at: nat)
    requires OpenQuote(token).Some?
    ensures OpensAt(token, at, OpenQuote(token).value)
  {
    var front, c := token[..|token| - 1], token[|token| - 1];
    if OpenQuote(front).Some? {
      at := OpenQuoteShape(front);
      forall i | 0 <= i < |front| ensures token[i] == front[i] {}
    } else {
      at := |front| - 1;
      forall i | 0 <= i < |front| ensures token[i] == front[i] {}
    }
  }
}
