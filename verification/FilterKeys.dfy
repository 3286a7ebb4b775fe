/**
  Which token of a query says what (crates/cce-core/src/retrieval.rs): a
  declarative reading of the filter tokens, and the parse against it.
 */
module FilterKeys {
  import opened Common
  import opened QueryFilters
  import opened Wrappers

  // ----- What a token says -----

  /** A non-empty value written bare, or between two like quotation marks. */
  predicate Writes(raw: string, value: string) {
    && value != ""
    && (|| (raw == value && value[0] != '\'' && value[0] != '"')
        || raw == "'" + value + "'"
        || raw == "\"" + value + "\"")
  }

  /** `key:value`, the key without a colon. */
  predicate Says(token: string, key: string, value: string) {
    key <= token && |key| < |token| && token[|key|] == ':' && ':' !in key && Writes(token[|key| + 1..], value)
  }

  predicate HitTypeName(value: string) {
    value == "diff" || value == "commit" || value == "file"
  }

  /** The key and value make a filter. */
  predicate Filtering(key: string, value: string) {
    || key == "lang" || key == "path" || key == "pat"
    || (key == "type" && HitTypeName(value))
    || (key == "patterntype" && value == "structural")
  }

  /** The token is a filter, and so taken out of the text. */
  ghost predicate Claimed(token: string) {
    exists key, value :: Says(token, key, value) && Filtering(key, value)
  }

  lemma ColonIs(token: string, key: string)
    requires key <= token && |key| < |token| && token[|key|] == ':' && ':' !in key
    ensures ColonAt(token) == Some(|key|) && token[..|key|] == key
  {
    assert token[|key|] in token;
    var at := ColonAt(token).value;
    assert forall i :: 0 <= i < |key| ==> token[i] == key[i] && key[i] in key;
    assert forall i :: 0 <= i < at ==> token[i] in token[..at];
  }

  /** A raw value that starts with a mark it does not end with is taken as it stands. */
  lemma UnquoteExactly(raw: string, mark: char, value: string)
    ensures Unquote(raw, mark) == Some(value) <==> raw == [mark] + value + [mark]
  {
    if Unquote(raw, mark) == Some(value) {
      assert raw == [mark] + raw[1..|raw| - 1] + [mark];
    }
    if raw == [mark] + value + [mark] {
      assert raw[1..|raw| - 1] == value;
    }
  }

  /** The parser accepts a raw value exactly when it writes something. */
  lemma WritesExactly(raw: string, value: string)
    ensures Writes(raw, value) <==>
            value != "" && Value(raw) == value && !(raw != "" && Mark(raw[0]) && Value(raw) == raw)
  {
    UnquoteExactly(raw, '\'', value);
    UnquoteExactly(raw, '"', value);
    assert "'" + value + "'" == ['\''] + value + ['\''] && "\"" + value + "\"" == ['"'] + value + ['"'];
    if Unquote(raw, '\'').Some? {
      UnquoteExactly(raw, '\'', Unquote(raw, '\'').value);
    }
    if Unquote(raw, '"').Some? {
      UnquoteExactly(raw, '"', Unquote(raw, '"').value);
    }
  }

  /** The key and value of a token, when it writes one. */
  lemma SaysExactly(token: string, key: string, value: string)
    ensures Says(token, key, value) <==>
            && ColonAt(token).Some? && token[..ColonAt(token).value] == key
            && Writes(token[ColonAt(token).value + 1..], value)
  {
    if key <= token && |key| < |token| && token[|key|] == ':' && ':' !in key {
      ColonIs(token, key);
    }
  }

  lemma SaysOneThing(token: string, key: string, value: string, key': string, value': string)
    requires Says(token, key, value) && Says(token, key', value')
    ensures key == key' && value == value'
  {
    ColonIs(token, key);
    ColonIs(token, key');
    WritesExactly(token[|key| + 1..], value);
    WritesExactly(token[|key| + 1..], value');
  }

  function DecisionFor(key: string, value: string): Decision {
    if key == "lang" then Language(AsciiLower(value))
    else if key == "path" then PathPrefix(value)
    else if key == "pat" then Pattern(value)
    else if key == "type" && HitTypeName(value) then HitType(value)
    else if key == "patterntype" && value == "structural" then Structural
    else Keep
  }

  /** The parser's decision on a token that says something. */
  lemma DecisionOf(token: string, key: string, value: string)
    requires Says(token, key, value)
    ensures Decide(token) == DecisionFor(key, value)
  {
    ColonIs(token, key);
    WritesExactly(token[|key| + 1..], value);
  }

  /** A token that says nothing is kept. */
  lemma SilentIsKept(token: string)
    requires forall key, value :: !Says(token, key, value)
    ensures Decide(token) == Keep
  {
    match ColonAt(token)
    case None =>
    case Some(at) =>
      var key, raw := token[..at], token[at + 1..];
      SaysExactly(token, key, Value(raw));
      WritesExactly(raw, Value(raw));
      assert !Says(token, key, Value(raw));
  }

  ghost predicate SaysSomething(token: string) {
    exists key, value :: Says(token, key, value)
  }

  lemma ClaimedExactly(token: string)
    ensures Decide(token).Keep? <==> !Claimed(token)
  {
    if SaysSomething(token) {
      var key, value :| Says(token, key, value);
      DecisionOf(token, key, value);
      if Claimed(token) {
        var k, v :| Says(token, k, v) && Filtering(k, v);
        SaysOneThing(token, key, value, k, v);
      }
    } else {
      SilentIsKept(token);
    }
  }

  // ----- What a query says -----

  type Accepts = string -> bool

  const ANY: Accepts := v => true

  ghost predicate NoneLater(tokens: seq<string>, i: int, key: string, accepts: Accepts) {
    forall j, v :: i < j < |tokens| && 0 <= j && Says(tokens[j], key, v) ==> !accepts(v)
  }

  /** Of the tokens with the key and an acceptable value, the last has this value. */
  ghost predicate LastSays(tokens: seq<string>, key: string, accepts: Accepts, value: string) {
    accepts(value) && exists i :: 0 <= i < |tokens| && Says(tokens[i], key, value) && NoneLater(tokens, i, key, accepts)
  }

  /** The last acceptable value of the key, if any. */
  ghost predicate IsLast(tokens: seq<string>, key: string, accepts: Accepts, last: Option<string>) {
    match last
    case None => NoneLater(tokens, -1, key, accepts)
    case Some(value) => LastSays(tokens, key, accepts, value)
  }

  lemma LastIsOne(tokens: seq<string>, key: string, accepts: Accepts, last: Option<string>, value: string)
    requires IsLast(tokens, key, accepts, last)
    ensures last == Some(value) <==> LastSays(tokens, key, accepts, value)
  {
    if LastSays(tokens, key, accepts, value) {
      var i :| 0 <= i < |tokens| && Says(tokens[i], key, value) && NoneLater(tokens, i, key, accepts);
      if last.Some? {
        var j :| 0 <= j < |tokens| && Says(tokens[j], key, last.value) && NoneLater(tokens, j, key, accepts);
        if i == j { SaysOneThing(tokens[i], key, value, key, last.value); }
      }
    }
  }

  lemma NoneLaterSnoc(tokens: seq<string>, token: string, i: int, key: string, accepts: Accepts)
    requires i < |tokens|
    ensures NoneLater(tokens + [token], i, key, accepts) <==>
            NoneLater(tokens, i, key, accepts) && forall v :: Says(token, key, v) ==> !accepts(v)
  {
    var more := tokens + [token];
    assert more[|tokens|] == token && forall j :: 0 <= j < |tokens| ==> more[j] == tokens[j];
    if NoneLater(more, i, key, accepts) {
      forall j, v | i < j < |tokens| && 0 <= j && Says(tokens[j], key, v) ensures !accepts(v) { assert Says(more[j], key, v); }
      forall v | Says(token, key, v) ensures !accepts(v) { assert Says(more[|tokens|], key, v); }
    }
  }

  lemma StaysLast(tokens: seq<string>, token: string, key: string, accepts: Accepts, last: Option<string>)
    requires IsLast(tokens, key, accepts, last) && forall v :: Says(token, key, v) ==> !accepts(v)
    ensures IsLast(tokens + [token], key, accepts, last)
  {
    match last
    case None => NoneLaterSnoc(tokens, token, -1, key, accepts);
    case Some(value) =>
      var i :| 0 <= i < |tokens| && Says(tokens[i], key, value) && NoneLater(tokens, i, key, accepts);
      NoneLaterSnoc(tokens, token, i, key, accepts);
      assert Says((tokens + [token])[i], key, value);
  }

  lemma BecomesLast(tokens: seq<string>, token: string, key: string, accepts: Accepts, value: string)
    requires Says(token, key, value) && accepts(value)
    ensures IsLast(tokens + [token], key, accepts, Some(value))
  {
    var more := tokens + [token];
    assert Says(more[|tokens|], key, value) && NoneLater(more, |tokens|, key, accepts);
  }

  /** The next last value is what the token says under the key, if that is acceptable, else the last one. */
  ghost predicate Updates(token: string, key: string, accepts: Accepts, last: Option<string>, next: Option<string>) {
    && (forall v :: Says(token, key, v) && accepts(v) ==> next == Some(v))
    && ((forall v :: Says(token, key, v) ==> !accepts(v)) ==> next == last)
  }

  lemma UpdateOf(token: string, said: string, value: string, key: string, accepts: Accepts, last: Option<string>, next: Option<string>)
    requires Says(token, said, value) && Updates(token, key, accepts, last, next)
    ensures next == if key == said && accepts(value) then Some(value) else last
  {
    forall v | Says(token, key, v) ensures key == said && v == value { SaysOneThing(token, said, value, key, v); }
  }

  /** One more token, and what it says under a key. */
  lemma LastWith(tokens: seq<string>, token: string, key: string, accepts: Accepts, last: Option<string>) returns (next: Option<string>)
    requires IsLast(tokens, key, accepts, last)
    ensures IsLast(tokens + [token], key, accepts, next)
    ensures Updates(token, key, accepts, last, next)
  {
    if v :| Says(token, key, v) && accepts(v) {
      next := Some(v);
      BecomesLast(tokens, token, key, accepts, v);
      forall w | Says(token, key, w) ensures w == v { SaysOneThing(token, key, v, key, w); }
    } else {
      next := last;
      StaysLast(tokens, token, key, accepts, last);
    }
  }

  function Lowered(value: Option<string>): Option<string> {
    if value.Some? then Some(AsciiLower(value.value)) else None
  }

  /** The four filters are what the last tokens with their keys say. */
  ghost predicate Reads(tokens: seq<string>, f: Filters, language: Option<string>) {
    && f.language == Lowered(language) && IsLast(tokens, "lang", ANY, language)
    && IsLast(tokens, "path", ANY, f.pathPrefix)
    && IsLast(tokens, "type", HitTypeName, f.hitType)
    && IsLast(tokens, "pat", ANY, f.pattern)
  }

  /** A decision is for what the token says, or keeps a token that says nothing. */
  ghost predicate DecisionFits(token: string, d: Decision) {
    if SaysSomething(token) then exists key, value :: Says(token, key, value) && d == DecisionFor(key, value) else d == Keep
  }

  lemma DecideFits(token: string)
    ensures DecisionFits(token, Decide(token))
  {
    if SaysSomething(token) {
      var key, value :| Says(token, key, value);
      DecisionOf(token, key, value);
    } else {
      SilentIsKept(token);
    }
  }

  lemma SaidUpdates(key: string, value: string, f: Filters, language: Option<string>, next: Option<string>, path: Option<string>, hit: Option<string>, pattern: Option<string>)
    requires f.language == Lowered(language)
    requires next == (if "lang" == key then Some(value) else language) && path == (if "path" == key then Some(value) else f.pathPrefix)
    requires hit == (if "type" == key && HitTypeName(value) then Some(value) else f.hitType)
    requires pattern == if "pat" == key then Some(value) else f.pattern
    ensures WithValue(f, DecisionFor(key, value)) == Filters(path, Lowered(next), hit, pattern)
  {
  }

  /** The filters after a token, from the last values under the four keys. */
  lemma TokenUpdates(token: string, d: Decision, f: Filters, language: Option<string>, next: Option<string>, path: Option<string>, hit: Option<string>, pattern: Option<string>)
    requires f.language == Lowered(language) && DecisionFits(token, d)
    requires Updates(token, "lang", ANY, language, next) && Updates(token, "path", ANY, f.pathPrefix, path)
    requires Updates(token, "type", HitTypeName, f.hitType, hit) && Updates(token, "pat", ANY, f.pattern, pattern)
    ensures WithValue(f, d) == Filters(path, Lowered(next), hit, pattern)
  {
    if SaysSomething(token) {
      var key, value :| Says(token, key, value) && d == DecisionFor(key, value);
      UpdateOf(token, key, value, "lang", ANY, language, next);
      UpdateOf(token, key, value, "path", ANY, f.pathPrefix, path);
      UpdateOf(token, key, value, "type", HitTypeName, f.hitType, hit);
      UpdateOf(token, key, value, "pat", ANY, f.pattern, pattern);
      SaidUpdates(key, value, f, language, next, path, hit, pattern);
    }
  }

  lemma OneMoreRead(tokens: seq<string>, token: string, f: Filters, language: Option<string>) returns (next: Option<string>)
    requires Reads(tokens, f, language)
    ensures Reads(tokens + [token], WithValue(f, Decide(token)), next)
  {
    next := LastWith(tokens, token, "lang", ANY, language);
    var path := LastWith(tokens, token, "path", ANY, f.pathPrefix);
    var hit := LastWith(tokens, token, "type", HitTypeName, f.hitType);
    var pattern := LastWith(tokens, token, "pat", ANY, f.pattern);
    DecideFits(token);
    TokenUpdates(token, Decide(token), f, language, next, path, hit, pattern);
  }

  lemma NothingRead()
    ensures Reads([], LastValues([]), None)
  {
  }

  lemma {:induction false} FiltersRead(tokens: seq<string>) returns (language: Option<string>)
    ensures Reads(tokens, LastValues(tokens), language)
    decreases |tokens|
  {
    if tokens == [] {
      language := None;
      NothingRead();
    } else {
      var front, token := tokens[..|tokens| - 1], tokens[|tokens| - 1];
      var before := FiltersRead(front);
      language := ReadsNext(tokens, front, token, before);
    }
  }

  lemma ReadsNext(tokens: seq<string>, front: seq<string>, token: string, before: Option<string>) returns (language: Option<string>)
    requires tokens == front + [token] && Reads(front, LastValues(front), before)
    ensures Reads(tokens, LastValues(tokens), language)
  {
    language := OneMoreRead(front, token, LastValues(front), before);
    assert tokens[..|tokens| - 1] == front;
  }

  /** The tokens that are no filters, in order. */
  ghost function Unclaimed(tokens: seq<string>): seq<string> {
    if tokens == [] then [] else
    Unclaimed(tokens[..|tokens| - 1]) + if Claimed(tokens[|tokens| - 1]) then [] else [tokens[|tokens| - 1]]
  }

  lemma {:induction false} KeptIsUnclaimed(tokens: seq<string>)
    ensures Kept(tokens) == Unclaimed(tokens)
  {
    if tokens != [] {
      KeptIsUnclaimed(tokens[..|tokens| - 1]);
      ClaimedExactly(tokens[|tokens| - 1]);
    }
  }

  ghost predicate SaysStructural(tokens: seq<string>) {
    exists i :: 0 <= i < |tokens| && Says(tokens[i], "patterntype", "structural")
  }

  lemma {:induction false} StructuralExactly(tokens: seq<string>)
    ensures AsksStructural(tokens) <==> SaysStructural(tokens)
  {
    if tokens != [] {
      var front, token := tokens[..|tokens| - 1], tokens[|tokens| - 1];
      StructuralExactly(front);
      assert forall i :: 0 <= i < |front| ==> front[i] == tokens[i];
      DecidesStructural(token);
    }
  }

  lemma DecidesStructural(token: string)
    ensures Decide(token).Structural? <==> Says(token, "patterntype", "structural")
  {
    DecideFits(token);
    FitsStructural(token, Decide(token));
  }

  lemma FitsStructural(token: string, d: Decision)
    requires DecisionFits(token, d)
    ensures d.Structural? <==> Says(token, "patterntype", "structural")
  {
    if SaysSomething(token) {
      var key, value :| Says(token, key, value) && d == DecisionFor(key, value);
      if Says(token, "patterntype", "structural") { SaysOneThing(token, key, value, "patterntype", "structural"); }
    }
  }

  /**
    The parse of every query: language, path prefix and hit type are what the last
    tokens with the keys `lang`, `path` and `type` say, the language in lower case;
    the pattern is what the last `pat` token says, else, when some token says
    `patterntype:structural`, the text; and the text is all other tokens, empty when
    it became the pattern.
   */
  lemma ParsedExactly(query: string, value: string)
    ensures var tokens, f := Tokens(query), Parsed(query).1;
            && (f.language == Some(value) <==> exists v :: LastSays(tokens, "lang", ANY, v) && value == AsciiLower(v))
            && (f.pathPrefix == Some(value) <==> LastSays(tokens, "path", ANY, value))
            && (f.hitType == Some(value) <==> LastSays(tokens, "type", HitTypeName, value))
            && (f.pattern == Some(value) <==>
                  || LastSays(tokens, "pat", ANY, value)
                  || (Promotes(tokens) && value == Join(Unclaimed(tokens))))
            && Parsed(query).0 == if Promotes(tokens) then "" else Join(Unclaimed(tokens))
  {
    var tokens := Tokens(query);
    var f := LastValues(tokens);
    var language := FiltersRead(tokens);
    KeptIsUnclaimed(tokens);
    StructuralExactly(tokens);
    if language.Some? { LastIsOne(tokens, "lang", ANY, language, language.value); }
    forall v | LastSays(tokens, "lang", ANY, v) ensures language == Some(v) { LastIsOne(tokens, "lang", ANY, language, v); }
    LastIsOne(tokens, "path", ANY, f.pathPrefix, value);
    LastIsOne(tokens, "type", HitTypeName, f.hitType, value);
    LastIsOne(tokens, "pat", ANY, f.pattern, value);
    assert f.pattern.None? <==> NoneLater(tokens, -1, "pat", ANY) by { NoPattern(tokens, f.pattern); }
  }

  /** A structural query without a pattern of its own: its text becomes the pattern. */
  ghost predicate Promotes(tokens: seq<string>) {
    SaysStructural(tokens) && NoneLater(tokens, -1, "pat", ANY)
  }

  lemma NoPattern(tokens: seq<string>, last: Option<string>)
    requires IsLast(tokens, "pat", ANY, last)
    ensures last.None? <==> NoneLater(tokens, -1, "pat", ANY)
  {
    if last.Some? {
      var i :| 0 <= i < |tokens| && Says(tokens[i], "pat", last.value) && NoneLater(tokens, i, "pat", ANY);
      assert ANY(last.value);
    }
  }

  // ----- One filter alone -----

  lemma {:induction false} NoMarkNoQuote(s: string)
    requires forall i :: 0 <= i < |s| ==> !Mark(s[i])
    ensures OpenQuote(s).None?
  {
    if s != "" { NoMarkNoQuote(s[..|s| - 1]); }
  }

  lemma {:induction false} StaysOpen(prefix: string, rest: string, mark: char)
    requires OpenQuote(prefix) == Some(mark) && mark !in rest
    ensures OpenQuote(prefix + rest) == Some(mark)
    decreases |rest|
  {
    if rest == "" {
      assert prefix + rest == prefix;
    } else {
      var front, c := rest[..|rest| - 1], rest[|rest| - 1];
      StaysOpen(prefix, front, mark);
      QuoteGrows(prefix + front, c);
      assert prefix + front + [c] == prefix + rest;
    }
  }

  predicate KeyName(key: string) {
    key != "" && forall i :: 0 <= i < |key| ==> KeyChar(key[i])
  }

  lemma KeyCharsArePlain(c: char)
    ensures KeyChar(c) ==> !White(c) && !Mark(c) && c != ':'
  {
  }

  lemma OpensQuote(key: string, mark: char)
    requires KeyName(key) && Mark(mark)
    ensures OpenQuote(key + ":" + [mark]) == Some(mark)
  {
    var prefix := key + ":";
    forall i | 0 <= i < |prefix| ensures !Mark(prefix[i]) {
      if i < |key| { KeyCharsArePlain(key[i]); }
    }
    NoMarkNoQuote(prefix);
    assert prefix[|prefix| - 1] == ':' && forall i :: 0 <= i < |prefix| - 1 ==> prefix[i] == key[i];
    QuoteGrows(prefix, mark);
  }

  lemma QuotedIsSolid(key: string, value: string, mark: char)
    requires KeyName(key) && Mark(mark) && mark !in value
    ensures Solid(key + ":" + [mark] + value + [mark])
  {
    var opening := key + ":" + [mark];
    var token := opening + value + [mark];
    OpensQuote(key, mark);
    forall i | 0 <= i < |token| && White(token[i]) ensures OpenQuote(token[..i]).Some? {
      forall j | 0 <= j < |key| ensures !White(token[j]) { KeyCharsArePlain(key[j]); }
      assert token[|key|] == ':' && token[|key| + 1] == mark && token[|token| - 1] == mark;
      var inside := value[..i - |opening|];
      assert token[..i] == opening + inside;
      StaysOpen(opening, inside, mark);
    }
  }

  /** `key:value` written bare or quoted, so that the tokenizer reads it whole. */
  ghost predicate WrittenWhole(token: string, key: string, value: string) {
    && KeyName(key) && value != ""
    && (|| (token == key + ":" + value && !Mark(value[0]) && forall i :: 0 <= i < |value| ==> !White(value[i]))
        || (token == key + ":'" + value + "'" && '\'' !in value)
        || (token == key + ":\"" + value + "\"" && '"' !in value))
  }

  lemma NoColonInKey(key: string)
    requires KeyName(key)
    ensures ':' !in key
  {
  }

  lemma KeyAndRaw(token: string, key: string, raw: string)
    requires token == key + ":" + raw
    ensures token[..|key|] == key && token[|key|] == ':' && token[|key| + 1..] == raw
  {
  }

  lemma QuotedWhole(token: string, key: string, value: string, mark: char)
    requires KeyName(key) && value != "" && Mark(mark) && mark !in value && token == key + ":" + ([mark] + value + [mark])
    ensures Solid(token) && Says(token, key, value)
  {
    NoColonInKey(key);
    KeyAndRaw(token, key, [mark] + value + [mark]);
    assert token == key + ":" + [mark] + value + [mark];
    QuotedIsSolid(key, value, mark);
  }

  lemma BareWhole(token: string, key: string, value: string)
    requires KeyName(key) && value != "" && !Mark(value[0]) && token == key + ":" + value
    requires forall i :: 0 <= i < |value| ==> !White(value[i])
    ensures Solid(token) && Says(token, key, value)
  {
    NoColonInKey(key);
    KeyAndRaw(token, key, value);
    forall i | 0 <= i < |token| ensures !White(token[i]) {
      if i < |key| { KeyCharsArePlain(key[i]); } else if i > |key| { assert token[i] == value[i - |key| - 1]; }
    }
  }

  lemma WholeIsSolid(token: string, key: string, value: string)
    requires WrittenWhole(token, key, value)
    ensures Solid(token) && Says(token, key, value)
  {
    if token == key + ":'" + value + "'" && '\'' !in value {
      assert token == key + ":" + (['\''] + value + ['\'']);
      QuotedWhole(token, key, value, '\'');
    } else if token == key + ":\"" + value + "\"" && '"' !in value {
      assert token == key + ":" + (['"'] + value + ['"']);
      QuotedWhole(token, key, value, '"');
    } else {
      BareWhole(token, key, value);
    }
  }

  lemma OneToken(token: string)
    requires token != "" && Solid(token)
    ensures Tokens(token) == [token]
  {
    assert Join([token]) == token;
    TokensOfJoin([], [token]);
    ScanAll(token);
    assert [] + [token] == [token];
  }

  /** A query of one filter sets that filter, and nothing else; one of an unknown key or type stays text. */
  lemma SingleFilter(token: string, key: string, value: string)
    requires WrittenWhole(token, key, value)
    ensures Parsed(token) ==
            if key == "lang" then ("", Filters(None, Some(AsciiLower(value)), None, None))
            else if key == "path" then ("", Filters(Some(value), None, None, None))
            else if key == "type" && (value == "diff" || value == "commit" || value == "file") then ("", Filters(None, None, Some(value), None))
            else if key == "pat" then ("", Filters(None, None, None, Some(value)))
            else if key == "patterntype" && value == "structural" then ("", Filters(None, None, None, Some("")))
            else (token, Filters(None, None, None, None))
  {
    WholeIsSolid(token, key, value);
    OneToken(token);
    DecisionOf(token, key, value);
    ParsedOne(token, Decide(token));
  }

  lemma ParsedOne(token: string, d: Decision)
    requires Tokens(token) == [token] && Decide(token) == d
    ensures Parsed(token) ==
            if d.Structural? then ("", NO_FILTERS.(pattern := Some("")))
            else (if d.Keep? then token else "", WithValue(NO_FILTERS, d))
  {
    var none: seq<string> := [];
    assert [token][..0] == none;
    assert Kept([token]) == none + if d.Keep? then [token] else [];
    assert LastValues([token]) == WithValue(NO_FILTERS, d);
    assert AsksStructural([token]) <==> d.Structural?;
  }
}
