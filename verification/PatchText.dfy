/**
  Patches as rendered text: what the scanner of crates/cce-engine/src/diff.rs
  reads from hunk headers, files and whole patches.
 */
module PatchText {
  import opened Common
  import opened Decimals
  import opened Wrappers
  import opened PatchScan
  import opened EditScript
  import QueryFilters

  // ----- Rendered hunk headers -----

  predicate Plain(s: string) {
    forall i :: 0 <= i < |s| ==> !QueryFilters.White(s[i])
  }

  /** `start[,count]`: a count of 1 is left out. */
  function Span(start: nat, count: nat): (s: string)
    ensures Plain(s)
  {
    if count == 1 then Decimal(start) else Decimal(start) + "," + Decimal(count)
  }

  lemma {:induction false} BeforeCommaOf(digits: string, rest: string)
    requires Digits(digits)
    ensures BeforeComma(digits) == digits && BeforeComma(digits + "," + rest) == digits
  {
    if digits == "" {
      assert digits + "," + rest == "," + rest;
    } else {
      BeforeCommaOf(digits[1..], rest);
      assert (digits + "," + rest)[1..] == digits[1..] + "," + rest;
    }
  }

  lemma SpanStart(start: nat, count: nat)
    requires start < U32
    ensures ParseU32(BeforeComma(Span(start, count))) == Some(start)
  {
    BeforeCommaOf(Decimal(start), Decimal(count));
    NatOfDecimal(start);
  }

  lemma WordsSnoc(s: string, c: char)
    ensures WordsSoFar(s + [c]) ==
            if QueryFilters.White(c) then WordScan(Flushed(WordsSoFar(s)), "") else WordScan(WordsSoFar(s).words, WordsSoFar(s).word + [c])
  {
    assert (s + [c])[..|s|] == s;
  }

  predicate WordRead(prefix: string, word: string, whole: string) {
    WordsSoFar(whole) == WordScan(WordsSoFar(prefix).words, WordsSoFar(prefix).word + word)
  }

  lemma WordReadNext(prefix: string, word: string, c: char)
    requires WordRead(prefix, word, prefix + word) && !QueryFilters.White(c)
    ensures WordRead(prefix, word + [c], prefix + word + [c])
  {
    WordsSnoc(prefix + word, c);
    assert WordsSoFar(prefix).word + word + [c] == WordsSoFar(prefix).word + (word + [c]);
  }

  lemma ReadWord(prefix: string, word: string)
    requires Plain(word)
    ensures WordRead(prefix, word, prefix + word)
  {
    var read := "";
    assert prefix + read == prefix && WordsSoFar(prefix).word + read == WordsSoFar(prefix).word;
    while |read| < |word|
      invariant |read| <= |word| && read == word[..|read|]
      invariant WordRead(prefix, read, prefix + read)
    {
      var c := word[|read|];
      WordReadNext(prefix, read, c);
      assert prefix + read + [c] == prefix + (read + [c]);
      read := read + [c];
    }
    assert read == word;
  }

  lemma {:induction false} ReadAfterBlank(a: string, b: string)
    requires WordsSoFar(a).word == ""
    ensures WordsSoFar(a + b) == WordScan(WordsSoFar(a).words + WordsSoFar(b).words, WordsSoFar(b).word)
    decreases |b|
  {
    if b == "" {
      assert a + b == a;
    } else {
      ReadAfterBlank(a, b[..|b| - 1]);
      assert (a + b)[..|a + b| - 1] == a + b[..|b| - 1];
    }
  }

  /** A blank splits the words. */
  lemma WordsAround(a: string, b: string)
    ensures Words(a + " " + b) == Words(a) + Words(b)
  {
    var left := a + " ";
    assert left[..|left| - 1] == a;
    assert WordsSoFar(left) == WordScan(Words(a), "");
    ReadAfterBlank(left, b);
  }

  lemma WordsOfWord(w: string)
    requires w != "" && Plain(w)
    ensures Words(w) == [w]
  {
    ReadWord("", w);
    assert "" + w == w;
  }

  predicate Signed(word: string, sign: char) {
    |word| > 0 && word[0] == sign
  }

  predicate HasSigned(words: seq<string>, sign: char) {
    exists i :: 0 <= i < |words| && Signed(words[i], sign)
  }

  lemma LastSignedSnoc(words: seq<string>, word: string, sign: char)
    ensures LastSigned(words + [word], sign) ==
            if Signed(word, sign) then ParseU32(BeforeComma(word[1..])) else LastSigned(words, sign)
  {
    assert (words + [word])[..|words|] == words;
  }

  lemma HasSignedSnoc(words: seq<string>, word: string, sign: char)
    ensures HasSigned(words + [word], sign) <==> HasSigned(words, sign) || Signed(word, sign)
  {
    var more := words + [word];
    assert forall i :: 0 <= i < |words| ==> more[i] == words[i];
    assert more[|words|] == word;
  }

  /** The words at the back decide, if one of them has the sign. */
  predicate BackDecides(front: seq<string>, back: seq<string>, whole: seq<string>, sign: char) {
    LastSigned(whole, sign) == if HasSigned(back, sign) then LastSigned(back, sign) else LastSigned(front, sign)
  }

  lemma BackDecidesNext(front: seq<string>, init: seq<string>, last: string, sign: char)
    requires BackDecides(front, init, front + init, sign)
    ensures BackDecides(front, init + [last], front + init + [last], sign)
  {
    LastSignedSnoc(front + init, last, sign);
    LastSignedSnoc(init, last, sign);
    HasSignedSnoc(init, last, sign);
  }

  lemma LastSignedOf(front: seq<string>, back: seq<string>, sign: char)
    ensures BackDecides(front, back, front + back, sign)
  {
    var init: seq<string> := [];
    assert front + init == front;
    while |init| < |back|
      invariant |init| <= |back| && init == back[..|init|]
      invariant BackDecides(front, init, front + init, sign)
    {
      var last := back[|init|];
      BackDecidesNext(front, init, last, sign);
      assert front + init + [last] == front + (init + [last]);
      init := init + [last];
    }
    assert init == back;
  }

  /** The closing `@@`, and the section heading that may follow it. */
  function HeaderTail(heading: Option<string>): string {
    match heading case None => "@@" case Some(text) => "@@" + " " + text
  }

  function SpansText(o: string, n: string, heading: Option<string>): string {
    "-" + o + " " + ("+" + n + " " + HeaderTail(heading))
  }

  /** The header after its leading `@@ `. */
  function HeaderText(oldStart: nat, oldCount: nat, newStart: nat, newCount: nat, heading: Option<string>): string {
    SpansText(Span(oldStart, oldCount), Span(newStart, newCount), heading)
  }

  function HeadingWords(heading: Option<string>): seq<string> {
    match heading case None => [] case Some(text) => Words(text)
  }

  lemma TailWords(heading: Option<string>)
    ensures Words(HeaderTail(heading)) == ["@@"] + HeadingWords(heading)
  {
    WordsOfWord("@@");
    if heading.Some? {
      WordsAround("@@", heading.value);
    }
  }

  lemma TwoWordsThen(o: string, n: string, tail: string)
    requires o != "" && Plain(o) && n != "" && Plain(n)
    ensures Words(o + " " + (n + " " + tail)) == [o, n] + Words(tail)
  {
    WordsAround(o, n + " " + tail);
    WordsAround(n, tail);
    WordsOfWord(o);
    WordsOfWord(n);
    assert [o] + ([n] + Words(tail)) == [o, n] + Words(tail);
  }

  lemma SpansWords(o: string, n: string, heading: Option<string>)
    requires Plain(o) && Plain(n)
    ensures Words(SpansText(o, n, heading)) == ["-" + o, "+" + n, "@@"] + HeadingWords(heading)
  {
    TwoWordsThen("-" + o, "+" + n, HeaderTail(heading));
    TailWords(heading);
    assert ["-" + o, "+" + n] + (["@@"] + HeadingWords(heading)) == ["-" + o, "+" + n, "@@"] + HeadingWords(heading);
  }

  /** A heading keeps a counter when no word of it has that sign, or the last one that has repeats the number. */
  predicate Harmless(heading: Option<string>, sign: char, number: nat) {
    HasSigned(HeadingWords(heading), sign) ==> LastSigned(HeadingWords(heading), sign) == Some(number)
  }

  lemma ThreeWords(o: string, n: string)
    ensures LastSigned(["-" + o, "+" + n, "@@"], '-') == ParseU32(BeforeComma(o))
    ensures LastSigned(["-" + o, "+" + n, "@@"], '+') == ParseU32(BeforeComma(n))
  {
    var first, second := "-" + o, "+" + n;
    forall sign: char ensures LastSigned([first, second, "@@"], sign) ==
      if sign == '@' then ParseU32(BeforeComma("@"))
      else if sign == '+' then ParseU32(BeforeComma(n))
      else LastSigned([first], sign)
    {
      LastSignedSnoc([first, second], "@@", sign);
      LastSignedSnoc([first], second, sign);
      assert second[1..] == n && "@@"[1..] == "@";
      assert [first] + [second] == [first, second] && [first, second] + ["@@"] == [first, second, "@@"];
    }
    LastSignedSnoc([], first, '-');
    assert first[1..] == o && [] + [first] == [first];
  }

  /** A rendered header is read back exactly when its section heading is harmless on both sides. */
  lemma HeaderReadExactlyWhenHarmless(oldStart: nat, oldCount: nat, newStart: nat, newCount: nat, heading: Option<string>)
    requires oldStart < U32 && newStart < U32
    ensures HeaderNumbers(HeaderText(oldStart, oldCount, newStart, newCount, heading)) == Some((oldStart, newStart)) <==>
            Harmless(heading, '-', oldStart) && Harmless(heading, '+', newStart)
  {
    SpansWords(Span(oldStart, oldCount), Span(newStart, newCount), heading);
    var words := ["-" + Span(oldStart, oldCount), "+" + Span(newStart, newCount), "@@"];
    LastSignedOf(words, HeadingWords(heading), '-');
    LastSignedOf(words, HeadingWords(heading), '+');
    ThreeWords(Span(oldStart, oldCount), Span(newStart, newCount));
    SpanStart(oldStart, oldCount);
    SpanStart(newStart, newCount);
  }

  /** The words of a heading with a return arrow, and what follows the arrow. */
  lemma ArrowWords(before: string, after: string)
    ensures Words(before + " " + ("->" + " " + after)) == Words(before) + (["->"] + Words(after))
  {
    WordsAround(before, "->" + " " + after);
    WordsAround("->", after);
    WordsOfWord("->");
  }

  lemma ArrowIsNoNumber(front: seq<string>, back: seq<string>)
    requires !HasSigned(back, '-')
    ensures LastSigned(front + ["->"] + back, '-') == None
  {
    LastSignedOf(front + ["->"], back, '-');
    LastSignedSnoc(front, "->", '-');
    assert "->"[1..] == ">" && ">"[1..] == "" && BeforeComma(">") == ">";
    assert !Digit('>');
  }

  lemma NoOldNumber(header: string, front: seq<string>, back: seq<string>)
    requires Words(header) == front + ["->"] + back && !HasSigned(back, '-')
    ensures HeaderNumbers(header) == None
  {
    ArrowIsNoNumber(front, back);
  }

  lemma Regrouped(a: seq<string>, b: seq<string>, c: seq<string>, d: seq<string>)
    ensures a + (b + (c + d)) == a + b + c + d
  {
  }

  /** A return arrow in the heading makes the scanner drop the whole header. */
  lemma ArrowDropsHeader(oldStart: nat, oldCount: nat, newStart: nat, newCount: nat, before: string, after: string)
    requires !HasSigned(Words(after), '-')
    ensures HeaderNumbers(HeaderText(oldStart, oldCount, newStart, newCount, Some(before + " " + ("->" + " " + after)))) == None
  {
    var o, n := Span(oldStart, oldCount), Span(newStart, newCount);
    var heading := Some(before + " " + ("->" + " " + after));
    SpansWords(o, n, heading);
    ArrowWords(before, after);
    var words := ["-" + o, "+" + n, "@@"];
    Regrouped(words, Words(before), ["->"], Words(after));
    NoOldNumber(HeaderText(oldStart, oldCount, newStart, newCount, heading), words + Words(before), Words(after));
  }

  // ----- Files and patches -----

  /** A hunk shows the script's part [lo, hi). */
  datatype Hunk = Hunk(lo: nat, hi: nat, heading: Option<string>)

  /** One file of a patch: its whole edit script, and the hunks that show parts of it. */
  datatype FilePatch = FilePatch(path: string, extra: seq<string>, ops: seq<Op>, hunks: seq<Hunk>)

  /** The first line number of a side; a side without lines names the line before. */
  function StartOf(before: nat, count: nat): nat {
    if count == 0 then before else before + 1
  }

  function HunkHeader(ops: seq<Op>, h: Hunk): string
    requires h.lo <= h.hi <= |ops|
  {
    var olds, news := |Pre(ops, h.lo, h.hi)|, |Post(ops, h.lo, h.hi)|;
    HeaderText(StartOf(|Pre(ops, 0, h.lo)|, olds), olds, StartOf(|Post(ops, 0, h.lo)|, news), news, h.heading)
  }

  function HunkLines(ops: seq<Op>, h: Hunk): seq<string>
    requires h.lo <= h.hi <= |ops|
  {
    ["@@ " + HunkHeader(ops, h)] + Body(ops, h.lo, h.hi)
  }

  predicate InRange(f: FilePatch) {
    forall i :: 0 <= i < |f.hunks| ==> f.hunks[i].lo <= f.hunks[i].hi <= |f.ops|
  }

  function HunkParts(f: FilePatch): seq<seq<string>>
    requires InRange(f)
  {
    seq(|f.hunks|, i requires 0 <= i < |f.hunks| => HunkLines(f.ops, f.hunks[i]))
  }

  function FileHead(path: string): string {
    "diff --git " + ("a/" + path + " " + ("b/" + path))
  }

  function FileLines(f: FilePatch): seq<string>
    requires InRange(f)
  {
    [FileHead(f.path)] + f.extra + Flatten(HunkParts(f))
  }

  function HunkPieces(regex: Regex, f: FilePatch): seq<seq<Match>>
    requires InRange(f)
  {
    seq(|f.hunks|, i requires 0 <= i < |f.hunks| => ImageMatches(regex, f.ops, f.hunks[i].lo, f.hunks[i].hi))
  }

  /** The matching lines the hunks show, with their image numbers. */
  function FileMatches(regex: Regex, f: FilePatch): seq<Match>
    requires InRange(f)
  {
    Flatten(HunkPieces(regex, f))
  }

  /** The heading of a hunk changes neither of the numbers in its header. */
  predicate HeaderKept(ops: seq<Op>, h: Hunk)
    requires h.lo <= h.hi <= |ops|
  {
    && Harmless(h.heading, '-', StartOf(|Pre(ops, 0, h.lo)|, |Pre(ops, h.lo, h.hi)|))
    && Harmless(h.heading, '+', StartOf(|Post(ops, 0, h.lo)|, |Post(ops, h.lo, h.hi)|))
  }

  /** The images are short enough for the scanner's counters. */
  predicate Countable(ops: seq<Op>) {
    |Pre(ops, 0, |ops|)| + 3 < U32 && |Post(ops, 0, |ops|)| + 3 < U32
  }

  /** A file the scanner reads right: plain path, inert extra lines, a countable script, harmless headings, and no masked line shown. */
  predicate Readable(f: FilePatch) {
    && InRange(f) && Plain(f.path) && Countable(f.ops)
    && (forall i :: 0 <= i < |f.extra| ==> Classify(f.extra[i]).Skipped?)
    && (forall i :: 0 <= i < |f.hunks| ==> HeaderKept(f.ops, f.hunks[i]) && Unmasked(f.ops, f.hunks[i].lo, f.hunks[i].hi))
  }

  lemma ScanLast(regex: Regex, st: Scan, lines: seq<string>, whole: seq<string>, line: string)
    requires whole == lines + [line]
    ensures ScanLines(regex, st, whole) == ScanLine(regex, ScanLines(regex, st, lines), line)
  {
    assert whole[..|whole| - 1] == lines;
  }

  lemma {:induction false} ScanAppend(regex: Regex, st: Scan, first: seq<string>, second: seq<string>)
    ensures ScanLines(regex, st, first + second) == ScanLines(regex, ScanLines(regex, st, first), second)
    decreases |second|
  {
    if second == [] {
      assert first + second == first;
    } else {
      var init, last := second[..|second| - 1], second[|second| - 1];
      ScanAppend(regex, st, first, init);
      assert second == init + [last] && first + second == first + init + [last];
      ScanLast(regex, st, first + init, first + second, last);
      ScanLast(regex, ScanLines(regex, st, first), init, second, last);
    }
  }

  lemma {:induction false} SkippedLines(regex: Regex, st: Scan, lines: seq<string>)
    requires forall i :: 0 <= i < |lines| ==> Classify(lines[i]).Skipped?
    ensures ScanLines(regex, st, lines) == st
    decreases |lines|
  {
    if lines != [] { SkippedLines(regex, st, lines[..|lines| - 1]); }
  }

  /** The `---` and `+++` lines, and a line starting with another letter than d, are inert. */
  lemma FileNamesAreInert(line: string)
    requires "--- " <= line || "+++ " <= line || (line != "" && 'e' <= line[0] <= 'z')
    ensures Classify(line).Skipped?
  {
    if line != "" { HeaderPrefixes(line); }
  }

  lemma LastOfPath(path: string)
    requires Plain(path)
    ensures PathOf("a/" + path + " " + ("b/" + path)) == path
  {
    WordsAround("a/" + path, "b/" + path);
    WordsOfWord("a/" + path);
    WordsOfWord("b/" + path);
    assert ("b/" + path)[2..] == path && ("b/" + path)[..2] == "b/";
  }

  lemma FileHeadRead(path: string)
    requires Plain(path)
    ensures Classify(FileHead(path)) == File(path)
  {
    var rest := "a/" + path + " " + ("b/" + path);
    var line := "diff --git " + rest;
    assert line[11..] == rest && line[..11] == "diff --git ";
    LastOfPath(path);
  }

  lemma LastWord(left: string, last: string)
    requires last != "" && Plain(last)
    ensures PathOf(left + " " + last) == match StripPrefix(last, "b/") case Some(path) => path case None => ""
  {
    WordsAround(left, last);
    WordsOfWord(last);
  }

  lemma {:induction false} WordsArePlain(s: string)
    ensures Plain(WordsSoFar(s).word) && forall i :: 0 <= i < |WordsSoFar(s).words| ==> Plain(WordsSoFar(s).words[i])
    decreases |s|
  {
    if s != "" { WordsArePlain(s[..|s| - 1]); }
  }

  lemma PathIsPlain(rest: string)
    ensures Plain(PathOf(rest))
  {
    WordsArePlain(rest);
    var words := Words(rest);
    if words != [] {
      assert Plain(words[|words| - 1]);
    }
  }

  /** A file is filed under its own path exactly when the path has no white space. */
  lemma PathReadExactlyWhenPlain(path: string)
    ensures PathOf("a/" + path + " " + ("b/" + path)) == path <==> Plain(path)
  {
    PathIsPlain("a/" + path + " " + ("b/" + path));
    if Plain(path) { LastOfPath(path); }
  }

  /** A path with a blank is lost: the section is filed under what follows the blank, stripped of `b/`, or under nothing. */
  lemma BlankPathIsLost(first: string, last: string)
    requires last != "" && Plain(last)
    ensures var path := first + " " + last;
            PathOf("a/" + path + " " + ("b/" + path)) == (if "b/" <= last then last[2..] else "")
  {
    var path := first + " " + last;
    var left := "a/" + path + " " + ("b/" + first);
    assert "a/" + path + " " + ("b/" + path) == left + " " + last by {
      assert "b/" + path == "b/" + first + " " + last;
    }
    LastWord(left, last);
  }

  // ----- Scanning hunks -----

  lemma OneLine(regex: Regex, st: Scan, line: string)
    ensures ScanLines(regex, st, [line]) == ScanLine(regex, st, line)
  {
    var none: seq<string> := [];
    assert [line][..0] == none;
  }

  lemma HeaderLineRead(regex: Regex, st: Scan, text: string, o: nat, n: nat)
    requires HeaderNumbers(text) == Some((o, n))
    ensures ScanLines(regex, st, ["@@ " + text]) == st.(oldLine := o, newLine := n)
  {
    var line := "@@ " + text;
    HeaderPrefixes(line);
    assert line[..3] == "@@ " && line[3..] == text;
    OneLine(regex, st, line);
  }

  /** A hunk whose heading has no signed word is read like its body alone, from the numbers of its header. */
  lemma HunkRead(regex: Regex, st: Scan, text: string, o: nat, n: nat, ops: seq<Op>, lo: nat, hi: nat)
    requires lo <= hi <= |ops| && HeaderNumbers(text) == Some((o, n))
    requires Fits(st.(oldLine := o, newLine := n), ops, lo, hi)
    ensures ScanLines(regex, st, ["@@ " + text] + Body(ops, lo, hi)) ==
            AfterBody(regex, st.(oldLine := o, newLine := n), ops, lo, hi)
  {
    HeaderLineRead(regex, st, text, o, n);
    ScanAppend(regex, st, ["@@ " + text], Body(ops, lo, hi));
    BodyScanned(regex, st.(oldLine := o, newLine := n), ops, lo, hi);
  }

  lemma {:induction false} ImagesGrow(ops: seq<Op>, k: nat, hi: nat)
    requires k <= hi <= |ops|
    ensures |Pre(ops, 0, k)| <= |Pre(ops, 0, hi)| && |Post(ops, 0, k)| <= |Post(ops, 0, hi)|
    decreases hi
  {
    if k < hi { ImagesGrow(ops, k, hi - 1); }
  }

  /** The numbers of a rendered header start both counters right, and they do not wrap in the hunk. */
  lemma HeaderStarts(ops: seq<Op>, lo: nat, hi: nat, o: nat, n: nat, st: Scan)
    requires lo <= hi <= |ops| && Countable(ops)
    requires o == StartOf(|Pre(ops, 0, lo)|, |Pre(ops, lo, hi)|) && n == StartOf(|Post(ops, 0, lo)|, |Post(ops, lo, hi)|)
    ensures o < U32 && n < U32 && StartsRight(ops, lo, hi, o, n) && Fits(st.(oldLine := o, newLine := n), ops, lo, hi)
  {
    ImageContinues(ops, lo, hi);
    ImagesGrow(ops, hi, |ops|);
    SeenIsImageLessMasked(ops, lo, hi);
  }

  /** Scanning a file's lines keeps the path and adds the given matches. */
  predicate Adds(regex: Regex, st: Scan, lines: seq<string>, ms: seq<Match>) {
    var end := ScanLines(regex, st, lines);
    end.path == st.path && end.sections == AddAll(st.sections, st.path, ms)
  }

  lemma HunkScanned(regex: Regex, st: Scan, ops: seq<Op>, h: Hunk)
    requires h.lo <= h.hi <= |ops| && Countable(ops) && HeaderKept(ops, h) && Unmasked(ops, h.lo, h.hi)
    ensures Adds(regex, st, HunkLines(ops, h), ImageMatches(regex, ops, h.lo, h.hi))
  {
    var olds, news := |Pre(ops, h.lo, h.hi)|, |Post(ops, h.lo, h.hi)|;
    var o, n := StartOf(|Pre(ops, 0, h.lo)|, olds), StartOf(|Post(ops, 0, h.lo)|, news);
    HeaderStarts(ops, h.lo, h.hi, o, n, st);
    HeaderReadExactlyWhenHarmless(o, olds, n, news, h.heading);
    HunkRead(regex, st, HunkHeader(ops, h), o, n, ops, h.lo, h.hi);
    MatchesAreImageMatches(regex, ops, h.lo, h.hi, o, n);
  }

  /** Two scans in a row that stay on a path add up. */
  lemma Chained(regex: Regex, st: Scan, first: seq<string>, second: seq<string>, ms: seq<Match>, more: seq<Match>)
    requires Adds(regex, st, first, ms) && Adds(regex, ScanLines(regex, st, first), second, more)
    ensures Adds(regex, st, first + second, ms + more)
  {
    ScanAppend(regex, st, first, second);
    AddAllAppend(st.sections, st.path, ms, more);
  }

  /** Each part keeps the path and adds its piece, wherever the scan stands. */
  ghost predicate EachAdds(regex: Regex, parts: seq<seq<string>>, pieces: seq<seq<Match>>) {
    && |parts| == |pieces|
    && forall st: Scan, i :: 0 <= i < |parts| ==> Adds(regex, st, parts[i], pieces[i])
  }

  lemma {:induction false} PartsScanned(regex: Regex, st: Scan, parts: seq<seq<string>>, pieces: seq<seq<Match>>)
    requires EachAdds(regex, parts, pieces)
    ensures Adds(regex, st, Flatten(parts), Flatten(pieces))
    decreases |parts|
  {
    if parts != [] {
      var n := |parts| - 1;
      PartsScanned(regex, st, parts[..n], pieces[..n]);
      Chained(regex, st, Flatten(parts[..n]), parts[n], Flatten(pieces[..n]), pieces[n]);
    }
  }

  lemma HunksScanned(regex: Regex, st: Scan, f: FilePatch)
    requires Readable(f)
    ensures Adds(regex, st, Flatten(HunkParts(f)), FileMatches(regex, f))
  {
    var pieces := HunkPieces(regex, f);
    forall mid: Scan, i | 0 <= i < |f.hunks| ensures Adds(regex, mid, HunkParts(f)[i], pieces[i]) {
      HunkScanned(regex, mid, f.ops, f.hunks[i]);
    }
    PartsScanned(regex, st, HunkParts(f), pieces);
  }

  lemma HeadScanned(regex: Regex, st: Scan, path: string, extra: seq<string>)
    requires Plain(path) && forall i :: 0 <= i < |extra| ==> Classify(extra[i]).Skipped?
    ensures ScanLines(regex, st, [FileHead(path)] + extra) == st.(path := path)
  {
    FileHeadRead(path);
    OneLine(regex, st, FileHead(path));
    ScanAppend(regex, st, [FileHead(path)], extra);
    SkippedLines(regex, st.(path := path), extra);
  }

  lemma FileScanned(regex: Regex, st: Scan, f: FilePatch)
    requires Readable(f)
    ensures ScanLines(regex, st, FileLines(f)).sections == AddAll(st.sections, f.path, FileMatches(regex, f))
  {
    HeadScanned(regex, st, f.path, f.extra);
    ScanAppend(regex, st, [FileHead(f.path)] + f.extra, Flatten(HunkParts(f)));
    HunksScanned(regex, st.(path := f.path), f);
  }

  // ----- Whole patches -----

  predicate AllReadable(files: seq<FilePatch>) {
    forall i :: 0 <= i < |files| ==> Readable(files[i])
  }

  function PatchLines(files: seq<FilePatch>): seq<string>
    requires AllReadable(files)
  {
    if files == [] then [] else PatchLines(files[..|files| - 1]) + FileLines(files[|files| - 1])
  }

  /** The matches of a path in one file of a patch. */
  function MatchesIn(regex: Regex, f: FilePatch, path: string): seq<Match>
    requires InRange(f)
  {
    if f.path == path then FileMatches(regex, f) else []
  }

  /** Every match of a path over the whole patch, in order. */
  function MatchesOf(regex: Regex, files: seq<FilePatch>, path: string): seq<Match>
    requires AllReadable(files)
  {
    if files == [] then [] else
    MatchesOf(regex, files[..|files| - 1], path) + MatchesIn(regex, files[|files| - 1], path)
  }

  /** The first 32 matches, and the number of the others. */
  function Capped(ms: seq<Match>): Section {
    if |ms| <= 32 then Section(ms, 0) else Section(ms[..32], |ms| - 32)
  }

  lemma RecordCapped(ms: seq<Match>, m: Match)
    ensures Record(Capped(ms), m) == Capped(ms + [m])
  {
    if |ms| >= 32 {
      assert (ms + [m])[..32] == ms[..32];
    }
  }

  /** A path's entry is the capped list of its matches, and it has one exactly when it has a match. */
  predicate Holds(sections: Sections, path: string, ms: seq<Match>) {
    SectionAt(sections, path) == Capped(ms) && (path in sections <==> ms != [])
  }

  lemma HoldsRecorded(sections: Sections, path: string, m: Match, before: seq<Match>, q: string)
    requires Holds(sections, q, before)
    ensures Holds(Recorded(sections, path, m), q, if q == path then before + [m] else before)
  {
    RecordCapped(before, m);
  }

  lemma {:induction false} AddAllSection(sections: Sections, path: string, ms: seq<Match>, before: seq<Match>, q: string)
    requires Holds(sections, q, before)
    ensures Holds(AddAll(sections, path, ms), q, if q == path then before + ms else before)
    decreases |ms|
  {
    if ms == [] {
      assert before + ms == before;
    } else {
      var front, last := ms[..|ms| - 1], ms[|ms| - 1];
      AddAllSection(sections, path, front, before, q);
      HoldsRecorded(AddAll(sections, path, front), path, last, if q == path then before + front else before, q);
      assert before + front + [last] == before + ms;
    }
  }

  lemma NextFile(regex: Regex, st: Scan, f: FilePatch, before: seq<Match>, path: string)
    requires Readable(f) && Holds(st.sections, path, before)
    ensures Holds(ScanLines(regex, st, FileLines(f)).sections, path, before + MatchesIn(regex, f, path))
  {
    FileScanned(regex, st, f);
    AddAllSection(st.sections, f.path, FileMatches(regex, f), before, path);
    assert before + [] == before;
  }

  /**
    Scanning a rendered patch: a path has a section exactly when some line of it
    matches; its section holds the first 32 matches in order and counts the rest.
   */
  lemma {:induction false} PatchScanned(regex: Regex, files: seq<FilePatch>, path: string)
    requires AllReadable(files)
    ensures Holds(ScanLines(regex, START, PatchLines(files)).sections, path, MatchesOf(regex, files, path))
    decreases |files|
  {
    if files != [] {
      var front, last := files[..|files| - 1], files[|files| - 1];
      PatchScanned(regex, front, path);
      ScanAppend(regex, START, PatchLines(front), FileLines(last));
      NextFile(regex, ScanLines(regex, START, PatchLines(front)), last, MatchesOf(regex, front, path), path);
    }
  }

  /** A file's matches are those of the lines its hunks show, none missed and none added, each at its number in its image. */
  lemma FileMatchesExactly(regex: Regex, f: FilePatch, m: Match)
    requires InRange(f)
    ensures m in FileMatches(regex, f) <==>
            exists i, k :: 0 <= i < |f.hunks| && f.hunks[i].lo <= k < f.hunks[i].hi && m in ImageMatch(regex, f.ops, k)
    ensures m in FileMatches(regex, f) ==> OnImage(regex, f.ops, m)
  {
    InFlatten(HunkPieces(regex, f), m);
    forall i | 0 <= i < |f.hunks| ensures
      m in HunkPieces(regex, f)[i] <==> exists k :: f.hunks[i].lo <= k < f.hunks[i].hi && m in ImageMatch(regex, f.ops, k)
    {
      MatchesAreOfLines(regex, f.ops, f.hunks[i].lo, f.hunks[i].hi, m);
    }
    if m in FileMatches(regex, f) {
      var i :| 0 <= i < |f.hunks| && m in HunkPieces(regex, f)[i];
      MatchesOnImage(regex, f.ops, f.hunks[i].lo, f.hunks[i].hi, m);
    }
  }
}
