/**
  The unified-diff scanner (crates/cce-engine/src/diff.rs): it walks the lines of
  a stored patch with two line counters and records matching `+` and `-` lines
  per file.  The reference is the edit script a patch was rendered from.
 */
module PatchScan {
  import opened Common
  import opened Decimals
  import opened Wrappers
  import QueryFilters

  const MAX_MATCHED_LINES_PER_FILE: nat := 32

  type Regex = string -> bool

  // ----- Words and numbers -----

  datatype WordScan = WordScan(words: seq<string>, word: string)

  function Flushed(st: WordScan): seq<string> {
    if st.word == "" then st.words else st.words + [st.word]
  }

  function WordsSoFar(s: string): WordScan {
    if s == "" then WordScan([], "") else
    var st := WordsSoFar(s[..|s| - 1]);
    if QueryFilters.White(s[|s| - 1]) then WordScan(Flushed(st), "") else WordScan(st.words, st.word + [s[|s| - 1]])
  }

  /** `split_whitespace` */
  function Words(s: string): seq<string> {
    Flushed(WordsSoFar(s))
  }

  function StripPrefix(s: string, prefix: string): Option<string> {
    if prefix <= s then Some(s[|prefix|..]) else None
  }

  /** `split(',').next()` */
  function BeforeComma(s: string): string {
    if s == "" || s[0] == ',' then "" else [s[0]] + BeforeComma(s[1..])
  }

  /** `str::parse::<u32>` */
  function ParseU32(s: string): Option<nat> {
    var digits := if s != "" && s[0] == '+' then s[1..] else s;
    if digits != "" && Digits(digits) && NatOf(digits) < U32 then Some(NatOf(digits)) else None
  }

  /** A number parses exactly when it is digits, after a plus sign or without, that stay below 2^32. */
  lemma ParseExactly(s: string, n: nat)
    ensures ParseU32(s) == Some(n) <==>
            n < 4294967296 && exists digits :: (s == digits || s == "+" + digits) && Numeral(digits, n)
  {
    var digits := if s != "" && s[0] == '+' then s[1..] else s;
    if ParseU32(s) == Some(n) {
      assert s == digits || s == "+" + digits;
      assert Numeral(digits, n);
    }
    if n < 4294967296 {
      forall d | (s == d || s == "+" + d) && Numeral(d, n) ensures ParseU32(s) == Some(n) {
        assert Digit(d[0]) && d[0] != '+';
        assert d == digits;
      }
    }
  }

  predicate Numeral(digits: string, n: nat) {
    digits != "" && Digits(digits) && NatOf(digits) == n
  }

  // ----- Hunk headers -----

  /** The number of the last word with the given sign; None when that word does not parse, or there is none. */
  function LastSigned(words: seq<string>, sign: char): Option<nat> {
    if words == [] then None else
    var last := words[|words| - 1];
    if last != "" && last[0] == sign then ParseU32(BeforeComma(last[1..])) else LastSigned(words[..|words| - 1], sign)
  }

  lemma SignedNext(words: seq<string>, n: nat, sign: char)
    requires n < |words|
    ensures LastSigned(words[..n + 1], sign) ==
              if words[n] != "" && words[n][0] == sign then ParseU32(BeforeComma(words[n][1..])) else LastSigned(words[..n], sign)
  {
    assert words[..n + 1][..n] == words[..n];
  }

  function HeaderNumbers(header: string): Option<(nat, nat)> {
    match (LastSigned(Words(header), '-'), LastSigned(Words(header), '+'))
    case (Some(oldLine), Some(newLine)) => Some((oldLine, newLine))
    case _ => None
  }

  method ParseHunkHeader(header: string) returns (numbers: Option<(nat, nat)>)
    ensures numbers == HeaderNumbers(header)
  {
    var words := Words(header);
    var oldLine: Option<nat> := None;
    var newLine: Option<nat> := None;
    for n := 0 to |words|
      invariant oldLine == LastSigned(words[..n], '-') && newLine == LastSigned(words[..n], '+')
    {
      var token := words[n];
      SignedNext(words, n, '-');
      SignedNext(words, n, '+');
      if token != "" && token[0] == '-' {
        oldLine := ParseU32(BeforeComma(token[1..]));
      } else if token != "" && token[0] == '+' {
        newLine := ParseU32(BeforeComma(token[1..]));
      }
    }
    assert words[..|words|] == words;
    numbers := if oldLine.Some? && newLine.Some? then Some((oldLine.value, newLine.value)) else None;
  }

  // ----- The scan -----

  datatype Match = Match(line: nat, added: bool, text: string)

  datatype Section = Section(matches: seq<Match>, truncated: nat)

  type Sections = map<string, Section>

  const EMPTY := Section([], 0)

  function SectionAt(sections: Sections, path: string): Section {
    if path in sections then sections[path] else EMPTY
  }

  function Record(section: Section, m: Match): Section {
    if |section.matches| >= MAX_MATCHED_LINES_PER_FILE then section.(truncated := section.truncated + 1)
    else section.(matches := section.matches + [m])
  }

  function Recorded(sections: Sections, path: string, m: Match): Sections {
    sections[path := Record(SectionAt(sections, path), m)]
  }

  datatype Line = File(path: string) | Header(text: string) | Added(text: string) | Removed(text: string) | Context | Skipped

  /** `a/<path> b/<path>`: the last word without its `b/`, or nothing. */
  function PathOf(rest: string): string {
    var words := Words(rest);
    if words == [] then "" else
    match StripPrefix(words[|words| - 1], "b/")
    case Some(path) => path
    case None => ""
  }

  function Classify(line: string): Line {
    if "diff --git " <= line then File(PathOf(line[11..]))
    else if "@@ " <= line then Header(line[3..])
    else if "--- " <= line || "+++ " <= line || "\\" <= line then Skipped
    else if line == "" then Skipped
    else if line[0] == '+' then Added(line[1..])
    else if line[0] == '-' then Removed(line[1..])
    else if line[0] == ' ' then Context
    else Skipped
  }

  lemma Prefixed(mark: string, rest: string)
    ensures mark <= mark + rest && (mark + rest)[|mark|..] == rest
  {
  }

  lemma NoPrefix(mark: string, line: string)
    requires mark != "" && line != "" && mark[0] != line[0]
    ensures !(mark <= line)
  {
  }

  lemma MarkTwice(c: char, mark: string, rest: string)
    ensures [c] + mark <= [c] + rest <==> mark <= rest
  {
    var a, b := [c] + mark, [c] + rest;
    assert a[1..] == mark && b[1..] == rest;
    if a <= b { assert a[1..] == b[1..|a|] == rest[..|mark|]; }
    if mark <= rest { assert a == b[..|a|]; }
  }

  /** What each kind of line says, whatever follows its mark. */
  lemma MarksExactly(rest: string)
    ensures Classify("diff --git " + rest) == File(PathOf(rest)) && Classify("@@ " + rest) == Header(rest)
    ensures Classify("--- " + rest).Skipped? && Classify("+++ " + rest).Skipped? && Classify("\\" + rest).Skipped?
    ensures Classify(" " + rest).Context?
  {
    Prefixed("diff --git ", rest);
    Prefixed("@@ ", rest);
    NoPrefix("diff --git ", "@@ " + rest);
    Prefixed("--- ", rest);
    Prefixed("+++ ", rest);
    Prefixed("\\", rest);
    NoMarks("--- " + rest);
    NoMarks("+++ " + rest);
    NoMarks("\\" + rest);
    NoMarks(" " + rest);
    NoPrefix("--- ", " " + rest);
    NoPrefix("+++ ", " " + rest);
    NoPrefix("\\", " " + rest);
  }

  lemma NoMarks(line: string)
    requires line != "" && line[0] != 'd' && line[0] != '@'
    ensures !("diff --git " <= line) && !("@@ " <= line)
  {
    NoPrefix("diff --git ", line);
    NoPrefix("@@ ", line);
  }

  /** A line of the new image is added and one of the old removed, unless it looks like a file name. */
  lemma ChangesExactly(text: string)
    ensures Classify("+" + text) == if "++ " <= text then Skipped else Added(text)
    ensures Classify("-" + text) == if "-- " <= text then Skipped else Removed(text)
  {
    NoMarks("+" + text);
    NoMarks("-" + text);
    MarkTwice('+', "++ ", text);
    MarkTwice('-', "-- ", text);
    NoPrefix("--- ", "+" + text);
    NoPrefix("+++ ", "-" + text);
    NoPrefix("\\", "+" + text);
    NoPrefix("\\", "-" + text);
    assert ['+'] + "++ " == "+++ " && ['-'] + "-- " == "--- ";
    assert ("+" + text)[1..] == text && ("-" + text)[1..] == text;
  }

  /** The counters are `u32` and wrap. */
  function Next(n: nat): nat {
    (n + 1) % U32
  }

  /** A counter goes up by one, and from 2^32 - 1 to 0. */
  lemma CounterWraps(n: nat)
    requires n < 4294967296
    ensures Next(n) == if n == 4294967295 then 0 else n + 1
  {
  }

  datatype Scan = Scan(path: string, oldLine: nat, newLine: nat, sections: Sections)

  function ScanLine(regex: Regex, st: Scan, line: string): Scan {
    match Classify(line)
    case File(path) => st.(path := path)
    case Header(text) =>
      (match HeaderNumbers(text)
       case Some(numbers) => st.(oldLine := numbers.0, newLine := numbers.1)
       case None => st)
    case Added(text) =>
      st.(newLine := Next(st.newLine),
          sections := if regex(text) then Recorded(st.sections, st.path, Match(st.newLine, true, text)) else st.sections)
    case Removed(text) =>
      st.(oldLine := Next(st.oldLine),
          sections := if regex(text) then Recorded(st.sections, st.path, Match(st.oldLine, false, text)) else st.sections)
    case Context => st.(oldLine := Next(st.oldLine), newLine := Next(st.newLine))
    case Skipped => st
  }

  function ScanLines(regex: Regex, st: Scan, lines: seq<string>): Scan {
    if lines == [] then st else ScanLine(regex, ScanLines(regex, st, lines[..|lines| - 1]), lines[|lines| - 1])
  }

  const START := Scan("", 0, 0, map[])

  method ScanPatch(lines: seq<string>, regex: Regex) returns (sections: Sections)
    ensures sections == ScanLines(regex, START, lines).sections
  {
    sections := map[];
    var path := "";
    var oldLine, newLine := 0, 0;
    for n := 0 to |lines|
      invariant Scan(path, oldLine, newLine, sections) == ScanLines(regex, START, lines[..n])
    {
      var line := lines[n];
      assert lines[..n + 1][..n] == lines[..n];
      match Classify(line)
      case File(p) =>
        path := p;
      case Header(header) =>
        var numbers := ParseHunkHeader(header);
        if numbers.Some? {
          oldLine, newLine := numbers.value.0, numbers.value.1;
        }
      case Skipped =>
      case Context =>
        oldLine, newLine := Next(oldLine), Next(newLine);
      case Added(text) =>
        var number := newLine;
        newLine := Next(newLine);
        if regex(text) {
          sections := AddMatch(sections, path, Match(number, true, text));
        }
      case Removed(text) =>
        var number := oldLine;
        oldLine := Next(oldLine);
        if regex(text) {
          sections := AddMatch(sections, path, Match(number, false, text));
        }
    }
    assert lines[..|lines|] == lines;
  }

  method AddMatch(sections: Sections, path: string, m: Match) returns (updated: Sections)
    ensures updated == Recorded(sections, path, m)
  {
    var section := if path in sections then sections[path] else EMPTY;
    if |section.matches| >= MAX_MATCHED_LINES_PER_FILE {
      section := section.(truncated := section.truncated + 1);
    } else {
      section := section.(matches := section.matches + [m]);
    }
    updated := sections[path := section];
  }
}
