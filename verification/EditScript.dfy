/**
  Edit scripts and the hunk bodies rendered from them: what the scanner of
  crates/cce-engine/src/diff.rs reports for a body, told from the script alone.
 */
module EditScript {
  import opened Common
  import opened PatchScan

  /** One line of an edit; `Marker` is "no newline at end of file". */
  datatype Op = Keep(text: string) | Add(text: string) | Del(text: string) | Marker

  function PreOf(op: Op): seq<string> {
    if op.Keep? || op.Del? then [op.text] else []
  }

  function PostOf(op: Op): seq<string> {
    if op.Keep? || op.Add? then [op.text] else []
  }

  /** The old lines of the script's part [lo, hi). */
  function Pre(ops: seq<Op>, lo: nat, hi: nat): seq<string>
    requires lo <= hi <= |ops|
    decreases hi
  {
    if lo == hi then [] else Pre(ops, lo, hi - 1) + PreOf(ops[hi - 1])
  }

  /** The new lines of the script's part [lo, hi). */
  function Post(ops: seq<Op>, lo: nat, hi: nat): seq<string>
    requires lo <= hi <= |ops|
    decreases hi
  {
    if lo == hi then [] else Post(ops, lo, hi - 1) + PostOf(ops[hi - 1])
  }

  function BodyLine(op: Op): string {
    match op
    case Keep(text) => " " + text
    case Add(text) => "+" + text
    case Del(text) => "-" + text
    case Marker => "\\ No newline at end of file"
  }

  function Body(ops: seq<Op>, lo: nat, hi: nat): seq<string>
    requires lo <= hi <= |ops|
  {
    seq(hi - lo, i requires 0 <= i < hi - lo => BodyLine(ops[lo + i]))
  }

  predicate TwiceThenBlank(text: string, c: char) {
    |text| >= 3 && text[0] == c && text[1] == c && text[2] == ' '
  }

  /** A body line that reads as a file header: the scanner skips it and does not count it. */
  predicate Masked(op: Op) {
    (op.Add? && TwiceThenBlank(op.text, '+')) || (op.Del? && TwiceThenBlank(op.text, '-'))
  }

  function OldCount(op: Op): nat {
    if op.Keep? || (op.Del? && !Masked(op)) then 1 else 0
  }

  function NewCount(op: Op): nat {
    if op.Keep? || (op.Add? && !Masked(op)) then 1 else 0
  }

  /** Old-image lines the scanner counts in a body. */
  function OldSeen(ops: seq<Op>, lo: nat, hi: nat): nat
    requires lo <= hi <= |ops|
    decreases hi
  {
    if lo == hi then 0 else OldSeen(ops, lo, hi - 1) + OldCount(ops[hi - 1])
  }

  function NewSeen(ops: seq<Op>, lo: nat, hi: nat): nat
    requires lo <= hi <= |ops|
    decreases hi
  {
    if lo == hi then 0 else NewSeen(ops, lo, hi - 1) + NewCount(ops[hi - 1])
  }

  function MaskedDels(ops: seq<Op>, lo: nat, hi: nat): nat
    requires lo <= hi <= |ops|
    decreases hi
  {
    if lo == hi then 0 else MaskedDels(ops, lo, hi - 1) + if ops[hi - 1].Del? && Masked(ops[hi - 1]) then 1 else 0
  }

  function MaskedAdds(ops: seq<Op>, lo: nat, hi: nat): nat
    requires lo <= hi <= |ops|
    decreases hi
  {
    if lo == hi then 0 else MaskedAdds(ops, lo, hi - 1) + if ops[hi - 1].Add? && Masked(ops[hi - 1]) then 1 else 0
  }

  /** Drift: each masked line leaves its counter one short of the image, and nothing else does. */
  lemma {:induction false} SeenIsImageLessMasked(ops: seq<Op>, lo: nat, hi: nat)
    requires lo <= hi <= |ops|
    ensures OldSeen(ops, lo, hi) + MaskedDels(ops, lo, hi) == |Pre(ops, lo, hi)|
    ensures NewSeen(ops, lo, hi) + MaskedAdds(ops, lo, hi) == |Post(ops, lo, hi)|
    decreases hi
  {
    if lo < hi { SeenIsImageLessMasked(ops, lo, hi - 1); }
  }

  /** The image of a part continues the image of what is before it. */
  lemma {:induction false} ImageContinues(ops: seq<Op>, lo: nat, hi: nat)
    requires lo <= hi <= |ops|
    ensures |Pre(ops, 0, hi)| == |Pre(ops, 0, lo)| + |Pre(ops, lo, hi)|
    ensures |Post(ops, 0, hi)| == |Post(ops, 0, lo)| + |Post(ops, lo, hi)|
    decreases hi
  {
    if lo < hi { ImageContinues(ops, lo, hi - 1); }
  }

  // ----- What a body reports -----

  /** An added or removed line that matches. */
  predicate Hit(regex: Regex, op: Op) {
    (op.Add? || op.Del?) && regex(op.text)
  }

  function Numbered(op: Op, oldLine: nat, newLine: nat): Match
    requires op.Add? || op.Del?
  {
    Match(if op.Add? then newLine else oldLine, op.Add?, op.text)
  }

  /** What one body line reports, with the counters standing at the given lines. */
  function Reported(regex: Regex, op: Op, oldLine: nat, newLine: nat): seq<Match> {
    if Hit(regex, op) && !Masked(op) then [Numbered(op, oldLine, newLine)] else []
  }

  lemma FlattenSnoc(pieces: seq<seq<Match>>, last: seq<Match>)
    ensures Flatten(pieces + [last]) == Flatten(pieces) + last
  {
    assert (pieces + [last])[..|pieces|] == pieces;
  }

  lemma {:induction false} InFlatten(pieces: seq<seq<Match>>, m: Match)
    ensures m in Flatten(pieces) <==> exists i :: 0 <= i < |pieces| && m in pieces[i]
  {
    if pieces != [] {
      var front := pieces[..|pieces| - 1];
      InFlatten(front, m);
      assert forall i :: 0 <= i < |front| ==> front[i] == pieces[i];
    }
  }

  function Pieces(regex: Regex, ops: seq<Op>, lo: nat, hi: nat, oldStart: nat, newStart: nat): seq<seq<Match>>
    requires lo <= hi <= |ops|
  {
    seq(hi - lo, i requires 0 <= i < hi - lo =>
      Reported(regex, ops[lo + i], oldStart + OldSeen(ops, lo, lo + i), newStart + NewSeen(ops, lo, lo + i)))
  }

  /** What a hunk body reports, the counters starting at the given lines. */
  function Matches(regex: Regex, ops: seq<Op>, lo: nat, hi: nat, oldStart: nat, newStart: nat): seq<Match>
    requires lo <= hi <= |ops|
  {
    Flatten(Pieces(regex, ops, lo, hi, oldStart, newStart))
  }

  lemma MatchesSnoc(regex: Regex, ops: seq<Op>, lo: nat, k: nat, o: nat, n: nat)
    requires lo <= k < |ops|
    ensures Matches(regex, ops, lo, k + 1, o, n) ==
            Matches(regex, ops, lo, k, o, n) + Reported(regex, ops[k], o + OldSeen(ops, lo, k), n + NewSeen(ops, lo, k))
  {
    var last := Reported(regex, ops[k], o + OldSeen(ops, lo, k), n + NewSeen(ops, lo, k));
    FlattenSnoc(Pieces(regex, ops, lo, k, o, n), last);
    assert Pieces(regex, ops, lo, k + 1, o, n) == Pieces(regex, ops, lo, k, o, n) + [last];
  }

  function AddAll(sections: Sections, path: string, ms: seq<Match>): Sections {
    if ms == [] then sections else Recorded(AddAll(sections, path, ms[..|ms| - 1]), path, ms[|ms| - 1])
  }

  /** The literal prefixes the scanner looks for, by their first characters. */
  lemma HeaderPrefixes(line: string)
    requires line != ""
    ensures "diff --git " <= line ==> line[0] == 'd'
    ensures "@@ " <= line ==> line[0] == '@'
    ensures "--- " <= line ==> line[0] == '-'
    ensures "+++ " <= line ==> line[0] == '+'
    ensures "\\" <= line <==> line[0] == '\\'
  {
  }

  lemma ClassifyBody(op: Op)
    ensures Classify(BodyLine(op)) ==
            if Masked(op) then Skipped
            else match op
                 case Keep(_) => Context
                 case Add(text) => Added(text)
                 case Del(text) => Removed(text)
                 case Marker => Skipped
  {
    var line := BodyLine(op);
    HeaderPrefixes(line);
    if op.Add? {
      assert line[1..] == op.text;
      PrefixAfterSign('+', "++ ", op.text);
      assert ['+'] + "++ " == "+++ ";
    } else if op.Del? {
      assert line[1..] == op.text;
      PrefixAfterSign('-', "-- ", op.text);
      assert ['-'] + "-- " == "--- ";
    }
  }

  lemma PrefixAfterSign(sign: char, prefix: string, text: string)
    ensures [sign] + prefix <= [sign] + text <==> prefix <= text
  {
    if [sign] + prefix <= [sign] + text {
      assert ([sign] + text)[1..][..|prefix|] == ([sign] + prefix)[1..];
      assert ([sign] + text)[1..] == text && ([sign] + prefix)[1..] == prefix;
    }
  }

  /** One body line moves the counters by its images, unless it is masked. */
  function Effect(regex: Regex, st: Scan, op: Op): Scan {
    Scan(st.path, st.oldLine + OldCount(op), st.newLine + NewCount(op),
         AddAll(st.sections, st.path, Reported(regex, op, st.oldLine, st.newLine)))
  }

  lemma BodyLineScanned(regex: Regex, st: Scan, op: Op)
    requires st.oldLine + 1 < U32 && st.newLine + 1 < U32
    ensures ScanLine(regex, st, BodyLine(op)) == Effect(regex, st, op)
  {
    ClassifyBody(op);
    forall m ensures AddAll(st.sections, st.path, [m]) == Recorded(st.sections, st.path, m) {
      assert [m][..0] == [];
    }
  }

  /** Where a scan stands after a hunk body, told from the script alone. */
  function AfterBody(regex: Regex, st: Scan, ops: seq<Op>, lo: nat, hi: nat): Scan
    requires lo <= hi <= |ops|
  {
    Scan(st.path, st.oldLine + OldSeen(ops, lo, hi), st.newLine + NewSeen(ops, lo, hi),
         AddAll(st.sections, st.path, Matches(regex, ops, lo, hi, st.oldLine, st.newLine)))
  }

  lemma {:induction false} AddAllAppend(sections: Sections, path: string, first: seq<Match>, second: seq<Match>)
    ensures AddAll(sections, path, first + second) == AddAll(AddAll(sections, path, first), path, second)
    decreases |second|
  {
    if second == [] {
      assert first + second == first;
    } else {
      var ms := first + second;
      assert ms[..|ms| - 1] == first + second[..|second| - 1];
      AddAllAppend(sections, path, first, second[..|second| - 1]);
    }
  }

  predicate Reads(regex: Regex, st: Scan, lines: seq<string>, end: Scan) {
    ScanLines(regex, st, lines) == end
  }

  lemma ReadsNext(regex: Regex, st: Scan, lines: seq<string>, mid: Scan, line: string, end: Scan)
    requires Reads(regex, st, lines, mid) && ScanLine(regex, mid, line) == end
    ensures Reads(regex, st, lines + [line], end)
  {
    assert (lines + [line])[..|lines|] == lines;
  }

  lemma EffectOn(regex: Regex, mid: Scan, path: string, o: nat, n: nat, sections: Sections, ms: seq<Match>, op: Op)
    requires mid == Scan(path, o, n, AddAll(sections, path, ms))
    ensures Effect(regex, mid, op) ==
            Scan(path, o + OldCount(op), n + NewCount(op), AddAll(sections, path, ms + Reported(regex, op, o, n)))
  {
    AddAllAppend(sections, path, ms, Reported(regex, op, o, n));
  }

  /** A body with one more line, taken apart. */
  lemma AfterBodySnoc(regex: Regex, st: Scan, ops: seq<Op>, lo: nat, k: nat) returns (o: nat, n: nat, ms: seq<Match>)
    requires lo <= k < |ops|
    ensures AfterBody(regex, st, ops, lo, k) == Scan(st.path, o, n, AddAll(st.sections, st.path, ms))
    ensures AfterBody(regex, st, ops, lo, k + 1) ==
            Scan(st.path, o + OldCount(ops[k]), n + NewCount(ops[k]),
                 AddAll(st.sections, st.path, ms + Reported(regex, ops[k], o, n)))
  {
    MatchesSnoc(regex, ops, lo, k, st.oldLine, st.newLine);
    o, n := st.oldLine + OldSeen(ops, lo, k), st.newLine + NewSeen(ops, lo, k);
    ms := Matches(regex, ops, lo, k, st.oldLine, st.newLine);
  }

  lemma AfterNextLine(regex: Regex, st: Scan, ops: seq<Op>, lo: nat, k: nat)
    requires lo <= k < |ops|
    ensures Effect(regex, AfterBody(regex, st, ops, lo, k), ops[k]) == AfterBody(regex, st, ops, lo, k + 1)
  {
    var o, n, ms := AfterBodySnoc(regex, st, ops, lo, k);
    EffectOn(regex, AfterBody(regex, st, ops, lo, k), st.path, o, n, st.sections, ms, ops[k]);
  }

  lemma NextBodyLine(regex: Regex, st: Scan, ops: seq<Op>, lo: nat, k: nat)
    requires lo <= k < |ops|
    requires st.oldLine + OldSeen(ops, lo, k) + 1 < U32 && st.newLine + NewSeen(ops, lo, k) + 1 < U32
    ensures ScanLine(regex, AfterBody(regex, st, ops, lo, k), BodyLine(ops[k])) == AfterBody(regex, st, ops, lo, k + 1)
  {
    BodyLineScanned(regex, AfterBody(regex, st, ops, lo, k), ops[k]);
    AfterNextLine(regex, st, ops, lo, k);
  }

  lemma {:induction false} SeenGrows(ops: seq<Op>, lo: nat, k: nat, hi: nat)
    requires lo <= k <= hi <= |ops|
    ensures OldSeen(ops, lo, k) <= OldSeen(ops, lo, hi) && NewSeen(ops, lo, k) <= NewSeen(ops, lo, hi)
    decreases hi
  {
    if k < hi { SeenGrows(ops, lo, k, hi - 1); }
  }

  /** The counters do not wrap in a body. */
  predicate Fits(st: Scan, ops: seq<Op>, lo: nat, hi: nat)
    requires lo <= hi <= |ops|
  {
    st.oldLine + OldSeen(ops, lo, hi) + 1 < U32 && st.newLine + NewSeen(ops, lo, hi) + 1 < U32
  }

  /** The state after the body's line k, reached by scanning that line. */
  lemma NextState(regex: Regex, st: Scan, ops: seq<Op>, lo: nat, k: nat, hi: nat, mid: Scan) returns (next: Scan)
    requires lo <= k < hi <= |ops| && Fits(st, ops, lo, hi) && mid == AfterBody(regex, st, ops, lo, k)
    ensures next == AfterBody(regex, st, ops, lo, k + 1) && ScanLine(regex, mid, BodyLine(ops[k])) == next
  {
    SeenGrows(ops, lo, k, hi);
    NextBodyLine(regex, st, ops, lo, k);
    next := AfterBody(regex, st, ops, lo, k + 1);
  }

  lemma NoBody(regex: Regex, st: Scan, ops: seq<Op>, lo: nat)
    requires lo <= |ops|
    ensures AfterBody(regex, st, ops, lo, lo) == st && Body(ops, lo, lo) == []
  {
  }

  lemma BodySnoc(ops: seq<Op>, lo: nat, k: nat)
    requires lo <= k < |ops|
    ensures Body(ops, lo, k + 1) == Body(ops, lo, k) + [BodyLine(ops[k])]
  {
  }

  /** The body up to line k is scanned as foretold. */
  predicate ReadUpTo(regex: Regex, st: Scan, ops: seq<Op>, lo: nat, k: nat)
    requires lo <= k <= |ops|
  {
    Reads(regex, st, Body(ops, lo, k), AfterBody(regex, st, ops, lo, k))
  }

  lemma OneMoreLine(regex: Regex, st: Scan, ops: seq<Op>, lo: nat, k: nat, hi: nat)
    requires lo <= k < hi <= |ops| && Fits(st, ops, lo, hi) && ReadUpTo(regex, st, ops, lo, k)
    ensures ReadUpTo(regex, st, ops, lo, k + 1)
  {
    var mid := AfterBody(regex, st, ops, lo, k);
    var next := NextState(regex, st, ops, lo, k, hi, mid);
    ReadsNext(regex, st, Body(ops, lo, k), mid, BodyLine(ops[k]), next);
    BodySnoc(ops, lo, k);
  }

  /** Scanning a rendered hunk body, masked lines or not, reports `Matches` and advances the counters by what it sees. */
  lemma BodyScanned(regex: Regex, st: Scan, ops: seq<Op>, lo: nat, hi: nat)
    requires lo <= hi <= |ops| && Fits(st, ops, lo, hi)
    ensures ScanLines(regex, st, Body(ops, lo, hi)) == AfterBody(regex, st, ops, lo, hi)
  {
    NoBody(regex, st, ops, lo);
    for k := lo to hi
      invariant ReadUpTo(regex, st, ops, lo, k)
    {
      OneMoreLine(regex, st, ops, lo, k, hi);
    }
  }

  // ----- Numbers in the images -----

  /** The line numbers a script line has in the two files. */
  function OldNumber(ops: seq<Op>, k: nat): nat
    requires k <= |ops|
  {
    |Pre(ops, 0, k)| + 1
  }

  function NewNumber(ops: seq<Op>, k: nat): nat
    requires k <= |ops|
  {
    |Post(ops, 0, k)| + 1
  }

  function ImageMatch(regex: Regex, ops: seq<Op>, k: nat): seq<Match>
    requires k < |ops|
  {
    if Hit(regex, ops[k]) then [Numbered(ops[k], OldNumber(ops, k), NewNumber(ops, k))] else []
  }

  function ImagePieces(regex: Regex, ops: seq<Op>, lo: nat, hi: nat): seq<seq<Match>>
    requires lo <= hi <= |ops|
  {
    seq(hi - lo, i requires 0 <= i < hi - lo => ImageMatch(regex, ops, lo + i))
  }

  /** The matching lines of a part, added ones with their new number and removed ones with their old number. */
  function ImageMatches(regex: Regex, ops: seq<Op>, lo: nat, hi: nat): seq<Match>
    requires lo <= hi <= |ops|
  {
    Flatten(ImagePieces(regex, ops, lo, hi))
  }

  /** No line of the part [lo, hi) is masked. */
  predicate Unmasked(ops: seq<Op>, lo: nat, hi: nat)
    requires lo <= hi <= |ops|
  {
    forall i :: lo <= i < hi ==> !Masked(ops[i])
  }

  lemma {:induction false} NothingMasked(ops: seq<Op>, lo: nat, hi: nat)
    requires lo <= hi <= |ops|
    ensures MaskedAdds(ops, lo, hi) + MaskedDels(ops, lo, hi) == 0 <==> Unmasked(ops, lo, hi)
    decreases hi
  {
    if lo < hi { NothingMasked(ops, lo, hi - 1); }
  }

  lemma NumbersAfter(ops: seq<Op>, lo: nat, k: nat)
    requires lo <= k <= |ops| && Unmasked(ops, lo, k)
    ensures OldNumber(ops, lo) + OldSeen(ops, lo, k) == OldNumber(ops, k)
    ensures NewNumber(ops, lo) + NewSeen(ops, lo, k) == NewNumber(ops, k)
  {
    NothingMasked(ops, lo, k);
    SeenIsImageLessMasked(ops, lo, k);
    ImageContinues(ops, lo, k);
  }

  /** A counter may start anywhere when its side of the part is empty. */
  predicate StartsRight(ops: seq<Op>, lo: nat, hi: nat, o: nat, n: nat)
    requires lo <= hi <= |ops|
  {
    && (o == OldNumber(ops, lo) || Pre(ops, lo, hi) == [])
    && (n == NewNumber(ops, lo) || Post(ops, lo, hi) == [])
  }

  lemma ReportedIsImageMatch(regex: Regex, ops: seq<Op>, lo: nat, k: nat, o: nat, n: nat)
    requires lo <= k < |ops| && Unmasked(ops, lo, k + 1)
    requires o == OldNumber(ops, lo) || !ops[k].Del?
    requires n == NewNumber(ops, lo) || !ops[k].Add?
    ensures Reported(regex, ops[k], o + OldSeen(ops, lo, k), n + NewSeen(ops, lo, k)) == ImageMatch(regex, ops, k)
  {
    NumbersAfter(ops, lo, k);
  }

  lemma {:induction false} EmptyImage(ops: seq<Op>, lo: nat, k: nat, hi: nat)
    requires lo <= k < hi <= |ops|
    ensures Pre(ops, lo, hi) == [] ==> !ops[k].Del?
    ensures Post(ops, lo, hi) == [] ==> !ops[k].Add?
    decreases hi
  {
    if k < hi - 1 { EmptyImage(ops, lo, k, hi - 1); }
  }

  lemma PieceIsImage(regex: Regex, ops: seq<Op>, lo: nat, hi: nat, k: nat, o: nat, n: nat)
    requires lo <= k < hi <= |ops| && Unmasked(ops, lo, hi) && StartsRight(ops, lo, hi, o, n)
    ensures Reported(regex, ops[k], o + OldSeen(ops, lo, k), n + NewSeen(ops, lo, k)) == ImageMatch(regex, ops, k)
  {
    EmptyImage(ops, lo, k, hi);
    ReportedIsImageMatch(regex, ops, lo, k, o, n);
  }

  lemma PiecesAt(regex: Regex, ops: seq<Op>, lo: nat, hi: nat, k: nat, o: nat, n: nat)
    requires lo <= k < hi <= |ops|
    ensures Pieces(regex, ops, lo, hi, o, n)[k - lo] ==
            Reported(regex, ops[k], o + OldSeen(ops, lo, k), n + NewSeen(ops, lo, k))
    ensures ImagePieces(regex, ops, lo, hi)[k - lo] == ImageMatch(regex, ops, k)
  {
  }

  /** Counted from the right start, a body without masked lines reports the numbers of the images. */
  lemma MatchesAreImageMatches(regex: Regex, ops: seq<Op>, lo: nat, hi: nat, o: nat, n: nat)
    requires lo <= hi <= |ops| && Unmasked(ops, lo, hi) && StartsRight(ops, lo, hi, o, n)
    ensures Matches(regex, ops, lo, hi, o, n) == ImageMatches(regex, ops, lo, hi)
  {
    var seen, onImage := Pieces(regex, ops, lo, hi, o, n), ImagePieces(regex, ops, lo, hi);
    forall i | 0 <= i < hi - lo ensures seen[i] == onImage[i] {
      PieceIsImage(regex, ops, lo, hi, lo + i, o, n);
      PiecesAt(regex, ops, lo, hi, lo + i, o, n);
    }
    assert seen == onImage;
  }

  lemma ImageMatchesSnoc(regex: Regex, ops: seq<Op>, lo: nat, k: nat)
    requires lo <= k < |ops|
    ensures ImageMatches(regex, ops, lo, k + 1) == ImageMatches(regex, ops, lo, k) + ImageMatch(regex, ops, k)
  {
    FlattenSnoc(ImagePieces(regex, ops, lo, k), ImageMatch(regex, ops, k));
    assert ImagePieces(regex, ops, lo, k + 1) == ImagePieces(regex, ops, lo, k) + [ImageMatch(regex, ops, k)];
  }

  /** Of the lines a regex accepts, all but the masked ones are reported. */
  lemma {:induction false} ReportedLessMasked(regex: Regex, ops: seq<Op>, lo: nat, hi: nat, o: nat, n: nat)
    requires lo <= hi <= |ops| && forall text :: regex(text)
    ensures |Matches(regex, ops, lo, hi, o, n)| + MaskedAdds(ops, lo, hi) + MaskedDels(ops, lo, hi) == |ImageMatches(regex, ops, lo, hi)|
    decreases hi
  {
    if lo < hi {
      ReportedLessMasked(regex, ops, lo, hi - 1, o, n);
      MatchesSnoc(regex, ops, lo, hi - 1, o, n);
      ImageMatchesSnoc(regex, ops, lo, hi - 1);
    }
  }

  /** A body reports the matching lines with their image numbers, whatever the regex, exactly when none of its lines is masked. */
  lemma ImageMatchesExactly(ops: seq<Op>, lo: nat, hi: nat, o: nat, n: nat)
    requires lo <= hi <= |ops| && StartsRight(ops, lo, hi, o, n)
    ensures (forall regex: Regex :: Matches(regex, ops, lo, hi, o, n) == ImageMatches(regex, ops, lo, hi)) <==> Unmasked(ops, lo, hi)
  {
    if Unmasked(ops, lo, hi) {
      forall regex: Regex ensures Matches(regex, ops, lo, hi, o, n) == ImageMatches(regex, ops, lo, hi) {
        MatchesAreImageMatches(regex, ops, lo, hi, o, n);
      }
    } else {
      var all: Regex := text => true;
      ReportedLessMasked(all, ops, lo, hi, o, n);
      NothingMasked(ops, lo, hi);
      assert Matches(all, ops, lo, hi, o, n) != ImageMatches(all, ops, lo, hi);
    }
  }

  /** A reported line is in the image, at the number reported. */
  predicate OnImage(regex: Regex, ops: seq<Op>, m: Match) {
    && regex(m.text) && 1 <= m.line
    && if m.added then m.line <= |Post(ops, 0, |ops|)| && Post(ops, 0, |ops|)[m.line - 1] == m.text
       else m.line <= |Pre(ops, 0, |ops|)| && Pre(ops, 0, |ops|)[m.line - 1] == m.text
  }

  /** The line at index k of a script stands in the images at its numbers. */
  lemma LineInImages(ops: seq<Op>, k: nat)
    requires k < |ops|
    ensures ops[k].Add? ==> |Post(ops, 0, k)| < |Post(ops, 0, |ops|)| && Post(ops, 0, |ops|)[|Post(ops, 0, k)|] == ops[k].text
    ensures ops[k].Del? ==> |Pre(ops, 0, k)| < |Pre(ops, 0, |ops|)| && Pre(ops, 0, |ops|)[|Pre(ops, 0, k)|] == ops[k].text
  {
    for j := k + 1 to |ops|
      invariant ops[k].Add? ==> |Post(ops, 0, k)| < |Post(ops, 0, j)| && Post(ops, 0, j)[|Post(ops, 0, k)|] == ops[k].text
      invariant ops[k].Del? ==> |Pre(ops, 0, k)| < |Pre(ops, 0, j)| && Pre(ops, 0, j)[|Pre(ops, 0, k)|] == ops[k].text
    {
    }
  }

  /** The matches of a part are those of its lines, none missed and none added. */
  lemma MatchesAreOfLines(regex: Regex, ops: seq<Op>, lo: nat, hi: nat, m: Match)
    requires lo <= hi <= |ops|
    ensures m in ImageMatches(regex, ops, lo, hi) <==> exists k :: lo <= k < hi && m in ImageMatch(regex, ops, k)
  {
    var pieces := ImagePieces(regex, ops, lo, hi);
    InFlatten(pieces, m);
    forall k | lo <= k < hi ensures pieces[k - lo] == ImageMatch(regex, ops, k) {
    }
  }

  lemma MatchesOnImage(regex: Regex, ops: seq<Op>, lo: nat, hi: nat, m: Match)
    requires lo <= hi <= |ops| && m in ImageMatches(regex, ops, lo, hi)
    ensures OnImage(regex, ops, m)
  {
    MatchesAreOfLines(regex, ops, lo, hi, m);
    var k :| lo <= k < hi && m in ImageMatch(regex, ops, k);
    LineInImages(ops, k);
  }
}
