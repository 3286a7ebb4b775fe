/**
  When nDCG (research/cce_research/metrics.py) can exceed 1: gold ranges and gold
  files both gain, but only one kind is counted in the ideal sum.  Line ranges
  are proper, as the schema demands (research/cce_research/schema.py).
 */
module RankExcess {
  import opened RankMetrics
  import opened Sets
  import opened Wrappers

  predicate Proper(r: Range) {
    1 <= r.startLine <= r.endLine
  }

  predicate AllProper(ranges: seq<Range>) {
    forall i :: 0 <= i < |ranges| ==> Proper(ranges[i])
  }

  predicate HasLine(g: Range, path: string, line: int) {
    g.path == path && g.startLine <= line <= g.endLine
  }

  /** Some of the gold ranges, and in each a line that no later one of them has. */
  datatype Picks = Picks(golds: seq<nat>, lines: seq<int>)

  predicate OneByOne(c: Case, picks: Picks) {
    && |picks.golds| == |picks.lines|
    && (forall i :: 0 <= i < |picks.golds| ==>
          picks.golds[i] < |c.goldRanges| && HasLine(c.goldRanges[picks.golds[i]], c.goldRanges[picks.golds[i]].path, picks.lines[i]))
    && (forall i, j :: 0 <= i < j < |picks.golds| ==>
          !HasLine(c.goldRanges[picks.golds[j]], c.goldRanges[picks.golds[i]].path, picks.lines[i]))
  }

  // ----- No list gains more often than its picks and files -----

  function FilesIn(keys: set<Key>): set<string> {
    set k | k in keys && k.gold.None? :: k.path
  }

  /** Every gold range with one of the picked lines is covered. */
  ghost predicate PickedAreCovered(c: Case, picks: Picks, covered: set<Key>) {
    OneByOne(c, picks) &&
    forall i, q: nat :: 0 <= i < |picks.golds| && q < |c.goldRanges| &&
      HasLine(c.goldRanges[q], c.goldRanges[picks.golds[i]].path, picks.lines[i])
      ==> Key(c.goldRanges[picks.golds[i]].path, Some(q)) in covered
  }

  lemma PickOneMore(c: Case, picks: Picks, covered: set<Key>, candidate: Range, q: nat) returns (more: Picks)
    requires AllProper(c.goldRanges) && Proper(candidate) && PickedAreCovered(c, picks, covered)
    requires q < |c.goldRanges| && Overlaps(c.goldRanges[q], candidate) && Key(candidate.path, Some(q)) !in covered
    ensures |more.golds| == |picks.golds| + 1
    ensures PickedAreCovered(c, more, covered + RangeKeys(c, candidate))
  {
    var gold := c.goldRanges[q];
    var line := if gold.startLine <= candidate.startLine then candidate.startLine else gold.startLine;
    more := Picks(picks.golds + [q], picks.lines + [line]);
    forall j: nat | j < |c.goldRanges| && HasLine(c.goldRanges[j], gold.path, line)
      ensures Key(gold.path, Some(j)) in RangeKeys(c, candidate)
    {
      assert Overlaps(c.goldRanges[j], candidate);
    }
  }

  lemma MoreCovered(c: Case, picks: Picks, covered: set<Key>, more: set<Key>)
    requires PickedAreCovered(c, picks, covered) && covered <= more
    ensures PickedAreCovered(c, picks, more)
  {
  }

  lemma FilesGrow(was: set<Key>, now: set<Key>, path: string)
    requires was <= now && Key(path, None) in now && Key(path, None) !in was
    ensures |FilesIn(now)| >= |FilesIn(was)| + 1
  {
    var before, after := FilesIn(was), FilesIn(now);
    assert path in after && path !in before;
    assert before + {path} <= after by {
      forall f | f in before ensures f in after { assert Key(f, None) in was; }
    }
    SubsetIsNoLarger(before + {path}, after);
  }

  lemma FilesKept(was: set<Key>, now: set<Key>)
    requires was <= now
    ensures |FilesIn(was)| <= |FilesIn(now)|
  {
    forall f | f in FilesIn(was) ensures f in FilesIn(now) { assert Key(f, None) in was; }
    SubsetIsNoLarger(FilesIn(was), FilesIn(now));
  }

  /** The gains of a list are used up by gold ranges hit one by one and by distinct files. */
  lemma {:induction false} GainsArePicked(c: Case, retrieved: seq<Range>) returns (picks: Picks)
    requires AllProper(c.goldRanges) && AllProper(retrieved)
    ensures PickedAreCovered(c, picks, Covered(c, retrieved))
    ensures Count(Gains(c, retrieved)) <= |picks.golds| + |FilesIn(Covered(c, retrieved))|
    decreases |retrieved|
  {
    if retrieved == [] {
      picks := Picks([], []);
    } else {
      var above, last := retrieved[..|retrieved| - 1], retrieved[|retrieved| - 1];
      var before := GainsArePicked(c, above);
      var was, now := Covered(c, above), Covered(c, retrieved);
      assert now == was + RangeKeys(c, last) + FileKeys(c, last);
      GainsAreBounded(c, above);
      assert Gains(c, retrieved)[..|above|] == Gains(c, above);
      picks := LastGain(c, before, was, last);
    }
  }

  lemma LastGain(c: Case, before: Picks, was: set<Key>, last: Range) returns (picks: Picks)
    requires AllProper(c.goldRanges) && Proper(last) && PickedAreCovered(c, before, was)
    ensures var now := was + RangeKeys(c, last) + FileKeys(c, last);
            && PickedAreCovered(c, picks, now)
            && |before.golds| + |FilesIn(was)| + (if (RangeKeys(c, last) + FileKeys(c, last)) - was != {} then 1 else 0)
               <= |picks.golds| + |FilesIn(now)|
  {
    var now := was + RangeKeys(c, last) + FileKeys(c, last);
    if k :| k in RangeKeys(c, last) && k !in was {
      picks := PickOneMore(c, before, was, last, k.gold.value);
      MoreCovered(c, picks, was + RangeKeys(c, last), now);
      FilesKept(was, now);
    } else {
      picks := before;
      MoreCovered(c, picks, was, now);
      if k :| k in FileKeys(c, last) && k !in was {
        FilesGrow(was, now, last.path);
      } else {
        FilesKept(was, now);
      }
    }
  }

  // ----- And some list gains that often -----

  predicate AllGain(c: Case, retrieved: seq<Range>) {
    forall i :: 0 <= i < |Gains(c, retrieved)| ==> Gains(c, retrieved)[i]
  }

  lemma GainsSnoc(c: Case, retrieved: seq<Range>, last: Range)
    ensures Gains(c, retrieved + [last]) ==
            Gains(c, retrieved) + [(RangeKeys(c, last) + FileKeys(c, last)) - Covered(c, retrieved) != {}]
    ensures Covered(c, retrieved + [last]) == Covered(c, retrieved) + RangeKeys(c, last) + FileKeys(c, last)
  {
    assert (retrieved + [last])[..|retrieved|] == retrieved;
  }

  lemma AllGainSnoc(c: Case, retrieved: seq<Range>, last: Range, key: Key)
    requires AllGain(c, retrieved) && key in RangeKeys(c, last) + FileKeys(c, last) && key !in Covered(c, retrieved)
    ensures AllGain(c, retrieved + [last])
  {
    GainsSnoc(c, retrieved, last);
  }

  function LastLine(c: Case, n: nat): int
    requires n <= |c.goldRanges|
  {
    if n == 0 then 0 else
    var before := LastLine(c, n - 1);
    if c.goldRanges[n - 1].endLine > before then c.goldRanges[n - 1].endLine else before
  }

  lemma {:induction false} LastLineIsLast(c: Case, n: nat)
    requires n <= |c.goldRanges|
    ensures 0 <= LastLine(c, n) && forall i :: 0 <= i < n ==> c.goldRanges[i].endLine <= LastLine(c, n)
  {
    if n > 0 { LastLineIsLast(c, n - 1); }
  }

  /** The line after every gold range of the case. */
  function Beyond(c: Case, file: string): Range {
    Range(file, LastLine(c, |c.goldRanges|) + 1, LastLine(c, |c.goldRanges|) + 1)
  }

  lemma BeyondHitsNoRange(c: Case, file: string)
    ensures Proper(Beyond(c, file)) && RangeKeys(c, Beyond(c, file)) == {}
  {
    LastLineIsLast(c, |c.goldRanges|);
  }

  /** Nothing is covered but some files as a whole. */
  ghost predicate OnlyFiles(covered: set<Key>, files: set<string>) {
    forall k :: k in covered <==> k.gold.None? && k.path in files
  }

  lemma FileGains(c: Case, files: set<string>, file: string, retrieved: seq<Range>)
    requires AllGain(c, retrieved) && OnlyFiles(Covered(c, retrieved), files) && file in FileSet(c) && file !in files
    ensures AllGain(c, retrieved + [Beyond(c, file)]) && OnlyFiles(Covered(c, retrieved + [Beyond(c, file)]), files + {file})
  {
    BeyondHitsNoRange(c, file);
    GainsSnoc(c, retrieved, Beyond(c, file));
    AllGainSnoc(c, retrieved, Beyond(c, file), Key(file, None));
  }

  /** Retrieving each file beyond its gold ranges gains once for each. */
  lemma {:induction false} FilesGain(c: Case, files: set<string>) returns (retrieved: seq<Range>)
    requires files <= FileSet(c)
    ensures AllProper(retrieved) && |retrieved| == |files| && AllGain(c, retrieved)
    ensures OnlyFiles(Covered(c, retrieved), files)
    decreases |files|
  {
    if files == {} {
      retrieved := [];
    } else {
      var file :| file in files;
      var rest := FilesGain(c, files - {file});
      FileGains(c, files - {file}, file, rest);
      BeyondHitsNoRange(c, file);
      assert files - {file} + {file} == files;
      retrieved := rest + [Beyond(c, file)];
    }
  }

  function AtLine(c: Case, picks: Picks, i: nat): Range
    requires OneByOne(c, picks) && i < |picks.golds|
  {
    Range(c.goldRanges[picks.golds[i]].path, picks.lines[i], picks.lines[i])
  }

  /** No range picked from n on is covered yet. */
  ghost predicate NoneCoveredFrom(c: Case, picks: Picks, n: nat, covered: set<Key>)
    requires OneByOne(c, picks)
  {
    forall j :: n <= j < |picks.golds| ==> Key(c.goldRanges[picks.golds[j]].path, Some(picks.golds[j])) !in covered
  }

  lemma PickGains(c: Case, picks: Picks, n: nat, retrieved: seq<Range>)
    requires AllProper(c.goldRanges) && OneByOne(c, picks) && n < |picks.golds|
    requires AllGain(c, retrieved) && NoneCoveredFrom(c, picks, n, Covered(c, retrieved))
    ensures Proper(AtLine(c, picks, n)) && AllGain(c, retrieved + [AtLine(c, picks, n)])
    ensures NoneCoveredFrom(c, picks, n + 1, Covered(c, retrieved + [AtLine(c, picks, n)]))
  {
    var last, q := AtLine(c, picks, n), picks.golds[n];
    assert Overlaps(c.goldRanges[q], last);
    GainsSnoc(c, retrieved, last);
    AllGainSnoc(c, retrieved, last, Key(last.path, Some(q)));
    forall j | n + 1 <= j < |picks.golds|
      ensures Key(c.goldRanges[picks.golds[j]].path, Some(picks.golds[j])) !in RangeKeys(c, last)
    {
      assert !HasLine(c.goldRanges[picks.golds[j]], c.goldRanges[q].path, picks.lines[n]);
    }
  }

  /** A list that gains once for each file and once for each pick. */
  lemma FilesThenPicks(c: Case, picks: Picks) returns (retrieved: seq<Range>)
    requires AllProper(c.goldRanges) && OneByOne(c, picks)
    ensures AllProper(retrieved) && |retrieved| == |FileSet(c)| + |picks.golds| && AllGain(c, retrieved)
  {
    retrieved := FilesGain(c, FileSet(c));
    for n := 0 to |picks.golds|
      invariant AllProper(retrieved) && |retrieved| == |FileSet(c)| + n && AllGain(c, retrieved)
      invariant NoneCoveredFrom(c, picks, n, Covered(c, retrieved))
    {
      PickGains(c, picks, n, retrieved);
      retrieved := retrieved + [AtLine(c, picks, n)];
    }
  }

  // ----- The exact condition -----

  lemma RatioAboveOne(a: real, b: real)
    requires 0.0 < b
    ensures a / b > 1.0 <==> a > b
  {
    assert (a / b - 1.0) * b == a - b;
    ProductSign(a / b - 1.0, b);
  }

  lemma ProductSign(x: real, b: real)
    requires 0.0 < b
    ensures x > 0.0 <==> x * b > 0.0
  {
  }

  lemma AllGainsDcg(gains: seq<bool>, disc: nat -> real)
    requires Discount(disc) && forall i :: 0 <= i < |gains| ==> gains[i]
    ensures Dcg(disc, gains) == Ideal(disc, |gains|)
  {
    LeadingCount(gains, |gains|);
    CountAtMostLength(gains);
    LeadingRanksAreBest(disc, gains);
  }

  /** A list of gains all through exceeds 1 as soon as it is longer than the ideal one. */
  lemma AllGainsExceed(c: Case, retrieved: seq<Range>, disc: nat -> real)
    requires Discount(disc) && AllGain(c, retrieved) && 0 < GoldItems(c) < |retrieved|
    ensures NdcgOf(c, retrieved, disc) > 1.0
  {
    var gains, n := Gains(c, retrieved), |retrieved|;
    GainsAreBounded(c, retrieved);
    AllGainsDcg(gains, disc);
    IdealGrows(disc, GoldItems(c), n);
    IdealGrows(disc, 0, GoldItems(c));
    RatioAboveOne(Dcg(disc, gains), Ideal(disc, GoldItems(c)));
  }

  /** Above 1, a list gains more often than there are gold items counted. */
  lemma ExcessGains(c: Case, retrieved: seq<Range>, disc: nat -> real)
    requires Discount(disc) && NdcgOf(c, retrieved, disc) > 1.0
    ensures Count(Gains(c, retrieved)) > GoldItems(c)
  {
    var gains, k := Gains(c, retrieved), IdealRelevant(c, retrieved);
    GainsAreBounded(c, retrieved);
    CountAtMostLength(gains);
    LeadingRanksAreBest(disc, gains);
    IdealGrows(disc, 0, k);
    RatioAboveOne(Dcg(disc, gains), Ideal(disc, k));
    if Count(gains) <= k {
      IdealGrows(disc, Count(gains), k);
    }
  }

  ghost predicate Exceeds(c: Case, disc: nat -> real, retrieved: seq<Range>) {
    AllProper(retrieved) && NdcgOf(c, retrieved, disc) > 1.0
  }

  /** More gold ranges can be hit one by one than all gold ranges less the files. */
  ghost predicate Crowded(c: Case, picks: Picks) {
    OneByOne(c, picks) && |picks.golds| + |FileSet(c)| > |c.goldRanges|
  }

  /**
    Some list exceeds 1 exactly when there are gold ranges, and more of them can be
    hit one by one than there are gold ranges less gold files.
   */
  lemma NdcgExceedsOneExactly(c: Case, disc: nat -> real)
    requires Discount(disc) && AllProper(c.goldRanges)
    ensures (exists retrieved :: Exceeds(c, disc, retrieved)) <==> c.goldRanges != [] && exists picks :: Crowded(c, picks)
  {
    if retrieved :| Exceeds(c, disc, retrieved) {
      ExcessGains(c, retrieved, disc);
      var picks := GainsArePicked(c, retrieved);
      CoveredIsGold(c, retrieved);
      assert FilesIn(Covered(c, retrieved)) <= FileSet(c);
      SubsetIsNoLarger(FilesIn(Covered(c, retrieved)), FileSet(c));
      assert 0 < |picks.golds| ==> picks.golds[0] < |c.goldRanges|;
      assert Crowded(c, picks);
    }
    if picks :| c.goldRanges != [] && Crowded(c, picks) {
      var retrieved := FilesThenPicks(c, picks);
      AllGainsExceed(c, retrieved, disc);
      assert Exceeds(c, disc, retrieved);
    }
  }

  // ----- Cases with both kinds -----

  /** No two gold ranges of a file start on the same line. */
  predicate StartsDiffer(c: Case) {
    forall i, j :: 0 <= i < j < |c.goldRanges| ==>
      c.goldRanges[i].path != c.goldRanges[j].path || c.goldRanges[i].startLine != c.goldRanges[j].startLine
  }

  function Starts(c: Case, golds: seq<nat>): seq<int>
    requires forall i :: 0 <= i < |golds| ==> golds[i] < |c.goldRanges|
  {
    seq(|golds|, i requires 0 <= i < |golds| => c.goldRanges[golds[i]].startLine)
  }

  predicate Rising(c: Case, golds: seq<nat>) {
    && (forall i :: 0 <= i < |golds| ==> golds[i] < |c.goldRanges|)
    && (forall i, j :: 0 <= i < j < |golds| ==>
          golds[i] != golds[j] && c.goldRanges[golds[i]].startLine <= c.goldRanges[golds[j]].startLine)
  }

  lemma {:induction false} LatestStart(c: Case, some: set<nat>) returns (q: nat)
    requires some != {} && forall i :: i in some ==> i < |c.goldRanges|
    ensures q in some && forall i :: i in some ==> c.goldRanges[i].startLine <= c.goldRanges[q].startLine
    decreases |some|
  {
    var x :| x in some;
    q := x;
    if some != {x} {
      assert some - {x} != {};
      var y := LatestStart(c, some - {x});
      if c.goldRanges[y].startLine > c.goldRanges[x].startLine { q := y; }
    }
  }

  lemma {:induction false} InRisingOrder(c: Case, some: set<nat>) returns (golds: seq<nat>)
    requires forall i :: i in some ==> i < |c.goldRanges|
    ensures |golds| == |some| && Rising(c, golds) && forall i :: 0 <= i < |golds| ==> golds[i] in some
    decreases |some|
  {
    if some == {} {
      golds := [];
    } else {
      var q := LatestStart(c, some);
      var rest := InRisingOrder(c, some - {q});
      golds := rest + [q];
    }
  }

  /** Gold ranges with different starts are hit one by one, first lines first. */
  lemma DifferentStartsGoOneByOne(c: Case) returns (picks: Picks)
    requires AllProper(c.goldRanges) && StartsDiffer(c)
    ensures OneByOne(c, picks) && |picks.golds| == |c.goldRanges|
  {
    IndicesSize(|c.goldRanges|);
    var golds := InRisingOrder(c, Indices(|c.goldRanges|));
    picks := Picks(golds, Starts(c, golds));
    forall i, j | 0 <= i < j < |golds|
      ensures !HasLine(c.goldRanges[golds[j]], c.goldRanges[golds[i]].path, picks.lines[i])
    {
      assert golds[i] != golds[j];
      assert golds[i] < golds[j] || golds[j] < golds[i];
    }
  }

  /** With both kinds annotated and all gold ranges hit one by one, some list exceeds 1. */
  lemma NdcgCanExceedOne(c: Case, disc: nat -> real, picks: Picks) returns (retrieved: seq<Range>)
    requires Discount(disc) && AllProper(c.goldRanges) && c.goldRanges != [] && c.goldFiles != []
    requires OneByOne(c, picks) && |picks.golds| == |c.goldRanges|
    ensures Exceeds(c, disc, retrieved)
  {
    assert c.goldFiles[0] in FileSet(c);
    retrieved := FilesThenPicks(c, picks);
    AllGainsExceed(c, retrieved, disc);
  }

  /** When no two gold ranges start alike, nDCG stays within 1 for all lists exactly when one kind is not annotated. */
  lemma WithinOneExactlyForOneKind(c: Case, disc: nat -> real)
    requires Discount(disc) && AllProper(c.goldRanges) && StartsDiffer(c)
    ensures (forall retrieved :: AllProper(retrieved) ==> NdcgOf(c, retrieved, disc) <= 1.0) <==>
            c.goldRanges == [] || c.goldFiles == []
  {
    if c.goldRanges == [] || c.goldFiles == [] {
      forall retrieved | AllProper(retrieved) ensures NdcgOf(c, retrieved, disc) <= 1.0 {
        NdcgAtMostOne(c, retrieved, disc);
      }
    } else {
      var picks := DifferentStartsGoOneByOne(c);
      var retrieved := NdcgCanExceedOne(c, disc, picks);
    }
  }
}
