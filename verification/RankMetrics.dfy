/**
  nDCG with deduplicated gains (research/cce_research/metrics.py).  The discount
  1 / log2(rank + 2) is any positive, strictly decreasing function of the rank.
 */
module RankMetrics {
  import opened Common
  import opened Wrappers

  datatype Range = Range(path: string, startLine: int, endLine: int)

  datatype Case = Case(goldRanges: seq<Range>, goldFiles: seq<string>)

  predicate Overlaps(left: Range, right: Range) {
    left.path == right.path && left.startLine <= right.endLine && right.startLine <= left.endLine
  }

  /** A gold unit as the scorer names it: a gold range by index, or None for the file as a whole. */
  datatype Key = Key(path: string, gold: Option<nat>)

  function FileSet(c: Case): set<string> {
    set f | f in c.goldFiles
  }

  // ----- Reference gains -----

  function RangeKeys(c: Case, candidate: Range): set<Key> {
    set i | 0 <= i < |c.goldRanges| && Overlaps(c.goldRanges[i], candidate) :: Key(candidate.path, Some(i))
  }

  function FileKeys(c: Case, candidate: Range): set<Key> {
    if candidate.path in c.goldFiles then {Key(candidate.path, None)} else {}
  }

  function Covered(c: Case, retrieved: seq<Range>): set<Key> {
    if retrieved == [] then {} else
    var last := retrieved[|retrieved| - 1];
    Covered(c, retrieved[..|retrieved| - 1]) + RangeKeys(c, last) + FileKeys(c, last)
  }

  /** A candidate gains when it covers a gold unit that nothing above it covered. */
  function Gains(c: Case, retrieved: seq<Range>): seq<bool> {
    if retrieved == [] then [] else
    var above := retrieved[..|retrieved| - 1];
    var last := retrieved[|retrieved| - 1];
    Gains(c, above) + [(RangeKeys(c, last) + FileKeys(c, last)) - Covered(c, above) != {}]
  }

  function Dcg(disc: nat -> real, gains: seq<bool>): real {
    if gains == [] then 0.0 else
    var n := |gains| - 1;
    Dcg(disc, gains[..n]) + if gains[n] then disc(n) else 0.0
  }

  function Ideal(disc: nat -> real, count: nat): real {
    if count == 0 then 0.0 else Ideal(disc, count - 1) + disc(count - 1)
  }

  function GoldItems(c: Case): nat {
    if c.goldRanges != [] then |c.goldRanges| else |FileSet(c)|
  }

  function IdealRelevant(c: Case, retrieved: seq<Range>): nat {
    Min(GoldItems(c), |retrieved|)
  }

  function NdcgOf(c: Case, retrieved: seq<Range>, disc: nat -> real): real {
    var ideal := Ideal(disc, IdealRelevant(c, retrieved));
    if ideal != 0.0 then Dcg(disc, Gains(c, retrieved)) / ideal else 0.0
  }

  // ----- The loops -----

  function KeysUpTo(c: Case, candidate: Range, n: nat): set<Key>
    requires n <= |c.goldRanges|
  {
    set i | 0 <= i < n && Overlaps(c.goldRanges[i], candidate) :: Key(candidate.path, Some(i))
  }

  /** One candidate: claim the gold units it covers that are still unclaimed. */
  method Score(c: Case, candidate: Range, above: set<Key>) returns (scored: set<Key>, gain: bool)
    ensures scored == above + RangeKeys(c, candidate) + FileKeys(c, candidate)
    ensures gain <==> (RangeKeys(c, candidate) + FileKeys(c, candidate)) - above != {}
  {
    scored, gain := above, false;
    for index := 0 to |c.goldRanges|
      invariant scored == above + KeysUpTo(c, candidate, index)
      invariant gain <==> KeysUpTo(c, candidate, index) - above != {}
    {
      var key := Key(candidate.path, Some(index));
      NextKey(c, candidate, index);
      if key !in scored && Overlaps(c.goldRanges[index], candidate) {
        assert key in KeysUpTo(c, candidate, index + 1) - above;
        scored := scored + {key};
        gain := true;
      }
    }
    assert KeysUpTo(c, candidate, |c.goldRanges|) == RangeKeys(c, candidate);
    if candidate.path in c.goldFiles {
      var key := Key(candidate.path, None);
      if key !in scored {
        assert key in FileKeys(c, candidate) - above;
        scored := scored + {key};
        gain := true;
      }
    }
  }

  method Ndcg(c: Case, retrieved: seq<Range>, disc: nat -> real) returns (value: real)
    ensures value == NdcgOf(c, retrieved, disc)
  {
    var scored: set<Key> := {};
    var gains: seq<bool> := [];
    for n := 0 to |retrieved|
      invariant scored == Covered(c, retrieved[..n])
      invariant gains == Gains(c, retrieved[..n])
    {
      var gain;
      scored, gain := Score(c, retrieved[n], scored);
      gains := gains + [gain];
      assert retrieved[..n + 1][..n] == retrieved[..n];
    }
    assert retrieved[..|retrieved|] == retrieved;
    var dcg := 0.0;
    for n := 0 to |gains|
      invariant dcg == Dcg(disc, gains[..n])
    {
      assert gains[..n + 1][..n] == gains[..n];
      dcg := dcg + if gains[n] then disc(n) else 0.0;
    }
    assert gains[..|gains|] == gains;
    var files := set f | f in c.goldFiles;
    var goldItems := if c.goldRanges != [] then |c.goldRanges| else |files|;
    var idealRelevant := if goldItems < |retrieved| then goldItems else |retrieved|;
    var ideal := 0.0;
    for n := 0 to idealRelevant
      invariant ideal == Ideal(disc, n)
    {
      ideal := ideal + disc(n);
    }
    value := if ideal != 0.0 then dcg / ideal else 0.0;
  }

  lemma NextKey(c: Case, candidate: Range, index: nat)
    requires index < |c.goldRanges|
    ensures KeysUpTo(c, candidate, index + 1) ==
            KeysUpTo(c, candidate, index) +
            if Overlaps(c.goldRanges[index], candidate) then {Key(candidate.path, Some(index))} else {}
    ensures Key(candidate.path, Some(index)) !in KeysUpTo(c, candidate, index)
  {
  }

  // ----- Bounds -----

  function Count(gains: seq<bool>): nat {
    if gains == [] then 0 else Count(gains[..|gains| - 1]) + if gains[|gains| - 1] then 1 else 0
  }

  /** Every gain uses up a gold unit. */
  lemma {:induction false} GainsAreBounded(c: Case, retrieved: seq<Range>)
    ensures |Gains(c, retrieved)| == |retrieved|
    ensures Count(Gains(c, retrieved)) <= |Covered(c, retrieved)|
  {
    if retrieved != [] {
      var above := retrieved[..|retrieved| - 1];
      GainsAreBounded(c, above);
      var was, now := Covered(c, above), Covered(c, retrieved);
      assert Gains(c, retrieved)[..|above|] == Gains(c, above);
      assert now == was + (now - was);
      if Gains(c, retrieved)[|above|] {
        assert now - was != {};
      }
    }
  }

  function Indices(n: nat): set<nat> {
    if n == 0 then {} else Indices(n - 1) + {n - 1}
  }

  lemma {:induction false} IndicesSize(n: nat)
    ensures |Indices(n)| == n
    ensures forall i: nat :: i in Indices(n) <==> i < n
  {
    if n > 0 { IndicesSize(n - 1); }
  }

  lemma {:induction false} CoveredIsGold(c: Case, retrieved: seq<Range>)
    ensures forall k :: k in Covered(c, retrieved) ==>
              match k.gold
              case Some(i) => i < |c.goldRanges| && c.goldRanges[i].path == k.path
              case None => k.path in c.goldFiles
  {
    if retrieved != [] {
      CoveredIsGold(c, retrieved[..|retrieved| - 1]);
    }
  }

  /** There are at most as many covered units as gold ranges plus distinct gold files. */
  lemma CoveredIsBounded(c: Case, retrieved: seq<Range>)
    ensures |Covered(c, retrieved)| <= |c.goldRanges| + |FileSet(c)|
    ensures c.goldFiles == [] ==> |Covered(c, retrieved)| <= |c.goldRanges|
  {
    CoveredIsGold(c, retrieved);
    var keys := Covered(c, retrieved);
    var byRange := set k | k in keys && k.gold.Some?;
    var byFile := set k | k in keys && k.gold.None?;
    assert keys == byRange + byFile;
    IndicesSize(|c.goldRanges|);
    InjectionIsNoLarger(byRange, Indices(|c.goldRanges|), (k: Key) => if k.gold.Some? then k.gold.value else 0);
    InjectionIsNoLarger(byFile, FileSet(c), (k: Key) => k.path);
  }

  lemma {:induction false} InjectionIsNoLarger<A, B>(from: set<A>, to: set<B>, f: A -> B)
    requires forall a :: a in from ==> f(a) in to
    requires forall a, b :: a in from && b in from && f(a) == f(b) ==> a == b
    ensures |from| <= |to|
    decreases |from|
  {
    if from != {} {
      var a :| a in from;
      InjectionIsNoLarger(from - {a}, to - {f(a)}, f);
    }
  }

  ghost predicate Discount(disc: nat -> real) {
    (forall i :: disc(i) > 0.0) && (forall i, j :: i < j ==> disc(i) > disc(j))
  }

  lemma {:induction false} CountAtMostLength(gains: seq<bool>)
    ensures Count(gains) <= |gains|
  {
    if gains != [] { CountAtMostLength(gains[..|gains| - 1]); }
  }

  lemma {:induction false} IdealGrows(disc: nat -> real, few: nat, many: nat)
    requires Discount(disc) && few <= many
    ensures Ideal(disc, few) <= Ideal(disc, many)
    ensures few < many ==> Ideal(disc, few) < Ideal(disc, many)
    ensures 0.0 <= Ideal(disc, few)
    decreases many
  {
    if many > 0 {
      if few < many { IdealGrows(disc, few, many - 1); } else { IdealGrows(disc, few - 1, many - 1); }
    }
  }

  /** Rearrangement: gains sum to at most the same number of gains in the leading ranks, and match it only there. */
  lemma {:induction false} LeadingRanksAreBest(disc: nat -> real, gains: seq<bool>)
    requires Discount(disc)
    ensures 0.0 <= Dcg(disc, gains) <= Ideal(disc, Count(gains))
    ensures Dcg(disc, gains) == Ideal(disc, Count(gains)) <==> forall i :: 0 <= i < Count(gains) ==> i < |gains| && gains[i]
  {
    CountAtMostLength(gains);
    if gains != [] {
      var n := |gains| - 1;
      LeadingRanksAreBest(disc, gains[..n]);
      CountAtMostLength(gains[..n]);
      var c := Count(gains[..n]);
      if gains[n] {
        assert disc(n) <= disc(c);
        if c == n {
          assert Dcg(disc, gains) == Ideal(disc, c + 1) <==> Dcg(disc, gains[..n]) == Ideal(disc, c);
          forall i | 0 <= i < c ensures gains[i] == gains[..n][i] {}
        } else {
          assert disc(n) < disc(c);
          NotAllLeading(gains, c);
        }
      } else {
        forall i | 0 <= i < c ensures gains[i] == gains[..n][i] {}
      }
    }
  }

  /** Were the first c + 1 ranks all gains, the ranks before the last would hold more than c of them. */
  lemma NotAllLeading(gains: seq<bool>, c: nat)
    requires gains != [] && Count(gains[..|gains| - 1]) == c < |gains| - 1
    ensures exists i :: 0 <= i <= c && !gains[i]
  {
    if forall i :: 0 <= i <= c ==> gains[i] {
      LeadingCount(gains[..|gains| - 1], c + 1);
    }
  }

  lemma {:induction false} LeadingCount(gains: seq<bool>, c: nat)
    requires c <= |gains| && forall i :: 0 <= i < c ==> gains[i]
    ensures c <= Count(gains)
  {
    if c < |gains| {
      LeadingCount(gains[..|gains| - 1], c);
    } else if c > 0 {
      LeadingCount(gains[..|gains| - 1], c - 1);
    }
  }

  /** With either kind of annotation present: DCG is at most the ideal sum over all gold units of both kinds. */
  lemma DcgBound(c: Case, retrieved: seq<Range>, disc: nat -> real)
    requires Discount(disc)
    ensures 0.0 <= Dcg(disc, Gains(c, retrieved)) <= Ideal(disc, Min(|c.goldRanges| + |FileSet(c)|, |retrieved|))
  {
    GainsAreBounded(c, retrieved);
    CoveredIsBounded(c, retrieved);
    var gains := Gains(c, retrieved);
    CountAtMostLength(gains);
    LeadingRanksAreBest(disc, gains);
    IdealGrows(disc, Count(gains), Min(|c.goldRanges| + |FileSet(c)|, |retrieved|));
  }

  /**
    With only ranges or only files annotated, nDCG lies between 0 and 1, and is 1
    exactly when something is retrievable and every leading rank gains.
   */
  lemma NdcgAtMostOne(c: Case, retrieved: seq<Range>, disc: nat -> real)
    requires Discount(disc)
    requires c.goldRanges == [] || c.goldFiles == []
    ensures 0.0 <= NdcgOf(c, retrieved, disc) <= 1.0
    ensures NdcgOf(c, retrieved, disc) == 1.0 <==>
            0 < IdealRelevant(c, retrieved) &&
            forall i :: 0 <= i < IdealRelevant(c, retrieved) ==> i < |Gains(c, retrieved)| && Gains(c, retrieved)[i]
  {
    GainsAreBounded(c, retrieved);
    CoveredIsBounded(c, retrieved);
    var gains := Gains(c, retrieved);
    var k := IdealRelevant(c, retrieved);
    CountAtMostLength(gains);
    assert Count(gains) <= k by {
      if c.goldFiles == [] && c.goldRanges == [] { assert FileSet(c) == {}; }
    }
    LeadingRanksAreBest(disc, gains);
    IdealGrows(disc, Count(gains), k);
    IdealGrows(disc, 0, k);
    var ideal, dcg := Ideal(disc, k), Dcg(disc, gains);
    if k > 0 {
      RatioAtMostOne(dcg, ideal);
      if forall i :: 0 <= i < k ==> gains[i] {
        LeadingCount(gains, k);
      }
    }
  }

  lemma RatioAtMostOne(a: real, b: real)
    requires 0.0 <= a <= b && 0.0 < b
    ensures 0.0 <= a / b <= 1.0
    ensures a / b == 1.0 <==> a == b
  {
    assert a / b * b == a;
  }
}
