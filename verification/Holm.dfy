/**
  Holm's step-down procedure (research/cce_research/stats.py) over exact reals.
  Its result is characterised without any order: a hypothesis is significant
  exactly when every family that contains it passes Bonferroni's test.
 */
module Holm {
  import opened Sets

  datatype Test = Test(name: string, p: real)

  predicate DistinctNames(tests: seq<Test>) {
    forall i, j :: 0 <= i < j < |tests| ==> tests[i].name != tests[j].name
  }

  predicate Ascending(tests: seq<Test>) {
    forall i, j :: 0 <= i < j < |tests| ==> tests[i].p <= tests[j].p
  }

  /** Stable insertion: a test goes before the sorted ones with an equal p-value. */
  function Insert(t: Test, sorted: seq<Test>): seq<Test> {
    if sorted == [] || t.p <= sorted[0].p then [t] + sorted else [sorted[0]] + Insert(t, sorted[1..])
  }

  function Ordered(tests: seq<Test>): seq<Test> {
    if tests == [] then [] else Insert(tests[0], Ordered(tests[1..]))
  }

  lemma {:induction false} InsertAdds(t: Test, sorted: seq<Test>)
    ensures multiset(Insert(t, sorted)) == multiset(sorted) + multiset{t}
  {
    if sorted != [] && t.p > sorted[0].p {
      InsertAdds(t, sorted[1..]);
      assert sorted == [sorted[0]] + sorted[1..];
    }
  }

  lemma {:induction false} InsertKeepsOrder(t: Test, sorted: seq<Test>)
    requires Ascending(sorted)
    ensures Ascending(Insert(t, sorted))
  {
    if sorted != [] && t.p > sorted[0].p {
      var rest := Insert(t, sorted[1..]);
      InsertKeepsOrder(t, sorted[1..]);
      InsertAdds(t, sorted[1..]);
      forall i | 0 <= i < |rest| ensures sorted[0].p <= rest[i].p {
        assert rest[i] in multiset(rest);
      }
    }
  }

  lemma {:induction false} OrderedSorts(tests: seq<Test>)
    ensures multiset(Ordered(tests)) == multiset(tests)
    ensures Ascending(Ordered(tests))
  {
    if tests != [] {
      OrderedSorts(tests[1..]);
      InsertAdds(tests[0], Ordered(tests[1..]));
      InsertKeepsOrder(tests[0], Ordered(tests[1..]));
      assert tests == [tests[0]] + tests[1..];
    }
  }

  /** Sorting keeps the hypotheses, and keeps their names distinct. */
  lemma OrderedFamily(tests: seq<Test>)
    requires DistinctNames(tests)
    ensures |Ordered(tests)| == |tests| && DistinctNames(Ordered(tests))
    ensures forall t :: t in Ordered(tests) <==> t in tests
  {
    var sorted := Ordered(tests);
    OrderedSorts(tests);
    assert |multiset(sorted)| == |sorted| && |multiset(tests)| == |tests|;
    forall t ensures t in sorted <==> t in tests {
      assert t in multiset(sorted) <==> t in multiset(tests);
    }
    forall t: Test ensures multiset(tests)[t] <= 1 { OccursOnce(tests, t); }
    forall i, j | 0 <= i < j < |sorted| ensures sorted[i].name != sorted[j].name {
      TwiceInMultiset(sorted, i, j);
      assert sorted[i] in tests && sorted[j] in tests;
    }
  }

  lemma {:induction false} OccursOnce(tests: seq<Test>, t: Test)
    requires DistinctNames(tests)
    ensures multiset(tests)[t] <= 1
  {
    if tests != [] {
      OccursOnce(tests[1..], t);
      assert tests == [tests[0]] + tests[1..];
      assert tests[0] !in tests[1..];
    }
  }

  lemma TwiceInMultiset(tests: seq<Test>, i: nat, j: nat)
    requires i < j < |tests|
    ensures tests[i] == tests[j] ==> multiset(tests)[tests[i]] >= 2
  {
    assert tests == tests[..i] + [tests[i]] + tests[i + 1..j] + [tests[j]] + tests[j + 1..];
  }

  // ----- The step-down decision -----

  function Threshold(alpha: real, m: nat, index: nat): real
    requires index < m
  {
    alpha / (m - index) as real
  }

  /** The loop's decision at a sorted position: no threshold was missed up to it. */
  ghost predicate Rejected(sorted: seq<Test>, alpha: real, k: nat)
    requires k < |sorted|
  {
    forall j :: 0 <= j <= k ==> !Missed(sorted, alpha, j)
  }

  predicate Missed(sorted: seq<Test>, alpha: real, k: nat)
    requires k < |sorted|
  {
    sorted[k].p > Threshold(alpha, |sorted|, k)
  }

  function NamesOf(tests: seq<Test>, n: nat): set<string>
    requires n <= |tests|
  {
    set k | 0 <= k < n :: tests[k].name
  }

  /** Decisions for the first `n` sorted tests, keyed by name. */
  ghost predicate DecidedUpTo(sorted: seq<Test>, alpha: real, n: nat, significant: map<string, bool>)
    requires n <= |sorted|
  {
    && significant.Keys == NamesOf(sorted, n)
    && forall k :: 0 <= k < n ==>
         sorted[k].name in NamesOf(sorted, n) && (significant[sorted[k].name] <==> Rejected(sorted, alpha, k))
  }

  /** The answer of the step-down procedure: a decision for each name, in ascending order of the p-values. */
  ghost predicate Decided(tests: seq<Test>, alpha: real, significant: map<string, bool>) {
    var sorted := Ordered(tests);
    DecidedUpTo(sorted, alpha, |sorted|, significant)
  }

  lemma DecideNext(sorted: seq<Test>, alpha: real, n: nat, significant: map<string, bool>, decision: bool)
    requires n < |sorted| && DistinctNames(sorted) && DecidedUpTo(sorted, alpha, n, significant)
    requires decision <==> Rejected(sorted, alpha, n)
    ensures DecidedUpTo(sorted, alpha, n + 1, significant[sorted[n].name := decision])
  {
    assert NamesOf(sorted, n + 1) == NamesOf(sorted, n) + {sorted[n].name};
  }

  method HolmBonferroni(tests: seq<Test>, alpha: real) returns (significant: map<string, bool>)
    requires DistinctNames(tests)
    ensures Decided(tests, alpha, significant)
    ensures significant.Keys == NamesOf(tests, |tests|)
    ensures 0.0 <= alpha ==> forall t :: t in tests ==>
              t.name in significant && (significant[t.name] <==> PassesEveryFamily(tests, alpha, t))
  {
    var sorted := Ordered(tests);
    OrderedFamily(tests);
    significant := map[];
    var rejectedAll := true;
    for index := 0 to |sorted|
      invariant DecidedUpTo(sorted, alpha, index, significant)
      invariant rejectedAll <==> forall j :: 0 <= j < index ==> !Missed(sorted, alpha, j)
    {
      var threshold := alpha / (|sorted| - index) as real;
      var decision := rejectedAll && sorted[index].p <= threshold;
      assert Missed(sorted, alpha, index) <==> sorted[index].p > threshold;
      assert Rejected(sorted, alpha, index) <==> rejectedAll && !Missed(sorted, alpha, index);
      DecideNext(sorted, alpha, index, significant, decision);
      if decision {
        significant := significant[sorted[index].name := true];
      } else {
        rejectedAll := false;
        significant := significant[sorted[index].name := false];
      }
    }
    DecisionsAreClosed(tests, alpha, significant);
  }

  lemma DecisionsAreClosed(tests: seq<Test>, alpha: real, significant: map<string, bool>)
    requires DistinctNames(tests)
    requires Decided(tests, alpha, significant)
    ensures significant.Keys == NamesOf(tests, |tests|)
    ensures 0.0 <= alpha ==> forall t :: t in tests ==>
              t.name in significant && (significant[t.name] <==> PassesEveryFamily(tests, alpha, t))
  {
    var sorted := Ordered(tests);
    OrderedFamily(tests);
    OrderedSorts(tests);
    SameNames(tests, sorted);
    SameNames(sorted, tests);
    forall t | t in tests && 0.0 <= alpha
      ensures t.name in significant && (significant[t.name] <==> PassesEveryFamily(tests, alpha, t))
    {
      var k :| 0 <= k < |sorted| && sorted[k] == t;
      StepDownIsClosedTesting(tests, sorted, alpha, k);
    }
  }

  lemma SameNames(tests: seq<Test>, others: seq<Test>)
    requires forall t :: t in tests ==> t in others
    ensures NamesOf(tests, |tests|) <= NamesOf(others, |others|)
  {
    forall n | n in NamesOf(tests, |tests|) ensures n in NamesOf(others, |others|) {
      var k :| 0 <= k < |tests| && tests[k].name == n;
      assert tests[k] in others;
      var j :| 0 <= j < |others| && others[j] == tests[k];
    }
  }

  // ----- Closed testing -----

  predicate PassesBonferroni(family: set<Test>, alpha: real)
    requires family != {}
  {
    exists t :: t in family && t.p <= alpha / |family| as real
  }

  /** Every family of hypotheses that contains `t` has a member at or below alpha over its size. */
  ghost predicate PassesEveryFamily(tests: seq<Test>, alpha: real, t: Test) {
    forall family: set<Test> :: t in family && (forall u :: u in family ==> u in tests) ==>
      PassesBonferroni(family, alpha)
  }

  function Tail(sorted: seq<Test>, from: nat): set<Test>
    requires from <= |sorted|
  {
    set j | from <= j < |sorted| :: sorted[j]
  }

  lemma {:induction false} TailSize(sorted: seq<Test>, from: nat)
    requires from <= |sorted| && DistinctNames(sorted)
    ensures |Tail(sorted, from)| == |sorted| - from
    decreases |sorted| - from
  {
    if from < |sorted| {
      TailSize(sorted, from + 1);
      assert Tail(sorted, from) == Tail(sorted, from + 1) + {sorted[from]};
    }
  }

  lemma SmallerFamilyLooserLevel(alpha: real, small: nat, large: nat)
    requires 0.0 <= alpha && 0 < small <= large
    ensures alpha / large as real <= alpha / small as real
  {
    var s, l := small as real, large as real;
    var strict, loose := alpha / l, alpha / s;
    assert strict >= 0.0 && strict * l == alpha == loose * s;
    assert strict * (l - s) >= 0.0;
    assert strict * l == strict * s + strict * (l - s);
    CancelFactor(strict, loose, s);
  }

  lemma CancelFactor(a: real, b: real, s: real)
    requires 0.0 < s && a * s <= b * s
    ensures a <= b
  {
    assert (a - b) * s <= 0.0;
  }

  lemma StepDownIsClosedTesting(tests: seq<Test>, sorted: seq<Test>, alpha: real, k: nat)
    requires 0.0 <= alpha && k < |sorted| && DistinctNames(sorted) && Ascending(sorted)
    requires forall t :: t in sorted <==> t in tests
    ensures Rejected(sorted, alpha, k) <==> PassesEveryFamily(tests, alpha, sorted[k])
  {
    if Rejected(sorted, alpha, k) {
      forall family: set<Test> | sorted[k] in family && forall u :: u in family ==> u in tests
        ensures PassesBonferroni(family, alpha)
      {
        var first := FirstIn(sorted, family, k);
        assert family <= Tail(sorted, first) by {
          forall u | u in family ensures u in Tail(sorted, first) {
            var j :| 0 <= j < |sorted| && sorted[j] == u;
          }
        }
        TailSize(sorted, first);
        SubsetIsNoLarger(family, Tail(sorted, first));
        SmallerFamilyLooserLevel(alpha, |family|, |sorted| - first);
        assert !Missed(sorted, alpha, first);
      }
    } else {
      var j :| 0 <= j <= k && Missed(sorted, alpha, j);
      var family := Tail(sorted, j);
      TailSize(sorted, j);
      assert sorted[k] in family;
      forall t | t in family ensures t.p > alpha / |family| as real {}
      assert !PassesBonferroni(family, alpha);
    }
  }

  lemma FirstIn(sorted: seq<Test>, family: set<Test>, k: nat) returns (first: nat)
    requires k < |sorted| && sorted[k] in family
    ensures first <= k && sorted[first] in family
    ensures forall j :: 0 <= j < first ==> sorted[j] !in family
  {
    first := 0;
    while sorted[first] !in family
      invariant first <= k && forall j :: 0 <= j < first ==> sorted[j] !in family
      decreases k - first
    {
      first := first + 1;
    }
  }

  predicate Rejects(significant: map<string, bool>, t: Test) {
    t.name in significant && significant[t.name]
  }

  /**
    Family-wise error: if any of the true hypotheses is called significant, one of
    them has a p-value at or below alpha over their number.
   */
  lemma ErrorNeedsASmallPValue(tests: seq<Test>, alpha: real, significant: map<string, bool>, trueNulls: set<Test>, wrong: Test)
    requires 0.0 <= alpha && DistinctNames(tests) && Decided(tests, alpha, significant)
    requires forall u :: u in trueNulls ==> u in tests
    requires wrong in trueNulls && Rejects(significant, wrong)
    ensures exists t :: t in trueNulls && t.p <= alpha / |trueNulls| as real
  {
    DecisionsAreClosed(tests, alpha, significant);
    assert wrong in tests;
    assert PassesBonferroni(trueNulls, alpha);
  }

  /** Whatever plain Bonferroni rejects is called significant. */
  lemma AtLeastBonferroni(tests: seq<Test>, alpha: real, significant: map<string, bool>, t: Test)
    requires 0.0 <= alpha && DistinctNames(tests) && Decided(tests, alpha, significant)
    requires t in tests && t.p <= alpha / |tests| as real
    ensures Rejects(significant, t)
  {
    DecisionsAreClosed(tests, alpha, significant);
    BonferroniPassesEveryFamily(tests, alpha, t);
  }

  /** Whatever lies at or below a p-value called significant is called significant, ties included. */
  lemma RejectionsArePrefix(tests: seq<Test>, alpha: real, significant: map<string, bool>, low: Test, high: Test)
    requires 0.0 <= alpha && DistinctNames(tests) && Decided(tests, alpha, significant)
    requires low in tests && high in tests && low.p <= high.p && Rejects(significant, high)
    ensures Rejects(significant, low)
  {
    DecisionsAreClosed(tests, alpha, significant);
    PassingIsDownward(tests, alpha, low, high);
  }

  lemma BonferroniPassesEveryFamily(tests: seq<Test>, alpha: real, t: Test)
    requires 0.0 <= alpha && t in tests && DistinctNames(tests)
    requires t.p <= alpha / |tests| as real
    ensures PassesEveryFamily(tests, alpha, t)
  {
    forall family: set<Test> | t in family && forall u :: u in family ==> u in tests
      ensures PassesBonferroni(family, alpha)
    {
      assert family <= Tail(tests, 0);
      TailSize(tests, 0);
      SubsetIsNoLarger(family, Tail(tests, 0));
      SmallerFamilyLooserLevel(alpha, |family|, |tests|);
    }
  }

  lemma PassingIsDownward(tests: seq<Test>, alpha: real, low: Test, high: Test)
    requires 0.0 <= alpha && DistinctNames(tests) && low in tests && high in tests && low.p <= high.p
    requires PassesEveryFamily(tests, alpha, high)
    ensures PassesEveryFamily(tests, alpha, low)
  {
    forall family: set<Test> | low in family && forall u :: u in family ==> u in tests
      ensures PassesBonferroni(family, alpha)
    {
      var wider := family + {high};
      assert PassesBonferroni(wider, alpha);
      var t :| t in wider && t.p <= alpha / |wider| as real;
      SubsetIsNoLarger(family, wider);
      SmallerFamilyLooserLevel(alpha, |family|, |wider|);
      assert t in family || low.p <= alpha / |family| as real;
    }
  }
}
