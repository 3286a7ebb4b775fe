/**
  The fan-out merge (apps/gateway/src/fanout.rs): per-repository hit lists are
  interleaved round-robin by rank.  The reference order lists every hit by
  (position in its lane, lane index).
 */
module Fanout {
  import opened Common

  /** A JSON hit; only objects can carry the injected repository slug. */
  datatype Value = Object(fields: map<string, string>) | Other(text: string)

  datatype Lane = Lane(slug: string, hits: seq<Value>)

  function Tagged(slug: string, hit: Value): Value {
    match hit
    case Object(fields) => Object(fields["repo" := slug])
    case Other(_) => hit
  }

  // ----- Reference order -----

  datatype Pick = Pick(position: nat, lane: nat)

  predicate ValidPick(lanes: seq<Lane>, pick: Pick) {
    pick.lane < |lanes| && pick.position < |lanes[pick.lane].hits|
  }

  predicate Before(a: Pick, b: Pick) {
    a.position < b.position || (a.position == b.position && a.lane < b.lane)
  }

  /** The hits at one position, over the first `n` lanes. */
  function Row(lanes: seq<Lane>, position: nat, n: nat): seq<Pick>
    requires n <= |lanes|
  {
    if n == 0 then [] else
    Row(lanes, position, n - 1) +
    if position < |lanes[n - 1].hits| then [Pick(position, n - 1)] else []
  }

  function Rows(lanes: seq<Lane>, count: nat): seq<Pick> {
    if count == 0 then [] else Rows(lanes, count - 1) + Row(lanes, count - 1, |lanes|)
  }

  /** The longest of the first `n` lanes. */
  function LongestOf(lanes: seq<Lane>, n: nat): nat
    requires n <= |lanes|
  {
    if n == 0 then 0 else
    var rest := LongestOf(lanes, n - 1);
    if |lanes[n - 1].hits| > rest then |lanes[n - 1].hits| else rest
  }

  function Longest(lanes: seq<Lane>): nat {
    LongestOf(lanes, |lanes|)
  }

  function Order(lanes: seq<Lane>): seq<Pick> {
    Rows(lanes, Longest(lanes))
  }

  function TotalOf(lanes: seq<Lane>, n: nat): nat
    requires n <= |lanes|
  {
    if n == 0 then 0 else TotalOf(lanes, n - 1) + |lanes[n - 1].hits|
  }

  function Total(lanes: seq<Lane>): nat {
    TotalOf(lanes, |lanes|)
  }

  /** The merged value a pick stands for. */
  function Shown(lanes: seq<Lane>, pick: Pick): Value
    requires ValidPick(lanes, pick)
  {
    Tagged(lanes[pick.lane].slug, lanes[pick.lane].hits[pick.position])
  }

  lemma {:induction false} RowPicks(lanes: seq<Lane>, position: nat, n: nat)
    requires n <= |lanes|
    ensures forall i :: 0 <= i < |Row(lanes, position, n)| ==>
              var p := Row(lanes, position, n)[i];
              p.position == position && p.lane < n && ValidPick(lanes, p)
    ensures forall l :: 0 <= l < n && position < |lanes[l].hits| ==> Pick(position, l) in Row(lanes, position, n)
    ensures forall i, j :: 0 <= i < j < |Row(lanes, position, n)| ==>
              Before(Row(lanes, position, n)[i], Row(lanes, position, n)[j])
  {
    if n > 0 {
      RowPicks(lanes, position, n - 1);
    }
  }

  lemma {:induction false} RowsPicks(lanes: seq<Lane>, count: nat)
    ensures forall i :: 0 <= i < |Rows(lanes, count)| ==>
              ValidPick(lanes, Rows(lanes, count)[i]) && Rows(lanes, count)[i].position < count
    ensures forall p :: ValidPick(lanes, p) && p.position < count ==> p in Rows(lanes, count)
    ensures forall i, j :: 0 <= i < j < |Rows(lanes, count)| ==> Before(Rows(lanes, count)[i], Rows(lanes, count)[j])
  {
    if count > 0 {
      RowsPicks(lanes, count - 1);
      RowPicks(lanes, count - 1, |lanes|);
      forall p | ValidPick(lanes, p) && p.position < count ensures p in Rows(lanes, count) {
        if p.position == count - 1 {
          assert p == Pick(count - 1, p.lane);
        }
      }
    }
  }

  lemma {:induction false} LongestBounds(lanes: seq<Lane>, n: nat)
    requires n <= |lanes|
    ensures forall l :: 0 <= l < n ==> |lanes[l].hits| <= LongestOf(lanes, n)
  {
    if n > 0 { LongestBounds(lanes, n - 1); }
  }

  /** The reference order lists every hit exactly once, sorted by (position, lane). */
  lemma OrderIsSortedAndComplete(lanes: seq<Lane>)
    ensures forall p :: p in Order(lanes) <==> ValidPick(lanes, p)
    ensures forall i, j :: 0 <= i < j < |Order(lanes)| ==> Before(Order(lanes)[i], Order(lanes)[j])
  {
    RowsPicks(lanes, Longest(lanes));
    LongestBounds(lanes, |lanes|);
  }

  function Capped(lanes: seq<Lane>, n: nat, count: nat): nat
    requires n <= |lanes|
  {
    if n == 0 then 0 else Capped(lanes, n - 1, count) + Min(|lanes[n - 1].hits|, count)
  }

  lemma {:induction false} RowLength(lanes: seq<Lane>, position: nat, n: nat)
    requires n <= |lanes|
    ensures Capped(lanes, n, position + 1) == Capped(lanes, n, position) + |Row(lanes, position, n)|
  {
    if n > 0 {
      RowLength(lanes, position, n - 1);
    }
  }

  lemma {:induction false} RowsLength(lanes: seq<Lane>, count: nat)
    ensures |Rows(lanes, count)| == Capped(lanes, |lanes|, count)
  {
    if count == 0 {
      CappedAtZero(lanes, |lanes|);
    } else {
      RowsLength(lanes, count - 1);
      RowLength(lanes, count - 1, |lanes|);
    }
  }

  lemma {:induction false} CappedAtZero(lanes: seq<Lane>, n: nat)
    requires n <= |lanes|
    ensures Capped(lanes, n, 0) == 0
  {
    if n > 0 { CappedAtZero(lanes, n - 1); }
  }

  lemma {:induction false} CappedAtMost(lanes: seq<Lane>, n: nat, count: nat)
    requires n <= |lanes| && forall l :: 0 <= l < n ==> |lanes[l].hits| <= count
    ensures Capped(lanes, n, count) == TotalOf(lanes, n)
  {
    if n > 0 { CappedAtMost(lanes, n - 1, count); }
  }

  /** Every hit of every lane is in the reference order once. */
  lemma OrderHasTotal(lanes: seq<Lane>)
    ensures |Order(lanes)| == Total(lanes)
  {
    RowsLength(lanes, Longest(lanes));
    LongestBounds(lanes, |lanes|);
    CappedAtMost(lanes, |lanes|, Longest(lanes));
  }

  /** Cut anywhere, the order takes a prefix of each lane, and no lane runs more than one ahead of an unexhausted one. */
  lemma CutsAreFair(lanes: seq<Lane>, n: nat, pick: Pick)
    requires n <= |Order(lanes)| && pick in Order(lanes)[..n]
    ensures forall p :: 0 <= p < pick.position ==> Pick(p, pick.lane) in Order(lanes)[..n]
    ensures forall l :: 0 <= l < |lanes| && 0 < pick.position <= |lanes[l].hits| ==>
              Pick(pick.position - 1, l) in Order(lanes)[..n]
  {
    OrderIsSortedAndComplete(lanes);
    var order := Order(lanes);
    var at :| 0 <= at < n && order[at] == pick;
    forall q: Pick | ValidPick(lanes, q) && Before(q, pick) ensures q in order[..n] {
      var i :| 0 <= i < |order| && order[i] == q;
      assert order[..n][i] == q;
    }
    assert ValidPick(lanes, pick);
    forall p | 0 <= p < pick.position ensures Pick(p, pick.lane) in order[..n] {
      assert ValidPick(lanes, Pick(p, pick.lane)) && Before(Pick(p, pick.lane), pick);
    }
    forall l | 0 <= l < |lanes| && 0 < pick.position <= |lanes[l].hits|
      ensures Pick(pick.position - 1, l) in order[..n]
    {
      assert ValidPick(lanes, Pick(pick.position - 1, l)) && Before(Pick(pick.position - 1, l), pick);
    }
  }

  // ----- The loop -----

  /** The picks made when round `position` has passed the first `n` lanes. */
  function Cut(lanes: seq<Lane>, position: nat, n: nat): seq<Pick>
    requires n <= |lanes|
  {
    Rows(lanes, position) + Row(lanes, position, n)
  }

  /** The values pushed when round `position` has passed the first `n` lanes. */
  function Pushed(lanes: seq<Lane>, position: nat, n: nat): seq<Value>
    requires n <= |lanes|
    decreases position, n
  {
    if n > 0 then
      Pushed(lanes, position, n - 1) +
      if position < |lanes[n - 1].hits| then [Tagged(lanes[n - 1].slug, lanes[n - 1].hits[position])] else []
    else if position > 0 then Pushed(lanes, position - 1, |lanes|)
    else []
  }

  ghost predicate Merged(lanes: seq<Lane>, picks: seq<Pick>, merged: seq<Value>) {
    && |merged| == |picks|
    && forall i :: 0 <= i < |picks| ==> ValidPick(lanes, picks[i]) && merged[i] == Shown(lanes, picks[i])
  }

  /** The merge is the first min(limit, total) hits of the order; a limit of 0 still takes one hit. */
  ghost predicate IsMerge(lanes: seq<Lane>, limit: nat, merged: seq<Value>) {
    && |merged| == Min(Total(lanes), if limit == 0 then 1 else limit)
    && |merged| <= |Order(lanes)|
    && Merged(lanes, Order(lanes)[..|merged|], merged)
  }

  method MergeHits(lanes: seq<Lane>, limit: nat) returns (merged: seq<Value>)
    ensures IsMerge(lanes, limit, merged)
  {
    merged := [];
    ghost var position := 0;
    var next: seq<nat> := seq(|lanes|, l => 0);
    while true
      invariant position <= Longest(lanes)
      invariant Cursors(lanes, next, position, 0)
      invariant merged == Pushed(lanes, position, 0)
      invariant merged == [] || |merged| < limit
      decreases Longest(lanes) - position
    {
      var progressed := false;
      var l := 0;
      while l < |lanes|
        invariant l <= |lanes|
        invariant Cursors(lanes, next, position, l)
        invariant merged == Pushed(lanes, position, l)
        invariant merged == [] || |merged| < limit
        invariant if progressed then position < Longest(lanes) else Exhausted(lanes, position, l)
      {
        LaneAdvances(lanes, next, position, l);
        if next[l] < |lanes[l].hits| {
          var hit := lanes[l].hits[next[l]];
          next := next[l := next[l] + 1];
          progressed := true;
          merged := merged + [Tagged(lanes[l].slug, hit)];
          if |merged| >= limit {
            FullCutIsMerge(lanes, limit, position, l + 1);
            return;
          }
        }
        l := l + 1;
      }
      if !progressed {
        EndIsMerge(lanes, limit, position);
        return;
      }
      position := position + 1;
    }
  }

  /** Where each lane iterator stands when the round has passed the first `n` lanes. */
  ghost predicate Cursors(lanes: seq<Lane>, next: seq<nat>, position: nat, n: nat) {
    && |next| == |lanes|
    && forall l :: 0 <= l < |lanes| ==> next[l] == Min(if l < n then position + 1 else position, |lanes[l].hits|)
  }

  ghost predicate Exhausted(lanes: seq<Lane>, position: nat, n: nat) {
    forall l :: 0 <= l < |lanes| && l < n ==> |lanes[l].hits| <= position
  }

  lemma LaneAdvances(lanes: seq<Lane>, next: seq<nat>, position: nat, n: nat)
    requires n < |lanes| && Cursors(lanes, next, position, n)
    ensures next[n] < |lanes[n].hits| <==> position < |lanes[n].hits|
    ensures next[n] < |lanes[n].hits| ==>
              next[n] == position < Longest(lanes) && Cursors(lanes, next[n := next[n] + 1], position, n + 1)
    ensures next[n] >= |lanes[n].hits| ==> Cursors(lanes, next, position, n + 1)
  {
    LongestBounds(lanes, |lanes|);
  }

  lemma {:induction false} PushedFollowsCut(lanes: seq<Lane>, position: nat, n: nat)
    requires n <= |lanes|
    ensures Merged(lanes, Cut(lanes, position, n), Pushed(lanes, position, n))
    decreases position, n
  {
    if n > 0 {
      PushedFollowsCut(lanes, position, n - 1);
      if position < |lanes[n - 1].hits| {
        assert Cut(lanes, position, n) == Cut(lanes, position, n - 1) + [Pick(position, n - 1)];
      } else {
        assert Cut(lanes, position, n) == Cut(lanes, position, n - 1);
      }
    } else if position > 0 {
      PushedFollowsCut(lanes, position - 1, |lanes|);
      assert Cut(lanes, position, 0) == Cut(lanes, position - 1, |lanes|);
    }
  }

  lemma FullCutIsMerge(lanes: seq<Lane>, limit: nat, position: nat, n: nat)
    requires n <= |lanes| && position <= Longest(lanes)
    requires |Pushed(lanes, position, n)| == if limit == 0 then 1 else limit
    ensures IsMerge(lanes, limit, Pushed(lanes, position, n))
  {
    PushedFollowsCut(lanes, position, n);
    OrderHasTotal(lanes);
    CutOfOrder(lanes, position, n);
  }

  lemma EndIsMerge(lanes: seq<Lane>, limit: nat, position: nat)
    requires position <= Longest(lanes) && Exhausted(lanes, position, |lanes|)
    requires Pushed(lanes, position, |lanes|) == [] || |Pushed(lanes, position, |lanes|)| < limit
    ensures IsMerge(lanes, limit, Pushed(lanes, position, |lanes|))
  {
    PushedFollowsCut(lanes, position, |lanes|);
    OrderHasTotal(lanes);
    NothingLeft(lanes, |lanes|, position);
    EmptyRows(lanes, position, Longest(lanes));
    assert Cut(lanes, position, |lanes|) == Order(lanes);
    assert Order(lanes)[..|Order(lanes)|] == Order(lanes);
  }

  lemma {:induction false} NothingLeft(lanes: seq<Lane>, n: nat, position: nat)
    requires n <= |lanes| && forall l :: 0 <= l < |lanes| ==> |lanes[l].hits| <= position
    ensures Row(lanes, position, n) == []
  {
    if n > 0 { NothingLeft(lanes, n - 1, position); }
  }

  lemma {:induction false} RowsArePrefixes(lanes: seq<Lane>, few: nat, many: nat)
    requires few <= many
    ensures |Rows(lanes, few)| <= |Rows(lanes, many)|
    ensures Rows(lanes, few) == Rows(lanes, many)[..|Rows(lanes, few)|]
  {
    if few < many { RowsArePrefixes(lanes, few, many - 1); }
  }

  lemma {:induction false} RowIsPrefix(lanes: seq<Lane>, position: nat, few: nat, many: nat)
    requires few <= many <= |lanes|
    ensures |Row(lanes, position, few)| <= |Row(lanes, position, many)|
    ensures Row(lanes, position, few) == Row(lanes, position, many)[..|Row(lanes, position, few)|]
  {
    if few < many { RowIsPrefix(lanes, position, few, many - 1); }
  }

  lemma PrefixOfRound(rows: seq<Pick>, part: seq<Pick>, round: seq<Pick>, order: seq<Pick>)
    requires |part| <= |round| && part == round[..|part|]
    requires |rows| + |round| <= |order| && rows + round == order[..|rows| + |round|]
    ensures rows + part == order[..|rows| + |part|]
  {
    assert rows + part == (rows + round)[..|rows| + |part|];
  }

  lemma CutOfRows(lanes: seq<Lane>, position: nat, n: nat, many: nat)
    requires n <= |lanes| && position < many
    ensures |Cut(lanes, position, n)| <= |Rows(lanes, many)|
    ensures Cut(lanes, position, n) == Rows(lanes, many)[..|Cut(lanes, position, n)|]
  {
    var round := Row(lanes, position, |lanes|);
    RowIsPrefix(lanes, position, n, |lanes|);
    RowsArePrefixes(lanes, position + 1, many);
    assert Rows(lanes, position + 1) == Rows(lanes, position) + round;
    PrefixOfRound(Rows(lanes, position), Row(lanes, position, n), round, Rows(lanes, many));
  }

  /** Every cut of a round is a prefix of the reference order. */
  lemma CutOfOrder(lanes: seq<Lane>, position: nat, n: nat)
    requires n <= |lanes| && position <= Longest(lanes)
    ensures |Cut(lanes, position, n)| <= |Order(lanes)|
    ensures Cut(lanes, position, n) == Order(lanes)[..|Cut(lanes, position, n)|]
  {
    if position < Longest(lanes) {
      CutOfRows(lanes, position, n, Longest(lanes));
    } else {
      LongestBounds(lanes, |lanes|);
      NothingLeft(lanes, n, position);
    }
  }

  lemma {:induction false} EmptyRows(lanes: seq<Lane>, position: nat, count: nat)
    requires position <= count && forall l :: 0 <= l < |lanes| ==> |lanes[l].hits| <= position
    ensures Rows(lanes, count) == Rows(lanes, position)
  {
    if position < count {
      EmptyRows(lanes, position, count - 1);
      NothingLeft(lanes, |lanes|, count - 1);
    }
  }

  /** The fields of a hit, with the lane's slug under `repo`. */
  ghost predicate NamesLane(fields: map<string, string>, shown: map<string, string>, slug: string) {
    && shown.Keys == fields.Keys + {"repo"} && shown["repo"] == slug
    && forall k :: k in fields && k != "repo" ==> shown[k] == fields[k]
  }

  /** The i-th merged value is the i-th hit of the order: an object that names its lane's repository, and anything else as it was. */
  lemma MergedHitsNameTheirLane(lanes: seq<Lane>, limit: nat, merged: seq<Value>, i: nat)
    requires IsMerge(lanes, limit, merged) && i < |merged|
    ensures ValidPick(lanes, Order(lanes)[i])
    ensures var pick := Order(lanes)[i];
            match lanes[pick.lane].hits[pick.position]
            case Object(fields) => merged[i].Object? && NamesLane(fields, merged[i].fields, lanes[pick.lane].slug)
            case Other(text) => merged[i] == Other(text)
  {
    assert Order(lanes)[..|merged|][i] == Order(lanes)[i];
  }
}
