/**
  Which edges the impact search follows, and which one it shows
  (crates/cce-engine/src/atlas.rs), told by the kinds of the relations.
 */
module ImpactEdges {
  import opened Impact

  /** The six kinds along which a change spreads. */
  predicate Spreads(k: Kind) {
    k == Calls || k == References || k == Tests || k == Implements || k == BuildDependsOn || k == RouteHandledBy
  }

  /** The i-th stored edge into an entity comes from `m` and spreads; only the first 256 are looked at. */
  predicate SpreadsFrom(g: Graph, n: string, m: string, i: nat) {
    n in g.edges && i < |g.edges[n]| && i < 256 && g.edges[n][i].source == m && Spreads(g.edges[n][i].kind)
  }

  lemma ReachesExactly(g: Graph, m: string, n: string)
    ensures Reaches(g, m, n) <==> exists i: nat :: SpreadsFrom(g, n, m, i)
  {
    if Reaches(g, m, n) {
      var e :| Edges(g, m, n, e);
      var i :| 0 <= i < |Incoming(g, n)| && Incoming(g, n)[i] == e;
      assert SpreadsFrom(g, n, m, i);
    }
    if i: nat :| SpreadsFrom(g, n, m, i) {
      assert Incoming(g, n)[i] == g.edges[n][i];
      assert Edges(g, m, n, g.edges[n][i]);
    }
  }

  /** For any seeds, an entity is reported at hop 1 exactly when it is known and one of the first 256 edges into a seed comes from it and spreads. */
  lemma DirectDependentsExactly(g: Graph, seeds: seq<string>, m: string)
    ensures m in Report(g, seeds) && Report(g, seeds)[m].hops == 1 <==>
            m in g.known && exists s, i: nat :: s in seeds && SpreadsFrom(g, s, m, i)
  {
    ReportIsSound(g, seeds, m);
    if m in Report(g, seeds) && Report(g, seeds)[m].hops == 1 {
      assert OneHop(g, seeds, m);
      var s :| s in seeds && Reaches(g, m, s);
      ReachesExactly(g, m, s);
      var i: nat :| SpreadsFrom(g, s, m, i);
    }
    if s, i: nat :| s in seeds && SpreadsFrom(g, s, m, i) {
      ReachesExactly(g, m, s);
    }
  }

  // ----- The edge that is shown -----

  lemma ShallowStays(g: Graph, st: State, e: Edge, hops: nat, m: string)
    requires m in st.impacted && st.impacted[m].hops == 1
    ensures m in Touch(g, st, e, hops).impacted && Touch(g, st, e, hops).impacted[m] == st.impacted[m]
  {
  }

  lemma {:induction false} ShallowStaysAll(g: Graph, st: State, edges: seq<Edge>, hops: nat, m: string)
    requires m in st.impacted && st.impacted[m].hops == 1
    ensures var st' := TouchAll(g, st, edges, hops); m in st'.impacted && st'.impacted[m] == st.impacted[m]
    decreases |edges|
  {
    if edges != [] {
      ShallowStays(g, st, edges[0], hops, m);
      ShallowStaysAll(g, Touch(g, st, edges[0], hops), edges[1..], hops, m);
    }
  }

  lemma {:induction false} ShallowStaysInSearch(g: Graph, st: State, m: string)
    requires m in st.impacted && st.impacted[m].hops == 1
    ensures m in Search(g, st).impacted && Search(g, st).impacted[m] == st.impacted[m]
    decreases FrontierWeight(st.frontier)
  {
    if st.frontier != [] {
      var next := NextTurn(g, st);
      var top := st.frontier[|st.frontier| - 1];
      if top.hops < 2 { ShallowStaysAll(g, Pop(st), Incoming(g, top.id), top.hops, m); }
      ShallowStaysInSearch(g, next, m);
    }
  }

  lemma NextTurn(g: Graph, st: State) returns (next: State)
    requires st.frontier != []
    ensures var top := st.frontier[|st.frontier| - 1];
            next == if top.hops >= 2 then Pop(st) else TouchAll(g, Pop(st), Incoming(g, top.id), top.hops)
    ensures Search(g, st) == Search(g, next) && FrontierWeight(next.frontier) < FrontierWeight(st.frontier)
  {
    SearchTurn(g, st);
    var top := st.frontier[|st.frontier| - 1];
    next := if top.hops >= 2 then Pop(st) else TouchAll(g, Pop(st), Incoming(g, top.id), top.hops);
  }

  /** The first edge from `m` among these that spreads. */
  predicate FirstFrom(edges: seq<Edge>, m: string, i: nat) {
    && i < |edges| && edges[i].source == m && Spreads(edges[i].kind)
    && forall j :: 0 <= j < i ==> !(edges[j].source == m && Spreads(edges[j].kind))
  }

  lemma {:induction false} FirstEdgeEnters(g: Graph, st: State, edges: seq<Edge>, m: string, i: nat)
    requires FirstFrom(edges, m, i) && m in g.known && m !in st.impacted
    ensures var st' := TouchAll(g, st, edges, 0);
            m in st'.impacted && st'.impacted[m] == Hit(1, edges[i].kind, edges[i].confidence)
    decreases |edges|
  {
    var st1 := Touch(g, st, edges[0], 0);
    if i == 0 {
      ShallowStaysAll(g, st1, edges[1..], 0, m);
    } else {
      assert edges[1..][i - 1] == edges[i];
      assert forall j :: 0 <= j < i - 1 ==> edges[1..][j] == edges[j + 1];
      FirstEdgeEnters(g, st1, edges[1..], m, i - 1);
    }
  }

  /** A direct dependent of the last seed is shown with the kind and confidence of the first stored edge from it that spreads. */
  lemma FirstEdgeIsShown(g: Graph, seeds: seq<string>, m: string, i: nat)
    requires seeds != [] && m in g.known && FirstFrom(Incoming(g, seeds[|seeds| - 1]), m, i)
    ensures var e := Incoming(g, seeds[|seeds| - 1])[i];
            m in Report(g, seeds) && Report(g, seeds)[m] == Hit(1, e.kind, e.confidence)
  {
    var st := Start(seeds);
    var next := NextTurn(g, st);
    FirstEdgeEnters(g, Pop(st), Incoming(g, seeds[|seeds| - 1]), m, i);
    ShallowStaysInSearch(g, next, m);
  }
}
