/**
  The levels of the impact search (crates/cce-engine/src/atlas.rs) told from the
  seeds alone: they depend on the order of the seeds, not on that of the edges.
  With them, when an entity two hops away is missed.
 */
module ImpactLevels {
  import opened Impact

  type LevelMap = map<string, nat>

  /** The entities with an impact edge into `n`. */
  function Dependents(g: Graph, n: string): set<string> {
    Sources(Incoming(g, n))
  }

  function Sources(edges: seq<Edge>): set<string> {
    set i | 0 <= i < |edges| && ImpactEdge(edges[i]) :: edges[i].source
  }

  lemma DependentsReach(g: Graph, m: string, n: string)
    ensures m in Dependents(g, n) <==> Reaches(g, m, n)
  {
    if m in Dependents(g, n) {
      var i :| 0 <= i < |Incoming(g, n)| && ImpactEdge(Incoming(g, n)[i]) && Incoming(g, n)[i].source == m;
      assert Edges(g, m, n, Incoming(g, n)[i]);
    }
    if Reaches(g, m, n) {
      var e :| Edges(g, m, n, e);
      var i :| 0 <= i < |Incoming(g, n)| && Incoming(g, n)[i] == e;
      assert Incoming(g, n)[i].source == m;
    }
  }

  /** Entities not met yet get the level. */
  function Met(levels: LevelMap, found: set<string>, level: nat): LevelMap {
    map x | x in levels.Keys + found :: if x in levels then levels[x] else level
  }

  function DependentsOf(g: Graph, some: set<string>): set<string> {
    set n, x | n in some && x in Dependents(g, n) :: x
  }

  /** The members of a set that stand at a level. */
  function At(levels: LevelMap, some: set<string>, level: nat): set<string> {
    set x | x in some && x in levels && levels[x] == level
  }

  /** Following one seed: its dependents not met yet are at level 1, and then those of its level-1 dependents at level 2. */
  function AfterSeed(g: Graph, levels: LevelMap, s: string): LevelMap {
    var near := Met(levels, Dependents(g, s), 1);
    Met(near, DependentsOf(g, At(near, Dependents(g, s), 1)), 2)
  }

  /** The first n seeds followed from the last of them to the first. */
  function AfterSeeds(g: Graph, levels: LevelMap, seeds: seq<string>, n: nat): LevelMap
    requires n <= |seeds|
    decreases n
  {
    if n == 0 then levels else AfterSeeds(g, AfterSeed(g, levels, seeds[n - 1]), seeds, n - 1)
  }

  /** Reference levels: the seeds are at level 0, and are followed from the last to the first. */
  function SeedLevels(g: Graph, seeds: seq<string>): LevelMap {
    AfterSeeds(g, map s | s in seeds :: 0, seeds, |seeds|)
  }

  lemma MetKeeps(levels: LevelMap, found: set<string>, level: nat, x: string)
    ensures x in Met(levels, found, level) <==> x in levels || x in found
    ensures x in levels ==> Met(levels, found, level)[x] == levels[x]
    ensures x in found && x !in levels ==> Met(levels, found, level)[x] == level
  {
  }

  /** `x` is met behind `s`: it depends on a level-1 dependent of it. */
  ghost predicate Behind(g: Graph, after: LevelMap, s: string, x: string) {
    exists n :: Reaches(g, n, s) && n in after && after[n] == 1 && Reaches(g, x, n)
  }

  /** What following a seed means: levels stay, and an entity not met yet gets 1 when it depends on the seed, else 2 when it is behind it. */
  lemma FollowedSeed(g: Graph, levels: LevelMap, s: string, x: string)
    ensures var after := AfterSeed(g, levels, s);
            && (x in after <==> x in levels || Reaches(g, x, s) || Behind(g, after, s, x))
            && (x in after ==> after[x] == if x in levels then levels[x] else if Reaches(g, x, s) then 1 else 2)
  {
    var near := Met(levels, Dependents(g, s), 1);
    var first := At(near, Dependents(g, s), 1);
    var after := AfterSeed(g, levels, s);
    MetKeeps(levels, Dependents(g, s), 1, x);
    MetKeeps(near, DependentsOf(g, first), 2, x);
    DependentsReach(g, x, s);
    if n :| n in first && x in Dependents(g, n) {
      MetKeeps(near, DependentsOf(g, first), 2, n);
      DependentsReach(g, n, s);
      DependentsReach(g, x, n);
      assert Behind(g, after, s, x);
    }
    if Behind(g, after, s, x) {
      var n :| Reaches(g, n, s) && n in after && after[n] == 1 && Reaches(g, x, n);
      DependentsReach(g, n, s);
      DependentsReach(g, x, n);
      MetKeeps(near, DependentsOf(g, first), 2, n);
      assert n in first;
    }
  }

  // ----- The search computes them -----

  predicate AllAt(stops: seq<Stop>, hops: nat) {
    forall i :: 0 <= i < |stops| ==> stops[i].hops == hops
  }

  function Named(stops: seq<Stop>): set<string> {
    set i | 0 <= i < |stops| :: stops[i].id
  }

  /** Some pushed stops: those of the sources met at exactly this level. */
  predicate Pushed(st: State, st': State, pushed: seq<Stop>, found: set<string>, level: nat) {
    && st'.frontier == st.frontier + pushed && AllAt(pushed, level)
    && st'.visited == Met(st.visited, found, level)
    && Named(pushed) == At(st'.visited, found, level)
  }

  lemma MetOne(levels: LevelMap, x: string, level: nat)
    ensures Met(levels, {x}, level) == Visit(levels, x, level)
  {
  }

  lemma TouchFrontierIs(g: Graph, st: State, e: Edge, hops: nat)
    requires ImpactEdge(e)
    ensures Touch(g, st, e, hops).frontier ==
            st.frontier + if Visit(st.visited, e.source, hops + 1)[e.source] == hops + 1 then [Stop(e.source, hops + 1)] else []
  {
  }

  lemma OneNamed(stop: Stop)
    ensures Named([stop]) == {stop.id}
  {
    assert [stop][0] == stop;
  }

  lemma PushedOne(st: State, st': State, x: string, level: nat, pushed: seq<Stop>)
    requires st'.visited == Met(st.visited, {x}, level)
    requires pushed == if st'.visited[x] == level then [Stop(x, level)] else []
    requires st'.frontier == st.frontier + pushed
    ensures Pushed(st, st', pushed, {x}, level)
  {
    OneNamed(Stop(x, level));
    if pushed == [] {
      assert Named(pushed) == {} && At(st'.visited, {x}, level) == {};
    } else {
      assert At(st'.visited, {x}, level) == {x};
    }
  }

  lemma TouchLevels(g: Graph, st: State, e: Edge, hops: nat) returns (pushed: seq<Stop>)
    requires ImpactEdge(e)
    ensures Pushed(st, Touch(g, st, e, hops), pushed, {e.source}, hops + 1)
  {
    TouchParts(g, st, e, hops);
    MetOne(st.visited, e.source, hops + 1);
    TouchFrontierIs(g, st, e, hops);
    pushed := if Visit(st.visited, e.source, hops + 1)[e.source] == hops + 1 then [Stop(e.source, hops + 1)] else [];
    PushedOne(st, Touch(g, st, e, hops), e.source, hops + 1, pushed);
  }

  lemma MetTwice(levels: LevelMap, a: set<string>, b: set<string>, level: nat)
    ensures Met(Met(levels, a, level), b, level) == Met(levels, a + b, level)
  {
  }

  lemma NamedConcat(a: seq<Stop>, b: seq<Stop>)
    ensures Named(a + b) == Named(a) + Named(b)
  {
    var c := a + b;
    forall x | x in Named(a) ensures x in Named(c) {
      var i :| 0 <= i < |a| && a[i].id == x;
      assert c[i].id == x;
    }
    forall x | x in Named(b) ensures x in Named(c) {
      var i :| 0 <= i < |b| && b[i].id == x;
      assert c[|a| + i].id == x;
    }
    forall x | x in Named(c) ensures x in Named(a) + Named(b) {
      var i :| 0 <= i < |c| && c[i].id == x;
      if i < |a| { assert a[i].id == x; } else { assert b[i - |a|].id == x; }
    }
  }

  lemma PushedTwice(st: State, mid: State, st': State, first: seq<Stop>, second: seq<Stop>, a: set<string>, b: set<string>, level: nat)
    requires Pushed(st, mid, first, a, level) && Pushed(mid, st', second, b, level)
    ensures Pushed(st, st', first + second, a + b, level)
  {
    MetTwice(st.visited, a, b, level);
    NamedConcat(first, second);
    assert st.frontier + first + second == st.frontier + (first + second);
    assert At(st'.visited, a + b, level) == At(mid.visited, a, level) + At(st'.visited, b, level);
  }

  lemma NothingPushed(st: State, level: nat)
    ensures Pushed(st, st, [], {}, level)
  {
    var none: seq<Stop> := [];
    assert st.frontier + none == st.frontier;
    assert Met(st.visited, {}, level) == st.visited;
  }

  lemma SourcesSplit(edges: seq<Edge>)
    requires edges != []
    ensures Sources(edges) == (if ImpactEdge(edges[0]) then {edges[0].source} else {}) + Sources(edges[1..])
  {
    var rest := edges[1..];
    forall x | x in Sources(edges) ensures x in (if ImpactEdge(edges[0]) then {edges[0].source} else {}) + Sources(rest) {
      var i :| 0 <= i < |edges| && ImpactEdge(edges[i]) && edges[i].source == x;
      if i > 0 { assert rest[i - 1].source == x; }
    }
    forall x | x in Sources(rest) ensures x in Sources(edges) {
      var i :| 0 <= i < |rest| && ImpactEdge(rest[i]) && rest[i].source == x;
      assert edges[i + 1].source == x;
    }
  }

  lemma OneMoreEdge(g: Graph, st: State, edges: seq<Edge>, hops: nat, rest: seq<Stop>) returns (pushed: seq<Stop>)
    requires edges != []
    requires Pushed(Touch(g, st, edges[0], hops), TouchAll(g, st, edges, hops), rest, Sources(edges[1..]), hops + 1)
    ensures Pushed(st, TouchAll(g, st, edges, hops), pushed, Sources(edges), hops + 1)
  {
    SourcesSplit(edges);
    if ImpactEdge(edges[0]) {
      var first := TouchLevels(g, st, edges[0], hops);
      PushedTwice(st, Touch(g, st, edges[0], hops), TouchAll(g, st, edges, hops), first, rest, {edges[0].source}, Sources(edges[1..]), hops + 1);
      pushed := first + rest;
    } else {
      pushed := rest;
      assert {} + Sources(edges[1..]) == Sources(edges[1..]);
    }
  }

  lemma NoEdges(g: Graph, st: State, hops: nat)
    ensures Pushed(st, TouchAll(g, st, [], hops), [], Sources([]), hops + 1)
  {
    NothingPushed(st, hops + 1);
    assert Sources([]) == {};
  }

  /** Following all edges into an entity meets its dependents, in whatever order the edges are. */
  lemma {:induction false} TouchAllLevels(g: Graph, st: State, edges: seq<Edge>, hops: nat) returns (pushed: seq<Stop>)
    ensures Pushed(st, TouchAll(g, st, edges, hops), pushed, Sources(edges), hops + 1)
    decreases |edges|
  {
    if edges == [] {
      pushed := [];
      NoEdges(g, st, hops);
    } else {
      TouchFirst(g, st, edges, hops);
      var rest := TouchAllLevels(g, Touch(g, st, edges[0], hops), edges[1..], hops);
      pushed := OneMoreEdge(g, st, edges, hops, rest);
    }
  }

  /** The ids of the stops still to be expanded. */
  function Nears(stops: seq<Stop>): set<string> {
    set i | 0 <= i < |stops| && stops[i].hops == 1 :: stops[i].id
  }

  predicate Deep(stops: seq<Stop>) {
    forall i :: 0 <= i < |stops| ==> stops[i].hops == 1 || stops[i].hops == 2
  }

  lemma NearsSnoc(stops: seq<Stop>, stop: Stop)
    ensures Nears(stops + [stop]) == Nears(stops) + if stop.hops == 1 then {stop.id} else {}
  {
    var more := stops + [stop];
    forall x | x in Nears(stops) ensures x in Nears(more) {
      var i :| 0 <= i < |stops| && stops[i].hops == 1 && stops[i].id == x;
      assert more[i].id == x;
    }
    forall x | x in Nears(more) ensures x in Nears(stops) + if stop.hops == 1 then {stop.id} else {} {
      var i :| 0 <= i < |more| && more[i].hops == 1 && more[i].id == x;
      if i < |stops| { assert stops[i].id == x; }
    }
    if stop.hops == 1 { assert more[|stops|].id == stop.id; }
  }

  lemma {:induction false} NearsOfFar(stops: seq<Stop>, far: seq<Stop>)
    requires AllAt(far, 2)
    ensures Nears(stops + far) == Nears(stops)
    decreases |far|
  {
    if far == [] {
      assert stops + far == stops;
    } else {
      var front, last := far[..|far| - 1], far[|far| - 1];
      NearsOfFar(stops, front);
      NearsSnoc(stops + front, last);
      assert stops + front + [last] == stops + far;
    }
  }

  lemma DependentsOfSplit(g: Graph, some: set<string>, n: string)
    ensures DependentsOf(g, some + {n}) == DependentsOf(g, some) + Dependents(g, n)
  {
  }

  /** What the stops above the base will still bring. */
  function Deepened(g: Graph, levels: LevelMap, extra: seq<Stop>): LevelMap {
    Met(levels, DependentsOf(g, Nears(extra)), 2)
  }

  lemma DeepenedByTop(g: Graph, levels: LevelMap, front: seq<Stop>, top: Stop, pushed: seq<Stop>)
    requires top.hops == 1 && AllAt(pushed, 2)
    ensures Deepened(g, Met(levels, Dependents(g, top.id), 2), front + pushed) == Deepened(g, levels, front + [top])
  {
    NearsSnoc(front, top);
    NearsOfFar(front, pushed);
    MetTwice(levels, Dependents(g, top.id), DependentsOf(g, Nears(front)), 2);
    DependentsOfSplit(g, Nears(front), top.id);
    assert Dependents(g, top.id) + DependentsOf(g, Nears(front)) == DependentsOf(g, Nears(front) + {top.id});
  }

  lemma PopTop(g: Graph, st: State, below: seq<Stop>, top: Stop)
    requires st.frontier == below + [top]
    ensures var st' := if top.hops >= 2 then Pop(st) else TouchAll(g, Pop(st), Incoming(g, top.id), top.hops);
            Search(g, st) == Search(g, st') && FrontierWeight(st'.frontier) < FrontierWeight(st.frontier)
    ensures Pop(st).frontier == below && Pop(st).visited == st.visited
  {
    assert st.frontier[..|st.frontier| - 1] == below;
    SearchTurn(g, st);
  }

  /** A level-2 stop is popped, and that is all. */
  lemma DrainFar(g: Graph, st: State, base: seq<Stop>, front: seq<Stop>, top: Stop) returns (mid: State)
    requires st.frontier == base + front + [top] && top.hops == 2
    ensures Search(g, st) == Search(g, mid) && mid.frontier == base + front
    ensures FrontierWeight(mid.frontier) < FrontierWeight(st.frontier)
    ensures Deepened(g, mid.visited, front) == Deepened(g, st.visited, front + [top])
  {
    PopTop(g, st, base + front, top);
    NearsSnoc(front, top);
    mid := Pop(st);
  }

  lemma DeepConcat(front: seq<Stop>, far: seq<Stop>)
    requires Deep(front) && AllAt(far, 2)
    ensures Deep(front + far)
  {
  }

  /** A level-1 stop is popped and expanded. */
  lemma DrainNear(g: Graph, st: State, base: seq<Stop>, front: seq<Stop>, top: Stop) returns (mid: State, extra: seq<Stop>)
    requires st.frontier == base + front + [top] && Deep(front) && top.hops == 1
    ensures Search(g, st) == Search(g, mid) && mid.frontier == base + extra && Deep(extra)
    ensures FrontierWeight(mid.frontier) < FrontierWeight(st.frontier)
    ensures Deepened(g, mid.visited, extra) == Deepened(g, st.visited, front + [top])
  {
    PopTop(g, st, base + front, top);
    mid := TouchAll(g, Pop(st), Incoming(g, top.id), 1);
    var pushed := TouchAllLevels(g, Pop(st), Incoming(g, top.id), 1);
    extra := front + pushed;
    assert base + front + pushed == base + extra;
    DeepConcat(front, pushed);
    DeepenedByTop(g, st.visited, front, top, pushed);
  }

  lemma NothingToDrain(g: Graph, levels: LevelMap)
    ensures Deepened(g, levels, []) == levels
  {
    assert Nears([]) == {} && DependentsOf(g, {}) == {};
  }

  /** Popping the stops above a base expands the level-1 ones, and meets their dependents at level 2. */
  lemma {:induction false} Drained(g: Graph, st: State, base: seq<Stop>, extra: seq<Stop>) returns (st': State)
    requires st.frontier == base + extra && Deep(extra)
    ensures Search(g, st) == Search(g, st') && st'.frontier == base && st'.visited == Deepened(g, st.visited, extra)
    decreases FrontierWeight(st.frontier)
  {
    if extra == [] {
      st' := st;
      assert base + extra == base;
      NothingToDrain(g, st.visited);
    } else {
      var front, top := extra[..|extra| - 1], extra[|extra| - 1];
      assert extra == front + [top] && st.frontier == base + front + [top];
      if top.hops == 2 {
        var mid := DrainFar(g, st, base, front, top);
        st' := Drained(g, mid, base, front);
      } else {
        var mid, more := DrainNear(g, st, base, front, top);
        st' := Drained(g, mid, base, more);
      }
    }
  }

  lemma NearsAreNamed(stops: seq<Stop>)
    requires AllAt(stops, 1)
    ensures Nears(stops) == Named(stops)
  {
  }

  /** Popping a seed follows it. */
  lemma SeedFollowed(g: Graph, st: State, base: seq<Stop>, s: string) returns (st': State)
    requires st.frontier == base + [Stop(s, 0)]
    ensures Search(g, st) == Search(g, st') && st'.frontier == base && st'.visited == AfterSeed(g, st.visited, s)
  {
    assert st.frontier[..|st.frontier| - 1] == base;
    SearchTurn(g, st);
    var mid := TouchAll(g, Pop(st), Incoming(g, s), 0);
    var pushed := TouchAllLevels(g, Pop(st), Incoming(g, s), 0);
    NearsAreNamed(pushed);
    st' := Drained(g, mid, base, pushed);
  }

  function SeedStops(seeds: seq<string>, n: nat): seq<Stop>
    requires n <= |seeds|
  {
    seq(n, i requires 0 <= i < n => Stop(seeds[i], 0))
  }

  lemma {:induction false} SeedsFollowed(g: Graph, st: State, seeds: seq<string>, n: nat)
    requires n <= |seeds| && st.frontier == SeedStops(seeds, n)
    ensures Search(g, st).visited == AfterSeeds(g, st.visited, seeds, n)
    decreases n
  {
    if n > 0 {
      assert SeedStops(seeds, n) == SeedStops(seeds, n - 1) + [Stop(seeds[n - 1], 0)];
      var next := SeedFollowed(g, st, SeedStops(seeds, n - 1), seeds[n - 1]);
      SeedsFollowed(g, next, seeds, n - 1);
    }
  }

  /** The levels at which the search first meets the entities are the reference levels. */
  lemma LevelsAreSeedLevels(g: Graph, seeds: seq<string>)
    ensures Levels(g, seeds) == SeedLevels(g, seeds)
  {
    assert Start(seeds).frontier == SeedStops(seeds, |seeds|);
    SeedsFollowed(g, Start(seeds), seeds, |seeds|);
  }

  // ----- What is reported, and what is missed -----

  /** An entity with an impact edge into one at level 0 or 1. */
  ghost predicate Near(g: Graph, seeds: seq<string>, m: string, n: string) {
    n in SeedLevels(g, seeds) && SeedLevels(g, seeds)[n] <= 1 && Reaches(g, m, n)
  }

  /**
    For any seeds the report is exactly the known entities with an impact edge into
    an entity at reference level 0 or 1; the hop count is the least such level plus one.
   */
  lemma ReportByLevels(g: Graph, seeds: seq<string>, m: string)
    ensures m in Report(g, seeds) <==> m in g.known && exists n :: Near(g, seeds, m, n)
    ensures m in Report(g, seeds) ==>
              && (forall n :: Near(g, seeds, m, n) ==> Report(g, seeds)[m].hops <= SeedLevels(g, seeds)[n] + 1)
              && exists n :: Near(g, seeds, m, n) && Report(g, seeds)[m].hops == SeedLevels(g, seeds)[n] + 1
  {
    LevelsAreSeedLevels(g, seeds);
    ReportIsExact(g, seeds, m);
    var levels, report := Levels(g, seeds), Report(g, seeds);
    if n :| MetNear(g, levels, m, n) { assert Near(g, seeds, m, n); }
    if n :| Near(g, seeds, m, n) { assert MetNear(g, levels, m, n); }
    forall n | Near(g, seeds, m, n) && m in report ensures report[m].hops <= levels[n] + 1 {
      assert MetNear(g, levels, m, n);
    }
    if m in report {
      var n, e :| n in levels && levels[n] + 1 == report[m].hops && report[m].hops <= 2 && Edges(g, m, n, e);
      assert Reaches(g, m, n);
      assert Near(g, seeds, m, n);
    }
  }

  /** `m` depends on `n`, which is a seed or depends on one. */
  ghost predicate Through(g: Graph, seeds: seq<string>, m: string, n: string) {
    (n in seeds || OneHop(g, seeds, n)) && Reaches(g, m, n)
  }

  /** Within two hops of a seed. */
  ghost predicate WithinTwo(g: Graph, seeds: seq<string>, m: string) {
    OneHop(g, seeds, m) || TwoHops(g, seeds, m)
  }

  /**
    An entity within two hops is missed exactly when every entity it could be
    reached through was met at level 2, that is behind a later seed.
   */
  lemma MissedExactly(g: Graph, seeds: seq<string>, m: string)
    requires m in g.known && WithinTwo(g, seeds, m)
    ensures forall n :: Through(g, seeds, m, n) ==> n in SeedLevels(g, seeds)
    ensures m !in Report(g, seeds) <==> forall n :: Through(g, seeds, m, n) ==> SeedLevels(g, seeds)[n] == 2
  {
    LevelsAreSeedLevels(g, seeds);
    ReportByLevels(g, seeds, m);
    var levels, report := End(g, seeds);
    forall n | Through(g, seeds, m, n) ensures n in levels && levels[n] <= 2 {
      ThroughIsMet(g, seeds, levels, m, n);
    }
    if m in report {
      var n :| Near(g, seeds, m, n);
      assert Walk(g, seeds, n, levels[n]);
      assert Through(g, seeds, m, n);
    }
    forall n | Through(g, seeds, m, n) && m !in report ensures levels[n] == 2 {
      assert Near(g, seeds, m, n) <==> levels[n] <= 1;
    }
  }

  lemma ThroughIsMet(g: Graph, seeds: seq<string>, levels: LevelMap, m: string, n: string)
    requires Through(g, seeds, m, n) && VisitedSound(g, seeds, levels)
    requires forall a, b :: b in levels && levels[b] <= 1 && Reaches(g, a, b) ==> a in levels
    ensures n in levels && levels[n] <= 2
  {
    if n !in seeds {
      var s :| s in seeds && Reaches(g, n, s);
      assert s in levels && levels[s] == 0;
    }
  }

  /** The two-hop report is complete exactly when no known entity is reached through level-2 entities only. */
  lemma CompleteExactly(g: Graph, seeds: seq<string>)
    ensures (forall m :: m in g.known && WithinTwo(g, seeds, m) ==> m in Report(g, seeds)) <==>
            (forall m :: m in g.known && WithinTwo(g, seeds, m) ==>
               exists n :: Through(g, seeds, m, n) && n in SeedLevels(g, seeds) && SeedLevels(g, seeds)[n] <= 1)
  {
    LevelsAreSeedLevels(g, seeds);
    var levels, report := End(g, seeds);
    forall m | m in g.known && WithinTwo(g, seeds, m)
      ensures m in Report(g, seeds) <==> exists n :: Through(g, seeds, m, n) && n in levels && levels[n] <= 1
    {
      MissedExactly(g, seeds, m);
      if n :| Through(g, seeds, m, n) && n in levels && levels[n] <= 1 { assert SeedLevels(g, seeds)[n] != 2; }
      if m in Report(g, seeds) {
        var n :| Through(g, seeds, m, n) && SeedLevels(g, seeds)[n] != 2;
        assert levels[n] <= 2;
      }
    }
  }
}
