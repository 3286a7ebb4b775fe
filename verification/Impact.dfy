/**
  Blast radius of a symbol (crates/cce-engine/src/atlas.rs): a stack-driven search
  over incoming impact edges, two hops deep, with a visited map that is never
  lowered.
 */
module Impact {

  datatype Kind =
    | Calls | References | Tests | Implements | BuildDependsOn | RouteHandledBy
    | OtherKind(name: string)

  /** An incoming relation: `source` depends on the entity it is listed under. */
  datatype Edge = Edge(source: string, kind: Kind, confidence: real)

  /** The store: stored incoming edges in order, and the ids that resolve to an entity. */
  datatype Graph = Graph(edges: map<string, seq<Edge>>, known: set<string>)

  datatype Hit = Hit(hops: nat, via: Kind, confidence: real)

  const EDGE_LIMIT: nat := 256

  function Incoming(g: Graph, id: string): (edges: seq<Edge>)
    ensures |edges| <= EDGE_LIMIT
  {
    if id !in g.edges then []
    else if |g.edges[id]| <= EDGE_LIMIT then g.edges[id]
    else g.edges[id][..EDGE_LIMIT]
  }

  predicate ImpactEdge(e: Edge) {
    !e.kind.OtherKind?
  }

  // ----- The search as a function of its state -----

  datatype Stop = Stop(id: string, hops: nat)

  datatype State = State(frontier: seq<Stop>, visited: map<string, nat>, impacted: map<string, Hit>)

  /** Weight of a frontier stop: more than all it can still push. */
  function Weight(hops: nat): nat {
    if hops == 0 then 1 + EDGE_LIMIT * 257 else if hops == 1 then 1 + EDGE_LIMIT else 1
  }

  function FrontierWeight(frontier: seq<Stop>): nat {
    if frontier == [] then 0
    else FrontierWeight(frontier[..|frontier| - 1]) + Weight(frontier[|frontier| - 1].hops)
  }

  function Improve(impacted: map<string, Hit>, id: string, hit: Hit): map<string, Hit> {
    if id !in impacted || hit.hops < impacted[id].hops then impacted[id := hit] else impacted
  }

  /** The first visit decides an entity's level; later ones leave it. */
  function Visit(visited: map<string, nat>, id: string, hops: nat): map<string, nat> {
    if id in visited then visited else visited[id := hops]
  }

  /** One edge into an entity reached at `hops`. */
  function Touch(g: Graph, st: State, e: Edge, hops: nat): (next: State)
    ensures FrontierWeight(next.frontier) <= FrontierWeight(st.frontier) + Weight(hops + 1)
  {
    if !ImpactEdge(e) then st else
    var visited := Visit(st.visited, e.source, hops + 1);
    var pushed := st.frontier + [Stop(e.source, hops + 1)];
    assert pushed[..|pushed| - 1] == st.frontier;
    State(
      if visited[e.source] == hops + 1 then pushed else st.frontier,
      visited,
      if e.source in g.known then Improve(st.impacted, e.source, Hit(hops + 1, e.kind, e.confidence)) else st.impacted)
  }

  function TouchAll(g: Graph, st: State, edges: seq<Edge>, hops: nat): (next: State)
    ensures FrontierWeight(next.frontier) <= FrontierWeight(st.frontier) + |edges| * Weight(hops + 1)
    decreases |edges|
  {
    if edges == [] then st else TouchAll(g, Touch(g, st, edges[0], hops), edges[1..], hops)
  }

  function Pop(st: State): State
    requires st.frontier != []
  {
    st.(frontier := st.frontier[..|st.frontier| - 1])
  }

  function Search(g: Graph, st: State): State
    decreases FrontierWeight(st.frontier)
  {
    if st.frontier == [] then st else
    var top := st.frontier[|st.frontier| - 1];
    if top.hops >= 2 then Search(g, Pop(st))
    else Search(g, TouchAll(g, Pop(st), Incoming(g, top.id), top.hops))
  }

  function Start(seeds: seq<string>): State {
    State(seq(|seeds|, i requires 0 <= i < |seeds| => Stop(seeds[i], 0)), map s | s in seeds :: 0, map[])
  }

  function Report(g: Graph, seeds: seq<string>): map<string, Hit> {
    Search(g, Start(seeds)).impacted
  }

  // ----- The loops -----

  method FollowEdge(g: Graph, edge: Edge, hops: nat, frontier0: seq<Stop>, visited0: map<string, nat>, impacted0: map<string, Hit>)
    returns (frontier: seq<Stop>, visited: map<string, nat>, impacted: map<string, Hit>)
    ensures State(frontier, visited, impacted) == Touch(g, State(frontier0, visited0, impacted0), edge, hops)
  {
    frontier, visited, impacted := frontier0, visited0, impacted0;
    if ImpactEdge(edge) {
      if edge.source !in visited {
        visited := visited[edge.source := hops + 1];
      }
      if visited[edge.source] == hops + 1 {
        frontier := frontier + [Stop(edge.source, hops + 1)];
      }
      if edge.source in g.known {
        if edge.source !in impacted || hops + 1 < impacted[edge.source].hops {
          impacted := impacted[edge.source := Hit(hops + 1, edge.kind, edge.confidence)];
        }
      }
    }
  }

  lemma TouchFirst(g: Graph, st: State, edges: seq<Edge>, hops: nat)
    requires edges != []
    ensures TouchAll(g, st, edges, hops) == TouchAll(g, Touch(g, st, edges[0], hops), edges[1..], hops)
  {
  }

  method FollowEdges(g: Graph, edges: seq<Edge>, hops: nat, frontier0: seq<Stop>, visited0: map<string, nat>, impacted0: map<string, Hit>)
    returns (frontier: seq<Stop>, visited: map<string, nat>, impacted: map<string, Hit>)
    ensures State(frontier, visited, impacted) == TouchAll(g, State(frontier0, visited0, impacted0), edges, hops)
  {
    frontier, visited, impacted := frontier0, visited0, impacted0;
    for i := 0 to |edges|
      invariant TouchAll(g, State(frontier, visited, impacted), edges[i..], hops) ==
                TouchAll(g, State(frontier0, visited0, impacted0), edges, hops)
    {
      assert edges[i..][1..] == edges[i + 1..];
      TouchFirst(g, State(frontier, visited, impacted), edges[i..], hops);
      frontier, visited, impacted := FollowEdge(g, edges[i], hops, frontier, visited, impacted);
    }
  }

  lemma SearchTurn(g: Graph, st: State)
    requires st.frontier != []
    ensures var top := st.frontier[|st.frontier| - 1];
            var st' := if top.hops >= 2 then Pop(st) else TouchAll(g, Pop(st), Incoming(g, top.id), top.hops);
            Search(g, st) == Search(g, st') && FrontierWeight(st'.frontier) < FrontierWeight(st.frontier)
  {
  }

  method ImpactAnalysis(g: Graph, seeds: seq<string>) returns (impacted: map<string, Hit>)
    ensures impacted == Report(g, seeds)
  {
    var frontier: seq<Stop> := seq(|seeds|, i requires 0 <= i < |seeds| => Stop(seeds[i], 0));
    var visited: map<string, nat> := map s | s in seeds :: 0;
    impacted := map[];
    while frontier != []
      invariant Search(g, State(frontier, visited, impacted)) == Search(g, Start(seeds))
      decreases FrontierWeight(frontier)
    {
      SearchTurn(g, State(frontier, visited, impacted));
      var stop := frontier[|frontier| - 1];
      frontier := frontier[..|frontier| - 1];
      if stop.hops >= 2 {
        continue;
      }
      frontier, visited, impacted := FollowEdges(g, Incoming(g, stop.id), stop.hops, frontier, visited, impacted);
    }
  }

  // ----- What is reported -----

  ghost predicate Edges(g: Graph, m: string, n: string, e: Edge) {
    e in Incoming(g, n) && ImpactEdge(e) && e.source == m
  }

  /** `m` is one impact edge away from `n`. */
  ghost predicate Reaches(g: Graph, m: string, n: string) {
    exists e :: Edges(g, m, n, e)
  }

  ghost predicate OneHop(g: Graph, seeds: seq<string>, m: string) {
    exists s :: s in seeds && Reaches(g, m, s)
  }

  ghost predicate TwoHops(g: Graph, seeds: seq<string>, m: string) {
    exists n :: OneHop(g, seeds, n) && Reaches(g, m, n)
  }

  ghost predicate Walk(g: Graph, seeds: seq<string>, m: string, hops: nat) {
    match hops
    case 0 => m in seeds
    case 1 => OneHop(g, seeds, m)
    case 2 => TwoHops(g, seeds, m)
    case _ => false
  }

  /** A report entry stands on an edge into an entity visited one hop nearer. */
  ghost predicate Witnessed(g: Graph, visited: map<string, nat>, m: string, hit: Hit) {
    exists n, e :: && n in visited && visited[n] + 1 == hit.hops && hit.hops <= 2
                   && Edges(g, m, n, e) && hit.via == e.kind && hit.confidence == e.confidence
  }

  /** Every edge into `n` has been followed. */
  ghost predicate Expanded(g: Graph, st: State, n: string) {
    n in st.visited &&
    forall m :: Reaches(g, m, n) ==> Followed(g, st, m, st.visited[n])
  }

  ghost predicate VisitedSound(g: Graph, seeds: seq<string>, visited: map<string, nat>) {
    && (forall x :: x in visited ==> visited[x] <= 2 && Walk(g, seeds, x, visited[x]))
    && (forall s :: s in seeds ==> s in visited && visited[s] == 0)
  }

  ghost predicate FrontierSound(frontier: seq<Stop>, visited: map<string, nat>) {
    forall i :: 0 <= i < |frontier| ==> frontier[i].id in visited && visited[frontier[i].id] == frontier[i].hops
  }

  ghost predicate ImpactedSound(g: Graph, visited: map<string, nat>, impacted: map<string, Hit>) {
    forall m :: m in impacted ==> m in g.known && Witnessed(g, visited, m, impacted[m])
  }

  ghost predicate Sound(g: Graph, seeds: seq<string>, st: State) {
    VisitedSound(g, seeds, st.visited) && FrontierSound(st.frontier, st.visited) && ImpactedSound(g, st.visited, st.impacted)
  }

  ghost predicate Awaits(st: State, x: string) {
    exists i :: 0 <= i < |st.frontier| && st.frontier[i].id == x
  }

  ghost predicate Progress(g: Graph, st: State) {
    forall x :: x in st.visited && st.visited[x] <= 1 ==> Awaits(st, x) || Expanded(g, st, x)
  }

  /** Later states keep what earlier ones visited and reported. */
  ghost predicate Extends(st: State, st': State) {
    && (forall x :: x in st.visited ==> x in st'.visited && st'.visited[x] == st.visited[x])
    && (forall m :: m in st.impacted ==> m in st'.impacted && st'.impacted[m].hops <= st.impacted[m].hops)
    && (forall x :: Awaits(st, x) ==> Awaits(st', x))
    && (forall x :: x in st'.visited && x !in st.visited ==> Awaits(st', x))
  }

  lemma WitnessKept(g: Graph, visited: map<string, nat>, visited': map<string, nat>, m: string, hit: Hit)
    requires Witnessed(g, visited, m, hit)
    requires forall x :: x in visited ==> x in visited' && visited'[x] == visited[x]
    ensures Witnessed(g, visited', m, hit)
  {
    var n, e :| && n in visited && visited[n] + 1 == hit.hops
                && Edges(g, m, n, e) && hit.via == e.kind && hit.confidence == e.confidence;
    assert n in visited' && visited'[n] + 1 == hit.hops;
  }

  lemma WalkExtends(g: Graph, seeds: seq<string>, m: string, n: string, hops: nat)
    requires hops <= 1 && Walk(g, seeds, n, hops) && Reaches(g, m, n)
    ensures Walk(g, seeds, m, hops + 1)
  {
  }

  lemma TouchVisited(g: Graph, seeds: seq<string>, st: State, n: string, e: Edge)
    requires VisitedSound(g, seeds, st.visited) && n in st.visited && st.visited[n] <= 1 && Edges(g, e.source, n, e)
    ensures VisitedSound(g, seeds, Touch(g, st, e, st.visited[n]).visited)
  {
    assert Reaches(g, e.source, n);
    WalkExtends(g, seeds, e.source, n, st.visited[n]);
  }

  lemma TouchFrontier(g: Graph, st: State, e: Edge, hops: nat)
    requires FrontierSound(st.frontier, st.visited)
    ensures FrontierSound(Touch(g, st, e, hops).frontier, Touch(g, st, e, hops).visited)
  {
  }

  lemma ImpactedKept(g: Graph, visited: map<string, nat>, visited': map<string, nat>, impacted: map<string, Hit>)
    requires ImpactedSound(g, visited, impacted)
    requires forall x :: x in visited ==> x in visited' && visited'[x] == visited[x]
    ensures ImpactedSound(g, visited', impacted)
  {
    forall x | x in impacted ensures Witnessed(g, visited', x, impacted[x]) {
      WitnessKept(g, visited, visited', x, impacted[x]);
    }
  }

  lemma ImproveSound(g: Graph, visited: map<string, nat>, impacted: map<string, Hit>, m: string, hit: Hit)
    requires ImpactedSound(g, visited, impacted) && m in g.known && Witnessed(g, visited, m, hit)
    ensures ImpactedSound(g, visited, Improve(impacted, m, hit))
  {
  }

  lemma TouchParts(g: Graph, st: State, e: Edge, hops: nat)
    requires ImpactEdge(e)
    ensures var st' := Touch(g, st, e, hops);
            && st'.visited == Visit(st.visited, e.source, hops + 1)
            && st'.impacted == (if e.source in g.known then Improve(st.impacted, e.source, Hit(hops + 1, e.kind, e.confidence)) else st.impacted)
  {
  }

  lemma TouchImpacted(g: Graph, st: State, n: string, e: Edge)
    requires ImpactedSound(g, st.visited, st.impacted) && n in st.visited && st.visited[n] <= 1 && Edges(g, e.source, n, e)
    ensures var st' := Touch(g, st, e, st.visited[n]);
            ImpactedSound(g, st'.visited, st'.impacted)
  {
    var hit := Hit(st.visited[n] + 1, e.kind, e.confidence);
    var visited' := Visit(st.visited, e.source, hit.hops);
    TouchParts(g, st, e, st.visited[n]);
    ImpactedKept(g, st.visited, visited', st.impacted);
    WitnessedBy(g, visited', n, e, hit);
    if e.source in g.known {
      ImproveSound(g, visited', st.impacted, e.source, hit);
    }
  }

  lemma WitnessedBy(g: Graph, visited: map<string, nat>, n: string, e: Edge, hit: Hit)
    requires n in visited && visited[n] + 1 == hit.hops <= 2 && Edges(g, e.source, n, e)
    requires hit.via == e.kind && hit.confidence == e.confidence
    ensures Witnessed(g, visited, e.source, hit)
  {
  }

  lemma TouchSound(g: Graph, seeds: seq<string>, st: State, n: string, e: Edge)
    requires Sound(g, seeds, st) && n in st.visited && st.visited[n] <= 1 && e in Incoming(g, n)
    ensures Sound(g, seeds, Touch(g, st, e, st.visited[n]))
  {
    if ImpactEdge(e) {
      assert Edges(g, e.source, n, e);
      TouchVisited(g, seeds, st, n, e);
      TouchFrontier(g, st, e, st.visited[n]);
      TouchImpacted(g, st, n, e);
    }
  }

  lemma AwaitsOnPush(st: State, st': State, stop: Stop)
    requires st'.frontier == st.frontier || st'.frontier == st.frontier + [stop]
    ensures forall x :: Awaits(st, x) ==> Awaits(st', x)
    ensures st'.frontier == st.frontier + [stop] ==> Awaits(st', stop.id)
  {
    forall x | Awaits(st, x) ensures Awaits(st', x) {
      var i :| 0 <= i < |st.frontier| && st.frontier[i].id == x;
      assert st'.frontier[i].id == x;
    }
    if st'.frontier == st.frontier + [stop] {
      assert st'.frontier[|st.frontier|].id == stop.id;
    }
  }

  lemma TouchExtends(g: Graph, st: State, e: Edge, hops: nat)
    ensures var st' := Touch(g, st, e, hops);
            && Extends(st, st')
            && (ImpactEdge(e) ==> Followed(g, st', e.source, hops))
  {
    AwaitsOnPush(st, Touch(g, st, e, hops), Stop(e.source, hops + 1));
  }

  /** What following an edge from `m` into an entity at `hops` leaves behind. */
  ghost predicate Followed(g: Graph, st: State, m: string, hops: nat) {
    m in st.visited && (m in g.known ==> m in st.impacted && st.impacted[m].hops <= hops + 1)
  }

  lemma {:induction false} TouchAllKeeps(g: Graph, seeds: seq<string>, st: State, n: string, edges: seq<Edge>)
    requires Sound(g, seeds, st) && n in st.visited && st.visited[n] <= 1
    requires forall e :: e in edges ==> e in Incoming(g, n)
    ensures var st' := TouchAll(g, st, edges, st.visited[n]);
            && Sound(g, seeds, st') && Extends(st, st')
            && (forall e :: e in edges && ImpactEdge(e) ==> Followed(g, st', e.source, st.visited[n]))
    decreases |edges|
  {
    if edges != [] {
      var hops := st.visited[n];
      var mid := Touch(g, st, edges[0], hops);
      TouchSound(g, seeds, st, n, edges[0]);
      TouchExtends(g, st, edges[0], hops);
      TouchAllKeeps(g, seeds, mid, n, edges[1..]);
      ExtendsTransitive(st, mid, TouchAll(g, st, edges, hops));
    }
  }

  lemma ExtendsTransitive(a: State, b: State, c: State)
    requires Extends(a, b) && Extends(b, c)
    ensures Extends(a, c)
  {
  }

  /** One turn of the loop expands the popped entity and keeps the invariants. */
  lemma TurnKeeps(g: Graph, seeds: seq<string>, st: State)
    requires Sound(g, seeds, st) && Progress(g, st) && st.frontier != []
    ensures var top := st.frontier[|st.frontier| - 1];
            var st' := if top.hops >= 2 then Pop(st) else TouchAll(g, Pop(st), Incoming(g, top.id), top.hops);
            Sound(g, seeds, st') && Progress(g, st') && Extends(Pop(st), st') && (top.hops <= 1 ==> Expanded(g, st', top.id))
  {
    var top := st.frontier[|st.frontier| - 1];
    var popped := Pop(st);
    assert Sound(g, seeds, popped);
    forall x | Awaits(st, x) && x != top.id ensures Awaits(popped, x) {
      var i :| 0 <= i < |st.frontier| && st.frontier[i].id == x;
      assert popped.frontier[i].id == x;
    }
    if top.hops <= 1 {
      var edges := Incoming(g, top.id);
      var st' := TouchAll(g, popped, edges, top.hops);
      TouchAllKeeps(g, seeds, popped, top.id, edges);
      AllFollowed(g, st', top.id, top.hops);
      forall x | x in st'.visited && st'.visited[x] <= 1 ensures Awaits(st', x) || Expanded(g, st', x) {
        if x in st.visited && x != top.id {
          assert Awaits(st, x) || Expanded(g, st, x);
          if Expanded(g, st, x) { ExpandedKept(g, popped, st', x); }
        }
      }
    }
  }

  lemma AllFollowed(g: Graph, st: State, n: string, hops: nat)
    requires n in st.visited && st.visited[n] == hops
    requires forall e :: e in Incoming(g, n) && ImpactEdge(e) ==> Followed(g, st, e.source, hops)
    ensures Expanded(g, st, n)
  {
    forall m | Reaches(g, m, n) ensures Followed(g, st, m, hops) {
      var e :| Edges(g, m, n, e);
    }
  }

  lemma ExpandedKept(g: Graph, st: State, st': State, n: string)
    requires Expanded(g, st, n) && Extends(st, st')
    ensures Expanded(g, st', n)
  {
  }

  lemma {:induction false} SearchKeeps(g: Graph, seeds: seq<string>, st: State)
    requires Sound(g, seeds, st) && Progress(g, st)
    ensures Sound(g, seeds, Search(g, st)) && Progress(g, Search(g, st)) && Search(g, st).frontier == []
    decreases FrontierWeight(st.frontier)
  {
    if st.frontier != [] {
      TurnKeeps(g, seeds, st);
      var top := st.frontier[|st.frontier| - 1];
      SearchKeeps(g, seeds, if top.hops >= 2 then Pop(st) else TouchAll(g, Pop(st), Incoming(g, top.id), top.hops));
    }
  }

  lemma StartKeeps(g: Graph, seeds: seq<string>)
    ensures Sound(g, seeds, Start(seeds)) && Progress(g, Start(seeds))
  {
    forall x | x in seeds ensures Awaits(Start(seeds), x) {
      var i :| 0 <= i < |seeds| && seeds[i] == x;
      assert Start(seeds).frontier[i].id == x;
    }
  }

  /** The levels at which the search first met each entity. */
  function Levels(g: Graph, seeds: seq<string>): map<string, nat> {
    Search(g, Start(seeds)).visited
  }

  lemma End(g: Graph, seeds: seq<string>) returns (levels: map<string, nat>, report: map<string, Hit>)
    ensures levels == Levels(g, seeds) && report == Report(g, seeds)
    ensures VisitedSound(g, seeds, levels) && ImpactedSound(g, levels, report)
    ensures forall m, n :: n in levels && levels[n] <= 1 && Reaches(g, m, n) && m in g.known ==>
              m in report && report[m].hops <= levels[n] + 1
    ensures forall m, n :: n in levels && levels[n] <= 1 && Reaches(g, m, n) ==> m in levels
  {
    StartKeeps(g, seeds);
    SearchKeeps(g, seeds, Start(seeds));
    var end := Search(g, Start(seeds));
    levels, report := end.visited, end.impacted;
    forall n | n in levels && levels[n] <= 1 ensures Expanded(g, end, n) {
      assert !Awaits(end, n);
    }
    forall m, n | n in levels && levels[n] <= 1 && Reaches(g, m, n) ensures Followed(g, end, m, levels[n]) {
      assert Expanded(g, end, n);
    }
  }

  ghost predicate MetNear(g: Graph, levels: map<string, nat>, m: string, n: string) {
    n in levels && levels[n] <= 1 && Reaches(g, m, n)
  }

  /**
    For any seeds the report is exactly the known entities with an impact edge
    into an entity first met at hop 0 or 1; its hop count is one more than the
    least such level, and it names an edge from that level.
   */
  lemma ReportIsExact(g: Graph, seeds: seq<string>, m: string)
    ensures m in Report(g, seeds) <==> m in g.known && exists n :: MetNear(g, Levels(g, seeds), m, n)
    ensures m in Report(g, seeds) ==> Witnessed(g, Levels(g, seeds), m, Report(g, seeds)[m])
    ensures m in Report(g, seeds) ==> forall n :: MetNear(g, Levels(g, seeds), m, n) ==>
              Report(g, seeds)[m].hops <= Levels(g, seeds)[n] + 1
  {
    var levels, report := End(g, seeds);
    if m in report {
      var n, e :| n in levels && levels[n] + 1 == report[m].hops && report[m].hops <= 2 && Edges(g, m, n, e);
      assert MetNear(g, levels, m, n);
    }
  }

  /** Nothing is reported without a walk of its hop count, and every direct dependent is reported at hop 1. */
  lemma ReportIsSound(g: Graph, seeds: seq<string>, m: string)
    ensures m in Report(g, seeds) ==>
              m in g.known && 1 <= Report(g, seeds)[m].hops <= 2 && Walk(g, seeds, m, Report(g, seeds)[m].hops)
    ensures m in g.known && OneHop(g, seeds, m) ==> m in Report(g, seeds) && Report(g, seeds)[m].hops == 1
  {
    var levels, report := End(g, seeds);
    if m in report {
      var n, e :| n in levels && levels[n] + 1 == report[m].hops && report[m].hops <= 2 && Edges(g, m, n, e);
      assert Reaches(g, m, n);
      WalkExtends(g, seeds, m, n, levels[n]);
    }
    if m in g.known && OneHop(g, seeds, m) {
      var s :| s in seeds && Reaches(g, m, s);
      assert s in levels && levels[s] == 0;
      assert Witnessed(g, levels, m, report[m]);
    }
  }

  // ----- When two hops are complete -----

  /** A caller can check this before the search: one seed, or no dependent of a seed depends on another one. */
  ghost predicate Layered(g: Graph, seeds: seq<string>) {
    || (forall s, t :: s in seeds && t in seeds ==> s == t)
    || (forall m, n :: OneHop(g, seeds, m) && OneHop(g, seeds, n) && m !in seeds && n !in seeds ==> !Reaches(g, m, n))
  }

  /** No direct dependent of a seed was first met at hop 2. */
  ghost predicate NoneDeep(g: Graph, seeds: seq<string>, visited: map<string, nat>) {
    forall n :: n in visited && OneHop(g, seeds, n) ==> visited[n] <= 1
  }

  /** Either no seed has been expanded, or every dependent of the (single) seed has been met. */
  ghost predicate SeedFirst(g: Graph, seeds: seq<string>, st: State) {
    (forall s, t :: s in seeds && t in seeds ==> s == t) ==>
      || (forall x :: x in st.visited ==> st.visited[x] == 0)
      || (forall n :: OneHop(g, seeds, n) ==> n in st.visited)
  }

  lemma {:induction false} TouchAllShallow(g: Graph, seeds: seq<string>, st: State, n: string, edges: seq<Edge>)
    requires Layered(g, seeds) && Sound(g, seeds, st) && n in st.visited && st.visited[n] <= 1
    requires forall e :: e in edges ==> e in Incoming(g, n)
    requires NoneDeep(g, seeds, st.visited)
    requires st.visited[n] == 1 && (forall s, t :: s in seeds && t in seeds ==> s == t) ==>
               forall m :: OneHop(g, seeds, m) ==> m in st.visited
    ensures NoneDeep(g, seeds, TouchAll(g, st, edges, st.visited[n]).visited)
    decreases |edges|
  {
    if edges != [] {
      var e, hops := edges[0], st.visited[n];
      var mid := Touch(g, st, e, hops);
      TouchSound(g, seeds, st, n, e);
      if hops == 1 && ImpactEdge(e) && e.source !in st.visited && OneHop(g, seeds, e.source) {
        assert Edges(g, e.source, n, e);
        assert Reaches(g, e.source, n) && OneHop(g, seeds, n) && n !in seeds && e.source !in seeds;
        assert false;
      }
      TouchAllShallow(g, seeds, mid, n, edges[1..]);
    }
  }

  lemma TurnShallow(g: Graph, seeds: seq<string>, st: State)
    requires Layered(g, seeds) && Sound(g, seeds, st) && Progress(g, st) && st.frontier != []
    requires NoneDeep(g, seeds, st.visited) && SeedFirst(g, seeds, st)
    ensures var top := st.frontier[|st.frontier| - 1];
            var st' := if top.hops >= 2 then Pop(st) else TouchAll(g, Pop(st), Incoming(g, top.id), top.hops);
            NoneDeep(g, seeds, st'.visited) && SeedFirst(g, seeds, st')
  {
    var top := st.frontier[|st.frontier| - 1];
    if top.hops <= 1 {
      var popped := Pop(st);
      var st' := TouchAll(g, popped, Incoming(g, top.id), top.hops);
      TurnKeeps(g, seeds, st);
      TouchAllShallow(g, seeds, popped, top.id, Incoming(g, top.id));
      if (forall s, t :: s in seeds && t in seeds ==> s == t) && top.hops == 0 {
        forall m | OneHop(g, seeds, m) ensures m in st'.visited {
          var s :| s in seeds && Reaches(g, m, s);
          assert Walk(g, seeds, top.id, 0) && s == top.id;
          assert Followed(g, st', m, 0);
        }
      }
    }
  }

  lemma {:induction false} SearchShallow(g: Graph, seeds: seq<string>, st: State)
    requires Layered(g, seeds) && Sound(g, seeds, st) && Progress(g, st)
    requires NoneDeep(g, seeds, st.visited) && SeedFirst(g, seeds, st)
    ensures NoneDeep(g, seeds, Search(g, st).visited)
    decreases FrontierWeight(st.frontier)
  {
    if st.frontier != [] {
      TurnKeeps(g, seeds, st);
      TurnShallow(g, seeds, st);
      var top := st.frontier[|st.frontier| - 1];
      SearchShallow(g, seeds, if top.hops >= 2 then Pop(st) else TouchAll(g, Pop(st), Incoming(g, top.id), top.hops));
    }
  }

  /** For one seed, and for layered seeds, the report is exactly the known entities within two hops, at their least hop count. */
  lemma LayeredReportIsComplete(g: Graph, seeds: seq<string>, m: string)
    requires Layered(g, seeds)
    ensures m in Report(g, seeds) <==> m in g.known && (OneHop(g, seeds, m) || TwoHops(g, seeds, m))
    ensures m in Report(g, seeds) ==> Report(g, seeds)[m].hops == if OneHop(g, seeds, m) then 1 else 2
  {
    var levels, report := End(g, seeds);
    StartKeeps(g, seeds);
    SearchShallow(g, seeds, Start(seeds));
    ReportIsSound(g, seeds, m);
    if m in g.known && TwoHops(g, seeds, m) {
      var n :| OneHop(g, seeds, n) && Reaches(g, m, n);
      var s :| s in seeds && Reaches(g, n, s);
      assert s in levels && levels[s] == 0;
      assert n in levels && levels[n] <= 1;
    }
  }

  // ----- Two seeds can hide a second hop -----

  function Call(source: string): Edge {
    Edge(source, Calls, 1.0)
  }

  /** p calls b, n calls p and a, m calls n. */
  function Hidden(): Graph {
    Graph(map["b" := [Call("p")], "p" := [Call("n")], "a" := [Call("n")], "n" := [Call("m")]], {"a", "b", "m", "n", "p"})
  }

  lemma Turn(g: Graph, st: State, popped: State, st': State, top: Stop, e: Edge)
    requires st.frontier == popped.frontier + [top] && st == popped.(frontier := st.frontier)
    requires top.hops <= 1 && Incoming(g, top.id) == [e] && st' == Touch(g, popped, e, top.hops)
    ensures Search(g, st) == Search(g, st')
  {
    assert st.frontier[..|st.frontier| - 1] == popped.frontier;
    assert Pop(st) == popped;
    assert [e][1..] == [];
    assert TouchAll(g, popped, [e], top.hops) == TouchAll(g, Touch(g, popped, e, top.hops), [], top.hops);
  }

  lemma TurnAtEdge(g: Graph, st: State, popped: State, top: Stop)
    requires st.frontier == popped.frontier + [top] && st == popped.(frontier := st.frontier) && top.hops >= 2
    ensures Search(g, st) == Search(g, popped)
  {
    assert st.frontier[..|st.frontier| - 1] == popped.frontier;
  }

  lemma HiddenWalk()
    ensures TwoHops(Hidden(), ["a", "b"], "m")
  {
    var g := Hidden();
    assert Edges(g, "n", "a", Call("n")) && Edges(g, "m", "n", Call("m"));
    assert Reaches(g, "n", "a") && Reaches(g, "m", "n");
    assert OneHop(g, ["a", "b"], "n");
  }

  const AT_SEEDS := map["a" := 0, "b" := 0]
  const HIT_P := map["p" := Hit(1, Calls, 1.0)]

  function MetP(): State {
    State([Stop("a", 0), Stop("p", 1)], AT_SEEDS["p" := 1], HIT_P)
  }

  /** n at hop 2, where it is not expanded; a still waits. */
  function MetN(): State {
    State([Stop("a", 0)], AT_SEEDS["p" := 1]["n" := 2], HIT_P["n" := Hit(2, Calls, 1.0)])
  }

  lemma HiddenFirstTurn()
    ensures Search(Hidden(), Start(["a", "b"])) == Search(Hidden(), MetP())
  {
    var s0 := State([Stop("a", 0), Stop("b", 0)], AT_SEEDS, map[]);
    assert Start(["a", "b"]) == s0;
    Turn(Hidden(), s0, State([Stop("a", 0)], AT_SEEDS, map[]), MetP(), Stop("b", 0), Call("p"));
  }

  lemma HiddenSecondTurn()
    ensures Search(Hidden(), MetP()) == Search(Hidden(), MetN())
  {
    var s2 := MetN().(frontier := [Stop("a", 0), Stop("n", 2)]);
    Turn(Hidden(), MetP(), State([Stop("a", 0)], AT_SEEDS["p" := 1], HIT_P), s2, Stop("p", 1), Call("n"));
    TurnAtEdge(Hidden(), s2, MetN(), Stop("n", 2));
  }

  /** From a to n again: n keeps its first level, so nothing is pushed. */
  lemma HiddenLastTurn()
    ensures Search(Hidden(), MetN()) == State([], MetN().visited, HIT_P["n" := Hit(1, Calls, 1.0)])
  {
    var s4 := State([], MetN().visited, HIT_P["n" := Hit(1, Calls, 1.0)]);
    Turn(Hidden(), MetN(), MetN().(frontier := []), s4, Stop("a", 0), Call("n"));
    assert Search(Hidden(), s4) == s4;
  }

  /**
    From the seeds a and b, n is first met at hop 2 through b, so its own
    dependent m, two hops from a, is never reported.
   */
  lemma SecondHopMissed()
    ensures TwoHops(Hidden(), ["a", "b"], "m")
    ensures "m" in Hidden().known && "m" !in Report(Hidden(), ["a", "b"])
  {
    HiddenWalk();
    HiddenFirstTurn();
    HiddenSecondTurn();
    HiddenLastTurn();
  }
}
