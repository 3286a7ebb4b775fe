/**
  Which evidence a hit is, told from its representation, route and path
  (crates/cce-engine/src/context.rs), and what a pack makes of it: the kind each
  item is shown as, and which hits keep the quota slots, in the order of the turns.
 */
module PackRoles {
  import opened Admission
  import opened Common
  import opened ContextHits
  import opened ContextPacker
  import opened Decimals
  import opened Wrappers

  // ----- Hits by their fields -----

  predicate TestHit(h: Hit) {
    h.representation.TestBehavior?
  }

  predicate HistoryHit(h: Hit) {
    h.representation.CommitSummary?
  }

  predicate KnowledgeHit(h: Hit) {
    h.representation.RoleSummary? || h.representation.ModuleSummary? || h.representation.FlowSummary? || h.representation.KnowledgePage?
  }

  /** Neither a test, nor history, nor knowledge. */
  predicate CodeHit(h: Hit) {
    || h.representation.RawCode? || h.representation.Signature? || h.representation.FileDescriptor?
    || h.representation.SymbolSummary? || h.representation.CommitDiff?
  }

  predicate CallerHit(h: Hit) {
    CodeHit(h) && h.route.Structural?
  }

  predicate ContractHit(h: Hit) {
    h.representation.Signature? && !h.route.Structural?
  }

  predicate HasExtension(name: string, stem: string, extension: string) {
    stem != "" && '.' !in extension && name == stem + "." + extension
  }

  /** `package.json`, or a name with a stem and one of four extensions, in any case. */
  ghost predicate ConfigurationName(name: string) {
    || name == "package.json"
    || exists stem: string, extension: string ::
         HasExtension(name, stem, extension) && AsciiLower(extension) in {"toml", "yaml", "yml", "lock"}
  }

  predicate NameIn(path: string, dir: string, name: string) {
    path == dir + name && '/' !in name && (dir == "" || dir[|dir| - 1] == '/')
  }

  ghost predicate ConfigurationFile(path: string) {
    exists dir, name :: NameIn(path, dir, name) && ConfigurationName(name)
  }

  ghost predicate AtConfiguration(h: Hit) {
    h.address.Some? && ConfigurationFile(h.address.value.path)
  }

  /** `config` says whether the hit lies in a configuration file. */
  predicate ConfigHit(h: Hit, config: bool) {
    CodeHit(h) && !h.representation.Signature? && !h.route.Structural? && config
  }

  // ----- The roles are these -----

  lemma FileNameExactly(path: string, name: string)
    ensures FileName(path) == name <==> exists dir :: NameIn(path, dir, name)
  {
    var n := AfterLast(path, '/');
    assert path == path[..n] + path[n..];
    if FileName(path) == name {
      assert NameIn(path, path[..n], name);
    }
    forall dir | NameIn(path, dir, name) ensures FileName(path) == name {
      assert path[|dir|..] == name;
      if dir != "" {
        assert path[|dir| - 1] == '/';
        AfterLastIs(path, '/', |dir|);
      }
    }
  }

  lemma ConfigNameExactly(name: string)
    ensures ConfigurationName(name) <==>
            name == "package.json" || (Extension(name).Some? && AsciiLower(Extension(name).value) in CONFIG_EXTENSIONS)
  {
    if Extension(name).Some? && AsciiLower(Extension(name).value) in CONFIG_EXTENSIONS {
      ExtensionExactly(name, Extension(name).value);
      var stem: string :| stem != "" && name == stem + "." + Extension(name).value;
      assert HasExtension(name, stem, Extension(name).value);
    }
    if name != "package.json" && ConfigurationName(name) {
      var stem: string, extension: string :|
        HasExtension(name, stem, extension) && AsciiLower(extension) in {"toml", "yaml", "yml", "lock"};
      ExtensionExactly(name, extension);
    }
  }

  lemma ConfigPathExactly(path: string)
    ensures ConfigPath(path) <==> ConfigurationFile(path)
  {
    FileNameExactly(path, FileName(path));
    ConfigNameExactly(FileName(path));
    if ConfigurationFile(path) {
      var dir, name :| NameIn(path, dir, name) && ConfigurationName(name);
      FileNameExactly(path, name);
    }
  }

  lemma ConfigurationExactly(h: Hit)
    ensures AtConfiguration(h) <==> h.address.Some? && ConfigPath(h.address.value.path)
  {
    if h.address.Some? { ConfigPathExactly(h.address.value.path); }
  }

  predicate InTurnBy(k: nat, h: Hit, config: bool) {
    || (k == 0 && TestHit(h)) || (k == 1 && ContractHit(h)) || (k == 2 && CallerHit(h))
    || (k == 3 && ConfigHit(h, config)) || (k == 4 && HistoryHit(h)) || (k == 5 && KnowledgeHit(h))
  }

  /** The turns of the first pass: tests, contracts, callers, configuration, history, knowledge. */
  ghost predicate InTurn(k: nat, h: Hit) {
    InTurnBy(k, h, AtConfiguration(h))
  }

  lemma RoleByFields(h: Hit, config: bool)
    requires config <==> h.address.Some? && ConfigPath(h.address.value.path)
    ensures forall k: nat :: k < 6 ==> (InTurnBy(k, h, config) <==> RoleOf(h) == QUOTA_ROLES[k])
    ensures ShownBy(h, config, KindOf(RoleOf(h), h)) && forall kind :: ShownBy(h, config, kind) ==> kind == KindOf(RoleOf(h), h)
  {
  }

  lemma TurnIsRole(k: nat, h: Hit)
    requires k < 6
    ensures InTurn(k, h) <==> RoleOf(h) == QUOTA_ROLES[k]
  {
    ConfigurationExactly(h);
    RoleByFields(h, AtConfiguration(h));
  }

  // ----- What an item shows -----

  predicate ShownBy(h: Hit, config: bool, kind: Kind) {
    match kind
    case OrientationKind => false
    case TestKind => TestHit(h)
    case HistoryKind => HistoryHit(h)
    case KnowledgeKind => KnowledgeHit(h)
    case RelationPath => CallerHit(h)
    case ContractKind => ContractHit(h)
    case ConfigKind => ConfigHit(h, config)
    case EntryPoint => CodeHit(h) && !ContractHit(h) && !ConfigHit(h, config) && h.route.ExactSymbol?
    case Source => CodeHit(h) && !ContractHit(h) && !CallerHit(h) && !ConfigHit(h, config) && !h.route.ExactSymbol?
  }

  /** The kind a hit is shown as. */
  ghost predicate ShownAs(h: Hit, kind: Kind) {
    ShownBy(h, AtConfiguration(h), kind)
  }

  lemma KindIsShown(h: Hit)
    ensures ShownAs(h, KindOf(RoleOf(h), h))
    ensures forall kind :: ShownAs(h, kind) ==> kind == KindOf(RoleOf(h), h)
  {
    ConfigurationExactly(h);
    RoleByFields(h, AtConfiguration(h));
  }

  function PlaceOf(h: Hit): string {
    match h.address
    case None => "no direct source range"
    case Some(a) =>
      a.path + ":" + Decimal(a.startLine) + "-" + Decimal(a.endLine) + " bytes " + Decimal(a.startByte) + ".." + Decimal(a.endByte)
  }

  /** Each route is shown by its own name. */
  lemma RouteNameExactly(r: Route)
    ensures r.NoRetrieval? <==> RouteName(r) == "NoRetrieval"
    ensures r.ExactSymbol? <==> RouteName(r) == "ExactSymbol"
    ensures r.Lexical? <==> RouteName(r) == "Lexical"
    ensures r.DenseRaw? <==> RouteName(r) == "DenseRaw"
    ensures r.DenseSummary? <==> RouteName(r) == "DenseSummary"
    ensures r.Hybrid? <==> RouteName(r) == "Hybrid"
    ensures r.Structural? <==> RouteName(r) == "Structural"
    ensures r.KnowledgeRoute? <==> RouteName(r) == "Knowledge"
    ensures r.HistoryRoute? <==> RouteName(r) == "History"
    ensures r.DiffRoute? <==> RouteName(r) == "Diff"
    ensures r.Zoekt? <==> RouteName(r) == "Zoekt"
    ensures r.Pattern? <==> RouteName(r) == "Pattern"
    ensures r.Reranked? <==> RouteName(r) == "Reranked"
  {
  }

  /** Several routes are shown as a list in brackets, parted by a comma and a blank. */
  lemma RouteNamesGrow(routes: seq<Route>, r: Route)
    ensures RouteNames([]) == "[]" && RouteNames([r]) == "[" + RouteName(r) + "]"
    ensures routes != [] ==>
              RouteNames(routes + [r]) == RouteNames(routes)[..|RouteNames(routes)| - 1] + ", " + RouteName(r) + "]"
  {
    var before := seq(|routes|, i requires 0 <= i < |routes| => RouteName(routes[i]));
    var more := routes + [r];
    var after := seq(|more|, i requires 0 <= i < |more| => RouteName(more[i]));
    assert after[..|after| - 1] == before;
    assert RouteNames(routes)[..|RouteNames(routes)| - 1] == "[" + Joined(before, ", ");
  }

  /** Where the hit lies, how it was found, and its text. */
  function BodyOf(h: Hit): string {
    "Source: " + PlaceOf(h) + "\nRoute: " + RouteName(h.route) + "; routes: " + RouteNames(h.contributingRoutes) + "\nEvidence:\n" + h.snippet
  }

  /** The item stands for the hit. */
  ghost predicate Shows(item: Item, h: Hit, snapshotId: string) {
    && item.id == h.documentId && ShownAs(h, item.kind)
    && item.body == BodyOf(h) && item.estimatedTokens == EstimateTokens(item.body)
    && item.title == (match h.address
                      case Some(a) => a.path + ":" + Decimal(a.startLine) + "-" + Decimal(a.endLine)
                      case None => if h.symbolName.Some? then h.symbolName.value else h.entityId)
    && item.provenance == Provenance(Joined(h.explanation, "; "), h.route, h.rank, h.score, snapshotId, h.verifiedCurrent,
                                     h.symbolName, h.address, h.evidence)
  }

  lemma ItemShows(h: Hit, snapshotId: string)
    ensures Shows(ItemOf(Candidate(RoleOf(h), h), snapshotId), h, snapshotId)
  {
    KindIsShown(h);
  }

  lemma ShippedIsHit(search: Search, budget: nat, k: nat) returns (i: nat)
    requires k < |Packed(JobOf(search, budget), Base(search, budget)).shipped|
    ensures i < |search.hits|
    ensures Packed(JobOf(search, budget), Base(search, budget)).shipped[k] == Candidate(RoleOf(search.hits[i]), search.hits[i])
  {
    var job, base := JobOf(search, budget), Base(search, budget);
    PackIsAdmissible(job, base);
    i := PlaceOfDrawn(Packed(job, base).shipped, job.candidates, k);
  }

  lemma PlaceOfDrawn(shipped: Shipment, candidates: seq<Candidate>, k: nat) returns (i: nat)
    requires k < |shipped| && Drawn(shipped, candidates)
    ensures i < |candidates| && candidates[i] == shipped[k]
  {
    assert shipped[k] in candidates;
    i :| 0 <= i < |candidates| && candidates[i] == shipped[k];
  }

  lemma ShippedAt(search: Search, budget: nat, k: nat, i: nat)
    requires i < |search.hits| && k < |Packed(JobOf(search, budget), Base(search, budget)).shipped|
    requires Packed(JobOf(search, budget), Base(search, budget)).shipped[k] == Candidate(RoleOf(search.hits[i]), search.hits[i])
    ensures var items, at := PackOf(search, budget).items, |Opening(search, budget)| + k;
            at < |items| && Shows(items[at], search.hits[i], search.snapshotId)
  {
    ItemShows(search.hits[i], search.snapshotId);
  }

  /** Every item after the orientation stands for a retrieved hit, and is of the kind its fields say. */
  lemma ItemsShowHits(search: Search, budget: nat, k: nat) returns (i: nat)
    requires |Opening(search, budget)| + k < |PackOf(search, budget).items|
    ensures i < |search.hits|
    ensures Shows(PackOf(search, budget).items[|Opening(search, budget)| + k], search.hits[i], search.snapshotId)
  {
    i := ShippedIsHit(search, budget, k);
    ShippedAt(search, budget, k, i);
  }

  /** The orientation is the first item exactly when it fits the budget; no other item is one. */
  lemma OrientationExactly(search: Search, budget: nat)
    ensures var items := PackOf(search, budget).items;
            && (EstimateTokens(search.orientation) <= budget ==>
                  items != [] && items[0].kind == OrientationKind && items[0].id == "orientation"
                  && items[0].title == "Repository context orientation"
                  && items[0].body == search.orientation && items[0].estimatedTokens == EstimateTokens(search.orientation)
                  && items[0].provenance == Provenance("planner and view-manifest orientation", Hybrid, 0, 1.0, search.snapshotId,
                                                       true, None, None, []))
            && (EstimateTokens(search.orientation) > budget ==> |Opening(search, budget)| == 0)
            && |Opening(search, budget)| <= 1
  {
  }

  // ----- The quota slots -----

  /** The best-ranked hit of a turn. */
  ghost predicate BestOfTurn(hits: seq<Hit>, k: nat, n: nat) {
    n < |hits| && InTurn(k, hits[n]) && forall i :: 0 <= i < n ==> !InTurn(k, hits[i])
  }

  /** The best-ranked hit of each kind of evidence ships whenever it is admissible when its turn comes. */
  lemma BestOfTurnShips(search: Search, budget: nat, k: nat, n: nat)
    requires k < 6 && BestOfTurn(search.hits, k, n)
    requires VerdictAt(JobOf(search, budget), RolePass(JobOf(search, budget), Start(Base(search, budget)), k), search.hits[n]).None?
    ensures search.hits[n].documentId in PackOf(search, budget).report.included
  {
    var job, base := JobOf(search, budget), Base(search, budget);
    BestIsFirstOfRole(search, budget, k, n);
    FirstOfRoleKeepsItsSlot(job, base, k, n);
    IncludedIsTheShipment(search, budget);
    ShippedIds(Packed(job, base).shipped, search.hits[n].documentId);
    InTaken(Packed(job, base).shipped, search.hits[n].documentId);
  }

  predicate ApartHits(a: Hit, b: Hit) {
    && a.documentId != b.documentId && a.entityId != b.entityId
    && (a.address.Some? && b.address.Some? ==> a.address.value.path != b.address.value.path)
  }

  /** Picks of the first roles in turn: the best of each, of different documents, entities and files. */
  ghost predicate PicksOf(job: Job, picks: seq<nat>) {
    && |picks| <= |QUOTA_ROLES|
    && (forall k :: 0 <= k < |picks| ==> picks[k] < |job.candidates|)
    && (forall k :: 0 <= k < |picks| ==> FirstOfRole(job, QUOTA_ROLES[k], picks[k]))
    && (forall j, k :: 0 <= j < k < |picks| ==> ApartHits(job.candidates[picks[j]].hit, job.candidates[picks[k]].hit))
  }

  ghost predicate FirstOfRole(job: Job, role: Role, n: nat)
    requires n < |job.candidates|
  {
    job.candidates[n].role == role && forall i :: 0 <= i < n ==> job.candidates[i].role != role
  }

  function CostOf(job: Job, picks: seq<nat>, k: nat): nat
    requires k <= |picks| && forall j :: 0 <= j < |picks| ==> picks[j] < |job.candidates|
  {
    if k == 0 then 0 else CostOf(job, picks, k - 1) + job.cost(job.candidates[picks[k - 1]].hit)
  }

  /** All picks together fit beside what is used already. */
  predicate Fits(job: Job, base: nat, picks: seq<nat>)
    requires forall j :: 0 <= j < |picks| ==> picks[j] < |job.candidates|
  {
    base + CostOf(job, picks, |picks|) <= job.budget
  }

  lemma {:induction false} CostGrows(job: Job, picks: seq<nat>, k: nat, n: nat)
    requires k <= n <= |picks| && forall j :: 0 <= j < |picks| ==> picks[j] < |job.candidates|
    ensures CostOf(job, picks, k) <= CostOf(job, picks, n)
    decreases n
  {
    if k < n { CostGrows(job, picks, k, n - 1); }
  }

  /** The first k picks, as they ship. */
  function ShipmentOf(job: Job, picks: seq<nat>, k: nat): Shipment
    requires k <= |picks| && forall j :: 0 <= j < |picks| ==> picks[j] < |job.candidates|
  {
    seq(k, j requires 0 <= j < k => job.candidates[picks[j]])
  }

  lemma {:induction false} NoneInFile(shipped: Shipment, path: string)
    requires forall i :: 0 <= i < |shipped| ==> !InFile(shipped[i].hit, path)
    ensures FileCount(shipped, path) == 0
  {
    if shipped != [] { NoneInFile(shipped[..|shipped| - 1], path); }
  }

  lemma ApartIsAdmissible(job: Job, st: State, h: Hit)
    requires forall i :: 0 <= i < |st.shipped| ==> ApartHits(st.shipped[i].hit, h)
    requires st.used + job.cost(h) <= job.budget
    ensures VerdictAt(job, st, h).None? && !Taken(st.shipped, h.documentId)
  {
    if h.address.Some? { NoneInFile(st.shipped, h.address.value.path); }
  }

  lemma PickIs(job: Job, st: State, role: Role, n: nat)
    requires n < |job.candidates| && FirstOfRole(job, role, n) && !Taken(st.shipped, job.candidates[n].hit.documentId)
    ensures Pick(job, st, role) == n
  {
  }

  /** Where the pass stands when the first k picks have shipped. */
  function AfterPicks(job: Job, base: nat, picks: seq<nat>, k: nat): State
    requires k <= |picks| && forall j :: 0 <= j < |picks| ==> picks[j] < |job.candidates|
  {
    State(ShipmentOf(job, picks, k), base + CostOf(job, picks, k), map[])
  }

  lemma PickShips(job: Job, base: nat, picks: seq<nat>, k: nat)
    requires k < |picks| && PicksOf(job, picks) && Fits(job, base, picks)
    ensures RoleStep(job, AfterPicks(job, base, picks, k), QUOTA_ROLES[k]) == AfterPicks(job, base, picks, k + 1)
  {
    var st, n := AfterPicks(job, base, picks, k), picks[k];
    CostGrows(job, picks, k + 1, |picks|);
    ApartIsAdmissible(job, st, job.candidates[n].hit);
    PickIs(job, st, QUOTA_ROLES[k], n);
    assert ShipmentOf(job, picks, k) + [job.candidates[n]] == ShipmentOf(job, picks, k + 1);
  }

  lemma {:induction false} PicksShip(job: Job, base: nat, picks: seq<nat>, k: nat)
    requires k <= |picks| && PicksOf(job, picks) && Fits(job, base, picks)
    ensures RolePass(job, Start(base), k) == AfterPicks(job, base, picks, k)
  {
    if k > 0 {
      PicksShip(job, base, picks, k - 1);
      PickShips(job, base, picks, k - 1);
    }
  }

  /** What the first turns ship comes first. */
  lemma TurnsComeFirst(job: Job, base: nat, k: nat)
    requires k <= |QUOTA_ROLES|
    ensures RolePass(job, Start(base), k).shipped <= Packed(job, base).shipped
  {
    RolePassGrows(job, Start(base), k, |QUOTA_ROLES|);
    FillPassGrows(job, Preselected(job, base), 0, |job.candidates|);
  }

  /** The picks lead the shipment, in the order of the turns. */
  lemma PicksComeFirst(job: Job, base: nat, picks: seq<nat>, k: nat)
    requires k < |picks| && PicksOf(job, picks) && Fits(job, base, picks)
    ensures k < |Packed(job, base).shipped| && Packed(job, base).shipped[k] == job.candidates[picks[k]]
  {
    PicksShip(job, base, picks, |picks|);
    TurnsComeFirst(job, base, |picks|);
    assert Packed(job, base).shipped[k] == ShipmentOf(job, picks, |picks|)[k];
  }

  /** The best hits of the first turns, of different documents, entities and files. */
  ghost predicate Apart(hits: seq<Hit>, picks: seq<nat>) {
    && |picks| <= 6
    && (forall k :: 0 <= k < |picks| ==> BestOfTurn(hits, k, picks[k]))
    && (forall j, k :: 0 <= j < k < |picks| ==> ApartHits(hits[picks[j]], hits[picks[k]]))
  }

  lemma BestIsFirstOfRole(search: Search, budget: nat, k: nat, n: nat)
    requires k < 6 && BestOfTurn(search.hits, k, n)
    ensures FirstOfRole(JobOf(search, budget), QUOTA_ROLES[k], n)
  {
    TurnIsRole(k, search.hits[n]);
    forall i | 0 <= i < n ensures Classified(search.hits)[i].role != QUOTA_ROLES[k] { TurnIsRole(k, search.hits[i]); }
  }

  lemma ApartPicks(search: Search, budget: nat, picks: seq<nat>)
    requires Apart(search.hits, picks)
    ensures PicksOf(JobOf(search, budget), picks)
  {
    forall k | 0 <= k < |picks| ensures FirstOfRole(JobOf(search, budget), QUOTA_ROLES[k], picks[k]) {
      BestIsFirstOfRole(search, budget, k, picks[k]);
    }
  }

  /**
    Right after the orientation come the best test, contract, caller, configuration,
    history and knowledge hits, in this order, or the first few of them, if these
    fit together and lie in different documents, entities and files.
   */
  lemma BestOfEachTurnComeFirst(search: Search, budget: nat, picks: seq<nat>, k: nat)
    requires k < |picks| && Apart(search.hits, picks)
    requires Fits(JobOf(search, budget), Base(search, budget), picks)
    ensures var items, at := PackOf(search, budget).items, |Opening(search, budget)| + k;
            at < |items| && Shows(items[at], search.hits[picks[k]], search.snapshotId)
  {
    ApartPicks(search, budget, picks);
    PicksComeFirst(JobOf(search, budget), Base(search, budget), picks, k);
    ShippedAt(search, budget, k, picks[k]);
  }

  /** The best-ranked test ships first of all hits when it fits after the orientation. */
  lemma BestTestShipsFirst(search: Search, budget: nat, n: nat)
    requires n < |search.hits| && search.hits[n].representation.TestBehavior?
    requires forall i :: 0 <= i < n ==> !search.hits[i].representation.TestBehavior?
    requires Base(search, budget) + Cost(search.hits[n]) <= budget
    ensures var items, at := PackOf(search, budget).items, |Opening(search, budget)|;
            at < |items| && items[at].kind == TestKind && Shows(items[at], search.hits[n], search.snapshotId)
  {
    TestPick(search.hits, n);
    OnePickFits(search, budget, n);
    BestOfEachTurnComeFirst(search, budget, [n], 0);
    ShownTest(PackOf(search, budget).items[|Opening(search, budget)|], search.hits[n], search.snapshotId);
  }

  lemma TestPick(hits: seq<Hit>, n: nat)
    requires n < |hits| && TestHit(hits[n]) && forall i :: 0 <= i < n ==> !TestHit(hits[i])
    ensures Apart(hits, [n])
  {
    assert BestOfTurn(hits, 0, n);
  }

  lemma OnePickFits(search: Search, budget: nat, n: nat)
    requires n < |search.hits| && Base(search, budget) + Cost(search.hits[n]) <= budget
    ensures Fits(JobOf(search, budget), Base(search, budget), [n])
  {
    OnePick(JobOf(search, budget), n);
  }

  lemma ShownTest(item: Item, h: Hit, snapshotId: string)
    requires Shows(item, h, snapshotId) && TestHit(h)
    ensures item.kind == TestKind
  {
  }

  lemma OnePick(job: Job, n: nat)
    requires n < |job.candidates|
    ensures CostOf(job, [n], 1) == job.cost(job.candidates[n].hit)
  {
    assert CostOf(job, [n], 0) == 0;
  }
}
