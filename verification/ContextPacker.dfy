/**
  The context packer itself (crates/cce-engine/src/context.rs): the quotas that
  admission mutates, the two loops, and what the delivery report of a pack means.
 */
module ContextPacker {
  import opened Admission
  import opened ContextHits
  import opened Delivery
  import opened Wrappers

  /** What retrieval hands over; the orientation text and the lower-casing of snippets are parameters. */
  datatype Search = Search(hits: seq<Hit>, orientation: string, snapshotId: string, terms: seq<string>, lower: string -> string)

  datatype Pack = Pack(items: seq<Item>, usedTokens: nat, report: Report)

  function Classified(hits: seq<Hit>): seq<Candidate> {
    seq(|hits|, i requires 0 <= i < |hits| => Candidate(RoleOf(hits[i]), hits[i]))
  }

  function JobOf(search: Search, budget: nat): Job {
    Job(Cost, budget, Classified(search.hits))
  }

  /** Tokens used before any hit: those of the orientation, when it fits at all. */
  function Base(search: Search, budget: nat): (base: nat)
    ensures base <= budget
  {
    if EstimateTokens(search.orientation) <= budget then EstimateTokens(search.orientation) else 0
  }

  function OrientationItem(search: Search): Item {
    Item("orientation", OrientationKind, "Repository context orientation", search.orientation,
         EstimateTokens(search.orientation),
         Provenance("planner and view-manifest orientation", Hybrid, 0, 1.0, search.snapshotId, true, None, None, []))
  }

  function Opening(search: Search, budget: nat): seq<Item> {
    if EstimateTokens(search.orientation) <= budget then [OrientationItem(search)] else []
  }

  function ItemsOf(shipped: Shipment, snapshotId: string): seq<Item> {
    seq(|shipped|, i requires 0 <= i < |shipped| => ItemOf(shipped[i], snapshotId))
  }

  function TakenIds(shipped: Shipment): set<string> {
    set i | 0 <= i < |shipped| :: shipped[i].hit.documentId
  }

  function PackOf(search: Search, budget: nat): Pack {
    var last := Packed(JobOf(search, budget), Base(search, budget));
    var items := Opening(search, budget) + ItemsOf(last.shipped, search.snapshotId);
    Pack(items, last.used,
         DeliveryReport(Classified(search.hits), TakenIds(last.shipped), last.reasons, items, search.terms, search.lower))
  }

  // ----- The quotas -----

  type RangeKey = (string, nat, nat)

  function KeyOf(hit: Hit): RangeKey
    requires hit.address.Some?
  {
    (hit.address.value.path, hit.address.value.startByte, hit.address.value.endByte)
  }

  function CountOf(ranges: map<string, nat>, path: string): nat {
    if path in ranges then ranges[path] else 0
  }

  lemma FileCountSnoc(shipped: Shipment, c: Candidate, path: string)
    ensures FileCount(shipped + [c], path) == FileCount(shipped, path) + if InFile(c.hit, path) then 1 else 0
  {
    assert (shipped + [c])[..|shipped|] == shipped;
  }

  class Quotas {
    var seenEntities: set<string>
    var seenRanges: set<RangeKey>
    var rangesPerFile: map<string, nat>

    constructor ()
      ensures Tracks([])
    {
      seenEntities, seenRanges, rangesPerFile := {}, {}, map[];
    }

    /** The quotas hold exactly what has shipped. */
    ghost predicate Tracks(shipped: Shipment)
      reads this
    {
      && (forall hit: Hit :: hit.entityId in seenEntities <==> EntityShipped(shipped, hit))
      && (forall hit: Hit :: hit.address.Some? ==> (KeyOf(hit) in seenRanges <==> RangeShipped(shipped, hit)))
      && (forall path :: CountOf(rangesPerFile, path) == FileCount(shipped, path))
    }

    /** Admission: a rejected hit changes no quota, an admitted one is entered in all three. */
    method RenderItem(hit: Hit, role: Role, snapshotId: string, budget: nat, used: nat, ghost job: Job, ghost shipped: Shipment)
      returns (result: Result<Item, Reason>)
      requires Tracks(shipped)
      requires job.budget == budget && job.cost(hit) == Cost(hit)
      modifies this
      ensures match Verdict(job, shipped, used, hit)
              case None => result == Ok(ItemOf(Candidate(role, hit), snapshotId)) && Tracks(shipped + [Candidate(role, hit)])
              case Some(reason) => result == Err(reason) && unchanged(this)
    {
      if hit.address.Some? && KeyOf(hit) in seenRanges {
        return Err(DuplicateRange);
      }
      if hit.address.Some? {
        if CountOf(rangesPerFile, hit.address.value.path) >= FILE_CAP {
          return Err(FileCap);
        }
      }
      if hit.address.None? && hit.entityId in seenEntities {
        return Err(DuplicateEntity);
      }
      var tokens := Cost(hit);
      if tokens > SaturatingSub(budget, used) {
        return Err(Budget);
      }
      ghost var c := Candidate(role, hit);
      if hit.address.Some? {
        var path := hit.address.value.path;
        seenRanges := seenRanges + {KeyOf(hit)};
        rangesPerFile := rangesPerFile[path := CountOf(rangesPerFile, path) + 1];
      }
      seenEntities := seenEntities + {hit.entityId};
      EnteredEntity(shipped, c);
      EnteredRange(shipped, c);
      forall path ensures CountOf(rangesPerFile, path) == FileCount(shipped + [c], path) {
        FileCountSnoc(shipped, c, path);
      }
      result := Ok(ItemOf(Candidate(role, hit), snapshotId));
    }
  }

  lemma EnteredEntity(shipped: Shipment, c: Candidate)
    ensures forall hit: Hit :: EntityShipped(shipped + [c], hit) <==> EntityShipped(shipped, hit) || hit.entityId == c.hit.entityId
  {
    var more := shipped + [c];
    forall hit: Hit ensures EntityShipped(more, hit) <==> EntityShipped(shipped, hit) || hit.entityId == c.hit.entityId {
      assert forall i :: 0 <= i < |shipped| ==> more[i] == shipped[i];
      assert more[|shipped|] == c;
    }
  }

  lemma EnteredRange(shipped: Shipment, c: Candidate)
    ensures forall hit: Hit :: RangeShipped(shipped + [c], hit) <==> RangeShipped(shipped, hit) || SameRange(c.hit, hit)
  {
    var more := shipped + [c];
    forall hit: Hit ensures RangeShipped(more, hit) <==> RangeShipped(shipped, hit) || SameRange(c.hit, hit) {
      assert forall i :: 0 <= i < |shipped| ==> more[i] == shipped[i];
      assert more[|shipped|] == c;
    }
  }

  // ----- The loops -----

  method FindOpen(candidates: seq<Candidate>, role: Role, taken: set<string>, ghost shipped: Shipment) returns (n: nat)
    requires taken == TakenIds(shipped)
    ensures n == FirstOpen(candidates, role, shipped, 0)
  {
    n := 0;
    while n < |candidates| && !(candidates[n].role == role && candidates[n].hit.documentId !in taken)
      invariant n <= |candidates|
      invariant forall i :: 0 <= i < n ==> !IsOpen(candidates[i], role, shipped)
    {
      n := n + 1;
    }
  }

  lemma TakenSnoc(shipped: Shipment, c: Candidate, snapshotId: string)
    ensures TakenIds(shipped + [c]) == TakenIds(shipped) + {c.hit.documentId}
    ensures ItemsOf(shipped + [c], snapshotId) == ItemsOf(shipped, snapshotId) + [ItemOf(c, snapshotId)]
  {
    var more := shipped + [c];
    assert forall i :: 0 <= i < |shipped| ==> more[i] == shipped[i];
    assert more[|shipped|] == c;
    forall id | id in TakenIds(shipped) + {c.hit.documentId} ensures id in TakenIds(more) {
      if id == c.hit.documentId {
        assert more[|shipped|].hit.documentId == id;
      } else {
        var i :| 0 <= i < |shipped| && shipped[i].hit.documentId == id;
        assert more[i].hit.documentId == id;
      }
    }
  }

  /** The variables of the loops, and the state they stand for. */
  ghost predicate Stands(items: seq<Item>, used: nat, taken: set<string>, reasons: map<string, Reason>,
                         st: State, opening: seq<Item>, snapshotId: string) {
    && items == opening + ItemsOf(st.shipped, snapshotId) && used == st.used
    && taken == TakenIds(st.shipped) && reasons == st.reasons
  }

  lemma Ships(items: seq<Item>, used: nat, taken: set<string>, reasons: map<string, Reason>,
              job: Job, st: State, c: Candidate, opening: seq<Item>, snapshotId: string)
    requires Stands(items, used, taken, reasons, st, opening, snapshotId)
    requires VerdictAt(job, st, c.hit).None? && job.cost(c.hit) == ItemOf(c, snapshotId).estimatedTokens
    ensures Stands(items + [ItemOf(c, snapshotId)], used + ItemOf(c, snapshotId).estimatedTokens, taken + {c.hit.documentId}, reasons,
                   Attempt(job, st, c), opening, snapshotId)
  {
    TakenSnoc(st.shipped, c, snapshotId);
    var item := ItemOf(c, snapshotId);
    assert opening + ItemsOf(st.shipped, snapshotId) + [item] == opening + (ItemsOf(st.shipped, snapshotId) + [item]);
  }

  /** One attempt at a candidate: ship its item, or note why not. */
  method TryHit(c: Candidate, search: Search, budget: nat, quotas: Quotas, items: seq<Item>, used: nat, taken: set<string>,
                reasons: map<string, Reason>, ghost job: Job, ghost st: State, ghost opening: seq<Item>)
    returns (items': seq<Item>, used': nat, taken': set<string>, reasons': map<string, Reason>)
    requires quotas.Tracks(st.shipped) && job.budget == budget && Priced(job, c.hit)
    requires Stands(items, used, taken, reasons, st, opening, search.snapshotId)
    modifies quotas
    ensures quotas.Tracks(Attempt(job, st, c).shipped)
    ensures Stands(items', used', taken', reasons', Attempt(job, st, c), opening, search.snapshotId)
  {
    items', used', taken', reasons' := items, used, taken, reasons;
    var result := quotas.RenderItem(c.hit, c.role, search.snapshotId, budget, used, job, st.shipped);
    match result
    case Ok(item) =>
      used' := used' + item.estimatedTokens;
      taken' := taken' + {c.hit.documentId};
      items' := items' + [item];
      Ships(items, used, taken, reasons, job, st, c, opening, search.snapshotId);
    case Err(reason) =>
      reasons' := reasons'[c.hit.documentId := reason];
  }

  /** The job the loops work on: the classified hits, the budget and the tokens of the rendered hits. */
  ghost predicate Of(job: Job, classified: seq<Candidate>, budget: nat) {
    && job.candidates == classified && job.budget == budget
    && forall hit: Hit :: Priced(job, hit)
  }

  /** The price of a hit is the token estimate of its rendered text. */
  ghost predicate Priced(job: Job, hit: Hit) {
    job.cost(hit) == Cost(hit)
  }

  /** The k-th quota role gets one attempt at its best-ranked open hit. */
  method QuotaTurn(search: Search, budget: nat, classified: seq<Candidate>, quotas: Quotas, k: nat, items0: seq<Item>, used0: nat,
                   taken0: set<string>, reasons0: map<string, Reason>, ghost opening: seq<Item>, ghost job: Job, ghost base: nat, ghost st: State)
    returns (items: seq<Item>, used: nat, taken: set<string>, reasons: map<string, Reason>, ghost st': State)
    requires Of(job, classified, budget) && k < |QUOTA_ROLES| && st == RolePass(job, Start(base), k) && quotas.Tracks(st.shipped)
    requires Stands(items0, used0, taken0, reasons0, st, opening, search.snapshotId)
    modifies quotas
    ensures st' == RolePass(job, Start(base), k + 1) && quotas.Tracks(st'.shipped)
    ensures Stands(items, used, taken, reasons, st', opening, search.snapshotId)
  {
    items, used, taken, reasons := items0, used0, taken0, reasons0;
    var n := FindOpen(classified, QUOTA_ROLES[k], taken, st.shipped);
    if n < |classified| {
      items, used, taken, reasons := TryHit(classified[n], search, budget, quotas, items, used, taken, reasons, job, st, opening);
    }
    st' := RoleStep(job, st, QUOTA_ROLES[k]);
  }

  /** First pass: the quota roles take their turns, in their fixed order. */
  method FillQuotas(search: Search, budget: nat, classified: seq<Candidate>, quotas: Quotas, opening: seq<Item>, base: nat, ghost job: Job)
    returns (items: seq<Item>, used: nat, taken: set<string>, reasons: map<string, Reason>, ghost st: State)
    requires Of(job, classified, budget) && quotas.Tracks([])
    modifies quotas
    ensures st == Preselected(job, base) && quotas.Tracks(st.shipped)
    ensures Stands(items, used, taken, reasons, st, opening, search.snapshotId)
  {
    items, used, taken, reasons, st := opening, base, {}, map[], Start(base);
    assert opening + ItemsOf([], search.snapshotId) == opening;
    for k := 0 to |QUOTA_ROLES|
      invariant st == RolePass(job, Start(base), k) && quotas.Tracks(st.shipped)
      invariant Stands(items, used, taken, reasons, st, opening, search.snapshotId)
    {
      items, used, taken, reasons, st := QuotaTurn(search, budget, classified, quotas, k, items, used, taken, reasons, opening, job, base, st);
    }
  }

  ghost predicate Stepped(job: Job, states: seq<State>, k: nat) {
    k < |job.candidates| && k + 1 < |states| && states[k + 1] == FillStep(job, states[k], job.candidates[k])
  }

  /** All the states of the second pass. */
  ghost predicate Trace(job: Job, states: seq<State>) {
    |states| == |job.candidates| + 1 && forall k :: 0 <= k < |job.candidates| ==> Stepped(job, states, k)
  }

  lemma TraceOf(job: Job, st0: State) returns (states: seq<State>)
    ensures Trace(job, states) && states[0] == st0 && states[|job.candidates|] == FillPass(job, st0, |job.candidates|)
  {
    states := seq(|job.candidates| + 1, k requires 0 <= k <= |job.candidates| => FillPass(job, st0, k));
  }

  /** The k-th hit gets one attempt, unless it is taken. */
  method FillTurn(search: Search, budget: nat, classified: seq<Candidate>, quotas: Quotas, k: nat, items0: seq<Item>, used0: nat,
                  taken0: set<string>, reasons0: map<string, Reason>, ghost opening: seq<Item>, ghost job: Job, ghost states: seq<State>)
    returns (items: seq<Item>, used: nat, taken: set<string>, reasons: map<string, Reason>)
    requires Of(job, classified, budget) && Trace(job, states) && k < |classified| && quotas.Tracks(states[k].shipped)
    requires Stands(items0, used0, taken0, reasons0, states[k], opening, search.snapshotId)
    modifies quotas
    ensures quotas.Tracks(states[k + 1].shipped)
    ensures Stands(items, used, taken, reasons, states[k + 1], opening, search.snapshotId)
  {
    items, used, taken, reasons := items0, used0, taken0, reasons0;
    var c := classified[k];
    assert Stepped(job, states, k);
    InTaken(states[k].shipped, c.hit.documentId);
    if c.hit.documentId !in taken {
      items, used, taken, reasons := TryHit(c, search, budget, quotas, items, used, taken, reasons, job, states[k], opening);
    }
  }

  /** Second pass: the hits take their turns, in rank order. */
  method FillByRank(search: Search, budget: nat, classified: seq<Candidate>, quotas: Quotas, items0: seq<Item>, used0: nat,
                    taken0: set<string>, reasons0: map<string, Reason>, ghost opening: seq<Item>, ghost job: Job, ghost states: seq<State>)
    returns (items: seq<Item>, used: nat, taken: set<string>, reasons: map<string, Reason>)
    requires Of(job, classified, budget) && Trace(job, states) && quotas.Tracks(states[0].shipped)
    requires Stands(items0, used0, taken0, reasons0, states[0], opening, search.snapshotId)
    modifies quotas
    ensures Stands(items, used, taken, reasons, states[|job.candidates|], opening, search.snapshotId)
  {
    items, used, taken, reasons := items0, used0, taken0, reasons0;
    for k := 0 to |classified|
      invariant quotas.Tracks(states[k].shipped)
      invariant Stands(items, used, taken, reasons, states[k], opening, search.snapshotId)
    {
      items, used, taken, reasons := FillTurn(search, budget, classified, quotas, k, items, used, taken, reasons, opening, job, states);
    }
  }

  /** The orientation goes first, if it fits. */
  method Orient(search: Search, budget: nat) returns (items: seq<Item>, used: nat)
    ensures items == Opening(search, budget) && used == Base(search, budget)
  {
    var orientationTokens := EstimateTokens(search.orientation);
    items, used := [], 0;
    if orientationTokens <= budget {
      items := [OrientationItem(search)];
      used := used + orientationTokens;
    }
  }

  method PackHits(search: Search, budget: nat) returns (pack: Pack)
    ensures pack == PackOf(search, budget)
  {
    var opening, base := Orient(search, budget);
    var classified := Classified(search.hits);
    var quotas := new Quotas();
    ghost var job, st := JobOf(search, budget), Start(base);
    var items, used, taken, reasons;
    items, used, taken, reasons, st := FillQuotas(search, budget, classified, quotas, opening, base, job);
    ghost var states := TraceOf(job, st);
    items, used, taken, reasons := FillByRank(search, budget, classified, quotas, items, used, taken, reasons, opening, job, states);
    pack := Pack(items, used, DeliveryReport(classified, taken, reasons, items, search.terms, search.lower));
  }

  lemma InTaken(shipped: Shipment, id: string)
    ensures id in TakenIds(shipped) <==> Taken(shipped, id)
  {
  }

  // ----- What a pack promises -----

  function TokensOf(items: seq<Item>): nat {
    if items == [] then 0 else TokensOf(items[..|items| - 1]) + items[|items| - 1].estimatedTokens
  }

  lemma {:induction false} TokensAppend(first: seq<Item>, second: seq<Item>)
    ensures TokensOf(first + second) == TokensOf(first) + TokensOf(second)
    decreases |second|
  {
    if second == [] {
      assert first + second == first;
    } else {
      TokensAppend(first, second[..|second| - 1]);
      assert (first + second)[..|first + second| - 1] == first + second[..|second| - 1];
    }
  }

  lemma {:induction false} TokensArePrices(job: Job, items: seq<Item>, shipped: Shipment)
    requires |items| == |shipped|
    requires forall i :: 0 <= i < |shipped| ==> items[i].estimatedTokens == job.cost(shipped[i].hit)
    ensures TokensOf(items) == TotalCost(job, shipped)
    decreases |items|
  {
    if items != [] { TokensArePrices(job, items[..|items| - 1], shipped[..|shipped| - 1]); }
  }

  /** The tokens used are the sum of the items' estimates, and never more than the budget. */
  lemma UsedIsTheItemsAndFits(search: Search, budget: nat)
    ensures var pack := PackOf(search, budget); pack.usedTokens == TokensOf(pack.items) <= budget
  {
    var job, base := JobOf(search, budget), Base(search, budget);
    PackIsAdmissible(job, base);
    TokensAppend(Opening(search, budget), ItemsOf(Packed(job, base).shipped, search.snapshotId));
    TokensArePrices(job, ItemsOf(Packed(job, base).shipped, search.snapshotId), Packed(job, base).shipped);
    OpeningTokens(search, budget);
  }

  lemma OpeningTokens(search: Search, budget: nat)
    ensures TokensOf(Opening(search, budget)) == Base(search, budget)
  {
    var none: seq<Item> := [];
    assert [OrientationItem(search)][..0] == none;
  }

  lemma {:induction false} IncludedAppend(first: seq<Item>, second: seq<Item>)
    ensures Included(first + second) == Included(first) + Included(second)
    decreases |second|
  {
    if second == [] {
      assert first + second == first;
    } else {
      IncludedAppend(first, second[..|second| - 1]);
      assert (first + second)[..|first + second| - 1] == first + second[..|second| - 1];
    }
  }

  lemma {:induction false} IncludedAreIds(items: seq<Item>, ids: seq<string>)
    requires |items| == |ids|
    requires forall i :: 0 <= i < |items| ==> !items[i].kind.OrientationKind? && items[i].id == ids[i]
    ensures Included(items) == ids
    decreases |items|
  {
    if items != [] {
      IncludedAreIds(items[..|items| - 1], ids[..|ids| - 1]);
      assert ids == ids[..|ids| - 1] + [ids[|ids| - 1]];
    }
  }

  lemma OpeningIsNotIncluded(search: Search, budget: nat)
    ensures Included(Opening(search, budget)) == []
  {
    var none: seq<Item> := [];
    assert [OrientationItem(search)][..0] == none;
  }

  lemma IncludedAfter(opening: seq<Item>, shipped: Shipment, snapshotId: string)
    requires Included(opening) == []
    ensures Included(opening + ItemsOf(shipped, snapshotId)) == Ids(shipped)
  {
    var items := ItemsOf(shipped, snapshotId);
    IncludedAreIds(items, Ids(shipped));
    IncludedAppend(opening, items);
  }

  lemma IncludedIsTheShipment(search: Search, budget: nat)
    ensures PackOf(search, budget).report.included == Ids(Packed(JobOf(search, budget), Base(search, budget)).shipped)
  {
    OpeningIsNotIncluded(search, budget);
    IncludedAfter(Opening(search, budget), Packed(JobOf(search, budget), Base(search, budget)).shipped, search.snapshotId);
  }

  lemma ShippedIds(shipped: Shipment, id: string)
    ensures id in Ids(shipped) <==> id in TakenIds(shipped)
  {
    if id in TakenIds(shipped) {
      var i :| 0 <= i < |shipped| && shipped[i].hit.documentId == id;
      assert Ids(shipped)[i] == id;
    }
  }

  /** Every retrieved document is either included or omitted, and none is both. */
  lemma EveryDocumentIsReportedOnce(search: Search, budget: nat, id: string)
    ensures var report := PackOf(search, budget).report;
            && (id in report.included || id in OmittedIds(report.omitted) <==> id in Ids(Classified(search.hits)))
            && !(id in report.included && id in OmittedIds(report.omitted))
  {
    var job, base := JobOf(search, budget), Base(search, budget);
    var last := Packed(job, base);
    PackIsAdmissible(job, base);
    IncludedIsTheShipment(search, budget);
    ShippedIds(last.shipped, id);
    OmittedAreTheUntaken(job.candidates, TakenIds(last.shipped), last.reasons);
    AmongMembers(Ids(job.candidates), TakenIds(last.shipped), false, id);
    if id in TakenIds(last.shipped) {
      var i :| 0 <= i < |last.shipped| && last.shipped[i].hit.documentId == id;
      DrawnId(last.shipped, job.candidates, i);
    }
  }

  lemma DrawnId(shipped: Shipment, candidates: seq<Candidate>, i: nat)
    requires i < |shipped| && Drawn(shipped, candidates)
    ensures shipped[i].hit.documentId in Ids(candidates)
  {
    assert shipped[i] in candidates;
    var j :| 0 <= j < |candidates| && candidates[j] == shipped[i];
    assert Ids(candidates)[j] == shipped[i].hit.documentId;
  }

  lemma TakenAreDrawn(job: Job, base: nat, id: string)
    requires base <= job.budget && id in TakenIds(Packed(job, base).shipped)
    ensures id in Ids(job.candidates)
  {
    var shipped := Packed(job, base).shipped;
    PackIsAdmissible(job, base);
    var i :| 0 <= i < |shipped| && shipped[i].hit.documentId == id;
    DrawnId(shipped, job.candidates, i);
  }

  lemma ShippedIdsAreDistinct(job: Job, base: nat)
    requires base <= job.budget
    ensures NoRepeats(Ids(Packed(job, base).shipped))
  {
    PackIsAdmissible(job, base);
  }

  /** With distinct documents the two lists are a partition of the hits, item by item. */
  lemma ReportPartitionsTheHits(search: Search, budget: nat)
    requires DistinctIds(Classified(search.hits))
    ensures var report := PackOf(search, budget).report;
            multiset(report.included) + multiset(OmittedIds(report.omitted)) == multiset(Ids(Classified(search.hits)))
  {
    var job, base := JobOf(search, budget), Base(search, budget);
    var shipped, reasons := Packed(job, base).shipped, Packed(job, base).reasons;
    var taken := TakenIds(shipped);
    IncludedIsTheShipment(search, budget);
    OmittedAreTheUntaken(job.candidates, taken, reasons);
    ShippedIdsAreDistinct(job, base);
    forall id ensures id in Ids(shipped) <==> id in taken {
      ShippedIds(shipped, id);
    }
    forall id | id in taken ensures id in Ids(job.candidates) {
      TakenAreDrawn(job, base, id);
    }
    TakenAndRest(Ids(job.candidates), Ids(shipped), taken);
  }

  /** The last hit of a document. */
  predicate LastOf(candidates: seq<Candidate>, i: nat, id: string) {
    && i < |candidates| && candidates[i].hit.documentId == id
    && forall m :: i < m < |candidates| ==> candidates[m].hit.documentId != id
  }

  lemma {:induction false} HasLast(candidates: seq<Candidate>, id: string, start: nat) returns (i: nat)
    requires start < |candidates| && candidates[start].hit.documentId == id
    ensures LastOf(candidates, i, id)
    decreases |candidates| - start
  {
    if m :| start < m < |candidates| && candidates[m].hit.documentId == id {
      i := HasLast(candidates, id, m);
    } else {
      i := start;
    }
  }

  /** Every omission carries the rule that rejected the document's last hit in the second pass: the fallback reason is never used. */
  lemma OmissionsCarryTheirRejection(search: Search, budget: nat, o: OmittedHit) returns (i: nat)
    requires o in PackOf(search, budget).report.omitted
    ensures var job := JobOf(search, budget);
            && LastOf(job.candidates, i, o.documentId)
            && Some(o.reason) == VerdictAt(job, Filled(job, Base(search, budget), i), job.candidates[i].hit)
  {
    var job, base := JobOf(search, budget), Base(search, budget);
    var last := Packed(job, base);
    var taken := TakenIds(last.shipped);
    OmittedAreTheUntaken(job.candidates, taken, last.reasons);
    var k :| 0 <= k < |PackOf(search, budget).report.omitted| && PackOf(search, budget).report.omitted[k] == o;
    assert OmittedIds(PackOf(search, budget).report.omitted)[k] == o.documentId;
    AmongMembers(Ids(job.candidates), taken, false, o.documentId);
    var start :| 0 <= start < |job.candidates| && Ids(job.candidates)[start] == o.documentId;
    i := HasLast(job.candidates, o.documentId, start);
    InTaken(last.shipped, o.documentId);
    ReasonIsTheLastRejection(job, base, i);
  }

  /** With distinct documents, a taken id names one hit: the shipped one. */
  lemma TakenHitIsShipped(job: Job, base: nat, i: nat)
    requires base <= job.budget && DistinctIds(job.candidates) && i < |job.candidates|
    ensures job.candidates[i].hit.documentId in TakenIds(Packed(job, base).shipped) <==> job.candidates[i] in Packed(job, base).shipped
  {
    var shipped := Packed(job, base).shipped;
    PackIsAdmissible(job, base);
    if k :| 0 <= k < |shipped| && shipped[k].hit.documentId == job.candidates[i].hit.documentId {
      assert shipped[k] in job.candidates;
      var j :| 0 <= j < |job.candidates| && job.candidates[j] == shipped[k];
      assert j == i;
    }
    if job.candidates[i] in shipped {
      var k :| 0 <= k < |shipped| && shipped[k] == job.candidates[i];
      assert shipped[k].hit.documentId in TakenIds(shipped);
    }
  }

  predicate ShippedCarries(shipped: Shipment, lower: string -> string, term: string) {
    exists k :: 0 <= k < |shipped| && Contains(lower(shipped[k].hit.snippet), term)
  }

  /** A hit of a shipped document carries the term; with repeated documents that hit need not be the shipped one. */
  predicate ShippedDocumentCarries(hits: seq<Hit>, shipped: Shipment, lower: string -> string, term: string) {
    exists i :: 0 <= i < |hits| && Taken(shipped, hits[i].documentId) && Contains(lower(hits[i].snippet), term)
  }

  /**
    A claim term without a line break is reported delivered exactly when it is empty
    or some single hit of a shipped document carries it; with distinct documents,
    exactly when it is empty or one shipped snippet carries it.
   */
  lemma DeliveredTermsAreShipped(search: Search, budget: nat, term: string)
    requires term in search.terms && '\n' !in term
    ensures var report := PackOf(search, budget).report;
            var shipped := Packed(JobOf(search, budget), Base(search, budget)).shipped;
            && (term in report.delivered <==> term == "" || ShippedDocumentCarries(search.hits, shipped, search.lower, term))
            && (DistinctIds(Classified(search.hits)) ==>
                  (term in report.delivered <==> term == "" || ShippedCarries(shipped, search.lower, term)))
            && (term in report.missing <==> !(term in report.delivered))
  {
    var job, base := JobOf(search, budget), Base(search, budget);
    var shipped := Packed(job, base).shipped;
    var text := Joined(Snippets(job.candidates, TakenIds(shipped), search.lower), "\n");
    TermsInMembers(search.terms, text, true, term);
    TermsInMembers(search.terms, text, false, term);
    DeliveredExactly(job.candidates, TakenIds(shipped), search.lower, term);
    CarriedByDocument(search.hits, shipped, search.lower, term);
    if DistinctIds(job.candidates) {
      CarriedByShipped(job, base, search.lower, term);
    }
  }

  lemma CarriedByDocument(hits: seq<Hit>, shipped: Shipment, lower: string -> string, term: string)
    ensures (exists i :: 0 <= i < |hits| && Carries(Classified(hits)[i], TakenIds(shipped), lower, term)) <==>
            ShippedDocumentCarries(hits, shipped, lower, term)
  {
    forall i | 0 <= i < |hits|
      ensures Carries(Classified(hits)[i], TakenIds(shipped), lower, term) <==>
              Taken(shipped, hits[i].documentId) && Contains(lower(hits[i].snippet), term)
    {
      InTaken(shipped, hits[i].documentId);
    }
  }

  lemma CarriedByShipped(job: Job, base: nat, lower: string -> string, term: string)
    requires base <= job.budget && DistinctIds(job.candidates)
    ensures (exists i :: 0 <= i < |job.candidates| && Carries(job.candidates[i], TakenIds(Packed(job, base).shipped), lower, term)) <==>
            ShippedCarries(Packed(job, base).shipped, lower, term)
  {
    var shipped := Packed(job, base).shipped;
    PackIsAdmissible(job, base);
    if i :| 0 <= i < |job.candidates| && Carries(job.candidates[i], TakenIds(shipped), lower, term) {
      TakenHitIsShipped(job, base, i);
      var k :| 0 <= k < |shipped| && shipped[k] == job.candidates[i];
      assert Contains(lower(shipped[k].hit.snippet), term);
    }
    if k :| 0 <= k < |shipped| && Contains(lower(shipped[k].hit.snippet), term) {
      assert shipped[k] in job.candidates;
      var i :| 0 <= i < |job.candidates| && job.candidates[i] == shipped[k];
      TakenHitIsShipped(job, base, i);
      assert Carries(job.candidates[i], TakenIds(shipped), lower, term);
    }
  }

  predicate HasSource(shipped: Shipment) {
    exists k :: 0 <= k < |shipped| && shipped[k].hit.address.Some?
  }

  /** A hit of a shipped document has a source address; with repeated documents that hit need not be the shipped one. */
  predicate DocumentHasSource(hits: seq<Hit>, shipped: Shipment) {
    exists i :: 0 <= i < |hits| && Taken(shipped, hits[i].documentId) && hits[i].address.Some?
  }

  lemma SourceShippedExactly(job: Job, base: nat)
    requires base <= job.budget && DistinctIds(job.candidates)
    ensures var shipped := Packed(job, base).shipped;
            SourceShipped(job.candidates, TakenIds(shipped)) <==> HasSource(shipped)
  {
    var shipped := Packed(job, base).shipped;
    PackIsAdmissible(job, base);
    if k :| 0 <= k < |shipped| && shipped[k].hit.address.Some? {
      assert shipped[k] in job.candidates;
      var i :| 0 <= i < |job.candidates| && job.candidates[i] == shipped[k];
      TakenHitIsShipped(job, base, i);
    }
    if i :| 0 <= i < |job.candidates| && job.candidates[i].hit.documentId in TakenIds(shipped) && job.candidates[i].hit.address.Some? {
      TakenHitIsShipped(job, base, i);
      var k :| 0 <= k < |shipped| && shipped[k] == job.candidates[i];
      assert shipped[k].hit.address.Some?;
    }
  }

  lemma SourceOfDocument(hits: seq<Hit>, shipped: Shipment)
    ensures SourceShipped(Classified(hits), TakenIds(shipped)) <==> DocumentHasSource(hits, shipped)
  {
    forall i | 0 <= i < |hits|
      ensures Classified(hits)[i].hit == hits[i] && (hits[i].documentId in TakenIds(shipped) <==> Taken(shipped, hits[i].documentId))
    {
      InTaken(shipped, hits[i].documentId);
    }
    if i :| 0 <= i < |hits| && Taken(shipped, hits[i].documentId) && hits[i].address.Some? {
      assert Classified(hits)[i].hit == hits[i];
    }
  }

  /**
    The report says "no source evidence" exactly when no hit of a shipped document
    has a source address; with distinct documents, exactly when no shipped hit has one.
   */
  lemma NoSourceEvidenceExactly(search: Search, budget: nat)
    ensures var shipped := Packed(JobOf(search, budget), Base(search, budget)).shipped;
            var none := PackOf(search, budget).report.verification.NoSourceEvidence?;
            && (none <==> !DocumentHasSource(search.hits, shipped))
            && (DistinctIds(Classified(search.hits)) ==> (none <==> !HasSource(shipped)))
  {
    SourceOfDocument(search.hits, Packed(JobOf(search, budget), Base(search, budget)).shipped);
    if DistinctIds(Classified(search.hits)) {
      SourceShippedExactly(JobOf(search, budget), Base(search, budget));
    }
  }
}
