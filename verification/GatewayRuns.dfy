/**
  Runs of the gateway from its initial state that break two promises of its
  documentation (apps/gateway/src/main.rs, cache.rs): a stale cached answer, in each
  of its three causes, and 17 global slots for one repository.
 */
module GatewayRuns {
  import opened Common
  import opened Gateway
  import opened GatewayReports
  import opened Wrappers
  import SearchCache

  // ----- One cacheable request up to its upstream call -----

  /** What a request's way to its upstream call does not touch. */
  predicate SameContent(s: State, s': State) {
    && s'.cfg == s.cfg && s'.clock == s.clock && s'.entries == s.entries
    && s'.materialized == s.materialized && s'.served == s.served && s'.invalidated == s.invalidated
  }

  /** Nobody is in the gateway, and the circuit of the repository is closed. */
  predicate Idle(s: State, r: string) {
    && s.requests == map[] && s.inflight == map[] && s.globalFree > 0 && FreeOf(s.workerFree, r) > 0
    && LedgerOf(s, r).circuit.openUntil.None?
  }

  predicate Has(s: State, id: nat, q: Request) {
    id in s.requests && s.requests[id] == q
  }

  /** The request changes, or is new; all others stay. */
  predicate Becomes(s: State, s': State, id: nat, q: Request) {
    s'.requests == s.requests[id := q]
  }

  lemma BecomesTwice(s: State, mid: State, s': State, id: nat, first: Request, second: Request)
    requires Becomes(s, mid, id, first) && Becomes(mid, s', id, second)
    ensures Becomes(s, s', id, second)
  {
  }

  lemma Comes(s: State, r: string, digest: string) returns (s': State)
    requires Idle(s, r)
    ensures s' == Apply(s, Arrive(r, Some(digest), false))
    ensures SameContent(s, s') && Becomes(s, s', s.nextId, Request(r, Some(digest), false, Arrived, false, false, false, None, false))
    ensures s'.inflight == map[] && s'.globalFree > 0 && FreeOf(s'.workerFree, r) > 0 && LedgerOf(s', r) == LedgerOf(s, r)
  {
    s' := ArriveStep(s, r, Some(digest), false);
  }

  lemma OneMoves(s: State, id: nat, q: Request, m: Move, q': Request)
    requires Has(s, id, q) && CanMove(s, q, m) && NextRequest(s, id, q, m) == Some(q')
    ensures Becomes(s, ActStep(s, id, m), id, q')
    ensures ActStep(s, id, m).workerFree == NextWorkerFree(s, q, m) && ActStep(s, id, m).globalFree == NextGlobalFree(s, q, m)
    ensures ActStep(s, id, m).inflight == NextInflight(s, id, q, m) && ActStep(s, id, m).ledgers == NextLedgers(s, id, q, m)
    ensures !m.Store? ==> SameContent(s, ActStep(s, id, m))
  {
  }

  lemma Misses(s: State, id: nat, q: Request) returns (s': State)
    requires Has(s, id, q) && q.phase.Arrived? && q.digest.Some? && !Hit(s, KeyOf(q))
    ensures s' == Apply(s, Act(id, LookUp))
    ensures SameContent(s, s') && Becomes(s, s', id, q.(phase := Missed)) && s'.inflight == s.inflight
    ensures s'.globalFree == s.globalFree && s'.workerFree == s.workerFree && s'.ledgers == s.ledgers
  {
    OneMoves(s, id, q, LookUp, q.(phase := Missed));
    s' := ActStep(s, id, LookUp);
  }

  lemma Claims(s: State, id: nat, q: Request) returns (s': State)
    requires Has(s, id, q) && q.phase.Missed? && q.digest.Some? && s.inflight == map[]
    ensures s' == Apply(s, Act(id, Claim))
    ensures SameContent(s, s') && Becomes(s, s', id, q.(phase := Queued, leads := true))
    ensures s'.globalFree == s.globalFree && s'.workerFree == s.workerFree && s'.ledgers == s.ledgers
  {
    OneMoves(s, id, q, Claim, q.(phase := Queued, leads := true));
    s' := ActStep(s, id, Claim);
  }

  /** A miss that leads its flight. */
  lemma MissesAndLeads(s: State, id: nat, q: Request) returns (s': State)
    requires Has(s, id, q) && q.phase.Arrived? && q.digest.Some? && !Hit(s, KeyOf(q)) && s.inflight == map[]
    ensures s' == Apply(Apply(s, Act(id, LookUp)), Act(id, Claim))
    ensures SameContent(s, s') && Becomes(s, s', id, q.(phase := Queued, leads := true))
    ensures s'.globalFree == s.globalFree && s'.workerFree == s.workerFree && s'.ledgers == s.ledgers
  {
    var missed := Misses(s, id, q);
    s' := Claims(missed, id, q.(phase := Missed));
    BecomesTwice(s, missed, s', id, q.(phase := Missed), q.(phase := Queued, leads := true));
  }

  lemma TakesWorker(s: State, id: nat, q: Request) returns (s': State)
    requires Has(s, id, q) && q.phase.Queued? && FreeOf(s.workerFree, q.repo) > 0
    ensures s' == Apply(s, Act(id, TakeWorker))
    ensures SameContent(s, s') && Becomes(s, s', id, q.(phase := HoldsWorker, worker := true))
    ensures s'.globalFree == s.globalFree && s'.ledgers == s.ledgers
  {
    OneMoves(s, id, q, TakeWorker, q.(phase := HoldsWorker, worker := true));
    s' := ActStep(s, id, TakeWorker);
  }

  lemma TakesGlobal(s: State, id: nat, q: Request) returns (s': State)
    requires Has(s, id, q) && q.phase.HoldsWorker? && s.globalFree > 0
    ensures s' == Apply(s, Act(id, TakeGlobal))
    ensures SameContent(s, s') && Becomes(s, s', id, q.(phase := Admissible, global := true)) && s'.ledgers == s.ledgers
  {
    OneMoves(s, id, q, TakeGlobal, q.(phase := Admissible, global := true));
    s' := ActStep(s, id, TakeGlobal);
  }

  lemma TakesBoth(s: State, id: nat, q: Request) returns (s': State)
    requires Has(s, id, q) && q.phase.Queued? && s.globalFree > 0 && FreeOf(s.workerFree, q.repo) > 0
    ensures s' == Apply(Apply(s, Act(id, TakeWorker)), Act(id, TakeGlobal))
    ensures SameContent(s, s') && Becomes(s, s', id, q.(phase := Admissible, worker := true, global := true))
    ensures s'.ledgers == s.ledgers
  {
    var holding := TakesWorker(s, id, q);
    s' := TakesGlobal(holding, id, q.(phase := HoldsWorker, worker := true));
    BecomesTwice(s, holding, s', id, q.(phase := HoldsWorker, worker := true), q.(phase := Admissible, worker := true, global := true));
  }

  lemma IsGranted(s: State, id: nat, q: Request) returns (s': State)
    requires Has(s, id, q) && q.phase.Admissible? && LedgerOf(s, q.repo).circuit.openUntil.None?
    ensures s' == Apply(s, Act(id, Admit))
    ensures SameContent(s, s') && Becomes(s, s', id, q.(phase := Calling, owes := true))
  {
    OneMoves(s, id, q, Admit, q.(phase := Calling, owes := true));
    s' := ActStep(s, id, Admit);
  }

  lemma TwoMore(s: State, actions: seq<Action>, a: Action, b: Action)
    ensures Run(s, actions + [a, b]) == Apply(Apply(Run(s, actions), a), b)
  {
    RunAppend(s, actions, [a, b]);
    RunTwo(Run(s, actions), a, b);
  }

  /** More actions, with no invalidation among them. */
  predicate Extends(before: seq<Action>, actions: seq<Action>) {
    before <= actions && forall i :: |before| <= i < |actions| ==> !actions[i].Invalidate?
  }

  /** From an idle gateway a request that misses the cache comes to lead its flight. */
  lemma LeadsFlight(cfg: Config, before: seq<Action>, r: string, digest: string) returns (actions: seq<Action>, id: nat)
    requires Idle(Run(Init(cfg), before), r) && !Hit(Run(Init(cfg), before), SearchCache.Key(r, digest))
    ensures Extends(before, actions)
    ensures var s, s' := Run(Init(cfg), before), Run(Init(cfg), actions);
            && SameContent(s, s') && Has(s', id, Request(r, Some(digest), false, Queued, false, false, false, None, true))
            && s'.globalFree > 0 && FreeOf(s'.workerFree, r) > 0 && LedgerOf(s', r).circuit.openUntil.None?
  {
    var s := Run(Init(cfg), before);
    id := s.nextId;
    var come := Comes(s, r, digest);
    RunSnoc(Init(cfg), before, Arrive(r, Some(digest), false));
    var a1 := before + [Arrive(r, Some(digest), false)];
    var led := MissesAndLeads(come, id, Request(r, Some(digest), false, Arrived, false, false, false, None, false));
    TwoMore(Init(cfg), a1, Act(id, LookUp), Act(id, Claim));
    actions := a1 + [Act(id, LookUp), Act(id, Claim)];
  }

  /** From an idle gateway a request that misses the cache comes to call upstream. */
  lemma CallsUpstream(cfg: Config, before: seq<Action>, r: string, digest: string) returns (actions: seq<Action>, id: nat)
    requires Idle(Run(Init(cfg), before), r) && !Hit(Run(Init(cfg), before), SearchCache.Key(r, digest))
    ensures Extends(before, actions)
    ensures var s, s' := Run(Init(cfg), before), Run(Init(cfg), actions);
            SameContent(s, s') && Has(s', id, Request(r, Some(digest), false, Calling, true, true, true, None, true))
  {
    var a1;
    a1, id := LeadsFlight(cfg, before, r, digest);
    var q := Request(r, Some(digest), false, Queued, false, false, false, None, true);
    var both := TakesBoth(Run(Init(cfg), a1), id, q);
    TwoMore(Init(cfg), a1, Act(id, TakeWorker), Act(id, TakeGlobal));
    var a2 := a1 + [Act(id, TakeWorker), Act(id, TakeGlobal)];
    var granted := IsGranted(both, id, q.(phase := Admissible, worker := true, global := true));
    RunSnoc(Init(cfg), a2, Act(id, Admit));
    actions := a2 + [Act(id, Admit)];
  }

  lemma IsAnswered(s: State, id: nat, q: Request) returns (s': State)
    requires Has(s, id, q) && q.phase.Calling? && !q.fanout
    ensures s' == Apply(s, Act(id, Answer))
    ensures SameContent(s, s') && Becomes(s, s', id, q.(phase := Answered(FetchNow(s, q.repo))))
  {
    OneMoves(s, id, q, Answer, q.(phase := Answered(FetchNow(s, q.repo))));
    s' := ActStep(s, id, Answer);
  }

  // ----- Stale answers -----

  lemma InitIsIdle(cfg: Config, r: string)
    ensures Idle(Init(cfg), r) && Run(Init(cfg), []) == Init(cfg)
    ensures forall k :: !Hit(Init(cfg), k)
  {
  }

  /** From the start: an answer fetched before a push and stored after its invalidation, though the worker does not lag. */
  lemma StaleAcrossAPush(cfg: Config, r: string, digest: string) returns (actions: seq<Action>)
    requires cfg.breaker.threshold <= U32_MAX
    ensures var s, k := Run(Init(cfg), actions), SearchCache.Key(r, digest);
            && StaleHit(s, k) && UpToDate(s, r)
  {
    InitIsIdle(cfg, r);
    var calling, id := CallsUpstream(cfg, [], r, digest);
    var q := Request(r, Some(digest), false, Calling, true, true, true, None, true);
    var answered := IsAnswered(Run(Init(cfg), calling), id, q);
    RunSnoc(Init(cfg), calling, Act(id, Answer));
    var a1 := calling + [Act(id, Answer)];
    ReachableInv(answered, cfg, a1);
    var pushed, stored := StoreAfterInvalidationIsStale(answered, id);
    RunAppend(Init(cfg), a1, WholePush(answered, r));
    RunAppend(Init(cfg), a1 + WholePush(answered, r), AnswerStored(id));
    actions := a1 + WholePush(answered, r) + AnswerStored(id);
  }

  lemma InEntries(s: State, k: Key)
    ensures Hit(s, k) ==> k in s.entries
  {
  }

  lemma PushedNotIndexed(cfg: Config, r: string) returns (s: State)
    ensures s == Run(Init(cfg), [Materialize(r), Invalidate(r)])
    ensures Idle(s, r) && s.entries == map[] && !Pending(s, r)
    ensures FetchNow(s, r) == Fetch(0, 1, 1) && CountOf(s.materialized, r) == 1
  {
    InitIsIdle(cfg, r);
    TwoMore(Init(cfg), [], Materialize(r), Invalidate(r));
    assert [] + [Materialize(r), Invalidate(r)] == [Materialize(r), Invalidate(r)];
    s := InvalidateStep(MaterializeStep(Init(cfg), r), r);
  }

  lemma StoredWhen(s: State, id: nat)
    requires id in s.requests && s.requests[id].phase.Storing? && s.requests[id].digest.Some?
    ensures var s', k := Apply(s, Act(id, Store)), KeyOf(s.requests[id]);
            k in s'.entries && s'.entries[k].response.putAt == CountOf(s.invalidated, k.repo)
  {
  }

  /** The moves that answer a call with a 200 and store it. */
  function AnswerAndStore(id: nat): seq<Action> {
    [Act(id, Answer)] + AnswerStored(id)
  }

  lemma AnsweredAndStored(s: State, id: nat, q: Request) returns (s': State)
    requires Has(s, id, q) && q.phase.Calling? && !q.fanout && q.digest.Some?
    ensures s' == Run(s, AnswerAndStore(id))
    ensures Hit(s', KeyOf(q)) && KeyOf(q) in s'.entries
    ensures s'.entries[KeyOf(q)].response == Stored(FetchNow(s, q.repo), CountOf(s.invalidated, q.repo))
    ensures s'.materialized == s.materialized && s'.served == s.served && s'.invalidated == s.invalidated
  {
    var answered := IsAnswered(s, id, q);
    var finished := AnswerFinishes(answered, id);
    s' := AnswerIsStored(finished, id);
    StoredWhen(finished, id);
    RunOne(s, Act(id, Answer));
    RunTwo(answered, Act(id, Finish(200)), Act(id, Store));
    RunAppend(s, [Act(id, Answer)], AnswerStored(id));
  }

  /** From the start: a call made after the invalidation, answered by a worker that has not indexed the push yet. */
  lemma StaleFromALaggingWorker(cfg: Config, r: string, digest: string) returns (actions: seq<Action>)
    ensures [Materialize(r), Invalidate(r)] <= actions
    ensures var s, k := Run(Init(cfg), actions), SearchCache.Key(r, digest);
            && StaleHit(s, k)
            && s.entries[k].response.fetch.materialized == s.entries[k].response.putAt
  {
    var pushed := PushedNotIndexed(cfg, r);
    InEntries(pushed, SearchCache.Key(r, digest));
    var calling, id := CallsUpstream(cfg, [Materialize(r), Invalidate(r)], r, digest);
    var q := Request(r, Some(digest), false, Calling, true, true, true, None, true);
    var stored := AnsweredAndStored(Run(Init(cfg), calling), id, q);
    RunAppend(Init(cfg), calling, AnswerAndStore(id));
    actions := calling + AnswerAndStore(id);
  }

  /** An answer that is current is cached, and carries the counters of its moment. */
  lemma CurrentAnswerIsCached(cfg: Config, r: string, digest: string) returns (actions: seq<Action>)
    ensures var s, k := Run(Init(cfg), actions), SearchCache.Key(r, digest);
            && Hit(s, k) && k in s.entries && s.entries[k].response == Stored(Fetch(0, 0, 0), 0)
            && CountOf(s.materialized, r) == 0 && CountOf(s.invalidated, r) == 0
    ensures Extends([], actions)
  {
    InitIsIdle(cfg, r);
    var calling, id := CallsUpstream(cfg, [], r, digest);
    var q := Request(r, Some(digest), false, Calling, true, true, true, None, true);
    var stored := AnsweredAndStored(Run(Init(cfg), calling), id, q);
    RunAppend(Init(cfg), calling, AnswerAndStore(id));
    actions := calling + AnswerAndStore(id);
  }

  /** Two pushes that materialize, and end before they invalidate; the worker indexes their content. */
  function AbandonedPushes(r: string): seq<Action> {
    [Materialize(r), Materialize(r)] + [Index(r, 2)]
  }

  lemma AbandonedPushesKeepEntries(s: State, r: string) returns (s': State)
    requires CountOf(s.materialized, r) == 0
    ensures s' == Run(s, AbandonedPushes(r)) && s'.entries == s.entries && s'.invalidated == s.invalidated
    ensures s'.cfg == s.cfg && s'.clock == s.clock
    ensures CountOf(s'.materialized, r) == 2 && UpToDate(s', r)
  {
    var pushed := MaterializeStep(MaterializeStep(s, r), r);
    RunTwo(s, Materialize(r), Materialize(r));
    RunAppend(s, [Materialize(r), Materialize(r)], [Index(r, 2)]);
    RunOne(pushed, Index(r, 2));
    s' := IndexStep(pushed, r, 2);
  }

  /**
    From the start: an answer that was current when it was stored, outdated by two
    pushes that never invalidate, of which at most one can still be running.
   */
  lemma StaleAfterAbandonedPushes(cfg: Config, r: string, digest: string) returns (actions: seq<Action>)
    ensures Extends([], actions)
    ensures var s, k := Run(Init(cfg), actions), SearchCache.Key(r, digest);
            && Hit(s, k) && k in s.entries && UpToDate(s, r)
            && CountOf(s.materialized, r) == CountOf(s.invalidated, r) + 2
            && var stored := s.entries[k].response;
               stored.fetch.version == stored.fetch.materialized == stored.putAt < CountOf(s.materialized, r)
  {
    var cached := CurrentAnswerIsCached(cfg, r, digest);
    var outdated := AbandonedPushesKeepEntries(Run(Init(cfg), cached), r);
    RunAppend(Init(cfg), cached, AbandonedPushes(r));
    actions := cached + AbandonedPushes(r);
  }

  // ----- Seventeen global slots -----

  function Waits(r: string): Request {
    Request(r, None, true, Queued, false, false, false, None, false)
  }

  function HasBoth(r: string): Request {
    Request(r, None, true, Admissible, true, true, false, None, false)
  }

  function Below(n: nat): set<nat> {
    if n == 0 then {} else Below(n - 1) + {n - 1}
  }

  lemma {:induction false} BelowSize(n: nat)
    ensures |Below(n)| == n && forall i: nat :: i in Below(n) <==> i < n
  {
    if n > 0 { BelowSize(n - 1); }
  }

  function People(r: string, n: nat, k: nat): Requests {
    map id | id in Below(n) :: if id < k then HasBoth(r) else Waits(r)
  }

  /** n fan-out requests of a repository, the first k of them with both permits. */
  function Crowd(cfg: Config, r: string, n: nat, k: nat): State
    requires k <= n && k <= WORKER_CONCURRENCY
  {
    Init(cfg).(nextId := n, requests := People(r, n, k),
               workerFree := if k == 0 then map[] else map[r := WORKER_CONCURRENCY - k],
               globalFree := UPSTREAM_CONCURRENCY - k)
  }

  lemma OneMorePerson(r: string, n: nat)
    ensures People(r, n, 0)[n := Waits(r)] == People(r, n + 1, 0)
  {
    BelowSize(n);
  }

  lemma OneMoreServed(r: string, n: nat, k: nat)
    requires k < n
    ensures k in People(r, n, k) && People(r, n, k)[k] == Waits(r) && People(r, n, k)[k := HasBoth(r)] == People(r, n, k + 1)
  {
    BelowSize(n);
  }

  lemma OneMoreWaits(cfg: Config, r: string, n: nat)
    ensures Apply(Crowd(cfg, r, n, 0), Arrive(r, None, true)) == Crowd(cfg, r, n + 1, 0)
  {
    OneMorePerson(r, n);
  }

  lemma PermitsOf(s: State, id: nat, q: Request) returns (s': State)
    requires id in s.requests && s.requests[id] == q && q.phase.Queued? && q.digest.None?
    requires FreeOf(s.workerFree, q.repo) > 0 && s.globalFree > 0
    ensures s' == Apply(Apply(s, Act(id, TakeWorker)), Act(id, TakeGlobal))
    ensures s' == s.(requests := s.requests[id := q.(phase := Admissible, worker := true, global := true)],
                     workerFree := s.workerFree[q.repo := FreeOf(s.workerFree, q.repo) - 1], globalFree := s.globalFree - 1)
  {
    var holding := s.(requests := s.requests[id := q.(phase := HoldsWorker, worker := true)],
                      workerFree := s.workerFree[q.repo := FreeOf(s.workerFree, q.repo) - 1]);
    assert ActStep(s, id, TakeWorker) == holding;
    s' := ActStep(holding, id, TakeGlobal);
    assert holding.requests[id := q.(phase := Admissible, worker := true, global := true)] ==
           s.requests[id := q.(phase := Admissible, worker := true, global := true)];
  }

  lemma OneMoreHasBoth(cfg: Config, r: string, n: nat, k: nat)
    requires k < n && k < WORKER_CONCURRENCY
    ensures Apply(Apply(Crowd(cfg, r, n, k), Act(k, TakeWorker)), Act(k, TakeGlobal)) == Crowd(cfg, r, n, k + 1)
  {
    var s := Crowd(cfg, r, n, k);
    OneMoreServed(r, n, k);
    var s' := PermitsOf(s, k, Waits(r));
    assert s.workerFree[r := FreeOf(s.workerFree, r) - 1] == Crowd(cfg, r, n, k + 1).workerFree;
  }

  lemma CrowdReached(cfg: Config, r: string) returns (actions: seq<Action>)
    ensures Run(Init(cfg), actions) == Crowd(cfg, r, WORKER_CONCURRENCY + 1, WORKER_CONCURRENCY)
  {
    var n := WORKER_CONCURRENCY + 1;
    actions := [];
    assert People(r, 0, 0) == map[];
    for i := 0 to n
      invariant Run(Init(cfg), actions) == Crowd(cfg, r, i, 0)
    {
      OneMoreWaits(cfg, r, i);
      RunSnoc(Init(cfg), actions, Arrive(r, None, true));
      actions := actions + [Arrive(r, None, true)];
    }
    for k := 0 to WORKER_CONCURRENCY
      invariant Run(Init(cfg), actions) == Crowd(cfg, r, n, k)
    {
      OneMoreHasBoth(cfg, r, n, k);
      TwoMore(Init(cfg), actions, Act(k, TakeWorker), Act(k, TakeGlobal));
      actions := actions + [Act(k, TakeWorker), Act(k, TakeGlobal)];
    }
  }

  function Leaver(r: string): Request {
    HasBoth(r).(phase := Leaving(false), owes := true, verdict := Some(true))
  }

  /** A request with both permits calls, concludes and is about to drop them. */
  lemma CallsAndConcludes(s: State, r: string, id: nat) returns (s': State)
    requires id in s.requests && s.requests[id] == HasBoth(r) && LedgerOf(s, r).circuit.openUntil.None?
    ensures s' == Apply(Apply(s, Act(id, Admit)), Act(id, Conclude(true)))
    ensures s'.requests == s.requests[id := Leaver(r)] && s'.globalFree == s.globalFree
  {
    var q := HasBoth(r).(phase := Calling, owes := true);
    OneMoves(s, id, HasBoth(r), Admit, q);
    var calling := ActStep(s, id, Admit);
    OneMoves(calling, id, q, Conclude(true), Leaver(r));
    s' := ActStep(calling, id, Conclude(true));
    assert s.requests[id := q][id := Leaver(r)] == s.requests[id := Leaver(r)];
  }

  lemma FirstHolds(r: string, n: nat)
    requires n > 0
    ensures 0 in People(r, n + 1, n) && People(r, n + 1, n)[0] == HasBoth(r)
  {
    BelowSize(n + 1);
  }

  /** n holders, the first of them leaving, and one in the queue. */
  lemma AllButOneHold(r: string, n: nat, requests: Requests)
    requires n > 0 && requests == People(r, n + 1, n)[0 := Leaver(r)]
    ensures |GlobalHoldersOf(requests, r)| == n && Closing(requests, r) == {}
    ensures 0 in requests && requests[0] == Leaver(r) && n in requests && requests[n] == Waits(r)
  {
    BelowSize(n);
    BelowSize(n + 1);
    assert GlobalHoldersOf(requests, r) == Below(n);
  }

  /** From the start, 17 requests of one repository come to hold 17 global slots, one of them about to leave. */
  lemma SeventeenIsReached(cfg: Config, r: string) returns (actions: seq<Action>)
    requires cfg.breaker.threshold <= U32_MAX
    ensures var s := Run(Init(cfg), actions);
            |GlobalHoldersOf(s.requests, r)| == 17 && |Closing(s.requests, r)| == 1
  {
    var crowded := CrowdReached(cfg, r);
    var n := WORKER_CONCURRENCY;
    FirstHolds(r, n);
    var leaving := CallsAndConcludes(Run(Init(cfg), crowded), r, 0);
    TwoMore(Init(cfg), crowded, Act(0, Admit), Act(0, Conclude(true)));
    var a1 := crowded + [Act(0, Admit), Act(0, Conclude(true))];
    AllButOneHold(r, n, leaving.requests);
    actions := SeventeenFrom(cfg, r, a1, leaving);
  }

  lemma SeventeenFrom(cfg: Config, r: string, before: seq<Action>, s: State) returns (actions: seq<Action>)
    requires cfg.breaker.threshold <= U32_MAX && s == Run(Init(cfg), before)
    requires |GlobalHoldersOf(s.requests, r)| == WORKER_CONCURRENCY && Closing(s.requests, r) == {} && s.globalFree > 0
    requires 0 in s.requests && WORKER_CONCURRENCY in s.requests && s.requests[WORKER_CONCURRENCY] == Waits(r)
    requires s.requests[0] == Leaver(r)
    ensures var s' := Run(Init(cfg), actions);
            |GlobalHoldersOf(s'.requests, r)| == WORKER_CONCURRENCY + 1 && |Closing(s'.requests, r)| == 1
  {
    ReachableInv(s, cfg, before);
    SeventeenGlobalSlots(s, r, 0, WORKER_CONCURRENCY);
    RunSnoc(Init(cfg), before, Act(0, Unwind));
    var a := before + [Act(0, Unwind)];
    TwoMore(Init(cfg), a, Act(WORKER_CONCURRENCY, TakeWorker), Act(WORKER_CONCURRENCY, TakeGlobal));
    actions := a + [Act(WORKER_CONCURRENCY, TakeWorker), Act(WORKER_CONCURRENCY, TakeGlobal)];
    OneCloses(s, r, Run(Init(cfg), actions));
  }

  lemma OneCloses(s: State, r: string, s': State)
    requires 0 in s.requests && WORKER_CONCURRENCY in s.requests && s.requests[0].repo == r
    requires s.requests[0].phase.Leaving? && s.requests[0].worker && s.requests[0].global
    requires s.requests[WORKER_CONCURRENCY].phase.Queued? && s.requests[WORKER_CONCURRENCY].repo == r && s.globalFree > 0
    requires Closing(s.requests, r) == {}
    requires s' == Apply(Apply(Apply(s, Act(0, Unwind)), Act(WORKER_CONCURRENCY, TakeWorker)), Act(WORKER_CONCURRENCY, TakeGlobal))
    ensures |Closing(s'.requests, r)| == 1
  {
    var s1 := WorkerPermitDropped(s, 0);
    var s2 := WorkerPermitTaken(s1, WORKER_CONCURRENCY);
    var s3 := GlobalPermitTaken(s2, WORKER_CONCURRENCY);
    assert Closing(s3.requests, r) == {0};
  }
}
