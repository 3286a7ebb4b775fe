/**
  The gateway's admission protocol (apps/gateway/src/main.rs, fanout.rs) as a
  transition system.  Every request carries a program counter through the
  handler: cache, singleflight, worker permit, global permit, circuit, upstream
  call, report, store, and the dropping of its guards.  One action is one step
  under one lock, so the theorems range over every interleaving of requests,
  pushes, worker indexing and clock ticks.
 */
module Gateway {
  import opened Common
  import opened Sets
  import opened Wrappers
  import Breaker
  import SearchCache

  const WORKER_CONCURRENCY: nat := 16
  const UPSTREAM_CONCURRENCY: nat := 64

  type Key = SearchCache.Key

  /** What an answer was computed from: content version, and the push counters at that moment. */
  datatype Fetch = Fetch(version: nat, materialized: nat, invalidated: nat)

  /** A cached answer with the number of invalidations before its `put`. */
  datatype Stored = Stored(fetch: Fetch, putAt: nat)

  datatype Phase =
    | Arrived
    | Missed
    | Following(leader: nat)
    | Woken
    | Queued
    | HoldsWorker
    | Admissible
    | Calling
    | Answered(fetch: Fetch)
    | Storing(fetch: Fetch)
    | Leaving(streams: bool)
    | Streaming

  /**
    A handler that leaves drops its guards; one that passes an event stream on
    leaves the stream behind, which is read without any guard.
    `owes`: granted by the circuit and not yet reported.  `leads`: holds the singleflight guard.
   */
  datatype Request = Request(
    repo: string,
    digest: Option<string>,
    fanout: bool,
    phase: Phase,
    worker: bool,
    global: bool,
    owes: bool,
    verdict: Option<bool>,
    leads: bool)

  datatype Config = Config(breaker: Breaker.Config, ttl: nat, maxEntries: nat)

  /** A flight's channel is named by the request that made it. */
  datatype State = State(
    cfg: Config,
    clock: nat,
    nextId: nat,
    requests: map<nat, Request>,
    workerFree: map<string, nat>,
    globalFree: nat,
    inflight: map<Key, nat>,
    entries: SearchCache.Entries<Stored>,
    ledgers: map<string, Breaker.Ledger>,
    materialized: map<string, nat>,
    served: map<string, nat>,
    invalidated: map<string, nat>)

  function Init(cfg: Config): State {
    State(cfg, 0, 0, map[], map[], UPSTREAM_CONCURRENCY, map[], map[], map[], map[], map[], map[])
  }

  datatype Move =
    | LookUp | Claim | Wake | Recheck
    | TakeWorker | TakeGlobal | Shed | Admit
    | Answer | Fail | Stream | Finish(status: nat) | Store
    | Conclude(ok: bool) | Abort | Unwind | Close

  datatype Action =
    | Tick(elapsed: nat)
    | Arrive(repo: string, digest: Option<string>, fanout: bool)
    | Act(id: nat, move: Move)
    | Materialize(repo: string)
    | Index(repo: string, version: nat)
    | Invalidate(repo: string)

  // ----- Reading the state -----

  /** Worker semaphores are created on first use. */
  function FreeOf(free: map<string, nat>, r: string): nat {
    if r in free then free[r] else WORKER_CONCURRENCY
  }

  function CountOf(counts: map<string, nat>, r: string): nat {
    if r in counts then counts[r] else 0
  }

  function LedgerIn(ledgers: map<string, Breaker.Ledger>, clock: nat, r: string): Breaker.Ledger {
    if r in ledgers then ledgers[r] else Breaker.EMPTY.(clock := clock)
  }

  function LedgerOf(s: State, r: string): Breaker.Ledger {
    LedgerIn(s.ledgers, s.clock, r)
  }

  function KeyOf(q: Request): Key
    requires q.digest.Some?
  {
    SearchCache.Key(q.repo, q.digest.value)
  }

  predicate Hit(s: State, key: Key) {
    SearchCache.Lookup(s.entries, s.cfg.ttl, s.clock, key).Some?
  }

  /** Content was materialized that no invalidation has covered: its push is running, or ended early. */
  predicate Pending(s: State, r: string) {
    CountOf(s.materialized, r) > CountOf(s.invalidated, r)
  }

  /** A worker that is not lagging serves the last materialized content. */
  function FetchNow(s: State, r: string): Fetch {
    Fetch(CountOf(s.served, r), CountOf(s.materialized, r), CountOf(s.invalidated, r))
  }

  // ----- Steps -----

  predicate CanMove(s: State, q: Request, m: Move) {
    match m
    case LookUp => q.phase.Arrived?
    case Claim => q.phase.Missed? && q.digest.Some?
    case Wake => q.phase.Following? && q.digest.Some? &&
      !(KeyOf(q) in s.inflight && s.inflight[KeyOf(q)] == q.phase.leader)
    case Recheck => q.phase.Woken? && q.digest.Some?
    case TakeWorker => q.phase.Queued? && FreeOf(s.workerFree, q.repo) > 0
    case TakeGlobal => q.phase.HoldsWorker? && s.globalFree > 0
    case Shed => q.phase.Queued? || q.phase.HoldsWorker?
    case Admit => q.phase.Admissible?
    case Answer => q.phase.Calling? && !q.fanout
    case Fail => (q.phase.Calling? || q.phase.Answered?) && !q.fanout
    case Stream => q.phase.Answered?
    case Finish(_) => q.phase.Answered?
    case Store => q.phase.Storing? && q.digest.Some?
    case Conclude(_) => q.phase.Calling? && q.fanout
    case Abort => !q.phase.Leaving? && !q.phase.Streaming?
    case Unwind => q.phase.Leaving?
    case Close => q.phase.Streaming?
  }

  /** Guards drop the worker permit, then the global permit, then the fan-out report, then the flight. */
  datatype Guard = WorkerPermit | GlobalPermit | OwedReport | FlightSlot | NoGuard

  function NextGuard(q: Request): Guard {
    if q.worker then WorkerPermit
    else if q.global then GlobalPermit
    else if q.owes && q.verdict.Some? then OwedReport
    else if q.leads && q.digest.Some? then FlightSlot
    else NoGuard
  }

  /** `StatusCode::is_server_error` */
  predicate ServerError(status: nat) {
    500 <= status < 600
  }

  /** The request after the move; None once its last guard and its stream are gone. */
  function NextRequest(s: State, id: nat, q: Request, m: Move): Option<Request>
    requires CanMove(s, q, m)
  {
    match m
    case LookUp =>
      Some(q.(phase := if q.digest.None? then Queued else if Hit(s, KeyOf(q)) then Leaving(false) else Missed))
    case Claim =>
      if KeyOf(q) in s.inflight then Some(q.(phase := Following(s.inflight[KeyOf(q)])))
      else Some(q.(phase := Queued, leads := true))
    case Wake => Some(q.(phase := Woken))
    case Recheck => Some(q.(phase := if Hit(s, KeyOf(q)) then Leaving(false) else Queued))
    case TakeWorker => Some(q.(phase := HoldsWorker, worker := true))
    case TakeGlobal => Some(q.(phase := Admissible, global := true))
    case Shed => Some(q.(phase := Leaving(false)))
    case Admit =>
      var l := LedgerOf(s, q.repo);
      if Breaker.Grants(l.circuit, l.clock) then Some(q.(phase := Calling, owes := true))
      else Some(q.(phase := Leaving(false)))
    case Answer => Some(q.(phase := Answered(FetchNow(s, q.repo))))
    case Fail => Some(q.(phase := Leaving(false), owes := false))
    case Stream => Some(q.(phase := Leaving(true), owes := false))
    case Finish(status) =>
      Some(q.(phase := if status == 200 && q.digest.Some? then Storing(q.phase.fetch) else Leaving(false), owes := false))
    case Store => Some(q.(phase := Leaving(false)))
    case Conclude(ok) => Some(q.(phase := Leaving(false), verdict := Some(ok)))
    case Abort => Some(q.(phase := Leaving(false), owes := false))
    case Close => None
    case Unwind =>
      match NextGuard(q)
      case WorkerPermit => Some(q.(worker := false))
      case GlobalPermit => Some(q.(global := false))
      case OwedReport => Some(q.(owes := false))
      case FlightSlot => Some(q.(leads := false))
      case NoGuard => if q.phase.streams then Some(q.(phase := Streaming)) else None
  }

  type Requests = map<nat, Request>

  function Replaced(requests: Requests, id: nat, q: Option<Request>): Requests {
    match q
    case Some(q') => requests[id := q']
    case None => requests - {id}
  }

  function NextWorkerFree(s: State, q: Request, m: Move): map<string, nat>
    requires CanMove(s, q, m)
  {
    if m.TakeWorker? then s.workerFree[q.repo := FreeOf(s.workerFree, q.repo) - 1]
    else if m.Unwind? && NextGuard(q).WorkerPermit? then s.workerFree[q.repo := FreeOf(s.workerFree, q.repo) + 1]
    else s.workerFree
  }

  function NextGlobalFree(s: State, q: Request, m: Move): nat
    requires CanMove(s, q, m)
  {
    if m.TakeGlobal? then s.globalFree - 1
    else if m.Unwind? && NextGuard(q).GlobalPermit? then s.globalFree + 1
    else s.globalFree
  }

  function NextInflight(s: State, id: nat, q: Request, m: Move): map<Key, nat>
    requires CanMove(s, q, m)
  {
    if m.Claim? && KeyOf(q) !in s.inflight then s.inflight[KeyOf(q) := id]
    else if m.Unwind? && NextGuard(q).FlightSlot? then s.inflight - {KeyOf(q)}
    else s.inflight
  }

  function NextEntries(s: State, q: Request, m: Move): SearchCache.Entries<Stored>
    requires CanMove(s, q, m)
  {
    if m.Store? then
      SearchCache.Insert(s.entries, s.cfg.ttl, s.cfg.maxEntries, s.clock, KeyOf(q),
                         Stored(q.phase.fetch, CountOf(s.invalidated, q.repo)))
    else s.entries
  }

  /** What a move books with the circuit of the request's repository. */
  function Emits(q: Request, id: nat, m: Move): Option<Breaker.Event> {
    match m
    case Admit => Some(Breaker.Admit(id))
    case Fail => Some(Breaker.Report(id, false))
    case Stream => Some(Breaker.Report(id, true))
    case Finish(status) => Some(Breaker.Report(id, !ServerError(status)))
    case Abort => if q.owes then Some(Breaker.Lose(id)) else None
    case Unwind => if NextGuard(q).OwedReport? then Some(Breaker.Report(id, q.verdict.value)) else None
    case _ => None
  }

  function NextLedgers(s: State, id: nat, q: Request, m: Move): map<string, Breaker.Ledger> {
    match Emits(q, id, m)
    case None => s.ledgers
    case Some(e) => s.ledgers[q.repo := Breaker.Step(LedgerOf(s, q.repo), s.cfg.breaker, e)]
  }

  predicate Enabled(s: State, id: nat, m: Move) {
    id in s.requests && CanMove(s, s.requests[id], m)
  }

  function ActStep(s: State, id: nat, m: Move): State {
    if !Enabled(s, id, m) then s else
    var q := s.requests[id];
    s.(requests := Replaced(s.requests, id, NextRequest(s, id, q, m)),
       workerFree := NextWorkerFree(s, q, m),
       globalFree := NextGlobalFree(s, q, m),
       inflight := NextInflight(s, id, q, m),
       entries := NextEntries(s, q, m),
       ledgers := NextLedgers(s, id, q, m))
  }

  function TickStep(s: State, d: nat): State {
    s.(clock := s.clock + d,
       ledgers := map r | r in s.ledgers :: Breaker.Step(s.ledgers[r], s.cfg.breaker, Breaker.Tick(d)))
  }

  function ArriveStep(s: State, repo: string, digest: Option<string>, fanout: bool): State {
    if fanout && digest.Some? then s else
    var q := Request(repo, digest, fanout, if fanout then Queued else Arrived, false, false, false, None, false);
    s.(requests := s.requests[s.nextId := q], nextId := s.nextId + 1)
  }

  /**
    Content changes.  Pushes of a repository are serialized by a lock, but one that
    fails or is dropped after this releases it without invalidating, so the next
    content may come before any invalidation.
   */
  function MaterializeStep(s: State, r: string): State {
    s.(materialized := s.materialized[r := CountOf(s.materialized, r) + 1])
  }

  /** The worker comes to serve some content materialized so far; a slow index may serve an older one. */
  function IndexStep(s: State, r: string, version: nat): State {
    if version > CountOf(s.materialized, r) then s else s.(served := s.served[r := version])
  }

  /** The end of a push: it covers all content so far, that of abandoned pushes included. */
  function InvalidateStep(s: State, r: string): State {
    if !Pending(s, r) then s else
    s.(invalidated := s.invalidated[r := CountOf(s.materialized, r)],
       entries := SearchCache.Without(s.entries, r))
  }

  function Apply(s: State, a: Action): State {
    match a
    case Tick(d) => TickStep(s, d)
    case Arrive(repo, digest, fanout) => ArriveStep(s, repo, digest, fanout)
    case Act(id, move) => ActStep(s, id, move)
    case Materialize(r) => MaterializeStep(s, r)
    case Index(r, version) => IndexStep(s, r, version)
    case Invalidate(r) => InvalidateStep(s, r)
  }

  function Run(s: State, actions: seq<Action>): State
    decreases |actions|
  {
    if actions == [] then s else Run(Apply(s, actions[0]), actions[1..])
  }

  // ----- Invariants -----

  ghost predicate RequestOk(q: Request) {
    && (q.fanout ==> q.digest.None?)
    && (q.leads ==> q.digest.Some?)
    && (q.phase.Arrived? || q.phase.Missed? || q.phase.Following? || q.phase.Woken? || q.phase.Queued? ==>
          !q.worker && !q.global && !q.owes)
    && (q.phase.Arrived? || q.phase.Missed? || q.phase.Following? || q.phase.Woken? ==> !q.leads)
    && (q.phase.Missed? || q.phase.Following? || q.phase.Woken? || q.phase.Storing? ==> q.digest.Some?)
    && (q.phase.Answered? ==> !q.fanout)
    && (q.phase.HoldsWorker? ==> q.worker && !q.global && !q.owes)
    && (q.phase.Admissible? || q.phase.Storing? ==> q.worker && q.global && !q.owes)
    && (q.phase.Calling? || q.phase.Answered? ==> q.worker && q.global && q.owes)
    && (q.phase.Leaving? && q.owes ==> q.fanout && q.verdict.Some?)
    && (q.phase.Streaming? ==> !q.worker && !q.global && !q.owes && !q.leads)
  }

  ghost predicate Shape(s: State) {
    forall id :: id in s.requests ==> id < s.nextId && RequestOk(s.requests[id])
  }

  ghost predicate Leads(requests: Requests, id: nat, k: Key) {
    id in requests && requests[id].leads && requests[id].digest.Some? && KeyOf(requests[id]) == k
  }

  ghost predicate FlightsOn(requests: Requests, inflight: map<Key, nat>) {
    && (forall k :: k in inflight ==> Leads(requests, inflight[k], k))
    && (forall id, k :: Leads(requests, id, k) ==> k in inflight && inflight[k] == id)
  }

  ghost predicate Flights(s: State) {
    FlightsOn(s.requests, s.inflight)
  }

  ghost function WorkerHolders(requests: Requests, r: string): set<nat> {
    set id | id in requests && requests[id].worker && requests[id].repo == r
  }

  ghost function GlobalHolders(requests: Requests): set<nat> {
    set id | id in requests && requests[id].global
  }

  ghost function GlobalHoldersOf(requests: Requests, r: string): set<nat> {
    set id | id in requests && requests[id].global && requests[id].repo == r
  }

  ghost function Owing(requests: Requests, r: string): set<nat> {
    set id | id in requests && requests[id].owes && requests[id].repo == r
  }

  /** Requests between the two permit drops. */
  ghost function Closing(requests: Requests, r: string): set<nat> {
    set id | id in requests && requests[id].repo == r && requests[id].global && !requests[id].worker
  }

  ghost predicate WorkerBalanced(free: map<string, nat>, requests: Requests) {
    forall r :: FreeOf(free, r) + |WorkerHolders(requests, r)| == WORKER_CONCURRENCY
  }

  ghost predicate GlobalBalanced(free: nat, requests: Requests) {
    free + |GlobalHolders(requests)| == UPSTREAM_CONCURRENCY
  }

  ghost predicate Permits(s: State) {
    WorkerBalanced(s.workerFree, s.requests) && GlobalBalanced(s.globalFree, s.requests)
  }

  ghost predicate BookOk(cfg: Breaker.Config, clock: nat, l: Breaker.Ledger, owing: set<nat>) {
    l.outstanding == owing && l.clock == clock && Breaker.Inv(l, cfg)
  }

  ghost predicate BooksOn(cfg: Breaker.Config, clock: nat, ledgers: map<string, Breaker.Ledger>, requests: Requests) {
    forall r :: BookOk(cfg, clock, LedgerIn(ledgers, clock, r), Owing(requests, r))
  }

  ghost predicate Books(s: State) {
    s.cfg.breaker.threshold <= U32_MAX && BooksOn(s.cfg.breaker, s.clock, s.ledgers, s.requests)
  }

  ghost predicate FetchOk(f: Fetch, materialized: nat, invalidated: nat) {
    && f.version <= f.materialized <= materialized
    && f.invalidated <= f.materialized
    && f.invalidated <= invalidated
  }

  ghost predicate PushesOk(s: State) {
    forall r :: CountOf(s.invalidated, r) <= CountOf(s.materialized, r) && CountOf(s.served, r) <= CountOf(s.materialized, r)
  }

  ghost predicate RequestFetchOk(s: State, q: Request) {
    && (q.phase.Answered? ==> FetchOk(q.phase.fetch, CountOf(s.materialized, q.repo), CountOf(s.invalidated, q.repo)))
    && (q.phase.Storing? ==> FetchOk(q.phase.fetch, CountOf(s.materialized, q.repo), CountOf(s.invalidated, q.repo)))
  }

  ghost predicate EntryOk(s: State, k: Key, stored: Stored) {
    && FetchOk(stored.fetch, CountOf(s.materialized, k.repo), CountOf(s.invalidated, k.repo))
    && stored.fetch.invalidated <= stored.putAt == CountOf(s.invalidated, k.repo)
  }

  ghost predicate Versions(s: State) {
    && PushesOk(s)
    && (forall id :: id in s.requests ==> RequestFetchOk(s, s.requests[id]))
    && (forall k :: k in s.entries ==> EntryOk(s, k, s.entries[k].response))
  }

  ghost predicate Inv(s: State) {
    Shape(s) && Flights(s) && Permits(s) && Books(s) && Versions(s)
  }

  // ----- Each step keeps each invariant -----

  lemma RequestKept(s: State, id: nat, q: Request, m: Move)
    requires RequestOk(q) && CanMove(s, q, m)
    ensures NextRequest(s, id, q, m).Some? ==>
              var q' := NextRequest(s, id, q, m).value;
              RequestOk(q') && q'.repo == q.repo && q'.digest == q.digest
  {
  }

  lemma ShapeKept(s: State, a: Action)
    requires Shape(s)
    ensures Shape(Apply(s, a))
  {
    if a.Act? && Enabled(s, a.id, a.move) {
      RequestKept(s, a.id, s.requests[a.id], a.move);
    }
  }

  lemma LeadsChange(s: State, id: nat, q: Request, m: Move)
    requires RequestOk(q) && CanMove(s, q, m)
    ensures NextRequest(s, id, q, m).None? ==> !q.leads
    ensures NextRequest(s, id, q, m).Some? ==>
              NextRequest(s, id, q, m).value.leads ==
                if m.Claim? && KeyOf(q) !in s.inflight then true
                else if m.Unwind? && NextGuard(q).FlightSlot? then false
                else q.leads
    ensures m.Claim? ==> !q.leads
  {
  }

  lemma FlightsMove(before: Requests, inflight: map<Key, nat>, id: nat, q': Option<Request>, inflight': map<Key, nat>)
    requires id in before && FlightsOn(before, inflight)
    requires q'.Some? ==> q'.value.repo == before[id].repo && q'.value.digest == before[id].digest
    requires var led := before[id].leads && before[id].digest.Some?;
             var leads := q'.Some? && q'.value.leads && q'.value.digest.Some?;
             if leads && !led then KeyOf(q'.value) !in inflight && inflight' == inflight[KeyOf(q'.value) := id]
             else if led && !leads then inflight' == inflight - {KeyOf(before[id])}
             else inflight' == inflight
    ensures FlightsOn(Replaced(before, id, q'), inflight')
  {
    var after := Replaced(before, id, q');
    var q := before[id];
    assert forall other, k :: other != id ==> (Leads(after, other, k) <==> Leads(before, other, k));
    assert forall k :: Leads(before, id, k) <==> q.leads && q.digest.Some? && k == KeyOf(q);
    assert forall k :: Leads(after, id, k) <==>
      q'.Some? && q'.value.leads && q'.value.digest.Some? && k == KeyOf(q'.value);
    if q.leads && q.digest.Some? {
      assert Leads(before, id, KeyOf(q));
    }
  }

  lemma FlightsArrive(before: Requests, inflight: map<Key, nat>, id: nat, q: Request)
    requires id !in before && FlightsOn(before, inflight) && !q.leads
    ensures FlightsOn(before[id := q], inflight)
  {
    var after := before[id := q];
    assert forall other, k :: Leads(after, other, k) <==> Leads(before, other, k);
  }

  lemma FlightsKeptByMove(s: State, id: nat, m: Move)
    requires Shape(s) && Flights(s) && Enabled(s, id, m)
    ensures Flights(ActStep(s, id, m))
  {
    var q := s.requests[id];
    RequestKept(s, id, q, m);
    LeadsChange(s, id, q, m);
    FlightsMove(s.requests, s.inflight, id, NextRequest(s, id, q, m), NextInflight(s, id, q, m));
  }

  lemma FlightsArriveStep(s: State, repo: string, digest: Option<string>, fanout: bool)
    requires Shape(s) && Flights(s)
    ensures Flights(ArriveStep(s, repo, digest, fanout))
  {
    if !(fanout && digest.Some?) {
      FlightsArrive(s.requests, s.inflight, s.nextId, ArriveStep(s, repo, digest, fanout).requests[s.nextId]);
    }
  }

  lemma FlightsKept(s: State, a: Action)
    requires Shape(s) && Flights(s)
    ensures Flights(Apply(s, a))
  {
    match a
    case Arrive(repo, digest, fanout) => FlightsArriveStep(s, repo, digest, fanout);
    case Act(id, m) => if Enabled(s, id, m) { FlightsKeptByMove(s, id, m); }
    case _ =>
  }

  lemma WorkerChange(s: State, id: nat, q: Request, m: Move)
    requires RequestOk(q) && CanMove(s, q, m)
    ensures var held := NextRequest(s, id, q, m).Some? && NextRequest(s, id, q, m).value.worker;
            var free := NextWorkerFree(s, q, m);
            if held && !q.worker then
              FreeOf(s.workerFree, q.repo) > 0 && free == s.workerFree[q.repo := FreeOf(s.workerFree, q.repo) - 1]
            else if q.worker && !held then free == s.workerFree[q.repo := FreeOf(s.workerFree, q.repo) + 1]
            else free == s.workerFree
  {
  }

  lemma GlobalChange(s: State, id: nat, q: Request, m: Move)
    requires RequestOk(q) && CanMove(s, q, m)
    ensures var held := NextRequest(s, id, q, m).Some? && NextRequest(s, id, q, m).value.global;
            var free := NextGlobalFree(s, q, m);
            if held && !q.global then s.globalFree > 0 && free == s.globalFree - 1
            else if q.global && !held then free == s.globalFree + 1
            else free == s.globalFree
  {
  }

  lemma WorkerHoldersMove(before: Requests, id: nat, q': Option<Request>, r: string)
    requires id in before && (q'.Some? ==> q'.value.repo == before[id].repo)
    ensures var q, held := before[id], q'.Some? && q'.value.worker;
            var was, now := WorkerHolders(before, r), WorkerHolders(Replaced(before, id, q'), r);
            |now| == |was| + (if r == q.repo && held && !q.worker then 1 else if r == q.repo && q.worker && !held then -1 else 0)
  {
    var q, held := before[id], q'.Some? && q'.value.worker;
    var was := WorkerHolders(before, r);
    assert WorkerHolders(Replaced(before, id, q'), r) == if r == q.repo && held then was + {id} else was - (if r == q.repo then {id} else {});
    if r == q.repo && q.worker {
      assert id in was;
    }
  }

  lemma WorkerBalanceMoves(free: map<string, nat>, before: Requests, id: nat, q': Option<Request>, free': map<string, nat>)
    requires id in before && WorkerBalanced(free, before)
    requires q'.Some? ==> q'.value.repo == before[id].repo
    requires var q := before[id];
             var held := q'.Some? && q'.value.worker;
             if held && !q.worker then FreeOf(free, q.repo) > 0 && free' == free[q.repo := FreeOf(free, q.repo) - 1]
             else if q.worker && !held then free' == free[q.repo := FreeOf(free, q.repo) + 1]
             else free' == free
    ensures WorkerBalanced(free', Replaced(before, id, q'))
  {
    forall r ensures FreeOf(free', r) + |WorkerHolders(Replaced(before, id, q'), r)| == WORKER_CONCURRENCY {
      assert FreeOf(free, r) + |WorkerHolders(before, r)| == WORKER_CONCURRENCY;
      WorkerHoldersMove(before, id, q', r);
    }
  }

  lemma GlobalBalanceMoves(free: nat, before: Requests, id: nat, q': Option<Request>, free': nat)
    requires id in before && GlobalBalanced(free, before)
    requires var held := q'.Some? && q'.value.global;
             if held && !before[id].global then free > 0 && free' == free - 1
             else if before[id].global && !held then free' == free + 1
             else free' == free
    ensures GlobalBalanced(free', Replaced(before, id, q'))
  {
    var held := q'.Some? && q'.value.global;
    var was := GlobalHolders(before);
    assert GlobalHolders(Replaced(before, id, q')) == if held then was + {id} else was - {id};
  }

  lemma PermitsArrive(workerFree: map<string, nat>, globalFree: nat, before: Requests, id: nat, q: Request)
    requires WorkerBalanced(workerFree, before) && GlobalBalanced(globalFree, before)
    requires id !in before && !q.worker && !q.global
    ensures WorkerBalanced(workerFree, before[id := q]) && GlobalBalanced(globalFree, before[id := q])
  {
    forall r ensures WorkerHolders(before[id := q], r) == WorkerHolders(before, r) {}
    assert GlobalHolders(before[id := q]) == GlobalHolders(before);
  }

  lemma PermitsKeptByMove(s: State, id: nat, m: Move)
    requires Shape(s) && Permits(s) && Enabled(s, id, m)
    ensures Permits(ActStep(s, id, m))
  {
    var q := s.requests[id];
    RequestKept(s, id, q, m);
    WorkerChange(s, id, q, m);
    GlobalChange(s, id, q, m);
    WorkerBalanceMoves(s.workerFree, s.requests, id, NextRequest(s, id, q, m), NextWorkerFree(s, q, m));
    GlobalBalanceMoves(s.globalFree, s.requests, id, NextRequest(s, id, q, m), NextGlobalFree(s, q, m));
  }

  lemma PermitsArriveStep(s: State, repo: string, digest: Option<string>, fanout: bool)
    requires Shape(s) && Permits(s)
    ensures Permits(ArriveStep(s, repo, digest, fanout))
  {
    var s' := ArriveStep(s, repo, digest, fanout);
    if s' != s {
      PermitsArrive(s.workerFree, s.globalFree, s.requests, s.nextId, s'.requests[s.nextId]);
    }
  }

  lemma PermitsKept(s: State, a: Action)
    requires Shape(s) && Permits(s)
    ensures Permits(Apply(s, a))
  {
    if a.Act? {
      if Enabled(s, a.id, a.move) { PermitsKeptByMove(s, a.id, a.move); }
    } else if a.Arrive? {
      PermitsArriveStep(s, a.repo, a.digest, a.fanout);
    } else {
      PushesTouchNoRequest(s, a);
    }
  }

  lemma PushesTouchNoRequest(s: State, a: Action)
    requires !a.Act? && !a.Arrive?
    ensures var s' := Apply(s, a);
            s'.requests == s.requests && s'.workerFree == s.workerFree && s'.globalFree == s.globalFree
    ensures var s' := Apply(s, a);
            !a.Tick? ==> s'.ledgers == s.ledgers && s'.clock == s.clock
    ensures Apply(s, a).cfg == s.cfg && Apply(s, a).inflight == s.inflight
  {
  }

  /** The debt of a request changes exactly as the ledger event says. */
  lemma OwesChange(s: State, id: nat, q: Request, m: Move)
    requires RequestOk(q) && CanMove(s, q, m)
    ensures Emits(q, id, m).None? ==>
              match NextRequest(s, id, q, m) case None => !q.owes case Some(q') => q'.owes == q.owes
    ensures Emits(q, id, m).Some? ==>
              && OwnEvent(Emits(q, id, m).value, id)
              && (Emits(q, id, m).value.Admit? <==> !q.owes)
              && NextRequest(s, id, q, m).Some?
              && NextRequest(s, id, q, m).value.owes ==
                   (m.Admit? && Breaker.Grants(LedgerOf(s, q.repo).circuit, LedgerOf(s, q.repo).clock))
    ensures Emits(q, id, m).Some? ==> (Emits(q, id, m).value.Admit? <==> m.Admit?)
  {
  }

  predicate OwnEvent(e: Breaker.Event, id: nat) {
    match e
    case Tick(_) => false
    case Admit(call) => call == id
    case Report(call, _) => call == id
    case Lose(call) => call == id
  }

  /** A move reports only what is owed, asks only for what is not: no report is lost or doubled. */
  lemma EmissionIsDue(s: State, id: nat, m: Move)
    requires Shape(s) && Books(s) && Enabled(s, id, m)
    requires Emits(s.requests[id], id, m).Some?
    ensures Breaker.Enabled(LedgerOf(s, s.requests[id].repo), Emits(s.requests[id], id, m).value)
  {
    var q := s.requests[id];
    OwesChange(s, id, q, m);
    assert BookOk(s.cfg.breaker, s.clock, LedgerIn(s.ledgers, s.clock, q.repo), Owing(s.requests, q.repo));
    assert id in Owing(s.requests, q.repo) <==> q.owes;
  }

  lemma OwingMove(before: Requests, id: nat, q': Option<Request>, r: string)
    requires id in before && (q'.Some? ==> q'.value.repo == before[id].repo)
    ensures Owing(Replaced(before, id, q'), r) ==
            if r != before[id].repo then Owing(before, r)
            else if q'.Some? && q'.value.owes then Owing(before, r) + {id}
            else Owing(before, r) - {id}
  {
  }

  lemma BooksUnmoved(cfg: Breaker.Config, clock: nat, ledgers: map<string, Breaker.Ledger>, before: Requests, id: nat, q': Option<Request>)
    requires id in before && BooksOn(cfg, clock, ledgers, before)
    requires match q' case None => !before[id].owes case Some(q) => q.owes == before[id].owes && q.repo == before[id].repo
    ensures BooksOn(cfg, clock, ledgers, Replaced(before, id, q'))
  {
    forall r ensures BookOk(cfg, clock, LedgerIn(ledgers, clock, r), Owing(Replaced(before, id, q'), r)) {
      assert BookOk(cfg, clock, LedgerIn(ledgers, clock, r), Owing(before, r));
      OwingMove(before, id, q', r);
      assert Owing(Replaced(before, id, q'), r) == Owing(before, r);
    }
  }

  lemma BooksArrive(cfg: Breaker.Config, clock: nat, ledgers: map<string, Breaker.Ledger>, before: Requests, id: nat, q: Request)
    requires id !in before && !q.owes && BooksOn(cfg, clock, ledgers, before)
    ensures BooksOn(cfg, clock, ledgers, before[id := q])
  {
    forall r ensures BookOk(cfg, clock, LedgerIn(ledgers, clock, r), Owing(before[id := q], r)) {
      assert BookOk(cfg, clock, LedgerIn(ledgers, clock, r), Owing(before, r));
      assert Owing(before[id := q], r) == Owing(before, r);
    }
  }

  lemma BookedEvent(l: Breaker.Ledger, cfg: Breaker.Config, e: Breaker.Event, id: nat)
    requires OwnEvent(e, id) && Breaker.Enabled(l, e)
    ensures Breaker.Step(l, cfg, e).clock == l.clock
    ensures Breaker.Step(l, cfg, e).outstanding ==
            if e.Admit? && Breaker.Grants(l.circuit, l.clock) then l.outstanding + {id} else l.outstanding - {id}
  {
  }

  lemma BooksMove(cfg: Breaker.Config, clock: nat, ledgers: map<string, Breaker.Ledger>, before: Requests, id: nat, q': Request, e: Breaker.Event, after: Breaker.Ledger)
    requires cfg.threshold <= U32_MAX && id in before && BooksOn(cfg, clock, ledgers, before)
    requires q'.repo == before[id].repo && OwnEvent(e, id)
    requires var l := LedgerIn(ledgers, clock, q'.repo);
             && Breaker.Enabled(l, e)
             && q'.owes == (e.Admit? && Breaker.Grants(l.circuit, l.clock))
             && after == Breaker.Step(l, cfg, e)
    ensures BooksOn(cfg, clock, ledgers[q'.repo := after], before[id := q'])
  {
    var repo := q'.repo;
    var l := LedgerIn(ledgers, clock, repo);
    assert BookOk(cfg, clock, l, Owing(before, repo));
    Breaker.StepKeepsInv(l, cfg, e);
    BookedEvent(l, cfg, e, id);
    assert Breaker.Inv(after, cfg);
    var ledgers' := ledgers[repo := after];
    var before' := Replaced(before, id, Some(q'));
    forall r ensures BookOk(cfg, clock, LedgerIn(ledgers', clock, r), Owing(before', r)) {
      assert BookOk(cfg, clock, LedgerIn(ledgers, clock, r), Owing(before, r));
      OwingMove(before, id, Some(q'), r);
    }
  }

  lemma BooksTick(cfg: Breaker.Config, clock: nat, ledgers: map<string, Breaker.Ledger>, requests: Requests, d: nat)
    requires cfg.threshold <= U32_MAX && BooksOn(cfg, clock, ledgers, requests)
    ensures BooksOn(cfg, clock + d, map r | r in ledgers :: Breaker.Step(ledgers[r], cfg, Breaker.Tick(d)), requests)
  {
    var ledgers' := map r | r in ledgers :: Breaker.Step(ledgers[r], cfg, Breaker.Tick(d));
    forall r ensures BookOk(cfg, clock + d, LedgerIn(ledgers', clock + d, r), Owing(requests, r)) {
      assert BookOk(cfg, clock, LedgerIn(ledgers, clock, r), Owing(requests, r));
      Breaker.StepKeepsInv(LedgerIn(ledgers, clock, r), cfg, Breaker.Tick(d));
    }
  }

  lemma BooksKeptByMove(s: State, id: nat, q: Request, m: Move)
    requires Shape(s) && Books(s) && Enabled(s, id, m) && q == s.requests[id]
    ensures BooksOn(s.cfg.breaker, s.clock, NextLedgers(s, id, q, m), Replaced(s.requests, id, NextRequest(s, id, q, m)))
  {
    RequestKept(s, id, q, m);
    OwesChange(s, id, q, m);
    var e := Emits(q, id, m);
    var q' := NextRequest(s, id, q, m);
    if e.Some? {
      EmissionIsDue(s, id, m);
      BooksMove(s.cfg.breaker, s.clock, s.ledgers, s.requests, id, q'.value, e.value, NextLedgers(s, id, q, m)[q.repo]);
    } else {
      BooksUnmoved(s.cfg.breaker, s.clock, s.ledgers, s.requests, id, q');
    }
  }

  lemma BooksArriveStep(s: State, repo: string, digest: Option<string>, fanout: bool)
    requires Shape(s) && Books(s)
    ensures Books(ArriveStep(s, repo, digest, fanout))
  {
    var s' := ArriveStep(s, repo, digest, fanout);
    if s' != s {
      BooksArrive(s.cfg.breaker, s.clock, s.ledgers, s.requests, s.nextId, s'.requests[s.nextId]);
    }
  }

  lemma BooksKept(s: State, a: Action)
    requires Shape(s) && Books(s)
    ensures Books(Apply(s, a))
  {
    if a.Act? {
      if Enabled(s, a.id, a.move) { BooksKeptByMove(s, a.id, s.requests[a.id], a.move); }
    } else if a.Arrive? {
      BooksArriveStep(s, a.repo, a.digest, a.fanout);
    } else if a.Tick? {
      BooksTick(s.cfg.breaker, s.clock, s.ledgers, s.requests, a.elapsed);
    } else {
      PushesTouchNoRequest(s, a);
    }
  }

  lemma FetchKept(s: State, id: nat, q: Request, m: Move)
    requires RequestOk(q) && CanMove(s, q, m) && PushesOk(s) && RequestFetchOk(s, q)
    ensures NextRequest(s, id, q, m).Some? ==> RequestFetchOk(s, NextRequest(s, id, q, m).value)
  {
  }

  lemma EntriesKept(s: State, id: nat, q: Request, m: Move)
    requires RequestOk(q) && CanMove(s, q, m) && RequestFetchOk(s, q)
    requires forall k :: k in s.entries ==> EntryOk(s, k, s.entries[k].response)
    ensures forall k :: k in NextEntries(s, q, m) ==> EntryOk(s, k, NextEntries(s, q, m)[k].response)
  {
  }

  lemma VersionsKeptByMove(s: State, id: nat, m: Move)
    requires Shape(s) && Versions(s) && Enabled(s, id, m)
    ensures Versions(ActStep(s, id, m))
  {
    var s' := ActStep(s, id, m);
    var q := s.requests[id];
    RequestKept(s, id, q, m);
    FetchKept(s, id, q, m);
    EntriesKept(s, id, q, m);
    VersionsFramed(s, s', id, NextRequest(s, id, q, m));
  }

  lemma VersionsFramed(s: State, s': State, id: nat, q': Option<Request>)
    requires Versions(s) && id in s.requests
    requires s'.requests == Replaced(s.requests, id, q') && (q'.Some? ==> RequestFetchOk(s, q'.value))
    requires s'.materialized == s.materialized && s'.invalidated == s.invalidated && s'.served == s.served
    requires forall k :: k in s'.entries ==> EntryOk(s, k, s'.entries[k].response)
    ensures Versions(s')
  {
    forall other | other in s'.requests ensures RequestFetchOk(s', s'.requests[other]) {
      assert RequestFetchOk(s, s'.requests[other]);
    }
  }

  /** Counters only grow; entries that survive carry the current invalidation count. */
  lemma VersionsGrow(s: State, s': State)
    requires Versions(s) && PushesOk(s')
    requires forall r :: CountOf(s.materialized, r) <= CountOf(s'.materialized, r)
    requires forall r :: CountOf(s.invalidated, r) <= CountOf(s'.invalidated, r)
    requires forall id :: id in s'.requests && id in s.requests ==> s'.requests[id] == s.requests[id]
    requires forall id :: id in s'.requests && id !in s.requests ==>
               !s'.requests[id].phase.Answered? && !s'.requests[id].phase.Storing?
    requires forall k :: k in s'.entries ==>
               k in s.entries && s'.entries[k] == s.entries[k] && CountOf(s'.invalidated, k.repo) == CountOf(s.invalidated, k.repo)
    ensures Versions(s')
  {
    forall id | id in s'.requests ensures RequestFetchOk(s', s'.requests[id]) {
      assert id in s.requests ==> RequestFetchOk(s, s.requests[id]);
    }
    forall k | k in s'.entries ensures EntryOk(s', k, s'.entries[k].response) {
      assert EntryOk(s, k, s.entries[k].response);
    }
  }

  lemma VersionsAdded(s: State, s': State, id: nat, q: Request)
    requires Versions(s) && id !in s.requests && !q.phase.Answered? && !q.phase.Storing?
    requires s' == s.(requests := s.requests[id := q], nextId := s'.nextId)
    ensures Versions(s')
  {
    VersionsGrow(s, s');
  }

  lemma VersionsArrive(s: State, repo: string, digest: Option<string>, fanout: bool)
    requires Shape(s) && Versions(s)
    ensures Versions(ArriveStep(s, repo, digest, fanout))
  {
    var s' := ArriveStep(s, repo, digest, fanout);
    if s' != s {
      VersionsAdded(s, s', s.nextId, s'.requests[s.nextId]);
    }
  }

  lemma VersionsMaterialize(s: State, r: string)
    requires Versions(s)
    ensures Versions(MaterializeStep(s, r))
  {
    var s' := MaterializeStep(s, r);
    assert forall x :: CountOf(s'.materialized, x) == CountOf(s.materialized, x) + if x == r then 1 else 0;
    VersionsGrow(s, s');
  }

  lemma VersionsIndex(s: State, r: string, version: nat)
    requires Versions(s)
    ensures Versions(IndexStep(s, r, version))
  {
    if version <= CountOf(s.materialized, r) {
      var s' := s.(served := s.served[r := version]);
      assert forall x :: CountOf(s'.served, x) == if x == r then version else CountOf(s.served, x);
      VersionsGrow(s, s');
    }
  }

  lemma VersionsInvalidate(s: State, r: string)
    requires Versions(s)
    ensures Versions(InvalidateStep(s, r))
  {
    VersionsGrow(s, InvalidateStep(s, r));
  }

  lemma VersionsKept(s: State, a: Action)
    requires Shape(s) && Versions(s)
    ensures Versions(Apply(s, a))
  {
    match a
    case Act(id, m) => if Enabled(s, id, m) { VersionsKeptByMove(s, id, m); }
    case Tick(d) => VersionsGrow(s, TickStep(s, d));
    case Arrive(repo, digest, fanout) => VersionsArrive(s, repo, digest, fanout);
    case Materialize(r) => VersionsMaterialize(s, r);
    case Index(r, version) => VersionsIndex(s, r, version);
    case Invalidate(r) => VersionsInvalidate(s, r);
  }

  lemma StepKeepsInv(s: State, a: Action)
    requires Inv(s)
    ensures Inv(Apply(s, a))
  {
    ShapeKept(s, a);
    FlightsKept(s, a);
    PermitsKept(s, a);
    BooksKept(s, a);
    VersionsKept(s, a);
  }

  lemma InitInv(cfg: Config)
    requires cfg.breaker.threshold <= U32_MAX
    ensures Inv(Init(cfg))
  {
    forall r ensures WorkerHolders(map[], r) == {} && Owing(map[], r) == {} {}
    assert GlobalHolders(map[]) == {};
  }

  lemma {:induction false} RunKeepsInv(s: State, actions: seq<Action>)
    requires Inv(s)
    ensures Inv(Run(s, actions))
    decreases |actions|
  {
    if actions != [] {
      StepKeepsInv(s, actions[0]);
      RunKeepsInv(Apply(s, actions[0]), actions[1..]);
    }
  }

  // ----- Safety over every run -----

  ghost predicate Reachable(s: State, cfg: Config, actions: seq<Action>) {
    cfg.breaker.threshold <= U32_MAX && s == Run(Init(cfg), actions)
  }

  lemma ReachableInv(s: State, cfg: Config, actions: seq<Action>)
    requires Reachable(s, cfg, actions)
    ensures Inv(s)
  {
    InitInv(cfg);
    RunKeepsInv(Init(cfg), actions);
  }

  /** A key is in flight exactly when a live request leads it, and that leader is unique. */
  lemma OneLeaderPerFlight(s: State, cfg: Config, actions: seq<Action>, k: Key)
    requires Reachable(s, cfg, actions)
    ensures k in s.inflight <==> exists id :: Leads(s.requests, id, k)
    ensures forall i, j :: Leads(s.requests, i, k) && Leads(s.requests, j, k) ==> i == j
  {
    ReachableInv(s, cfg, actions);
    if k in s.inflight {
      assert Leads(s.requests, s.inflight[k], k);
    }
  }

  /** At most 16 worker permits per repository and 64 global permits, counted against the requests holding them. */
  lemma PermitsAreConserved(s: State, cfg: Config, actions: seq<Action>, r: string)
    requires Reachable(s, cfg, actions)
    ensures FreeOf(s.workerFree, r) + |WorkerHolders(s.requests, r)| == 16
    ensures s.globalFree + |GlobalHolders(s.requests)| == 64
  {
    ReachableInv(s, cfg, actions);
  }

  /** Requests of a repository that hold both permits. */
  ghost function HoldingBoth(requests: Requests, r: string): set<nat> {
    set id | id in requests && requests[id].repo == r && requests[id].global && requests[id].worker
  }

  /**
    One repository occupies exactly as many global slots as its requests that hold
    both permits, at most 16, and those between their two permit drops; only a
    leaving request holds a global permit without a worker permit.
   */
  lemma GlobalSlotsOfOneRepository(s: State, cfg: Config, actions: seq<Action>, r: string)
    requires Reachable(s, cfg, actions)
    ensures |GlobalHoldersOf(s.requests, r)| == |HoldingBoth(s.requests, r)| + |Closing(s.requests, r)|
    ensures |HoldingBoth(s.requests, r)| <= 16
    ensures forall id :: id in Closing(s.requests, r) ==> s.requests[id].phase.Leaving?
  {
    ReachableInv(s, cfg, actions);
    var global, both, closing := GlobalHoldersOf(s.requests, r), HoldingBoth(s.requests, r), Closing(s.requests, r);
    assert FreeOf(s.workerFree, r) + |WorkerHolders(s.requests, r)| == WORKER_CONCURRENCY;
    SubsetIsNoLarger(both, WorkerHolders(s.requests, r));
    assert global == both + closing && both !! closing;
  }

  /**
    The bound of 16 is exceeded whenever a saturating repository has a caller
    queued: one holder drops its worker permit, the queued caller takes it and a
    global permit, and 17 global slots belong to the repository.
   */
  lemma SeventeenGlobalSlots(s: State, r: string, leaving: nat, queued: nat)
    requires Inv(s) && |GlobalHoldersOf(s.requests, r)| == WORKER_CONCURRENCY && s.globalFree > 0
    requires leaving in s.requests && s.requests[leaving].repo == r
    requires s.requests[leaving].phase.Leaving? && s.requests[leaving].worker && s.requests[leaving].global
    requires queued in s.requests && s.requests[queued].repo == r && s.requests[queued].phase.Queued?
    ensures var s1 := Apply(s, Act(leaving, Unwind));
            var s2 := Apply(s1, Act(queued, TakeWorker));
            var s3 := Apply(s2, Act(queued, TakeGlobal));
            |GlobalHoldersOf(s3.requests, r)| == WORKER_CONCURRENCY + 1
  {
    var s1 := WorkerPermitDropped(s, leaving);
    var s2 := WorkerPermitTaken(s1, queued);
    var s3 := GlobalPermitTaken(s2, queued);
    assert RequestOk(s.requests[queued]);
    OneMoreHolder(s.requests, s3.requests, r, queued);
  }

  lemma OneMoreHolder(before: Requests, after: Requests, r: string, queued: nat)
    requires queued in before && !before[queued].global
    requires queued in after && after[queued].global && after[queued].repo == r
    requires forall id :: id != queued ==> (id in after <==> id in before)
    requires forall id :: id != queued && id in before ==> after[id].global == before[id].global && after[id].repo == before[id].repo
    ensures |GlobalHoldersOf(after, r)| == |GlobalHoldersOf(before, r)| + 1
  {
    var was := GlobalHoldersOf(before, r);
    assert GlobalHoldersOf(after, r) == was + {queued} && queued !in was;
  }

  lemma WorkerPermitDropped(s: State, id: nat) returns (s': State)
    requires id in s.requests && s.requests[id].phase.Leaving? && s.requests[id].worker
    ensures s' == Apply(s, Act(id, Unwind))
    ensures s'.requests == s.requests[id := s.requests[id].(worker := false)] && s'.globalFree == s.globalFree
    ensures FreeOf(s'.workerFree, s.requests[id].repo) > 0
  {
    s' := ActStep(s, id, Unwind);
  }

  lemma WorkerPermitTaken(s: State, id: nat) returns (s': State)
    requires id in s.requests && s.requests[id].phase.Queued? && FreeOf(s.workerFree, s.requests[id].repo) > 0
    ensures s' == Apply(s, Act(id, TakeWorker))
    ensures s'.requests == s.requests[id := s.requests[id].(phase := HoldsWorker, worker := true)]
    ensures s'.globalFree == s.globalFree
  {
    s' := ActStep(s, id, TakeWorker);
  }

  lemma GlobalPermitTaken(s: State, id: nat) returns (s': State)
    requires id in s.requests && s.requests[id].phase.HoldsWorker? && s.globalFree > 0
    ensures s' == Apply(s, Act(id, TakeGlobal))
    ensures s'.requests == s.requests[id := s.requests[id].(phase := Admissible, global := true)]
  {
    s' := ActStep(s, id, TakeGlobal);
  }

  /**
    While a handler calls upstream or reads a buffered answer it holds both permits,
    so at most 16 do so per repository.  An event stream is read without permits.
   */
  lemma UpstreamCallsAreBounded(s: State, cfg: Config, actions: seq<Action>, r: string, calling: set<nat>)
    requires Reachable(s, cfg, actions)
    requires forall id :: id in calling ==>
               && id in s.requests && s.requests[id].repo == r
               && (s.requests[id].phase.Calling? || s.requests[id].phase.Answered?)
    ensures |calling| <= 16
  {
    ReachableInv(s, cfg, actions);
    assert FreeOf(s.workerFree, r) + |WorkerHolders(s.requests, r)| == WORKER_CONCURRENCY;
    SubsetIsNoLarger(calling, WorkerHolders(s.requests, r));
  }

  /**
    Every grant is owed by one live request until that request reports it or is
    dropped: the calls a circuit counts as unreported are exactly the requests
    that owe a report, and the breaker's ledger theorems hold of its circuit.
   */
  lemma LedgerIsTheRequests(s: State, cfg: Config, actions: seq<Action>, r: string)
    requires Reachable(s, cfg, actions)
    ensures var l := LedgerOf(s, r);
            && l.outstanding == Owing(s.requests, r)
            && Breaker.Inv(l, s.cfg.breaker)
            && (l.losses == 0 && Owing(s.requests, r) == {} &&
                (l.circuit.openUntil.Some? ==> l.circuit.openUntil.value <= s.clock)
                ==> Breaker.Grants(l.circuit, l.clock))
  {
    ReachableInv(s, cfg, actions);
    assert BookOk(s.cfg.breaker, s.clock, LedgerIn(s.ledgers, s.clock, r), Owing(s.requests, r));
  }

  // ----- Progress -----

  /** Moves left to a request, were nothing to make it fetch again. */
  function Rank(q: Request): nat {
    match q.phase
    case Arrived => 16
    case Missed => 15
    case Following(_) => 14
    case Woken => 13
    case Queued => 12
    case HoldsWorker => 11
    case Admissible => 10
    case Calling => 9
    case Answered(_) => 8
    case Storing(_) => 7
    case Leaving(streams) =>
      (if streams then 1 else 0) + (if q.worker then 1 else 0) + (if q.global then 1 else 0) +
      (if q.owes && q.verdict.Some? then 1 else 0) + (if q.leads then 1 else 0)
    case Streaming => 0
  }

  /** The move a request can make by itself. */
  function OwnMove(q: Request): Move {
    match q.phase
    case Arrived => LookUp
    case Missed => Claim
    case Following(_) => Wake
    case Woken => Recheck
    case Queued => Shed
    case HoldsWorker => Shed
    case Admissible => Admit
    case Calling => if q.fanout then Conclude(true) else Answer
    case Answered(_) => Fail
    case Storing(_) => Store
    case Leaving(_) => Unwind
    case Streaming => Close
  }

  /**
    No request is stranded: in every reachable state each request can move on its
    own, or follows a live leader of its key that is itself not following; and
    every move a request makes brings it strictly nearer its end.
   */
  lemma NobodyIsStranded(s: State, cfg: Config, actions: seq<Action>, id: nat)
    requires Reachable(s, cfg, actions) && id in s.requests
    ensures var q := s.requests[id];
            || Enabled(s, id, OwnMove(q))
            || (&& q.phase.Following? && q.digest.Some? && q.phase.leader in s.requests
                && Leads(s.requests, q.phase.leader, KeyOf(q))
                && !s.requests[q.phase.leader].phase.Following?
                && Enabled(s, q.phase.leader, OwnMove(s.requests[q.phase.leader])))
    ensures forall m :: Enabled(s, id, m) && NextRequest(s, id, s.requests[id], m).Some? ==>
              Rank(NextRequest(s, id, s.requests[id], m).value) < Rank(s.requests[id])
  {
    ReachableInv(s, cfg, actions);
    var q := s.requests[id];
    if !Enabled(s, id, OwnMove(q)) {
      assert Leads(s.requests, q.phase.leader, KeyOf(q));
    }
    forall m | Enabled(s, id, m) && NextRequest(s, id, q, m).Some?
      ensures Rank(NextRequest(s, id, q, m).value) < Rank(q)
    {
      MovesDescend(s, id, q, m);
    }
  }

  lemma MovesDescend(s: State, id: nat, q: Request, m: Move)
    requires RequestOk(q) && CanMove(s, q, m)
    ensures NextRequest(s, id, q, m).Some? ==> Rank(NextRequest(s, id, q, m).value) < Rank(q)
  {
  }

  // ----- Staleness of the cache -----

  /**
    A cached answer is older than the materialized content exactly when the worker
    was serving older content when it answered, or a push was invalidated between
    the answer and its `put`, or content was materialized after the answer that no
    invalidation has covered, by a push that is running or ended early.  In the
    second case the call was in flight across that invalidation.
   */
  lemma StaleEntriesExplained(s: State, cfg: Config, actions: seq<Action>, k: Key)
    requires Reachable(s, cfg, actions) && k in s.entries
    ensures var stored := s.entries[k].response;
            && (stored.fetch.version < CountOf(s.materialized, k.repo) <==>
                  || stored.fetch.version < stored.fetch.materialized
                  || stored.fetch.materialized < stored.putAt
                  || stored.putAt <= stored.fetch.materialized < CountOf(s.materialized, k.repo))
            && (stored.fetch.materialized < stored.putAt ==> stored.fetch.invalidated < stored.putAt)
            && (stored.putAt <= stored.fetch.materialized < CountOf(s.materialized, k.repo) ==> Pending(s, k.repo))
  {
    ReachableInv(s, cfg, actions);
    assert EntryOk(s, k, s.entries[k].response);
    assert CountOf(s.invalidated, k.repo) <= CountOf(s.materialized, k.repo);
  }

  /** A hit is older than the content, though an invalidation has covered all of it. */
  ghost predicate StaleHit(s: State, k: Key) {
    && Hit(s, k) && k in s.entries && !Pending(s, k.repo)
    && s.entries[k].response.fetch.version < CountOf(s.materialized, k.repo)
  }

  predicate UpToDate(s: State, r: string) {
    CountOf(s.served, r) == CountOf(s.materialized, r)
  }

  /**
    "Invalidation on push keeps the cache exact" fails for every call that is
    answered before a push and stores after it: the stale answer stays in the
    cache with no push pending and the worker not lagging.
   */
  lemma StoreAfterInvalidationIsStale(s: State, id: nat) returns (pushed: State, stored: State)
    requires Inv(s) && id in s.requests
    requires s.requests[id].phase.Answered? && s.requests[id].digest.Some?
    ensures pushed == Run(s, WholePush(s, s.requests[id].repo)) && stored == Run(pushed, AnswerStored(id))
    ensures StaleHit(stored, KeyOf(s.requests[id])) && UpToDate(stored, s.requests[id].repo)
  {
    pushed := PushCompletes(s, s.requests[id].repo);
    assert RequestFetchOk(s, s.requests[id]);
    stored := OldAnswerIsStored(pushed, id);
  }

  /** An answer that is old already stays old in the cache. */
  lemma OldAnswerIsStored(s: State, id: nat) returns (s': State)
    requires id in s.requests && s.requests[id].phase.Answered? && s.requests[id].digest.Some?
    requires s.requests[id].phase.fetch.version < CountOf(s.materialized, s.requests[id].repo) && !Pending(s, s.requests[id].repo)
    ensures s' == Run(s, AnswerStored(id))
    ensures StaleHit(s', KeyOf(s.requests[id])) && (UpToDate(s, s.requests[id].repo) ==> UpToDate(s', s.requests[id].repo))
  {
    var finished := AnswerFinishes(s, id);
    s' := AnswerIsStored(finished, id);
    RunTwo(s, Act(id, Finish(200)), Act(id, Store));
  }

  /** A push that materializes, is indexed and invalidates. */
  function WholePush(s: State, r: string): seq<Action> {
    [Materialize(r), Index(r, CountOf(s.materialized, r) + 1)] + [Invalidate(r)]
  }

  function AnswerStored(id: nat): seq<Action> {
    [Act(id, Finish(200)), Act(id, Store)]
  }

  lemma RunOne(s: State, a: Action)
    ensures Run(s, [a]) == Apply(s, a)
  {
    assert [a][1..] == [];
  }

  lemma RunTwo(s: State, a: Action, b: Action)
    ensures Run(s, [a, b]) == Apply(Apply(s, a), b)
  {
    assert [a, b][1..] == [b];
    RunOne(Apply(s, a), b);
  }

  lemma {:induction false} RunAppend(s: State, first: seq<Action>, second: seq<Action>)
    ensures Run(s, first + second) == Run(Run(s, first), second)
    decreases |first|
  {
    if first == [] {
      assert first + second == second;
    } else {
      assert (first + second)[1..] == first[1..] + second;
      RunAppend(Apply(s, first[0]), first[1..], second);
    }
  }

  lemma PushCompletes(s: State, r: string) returns (s': State)
    requires PushesOk(s)
    ensures s' == Run(s, WholePush(s, r))
    ensures s'.requests == s.requests && !Pending(s', r)
    ensures CountOf(s'.materialized, r) == CountOf(s.materialized, r) + 1 == CountOf(s'.served, r)
  {
    var content := CountOf(s.materialized, r) + 1;
    var indexed := IndexStep(MaterializeStep(s, r), r, content);
    RunTwo(s, Materialize(r), Index(r, content));
    RunAppend(s, [Materialize(r), Index(r, content)], [Invalidate(r)]);
    RunOne(indexed, Invalidate(r));
    s' := InvalidateStep(indexed, r);
  }

  lemma AnswerFinishes(s: State, id: nat) returns (s': State)
    requires id in s.requests && s.requests[id].phase.Answered? && s.requests[id].digest.Some?
    ensures s' == Apply(s, Act(id, Finish(200)))
    ensures id in s'.requests && s'.requests[id].phase == Storing(s.requests[id].phase.fetch)
    ensures s'.requests[id].repo == s.requests[id].repo && s'.requests[id].digest == s.requests[id].digest
    ensures s'.materialized == s.materialized && s'.served == s.served && s'.invalidated == s.invalidated
  {
    s' := ActStep(s, id, Finish(200));
  }

  lemma AnswerIsStored(s: State, id: nat) returns (s': State)
    requires id in s.requests && s.requests[id].phase.Storing? && s.requests[id].digest.Some?
    ensures s' == Apply(s, Act(id, Store))
    ensures Hit(s', KeyOf(s.requests[id])) && KeyOf(s.requests[id]) in s'.entries
    ensures s'.entries[KeyOf(s.requests[id])].response.fetch == s.requests[id].phase.fetch
    ensures s'.materialized == s.materialized && s'.served == s.served && s'.invalidated == s.invalidated
  {
    s' := ActStep(s, id, Store);
  }
}
