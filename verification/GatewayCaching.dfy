/**
  When the gateway answers from its cache, and what it ever caches
  (apps/gateway/src/main.rs), over every run.
 */
module GatewayCaching {
  import opened Common
  import opened Gateway
  import opened GatewayReports
  import opened Wrappers
  import SearchCache

  /** The cached answer of a key, no older than the time to live. */
  predicate FreshAnswer(s: State, k: Key) {
    k in s.entries && s.clock <= s.entries[k].inserted + s.cfg.ttl
  }

  lemma HitExactly(s: State, k: Key)
    ensures Hit(s, k) <==> FreshAnswer(s, k)
  {
    if k in s.entries { SearchCache.LookupExactly(s.entries, s.cfg.ttl, s.clock, k, s.entries[k].response); }
  }

  /** Only the request's own record changes. */
  predicate OnlyMoves(s: State, s': State, id: nat, q: Request) {
    s' == s.(requests := s.requests[id := q])
  }

  /** The first look into the cache serves a request exactly when its key has a fresh answer, and else sends it on to the singleflight. */
  lemma LookUpServesExactlyFresh(s: State, id: nat)
    requires id in s.requests && s.requests[id].phase.Arrived? && s.requests[id].digest.Some?
    ensures var q := s.requests[id];
            OnlyMoves(s, Apply(s, Act(id, LookUp)), id, q.(phase := if FreshAnswer(s, KeyOf(q)) then Leaving(false) else Missed))
  {
    HitExactly(s, KeyOf(s.requests[id]));
  }

  /** A request that is not a cacheable search goes straight to the permits. */
  lemma UncachedSkipsTheCache(s: State, id: nat)
    requires id in s.requests && s.requests[id].phase.Arrived? && s.requests[id].digest.None?
    ensures OnlyMoves(s, Apply(s, Act(id, LookUp)), id, s.requests[id].(phase := Queued))
  {
  }

  /** A woken follower looks again: a fresh answer serves it, else it calls by itself, without leading. */
  lemma FollowerServedExactlyFresh(s: State, id: nat)
    requires Inv(s) && id in s.requests && s.requests[id].phase.Woken?
    ensures s.requests[id].digest.Some? && !s.requests[id].leads
    ensures var q := s.requests[id];
            OnlyMoves(s, Apply(s, Act(id, Recheck)), id, q.(phase := if FreshAnswer(s, KeyOf(q)) then Leaving(false) else Queued))
  {
    assert RequestOk(s.requests[id]);
    HitExactly(s, KeyOf(s.requests[id]));
  }

  /** A miss follows the flight of its key if there is one, and else leads it. */
  lemma MissLeadsOrFollows(s: State, id: nat)
    requires Inv(s) && id in s.requests && s.requests[id].phase.Missed?
    ensures s.requests[id].digest.Some?
    ensures var q := s.requests[id];
            var s' := Apply(s, Act(id, Claim));
            if KeyOf(q) in s.inflight
            then OnlyMoves(s, s', id, q.(phase := Following(s.inflight[KeyOf(q)])))
            else s' == s.(requests := s.requests[id := q.(phase := Queued, leads := true)], inflight := s.inflight[KeyOf(q) := id])
  {
    assert RequestOk(s.requests[id]);
  }

  /** A follower wakes exactly when the leader it follows no longer leads the flight of its key. */
  lemma FollowerWakesExactly(s: State, id: nat)
    requires Inv(s) && id in s.requests && s.requests[id].phase.Following?
    ensures s.requests[id].digest.Some?
    ensures Enabled(s, id, Wake) <==> !Leads(s.requests, s.requests[id].phase.leader, KeyOf(s.requests[id]))
    ensures Enabled(s, id, Wake) ==> OnlyMoves(s, Apply(s, Act(id, Wake)), id, s.requests[id].(phase := Woken))
  {
    var q := s.requests[id];
    assert RequestOk(q);
    if KeyOf(q) in s.inflight { assert Leads(s.requests, s.inflight[KeyOf(q)], KeyOf(q)); }
  }

  /** A cache hit is gone after one more step, and has used no permit, no circuit and no flight. */
  lemma FreshHitCostsNothing(s: State, id: nat)
    requires Inv(s) && id in s.requests && s.requests[id].phase.Arrived? && s.requests[id].digest.Some?
    requires FreshAnswer(s, KeyOf(s.requests[id]))
    ensures Run(s, [Act(id, LookUp), Act(id, Unwind)]) == s.(requests := s.requests - {id})
  {
    var q := s.requests[id];
    assert RequestOk(q);
    LookUpServesExactlyFresh(s, id);
    RunTwo(s, Act(id, LookUp), Act(id, Unwind));
    var served := s.(requests := s.requests[id := q.(phase := Leaving(false))]);
    BareLeaves(served, id);
    assert served.requests - {id} == s.requests - {id};
  }

  lemma BareLeaves(s: State, id: nat)
    requires id in s.requests && s.requests[id].phase == Leaving(false)
    requires !s.requests[id].worker && !s.requests[id].global && !s.requests[id].owes && !s.requests[id].leads
    ensures Apply(s, Act(id, Unwind)) == s.(requests := s.requests - {id})
  {
  }

  // ----- What is ever stored -----

  /** A whole answer of a cacheable request goes on to be stored exactly when its status is 200. */
  lemma OnlyOkGoesOn(s: State, id: nat, status: nat)
    requires id in s.requests && s.requests[id].phase.Answered?
    ensures var q, s' := s.requests[id], Apply(s, Act(id, Finish(status)));
            && id in s'.requests && s'.entries == s.entries
            && s'.requests[id].phase == if status == 200 && q.digest.Some? then Storing(q.phase.fetch) else Leaving(false)
  {
  }

  lemma NextStoring(s: State, id: nat, q: Request, m: Move)
    requires CanMove(s, q, m)
    ensures NextRequest(s, id, q, m).Some? && NextRequest(s, id, q, m).value.phase.Storing? ==> m == Finish(200)
  {
  }

  predicate IsStoring(requests: Requests, id: nat) {
    id in requests && requests[id].phase.Storing?
  }

  lemma UntouchedStoring(before: Requests, after: Requests, newest: nat, id: nat)
    requires Untouched(before, after, newest, id) && IsStoring(after, id)
    ensures IsStoring(before, id)
  {
  }

  lemma StoringComesFromOk(s: State, a: Action, id: nat)
    requires Inv(s) && IsStoring(Apply(s, a).requests, id)
    ensures IsStoring(s.requests, id) || a == Act(id, Finish(200))
  {
    if a.Act? && a.id == id && Enabled(s, id, a.move) {
      AfterMove(s, id, a.move);
      NextStoring(s, id, s.requests[id], a.move);
    } else {
      OthersUntouched(s, a, id);
      UntouchedStoring(s.requests, Apply(s, a).requests, s.nextId, id);
    }
  }

  lemma StoringBefore(cfg: Config, actions: seq<Action>, id: nat) returns (front: seq<Action>, a: Action)
    requires cfg.breaker.threshold <= U32_MAX && actions != [] && IsStoring(Run(Init(cfg), actions).requests, id)
    ensures actions == front + [a]
    ensures IsStoring(Run(Init(cfg), front).requests, id) || a == Act(id, Finish(200))
  {
    var before;
    front, a, before := Prefix(cfg, actions);
    StoringComesFromOk(before, a, id);
  }

  /** Over every run: a request about to store has been answered with 200. */
  lemma {:induction false} StoringWasOk(cfg: Config, actions: seq<Action>, id: nat)
    requires cfg.breaker.threshold <= U32_MAX && IsStoring(Run(Init(cfg), actions).requests, id)
    ensures Act(id, Finish(200)) in actions
    decreases |actions|
  {
    if actions != [] {
      var front, a := StoringBefore(cfg, actions, id);
      if a != Act(id, Finish(200)) { StoringWasOk(cfg, front, id); }
    }
  }

  predicate StoredBy(s: State, a: Action) {
    a.Act? && a.move.Store? && IsStoring(s.requests, a.id)
  }

  lemma EntriesComeFromStore(s: State, a: Action, k: Key)
    requires k in Apply(s, a).entries
    ensures k in s.entries || StoredBy(s, a)
  {
  }

  lemma EntryBefore(cfg: Config, actions: seq<Action>, k: Key) returns (front: seq<Action>, a: Action)
    requires cfg.breaker.threshold <= U32_MAX && actions != [] && k in Run(Init(cfg), actions).entries
    ensures actions == front + [a]
    ensures k in Run(Init(cfg), front).entries || StoredBy(Run(Init(cfg), front), a)
  {
    var before;
    front, a, before := Prefix(cfg, actions);
    EntriesComeFromStore(before, a, k);
  }

  lemma NothingCachedYet(cfg: Config, actions: seq<Action>, k: Key)
    requires k in Run(Init(cfg), actions).entries
    ensures actions != []
  {
  }

  /** Over every run: each cached answer was stored by a request that had been answered with 200. */
  lemma {:induction false} OnlyOkIsStored(cfg: Config, actions: seq<Action>, k: Key) returns (id: nat)
    requires cfg.breaker.threshold <= U32_MAX && k in Run(Init(cfg), actions).entries
    ensures Act(id, Finish(200)) in actions && Act(id, Store) in actions
    decreases |actions|
  {
    NothingCachedYet(cfg, actions, k);
    var front, a := EntryBefore(cfg, actions, k);
    if k in Run(Init(cfg), front).entries {
      id := OnlyOkIsStored(cfg, front, k);
    } else {
      id := a.id;
      StoringWasOk(cfg, front, id);
    }
  }

  // ----- What is ever streamed -----

  /** The phase of a request whose event stream is being passed on, or is about to be. */
  predicate Passes(phase: Phase) {
    phase.Streaming? || phase == Leaving(true)
  }

  predicate IsStreaming(requests: Requests, id: nat) {
    id in requests && Passes(requests[id].phase)
  }

  lemma UnwoundStreaming(s: State, id: nat, q: Request)
    requires CanMove(s, q, Unwind) && NextRequest(s, id, q, Unwind).Some? && Passes(NextRequest(s, id, q, Unwind).value.phase)
    ensures q.phase == Leaving(true)
  {
  }

  lemma NextStreaming(s: State, id: nat, q: Request, m: Move)
    requires CanMove(s, q, m) && NextRequest(s, id, q, m).Some? && Passes(NextRequest(s, id, q, m).value.phase)
    ensures m == Stream || q.phase == Leaving(true)
  {
    if m == Unwind { UnwoundStreaming(s, id, q); }
  }

  lemma UntouchedStreaming(before: Requests, after: Requests, newest: nat, id: nat)
    requires Untouched(before, after, newest, id) && IsStreaming(after, id)
    ensures IsStreaming(before, id)
  {
  }

  lemma StreamingComesFromStream(s: State, a: Action, id: nat)
    requires Inv(s) && IsStreaming(Apply(s, a).requests, id)
    ensures IsStreaming(s.requests, id) || a == Act(id, Stream)
  {
    if a.Act? && a.id == id && Enabled(s, id, a.move) {
      AfterMove(s, id, a.move);
      NextStreaming(s, id, s.requests[id], a.move);
    } else {
      OthersUntouched(s, a, id);
      UntouchedStreaming(s.requests, Apply(s, a).requests, s.nextId, id);
    }
  }

  lemma StreamingBefore(cfg: Config, actions: seq<Action>, id: nat) returns (front: seq<Action>, a: Action)
    requires cfg.breaker.threshold <= U32_MAX && actions != [] && IsStreaming(Run(Init(cfg), actions).requests, id)
    ensures actions == front + [a]
    ensures IsStreaming(Run(Init(cfg), front).requests, id) || a == Act(id, Stream)
  {
    var before;
    front, a, before := Prefix(cfg, actions);
    StreamingComesFromStream(before, a, id);
  }

  /** Over every run: only an answer that was an event stream is passed on without permits. */
  lemma {:induction false} OnlyStreamsAreStreamed(cfg: Config, actions: seq<Action>, id: nat)
    requires cfg.breaker.threshold <= U32_MAX && IsStreaming(Run(Init(cfg), actions).requests, id)
    ensures Act(id, Stream) in actions
    decreases |actions|
  {
    if actions != [] {
      var front, a := StreamingBefore(cfg, actions, id);
      if a != Act(id, Stream) { OnlyStreamsAreStreamed(cfg, front, id); }
    }
  }

  // ----- The circuit's answer -----

  /** A request with both permits calls upstream exactly when the circuit is closed, or past its deadline with no probe out; else it leaves. */
  lemma AdmitDecides(s: State, id: nat)
    requires Inv(s) && id in s.requests && s.requests[id].phase.Admissible?
    ensures var q, c, s' := s.requests[id], LedgerOf(s, s.requests[id].repo).circuit, Apply(s, Act(id, Admit));
            && id in s'.requests && s'.workerFree == s.workerFree && s'.globalFree == s.globalFree && s'.entries == s.entries
            && (if c.openUntil.None? || (c.openUntil.value <= s.clock && !c.probing)
                then s'.requests[id] == q.(phase := Calling, owes := true)
                     && LedgerOf(s', q.repo).circuit == c.(probing := c.openUntil.Some?)
                else s'.requests[id] == q.(phase := Leaving(false)) && LedgerOf(s', q.repo).circuit == c)
  {
    var q := s.requests[id];
    assert RequestOk(q);
    assert BookOk(s.cfg.breaker, s.clock, LedgerIn(s.ledgers, s.clock, q.repo), Owing(s.requests, q.repo));
    assert id !in Owing(s.requests, q.repo);
  }
}
