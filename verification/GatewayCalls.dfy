/**
  What the upstream permits bound, exactly (apps/gateway/src/main.rs): the calls of
  a repository whose answer is buffered, and not the event streams passed on.
 */
module GatewayCalls {
  import opened Common
  import opened Gateway
  import opened GatewayReports
  import opened GatewayRuns
  import opened Wrappers

  /** Requests of a repository that call upstream or read a buffered answer. */
  ghost function Callers(requests: Requests, r: string): set<nat> {
    set id | id in requests && requests[id].repo == r && (requests[id].phase.Calling? || requests[id].phase.Answered?)
  }

  /** Requests of a repository whose event stream is being passed on. */
  ghost function Streamers(requests: Requests, r: string): set<nat> {
    set id | id in requests && requests[id].repo == r && requests[id].phase.Streaming?
  }

  // ----- One request that does not use the cache -----

  /** The permits left, and the circuit of the repository closed. */
  predicate Room(s: State, r: string, worker: nat, global: nat) {
    FreeOf(s.workerFree, r) == worker && s.globalFree == global && LedgerOf(s, r).circuit.openUntil.None?
  }

  function Plain(r: string, phase: Phase): Request {
    Request(r, None, false, phase, false, false, false, None, false)
  }

  function Caller(r: string): Request {
    Request(r, None, false, Calling, true, true, true, None, false)
  }

  lemma ComesPlain(s: State, r: string) returns (s': State)
    ensures s' == Apply(s, Arrive(r, None, false))
    ensures Becomes(s, s', s.nextId, Plain(r, Arrived)) && s'.nextId == s.nextId + 1
    ensures s'.workerFree == s.workerFree && s'.globalFree == s.globalFree && LedgerOf(s', r) == LedgerOf(s, r)
  {
    s' := ArriveStep(s, r, None, false);
  }

  lemma QueuesPlain(s: State, id: nat, r: string) returns (s': State)
    requires Has(s, id, Plain(r, Arrived))
    ensures s' == Apply(s, Act(id, LookUp))
    ensures Becomes(s, s', id, Plain(r, Queued)) && s'.nextId == s.nextId
    ensures s'.workerFree == s.workerFree && s'.globalFree == s.globalFree && s'.ledgers == s.ledgers && s'.clock == s.clock
  {
    OneMoves(s, id, Plain(r, Arrived), LookUp, Plain(r, Queued));
    s' := ActStep(s, id, LookUp);
  }

  lemma TakesPermits(s: State, id: nat, r: string, worker: nat, global: nat) returns (s': State)
    requires Has(s, id, Plain(r, Queued)) && Room(s, r, worker + 1, global + 1)
    ensures s' == Apply(Apply(s, Act(id, TakeWorker)), Act(id, TakeGlobal))
    ensures Becomes(s, s', id, Caller(r).(phase := Admissible, owes := false)) && s'.nextId == s.nextId
    ensures Room(s', r, worker, global)
  {
    s' := PermitsOf(s, id, Plain(r, Queued));
  }

  lemma IsAdmitted(s: State, id: nat, r: string, worker: nat, global: nat) returns (s': State)
    requires Has(s, id, Caller(r).(phase := Admissible, owes := false)) && Room(s, r, worker, global)
    ensures s' == Apply(s, Act(id, Admit))
    ensures Becomes(s, s', id, Caller(r)) && s'.nextId == s.nextId && Room(s', r, worker, global)
  {
    OneMoves(s, id, Caller(r).(phase := Admissible, owes := false), Admit, Caller(r));
    s' := ActStep(s, id, Admit);
  }

  /** One more request comes and calls upstream. */
  lemma OneMoreCalls(cfg: Config, before: seq<Action>, r: string, worker: nat, global: nat) returns (actions: seq<Action>)
    requires Room(Run(Init(cfg), before), r, worker + 1, global + 1)
    ensures var s, s' := Run(Init(cfg), before), Run(Init(cfg), actions);
            Becomes(s, s', s.nextId, Caller(r)) && s'.nextId == s.nextId + 1 && Room(s', r, worker, global)
  {
    var s := Run(Init(cfg), before);
    var id := s.nextId;
    var come := ComesPlain(s, r);
    var queued := QueuesPlain(come, id, r);
    TwoMore(Init(cfg), before, Arrive(r, None, false), Act(id, LookUp));
    var a1 := before + [Arrive(r, None, false), Act(id, LookUp)];
    var holding := TakesPermits(queued, id, r, worker, global);
    TwoMore(Init(cfg), a1, Act(id, TakeWorker), Act(id, TakeGlobal));
    var a2 := a1 + [Act(id, TakeWorker), Act(id, TakeGlobal)];
    var calling := IsAdmitted(holding, id, r, worker, global);
    RunSnoc(Init(cfg), a2, Act(id, Admit));
    actions := a2 + [Act(id, Admit)];
    assert Becomes(s, calling, id, Caller(r));
  }

  // ----- Sixteen buffered calls -----

  predicate FreshIds(s: State) {
    forall id :: id in s.requests ==> id < s.nextId
  }

  lemma CallersGrow(before: Requests, id: nat, r: string)
    requires id !in before
    ensures |Callers(before[id := Caller(r)], r)| == |Callers(before, r)| + 1
  {
    assert Callers(before[id := Caller(r)], r) == Callers(before, r) + {id};
  }

  lemma NCallersReached(cfg: Config, r: string, n: nat) returns (actions: seq<Action>)
    requires n <= WORKER_CONCURRENCY
    ensures |Callers(Run(Init(cfg), actions).requests, r)| == n
  {
    actions := [];
    assert Callers(map[], r) == {};
    for k := 0 to n
      invariant var s := Run(Init(cfg), actions);
                && |Callers(s.requests, r)| == k && FreshIds(s)
                && Room(s, r, WORKER_CONCURRENCY - k, UPSTREAM_CONCURRENCY - k)
    {
      var s := Run(Init(cfg), actions);
      actions := OneMoreCalls(cfg, actions, r, WORKER_CONCURRENCY - k - 1, UPSTREAM_CONCURRENCY - k - 1);
      CallersGrow(s.requests, s.nextId, r);
    }
  }

  /** A run of the gateway brings n requests of the repository to call upstream or read a buffered answer. */
  ghost predicate CallersPossible(cfg: Config, r: string, n: nat) {
    exists actions :: |Callers(Run(Init(cfg), actions).requests, r)| == n
  }

  /** Buffered calls of one repository number up to 16, and no more. */
  lemma BufferedCallsExactly(cfg: Config, r: string, n: nat)
    requires cfg.breaker.threshold <= U32_MAX
    ensures CallersPossible(cfg, r, n) <==> n <= 16
  {
    if CallersPossible(cfg, r, n) {
      var actions :| |Callers(Run(Init(cfg), actions).requests, r)| == n;
      UpstreamCallsAreBounded(Run(Init(cfg), actions), cfg, actions, r, Callers(Run(Init(cfg), actions).requests, r));
    }
    if n <= WORKER_CONCURRENCY {
      var actions := NCallersReached(cfg, r, n);
    }
  }

  // ----- Any number of streams -----

  /** A caller whose answer is an event stream passes it on, and its permits are free again. */
  lemma PassesStream(s: State, id: nat, r: string, worker: nat, global: nat) returns (s': State)
    requires Has(s, id, Caller(r)) && Room(s, r, worker, global)
    ensures s' == Apply(Apply(s, Act(id, Answer)), Act(id, Stream))
    ensures Becomes(s, s', id, Caller(r).(phase := Leaving(true), owes := false)) && s'.nextId == s.nextId
    ensures Room(s', r, worker, global)
  {
    var answered := Caller(r).(phase := Answered(FetchNow(s, r)));
    var leaving := Caller(r).(phase := Leaving(true), owes := false);
    OneMoves(s, id, Caller(r), Answer, answered);
    var mid := ActStep(s, id, Answer);
    OneMoves(mid, id, answered, Stream, leaving);
    s' := ActStep(mid, id, Stream);
    BecomesTwice(s, mid, s', id, answered, leaving);
  }

  lemma DropsPermits(s: State, id: nat, r: string, worker: nat, global: nat) returns (s': State)
    requires Has(s, id, Caller(r).(phase := Leaving(true), owes := false)) && Room(s, r, worker, global)
    ensures s' == Apply(Apply(s, Act(id, Unwind)), Act(id, Unwind))
    ensures Becomes(s, s', id, Plain(r, Leaving(true))) && s'.nextId == s.nextId && Room(s', r, worker + 1, global + 1)
  {
    var both := Caller(r).(phase := Leaving(true), owes := false);
    var one := both.(worker := false);
    OneMoves(s, id, both, Unwind, one);
    var mid := ActStep(s, id, Unwind);
    OneMoves(mid, id, one, Unwind, Plain(r, Leaving(true)));
    s' := ActStep(mid, id, Unwind);
    BecomesTwice(s, mid, s', id, one, Plain(r, Leaving(true)));
  }

  lemma OnlyStreams(s: State, id: nat, r: string, worker: nat, global: nat) returns (s': State)
    requires Has(s, id, Plain(r, Leaving(true))) && Room(s, r, worker, global)
    ensures s' == Apply(s, Act(id, Unwind))
    ensures Becomes(s, s', id, Plain(r, Streaming)) && s'.nextId == s.nextId && Room(s', r, worker, global)
  {
    OneMoves(s, id, Plain(r, Leaving(true)), Unwind, Plain(r, Streaming));
    s' := ActStep(s, id, Unwind);
  }

  /** The moves of a caller whose answer is an event stream, until only the stream is left. */
  function PassOn(id: nat): seq<Action> {
    [Act(id, Answer), Act(id, Stream)] + [Act(id, Unwind), Act(id, Unwind)] + [Act(id, Unwind)]
  }

  lemma CallerStreams(s: State, id: nat, r: string, worker: nat, global: nat) returns (s': State)
    requires Has(s, id, Caller(r)) && Room(s, r, worker, global)
    ensures s' == Run(s, PassOn(id))
    ensures Becomes(s, s', id, Plain(r, Streaming)) && s'.nextId == s.nextId && Room(s', r, worker + 1, global + 1)
  {
    var passing := PassesStream(s, id, r, worker, global);
    RunTwo(s, Act(id, Answer), Act(id, Stream));
    var dropped := DropsPermits(passing, id, r, worker, global);
    TwoMore(s, [Act(id, Answer), Act(id, Stream)], Act(id, Unwind), Act(id, Unwind));
    BecomesTwice(s, passing, dropped, id, Caller(r).(phase := Leaving(true), owes := false), Plain(r, Leaving(true)));
    s' := OnlyStreams(dropped, id, r, worker + 1, global + 1);
    RunSnoc(s, [Act(id, Answer), Act(id, Stream)] + [Act(id, Unwind), Act(id, Unwind)], Act(id, Unwind));
    BecomesTwice(s, dropped, s', id, Plain(r, Leaving(true)), Plain(r, Streaming));
  }

  lemma OneMoreStreams(cfg: Config, before: seq<Action>, r: string, worker: nat, global: nat) returns (actions: seq<Action>)
    requires Room(Run(Init(cfg), before), r, worker + 1, global + 1)
    ensures var s, s' := Run(Init(cfg), before), Run(Init(cfg), actions);
            Becomes(s, s', s.nextId, Plain(r, Streaming)) && s'.nextId == s.nextId + 1 && Room(s', r, worker + 1, global + 1)
  {
    var s := Run(Init(cfg), before);
    var called := OneMoreCalls(cfg, before, r, worker, global);
    var calling := Run(Init(cfg), called);
    var streaming := CallerStreams(calling, s.nextId, r, worker, global);
    RunAppend(Init(cfg), called, PassOn(s.nextId));
    actions := called + PassOn(s.nextId);
    BecomesTwice(s, calling, streaming, s.nextId, Caller(r), Plain(r, Streaming));
  }

  lemma StreamersGrow(before: Requests, id: nat, r: string)
    requires id !in before
    ensures |Streamers(before[id := Plain(r, Streaming)], r)| == |Streamers(before, r)| + 1
  {
    assert Streamers(before[id := Plain(r, Streaming)], r) == Streamers(before, r) + {id};
  }

  /**
    "The permit covers the whole upstream call including the body read" fails for
    event streams: any number of them can be read at once while all permits are free.
   */
  lemma StreamsAreUnbounded(cfg: Config, r: string, n: nat) returns (actions: seq<Action>)
    ensures var s := Run(Init(cfg), actions);
            && |Streamers(s.requests, r)| == n
            && FreeOf(s.workerFree, r) == 16 && s.globalFree == 64
  {
    actions := [];
    assert Streamers(map[], r) == {};
    for k := 0 to n
      invariant var s := Run(Init(cfg), actions);
                |Streamers(s.requests, r)| == k && FreshIds(s) && Room(s, r, WORKER_CONCURRENCY, UPSTREAM_CONCURRENCY)
    {
      var s := Run(Init(cfg), actions);
      actions := OneMoreStreams(cfg, actions, r, WORKER_CONCURRENCY - 1, UPSTREAM_CONCURRENCY - 1);
      StreamersGrow(s.requests, s.nextId, r);
    }
  }
}
