/**
  What an answer reports to its worker's circuit (apps/gateway/src/main.rs,
  fanout.rs), told by HTTP status and by outcome, and what the circuit makes of it
  over every run of the gateway.
 */
module GatewayVerdicts {
  import opened Common
  import opened Gateway
  import opened GatewayReports
  import opened Wrappers
  import Breaker
  import BreakerProbes

  /** The circuit after a success. */
  predicate ClosedAnew(c: Breaker.Circuit) {
    c.failures == 0 && c.openUntil == None && !c.probing
  }

  /** The circuit after one more failure, at a time and with the breaker's configuration. */
  predicate OneMoreFailure(before: Breaker.Circuit, after: Breaker.Circuit, cfg: Breaker.Config, now: nat) {
    && after.failures == Min(before.failures + 1, 4294967295) && !after.probing
    && after.openUntil ==
         if before.openUntil.Some? || after.failures >= cfg.threshold then Some(now + cfg.cooldown) else None
  }

  /** What a report does to the circuit of the request's repository. */
  predicate Verdict(s: State, s': State, r: string, healthy: bool) {
    var before, after := LedgerOf(s, r).circuit, LedgerOf(s', r).circuit;
    if healthy then ClosedAnew(after) else OneMoreFailure(before, after, s.cfg.breaker, s.clock)
  }

  lemma ReportDecides(l: Breaker.Ledger, cfg: Breaker.Config, call: nat, ok: bool)
    requires Breaker.Inv(l, cfg) && call in l.outstanding
    ensures var c := Breaker.Step(l, cfg, Breaker.Report(call, ok)).circuit;
            if ok then ClosedAnew(c) else OneMoreFailure(l.circuit, c, cfg, l.clock)
  {
  }

  lemma BookedVerdict(s: State, id: nat, m: Move, ok: bool)
    requires Inv(s) && Enabled(s, id, m) && Emits(s.requests[id], id, m) == Some(Breaker.Report(id, ok))
    ensures Verdict(s, Apply(s, Act(id, m)), s.requests[id].repo, ok)
  {
    var q := s.requests[id];
    var l := LedgerOf(s, q.repo);
    EmissionIsDue(s, id, m);
    assert BookOk(s.cfg.breaker, s.clock, LedgerIn(s.ledgers, s.clock, q.repo), Owing(s.requests, q.repo));
    ReportDecides(l, s.cfg.breaker, id, ok);
    assert Apply(s, Act(id, m)).ledgers == NextLedgers(s, id, q, m);
  }

  /** A whole answer reports by its status: 500 to 599 is a failure, anything else a success. */
  lemma AnswerReportsByStatus(s: State, id: nat, status: nat)
    requires Inv(s) && id in s.requests && s.requests[id].phase.Answered?
    ensures Verdict(s, Apply(s, Act(id, Finish(status))), s.requests[id].repo, status < 500 || status > 599)
  {
    BookedVerdict(s, id, Finish(status), status < 500 || status > 599);
  }

  /** A call that cannot be made, or whose answer breaks off, is a failure. */
  lemma BrokenCallReportsFailure(s: State, id: nat)
    requires Inv(s) && id in s.requests && !s.requests[id].fanout
    requires s.requests[id].phase.Calling? || s.requests[id].phase.Answered?
    ensures Verdict(s, Apply(s, Act(id, Fail)), s.requests[id].repo, false)
  {
    BookedVerdict(s, id, Fail, false);
  }

  /** An event stream is a success as soon as it starts. */
  lemma StreamReportsSuccess(s: State, id: nat)
    requires Inv(s) && id in s.requests && s.requests[id].phase.Answered?
    ensures Verdict(s, Apply(s, Act(id, Stream)), s.requests[id].repo, true)
  {
    BookedVerdict(s, id, Stream, true);
  }

  lemma AbortMoves(s: State, id: nat)
    requires id in s.requests && s.requests[id].owes && !s.requests[id].phase.Leaving? && !s.requests[id].phase.Streaming?
    ensures var q, s' := s.requests[id], Apply(s, Act(id, Abort));
            && s'.requests == s.requests[id := q.(phase := Leaving(false), owes := false)]
            && LedgerOf(s', q.repo) == Breaker.Step(LedgerOf(s, q.repo), s.cfg.breaker, Breaker.Lose(id))
  {
    LedgerAfterMove(s, id, Abort, s.requests[id].repo);
  }

  lemma OneLessOwing(requests: Requests, id: nat, q: Request)
    requires id in requests && requests[id].owes && !q.owes && q.repo == requests[id].repo
    ensures id in Owing(requests, q.repo)
    ensures Owing(requests[id := q], q.repo) == Owing(requests, q.repo) - {id}
  {
  }

  lemma StrandedByInv(s: State, r: string)
    requires Inv(s)
    ensures var l := LedgerOf(s, r);
            BreakerProbes.NeverGrants(l, s.cfg.breaker) <==>
            l.circuit.openUntil.Some? && l.circuit.probing && Owing(s.requests, r) == {}
  {
    assert BookOk(s.cfg.breaker, s.clock, LedgerIn(s.ledgers, s.clock, r), Owing(s.requests, r));
    BreakerProbes.StrandedExactly(LedgerOf(s, r), s.cfg.breaker);
  }

  /**
    A cancelled call reports nothing and leaves the circuit as it was.  It strands the
    circuit for good exactly when a probe is out and no other report is owed.
   */
  lemma AbortStrandsExactly(s: State, id: nat)
    requires Inv(s) && id in s.requests && s.requests[id].owes
    requires !s.requests[id].phase.Leaving? && !s.requests[id].phase.Streaming?
    ensures var q, s' := s.requests[id], Apply(s, Act(id, Abort));
            var c := LedgerOf(s, q.repo).circuit;
            && s'.requests == s.requests[id := q.(phase := Leaving(false), owes := false)]
            && LedgerOf(s', q.repo).circuit == c
            && (BreakerProbes.NeverGrants(LedgerOf(s', q.repo), s.cfg.breaker) <==>
                c.openUntil.Some? && c.probing && Owing(s.requests, q.repo) == {id})
  {
    var q, s' := s.requests[id], Apply(s, Act(id, Abort));
    AbortMoves(s, id);
    StepKeepsInv(s, Act(id, Abort));
    StepKeepsCfg(s, Act(id, Abort));
    StrandedByInv(s', q.repo);
    OneLessOwing(s.requests, id, q.(phase := Leaving(false), owes := false));
  }

  /** The fan-out's moves from the outcome of its call to its report. */
  function ConcludeAndReport(id: nat, ok: bool): seq<Action> {
    [Act(id, Conclude(ok)), Act(id, Unwind)] + [Act(id, Unwind), Act(id, Unwind)]
  }

  lemma DropsOnlyPermits(s: State, id: nat) returns (s': State)
    requires Inv(s) && id in s.requests && s.requests[id].phase.Leaving?
    requires s.requests[id].worker && s.requests[id].global && s.requests[id].owes
    ensures s' == Apply(Apply(s, Act(id, Unwind)), Act(id, Unwind))
    ensures Inv(s') && s'.ledgers == s.ledgers && s'.clock == s.clock && s'.cfg == s.cfg
    ensures id in s'.requests && s'.requests[id] == s.requests[id].(worker := false, global := false)
  {
    var mid := ActStep(s, id, Unwind);
    assert mid.requests[id] == s.requests[id].(worker := false);
    StepKeepsInv(s, Act(id, Unwind));
    s' := ActStep(mid, id, Unwind);
    StepKeepsInv(mid, Act(id, Unwind));
  }

  lemma Concludes(s: State, id: nat, ok: bool) returns (s': State)
    requires Inv(s) && id in s.requests && s.requests[id].phase.Calling? && s.requests[id].fanout
    ensures s' == Apply(s, Act(id, Conclude(ok)))
    ensures Inv(s') && s'.ledgers == s.ledgers && s'.clock == s.clock && s'.cfg == s.cfg
    ensures id in s'.requests && s'.requests[id] == s.requests[id].(phase := Leaving(false), verdict := Some(ok))
    ensures s'.requests[id].worker && s'.requests[id].global && s'.requests[id].owes
  {
    assert RequestOk(s.requests[id]);
    StepKeepsInv(s, Act(id, Conclude(ok)));
    s' := ActStep(s, id, Conclude(ok));
  }

  /** A fan-out call reports the outcome it concluded with, after both its permits are gone. */
  lemma FanoutReportsItsOutcome(s: State, id: nat, ok: bool)
    requires Inv(s) && id in s.requests && s.requests[id].phase.Calling? && s.requests[id].fanout
    ensures Verdict(s, Run(s, ConcludeAndReport(id, ok)), s.requests[id].repo, ok)
    ensures !HoldsPermit(Run(s, [Act(id, Conclude(ok)), Act(id, Unwind), Act(id, Unwind)]), id)
  {
    var leaving := Concludes(s, id, ok);
    var bare := DropsOnlyPermits(leaving, id);
    BookedVerdict(bare, id, Unwind, ok);
    FourSteps(s, id, ok);
  }

  predicate HoldsPermit(s: State, id: nat) {
    id in s.requests && (s.requests[id].worker || s.requests[id].global)
  }

  lemma FourSteps(s: State, id: nat, ok: bool)
    ensures var three := Apply(Apply(Apply(s, Act(id, Conclude(ok))), Act(id, Unwind)), Act(id, Unwind));
            && Run(s, [Act(id, Conclude(ok)), Act(id, Unwind), Act(id, Unwind)]) == three
            && Run(s, ConcludeAndReport(id, ok)) == Apply(three, Act(id, Unwind))
  {
    var a, u := Act(id, Conclude(ok)), Act(id, Unwind);
    RunTwo(s, a, u);
    RunSnoc(s, [a, u], u);
    assert [a, u] + [u] == [a, u, u];
    RunTwo(Run(s, [a, u]), u, u);
    RunAppend(s, [a, u], [u, u]);
  }

  // ----- Over every run -----

  /** The outcome an action reports to the circuit of a repository, if it reports one. */
  function OutcomeOf(s: State, a: Action, r: string): Option<bool> {
    if !a.Act? || !Enabled(s, a.id, a.move) || s.requests[a.id].repo != r then None else
    var q := s.requests[a.id];
    match a.move
    case Finish(status) => Some(status < 500 || status > 599)
    case Fail => Some(false)
    case Stream => Some(true)
    case Unwind => if !q.worker && !q.global && q.owes then q.verdict else None
    case _ => None
  }

  /** The outcomes reported to a repository's circuit along a run from the start, oldest first. */
  function Outcomes(cfg: Config, actions: seq<Action>, r: string): seq<bool> {
    if actions == [] then [] else
    var front, a := actions[..|actions| - 1], actions[|actions| - 1];
    Outcomes(cfg, front, r) +
    match OutcomeOf(Run(Init(cfg), front), a, r)
    case None => []
    case Some(ok) => [ok]
  }

  /** The failures of a circuit count the unbroken failures at the end of the reported outcomes. */
  predicate Follows(c: Breaker.Circuit, outcomes: seq<bool>) {
    c.failures == Breaker.Counted(Breaker.TrailingFailures(outcomes))
  }

  lemma FollowsReport(before: Breaker.Circuit, after: Breaker.Circuit, cfg: Breaker.Config, now: nat, outcomes: seq<bool>, ok: bool)
    requires Follows(before, outcomes)
    requires if ok then ClosedAnew(after) else OneMoreFailure(before, after, cfg, now)
    ensures Follows(after, outcomes + [ok])
  {
    Breaker.TrailingSnoc(outcomes, ok);
  }

  lemma QuietEvent(l: Breaker.Ledger, cfg: Breaker.Config, e: Breaker.Event)
    requires !e.Report?
    ensures Breaker.Step(l, cfg, e).circuit.failures == l.circuit.failures
  {
  }

  /** What a move emits is its outcome, or leaves the failures alone. */
  lemma EmittedOutcome(s: State, id: nat, m: Move)
    requires Inv(s) && Enabled(s, id, m)
    ensures var q := s.requests[id];
            match OutcomeOf(s, Act(id, m), q.repo)
            case Some(ok) => Emits(q, id, m) == Some(Breaker.Report(id, ok))
            case None => Emits(q, id, m).None? || !Emits(q, id, m).value.Report?
  {
    assert RequestOk(s.requests[id]);
  }

  lemma LedgerAfterMove(s: State, id: nat, m: Move, r: string)
    requires Enabled(s, id, m)
    ensures var q := s.requests[id];
            var e := Emits(q, id, m);
            LedgerOf(Apply(s, Act(id, m)), r) ==
              if q.repo == r && e.Some? then Breaker.Step(LedgerOf(s, r), s.cfg.breaker, e.value) else LedgerOf(s, r)
  {
    assert ActStep(s, id, m).ledgers == NextLedgers(s, id, s.requests[id], m);
  }

  lemma FollowsMove(s: State, id: nat, m: Move, r: string, outcomes: seq<bool>)
    requires Inv(s) && Enabled(s, id, m) && Follows(LedgerOf(s, r).circuit, outcomes)
    ensures Follows(LedgerOf(Apply(s, Act(id, m)), r).circuit,
                    match OutcomeOf(s, Act(id, m), r) case None => outcomes case Some(ok) => outcomes + [ok])
  {
    LedgerAfterMove(s, id, m, r);
    if s.requests[id].repo == r { FollowsOwnMove(s, id, m, outcomes); }
  }

  lemma FollowsOwnMove(s: State, id: nat, m: Move, outcomes: seq<bool>)
    requires Inv(s) && Enabled(s, id, m) && Follows(LedgerOf(s, s.requests[id].repo).circuit, outcomes)
    ensures var r := s.requests[id].repo;
            Follows(LedgerOf(Apply(s, Act(id, m)), r).circuit,
                    match OutcomeOf(s, Act(id, m), r) case None => outcomes case Some(ok) => outcomes + [ok])
  {
    var q := s.requests[id];
    LedgerAfterMove(s, id, m, q.repo);
    EmittedOutcome(s, id, m);
    match OutcomeOf(s, Act(id, m), q.repo)
    case Some(ok) =>
      BookedVerdict(s, id, m, ok);
      FollowsReport(LedgerOf(s, q.repo).circuit, LedgerOf(Apply(s, Act(id, m)), q.repo).circuit, s.cfg.breaker, s.clock, outcomes, ok);
    case None =>
      if Emits(q, id, m).Some? { QuietEvent(LedgerOf(s, q.repo), s.cfg.breaker, Emits(q, id, m).value); }
  }

  lemma FollowsOther(s: State, a: Action, r: string, outcomes: seq<bool>)
    requires !a.Act? && Follows(LedgerOf(s, r).circuit, outcomes)
    ensures Follows(LedgerOf(Apply(s, a), r).circuit, outcomes)
  {
    if a.Tick? {
      QuietEvent(LedgerOf(s, r), s.cfg.breaker, Breaker.Tick(a.elapsed));
    } else if !a.Arrive? {
      PushesTouchNoRequest(s, a);
    }
  }

  lemma FollowsStep(s: State, a: Action, r: string, outcomes: seq<bool>)
    requires Inv(s) && Follows(LedgerOf(s, r).circuit, outcomes)
    ensures Follows(LedgerOf(Apply(s, a), r).circuit,
                    outcomes + match OutcomeOf(s, a, r) case None => [] case Some(ok) => [ok])
  {
    assert outcomes + [] == outcomes;
    if a.Act? {
      if Enabled(s, a.id, a.move) { FollowsMove(s, a.id, a.move, r, outcomes); }
    } else {
      FollowsOther(s, a, r, outcomes);
    }
  }

  lemma {:induction false} CircuitFollows(cfg: Config, actions: seq<Action>, r: string)
    requires cfg.breaker.threshold <= U32_MAX
    ensures Follows(LedgerOf(Run(Init(cfg), actions), r).circuit, Outcomes(cfg, actions, r))
    decreases |actions|
  {
    if actions != [] {
      var front, a, before := Prefix(cfg, actions);
      CircuitFollows(cfg, front, r);
      FollowsStep(before, a, r, Outcomes(cfg, front, r));
    }
  }

  /** The last n outcomes are failures, and there are that many. */
  predicate EndsInFailures(outcomes: seq<bool>, n: nat) {
    n <= |outcomes| && forall i :: |outcomes| - n <= i < |outcomes| ==> !outcomes[i]
  }

  lemma {:induction false} TrailingExactly(outcomes: seq<bool>, n: nat)
    ensures Breaker.TrailingFailures(outcomes) >= n <==> EndsInFailures(outcomes, n)
    decreases |outcomes|
  {
    if outcomes != [] && n > 0 {
      var front := outcomes[..|outcomes| - 1];
      TrailingExactly(front, n - 1);
      assert EndsInFailures(outcomes, n) <==> !outcomes[|outcomes| - 1] && EndsInFailures(front, n - 1);
    }
  }

  /**
    Over every run a worker's circuit is open exactly when its last `threshold`
    outcomes, at least one, were failures: answers of 500 to 599, broken calls, or
    fan-out calls that concluded with a failure.
   */
  lemma CircuitIsOpenExactly(cfg: Config, actions: seq<Action>, r: string)
    requires cfg.breaker.threshold <= U32_MAX
    ensures LedgerOf(Run(Init(cfg), actions), r).circuit.openUntil.Some? <==>
            EndsInFailures(Outcomes(cfg, actions, r), if cfg.breaker.threshold == 0 then 1 else cfg.breaker.threshold)
  {
    var s := Run(Init(cfg), actions);
    var needed := if cfg.breaker.threshold == 0 then 1 else cfg.breaker.threshold;
    ReachableInv(s, cfg, actions);
    RunKeepsCfg(Init(cfg), actions);
    CircuitFollows(cfg, actions, r);
    TrailingExactly(Outcomes(cfg, actions, r), needed);
    assert BookOk(s.cfg.breaker, s.clock, LedgerIn(s.ledgers, s.clock, r), Owing(s.requests, r));
  }

  lemma StepKeepsCfg(s: State, a: Action)
    ensures Apply(s, a).cfg == s.cfg
  {
  }

  lemma {:induction false} RunKeepsCfg(s: State, actions: seq<Action>)
    ensures Run(s, actions).cfg == s.cfg
    decreases |actions|
  {
    if actions != [] {
      StepKeepsCfg(s, actions[0]);
      RunKeepsCfg(Apply(s, actions[0]), actions[1..]);
    }
  }
}
