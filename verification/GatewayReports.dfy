/**
  Reports of the gateway's requests to their circuits (apps/gateway/src/main.rs,
  fanout.rs), counted over whole runs: each granted call reports exactly once,
  unless its handler is dropped first.
 */
module GatewayReports {
  import opened Common
  import opened Gateway
  import opened Wrappers
  import Breaker
  import BreakerProbes

  /** What an action books with a circuit in the name of a request. */
  function Emitted(s: State, a: Action, id: nat): Option<Breaker.Event> {
    if a.Act? && a.id == id && Enabled(s, id, a.move) then Emits(s.requests[id], id, a.move) else None
  }

  predicate Granted(s: State, a: Action, id: nat) {
    && Emitted(s, a, id).Some? && Emitted(s, a, id).value.Admit?
    && var l := LedgerOf(s, s.requests[id].repo); Breaker.Grants(l.circuit, l.clock)
  }

  predicate Reported(s: State, a: Action, id: nat) {
    Emitted(s, a, id).Some? && Emitted(s, a, id).value.Report?
  }

  predicate Dropped(s: State, a: Action, id: nat) {
    Emitted(s, a, id).Some? && Emitted(s, a, id).value.Lose?
  }

  datatype Tally = Tally(grants: nat, reports: nat, drops: nat)

  function One(b: bool): nat {
    if b then 1 else 0
  }

  /** The grants, reports and drops of a request along a run from the start. */
  function TallyOf(cfg: Config, actions: seq<Action>, id: nat): Tally {
    if actions == [] then Tally(0, 0, 0) else
    var front, a := actions[..|actions| - 1], actions[|actions| - 1];
    var before, s := TallyOf(cfg, front, id), Run(Init(cfg), front);
    Tally(before.grants + One(Granted(s, a, id)), before.reports + One(Reported(s, a, id)), before.drops + One(Dropped(s, a, id)))
  }

  function Owed(s: State, id: nat): nat {
    One(id in s.requests && s.requests[id].owes)
  }

  lemma RunSnoc(s: State, actions: seq<Action>, a: Action)
    ensures Run(s, actions + [a]) == Apply(Run(s, actions), a)
  {
    RunAppend(s, actions, [a]);
    RunOne(Run(s, actions), a);
  }

  // ----- Balance -----

  lemma OwedByMove(s: State, id: nat, m: Move)
    requires Inv(s) && Enabled(s, id, m)
    ensures var a := Act(id, m);
            Owed(Apply(s, a), id) + One(Reported(s, a, id)) + One(Dropped(s, a, id)) == Owed(s, id) + One(Granted(s, a, id))
  {
    OwesChange(s, id, s.requests[id], m);
  }

  /** The request is as before, or has just arrived, owing nothing and having asked nothing. */
  predicate Untouched(before: Requests, after: Requests, newest: nat, id: nat) {
    && (id in before ==> id in after && after[id] == before[id])
    && (id in after && id !in before ==> id == newest && !after[id].owes && Rank(after[id]) >= 10)
  }

  lemma UntouchedByMove(s: State, mover: nat, m: Move, id: nat)
    requires mover != id || !Enabled(s, mover, m)
    ensures Untouched(s.requests, ActStep(s, mover, m).requests, s.nextId, id) && ActStep(s, mover, m).nextId == s.nextId
  {
    if Enabled(s, mover, m) { OtherMove(s.requests, mover, NextRequest(s, mover, s.requests[mover], m), id); }
  }

  lemma UntouchedByArrival(s: State, repo: string, digest: Option<string>, fanout: bool, id: nat)
    requires Shape(s)
    ensures var s' := ArriveStep(s, repo, digest, fanout);
            Untouched(s.requests, s'.requests, s.nextId, id) && s'.nextId >= s.nextId
  {
  }

  lemma PushesKeepIds(s: State, a: Action)
    requires !a.Act? && !a.Arrive?
    ensures Apply(s, a).nextId == s.nextId
  {
  }

  /** Only its own moves change a request. */
  lemma OthersUntouched(s: State, a: Action, id: nat)
    requires Inv(s) && !(a.Act? && a.id == id && Enabled(s, id, a.move))
    ensures Untouched(s.requests, Apply(s, a).requests, s.nextId, id) && Apply(s, a).nextId >= s.nextId
  {
    match a
    case Act(mover, m) => UntouchedByMove(s, mover, m, id);
    case Arrive(repo, digest, fanout) => UntouchedByArrival(s, repo, digest, fanout, id);
    case _ =>
      PushesTouchNoRequest(s, a);
      PushesKeepIds(s, a);
  }

  lemma OtherMove(requests: Requests, mover: nat, q': Option<Request>, id: nat)
    requires mover != id
    ensures var after := Replaced(requests, mover, q');
            (id in after <==> id in requests) && (id in requests ==> after[id] == requests[id])
  {
  }

  /** A grant makes a debt, a report or a drop settles one, and nothing else does either. */
  lemma OwedStep(s: State, a: Action, id: nat)
    requires Inv(s)
    ensures Owed(Apply(s, a), id) + One(Reported(s, a, id)) + One(Dropped(s, a, id)) == Owed(s, id) + One(Granted(s, a, id))
  {
    if a.Act? && a.id == id && Enabled(s, id, a.move) {
      OwedByMove(s, id, a.move);
    } else {
      OthersUntouched(s, a, id);
    }
  }

  lemma Prefix(cfg: Config, actions: seq<Action>) returns (front: seq<Action>, a: Action, before: State)
    requires actions != [] && cfg.breaker.threshold <= U32_MAX
    ensures front == actions[..|actions| - 1] && a == actions[|actions| - 1] && before == Run(Init(cfg), front)
    ensures Inv(before) && Run(Init(cfg), actions) == Apply(before, a)
  {
    front, a := actions[..|actions| - 1], actions[|actions| - 1];
    before := Run(Init(cfg), front);
    ReachableInv(before, cfg, front);
    RunSnoc(Init(cfg), front, a);
    assert front + [a] == actions;
  }

  /** Over every run: grants are the reports, the drops, and the debt still open. */
  lemma {:induction false} GrantsAreAccounted(cfg: Config, actions: seq<Action>, id: nat)
    requires cfg.breaker.threshold <= U32_MAX
    ensures var tally := TallyOf(cfg, actions, id);
            tally.grants == tally.reports + tally.drops + Owed(Run(Init(cfg), actions), id)
    decreases |actions|
  {
    if actions != [] {
      var front, a, before := Prefix(cfg, actions);
      GrantsAreAccounted(cfg, front, id);
      OwedStep(before, a, id);
    }
  }

  // ----- At most one grant -----

  /** A request that has not asked its circuit yet. */
  predicate Unasked(s: State, id: nat) {
    if id in s.requests then Rank(s.requests[id]) >= 10 else id >= s.nextId
  }

  lemma AsksAtTen(q: Request, id: nat, m: Move)
    requires m.Admit? ==> q.phase.Admissible?
    ensures Emits(q, id, m).Some? && Emits(q, id, m).value.Admit? ==> Rank(q) == 10
  {
  }

  lemma AfterMove(s: State, id: nat, m: Move)
    requires Enabled(s, id, m)
    ensures Apply(s, Act(id, m)).requests == Replaced(s.requests, id, NextRequest(s, id, s.requests[id], m))
    ensures Apply(s, Act(id, m)).nextId == s.nextId
  {
  }

  lemma UnaskedByMove(s: State, id: nat, m: Move)
    requires Inv(s) && Enabled(s, id, m)
    ensures Granted(s, Act(id, m), id) ==> Unasked(s, id) && !Unasked(Apply(s, Act(id, m)), id)
    ensures Unasked(Apply(s, Act(id, m)), id) ==> Unasked(s, id)
  {
    var q := s.requests[id];
    assert RequestOk(q) && id < s.nextId;
    AsksAtTen(q, id, m);
    AfterMove(s, id, m);
    MovesDescend(s, id, q, m);
  }

  lemma UnaskedStep(s: State, a: Action, id: nat)
    requires Inv(s)
    ensures Granted(s, a, id) ==> Unasked(s, id) && !Unasked(Apply(s, a), id)
    ensures Unasked(Apply(s, a), id) ==> Unasked(s, id)
  {
    if a.Act? && a.id == id && Enabled(s, id, a.move) {
      UnaskedByMove(s, id, a.move);
    } else {
      OthersUntouched(s, a, id);
    }
  }

  lemma {:induction false} GrantedAtMostOnce(cfg: Config, actions: seq<Action>, id: nat)
    requires cfg.breaker.threshold <= U32_MAX
    ensures TallyOf(cfg, actions, id).grants <= One(!Unasked(Run(Init(cfg), actions), id))
    decreases |actions|
  {
    if actions != [] {
      var front, a, before := Prefix(cfg, actions);
      GrantedAtMostOnce(cfg, front, id);
      UnaskedStep(before, a, id);
    }
  }

  // ----- Runs in which no handler is dropped -----

  predicate Aborts(a: Action) {
    a.Act? && a.move.Abort?
  }

  predicate NoAbort(actions: seq<Action>) {
    forall i :: 0 <= i < |actions| ==> !Aborts(actions[i])
  }

  ghost predicate LosslessIn(ledgers: map<string, Breaker.Ledger>) {
    forall r :: r in ledgers ==> ledgers[r].losses == 0
  }

  ghost predicate Lossless(s: State) {
    LosslessIn(s.ledgers)
  }

  lemma LossesKept(l: Breaker.Ledger, cfg: Breaker.Config, e: Breaker.Event)
    requires !e.Lose?
    ensures Breaker.Step(l, cfg, e).losses == l.losses
  {
  }

  lemma LosslessEvent(s: State, id: nat, q: Request, m: Move)
    requires LosslessIn(s.ledgers) && !m.Abort?
    ensures LosslessIn(NextLedgers(s, id, q, m))
  {
    if Emits(q, id, m).Some? {
      LossesKept(LedgerOf(s, q.repo), s.cfg.breaker, Emits(q, id, m).value);
    }
  }

  lemma LosslessByMove(s: State, id: nat, m: Move)
    requires Lossless(s) && Enabled(s, id, m) && !m.Abort?
    ensures Lossless(ActStep(s, id, m))
  {
    LosslessEvent(s, id, s.requests[id], m);
    assert ActStep(s, id, m).ledgers == NextLedgers(s, id, s.requests[id], m);
  }

  lemma LosslessStep(s: State, a: Action)
    requires Lossless(s) && !Aborts(a)
    ensures Lossless(Apply(s, a))
  {
    match a
    case Act(id, m) => if Enabled(s, id, m) { LosslessByMove(s, id, m); }
    case Tick(d) =>
      forall r | r in s.ledgers ensures Breaker.Step(s.ledgers[r], s.cfg.breaker, Breaker.Tick(d)).losses == 0 {
        LossesKept(s.ledgers[r], s.cfg.breaker, Breaker.Tick(d));
      }
    case _ =>
  }

  /** Unless a handler is dropped no circuit misses a report. */
  lemma {:induction false} NothingLostWithoutAbort(cfg: Config, actions: seq<Action>, r: string)
    requires cfg.breaker.threshold <= U32_MAX && NoAbort(actions)
    ensures LedgerOf(Run(Init(cfg), actions), r).losses == 0
    ensures forall id :: TallyOf(cfg, actions, id).drops == 0
  {
    AllLossless(cfg, actions);
    forall id ensures TallyOf(cfg, actions, id).drops == 0 {
      NoDrops(cfg, actions, id);
    }
  }

  lemma {:induction false} AllLossless(cfg: Config, actions: seq<Action>)
    requires cfg.breaker.threshold <= U32_MAX && NoAbort(actions)
    ensures Lossless(Run(Init(cfg), actions))
    decreases |actions|
  {
    if actions != [] {
      var front, a, before := Prefix(cfg, actions);
      AllLossless(cfg, front);
      LosslessStep(before, a);
    }
  }

  lemma {:induction false} NoDrops(cfg: Config, actions: seq<Action>, id: nat)
    requires NoAbort(actions)
    ensures TallyOf(cfg, actions, id).drops == 0
    decreases |actions|
  {
    if actions != [] {
      NoDrops(cfg, actions[..|actions| - 1], id);
    }
  }

  /**
    In a run without an abort every request is granted at most once, and a granted
    request has reported exactly once by the time it is gone; while it lives it has
    reported exactly when it owes nothing.
   */
  lemma ReportedExactlyOnce(cfg: Config, actions: seq<Action>, id: nat)
    requires cfg.breaker.threshold <= U32_MAX && NoAbort(actions)
    ensures var tally, s := TallyOf(cfg, actions, id), Run(Init(cfg), actions);
            && tally.grants <= 1
            && (id !in s.requests ==> tally.reports == tally.grants)
            && (id in s.requests && tally.grants == 1 ==> tally.reports == if s.requests[id].owes then 0 else 1)
            && (tally.grants == 0 ==> tally.reports == 0)
  {
    GrantsAreAccounted(cfg, actions, id);
    GrantedAtMostOnce(cfg, actions, id);
    NoDrops(cfg, actions, id);
  }

  /** In a run without an abort, once the live requests owe a circuit nothing and its deadline has passed, the next admit is granted. */
  lemma NotStrandedWithoutAbort(cfg: Config, actions: seq<Action>, r: string)
    requires cfg.breaker.threshold <= U32_MAX && NoAbort(actions)
    ensures var s := Run(Init(cfg), actions);
            var l := LedgerOf(s, r);
            Owing(s.requests, r) == {} && (l.circuit.openUntil.Some? ==> l.circuit.openUntil.value <= s.clock)
            ==> Breaker.Grants(l.circuit, l.clock)
  {
    NothingLostWithoutAbort(cfg, actions, r);
    LedgerIsTheRequests(Run(Init(cfg), actions), cfg, actions, r);
  }

  /** In every reachable state a circuit can never grant again exactly when it is open, its permit is taken and no live request owes it a report. */
  lemma StrandedCircuitExactly(s: State, cfg: Config, actions: seq<Action>, r: string)
    requires Reachable(s, cfg, actions)
    ensures var c := LedgerOf(s, r).circuit;
            BreakerProbes.NeverGrants(LedgerOf(s, r), s.cfg.breaker) <==>
            c.openUntil.Some? && c.probing && Owing(s.requests, r) == {}
  {
    LedgerIsTheRequests(s, cfg, actions, r);
    BreakerProbes.StrandedExactly(LedgerOf(s, r), s.cfg.breaker);
  }
}
