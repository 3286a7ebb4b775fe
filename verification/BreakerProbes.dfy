/**
  Exact conditions for the circuit (apps/gateway/src/breaker.rs): how many probes an
  opening can have out, and when a circuit never grants again.
 */
module BreakerProbes {
  import opened Common
  import opened Breaker
  import opened Wrappers

  /** The event opens the circuit. */
  predicate Opens(l: Ledger, cfg: Config, e: Event) {
    l.circuit.openUntil.None? && Step(l, cfg, e).circuit.openUntil.Some?
  }

  lemma OpeningIsFresh(l: Ledger, cfg: Config, e: Event)
    requires Inv(l, cfg) && Opens(l, cfg, e)
    ensures var l' := Step(l, cfg, e);
            Probes(l') == {} && !l'.circuit.probing && l'.atOpening == |l'.stragglers|
  {
  }

  lemma OpenStep(l: Ledger, cfg: Config, e: Event)
    requires l.circuit.openUntil.Some? && !(e.Report? && e.ok)
    ensures Step(l, cfg, e).circuit.openUntil.Some? && Step(l, cfg, e).atOpening == l.atOpening
  {
  }

  /** Without a success a circuit stays open, and its probes number at most the calls out at its opening plus one. */
  lemma {:induction false} ProbesStayBounded(l: Ledger, cfg: Config, events: seq<Event>)
    requires Inv(l, cfg) && cfg.threshold <= U32_MAX && l.circuit.openUntil.Some? && NoSuccess(events)
    ensures |Probes(Run(l, cfg, events))| <= l.atOpening + 1
    decreases |events|
  {
    if events != [] {
      assert events[0] in events;
      OpenStep(l, cfg, events[0]);
      StepKeepsInv(l, cfg, events[0]);
      assert NoSuccess(events[1..]);
      ProbesStayBounded(Step(l, cfg, events[0]), cfg, events[1..]);
    }
  }

  lemma {:induction false} NewCall(calls: set<nat>) returns (call: nat)
    ensures forall c :: c in calls ==> c < call
    decreases |calls|
  {
    call := 0;
    if calls != {} {
      var c :| c in calls;
      call := NewCall(calls - {c});
      assert calls == calls - {c} + {c};
      if call <= c { call := c + 1; }
    }
  }

  lemma TwoSteps(l: Ledger, cfg: Config, first: Event, second: Event)
    ensures Run(l, cfg, [first, second]) == Step(Step(l, cfg, first), cfg, second)
  {
    var none: seq<Event> := [];
    assert [first, second][1..] == [second] && [second][1..] == none;
    assert Run(Step(l, cfg, first), cfg, [second]) == Step(Step(l, cfg, first), cfg, second);
  }

  /** Past its deadline and with its permit free, an open circuit grants a probe. */
  lemma ProbeGranted(l: Ledger, cfg: Config, call: nat)
    requires Inv(l, cfg) && cfg.threshold <= U32_MAX && l.circuit.openUntil.Some? && !l.circuit.probing
    requires l.circuit.openUntil.value <= l.clock && call !in l.outstanding
    ensures var l' := Step(l, cfg, Admit(call));
            && Inv(l', cfg) && l'.circuit.openUntil.Some? && l'.stragglers == l.stragglers
            && |Probes(l')| == |Probes(l)| + 1
  {
    StepKeepsInv(l, cfg, Admit(call));
    assert Probes(Step(l, cfg, Admit(call))) == Probes(l) + {call};
  }

  /** Waiting out the deadline, an open circuit whose permit is free grants one more probe. */
  lemma OneMoreProbe(l: Ledger, cfg: Config) returns (events: seq<Event>)
    requires Inv(l, cfg) && cfg.threshold <= U32_MAX && l.circuit.openUntil.Some? && !l.circuit.probing
    ensures NoSuccess(events)
    ensures var l' := Run(l, cfg, events);
            && Inv(l', cfg) && l'.circuit.openUntil.Some? && l'.stragglers == l.stragglers
            && |Probes(l')| == |Probes(l)| + 1
  {
    var until := l.circuit.openUntil.value;
    var call := NewCall(l.outstanding);
    var wait := Tick(if until <= l.clock then 0 else until - l.clock);
    StepKeepsInv(l, cfg, wait);
    ProbeGranted(Step(l, cfg, wait), cfg, call);
    TwoSteps(l, cfg, wait, Admit(call));
    events := [wait, Admit(call)];
  }

  /** A call from before the opening fails: the probes stay out, and the permit is free again. */
  lemma StragglerFrees(l: Ledger, cfg: Config, call: nat)
    requires Inv(l, cfg) && cfg.threshold <= U32_MAX && l.circuit.openUntil.Some? && call in l.stragglers
    ensures var l' := Step(l, cfg, Report(call, false));
            && Inv(l', cfg) && l'.circuit.openUntil.Some? && !l'.circuit.probing
            && l'.stragglers == l.stragglers - {call} && Probes(l') == Probes(l)
  {
    StepKeepsInv(l, cfg, Report(call, false));
  }

  /** As many probes more as wanted, up to one more than the stragglers. */
  lemma {:induction false} ProbesReached(l: Ledger, cfg: Config, n: nat) returns (events: seq<Event>)
    requires Inv(l, cfg) && cfg.threshold <= U32_MAX && l.circuit.openUntil.Some? && !l.circuit.probing
    requires n <= |l.stragglers| + 1
    ensures NoSuccess(events) && |Probes(Run(l, cfg, events))| == |Probes(l)| + n
    decreases n
  {
    if n == 0 {
      events := [];
    } else {
      var first := OneMoreProbe(l, cfg);
      var probed := Run(l, cfg, first);
      if n == 1 {
        events := first;
      } else {
        var call :| call in l.stragglers;
        StragglerFrees(probed, cfg, call);
        var freed := Step(probed, cfg, Report(call, false));
        var rest := ProbesReached(freed, cfg, n - 1);
        events := first + ([Report(call, false)] + rest);
        RunAppend(l, cfg, first, [Report(call, false)] + rest);
        assert ([Report(call, false)] + rest)[1..] == rest;
      }
    }
  }

  /** Some run without a success has exactly n unreported probes. */
  ghost predicate ProbesPossible(l: Ledger, cfg: Config, n: nat) {
    exists events :: NoSuccess(events) && |Probes(Run(l, cfg, events))| == n
  }

  /**
    At every opening a run can reach, n probes can be out at once, without any
    success, exactly when n is at most one more than the calls still out.
   */
  lemma ProbesAtAnOpening(cfg: Config, before: seq<Event>, e: Event, n: nat)
    requires cfg.threshold <= U32_MAX && Opens(Run(EMPTY, cfg, before), cfg, e)
    ensures var l := Step(Run(EMPTY, cfg, before), cfg, e);
            ProbesPossible(l, cfg, n) <==> n <= |l.stragglers| + 1
  {
    var was := Run(EMPTY, cfg, before);
    var l := Step(was, cfg, e);
    RunKeepsInv(EMPTY, cfg, before);
    StepKeepsInv(was, cfg, e);
    OpeningIsFresh(was, cfg, e);
    if ProbesPossible(l, cfg, n) {
      var events :| NoSuccess(events) && |Probes(Run(l, cfg, events))| == n;
      ProbesStayBounded(l, cfg, events);
    }
    if n <= |l.stragglers| + 1 {
      var events := ProbesReached(l, cfg, n);
    }
  }

  /** "At most one probe at a time" holds of an opening exactly when no earlier call is still out. */
  lemma OneProbeExactlyWithoutStragglers(cfg: Config, before: seq<Event>, e: Event)
    requires cfg.threshold <= U32_MAX && Opens(Run(EMPTY, cfg, before), cfg, e)
    ensures var l := Step(Run(EMPTY, cfg, before), cfg, e);
            (forall events :: NoSuccess(events) ==> |Probes(Run(l, cfg, events))| <= 1) <==> l.stragglers == {}
  {
    var was := Run(EMPTY, cfg, before);
    var l := Step(was, cfg, e);
    RunKeepsInv(EMPTY, cfg, before);
    StepKeepsInv(was, cfg, e);
    OpeningIsFresh(was, cfg, e);
    if l.stragglers == {} {
      forall events | NoSuccess(events) ensures |Probes(Run(l, cfg, events))| <= 1 {
        ProbesStayBounded(l, cfg, events);
      }
    } else {
      ProbesAtAnOpening(cfg, before, e, 2);
    }
  }

  // ----- Stranded circuits -----

  /** The probe permit is taken, and no call is out that could free it. */
  predicate Stranded(l: Ledger) {
    l.circuit.openUntil.Some? && l.circuit.probing && l.outstanding == {}
  }

  /** Whatever happens next, no admit is granted. */
  ghost predicate NeverGrants(l: Ledger, cfg: Config) {
    forall events :: !Grants(Run(l, cfg, events).circuit, Run(l, cfg, events).clock)
  }

  lemma OneStep(l: Ledger, cfg: Config, e: Event)
    ensures Run(l, cfg, [e]) == Step(l, cfg, e)
  {
    assert [e][1..] == [];
  }

  /** Once an open circuit's permit is free, waiting out the deadline is enough. */
  lemma WaitsOut(l: Ledger, cfg: Config) returns (e: Event)
    requires !l.circuit.probing
    ensures Grants(Step(l, cfg, e).circuit, Step(l, cfg, e).clock)
  {
    match l.circuit.openUntil
    case None => e := Tick(0);
    case Some(until) => e := Tick(if until <= l.clock then 0 else until - l.clock);
  }

  lemma GrantsAgain(l: Ledger, cfg: Config) returns (events: seq<Event>)
    requires Inv(l, cfg) && !Stranded(l)
    ensures Grants(Run(l, cfg, events).circuit, Run(l, cfg, events).clock)
  {
    if l.circuit.probing {
      var call :| call in l.outstanding;
      var freed := Step(l, cfg, Report(call, false));
      var wait := WaitsOut(freed, cfg);
      TwoSteps(l, cfg, Report(call, false), wait);
      events := [Report(call, false), wait];
    } else {
      var wait := WaitsOut(l, cfg);
      OneStep(l, cfg, wait);
      events := [wait];
    }
  }

  /**
    A circuit never grants again exactly when it is open, its probe permit is taken
    and no call is out.
   */
  lemma StrandedExactly(l: Ledger, cfg: Config)
    requires Inv(l, cfg)
    ensures NeverGrants(l, cfg) <==> Stranded(l)
  {
    if Stranded(l) {
      forall events ensures !Grants(Run(l, cfg, events).circuit, Run(l, cfg, events).clock) {
        LostProbeStrands(l, cfg, events);
      }
    } else {
      var events := GrantsAgain(l, cfg);
    }
  }

  /** A closed circuit with nothing out: one more call is granted, and fails. */
  lemma OneMoreFailure(l: Ledger, cfg: Config)
    requires l.circuit.openUntil.None? && l.outstanding == {} && l.circuit.failures < U32_MAX
    ensures var l' := Run(l, cfg, [Admit(0), Report(0, false)]);
            && l'.circuit == AfterFailure(l.circuit, cfg, l.clock) && l'.outstanding == {} && l'.clock == l.clock
  {
    TwoSteps(l, cfg, Admit(0), Report(0, false));
    assert {} + {0} - {0} == {};
  }

  /** From the start: as many failures as the threshold open the circuit, with nothing out. */
  lemma OpenIsReached(cfg: Config) returns (events: seq<Event>)
    requires cfg.threshold <= U32_MAX
    ensures Run(EMPTY, cfg, events).circuit == Circuit(OpensAt(cfg), Some(cfg.cooldown), false)
    ensures Run(EMPTY, cfg, events).outstanding == {} && Run(EMPTY, cfg, events).clock == 0
  {
    events := [];
    for k := 0 to OpensAt(cfg)
      invariant var l := Run(EMPTY, cfg, events);
                && l.circuit.failures == k && !l.circuit.probing && l.outstanding == {} && l.clock == 0
                && l.circuit.openUntil == if k == OpensAt(cfg) then Some(cfg.cooldown) else None
    {
      OneMoreFailure(Run(EMPTY, cfg, events), cfg);
      RunAppend(EMPTY, cfg, events, [Admit(0), Report(0, false)]);
      events := events + [Admit(0), Report(0, false)];
    }
  }

  lemma ProbeIsLost(l: Ledger, cfg: Config, call: nat)
    requires l.circuit.openUntil.Some? && !l.circuit.probing && l.circuit.openUntil.value <= l.clock && l.outstanding == {}
    ensures Stranded(Run(l, cfg, [Admit(call), Lose(call)]))
  {
    TwoSteps(l, cfg, Admit(call), Lose(call));
    assert {} + {call} - {call} == {};
  }

  /** For every configuration a run from the start strands the circuit: its probe is granted and lost. */
  lemma StrandingIsReached(cfg: Config) returns (events: seq<Event>)
    requires cfg.threshold <= U32_MAX
    ensures Stranded(Run(EMPTY, cfg, events)) && NeverGrants(Run(EMPTY, cfg, events), cfg)
  {
    var failing := OpenIsReached(cfg);
    var open := Run(EMPTY, cfg, failing);
    var waited := Step(open, cfg, Tick(cfg.cooldown));
    OneStep(open, cfg, Tick(cfg.cooldown));
    RunAppend(EMPTY, cfg, failing, [Tick(cfg.cooldown)]);
    ProbeIsLost(waited, cfg, 0);
    RunAppend(EMPTY, cfg, failing + [Tick(cfg.cooldown)], [Admit(0), Lose(0)]);
    events := failing + [Tick(cfg.cooldown)] + [Admit(0), Lose(0)];
    RunKeepsInv(EMPTY, cfg, events);
    StrandedExactly(Run(EMPTY, cfg, events), cfg);
  }
}
