/**
  Per-worker circuit breakers (apps/gateway/src/breaker.rs).

  `Circuit` is the value of one circuit; `CircuitCell` and `Breakers` are the
  mutable objects of the source, proved against the value functions.  The
  `Ledger` adds what the circuit itself does not store: which granted calls have
  not reported yet.  Its theorems range over every interleaving of admits,
  reports, losses and clock ticks.
 */
module Breaker {
  import opened Common
  import opened Wrappers

  /** `openUntil` None: closed; in the future: open; in the past: half-open. */
  datatype Circuit = Circuit(failures: nat, openUntil: Option<nat>, probing: bool)

  const CLOSED := Circuit(0, None, false)

  datatype Config = Config(threshold: nat, cooldown: nat)

  predicate Grants(c: Circuit, now: nat) {
    match c.openUntil
    case None => true
    case Some(until) => until <= now && !c.probing
  }

  function AfterAdmit(c: Circuit, now: nat): Circuit {
    if c.openUntil.Some? && Grants(c, now) then c.(probing := true) else c
  }

  function AfterFailure(c: Circuit, cfg: Config, now: nat): Circuit {
    var failures := if c.failures < U32_MAX then c.failures + 1 else U32_MAX;
    var opens := c.openUntil.Some? || failures >= cfg.threshold;
    Circuit(failures, if opens then Some(now + cfg.cooldown) else c.openUntil, false)
  }

  datatype StateName = Closed | Open | HalfOpen

  function NameOf(c: Circuit, now: nat): StateName {
    match c.openUntil
    case None => Closed
    case Some(until) => if now < until then Open else HalfOpen
  }

  class CircuitCell {
    var failures: nat
    var openUntil: Option<nat>
    var probing: bool

    function Value(): Circuit
      reads this
    {
      Circuit(failures, openUntil, probing)
    }

    constructor ()
      ensures Value() == CLOSED
    {
      failures, openUntil, probing := 0, None, false;
    }

    method Admit(now: nat) returns (granted: bool)
      modifies this
      ensures granted == Grants(old(Value()), now)
      ensures Value() == AfterAdmit(old(Value()), now)
      ensures granted <==> openUntil.None? || (openUntil.value <= now && !old(probing))
      ensures failures == old(failures) && openUntil == old(openUntil)
      ensures probing <==> old(probing) || (granted && openUntil.Some?)
    {
      match openUntil
      case None =>
        granted := true;
      case Some(until) =>
        if now < until {
          granted := false;
        } else if probing {
          granted := false;
        } else {
          probing := true;
          granted := true;
        }
    }

    method Succeed()
      modifies this
      ensures Value() == CLOSED
      ensures failures == 0 && openUntil == None && !probing
    {
      failures := 0;
      openUntil := None;
      probing := false;
    }

    method Fail(cfg: Config, now: nat)
      modifies this
      ensures Value() == AfterFailure(old(Value()), cfg, now)
      ensures failures == if old(failures) < 4294967295 then old(failures) + 1 else 4294967295
      ensures !probing
      ensures openUntil == if old(openUntil).Some? || failures >= cfg.threshold then Some(now + cfg.cooldown) else None
    {
      failures := if failures < U32_MAX then failures + 1 else U32_MAX;
      probing := false;
      if openUntil.Some? || failures >= cfg.threshold {
        openUntil := Some(now + cfg.cooldown);
      }
    }
  }

  /** The registry: circuits are created by the first failure and never evicted. */
  class Breakers {
    var circuits: map<string, CircuitCell>
    const cfg: Config

    ghost predicate Valid()
      reads this
    {
      forall j, k :: j in circuits && k in circuits && j != k ==> circuits[j] != circuits[k]
    }

    /** The circuit of a key; an absent key behaves as a closed circuit. */
    function View(key: string): Circuit
      reads this, circuits.Values
    {
      if key in circuits then circuits[key].Value() else CLOSED
    }

    constructor (cfg: Config)
      ensures Valid() && this.cfg == cfg
      ensures forall key :: View(key) == CLOSED
    {
      this.cfg := cfg;
      circuits := map[];
    }

    method Admit(key: string, now: nat) returns (granted: bool)
      requires Valid()
      modifies circuits.Values
      ensures Valid()
      ensures granted == Grants(old(View(key)), now)
      ensures View(key) == AfterAdmit(old(View(key)), now)
      ensures forall other :: other != key ==> View(other) == old(View(other))
    {
      if key in circuits {
        granted := circuits[key].Admit(now);
      } else {
        granted := true;
      }
    }

    method OnSuccess(key: string)
      requires Valid()
      modifies circuits.Values
      ensures Valid()
      ensures View(key) == CLOSED
      ensures forall other :: other != key ==> View(other) == old(View(other))
    {
      if key in circuits {
        circuits[key].Succeed();
      }
    }

    method OnFailure(key: string, now: nat)
      requires Valid()
      modifies this, circuits.Values
      ensures Valid()
      ensures View(key) == AfterFailure(old(View(key)), cfg, now)
      ensures View(key).openUntil ==
              if old(View(key)).openUntil.Some? || View(key).failures >= cfg.threshold then Some(now + cfg.cooldown) else None
      ensures forall other :: other != key ==> View(other) == old(View(other))
    {
      if key !in circuits {
        var cell := new CircuitCell();
        circuits := circuits[key := cell];
      }
      circuits[key].Fail(cfg, now);
    }

    /** "Half-open" promises a probe, which is true exactly while none is out. */
    method Name(key: string, now: nat) returns (name: StateName)
      ensures name == NameOf(View(key), now)
      ensures name.Closed? <==> View(key).openUntil.None?
      ensures name.Open? <==> View(key).openUntil.Some? && now < View(key).openUntil.value
      ensures Grants(View(key), now) <==> name.Closed? || (name.HalfOpen? && !View(key).probing)
    {
      if key !in circuits {
        name := Closed;
      } else {
        match circuits[key].openUntil
        case None => name := Closed;
        case Some(until) => name := if now < until then Open else HalfOpen;
      }
    }
  }

  // ----- The ledger of granted calls -----

  /**
    A circuit with the calls it granted.  `stragglers` are the unreported calls
    that were already out when the circuit last opened, `atOpening` how many
    there were, `settled` how many of those failed since.  `latest` is the call
    of the last grant when no report came after it; `losses` counts granted
    calls whose report never comes.
   */
  datatype Ledger = Ledger(
    circuit: Circuit,
    clock: nat,
    outstanding: set<nat>,
    stragglers: set<nat>,
    atOpening: nat,
    settled: nat,
    latest: Option<nat>,
    losses: nat)

  const EMPTY := Ledger(CLOSED, 0, {}, {}, 0, 0, None, 0)

  datatype Event =
    | Tick(elapsed: nat)
    | Admit(call: nat)
    | Report(call: nat, ok: bool)
    | Lose(call: nat)

  predicate Enabled(l: Ledger, e: Event) {
    match e
    case Tick(_) => true
    case Admit(call) => call !in l.outstanding
    case Report(call, _) => call in l.outstanding
    case Lose(call) => call in l.outstanding
  }

  function FailureReported(l: Ledger, cfg: Config, call: nat): Ledger {
    var c := AfterFailure(l.circuit, cfg, l.clock);
    var rest := l.outstanding - {call};
    var after := l.(circuit := c, outstanding := rest, latest := None);
    if l.circuit.openUntil.None? && c.openUntil.Some? then
      after.(stragglers := rest, atOpening := |rest|, settled := 0)
    else if call in l.stragglers then
      after.(stragglers := l.stragglers - {call}, settled := l.settled + 1)
    else
      after
  }

  function Step(l: Ledger, cfg: Config, e: Event): Ledger {
    if !Enabled(l, e) then l else
    match e
    case Tick(elapsed) => l.(clock := l.clock + elapsed)
    case Admit(call) =>
      if Grants(l.circuit, l.clock)
      then l.(circuit := AfterAdmit(l.circuit, l.clock), outstanding := l.outstanding + {call}, latest := Some(call))
      else l
    case Report(call, ok) =>
      if ok
      then Ledger(CLOSED, l.clock, l.outstanding - {call}, {}, 0, 0, None, l.losses)
      else FailureReported(l, cfg, call)
    case Lose(call) =>
      l.(outstanding := l.outstanding - {call}, stragglers := l.stragglers - {call}, losses := l.losses + 1)
  }

  function Run(l: Ledger, cfg: Config, events: seq<Event>): Ledger
    decreases |events|
  {
    if events == [] then l else Run(Step(l, cfg, events[0]), cfg, events[1..])
  }

  /** Threshold 0 behaves as 1: the first failure opens the circuit. */
  function OpensAt(cfg: Config): nat {
    if cfg.threshold == 0 then 1 else cfg.threshold
  }

  /** Calls granted while the circuit was open and not yet reported. */
  function Probes(l: Ledger): set<nat> {
    l.outstanding - l.stragglers
  }

  ghost predicate Inv(l: Ledger, cfg: Config) {
    && l.stragglers <= l.outstanding
    && (l.circuit.openUntil.Some? <==> l.circuit.failures >= OpensAt(cfg))
    && (l.circuit.probing ==> l.circuit.openUntil.Some?)
    && (l.circuit.probing && l.losses == 0 ==> l.latest.Some? && l.latest.value in l.outstanding)
    && (l.circuit.openUntil.None? ==> l.stragglers == {} && l.settled == 0 && l.atOpening == 0)
    && l.settled + |l.stragglers| <= l.atOpening
    && (l.circuit.openUntil.Some? ==> |Probes(l)| <= l.settled + if l.circuit.probing then 1 else 0)
    && l.circuit.failures <= U32_MAX
  }

  lemma GrantKeepsInv(l: Ledger, cfg: Config, call: nat)
    requires Inv(l, cfg) && call !in l.outstanding
    ensures Inv(Step(l, cfg, Admit(call)), cfg)
  {
    var l' := Step(l, cfg, Admit(call));
    if Grants(l.circuit, l.clock) {
      assert Probes(l') == Probes(l) + {call};
    }
  }

  lemma FailureWhileClosed(l: Ledger, cfg: Config, call: nat)
    requires Inv(l, cfg) && cfg.threshold <= U32_MAX && call in l.outstanding && l.circuit.openUntil.None?
    ensures Inv(FailureReported(l, cfg, call), cfg)
  {
    var l' := FailureReported(l, cfg, call);
    assert Probes(l') == {} || l'.circuit.openUntil.None?;
  }

  lemma StragglerFails(l: Ledger, cfg: Config, call: nat)
    requires Inv(l, cfg) && cfg.threshold <= U32_MAX && call in l.stragglers && l.circuit.openUntil.Some?
    ensures Inv(FailureReported(l, cfg, call), cfg)
  {
    var l' := FailureReported(l, cfg, call);
    assert Probes(l') == Probes(l);
    assert |l'.stragglers| == |l.stragglers| - 1;
  }

  lemma ProbeFails(l: Ledger, cfg: Config, call: nat)
    requires Inv(l, cfg) && cfg.threshold <= U32_MAX && call in l.outstanding && call !in l.stragglers && l.circuit.openUntil.Some?
    ensures Inv(FailureReported(l, cfg, call), cfg)
  {
    var l' := FailureReported(l, cfg, call);
    assert Probes(l') == Probes(l) - {call};
    assert |Probes(l')| == |Probes(l)| - 1;
  }

  lemma FailureKeepsInv(l: Ledger, cfg: Config, call: nat)
    requires Inv(l, cfg) && cfg.threshold <= U32_MAX && call in l.outstanding
    ensures Inv(FailureReported(l, cfg, call), cfg)
  {
    if l.circuit.openUntil.None? {
      FailureWhileClosed(l, cfg, call);
    } else if call in l.stragglers {
      StragglerFails(l, cfg, call);
    } else {
      ProbeFails(l, cfg, call);
    }
  }

  lemma LossKeepsInv(l: Ledger, cfg: Config, call: nat)
    requires Inv(l, cfg) && call in l.outstanding
    ensures Inv(Step(l, cfg, Lose(call)), cfg)
  {
    var l' := Step(l, cfg, Lose(call));
    assert Probes(l') == Probes(l) - {call};
  }

  lemma StepKeepsInv(l: Ledger, cfg: Config, e: Event)
    requires Inv(l, cfg) && cfg.threshold <= U32_MAX
    ensures Inv(Step(l, cfg, e), cfg)
  {
    if Enabled(l, e) {
      match e
      case Tick(_) =>
        assert Probes(Step(l, cfg, e)) == Probes(l);
      case Admit(call) => GrantKeepsInv(l, cfg, call);
      case Report(call, ok) => if !ok { FailureKeepsInv(l, cfg, call); }
      case Lose(call) => LossKeepsInv(l, cfg, call);
    }
  }

  lemma {:induction false} RunKeepsInv(l: Ledger, cfg: Config, events: seq<Event>)
    requires Inv(l, cfg) && cfg.threshold <= U32_MAX
    ensures Inv(Run(l, cfg, events), cfg)
    decreases |events|
  {
    if events != [] {
      StepKeepsInv(l, cfg, events[0]);
      RunKeepsInv(Step(l, cfg, events[0]), cfg, events[1..]);
    }
  }

  /**
    Safety of the half-open state: in every reachable ledger the unreported
    calls number at most one more than those that were out when the circuit
    opened, so an opening with nothing else in flight admits one probe at a time.
   */
  lemma OpenCircuitBound(cfg: Config, events: seq<Event>)
    requires cfg.threshold <= U32_MAX
    ensures var l := Run(EMPTY, cfg, events);
            l.circuit.openUntil.Some? ==>
              && |Probes(l)| <= l.settled + (if l.circuit.probing then 1 else 0)
              && |l.outstanding| <= l.atOpening + 1
              && (l.settled == 0 ==> |Probes(l)| <= 1)
  {
    var l := Run(EMPTY, cfg, events);
    RunKeepsInv(EMPTY, cfg, events);
    assert l.outstanding == Probes(l) + l.stragglers;
  }

  /**
    "At most one call while open" fails when a call from before the opening is
    still out: its failure frees the probe permit while the probe is in flight.
    Here two probes are out and no earlier call is.
   */
  lemma TwoProbesAtOnce() returns (cfg: Config, events: seq<Event>)
    ensures var l := Run(EMPTY, cfg, events);
            l.circuit.openUntil.Some? && l.outstanding == {3, 4} && l.stragglers == {}
  {
    cfg := Config(1, 10);
    var opening := OpenWithOneOut(cfg);
    var freeing := StragglerFreesThePermit(cfg);
    var probing := ProbeAgain(cfg);
    RunAppend(EMPTY, cfg, opening, freeing);
    RunAppend(EMPTY, cfg, opening + freeing, probing);
    events := opening + freeing + probing;
  }

  lemma OpenWithOneOut(cfg: Config) returns (events: seq<Event>)
    requires cfg == Config(1, 10)
    ensures Run(EMPTY, cfg, events) == Ledger(Circuit(1, Some(10), false), 0, {2}, {2}, 1, 0, None, 0)
  {
    events := [Admit(1), Admit(2), Report(1, false)];
    RunThree(EMPTY, cfg, events);
    var l1 := Step(EMPTY, cfg, Admit(1));
    assert l1.outstanding == {1};
    var l2 := Step(l1, cfg, Admit(2));
    assert l2 == Ledger(CLOSED, 0, {1, 2}, {}, 0, 0, Some(2), 0);
    assert {1, 2} - {1} == {2};
  }

  lemma StragglerFreesThePermit(cfg: Config) returns (events: seq<Event>)
    requires cfg == Config(1, 10)
    ensures Run(Ledger(Circuit(1, Some(10), false), 0, {2}, {2}, 1, 0, None, 0), cfg, events) ==
            Ledger(Circuit(2, Some(20), false), 10, {3}, {}, 1, 1, None, 0)
  {
    var l := Ledger(Circuit(1, Some(10), false), 0, {2}, {2}, 1, 0, None, 0);
    events := [Tick(10), Admit(3), Report(2, false)];
    RunThree(l, cfg, events);
    var l2 := Ledger(Circuit(1, Some(10), true), 10, {2, 3}, {2}, 1, 0, Some(3), 0);
    assert Step(Step(l, cfg, Tick(10)), cfg, Admit(3)) == l2 by { assert {2} + {3} == {2, 3}; }
    assert {2, 3} - {2} == {3} && {2} - {2} == {};
  }

  lemma ProbeAgain(cfg: Config) returns (events: seq<Event>)
    requires cfg == Config(1, 10)
    ensures Run(Ledger(Circuit(2, Some(20), false), 10, {3}, {}, 1, 1, None, 0), cfg, events) ==
            Ledger(Circuit(2, Some(20), true), 20, {3, 4}, {}, 1, 1, Some(4), 0)
  {
    events := [Tick(10), Admit(4)];
    RunThree(Ledger(Circuit(2, Some(20), false), 10, {3}, {}, 1, 1, None, 0), cfg, events);
    assert {3} + {4} == {3, 4};
  }

  lemma RunThree(l: Ledger, cfg: Config, events: seq<Event>)
    requires 2 <= |events| <= 3
    ensures var l2 := Step(Step(l, cfg, events[0]), cfg, events[1]);
            Run(l, cfg, events) == if |events| == 2 then l2 else Step(l2, cfg, events[2])
  {
    assert events[1..][1..] == events[2..];
    var l2 := Step(Step(l, cfg, events[0]), cfg, events[1]);
    assert Run(l, cfg, events) == Run(l2, cfg, events[2..]);
    if |events| == 3 {
      assert events[2..][1..] == [];
    }
  }

  lemma {:induction false} RunAppend(l: Ledger, cfg: Config, first: seq<Event>, second: seq<Event>)
    ensures Run(l, cfg, first + second) == Run(Run(l, cfg, first), cfg, second)
    decreases |first|
  {
    if first == [] {
      assert [] + second == second;
    } else {
      assert (first + second)[1..] == first[1..] + second;
      RunAppend(Step(l, cfg, first[0]), cfg, first[1..], second);
    }
  }

  /** The permit is never stranded while every granted call reports. */
  lemma ReportedCallsFreeTheCircuit(cfg: Config, events: seq<Event>)
    requires cfg.threshold <= U32_MAX
    ensures var l := Run(EMPTY, cfg, events);
            l.losses == 0 && l.outstanding == {} &&
            (l.circuit.openUntil.Some? ==> l.circuit.openUntil.value <= l.clock)
            ==> Grants(l.circuit, l.clock)
  {
    RunKeepsInv(EMPTY, cfg, events);
  }

  /** A lost probe strands the circuit: with nothing else out, no later admit is ever granted. */
  lemma {:induction false} LostProbeStrands(l: Ledger, cfg: Config, events: seq<Event>)
    requires l.circuit.openUntil.Some? && l.circuit.probing && l.outstanding == {}
    ensures var l' := Run(l, cfg, events);
            l'.circuit == l.circuit && l'.outstanding == {} && !Grants(l'.circuit, l'.clock)
    decreases |events|
  {
    if events != [] {
      LostProbeStrands(Step(l, cfg, events[0]), cfg, events[1..]);
    }
  }

  predicate NoSuccess(events: seq<Event>) {
    forall e :: e in events ==> !(e.Report? && e.ok)
  }

  /** An open circuit grants nothing before its deadline, and failures only push the deadline out. */
  lemma {:induction false} OpenRefusesUntilDeadline(l: Ledger, cfg: Config, events: seq<Event>)
    requires l.circuit.openUntil.Some? && NoSuccess(events)
    requires l.circuit.openUntil.value <= l.clock + cfg.cooldown
    requires Run(l, cfg, events).clock < l.circuit.openUntil.value
    ensures var l' := Run(l, cfg, events);
            && l'.outstanding <= l.outstanding
            && l'.circuit.openUntil.Some?
            && l.circuit.openUntil.value <= l'.circuit.openUntil.value
            && !Grants(l'.circuit, l'.clock)
    decreases |events|
  {
    if events != [] {
      var mid := Step(l, cfg, events[0]);
      ClockGrows(l, cfg, [events[0]]);
      assert Run(l, cfg, [events[0]]) == mid;
      ClockGrows(mid, cfg, events[1..]);
      assert events[0] in events;
      assert NoSuccess(events[1..]);
      OpenRefusesUntilDeadline(mid, cfg, events[1..]);
    }
  }

  /** A reported failure opens the circuit at the threshold and re-opens an open one; either way the deadline counts from now. */
  lemma FailureSetsDeadline(cfg: Config, events: seq<Event>, call: nat)
    requires call in Run(EMPTY, cfg, events).outstanding
    ensures var l := Run(EMPTY, cfg, events);
            var l' := Step(l, cfg, Report(call, false));
            && l'.circuit.failures == Min(l.circuit.failures + 1, 4294967295) && !l'.circuit.probing
            && l'.circuit.openUntil ==
                 if l.circuit.openUntil.Some? || l'.circuit.failures >= cfg.threshold then Some(l.clock + cfg.cooldown) else None
  {
    FailuresAreCounted(EMPTY, cfg, events);
  }

  lemma {:induction false} FailuresAreCounted(l: Ledger, cfg: Config, events: seq<Event>)
    requires l.circuit.failures <= U32_MAX
    ensures Run(l, cfg, events).circuit.failures <= U32_MAX
    decreases |events|
  {
    if events != [] { FailuresAreCounted(Step(l, cfg, events[0]), cfg, events[1..]); }
  }

  /** For a whole cooldown after a failure that leaves the circuit open, nothing is granted without a success. */
  lemma FailureRefusesForTheCooldown(cfg: Config, events: seq<Event>, call: nat, more: seq<Event>)
    requires call in Run(EMPTY, cfg, events).outstanding && NoSuccess(more)
    requires var l' := Step(Run(EMPTY, cfg, events), cfg, Report(call, false));
             l'.circuit.openUntil.Some? && Run(l', cfg, more).clock < l'.clock + cfg.cooldown
    ensures var l' := Step(Run(EMPTY, cfg, events), cfg, Report(call, false));
            var later := Run(l', cfg, more);
            !Grants(later.circuit, later.clock) && later.outstanding <= l'.outstanding
  {
    FailureSetsDeadline(cfg, events, call);
    OpenRefusesUntilDeadline(Step(Run(EMPTY, cfg, events), cfg, Report(call, false)), cfg, more);
  }

  lemma {:induction false} ClockGrows(l: Ledger, cfg: Config, events: seq<Event>)
    ensures l.clock <= Run(l, cfg, events).clock
    decreases |events|
  {
    if events != [] {
      ClockGrows(Step(l, cfg, events[0]), cfg, events[1..]);
    }
  }

  // ----- Reference count of consecutive failures -----

  /** The reports that took effect along a run, oldest first. */
  function Reports(l: Ledger, cfg: Config, events: seq<Event>): seq<bool>
    decreases |events|
  {
    if events == [] then [] else
    (if events[0].Report? && Enabled(l, events[0]) then [events[0].ok] else []) +
    Reports(Step(l, cfg, events[0]), cfg, events[1..])
  }

  /** How many reports at the end of the history are failures. */
  function TrailingFailures(reports: seq<bool>): nat {
    if reports == [] || reports[|reports| - 1] then 0
    else 1 + TrailingFailures(reports[..|reports| - 1])
  }

  function Counted(failures: nat): nat {
    if failures < U32_MAX then failures else U32_MAX
  }

  lemma TrailingSnoc(before: seq<bool>, ok: bool)
    ensures TrailingFailures(before + [ok]) == if ok then 0 else TrailingFailures(before) + 1
  {
    assert (before + [ok])[..|before|] == before;
  }

  /** One event, and the report it makes. */
  lemma CountedStep(l: Ledger, cfg: Config, before: seq<bool>, e: Event) returns (now: seq<bool>)
    requires l.circuit.failures == Counted(TrailingFailures(before))
    ensures now == if e.Report? && Enabled(l, e) then [e.ok] else []
    ensures Step(l, cfg, e).circuit.failures == Counted(TrailingFailures(before + now))
  {
    if e.Report? && Enabled(l, e) {
      now := [e.ok];
      TrailingSnoc(before, e.ok);
    } else {
      now := [];
      assert before + now == before;
    }
  }

  lemma {:induction false} FailuresAreConsecutive(l: Ledger, cfg: Config, before: seq<bool>, events: seq<Event>)
    requires l.circuit.failures == Counted(TrailingFailures(before))
    ensures Run(l, cfg, events).circuit.failures ==
            Counted(TrailingFailures(before + Reports(l, cfg, events)))
    decreases |events|
  {
    if events == [] {
      assert before + [] == before;
    } else {
      var now := CountedStep(l, cfg, before, events[0]);
      FailuresAreConsecutive(Step(l, cfg, events[0]), cfg, before + now, events[1..]);
      assert (before + now) + Reports(Step(l, cfg, events[0]), cfg, events[1..]) == before + Reports(l, cfg, events);
    }
  }

  /** The circuit is open exactly when the last `threshold` reports, at least one, were all failures. */
  lemma OpenExactlyAfterThreshold(cfg: Config, events: seq<Event>)
    requires cfg.threshold <= U32_MAX
    ensures Run(EMPTY, cfg, events).circuit.openUntil.Some? <==>
            TrailingFailures(Reports(EMPTY, cfg, events)) >= OpensAt(cfg)
  {
    RunKeepsInv(EMPTY, cfg, events);
    FailuresAreConsecutive(EMPTY, cfg, [], events);
    assert [] + Reports(EMPTY, cfg, events) == Reports(EMPTY, cfg, events);
  }
}
