/**
  What an indexing run leaves behind when it returns (crates/cce-engine/src/engine.rs,
  `index_inner`), over every history of the lifecycle.
 */
module LifecycleResults {
  import opened Lifecycle
  import opened Wrappers

  lemma OthersStayPut(s: System, e: Event, p: nat)
    requires e.pid != p && p in s.runs
    ensures p in Next(s, e).runs && Next(s, e).runs[p] == s.runs[p]
  {
  }

  /** While a run holds the lease, no step of another run changes the shared state. */
  lemma LeaseProtects(s: System, e: Event, p: nat)
    requires Inv(s) && s.lease == Some(p) && e.pid != p
    ensures Next(s, e).complete == s.complete && Next(s, e).current == s.current
  {
    if e.Go? && e.pid in s.runs {
      assert RunSane(s.runs[e.pid]) && !s.runs[e.pid].held;
    }
  }

  // ----- Activation of a complete snapshot -----

  predicate EndsOnTarget(r: Run, current: Option<Id>) {
    r.held && r.target.Some? && current == r.target
  }

  /** A full run past the gate that must make its snapshot current before it returns. */
  predicate Bound(r: Run, complete: set<Id>, current: Option<Id>) {
    && r.kind.Full? && r.target.Some?
    && match r.phase
       case Scanning => false
       case Gate => false
       case ReadCurrent => false
       case Contending => true
       case Reuse => r.held && (r.target.value in complete ==> current == r.target)
       case Repair => EndsOnTarget(r, current)
       case Shards => EndsOnTarget(r, current)
       case Prune => EndsOnTarget(r, current)
       case Sweep(_) => EndsOnTarget(r, current)
       case Return => EndsOnTarget(r, current)
       case _ => r.held
  }

  predicate BoundIn(s: System, p: nat) {
    p in s.runs && Bound(s.runs[p], s.complete, s.current)
  }

  lemma GateKeepsBound(s: System, p: nat, id: Id)
    requires Inv(s) && BoundIn(s, p) && s.runs[p].target == Some(id) && Gating(s.runs[p].phase)
    ensures var s' := GateStep(s, p, s.runs[p], id); p in s'.runs ==> BoundIn(s', p)
  {
  }

  lemma ReuseKeepsBound(s: System, p: nat, id: Id, needed: bool)
    requires Inv(s) && BoundIn(s, p) && s.runs[p].target == Some(id) && Reusing(s.runs[p].phase)
    ensures var s' := ReuseStep(s, p, s.runs[p], id, needed); p in s'.runs ==> BoundIn(s', p)
  {
  }

  lemma WriteKeepsBound(s: System, p: nat, id: Id)
    requires Inv(s) && BoundIn(s, p) && s.runs[p].target == Some(id)
    requires s.runs[p].phase.Write? || s.runs[p].phase.Begin? || s.runs[p].phase.Build?
    ensures var s' := WriteStep(s, p, s.runs[p], id); p in s'.runs ==> BoundIn(s', p)
  {
  }

  lemma PruneKeepsBound(s: System, p: nat, finding: Finding)
    requires Inv(s) && BoundIn(s, p) && (s.runs[p].phase.Prune? || s.runs[p].phase.Sweep?)
    ensures var s' := PruneStep(s, p, s.runs[p], finding); p in s'.runs ==> BoundIn(s', p)
  {
    assert RunSane(s.runs[p]) && s.lease == Some(p);
  }

  lemma ScanKeepsBound(s: System, p: nat, finding: Finding)
    requires Inv(s) && BoundIn(s, p) && s.runs[p].phase.Rescanning?
    ensures var s' := ScanStep(s, p, s.runs[p], finding); p in s'.runs ==> BoundIn(s', p)
  {
  }

  lemma OwnStepKeepsBound(s: System, p: nat, finding: Finding)
    requires Inv(s) && BoundIn(s, p)
    ensures var s' := Step(s, p, s.runs[p], finding); p in s'.runs ==> BoundIn(s', p)
  {
    var r := s.runs[p];
    var id := r.target.value;
    if r.phase.Rescanning? {
      ScanKeepsBound(s, p, finding);
    } else if r.phase.Prune? || r.phase.Sweep? {
      PruneKeepsBound(s, p, finding);
    } else if Gating(r.phase) {
      GateKeepsBound(s, p, id);
    } else if Reusing(r.phase) {
      ReuseKeepsBound(s, p, id, finding.Needed? && finding.b);
    } else if !r.phase.Return? {
      WriteKeepsBound(s, p, id);
    }
  }

  lemma OtherStepKeepsBound(s: System, e: Event, p: nat)
    requires Inv(s) && BoundIn(s, p) && e.pid != p
    ensures BoundIn(Next(s, e), p)
  {
    OthersStayPut(s, e, p);
    assert RunSane(s.runs[p]);
    if s.runs[p].held { LeaseProtects(s, e, p); }
  }

  lemma StepKeepsBound(s: System, e: Event, p: nat)
    requires Inv(s) && BoundIn(s, p)
    ensures p in Next(s, e).runs ==> BoundIn(Next(s, e), p)
  {
    if e.pid != p {
      OtherStepKeepsBound(s, e, p);
    } else if e.Go? {
      OwnStepKeepsBound(s, p, e.finding);
    }
  }

  /** The process is never gone between two points of a history: it is the same run all along. */
  predicate StaysAlive(before: seq<Event>, more: seq<Event>, p: nat) {
    forall k :: 0 <= k <= |more| ==> p in After(before + more[..k]).runs
  }

  lemma {:induction false} BoundLasts(before: seq<Event>, more: seq<Event>, p: nat)
    requires BoundIn(After(before), p) && StaysAlive(before, more, p)
    ensures BoundIn(After(before + more), p)
    decreases |more|
  {
    if more == [] {
      assert before + more == before;
    } else {
      var front, e := more[..|more| - 1], more[|more| - 1];
      forall k | 0 <= k <= |front| ensures p in After(before + front[..k]).runs {
        assert front[..k] == more[..k];
      }
      BoundLasts(before, front, p);
      assert before + more == before + front + [e];
      AfterSnoc(before + front, e);
      AlwaysInv(before + front);
      StepKeepsBound(After(before + front), e, p);
      assert more[..|more|] == more;
    }
  }

  /**
    The activation gate: a full run whose scan found a complete snapshot reads the
    current pointer.  If that snapshot is not current, the run, should it return,
    returns with the snapshot of its last scan complete and current; if it is, the
    run takes no lease there and changes nothing.
   */
  lemma HistoricalSnapshotIsActivated(before: seq<Event>, finding: Finding, more: seq<Event>, p: nat)
    requires p in After(before).runs && After(before).runs[p].phase.ReadCurrent?
    requires StaysAlive(before + [Go(p, finding)], more, p)
    ensures var s, s', t := After(before), After(before + [Go(p, finding)]), After(before + [Go(p, finding)] + more);
            && s.runs[p].target.Some?
            && s' == s.(runs := s'.runs) && !s'.runs[p].held
            && (s.current == s.runs[p].target ==> s'.runs[p].phase.Reuse?)
            && (s.current != s.runs[p].target && p in t.runs && t.runs[p].phase.Return? ==>
                  t.runs[p].target.Some? && t.current == t.runs[p].target && t.current.value in t.complete && t.lease == Some(p))
  {
    var s := After(before);
    AlwaysInv(before);
    assert RunSane(s.runs[p]);
    AfterSnoc(before, Go(p, finding));
    AlwaysInv(before + [Go(p, finding)] + more);
    assert more[..|more|] == more;
    if s.current != s.runs[p].target {
      BoundLasts(before + [Go(p, finding)], more, p);
    }
  }

  /** A full run reads the current pointer exactly when the snapshot it scanned is complete; a checkpoint never does. */
  lemma GateReadsCurrentExactly(before: seq<Event>, finding: Finding, p: nat)
    requires p in After(before).runs && After(before).runs[p].phase.Gate?
    ensures var s, s' := After(before), After(before + [Go(p, finding)]);
            && s.runs[p].target.Some? && p in s'.runs && s' == s.(runs := s'.runs)
            && s'.runs[p] == s.runs[p].(phase := s'.runs[p].phase)
            && (s'.runs[p].phase.ReadCurrent? <==> s.runs[p].kind.Full? && s.runs[p].target.value in s.complete)
            && (!s'.runs[p].phase.ReadCurrent? ==> s'.runs[p].phase.Reuse?)
  {
    AlwaysInv(before);
    assert RunSane(After(before).runs[p]);
    AfterSnoc(before, Go(p, finding));
  }

  /** A run that has the lease activates its snapshot: the snapshot is complete, and becomes current. */
  lemma ActivationPromotes(before: seq<Event>, finding: Finding, p: nat)
    requires p in After(before).runs && After(before).runs[p].phase.Activating?
    ensures var s, s' := After(before), After(before + [Go(p, finding)]);
            && s.runs[p].target.Some? && s.runs[p].target.value in s.complete && s'.complete == s.complete
            && s'.current == s.runs[p].target && s'.lease == Some(p)
            && p in s'.runs && s'.runs[p].phase.Reuse? && s'.runs[p].target == s.runs[p].target
  {
    AlwaysInv(before);
    assert RunSane(After(before).runs[p]);
    assert HolderKnows(After(before).runs[p], After(before).complete, After(before).current);
    AfterSnoc(before, Go(p, finding));
  }

  // ----- A run left alone -----

  /** The steps of one run with no other process between them. */
  function Alone(s: System, p: nat, findings: seq<Finding>): System
    decreases |findings|
  {
    if findings == [] then s else Alone(Next(s, Go(p, findings[0])), p, findings[1..])
  }

  lemma FirstAlone(s: System, p: nat, first: Finding, rest: seq<Finding>)
    ensures Alone(s, p, [first] + rest) == Alone(Next(s, Go(p, first)), p, rest)
  {
    assert ([first] + rest)[1..] == rest;
  }

  lemma {:induction false} AloneTwice(s: System, p: nat, first: seq<Finding>, second: seq<Finding>)
    ensures Alone(s, p, first + second) == Alone(Alone(s, p, first), p, second)
    decreases |first|
  {
    if first == [] {
      assert first + second == second;
    } else {
      assert first + second == [first[0]] + (first[1..] + second);
      FirstAlone(s, p, first[0], first[1..] + second);
      AloneTwice(Next(s, Go(p, first[0])), p, first[1..], second);
    }
  }

  lemma ThreeAlone(s: System, p: nat, a: Finding, b: Finding, c: Finding)
    ensures Alone(s, p, [a, b, c]) == Next(Next(Next(s, Go(p, a)), Go(p, b)), Go(p, c))
  {
    assert [a] + [b, c] == [a, b, c] && [b] + [c] == [b, c] && [c] + [] == [c];
    FirstAlone(s, p, a, [b, c]);
    FirstAlone(Next(s, Go(p, a)), p, b, [c]);
    FirstAlone(Next(Next(s, Go(p, a)), Go(p, b)), p, c, []);
  }

  /** A full run about the snapshot, in a phase, with the lease or without. */
  predicate IsAt(s: System, p: nat, id: Id, phase: Phase, held: bool) {
    && p in s.runs && s.runs[p].kind.Full? && s.runs[p].target == Some(id) && s.runs[p].phase == phase
    && s.runs[p].held == held && s.lease == (if held then Some(p) else None)
  }

  lemma RescansUnderLease(s: System, p: nat, id: Id, x: Finding)
    requires IsAt(s, p, id, ReadCurrent, false) && s.current != Some(id) && id.FullId?
    ensures var t := Alone(s, p, [x, x, Saw(id)]);
            IsAt(t, p, id, Retest, true) && t.complete == s.complete && t.current == s.current
  {
    ThreeAlone(s, p, x, x, Saw(id));
    var one := Next(s, Go(p, x));
    assert IsAt(one, p, id, Contending, false);
    assert Next(one, Go(p, x)).runs[p].phase == Rescanning;
  }

  lemma ActivatesUnderLease(s: System, p: nat, id: Id, x: Finding)
    requires IsAt(s, p, id, Retest, true) && s.current != Some(id) && id in s.complete
    ensures var t := Alone(s, p, [x, x, x]);
            IsAt(t, p, id, Reuse, true) && t.complete == s.complete && t.current == Some(id)
  {
    ThreeAlone(s, p, x, x, x);
    assert IsAt(Next(s, Go(p, x)), p, id, Reread, true);
    assert IsAt(Next(Next(s, Go(p, x)), Go(p, x)), p, id, Activating, true);
  }

  lemma ReusesUnderLease(s: System, p: nat, id: Id, x: Finding)
    requires IsAt(s, p, id, Reuse, true) && id in s.complete
    ensures var t := Alone(s, p, [x, x, x]);
            IsAt(t, p, id, Return, true) && t.complete == s.complete && t.current == s.current
  {
    ThreeAlone(s, p, x, x, x);
    assert IsAt(Next(s, Go(p, x)), p, id, Repair, true);
    assert IsAt(Next(Next(s, Go(p, x)), Go(p, x)), p, id, Shards, true);
  }

  /**
    A full run that finds its complete snapshot not current while the lease is free,
    and is left alone, takes the lease and makes that snapshot current before it returns.
   */
  lemma ActivationRunsThrough(before: seq<Event>, p: nat, id: Id, x: Finding)
    requires IsAt(After(before), p, id, ReadCurrent, false)
    requires id in After(before).complete && After(before).current != Some(id)
    ensures var s := After(before);
            var t := Alone(s, p, [x, x, Saw(id)] + ([x, x, x] + [x, x, x]));
            && IsAt(t, p, id, Return, true) && t.current == Some(id) && t.complete == s.complete
            && Next(t, Go(p, x)) == t.(runs := t.runs - {p}, lease := None)
  {
    var s := After(before);
    AlwaysInv(before);
    assert RunSane(s.runs[p]);
    var one := Alone(s, p, [x, x, Saw(id)]);
    var two := Alone(one, p, [x, x, x]);
    RescansUnderLease(s, p, id, x);
    ActivatesUnderLease(one, p, id, x);
    ReusesUnderLease(two, p, id, x);
    AloneTwice(one, p, [x, x, x], [x, x, x]);
    AloneTwice(s, p, [x, x, Saw(id)], [x, x, x] + [x, x, x]);
  }

  lemma BuildsUnderLease(s: System, p: nat, id: Id, x: Finding)
    requires IsAt(s, p, id, Write, false)
    ensures var t := Alone(s, p, [x, x, x]);
            IsAt(t, p, id, Prune, true) && t.complete == s.complete + {id} && t.current == Some(id)
  {
    ThreeAlone(s, p, x, x, x);
    assert IsAt(Next(s, Go(p, x)), p, id, Begin, true);
    assert IsAt(Next(Next(s, Go(p, x)), Go(p, x)), p, id, Build, true);
    assert s.complete - {id} + {id} == s.complete + {id};
  }

  lemma PrunesUnderLease(s: System, p: nat, id: Id, victim: Id, x: Finding)
    requires IsAt(s, p, id, Prune, true) && s.current == Some(id) && victim != id
    ensures var t := Alone(s, p, [x, Victim(victim), Enough]);
            IsAt(t, p, id, Return, true) && t.complete == s.complete - {victim} && t.current == Some(id)
  {
    ThreeAlone(s, p, x, Victim(victim), Enough);
    assert IsAt(Next(s, Go(p, x)), p, id, Sweep(id), true);
    assert IsAt(Next(Next(s, Go(p, x)), Go(p, Victim(victim))), p, id, Sweep(id), true);
  }

  /**
    A full run whose snapshot is not complete while the lease is free, and that is left
    alone, builds it, makes it current, deletes an old one and returns.
   */
  lemma BuildRunsThrough(before: seq<Event>, p: nat, id: Id, victim: Id, x: Finding)
    requires IsAt(After(before), p, id, Reuse, false) && id !in After(before).complete && victim != id
    ensures var s := After(before);
            var t := Alone(s, p, [x] + ([x, x, x] + [x, Victim(victim), Enough]));
            && IsAt(t, p, id, Return, true) && t.current == Some(id) && t.complete == s.complete + {id} - {victim}
            && Next(t, Go(p, x)) == t.(runs := t.runs - {p}, lease := None)
  {
    var s := After(before);
    var one := Next(s, Go(p, x));
    var two := Alone(one, p, [x, x, x]);
    FirstAlone(s, p, x, [x, x, x] + [x, Victim(victim), Enough]);
    assert IsAt(one, p, id, Write, false);
    BuildsUnderLease(one, p, id, x);
    PrunesUnderLease(two, p, id, victim, x);
    AloneTwice(one, p, [x, x, x], [x, Victim(victim), Enough]);
  }

  // ----- What a run returns -----

  /** The snapshot was complete at some moment of the history. */
  ghost predicate WasComplete(events: seq<Event>, id: Id) {
    exists k :: 0 <= k <= |events| && id in After(events[..k]).complete
  }

  lemma WasCompleteLater(events: seq<Event>, e: Event, id: Id)
    ensures WasComplete(events, id) ==> WasComplete(events + [e], id)
    ensures id in After(events).complete || id in After(events + [e]).complete ==> WasComplete(events + [e], id)
  {
    var more := events + [e];
    assert more[..|events|] == events && more[..|more|] == more;
    if k :| 0 <= k <= |events| && id in After(events[..k]).complete {
      assert more[..k] == events[..k];
    }
  }

  predicate PastReuse(r: Run) {
    !r.kind.Collect? && (r.phase.Repair? || r.phase.Shards? || r.phase.Prune? || r.phase.Sweep? || r.phase.Return?)
  }

  /** A run past its reuse test was there before, or has just found or made its snapshot complete. */
  predicate CameFrom(s: System, s': System, p: nat) {
    p in s'.runs && PastReuse(s'.runs[p]) ==>
      && s'.runs[p].target.Some?
      && (|| (p in s.runs && PastReuse(s.runs[p]) && s.runs[p].target == s'.runs[p].target)
          || s'.runs[p].target.value in s.complete || s'.runs[p].target.value in s'.complete)
  }

  lemma GateCameFrom(s: System, p: nat, id: Id)
    requires p in s.runs && s.runs[p].target == Some(id) && Gating(s.runs[p].phase)
    ensures CameFrom(s, GateStep(s, p, s.runs[p], id), p)
  {
  }

  lemma ReuseCameFrom(s: System, p: nat, id: Id, needed: bool)
    requires p in s.runs && s.runs[p].target == Some(id) && Reusing(s.runs[p].phase)
    ensures CameFrom(s, ReuseStep(s, p, s.runs[p], id, needed), p)
  {
  }

  lemma WriteCameFrom(s: System, p: nat, id: Id)
    requires p in s.runs && s.runs[p].target == Some(id)
    requires s.runs[p].phase.Write? || s.runs[p].phase.Begin? || s.runs[p].phase.Build?
    ensures CameFrom(s, WriteStep(s, p, s.runs[p], id), p)
  {
  }

  lemma PruneCameFrom(s: System, p: nat, finding: Finding)
    requires p in s.runs && RunSane(s.runs[p]) && (s.runs[p].phase.Prune? || s.runs[p].phase.Sweep?)
    ensures CameFrom(s, PruneStep(s, p, s.runs[p], finding), p)
  {
  }

  lemma OwnStepCameFrom(s: System, p: nat, finding: Finding)
    requires p in s.runs && RunSane(s.runs[p])
    ensures CameFrom(s, Step(s, p, s.runs[p], finding), p)
  {
    var r := s.runs[p];
    if r.phase.Prune? || r.phase.Sweep? {
      PruneCameFrom(s, p, finding);
    } else if r.target.Some? && !r.kind.Collect? && !r.phase.Scanning? && !r.phase.Rescanning? && !r.phase.Return? {
      if Gating(r.phase) { GateCameFrom(s, p, r.target.value); }
      else if Reusing(r.phase) { ReuseCameFrom(s, p, r.target.value, finding.Needed? && finding.b); }
      else { WriteCameFrom(s, p, r.target.value); }
    }
  }

  lemma ReachesPastReuse(s: System, e: Event, p: nat)
    requires Inv(s)
    ensures CameFrom(s, Next(s, e), p)
  {
    if p in s.runs {
      assert RunSane(s.runs[p]);
      if e.pid != p { OthersStayPut(s, e, p); }
      else if e.Go? { OwnStepCameFrom(s, p, e.finding); }
    }
  }

  /** A full or checkpoint run that returns, returns a snapshot that has been complete. */
  lemma {:induction false} ResultWasComplete(events: seq<Event>, p: nat)
    requires p in After(events).runs && PastReuse(After(events).runs[p])
    ensures After(events).runs[p].target.Some? && WasComplete(events, After(events).runs[p].target.value)
    decreases |events|
  {
    var front, e := events[..|events| - 1], events[|events| - 1];
    assert events == front + [e];
    AfterSnoc(front, e);
    AlwaysInv(front);
    ReachesPastReuse(After(front), e, p);
    var id := After(events).runs[p].target.value;
    WasCompleteLater(front, e, id);
    if p in After(front).runs && PastReuse(After(front).runs[p]) && After(front).runs[p].target == Some(id) {
      ResultWasComplete(front, p);
    }
  }

  // ----- Reuse and repairs -----

  /** A complete snapshot is reused: a full run goes on to its repairs, a checkpoint returns as it is; an incomplete one is written. */
  lemma ReuseExactly(before: seq<Event>, finding: Finding, p: nat)
    requires p in After(before).runs && After(before).runs[p].phase.Reuse?
    ensures var s, s' := After(before), After(before + [Go(p, finding)]);
            && s.runs[p].target.Some? && p in s'.runs && s' == s.(runs := s'.runs)
            && s'.runs[p].phase == if s.runs[p].target.value !in s.complete then Write
                                   else if s.runs[p].kind.Full? then Repair else Return
  {
    AlwaysInv(before);
    assert RunSane(After(before).runs[p]);
    AfterSnoc(before, Go(p, finding));
  }

  /** Needed repairs run under the lease, or the run ends because another holds it; rebuilding shards never ends a run. */
  lemma RepairsNeedTheLease(before: seq<Event>, needed: bool, p: nat)
    requires p in After(before).runs && (After(before).runs[p].phase.Repair? || After(before).runs[p].phase.Shards?)
    ensures var s, s' := After(before), After(before + [Go(p, Needed(needed))]);
            && s'.complete == s.complete && s'.current == s.current
            && (s.runs[p].phase.Repair? ==>
                  && (p !in s'.runs <==> needed && s.lease.Some? && s.lease != Some(p))
                  && (p in s'.runs ==> s'.runs[p].phase.Shards? && (s'.runs[p].held <==> needed || s.runs[p].held)))
            && (s.runs[p].phase.Shards? ==>
                  && p in s'.runs && s'.runs[p].phase.Return?
                  && (s'.runs[p].held <==> s.runs[p].held || (needed && s.lease.None?)))
  {
    AlwaysInv(before);
    assert RunSane(After(before).runs[p]);
    AfterSnoc(before, Go(p, Needed(needed)));
  }

  // ----- Pruning -----

  /** A prune reads the current snapshot under the lease, and spares it; without one it deletes nothing. */
  lemma PruneReadsCurrent(before: seq<Event>, finding: Finding, p: nat)
    requires p in After(before).runs && After(before).runs[p].phase.Prune?
    ensures var s, s' := After(before), After(before + [Go(p, finding)]);
            && s.lease == Some(p) && p in s'.runs && s' == s.(runs := s'.runs)
            && s'.runs[p].phase == match s.current case None => Return case Some(id) => Sweep(id)
  {
    AlwaysInv(before);
    assert RunSane(After(before).runs[p]);
    AfterSnoc(before, Go(p, finding));
  }

  /** A sweep deletes a snapshot it is given exactly when that is not the current one, and ends when told so. */
  lemma SweepSparesExactlyCurrent(before: seq<Event>, finding: Finding, p: nat)
    requires p in After(before).runs && After(before).runs[p].phase.Sweep?
    ensures var s, s' := After(before), After(before + [Go(p, finding)]);
            && s.lease == Some(p) && s.current == Some(s.runs[p].phase.keep) && s'.current == s.current
            && s'.complete == (if finding.Victim? && s.current != Some(finding.id) then s.complete - {finding.id} else s.complete)
            && p in s'.runs && (finding.Enough? <==> s'.runs[p].phase.Return?)
  {
    AlwaysInv(before);
    assert RunSane(After(before).runs[p]);
    AfterSnoc(before, Go(p, finding));
  }

  /** A collection takes the lease before it prunes, or ends because another holds it. */
  lemma CollectionNeedsTheLease(before: seq<Event>, finding: Finding, p: nat)
    requires p in After(before).runs && After(before).runs[p].phase.Write? && After(before).runs[p].kind.Collect?
    ensures var s, s' := After(before), After(before + [Go(p, finding)]);
            && s'.complete == s.complete && s'.current == s.current
            && (p in s'.runs <==> s.lease.None?)
            && (p in s'.runs ==> s'.lease == Some(p) && s'.runs[p].phase.Prune?)
  {
    AlwaysInv(before);
    assert RunSane(After(before).runs[p]);
    AfterSnoc(before, Go(p, finding));
  }

  /** A scan fixes the snapshot the run is about: the first goes to the gate, one under the lease to the second test. */
  lemma ScanFixesTheTarget(before: seq<Event>, id: Id, p: nat)
    requires p in After(before).runs && (After(before).runs[p].phase.Scanning? || After(before).runs[p].phase.Rescanning?)
    requires Scannable(After(before).runs[p].kind, id)
    ensures var s, s' := After(before), After(before + [Go(p, Saw(id))]);
            && p in s'.runs && s' == s.(runs := s'.runs) && s'.runs[p].target == Some(id)
            && s'.runs[p].phase == if s.runs[p].phase.Scanning? then Gate else Retest
  {
    AfterSnoc(before, Go(p, Saw(id)));
  }
}
