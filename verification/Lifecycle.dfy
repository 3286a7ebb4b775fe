/**
  The snapshot lifecycle (crates/cce-engine/src/engine.rs, `index_inner` and `gc`)
  over any interleaving of full runs, checkpoints and garbage collections by several
  processes that share one index lease, one set of snapshots and one current pointer.
 */
module Lifecycle {
  import opened Wrappers

  /** The variant is hashed into a snapshot's id: full and checkpoint snapshots never share one. */
  datatype Id = FullId(n: nat) | CheckpointId(n: nat)

  datatype Kind = Full | Checkpoint | Collect

  /** Where a run stands: the comment says what it does next. */
  datatype Phase =
    | Scanning               // scan the worktree
    | Gate                   // full run: is the scanned snapshot complete?
    | ReadCurrent            // is it current?
    | Contending             // take the lease to activate it
    | Rescanning             // scan again, under the lease
    | Retest                 // is the rescanned snapshot complete?
    | Reread                 // is it current?
    | Activating             // the activation transaction
    | Reuse                  // is the snapshot complete, to be returned as it is?
    | Repair                 // repair views left unfinished, under the lease
    | Shards                 // rebuild search shards, under the lease or not at all
    | Write                  // take the lease, unless held, to build the snapshot
    | Begin                  // insert the snapshot's row
    | Build                  // commit the snapshot's records
    | Prune                  // read the current snapshot
    | Sweep(keep: Id)        // delete snapshots other than that one
    | Return                 // return, dropping the lease

  /** `held` is the run's own lease variable, `promised` the snapshot it activated or committed as current. */
  datatype Run = Run(kind: Kind, phase: Phase, target: Option<Id>, held: bool, acquired: nat, promised: Option<Id>)

  datatype System = System(complete: set<Id>, current: Option<Id>, lease: Option<nat>, runs: map<nat, Run>)

  /** What a step may find outside the model: a scan's result, a need for repair, a snapshot beyond retention. */
  datatype Finding = Saw(id: Id) | Needed(b: bool) | Victim(id: Id) | Enough

  /** `Stop` is any error return, cancellation or crash: the operating system frees the lease with its holder. */
  datatype Event = Start(pid: nat, kind: Kind) | Go(pid: nat, finding: Finding) | Stop(pid: nat)

  const INITIAL := System({}, None, None, map[])

  // ----- Steps -----

  function Ended(s: System, p: nat): System {
    s.(runs := s.runs - {p}, lease := if s.lease == Some(p) then None else s.lease)
  }

  function Moved(s: System, p: nat, r: Run): System {
    s.(runs := s.runs[p := r])
  }

  function Acquired(s: System, p: nat, r: Run, next: Phase): System {
    s.(lease := Some(p), runs := s.runs[p := r.(held := true, acquired := r.acquired + 1, phase := next)])
  }

  /** `IndexLease::acquire`, failing the run when another holds the lease */
  function OrBusy(s: System, p: nat, r: Run, next: Phase): System {
    if s.lease == None then Acquired(s, p, r, next) else Ended(s, p)
  }

  predicate Scannable(kind: Kind, id: Id) {
    (kind.Full? && id.FullId?) || (kind.Checkpoint? && id.CheckpointId?)
  }

  function Deleted(s: System, id: Id): System {
    s.(complete := s.complete - {id}, current := if s.current == Some(id) then None else s.current)
  }

  /** The steps before the run knows whether it will write. */
  function GateStep(s: System, p: nat, r: Run, id: Id): System {
    match r.phase
    case Gate => Moved(s, p, r.(phase := if r.kind.Full? && id in s.complete then ReadCurrent else Reuse))
    case ReadCurrent => Moved(s, p, r.(phase := if s.current == Some(id) then Reuse else Contending))
    case Contending => OrBusy(s, p, r, Rescanning)
    case Retest => Moved(s, p, r.(phase := if id in s.complete then Reread else Reuse))
    case Reread => Moved(s, p, r.(phase := if s.current == Some(id) then Reuse else Activating))
    case Activating =>
      if id in s.complete then Moved(s, p, r.(phase := Reuse, promised := Some(id))).(current := Some(id)) else Ended(s, p)
    case _ => s
  }

  function ReuseStep(s: System, p: nat, r: Run, id: Id, needed: bool): System {
    match r.phase
    case Reuse => Moved(s, p, r.(phase := if id !in s.complete then Write else if r.kind.Full? then Repair else Return))
    case Repair => if needed && !r.held then OrBusy(s, p, r, Shards) else Moved(s, p, r.(phase := Shards))
    case Shards =>
      if needed && !r.held && s.lease == None then Acquired(s, p, r, Return) else Moved(s, p, r.(phase := Return))
    case _ => s
  }

  /** Inserting the row replaces one with the same id, and the foreign key clears a current pointer to it. */
  function WriteStep(s: System, p: nat, r: Run, id: Id): System {
    match r.phase
    case Write => if r.held then Moved(s, p, r.(phase := Begin)) else OrBusy(s, p, r, Begin)
    case Begin => Moved(Deleted(s, id), p, r.(phase := Build))
    case Build =>
      var committed := s.(complete := s.complete + {id});
      if r.kind.Full? then Moved(committed, p, r.(phase := Prune, promised := Some(id))).(current := Some(id))
      else Moved(committed, p, r.(phase := Prune))
    case _ => s
  }

  function PruneStep(s: System, p: nat, r: Run, finding: Finding): System {
    match r.phase
    case Prune => if s.current.Some? then Moved(s, p, r.(phase := Sweep(s.current.value))) else Moved(s, p, r.(phase := Return))
    case Sweep(keep) =>
      if finding.Victim? && finding.id != keep then Deleted(s, finding.id)
      else if finding.Enough? then Moved(s, p, r.(phase := Return))
      else s
    case _ => s
  }

  function ScanStep(s: System, p: nat, r: Run, finding: Finding): System {
    if finding.Saw? && Scannable(r.kind, finding.id)
    then Moved(s, p, r.(target := Some(finding.id), phase := if r.phase.Scanning? then Gate else Retest))
    else s
  }

  predicate Gating(phase: Phase) {
    phase.Gate? || phase.ReadCurrent? || phase.Contending? || phase.Retest? || phase.Reread? || phase.Activating?
  }

  predicate Reusing(phase: Phase) {
    phase.Reuse? || phase.Repair? || phase.Shards?
  }

  function Step(s: System, p: nat, r: Run, finding: Finding): System {
    if r.phase.Scanning? || r.phase.Rescanning? then ScanStep(s, p, r, finding)
    else if r.phase.Prune? || r.phase.Sweep? then PruneStep(s, p, r, finding)
    else if r.phase.Return? then Ended(s, p)
    else if r.kind.Collect? then (if r.phase.Write? then OrBusy(s, p, r, Prune) else s)
    else if r.target.None? then s
    else if Gating(r.phase) then GateStep(s, p, r, r.target.value)
    else if Reusing(r.phase) then ReuseStep(s, p, r, r.target.value, finding.Needed? && finding.b)
    else WriteStep(s, p, r, r.target.value)
  }

  function Next(s: System, e: Event): System {
    match e
    case Start(p, kind) =>
      if p in s.runs then s else Moved(s, p, Run(kind, if kind.Collect? then Write else Scanning, None, false, 0, None))
    case Go(p, finding) => if p in s.runs then Step(s, p, s.runs[p], finding) else s
    case Stop(p) => if p in s.runs then Ended(s, p) else s
  }

  function After(events: seq<Event>): System {
    if events == [] then INITIAL else Next(After(events[..|events| - 1]), events[|events| - 1])
  }

  // ----- Invariant -----

  /** Phases that only a lease holder is in. */
  predicate Exclusive(phase: Phase) {
    phase.Rescanning? || phase.Retest? || phase.Reread? || phase.Activating? || phase.Begin? || phase.Build? || phase.Prune? || phase.Sweep?
  }

  /** Phases before any lease. */
  predicate Unleased(phase: Phase) {
    phase.Scanning? || phase.Gate? || phase.ReadCurrent? || phase.Contending?
  }

  /** Phases a run can be in once it has set the current pointer. */
  predicate Settled(phase: Phase) {
    phase.Reuse? || phase.Repair? || phase.Shards? || phase.Prune? || phase.Sweep? || phase.Return?
  }

  /** What a run knows of itself. */
  predicate RunSane(r: Run) {
    && r.acquired == (if r.held then 1 else 0)
    && (Exclusive(r.phase) ==> r.held) && (Unleased(r.phase) ==> !r.held)
    && (r.target.Some? ==> Scannable(r.kind, r.target.value))
    && (r.kind.Collect? ==> r.phase.Write? || r.phase.Prune? || r.phase.Sweep? || r.phase.Return?)
    && (r.kind.Collect? && r.phase.Write? ==> !r.held)
    && (!r.kind.Collect? && !r.phase.Scanning? && !r.phase.Rescanning? ==> r.target.Some?)
    && (r.kind.Checkpoint? ==> !r.phase.ReadCurrent? && !r.phase.Contending? && !r.phase.Rescanning? && !r.phase.Retest?
                               && !r.phase.Reread? && !r.phase.Activating?)
    && (r.promised.Some? ==> r.kind.Full? && r.held && r.promised == r.target && Settled(r.phase))
  }

  /** What a lease holder knows of the shared state. */
  predicate HolderKnows(r: Run, complete: set<Id>, current: Option<Id>) {
    && (r.phase.Activating? && r.target.Some? ==> r.target.value in complete)
    && (r.phase.Reread? && r.target.Some? ==> r.target.value in complete)
    && (r.phase.Sweep? ==> current == Some(r.phase.keep))
    && (r.promised.Some? ==> current == r.promised && r.promised.value in complete)
  }

  predicate Served(complete: set<Id>, current: Option<Id>) {
    current.Some? ==> current.value.FullId? && current.value in complete
  }

  predicate LeaseSane(s: System) {
    && (forall p :: p in s.runs ==> (s.runs[p].held <==> s.lease == Some(p)))
    && (s.lease.Some? ==> s.lease.value in s.runs)
  }

  predicate Inv(s: System) {
    && LeaseSane(s) && Served(s.complete, s.current)
    && (forall p :: p in s.runs ==> RunSane(s.runs[p]))
    && (s.lease.Some? ==> HolderKnows(s.runs[s.lease.value], s.complete, s.current))
  }

  lemma EndedKeeps(s: System, p: nat)
    requires Inv(s)
    ensures Inv(Ended(s, p))
  {
  }

  /** A run that moves on without touching the lease or the shared state. */
  lemma MovedKeeps(s: System, p: nat, r: Run)
    requires Inv(s) && RunSane(r) && (p in s.runs ==> r.held == s.runs[p].held) && (p !in s.runs ==> !r.held)
    requires r.held ==> HolderKnows(r, s.complete, s.current)
    ensures Inv(Moved(s, p, r))
  {
  }

  lemma AcquiredKeeps(s: System, p: nat, r: Run, next: Phase)
    requires Inv(s) && p in s.runs && s.runs[p] == r && s.lease == None
    requires RunSane(r.(held := true, acquired := r.acquired + 1, phase := next))
    requires !next.Activating? && !next.Reread? && !next.Sweep? && r.promised.None?
    ensures Inv(Acquired(s, p, r, next))
  {
  }

  lemma OrBusyKeeps(s: System, p: nat, r: Run, next: Phase)
    requires Inv(s) && p in s.runs && s.runs[p] == r && !r.held
    requires RunSane(r.(held := true, acquired := r.acquired + 1, phase := next))
    requires !next.Activating? && !next.Reread? && !next.Sweep?
    ensures Inv(OrBusy(s, p, r, next))
  {
    EndedKeeps(s, p);
    if s.lease == None { AcquiredKeeps(s, p, r, next); }
  }

  /** The lease holder changes the shared state and moves on. */
  lemma HolderKeeps(s: System, p: nat, r: Run, complete: set<Id>, current: Option<Id>)
    requires Inv(s) && p in s.runs && s.runs[p].held && r.held && RunSane(r)
    requires Served(complete, current) && HolderKnows(r, complete, current)
    ensures Inv(Moved(s, p, r).(complete := complete, current := current))
  {
  }

  lemma GateStepKeeps(s: System, p: nat)
    requires Inv(s) && p in s.runs && s.runs[p].target.Some? && !s.runs[p].kind.Collect?
    ensures Inv(GateStep(s, p, s.runs[p], s.runs[p].target.value))
  {
    var r, id := s.runs[p], s.runs[p].target.value;
    EndedKeeps(s, p);
    match r.phase
    case Gate => MovedKeeps(s, p, r.(phase := if r.kind.Full? && id in s.complete then ReadCurrent else Reuse));
    case ReadCurrent => MovedKeeps(s, p, r.(phase := if s.current == Some(id) then Reuse else Contending));
    case Contending => OrBusyKeeps(s, p, r, Rescanning);
    case Retest => MovedKeeps(s, p, r.(phase := if id in s.complete then Reread else Reuse));
    case Reread => MovedKeeps(s, p, r.(phase := if s.current == Some(id) then Reuse else Activating));
    case Activating =>
      if id in s.complete { HolderKeeps(s, p, r.(phase := Reuse, promised := Some(id)), s.complete, Some(id)); }
    case _ =>
  }

  lemma ReuseStepKeeps(s: System, p: nat, needed: bool)
    requires Inv(s) && p in s.runs && s.runs[p].target.Some? && !s.runs[p].kind.Collect?
    ensures Inv(ReuseStep(s, p, s.runs[p], s.runs[p].target.value, needed))
  {
    var r, id := s.runs[p], s.runs[p].target.value;
    match r.phase
    case Reuse => MovedKeeps(s, p, r.(phase := if id !in s.complete then Write else if r.kind.Full? then Repair else Return));
    case Repair => if needed && !r.held { OrBusyKeeps(s, p, r, Shards); } else { MovedKeeps(s, p, r.(phase := Shards)); }
    case Shards =>
      if needed && !r.held && s.lease == None { AcquiredKeeps(s, p, r, Return); } else { MovedKeeps(s, p, r.(phase := Return)); }
    case _ =>
  }

  lemma WriteStepKeeps(s: System, p: nat)
    requires Inv(s) && p in s.runs && s.runs[p].target.Some? && !s.runs[p].kind.Collect?
    ensures Inv(WriteStep(s, p, s.runs[p], s.runs[p].target.value))
  {
    var r, id := s.runs[p], s.runs[p].target.value;
    match r.phase
    case Write => if r.held { MovedKeeps(s, p, r.(phase := Begin)); } else { OrBusyKeeps(s, p, r, Begin); }
    case Begin => HolderKeeps(s, p, r.(phase := Build), Deleted(s, id).complete, Deleted(s, id).current);
    case Build =>
      if r.kind.Full? {
        HolderKeeps(s, p, r.(phase := Prune, promised := Some(id)), s.complete + {id}, Some(id));
      } else {
        HolderKeeps(s, p, r.(phase := Prune), s.complete + {id}, s.current);
      }
    case _ =>
  }

  lemma PruneStepKeeps(s: System, p: nat, finding: Finding)
    requires Inv(s) && p in s.runs
    ensures Inv(PruneStep(s, p, s.runs[p], finding))
  {
    var r := s.runs[p];
    match r.phase
    case Prune => MovedKeeps(s, p, r.(phase := if s.current.Some? then Sweep(s.current.value) else Return));
    case Sweep(keep) =>
      if finding.Victim? && finding.id != keep {
        HolderKeeps(s, p, r, Deleted(s, finding.id).complete, Deleted(s, finding.id).current);
        assert s.runs[p := r] == s.runs;
      } else if finding.Enough? {
        MovedKeeps(s, p, r.(phase := Return));
      }
    case _ =>
  }

  lemma ScanStepKeeps(s: System, p: nat, finding: Finding)
    requires Inv(s) && p in s.runs && (s.runs[p].phase.Scanning? || s.runs[p].phase.Rescanning?)
    ensures Inv(ScanStep(s, p, s.runs[p], finding))
  {
    var r := s.runs[p];
    if finding.Saw? && Scannable(r.kind, finding.id) {
      MovedKeeps(s, p, r.(target := Some(finding.id), phase := if r.phase.Scanning? then Gate else Retest));
    }
  }

  lemma StepKeeps(s: System, p: nat, finding: Finding)
    requires Inv(s) && p in s.runs
    ensures Inv(Step(s, p, s.runs[p], finding))
  {
    var r := s.runs[p];
    EndedKeeps(s, p);
    PruneStepKeeps(s, p, finding);
    if r.phase.Scanning? || r.phase.Rescanning? {
      ScanStepKeeps(s, p, finding);
    } else if r.kind.Collect? {
      if r.phase.Write? { OrBusyKeeps(s, p, r, Prune); }
    } else if r.target.Some? {
      GateStepKeeps(s, p);
      ReuseStepKeeps(s, p, finding.Needed? && finding.b);
      WriteStepKeeps(s, p);
    }
  }

  lemma NextKeeps(s: System, e: Event)
    requires Inv(s)
    ensures Inv(Next(s, e))
  {
    match e
    case Start(p, kind) =>
      if p !in s.runs { MovedKeeps(s, p, Run(kind, if kind.Collect? then Write else Scanning, None, false, 0, None)); }
    case Go(p, finding) => if p in s.runs { StepKeeps(s, p, finding); }
    case Stop(p) => EndedKeeps(s, p);
  }

  lemma {:induction false} AlwaysInv(events: seq<Event>)
    ensures Inv(After(events))
    decreases |events|
  {
    if events != [] {
      AlwaysInv(events[..|events| - 1]);
      NextKeeps(After(events[..|events| - 1]), events[|events| - 1]);
    }
  }

  // ----- What every history keeps -----

  /** The current pointer names a full snapshot that is complete. */
  lemma CurrentIsComplete(events: seq<Event>)
    ensures var s := After(events); s.current.Some? ==> s.current.value in s.complete && s.current.value.FullId?
  {
    AlwaysInv(events);
  }

  /** One lease holder at a time, in the phases that write; and no run ever takes the lease twice. */
  lemma LeaseIsExclusive(events: seq<Event>, p: nat, q: nat)
    requires p in After(events).runs && q in After(events).runs
    ensures var s := After(events);
            && s.runs[p].acquired <= 1
            && (Exclusive(s.runs[p].phase) && Exclusive(s.runs[q].phase) ==> p == q)
  {
    AlwaysInv(events);
  }

  /** A full run that activated or committed a snapshot still finds it current, complete and its own result when it returns. */
  lemma PromisesAreKept(events: seq<Event>, p: nat)
    requires p in After(events).runs && After(events).runs[p].promised.Some?
    ensures var s := After(events);
            && s.lease == Some(p) && s.current == s.runs[p].promised == s.runs[p].target
            && s.current.value in s.complete
  {
    AlwaysInv(events);
  }

  /** The step of a run that sets the current pointer: an activation, or the commit of a full run. */
  predicate Promotes(s: System, p: nat, id: Id) {
    && p in s.runs && s.lease == Some(p) && s.runs[p].kind.Full? && s.runs[p].target == Some(id)
    && ((s.runs[p].phase.Activating? && id in s.complete) || s.runs[p].phase.Build?)
  }

  /** The step that rewrites a snapshot: it makes the row incomplete, and clears a pointer to it. */
  predicate Rewrites(s: System, p: nat, id: Id) {
    p in s.runs && s.lease == Some(p) && s.runs[p].target == Some(id) && s.runs[p].phase.Begin? && !s.runs[p].kind.Collect?
  }

  lemma {:induction false} OneStepMoves(s: System, e: Event)
    requires Inv(s) && Next(s, e).current != s.current
    ensures e.Go? && e.pid in s.runs && s.runs[e.pid].target.Some?
    ensures Next(s, e).current.Some? ==>
              Promotes(s, e.pid, Next(s, e).current.value) && Next(s, e).current.value in Next(s, e).complete
    ensures Next(s, e).current.None? ==> Rewrites(s, e.pid, s.current.value)
  {
    assert e.Go? && e.pid in s.runs;
    var r := s.runs[e.pid];
    assert r.phase.Activating? || r.phase.Build? || r.phase.Begin?;
  }

  /** The pointer moves only to a snapshot complete at that moment, and is cleared only when a full run rewrites that very snapshot. */
  lemma CurrentMovesOnlyByPromotion(events: seq<Event>, e: Event)
    requires Next(After(events), e).current != After(events).current
    ensures var s, s' := After(events), Next(After(events), e);
            && e.Go?
            && (s'.current.Some? ==> Promotes(s, e.pid, s'.current.value) && s'.current.value in s'.complete)
            && (s'.current.None? ==> Rewrites(s, e.pid, s.current.value) && s.runs[e.pid].kind.Full?)
  {
    AlwaysInv(events);
    OneStepMoves(After(events), e);
  }

  /** A set pointer is cleared exactly by a step that rewrites the snapshot it names. */
  lemma CurrentIsClearedExactly(events: seq<Event>, e: Event)
    requires After(events).current.Some?
    ensures Next(After(events), e).current.None? <==> e.Go? && Rewrites(After(events), e.pid, After(events).current.value)
  {
    AlwaysInv(events);
    var s := After(events);
    if Next(s, e).current != s.current { OneStepMoves(s, e); }
    if e.Go? && Rewrites(s, e.pid, s.current.value) {
      assert Next(s, e) == WriteStep(s, e.pid, s.runs[e.pid], s.current.value);
    }
  }

  /** Checkpoints and collections never move the pointer, and it never names a checkpoint. */
  lemma OnlyFullRunsMoveCurrent(events: seq<Event>, e: Event)
    requires !e.Start? && e.pid in After(events).runs && !After(events).runs[e.pid].kind.Full?
    ensures Next(After(events), e).current == After(events).current
  {
    AlwaysInv(events);
    if Next(After(events), e).current != After(events).current {
      OneStepMoves(After(events), e);
    }
  }

  /** A snapshot stops being complete only by being rewritten or pruned, and pruning spares the current one. */
  lemma CompleteIsLostOnlyUnderTheLease(events: seq<Event>, e: Event, id: Id)
    requires id in After(events).complete && id !in Next(After(events), e).complete
    ensures var s := After(events);
            && e.Go? && s.lease == Some(e.pid)
            && (Rewrites(s, e.pid, id) || (s.runs[e.pid].phase.Sweep? && s.current != Some(id)))
  {
    AlwaysInv(events);
  }

  // ----- A pointer can be lost -----

  lemma AfterSnoc(events: seq<Event>, e: Event)
    ensures After(events + [e]) == Next(After(events), e)
  {
    assert (events + [e])[..|events|] == events;
  }

  /** A full run that found its snapshot incomplete and waits to write it. */
  predicate Waiting(s: System, p: nat, id: Id) {
    p in s.runs && s.runs[p] == Run(Full, Write, Some(id), false, 0, None)
  }

  /** A run that decides to write before another run commits the same snapshot clears the pointer to it, and may then die. */
  lemma LateWriterClearsCurrent(events: seq<Event>, p: nat, id: Id) returns (more: seq<Event>)
    requires Waiting(After(events), p, id) && After(events).lease == None
    requires After(events).current == Some(id)
    ensures events <= more && After(more).current == None && id !in After(more).complete && p !in After(more).runs
  {
    more := events + [Go(p, Enough)] + [Go(p, Enough)] + [Stop(p)];
    AfterSnoc(events, Go(p, Enough));
    AfterSnoc(events + [Go(p, Enough)], Go(p, Enough));
    AfterSnoc(events + [Go(p, Enough)] + [Go(p, Enough)], Stop(p));
    AlwaysInv(events);
  }

  /** From its start, a full run that sees an incomplete snapshot comes to wait for the lease. */
  lemma ComesToWait(events: seq<Event>, p: nat, id: Id) returns (more: seq<Event>)
    requires p !in After(events).runs && id.FullId? && id !in After(events).complete
    ensures After(more) == Moved(After(events), p, Run(Full, Write, Some(id), false, 0, None))
  {
    var e1 := events + [Start(p, Full)];
    AfterSnoc(events, Start(p, Full));
    var e2 := e1 + [Go(p, Saw(id))];
    AfterSnoc(e1, Go(p, Saw(id)));
    var e3 := e2 + [Go(p, Enough)];
    AfterSnoc(e2, Go(p, Enough));
    more := e3 + [Go(p, Enough)];
    AfterSnoc(e3, Go(p, Enough));
  }

  /** A waiting run that meets no other lease commits its snapshot and makes it current. */
  lemma Commits(events: seq<Event>, p: nat, id: Id) returns (more: seq<Event>)
    requires Waiting(After(events), p, id) && After(events).lease == None
    ensures After(more).current == Some(id) && id in After(more).complete && After(more).lease == None
    ensures After(more).runs == After(events).runs - {p}
  {
    var e1 := events + [Go(p, Enough)];
    AfterSnoc(events, Go(p, Enough));
    var e2 := e1 + [Go(p, Enough)];
    AfterSnoc(e1, Go(p, Enough));
    var e3 := e2 + [Go(p, Enough)];
    AfterSnoc(e2, Go(p, Enough));
    more := e3 + [Stop(p)];
    AfterSnoc(e3, Stop(p));
  }

  /** Two runs of one snapshot can leave the repository without a current snapshot after one of them committed it. */
  lemma CommittedPointerCanBeLost(id: Id) returns (committed: seq<Event>, lost: seq<Event>)
    requires id.FullId?
    ensures After(committed).current == Some(id) && id in After(committed).complete
    ensures committed <= lost && After(lost).current == None && id !in After(lost).complete
  {
    var first := ComesToWait([], 0, id);
    var both := ComesToWait(first, 1, id);
    committed := Commits(both, 0, id);
    lost := LateWriterClearsCurrent(committed, 1, id);
  }
}
