/**
  The two greedy passes of the context packer (crates/cce-engine/src/context.rs)
  as functions of what has shipped so far, and what they keep: the selection is
  admissible and maximal, rejections are permanent and leave no trace.
 */
module Admission {
  import opened ContextHits
  import opened Wrappers

  datatype Reason = Budget | DuplicateRange | FileCap | DuplicateEntity

  const FILE_CAP: nat := 4

  const QUOTA_ROLES: seq<Role> := [Test, Contract, Caller, Config, History, Knowledge]

  /** What a pack is made from: classified hits in rank order, a token budget and a price for each hit. */
  datatype Job = Job(cost: Hit -> nat, budget: nat, candidates: seq<Candidate>)

  type Shipment = seq<Candidate>

  // ----- Admission -----

  predicate SameRange(a: Hit, b: Hit) {
    && a.address.Some? && b.address.Some?
    && a.address.value.path == b.address.value.path
    && a.address.value.startByte == b.address.value.startByte
    && a.address.value.endByte == b.address.value.endByte
  }

  predicate InFile(hit: Hit, path: string) {
    hit.address.Some? && hit.address.value.path == path
  }

  function FileCount(shipped: Shipment, path: string): nat {
    if shipped == [] then 0 else
    FileCount(shipped[..|shipped| - 1], path) + if InFile(shipped[|shipped| - 1].hit, path) then 1 else 0
  }

  predicate RangeShipped(shipped: Shipment, hit: Hit) {
    exists i :: 0 <= i < |shipped| && SameRange(shipped[i].hit, hit)
  }

  predicate EntityShipped(shipped: Shipment, hit: Hit) {
    exists i :: 0 <= i < |shipped| && shipped[i].hit.entityId == hit.entityId
  }

  predicate Taken(shipped: Shipment, id: string) {
    exists i :: 0 <= i < |shipped| && shipped[i].hit.documentId == id
  }

  function SaturatingSub(a: nat, b: nat): nat {
    if a <= b then 0 else a - b
  }

  /** Why a hit cannot ship after a shipment, or None. */
  function Verdict(job: Job, shipped: Shipment, used: nat, hit: Hit): Option<Reason> {
    if RangeShipped(shipped, hit) then Some(DuplicateRange)
    else if hit.address.Some? && FileCount(shipped, hit.address.value.path) >= FILE_CAP then Some(FileCap)
    else if hit.address.None? && EntityShipped(shipped, hit) then Some(DuplicateEntity)
    else if job.cost(hit) > SaturatingSub(job.budget, used) then Some(Budget)
    else None
  }

  /** The places of a shipment that lie in a file. */
  function PlacesIn(shipped: Shipment, path: string): set<nat> {
    set i | 0 <= i < |shipped| && InFile(shipped[i].hit, path)
  }

  lemma {:induction false} FileCountIsPlaces(shipped: Shipment, path: string)
    ensures FileCount(shipped, path) == |PlacesIn(shipped, path)|
  {
    if shipped != [] {
      var n := |shipped| - 1;
      var front := shipped[..n];
      FileCountIsPlaces(front, path);
      assert PlacesIn(shipped, path) == if InFile(shipped[n].hit, path) then PlacesIn(front, path) + {n} else PlacesIn(front, path);
    }
  }

  predicate SamePlace(a: Hit, b: Hit) {
    && a.address.Some? && b.address.Some? && a.address.value.path == b.address.value.path
    && a.address.value.startByte == b.address.value.startByte && a.address.value.endByte == b.address.value.endByte
  }

  predicate PlaceShipped(shipped: Shipment, hit: Hit) {
    exists i :: 0 <= i < |shipped| && SamePlace(shipped[i].hit, hit)
  }

  /** Each rule by its own condition: a repeated range, a fifth range of a file, a repeated entity without a range, and the budget. */
  lemma VerdictExactly(job: Job, shipped: Shipment, used: nat, hit: Hit)
    requires used <= job.budget
    ensures var verdict := Verdict(job, shipped, used, hit);
            var full := hit.address.Some? && |PlacesIn(shipped, hit.address.value.path)| >= 4;
            var known := hit.address.None? && EntityShipped(shipped, hit);
            && (verdict == Some(DuplicateRange) <==> PlaceShipped(shipped, hit))
            && (verdict == Some(FileCap) <==> !PlaceShipped(shipped, hit) && full)
            && (verdict == Some(DuplicateEntity) <==> known)
            && (verdict == Some(Budget) <==> !PlaceShipped(shipped, hit) && !full && !known && used + job.cost(hit) > job.budget)
            && (verdict == None <==> !PlaceShipped(shipped, hit) && !full && !known && used + job.cost(hit) <= job.budget)
  {
    if hit.address.Some? { FileCountIsPlaces(shipped, hit.address.value.path); }
    assert RangeShipped(shipped, hit) <==> PlaceShipped(shipped, hit) by {
      if i :| 0 <= i < |shipped| && SameRange(shipped[i].hit, hit) { assert SamePlace(shipped[i].hit, hit); }
      if i :| 0 <= i < |shipped| && SamePlace(shipped[i].hit, hit) { assert SameRange(shipped[i].hit, hit); }
    }
  }

  // ----- The passes -----

  datatype State = State(shipped: Shipment, used: nat, reasons: map<string, Reason>)

  function VerdictAt(job: Job, st: State, hit: Hit): Option<Reason> {
    Verdict(job, st.shipped, st.used, hit)
  }

  function Attempt(job: Job, st: State, c: Candidate): State {
    match VerdictAt(job, st, c.hit)
    case None => st.(shipped := st.shipped + [c], used := st.used + job.cost(c.hit))
    case Some(reason) => st.(reasons := st.reasons[c.hit.documentId := reason])
  }

  predicate IsOpen(c: Candidate, role: Role, shipped: Shipment) {
    c.role == role && !Taken(shipped, c.hit.documentId)
  }

  /** The first candidate of a role that is not taken, or the number of candidates. */
  function FirstOpen(candidates: seq<Candidate>, role: Role, shipped: Shipment, start: nat): (n: nat)
    requires start <= |candidates|
    ensures start <= n <= |candidates|
    ensures n < |candidates| ==> IsOpen(candidates[n], role, shipped)
    ensures forall i :: start <= i < n ==> !IsOpen(candidates[i], role, shipped)
    decreases |candidates| - start
  {
    if start == |candidates| || IsOpen(candidates[start], role, shipped) then start
    else FirstOpen(candidates, role, shipped, start + 1)
  }

  function Pick(job: Job, st: State, role: Role): nat {
    FirstOpen(job.candidates, role, st.shipped, 0)
  }

  function RoleStep(job: Job, st: State, role: Role): State {
    var n := Pick(job, st, role);
    if n < |job.candidates| then Attempt(job, st, job.candidates[n]) else st
  }

  function RolePass(job: Job, st: State, k: nat): State
    requires k <= |QUOTA_ROLES|
    decreases k
  {
    if k == 0 then st else RoleStep(job, RolePass(job, st, k - 1), QUOTA_ROLES[k - 1])
  }

  function FillStep(job: Job, st: State, c: Candidate): State {
    if Taken(st.shipped, c.hit.documentId) then st else Attempt(job, st, c)
  }

  function FillPass(job: Job, st: State, k: nat): State
    requires k <= |job.candidates|
    decreases k
  {
    if k == 0 then st else FillStep(job, FillPass(job, st, k - 1), job.candidates[k - 1])
  }

  /** Nothing shipped, with the orientation's tokens already used. */
  function Start(base: nat): State {
    State([], base, map[])
  }

  function Preselected(job: Job, base: nat): State {
    RolePass(job, Start(base), |QUOTA_ROLES|)
  }

  function Filled(job: Job, base: nat, k: nat): State
    requires k <= |job.candidates|
  {
    FillPass(job, Preselected(job, base), k)
  }

  function Packed(job: Job, base: nat): State {
    Filled(job, base, |job.candidates|)
  }

  // ----- Shipments only grow -----

  predicate Grows(a: State, b: State) {
    a.shipped <= b.shipped && a.used <= b.used
  }

  lemma AttemptGrows(job: Job, st: State, c: Candidate)
    ensures Grows(st, Attempt(job, st, c))
  {
  }

  lemma {:induction false} RolePassGrows(job: Job, st: State, i: nat, k: nat)
    requires i <= k <= |QUOTA_ROLES|
    ensures Grows(RolePass(job, st, i), RolePass(job, st, k))
    decreases k
  {
    if i < k {
      RolePassGrows(job, st, i, k - 1);
      var before := RolePass(job, st, k - 1);
      var n := Pick(job, before, QUOTA_ROLES[k - 1]);
      if n < |job.candidates| { AttemptGrows(job, before, job.candidates[n]); }
      GrowsOn(RolePass(job, st, i), before, RolePass(job, st, k));
    }
  }

  lemma GrowsOn(a: State, b: State, c: State)
    requires Grows(a, b) && Grows(b, c)
    ensures Grows(a, c)
  {
    assert c.shipped[..|b.shipped|] == b.shipped && b.shipped[..|a.shipped|] == a.shipped;
    assert c.shipped[..|a.shipped|] == c.shipped[..|b.shipped|][..|a.shipped|];
  }

  lemma FillStepGrows(job: Job, st: State, c: Candidate)
    ensures Grows(st, FillStep(job, st, c))
  {
    AttemptGrows(job, st, c);
  }

  lemma {:induction false} FillPassGrows(job: Job, st: State, i: nat, k: nat)
    requires i <= k <= |job.candidates|
    ensures Grows(FillPass(job, st, i), FillPass(job, st, k))
    decreases k
  {
    if i < k {
      FillPassGrows(job, st, i, k - 1);
      FillStepGrows(job, FillPass(job, st, k - 1), job.candidates[k - 1]);
      GrowsOn(FillPass(job, st, i), FillPass(job, st, k - 1), FillPass(job, st, k));
    }
  }

  lemma {:induction false} CountGrows(a: Shipment, b: Shipment, path: string)
    requires a <= b
    ensures FileCount(a, path) <= FileCount(b, path)
    decreases |b|
  {
    if |a| < |b| {
      assert a <= b[..|b| - 1];
      CountGrows(a, b[..|b| - 1], path);
    } else {
      assert a == b;
    }
  }

  lemma TakenGrows(a: Shipment, b: Shipment, id: string)
    requires a <= b && Taken(a, id)
    ensures Taken(b, id)
  {
    var i :| 0 <= i < |a| && a[i].hit.documentId == id;
    assert b[i] == a[i];
  }

  lemma NotTakenBefore(a: Shipment, b: Shipment, id: string)
    requires a <= b && !Taken(b, id)
    ensures !Taken(a, id)
  {
    forall i | 0 <= i < |a| ensures a[i].hit.documentId != id {
      assert b[i] == a[i];
    }
  }

  /** A hit rejected once is rejected ever after, though perhaps for another reason. */
  lemma RejectionIsPermanent(job: Job, a: State, b: State, hit: Hit)
    requires Grows(a, b) && VerdictAt(job, a, hit).Some?
    ensures VerdictAt(job, b, hit).Some?
  {
    if hit.address.Some? { CountGrows(a.shipped, b.shipped, hit.address.value.path); }
    if RangeShipped(a.shipped, hit) {
      var i :| 0 <= i < |a.shipped| && SameRange(a.shipped[i].hit, hit);
      assert SameRange(b.shipped[i].hit, hit);
    }
    if EntityShipped(a.shipped, hit) {
      var i :| 0 <= i < |a.shipped| && a.shipped[i].hit.entityId == hit.entityId;
      assert b.shipped[i].hit.entityId == hit.entityId;
    }
  }

  // ----- Admissible -----

  function TotalCost(job: Job, shipped: Shipment): nat {
    if shipped == [] then 0 else TotalCost(job, shipped[..|shipped| - 1]) + job.cost(shipped[|shipped| - 1].hit)
  }

  /** No document, no range and, for a hit without an address, no earlier entity ships again. */
  predicate NoneRepeated(shipped: Shipment) {
    forall a, b :: 0 <= a < b < |shipped| ==>
      && shipped[a].hit.documentId != shipped[b].hit.documentId
      && !SameRange(shipped[a].hit, shipped[b].hit)
      && (shipped[b].hit.address.None? ==> shipped[a].hit.entityId != shipped[b].hit.entityId)
  }

  ghost predicate Capped(shipped: Shipment) {
    forall path :: FileCount(shipped, path) <= 4
  }

  predicate Drawn(shipped: Shipment, candidates: seq<Candidate>) {
    forall i :: 0 <= i < |shipped| ==> shipped[i] in candidates
  }

  ghost predicate Admissible(job: Job, base: nat, st: State) {
    && st.used == base + TotalCost(job, st.shipped) <= job.budget
    && NoneRepeated(st.shipped) && Capped(st.shipped) && Drawn(st.shipped, job.candidates)
  }

  lemma ShippedNext(job: Job, shipped: Shipment, used: nat, c: Candidate)
    requires NoneRepeated(shipped) && Capped(shipped)
    requires Verdict(job, shipped, used, c.hit).None? && !Taken(shipped, c.hit.documentId)
    ensures NoneRepeated(shipped + [c]) && Capped(shipped + [c])
    ensures TotalCost(job, shipped + [c]) == TotalCost(job, shipped) + job.cost(c.hit)
  {
    var more := shipped + [c];
    assert more[..|shipped|] == shipped;
    forall a, b | 0 <= a < b < |more|
      ensures more[a].hit.documentId != more[b].hit.documentId
      ensures !SameRange(more[a].hit, more[b].hit)
      ensures more[b].hit.address.None? ==> more[a].hit.entityId != more[b].hit.entityId
    {
      assert more[a] == shipped[a];
    }
  }

  lemma AttemptKeeps(job: Job, base: nat, st: State, c: Candidate)
    requires Admissible(job, base, st) && !Taken(st.shipped, c.hit.documentId) && c in job.candidates
    ensures Admissible(job, base, Attempt(job, st, c))
  {
    if VerdictAt(job, st, c.hit).None? {
      ShippedNext(job, st.shipped, st.used, c);
    }
  }

  lemma StartIsAdmissible(job: Job, base: nat)
    requires base <= job.budget
    ensures Admissible(job, base, Start(base))
  {
  }

  lemma {:induction false} RolePassAdmissible(job: Job, base: nat, k: nat)
    requires base <= job.budget && k <= |QUOTA_ROLES|
    ensures Admissible(job, base, RolePass(job, Start(base), k))
    decreases k
  {
    if k == 0 {
      StartIsAdmissible(job, base);
    } else {
      RolePassAdmissible(job, base, k - 1);
      var before := RolePass(job, Start(base), k - 1);
      var n := Pick(job, before, QUOTA_ROLES[k - 1]);
      if n < |job.candidates| { AttemptKeeps(job, base, before, job.candidates[n]); }
    }
  }

  lemma {:induction false} FilledAdmissible(job: Job, base: nat, k: nat)
    requires base <= job.budget && k <= |job.candidates|
    ensures Admissible(job, base, Filled(job, base, k))
    decreases k
  {
    if k == 0 {
      RolePassAdmissible(job, base, |QUOTA_ROLES|);
    } else {
      FilledAdmissible(job, base, k - 1);
      var before, c := Filled(job, base, k - 1), job.candidates[k - 1];
      if !Taken(before.shipped, c.hit.documentId) { AttemptKeeps(job, base, before, c); }
    }
  }

  /** The tokens used are those of the shipped items, within the budget; no rule is broken by any two shipped hits. */
  lemma PackIsAdmissible(job: Job, base: nat)
    requires base <= job.budget
    ensures Admissible(job, base, Packed(job, base))
  {
    FilledAdmissible(job, base, |job.candidates|);
  }

  // ----- Maximal -----

  lemma AfterFillStep(job: Job, st: State, c: Candidate)
    ensures var after := FillStep(job, st, c);
            Taken(after.shipped, c.hit.documentId) || VerdictAt(job, after, c.hit).Some?
  {
    var after := Attempt(job, st, c);
    if VerdictAt(job, st, c.hit).None? {
      assert after.shipped[|st.shipped|] == c;
    }
  }

  /** No omitted hit could still be admitted: not by what has shipped, and not by the tokens left. */
  lemma PackIsMaximal(job: Job, base: nat, i: nat)
    requires i < |job.candidates|
    ensures var last := Packed(job, base);
            Taken(last.shipped, job.candidates[i].hit.documentId) || VerdictAt(job, last, job.candidates[i].hit).Some?
  {
    var c, after, last := job.candidates[i], Filled(job, base, i + 1), Packed(job, base);
    AfterFillStep(job, Filled(job, base, i), c);
    FillPassGrows(job, Preselected(job, base), i + 1, |job.candidates|);
    if Taken(after.shipped, c.hit.documentId) {
      TakenGrows(after.shipped, last.shipped, c.hit.documentId);
    } else {
      RejectionIsPermanent(job, after, last, c.hit);
    }
  }

  lemma TurnTaken(job: Job, st: State, role: Role, n: nat)
    requires n < |job.candidates| && job.candidates[n].role == role
    requires forall i :: 0 <= i < n ==> job.candidates[i].role != role
    requires VerdictAt(job, st, job.candidates[n].hit).None?
    ensures Taken(RoleStep(job, st, role).shipped, job.candidates[n].hit.documentId)
  {
    var id, after := job.candidates[n].hit.documentId, RoleStep(job, st, role);
    if !Taken(st.shipped, id) {
      assert IsOpen(job.candidates[n], role, st.shipped);
      AfterAttempt(job, st, job.candidates[n]);
    } else {
      var m := Pick(job, st, role);
      if m < |job.candidates| { AttemptGrows(job, st, job.candidates[m]); }
      TakenGrows(st.shipped, after.shipped, id);
    }
  }

  lemma TakenByRolesStaysTaken(job: Job, base: nat, k: nat, id: string)
    requires k <= |QUOTA_ROLES| && Taken(RolePass(job, Start(base), k).shipped, id)
    ensures Taken(Packed(job, base).shipped, id)
  {
    RolePassGrows(job, Start(base), k, |QUOTA_ROLES|);
    FillPassGrows(job, Preselected(job, base), 0, |job.candidates|);
    TakenGrows(RolePass(job, Start(base), k).shipped, Preselected(job, base).shipped, id);
    TakenGrows(Preselected(job, base).shipped, Packed(job, base).shipped, id);
  }

  /** The best-ranked hit of a quota role ships if it is admissible when the role's turn comes, whatever outranks it. */
  lemma FirstOfRoleKeepsItsSlot(job: Job, base: nat, k: nat, n: nat)
    requires k < |QUOTA_ROLES| && n < |job.candidates| && job.candidates[n].role == QUOTA_ROLES[k]
    requires forall i :: 0 <= i < n ==> job.candidates[i].role != QUOTA_ROLES[k]
    requires VerdictAt(job, RolePass(job, Start(base), k), job.candidates[n].hit).None?
    ensures Taken(Packed(job, base).shipped, job.candidates[n].hit.documentId)
  {
    TurnTaken(job, RolePass(job, Start(base), k), QUOTA_ROLES[k], n);
    TakenByRolesStaysTaken(job, base, k + 1, job.candidates[n].hit.documentId);
  }

  function At(candidates: seq<Candidate>, places: seq<nat>): Shipment
    requires forall i :: 0 <= i < |places| ==> places[i] < |candidates|
  {
    seq(|places|, i requires 0 <= i < |places| => candidates[places[i]])
  }

  predicate Increasing(places: seq<nat>, bound: nat) {
    && (forall i :: 0 <= i < |places| ==> places[i] < bound)
    && (forall i, j :: 0 <= i < j < |places| ==> places[i] < places[j])
  }

  /** What the second pass ships follows the rank order. */
  lemma {:induction false} FillInRankOrder(job: Job, st: State, k: nat) returns (places: seq<nat>)
    requires k <= |job.candidates|
    ensures Increasing(places, k)
    ensures FillPass(job, st, k).shipped == st.shipped + At(job.candidates, places)
    decreases k
  {
    if k == 0 {
      places := [];
    } else {
      places := FillInRankOrder(job, st, k - 1);
      var before, after := FillPass(job, st, k - 1), FillPass(job, st, k);
      if before.shipped != after.shipped {
        assert At(job.candidates, places + [k - 1]) == At(job.candidates, places) + [job.candidates[k - 1]];
        places := places + [k - 1];
      }
    }
  }

  // ----- Reasons -----

  lemma NotShippedIsRejected(job: Job, st: State, c: Candidate)
    requires !Taken(st.shipped, c.hit.documentId) && !Taken(FillStep(job, st, c).shipped, c.hit.documentId)
    ensures VerdictAt(job, st, c.hit).Some?
  {
    AfterAttempt(job, st, c);
  }

  lemma AfterAttempt(job: Job, st: State, c: Candidate)
    ensures VerdictAt(job, st, c.hit).None? ==> Taken(Attempt(job, st, c).shipped, c.hit.documentId)
  {
    if VerdictAt(job, st, c.hit).None? {
      assert Attempt(job, st, c).shipped[|st.shipped|] == c;
    }
  }

  /** A hit that stays out is rejected when its turn comes, and moves nothing but its reason. */
  lemma OmittedStep(job: Job, base: nat, d: nat)
    requires d < |job.candidates| && !Taken(Packed(job, base).shipped, job.candidates[d].hit.documentId)
    ensures var id, before := job.candidates[d].hit.documentId, Filled(job, base, d);
            && VerdictAt(job, before, job.candidates[d].hit).Some?
            && Filled(job, base, d + 1) ==
               before.(reasons := before.reasons[id := VerdictAt(job, before, job.candidates[d].hit).value])
  {
    var c, before, after, last := job.candidates[d], Filled(job, base, d), Filled(job, base, d + 1), Packed(job, base);
    FillPassGrows(job, Preselected(job, base), d, |job.candidates|);
    FillPassGrows(job, Preselected(job, base), d + 1, |job.candidates|);
    NotTakenBefore(before.shipped, last.shipped, c.hit.documentId);
    NotTakenBefore(after.shipped, last.shipped, c.hit.documentId);
    NotShippedIsRejected(job, before, c);
  }

  lemma {:induction false} LaterReasons(job: Job, st: State, i: nat, k: nat, id: string)
    requires i <= k <= |job.candidates|
    requires forall m :: i <= m < k ==> job.candidates[m].hit.documentId != id
    ensures id in FillPass(job, st, i).reasons <==> id in FillPass(job, st, k).reasons
    ensures id in FillPass(job, st, i).reasons ==> FillPass(job, st, i).reasons[id] == FillPass(job, st, k).reasons[id]
    decreases k
  {
    if i < k { LaterReasons(job, st, i, k - 1, id); }
  }

  /** An omitted document's reason is the rule that rejected its last hit in the second pass. */
  lemma ReasonIsTheLastRejection(job: Job, base: nat, i: nat)
    requires i < |job.candidates|
    requires !Taken(Packed(job, base).shipped, job.candidates[i].hit.documentId)
    requires forall m :: i < m < |job.candidates| ==> job.candidates[m].hit.documentId != job.candidates[i].hit.documentId
    ensures var id, reasons := job.candidates[i].hit.documentId, Packed(job, base).reasons;
            id in reasons && Some(reasons[id]) == VerdictAt(job, Filled(job, base, i), job.candidates[i].hit)
  {
    OmittedStep(job, base, i);
    LaterReasons(job, Preselected(job, base), i + 1, |job.candidates|, job.candidates[i].hit.documentId);
  }

  // ----- Rejected hits leave no trace -----

  function Without(job: Job, d: nat): Job
    requires d < |job.candidates|
  {
    job.(candidates := job.candidates[..d] + job.candidates[d + 1..])
  }

  /** The place of a candidate once the one at d is gone. */
  function Shifted(n: nat, d: nat): nat {
    if n <= d then n else n - 1
  }

  lemma WithoutAt(job: Job, d: nat, n: nat)
    requires d < |job.candidates| && n <= |job.candidates| && n != d
    ensures |Without(job, d).candidates| == |job.candidates| - 1
    ensures n < |job.candidates| ==> Shifted(n, d) < |job.candidates| - 1 && Without(job, d).candidates[Shifted(n, d)] == job.candidates[n]
    ensures forall i :: 0 <= i < d ==> Without(job, d).candidates[i] == job.candidates[i]
    ensures forall i :: d <= i < |job.candidates| - 1 ==> Without(job, d).candidates[i] == job.candidates[i + 1]
  {
  }

  /** The candidate at d is never the one a role proposes. */
  predicate NeverProposed(job: Job, base: nat, d: nat) {
    forall k :: 0 <= k < |QUOTA_ROLES| ==> Pick(job, RolePass(job, Start(base), k), QUOTA_ROLES[k]) != d
  }

  lemma PickWithout(job: Job, st: State, role: Role, d: nat)
    requires d < |job.candidates| && Pick(job, st, role) != d
    ensures Pick(Without(job, d), st, role) == Shifted(Pick(job, st, role), d)
  {
    var n, m := Pick(job, st, role), Pick(Without(job, d), st, role);
    var target := Shifted(n, d);
    WithoutAt(job, d, n);
    forall i | 0 <= i < target ensures !IsOpen(Without(job, d).candidates[i], role, st.shipped) {
      var back := if i < d then i else i + 1;
      assert Without(job, d).candidates[i] == job.candidates[back];
    }
  }

  lemma RoleStepWithout(job: Job, st: State, role: Role, d: nat)
    requires d < |job.candidates| && Pick(job, st, role) != d
    ensures RoleStep(Without(job, d), st, role) == RoleStep(job, st, role)
  {
    PickWithout(job, st, role, d);
    WithoutAt(job, d, Pick(job, st, role));
  }

  lemma {:induction false} RolePassWithout(job: Job, base: nat, d: nat, k: nat)
    requires d < |job.candidates| && NeverProposed(job, base, d) && k <= |QUOTA_ROLES|
    ensures RolePass(Without(job, d), Start(base), k) == RolePass(job, Start(base), k)
    decreases k
  {
    if k > 0 {
      RolePassWithout(job, base, d, k - 1);
      RoleStepWithout(job, RolePass(job, Start(base), k - 1), QUOTA_ROLES[k - 1], d);
    }
  }

  predicate SameShipment(a: State, b: State) {
    a.shipped == b.shipped && a.used == b.used
  }

  lemma FillStepSame(job: Job, job': Job, a: State, b: State, c: Candidate)
    requires job.cost == job'.cost && job.budget == job'.budget && SameShipment(a, b)
    ensures SameShipment(FillStep(job, a, c), FillStep(job', b, c))
  {
  }

  /** The second pass with d gone keeps step with the whole one. */
  predicate InStep(job: Job, base: nat, d: nat, k: nat)
    requires d < |job.candidates| && k <= |job.candidates|
  {
    Shifted(k, d) < |job.candidates| && SameShipment(Filled(job, base, k), Filled(Without(job, d), base, Shifted(k, d)))
  }

  lemma StepTogether(job: Job, base: nat, d: nat, k: nat)
    requires d < |job.candidates| && k < |job.candidates| && k != d && InStep(job, base, d, k)
    ensures InStep(job, base, d, k + 1)
  {
    WithoutAt(job, d, k);
    var m := Shifted(k, d);
    assert m + 1 == Shifted(k + 1, d);
    FillStepSame(job, Without(job, d), Filled(job, base, k), Filled(Without(job, d), base, m), job.candidates[k]);
  }

  lemma StepOver(job: Job, base: nat, d: nat)
    requires d < |job.candidates| && InStep(job, base, d, d)
    requires SameShipment(Filled(job, base, d), Filled(job, base, d + 1))
    ensures InStep(job, base, d, d + 1)
  {
  }

  lemma StartTogether(job: Job, base: nat, d: nat)
    requires d < |job.candidates| && NeverProposed(job, base, d)
    ensures InStep(job, base, d, 0)
  {
    RolePassWithout(job, base, d, |QUOTA_ROLES|);
  }

  lemma TogetherUpTo(job: Job, base: nat, d: nat)
    requires d < |job.candidates| && InStep(job, base, d, 0)
    ensures InStep(job, base, d, d)
  {
    for k := 0 to d
      invariant InStep(job, base, d, k)
    {
      StepTogether(job, base, d, k);
    }
  }

  lemma TogetherFrom(job: Job, base: nat, d: nat)
    requires d < |job.candidates| && InStep(job, base, d, d + 1)
    ensures InStep(job, base, d, |job.candidates|)
  {
    for k := d + 1 to |job.candidates|
      invariant InStep(job, base, d, k)
    {
      StepTogether(job, base, d, k);
    }
  }

  lemma FilledWithout(job: Job, base: nat, d: nat)
    requires d < |job.candidates| && NeverProposed(job, base, d)
    requires SameShipment(Filled(job, base, d), Filled(job, base, d + 1))
    ensures InStep(job, base, d, |job.candidates|)
  {
    StartTogether(job, base, d);
    TogetherUpTo(job, base, d);
    StepOver(job, base, d);
    TogetherFrom(job, base, d);
  }

  lemma PackedWithout(job: Job, base: nat, d: nat)
    requires d < |job.candidates|
    ensures Shifted(|job.candidates|, d) == |Without(job, d).candidates|
    ensures Packed(Without(job, d), base) == Filled(Without(job, d), base, Shifted(|job.candidates|, d))
  {
    WithoutAt(job, d, |job.candidates|);
  }

  /** Deleting an omitted hit that no role proposed changes nothing that ships, nor the tokens used. */
  lemma RejectedLeaveNoTrace(job: Job, base: nat, d: nat)
    requires d < |job.candidates| && NeverProposed(job, base, d)
    requires !Taken(Packed(job, base).shipped, job.candidates[d].hit.documentId)
    ensures SameShipment(Packed(job, base), Packed(Without(job, d), base))
  {
    OmittedStep(job, base, d);
    FilledWithout(job, base, d);
    PackedWithout(job, base, d);
  }

  /** A role with no open candidate proposes nothing. */
  lemma IdleRole(job: Job, st: State, role: Role)
    requires forall i :: 0 <= i < |job.candidates| ==> !IsOpen(job.candidates[i], role, st.shipped)
    ensures RoleStep(job, st, role) == st
  {
  }

  /** With tests as its only quota role, the first pass is one attempt at the first open test. */
  lemma {:induction false} OnlyTests(job: Job, k: nat, n: nat)
    requires forall i :: 0 <= i < |job.candidates| ==> job.candidates[i].role in {Test, Target}
    requires 1 <= k <= |QUOTA_ROLES| && n < |job.candidates| && job.candidates[n].role == Test
    requires forall i :: 0 <= i < n ==> job.candidates[i].role != Test
    ensures RolePass(job, Start(0), k) == Attempt(job, Start(0), job.candidates[n])
    decreases k
  {
    if k == 1 {
      assert IsOpen(job.candidates[n], Test, []);
      assert Pick(job, Start(0), Test) == n;
      assert RolePass(job, Start(0), 0) == Start(0);
    } else {
      OnlyTests(job, k - 1, n);
      IdleRole(job, RolePass(job, Start(0), k - 1), QUOTA_ROLES[k - 1]);
    }
  }

  /** Two hits that no rule but the budget can reject. */
  predicate Apart(a: Hit, b: Hit) {
    && a.documentId != b.documentId && a.entityId != b.entityId
    && a.address.None? && b.address.None?
  }

  predicate Rivals(job: Job, big: Hit, source: Hit, small: Hit) {
    && Apart(big, source) && Apart(big, small) && Apart(source, small)
    && job.cost(source) <= job.budget < job.cost(big) && job.cost(small) <= job.budget < job.cost(source) + job.cost(small)
  }

  lemma WithTheBigTest(job: Job, big: Hit, source: Hit, small: Hit)
    requires job.candidates == [Candidate(Test, big), Candidate(Target, source), Candidate(Test, small)] && Rivals(job, big, source, small)
    ensures Packed(job, 0).shipped == [Candidate(Target, source)]
  {
    OnlyTests(job, 6, 0);
    assert Filled(job, 0, 1).shipped == [] && Filled(job, 0, 1).used == 0;
    AttemptShips(job, Filled(job, 0, 1), Candidate(Target, source));
    assert Filled(job, 0, 2).shipped == [Candidate(Target, source)] && Filled(job, 0, 2).used == job.cost(source);
    BudgetLeavesOut(job, Filled(job, 0, 2), Candidate(Test, small));
  }

  lemma WithoutTheBigTest(job: Job, big: Hit, source: Hit, small: Hit)
    requires job.candidates == [Candidate(Target, source), Candidate(Test, small)] && Rivals(job, big, source, small)
    ensures Packed(job, 0).shipped == [Candidate(Test, small)]
  {
    OnlyTests(job, 6, 1);
    AttemptShips(job, Start(0), Candidate(Test, small));
    BudgetLeavesOut(job, Preselected(job, 0), Candidate(Target, source));
    assert Filled(job, 0, 1).shipped[0].hit.documentId == small.documentId;
  }

  /** A proposed hit does leave a trace: a test too big for the budget hands its role's turn away, and other evidence ships. */
  lemma ProposedRejectionLeavesATrace(job: Job, big: Hit, source: Hit, small: Hit)
    requires job.candidates == [Candidate(Test, big), Candidate(Target, source), Candidate(Test, small)] && Rivals(job, big, source, small)
    ensures Packed(job, 0).shipped == [Candidate(Target, source)]
    ensures Packed(Without(job, 0), 0).shipped == [Candidate(Test, small)]
  {
    WithTheBigTest(job, big, source, small);
    assert Without(job, 0).candidates == [Candidate(Target, source), Candidate(Test, small)];
    WithoutTheBigTest(Without(job, 0), big, source, small);
  }

  lemma AttemptShips(job: Job, st: State, c: Candidate)
    requires st.shipped == [] && st.used == 0 && job.cost(c.hit) <= job.budget
    ensures FillStep(job, st, c) == Attempt(job, st, c)
    ensures Attempt(job, st, c).shipped == [c] && Attempt(job, st, c).used == job.cost(c.hit)
  {
  }

  lemma BudgetLeavesOut(job: Job, st: State, c: Candidate)
    requires |st.shipped| == 1 && Apart(st.shipped[0].hit, c.hit) && st.used <= job.budget < st.used + job.cost(c.hit)
    ensures FillStep(job, st, c).shipped == st.shipped
  {
  }
}
