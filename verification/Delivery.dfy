/**
  The delivery report of a pack (crates/cce-engine/src/context.rs): what shipped,
  what was omitted and why, and which claim terms the shipped snippets carry.
 */
module Delivery {
  import opened Admission
  import opened ContextHits

  datatype OmittedHit = OmittedHit(documentId: string, reason: Reason)

  datatype WitnessVerification = NotVerified | NoSourceEvidence

  datatype Report = Report(
    included: seq<string>, omitted: seq<OmittedHit>, delivered: seq<string>, missing: seq<string>, verification: WitnessVerification)

  function Included(items: seq<Item>): seq<string> {
    if items == [] then [] else
    Included(items[..|items| - 1]) +
    if items[|items| - 1].kind.OrientationKind? then [] else [items[|items| - 1].id]
  }

  function ReasonFor(reasons: map<string, Reason>, id: string): Reason {
    if id in reasons then reasons[id] else Budget
  }

  function Omitted(candidates: seq<Candidate>, taken: set<string>, reasons: map<string, Reason>): seq<OmittedHit> {
    if candidates == [] then [] else
    var id := candidates[|candidates| - 1].hit.documentId;
    Omitted(candidates[..|candidates| - 1], taken, reasons) +
    if id in taken then [] else [OmittedHit(id, ReasonFor(reasons, id))]
  }

  function Snippets(candidates: seq<Candidate>, taken: set<string>, lower: string -> string): seq<string> {
    if candidates == [] then [] else
    var hit := candidates[|candidates| - 1].hit;
    Snippets(candidates[..|candidates| - 1], taken, lower) + if hit.documentId in taken then [lower(hit.snippet)] else []
  }

  predicate OccursAt(text: string, term: string, i: nat) {
    i + |term| <= |text| && text[i..i + |term|] == term
  }

  /** `str::contains` */
  predicate Contains(text: string, term: string) {
    exists i :: 0 <= i <= |text| && OccursAt(text, term, i)
  }

  function TermsIn(terms: seq<string>, text: string, wanted: bool): seq<string> {
    if terms == [] then [] else
    TermsIn(terms[..|terms| - 1], text, wanted) +
    if Contains(text, terms[|terms| - 1]) == wanted then [terms[|terms| - 1]] else []
  }

  predicate SourceShipped(candidates: seq<Candidate>, taken: set<string>) {
    exists i :: 0 <= i < |candidates| && candidates[i].hit.documentId in taken && candidates[i].hit.address.Some?
  }

  function DeliveryReport(candidates: seq<Candidate>, taken: set<string>, reasons: map<string, Reason>,
                          items: seq<Item>, terms: seq<string>, lower: string -> string): Report {
    var text := Joined(Snippets(candidates, taken, lower), "\n");
    Report(Included(items), Omitted(candidates, taken, reasons), TermsIn(terms, text, true), TermsIn(terms, text, false),
           if SourceShipped(candidates, taken) then NotVerified else NoSourceEvidence)
  }

  // ----- Partition of the hits -----

  function Ids(candidates: seq<Candidate>): seq<string> {
    seq(|candidates|, i requires 0 <= i < |candidates| => candidates[i].hit.documentId)
  }

  function OmittedIds(omitted: seq<OmittedHit>): seq<string> {
    seq(|omitted|, i requires 0 <= i < |omitted| => omitted[i].documentId)
  }

  predicate DistinctIds(candidates: seq<Candidate>) {
    forall i, j :: 0 <= i < j < |candidates| ==> candidates[i].hit.documentId != candidates[j].hit.documentId
  }

  /** The ids, in order, that are taken or not. */
  function Among(ids: seq<string>, taken: set<string>, wanted: bool): seq<string> {
    if ids == [] then [] else
    Among(ids[..|ids| - 1], taken, wanted) + if (ids[|ids| - 1] in taken) == wanted then [ids[|ids| - 1]] else []
  }

  lemma AmongSnoc(ids: seq<string>, id: string, taken: set<string>, wanted: bool)
    ensures Among(ids + [id], taken, wanted) == Among(ids, taken, wanted) + if (id in taken) == wanted then [id] else []
  {
    assert (ids + [id])[..|ids|] == ids;
  }

  lemma OmittedSnoc(front: seq<OmittedHit>, o: OmittedHit)
    ensures OmittedIds(front + [o]) == OmittedIds(front) + [o.documentId]
  {
  }

  lemma {:induction false} OmittedAreTheUntaken(candidates: seq<Candidate>, taken: set<string>, reasons: map<string, Reason>)
    ensures OmittedIds(Omitted(candidates, taken, reasons)) == Among(Ids(candidates), taken, false)
    ensures forall o :: o in Omitted(candidates, taken, reasons) ==> o.reason == ReasonFor(reasons, o.documentId)
    decreases |candidates|
  {
    if candidates != [] {
      var front, id := candidates[..|candidates| - 1], candidates[|candidates| - 1].hit.documentId;
      OmittedAreTheUntaken(front, taken, reasons);
      OmittedSnoc(Omitted(front, taken, reasons), OmittedHit(id, ReasonFor(reasons, id)));
      AmongSnoc(Ids(front), id, taken, false);
      assert Ids(candidates) == Ids(front) + [id];
    }
  }

  lemma SplitNext(yes: seq<string>, no: seq<string>, all: seq<string>, id: string, more: bool)
    requires multiset(yes) + multiset(no) == multiset(all)
    ensures multiset(yes + if more then [id] else []) + multiset(no + if more then [] else [id]) == multiset(all + [id])
  {
    if more {
      assert multiset(yes + [id]) == multiset(yes) + multiset{id} && no + [] == no;
    } else {
      assert multiset(no + [id]) == multiset(no) + multiset{id} && yes + [] == yes;
    }
  }

  lemma {:induction false} AmongSplits(ids: seq<string>, taken: set<string>)
    ensures multiset(Among(ids, taken, true)) + multiset(Among(ids, taken, false)) == multiset(ids)
    decreases |ids|
  {
    if ids != [] {
      var front, id := ids[..|ids| - 1], ids[|ids| - 1];
      AmongSplits(front, taken);
      SplitNext(Among(front, taken, true), Among(front, taken, false), front, id, id in taken);
      assert ids == front + [id];
    }
  }

  lemma {:induction false} AmongMembers(ids: seq<string>, taken: set<string>, wanted: bool, id: string)
    ensures id in Among(ids, taken, wanted) <==> id in ids && (id in taken) == wanted
    decreases |ids|
  {
    if ids != [] {
      AmongMembers(ids[..|ids| - 1], taken, wanted, id);
      assert ids == ids[..|ids| - 1] + [ids[|ids| - 1]];
    }
  }

  predicate NoRepeats(ids: seq<string>) {
    forall i, j :: 0 <= i < j < |ids| ==> ids[i] != ids[j]
  }

  lemma {:induction false} NoRepeatsCount(ids: seq<string>, id: string)
    requires NoRepeats(ids)
    ensures multiset(ids)[id] == if id in ids then 1 else 0
    decreases |ids|
  {
    if ids != [] {
      NoRepeatsCount(ids[..|ids| - 1], id);
      assert ids == ids[..|ids| - 1] + [ids[|ids| - 1]];
    }
  }

  lemma {:induction false} AmongNoRepeats(ids: seq<string>, taken: set<string>, wanted: bool)
    requires NoRepeats(ids)
    ensures NoRepeats(Among(ids, taken, wanted))
    decreases |ids|
  {
    if ids != [] {
      AmongNoRepeats(ids[..|ids| - 1], taken, wanted);
      AmongMembers(ids[..|ids| - 1], taken, wanted, ids[|ids| - 1]);
    }
  }

  /** Two repetition-free lists with the same members are permutations of each other. */
  lemma SameMembersPermute(a: seq<string>, b: seq<string>)
    requires NoRepeats(a) && NoRepeats(b) && forall id :: id in a <==> id in b
    ensures multiset(a) == multiset(b)
  {
    forall id ensures multiset(a)[id] == multiset(b)[id] {
      NoRepeatsCount(a, id);
      NoRepeatsCount(b, id);
    }
  }

  lemma TakenAndRest(ids: seq<string>, shipped: seq<string>, taken: set<string>)
    requires NoRepeats(ids) && NoRepeats(shipped)
    requires forall id :: id in shipped <==> id in taken
    requires forall id :: id in taken ==> id in ids
    ensures multiset(shipped) + multiset(Among(ids, taken, false)) == multiset(ids)
  {
    AmongSplits(ids, taken);
    AmongNoRepeats(ids, taken, true);
    forall id ensures id in shipped <==> id in Among(ids, taken, true) {
      AmongMembers(ids, taken, true, id);
    }
    SameMembersPermute(shipped, Among(ids, taken, true));
  }

  // ----- Terms -----

  /** The chosen terms stand at the given places, in the order of the terms. */
  predicate InOrder(terms: seq<string>, places: seq<nat>, chosen: seq<string>) {
    && |chosen| == |places| && Increasing(places, |terms|)
    && forall i :: 0 <= i < |places| ==> chosen[i] == terms[places[i]]
  }

  lemma InOrderNext(terms: seq<string>, places: seq<nat>, chosen: seq<string>, term: string)
    requires InOrder(terms, places, chosen)
    ensures InOrder(terms + [term], places, chosen)
    ensures InOrder(terms + [term], places + [|terms|], chosen + [term])
  {
  }

  lemma TermsInSnoc(terms: seq<string>, term: string, text: string, wanted: bool)
    ensures TermsIn(terms + [term], text, wanted) == TermsIn(terms, text, wanted) + if Contains(text, term) == wanted then [term] else []
  {
    assert (terms + [term])[..|terms|] == terms;
  }

  /**
    The delivered and the missing terms split the claim's terms: every place of the
    claim is in one of the two lists, and both keep the claim's order.
   */
  lemma {:induction false} TermsPartition(terms: seq<string>, text: string) returns (yes: seq<nat>, no: seq<nat>)
    ensures InOrder(terms, yes, TermsIn(terms, text, true)) && InOrder(terms, no, TermsIn(terms, text, false))
    ensures forall i :: 0 <= i < |terms| ==> (i in yes <==> i !in no)
    decreases |terms|
  {
    if terms == [] {
      yes, no := [], [];
    } else {
      var front, term := terms[..|terms| - 1], terms[|terms| - 1];
      assert terms == front + [term];
      var before, after := TermsPartition(front, text);
      InOrderNext(front, before, TermsIn(front, text, true), term);
      InOrderNext(front, after, TermsIn(front, text, false), term);
      TermsInSnoc(front, term, text, true);
      TermsInSnoc(front, term, text, false);
      if Contains(text, term) {
        yes, no := before + [|front|], after;
      } else {
        yes, no := before, after + [|front|];
      }
      SplitPlaces(before, after, |front|);
    }
  }

  lemma SplitPlaces(yes: seq<nat>, no: seq<nat>, n: nat)
    requires Increasing(yes, n) && Increasing(no, n) && forall i :: 0 <= i < n ==> (i in yes <==> i !in no)
    ensures n !in yes && n !in no
    ensures forall i :: 0 <= i <= n ==> (i in yes + [n] <==> i !in no)
    ensures forall i :: 0 <= i <= n ==> (i in yes <==> i !in no + [n])
  {
  }

  lemma {:induction false} TermsInMembers(terms: seq<string>, text: string, wanted: bool, term: string)
    ensures term in TermsIn(terms, text, wanted) <==> term in terms && Contains(text, term) == wanted
    decreases |terms|
  {
    if terms != [] {
      TermsInMembers(terms[..|terms| - 1], text, wanted, term);
      assert terms == terms[..|terms| - 1] + [terms[|terms| - 1]];
    }
  }

  lemma ContainsAt(text: string, term: string, i: nat)
    requires OccursAt(text, term, i)
    ensures Contains(text, term)
  {
  }

  lemma ContainsGrows(before: string, text: string, after: string, term: string)
    requires Contains(text, term)
    ensures Contains(before + text + after, term)
  {
    var i :| 0 <= i <= |text| && OccursAt(text, term, i);
    var whole := before + text + after;
    assert whole[|before| + i..|before| + i + |term|] == text[i..i + |term|];
    ContainsAt(whole, term, |before| + i);
  }

  /** A term without a line break lies on one side of one. */
  lemma ContainsAcross(a: string, b: string, term: string)
    requires '\n' !in term && term != ""
    ensures Contains(a + "\n" + b, term) <==> Contains(a, term) || Contains(b, term)
  {
    var whole := a + "\n" + b;
    if Contains(a, term) {
      ContainsGrows("", a, "\n" + b, term);
      assert "" + a + ("\n" + b) == whole;
    }
    if Contains(b, term) {
      ContainsGrows(a + "\n", b, "", term);
      assert a + "\n" + b + "" == whole;
    }
    if Contains(whole, term) {
      var i :| 0 <= i <= |whole| && OccursAt(whole, term, i);
      BreakIsOutside(whole, term, i, |a|);
      if i + |term| <= |a| {
        assert a[i..i + |term|] == whole[i..i + |term|];
        ContainsAt(a, term, i);
      } else {
        var j := i - |a| - 1;
        assert b[j..j + |term|] == whole[i..i + |term|];
        ContainsAt(b, term, j);
      }
    }
  }

  lemma BreakIsOutside(whole: string, term: string, i: nat, at: nat)
    requires i + |term| <= |whole| && whole[i..i + |term|] == term && '\n' !in term && term != ""
    requires at < |whole| && whole[at] == '\n'
    ensures i + |term| <= at || at < i
  {
    if i <= at < i + |term| { InTerm(whole, i, |term|, at); }
  }

  lemma InTerm(whole: string, i: nat, n: nat, at: nat)
    requires i <= at < i + n <= |whole|
    ensures whole[at] in whole[i..i + n]
  {
    assert whole[i..i + n][at - i] == whole[at];
  }

  /** A term without a line break is in the joined snippets exactly when it is in one of them. */
  lemma {:induction false} ContainsInJoined(parts: seq<string>, term: string)
    requires '\n' !in term && term != ""
    ensures Contains(Joined(parts, "\n"), term) <==> exists i :: 0 <= i < |parts| && Contains(parts[i], term)
    decreases |parts|
  {
    if |parts| > 1 {
      var front, last := parts[..|parts| - 1], parts[|parts| - 1];
      ContainsInJoined(front, term);
      ContainsAcross(Joined(front, "\n"), last, term);
      assert forall i :: 0 <= i < |front| ==> front[i] == parts[i];
      assert parts[|parts| - 1] == last;
    }
  }

  lemma {:induction false} SnippetsAreOfTaken(candidates: seq<Candidate>, taken: set<string>, lower: string -> string, text: string)
    ensures text in Snippets(candidates, taken, lower) <==>
            exists i :: 0 <= i < |candidates| && candidates[i].hit.documentId in taken && text == lower(candidates[i].hit.snippet)
    decreases |candidates|
  {
    if candidates != [] {
      var front := candidates[..|candidates| - 1];
      SnippetsAreOfTaken(front, taken, lower, text);
      assert forall i :: 0 <= i < |front| ==> front[i] == candidates[i];
    }
  }

  /** A hit whose snippet carries the term. */
  predicate Carries(c: Candidate, taken: set<string>, lower: string -> string, term: string) {
    c.hit.documentId in taken && Contains(lower(c.hit.snippet), term)
  }

  /** A claim term without a line break is delivered exactly when it is empty or some single shipped snippet carries it. */
  lemma DeliveredExactly(candidates: seq<Candidate>, taken: set<string>, lower: string -> string, term: string)
    requires '\n' !in term
    ensures Contains(Joined(Snippets(candidates, taken, lower), "\n"), term) <==>
            term == "" || exists i :: 0 <= i < |candidates| && Carries(candidates[i], taken, lower, term)
  {
    var snippets := Snippets(candidates, taken, lower);
    if term == "" {
      ContainsAt(Joined(snippets, "\n"), term, 0);
    } else {
      ContainsInJoined(snippets, term);
      if k :| 0 <= k < |snippets| && Contains(snippets[k], term) {
        SnippetsAreOfTaken(candidates, taken, lower, snippets[k]);
        var i :| 0 <= i < |candidates| && candidates[i].hit.documentId in taken && snippets[k] == lower(candidates[i].hit.snippet);
        assert Carries(candidates[i], taken, lower, term);
      }
      if i :| 0 <= i < |candidates| && Carries(candidates[i], taken, lower, term) {
        SnippetsAreOfTaken(candidates, taken, lower, lower(candidates[i].hit.snippet));
      }
    }
  }

  lemma JoinedPair(a: string, b: string)
    ensures Joined([a, b], "\n") == a + "\n" + b
  {
    assert [a, b][..1] == [a];
    assert Joined([a], "\n") == a;
  }

  /** Some snippet of the list carries the term. */
  predicate SomeCarries(parts: seq<string>, term: string) {
    exists i :: 0 <= i < |parts| && Contains(parts[i], term)
  }

  lemma BreakIsCarriedByNeither(term: string, at: nat)
    requires at < |term| && term[at] == '\n'
    ensures var parts := [term[..at], term[at + 1..]];
            Contains(Joined(parts, "\n"), term) && !SomeCarries(parts, term)
  {
    JoinedPair(term[..at], term[at + 1..]);
    assert term[..at] + "\n" + term[at + 1..] == term;
    assert term[0..|term|] == term;
    ContainsAt(term, term, 0);
  }

  /** Searching the join finds a term exactly when a snippet carries it, whatever the snippets, exactly for terms without a line break. */
  lemma JoinIsExactWithoutBreak(term: string)
    ensures (forall parts :: Contains(Joined(parts, "\n"), term) <==> term == "" || SomeCarries(parts, term)) <==> '\n' !in term
  {
    if '\n' in term {
      var at :| 0 <= at < |term| && term[at] == '\n';
      BreakIsCarriedByNeither(term, at);
    } else {
      forall parts ensures Contains(Joined(parts, "\n"), term) <==> term == "" || SomeCarries(parts, term) {
        if term == "" { ContainsAt(Joined(parts, "\n"), term, 0); } else { ContainsInJoined(parts, term); }
      }
    }
  }

  /** A term with a line break can be delivered by two snippets that only carry its halves. */
  lemma BrokenTermSpansSnippets(first: Candidate, second: Candidate, lower: string -> string)
    requires first.hit.documentId != second.hit.documentId
    ensures var a, b := lower(first.hit.snippet), lower(second.hit.snippet);
            var taken := {first.hit.documentId, second.hit.documentId};
            && Contains(Joined(Snippets([first, second], taken, lower), "\n"), a + "\n" + b)
            && !Contains(a, a + "\n" + b) && !Contains(b, a + "\n" + b)
  {
    var a, b := lower(first.hit.snippet), lower(second.hit.snippet);
    var taken := {first.hit.documentId, second.hit.documentId};
    var none: seq<Candidate> := [];
    assert [first, second][..1] == [first] && [first][..0] == none;
    assert Snippets([first], taken, lower) == [a];
    assert Snippets([first, second], taken, lower) == [a, b];
    JoinedPair(a, b);
    var text := a + "\n" + b;
    assert text[0..|text|] == text;
    ContainsAt(text, text, 0);
  }
}
