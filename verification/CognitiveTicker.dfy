/** The decision pass as the ticker performs it: three loops over the lifecycle service, proved to be `Pass`. */
module CognitiveTickers {
  import opened Wrappers
  import opened Keyset
  import opened IntentLifecycle
  import opened CognitiveTick
  import opened CognitivePass

  datatype Counters = Counters(admitted: nat, deduped: nat, allowed: nat, deferred: nat, denied: nat, superseded: nat)

  const ZERO := Counters(0, 0, 0, 0, 0, 0)

  datatype Selection = Selection(id: int, verdict: Verdict)

  /** How many of the first n agenda entries the policy decides in one way. */
  function Votes(agenda: seq<Proposal>, policy: Policy, decision: Decision, n: nat): nat
    requires n <= |agenda|
  {
    if n == 0 then 0 else
    Votes(agenda, policy, decision, n - 1) + (if policy(agenda[n - 1]).decision == decision then 1 else 0)
  }

  function Kept(before: Intents, batch: seq<Proposal>): nat {
    if batch == [] then 0 else
    var p := batch[|batch| - 1];
    Kept(before, batch[..|batch| - 1]) + (if Admissible(before, p) || Orphan(before, p) then 1 else 0)
  }

  function Dropped(before: Intents, batch: seq<Proposal>): nat {
    if batch == [] then 0 else
    var p := batch[|batch| - 1];
    Dropped(before, batch[..|batch| - 1]) + (if Deduped(before, p) then 1 else 0)
  }

  function GateCounters(agenda: seq<Proposal>, policy: Policy, c: Counters): Counters {
    var w := Chosen(agenda, policy);
    c.(deferred := Votes(agenda, policy, DEFER, w), denied := Votes(agenda, policy, DENY, w),
       allowed := if w < |agenda| then 1 else 0, superseded := if w < |agenda| then |agenda| - w - 1 else 0)
  }

  function Expected(before: Intents, batch: seq<Proposal>, policy: Policy): Counters
    requires DistinctIds(batch)
  {
    GateCounters(Agenda(before, batch), policy, ZERO.(admitted := Kept(before, batch), deduped := Dropped(before, batch)))
  }

  function Selected(agenda: seq<Proposal>, policy: Policy): Option<Selection> {
    var w := Chosen(agenda, policy);
    if w < |agenda| then Some(Selection(agenda[w].id, policy(agenda[w]))) else None
  }

  // ---- what the answer is --------------------------------------------------------------------

  /** The answer names the best entry the policy allows, with that entry's own verdict. */
  ghost predicate AnswersBest(agenda: seq<Proposal>, policy: Policy, x: Selection) {
    exists i :: 0 <= i < |agenda| && agenda[i].id == x.id && BestAllowed(agenda, policy, i) && x.verdict == policy(agenda[i])
  }

  /** The first entry in order that the policy allows. */
  predicate FirstAllowed(ordered: seq<Proposal>, policy: Policy, i: nat)
    requires i < |ordered|
  {
    policy(ordered[i]).decision.ALLOW? && forall j | 0 <= j < i :: !policy(ordered[j]).decision.ALLOW?
  }

  lemma SelectedIsFirst(ordered: seq<Proposal>, policy: Policy)
    ensures Selected(ordered, policy).None? <==> forall i | 0 <= i < |ordered| :: !policy(ordered[i]).decision.ALLOW?
    ensures forall x :: Selected(ordered, policy) == Some(x)
                        <==> exists i :: 0 <= i < |ordered| && FirstAllowed(ordered, policy, i)
                                         && x == Selection(ordered[i].id, policy(ordered[i]))
  {
    var w := Chosen(ordered, policy);
    if w < |ordered| { assert FirstAllowed(ordered, policy, w); }
    forall i | 0 <= i < |ordered| && FirstAllowed(ordered, policy, i) ensures i == w {}
  }

  lemma SelectedIsBest(before: Intents, batch: seq<Proposal>, policy: Policy)
    requires DistinctIds(batch)
    ensures forall x :: Selected(Agenda(before, batch), policy) == Some(x) <==> AnswersBest(Agenda(before, batch), policy, x)
  {
    var agenda := Agenda(before, batch);
    AgendaDescends(before, batch);
    hide Agenda;
    forall i | 0 <= i < |agenda| ensures BestAllowed(agenda, policy, i) <==> i == Chosen(agenda, policy) {
      BestIsChosen(agenda, policy, i);
    }
    hide BestAllowed, Less, Rank;
    var w := Chosen(agenda, policy);
    if w < |agenda| { assert BestAllowed(agenda, policy, w); }
  }

  /** In the ordinary circumstances of an instant, the answer is the intent that the pass newly allows. */
  lemma AnswerIsNewlyAllowed(before: Intents, batch: seq<Proposal>, policy: Policy)
    requires DistinctIds(batch) && AllInitial(batch) && AllValid(before) && NeverWoken(before, batch)
    ensures var out := Pass(before, batch, policy).intents;
            var answer := Selected(Agenda(before, batch), policy);
            forall id :: NewlyAllowed(before, out, id) <==> answer.Some? && answer.value.id == id
  {
    forall id ensures NewlyAllowed(before, Pass(before, batch, policy).intents, id)
                      <==> Selected(Agenda(before, batch), policy).Some? && Selected(Agenda(before, batch), policy).value.id == id
    {
      NewlyAllowedIsChosen(before, batch, policy, id);
    }
  }

  // ---- what is counted -------------------------------------------------------------------------

  /** The agenda places whose intent a pass leaves in a status. */
  function Ending(out: Intents, agenda: seq<Proposal>, status: Status): set<nat> {
    set i | 0 <= i < |agenda| && agenda[i].id in out && out[agenda[i].id].status == status
  }

  function Voting(agenda: seq<Proposal>, policy: Policy, decision: Decision, n: nat): set<nat>
    requires n <= |agenda|
  {
    set i | 0 <= i < n && policy(agenda[i]).decision == decision
  }

  lemma {:induction false} VotesAreCounted(agenda: seq<Proposal>, policy: Policy, decision: Decision, n: nat)
    requires n <= |agenda|
    ensures Votes(agenda, policy, decision, n) == |Voting(agenda, policy, decision, n)|
  {
    if n > 0 {
      VotesAreCounted(agenda, policy, decision, n - 1);
      assert Voting(agenda, policy, decision, n)
             == Voting(agenda, policy, decision, n - 1) + if policy(agenda[n - 1]).decision == decision then {n - 1} else {};
    }
  }

  function Range(from: nat, n: nat): (s: set<nat>)
    ensures forall i :: i in s <==> from <= i < from + n
    ensures |s| == n
  {
    if n == 0 then {} else Range(from, n - 1) + {from + n - 1}
  }

  function Deduplicated(before: Intents, batch: seq<Proposal>): set<Proposal> {
    set p | p in batch && Deduped(before, p)
  }

  lemma OneMoreProposal(before: Intents, batch: seq<Proposal>)
    requires DistinctIds(batch) && batch != []
    ensures var last, init := batch[|batch| - 1], batch[..|batch| - 1];
            && DistinctIds(init) && last !in init
            && Enrolled(before, batch) == Enrolled(before, init) + (if Admissible(before, last) || Orphan(before, last) then {last} else {})
            && Deduplicated(before, batch) == Deduplicated(before, init) + (if Deduped(before, last) then {last} else {})
  {
    hide Admissible, Orphan, Deduped;
    assert batch == batch[..|batch| - 1] + [batch[|batch| - 1]];
  }

  lemma {:induction false} AdmissionsAreCounted(before: Intents, batch: seq<Proposal>)
    requires DistinctIds(batch)
    ensures Kept(before, batch) == |Enrolled(before, batch)| && Dropped(before, batch) == |Deduplicated(before, batch)|
  {
    hide Admissible, Orphan, Deduped, DistinctIds;
    if batch != [] {
      OneMoreProposal(before, batch);
      AdmissionsAreCounted(before, batch[..|batch| - 1]);
      assert batch[|batch| - 1] !in Enrolled(before, batch[..|batch| - 1]);
      assert batch[|batch| - 1] !in Deduplicated(before, batch[..|batch| - 1]);
      hide Enrolled, Deduplicated;
    }
  }

  /** In the ordinary circumstances of an instant the counters say what the pass did: how many proposals it enrolled and
      deduplicated, and how many intents of its agenda it left in each status. */
  lemma CountersSayWhatHappened(before: Intents, batch: seq<Proposal>, policy: Policy)
    requires DistinctIds(batch) && AllInitial(batch) && AllValid(before) && NeverWoken(before, batch)
    ensures var c, agenda, out := Expected(before, batch, policy), Agenda(before, batch), Pass(before, batch, policy).intents;
            && c.admitted == |Enrolled(before, batch)| && c.deduped == |Deduplicated(before, batch)|
            && c.allowed == |Ending(out, agenda, Allowed)| && c.deferred == |Ending(out, agenda, Deferred)|
            && c.denied == |Ending(out, agenda, Blocked)| && c.superseded == |Ending(out, agenda, Superseded)|
  {
    var agenda, out := Agenda(before, batch), Pass(before, batch, policy).intents;
    AdmissionsAreCounted(before, batch);
    hide Kept, Dropped, Enrolled, Deduped;
    forall i | 0 <= i < |agenda| ensures agenda[i].id in out && out[agenda[i].id].status == Fate(agenda, policy, i) {
      FateInPass(before, batch, policy, i);
    }
    hide Agenda, Pass, AllInitial, AllValid, NeverWoken, DistinctIds;
    EndingsAreCounted(out, agenda, policy, ZERO.(admitted := Kept(before, batch), deduped := Dropped(before, batch)));
  }

  lemma EndingsAreCounted(out: Intents, agenda: seq<Proposal>, policy: Policy, c0: Counters)
    requires forall i | 0 <= i < |agenda| :: agenda[i].id in out && out[agenda[i].id].status == Fate(agenda, policy, i)
    ensures var c := GateCounters(agenda, policy, c0);
            && c.admitted == c0.admitted && c.deduped == c0.deduped
            && c.allowed == |Ending(out, agenda, Allowed)| && c.deferred == |Ending(out, agenda, Deferred)|
            && c.denied == |Ending(out, agenda, Blocked)| && c.superseded == |Ending(out, agenda, Superseded)|
  {
    var w := Chosen(agenda, policy);
    VotesAreCounted(agenda, policy, DEFER, w);
    VotesAreCounted(agenda, policy, DENY, w);
    EndingsAre(out, agenda, policy);
  }

  lemma FateSplits(agenda: seq<Proposal>, policy: Policy, i: nat)
    requires i < |agenda|
    ensures var w := Chosen(agenda, policy);
            && (Fate(agenda, policy, i) == Deferred <==> i < w && policy(agenda[i]).decision == DEFER)
            && (Fate(agenda, policy, i) == Blocked <==> i < w && policy(agenda[i]).decision == DENY)
            && (Fate(agenda, policy, i) == Allowed <==> i == w)
            && (Fate(agenda, policy, i) == Superseded <==> i > w)
  {
  }

  lemma EndingsAre(out: Intents, agenda: seq<Proposal>, policy: Policy)
    requires forall i | 0 <= i < |agenda| :: agenda[i].id in out && out[agenda[i].id].status == Fate(agenda, policy, i)
    ensures var w := Chosen(agenda, policy);
            && Ending(out, agenda, Deferred) == Voting(agenda, policy, DEFER, w)
            && Ending(out, agenda, Blocked) == Voting(agenda, policy, DENY, w)
            && Ending(out, agenda, Allowed) == (if w < |agenda| then {w} else {})
            && Ending(out, agenda, Superseded) == (if w < |agenda| then Range(w + 1, |agenda| - w - 1) else {})
  {
    var w := Chosen(agenda, policy);
    hide Fate, Chosen;
    forall i: nat | i < |agenda|
      ensures i in Ending(out, agenda, Deferred) <==> i in Voting(agenda, policy, DEFER, w)
      ensures i in Ending(out, agenda, Blocked) <==> i in Voting(agenda, policy, DENY, w)
      ensures i in Ending(out, agenda, Allowed) <==> i == w
      ensures i in Ending(out, agenda, Superseded) <==> i > w
    {
      FateSplits(agenda, policy, i);
    }
  }

  lemma {:induction false} VotesSplit(agenda: seq<Proposal>, policy: Policy, n: nat)
    requires n <= |agenda|
    requires forall i | 0 <= i < n :: !policy(agenda[i]).decision.ALLOW?
    ensures Votes(agenda, policy, DEFER, n) + Votes(agenda, policy, DENY, n) == n
  {
    if n > 0 { VotesSplit(agenda, policy, n - 1); }
  }

  /** Every candidate heard is counted once, and every proposal is kept, dropped, or already decided. */
  lemma CountersConserve(before: Intents, batch: seq<Proposal>, policy: Policy)
    requires DistinctIds(batch)
    ensures var c := Expected(before, batch, policy);
            && c.allowed + c.deferred + c.denied + c.superseded == |Agenda(before, batch)| && c.allowed <= 1
            && c.admitted + c.deduped + AlreadyDecided(before, batch) == |batch|
  {
    VotesSplit(Agenda(before, batch), policy, Chosen(Agenda(before, batch), policy));
    KeptDroppedDecided(before, batch);
  }

  function AlreadyDecided(before: Intents, batch: seq<Proposal>): nat {
    if batch == [] then 0 else
    var p := batch[|batch| - 1];
    AlreadyDecided(before, batch[..|batch| - 1]) + (if p.id in before && !before[p.id].status.Candidate? then 1 else 0)
  }

  lemma {:induction false} KeptDroppedDecided(before: Intents, batch: seq<Proposal>)
    ensures Kept(before, batch) + Dropped(before, batch) + AlreadyDecided(before, batch) == |batch|
  {
    if batch != [] { KeptDroppedDecided(before, batch[..|batch| - 1]); }
  }

  /** A refusal is final: the moves after it are not made. */
  lemma {:induction false} RefusalIsFinal(a: Intents, moves: seq<Move>, k: nat)
    requires k <= |moves| && ApplyAll(a, moves[..k]).refusal.Some?
    ensures ApplyAll(a, moves) == ApplyAll(a, moves[..k])
    decreases |moves|
  {
    if k == |moves| {
      assert moves[..k] == moves;
    } else {
      assert moves[..|moves| - 1][..k] == moves[..k];
      RefusalIsFinal(a, moves[..|moves| - 1], k);
    }
  }

  lemma NothingMoved(a: Intents, moves: seq<Move>)
    ensures ApplyAll(a, moves[..0]) == Outcome(a, None)
  {
  }

  lemma OneMoreMove(a: Intents, moves: seq<Move>, k: nat, now: Intents)
    requires k < |moves| && ApplyAll(a, moves[..k]) == Outcome(now, None)
    ensures match Stored(now, moves[k])
            case Ok(after) => ApplyAll(a, moves[..k + 1]) == Outcome(after, None)
            case Err(e) => ApplyAll(a, moves) == Outcome(now, Some(e))
  {
    assert moves[..k + 1][..k] == moves[..k];
    if Stored(now, moves[k]).Err? { RefusalIsFinal(a, moves, k + 1); }
  }

  lemma OrdinaryAnswer(before: Intents, batch: seq<Proposal>, policy: Policy)
    requires DistinctIds(batch)
    ensures AllInitial(batch) && AllValid(before) && NeverWoken(before, batch) ==>
              var out, answer := Pass(before, batch, policy), Selected(Agenda(before, batch), policy);
              && out.refusal.None?
              && (forall id :: NewlyAllowed(before, out.intents, id) <==> answer.Some? && answer.value.id == id)
  {
    hide *;
    if AllInitial(batch) && AllValid(before) && NeverWoken(before, batch) {
      PassDecides(before, batch, policy);
      AnswerIsNewlyAllowed(before, batch, policy);
    }
  }

  class CognitiveTicker {
    const lifecycle: IntentLifecycleService

    constructor (lifecycle: IntentLifecycleService)
      ensures this.lifecycle == lifecycle
    {
      this.lifecycle := lifecycle;
    }

    method AdmitBatch(batch: seq<Proposal>) returns (r: Result<set<Proposal>, Refusal>, c: Counters)
      requires DistinctIds(batch)
      modifies lifecycle
      ensures var bad := FirstUninitial(batch);
              var before := old(lifecycle.intents);
              && lifecycle.intents == AdmitAll(before, batch[..bad])
              && (bad < |batch| ==> r == Err(NotInitial))
              && (bad == |batch| ==> r == Ok(Enrolled(before, batch)))
              && (bad == |batch| ==> c == ZERO.(admitted := Kept(before, batch), deduped := Dropped(before, batch)))
    {
      var before := lifecycle.intents;
      var kinds := ActiveKinds(before);
      var admitted: set<Proposal> := {};
      c := ZERO;
      var i := 0;
      while i < |batch|
        invariant i <= |batch|
        invariant forall j | 0 <= j < i :: IsInitial(batch[j])
        invariant lifecycle.intents == AdmitAll(before, batch[..i])
        invariant admitted == Enrolled(before, batch[..i])
        invariant c == ZERO.(admitted := Kept(before, batch[..i]), deduped := Dropped(before, batch[..i]))
      {
        var p := batch[i];
        if !IsInitial(p) { return Err(NotInitial), c; }
        assert batch[..i + 1][..i] == batch[..i];
        EnrolledGrows(before, batch, i);
        AdmittedBefore(before, batch, i);
        if p.id in before {
          if before[p.id].status.Candidate? {
            admitted := admitted + {p};
            c := c.(admitted := c.admitted + 1);
          }
        } else if p.body.kind in kinds {
          c := c.(deduped := c.deduped + 1);
        } else {
          var _ := lifecycle.Admit(p);
          admitted := admitted + {p};
          c := c.(admitted := c.admitted + 1);
        }
        i := i + 1;
      }
      assert batch[..i] == batch;
      r := Ok(admitted);
    }

    method SupersedeRest(ordered: seq<Proposal>, from: nat, ghost a: Intents, ghost moves: seq<Move>, c0: Counters)
      returns (r: Result<(), Refusal>, c: Counters)
      requires from <= |ordered| == |moves|
      requires forall j | from <= j < |moves| :: moves[j] == Passed(ordered[j])
      requires ApplyAll(a, moves[..from]) == Outcome(lifecycle.intents, None)
      modifies lifecycle
      ensures var out := ApplyAll(a, moves);
              && lifecycle.intents == out.intents && r == (match out.refusal case None => Ok(()) case Some(e) => Err(e))
      ensures r.Ok? ==> c == c0.(superseded := c0.superseded + |ordered| - from)
    {
      hide ApplyAll, Stored, Moved;
      c := c0;
      var j := from;
      while j < |ordered|
        invariant from <= j <= |ordered|
        invariant ApplyAll(a, moves[..j]) == Outcome(lifecycle.intents, None)
        invariant c == c0.(superseded := c0.superseded + j - from)
      {
        OneMoreMove(a, moves, j, lifecycle.intents);
        var moved := lifecycle.Transition(Passed(ordered[j]));
        if moved.Err? { return Err(moved.error), c; }
        c := c.(superseded := c.superseded + 1);
        j := j + 1;
      }
      assert moves[..j] == moves;
      r := Ok(());
    }

    method Gate(ordered: seq<Proposal>, policy: Policy, c0: Counters)
      returns (r: Result<Option<Selection>, Refusal>, c: Counters)
      requires c0.deferred == c0.denied == c0.allowed == c0.superseded == 0
      modifies lifecycle
      ensures var out := ApplyAll(old(lifecycle.intents), Moves(ordered, policy));
              && lifecycle.intents == out.intents
              && r == (match out.refusal case None => Ok(Selected(ordered, policy)) case Some(e) => Err(e))
      ensures r.Ok? ==> c == GateCounters(ordered, policy, c0)
      ensures r == Ok(None) ==> forall i | 0 <= i < |ordered| :: !policy(ordered[i]).decision.ALLOW?
      ensures r.Ok? && r.value.Some? ==>
                exists i :: 0 <= i < |ordered| && FirstAllowed(ordered, policy, i)
                            && r.value.value == Selection(ordered[i].id, policy(ordered[i]))
    {
      SelectedIsFirst(ordered, policy);
      hide ApplyAll, Stored, Moved, Chosen, Moves;
      ghost var a, moves := lifecycle.intents, Moves(ordered, policy);
      assert ApplyAll(a, moves[..0]) == Outcome(a, None) by { NothingMoved(a, moves); }
      c := c0;
      var i := 0;
      while i < |ordered|
        invariant i <= |ordered| && i <= Chosen(ordered, policy)
        invariant ApplyAll(a, moves[..i]) == Outcome(lifecycle.intents, None)
        invariant c == c0.(deferred := Votes(ordered, policy, DEFER, i), denied := Votes(ordered, policy, DENY, i))
      {
        var p := ordered[i];
        var verdict := policy(p);
        OneMoreMove(a, moves, i, lifecycle.intents);
        var moved := lifecycle.Transition(Judged(p, verdict));
        if moved.Err? { return Err(moved.error), c; }
        match verdict.decision {
          case DEFER => c := c.(deferred := c.deferred + 1);
          case DENY => c := c.(denied := c.denied + 1);
          case ALLOW =>
            c := c.(allowed := 1);
            var rest;
            rest, c := SupersedeRest(ordered, i + 1, a, moves, c);
            if rest.Err? { return Err(rest.error), c; }
            return Ok(Some(Selection(p.id, verdict))), c;
        }
        i := i + 1;
      }
      assert moves[..i] == moves;
      r := Ok(None);
    }

    /** Runs the policy gate; the answer is the intent selected for expression. */
    method Decide(batch: seq<Proposal>, policy: Policy) returns (r: Result<Option<Selection>, Refusal>, c: Counters)
      requires DistinctIds(batch)
      modifies lifecycle
      ensures var before := old(lifecycle.intents);
              var out := Pass(before, batch, policy);
              && lifecycle.intents == out.intents
              && r == (match out.refusal case None => Ok(Selected(Agenda(before, batch), policy)) case Some(e) => Err(e))
      ensures r.Ok? ==> c == Expected(old(lifecycle.intents), batch, policy)
      ensures var before := old(lifecycle.intents);
              var completes, agenda := Pass(before, batch, policy).refusal.None?, Agenda(before, batch);
              && (forall x :: r == Ok(Some(x)) <==> completes && AnswersBest(agenda, policy, x))
              && (r == Ok(None) <==> completes && forall i | 0 <= i < |agenda| :: !policy(agenda[i]).decision.ALLOW?)
      ensures var before := old(lifecycle.intents);
              AllInitial(batch) && AllValid(before) && NeverWoken(before, batch) ==>
                && r.Ok?
                && (forall id :: NewlyAllowed(before, lifecycle.intents, id) <==> r.value.Some? && r.value.value.id == id)
    {
      SelectedIsBest(lifecycle.intents, batch, policy);
      SelectedIsFirst(Agenda(lifecycle.intents, batch), policy);
      OrdinaryAnswer(lifecycle.intents, batch, policy);
      hide AnswersBest, Agenda, NewlyAllowed, AllInitial, AllValid, NeverWoken, Selected, Pass;
      var admitted;
      ghost var before := lifecycle.intents;
      admitted, c := AdmitBatch(batch);
      if admitted.Err? { return Err(admitted.error), c; }
      assert batch[..|batch|] == batch;
      PoolIsOnePerId(before, batch);
      var ordered := Sorted(admitted.value + Reconsidered(lifecycle.intents, batch));
      r, c := Gate(ordered, policy, c);
    }
  }

  lemma EnrolledGrows(before: Intents, batch: seq<Proposal>, i: nat)
    requires i < |batch|
    ensures Enrolled(before, batch[..i + 1])
            == Enrolled(before, batch[..i]) + (if Admissible(before, batch[i]) || Orphan(before, batch[i]) then {batch[i]} else {})
  {
    assert batch[..i + 1] == batch[..i] + [batch[i]];
  }

  lemma AdmittedBefore(before: Intents, batch: seq<Proposal>, i: nat)
    requires DistinctIds(batch) && i < |batch|
    ensures batch[i].id !in before ==> batch[i].id !in AdmitAll(before, batch[..i])
  {
    AdmitAllAt(before, batch[..i]);
  }
}
