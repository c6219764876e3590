/** The decision pass of a cognitive tick: admission, deduplication, orphan recovery, the ordered policy gate and
    supersession, as a transformation of the stored intents and as the loops that perform it. */
module CognitiveTick {
  import opened Wrappers
  import opened Keyset
  import opened IntentLifecycle

  datatype Decision = DEFER | DENY | ALLOW

  datatype Verdict = Verdict(decision: Decision, reasons: string)

  type Policy = Proposal -> Verdict

  const SUPERSEDED_REASON := "lower_than_selected_candidate"

  // ---- stage one: what enters ----------------------------------------------------

  /** One proposal an id, as the engine derives ids from its rules. */
  predicate DistinctIds(batch: seq<Proposal>) {
    forall i, j | 0 <= i < j < |batch| :: batch[i].id != batch[j].id
  }

  function Ids(batch: seq<Proposal>): set<int> {
    set p | p in batch :: p.id
  }

  function ActiveKinds(intents: Intents): set<string> {
    set id | id in intents && Active(intents[id].status) :: intents[id].body.kind
  }

  predicate Admissible(before: Intents, p: Proposal) {
    p.id !in before && p.body.kind !in ActiveKinds(before)
  }

  predicate Deduped(before: Intents, p: Proposal) {
    p.id !in before && p.body.kind in ActiveKinds(before)
  }

  /** A candidate an interrupted pass of this instant left undecided. */
  predicate Orphan(before: Intents, p: Proposal) {
    p.id in before && before[p.id].status.Candidate?
  }

  /** Statuses and active kinds are read once, before the first admission. */
  function AdmitAll(before: Intents, batch: seq<Proposal>): Intents {
    if batch == [] then before else
    var last := |batch| - 1;
    var sofar := AdmitAll(before, batch[..last]);
    if Admissible(before, batch[last]) then sofar[batch[last].id := Admitted(batch[last])] else sofar
  }

  function FirstUninitial(batch: seq<Proposal>): (n: nat)
    ensures n <= |batch|
    ensures forall i | 0 <= i < n :: IsInitial(batch[i])
    ensures n < |batch| ==> !IsInitial(batch[n])
  {
    if batch == [] then 0 else
    var n := FirstUninitial(batch[..|batch| - 1]);
    if n == |batch| - 1 && IsInitial(batch[n]) then n + 1 else n
  }

  lemma {:induction false} AdmitAllAt(before: Intents, batch: seq<Proposal>)
    requires DistinctIds(batch)
    ensures forall id | id in before :: id in AdmitAll(before, batch) && AdmitAll(before, batch)[id] == before[id]
    ensures forall i | 0 <= i < |batch| && Admissible(before, batch[i]) ::
              batch[i].id in AdmitAll(before, batch) && AdmitAll(before, batch)[batch[i].id] == Admitted(batch[i])
    ensures forall id | id in AdmitAll(before, batch) ::
              id in before || exists i :: 0 <= i < |batch| && batch[i].id == id && Admissible(before, batch[i])
  {
    if batch != [] {
      var last := |batch| - 1;
      AdmitAllAt(before, batch[..last]);
      assert forall i | 0 <= i < last :: batch[..last][i] == batch[i] && batch[i].id != batch[last].id;
    }
  }

  // ---- stage two: who is heard, and in which order ---------------------------------

  /** The proposals the first loop keeps: newly admitted ones and orphans. */
  function Enrolled(before: Intents, batch: seq<Proposal>): set<Proposal> {
    set p | p in batch && (Admissible(before, p) || Orphan(before, p))
  }

  /** Stored candidates the engine did not propose again. */
  function Reconsidered(intents: Intents, batch: seq<Proposal>): set<Proposal> {
    set id | id in intents && intents[id].status.Candidate? && id !in Ids(batch) :: Current(id, intents[id])
  }

  /** Strongest first, then by id. */
  function Rank(p: Proposal): Key {
    Key(-p.body.strength, p.id)
  }

  predicate OnePerId(pool: set<Proposal>) {
    forall p, q | p in pool && q in pool && p.id == q.id :: p == q
  }

  function Pick(pool: set<Proposal>, k: Key): (p: Proposal)
    requires OnePerId(pool) && k in (set q | q in pool :: Rank(q))
    ensures p in pool && Rank(p) == k
  {
    var p :| p in pool && Rank(p) == k;
    p
  }

  lemma PickedAt(pool: set<Proposal>, order: seq<Key>, s: seq<Proposal>, p: Proposal)
    requires OnePerId(pool) && p in pool && Rank(p) in order && |s| == |order|
    requires forall i | 0 <= i < |s| :: s[i] in pool && Rank(s[i]) == order[i]
    ensures p in s
  {
    var i :| 0 <= i < |order| && order[i] == Rank(p);
    assert s[i] == p;
  }

  function Sorted(pool: set<Proposal>): (s: seq<Proposal>)
    requires OnePerId(pool)
    ensures forall i | 0 <= i < |s| :: s[i] in pool
    ensures forall i, j | 0 <= i < j < |s| :: Less(Rank(s[i]), Rank(s[j]))
    ensures forall p | p in pool :: p in s
  {
    var ranks := set p | p in pool :: Rank(p);
    var order := Ordered(ranks);
    var s := seq(|order|, i requires 0 <= i < |order| => Pick(pool, order[i]));
    assert forall p | p in pool :: p in s by {
      forall p | p in pool ensures p in s { PickedAt(pool, order, s, p); }
    }
    s
  }

  /** The agenda of a pass over the state its admissions left. */
  ghost predicate IsAgenda(intents: Intents, batch: seq<Proposal>, agenda: seq<Proposal>) {
    && (forall i, j | 0 <= i < j < |agenda| :: Less(Rank(agenda[i]), Rank(agenda[j])) && agenda[i].id != agenda[j].id)
    && (forall i | 0 <= i < |agenda| :: agenda[i].id in intents && intents[agenda[i].id].status.Candidate?)
    && (forall id | id in intents && intents[id].status.Candidate? :: exists i :: 0 <= i < |agenda| && agenda[i].id == id)
    && (forall i | 0 <= i < |agenda| ::
          agenda[i] in batch || (agenda[i].id !in Ids(batch) && agenda[i] == Current(agenda[i].id, intents[agenda[i].id])))
  }

  // ---- stage three: the gate -------------------------------------------------------

  /** The first agenda entry the policy allows, or the end. */
  function Chosen(agenda: seq<Proposal>, policy: Policy): (w: nat)
    ensures w <= |agenda|
    ensures forall i | 0 <= i < w :: !policy(agenda[i]).decision.ALLOW?
    ensures w < |agenda| ==> policy(agenda[w]).decision.ALLOW?
  {
    if agenda == [] then 0 else
    var w := Chosen(agenda[..|agenda| - 1], policy);
    if w == |agenda| - 1 && !policy(agenda[w]).decision.ALLOW? then w + 1 else w
  }

  function Judged(p: Proposal, v: Verdict): Move {
    var verb := match v.decision case DEFER => Defer case DENY => Deny case ALLOW => Allow;
    Move(p.id, Stamp(verb, p.version), v.reasons)
  }

  function Passed(p: Proposal): Move {
    Move(p.id, Stamp(Supersede, p.version), SUPERSEDED_REASON)
  }

  function Moves(agenda: seq<Proposal>, policy: Policy): (s: seq<Move>)
    ensures |s| == |agenda|
    ensures forall i | 0 <= i < |s| ::
              s[i] == if i <= Chosen(agenda, policy) then Judged(agenda[i], policy(agenda[i])) else Passed(agenda[i])
  {
    seq(|agenda|, i requires 0 <= i < |agenda| =>
      if i <= Chosen(agenda, policy) then Judged(agenda[i], policy(agenda[i])) else Passed(agenda[i]))
  }

  datatype Outcome = Outcome(intents: Intents, refusal: Option<Refusal>)

  /** Transitions one after the other, up to the first one refused. */
  function ApplyAll(intents: Intents, moves: seq<Move>): Outcome {
    if moves == [] then Outcome(intents, None) else
    var sofar := ApplyAll(intents, moves[..|moves| - 1]);
    if sofar.refusal.Some? then sofar else
    match Stored(sofar.intents, moves[|moves| - 1])
    case Ok(after) => Outcome(after, None)
    case Err(e) => Outcome(sofar.intents, Some(e))
  }

  /** Every Enrolled and Reconsidered proposal has its own id. */
  lemma PoolIsOnePerId(before: Intents, batch: seq<Proposal>)
    requires DistinctIds(batch)
    ensures OnePerId(Enrolled(before, batch) + Reconsidered(AdmitAll(before, batch), batch))
  {
  }

  function Agenda(before: Intents, batch: seq<Proposal>): seq<Proposal>
    requires DistinctIds(batch)
  {
    PoolIsOnePerId(before, batch);
    Sorted(Enrolled(before, batch) + Reconsidered(AdmitAll(before, batch), batch))
  }

  /** One whole pass. */
  function Pass(before: Intents, batch: seq<Proposal>, policy: Policy): Outcome
    requires DistinctIds(batch)
  {
    var bad := FirstUninitial(batch);
    if bad < |batch| then Outcome(AdmitAll(before, batch[..bad]), Some(NotInitial))
    else ApplyAll(AdmitAll(before, batch), Moves(Agenda(before, batch), policy))
  }

  lemma EnteredIsHeard(before: Intents, batch: seq<Proposal>, p: Proposal)
    requires DistinctIds(batch) && p in Enrolled(before, batch) + Reconsidered(AdmitAll(before, batch), batch)
    ensures var after := AdmitAll(before, batch);
            && p.id in after && after[p.id].status.Candidate?
            && (p in batch || (p.id !in Ids(batch) && p == Current(p.id, after[p.id])))
  {
    AdmitAllAt(before, batch);
    if p in batch {
      var i :| 0 <= i < |batch| && batch[i] == p;
    }
  }

  lemma HeardIsEntered(before: Intents, batch: seq<Proposal>, id: int) returns (p: Proposal)
    requires DistinctIds(batch)
    requires id in AdmitAll(before, batch) && AdmitAll(before, batch)[id].status.Candidate?
    ensures p.id == id && p in Enrolled(before, batch) + Reconsidered(AdmitAll(before, batch), batch)
  {
    AdmitAllAt(before, batch);
    var after := AdmitAll(before, batch);
    if id in Ids(batch) {
      p :| p in batch && p.id == id;
      if id !in before {
        var i :| 0 <= i < |batch| && batch[i].id == id && Admissible(before, batch[i]);
        assert batch[i] == p;
      }
    } else {
      p := Current(id, after[id]);
    }
  }

  /** Exactly the candidates of the admitted state are heard, each once, strongest first. */
  lemma AgendaHearsEveryCandidate(before: Intents, batch: seq<Proposal>)
    requires DistinctIds(batch)
    ensures IsAgenda(AdmitAll(before, batch), batch, Agenda(before, batch))
  {
    var after := AdmitAll(before, batch);
    var agenda := Agenda(before, batch);
    PoolIsOnePerId(before, batch);
    AdmitAllAt(before, batch);
    forall i | 0 <= i < |agenda|
      ensures agenda[i].id in after && after[agenda[i].id].status.Candidate?
      ensures agenda[i] in batch
              || (agenda[i].id !in Ids(batch) && agenda[i] == Current(agenda[i].id, after[agenda[i].id]))
    {
      EnteredIsHeard(before, batch, agenda[i]);
    }
    forall id | id in after && after[id].status.Candidate? ensures exists i :: 0 <= i < |agenda| && agenda[i].id == id {
      var p := HeardIsEntered(before, batch, id);
      assert p in agenda;
    }
  }

  /** No open intent has this kind. */
  ghost predicate KindIsFree(before: Intents, kind: string) {
    forall id | id in before && before[id].body.kind == kind :: before[id].status in {Blocked, Expired, Completed, Superseded}
  }

  lemma FreeKinds(before: Intents, kind: string)
    ensures kind !in ActiveKinds(before) <==> KindIsFree(before, kind)
  {
  }

  /** Who is heard: new proposals of a free kind, proposals whose intent was left a candidate, and the stored form of the
      candidates nobody proposed again. */
  lemma HeardIff(before: Intents, batch: seq<Proposal>, p: Proposal)
    requires DistinctIds(batch)
    ensures p in Agenda(before, batch)
            <==> || (p in batch && p.id !in before && KindIsFree(before, p.body.kind))
                 || (p in batch && p.id in before && before[p.id].status == Candidate)
                 || (&& (forall q | q in batch :: q.id != p.id)
                     && p.id in before && before[p.id].status == Candidate
                     && p == Proposal(p.id, before[p.id].body, Candidate, before[p.id].version))
  {
    PoolIsOnePerId(before, batch);
    AdmitAllAt(before, batch);
    FreeKinds(before, p.body.kind);
    hide AdmitAll, ActiveKinds;
    assert p.id in Ids(batch) <==> exists q :: q in batch && q.id == p.id;
  }

  /** A proposal is deduplicated when it is new and its kind is taken. */
  lemma DedupedIff(before: Intents, p: Proposal)
    ensures Deduped(before, p) <==> p.id !in before && !KindIsFree(before, p.body.kind)
  {
    FreeKinds(before, p.body.kind);
  }

  /** The stronger one is heard first, and of equally strong ones the one with the smaller id. */
  lemma HeardInOrder(before: Intents, batch: seq<Proposal>, i: nat, j: nat)
    requires DistinctIds(batch) && i < |Agenda(before, batch)| && j < |Agenda(before, batch)|
    ensures var p, q := Agenda(before, batch)[i], Agenda(before, batch)[j];
            i < j <==> p.body.strength > q.body.strength || (p.body.strength == q.body.strength && p.id < q.id)
  {
    AgendaHearsEveryCandidate(before, batch);
    if j < i {
      assert Less(Rank(Agenda(before, batch)[j]), Rank(Agenda(before, batch)[i]));
    } else if i < j {
      assert Less(Rank(Agenda(before, batch)[i]), Rank(Agenda(before, batch)[j]));
    }
  }
}
