/** What one decision pass achieves, and exactly when it does not. */
module CognitivePass {
  import opened Wrappers
  import opened Keyset
  import opened IntentLifecycle
  import opened CognitiveTick

  predicate AllInitial(batch: seq<Proposal>) {
    forall i | 0 <= i < |batch| :: IsInitial(batch[i])
  }

  /** No orphan of this instant has been deferred and woken since: each still has its first version. */
  predicate NeverWoken(before: Intents, batch: seq<Proposal>) {
    forall i | 0 <= i < |batch| && Orphan(before, batch[i]) :: before[batch[i].id].version == 1
  }

  predicate DistinctTargets(moves: seq<Move>) {
    forall i, j | 0 <= i < j < |moves| :: moves[i].id != moves[j].id
  }

  predicate Accepted(intents: Intents, m: Move) {
    m.id in intents && Moved(intents[m.id], m).Ok?
  }

  /** b is a with every move made, and nothing else changed. */
  ghost predicate Effect(a: Intents, b: Intents, moves: seq<Move>) {
    && b.Keys == a.Keys
    && (forall i | 0 <= i < |moves| ::
          moves[i].id in a && Moved(a[moves[i].id], moves[i]).Ok? && b[moves[i].id] == Moved(a[moves[i].id], moves[i]).value)
    && (forall id | id in a && (forall i | 0 <= i < |moves| :: moves[i].id != id) :: b[id] == a[id])
  }

  lemma EffectGrows(a: Intents, b: Intents, moves: seq<Move>, m: Move)
    requires Effect(a, b, moves) && Accepted(a, m)
    requires forall i | 0 <= i < |moves| :: moves[i].id != m.id
    ensures Stored(b, m).Ok? && Effect(a, Stored(b, m).value, moves + [m])
  {
    hide Moved;
    assert b[m.id] == a[m.id];
    var c := b[m.id := Moved(a[m.id], m).value];
    var all := moves + [m];
    assert all[|moves|] == m;
    assert forall i | 0 <= i < |moves| :: all[i] == moves[i] && c[moves[i].id] == b[moves[i].id];
    forall id | id in a && (forall i | 0 <= i < |all| :: all[i].id != id) ensures c[id] == a[id] {
      forall i | 0 <= i < |moves| ensures moves[i].id != id { assert all[i].id != id; }
      assert all[|moves|].id != id;
    }
  }

  lemma NoMoves(a: Intents)
    ensures Effect(a, a, [])
  {
  }

  lemma {:induction false} ApplyAllAt(a: Intents, moves: seq<Move>)
    requires DistinctTargets(moves)
    requires forall i | 0 <= i < |moves| :: Accepted(a, moves[i])
    ensures ApplyAll(a, moves).refusal.None? && Effect(a, ApplyAll(a, moves).intents, moves)
  {
    hide Accepted, Stored, Moved, Effect;
    if moves == [] {
      NoMoves(a);
    } else {
      var last := |moves| - 1;
      var init := moves[..last];
      assert forall i | 0 <= i < last :: init[i] == moves[i];
      ApplyAllAt(a, init);
      EffectGrows(a, ApplyAll(a, init).intents, init, moves[last]);
      assert init + [moves[last]] == moves;
    }
  }

  lemma {:induction false} ApplyAllStops(a: Intents, moves: seq<Move>, c: nat)
    requires DistinctTargets(moves) && c < |moves|
    requires forall i | 0 <= i < c :: Accepted(a, moves[i])
    requires moves[c].id in a && Moved(a[moves[c].id], moves[c]).Err?
    ensures ApplyAll(a, moves) == Outcome(ApplyAll(a, moves[..c]).intents, Some(Moved(a[moves[c].id], moves[c]).error))
  {
    var last := |moves| - 1;
    if c == last {
      var init := moves[..last];
      assert forall i | 0 <= i < last :: init[i] == moves[i];
      ApplyAllAt(a, init);
    } else {
      assert moves[..last][..c] == moves[..c];
      ApplyAllStops(a, moves[..last], c);
    }
  }

  lemma {:induction false} ApplyAllAppend(a: Intents, x: seq<Move>, y: seq<Move>)
    requires ApplyAll(a, x).refusal.None?
    ensures ApplyAll(a, x + y) == ApplyAll(ApplyAll(a, x).intents, y)
  {
    if y == [] {
      assert x + y == x;
    } else {
      assert (x + y)[..|x + y| - 1] == x + y[..|y| - 1];
      ApplyAllAppend(a, x, y[..|y| - 1]);
    }
  }

  // ---- the agenda of a pass, with the moves it leads to ------------------------------

  /** The facts every proof about a pass starts from. */
  ghost predicate Session(a: Intents, batch: seq<Proposal>, agenda: seq<Proposal>, policy: Policy, moves: seq<Move>) {
    && IsAgenda(a, batch, agenda) && AllValid(a) && AllInitial(batch) && moves == Moves(agenda, policy)
  }

  lemma AdmissionKeepsValid(before: Intents, batch: seq<Proposal>)
    requires DistinctIds(batch) && AllValid(before)
    ensures AllValid(AdmitAll(before, batch))
  {
    AdmitAllAt(before, batch);
  }

  lemma InitialBatch(batch: seq<Proposal>)
    requires AllInitial(batch)
    ensures FirstUninitial(batch) == |batch|
  {
  }

  lemma PassIsSession(before: Intents, batch: seq<Proposal>, policy: Policy)
    requires DistinctIds(batch) && AllInitial(batch) && AllValid(before)
    ensures Session(AdmitAll(before, batch), batch, Agenda(before, batch), policy, Moves(Agenda(before, batch), policy))
    ensures Pass(before, batch, policy) == ApplyAll(AdmitAll(before, batch), Moves(Agenda(before, batch), policy))
  {
    AdmissionKeepsValid(before, batch);
    AgendaHearsEveryCandidate(before, batch);
    InitialBatch(batch);
  }

  /** A key is stale when the intent has used it: the entry carries version one of an intent that has moved since. */
  predicate Stale(a: Intents, m: Move) {
    m.id in a && m.stamp in a[m.id].used
  }

  /** A key used before comes with the reasons it was used for. */
  predicate Consistent(a: Intents, m: Move) {
    m.id in a && (m.stamp in a[m.id].used ==> a[m.id].used[m.stamp] == m.reasons)
  }

  /** A move of a pass meets a candidate, at a version not past the stored one. */
  lemma MoveMeetsCandidate(a: Intents, batch: seq<Proposal>, agenda: seq<Proposal>, policy: Policy, moves: seq<Move>,
                           i: nat)
    requires Session(a, batch, agenda, policy, moves) && i < |moves|
    ensures moves[i].id == agenda[i].id && moves[i].id in a && a[moves[i].id].status.Candidate?
    ensures moves[i].stamp.version == agenda[i].version <= a[moves[i].id].version
    ensures agenda[i] !in batch ==> !Stale(a, moves[i])
    ensures agenda[i] in batch && a[moves[i].id].version == 1 ==> !Stale(a, moves[i])
    ensures !Stale(a, moves[i]) ==> Accepted(a, moves[i])
    ensures Accepted(a, moves[i]) <==> Consistent(a, moves[i])
    ensures Accepted(a, moves[i]) || Moved(a[moves[i].id], moves[i]) == Err(Conflict)
  {
    assert Valid(a[agenda[i].id]);
  }

  lemma MovesAreDistinct(a: Intents, batch: seq<Proposal>, agenda: seq<Proposal>, policy: Policy, moves: seq<Move>)
    requires Session(a, batch, agenda, policy, moves)
    ensures DistinctTargets(moves)
  {
  }

  // ---- when a pass completes, and whom it leaves undecided ---------------------------

  lemma {:induction false} FirstRefused(a: Intents, moves: seq<Move>, i: nat) returns (c: nat)
    requires i < |moves| && !Accepted(a, moves[i])
    ensures c <= i && !Accepted(a, moves[c]) && forall j | 0 <= j < c :: Accepted(a, moves[j])
  {
    if j :| 0 <= j < i && !Accepted(a, moves[j]) {
      c := FirstRefused(a, moves, j);
    } else {
      c := i;
    }
  }

  lemma AppliedIff(a: Intents, moves: seq<Move>)
    requires DistinctTargets(moves)
    requires forall i | 0 <= i < |moves| ::
               && moves[i].id in a && (Accepted(a, moves[i]) <==> Consistent(a, moves[i]))
               && (Accepted(a, moves[i]) || Moved(a[moves[i].id], moves[i]) == Err(Conflict))
    ensures ApplyAll(a, moves).refusal.None? <==> forall i | 0 <= i < |moves| :: Consistent(a, moves[i])
    ensures ApplyAll(a, moves).refusal.Some? ==> ApplyAll(a, moves).refusal == Some(Conflict)
  {
    hide *;
    if i :| 0 <= i < |moves| && !Accepted(a, moves[i]) {
      var c := FirstRefused(a, moves, i);
      ApplyAllStops(a, moves, c);
    } else {
      ApplyAllAt(a, moves);
    }
  }

  /** A pass is refused exactly when some verdict comes with other reasons than its key was used for before. */
  lemma PassCompletesIff(before: Intents, batch: seq<Proposal>, policy: Policy)
    requires DistinctIds(batch) && AllInitial(batch) && AllValid(before)
    ensures var moves := Moves(Agenda(before, batch), policy);
            && (Pass(before, batch, policy).refusal.None?
                <==> forall i | 0 <= i < |moves| :: Consistent(AdmitAll(before, batch), moves[i]))
            && (Pass(before, batch, policy).refusal.Some? ==> Pass(before, batch, policy).refusal == Some(Conflict))
  {
    var a, agenda := AdmitAll(before, batch), Agenda(before, batch);
    var moves := Moves(agenda, policy);
    PassIsSession(before, batch, policy);
    MovesAreDistinct(a, batch, agenda, policy, moves);
    forall i | 0 <= i < |moves|
      ensures moves[i].id in a && (Accepted(a, moves[i]) <==> Consistent(a, moves[i]))
      ensures Accepted(a, moves[i]) || Moved(a[moves[i].id], moves[i]) == Err(Conflict)
    {
      MoveMeetsCandidate(a, batch, agenda, policy, moves, i);
    }
    hide *;
    AppliedIff(a, moves);
  }

  lemma {:induction false} NeverUninitial(intents: Intents, moves: seq<Move>)
    ensures ApplyAll(intents, moves).refusal != Some(NotInitial)
  {
    if moves != [] { NeverUninitial(intents, moves[..|moves| - 1]); }
  }

  lemma PrefixInitial(batch: seq<Proposal>, n: nat)
    requires n <= |batch| && AllInitial(batch[..n])
    ensures forall i | 0 <= i < n :: IsInitial(batch[i])
  {
    assert forall i | 0 <= i < n :: batch[..n][i] == batch[i];
  }

  /** A pass refuses a batch as not initial exactly when it is, and has then admitted what stands before the first offender. */
  lemma UninitialIff(before: Intents, batch: seq<Proposal>, policy: Policy)
    requires DistinctIds(batch)
    ensures Pass(before, batch, policy).refusal == Some(NotInitial) <==> exists i :: 0 <= i < |batch| && !IsInitial(batch[i])
    ensures forall n | 0 <= n < |batch| && AllInitial(batch[..n]) && !IsInitial(batch[n]) ::
              Pass(before, batch, policy).intents == AdmitAll(before, batch[..n])
  {
    hide AdmitAll, Agenda, Moves, ApplyAll, IsInitial;
    NeverUninitial(AdmitAll(before, batch), Moves(Agenda(before, batch), policy));
    var bad := FirstUninitial(batch);
    forall n | 0 <= n < |batch| && AllInitial(batch[..n]) && !IsInitial(batch[n]) ensures n == bad {
      assert forall i | 0 <= i < n :: IsInitial(batch[i]) by { PrefixInitial(batch, n); }
    }
  }

  lemma MoveKeepsCandidateIff(a: Intents, moves: seq<Move>, i: nat)
    requires i < |moves| && Accepted(a, moves[i]) && a[moves[i].id].status.Candidate?
    ensures Moved(a[moves[i].id], moves[i]).value.status.Candidate? <==> Stale(a, moves[i])
  {
  }

  lemma StaysCandidateIff(a: Intents, out: Intents, moves: seq<Move>, id: int)
    requires Effect(a, out, moves)
    requires forall i | 0 <= i < |moves| :: Accepted(a, moves[i]) && a[moves[i].id].status.Candidate?
    requires id in a && a[id].status.Candidate? ==> exists i :: 0 <= i < |moves| && moves[i].id == id
    ensures id in out && out[id].status.Candidate? <==> exists i :: 0 <= i < |moves| && moves[i].id == id && Stale(a, moves[i])
  {
    if i :| 0 <= i < |moves| && moves[i].id == id {
      MoveKeepsCandidateIff(a, moves, i);
      forall j | 0 <= j < |moves| && moves[j].id == id && Stale(a, moves[j]) ensures out[id].status.Candidate? {
        MoveKeepsCandidateIff(a, moves, j);
      }
    }
  }

  /** A pass that completes has made each of its moves, on the candidates of its agenda. */
  lemma CompletedIsEffect(before: Intents, batch: seq<Proposal>, policy: Policy)
    requires DistinctIds(batch) && AllInitial(batch) && AllValid(before)
    requires Pass(before, batch, policy).refusal.None?
    ensures var a, agenda := AdmitAll(before, batch), Agenda(before, batch);
            var moves := Moves(agenda, policy);
            && Effect(a, Pass(before, batch, policy).intents, moves)
            && forall i | 0 <= i < |moves| :: Accepted(a, moves[i]) && agenda[i].id == moves[i].id && a[moves[i].id].status.Candidate?
  {
    var a, agenda := AdmitAll(before, batch), Agenda(before, batch);
    var moves := Moves(agenda, policy);
    PassIsSession(before, batch, policy);
    PassCompletesIff(before, batch, policy);
    MovesAreDistinct(a, batch, agenda, policy, moves);
    forall i | 0 <= i < |moves|
      ensures Accepted(a, moves[i]) && agenda[i].id == moves[i].id && a[moves[i].id].status.Candidate?
    {
      MoveMeetsCandidate(a, batch, agenda, policy, moves, i);
    }
    hide Pass, AdmitAll, Agenda, Session, Effect, Moves, Accepted;
    ApplyAllAt(a, moves);
  }

  /** After a pass that completes, an intent is still a candidate exactly when its own key was already used:
      it was proposed again at version one although it has been deferred and woken since. */
  lemma OnlyStaleEntriesStayCandidates(before: Intents, batch: seq<Proposal>, policy: Policy, id: int)
    requires DistinctIds(batch) && AllInitial(batch) && AllValid(before)
    requires Pass(before, batch, policy).refusal.None?
    ensures var a := AdmitAll(before, batch);
            var moves := Moves(Agenda(before, batch), policy);
            id in Pass(before, batch, policy).intents && Pass(before, batch, policy).intents[id].status.Candidate?
            <==> exists i :: 0 <= i < |moves| && moves[i].id == id && Stale(a, moves[i])
  {
    var a, agenda := AdmitAll(before, batch), Agenda(before, batch);
    var moves := Moves(agenda, policy);
    CompletedIsEffect(before, batch, policy);
    if id in a && a[id].status.Candidate? {
      AgendaHearsEveryCandidate(before, batch);
      var i :| 0 <= i < |agenda| && agenda[i].id == id;
      assert moves[i].id == id;
    }
    hide Pass, AdmitAll, Agenda, Effect, Moves, Accepted, Stale;
    StaysCandidateIff(a, Pass(before, batch, policy).intents, moves, id);
  }

  // ---- the pass of an instant nobody has been woken in --------------------------------

  function Fate(agenda: seq<Proposal>, policy: Policy, i: nat): Status
    requires i < |agenda|
  {
    if i > Chosen(agenda, policy) then Superseded
    else if policy(agenda[i]).decision.DEFER? then Deferred
    else if policy(agenda[i]).decision.DENY? then Blocked
    else Allowed
  }

  /** The first k candidates are moved, each by its own verdict up to the first ALLOW and to SUPERSEDED after it;
      nothing else changes. */
  ghost predicate Decided(a: Intents, out: Intents, agenda: seq<Proposal>, policy: Policy, k: nat)
    requires k <= |agenda|
  {
    && out.Keys == a.Keys
    && (forall i | 0 <= i < k ::
          && agenda[i].id in a && a[agenda[i].id].status.Candidate?
          && out[agenda[i].id].status == Fate(agenda, policy, i)
          && out[agenda[i].id].version == a[agenda[i].id].version + 1
          && out[agenda[i].id].body == a[agenda[i].id].body)
    && (forall id | id in a && (forall i | 0 <= i < k :: agenda[i].id != id) :: out[id] == a[id])
  }

  lemma MoveDecides(a: Intents, batch: seq<Proposal>, agenda: seq<Proposal>, policy: Policy, moves: seq<Move>, i: nat)
    requires Session(a, batch, agenda, policy, moves) && i < |moves| && !Stale(a, moves[i])
    ensures Accepted(a, moves[i]) && moves[i].id == agenda[i].id
    ensures var x := Moved(a[moves[i].id], moves[i]).value;
            Valid(x) && x.status == Fate(agenda, policy, i) && x.version == a[moves[i].id].version + 1
            && x.body == a[moves[i].id].body
  {
    MoveMeetsCandidate(a, batch, agenda, policy, moves, i);
    MovedKeeps(a[moves[i].id], moves[i]);
  }

  lemma NeverWokenIsFresh(before: Intents, batch: seq<Proposal>, policy: Policy, moves: seq<Move>, i: nat)
    requires DistinctIds(batch) && AllInitial(batch) && AllValid(before) && NeverWoken(before, batch)
    requires moves == Moves(Agenda(before, batch), policy) && i < |moves|
    ensures !Stale(AdmitAll(before, batch), moves[i])
  {
    var a, agenda := AdmitAll(before, batch), Agenda(before, batch);
    PassIsSession(before, batch, policy);
    MoveMeetsCandidate(a, batch, agenda, policy, moves, i);
    AdmitAllAt(before, batch);
    if agenda[i] in batch {
      var j :| 0 <= j < |batch| && batch[j] == agenda[i];
      assert a[batch[j].id].version == 1;
    }
  }

  /** The move leaves a valid intent with the fate the agenda gives it. */
  predicate Decides(x: Intent, m: Move, fate: Status) {
    && x.status.Candidate? && Moved(x, m).Ok?
    && Valid(Moved(x, m).value) && Moved(x, m).value.status == fate
    && Moved(x, m).value.version == x.version + 1 && Moved(x, m).value.body == x.body
  }

  lemma EffectDecides(a: Intents, out: Intents, agenda: seq<Proposal>, policy: Policy, moves: seq<Move>, k: nat)
    requires k <= |moves| == |agenda| && Effect(a, out, moves[..k]) && AllValid(a)
    requires forall i | 0 <= i < |moves| ::
               moves[i].id == agenda[i].id && moves[i].id in a && Decides(a[moves[i].id], moves[i], Fate(agenda, policy, i))
    ensures Decided(a, out, agenda, policy, k) && AllValid(out)
  {
    assert forall i | 0 <= i < k :: moves[..k][i] == moves[i] && moves[i].id == agenda[i].id;
    forall i | 0 <= i < k
      ensures agenda[i].id in a && a[agenda[i].id].status.Candidate?
      ensures out[agenda[i].id].status == Fate(agenda, policy, i)
      ensures out[agenda[i].id].version == a[agenda[i].id].version + 1 && out[agenda[i].id].body == a[agenda[i].id].body
    {
      assert Decides(a[moves[i].id], moves[i], Fate(agenda, policy, i));
    }
    forall id | id in a && (forall i | 0 <= i < k :: agenda[i].id != id) ensures out[id] == a[id] {
      forall i | 0 <= i < k ensures moves[..k][i].id != id { assert agenda[i].id != id; }
    }
    forall id | id in out ensures Valid(out[id]) {
      if i :| 0 <= i < k && moves[i].id == id {
        assert Decides(a[moves[i].id], moves[i], Fate(agenda, policy, i));
      } else {
        assert out[id] == a[id];
      }
    }
  }

  /** No move of the pass is stale, so each decides its intent. */
  lemma EveryMoveDecides(before: Intents, batch: seq<Proposal>, policy: Policy)
    requires DistinctIds(batch) && AllInitial(batch) && AllValid(before) && NeverWoken(before, batch)
    ensures var a, agenda := AdmitAll(before, batch), Agenda(before, batch);
            var moves := Moves(agenda, policy);
            && DistinctTargets(moves) && AllValid(a)
            && (forall i | 0 <= i < |moves| :: Accepted(a, moves[i]))
            && (forall i | 0 <= i < |moves| ::
                  moves[i].id == agenda[i].id && moves[i].id in a && Decides(a[moves[i].id], moves[i], Fate(agenda, policy, i)))
  {
    var a, agenda := AdmitAll(before, batch), Agenda(before, batch);
    var moves := Moves(agenda, policy);
    PassIsSession(before, batch, policy);
    MovesAreDistinct(a, batch, agenda, policy, moves);
    forall i | 0 <= i < |moves|
      ensures Accepted(a, moves[i]) && moves[i].id == agenda[i].id
              && Decides(a[moves[i].id], moves[i], Fate(agenda, policy, i))
    {
      NeverWokenIsFresh(before, batch, policy, moves, i);
      MoveMeetsCandidate(a, batch, agenda, policy, moves, i);
      MoveDecides(a, batch, agenda, policy, moves, i);
    }
  }

  /** What the pass has done after k of its transitions. */
  lemma PrefixDecides(before: Intents, batch: seq<Proposal>, policy: Policy, k: nat)
    requires DistinctIds(batch) && AllInitial(batch) && AllValid(before) && NeverWoken(before, batch)
    requires k <= |Agenda(before, batch)|
    ensures var out := ApplyAll(AdmitAll(before, batch), Moves(Agenda(before, batch), policy)[..k]);
            && out.refusal.None? && AllValid(out.intents)
            && Decided(AdmitAll(before, batch), out.intents, Agenda(before, batch), policy, k)
  {
    hide AdmitAll, Agenda, AllValid, Decides, Accepted, Moves, ApplyAll, Decided, NeverWoken, DistinctIds, AllInitial;
    EveryMoveDecides(before, batch, policy);
    var a, agenda := AdmitAll(before, batch), Agenda(before, batch);
    var moves := Moves(agenda, policy);
    var init := moves[..k];
    assert DistinctTargets(init) && forall i | 0 <= i < |init| :: init[i] == moves[i];
    hide *;
    ApplyAllAt(a, init);
    EffectDecides(a, ApplyAll(a, init).intents, agenda, policy, moves, k);
  }

  lemma PassDecides(before: Intents, batch: seq<Proposal>, policy: Policy)
    requires DistinctIds(batch) && AllInitial(batch) && AllValid(before) && NeverWoken(before, batch)
    ensures Pass(before, batch, policy).refusal.None? && AllValid(Pass(before, batch, policy).intents)
    ensures Decided(AdmitAll(before, batch), Pass(before, batch, policy).intents, Agenda(before, batch), policy, |Agenda(before, batch)|)
  {
    var moves := Moves(Agenda(before, batch), policy);
    InitialBatch(batch);
    assert moves[..|moves|] == moves;
    assert Pass(before, batch, policy) == ApplyAll(AdmitAll(before, batch), moves);
    hide Pass, AdmitAll, Agenda, ApplyAll, AllValid, Decided, Moves;
    PrefixDecides(before, batch, policy, |Agenda(before, batch)|);
  }

  /** The key a decision is stored under, and the status it gives. */
  function KeyFor(d: Decision, version: nat): Stamp {
    match d case DEFER => Stamp(Defer, version) case DENY => Stamp(Deny, version) case ALLOW => Stamp(Allow, version)
  }

  function StatusFor(d: Decision): Status {
    match d case DEFER => Deferred case DENY => Blocked case ALLOW => Allowed
  }

  lemma MoveSays(agenda: seq<Proposal>, policy: Policy, i: nat)
    requires i < |agenda|
    ensures var m, v := Moves(agenda, policy)[i], policy(agenda[i]);
            if exists j :: 0 <= j < i && policy(agenda[j]).decision.ALLOW?
            then m == Move(agenda[i].id, Stamp(Supersede, agenda[i].version), "lower_than_selected_candidate")
            else m == Move(agenda[i].id, KeyFor(v.decision, agenda[i].version), v.reasons)
    ensures Target(Supersede) == Superseded
    ensures Target(KeyFor(policy(agenda[i]).decision, agenda[i].version).verb) == StatusFor(policy(agenda[i]).decision)
  {
  }

  lemma FreshMoveWrites(a: Intents, m: Move)
    requires Accepted(a, m) && !Stale(a, m)
    ensures Moved(a[m.id], m) == Ok(Intent(a[m.id].body, Target(m.stamp.verb), a[m.id].version + 1, a[m.id].used[m.stamp := m.reasons]))
  {
  }

  /** What a pass records on each intent it hears: one version more, with the policy's reasons under the key of its verdict,
      or, after an intent was allowed, that it ranks lower. */
  lemma PassRecords(before: Intents, batch: seq<Proposal>, policy: Policy, i: nat)
    requires DistinctIds(batch) && AllInitial(batch) && AllValid(before) && NeverWoken(before, batch)
    requires i < |Agenda(before, batch)|
    ensures var agenda, out := Agenda(before, batch), Pass(before, batch, policy).intents;
            var p, v := agenda[i], policy(agenda[i]);
            var x := if p.id in before then before[p.id] else Intent(p.body, Candidate, 1, map[]);
            && p.id in out
            && out[p.id]
               == if exists j :: 0 <= j < i && policy(agenda[j]).decision.ALLOW?
                  then Intent(x.body, Superseded, x.version + 1, x.used[Stamp(Supersede, p.version) := "lower_than_selected_candidate"])
                  else Intent(x.body, StatusFor(v.decision), x.version + 1, x.used[KeyFor(v.decision, p.version) := v.reasons])
  {
    hide *;
    var a, agenda, out := AdmitAll(before, batch), Agenda(before, batch), Pass(before, batch, policy).intents;
    var m := Moves(agenda, policy)[i];
    PassDecides(before, batch, policy);
    CompletedIsEffect(before, batch, policy);
    NeverWokenIsFresh(before, batch, policy, Moves(agenda, policy), i);
    FreshMoveWrites(a, m);
    MoveSays(agenda, policy, i);
    AdmittedEntry(before, batch, i);
    EffectAt(a, out, Moves(agenda, policy), i);
  }

  lemma EffectAt(a: Intents, out: Intents, moves: seq<Move>, i: nat)
    requires Effect(a, out, moves) && i < |moves|
    ensures moves[i].id in a && moves[i].id in out && Moved(a[moves[i].id], moves[i]).Ok?
    ensures out[moves[i].id] == Moved(a[moves[i].id], moves[i]).value
  {
  }

  lemma AdmittedEntry(before: Intents, batch: seq<Proposal>, i: nat)
    requires DistinctIds(batch) && i < |Agenda(before, batch)|
    ensures var p := Agenda(before, batch)[i];
            && p.id in AdmitAll(before, batch)
            && AdmitAll(before, batch)[p.id] == if p.id in before then before[p.id] else Intent(p.body, Candidate, 1, map[])
  {
    AgendaHearsEveryCandidate(before, batch);
    AdmitAllAt(before, batch);
  }

  // ---- the promises of a complete pass ------------------------------------------------

  /** Allowed by this pass. */
  predicate NewlyAllowed(before: Intents, out: Intents, id: int) {
    id in out && out[id].status.Allowed? && (id !in before || !before[id].status.Allowed?)
  }

  /** The relation of the states before a pass, after its admissions and at its end. */
  ghost predicate Concluded(before: Intents, a: Intents, out: Intents, agenda: seq<Proposal>, policy: Policy) {
    && (forall id | id in before :: id in a && a[id] == before[id])
    && (forall id | id in a && id !in before :: a[id].status.Candidate?)
    && (forall id | id in a && a[id].status.Candidate? :: exists i :: 0 <= i < |agenda| && agenda[i].id == id)
    && (forall i, j | 0 <= i < j < |agenda| :: Less(Rank(agenda[i]), Rank(agenda[j])))
    && Decided(a, out, agenda, policy, |agenda|)
  }

  lemma PassConcludes(before: Intents, batch: seq<Proposal>, policy: Policy)
    requires DistinctIds(batch) && AllInitial(batch) && AllValid(before) && NeverWoken(before, batch)
    ensures Concluded(before, AdmitAll(before, batch), Pass(before, batch, policy).intents, Agenda(before, batch), policy)
  {
    var a, agenda := AdmitAll(before, batch), Agenda(before, batch);
    hide Decided, Pass, Agenda;
    PassDecides(before, batch, policy);
    AgendaHearsEveryCandidate(before, batch);
    AdmitAllAt(before, batch);
    hide AdmitAll, Less, Rank, Admissible;
  }

  /** The pass leaves no candidate, touches no intent it found decided, and adds only what it may admit. */
  lemma PassDrains(before: Intents, batch: seq<Proposal>, policy: Policy)
    requires DistinctIds(batch) && AllInitial(batch) && AllValid(before) && NeverWoken(before, batch)
    ensures var out := Pass(before, batch, policy).intents;
            && (forall id | id in out :: !out[id].status.Candidate?)
            && (forall id | id in before :: id in out && (!before[id].status.Candidate? ==> out[id] == before[id]))
            && (forall id | id in out && id !in before :: exists i :: 0 <= i < |batch| && batch[i].id == id && Admissible(before, batch[i]))
  {
    PassConcludes(before, batch, policy);
    AdmitAllAt(before, batch);
    hide *;
    ConcludedDrains(before, AdmitAll(before, batch), Pass(before, batch, policy).intents, Agenda(before, batch), policy);
  }

  lemma ConcludedDrains(before: Intents, a: Intents, out: Intents, agenda: seq<Proposal>, policy: Policy)
    requires Concluded(before, a, out, agenda, policy)
    ensures out.Keys == a.Keys
    ensures forall id | id in out :: !out[id].status.Candidate?
    ensures forall id | id in before :: id in out && (!before[id].status.Candidate? ==> out[id] == before[id])
  {
    hide Less;
    forall id | id in out ensures !out[id].status.Candidate? {
      if i :| 0 <= i < |agenda| && agenda[i].id == id {
        assert out[agenda[i].id].status == Fate(agenda, policy, i);
      } else {
        assert out[id] == a[id];
      }
    }
  }

  /** Strictly ahead of every other agenda entry the policy would allow. */
  predicate BestAllowed(agenda: seq<Proposal>, policy: Policy, i: nat)
    requires i < |agenda|
  {
    && policy(agenda[i]).decision.ALLOW?
    && forall j | 0 <= j < |agenda| && j != i && policy(agenda[j]).decision.ALLOW? :: Less(Rank(agenda[i]), Rank(agenda[j]))
  }

  /** At most one intent becomes allowed: the strongest, then first by id, of those the policy would allow;
      and one does whenever the policy would allow any. */
  lemma PassSelectsTheBest(before: Intents, batch: seq<Proposal>, policy: Policy, id: int)
    requires DistinctIds(batch) && AllInitial(batch) && AllValid(before) && NeverWoken(before, batch)
    ensures var agenda := Agenda(before, batch);
            && (NewlyAllowed(before, Pass(before, batch, policy).intents, id)
                <==> exists i :: 0 <= i < |agenda| && agenda[i].id == id && BestAllowed(agenda, policy, i))
            && ((exists i :: 0 <= i < |agenda| && BestAllowed(agenda, policy, i))
                <==> exists i :: 0 <= i < |agenda| && policy(agenda[i]).decision.ALLOW?)
  {
    PassConcludes(before, batch, policy);
    hide *;
    ConcludedSelects(before, AdmitAll(before, batch), Pass(before, batch, policy).intents, Agenda(before, batch), policy, id);
  }

  lemma BestIsChosen(agenda: seq<Proposal>, policy: Policy, i: nat)
    requires forall i, j | 0 <= i < j < |agenda| :: Less(Rank(agenda[i]), Rank(agenda[j]))
    requires i < |agenda|
    ensures BestAllowed(agenda, policy, i) <==> i == Chosen(agenda, policy)
  {
    var w := Chosen(agenda, policy);
    if policy(agenda[i]).decision.ALLOW? && i != w {
      assert Less(Rank(agenda[w]), Rank(agenda[i]));
    }
  }

  lemma ConcludedSelects(before: Intents, a: Intents, out: Intents, agenda: seq<Proposal>, policy: Policy, id: int)
    requires Concluded(before, a, out, agenda, policy)
    ensures NewlyAllowed(before, out, id) <==> exists i :: 0 <= i < |agenda| && agenda[i].id == id && BestAllowed(agenda, policy, i)
    ensures (exists i :: 0 <= i < |agenda| && BestAllowed(agenda, policy, i))
            <==> exists i :: 0 <= i < |agenda| && policy(agenda[i]).decision.ALLOW?
  {
    AllowedIsChosen(before, a, out, agenda, policy, id);
    hide Decided, NewlyAllowed;
    forall i | 0 <= i < |agenda| ensures BestAllowed(agenda, policy, i) <==> i == Chosen(agenda, policy) {
      BestIsChosen(agenda, policy, i);
    }
    hide Less, Rank;
    var w := Chosen(agenda, policy);
    assert w < |agenda| ==> BestAllowed(agenda, policy, w);
    forall i | 0 <= i < |agenda| && policy(agenda[i]).decision.ALLOW? ensures w < |agenda| {}
  }

  lemma AllowedIsChosen(before: Intents, a: Intents, out: Intents, agenda: seq<Proposal>, policy: Policy, id: int)
    requires Concluded(before, a, out, agenda, policy)
    ensures NewlyAllowed(before, out, id)
            <==> Chosen(agenda, policy) < |agenda| && agenda[Chosen(agenda, policy)].id == id
  {
    hide Less;
    var w := Chosen(agenda, policy);
    if w < |agenda| {
      assert out[agenda[w].id].status == Fate(agenda, policy, w);
    }
    if i :| 0 <= i < |agenda| && agenda[i].id == id {
      assert out[agenda[i].id].status == Fate(agenda, policy, i);
    }
  }

  lemma EffectKeepsDecided(a: Intents, out: Intents, moves: seq<Move>, id: int)
    requires Effect(a, out, moves) && id in a && !a[id].status.Candidate?
    requires forall i | 0 <= i < |moves| :: Accepted(a, moves[i]) && a[moves[i].id].status.Candidate?
    ensures id in out && out[id] == a[id]
  {
    hide Accepted, Moved;
  }

  /** A move allows a candidate when it is an ALLOW; a stale one only repeats an earlier answer. */
  lemma MoveAllowsIff(a: Intents, m: Move)
    requires Accepted(a, m) && a[m.id].status.Candidate?
    ensures Moved(a[m.id], m).value.status.Allowed? <==> m.stamp.verb.Allow? && !Stale(a, m)
  {
  }

  lemma ChosenVerb(agenda: seq<Proposal>, policy: Policy, i: nat)
    requires i < |agenda|
    ensures Moves(agenda, policy)[i].stamp.verb.Allow? <==> i == Chosen(agenda, policy)
  {
    JudgedVerb(agenda[i], policy(agenda[i]));
    assert !Passed(agenda[i]).stamp.verb.Allow?;
    hide Moves, Chosen, Judged, Passed;
  }

  lemma JudgedVerb(p: Proposal, v: Verdict)
    ensures Judged(p, v).stamp.verb.Allow? <==> v.decision.ALLOW?
  {
  }

  lemma EffectAllows(before: Intents, a: Intents, out: Intents, moves: seq<Move>, w: nat, id: int)
    requires Effect(a, out, moves)
    requires forall i | 0 <= i < |moves| :: Accepted(a, moves[i]) && a[moves[i].id].status.Candidate?
    requires forall i | 0 <= i < |moves| :: moves[i].stamp.verb.Allow? <==> i == w
    requires forall x | x in before :: x in a && a[x] == before[x]
    requires forall x | x in a && x !in before :: a[x].status.Candidate?
    ensures NewlyAllowed(before, out, id) <==> w < |moves| && moves[w].id == id && !Stale(a, moves[w])
  {
    hide Moved, Stale;
    forall i | 0 <= i < |moves| ensures out[moves[i].id].status.Allowed? <==> i == w && !Stale(a, moves[i]) {
      MoveAllowsIff(a, moves[i]);
    }
    hide Accepted;
    if i :| 0 <= i < |moves| && moves[i].id == id {
    } else {
      assert id in a ==> out[id] == a[id];
    }
  }

  /** Every pass that completes, with orphans woken since or not, touches no intent it found decided, and newly allows
      exactly the best agenda entry the policy allows, unless that entry is stale: then it allows nothing. */
  lemma CompletedPassAllowsIff(before: Intents, batch: seq<Proposal>, policy: Policy, id: int)
    requires DistinctIds(batch) && AllInitial(batch) && AllValid(before)
    requires Pass(before, batch, policy).refusal.None?
    ensures var agenda, out := Agenda(before, batch), Pass(before, batch, policy).intents;
            && (NewlyAllowed(before, out, id)
                <==> exists i :: 0 <= i < |agenda| && agenda[i].id == id && BestAllowed(agenda, policy, i)
                                 && !Stale(AdmitAll(before, batch), Moves(agenda, policy)[i]))
            && (id in before && !before[id].status.Candidate? ==> id in out && out[id] == before[id])
  {
    hide *;
    var agenda := Agenda(before, batch);
    CompletedPassChooses(before, batch, policy, id);
    AgendaDescends(before, batch);
    forall i | 0 <= i < |agenda| ensures BestAllowed(agenda, policy, i) <==> i == Chosen(agenda, policy) {
      BestIsChosen(agenda, policy, i);
    }
    if id in before && !before[id].status.Candidate? { CompletedPassKeepsDecided(before, batch, policy, id); }
  }

  lemma AgendaDescends(before: Intents, batch: seq<Proposal>)
    requires DistinctIds(batch)
    ensures var agenda := Agenda(before, batch);
            forall i, j | 0 <= i < j < |agenda| :: Less(Rank(agenda[i]), Rank(agenda[j]))
  {
    AgendaHearsEveryCandidate(before, batch);
    hide Agenda, AdmitAll, Less;
  }

  lemma CompletedPassChooses(before: Intents, batch: seq<Proposal>, policy: Policy, id: int)
    requires DistinctIds(batch) && AllInitial(batch) && AllValid(before)
    requires Pass(before, batch, policy).refusal.None?
    ensures var agenda, out := Agenda(before, batch), Pass(before, batch, policy).intents;
            var w := Chosen(agenda, policy);
            NewlyAllowed(before, out, id)
            <==> w < |agenda| && agenda[w].id == id && !Stale(AdmitAll(before, batch), Moves(agenda, policy)[w])
  {
    hide *;
    var a, agenda := AdmitAll(before, batch), Agenda(before, batch);
    CompletedIsEffect(before, batch, policy);
    BeforeIsKept(before, batch);
    AdmittedAreCandidates(before, batch);
    forall i | 0 <= i < |agenda| ensures Moves(agenda, policy)[i].stamp.verb.Allow? <==> i == Chosen(agenda, policy) {
      ChosenVerb(agenda, policy, i);
    }
    EffectAllows(before, a, Pass(before, batch, policy).intents, Moves(agenda, policy), Chosen(agenda, policy), id);
  }

  lemma CompletedPassKeepsDecided(before: Intents, batch: seq<Proposal>, policy: Policy, id: int)
    requires DistinctIds(batch) && AllInitial(batch) && AllValid(before)
    requires Pass(before, batch, policy).refusal.None? && id in before && !before[id].status.Candidate?
    ensures var out := Pass(before, batch, policy).intents; id in out && out[id] == before[id]
  {
    hide *;
    CompletedIsEffect(before, batch, policy);
    BeforeIsKept(before, batch);
    EffectKeepsDecided(AdmitAll(before, batch), Pass(before, batch, policy).intents, Moves(Agenda(before, batch), policy), id);
  }

  lemma BeforeIsKept(before: Intents, batch: seq<Proposal>)
    requires DistinctIds(batch)
    ensures forall id | id in before :: id in AdmitAll(before, batch) && AdmitAll(before, batch)[id] == before[id]
  {
    AdmitAllAt(before, batch);
  }

  lemma AdmittedAreCandidates(before: Intents, batch: seq<Proposal>)
    requires DistinctIds(batch)
    ensures forall id | id in AdmitAll(before, batch) && id !in before :: AdmitAll(before, batch)[id].status.Candidate?
  {
    AdmitAllAt(before, batch);
  }

  lemma FateInPass(before: Intents, batch: seq<Proposal>, policy: Policy, i: nat)
    requires DistinctIds(batch) && AllInitial(batch) && AllValid(before) && NeverWoken(before, batch)
    requires i < |Agenda(before, batch)|
    ensures var out, id := Pass(before, batch, policy).intents, Agenda(before, batch)[i].id;
            id in out && out[id].status == Fate(Agenda(before, batch), policy, i)
  {
    PassDecides(before, batch, policy);
  }

  lemma NewlyAllowedIsChosen(before: Intents, batch: seq<Proposal>, policy: Policy, id: int)
    requires DistinctIds(batch) && AllInitial(batch) && AllValid(before) && NeverWoken(before, batch)
    ensures var agenda := Agenda(before, batch);
            NewlyAllowed(before, Pass(before, batch, policy).intents, id)
            <==> Chosen(agenda, policy) < |agenda| && agenda[Chosen(agenda, policy)].id == id
  {
    PassConcludes(before, batch, policy);
    hide *;
    AllowedIsChosen(before, AdmitAll(before, batch), Pass(before, batch, policy).intents, Agenda(before, batch), policy, id);
  }
}
