/** Interrupting a pass and running it again, and what holds over every run of passes, wakes and settlements. */
module CognitiveReplay {
  import opened Wrappers
  import opened Keyset
  import opened IntentLifecycle
  import opened CognitiveTick
  import opened CognitivePass

  /** The ordinary circumstances of an instant: the engine's batch, and no orphan of it woken since. */
  predicate Ready(before: Intents, batch: seq<Proposal>) {
    DistinctIds(batch) && AllInitial(batch) && AllValid(before) && NeverWoken(before, batch)
  }

  lemma ReadyMeans(before: Intents, batch: seq<Proposal>)
    requires Ready(before, batch)
    ensures DistinctIds(batch) && AllInitial(batch) && AllValid(before) && NeverWoken(before, batch)
  {
  }

  /** What a pass has stored when it stops after its admissions and k transitions. */
  function Stopped(before: Intents, batch: seq<Proposal>, policy: Policy, k: nat): Intents
    requires DistinctIds(batch) && k <= |Agenda(before, batch)|
  {
    ApplyAll(AdmitAll(before, batch), Moves(Agenda(before, batch), policy)[..k]).intents
  }

  // ---- a second pass starts from ordinary circumstances --------------------------------

  lemma StoppedIsDecided(before: Intents, batch: seq<Proposal>, policy: Policy, k: nat)
    requires Ready(before, batch) && k <= |Agenda(before, batch)|
    ensures Decided(AdmitAll(before, batch), Stopped(before, batch, policy, k), Agenda(before, batch), policy, k)
    ensures AllValid(Stopped(before, batch, policy, k))
  {
    PrefixDecides(before, batch, policy, k);
  }

  lemma CandidateIsUnmoved(a: Intents, m: Intents, agenda: seq<Proposal>, policy: Policy, k: nat, id: int)
    requires k <= |agenda| && Decided(a, m, agenda, policy, k)
    ensures id in m && m[id].status.Candidate? ==> id in a && m[id] == a[id] && forall i | 0 <= i < k :: agenda[i].id != id
  {
    if i :| 0 <= i < k && agenda[i].id == id {
      assert m[agenda[i].id].status == Fate(agenda, policy, i);
    }
  }

  lemma OrphansAreFirstVersions(before: Intents, batch: seq<Proposal>)
    requires Ready(before, batch)
    ensures NeverWoken(AdmitAll(before, batch), batch)
  {
    AdmitAllAt(before, batch);
  }

  /** Wherever a pass stops among its transitions, its replay is again a pass over valid, unwoken intents. */
  lemma StoppedIsReady(before: Intents, batch: seq<Proposal>, policy: Policy, k: nat)
    requires Ready(before, batch) && k <= |Agenda(before, batch)|
    ensures Ready(Stopped(before, batch, policy, k), batch)
  {
    var a, m, agenda := AdmitAll(before, batch), Stopped(before, batch, policy, k), Agenda(before, batch);
    StoppedIsDecided(before, batch, policy, k);
    OrphansAreFirstVersions(before, batch);
    hide Stopped, AdmitAll, Agenda, Decided;
    forall i | 0 <= i < |batch| && Orphan(m, batch[i]) ensures m[batch[i].id].version == 1 {
      CandidateIsUnmoved(a, m, agenda, policy, k, batch[i].id);
    }
  }

  /** And so is the replay of a pass that stopped while admitting. */
  lemma PartlyAdmittedIsReady(before: Intents, batch: seq<Proposal>, n: nat)
    requires Ready(before, batch) && n <= |batch|
    ensures Ready(AdmitAll(before, batch[..n]), batch)
  {
    AdmissionKeepsValid(before, batch[..n]);
    AdmitAllAt(before, batch[..n]);
  }

  /** Replay drains: wherever the first pass stopped, a second one under any policy completes and leaves no candidate. */
  lemma ReplayDrains(before: Intents, batch: seq<Proposal>, first: Policy, second: Policy, n: nat, k: nat)
    requires Ready(before, batch) && n <= |batch| && k <= |Agenda(before, batch)|
    ensures forall m | m == AdmitAll(before, batch[..n]) || m == Stopped(before, batch, first, k) ::
              && Pass(m, batch, second).refusal.None?
              && forall id | id in Pass(m, batch, second).intents :: !Pass(m, batch, second).intents[id].status.Candidate?
  {
    StoppedIsReady(before, batch, first, k);
    PartlyAdmittedIsReady(before, batch, n);
    hide Stopped, AdmitAll, Agenda, Pass, AllValid, AllInitial, NeverWoken, DistinctIds, Decided;
    forall m | m == AdmitAll(before, batch[..n]) || m == Stopped(before, batch, first, k)
      ensures Pass(m, batch, second).refusal.None?
      ensures forall id | id in Pass(m, batch, second).intents :: !Pass(m, batch, second).intents[id].status.Candidate?
    {
      PassDecides(m, batch, second);
      PassDrains(m, batch, second);
    }
  }

  /** What the interrupted pass decided is final: the replay does not move it again. */
  lemma ReplayKeepsDecisions(before: Intents, batch: seq<Proposal>, first: Policy, second: Policy, k: nat, i: nat)
    requires Ready(before, batch) && i < k <= |Agenda(before, batch)|
    ensures var m, id := Stopped(before, batch, first, k), Agenda(before, batch)[i].id;
            && id in m && m[id].status == Fate(Agenda(before, batch), first, i)
            && id in Pass(m, batch, second).intents && Pass(m, batch, second).intents[id] == m[id]
  {
    ReadyMeans(before, batch);
    hide *;
    var m, agenda := Stopped(before, batch, first, k), Agenda(before, batch);
    FateInStopped(before, batch, first, k, i);
    FateIsFinal(agenda, first, i);
    StoppedIsReady(before, batch, first, k);
    ReadyMeans(m, batch);
    PassDrains(m, batch, second);
  }

  lemma FateIsFinal(agenda: seq<Proposal>, policy: Policy, i: nat)
    requires i < |agenda|
    ensures !Fate(agenda, policy, i).Candidate?
  {
  }

  // ---- when the replay ends where the uninterrupted pass would have ---------------------

  /** Agendas are determined by the state and the batch. */
  lemma AgendaIsUnique(a: Intents, batch: seq<Proposal>, x: seq<Proposal>, y: seq<Proposal>)
    requires DistinctIds(batch) && IsAgenda(a, batch, x) && IsAgenda(a, batch, y)
    ensures x == y
  {
    SameMembers(a, batch, x, y);
    SameMembers(a, batch, y, x);
    hide IsAgenda, Less;
    RanksDetermine(x, y);
  }

  /** The only proposal a pass over this state can hear for an id. */
  predicate Speaks(a: Intents, batch: seq<Proposal>, p: Proposal) {
    p in batch || (p.id !in Ids(batch) && p.id in a && p == Current(p.id, a[p.id]))
  }

  lemma OneVoice(a: Intents, batch: seq<Proposal>, p: Proposal, q: Proposal)
    requires DistinctIds(batch) && Speaks(a, batch, p) && Speaks(a, batch, q) && p.id == q.id
    ensures p == q
  {
  }

  lemma SameMembers(a: Intents, batch: seq<Proposal>, x: seq<Proposal>, y: seq<Proposal>)
    requires DistinctIds(batch) && IsAgenda(a, batch, x) && IsAgenda(a, batch, y)
    ensures forall p | p in x :: p in y
    ensures forall i, j | 0 <= i < j < |x| :: Less(Rank(x[i]), Rank(x[j]))
  {
    hide Less, DistinctIds;
    forall p | p in x ensures p in y {
      var i :| 0 <= i < |x| && x[i] == p;
      var j :| 0 <= j < |y| && y[j].id == p.id;
      assert Speaks(a, batch, x[i]) && Speaks(a, batch, y[j]);
      OneVoice(a, batch, y[j], p);
    }
  }

  lemma RanksDetermine(x: seq<Proposal>, y: seq<Proposal>)
    requires forall p :: p in x <==> p in y
    requires forall i, j | 0 <= i < j < |x| :: Less(Rank(x[i]), Rank(x[j]))
    requires forall i, j | 0 <= i < j < |y| :: Less(Rank(y[i]), Rank(y[j]))
    ensures x == y
  {
    var rx := seq(|x|, i requires 0 <= i < |x| => Rank(x[i]));
    var ry := seq(|y|, i requires 0 <= i < |y| => Rank(y[i]));
    RanksIncluded(x, rx, y, ry);
    RanksIncluded(y, ry, x, rx);
    AscendingUnique(rx, ry);
    forall i | 0 <= i < |x| ensures x[i] == y[i] {
      assert rx[i] == ry[i] && x[i] in y;
      var j :| 0 <= j < |y| && y[j] == x[i];
      assert ry[j] == Rank(y[j]) == Rank(y[i]) == ry[i];
    }
  }

  lemma RanksIncluded(x: seq<Proposal>, rx: seq<Key>, y: seq<Proposal>, ry: seq<Key>)
    requires |rx| == |x| && (forall i | 0 <= i < |x| :: rx[i] == Rank(x[i]))
    requires |ry| == |y| && (forall i | 0 <= i < |y| :: ry[i] == Rank(y[i]))
    requires forall p | p in x :: p in y
    ensures forall k | k in rx :: k in ry
  {
    forall k | k in rx ensures k in ry {
      var i :| 0 <= i < |rx| && rx[i] == k;
      assert x[i] in y;
      var j :| 0 <= j < |y| && y[j] == x[i];
      assert ry[j] == k;
    }
  }

  /** A pass that admits nothing works on the state it found. */
  lemma {:induction false} NothingToAdmit(m: Intents, batch: seq<Proposal>)
    requires forall i | 0 <= i < |batch| :: !Admissible(m, batch[i])
    ensures AdmitAll(m, batch) == m
  {
    if batch != [] { NothingToAdmit(m, batch[..|batch| - 1]); }
  }

  /** A proposal deduplicated by the first pass that the second would admit, its blocker having been given up. */
  predicate Unblocked(m: Intents, batch: seq<Proposal>) {
    exists i :: 0 <= i < |batch| && Admissible(m, batch[i])
  }

  /** The agenda of a replay that admits nothing is what the first pass had left. */
  lemma RestIsAgenda(a: Intents, m: Intents, batch: seq<Proposal>, agenda: seq<Proposal>, policy: Policy, k: nat)
    requires k <= |agenda| && IsAgenda(a, batch, agenda) && Decided(a, m, agenda, policy, k)
    ensures IsAgenda(m, batch, agenda[k..])
  {
    hide Less, Rank;
    var rest := agenda[k..];
    forall i | 0 <= i < |rest|
      ensures rest[i].id in m && m[rest[i].id] == a[rest[i].id]
    {
      assert rest[i] == agenda[k + i];
      assert forall j | 0 <= j < k :: agenda[j].id != rest[i].id;
    }
    forall id | id in m && m[id].status.Candidate? ensures exists i :: 0 <= i < |rest| && rest[i].id == id {
      CandidateIsUnmoved(a, m, agenda, policy, k, id);
      var i :| 0 <= i < |agenda| && agenda[i].id == id;
      assert rest[i - k] == agenda[i];
    }
  }

  lemma ReplayAgenda(before: Intents, batch: seq<Proposal>, policy: Policy, k: nat)
    requires Ready(before, batch) && k <= |Agenda(before, batch)|
    requires !Unblocked(Stopped(before, batch, policy, k), batch)
    ensures var m := Stopped(before, batch, policy, k);
            AdmitAll(m, batch) == m && Agenda(m, batch) == Agenda(before, batch)[k..]
  {
    var a, m, agenda := AdmitAll(before, batch), Stopped(before, batch, policy, k), Agenda(before, batch);
    StoppedIsDecided(before, batch, policy, k);
    AgendaHearsEveryCandidate(before, batch);
    NothingToAdmit(m, batch);
    AgendaHearsEveryCandidate(m, batch);
    hide Stopped, AdmitAll, Agenda, IsAgenda, Decided;
    RestIsAgenda(a, m, batch, agenda, policy, k);
    AgendaIsUnique(m, batch, Agenda(m, batch), agenda[k..]);
  }

  /** Until the ALLOW is stored, the rest of the agenda leads to the rest of the moves. */
  lemma RestOfMoves(agenda: seq<Proposal>, policy: Policy, k: nat)
    requires k <= Chosen(agenda, policy)
    ensures Moves(agenda[k..], policy) == Moves(agenda, policy)[k..]
  {
    var rest := agenda[k..];
    var w, v := Chosen(agenda, policy), Chosen(rest, policy);
    if v < |rest| { assert rest[v] == agenda[k + v]; }
    if w < |agenda| { assert rest[w - k] == agenda[w]; }
    assert v == w - k;
    assert forall i | 0 <= i < |rest| :: rest[i] == agenda[k + i];
  }

  lemma RestOfPass(before: Intents, batch: seq<Proposal>, policy: Policy, k: nat)
    requires Ready(before, batch) && k <= Chosen(Agenda(before, batch), policy)
    requires !Unblocked(Stopped(before, batch, policy, k), batch)
    ensures var m := Stopped(before, batch, policy, k);
            Pass(m, batch, policy) == ApplyAll(m, Moves(Agenda(before, batch), policy)[k..])
  {
    ReadyMeans(before, batch);
    hide *;
    var m := Stopped(before, batch, policy, k);
    StoppedIsReady(before, batch, policy, k);
    ReadyMeans(m, batch);
    PassIsSession(m, batch, policy);
    ReplayAgenda(before, batch, policy, k);
    RestOfMoves(Agenda(before, batch), policy, k);
  }

  lemma ReplayBeforeAllow(before: Intents, batch: seq<Proposal>, policy: Policy, k: nat)
    requires Ready(before, batch) && k <= Chosen(Agenda(before, batch), policy)
    requires !Unblocked(Stopped(before, batch, policy, k), batch)
    ensures Pass(Stopped(before, batch, policy, k), batch, policy) == Pass(before, batch, policy)
  {
    ReadyMeans(before, batch);
    hide *;
    var moves := Moves(Agenda(before, batch), policy);
    PassIsSession(before, batch, policy);
    PrefixDecides(before, batch, policy, k);
    StoppedUnfolds(before, batch, policy, k);
    RestOfPass(before, batch, policy, k);
    MovesInTwo(AdmitAll(before, batch), moves, k);
  }

  lemma MovesInTwo(a: Intents, moves: seq<Move>, k: nat)
    requires k <= |moves| && ApplyAll(a, moves[..k]).refusal.None?
    ensures ApplyAll(a, moves) == ApplyAll(ApplyAll(a, moves[..k]).intents, moves[k..])
  {
    assert moves[..k] + moves[k..] == moves;
    ApplyAllAppend(a, moves[..k], moves[k..]);
  }

  lemma StoppedUnfolds(before: Intents, batch: seq<Proposal>, policy: Policy, k: nat)
    requires DistinctIds(batch) && k <= |Agenda(before, batch)|
    ensures Stopped(before, batch, policy, k)
            == ApplyAll(AdmitAll(before, batch), Moves(Agenda(before, batch), policy)[..k]).intents
  {
  }

  lemma ReplayAfterAll(before: Intents, batch: seq<Proposal>, policy: Policy)
    requires Ready(before, batch)
    requires !Unblocked(Stopped(before, batch, policy, |Agenda(before, batch)|), batch)
    ensures Pass(Stopped(before, batch, policy, |Agenda(before, batch)|), batch, policy) == Pass(before, batch, policy)
  {
    var agenda := Agenda(before, batch);
    var moves := Moves(agenda, policy);
    InitialBatch(batch);
    PassDecides(before, batch, policy);
    ReplayAgenda(before, batch, policy, |agenda|);
    assert moves[..|agenda|] == moves && agenda[|agenda|..] == [];
  }

  /** After the ALLOW, an entry still to be superseded is decided on its own verdict instead. */
  lemma ReplayBetween(before: Intents, batch: seq<Proposal>, policy: Policy, k: nat)
    requires Ready(before, batch) && Chosen(Agenda(before, batch), policy) < k < |Agenda(before, batch)|
    requires !Unblocked(Stopped(before, batch, policy, k), batch)
    ensures var id := Agenda(before, batch)[k].id;
            var again := Pass(Stopped(before, batch, policy, k), batch, policy).intents;
            && id in again && id in Pass(before, batch, policy).intents
            && Pass(before, batch, policy).intents[id].status.Superseded? && !again[id].status.Superseded?
  {
    ReadyMeans(before, batch);
    hide *;
    var agenda, m := Agenda(before, batch), Stopped(before, batch, policy, k);
    StoppedIsReady(before, batch, policy, k);
    ReadyMeans(m, batch);
    ReplayAgenda(before, batch, policy, k);
    assert agenda[k..][0] == agenda[k];
    FateInPass(before, batch, policy, k);
    FateInPass(m, batch, policy, 0);
    LateFate(agenda, policy, k);
  }

  lemma LateFate(agenda: seq<Proposal>, policy: Policy, k: nat)
    requires Chosen(agenda, policy) < k < |agenda|
    ensures Fate(agenda, policy, k) == Superseded && Fate(agenda[k..], policy, 0) != Superseded
  {
  }

  lemma ReplayAdmits(before: Intents, batch: seq<Proposal>, policy: Policy, k: nat)
    requires Ready(before, batch) && k <= |Agenda(before, batch)|
    requires Unblocked(Stopped(before, batch, policy, k), batch)
    ensures Pass(Stopped(before, batch, policy, k), batch, policy).intents.Keys != Pass(before, batch, policy).intents.Keys
  {
    var m := Stopped(before, batch, policy, k);
    PassDecides(before, batch, policy);
    StoppedIsDecided(before, batch, policy, k);
    StoppedIsReady(before, batch, policy, k);
    PassDecides(m, batch, policy);
    AdmitAllAt(m, batch);
    hide AdmitAll, Agenda, Stopped, Pass, ApplyAll;
    var i :| 0 <= i < |batch| && Admissible(m, batch[i]);
    assert batch[i].id in Pass(m, batch, policy).intents;
  }

  /** Stopping after k transitions and running the pass again ends where an uninterrupted pass ends exactly when no
      deduplicated proposal has been unblocked, and the stop did not fall between the ALLOW and the last SUPERSEDE. */
  lemma RecoveryIsExactIff(before: Intents, batch: seq<Proposal>, policy: Policy, k: nat)
    requires Ready(before, batch) && k <= |Agenda(before, batch)|
    ensures Pass(Stopped(before, batch, policy, k), batch, policy).intents == Pass(before, batch, policy).intents
            <==> !Unblocked(Stopped(before, batch, policy, k), batch)
                 && (k <= Chosen(Agenda(before, batch), policy) || k == |Agenda(before, batch)|)
  {
    assert DistinctIds(batch);
    hide *;
    if Unblocked(Stopped(before, batch, policy, k), batch) {
      ReplayAdmits(before, batch, policy, k);
    } else if k <= Chosen(Agenda(before, batch), policy) {
      ReplayBeforeAllow(before, batch, policy, k);
    } else if k == |Agenda(before, batch)| {
      ReplayAfterAll(before, batch, policy);
    } else {
      ReplayBetween(before, batch, policy, k);
    }
  }

  lemma StoppedAtTheEnd(before: Intents, batch: seq<Proposal>, policy: Policy)
    requires Ready(before, batch)
    ensures Stopped(before, batch, policy, |Agenda(before, batch)|) == Pass(before, batch, policy).intents
  {
    InitialBatch(batch);
    assert Moves(Agenda(before, batch), policy)[..|Agenda(before, batch)|] == Moves(Agenda(before, batch), policy);
  }

  /** Running a completed pass again changes nothing exactly when none of its deduplicated proposals was unblocked. */
  lemma ReplayIsNoOpIff(before: Intents, batch: seq<Proposal>, policy: Policy)
    requires Ready(before, batch)
    ensures var done := Pass(before, batch, policy).intents;
            Pass(done, batch, policy).intents == done <==> !Unblocked(done, batch)
  {
    var n := |Agenda(before, batch)|;
    hide *;
    StoppedAtTheEnd(before, batch, policy);
    ReadyMeans(before, batch);
    RecoveryIsExactIff(before, batch, policy, n);
  }

  /** Two intents that were not allowed before are allowed now. */
  ghost predicate AllowsTwo(before: Intents, out: Intents) {
    exists x, y :: x != y && NewlyAllowed(before, out, x) && NewlyAllowed(before, out, y)
  }

  /** What a replay hears: the entries the first pass had left, and the proposals it newly admits. */
  predicate HeardAgain(m: Intents, batch: seq<Proposal>, rest: seq<Proposal>, p: Proposal) {
    p in rest || (p in batch && Admissible(m, p))
  }

  lemma LeftIsHeard(a: Intents, m: Intents, batch: seq<Proposal>, agenda: seq<Proposal>, policy: Policy, k: nat,
                    p: Proposal)
    requires DistinctIds(batch) && k <= |agenda| && IsAgenda(a, batch, agenda) && Decided(a, m, agenda, policy, k)
    ensures p in agenda[k..]
            <==> p.id in m && m[p.id].status.Candidate? && (p in batch || (p.id !in Ids(batch) && p == Current(p.id, m[p.id])))
  {
    hide Less, Rank;
    if p in agenda[k..] {
      var i :| 0 <= i < |agenda[k..]| && agenda[k..][i] == p;
      assert agenda[k + i] == p;
      assert forall j | 0 <= j < k :: agenda[j].id != p.id;
    }
    if p.id in m && m[p.id].status.Candidate? && (p in batch || (p.id !in Ids(batch) && p == Current(p.id, m[p.id]))) {
      CandidateIsUnmoved(a, m, agenda, policy, k, p.id);
      var i :| 0 <= i < |agenda| && agenda[i].id == p.id;
      assert Speaks(a, batch, agenda[i]) && Speaks(a, batch, p);
      OneVoice(a, batch, agenda[i], p);
      assert agenda[k..][i - k] == p;
    }
  }

  lemma ReplayHears(before: Intents, batch: seq<Proposal>, first: Policy, k: nat, p: Proposal)
    requires Ready(before, batch) && k <= |Agenda(before, batch)|
    ensures var m := Stopped(before, batch, first, k);
            p in Agenda(m, batch) <==> HeardAgain(m, batch, Agenda(before, batch)[k..], p)
  {
    var a, m, agenda := AdmitAll(before, batch), Stopped(before, batch, first, k), Agenda(before, batch);
    StoppedIsDecided(before, batch, first, k);
    AgendaHearsEveryCandidate(before, batch);
    LeftIsHeard(a, m, batch, agenda, first, k, p);
    HeardIsPool(m, batch, p);
    hide Stopped, Agenda, IsAgenda, Decided, AllValid, NeverWoken;
    AdmitAllAt(m, batch);
    hide AdmitAll, ActiveKinds;
    if p.id in AdmitAll(m, batch) && p.id !in m {
      var i :| 0 <= i < |batch| && batch[i].id == p.id && Admissible(m, batch[i]);
    }
  }

  lemma HeardIsPool(m: Intents, batch: seq<Proposal>, p: Proposal)
    requires DistinctIds(batch)
    ensures p in Agenda(m, batch) <==> p in Enrolled(m, batch) || p in Reconsidered(AdmitAll(m, batch), batch)
  {
    PoolIsOnePerId(m, batch);
    var pool := Enrolled(m, batch) + Reconsidered(AdmitAll(m, batch), batch);
    hide Enrolled, Reconsidered;
    if p in Agenda(m, batch) {
      var i :| 0 <= i < |Agenda(m, batch)| && Agenda(m, batch)[i] == p;
      assert Sorted(pool)[i] in pool;
    }
  }

  /** The stopped pass has allowed an intent exactly when it came past its first ALLOW. */
  lemma StoppedAllows(before: Intents, batch: seq<Proposal>, first: Policy, k: nat, id: int)
    requires Ready(before, batch) && k <= |Agenda(before, batch)|
    ensures var agenda := Agenda(before, batch);
            NewlyAllowed(before, Stopped(before, batch, first, k), id)
            <==> Chosen(agenda, first) < k && agenda[Chosen(agenda, first)].id == id
  {
    var a := AdmitAll(before, batch);
    StoppedIsDecided(before, batch, first, k);
    AdmitAllAt(before, batch);
    AdmittedAreCandidates(before, batch);
    hide *;
    DecidedAllows(before, a, Stopped(before, batch, first, k), Agenda(before, batch), first, k, id);
  }

  lemma DecidedAllows(before: Intents, a: Intents, m: Intents, agenda: seq<Proposal>, first: Policy, k: nat, id: int)
    requires k <= |agenda| && Decided(a, m, agenda, first, k)
    requires forall x | x in before :: x in a && a[x] == before[x]
    requires forall x | x in a && x !in before :: a[x].status.Candidate?
    ensures NewlyAllowed(before, m, id) <==> Chosen(agenda, first) < k && agenda[Chosen(agenda, first)].id == id
  {
    var w := Chosen(agenda, first);
    if w < k { assert m[agenda[w].id].status == Fate(agenda, first, w); }
    if i :| 0 <= i < k && agenda[i].id == id {
      assert m[agenda[i].id].status == Fate(agenda, first, i);
    }
  }

  /** Decided intents stay as they are in the stopped pass and in its replay. */
  lemma DecidedStays(before: Intents, batch: seq<Proposal>, first: Policy, second: Policy, k: nat, id: int)
    requires Ready(before, batch) && k <= |Agenda(before, batch)|
    ensures var m := Stopped(before, batch, first, k);
            && (id in before && before[id].status.Allowed? ==> id in m && m[id] == before[id])
            && (id in m && m[id].status.Allowed? ==> id in Pass(m, batch, second).intents && Pass(m, batch, second).intents[id] == m[id])
  {
    var a, m, agenda := AdmitAll(before, batch), Stopped(before, batch, first, k), Agenda(before, batch);
    StoppedIsDecided(before, batch, first, k);
    AdmitAllAt(before, batch);
    StoppedIsReady(before, batch, first, k);
    PassDrains(m, batch, second);
    hide Stopped, Agenda, AdmitAll, Admissible, Ready, Pass;
    if id in before && before[id].status.Allowed? {
      assert forall i | 0 <= i < k :: a[agenda[i].id].status.Candidate?;
    }
  }

  lemma AllowedInEither(before: Intents, batch: seq<Proposal>, first: Policy, second: Policy, k: nat, id: int)
    requires Ready(before, batch) && k <= |Agenda(before, batch)|
    ensures var m := Stopped(before, batch, first, k);
            NewlyAllowed(before, Pass(m, batch, second).intents, id)
            <==> NewlyAllowed(before, m, id) || NewlyAllowed(m, Pass(m, batch, second).intents, id)
  {
    DecidedStays(before, batch, first, second, k, id);
    hide Stopped, Agenda, Ready, Pass;
  }

  lemma ChosenIff(agenda: seq<Proposal>, policy: Policy)
    ensures Chosen(agenda, policy) < |agenda| <==> exists p :: p in agenda && policy(p).decision.ALLOW?
  {
    if Chosen(agenda, policy) < |agenda| { assert agenda[Chosen(agenda, policy)] in agenda; }
  }

  /** An instant that is driven twice, the first drive stopping after k transitions or completing, allows two intents
      exactly when the first drive came past its ALLOW and the second policy allows an entry still to be superseded or a
      deduplicated proposal whose kind the first drive has freed. */
  lemma SecondAllowIff(before: Intents, batch: seq<Proposal>, first: Policy, second: Policy, k: nat)
    requires Ready(before, batch) && k <= |Agenda(before, batch)|
    ensures var agenda, m := Agenda(before, batch), Stopped(before, batch, first, k);
            AllowsTwo(before, Pass(m, batch, second).intents)
            <==> Chosen(agenda, first) < k
                 && exists p :: HeardAgain(m, batch, agenda[k..], p) && second(p).decision.ALLOW?
  {
    ReadyMeans(before, batch);
    StoppedIsReady(before, batch, first, k);
    var agenda, m := Agenda(before, batch), Stopped(before, batch, first, k);
    ReadyMeans(m, batch);
    hide *;
    var again, out := Agenda(m, batch), Pass(m, batch, second).intents;
    forall id
      ensures NewlyAllowed(before, m, id) <==> Chosen(agenda, first) < k && agenda[Chosen(agenda, first)].id == id
      ensures NewlyAllowed(m, out, id) <==> Chosen(again, second) < |again| && again[Chosen(again, second)].id == id
      ensures NewlyAllowed(before, out, id) <==> NewlyAllowed(before, m, id) || NewlyAllowed(m, out, id)
    {
      StoppedAllows(before, batch, first, k, id);
      NewlyAllowedIsChosen(m, batch, second, id);
      AllowedInEither(before, batch, first, second, k, id);
    }
    ChosenIff(again, second);
    forall p ensures p in again <==> HeardAgain(m, batch, agenda[k..], p) { ReplayHears(before, batch, first, k, p); }
    TwoStages(before, m, out, agenda, first, k, again, second);
  }

  lemma TwoStages(before: Intents, m: Intents, out: Intents, agenda: seq<Proposal>, first: Policy, k: nat,
                  again: seq<Proposal>, second: Policy)
    requires k <= |agenda|
    requires forall id :: NewlyAllowed(before, m, id) <==> Chosen(agenda, first) < k && agenda[Chosen(agenda, first)].id == id
    requires forall id :: NewlyAllowed(m, out, id) <==> Chosen(again, second) < |again| && again[Chosen(again, second)].id == id
    requires forall id :: NewlyAllowed(before, out, id) <==> NewlyAllowed(before, m, id) || NewlyAllowed(m, out, id)
    ensures AllowsTwo(before, out) <==> Chosen(agenda, first) < k && Chosen(again, second) < |again|
  {
    if Chosen(agenda, first) < k && Chosen(again, second) < |again| {
      var x, y := agenda[Chosen(agenda, first)].id, again[Chosen(again, second)].id;
      assert NewlyAllowed(before, m, x) && NewlyAllowed(m, out, y);
      assert NewlyAllowed(before, out, x) && NewlyAllowed(before, out, y);
    }
  }

  lemma FateInStopped(before: Intents, batch: seq<Proposal>, policy: Policy, k: nat, i: nat)
    requires Ready(before, batch) && i < k <= |Agenda(before, batch)|
    ensures var m, id := Stopped(before, batch, policy, k), Agenda(before, batch)[i].id;
            id in m && m[id].status == Fate(Agenda(before, batch), policy, i)
  {
    StoppedIsDecided(before, batch, policy, k);
  }

  // ---- a stop during the admissions ---------------------------------------------------

  /** Two admissible proposals of one kind, the first already stored and the second not yet reached. */
  predicate Straddled(before: Intents, batch: seq<Proposal>, n: nat) {
    exists i, j :: 0 <= i < n <= j < |batch| && Admissible(before, batch[i]) && Admissible(before, batch[j])
                   && batch[i].body.kind == batch[j].body.kind
  }

  lemma AdmissibleAgain(before: Intents, batch: seq<Proposal>, n: nat, j: nat)
    requires DistinctIds(batch) && n <= |batch| && j < |batch|
    ensures var m := AdmitAll(before, batch[..n]);
            Admissible(m, batch[j])
            <==> n <= j && Admissible(before, batch[j])
                 && !exists i :: 0 <= i < n && Admissible(before, batch[i]) && batch[i].body.kind == batch[j].body.kind
  {
    var init := batch[..n];
    var m := AdmitAll(before, init);
    AdmitAllAt(before, init);
    assert forall i | 0 <= i < n :: init[i] == batch[i];
    assert forall i | 0 <= i < n && Admissible(before, batch[i]) :: m[batch[i].id] == Admitted(batch[i]);
    hide AdmitAll;
    KindsAfter(before, batch, m, n, batch[j].body.kind);
    hide ActiveKinds, Admitted;
  }

  lemma KindsAfter(before: Intents, batch: seq<Proposal>, m: Intents, n: nat, kind: string)
    requires n <= |batch|
    requires forall id | id in before :: id in m && m[id] == before[id]
    requires forall i | 0 <= i < n && Admissible(before, batch[i]) :: batch[i].id in m && m[batch[i].id] == Admitted(batch[i])
    requires forall id | id in m :: id in before || exists i :: 0 <= i < n && batch[i].id == id && Admissible(before, batch[i])
    ensures kind in ActiveKinds(m)
            <==> kind in ActiveKinds(before) || exists i :: 0 <= i < n && Admissible(before, batch[i]) && batch[i].body.kind == kind
  {
    hide Admissible;
    if kind in ActiveKinds(m) {
      var id :| id in m && Active(m[id].status) && m[id].body.kind == kind;
    }
    if kind in ActiveKinds(before) {
      var id :| id in before && Active(before[id].status) && before[id].body.kind == kind;
      assert id in m;
    }
    if i :| 0 <= i < n && Admissible(before, batch[i]) && batch[i].body.kind == kind {
      assert batch[i].id in m;
    }
  }

  lemma AdmissionsResume(before: Intents, batch: seq<Proposal>, n: nat)
    requires DistinctIds(batch) && n <= |batch| && !Straddled(before, batch, n)
    ensures AdmitAll(AdmitAll(before, batch[..n]), batch) == AdmitAll(before, batch)
  {
    var m := AdmitAll(before, batch[..n]);
    var x, y := AdmitAll(m, batch), AdmitAll(before, batch);
    forall j | 0 <= j < |batch| ensures Admissible(m, batch[j]) <==> n <= j && Admissible(before, batch[j]) {
      AdmissibleAgain(before, batch, n, j);
    }
    AdmitAllAt(before, batch[..n]);
    AdmitAllAt(before, batch);
    AdmitAllAt(m, batch);
    hide AdmitAll, Admissible;
    ResumedAgree(before, m, x, y, batch, n);
  }

  lemma ResumedAgree(before: Intents, m: Intents, x: Intents, y: Intents, batch: seq<Proposal>, n: nat)
    requires n <= |batch|
    requires forall j | 0 <= j < |batch| :: Admissible(m, batch[j]) <==> n <= j && Admissible(before, batch[j])
    requires forall id | id in before :: id in m && m[id] == before[id] && id in y && y[id] == before[id]
    requires forall i | 0 <= i < n && Admissible(before, batch[..n][i]) :: batch[..n][i].id in m && m[batch[..n][i].id] == Admitted(batch[..n][i])
    requires forall id | id in m :: id in before || exists i :: 0 <= i < n && batch[..n][i].id == id && Admissible(before, batch[..n][i])
    requires forall i | 0 <= i < |batch| && Admissible(before, batch[i]) :: batch[i].id in y && y[batch[i].id] == Admitted(batch[i])
    requires forall id | id in y :: id in before || exists i :: 0 <= i < |batch| && batch[i].id == id && Admissible(before, batch[i])
    requires forall id | id in m :: id in x && x[id] == m[id]
    requires forall i | 0 <= i < |batch| && Admissible(m, batch[i]) :: batch[i].id in x && x[batch[i].id] == Admitted(batch[i])
    requires forall id | id in x :: id in m || exists i :: 0 <= i < |batch| && batch[i].id == id && Admissible(m, batch[i])
    ensures x == y
  {
    hide Admissible, Admitted;
    assert forall i | 0 <= i < n :: batch[..n][i] == batch[i];
    forall id | id in x ensures id in y && y[id] == x[id] {
      if id in m {
        if id !in before {
          var i :| 0 <= i < n && batch[..n][i].id == id && Admissible(before, batch[..n][i]);
          assert batch[i].id == id && Admissible(before, batch[i]);
        }
      } else {
        var i :| 0 <= i < |batch| && batch[i].id == id && Admissible(m, batch[i]);
        assert Admissible(before, batch[i]);
      }
    }
    forall id | id in y ensures id in x {
      if id !in before {
        var i :| 0 <= i < |batch| && batch[i].id == id && Admissible(before, batch[i]);
        if i < n { assert batch[..n][i].id in m; } else { assert Admissible(m, batch[i]); }
      }
    }
  }

  /** Stopping after n proposals were considered and running the pass again ends where an uninterrupted pass ends
      exactly when no kind is straddled by the stop; a batch of distinct kinds, as the engine makes, is always safe. */
  lemma AdmissionRecoveryIff(before: Intents, batch: seq<Proposal>, policy: Policy, n: nat)
    requires Ready(before, batch) && n <= |batch|
    ensures Pass(AdmitAll(before, batch[..n]), batch, policy).intents == Pass(before, batch, policy).intents
            <==> !Straddled(before, batch, n)
  {
    ReadyMeans(before, batch);
    var m := AdmitAll(before, batch[..n]);
    PartlyAdmittedIsReady(before, batch, n);
    ReadyMeans(m, batch);
    hide Ready, AllValid, AllInitial, NeverWoken, AdmitAll, Admissible, Agenda, Pass, DistinctIds, Straddled;
    if Straddled(before, batch, n) {
      StraddledLoses(before, batch, policy, n);
    } else {
      AdmissionsResume(before, batch, n);
      AgendaHearsEveryCandidate(before, batch);
      AgendaHearsEveryCandidate(m, batch);
      hide IsAgenda;
      AgendaIsUnique(AdmitAll(before, batch), batch, Agenda(m, batch), Agenda(before, batch));
      PassIsSession(before, batch, policy);
      PassIsSession(m, batch, policy);
    }
  }

  lemma PassKeys(before: Intents, batch: seq<Proposal>, policy: Policy)
    requires Ready(before, batch)
    ensures Pass(before, batch, policy).intents.Keys == AdmitAll(before, batch).Keys
  {
    PassDecides(before, batch, policy);
  }

  lemma StraddledLoses(before: Intents, batch: seq<Proposal>, policy: Policy, n: nat)
    requires Ready(before, batch) && n <= |batch| && Straddled(before, batch, n)
    ensures Pass(AdmitAll(before, batch[..n]), batch, policy).intents != Pass(before, batch, policy).intents
  {
    var m := AdmitAll(before, batch[..n]);
    var i, j :| 0 <= i < n <= j < |batch| && Admissible(before, batch[i]) && Admissible(before, batch[j])
                && batch[i].body.kind == batch[j].body.kind;
    AdmissibleAgain(before, batch, n, j);
    PartlyAdmittedIsReady(before, batch, n);
    PassKeys(before, batch, policy);
    PassKeys(m, batch, policy);
    NotAdmittedAgain(before, m, batch, n, j);
    hide Ready, Pass, Agenda;
    AdmitAllAt(before, batch);
    hide *;
    assert batch[j].id in AdmitAll(before, batch) && batch[j].id !in AdmitAll(m, batch);
  }

  lemma NotAdmittedAgain(before: Intents, m: Intents, batch: seq<Proposal>, n: nat, j: nat)
    requires DistinctIds(batch) && n <= j < |batch| && Admissible(before, batch[j]) && !Admissible(m, batch[j])
    requires m == AdmitAll(before, batch[..n])
    ensures batch[j].id !in AdmitAll(m, batch)
  {
    AdmitAllAt(before, batch[..n]);
    AdmitAllAt(m, batch);
    hide AdmitAll, ActiveKinds;
    assert forall i | 0 <= i < n :: batch[..n][i] == batch[i] && batch[i].id != batch[j].id;
    assert forall i | 0 <= i < |batch| && batch[i].id == batch[j].id :: i == j;
  }
}
