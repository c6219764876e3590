/** Driving an instant again: a tick opens with the scheduler, which may wake or expire what the first drive left, before
    the decision pass runs on the same batch. */
module CognitiveDrives {
  import opened Wrappers
  import opened Keyset
  import opened IntentLifecycle
  import opened CognitiveTick
  import opened CognitivePass
  import opened CognitiveReplay

  function Woken(m: Intents, now: real): Intents {
    Schedule(m, m.Keys, now)
  }

  /** The scheduler pass and then the decision pass of one drive. */
  function Drive(m: Intents, batch: seq<Proposal>, policy: Policy, now: real): Outcome
    requires DistinctIds(batch)
  {
    Pass(Woken(m, now), batch, policy)
  }

  /** Nothing is left for the scheduler at this instant. */
  predicate Settled(m: Intents, now: real) {
    forall id | id in m :: !Expires(m[id], now) && !IsDue(m[id], now)
  }

  /** What the scheduler makes of one stored intent. */
  lemma WokenAt(m: Intents, now: real, id: int)
    requires AllValid(m) && id in m
    ensures id in Woken(m, now) && Valid(Woken(m, now)[id])
    ensures var x, y := m[id], Woken(m, now)[id];
            && y.body == x.body
            && y.status == (if Expires(x, now) then Expired else if IsDue(x, now) then Candidate else x.status)
            && (if Expires(x, now) || IsDue(x, now) then y.version == x.version + 1 else y == x)
  {
    SchedulerIsTotal(id, m[id], now);
    if Expires(m[id], now) {
      MovedKeeps(m[id], Move(id, Stamp(Expire, m[id].version), "scheduler_expired"));
    } else if IsDue(m[id], now) {
      MovedKeeps(m[id], Move(id, Stamp(Wake, m[id].version), "scheduler_due"));
    }
  }

  lemma SettledIsKept(m: Intents, now: real)
    requires Settled(m, now)
    ensures Woken(m, now) == m
  {
  }

  // ---- when driving again recovers ------------------------------------------------------------

  /** A transition that is made leaves a higher version. */
  lemma {:induction false} ApplyAllOnlyRaises(a: Intents, moves: seq<Move>, id: int)
    requires id in a
    ensures var out := ApplyAll(a, moves).intents; id in out && (out[id] == a[id] || out[id].version > a[id].version)
  {
    if moves != [] { ApplyAllOnlyRaises(a, moves[..|moves| - 1], id); }
  }

  lemma PassOnlyRaises(before: Intents, batch: seq<Proposal>, policy: Policy, id: int)
    requires DistinctIds(batch) && id in before
    ensures var out := Pass(before, batch, policy).intents;
            id in out && (out[id] == before[id] || out[id].version > before[id].version)
  {
    var bad := FirstUninitial(batch);
    var a := AdmitAll(before, batch);
    AdmitAllAt(before, batch[..bad]);
    AdmitAllAt(before, batch);
    ApplyAllOnlyRaises(a, Moves(Agenda(before, batch), policy), id);
    hide AdmitAll, Agenda, ApplyAll, Moves, Admissible;
  }

  /** What an uninterrupted pass would still do to a state it has been stopped at: nothing, or one transition of a
      candidate, which is never to Expired. */
  predicate Ahead(x: Intent, goal: Intent) {
    goal.version == x.version || (x.status.Candidate? && goal.version == x.version + 1 && !goal.status.Expired?)
  }

  /** Whatever the scheduler moves shows in the end. */
  lemma ScheduleShows(m: Intents, goal: Intents, batch: seq<Proposal>, policy: Policy, now: real)
    requires DistinctIds(batch) && AllValid(m) && !Settled(m, now)
    requires forall id | id in m :: id in goal && Ahead(m[id], goal[id])
    ensures Drive(m, batch, policy, now).intents != goal
  {
    var id :| id in m && (Expires(m[id], now) || IsDue(m[id], now));
    WokenAt(m, now, id);
    hide Pass, Expires, IsDue, Woken;
    PassOnlyRaises(Woken(m, now), batch, policy, id);
  }

  /** The uninterrupted pass is ahead of every state it may be stopped at. */
  lemma StoppedIsBehind(before: Intents, batch: seq<Proposal>, policy: Policy, k: nat)
    requires Ready(before, batch) && k <= |Agenda(before, batch)|
    ensures var m, goal := Stopped(before, batch, policy, k), Pass(before, batch, policy).intents;
            forall id | id in m :: id in goal && Ahead(m[id], goal[id])
  {
    var a, m, agenda := AdmitAll(before, batch), Stopped(before, batch, policy, k), Agenda(before, batch);
    var goal := Pass(before, batch, policy).intents;
    StoppedIsDecided(before, batch, policy, k);
    PassDecides(before, batch, policy);
    hide Ready, AdmitAll, Agenda, Pass, Stopped, AllValid;
    DecidedIsBehind(a, m, goal, agenda, policy, k);
  }

  lemma DecidedIsBehind(a: Intents, m: Intents, goal: Intents, agenda: seq<Proposal>, policy: Policy, k: nat)
    requires k <= |agenda| && Decided(a, m, agenda, policy, k) && Decided(a, goal, agenda, policy, |agenda|)
    ensures forall id | id in m :: id in goal && Ahead(m[id], goal[id])
  {
    forall id | id in m ensures id in goal && Ahead(m[id], goal[id]) {
      if i :| 0 <= i < |agenda| && agenda[i].id == id {
        assert goal[agenda[i].id].status == Fate(agenda, policy, i);
        if j :| 0 <= j < k && agenda[j].id == id { assert m[agenda[j].id].version == a[id].version + 1; }
      }
    }
  }

  /** A drive that was cut after k transitions, or completed, and then driven again ends where one uncut drive ends exactly
      when the scheduler finds nothing to do, no deduplicated proposal has been unblocked, and the cut did not fall between
      the ALLOW and the last SUPERSEDE. */
  lemma RedriveRecoversIff(before: Intents, batch: seq<Proposal>, policy: Policy, k: nat, now: real)
    requires Ready(before, batch) && k <= |Agenda(before, batch)|
    ensures var m := Stopped(before, batch, policy, k);
            Drive(m, batch, policy, now).intents == Pass(before, batch, policy).intents
            <==> Settled(m, now) && !Unblocked(m, batch) && (k <= Chosen(Agenda(before, batch), policy) || k == |Agenda(before, batch)|)
  {
    ReadyMeans(before, batch);
    var m := Stopped(before, batch, policy, k);
    StoppedIsReady(before, batch, policy, k);
    ReadyMeans(m, batch);
    hide *;
    if Settled(m, now) {
      SettledIsKept(m, now);
      DriveIs(m, batch, policy, now);
      RecoveryIsExactIff(before, batch, policy, k);
    } else {
      StoppedIsBehind(before, batch, policy, k);
      ScheduleShows(m, Pass(before, batch, policy).intents, batch, policy, now);
    }
  }

  lemma DriveIs(m: Intents, batch: seq<Proposal>, policy: Policy, now: real)
    requires DistinctIds(batch)
    ensures Drive(m, batch, policy, now) == Pass(Woken(m, now), batch, policy)
  {
  }

  /** Driving a completed instant again changes nothing exactly when nothing in it has expired or fallen due by then, and
      none of its deduplicated proposals was unblocked. */
  lemma RedriveIsNoOpIff(before: Intents, batch: seq<Proposal>, policy: Policy, now: real)
    requires Ready(before, batch)
    ensures var done := Pass(before, batch, policy).intents;
            Drive(done, batch, policy, now).intents == done <==> Settled(done, now) && !Unblocked(done, batch)
  {
    ReadyMeans(before, batch);
    hide *;
    StoppedAtTheEnd(before, batch, policy);
    RedriveRecoversIff(before, batch, policy, |Agenda(before, batch)|, now);
  }

  lemma AdmittedSoFar(before: Intents, batch: seq<Proposal>, n: nat)
    requires DistinctIds(batch) && n <= |batch|
    ensures var a, m := AdmitAll(before, batch), AdmitAll(before, batch[..n]);
            forall id | id in m :: id in a && a[id] == m[id]
  {
    var a, m := AdmitAll(before, batch), AdmitAll(before, batch[..n]);
    AdmitAllAt(before, batch);
    AdmitAllAt(before, batch[..n]);
    assert forall i | 0 <= i < n :: batch[..n][i] == batch[i];
    hide AdmitAll, Admissible, Admitted;
    forall id | id in m ensures id in a && a[id] == m[id] {
      if id !in before {
        var i :| 0 <= i < n && batch[..n][i].id == id && Admissible(before, batch[..n][i]);
        assert m[batch[..n][i].id] == Admitted(batch[i]) && a[batch[i].id] == Admitted(batch[i]);
      }
    }
  }

  lemma AdmittingIsBehind(before: Intents, batch: seq<Proposal>, policy: Policy, n: nat)
    requires Ready(before, batch) && n <= |batch|
    ensures var m, goal := AdmitAll(before, batch[..n]), Pass(before, batch, policy).intents;
            forall id | id in m :: id in goal && Ahead(m[id], goal[id])
  {
    ReadyMeans(before, batch);
    var a, agenda := AdmitAll(before, batch), Agenda(before, batch);
    var goal := Pass(before, batch, policy).intents;
    hide AdmitAll, Agenda, Pass, AllValid, DistinctIds, AllInitial, NeverWoken, Ready, Decided, Ahead;
    PassDecides(before, batch, policy);
    AdmittedSoFar(before, batch, n);
    NothingIsDecided(a, agenda, policy);
    DecidedIsBehind(a, a, goal, agenda, policy, 0);
  }

  lemma NothingIsDecided(a: Intents, agenda: seq<Proposal>, policy: Policy)
    ensures Decided(a, a, agenda, policy, 0)
  {
  }

  /** And a drive that was cut after n proposals recovers exactly when the scheduler finds nothing to do and no two
      admissible proposals of one kind lie on both sides of the cut. */
  lemma RedriveAfterAdmissionsIff(before: Intents, batch: seq<Proposal>, policy: Policy, n: nat, now: real)
    requires Ready(before, batch) && n <= |batch|
    ensures var m := AdmitAll(before, batch[..n]);
            Drive(m, batch, policy, now).intents == Pass(before, batch, policy).intents
            <==> Settled(m, now) && !Straddled(before, batch, n)
  {
    ReadyMeans(before, batch);
    var m := AdmitAll(before, batch[..n]);
    PartlyAdmittedIsReady(before, batch, n);
    ReadyMeans(m, batch);
    hide *;
    if Settled(m, now) {
      SettledIsKept(m, now);
      DriveIs(m, batch, policy, now);
      AdmissionRecoveryIff(before, batch, policy, n);
    } else {
      AdmittingIsBehind(before, batch, policy, n);
      ScheduleShows(m, Pass(before, batch, policy).intents, batch, policy, now);
    }
  }

  // ---- when driving again allows a second intent ------------------------------------------------

  /** Neither the batch nor what is stored under its ids carries a due time: the ticker asks its engine about no events, and
      the ids are those of its own instant. */
  predicate Timeless(before: Intents, batch: seq<Proposal>) {
    forall i | 0 <= i < |batch| ::
      batch[i].body.due.None? && (batch[i].id in before ==> before[batch[i].id].body.due.None?)
  }

  /** What the second drive hears: entries the first drive left that have not expired, proposals now admissible, and what
      the scheduler has just woken. */
  predicate HeardInDrive(m: Intents, batch: seq<Proposal>, rest: seq<Proposal>, now: real, p: Proposal) {
    || (p in rest && p.id in m && !Expires(m[p.id], now))
    || (p in batch && Admissible(Woken(m, now), p))
    || (p.id in m && IsDue(m[p.id], now) && !Expires(m[p.id], now) && p == Proposal(p.id, m[p.id].body, Candidate, m[p.id].version + 1))
  }

  lemma TimelessLater(before: Intents, batch: seq<Proposal>, policy: Policy, k: nat)
    requires Ready(before, batch) && k <= |Agenda(before, batch)| && Timeless(before, batch)
    ensures Timeless(Stopped(before, batch, policy, k), batch)
  {
    var a, m, agenda := AdmitAll(before, batch), Stopped(before, batch, policy, k), Agenda(before, batch);
    StoppedIsDecided(before, batch, policy, k);
    AdmitAllAt(before, batch);
    hide Stopped, Agenda, AdmitAll, Admissible, Fate;
    forall i | 0 <= i < |batch| && batch[i].id in m ensures m[batch[i].id].body.due.None? {
      if j :| 0 <= j < k && agenda[j].id == batch[i].id { assert m[agenda[j].id].body == a[agenda[j].id].body; }
      assert m[batch[i].id].body == a[batch[i].id].body;
      if batch[i].id !in before {
        var l :| 0 <= l < |batch| && batch[l].id == batch[i].id && Admissible(before, batch[l]);
      }
    }
  }

  /** Waking and expiring leave the second pass in ordinary circumstances. */
  lemma WokenIsReady(m: Intents, batch: seq<Proposal>, now: real)
    requires Ready(m, batch) && Timeless(m, batch)
    ensures Ready(Woken(m, now), batch)
  {
    forall id | id in Woken(m, now) ensures Valid(Woken(m, now)[id]) { WokenAt(m, now, id); }
    forall i | 0 <= i < |batch| && Orphan(Woken(m, now), batch[i]) ensures Woken(m, now)[batch[i].id].version == 1 {
      WokenAt(m, now, batch[i].id);
    }
  }

  /** The scheduler neither allows nor takes an ALLOW back. */
  lemma WokenAllowsNothing(before: Intents, m: Intents, now: real, id: int)
    requires AllValid(m)
    ensures NewlyAllowed(before, Woken(m, now), id) <==> NewlyAllowed(before, m, id)
    ensures id in Woken(m, now) && Woken(m, now)[id].status.Allowed? <==> id in m && m[id].status.Allowed?
  {
    if id in m { WokenAt(m, now, id); }
  }

  lemma TimelessSoFar(before: Intents, batch: seq<Proposal>, n: nat)
    requires DistinctIds(batch) && n <= |batch| && Timeless(before, batch)
    ensures Timeless(AdmitAll(before, batch[..n]), batch)
  {
    var m := AdmitAll(before, batch[..n]);
    AdmitAllAt(before, batch[..n]);
    assert forall i | 0 <= i < n :: batch[..n][i] == batch[i];
    hide AdmitAll, Admissible;
    forall i | 0 <= i < |batch| && batch[i].id in m ensures m[batch[i].id].body.due.None? {
      if batch[i].id !in before {
        var l :| 0 <= l < n && batch[..n][l].id == batch[i].id && Admissible(before, batch[..n][l]);
      }
    }
  }

  /** Driving again drains: wherever the first drive was cut, a second one under any policy completes and leaves no
      candidate, those it has just woken included. */
  lemma RedriveDrains(before: Intents, batch: seq<Proposal>, first: Policy, second: Policy, n: nat, k: nat, now: real)
    requires Ready(before, batch) && Timeless(before, batch) && n <= |batch| && k <= |Agenda(before, batch)|
    ensures forall m | m == AdmitAll(before, batch[..n]) || m == Stopped(before, batch, first, k) ::
              && Drive(m, batch, second, now).refusal.None?
              && forall id | id in Drive(m, batch, second, now).intents :: !Drive(m, batch, second, now).intents[id].status.Candidate?
  {
    ReadyMeans(before, batch);
    hide *;
    StoppedIsReady(before, batch, first, k);
    TimelessLater(before, batch, first, k);
    PartlyAdmittedIsReady(before, batch, n);
    TimelessSoFar(before, batch, n);
    forall m | m == AdmitAll(before, batch[..n]) || m == Stopped(before, batch, first, k)
      ensures Drive(m, batch, second, now).refusal.None?
      ensures forall id | id in Drive(m, batch, second, now).intents :: !Drive(m, batch, second, now).intents[id].status.Candidate?
    {
      WokenIsReady(m, batch, now);
      ReadyMeans(Woken(m, now), batch);
      DriveIs(m, batch, second, now);
      PassDecides(Woken(m, now), batch, second);
      PassDrains(Woken(m, now), batch, second);
    }
  }

  /** What the first drive decided the second leaves as it is, exactly when it is not the scheduler's turn: only a deferred
      intent can have expired or fallen due. */
  lemma RedriveKeepsDecisionIff(before: Intents, batch: seq<Proposal>, first: Policy, second: Policy, k: nat, i: nat,
                                now: real)
    requires Ready(before, batch) && Timeless(before, batch) && i < k <= |Agenda(before, batch)|
    ensures var m, id := Stopped(before, batch, first, k), Agenda(before, batch)[i].id;
            var out := Drive(m, batch, second, now).intents;
            && id in m && id in out
            && (out[id] == m[id] <==> !Expires(m[id], now) && !IsDue(m[id], now))
            && (Expires(m[id], now) || IsDue(m[id], now) ==> Fate(Agenda(before, batch), first, i).Deferred?)
  {
    var m, id := Stopped(before, batch, first, k), Agenda(before, batch)[i].id;
    FateInStopped(before, batch, first, k, i);
    FateIsFinal(Agenda(before, batch), first, i);
    StoppedIsReady(before, batch, first, k);
    TimelessLater(before, batch, first, k);
    WokenIsReady(m, batch, now);
    ReadyMeans(m, batch);
    WokenAt(m, now, id);
    hide Ready, Stopped, Agenda, AllValid, Timeless, Woken, Pass, Fate, Admissible;
    ReadyMeans(Woken(m, now), batch);
    PassDrains(Woken(m, now), batch, second);
    PassOnlyRaises(Woken(m, now), batch, second, id);
  }

  lemma DriveHears(before: Intents, batch: seq<Proposal>, first: Policy, k: nat, now: real, p: Proposal)
    requires Ready(before, batch) && k <= |Agenda(before, batch)| && Timeless(before, batch)
    ensures var m := Stopped(before, batch, first, k);
            p in Agenda(Woken(m, now), batch) <==> HeardInDrive(m, batch, Agenda(before, batch)[k..], now, p)
  {
    var a, m, agenda := AdmitAll(before, batch), Stopped(before, batch, first, k), Agenda(before, batch);
    StoppedIsDecided(before, batch, first, k);
    TimelessLater(before, batch, first, k);
    AgendaHearsEveryCandidate(before, batch);
    LeftIsHeard(a, m, batch, agenda, first, k, p);
    HeardIsPool(Woken(m, now), batch, p);
    PoolIs(Woken(m, now), batch, p);
    hide Stopped, Agenda, IsAgenda, Decided, Ready, AdmitAll;
    WokenPool(m, batch, agenda[k..], now, p);
  }

  lemma WokenPool(m: Intents, batch: seq<Proposal>, rest: seq<Proposal>, now: real, p: Proposal)
    requires DistinctIds(batch) && AllValid(m) && Timeless(m, batch)
    requires p in rest
             <==> p.id in m && m[p.id].status.Candidate? && (p in batch || (p.id !in Ids(batch) && p == Current(p.id, m[p.id])))
    ensures var w := Woken(m, now);
            HeardInDrive(m, batch, rest, now, p)
            <==> || (p in batch && Admissible(w, p))
                 || (p.id in w && w[p.id].status.Candidate? && (p in batch || (p.id !in Ids(batch) && p == Current(p.id, w[p.id]))))
  {
    assert p.id in Woken(m, now) <==> p.id in m;
    if p.id in m {
      WokenAt(m, now, p.id);
      if IsDue(m[p.id], now) { DueIsOutside(m, batch, now, p); }
    }
    hide Woken, Expires, IsDue, Admissible, AllValid, Timeless, DistinctIds;
  }

  lemma DueIsOutside(m: Intents, batch: seq<Proposal>, now: real, p: Proposal)
    requires Timeless(m, batch) && p.id in m && IsDue(m[p.id], now)
    ensures p.id !in Ids(batch) && !m[p.id].status.Candidate?
  {
  }

  /** The pool of a pass: what it admits, and the stored candidates, each in the batch's version or else its own. */
  lemma PoolIs(w: Intents, batch: seq<Proposal>, p: Proposal)
    requires DistinctIds(batch)
    ensures p in Enrolled(w, batch) || p in Reconsidered(AdmitAll(w, batch), batch)
            <==> || (p in batch && Admissible(w, p))
                 || (p.id in w && w[p.id].status.Candidate? && (p in batch || (p.id !in Ids(batch) && p == Current(p.id, w[p.id]))))
  {
    AdmitAllAt(w, batch);
    hide AdmitAll, ActiveKinds;
    if p.id in AdmitAll(w, batch) && p.id !in w {
      var i :| 0 <= i < |batch| && batch[i].id == p.id && Admissible(w, batch[i]);
    }
  }

  lemma AllowedInDrive(before: Intents, batch: seq<Proposal>, first: Policy, second: Policy, k: nat, now: real, id: int)
    requires Ready(before, batch) && k <= |Agenda(before, batch)| && Timeless(before, batch)
    ensures var m := Stopped(before, batch, first, k);
            var w, out := Woken(m, now), Drive(m, batch, second, now).intents;
            NewlyAllowed(before, out, id) <==> NewlyAllowed(before, m, id) || NewlyAllowed(w, out, id)
  {
    var m := Stopped(before, batch, first, k);
    DecidedStays(before, batch, first, second, k, id);
    StoppedIsReady(before, batch, first, k);
    TimelessLater(before, batch, first, k);
    WokenIsReady(m, batch, now);
    WokenAllowsNothing(before, m, now, id);
    PassDrains(Woken(m, now), batch, second);
    hide Stopped, Agenda, Ready, Pass, Woken, AllValid, Admissible;
  }

  /** An instant that is driven twice, the first drive cut after k transitions or complete, allows two intents exactly when
      the first drive came past its ALLOW and the second allows something it hears: an entry still to be superseded that has
      not expired, a proposal whose kind is free by then, or an intent that fell due and was woken. */
  lemma RedriveAllowsTwoIff(before: Intents, batch: seq<Proposal>, first: Policy, second: Policy, k: nat, now: real)
    requires Ready(before, batch) && k <= |Agenda(before, batch)| && Timeless(before, batch)
    ensures var agenda, m := Agenda(before, batch), Stopped(before, batch, first, k);
            AllowsTwo(before, Drive(m, batch, second, now).intents)
            <==> Chosen(agenda, first) < k
                 && exists p :: HeardInDrive(m, batch, agenda[k..], now, p) && second(p).decision.ALLOW?
  {
    var agenda, m := Agenda(before, batch), Stopped(before, batch, first, k);
    StoppedIsReady(before, batch, first, k);
    TimelessLater(before, batch, first, k);
    WokenIsReady(m, batch, now);
    var w := Woken(m, now);
    ReadyMeans(w, batch);
    hide *;
    DriveIs(m, batch, second, now);
    var again, out := Agenda(w, batch), Drive(m, batch, second, now).intents;
    forall id
      ensures NewlyAllowed(before, m, id) <==> Chosen(agenda, first) < k && agenda[Chosen(agenda, first)].id == id
      ensures NewlyAllowed(w, out, id) <==> Chosen(again, second) < |again| && again[Chosen(again, second)].id == id
      ensures NewlyAllowed(before, out, id) <==> NewlyAllowed(before, m, id) || NewlyAllowed(w, out, id)
    {
      StoppedAllows(before, batch, first, k, id);
      NewlyAllowedIsChosen(w, batch, second, id);
      AllowedInDrive(before, batch, first, second, k, now, id);
    }
    ChosenIff(again, second);
    forall p ensures p in again <==> HeardInDrive(m, batch, agenda[k..], now, p) { DriveHears(before, batch, first, k, now, p); }
    TwoDrives(before, m, w, out, agenda, first, k, again, second, now);
  }

  lemma TwoDrives(before: Intents, m: Intents, w: Intents, out: Intents, agenda: seq<Proposal>, first: Policy, k: nat,
                  again: seq<Proposal>, second: Policy, now: real)
    requires k <= |agenda| && AllValid(m) && w == Woken(m, now)
    requires forall id :: NewlyAllowed(before, m, id) <==> Chosen(agenda, first) < k && agenda[Chosen(agenda, first)].id == id
    requires forall id :: NewlyAllowed(w, out, id) <==> Chosen(again, second) < |again| && again[Chosen(again, second)].id == id
    requires forall id :: NewlyAllowed(before, out, id) <==> NewlyAllowed(before, m, id) || NewlyAllowed(w, out, id)
    ensures AllowsTwo(before, out) <==> Chosen(agenda, first) < k && Chosen(again, second) < |again|
  {
    if Chosen(agenda, first) < k && Chosen(again, second) < |again| {
      var x, y := agenda[Chosen(agenda, first)].id, again[Chosen(again, second)].id;
      WokenAllowsNothing(before, m, now, x);
      hide Woken, AllValid;
      assert NewlyAllowed(before, m, x) && NewlyAllowed(w, out, y);
      assert NewlyAllowed(before, out, x) && NewlyAllowed(before, out, y);
    }
  }
}
