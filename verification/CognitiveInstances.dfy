/** Six small histories in which the intents do what one would not expect of it. The lemmas of CognitiveReplay,
    CognitiveDrives and CognitiveRuns say exactly when; these say that it happens. */
module CognitiveInstances {
  import opened Wrappers
  import opened Keyset
  import opened IntentLifecycle
  import opened CognitiveTick
  import opened CognitivePass
  import opened CognitiveReplay
  import opened CognitiveDrives
  import opened CognitiveRuns

  function Always(decision: Decision, reasons: string): Policy {
    p => Verdict(decision, reasons)
  }

  /** Active kinds are read once, so two proposals of one kind in one batch are both admitted. */
  lemma TwinsAreBothAdmitted(p: Proposal, q: Proposal)
    requires p.id != q.id && p.body.kind == q.body.kind
    ensures OnePerKind(map[]) && !OnePerKind(AdmitAll(map[], [p, q]))
  {
    AdmissionsKeepIff(map[], [p, q]);
  }

  /** A turn admits a kind that is occupied: turns deduplicate nothing. */
  lemma TurnDoublesAKind(p: Proposal, q: Proposal)
    requires IsInitial(p) && IsInitial(q) && p.id != q.id && p.body.kind == q.body.kind
    ensures !OnePerKind(Run(map[], [Turn(q), Turn(p)]))
  {
    var events := [Turn(q), Turn(p)];
    assert events[..1] == [Turn(q)] && [Turn(q)][..0] == [];
    assert Run(map[], []) == map[];
    var m := Run(map[], events[..1]);
    assert m == map[q.id := Admitted(q)] && p.body.kind in ActiveKinds(m);
    TurnKeepsIff(m, p);
  }

  // ---- a replay that is not a no-op ----------------------------------------------------

  /** A candidate that blocks its kind, and a new proposal of that kind. */
  lemma BlockedInstant(q: Proposal, p: Proposal)
    requires IsInitial(p) && p.id != q.id && p.body.kind == q.body.kind
    ensures var before := map[q.id := Admitted(q)];
            Ready(before, [p]) && AdmitAll(before, [p]) == before && before[q.id].status.Candidate?
  {
    var before := map[q.id := Admitted(q)];
    assert Active(before[q.id].status) && q.body.kind in ActiveKinds(before);
    NothingToAdmit(before, [p]);
  }

  lemma HeardIsDenied(a: Intents, out: Intents, batch: seq<Proposal>, agenda: seq<Proposal>, reasons: string, id: int)
    requires IsAgenda(a, batch, agenda) && Decided(a, out, agenda, Always(DENY, reasons), |agenda|)
    requires id in a && a[id].status.Candidate?
    ensures out.Keys == a.Keys && id in out && out[id].status.Blocked?
  {
    hide Less, Rank;
    var i :| 0 <= i < |agenda| && agenda[i].id == id;
    assert out[agenda[i].id].status == Fate(agenda, Always(DENY, reasons), i);
  }

  lemma DeniedIsUnblocked(done: Intents, q: int, p: Proposal)
    requires done.Keys == {q} && p.id != q && done[q].status.Blocked?
    ensures Unblocked(done, [p])
  {
    assert Admissible(done, [p][0]);
  }

  lemma BlockerIsDenied(q: Proposal, p: Proposal, reasons: string)
    requires IsInitial(p) && p.id != q.id && p.body.kind == q.body.kind
    requires Ready(map[q.id := Admitted(q)], [p])
    ensures var done := Pass(map[q.id := Admitted(q)], [p], Always(DENY, reasons)).intents;
            done.Keys == {q.id} && Unblocked(done, [p])
  {
    var before, policy := map[q.id := Admitted(q)], Always(DENY, reasons);
    hide *;
    BlockedInstant(q, p);
    ReadyMeans(before, [p]);
    PassDecides(before, [p], policy);
    AgendaHearsEveryCandidate(before, [p]);
    var done := Pass(before, [p], policy).intents;
    HeardIsDenied(before, done, [p], Agenda(before, [p]), reasons, q.id);
    DeniedIsUnblocked(done, q.id, p);
  }

  /** The pass drops the new proposal because of the candidate and then denies the candidate; the same pass again admits
      what it dropped. */
  lemma ReplayAdmitsTheDropped(q: Proposal, p: Proposal, reasons: string)
    requires IsInitial(p) && p.id != q.id && p.body.kind == q.body.kind
    ensures var before, policy := map[q.id := Admitted(q)], Always(DENY, reasons);
            && Ready(before, [p])
            && var done := Pass(before, [p], policy).intents;
               p.id !in done && Pass(done, [p], policy).intents != done
  {
    var before, policy := map[q.id := Admitted(q)], Always(DENY, reasons);
    BlockedInstant(q, p);
    BlockerIsDenied(q, p, reasons);
    hide Pass, Ready, Unblocked;
    ReplayIsNoOpIff(before, [p], policy);
  }

  // ---- two intents allowed in one instant ----------------------------------------------

  lemma PairIsAdmitted(p: Proposal, q: Proposal)
    requires IsInitial(p) && IsInitial(q) && p.id != q.id
    ensures Ready(map[], [p, q])
    ensures var a := AdmitAll(map[], [p, q]);
            p.id in a && a[p.id].status.Candidate? && q.id in a && a[q.id].status.Candidate?
  {
    var batch := [p, q];
    assert Admissible(map[], batch[0]) && Admissible(map[], batch[1]);
    AdmitAllAt(map[], batch);
    hide AdmitAll;
    assert AdmitAll(map[], batch)[batch[0].id] == Admitted(p) && AdmitAll(map[], batch)[batch[1].id] == Admitted(q);
  }

  lemma TwoAreHeard(a: Intents, batch: seq<Proposal>, agenda: seq<Proposal>, x: int, y: int)
    requires IsAgenda(a, batch, agenda) && x != y
    requires x in a && a[x].status.Candidate? && y in a && a[y].status.Candidate?
    ensures |agenda| >= 2
  {
    hide Less, Rank;
    var i :| 0 <= i < |agenda| && agenda[i].id == x;
    var j :| 0 <= j < |agenda| && agenda[j].id == y;
  }

  lemma PairIsHeard(p: Proposal, q: Proposal)
    requires IsInitial(p) && IsInitial(q) && p.id != q.id
    ensures Ready(map[], [p, q]) && |Agenda(map[], [p, q])| >= 2
    ensures p.id in AdmitAll(map[], [p, q]) && q.id in AdmitAll(map[], [p, q])
  {
    var batch := [p, q];
    PairIsAdmitted(p, q);
    hide AdmitAll, Agenda, IsAgenda;
    AgendaHearsEveryCandidate(map[], batch);
    TwoAreHeard(AdmitAll(map[], batch), batch, Agenda(map[], batch), p.id, q.id);
  }

  lemma FirstIsChosen(agenda: seq<Proposal>, reasons: string)
    requires |agenda| > 0
    ensures Chosen(agenda, Always(ALLOW, reasons)) == 0
  {
    assert Always(ALLOW, reasons)(agenda[0]).decision.ALLOW?;
  }

  /** With nothing due or expired, driving again is running the decision pass again. */
  lemma SettledDrives(m: Intents, batch: seq<Proposal>, policy: Policy)
    requires DistinctIds(batch)
    ensures forall now | Settled(m, now) :: Drive(m, batch, policy, now) == Pass(m, batch, policy)
  {
    forall now | Settled(m, now) ensures Drive(m, batch, policy, now) == Pass(m, batch, policy) {
      SettledIsKept(m, now);
      DriveIs(m, batch, policy, now);
    }
  }

  /** The pass is cut after its ALLOW and before anything is superseded; the same pass again allows a second intent. */
  lemma CutAfterAllowAllowsTwo(p: Proposal, q: Proposal, reasons: string)
    requires IsInitial(p) && IsInitial(q) && p.id != q.id
    ensures Ready(map[], [p, q]) && |Agenda(map[], [p, q])| >= 2
    ensures var policy := Always(ALLOW, reasons);
            var m := Stopped(map[], [p, q], policy, 1);
            && AllowsTwo(map[], Pass(m, [p, q], policy).intents)
            && forall now | Settled(m, now) :: AllowsTwo(map[], Drive(m, [p, q], policy, now).intents)
  {
    var batch, policy := [p, q], Always(ALLOW, reasons);
    PairIsHeard(p, q);
    var agenda := Agenda(map[], batch);
    FirstIsChosen(agenda, reasons);
    assert agenda[1..][0] == agenda[1] && policy(agenda[1]).decision.ALLOW?;
    assert HeardAgain(Stopped(map[], batch, policy, 1), batch, agenda[1..], agenda[1]);
    ReadyMeans(map[], batch);
    hide *;
    SecondAllowIff(map[], batch, policy, policy, 1);
    SettledDrives(Stopped(map[], batch, policy, 1), batch, policy);
  }

  /** A candidate left by an earlier tick, and a batch whose first proposal is stronger and whose second is of its kind. */
  predicate Crowded(q: Proposal, r: Proposal, p: Proposal) {
    && IsInitial(r) && IsInitial(p) && q.id != r.id && q.id != p.id && r.id != p.id
    && p.body.kind == q.body.kind && r.body.kind != q.body.kind && r.body.strength > q.body.strength
  }

  lemma CrowdedIsAdmitted(q: Proposal, r: Proposal, p: Proposal)
    requires Crowded(q, r, p)
    ensures var before, batch := map[q.id := Admitted(q)], [r, p];
            Ready(before, batch) && AdmitAll(before, batch) == before[r.id := Admitted(r)]
  {
    var before, batch := map[q.id := Admitted(q)], [r, p];
    assert Active(before[q.id].status) && before[q.id].body.kind in ActiveKinds(before);
    assert forall kind | kind in ActiveKinds(before) :: kind == q.body.kind;
    assert batch[..1] == [r] && [r][..0] == [];
    assert Admissible(before, r) && !Admissible(before, p);
    assert AdmitAll(before, [r]) == before[r.id := Admitted(r)];
  }

  /** With every entry allowed, the first wins and the others are superseded. */
  lemma WeakerIsSuperseded(a: Intents, out: Intents, batch: seq<Proposal>, agenda: seq<Proposal>, reasons: string,
                           r: Proposal, q: int)
    requires IsAgenda(a, batch, agenda) && Decided(a, out, agenda, Always(ALLOW, reasons), |agenda|)
             && DistinctIds(batch)
    requires r in batch && r.id in a && a[r.id].status.Candidate?
    requires q !in Ids(batch) && q in a && a[q].status.Candidate? && r.body.strength > a[q].body.strength
    ensures out.Keys == a.Keys && out[q].status.Superseded? && out[r.id].body == a[r.id].body
            && out[q].body == a[q].body
  {
    var i, j := WeakerIsLater(a, batch, agenda, r, q);
    hide IsAgenda, DistinctIds, Ids;
    FirstIsChosen(agenda, reasons);
    hide Chosen, Always;
    assert out[agenda[j].id].status == Fate(agenda, Always(ALLOW, reasons), j);
    assert out[agenda[i].id].body == a[agenda[i].id].body;
  }

  lemma WeakerIsLater(a: Intents, batch: seq<Proposal>, agenda: seq<Proposal>, r: Proposal, q: int)
    returns (i: nat, j: nat)
    requires IsAgenda(a, batch, agenda) && DistinctIds(batch)
    requires r in batch && r.id in a && a[r.id].status.Candidate?
    requires q !in Ids(batch) && q in a && a[q].status.Candidate? && r.body.strength > a[q].body.strength
    ensures i < j < |agenda| && agenda[i].id == r.id && agenda[j].id == q
  {
    i :| 0 <= i < |agenda| && agenda[i].id == r.id;
    j :| 0 <= j < |agenda| && agenda[j].id == q;
    assert agenda[i] == r;
    assert agenda[j] == Current(q, a[q]);
    hide DistinctIds, Ids;
    assert Less(Rank(r), Rank(agenda[j]));
  }

  lemma FreedIsAdmissible(done: Intents, q: Proposal, r: Proposal, p: Proposal)
    requires Crowded(q, r, p) && done.Keys == {q.id, r.id} && done[q.id].status.Superseded? && done[r.id].body == r.body
    ensures Admissible(done, p)
  {
  }

  lemma CrowdedIsFreed(q: Proposal, r: Proposal, p: Proposal, reasons: string)
    requires Crowded(q, r, p) && Ready(map[q.id := Admitted(q)], [r, p])
    ensures var done := Pass(map[q.id := Admitted(q)], [r, p], Always(ALLOW, reasons)).intents;
            Admissible(done, p) && Agenda(map[q.id := Admitted(q)], [r, p]) != []
  {
    var before, batch, policy := map[q.id := Admitted(q)], [r, p], Always(ALLOW, reasons);
    var a, agenda, done := AdmitAll(before, batch), Agenda(before, batch), Pass(before, batch, policy).intents;
    ReadyMeans(before, batch);
    CrowdedIsAdmitted(q, r, p);
    assert a[q.id] == Admitted(q) && a[r.id] == Admitted(r) && a.Keys == {q.id, r.id};
    assert r in batch && q.id !in Ids(batch);
    hide Pass, AdmitAll, Agenda, Decided, Ready, AllValid, NeverWoken, Always, IsAgenda, DistinctIds, Ids, Admissible;
    PassDecides(before, batch, policy);
    AgendaHearsEveryCandidate(before, batch);
    SomeoneIsHeard(a, batch, agenda, q.id);
    WeakerIsSuperseded(a, done, batch, agenda, reasons, r, q.id);
    FreedIsAdmissible(done, q, r, p);
  }

  lemma SomeoneIsHeard(a: Intents, batch: seq<Proposal>, agenda: seq<Proposal>, id: int)
    requires IsAgenda(a, batch, agenda) && id in a && a[id].status.Candidate?
    ensures agenda != []
  {
  }

  /** No crash at all: the pass drops p for the candidate's kind, allows r and supersedes the candidate; the same pass again
      finds the kind free, admits p and allows it too. */
  lemma UncutPassAllowsTwo(q: Proposal, r: Proposal, p: Proposal, reasons: string)
    requires Crowded(q, r, p)
    ensures var before, batch, policy := map[q.id := Admitted(q)], [r, p], Always(ALLOW, reasons);
            && Ready(before, batch)
            && var done := Pass(before, batch, policy).intents;
               && AllowsTwo(before, Pass(done, batch, policy).intents)
               && forall now | Settled(done, now) :: AllowsTwo(before, Drive(done, batch, policy, now).intents)
  {
    var before, batch, policy := map[q.id := Admitted(q)], [r, p], Always(ALLOW, reasons);
    CrowdedIsAdmitted(q, r, p);
    CrowdedIsFreed(q, r, p, reasons);
    var agenda := Agenda(before, batch);
    FirstIsChosen(agenda, reasons);
    StoppedAtTheEnd(before, batch, policy);
    var done := Stopped(before, batch, policy, |agenda|);
    assert p in batch && HeardAgain(done, batch, agenda[|agenda|..], p) && policy(p).decision.ALLOW?;
    ReadyMeans(before, batch);
    hide *;
    SecondAllowIff(before, batch, policy, policy, |agenda|);
    SettledDrives(done, batch, policy);
  }

  // ---- and two allowed because the second drive wakes ------------------------------------------

  /** A reconsidered candidate that is due by now, stronger than the one proposal of the tick. */
  predicate DueBeside(q: int, body: Body, r: Proposal, now: real) {
    && IsInitial(r) && r.id != q && r.body.kind != body.kind && r.body.due.None? && body.strength > r.body.strength
    && body.onDue && body.due.Some? && body.due.value <= now && body.expires.None?
  }

  /** It was proposed with a due time, deferred, and woken by this drive's scheduler. */
  function Reconsidering(body: Body): Intent {
    Intent(body, Candidate, 3, map[Stamp(Defer, 1) := "", Stamp(Wake, 2) := "scheduler_due"])
  }

  function Only(id: int): Policy {
    (p: Proposal) => Verdict(if p.id == id then ALLOW else DEFER, "")
  }

  lemma DueIsAdmitted(q: int, body: Body, r: Proposal, now: real)
    requires DueBeside(q, body, r, now)
    ensures var before, batch := map[q := Reconsidering(body)], [r];
            && Ready(before, batch) && Timeless(before, batch) && r in batch && q !in Ids(batch)
            && AdmitAll(before, batch) == before[r.id := Admitted(r)]
  {
    var before, batch := map[q := Reconsidering(body)], [r];
    assert forall kind | kind in ActiveKinds(before) :: kind == body.kind;
    assert batch[..0] == [] && Admissible(before, batch[0]);
  }

  lemma StrongerIsDeferred(a: Intents, out: Intents, batch: seq<Proposal>, agenda: seq<Proposal>, r: Proposal, q: int)
    requires IsAgenda(a, batch, agenda) && Decided(a, out, agenda, Only(r.id), |agenda|) && DistinctIds(batch)
    requires r in batch && r.id in a && a[r.id].status.Candidate?
    requires q !in Ids(batch) && q in a && a[q].status.Candidate? && r.body.strength < a[q].body.strength
    ensures Chosen(agenda, Only(r.id)) < |agenda| && out.Keys == a.Keys && out[q].status.Deferred?
            && out[q].body == a[q].body
    ensures !out[r.id].status.Candidate?
  {
    var i, j := StrongerIsEarlier(a, batch, agenda, r, q);
    hide IsAgenda, DistinctIds, Ids;
    OnlyIsChosen(agenda, i);
    assert out[agenda[j].id].status == Fate(agenda, Only(r.id), j) && out[agenda[j].id].body == a[agenda[j].id].body;
    assert out[agenda[i].id].status == Fate(agenda, Only(r.id), i);
  }

  lemma OnlyIsChosen(agenda: seq<Proposal>, i: nat)
    requires i < |agenda| && forall x, y | 0 <= x < y < |agenda| :: agenda[x].id != agenda[y].id
    ensures Chosen(agenda, Only(agenda[i].id)) == i
  {
    assert Only(agenda[i].id)(agenda[i]).decision.ALLOW?;
  }

  lemma StrongerIsEarlier(a: Intents, batch: seq<Proposal>, agenda: seq<Proposal>, r: Proposal, q: int)
    returns (i: nat, j: nat)
    requires IsAgenda(a, batch, agenda) && DistinctIds(batch)
    requires r in batch && r.id in a && a[r.id].status.Candidate?
    requires q !in Ids(batch) && q in a && a[q].status.Candidate? && r.body.strength < a[q].body.strength
    ensures j < i < |agenda| && agenda[i].id == r.id && agenda[j].id == q
    ensures forall x, y | 0 <= x < y < |agenda| :: agenda[x].id != agenda[y].id
  {
    i :| 0 <= i < |agenda| && agenda[i].id == r.id;
    j :| 0 <= j < |agenda| && agenda[j].id == q;
    assert agenda[i] == r;
    assert agenda[j] == Current(q, a[q]);
    hide DistinctIds, Ids;
    assert Less(Rank(agenda[j]), Rank(r));
  }

  lemma DueIsDeferred(q: int, body: Body, r: Proposal, now: real)
    requires DueBeside(q, body, r, now) && Ready(map[q := Reconsidering(body)], [r])
    ensures var before, batch, policy := map[q := Reconsidering(body)], [r], Only(r.id);
            var agenda, done := Agenda(before, batch), Pass(before, batch, policy).intents;
            && Chosen(agenda, policy) < |agenda|
            && done.Keys == {q, r.id} && done[q].status.Deferred? && done[q].body == body
  {
    var before, batch, policy := map[q := Reconsidering(body)], [r], Only(r.id);
    var a, agenda, done := AdmitAll(before, batch), Agenda(before, batch), Pass(before, batch, policy).intents;
    ReadyMeans(before, batch);
    DueIsAdmitted(q, body, r, now);
    assert a[q] == Reconsidering(body) && a[r.id] == Admitted(r) && a.Keys == {q, r.id};
    hide Pass, AdmitAll, Agenda, Decided, Ready, AllValid, NeverWoken, IsAgenda, DistinctIds, Ids, Timeless, Only, Chosen;
    PassDecides(before, batch, policy);
    AgendaHearsEveryCandidate(before, batch);
    StrongerIsDeferred(a, done, batch, agenda, r, q);
  }

  /** What the scheduler wakes: the deferred candidate is heard in the second drive, and by the decision pass alone nothing is. */
  lemma DueIsHeard(done: Intents, q: int, body: Body, r: Proposal, rest: seq<Proposal>, now: real)
    requires DueBeside(q, body, r, now) && done.Keys == {q, r.id} && done[q].status.Deferred? && done[q].body == body
             && rest == []
    ensures HeardInDrive(done, [r], rest, now, Proposal(q, body, Candidate, done[q].version + 1))
    ensures forall p :: !HeardAgain(done, [r], rest, p)
  {
  }

  /** A complete first drive defers the reconsidered candidate and allows r. The decision pass alone would allow nothing
      more, but the second drive wakes the candidate again, and it is allowed beside r. */
  lemma RedriveAllowsTheWoken(q: int, body: Body, r: Proposal, reasons: string, now: real)
    requires DueBeside(q, body, r, now)
    ensures var before, batch, second := map[q := Reconsidering(body)], [r], Always(ALLOW, reasons);
            && Ready(before, batch)
            && var done := Pass(before, batch, Only(r.id)).intents;
               && !AllowsTwo(before, Pass(done, batch, second).intents)
               && AllowsTwo(before, Drive(done, batch, second, now).intents)
  {
    var before, batch, first, second := map[q := Reconsidering(body)], [r], Only(r.id), Always(ALLOW, reasons);
    DueIsAdmitted(q, body, r, now);
    DueIsDeferred(q, body, r, now);
    var agenda := Agenda(before, batch);
    StoppedAtTheEnd(before, batch, first);
    var done := Stopped(before, batch, first, |agenda|);
    DueIsHeard(done, q, body, r, agenda[|agenda|..], now);
    assert second(Proposal(q, body, Candidate, done[q].version + 1)).decision.ALLOW?;
    hide *;
    SecondAllowIff(before, batch, first, second, |agenda|);
    RedriveAllowsTwoIff(before, batch, first, second, |agenda|, now);
  }
}
