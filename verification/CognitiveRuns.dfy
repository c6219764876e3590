/** Whole runs of ticks, interrupted or not, with everything else the runtime does to intents in between. */
module CognitiveRuns {
  import opened Wrappers
  import opened Keyset
  import opened IntentLifecycle
  import opened CognitiveTick
  import opened CognitivePass
  import opened CognitiveReplay
  import opened CognitiveDrives

  /** A pass cut after some proposals and, if it got so far, some transitions; a scheduler pass that reached some ids;
      a single transition by another component, such as the settlement of a delivered action; or the admission of one
      proposal by a turn, which deduplicates nothing and may carry a due time. */
  datatype Event =
    | Tick(batch: seq<Proposal>, policy: Policy, considered: nat, decided: nat)
    | Scheduler(reached: set<int>, now: real)
    | Other(move: Move)
    | Turn(p: Proposal)

  /** The intents a tick has stored when it was cut. */
  function Ticked(m: Intents, batch: seq<Proposal>, policy: Policy, considered: nat, decided: nat): Intents {
    if !DistinctIds(batch) || considered < |batch| then AdmitAll(m, batch[..if considered < |batch| then considered else |batch|])
    else
      var moves := Moves(Agenda(m, batch), policy);
      ApplyAll(AdmitAll(m, batch), moves[..if decided < |moves| then decided else |moves|]).intents
  }

  function After(m: Intents, e: Event): Intents {
    match e
    case Tick(batch, policy, considered, decided) => Ticked(m, batch, policy, considered, decided)
    case Scheduler(reached, now) => Schedule(m, reached, now)
    case Other(move) => if Stored(m, move).Ok? then Stored(m, move).value else m
    case Turn(p) => if Enter(m, p).Ok? then Enter(m, p).value else m
  }

  function Run(m: Intents, events: seq<Event>): Intents {
    if events == [] then m else After(Run(m, events[..|events| - 1]), events[|events| - 1])
  }

  /** No two intents occupy the same kind. */
  predicate OnePerKind(m: Intents) {
    forall x, y | x in m && y in m && Active(m[x].status) && Active(m[y].status) && m[x].body.kind == m[y].body.kind :: x == y
  }

  /** The engine refuses rules that share a kind, and derives ids from its rules. */
  predicate EngineBatch(batch: seq<Proposal>) {
    && DistinctIds(batch)
    && forall i, j | 0 <= i < j < |batch| :: batch[i].body.kind != batch[j].body.kind
  }

  /** b has the intents of a, and occupies no kind that a did not. */
  predicate Shrinks(a: Intents, b: Intents) {
    b.Keys == a.Keys && forall id | id in b :: b[id].body == a[id].body && (Active(b[id].status) ==> Active(a[id].status))
  }

  lemma StoredShrinks(a: Intents, m: Move)
    requires Stored(a, m).Ok?
    ensures Shrinks(a, Stored(a, m).value)
  {
  }

  lemma {:induction false} ApplyAllShrinks(a: Intents, moves: seq<Move>)
    ensures Shrinks(a, ApplyAll(a, moves).intents)
  {
    if moves != [] {
      var init := moves[..|moves| - 1];
      ApplyAllShrinks(a, init);
      var sofar := ApplyAll(a, init);
      if sofar.refusal.None? && Stored(sofar.intents, moves[|moves| - 1]).Ok? {
        StoredShrinks(sofar.intents, moves[|moves| - 1]);
      }
    }
  }

  lemma ScheduleShrinks(a: Intents, reached: set<int>, now: real)
    ensures Shrinks(a, Schedule(a, reached, now))
  {
  }

  lemma ShrinkingKeeps(a: Intents, b: Intents)
    requires Shrinks(a, b) && OnePerKind(a)
    ensures OnePerKind(b)
  {
  }

  /** Admissions keep one intent per kind exactly when no two of the proposals they let in share a kind. */
  lemma AdmissionsKeepIff(m: Intents, batch: seq<Proposal>)
    requires DistinctIds(batch) && OnePerKind(m)
    ensures OnePerKind(AdmitAll(m, batch))
            <==> forall i, j | 0 <= i < j < |batch| && Admissible(m, batch[i]) && Admissible(m, batch[j]) ::
                   batch[i].body.kind != batch[j].body.kind
  {
    AdmitAllAt(m, batch);
    hide AdmitAll, ActiveKinds;
    var after := AdmitAll(m, batch);
    if i, j :| 0 <= i < j < |batch| && Admissible(m, batch[i]) && Admissible(m, batch[j])
               && batch[i].body.kind == batch[j].body.kind {
      assert after[batch[i].id] == Admitted(batch[i]) && after[batch[j].id] == Admitted(batch[j]);
    } else {
      forall x, y | x in after && y in after && Active(after[x].status) && Active(after[y].status)
                    && after[x].body.kind == after[y].body.kind
        ensures x == y
      {
        if x !in m { NoClash(m, batch, after, x, y); }
        else if y !in m { NoClash(m, batch, after, y, x); }
      }
    }
  }

  /** A newly admitted intent clashes with nothing that was there, and with nothing newly admitted. */
  lemma NoClash(m: Intents, batch: seq<Proposal>, after: Intents, x: int, y: int)
    requires forall i, j | 0 <= i < j < |batch| && Admissible(m, batch[i]) && Admissible(m, batch[j]) ::
               batch[i].body.kind != batch[j].body.kind
    requires forall id | id in m :: id in after && after[id] == m[id]
    requires forall i | 0 <= i < |batch| && Admissible(m, batch[i]) ::
               batch[i].id in after && after[batch[i].id] == Admitted(batch[i])
    requires forall id | id in after :: id in m || exists i :: 0 <= i < |batch| && batch[i].id == id && Admissible(m, batch[i])
    requires x in after && y in after && Active(after[x].status) && Active(after[y].status)
    requires after[x].body.kind == after[y].body.kind && x !in m
    ensures x == y
  {
    var i :| 0 <= i < |batch| && batch[i].id == x && Admissible(m, batch[i]);
    if y !in m {
      var j :| 0 <= j < |batch| && batch[j].id == y && Admissible(m, batch[j]);
      assert i == j;
    }
  }

  /** A turn admits something new of this proposal. */
  predicate Adds(m: Intents, p: Proposal) {
    IsInitial(p) && p.id !in m
  }

  /** A turn's admission keeps one intent per kind exactly when it adds nothing or its kind is free. */
  lemma TurnKeepsIff(m: Intents, p: Proposal)
    requires OnePerKind(m)
    ensures OnePerKind(After(m, Turn(p))) <==> !Adds(m, p) || p.body.kind !in ActiveKinds(m)
  {
    if Adds(m, p) && p.body.kind in ActiveKinds(m) {
      var id :| id in m && Active(m[id].status) && m[id].body.kind == p.body.kind;
      assert After(m, Turn(p))[p.id] == Admitted(p) && After(m, Turn(p))[id] == m[id];
    } else if Adds(m, p) {
      NewKindKeeps(m, p);
    }
  }

  lemma NewKindKeeps(m: Intents, p: Proposal)
    requires OnePerKind(m) && p.id !in m && p.body.kind !in ActiveKinds(m)
    ensures OnePerKind(m[p.id := Admitted(p)])
  {
    assert forall id | id in m && Active(m[id].status) :: m[id].body.kind in ActiveKinds(m);
  }

  /** Ticks come from the engine, and turns admit only kinds that are free. */
  predicate KeepsKinds(m: Intents, e: Event) {
    && (e.Tick? ==> EngineBatch(e.batch))
    && (e.Turn? && Adds(m, e.p) ==> e.p.body.kind !in ActiveKinds(m))
  }

  lemma PrefixOfEngineBatch(m: Intents, batch: seq<Proposal>, n: nat)
    requires EngineBatch(batch) && n <= |batch| && OnePerKind(m)
    ensures OnePerKind(AdmitAll(m, batch[..n]))
  {
    assert forall i | 0 <= i < n :: batch[..n][i] == batch[i];
    hide AdmitAll, OnePerKind, Admissible;
    AdmissionsKeepIff(m, batch[..n]);
  }

  lemma TickedKeeps(m: Intents, batch: seq<Proposal>, policy: Policy, considered: nat, decided: nat)
    requires EngineBatch(batch) && OnePerKind(m)
    ensures OnePerKind(Ticked(m, batch, policy, considered, decided))
  {
    if considered < |batch| {
      PrefixOfEngineBatch(m, batch, considered);
    } else {
      PrefixOfEngineBatch(m, batch, |batch|);
      assert batch[..|batch|] == batch;
      var moves := Moves(Agenda(m, batch), policy);
      var k := if decided < |moves| then decided else |moves|;
      var a := AdmitAll(m, batch);
      hide AdmitAll, OnePerKind, Agenda, Moves, ApplyAll;
      ApplyAllShrinks(a, moves[..k]);
      ShrinkingKeeps(a, ApplyAll(a, moves[..k]).intents);
    }
  }

  /** However ticks are cut, replayed and interleaved with wakes, expiries, settlements and turns that respect the free
      kinds, a kind is occupied by at most one intent. */
  lemma {:induction false} OnePerKindAlways(events: seq<Event>)
    requires forall i | 0 <= i < |events| :: KeepsKinds(Run(map[], events[..i]), events[i])
    ensures OnePerKind(Run(map[], events))
  {
    if events != [] {
      var last := |events| - 1;
      var e := events[last];
      var m := Run(map[], events[..last]);
      assert forall i | 0 <= i < last :: events[..last][..i] == events[..i] && events[..last][i] == events[i];
      assert KeepsKinds(m, e);
      OnePerKindAlways(events[..last]);
      hide OnePerKind, Ticked, Schedule, Run, Enter, Adds, ActiveKinds;
      match e
      case Tick(batch, policy, considered, decided) => TickedKeeps(m, batch, policy, considered, decided);
      case Scheduler(reached, now) =>
        ScheduleShrinks(m, reached, now);
        ShrinkingKeeps(m, Schedule(m, reached, now));
      case Other(move) =>
        if Stored(m, move).Ok? {
          StoredShrinks(m, move);
          ShrinkingKeeps(m, Stored(m, move).value);
        }
      case Turn(p) => TurnKeepsIff(m, p);
    }
  }

  // ---- the runs of a ticker whose own proposals carry no due time ----------------------------

  /** No proposal of the batch has an id of a turn. */
  predicate Apart(batch: seq<Proposal>, turns: set<int>) {
    forall i | 0 <= i < |batch| :: batch[i].id !in turns
  }

  predicate AllDateless(batch: seq<Proposal>) {
    forall i | 0 <= i < |batch| :: batch[i].body.due.None?
  }

  /** A tick passes the engine no events, so none of its proposals has a due time; a turn's may have one, under ids of its
      own; other components never wake intents, and cut their keys from versions that exist. */
  predicate Lawful(m: Intents, e: Event, turns: set<int>) {
    match e
    case Tick(batch, policy, considered, decided) => EngineBatch(batch) && AllInitial(batch) && AllDateless(batch) && Apart(batch, turns)
    case Scheduler(reached, now) => true
    case Other(move) =>
      !move.stamp.verb.Wake? && (move.id in m ==> move.stamp.version <= m[move.id].version)
    case Turn(p) => p.id in turns
  }

  ghost predicate LawfulRun(events: seq<Event>, turns: set<int>) {
    forall i | 0 <= i < |events| :: Lawful(Run(map[], events[..i]), events[i], turns)
  }

  predicate Undated(x: Intent) {
    x.body.due.None? && (x.status.Candidate? ==> x.version == 1)
  }

  /** Every history is well formed, and only what turns admitted is ever woken. */
  predicate Ordinary(m: Intents, turns: set<int>) {
    forall id | id in m :: Valid(m[id]) && (id !in turns ==> Undated(m[id]))
  }

  lemma OrdinaryIsReady(m: Intents, turns: set<int>, batch: seq<Proposal>)
    requires Ordinary(m, turns) && EngineBatch(batch) && AllInitial(batch) && Apart(batch, turns)
    ensures Ready(m, batch) && (AllDateless(batch) ==> Timeless(m, batch))
  {
  }

  lemma AdmissionsStayOrdinary(m: Intents, turns: set<int>, batch: seq<Proposal>, n: nat)
    requires DistinctIds(batch) && n <= |batch| && Ordinary(m, turns) && AllDateless(batch)
    ensures Ordinary(AdmitAll(m, batch[..n]), turns)
  {
    AdmitAllAt(m, batch[..n]);
    assert forall i | 0 <= i < n :: batch[..n][i] == batch[i];
    hide AdmitAll, Admissible;
  }

  lemma DecisionsStayOrdinary(a: Intents, turns: set<int>, out: Intents, agenda: seq<Proposal>, policy: Policy, k: nat)
    requires k <= |agenda| && Ordinary(a, turns) && AllValid(out) && Decided(a, out, agenda, policy, k)
    ensures Ordinary(out, turns)
  {
    forall id | id in out && id !in turns ensures Undated(out[id]) {
      if i :| 0 <= i < k && agenda[i].id == id {
        assert out[agenda[i].id].status == Fate(agenda, policy, i);
      } else {
        assert out[id] == a[id];
      }
    }
  }

  lemma TickStaysOrdinary(m: Intents, turns: set<int>, batch: seq<Proposal>, policy: Policy, considered: nat,
                          decided: nat)
    requires Ordinary(m, turns) && Lawful(m, Tick(batch, policy, considered, decided), turns)
    ensures Ordinary(Ticked(m, batch, policy, considered, decided), turns)
  {
    if considered < |batch| {
      AdmissionsStayOrdinary(m, turns, batch, considered);
    } else {
      AdmissionsStayOrdinary(m, turns, batch, |batch|);
      assert batch[..|batch|] == batch;
      OrdinaryIsReady(m, turns, batch);
      ReadyMeans(m, batch);
      var k := if decided < |Agenda(m, batch)| then decided else |Agenda(m, batch)|;
      TickedIsStopped(m, batch, policy, considered, decided, k);
      hide *;
      StoppedIsDecided(m, batch, policy, k);
      DecisionsStayOrdinary(AdmitAll(m, batch), turns, Stopped(m, batch, policy, k), Agenda(m, batch), policy, k);
    }
  }

  lemma TickedIsStopped(m: Intents, batch: seq<Proposal>, policy: Policy, considered: nat, decided: nat, k: nat)
    requires DistinctIds(batch) && considered >= |batch|
    requires k == if decided < |Agenda(m, batch)| then decided else |Agenda(m, batch)|
    ensures Ticked(m, batch, policy, considered, decided) == Stopped(m, batch, policy, k)
  {
  }

  lemma SchedulerStaysOrdinary(m: Intents, turns: set<int>, reached: set<int>, now: real)
    requires Ordinary(m, turns)
    ensures Ordinary(Schedule(m, reached, now), turns)
  {
    forall id | id in m
      ensures Scheduled(id, m[id], now).Ok? && Valid(Scheduled(id, m[id], now).value)
      ensures id !in turns ==> Undated(Scheduled(id, m[id], now).value)
    {
      SchedulerIsTotal(id, m[id], now);
      if Expires(m[id], now) { MovedKeeps(m[id], Move(id, Stamp(Expire, m[id].version), "scheduler_expired")); }
    }
    hide Undated, Scheduled, Valid;
  }

  lemma OtherStaysOrdinary(m: Intents, turns: set<int>, move: Move)
    requires Ordinary(m, turns) && Lawful(m, Other(move), turns) && Stored(m, move).Ok?
    ensures Ordinary(Stored(m, move).value, turns)
  {
    MovedKeeps(m[move.id], move);
  }

  lemma TurnStaysOrdinary(m: Intents, turns: set<int>, p: Proposal)
    requires Ordinary(m, turns) && p.id in turns && Enter(m, p).Ok?
    ensures Ordinary(Enter(m, p).value, turns)
  {
  }

  lemma {:induction false} LawfulRunStaysOrdinary(events: seq<Event>, turns: set<int>)
    requires LawfulRun(events, turns)
    ensures Ordinary(Run(map[], events), turns)
  {
    if events != [] {
      var n := |events| - 1;
      var m := Run(map[], events[..n]);
      assert forall i | 0 <= i < n :: events[..n][..i] == events[..i] && events[..n][i] == events[i];
      LawfulRunStaysOrdinary(events[..n], turns);
      assert Lawful(m, events[n], turns);
      hide Ordinary, Ticked, Schedule, Run, LawfulRun, Lawful, Enter, Stored;
      match events[n]
      case Tick(batch, policy, considered, decided) => TickStaysOrdinary(m, turns, batch, policy, considered, decided);
      case Scheduler(reached, now) => SchedulerStaysOrdinary(m, turns, reached, now);
      case Other(move) => if Stored(m, move).Ok? { OtherStaysOrdinary(m, turns, move); }
      case Turn(p) => if Enter(m, p).Ok? { OfTurn(m, p, turns); TurnStaysOrdinary(m, turns, p); }
    }
  }

  lemma OfTurn(m: Intents, p: Proposal, turns: set<int>)
    requires Lawful(m, Turn(p), turns)
    ensures p.id in turns
  {
  }

  /** In every such run, whatever was cut and replayed before and whatever turns admitted and the scheduler woke, the next
      pass completes and leaves no candidate. */
  lemma EveryTickDrains(events: seq<Event>, turns: set<int>, batch: seq<Proposal>, policy: Policy)
    requires LawfulRun(events, turns) && EngineBatch(batch) && AllInitial(batch) && Apart(batch, turns)
    ensures Ready(Run(map[], events), batch) && (AllDateless(batch) ==> Timeless(Run(map[], events), batch))
    ensures var out := Pass(Run(map[], events), batch, policy);
            out.refusal.None? && forall id | id in out.intents :: !out.intents[id].status.Candidate?
  {
    var m := Run(map[], events);
    LawfulRunStaysOrdinary(events, turns);
    OrdinaryIsReady(m, turns, batch);
    ReadyMeans(m, batch);
    hide *;
    PassDecides(m, batch, policy);
    PassDrains(m, batch, policy);
  }

  // ---- driving the same instant again -----------------------------------------------------

  /** A policy that defers whatever it is asked. */
  function Hesitant(reasons: string): Policy {
    (p: Proposal) => Verdict(DEFER, reasons)
  }

  lemma SoleEntry(before: Intents, a: Intents, p: Proposal)
    requires DistinctIds([p]) && AdmitAll(before, [p]) == a && a.Keys == {p.id} && a[p.id].status.Candidate?
    ensures Agenda(before, [p]) == [p]
  {
    hide *;
    AgendaHearsEveryCandidate(before, [p]);
    SoleAgenda(a, p);
    AgendaIsUnique(a, [p], Agenda(before, [p]), [p]);
  }

  lemma SoleAgenda(a: Intents, p: Proposal)
    requires a.Keys == {p.id} && a[p.id].status.Candidate?
    ensures IsAgenda(a, [p], [p])
  {
    assert [p][0].id == p.id;
  }

  lemma SolePass(before: Intents, a: Intents, p: Proposal, reasons: string)
    requires IsInitial(p) && DistinctIds([p]) && AdmitAll(before, [p]) == a && Agenda(before, [p]) == [p]
    requires Stored(a, Move(p.id, Stamp(Defer, 1), reasons)).Ok?
    ensures Pass(before, [p], Hesitant(reasons)) == Outcome(Stored(a, Move(p.id, Stamp(Defer, 1), reasons)).value, None)
  {
    hide Agenda, AdmitAll, Stored;
    var m := Move(p.id, Stamp(Defer, 1), reasons);
    var moves := Moves([p], Hesitant(reasons));
    assert FirstUninitial([p]) == 1;
    assert moves == [m];
    assert moves[..0] == [] && ApplyAll(a, []) == Outcome(a, None);
  }

  /** The first drive admits and defers the proposal. */
  lemma DeferredOnce(p: Proposal, reasons: string)
    requires IsInitial(p) && DistinctIds([p])
    ensures Pass(map[], [p], Hesitant(reasons))
            == Outcome(map[p.id := Intent(p.body, Deferred, 2, map[Stamp(Defer, 1) := reasons])], None)
  {
    var a: Intents := map[p.id := Admitted(p)];
    assert [p][..0] == [] && AdmitAll(map[], []) == map[];
    assert AdmitAll(map[], [p]) == a;
    SoleEntry(map[], a, p);
    hide AdmitAll, Agenda, Pass;
    SolePass(map[], a, p, reasons);
  }

  /** The second drive recognises its own key and leaves the woken candidate as it is. */
  lemma DeferredAgain(p: Proposal, woken: Intents, reasons: string)
    requires IsInitial(p) && DistinctIds([p]) && woken.Keys == {p.id}
    requires woken[p.id].status.Candidate? && Stamp(Defer, 1) in woken[p.id].used
             && woken[p.id].used[Stamp(Defer, 1)] == reasons
    ensures Pass(woken, [p], Hesitant(reasons)) == Outcome(woken, None)
  {
    NothingToAdmit(woken, [p]);
    SoleEntry(woken, woken, p);
    hide AdmitAll, Agenda, Pass;
    SolePass(woken, woken, p, reasons);
    assert woken[p.id := woken[p.id]] == woken;
  }

  /** Where driving an instant twice is not safe: a proposal that falls due at once is deferred, woken by the second
      drive's scheduler pass, and then neither deferred nor decided, however often the instant is driven. */
  lemma DueAtOnceIsStranded(p: Proposal, now: real, reasons: string)
    requires IsInitial(p) && p.body.onDue && p.body.due.Some? && p.body.due.value <= now
    requires p.body.expires.None? || p.body.expires.value > now
    ensures DistinctIds([p])
    ensures var batch, policy := [p], Hesitant(reasons);
            var first := Pass(map[], batch, policy);
            var woken := Schedule(first.intents, {p.id}, now);
            && first.refusal.None? && p.id in first.intents && first.intents[p.id].status.Deferred?
            && p.id in woken && woken[p.id].status.Candidate?
            && Pass(woken, batch, policy) == Outcome(woken, None)
            && Schedule(woken, {p.id}, now) == woken
  {
    DeferredOnce(p, reasons);
    var x := Intent(p.body, Deferred, 2, map[Stamp(Defer, 1) := reasons]);
    var y := Intent(p.body, Candidate, 3, map[Stamp(Defer, 1) := reasons, Stamp(Wake, 2) := "scheduler_due"]);
    WokenAtOnce(p, x, y, now);
    hide *;
    DeferredAgain(p, map[p.id := y], reasons);
  }

  lemma WokenAtOnce(p: Proposal, x: Intent, y: Intent, now: real)
    requires IsDue(x, now) && !Expires(x, now) && Stamp(Wake, x.version) !in x.used
    requires y == x.(status := Candidate, version := x.version + 1, used := x.used[Stamp(Wake, x.version) := "scheduler_due"])
    ensures Schedule(map[p.id := x], {p.id}, now) == map[p.id := y]
    ensures Schedule(map[p.id := y], {p.id}, now) == map[p.id := y]
  {
    WokenOnce(p.id, x, y, now);
    hide Scheduled, IsDue, Expires;
    assert Schedule(map[p.id := x], {p.id}, now) == map[p.id := y];
  }

  lemma WokenOnce(id: int, x: Intent, y: Intent, now: real)
    requires IsDue(x, now) && !Expires(x, now) && Stamp(Wake, x.version) !in x.used
    requires y == x.(status := Candidate, version := x.version + 1, used := x.used[Stamp(Wake, x.version) := "scheduler_due"])
    ensures Scheduled(id, x, now) == Ok(y) && Scheduled(id, y, now) == Ok(y)
  {
  }
}
