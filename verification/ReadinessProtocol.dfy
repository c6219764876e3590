/** Many gateway processes, each with several threads, sharing one readiness path and one temporary name beside it.
    Loading, checking, probing, opening the temporary file, writing it, renaming it and claiming the epoch are separate
    steps, so every interleaving of them is a run. */
module ReadinessProtocol {
  import opened Wrappers
  import opened Readiness

  /** A file's text: one record, or something no reader can parse (empty, half written, or two texts overlaid). */
  datatype Content = Garbled | Whole(record: Record)

  /** Both names point into a table of file contents; a rename moves the pointer, an open file keeps its entry. */
  datatype Disk = Disk(inodes: seq<Content>, target: Option<nat>, temp: Option<nat>)

  datatype Phase =
    | Resting
    | Loaded(view: View)
    | Owned(record: Record)
    | Saving(record: Record, claim: bool)
    | Opened(record: Record, claim: bool, inode: nat)
    | Written(record: Record, claim: bool)
    | Saved

  datatype Step = Begin | Load | Check | Evaluate(probe: Probe) | Open | Write(clean: bool) | Replace | Claim | Fail

  datatype Action = Action(thread: nat, step: Step)

  /** Threads belong to processes; each process has its own identity. */
  datatype World = World(owner: seq<nat>, identity: nat -> Epoch)

  /** A probe that found the core ready, completed in some process. */
  datatype Finding = Finding(epoch: Epoch, at: real)

  datatype Sys = Sys(disk: Disk, phases: seq<Phase>, active: set<nat>, findings: set<Finding>)

  ghost predicate DistinctIdentities(w: World) {
    forall p, q: nat | w.identity(p) == w.identity(q) :: p == q
  }

  function Start(w: World): Sys {
    Sys(Disk([], None, None), seq(|w.owner|, i => Resting), {}, {})
  }

  function ViewOf(disk: Disk): View {
    match disk.target
    case None => Missing
    case Some(n) => if n >= |disk.inodes| || disk.inodes[n].Garbled? then Corrupt else Present(disk.inodes[n].record)
  }

  function ActiveEpoch(w: World, s: Sys, p: nat): Option<Epoch> {
    if p in s.active then Some(w.identity(p)) else None
  }

  function GoTo(s: Sys, t: nat, phase: Phase): Sys
    requires t < |s.phases|
  {
    s.(phases := s.phases[t := phase])
  }

  /** Opening for writing truncates the temporary file if it exists and creates it if not. */
  function OpenStep(s: Sys, t: nat): Sys
    requires t < |s.phases| && s.phases[t].Saving?
  {
    var d, ph := s.disk, s.phases[t];
    match d.temp
    case None =>
      GoTo(s.(disk := d.(inodes := d.inodes + [Garbled], temp := Some(|d.inodes|))), t, Opened(ph.record, ph.claim, |d.inodes|))
    case Some(n) =>
      GoTo(s.(disk := d.(inodes := if n < |d.inodes| then d.inodes[n := Garbled] else d.inodes)), t, Opened(ph.record, ph.claim, n))
  }

  /** Overlapping writers of one file may leave either text or neither. */
  function WriteStep(s: Sys, t: nat, clean: bool): Sys
    requires t < |s.phases| && s.phases[t].Opened?
  {
    var d, ph := s.disk, s.phases[t];
    var text := if clean then Whole(ph.record) else Garbled;
    GoTo(s.(disk := d.(inodes := if ph.inode < |d.inodes| then d.inodes[ph.inode := text] else d.inodes)), t,
         Written(ph.record, ph.claim))
  }

  /** Whatever carries the temporary name becomes the readiness file; with no such name the save has failed. */
  function ReplaceStep(s: Sys, t: nat): Sys
    requires t < |s.phases| && s.phases[t].Written?
  {
    if s.disk.temp.None? then GoTo(s, t, Resting)
    else GoTo(s.(disk := s.disk.(target := s.disk.temp, temp := None)), t, if s.phases[t].claim then Saved else Resting)
  }

  function Next(w: World, s: Sys, a: Action): Option<Sys> {
    var t := a.thread;
    if t >= |s.phases| || t >= |w.owner| then None else
    var p, ph := w.owner[t], s.phases[t];
    match a.step
    case Begin => if ph.Resting? then Some(GoTo(s, t, Saving(FreshRecord(w.identity(p)), true))) else None
    case Load => if ph.Resting? then Some(GoTo(s, t, Loaded(ViewOf(s.disk)))) else None
    case Check =>
      if !ph.Loaded? then None
      else Some(GoTo(s, t, if Owns(ActiveEpoch(w, s, p), ph.view) then Owned(ph.view.record) else Resting))
    case Evaluate(probe) =>
      if !ph.Owned? then None
      else
        var found := if probe.core then {Finding(w.identity(p), probe.now)} else {};
        Some(GoTo(s.(findings := s.findings + found), t, Saving(Refreshed(ph.record, probe), false)))
    case Open => if ph.Saving? then Some(OpenStep(s, t)) else None
    case Write(clean) => if ph.Opened? then Some(WriteStep(s, t, clean)) else None
    case Replace => if ph.Written? then Some(ReplaceStep(s, t)) else None
    case Claim => if ph.Saved? then Some(GoTo(s.(active := s.active + {p}), t, Resting)) else None
    case Fail => Some(GoTo(s, t, Resting))
  }

  function Exec(w: World, s: Sys, actions: seq<Action>): Option<Sys>
    decreases |actions|
  {
    if actions == [] then Some(s) else
    var before := Exec(w, s, actions[..|actions| - 1]);
    if before.None? then None else Next(w, before.value, actions[|actions| - 1])
  }

  /** The verdict process p gives a message of a profile, the companion's or another. */
  function VerdictFor(w: World, s: Sys, p: nat, xiyue: bool, enabled: bool, occurredAt: Option<real>): Verdict {
    Admission(xiyue, enabled, ActiveEpoch(w, s, p), ViewOf(s.disk), occurredAt)
  }

  /** The verdict process p gives a message of the companion profile while the runtime is enabled. */
  function VerdictOf(w: World, s: Sys, p: nat, occurredAt: Option<real>): Verdict {
    VerdictFor(w, s, p, true, true, occurredAt)
  }

  // ---- what every record anywhere in the system satisfies ------------------------------

  /** A coherent record whose ready time is that of a probe its own process completed with the core ready. */
  predicate Genuine(r: Record, findings: set<Finding>) {
    Coherent(r) && (r.readyAt.Some? ==> Finding(r.epoch, r.readyAt.value) in findings)
  }

  predicate GenuineContent(c: Content, findings: set<Finding>) {
    c.Whole? ==> Genuine(c.record, findings)
  }

  predicate GenuinePhase(ph: Phase, epoch: Epoch, findings: set<Finding>) {
    match ph
    case Loaded(view) => view.Present? ==> Genuine(view.record, findings)
    case Owned(r) => Genuine(r, findings) && r.epoch == epoch
    case Saving(r, _) => Genuine(r, findings) && r.epoch == epoch
    case Opened(r, _, _) => Genuine(r, findings) && r.epoch == epoch
    case Written(r, _) => Genuine(r, findings) && r.epoch == epoch
    case _ => true
  }

  ghost predicate AllGenuine(w: World, s: Sys) {
    && |s.phases| == |w.owner|
    && (forall n | 0 <= n < |s.disk.inodes| :: GenuineContent(s.disk.inodes[n], s.findings))
    && (forall t | 0 <= t < |s.phases| :: GenuinePhase(s.phases[t], w.identity(w.owner[t]), s.findings))
  }

  lemma NextKeepsGenuine(w: World, s: Sys, a: Action)
    requires AllGenuine(w, s) && Next(w, s, a).Some?
    ensures AllGenuine(w, Next(w, s, a).value)
  {
    var s' := Next(w, s, a).value;
    var t := a.thread;
    assert GenuinePhase(s.phases[t], w.identity(w.owner[t]), s.findings);
    if a.step.Evaluate? {
      RefreshedIsCoherent(s.phases[t].record, a.step.probe);
    }
  }

  lemma {:induction false} AlwaysGenuine(w: World, actions: seq<Action>)
    requires Exec(w, Start(w), actions).Some?
    ensures AllGenuine(w, Exec(w, Start(w), actions).value)
  {
    if actions != [] {
      AlwaysGenuine(w, actions[..|actions| - 1]);
      hide AllGenuine, Next;
      NextKeepsGenuine(w, Exec(w, Start(w), actions[..|actions| - 1]).value, actions[|actions| - 1]);
    }
  }

  /** The file holds this process's own record, claimed by it, from a probe it completed with the core ready. */
  predicate ReadyFor(w: World, s: Sys, p: nat) {
    && p in s.active && ViewOf(s.disk).Present? && ViewOf(s.disk).record.epoch == w.identity(p)
    && ViewOf(s.disk).record.readyAt.Some?
    && Finding(w.identity(p), ViewOf(s.disk).record.readyAt.value) in s.findings
  }

  predicate InBacklog(s: Sys, occurredAt: Option<real>) {
    && ViewOf(s.disk).Present? && ViewOf(s.disk).record.readyAt.Some?
    && occurredAt.Some? && occurredAt.value < ViewOf(s.disk).record.readyAt.value
  }

  /** In every reachable state a message is admitted exactly when it is of another profile, or the runtime is disabled, or
      the file is ready for the process and the message is not older than that; and each status says which of these it is. */
  lemma AdmissionIsJustified(w: World, actions: seq<Action>, p: nat, xiyue: bool, enabled: bool, occurredAt: Option<real>)
    requires Exec(w, Start(w), actions).Some?
    ensures var s := Exec(w, Start(w), actions).value;
            var verdict := VerdictFor(w, s, p, xiyue, enabled, occurredAt);
            && (verdict.admitted <==> !xiyue || !enabled || (ReadyFor(w, s, p) && !InBacklog(s, occurredAt)))
            && (verdict.status == DISABLED <==> xiyue && !enabled)
            && (verdict.status == UNREADY <==> xiyue && enabled && !ReadyFor(w, s, p))
            && (verdict.status == BACKLOG <==> xiyue && enabled && ReadyFor(w, s, p) && InBacklog(s, occurredAt))
            && (verdict.status == LIVE <==> !xiyue || (enabled && ReadyFor(w, s, p) && !InBacklog(s, occurredAt)))
  {
    AlwaysGenuine(w, actions);
    hide Exec, Next;
    var s := Exec(w, Start(w), actions).value;
    if ViewOf(s.disk).Present? {
      assert GenuineContent(s.disk.inodes[s.disk.target.value], s.findings);
    }
  }

  /** When a save makes the file unreadable: a rename of a temporary file that another thread has truncated or spoilt, or an
      overlapping write to a file that was renamed while it was open. No save whose steps follow one another does that. */
  lemma UnreadableIff(w: World, s: Sys, a: Action, s': Sys)
    requires Next(w, s, a) == Some(s') && ViewOf(s.disk) != Corrupt
    ensures ViewOf(s'.disk) == Corrupt
            <==> match a.step
                 case Open => s.disk.temp.Some? && s.disk.temp == s.disk.target
                 case Write(clean) => !clean && s.disk.target == Some(s.phases[a.thread].inode)
                 case Replace => s.disk.temp.Some? && (s.disk.temp.value < |s.disk.inodes| ==> s.disk.inodes[s.disk.temp.value] == Garbled)
                 case _ => false
    ensures ViewOf(s'.disk) == Missing <==> s'.disk.target.None?
  {
  }

  /** Two saves that overlap: the second opens the shared temporary file before the first renames it. The file is then
      unreadable, and all messages of the profile are refused, until the second has written. */
  lemma OverlappingSavesRefuseAll(w: World, s: Sys, t: nat, u: nat)
    requires t < |s.phases| == |w.owner| && u < |s.phases| && t != u
    requires s.phases[t].Saving? && s.phases[u].Written? && s.disk.temp.Some? && s.disk.temp.value < |s.disk.inodes|
    ensures var between, after := Exec(w, s, [Action(t, Open), Action(u, Replace)]),
                                  Exec(w, s, [Action(t, Open), Action(u, Replace), Action(t, Write(true))]);
            && between.Some? && ViewOf(between.value.disk) == Corrupt
            && (forall p: nat, occurredAt :: VerdictFor(w, between.value, p, true, true, occurredAt) == Verdict(false, UNREADY))
            && after.Some? && ViewOf(after.value.disk) == Present(s.phases[t].record)
  {
    var x := OpenStep(s, t);
    var y := ReplaceStep(x, u);
    ExecTwo(w, s, Action(t, Open), Action(u, Replace));
    var two := [Action(t, Open), Action(u, Replace), Action(t, Write(true))];
    assert two[..2] == [Action(t, Open), Action(u, Replace)];
    hide Exec;
  }

  lemma ExecTwo(w: World, s: Sys, a: Action, b: Action)
    requires Next(w, s, a).Some? && Next(w, Next(w, s, a).value, b).Some?
    ensures Exec(w, s, [a, b]) == Next(w, Next(w, s, a).value, b)
  {
    assert [a, b][..1] == [a] && [a][..0] == [];
    assert Exec(w, s, [a]) == Next(w, s, a);
  }

  // ---- who the file can speak for -------------------------------------------------------

  predicate CarriedBy(ph: Phase, epoch: Epoch) {
    match ph
    case Loaded(view) => view.Present? && view.record.epoch == epoch
    case Owned(r) => r.epoch == epoch
    case Saving(r, _) => r.epoch == epoch
    case Opened(r, _, _) => r.epoch == epoch
    case Written(r, _) => r.epoch == epoch
    case _ => false
  }

  predicate NamedBy(disk: Disk, name: Option<nat>, epoch: Epoch) {
    name.Some? && name.value < |disk.inodes| && disk.inodes[name.value].Whole? && disk.inodes[name.value].record.epoch == epoch
  }

  /** Neither a file name nor a thread carries a record of this epoch any more. */
  ghost predicate NoTrace(s: Sys, epoch: Epoch) {
    && !NamedBy(s.disk, s.disk.target, epoch) && !NamedBy(s.disk, s.disk.temp, epoch)
    && forall t | 0 <= t < |s.phases| :: !CarriedBy(s.phases[t], epoch)
  }

  /** Every action but a new beginning of this process. */
  predicate NotBegunBy(w: World, p: nat, a: Action) {
    a.thread < |w.owner| && w.owner[a.thread] == p ==> !a.step.Begin?
  }

  lemma NoTraceStays(w: World, s: Sys, q: nat, a: Action)
    requires DistinctIdentities(w) && AllGenuine(w, s) && NoTrace(s, w.identity(q)) && NotBegunBy(w, q, a)
    requires Next(w, s, a).Some?
    ensures NoTrace(Next(w, s, a).value, w.identity(q))
  {
    var t := a.thread;
    assert GenuinePhase(s.phases[t], w.identity(w.owner[t]), s.findings);
    assert !CarriedBy(s.phases[t], w.identity(q));
  }

  lemma {:induction false} NoTraceForever(w: World, s: Sys, q: nat, later: seq<Action>)
    requires DistinctIdentities(w) && AllGenuine(w, s) && NoTrace(s, w.identity(q))
    requires forall i | 0 <= i < |later| :: NotBegunBy(w, q, later[i])
    requires Exec(w, s, later).Some?
    ensures AllGenuine(w, Exec(w, s, later).value) && NoTrace(Exec(w, s, later).value, w.identity(q))
  {
    if later != [] {
      var init, last := later[..|later| - 1], later[|later| - 1];
      assert NotBegunBy(w, q, last);
      NoTraceForever(w, s, q, init);
      var before := Exec(w, s, init).value;
      assert Exec(w, s, later) == Next(w, before, last);
      hide *;
      NextKeepsGenuine(w, before, last);
      NoTraceStays(w, before, q, last);
    }
  }

  /** A process of whose epoch no trace is left is shut out of the gate until it begins again, whatever else runs. */
  lemma LockedOutForever(w: World, s: Sys, q: nat, later: seq<Action>, occurredAt: Option<real>)
    requires DistinctIdentities(w) && AllGenuine(w, s) && NoTrace(s, w.identity(q))
    requires forall i | 0 <= i < |later| :: NotBegunBy(w, q, later[i])
    requires Exec(w, s, later).Some?
    ensures !VerdictOf(w, Exec(w, s, later).value, q, occurredAt).admitted
  {
    NoTraceForever(w, s, q, later);
    hide Exec, Next, AllGenuine, DistinctIdentities;
  }

  /** No record of any other epoch is left under a name or in a thread. */
  ghost predicate OnlyOf(w: World, s: Sys, q: nat) {
    forall p: nat | p != q :: NoTrace(s, w.identity(p))
  }

  /** A takeover that finds no other process between its check and its rename is final: until another process begins,
      the file speaks for the new epoch or for nobody. */
  lemma QuietTakeoverHolds(w: World, s: Sys, q: nat, later: seq<Action>, p: nat, occurredAt: Option<real>)
    requires DistinctIdentities(w) && AllGenuine(w, s) && OnlyOf(w, s, q) && p != q
    requires forall i | 0 <= i < |later| :: forall o: nat | o != q :: NotBegunBy(w, o, later[i])
    requires Exec(w, s, later).Some?
    ensures OnlyOf(w, Exec(w, s, later).value, q)
    ensures !VerdictOf(w, Exec(w, s, later).value, p, occurredAt).admitted
  {
    hide Exec, Next, AllGenuine, NoTrace, NotBegunBy;
    forall o: nat | o != q ensures NoTrace(Exec(w, s, later).value, w.identity(o)) {
      assert forall i | 0 <= i < |later| :: NotBegunBy(w, o, later[i]);
      NoTraceForever(w, s, o, later);
    }
    assert forall i | 0 <= i < |later| :: NotBegunBy(w, p, later[i]);
    LockedOutForever(w, s, p, later, occurredAt);
  }

  // ---- a takeover that is not final -------------------------------------------------------

  function SaveSteps(t: nat): seq<Action> {
    [Action(t, Open), Action(t, Write(true)), Action(t, Replace)]
  }

  /** A save nobody interferes with lands. */
  lemma SaveLands(w: World, s: Sys, t: nat)
    requires t < |s.phases| == |w.owner| && s.phases[t].Saving? && s.disk.temp.None?
    ensures Exec(w, s, SaveSteps(t)).Some?
    ensures var s', ph := Exec(w, s, SaveSteps(t)).value, s.phases[t];
            && ViewOf(s'.disk) == Present(ph.record) && s'.disk.temp.None?
            && s'.active == s.active && s'.findings == s.findings
            && s'.phases == s.phases[t := if ph.claim then Saved else Resting]
  {
    var a, b, c := Action(t, Open), Action(t, Write(true)), Action(t, Replace);
    assert SaveSteps(t)[..2] == [a, b] && [a, b][..1] == [a] && [a][..0] == [];
    var s1 := Next(w, s, a).value;
    assert Exec(w, s, [a]) == Some(s1);
    var s2 := Next(w, s1, b).value;
    assert Exec(w, s, [a, b]) == Some(s2);
    var s3 := Next(w, s2, c).value;
    assert Exec(w, s, SaveSteps(t)) == Some(s3);
  }

  lemma {:induction false} ExecAppend(w: World, s: Sys, x: seq<Action>, y: seq<Action>)
    requires Exec(w, s, x).Some?
    ensures Exec(w, s, x + y) == Exec(w, Exec(w, s, x).value, y)
    decreases |y|
  {
    if y == [] {
      assert x + y == x;
    } else {
      assert (x + y)[..|x + y| - 1] == x + y[..|y| - 1];
      ExecAppend(w, s, x, y[..|y| - 1]);
    }
  }

  ghost predicate Reaches(w: World, actions: seq<Action>, s: Sys) {
    Exec(w, Start(w), actions) == Some(s)
  }

  lemma Extend(w: World, actions: seq<Action>, s: Sys, a: Action) returns (actions': seq<Action>, s': Sys)
    requires Reaches(w, actions, s) && Next(w, s, a).Some?
    ensures Reaches(w, actions', s') && Some(s') == Next(w, s, a) && actions' == actions + [a]
  {
    ExecAppend(w, Start(w), actions, [a]);
    assert [a][..0] == [];
    s' := Next(w, s, a).value;
    actions' := actions + [a];
  }

  lemma ExtendSave(w: World, actions: seq<Action>, s: Sys, t: nat) returns (actions': seq<Action>, s': Sys)
    requires Reaches(w, actions, s) && t < |s.phases| == |w.owner| && s.phases[t].Saving? && s.disk.temp.None?
    ensures Reaches(w, actions', s')
    ensures ViewOf(s'.disk) == Present(s.phases[t].record) && s'.disk.temp.None?
    ensures s'.active == s.active && s'.findings == s.findings
    ensures s'.phases == s.phases[t := if s.phases[t].claim then Saved else Resting]
  {
    SaveLands(w, s, t);
    ExecAppend(w, Start(w), actions, SaveSteps(t));
    hide Next, ViewOf;
    s' := Exec(w, s, SaveSteps(t)).value;
    actions' := actions + SaveSteps(t);
  }

  /** A process begins: its record lands and its epoch is claimed. */
  lemma BeginLands(w: World, actions: seq<Action>, s: Sys, t: nat) returns (actions': seq<Action>, s': Sys)
    requires Reaches(w, actions, s) && t < |s.phases| == |w.owner| && s.phases[t].Resting? && s.disk.temp.None?
    ensures Reaches(w, actions', s')
    ensures ViewOf(s'.disk) == Present(FreshRecord(w.identity(w.owner[t]))) && s'.disk.temp.None?
    ensures s'.active == s.active + {w.owner[t]} && s'.phases == s.phases
  {
    hide ViewOf, Exec;
    actions', s' := Extend(w, actions, s, Action(t, Begin));
    actions', s' := ExtendSave(w, actions', s', t);
    actions', s' := Extend(w, actions', s', Action(t, Claim));
  }

  /** A thread of a process that owns the file, stopped between its probe and its save. */
  lemma SaveInFlight(w: World, t: nat, probe: Probe) returns (actions: seq<Action>, s: Sys)
    requires t < |w.owner|
    ensures Reaches(w, actions, s) && s.disk.temp.None? && s.active == {w.owner[t]}
    ensures s.phases == Start(w).phases[t := Saving(Refreshed(FreshRecord(w.identity(w.owner[t])), probe), false)]
  {
    assert Reaches(w, [], Start(w));
    hide Exec;
    actions, s := BeginLands(w, [], Start(w), t);
    actions, s := Extend(w, actions, s, Action(t, Load));
    actions, s := Extend(w, actions, s, Action(t, Check));
    actions, s := Extend(w, actions, s, Action(t, Evaluate(probe)));
  }

  /** Where the newest epoch does not win: process q begins, saves and claims its epoch while an older process stands
      between its probe and its save. The late save puts the old record back, and from then on no message reaches q,
      whatever else runs, until q begins again. */
  lemma LateSaveShutsOutTheNewEpoch(w: World, older: nat, newer: nat, probe: Probe)
    returns (actions: seq<Action>, s: Sys)
    requires DistinctIdentities(w) && older < |w.owner| && newer < |w.owner| && w.owner[older] != w.owner[newer]
    ensures Reaches(w, actions, s) && w.owner[newer] in s.active && NoTrace(s, w.identity(w.owner[newer]))
    ensures ViewOf(s.disk) == Present(Refreshed(FreshRecord(w.identity(w.owner[older])), probe))
    ensures forall later: seq<Action>, occurredAt |
              (forall i | 0 <= i < |later| :: NotBegunBy(w, w.owner[newer], later[i])) && Exec(w, s, later).Some? ::
              !VerdictOf(w, Exec(w, s, later).value, w.owner[newer], occurredAt).admitted
  {
    var q := w.owner[newer];
    var r := Refreshed(FreshRecord(w.identity(w.owner[older])), probe);
    RefreshedIsCoherent(FreshRecord(w.identity(w.owner[older])), probe);
    hide Exec, Next, Refreshed;
    actions, s := SaveInFlight(w, older, probe);
    actions, s := BeginLands(w, actions, s, newer);
    actions, s := ExtendSave(w, actions, s, older);
    assert s.phases == Start(w).phases;
    AlwaysGenuine(w, actions);
    hide AllGenuine;
    assert NoTrace(s, w.identity(q));
    hide NoTrace, ViewOf;
    forall later: seq<Action>, occurredAt |
      (forall i | 0 <= i < |later| :: NotBegunBy(w, q, later[i])) && Exec(w, s, later).Some?
      ensures !VerdictOf(w, Exec(w, s, later).value, q, occurredAt).admitted
    {
      LockedOutForever(w, s, q, later, occurredAt);
    }
  }
}
