/** When a takeover of the readiness file is final: exactly which threads and files can still put another process's record
    in place of the newest one. */
module ReadinessTakeover {
  import opened Wrappers
  import opened Readiness
  import opened ReadinessProtocol

  // ---- what is linked to what --------------------------------------------------------------

  /** The epoch of some process that has a thread. */
  predicate Known(w: World, epoch: Epoch) {
    exists t :: 0 <= t < |w.owner| && w.identity(w.owner[t]) == epoch
  }

  predicate Linked(disk: Disk) {
    && (disk.target.Some? ==> disk.target.value < |disk.inodes|)
    && (disk.temp.Some? ==> disk.temp.value < |disk.inodes| && disk.temp != disk.target)
  }

  /** Names and open files refer to existing contents, the two names to different ones, and every record is some process's. */
  ghost predicate Sound(w: World, s: Sys) {
    AllGenuine(w, s) && Linked(s.disk) && OpenLinked(s) && Attributed(w, s.disk)
  }

  /** Every readable content is some process's. */
  predicate Attributed(w: World, disk: Disk) {
    forall n | 0 <= n < |disk.inodes| && disk.inodes[n].Whole? :: Known(w, disk.inodes[n].record.epoch)
  }

  predicate OpenLinked(s: Sys) {
    forall t | 0 <= t < |s.phases| && s.phases[t].Opened? :: s.phases[t].inode < |s.disk.inodes|
  }

  lemma NextKeepsLinks(w: World, s: Sys, a: Action)
    requires Linked(s.disk) && OpenLinked(s) && Next(w, s, a).Some?
    ensures Linked(Next(w, s, a).value.disk) && OpenLinked(Next(w, s, a).value)
  {
  }

  lemma NextKeepsAttributed(w: World, s: Sys, a: Action)
    requires AllGenuine(w, s) && Attributed(w, s.disk) && Next(w, s, a).Some?
    ensures Attributed(w, Next(w, s, a).value.disk)
  {
    var t := a.thread;
    assert GenuinePhase(s.phases[t], w.identity(w.owner[t]), s.findings);
    assert Known(w, w.identity(w.owner[t]));
    hide AllGenuine, Known;
  }

  lemma NextKeepsSound(w: World, s: Sys, a: Action)
    requires Sound(w, s) && Next(w, s, a).Some?
    ensures Sound(w, Next(w, s, a).value)
  {
    hide AllGenuine, Linked, OpenLinked, Attributed, Next;
    NextKeepsGenuine(w, s, a);
    NextKeepsLinks(w, s, a);
    NextKeepsAttributed(w, s, a);
  }

  lemma {:induction false} AlwaysSound(w: World, actions: seq<Action>)
    requires Exec(w, Start(w), actions).Some?
    ensures Sound(w, Exec(w, Start(w), actions).value)
  {
    if actions != [] {
      AlwaysSound(w, actions[..|actions| - 1]);
      hide Sound, Next;
      NextKeepsSound(w, Exec(w, Start(w), actions[..|actions| - 1]).value, actions[|actions| - 1]);
    }
  }

  // ---- what can still happen ---------------------------------------------------------------

  /** The name carries a readable record of another epoch. */
  predicate Foreign(disk: Disk, name: Option<nat>, epoch: Epoch) {
    name.Some? && name.value < |disk.inodes| && disk.inodes[name.value].Whole? && disk.inodes[name.value].record.epoch != epoch
  }

  /** Past its ownership test, and on its way to open the temporary file. */
  predicate Stirring(ph: Phase) {
    ph.Owned? || ph.Saving?
  }

  /** Inside the save of a beginning, past the opening of the temporary file. */
  predicate Claiming(ph: Phase) {
    (ph.Opened? || ph.Written?) && ph.claim
  }

  /** It has read a record of its own process and not tested yet whether it owns it. */
  predicate HasRead(ph: Phase, epoch: Epoch) {
    ph.Loaded? && ph.view.Present? && ph.view.record.epoch == epoch
  }

  /** The process has claimed its epoch, or a thread of it is about to. */
  ghost predicate Vouched(w: World, s: Sys, p: nat)
    requires |s.phases| == |w.owner|
  {
    p in s.active || exists u :: 0 <= u < |s.phases| && w.owner[u] == p && s.phases[u].Saved?
  }

  ghost predicate Claims(w: World, s: Sys, p: nat)
    requires |s.phases| == |w.owner|
  {
    exists u :: 0 <= u < |s.phases| && w.owner[u] == p && Claiming(s.phases[u])
  }

  /** A temporary file exists, or somebody can still create one. */
  ghost predicate TempToCome(w: World, s: Sys, q: nat, again: bool)
    requires |s.phases| == |w.owner|
  {
    || s.disk.temp.Some? || again || Vouched(w, s, q)
    || exists v :: 0 <= v < |s.phases| && Stirring(s.phases[v])
  }

  ghost predicate OthersStir(w: World, s: Sys, q: nat)
    requires |s.phases| == |w.owner|
  {
    exists t :: 0 <= t < |s.phases| && w.owner[t] != q && Stirring(s.phases[t])
  }

  predicate HoldsOpen(ph: Phase, disk: Disk) {
    ph.Opened? && (Some(ph.inode) == disk.target || Some(ph.inode) == disk.temp)
  }

  ghost predicate OthersHoldOpen(w: World, s: Sys, q: nat)
    requires |s.phases| == |w.owner|
  {
    exists t :: 0 <= t < |s.phases| && w.owner[t] != q && HoldsOpen(s.phases[t], s.disk)
  }

  /** A thread that will rename the temporary file without writing it first. */
  predicate MayRename(ph: Phase, disk: Disk) {
    ph.Written? || (ph.Opened? && Some(ph.inode) != disk.temp)
  }

  ghost predicate StrayTemp(w: World, s: Sys, q: nat) {
    Foreign(s.disk, s.disk.temp, w.identity(q)) && exists t :: 0 <= t < |s.phases| && MayRename(s.phases[t], s.disk)
  }

  /** The process has claimed its epoch, or can still come to. */
  ghost predicate CanOwn(w: World, s: Sys, q: nat, again: bool, p: nat)
    requires |s.phases| == |w.owner|
  {
    Vouched(w, s, p) || (Claims(w, s, p) && TempToCome(w, s, q, again))
  }

  /** A thread that has read its process's own record, and may find that the process owns it. */
  ghost predicate MayWake(w: World, s: Sys, q: nat, again: bool, t: nat)
    requires t < |s.phases| == |w.owner|
  {
    w.owner[t] != q && HasRead(s.phases[t], w.identity(w.owner[t])) && CanOwn(w, s, q, again, w.owner[t])
  }

  ghost predicate OthersMayWake(w: World, s: Sys, q: nat, again: bool)
    requires |s.phases| == |w.owner|
  {
    exists t :: 0 <= t < |s.phases| && MayWake(w, s, q, again, t)
  }

  ghost predicate Endangered(w: World, s: Sys, q: nat, again: bool)
    requires |s.phases| == |w.owner|
  {
    OthersStir(w, s, q) || OthersHoldOpen(w, s, q) || StrayTemp(w, s, q) || OthersMayWake(w, s, q, again)
  }

  /** Nobody begins, except q itself where it may begin again. */
  predicate Permitted(w: World, q: nat, again: bool, a: Action) {
    a.step.Begin? ==> again && a.thread < |w.owner| && w.owner[a.thread] == q
  }

  // ---- without danger, nothing foreign appears -----------------------------------------------

  ghost predicate Calm(w: World, s: Sys, q: nat, again: bool) {
    Sound(w, s) && !Foreign(s.disk, s.disk.target, w.identity(q)) && !Endangered(w, s, q, again)
  }

  /** No step but a beginning gives a process other than q a new way to own the file. */
  lemma CanOwnShrinks(w: World, s: Sys, q: nat, again: bool, a: Action, p: nat)
    requires |s.phases| == |w.owner| && !OthersStir(w, s, q) && Permitted(w, q, again, a) && Next(w, s, a).Some?
             && p != q
    requires a.step.Check? && w.owner[a.thread] == q && Next(w, s, a).value.phases[a.thread].Owned? ==> Vouched(w, s, q)
    requires a.step.Check? && w.owner[a.thread] != q ==> Next(w, s, a).value.phases[a.thread].Resting?
    requires CanOwn(w, Next(w, s, a).value, q, again, p)
    ensures CanOwn(w, s, q, again, p)
  {
    var s' := Next(w, s, a).value;
    var t := a.thread;
    assert Stirring(s.phases[t]) ==> w.owner[t] == q && TempToCome(w, s, q, again);
    assert Claiming(s.phases[t]) ==> Claims(w, s, w.owner[t]);
    assert s.phases[t].Saved? ==> Vouched(w, s, w.owner[t]);
    assert forall u | 0 <= u < |s.phases| && u != t :: s'.phases[u] == s.phases[u];
    assert Vouched(w, s', p) ==> Vouched(w, s, p) || (Claims(w, s, p) && s.disk.temp.Some?);
    assert Claims(w, s', p) ==> Claims(w, s, p);
    assert TempToCome(w, s', q, again) ==> TempToCome(w, s, q, again);
  }

  lemma CheckIsOwn(w: World, s: Sys, q: nat, again: bool, t: nat)
    requires DistinctIdentities(w) && Calm(w, s, q, again) && Next(w, s, Action(t, Check)).Some?
    ensures Next(w, s, Action(t, Check)).value.phases[t].Owned? ==> w.owner[t] == q && Vouched(w, s, q)
  {
    var s' := Next(w, s, Action(t, Check)).value;
    if s'.phases[t].Owned? {
      assert Vouched(w, s, w.owner[t]) && !MayWake(w, s, q, again, t);
    }
  }

  lemma WakeStays(w: World, s: Sys, q: nat, again: bool, a: Action)
    requires DistinctIdentities(w) && Calm(w, s, q, again) && Permitted(w, q, again, a) && Next(w, s, a).Some?
    ensures !OthersMayWake(w, Next(w, s, a).value, q, again)
  {
    var s' := Next(w, s, a).value;
    if a.step.Check? { CheckIsOwn(w, s, q, again, a.thread); }
    forall u | 0 <= u < |s.phases| ensures !MayWake(w, s', q, again, u) {
      assert !MayWake(w, s, q, again, u);
      if MayWake(w, s', q, again, u) {
        ReadBefore(w, s, q, a, u);
        CanOwnShrinks(w, s, q, again, a, w.owner[u]);
        assert false;
      }
    }
  }

  /** While the file holds nothing foreign, no other process newly reads a record of its own. */
  lemma ReadBefore(w: World, s: Sys, q: nat, a: Action, u: nat)
    requires DistinctIdentities(w) && |s.phases| == |w.owner| && !Foreign(s.disk, s.disk.target, w.identity(q))
    requires Next(w, s, a).Some? && u < |s.phases| && w.owner[u] != q
    requires HasRead(Next(w, s, a).value.phases[u], w.identity(w.owner[u]))
    ensures HasRead(s.phases[u], w.identity(w.owner[u]))
  {
  }

  lemma StirStays(w: World, s: Sys, q: nat, again: bool, a: Action)
    requires DistinctIdentities(w) && Calm(w, s, q, again) && Permitted(w, q, again, a) && Next(w, s, a).Some?
    ensures !OthersStir(w, Next(w, s, a).value, q)
  {
    if a.step.Check? { CheckIsOwn(w, s, q, again, a.thread); }
    assert Stirring(s.phases[a.thread]) ==> w.owner[a.thread] == q;
    hide AllGenuine, OthersMayWake, Known, OthersHoldOpen, StrayTemp;
  }

  lemma HoldsStay(w: World, s: Sys, q: nat, again: bool, a: Action)
    requires DistinctIdentities(w) && Calm(w, s, q, again) && Permitted(w, q, again, a) && Next(w, s, a).Some?
    ensures !OthersHoldOpen(w, Next(w, s, a).value, q)
  {
    assert Stirring(s.phases[a.thread]) ==> w.owner[a.thread] == q;
    assert forall u | 0 <= u < |s.phases| && w.owner[u] != q :: !HoldsOpen(s.phases[u], s.disk);
    hide AllGenuine, OthersMayWake, Known, OthersStir, StrayTemp, OthersHoldOpen;
    var s' := Next(w, s, a).value;
    forall u | 0 <= u < |s.phases| && w.owner[u] != q ensures !HoldsOpen(s'.phases[u], s'.disk) {}
    NobodyHolds(w, s', q);
  }

  lemma NobodyHolds(w: World, s: Sys, q: nat)
    requires |s.phases| == |w.owner|
    requires forall u | 0 <= u < |s.phases| && w.owner[u] != q :: !HoldsOpen(s.phases[u], s.disk)
    ensures !OthersHoldOpen(w, s, q)
  {
  }

  lemma TargetStays(w: World, s: Sys, q: nat, again: bool, a: Action)
    requires DistinctIdentities(w) && Calm(w, s, q, again) && Permitted(w, q, again, a) && Next(w, s, a).Some?
    ensures var s' := Next(w, s, a).value; !Foreign(s'.disk, s'.disk.target, w.identity(q))
  {
    var t := a.thread;
    assert GenuinePhase(s.phases[t], w.identity(w.owner[t]), s.findings);
    assert w.owner[t] != q ==> !HoldsOpen(s.phases[t], s.disk);
    assert s.phases[t].Written? ==> MayRename(s.phases[t], s.disk);
    hide AllGenuine, OthersMayWake, Known, OthersStir, OthersHoldOpen;
  }

  lemma TempStays(w: World, s: Sys, q: nat, again: bool, a: Action)
    requires DistinctIdentities(w) && Calm(w, s, q, again) && Permitted(w, q, again, a) && Next(w, s, a).Some?
    ensures !StrayTemp(w, Next(w, s, a).value, q)
  {
    var s' := Next(w, s, a).value;
    var t := a.thread;
    assert GenuinePhase(s.phases[t], w.identity(w.owner[t]), s.findings);
    assert w.owner[t] != q ==> !HoldsOpen(s.phases[t], s.disk);
    hide AllGenuine, OthersMayWake, Known, OthersStir, OthersHoldOpen;
    if Foreign(s'.disk, s'.disk.temp, w.identity(q)) {
      assert Foreign(s.disk, s.disk.temp, w.identity(q)) && s'.disk.temp == s.disk.temp;
      forall u | 0 <= u < |s.phases| ensures !MayRename(s'.phases[u], s'.disk) {
        assert !MayRename(s.phases[u], s.disk);
      }
    }
  }

  lemma CalmStays(w: World, s: Sys, q: nat, again: bool, a: Action)
    requires DistinctIdentities(w) && Calm(w, s, q, again) && Permitted(w, q, again, a) && Next(w, s, a).Some?
    ensures Calm(w, Next(w, s, a).value, q, again)
  {
    NextKeepsSound(w, s, a);
    TargetStays(w, s, q, again, a);
    StirStays(w, s, q, again, a);
    HoldsStay(w, s, q, again, a);
    TempStays(w, s, q, again, a);
    WakeStays(w, s, q, again, a);
    hide Sound, Foreign, OthersStir, OthersHoldOpen, StrayTemp, OthersMayWake, Next;
  }

  // ---- each danger comes true ------------------------------------------------------------------

  ghost predicate Leads(w: World, s: Sys, q: nat, again: bool, later: seq<Action>, s': Sys) {
    && (forall i | 0 <= i < |later| :: Permitted(w, q, again, later[i]))
    && Exec(w, s, later) == Some(s') && Foreign(s'.disk, s'.disk.target, w.identity(q))
  }

  /** Some run without a beginning puts another process's record in place. */
  ghost predicate Lost(w: World, s: Sys, q: nat, again: bool) {
    exists later: seq<Action>, s': Sys :: Leads(w, s, q, again, later, s')
  }

  lemma ForeignIsLost(w: World, s: Sys, q: nat, again: bool)
    requires Foreign(s.disk, s.disk.target, w.identity(q))
    ensures Lost(w, s, q, again)
  {
    assert Leads(w, s, q, again, [], s);
  }

  lemma StepToLost(w: World, s: Sys, q: nat, again: bool, a: Action)
    requires Permitted(w, q, again, a) && Next(w, s, a).Some? && Lost(w, Next(w, s, a).value, q, again)
    ensures Lost(w, s, q, again)
  {
    hide Next, Foreign, Permitted;
    var next := Next(w, s, a).value;
    var later: seq<Action>, s': Sys :| Leads(w, next, q, again, later, s');
    assert [a][..0] == [];
    assert Exec(w, s, [a]) == Some(next);
    ExecAppend(w, s, [a], later);
    hide Exec;
    assert forall i | 0 <= i < |later| :: ([a] + later)[i + 1] == later[i];
    assert Leads(w, s, q, again, [a] + later, s');
  }

  lemma RenameLoses(w: World, s: Sys, q: nat, again: bool, t: nat)
    requires t < |s.phases| == |w.owner| && s.phases[t].Written? && Foreign(s.disk, s.disk.temp, w.identity(q))
    ensures Lost(w, s, q, again)
  {
    var a := Action(t, Replace);
    ForeignIsLost(w, Next(w, s, a).value, q, again);
    hide Lost;
    StepToLost(w, s, q, again, a);
  }

  lemma WriteLoses(w: World, s: Sys, q: nat, again: bool, t: nat)
    requires t < |s.phases| == |w.owner| && s.phases[t].Opened? && s.phases[t].record.epoch != w.identity(q)
    requires HoldsOpen(s.phases[t], s.disk) && s.phases[t].inode < |s.disk.inodes|
    ensures Lost(w, s, q, again)
  {
    var a := Action(t, Write(true));
    var s' := Next(w, s, a).value;
    if Some(s.phases[t].inode) == s.disk.target {
      ForeignIsLost(w, s', q, again);
    } else {
      RenameLoses(w, s', q, again, t);
    }
    hide Lost;
    StepToLost(w, s, q, again, a);
  }

  lemma SavingLoses(w: World, s: Sys, q: nat, again: bool, t: nat)
    requires t < |s.phases| == |w.owner| && s.phases[t].Saving? && s.phases[t].record.epoch != w.identity(q)
             && Linked(s.disk)
    ensures Lost(w, s, q, again)
  {
    var a := Action(t, Open);
    WriteLoses(w, Next(w, s, a).value, q, again, t);
    hide Lost;
    StepToLost(w, s, q, again, a);
  }

  const PROBE := Probe(true, true, 0.0)

  lemma OwnedLoses(w: World, s: Sys, q: nat, again: bool, t: nat)
    requires t < |s.phases| == |w.owner| && s.phases[t].Owned? && s.phases[t].record.epoch != w.identity(q)
             && Linked(s.disk)
    ensures Lost(w, s, q, again)
  {
    var a := Action(t, Evaluate(PROBE));
    RefreshedIsCoherent(s.phases[t].record, PROBE);
    hide Refreshed;
    SavingLoses(w, Next(w, s, a).value, q, again, t);
    hide Lost;
    StepToLost(w, s, q, again, a);
  }

  lemma StrayLoses(w: World, s: Sys, q: nat, again: bool, t: nat)
    requires t < |s.phases| == |w.owner| && Foreign(s.disk, s.disk.temp, w.identity(q))
             && MayRename(s.phases[t], s.disk)
    ensures Lost(w, s, q, again)
  {
    if s.phases[t].Written? {
      RenameLoses(w, s, q, again, t);
    } else {
      var a := Action(t, Write(false));
      RenameLoses(w, Next(w, s, a).value, q, again, t);
      hide Lost;
      StepToLost(w, s, q, again, a);
    }
  }

  // ---- a thread that has read its own record ------------------------------------------------------

  ghost predicate Reader(w: World, s: Sys, q: nat, t: nat) {
    && t < |s.phases| == |w.owner| && w.owner[t] != q && w.identity(w.owner[t]) != w.identity(q)
    && HasRead(s.phases[t], w.identity(w.owner[t])) && Linked(s.disk)
  }

  lemma ActiveLoses(w: World, s: Sys, q: nat, again: bool, t: nat)
    requires Reader(w, s, q, t) && w.owner[t] in s.active
    ensures Lost(w, s, q, again)
  {
    var a := Action(t, Check);
    OwnedLoses(w, Next(w, s, a).value, q, again, t);
    hide Lost;
    StepToLost(w, s, q, again, a);
  }

  lemma SavedLoses(w: World, s: Sys, q: nat, again: bool, t: nat, u: nat)
    requires Reader(w, s, q, t) && u < |s.phases| && w.owner[u] == w.owner[t] && s.phases[u].Saved?
    ensures Lost(w, s, q, again)
  {
    var a := Action(u, Claim);
    ActiveLoses(w, Next(w, s, a).value, q, again, t);
    hide Lost;
    StepToLost(w, s, q, again, a);
  }

  /** A beginning of the reader's process, past the opening of the temporary file. */
  ghost predicate Pair(w: World, s: Sys, q: nat, t: nat, u: nat) {
    Reader(w, s, q, t) && u < |s.phases| && w.owner[u] == w.owner[t] && Claiming(s.phases[u])
  }

  lemma WrittenLoses(w: World, s: Sys, q: nat, again: bool, t: nat, u: nat)
    requires Pair(w, s, q, t, u) && s.phases[u].Written? && s.disk.temp.Some?
    ensures Lost(w, s, q, again)
  {
    var a := Action(u, Replace);
    SavedLoses(w, Next(w, s, a).value, q, again, t, u);
    hide Lost;
    StepToLost(w, s, q, again, a);
  }

  lemma ClaimingLoses(w: World, s: Sys, q: nat, again: bool, t: nat, u: nat)
    requires Pair(w, s, q, t, u) && s.disk.temp.Some?
    ensures Lost(w, s, q, again)
  {
    if s.phases[u].Written? {
      WrittenLoses(w, s, q, again, t, u);
    } else {
      var a := Action(u, Write(false));
      WrittenLoses(w, Next(w, s, a).value, q, again, t, u);
      hide Lost;
      StepToLost(w, s, q, again, a);
    }
  }

  lemma OpeningLoses(w: World, s: Sys, q: nat, again: bool, t: nat, u: nat, v: nat)
    requires Pair(w, s, q, t, u) && v < |s.phases| && s.phases[v].Saving?
    ensures Lost(w, s, q, again)
  {
    var a := Action(v, Open);
    ClaimingLoses(w, Next(w, s, a).value, q, again, t, u);
    hide Lost;
    StepToLost(w, s, q, again, a);
  }

  lemma StirringLoses(w: World, s: Sys, q: nat, again: bool, t: nat, u: nat, v: nat)
    requires Pair(w, s, q, t, u) && v < |s.phases| && Stirring(s.phases[v])
    ensures Lost(w, s, q, again)
  {
    if s.phases[v].Saving? {
      OpeningLoses(w, s, q, again, t, u, v);
    } else {
      var a := Action(v, Evaluate(PROBE));
      hide Refreshed;
      OpeningLoses(w, Next(w, s, a).value, q, again, t, u, v);
      hide Lost;
      StepToLost(w, s, q, again, a);
    }
  }

  lemma RestartLoses(w: World, s: Sys, q: nat, t: nat, u: nat, v: nat)
    requires Pair(w, s, q, t, u) && v < |s.phases| && w.owner[v] == q
    ensures Lost(w, s, q, true)
  {
    var a, b := Action(v, Fail), Action(v, Begin);
    var s1 := Next(w, s, a).value;
    OpeningLoses(w, Next(w, s1, b).value, q, true, t, u, v);
    hide Lost;
    StepToLost(w, s1, q, true, b);
    StepToLost(w, s, q, true, a);
  }

  /** The newest process reconciles once more, which creates the temporary file. */
  lemma RestingLoses(w: World, s: Sys, q: nat, again: bool, t: nat, u: nat, v: nat)
    requires Pair(w, s, q, t, u) && v < |s.phases| && w.owner[v] == q && s.phases[v].Resting? && q in s.active
    requires NamedBy(s.disk, s.disk.target, w.identity(q))
    ensures Lost(w, s, q, again)
  {
    var a, b := Action(v, Load), Action(v, Check);
    var s1 := Next(w, s, a).value;
    StirringLoses(w, Next(w, s1, b).value, q, again, t, u, v);
    hide Lost;
    StepToLost(w, s1, q, again, b);
    StepToLost(w, s, q, again, a);
  }

  lemma VouchedLoses(w: World, s: Sys, q: nat, again: bool, t: nat, u: nat, v: nat)
    requires Pair(w, s, q, t, u) && v < |s.phases| && w.owner[v] == q && (q in s.active || s.phases[v].Saved?)
    requires NamedBy(s.disk, s.disk.target, w.identity(q))
    ensures Lost(w, s, q, again)
  {
    var a := if q in s.active then Action(v, Fail) else Action(v, Claim);
    RestingLoses(w, Next(w, s, a).value, q, again, t, u, v);
    hide Lost;
    StepToLost(w, s, q, again, a);
  }

  lemma WakeLoses(w: World, s: Sys, q: nat, again: bool, t: nat)
    requires DistinctIdentities(w) && Sound(w, s) && NamedBy(s.disk, s.disk.target, w.identity(q))
    requires t < |s.phases| && MayWake(w, s, q, again, t)
    ensures Lost(w, s, q, again)
  {
    var v :| 0 <= v < |w.owner| && w.identity(w.owner[v]) == w.identity(q);
    hide Lost, Sound, NamedBy;
    var p := w.owner[t];
    if p in s.active {
      ActiveLoses(w, s, q, again, t);
    } else if u :| 0 <= u < |s.phases| && w.owner[u] == p && s.phases[u].Saved? {
      SavedLoses(w, s, q, again, t, u);
    } else {
      var u :| 0 <= u < |s.phases| && w.owner[u] == p && Claiming(s.phases[u]);
      TempComesAndLoses(w, s, q, again, t, u, v);
    }
  }

  lemma TempComesAndLoses(w: World, s: Sys, q: nat, again: bool, t: nat, u: nat, v: nat)
    requires Pair(w, s, q, t, u) && v < |s.phases| && w.owner[v] == q
    requires NamedBy(s.disk, s.disk.target, w.identity(q)) && TempToCome(w, s, q, again)
    ensures Lost(w, s, q, again)
  {
    hide Lost, NamedBy;
    if s.disk.temp.Some? {
      ClaimingLoses(w, s, q, again, t, u);
    } else if again {
      RestartLoses(w, s, q, t, u, v);
    } else if q in s.active {
      VouchedLoses(w, s, q, again, t, u, v);
    } else if x :| 0 <= x < |s.phases| && w.owner[x] == q && s.phases[x].Saved? {
      VouchedLoses(w, s, q, again, t, u, x);
    } else {
      var x :| 0 <= x < |s.phases| && Stirring(s.phases[x]);
      StirringLoses(w, s, q, again, t, u, x);
    }
  }

  lemma EndangeredIsLost(w: World, s: Sys, q: nat, again: bool)
    requires DistinctIdentities(w) && Sound(w, s) && NamedBy(s.disk, s.disk.target, w.identity(q))
             && Endangered(w, s, q, again)
    ensures Lost(w, s, q, again)
  {
    assert forall t | 0 <= t < |s.phases| :: GenuinePhase(s.phases[t], w.identity(w.owner[t]), s.findings);
    if OthersStir(w, s, q) {
      var t :| 0 <= t < |s.phases| && w.owner[t] != q && Stirring(s.phases[t]);
      hide Lost;
      if s.phases[t].Owned? { OwnedLoses(w, s, q, again, t); } else { SavingLoses(w, s, q, again, t); }
    } else if OthersHoldOpen(w, s, q) {
      var t :| 0 <= t < |s.phases| && w.owner[t] != q && HoldsOpen(s.phases[t], s.disk);
      hide Lost;
      WriteLoses(w, s, q, again, t);
    } else if StrayTemp(w, s, q) {
      var t :| 0 <= t < |s.phases| && MayRename(s.phases[t], s.disk);
      hide Lost;
      StrayLoses(w, s, q, again, t);
    } else {
      var t :| 0 <= t < |s.phases| && MayWake(w, s, q, again, t);
      hide *;
      WakeLoses(w, s, q, again, t);
    }
  }

  // ---- exactly ----------------------------------------------------------------------------------

  lemma {:induction false} CalmForever(w: World, s: Sys, q: nat, again: bool, later: seq<Action>)
    requires DistinctIdentities(w) && Calm(w, s, q, again) && Exec(w, s, later).Some?
    requires forall i | 0 <= i < |later| :: Permitted(w, q, again, later[i])
    ensures Calm(w, Exec(w, s, later).value, q, again)
  {
    hide Calm, Next, Permitted, DistinctIdentities;
    if later != [] {
      var init := later[..|later| - 1];
      assert forall i | 0 <= i < |init| :: init[i] == later[i];
      CalmForever(w, s, q, again, init);
      CalmStays(w, Exec(w, s, init).value, q, again, later[|later| - 1]);
    }
  }

  /** A takeover by q, in any reachable state in which the file holds q's record, is final exactly when it is not endangered:
      some run in which nobody begins (or only q begins again) puts another process's record in its place if and only if
      another process's thread is past its ownership test, or holds open a file that has a name; or the temporary name
      carries a foreign record that some thread may rename; or another process's thread has read its own record and its
      process has claimed its epoch or still can. */
  lemma TakeoverIsLostIff(w: World, run: seq<Action>, s: Sys, q: nat, again: bool)
    requires DistinctIdentities(w) && Reaches(w, run, s) && NamedBy(s.disk, s.disk.target, w.identity(q))
    ensures |s.phases| == |w.owner|
    ensures Lost(w, s, q, again) <==> Endangered(w, s, q, again)
  {
    AlwaysSound(w, run);
    assert !Foreign(s.disk, s.disk.target, w.identity(q));
    if Endangered(w, s, q, again) {
      hide *;
      EndangeredIsLost(w, s, q, again);
    } else {
      assert Calm(w, s, q, again);
      hide Exec, Endangered, Sound, Foreign, DistinctIdentities, Permitted, NamedBy;
      forall later: seq<Action>, s': Sys ensures !Leads(w, s, q, again, later, s') {
        if Leads(w, s, q, again, later, s') { CalmForever(w, s, q, again, later); }
      }
    }
  }

  /** After a takeover that is not endangered, no other process admits a message until one begins, even if q begins again. */
  lemma FinalTakeoverShutsOutOthers(w: World, run: seq<Action>, s: Sys, q: nat, later: seq<Action>, p: nat,
                                    occurredAt: Option<real>)
    requires DistinctIdentities(w) && Reaches(w, run, s) && NamedBy(s.disk, s.disk.target, w.identity(q)) && p != q
    requires |s.phases| == |w.owner| && !Endangered(w, s, q, true)
    requires (forall i | 0 <= i < |later| :: Permitted(w, q, true, later[i])) && Exec(w, s, later).Some?
    ensures !VerdictOf(w, Exec(w, s, later).value, p, occurredAt).admitted
  {
    var s' := Exec(w, s, later).value;
    TakeoverIsLostIff(w, run, s, q, true);
    assert !Leads(w, s, q, true, later, s');
    hide Exec, Endangered, Permitted;
  }
}
