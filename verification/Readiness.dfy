/** Gateway readiness: the record, what one reconciliation writes, and which messages it lets in. */
module Readiness {
  import opened Wrappers

  datatype Epoch = Epoch(id: string, pid: int, startedAt: string)

  datatype BundleState = NOT_READY | READY | DEGRADED

  datatype Record = Record(epoch: Epoch, readyAt: Option<real>, state: BundleState, coreReady: bool, owReady: bool)

  /** What a reader finds at the readiness path. */
  datatype View = Missing | Corrupt | Present(record: Record)

  datatype Probe = Probe(core: bool, window: bool, now: real)

  datatype Status = LIVE | DISABLED | UNREADY | BACKLOG

  datatype Verdict = Verdict(admitted: bool, status: Status)

  function FreshRecord(epoch: Epoch): Record {
    Record(epoch, None, NOT_READY, false, false)
  }

  /** The stand-ins for a missing or unreadable file carry no process id, so they belong to nobody. */
  predicate Owns(active: Option<Epoch>, view: View) {
    active.Some? && view.Present? && view.record.epoch == active.value
  }

  /** The record after one evaluation, kept from the loaded one except for what the probe decides. */
  function Refreshed(r: Record, probe: Probe): Record {
    if probe.core then
      r.(coreReady := true, owReady := probe.window, readyAt := if r.readyAt.None? then Some(probe.now) else r.readyAt,
         state := if probe.window then READY else DEGRADED)
    else
      r.(coreReady := false, owReady := probe.window, readyAt := None, state := NOT_READY)
  }

  /** The gate in front of a turn: profile and enabling first, then ownership, readiness and backlog. */
  function Admission(xiyue: bool, enabled: bool, active: Option<Epoch>, view: View, occurredAt: Option<real>): Verdict {
    if !xiyue then Verdict(true, LIVE)
    else if !enabled then Verdict(true, DISABLED)
    else if !Owns(active, view) then Verdict(false, UNREADY)
    else if !view.record.coreReady then Verdict(false, UNREADY)
    else if view.record.readyAt.Some? && occurredAt.Some? && occurredAt.value < view.record.readyAt.value then Verdict(false, BACKLOG)
    else Verdict(true, LIVE)
  }

  /** Core readiness, a ready time, and a ready or degraded bundle are one fact. */
  predicate Coherent(r: Record) {
    && (r.coreReady <==> r.readyAt.Some?)
    && (r.coreReady <==> r.state.READY? || r.state.DEGRADED?)
    && (r.coreReady ==> (r.state.READY? <==> r.owReady))
  }

  lemma RefreshedIsCoherent(r: Record, probe: Probe)
    ensures Coherent(Refreshed(r, probe)) && Refreshed(r, probe).epoch == r.epoch
    ensures Refreshed(r, probe).coreReady == probe.core && Refreshed(r, probe).owReady == probe.window
    ensures Refreshed(r, probe).state == NOT_READY <==> !probe.core
    ensures Refreshed(r, probe).state == READY <==> probe.core && probe.window
    ensures Refreshed(r, probe).readyAt == if !probe.core then None else if r.readyAt.Some? then r.readyAt else Some(probe.now)
  {
  }

  /** A new epoch is ready in no respect. */
  lemma FreshIsUnready(epoch: Epoch)
    ensures var r := FreshRecord(epoch);
            && Coherent(r) && r.epoch == epoch && r.readyAt.None? && !r.coreReady && !r.owReady && r.state == NOT_READY
  {
  }

  // ---- one process with the file to itself ---------------------------------------------

  class ReadinessFile {
    var temp: Option<Record>
    var target: View

    constructor ()
      ensures temp == None && target == Missing
    {
      temp, target := None, Missing;
    }

    method Save(r: Record)
      modifies this
      ensures target == Present(r) && temp == None
    {
      temp := Some(r);
      target := Present(temp.value);
      temp := None;
    }
  }

  /** A run of reconciliations over one record. */
  function Reconciled(r: Record, probes: seq<Probe>): Record {
    if probes == [] then r else Refreshed(Reconciled(r, probes[..|probes| - 1]), probes[|probes| - 1])
  }

  class GatewayProcess {
    const identity: Epoch
    const file: ReadinessFile
    var active: Option<Epoch>

    constructor (identity: Epoch, file: ReadinessFile)
      ensures this.identity == identity && this.file == file && active == None
    {
      this.identity, this.file, active := identity, file, None;
    }

    /** The epoch is claimed only after its first record is on disk. */
    method BeginRuntimeEpoch() returns (r: Record)
      modifies this`active, file
      ensures r == FreshRecord(identity) && file.target == Present(r) && active == Some(identity)
    {
      r := FreshRecord(identity);
      file.Save(r);
      active := Some(identity);
    }

    method MarkRuntimeReady(probe: Probe) returns (view: View)
      modifies file
      ensures file.target == view
      ensures view == if Owns(active, old(file.target)) then Present(Refreshed(old(file.target).record, probe)) else old(file.target)
      ensures !Owns(active, old(file.target)) ==> file.temp == old(file.temp)
    {
      view := file.target;
      if !Owns(active, view) { return; }
      var current := view.record;
      current := current.(coreReady := probe.core);
      current := current.(owReady := probe.window);
      if probe.core {
        if current.readyAt.None? { current := current.(readyAt := Some(probe.now)); }
        current := current.(state := if probe.window then READY else DEGRADED);
      } else {
        current := current.(readyAt := None);
        current := current.(state := NOT_READY);
      }
      file.Save(current);
      view := Present(current);
    }

    /** The reconciliation loop, one probe a round, until it is stopped or finds the file is not its own. */
    method Reconcile(probes: seq<Probe>)
      modifies file
      ensures file.target == if Owns(active, old(file.target)) then Present(Reconciled(old(file.target).record, probes))
                             else old(file.target)
    {
      var i := 0;
      while i < |probes|
        invariant i <= |probes|
        invariant file.target == if Owns(active, old(file.target)) then Present(Reconciled(old(file.target).record, probes[..i]))
                                 else old(file.target)
        invariant Owns(active, old(file.target)) ==> Owns(active, file.target)
      {
        if !Owns(active, file.target) { return; }
        var _ := MarkRuntimeReady(probes[i]);
        assert probes[..i + 1][..i] == probes[..i];
        if Owns(active, old(file.target)) { RefreshedIsCoherent(Reconciled(old(file.target).record, probes[..i]), probes[i]); }
        i := i + 1;
      }
      assert probes[..i] == probes;
    }
  }

  /** How many of the last rounds were core-ready without a break. */
  function Streak(probes: seq<Probe>): nat {
    if probes == [] || !probes[|probes| - 1].core then 0 else 1 + Streak(probes[..|probes| - 1])
  }

  lemma {:induction false} StreakBound(probes: seq<Probe>)
    ensures Streak(probes) <= |probes|
  {
    if probes != [] { StreakBound(probes[..|probes| - 1]); }
  }

  /** After any rounds, the ready time is the first probe of the current unbroken run of core-ready rounds, and there is
      none exactly when the last round found the core not ready. */
  lemma {:induction false} ReadySinceTheStreakBegan(epoch: Epoch, probes: seq<Probe>)
    ensures Streak(probes) <= |probes|
    ensures Reconciled(FreshRecord(epoch), probes).readyAt
            == if Streak(probes) == 0 then None else Some(probes[|probes| - Streak(probes)].now)
    ensures Reconciled(FreshRecord(epoch), probes).coreReady <==> Streak(probes) > 0
  {
    StreakBound(probes);
    if probes != [] {
      var init := probes[..|probes| - 1];
      ReadySinceTheStreakBegan(epoch, init);
      StreakBound(init);
    }
  }
}
