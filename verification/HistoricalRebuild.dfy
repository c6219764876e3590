/** The rebuild as it runs: one object whose methods update its state, save the checkpoint file and call MR-Mem and
    the worker. Every method performs a schedule of the state machine, so what the machine keeps, the object keeps. */
module HistoricalRebuilds {
  import opened Wrappers
  import opened Keyset
  import opened SourceCurator
  import opened SourceIterator
  import opened ContextAssembler
  import opened RebuildMachine
  import opened RebuildTheorems

  /** The checkpoint file: a save writes a temporary file and then replaces the durable one in a single step. */
  class CheckpointFile {
    var durable: Checkpoint
    var temporary: Option<Checkpoint>

    constructor (state: Checkpoint)
      ensures durable == state
    {
      durable := state;
      temporary := None;
    }

    /** `reachesReplace` is the disk's answer: whether the process gets as far as the replacement. */
    method Save(state: Checkpoint, reachesReplace: bool) returns (ok: bool)
      modifies this
      ensures ok == reachesReplace
      ensures durable == if ok then state else old(durable)
    {
      temporary := Some(state);
      if !reachesReplace { return false; }
      durable := temporary.value;
      temporary := None;
      return true;
    }

    method Load() returns (state: Checkpoint)
      ensures state == durable
    {
      return durable;
    }
  }

  datatype Outcome = Done(count: nat) | Raised

  lemma ExecAppend(w: World, schedule: seq<Action>, s: Sys, a: Action, s': Sys)
    requires Reached(w, schedule, s) && Step(w, s, a) == Some(s')
    ensures Reached(w, schedule + [a], s')
  {
    assert (schedule + [a])[..|schedule|] == schedule;
  }

  lemma ComposeEnabled(w: World, s: Sys, source: Source, t: nat)
    requires s.pc.Composing? && Upcoming(w.raw, s.mem.cursor) == Some(source)
    ensures var next := ComposeWith(s, source, Composed(w, source, s.memory, t));
            Step(w, s, Action.Compose(t)) == Some(next) && next.disk == s.disk && next.memory == s.memory
  {
    hide Upcoming, Composed;
  }

  /** One source further: counted under its disposition and no other, a deferred receipt also as deferred. */
  predicate Advanced(before: Checkpoint, after: Checkpoint, source: Source, memory: Memory) {
    && after.cursor == Some(source.key)
    && after.compiled == before.compiled + (if Disposed(source) == Disposition.Compile then 1 else 0)
    && after.contextual == before.contextual + (if Disposed(source) == ContextOnly then 1 else 0)
    && after.ignored == before.ignored + (if Disposed(source) == Ignore then 1 else 0)
    && (Disposed(source) == Disposition.Compile ==> source.key in memory)
    && after.deferred == before.deferred
                         + (if Disposed(source) == Disposition.Compile && memory[source.key].deferred then 1 else 0)
  }

  class HistoricalRebuild {
    const w: World
    const sources: HistoricalSourceIterator
    const file: CheckpointFile
    var state: Checkpoint
    var memory: Memory
    var tick: nat
    ghost var schedule: seq<Action>
    ghost var sys: Sys

    /** The object mirrors a reached state of the machine, apart from `state` itself. */
    ghost predicate Live()
      reads this, file
    {
      && sources.raw == w.raw
      && Reached(w, schedule, sys)
      && file.durable == sys.disk
      && memory == sys.memory
    }

    /** Between runs the state in memory is mirrored too. */
    ghost predicate Valid()
      reads this, file
    {
      Live() && sys.pc.Idle? && state == sys.mem
    }

    /** A fresh rebuild saves its empty checkpoint before anything else. */
    constructor (w: World)
      ensures Valid() && fresh(file) && fresh(sources)
      ensures this.w == w && state == FRESH && memory == map[] && sys == START && schedule == []
    {
      this.w := w;
      sources := new HistoricalSourceIterator(w.raw);
      file := new CheckpointFile(FRESH);
      state := FRESH;
      memory := map[];
      tick := 0;
      schedule := [];
      sys := START;
    }

    /** A new process over the same root: whatever was only in memory is gone. */
    method Resume()
      requires Live()
      modifies this
      ensures Valid() && state == file.durable && memory == old(memory) && schedule == old(schedule) + [Crash]
    {
      state := file.Load();
      Do(Crash, CrashStep(sys));
    }

    ghost method Do(a: Action, next: Sys)
      requires Reached(w, schedule, sys) && Step(w, sys, a) == Some(next)
      modifies this`schedule, this`sys
      ensures Reached(w, schedule, sys) && sys == next && schedule == old(schedule) + [a]
    {
      ExecAppend(w, schedule, sys, a, next);
      schedule := schedule + [a];
      sys := next;
    }

    /** One checkpoint save at a program point that has one. */
    method Persist(ghost source: Source, ghost next: Pc) returns (ok: bool)
      requires Live() && state == sys.mem
      requires Step(w, sys, Save(tick)) == Some(SaveStep(w, sys, source, next, tick))
      modifies this`tick, this`schedule, this`sys, file
      ensures Live() && ok == w.save(old(tick)) && old(schedule) <= schedule
      ensures sys == SaveStep(w, old(sys), source, next, old(tick))
    {
      hide Exec, Step;
      var t := tick;
      tick := tick + 1;
      ok := file.Save(state, w.save(t));
      Do(Save(t), SaveStep(w, sys, source, next, t));
    }

    /** Selection callback and context assembly. */
    method Compose(source: Source) returns (context: Option<Context>)
      requires Live() && state == sys.mem && sys.pc.Composing? && Upcoming(w.raw, state.cursor) == Some(source)
      modifies this`tick, this`schedule, this`sys
      ensures Live() && old(schedule) <= schedule
      ensures context == Composed(w, source, memory, old(tick)) && sys == ComposeWith(old(sys), source, context)
    {
      hide Exec, Upcoming, Assemble, Step, ComposeWith;
      var t := tick;
      tick := tick + 1;
      ComposeEnabled(w, sys, source, t);
      var selection := w.select(source, memory, t);
      context := None;
      if selection.Some? {
        context := AssembleContext(w.raw, memory, w.bounds, source, selection.value);
      }
      Do(Action.Compose(t), ComposeWith(sys, source, context));
    }

    /** One external worker call; its answer is kept in the pending record. */
    method CallWorker(source: Source, context: Context) returns (ok: bool)
      requires Live() && state == sys.mem && sys.pc == Calling(context) && Upcoming(w.raw, state.cursor) == Some(source)
      requires state.pending.Some?
      modifies this`tick, this`state, this`schedule, this`sys
      ensures Live() && old(schedule) <= schedule && sys == WorkStep(w, old(sys), source, context, old(tick))
      ensures ok ==> state == sys.mem && sys.pc.Answered? && state.pending.Some? && state.pending.value.payload.Some?
                     && OnlyPendingMoved(old(state)) && sys.faults == old(sys.faults)
      ensures !ok ==> state == old(state) && Failed(old(sys.faults), source)
    {
      hide Exec, Upcoming;
      var t := tick;
      tick := tick + 1;
      var payload := w.worker(context, t);
      Do(Work(t), WorkStep(w, sys, source, context, t));
      if payload.None? { return false; }
      state := state.(pending := Some(state.pending.value.(payload := payload)));
      return true;
    }

    /** An exception has been raised for this source and its reference is about to be recorded. */
    ghost predicate Failed(faults: nat, source: Source)
      reads this
    {
      sys.pc == Failing(source) && sys.mem == state.(failure := Some(KeyOfRef(source.ref))) && sys.faults == faults + 1
    }

    predicate OnlyPendingMoved(before: Checkpoint)
      reads this
    {
      state == before.(pending := state.pending)
    }

    /** The answer is durable and admission may start; only the tick and the pending answer have moved. */
    ghost predicate AnswerReady(before: Checkpoint, faults: nat)
      reads this
    {
      state == sys.mem && sys.pc.Admitting? && state.pending.Some? && state.pending.value.payload.Some?
      && OnlyPendingMoved(before) && sys.faults == faults
    }

    /** First attempt: compose, save the proposal, call the worker, save the answer. */
    method ProposeAnswer(source: Source) returns (ok: bool)
      requires Live() && state == sys.mem && Upcoming(w.raw, state.cursor) == Some(source)
      requires state.pending.None? && sys.pc.Composing?
      modifies this`state, this`tick, this`schedule, this`sys, file
      ensures Live() && old(schedule) <= schedule
      ensures if ok then AnswerReady(old(state), old(sys.faults)) else Failed(old(sys.faults), source)
    {
      hide Exec, Upcoming, Composed, WorkStep;
      var context := Compose(source);
      if context.None? { return false; }
      state := state.(pending := Some(Pending(source.ref, None, context.value, context.value.activated)));
      var saved := Persist(source, Calling(context.value));
      if !saved { return false; }
      hide ComposeWith;
      ok := FinishAnswer(source, context.value);
    }

    /** Retry of a durable proposal without an answer: recompose, refuse a changed selection or context, call again. */
    method RetryAnswer(source: Source) returns (ok: bool)
      requires Live() && state == sys.mem && Upcoming(w.raw, state.cursor) == Some(source)
      requires state.pending.Some? && state.pending.value.payload.None? && sys.pc.Composing?
      modifies this`state, this`tick, this`schedule, this`sys, file
      ensures Live() && old(schedule) <= schedule
      ensures if ok then AnswerReady(old(state), old(sys.faults)) else Failed(old(sys.faults), source)
    {
      hide Exec, Upcoming, Composed, WorkStep;
      var context := Compose(source);
      if context.None? { return false; }
      if context.value.activated != state.pending.value.activated { return false; }
      if context.value != state.pending.value.prompt { return false; }
      ok := FinishAnswer(source, context.value);
    }

    /** The worker call and the save that makes its answer durable. */
    method FinishAnswer(source: Source, context: Context) returns (ok: bool)
      requires Live() && state == sys.mem && sys.pc == Calling(context) && Upcoming(w.raw, state.cursor) == Some(source)
      requires state.pending.Some?
      modifies this`state, this`tick, this`schedule, this`sys, file
      ensures Live() && old(schedule) <= schedule
      ensures if ok then AnswerReady(old(state), old(sys.faults)) else Failed(old(sys.faults), source)
    {
      hide Exec, Upcoming, WorkStep;
      ok := CallWorker(source, context);
      if ok { ok := Persist(source, Admitting); }
    }

    /** Admission of the durable answer, counted with its receipt. */
    method AdmitAnswer(source: Source) returns (receipt: Option<Receipt>)
      requires Live() && state == sys.mem && sys.pc.Admitting? && Upcoming(w.raw, state.cursor) == Some(source)
      requires state.pending.Some? && state.pending.value.payload.Some?
      modifies this`tick, this`memory, this`schedule, this`sys
      ensures Live() && old(schedule) <= schedule && AdmitStep(w, old(sys), source, old(tick)) == Some(sys)
      ensures receipt.Some? ==>
                && state == sys.mem && sys.pc == Admitted(receipt.value) && sys.faults == old(sys.faults)
                && source.key in memory && memory[source.key] == receipt.value
      ensures receipt.None? ==> Failed(old(sys.faults), source)
    {
      hide Exec, Upcoming;
      var t := tick;
      tick := tick + 1;
      var pending := state.pending.value;
      var answer := w.admit(pending.payload.value, source, pending.activated, memory, t);
      Do(Admit(t), AdmitStep(w, sys, source, t).value);
      if !answer.Rejected? { memory := memory[source.key := answer.receipt]; }
      return if answer.Accepted? then Some(answer.receipt) else None;
    }

    /** The receipt of a source: replayed if it exists, otherwise obtained and admitted. */
    method ObtainReceipt(source: Source) returns (receipt: Option<Receipt>)
      requires Live() && state == sys.mem && Upcoming(w.raw, state.cursor) == Some(source)
      requires if source.key in memory then sys.pc == Admitted(memory[source.key])
               else if state.pending.Some? && state.pending.value.payload.Some? then sys.pc.Admitting? else sys.pc.Composing?
      modifies this, file
      ensures Live() && old(schedule) <= schedule
      ensures receipt.Some? ==>
                && state == sys.mem && sys.pc == Admitted(receipt.value) && OnlyPendingMoved(old(state))
                && sys.faults == old(sys.faults) && source.key in memory && memory[source.key] == receipt.value
      ensures receipt.None? ==> Failed(old(sys.faults), source)
    {
      hide Exec, Upcoming, AdmitStep;
      if source.key in memory { return Some(memory[source.key]); }
      var ready := true;
      if state.pending.None? {
        ready := ProposeAnswer(source);
      } else if state.pending.value.payload.None? {
        ready := RetryAnswer(source);
      }
      if !ready { return None; }
      receipt := AdmitAnswer(source);
    }

    /** The binding, the drift guard and the receipt lookup that open `_compile`. */
    method Open(source: Source) returns (ok: bool)
      requires Live() && state == sys.mem && sys.pc.Top?
      requires Upcoming(w.raw, state.cursor) == Some(source) && Disposed(source) == Disposition.Compile
      modifies this`tick, this`schedule, this`sys, sources
      ensures Live() && old(schedule) <= schedule && sys == BeginStep(w, old(sys), source, old(tick))
      ensures !ok ==> sys == Fail(old(sys), source)
      ensures ok ==> state == sys.mem && sys.faults == old(sys.faults)
                     && if source.key in memory then sys.pc == Admitted(memory[source.key])
                        else if state.pending.Some? && state.pending.value.payload.Some? then sys.pc.Admitting? else sys.pc.Composing?
    {
      hide Exec, Upcoming, Sources, Disposed;
      var t := tick;
      tick := tick + 1;
      var bound := sources.Bind(source);
      Do(Begin(t), BeginStep(w, sys, source, t));
      if !bound { return false; }
      if state.pending.Some? && state.pending.value.binding != source.ref { return false; }
      return w.lookup(t);
    }

    /** `_compile`: an accepted source is replayed from its receipt; otherwise its answer is obtained and admitted. */
    method Compile(source: Source) returns (ok: bool)
      requires Live() && state == sys.mem && sys.pc.Top?
      requires Upcoming(w.raw, state.cursor) == Some(source) && Disposed(source) == Disposition.Compile
      modifies this, file, sources
      ensures Live() && old(schedule) <= schedule
      ensures ok ==>
                && sys.pc.Admitted?
                && state == sys.mem.(compiled := sys.mem.compiled + 1, deferred := sys.mem.deferred + (if sys.pc.receipt.deferred then 1 else 0))
                && source.key in memory && memory[source.key] == sys.pc.receipt
                && state == old(state).(pending := state.pending, compiled := old(state).compiled + 1,
                                        deferred := old(state).deferred + (if sys.pc.receipt.deferred then 1 else 0))
                && sys.faults == old(sys.faults)
      ensures !ok ==> Failed(old(sys.faults), source)
    {
      hide Exec, Upcoming, BeginStep;
      ok := Open(source);
      if !ok { return false; }
      var receipt := ObtainReceipt(source);
      if receipt.None? { return false; }
      state := state.(compiled := state.compiled + 1, deferred := state.deferred + (if receipt.value.deferred then 1 else 0));
    }

    /** CONTEXT_ONLY and IGNORE sources are only counted; no external call is made for them. */
    method Count(source: Source)
      requires Live() && state == sys.mem && sys.pc.Top?
      requires Upcoming(w.raw, state.cursor) == Some(source) && Disposed(source) != Disposition.Compile
      modifies this`state, this`tick, this`schedule, this`sys
      ensures Live() && old(schedule) <= schedule && sys.faults == old(sys.faults)
      ensures sys.pc == Settled(source) && sys.mem == Passed(state, source) && memory == old(memory)
      ensures state == if Disposed(source) == ContextOnly then old(state).(contextual := old(state).contextual + 1)
                       else old(state).(ignored := old(state).ignored + 1)
    {
      hide Exec, Upcoming;
      var t := tick;
      tick := tick + 1;
      Do(Begin(t), BeginStep(w, sys, source, t));
      if Disposed(source) == ContextOnly {
        state := state.(contextual := state.contextual + 1);
      } else {
        state := state.(ignored := state.ignored + 1);
      }
    }

    /** The handler: record which source failed and try to save, whatever the outcome. */
    method RecordFailure(source: Source)
      requires Live() && sys.pc == Failing(source) && sys.mem == state.(failure := Some(KeyOfRef(source.ref)))
      modifies this`state, this`tick, this`schedule, this`sys, file
      ensures Live() && state == sys.mem && old(schedule) <= schedule
      ensures sys == HandlerStep(w, old(sys), old(tick))
      ensures state == old(state).(failure := Some(KeyOfRef(source.ref)))
    {
      hide Exec;
      state := state.(failure := Some(KeyOfRef(source.ref)));
      var t := tick;
      tick := tick + 1;
      var saved := file.Save(state, w.save(t));
      Do(Save(t), HandlerStep(w, sys, t));
    }

    /** What the loop does for one source, up to the exception, if one is raised. */
    method TryOne(source: Source) returns (ok: bool)
      requires Live() && state == sys.mem && sys.pc.Top? && Upcoming(w.raw, state.cursor) == Some(source)
      modifies this, file, sources
      ensures Live() && old(schedule) <= schedule
      ensures ok ==> sys.pc.Top? && state == sys.mem && state == file.durable && sys.faults == old(sys.faults)
      ensures ok ==> state.failure.None? && state.pending.None? && state.lastRef == Some(source.ref)
      ensures ok ==> Advanced(old(state), state, source, memory)
      ensures !ok ==> Failed(old(sys.faults), source)
    {
      hide Exec, Upcoming, Disposed;
      if Disposed(source) == Disposition.Compile {
        ok := Compile(source);
        if !ok { return false; }
        Do(Advance, AdvanceStep(sys, source, sys.pc.receipt));
      } else {
        Count(source);
      }
      state := Passed(state, source);
      ok := Persist(source, Top);
    }

    /** The body of the loop for one source, including the handler that records a failure. */
    method Process(source: Source) returns (ok: bool)
      requires Live() && state == sys.mem && sys.pc.Top? && Upcoming(w.raw, state.cursor) == Some(source)
      modifies this, file, sources
      ensures Live() && state == sys.mem && old(schedule) <= schedule
      ensures ok ==> sys.pc.Top? && state == file.durable && sys.faults == old(sys.faults)
      ensures ok ==> state.failure.None? && state.pending.None? && state.lastRef == Some(source.ref)
      ensures ok ==> Advanced(old(state), state, source, memory)
      ensures !ok ==> sys.pc.Idle? && sys.faults > old(sys.faults) && state.failure == Some(KeyOfRef(source.ref))
    {
      hide Exec, Upcoming, Disposed;
      ok := TryOne(source);
      if !ok { RecordFailure(source); }
    }

    /** `run`: walk the sources past the cursor, at most `limit` of them. It raises exactly when some answer failed; if
        it does not, it has processed the limit or exhausted the sources, and every processed source is durable. */
    method Run(limit: Option<nat>) returns (outcome: Outcome)
      requires Valid()
      modifies this, file, sources
      ensures Valid() && old(schedule) <= schedule
      ensures outcome.Raised? <==> sys.faults > old(sys.faults)
      ensures outcome.Done? ==>
                && (Drained(w, sys) || limit == Some(outcome.count))
                && (limit.Some? ==> outcome.count <= limit.value)
                && Ahead(w.raw, old(state).cursor) == outcome.count + Ahead(w.raw, state.cursor)
                && (outcome.count > 0 ==> state == file.durable && state.failure.None? && state.pending.None?)
    {
      hide Exec, Sources, Ahead;
      Do(Enter, sys.(pc := Top, dirty := sys.dirty || sys.mem != sys.disk));
      var count := 0;
      var next := Upcoming(w.raw, state.cursor);
      hide Upcoming;
      while next.Some? && (limit.None? || count < limit.value)
        invariant Live() && sys.pc.Top? && state == sys.mem && sys.faults == old(sys.faults)
                  && old(schedule) <= schedule
        invariant next == Upcoming(w.raw, state.cursor)
        invariant limit.Some? ==> count <= limit.value
        invariant Ahead(w.raw, old(state).cursor) == count + Ahead(w.raw, state.cursor)
        invariant count > 0 ==> state == file.durable && state.failure.None? && state.pending.None?
        decreases Ahead(w.raw, state.cursor)
      {
        PassOne(w.raw, state.cursor);
        var ok := Process(next.value);
        if !ok { return Raised; }
        count := count + 1;
        next := Upcoming(w.raw, state.cursor);
      }
      Do(Leave, sys.(pc := Idle));
      return Done(count);
    }
  }

  /** Number of sources past a cursor. */
  function Ahead(raw: Raw, cursor: Option<Key>): nat {
    |Beyond(Matching(raw), cursor)|
  }

  /** Moving the cursor onto the next source leaves one source fewer ahead. */
  lemma PassOne(raw: Raw, cursor: Option<Key>)
    ensures var next := Upcoming(raw, cursor);
            next.Some? ==> Ahead(raw, cursor) == 1 + Ahead(raw, Some(next.value.key))
  {
    QueryFirst(raw, cursor);
    if Upcoming(raw, cursor).Some? { KeysetStep(Matching(raw), cursor); }
  }
}
