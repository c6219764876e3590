/** The checkpointed offline rebuild as a state machine: one action per durable write or external call, with a
    crash possible between any two of them. A schedule is any sequence of enabled actions, so a statement about
    every schedule is a statement about every pattern of crashes, failures, restarts and batch limits. */
module RebuildMachine {
  import opened Wrappers
  import opened Keyset
  import opened SourceCurator
  import opened SourceIterator
  import opened ContextAssembler

  /** What admission does with a proposal: refuse it, accept it, or commit it and still raise. */
  datatype Admission = Rejected | Accepted(receipt: Receipt) | Lost(receipt: Receipt)

  /** The native records and everything the rebuild cannot control. Each answer is indexed by the instant of the
      call, so an arbitrary World is an arbitrary behaviour over time of the worker, MR-Mem, disk and selection. */
  datatype World = World(
    raw: Raw,
    bounds: Bounds,
    select: (Source, Memory, nat) -> Option<Selection>,
    worker: (Context, nat) -> Option<string>,
    admit: (string, Source, seq<BlockId>, Memory, nat) -> Admission,
    lookup: nat -> bool,
    save: nat -> bool)

  datatype Pending = Pending(binding: SourceRef, payload: Option<string>, prompt: Context, activated: seq<BlockId>)

  /** The part of `self.state` that changes. */
  datatype Checkpoint = Checkpoint(
    cursor: Option<Key>, lastRef: Option<SourceRef>,
    compiled: nat, ignored: nat, contextual: nat, deferred: nat,
    failure: Option<SourceKey>, pending: Option<Pending>)

  const FRESH := Checkpoint(None, None, 0, 0, 0, 0, None, None)

  /** Where the process is; Idle is outside `run`. */
  datatype Pc =
    | Idle
    | Top
    | Composing
    | Proposed(context: Context)
    | Calling(context: Context)
    | Answered
    | Admitting
    | Admitted(receipt: Receipt)
    | Settled(source: Source)
    | Failing(source: Source)

  /** `mem` is `self.state`, `disk` the checkpoint file, `memory` the durable receipts. The rest is bookkeeping:
      admissions and worker calls per source, the setbacks a source suffered while its payload was not durable,
      the number of raised failures, and whether `run` was ever entered with an unsaved state. */
  datatype Sys = Sys(
    pc: Pc, mem: Checkpoint, disk: Checkpoint, memory: Memory,
    admissions: multiset<Key>, calls: multiset<Key>, setbacks: multiset<Key>, faults: nat, dirty: bool)

  datatype Action =
    | Enter | Leave
    | Begin(t: nat) | Compose(t: nat) | Save(t: nat) | Work(t: nat) | Admit(t: nat) | Advance
    | Crash

  const START := Sys(Idle, FRESH, FRESH, map[], multiset{}, multiset{}, multiset{}, 0, false)

  /** The next record `iterate` yields from a cursor. */
  function Upcoming(raw: Raw, cursor: Option<Key>): Option<Source> {
    QueryFirst(raw, cursor);
    var rows := Query(raw, cursor, 1);
    if |rows| == 0 then None else Some(SourceOf(raw, rows[0]))
  }

  function Fail(s: Sys, source: Source): Sys {
    s.(pc := Failing(source), mem := s.mem.(failure := Some(KeyOfRef(source.ref))), faults := s.faults + 1)
  }

  /** The assignments after a source is done, before the state is saved. */
  function Passed(cp: Checkpoint, source: Source): Checkpoint {
    cp.(cursor := Some(source.key), lastRef := Some(source.ref), failure := None, pending := None)
  }

  function BeginStep(w: World, s: Sys, source: Source, t: nat): Sys {
    match Disposed(source)
    case ContextOnly => s.(pc := Settled(source), mem := Passed(s.mem.(contextual := s.mem.contextual + 1), source))
    case Ignore => s.(pc := Settled(source), mem := Passed(s.mem.(ignored := s.mem.ignored + 1), source))
    case Compile =>
      if source !in Sources(w.raw) then Fail(s, source)
      else if s.mem.pending.Some? && s.mem.pending.value.binding != source.ref then Fail(s, source)
      else if !w.lookup(t) then Fail(s, source)
      else if source.key in s.memory then s.(pc := Admitted(s.memory[source.key]))
      else if s.mem.pending.Some? && s.mem.pending.value.payload.Some? then s.(pc := Admitting)
      else s.(pc := Composing)
  }

  /** The selection callback's answer, assembled. */
  function Composed(w: World, source: Source, memory: Memory, t: nat): Option<Context> {
    var selection := w.select(source, memory, t);
    if selection.None? then None else Assemble(w.raw, memory, w.bounds, source, selection.value)
  }

  function ComposeWith(s: Sys, source: Source, context: Option<Context>): Sys {
    if context.None? then Fail(s, source)
    else if s.mem.pending.None? then
      s.(pc := Proposed(context.value),
         mem := s.mem.(pending := Some(Pending(source.ref, None, context.value, context.value.activated))))
    else if context.value.activated != s.mem.pending.value.activated then Fail(s, source)
    else if context.value != s.mem.pending.value.prompt then Fail(s, source)
    else s.(pc := Calling(context.value))
  }

  function ComposeStep(w: World, s: Sys, source: Source, t: nat): Sys {
    ComposeWith(s, source, Composed(w, source, s.memory, t))
  }

  function SaveStep(w: World, s: Sys, source: Source, next: Pc, t: nat): Sys {
    if w.save(t) then s.(pc := next, disk := s.mem) else Fail(s, source)
  }

  /** The exception handler's own save: if it fails too, only memory knows what happened. */
  function HandlerStep(w: World, s: Sys, t: nat): Sys {
    if w.save(t) then s.(pc := Idle, disk := s.mem) else s.(pc := Idle)
  }

  function WorkStep(w: World, s: Sys, source: Source, context: Context, t: nat): Sys {
    var called := s.(calls := s.calls + multiset{source.key});
    match w.worker(context, t)
    case None => Fail(called.(setbacks := s.setbacks + multiset{source.key}), source)
    case Some(payload) => Answer(called, payload)
  }

  function Answer(s: Sys, payload: string): Sys {
    if s.mem.pending.None? then s
    else s.(pc := Answered, mem := s.mem.(pending := Some(s.mem.pending.value.(payload := Some(payload)))))
  }

  function Receive(s: Sys, source: Source, receipt: Receipt): Sys {
    s.(pc := Admitted(receipt), memory := s.memory[source.key := receipt], admissions := s.admissions + multiset{source.key})
  }

  function AdmitStep(w: World, s: Sys, source: Source, t: nat): Option<Sys> {
    if s.mem.pending.None? || s.mem.pending.value.payload.None? then None else
    var pending := s.mem.pending.value;
    match w.admit(pending.payload.value, source, pending.activated, s.memory, t)
    case Rejected => Some(Fail(s, source))
    case Accepted(receipt) => Some(Receive(s, source, receipt))
    case Lost(receipt) => Some(Fail(Receive(s, source, receipt), source))
  }

  function AdvanceStep(s: Sys, source: Source, receipt: Receipt): Sys {
    s.(pc := Settled(source),
       mem := Passed(s.mem.(compiled := s.mem.compiled + 1, deferred := s.mem.deferred + (if receipt.deferred then 1 else 0)), source))
  }

  /** The proposal in memory is lost by a crash when its source has no receipt and the file does not hold it. */
  predicate LosesPayload(s: Sys) {
    && s.mem.pending.Some?
    && s.mem.pending.value.payload.Some?
    && s.disk.pending != s.mem.pending
    && KeyOfBinding(s.mem.pending.value.binding) !in s.memory
  }

  function CrashStep(s: Sys): Sys {
    var lost := if LosesPayload(s) then multiset{KeyOfBinding(s.mem.pending.value.binding)} else multiset{};
    s.(pc := Idle, mem := s.disk, setbacks := s.setbacks + lost)
  }

  function KeyOfBinding(ref: SourceRef): Key {
    Key(ref.at, ref.recordId)
  }

  /** The actions that need a next record, at the program point where each is enabled. */
  function WorkingStep(w: World, s: Sys, source: Source, a: Action): Option<Sys> {
    match s.pc
    case Top => if a.Begin? then Some(BeginStep(w, s, source, a.t)) else None
    case Composing => if a.Compose? then Some(ComposeStep(w, s, source, a.t)) else None
    case Proposed(context) => if a.Save? then Some(SaveStep(w, s, source, Calling(context), a.t)) else None
    case Calling(context) => if a.Work? then Some(WorkStep(w, s, source, context, a.t)) else None
    case Answered => if a.Save? then Some(SaveStep(w, s, source, Admitting, a.t)) else None
    case Admitting => if a.Admit? then AdmitStep(w, s, source, a.t) else None
    case Admitted(receipt) => if a.Advance? then Some(AdvanceStep(s, source, receipt)) else None
    case _ => None
  }

  /** One action, or nothing when it is not enabled. */
  function Step(w: World, s: Sys, a: Action): Option<Sys> {
    if a.Crash? then Some(CrashStep(s))
    else if s.pc.Idle? then (if a.Enter? then Some(s.(pc := Top, dirty := s.dirty || s.mem != s.disk)) else None)
    else if s.pc.Top? && a.Leave? then Some(s.(pc := Idle))
    else if s.pc.Settled? then (if a.Save? then Some(SaveStep(w, s, s.pc.source, Top, a.t)) else None)
    else if s.pc.Failing? then (if a.Save? then Some(HandlerStep(w, s, a.t)) else None)
    else
      var next := Upcoming(w.raw, s.mem.cursor);
      if next.None? then None else WorkingStep(w, s, next.value, a)
  }

  /** Execution of a schedule, or nothing when some action is not enabled. */
  function Exec(w: World, s: Sys, schedule: seq<Action>): Option<Sys>
    decreases |schedule|
  {
    if schedule == [] then Some(s) else
    var before := Exec(w, s, schedule[..|schedule| - 1]);
    if before.None? then None else Step(w, before.value, schedule[|schedule| - 1])
  }

  // ---- positions in the native order ---------------------------------------------

  function Tally(sources: seq<Source>, d: Disposition): nat {
    if sources == [] then 0 else
    Tally(sources[..|sources| - 1], d) + (if Disposed(sources[|sources| - 1]) == d then 1 else 0)
  }

  function Deferrals(sources: seq<Source>, memory: Memory): nat {
    if sources == [] then 0 else
    var last := sources[|sources| - 1];
    Deferrals(sources[..|sources| - 1], memory)
      + (if Disposed(last) == Compile && last.key in memory && memory[last.key].deferred then 1 else 0)
  }

  /** The cursor stands after the first p sources. */
  predicate CursorAt(sources: seq<Source>, p: nat, cp: Checkpoint) {
    && p <= |sources|
    && cp.cursor == (if p == 0 then None else Some(sources[p - 1].key))
    && cp.lastRef == (if p == 0 then None else Some(sources[p - 1].ref))
  }

  /** Number of sources at or before a cursor. */
  function Position(sources: seq<Source>, cursor: Option<Key>): nat
    decreases |sources|
  {
    if cursor.None? || sources == [] then 0
    else if Less(cursor.value, sources[|sources| - 1].key) then Position(sources[..|sources| - 1], cursor)
    else |sources|
  }

  lemma {:induction false} PositionIn(sources: seq<Source>, n: nat, p: nat, cp: Checkpoint)
    requires forall i, j | 0 <= i < j < |sources| :: Less(sources[i].key, sources[j].key)
    requires p <= n <= |sources| && CursorAt(sources, p, cp)
    ensures Position(sources[..n], cp.cursor) == p
    decreases n
  {
    if p < n {
      assert p > 0 ==> Less(sources[p - 1].key, sources[n - 1].key);
      assert sources[..n][..n - 1] == sources[..n - 1];
      PositionIn(sources, n - 1, p, cp);
    }
  }

  lemma PositionAt(raw: Raw, n: nat, p: nat, cp: Checkpoint)
    requires p <= n <= |Sources(raw)| && CursorAt(Sources(raw), p, cp)
    ensures Position(Sources(raw)[..n], cp.cursor) == p
  {
    hide Less, Position;
    PositionIn(Sources(raw), n, p, cp);
  }

  lemma QueryAt(raw: Raw, order: seq<Key>, p: nat, cursor: Option<Key>)
    requires order == Ordered(Matching(raw)) && p <= |order|
    requires cursor == if p == 0 then None else Some(order[p - 1])
    ensures Query(raw, cursor, 1) == if p < |order| then [order[p]] else []
  {
    if p > 0 { BeyondIsSuffix(Matching(raw), order, p); }
    assert order[0..] == order;
  }

  /** From a cursor after p sources, the keyset query yields source p, or nothing when they are exhausted. */
  lemma UpcomingAt(raw: Raw, p: nat, cp: Checkpoint)
    requires CursorAt(Sources(raw), p, cp)
    ensures Upcoming(raw, cp.cursor) == if p < |Sources(raw)| then Some(Sources(raw)[p]) else None
  {
    hide Query, Less, Disposed;
    QueryAt(raw, Ordered(Matching(raw)), p, cp.cursor);
  }
}
