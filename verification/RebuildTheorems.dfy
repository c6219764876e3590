/** The rebuild's promises over whole runs: what holds after every schedule, and what two schedules share. */
module RebuildTheorems {
  import opened Wrappers
  import opened Keyset
  import opened SourceCurator
  import opened SourceIterator
  import opened ContextAssembler
  import opened RebuildMachine
  import opened RebuildSafety

  /** A state some schedule leads to. */
  ghost predicate Reached(w: World, schedule: seq<Action>, s: Sys) {
    Exec(w, START, schedule) == Some(s)
  }

  lemma {:induction false} EveryRunIsSound(w: World, schedule: seq<Action>, s: Sys) returns (p: nat, q: nat)
    requires Reached(w, schedule, s)
    ensures Inv(w, Sources(w.raw), s, p, q)
    decreases |schedule|
  {
    if schedule == [] {
      StartInv(w);
      p, q := 0, 0;
    } else {
      var before := Exec(w, START, schedule[..|schedule| - 1]).value;
      p, q := EveryRunIsSound(w, schedule[..|schedule| - 1], before);
      hide Inv, Step, Sources;
      p, q := StepKeeps(w, Sources(w.raw), before, schedule[|schedule| - 1], s, p, q);
    }
  }

  /** Exact accounting of one checkpoint against the native order. */
  ghost predicate Exact(raw: Raw, cp: Checkpoint, memory: Memory) {
    var S := Sources(raw);
    var p := Position(S, cp.cursor);
    && CursorAt(S, p, cp)
    && cp.compiled == Tally(S[..p], Compile)
    && cp.contextual == Tally(S[..p], ContextOnly)
    && cp.ignored == Tally(S[..p], Ignore)
    && cp.deferred == Deferrals(S[..p], memory)
    && (forall i | 0 <= i < p && Disposed(S[i]) == Compile :: S[i].key in memory)
    && (cp.pending.Some? ==> p < |S| && Disposed(S[p]) == Compile && cp.pending.value.binding == S[p].ref)
  }

  lemma AccountsExact(raw: Raw, cp: Checkpoint, memory: Memory, p: nat)
    requires Accounts(Sources(raw), p, cp, memory)
    ensures Position(Sources(raw), cp.cursor) == p && Exact(raw, cp, memory)
  {
    PositionAt(raw, |Sources(raw)|, p, cp);
    assert Sources(raw)[..|Sources(raw)|] == Sources(raw);
    hide Tally, Deferrals;
  }

  /** At every instant of every run, the state in memory and the durable checkpoint each count exactly the sources
      at or before their own cursor, hold receipts for all of its COMPILE sources, and can only have the very next
      source pending. */
  lemma ExactAccounting(w: World, schedule: seq<Action>, s: Sys)
    requires Reached(w, schedule, s)
    ensures Exact(w.raw, s.mem, s.memory) && Exact(w.raw, s.disk, s.memory)
    ensures Position(Sources(w.raw), s.disk.cursor) <= Position(Sources(w.raw), s.mem.cursor)
  {
    var p, q := EveryRunIsSound(w, schedule, s);
    hide CallsBounded, ReceiptsFollow, PendingFollows, Ledger, Tally, Deferrals, Accounts, Tight, Exact;
    AccountsExact(w.raw, s.mem, s.memory, p);
    AccountsExact(w.raw, s.disk, s.memory, q);
  }

  /** Each source is admitted at most once, exactly when it has a receipt; receipts belong to COMPILE sources and
      leave no earlier COMPILE source without one. */
  lemma ExactlyOnceAdmission(w: World, schedule: seq<Action>, s: Sys)
    requires Reached(w, schedule, s)
    ensures forall k: Key :: s.admissions[k] == if k in s.memory then 1 else 0
    ensures forall k | k in s.memory :: exists i :: 0 <= i < |Sources(w.raw)| && Sources(w.raw)[i].key == k && Disposed(Sources(w.raw)[i]) == Compile
    ensures forall i, j | 0 <= i < j < |Sources(w.raw)| && Sources(w.raw)[j].key in s.memory && Disposed(Sources(w.raw)[i]) == Compile ::
              Sources(w.raw)[i].key in s.memory
  {
    var p, q := EveryRunIsSound(w, schedule, s);
    hide CallsBounded, ReceiptsFollow, PendingFollows, Placed, Tight, Increasing, Sources;
  }

  /** The checkpoint file already holds an answer for a source. */
  predicate DurablyAnswered(s: Sys, source: Source) {
    s.disk.pending.Some? && s.disk.pending.value.binding == source.ref && s.disk.pending.value.payload.Some?
  }

  /** Worker calls per source are at most one more than the setbacks it suffered while its answer was not durable. */
  lemma WorkerCallsAreBounded(w: World, schedule: seq<Action>, s: Sys)
    requires Reached(w, schedule, s)
    ensures forall k: Key :: s.calls[k] <= 1 + s.setbacks[k]
  {
    var p, q := EveryRunIsSound(w, schedule, s);
    hide ReceiptsFollow, PendingFollows, Ledger, Placed, Tight, Increasing, Sources;
  }

  /** No worker call is ever made for a source whose receipt exists or whose answer is already durable. */
  lemma NoWastedWorkerCall(w: World, schedule: seq<Action>, s: Sys)
    requires Reached(w, schedule, s) && s.pc.Calling?
    ensures var source := Upcoming(w.raw, s.mem.cursor);
            source.Some? && source.value.key !in s.memory && !DurablyAnswered(s, source.value)
  {
    var p, q := EveryRunIsSound(w, schedule, s);
    hide Inv, Sources;
    CallingFacts(w, Sources(w.raw), s, p, q);
    PcFacts(w, Sources(w.raw), s, p, q);
    UpcomingAt(w.raw, p, s.mem);
  }

  lemma CallingFacts(w: World, S: seq<Source>, s: Sys, p: nat, q: nat)
    requires Inv(w, S, s, p, q)
    ensures s.pc.Calling? ==> p < |S| && S[p].key !in s.memory && !DurablyAnswered(s, S[p])
  {
    hide CallsBounded, ReceiptsFollow, PendingFollows, Ledger, Tally, Deferrals, Tight;
    if s.pc.Calling? && s.disk.pending.Some? { RefIdentifies(S, q, p); }
  }

  lemma RefIdentifies(S: seq<Source>, i: nat, j: nat)
    requires Increasing(S) && i < |S| && j < |S|
    ensures S[i].ref == S[j].ref <==> i == j
  {
    assert S[i].ref == S[j].ref ==> S[i].key == S[j].key;
  }

  /** The receipts never lie beyond the first source after the durable cursor, as long as no run was entered with a
      state the file does not hold. */
  lemma NoReceiptBeyondTheNextSource(w: World, schedule: seq<Action>, s: Sys)
    requires Reached(w, schedule, s) && !s.dirty
    ensures forall i | 0 <= i < |Sources(w.raw)| && Sources(w.raw)[i].key in s.memory :: i <= Position(Sources(w.raw), s.disk.cursor)
    ensures Position(Sources(w.raw), s.mem.cursor) <= Position(Sources(w.raw), s.disk.cursor) + 1
    ensures s.pc.Calling? || s.pc.Admitting? ==> s.mem == s.disk
  {
    var p, q := EveryRunIsSound(w, schedule, s);
    AccountsExact(w.raw, s.mem, s.memory, p);
    AccountsExact(w.raw, s.disk, s.memory, q);
    hide CallsBounded, ReceiptsFollow, PendingFollows, Ledger, Placed, Increasing, Sources, Exact;
  }

  /** The drift guard and the binding check cannot fire on an immutable native database: when a run reaches a COMPILE
      source, whatever is pending belongs to it. */
  lemma PendingNeverDrifts(w: World, schedule: seq<Action>, s: Sys)
    requires Reached(w, schedule, s) && s.pc.Top?
    ensures var next := Upcoming(w.raw, s.mem.cursor);
            next.Some? ==> next.value in Sources(w.raw) && (s.mem.pending.Some? ==> s.mem.pending.value.binding == next.value.ref)
  {
    var p, q := EveryRunIsSound(w, schedule, s);
    hide CallsBounded, ReceiptsFollow, PendingFollows, Ledger, Tally, Deferrals, Tight, Increasing;
    UpcomingAt(w.raw, p, s.mem);
    hide Upcoming, Sources;
  }

  // ---- the failure reference -----------------------------------------------------------

  datatype Standing = Standing(inMemory: Option<SourceKey>, inFile: Option<SourceKey>)

  /** The failure that should be on record, read off the history alone: raising for a source puts it in memory, being done
      with a source takes it out, a save copies memory to the file, and a crash copies the file to memory. */
  ghost function OnRecord(w: World, schedule: seq<Action>): Standing
    requires Exec(w, START, schedule).Some?
    decreases |schedule|
  {
    if schedule == [] then Standing(None, None) else
    var init, a := schedule[..|schedule| - 1], schedule[|schedule| - 1];
    var before, s, record := Exec(w, START, init).value, Exec(w, START, schedule).value, OnRecord(w, init);
    if a.Crash? then Standing(record.inFile, record.inFile)
    else if a.Save? && w.save(a.t) then Standing(record.inMemory, record.inMemory)
    else if s.pc.Failing? && !before.pc.Failing? then Standing(Some(KeyOfRef(s.pc.source.ref)), record.inFile)
    else if s.pc.Settled? && !before.pc.Settled? then Standing(None, record.inFile)
    else record
  }

  /** What one step should leave on record. */
  ghost predicate Records(w: World, s: Sys, a: Action, s': Sys) {
    && s'.mem.failure == (if a.Crash? then s.disk.failure
                          else if a.Save? && w.save(a.t) then s.mem.failure
                          else if s'.pc.Failing? && !s.pc.Failing? then Some(KeyOfRef(s'.pc.source.ref))
                          else if s'.pc.Settled? && !s.pc.Settled? then None
                          else s.mem.failure)
    && s'.disk.failure == (if a.Save? && w.save(a.t) then s.mem.failure else s.disk.failure)
    && (s'.pc.Settled? ==> s'.mem.failure.None? && s'.mem.pending.None?)
  }

  lemma BeginRecords(w: World, s: Sys, source: Source, a: Action)
    requires a.Begin? && s.pc.Top?
    ensures Records(w, s, a, BeginStep(w, s, source, a.t))
  {
    hide Sources, Disposed;
  }

  lemma WorkingRecords(w: World, s: Sys, source: Source, a: Action)
    requires !a.Crash? && !s.pc.Settled? && !s.pc.Failing? && WorkingStep(w, s, source, a).Some?
    ensures Records(w, s, a, WorkingStep(w, s, source, a).value)
  {
    hide BeginStep, Composed;
    if s.pc.Top? { BeginRecords(w, s, source, a); }
  }

  lemma StepRecords(w: World, s: Sys, a: Action, s': Sys)
    requires Step(w, s, a) == Some(s')
    ensures Records(w, s, a, s')
  {
    hide Upcoming, WorkingStep;
    if !a.Crash? && !s.pc.Idle? && !(s.pc.Top? && a.Leave?) && !s.pc.Settled? && !s.pc.Failing? {
      hide Records;
      WorkingRecords(w, s, Upcoming(w.raw, s.mem.cursor).value, a);
    }
  }

  /** The failure reference, in memory and in the file, is the one that stands in the history: after a source is done there is
      none, and a later success clears what an earlier failure left. */
  lemma {:induction false} FailureIsOnRecord(w: World, schedule: seq<Action>, s: Sys)
    requires Reached(w, schedule, s)
    ensures Standing(s.mem.failure, s.disk.failure) == OnRecord(w, schedule)
    ensures s.pc.Settled? ==> s.mem.failure.None? && s.mem.pending.None?
    decreases |schedule|
  {
    if schedule != [] {
      var init, a := schedule[..|schedule| - 1], schedule[|schedule| - 1];
      var before := Exec(w, START, init).value;
      FailureIsOnRecord(w, init, before);
      hide Step;
      StepRecords(w, before, a, s);
    }
  }

  // ---- the bookkeeping that the bounds speak of ------------------------------------------

  /** The worker is called in this step, for this source. */
  predicate CallsFor(w: World, s: Sys, a: Action, k: Key) {
    a.Work? && s.pc.Calling? && Upcoming(w.raw, s.mem.cursor).Some? && Upcoming(w.raw, s.mem.cursor).value.key == k
  }

  /** A crash loses an answer for this source: it is in memory, not in the file, and has not been admitted. */
  predicate LosesFor(s: Sys, a: Action, k: Key) {
    && a.Crash? && s.mem.pending.Some? && s.mem.pending.value.payload.Some? && s.disk.pending != s.mem.pending
    && s.mem.pending.value.binding.at == k.at && s.mem.pending.value.binding.recordId == k.id && k !in s.memory
  }

  ghost predicate Booked(w: World, s: Sys, a: Action, s': Sys) {
    && (forall k :: s'.calls[k] == s.calls[k] + if CallsFor(w, s, a, k) then 1 else 0)
    && (forall k :: s'.setbacks[k] == s.setbacks[k]
                                      + if (CallsFor(w, s, a, k) && w.worker(s.pc.context, a.t).None?) || LosesFor(s, a, k) then 1 else 0)
    && (forall k :: s'.admissions[k] == s.admissions[k] + if k in s'.memory && k !in s.memory then 1 else 0)
    && s'.faults == s.faults + (if s'.pc.Failing? && !s.pc.Failing? then 1 else 0)
    && (s'.dirty <==> s.dirty || (a.Enter? && s.mem != s.disk))
  }

  /** A step that calls nobody, admits nothing and loses nothing books at most a failure. */
  lemma QuietIsBooked(w: World, s: Sys, a: Action, s': Sys)
    requires !a.Crash? && !a.Work? && s'.memory == s.memory
    requires s'.calls == s.calls && s'.setbacks == s.setbacks && s'.admissions == s.admissions
    requires s'.faults == s.faults + (if s'.pc.Failing? && !s.pc.Failing? then 1 else 0)
    requires s'.dirty <==> s.dirty || (a.Enter? && s.mem != s.disk)
    ensures Booked(w, s, a, s')
  {
    hide Upcoming;
  }

  lemma CrashIsBooked(w: World, s: Sys)
    ensures Booked(w, s, Crash, CrashStep(s))
  {
    hide Upcoming;
    forall k: Key ensures LosesFor(s, Crash, k) <==> LosesPayload(s) && k == KeyOfBinding(s.mem.pending.value.binding) {}
    hide LosesFor, LosesPayload;
  }

  lemma CallIsBooked(w: World, s: Sys, source: Source, t: nat)
    requires Upcoming(w.raw, s.mem.cursor) == Some(source) && s.pc.Calling? && s.mem.pending.Some?
    ensures Booked(w, s, Work(t), WorkStep(w, s, source, s.pc.context, t))
  {
    hide Upcoming;
  }

  lemma AdmissionIsBooked(w: World, s: Sys, source: Source, t: nat)
    requires s.pc.Admitting? && source.key !in s.memory && AdmitStep(w, s, source, t).Some?
    ensures Booked(w, s, Action.Admit(t), AdmitStep(w, s, source, t).value)
  {
    hide Upcoming;
  }

  lemma WorkIsBooked(w: World, s: Sys, source: Source, a: Action)
    requires Upcoming(w.raw, s.mem.cursor) == Some(source) && WorkingStep(w, s, source, a).Some?
    requires s.pc.Admitting? ==> source.key !in s.memory
    requires s.pc.Calling? ==> s.mem.pending.Some?
    ensures Booked(w, s, a, WorkingStep(w, s, source, a).value)
  {
    hide Upcoming, Composed, Sources, Disposed, Booked, AdmitStep, WorkStep;
    if s.pc.Calling? {
      CallIsBooked(w, s, source, a.t);
    } else if s.pc.Admitting? {
      AdmissionIsBooked(w, s, source, a.t);
    } else {
      QuietIsBooked(w, s, a, WorkingStep(w, s, source, a).value);
    }
  }

  lemma OpenWhereItMatters(w: World, schedule: seq<Action>, s: Sys)
    requires Reached(w, schedule, s)
    ensures s.pc.Calling? ==> s.mem.pending.Some?
    ensures s.pc.Admitting? && Upcoming(w.raw, s.mem.cursor).Some? ==> Upcoming(w.raw, s.mem.cursor).value.key !in s.memory
  {
    hide *;
    var p, q := EveryRunIsSound(w, schedule, s);
    PcFacts(w, Sources(w.raw), s, p, q);
    UpcomingAt(w.raw, p, s.mem);
    OpenAt(Sources(w.raw), s, p, Upcoming(w.raw, s.mem.cursor));
  }

  lemma OpenAt(S: seq<Source>, s: Sys, p: nat, next: Option<Source>)
    requires PcFits(S, s, p) && next == (if p < |S| then Some(S[p]) else None)
    ensures s.pc.Calling? ==> s.mem.pending.Some?
    ensures s.pc.Admitting? && next.Some? ==> next.value.key !in s.memory
  {
    hide Disposed;
  }

  lemma FrameIsBooked(w: World, s: Sys, a: Action, s': Sys)
    requires Step(w, s, a) == Some(s') && !a.Crash?
    requires s.pc.Idle? || (s.pc.Top? && a.Leave?) || s.pc.Settled? || s.pc.Failing?
    ensures Booked(w, s, a, s')
  {
    hide Upcoming, WorkingStep, Booked;
    QuietIsBooked(w, s, a, s');
  }

  /** Calls, setbacks, admissions and failures are counted when they happen, once each, and never otherwise. */
  lemma StepIsBooked(w: World, schedule: seq<Action>, s: Sys, a: Action, s': Sys)
    requires Reached(w, schedule, s) && Step(w, s, a) == Some(s')
    ensures Booked(w, s, a, s')
  {
    hide Upcoming, Exec, Reached, WorkingStep, Booked, CrashStep, SaveStep, HandlerStep;
    OpenWhereItMatters(w, schedule, s);
    if a.Crash? {
      CrashIsBooked(w, s);
    } else if s.pc.Idle? || (s.pc.Top? && a.Leave?) || s.pc.Settled? || s.pc.Failing? {
      FrameIsBooked(w, s, a, s');
    } else {
      WorkIsBooked(w, s, Upcoming(w.raw, s.mem.cursor).value, a);
    }
  }

  // ---- two runs --------------------------------------------------------------------

  /** The run has walked past every source. */
  predicate Drained(w: World, s: Sys) {
    Upcoming(w.raw, s.mem.cursor).None?
  }

  lemma DrainedPosition(w: World, schedule: seq<Action>, s: Sys) returns (p: nat, q: nat)
    requires Reached(w, schedule, s) && Drained(w, s)
    ensures Inv(w, Sources(w.raw), s, p, q) && p == |Sources(w.raw)|
    ensures Accounts(Sources(w.raw), |Sources(w.raw)|, s.mem, s.memory)
    ensures Ledger(Sources(w.raw), s.memory, s.admissions)
  {
    p, q := EveryRunIsSound(w, schedule, s);
    PcFacts(w, Sources(w.raw), s, p, q);
    UpcomingAt(w.raw, p, s.mem);
    hide CallsBounded, ReceiptsFollow, PendingFollows, Ledger, Accounts, Tight, Increasing, Sources, Upcoming;
  }

  /** Crashes, failures, restarts and batch limits do not show in the result: any two schedules over the same native
      records, under any behaviour of the worker, MR-Mem and the disk, end with the same cursor, the same counts and the
      same set of receipted sources once they have drained their sources. */
  lemma DrainedRunsAgree(w1: World, schedule1: seq<Action>, s1: Sys, w2: World, schedule2: seq<Action>, s2: Sys)
    requires Reached(w1, schedule1, s1) && Drained(w1, s1)
    requires Reached(w2, schedule2, s2) && Drained(w2, s2)
    requires w1.raw == w2.raw
    ensures s1.mem.cursor == s2.mem.cursor && s1.mem.lastRef == s2.mem.lastRef
    ensures s1.mem.compiled == s2.mem.compiled && s1.mem.contextual == s2.mem.contextual
            && s1.mem.ignored == s2.mem.ignored
    ensures s1.memory.Keys == s2.memory.Keys
  {
    var p1, q1 := DrainedPosition(w1, schedule1, s1);
    var p2, q2 := DrainedPosition(w2, schedule2, s2);
    hide Inv, Sources, Tally, Deferrals;
    SameReceipted(Sources(w1.raw), s1.memory, s1.admissions, s2.memory, s2.admissions);
  }

  lemma SameReceipted(S: seq<Source>, memory1: Memory, admissions1: multiset<Key>, memory2: Memory,
                      admissions2: multiset<Key>)
    requires Ledger(S, memory1, admissions1) && Ledger(S, memory2, admissions2)
    requires forall i | 0 <= i < |S| && Disposed(S[i]) == Compile :: S[i].key in memory1 && S[i].key in memory2
    ensures memory1.Keys == memory2.Keys
  {
    forall k ensures k in memory1 <==> k in memory2 {
      if k in memory1 {
        var i :| 0 <= i < |S| && S[i].key == k && Disposed(S[i]) == Compile;
        assert S[i].key in memory2;
      }
      if k in memory2 {
        var i :| 0 <= i < |S| && S[i].key == k && Disposed(S[i]) == Compile;
        assert S[i].key in memory1;
      }
    }
  }

  function ReceiptOf(answer: Admission): Option<Receipt> {
    if answer.Rejected? then None else Some(answer.receipt)
  }

  predicate Compatible<T(==)>(a: Option<T>, b: Option<T>) {
    a.Some? && b.Some? ==> a == b
  }

  /** Selection, worker and admission are deterministic and shared by the two worlds: whenever both answer, whatever
      the instant, they answer the same. Failures and the native records may differ. */
  ghost predicate SameBehaviour(w1: World, w2: World) {
    && w1.bounds == w2.bounds
    && (forall source: Source, prior: Memory, t1: nat, t2: nat :: Compatible(w1.select(source, prior, t1), w2.select(source, prior, t2)))
    && (forall context: Context, t1: nat, t2: nat :: Compatible(w1.worker(context, t1), w2.worker(context, t2)))
    && (forall payload: string, source: Source, ids: seq<BlockId>, prior: Memory, t1: nat, t2: nat ::
          Compatible(ReceiptOf(w1.admit(payload, source, ids, prior, t1)), ReceiptOf(w2.admit(payload, source, ids, prior, t2))))
  }

  /** The two enumerations agree on their first n sources; nothing is said about later records. */
  predicate SharePrefix(S1: seq<Source>, S2: seq<Source>, n: nat) {
    n <= |S1| && n <= |S2| && S1[..n] == S2[..n]
  }

  lemma PrefixAgrees(raw1: Raw, raw2: Raw, n: nat, i: nat)
    requires SharePrefix(Sources(raw1), Sources(raw2), n) && i < n
    ensures AgreeUpTo(raw1, raw2, Sources(raw1)[i])
  {
    var S1, S2 := Sources(raw1), Sources(raw2);
    assert S1[..n][i] == S2[..n][i];
    PrefixIncluded(raw1, raw2, n, i);
    PrefixIncluded(raw2, raw1, n, i);
  }

  lemma PrefixIncluded(raw1: Raw, raw2: Raw, n: nat, i: nat)
    requires SharePrefix(Sources(raw1), Sources(raw2), n) && i < n
    ensures forall source: Source | source in Sources(raw1) && !Less(Sources(raw1)[i].key, source.key) :: source in Sources(raw2)
  {
    var S1, S2 := Sources(raw1), Sources(raw2);
    forall source: Source | source in S1 && !Less(S1[i].key, source.key) ensures source in S2 {
      var j :| 0 <= j < |S1| && S1[j] == source;
      assert j <= i;
      assert S1[..n][j] == S2[..n][j];
    }
  }

  /** What determines a receipt: the source and the receipts before it. */
  lemma ReceiptDetermined(w1: World, w2: World, source: Source, prior: Memory, receipt1: Receipt, receipt2: Receipt)
    requires SameBehaviour(w1, w2) && AgreeUpTo(w1.raw, w2.raw, source)
    requires ReceiptFollows(w1, source, prior, receipt1) && ReceiptFollows(w2, source, prior, receipt2)
    ensures receipt1 == receipt2
  {
    var context1: Context, payload1: string :|
      Chosen(w1, source, prior, context1) && Answers(w1, context1, payload1) && Accepts(w1, payload1, source, context1.activated, prior, receipt1);
    var context2: Context, payload2: string :|
      Chosen(w2, source, prior, context2) && Answers(w2, context2, payload2) && Accepts(w2, payload2, source, context2.activated, prior, receipt2);
    hide Chosen, Answers, Accepts, SameBehaviour, AgreeUpTo;
    ContextDetermined(w1, w2, source, prior, context1, context2);
    AnswerDetermined(w1, w2, context1, payload1, payload2);
    AcceptDetermined(w1, w2, payload1, source, context1.activated, prior, receipt1, receipt2);
  }

  lemma AnswerDetermined(w1: World, w2: World, context: Context, payload1: string, payload2: string)
    requires SameBehaviour(w1, w2) && Answers(w1, context, payload1) && Answers(w2, context, payload2)
    ensures payload1 == payload2
  {
    var t1: nat :| AnsweredAt(w1, context, payload1, t1);
    var t2: nat :| AnsweredAt(w2, context, payload2, t2);
    assert Compatible(w1.worker(context, t1), w2.worker(context, t2));
  }

  lemma AcceptDetermined(w1: World, w2: World, payload: string, source: Source, ids: seq<BlockId>, prior: Memory,
                         receipt1: Receipt, receipt2: Receipt)
    requires SameBehaviour(w1, w2)
    requires Accepts(w1, payload, source, ids, prior, receipt1) && Accepts(w2, payload, source, ids, prior, receipt2)
    ensures receipt1 == receipt2
  {
    var t1: nat :| AcceptedAt(w1, payload, source, ids, prior, receipt1, t1);
    var t2: nat :| AcceptedAt(w2, payload, source, ids, prior, receipt2, t2);
    assert Compatible(ReceiptOf(w1.admit(payload, source, ids, prior, t1)), ReceiptOf(w2.admit(payload, source, ids, prior, t2)));
  }

  lemma ContextDetermined(w1: World, w2: World, source: Source, prior: Memory, context1: Context, context2: Context)
    requires SameBehaviour(w1, w2) && AgreeUpTo(w1.raw, w2.raw, source)
    requires Chosen(w1, source, prior, context1) && Chosen(w2, source, prior, context2)
    ensures context1 == context2
  {
    hide Assemble;
    var t1: nat :| ChosenAt(w1, source, prior, context1, t1);
    var t2: nat :| ChosenAt(w2, source, prior, context2, t2);
    assert Compatible(w1.select(source, prior, t1), w2.select(source, prior, t2));
    AssembleIsCausal(w1.raw, w2.raw, prior, w1.bounds, source, w1.select(source, prior, t1).value);
  }

  /** What the agreement of two memories needs of each run. */
  ghost predicate Grown(w: World, S: seq<Source>, memory: Memory, admissions: multiset<Key>) {
    Increasing(S) && Ledger(S, memory, admissions) && ReceiptsFollow(w, S, memory)
  }

  lemma InvGrown(w: World, S: seq<Source>, s: Sys, p: nat, q: nat)
    requires Inv(w, S, s, p, q)
    ensures Grown(w, S, s.memory, s.admissions)
  {
    hide CallsBounded, Placed, Tight, PendingFollows;
  }

  lemma {:induction false} ReceiptsAgree(w1: World, memory1: Memory, adm1: multiset<Key>, w2: World, memory2: Memory,
                                         adm2: multiset<Key>, n: nat, i: nat)
    requires Grown(w1, Sources(w1.raw), memory1, adm1) && Grown(w2, Sources(w2.raw), memory2, adm2)
    requires SharePrefix(Sources(w1.raw), Sources(w2.raw), n) && SameBehaviour(w1, w2)
    requires i < n && Sources(w1.raw)[i].key in memory1 && Sources(w1.raw)[i].key in memory2
    ensures memory1[Sources(w1.raw)[i].key] == memory2[Sources(w1.raw)[i].key]
    decreases i
  {
    var S1, S2 := Sources(w1.raw), Sources(w2.raw);
    hide Sources, SameBehaviour, Increasing, Ledger, ReceiptsFollow;
    forall j | 0 <= j < i && S1[j].key in memory1 && S1[j].key in memory2 ensures memory1[S1[j].key] == memory2[S1[j].key] {
      ReceiptsAgree(w1, memory1, adm1, w2, memory2, adm2, n, j);
    }
    PriorsEqual(S1, memory1, adm1, S2, memory2, adm2, n, i);
    PrefixAgrees(w1.raw, w2.raw, n, i);
    ReceiptAgrees(w1, S1, memory1, w2, S2, memory2, i);
  }

  lemma ReceiptAgrees(w1: World, S1: seq<Source>, memory1: Memory, w2: World, S2: seq<Source>, memory2: Memory, i: nat)
    requires ReceiptsFollow(w1, S1, memory1) && ReceiptsFollow(w2, S2, memory2) && SameBehaviour(w1, w2)
    requires i < |S1| && i < |S2| && S1[i] == S2[i] && AgreeUpTo(w1.raw, w2.raw, S1[i])
    requires S1[i].key in memory1 && S1[i].key in memory2 && Before(memory1, S1[i].key) == Before(memory2, S1[i].key)
    ensures memory1[S1[i].key] == memory2[S1[i].key]
  {
    hide Before, ReceiptFollows, SameBehaviour, AgreeUpTo;
    ReceiptDetermined(w1, w2, S1[i], Before(memory1, S1[i].key), memory1[S1[i].key], memory2[S1[i].key]);
  }

  lemma PriorsEqual(S1: seq<Source>, memory1: Memory, adm1: multiset<Key>, S2: seq<Source>, memory2: Memory,
                    adm2: multiset<Key>, n: nat, i: nat)
    requires Increasing(S1) && Ledger(S1, memory1, adm1) && Increasing(S2) && Ledger(S2, memory2, adm2)
             && SharePrefix(S1, S2, n)
    requires i < n && S1[i].key in memory1 && S1[i].key in memory2
    requires forall j | 0 <= j < i && S1[j].key in memory1 && S1[j].key in memory2 :: memory1[S1[j].key] == memory2[S1[j].key]
    ensures S1[i] == S2[i] && Before(memory1, S1[i].key) == Before(memory2, S1[i].key)
  {
    assert S1[..n][i] == S2[..n][i];
    SamePriorKeys(S1, memory1, adm1, S2, memory2, adm2, n, i);
    hide Ledger, Increasing;
    var k := S1[i].key;
    forall x | x in Before(memory1, k) || x in Before(memory2, k)
      ensures x in Before(memory1, k) && x in Before(memory2, k) && Before(memory1, k)[x] == Before(memory2, k)[x]
    {
    }
  }

  lemma SamePriorKeys(S1: seq<Source>, memory1: Memory, adm1: multiset<Key>, S2: seq<Source>, memory2: Memory,
                      adm2: multiset<Key>, n: nat, i: nat)
    requires Increasing(S1) && Ledger(S1, memory1, adm1) && Increasing(S2) && Ledger(S2, memory2, adm2)
             && SharePrefix(S1, S2, n)
    requires i < n && S1[i].key in memory1 && S1[i].key in memory2
    ensures S1[i].key == S2[i].key
    ensures forall x | Less(x, S1[i].key) && (x in memory1 || x in memory2) ::
              x in memory1 && x in memory2 && exists j :: 0 <= j < i && S1[j].key == x
  {
    assert S1[..n][i] == S2[..n][i];
    assert S2[..n] == S1[..n];
    forall x | Less(x, S1[i].key) && x in memory1 ensures x in memory2 && exists j :: 0 <= j < i && S1[j].key == x {
      var j := EarlierIndex(S1, memory1, adm1, S2, memory2, adm2, n, i, x);
    }
    forall x | Less(x, S1[i].key) && x in memory2 ensures x in memory1 && exists j :: 0 <= j < i && S1[j].key == x {
      var j := EarlierIndex(S2, memory2, adm2, S1, memory1, adm1, n, i, x);
    }
  }

  lemma EarlierIndex(S1: seq<Source>, memory1: Memory, adm1: multiset<Key>, S2: seq<Source>, memory2: Memory,
                     adm2: multiset<Key>,
                     n: nat, i: nat, x: Key) returns (j: nat)
    requires Increasing(S1) && Ledger(S1, memory1, adm1) && Ledger(S2, memory2, adm2) && SharePrefix(S1, S2, n)
    requires i < n && S2[i].key in memory2 && Less(x, S1[i].key) && x in memory1
    ensures j < i && S1[j].key == x && S2[j].key == x && x in memory2
  {
    hide Disposed;
    j :| 0 <= j < |S1| && S1[j].key == x && Disposed(S1[j]) == Compile;
    assert j < i;
    hide Increasing;
    assert S1[..n][j] == S2[..n][j];
    assert S2[j] == S1[j];
  }

  /** Causality of the whole rebuild. Two runs over native databases that agree on their first n records give every one
      of those records that both have admitted the same receipt, whatever later records exist, and however the runs were
      crashed, failed or restarted. With the same database on both sides this is determinism of the recovered memory. */
  lemma MemoryIsCausal(w1: World, schedule1: seq<Action>, s1: Sys, w2: World, schedule2: seq<Action>, s2: Sys, n: nat)
    requires Reached(w1, schedule1, s1) && Reached(w2, schedule2, s2)
    requires SharePrefix(Sources(w1.raw), Sources(w2.raw), n) && SameBehaviour(w1, w2)
    ensures forall i | 0 <= i < n && Sources(w1.raw)[i].key in s1.memory && Sources(w1.raw)[i].key in s2.memory ::
              s1.memory[Sources(w1.raw)[i].key] == s2.memory[Sources(w1.raw)[i].key]
  {
    var p1, q1 := EveryRunIsSound(w1, schedule1, s1);
    var p2, q2 := EveryRunIsSound(w2, schedule2, s2);
    InvGrown(w1, Sources(w1.raw), s1, p1, q1);
    InvGrown(w2, Sources(w2.raw), s2, p2, q2);
    hide Inv, Sources, Grown, SameBehaviour;
    forall i | 0 <= i < n && Sources(w1.raw)[i].key in s1.memory && Sources(w1.raw)[i].key in s2.memory
      ensures s1.memory[Sources(w1.raw)[i].key] == s2.memory[Sources(w1.raw)[i].key]
    {
      ReceiptsAgree(w1, s1.memory, s1.admissions, w2, s2.memory, s2.admissions, n, i);
    }
  }

  /** With a deterministic selection, worker and admission, drained runs also agree on every receipt and on the number
      of deferred sources. */
  lemma DrainedMemoriesAgree(w1: World, schedule1: seq<Action>, s1: Sys, w2: World, schedule2: seq<Action>, s2: Sys)
    requires Reached(w1, schedule1, s1) && Drained(w1, s1)
    requires Reached(w2, schedule2, s2) && Drained(w2, s2)
    requires w1.raw == w2.raw && SameBehaviour(w1, w2)
    ensures s1.memory == s2.memory
    ensures s1.mem.deferred == s2.mem.deferred
  {
    var p1, q1 := DrainedPosition(w1, schedule1, s1);
    var p2, q2 := DrainedPosition(w2, schedule2, s2);
    hide Inv, Tally, Deferrals, SameBehaviour, Ledger;
    var S := Sources(w1.raw);
    hide Sources;
    DrainedRunsAgree(w1, schedule1, s1, w2, schedule2, s2);
    MemoryIsCausal(w1, schedule1, s1, w2, schedule2, s2, |S|);
    SameMemory(S, s1.memory, s1.admissions, s2.memory);
  }

  lemma SameMemory(S: seq<Source>, memory1: Memory, admissions1: multiset<Key>, memory2: Memory)
    requires Ledger(S, memory1, admissions1) && memory1.Keys == memory2.Keys
    requires forall i | 0 <= i < |S| && S[i].key in memory1 && S[i].key in memory2 :: memory1[S[i].key] == memory2[S[i].key]
    ensures memory1 == memory2
  {
    forall k | k in memory1 ensures k in memory2 && memory1[k] == memory2[k] {
      assert k in memory1.Keys;
      var i :| 0 <= i < |S| && S[i].key == k && Disposed(S[i]) == Compile;
    }
  }
}
