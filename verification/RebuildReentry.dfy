/** Exactly when a call of `run` can admit past the source after the durable cursor: when it is made on an object that
    has moved past the file and still holds an answer the file does not have. */
module RebuildReentry {
  import opened Wrappers
  import opened Keyset
  import opened SourceCurator
  import opened SourceIterator
  import opened ContextAssembler
  import opened RebuildMachine
  import opened RebuildSafety
  import opened RebuildTheorems

  /** Some receipt belongs to a source later than the first one after the file's cursor. */
  ghost predicate Overruns(raw: Raw, s: Sys) {
    exists i :: Position(Sources(raw), s.disk.cursor) < i < |Sources(raw)| && Sources(raw)[i].key in s.memory
  }

  predicate HoldsAnswer(s: Sys) {
    s.mem.pending.Some? && s.mem.pending.value.payload.Some?
  }

  /** What a caller can look at before calling `run` again: two ordering keys and one payload. */
  predicate Risky(s: Sys) {
    s.mem.cursor != s.disk.cursor && HoldsAnswer(s)
  }

  /** Memory is after p sources, the file after q, and no receipt lies beyond source q. */
  ghost predicate Calm(S: seq<Source>, s: Sys, p: nat, q: nat) {
    && Increasing(S)
    && CursorAt(S, p, s.mem) && CursorAt(S, q, s.disk) && q <= p
    && (forall i | 0 <= i < |S| && S[i].key in s.memory :: i <= q)
    && (s.pc.Top? && HoldsAnswer(s) ==> p == q)
    && (s.pc.Admitting? ==> p == q)
  }

  lemma CalmIsWithin(raw: Raw, s: Sys, p: nat, q: nat)
    requires Calm(Sources(raw), s, p, q)
    ensures !Overruns(raw, s)
  {
    PositionAt(raw, |Sources(raw)|, q, s.disk);
    assert Sources(raw)[..|Sources(raw)|] == Sources(raw);
    hide Sources, Position;
  }

  lemma IdleIsCalm(w: World, schedule: seq<Action>, s: Sys) returns (p: nat, q: nat)
    requires Reached(w, schedule, s) && s.pc.Idle? && !Overruns(w.raw, s)
    ensures Calm(Sources(w.raw), s, p, q) && Placed(Sources(w.raw), s, p, q)
  {
    p, q := EveryRunIsSound(w, schedule, s);
    PositionAt(w.raw, |Sources(w.raw)|, q, s.disk);
    assert Sources(w.raw)[..|Sources(w.raw)|] == Sources(w.raw);
    hide Sources, Position, Tally, Deferrals, CallsBounded, ReceiptsFollow, PendingFollows, Tight, Ledger;
  }

  /** Equal cursors, equal positions. */
  lemma CursorsDiffer(S: seq<Source>, s: Sys, p: nat, q: nat)
    requires Increasing(S) && CursorAt(S, p, s.mem) && CursorAt(S, q, s.disk)
    ensures s.mem.cursor == s.disk.cursor <==> p == q
  {
    assert p > 0 && q > 0 && p != q ==> S[p - 1].key != S[q - 1].key;
  }

  /** Admission is for source q itself, so nothing past it is receipted. */
  lemma AdmitIsCalm(w: World, S: seq<Source>, s: Sys, t: nat, p: nat, q: nat)
    requires Calm(S, s, p, q) && s.pc.Admitting? && p < |S| && AdmitStep(w, s, S[p], t).Some?
    ensures Calm(S, AdmitStep(w, s, S[p], t).value, p, q)
  {
    forall i | 0 <= i < |S| && S[i].key == S[p].key ensures i == p {
      assert i < p ==> Less(S[i].key, S[p].key);
      assert p < i ==> Less(S[p].key, S[i].key);
    }
  }

  /** A successful save brings the file level with memory; a failure changes neither cursor. */
  lemma SaveIsCalm(S: seq<Source>, s: Sys, s': Sys, p: nat, q: nat)
    requires Calm(S, s, p, q) && s'.memory == s.memory && s'.disk == s'.mem
    ensures s'.mem == s.mem ==> Calm(S, s', p, p)
    ensures s'.mem == s.disk ==> Calm(S, s', q, q)
  {
    hide Increasing;
  }

  lemma FailIsCalm(S: seq<Source>, s: Sys, source: Source, p: nat, q: nat)
    requires Calm(S, s, p, q)
    ensures Calm(S, Fail(s, source), p, q)
  {
    hide Increasing;
  }

  lemma PassIsCalm(S: seq<Source>, s: Sys, counted: Checkpoint, p: nat, q: nat)
    requires Calm(S, s, p, q) && p < |S|
    ensures Calm(S, s.(pc := Settled(S[p]), mem := Passed(counted, S[p])), p + 1, q)
  {
    hide Increasing;
  }

  lemma BegunIsCalm(S: seq<Source>, s: Sys, next: Pc, p: nat, q: nat)
    requires Calm(S, s, p, q) && s.pc.Top? && !next.Top? && (next.Admitting? ==> HoldsAnswer(s))
    ensures Calm(S, s.(pc := next), p, q)
  {
    hide Increasing;
  }

  lemma StartIsBegun(w: World, S: seq<Source>, s: Sys, t: nat, p: nat, q: nat)
    requires Calm(S, s, p, q) && s.pc.Top? && p < |S|
    ensures var s' := BeginStep(w, s, S[p], t);
            Calm(S, s', if s'.pc.Settled? then p + 1 else p, q)
  {
    hide Sources, Disposed, Increasing, Calm, Passed;
    match Disposed(S[p])
    case ContextOnly => PassIsCalm(S, s, s.mem.(contextual := s.mem.contextual + 1), p, q);
    case Ignore => PassIsCalm(S, s, s.mem.(ignored := s.mem.ignored + 1), p, q);
    case Compile =>
      var s' := BeginStep(w, s, S[p], t);
      if s'.pc.Failing? { FailIsCalm(S, s, S[p], p, q); } else { BegunIsCalm(S, s, s'.pc, p, q); }
  }

  /** What does not touch a cursor, the file or the receipts changes nothing here. */
  lemma SameCursorsAreCalm(S: seq<Source>, s: Sys, s': Sys, p: nat, q: nat)
    requires Calm(S, s, p, q) && s'.memory == s.memory && s'.disk == s.disk && !s'.pc.Top? && !s'.pc.Admitting?
    requires s'.mem.cursor == s.mem.cursor && s'.mem.lastRef == s.mem.lastRef
    ensures Calm(S, s', p, q)
  {
    hide Increasing;
  }

  lemma SavedIsCalm(w: World, S: seq<Source>, s: Sys, source: Source, next: Pc, t: nat, p: nat, q: nat)
    requires Calm(S, s, p, q) && !next.Top?
    ensures Calm(S, SaveStep(w, s, source, next, t), p, if w.save(t) then p else q)
  {
    hide Calm;
    var s' := SaveStep(w, s, source, next, t);
    if w.save(t) { SaveIsCalm(S, s, s', p, q); } else { SameCursorsAreCalm(S, s, s', p, q); }
  }

  lemma ComposeIsCalm(S: seq<Source>, s: Sys, source: Source, context: Option<Context>, p: nat, q: nat)
    requires Calm(S, s, p, q)
    ensures Calm(S, ComposeWith(s, source, context), p, q)
  {
    hide Calm;
    SameCursorsAreCalm(S, s, ComposeWith(s, source, context), p, q);
  }

  lemma CallIsCalm(w: World, S: seq<Source>, s: Sys, source: Source, context: Context, t: nat, p: nat, q: nat)
    requires Calm(S, s, p, q) && s.pc.Calling?
    ensures Calm(S, WorkStep(w, s, source, context, t), p, q)
  {
    hide Calm;
    SameCursorsAreCalm(S, s, WorkStep(w, s, source, context, t), p, q);
  }

  /** Composing, calling the worker and saving what they give. */
  lemma CompileIsCalm(w: World, S: seq<Source>, s: Sys, a: Action, p: nat, q: nat) returns (q': nat)
    requires Calm(S, s, p, q) && p < |S| && WorkingStep(w, s, S[p], a).Some?
    requires s.pc.Composing? || s.pc.Proposed? || s.pc.Calling? || s.pc.Answered?
    ensures Calm(S, WorkingStep(w, s, S[p], a).value, p, q')
  {
    hide Composed, Calm, BeginStep, AdmitStep, AdvanceStep, SaveStep, WorkStep, ComposeWith;
    q' := if a.Save? && w.save(a.t) then p else q;
    match s.pc
    case Composing => ComposeIsCalm(S, s, S[p], Composed(w, S[p], s.memory, a.t), p, q);
    case Proposed(context) => SavedIsCalm(w, S, s, S[p], Calling(context), a.t, p, q);
    case Calling(context) => CallIsCalm(w, S, s, S[p], context, a.t, p, q);
    case Answered => SavedIsCalm(w, S, s, S[p], Admitting, a.t, p, q);
  }

  lemma AdvanceIsCalm(S: seq<Source>, s: Sys, receipt: Receipt, p: nat, q: nat)
    requires Calm(S, s, p, q) && p < |S|
    ensures Calm(S, AdvanceStep(s, S[p], receipt), p + 1, q)
  {
    hide Increasing;
  }

  lemma WorkIsCalm(w: World, S: seq<Source>, s: Sys, a: Action, p: nat, q: nat) returns (p': nat, q': nat)
    requires Calm(S, s, p, q) && p < |S| && WorkingStep(w, s, S[p], a).Some?
    ensures Calm(S, WorkingStep(w, s, S[p], a).value, p', q')
  {
    hide Calm, BeginStep, AdmitStep, AdvanceStep, ComposeStep, SaveStep, WorkStep;
    p', q' := p, q;
    if s.pc.Top? {
      StartIsBegun(w, S, s, a.t, p, q);
      p' := if BeginStep(w, s, S[p], a.t).pc.Settled? then p + 1 else p;
    } else if s.pc.Admitting? {
      AdmitIsCalm(w, S, s, a.t, p, q);
    } else if s.pc.Admitted? {
      AdvanceIsCalm(S, s, s.pc.receipt, p, q);
      p' := p + 1;
    } else {
      q' := CompileIsCalm(w, S, s, a, p, q);
    }
  }

  /** Outside the loop body nothing moves; a call made while not risky starts calm. */
  lemma TurnIsCalm(S: seq<Source>, s: Sys, s': Sys, p: nat, q: nat)
    requires Calm(S, s, p, q) && s' == s.(pc := s'.pc, dirty := s'.dirty)
    requires s'.pc.Idle? || (s'.pc.Top? && !Risky(s))
    ensures Calm(S, s', p, q)
  {
    CursorsDiffer(S, s, p, q);
    hide Increasing, CursorAt;
  }

  /** The two saves after a source: past it, and of its failure. */
  lemma AfterIsCalm(w: World, S: seq<Source>, s: Sys, a: Action, s': Sys, p: nat, q: nat) returns (q': nat)
    requires Calm(S, s, p, q) && (s.pc.Settled? || s.pc.Failing?) && a.Save? && Step(w, s, a) == Some(s')
    ensures Calm(S, s', p, q')
  {
    hide Calm, Upcoming, WorkingStep;
    q' := if w.save(a.t) then p else q;
    if w.save(a.t) { SaveIsCalm(S, s, s', p, q); }
    else if s.pc.Settled? { FailIsCalm(S, s, s.pc.source, p, q); }
    else { TurnIsCalm(S, s, s', p, q); }
  }

  /** Every action keeps to source q, an entry as long as it is not a risky one. */
  lemma StepIsCalm(w: World, s: Sys, a: Action, s': Sys, p: nat, q: nat) returns (p': nat, q': nat)
    requires Calm(Sources(w.raw), s, p, q) && Step(w, s, a) == Some(s') && (a.Enter? ==> !Risky(s))
    ensures Calm(Sources(w.raw), s', p', q')
  {
    NextIsCalm(w, s, p, q);
    hide Sources, Upcoming, WorkingStep, Calm, Risky, SaveStep, HandlerStep;
    p', q' := p, q;
    if a.Crash? {
      SaveIsCalm(Sources(w.raw), s, s', p, q);
      p' := q;
    } else if s.pc.Idle? || (s.pc.Top? && a.Leave?) {
      TurnIsCalm(Sources(w.raw), s, s', p, q);
    } else if s.pc.Settled? || s.pc.Failing? {
      q' := AfterIsCalm(w, Sources(w.raw), s, a, s', p, q);
    } else {
      p', q' := WorkIsCalm(w, Sources(w.raw), s, a, p, q);
    }
  }

  lemma NextIsCalm(w: World, s: Sys, p: nat, q: nat)
    requires Calm(Sources(w.raw), s, p, q)
    ensures Upcoming(w.raw, s.mem.cursor) == if p < |Sources(w.raw)| then Some(Sources(w.raw)[p]) else None
  {
    UpcomingAt(w.raw, p, s.mem);
  }

  // ---- one entry -------------------------------------------------------------------

  /** Everything after a single call of `run`, up to the next call. */
  predicate OneEntry(rest: seq<Action>) {
    forall i | 0 <= i < |rest| :: !rest[i].Enter?
  }

  function Entered(s: Sys): Sys {
    s.(pc := Top, dirty := s.dirty || s.mem != s.disk)
  }

  ghost predicate EntryReaches(w: World, s: Sys, rest: seq<Action>, s': Sys) {
    OneEntry(rest) && Exec(w, Entered(s), rest) == Some(s')
  }

  lemma {:induction false} EntryIsCalm(w: World, s: Sys, rest: seq<Action>, s': Sys, p: nat, q: nat)
    returns (p': nat, q': nat)
    requires EntryReaches(w, s, rest, s') && Calm(Sources(w.raw), Entered(s), p, q)
    ensures Calm(Sources(w.raw), s', p', q')
    decreases |rest|
  {
    hide Calm, Step;
    if rest == [] {
      p', q' := p, q;
    } else {
      var before := Exec(w, Entered(s), rest[..|rest| - 1]).value;
      p', q' := EntryIsCalm(w, s, rest[..|rest| - 1], before, p, q);
      p', q' := StepIsCalm(w, before, rest[|rest| - 1], s', p', q');
    }
  }

  const GRANTED := Receipt(false, [])

  /** The same records, with a receipt lookup that answers and an admission that grants. */
  function Willing(w: World): World {
    w.(lookup := t => true, admit := (payload, source, ids, memory, t) => Accepted(GRANTED))
  }

  lemma RiskyIsAhead(w: World, s: Sys, p: nat, q: nat)
    requires Calm(Sources(w.raw), s, p, q) && Placed(Sources(w.raw), s, p, q) && Risky(s)
    ensures q < p < |Sources(w.raw)| && Upcoming(w.raw, s.mem.cursor) == Some(Sources(w.raw)[p])
    ensures Disposed(Sources(w.raw)[p]) == Compile && s.mem.pending.value.binding == Sources(w.raw)[p].ref
    ensures Sources(w.raw)[p].key !in s.memory && CursorAt(Sources(w.raw), q, s.disk)
  {
    UpcomingAt(w.raw, p, s.mem);
    CursorsDiffer(Sources(w.raw), s, p, q);
    hide Sources, Upcoming, Disposed, Tally, Deferrals, Increasing;
  }

  lemma BeginsAdmitting(w: World, s: Sys, source: Source)
    requires s.pc.Top? && HoldsAnswer(s) && Upcoming(w.raw, s.mem.cursor) == Some(source) && source in Sources(w.raw)
    requires Disposed(source) == Compile && s.mem.pending.value.binding == source.ref && source.key !in s.memory
    ensures Step(Willing(w), s, Begin(0)) == Some(s.(pc := Admitting))
    ensures Step(Willing(w), s.(pc := Admitting), Action.Admit(0)) == Some(Receive(s.(pc := Admitting), source, GRANTED))
  {
    hide Sources, Upcoming, Disposed;
  }

  lemma AdmitsAtOnce(w: World, s: Sys, source: Source) returns (rest: seq<Action>, s': Sys)
    requires s.pc.Top? && HoldsAnswer(s) && Upcoming(w.raw, s.mem.cursor) == Some(source) && source in Sources(w.raw)
    requires Disposed(source) == Compile && s.mem.pending.value.binding == source.ref && source.key !in s.memory
    ensures OneEntry(rest) && Exec(Willing(w), s, rest) == Some(s') && s'.disk == s.disk && source.key in s'.memory
  {
    hide Sources, Upcoming, Disposed, Step, Exec, Willing, HoldsAnswer;
    BeginsAdmitting(w, s, source);
    rest, s' := [Begin(0), Action.Admit(0)], Receive(s.(pc := Admitting), source, GRANTED);
    TwoSteps(Willing(w), s, s.(pc := Admitting), s', rest);
  }

  lemma LateReceipt(raw: Raw, s: Sys, p: nat, q: nat)
    requires CursorAt(Sources(raw), q, s.disk) && q < p < |Sources(raw)| && Sources(raw)[p].key in s.memory
    ensures Overruns(raw, s)
  {
    PositionAt(raw, |Sources(raw)|, q, s.disk);
    assert Sources(raw)[..|Sources(raw)|] == Sources(raw);
    hide Sources, Position;
  }

  /** What makes the overrun happen: nothing is saved between the entry and the admission of the held answer. */
  lemma RiskyEntryOverruns(w: World, s: Sys, p: nat, q: nat) returns (rest: seq<Action>, s': Sys)
    requires Calm(Sources(w.raw), s, p, q) && Placed(Sources(w.raw), s, p, q) && s.pc.Idle? && Risky(s)
    ensures EntryReaches(Willing(w), s, rest, s') && Overruns(w.raw, s')
  {
    RiskyIsAhead(w, s, p, q);
    hide Calm, Placed, Sources, Upcoming, Disposed, Step, Exec, Overruns, OneEntry, Willing, CursorAt;
    var source := Sources(w.raw)[p];
    assert source in Sources(w.raw);
    rest, s' := AdmitsAtOnce(w, Entered(s), source);
    LateReceipt(w.raw, s', p, q);
  }

  lemma TwoSteps(w: World, s: Sys, middle: Sys, s': Sys, rest: seq<Action>)
    requires |rest| == 2 && Step(w, s, rest[0]) == Some(middle) && Step(w, middle, rest[1]) == Some(s')
    ensures Exec(w, s, rest) == Some(s')
  {
    hide Step;
    assert rest[..1] == [rest[0]];
    assert [rest[0]][..0] == [];
    assert Exec(w, s, []) == Some(s);
    assert Exec(w, s, [rest[0]]) == Some(middle);
  }

  /** From a state whose receipts are within the file's next source, one call of `run` can leave it, under some
      behaviour of everything outside, exactly when the call is risky. */
  lemma EntryOverrunsIff(w: World, schedule: seq<Action>, s: Sys)
    requires Reached(w, schedule, s) && s.pc.Idle? && !Overruns(w.raw, s)
    ensures (exists w': World, rest: seq<Action>, s': Sys :: w'.raw == w.raw && EntryReaches(w', s, rest, s') && Overruns(w.raw, s'))
            <==> Risky(s)
  {
    var p, q := IdleIsCalm(w, schedule, s);
    if Risky(s) {
      var rest, s' := RiskyEntryOverruns(w, s, p, q);
      assert Willing(w).raw == w.raw;
    } else {
      QuietEntry(w, s, p, q);
      hide Sources, Overruns, EntryReaches;
      forall w': World, rest: seq<Action>, s': Sys | w'.raw == w.raw && EntryReaches(w', s, rest, s')
        ensures !Overruns(w.raw, s')
      {
        hide Calm;
        var p', q' := EntryIsCalm(w', s, rest, s', p, q);
        CalmIsWithin(w.raw, s', p', q');
      }
    }
  }

  lemma QuietEntry(w: World, s: Sys, p: nat, q: nat)
    requires Calm(Sources(w.raw), s, p, q) && s.pc.Idle? && !Risky(s)
    ensures Calm(Sources(w.raw), Entered(s), p, q)
  {
    CursorsDiffer(Sources(w.raw), s, p, q);
    hide Sources, Increasing, CursorAt;
  }

  // ---- whole runs ------------------------------------------------------------------

  /** Every call of `run` in the schedule was made from a state that is not risky. */
  predicate Careful(w: World, schedule: seq<Action>) {
    forall n | 0 <= n < |schedule| && schedule[n].Enter? ::
      Exec(w, START, schedule[..n]).Some? ==> !Risky(Exec(w, START, schedule[..n]).value)
  }

  lemma {:induction false} CarefulIsCalm(w: World, schedule: seq<Action>, s: Sys) returns (p: nat, q: nat)
    requires Reached(w, schedule, s) && Careful(w, schedule)
    ensures Calm(Sources(w.raw), s, p, q)
    decreases |schedule|
  {
    hide Step, Sources, Risky;
    if schedule == [] {
      StartIsCalm(w.raw);
      p, q := 0, 0;
    } else {
      var n := |schedule| - 1;
      var before := Exec(w, START, schedule[..n]).value;
      forall m | 0 <= m < n && schedule[..n][m].Enter?
        ensures Exec(w, START, schedule[..n][..m]).Some? ==> !Risky(Exec(w, START, schedule[..n][..m]).value)
      {
        assert schedule[..n][..m] == schedule[..m];
      }
      p, q := CarefulIsCalm(w, schedule[..n], before);
      p, q := StepIsCalm(w, before, schedule[n], s, p, q);
    }
  }

  lemma StartIsCalm(raw: Raw)
    ensures Calm(Sources(raw), START, 0, 0)
  {
    SourcesIncreasing(raw);
  }

  /** Careful runs never leave it: at every instant no receipt lies beyond the first source after the file's cursor. */
  lemma CarefulRunsStayWithin(w: World, schedule: seq<Action>, s: Sys)
    requires Reached(w, schedule, s) && Careful(w, schedule)
    ensures !Overruns(w.raw, s)
  {
    var p, q := CarefulIsCalm(w, schedule, s);
    CalmIsWithin(w.raw, s, p, q);
  }
}
