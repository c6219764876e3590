/** Where the documented reading of the checkpoint fails: calling `run` again on an object whose last failure could not
    be saved lets receipts run ahead of the durable cursor. RebuildReentry says exactly which calls can. */
module RebuildOverrun {
  import opened Wrappers
  import opened Keyset
  import opened SourceCurator
  import opened SourceIterator
  import opened ContextAssembler
  import opened RebuildMachine
  import opened RebuildTheorems
  import opened HistoricalRebuilds

  /** A context record followed by an eligible one, willing components, and a disk that refuses every save. */
  ghost predicate StuckDisk(w: World, context: Context, payload: string, receipt: Receipt) {
    var S := Sources(w.raw);
    && |S| >= 2 && Disposed(S[0]) == ContextOnly && Disposed(S[1]) == Compile
    && (forall t: nat :: !w.save(t) && w.lookup(t))
    && (forall t: nat :: Composed(w, S[1], map[], t) == Some(context))
    && (forall t: nat :: w.worker(context, t) == Some(payload))
    && (forall t: nat :: w.admit(payload, S[1], context.activated, map[], t) == Accepted(receipt))
  }

  /** Outside a run, standing on the second source in memory while the file still holds nothing. */
  ghost predicate Ahead1(w: World, s: Sys, pending: Option<Pending>) {
    && |Sources(w.raw)| >= 2
    && s.pc.Idle? && s.disk == FRESH && s.memory == map[] && s.mem.pending == pending
    && CursorAt(Sources(w.raw), 1, s.mem)
  }

  lemma Extend(w: World, schedule: seq<Action>, s: Sys, a: Action) returns (schedule': seq<Action>, s': Sys)
    requires Reached(w, schedule, s) && Step(w, s, a).Some?
    ensures Reached(w, schedule', s') && Some(s') == Step(w, s, a)
  {
    s' := Step(w, s, a).value;
    ExecAppend(w, schedule, s, a, s');
    schedule' := schedule + [a];
  }

  /** A failed save and a failed save in the handler: the run ends and only memory has moved. */
  lemma FailTwice(w: World, schedule: seq<Action>, s: Sys) returns (schedule': seq<Action>, s': Sys)
    requires Reached(w, schedule, s) && !w.save(0)
    requires Step(w, s, Save(0)).Some? && Step(w, s, Save(0)).value.pc.Failing?
    requires !s.pc.Failing?
    ensures Reached(w, schedule', s')
    ensures s'.pc.Idle? && s'.disk == Step(w, s, Save(0)).value.disk && s'.memory == Step(w, s, Save(0)).value.memory
            && s'.mem == Step(w, s, Save(0)).value.mem
  {
    hide Exec, Upcoming, Sources;
    schedule', s' := Extend(w, schedule, s, Save(0));
    schedule', s' := Extend(w, schedule', s', Save(0));
  }

  lemma SkipUnsaved(w: World, context: Context, payload: string, receipt: Receipt)
    returns (schedule: seq<Action>, s: Sys)
    requires StuckDisk(w, context, payload, receipt)
    ensures Reached(w, schedule, s) && Ahead1(w, s, None)
  {
    hide Sources, Composed;
    UpcomingAt(w.raw, 0, FRESH);
    hide Upcoming;
    schedule, s := Extend(w, [], START, Enter);
    schedule, s := Extend(w, schedule, s, Begin(0));
    schedule, s := FailTwice(w, schedule, s);
  }

  /** An eligible record goes to the compiler, at the stage its proposal has reached. */
  lemma BeginCompile(w: World, s: Sys, source: Source)
    requires s.pc.Top? && Upcoming(w.raw, s.mem.cursor) == Some(source) && source in Sources(w.raw)
    requires Disposed(source) == Compile && w.lookup(0) && source.key !in s.memory
    requires s.mem.pending.Some? ==> s.mem.pending.value.binding == source.ref
    ensures Step(w, s, Begin(0))
            == Some(s.(pc := if s.mem.pending.Some? && s.mem.pending.value.payload.Some? then Admitting else Composing))
  {
    hide Upcoming, Sources, Disposed;
  }

  lemma Reenter(w: World, schedule: seq<Action>, s: Sys, context: Context, payload: string, receipt: Receipt,
                pending: Option<Pending>)
    returns (schedule': seq<Action>, s': Sys)
    requires StuckDisk(w, context, payload, receipt) && Reached(w, schedule, s) && Ahead1(w, s, pending)
    requires pending.Some? ==> pending.value.binding == Sources(w.raw)[1].ref
    ensures Reached(w, schedule', s')
    ensures s'.disk == FRESH && s'.memory == map[] && s'.mem == s.mem
            && Upcoming(w.raw, s'.mem.cursor) == Some(Sources(w.raw)[1])
    ensures if pending.Some? && pending.value.payload.Some? then s'.pc.Admitting? else s'.pc.Composing?
  {
    hide Composed, Exec, Disposed, WorkingStep;
    UpcomingAt(w.raw, 1, s.mem);
    var source := Sources(w.raw)[1];
    assert source in Sources(w.raw);
    assert Disposed(source) == Compile && w.lookup(0);
    hide Upcoming, Sources, StuckDisk, CursorAt, Ahead1;
    schedule', s' := Extend(w, schedule, s, Enter);
    BeginCompile(w, s', source);
    hide Step;
    schedule', s' := Extend(w, schedule', s', Begin(0));
  }

  /** Three more entries without a single save: propose, answer, admit. */
  lemma ReentryOutrunsTheFile(w: World, context: Context, payload: string, receipt: Receipt)
    returns (schedule: seq<Action>, s: Sys)
    requires StuckDisk(w, context, payload, receipt)
    ensures Reached(w, schedule, s) && s.disk == FRESH
    ensures Sources(w.raw)[1].key in s.memory && Position(Sources(w.raw), s.disk.cursor) == 0
  {
    hide Exec, Sources, Upcoming, Composed;
    var source := Sources(w.raw)[1];
    var proposed := Pending(source.ref, None, context, context.activated);
    var answered := proposed.(payload := Some(payload));
    schedule, s := SkipUnsaved(w, context, payload, receipt);
    schedule, s := ProposeUnsaved(w, schedule, s, context, payload, receipt);
    schedule, s := AnswerUnsaved(w, schedule, s, context, payload, receipt);
    schedule, s := Reenter(w, schedule, s, context, payload, receipt, Some(answered));
    schedule, s := Extend(w, schedule, s, Admit(0));
  }

  /** Two records of one user, an assistant's and then an eligible one. */
  function TwoRecords(first: Row, second: Row, namespace: string): Raw {
    Raw(map[1 := first, 2 := second], second.owner, namespace)
  }

  lemma TwoSources(first: Row, second: Row, namespace: string)
    requires first.owner == second.owner && first.at < second.at
    ensures var raw := TwoRecords(first, second, namespace);
            Owned(raw, Key(first.at, 1)) && Owned(raw, Key(second.at, 2))
            && Sources(raw) == [SourceOf(raw, Key(first.at, 1)), SourceOf(raw, Key(second.at, 2))]
  {
    var raw, order := TwoRecords(first, second, namespace), [Key(first.at, 1), Key(second.at, 2)];
    TwoKeys(first, second, namespace);
    AscendingUnique(Ordered(Matching(raw)), order);
  }

  lemma TwoKeys(first: Row, second: Row, namespace: string)
    requires first.owner == second.owner
    ensures var raw := TwoRecords(first, second, namespace);
            forall k :: k in Matching(raw) <==> k in [Key(first.at, 1), Key(second.at, 2)]
  {
    var raw := TwoRecords(first, second, namespace);
    forall k ensures k in Matching(raw) <==> k in [Key(first.at, 1), Key(second.at, 2)] {
      assert k in Matching(raw) <==> Owned(raw, k);
    }
  }

  lemma NothingSelected(raw: Raw, current: Source)
    requires current in Sources(raw) && Disposed(current) == Compile
             && Length(current.content) <= DEFAULT_BOUNDS.maxChars
    ensures Assemble(raw, map[], DEFAULT_BOUNDS, current, Selection([], [])) == Some(Context(current, [], [], []))
  {
    hide Sources, Disposed;
    assert Fits(raw, map[], DEFAULT_BOUNDS, current, Selection([], []), Context(current, [], [], []));
  }

  /** Such a world is easily had: two records, agreeable components, a full disk. */
  lemma AStuckDisk() returns (w: World, context: Context, payload: string, receipt: Receipt)
    ensures StuckDisk(w, context, payload, receipt)
  {
    var heard, said := Row("", "", "assistant", None, 0.0, None, NoCalls, true, false), Row("", "", "user", Some("y"), 1.0, None, NoCalls, true, false);
    var raw := TwoRecords(heard, said, "");
    TwoSources(heard, said, "");
    RolesDispose(raw, heard, said);
    var current := Sources(raw)[1];
    context, payload, receipt := Context(current, [], [], []), "", Receipt(false, []);
    NothingSelected(raw, current);
    w := World(raw, DEFAULT_BOUNDS, (s, m, t) => Some(Selection([], [])), (c, t) => Some(""),
               (p, s, ids, m, t) => Accepted(Receipt(false, [])), t => true, t => false);
    hide Sources, Disposed, Assemble, TwoRecords;
    assert forall t: nat :: Composed(w, current, map[], t) == Some(context);
  }

  lemma RolesDispose(raw: Raw, heard: Row, said: Row)
    requires raw == TwoRecords(heard, said, raw.namespace)
    requires heard == Row("", "", "assistant", None, 0.0, None, NoCalls, true, false)
    requires said == Row("", "", "user", Some("y"), 1.0, None, NoCalls, true, false)
    ensures Disposed(SourceOf(raw, Key(0.0, 1))) == ContextOnly && Disposed(SourceOf(raw, Key(1.0, 2))) == Compile
  {
    assert 'y' in "y";
    CompileExactlyUserText("user", "user", Some("y"), false);
  }

  lemma ProposeUnsaved(w: World, schedule: seq<Action>, s: Sys, context: Context, payload: string, receipt: Receipt)
    returns (schedule': seq<Action>, s': Sys)
    requires StuckDisk(w, context, payload, receipt) && Reached(w, schedule, s) && Ahead1(w, s, None)
    ensures Reached(w, schedule', s')
    ensures Ahead1(w, s', Some(Pending(Sources(w.raw)[1].ref, None, context, context.activated)))
  {
    hide Exec, Sources, Upcoming, Composed;
    schedule', s' := Reenter(w, schedule, s, context, payload, receipt, None);
    schedule', s' := Extend(w, schedule', s', Compose(0));
    schedule', s' := FailTwice(w, schedule', s');
  }

  lemma AnswerUnsaved(w: World, schedule: seq<Action>, s: Sys, context: Context, payload: string, receipt: Receipt)
    returns (schedule': seq<Action>, s': Sys)
    requires StuckDisk(w, context, payload, receipt) && Reached(w, schedule, s)
    requires Ahead1(w, s, Some(Pending(Sources(w.raw)[1].ref, None, context, context.activated)))
    ensures Reached(w, schedule', s')
    ensures Ahead1(w, s', Some(Pending(Sources(w.raw)[1].ref, Some(payload), context, context.activated)))
  {
    hide Exec, Sources, Upcoming, Composed;
    var proposed := Pending(Sources(w.raw)[1].ref, None, context, context.activated);
    schedule', s' := Reenter(w, schedule, s, context, payload, receipt, Some(proposed));
    schedule', s' := Extend(w, schedule', s', Compose(0));
    schedule', s' := Extend(w, schedule', s', Work(0));
    schedule', s' := FailTwice(w, schedule', s');
  }
}
