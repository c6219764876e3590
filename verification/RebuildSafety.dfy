/** What every schedule of the rebuild keeps: exact accounting at the state in memory and at the durable
    checkpoint, exactly-once admission, bounded worker calls, and a justification for every receipt. */
module RebuildSafety {
  import opened Wrappers
  import opened Keyset
  import opened SourceCurator
  import opened SourceIterator
  import opened ContextAssembler
  import opened RebuildMachine

  /** The checkpoint accounts exactly for the first p sources. */
  ghost predicate Accounts(S: seq<Source>, p: nat, cp: Checkpoint, memory: Memory) {
    && CursorAt(S, p, cp)
    && cp.compiled == Tally(S[..p], Compile)
    && cp.contextual == Tally(S[..p], ContextOnly)
    && cp.ignored == Tally(S[..p], Ignore)
    && cp.deferred == Deferrals(S[..p], memory)
    && (forall i | 0 <= i < p && Disposed(S[i]) == Compile :: S[i].key in memory)
    && (cp.pending.Some? ==>
          p < |S| && Disposed(S[p]) == Compile && cp.pending.value.binding == S[p].ref
          && cp.pending.value.activated == cp.pending.value.prompt.activated)
  }

  /** The durable checkpoint never runs ahead of memory, and never knows more about the source they share. */
  ghost predicate DiskBehind(s: Sys, p: nat, q: nat) {
    && q <= p
    && (q == p && s.disk.pending.Some? ==>
          && s.mem.pending.Some?
          && (s.disk.pending.value.payload.Some? ==> s.mem.pending == s.disk.pending))
  }

  /** The source at position p still needs its receipt. */
  ghost predicate Open(S: seq<Source>, s: Sys, p: nat) {
    p < |S| && Disposed(S[p]) == Compile && S[p].key !in s.memory
  }

  ghost predicate PcFits(S: seq<Source>, s: Sys, p: nat) {
    match s.pc
    case Idle => true
    case Top => true
    case Composing => Open(S, s, p) && (s.mem.pending.Some? ==> s.mem.pending.value.payload.None?)
    case Proposed(context) => Open(S, s, p) && s.mem.pending == Some(Pending(S[p].ref, None, context, context.activated))
    case Calling(context) =>
      Open(S, s, p) && s.mem.pending.Some? && s.mem.pending.value.payload.None? && s.mem.pending.value.prompt == context
    case Answered => Open(S, s, p) && s.mem.pending.Some? && s.mem.pending.value.payload.Some?
    case Admitting => Open(S, s, p) && s.mem.pending.Some? && s.mem.pending.value.payload.Some?
    case Admitted(receipt) =>
      p < |S| && Disposed(S[p]) == Compile && S[p].key in s.memory && s.memory[S[p].key] == receipt
    case Settled(source) => 0 < p <= |S| && source == S[p - 1] && s.mem.pending.None?
    case Failing(source) => true
  }

  /** Receipts belong to COMPILE sources, leave no COMPILE gap behind them, and were each admitted once. */
  ghost predicate Ledger(S: seq<Source>, memory: Memory, admissions: multiset<Key>) {
    && (forall k | k in memory :: exists i :: 0 <= i < |S| && S[i].key == k && Disposed(S[i]) == Compile)
    && (forall i, j | 0 <= i < j < |S| && S[j].key in memory && Disposed(S[i]) == Compile :: S[i].key in memory)
    && (forall k: Key :: admissions[k] == if k in memory then 1 else 0)
  }

  predicate Holds(pending: Option<Pending>, k: Key) {
    pending.Some? && pending.value.payload.Some? && KeyOfBinding(pending.value.binding) == k
  }

  /** Worker calls per source never exceed its setbacks plus the one answer it holds. */
  ghost predicate CallsBounded(calls: multiset<Key>, setbacks: multiset<Key>, memory: Memory,
                               pending: Option<Pending>) {
    forall k: Key :: calls[k] <= setbacks[k] + (if k in memory || Holds(pending, k) then 1 else 0)
  }

  /** While no run was entered with an unsaved state, memory and file stay within one source of each other, they
      agree whenever an external call is made, and no receipt lies beyond the first source after the file's cursor. */
  ghost predicate Tight(S: seq<Source>, s: Sys, p: nat, q: nat) {
    !s.dirty ==>
      && p <= q + 1
      && (s.pc.Top? || s.pc.Composing? || s.pc.Calling? || s.pc.Admitting? ==> s.mem == s.disk)
      && (s.pc.Top? || s.pc.Composing? || s.pc.Proposed? || s.pc.Calling? || s.pc.Answered? || s.pc.Admitting? || s.pc.Admitted? ==> p == q)
      && (forall i | 0 <= i < |S| && S[i].key in s.memory :: i <= q)
  }

  // ---- why a receipt exists --------------------------------------------------------

  predicate ChosenAt(w: World, source: Source, prior: Memory, context: Context, t: nat) {
    var selection := w.select(source, prior, t);
    selection.Some? && Assemble(w.raw, prior, w.bounds, source, selection.value) == Some(context)
  }

  /** Some selection callback answer over the earlier memory assembles to this context. */
  ghost predicate Chosen(w: World, source: Source, prior: Memory, context: Context) {
    exists t: nat :: ChosenAt(w, source, prior, context, t)
  }

  predicate AnsweredAt(w: World, context: Context, payload: string, t: nat) {
    w.worker(context, t) == Some(payload)
  }

  ghost predicate Answers(w: World, context: Context, payload: string) {
    exists t: nat :: AnsweredAt(w, context, payload, t)
  }

  predicate AcceptedAt(w: World, payload: string, source: Source, activated: seq<BlockId>, prior: Memory,
                       receipt: Receipt, t: nat) {
    var answer := w.admit(payload, source, activated, prior, t);
    answer == Accepted(receipt) || answer == Lost(receipt)
  }

  ghost predicate Accepts(w: World, payload: string, source: Source, activated: seq<BlockId>, prior: Memory,
                          receipt: Receipt) {
    exists t: nat :: AcceptedAt(w, payload, source, activated, prior, receipt, t)
  }

  ghost predicate PendingJustified(w: World, source: Source, prior: Memory, pending: Pending) {
    && Chosen(w, source, prior, pending.prompt)
    && (pending.payload.Some? ==> Answers(w, pending.prompt, pending.payload.value))
  }

  /** The receipt of a source follows from that source and the receipts of strictly earlier sources alone. */
  ghost predicate ReceiptFollows(w: World, source: Source, prior: Memory, receipt: Receipt) {
    exists context: Context, payload: string ::
      && Chosen(w, source, prior, context)
      && Answers(w, context, payload)
      && Accepts(w, payload, source, context.activated, prior, receipt)
  }

  ghost predicate ReceiptsFollow(w: World, S: seq<Source>, memory: Memory) {
    forall i | 0 <= i < |S| && S[i].key in memory ::
      ReceiptFollows(w, S[i], Before(memory, S[i].key), memory[S[i].key])
  }

  ghost predicate PendingFollows(w: World, S: seq<Source>, p: nat, pending: Option<Pending>, memory: Memory) {
    pending.Some? && p < |S| ==> PendingJustified(w, S[p], Before(memory, S[p].key), pending.value)
  }

  ghost predicate Placed(S: seq<Source>, s: Sys, p: nat, q: nat) {
    && Accounts(S, p, s.mem, s.memory)
    && Accounts(S, q, s.disk, s.memory)
    && DiskBehind(s, p, q)
    && PcFits(S, s, p)
  }

  ghost predicate Increasing(S: seq<Source>) {
    && (forall i, j | 0 <= i < j < |S| :: Less(S[i].key, S[j].key))
    && (forall i | 0 <= i < |S| :: KeyOfBinding(S[i].ref) == S[i].key)
  }

  ghost predicate Inv(w: World, S: seq<Source>, s: Sys, p: nat, q: nat) {
    && Increasing(S)
    && Placed(S, s, p, q)
    && Ledger(S, s.memory, s.admissions)
    && CallsBounded(s.calls, s.setbacks, s.memory, s.mem.pending)
    && Tight(S, s, p, q)
    && ReceiptsFollow(w, S, s.memory)
    && PendingFollows(w, S, p, s.mem.pending, s.memory)
    && PendingFollows(w, S, q, s.disk.pending, s.memory)
  }

  lemma StartInv(w: World)
    ensures Inv(w, Sources(w.raw), START, 0, 0)
  {
    SourcesIncreasing(w.raw);
  }

  lemma SourcesIncreasing(raw: Raw)
    ensures Increasing(Sources(raw))
    ensures forall i | 0 <= i < |Sources(raw)| :: Sources(raw)[i] in Sources(raw)
  {
    forall i | 0 <= i < |Sources(raw)| ensures KeyOfBinding(Sources(raw)[i].ref) == Sources(raw)[i].key {
      SourcesMember(raw, Sources(raw)[i]);
    }
  }

  lemma TallyNext(S: seq<Source>, p: nat, d: Disposition)
    requires p < |S|
    ensures Tally(S[..p + 1], d) == Tally(S[..p], d) + (if Disposed(S[p]) == d then 1 else 0)
  {
    assert S[..p + 1][..p] == S[..p];
  }

  lemma DeferralsNext(S: seq<Source>, p: nat, memory: Memory)
    requires p < |S|
    ensures Deferrals(S[..p + 1], memory) ==
            Deferrals(S[..p], memory) + (if Disposed(S[p]) == Compile && S[p].key in memory && memory[S[p].key].deferred then 1 else 0)
  {
    assert S[..p + 1][..p] == S[..p];
  }

  lemma {:induction false} DeferralsStable(S: seq<Source>, memory: Memory, k: Key, receipt: Receipt)
    requires forall i | 0 <= i < |S| :: S[i].key != k
    ensures Deferrals(S, memory[k := receipt]) == Deferrals(S, memory)
  {
    if S != [] {
      assert S[|S| - 1].key != k;
      DeferralsStable(S[..|S| - 1], memory, k, receipt);
    }
  }

  /** Equal cursors stand at equal positions. */
  lemma SamePosition(S: seq<Source>, cp: Checkpoint, p: nat, q: nat)
    requires Increasing(S) && CursorAt(S, p, cp) && CursorAt(S, q, cp)
    ensures p == q
  {
    assert p > 0 && q > 0 ==> S[p - 1].key == S[q - 1].key;
  }

  // ---- each action keeps the invariant ---------------------------------------------

  lemma FailKeeps(w: World, S: seq<Source>, s: Sys, source: Source, p: nat, q: nat)
    requires Inv(w, S, s, p, q)
    ensures Inv(w, S, Fail(s, source), p, q)
  {
    hide Ledger, CallsBounded, ReceiptsFollow, PendingFollows, Increasing, Tally, Deferrals;
  }

  lemma PassAccounts(S: seq<Source>, cp: Checkpoint, counted: Checkpoint, memory: Memory, p: nat)
    requires Accounts(S, p, cp, memory) && p < |S|
    requires Disposed(S[p]) == Compile ==> S[p].key in memory
    requires counted.compiled == cp.compiled + (if Disposed(S[p]) == Compile then 1 else 0)
    requires counted.contextual == cp.contextual + (if Disposed(S[p]) == ContextOnly then 1 else 0)
    requires counted.ignored == cp.ignored + (if Disposed(S[p]) == Ignore then 1 else 0)
    requires counted.deferred == cp.deferred + (if Disposed(S[p]) == Compile && memory[S[p].key].deferred then 1 else 0)
    ensures Accounts(S, p + 1, Passed(counted, S[p]), memory)
  {
    TallyNext(S, p, Compile);
    TallyNext(S, p, ContextOnly);
    TallyNext(S, p, Ignore);
    DeferralsNext(S, p, memory);
    hide Tally, Deferrals;
  }

  /** A source whose receipt exists needs no held answer any more. */
  lemma ReleaseKeeps(calls: multiset<Key>, setbacks: multiset<Key>, memory: Memory, pending: Option<Pending>)
    requires CallsBounded(calls, setbacks, memory, pending)
    requires pending.Some? && pending.value.payload.Some? ==> KeyOfBinding(pending.value.binding) in memory
    ensures CallsBounded(calls, setbacks, memory, None)
  {
    forall k: Key ensures Holds(pending, k) ==> k in memory {}
  }

  /** Moving past source p once its disposition is counted. */
  lemma PassKeeps(w: World, S: seq<Source>, s: Sys, counted: Checkpoint, p: nat, q: nat)
    requires Inv(w, S, s, p, q) && p < |S|
    requires s.pc.Top? || s.pc.Admitted?
    requires Disposed(S[p]) == Compile <==> s.pc.Admitted?
    requires counted.compiled == s.mem.compiled + (if Disposed(S[p]) == Compile then 1 else 0)
    requires counted.contextual == s.mem.contextual + (if Disposed(S[p]) == ContextOnly then 1 else 0)
    requires counted.ignored == s.mem.ignored + (if Disposed(S[p]) == Ignore then 1 else 0)
    requires counted.deferred == s.mem.deferred + (if s.pc.Admitted? && s.pc.receipt.deferred then 1 else 0)
    ensures Inv(w, S, s.(pc := Settled(S[p]), mem := Passed(counted, S[p])), p + 1, q)
  {
    hide Ledger, CallsBounded, ReceiptsFollow, PendingJustified, Tally, Deferrals;
    PassAccounts(S, s.mem, counted, s.memory, p);
    ReleaseKeeps(s.calls, s.setbacks, s.memory, s.mem.pending);
    hide Accounts;
  }

  lemma BeginKeeps(w: World, S: seq<Source>, s: Sys, t: nat, p: nat, q: nat)
    requires Inv(w, S, s, p, q) && s.pc.Top? && p < |S|
    ensures var s' := BeginStep(w, s, S[p], t);
            Inv(w, S, s', if s'.pc.Settled? then p + 1 else p, q)
  {
    hide Inv, Disposed;
    match Disposed(S[p])
    case ContextOnly => PassKeeps(w, S, s, s.mem.(contextual := s.mem.contextual + 1), p, q);
    case Ignore => PassKeeps(w, S, s, s.mem.(ignored := s.mem.ignored + 1), p, q);
    case Compile => BeginCompileKeeps(w, S, s, t, p, q);
  }

  lemma BeginCompileKeeps(w: World, S: seq<Source>, s: Sys, t: nat, p: nat, q: nat)
    requires Inv(w, S, s, p, q) && s.pc.Top? && p < |S| && Disposed(S[p]) == Compile
    ensures !BeginStep(w, s, S[p], t).pc.Settled?
    ensures Inv(w, S, BeginStep(w, s, S[p], t), p, q)
  {
    hide Ledger, CallsBounded, ReceiptsFollow, PendingFollows, Increasing, Sources, Disposed, Accounts;
    var s' := BeginStep(w, s, S[p], t);
    if s'.pc.Failing? {
      FailKeeps(w, S, s, S[p], p, q);
      hide Inv;
    }
  }

  /** With no receipt at position p, the whole memory comes from earlier sources. */
  lemma OpenMemoryIsEarlier(S: seq<Source>, s: Sys, p: nat)
    requires Increasing(S) && Ledger(S, s.memory, s.admissions) && Open(S, s, p)
    ensures Before(s.memory, S[p].key) == s.memory
  {
    forall k | k in s.memory ensures Less(k, S[p].key) {
      var i :| 0 <= i < |S| && S[i].key == k && Disposed(S[i]) == Compile;
      assert i < p;
    }
  }

  lemma ProposeKeeps(w: World, S: seq<Source>, s: Sys, context: Context, t: nat, p: nat, q: nat)
    requires Inv(w, S, s, p, q) && s.pc.Composing? && p < |S| && s.mem.pending.None?
    requires ChosenAt(w, S[p], s.memory, context, t)
    ensures var pending := Some(Pending(S[p].ref, None, context, context.activated));
            Inv(w, S, s.(pc := Proposed(context), mem := s.mem.(pending := pending)), p, q)
  {
    hide ReceiptsFollow, Tally, Deferrals, ChosenAt, CallsBounded, PendingFollows;
    var pending := Pending(S[p].ref, None, context, context.activated);
    OpenMemoryIsEarlier(S, s, p);
    SameHolder(s.calls, s.setbacks, s.memory, s.mem.pending, Some(pending));
    ProposalFollows(w, S, p, pending, t, s.memory);
    hide Ledger, Increasing;
  }

  lemma ProposalFollows(w: World, S: seq<Source>, p: nat, pending: Pending, t: nat, memory: Memory)
    requires p < |S| && pending.payload.None? && Before(memory, S[p].key) == memory
             && ChosenAt(w, S[p], memory, pending.prompt, t)
    ensures PendingFollows(w, S, p, Some(pending), memory)
  {
    hide Before, ChosenAt;
  }

  lemma RecheckKeeps(w: World, S: seq<Source>, s: Sys, p: nat, q: nat)
    requires Inv(w, S, s, p, q) && s.pc.Composing? && s.mem.pending.Some?
    ensures Inv(w, S, s.(pc := Calling(s.mem.pending.value.prompt)), p, q)
  {
    hide ReceiptsFollow, Tally, Deferrals, Ledger, CallsBounded, PendingFollows, Increasing, Accounts;
  }

  lemma ComposeKeeps(w: World, S: seq<Source>, s: Sys, t: nat, p: nat, q: nat)
    requires Inv(w, S, s, p, q) && s.pc.Composing? && p < |S|
    ensures Inv(w, S, ComposeStep(w, s, S[p], t), p, q)
  {
    hide Inv, Assemble;
    var s' := ComposeStep(w, s, S[p], t);
    if s'.pc.Failing? {
      FailKeeps(w, S, s, S[p], p, q);
    } else if s'.pc.Proposed? {
      ProposeKeeps(w, S, s, s'.pc.context, t, p, q);
    } else {
      RecheckKeeps(w, S, s, p, q);
    }
  }

  /** A proposal without an answer holds nothing. */
  lemma SameHolder(calls: multiset<Key>, setbacks: multiset<Key>, memory: Memory, before: Option<Pending>,
                   after: Option<Pending>)
    requires CallsBounded(calls, setbacks, memory, before)
    requires before.None? && after.Some? && after.value.payload.None?
    ensures CallsBounded(calls, setbacks, memory, after)
  {
    forall k: Key ensures Holds(before, k) == Holds(after, k) {}
  }

  lemma SaveKeeps(w: World, S: seq<Source>, s: Sys, source: Source, next: Pc, t: nat, p: nat, q: nat)
    requires Inv(w, S, s, p, q)
    requires match s.pc
             case Proposed(context) => next == Calling(context)
             case Answered => next == Admitting
             case Settled(_) => next == Top
             case _ => false
    ensures Inv(w, S, SaveStep(w, s, source, next, t), p, if w.save(t) then p else q)
  {
    hide Ledger, CallsBounded, ReceiptsFollow, PendingFollows, Increasing, Accounts;
    FailKeeps(w, S, s, source, p, q);
  }

  /** One more call to a source that held nothing: it either comes back with an answer or costs a setback. */
  lemma CallKeeps(calls: multiset<Key>, setbacks: multiset<Key>, memory: Memory, pending: Option<Pending>,
                  payload: Option<string>)
    requires CallsBounded(calls, setbacks, memory, pending)
    requires pending.Some? && pending.value.payload.None?
    ensures var k := KeyOfBinding(pending.value.binding);
            CallsBounded(calls + multiset{k}, if payload.Some? then setbacks else setbacks + multiset{k}, memory,
                         Some(pending.value.(payload := payload)))
            || k in memory
  {
    var k := KeyOfBinding(pending.value.binding);
    forall x: Key ensures !Holds(pending, x) {}
  }

  lemma AnswerKeeps(w: World, S: seq<Source>, s: Sys, payload: string, t: nat, p: nat, q: nat)
    requires Inv(w, S, s, p, q) && s.pc.Calling? && p < |S| && AnsweredAt(w, s.pc.context, payload, t)
    ensures Inv(w, S, Answer(s.(calls := s.calls + multiset{S[p].key}), payload), p, q)
  {
    hide ReceiptsFollow, Tally, Deferrals, Ledger, AnsweredAt, CallsBounded, PendingFollows;
    var pending := s.mem.pending.value;
    CallKeeps(s.calls, s.setbacks, s.memory, s.mem.pending, Some(payload));
    AnswerFollows(w, S, p, pending, payload, t, s.memory);
    hide Increasing;
  }

  lemma AnswerFollows(w: World, S: seq<Source>, p: nat, pending: Pending, payload: string, t: nat, memory: Memory)
    requires PendingFollows(w, S, p, Some(pending), memory) && AnsweredAt(w, pending.prompt, payload, t)
    ensures PendingFollows(w, S, p, Some(pending.(payload := Some(payload))), memory)
  {
    hide Before, Chosen, AnsweredAt;
  }

  lemma SetbackKeeps(w: World, S: seq<Source>, s: Sys, p: nat, q: nat)
    requires Inv(w, S, s, p, q) && s.pc.Calling? && p < |S|
    ensures Inv(w, S, s.(calls := s.calls + multiset{S[p].key}, setbacks := s.setbacks + multiset{S[p].key}), p, q)
  {
    hide ReceiptsFollow, Tally, Deferrals, Ledger, PendingFollows;
    CallKeeps(s.calls, s.setbacks, s.memory, s.mem.pending, None);
    assert s.mem.pending.value.(payload := None) == s.mem.pending.value;
    hide CallsBounded;
  }

  lemma WorkKeeps(w: World, S: seq<Source>, s: Sys, t: nat, p: nat, q: nat)
    requires Inv(w, S, s, p, q) && s.pc.Calling? && p < |S|
    ensures Inv(w, S, WorkStep(w, s, S[p], s.pc.context, t), p, q)
  {
    hide Inv;
    var answer := w.worker(s.pc.context, t);
    if answer.Some? {
      AnswerKeeps(w, S, s, answer.value, t, p, q);
    } else {
      SetbackKeeps(w, S, s, p, q);
      FailKeeps(w, S, s.(calls := s.calls + multiset{S[p].key}, setbacks := s.setbacks + multiset{S[p].key}), S[p], p, q);
    }
  }

  lemma BeforeInsert(memory: Memory, k: Key, receipt: Receipt, x: Key)
    requires !Less(k, x)
    ensures Before(memory[k := receipt], x) == Before(memory, x)
  {
  }

  lemma InsertAccounts(S: seq<Source>, cp: Checkpoint, memory: Memory, k: Key, receipt: Receipt, p: nat)
    requires Accounts(S, p, cp, memory)
    requires forall i | 0 <= i < p :: S[i].key != k
    ensures Accounts(S, p, cp, memory[k := receipt])
  {
    DeferralsStable(S[..p], memory, k, receipt);
    hide Tally, Deferrals;
  }

  lemma InsertLedger(S: seq<Source>, memory: Memory, admissions: multiset<Key>, receipt: Receipt, p: nat)
    requires Ledger(S, memory, admissions) && p < |S| && Disposed(S[p]) == Compile && S[p].key !in memory
    requires forall i | 0 <= i < p && Disposed(S[i]) == Compile :: S[i].key in memory
    requires Increasing(S)
    ensures Ledger(S, memory[S[p].key := receipt], admissions + multiset{S[p].key})
    ensures forall i | 0 <= i < |S| && S[i].key in memory[S[p].key := receipt] :: i <= p
  {
    assert forall i | p < i < |S| :: S[i].key !in memory;
  }

  lemma InsertReceipts(w: World, S: seq<Source>, memory: Memory, receipt: Receipt, p: nat)
    requires Increasing(S) && p < |S| && ReceiptsFollow(w, S, memory)
    requires forall i | 0 <= i < |S| && S[i].key in memory :: i < p
    requires Before(memory, S[p].key) == memory && ReceiptFollows(w, S[p], memory, receipt)
    ensures ReceiptsFollow(w, S, memory[S[p].key := receipt])
  {
    hide ReceiptFollows, Before;
    var after := memory[S[p].key := receipt];
    forall i | 0 <= i < |S| && S[i].key in after
      ensures ReceiptFollows(w, S[i], Before(after, S[i].key), after[S[i].key])
    {
      assert i <= p;
      BeforeInsert(memory, S[p].key, receipt, S[i].key);
    }
  }

  lemma InsertPending(w: World, S: seq<Source>, pending: Option<Pending>, memory: Memory, receipt: Receipt, p: nat,
                      q: nat)
    requires Increasing(S) && q <= p < |S| && PendingFollows(w, S, q, pending, memory)
    ensures PendingFollows(w, S, q, pending, memory[S[p].key := receipt])
  {
    assert q < p ==> Less(S[q].key, S[p].key);
    hide PendingJustified, Before, Increasing;
    BeforeInsert(memory, S[p].key, receipt, S[q].key);
  }

  lemma InsertCalls(calls: multiset<Key>, setbacks: multiset<Key>, memory: Memory, pending: Option<Pending>, k: Key,
                    receipt: Receipt)
    requires CallsBounded(calls, setbacks, memory, pending)
    ensures CallsBounded(calls, setbacks, memory[k := receipt], pending)
  {
  }

  lemma AcceptedFollows(w: World, source: Source, prior: Memory, pending: Pending, receipt: Receipt, t: nat)
    requires PendingJustified(w, source, prior, pending) && pending.payload.Some?
             && pending.activated == pending.prompt.activated
    requires AcceptedAt(w, pending.payload.value, source, pending.activated, prior, receipt, t)
    ensures ReceiptFollows(w, source, prior, receipt)
  {
    hide Chosen, Answers;
    assert Accepts(w, pending.payload.value, source, pending.prompt.activated, prior, receipt);
  }

  lemma ReceivePlaces(S: seq<Source>, s: Sys, receipt: Receipt, p: nat, q: nat)
    requires Increasing(S) && Placed(S, s, p, q) && s.pc.Admitting? && p < |S| && Tight(S, s, p, q)
    requires forall i | 0 <= i < |S| && S[i].key in s.memory[S[p].key := receipt] :: i <= p
    ensures Placed(S, Receive(s, S[p], receipt), p, q) && Tight(S, Receive(s, S[p], receipt), p, q)
  {
    hide Tally, Deferrals;
    InsertAccounts(S, s.mem, s.memory, S[p].key, receipt, p);
    InsertAccounts(S, s.disk, s.memory, S[p].key, receipt, q);
    hide Increasing, Accounts;
  }

  lemma ReceiveKeeps(w: World, S: seq<Source>, s: Sys, receipt: Receipt, t: nat, p: nat, q: nat)
    requires Inv(w, S, s, p, q) && s.pc.Admitting? && p < |S| && s.mem.pending.Some?
             && s.mem.pending.value.payload.Some?
    requires AcceptedAt(w, s.mem.pending.value.payload.value, S[p], s.mem.pending.value.activated, s.memory, receipt, t)
    ensures Inv(w, S, Receive(s, S[p], receipt), p, q)
  {
    hide CallsBounded, ReceiptsFollow, AcceptedAt, PendingJustified, Tally, Deferrals, Before, ReceiptFollows, Tight;
    OpenMemoryIsEarlier(S, s, p);
    AcceptedFollows(w, S[p], s.memory, s.mem.pending.value, receipt, t);
    hide PendingFollows;
    InsertLedger(S, s.memory, s.admissions, receipt, p);
    hide Ledger;
    InsertReceipts(w, S, s.memory, receipt, p);
    hide Increasing;
    ReceivePlaces(S, s, receipt, p, q);
    hide Placed;
    InsertPending(w, S, s.mem.pending, s.memory, receipt, p, p);
    InsertPending(w, S, s.disk.pending, s.memory, receipt, p, q);
    InsertCalls(s.calls, s.setbacks, s.memory, s.mem.pending, S[p].key, receipt);
  }

  lemma AdmitKeeps(w: World, S: seq<Source>, s: Sys, t: nat, p: nat, q: nat)
    requires Inv(w, S, s, p, q) && s.pc.Admitting? && p < |S| && s.mem.pending.Some?
             && s.mem.pending.value.payload.Some?
    ensures var s' := AdmitStep(w, s, S[p], t);
            s'.Some? && Inv(w, S, s'.value, p, q)
  {
    hide Inv;
    var pending := s.mem.pending.value;
    var answer := w.admit(pending.payload.value, S[p], pending.activated, s.memory, t);
    if answer.Rejected? {
      FailKeeps(w, S, s, S[p], p, q);
    } else {
      ReceiveKeeps(w, S, s, answer.receipt, t, p, q);
      FailKeeps(w, S, Receive(s, S[p], answer.receipt), S[p], p, q);
    }
  }

  /** What the program counter promises, without the rest of the invariant. */
  lemma PcFacts(w: World, S: seq<Source>, s: Sys, p: nat, q: nat)
    requires Inv(w, S, s, p, q)
    ensures CursorAt(S, p, s.mem) && PcFits(S, s, p)
  {
    hide CallsBounded, ReceiptsFollow, PendingFollows, Ledger, Tally, Deferrals;
  }

  lemma CrashKeeps(w: World, S: seq<Source>, s: Sys, p: nat, q: nat)
    requires Inv(w, S, s, p, q)
    ensures Inv(w, S, CrashStep(s), q, q)
  {
    var s' := CrashStep(s);
    assert CallsBounded(s'.calls, s'.setbacks, s'.memory, s'.mem.pending) by {
      hide ReceiptsFollow, PendingFollows, Tight, Ledger, Tally, Deferrals;
    }
    hide CallsBounded, ReceiptsFollow, PendingFollows, Ledger, Tally, Deferrals;
  }

  /** Actions before the worker has answered. */
  lemma AskingKeeps(w: World, S: seq<Source>, s: Sys, a: Action, p: nat, q: nat) returns (p': nat, q': nat)
    requires Inv(w, S, s, p, q) && p < |S| && WorkingStep(w, s, S[p], a).Some?
    requires s.pc.Top? || s.pc.Composing? || s.pc.Proposed? || s.pc.Calling?
    ensures Inv(w, S, WorkingStep(w, s, S[p], a).value, p', q')
  {
    hide Inv, BeginStep, ComposeStep, WorkStep, AdmitStep, SaveStep, AdvanceStep;
    p', q' := p, q;
    if s.pc.Top? {
      BeginKeeps(w, S, s, a.t, p, q);
      if BeginStep(w, s, S[p], a.t).pc.Settled? { p' := p + 1; }
    } else if s.pc.Composing? {
      ComposeKeeps(w, S, s, a.t, p, q);
    } else if s.pc.Proposed? {
      SaveKeeps(w, S, s, S[p], Calling(s.pc.context), a.t, p, q);
      if w.save(a.t) { q' := p; }
    } else {
      WorkKeeps(w, S, s, a.t, p, q);
    }
  }

  /** Actions once an answer or a receipt is there. */
  lemma AdmittingKeeps(w: World, S: seq<Source>, s: Sys, a: Action, p: nat, q: nat) returns (p': nat, q': nat)
    requires Inv(w, S, s, p, q) && p < |S| && WorkingStep(w, s, S[p], a).Some?
    requires s.pc.Answered? || s.pc.Admitting? || s.pc.Admitted?
    ensures Inv(w, S, WorkingStep(w, s, S[p], a).value, p', q')
  {
    hide Inv, BeginStep, ComposeStep, WorkStep, AdmitStep, SaveStep, AdvanceStep, Disposed;
    PcFacts(w, S, s, p, q);
    p', q' := p, q;
    if s.pc.Answered? {
      SaveKeeps(w, S, s, S[p], Admitting, a.t, p, q);
      if w.save(a.t) { q' := p; }
    } else if s.pc.Admitting? {
      AdmitKeeps(w, S, s, a.t, p, q);
    } else {
      AdvanceKeeps(w, S, s, p, q);
      p' := p + 1;
    }
  }

  lemma AdvanceKeeps(w: World, S: seq<Source>, s: Sys, p: nat, q: nat)
    requires Inv(w, S, s, p, q) && p < |S| && s.pc.Admitted? && Disposed(S[p]) == Compile
    ensures Inv(w, S, AdvanceStep(s, S[p], s.pc.receipt), p + 1, q)
  {
    hide Inv;
    PassKeeps(w, S, s, s.mem.(compiled := s.mem.compiled + 1, deferred := s.mem.deferred + (if s.pc.receipt.deferred then 1 else 0)), p, q);
  }

  /** Entering and leaving a run, and the saves that do not depend on the next record. */
  lemma FrameKeeps(w: World, S: seq<Source>, s: Sys, a: Action, s': Sys, p: nat, q: nat) returns (p': nat, q': nat)
    requires Inv(w, S, s, p, q) && Step(w, s, a) == Some(s')
    requires a.Crash? || s.pc.Idle? || (s.pc.Top? && a.Leave?) || s.pc.Settled? || s.pc.Failing?
    ensures Inv(w, S, s', p', q')
  {
    hide Inv, Upcoming, Sources, WorkingStep, SaveStep, CrashStep, HandlerStep;
    p', q' := p, q;
    if a.Crash? {
      CrashKeeps(w, S, s, p, q);
      p' := q;
    } else if s.pc.Idle? {
      EnterKeeps(w, S, s, p, q);
    } else if s.pc.Top? && a.Leave? {
      LeaveKeeps(w, S, s, p, q);
    } else if s.pc.Settled? {
      SaveKeeps(w, S, s, s.pc.source, Top, a.t, p, q);
      if w.save(a.t) { q' := p; }
    } else {
      HandlerKeeps(w, S, s, a.t, p, q);
      if w.save(a.t) { q' := p; }
    }
  }

  /** Every action keeps the invariant; p' and q' are where it leaves the two cursors. */
  lemma StepKeeps(w: World, S: seq<Source>, s: Sys, a: Action, s': Sys, p: nat, q: nat) returns (p': nat, q': nat)
    requires S == Sources(w.raw) && Inv(w, S, s, p, q) && Step(w, s, a) == Some(s')
    ensures Inv(w, S, s', p', q')
  {
    if a.Crash? || s.pc.Idle? || (s.pc.Top? && a.Leave?) || s.pc.Settled? || s.pc.Failing? {
      p', q' := FrameKeeps(w, S, s, a, s', p, q);
    } else {
      PcFacts(w, S, s, p, q);
      UpcomingAt(w.raw, p, s.mem);
      hide Inv, Sources, Upcoming, PcFits;
      if s.pc.Top? || s.pc.Composing? || s.pc.Proposed? || s.pc.Calling? {
        p', q' := AskingKeeps(w, S, s, a, p, q);
      } else {
        p', q' := AdmittingKeeps(w, S, s, a, p, q);
      }
    }
  }

  lemma EnterKeeps(w: World, S: seq<Source>, s: Sys, p: nat, q: nat)
    requires Inv(w, S, s, p, q) && s.pc.Idle?
    ensures Inv(w, S, s.(pc := Top, dirty := s.dirty || s.mem != s.disk), p, q)
  {
    hide CallsBounded, ReceiptsFollow, PendingFollows, Ledger, Tally, Deferrals, CursorAt;
    if s.mem == s.disk { SamePosition(S, s.mem, p, q); }
    hide Increasing;
  }

  lemma LeaveKeeps(w: World, S: seq<Source>, s: Sys, p: nat, q: nat)
    requires Inv(w, S, s, p, q) && s.pc.Top?
    ensures Inv(w, S, s.(pc := Idle), p, q)
  {
    hide CallsBounded, ReceiptsFollow, PendingFollows, Ledger, Tally, Deferrals;
  }

  lemma HandlerKeeps(w: World, S: seq<Source>, s: Sys, t: nat, p: nat, q: nat)
    requires Inv(w, S, s, p, q) && s.pc.Failing?
    ensures Inv(w, S, HandlerStep(w, s, t), p, if w.save(t) then p else q)
  {
    hide CallsBounded, ReceiptsFollow, PendingFollows, Ledger, Tally, Deferrals;
  }
}
