/** Create-once publication of persona revisions, by one author and by many at once. */
module PersonaPublication {
  import opened Wrappers

  /** What loading a profile yields; eligibility is the schema the runtime requires. */
  datatype Persona = Persona(personaId: string, version: int, digest: string, eligible: bool)

  datatype Ref = Ref(personaId: string, version: int, digest: string)

  /** The artifact path leaves the digest out, so revisions of one id and version compete for one slot. */
  datatype Slot = Slot(personaId: string, version: int)

  datatype PublicationError = Unloadable | Ineligible | Invalid | Unavailable | Conflicting

  /** The profile loader: a function of the bytes alone. */
  type Loader = string -> Option<Persona>

  function RefOf(p: Persona): Ref {
    Ref(p.personaId, p.version, p.digest)
  }

  function SlotOf(ref: Ref): Slot {
    Slot(ref.personaId, ref.version)
  }

  /** Reading a reference against the bytes found at its path. */
  function ResolveBytes(load: Loader, found: Option<string>, ref: Ref): Result<Persona, PublicationError> {
    if found.None? then Err(Unavailable) else
    match load(found.value)
    case None => Err(Invalid)
    case Some(p) => if !p.eligible then Err(Invalid) else if RefOf(p) != ref then Err(Conflicting) else Ok(p)
  }

  /** The checks made on the private copy before it competes for its slot. */
  function Vetted(load: Loader, bytes: string): Result<Ref, PublicationError> {
    match load(bytes)
    case None => Err(Unloadable)
    case Some(p) => if p.eligible then Ok(RefOf(p)) else Err(Ineligible)
  }

  /** Reading succeeds exactly for an eligible persona that has the reference's own id, version and digest, and each failure
      says how far it came. */
  lemma ReadingIff(load: Loader, found: Option<string>, ref: Ref)
    ensures var r := ResolveBytes(load, found, ref);
            && (forall p: Persona ::
                  r == Ok(p)
                  <==> && found.Some? && load(found.value) == Some(p) && p.eligible
                       && p.personaId == ref.personaId && p.version == ref.version && p.digest == ref.digest)
            && (r == Err(Unavailable) <==> found.None?)
            && (r == Err(Invalid) <==> found.Some? && !(load(found.value).Some? && load(found.value).value.eligible))
            && (r == Err(Conflicting)
                <==> && found.Some? && load(found.value).Some? && load(found.value).value.eligible
                     && var p := load(found.value).value;
                        !(p.personaId == ref.personaId && p.version == ref.version && p.digest == ref.digest))
  {
  }

  lemma VettingIff(load: Loader, bytes: string)
    ensures var r := Vetted(load, bytes);
            && (forall ref ::
                  r == Ok(ref)
                  <==> && load(bytes).Some? && load(bytes).value.eligible && load(bytes).value.personaId == ref.personaId
                       && load(bytes).value.version == ref.version && load(bytes).value.digest == ref.digest)
            && (r == Err(Unloadable) <==> load(bytes).None?)
            && (r == Err(Ineligible) <==> load(bytes).Some? && !load(bytes).value.eligible)
  {
  }

  /** Revisions compete for a slot exactly when they share id and version. */
  lemma SlotsCompeteIff(x: Ref, y: Ref)
    ensures SlotOf(x) == SlotOf(y) <==> x.personaId == y.personaId && x.version == y.version
  {
  }

  // ---- one author ------------------------------------------------------------------------

  class PublicationRepository {
    const load: Loader
    var slots: map<Slot, string>

    constructor (load: Loader)
      ensures this.load == load && slots == map[]
    {
      this.load := load;
      slots := map[];
    }

    function Found(ref: Ref): Option<string>
      reads this
    {
      if SlotOf(ref) in slots then Some(slots[SlotOf(ref)]) else None
    }

    method Resolve(ref: Ref) returns (r: Result<Persona, PublicationError>)
      ensures r == ResolveBytes(load, Found(ref), ref)
    {
      if SlotOf(ref) !in slots { return Err(Unavailable); }
      var loaded := load(slots[SlotOf(ref)]);
      if loaded.None? || !loaded.value.eligible { return Err(Invalid); }
      if RefOf(loaded.value) != ref { return Err(Conflicting); }
      r := Ok(loaded.value);
    }

    /** An answer means the reference resolves now; a free slot takes the payload, an occupied one is only compared. */
    method Publish(payload: string) returns (r: Result<Ref, PublicationError>)
      modifies this
      ensures Vetted(load, payload).Err? ==> r == Err(Vetted(load, payload).error) && slots == old(slots)
      ensures Vetted(load, payload).Ok? ==>
                var ref := Vetted(load, payload).value;
                && slots == (if SlotOf(ref) in old(slots) then old(slots) else old(slots)[SlotOf(ref) := payload])
                && r == (match ResolveBytes(load, Found(ref), ref) case Ok(_) => Ok(ref) case Err(e) => Err(e))
    {
      var loaded := load(payload);
      if loaded.None? { return Err(Unloadable); }
      if !loaded.value.eligible { return Err(Ineligible); }
      var ref := RefOf(loaded.value);
      if SlotOf(ref) in slots {
        var resolved := Resolve(ref);
        if resolved.Err? { return Err(resolved.error); }
      } else {
        slots := slots[SlotOf(ref) := payload];
      }
      r := Ok(ref);
    }
  }

  // ---- many authors ------------------------------------------------------------------------

  /** A publisher's private file is an entry of the inode table; linking gives the same entry a second name. */
  datatype Author =
    | Resting
    | Writing(inode: nat, payload: string)
    | Checking(inode: nat)
    | Linking(inode: nat, ref: Ref)
    | Linked(ref: Ref)

  datatype Step = Begin(payload: string) | Write(upto: nat) | Check | Link | Answer | Crash

  datatype Action = Action(author: nat, step: Step)

  datatype Repo = Repo(inodes: seq<string>, slots: map<Slot, nat>, authors: seq<Author>, published: set<Ref>)

  function Start(authors: nat): Repo {
    Repo([], map[], seq(authors, i => Resting), {})
  }

  function BytesAt(s: Repo, ref: Ref): Option<string> {
    if SlotOf(ref) in s.slots && s.slots[SlotOf(ref)] < |s.inodes| then Some(s.inodes[s.slots[SlotOf(ref)]]) else None
  }

  function ResolveIn(load: Loader, s: Repo, ref: Ref): Result<Persona, PublicationError> {
    ResolveBytes(load, BytesAt(s, ref), ref)
  }

  function GoTo(s: Repo, a: nat, phase: Author): Repo
    requires a < |s.authors|
  {
    s.(authors := s.authors[a := phase])
  }

  /** The link is atomic: it takes a free slot, or finds it taken and compares. */
  function LinkStep(load: Loader, s: Repo, a: nat): Repo
    requires a < |s.authors| && s.authors[a].Linking?
  {
    var ref := s.authors[a].ref;
    if SlotOf(ref) !in s.slots then
      GoTo(s.(slots := s.slots[SlotOf(ref) := s.authors[a].inode]), a, Linked(ref))
    else if ResolveIn(load, s, ref).Ok? then GoTo(s, a, Linked(ref))
    else GoTo(s, a, Resting)
  }

  function Next(load: Loader, s: Repo, x: Action): Option<Repo> {
    var a := x.author;
    if a >= |s.authors| then None else
    var ph := s.authors[a];
    match x.step
    case Begin(payload) =>
      if ph.Resting? then Some(GoTo(s.(inodes := s.inodes + [""]), a, Writing(|s.inodes|, payload))) else None
    case Write(upto) =>
      if !ph.Writing? || upto > |ph.payload| || ph.inode >= |s.inodes| then None
      else
        Some(GoTo(s.(inodes := s.inodes[ph.inode := ph.payload[..upto]]), a, if upto == |ph.payload| then Checking(ph.inode) else ph))
    case Check =>
      if !ph.Checking? || ph.inode >= |s.inodes| then None
      else
        var vetted := Vetted(load, s.inodes[ph.inode]);
        Some(GoTo(s, a, if vetted.Ok? then Linking(ph.inode, vetted.value) else Resting))
    case Link => if ph.Linking? then Some(LinkStep(load, s, a)) else None
    case Answer => if ph.Linked? then Some(GoTo(s.(published := s.published + {ph.ref}), a, Resting)) else None
    case Crash => Some(GoTo(s, a, Resting))
  }

  function Exec(load: Loader, s: Repo, run: seq<Action>): Option<Repo>
    decreases |run|
  {
    if run == [] then Some(s) else
    var before := Exec(load, s, run[..|run| - 1]);
    if before.None? then None else Next(load, before.value, run[|run| - 1])
  }

  predicate HasFile(a: Author) {
    a.Writing? || a.Checking? || a.Linking?
  }

  /** The slot of the reference holds bytes vetted as that reference. */
  predicate Occupied(load: Loader, inodes: seq<string>, slots: map<Slot, nat>, ref: Ref) {
    SlotOf(ref) in slots && slots[SlotOf(ref)] < |inodes| && Vetted(load, inodes[slots[SlotOf(ref)]]) == Ok(ref)
  }

  predicate AuthorSane(load: Loader, inodes: seq<string>, slots: map<Slot, nat>, a: Author) {
    match a
    case Resting => true
    case Writing(n, _) => n < |inodes|
    case Checking(n) => n < |inodes|
    case Linking(n, ref) => n < |inodes| && Vetted(load, inodes[n]) == Ok(ref)
    case Linked(ref) => Occupied(load, inodes, slots, ref)
  }

  predicate AuthorsSane(load: Loader, inodes: seq<string>, slots: map<Slot, nat>, authors: seq<Author>) {
    forall a | 0 <= a < |authors| :: AuthorSane(load, inodes, slots, authors[a])
  }

  predicate FilesArePrivate(authors: seq<Author>) {
    forall a, b | 0 <= a < b < |authors| && HasFile(authors[a]) && HasFile(authors[b]) :: authors[a].inode != authors[b].inode
  }

  predicate SlotsSane(load: Loader, inodes: seq<string>, slots: map<Slot, nat>) {
    forall k | k in slots ::
      slots[k] < |inodes| && Vetted(load, inodes[slots[k]]).Ok? && SlotOf(Vetted(load, inodes[slots[k]]).value) == k
  }

  predicate SlotsAreFinal(slots: map<Slot, nat>, authors: seq<Author>) {
    forall k, a | k in slots && 0 <= a < |authors| && HasFile(authors[a]) :: authors[a].inode != slots[k]
  }

  predicate PublishedSane(load: Loader, inodes: seq<string>, slots: map<Slot, nat>, published: set<Ref>) {
    forall r | r in published :: Occupied(load, inodes, slots, r)
  }

  /** Nobody writes an entry that has a slot, or that another author is about to give one. */
  predicate Sane(load: Loader, s: Repo) {
    && AuthorsSane(load, s.inodes, s.slots, s.authors) && FilesArePrivate(s.authors)
    && SlotsSane(load, s.inodes, s.slots) && SlotsAreFinal(s.slots, s.authors)
    && PublishedSane(load, s.inodes, s.slots, s.published)
  }

  /** Slots keep their entry and its bytes. */
  predicate Keeps(s: Repo, s': Repo) {
    && (forall k | k in s.slots && s.slots[k] < |s.inodes| ::
          k in s'.slots && s'.slots[k] == s.slots[k] && s'.slots[k] < |s'.inodes| && s'.inodes[s.slots[k]] == s.inodes[s.slots[k]])
    && s.published <= s'.published
  }

  /** For sane states a reference resolves exactly when its slot holds content vetted as that reference. */
  lemma ResolvesIff(load: Loader, s: Repo, ref: Ref)
    requires Sane(load, s)
    ensures ResolveIn(load, s, ref).Ok? <==> Occupied(load, s.inodes, s.slots, ref)
  {
  }

  lemma BeginIsSane(load: Loader, s: Repo, a: nat, payload: string)
    requires Sane(load, s) && a < |s.authors|
    ensures var s' := GoTo(s.(inodes := s.inodes + [""]), a, Writing(|s.inodes|, payload)); Sane(load, s') && Keeps(s, s')
  {
    hide Vetted;
    assert forall i | 0 <= i < |s.authors| :: AuthorSane(load, s.inodes, s.slots, s.authors[i]);
  }

  /** Writing a private file disturbs no slot and no other author. */
  lemma WriteIsSane(load: Loader, s: Repo, a: nat, upto: nat)
    requires Sane(load, s) && a < |s.authors| && s.authors[a].Writing? && upto <= |s.authors[a].payload|
    requires Next(load, s, Action(a, Write(upto))).Some?
    ensures var s' := Next(load, s, Action(a, Write(upto))).value; Sane(load, s') && Keeps(s, s')
  {
    hide Vetted;
    var n := s.authors[a].inode;
    forall i | 0 <= i < |s.authors| && i != a ensures AuthorSane(load, s.inodes, s.slots, s.authors[i]) && (HasFile(s.authors[i]) ==> s.authors[i].inode != n) {}
  }

  lemma PhaseIsSane(load: Loader, s: Repo, a: nat, phase: Author)
    requires Sane(load, s) && a < |s.authors| && AuthorSane(load, s.inodes, s.slots, phase)
    requires HasFile(phase) ==> HasFile(s.authors[a]) && phase.inode == s.authors[a].inode
    ensures Sane(load, GoTo(s, a, phase)) && Keeps(s, GoTo(s, a, phase))
  {
    hide Vetted;
  }

  lemma LinkIsSane(load: Loader, s: Repo, a: nat)
    requires Sane(load, s) && a < |s.authors| && s.authors[a].Linking? && SlotOf(s.authors[a].ref) !in s.slots
    ensures Sane(load, LinkStep(load, s, a)) && Keeps(s, LinkStep(load, s, a))
  {
    hide Vetted;
    assert AuthorSane(load, s.inodes, s.slots, s.authors[a]);
    assert forall i | 0 <= i < |s.authors| :: AuthorSane(load, s.inodes, s.slots, s.authors[i]);
  }

  lemma AnswerIsSane(load: Loader, s: Repo, a: nat)
    requires Sane(load, s) && a < |s.authors| && s.authors[a].Linked?
    ensures var s' := s.(published := s.published + {s.authors[a].ref}); Sane(load, s') && Keeps(s, s')
  {
    assert AuthorSane(load, s.inodes, s.slots, s.authors[a]);
  }

  lemma NextIsSane(load: Loader, s: Repo, x: Action)
    requires Sane(load, s) && Next(load, s, x).Some?
    ensures Sane(load, Next(load, s, x).value) && Keeps(s, Next(load, s, x).value)
  {
    var a := x.author;
    assert AuthorSane(load, s.inodes, s.slots, s.authors[a]);
    ResolvesFor(load, s, a);
    hide Sane, Keeps, Vetted;
    if x.step.Begin? {
      BeginIsSane(load, s, a, x.step.payload);
    } else if x.step.Write? {
      WriteIsSane(load, s, a, x.step.upto);
    } else if x.step.Link? && SlotOf(s.authors[a].ref) !in s.slots {
      LinkIsSane(load, s, a);
    } else if x.step.Answer? {
      AnswerIsSane(load, s, a);
      PhaseIsSane(load, s.(published := s.published + {s.authors[a].ref}), a, Resting);
      KeepsIsTransitive(s, s.(published := s.published + {s.authors[a].ref}), Next(load, s, x).value);
    } else {
      PhaseIsSane(load, s, a, Next(load, s, x).value.authors[a]);
    }
  }

  lemma ResolvesFor(load: Loader, s: Repo, a: nat)
    requires Sane(load, s) && a < |s.authors|
    ensures s.authors[a].Linking? ==>
              (ResolveIn(load, s, s.authors[a].ref).Ok? <==> Occupied(load, s.inodes, s.slots, s.authors[a].ref))
  {
    if s.authors[a].Linking? { ResolvesIff(load, s, s.authors[a].ref); }
  }

  lemma KeepsIsTransitive(a: Repo, b: Repo, c: Repo)
    requires Keeps(a, b) && Keeps(b, c)
    ensures Keeps(a, c)
  {
  }

  lemma {:induction false} RunIsSane(load: Loader, s: Repo, run: seq<Action>)
    requires Sane(load, s) && Exec(load, s, run).Some?
    ensures Sane(load, Exec(load, s, run).value) && Keeps(s, Exec(load, s, run).value)
  {
    if run != [] {
      RunIsSane(load, s, run[..|run| - 1]);
      var before := Exec(load, s, run[..|run| - 1]).value;
      hide Sane, Next;
      NextIsSane(load, before, run[|run| - 1]);
    }
  }

  /** A slot is filled once: in every continuation of every interleaving, whatever resolves keeps resolving, to the same
      persona, and every answered publication keeps resolving. */
  lemma ResolutionIsStable(load: Loader, authors: nat, run: seq<Action>, later: seq<Action>, ref: Ref)
    requires Exec(load, Start(authors), run).Some?
    requires Exec(load, Exec(load, Start(authors), run).value, later).Some?
    ensures var s := Exec(load, Start(authors), run).value;
            var s' := Exec(load, s, later).value;
            && (ResolveIn(load, s, ref).Ok? ==> ResolveIn(load, s', ref) == ResolveIn(load, s, ref))
            && (ref in s.published ==> ResolveIn(load, s, ref).Ok?)
  {
    RunIsSane(load, Start(authors), run);
    var s := Exec(load, Start(authors), run).value;
    RunIsSane(load, s, later);
    ResolvesIff(load, s, ref);
  }

  /** Two answered publications of one id and version gave the same reference. */
  lemma PublishersAgree(load: Loader, authors: nat, run: seq<Action>, x: Ref, y: Ref)
    requires Exec(load, Start(authors), run).Some?
    requires x in Exec(load, Start(authors), run).value.published
             && y in Exec(load, Start(authors), run).value.published
    requires SlotOf(x) == SlotOf(y)
    ensures x == y
  {
    RunIsSane(load, Start(authors), run);
  }

  // ---- an undisturbed publication -------------------------------------------------------------

  /** The actions of one author, none of them a crash. */
  predicate ByAuthor(run: seq<Action>, a: nat) {
    forall i | 0 <= i < |run| :: run[i].author == a && !run[i].step.Crash?
  }

  lemma Continue(load: Loader, s: Repo, run: seq<Action>, m: Repo, a: nat, step: Step) returns (run': seq<Action>, s': Repo)
    requires Exec(load, s, run) == Some(m) && ByAuthor(run, a) && !step.Crash? && Next(load, m, Action(a, step)).Some?
    ensures Exec(load, s, run') == Some(s') && ByAuthor(run', a) && Some(s') == Next(load, m, Action(a, step))
  {
    hide Next;
    run', s' := run + [Action(a, step)], Next(load, m, Action(a, step)).value;
    assert run'[..|run|] == run;
  }

  /** A private copy written in one go. */
  lemma Written(load: Loader, s: Repo, a: nat, payload: string) returns (run: seq<Action>, s': Repo)
    requires a < |s.authors| && s.authors[a].Resting?
    ensures Exec(load, s, run) == Some(s') && ByAuthor(run, a)
    ensures s' == s.(inodes := s.inodes + [payload], authors := s.authors[a := Checking(|s.inodes|)])
  {
    assert Exec(load, s, []) == Some(s);
    hide Exec;
    run, s' := Continue(load, s, [], s, a, Begin(payload));
    run, s' := Continue(load, s, run, s', a, Write(|payload|));
    assert payload[..|payload|] == payload;
    assert s'.inodes == s.inodes + [payload];
    assert s'.authors == s.authors[a := Checking(|s.inodes|)];
  }

  /** Whatever others have done, an author who is left alone finishes: a payload that is not vetted changes no slot; one that
      is takes its slot if it is free, and is answered exactly when its reference resolves at the end. */
  lemma PublicationCompletes(load: Loader, s: Repo, a: nat, payload: string) returns (run: seq<Action>, s': Repo)
    requires Sane(load, s) && a < |s.authors| && s.authors[a].Resting?
    ensures Exec(load, s, run) == Some(s') && ByAuthor(run, a) && s'.authors == s.authors
    ensures Vetted(load, payload).Err? ==> s'.slots == s.slots && s'.published == s.published
    ensures Vetted(load, payload).Ok? ==>
              var ref := Vetted(load, payload).value;
              && (SlotOf(ref) in s.slots ==> s'.slots == s.slots)
              && (SlotOf(ref) !in s.slots ==> BytesAt(s', ref) == Some(payload) && s'.slots.Keys == s.slots.Keys + {SlotOf(ref)})
              && s'.published == s.published + (if ResolveIn(load, s', ref).Ok? then {ref} else {})
              && (SlotOf(ref) !in s.slots ==> ResolveIn(load, s', ref).Ok?)
  {
    run, s' := Written(load, s, a, payload);
    var m := s';
    hide Exec, Vetted, ResolveBytes;
    run, s' := Continue(load, s, run, s', a, Check);
    if Vetted(load, payload).Ok? {
      var ref := Vetted(load, payload).value;
      NewFileResolves(load, payload, ref);
      SameBytes(load, s, s', ref);
      run, s' := Continue(load, s, run, s', a, Link);
      if s'.authors[a].Linked? { run, s' := Continue(load, s, run, s', a, Answer); }
    }
    assert s'.authors == s.authors;
  }

  lemma NewFileResolves(load: Loader, payload: string, ref: Ref)
    requires Vetted(load, payload) == Ok(ref)
    ensures ResolveBytes(load, Some(payload), ref).Ok?
  {
  }

  lemma SameBytes(load: Loader, s: Repo, s': Repo, ref: Ref)
    requires Sane(load, s) && s'.slots == s.slots && |s.inodes| <= |s'.inodes| && s'.inodes[..|s.inodes|] == s.inodes
    ensures BytesAt(s', ref) == BytesAt(s, ref)
  {
    if SlotOf(ref) in s.slots {
      var n := s.slots[SlotOf(ref)];
      assert n < |s.inodes| && s'.inodes[..|s.inodes|][n] == s'.inodes[n];
    }
  }
}
