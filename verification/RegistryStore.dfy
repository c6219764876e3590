/** The binding registry: one JSON list of entries, the checks a load makes on it, and the operations that rewrite it. */
module RegistryStore {
  import opened Wrappers
  import opened StorageNamespace
  import PersonaPublication

  type Ref = PersonaPublication.Ref

  datatype Identity = Identity(environment: string, personaId: string, agentId: string, runtimeId: string, namespace: string)

  /** A pin as stored: absent, something that is no reference, or a reference. */
  datatype Pin = NoPin | BadPin | Pinned(ref: Ref)

  /** An entry as parsed; a binding id that is no string and an identity that is no object read as None. */
  datatype Entry = Entry(bindingId: Option<string>, isDefault: bool, identity: Option<Identity>, pin: Pin)

  datatype Store = Absent | Unparsable | Registry(entries: seq<Entry>)

  datatype Code =
    | Uninitialized | AlreadyInitialized | Corrupt | DuplicateBindingId | DuplicateActiveIdentity | MultipleDefaults
    | ManifestDivergence | BindingIdUnknown | AdmissionDenied | RevisionConflict | ReplayUnavailable | Storage(error: BindError)

  datatype Descriptor = Descriptor(bindingId: string, environment: Environment, agentId: string, runtimeId: string)

  function EnvName(env: Environment): string {
    match env case PRODUCTION => "production" case LAB => "lab"
  }

  function EnvOf(name: string): Option<Environment> {
    if name == "production" then Some(PRODUCTION) else if name == "lab" then Some(LAB) else None
  }

  function IdentityOf(b: Binding): Identity {
    Identity(EnvName(b.environment), b.personaId, b.agentId, b.runtimeId, b.namespace)
  }

  predicate IdHead(c: char) { 'a' <= c <= 'z' || '0' <= c <= '9' }

  predicate IdText(s: string) {
    1 <= |s| <= 64 && IdHead(s[0]) && forall i | 0 <= i < |s| :: IdHead(s[i]) || s[i] == '-'
  }

  /** `$` also matches before a final line break. */
  predicate IdPattern(s: string) {
    IdText(s) || (|s| > 1 && s[|s| - 1] == '\n' && IdText(s[..|s| - 1]))
  }

  /** By code point: the ASCII digits and lower-case letters. */
  predicate Lower(c: char) {
    48 <= c as int <= 57 || 97 <= c as int <= 122
  }

  predicate ProperId(t: string) {
    t != "" && |t| <= 64 && Lower(t[0]) && forall c | c in t :: Lower(c) || c == '-'
  }

  lemma IdTextIff(t: string)
    ensures IdText(t) <==> ProperId(t)
  {
    assert forall i | 0 <= i < |t| :: t[i] in t;
    if IdText(t) {
      forall c | c in t ensures Lower(c) || c == '-' {
        var i :| 0 <= i < |t| && t[i] == c;
      }
    }
  }

  /** An id is one to sixty-four lower-case letters, digits and hyphens, not starting with a hyphen, apart from one final line
      break. */
  lemma IdPatternIff(s: string)
    ensures IdPattern(s) <==> ProperId(s) || exists t: string :: s == t + "\n" && ProperId(t)
  {
    IdTextIff(s);
    if s != "" { IdTextIff(s[..|s| - 1]); }
    if t: string :| s == t + "\n" && ProperId(t) { assert s[..|s| - 1] == t; }
    if s != "" && s[|s| - 1] == '\n' { assert s == s[..|s| - 1] + "\n"; }
  }

  // ---- what a load accepts ---------------------------------------------------------------

  /** The environment an entry's default flag counts for. */
  function DefaultEnv(e: Entry): string {
    if e.identity.Some? then e.identity.value.environment else ""
  }

  predicate DoubleDefault(entries: seq<Entry>) {
    exists i, j :: 0 <= i < j < |entries| && entries[i].isDefault && entries[j].isDefault
                   && DefaultEnv(entries[i]) == DefaultEnv(entries[j])
  }

  /** The first thing wrong with an entry, given the entries before it. */
  function Fault(seen: seq<Entry>, e: Entry): Option<Code> {
    if e.bindingId.None? || !IdPattern(e.bindingId.value) then Some(Corrupt)
    else if exists i :: 0 <= i < |seen| && seen[i].bindingId == e.bindingId then Some(DuplicateBindingId)
    else if e.identity.None? then Some(Corrupt)
    else if e.pin.BadPin? || (e.pin.Pinned? && e.pin.ref.personaId != e.identity.value.personaId) then Some(Corrupt)
    else if exists i :: 0 <= i < |seen| && seen[i].identity == e.identity then Some(DuplicateActiveIdentity)
    else None
  }

  function FirstFault(entries: seq<Entry>): Option<Code> {
    if entries == [] then None else
    var last := |entries| - 1;
    var sofar := FirstFault(entries[..last]);
    if sofar.Some? then sofar else Fault(entries[..last], entries[last])
  }

  function Load(store: Store): Result<seq<Entry>, Code> {
    match store
    case Absent => Err(Uninitialized)
    case Unparsable => Err(Corrupt)
    case Registry(entries) =>
      if DoubleDefault(entries) then Err(MultipleDefaults)
      else match FirstFault(entries) case Some(code) => Err(code) case None => Ok(entries)
  }

  predicate Sound(e: Entry) {
    && e.bindingId.Some? && IdPattern(e.bindingId.value) && e.identity.Some? && !e.pin.BadPin?
    && (e.pin.Pinned? ==> e.pin.ref.personaId == e.identity.value.personaId)
  }

  /** One identity an id, one id an identity, at most one default an environment, pins of the binding's own persona. */
  predicate WellFormed(entries: seq<Entry>) {
    && (forall i | 0 <= i < |entries| :: Sound(entries[i]))
    && (forall i, j | 0 <= i < j < |entries| :: entries[i].bindingId != entries[j].bindingId && entries[i].identity != entries[j].identity)
    && (forall i, j | 0 <= i < j < |entries| && entries[i].isDefault && entries[j].isDefault ::
          DefaultEnv(entries[i]) != DefaultEnv(entries[j]))
  }

  lemma {:induction false} NoFaultIff(entries: seq<Entry>)
    ensures FirstFault(entries).None?
            <==> && (forall i | 0 <= i < |entries| :: Sound(entries[i]))
                 && (forall i, j | 0 <= i < j < |entries| ::
                       entries[i].bindingId != entries[j].bindingId && entries[i].identity != entries[j].identity)
  {
    hide IdPattern;
    if entries != [] {
      var last := |entries| - 1;
      var init := entries[..last];
      NoFaultIff(init);
      assert forall i | 0 <= i < last :: init[i] == entries[i];
    }
  }

  /** A load accepts exactly the well-formed lists. */
  lemma LoadsIff(store: Store)
    ensures Load(store).Ok? <==> store.Registry? && WellFormed(store.entries)
    ensures Load(store).Ok? ==> Load(store).value == store.entries
  {
    if store.Registry? { NoFaultIff(store.entries); }
  }

  // ---- what the list says -------------------------------------------------------------------

  /** The entry of an id, or the length of the list. */
  function Find(entries: seq<Entry>, id: string): (n: nat)
    ensures n <= |entries|
    ensures forall i | 0 <= i < n :: entries[i].bindingId != Some(id)
    ensures n < |entries| ==> entries[n].bindingId == Some(id)
  {
    if entries == [] then 0 else
    var n := Find(entries[..|entries| - 1], id);
    if n < |entries| - 1 || entries[n].bindingId == Some(id) then n else n + 1
  }

  function IdentityAt(entries: seq<Entry>, id: string): Option<Identity> {
    var n := Find(entries, id);
    if n < |entries| then entries[n].identity else None
  }

  function PinAt(entries: seq<Entry>, id: string): Pin {
    var n := Find(entries, id);
    if n < |entries| then entries[n].pin else NoPin
  }

  predicate InEnv(e: Entry, env: string) {
    e.identity.Some? && e.identity.value.environment == env
  }

  function FindDefault(entries: seq<Entry>, env: string): (n: nat)
    ensures n <= |entries|
    ensures forall i | 0 <= i < n :: !(InEnv(entries[i], env) && entries[i].isDefault)
    ensures n < |entries| ==> InEnv(entries[n], env) && entries[n].isDefault
  {
    if entries == [] then 0 else
    var n := FindDefault(entries[..|entries| - 1], env);
    if n < |entries| - 1 || (InEnv(entries[n], env) && entries[n].isDefault) then n else n + 1
  }

  function DefaultAt(entries: seq<Entry>, env: string): Option<string> {
    var n := FindDefault(entries, env);
    if n < |entries| then entries[n].bindingId else None
  }

  // ---- the rewriting operations, on a loaded list ----------------------------------------------

  datatype Op =
    | Initialize
    | Register(binding: Binding, id: string)
    | PinRevision(id: string, ref: Ref)
    | SetDefault(id: string)
    | ClearDefault(env: Environment)

  /** The first entry that stands in the way of a registration decides its error. */
  function Clash(entries: seq<Entry>, identity: Identity, id: string): (c: Option<Code>)
    ensures c.None? <==> forall i | 0 <= i < |entries| :: entries[i].bindingId != Some(id) && entries[i].identity != Some(identity)
  {
    if entries == [] then None else
    var sofar := Clash(entries[..|entries| - 1], identity, id);
    var last := entries[|entries| - 1];
    if sofar.Some? then sofar
    else if last.bindingId == Some(id) then Some(DuplicateBindingId)
    else if last.identity == Some(identity) then Some(DuplicateActiveIdentity)
    else None
  }

  function Registered(entries: seq<Entry>, b: Binding, id: string): Result<seq<Entry>, Code> {
    match Clash(entries, IdentityOf(b), id)
    case Some(code) => Err(code)
    case None => Ok(entries + [Entry(Some(id), false, Some(IdentityOf(b)), NoPin)])
  }

  function PinnedOn(entries: seq<Entry>, id: string, ref: Ref): Result<seq<Entry>, Code> {
    var n := Find(entries, id);
    if n == |entries| then Err(BindingIdUnknown)
    else if entries[n].identity.None? || entries[n].identity.value.personaId != ref.personaId then Err(AdmissionDenied)
    else match entries[n].pin
      case NoPin => Ok(entries[n := entries[n].(pin := Pinned(ref))])
      case Pinned(existing) => if existing == ref then Ok(entries) else Err(RevisionConflict)
      case BadPin => Err(RevisionConflict)
  }

  function Redefaulted(entries: seq<Entry>, env: string, chosen: Option<string>): (s: seq<Entry>)
    ensures |s| == |entries|
    ensures forall i | 0 <= i < |s| ::
              s[i] == if InEnv(entries[i], env) then entries[i].(isDefault := chosen.Some? && entries[i].bindingId == chosen) else entries[i]
  {
    seq(|entries|, i requires 0 <= i < |entries| =>
      if InEnv(entries[i], env) then entries[i].(isDefault := chosen.Some? && entries[i].bindingId == chosen) else entries[i])
  }

  function Perform(entries: seq<Entry>, op: Op): Result<seq<Entry>, Code> {
    match op
    case Initialize => Err(AlreadyInitialized)
    case Register(b, id) => Registered(entries, b, id)
    case PinRevision(id, ref) => PinnedOn(entries, id, ref)
    case SetDefault(id) =>
      if IdentityAt(entries, id).None? then Err(BindingIdUnknown)
      else Ok(Redefaulted(entries, IdentityAt(entries, id).value.environment, Some(id)))
    case ClearDefault(env) => Ok(Redefaulted(entries, EnvName(env), None))
  }

  /** One call of a writer: the id check of a registration comes first, then the load, then the rewrite. */
  function Call(store: Store, op: Op): Result<Store, Code> {
    if op.Register? && !IdPattern(op.id) then Err(Corrupt)
    else if op.Initialize? then (if store.Absent? then Ok(Registry([])) else Err(AlreadyInitialized))
    else match Load(store)
      case Err(code) => Err(code)
      case Ok(entries) =>
        match Perform(entries, op)
        case Err(code) => Err(code)
        case Ok(after) => Ok(Registry(after))
  }

  // ---- each operation, as a change of what the list says -----------------------------------------

  lemma FindAppend(entries: seq<Entry>, e: Entry, id: string)
    ensures Find(entries + [e], id) == if Find(entries, id) < |entries| then Find(entries, id)
                                       else if e.bindingId == Some(id) then |entries| else |entries| + 1
  {
    assert (entries + [e])[..|entries|] == entries;
  }

  lemma FindDefaultAppend(entries: seq<Entry>, e: Entry, env: string)
    requires !e.isDefault
    ensures DefaultAt(entries + [e], env) == DefaultAt(entries, env)
  {
    assert (entries + [e])[..|entries|] == entries;
  }

  /** A registration adds one id with one identity, unpinned and not default, and is refused exactly when the id or the
      identity is taken. */
  lemma RegisterEffect(entries: seq<Entry>, b: Binding, id: string)
    requires WellFormed(entries) && IdPattern(id)
    ensures Registered(entries, b, id).Ok?
            <==> IdentityAt(entries, id).None? && forall i | 0 <= i < |entries| :: entries[i].identity != Some(IdentityOf(b))
    ensures Registered(entries, b, id).Ok? ==>
              var after := Registered(entries, b, id).value;
              && WellFormed(after)
              && (forall x :: IdentityAt(after, x) == if x == id then Some(IdentityOf(b)) else IdentityAt(entries, x))
              && (forall x :: PinAt(after, x) == PinAt(entries, x))
              && (forall env :: DefaultAt(after, env) == DefaultAt(entries, env))
  {
    hide IdPattern;
    if Registered(entries, b, id).Ok? {
      var e := Entry(Some(id), false, Some(IdentityOf(b)), NoPin);
      forall x
        ensures IdentityAt(entries + [e], x) == if x == id then Some(IdentityOf(b)) else IdentityAt(entries, x)
        ensures PinAt(entries + [e], x) == PinAt(entries, x)
      {
        FindAppend(entries, e, x);
      }
      forall env ensures DefaultAt(entries + [e], env) == DefaultAt(entries, env) {
        FindDefaultAppend(entries, e, env);
      }
    }
  }

  lemma FindIs(entries: seq<Entry>, id: string, n: nat)
    requires n <= |entries| && forall i | 0 <= i < n :: entries[i].bindingId != Some(id)
    requires n < |entries| ==> entries[n].bindingId == Some(id)
    ensures Find(entries, id) == n
  {
  }

  lemma FindDefaultIs(entries: seq<Entry>, env: string, n: nat)
    requires n <= |entries| && forall i | 0 <= i < n :: !(InEnv(entries[i], env) && entries[i].isDefault)
    requires n < |entries| ==> InEnv(entries[n], env) && entries[n].isDefault
    ensures FindDefault(entries, env) == n
  {
  }

  lemma SameIdsSameFind(x: seq<Entry>, y: seq<Entry>, id: string)
    requires |x| == |y| && forall i | 0 <= i < |x| :: x[i].bindingId == y[i].bindingId
    ensures Find(x, id) == Find(y, id)
  {
    FindIs(x, id, Find(y, id));
  }

  lemma SameFlagsSameDefault(x: seq<Entry>, y: seq<Entry>, env: string)
    requires |x| == |y|
    requires forall i | 0 <= i < |x| :: x[i].bindingId == y[i].bindingId && x[i].identity == y[i].identity
    requires forall i | 0 <= i < |x| && InEnv(x[i], env) :: x[i].isDefault == y[i].isDefault
    ensures DefaultAt(x, env) == DefaultAt(y, env)
  {
    FindDefaultIs(x, env, FindDefault(y, env));
  }

  /** A pin is written once: it succeeds exactly for the binding's own persona with no other pin, and changes nothing else. */
  lemma PinEffect(entries: seq<Entry>, id: string, ref: Ref)
    requires WellFormed(entries)
    ensures PinnedOn(entries, id, ref).Ok?
            <==> IdentityAt(entries, id).Some? && IdentityAt(entries, id).value.personaId == ref.personaId
                 && (PinAt(entries, id).NoPin? || PinAt(entries, id) == Pinned(ref))
    ensures PinnedOn(entries, id, ref).Ok? ==>
              var after := PinnedOn(entries, id, ref).value;
              && WellFormed(after)
              && (forall x :: IdentityAt(after, x) == IdentityAt(entries, x))
              && (forall x :: PinAt(after, x) == if x == id then Pinned(ref) else PinAt(entries, x))
              && (forall env :: DefaultAt(after, env) == DefaultAt(entries, env))
  {
    hide IdPattern;
    var n := Find(entries, id);
    if n < |entries| { assert Sound(entries[n]); }
    if PinnedOn(entries, id, ref).Ok? {
      var after := PinnedOn(entries, id, ref).value;
      forall x
        ensures IdentityAt(after, x) == IdentityAt(entries, x)
        ensures PinAt(after, x) == if x == id then Pinned(ref) else PinAt(entries, x)
      {
        SameIdsSameFind(after, entries, x);
      }
      forall env ensures DefaultAt(after, env) == DefaultAt(entries, env) {
        SameFlagsSameDefault(after, entries, env);
      }
    }
  }

  lemma RedefaultedIsWellFormed(entries: seq<Entry>, env: string, chosen: Option<string>)
    requires WellFormed(entries)
    ensures WellFormed(Redefaulted(entries, env, chosen))
  {
    hide IdPattern;
    var after := Redefaulted(entries, env, chosen);
    assert forall i | 0 <= i < |entries| :: Sound(entries[i]);
    assert forall i | 0 <= i < |after| :: Sound(after[i]) && DefaultEnv(after[i]) == DefaultEnv(entries[i])
                                          && after[i].bindingId == entries[i].bindingId
                                             && after[i].identity == entries[i].identity;
    forall i, j | 0 <= i < j < |after| && after[i].isDefault && after[j].isDefault
      ensures DefaultEnv(after[i]) != DefaultEnv(after[j])
    {
      FlagsApart(entries[i], entries[j], after[i], after[j], env, chosen);
    }
  }

  lemma FlagsApart(x: Entry, y: Entry, x': Entry, y': Entry, env: string, chosen: Option<string>)
    requires x.identity.Some? && y.identity.Some? && x.bindingId != y.bindingId
    requires x.isDefault && y.isDefault ==> DefaultEnv(x) != DefaultEnv(y)
    requires x' == if InEnv(x, env) then x.(isDefault := chosen.Some? && x.bindingId == chosen) else x
    requires y' == if InEnv(y, env) then y.(isDefault := chosen.Some? && y.bindingId == chosen) else y
    requires x'.isDefault && y'.isDefault
    ensures DefaultEnv(x') != DefaultEnv(y')
  {
  }

  lemma ChosenIsDefault(entries: seq<Entry>, env: string, chosen: Option<string>)
    requires WellFormed(entries)
    requires chosen.Some? ==>
              Find(entries, chosen.value) < |entries| && InEnv(entries[Find(entries, chosen.value)], env)
    ensures DefaultAt(Redefaulted(entries, env, chosen), env) == chosen
  {
    hide IdPattern, Sound;
    var after := Redefaulted(entries, env, chosen);
    if chosen.Some? {
      var n := Find(entries, chosen.value);
      forall i | 0 <= i < n ensures !(InEnv(after[i], env) && after[i].isDefault) {
        assert entries[i].bindingId != entries[n].bindingId;
      }
      FindDefaultIs(after, env, n);
    } else {
      FindDefaultIs(after, env, |after|);
    }
  }

  /** Setting or clearing a default changes the default of one environment and nothing else. */
  lemma DefaultEffect(entries: seq<Entry>, env: string, chosen: Option<string>)
    requires WellFormed(entries)
    requires chosen.Some? ==>
              Find(entries, chosen.value) < |entries| && InEnv(entries[Find(entries, chosen.value)], env)
    ensures var after := Redefaulted(entries, env, chosen);
            && WellFormed(after)
            && (forall x :: IdentityAt(after, x) == IdentityAt(entries, x) && PinAt(after, x) == PinAt(entries, x))
            && (forall other :: DefaultAt(after, other) == if other == env then chosen else DefaultAt(entries, other))
  {
    var after := Redefaulted(entries, env, chosen);
    ChosenIsDefault(entries, env, chosen);
    RedefaultedIsWellFormed(entries, env, chosen);
    hide IdPattern, WellFormed;
    forall x ensures IdentityAt(after, x) == IdentityAt(entries, x) && PinAt(after, x) == PinAt(entries, x) {
      SameIdsSameFind(after, entries, x);
    }
    forall other | other != env ensures DefaultAt(after, other) == DefaultAt(entries, other) {
      SameFlagsSameDefault(after, entries, other);
    }
  }
}
