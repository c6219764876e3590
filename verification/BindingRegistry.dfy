/** The registry object: loops that check the store on every load, and writers that rewrite the list in place and replace
    the store, proved to be the operations of the model. */
module BindingRegistries {
  import opened Wrappers
  import opened StorageNamespace
  import opened RegistryStore
  import opened RegistryHistory

  datatype NoDefault = RegistryEmpty | NotDeclared

  datatype DefaultResult = DefaultBinding(descriptor: Descriptor) | NoDefaultBinding(reason: NoDefault)

  /** Descriptors of one environment in list order; an unknown environment anywhere spoils the answer. */
  function Listed(entries: seq<Entry>, env: Environment): Result<seq<Descriptor>, Code> {
    if entries == [] then Ok([]) else
    var e := entries[|entries| - 1];
    match Listed(entries[..|entries| - 1], env)
    case Err(code) => Err(code)
    case Ok(sofar) =>
      if e.bindingId.None? || e.identity.None? || EnvOf(e.identity.value.environment).None? then Err(Corrupt)
      else if e.identity.value.environment != EnvName(env) then Ok(sofar)
      else Ok(sofar + [DescriptorOf(e, env)])
  }

  function DescriptorOf(e: Entry, env: Environment): Descriptor
    requires e.bindingId.Some? && e.identity.Some?
  {
    Descriptor(e.bindingId.value, env, e.identity.value.agentId, e.identity.value.runtimeId)
  }

  /** The descriptor's four fields are those of this entry. */
  predicate Describes(d: Descriptor, e: Entry, env: Environment) {
    && e.bindingId == Some(d.bindingId) && d.environment == env
    && e.identity.Some? && e.identity.value.environment == EnvName(env)
    && e.identity.value.agentId == d.agentId && e.identity.value.runtimeId == d.runtimeId
  }

  /** The list holds a descriptor exactly when its id is registered for the environment with that agent and runtime; it
      fails exactly when some entry is of no known environment. */
  lemma {:induction false} ListedIff(entries: seq<Entry>, env: Environment)
    requires forall i | 0 <= i < |entries| :: Sound(entries[i])
    ensures Listed(entries, env).Ok? ==>
              forall d :: d in Listed(entries, env).value <==> exists i :: 0 <= i < |entries| && Describes(d, entries[i], env)
    ensures Listed(entries, env).Ok?
            <==> forall i | 0 <= i < |entries| :: InEnv(entries[i], "production") || InEnv(entries[i], "lab")
    ensures Listed(entries, env).Err? ==> Listed(entries, env) == Err(Corrupt)
  {
    hide IdPattern;
    if entries != [] {
      var last := |entries| - 1;
      var init := entries[..last];
      assert forall i | 0 <= i < last :: init[i] == entries[i];
      ListedIff(init, env);
      assert Sound(entries[last]);
      if Listed(entries, env).Ok? {
        forall d ensures d in Listed(entries, env).value <==> exists i :: 0 <= i < |entries| && Describes(d, entries[i], env) {
          if Describes(d, entries[last], env) { assert d == DescriptorOf(entries[last], env); }
        }
      }
    }
  }

  /** The descriptors stand in the order of their entries. */
  ghost predicate InOrder(entries: seq<Entry>, env: Environment, listed: seq<Descriptor>) {
    forall i, j, d, e | 0 <= i < j < |entries| && Describes(d, entries[i], env) && Describes(e, entries[j], env) ::
      exists x, y :: 0 <= x < y < |listed| && listed[x] == d && listed[y] == e
  }

  function OfEnv(entries: seq<Entry>, env: Environment): set<nat> {
    set i | 0 <= i < |entries| && InEnv(entries[i], EnvName(env))
  }

  lemma OneMoreOfEnv(entries: seq<Entry>, env: Environment)
    requires entries != []
    ensures var last := |entries| - 1;
            |OfEnv(entries, env)| == |OfEnv(entries[..last], env)| + if InEnv(entries[last], EnvName(env)) then 1 else 0
  {
    hide InEnv;
    var last := |entries| - 1;
    var init := entries[..last];
    assert forall i | 0 <= i < last :: init[i] == entries[i];
    assert OfEnv(entries, env) == OfEnv(init, env) + if InEnv(entries[last], EnvName(env)) then {last} else {};
  }

  lemma {:induction false} ListedOncePerEntry(entries: seq<Entry>, env: Environment)
    requires Listed(entries, env).Ok?
    ensures |Listed(entries, env).value| == |OfEnv(entries, env)|
  {
    if entries != [] {
      hide OfEnv;
      OneMoreOfEnv(entries, env);
      ListedOncePerEntry(entries[..|entries| - 1], env);
    }
  }

  /** One descriptor an entry of the environment, in list order. */
  lemma {:induction false} ListedInOrder(entries: seq<Entry>, env: Environment)
    requires forall i | 0 <= i < |entries| :: Sound(entries[i])
    requires Listed(entries, env).Ok?
    ensures InOrder(entries, env, Listed(entries, env).value)
    ensures |Listed(entries, env).value| == |OfEnv(entries, env)|
  {
    hide IdPattern;
    ListedOncePerEntry(entries, env);
    if entries != [] {
      var last := |entries| - 1;
      var init := entries[..last];
      assert forall i | 0 <= i < last :: init[i] == entries[i];
      assert Sound(entries[last]);
      var before, now := Listed(init, env).value, Listed(entries, env).value;
      hide Listed, Sound, OfEnv, InOrder;
      ListedInOrder(init, env);
      ListedIff(init, env);
      LastInOrder(entries, init, env, before, now);
    }
  }

  lemma LastInOrder(entries: seq<Entry>, init: seq<Entry>, env: Environment, before: seq<Descriptor>, now: seq<Descriptor>)
    requires entries != [] && init == entries[..|entries| - 1] && InOrder(init, env, before)
    requires forall d, i | 0 <= i < |init| && Describes(d, init[i], env) :: d in before
    requires if InEnv(entries[|entries| - 1], EnvName(env)) && entries[|entries| - 1].bindingId.Some?
             then now == before + [DescriptorOf(entries[|entries| - 1], env)] else now == before
    ensures InOrder(entries, env, now)
  {
    var last := |entries| - 1;
    forall i, j, d, e | 0 <= i < j < |entries| && Describes(d, entries[i], env) && Describes(e, entries[j], env)
      ensures exists x, y :: 0 <= x < y < |now| && now[x] == d && now[y] == e
    {
      assert init[i] == entries[i];
      if j < last {
        assert init[j] == entries[j];
        var x, y :| 0 <= x < y < |before| && before[x] == d && before[y] == e;
        assert now[x] == d && now[y] == e;
      } else {
        assert Describes(d, init[i], env) && d in before;
        var x :| 0 <= x < |before| && before[x] == d;
        assert now[x] == d && now[|before|] == e;
      }
    }
  }

  /** An empty environment and one without a default are told apart; nothing is inferred. */
  function Defaulted(entries: seq<Entry>, env: Environment): DefaultResult {
    var n := FindDefault(entries, EnvName(env));
    if n < |entries| && entries[n].bindingId.Some? && entries[n].identity.Some? then DefaultBinding(DescriptorOf(entries[n], env))
    else NoDefaultBinding(if exists i :: 0 <= i < |entries| && InEnv(entries[i], EnvName(env)) then NotDeclared else RegistryEmpty)
  }

  /** The default binding is the one the list names as default, with its own identity; without one, an environment that has
      entries is told from one that has none. */
  lemma DefaultedIff(entries: seq<Entry>, env: Environment)
    requires WellFormed(entries)
    ensures forall d ::
              Defaulted(entries, env) == DefaultBinding(d)
              <==> && DefaultAt(entries, EnvName(env)) == Some(d.bindingId) && d.environment == env
                   && IdentityAt(entries, d.bindingId).Some?
                   && IdentityAt(entries, d.bindingId).value.agentId == d.agentId
                   && IdentityAt(entries, d.bindingId).value.runtimeId == d.runtimeId
    ensures Defaulted(entries, env) == NoDefaultBinding(RegistryEmpty) <==> forall i | 0 <= i < |entries| :: !InEnv(entries[i], EnvName(env))
    ensures Defaulted(entries, env) == NoDefaultBinding(NotDeclared)
            <==> DefaultAt(entries, EnvName(env)).None? && exists i :: 0 <= i < |entries| && InEnv(entries[i], EnvName(env))
  {
    hide IdPattern;
    var n := FindDefault(entries, EnvName(env));
    if n < |entries| {
      assert Sound(entries[n]);
      FindIs(entries, entries[n].bindingId.value, n);
    }
  }

  lemma DefaultFound(entries: seq<Entry>, env: Environment, i: nat)
    requires WellFormed(entries) && i < |entries| && InEnv(entries[i], EnvName(env)) && entries[i].isDefault
    requires forall j | 0 <= j < i :: !(InEnv(entries[j], EnvName(env)) && entries[j].isDefault)
    ensures entries[i].bindingId.Some? && Defaulted(entries, env) == DefaultBinding(DescriptorOf(entries[i], env))
  {
    hide IdPattern;
    FindDefaultIs(entries, EnvName(env), i);
    assert Sound(entries[i]);
  }

  lemma NoDefaultFound(entries: seq<Entry>, env: Environment)
    requires forall j | 0 <= j < |entries| :: !(InEnv(entries[j], EnvName(env)) && entries[j].isDefault)
    ensures Defaulted(entries, env)
            == NoDefaultBinding(if exists j :: 0 <= j < |entries| && InEnv(entries[j], EnvName(env)) then NotDeclared else RegistryEmpty)
  {
    FindDefaultIs(entries, EnvName(env), |entries|);
  }

  lemma DoubleDefaultGrows(entries: seq<Entry>, i: nat)
    requires i < |entries|
    ensures DoubleDefault(entries[..i + 1])
            <==> DoubleDefault(entries[..i])
                 || (entries[i].isDefault && exists j :: 0 <= j < i && entries[j].isDefault && DefaultEnv(entries[j]) == DefaultEnv(entries[i]))
  {
    var x, y := entries[..i], entries[..i + 1];
    assert forall j | 0 <= j < i :: x[j] == entries[j] && y[j] == entries[j];
    assert y[i] == entries[i];
    if DoubleDefault(x) {
      var a, b :| 0 <= a < b < |x| && x[a].isDefault && x[b].isDefault && DefaultEnv(x[a]) == DefaultEnv(x[b]);
      assert y[a].isDefault && y[b].isDefault && DefaultEnv(y[a]) == DefaultEnv(y[b]);
    }
    if entries[i].isDefault {
      if j :| 0 <= j < i && entries[j].isDefault && DefaultEnv(entries[j]) == DefaultEnv(entries[i]) {
        assert y[j].isDefault && y[i].isDefault;
      }
    }
  }

  lemma {:induction false} FaultSticks(entries: seq<Entry>, i: nat)
    requires i <= |entries| && FirstFault(entries[..i]).Some?
    ensures FirstFault(entries) == FirstFault(entries[..i])
    decreases |entries|
  {
    if i == |entries| {
      assert entries[..i] == entries;
    } else {
      assert entries[..|entries| - 1][..i] == entries[..i];
      FaultSticks(entries[..|entries| - 1], i);
    }
  }

  class BindingRegistry {
    var store: Store
    var temp: Option<seq<Entry>>

    constructor (store: Store)
      ensures this.store == store && temp == None
    {
      this.store, temp := store, None;
    }

    method HasDoubleDefault(entries: seq<Entry>) returns (double: bool)
      ensures double == DoubleDefault(entries)
    {
      var once: set<string> := {};
      double := false;
      var i := 0;
      while i < |entries|
        invariant i <= |entries|
        invariant forall env :: env in once <==> exists j :: 0 <= j < i && entries[j].isDefault && DefaultEnv(entries[j]) == env
        invariant double == DoubleDefault(entries[..i])
      {
        DoubleDefaultGrows(entries, i);
        if entries[i].isDefault {
          if DefaultEnv(entries[i]) in once { double := true; }
          once := once + {DefaultEnv(entries[i])};
        }
        i := i + 1;
      }
      assert entries[..i] == entries;
    }

    method FirstBadEntry(entries: seq<Entry>) returns (fault: Option<Code>)
      ensures fault == FirstFault(entries)
    {
      var seenIds: set<Option<string>> := {};
      var seenIdentities: set<Option<Identity>> := {};
      var i := 0;
      while i < |entries|
        invariant i <= |entries|
        invariant forall id :: id in seenIds <==> exists j :: 0 <= j < i && entries[j].bindingId == id
        invariant forall x :: x in seenIdentities <==> exists j :: 0 <= j < i && entries[j].identity == x
        invariant FirstFault(entries[..i]) == None
      {
        var e := entries[i];
        fault := None;
        if e.bindingId.None? || !IdPattern(e.bindingId.value) { fault := Some(Corrupt); }
        else if e.bindingId in seenIds { fault := Some(DuplicateBindingId); }
        else if e.identity.None? { fault := Some(Corrupt); }
        else if e.pin.BadPin? || (e.pin.Pinned? && e.pin.ref.personaId != e.identity.value.personaId) { fault := Some(Corrupt); }
        else if e.identity in seenIdentities { fault := Some(DuplicateActiveIdentity); }
        FaultOfNext(entries, i);
        assert fault == Fault(entries[..i], e) by {
          hide IdPattern;
          assert forall j | 0 <= j < i :: entries[..i][j] == entries[j];
        }
        if fault.Some? {
          FaultSticks(entries, i + 1);
          return;
        }
        seenIds := seenIds + {e.bindingId};
        seenIdentities := seenIdentities + {e.identity};
        i := i + 1;
      }
      assert entries[..i] == entries;
      fault := None;
    }

    method LoadStore() returns (r: Result<seq<Entry>, Code>)
      ensures r == Load(store)
    {
      match store {
        case Absent => return Err(Uninitialized);
        case Unparsable => return Err(Corrupt);
        case Registry(entries) =>
          var double := HasDoubleDefault(entries);
          if double { return Err(MultipleDefaults); }
          var fault := FirstBadEntry(entries);
          if fault.Some? { return Err(fault.value); }
          return Ok(entries);
      }
    }

    /** Written beside the store, then renamed over it. */
    method SaveStore(entries: seq<Entry>)
      modifies this
      ensures store == Registry(entries) && temp == None
    {
      temp := Some(entries);
      store := Registry(temp.value);
      temp := None;
    }

    method InitializeStore() returns (r: Result<(), Code>)
      modifies this
      ensures Performs(old(store), Initialize, store, r)
    {
      if !store.Absent? { return Err(AlreadyInitialized); }
      SaveStore([]);
      r := Ok(());
    }

    method RegisterBinding(b: Binding, id: string) returns (r: Result<(), Code>)
      modifies this
      ensures Performs(old(store), Register(b, id), store, r)
    {
      hide IdPattern, FirstFault, DoubleDefault;
      if !IdPattern(id) { return Err(Corrupt); }
      var loaded := LoadStore();
      if loaded.Err? { return Err(loaded.error); }
      var entries := loaded.value;
      var i := 0;
      while i < |entries|
        invariant i <= |entries|
        invariant Clash(entries[..i], IdentityOf(b), id) == None
      {
        assert entries[..i + 1][..i] == entries[..i];
        if entries[i].bindingId == Some(id) {
          ClashSticks(entries, IdentityOf(b), id, i + 1);
          return Err(DuplicateBindingId);
        }
        if entries[i].identity == Some(IdentityOf(b)) {
          ClashSticks(entries, IdentityOf(b), id, i + 1);
          return Err(DuplicateActiveIdentity);
        }
        i := i + 1;
      }
      assert entries[..i] == entries;
      SaveStore(entries + [Entry(Some(id), false, Some(IdentityOf(b)), NoPin)]);
      r := Ok(());
    }

    method PinPersonaRevision(id: string, ref: Ref) returns (r: Result<(), Code>)
      modifies this
      ensures Performs(old(store), PinRevision(id, ref), store, r)
    {
      hide IdPattern, FirstFault, DoubleDefault;
      var loaded := LoadStore();
      if loaded.Err? { return Err(loaded.error); }
      var entries := loaded.value;
      var i := 0;
      while i < |entries|
        invariant i <= |entries| && store == old(store)
        invariant forall j | 0 <= j < i :: entries[j].bindingId != Some(id)
      {
        if entries[i].bindingId == Some(id) {
          FindIs(entries, id, i);
          if entries[i].identity.None? || entries[i].identity.value.personaId != ref.personaId { return Err(AdmissionDenied); }
          if !entries[i].pin.NoPin? {
            if entries[i].pin == Pinned(ref) {
              assert store == Registry(entries) by { LoadsIff(store); }
              return Ok(());
            }
            return Err(RevisionConflict);
          }
          entries := entries[i := entries[i].(pin := Pinned(ref))];
          SaveStore(entries);
          return Ok(());
        }
        i := i + 1;
      }
      FindIs(entries, id, i);
      r := Err(BindingIdUnknown);
    }

    /** Rewrites the flags of one environment's entries, one after the other. */
    method Redefault(entries: seq<Entry>, env: string, chosen: Option<string>) returns (after: seq<Entry>)
      ensures after == Redefaulted(entries, env, chosen)
    {
      after := entries;
      var i := 0;
      while i < |entries|
        invariant i <= |entries| == |after|
        invariant forall j | 0 <= j < i :: after[j] == Redefaulted(entries, env, chosen)[j]
        invariant forall j | i <= j < |entries| :: after[j] == entries[j]
      {
        if InEnv(after[i], env) {
          after := after[i := after[i].(isDefault := chosen.Some? && after[i].bindingId == chosen)];
        }
        i := i + 1;
      }
    }

    method SetDefaultBinding(id: string) returns (r: Result<(), Code>)
      modifies this
      ensures Performs(old(store), SetDefault(id), store, r)
    {
      hide IdPattern, FirstFault, DoubleDefault, Redefaulted;
      LoadsIff(store);
      var loaded := LoadStore();
      if loaded.Err? { return Err(loaded.error); }
      var entries := loaded.value;
      var i := 0;
      while i < |entries| && entries[i].bindingId != Some(id)
        invariant i <= |entries|
        invariant forall j | 0 <= j < i :: entries[j].bindingId != Some(id)
      {
        i := i + 1;
      }
      FindIs(entries, id, i);
      if i == |entries| { return Err(BindingIdUnknown); }
      assert Sound(entries[i]);
      var after := Redefault(entries, entries[i].identity.value.environment, Some(id));
      SaveStore(after);
      r := Ok(());
    }

    method ClearDefaultBinding(env: Environment) returns (r: Result<(), Code>)
      modifies this
      ensures Performs(old(store), ClearDefault(env), store, r)
    {
      hide IdPattern, FirstFault, DoubleDefault, Redefaulted;
      var loaded := LoadStore();
      if loaded.Err? { return Err(loaded.error); }
      var after := Redefault(loaded.value, EnvName(env), None);
      SaveStore(after);
      r := Ok(());
    }

    /** The loop over the entries; an environment nobody knows ends it. */
    method DescriptorsOf(entries: seq<Entry>, env: Environment) returns (r: Result<seq<Descriptor>, Code>)
      requires forall i | 0 <= i < |entries| :: Sound(entries[i])
      ensures r == Listed(entries, env)
    {
      hide IdPattern;
      var descriptors: seq<Descriptor> := [];
      var i := 0;
      while i < |entries|
        invariant i <= |entries|
        invariant Listed(entries[..i], env) == Ok(descriptors)
      {
        assert entries[..i + 1][..i] == entries[..i];
        assert Sound(entries[i]);
        if EnvOf(entries[i].identity.value.environment).None? {
          ListedSticks(entries, env, i + 1);
          return Err(Corrupt);
        }
        if entries[i].identity.value.environment == EnvName(env) {
          descriptors := descriptors + [DescriptorOf(entries[i], env)];
        }
        i := i + 1;
      }
      assert entries[..i] == entries;
      r := Ok(descriptors);
    }

    method ListBindings(env: Environment) returns (r: Result<seq<Descriptor>, Code>)
      ensures Load(store).Err? ==> r == Err(Load(store).error)
      ensures Load(store).Ok? ==> r == Listed(Load(store).value, env)
      ensures r.Ok? ==>
                forall d :: d in r.value <==> exists i :: 0 <= i < |Load(store).value| && Describes(d, Load(store).value[i], env)
    {
      hide IdPattern, FirstFault, DoubleDefault;
      LoadsIff(store);
      var loaded := LoadStore();
      if loaded.Err? { return Err(loaded.error); }
      ListedIff(loaded.value, env);
      r := DescriptorsOf(loaded.value, env);
    }

    method GetDefault(env: Environment) returns (r: Result<DefaultResult, Code>)
      ensures Load(store).Err? ==> r == Err(Load(store).error)
      ensures Load(store).Ok? ==> r == Ok(Defaulted(Load(store).value, env))
      ensures Load(store).Ok? ==>
                forall d :: r == Ok(DefaultBinding(d))
                            <==> && DefaultAt(Load(store).value, EnvName(env)) == Some(d.bindingId) && d.environment == env
                                 && IdentityAt(Load(store).value, d.bindingId).Some?
                                 && IdentityAt(Load(store).value, d.bindingId).value.agentId == d.agentId
                                 && IdentityAt(Load(store).value, d.bindingId).value.runtimeId == d.runtimeId
    {
      hide IdPattern, FirstFault, DoubleDefault, Defaulted, IdentityAt, DefaultAt, Load;
      LoadsIff(store);
      var loaded := LoadStore();
      if loaded.Err? { return Err(loaded.error); }
      var entries := loaded.value;
      DefaultedIff(entries, env);
      var present := false;
      var i := 0;
      while i < |entries|
        invariant i <= |entries|
        invariant present <==> exists j :: 0 <= j < i && InEnv(entries[j], EnvName(env))
        invariant forall j | 0 <= j < i :: !(InEnv(entries[j], EnvName(env)) && entries[j].isDefault)
      {
        if InEnv(entries[i], EnvName(env)) {
          present := true;
          if entries[i].isDefault {
            DefaultFound(entries, env, i);
            return Ok(DefaultBinding(DescriptorOf(entries[i], env)));
          }
        }
        i := i + 1;
      }
      NoDefaultFound(entries, env);
      r := Ok(NoDefaultBinding(if present then NotDeclared else RegistryEmpty));
    }

    /** The pinned revision of an id, if it is of the environment asked for. */
    method ResolvePersonaRevision(id: string, env: Environment) returns (r: Result<Ref, Code>)
      ensures Load(store).Err? ==> r == Err(Load(store).error)
      ensures Load(store).Ok? ==> r == PinnedRevision(Load(store).value, id, env)
    {
      hide IdPattern, FirstFault, DoubleDefault;
      LoadsIff(store);
      var loaded := LoadStore();
      if loaded.Err? { return Err(loaded.error); }
      var entries := loaded.value;
      var i := 0;
      while i < |entries|
        invariant i <= |entries|
        invariant forall j | 0 <= j < i :: entries[j].bindingId != Some(id)
      {
        if entries[i].bindingId == Some(id) {
          FindIs(entries, id, i);
          assert Sound(entries[i]);
          if entries[i].identity.value.environment != EnvName(env) { return Err(AdmissionDenied); }
          if !entries[i].pin.Pinned? { return Err(ReplayUnavailable); }
          return Ok(entries[i].pin.ref);
        }
        i := i + 1;
      }
      FindIs(entries, id, i);
      r := Err(BindingIdUnknown);
    }

    method ResolveBinding(id: string, env: Environment, site: Site, manifests: Manifests)
      returns (r: Result<Binding, Code>)
      ensures Load(store).Err? ==> r == Err(Load(store).error)
      ensures Load(store).Ok? ==> r == Resolved(Load(store).value, id, env, site, manifests)
    {
      hide IdPattern, FirstFault, DoubleDefault, ResolveAt;
      LoadsIff(store);
      var loaded := LoadStore();
      if loaded.Err? { return Err(loaded.error); }
      var entries := loaded.value;
      var i := 0;
      while i < |entries| && entries[i].bindingId != Some(id)
        invariant i <= |entries|
        invariant forall j | 0 <= j < i :: entries[j].bindingId != Some(id)
      {
        i := i + 1;
      }
      FindIs(entries, id, i);
      if i == |entries| { return Err(BindingIdUnknown); }
      assert Sound(entries[i]);
      var x := entries[i].identity.value;
      var entryEnv := EnvOf(x.environment);
      if entryEnv.None? { return Err(Corrupt); }
      if entryEnv.value != env { return Err(AdmissionDenied); }
      var b := Binding(x.personaId, x.agentId, x.runtimeId, x.namespace, env);
      var paths := ResolveAt(b, site);
      if paths.Err? { return Err(Storage(paths.error)); }
      if paths.value.manifest in manifests && manifests[paths.value.manifest] != Owner(b) { return Err(ManifestDivergence); }
      r := Ok(b);
    }
  }

  /** A call left the store and gave the answer that the model's call does. */
  predicate Performs(before: Store, op: Op, after: Store, r: Result<(), Code>) {
    match Call(before, op)
    case Ok(s) => after == s && r == Ok(())
    case Err(code) => after == before && r == Err(code)
  }

  lemma FaultOfNext(entries: seq<Entry>, i: nat)
    requires i < |entries| && FirstFault(entries[..i]) == None
    ensures FirstFault(entries[..i + 1]) == Fault(entries[..i], entries[i])
  {
    assert entries[..i + 1][..i] == entries[..i];
  }

  lemma {:induction false} ClashSticks(entries: seq<Entry>, identity: Identity, id: string, i: nat)
    requires i <= |entries| && Clash(entries[..i], identity, id).Some?
    ensures Clash(entries, identity, id) == Clash(entries[..i], identity, id)
    decreases |entries|
  {
    if i == |entries| {
      assert entries[..i] == entries;
    } else {
      assert entries[..|entries| - 1][..i] == entries[..i];
      ClashSticks(entries[..|entries| - 1], identity, id, i);
    }
  }

  lemma {:induction false} ListedSticks(entries: seq<Entry>, env: Environment, i: nat)
    requires i <= |entries| && Listed(entries[..i], env).Err?
    ensures Listed(entries, env) == Listed(entries[..i], env)
    decreases |entries|
  {
    if i == |entries| {
      assert entries[..i] == entries;
    } else {
      assert entries[..|entries| - 1][..i] == entries[..i];
      ListedSticks(entries[..|entries| - 1], env, i);
    }
  }
}
