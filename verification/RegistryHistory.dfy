/** What every sequence of registry calls leaves behind, wherever calls were cut short. */
module RegistryHistory {
  import opened Wrappers
  import opened StorageNamespace
  import opened RegistryStore
  import P = PersonaPublication

  /** A writer call; one cut before its rename has at most written a temporary file. */
  datatype Event = Event(op: Op, cut: bool)

  function After(store: Store, e: Event): Store {
    if e.cut then store else
    match Call(store, e.op) case Ok(after) => after case Err(_) => store
  }

  function History(events: seq<Event>): Store {
    if events == [] then Absent else After(History(events[..|events| - 1]), events[|events| - 1])
  }

  function EntriesOf(store: Store): seq<Entry> {
    if store.Registry? then store.entries else []
  }

  predicate Succeeded(events: seq<Event>, i: nat)
    requires i < |events|
  {
    !events[i].cut && Call(History(events[..i]), events[i].op).Ok?
  }

  predicate Acceptable(store: Store) {
    store.Absent? || (store.Registry? && WellFormed(store.entries))
  }

  /** What the lists before and after a successful call say. */
  ghost predicate Evolves(x: seq<Entry>, y: seq<Entry>, op: Op) {
    && (forall id :: IdentityAt(y, id) == if op.Register? && op.id == id then Some(IdentityOf(op.binding)) else IdentityAt(x, id))
    && (forall id :: PinAt(y, id) == if op.PinRevision? && op.id == id then Pinned(op.ref) else PinAt(x, id))
    && (forall env :: DefaultAt(y, env) == DefaultAfter(x, op, env))
  }

  function DefaultAfter(x: seq<Entry>, op: Op, env: string): Option<string> {
    if op.SetDefault? && IdentityAt(x, op.id).Some? && IdentityAt(x, op.id).value.environment == env then Some(op.id)
    else if op.ClearDefault? && EnvName(op.env) == env then None
    else DefaultAt(x, env)
  }

  /** Each successful call takes an accepted store to an accepted store and does what its operation says; a refused call
      changes nothing. */
  lemma CallEvolves(store: Store, op: Op)
    requires Acceptable(store)
    ensures Call(store, op).Ok? ==>
              Acceptable(Call(store, op).value) && Call(store, op).value.Registry?
              && Evolves(EntriesOf(store), EntriesOf(Call(store, op).value), op)
              && (op.Register? ==> IdentityAt(EntriesOf(store), op.id).None?)
              && (op.PinRevision? ==> PinAt(EntriesOf(store), op.id).NoPin? || PinAt(EntriesOf(store), op.id) == Pinned(op.ref))
  {
    hide IdPattern;
    LoadsIff(store);
    var entries := EntriesOf(store);
    if Call(store, op).Ok? && !op.Initialize? {
      hide WellFormed, Load, Registered, PinnedOn, IdentityAt, PinAt, DefaultAt;
      PerformEvolves(entries, op);
    }
  }

  lemma PerformEvolves(entries: seq<Entry>, op: Op)
    requires WellFormed(entries) && (op.Register? ==> IdPattern(op.id)) && Perform(entries, op).Ok?
    ensures WellFormed(Perform(entries, op).value) && Evolves(entries, Perform(entries, op).value, op)
    ensures op.Register? ==> IdentityAt(entries, op.id).None?
    ensures op.PinRevision? ==> PinAt(entries, op.id).NoPin? || PinAt(entries, op.id) == Pinned(op.ref)
  {
    hide IdPattern, WellFormed, Registered, PinnedOn, IdentityAt, PinAt, DefaultAt;
    match op
    case Register(b, id) => RegisterEffect(entries, b, id);
    case PinRevision(id, ref) => PinEffect(entries, id, ref);
    case SetDefault(id) =>
      FoundIsInEnv(entries, id);
      DefaultEffect(entries, IdentityAt(entries, id).value.environment, Some(id));
    case ClearDefault(env) => DefaultEffect(entries, EnvName(env), None);
  }

  lemma FoundIsInEnv(entries: seq<Entry>, id: string)
    requires IdentityAt(entries, id).Some?
    ensures Find(entries, id) < |entries|
            && InEnv(entries[Find(entries, id)], IdentityAt(entries, id).value.environment)
  {
  }

  /** Whatever was called and wherever it was cut, the next load accepts the store, or there is none yet. */
  lemma {:induction false} EveryStoreLoads(events: seq<Event>)
    ensures Acceptable(History(events))
    ensures History(events).Absent? || Load(History(events)) == Ok(EntriesOf(History(events)))
  {
    if events != [] {
      var init := events[..|events| - 1];
      EveryStoreLoads(init);
      hide WellFormed, Call, Load;
      CallEvolves(History(init), events[|events| - 1].op);
    }
    LoadsIff(History(events));
  }

  /** The last successful SetDefault or ClearDefault that concerned an environment, read off the calls alone. */
  function LastDefault(events: seq<Event>, env: string): Option<string> {
    if events == [] then None else
    var last := |events| - 1;
    var op := events[last].op;
    if !Succeeded(events, last) then LastDefault(events[..last], env)
    else if op.SetDefault? && InEnvironment(events[..last], op.id, env) then Some(op.id)
    else if op.ClearDefault? && EnvName(op.env) == env then None
    else LastDefault(events[..last], env)
  }

  /** The id was registered, by a call that succeeded, for this environment. */
  predicate InEnvironment(events: seq<Event>, id: string, env: string) {
    exists i :: 0 <= i < |events| && Succeeded(events, i) && events[i].op.Register? && events[i].op.id == id
                && EnvName(events[i].op.binding.environment) == env
  }

  lemma SucceededEarlier(events: seq<Event>, i: nat)
    requires i < |events| - 1
    ensures Succeeded(events, i) <==> Succeeded(events[..|events| - 1], i)
  {
    assert events[..|events| - 1][..i] == events[..i];
  }

  /** An id has an identity exactly when a successful registration gave it that one. */
  lemma {:induction false} IdentitiesAreRegistrations(events: seq<Event>, id: string, x: Identity)
    ensures IdentityAt(EntriesOf(History(events)), id) == Some(x)
            <==> exists i :: 0 <= i < |events| && Succeeded(events, i) && events[i].op.Register? && events[i].op.id == id
                             && IdentityOf(events[i].op.binding) == x
  {
    if events == [] {
      assert EntriesOf(History(events)) == [];
    } else {
      var last := |events| - 1;
      var init := events[..last];
      IdentitiesAreRegistrations(init, id, x);
      EveryStoreLoads(init);
      hide IdentityAt, PinAt, DefaultAt, Call, WellFormed, Load;
      CallEvolves(History(init), events[last].op);
      assert forall i | 0 <= i < last :: init[i] == events[i];
      forall i | 0 <= i < last ensures Succeeded(events, i) <==> Succeeded(init, i) {
        SucceededEarlier(events, i);
      }
      assert !Succeeded(events, last) ==> History(events) == History(init);
      hide History, Succeeded, Evolves;
    }
  }

  /** No identity is ever registered under two ids, nor an id for two identities. */
  lemma RegistrationsAreInjective(events: seq<Event>, i: nat, j: nat)
    requires i < |events| && j < |events| && Succeeded(events, i) && Succeeded(events, j)
    requires events[i].op.Register? && events[j].op.Register?
    ensures events[i].op.id == events[j].op.id <==> IdentityOf(events[i].op.binding) == IdentityOf(events[j].op.binding)
  {
    var a, b := events[i].op, events[j].op;
    IdentitiesAreRegistrations(events, a.id, IdentityOf(a.binding));
    IdentitiesAreRegistrations(events, b.id, IdentityOf(b.binding));
    EveryStoreLoads(events);
    hide History, Succeeded, Load;
    var entries := EntriesOf(History(events));
    var m, n := Find(entries, a.id), Find(entries, b.id);
    assert entries[m].identity == Some(IdentityOf(a.binding)) && entries[n].identity == Some(IdentityOf(b.binding));
  }

  /** A binding is pinned to a revision exactly when a successful call pinned it to that one. */
  lemma {:induction false} PinsAreCalls(events: seq<Event>, id: string, ref: Ref)
    ensures PinAt(EntriesOf(History(events)), id) == Pinned(ref)
            <==> exists i :: 0 <= i < |events| && Succeeded(events, i) && events[i].op == PinRevision(id, ref)
  {
    if events == [] {
      assert EntriesOf(History(events)) == [];
    } else {
      var last := |events| - 1;
      var init := events[..last];
      PinsAreCalls(init, id, ref);
      EveryStoreLoads(init);
      hide IdentityAt, PinAt, DefaultAt, Call, WellFormed, Load;
      CallEvolves(History(init), events[last].op);
      assert forall i | 0 <= i < last :: init[i] == events[i];
      forall i | 0 <= i < last ensures Succeeded(events, i) <==> Succeeded(init, i) {
        SucceededEarlier(events, i);
      }
      assert !Succeeded(events, last) ==> History(events) == History(init);
      hide History, Succeeded, Evolves;
    }
  }

  /** The default of an environment is b exactly when the last successful call that set or cleared it set b. */
  lemma {:induction false} DefaultIsTheLastSet(events: seq<Event>, env: string)
    ensures DefaultAt(EntriesOf(History(events)), env) == LastDefault(events, env)
  {
    if events == [] {
      assert EntriesOf(History(events)) == [];
    } else {
      var last := |events| - 1;
      var init, op := events[..last], events[last].op;
      DefaultIsTheLastSet(init, env);
      EveryStoreLoads(init);
      hide IdentityAt, PinAt, DefaultAt, Call, WellFormed, Load;
      CallEvolves(History(init), op);
      assert !Succeeded(events, last) ==> History(events) == History(init);
      if op.SetDefault? { KnownEnvironment(init, op.id, env); }
      hide History, InEnvironment;
    }
  }

  lemma KnownEnvironment(events: seq<Event>, id: string, env: string)
    ensures InEnvironment(events, id, env)
            <==> IdentityAt(EntriesOf(History(events)), id).Some?
                 && IdentityAt(EntriesOf(History(events)), id).value.environment == env
  {
    hide History, Succeeded, IdentityAt;
    if InEnvironment(events, id, env) {
      var i :| 0 <= i < |events| && Succeeded(events, i) && events[i].op.Register? && events[i].op.id == id
               && EnvName(events[i].op.binding.environment) == env;
      IdentitiesAreRegistrations(events, id, IdentityOf(events[i].op.binding));
    }
    if IdentityAt(EntriesOf(History(events)), id).Some? {
      IdentitiesAreRegistrations(events, id, IdentityAt(EntriesOf(History(events)), id).value);
    }
  }

  /** Entries are only ever appended; of the old ones only the flag and an absent pin can change. */
  predicate Extends(x: seq<Entry>, y: seq<Entry>) {
    && |x| <= |y|
    && forall i | 0 <= i < |x| ::
         y[i].bindingId == x[i].bindingId && y[i].identity == x[i].identity && (x[i].pin.NoPin? || y[i].pin == x[i].pin)
  }

  lemma AfterExtends(store: Store, e: Event)
    ensures Extends(EntriesOf(store), EntriesOf(After(store, e)))
  {
    hide IdPattern, DoubleDefault, FirstFault, Clash;
  }

  lemma {:induction false} EntriesAreAppendOnly(events: seq<Event>, n: nat)
    requires n <= |events|
    ensures Extends(EntriesOf(History(events[..n])), EntriesOf(History(events)))
    decreases |events|
  {
    if n == |events| {
      assert events[..n] == events;
    } else {
      var init := events[..|events| - 1];
      assert init[..n] == events[..n];
      EntriesAreAppendOnly(init, n);
      hide After;
      AfterExtends(History(init), events[|events| - 1]);
    }
  }

  // ---- readers over time --------------------------------------------------------------------

  /** Resolving an id, with the namespace's manifest as a second witness. */
  function Resolved(entries: seq<Entry>, id: string, env: Environment, site: Site,
                    manifests: Manifests): Result<Binding, Code> {
    var identity := IdentityAt(entries, id);
    if identity.None? then Err(BindingIdUnknown)
    else if EnvOf(identity.value.environment).None? then Err(Corrupt)
    else if EnvOf(identity.value.environment) != Some(env) then Err(AdmissionDenied)
    else
      var x := identity.value;
      var b := Binding(x.personaId, x.agentId, x.runtimeId, x.namespace, env);
      match ResolveAt(b, site)
      case Err(e) => Err(Storage(e))
      case Ok(paths) =>
        if paths.manifest in manifests && manifests[paths.manifest] != Owner(b) then Err(ManifestDivergence) else Ok(b)
  }

  function PinnedRevision(entries: seq<Entry>, id: string, env: Environment): Result<Ref, Code> {
    var identity := IdentityAt(entries, id);
    if identity.None? then Err(BindingIdUnknown)
    else if identity.value.environment != EnvName(env) then Err(AdmissionDenied)
    else match PinAt(entries, id)
      case Pinned(ref) => Ok(ref)
      case _ => Err(ReplayUnavailable)
  }

  /** A registered binding resolves to itself at every later time, exactly where its storage resolves and its manifest is
      absent or its own. */
  lemma RegisteredResolvesIff(events: seq<Event>, i: nat, site: Site, manifests: Manifests)
    requires i < |events| && Succeeded(events, i) && events[i].op.Register?
    ensures var b := events[i].op.binding;
            var r := Resolved(EntriesOf(History(events)), events[i].op.id, b.environment, site, manifests);
            && (r.Ok? ==> r == Ok(b))
            && (r.Ok? <==> && ResolveAt(b, site).Ok?
                           && (ResolveAt(b, site).value.manifest in manifests ==> manifests[ResolveAt(b, site).value.manifest] == Owner(b)))
  {
    var b := events[i].op.binding;
    IdentitiesAreRegistrations(events, events[i].op.id, IdentityOf(b));
    hide *;
    KnownResolvesIff(EntriesOf(History(events)), events[i].op.id, b, site, manifests);
  }

  lemma KnownResolvesIff(entries: seq<Entry>, id: string, b: Binding, site: Site, manifests: Manifests)
    requires IdentityAt(entries, id) == Some(IdentityOf(b))
    ensures var r := Resolved(entries, id, b.environment, site, manifests);
            && (r.Ok? ==> r == Ok(b))
            && (r.Ok? <==> && ResolveAt(b, site).Ok?
                           && (ResolveAt(b, site).value.manifest in manifests ==> manifests[ResolveAt(b, site).value.manifest] == Owner(b)))
  {
    hide IdentityAt, ResolveAt;
  }

  /** Once a registered binding has also bound its storage, it resolves there whatever other calls and binds follow. */
  lemma BoundResolvesForever(events: seq<Event>, i: nat, site: Site, attempts: seq<Attempt>, j: nat)
    requires i < |events| && Succeeded(events, i) && events[i].op.Register?
    requires ResolveAt(events[i].op.binding, site).Ok?
    requires j < |attempts| && attempts[j].binding == events[i].op.binding
    requires Holds(map[], attempts, j, ResolveAt(events[i].op.binding, site).value.manifest)
    ensures Resolved(EntriesOf(History(events)), events[i].op.id, events[i].op.binding.environment, site, Run(map[], attempts))
            == Ok(events[i].op.binding)
  {
    HolderIsOwner(map[], attempts, j, ResolveAt(events[i].op.binding, site).value.manifest);
    hide History, Succeeded, Holds, Run, ResolveAt, Resolved;
    RegisteredResolvesIff(events, i, site, Run(map[], attempts));
  }

  lemma FindExtends(x: seq<Entry>, y: seq<Entry>, id: string)
    requires Extends(x, y) && Find(x, id) < |x|
    ensures Find(y, id) == Find(x, id)
  {
    FindIs(y, id, Find(x, id));
  }

  lemma RevisionStays(x: seq<Entry>, y: seq<Entry>, id: string, env: Environment)
    requires Extends(x, y) && PinnedRevision(x, id, env).Ok?
    ensures PinnedRevision(y, id, env) == PinnedRevision(x, id, env)
  {
    FindExtends(x, y, id);
  }

  /** From the moment a binding's pinned revision and its published artifact both resolve, every later read of the
      registry and of the repository gives the same persona, under every interleaving of publishers. */
  lemma PinnedPersonaIsStable(events: seq<Event>, n: nat, id: string, env: Environment,
                              load: P.Loader, authors: nat, run: seq<P.Action>, later: seq<P.Action>)
    requires n <= |events| && PinnedRevision(EntriesOf(History(events[..n])), id, env).Ok?
    requires P.Exec(load, P.Start(authors), run).Some?
    requires P.Exec(load, P.Exec(load, P.Start(authors), run).value, later).Some?
    requires P.ResolveIn(load, P.Exec(load, P.Start(authors), run).value, PinnedRevision(EntriesOf(History(events[..n])), id, env).value).Ok?
    ensures var ref := PinnedRevision(EntriesOf(History(events[..n])), id, env).value;
            var repo := P.Exec(load, P.Start(authors), run).value;
            && PinnedRevision(EntriesOf(History(events)), id, env) == Ok(ref)
            && P.ResolveIn(load, P.Exec(load, repo, later).value, ref) == P.ResolveIn(load, repo, ref)
  {
    EntriesAreAppendOnly(events, n);
    hide History, Extends, PinnedRevision;
    RevisionStays(EntriesOf(History(events[..n])), EntriesOf(History(events)), id, env);
    P.ResolutionIsStable(load, authors, run, later, PinnedRevision(EntriesOf(History(events[..n])), id, env).value);
  }
}
