/** Which failure each call of the registry reports, and when. */
module RegistryFailures {
  import opened Wrappers
  import opened StorageNamespace
  import opened RegistryStore
  import opened RegistryHistory

  /** Sound entries with ids and identities of their own. */
  predicate Fine(entries: seq<Entry>) {
    && (forall i | 0 <= i < |entries| :: Sound(entries[i]))
    && (forall i, j | 0 <= i < j < |entries| ::
          entries[i].bindingId != entries[j].bindingId && entries[i].identity != entries[j].identity)
  }

  predicate RepeatsId(entries: seq<Entry>, n: nat)
    requires n < |entries|
  {
    exists i :: 0 <= i < n && entries[i].bindingId == entries[n].bindingId
  }

  predicate RepeatsIdentity(entries: seq<Entry>, n: nat)
    requires n < |entries|
  {
    exists i :: 0 <= i < n && entries[i].identity == entries[n].identity
  }

  predicate TwoDefaults(entries: seq<Entry>) {
    exists i, j :: 0 <= i < j < |entries| && entries[i].isDefault && entries[j].isDefault
                   && (if entries[i].identity.Some? then entries[i].identity.value.environment else "")
                      == (if entries[j].identity.Some? then entries[j].identity.value.environment else "")
  }

  /** The first entry that is not fine decides a load. */
  lemma {:induction false} FirstFaultIs(entries: seq<Entry>, n: nat)
    requires n < |entries| && Fine(entries[..n]) && !Fine(entries[..n + 1])
    ensures FirstFault(entries) == Fault(entries[..n], entries[n]) && FirstFault(entries).Some?
    decreases |entries|
  {
    var init := entries[..|entries| - 1];
    if n == |entries| - 1 {
      NoFaultIff(init);
      assert entries[..n + 1] == entries;
      NoFaultIff(entries);
    } else {
      assert init[..n] == entries[..n] && init[..n + 1] == entries[..n + 1] && init[n] == entries[n];
      FirstFaultIs(init, n);
    }
  }

  /** A load without a store, with unreadable text, or with two defaults in one environment fails as such; after that the
      first entry that is not fine decides, by what is wrong with it first. */
  lemma LoadFails(store: Store)
    ensures Load(store) == Err(Uninitialized) <==> store.Absent?
    ensures store.Unparsable? ==> Load(store) == Err(Corrupt)
    ensures Load(store) == Err(MultipleDefaults) <==> store.Registry? && TwoDefaults(store.entries)
  {
    if store.Registry? && FirstFault(store.entries).Some? {
      FaultCodes(store.entries);
    }
  }

  lemma {:induction false} FaultCodes(entries: seq<Entry>)
    requires FirstFault(entries).Some?
    ensures FirstFault(entries).value in {Corrupt, DuplicateBindingId, DuplicateActiveIdentity}
  {
    if FirstFault(entries[..|entries| - 1]).Some? { FaultCodes(entries[..|entries| - 1]); }
  }

  lemma LoadFailsAt(entries: seq<Entry>, n: nat)
    requires !TwoDefaults(entries) && n < |entries| && Fine(entries[..n]) && !Fine(entries[..n + 1])
    ensures var e, r := entries[n], Load(Registry(entries));
            var valid := e.bindingId.Some? && IdPattern(e.bindingId.value);
            && (r == Err(DuplicateBindingId) <==> valid && RepeatsId(entries, n))
            && (r == Err(DuplicateActiveIdentity) <==> Sound(e) && !RepeatsId(entries, n) && RepeatsIdentity(entries, n))
            && (r == Err(Corrupt) <==> !valid || (!Sound(e) && !RepeatsId(entries, n)))
  {
    FirstFaultIs(entries, n);
    assert !DoubleDefault(entries);
    assert forall i | 0 <= i < n :: entries[..n][i] == entries[i];
    hide IdPattern, FirstFault, DoubleDefault, TwoDefaults;
    assert entries[..n + 1][n] == entries[n];
    assert entries[..n + 1][..n] == entries[..n];
    NotFineBecause(entries, n);
  }

  lemma OneMoreFine(entries: seq<Entry>, n: nat)
    requires n < |entries| && Fine(entries[..n]) && Sound(entries[n]) && !RepeatsId(entries, n) && !RepeatsIdentity(entries, n)
    ensures Fine(entries[..n + 1])
  {
    hide Sound;
    var all := entries[..n + 1];
    assert forall i | 0 <= i < n :: all[i] == entries[..n][i] == entries[i];
    assert all[n] == entries[n];
    forall i | 0 <= i < |all| ensures Sound(all[i]) { if i < n { assert Sound(entries[..n][i]); } }
  }

  lemma NotFineBecause(entries: seq<Entry>, n: nat)
    requires n < |entries| && Fine(entries[..n]) && !Fine(entries[..n + 1])
    ensures !Sound(entries[n]) || RepeatsId(entries, n) || RepeatsIdentity(entries, n)
  {
    hide *;
    if Sound(entries[n]) && !RepeatsId(entries, n) && !RepeatsIdentity(entries, n) { OneMoreFine(entries, n); }
  }

  /** A registration reports the first entry in its way: one that has its id, or one that has its identity. */
  lemma {:induction false} ClashIs(entries: seq<Entry>, identity: Identity, id: string, n: nat)
    requires n < |entries| && forall i | 0 <= i < n :: entries[i].bindingId != Some(id) && entries[i].identity != Some(identity)
    requires entries[n].bindingId == Some(id) || entries[n].identity == Some(identity)
    ensures Clash(entries, identity, id)
            == Some(if entries[n].bindingId == Some(id) then DuplicateBindingId else DuplicateActiveIdentity)
    decreases |entries|
  {
    var init := entries[..|entries| - 1];
    assert forall i | 0 <= i < |init| :: init[i] == entries[i];
    if n < |entries| - 1 { ClashIs(init, identity, id, n); }
  }

  /** What a writer reports on a store that loads. */
  lemma CallFails(store: Store, op: Op)
    requires Load(store).Ok?
    ensures var entries, r := Load(store).value, Call(store, op);
            match op
            case Initialize => r == Err(AlreadyInitialized)
            case Register(b, id) =>
              && (r == Err(Corrupt) <==> !IdPattern(id))
              && (forall n | 0 <= n < |entries| && IdPattern(id)
                             && (forall i | 0 <= i < n :: entries[i].bindingId != Some(id) && entries[i].identity != Some(IdentityOf(b))) ::
                    && (entries[n].bindingId == Some(id) ==> r == Err(DuplicateBindingId))
                    && (entries[n].bindingId != Some(id) && entries[n].identity == Some(IdentityOf(b)) ==> r == Err(DuplicateActiveIdentity)))
            case PinRevision(id, ref) =>
              && (r == Err(BindingIdUnknown) <==> IdentityAt(entries, id).None?)
              && (r == Err(AdmissionDenied) <==> IdentityAt(entries, id).Some? && IdentityAt(entries, id).value.personaId != ref.personaId)
              && (r == Err(RevisionConflict)
                  <==> && IdentityAt(entries, id).Some? && IdentityAt(entries, id).value.personaId == ref.personaId
                       && PinAt(entries, id) != NoPin && PinAt(entries, id) != Pinned(ref))
            case SetDefault(id) => r == Err(BindingIdUnknown) <==> IdentityAt(entries, id).None?
            case ClearDefault(env) => r.Ok?
  {
    LoadsIff(store);
    var entries := Load(store).value;
    hide IdPattern, Load, WellFormed;
    match op
    case Register(b, id) =>
      forall n | 0 <= n < |entries| && (entries[n].bindingId == Some(id) || entries[n].identity == Some(IdentityOf(b)))
                 && (forall i | 0 <= i < n :: entries[i].bindingId != Some(id) && entries[i].identity != Some(IdentityOf(b)))
        ensures Clash(entries, IdentityOf(b), id)
                == Some(if entries[n].bindingId == Some(id) then DuplicateBindingId else DuplicateActiveIdentity)
      {
        ClashIs(entries, IdentityOf(b), id, n);
      }
    case PinRevision(id, ref) => KnownIsSound(store, entries, id);
    case SetDefault(id) => KnownIsSound(store, entries, id);
    case _ =>
  }

  lemma KnownIsSound(store: Store, entries: seq<Entry>, id: string)
    requires WellFormed(entries)
    ensures IdentityAt(entries, id).Some? <==> Find(entries, id) < |entries|
    ensures Find(entries, id) < |entries| ==> !entries[Find(entries, id)].pin.BadPin?
  {
    hide IdPattern;
    if Find(entries, id) < |entries| { assert Sound(entries[Find(entries, id)]); }
  }

  /** On a store that does not load, every call but an initialization reports the load's failure, a registration after its
      own id check. */
  lemma UnloadableFails(store: Store, op: Op)
    requires Load(store).Err?
    ensures Call(store, op)
            == (if op.Initialize? then (if store.Absent? then Ok(Registry([])) else Err(AlreadyInitialized))
                else if op.Register? && !IdPattern(op.id) then Err(Corrupt)
                else Err(Load(store).error))
  {
  }

  /** Why an id does not resolve. */
  lemma ResolveFails(entries: seq<Entry>, id: string, env: Environment, site: Site, manifests: Manifests)
    ensures var x, r := IdentityAt(entries, id), Resolved(entries, id, env, site, manifests);
            && (r == Err(BindingIdUnknown) <==> x.None?)
            && (r == Err(Corrupt) <==> x.Some? && x.value.environment != "production" && x.value.environment != "lab")
            && (r == Err(AdmissionDenied)
                <==> x.Some? && x.value.environment in {"production", "lab"} && x.value.environment != EnvName(env))
            && (x.Some? && x.value.environment == EnvName(env) ==>
                  var b := Binding(x.value.personaId, x.value.agentId, x.value.runtimeId, x.value.namespace, env);
                  && (forall e :: r == Err(Storage(e)) <==> ResolveAt(b, site) == Err(e))
                  && (r == Err(ManifestDivergence)
                      <==> && ResolveAt(b, site).Ok? && ResolveAt(b, site).value.manifest in manifests
                           && manifests[ResolveAt(b, site).value.manifest] != Owner(b)))
  {
    hide ResolveAt;
  }

  /** And why a binding has no pinned revision. */
  lemma RevisionFails(entries: seq<Entry>, id: string, env: Environment)
    ensures var x, r := IdentityAt(entries, id), PinnedRevision(entries, id, env);
            && (r == Err(BindingIdUnknown) <==> x.None?)
            && (r == Err(AdmissionDenied) <==> x.Some? && x.value.environment != EnvName(env))
            && (r == Err(ReplayUnavailable) <==> x.Some? && x.value.environment == EnvName(env) && !PinAt(entries, id).Pinned?)
            && (forall ref :: r == Ok(ref) <==> x.Some? && x.value.environment == EnvName(env) && PinAt(entries, id) == Pinned(ref))
  {
  }
}
