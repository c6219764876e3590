/** One canonical turn at a time in each storage namespace: the process-wide authorities, their leases, and every
    interleaving of the threads that take and release them. */
module RuntimeAdmission {
  import opened Wrappers

  // ---- the objects, used by one thread ---------------------------------------------------

  class NamespaceAdmissionAuthority {
    const key: string
    var locked: bool
    var holder: Option<string>

    constructor (key: string)
      ensures this.key == key && !locked && holder.None?
    {
      this.key, locked, holder := key, false, None;
    }

    /** Nothing is granted while a lease is out; otherwise a new one is. */
    method TryAcquire(context: string) returns (lease: Option<AdmissionLease>)
      modifies this
      ensures lease.None? <==> old(locked)
      ensures old(locked) ==> locked && holder == old(holder)
      ensures !old(locked) ==> locked && holder == Some(context)
      ensures lease.Some? ==> fresh(lease.value) && lease.value.authority == this && !lease.value.released
    {
      if locked { return None; }
      locked := true;
      holder := Some(context);
      var granted := new AdmissionLease(this);
      lease := Some(granted);
    }
  }

  class AdmissionLease {
    const authority: NamespaceAdmissionAuthority
    var released: bool

    constructor (authority: NamespaceAdmissionAuthority)
      ensures this.authority == authority && !released
    {
      this.authority, released := authority, false;
    }

    /** The first release frees the namespace; a repeated one changes nothing, whoever holds it by then. */
    method Release()
      modifies this, authority
      ensures released
      ensures if old(released) then authority.locked == old(authority.locked) && authority.holder == old(authority.holder)
              else !authority.locked && authority.holder.None?
    {
      if released { return; }
      released := true;
      authority.holder := None;
      authority.locked := false;
    }
  }

  class Authorities {
    var registry: map<string, NamespaceAdmissionAuthority>

    constructor ()
      ensures registry == map[]
    {
      registry := map[];
    }

    /** Every stack over one resolved path gets the same authority. */
    method ForStateDb(key: string) returns (authority: NamespaceAdmissionAuthority)
      modifies this
      ensures registry == old(registry)[key := authority]
      ensures if key in old(registry) then authority == old(registry)[key] else fresh(authority) && authority.key == key
    {
      if key in registry {
        assert registry == registry[key := registry[key]];
        return registry[key];
      }
      authority := new NamespaceAdmissionAuthority(key);
      registry := registry[key := authority];
    }
  }

  // ---- many threads -------------------------------------------------------------------------

  datatype Lease = Lease(namespace: string, released: bool)

  /** Where a thread stands in an acquisition or a release. Looking at the released flag, setting it and freeing the
      lock are separate steps. */
  datatype Phase = Resting | Granted(namespace: string) | Seen(lease: nat) | Marked(lease: nat)

  datatype Step = Acquire(namespace: string) | Deliver | Look(lease: nat) | Mark | Free

  datatype Action = Action(thread: nat, step: Step)

  datatype Sys = Sys(locked: set<string>, leases: seq<Lease>, phases: seq<Phase>)

  function Start(threads: nat): Sys {
    Sys({}, [], seq(threads, i => Resting))
  }

  function GoTo(s: Sys, t: nat, phase: Phase): Sys
    requires t < |s.phases|
  {
    s.(phases := s.phases[t := phase])
  }

  function Next(s: Sys, a: Action): Option<Sys> {
    var t := a.thread;
    if t >= |s.phases| then None else
    var ph := s.phases[t];
    match a.step
    case Acquire(n) =>
      if ph.Resting? && n !in s.locked then Some(GoTo(s.(locked := s.locked + {n}), t, Granted(n))) else None
    case Deliver =>
      if ph.Granted? then Some(GoTo(s.(leases := s.leases + [Lease(ph.namespace, false)]), t, Resting)) else None
    case Look(l) =>
      if !ph.Resting? || l >= |s.leases| then None
      else Some(if s.leases[l].released then s else GoTo(s, t, Seen(l)))
    case Mark =>
      if ph.Seen? && ph.lease < |s.leases| then Some(GoTo(s.(leases := s.leases[ph.lease := s.leases[ph.lease].(released := true)]), t, Marked(ph.lease)))
      else None
    case Free =>
      if ph.Marked? && ph.lease < |s.leases| then Some(GoTo(s.(locked := s.locked - {s.leases[ph.lease].namespace}), t, Resting)) else None
  }

  function Exec(s: Sys, actions: seq<Action>): Option<Sys>
    decreases |actions|
  {
    if actions == [] then Some(s) else
    var before := Exec(s, actions[..|actions| - 1]);
    if before.None? then None else Next(before.value, actions[|actions| - 1])
  }

  /** No thread looks at a lease that another has seen unreleased and not marked yet. */
  predicate Careful(s: Sys, a: Action) {
    a.step.Look? ==> forall u | 0 <= u < |s.phases| :: s.phases[u] != Seen(a.step.lease)
  }

  ghost predicate CarefulRun(s: Sys, actions: seq<Action>) {
    forall i | 0 <= i < |actions| :: Exec(s, actions[..i]).Some? ==> Careful(Exec(s, actions[..i]).value, actions[i])
  }

  /** A thread that has just been granted a namespace or is about to free it, or a lease that is out. */
  datatype Owner = ByThread(t: nat) | ByLease(l: nat)

  predicate Owns(s: Sys, n: string, o: Owner) {
    match o
    case ByThread(t) =>
      t < |s.phases| && (s.phases[t] == Granted(n)
                         || (s.phases[t].Marked? && s.phases[t].lease < |s.leases| && s.leases[s.phases[t].lease].namespace == n))
    case ByLease(l) => l < |s.leases| && s.leases[l].namespace == n && !s.leases[l].released
  }

  ghost predicate SoleOwners(s: Sys) {
    && (forall n: string, x: Owner, y: Owner :: Owns(s, n, x) && Owns(s, n, y) ==> x == y)
    && (forall n: string, x: Owner :: Owns(s, n, x) ==> n in s.locked)
    && (forall n: string :: n in s.locked ==> exists x: Owner :: Owns(s, n, x))
  }

  predicate SeenIsOut(s: Sys) {
    && (forall t | 0 <= t < |s.phases| && s.phases[t].Seen? :: s.phases[t].lease < |s.leases| && !s.leases[s.phases[t].lease].released)
    && (forall t | 0 <= t < |s.phases| && s.phases[t].Marked? :: s.phases[t].lease < |s.leases|)
    && (forall t, u | 0 <= t < u < |s.phases| && s.phases[t].Seen? :: s.phases[t] != s.phases[u])
  }

  ghost predicate Orderly(s: Sys) {
    SoleOwners(s) && SeenIsOut(s)
  }

  lemma AcquireKeeps(s: Sys, t: nat, n: string)
    requires Orderly(s) && Next(s, Action(t, Acquire(n))).Some?
    ensures Orderly(Next(s, Action(t, Acquire(n))).value)
  {
    var s' := Next(s, Action(t, Acquire(n))).value;
    assert Owns(s', n, ByThread(t));
    forall m: string, x: Owner ensures Owns(s', m, x) <==> Owns(s, m, x) || (m == n && x == ByThread(t)) {}
  }

  lemma DeliverKeeps(s: Sys, t: nat)
    requires Orderly(s) && Next(s, Action(t, Deliver)).Some?
    ensures Orderly(Next(s, Action(t, Deliver)).value)
  {
    var s' := Next(s, Action(t, Deliver)).value;
    var n := s.phases[t].namespace;
    assert Owns(s, n, ByThread(t)) && Owns(s', n, ByLease(|s.leases|));
    forall m: string, x: Owner
      ensures Owns(s', m, x) <==> (Owns(s, m, x) && x != ByThread(t)) || (m == n && x == ByLease(|s.leases|))
    {
    }
  }

  lemma LookKeeps(s: Sys, t: nat, l: nat)
    requires Orderly(s) && Next(s, Action(t, Look(l))).Some? && Careful(s, Action(t, Look(l)))
    ensures Orderly(Next(s, Action(t, Look(l))).value)
  {
    var s' := Next(s, Action(t, Look(l))).value;
    forall m: string, x: Owner ensures Owns(s', m, x) <==> Owns(s, m, x) {}
  }

  lemma MarkKeeps(s: Sys, t: nat)
    requires Orderly(s) && Next(s, Action(t, Mark)).Some?
    ensures Orderly(Next(s, Action(t, Mark)).value)
  {
    var s' := Next(s, Action(t, Mark)).value;
    var l := s.phases[t].lease;
    var n := s.leases[l].namespace;
    assert Owns(s, n, ByLease(l)) && Owns(s', n, ByThread(t));
    forall m: string, x: Owner
      ensures Owns(s', m, x) <==> (Owns(s, m, x) && x != ByLease(l)) || (m == n && x == ByThread(t))
    {
    }
  }

  lemma FreeKeeps(s: Sys, t: nat)
    requires Orderly(s) && Next(s, Action(t, Free)).Some?
    ensures Orderly(Next(s, Action(t, Free)).value)
  {
    var s' := Next(s, Action(t, Free)).value;
    var n := s.leases[s.phases[t].lease].namespace;
    assert Owns(s, n, ByThread(t));
    forall m: string, x: Owner ensures Owns(s', m, x) <==> Owns(s, m, x) && x != ByThread(t) {}
  }

  lemma NextKeeps(s: Sys, a: Action)
    requires Orderly(s) && Next(s, a).Some? && Careful(s, a)
    ensures Orderly(Next(s, a).value)
  {
    hide Orderly, Next, Careful;
    match a.step
    case Acquire(n) => AcquireKeeps(s, a.thread, n);
    case Deliver => DeliverKeeps(s, a.thread);
    case Look(l) => LookKeeps(s, a.thread, l);
    case Mark => MarkKeeps(s, a.thread);
    case Free => FreeKeeps(s, a.thread);
  }

  lemma {:induction false} CarefulRunsAreOrderly(s: Sys, actions: seq<Action>)
    requires Orderly(s) && Exec(s, actions).Some? && CarefulRun(s, actions)
    ensures Orderly(Exec(s, actions).value)
  {
    if actions != [] {
      var last := |actions| - 1;
      var init := actions[..last];
      assert forall i | 0 <= i < last :: init[..i] == actions[..i] && init[i] == actions[i];
      CarefulRunsAreOrderly(s, init);
      hide Orderly, Next, Careful;
      NextKeeps(Exec(s, init).value, actions[last]);
    }
  }

  /** In every interleaving in which no two threads release the same lease at the same time, each namespace has at most
      one unreleased lease, and none while a thread is between its grant and its lease or between its mark and its free;
      the namespace is locked exactly while it has an owner. */
  lemma OneLeasePerNamespace(threads: nat, actions: seq<Action>, n: string, x: Owner, y: Owner)
    requires Exec(Start(threads), actions).Some? && CarefulRun(Start(threads), actions)
    ensures var s := Exec(Start(threads), actions).value;
            && (Owns(s, n, x) && Owns(s, n, y) ==> x == y)
            && (n in s.locked <==> exists o: Owner :: Owns(s, n, o))
  {
    CarefulRunsAreOrderly(Start(threads), actions);
    hide Owns, Exec;
  }

  // ---- two releases of one lease at once ---------------------------------------------------

  ghost predicate Reaches(threads: nat, actions: seq<Action>, s: Sys) {
    Exec(Start(threads), actions) == Some(s)
  }

  lemma Extend(threads: nat, actions: seq<Action>, s: Sys, t: nat, step: Step) returns (actions': seq<Action>, s': Sys)
    requires Reaches(threads, actions, s) && Next(s, Action(t, step)).Some?
    ensures Reaches(threads, actions', s') && Some(s') == Next(s, Action(t, step))
  {
    actions' := actions + [Action(t, step)];
    assert actions'[..|actions|] == actions;
    s' := Next(s, Action(t, step)).value;
  }

  lemma Grant(threads: nat, actions: seq<Action>, s: Sys, t: nat, n: string) returns (actions': seq<Action>, s': Sys)
    requires Reaches(threads, actions, s) && t < |s.phases| && s.phases[t].Resting? && n !in s.locked
    ensures Reaches(threads, actions', s')
    ensures s' == s.(locked := s.locked + {n}, leases := s.leases + [Lease(n, false)])
  {
    hide Exec;
    actions', s' := Extend(threads, actions, s, t, Acquire(n));
    actions', s' := Extend(threads, actions', s', t, Deliver);
    assert s'.phases == s.phases;
  }

  lemma Finish(threads: nat, actions: seq<Action>, s: Sys, t: nat) returns (actions': seq<Action>, s': Sys)
    requires Reaches(threads, actions, s) && t < |s.phases| && s.phases[t].Seen? && s.phases[t].lease < |s.leases|
    ensures Reaches(threads, actions', s')
    ensures var l := s.phases[t].lease;
            s' == Sys(s.locked - {s.leases[l].namespace}, s.leases[l := s.leases[l].(released := true)], s.phases[t := Resting])
  {
    hide Exec;
    actions', s' := Extend(threads, actions, s, t, Mark);
    actions', s' := Extend(threads, actions', s', t, Free);
    assert s'.phases == s.phases[t := Resting];
  }

  /** Where the authority does not serialize: two threads that both saw a lease unreleased both release it; the second
      frees the turn admitted in between, and a third turn is admitted beside it. */
  lemma DoubleReleaseAdmitsTwo(n: string) returns (actions: seq<Action>, s: Sys)
    ensures Reaches(2, actions, s) && !CarefulRun(Start(2), actions)
    ensures Owns(s, n, ByLease(1)) && Owns(s, n, ByLease(2))
  {
    assert Reaches(2, [], Start(2));
    hide Exec;
    actions, s := Grant(2, [], Start(2), 0, n);
    actions, s := Extend(2, actions, s, 0, Look(0));
    actions, s := Extend(2, actions, s, 1, Look(0));
    actions, s := Finish(2, actions, s, 0);
    actions, s := Grant(2, actions, s, 0, n);
    actions, s := Finish(2, actions, s, 1);
    actions, s := Grant(2, actions, s, 0, n);
    assert s.leases == [Lease(n, true), Lease(n, false), Lease(n, false)];
    if CarefulRun(Start(2), actions) { OneLeasePerNamespace(2, actions, n, ByLease(1), ByLease(2)); }
  }

  // ---- exactly which look is unsafe ----------------------------------------------------------

  ghost predicate TwoOwners(s: Sys) {
    exists n: string, x: Owner, y: Owner :: x != y && Owns(s, n, x) && Owns(s, n, y)
  }

  /** A continuation in which every later look is careful. */
  ghost predicate CarefullyReaches(s: Sys, rest: seq<Action>, s': Sys) {
    Exec(s, rest) == Some(s') && CarefulRun(s, rest)
  }

  lemma OrderlyHasOneOwner(s: Sys)
    requires Orderly(s)
    ensures !TwoOwners(s)
  {
    hide Owns;
  }

  lemma CarefulStep(s: Sys, rest: seq<Action>, m: Sys, a: Action) returns (rest': seq<Action>, s': Sys)
    requires CarefullyReaches(s, rest, m) && Next(m, a).Some? && !a.step.Look?
    ensures CarefullyReaches(s, rest', s') && Some(s') == Next(m, a)
  {
    assert Careful(m, a);
    hide Next, Careful;
    rest', s' := rest + [a], Next(m, a).value;
    assert rest'[..|rest|] == rest;
    assert Exec(s, rest') == Some(s');
    hide Exec;
    forall i | 0 <= i < |rest'| && Exec(s, rest'[..i]).Some? ensures Careful(Exec(s, rest'[..i]).value, rest'[i]) {
      if i < |rest| { assert rest'[..i] == rest[..i]; }
    }
  }

  /** Both threads have seen the lease: one releases it and takes the namespace again, and the other marks it too. */
  lemma SeenTwiceOwnsTwice(s: Sys, t: nat, u: nat, l: nat) returns (rest: seq<Action>, s': Sys)
    requires t < |s.phases| && u < |s.phases| && t != u && s.phases[t] == Seen(l) && s.phases[u] == Seen(l)
             && l < |s.leases|
    ensures CarefullyReaches(s, rest, s') && TwoOwners(s')
  {
    var n := s.leases[l].namespace;
    assert CarefullyReaches(s, [], s);
    hide CarefullyReaches;
    rest, s' := CarefulStep(s, [], s, Action(t, Mark));
    rest, s' := CarefulStep(s, rest, s', Action(t, Free));
    rest, s' := CarefulStep(s, rest, s', Action(t, Acquire(n)));
    rest, s' := CarefulStep(s, rest, s', Action(u, Mark));
    assert Owns(s', n, ByThread(t)) && Owns(s', n, ByThread(u));
  }

  /** From an orderly state, looking at an unreleased lease can lead to two owners of one namespace, though every later look
      be careful, exactly when another thread has seen that lease and not marked it yet. */
  lemma LookIsUnsafeIff(s: Sys, t: nat, l: nat)
    requires Orderly(s) && t < |s.phases| && s.phases[t].Resting? && l < |s.leases| && !s.leases[l].released
    ensures (exists rest: seq<Action>, s': Sys :: CarefullyReaches(Next(s, Action(t, Look(l))).value, rest, s') && TwoOwners(s'))
            <==> exists u :: 0 <= u < |s.phases| && s.phases[u] == Seen(l)
  {
    var looked := Next(s, Action(t, Look(l))).value;
    if u :| 0 <= u < |s.phases| && s.phases[u] == Seen(l) {
      var rest, s' := SeenTwiceOwnsTwice(looked, t, u, l);
    } else {
      LookKeeps(s, t, l);
      hide Orderly, TwoOwners, Next;
      forall rest: seq<Action>, s': Sys | CarefullyReaches(looked, rest, s') ensures !TwoOwners(s') {
        CarefulRunsAreOrderly(looked, rest);
        OrderlyHasOneOwner(s');
      }
    }
  }
}
