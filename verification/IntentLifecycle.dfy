/** The append-only lifecycle of intents: which status may follow which, and how a replayed transition is recognised. */
module IntentLifecycle {
  import opened Wrappers

  datatype Status = Candidate | Deferred | Allowed | Blocked | Expired | Completed | Superseded

  datatype Verb = Defer | Deny | Allow | Supersede | Wake | Expire | Settle

  /** The idempotency key of a transition: what is done, and the version of the intent it was decided on. */
  datatype Stamp = Stamp(verb: Verb, version: nat)

  datatype Move = Move(id: int, stamp: Stamp, reasons: string)

  /** What no transition changes. */
  datatype Body = Body(kind: string, strength: real, due: Option<real>, expires: Option<real>, onDue: bool)

  /** The latest version of an intent, with the keys its history has used and the reasons recorded under them. */
  datatype Intent = Intent(body: Body, status: Status, version: nat, used: map<Stamp, string>)

  type Intents = map<int, Intent>

  /** An intent as the engine proposes it, or as the policy is asked about it. */
  datatype Proposal = Proposal(id: int, body: Body, status: Status, version: nat)

  datatype Refusal = NotInitial | Missing | Illegal | Conflict

  function Target(verb: Verb): Status {
    match verb
    case Defer => Deferred
    case Deny => Blocked
    case Allow => Allowed
    case Supersede => Superseded
    case Wake => Candidate
    case Expire => Expired
    case Settle => Completed
  }

  predicate Legal(from: Status, to: Status) {
    match from
    case Candidate => to.Allowed? || to.Deferred? || to.Blocked? || to.Expired? || to.Superseded?
    case Deferred => to.Candidate? || to.Expired? || to.Superseded?
    case Allowed => to.Completed? || to.Superseded?
    case _ => false
  }

  /** The statuses that keep a kind occupied. */
  predicate Active(status: Status) {
    status.Candidate? || status.Deferred? || status.Allowed?
  }

  predicate IsInitial(p: Proposal) {
    p.status.Candidate? && p.version == 1
  }

  function Admitted(p: Proposal): Intent {
    Intent(p.body, Candidate, 1, map[])
  }

  function Current(id: int, x: Intent): Proposal {
    Proposal(id, x.body, x.status, x.version)
  }

  /** A key used before repeats its recorded answer; a new key must be a legal step. */
  function Moved(x: Intent, m: Move): Result<Intent, Refusal> {
    if m.stamp in x.used then (if x.used[m.stamp] == m.reasons then Ok(x) else Err(Conflict))
    else if !Legal(x.status, Target(m.stamp.verb)) then Err(Illegal)
    else Ok(x.(status := Target(m.stamp.verb), version := x.version + 1, used := x.used[m.stamp := m.reasons]))
  }

  function Stored(intents: Intents, m: Move): Result<Intents, Refusal> {
    if m.id !in intents then Err(Missing) else
    match Moved(intents[m.id], m)
    case Ok(x) => Ok(intents[m.id := x])
    case Err(e) => Err(e)
  }

  function Enter(intents: Intents, p: Proposal): Result<Intents, Refusal> {
    if !IsInitial(p) then Err(NotInitial)
    else if p.id in intents then (if intents[p.id].body == p.body then Ok(intents) else Err(Conflict))
    else Ok(intents[p.id := Admitted(p)])
  }

  /** Keys are always cut from a version already passed. */
  predicate Valid(x: Intent) {
    && x.version >= 1
    && (forall s | s in x.used :: s.version < x.version)
    && (x.version == 1 ==> x.status.Candidate? && x.used == map[])
  }

  predicate AllValid(intents: Intents) {
    forall id | id in intents :: Valid(intents[id])
  }

  /** The ten legal steps. */
  lemma LegalIff(from: Status, to: Status)
    ensures Legal(from, to)
            <==> (from, to) in {
                   (Candidate, Allowed), (Candidate, Deferred), (Candidate, Blocked), (Candidate, Expired), (Candidate, Superseded),
                   (Deferred, Candidate), (Deferred, Expired), (Deferred, Superseded), (Allowed, Completed), (Allowed, Superseded)}
  {
  }

  /** What a transition does: under a new key it takes a legal step, one version further, and records the key with its
      reasons; under a used key it repeats the answer to the same reasons. Everything else is refused by its own name. */
  lemma StoredIff(intents: Intents, m: Move)
    ensures var r := Stored(intents, m);
            && (r == Err(Missing) <==> m.id !in intents)
            && (m.id in intents ==>
                  var x := intents[m.id];
                  && (r == Err(Conflict) <==> m.stamp in x.used && x.used[m.stamp] != m.reasons)
                  && (r == Err(Illegal) <==> m.stamp !in x.used && !Legal(x.status, Target(m.stamp.verb)))
                  && (m.stamp in x.used && x.used[m.stamp] == m.reasons ==> r == Ok(intents))
                  && (m.stamp !in x.used && Legal(x.status, Target(m.stamp.verb)) ==>
                        r == Ok(intents[m.id := Intent(x.body, Target(m.stamp.verb), x.version + 1, x.used[m.stamp := m.reasons])])))
  {
    if m.id in intents { assert intents[m.id := intents[m.id]] == intents; }
  }

  /** What an admission does: a first candidate version is stored, or found with the same body; nothing else enters. */
  lemma EnterIff(intents: Intents, p: Proposal)
    ensures var r := Enter(intents, p);
            && (r == Err(NotInitial) <==> p.status != Candidate || p.version != 1)
            && (r == Err(Conflict) <==> p.status == Candidate && p.version == 1 && p.id in intents && intents[p.id].body != p.body)
            && (p.status == Candidate && p.version == 1 && p.id in intents && intents[p.id].body == p.body ==> r == Ok(intents))
            && (p.status == Candidate && p.version == 1 && p.id !in intents ==>
                  r == Ok(intents[p.id := Intent(p.body, Candidate, 1, map[])]))
  {
  }

  /** Each verb has its own status, and the kinds that stay occupied are those still open. */
  lemma TargetsAre()
    ensures Target(Defer) == Deferred && Target(Deny) == Blocked && Target(Allow) == Allowed && Target(Supersede) == Superseded
            && Target(Wake) == Candidate && Target(Expire) == Expired && Target(Settle) == Completed
    ensures forall status :: Active(status) <==> exists to :: Legal(status, to)
  {
    assert Legal(Candidate, Allowed) && Legal(Deferred, Candidate) && Legal(Allowed, Completed);
  }

  /** No step, legal or replayed, reopens a kind that was given up, and every step keeps histories well formed. */
  lemma MovedKeeps(x: Intent, m: Move)
    requires Valid(x) && m.stamp.version <= x.version && Moved(x, m).Ok?
    ensures var y := Moved(x, m).value;
            && Valid(y) && y.body == x.body
            && (Active(y.status) ==> Active(x.status))
            && (y == x <==> m.stamp in x.used)
            && (y != x ==> y.version == x.version + 1 && y.status == Target(m.stamp.verb) && m.stamp in y.used)
  {
    var y := Moved(x, m).value;
    if m.stamp !in x.used {
      assert y.version != x.version;
      forall s | s in y.used ensures s.version < y.version {
        if s != m.stamp { assert s in x.used; }
      }
    }
  }

  /** Doing a move twice is doing it once. */
  lemma MovedTwice(x: Intent, m: Move)
    requires Moved(x, m).Ok?
    ensures Moved(Moved(x, m).value, m) == Moved(x, m)
  {
  }

  // ---- the scheduler -------------------------------------------------------------

  predicate Expires(x: Intent, now: real) {
    (x.status.Candidate? || x.status.Deferred?) && x.body.expires.Some? && x.body.expires.value <= now
  }

  predicate IsDue(x: Intent, now: real) {
    x.status.Deferred? && x.body.onDue && x.body.due.Some? && x.body.due.value <= now
  }

  function Scheduled(id: int, x: Intent, now: real): Result<Intent, Refusal> {
    if Expires(x, now) then Moved(x, Move(id, Stamp(Expire, x.version), "scheduler_expired"))
    else if IsDue(x, now) then Moved(x, Move(id, Stamp(Wake, x.version), "scheduler_due"))
    else Ok(x)
  }

  /** The scheduler's pass over the ids it reached before it finished or was interrupted. */
  function Schedule(intents: Intents, reached: set<int>, now: real): Intents {
    map id | id in intents ::
      if id in reached && Scheduled(id, intents[id], now).Ok? then Scheduled(id, intents[id], now).value else intents[id]
  }

  /** The scheduler is never refused, and it moves exactly what has expired or fallen due. */
  lemma SchedulerIsTotal(id: int, x: Intent, now: real)
    requires Valid(x)
    ensures Scheduled(id, x, now).Ok? && Valid(Scheduled(id, x, now).value)
    ensures Scheduled(id, x, now).value.status
            == if Expires(x, now) then Expired else if IsDue(x, now) then Candidate else x.status
    ensures Scheduled(id, x, now).value.version > x.version <==> Expires(x, now) || IsDue(x, now)
  {
    if Expires(x, now) { MovedKeeps(x, Move(id, Stamp(Expire, x.version), "scheduler_expired")); }
    else if IsDue(x, now) { MovedKeeps(x, Move(id, Stamp(Wake, x.version), "scheduler_due")); }
  }

  /** An open intent whose time is over expires; a deferred one that waits for its due time and has reached it is woken; both
      under a key of the version they had, and nothing else happens. */
  lemma ScheduledIff(id: int, x: Intent, now: real)
    requires Valid(x)
    ensures var y := Scheduled(id, x, now).value;
            var over := x.body.expires.Some? && x.body.expires.value <= now && x.status in {Candidate, Deferred};
            var due := x.body.due.Some? && x.body.due.value <= now && x.status == Deferred && x.body.onDue;
            && Scheduled(id, x, now).Ok?
            && (over ==> y == Intent(x.body, Expired, x.version + 1, x.used[Stamp(Expire, x.version) := "scheduler_expired"]))
            && (!over && due ==> y == Intent(x.body, Candidate, x.version + 1, x.used[Stamp(Wake, x.version) := "scheduler_due"]))
            && (!over && !due ==> y == x)
  {
    SchedulerIsTotal(id, x, now);
  }

  // ---- the service ---------------------------------------------------------------

  class IntentLifecycleService {
    var intents: Intents

    constructor ()
      ensures intents == map[]
    {
      intents := map[];
    }

    /** Version one, whether admitted now or found as admitted before. */
    method Admit(p: Proposal) returns (r: Result<Intent, Refusal>)
      modifies this
      ensures match Enter(old(intents), p)
              case Ok(after) => intents == after && p.id in after && r == Ok(Admitted(p))
              case Err(e) => intents == old(intents) && r == Err(e)
    {
      if !IsInitial(p) { return Err(NotInitial); }
      if p.id in intents {
        if intents[p.id].body != p.body { return Err(Conflict); }
      } else {
        intents := intents[p.id := Admitted(p)];
      }
      r := Ok(Admitted(p));
    }

    /** The status recorded under the key, whether it was recorded now or by an earlier call. */
    method Transition(m: Move) returns (r: Result<Status, Refusal>)
      modifies this
      ensures match Stored(old(intents), m)
              case Ok(after) => intents == after && m.id in after && r == Ok(Target(m.stamp.verb))
              case Err(e) => intents == old(intents) && r == Err(e)
    {
      if m.id !in intents { return Err(Missing); }
      var before := intents[m.id];
      var to := Target(m.stamp.verb);
      if m.stamp in before.used {
        if before.used[m.stamp] != m.reasons { return Err(Conflict); }
        assert intents == intents[m.id := before];
      } else if !Legal(before.status, to) {
        return Err(Illegal);
      } else {
        intents := intents[m.id := Intent(before.body, to, before.version + 1, before.used[m.stamp := m.reasons])];
      }
      r := Ok(to);
    }
  }
}
