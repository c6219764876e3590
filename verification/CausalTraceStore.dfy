/** The binding-scoped trace cache: an insertion-ordered dictionary that drops its oldest entries to stay below a bound. */
module CausalTraceStores {
  import opened Wrappers

  datatype Key = Key(scope: string, interaction: string)

  type Trace = map<string, string>

  datatype Entry = Entry(key: Key, trace: Trace)

  /** A dictionary in insertion order. */
  predicate Distinct(entries: seq<Entry>) {
    forall i, j | 0 <= i < j < |entries| :: entries[i].key != entries[j].key
  }

  /** The place of a key, or the length of the dictionary. */
  function Place(entries: seq<Entry>, key: Key): (n: nat)
    ensures n <= |entries|
    ensures forall i | 0 <= i < n :: entries[i].key != key
    ensures n < |entries| ==> entries[n].key == key
  {
    if entries == [] then 0
    else if entries[0].key == key then 0
    else 1 + Place(entries[1..], key)
  }

  lemma PlaceIs(entries: seq<Entry>, key: Key, n: nat)
    requires n <= |entries| && (forall i | 0 <= i < n :: entries[i].key != key) && (n < |entries| ==> entries[n].key == key)
    ensures Place(entries, key) == n
  {
  }

  function Lookup(entries: seq<Entry>, key: Key): Option<Trace> {
    var n := Place(entries, key);
    if n < |entries| then Some(entries[n].trace) else None
  }

  /** Assignment keeps the place of a key that is there. */
  function Assigned(entries: seq<Entry>, key: Key, trace: Trace): seq<Entry> {
    var n := Place(entries, key);
    if n < |entries| then entries[n := Entry(key, trace)] else entries + [Entry(key, trace)]
  }

  /** What is left once there is room for one more, whether or not one more is coming. */
  function Evicted(entries: seq<Entry>, capacity: nat): seq<Entry>
    requires capacity > 0
  {
    if |entries| < capacity then entries else entries[|entries| - capacity + 1..]
  }

  class CausalTraceStore {
    const maxEntries: int
    var entries: seq<Entry>

    constructor (maxEntries: int)
      ensures this.maxEntries == maxEntries && entries == []
    {
      this.maxEntries, entries := maxEntries, [];
    }

    method Get(key: Key) returns (r: Option<Trace>)
      ensures r == Lookup(entries, key)
    {
      var n := Place(entries, key);
      r := if n < |entries| then Some(entries[n].trace) else None;
    }

    /** With no room at all every entry is dropped and the call fails. */
    method Put(key: Key, trace: Trace) returns (ok: bool)
      modifies this`entries
      ensures ok <==> maxEntries > 0
      ensures entries == if ok then Assigned(Evicted(old(entries), maxEntries), key, trace) else []
    {
      ghost var before := entries;
      var dropped: nat := 0;
      while |entries| >= maxEntries
        invariant dropped <= |before| && entries == before[dropped..]
        invariant dropped > 0 && maxEntries > 0 ==> |entries| >= maxEntries - 1
      {
        if entries == [] { return false; }
        entries := entries[1..];
        dropped := dropped + 1;
      }
      var n := Place(entries, key);
      if n < |entries| {
        entries := entries[n := Entry(key, trace)];
      } else {
        entries := entries + [Entry(key, trace)];
      }
      ok := true;
    }

    method ReplaceField(key: Key, field: string, value: string) returns (ok: bool)
      modifies this`entries
      ensures ok <==> Lookup(old(entries), key).Some?
      ensures entries == Patched(old(entries), key, field, value)
    {
      var n := Place(entries, key);
      if n == |entries| { return false; }
      entries := entries[n := Entry(key, entries[n].trace[field := value])];
      ok := true;
    }

    method Clear()
      modifies this`entries
      ensures entries == []
    {
      entries := [];
    }
  }

  function Patched(entries: seq<Entry>, key: Key, field: string, value: string): seq<Entry> {
    var n := Place(entries, key);
    if n == |entries| then entries else entries[n := Entry(key, entries[n].trace[field := value])]
  }

  // ---- every history -------------------------------------------------------------------------

  datatype Event = Put(key: Key, trace: Trace) | Replace(key: Key, field: string, value: string) | Clear

  function After(entries: seq<Entry>, capacity: nat, e: Event): seq<Entry>
    requires capacity > 0
  {
    match e
    case Put(key, trace) => Assigned(Evicted(entries, capacity), key, trace)
    case Replace(key, field, value) => Patched(entries, key, field, value)
    case Clear => []
  }

  function Run(entries: seq<Entry>, capacity: nat, events: seq<Event>): seq<Entry>
    requires capacity > 0
  {
    if events == [] then entries
    else After(Run(entries, capacity, events[..|events| - 1]), capacity, events[|events| - 1])
  }

  /** The last thing written under a key, read off the calls alone. */
  function LastWritten(events: seq<Event>, key: Key): Option<Trace> {
    if events == [] then None else
    var before := LastWritten(events[..|events| - 1], key);
    match events[|events| - 1]
    case Put(k, trace) => if k == key then Some(trace) else before
    case Replace(k, field, value) => if k == key && before.Some? then Some(before.value[field := value]) else before
    case Clear => None
  }

  predicate Sane(entries: seq<Entry>, capacity: nat) {
    Distinct(entries) && |entries| <= capacity
  }

  /** Dropping entries from the front moves the others up, and loses exactly the dropped keys. */
  lemma DroppedPlace(entries: seq<Entry>, d: nat, key: Key)
    requires Distinct(entries) && d <= |entries|
    ensures Distinct(entries[d..])
    ensures Place(entries[d..], key) == if d <= Place(entries, key) then Place(entries, key) - d else |entries| - d
  {
    var rest, n := entries[d..], Place(entries, key);
    assert forall i | 0 <= i < |rest| :: rest[i] == entries[d + i];
    PlaceIs(rest, key, if d <= n then n - d else |rest|);
  }

  lemma EvictedLookup(entries: seq<Entry>, capacity: nat, key: Key)
    requires capacity > 0 && Distinct(entries)
    ensures Distinct(Evicted(entries, capacity)) && |Evicted(entries, capacity)| < capacity
    ensures Lookup(Evicted(entries, capacity), key).Some?
            ==> Lookup(Evicted(entries, capacity), key) == Lookup(entries, key)
  {
    hide Place, Distinct;
    assert entries[0..] == entries;
    DroppedPlace(entries, |entries| - |Evicted(entries, capacity)|, key);
  }

  lemma AssignedLookup(entries: seq<Entry>, key: Key, trace: Trace, other: Key)
    requires Distinct(entries)
    ensures Distinct(Assigned(entries, key, trace)) && |Assigned(entries, key, trace)| <= |entries| + 1
    ensures Lookup(Assigned(entries, key, trace), other) == if other == key then Some(trace) else Lookup(entries, other)
  {
    var after := Assigned(entries, key, trace);
    var n, m := Place(entries, key), Place(entries, other);
    if other == key {
      PlaceIs(after, key, n);
    } else if m < |entries| {
      PlaceIs(after, other, m);
    } else {
      PlaceIs(after, other, |after|);
    }
  }

  lemma PatchedLookup(entries: seq<Entry>, key: Key, field: string, value: string, other: Key)
    requires Distinct(entries)
    ensures Distinct(Patched(entries, key, field, value)) && |Patched(entries, key, field, value)| == |entries|
    ensures Lookup(Patched(entries, key, field, value), other)
            == if other == key && Lookup(entries, key).Some? then Some(Lookup(entries, key).value[field := value]) else Lookup(entries, other)
  {
    PlaceIs(Patched(entries, key, field, value), other, Place(entries, other));
  }

  /** Whatever is done, the cache never exceeds its bound, and a hit is the last thing written under that scope and id. */
  lemma {:induction false} HitsAreCurrent(capacity: nat, events: seq<Event>, key: Key)
    requires capacity > 0
    ensures var entries := Run([], capacity, events);
            Sane(entries, capacity) && (Lookup(entries, key).Some? ==> Lookup(entries, key) == LastWritten(events, key))
  {
    hide Place, Lookup, Assigned, Evicted, Patched;
    if events == [] {
      NothingThere(key);
    } else {
      var init, e := events[..|events| - 1], events[|events| - 1];
      var before := Run([], capacity, init);
      HitsAreCurrent(capacity, init, key);
      match e
      case Put(k, trace) =>
        EvictedLookup(before, capacity, key);
        AssignedLookup(Evicted(before, capacity), k, trace, key);
      case Replace(k, field, value) => PatchedLookup(before, k, field, value, key);
      case Clear => NothingThere(key);
    }
  }

  lemma NothingThere(key: Key)
    ensures Lookup([], key).None?
  {
  }

  // ---- how long an entry stays ------------------------------------------------------------------

  /** How many puts an entry is certain to outlast: those that fill the cache, and those that drop what is older. */
  function Slack(entries: seq<Entry>, capacity: nat, key: Key): int {
    if Place(entries, key) == |entries| then -1 else Place(entries, key) + capacity - |entries|
  }

  lemma AssignedPlace(entries: seq<Entry>, key: Key, trace: Trace, other: Key)
    requires Place(entries, other) < |entries|
    ensures Place(Assigned(entries, key, trace), other) == Place(entries, other)
  {
    PlaceIs(Assigned(entries, key, trace), other, Place(entries, other));
  }

  lemma PutUsesOneSlack(entries: seq<Entry>, capacity: nat, key: Key, e: Event)
    requires capacity > 0 && Sane(entries, capacity) && e.Put? && Slack(entries, capacity, key) >= 1
    ensures Sane(After(entries, capacity, e), capacity)
    ensures Slack(After(entries, capacity, e), capacity, key) >= Slack(entries, capacity, key) - 1
  {
    hide Place, Distinct;
    var rest := Evicted(entries, capacity);
    EvictedLookup(entries, capacity, key);
    AssignedLookup(rest, e.key, e.trace, key);
    assert entries[0..] == entries;
    DroppedPlace(entries, |entries| - |rest|, key);
    AssignedPlace(rest, e.key, e.trace, key);
  }

  /** A key that was not cached when it was put stays cached through the next capacity - 1 puts, of whatever keys. */
  lemma {:induction false} FreshEntryOutlasts(entries: seq<Entry>, capacity: nat, key: Key, trace: Trace,
                                              puts: seq<Event>)
    requires capacity > 0 && Sane(entries, capacity) && Lookup(entries, key).None?
    requires |puts| < capacity && forall i | 0 <= i < |puts| :: puts[i].Put?
    ensures var after := Run(After(entries, capacity, Put(key, trace)), capacity, puts);
            Sane(after, capacity) && Slack(after, capacity, key) >= capacity - 1 - |puts| && Lookup(after, key).Some?
    decreases |puts|
  {
    if puts == [] {
      EvictedLookup(entries, capacity, key);
      AssignedLookup(Evicted(entries, capacity), key, trace, key);
      PlaceIs(After(entries, capacity, Put(key, trace)), key, |Evicted(entries, capacity)|);
    } else {
      var init := puts[..|puts| - 1];
      FreshEntryOutlasts(entries, capacity, key, trace, init);
      PutUsesOneSlack(Run(After(entries, capacity, Put(key, trace)), capacity, init), capacity, key, puts[|puts| - 1]);
      hide After, Place;
    }
  }
}
