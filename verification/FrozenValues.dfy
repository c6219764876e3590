/** The immutable value algebra: freezing nested values into one canonical form per meaning. */
module FrozenValues {
  import opened Wrappers

  /** Lists and tuples are one shape, and so are sets and frozen sets; booleans count as numbers, as they compare. A
      mapping keeps its insertion order; a key that is no string reads as None. */
  datatype Value =
    | Null
    | Number(n: real)
    | Text(s: string)
    | Bytes(b: seq<bv8>)
    | Sequence(items: seq<Value>)
    | Collection(members: set<Value>)
    | Mapping(entries: seq<Entry>)
    | Foreign

  datatype Entry = Entry(key: Option<string>, value: Value)

  // ---- the order of keys ----------------------------------------------------------------

  predicate Before(a: string, b: string) {
    b != "" && (a == "" || a[0] < b[0] || (a[0] == b[0] && Before(a[1..], b[1..])))
  }

  lemma {:induction false} BeforeIsTransitive(a: string, b: string, c: string)
    requires Before(a, b) && Before(b, c)
    ensures Before(a, c)
  {
    if a != "" && a[0] == b[0] && b[0] == c[0] { BeforeIsTransitive(a[1..], b[1..], c[1..]); }
  }

  lemma {:induction false} BeforeIsTotal(a: string, b: string)
    ensures Before(a, b) || a == b || Before(b, a)
    ensures !(Before(a, b) && Before(b, a)) && !Before(a, a)
  {
    if a != "" && b != "" && a[0] == b[0] {
      BeforeIsTotal(a[1..], b[1..]);
      assert a == [a[0]] + a[1..] && b == [b[0]] + b[1..];
    }
    if a != "" { BeforeIsIrreflexive(a); }
  }

  lemma {:induction false} BeforeIsIrreflexive(a: string)
    ensures !Before(a, a)
  {
    if a != "" { BeforeIsIrreflexive(a[1..]); }
  }

  predicate Precedes(a: Entry, b: Entry) {
    a.key.Some? && b.key.Some? && Before(a.key.value, b.key.value)
  }

  predicate Ascending(s: seq<Entry>) {
    forall i, j | 0 <= i < j < |s| :: Precedes(s[i], s[j])
  }

  predicate Keyed(s: seq<Entry>) {
    && (forall i | 0 <= i < |s| :: s[i].key.Some?)
    && (forall i, j | 0 <= i < j < |s| :: s[i].key != s[j].key)
  }

  function Insert(s: seq<Entry>, e: Entry): seq<Entry> {
    if s == [] then [e]
    else if Precedes(e, s[0]) then [e] + s
    else [s[0]] + Insert(s[1..], e)
  }

  function Sort(s: seq<Entry>): seq<Entry> {
    if s == [] then [] else Insert(Sort(s[..|s| - 1]), s[|s| - 1])
  }

  lemma {:induction false} InsertMembers(s: seq<Entry>, e: Entry)
    ensures forall x :: x in Insert(s, e) <==> x == e || x in s
  {
    if s != [] && !Precedes(e, s[0]) {
      InsertMembers(s[1..], e);
      assert s == [s[0]] + s[1..];
    }
  }

  lemma {:induction false} InsertAscends(s: seq<Entry>, e: Entry)
    requires Ascending(s) && e.key.Some? && forall i | 0 <= i < |s| :: s[i].key.Some? && s[i].key != e.key
    ensures Ascending(Insert(s, e))
  {
    if s == [] {
    } else if Precedes(e, s[0]) {
      assert forall j | 0 < j < |s| :: Precedes(s[0], s[j]);
      forall j | 0 <= j < |s| ensures Precedes(e, s[j]) {
        if j > 0 { BeforeIsTransitive(e.key.value, s[0].key.value, s[j].key.value); }
      }
    } else {
      var tail := s[1..];
      InsertAscends(tail, e);
      InsertMembers(tail, e);
      BeforeIsTotal(e.key.value, s[0].key.value);
      var rest := Insert(tail, e);
      forall j | 0 <= j < |rest| ensures Precedes(s[0], rest[j]) {
        if rest[j] != e {
          assert rest[j] in tail;
          var k :| 0 <= k < |tail| && tail[k] == rest[j];
          assert s[k + 1] == tail[k];
        }
      }
    }
  }

  lemma {:induction false} SortMembers(s: seq<Entry>)
    ensures forall x :: x in Sort(s) <==> x in s
  {
    if s != [] {
      var init := s[..|s| - 1];
      SortMembers(init);
      InsertMembers(Sort(init), s[|s| - 1]);
      assert s == init + [s[|s| - 1]];
    }
  }

  lemma {:induction false} SortAscends(s: seq<Entry>)
    requires Keyed(s)
    ensures Ascending(Sort(s))
  {
    if s != [] {
      var last := |s| - 1;
      var init := s[..last];
      assert forall i | 0 <= i < last :: init[i] == s[i];
      SortAscends(init);
      SortMembers(init);
      forall i | 0 <= i < |Sort(init)| ensures Sort(init)[i].key.Some? && Sort(init)[i].key != s[last].key {
        assert Sort(init)[i] in init;
      }
      InsertAscends(Sort(init), s[last]);
    }
  }

  lemma NoMembers(t: seq<Entry>)
    ensures t != [] ==> exists x :: x in t
  {
    if t != [] { assert t[0] in t; }
  }

  /** Sorted entries are determined by their members. */
  lemma {:induction false} AscendingIsUnique(s: seq<Entry>, t: seq<Entry>)
    requires Ascending(s) && Ascending(t) && forall x :: x in s <==> x in t
    ensures s == t
  {
    if s == [] {
      NoMembers(t);
    } else {
      assert s[0] in t;
      FirstsAgree(s, t);
      TailMembers(s);
      TailMembers(t);
      AscendingIsUnique(s[1..], t[1..]);
      assert s == [s[0]] + s[1..] && t == [t[0]] + t[1..];
    }
  }

  lemma FirstsAgree(s: seq<Entry>, t: seq<Entry>)
    requires Ascending(s) && Ascending(t) && s != [] && t != [] && s[0] in t && t[0] in s
    ensures s[0] == t[0]
  {
    var i :| 0 <= i < |t| && t[i] == s[0];
    var j :| 0 <= j < |s| && s[j] == t[0];
    if i > 0 && j > 0 {
      assert Precedes(t[0], t[i]) && Precedes(s[0], s[j]);
      BeforeIsTotal(s[0].key.value, t[0].key.value);
    }
  }

  lemma TailMembers(s: seq<Entry>)
    requires Ascending(s) && s != []
    ensures forall x :: x in s[1..] <==> x in s && x != s[0]
  {
    assert s == [s[0]] + s[1..];
    forall i | 0 < i < |s| ensures s[i] != s[0] {
      assert Precedes(s[0], s[i]);
      BeforeIsIrreflexive(s[0].key.value);
    }
  }

  // ---- freezing ----------------------------------------------------------------------------

  /** Only leaves of the algebra, containers of such values, and string keys can be frozen. */
  predicate Freezable(v: Value) {
    match v
    case Sequence(items) => forall i | 0 <= i < |items| :: Freezable(items[i])
    case Collection(members) => forall m | m in members :: Freezable(m)
    case Mapping(entries) => forall i | 0 <= i < |entries| :: entries[i].key.Some? && Freezable(entries[i].value)
    case Foreign => false
    case _ => true
  }

  /** A value is a part of another: itself, or a part of something it contains. */
  ghost predicate PartOf(part: Value, v: Value)
    decreases v
  {
    part == v ||
    match v
    case Sequence(items) => exists i :: 0 <= i < |items| && PartOf(part, items[i])
    case Collection(members) => exists m :: m in members && PartOf(part, m)
    case Mapping(entries) => exists i :: 0 <= i < |entries| && PartOf(part, entries[i].value)
    case _ => false
  }

  /** What cannot stand anywhere in a frozen value: something foreign, or a mapping with a key that is no string. */
  predicate Offends(v: Value) {
    v.Foreign? || (v.Mapping? && exists i :: 0 <= i < |v.entries| && v.entries[i].key.None?)
  }

  /** A value is refused exactly when some part of it, at any depth, offends. */
  lemma {:induction false} RefusedIff(v: Value)
    ensures Freeze(v).None? <==> exists part :: PartOf(part, v) && Offends(part)
    decreases v
  {
    if v.Sequence? {
      forall i | 0 <= i < |v.items| ensures Freeze(v.items[i]).None? <==> exists part :: PartOf(part, v.items[i]) && Offends(part) {
        RefusedIff(v.items[i]);
      }
    } else if v.Collection? {
      forall m | m in v.members ensures Freeze(m).None? <==> exists part :: PartOf(part, m) && Offends(part) { RefusedIff(m); }
    } else if v.Mapping? {
      forall i | 0 <= i < |v.entries|
        ensures Freeze(v.entries[i].value).None? <==> exists part :: PartOf(part, v.entries[i].value) && Offends(part)
      {
        RefusedIff(v.entries[i].value);
      }
    }
    if Offends(v) { assert PartOf(v, v); }
  }

  /** Every mapping, at any depth, has each key once. */
  predicate Proper(v: Value) {
    match v
    case Sequence(items) => forall i | 0 <= i < |items| :: Proper(items[i])
    case Collection(members) => forall m | m in members :: Proper(m)
    case Mapping(entries) =>
      && (forall i, j | 0 <= i < j < |entries| :: entries[i].key != entries[j].key)
      && forall i | 0 <= i < |entries| :: Proper(entries[i].value)
    case _ => true
  }

  function Frozen(v: Value): Value
    requires Freezable(v)
  {
    match v
    case Sequence(items) => Sequence(seq(|items|, i requires 0 <= i < |items| => Frozen(items[i])))
    case Collection(members) => Collection(set m | m in members :: Frozen(m))
    case Mapping(entries) =>
      Mapping(Sort(seq(|entries|, i requires 0 <= i < |entries| => Entry(entries[i].key, Frozen(entries[i].value)))))
    case _ => v
  }

  function FrozenEntries(entries: seq<Entry>): (s: seq<Entry>)
    requires forall i | 0 <= i < |entries| :: Freezable(entries[i].value)
    ensures |s| == |entries|
    ensures forall i | 0 <= i < |s| :: s[i] == Entry(entries[i].key, Frozen(entries[i].value))
  {
    seq(|entries|, i requires 0 <= i < |entries| => Entry(entries[i].key, Frozen(entries[i].value)))
  }

  lemma FrozenMapping(entries: seq<Entry>)
    requires Freezable(Mapping(entries))
    ensures Frozen(Mapping(entries)) == Mapping(Sort(FrozenEntries(entries)))
  {
    assert FrozenEntries(entries)
           == seq(|entries|, i requires 0 <= i < |entries| => Entry(entries[i].key, Frozen(entries[i].value)));
  }

  function Freeze(v: Value): Option<Value> {
    if Freezable(v) then Some(Frozen(v)) else None
  }

  /** The same meaning: containers by content, mappings whatever their insertion order. */
  predicate Same(a: Value, b: Value)
    decreases a, 1
  {
    match a
    case Sequence(x) => b.Sequence? && |x| == |b.items| && forall i | 0 <= i < |x| :: Same(x[i], b.items[i])
    case Collection(x) =>
      b.Collection? && (forall m | m in x :: HasSame(m, b.members)) && (forall n | n in b.members :: IsSame(a, n))
    case Mapping(x) =>
      b.Mapping? && (forall i | 0 <= i < |x| :: LeadsTo(x[i], b.entries)) && (forall j | 0 <= j < |b.entries| :: ComesFrom(a, b.entries[j]))
    case _ => a == b
  }

  predicate HasSame(m: Value, y: set<Value>)
    decreases m, 2
  {
    exists n :: n in y && Same(m, n)
  }

  predicate IsSame(a: Value, n: Value)
    requires a.Collection?
    decreases a, 0
  {
    exists m :: m in a.members && Same(m, n)
  }

  predicate LeadsTo(e: Entry, y: seq<Entry>)
    decreases e, 0
  {
    exists j :: 0 <= j < |y| && e.key == y[j].key && Same(e.value, y[j].value)
  }

  predicate ComesFrom(a: Value, f: Entry)
    requires a.Mapping?
    decreases a, 0
  {
    exists i :: 0 <= i < |a.entries| && a.entries[i].key == f.key && Same(a.entries[i].value, f.value)
  }

  // ---- one canonical form per meaning --------------------------------------------------------

  /** Two mappings have the same frozen form exactly when they have the same frozen entries. */
  lemma SameEntriesIff(x: seq<Entry>, y: seq<Entry>)
    requires Freezable(Mapping(x)) && Freezable(Mapping(y)) && Proper(Mapping(x)) && Proper(Mapping(y))
    ensures Frozen(Mapping(x)) == Frozen(Mapping(y)) <==> forall e :: e in FrozenEntries(x) <==> e in FrozenEntries(y)
  {
    FrozenMapping(x);
    FrozenMapping(y);
    var fx, fy := FrozenEntries(x), FrozenEntries(y);
    SortAscends(fx);
    SortAscends(fy);
    SortMembers(fx);
    SortMembers(fy);
    hide Frozen, FrozenEntries, Sort, Ascending;
    if forall e :: e in fx <==> e in fy {
      AscendingIsUnique(Sort(fx), Sort(fy));
    }
  }

  /** Freezing decides meaning: two values freeze to the same form exactly when they mean the same, in whatever order
      their mappings were built. */
  lemma {:induction false} FrozenFormIsCanonical(a: Value, b: Value)
    requires Freezable(a) && Freezable(b) && Proper(a) && Proper(b)
    ensures Same(a, b) <==> Frozen(a) == Frozen(b)
    decreases a
  {
    if a.Sequence? && b.Sequence? {
      CanonicalSequence(a, b);
    } else if a.Collection? && b.Collection? {
      CanonicalCollection(a, b);
    } else if a.Mapping? && b.Mapping? {
      CanonicalMapping(a, b);
    }
  }

  lemma {:induction false} CanonicalSequence(a: Value, b: Value)
    requires a.Sequence? && b.Sequence? && Freezable(a) && Freezable(b) && Proper(a) && Proper(b)
    ensures Same(a, b) <==> Frozen(a) == Frozen(b)
    decreases a, 0
  {
    var x, y := a.items, b.items;
    var fx, fy := Frozen(a).items, Frozen(b).items;
    if |x| == |y| {
      forall i | 0 <= i < |x| ensures Same(x[i], y[i]) <==> fx[i] == fy[i] {
        FrozenFormIsCanonical(x[i], y[i]);
      }
    }
  }

  lemma {:induction false} CanonicalCollection(a: Value, b: Value)
    requires a.Collection? && b.Collection? && Freezable(a) && Freezable(b) && Proper(a) && Proper(b)
    ensures Same(a, b) <==> Frozen(a) == Frozen(b)
    decreases a, 0
  {
    var x, y, fx, fy := a.members, b.members, Frozen(a).members, Frozen(b).members;
    forall m, n | m in x && n in y ensures Same(m, n) <==> Frozen(m) == Frozen(n) {
      FrozenFormIsCanonical(m, n);
    }
    CollectionFromMembers(a, b, fx, fy);
  }

  /** fx holds exactly the frozen forms of x. */
  ghost predicate ImageOf(x: set<Value>, fx: set<Value>)
    requires forall m | m in x :: Freezable(m)
  {
    && (forall m | m in x :: Frozen(m) in fx)
    && (forall u | u in fx :: exists m :: m in x && Frozen(m) == u)
  }

  /** On these two sets, meaning the same is having the same frozen form. */
  ghost predicate Decided(x: set<Value>, y: set<Value>)
    requires (forall m | m in x :: Freezable(m)) && (forall n | n in y :: Freezable(n))
  {
    forall m, n | m in x && n in y :: Same(m, n) <==> Frozen(m) == Frozen(n)
  }

  lemma CollectionFromMembers(a: Value, b: Value, fx: set<Value>, fy: set<Value>)
    requires a.Collection? && b.Collection?
    requires (forall m | m in a.members :: Freezable(m)) && (forall n | n in b.members :: Freezable(n))
    requires ImageOf(a.members, fx) && ImageOf(b.members, fy) && Decided(a.members, b.members)
    ensures Same(a, b) <==> fx == fy
  {
    var x, y := a.members, b.members;
    hide *;
    SameCollectionIff(a, b);
    forall m | m in x ensures HasSame(m, y) <==> Frozen(m) in fy { HasSameIff(x, m, y, fy); }
    forall n | n in y ensures IsSame(a, n) <==> Frozen(n) in fx { IsSameIff(a, n, y, fx); }
    IncludedBothWays(x, y, fx, fy);
  }

  lemma SameCollectionIff(a: Value, b: Value)
    requires a.Collection? && b.Collection?
    ensures Same(a, b) <==> (forall m | m in a.members :: HasSame(m, b.members)) && (forall n | n in b.members :: IsSame(a, n))
  {
    hide HasSame, IsSame;
  }

  lemma HasSameIff(x: set<Value>, m: Value, y: set<Value>, fy: set<Value>)
    requires m in x && (forall m | m in x :: Freezable(m)) && (forall n | n in y :: Freezable(n))
    requires ImageOf(y, fy) && Decided(x, y)
    ensures HasSame(m, y) <==> Frozen(m) in fy
  {
    hide Frozen, Freezable, Same;
  }

  lemma IsSameIff(a: Value, n: Value, y: set<Value>, fx: set<Value>)
    requires a.Collection? && n in y && (forall m | m in a.members :: Freezable(m)) && (forall n | n in y :: Freezable(n))
    requires ImageOf(a.members, fx) && Decided(a.members, y)
    ensures IsSame(a, n) <==> Frozen(n) in fx
  {
    hide Frozen, Freezable, Same;
  }

  lemma IncludedBothWays(x: set<Value>, y: set<Value>, fx: set<Value>, fy: set<Value>)
    requires (forall m | m in x :: Freezable(m)) && (forall n | n in y :: Freezable(n))
    requires ImageOf(x, fx) && ImageOf(y, fy)
    ensures fx == fy <==> (forall m | m in x :: Frozen(m) in fy) && (forall n | n in y :: Frozen(n) in fx)
  {
    hide Frozen, Freezable;
  }

  lemma {:induction false} CanonicalMapping(a: Value, b: Value)
    requires a.Mapping? && b.Mapping? && Freezable(a) && Freezable(b) && Proper(a) && Proper(b)
    ensures Same(a, b) <==> Frozen(a) == Frozen(b)
    decreases a, 0
  {
    var x, y := a.entries, b.entries;
    var fx, fy := FrozenEntries(x), FrozenEntries(y);
    forall i, j | 0 <= i < |x| && 0 <= j < |y|
      ensures x[i].key == y[j].key && Same(x[i].value, y[j].value) <==> fx[i] == fy[j]
    {
      FrozenFormIsCanonical(x[i].value, y[j].value);
    }
    MappingFromEntries(a, b, fx, fy);
  }

  lemma MappingFromEntries(a: Value, b: Value, fx: seq<Entry>, fy: seq<Entry>)
    requires a.Mapping? && b.Mapping? && Freezable(a) && Freezable(b) && Proper(a) && Proper(b)
    requires forall i | 0 <= i < |a.entries| :: Freezable(a.entries[i].value)
    requires forall j | 0 <= j < |b.entries| :: Freezable(b.entries[j].value)
    requires fx == FrozenEntries(a.entries) && fy == FrozenEntries(b.entries)
    requires forall i, j | 0 <= i < |a.entries| && 0 <= j < |b.entries| ::
               a.entries[i].key == b.entries[j].key && Same(a.entries[i].value, b.entries[j].value) <==> fx[i] == fy[j]
    ensures Same(a, b) <==> Frozen(a) == Frozen(b)
  {
    hide *;
    var x, y := a.entries, b.entries;
    SameEntriesIff(x, y);
    SameMappingIff(a, b);
    forall i | 0 <= i < |x| ensures LeadsTo(x[i], y) <==> fx[i] in fy { LeadsToIff(x[i], y, fx[i], fy); }
    forall j | 0 <= j < |y| ensures ComesFrom(a, y[j]) <==> fy[j] in fx { ComesFromIff(a, y[j], fx, fy[j]); }
    SameMembersIff(fx, fy);
  }

  lemma SameMappingIff(a: Value, b: Value)
    requires a.Mapping? && b.Mapping?
    ensures Same(a, b)
            <==> (forall i | 0 <= i < |a.entries| :: LeadsTo(a.entries[i], b.entries))
                 && (forall j | 0 <= j < |b.entries| :: ComesFrom(a, b.entries[j]))
  {
    hide LeadsTo, ComesFrom;
  }

  lemma SameMembersIff(fx: seq<Entry>, fy: seq<Entry>)
    ensures (forall e :: e in fx <==> e in fy)
            <==> (forall i | 0 <= i < |fx| :: fx[i] in fy) && (forall j | 0 <= j < |fy| :: fy[j] in fx)
  {
    if forall e :: e in fx <==> e in fy {
      forall i | 0 <= i < |fx| ensures fx[i] in fy { assert fx[i] in fx; }
      forall j | 0 <= j < |fy| ensures fy[j] in fx { assert fy[j] in fy; }
    }
  }

  lemma LeadsToIff(e: Entry, y: seq<Entry>, fe: Entry, fy: seq<Entry>)
    requires |fy| == |y|
    requires forall j | 0 <= j < |y| :: e.key == y[j].key && Same(e.value, y[j].value) <==> fe == fy[j]
    ensures LeadsTo(e, y) <==> fe in fy
  {
    hide Same;
  }

  lemma ComesFromIff(a: Value, f: Entry, fx: seq<Entry>, ff: Entry)
    requires a.Mapping? && |fx| == |a.entries|
    requires forall i | 0 <= i < |a.entries| :: a.entries[i].key == f.key && Same(a.entries[i].value, f.value) <==> fx[i] == ff
    ensures ComesFrom(a, f) <==> ff in fx
  {
    hide Same;
  }

  // ---- freezing again, and looking up -----------------------------------------------------------

  lemma {:induction false} FrozenIsFixed(v: Value)
    requires Freezable(v) && Proper(v)
    ensures Freezable(Frozen(v)) && Proper(Frozen(v)) && Frozen(Frozen(v)) == Frozen(v)
    decreases v
  {
    match v
    case Sequence(items) =>
      forall i | 0 <= i < |items|
        ensures Freezable(Frozen(items[i])) && Proper(Frozen(items[i])) && Frozen(Frozen(items[i])) == Frozen(items[i])
      {
        FrozenIsFixed(items[i]);
      }
      assert Frozen(Frozen(v)).items == Frozen(v).items;
    case Collection(members) =>
      forall m | m in members
        ensures Freezable(Frozen(m)) && Proper(Frozen(m)) && Frozen(Frozen(m)) == Frozen(m)
      {
        FrozenIsFixed(m);
      }
      assert Frozen(Frozen(v)).members == Frozen(v).members;
    case Mapping(entries) =>
      forall i | 0 <= i < |entries|
        ensures Freezable(Frozen(entries[i].value)) && Proper(Frozen(entries[i].value))
        ensures Frozen(Frozen(entries[i].value)) == Frozen(entries[i].value)
      {
        FrozenIsFixed(entries[i].value);
      }
      FixedMapping(entries);
    case _ =>
  }

  lemma FixedMapping(entries: seq<Entry>)
    requires Freezable(Mapping(entries)) && Proper(Mapping(entries))
    requires forall i | 0 <= i < |entries| ::
               Freezable(Frozen(entries[i].value)) && Proper(Frozen(entries[i].value))
               && Frozen(Frozen(entries[i].value)) == Frozen(entries[i].value)
    ensures var f := Frozen(Mapping(entries)); Freezable(f) && Proper(f) && Frozen(f) == f
  {
    var fe := FrozenEntries(entries);
    FrozenMapping(entries);
    SortAscends(fe);
    SortMembers(fe);
    var s := Sort(fe);
    forall i | 0 <= i < |s|
      ensures s[i].key.Some? && Freezable(s[i].value) && Proper(s[i].value) && Frozen(s[i].value) == s[i].value
    {
      assert s[i] in fe;
      var j :| 0 <= j < |fe| && fe[j] == s[i];
    }
    AscendingIsKeyed(s);
    FrozenMapping(s);
    assert FrozenEntries(s) == s;
    SortMembers(s);
    SortAscends(s);
    AscendingIsUnique(Sort(s), s);
  }

  /** Freezing is idempotent, on values it accepts; what it refuses it refuses at any depth. */
  lemma FreezeIsIdempotent(v: Value)
    requires Proper(v)
    ensures Freeze(v).Some? ==> Freeze(Freeze(v).value) == Freeze(v)
    ensures Freeze(v).Some? <==> Freezable(v)
  {
    if Freezable(v) { FrozenIsFixed(v); }
  }

  /** Equality of frozen values, which compares mappings by content, is equality of their entries; so equal mappings have
      equal hashes. */
  lemma FrozenEqualityIsEntryEquality(x: Value, y: Value)
    requires Freezable(x) && Freezable(y) && Proper(x) && Proper(y)
    ensures Same(Frozen(x), Frozen(y)) <==> Frozen(x) == Frozen(y)
  {
    FrozenIsFixed(x);
    FrozenIsFixed(y);
    FrozenFormIsCanonical(Frozen(x), Frozen(y));
  }

  function Lookup(entries: seq<Entry>, key: string): Option<Value> {
    if entries == [] then None
    else if entries[0].key == Some(key) then Some(entries[0].value)
    else Lookup(entries[1..], key)
  }

  lemma {:induction false} LookupIff(entries: seq<Entry>, key: string, v: Value)
    requires Keyed(entries)
    ensures Lookup(entries, key) == Some(v) <==> Entry(Some(key), v) in entries
  {
    if entries != [] {
      var tail := entries[1..];
      LookupIff(tail, key, v);
      assert entries == [entries[0]] + tail;
      assert forall i | 0 < i < |entries| :: entries[i].key != entries[0].key;
    }
  }

  lemma {:induction false} LookupNoneIff(entries: seq<Entry>, key: string)
    ensures Lookup(entries, key).None? <==> forall i | 0 <= i < |entries| :: entries[i].key != Some(key)
  {
    if entries != [] {
      LookupNoneIff(entries[1..], key);
      assert forall i | 0 < i < |entries| :: entries[i] == entries[1..][i - 1];
    }
  }

  lemma AscendingIsKeyed(s: seq<Entry>)
    requires Ascending(s) && forall i | 0 <= i < |s| :: s[i].key.Some?
    ensures Keyed(s)
  {
    forall i, j | 0 <= i < j < |s| ensures s[i].key != s[j].key {
      assert Precedes(s[i], s[j]);
      BeforeIsIrreflexive(s[i].key.value);
    }
  }

  /** A key looks up the frozen form of what it looked up before. */
  lemma LookupIsPreserved(entries: seq<Entry>, key: string)
    requires Freezable(Mapping(entries)) && Proper(Mapping(entries))
    ensures Lookup(entries, key).Some? ==> Freezable(Lookup(entries, key).value)
    ensures Lookup(Frozen(Mapping(entries)).entries, key)
            == (match Lookup(entries, key) case None => None case Some(v) => Some(Frozen(v)))
  {
    FrozenMapping(entries);
    var fe := FrozenEntries(entries);
    SortAscends(fe);
    SortMembers(fe);
    var s := Sort(fe);
    assert forall i | 0 <= i < |s| :: s[i] in fe;
    AscendingIsKeyed(s);
    LookupNoneIff(entries, key);
    LookupNoneIff(s, key);
    if Lookup(entries, key).Some? {
      var v := Lookup(entries, key).value;
      LookupIff(entries, key, v);
      var i :| 0 <= i < |entries| && entries[i] == Entry(Some(key), v);
      assert fe[i] == Entry(Some(key), Frozen(v));
      LookupIff(s, key, Frozen(v));
    }
  }

  /** A mapping built around unsorted entries equals the frozen one without having its entries: the hash agrees with
      equality exactly on mappings whose entries are sorted. */
  lemma HashAgreesIff(entries: seq<Entry>)
    requires Freezable(Mapping(entries)) && Proper(Mapping(entries))
    requires forall i | 0 <= i < |entries| :: Frozen(entries[i].value) == entries[i].value
    ensures Same(Mapping(entries), Frozen(Mapping(entries)))
    ensures Frozen(Mapping(entries)) == Mapping(entries) <==> Ascending(entries)
  {
    assert Keyed(entries);
    UnchangedEntries(entries);
    hide *;
    FrozenIsFixed(Mapping(entries));
    FrozenFormIsCanonical(Mapping(entries), Frozen(Mapping(entries)));
    SortedIff(entries);
  }

  lemma UnchangedEntries(entries: seq<Entry>)
    requires Freezable(Mapping(entries))
    requires forall i | 0 <= i < |entries| :: Frozen(entries[i].value) == entries[i].value
    ensures Frozen(Mapping(entries)) == Mapping(Sort(entries))
  {
    FrozenMapping(entries);
    hide Frozen;
    assert FrozenEntries(entries) == entries;
  }

  lemma SortedIff(entries: seq<Entry>)
    requires Keyed(entries)
    ensures Sort(entries) == entries <==> Ascending(entries)
  {
    SortAscends(entries);
    SortMembers(entries);
    hide Ascending, Sort;
    if Ascending(entries) { AscendingIsUnique(Sort(entries), entries); }
  }

  /** The loop that collects frozen pairs and sorts them once at the end. */
  method FreezeMapping(entries: seq<Entry>) returns (r: Option<Value>)
    ensures r == Freeze(Mapping(entries))
  {
    var frozen: seq<Entry> := [];
    var i := 0;
    while i < |entries|
      invariant i <= |entries|
      invariant forall j | 0 <= j < i :: entries[j].key.Some? && Freezable(entries[j].value)
      invariant |frozen| == i && forall j | 0 <= j < i :: frozen[j] == Entry(entries[j].key, Frozen(entries[j].value))
    {
      if entries[i].key.None? { return None; }
      var item := Freeze(entries[i].value);
      if item.None? { return None; }
      frozen := frozen + [Entry(entries[i].key, item.value)];
      i := i + 1;
    }
    FrozenMapping(entries);
    assert frozen == FrozenEntries(entries);
    r := Some(Mapping(Sort(frozen)));
  }
}
