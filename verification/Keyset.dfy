/** Keyset order: the total order on (time, id) keys behind every paged or resumable
    read of the system, with ORDER BY ascending, ORDER BY descending and LIMIT over
    a finite set of keys. */
module Keyset {
  import opened Wrappers

  /** A row's position: its timestamp, ties broken by its primary key. */
  datatype Key = Key(at: real, id: int)

  predicate Less(a: Key, b: Key) {
    a.at < b.at || (a.at == b.at && a.id < b.id)
  }

  predicate Ascending(s: seq<Key>) {
    forall i, j | 0 <= i < j < |s| :: Less(s[i], s[j])
  }

  predicate Descending(s: seq<Key>) {
    forall i, j | 0 <= i < j < |s| :: Less(s[j], s[i])
  }

  function Elements(s: seq<Key>): set<Key> {
    set k | k in s
  }

  /** The rows a keyset cursor has not passed yet. */
  function Beyond(keys: set<Key>, after: Option<Key>): set<Key> {
    if after.None? then keys else set k | k in keys && Less(after.value, k)
  }

  /** The rows strictly older than a descending cursor. */
  function Below(keys: set<Key>, before: Option<Key>): set<Key> {
    if before.None? then keys else set k | k in keys && Less(k, before.value)
  }

  function Take(s: seq<Key>, limit: nat): seq<Key> {
    if |s| <= limit then s else s[..limit]
  }

  lemma {:induction false} LeastExists(keys: set<Key>)
    requires keys != {}
    ensures exists m :: m in keys && forall k | k in keys :: k == m || Less(m, k)
    decreases |keys|
  {
    var x :| x in keys;
    var rest := keys - {x};
    if rest == {} {
      assert keys == {x};
    } else {
      LeastExists(rest);
      var y :| y in rest && forall k | k in rest :: k == y || Less(y, k);
      var m := if Less(x, y) then x else y;
      forall k | k in keys ensures k == m || Less(m, k) {
        if k != x { assert k in rest; }
      }
    }
  }

  lemma {:induction false} GreatestExists(keys: set<Key>)
    requires keys != {}
    ensures exists m :: m in keys && forall k | k in keys :: k == m || Less(k, m)
    decreases |keys|
  {
    var x :| x in keys;
    var rest := keys - {x};
    if rest == {} {
      assert keys == {x};
    } else {
      GreatestExists(rest);
      var y :| y in rest && forall k | k in rest :: k == y || Less(k, y);
      var m := if Less(y, x) then x else y;
      forall k | k in keys ensures k == m || Less(k, m) {
        if k != x { assert k in rest; }
      }
    }
  }

  function Least(keys: set<Key>): (m: Key)
    requires keys != {}
    ensures m in keys && forall k | k in keys :: k == m || Less(m, k)
  {
    LeastExists(keys);
    var m :| m in keys && forall k | k in keys :: k == m || Less(m, k);
    m
  }

  function Greatest(keys: set<Key>): (m: Key)
    requires keys != {}
    ensures m in keys && forall k | k in keys :: k == m || Less(k, m)
  {
    GreatestExists(keys);
    var m :| m in keys && forall k | k in keys :: k == m || Less(k, m);
    m
  }

  /** ORDER BY at, id. */
  function Ordered(keys: set<Key>): (s: seq<Key>)
    ensures Ascending(s)
    ensures forall k :: k in s <==> k in keys
    ensures forall i | 0 <= i < |s| :: s[i] in keys
    ensures |s| == |keys|
    decreases |keys|
  {
    if keys == {} then [] else
      var m := Least(keys);
      [m] + Ordered(keys - {m})
  }

  /** ORDER BY at DESC, id DESC. */
  function OrderedDesc(keys: set<Key>): (s: seq<Key>)
    ensures Descending(s)
    ensures forall k :: k in s <==> k in keys
    ensures forall i | 0 <= i < |s| :: s[i] in keys
    ensures |s| == |keys|
    decreases |keys|
  {
    if keys == {} then [] else
      var m := Greatest(keys);
      [m] + OrderedDesc(keys - {m})
  }

  lemma NonemptyHasMember(s: seq<Key>)
    ensures |s| > 0 ==> exists k :: k in s
  {
    if |s| > 0 { assert s[0] in s; }
  }

  lemma {:induction false} AscendingUnique(s: seq<Key>, t: seq<Key>)
    requires Ascending(s) && Ascending(t)
    requires forall k :: k in s <==> k in t
    ensures s == t
  {
    if s == [] {
      NonemptyHasMember(t);
    } else {
      assert s[0] in t;
      assert t[0] in s;
      assert s[0] == t[0];
      assert s == [s[0]] + s[1..] && t == [t[0]] + t[1..];
      forall k ensures k in s[1..] <==> k in t[1..] {
        if k in s[1..] { assert k in s; assert k in t; }
        if k in t[1..] { assert k in t; assert k in s; }
      }
      AscendingUnique(s[1..], t[1..]);
    }
  }

  function Reverse(s: seq<Key>): (r: seq<Key>)
    ensures |r| == |s|
    ensures forall i | 0 <= i < |s| :: r[i] == s[|s| - 1 - i]
  {
    seq(|s|, i requires 0 <= i < |s| => s[|s| - 1 - i])
  }

  lemma ReverseElements(s: seq<Key>)
    ensures forall k :: k in Reverse(s) <==> k in s
  {
    forall k | k in s ensures k in Reverse(s) {
      var i :| 0 <= i < |s| && s[i] == k;
      assert Reverse(s)[|s| - 1 - i] == k;
    }
  }

  lemma DescendingUnique(s: seq<Key>, t: seq<Key>)
    requires Descending(s) && Descending(t)
    requires forall k :: k in s <==> k in t
    ensures s == t
  {
    ReverseElements(s);
    ReverseElements(t);
    AscendingUnique(Reverse(s), Reverse(t));
    forall i | 0 <= i < |s| ensures s[i] == t[i] {
      assert Reverse(s)[|s| - 1 - i] == Reverse(t)[|s| - 1 - i];
    }
  }

  /** The descending order of a set is its ascending order read backwards. */
  lemma OrderedDescIsReverse(keys: set<Key>)
    ensures OrderedDesc(keys) == Reverse(Ordered(keys))
  {
    ReverseElements(Ordered(keys));
    DescendingUnique(OrderedDesc(keys), Reverse(Ordered(keys)));
  }

  /** The first row past a cursor, then the rows past that row: one keyset step. */
  lemma KeysetStep(keys: set<Key>, after: Option<Key>)
    requires Beyond(keys, after) != {}
    ensures var first := Ordered(Beyond(keys, after))[0];
            && Ordered(Beyond(keys, after)) == [first] + Ordered(Beyond(keys, Some(first)))
            && Beyond(keys, Some(first)) == Beyond(keys, after) - {first}
  {
    var first := Least(Beyond(keys, after));
    assert Beyond(keys, Some(first)) == Beyond(keys, after) - {first};
    assert Ordered(Beyond(keys, after)) == [first] + Ordered(Beyond(keys, after) - {first});
  }

  lemma SuffixMembers(keys: set<Key>, order: seq<Key>, p: nat)
    requires Ascending(order) && (forall k :: k in order <==> k in keys) && 0 < p <= |order|
    ensures Ascending(order[p..]) && forall k :: k in order[p..] <==> k in Beyond(keys, Some(order[p - 1]))
  {
    var cursor := order[p - 1];
    forall k | k in order[p..] ensures k in Beyond(keys, Some(cursor)) {
      var i :| 0 <= i < |order[p..]| && order[p..][i] == k;
      assert order[p + i] == k && Less(cursor, k);
    }
    forall k | k in Beyond(keys, Some(cursor)) ensures k in order[p..] {
      var i :| 0 <= i < |order| && order[i] == k;
      assert p <= i;
      assert order[p..][i - p] == k;
    }
  }

  /** Behind a cursor on row p - 1 of the order lie exactly the rows from p on. */
  lemma BeyondIsSuffix(keys: set<Key>, order: seq<Key>, p: nat)
    requires order == Ordered(keys) && 0 < p <= |order|
    ensures Ordered(Beyond(keys, Some(order[p - 1]))) == order[p..]
  {
    hide Least, Less, Ascending, Beyond;
    SuffixMembers(keys, order, p);
    AscendingUnique(Ordered(Beyond(keys, Some(order[p - 1]))), order[p..]);
  }

  // ---- LIMIT over a descending order -------------------------------------------

  function TopK(keys: set<Key>, limit: nat): seq<Key> {
    Take(OrderedDesc(keys), limit)
  }

  ghost function Above(keys: set<Key>, k: Key): set<Key> {
    set x | x in keys && Less(k, x)
  }

  lemma {:induction false} CountDescending(s: seq<Key>)
    requires Descending(s)
    ensures |Elements(s)| == |s|
  {
    if s != [] {
      var last := |s| - 1;
      CountDescending(s[..last]);
      assert s[last] !in Elements(s[..last]);
      assert Elements(s) == Elements(s[..last]) + {s[last]};
    }
  }

  /** The row at index i of a descending order has exactly i rows above it. */
  lemma RankAt(keys: set<Key>, order: seq<Key>, i: nat)
    requires Descending(order) && i < |order|
    requires forall k :: k in order <==> k in keys
    ensures |Above(keys, order[i])| == i
  {
    var head := order[..i];
    forall x | x in Above(keys, order[i]) ensures x in Elements(head) {
      assert x in order;
      var j :| 0 <= j < |order| && order[j] == x;
      assert j < i;
      assert head[j] == x;
    }
    forall x | x in Elements(head) ensures x in Above(keys, order[i]) {
      var j :| 0 <= j < i && head[j] == x;
      assert order[j] == x;
    }
    assert Above(keys, order[i]) == Elements(head);
    CountDescending(head);
  }

  /** LIMIT keeps exactly the rows with fewer than `limit` rows above them. */
  lemma TopKMember(keys: set<Key>, limit: nat, k: Key)
    ensures k in TopK(keys, limit) <==> k in keys && |Above(keys, k)| < limit
  {
    TakeMember(keys, OrderedDesc(keys), limit, k);
  }

  lemma TakeMember(keys: set<Key>, order: seq<Key>, limit: nat, k: Key)
    requires Descending(order)
    requires forall x :: x in order <==> x in keys
    ensures k in Take(order, limit) <==> k in keys && |Above(keys, k)| < limit
  {
    if k in keys {
      assert k in order;
      var i :| 0 <= i < |order| && order[i] == k;
      RankAt(keys, order, i);
      if i < limit {
        assert Take(order, limit)[i] == k;
      } else {
        assert forall j | 0 <= j < |Take(order, limit)| :: Take(order, limit)[j] == order[j] && Less(k, order[j]);
      }
    } else {
      assert forall j | 0 <= j < |Take(order, limit)| :: Take(order, limit)[j] in order;
    }
  }

  lemma CardinalitySubset<T>(a: set<T>, b: set<T>)
    requires a <= b
    ensures |a| <= |b|
  {
    assert b == a + (b - a);
  }

  /** A descending head that dominates the rest of a set starts the set's order. */
  lemma DescendingHead(head: seq<Key>, keys: set<Key>)
    requires Descending(head)
    requires forall k | k in head :: k in keys
    requires forall k, h | k in keys && k !in head && h in head :: Less(k, h)
    ensures OrderedDesc(keys) == head + OrderedDesc(keys - Elements(head))
  {
    var tail := OrderedDesc(keys - Elements(head));
    forall i, j | 0 <= i < j < |head + tail| ensures Less((head + tail)[j], (head + tail)[i]) {
      if i < |head| <= j {
        assert tail[j - |head|] in tail;
        assert head[i] in head;
      }
    }
    DescendingUnique(OrderedDesc(keys), head + tail);
  }

  /** A row kept by LIMIT over a union is kept by LIMIT over a part it comes from. */
  lemma TopKOfPart(a: set<Key>, all: set<Key>, limit: nat, k: Key)
    requires a <= all && k in a && k in TopK(all, limit)
    ensures k in TopK(a, limit)
  {
    TopKMember(all, limit, k);
    CardinalitySubset(Above(a, k), Above(all, k));
    TopKMember(a, limit, k);
  }

  /** Every row LIMIT drops sorts below every row it keeps. */
  lemma TopKDominates(keys: set<Key>, limit: nat, k: Key, h: Key)
    requires k in keys && k !in TopK(keys, limit) && h in TopK(keys, limit)
    ensures Less(k, h)
  {
    TakeDominates(OrderedDesc(keys), limit, k, h);
  }

  lemma TakeDominates(order: seq<Key>, limit: nat, k: Key, h: Key)
    requires Descending(order)
    requires k in order && k !in Take(order, limit) && h in Take(order, limit)
    ensures Less(k, h)
  {
    var head := Take(order, limit);
    assert forall x | 0 <= x < |head| :: order[x] == head[x] && order[x] in head;
    var i :| 0 <= i < |order| && order[i] == k;
    var j :| 0 <= j < |head| && head[j] == h;
    assert order[j] == h;
  }

  /** LIMIT looks only at the rows it keeps: any subset holding them gives the same page. */
  lemma TopKOfEnough(all: set<Key>, few: set<Key>, limit: nat)
    requires few <= all
    requires forall k | k in TopK(all, limit) :: k in few
    ensures TopK(few, limit) == TopK(all, limit)
  {
    var head := TopK(all, limit);
    forall k, h | k in few && k !in head && h in head ensures Less(k, h) {
      TopKDominates(all, limit, k, h);
    }
    DescendingHead(head, few);
    if |head| < limit {
      assert head == OrderedDesc(all);
      assert few - Elements(head) == {};
    }
  }

  /** The first `limit` rows of a union are found among the first `limit` rows of each part. */
  lemma TopKUnion(a: set<Key>, b: set<Key>, limit: nat, few: set<Key>)
    requires few <= a + b
    requires forall k | k in TopK(a, limit) :: k in few
    requires forall k | k in TopK(b, limit) :: k in few
    ensures TopK(few, limit) == TopK(a + b, limit)
  {
    var all := a + b;
    forall k | k in TopK(all, limit) ensures k in few {
      TopKMember(all, limit, k);
      if k in a { TopKOfPart(a, all, limit, k); } else { TopKOfPart(b, all, limit, k); }
    }
    TopKOfEnough(all, few, limit);
  }
}
