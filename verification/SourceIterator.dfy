/** Read-only native source authority: keyset enumeration, exact lookup, bounded lookback
    and the binding of one interaction to one eligible source. */
module SourceIterator {
  import opened Wrappers
  import opened Keyset
  import opened SourceCurator

  /** A `tool_calls` cell: absent or falsy, parsed and truthy, or not parseable. */
  datatype ToolCalls = NoCalls | Calls | Unreadable

  /** A `messages` row joined with its session's owner, without its primary key. */
  datatype Row = Row(
    session: string, owner: string, role: string, content: Option<string>, at: real,
    recordType: Option<string>, toolCalls: ToolCalls, active: bool, compacted: bool)

  /** The native database as one owner sees it; the map makes the primary key unique. */
  datatype Raw = Raw(rows: map<int, Row>, owner: string, namespace: string)

  /** The fingerprint digest is taken as injective, so it is represented by what it covers. */
  datatype SourceRef = SourceRef(namespace: string, session: string, recordId: int, at: real, fingerprint: Row)

  datatype Source = Source(ref: SourceRef, key: Key, role: string, recordType: string, content: Option<string>, user: string)

  /** `source_key`, which the interaction identity hashes injectively. */
  datatype SourceKey = SourceKey(namespace: string, session: string, recordId: int)

  function KeyOfRef(ref: SourceRef): SourceKey {
    SourceKey(ref.namespace, ref.session, ref.recordId)
  }

  function Kind(row: Row): string {
    if !row.active && !row.compacted then "agent_execution"
    else if row.toolCalls != NoCalls then "tool_call"
    else if row.recordType.Some? && row.recordType.value != "" then row.recordType.value
    else row.role
  }

  /** The row behind a key exists, carries that timestamp and belongs to the owner. */
  predicate Owned(raw: Raw, k: Key) {
    k.id in raw.rows && raw.rows[k.id].owner == raw.owner && raw.rows[k.id].at == k.at
  }

  function SourceOf(raw: Raw, k: Key): Source
    requires Owned(raw, k)
  {
    var row := raw.rows[k.id];
    Source(SourceRef(raw.namespace, row.session, k.id, row.at, row), k, row.role, Kind(row), row.content, row.owner)
  }

  function Disposed(source: Source): Disposition {
    Classify(source.role, source.recordType, source.content, false)
  }

  /** Keys of the rows a query over the owner's records selects, before ORDER BY. */
  function Matching(raw: Raw): (keys: set<Key>)
    ensures forall k :: k in keys <==> Owned(raw, k)
  {
    set id | id in raw.rows && raw.rows[id].owner == raw.owner :: Key(raw.rows[id].at, id)
  }

  function InSession(raw: Raw, session: string): set<Key> {
    set k | k in Matching(raw) && raw.rows[k.id].session == session
  }

  /** Rows of a session before a key, in native order. */
  function Earlier(raw: Raw, session: string, k: Key): (keys: seq<Key>)
    ensures forall i | 0 <= i < |keys| :: Owned(raw, keys[i])
  {
    Ordered(Below(InSession(raw, session), Some(k)))
  }

  function Fetch(raw: Raw, keys: seq<Key>): (sources: seq<Source>)
    requires forall i | 0 <= i < |keys| :: Owned(raw, keys[i])
    ensures |sources| == |keys|
    ensures forall i | 0 <= i < |keys| :: sources[i] == SourceOf(raw, keys[i]) && sources[i].key == keys[i]
  {
    seq(|keys|, i requires 0 <= i < |keys| => SourceOf(raw, keys[i]))
  }

  /** The owner's records in native order: what the whole rebuild walks. */
  function Sources(raw: Raw): (sources: seq<Source>)
    ensures |sources| == |Matching(raw)|
    ensures forall i, j | 0 <= i < j < |sources| :: Less(sources[i].key, sources[j].key)
  {
    Fetch(raw, Ordered(Matching(raw)))
  }

  /** A source is in the enumeration exactly when its row exists and belongs to the owner. */
  lemma SourcesMember(raw: Raw, source: Source)
    ensures source in Sources(raw) <==> Owned(raw, source.key) && source == SourceOf(raw, source.key)
  {
    var keys := Ordered(Matching(raw));
    if Owned(raw, source.key) && source == SourceOf(raw, source.key) {
      assert source.key in Matching(raw);
      var i :| 0 <= i < |keys| && keys[i] == source.key;
      assert Sources(raw)[i] == source;
    }
    if source in Sources(raw) {
      var i :| 0 <= i < |keys| && Sources(raw)[i] == source;
      assert Owned(raw, keys[i]);
    }
  }

  /** Exact lookup by record and session; the other fields of the reference are left to the caller. */
  function Get(raw: Raw, ref: SourceRef): Option<Source> {
    if ref.namespace != raw.namespace then None
    else if ref.recordId in raw.rows && raw.rows[ref.recordId].owner == raw.owner && raw.rows[ref.recordId].session == ref.session
    then Some(SourceOf(raw, Key(raw.rows[ref.recordId].at, ref.recordId)))
    else None
  }

  /** Lookup finds exactly the enumerated sources, and an exact reference round-trips. */
  lemma GetFindsSources(raw: Raw, ref: SourceRef)
    ensures var found := Get(raw, ref);
            && (found.Some? ==> found.value in Sources(raw))
            && (found.Some? && found.value.ref == ref <==> exists source :: source in Sources(raw) && source.ref == ref)
  {
    var found := Get(raw, ref);
    if found.Some? { SourcesMember(raw, found.value); }
    forall source | source in Sources(raw) && source.ref == ref ensures found == Some(source) {
      SourcesMember(raw, source);
    }
  }

  lemma GetBySourceKey(raw: Raw, ref: SourceRef, source: Source)
    requires source in Sources(raw)
    ensures KeyOfRef(source.ref) == KeyOfRef(ref) <==> Get(raw, ref) == Some(source)
  {
    SourcesMember(raw, source);
  }

  /** The row is live and carries no tool call: its own type counts, or else its role. */
  predicate Plain(row: Row) {
    (row.active || row.compacted) && row.toolCalls == NoCalls
  }

  predicate Typed(row: Row) {
    row.recordType.Some? && row.recordType.value != ""
  }

  /** Which native rows compile: live, non-blank user text without tool calls and without an operational type. */
  lemma RowCompilesIff(raw: Raw, k: Key)
    requires Owned(raw, k)
    ensures var row := raw.rows[k.id];
            Disposed(SourceOf(raw, k)) == Compile
            <==> && row.role == "user" && Plain(row) && (Typed(row) ==> row.recordType.value !in OPERATIONAL_TYPES)
                 && row.content.Some? && exists c :: c in row.content.value && !IsSpace(c)
  {
    var row := raw.rows[k.id];
    CompileExactlyUserText(row.role, Kind(row), row.content, false);
  }

  /** And which are ignored: an agent's and a tool's, rewound rows, tool calls, and operational types, a row without a type
      having its role for one. */
  lemma RowIgnoredIff(raw: Raw, k: Key)
    requires Owned(raw, k)
    ensures var row := raw.rows[k.id];
            Disposed(SourceOf(raw, k)) == Ignore
            <==> row.role in {"agent", "tool"} || !Plain(row)
                 || (if Typed(row) then row.recordType.value else row.role) in OPERATIONAL_TYPES
  {
    var row := raw.rows[k.id];
    IgnoredExactlyOperations(row.role, Kind(row), row.content, false);
  }

  /** What a source carries is its row's own, with the type that its state and its calls give it. */
  lemma SourceCarries(raw: Raw, k: Key)
    requires Owned(raw, k)
    ensures var row, source := raw.rows[k.id], SourceOf(raw, k);
            && source.key == k && source.role == row.role && source.content == row.content && source.user == row.owner
            && source.ref.namespace == raw.namespace && source.ref.session == row.session && source.ref.recordId == k.id
            && source.ref.at == row.at && source.ref.fingerprint == row
            && (Plain(row) ==> source.recordType == if Typed(row) then row.recordType.value else row.role)
            && (row.active || row.compacted ==> (row.toolCalls != NoCalls ==> source.recordType == "tool_call"))
            && (!row.active && !row.compacted ==> source.recordType == "agent_execution")
  {
  }

  /** The bounded keyset query: rows past the cursor, ascending, at most `limit`. */
  function Query(raw: Raw, after: Option<Key>, limit: nat): seq<Key> {
    Take(Ordered(Beyond(Matching(raw), after)), limit)
  }

  class HistoricalSourceIterator {
    const raw: Raw
    var bindings: map<SourceKey, SourceRef>

    constructor (raw: Raw)
      ensures this.raw == raw && bindings == map[]
    {
      this.raw := raw;
      bindings := map[];
    }

    /** Repeated LIMIT-1 queries, each restarted from the last yielded key, enumerate exactly the
        owner's records past the cursor, each once, ascending; the rows still ahead shrink every time. */
    method Iterate(after: Option<Key>) returns (yielded: seq<Source>)
      ensures yielded == Fetch(raw, Ordered(Beyond(Matching(raw), after)))
    {
      var cursor := after;
      yielded := [];
      ghost var keys: seq<Key> := [];
      ghost var whole := Ordered(Beyond(Matching(raw), after));
      var rows := Query(raw, cursor, 1);
      assert keys + whole == whole;
      assert Walked(raw, whole, cursor, keys, yielded);
      hide Walked, Beyond, Ordered, Query;
      while |rows| > 0
        invariant rows == Query(raw, cursor, 1)
        invariant Walked(raw, whole, cursor, keys, yielded)
        decreases |Beyond(Matching(raw), cursor)|
      {
        WalkStep(raw, whole, cursor, keys, yielded);
        yielded := yielded + [SourceOf(raw, rows[0])];
        keys := keys + [rows[0]];
        cursor := Some(rows[0]);
        rows := Query(raw, cursor, 1);
      }
      WalkEnd(raw, whole, cursor, keys, yielded);
    }

    /** Bounded same-session lookback: the newest `limit` earlier rows, returned oldest first. */
    method Before(source: Source, limit: int) returns (result: Result<seq<Source>, string>)
      ensures result.Err? <==> !(0 < limit <= 8)
      ensures result.Ok? ==>
                var earlier := Earlier(raw, source.ref.session, source.key);
                result.value == Fetch(raw, earlier[|earlier| - Min(limit, |earlier|)..])
    {
      if !(0 < limit <= 8) {
        return Err("context lookback must be in [1,8]");
      }
      hide *;
      var matching := Below(InSession(raw, source.ref.session), Some(source.key));
      var newest := Take(OrderedDesc(matching), limit);
      EarlierRowsReversed(raw, source, limit);
      return Ok(Fetch(raw, Reverse(newest)));
    }

    /** Only the exact current eligible USER source can be bound; nothing else changes. */
    method Bind(source: Source) returns (ok: bool)
      modifies this`bindings
      ensures ok <==> source in Sources(raw) && Disposed(source) == Compile
      ensures ok ==> bindings == old(bindings)[SourceKey(source.ref.namespace, source.ref.session, source.ref.recordId) := source.ref]
      ensures !ok ==> bindings == old(bindings)
    {
      SourcesMember(raw, source);
      var current := Get(raw, source.ref);
      if current != Some(source) || Disposed(source) != Compile {
        return false;
      }
      bindings := bindings[KeyOfRef(source.ref) := source.ref];
      return true;
    }

    /** What admission sees for an interaction: the reference of its source, exactly when the scope is this owner's, the
        interaction was bound, and its row is a current one that compiles. */
    function CurrentUserSource(sameScope: bool, interaction: SourceKey): (ref: Option<SourceRef>)
      reads this
      ensures ref.Some? <==>
                && sameScope && interaction in bindings && KeyOfRef(bindings[interaction]) == interaction
                && exists source :: source in Sources(raw) && KeyOfRef(source.ref) == interaction && Disposed(source) == Compile
      ensures ref.Some? ==> exists source :: source in Sources(raw) && source.ref == ref.value && KeyOfRef(source.ref) == interaction
    {
      if !sameScope || interaction !in bindings then None
      else
        hide Sources, Disposed;
        var source := Get(raw, bindings[interaction]);
        GetFindsSources(raw, bindings[interaction]);
        assert forall s | s in Sources(raw) && KeyOfRef(s.ref) == KeyOfRef(bindings[interaction]) :: source == Some(s) by {
          forall s | s in Sources(raw) && KeyOfRef(s.ref) == KeyOfRef(bindings[interaction]) ensures source == Some(s) {
            GetBySourceKey(raw, bindings[interaction], s);
          }
        }
        if source.None? || KeyOfRef(source.value.ref) != interaction || Disposed(source.value) != Compile then None
        else Some(source.value.ref)
    }
  }

  /** What has been yielded so far and what the cursor still has ahead make up the whole enumeration. */
  ghost predicate Walked(raw: Raw, whole: seq<Key>, cursor: Option<Key>, keys: seq<Key>, yielded: seq<Source>) {
    && (forall i | 0 <= i < |keys| :: Owned(raw, keys[i]))
    && yielded == Fetch(raw, keys)
    && keys + Ordered(Beyond(Matching(raw), cursor)) == whole
  }

  lemma WalkStep(raw: Raw, whole: seq<Key>, cursor: Option<Key>, keys: seq<Key>, yielded: seq<Source>)
    requires Walked(raw, whole, cursor, keys, yielded) && |Query(raw, cursor, 1)| > 0
    ensures var first := Query(raw, cursor, 1)[0];
            && Owned(raw, first)
            && Walked(raw, whole, Some(first), keys + [first], yielded + [SourceOf(raw, first)])
            && |Beyond(Matching(raw), Some(first))| < |Beyond(Matching(raw), cursor)|
  {
    QueryFirst(raw, cursor);
    var first := Query(raw, cursor, 1)[0];
    FetchAppend(raw, keys, first);
    Regroup(keys, first, Ordered(Beyond(Matching(raw), Some(first))));
  }

  lemma Regroup(a: seq<Key>, k: Key, b: seq<Key>)
    ensures a + ([k] + b) == (a + [k]) + b
  {
  }

  lemma WalkEnd(raw: Raw, whole: seq<Key>, cursor: Option<Key>, keys: seq<Key>, yielded: seq<Source>)
    requires Walked(raw, whole, cursor, keys, yielded) && |Query(raw, cursor, 1)| == 0
    ensures keys == whole && yielded == Fetch(raw, keys)
  {
    QueryFirst(raw, cursor);
    assert keys + [] == keys;
  }

  /** A LIMIT-1 query answers the least key past the cursor, or nothing when none is left. */
  lemma QueryFirst(raw: Raw, cursor: Option<Key>)
    ensures var ahead := Beyond(Matching(raw), cursor);
            var rows := Query(raw, cursor, 1);
            && (|rows| > 0 <==> ahead != {})
            && (|rows| > 0 ==>
                  && Owned(raw, rows[0])
                  && rows[0] in ahead
                  && Ordered(ahead) == [rows[0]] + Ordered(Beyond(Matching(raw), Some(rows[0])))
                  && |Beyond(Matching(raw), Some(rows[0]))| < |ahead|)
  {
    var ahead := Beyond(Matching(raw), cursor);
    if ahead != {} {
      KeysetStep(Matching(raw), cursor);
      assert Query(raw, cursor, 1)[0] == Ordered(ahead)[0];
      assert Ordered(ahead)[0] in Matching(raw);
    }
  }

  lemma FetchAppend(raw: Raw, keys: seq<Key>, k: Key)
    requires Owned(raw, k) && forall i | 0 <= i < |keys| :: Owned(raw, keys[i])
    ensures Fetch(raw, keys + [k]) == Fetch(raw, keys) + [SourceOf(raw, k)]
  {
  }

  function Min(a: int, b: int): int { if a < b then a else b }

  /** Reading a DESC LIMIT page backwards gives the last rows of the ascending order. */
  lemma LastRowsReversed(keys: set<Key>, limit: nat)
    ensures var all := Ordered(keys);
            Reverse(Take(OrderedDesc(keys), limit)) == all[|all| - Min(limit, |all|)..]
  {
    OrderedDescIsReverse(keys);
    ReverseTake(Ordered(keys), limit);
  }

  lemma ReverseTake(all: seq<Key>, limit: nat)
    ensures Reverse(Take(Reverse(all), limit)) == all[|all| - Min(limit, |all|)..]
  {
    var n := Min(limit, |all|);
    var flipped := Reverse(all);
    var page := Take(flipped, limit);
    var back := Reverse(page);
    assert |page| == n;
    forall i | 0 <= i < n ensures back[i] == all[|all| - n + i] {
      assert back[i] == page[n - 1 - i];
      assert page[n - 1 - i] == flipped[n - 1 - i];
      assert flipped[n - 1 - i] == all[|all| - 1 - (n - 1 - i)];
    }
    assert back == all[|all| - n..];
  }

  lemma EarlierRowsReversed(raw: Raw, source: Source, limit: nat)
    ensures var earlier := Earlier(raw, source.ref.session, source.key);
            Reverse(Take(OrderedDesc(Below(InSession(raw, source.ref.session), Some(source.key))), limit))
            == earlier[|earlier| - Min(limit, |earlier|)..]
  {
    hide Less, Below, InSession, Ordered, OrderedDesc, Take, Reverse;
    LastRowsReversed(Below(InSession(raw, source.ref.session), Some(source.key)), limit);
  }

  /** Lookback never reaches the source itself, a later row or another session. */
  lemma LookbackIsEarlier(raw: Raw, source: Source, k: Key)
    requires source in Sources(raw)
    requires k in Earlier(raw, source.ref.session, source.key)
    ensures Less(k, source.key) && SourceOf(raw, k) in Sources(raw)
            && SourceOf(raw, k).ref.session == source.ref.session
  {
    SourcesMember(raw, SourceOf(raw, k));
  }
}
