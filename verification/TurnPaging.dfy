/** The turn list: committed turns from one database, aborted turns from another, merged page by page under one keyset
    cursor. */
module TurnPaging {
  import opened Wrappers
  import opened Keyset

  /** Timestamps are ordered texts; the empty text, which a turn without any recorded time has, sorts before all others. */
  const EMPTY := 0.0

  predicate Dated(keys: set<Key>) {
    forall k | k in keys :: k.at > EMPTY
  }

  /** What the caller passes to continue; an empty time counts as none. */
  datatype Cursor = Beginning | BeforeTime(at: real) | BeforeTurn(key: Key)

  function CursorFrom(at: Option<real>, id: Option<int>): Cursor {
    if at.None? || at.value == EMPTY then Beginning
    else if id.None? then BeforeTime(at.value)
    else BeforeTurn(Key(at.value, id.value))
  }

  predicate Passes(k: Key, cursor: Cursor) {
    match cursor
    case Beginning => true
    case BeforeTime(at) => k.at < at
    case BeforeTurn(key) => Less(k, key)
  }

  function Rest(keys: set<Key>, cursor: Cursor): set<Key> {
    set k | k in keys && Passes(k, cursor)
  }

  function IdsOf(rows: seq<Key>): set<int> {
    set k | k in rows :: k.id
  }

  /** The rows merged into a page: the committed rows past the cursor, and of the newest abort events, whatever the cursor,
      those that are past it and not already listed. */
  function Merged(committed: set<Key>, aborts: set<Key>, limit: nat, cursor: Cursor): set<Key> {
    var page := TopK(Rest(committed, cursor), limit);
    Elements(page) + (set k | k in TopK(aborts, limit) && k.id !in IdsOf(page) && Passes(k, cursor))
  }

  function Page(committed: set<Key>, aborts: set<Key>, limit: nat, cursor: Cursor): seq<Key> {
    TopK(Merged(committed, aborts, limit, cursor), limit)
  }

  method ListCommittedTurns(committed: set<Key>, aborts: set<Key>, limit: nat, at: Option<real>, id: Option<int>)
    returns (rows: seq<Key>)
    ensures rows == Page(committed, aborts, limit, CursorFrom(at, id))
  {
    hide TopK, Rest, CursorFrom, IdsOf, Passes, Elements;
    var cursor := CursorFrom(at, id);
    var listed := TopK(Rest(committed, cursor), limit);
    var ids := IdsOf(listed);
    var candidates := TopK(aborts, limit);
    var extra: set<Key> := {};
    var i := 0;
    while i < |candidates|
      invariant i <= |candidates|
      invariant extra == set k | k in candidates[..i] && k.id !in ids && Passes(k, cursor)
    {
      assert candidates[..i + 1] == candidates[..i] + [candidates[i]];
      if candidates[i].id !in ids && Passes(candidates[i], cursor) {
        extra := extra + {candidates[i]};
      }
      i := i + 1;
    }
    assert candidates[..i] == candidates;
    rows := TopK(Elements(listed) + extra, limit);
  }

  /** Which turns a cursor leaves: all of them without a time or with an empty one, the strictly older ones with a time alone,
      and with both the older ones and those of the same time with a smaller id. */
  lemma PassesIff(k: Key, at: Option<real>, id: Option<int>)
    ensures Passes(k, CursorFrom(at, id))
            <==> || at.None? || at.value == EMPTY
                 || k.at < at.value || (id.Some? && k.at == at.value && k.id < id.value)
  {
  }

  predicate DisjointIds(committed: set<Key>, aborts: set<Key>) {
    forall a, b | a in committed && b in aborts :: a.id != b.id
  }

  lemma MergedMember(committed: set<Key>, aborts: set<Key>, limit: nat, cursor: Cursor, k: Key)
    requires DisjointIds(committed, aborts)
    ensures k in Merged(committed, aborts, limit, cursor)
            <==> k in TopK(Rest(committed, cursor), limit) || (k in TopK(aborts, limit) && Passes(k, cursor))
  {
    var page := TopK(Rest(committed, cursor), limit);
    forall x | x in page ensures x in committed { TopKMember(Rest(committed, cursor), limit, x); }
    TopKMember(aborts, limit, k);
  }

  /** A page is the newest turns past its cursor exactly when none of the aborted turns among them has been crowded out of
      the newest abort events. */
  lemma PageIsExactIff(committed: set<Key>, aborts: set<Key>, limit: nat, cursor: Cursor)
    requires DisjointIds(committed, aborts)
    ensures var exact := TopK(Rest(committed + aborts, cursor), limit);
            Page(committed, aborts, limit, cursor) == exact
            <==> forall k | k in exact && k in aborts :: k in TopK(aborts, limit)
  {
    var all := Rest(committed + aborts, cursor);
    var few := Merged(committed, aborts, limit, cursor);
    var exact := TopK(all, limit);
    forall k ensures k in few <==> k in TopK(Rest(committed, cursor), limit) || (k in TopK(aborts, limit) && Passes(k, cursor)) {
      MergedMember(committed, aborts, limit, cursor, k);
    }
    forall k | k in few ensures k in all {
      TopKMember(Rest(committed, cursor), limit, k);
      TopKMember(aborts, limit, k);
    }
    if forall k | k in exact && k in aborts :: k in TopK(aborts, limit) {
      forall k | k in exact ensures k in few {
        TopKMember(all, limit, k);
        if k in committed { TopKOfPart(Rest(committed, cursor), all, limit, k); }
      }
      TopKOfEnough(all, few, limit);
    } else {
      var k :| k in exact && k in aborts && k !in TopK(aborts, limit);
      CrowdedOut(committed, aborts, limit, cursor, k);
    }
  }

  /** The same condition in numbers of rows: every abort past the cursor with fewer than `limit` turns past the cursor above
      it has fewer than `limit` aborts above it. */
  lemma PageIsExactIffCounts(committed: set<Key>, aborts: set<Key>, limit: nat, cursor: Cursor)
    requires DisjointIds(committed, aborts)
    ensures var all := Rest(committed + aborts, cursor);
            Page(committed, aborts, limit, cursor) == TopK(all, limit)
            <==> forall k | k in aborts && Passes(k, cursor) && |Above(all, k)| < limit :: |Above(aborts, k)| < limit
  {
    PageIsExactIff(committed, aborts, limit, cursor);
    var all := Rest(committed + aborts, cursor);
    hide TopK, Page, Above, DisjointIds;
    forall k | k in aborts
      ensures k in TopK(all, limit) <==> Passes(k, cursor) && |Above(all, k)| < limit
      ensures k in TopK(aborts, limit) <==> |Above(aborts, k)| < limit
    {
      TopKMember(all, limit, k);
      TopKMember(aborts, limit, k);
    }
  }

  lemma CrowdedOut(committed: set<Key>, aborts: set<Key>, limit: nat, cursor: Cursor, k: Key)
    requires DisjointIds(committed, aborts) && k in aborts && k !in TopK(aborts, limit)
    ensures k !in Page(committed, aborts, limit, cursor)
  {
    MergedMember(committed, aborts, limit, cursor, k);
    TopKMember(Rest(committed, cursor), limit, k);
    TopKMember(Merged(committed, aborts, limit, cursor), limit, k);
  }

  lemma {:induction false} AllFit(keys: set<Key>, limit: nat)
    requires |keys| <= limit
    ensures forall k :: k in TopK(keys, limit) <==> k in keys
  {
    assert TopK(keys, limit) == OrderedDesc(keys);
  }

  // ---- walking the pages -------------------------------------------------------------------

  function NextCursor(page: seq<Key>): Cursor
    requires page != []
  {
    var last := page[|page| - 1];
    CursorFrom(Some(last.at), Some(last.id))
  }

  /** Page after page with the last row as cursor, until a page is empty; n bounds the number of pages read. */
  function Walk(committed: set<Key>, aborts: set<Key>, limit: nat, cursor: Cursor, n: nat): seq<seq<Key>>
    decreases n, 1
  {
    if n == 0 then [] else Onward(committed, aborts, limit, Page(committed, aborts, limit, cursor), n)
  }

  function Onward(committed: set<Key>, aborts: set<Key>, limit: nat, page: seq<Key>, n: nat): seq<seq<Key>>
    requires n > 0
    decreases n, 0
  {
    if page == [] then [] else [page] + Walk(committed, aborts, limit, NextCursor(page), n - 1)
  }

  function Flat(pages: seq<seq<Key>>): seq<Key> {
    if pages == [] then [] else pages[0] + Flat(pages[1..])
  }

  /** The rows of a set in the page stand at or above the page's last row, the others below it. */
  lemma LastRowDivides(rest: set<Key>, limit: nat, k: Key)
    requires TopK(rest, limit) != [] && k in rest
    ensures var page := TopK(rest, limit); k in page <==> !Less(k, page[|page| - 1])
  {
    var page := TopK(rest, limit);
    var last := page[|page| - 1];
    assert last in page;
    TopKDescends(rest, limit);
    if k in page {
      var i :| 0 <= i < |page| && page[i] == k;
      assert i < |page| - 1 ==> Less(page[|page| - 1], page[i]);
    } else {
      hide TopK;
      TopKDominates(rest, limit, k, last);
    }
  }

  /** The rows past a page's last row are the rows past its cursor that the page left out. */
  lemma RestAfterPage(all: set<Key>, limit: nat, cursor: Cursor)
    requires Dated(Rest(all, cursor))
    requires TopK(Rest(all, cursor), limit) != []
    ensures var page := TopK(Rest(all, cursor), limit);
            && Rest(all, NextCursor(page)) == Rest(all, cursor) - Elements(page)
            && OrderedDesc(Rest(all, cursor)) == page + OrderedDesc(Rest(all, NextCursor(page)))
  {
    var rest := Rest(all, cursor);
    var page := TopK(rest, limit);
    var last := page[|page| - 1];
    assert last in page;
    TopKIsPart(rest, limit);
    assert NextCursor(page) == BeforeTurn(last);
    hide TopK, Less;
    forall k | k in all ensures Passes(k, NextCursor(page)) <==> k in rest && k !in page {
      if k in rest { LastRowDivides(rest, limit, k); }
      PassesIsDownward(k, last, cursor);
    }
    assert Rest(all, NextCursor(page)) == rest - Elements(page);
    PageThenRest(rest, limit);
  }

  lemma TopKIsPart(rest: set<Key>, limit: nat)
    ensures forall k | k in TopK(rest, limit) :: k in rest
  {
    forall k | k in TopK(rest, limit) ensures k in rest { TopKMember(rest, limit, k); }
  }

  lemma PageThenRest(rest: set<Key>, limit: nat)
    ensures OrderedDesc(rest) == TopK(rest, limit) + OrderedDesc(rest - Elements(TopK(rest, limit)))
  {
    var page := TopK(rest, limit);
    TopKIsPart(rest, limit);
    TopKDescends(rest, limit);
    forall k, h | k in rest && k !in page && h in page ensures Less(k, h) { TopKDominates(rest, limit, k, h); }
    hide TopK, Less;
    DescendingHead(page, rest);
  }

  lemma PassesIsDownward(k: Key, last: Key, cursor: Cursor)
    ensures Less(k, last) && Passes(last, cursor) ==> Passes(k, cursor)
  {
  }

  lemma TopKDescends(keys: set<Key>, limit: nat)
    ensures Descending(TopK(keys, limit))
  {
  }

  lemma DatedPart(keys: set<Key>, part: set<Key>)
    requires Dated(keys) && part <= keys
    ensures Dated(part)
  {
  }

  /** With dated turns, disjoint ids and no more aborted turns than a page holds, the walk lists every turn exactly once,
      newest first, and stops by itself. */
  lemma {:induction false} WalkListsEveryTurn(committed: set<Key>, aborts: set<Key>, limit: nat, cursor: Cursor, n: nat)
    requires DisjointIds(committed, aborts) && |aborts| <= limit && limit > 0
    requires Dated(Rest(committed + aborts, cursor)) && n >= |Rest(committed + aborts, cursor)|
    ensures Flat(Walk(committed, aborts, limit, cursor, n)) == OrderedDesc(Rest(committed + aborts, cursor))
    ensures forall m | m >= n :: Walk(committed, aborts, limit, cursor, m) == Walk(committed, aborts, limit, cursor, n)
    decreases n
  {
    var all := committed + aborts;
    var rest, page := Rest(all, cursor), TopK(Rest(all, cursor), limit);
    hide *;
    PageIsExact(committed, aborts, limit, cursor);
    EmptyPageIff(rest, limit);
    if n > 0 { WalkUnfolds(committed, aborts, limit, cursor, n); }
    forall m | m > n ensures Walk(committed, aborts, limit, cursor, m) == Walk(committed, aborts, limit, cursor, n) {
      WalkUnfolds(committed, aborts, limit, cursor, m);
      if page != [] {
        SmallerRest(rest, limit);
        RestAfterPage(all, limit, cursor);
        DatedPart(rest, Rest(all, NextCursor(page)));
        WalkListsEveryTurn(committed, aborts, limit, NextCursor(page), n - 1);
      } else {
        EmptyWalk(committed, aborts, limit, cursor, n);
      }
    }
    if page != [] {
      SmallerRest(rest, limit);
      RestAfterPage(all, limit, cursor);
      DatedPart(rest, Rest(all, NextCursor(page)));
      WalkListsEveryTurn(committed, aborts, limit, NextCursor(page), n - 1);
      FlatCons(page, Walk(committed, aborts, limit, NextCursor(page), n - 1));
    } else {
      EmptyWalk(committed, aborts, limit, cursor, n);
    }
  }

  lemma PageIsExact(committed: set<Key>, aborts: set<Key>, limit: nat, cursor: Cursor)
    requires DisjointIds(committed, aborts) && |aborts| <= limit
    ensures Page(committed, aborts, limit, cursor) == TopK(Rest(committed + aborts, cursor), limit)
  {
    AllFit(aborts, limit);
    hide Page, Rest, TopK;
    PageIsExactIff(committed, aborts, limit, cursor);
  }

  lemma WalkUnfolds(committed: set<Key>, aborts: set<Key>, limit: nat, cursor: Cursor, n: nat)
    requires n > 0
    ensures var page := Page(committed, aborts, limit, cursor);
            Walk(committed, aborts, limit, cursor, n)
            == if page == [] then [] else [page] + Walk(committed, aborts, limit, NextCursor(page), n - 1)
  {
    hide Page;
  }

  lemma EmptyWalk(committed: set<Key>, aborts: set<Key>, limit: nat, cursor: Cursor, n: nat)
    requires Page(committed, aborts, limit, cursor) == []
    ensures Walk(committed, aborts, limit, cursor, n) == [] && Flat([]) == []
  {
    hide Page;
  }

  lemma FlatCons(page: seq<Key>, pages: seq<seq<Key>>)
    ensures Flat([page] + pages) == page + Flat(pages)
  {
    assert ([page] + pages)[1..] == pages;
  }

  lemma EmptyPageIff(rest: set<Key>, limit: nat)
    requires limit > 0
    ensures TopK(rest, limit) == [] <==> rest == {}
    ensures rest == {} ==> OrderedDesc(rest) == []
  {
    assert |OrderedDesc(rest)| == |rest|;
  }

  lemma SmallerRest(rest: set<Key>, limit: nat)
    requires TopK(rest, limit) != []
    ensures |rest - Elements(TopK(rest, limit))| < |rest|
  {
    var page := TopK(rest, limit);
    TopKMember(rest, limit, page[0]);
    assert page[0] in Elements(page);
    CardinalitySubset(rest - Elements(page), rest - {page[0]});
  }

  // ---- when the walk ends ------------------------------------------------------------------

  /** No recorded time is below the empty text. */
  predicate Texts(keys: set<Key>) {
    forall k | k in keys :: k.at >= EMPTY
  }

  /** From some number of pages on, asking for more gives no further page. */
  ghost predicate Ends(committed: set<Key>, aborts: set<Key>, limit: nat, cursor: Cursor) {
    exists n: nat :: StopsAt(committed, aborts, limit, cursor, n)
  }

  ghost predicate StopsAt(committed: set<Key>, aborts: set<Key>, limit: nat, cursor: Cursor, n: nat) {
    forall m | m >= n :: Walk(committed, aborts, limit, cursor, m) == Walk(committed, aborts, limit, cursor, n)
  }

  /** A page leads back to the first page exactly when its last turn has no recorded time. */
  lemma UndatedTurnRestarts(committed: set<Key>, aborts: set<Key>, limit: nat, page: seq<Key>)
    requires page != []
    ensures NextCursor(page) == Beginning <==> page[|page| - 1].at == EMPTY
    ensures page[|page| - 1].at == EMPTY ==>
              Page(committed, aborts, limit, NextCursor(page)) == Page(committed, aborts, limit, Beginning)
  {
  }

  /** While an undated turn lies past the cursor, one lies past the next: a page that ends in a dated turn stays above it,
      and a page that ends in an undated one leads back to the first page. */
  lemma UndatedStaysAhead(committed: set<Key>, aborts: set<Key>, limit: nat, cursor: Cursor, k: Key)
    requires DisjointIds(committed, aborts) && |aborts| <= limit && limit > 0 && Texts(committed + aborts)
    requires k in Rest(committed + aborts, cursor) && k.at == EMPTY
    ensures var page := Page(committed, aborts, limit, cursor);
            page != [] && k in Rest(committed + aborts, NextCursor(page))
  {
    var all := committed + aborts;
    var rest := Rest(all, cursor);
    PageIsExact(committed, aborts, limit, cursor);
    EmptyPageIff(rest, limit);
    TopKIsPart(rest, limit);
    hide TopK, Page, NextCursor, Less, Passes;
    var page := TopK(rest, limit);
    var last := page[|page| - 1];
    assert last in page;
    UndatedTurnRestarts(committed, aborts, limit, page);
    NextPasses(k, page);
  }

  lemma NextPasses(k: Key, page: seq<Key>)
    requires page != [] && k.at == EMPTY && page[|page| - 1].at >= EMPTY
    ensures Passes(k, NextCursor(page))
  {
  }

  lemma NoPages(committed: set<Key>, aborts: set<Key>, limit: nat, cursor: Cursor)
    ensures Walk(committed, aborts, limit, cursor, 0) == []
  {
    hide Page;
  }

  lemma {:induction false} UndatedNeverEnds(committed: set<Key>, aborts: set<Key>, limit: nat, cursor: Cursor, k: Key,
                                            n: nat)
    requires DisjointIds(committed, aborts) && |aborts| <= limit && limit > 0 && Texts(committed + aborts)
    requires k in Rest(committed + aborts, cursor) && k.at == EMPTY
    ensures |Walk(committed, aborts, limit, cursor, n)| == n
    decreases n
  {
    hide *;
    NoPages(committed, aborts, limit, cursor);
    if n > 0 {
      var page := Page(committed, aborts, limit, cursor);
      UndatedStaysAhead(committed, aborts, limit, cursor, k);
      WalkUnfolds(committed, aborts, limit, cursor, n);
      UndatedNeverEnds(committed, aborts, limit, NextCursor(page), k, n - 1);
    }
  }

  /** With disjoint ids and no more aborts than a page holds, the walk ends exactly when every turn past its cursor has a
      recorded time. */
  lemma WalkEndsIff(committed: set<Key>, aborts: set<Key>, limit: nat, cursor: Cursor)
    requires DisjointIds(committed, aborts) && |aborts| <= limit && limit > 0 && Texts(committed + aborts)
    ensures Ends(committed, aborts, limit, cursor) <==> Dated(Rest(committed + aborts, cursor))
  {
    var rest := Rest(committed + aborts, cursor);
    assert forall k | k in rest :: k.at >= EMPTY;
    hide Rest, Walk, DisjointIds, Texts;
    if Dated(rest) {
      WalkListsEveryTurn(committed, aborts, limit, cursor, |rest|);
      assert StopsAt(committed, aborts, limit, cursor, |rest|);
    } else {
      var k :| k in rest && k.at == EMPTY;
      forall n: nat ensures !StopsAt(committed, aborts, limit, cursor, n) {
        UndatedNeverEnds(committed, aborts, limit, cursor, k, n);
        UndatedNeverEnds(committed, aborts, limit, cursor, k, n + 1);
      }
    }
  }
}
