/** Explicit, bounded, strictly earlier context for one historical source. */
module ContextAssembler {
  import opened Wrappers
  import opened Keyset
  import opened SourceCurator
  import opened SourceIterator

  /** Canonical memory identity: the source whose receipt created the block, and its place there. */
  datatype BlockId = BlockId(origin: Key, ordinal: nat)

  datatype Block = Block(at: real, text: string)

  /** What admission durably answers for one source. */
  datatype Receipt = Receipt(deferred: bool, blocks: seq<Block>)

  /** The canonical store: one receipt per admitted source. */
  type Memory = map<Key, Receipt>

  datatype Selection = Selection(refs: seq<SourceRef>, blocks: seq<BlockId>)

  datatype Bounds = Bounds(maxContext: nat, maxBlocks: nat, maxChars: nat)

  const DEFAULT_BOUNDS := Bounds(4, 4, 12000)

  datatype Context = Context(current: Source, contextOnly: seq<Source>, activated: seq<BlockId>, blocks: seq<Block>)

  /** The memory left by the sources strictly before a key. */
  function Before(memory: Memory, k: Key): Memory {
    map x | x in memory && Less(x, k) :: memory[x]
  }

  function FindBlock(memory: Memory, id: BlockId): Option<Block> {
    if id.origin in memory && id.ordinal < |memory[id.origin].blocks| then Some(memory[id.origin].blocks[id.ordinal]) else None
  }

  /** One context reference is admissible: exact, same session, strictly earlier, CONTEXT_ONLY on request. */
  predicate Admissible(raw: Raw, current: Source, ref: SourceRef) {
    var item := Get(raw, ref);
    && item.Some?
    && item.value.ref == ref
    && ref.session == current.ref.session
    && Less(item.value.key, current.key)
    && Classify(item.value.role, item.value.recordType, item.value.content, true) == ContextOnly
  }

  function Gather(raw: Raw, refs: seq<SourceRef>): (items: seq<Source>)
    requires forall i | 0 <= i < |refs| :: Get(raw, refs[i]).Some?
    ensures |items| == |refs|
    ensures forall i | 0 <= i < |refs| :: Some(items[i]) == Get(raw, refs[i])
  {
    seq(|refs|, i requires 0 <= i < |refs| => Get(raw, refs[i]).value)
  }

  function Activate(memory: Memory, ids: seq<BlockId>): (blocks: seq<Block>)
    requires forall i | 0 <= i < |ids| :: FindBlock(memory, ids[i]).Some?
    ensures |blocks| == |ids|
    ensures forall i | 0 <= i < |ids| :: Some(blocks[i]) == FindBlock(memory, ids[i])
  {
    seq(|ids|, i requires 0 <= i < |ids| => FindBlock(memory, ids[i]).value)
  }

  function Length(content: Option<string>): nat {
    if content.Some? then |content.value| else 0
  }

  function SourceChars(items: seq<Source>): nat {
    if items == [] then 0 else SourceChars(items[..|items| - 1]) + Length(items[|items| - 1].content)
  }

  function BlockChars(blocks: seq<Block>): nat {
    if blocks == [] then 0 else BlockChars(blocks[..|blocks| - 1]) + |blocks[|blocks| - 1].text|
  }

  predicate Distinct(refs: seq<SourceRef>) {
    forall i, j | 0 <= i < j < |refs| :: KeyOfRef(refs[i]) != KeyOfRef(refs[j])
  }

  /** Everything a context must satisfy for one source, one memory and one selection. */
  predicate Fits(raw: Raw, memory: Memory, bounds: Bounds, current: Source, selection: Selection, context: Context) {
    && current in Sources(raw)
    && Disposed(current) == Compile
    && |selection.refs| <= bounds.maxContext
    && |selection.blocks| <= bounds.maxBlocks
    && Distinct(selection.refs)
    && (forall i | 0 <= i < |selection.refs| :: Admissible(raw, current, selection.refs[i]))
    && (forall i | 0 <= i < |selection.blocks| ::
          var block := FindBlock(memory, selection.blocks[i]);
          block.Some? && block.value.at <= current.ref.at)
    && context == Context(current, Gather(raw, selection.refs), selection.blocks, Activate(memory, selection.blocks))
    && Length(current.content) + SourceChars(context.contextOnly) + BlockChars(context.blocks) <= bounds.maxChars
  }

  /** The assembler: None stands for any of its ValueErrors. */
  function Assemble(raw: Raw, memory: Memory, bounds: Bounds, current: Source,
                    selection: Selection): (r: Option<Context>)
    ensures r.Some? <==> exists context :: Fits(raw, memory, bounds, current, selection, context)
    ensures r.Some? ==> Fits(raw, memory, bounds, current, selection, r.value)
  {
    if && (forall i | 0 <= i < |selection.refs| :: Admissible(raw, current, selection.refs[i]))
       && (forall i | 0 <= i < |selection.blocks| :: FindBlock(memory, selection.blocks[i]).Some?)
    then
      var context := Context(current, Gather(raw, selection.refs), selection.blocks, Activate(memory, selection.blocks));
      if Fits(raw, memory, bounds, current, selection, context) then Some(context) else None
    else None
  }

  /** The checking loop over context references: it fails on the first inadmissible one. */
  method GatherContext(raw: Raw, current: Source, refs: seq<SourceRef>) returns (context: Option<seq<Source>>)
    ensures context.Some? <==> forall i | 0 <= i < |refs| :: Admissible(raw, current, refs[i])
    ensures context.Some? ==> context.value == Gather(raw, refs)
  {
    var items: seq<Source> := [];
    for n := 0 to |refs|
      invariant |items| == n
      invariant forall i | 0 <= i < n :: Admissible(raw, current, refs[i]) && Some(items[i]) == Get(raw, refs[i])
    {
      var item := Get(raw, refs[n]);
      if item.None? || item.value.ref != refs[n] { return None; }
      if || refs[n].session != current.ref.session
         || !Less(item.value.key, current.key)
         || Classify(item.value.role, item.value.recordType, item.value.content, true) != ContextOnly
      {
        return None;
      }
      items := items + [item.value];
    }
    assert items == Gather(raw, refs);
    return Some(items);
  }

  /** Activation of canonical blocks, refusing unknown ones and ones later than the source. */
  method SelectBlocks(memory: Memory, ids: seq<BlockId>, at: real) returns (blocks: Option<seq<Block>>)
    ensures blocks.Some? <==> forall i | 0 <= i < |ids| :: FindBlock(memory, ids[i]).Some? && FindBlock(memory, ids[i]).value.at <= at
    ensures blocks.Some? ==> blocks.value == Activate(memory, ids)
  {
    var found: seq<Block> := [];
    for n := 0 to |ids|
      invariant |found| == n
      invariant forall i | 0 <= i < n :: FindBlock(memory, ids[i]) == Some(found[i]) && found[i].at <= at
    {
      var block := FindBlock(memory, ids[n]);
      if block.None? || block.value.at > at { return None; }
      found := found + [block.value];
    }
    assert found == Activate(memory, ids);
    return Some(found);
  }

  /** The checks that need no lookup of context or blocks. */
  predicate Eligible(raw: Raw, bounds: Bounds, current: Source, selection: Selection) {
    && current in Sources(raw)
    && Disposed(current) == Compile
    && |selection.refs| <= bounds.maxContext
    && |selection.blocks| <= bounds.maxBlocks
    && Distinct(selection.refs)
  }

  /** The gathered context is what assembly returns, when nothing is missing and the budget allows it. */
  lemma AssembleFrom(raw: Raw, memory: Memory, bounds: Bounds, current: Source, selection: Selection,
                     context: Option<seq<Source>>, blocks: Option<seq<Block>>)
    requires context.Some? <==> forall i | 0 <= i < |selection.refs| :: Admissible(raw, current, selection.refs[i])
    requires context.Some? ==> context.value == Gather(raw, selection.refs)
    requires blocks.Some? <==> forall i | 0 <= i < |selection.blocks| ::
               FindBlock(memory, selection.blocks[i]).Some? && FindBlock(memory, selection.blocks[i]).value.at <= current.ref.at
    requires blocks.Some? ==> blocks.value == Activate(memory, selection.blocks)
    ensures Assemble(raw, memory, bounds, current, selection) ==
            if && Eligible(raw, bounds, current, selection) && context.Some? && blocks.Some?
               && Length(current.content) + SourceChars(context.value) + BlockChars(blocks.value) <= bounds.maxChars
            then Some(Context(current, context.value, selection.blocks, blocks.value)) else None
  {
    hide Sources, Get, Disposed, FindBlock, Distinct;
  }

  /** The assembler as it runs: check, gather in a loop, select, check, measure. */
  method AssembleContext(raw: Raw, memory: Memory, bounds: Bounds, current: Source, selection: Selection)
    returns (r: Option<Context>)
    ensures r == Assemble(raw, memory, bounds, current, selection)
  {
    SourcesMember(raw, current);
    var found := Get(raw, current.ref) == Some(current);
    assert found <==> current in Sources(raw);
    hide Assemble, Sources, Get, Admissible, FindBlock;
    var context := GatherContext(raw, current, selection.refs);
    var blocks := SelectBlocks(memory, selection.blocks, current.ref.at);
    AssembleFrom(raw, memory, bounds, current, selection, context, blocks);
    if !found || Disposed(current) != Compile { return None; }
    if |selection.refs| > bounds.maxContext || |selection.blocks| > bounds.maxBlocks { return None; }
    if !Distinct(selection.refs) { return None; }
    if context.None? || blocks.None? { return None; }
    if Length(current.content) + SourceChars(context.value) + BlockChars(blocks.value) > bounds.maxChars { return None; }
    return Some(Context(current, context.value, selection.blocks, blocks.value));
  }

  // ---- exactly when a context is assembled ----------------------------------------------------

  /** An enumerated source that may be context for another: the exact one that the reference names, of the same session,
      strictly earlier by time and then by id, and neither an agent's, nor operational, nor text that would compile itself. */
  predicate MayServe(raw: Raw, current: Source, ref: SourceRef, item: Source) {
    && item in Sources(raw) && item.ref == ref && item.ref.session == current.ref.session
    && (item.key.at < current.key.at || (item.key.at == current.key.at && item.key.id < current.key.id))
    && item.role != "agent" && item.recordType !in OPERATIONAL_TYPES
    && !Speaks(item.role, item.content)
  }

  lemma AdmissibleIff(raw: Raw, current: Source, ref: SourceRef)
    ensures Admissible(raw, current, ref) <==> exists item :: MayServe(raw, current, ref, item)
    ensures Admissible(raw, current, ref) ==> Get(raw, ref).Some? && MayServe(raw, current, ref, Get(raw, ref).value)
  {
    hide Sources, Get, Classify, Speaks;
    GetFindsSources(raw, ref);
    forall item: Source ensures MayServe(raw, current, ref, item) ==> Get(raw, ref) == Some(item) {
      if MayServe(raw, current, ref, item) { GetBySourceKey(raw, ref, item); }
    }
    if Get(raw, ref).Some? {
      var item := Get(raw, ref).value;
      ContextExactlyTheRest(item.role, item.recordType, item.content);
      assert Admissible(raw, current, ref) <==> MayServe(raw, current, ref, item);
    }
  }

  ghost predicate Served(raw: Raw, current: Source, ref: SourceRef) {
    exists item :: MayServe(raw, current, ref, item)
  }

  /** A block of the canonical store that is not later than a source. */
  predicate Known(memory: Memory, id: BlockId, at: real) {
    id.origin in memory && id.ordinal < |memory[id.origin].blocks| && memory[id.origin].blocks[id.ordinal].at <= at
  }

  /** A context is assembled exactly for a current source that compiles and a selection within all three bounds, of distinct
      sources each of which may serve, and of known blocks none of which is later; it then holds just those, in order. */
  lemma AssemblesIff(raw: Raw, memory: Memory, bounds: Bounds, current: Source, selection: Selection)
    ensures var r := Assemble(raw, memory, bounds, current, selection);
            && (r.Some?
                <==> && current in Sources(raw) && Disposed(current) == Compile
                     && |selection.refs| <= bounds.maxContext && |selection.blocks| <= bounds.maxBlocks
                     && (forall i, j | 0 <= i < j < |selection.refs| :: KeyOfRef(selection.refs[i]) != KeyOfRef(selection.refs[j]))
                     && (forall i | 0 <= i < |selection.refs| :: Served(raw, current, selection.refs[i]))
                     && (forall i | 0 <= i < |selection.blocks| :: Known(memory, selection.blocks[i], current.ref.at))
                     && Length(current.content) + SourceChars(Gathered(raw, selection)) + BlockChars(Activated(memory, selection)) <= bounds.maxChars)
            && (r.Some? ==>
                  && r.value.current == current && r.value.activated == selection.blocks
                  && |r.value.contextOnly| == |selection.refs| && |r.value.blocks| == |selection.blocks|
                  && (forall i | 0 <= i < |selection.refs| :: MayServe(raw, current, selection.refs[i], r.value.contextOnly[i]))
                  && (forall i | 0 <= i < |selection.blocks| ::
                        Known(memory, selection.blocks[i], current.ref.at)
                        && r.value.blocks[i] == memory[selection.blocks[i].origin].blocks[selection.blocks[i].ordinal]))
  {
    forall i | 0 <= i < |selection.refs|
      ensures Admissible(raw, current, selection.refs[i]) <==> Served(raw, current, selection.refs[i])
      ensures Admissible(raw, current, selection.refs[i]) ==>
                Get(raw, selection.refs[i]).Some? && MayServe(raw, current, selection.refs[i], Get(raw, selection.refs[i]).value)
    {
      AdmissibleIff(raw, current, selection.refs[i]);
    }
    AssembleShape(raw, memory, bounds, current, selection);
    hide Sources, Get, Disposed, MayServe, Served, Admissible, SourceChars, BlockChars, Length, Assemble, Fits, KeyOfRef;
  }

  lemma AssembleShape(raw: Raw, memory: Memory, bounds: Bounds, current: Source, selection: Selection)
    ensures Assemble(raw, memory, bounds, current, selection)
            == if && Eligible(raw, bounds, current, selection)
                  && (forall i | 0 <= i < |selection.refs| :: Admissible(raw, current, selection.refs[i]))
                  && (forall i | 0 <= i < |selection.blocks| :: Known(memory, selection.blocks[i], current.ref.at))
                  && Length(current.content) + SourceChars(Gathered(raw, selection)) + BlockChars(Activated(memory, selection)) <= bounds.maxChars
               then Some(Context(current, Gathered(raw, selection), selection.blocks, Activated(memory, selection))) else None
  {
    hide Sources, Get, Disposed, SourceChars, BlockChars, Length, Assemble, Fits, Distinct;
    var all := forall i | 0 <= i < |selection.refs| :: Admissible(raw, current, selection.refs[i]);
    var known := forall i | 0 <= i < |selection.blocks| :: Known(memory, selection.blocks[i], current.ref.at);
    var context := if all then Some(Gathered(raw, selection)) else None;
    var blocks := if known then Some(Activated(memory, selection)) else None;
    AssembleFrom(raw, memory, bounds, current, selection, context, blocks);
  }

  function Gathered(raw: Raw, selection: Selection): seq<Source> {
    if forall i | 0 <= i < |selection.refs| :: Get(raw, selection.refs[i]).Some? then Gather(raw, selection.refs) else []
  }

  function Activated(memory: Memory, selection: Selection): seq<Block> {
    if forall i | 0 <= i < |selection.blocks| :: FindBlock(memory, selection.blocks[i]).Some?
    then Activate(memory, selection.blocks) else []
  }

  /** The budget counts characters, a missing content none, one item after the other. */
  lemma CharsAreCounted(items: seq<Source>, item: Source, blocks: seq<Block>, block: Block)
    ensures SourceChars([]) == 0 && BlockChars([]) == 0
    ensures SourceChars(items + [item]) == SourceChars(items) + if item.content.Some? then |item.content.value| else 0
    ensures BlockChars(blocks + [block]) == BlockChars(blocks) + |block.text|
    ensures Length(None) == 0 && forall text: string :: Length(Some(text)) == |text|
  {
    assert (items + [item])[..|items|] == items && (blocks + [block])[..|blocks|] == blocks;
  }

  /** Two native databases that agree on everything up to and including a source. */
  ghost predicate AgreeUpTo(raw1: Raw, raw2: Raw, current: Source) {
    forall source: Source :: (source.key == current.key || Less(source.key, current.key)) ==>
      (source in Sources(raw1) <==> source in Sources(raw2))
  }

  /** Assembly is causal: later native records cannot change the context a source is given. */
  lemma AssembleIsCausal(raw1: Raw, raw2: Raw, memory: Memory, bounds: Bounds, current: Source, selection: Selection)
    requires AgreeUpTo(raw1, raw2, current)
    ensures Assemble(raw1, memory, bounds, current, selection) == Assemble(raw2, memory, bounds, current, selection)
  {
    FitsIsCausal(raw1, raw2, memory, bounds, current, selection);
    FitsIsCausal(raw2, raw1, memory, bounds, current, selection);
  }

  lemma FitsIsCausal(raw1: Raw, raw2: Raw, memory: Memory, bounds: Bounds, current: Source, selection: Selection)
    requires AgreeUpTo(raw1, raw2, current)
    ensures var r := Assemble(raw1, memory, bounds, current, selection);
            r.Some? ==> Assemble(raw2, memory, bounds, current, selection) == r
  {
    hide Assemble, Sources, Disposed, Get, Activate, Length;
    var r := Assemble(raw1, memory, bounds, current, selection);
    if r.Some? {
      forall i | 0 <= i < |selection.refs|
        ensures Admissible(raw2, current, selection.refs[i])
                && Get(raw2, selection.refs[i]) == Get(raw1, selection.refs[i])
      {
        GetFindsSources(raw1, selection.refs[i]);
        var item := Get(raw1, selection.refs[i]).value;
        assert item in Sources(raw2);
        GetExact(raw2, item);
      }
      assert Gather(raw1, selection.refs) == Gather(raw2, selection.refs);
      assert Fits(raw2, memory, bounds, current, selection, r.value);
    }
  }

  lemma GetExact(raw: Raw, source: Source)
    requires source in Sources(raw)
    ensures Get(raw, source.ref) == Some(source)
  {
    SourcesMember(raw, source);
  }

  /** What an assembled context may contain: at most the stated number of earlier CONTEXT_ONLY records of the
      same session, blocks of already admitted sources, and no more text than the budget. */
  lemma AssembledIsBoundedAndEarlier(raw: Raw, memory: Memory, bounds: Bounds, current: Source, selection: Selection)
    ensures var r := Assemble(raw, memory, bounds, current, selection);
            r.Some? ==>
              && |r.value.contextOnly| <= bounds.maxContext
              && |r.value.activated| <= bounds.maxBlocks
              && Length(current.content) + SourceChars(r.value.contextOnly) + BlockChars(r.value.blocks) <= bounds.maxChars
              && (forall i | 0 <= i < |r.value.contextOnly| ::
                    var item := r.value.contextOnly[i];
                    item in Sources(raw) && Less(item.key, current.key) && item.ref.session == current.ref.session && Disposed(item) != Compile)
              && (forall i | 0 <= i < |r.value.activated| :: r.value.activated[i].origin in memory)
  {
    var r := Assemble(raw, memory, bounds, current, selection);
    if r.Some? {
      forall i | 0 <= i < |selection.refs|
        ensures var item := r.value.contextOnly[i];
                item in Sources(raw) && Less(item.key, current.key) && item.ref.session == current.ref.session && Disposed(item) != Compile
      {
        assert Admissible(raw, current, selection.refs[i]);
        GetFindsSources(raw, selection.refs[i]);
      }
    }
  }
}
