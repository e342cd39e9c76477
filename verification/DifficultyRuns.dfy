/** Total difficulties over runs that mix header imports, block imports and side chains. */
module DifficultyRuns {
  import opened ChainTree
  import opened ChainDb
  import opened HeaderReorg
  import opened HeaderImport
  import opened HeaderChains
  import opened BlockChains
  import opened SideChain

  /** What can happen between two moments: an import, or a move of the heads, which may change index,
      lookup index, markers and current block in any way but not the tables. */
  datatype Import =
    | Headers(headers: seq<Header>)
    | OneBlock(block: Block)
    | Side(blocks: seq<Block>)
    | HeadMove(canon: map<nat, Hash>, lookup: map<Hash, nat>, headHeader: Hash, headFast: Hash, headBlock: Hash, current: Header)

  /** The database and the current block. */
  datatype Moment = Moment(db: Db, current: Header)

  /** What is imported comes from the universe and is consecutive, as the callers check. */
  ghost predicate Drawn(i: Import, universe: Universe)
  {
    match i
    case Headers(headers) => Contiguous(headers) && AllStored(universe.headers, headers)
    case OneBlock(block) => universe.Holds(block)
    case Side(blocks) => Linked(blocks) && forall k :: 0 <= k < |blocks| ==> universe.Holds(blocks[k])
    case HeadMove(_, _, _, _, _, _) => true
  }

  /** Exact total difficulties of headers and bodies taken from the universe. */
  ghost predicate Exact(db: Db, universe: Universe)
  {
    Sound(Tables(db.headers, db.td)) && Within(db, universe)
  }

  lemma {:induction false} SideWithin(db: Db, blocks: seq<Block>, k: nat, universe: Universe)
    requires Within(db, universe) && k <= |blocks| && forall i :: 0 <= i < |blocks| ==> universe.Holds(blocks[i])
    ensures Within(WithSide(db, blocks, k), universe)
    decreases k
  {
    if k > 0 {
      SideWithin(db, blocks, k - 1, universe);
      WithinGrows(WithSide(db, blocks, k - 1), WithSide(db, blocks, k), universe, blocks[k - 1]);
    }
  }

  lemma {:induction false} SideGrows(store: Store, blocks: seq<Block>, k: nat, universe: Store)
    requires k <= |blocks| && Extends(store, universe) && forall i :: 0 <= i < |blocks| ==> Stored(universe, blocks[i].header)
    ensures Extends(store, WithBlocks(store, blocks, k))
    decreases k
  {
    if k > 0 {
      SideGrows(store, blocks, k - 1, universe);
    }
  }

  /** An import with a known parent: all headers of a batch, the block, or the side chain up to the
      first block that repeats a canonical state root of that moment are stored, `count` in all. */
  ghost predicate Took(i: Import, m: Moment, n: Moment, count: nat)
  {
    var was, now := m.db, n.db;
    match i
    case Headers(headers) =>
      && n.current == m.current
      && if headers == [] || GetTd(was, headers[0].parentHash, headers[0].number - 1).None? then now == was && count == 0
         else
           && count == |headers| && now == was.(headers := now.headers, td := now.td)
           && HoldsExactly(now.headers, was.headers, headers)
    case OneBlock(block) =>
      && n.current == m.current
      && if GetTd(was, block.header.parentHash, block.header.number - 1).None? then now == was && count == 0
         else count == 1 && BlockStored(was, now, block.header, block.txs)
    case Side(blocks) =>
      && n.current == m.current
      && if blocks == [] || Get(was.headers, blocks[0].header.parentHash, blocks[0].header.number - 1).None?
         then now == was && count == 0
         else
           && count <= |blocks| && now == WithSide(was, blocks, count).(td := now.td)
           && (count < |blocks| ==> AttacksAt(was, m.current, blocks, count))
           && forall k :: 0 <= k < count ==> !AttacksAt(was, m.current, blocks, k)
    case HeadMove(canon, lookup, headHeader, headFast, headBlock, current) =>
      && count == 0 && n.current == current
      && now == was.(canon := canon, lookup := lookup, headHeader := headHeader, headFast := headFast, headBlock := headBlock)
  }

  lemma SideExact(was: Db, now: Db, blocks: seq<Block>, k: nat, universe: Universe)
    requires Exact(was, universe) && k <= |blocks| && forall i :: 0 <= i < |blocks| ==> universe.Holds(blocks[i])
    requires now == WithSide(was, blocks, k).(td := now.td) && Sound(Tables(now.headers, now.td))
    ensures Exact(now, universe) && Extends(was.headers, now.headers)
  {
    SideWithin(was, blocks, k, universe);
    SideGrows(was.headers, blocks, k, universe.headers);
  }

  /** Import a side chain, if its first parent is known. */
  method ImportSide(bc: BlockChain, blocks: seq<Block>, ghost universe: Universe) returns (count: nat)
    requires Exact(bc.hc.db, universe) && Drawn(Import.Side(blocks), universe)
    modifies bc.hc`db
    ensures Exact(bc.hc.db, universe) && Extends(old(bc.hc.db.headers), bc.hc.db.headers)
    ensures Took(Import.Side(blocks), Moment(old(bc.hc.db), bc.currentBlock), Moment(bc.hc.db, bc.currentBlock), count)
  {
    count := 0;
    if blocks != [] && Get(bc.hc.db.headers, blocks[0].header.parentHash, blocks[0].header.number - 1).Some? {
      ghost var was := bc.hc.db;
      forall k | 0 <= k < |blocks| ensures BlockAgrees(was, blocks[k].header, blocks[k].txs) {
        WithinAgrees(was, universe, blocks[k]);
      }
      var db, _, _, imported := InsertSideChain(bc.hc.db, bc.currentBlock, blocks, bc.hc.genesisHeader.hash);
      SideExact(was, db, blocks, imported, universe);
      bc.hc.db, count := db, imported;
    }
  }

  /** One import of any kind. */
  method ImportAny(bc: BlockChain, i: Import, ghost universe: Universe) returns (count: nat)
    requires Keyed(universe.headers) && Exact(bc.hc.db, universe) && Drawn(i, universe)
    modifies bc, bc.hc`db
    ensures Exact(bc.hc.db, universe) && Extends(old(bc.hc.db.headers), bc.hc.db.headers)
    ensures Took(i, Moment(old(bc.hc.db), old(bc.currentBlock)), Moment(bc.hc.db, bc.currentBlock), count)
  {
    ghost var was := bc.hc.db;
    count := 0;
    match i
    case Headers(headers) =>
      InUniverse(was.headers, universe.headers, headers);
      var ok, _ := bc.hc.WriteHeaders(headers);
      if ok {
        count := |headers|;
      }
    case OneBlock(block) =>
      WithinAgrees(was, universe, block);
      var ok := bc.WriteBlockWithState(block.header, block.txs);
      if ok {
        count := 1;
        WithinGrows(was, bc.hc.db, universe, block);
      }
    case Side(blocks) =>
      count := ImportSide(bc, blocks, universe);
    case HeadMove(canon, lookup, headHeader, headFast, headBlock, current) =>
      bc.hc.db := bc.hc.db.(canon := canon, lookup := lookup,
                            headHeader := headHeader, headFast := headFast, headBlock := headBlock);
      bc.currentBlock := current;
  }

  /** Each moment follows from the one before by the next import or move. */
  ghost predicate MixedRun(moments: seq<Moment>, imports: seq<Import>, counts: seq<nat>, universe: Universe)
  {
    && |moments| == |counts| + 1 && |counts| <= |imports|
    && (forall k :: 0 <= k < |moments| ==> Exact(moments[k].db, universe))
    && (forall k :: 0 <= k < |counts| ==> TookAt(moments, imports, counts, k))
  }

  ghost predicate TookAt(moments: seq<Moment>, imports: seq<Import>, counts: seq<nat>, k: nat)
    requires k < |counts| <= |imports| && |moments| == |counts| + 1
  {
    Took(imports[k], moments[k], moments[k + 1], counts[k])
  }

  lemma MixedRunExtends(moments: seq<Moment>, imports: seq<Import>, counts: seq<nat>, universe: Universe, now: Moment, count: nat)
    requires MixedRun(moments, imports, counts, universe) && |counts| < |imports|
    requires Took(imports[|counts|], moments[|counts|], now, count) && Exact(now.db, universe)
    ensures MixedRun(moments + [now], imports, counts + [count], universe)
  {
    forall k: nat | k < |counts| + 1 ensures TookAt(moments + [now], imports, counts + [count], k) {
      assert k < |counts| ==> TookAt(moments, imports, counts, k);
    }
  }

  /** Over any run of imports and head moves, in any mixture and order, with batches partly known,
      blocks whose headers came first, or side chains mixed with canonical blocks: everything with a
      known parent is stored, and every stored total difficulty is always the sum of the difficulties
      along the whole ancestry. */
  method ImportMixed(bc: BlockChain, imports: seq<Import>, ghost universe: Universe)
    returns (counts: seq<nat>, ghost moments: seq<Moment>)
    requires Keyed(universe.headers) && Exact(bc.hc.db, universe)
    requires forall k :: 0 <= k < |imports| ==> Drawn(imports[k], universe)
    modifies bc, bc.hc`db
    ensures |counts| == |imports| && |moments| == |imports| + 1
    ensures moments[0] == Moment(old(bc.hc.db), old(bc.currentBlock)) && moments[|imports|] == Moment(bc.hc.db, bc.currentBlock)
    ensures MixedRun(moments, imports, counts, universe)
  {
    counts, moments := [], [Moment(bc.hc.db, bc.currentBlock)];
    for k := 0 to |imports|
      invariant |counts| == k && |moments| == k + 1 && moments[0] == Moment(old(bc.hc.db), old(bc.currentBlock))
      invariant moments[k] == Moment(bc.hc.db, bc.currentBlock) && MixedRun(moments, imports, counts, universe)
    {
      var count := ImportAny(bc, imports[k], universe);
      MixedRunExtends(moments, imports, counts, universe, Moment(bc.hc.db, bc.currentBlock), count);
      counts, moments := counts + [count], moments + [Moment(bc.hc.db, bc.currentBlock)];
    }
  }
}
