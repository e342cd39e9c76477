/** The block chain as an object: reorganisation, head writes and block imports. */
module BlockChains {
  import opened Options
  import opened ChainTree
  import opened ChainDb
  import opened ForkWalk
  import opened CanonicalIndex
  import opened ReorgEffect
  import opened HeaderChains
  import opened HeaderImport
  import opened ForkChoice

  class BlockChain {
    const hc: HeaderChain
    var currentBlock: Header
    var currentSnapBlock: Header

    constructor (hc: HeaderChain)
      ensures this.hc == hc && currentBlock == currentSnapBlock == hc.currentHeader
    {
      this.hc := hc;
      currentBlock, currentSnapBlock := hc.currentHeader, hc.currentHeader;
    }

    method WriteHeadBlock(block: Header)
      requires block.hash in hc.db.bodies
      modifies this, hc
      ensures hc.db == WithHead(old(hc.db), block)
      ensures hc.currentHeader == currentBlock == currentSnapBlock == block && hc.currentHeaderHash == block.hash
    {
      hc.db := WriteHeadBatch(hc.db, block);
      hc.currentHeader, hc.currentHeaderHash := block, block.hash;
      currentSnapBlock := block;
      currentBlock := block;
    }

    /** The loop of `reorg` that writes the new chain, except its head, in ascending order. */
    method WriteBranch(newHead: Header, f: Fork) returns (addedTxs: seq<Hash>)
      requires Keyed(hc.db.headers) && OnPath(hc.db.Blocks(), newHead, f.common)
      requires Branch(hc.db.Blocks(), newHead, f.common.number, f.newChain)
      modifies this, hc
      ensures BranchWritten(old(hc.db), hc.db, newHead, f.common.number, KeptHeight(f))
      ensures TxSet(addedTxs) == BranchLookup(old(hc.db), newHead, f.common.number, KeptHeight(f)).Keys
      ensures HeadsAt(old(Now()), Now(), if |f.newChain| > 1 then Some(f.newChain[1]) else None)
      ensures hc.currentHeaderHash == if |f.newChain| > 1 then f.newChain[1].hash else old(hc.currentHeaderHash)
    {
      ghost var was, hi := hc.db, f.common.number;
      KeptIsOnNewPath(was.Blocks(), newHead, f);
      addedTxs := [];
      var i := |f.newChain| - 1;
      while i >= 1
        invariant -1 <= i < |f.newChain| && hi == newHead.number - i - 1
        invariant i == -1 ==> f.newChain == []
        invariant Wrote(was, hc.db, newHead, f.common.number, hi, addedTxs)
        invariant HeadsAt(old(Now()), Now(), if 0 <= i < |f.newChain| - 1 then Some(f.newChain[i + 1]) else None)
        invariant hc.currentHeaderHash == if 0 <= i < |f.newChain| - 1 then f.newChain[i + 1].hash else old(hc.currentHeaderHash)
      {
        WriteStep(was, hc.db, newHead, f, i, addedTxs);
        var block := f.newChain[i];
        WriteHeadBlock(block);
        addedTxs := addedTxs + hc.db.bodies[block.hash];
        i, hi := i - 1, hi + 1;
      }
    }

    /** Move the canonical chain from `oldHead` to `newHead`, leaving the new head block itself
        to the caller.  It fails, and changes nothing, exactly when the old head is not stored or
        the chains share no stored block.  Heads and markers are left on the last block written. */
    method Reorg(oldHead: Header, newHead: Header) returns (ok: bool)
      requires Keyed(hc.db.headers) && Agrees(hc.db.headers, oldHead) && Stored(hc.db.Blocks(), newHead)
      modifies this, hc
      ensures ok <==> Stored(old(hc.db.Blocks()), oldHead) && Meet(old(hc.db.Blocks()), oldHead, newHead)
      ensures !ok ==> hc.db == old(hc.db) && currentBlock == old(currentBlock) && currentSnapBlock == old(currentSnapBlock)
                      && hc.currentHeader == old(hc.currentHeader) && hc.currentHeaderHash == old(hc.currentHeaderHash)
      ensures ok ==> ReorgDone(old(hc.db), hc.db, oldHead, newHead)
      ensures ok ==>
                var base := ReorgBase(old(hc.db.Blocks()), oldHead, newHead).value;
                HeadsAt(old(Now()), Now(), if OnPath(old(hc.db.Blocks()), oldHead, base) then None else Some(base))
    {
      ghost var was := hc.db;
      var fork := FindFork(hc.db, oldHead, newHead);
      if fork.None? {
        return false;
      }
      var f := fork.value;
      var addedTxs := WriteBranch(newHead, f);
      ghost var mid, hole := hc.db, 0;
      var stale := HashDifference(f.deletedTxs, addedTxs);
      var number := if |f.newChain| > 1 then f.newChain[1].number else f.common.number;
      hc.db, hole := DropIndexes(hc.db, stale, number + 1);
      AfterReorg(was, mid, hc.db, oldHead, newHead, f, addedTxs, hole);
      LastWritten(was, oldHead, newHead, f);
      ok := true;
    }

    ghost function Now(): (h: Heads)
      reads this, hc
    {
      Heads(hc.db, hc.currentHeader, currentBlock, currentSnapBlock)
    }

    /** Full-sync state: every header has its body, the index is the path of the header head, the
        block heads lie on it, and every total difficulty is exact.  The block head may be below the
        header head, as after a rewind to a block with state. */
    ghost predicate Standing()
      reads this, hc
    {
      Stands(Now(), hc.genesisHeader.hash) && hc.currentHeaderHash == hc.currentHeader.hash
    }

    /** Make a stored block the head; `SetCanonical` does the same after recovering state.  Whatever
        the index held above the block head, it covers the new head, and it becomes its path exactly
        unless the block extends the block head and something is left over above it. */
    method WriteKnownBlock(block: Header) returns (ok: bool)
      requires Grounded(Now(), hc.genesisHeader.hash) && Stored(hc.db.headers, block)
      modifies this, hc
      ensures ok && KnownWritten(old(Now()), Now(), block) && hc.currentHeaderHash == block.hash
      ensures IndexMoved(old(Now()), Now(), block)
    {
      ghost var was, root := Now(), hc.genesisHeader.hash;
      BlocksAreHeaders(was.db);
      if block.parentHash != currentBlock.hash {
        AlwaysMeet(was.db.headers, root, was.block, block);
        ok := Reorg(currentBlock, block);
        if !ok {
          return;
        }
        AfterHead(was, hc.db, root, block);
      } else {
        ExtendHead(was, root, block);
      }
      WriteHeadBlock(block);
      ok := true;
    }

    /** Store a block with its total difficulty; the parent's must be known. */
    method WriteBlockWithState(block: Header, txs: seq<Hash>) returns (ok: bool)
      requires Sound(Tables(hc.db.headers, hc.db.td)) && BlockAgrees(hc.db, block, txs)
      modifies hc`db
      ensures ok <==> GetTd(old(hc.db), block.parentHash, block.number - 1).Some?
      ensures !ok ==> hc.db == old(hc.db)
      ensures ok ==> BlockStored(old(hc.db), hc.db, block, txs) && Sound(Tables(hc.db.headers, hc.db.td))
    {
      var ptd := GetTd(hc.db, block.parentHash, block.number - 1);
      ok := ptd.Some?;
      if ok {
        ghost var was := hc.db;
        hc.db := StoreBlock(hc.db, block, txs, ptd.value + block.difficulty);
        StoreSound(was, hc.db, block, txs, ptd.value);
      }
    }

    /** Import a block and make it the head if the fork choice prefers it.  The only failure is an
        unknown ancestor.  Without a terminal total difficulty the head never gets lighter. */
    method WriteBlockAndSetHead(block: Header, txs: seq<Hash>, ttd: Option<nat>, preserve: Header -> bool, draw: bool)
      returns (status: Option<WriteStatus>)
      requires Grounded(Now(), hc.genesisHeader.hash) && BlockAgrees(hc.db, block, txs)
      modifies this, hc
      ensures Grounded(Now(), hc.genesisHeader.hash)
      ensures BlockImported(old(Now()), Now(), Block(block, txs), ttd, preserve, draw, status)
      ensures hc.currentHeaderHash == if status == Some(Canon) then block.hash else old(hc.currentHeaderHash)
      // a heavier block becomes the head and, before the merge, a lighter one does not
      ensures status.Some? && TotalDifficulty(hc.db.headers, block) > TotalDifficulty(old(hc.db.headers), old(currentBlock)) ==>
                status == Some(Canon) && currentBlock == block
      ensures status.Some? && ttd.None?
              && TotalDifficulty(hc.db.headers, block) < TotalDifficulty(old(hc.db.headers), old(currentBlock)) ==>
                status == Some(Side) && currentBlock == old(currentBlock) && hc.db.canon == old(hc.db.canon)
    {
      ghost var was, root := Now(), hc.genesisHeader.hash;
      var ok := WriteBlockWithState(block, txs);
      status := None;
      if ok {
        ghost var mid := Now();
        AfterStore(was, mid, root, Block(block, txs));
        var reorg := ReorgNeeded(hc.db, currentBlock, block, ttd, preserve, draw).value;
        if reorg {
          ok := WriteKnownBlock(block);
          if !ok {
            return;
          }
        }
        status := Some(if reorg then Canon else Side);
        AfterImport(was, mid, Now(), root, Block(block, txs), ttd, preserve, draw, status.value);
        HeavierWins(was, Now(), Block(block, txs), ttd, preserve, draw, status.value);
      }
    }

    /** Any run of block imports, drawn from one universe of blocks, from any state with exact tables:
        every block with a known parent is stored and, without a terminal total difficulty, the
        successive heads never get lighter.  What holds of index and lookup index at the start holds
        throughout, and a reorganisation repairs the index for good; see `RunKeeps`. */
    method ImportRun(blocks: seq<Block>, preserve: Header -> bool, draws: seq<bool>, ghost universe: Universe)
      returns (statuses: seq<Option<WriteStatus>>, ghost heads: seq<Heads>)
      requires Grounded(Now(), hc.genesisHeader.hash) && Within(hc.db, universe)
      requires |draws| == |blocks| && forall i :: 0 <= i < |blocks| ==> universe.Holds(blocks[i])
      modifies this, hc
      ensures |statuses| == |blocks| && |heads| == |blocks| + 1 && heads[0] == old(Now()) && heads[|blocks|] == Now()
      ensures BlockRun(heads, blocks, preserve, draws, statuses)
      ensures forall i, j :: 0 <= i <= j < |heads| ==> RunKeeps(heads[i], heads[j], hc.genesisHeader.hash, universe)
      // the head is at least as heavy as everything imported
      ensures forall i :: 0 <= i < |blocks| && statuses[i].Some? ==>
                TotalDifficulty(hc.db.headers, blocks[i].header) <= TotalDifficulty(hc.db.headers, currentBlock)
    {
      ghost var root := hc.genesisHeader.hash;
      statuses, heads := [], [Now()];
      for i := 0 to |blocks|
        invariant |statuses| == i && |heads| == i + 1 && heads[0] == old(Now()) && heads[i] == Now()
        invariant Grounded(Now(), root) && Within(hc.db, universe) && BlockRun(heads, blocks, preserve, draws, statuses)
      {
        WithinAgrees(hc.db, universe, blocks[i]);
        var status := WriteBlockAndSetHead(blocks[i].header, blocks[i].txs, None, preserve, draws[i]);
        StepStaysWithin(heads[i], Now(), blocks[i], preserve, draws[i], status, universe);
        BlockRunExtends(heads, blocks, preserve, draws, statuses, Now(), status);
        statuses, heads := statuses + [status], heads + [Now()];
      }
      forall i, j | 0 <= i <= j < |heads| ensures RunKeeps(heads[i], heads[j], root, universe) {
        RunsKeep(heads, blocks, preserve, draws, statuses, root, universe, i, j);
      }
      forall i | 0 <= i < |blocks| && statuses[i].Some?
        ensures TotalDifficulty(hc.db.headers, blocks[i].header) <= TotalDifficulty(hc.db.headers, currentBlock)
      {
        HeaviestBlock(heads, blocks, preserve, draws, statuses, root, universe, i, |blocks|);
      }
    }
  }

  // ----- states

  /** A database with the three heads that stand on it. */
  datatype Heads = Heads(db: Db, header: Header, block: Header, snap: Header)

  /** Full-sync tables: closed under parents, one root, a body for every header, exact total
      difficulties, and the block head stored.  Nothing is said of the index. */
  ghost predicate Grounded(h: Heads, root: Hash)
  {
    && Sound(Tables(h.db.headers, h.db.td)) && Rooted(h.db.headers, root) && h.db.bodies.Keys == h.db.headers.Keys
    && Stored(h.db.headers, h.block)
  }

  /** The index is the path of the block head, with leftovers above at most. */
  ghost predicate IndexCovers(h: Heads)
  {
    Covered(h.db.headers, h.db.canon, h.block)
  }

  /** The index is exactly the path of the block head. */
  ghost predicate IndexExact(h: Heads)
  {
    IsPath(h.db.headers, h.db.canon, h.block)
  }

  ghost predicate Stands(h: Heads, root: Hash)
  {
    Consistent(h.db, root, h.header) && HeadsAgree(h.db, h.header, h.block, h.snap)
  }

  /** All heads and markers agree. */
  ghost predicate OneHead(h: Heads)
  {
    h.header == h.block == h.snap && h.db.headHeader == h.db.headBlock == h.db.headFast == h.block.hash
  }

  /** In-memory heads and markers: untouched, or all on one block. */
  ghost predicate HeadsAt(was: Heads, now: Heads, at: Option<Header>)
  {
    match at
    case None =>
      && now == was.(db := now.db)
      && now.db.headHeader == was.db.headHeader && now.db.headBlock == was.db.headBlock && now.db.headFast == was.db.headFast
    case Some(b) =>
      now.header == now.block == now.snap == b && now.db.headHeader == now.db.headBlock == now.db.headFast == b.hash
  }

  /** A state that stands is grounded, and its index covers the block head. */
  lemma StandsCovers(h: Heads, root: Hash)
    requires Stands(h, root)
    ensures Grounded(h, root) && IndexCovers(h) && (IndexExact(h) <==> h.header.number == h.block.number)
  {
    PathCovers(h.db.headers, h.db.canon, h.header, h.block);
    CoversExactly(h.db.headers, h.db.canon, h.block, h.header.number);
  }

  /** One head over an exact index stands. */
  lemma ExactStands(h: Heads, root: Hash)
    requires Grounded(h, root) && OneHead(h)
    ensures Stands(h, root) <==> IndexExact(h)
  {
  }

  /** What becomes of the index when `block` becomes the head: if it covered the old head it covers
      the new one, and it is exactly the new path unless the block extends the old head and
      something is left over above it. */
  ghost predicate IndexMoved(was: Heads, now: Heads, block: Header)
  {
    IndexCovers(was) ==>
      && IndexCovers(now)
      && (IndexExact(now) <==> block.parentHash != was.block.hash || block.number + 1 !in was.db.canon)
  }

  /** The total difficulty of the block head. */
  function HeadWeight(h: Heads): (td: nat)
  {
    TotalDifficulty(h.db.headers, h.block)
  }

  /** All heads moved to a stored block; the stored data is untouched, and the lookup index stays
      exact if no transaction occurs twice in the block's chain. */
  ghost predicate KnownWritten(was: Heads, now: Heads, block: Header)
  {
    && OneHead(now) && now.block == block
    && now.db.headers == was.db.headers && now.db.bodies == was.db.bodies && now.db.td == was.db.td
    && (LookupExact(was.db, was.block) && UniqueTxs(now.db.headers, now.db.bodies, block) ==> LookupExact(now.db, block))
  }

  /** The whole effect of importing a block. */
  ghost predicate BlockImported(was: Heads, now: Heads, block: Block, ttd: Option<nat>,
                                preserve: Header -> bool, draw: bool, status: Option<WriteStatus>)
  {
    && (status.None? <==> GetTd(was.db, block.header.parentHash, block.header.number - 1).None?)
    && (status.None? ==> now == was)
    && (status.Some? ==>
          && status.value != NonStat
          && ReorgNeeded(now.db, was.block, block.header, ttd, preserve, draw) == Some(status.value == Canon)
          && now.db.headers == was.db.headers[block.header.hash := block.header]
          && now.db.bodies == was.db.bodies[block.header.hash := block.txs]
          && Sound(Tables(now.db.headers, now.db.td)))
    && (status == Some(Canon) ==> OneHead(now) && now.block == block.header && IndexMoved(was, now, block.header))
    && (status == Some(Side) ==>
          now == was.(db := was.db.(headers := now.db.headers, bodies := now.db.bodies, td := now.db.td)))
    && (LookupExact(was.db, was.block) && UniqueTxs(now.db.headers, now.db.bodies, now.block) ==> LookupExact(now.db, now.block))
    && (HeadWeight(now) >= HeadWeight(was) || (ttd.Some? && ttd.value <= HeadWeight(now)))
  }

  /** Each state follows from the one before by the import of the next block, with no terminal
      total difficulty. */
  ghost predicate BlockRun(heads: seq<Heads>, blocks: seq<Block>, preserve: Header -> bool, draws: seq<bool>,
                           statuses: seq<Option<WriteStatus>>)
  {
    && |heads| == |statuses| + 1 && |statuses| <= |blocks| == |draws|
    && forall i :: 0 <= i < |statuses| ==> BlockImportedAt(heads, blocks, preserve, draws, statuses, i)
  }

  ghost predicate BlockImportedAt(heads: seq<Heads>, blocks: seq<Block>, preserve: Header -> bool, draws: seq<bool>,
                                  statuses: seq<Option<WriteStatus>>, i: nat)
    requires i < |statuses| <= |blocks| == |draws| && |heads| == |statuses| + 1
  {
    BlockImported(heads[i], heads[i + 1], blocks[i], None, preserve, draws[i], statuses[i])
  }

  lemma BlockRunExtends(heads: seq<Heads>, blocks: seq<Block>, preserve: Header -> bool, draws: seq<bool>,
                        statuses: seq<Option<WriteStatus>>, now: Heads, status: Option<WriteStatus>)
    requires BlockRun(heads, blocks, preserve, draws, statuses) && |statuses| < |blocks|
    requires BlockImported(heads[|statuses|], now, blocks[|statuses|], None, preserve, draws[|statuses|], status)
    ensures BlockRun(heads + [now], blocks, preserve, draws, statuses + [status])
  {
    forall i: nat | i < |statuses| + 1 ensures BlockImportedAt(heads + [now], blocks, preserve, draws, statuses + [status], i) {
      assert i < |statuses| ==> BlockImportedAt(heads, blocks, preserve, draws, statuses, i);
    }
  }

  /** One import inside the universe stays inside. */
  lemma StepStaysWithin(was: Heads, now: Heads, block: Block, preserve: Header -> bool, draw: bool,
                        status: Option<WriteStatus>, universe: Universe)
    requires BlockImported(was, now, block, None, preserve, draw, status) && Within(was.db, universe) && universe.Holds(block)
    ensures Within(now.db, universe)
  {
    if status.Some? {
      WithinGrows(was.db, now.db, universe, block);
    }
  }

  /** What imports keep, from one state to any later one: exact tables; no lighter head; an index
      that covers the head still does, and one that is exact still is; one head stays one; and, if no chain
      of the universe repeats a transaction, an exact lookup index stays exact. */
  ghost predicate RunKeeps(was: Heads, now: Heads, root: Hash, universe: Universe)
  {
    && Grounded(now, root) && Within(now.db, universe) && Extends(was.db.headers, now.db.headers)
    && HeadWeight(was) <= HeadWeight(now)
    && (IndexCovers(was) ==> IndexCovers(now))
    && (IndexExact(was) ==> IndexExact(now)) && (OneHead(was) ==> OneHead(now))
    && (universe.UniqueChains() && LookupExact(was.db, was.block) ==> LookupExact(now.db, now.block))
  }

  /** A fork taken up again repairs the index: after any import that reorganised, it is exact. */
  lemma ReorganisedIsExact(was: Heads, now: Heads, block: Block, ttd: Option<nat>, preserve: Header -> bool, draw: bool)
    requires BlockImported(was, now, block, ttd, preserve, draw, Some(Canon)) && IndexCovers(was)
    requires block.header.parentHash != was.block.hash
    ensures IndexExact(now) && OneHead(now)
  {
  }

  lemma StepCovers(was: Heads, now: Heads, root: Hash, block: Block, preserve: Header -> bool, draw: bool,
                   status: Option<WriteStatus>)
    requires BlockImported(was, now, block, None, preserve, draw, status)
    requires Extends(was.db.headers, now.db.headers) && IndexCovers(was)
    ensures IndexCovers(now)
  {
    if status == Some(Side) {
      var hi: nat :| Covers(was.db.headers, was.db.canon, was.block, hi);
      CoversExtends(was.db.headers, now.db.headers, was.db.canon, was.block, hi);
    }
  }

  lemma StepExact(was: Heads, now: Heads, root: Hash, block: Block, preserve: Header -> bool, draw: bool,
                  status: Option<WriteStatus>)
    requires BlockImported(was, now, block, None, preserve, draw, status)
    requires Grounded(was, root) && Grounded(now, root) && Extends(was.db.headers, now.db.headers) && IndexExact(was)
    ensures IndexExact(now)
  {
    if status == Some(Side) {
      PathExtends(was.db.headers, now.db.headers, was.db.canon, was.block);
    } else if status == Some(Canon) {
      assert IndexCovers(was) by {
        AncestorTotal(was.db.headers, was.block, was.block.number);
        PathCovers(was.db.headers, was.db.canon, was.block, was.block);
      }
      if block.header.parentHash == was.block.hash {
        ParentNumber(now, root, block.header, was.block);
      }
    }
  }

  /** A stored child of a stored block is one higher. */
  lemma ParentNumber(h: Heads, root: Hash, child: Header, parent: Header)
    requires Grounded(h, root) && Stored(h.db.headers, child) && Stored(h.db.headers, parent) && child.parentHash == parent.hash
    ensures child.number == parent.number + 1
  {
    ClosedAt(h.db.headers, child.hash);
  }

  lemma StepKeeps(was: Heads, now: Heads, root: Hash, block: Block, preserve: Header -> bool, draw: bool,
                  status: Option<WriteStatus>, universe: Universe)
    requires BlockImported(was, now, block, None, preserve, draw, status)
    requires Grounded(was, root) && Within(was.db, universe) && universe.Holds(block)
    ensures RunKeeps(was, now, root, universe)
  {
    StepStaysWithin(was, now, block, preserve, draw, status, universe);
    StepGrounded(was, now, root, block, preserve, draw, status, universe);
    if IndexCovers(was) {
      StepCovers(was, now, root, block, preserve, draw, status);
    }
    if IndexExact(was) {
      StepExact(was, now, root, block, preserve, draw, status);
    }
    if universe.UniqueChains() {
      UniqueRestricts(now.db.headers, now.db.bodies, universe.headers, universe.bodies, now.block);
    }
  }

  lemma StepGrounded(was: Heads, now: Heads, root: Hash, block: Block, preserve: Header -> bool, draw: bool,
                     status: Option<WriteStatus>, universe: Universe)
    requires BlockImported(was, now, block, None, preserve, draw, status)
    requires Grounded(was, root) && Within(was.db, universe) && universe.Holds(block)
    ensures Grounded(now, root) && Extends(was.db.headers, now.db.headers)
  {
    WithinAgrees(was.db, universe, block);
    if status.Some? {
      ParentKnown(was.db, block.header);
      StoreKeepsShape(was.db.headers, was.db.bodies, root, was.block, block.header, block.txs);
    }
  }

  lemma {:induction false} RunsKeep(heads: seq<Heads>, blocks: seq<Block>, preserve: Header -> bool, draws: seq<bool>,
                                    statuses: seq<Option<WriteStatus>>, root: Hash, universe: Universe, i: nat, j: nat)
    requires BlockRun(heads, blocks, preserve, draws, statuses) && i <= j < |heads|
    requires Grounded(heads[0], root) && Within(heads[0].db, universe)
    requires forall k :: 0 <= k < |blocks| ==> universe.Holds(blocks[k])
    ensures RunKeeps(heads[i], heads[j], root, universe)
    decreases j
  {
    if j > 0 {
      var k := if i < j then i else j - 1;
      RunsKeep(heads, blocks, preserve, draws, statuses, root, universe, k, j - 1);
      assert BlockImportedAt(heads, blocks, preserve, draws, statuses, j - 1);
      StepKeeps(heads[j - 1], heads[j], root, blocks[j - 1], preserve, draws[j - 1], statuses[j - 1], universe);
      KeepsTrans(heads[k], heads[j - 1], heads[j], root, universe);
    }
    if i == j {
      KeepsSelf(heads[j], root, universe);
    }
  }

  /** The fork choice by weight: the heavier block wins and, before the merge, the lighter loses. */
  lemma HeavierWins(was: Heads, now: Heads, block: Block, ttd: Option<nat>, preserve: Header -> bool, draw: bool, status: WriteStatus)
    requires BlockImported(was, now, block, ttd, preserve, draw, Some(status))
    requires Sound(Tables(was.db.headers, was.db.td)) && Stored(was.db.headers, was.block)
    requires Extends(was.db.headers, now.db.headers)
    ensures TotalDifficulty(now.db.headers, block.header) > HeadWeight(was) ==> status == Canon && now.block == block.header
    ensures ttd.None? && TotalDifficulty(now.db.headers, block.header) < HeadWeight(was) ==>
              status == Side && now.block == was.block && now.db.canon == was.db.canon
    ensures ttd.None? ==> TotalDifficulty(now.db.headers, block.header) <= HeadWeight(now)
  {
    TotalDifficultyExtends(was.db.headers, now.db.headers, was.block);
    assert Stored(now.db.headers, block.header) && Stored(now.db.headers, was.block);
    assert now.db.td[block.header.hash] == TotalDifficulty(now.db.headers, now.db.headers[block.header.hash]);
    assert now.db.td[was.block.hash] == TotalDifficulty(now.db.headers, now.db.headers[was.block.hash]);
  }

  /** Along a run the head is at least as heavy as every block imported before. */
  lemma HeaviestBlock(heads: seq<Heads>, blocks: seq<Block>, preserve: Header -> bool, draws: seq<bool>,
                     statuses: seq<Option<WriteStatus>>, root: Hash, universe: Universe, i: nat, j: nat)
    requires BlockRun(heads, blocks, preserve, draws, statuses) && i < j < |heads| && statuses[i].Some?
    requires Grounded(heads[0], root) && Within(heads[0].db, universe)
    requires forall k :: 0 <= k < |blocks| ==> universe.Holds(blocks[k])
    ensures TotalDifficulty(heads[j].db.headers, blocks[i].header) <= HeadWeight(heads[j])
  {
    RunsKeep(heads, blocks, preserve, draws, statuses, root, universe, i, i + 1);
    RunsKeep(heads, blocks, preserve, draws, statuses, root, universe, i, i);
    RunsKeep(heads, blocks, preserve, draws, statuses, root, universe, i + 1, j);
    assert BlockImportedAt(heads, blocks, preserve, draws, statuses, i);
    HeavierWins(heads[i], heads[i + 1], blocks[i], None, preserve, draws[i], statuses[i].value);
    TotalDifficultyExtends(heads[i + 1].db.headers, heads[j].db.headers, blocks[i].header);
  }

  lemma KeepsSelf(h: Heads, root: Hash, universe: Universe)
    requires Grounded(h, root) && Within(h.db, universe)
    ensures RunKeeps(h, h, root, universe)
  {
  }

  lemma KeepsTrans(a: Heads, b: Heads, c: Heads, root: Hash, universe: Universe)
    requires RunKeeps(a, b, root, universe) && RunKeeps(b, c, root, universe)
    ensures RunKeeps(a, c, root, universe)
  {
    assert Extends(a.db.headers, c.db.headers);
  }

  datatype Block = Block(header: Header, txs: seq<Hash>)

  /** All blocks that will ever be seen: hashes identify headers and bodies. */
  datatype Universe = Universe(headers: Store, bodies: map<Hash, seq<Hash>>)
  {
    ghost predicate Holds(b: Block)
    {
      && Stored(headers, b.header) && b.header.hash != NO_HASH
      && b.header.hash in bodies && bodies[b.header.hash] == b.txs
    }

    ghost predicate UniqueChains()
    {
      forall h :: Stored(headers, h) ==> UniqueTxs(headers, bodies, h)
    }
  }

  ghost predicate Within(db: Db, universe: Universe)
  {
    && Extends(db.headers, universe.headers)
    && forall hash :: hash in db.bodies ==> hash in universe.bodies && universe.bodies[hash] == db.bodies[hash]
  }

  lemma WithinAgrees(db: Db, universe: Universe, block: Block)
    requires Within(db, universe) && universe.Holds(block) && Keyed(db.headers)
    ensures BlockAgrees(db, block.header, block.txs)
  {
  }

  lemma WithinGrows(was: Db, now: Db, universe: Universe, block: Block)
    requires Within(was, universe) && universe.Holds(block)
    requires now.headers == was.headers[block.header.hash := block.header]
    requires now.bodies == was.bodies[block.header.hash := block.txs]
    ensures Within(now, universe)
  {
  }

  /** A closed full-sync database whose index is the path of `head`. */
  ghost predicate Consistent(db: Db, root: Hash, head: Header)
  {
    && Sound(Tables(db.headers, db.td)) && Rooted(db.headers, root) && db.bodies.Keys == db.headers.Keys
    && Stored(db.headers, head) && IsPath(db.headers, db.canon, head)
  }

  /** The block heads lie on the header head's path, and the markers name all three. */
  ghost predicate HeadsAgree(db: Db, head: Header, block: Header, snap: Header)
  {
    && Stored(db.headers, head) && OnPath(db.headers, head, block) && OnPath(db.headers, head, snap)
    && db.headHeader == head.hash && db.headBlock == block.hash && db.headFast == snap.hash
  }

  ghost predicate LookupExact(db: Db, head: Header)
  {
    IsLookup(db.headers, db.bodies, db.lookup, head)
  }

  lemma BlocksAreHeaders(db: Db)
    requires db.bodies.Keys == db.headers.Keys
    ensures db.Blocks() == db.headers
  {
  }

  /** The block cannot clash with a stored one: equal hashes mean equal headers and bodies. */
  ghost predicate BlockAgrees(db: Db, block: Header, txs: seq<Hash>)
  {
    Agrees(db.headers, block) && (block.hash in db.bodies ==> db.bodies[block.hash] == txs)
  }

  ghost predicate BlockStored(was: Db, now: Db, block: Header, txs: seq<Hash>)
  {
    now == was.(headers := was.headers[block.hash := block], bodies := was.bodies[block.hash := txs], td := now.td)
  }

  /** The batch that stores a block: total difficulty, header and body together. */
  method StoreBlock(db: Db, block: Header, txs: seq<Hash>, td: nat) returns (r: Db)
    ensures BlockStored(db, r, block, txs) && r.td == db.td[block.hash := td]
  {
    var b1 := Queue(NewBatch, PutTd(block.hash, td));
    var b2 := Queue(b1, PutHeader(block));
    WriteQueue(db, NewBatch, b1.op);
    WriteQueue(db, b1, b2.op);
    r := Write(db, Queue(b2, PutBody(block.hash, txs)));
  }

  lemma StoreKeepsShape(headers: Store, bodies: map<Hash, seq<Hash>>, root: Hash, head: Header, block: Header, txs: seq<Hash>)
    requires Rooted(headers, root) && bodies.Keys == headers.Keys && Stored(headers, head)
    requires Agrees(headers, block) && block.number > 0
    ensures Rooted(headers[block.hash := block], root) && Stored(headers[block.hash := block], head)
    ensures bodies[block.hash := txs].Keys == headers[block.hash := block].Keys
    ensures Extends(headers, headers[block.hash := block])
  {
  }

  lemma ParentKnown(db: Db, block: Header)
    requires Sound(Tables(db.headers, db.td)) && Agrees(db.headers, block)
    requires GetTd(db, block.parentHash, block.number - 1).Some?
    ensures Ready(Tables(db.headers, db.td), db.td[block.parentHash], block)
  {
  }

  /** Storing a block above its parent's total difficulty keeps all total difficulties exact,
      whether or not its header was known. */
  lemma StoreSound(was: Db, now: Db, block: Header, txs: seq<Hash>, ptd: nat)
    requires Sound(Tables(was.headers, was.td)) && BlockAgrees(was, block, txs)
    requires GetTd(was, block.parentHash, block.number - 1) == Some(ptd)
    requires BlockStored(was, now, block, txs) && now.td == was.td[block.hash := ptd + block.difficulty]
    ensures Sound(Tables(now.headers, now.td))
  {
    ParentKnown(was, block);
    StoreHeaderSound(Tables(was.headers, was.td), ptd, block);
    assert Tables(now.headers, now.td) == StoreHeader(Tables(was.headers, was.td), block, ptd + block.difficulty);
  }

  lemma StoreConsistent(was: Db, now: Db, root: Hash, head: Header, block: Block)
    requires Consistent(was, root, head) && BlockAgrees(was, block.header, block.txs)
    requires GetTd(was, block.header.parentHash, block.header.number - 1).Some?
    requires BlockStored(was, now, block.header, block.txs) && Sound(Tables(now.headers, now.td))
    ensures Consistent(now, root, head) && Extends(was.headers, now.headers)
  {
    ParentKnown(was, block.header);
    StoreKeepsShape(was.headers, was.bodies, root, head, block.header, block.txs);
    PathExtends(was.headers, now.headers, was.canon, head);
  }

  /** Storing a block disturbs nothing about the current chain. */
  lemma AfterStore(was: Heads, mid: Heads, root: Hash, block: Block)
    requires Grounded(was, root) && BlockAgrees(was.db, block.header, block.txs)
    requires GetTd(was.db, block.header.parentHash, block.header.number - 1).Some?
    requires mid == was.(db := mid.db) && BlockStored(was.db, mid.db, block.header, block.txs)
    requires Sound(Tables(mid.db.headers, mid.db.td))
    ensures Grounded(mid, root) && HeadWeight(mid) == HeadWeight(was) && Extends(was.db.headers, mid.db.headers)
    ensures IndexCovers(was) ==> IndexCovers(mid)
    ensures LookupExact(was.db, was.block) ==> LookupExact(mid.db, was.block)
    ensures GetTd(mid.db, was.block.hash, was.block.number) == Some(HeadWeight(was))
    ensures GetTd(mid.db, block.header.hash, block.header.number) == Some(TotalDifficulty(mid.db.headers, block.header))
  {
    ParentKnown(was.db, block.header);
    StoreKeepsShape(was.db.headers, was.db.bodies, root, was.block, block.header, block.txs);
    TotalDifficultyExtends(was.db.headers, mid.db.headers, was.block);
    if LookupExact(was.db, was.block) {
      LookupExtends(was.db.headers, was.db.bodies, mid.db.headers, mid.db.bodies, was.db.lookup, was.block);
    }
    if IndexCovers(was) {
      var hi: nat :| Covers(was.db.headers, was.db.canon, was.block, hi);
      CoversExtends(was.db.headers, mid.db.headers, was.db.canon, was.block, hi);
    }
    StoredTd(mid.db, was.block);
    StoredTd(mid.db, block.header);
  }

  lemma AfterImport(was: Heads, mid: Heads, now: Heads, root: Hash, block: Block, ttd: Option<nat>,
                    preserve: Header -> bool, draw: bool, status: WriteStatus)
    requires Grounded(was, root) && BlockAgrees(was.db, block.header, block.txs)
    requires GetTd(was.db, block.header.parentHash, block.header.number - 1).Some?
    requires mid == was.(db := mid.db) && BlockStored(was.db, mid.db, block.header, block.txs)
    requires Sound(Tables(mid.db.headers, mid.db.td)) && status != NonStat
    requires ReorgNeeded(mid.db, was.block, block.header, ttd, preserve, draw) == Some(status == Canon)
    requires if status == Canon then KnownWritten(mid, now, block.header) && IndexMoved(mid, now, block.header) else now == mid
    ensures BlockImported(was, now, block, ttd, preserve, draw, Some(status))
  {
    assert ReorgNeeded(now.db, was.block, block.header, ttd, preserve, draw) ==
           ReorgNeeded(mid.db, was.block, block.header, ttd, preserve, draw);
    assert status == Canon ==> IndexMoved(was, now, block.header) by {
      AfterStore(was, mid, root, block);
    }
    assert LookupExact(was.db, was.block) && UniqueTxs(now.db.headers, now.db.bodies, now.block) ==>
             LookupExact(now.db, now.block) by {
      AfterStore(was, mid, root, block);
    }
    assert HeadWeight(now) >= HeadWeight(was) || (ttd.Some? && ttd.value <= HeadWeight(now)) by {
      AfterStore(was, mid, root, block);
    }
  }

  lemma StoredTd(db: Db, h: Header)
    requires Sound(Tables(db.headers, db.td)) && Stored(db.headers, h)
    ensures GetTd(db, h.hash, h.number) == Some(TotalDifficulty(db.headers, h))
  {
  }

  /** A reorganisation followed by the new head: the index is exact again. */
  lemma AfterHead(was: Heads, now: Db, root: Hash, block: Header)
    requires Grounded(was, root) && Stored(was.db.headers, block) && was.db.Blocks() == was.db.headers
    requires ReorgDone(was.db, now, was.block, block)
    ensures block.hash in now.bodies && HeadWritten(was, WithHead(now, block), block)
    ensures IndexCovers(was) ==>
              && IsPath(was.db.headers, WithHead(now, block).canon, block)
              && Covered(was.db.headers, WithHead(now, block).canon, block)
  {
    BlocksAreHeaders(now);
    var base := ReorgBase(was.db.headers, was.block, block).value;
    if IndexCovers(was) {
      HeadOnPath(now, base, block);
      AncestorTotal(was.db.headers, block, block.number);
      PathCovers(was.db.headers, WithHead(now, block).canon, block, block);
    }
    if LookupExact(was.db, was.block) && UniqueTxs(was.db.headers, was.db.bodies, block) {
      LookupOnHead(now, base, block);
    }
  }

  /** The head written over a child of the block head: exact unless something above is left over. */
  lemma ExtendHead(was: Heads, root: Hash, block: Header)
    requires Grounded(was, root) && Stored(was.db.headers, block) && was.db.Blocks() == was.db.headers
    requires block.parentHash == was.block.hash
    ensures block.hash in was.db.bodies && HeadWritten(was, WithHead(was.db, block), block)
    ensures IndexCovers(was) ==>
              && Covered(was.db.headers, WithHead(was.db, block).canon, block)
              && (IsPath(was.db.headers, WithHead(was.db, block).canon, block) <==> block.number + 1 !in was.db.canon)
  {
    assert Parent(was.db.headers, was.db.headers[block.hash]) == Some(was.block);
    if IndexCovers(was) {
      var hi: nat :| Covers(was.db.headers, was.db.canon, was.block, hi);
      ExtensionExact(was.db, hi, was.block, block);
    }
    if LookupExact(was.db, was.block) && UniqueTxs(was.db.headers, was.db.bodies, block) {
      LookupOnHead(was.db, was.block, block);
    }
  }

  /** What `writeHeadBlock` leaves: stored data untouched, the lookup index exact. */
  ghost predicate HeadWritten(was: Heads, now: Db, block: Header)
  {
    && now.headers == was.db.headers && now.bodies == was.db.bodies && now.td == was.db.td
    && (LookupExact(was.db, was.block) && UniqueTxs(was.db.headers, was.db.bodies, block) ==> LookupExact(now, block))
  }

  ghost predicate Wrote(was: Db, now: Db, h: Header, lo: nat, hi: nat, added: seq<Hash>)
  {
    BranchWritten(was, now, h, lo, hi) && TxSet(added) == BranchLookup(was, h, lo, hi).Keys
  }

  lemma WriteStep(was: Db, now: Db, newHead: Header, f: Fork, i: nat, added: seq<Hash>)
    requires Keyed(was.headers) && 1 <= i < |f.newChain|
    requires Branch(was.Blocks(), newHead, f.common.number, f.newChain)
    requires Wrote(was, now, newHead, f.common.number, newHead.number - i - 1, added)
    ensures f.newChain[i].hash in now.bodies
    ensures Wrote(was, WithHead(now, f.newChain[i]), newHead, f.common.number, newHead.number - i,
                  added + now.bodies[f.newChain[i].hash])
  {
    BranchBlock(was, newHead, f, i);
    var block := f.newChain[i];
    BranchWriteStep(was, now, newHead, f.common.number, block);
    assert TxSet(added + was.bodies[block.hash]) == TxSet(added) + TxSet(was.bodies[block.hash]);
  }

  lemma BranchBlock(db: Db, newHead: Header, f: Fork, i: nat)
    requires Keyed(db.headers) && 1 <= i < |f.newChain|
    requires Branch(db.Blocks(), newHead, f.common.number, f.newChain)
    ensures var block := f.newChain[i];
            && OnPath(db.Blocks(), newHead, block) && block.hash in db.bodies
            && f.common.number < block.number == newHead.number - i
  {
    assert Ancestor(db.Blocks(), newHead, newHead.number - i) == Some(f.newChain[i]);
    AncestorStored(db.Blocks(), newHead, newHead.number - i);
  }
}
