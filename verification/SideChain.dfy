/** The loop of `insertSideChain` that stores a side chain with its total difficulties. */
module SideChain {
  import opened Options
  import opened ChainTree
  import opened ChainDb
  import opened HeaderImport
  import opened HeaderReorg
  import opened ReorgEffect
  import opened BlockChains

  function HeadersOf(blocks: seq<Block>): (r: seq<Header>)
  {
    seq(|blocks|, i requires 0 <= i < |blocks| => blocks[i].header)
  }

  /** Consecutive blocks with distinct hashes, as `InsertChain` checks. */
  ghost predicate Linked(blocks: seq<Block>)
  {
    && Contiguous(HeadersOf(blocks))
    && (forall i, j :: 0 <= i < j < |blocks| ==> blocks[i].header.hash != blocks[j].header.hash)
  }

  /** The store with the first `k` blocks added. */
  function WithBlocks(store: Store, blocks: seq<Block>, k: nat): (r: Store)
    requires k <= |blocks|
  {
    if k == 0 then store
    else WithBlocks(store, blocks, k - 1)[blocks[k - 1].header.hash := blocks[k - 1].header]
  }

  function WithBodies(bodies: map<Hash, seq<Hash>>, blocks: seq<Block>, k: nat): (r: map<Hash, seq<Hash>>)
    requires k <= |blocks|
  {
    if k == 0 then bodies
    else WithBodies(bodies, blocks, k - 1)[blocks[k - 1].header.hash := blocks[k - 1].txs]
  }

  /** The database with the first `k` blocks added. */
  function WithSide(db: Db, blocks: seq<Block>, k: nat): (r: Db)
    requires k <= |blocks|
  {
    db.(headers := WithBlocks(db.headers, blocks, k), bodies := WithBodies(db.bodies, blocks, k))
  }

  /** At its height, not above the current block, another canonical block has the same state root. */
  predicate Repeats(db: Db, current: Header, block: Header)
  {
    var canonical := Get(db.Blocks(), CanonicalHash(db, block.number), block.number);
    current.number >= block.number && canonical.Some? && canonical.value.hash != block.hash && canonical.value.root == block.root
  }

  /** The `k`-th block repeats a canonical state root when its turn comes. */
  predicate AttacksAt(db: Db, current: Header, blocks: seq<Block>, k: nat)
    requires k < |blocks|
  {
    Repeats(WithSide(db, blocks, k), current, blocks[k].header)
  }

  /** That is: where the index covers the current block, its ancestor at that height is another block
      with the same state root. */
  lemma RepeatsOnChain(db: Db, current: Header, block: Header)
    requires Keyed(db.headers) && Stored(db.headers, current) && db.bodies.Keys == db.headers.Keys
    requires Covered(db.headers, db.canon, current)
    ensures Repeats(db, current, block) <==>
              && block.number <= current.number && Ancestor(db.headers, current, block.number).Some?
              && Ancestor(db.headers, current, block.number).value.hash != block.hash
              && Ancestor(db.headers, current, block.number).value.root == block.root
  {
    if block.number <= current.number {
      AncestorStored(db.headers, current, block.number);
    }
  }

  /** The stored blocks are in the store, with their transactions; nothing else changed. */
  lemma {:induction false} SideHolds(db: Db, blocks: seq<Block>, k: nat, i: nat)
    requires i < k <= |blocks| && forall i, j :: 0 <= i < j < |blocks| ==> blocks[i].header.hash != blocks[j].header.hash
    ensures var r, b := WithSide(db, blocks, k), blocks[i];
            Stored(r.headers, b.header) && b.header.hash in r.bodies && r.bodies[b.header.hash] == b.txs
    decreases k
  {
    if i < k - 1 {
      SideHolds(db, blocks, k - 1, i);
    }
  }

  /** Exactly the first `k` side-chain blocks were added, and the rest cannot clash. */
  ghost predicate SideStored(was: Db, now: Db, blocks: seq<Block>, k: nat)
    requires k <= |blocks|
  {
    && now == WithSide(was, blocks, k).(td := now.td)
    && (forall i :: k <= i < |blocks| ==> BlockAgrees(now, blocks[i].header, blocks[i].txs))
    && (k > 0 ==> Stored(now.headers, blocks[k - 1].header))
  }

  /** The side-chain import before block `k`: total difficulties are exact, the running total is
      that of the block before, and a consistent database is still consistent. */
  ghost predicate SideImport(was: Db, now: Db, root: Hash, current: Header, blocks: seq<Block>, k: nat, externTd: Option<nat>)
    requires k <= |blocks|
  {
    && Sound(Tables(now.headers, now.td)) && SideStored(was, now, blocks, k)
    && (Consistent(was, root, current) ==> Consistent(now, root, current))
    && if k == 0 then externTd.None?
       else externTd == Some(TotalDifficulty(now.headers, blocks[k - 1].header))
  }

  lemma SideParentTd(was: Db, now: Db, root: Hash, current: Header, blocks: seq<Block>, k: nat, externTd: Option<nat>)
    requires Linked(blocks) && k < |blocks| && SideImport(was, now, root, current, blocks, k, externTd)
    requires Get(was.headers, blocks[0].header.parentHash, blocks[0].header.number - 1).Some?
    ensures var block := blocks[k].header;
            && GetTd(now, block.parentHash, block.number - 1).Some?
            && (externTd.Some? ==> externTd == GetTd(now, block.parentHash, block.number - 1))
  {
    if k > 0 {
      var parent := blocks[k - 1].header;
      assert HeadersOf(blocks)[k] == blocks[k].header && HeadersOf(blocks)[k - 1] == parent;
      assert blocks[k].header.parentHash == parent.hash && blocks[k].header.number == parent.number + 1;
      StoredTd(now, parent);
    }
  }

  lemma SideStep(was: Db, now: Db, next: Db, blocks: seq<Block>, k: nat)
    requires Linked(blocks) && k < |blocks| && SideStored(was, now, blocks, k)
    requires (next == now && Stored(now.headers, blocks[k].header) && blocks[k].header.hash in now.bodies)
             || BlockStored(now, next, blocks[k].header, blocks[k].txs)
    ensures SideStored(was, next, blocks, k + 1)
  {
    assert next.headers == WithBlocks(was.headers, blocks, k + 1);
    assert next.bodies == WithBodies(was.bodies, blocks, k + 1);
  }

  /** A known block leaves everything in place; its own total difficulty carries on. */
  lemma KnownKeeps(was: Db, now: Db, root: Hash, current: Header, blocks: seq<Block>, k: nat, externTd: Option<nat>)
    requires Linked(blocks) && k < |blocks| && SideImport(was, now, root, current, blocks, k, externTd)
    requires Get(now.Blocks(), blocks[k].header.hash, blocks[k].header.number).Some?
    ensures Stored(now.headers, blocks[k].header)
    ensures SideImport(was, now, root, current, blocks, k + 1, GetTd(now, blocks[k].header.hash, blocks[k].header.number))
  {
    SideStep(was, now, now, blocks, k);
    StoredTd(now, blocks[k].header);
  }

  lemma StoredKeeps(was: Db, now: Db, next: Db, root: Hash, current: Header, blocks: seq<Block>, k: nat,
                    externTd: Option<nat>, ptd: nat)
    requires Linked(blocks) && k < |blocks| && SideImport(was, now, root, current, blocks, k, externTd)
    requires GetTd(now, blocks[k].header.parentHash, blocks[k].header.number - 1) == Some(ptd)
    requires BlockStored(now, next, blocks[k].header, blocks[k].txs)
    requires next.td == now.td[blocks[k].header.hash := ptd + blocks[k].header.difficulty]
    ensures SideImport(was, next, root, current, blocks, k + 1, Some(ptd + blocks[k].header.difficulty))
  {
    var block, txs := blocks[k].header, blocks[k].txs;
    StoreSound(now, next, block, txs, ptd);
    SideStep(was, now, next, blocks, k);
    StoredTd(next, block);
    if Consistent(now, root, current) {
      StoreConsistent(now, next, root, current, blocks[k]);
    }
  }

  /** A block off the canonical chain: add its difficulty to the running total, or to its parent's
      total if there is none yet, and store it unless it is known. */
  method ExtendSide(ghost was: Db, now: Db, ghost root: Hash, ghost current: Header, blocks: seq<Block>, k: nat,
                    externTd: Option<nat>)
    returns (next: Db, td: Option<nat>)
    requires Linked(blocks) && k < |blocks| && SideImport(was, now, root, current, blocks, k, externTd)
    requires Get(was.headers, blocks[0].header.parentHash, blocks[0].header.number - 1).Some?
    ensures SideImport(was, next, root, current, blocks, k + 1, td)
  {
    var block := blocks[k].header;
    SideParentTd(was, now, root, current, blocks, k, externTd);
    next, td := now, externTd;
    if externTd.None? {
      td := GetTd(now, block.parentHash, block.number - 1);
    }
    ghost var ptd := td.value;
    td := Some(td.value + block.difficulty);
    if Get(now.Blocks(), block.hash, block.number).None? {
      next := StoreBlock(now, block, blocks[k].txs, td.value);
      StoredKeeps(was, now, next, root, current, blocks, k, externTd, ptd);
    } else {
      KnownKeeps(was, now, root, current, blocks, k, externTd);
      TdStep(now.headers, now.td, block);
    }
  }

  method SideBlock(ghost was: Db, now: Db, ghost root: Hash, current: Header, blocks: seq<Block>, k: nat, externTd: Option<nat>)
    returns (next: Db, td: Option<nat>, attacked: bool)
    requires Linked(blocks) && k < |blocks| && SideImport(was, now, root, current, blocks, k, externTd)
    requires Get(was.headers, blocks[0].header.parentHash, blocks[0].header.number - 1).Some?
    ensures attacked <==> AttacksAt(was, current, blocks, k)
    ensures attacked ==> next == now && td == externTd
    ensures !attacked ==> SideImport(was, next, root, current, blocks, k + 1, td)
  {
    var block := blocks[k].header;
    next, td, attacked := now, externTd, false;
    if current.number >= block.number {
      var canonical := Get(now.Blocks(), CanonicalHash(now, block.number), block.number);
      if canonical.Some? && canonical.value.hash == block.hash {
        // a re-import of a canonical block
        KnownKeeps(was, now, root, current, blocks, k, externTd);
        td := GetTd(now, block.hash, block.number);
        return;
      }
      if canonical.Some? && canonical.value.root == block.root {
        attacked := true;
        return;
      }
    }
    next, td := ExtendSide(was, now, root, current, blocks, k, externTd);
  }

  /** Side-chain blocks are stored without execution.  The running total restarts from the
      database at every re-imported canonical block and is otherwise carried along, and still
      every stored total difficulty is exact; a block that repeats a canonical state root at its
      height stops the import. */
  method InsertSideChain(db: Db, current: Header, blocks: seq<Block>, ghost root: Hash)
    returns (r: Db, externTd: Option<nat>, attacked: bool, imported: nat)
    requires Sound(Tables(db.headers, db.td)) && Linked(blocks)
    requires forall i :: 0 <= i < |blocks| ==> BlockAgrees(db, blocks[i].header, blocks[i].txs)
    // the iterator reports a pruned, hence known, ancestor for the first block
    requires blocks != [] ==> Get(db.headers, blocks[0].header.parentHash, blocks[0].header.number - 1).Some?
    ensures imported <= |blocks| && (attacked <==> imported < |blocks|)
    ensures attacked ==> AttacksAt(db, current, blocks, imported)
    ensures forall k :: 0 <= k < imported ==> !AttacksAt(db, current, blocks, k)
    ensures SideImport(db, r, root, current, blocks, imported, externTd)
    ensures forall k :: 0 <= k < imported ==>
              Stored(r.headers, blocks[k].header) && (blocks[k].header.hash, blocks[k].txs) in r.bodies.Items
  {
    r, externTd, attacked, imported := db, None, false, 0;
    while imported < |blocks| && !attacked
      invariant imported <= |blocks| && (attacked ==> imported < |blocks|)
      invariant SideImport(db, r, root, current, blocks, imported, externTd)
      invariant attacked ==> AttacksAt(db, current, blocks, imported)
      invariant forall k :: 0 <= k < imported ==> !AttacksAt(db, current, blocks, k)
      decreases |blocks| - imported, !attacked
    {
      r, externTd, attacked := SideBlock(db, r, root, current, blocks, imported, externTd);
      if !attacked {
        imported := imported + 1;
      }
    }
    forall k | 0 <= k < imported
      ensures Stored(r.headers, blocks[k].header) && (blocks[k].header.hash, blocks[k].txs) in r.bodies.Items
    {
      SideHolds(db, blocks, imported, k);
    }
  }
}
