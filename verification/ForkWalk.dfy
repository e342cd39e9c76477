/** The walk of `BlockChain.reorg` to the common ancestor of the old and the new head. */
module ForkWalk {
  import opened Options
  import opened ChainTree
  import opened ChainDb

  /** What the walk gathers: both branches, listed from the head down to just above the
      common block, and the transactions of the old branch. */
  datatype Fork = Fork(
    common: Header, oldChain: seq<Header>, newChain: seq<Header>, deletedTxs: seq<Hash>)

  /** `a` and `b` have the same stored ancestor at height `n`. */
  predicate MeetAt(store: Store, a: Header, b: Header, n: nat)
  {
    Ancestor(store, a, n).Some? && Ancestor(store, a, n) == Ancestor(store, b, n)
  }

  ghost predicate Meet(store: Store, a: Header, b: Header)
  {
    exists n: nat :: MeetAt(store, a, b, n)
  }

  /** `chain` lists the ancestors of `h` from `h` itself down to height `low + 1`. */
  ghost predicate Branch(store: Store, h: Header, low: nat, chain: seq<Header>)
  {
    && low <= h.number && |chain| == h.number - low
    && forall i :: 0 <= i < |chain| ==> Ancestor(store, h, h.number - i) == Some(chain[i])
  }

  /** `txs` are the transactions of the ancestors of `h` above height `low`. */
  ghost predicate BranchTxs(db: Db, h: Header, low: nat, txs: seq<Hash>)
  {
    forall tx :: tx in txs <==> exists n: nat :: n > low && TxAt(db.Blocks(), db.bodies, h, n, tx)
  }

  ghost predicate IsFork(db: Db, a: Header, b: Header, f: Fork)
  {
    var blocks := db.Blocks();
    && MeetAt(blocks, a, b, f.common.number) && OnPath(blocks, a, f.common)
    && (forall n: nat :: n > f.common.number ==> !MeetAt(blocks, a, b, n))
    && Branch(blocks, a, f.common.number, f.oldChain)
    && Branch(blocks, b, f.common.number, f.newChain)
    && BranchTxs(db, a, f.common.number, f.deletedTxs)
  }

  /** Once the walk from either head leaves the store below `m`, nothing lower is shared. */
  lemma NoMeet(store: Store, a: Header, b: Header, walked: Header, m: nat)
    requires walked == a || walked == b
    requires 0 < m ==> m - 1 < walked.number && Ancestor(store, walked, m - 1).None?
    requires forall n: nat :: n >= m ==> !MeetAt(store, a, b, n)
    ensures !Meet(store, a, b)
  {
    forall n: nat ensures !MeetAt(store, a, b, n) {
      if n < m {
        AncestorMissing(store, walked, m - 1, n);
      }
    }
  }

  lemma NoMeetAtEnd(store: Store, a: Header, b: Header, walked: Header, end: Header)
    requires walked == a || walked == b
    requires OnPath(store, walked, end) && Parent(store, end).None?
    requires forall n: nat :: n >= end.number ==> !MeetAt(store, a, b, n)
    ensures !Meet(store, a, b)
  {
    if end.number > 0 {
      AncestorStep(store, walked, end.number);
    }
    NoMeet(store, a, b, walked, end.number);
  }

  lemma BranchTxsStep(db: Db, h: Header, block: Header, txs: seq<Hash>)
    requires OnPath(db.Blocks(), h, block) && block.hash in db.bodies
    requires BranchTxs(db, h, block.number, txs)
    requires block.number > 0
    ensures BranchTxs(db, h, block.number - 1, txs + db.bodies[block.hash])
  {
    var all := txs + db.bodies[block.hash];
    var blocks := db.Blocks();
    forall tx
      ensures tx in all <==> exists n: nat :: n > block.number - 1 && TxAt(blocks, db.bodies, h, n, tx)
    {
      if tx in db.bodies[block.hash] {
        assert TxAt(blocks, db.bodies, h, block.number, tx);
      }
      if tx in txs {
        var n: nat :| n > block.number && TxAt(blocks, db.bodies, h, n, tx);
      }
      if n: nat :| n > block.number - 1 && TxAt(blocks, db.bodies, h, n, tx) {
        if n > block.number {
          assert tx in txs;
        } else {
          assert n == block.number;
        }
      }
    }
  }

  /** The loop that walks the longer chain down to the height of the shorter one. */
  method WalkDown(db: Db, head: Header, target: nat)
    returns (end: Option<Header>, chain: seq<Header>, txs: seq<Hash>)
    requires Keyed(db.headers) && Stored(db.Blocks(), head) && target <= head.number
    ensures end == Ancestor(db.Blocks(), head, target)
    ensures end.Some? ==> Stored(db.Blocks(), end.value)
    ensures end.Some? ==> Branch(db.Blocks(), head, target, chain) && BranchTxs(db, head, target, txs)
  {
    var block := head;
    chain, txs := [], [];
    while block.number != target
      invariant target <= block.number && Stored(db.Blocks(), block)
      invariant OnPath(db.Blocks(), head, block)
      invariant Branch(db.Blocks(), head, block.number, chain)
      invariant BranchTxs(db, head, block.number, txs)
      decreases block.number
    {
      BranchTxsStep(db, head, block, txs);
      AncestorStep(db.Blocks(), head, block.number);
      chain, txs := chain + [block], txs + db.bodies[block.hash];
      var parent := Parent(db.Blocks(), block);
      if parent.None? {
        AncestorMissing(db.Blocks(), head, block.number - 1, target);
        return None, chain, txs;
      }
      block := parent.value;
    }
    end := Some(block);
  }

  /** The whole search.  It fails exactly when the old head is not a stored block or the two
      chains share no stored block; otherwise it finds the highest shared one. */
  method FindFork(db: Db, oldHead: Header, newHead: Header) returns (r: Option<Fork>)
    requires Keyed(db.headers) && Agrees(db.headers, oldHead) && Stored(db.Blocks(), newHead)
    ensures r.Some? <==> Stored(db.Blocks(), oldHead) && Meet(db.Blocks(), oldHead, newHead)
    ensures r.Some? ==> IsFork(db, oldHead, newHead, r.value)
  {
    ghost var blocks := db.Blocks();
    var found := Get(db.Blocks(), oldHead.hash, oldHead.number);
    if found.None? {
      return None;
    }
    var oldBlock, newBlock := found.value, newHead;
    var oldChain, newChain, deletedTxs := [], [], [];
    if oldBlock.number > newBlock.number {
      var end: Option<Header>;
      end, oldChain, deletedTxs := WalkDown(db, oldBlock, newBlock.number);
      if end.None? {
        NoMeet(blocks, oldHead, newHead, oldHead, newHead.number + 1);
        return None;
      }
      oldBlock := end.value;
    } else {
      var end: Option<Header>;
      var kept: seq<Hash>;
      end, newChain, kept := WalkDown(db, newBlock, oldBlock.number);
      if end.None? {
        NoMeet(blocks, oldHead, newHead, newHead, oldHead.number + 1);
        return None;
      }
      newBlock := end.value;
    }
    while oldBlock.hash != newBlock.hash
      invariant oldBlock.number == newBlock.number
      invariant Stored(blocks, oldBlock) && Stored(blocks, newBlock)
      invariant OnPath(blocks, oldHead, oldBlock) && OnPath(blocks, newHead, newBlock)
      invariant forall n: nat :: n > oldBlock.number ==> !MeetAt(blocks, oldHead, newHead, n)
      invariant Branch(blocks, oldHead, oldBlock.number, oldChain)
      invariant Branch(blocks, newHead, newBlock.number, newChain)
      invariant BranchTxs(db, oldHead, oldBlock.number, deletedTxs)
      decreases oldBlock.number
    {
      assert !MeetAt(blocks, oldHead, newHead, oldBlock.number);
      oldChain := oldChain + [oldBlock];
      newChain := newChain + [newBlock];
      var oldParent := Parent(db.Blocks(), oldBlock);
      if oldParent.None? {
        NoMeetAtEnd(blocks, oldHead, newHead, oldHead, oldBlock);
        return None;
      }
      AncestorStep(blocks, oldHead, oldBlock.number);
      AncestorStep(blocks, newHead, newBlock.number);
      BranchTxsStep(db, oldHead, oldBlock, deletedTxs);
      deletedTxs := deletedTxs + db.bodies[oldBlock.hash];
      var newParent := Parent(db.Blocks(), newBlock);
      if newParent.None? {
        NoMeetAtEnd(blocks, oldHead, newHead, newHead, newBlock);
        return None;
      }
      oldBlock, newBlock := oldParent.value, newParent.value;
    }
    assert MeetAt(blocks, oldHead, newHead, oldBlock.number);
    r := Some(Fork(oldBlock, oldChain, newChain, deletedTxs));
  }
}
