/** What `BlockChain.reorg` and `writeHeadBlock` leave in the canonical index and in the
    transaction lookup index. */
module ReorgEffect {
  import opened Options
  import opened ChainTree
  import opened ChainDb
  import opened ForkWalk
  import opened CanonicalIndex

  /** The height up to which `reorg` itself rewrites the index: it leaves the new head block
      to its caller, unless that block already is on the old chain. */
  function KeptHeight(f: Fork): (n: nat)
  {
    if |f.newChain| > 1 then f.newChain[1].number else f.common.number
  }

  /** The database after `reorg`, from the one before: new branch written, stale entries gone. */
  ghost predicate Reorganised(was: Db, mid: Db, now: Db, newHead: Header, f: Fork, added: seq<Hash>, hole: nat)
  {
    var kept := KeptHeight(f);
    && Overlaid(was, mid, newHead, f.common.number, kept)
    && (forall tx :: tx in added <==> TxBetween(was, newHead, f.common.number, kept, tx))
    && hole > kept && CanonicalHash(mid, hole) == NO_HASH
    && (forall n :: kept < n < hole ==> n in mid.canon)
    && now == mid.(lookup := mid.lookup - TxSet(Without(f.deletedTxs, added)),
                   canon := Cut(mid.canon, kept + 1, hole))
  }

  lemma KeptIsOnNewPath(blocks: Store, newHead: Header, f: Fork)
    requires Branch(blocks, newHead, f.common.number, f.newChain) && OnPath(blocks, newHead, f.common)
    ensures f.common.number <= KeptHeight(f) <= newHead.number <= KeptHeight(f) + 1
    ensures Ancestor(blocks, newHead, KeptHeight(f)).Some?
    ensures KeptHeight(f) < newHead.number ==>
              Ancestor(blocks, newHead, KeptHeight(f)) == Parent(blocks, newHead)
    ensures KeptHeight(f) == newHead.number ==> f.common == newHead
  {
    if |f.newChain| > 1 {
      assert Ancestor(blocks, newHead, newHead.number - 1) == Some(f.newChain[1]);
    }
    if KeptHeight(f) < newHead.number {
      AncestorStep(blocks, newHead, newHead.number);
    }
  }

  /** The index holds every height up to `hi` and nothing above; up to the height of `head` it is
      the path of `head`.  Above, anything may be left over. */
  ghost predicate Covers(store: Store, canon: map<nat, Hash>, head: Header, hi: nat)
  {
    && head.number <= hi && (forall n: nat :: n in canon <==> n <= hi) && (forall n: nat :: n in canon ==> canon[n] != NO_HASH)
    && (forall n: nat :: n <= head.number ==>
          Ancestor(store, head, n).Some? && canon[n] == Ancestor(store, head, n).value.hash)
  }

  ghost predicate Covered(store: Store, canon: map<nat, Hash>, head: Header)
  {
    exists hi: nat :: Covers(store, canon, head, hi)
  }

  /** The path of a head covers every block on it. */
  lemma PathCovers(store: Store, canon: map<nat, Hash>, top: Header, head: Header)
    requires Keyed(store) && Stored(store, top) && IsPath(store, canon, top) && OnPath(store, top, head)
    ensures Covers(store, canon, head, top.number) && Stored(store, head)
  {
    AncestorStored(store, top, head.number);
    forall n: nat | n in canon ensures canon[n] != NO_HASH {
      AncestorStored(store, top, n);
    }
    forall n: nat | n <= head.number
      ensures Ancestor(store, head, n).Some? && canon[n] == Ancestor(store, head, n).value.hash
    {
      AncestorTrans(store, top, head.number, n);
    }
  }

  /** It is the path of the head itself exactly when nothing is left over. */
  lemma CoversExactly(store: Store, canon: map<nat, Hash>, head: Header, hi: nat)
    requires Covers(store, canon, head, hi)
    ensures IsPath(store, canon, head) <==> head.number + 1 !in canon
  {
    assert head.number + 1 in canon <==> head.number < hi;
  }

  /** The index left by `reorg` is exactly the path of the new head, or of its parent when the head
      itself is still to be written, whatever was left over above the old head. */
  lemma IndexAfterReorg(was: Db, mid: Db, now: Db, hi: nat, oldHead: Header, newHead: Header,
                        f: Fork, added: seq<Hash>, hole: nat)
    requires Covers(was.Blocks(), was.canon, oldHead, hi)
    requires IsFork(was, oldHead, newHead, f) && Reorganised(was, mid, now, newHead, f, added, hole)
    ensures var kept := KeptHeight(f);
            Ancestor(was.Blocks(), newHead, kept).Some? &&
            IsPath(was.Blocks(), now.canon, Ancestor(was.Blocks(), newHead, kept).value)
  {
    var blocks, c, kept := was.Blocks(), f.common.number, KeptHeight(f);
    KeptIsOnNewPath(was.Blocks(), newHead, f);
    var base := Ancestor(blocks, newHead, kept).value;
    forall n: nat | n <= kept
      ensures n in now.canon
      ensures Ancestor(blocks, base, n).Some? && now.canon[n] == Ancestor(blocks, base, n).value.hash
    {
      AncestorTrans(blocks, newHead, kept, n);
      if n <= c {
        AncestorTrans(blocks, newHead, c, n);
        AncestorTrans(blocks, oldHead, c, n);
      }
    }
    forall n: nat | n > kept ensures n !in now.canon {
      assert n in now.canon ==> n in mid.canon && n >= hole && hole in was.canon;
    }
  }

  /** Likewise for the lookup index, including transactions that move between the branches. */
  lemma LookupAfterReorg(was: Db, mid: Db, now: Db, oldHead: Header, newHead: Header,
                         f: Fork, added: seq<Hash>, hole: nat)
    requires IsLookup(was.Blocks(), was.bodies, was.lookup, oldHead)
    requires UniqueTxs(was.Blocks(), was.bodies, newHead)
    requires IsFork(was, oldHead, newHead, f) && Reorganised(was, mid, now, newHead, f, added, hole)
    ensures var kept := KeptHeight(f);
            Ancestor(was.Blocks(), newHead, kept).Some? &&
            IsLookup(was.Blocks(), was.bodies, now.lookup, Ancestor(was.Blocks(), newHead, kept).value)
  {
    var blocks, c, kept := was.Blocks(), f.common.number, KeptHeight(f);
    KeptIsOnNewPath(was.Blocks(), newHead, f);
    var base := Ancestor(blocks, newHead, kept).value;
    forall n: nat, tx
      ensures TxAt(blocks, was.bodies, base, n, tx) <==> n <= kept && TxAt(blocks, was.bodies, newHead, n, tx)
    {
      if n <= kept { AncestorTrans(blocks, newHead, kept, n); }
    }
    forall n: nat, tx | n <= c
      ensures TxAt(blocks, was.bodies, oldHead, n, tx) <==> TxAt(blocks, was.bodies, newHead, n, tx)
    {
      AncestorTrans(blocks, newHead, c, n);
      AncestorTrans(blocks, oldHead, c, n);
    }
    forall tx | tx in now.lookup ensures TxAt(blocks, was.bodies, base, now.lookup[tx], tx) {
      LookupSound(was, mid, now, oldHead, newHead, f, added, hole, tx);
    }
    forall n: nat, tx | TxAt(blocks, was.bodies, base, n, tx) ensures tx in now.lookup && now.lookup[tx] == n {
      LookupComplete(was, mid, now, oldHead, newHead, f, added, hole, n, tx);
    }
  }

  lemma LookupSound(was: Db, mid: Db, now: Db, oldHead: Header, newHead: Header,
                    f: Fork, added: seq<Hash>, hole: nat, tx: Hash)
    requires IsLookup(was.Blocks(), was.bodies, was.lookup, oldHead)
    requires IsFork(was, oldHead, newHead, f) && Reorganised(was, mid, now, newHead, f, added, hole)
    requires forall n: nat, tx :: n <= f.common.number ==>
      (TxAt(was.Blocks(), was.bodies, oldHead, n, tx) <==> TxAt(was.Blocks(), was.bodies, newHead, n, tx))
    requires tx in now.lookup
    ensures now.lookup[tx] <= KeptHeight(f)
    ensures TxAt(was.Blocks(), was.bodies, newHead, now.lookup[tx], tx)
  {
    KeptIsOnNewPath(was.Blocks(), newHead, f);
    var c, kept := f.common.number, KeptHeight(f);
    if !TxBetween(was, newHead, c, kept, tx) {
      assert tx !in added && tx !in f.deletedTxs;
      assert TxAt(was.Blocks(), was.bodies, oldHead, was.lookup[tx], tx);
    }
  }

  lemma LookupComplete(was: Db, mid: Db, now: Db, oldHead: Header, newHead: Header,
                       f: Fork, added: seq<Hash>, hole: nat, n: nat, tx: Hash)
    requires IsLookup(was.Blocks(), was.bodies, was.lookup, oldHead)
    requires UniqueTxs(was.Blocks(), was.bodies, newHead)
    requires IsFork(was, oldHead, newHead, f) && Reorganised(was, mid, now, newHead, f, added, hole)
    requires forall n: nat, tx :: n <= f.common.number ==>
      (TxAt(was.Blocks(), was.bodies, oldHead, n, tx) <==> TxAt(was.Blocks(), was.bodies, newHead, n, tx))
    requires n <= KeptHeight(f) && TxAt(was.Blocks(), was.bodies, newHead, n, tx)
    ensures tx in now.lookup && now.lookup[tx] == n
  {
    var c, kept := f.common.number, KeptHeight(f);
    if n > c {
      assert TxBetween(was, newHead, c, kept, tx);
    } else {
      assert TxAt(was.Blocks(), was.bodies, oldHead, n, tx);
      assert tx !in f.deletedTxs;
      assert !TxBetween(was, newHead, c, kept, tx);
    }
  }

  /** Where `reorg` leaves the index: the new head if that is on the old chain, its parent
      otherwise. */
  function ReorgBase(blocks: Store, oldHead: Header, newHead: Header): (r: Option<Header>)
  {
    if OnPath(blocks, oldHead, newHead) then Some(newHead) else Parent(blocks, newHead)
  }

  lemma KeptIsBase(db: Db, oldHead: Header, newHead: Header, f: Fork)
    requires IsFork(db, oldHead, newHead, f)
    ensures ReorgBase(db.Blocks(), oldHead, newHead) == Ancestor(db.Blocks(), newHead, KeptHeight(f))
  {
    KeptIsOnNewPath(db.Blocks(), newHead, f);
    if OnPath(db.Blocks(), oldHead, newHead) {
      assert MeetAt(db.Blocks(), oldHead, newHead, newHead.number);
    }
  }

  /** The loop that writes the new chain ends on that base, if the base is not on the old chain;
      otherwise it writes nothing. */
  lemma LastWritten(db: Db, oldHead: Header, newHead: Header, f: Fork)
    requires IsFork(db, oldHead, newHead, f)
    ensures var base := ReorgBase(db.Blocks(), oldHead, newHead);
            && base.Some? && (|f.newChain| > 1 <==> !OnPath(db.Blocks(), oldHead, base.value))
            && (|f.newChain| > 1 ==> base == Some(f.newChain[1]))
  {
    var blocks := db.Blocks();
    KeptIsBase(db, oldHead, newHead, f);
    KeptIsOnNewPath(blocks, newHead, f);
    if |f.newChain| > 1 {
      assert Ancestor(blocks, newHead, newHead.number - 1) == Some(f.newChain[1]);
      assert OnPath(blocks, oldHead, f.newChain[1]) ==> MeetAt(blocks, oldHead, newHead, newHead.number - 1);
    }
  }

  lemma AfterBranch(was: Db, now: Db, oldHead: Header, newHead: Header, f: Fork, added: seq<Hash>)
    requires IsFork(was, oldHead, newHead, f)
    requires BranchWritten(was, now, newHead, f.common.number, KeptHeight(f))
    requires TxSet(added) == BranchLookup(was, newHead, f.common.number, KeptHeight(f)).Keys
    ensures Overlaid(was, now, newHead, f.common.number, KeptHeight(f))
    ensures forall tx :: tx in added <==> TxBetween(was, newHead, f.common.number, KeptHeight(f), tx)
  {
    var c, kept := f.common.number, KeptHeight(f);
    KeptIsOnNewPath(was.Blocks(), newHead, f);
    if c < kept {
      assert Ancestor(was.Blocks(), newHead, newHead.number - (newHead.number - c - 1)) == Some(f.newChain[newHead.number - c - 1]);
    }
    WrittenIsOverlaid(was, now, newHead, c, kept);
    forall tx ensures tx in added <==> TxBetween(was, newHead, c, kept, tx) {
      BranchLookupAt(was, newHead, c, kept, tx);
      assert tx in added <==> tx in TxSet(added);
    }
  }

  /** `now` follows `was` by a reorganisation from `oldHead` to `newHead`: index and lookup index
      end at the reorganisation's base. */
  ghost predicate ReorgDone(was: Db, now: Db, oldHead: Header, newHead: Header)
  {
    var blocks, base := was.Blocks(), ReorgBase(was.Blocks(), oldHead, newHead);
    && now.headers == was.headers && now.bodies == was.bodies && now.td == was.td
    && base.Some?
    && (Covered(blocks, was.canon, oldHead) ==> IsPath(blocks, now.canon, base.value))
    && (IsLookup(blocks, was.bodies, was.lookup, oldHead) && UniqueTxs(blocks, was.bodies, newHead) ==>
          IsLookup(blocks, was.bodies, now.lookup, base.value))
  }

  lemma AfterReorg(was: Db, mid: Db, now: Db, oldHead: Header, newHead: Header,
                   f: Fork, added: seq<Hash>, hole: nat)
    requires Keyed(was.headers) && Stored(was.Blocks(), newHead) && IsFork(was, oldHead, newHead, f)
    requires BranchWritten(was, mid, newHead, f.common.number, KeptHeight(f))
    requires TxSet(added) == BranchLookup(was, newHead, f.common.number, KeptHeight(f)).Keys
    requires hole > KeptHeight(f) && CanonicalHash(mid, hole) == NO_HASH
    requires forall n :: KeptHeight(f) < n < hole ==> n in mid.canon
    requires now == mid.(lookup := mid.lookup - TxSet(Without(f.deletedTxs, added)),
                         canon := Cut(mid.canon, KeptHeight(f) + 1, hole))
    ensures ReorgDone(was, now, oldHead, newHead)
  {
    var blocks := was.Blocks();
    KeptIsBase(was, oldHead, newHead, f);
    KeptIsOnNewPath(blocks, newHead, f);
    AfterBranch(was, mid, oldHead, newHead, f, added);
    if Covered(blocks, was.canon, oldHead) {
      var hi: nat :| Covers(blocks, was.canon, oldHead, hi);
      IndexAfterReorg(was, mid, now, hi, oldHead, newHead, f, added, hole);
    }
    if IsLookup(blocks, was.bodies, was.lookup, oldHead) && UniqueTxs(blocks, was.bodies, newHead) {
      LookupAfterReorg(was, mid, now, oldHead, newHead, f, added, hole);
    }
  }

  // ----- the new head on top

  /** Writing a block on top of the path of its parent, or again on its own path, gives the
      path of the block. */
  lemma HeadOnPath(db: Db, base: Header, block: Header)
    requires IsPath(db.Blocks(), db.canon, base) && block.hash in db.bodies
    requires base == block || Parent(db.Blocks(), block) == Some(base)
    ensures IsPath(db.Blocks(), WithHead(db, block).canon, block)
  {
    var blocks := db.Blocks();
    if base != block {
      forall n: nat | n < block.number ensures Ancestor(blocks, block, n) == Ancestor(blocks, base, n) {}
    }
  }

  lemma LookupOnHead(db: Db, base: Header, block: Header)
    requires IsLookup(db.Blocks(), db.bodies, db.lookup, base) && UniqueTxs(db.Blocks(), db.bodies, block)
    requires block.hash in db.bodies
    requires base == block || Parent(db.Blocks(), block) == Some(base)
    ensures IsLookup(db.Blocks(), db.bodies, WithHead(db, block).lookup, block)
  {
    var blocks, lookup := db.Blocks(), WithHead(db, block).lookup;
    forall n: nat, tx
      ensures TxAt(blocks, db.bodies, block, n, tx) <==>
              (n < block.number && TxAt(blocks, db.bodies, base, n, tx)) || (n == block.number && tx in db.bodies[block.hash])
    {
    }
    forall tx | tx in lookup ensures TxAt(blocks, db.bodies, block, lookup[tx], tx) {
      assert tx in db.bodies[block.hash] || TxAt(blocks, db.bodies, base, db.lookup[tx], tx);
    }
    forall n: nat, tx | TxAt(blocks, db.bodies, block, n, tx) ensures tx in lookup && lookup[tx] == n {
      if tx in db.bodies[block.hash] {
        assert TxAt(blocks, db.bodies, block, block.number, tx);
      }
    }
  }

  /** When the new block is a child of the current block no reorganisation runs.  If something was
      left over in the index above the current block (as after a rewind to a block whose state was
      missing), the index still covers the new block, and it is its path exactly when nothing was
      left over above the new block. */
  lemma ExtensionExact(db: Db, hi: nat, current: Header, block: Header)
    requires Covers(db.Blocks(), db.canon, current, hi)
    requires Parent(db.Blocks(), block) == Some(current) && block.hash in db.bodies && block.hash != NO_HASH
    ensures Covers(db.Blocks(), WithHead(db, block).canon, block, if hi < block.number then block.number else hi)
    ensures IsPath(db.Blocks(), WithHead(db, block).canon, block) <==> block.number + 1 !in db.canon
  {
    var blocks, canon, top := db.Blocks(), WithHead(db, block).canon, if hi < block.number then block.number else hi;
    forall n: nat | n < block.number
      ensures Ancestor(blocks, block, n) == Ancestor(blocks, current, n) && canon[n] == db.canon[n]
    {
    }
    CoversExactly(blocks, canon, block, top);
  }

  /** Storing more headers changes nothing about what the index covers. */
  lemma CoversExtends(store: Store, more: Store, canon: map<nat, Hash>, head: Header, hi: nat)
    requires Extends(store, more) && Covers(store, canon, head, hi)
    ensures Covers(more, canon, head, hi)
  {
    forall n: nat | n <= head.number ensures Ancestor(more, head, n) == Ancestor(store, head, n) {
      AncestorExtends(store, more, head, n);
    }
  }

  // ----- growing the store

  /** In a closed store with one root any two chains share a block, so `reorg` cannot fail. */
  lemma AlwaysMeet(store: Store, root: Hash, a: Header, b: Header)
    requires Closed(store) && Rooted(store, root) && Stored(store, a) && Stored(store, b)
    ensures Meet(store, a, b)
  {
    AncestorTotal(store, a, 0);
    AncestorTotal(store, b, 0);
    assert MeetAt(store, a, b, 0);
  }

  /** Storing more blocks changes neither the chain of a stored head nor its transactions. */
  lemma TxAtExtends(store: Store, bodies: map<Hash, seq<Hash>>, more: Store, moreBodies: map<Hash, seq<Hash>>,
                    h: Header, n: nat, tx: Hash)
    requires Closed(store) && Stored(store, h) && Extends(store, more)
    requires bodies.Keys == store.Keys && forall hash :: hash in bodies ==> hash in moreBodies && moreBodies[hash] == bodies[hash]
    ensures TxAt(store, bodies, h, n, tx) <==> TxAt(more, moreBodies, h, n, tx)
  {
    if n <= h.number {
      AncestorTotal(store, h, n);
      AncestorExtends(store, more, h, n);
    }
  }

  lemma LookupExtends(store: Store, bodies: map<Hash, seq<Hash>>, more: Store, moreBodies: map<Hash, seq<Hash>>,
                      lookup: map<Hash, nat>, h: Header)
    requires Closed(store) && Stored(store, h) && Extends(store, more)
    requires bodies.Keys == store.Keys && forall hash :: hash in bodies ==> hash in moreBodies && moreBodies[hash] == bodies[hash]
    requires IsLookup(store, bodies, lookup, h)
    ensures IsLookup(more, moreBodies, lookup, h)
  {
    forall n: nat, tx ensures TxAt(store, bodies, h, n, tx) <==> TxAt(more, moreBodies, h, n, tx) {
      TxAtExtends(store, bodies, more, moreBodies, h, n, tx);
    }
  }

  lemma UniqueRestricts(store: Store, bodies: map<Hash, seq<Hash>>, more: Store, moreBodies: map<Hash, seq<Hash>>, h: Header)
    requires Closed(store) && Stored(store, h) && Extends(store, more)
    requires bodies.Keys == store.Keys && forall hash :: hash in bodies ==> hash in moreBodies && moreBodies[hash] == bodies[hash]
    requires UniqueTxs(more, moreBodies, h)
    ensures UniqueTxs(store, bodies, h)
  {
    forall n: nat, tx ensures TxAt(store, bodies, h, n, tx) <==> TxAt(more, moreBodies, h, n, tx) {
      TxAtExtends(store, bodies, more, moreBodies, h, n, tx);
    }
  }
}
