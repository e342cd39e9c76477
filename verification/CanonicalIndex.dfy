/** How writing head blocks and dropping stale entries changes the canonical index and the
    transaction lookup index. */
module CanonicalIndex {
  import opened ChainTree
  import opened ChainDb

  /** `writeHeadBlock` on the database: index, lookup entries and all three markers. */
  function WithHead(db: Db, block: Header): (r: Db)
    requires block.hash in db.bodies
  {
    db.(canon := db.canon[block.number := block.hash],
        lookup := db.lookup + LookupsOf(db.bodies[block.hash], block.number),
        headHeader := block.hash, headFast := block.hash, headBlock := block.hash)
  }

  method WriteHeadBatch(db: Db, block: Header) returns (r: Db)
    requires block.hash in db.bodies
    ensures r == WithHead(db, block)
  {
    var b1 := Queue(NewBatch, HeadHeader(block.hash));
    var b2 := Queue(b1, HeadFast(block.hash));
    var b3 := Queue(b2, PutCanon(block.number, block.hash));
    var b4 := Queue(b3, PutLookups(db.bodies[block.hash], block.number));
    var batch := Queue(b4, HeadBlock(block.hash));
    WriteQueue(db, NewBatch, b1.op);
    WriteQueue(db, b1, b2.op);
    WriteQueue(db, b2, b3.op);
    WriteQueue(db, b3, b4.op);
    r := Write(db, batch);
  }

  /** Some ancestor of `h` at a height in `(lo, hi]` holds `tx`. */
  ghost predicate TxBetween(db: Db, h: Header, lo: nat, hi: nat, tx: Hash)
  {
    exists n: nat :: lo < n <= hi && TxAt(db.Blocks(), db.bodies, h, n, tx)
  }

  ghost predicate OverlaidLookup(was: Db, lookup: map<Hash, nat>, h: Header, lo: nat, hi: nat)
  {
    && (forall tx :: tx in lookup <==> tx in was.lookup || TxBetween(was, h, lo, hi, tx))
    && (forall tx :: TxBetween(was, h, lo, hi, tx) ==>
          lo < lookup[tx] <= hi && TxAt(was.Blocks(), was.bodies, h, lookup[tx], tx))
    && (forall tx :: tx in lookup && !TxBetween(was, h, lo, hi, tx) ==> lookup[tx] == was.lookup[tx])
  }

  /** `now` is `was` after writing, as head blocks, the ancestors of `h` at heights `(lo, hi]`. */
  ghost predicate Overlaid(was: Db, now: Db, h: Header, lo: nat, hi: nat)
  {
    && now.headers == was.headers && now.bodies == was.bodies && now.td == was.td
    && Painted(was.Blocks(), was.canon, now.canon, h, lo, hi)
    && OverlaidLookup(was, now.lookup, h, lo, hi)
  }

  /** The index entries of the ancestors of `h` at heights `(lo, hi]`. */
  function BranchIndex(blocks: Store, h: Header, lo: nat, hi: nat): (r: map<nat, Hash>)
  {
    if hi <= lo then map[]
    else
      var a, below := Ancestor(blocks, h, hi), BranchIndex(blocks, h, lo, hi - 1);
      if a.Some? then below[hi := a.value.hash] else below
  }

  /** The lookup entries of their transactions; a later block overrides an earlier one. */
  function BranchLookup(db: Db, h: Header, lo: nat, hi: nat): (r: map<Hash, nat>)
  {
    if hi <= lo then map[]
    else
      var a, below := Ancestor(db.Blocks(), h, hi), BranchLookup(db, h, lo, hi - 1);
      if a.Some? && a.value.hash in db.bodies then below + LookupsOf(db.bodies[a.value.hash], hi) else below
  }

  /** `was` after writing, as head blocks, the ancestors of `h` at heights `(lo, hi]`. */
  ghost predicate BranchWritten(was: Db, now: Db, h: Header, lo: nat, hi: nat)
  {
    && now.headers == was.headers && now.bodies == was.bodies && now.td == was.td
    && now.canon == was.canon + BranchIndex(was.Blocks(), h, lo, hi)
    && now.lookup == was.lookup + BranchLookup(was, h, lo, hi)
  }

  function TxSet(txs: seq<Hash>): (r: set<Hash>)
  {
    set tx | tx in txs
  }

  lemma UnionAssoc<K, V>(a: map<K, V>, b: map<K, V>, c: map<K, V>)
    ensures (a + b) + c == a + (b + c)
  {
  }

  lemma UnionUpdate<K, V>(a: map<K, V>, b: map<K, V>, k: K, v: V)
    ensures (a + b)[k := v] == a + b[k := v]
  {
  }

  lemma BranchWriteStep(was: Db, now: Db, h: Header, lo: nat, block: Header)
    requires lo < block.number && BranchWritten(was, now, h, lo, block.number - 1)
    requires OnPath(was.Blocks(), h, block) && block.hash in was.bodies
    ensures BranchWritten(was, WithHead(now, block), h, lo, block.number)
    ensures BranchLookup(was, h, lo, block.number).Keys ==
            BranchLookup(was, h, lo, block.number - 1).Keys + TxSet(was.bodies[block.hash])
  {
    UnionUpdate(was.canon, BranchIndex(was.Blocks(), h, lo, block.number - 1), block.number, block.hash);
    UnionAssoc(was.lookup, BranchLookup(was, h, lo, block.number - 1), LookupsOf(was.bodies[block.hash], block.number));
  }

  lemma {:induction false} BranchIndexAt(blocks: Store, h: Header, lo: nat, hi: nat, n: nat)
    requires hi <= h.number && (lo < hi ==> Ancestor(blocks, h, lo + 1).Some?)
    ensures n in BranchIndex(blocks, h, lo, hi) <==> lo < n <= hi
    ensures lo < n <= hi ==>
              Ancestor(blocks, h, n).Some? && BranchIndex(blocks, h, lo, hi)[n] == Ancestor(blocks, h, n).value.hash
    decreases hi
  {
    if lo < hi {
      if Ancestor(blocks, h, hi).None? {
        AncestorMissing(blocks, h, hi, lo + 1);
      }
      BranchIndexAt(blocks, h, lo, hi - 1, n);
    }
  }

  lemma {:induction false} BranchLookupAt(db: Db, h: Header, lo: nat, hi: nat, tx: Hash)
    ensures tx in BranchLookup(db, h, lo, hi) <==> TxBetween(db, h, lo, hi, tx)
    ensures tx in BranchLookup(db, h, lo, hi) ==>
              var n := BranchLookup(db, h, lo, hi)[tx];
              lo < n <= hi && TxAt(db.Blocks(), db.bodies, h, n, tx)
    decreases hi
  {
    if lo < hi {
      BranchLookupAt(db, h, lo, hi - 1, tx);
      if TxAt(db.Blocks(), db.bodies, h, hi, tx) {
        assert TxBetween(db, h, lo, hi, tx);
      } else if TxBetween(db, h, lo, hi, tx) {
        var n: nat :| lo < n <= hi && TxAt(db.Blocks(), db.bodies, h, n, tx);
        assert n <= hi - 1;
      }
    }
  }

  lemma WrittenIsOverlaid(was: Db, now: Db, h: Header, lo: nat, hi: nat)
    requires BranchWritten(was, now, h, lo, hi)
    requires hi <= h.number && (lo < hi ==> Ancestor(was.Blocks(), h, lo + 1).Some?)
    ensures Overlaid(was, now, h, lo, hi)
  {
    forall n: nat
      ensures n in BranchIndex(was.Blocks(), h, lo, hi) <==> lo < n <= hi
      ensures lo < n <= hi ==>
                Ancestor(was.Blocks(), h, n).Some? && now.canon[n] == Ancestor(was.Blocks(), h, n).value.hash
    {
      BranchIndexAt(was.Blocks(), h, lo, hi, n);
    }
    forall tx
      ensures tx in BranchLookup(was, h, lo, hi) <==> TxBetween(was, h, lo, hi, tx)
      ensures TxBetween(was, h, lo, hi, tx) ==>
                lo < now.lookup[tx] <= hi && TxAt(was.Blocks(), was.bodies, h, now.lookup[tx], tx)
    {
      BranchLookupAt(was, h, lo, hi, tx);
    }
  }

  /** The hashes of `a` that are not in `b`, in order and with repetitions. */
  function Without(a: seq<Hash>, b: seq<Hash>): (keep: seq<Hash>)
    ensures forall x :: x in keep <==> x in a && x !in b
  {
    if a == [] then []
    else
      var rest, last := Without(a[..|a| - 1], b), a[|a| - 1];
      assert a == a[..|a| - 1] + [last];
      if last in b then rest else rest + [last]
  }

  /** `types.HashDifference`: collect what to remove, then keep the rest. */
  method HashDifference(a: seq<Hash>, b: seq<Hash>) returns (keep: seq<Hash>)
    ensures keep == Without(a, b)
  {
    var remove: set<Hash> := {};
    for i := 0 to |b|
      invariant forall x :: x in remove <==> x in b[..i]
    {
      remove := remove + {b[i]};
    }
    keep := [];
    for i := 0 to |a|
      invariant keep == Without(a[..i], b)
    {
      assert a[..i + 1][..i] == a[..i];
      if a[i] !in remove {
        keep := keep + [a[i]];
      }
    }
    assert a[..|a|] == a;
  }

  ghost function HeightsFrom(canon: map<nat, Hash>, i: nat): (r: set<nat>)
  {
    set n | n in canon && i <= n
  }

  /** The loop that queues the deletion of the index entries from `from` up to the first
      height that is not indexed; it reads the database, not the batch. */
  method QueueDrops(db: Db, queued: Batch, from: nat) returns (batch: Batch, hole: nat)
    requires Write(db, queued).canon == db.canon
    ensures hole >= from && CanonicalHash(db, hole) == NO_HASH && (forall n :: from <= n < hole ==> n in db.canon)
    ensures Write(db, batch) == Write(db, queued).(canon := Cut(db.canon, from, hole))
  {
    batch := queued;
    ghost var was := Write(db, queued);
    var i := from;
    assert db.canon == Cut(db.canon, from, from);
    while CanonicalHash(db, i) != NO_HASH
      invariant from <= i && forall n :: from <= n < i ==> n in db.canon
      invariant Write(db, batch) == was.(canon := Cut(db.canon, from, i))
      decreases HeightsFrom(db.canon, i)
    {
      assert i in HeightsFrom(db.canon, i) && i !in HeightsFrom(db.canon, i + 1);
      assert HeightsFrom(db.canon, i + 1) < HeightsFrom(db.canon, i);
      assert Cut(db.canon, from, i) - {i} == Cut(db.canon, from, i + 1);
      batch := Queue(batch, DelCanon(i));
      i := i + 1;
    }
    hole := i;
  }

  /** The clean-up batch of `reorg`: drop the lookup entries of `stale` and the index entries
      from `from` on. */
  method DropIndexes(db: Db, stale: seq<Hash>, from: nat) returns (r: Db, hole: nat)
    ensures hole >= from && CanonicalHash(db, hole) == NO_HASH && (forall n :: from <= n < hole ==> n in db.canon)
    ensures r == db.(lookup := db.lookup - TxSet(stale), canon := Cut(db.canon, from, hole))
  {
    var batch := NewBatch;
    for i := 0 to |stale|
      invariant Write(db, batch) == db.(lookup := db.lookup - TxSet(stale[..i]))
    {
      assert stale[..i + 1] == stale[..i] + [stale[i]];
      batch := Queue(batch, DelLookup(stale[i]));
    }
    assert stale[..|stale|] == stale;
    batch, hole := QueueDrops(db, batch, from);
    r := Write(db, batch);
  }
}
