/** The chain database: header, body and difficulty tables, the number-to-hash canonical
    index, the transaction lookup index and the three persisted head markers. */
module ChainDb {
  import opened Options
  import opened ChainTree

  datatype Db = Db(
    headers: Store,
    bodies: map<Hash, seq<Hash>>,   // transaction hashes of each stored block body
    td: map<Hash, nat>,
    canon: map<nat, Hash>,
    lookup: map<Hash, nat>,         // transaction hash to block number
    headHeader: Hash,
    headFast: Hash,
    headBlock: Hash)
  {
    /** Full blocks: a header together with its body. */
    function Blocks(): (blocks: Store)
    {
      BlocksOf(headers, bodies)
    }
  }

  function BlocksOf(headers: Store, bodies: map<Hash, seq<Hash>>): (blocks: Store)
  {
    map hash | hash in headers && hash in bodies :: headers[hash]
  }

  function CanonicalHash(db: Db, number: nat): (hash: Hash)
  {
    if number in db.canon then db.canon[number] else NO_HASH
  }

  function GetTd(db: Db, hash: Hash, number: int): (td: Option<nat>)
  {
    if hash in db.td && Get(db.headers, hash, number).Some? then Some(db.td[hash]) else None
  }

  // ----- batches: queued writes, applied together

  datatype Op =
    | PutHeader(header: Header)
    | DelHeader(hash: Hash)
    | PutBody(hash: Hash, txs: seq<Hash>)
    | DelBody(hash: Hash)
    | PutTd(hash: Hash, td: nat)
    | DelTd(hash: Hash)
    | PutCanon(number: nat, hash: Hash)
    | DelCanon(number: nat)
    | PutLookups(txs: seq<Hash>, number: nat)
    | DelLookup(tx: Hash)
    | HeadHeader(hash: Hash)
    | HeadFast(hash: Hash)
    | HeadBlock(hash: Hash)

  /** The lookup entries of a block's transactions. */
  function LookupsOf(txs: seq<Hash>, number: nat): (r: map<Hash, nat>)
  {
    map tx | tx in txs :: number
  }

  function Put(db: Db, op: Op): (r: Db)
  {
    match op
    case PutHeader(h) => db.(headers := db.headers[h.hash := h])
    case DelHeader(hash) => db.(headers := db.headers - {hash})
    case PutBody(hash, txs) => db.(bodies := db.bodies[hash := txs])
    case DelBody(hash) => db.(bodies := db.bodies - {hash})
    case PutTd(hash, td) => db.(td := db.td[hash := td])
    case DelTd(hash) => db.(td := db.td - {hash})
    case PutCanon(number, hash) => db.(canon := db.canon[number := hash])
    case DelCanon(number) => db.(canon := db.canon - {number})
    case PutLookups(txs, number) => db.(lookup := db.lookup + LookupsOf(txs, number))
    case DelLookup(tx) => db.(lookup := db.lookup - {tx})
    case HeadHeader(hash) => db.(headHeader := hash)
    case HeadFast(hash) => db.(headFast := hash)
    case HeadBlock(hash) => db.(headBlock := hash)
  }

  /** Writes queued in order. */
  datatype Batch = NewBatch | Queue(earlier: Batch, op: Op)

  function Write(db: Db, batch: Batch): (r: Db)
  {
    match batch
    case NewBatch => db
    case Queue(earlier, op) => Put(Write(db, earlier), op)
  }

  lemma WriteQueue(db: Db, batch: Batch, op: Op)
    ensures Write(db, Queue(batch, op)) == Put(Write(db, batch), op)
  {
  }

  // ----- the canonical index

  /** The index is exactly the ancestor path of `head`: every height up to the head's maps
      to the head's ancestor there, and no other height is mapped. */
  ghost predicate IsPath(store: Store, canon: map<nat, Hash>, head: Header)
  {
    && (forall n: nat :: n in canon <==> n <= head.number)
    && (forall n: nat :: n <= head.number ==>
          Ancestor(store, head, n).Some? && canon[n] == Ancestor(store, head, n).value.hash)
  }

  /** `h` lies on the path of `head`. */
  predicate OnPath(store: Store, head: Header, h: Header)
  {
    Ancestor(store, head, h.number) == Some(h)
  }

  /** The index without the heights `lo` up to (not including) `hi`. */
  function Cut(canon: map<nat, Hash>, lo: nat, hi: nat): (r: map<nat, Hash>)
  {
    map n | n in canon && !(lo <= n < hi) :: canon[n]
  }

  /** `now` is `was` with the heights `lo < n <= hi` set to the ancestors of `h`. */
  ghost predicate Painted(store: Store, was: map<nat, Hash>, now: map<nat, Hash>, h: Header, lo: int, hi: int)
  {
    && (forall n: nat :: n in now <==> n in was || lo < n <= hi)
    && (forall n: nat :: n in now && !(lo < n <= hi) ==> now[n] == was[n])
    && (forall n: nat :: lo < n <= hi ==>
          Ancestor(store, h, n).Some? && now[n] == Ancestor(store, h, n).value.hash)
  }

  lemma PaintDown(store: Store, was: map<nat, Hash>, now: map<nat, Hash>, h: Header, a: Header, hi: int)
    requires Painted(store, was, now, h, a.number, hi) && OnPath(store, h, a) && a.number <= hi
    ensures Painted(store, was, now[a.number := a.hash], h, a.number - 1, hi)
  {
  }

  lemma PaintUp(store: Store, was: map<nat, Hash>, now: map<nat, Hash>, h: Header, a: Header, lo: int)
    requires Painted(store, was, now, h, lo, a.number - 1) && OnPath(store, h, a) && lo < a.number
    ensures Painted(store, was, now[a.number := a.hash], h, lo, a.number)
  {
  }

  lemma PathExtends(store: Store, more: Store, canon: map<nat, Hash>, head: Header)
    requires IsPath(store, canon, head) && Extends(store, more)
    ensures IsPath(more, canon, head)
  {
    forall n: nat | n <= head.number
      ensures Ancestor(more, head, n) == Ancestor(store, head, n)
    {
      AncestorExtends(store, more, head, n);
    }
  }

  // ----- the transaction lookup index

  /** Transaction `tx` is in the body of the ancestor of `h` at height `n`. */
  predicate TxAt(store: Store, bodies: map<Hash, seq<Hash>>, h: Header, n: nat, tx: Hash)
  {
    var a := Ancestor(store, h, n);
    a.Some? && a.value.hash in bodies && tx in bodies[a.value.hash]
  }

  /** No transaction occurs at two heights of the chain ending in `h`. */
  ghost predicate UniqueTxs(store: Store, bodies: map<Hash, seq<Hash>>, h: Header)
  {
    forall m: nat, n: nat, tx ::
      TxAt(store, bodies, h, m, tx) && TxAt(store, bodies, h, n, tx) ==> m == n
  }

  /** The lookup index maps each transaction of the chain ending in `h` to its block number,
      and nothing else. */
  ghost predicate IsLookup(store: Store, bodies: map<Hash, seq<Hash>>, lookup: map<Hash, nat>, h: Header)
  {
    && (forall tx :: tx in lookup ==> TxAt(store, bodies, h, lookup[tx], tx))
    && (forall n: nat, tx :: TxAt(store, bodies, h, n, tx) ==> tx in lookup && lookup[tx] == n)
  }

  // ----- total difficulties

  /** Exactly the stored headers have a total difficulty, and it is the sum of the
      difficulties along the whole ancestry. */
  ghost predicate TdExact(headers: Store, td: map<Hash, nat>)
  {
    && td.Keys == headers.Keys
    && forall hash {:trigger TotalDifficulty(headers, headers[hash])} ::
         hash in headers ==> td[hash] == TotalDifficulty(headers, headers[hash])
  }
}
