/** Headers linked by parent hash: the tree every chain structure below lives in.

    A header carries its own hash as an opaque identifier.  Hashing is injective, so a
    store holds at most one header per hash.  Lookups take the number as well, because
    the database key of a header is its number followed by its hash. */
module ChainTree {
  import opened Options

  type Hash = nat

  const NO_HASH: Hash := 0

  datatype Header = Header(
    hash: Hash, parentHash: Hash, number: nat, difficulty: nat, time: nat, root: Hash)

  type Store = map<Hash, Header>

  function Get(store: Store, hash: Hash, number: int): (r: Option<Header>)
  {
    if hash in store && store[hash].number == number then Some(store[hash]) else None
  }

  function Parent(store: Store, h: Header): (r: Option<Header>)
  {
    Get(store, h.parentHash, h.number - 1)
  }

  /** The ancestor of `h` at height `n` (`h` itself at its own height), found by following
      parent links one at a time; `None` once a link leaves the store. */
  function Ancestor(store: Store, h: Header, n: nat): (r: Option<Header>)
    ensures r.Some? ==> r.value.number == n <= h.number
    decreases h.number
  {
    if h.number == n then Some(h)
    else if h.number < n then None
    else
      match Parent(store, h)
      case None => None
      case Some(p) => Ancestor(store, p, n)
  }

  /** Every entry sits under its own hash, and the all-zero hash names nothing. */
  ghost predicate Keyed(store: Store)
  {
    NO_HASH !in store && forall hash :: hash in store ==> store[hash].hash == hash
  }

  /** `h` is in the store, under its own hash. */
  predicate Stored(store: Store, h: Header)
  {
    h.hash in store && store[h.hash] == h
  }

  /** Adding `h` cannot clash with another header of the same hash. */
  predicate Agrees(store: Store, h: Header)
  {
    h.hash != NO_HASH && (h.hash in store ==> store[h.hash] == h)
  }

  /** Every stored parent is one height below its child, as header verification demands;
      height zero has no parent. */
  ghost predicate WellNumbered(store: Store)
  {
    forall hash {:trigger Parent(store, store[hash])} :: hash in store ==>
      && (store[hash].parentHash in store ==> Parent(store, store[hash]).Some?)
      && (store[hash].number == 0 ==> store[hash].parentHash == NO_HASH)
  }

  /** The store is closed under parents: only height zero has none. */
  ghost predicate Closed(store: Store)
  {
    && Keyed(store)
    && WellNumbered(store)
    && forall hash {:trigger Parent(store, store[hash])} ::
         hash in store && store[hash].number > 0 ==> Parent(store, store[hash]).Some?
  }

  /** What closedness says of one stored header. */
  lemma ClosedAt(store: Store, hash: Hash)
    requires Closed(store) && hash in store
    ensures store[hash].parentHash in store || store[hash].number > 0 ==> Parent(store, store[hash]).Some?
    ensures store[hash].number == 0 ==> store[hash].parentHash == NO_HASH
  {
    var _ := Parent(store, store[hash]);
  }

  /** All stored chains start at the same header. */
  ghost predicate Rooted(store: Store, root: Hash)
  {
    forall hash :: hash in store && store[hash].number == 0 ==> hash == root
  }

  ghost predicate Extends(store: Store, more: Store)
  {
    forall hash :: hash in store ==> hash in more && more[hash] == store[hash]
  }

  /** The sum of difficulties along the whole stored ancestry. */
  function TotalDifficulty(store: Store, h: Header): (td: nat)
    decreases h.number
  {
    h.difficulty +
    match Parent(store, h)
    case None => 0
    case Some(p) => TotalDifficulty(store, p)
  }

  lemma {:induction false} AncestorTrans(store: Store, h: Header, m: nat, n: nat)
    requires n <= m && Ancestor(store, h, m).Some?
    ensures Ancestor(store, h, n) == Ancestor(store, Ancestor(store, h, m).value, n)
    decreases h.number
  {
    if h.number > m {
      AncestorTrans(store, Parent(store, h).value, m, n);
    }
  }

  lemma AncestorStep(store: Store, h: Header, m: nat)
    requires m > 0 && Ancestor(store, h, m).Some?
    ensures Ancestor(store, h, m - 1) == Parent(store, Ancestor(store, h, m).value)
  {
    AncestorTrans(store, h, m, m - 1);
  }

  lemma {:induction false} AncestorMissing(store: Store, h: Header, m: nat, n: nat)
    requires n <= m <= h.number && Ancestor(store, h, m).None?
    ensures Ancestor(store, h, n).None?
    decreases h.number
  {
    match Parent(store, h)
    case None =>
    case Some(p) => AncestorMissing(store, p, m, n);
  }

  lemma {:induction false} AncestorStored(store: Store, h: Header, n: nat)
    requires Keyed(store) && Ancestor(store, h, n).Some?
    requires Stored(store, h) || n < h.number
    ensures Stored(store, Ancestor(store, h, n).value)
    decreases h.number
  {
    if h.number > n {
      AncestorStored(store, Parent(store, h).value, n);
    }
  }

  lemma {:induction false} AncestorTotal(store: Store, h: Header, n: nat)
    requires Closed(store) && Stored(store, h) && n <= h.number
    ensures Ancestor(store, h, n).Some?
    ensures Stored(store, Ancestor(store, h, n).value)
    decreases h.number
  {
    if h.number > n {
      AncestorTotal(store, Parent(store, h).value, n);
    }
  }

  /** No ancestor is heavier. */
  lemma {:induction false} AncestorLighter(store: Store, h: Header, n: nat)
    requires Ancestor(store, h, n).Some?
    ensures TotalDifficulty(store, Ancestor(store, h, n).value) <= TotalDifficulty(store, h)
    decreases h.number
  {
    if h.number > n {
      AncestorLighter(store, Parent(store, h).value, n);
    }
  }

  lemma {:induction false} AncestorExtends(store: Store, more: Store, h: Header, n: nat)
    requires Extends(store, more) && Ancestor(store, h, n).Some?
    ensures Ancestor(more, h, n) == Ancestor(store, h, n)
    decreases h.number
  {
    if h.number > n {
      AncestorExtends(store, more, Parent(store, h).value, n);
    }
  }

  lemma {:induction false} TotalDifficultyExtends(store: Store, more: Store, h: Header)
    requires Closed(store) && Extends(store, more) && Stored(store, h) && Keyed(more)
    ensures TotalDifficulty(more, h) == TotalDifficulty(store, h)
    decreases h.number
  {
    match Parent(store, h)
    case None =>
      assert h.number == 0;
    case Some(p) =>
      TotalDifficultyExtends(store, more, p);
  }
}
