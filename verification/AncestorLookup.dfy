/** `HeaderChain.GetAncestor`: the index shortcut against the parent-by-parent walk. */
module AncestorLookup {
  import opened Options
  import opened ChainTree
  import opened ChainDb

  /** The hash of the `k`-th parent of the block `(hash, number)`, following one header at a
      time; the last header itself need not be stored. */
  function NthParent(store: Store, hash: Hash, number: nat, k: nat): (r: Option<Hash>)
    decreases k
  {
    if k == 0 then Some(hash)
    else
      match Get(store, hash, number)
      case None => None
      case Some(h) => if number == 0 then None else NthParent(store, h.parentHash, number - 1, k - 1)
  }

  lemma {:induction false} NthParentStep(store: Store, hash: Hash, number: nat, k: nat)
    requires NthParent(store, hash, number, k).Some? && k <= number
    ensures var at := NthParent(store, hash, number, k).value;
            NthParent(store, hash, number, k + 1) ==
              (match Get(store, at, number - k)
               case None => None
               case Some(h) => if number == k then None else Some(h.parentHash))
    decreases k
  {
    if k > 0 {
      NthParentStep(store, Get(store, hash, number).value.parentHash, number - 1, k - 1);
    }
  }

  lemma {:induction false} NthParentMissing(store: Store, hash: Hash, number: nat, k: nat, j: nat)
    requires k <= j && NthParent(store, hash, number, k).None?
    ensures NthParent(store, hash, number, j).None?
    decreases k
  {
    match Get(store, hash, number)
    case None =>
    case Some(h) =>
      if number > 0 {
        NthParentMissing(store, h.parentHash, number - 1, k - 1, j - 1);
      }
  }

  /** Below a stored header the walk agrees with `Ancestor`. */
  lemma {:induction false} NthParentIsAncestor(store: Store, h: Header, k: nat)
    requires Keyed(store) && Stored(store, h) && k <= h.number && Ancestor(store, h, h.number - k).Some?
    ensures NthParent(store, h.hash, h.number, k) == Some(Ancestor(store, h, h.number - k).value.hash)
    decreases k
  {
    if k > 0 {
      NthParentIsAncestor(store, Parent(store, h).value, k - 1);
    }
  }

  /** On an index that is a path, the shortcut reads off the true ancestor. */
  lemma ShortcutIsParent(db: Db, head: Header, hash: Hash, number: nat, k: nat)
    requires Keyed(db.headers) && Stored(db.headers, head) && IsPath(db.headers, db.canon, head)
    requires number in db.canon && db.canon[number] == hash && k <= number
    ensures number - k in db.canon && NthParent(db.headers, hash, number, k) == Some(db.canon[number - k])
    ensures db.canon[number - k] != NO_HASH
  {
    var a := Ancestor(db.headers, head, number).value;
    AncestorStored(db.headers, head, number);
    AncestorTrans(db.headers, head, number, number - k);
    AncestorStored(db.headers, head, number - k);
    NthParentIsAncestor(db.headers, a, k);
  }

  lemma IndexedIffBelow(db: Db, head: Header, n: nat)
    requires Keyed(db.headers) && Stored(db.headers, head) && IsPath(db.headers, db.canon, head)
    ensures CanonicalHash(db, n) != NO_HASH <==> n <= head.number
  {
    if n <= head.number {
      AncestorStored(db.headers, head, n);
    }
  }

  /** After `j` steps the walk can answer: it is at the ancestor, or on the canonical chain. */
  predicate Reaches(db: Db, hash: Hash, number: nat, ancestor: nat, j: nat)
    requires ancestor <= number
  {
    var at := NthParent(db.headers, hash, number, j);
    j <= ancestor && at.Some? && (j == ancestor || CanonicalHash(db, number - j) == at.value)
  }

  /** The steps a walk spends: up to the first one at which it can answer or, if it cannot, up to
      the first missing header or the end of the allowance. */
  ghost predicate Spent(db: Db, hash: Hash, number: nat, ancestor: nat, allowance: nat, spent: nat, answered: bool)
    requires ancestor <= number
  {
    && (forall j: nat :: j < spent ==> NthParent(db.headers, hash, number, j).Some? && !Reaches(db, hash, number, ancestor, j))
    && if answered then hash != NO_HASH ==> Reaches(db, hash, number, ancestor, spent)
       else spent == allowance || NthParent(db.headers, hash, number, spent).None?
  }

  /** Exact for every block but the all-zero hash: the answer is the true ancestor, and there is
      one exactly when the allowance covers the distance to the canonical chain or to the
      ancestor.  The all-zero hash passes for canonical above the head. */
  method GetAncestor(db: Db, hash: Hash, number: nat, ancestor: nat, maxNonCanonical: nat, ghost head: Header)
    returns (r: Hash, n: nat, left: nat)
    requires Closed(db.headers) && Stored(db.headers, head) && IsPath(db.headers, db.canon, head)
    ensures hash != NO_HASH && r != NO_HASH ==>
              ancestor <= number && n == number - ancestor && NthParent(db.headers, hash, number, ancestor) == Some(r)
    ensures hash != NO_HASH && ancestor == 1 <= number ==> (r != NO_HASH <==> Get(db.headers, hash, number).Some?)
    ensures hash != NO_HASH && 1 != ancestor <= number ==>
              (r != NO_HASH <==> exists j: nat :: j <= maxNonCanonical && Reaches(db, hash, number, ancestor, j))
    ensures hash == NO_HASH ==>
              (r != NO_HASH <==> 2 <= ancestor <= number && number - ancestor <= head.number < number)
    ensures hash != NO_HASH && r == NO_HASH ==> n == 0
    ensures left <= maxNonCanonical
    ensures ancestor > number || ancestor <= 1 || (hash == NO_HASH && number > head.number) ==> left == maxNonCanonical
    ensures 2 <= ancestor <= number && (hash != NO_HASH || number <= head.number) ==>
              Spent(db, hash, number, ancestor, maxNonCanonical, maxNonCanonical - left, r != NO_HASH)
  {
    left := maxNonCanonical;
    if ancestor > number {
      return NO_HASH, 0, left;
    }
    if ancestor == 1 {
      var header := Get(db.headers, hash, number);
      if header.Some? {
        assert Parent(db.headers, db.headers[hash]).Some?;
        return header.value.parentHash, number - 1, left;
      }
      return NO_HASH, 0, left;
    }
    var at, k := hash, ancestor;
    n := number;
    while k != 0
      invariant 0 <= k <= ancestor && n == number - (ancestor - k) && left == maxNonCanonical - (ancestor - k)
      invariant Walked(db, hash, number, ancestor, ancestor - k, at)
    {
      if CanonicalHash(db, n) == at {
        AnswerHere(db, head, hash, number, ancestor, ancestor - k, at);
        return CanonicalHash(db, n - k), n - k, left;
      }
      NoAnswerHere(db, head, hash, number, ancestor, ancestor - k, at);
      if left == 0 {
        return NO_HASH, 0, left;
      }
      left, k := left - 1, k - 1;
      var header := Get(db.headers, at, n);
      if header.None? {
        return NO_HASH, 0, left;
      }
      at, n := header.value.parentHash, n - 1;
    }
    if hash != NO_HASH {
      assert Reaches(db, hash, number, ancestor, ancestor);
    }
    return at, n, left;
  }

  function HashOf(h: Option<Header>): (hash: Option<Hash>)
  {
    if h.Some? then Some(h.value.hash) else None
  }

  /** From a stored block the walk can answer after `j` steps exactly when its `j`-th ancestor is the
      one asked for or is on the canonical chain. */
  lemma ReachesOnChain(db: Db, head: Header, b: Header, ancestor: nat, j: nat)
    requires Closed(db.headers) && Stored(db.headers, head) && IsPath(db.headers, db.canon, head)
    requires Stored(db.headers, b) && j <= ancestor <= b.number
    ensures Reaches(db, b.hash, b.number, ancestor, j) <==>
              j == ancestor || Ancestor(db.headers, b, b.number - j) == Ancestor(db.headers, head, b.number - j)
  {
    var n := b.number - j;
    AncestorTotal(db.headers, b, n);
    NthParentIsAncestor(db.headers, b, j);
    if n <= head.number {
      AncestorTotal(db.headers, head, n);
    }
  }

  /** Hence, because two chains that meet stay together, it can answer within its allowance exactly
      when the ancestor is within it, or the block that far down is canonical. */
  lemma AnswerExact(db: Db, head: Header, b: Header, ancestor: nat, allowance: nat)
    requires Closed(db.headers) && Stored(db.headers, head) && IsPath(db.headers, db.canon, head)
    requires Stored(db.headers, b) && ancestor <= b.number
    ensures HashOf(Ancestor(db.headers, b, b.number - ancestor)) == NthParent(db.headers, b.hash, b.number, ancestor)
    ensures (exists j: nat :: j <= allowance && Reaches(db, b.hash, b.number, ancestor, j)) <==>
              || ancestor <= allowance
              || Ancestor(db.headers, b, b.number - allowance) == Ancestor(db.headers, head, b.number - allowance)
  {
    AncestorTotal(db.headers, b, b.number - ancestor);
    NthParentIsAncestor(db.headers, b, ancestor);
    ReachesOnChain(db, head, b, ancestor, ancestor);
    if allowance < ancestor {
      ReachesOnChain(db, head, b, ancestor, allowance);
      forall j: nat | j <= allowance && Reaches(db, b.hash, b.number, ancestor, j)
        ensures Ancestor(db.headers, b, b.number - allowance) == Ancestor(db.headers, head, b.number - allowance)
      {
        ReachesOnChain(db, head, b, ancestor, j);
        AncestorTotal(db.headers, b, b.number - j);
        AncestorTrans(db.headers, b, b.number - j, b.number - allowance);
        AncestorTrans(db.headers, head, b.number - j, b.number - allowance);
      }
    } else {
      assert Reaches(db, b.hash, b.number, ancestor, ancestor);
    }
  }

  /** `j` steps were taken, to `at`, without an answer. */
  ghost predicate Walked(db: Db, hash: Hash, number: nat, ancestor: nat, j: nat, at: Hash)
  {
    && j <= ancestor <= number && NthParent(db.headers, hash, number, j) == Some(at)
    && (hash == NO_HASH || at == NO_HASH ==> j == 0 && hash == NO_HASH)
    && forall i: nat :: i < j ==> NthParent(db.headers, hash, number, i).Some? && !Reaches(db, hash, number, ancestor, i)
  }

  /** Where the walk is on the index, the entry below is the answer. */
  lemma AnswerHere(db: Db, head: Header, hash: Hash, number: nat, ancestor: nat, j: nat, at: Hash)
    requires Closed(db.headers) && Stored(db.headers, head) && IsPath(db.headers, db.canon, head)
    requires Walked(db, hash, number, ancestor, j, at) && j < ancestor && CanonicalHash(db, number - j) == at
    ensures hash != NO_HASH ==>
              && Reaches(db, hash, number, ancestor, j) && CanonicalHash(db, number - ancestor) != NO_HASH
              && NthParent(db.headers, hash, number, ancestor) == Some(CanonicalHash(db, number - ancestor))
    ensures hash == NO_HASH ==>
              number > head.number && (CanonicalHash(db, number - ancestor) != NO_HASH <==> number - ancestor <= head.number)
  {
    IndexedIffBelow(db, head, number - j);
    IndexedIffBelow(db, head, number - ancestor);
    if at != NO_HASH {
      ShortcutIsParent(db, head, at, number - j, ancestor - j);
      NthParentAdd(db.headers, hash, number, j, ancestor - j);
    }
  }

  /** Where it is not, the walk goes on to the parent or, if the header is missing, can never
      answer. */
  lemma NoAnswerHere(db: Db, head: Header, hash: Hash, number: nat, ancestor: nat, j: nat, at: Hash)
    requires Closed(db.headers) && Stored(db.headers, head) && IsPath(db.headers, db.canon, head)
    requires Walked(db, hash, number, ancestor, j, at) && j < ancestor && CanonicalHash(db, number - j) != at
    ensures hash == NO_HASH ==> number <= head.number
    ensures !Reaches(db, hash, number, ancestor, j)
    ensures Get(db.headers, at, number - j).None? ==>
              && NthParent(db.headers, hash, number, j + 1).None?
              && forall i: nat :: i <= ancestor ==> !Reaches(db, hash, number, ancestor, i)
    ensures Get(db.headers, at, number - j).Some? ==>
              Walked(db, hash, number, ancestor, j + 1, Get(db.headers, at, number - j).value.parentHash)
  {
    IndexedIffBelow(db, head, number - j);
    NthParentStep(db.headers, hash, number, j);
    if Get(db.headers, at, number - j).None? {
      forall i: nat | j < i <= ancestor ensures !Reaches(db, hash, number, ancestor, i) {
        NthParentMissing(db.headers, hash, number, j + 1, i);
      }
    } else {
      assert Parent(db.headers, db.headers[at]).Some?;
    }
  }

  lemma {:induction false} NthParentAdd(store: Store, hash: Hash, number: nat, j: nat, k: nat)
    requires NthParent(store, hash, number, j).Some? && j <= number
    ensures NthParent(store, hash, number, j + k) == NthParent(store, NthParent(store, hash, number, j).value, number - j, k)
    decreases j
  {
    if j > 0 {
      NthParentAdd(store, Get(store, hash, number).value.parentHash, number - 1, j - 1, k);
    }
  }
}
