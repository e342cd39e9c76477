/** `GetHashFn`: the memoised lookup of ancestor hashes against a fresh walk. */
module BlockHash {
  import opened Options
  import opened ChainTree
  import opened AncestorLookup

  /** The answer a fresh parent-by-parent walk from the reference header gives for height `n`:
      the all-zero hash for the reference's own height and above, and beyond a missing header. */
  function FreshWalk(chain: Store, ref: Header, n: nat): (hash: Hash)
  {
    if ref.number <= n then NO_HASH
    else
      match NthParent(chain, ref.parentHash, ref.number - 1, ref.number - 1 - n)
      case None => NO_HASH
      case Some(hash) => hash
  }

  /** Entry `i` of the cache is the hash `i + 1` parents above the reference. */
  ghost predicate CacheOk(chain: Store, ref: Header, cache: seq<Hash>)
  {
    && |cache| <= ref.number
    && forall i :: 0 <= i < |cache| ==> NthParent(chain, ref.parentHash, ref.number - 1, i) == Some(cache[i])
  }

  lemma {:induction false} NthParentExtends(chain: Store, more: Store, hash: Hash, number: nat, k: nat)
    requires Extends(chain, more) && NthParent(chain, hash, number, k).Some?
    ensures NthParent(more, hash, number, k) == NthParent(chain, hash, number, k)
    decreases k
  {
    if k > 0 {
      NthParentExtends(chain, more, chain[hash].parentHash, number - 1, k - 1);
    }
  }

  /** Headers arriving in between do not invalidate the cache. */
  lemma CacheSurvives(chain: Store, more: Store, ref: Header, cache: seq<Hash>)
    requires CacheOk(chain, ref, cache) && Extends(chain, more)
    ensures CacheOk(more, ref, cache)
  {
    forall i | 0 <= i < |cache|
      ensures NthParent(more, ref.parentHash, ref.number - 1, i) == Some(cache[i])
    {
      assert NthParent(chain, ref.parentHash, ref.number - 1, i) == Some(cache[i]);
      NthParentExtends(chain, more, ref.parentHash, ref.number - 1, i);
    }
  }

  class HashFn {
    const ref: Header
    var cache: seq<Hash>

    constructor (ref: Header)
      ensures this.ref == ref && cache == []
    {
      this.ref, cache := ref, [];
    }

    /** One query.  It terminates and equals the fresh walk over the chain as it is now. */
    method GetHash(chain: Store, n: nat) returns (hash: Hash)
      requires CacheOk(chain, ref, cache)
      modifies this
      ensures hash == FreshWalk(chain, ref, n)
      ensures n >= ref.number ==> hash == NO_HASH
      ensures n + 1 == ref.number ==> hash == ref.parentHash
      ensures CacheOk(chain, ref, cache) && old(cache) <= cache
    {
      if ref.number <= n {
        return NO_HASH;
      }
      if |cache| == 0 {
        cache := [ref.parentHash];
      }
      var idx := ref.number - n - 1;
      if idx < |cache| {
        return cache[idx];
      }
      var lastKnownHash, lastKnownNumber := cache[|cache| - 1], ref.number - |cache|;
      while true
        invariant CacheOk(chain, ref, cache) && old(cache) <= cache && cache != []
        invariant lastKnownHash == cache[|cache| - 1] && n < lastKnownNumber == ref.number - |cache|
        decreases lastKnownNumber
      {
        var header := Get(chain, lastKnownHash, lastKnownNumber);
        NthParentStep(chain, ref.parentHash, ref.number - 1, |cache| - 1);
        if header.None? {
          NthParentMissing(chain, ref.parentHash, ref.number - 1, |cache|, ref.number - 1 - n);
          return NO_HASH;
        }
        cache := cache + [header.value.parentHash];
        lastKnownHash := header.value.parentHash;
        lastKnownNumber := header.value.number - 1;
        if n == lastKnownNumber {
          return lastKnownHash;
        }
      }
    }

    /** Any sequence of queries on one closure, while headers may be added to the chain between
        them: every answer equals a fresh walk at that moment. */
    method Queries(chains: seq<Store>, ns: seq<nat>) returns (hashes: seq<Hash>)
      requires |chains| == |ns| && forall i, j :: 0 <= i <= j < |chains| ==> Extends(chains[i], chains[j])
      requires cache == []
      modifies this
      ensures |hashes| == |ns| && forall i :: 0 <= i < |ns| ==> hashes[i] == FreshWalk(chains[i], ref, ns[i])
    {
      hashes := [];
      for i := 0 to |ns|
        invariant |hashes| == i && forall j :: 0 <= j < i ==> hashes[j] == FreshWalk(chains[j], ref, ns[j])
        invariant if i == 0 then cache == [] else CacheOk(chains[i - 1], ref, cache)
      {
        if i > 0 {
          CacheSurvives(chains[i - 1], chains[i], ref, cache);
        }
        var hash := GetHash(chains[i], ns[i]);
        hashes := hashes + [hash];
      }
    }
  }

  /** The fresh walk by its steps: nothing at the reference's height and above, its parent hash just
      below, and from there on the parent hash of the header found one higher, or nothing once a
      header is missing. */
  lemma FreshWalkSteps(chain: Store, ref: Header, n: nat)
    requires NO_HASH !in chain
    ensures n >= ref.number ==> FreshWalk(chain, ref, n) == NO_HASH
    ensures n + 1 == ref.number ==> FreshWalk(chain, ref, n) == ref.parentHash
    ensures n + 1 < ref.number ==>
              var above := Get(chain, FreshWalk(chain, ref, n + 1), n + 1);
              FreshWalk(chain, ref, n) == if above.Some? then above.value.parentHash else NO_HASH
  {
    if n + 1 < ref.number {
      var number, k := ref.number - 1, ref.number - 2 - n;
      if NthParent(chain, ref.parentHash, number, k).Some? {
        NthParentStep(chain, ref.parentHash, number, k);
      } else {
        NthParentMissing(chain, ref.parentHash, number, k, k + 1);
      }
    }
  }

  /** In a closed chain the answer is the true ancestor's hash. */
  lemma FreshWalkIsAncestor(chain: Store, ref: Header, n: nat)
    requires Closed(chain) && n < ref.number && Parent(chain, ref).Some?
    ensures Ancestor(chain, ref, n).Some? && FreshWalk(chain, ref, n) == Ancestor(chain, ref, n).value.hash
  {
    var p := Parent(chain, ref).value;
    AncestorTotal(chain, p, n);
    NthParentIsAncestor(chain, p, p.number - n);
  }
}
