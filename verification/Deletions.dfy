/** The deletion batch of `HeaderChain.setHead`: everything above a height, on every fork. */
module Deletions {
  import opened ChainTree
  import opened ChainDb

  /** A database without the blocks `hashes` and the index entries `numbers`. */
  function Erase(db: Db, hashes: set<Hash>, numbers: set<nat>): (r: Db)
  {
    db.(headers := db.headers - hashes, bodies := db.bodies - hashes, td := db.td - hashes, canon := db.canon - numbers)
  }

  /** A batch that only erases, whatever database it is applied to. */
  ghost predicate Erases(batch: Batch, hashes: set<Hash>, numbers: set<nat>)
  {
    forall db: Db :: Write(db, batch) == Erase(db, hashes, numbers)
  }

  function Between(headers: Store, lo: int, hi: int): (r: set<Hash>)
  {
    set hash | hash in headers && lo < headers[hash].number <= hi
  }

  function AtHeight(headers: Store, n: nat): (r: set<Hash>)
  {
    set hash | hash in headers && headers[hash].number == n
  }

  function Above(headers: Store, lo: int): (r: set<Hash>)
  {
    set hash | hash in headers && lo < headers[hash].number
  }

  lemma ErasesBlock(batch: Batch, hashes: set<Hash>, numbers: set<nat>, hash: Hash)
    requires Erases(batch, hashes, numbers)
    ensures Erases(Queue(Queue(Queue(batch, DelBody(hash)), DelHeader(hash)), DelTd(hash)), hashes + {hash}, numbers)
  {
    var b1 := Queue(batch, DelBody(hash));
    var b2 := Queue(b1, DelHeader(hash));
    forall db: Db ensures Write(db, Queue(b2, DelTd(hash))) == Erase(db, hashes + {hash}, numbers) {
      WriteQueue(db, batch, DelBody(hash));
      WriteQueue(db, b1, DelHeader(hash));
      SubtractTwice(db.headers, hashes, hash);
      SubtractTwice(db.bodies, hashes, hash);
      SubtractTwice(db.td, hashes, hash);
    }
  }

  lemma SubtractTwice<K, V>(m: map<K, V>, s: set<K>, k: K)
    ensures m - s - {k} == m - (s + {k})
  {
  }

  lemma ErasesNumber(batch: Batch, hashes: set<Hash>, numbers: set<nat>, number: nat)
    requires Erases(batch, hashes, numbers)
    ensures Erases(Queue(batch, DelCanon(number)), hashes, numbers + {number})
  {
    forall db: Db ensures Write(db, Queue(batch, DelCanon(number))) == Erase(db, hashes, numbers + {number}) {
      SubtractTwice(db.canon, numbers, number);
    }
  }

  /** Queue the deletion of all blocks at one height. */
  method QueueLevel(queued: Batch, hashes: set<Hash>, number: nat, ghost h: set<Hash>, ghost n: set<nat>)
    returns (batch: Batch)
    requires Erases(queued, h, n)
    ensures Erases(batch, h + hashes, n + {number})
  {
    batch := queued;
    var rest := hashes;
    while rest != {}
      invariant rest <= hashes && Erases(batch, h + (hashes - rest), n)
      decreases rest
    {
      var hash :| hash in rest;
      ErasesBlock(batch, h + (hashes - rest), n, hash);
      assert h + (hashes - rest) + {hash} == h + (hashes - (rest - {hash}));
      batch := Queue(Queue(Queue(batch, DelBody(hash)), DelHeader(hash)), DelTd(hash));
      rest := rest - {hash};
    }
    assert hashes - rest == hashes;
    ErasesNumber(batch, h + hashes, n, number);
    batch := Queue(batch, DelCanon(number));
  }

  /** The heights to clear in one round, highest first: the head's, and in the first round also
      every occupied height above it. */
  method HeightsToClear(headers: Store, number: nat, origin: bool) returns (nums: seq<nat>, hole: nat)
    ensures hole > number && |nums| == hole - number && forall i :: 0 <= i < |nums| ==> nums[i] == hole - 1 - i
    ensures forall k: nat :: number < k < hole ==> AtHeight(headers, k) != {}
    ensures if origin then AtHeight(headers, hole) == {} else hole == number + 1
  {
    nums, hole := [], number + 1;
    if origin {
      var n := number + 1;
      while AtHeight(headers, n) != {}
        invariant number < n == hole && |nums| == n - number - 1
        invariant forall i :: 0 <= i < |nums| ==> nums[i] == n - 1 - i
        invariant forall k: nat :: number < k < n ==> AtHeight(headers, k) != {}
        decreases Above(headers, n - 1)
      {
        var hash :| hash in AtHeight(headers, n);
        assert hash in Above(headers, n - 1) && hash !in Above(headers, n);
        assert Above(headers, n) < Above(headers, n - 1);
        nums, n, hole := [n] + nums, n + 1, n + 1;
      }
    }
    nums := nums + [number];
  }

  /** What a round deletes at one height: all blocks there or, if there are none, the head's hash. */
  function LevelOf(headers: Store, n: nat, fallback: Hash): (r: set<Hash>)
  {
    if AtHeight(headers, n) == {} then {fallback} else AtHeight(headers, n)
  }

  /** What is deleted after the heights from `lo` below `hi`, on top of `h`. */
  ghost function Swept(headers: Store, lo: nat, hi: nat, fallback: Hash, h: set<Hash>): (r: set<Hash>)
    decreases hi - lo
  {
    if lo >= hi then h else Swept(headers, lo + 1, hi, fallback, h) + LevelOf(headers, lo, fallback)
  }

  /** Between occupied heights that is exactly the blocks of all forks there; at an empty height the
      head's own hash goes too. */
  lemma {:induction false} SweptIs(headers: Store, lo: nat, hi: nat, fallback: Hash, h: set<Hash>)
    requires lo <= hi
    ensures Swept(headers, lo, hi, fallback, h) ==
            h + Between(headers, lo - 1, hi - 1) +
            (if exists k: nat :: lo <= k < hi && AtHeight(headers, k) == {} then {fallback} else {})
    decreases hi - lo
  {
    if lo < hi {
      SweptIs(headers, lo + 1, hi, fallback, h);
      BetweenStep(headers, lo, hi - 1);
    }
  }

  /** Queue the deletion of one round. */
  method QueueLevels(headers: Store, queued: Batch, nums: seq<nat>, fallback: Hash,
                     ghost number: nat, ghost hole: nat, ghost h: set<Hash>, ghost n: set<nat>)
    returns (batch: Batch, ghost m: set<nat>)
    requires Erases(queued, h, n) && number < hole
    requires |nums| == hole - number && forall i :: 0 <= i < |nums| ==> nums[i] == hole - 1 - i
    ensures Erases(batch, Swept(headers, number, hole, fallback, h), m) && InRange(m, n, number, hole)
  {
    batch, m := queued, n;
    ghost var lo, gone := hole, h;
    for i := 0 to |nums|
      invariant lo == hole - i && gone == Swept(headers, lo, hole, fallback, h) && Erases(batch, gone, m) && InRange(m, n, lo, hole)
    {
      var hashes := AtHeight(headers, nums[i]);
      if hashes == {} {
        hashes := {fallback};
      }
      batch := QueueLevel(batch, hashes, nums[i], gone, m);
      lo, gone, m := nums[i], gone + hashes, m + {nums[i]};
    }
  }

  /** The heights `m` are those of `n` and the ones from `lo` below `hi`. */
  ghost predicate InRange(m: set<nat>, n: set<nat>, lo: nat, hi: nat)
  {
    forall k: nat :: k in m <==> k in n || lo <= k < hi
  }

  /** In a closed store heights are occupied without gaps, so nothing lives above the first
      empty one. */
  lemma NothingAboveHole(headers: Store, hole: nat)
    requires Closed(headers) && AtHeight(headers, hole) == {}
    ensures Above(headers, hole - 1) == {}
  {
    forall hash | hash in headers ensures headers[hash].number < hole {
      if headers[hash].number >= hole {
        Occupied(headers, headers[hash], hole);
      }
    }
  }

  lemma Occupied(headers: Store, h: Header, n: nat)
    requires Closed(headers) && Stored(headers, h) && n <= h.number
    ensures AtHeight(headers, n) != {}
  {
    AncestorTotal(headers, h, n);
    assert Ancestor(headers, h, n).value.hash in AtHeight(headers, n);
  }

  lemma BetweenStep(headers: Store, n: nat, hi: int)
    requires n <= hi
    ensures Between(headers, n, hi) + AtHeight(headers, n) == Between(headers, n - 1, hi)
  {
  }

  lemma TruncationClosed(headers: Store, lo: nat)
    requires Closed(headers)
    ensures Closed(headers - Above(headers, lo)) && Extends(headers - Above(headers, lo), headers)
  {
    var kept := headers - Above(headers, lo);
    forall hash | hash in kept
      ensures && (kept[hash].parentHash in kept ==> Parent(kept, kept[hash]).Some?)
              && (kept[hash].number == 0 ==> kept[hash].parentHash == NO_HASH)
              && (kept[hash].number > 0 ==> Parent(kept, kept[hash]).Some?)
    {
      ClosedAt(headers, hash);
    }
  }

  /** Keeping exactly the headers up to some height keeps the tables sound. */
  lemma TruncationSound(headers: Store, td: map<Hash, nat>, lo: nat)
    requires Closed(headers) && TdExact(headers, td)
    ensures Closed(headers - Above(headers, lo)) && Extends(headers - Above(headers, lo), headers)
    ensures TdExact(headers - Above(headers, lo), td - Above(headers, lo))
  {
    var kept := headers - Above(headers, lo);
    TruncationClosed(headers, lo);
    forall hash | hash in kept ensures TotalDifficulty(kept, kept[hash]) == TotalDifficulty(headers, headers[hash]) {
      TotalDifficultyExtends(kept, headers, kept[hash]);
    }
  }

  /** And the index, cut at the new head, is the path of the new head. */
  lemma TruncationPath(headers: Store, canon: map<nat, Hash>, numbers: set<nat>, head: Header, cur: Header)
    requires Closed(headers) && Stored(headers, head) && IsPath(headers, canon, head) && OnPath(headers, head, cur)
    requires forall n: nat :: n in canon ==> (n in numbers <==> n > cur.number)
    ensures Stored(headers, cur) && IsPath(headers - Above(headers, cur.number), canon - numbers, cur)
  {
    var kept := headers - Above(headers, cur.number);
    AncestorTotal(headers, head, cur.number);
    TruncationClosed(headers, cur.number);
    forall n: nat | n <= cur.number
      ensures Ancestor(kept, cur, n).Some? && Ancestor(kept, cur, n) == Ancestor(headers, head, n)
    {
      AncestorTrans(headers, head, cur.number, n);
      AncestorTotal(kept, cur, n);
      AncestorExtends(kept, headers, cur, n);
    }
  }
}
