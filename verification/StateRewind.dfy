/** The loop of `setHeadBeyondRoot` that rewinds to a block whose state is available. */
module StateRewind {
  import opened Options
  import opened ChainTree

  /** What a rewind is asked for: the root to get below (`NO_HASH` for none), the last fast-sync
      pivot, and the roots whose state is available. */
  datatype Request = Request(root: Hash, pivot: Option<nat>, states: set<Hash>)

  /** The ancestor of `start` at height `n` has its state. */
  predicate Stateful(blocks: Store, start: Header, q: Request, n: nat)
  {
    var a := Ancestor(blocks, start, n);
    a.Some? && a.value.root in q.states
  }

  predicate RootAt(blocks: Store, start: Header, q: Request, n: nat)
  {
    var a := Ancestor(blocks, start, n);
    a.Some? && a.value.root == q.root
  }

  /** Height `n` is at or below a block of the walk with the requested root. */
  ghost predicate Beyond(blocks: Store, start: Header, q: Request, n: nat)
  {
    q.root == NO_HASH || exists m: nat :: n <= m && RootAt(blocks, start, q, m)
  }

  /** Height `n` is where a rewind may stop. */
  ghost predicate Eligible(blocks: Store, start: Header, q: Request, n: nat)
  {
    Stateful(blocks, start, q, n) && (n == 0 || Beyond(blocks, start, q, n))
  }

  /** The rewind gets down to height `n`: nothing above is eligible, and no stateless block above
      is at or below the pivot. */
  ghost predicate Reaches(blocks: Store, start: Header, q: Request, n: nat)
  {
    && Ancestor(blocks, start, n).Some?
    && forall m: nat :: n < m <= start.number ==> Passes(blocks, start, q, m)
  }

  ghost predicate Passes(blocks: Store, start: Header, q: Request, m: nat)
  {
    && !Eligible(blocks, start, q, m)
    && (Stateful(blocks, start, q, m) || q.pivot.None? || m > q.pivot.value)
  }

  /** Where the rewind from `start` must end: at the highest height it reaches that is eligible,
      or at genesis if there is none. */
  ghost predicate RewoundTo(blocks: Store, genesis: Header, start: Header, q: Request, r: Header)
  {
    || (Reaches(blocks, start, q, r.number) && Eligible(blocks, start, q, r.number) && Ancestor(blocks, start, r.number) == Some(r))
    || (r == genesis && forall n: nat :: !(Reaches(blocks, start, q, n) && Eligible(blocks, start, q, n)))
  }

  /** At height `n` the rewind would step over a stateful block to a parent that is missing. */
  ghost predicate CrashAt(blocks: Store, start: Header, q: Request, n: nat)
  {
    && n > 0 && Reaches(blocks, start, q, n) && Stateful(blocks, start, q, n) && !Beyond(blocks, start, q, n)
    && Ancestor(blocks, start, n - 1).None?
  }

  /** The loop.  `None` is the crash on a missing parent, which takes a requested root and a gap
      in the chain below a stateful block.  The head it ends on always has its state, recommitted if it is genesis. */
  method RewindLoop(blocks: Store, genesis: Header, start: Header, q: Request)
    returns (r: Option<Header>, states: set<Hash>, rootNumber: nat)
    requires genesis.number == 0
    ensures r.None? <==> exists n: nat :: CrashAt(blocks, start, q, n)
    ensures r.Some? ==> RewoundTo(blocks, genesis, start, q, r.value)
    ensures r.Some? ==> r.value.root in states && q.states <= states <= q.states + {genesis.root}
    ensures states != q.states ==> r.Some? && r.value.number == 0
    ensures q.root != NO_HASH && r.Some? && r.value.number > 0 ==>
              r.value.number <= rootNumber <= start.number && RootAt(blocks, start, q, rootNumber)
  {
    var block := start;
    var beyondRoot := q.root == NO_HASH;
    states, rootNumber := q.states, 0;
    while true
      invariant block.number <= start.number && Ancestor(blocks, start, block.number) == Some(block)
      invariant Reaches(blocks, start, q, block.number)
      invariant beyondRoot ==> Beyond(blocks, start, q, block.number)
      invariant !beyondRoot ==> q.root != NO_HASH && forall m: nat :: block.number < m ==> !RootAt(blocks, start, q, m)
      invariant beyondRoot && q.root != NO_HASH ==>
                  block.number <= rootNumber <= start.number && RootAt(blocks, start, q, rootNumber)
      decreases block.number
    {
      if q.root != NO_HASH && !beyondRoot && block.root == q.root {
        assert RootAt(blocks, start, q, block.number);
        beyondRoot, rootNumber := true, block.number;
      }
      if block.number > 0 {
        AncestorStep(blocks, start, block.number);
      }
      var parent := Parent(blocks, block);
      if block.root !in q.states {
        assert !Eligible(blocks, start, q, block.number);
        if q.pivot.None? || block.number > q.pivot.value {
          if parent.Some? {
            StepDown(blocks, start, q, block, parent.value);
            block := parent.value;
            continue;
          }
        }
        NothingBelow(blocks, start, q, block);
        NoCrash(blocks, start, q, block);
        if genesis.root !in states {
          states := states + {genesis.root};
        }
        return Some(genesis), states, rootNumber;
      }
      if beyondRoot || block.number == 0 {
        NoCrash(blocks, start, q, block);
        if block.number == 0 && genesis.root !in states {
          states := states + {genesis.root};
        }
        return Some(block), states, rootNumber;
      }
      assert !Beyond(blocks, start, q, block.number);
      if parent.None? {
        assert CrashAt(blocks, start, q, block.number);
        return None, states, rootNumber;
      }
      StepDown(blocks, start, q, block, parent.value);
      block := parent.value;
    }
  }

  lemma StepDown(blocks: Store, start: Header, q: Request, block: Header, parent: Header)
    requires Ancestor(blocks, start, block.number) == Some(block) && Parent(blocks, block) == Some(parent)
    requires Reaches(blocks, start, q, block.number) && Passes(blocks, start, q, block.number)
    ensures block.number > 0 && parent.number == block.number - 1
    ensures Reaches(blocks, start, q, parent.number) && Ancestor(blocks, start, parent.number) == Some(parent)
    ensures Beyond(blocks, start, q, block.number) ==> Beyond(blocks, start, q, parent.number)
  {
    AncestorStep(blocks, start, block.number);
  }

  /** When the walk ends at a stateless block, no height it could reach was eligible. */
  lemma NothingBelow(blocks: Store, start: Header, q: Request, block: Header)
    requires Ancestor(blocks, start, block.number) == Some(block) && block.root !in q.states
    requires Reaches(blocks, start, q, block.number)
    requires Parent(blocks, block).None? || !Passes(blocks, start, q, block.number)
    ensures forall n: nat :: !(Reaches(blocks, start, q, n) && Eligible(blocks, start, q, n))
  {
    forall n: nat ensures !(Reaches(blocks, start, q, n) && Eligible(blocks, start, q, n)) {
      if n < block.number && Parent(blocks, block).None? {
        AncestorStep(blocks, start, block.number);
        AncestorMissing(blocks, start, block.number - 1, n);
      }
      assert Reaches(blocks, start, q, n) && n < block.number ==> Passes(blocks, start, q, block.number);
      assert block.number < n <= start.number ==> Passes(blocks, start, q, n);
    }
  }

  /** Where the walk ends without a crash there is none elsewhere. */
  lemma NoCrash(blocks: Store, start: Header, q: Request, block: Header)
    requires Ancestor(blocks, start, block.number) == Some(block) && !CrashAt(blocks, start, q, block.number)
    requires Parent(blocks, block).None? || !Passes(blocks, start, q, block.number)
    ensures forall n: nat :: !CrashAt(blocks, start, q, n)
  {
    forall n: nat ensures !CrashAt(blocks, start, q, n) {
      if n < block.number && Parent(blocks, block).None? {
        AncestorStep(blocks, start, block.number);
        AncestorMissing(blocks, start, block.number - 1, n);
      } else if block.number < n <= start.number && Ancestor(blocks, start, n - 1).None? {
        AncestorMissing(blocks, start, n - 1, block.number);
      }
      assert Reaches(blocks, start, q, n) && n < block.number ==> Passes(blocks, start, q, block.number);
    }
  }

  /** A rewind that ends above genesis, said outright: the block has its state, and is at or below a
      block with the requested root if there is one; every block above is stored, and either has no
      state and is above the pivot, or has its state but no block with the requested root at or above
      it. */
  ghost predicate Lands(blocks: Store, start: Header, q: Request, r: Header)
  {
    && Ancestor(blocks, start, r.number) == Some(r) && r.root in q.states
    && (q.root == NO_HASH || exists m: nat :: r.number <= m && RootAt(blocks, start, q, m))
    && forall n: nat :: r.number < n <= start.number ==> SteppedOver(blocks, start, q, n)
  }

  ghost predicate SteppedOver(blocks: Store, start: Header, q: Request, n: nat)
  {
    && Ancestor(blocks, start, n).Some?
    && if Ancestor(blocks, start, n).value.root !in q.states then q.pivot.None? || n > q.pivot.value
       else q.root != NO_HASH && forall m: nat :: n <= m ==> !RootAt(blocks, start, q, m)
  }

  lemma LandsExactly(blocks: Store, genesis: Header, start: Header, q: Request, r: Header)
    requires genesis.number == 0 && r.number > 0
    ensures RewoundTo(blocks, genesis, start, q, r) <==> Lands(blocks, start, q, r)
  {
    forall n: nat | Ancestor(blocks, start, r.number) == Some(r) && r.number < n <= start.number
      ensures Passes(blocks, start, q, n) <==> SteppedOver(blocks, start, q, n)
    {
      if Ancestor(blocks, start, n).None? {
        AncestorMissing(blocks, start, n, r.number);
      }
    }
  }

  /** Without root and pivot it is the highest block with its state. */
  lemma PlainLands(blocks: Store, genesis: Header, start: Header, q: Request, r: Header, n: nat)
    requires genesis.number == 0 && RewoundTo(blocks, genesis, start, q, r) && q.root == NO_HASH && q.pivot.None?
    requires n <= start.number && Ancestor(blocks, start, n).Some? && Ancestor(blocks, start, n).value.root in q.states
    ensures n <= r.number && Ancestor(blocks, start, r.number) == Some(r) && r.root in q.states
  {
    var m := HighestStateful(blocks, start, q, n, start.number);
    forall k: nat | m < k <= start.number ensures Passes(blocks, start, q, k) {
      assert !Stateful(blocks, start, q, k);
    }
    assert Reaches(blocks, start, q, m) && Eligible(blocks, start, q, m);
    RewoundUnique(blocks, genesis, start, q, r, Ancestor(blocks, start, m).value);
  }

  lemma {:induction false} HighestStateful(blocks: Store, start: Header, q: Request, n: nat, top: nat) returns (m: nat)
    requires Stateful(blocks, start, q, n) && n <= top
    ensures n <= m <= top && Stateful(blocks, start, q, m)
    ensures forall k: nat :: m < k <= top ==> !Stateful(blocks, start, q, k)
    decreases top - n
  {
    if k: nat :| n < k <= top && Stateful(blocks, start, q, k) {
      m := HighestStateful(blocks, start, q, k, top);
    } else {
      m := n;
    }
  }

  /** The specification pins the result down. */
  lemma RewoundUnique(blocks: Store, genesis: Header, start: Header, q: Request, r1: Header, r2: Header)
    requires RewoundTo(blocks, genesis, start, q, r1) && RewoundTo(blocks, genesis, start, q, r2)
    ensures r1 == r2
  {
    assert Reaches(blocks, start, q, r1.number) && r1.number < r2.number <= start.number ==>
             Passes(blocks, start, q, r2.number);
    assert Reaches(blocks, start, q, r2.number) && r2.number < r1.number <= start.number ==>
             Passes(blocks, start, q, r1.number);
  }
}
