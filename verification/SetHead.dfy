/** Rewinding the chain: `HeaderChain.setHead` with the callbacks of `setHeadBeyondRoot`. */
module SetHead {
  import opened Options
  import opened ChainTree
  import opened ChainDb
  import opened BlockChains
  import opened StateRewind
  import opened Deletions
  import opened RewindTrace

  // ----- the head block callback

  /** The head block for a header: the rewind loop, or genesis if the block is missing.  The head
      has its state exactly when the block was found or genesis has its state, because the
      fallback for a missing block does not recommit the genesis state. */
  method HeadBlockFor(blocks: Store, genesis: Header, header: Header, q: Request)
    returns (r: Option<Header>, states: set<Hash>)
    requires genesis.number == 0
    ensures Get(blocks, header.hash, header.number).None? ==> r == Some(genesis) && states == q.states
    ensures Get(blocks, header.hash, header.number).Some? && r.Some? ==>
              RewoundTo(blocks, genesis, Get(blocks, header.hash, header.number).value, q, r.value)
    ensures r.None? <==>
              var found := Get(blocks, header.hash, header.number);
              found.Some? && exists n: nat :: CrashAt(blocks, found.value, q, n)
    ensures Closed(blocks) ==> r.Some?
    ensures r.Some? ==> q.states <= states <= q.states + {genesis.root}
    ensures r.Some? ==>
              (r.value.root in states <==> Get(blocks, header.hash, header.number).Some? || genesis.root in q.states)
  {
    var found := Get(blocks, header.hash, header.number);
    if found.None? {
      r, states := Some(genesis), q.states;
    } else {
      var rootNumber: nat;
      r, states, rootNumber := RewindLoop(blocks, genesis, found.value, q);
      if Closed(blocks) {
        forall n: nat | n < header.number ensures Ancestor(blocks, found.value, n).Some? {
          AncestorTotal(blocks, found.value, n);
        }
      }
    }
  }

  /** The update callback: lower the block heads to the header and queue their markers. */
  method UpdateHeads(bc: BlockChain, header: Header, q: Request) returns (batch: Batch, states: set<Hash>, crashed: bool)
    requires bc.hc.genesisHeader.number == 0
    modifies bc
    ensures crashed <==> Crashes(bc.hc.db.Blocks(), header, q, old(bc.currentBlock))
    ensures !crashed ==> Write(bc.hc.db, batch) == LoweredMarkers(bc.hc.db, header, old(bc.Now()), bc.Now())
    ensures !crashed ==>
              Lowered(bc.hc.db.Blocks(), bc.hc.genesisHeader, header, q, Mark(old(bc.Now()), q.states), Mark(bc.Now(), states))
  {
    batch, states, crashed := NewBatch, q.states, false;
    if header.number <= bc.currentBlock.number {
      var r: Option<Header>;
      r, states := HeadBlockFor(bc.hc.db.Blocks(), bc.hc.genesisHeader, header, q);
      if r.None? {
        crashed := true;
        return;
      }
      batch := Queue(batch, HeadBlock(r.value.hash));
      bc.currentBlock := r.value;
    }
    ghost var half := Write(bc.hc.db, batch);
    if header.number < bc.currentSnapBlock.number {
      var found, snap := Get(bc.hc.db.Blocks(), header.hash, header.number), bc.hc.genesisHeader;
      if found.Some? {
        snap := found.value;
      }
      WriteQueue(bc.hc.db, batch, HeadFast(snap.hash));
      batch := Queue(batch, HeadFast(snap.hash));
      bc.currentSnapBlock := snap;
    }
  }

  /** The repair call: lower the block heads to the current block if its state is missing, without
      touching the header chain. */
  method Repair(bc: BlockChain, q: Request) returns (states: set<Hash>)
    requires FullTree(bc.hc.db, bc.hc.genesisHeader) && bc.Standing()
    modifies bc, bc.hc
    ensures bc.Standing() && MarkersExist(bc.hc.db) && bc.hc.currentHeader == old(bc.hc.currentHeader)
    ensures MarkersMoved(old(bc.Now()), bc.Now()) && bc.currentBlock.root in states
    ensures PlainLowered(old(bc.hc.db).headers, bc.hc.genesisHeader, old(bc.currentBlock), q,
                         Mark(old(bc.Now()), q.states), Mark(bc.Now(), states))
  {
    ghost var was, genesis := Mark(bc.Now(), q.states), bc.hc.genesisHeader;
    ghost var head, header := bc.hc.currentHeader, bc.currentBlock;
    AncestorStored(bc.hc.db.headers, head, header.number);
    NothingCrashes(bc.hc.db, genesis, header, q, header);
    var batch: Batch, crashed: bool;
    batch, states, crashed := UpdateHeads(bc, bc.currentBlock, q);
    LoweredPlainly(was.heads.db, genesis, header, q, was, Mark(bc.Now(), states));
    bc.hc.db := Write(bc.hc.db, batch);
    ghost var now := Mark(bc.Now(), states);
    LoweredOnPath(was.heads.db, genesis, head, header, q, was, now);
    OnPathUp(bc.hc.db.headers, head, header, now.heads.block);
    OnPathUp(bc.hc.db.headers, head, header, now.heads.snap);
    HeadsExist(bc.hc.db, genesis, head, bc.currentBlock, bc.currentSnapBlock);
  }

  lemma OnPathUp(headers: Store, head: Header, header: Header, b: Header)
    requires OnPath(headers, head, header) && OnPath(headers, header, b) && b.number <= header.number <= head.number
    ensures OnPath(headers, head, b)
  {
    AncestorTrans(headers, head, header.number, b.number);
  }

  // ----- the rewind loop

  /** The first half of a round: move all heads on, in memory and in one write of the markers. */
  method MoveHeads(bc: BlockChain, q: Request) returns (states: set<Hash>, crashed: bool)
    requires bc.hc.genesisHeader.number == 0
    modifies bc, bc.hc
    ensures crashed <==>
              var next := NextHeader(old(bc.hc.db.headers), bc.hc.genesisHeader, old(bc.hc.currentHeader));
              Crashes(old(bc.hc.db.Blocks()), next, q, old(bc.currentBlock))
    ensures !crashed ==>
              && Round(Mark(old(bc.Now()), q.states), Mark(bc.Now(), states), bc.hc.genesisHeader, q)
              && bc.hc.currentHeaderHash == bc.hc.currentHeader.hash
  {
    var hdr := bc.hc.currentHeader;
    var found, parent := Get(bc.hc.db.headers, hdr.parentHash, hdr.number - 1), bc.hc.genesisHeader;
    if found.Some? {
      parent := found.value;
    }
    var markers: Batch;
    markers, states, crashed := UpdateHeads(bc, parent, q);
    if crashed {
      return;
    }
    WriteQueue(bc.hc.db, markers, HeadHeader(parent.hash));
    bc.hc.db := Write(bc.hc.db, Queue(markers, HeadHeader(parent.hash)));
    bc.hc.currentHeader, bc.hc.currentHeaderHash := parent, parent.hash;
  }

  /** The first empty height above `number`. */
  ghost predicate FirstEmpty(headers: Store, number: nat, hole: nat)
  {
    && number < hole && AtHeight(headers, hole) == {}
    && forall k: nat :: number < k < hole ==> AtHeight(headers, k) != {}
  }

  function HeightRange(lo: nat, hi: nat): (r: set<nat>)
    ensures forall k: nat :: k in r <==> lo <= k < hi
    decreases hi
  {
    if lo >= hi then {} else HeightRange(lo, hi - 1) + {hi - 1}
  }

  /** The second half of a round: queue the deletion of the height left, and in the first round of
      all occupied heights above it. */
  method ClearHeights(headers: Store, hdr: Header, queued: Batch, origin: bool, ghost h: set<Hash>, ghost n: set<nat>)
    returns (batch: Batch, hole: nat)
    requires Erases(queued, h, n)
    ensures if origin then FirstEmpty(headers, hdr.number, hole) else hole == hdr.number + 1
    ensures Erases(batch, Swept(headers, hdr.number, hole, hdr.hash, h), n + HeightRange(hdr.number, hole))
  {
    var list: seq<nat>;
    ghost var m: set<nat>;
    list, hole := HeightsToClear(headers, hdr.number, origin);
    batch, m := QueueLevels(headers, queued, list, hdr.hash, hdr.number, hole, h, n);
    assert m == n + HeightRange(hdr.number, hole);
  }

  // ----- what the rounds delete

  /** The end of the heights cleared in round `n`, the first counting as one. */
  ghost function RoundEnd(marks: seq<Mark>, hole: nat, n: nat): (hi: nat)
    requires 1 <= n < |marks|
  {
    if n == 1 then hole else marks[n - 1].heads.header.number + 1
  }

  /** The blocks queued for deletion after `n` rounds, and the heights cleared. */
  ghost function Gone(headers: Store, marks: seq<Mark>, hole: nat, n: nat): (r: set<Hash>)
    requires n < |marks|
  {
    if n == 0 then {}
    else
      var hdr := marks[n - 1].heads.header;
      Swept(headers, hdr.number, RoundEnd(marks, hole, n), hdr.hash, Gone(headers, marks, hole, n - 1))
  }

  ghost function Nums(marks: seq<Mark>, hole: nat, n: nat): (r: set<nat>)
    requires n < |marks|
  {
    if n == 0 then {} else Nums(marks, hole, n - 1) + HeightRange(marks[n - 1].heads.header.number, RoundEnd(marks, hole, n))
  }

  lemma {:induction false} GoneSame(headers: Store, marks: seq<Mark>, more: seq<Mark>, hole: nat, n: nat)
    requires n < |marks| <= |more| && more[..|marks|] == marks
    ensures Gone(headers, more, hole, n) == Gone(headers, marks, hole, n) && Nums(more, hole, n) == Nums(marks, hole, n)
  {
    if n > 0 {
      GoneSame(headers, marks, more, hole, n - 1);
      assert more[n - 1] == more[..|marks|][n - 1];
    }
  }

  /** While the rounds go on they leave one stored height after the other. */
  lemma LeavesHeight(marks: seq<Mark>, genesis: Header, q: Request, t: Target, i: nat)
    requires Trace(marks, genesis, q) && Until(marks, t) && Possible(t, genesis) && i < |marks| - 1
    requires Keyed(marks[0].heads.db.headers) && Stored(marks[0].heads.db.headers, marks[0].heads.header)
    ensures marks[i].heads.header.number == marks[0].heads.header.number - i
    ensures marks[i].heads.header.hash in AtHeight(marks[0].heads.db.headers, marks[i].heads.header.number)
  {
    OnTheWay(marks, genesis, q, t, i);
    AncestorStored(marks[0].heads.db.headers, marks[0].heads.header, marks[i].heads.header.number);
  }

  /** The heights cleared, and what was stored there. */
  ghost predicate SweptFrom(headers: Store, lo: nat, hole: nat, gone: set<Hash>, nums: set<nat>)
  {
    gone == Between(headers, lo - 1, hole - 1) && nums == HeightRange(lo, hole)
  }

  /** In any store: exactly the blocks of all forks, and the index entries, from the last height left
      up to the first empty height above the old head.  What lies below, past a gap too, is kept. */
  lemma {:induction false} SweepExact(marks: seq<Mark>, genesis: Header, q: Request, t: Target, hole: nat, n: nat)
    requires Trace(marks, genesis, q) && Until(marks, t) && Possible(t, genesis) && 1 <= n < |marks|
    requires Keyed(marks[0].heads.db.headers) && Stored(marks[0].heads.db.headers, marks[0].heads.header)
    requires FirstEmpty(marks[0].heads.db.headers, marks[0].heads.header.number, hole)
    ensures marks[n - 1].heads.header.number == marks[0].heads.header.number - (n - 1)
    ensures SweptFrom(marks[0].heads.db.headers, marks[n - 1].heads.header.number, hole,
                      Gone(marks[0].heads.db.headers, marks, hole, n), Nums(marks, hole, n))
  {
    var headers, left := marks[0].heads.db.headers, marks[n - 1].heads.header;
    LeavesHeight(marks, genesis, q, t, n - 1);
    if n == 1 {
      SweepFirst(headers, left, hole);
    } else {
      SweepExact(marks, genesis, q, t, hole, n - 1);
      SweepStep(headers, left, hole, Gone(headers, marks, hole, n - 1), Nums(marks, hole, n - 1));
    }
  }

  lemma SweepFirst(headers: Store, head: Header, hole: nat)
    requires head.hash in AtHeight(headers, head.number) && FirstEmpty(headers, head.number, hole)
    ensures SweptFrom(headers, head.number, hole, Swept(headers, head.number, hole, head.hash, {}),
                      {} + HeightRange(head.number, hole))
  {
    SweptIs(headers, head.number, hole, head.hash, {});
  }

  lemma SweepStep(headers: Store, left: Header, hole: nat, gone: set<Hash>, nums: set<nat>)
    requires left.number + 1 <= hole && left.hash in AtHeight(headers, left.number)
    requires SweptFrom(headers, left.number + 1, hole, gone, nums)
    ensures SweptFrom(headers, left.number, hole, Swept(headers, left.number, left.number + 1, left.hash, gone),
                      nums + HeightRange(left.number, left.number + 1))
  {
    SweptIs(headers, left.number, left.number + 1, left.hash, gone);
  }

  // ----- the whole rewind

  /** Between two rounds: the target is not met before, and the batch holds what the rounds queued. */
  ghost predicate Rewinding(marks: seq<Mark>, genesis: Header, t: Target, q: Request, batch: Batch, hole: nat)
  {
    && Trace(marks, genesis, q) && Until(marks, t)
    && (|marks| > 1 ==> FirstEmpty(marks[0].heads.db.headers, marks[0].heads.header.number, hole))
    && Erases(batch, Gone(marks[0].heads.db.headers, marks, hole, |marks| - 1), Nums(marks, hole, |marks| - 1))
  }

  lemma RewindingStep(marks: seq<Mark>, genesis: Header, t: Target, q: Request, batch: Batch, hole: nat,
                      now: Mark, next: Batch, end: nat, hole': nat)
    requires Rewinding(marks, genesis, t, q, batch, hole)
    requires var last := marks[|marks| - 1];
             !Done(t, last.heads.header) && Round(last, now, genesis, q)
    requires hole' == if |marks| == 1 then end else hole
    requires var headers, hdr, n := marks[0].heads.db.headers, marks[|marks| - 1].heads.header, |marks| - 1;
             && (if |marks| == 1 then FirstEmpty(headers, hdr.number, end) else end == hdr.number + 1)
             && Erases(next, Swept(headers, hdr.number, end, hdr.hash, Gone(headers, marks, hole, n)),
                       Nums(marks, hole, n) + HeightRange(hdr.number, end))
    ensures Rewinding(marks + [now], genesis, t, q, next, hole')
  {
    TraceExtends(marks, genesis, q, now);
    QueuedErases(marks[0].heads.db.headers, marks, now, next, hole, end, hole');
  }

  lemma QueuedErases(headers: Store, marks: seq<Mark>, now: Mark, batch: Batch, hole: nat, end: nat, hole': nat)
    requires marks != [] && hole' == if |marks| == 1 then end else hole
    requires |marks| > 1 ==> end == marks[|marks| - 1].heads.header.number + 1
    requires var hdr, n := marks[|marks| - 1].heads.header, |marks| - 1;
             Erases(batch, Swept(headers, hdr.number, end, hdr.hash, Gone(headers, marks, hole, n)),
                    Nums(marks, hole, n) + HeightRange(hdr.number, end))
    ensures Erases(batch, Gone(headers, marks + [now], hole', |marks|), Nums(marks + [now], hole', |marks|))
  {
    var hdr, n := marks[|marks| - 1].heads.header, |marks| - 1;
    QueuedStep(headers, marks, now, hole, end, hole');
    ErasesSame(batch, Swept(headers, hdr.number, end, hdr.hash, Gone(headers, marks, hole, n)),
               Gone(headers, marks + [now], hole', n + 1), Nums(marks, hole, n) + HeightRange(hdr.number, end),
               Nums(marks + [now], hole', n + 1));
  }

  lemma QueuedStep(headers: Store, marks: seq<Mark>, now: Mark, hole: nat, end: nat, hole': nat)
    requires marks != [] && hole' == if |marks| == 1 then end else hole
    requires |marks| > 1 ==> end == marks[|marks| - 1].heads.header.number + 1
    ensures var hdr, n := marks[|marks| - 1].heads.header, |marks| - 1;
            && Gone(headers, marks + [now], hole', n + 1) ==
               Swept(headers, hdr.number, end, hdr.hash, Gone(headers, marks, hole, n))
            && Nums(marks + [now], hole', n + 1) == Nums(marks, hole, n) + HeightRange(hdr.number, end)
  {
    var n := |marks| - 1;
    GoneSame(headers, marks, marks + [now], hole', n);
    assert n == 0 ==> Gone(headers, marks, hole', n) == Gone(headers, marks, hole, n);
    assert n == 0 ==> Nums(marks, hole', n) == Nums(marks, hole, n);
  }

  lemma ErasesSame(batch: Batch, a: set<Hash>, b: set<Hash>, m: set<nat>, n: set<nat>)
    requires Erases(batch, a, m) && a == b && m == n
    ensures Erases(batch, b, n)
  {
  }

  /** The loop of `setHead`, before the queued deletions are flushed.  `marks` are the states between
      the rounds, one after each write of the markers. */
  method Rounds(bc: BlockChain, t: Target, q: Request)
    returns (batch: Batch, states: set<Hash>, crashed: bool, ghost marks: seq<Mark>, ghost hole: nat)
    requires Possible(t, bc.hc.genesisHeader)
    modifies bc, bc.hc
    ensures marks != [] && marks[0] == Mark(old(bc.Now()), q.states)
    ensures Trace(marks, bc.hc.genesisHeader, q) && Until(marks, t)
    ensures forall i: nat :: i < |marks| - 1 ==>
              if t.headTime > 0 then marks[i].heads.header.time > t.headTime else marks[i].heads.header.number > t.headBlock
    ensures crashed ==> CrashesNext(marks, bc.hc.genesisHeader, t, q)
    ensures !crashed ==>
              && marks[|marks| - 1] == Mark(bc.Now(), states) && Done(t, bc.hc.currentHeader)
              && Rewinding(marks, bc.hc.genesisHeader, t, q, batch, hole)
              && (if t.headTime > 0 then bc.hc.currentHeader.time <= t.headTime else bc.hc.currentHeader.number <= t.headBlock)
              && bc.hc.currentHeaderHash == if |marks| > 1 then bc.hc.currentHeader.hash else old(bc.hc.currentHeaderHash)
  {
    ghost var genesis := bc.hc.genesisHeader;
    batch, states, crashed, marks, hole := NewBatch, q.states, false, [Mark(bc.Now(), q.states)], 0;
    var origin := true;
    while !Done(t, bc.hc.currentHeader)
      invariant marks != [] && marks[0] == Mark(old(bc.Now()), q.states) && marks[|marks| - 1] == Mark(bc.Now(), states)
      invariant Rewinding(marks, genesis, t, q, batch, hole) && origin == (|marks| == 1) && !crashed
      invariant bc.hc.currentHeaderHash == if |marks| > 1 then bc.hc.currentHeader.hash else old(bc.hc.currentHeaderHash)
      decreases bc.hc.currentHeader.number, bc.hc.currentHeader != genesis
    {
      var hdr := bc.hc.currentHeader;
      ghost var headers, n := marks[0].heads.db.headers, |marks| - 1;
      assert bc.hc.db.headers == headers by {
        TablesStay(marks, genesis, q, n);
      }
      states, crashed := MoveHeads(bc, q.(states := states));
      if crashed {
        return;
      }
      ghost var queued := batch;
      var end: nat;
      batch, end := ClearHeights(bc.hc.db.headers, hdr, batch, origin, Gone(headers, marks, hole, n), Nums(marks, hole, n));
      ghost var first := if origin then end else hole;
      RewindingStep(marks, genesis, t, q, queued, hole, Mark(bc.Now(), states), batch, end, first);
      marks, hole, origin := marks + [Mark(bc.Now(), states)], first, false;
    }
  }

  /** The next update would crash. */
  ghost predicate CrashesNext(marks: seq<Mark>, genesis: Header, t: Target, q: Request)
    requires marks != []
  {
    var last, states := marks[|marks| - 1].heads, marks[|marks| - 1].states;
    && !Done(t, last.header)
    && Crashes(last.db.Blocks(), NextHeader(last.db.headers, genesis, last.header), q.(states := states), last.block)
  }

  /** The rewound database: exactly what lies at or below the new head is left. */
  ghost predicate RewoundDb(was: Db, now: Db, cur: Header)
  {
    && now.headers == was.headers - Above(was.headers, cur.number)
    && now.bodies == was.bodies - Above(was.headers, cur.number)
    && now.td == was.td - Above(was.headers, cur.number)
    && now.lookup == was.lookup
    && IsPath(now.headers, now.canon, cur)
  }

  lemma AfterFlush(first: Heads, genesis: Header, mark: Mark, q: Request, i: nat, gone: set<Hash>, nums: set<nat>)
    requires Consistent(first.db, genesis.hash, first.header) && FullTree(first.db, genesis) && After(first, mark, genesis, q, i)
    requires i > 0 && gone == Above(first.db.headers, mark.heads.header.number)
    requires forall k: nat :: k in first.db.canon ==> (k in nums <==> k > mark.heads.header.number)
    ensures var flushed := mark.heads.(db := Erase(mark.heads.db, gone, nums));
            RewoundDb(first.db, flushed.db, flushed.header) && Stands(flushed, genesis.hash) && MarkersExist(flushed.db)
  {
    var was, cur := first.db, mark.heads.header;
    TruncationSound(was.headers, was.td, cur.number);
    TruncationPath(was.headers, was.canon, nums, first.header, cur);
    KeptOnPath(was.headers, cur, mark.heads.block);
    KeptOnPath(was.headers, cur, mark.heads.snap);
  }

  lemma KeptOnPath(headers: Store, cur: Header, b: Header)
    requires Closed(headers) && Stored(headers, cur) && OnPath(headers, cur, b)
    ensures OnPath(headers - Above(headers, cur.number), cur, b) && Stored(headers - Above(headers, cur.number), b)
  {
    var kept := headers - Above(headers, cur.number);
    TruncationClosed(headers, cur.number);
    AncestorTotal(kept, cur, b.number);
    AncestorExtends(kept, headers, cur, b.number);
  }

  /** In a full-sync database the rounds delete everything above the new head. */
  lemma SweepIsAbove(marks: seq<Mark>, genesis: Header, q: Request, t: Target, hole: nat)
    requires Trace(marks, genesis, q) && Until(marks, t) && Possible(t, genesis) && |marks| > 1
    requires FullTree(marks[0].heads.db, genesis) && Stands(marks[0].heads, genesis.hash)
    requires FirstEmpty(marks[0].heads.db.headers, marks[0].heads.header.number, hole)
    ensures var first, cur, n := marks[0].heads, marks[|marks| - 1].heads.header, |marks| - 1;
            && Gone(first.db.headers, marks, hole, n) == Above(first.db.headers, cur.number)
            && forall k: nat :: k in first.db.canon ==> (k in Nums(marks, hole, n) <==> k > cur.number)
  {
    var headers, cur, n := marks[0].heads.db.headers, marks[|marks| - 1].heads.header, |marks| - 1;
    SweepExact(marks, genesis, q, t, hole, n);
    assert After(marks[0].heads, marks[n], genesis, q, n) by {
      TraceHolds(marks, genesis, q, t, n);
    }
    assert Between(headers, cur.number, hole - 1) == Above(headers, cur.number) by {
      NothingAboveHole(headers, hole);
      assert forall hash :: hash in headers ==> hash !in Above(headers, hole - 1);
    }
  }

  /** A finished rewind of a full-sync database: the rounds are `marks`, and the flush leaves exactly
      what lies at or below the new head, on which all heads stand. */
  ghost predicate Rewound(marks: seq<Mark>, now: Heads, genesis: Header, t: Target, q: Request)
    requires marks != []
  {
    var first, last := marks[0].heads, marks[|marks| - 1].heads;
    && HighestDone(first.db.headers, first.header, t, last.header)
    && now == last.(db := now.db)
    && (if |marks| == 1 then now == first else RewoundDb(first.db, now.db, now.header))
    && Stands(now, genesis.hash) && MarkersExist(now.db)
    && forall i :: 0 <= i < |marks| ==> After(first, marks[i], genesis, q, i)
  }

  /** A finished rewind of any database: the rounds go on until the target is met, and the flush
      deletes what they queued. */
  ghost predicate Flushed(marks: seq<Mark>, hole: nat, now: Heads, genesis: Header, t: Target, q: Request)
    requires marks != []
  {
    var first, last, n := marks[0].heads, marks[|marks| - 1].heads, |marks| - 1;
    && Trace(marks, genesis, q) && Until(marks, t) && Done(t, last.header)
    && (n > 0 ==> FirstEmpty(first.db.headers, first.header.number, hole))
    && now == last.(db := Erase(last.db, Gone(first.db.headers, marks, hole, n), Nums(marks, hole, n)))
  }

  lemma RewindDone(marks: seq<Mark>, hole: nat, now: Heads, genesis: Header, t: Target, q: Request)
    requires marks != [] && Flushed(marks, hole, now, genesis, t, q) && Possible(t, genesis)
    requires FullTree(marks[0].heads.db, genesis) && Stands(marks[0].heads, genesis.hash)
    ensures Rewound(marks, now, genesis, t, q)
  {
    var first, n := marks[0].heads, |marks| - 1;
    forall i | 0 <= i < |marks| ensures After(first, marks[i], genesis, q, i) {
      TraceHolds(marks, genesis, q, t, i);
    }
    FullReaches(marks, genesis, q, t);
    if n > 0 {
      SweepIsAbove(marks, genesis, q, t, hole);
      AfterFlush(first, genesis, marks[n], q, n, Gone(first.db.headers, marks, hole, n), Nums(marks, hole, n));
    } else {
      assert now.db == first.db;
      HeadsExist(first.db, genesis, first.header, first.block, first.snap);
    }
  }

  lemma FullReaches(marks: seq<Mark>, genesis: Header, q: Request, t: Target)
    requires Trace(marks, genesis, q) && Until(marks, t) && Possible(t, genesis) && Done(t, marks[|marks| - 1].heads.header)
    requires FullTree(marks[0].heads.db, genesis) && Stands(marks[0].heads, genesis.hash)
    ensures HighestDone(marks[0].heads.db.headers, marks[0].heads.header, t, marks[|marks| - 1].heads.header)
  {
    var first, n := marks[0].heads, |marks| - 1;
    assert DoneAt(first.db.headers, first.header, t, first.header.number - n) && n <= first.header.number by {
      TraceHolds(marks, genesis, q, t, n);
    }
    GapExact(marks, genesis, q, t);
  }

  lemma NeverCrashes(marks: seq<Mark>, genesis: Header, t: Target, q: Request)
    requires marks != [] && Possible(t, genesis)
    requires FullTree(marks[0].heads.db, genesis) && Stands(marks[0].heads, genesis.hash)
    ensures !Crashed(marks, genesis, t, q)
  {
    var last := marks[|marks| - 1];
    if Trace(marks, genesis, q) && Until(marks, t) && !Done(t, last.heads.header) {
      TraceHolds(marks, genesis, q, t, |marks| - 1);
      var db, header := last.heads.db, last.heads.header;
      GenesisDone(db, genesis, t, header);
      ClosedAt(db.headers, header.hash);
      NothingCrashes(db, genesis, Parent(db.headers, header).value, q.(states := last.states), last.heads.block);
    }
  }

  /** The rewind to a target that genesis meets. */
  method RewindTo(bc: BlockChain, t: Target, q: Request)
    returns (crashed: bool, states: set<Hash>, ghost marks: seq<Mark>, ghost hole: nat)
    requires Possible(t, bc.hc.genesisHeader)
    modifies bc, bc.hc
    ensures marks != [] && marks[0] == Mark(old(bc.Now()), q.states)
    ensures crashed ==> Crashed(marks, bc.hc.genesisHeader, t, q)
    ensures !crashed ==> Flushed(marks, hole, bc.Now(), bc.hc.genesisHeader, t, q) && states == marks[|marks| - 1].states
    ensures !crashed ==> bc.hc.currentHeaderHash == if |marks| > 1 then bc.hc.currentHeader.hash else old(bc.hc.currentHeaderHash)
  {
    var batch: Batch;
    batch, states, crashed, marks, hole := Rounds(bc, t, q);
    if !crashed {
      bc.hc.db := Write(bc.hc.db, batch);
    }
  }

  /** The rounds came to an update that crashes. */
  ghost predicate Crashed(marks: seq<Mark>, genesis: Header, t: Target, q: Request)
    requires marks != []
  {
    Trace(marks, genesis, q) && Until(marks, t) && CrashesNext(marks, genesis, t, q)
  }

  /** Rewind the chain, in any database.  The rounds go on until the target is met: by `GapExact` on
      the highest stored ancestor that meets it or, past a gap, on genesis; the flush deletes what
      `SweepExact` says.  It crashes exactly when an update does.  A rewind below genesis is refused. */
  method Rewind(bc: BlockChain, t: Target, q: Request)
    returns (crit: bool, crashed: bool, states: set<Hash>, ghost marks: seq<Mark>, ghost hole: nat)
    requires bc.hc.genesisHeader.number == 0
    modifies bc, bc.hc
    ensures crit <==> t.headTime > 0 && bc.hc.genesisHeader.time > t.headTime
    ensures marks != [] && marks[0] == Mark(old(bc.Now()), q.states)
    ensures crit ==> bc.Now() == old(bc.Now()) && bc.hc.currentHeaderHash == old(bc.hc.currentHeaderHash) && !crashed
    ensures crashed ==> Crashed(marks, bc.hc.genesisHeader, t, q)
    ensures !crit && !crashed ==> Flushed(marks, hole, bc.Now(), bc.hc.genesisHeader, t, q) && states == marks[|marks| - 1].states
    ensures !crit && !crashed ==>
              if t.headTime > 0 then bc.hc.currentHeader.time <= t.headTime else bc.hc.currentHeader.number <= t.headBlock
    ensures forall i: nat :: i < |marks| - 1 ==>
              if t.headTime > 0 then marks[i].heads.header.time > t.headTime else marks[i].heads.header.number > t.headBlock
    ensures !crit && !crashed ==>
              bc.hc.currentHeaderHash == if |marks| > 1 then bc.hc.currentHeader.hash else old(bc.hc.currentHeaderHash)
  {
    crit, crashed, states := t.headTime > 0 && bc.hc.genesisHeader.time > t.headTime, false, q.states;
    marks, hole := [Mark(bc.Now(), q.states)], 0;
    if !crit {
      crashed, states, marks, hole := RewindTo(bc, t, q);
    }
  }

  /** In a full-sync database nothing crashes.  The rewind ends on the highest canonical header that
      meets the target, with nothing above it left on any fork and everything at or below it kept;
      the block head is lowered to a stateful one; and after every single database write, one per
      mark and the final flush, the markers name data that still exists. */
  method RewindFullSync(bc: BlockChain, t: Target, q: Request) returns (crit: bool, states: set<Hash>, ghost marks: seq<Mark>)
    requires FullTree(bc.hc.db, bc.hc.genesisHeader) && bc.Standing()
    modifies bc, bc.hc
    ensures bc.Standing() && (crit <==> t.headTime > 0 && bc.hc.genesisHeader.time > t.headTime)
    ensures marks != [] && marks[0] == Mark(old(bc.Now()), q.states)
    ensures if crit then bc.Now() == old(bc.Now())
            else
              && Trace(marks, bc.hc.genesisHeader, q) && Rewound(marks, bc.Now(), bc.hc.genesisHeader, t, q)
              && states == marks[|marks| - 1].states
    // to a time: the highest canonical header not younger than it
    ensures !crit && t.headTime > 0 ==>
              && bc.hc.currentHeader.time <= t.headTime
              && Ancestor(old(bc.hc.db.headers), old(bc.hc.currentHeader), bc.hc.currentHeader.number) == Some(bc.hc.currentHeader)
              && forall n: nat :: bc.hc.currentHeader.number < n <= old(bc.hc.currentHeader.number) ==>
                   && Ancestor(old(bc.hc.db.headers), old(bc.hc.currentHeader), n).Some?
                   && Ancestor(old(bc.hc.db.headers), old(bc.hc.currentHeader), n).value.time > t.headTime
    // to a number: the canonical header there, if there is one
    ensures !crit && t.headTime == 0 ==>
              && bc.hc.currentHeader.number == (if t.headBlock < old(bc.hc.currentHeader.number) then t.headBlock
                                                else old(bc.hc.currentHeader.number))
              && Ancestor(old(bc.hc.db.headers), old(bc.hc.currentHeader), bc.hc.currentHeader.number) == Some(bc.hc.currentHeader)
  {
    ghost var genesis := bc.hc.genesisHeader;
    var crashed: bool;
    ghost var hole: nat;
    crit, crashed, states, marks, hole := Rewind(bc, t, q);
    if !crit {
      NeverCrashes(marks, genesis, t, q);
      RewindDone(marks, hole, bc.Now(), genesis, t, q);
      ModeTarget(old(bc.hc.db.headers), old(bc.hc.currentHeader), t, bc.hc.currentHeader);
    }
  }

  /** What a rewind that moved the head leaves, said outright: exactly the headers, bodies and total
      difficulties at or below the new head and the index up to it; the snap block comes down with the
      head; and, without a requested root or a pivot, the block head is the highest block with its
      state, if the head came down to it. */
  lemma RewoundMeans(marks: seq<Mark>, now: Heads, genesis: Header, t: Target, q: Request)
    requires |marks| > 1 && Rewound(marks, now, genesis, t, q)
    ensures var was, cur := marks[0].heads, now.header;
            && (forall h: Hash :: h in now.db.headers <==> h in was.db.headers && was.db.headers[h].number <= cur.number)
            && (forall h: Hash :: h in was.db.headers ==>
                  && (h in now.db.bodies <==> h in was.db.bodies && was.db.headers[h].number <= cur.number)
                  && (h in now.db.td <==> h in was.db.td && was.db.headers[h].number <= cur.number))
            && (forall h: Hash :: h in now.db.headers ==> now.db.headers[h] == was.db.headers[h])
            && (forall n: nat :: n in now.db.canon <==> n <= cur.number)
            && now.snap == (if cur.number < was.snap.number then cur else was.snap)
            && (cur.number > was.block.number ==> now.block == was.block)
            && (cur.number <= was.block.number ==> now.block.root in q.states + {genesis.root})
            && (cur.number <= was.block.number && q.root == NO_HASH && q.pivot.None? ==>
                  forall n: nat :: now.block.number < n <= cur.number && Ancestor(was.db.headers, cur, n).Some? ==>
                    Ancestor(was.db.headers, cur, n).value.root !in q.states)
  {
    var was, last := marks[0].heads, |marks| - 1;
    assert After(was, marks[last], genesis, q, last);
    if now.header.number <= was.block.number && q.root == NO_HASH && q.pivot.None? {
      forall n: nat | now.block.number < n <= now.header.number && Ancestor(was.db.headers, now.header, n).Some?
        ensures Ancestor(was.db.headers, now.header, n).value.root !in q.states
      {
        assert !Stateful(was.db.headers, now.header, q, n);
      }
    }
  }

  lemma ModeTarget(headers: Store, head: Header, t: Target, cur: Header)
    requires HighestDone(headers, head, t, cur)
    ensures Ancestor(headers, head, cur.number) == Some(cur)
    ensures t.headTime > 0 ==>
              && cur.time <= t.headTime
              && forall n: nat :: cur.number < n <= head.number ==>
                   Ancestor(headers, head, n).Some? && Ancestor(headers, head, n).value.time > t.headTime
    ensures t.headTime == 0 ==> cur.number == if t.headBlock < head.number then t.headBlock else head.number
  {
    if t.headTime > 0 {
      TimeModeTarget(headers, head, t, cur);
    } else {
      BlockModeTarget(headers, head, t, cur);
    }
  }
}
