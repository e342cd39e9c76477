/** The states a rewind passes through: after each marker write, where the heads stand. */
module RewindTrace {
  import opened Options
  import opened ChainTree
  import opened ChainDb
  import opened BlockChains
  import opened StateRewind

  /** The three persisted markers name stored blocks. */
  ghost predicate MarkersExist(db: Db)
  {
    && db.headHeader in db.headers
    && db.headBlock in db.headers && db.headBlock in db.bodies
    && db.headFast in db.headers && db.headFast in db.bodies
  }

  /** Full-sync tables: closed under parents, one root, a body for every header. */
  ghost predicate FullTree(db: Db, genesis: Header)
  {
    && Closed(db.headers) && Rooted(db.headers, genesis.hash) && db.bodies.Keys == db.headers.Keys
    && Stored(db.headers, genesis) && genesis.number == 0
  }

  lemma HeadsExist(db: Db, genesis: Header, head: Header, block: Header, snap: Header)
    requires FullTree(db, genesis) && HeadsAgree(db, head, block, snap)
    ensures MarkersExist(db)
  {
    AncestorStored(db.headers, head, block.number);
    AncestorStored(db.headers, head, snap.number);
  }

  // ----- what the update callback does to the heads

  /** The heads, and the state roots available. */
  datatype Mark = Mark(heads: Heads, states: set<Hash>)

  /** The only state a rewind can add is that of genesis. */
  ghost predicate StatesGrow(was: set<Hash>, now: set<Hash>, genesis: Header)
  {
    was <= now <= was + {genesis.root}
  }

  /** The snap block comes down to the header's block, or to genesis if that is missing. */
  ghost predicate SnapLowered(blocks: Store, genesis: Header, header: Header, was: Header, now: Header)
  {
    var found := Get(blocks, header.hash, header.number);
    now == if header.number >= was.number then was else if found.Some? then found.value else genesis
  }

  /** The block head, unless it is below the header already, comes down to where the rewind loop
      from the header's block must end, and has its state; if that block is missing, to genesis. */
  ghost predicate HeadLowered(blocks: Store, genesis: Header, header: Header, q: Request, was: Header, now: Header,
                              states: set<Hash>)
  {
    var found := Get(blocks, header.hash, header.number);
    if header.number > was.number then now == was && states == q.states
    else if found.None? then now == genesis && states == q.states
    else now.root in states && RewoundTo(blocks, genesis, found.value, q, now)
  }

  ghost predicate Lowered(blocks: Store, genesis: Header, header: Header, q: Request, was: Mark, now: Mark)
  {
    && SnapLowered(blocks, genesis, header, was.heads.snap, now.heads.snap) && StatesGrow(was.states, now.states, genesis)
    && HeadLowered(blocks, genesis, header, q.(states := was.states), was.heads.block, now.heads.block, now.states)
  }

  /** The rewind loop for the header's block crashes. */
  ghost predicate Crashes(blocks: Store, header: Header, q: Request, block: Header)
  {
    var found := Get(blocks, header.hash, header.number);
    header.number <= block.number && found.Some? && exists n: nat :: CrashAt(blocks, found.value, q, n)
  }

  /** The block markers after the callback: those of the heads that were lowered. */
  function LoweredMarkers(db: Db, header: Header, was: Heads, now: Heads): (r: Db)
  {
    db.(headBlock := if header.number <= was.block.number then now.block.hash else db.headBlock,
        headFast := if header.number < was.snap.number then now.snap.hash else db.headFast)
  }

  /** The header the rewind goes to next: the parent, or genesis if that is missing. */
  function NextHeader(headers: Store, genesis: Header, h: Header): (next: Header)
  {
    var parent := Parent(headers, h);
    if parent.Some? then parent.value else genesis
  }

  /** One round of a rewind: the header head moves on, the block heads follow, and one write moves
      the markers. */
  ghost predicate Round(was: Mark, now: Mark, genesis: Header, q: Request)
  {
    var db, header := was.heads.db, now.heads.header;
    && header == NextHeader(db.headers, genesis, was.heads.header)
    && Lowered(db.Blocks(), genesis, header, q, was, now)
    && now.heads.db == LoweredMarkers(db, header, was.heads, now.heads).(headHeader := header.hash)
  }

  ghost predicate RoundAt(marks: seq<Mark>, genesis: Header, q: Request, i: nat)
    requires i + 1 < |marks|
  {
    Round(marks[i], marks[i + 1], genesis, q)
  }

  /** Rounds one after the other. */
  ghost predicate Trace(marks: seq<Mark>, genesis: Header, q: Request)
  {
    marks != [] && marks[0].states == q.states && forall i :: 0 <= i < |marks| - 1 ==> RoundAt(marks, genesis, q, i)
  }

  lemma TraceExtends(marks: seq<Mark>, genesis: Header, q: Request, now: Mark)
    requires Trace(marks, genesis, q) && Round(marks[|marks| - 1], now, genesis, q)
    ensures Trace(marks + [now], genesis, q)
  {
    forall i: nat | i < |marks| ensures RoundAt(marks + [now], genesis, q, i) {
      assert i < |marks| - 1 ==> RoundAt(marks, genesis, q, i);
    }
  }

  /** Rounds write markers only. */
  lemma {:induction false} TablesStay(marks: seq<Mark>, genesis: Header, q: Request, i: nat)
    requires Trace(marks, genesis, q) && i < |marks|
    ensures marks[i].heads.db.headers == marks[0].heads.db.headers && marks[i].heads.db.bodies == marks[0].heads.db.bodies
    ensures marks[i].heads.db.canon == marks[0].heads.db.canon
  {
    if i > 0 {
      TablesStay(marks, genesis, q, i - 1);
      assert RoundAt(marks, genesis, q, i - 1);
    }
  }

  // ----- where the header head goes, in any store

  /** Rewind to a block number, or to a time if that is not zero. */
  datatype Target = Target(headBlock: nat, headTime: nat)

  predicate Done(t: Target, h: Header)
  {
    if t.headTime > 0 then h.time <= t.headTime else h.number <= t.headBlock
  }

  /** Genesis meets the target. */
  predicate Possible(t: Target, genesis: Header)
  {
    genesis.number == 0 && (t.headTime > 0 ==> genesis.time <= t.headTime)
  }

  /** The ancestor of `head` at height `n` is still too new. */
  predicate TooNew(headers: Store, head: Header, t: Target, n: nat)
  {
    var a := Ancestor(headers, head, n);
    a.Some? && !Done(t, a.value)
  }

  predicate DoneAt(headers: Store, head: Header, t: Target, n: nat)
  {
    var a := Ancestor(headers, head, n);
    a.Some? && Done(t, a.value)
  }

  /** `cur` is the highest ancestor of `head` that meets the target. */
  ghost predicate HighestDone(headers: Store, head: Header, t: Target, cur: Header)
  {
    && OnPath(headers, head, cur) && Done(t, cur)
    && forall n: nat :: cur.number < n <= head.number ==> TooNew(headers, head, t, n)
  }

  /** In time mode that is the highest ancestor that is not younger than the target time. */
  lemma TimeModeTarget(headers: Store, head: Header, t: Target, cur: Header)
    requires t.headTime > 0 && HighestDone(headers, head, t, cur)
    ensures cur.time <= t.headTime && Ancestor(headers, head, cur.number) == Some(cur)
    ensures forall n: nat :: cur.number < n <= head.number ==>
              Ancestor(headers, head, n).Some? && Ancestor(headers, head, n).value.time > t.headTime
  {
    forall n: nat | cur.number < n <= head.number
      ensures Ancestor(headers, head, n).Some? && Ancestor(headers, head, n).value.time > t.headTime
    {
      assert TooNew(headers, head, t, n);
    }
  }

  /** In block mode it is the ancestor at the target number, or the head if that is lower. */
  lemma BlockModeTarget(headers: Store, head: Header, t: Target, cur: Header)
    requires t.headTime == 0 && HighestDone(headers, head, t, cur)
    ensures cur.number == if t.headBlock < head.number then t.headBlock else head.number
    ensures Ancestor(headers, head, cur.number) == Some(cur)
  {
    assert cur.number < head.number ==> TooNew(headers, head, t, cur.number + 1);
  }

  /** The rounds went on exactly until the target was met. */
  ghost predicate Until(marks: seq<Mark>, t: Target)
    requires marks != []
  {
    forall i :: 0 <= i < |marks| - 1 ==> !Done(t, marks[i].heads.header)
  }

  /** After `i` rounds the header head is the ancestor `i` below or, past a gap, genesis; and genesis
      ends the rewind. */
  lemma {:induction false} HeaderPath(marks: seq<Mark>, genesis: Header, q: Request, t: Target, i: nat)
    requires Trace(marks, genesis, q) && Until(marks, t) && Possible(t, genesis) && i < |marks|
    ensures var headers, head, at := marks[0].heads.db.headers, marks[0].heads.header, marks[i].heads.header;
            || (i <= head.number && Ancestor(headers, head, head.number - i) == Some(at))
            || (at == genesis && i == |marks| - 1)
  {
    var headers, head := marks[0].heads.db.headers, marks[0].heads.header;
    if i > 0 {
      HeaderPath(marks, genesis, q, t, i - 1);
      TablesStay(marks, genesis, q, i - 1);
      assert RoundAt(marks, genesis, q, i - 1);
      var before := marks[i - 1].heads.header;
      if before.number > 0 {
        AncestorStep(headers, head, before.number);
      }
      assert i < |marks| - 1 ==> !Done(t, marks[i].heads.header);
    }
  }

  /** While the target is not met, the walk stays on the path. */
  lemma OnTheWay(marks: seq<Mark>, genesis: Header, q: Request, t: Target, i: nat)
    requires Trace(marks, genesis, q) && Until(marks, t) && Possible(t, genesis) && i < |marks| - 1
    ensures var head := marks[0].heads.header;
            i <= head.number && Ancestor(marks[0].heads.db.headers, head, head.number - i) == Some(marks[i].heads.header)
  {
    HeaderPath(marks, genesis, q, t, i);
  }

  lemma {:induction false} HighestOf(headers: Store, head: Header, t: Target, n: nat, top: nat) returns (m: nat)
    requires DoneAt(headers, head, t, n) && n <= top
    ensures n <= m <= top && DoneAt(headers, head, t, m)
    ensures forall k: nat :: m < k <= top ==> !DoneAt(headers, head, t, k)
    decreases top - n
  {
    if k: nat :| n < k <= top && DoneAt(headers, head, t, k) {
      m := HighestOf(headers, head, t, k, top);
    } else {
      m := n;
    }
  }

  /** The walk comes to the ancestor at height `n` if all above are too new. */
  lemma {:induction false} WalkComesTo(marks: seq<Mark>, genesis: Header, q: Request, t: Target, n: nat, i: nat)
    requires Trace(marks, genesis, q) && Until(marks, t) && Possible(t, genesis) && Done(t, marks[|marks| - 1].heads.header)
    requires var head := marks[0].heads.header;
             && n <= head.number && i <= head.number - n && Ancestor(marks[0].heads.db.headers, head, n).Some?
             && forall k: nat :: n < k <= head.number ==> !DoneAt(marks[0].heads.db.headers, head, t, k)
    ensures i < |marks|
    ensures var head := marks[0].heads.header;
            Ancestor(marks[0].heads.db.headers, head, head.number - i) == Some(marks[i].heads.header)
  {
    var headers, head := marks[0].heads.db.headers, marks[0].heads.header;
    if i > 0 {
      WalkComesTo(marks, genesis, q, t, n, i - 1);
      var before := marks[i - 1].heads.header;
      assert !DoneAt(headers, head, t, before.number);
      TablesStay(marks, genesis, q, i - 1);
      assert RoundAt(marks, genesis, q, i - 1);
      AncestorStep(headers, head, before.number);
      if Parent(headers, before).None? {
        AncestorMissing(headers, head, before.number - 1, n);
      }
    }
  }

  /** The rewind ends on the highest ancestor that meets the target exactly when some stored ancestor
      does; past a gap in the headers it ends on genesis. */
  lemma GapExact(marks: seq<Mark>, genesis: Header, q: Request, t: Target)
    requires Trace(marks, genesis, q) && Until(marks, t) && Possible(t, genesis) && Done(t, marks[|marks| - 1].heads.header)
    ensures var headers, head, cur := marks[0].heads.db.headers, marks[0].heads.header, marks[|marks| - 1].heads.header;
            && (HighestDone(headers, head, t, cur) <==> exists n: nat :: n <= head.number && DoneAt(headers, head, t, n))
            && (HighestDone(headers, head, t, cur) || cur == genesis)
            && (if t.headTime > 0 then cur.time <= t.headTime else cur.number <= t.headBlock)
    ensures forall i: nat :: i < |marks| - 1 ==>
              if t.headTime > 0 then marks[i].heads.header.time > t.headTime else marks[i].heads.header.number > t.headBlock
  {
    var headers, head, last := marks[0].heads.db.headers, marks[0].heads.header, |marks| - 1;
    var cur := marks[last].heads.header;
    if n: nat :| n <= head.number && DoneAt(headers, head, t, n) {
      var m := HighestOf(headers, head, t, n, head.number);
      WalkComesTo(marks, genesis, q, t, m, head.number - m);
      assert head.number - m == last;
      forall k: nat | m < k <= head.number ensures TooNew(headers, head, t, k) {
        WalkComesTo(marks, genesis, q, t, m, head.number - k);
        assert !DoneAt(headers, head, t, k);
      }
    } else {
      assert HighestDone(headers, head, t, cur) ==> DoneAt(headers, head, t, cur.number) && cur.number <= head.number;
      HeaderPath(marks, genesis, q, t, last);
      assert last <= head.number && Ancestor(headers, head, head.number - last) == Some(cur) ==>
               DoneAt(headers, head, t, head.number - last);
    }
  }

  // ----- full-sync databases

  /** With nothing missing, lowering means: the snap block comes down to the header itself, and the
      block head to where the rewind from it must end. */
  ghost predicate PlainLowered(headers: Store, genesis: Header, header: Header, q: Request, was: Mark, now: Mark)
  {
    && SnapAt(header, was.heads.snap, now.heads.snap) && StatesGrow(was.states, now.states, genesis)
    && HeadRewound(headers, genesis, header, q.(states := was.states), was.heads.block, now.heads.block, now.states)
  }

  ghost predicate SnapAt(header: Header, was: Header, now: Header)
  {
    now == if header.number < was.number then header else was
  }

  ghost predicate HeadRewound(headers: Store, genesis: Header, header: Header, q: Request, was: Header, now: Header,
                              states: set<Hash>)
  {
    if header.number <= was.number
    then now.root in states && RewoundTo(headers, genesis, header, q, now)
    else now == was && states == q.states
  }

  lemma LoweredPlainly(db: Db, genesis: Header, header: Header, q: Request, was: Mark, now: Mark)
    requires FullTree(db, genesis) && Stored(db.headers, header) && Lowered(db.Blocks(), genesis, header, q, was, now)
    ensures PlainLowered(db.headers, genesis, header, q, was, now)
  {
    BlocksAreHeaders(db);
  }

  /** Nothing crashes. */
  lemma NothingCrashes(db: Db, genesis: Header, header: Header, q: Request, block: Header)
    requires FullTree(db, genesis) && Stored(db.headers, header)
    ensures !Crashes(db.Blocks(), header, q, block)
  {
    BlocksAreHeaders(db);
    forall n: nat ensures !CrashAt(db.headers, header, q, n) {
      if 0 < n <= header.number {
        AncestorTotal(db.headers, header, n - 1);
      }
    }
  }

  /** Only the markers changed, and they name the heads. */
  ghost predicate MarkersMoved(was: Heads, now: Heads)
  {
    now.db == was.db.(headHeader := now.header.hash, headBlock := now.block.hash, headFast := now.snap.hash)
  }

  /** In a closed store with one root, genesis included, a rewind ends on the ancestor path. */
  lemma RewoundOnPath(blocks: Store, genesis: Header, start: Header, q: Request, r: Header)
    requires Closed(blocks) && Rooted(blocks, genesis.hash) && Stored(blocks, genesis) && genesis.number == 0
    requires Stored(blocks, start) && RewoundTo(blocks, genesis, start, q, r)
    ensures OnPath(blocks, start, r)
  {
    AncestorTotal(blocks, start, 0);
  }

  lemma BelowOnPath(headers: Store, head: Header, header: Header, b: Header)
    requires OnPath(headers, head, b) && OnPath(headers, head, header) && b.number <= header.number <= head.number
    ensures OnPath(headers, header, b)
  {
    AncestorTrans(headers, head, header.number, b.number);
  }

  /** Lowering leaves the block heads on the path of the header. */
  lemma LoweredOnPath(db: Db, genesis: Header, head: Header, header: Header, q: Request, was: Mark, now: Mark)
    requires FullTree(db, genesis) && HeadsAgree(db, head, was.heads.block, was.heads.snap)
    requires OnPath(db.headers, head, header) && header.number <= head.number
    requires PlainLowered(db.headers, genesis, header, q, was, now)
    ensures Stored(db.headers, header)
    ensures OnPath(db.headers, header, now.heads.block) && OnPath(db.headers, header, now.heads.snap)
  {
    AncestorStored(db.headers, head, header.number);
    if header.number <= was.heads.block.number {
      RewoundOnPath(db.headers, genesis, header, q.(states := was.states), now.heads.block);
    } else {
      BelowOnPath(db.headers, head, header, was.heads.block);
    }
    if header.number >= was.heads.snap.number {
      BelowOnPath(db.headers, head, header, was.heads.snap);
    }
  }

  /** A round goes to the parent, keeps the heads in order, and its markers name stored blocks. */
  lemma RoundKeeps(was: Mark, now: Mark, genesis: Header, q: Request)
    requires FullTree(was.heads.db, genesis) && HeadsAgree(was.heads.db, was.heads.header, was.heads.block, was.heads.snap)
    requires Round(was, now, genesis, q) && was.heads.header.number > 0
    ensures Parent(was.heads.db.headers, was.heads.header) == Some(now.heads.header)
    ensures PlainLowered(was.heads.db.headers, genesis, now.heads.header, q, was, now) && MarkersMoved(was.heads, now.heads)
    ensures FullTree(now.heads.db, genesis) && HeadsAgree(now.heads.db, now.heads.header, now.heads.block, now.heads.snap)
    ensures MarkersExist(now.heads.db)
  {
    var db, head, header := was.heads.db, was.heads.header, now.heads.header;
    ClosedAt(db.headers, head.hash);
    AncestorStep(db.headers, head, head.number);
    LoweredPlainly(db, genesis, header, q, was, now);
    LoweredOnPath(db, genesis, head, header, q, was, now);
    HeadsExist(now.heads.db, genesis, header, now.heads.block, now.heads.snap);
  }

  // ----- the block head over a whole rewind

  /** No block strictly above `block` on the path of `cur` has its state. */
  ghost predicate NoStateBetween(headers: Store, cur: Header, block: Header, q: Request)
  {
    forall n: nat :: block.number < n <= cur.number ==> !Stateful(headers, cur, q, n)
  }

  /** Without a requested root or a pivot, the rewind loop ends on the highest stateful block. */
  lemma {:induction false} PlainRewind(blocks: Store, genesis: Header, start: Header, q: Request, r: Header, n: nat)
    requires Closed(blocks) && Stored(blocks, start) && RewoundTo(blocks, genesis, start, q, r)
    requires q.root == NO_HASH && q.pivot.None? && genesis.number == 0
    requires r.number < n <= start.number
    ensures !Stateful(blocks, start, q, n)
    decreases start.number - n
  {
    AncestorTotal(blocks, start, n);
    forall m: nat | n < m <= start.number ensures Passes(blocks, start, q, m) {
      PlainRewind(blocks, genesis, start, q, r, m);
    }
    assert Reaches(blocks, start, q, n);
    assert Reaches(blocks, start, q, r.number) ==> Passes(blocks, start, q, n);
  }

  /** The block is genesis, or at or below a block of the chain with the requested root. */
  ghost predicate BelowRoot(headers: Store, head: Header, q: Request, block: Header)
  {
    block.number == 0 || q.root == NO_HASH || exists m: nat :: block.number <= m && RootAt(headers, head, q, m)
  }

  lemma RewoundBelowRoot(headers: Store, genesis: Header, head: Header, header: Header, q: Request, states: set<Hash>, r: Header)
    requires OnPath(headers, head, header) && header.number <= head.number && genesis.number == 0
    requires RewoundTo(headers, genesis, header, q.(states := states), r)
    ensures BelowRoot(headers, head, q, r)
  {
    if q.root != NO_HASH && r.number > 0 {
      var m: nat :| r.number <= m && RootAt(headers, header, q.(states := states), m);
      AncestorTrans(headers, head, header.number, m);
      assert RootAt(headers, head, q, m);
    }
  }

  lemma LoweredPlain(headers: Store, genesis: Header, cur: Header, header: Header, q: Request, states: set<Hash>, was: Header,
                     now: Header, after: set<Hash>)
    requires Closed(headers) && Stored(headers, cur) && Parent(headers, cur) == Some(header) && genesis.number == 0
    requires HeadRewound(headers, genesis, header, q.(states := states), was, now, after)
    requires q.root == NO_HASH && q.pivot.None? && q.states <= states
    requires header.number <= was.number || NoStateBetween(headers, cur, was, q)
    ensures NoStateBetween(headers, header, now, q)
  {
    forall n: nat | now.number < n <= header.number ensures !Stateful(headers, header, q, n) {
      if header.number <= was.number {
        PlainRewind(headers, genesis, header, q.(states := states), now, n);
      } else {
        AncestorTrans(headers, cur, header.number, n);
        assert !Stateful(headers, cur, q, n);
      }
    }
  }

  /** The block head during a rewind that started at block head `first` under `head`: unchanged or
      stateful; once the header head has come down to it, stateful and not above the requested root,
      and, without a requested root or a pivot, the highest stateful block there is. */
  ghost predicate BlockHead(headers: Store, head: Header, q: Request, first: Header, cur: Header, block: Header,
                            states: set<Hash>, moved: bool)
  {
    && (block == first || block.root in states)
    && (cur.number > first.number || !moved ==> block == first)
    && (moved && cur.number <= first.number ==>
          && block.root in states && BelowRoot(headers, head, q, block)
          && (q.root == NO_HASH && q.pivot.None? ==> NoStateBetween(headers, cur, block, q)))
  }

  lemma BlockHeadStep(headers: Store, genesis: Header, head: Header, q: Request, first: Header, cur: Header, header: Header,
                      was: Header, now: Header, states: set<Hash>, after: set<Hash>, moved: bool)
    requires Closed(headers) && Stored(headers, cur) && Parent(headers, cur) == Some(header) && genesis.number == 0
    requires OnPath(headers, head, header) && header.number <= head.number && q.states <= states <= after
    requires BlockHead(headers, head, q, first, cur, was, states, moved)
    requires OnPath(headers, cur, was)
    requires HeadRewound(headers, genesis, header, q.(states := states), was, now, after)
    ensures BlockHead(headers, head, q, first, header, now, after, true)
  {
    if header.number <= first.number {
      if header.number <= was.number {
        RewoundBelowRoot(headers, genesis, head, header, q, states, now);
      }
      if q.root == NO_HASH && q.pivot.None? {
        LoweredPlain(headers, genesis, cur, header, q, states, was, now, after);
      }
    }
  }

  /** After `i` rounds: the header head is the ancestor `i` below, the tables are untouched, the
      markers name stored blocks, and the block heads are where they should be. */
  ghost predicate After(first: Heads, mark: Mark, genesis: Header, q: Request, i: nat)
  {
    var h := mark.heads;
    && i <= first.header.number && Ancestor(first.db.headers, first.header, first.header.number - i) == Some(h.header)
    && (if i == 0 then h == first else MarkersMoved(first, h))
    && FullTree(h.db, genesis) && HeadsAgree(h.db, h.header, h.block, h.snap) && MarkersExist(h.db)
    && SnapAt(h.header, first.snap, h.snap) && StatesGrow(q.states, mark.states, genesis)
    && BlockHead(first.db.headers, first.header, q, first.block, h.header, h.block, mark.states, i > 0)
  }

  lemma AfterStart(first: Heads, genesis: Header, q: Request)
    requires FullTree(first.db, genesis) && HeadsAgree(first.db, first.header, first.block, first.snap)
    ensures After(first, Mark(first, q.states), genesis, q, 0)
  {
    HeadsExist(first.db, genesis, first.header, first.block, first.snap);
  }

  lemma AfterRound(first: Heads, was: Mark, now: Mark, genesis: Header, q: Request, i: nat)
    requires FullTree(first.db, genesis) && Stored(first.db.headers, first.header)
    requires After(first, was, genesis, q, i) && Round(was, now, genesis, q) && was.heads.header.number > 0
    ensures After(first, now, genesis, q, i + 1)
  {
    var headers, cur := first.db.headers, was.heads.header;
    RoundKeeps(was, now, genesis, q);
    AncestorStep(headers, first.header, cur.number);
    BlockHeadStep(headers, genesis, first.header, q, first.block, cur, now.heads.header, was.heads.block, now.heads.block,
                  was.states, now.states, i > 0);
  }

  /** Every state of a rewind, by the number of rounds before it. */
  lemma {:induction false} TraceHolds(marks: seq<Mark>, genesis: Header, q: Request, t: Target, i: nat)
    requires Trace(marks, genesis, q) && Until(marks, t) && Possible(t, genesis) && i < |marks|
    requires FullTree(marks[0].heads.db, genesis)
    requires HeadsAgree(marks[0].heads.db, marks[0].heads.header, marks[0].heads.block, marks[0].heads.snap)
    ensures After(marks[0].heads, marks[i], genesis, q, i)
  {
    if i == 0 {
      AfterStart(marks[0].heads, genesis, q);
    } else {
      TraceHolds(marks, genesis, q, t, i - 1);
      assert RoundAt(marks, genesis, q, i - 1);
      GenesisDone(marks[i - 1].heads.db, genesis, t, marks[i - 1].heads.header);
      AfterRound(marks[0].heads, marks[i - 1], marks[i], genesis, q, i - 1);
    }
  }

  lemma GenesisDone(db: Db, genesis: Header, t: Target, h: Header)
    requires FullTree(db, genesis) && Stored(db.headers, h) && !Done(t, h) && Possible(t, genesis)
    ensures h.number > 0
  {
  }
}
