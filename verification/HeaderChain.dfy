/** The header chain as an object: its database, its in-memory head, and the operations that
    import headers, reorganise and look up ancestors. */
module HeaderChains {
  import opened Options
  import opened ChainTree
  import opened ChainDb
  import opened HeaderReorg
  import opened HeaderImport
  import opened ForkChoice

  /** A database and the head that stands on it. */
  datatype Point = Point(db: Db, head: Header)

  /** The index is the ancestor path of the head, the store is closed under parents, and every
      total difficulty is exact. */
  ghost predicate ValidPoint(p: Point)
  {
    && Sound(Tables(p.db.headers, p.db.td))
    && Stored(p.db.headers, p.head) && IsPath(p.db.headers, p.db.canon, p.head) && p.db.headHeader == p.head.hash
  }

  datatype WriteStatus = NonStat | Canon | Side

  class HeaderChain {
    const genesisHeader: Header
    var db: Db
    var currentHeader: Header
    var currentHeaderHash: Hash

    constructor (db: Db, genesis: Header, head: Header)
      ensures this.db == db && genesisHeader == genesis && currentHeader == head && currentHeaderHash == head.hash
    {
      this.db, genesisHeader, currentHeader, currentHeaderHash := db, genesis, head, head.hash;
    }

    /** Open the database: the head is the header of the stored head block, or genesis; without a
        genesis header there is no chain. */
    static method Open(db: Db) returns (hc: HeaderChain?)
      ensures hc == null <==> Get(db.headers, CanonicalHash(db, 0), 0).None?
      ensures hc != null ==>
                && fresh(hc) && hc.db == db && Some(hc.genesisHeader) == Get(db.headers, CanonicalHash(db, 0), 0)
                && hc.currentHeaderHash == hc.currentHeader.hash
                && hc.currentHeader == if db.headBlock != NO_HASH && db.headBlock in db.headers then db.headers[db.headBlock]
                                       else hc.genesisHeader
    {
      var genesis := Get(db.headers, CanonicalHash(db, 0), 0);
      if genesis.None? {
        return null;
      }
      var head := genesis.value;
      if db.headBlock != NO_HASH && db.headBlock in db.headers {
        head := db.headers[db.headBlock];
      }
      hc := new HeaderChain(db, genesis.value, head);
    }

    ghost predicate Valid()
      reads this
    {
      ValidPoint(Now()) && currentHeaderHash == currentHeader.hash
    }

    ghost function Now(): (p: Point)
      reads this
    {
      Point(db, currentHeader)
    }

    /** The reorganisation may start from any well-numbered store, closed or not: it fails, and
        changes nothing, exactly when the walk back from the batch leaves the store before it
        meets the index. */
    method Reorg(headers: seq<Header>) returns (ok: bool)
      requires Keyed(db.headers) && WellNumbered(db.headers)
      requires Contiguous(headers) && AllStored(db.headers, headers)
      requires Stored(db.headers, currentHeader) && currentHeaderHash == currentHeader.hash
      requires IsPath(db.headers, db.canon, currentHeader)
      modifies this
      ensures ok <==> headers == [] || headers[0].parentHash == old(currentHeaderHash) || CrossLinks(old(db), headers[0])
      ensures !ok || headers == [] ==>
                db == old(db) && currentHeader == old(currentHeader) && currentHeaderHash == old(currentHeaderHash)
      ensures ok && headers != [] ==>
                var last := headers[|headers| - 1];
                Moved(old(db), db, last) && currentHeader == last && currentHeaderHash == last.hash
    {
      ok := true;
      if headers != [] {
        var batch: Batch;
        ok, batch := ReorgBatch(db, headers, currentHeader);
        if ok {
          db := Write(db, batch);
          currentHeader, currentHeaderHash := headers[|headers| - 1], headers[|headers| - 1].hash;
        }
      }
    }

    method WriteHeaders(headers: seq<Header>) returns (ok: bool, inserted: nat)
      requires Sound(Tables(db.headers, db.td))
      requires Contiguous(headers) && CollisionFree(db.headers, headers)
      modifies this`db
      ensures ok <==> headers == [] || GetTd(old(db), headers[0].parentHash, headers[0].number - 1).Some?
      ensures !ok || headers == [] ==> db == old(db) && inserted == 0
      ensures ok ==> Written(old(db), db, headers, inserted)
    {
      if headers == [] {
        return true, 0;
      }
      var ptd := GetTd(db, headers[0].parentHash, headers[0].number - 1);
      if ptd.None? {
        return false, 0;
      }
      ghost var was := db;
      db, inserted := QueueHeaders(db, ptd.value, headers);
      AfterQueue(was, headers, |headers| - inserted, was.td[ParentHashAt(headers, |headers| - inserted)]);
      ok := true;
    }

    /** Import a batch and make its last header the head if the fork choice prefers it.  From a
        valid state the only failure is an unknown ancestor, which changes nothing.  Without a
        terminal total difficulty the head never gets lighter, whatever the coin says. */
    method WriteHeadersAndSetHead(headers: seq<Header>, ttd: Option<nat>, preserve: Header -> bool, draw: bool)
      returns (status: Option<WriteStatus>)
      requires Valid() && headers != [] && Contiguous(headers) && CollisionFree(db.headers, headers)
      modifies this
      ensures Valid() && HeadersImported(old(Now()), Now(), headers, ttd, preserve, draw, status)
      // a heavier batch becomes the canonical chain
      ensures status.Some?
              && TotalDifficulty(db.headers, headers[|headers| - 1]) > TotalDifficulty(old(db.headers), old(currentHeader)) ==>
                && status == Some(Canon) && currentHeader == headers[|headers| - 1]
                && IsPath(db.headers, db.canon, headers[|headers| - 1])
      ensures status.Some? && ttd.None? ==> Outweighs(Now(), headers[|headers| - 1])
      // a lighter one changes nothing about it, before the merge
      ensures status.Some? && ttd.None?
              && TotalDifficulty(db.headers, headers[|headers| - 1]) < TotalDifficulty(old(db.headers), old(currentHeader)) ==>
                currentHeader == old(currentHeader) && db.canon == old(db.canon) && db.headHeader == old(db.headHeader)
    {
      ghost var was := Now();
      var ok, inserted := WriteHeaders(headers);
      status := None;
      if ok {
        var chosen := ChooseHead(headers, inserted, ttd, preserve, draw, was);
        status := Some(chosen);
        WeightDecides(was, Now(), headers, ttd, preserve, draw, status);
      }
    }

    /** The second half of an import: ask the fork choice, and reorganise unless the index already
        holds the last header. */
    method ChooseHead(headers: seq<Header>, inserted: nat, ttd: Option<nat>, preserve: Header -> bool, draw: bool, ghost was: Point)
      returns (status: WriteStatus)
      requires headers != [] && Contiguous(headers) && currentHeaderHash == currentHeader.hash
      requires ValidPoint(was) && was.head == currentHeader && Written(was.db, db, headers, inserted)
      requires GetTd(was.db, headers[0].parentHash, headers[0].number - 1).Some?
      modifies this
      ensures Valid() && HeadersImported(was, Now(), headers, ttd, preserve, draw, Some(status))
    {
      ghost var mid := db;
      AfterWrite(was, mid, headers, inserted);
      var last := headers[|headers| - 1];
      var reorg := ReorgNeeded(db, currentHeader, last, ttd, preserve, draw).value;
      status := NonStat;
      if !reorg {
        if inserted != 0 {
          status := Side;
        }
      } else if !(CanonicalHash(db, last.number) == last.hash && last.number <= currentHeader.number) {
        var _ := Reorg(headers);
        status := Canon;
      }
      AfterChoice(was, mid, Now(), headers, inserted, ttd, preserve, draw, status);
    }

    /** Any run of imports: every batch with a known parent is stored, the state stays valid and,
        without a terminal total difficulty, the successive heads never get lighter. */
    method ImportRun(batches: seq<seq<Header>>, preserve: Header -> bool, draws: seq<bool>, ghost universe: Store)
      returns (statuses: seq<Option<WriteStatus>>, ghost points: seq<Point>)
      requires Valid() && |draws| == |batches|
      requires forall i :: 0 <= i < |batches| ==> batches[i] != [] && Contiguous(batches[i]) && AllStored(universe, batches[i])
      requires Keyed(universe) && Extends(db.headers, universe)
      modifies this
      ensures Valid() && |statuses| == |batches| && |points| == |batches| + 1
      ensures points[0] == old(Now()) && points[|batches|] == Now()
      ensures HeaderRun(points, batches, preserve, draws, statuses)
      ensures forall i :: 0 <= i < |points| ==> ValidPoint(points[i])
      ensures forall i, j :: 0 <= i <= j < |points| ==> Weight(points[i]) <= Weight(points[j])
      // the head is at least as heavy as everything imported
      ensures forall i :: 0 <= i < |batches| && statuses[i].Some? ==>
                TotalDifficulty(db.headers, batches[i][|batches[i]| - 1]) <= TotalDifficulty(db.headers, currentHeader)
    {
      statuses, points := [], [Now()];
      for i := 0 to |batches|
        invariant Valid() && Extends(db.headers, universe)
        invariant |statuses| == i && |points| == i + 1 && points[0] == old(Now()) && points[i] == Now()
        invariant HeaderRun(points, batches, preserve, draws, statuses)
      {
        InUniverse(db.headers, universe, batches[i]);
        var status := WriteHeadersAndSetHead(batches[i], None, preserve, draws[i]);
        RunExtends(points, batches, preserve, draws, statuses, Now(), status);
        statuses, points := statuses + [status], points + [Now()];
      }
      RunLaws(points, batches, preserve, draws, statuses);
    }
  }

  /** Each point follows from the one before by the import of the next batch, with no terminal
      total difficulty. */
  ghost predicate HeaderRun(points: seq<Point>, batches: seq<seq<Header>>, preserve: Header -> bool, draws: seq<bool>,
                            statuses: seq<Option<WriteStatus>>)
  {
    && |points| == |statuses| + 1 && |statuses| <= |batches| == |draws| && ValidPoint(points[0])
    && forall i :: 0 <= i < |statuses| ==> ImportedAt(points, batches, preserve, draws, statuses, i)
  }

  ghost predicate ImportedAt(points: seq<Point>, batches: seq<seq<Header>>, preserve: Header -> bool, draws: seq<bool>,
                             statuses: seq<Option<WriteStatus>>, i: nat)
    requires i < |statuses| <= |batches| == |draws| && |points| == |statuses| + 1
  {
    && batches[i] != [] && ValidPoint(points[i + 1])
    && HeadersImported(points[i], points[i + 1], batches[i], None, preserve, draws[i], statuses[i])
    && (statuses[i].Some? ==> Outweighs(points[i + 1], batches[i][|batches[i]| - 1]))
  }

  /** A stored header is not heavier than the head. */
  predicate Outweighs(p: Point, h: Header)
  {
    Stored(p.db.headers, h) && TotalDifficulty(p.db.headers, h) <= Weight(p)
  }

  lemma RunExtends(points: seq<Point>, batches: seq<seq<Header>>, preserve: Header -> bool, draws: seq<bool>,
                   statuses: seq<Option<WriteStatus>>, now: Point, status: Option<WriteStatus>)
    requires HeaderRun(points, batches, preserve, draws, statuses) && |statuses| < |batches| && batches[|statuses|] != []
    requires HeadersImported(points[|statuses|], now, batches[|statuses|], None, preserve, draws[|statuses|], status)
    requires ValidPoint(now)
    requires status.Some? ==> Outweighs(now, batches[|statuses|][|batches[|statuses|]| - 1])
    ensures HeaderRun(points + [now], batches, preserve, draws, statuses + [status])
  {
    forall i: nat | i < |statuses| + 1 ensures ImportedAt(points + [now], batches, preserve, draws, statuses + [status], i) {
      assert i < |statuses| ==> ImportedAt(points, batches, preserve, draws, statuses, i);
    }
  }

  lemma {:induction false} NeverLighter(points: seq<Point>, batches: seq<seq<Header>>, preserve: Header -> bool,
                                        draws: seq<bool>, statuses: seq<Option<WriteStatus>>, i: nat, j: nat)
    requires HeaderRun(points, batches, preserve, draws, statuses) && i <= j < |points|
    ensures Weight(points[i]) <= Weight(points[j])
    decreases j
  {
    if i < j {
      NeverLighter(points, batches, preserve, draws, statuses, i, j - 1);
      assert ImportedAt(points, batches, preserve, draws, statuses, j - 1);
    }
  }

  lemma RunLaws(points: seq<Point>, batches: seq<seq<Header>>, preserve: Header -> bool, draws: seq<bool>,
                statuses: seq<Option<WriteStatus>>)
    requires HeaderRun(points, batches, preserve, draws, statuses)
    ensures forall k :: 0 <= k < |points| ==> ValidPoint(points[k])
    ensures forall i, j :: 0 <= i <= j < |points| ==> Weight(points[i]) <= Weight(points[j])
    ensures forall i :: 0 <= i < |statuses| && statuses[i].Some? ==>
              batches[i] != [] && Outweighs(points[|statuses|], batches[i][|batches[i]| - 1])
  {
    forall k | 0 <= k < |points| ensures ValidPoint(points[k]) {
      assert k > 0 ==> ImportedAt(points, batches, preserve, draws, statuses, k - 1);
    }
    forall i, j | 0 <= i <= j < |points| ensures Weight(points[i]) <= Weight(points[j]) {
      NeverLighter(points, batches, preserve, draws, statuses, i, j);
    }
    forall i | 0 <= i < |statuses| && statuses[i].Some?
      ensures batches[i] != [] && Outweighs(points[|statuses|], batches[i][|batches[i]| - 1])
    {
      HeaviestWins(points, batches, preserve, draws, statuses, i, |statuses|);
    }
  }

  /** Along a run the head is at least as heavy as every last header imported before. */
  lemma {:induction false} HeaviestWins(points: seq<Point>, batches: seq<seq<Header>>, preserve: Header -> bool,
                                        draws: seq<bool>, statuses: seq<Option<WriteStatus>>, i: nat, j: nat)
    requires HeaderRun(points, batches, preserve, draws, statuses) && i < j < |points| && statuses[i].Some?
    requires forall k :: 0 <= k < |points| ==> ValidPoint(points[k])
    ensures batches[i] != [] && Outweighs(points[j], batches[i][|batches[i]| - 1])
    decreases j
  {
    if i == j - 1 {
      assert ImportedAt(points, batches, preserve, draws, statuses, i);
    } else {
      HeaviestWins(points, batches, preserve, draws, statuses, i, j - 1);
      StaysLighter(points, batches, preserve, draws, statuses, j - 1, batches[i][|batches[i]| - 1]);
    }
  }

  lemma StaysLighter(points: seq<Point>, batches: seq<seq<Header>>, preserve: Header -> bool,
                     draws: seq<bool>, statuses: seq<Option<WriteStatus>>, j: nat, h: Header)
    requires HeaderRun(points, batches, preserve, draws, statuses) && j < |statuses|
    requires ValidPoint(points[j]) && ValidPoint(points[j + 1])
    requires Outweighs(points[j], h)
    ensures Outweighs(points[j + 1], h)
  {
    assert ImportedAt(points, batches, preserve, draws, statuses, j);
    TotalDifficultyExtends(points[j].db.headers, points[j + 1].db.headers, h);
  }

  /** The total difficulty of the head. */
  function Weight(p: Point): (td: nat)
  {
    TotalDifficulty(p.db.headers, p.head)
  }

  /** A batch was stored: `inserted` of its headers, the last ones, were new, and every total
      difficulty is exact. */
  ghost predicate Written(was: Db, now: Db, headers: seq<Header>, inserted: nat)
  {
    && now == was.(headers := now.headers, td := now.td) && Sound(Tables(now.headers, now.td))
    && HoldsExactly(now.headers, was.headers, headers) && inserted <= |headers|
    && forall i :: 0 <= i < |headers| ==> (headers[i].hash in was.headers <==> i < |headers| - inserted)
  }

  /** The index of `was` already holds the header, at or below the head. */
  predicate Indexed(was: Point, h: Header)
  {
    CanonicalHash(was.db, h.number) == h.hash && h.number <= was.head.number
  }

  /** The whole effect of importing a batch. */
  ghost predicate HeadersImported(was: Point, now: Point, headers: seq<Header>, ttd: Option<nat>,
                                  preserve: Header -> bool, draw: bool, status: Option<WriteStatus>)
    requires headers != []
  {
    var last := headers[|headers| - 1];
    && (status.None? <==> GetTd(was.db, headers[0].parentHash, headers[0].number - 1).None?)
    && (status.None? ==> now == was)
    && (status.Some? ==>
          && HoldsExactly(now.db.headers, was.db.headers, headers)
          && (status.value == Canon <==>
                ReorgNeeded(now.db, was.head, last, ttd, preserve, draw) == Some(true) && !Indexed(was, last))
          && (status.value == Side <==>
                ReorgNeeded(now.db, was.head, last, ttd, preserve, draw) == Some(false) && last.hash !in was.db.headers)
          && now.head == (if status.value == Canon then last else was.head)
          && now.db == was.db.(headers := now.db.headers, td := now.db.td, headHeader := now.head.hash, canon := now.db.canon)
          && (status.value != Canon ==> now.db.canon == was.db.canon))
    && (Weight(now) >= Weight(was) || (ttd.Some? && ttd.value <= Weight(now)))
  }

  /** A header the index holds is an ancestor of the head, so it is not heavier. */
  lemma IndexedIsLighter(was: Point, now: Point, last: Header)
    requires ValidPoint(was) && Extends(was.db.headers, now.db.headers) && Stored(now.db.headers, last) && Keyed(now.db.headers)
    requires Indexed(was, last)
    ensures TotalDifficulty(now.db.headers, last) <= Weight(was)
  {
    AncestorStored(was.db.headers, was.head, last.number);
    AncestorLighter(was.db.headers, was.head, last.number);
    TotalDifficultyExtends(was.db.headers, now.db.headers, last);
  }

  /** The heavier chain wins and, before the merge, the lighter one loses, whatever the coin says. */
  lemma WeightDecides(was: Point, now: Point, headers: seq<Header>, ttd: Option<nat>, preserve: Header -> bool, draw: bool,
                      status: Option<WriteStatus>)
    requires headers != [] && HeadersImported(was, now, headers, ttd, preserve, draw, status) && status.Some?
    requires ValidPoint(was) && ValidPoint(now)
    ensures var last := headers[|headers| - 1];
            && (TotalDifficulty(now.db.headers, last) > Weight(was) ==>
                  status == Some(Canon) && now.head == last && IsPath(now.db.headers, now.db.canon, last))
            && (ttd.None? && TotalDifficulty(now.db.headers, last) < Weight(was) ==>
                  now.head == was.head && now.db.canon == was.db.canon && now.db.headHeader == was.db.headHeader)
            && (ttd.None? ==> Outweighs(now, last))
  {
    var last := headers[|headers| - 1];
    TotalDifficultyExtends(was.db.headers, now.db.headers, was.head);
    assert GetTd(now.db, last.hash, last.number) == Some(TotalDifficulty(now.db.headers, last)) by {
      assert TotalDifficulty(now.db.headers, now.db.headers[last.hash]) == now.db.td[last.hash];
    }
    assert GetTd(now.db, was.head.hash, was.head.number) == Some(Weight(was)) by {
      assert TotalDifficulty(now.db.headers, now.db.headers[was.head.hash]) == now.db.td[was.head.hash];
    }
    if Indexed(was, last) {
      IndexedIsLighter(was, now, last);
    }
  }

  /** Headers drawn from one universe of hashes cannot collide. */
  lemma InUniverse(store: Store, universe: Store, headers: seq<Header>)
    requires Keyed(universe) && Extends(store, universe) && Contiguous(headers) && AllStored(universe, headers)
    ensures CollisionFree(store, headers)
    ensures forall more :: HoldsExactly(more, store, headers) ==> Extends(more, universe)
  {
    forall i, j | 0 <= i < j < |headers| ensures headers[i].hash != headers[j].hash {
      ContiguousAncestor(universe, headers, i, j);
    }
  }

  lemma AfterWrite(was: Point, mid: Db, headers: seq<Header>, inserted: nat)
    requires ValidPoint(was) && headers != [] && Written(was.db, mid, headers, inserted)
    ensures ValidPoint(Point(mid, was.head)) && Weight(Point(mid, was.head)) == Weight(was)
    ensures GetTd(mid, was.head.hash, was.head.number) == Some(Weight(was))
    ensures var last := headers[|headers| - 1];
            GetTd(mid, last.hash, last.number) == Some(TotalDifficulty(mid.headers, last))
    ensures CrossLinks(mid, headers[0])
  {
    PathExtends(was.db.headers, mid.headers, mid.canon, was.head);
    TotalDifficultyExtends(was.db.headers, mid.headers, was.head);
    AncestorTotal(mid.headers, headers[0], 0);
    assert CrossLinkAt(mid, headers[0], 0);
  }

  lemma AfterChoice(was: Point, mid: Db, now: Point, headers: seq<Header>, inserted: nat, ttd: Option<nat>,
                    preserve: Header -> bool, draw: bool, status: WriteStatus)
    requires ValidPoint(was) && headers != [] && Written(was.db, mid, headers, inserted)
    requires GetTd(was.db, headers[0].parentHash, headers[0].number - 1).Some?
    requires var last := headers[|headers| - 1];
             && (status == Canon <==> ReorgNeeded(mid, was.head, last, ttd, preserve, draw) == Some(true) && !Indexed(was, last))
             && (status == Side <==>
                   ReorgNeeded(mid, was.head, last, ttd, preserve, draw) == Some(false) && last.hash !in was.db.headers)
    requires var last := headers[|headers| - 1];
             if status == Canon then
               && now == Point(mid.(canon := now.db.canon, headHeader := last.hash), last)
               && IsPath(mid.headers, now.db.canon, last)
             else now == Point(mid, was.head)
    ensures ValidPoint(now) && HeadersImported(was, now, headers, ttd, preserve, draw, Some(status))
  {
    var last := headers[|headers| - 1];
    assert ReorgNeeded(now.db, was.head, last, ttd, preserve, draw) == ReorgNeeded(mid, was.head, last, ttd, preserve, draw);
    assert ValidPoint(now) by {
      AfterWrite(was, mid, headers, inserted);
    }
    assert Weight(now) >= Weight(was) || (ttd.Some? && ttd.value <= Weight(now)) by {
      AfterWrite(was, mid, headers, inserted);
    }
  }

  lemma AfterQueue(db: Db, headers: seq<Header>, known: nat, knownTd: nat)
    requires Sound(Tables(db.headers, db.td)) && headers != [] && known <= |headers|
    requires Contiguous(headers) && CollisionFree(db.headers, headers)
    requires GetTd(db, headers[0].parentHash, headers[0].number - 1).Some?
    requires known > 0 ==> headers[known - 1].hash in db.headers
    requires known < |headers| ==> headers[known].hash !in db.headers
    requires ParentHashAt(headers, known) in db.td && db.td[ParentHashAt(headers, known)] == knownTd
    ensures Sound(StoreAll(Tables(db.headers, db.td), knownTd, headers, known))
    ensures HoldsExactly(StoreAll(Tables(db.headers, db.td), knownTd, headers, known).headers, db.headers, headers)
    ensures forall i :: 0 <= i < |headers| ==> (headers[i].hash in db.headers <==> i < known)
  {
    forall i | 0 <= i < |headers| ensures headers[i].hash in db.headers <==> i < known {
      if i < known {
        KnownPrefix(db.headers, headers, i, known - 1);
      } else if headers[i].hash in db.headers {
        KnownPrefix(db.headers, headers, known, i);
      }
    }
    var t := Tables(db.headers, db.td);
    if 0 < known < |headers| {
      assert headers[known].parentHash == headers[known - 1].hash;
    }
    StoreAllSound(t, knownTd, headers, known);
    StoreAllHolds(t, knownTd, headers, known);
  }
}
