/** `HeaderChain.WriteHeaders`: storing a batch of headers with their total difficulties. */
module HeaderImport {
  import opened ChainTree
  import opened ChainDb
  import opened HeaderReorg

  /** The tables an import writes. */
  datatype Tables = Tables(headers: Store, td: map<Hash, nat>)

  function StoreHeader(t: Tables, h: Header, td: nat): (r: Tables)
  {
    Tables(t.headers[h.hash := h], t.td[h.hash := td])
  }

  /** Store the headers from index `i` on, above a header of total difficulty `td`. */
  function StoreAll(t: Tables, td: nat, headers: seq<Header>, i: nat): (r: Tables)
    requires i <= |headers|
    decreases |headers| - i
  {
    if i == |headers| then t
    else
      var sum := td + headers[i].difficulty;
      StoreAll(StoreHeader(t, headers[i], sum), sum, headers, i + 1)
  }

  /** No header of the batch has the hash of a different stored or listed header. */
  ghost predicate CollisionFree(store: Store, headers: seq<Header>)
  {
    && (forall i :: 0 <= i < |headers| ==> Agrees(store, headers[i]))
    && (forall i, j :: 0 <= i < j < |headers| ==> headers[i].hash != headers[j].hash)
  }

  /** `store` holds what `was` held and the batch, and nothing else. */
  ghost predicate HoldsExactly(store: Store, was: Store, headers: seq<Header>)
  {
    && Extends(was, store) && AllStored(store, headers)
    && forall hash :: hash in store && hash !in was ==> exists i :: 0 <= i < |headers| && headers[i].hash == hash
  }

  /** Closed tables with exact total difficulties. */
  ghost predicate Sound(t: Tables)
  {
    Closed(t.headers) && TdExact(t.headers, t.td)
  }

  /** `h` can be stored next: its parent is stored, with total difficulty `td`. */
  ghost predicate Ready(t: Tables, td: nat, h: Header)
  {
    && Sound(t) && Agrees(t.headers, h)
    && h.number > 0 && Parent(t.headers, h).Some? && t.td[h.parentHash] == td
  }

  lemma StoreClosed(headers: Store, h: Header)
    requires Closed(headers) && Agrees(headers, h) && h.number > 0 && Parent(headers, h).Some?
    ensures Closed(headers[h.hash := h])
  {
    var more := headers[h.hash := h];
    forall hash | hash in more
      ensures && (more[hash].parentHash in more ==> Parent(more, more[hash]).Some?)
              && (more[hash].number == 0 ==> more[hash].parentHash == NO_HASH)
              && (more[hash].number > 0 ==> Parent(more, more[hash]).Some?)
    {
      if hash != h.hash {
        ClosedAt(headers, hash);
      }
    }
  }

  lemma StoreTd(headers: Store, td: map<Hash, nat>, h: Header)
    requires Closed(headers) && TdExact(headers, td) && Agrees(headers, h)
    requires h.number > 0 && Parent(headers, h).Some?
    ensures TdExact(headers[h.hash := h], td[h.hash := td[h.parentHash] + h.difficulty])
  {
    var more := headers[h.hash := h];
    assert Keyed(more) && Extends(headers, more);
    forall hash | hash in headers
      ensures TotalDifficulty(more, headers[hash]) == TotalDifficulty(headers, headers[hash])
    {
      TotalDifficultyExtends(headers, more, headers[hash]);
    }
    assert Parent(more, h) == Parent(headers, h);
  }

  /** A stored header's total difficulty is its parent's plus its own. */
  lemma TdStep(headers: Store, td: map<Hash, nat>, h: Header)
    requires Closed(headers) && TdExact(headers, td) && Stored(headers, h) && h.number > 0
    ensures Parent(headers, h).Some? && td[h.hash] == td[h.parentHash] + h.difficulty
  {
    assert Parent(headers, headers[h.hash]).Some?;
    assert td[h.parentHash] == TotalDifficulty(headers, headers[h.parentHash]);
    assert td[h.hash] == TotalDifficulty(headers, headers[h.hash]);
  }

  /** Storing one header keeps the tables sound; storing a known one changes nothing. */
  lemma StoreHeaderSound(t: Tables, td: nat, h: Header)
    requires Ready(t, td, h)
    ensures Sound(StoreHeader(t, h, td + h.difficulty))
    ensures h.hash in t.headers ==> StoreHeader(t, h, td + h.difficulty) == t
  {
    StoreClosed(t.headers, h);
    StoreTd(t.headers, t.td, h);
    if h.hash in t.headers {
      TdStep(t.headers, t.td, h);
    }
  }

  lemma NextReady(t: Tables, td: nat, headers: seq<Header>, i: nat)
    requires i < |headers| && Ready(t, td, headers[i])
    requires Contiguous(headers) && CollisionFree(t.headers, headers)
    ensures var next := StoreHeader(t, headers[i], td + headers[i].difficulty);
            && Sound(next) && CollisionFree(next.headers, headers)
            && (i + 1 < |headers| ==> Ready(next, td + headers[i].difficulty, headers[i + 1]))
  {
    StoreHeaderSound(t, td, headers[i]);
  }

  /** Storing a contiguous batch keeps the tables sound: every total difficulty stays exact. */
  lemma {:induction false} StoreAllSound(t: Tables, td: nat, headers: seq<Header>, i: nat)
    requires i <= |headers| && Sound(t) && Contiguous(headers) && CollisionFree(t.headers, headers)
    requires i < |headers| ==> Ready(t, td, headers[i])
    ensures Sound(StoreAll(t, td, headers, i))
    decreases |headers| - i
  {
    if i < |headers| {
      NextReady(t, td, headers, i);
      StoreAllSound(StoreHeader(t, headers[i], td + headers[i].difficulty), td + headers[i].difficulty, headers, i + 1);
    }
  }

  lemma {:induction false} StoreAllHolds(t: Tables, td: nat, headers: seq<Header>, i: nat)
    requires i <= |headers| && CollisionFree(t.headers, headers)
    requires forall j :: 0 <= j < i ==> headers[j].hash in t.headers
    ensures HoldsExactly(StoreAll(t, td, headers, i).headers, t.headers, headers)
    decreases |headers| - i
  {
    if i < |headers| {
      var next := StoreHeader(t, headers[i], td + headers[i].difficulty);
      assert forall j :: 0 <= j < |headers| ==> Agrees(next.headers, headers[j]);
      StoreAllHolds(next, td + headers[i].difficulty, headers, i + 1);
    }
  }

  /** The header before `headers[i]`. */
  function ParentHashAt(headers: seq<Header>, i: nat): (hash: Hash)
    requires headers != [] && i <= |headers|
  {
    if i == 0 then headers[0].parentHash else headers[i - 1].hash
  }

  /** In a closed store a known header has a known parent, so the known part of a contiguous
      batch is a prefix. */
  lemma {:induction false} KnownPrefix(store: Store, headers: seq<Header>, i: nat, j: nat)
    requires Closed(store) && Contiguous(headers) && CollisionFree(store, headers)
    requires i <= j < |headers| && headers[j].hash in store
    ensures headers[i].hash in store
    decreases j
  {
    if i < j {
      assert headers[j].parentHash == headers[j - 1].hash && headers[j].number > 0;
      assert Parent(store, store[headers[j].hash]).Some?;
      KnownPrefix(store, headers, i, j - 1);
    }
  }

  /** The loop of `WriteHeaders`: a header is skipped while everything so far was known, so the
      skipped ones are a prefix and the rest is stored on top of it. */
  method QueueHeaders(db: Db, ptd: nat, headers: seq<Header>) returns (r: Db, inserted: nat)
    requires Closed(db.headers) && TdExact(db.headers, db.td)
    requires headers != [] && Contiguous(headers) && CollisionFree(db.headers, headers)
    requires headers[0].number > 0 && headers[0].parentHash in db.td && db.td[headers[0].parentHash] == ptd
    ensures inserted <= |headers|
    ensures var known := |headers| - inserted;
            && (known > 0 ==> headers[known - 1].hash in db.headers)
            && (known < |headers| ==> headers[known].hash !in db.headers)
            && ParentHashAt(headers, known) in db.td
            && var t := StoreAll(Tables(db.headers, db.td), db.td[ParentHashAt(headers, known)], headers, known);
               r == db.(headers := t.headers, td := t.td)
  {
    var newTd: nat, parentKnown, batch := ptd, true, NewBatch;
    ghost var start := Tables(db.headers, db.td);
    ghost var t := start;
    ghost var known: nat, knownTd: nat := 0, ptd;
    inserted := 0;
    for i := 0 to |headers|
      invariant known + inserted == i && (parentKnown <==> inserted == 0)
      invariant known > 0 ==> headers[known - 1].hash in db.headers
      invariant known < i ==> headers[known].hash !in db.headers
      invariant parentKnown ==> t == start && newTd == knownTd
      invariant ParentHashAt(headers, known) in db.td && db.td[ParentHashAt(headers, known)] == knownTd
      invariant Write(db, batch) == db.(headers := t.headers, td := t.td)
      invariant StoreAll(t, newTd, headers, i) == StoreAll(start, knownTd, headers, known)
    {
      var header := headers[i];
      var hash := if i < |headers| - 1 then headers[i + 1].parentHash else header.hash;
      assert hash == header.hash;
      newTd := newTd + header.difficulty;
      var alreadyKnown := parentKnown && Get(db.headers, hash, header.number).Some?;
      if alreadyKnown {
        KnownTd(db, headers, i);
        known, knownTd := i + 1, newTd;
      } else {
        WriteQueue(db, batch, PutTd(hash, newTd));
        batch := Queue(Queue(batch, PutTd(hash, newTd)), PutHeader(header));
        inserted := inserted + 1;
        t := StoreHeader(t, header, newTd);
      }
      parentKnown := alreadyKnown;
    }
    r := Write(db, batch);
  }

  lemma KnownTd(db: Db, headers: seq<Header>, i: nat)
    requires Closed(db.headers) && TdExact(db.headers, db.td)
    requires Contiguous(headers) && CollisionFree(db.headers, headers) && i < |headers|
    requires headers[0].number > 0 && headers[i].hash in db.headers
    ensures headers[i].hash in db.td && ParentHashAt(headers, i) in db.td
    ensures db.td[headers[i].hash] == db.td[ParentHashAt(headers, i)] + headers[i].difficulty
  {
    assert i > 0 ==> headers[i].parentHash == headers[i - 1].hash && headers[i].number > 0;
    TdStep(db.headers, db.td, headers[i]);
  }
}
