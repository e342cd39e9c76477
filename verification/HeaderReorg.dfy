/** `HeaderChain.Reorg`: switching the canonical index to the chain of a batch of headers. */
module HeaderReorg {
  import opened Options
  import opened ChainTree
  import opened ChainDb
  import opened CanonicalIndex

  /** A batch of headers in which each is the parent of the next. */
  ghost predicate Contiguous(headers: seq<Header>)
  {
    forall i, j :: 0 <= i && j == i + 1 && j < |headers| ==>
      headers[j].parentHash == headers[i].hash && headers[j].number == headers[i].number + 1
  }

  ghost predicate AllStored(store: Store, headers: seq<Header>)
  {
    forall i :: 0 <= i < |headers| ==> Stored(store, headers[i])
  }

  lemma {:induction false} ContiguousAncestor(store: Store, headers: seq<Header>, i: nat, j: nat)
    requires Contiguous(headers) && AllStored(store, headers) && i <= j < |headers|
    ensures headers[i].number == headers[j].number - (j - i)
    ensures Ancestor(store, headers[j], headers[i].number) == Some(headers[i])
    decreases j
  {
    if i < j {
      ContiguousAncestor(store, headers, i, j - 1);
      assert Parent(store, headers[j]) == Some(headers[j - 1]);
    }
  }

  /** The walk back from `h` ends: at a header the index already holds, or at height zero. */
  ghost predicate CrossLinks(db: Db, h: Header)
  {
    exists n: nat :: CrossLinkAt(db, h, n)
  }

  predicate CrossLinkAt(db: Db, h: Header, n: nat)
  {
    var a := Ancestor(db.headers, h, n);
    a.Some? && (n == 0 || CanonicalHash(db, n) == a.value.hash)
  }

  /** The part of the index a reorganisation onto `last` keeps: up to `low` (or nothing). */
  ghost predicate KeepsUpTo(db: Db, h: Header, low: int)
  {
    low == -1 ||
    (low >= 0 && low in db.canon && Ancestor(db.headers, h, low).Some? &&
     db.canon[low] == Ancestor(db.headers, h, low).value.hash)
  }

  /** The backward walk from `first` has come to `header` without meeting the index, and has set
      every height above it. */
  ghost predicate Rewiring(db: Db, was: map<nat, Hash>, canon: map<nat, Hash>, first: Header, header: Header)
  {
    && header.number <= first.number && Stored(db.headers, header) && OnPath(db.headers, first, header)
    && Painted(db.headers, was, canon, first, header.number, first.number)
    && forall n: nat :: header.number < n ==> !CrossLinkAt(db, first, n)
  }

  lemma RewireStep(db: Db, was: map<nat, Hash>, canon: map<nat, Hash>, first: Header, header: Header)
    requires Keyed(db.headers) && Rewiring(db, was, canon, first, header)
    requires CanonicalHash(db, header.number) != header.hash
    ensures header.number == 0 ==>
              CrossLinks(db, first) && Painted(db.headers, was, canon[0 := header.hash], first, -1, first.number)
    ensures header.number > 0 && Parent(db.headers, header).None? ==> !CrossLinks(db, first)
    ensures header.number > 0 && Parent(db.headers, header).Some? ==>
              Rewiring(db, was, canon[header.number := header.hash], first, Parent(db.headers, header).value)
  {
    PaintDown(db.headers, was, canon, first, header, first.number);
    if header.number == 0 {
      assert CrossLinkAt(db, first, 0);
    } else {
      assert !CrossLinkAt(db, first, header.number);
      AncestorStep(db.headers, first, header.number);
      if Parent(db.headers, header).None? {
        NoCrossLink(db, first, header);
      }
    }
  }

  /** The loop that overwrites the index backwards from the first header of a batch until
      the cross link.  All reads go to the database, all writes to the batch. */
  method Rewire(db: Db, queued: Batch, first: Header) returns (ok: bool, batch: Batch, ghost low: int)
    requires Keyed(db.headers) && Stored(db.headers, first)
    ensures ok <==> CrossLinks(db, first)
    ensures ok ==> low <= first.number && KeepsUpTo(db, first, low)
    ensures ok ==> forall n: nat :: low < n && n > 0 ==> !CrossLinkAt(db, first, n)
    ensures ok ==> Write(db, batch) == Write(db, queued).(canon := Write(db, batch).canon)
    ensures ok ==> Painted(db.headers, Write(db, queued).canon, Write(db, batch).canon, first, low, first.number)
  {
    ok, batch, low := true, queued, -1;
    ghost var was := Write(db, queued);
    ghost var canon: map<nat, Hash> := was.canon;
    var header := first;
    while CanonicalHash(db, header.number) != header.hash
      invariant Rewiring(db, was.canon, canon, first, header) && Write(db, batch) == was.(canon := canon)
      decreases header.number
    {
      RewireStep(db, was.canon, canon, first, header);
      WriteQueue(db, batch, PutCanon(header.number, header.hash));
      batch, canon := Queue(batch, PutCanon(header.number, header.hash)), canon[header.number := header.hash];
      if header.number == 0 {
        return;
      }
      var parent := Parent(db.headers, header);
      if parent.None? {
        ok := false;
        return;
      }
      header := parent.value;
    }
    assert CrossLinkAt(db, first, header.number);
    low := header.number;
  }

  lemma NoCrossLink(db: Db, first: Header, end: Header)
    requires OnPath(db.headers, first, end) && end.number > 0 && Parent(db.headers, end).None?
    requires forall n: nat :: end.number <= n ==> !CrossLinkAt(db, first, n)
    ensures !CrossLinks(db, first)
  {
    AncestorStep(db.headers, first, end.number);
    forall n: nat ensures !CrossLinkAt(db, first, n) {
      if n < end.number {
        AncestorMissing(db.headers, first, end.number - 1, n);
      }
    }
  }

  lemma PileStep(store: Store, headers: seq<Header>, i: nat, was: map<nat, Hash>, canon: map<nat, Hash>)
    requires i < |headers| && Contiguous(headers) && AllStored(store, headers)
    requires Painted(store, was, canon, headers[|headers| - 1], headers[0].number - 1, headers[0].number + i - 1)
    ensures Painted(store, was, canon[headers[i].number := headers[i].hash], headers[|headers| - 1],
                    headers[0].number - 1, headers[0].number + i)
  {
    ContiguousAncestor(store, headers, i, |headers| - 1);
    ContiguousAncestor(store, headers, 0, i);
    PaintUp(store, was, canon, headers[|headers| - 1], headers[i], headers[0].number - 1);
  }

  lemma PileWrite(db: Db, batch: Batch, number: nat, hash: Hash)
    ensures var was, next := Write(db, batch), Queue(batch, PutCanon(number, hash));
            Write(db, Queue(next, HeadHeader(hash))) == was.(canon := was.canon[number := hash], headHeader := hash)
  {
    WriteQueue(db, batch, PutCanon(number, hash));
    WriteQueue(db, Queue(batch, PutCanon(number, hash)), HeadHeader(hash));
  }

  /** The loop that piles the headers of the batch onto the index. */
  method Pile(db: Db, queued: Batch, headers: seq<Header>) returns (batch: Batch)
    requires headers != [] && Contiguous(headers) && AllStored(db.headers, headers)
    ensures var was, now, last := Write(db, queued), Write(db, batch), headers[|headers| - 1];
            && now == was.(canon := now.canon, headHeader := last.hash)
            && Painted(db.headers, was.canon, now.canon, last, headers[0].number - 1, last.number)
  {
    batch := queued;
    ghost var was, last := Write(db, queued), headers[|headers| - 1];
    ghost var canon: map<nat, Hash>, head: Hash := was.canon, was.headHeader;
    for i := 0 to |headers|
      invariant Write(db, batch) == was.(canon := canon, headHeader := head)
      invariant i > 0 ==> head == headers[i - 1].hash
      invariant Painted(db.headers, was.canon, canon, last, headers[0].number - 1, headers[0].number + i - 1)
    {
      var hash := if i < |headers| - 1 then headers[i + 1].parentHash else headers[i].hash;
      PileStep(db.headers, headers, i, was.canon, canon);
      assert hash == headers[i].hash;
      PileWrite(db, batch, headers[i].number, hash);
      batch := Queue(batch, PutCanon(headers[i].number, hash));
      batch := Queue(batch, HeadHeader(hash));
      canon, head := canon[headers[i].number := headers[i].hash], hash;
    }
    ContiguousAncestor(db.headers, headers, 0, |headers| - 1);
  }

  /** Rewiring from the first header and piling on the rest yields the path of the last. */
  lemma RewiredIsPath(db: Db, head: Header, headers: seq<Header>, mid: map<nat, Hash>, now: map<nat, Hash>,
                      low: int, hole: nat)
    requires Keyed(db.headers) && IsPath(db.headers, db.canon, head) && Stored(db.headers, head)
    requires headers != [] && Contiguous(headers) && AllStored(db.headers, headers)
    requires low <= headers[0].number && KeepsUpTo(db, headers[0], low)
    requires hole > headers[|headers| - 1].number && CanonicalHash(db, hole) == NO_HASH
    requires Painted(db.headers, Cut(db.canon, headers[|headers| - 1].number + 1, hole), mid,
                     headers[0], low, headers[0].number)
    requires Painted(db.headers, mid, now, headers[|headers| - 1], headers[0].number - 1, headers[|headers| - 1].number)
    ensures IsPath(db.headers, now, headers[|headers| - 1])
  {
    var store, first, last := db.headers, headers[0], headers[|headers| - 1];
    ContiguousAncestor(store, headers, 0, |headers| - 1);
    if hole <= head.number {
      AncestorStored(store, head, hole);
    }
    forall n: nat | n <= last.number
      ensures n in now && Ancestor(store, last, n).Some? && now[n] == Ancestor(store, last, n).value.hash
    {
      if n < first.number {
        AncestorTrans(store, last, first.number, n);
        if n <= low {
          AncestorTrans(store, first, low, n);
          AncestorTrans(store, head, low, n);
          AncestorStored(store, first, low);
          AncestorStored(store, head, low);
        }
      }
    }
  }

  /** Piling onto the head extends its path. */
  lemma ExtendedIsPath(db: Db, head: Header, headers: seq<Header>, now: map<nat, Hash>)
    requires Keyed(db.headers) && IsPath(db.headers, db.canon, head) && Stored(db.headers, head)
    requires headers != [] && Contiguous(headers) && AllStored(db.headers, headers)
    requires Parent(db.headers, headers[0]) == Some(head)
    requires Painted(db.headers, db.canon, now, headers[|headers| - 1], headers[0].number - 1, headers[|headers| - 1].number)
    ensures IsPath(db.headers, now, headers[|headers| - 1])
  {
    var store, first, last := db.headers, headers[0], headers[|headers| - 1];
    ContiguousAncestor(store, headers, 0, |headers| - 1);
    forall n: nat | n < first.number
      ensures Ancestor(store, last, n) == Ancestor(store, head, n)
    {
      AncestorTrans(store, last, first.number, n);
      AncestorTrans(store, first, head.number, n);
    }
  }

  /** `now` is `was` with the index and the header marker moved to `last`, and nothing else. */
  ghost predicate Moved(was: Db, now: Db, last: Header)
  {
    now == was.(canon := now.canon, headHeader := last.hash) && IsPath(was.headers, now.canon, last)
  }

  /** The batch for headers that do not extend the head: drop what is above, rewire, pile. */
  method SwitchBatch(db: Db, headers: seq<Header>, ghost head: Header) returns (ok: bool, batch: Batch)
    requires Keyed(db.headers) && IsPath(db.headers, db.canon, head) && Stored(db.headers, head)
    requires headers != [] && Contiguous(headers) && AllStored(db.headers, headers)
    ensures ok <==> CrossLinks(db, headers[0])
    ensures ok ==> Moved(db, Write(db, batch), headers[|headers| - 1])
  {
    var first, last := headers[0], headers[|headers| - 1];
    var hole: nat;
    ghost var low: int;
    batch, hole := QueueDrops(db, NewBatch, last.number + 1);
    ok, batch, low := Rewire(db, batch, first);
    if ok {
      ghost var mid := Write(db, batch).canon;
      batch := Pile(db, batch, headers);
      RewiredIsPath(db, head, headers, mid, Write(db, batch).canon, low, hole);
    }
  }

  method ReorgBatch(db: Db, headers: seq<Header>, head: Header) returns (ok: bool, batch: Batch)
    requires Keyed(db.headers) && IsPath(db.headers, db.canon, head) && Stored(db.headers, head)
    requires WellNumbered(db.headers)
    requires headers != [] && Contiguous(headers) && AllStored(db.headers, headers)
    ensures ok <==> headers[0].parentHash == head.hash || CrossLinks(db, headers[0])
    ensures ok ==> Moved(db, Write(db, batch), headers[|headers| - 1])
  {
    var first := headers[0];
    if first.parentHash != head.hash {
      ok, batch := SwitchBatch(db, headers, head);
    } else {
      ok := true;
      batch := Pile(db, NewBatch, headers);
      assert Parent(db.headers, db.headers[first.hash]) == Some(head);
      ExtendedIsPath(db, head, headers, Write(db, batch).canon);
    }
  }
}
