/** The chain indexer: sections of the canonical chain, indexed in the background while the chain
    may change underneath. */
module ChainIndexer {
  import opened Options
  import opened ChainTree
  import opened Uint64
  import opened ChainDb

  // ----- the chain as the indexer sees it

  /** One reading of the chain database. */
  datatype View = View(headers: Store, canon: map<nat, Hash>, head: Header)

  /** A view shows some canonical chain made of headers of the universe `tree`. */
  ghost predicate ValidView(tree: Store, v: View)
  {
    && Keyed(v.headers) && Extends(v.headers, tree)
    && Stored(v.headers, v.head) && IsPath(v.headers, v.canon, v.head)
  }

  function CanonHash(v: View, number: nat): (hash: Hash)
  {
    if number in v.canon then v.canon[number] else NO_HASH
  }

  /** The hash reached from `hash` by `k` parent links; the last need not be stored. */
  function WalkBack(tree: Store, hash: Hash, k: nat): (r: Option<Hash>)
    decreases k
  {
    if k == 0 then Some(hash)
    else if hash in tree then WalkBack(tree, tree[hash].parentHash, k - 1)
    else None
  }

  lemma {:induction false} WalkBackAdd(tree: Store, hash: Hash, j: nat, k: nat)
    requires WalkBack(tree, hash, j).Some?
    ensures WalkBack(tree, hash, j + k) == WalkBack(tree, WalkBack(tree, hash, j).value, k)
    decreases j
  {
    if j > 0 {
      WalkBackAdd(tree, tree[hash].parentHash, j - 1, k);
    }
  }

  /** Along a canonical chain, walking back is reading the index lower down. */
  lemma {:induction false} WalkBackCanon(tree: Store, v: View, n: nat, k: nat)
    requires ValidView(tree, v) && n in v.canon && k <= n
    ensures n - k in v.canon && WalkBack(tree, v.canon[n], k) == Some(v.canon[n - k])
    decreases k
  {
    if k > 0 {
      AncestorStored(v.headers, v.head, n);
      AncestorStep(v.headers, v.head, n);
      WalkBackCanon(tree, v, n - 1, k - 1);
    }
  }

  // ----- the indexer

  /** The indexer's bookkeeping: section heads below `stored` are valid, sections below `known`
      are complete on the chain. */
  datatype Index = Index(stored: nat, known: nat, heads: map<nat, Hash>)

  function HeadOf(ix: Index, section: nat): (hash: Hash)
  {
    if section in ix.heads then ix.heads[section] else NO_HASH
  }

  /** The last block number of a section. */
  function LastOf(size: nat, section: nat): (n: nat)
    requires size > 0
  {
    (section + 1) * size - 1
  }

  /** The section's recorded head is the canonical block at the section's end. */
  predicate OnChain(size: nat, ix: Index, v: View, section: nat)
    requires size > 0
  {
    HeadOf(ix, section) == CanonHash(v, LastOf(size, section))
  }

  function SetValid(ix: Index, sections: nat): (r: Index)
  {
    ix.(stored := sections, heads := map i | i in ix.heads && !(sections <= i < ix.stored) :: ix.heads[i])
  }

  /** `verifyLastHead`: roll back from the end while the last head is off the chain. */
  function Verified(size: nat, ix: Index, v: View): (r: Index)
    requires size > 0
    ensures r.stored <= ix.stored && r.known == ix.known
    decreases ix.stored
  {
    if ix.stored == 0 || OnChain(size, ix, v, ix.stored - 1) then ix
    else Verified(size, SetValid(ix, ix.stored - 1), v)
  }

  /** `newHead` without checkpoints. */
  function AfterNewHead(size: nat, confirms: nat, ix: Index, head: nat, reorg: bool): (r: Index)
    requires size > 0
  {
    if reorg then
      var sections := (head + 1) / size;
      var ix' := if sections < ix.known then ix.(known := sections) else ix;
      if sections < ix.stored then SetValid(ix', sections) else ix'
    else if head >= confirms && (head + 1 - confirms) / size > ix.known then
      ix.(known := (head + 1 - confirms) / size)
    else ix
  }

  lemma SectionsIn(size: nat, blocks: nat, i: nat)
    requires size > 0
    ensures i < blocks / size <==> (i + 1) * size <= blocks
  {
    var q, rest := blocks / size, blocks % size;
    assert blocks == q * size + rest && rest < size;
    if i < q {
      assert (i + 1) * size <= q * size;
    } else {
      assert (q + 1) * size <= (i + 1) * size;
    }
  }

  /** A new head makes known exactly the sections that end deep enough below it; a reorganisation
      down to a block keeps exactly the sections that end at or below that block. */
  lemma NewHeadSections(size: nat, confirms: nat, ix: Index, head: nat, reorg: bool, i: nat)
    requires size > 0
    ensures var r := AfterNewHead(size, confirms, ix, head, reorg);
            && (!reorg ==> r == ix.(known := r.known) && (i < r.known <==> i < ix.known || LastOf(size, i) + confirms <= head))
            && (reorg ==>
                  && (i < r.known <==> i < ix.known && LastOf(size, i) <= head)
                  && (i < r.stored <==> i < ix.stored && LastOf(size, i) <= head)
                  && (i in r.heads <==> i in ix.heads && !(i < ix.stored && LastOf(size, i) > head))
                  && (i in r.heads ==> r.heads[i] == ix.heads[i]))
  {
    SectionsIn(size, head + 1, i);
    if head >= confirms {
      SectionsIn(size, head + 1 - confirms, i);
    }
  }

  /** One step of `processSection`: the next header must continue from `lastHead`. */
  function ReadNext(v: View, number: nat, lastHead: Hash): (r: Option<Hash>)
  {
    var hash := CanonHash(v, number);
    if hash == NO_HASH then None
    else
      match Get(v.headers, hash, number)
      case None => None
      case Some(h) => if h.parentHash != lastHead then None else Some(h.hash)
  }

  // ----- stored sections are hash-linked

  /** Walking back one section from the head of section `i` reaches the head before it (before
      section zero, the all-zero parent of genesis). */
  ghost predicate Linked(tree: Store, size: nat, heads: map<nat, Hash>, i: nat)
  {
    && i in heads && heads[i] != NO_HASH
    && (i > 0 ==> i - 1 in heads)
    && WalkBack(tree, heads[i], size) == Some(if i == 0 then NO_HASH else heads[i - 1])
  }

  ghost predicate AllLinked(tree: Store, size: nat, ix: Index)
  {
    forall i: nat :: i < ix.stored ==> Linked(tree, size, ix.heads, i)
  }

  /** A section on the chain has all earlier sections on the chain. */
  lemma OnChainBelow(tree: Store, size: nat, ix: Index, v: View, i: nat)
    requires size > 0 && ValidView(tree, v) && AllLinked(tree, size, ix)
    requires 0 < i < ix.stored && OnChain(size, ix, v, i)
    ensures OnChain(size, ix, v, i - 1)
  {
    assert Linked(tree, size, ix.heads, i);
    WalkBackCanon(tree, v, LastOf(size, i), size);
    assert LastOf(size, i) - size == LastOf(size, i - 1);
  }

  lemma {:induction false} OnChainPrefix(tree: Store, size: nat, ix: Index, v: View, i: nat, j: nat)
    requires size > 0 && ValidView(tree, v) && AllLinked(tree, size, ix)
    requires j <= i < ix.stored && OnChain(size, ix, v, i)
    ensures OnChain(size, ix, v, j)
    decreases i
  {
    if j < i {
      OnChainBelow(tree, size, ix, v, i);
      OnChainPrefix(tree, size, ix, v, i - 1, j);
    }
  }

  /** All sections below `k` are on the chain. */
  ghost predicate PrefixOnChain(size: nat, ix: Index, v: View, k: nat)
    requires size > 0
  {
    forall i: nat :: i < k ==> OnChain(size, ix, v, i)
  }

  /** `verifyLastHead` looks only at last heads, and still keeps exactly the longest prefix of
      sections that is on the current canonical chain. */
  lemma {:induction false} VerifiedIsLongestPrefix(tree: Store, size: nat, ix: Index, v: View)
    requires size > 0 && ValidView(tree, v) && AllLinked(tree, size, ix)
    ensures var r := Verified(size, ix, v);
            && r.stored <= ix.stored && r.known == ix.known
            && (forall k: nat :: k <= ix.stored ==> (PrefixOnChain(size, ix, v, k) <==> k <= r.stored))
            && (forall i :: i in r.heads <==> i in ix.heads && !(r.stored <= i < ix.stored))
            && (forall i :: i in r.heads ==> r.heads[i] == ix.heads[i])
    decreases ix.stored
  {
    if ix.stored == 0 {
    } else if OnChain(size, ix, v, ix.stored - 1) {
      forall i: nat | i < ix.stored ensures OnChain(size, ix, v, i) {
        OnChainPrefix(tree, size, ix, v, ix.stored - 1, i);
      }
    } else {
      var less := SetValid(ix, ix.stored - 1);
      forall i: nat | i < less.stored ensures Linked(tree, size, less.heads, i) {
        assert Linked(tree, size, ix.heads, i);
      }
      VerifiedIsLongestPrefix(tree, size, less, v);
      forall k: nat | k < ix.stored
        ensures PrefixOnChain(size, ix, v, k) <==> PrefixOnChain(size, less, v, k)
      {
        SamePrefix(size, ix, less, v, k);
      }
      assert !PrefixOnChain(size, ix, v, ix.stored);
    }
  }

  lemma SamePrefix(size: nat, ix: Index, less: Index, v: View, k: nat)
    requires size > 0 && forall i: nat :: i < k ==> HeadOf(ix, i) == HeadOf(less, i)
    ensures PrefixOnChain(size, ix, v, k) <==> PrefixOnChain(size, less, v, k)
  {
    forall i: nat | i < k ensures OnChain(size, ix, v, i) <==> OnChain(size, less, v, i) {}
  }

  // ----- the protocol: the update loop drops the lock while it processes a section

  /** Where the update loop is: idle, processing `section` on top of `oldHead` with `done` headers
      read so far, or finished processing with a new section head or a failure. */
  datatype Phase =
    | Idle
    | Reading(section: nat, oldHead: Hash, done: nat, last: Hash)
    | Processed(section: nat, oldHead: Hash, result: Option<Hash>)

  datatype System = System(ix: Index, phase: Phase)

  /** The steps that can interleave.  Each carries its own view of the chain, so the canonical
      chain may change arbitrarily between any two of them. */
  datatype Event =
    | ChainHead(head: nat, reorg: bool)
    | Query(view: View)
    | Begin(view: View)
    | ResetFails
    | Read(view: View, accepted: bool)
    | Commit(accepted: bool)
    | Finish(view: View)

  predicate Enabled(size: nat, s: System, e: Event)
  {
    match e
    case ChainHead(_, _) => true
    case Query(_) => true
    case Begin(_) => s.phase.Idle? && s.ix.known > s.ix.stored
    case ResetFails => s.phase.Reading? && s.phase.done == 0
    case Read(_, _) => s.phase.Reading? && s.phase.done < size
    case Commit(_) => s.phase.Reading? && s.phase.done == size
    case Finish(_) => s.phase.Processed?
  }

  function FinishSection(size: nat, ix: Index, v: View, section: nat, oldHead: Hash, result: Option<Hash>): (r: Index)
    requires size > 0
  {
    if result.Some? && (section == 0 || oldHead == HeadOf(ix, section - 1)) then
      SetValid(ix.(heads := ix.heads[section := result.value]), section + 1)
    else
      var ix' := Verified(size, ix, v);
      ix'.(known := ix'.stored)
  }

  function Next(size: nat, confirms: nat, s: System, e: Event): (r: System)
    requires size > 0 && Enabled(size, s, e)
  {
    match e
    case ChainHead(head, reorg) => s.(ix := AfterNewHead(size, confirms, s.ix, head, reorg))
    case Query(v) => s.(ix := Verified(size, s.ix, v))
    case Begin(v) =>
      var ix := Verified(size, s.ix, v);
      var oldHead := if ix.stored > 0 then HeadOf(ix, ix.stored - 1) else NO_HASH;
      System(ix, Reading(ix.stored, oldHead, 0, oldHead))
    case ResetFails =>
      System(SetValid(s.ix, 0), Processed(s.phase.section, s.phase.oldHead, None))
    case Read(v, accepted) =>
      var next := ReadNext(v, s.phase.section * size + s.phase.done, s.phase.last);
      if next.Some? && accepted then s.(phase := s.phase.(done := s.phase.done + 1, last := next.value))
      else s.(phase := Processed(s.phase.section, s.phase.oldHead, None))
    case Commit(accepted) =>
      s.(phase := Processed(s.phase.section, s.phase.oldHead, if accepted then Some(s.phase.last) else None))
    case Finish(v) =>
      System(FinishSection(size, s.ix, v, s.phase.section, s.phase.oldHead, s.phase.result), Idle)
  }

  /** While a section is being processed the stored sections can only shrink, and if the old head
      is still recorded they did not. */
  ghost predicate Pending(ix: Index, section: nat, oldHead: Hash)
  {
    && ix.stored <= section && (section == 0 <==> oldHead == NO_HASH)
    && (section > 0 && HeadOf(ix, section - 1) == oldHead ==> ix.stored == section)
  }

  ghost predicate Inv(tree: Store, size: nat, s: System)
  {
    && AllLinked(tree, size, s.ix)
    && match s.phase
       case Idle => true
       case Reading(section, oldHead, done, last) =>
         && Pending(s.ix, section, oldHead) && done <= size
         && WalkBack(tree, last, done) == Some(oldHead) && (done > 0 ==> last != NO_HASH)
       case Processed(section, oldHead, result) =>
         && Pending(s.ix, section, oldHead)
         && (result.Some? ==> result.value != NO_HASH && WalkBack(tree, result.value, size) == Some(oldHead))
  }

  predicate HasView(e: Event)
  {
    e.Query? || e.Begin? || e.Read? || e.Finish?
  }

  lemma SetValidLinked(tree: Store, size: nat, ix: Index, k: nat)
    requires AllLinked(tree, size, ix) && k <= ix.stored
    ensures AllLinked(tree, size, SetValid(ix, k))
  {
    forall i: nat | i < k ensures Linked(tree, size, SetValid(ix, k).heads, i) {
      assert Linked(tree, size, ix.heads, i);
    }
  }

  lemma SetValidPending(ix: Index, k: nat, section: nat, oldHead: Hash)
    requires Pending(ix, section, oldHead) && k < ix.stored
    ensures Pending(SetValid(ix, k), section, oldHead)
  {
  }

  lemma {:induction false} VerifiedKeeps(tree: Store, size: nat, ix: Index, v: View)
    requires size > 0 && AllLinked(tree, size, ix)
    ensures AllLinked(tree, size, Verified(size, ix, v))
    ensures Verified(size, ix, v).stored <= ix.stored
    ensures forall section, oldHead :: Pending(ix, section, oldHead) ==> Pending(Verified(size, ix, v), section, oldHead)
    decreases ix.stored
  {
    if ix.stored > 0 && !OnChain(size, ix, v, ix.stored - 1) {
      SetValidLinked(tree, size, ix, ix.stored - 1);
      forall section, oldHead | Pending(ix, section, oldHead)
        ensures Pending(SetValid(ix, ix.stored - 1), section, oldHead)
      {
        SetValidPending(ix, ix.stored - 1, section, oldHead);
      }
      VerifiedKeeps(tree, size, SetValid(ix, ix.stored - 1), v);
    }
  }

  lemma NewHeadKeeps(tree: Store, size: nat, confirms: nat, ix: Index, head: nat, reorg: bool)
    requires size > 0 && AllLinked(tree, size, ix)
    ensures AllLinked(tree, size, AfterNewHead(size, confirms, ix, head, reorg))
    ensures forall section, oldHead :: Pending(ix, section, oldHead) ==>
              Pending(AfterNewHead(size, confirms, ix, head, reorg), section, oldHead)
  {
    var sections := (head + 1) / size;
    var ix' := if sections < ix.known then ix.(known := sections) else ix;
    if reorg && sections < ix.stored {
      SetValidLinked(tree, size, ix', sections);
    }
  }

  /** Reading a header keeps the chain of read headers linked back to the old head. */
  lemma ReadKeeps(tree: Store, size: nat, s: System, v: View, accepted: bool)
    requires size > 0 && Inv(tree, size, s) && ValidView(tree, v) && Enabled(size, s, Read(v, accepted))
    ensures Inv(tree, size, Next(size, 0, s, Read(v, accepted)))
  {
    var next := ReadNext(v, s.phase.section * size + s.phase.done, s.phase.last);
    if next.Some? && accepted {
      assert next.value in v.headers;
      assert WalkBack(tree, next.value, s.phase.done + 1) == WalkBack(tree, s.phase.last, s.phase.done);
    }
  }

  /** Completing a section keeps all stored sections linked. */
  lemma FinishKeeps(tree: Store, size: nat, s: System, v: View)
    requires size > 0 && Inv(tree, size, s) && s.phase.Processed?
    ensures Inv(tree, size, Next(size, 0, s, Finish(v)))
  {
    var section, oldHead, result := s.phase.section, s.phase.oldHead, s.phase.result;
    if result.Some? && (section == 0 || oldHead == HeadOf(s.ix, section - 1)) {
      var r := FinishSection(size, s.ix, v, section, oldHead, result);
      forall i: nat | i < section + 1 ensures Linked(tree, size, r.heads, i) {
        if i < section {
          assert Linked(tree, size, s.ix.heads, i);
        }
      }
    } else {
      VerifiedKeeps(tree, size, s.ix, v);
    }
  }

  /** Every step keeps the stored sections one hash-linked chain, whatever the canonical chain did
      since the step before. */
  lemma StepKeeps(tree: Store, size: nat, confirms: nat, s: System, e: Event)
    requires size > 0 && Inv(tree, size, s) && Enabled(size, s, e)
    requires HasView(e) ==> ValidView(tree, e.view)
    ensures Inv(tree, size, Next(size, confirms, s, e))
  {
    match e
    case ChainHead(head, reorg) => NewHeadKeeps(tree, size, confirms, s.ix, head, reorg);
    case Query(v) => VerifiedKeeps(tree, size, s.ix, v);
    case Begin(v) => BeginKeeps(tree, size, s, v);
    case ResetFails =>
      SetValidLinked(tree, size, s.ix, 0);
    case Read(v, accepted) => ReadKeeps(tree, size, s, v, accepted);
    case Commit(_) =>
    case Finish(v) => FinishKeeps(tree, size, s, v);
  }

  lemma BeginKeeps(tree: Store, size: nat, s: System, v: View)
    requires size > 0 && Inv(tree, size, s) && Enabled(size, s, Begin(v))
    ensures Inv(tree, size, Next(size, 0, s, Begin(v)))
  {
    VerifiedKeeps(tree, size, s.ix, v);
    var ix := Verified(size, s.ix, v);
    if ix.stored > 0 {
      assert Linked(tree, size, ix.heads, ix.stored - 1);
    }
  }

  /** A run: each event is enabled and its view is some valid chain. */
  ghost predicate IsRun(tree: Store, size: nat, confirms: nat, states: seq<System>, events: seq<Event>)
  {
    && size > 0 && |states| == |events| + 1
    && forall i :: 0 <= i < |events| ==>
         && Enabled(size, states[i], events[i])
         && (HasView(events[i]) ==> ValidView(tree, events[i].view))
         && states[i + 1] == Next(size, confirms, states[i], events[i])
  }

  /** From an empty index, in every state of every run the stored sections are hash-linked; hence
      whenever the index is queried, it answers with exactly the longest prefix of its sections
      that is on the canonical chain of that moment. */
  lemma {:induction false} RunsAreLinked(tree: Store, size: nat, confirms: nat, states: seq<System>, events: seq<Event>, i: nat)
    requires IsRun(tree, size, confirms, states, events) && i < |states|
    requires states[0] == System(Index(0, 0, map[]), Idle)
    ensures Inv(tree, size, states[i])
    ensures i < |events| && events[i].Query? ==>
              forall k: nat :: k <= states[i].ix.stored ==>
                (PrefixOnChain(size, states[i].ix, events[i].view, k) <==> k <= states[i + 1].ix.stored)
    decreases i
  {
    if i > 0 {
      RunsAreLinked(tree, size, confirms, states, events, i - 1);
      StepKeeps(tree, size, confirms, states[i - 1], events[i - 1]);
    }
    if i < |events| && events[i].Query? {
      VerifiedIsLongestPrefix(tree, size, states[i].ix, events[i].view);
    }
  }

  // ----- progress

  /** What a section's end does, by what is recorded: a section processed on top of an unchanged
      predecessor is added with its head; otherwise nothing above the longest prefix of sections on
      the chain is left, and nothing more is known. */
  lemma FinishEffect(tree: Store, size: nat, ix: Index, v: View, section: nat, oldHead: Hash, result: Option<Hash>)
    requires size > 0 && ValidView(tree, v) && AllLinked(tree, size, ix)
    ensures var r := FinishSection(size, ix, v, section, oldHead, result);
            if result.Some? && (section == 0 || HeadOf(ix, section - 1) == oldHead) then
              && r.stored == section + 1 && r.known == ix.known && HeadOf(r, section) == result.value
              && (forall i: nat :: i < section ==> HeadOf(r, i) == HeadOf(ix, i))
            else
              && r.known == r.stored <= ix.stored
              && (forall k: nat :: k <= ix.stored ==> (PrefixOnChain(size, ix, v, k) <==> k <= r.stored))
              && (forall i: nat :: i < r.stored ==> HeadOf(r, i) == HeadOf(ix, i))
  {
    VerifiedIsLongestPrefix(tree, size, ix, v);
  }

  /** Block zero has the zero hash for a parent, and no other hash is zero. */
  ghost predicate Genuine(v: View)
  {
    NO_HASH !in v.headers && forall h :: h in v.headers && v.headers[h].number == 0 ==> v.headers[h].parentHash == NO_HASH
  }

  /** The canonical hash before a block. */
  function HashBefore(v: View, n: nat): (hash: Hash)
  {
    if n == 0 then NO_HASH else CanonHash(v, n - 1)
  }

  /** Reading the chain upwards in one view goes from each block to the next. */
  lemma ReadNextOnChain(tree: Store, v: View, n: nat)
    requires ValidView(tree, v) && Genuine(v) && n <= v.head.number
    ensures n in v.canon && ReadNext(v, n, HashBefore(v, n)) == Some(v.canon[n])
  {
    AncestorStored(v.headers, v.head, n);
    if n > 0 {
      AncestorStep(v.headers, v.head, n);
    }
  }

  /** The same event `n` times in a row; `None` if it is not always enabled. */
  function Repeat(size: nat, confirms: nat, s: System, e: Event, n: nat): (r: Option<System>)
    requires size > 0
    decreases n
  {
    if n == 0 then Some(s)
    else if Enabled(size, s, e) then Repeat(size, confirms, Next(size, confirms, s, e), e, n - 1)
    else None
  }

  /** One pass of the update loop over one chain, with a backend that accepts everything. */
  function UpdatePass(size: nat, confirms: nat, ix: Index, v: View): (r: Option<Index>)
    requires size > 0
  {
    if !Enabled(size, System(ix, Idle), Begin(v)) then None
    else
      EndPass(size, confirms, Repeat(size, confirms, Next(size, confirms, System(ix, Idle), Begin(v)), Read(v, true), size), v)
  }

  function EndPass(size: nat, confirms: nat, s: Option<System>, v: View): (r: Option<Index>)
    requires size > 0
  {
    if s.None? || !Enabled(size, s.value, Commit(true)) then None
    else
      var t := Next(size, confirms, s.value, Commit(true));
      if Enabled(size, t, Finish(v)) then Some(Next(size, confirms, t, Finish(v)).ix) else None
  }

  lemma {:induction false} ReadsOnChain(tree: Store, size: nat, confirms: nat, s: System, v: View)
    requires size > 0 && ValidView(tree, v) && Genuine(v)
    requires s.phase.Reading? && s.phase.done <= size && s.phase.last == HashBefore(v, s.phase.section * size + s.phase.done)
    requires (s.phase.section + 1) * size <= v.head.number + 1
    ensures Repeat(size, confirms, s, Read(v, true), size - s.phase.done) ==
            Some(s.(phase := s.phase.(done := size, last := HashBefore(v, s.phase.section * size + size))))
    decreases size - s.phase.done
  {
    if s.phase.done < size {
      ReadNextOnChain(tree, v, s.phase.section * size + s.phase.done);
      ReadsOnChain(tree, size, confirms, Next(size, confirms, s, Read(v, true)), v);
    }
  }

  /** Nothing is verified away while all stored sections are on the chain. */
  lemma VerifiedSteady(size: nat, ix: Index, v: View)
    requires size > 0 && PrefixOnChain(size, ix, v, ix.stored)
    ensures Verified(size, ix, v) == ix
  {
    if ix.stored > 0 {
      assert OnChain(size, ix, v, ix.stored - 1);
    }
  }

  /** Progress: over a steady chain that has the section's blocks, with an accepting backend, a pass
      of the loop records one more section, with the right head. */
  lemma UpdateProgress(tree: Store, size: nat, confirms: nat, ix: Index, v: View)
    requires size > 0 && ValidView(tree, v) && Genuine(v) && PrefixOnChain(size, ix, v, ix.stored)
    requires ix.stored < ix.known && LastOf(size, ix.stored) <= v.head.number
    ensures var r := UpdatePass(size, confirms, ix, v);
            && r.Some? && r.value.stored == ix.stored + 1 && r.value.known == ix.known
            && PrefixOnChain(size, r.value, v, r.value.stored)
            && (forall i: nat :: i < ix.stored ==> HeadOf(r.value, i) == HeadOf(ix, i))
  {
    PassAdds(tree, size, confirms, ix, v);
    AddedOnChain(size, ix, v);
  }

  /** The index with the next section of the chain added. */
  function Added(size: nat, ix: Index, v: View): (r: Index)
    requires size > 0
  {
    SetValid(ix.(heads := ix.heads[ix.stored := CanonHash(v, LastOf(size, ix.stored))]), ix.stored + 1)
  }

  lemma AddedOnChain(size: nat, ix: Index, v: View)
    requires size > 0 && PrefixOnChain(size, ix, v, ix.stored)
    ensures PrefixOnChain(size, Added(size, ix, v), v, ix.stored + 1)
    ensures forall i: nat :: i < ix.stored ==> HeadOf(Added(size, ix, v), i) == HeadOf(ix, i)
  {
    forall i: nat | i < ix.stored + 1 ensures OnChain(size, Added(size, ix, v), v, i) {
      assert i < ix.stored ==> OnChain(size, ix, v, i);
    }
  }

  lemma PassAdds(tree: Store, size: nat, confirms: nat, ix: Index, v: View)
    requires size > 0 && ValidView(tree, v) && Genuine(v) && PrefixOnChain(size, ix, v, ix.stored)
    requires ix.stored < ix.known && LastOf(size, ix.stored) <= v.head.number
    ensures UpdatePass(size, confirms, ix, v) == Some(Added(size, ix, v))
  {
    VerifiedSteady(size, ix, v);
    var oldHead := HashBefore(v, ix.stored * size);
    var begun := System(ix, Reading(ix.stored, oldHead, 0, oldHead));
    assert Next(size, confirms, System(ix, Idle), Begin(v)) == begun by {
      if ix.stored > 0 {
        assert OnChain(size, ix, v, ix.stored - 1);
      }
    }
    ReadsOnChain(tree, size, confirms, begun, v);
    var read := Reading(ix.stored, oldHead, size, CanonHash(v, LastOf(size, ix.stored)));
    assert Repeat(size, confirms, begun, Read(v, true), size) == Some(System(ix, read));
    EndAdds(size, confirms, ix, v, oldHead);
  }

  lemma EndAdds(size: nat, confirms: nat, ix: Index, v: View, oldHead: Hash)
    requires size > 0 && (ix.stored > 0 ==> oldHead == HeadOf(ix, ix.stored - 1))
    ensures var read := Reading(ix.stored, oldHead, size, CanonHash(v, LastOf(size, ix.stored)));
            EndPass(size, confirms, Some(System(ix, read)), v) == Some(Added(size, ix, v))
  {
  }

  /** A step of the index `n` times in a row, unless it fails. */
  function Iterate(step: Index -> Option<Index>, ix: Index, n: nat): (r: Option<Index>)
    decreases n
  {
    if n == 0 then Some(ix)
    else
      var next := step(ix);
      if next.None? then None else Iterate(step, next.value, n - 1)
  }

  /** The index is on the chain, and the chain has all known sections. */
  ghost predicate Steady(size: nat, v: View, ix: Index)
    requires size > 0
  {
    && PrefixOnChain(size, ix, v, ix.stored)
    && forall i: nat :: i < ix.known ==> LastOf(size, i) <= v.head.number
  }

  ghost predicate Advances(step: Index -> Option<Index>, size: nat, v: View, ix: Index)
    requires size > 0
  {
    step(ix).Some? && Steady(size, v, step(ix).value) && step(ix).value.stored == ix.stored + 1 && step(ix).value.known == ix.known
  }

  lemma {:induction false} IterateAdvances(step: Index -> Option<Index>, size: nat, v: View, ix: Index)
    requires size > 0 && Steady(size, v, ix) && ix.stored <= ix.known
    requires forall i: Index :: Steady(size, v, i) && i.stored < i.known ==> Advances(step, size, v, i)
    ensures var r := Iterate(step, ix, ix.known - ix.stored);
            r.Some? && r.value.stored == r.value.known == ix.known && Steady(size, v, r.value)
    decreases ix.known - ix.stored
  {
    if ix.stored < ix.known {
      assert Advances(step, size, v, ix);
      IterateAdvances(step, size, v, step(ix).value);
    }
  }

  /** The indexer catches up: over a steady chain that has all known sections, as many passes as
      sections are missing store them all, each with its head on the chain. */
  lemma CatchesUp(tree: Store, size: nat, confirms: nat, ix: Index, v: View)
    requires size > 0 && ValidView(tree, v) && Genuine(v) && Steady(size, v, ix) && ix.stored <= ix.known
    ensures var r := Iterate(i => UpdatePass(size, confirms, i, v), ix, ix.known - ix.stored);
            r.Some? && r.value.stored == r.value.known == ix.known && Steady(size, v, r.value)
  {
    var step := i => UpdatePass(size, confirms, i, v);
    forall i: Index | Steady(size, v, i) && i.stored < i.known ensures Advances(step, size, v, i) {
      UpdateProgress(tree, size, confirms, i, v);
    }
    IterateAdvances(step, size, v, ix);
  }

  // ----- the indexer object

  /** The head after reading `n` consecutive headers from `first` on, each in its own view. */
  function ReadFirst(first: nat, oldHead: Hash, views: seq<View>, n: nat): (last: Option<Hash>)
    requires n <= |views|
  {
    if n == 0 then Some(oldHead)
    else
      match ReadFirst(first, oldHead, views, n - 1)
      case None => None
      case Some(last) => ReadNext(views[n - 1], first + n - 1, last)
  }

  /** The headers read are linked, although the chain may have changed between any two of them. */
  lemma {:induction false} ReadLinked(tree: Store, first: nat, oldHead: Hash, views: seq<View>, n: nat)
    requires n <= |views| && (forall i :: 0 <= i < |views| ==> ValidView(tree, views[i]))
    requires ReadFirst(first, oldHead, views, n).Some?
    ensures var last := ReadFirst(first, oldHead, views, n).value;
            && WalkBack(tree, last, n) == Some(oldHead)
            && (n > 0 ==> last in tree && tree[last].number == first + n - 1)
  {
    if n > 0 {
      ReadLinked(tree, first, oldHead, views, n - 1);
      assert ReadFirst(first, oldHead, views, n).value in views[n - 1].headers;
    }
  }

  lemma {:induction false} ReadStops(first: nat, oldHead: Hash, views: seq<View>, i: nat, n: nat)
    requires i <= n <= |views|
    ensures ReadFirst(first, oldHead, views, i).None? ==> ReadFirst(first, oldHead, views, n).None?
    decreases n
  {
    if i < n {
      ReadStops(first, oldHead, views, i, n - 1);
    }
  }

  class Indexer {
    const sectionSize: nat
    const confirmsReq: nat
    var storedSections: nat
    var knownSections: nat
    var sectionHeads: map<nat, Hash>

    constructor (section: nat, confirms: nat)
      requires section > 0
      ensures sectionSize == section && confirmsReq == confirms && State() == Index(0, 0, map[])
    {
      sectionSize, confirmsReq := section, confirms;
      storedSections, knownSections, sectionHeads := 0, 0, map[];
    }

    function State(): (ix: Index)
      reads this
    {
      Index(storedSections, knownSections, sectionHeads)
    }

    /** Record the number of valid sections, removing the heads above it one by one. */
    method SetValidSections(sections: nat)
      modifies this
      ensures State() == SetValid(old(State()), sections)
    {
      ghost var was := State();
      while storedSections > sections
        invariant knownSections == was.known
        invariant storedSections == was.stored || sections <= storedSections < was.stored
        invariant sectionHeads == map i | i in was.heads && !(storedSections <= i < was.stored) :: was.heads[i]
      {
        storedSections := storedSections - 1;
        sectionHeads := sectionHeads - {storedSections};
      }
      storedSections := sections;
    }

    method VerifyLastHead(v: View)
      requires sectionSize > 0
      modifies this
      ensures State() == Verified(sectionSize, old(State()), v)
    {
      while storedSections > 0
        invariant Verified(sectionSize, State(), v) == Verified(sectionSize, old(State()), v)
        decreases storedSections
      {
        if HeadOf(State(), storedSections - 1) == CanonHash(v, storedSections * sectionSize - 1) {
          return;
        }
        SetValidSections(storedSections - 1);
      }
    }

    method NewHead(head: nat, reorg: bool)
      requires sectionSize > 0
      modifies this
      ensures State() == AfterNewHead(sectionSize, confirmsReq, old(State()), head, reorg)
      ensures forall i: nat :: !reorg ==>
                (i < knownSections <==> i < old(knownSections) || LastOf(sectionSize, i) + confirmsReq <= head)
      ensures forall i: nat :: reorg ==>
                && (i < knownSections <==> i < old(knownSections) && LastOf(sectionSize, i) <= head)
                && (i < storedSections <==> i < old(storedSections) && LastOf(sectionSize, i) <= head)
    {
      forall i: nat {
        NewHeadSections(sectionSize, confirmsReq, State(), head, reorg, i);
      }
      if reorg {
        var known := (head + 1) / sectionSize;
        var stored := known;
        if known < knownSections {
          knownSections := known;
        }
        if stored < storedSections {
          SetValidSections(stored);
        }
        return;
      }
      if head >= confirmsReq {
        var sections := (head + 1 - confirmsReq) / sectionSize;
        if sections > knownSections {
          knownSections := sections;
        }
      }
    }

    /** The first locked part of the update loop. */
    method BeginUpdate(v: View) returns (section: nat, oldHead: Hash)
      requires sectionSize > 0 && knownSections > storedSections
      modifies this
      ensures System(State(), Reading(section, oldHead, 0, oldHead)) ==
              Next(sectionSize, confirmsReq, System(old(State()), Idle), Begin(v))
    {
      VerifyLastHead(v);
      section, oldHead := storedSections, NO_HASH;
      if section > 0 {
        oldHead := HeadOf(State(), section - 1);
      }
    }

    /** Process a section without the lock: `views[i]` is the chain as read for its `i`-th block,
        `reset` whether the backend could be reset, `accepted` how many headers it takes and
        `committed` whether it commits.  A failing reset drops all sections. */
    method ProcessSection(section: nat, oldHead: Hash, reset: bool, views: seq<View>, accepted: nat, committed: bool)
      returns (newHead: Option<Hash>)
      requires |views| == sectionSize
      modifies this
      ensures State() == if reset then old(State()) else SetValid(old(State()), 0)
      ensures newHead == if reset && committed && accepted >= sectionSize
                         then ReadFirst(section * sectionSize, oldHead, views, sectionSize) else None
    {
      if !reset {
        SetValidSections(0);
        return None;
      }
      var first, last, i := section * sectionSize, oldHead, 0;
      while i < sectionSize
        invariant 0 <= i <= sectionSize && i <= accepted && ReadFirst(first, oldHead, views, i) == Some(last)
      {
        var next := ReadNext(views[i], first + i, last);
        if next.None? || i >= accepted {
          ReadStops(first, oldHead, views, i + 1, sectionSize);
          return None;
        }
        last, i := next.value, i + 1;
      }
      return if committed then Some(last) else None;
    }

    /** The second locked part: record the section only if the one before it is still the same. */
    method FinishUpdate(section: nat, oldHead: Hash, newHead: Option<Hash>, v: View, ghost tree: Store)
      requires sectionSize > 0
      modifies this
      ensures System(State(), Idle) ==
              Next(sectionSize, confirmsReq, System(old(State()), Processed(section, oldHead, newHead)), Finish(v))
      ensures newHead.Some? && (section == 0 || HeadOf(old(State()), section - 1) == oldHead) ==>
                && storedSections == section + 1 && knownSections == old(knownSections)
                && section in sectionHeads && sectionHeads[section] == newHead.value
                && forall i: nat :: i < section ==> HeadOf(State(), i) == HeadOf(old(State()), i)
      ensures newHead.None? || (section > 0 && HeadOf(old(State()), section - 1) != oldHead) ==>
                && knownSections == storedSections <= old(storedSections)
                && (ValidView(tree, v) && AllLinked(tree, sectionSize, old(State())) ==>
                      forall k: nat :: k <= old(storedSections) ==>
                        (PrefixOnChain(sectionSize, old(State()), v, k) <==> k <= storedSections))
    {
      if ValidView(tree, v) && AllLinked(tree, sectionSize, State()) {
        FinishEffect(tree, sectionSize, State(), v, section, oldHead, newHead);
      }
      if newHead.Some? && (section == 0 || oldHead == HeadOf(State(), section - 1)) {
        sectionHeads := sectionHeads[section := newHead.value];
        SetValidSections(section + 1);
      } else {
        VerifyLastHead(v);
        knownSections := storedSections;
      }
    }

    /** The number of sections, the last block they cover and its hash; with no section stored the
        block number wraps around. */
    method Sections(v: View, ghost tree: Store) returns (sections: nat, last: nat, hash: Hash)
      requires sectionSize > 0 && ValidView(tree, v) && AllLinked(tree, sectionSize, State())
      modifies this
      ensures State() == Verified(sectionSize, old(State()), v) && sections == storedSections
      ensures forall k: nat :: k <= old(storedSections) ==>
                (PrefixOnChain(sectionSize, old(State()), v, k) <==> k <= sections)
      ensures sections > 0 ==> last == LastOf(sectionSize, sections - 1) && last in v.canon && hash == v.canon[last]
      ensures sections == 0 ==> last == MAX_UINT64 && hash == NO_HASH
    {
      VerifiedIsLongestPrefix(tree, sectionSize, State(), v);
      ghost var was := State();
      VerifyLastHead(v);
      sections := storedSections;
      if sections == 0 {
        last, hash := MAX_UINT64, NO_HASH;
      } else {
        last, hash := sections * sectionSize - 1, HeadOf(State(), sections - 1);
        assert Linked(tree, sectionSize, was.heads, sections - 1);
        assert PrefixOnChain(sectionSize, was, v, sections);
        assert OnChain(sectionSize, was, v, sections - 1);
      }
    }
  }
}
