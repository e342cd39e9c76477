/** The event feed as a protocol: subscribers come and go while values are sent. */
module FeedProtocol {
  import opened Options
  import opened CaseList

  // ----- the protocol

  type SubId = nat

  /** A send in progress: `cases[..active]` is still to be served.  The multisets record the list
      when the send lock was taken, the cases delivered to, the cases removed while active, and
      all cases removed. */
  datatype Sending = Sending(
    active: nat, nsent: nat,
    start: multiset<Case>, delivered: multiset<Case>, dropped: multiset<Case>, removed: multiset<Case>)

  /** `subs` are the subscriptions not yet removed, `pending` those among them whose removal has
      passed the inbox and waits for the send list. */
  datatype State = State(
    subs: map<SubId, Channel>, pending: set<SubId>,
    inbox: seq<Case>, cases: seq<Case>, sending: Option<Sending>)

  datatype Event =
    | Subscribe(id: SubId, channel: Channel)
    | Unsubscribe(id: SubId)
    | RemoveIdle(id: SubId)       // the pending removal takes the send lock
    | SendBegin
    | Deliver(index: nat)         // a channel accepts the value
    | RemoveDuringSend(id: SubId) // the pending removal interrupts the send
    | SendEnd

  const INITIAL := State(map[], {}, [], [RemoveSub], None)

  predicate Enabled(s: State, e: Event)
  {
    match e
    case Subscribe(id, _) => id !in s.subs
    case Unsubscribe(id) => id in s.subs && id !in s.pending
    case RemoveIdle(id) => id in s.pending && id in s.subs && s.sending.None?
    case SendBegin => s.sending.None?
    case Deliver(i) => s.sending.Some? && 1 <= i < s.sending.value.active <= |s.cases|
    case RemoveDuringSend(id) => id in s.pending && id in s.subs && s.sending.Some? && s.sending.value.active > 1
    case SendEnd => s.sending.Some? && s.sending.value.active == 1
  }

  function Served(n: Sending, c: Case): (r: Sending)
    requires n.active > 0
  {
    n.(active := n.active - 1, nsent := n.nsent + 1, delivered := n.delivered + multiset{c})
  }

  /** A case is removed: if it was still active, the active prefix shrinks too. */
  function Removed(n: Sending, c: Case, index: nat): (r: Sending)
  {
    var n' := n.(removed := n.removed + multiset{c});
    if index < n.active then n'.(active := n.active - 1, dropped := n.dropped + multiset{c}) else n'
  }

  /** The send list and the accounts of a send in progress. */
  datatype SendState = SendState(cases: seq<Case>, n: Sending)

  /** What can happen to a send in progress: a channel takes the value, or a removal comes in. */
  datatype Step = Accept(index: nat) | Interrupt(channel: Channel)

  predicate CanStep(r: SendState, step: Step)
  {
    match step
    case Accept(i) => 1 <= i < r.n.active <= |r.cases|
    case Interrupt(ch) => r.n.active > 1 && Sub(ch) in r.cases
  }

  function Apply(r: SendState, step: Step): (next: SendState)
    requires CanStep(r, step)
    ensures next.n.active + |next.cases| < r.n.active + |r.cases|
  {
    match step
    case Accept(i) => SendState(Deactivate(r.cases, r.n.active, i), Served(r.n, r.cases[i]))
    case Interrupt(ch) =>
      var index := Find(r.cases, Sub(ch));
      SendState(Delete(r.cases, index), Removed(r.n, Sub(ch), index))
  }

  /** `None` is the crash of deleting a case that was not found. */
  function Next(s: State, e: Event): (r: Option<State>)
    requires Enabled(s, e)
  {
    match e
    case Subscribe(id, ch) => Some(s.(subs := s.subs[id := ch], inbox := s.inbox + [Sub(ch)]))
    case Unsubscribe(id) =>
      var index := Find(s.inbox, Sub(s.subs[id]));
      if index != -1 then Some(s.(subs := s.subs - {id}, inbox := Delete(s.inbox, index)))
      else Some(s.(pending := s.pending + {id}))
    case RemoveIdle(id) =>
      var index := Find(s.cases, Sub(s.subs[id]));
      if index == -1 then None
      else Some(s.(subs := s.subs - {id}, pending := s.pending - {id}, cases := Delete(s.cases, index)))
    case SendBegin =>
      var cases := s.cases + s.inbox;
      Some(s.(cases := cases, inbox := [],
              sending := Some(Sending(|cases|, 0, multiset(cases), multiset{}, multiset{}, multiset{}))))
    case Deliver(i) =>
      var r := Apply(SendState(s.cases, s.sending.value), Accept(i));
      Some(s.(cases := r.cases, sending := Some(r.n)))
    case RemoveDuringSend(id) =>
      var was, ch := SendState(s.cases, s.sending.value), s.subs[id];
      if !CanStep(was, Interrupt(ch)) then None
      else
        var r := Apply(was, Interrupt(ch));
        Some(s.(subs := s.subs - {id}, pending := s.pending - {id}, cases := r.cases, sending := Some(r.n)))
    case SendEnd => Some(s.(sending := None))
  }

  /** The subscriptions, among `ids`, of a channel. */
  function Owners(subs: map<SubId, Channel>, ids: set<SubId>, ch: Channel): (r: set<SubId>)
  {
    set id | id in ids && id in subs && subs[id] == ch
  }

  /** Entry zero, and only it, receives removals. */
  ghost predicate WellFormed(cases: seq<Case>)
  {
    |cases| >= 1 && cases[0] == RemoveSub && forall k :: 1 <= k < |cases| ==> cases[k].Sub?
  }

  /** A channel is listed once per subscription not yet removed, and the send list alone holds
      enough of it for every pending removal. */
  ghost predicate Balanced(s: State, ch: Channel)
  {
    && multiset(s.inbox)[Sub(ch)] + multiset(s.cases)[Sub(ch)] == |Owners(s.subs, s.subs.Keys, ch)|
    && multiset(s.cases)[Sub(ch)] >= |Owners(s.subs, s.pending, ch)|
  }

  /** Every case present when the lock was taken is still active, was delivered to, or was removed
      while active, each exactly once; and the list is the initial one less the removed cases. */
  ghost predicate Accounted(cases: seq<Case>, n: Sending)
  {
    && 1 <= n.active <= |cases| && n.nsent == |n.delivered|
    && multiset(cases[..n.active]) + n.delivered + n.dropped == n.start
    && multiset(cases) + n.removed == n.start && n.dropped <= n.removed
  }

  ghost predicate Inv(s: State)
  {
    && s.pending <= s.subs.Keys
    && WellFormed(s.cases) && (forall k :: 0 <= k < |s.inbox| ==> s.inbox[k].Sub?)
    && (forall ch: Channel :: Balanced(s, ch))
    && (s.sending.Some? ==> Accounted(s.cases, s.sending.value))
  }

  lemma OwnersAdd(subs: map<SubId, Channel>, id: SubId, ch: Channel, c: Channel)
    requires id !in subs
    ensures |Owners(subs[id := ch], subs[id := ch].Keys, c)| == |Owners(subs, subs.Keys, c)| + (if c == ch then 1 else 0)
    ensures forall ids :: ids <= subs.Keys ==> Owners(subs[id := ch], ids, c) == Owners(subs, ids, c)
  {
    var more := subs[id := ch];
    if c == ch {
      assert Owners(more, more.Keys, c) == Owners(subs, subs.Keys, c) + {id};
    } else {
      assert Owners(more, more.Keys, c) == Owners(subs, subs.Keys, c);
    }
  }

  lemma OwnersRemove(subs: map<SubId, Channel>, ids: set<SubId>, id: SubId, c: Channel)
    requires id in ids && id in subs
    ensures |Owners(subs - {id}, ids - {id}, c)| == |Owners(subs, ids, c)| - (if c == subs[id] then 1 else 0)
  {
    if c == subs[id] {
      assert Owners(subs - {id}, ids - {id}, c) == Owners(subs, ids, c) - {id};
    } else {
      assert Owners(subs - {id}, ids - {id}, c) == Owners(subs, ids, c);
    }
  }

  lemma OwnersPend(subs: map<SubId, Channel>, pending: set<SubId>, id: SubId, c: Channel)
    requires id in subs && id !in pending
    ensures |Owners(subs, pending + {id}, c)| == |Owners(subs, pending, c)| + (if c == subs[id] then 1 else 0)
    ensures |Owners(subs, pending + {id}, c)| <= |Owners(subs, subs.Keys, c)|
  {
    if c == subs[id] {
      assert Owners(subs, pending + {id}, c) == Owners(subs, pending, c) + {id};
    } else {
      assert Owners(subs, pending + {id}, c) == Owners(subs, pending, c);
    }
    Subset(Owners(subs, pending + {id}, c), Owners(subs, subs.Keys, c));
  }

  lemma Subset<T>(a: set<T>, b: set<T>)
    requires a <= b
    ensures |a| <= |b|
  {
    assert b == a + (b - a);
  }

  /** A removal that is not yet done always finds its channel. */
  lemma RemovalFinds(s: State, id: SubId)
    requires Inv(s) && id in s.pending
    ensures Find(s.cases, Sub(s.subs[id])) >= 1
  {
    var ch := s.subs[id];
    assert Balanced(s, ch);
    assert id in Owners(s.subs, s.pending, ch);
    assert Sub(ch) in multiset(s.cases);
  }

  lemma SubscribeKeeps(s: State, id: SubId, ch: Channel)
    requires Inv(s) && Enabled(s, Subscribe(id, ch))
    ensures Inv(Next(s, Subscribe(id, ch)).value)
  {
    var r := Next(s, Subscribe(id, ch)).value;
    forall c: Channel ensures Balanced(r, c) {
      assert Balanced(s, c);
      OwnersAdd(s.subs, id, ch, c);
      assert Owners(r.subs, r.pending, c) == Owners(s.subs, s.pending, c);
    }
  }

  lemma UnsubscribeFromInbox(s: State, id: SubId, index: nat)
    requires Inv(s) && Enabled(s, Unsubscribe(id)) && index == Find(s.inbox, Sub(s.subs[id]))
    ensures Inv(Next(s, Unsubscribe(id)).value)
  {
    forall c: Channel ensures Balanced(Next(s, Unsubscribe(id)).value, c) {
      InboxBalances(s, id, index, c);
    }
  }

  lemma InboxBalances(s: State, id: SubId, index: nat, c: Channel)
    requires Balanced(s, c) && id in s.subs && id !in s.pending && index < |s.inbox| && s.inbox[index] == Sub(s.subs[id])
    ensures Balanced(s.(subs := s.subs - {id}, inbox := Delete(s.inbox, index)), c)
  {
    DeleteCounts(s.inbox, index);
    OwnersDrop(s.subs, s.pending, id, c);
  }

  lemma OwnersDrop(subs: map<SubId, Channel>, pending: set<SubId>, id: SubId, c: Channel)
    requires id in subs && id !in pending
    ensures |Owners(subs - {id}, (subs - {id}).Keys, c)| == |Owners(subs, subs.Keys, c)| - (if c == subs[id] then 1 else 0)
    ensures Owners(subs - {id}, pending, c) == Owners(subs, pending, c)
  {
    OwnersRemove(subs, subs.Keys, id, c);
    assert subs.Keys - {id} == (subs - {id}).Keys;
  }

  lemma UnsubscribePends(s: State, id: SubId)
    requires Inv(s) && Enabled(s, Unsubscribe(id)) && Find(s.inbox, Sub(s.subs[id])) == -1
    ensures Inv(Next(s, Unsubscribe(id)).value)
  {
    var r := Next(s, Unsubscribe(id)).value;
    assert multiset(s.inbox)[Sub(s.subs[id])] == 0;
    forall c: Channel ensures Balanced(r, c) {
      assert Balanced(s, c);
      OwnersPend(s.subs, s.pending, id, c);
    }
  }

  lemma RemoveBalances(s: State, id: SubId, r: State, index: nat)
    requires Inv(s) && id in s.pending && index < |s.cases| && s.cases[index] == Sub(s.subs[id])
    requires r == s.(subs := s.subs - {id}, pending := s.pending - {id}, cases := Delete(s.cases, index), sending := r.sending)
    ensures WellFormed(r.cases) && forall c: Channel :: Balanced(r, c)
  {
    DeleteCounts(s.cases, index);
    forall c: Channel ensures Balanced(r, c) {
      assert Balanced(s, c);
      OwnersRemove(s.subs, s.subs.Keys, id, c);
      OwnersRemove(s.subs, s.pending, id, c);
      assert s.subs.Keys - {id} == r.subs.Keys;
    }
  }

  /** Moving one element from one account to another keeps the total. */
  lemma Transfer(rest: multiset<Case>, c: Case, from: multiset<Case>, a: multiset<Case>, b: multiset<Case>, total: multiset<Case>)
    requires rest + multiset{c} == from && from + a + b == total
    ensures rest + (a + multiset{c}) + b == total
    ensures rest + a + (b + multiset{c}) == total
  {
    assert rest + (a + multiset{c}) + b == (rest + multiset{c}) + a + b;
    assert rest + a + (b + multiset{c}) == (rest + multiset{c}) + a + b;
  }

  lemma RemoveFromList(cases: seq<Case>, n: Sending, index: nat)
    requires index < |cases| && multiset(cases) + n.removed == n.start
    ensures multiset(Delete(cases, index)) + (n.removed + multiset{cases[index]}) == n.start
  {
    DeleteCounts(cases, index);
    Transfer(multiset(Delete(cases, index)), cases[index], multiset(cases), n.removed, multiset{}, n.start);
  }

  lemma RemoveFromActive(cases: seq<Case>, n: Sending, index: nat)
    requires index < n.active <= |cases| && multiset(cases[..n.active]) + n.delivered + n.dropped == n.start
    ensures multiset(Delete(cases, index)[..n.active - 1]) + n.delivered + (n.dropped + multiset{cases[index]}) == n.start
  {
    var active := cases[..n.active];
    DeletePrefix(cases, n.active, index);
    DeleteCounts(active, index);
    Transfer(multiset(Delete(active, index)), cases[index], multiset(active), n.delivered, n.dropped, n.start);
  }

  lemma RemoveAccounts(cases: seq<Case>, n: Sending, index: nat)
    requires Accounted(cases, n) && 1 <= index < |cases| && n.active > 1
    ensures Accounted(Delete(cases, index), Removed(n, cases[index], index))
  {
    RemoveFromList(cases, n, index);
    if index < n.active {
      RemoveFromActive(cases, n, index);
    } else {
      DeletePrefix(cases, n.active, index);
    }
  }

  lemma DeliverToActive(cases: seq<Case>, n: Sending, i: nat)
    requires i < n.active <= |cases| && multiset(cases[..n.active]) + n.delivered + n.dropped == n.start
    ensures multiset(Deactivate(cases, n.active, i)[..n.active - 1]) + (n.delivered + multiset{cases[i]}) + n.dropped == n.start
  {
    DeactivateCounts(cases, n.active, i);
    Transfer(multiset(Deactivate(cases, n.active, i)[..n.active - 1]), cases[i], multiset(cases[..n.active]),
             n.delivered, n.dropped, n.start);
  }

  lemma DeliverAccounts(cases: seq<Case>, n: Sending, i: nat)
    requires Accounted(cases, n) && 1 <= i < n.active
    ensures Accounted(Deactivate(cases, n.active, i), Served(n, cases[i]))
  {
    var next := Deactivate(cases, n.active, i);
    DeliverToActive(cases, n, i);
    assert multiset(next) + n.removed == n.start by {
      DeactivateCounts(cases, n.active, i);
    }
    OneMore(n.delivered, cases[i]);
  }

  lemma OneMore(m: multiset<Case>, c: Case)
    ensures |m + multiset{c}| == |m| + 1
  {
  }

  lemma SameBalance(s: State, r: State)
    requires forall c: Channel :: Balanced(s, c)
    requires r.subs == s.subs && r.pending == s.pending
    requires multiset(r.inbox) + multiset(r.cases) == multiset(s.inbox) + multiset(s.cases)
    requires multiset(s.cases) <= multiset(r.cases)
    ensures forall c: Channel :: Balanced(r, c)
  {
    forall c: Channel ensures Balanced(r, c) {
      assert Balanced(s, c);
      assert (multiset(r.inbox) + multiset(r.cases))[Sub(c)] == (multiset(s.inbox) + multiset(s.cases))[Sub(c)];
    }
  }

  lemma DeactivateWellFormed(cases: seq<Case>, n: nat, i: nat)
    requires WellFormed(cases) && 1 <= i < n <= |cases|
    ensures WellFormed(Deactivate(cases, n, i))
  {
  }

  lemma DeliverKeeps(s: State, i: nat)
    requires Inv(s) && Enabled(s, Deliver(i))
    ensures Inv(Next(s, Deliver(i)).value)
  {
    DeliverAccounts(s.cases, s.sending.value, i);
    DeactivateCounts(s.cases, s.sending.value.active, i);
    DeactivateWellFormed(s.cases, s.sending.value.active, i);
    SameBalance(s, Next(s, Deliver(i)).value);
  }

  /** Every step keeps the books, and no step deletes a case that is not there. */
  lemma StepKeeps(s: State, e: Event)
    requires Inv(s) && Enabled(s, e)
    ensures Next(s, e).Some? && Inv(Next(s, e).value)
  {
    match e
    case Subscribe(id, ch) => SubscribeKeeps(s, id, ch);
    case Unsubscribe(id) =>
      if Find(s.inbox, Sub(s.subs[id])) == -1 {
        UnsubscribePends(s, id);
      } else {
        UnsubscribeFromInbox(s, id, Find(s.inbox, Sub(s.subs[id])));
      }
    case RemoveIdle(id) =>
      RemovalFinds(s, id);
      RemoveBalances(s, id, Next(s, e).value, Find(s.cases, Sub(s.subs[id])));
    case SendBegin =>
      var r := Next(s, e).value;
      SameBalance(s, r);
      assert r.cases[..|r.cases|] == r.cases;
    case Deliver(i) => DeliverKeeps(s, i);
    case RemoveDuringSend(id) =>
      RemovalFinds(s, id);
      var index := Find(s.cases, Sub(s.subs[id]));
      RemoveBalances(s, id, Next(s, e).value, index);
      RemoveAccounts(s.cases, s.sending.value, index);
    case SendEnd => SameBalance(s, Next(s, e).value);
  }

  ghost predicate IsRun(states: seq<State>, events: seq<Event>)
  {
    && |states| == |events| + 1 && states[0] == INITIAL
    && forall i :: 0 <= i < |events| ==>
         Enabled(states[i], events[i]) && Next(states[i], events[i]) == Some(states[i + 1])
  }

  /** A send that is over: exactly once to every case present at its start, except those removed
      while active; what is left is the initial list less everything removed. */
  ghost predicate Settled(cases: seq<Case>, n: Sending)
  {
    && n.delivered + n.dropped == n.start - multiset{RemoveSub} && n.nsent == |n.delivered|
    && multiset(cases) == n.start - n.removed && n.dropped <= n.removed
  }

  /** When only the removal case is active, everybody has been served or has left. */
  lemma EndOfSend(cases: seq<Case>, n: Sending)
    requires WellFormed(cases) && Accounted(cases, n) && n.active == 1
    ensures Settled(cases, n)
  {
    assert cases[..1] == [RemoveSub];
    assert n.start == multiset{RemoveSub} + (n.delivered + n.dropped);
  }

  lemma DeleteWellFormed(cases: seq<Case>, i: nat)
    requires WellFormed(cases) && 1 <= i < |cases|
    ensures WellFormed(Delete(cases, i))
  {
  }

  /** No removal waits for ever: it can always take place, or the send that is in its way can end.
      Taking place, it ends the subscription and takes one occurrence of its channel. */
  lemma PendingProgress(s: State, id: SubId)
    requires Inv(s) && id in s.pending
    ensures s.sending.None? ==> Enabled(s, RemoveIdle(id)) && Unlisted(s, id, Next(s, RemoveIdle(id)))
    ensures s.sending.Some? && s.sending.value.active > 1 ==>
              Enabled(s, RemoveDuringSend(id)) && Unlisted(s, id, Next(s, RemoveDuringSend(id)))
    ensures s.sending.Some? && s.sending.value.active == 1 ==> Enabled(s, SendEnd)
  {
    RemovalFinds(s, id);
    DeleteCounts(s.cases, Find(s.cases, Sub(s.subs[id])));
  }

  /** The subscription is gone, and one occurrence of its channel with it. */
  ghost predicate Unlisted(s: State, id: SubId, r: Option<State>)
    requires id in s.subs
  {
    && r.Some? && r.value.subs == s.subs - {id} && r.value.pending == s.pending - {id} && r.value.inbox == s.inbox
    && multiset(r.value.cases) == multiset(s.cases) - multiset{Sub(s.subs[id])}
  }

  /** A send in progress can always go on, and every delivery or removal brings its end nearer. */
  lemma SendProgress(s: State, e: Event)
    requires Inv(s) && s.sending.Some?
    ensures Enabled(s, SendEnd) || Enabled(s, Deliver(1))
    ensures Enabled(s, e) && (e.Deliver? || e.RemoveDuringSend?) ==>
              var r := Next(s, e);
              && r.Some? && r.value.sending.Some?
              && r.value.sending.value.active + |r.value.cases| < s.sending.value.active + |s.cases|
  {
    if e.RemoveDuringSend? && Enabled(s, e) {
      RemovalFinds(s, e.id);
    }
  }

  /** In every interleaving: the lists hold exactly the channels of the subscriptions not yet
      removed, a send that can end is settled, and no step that can come next crashes. */
  lemma {:induction false} RunsAreBalanced(states: seq<State>, events: seq<Event>, i: nat)
    requires IsRun(states, events) && i < |states|
    ensures Inv(states[i])
    ensures Enabled(states[i], SendEnd) ==> Settled(states[i].cases, states[i].sending.value)
    ensures forall e :: Enabled(states[i], e) ==> Next(states[i], e).Some?
    decreases i
  {
    if i == 0 {
      assert forall ch: Channel :: Balanced(states[0], ch);
    } else {
      RunsAreBalanced(states, events, i - 1);
      StepKeeps(states[i - 1], events[i - 1]);
    }
    if Enabled(states[i], SendEnd) {
      EndOfSend(states[i].cases, states[i].sending.value);
    }
    forall e | Enabled(states[i], e) ensures Next(states[i], e).Some? {
      StepKeeps(states[i], e);
    }
  }
}
