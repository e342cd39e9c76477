/** The loop of `Feed.Send` on the backing array, as a function of what the channels do. */
module SendLoop {
  import opened Options
  import opened CaseList
  import opened FeedProtocol

  /** Everything a send does not decide itself: `answers(r, k)` is whether the `k`-th channel tried
      in round `r` takes the value at once, `choices(r)` picks among the cases that can proceed when
      round `r` waits, and `requests` are the removals that come in, in order. */
  datatype Environment = Environment(answers: (nat, nat) -> bool, choices: nat -> nat, requests: seq<Channel>)

  predicate Open(r: SendState)
  {
    1 <= r.n.active <= |r.cases|
  }

  function Begin(list: seq<Case>): (r: SendState)
  {
    SendState(list, Sending(|list|, 0, multiset(list), multiset{}, multiset{}, multiset{}))
  }

  /** The non-blocking pass of one round, from the `i`-th case on. */
  function Pass(r: SendState, env: Environment, round: nat, i: nat, k: nat): (p: SendState)
    requires Open(r) && 1 <= i <= r.n.active
    ensures Open(p) && p.n.active <= r.n.active && |p.cases| == |r.cases|
    decreases r.n.active - i
  {
    if i == r.n.active then r
    else if env.answers(round, k) then Pass(Apply(r, Accept(i)), env, round, i, k + 1)
    else Pass(r, env, round, i + 1, k + 1)
  }

  /** The case a round waits for: the one the environment picks, which can be a removal only while
      there are requests. */
  function Select(env: Environment, round: nat, active: nat, taken: nat): (chosen: nat)
    requires active > 1
    ensures chosen < active && (chosen == 0 ==> taken < |env.requests|)
    ensures env.choices(round) < active && (env.choices(round) > 0 || taken < |env.requests|) ==> chosen == env.choices(round)
  {
    var pick := env.choices(round) % active;
    if pick > 0 || taken < |env.requests| then pick else 1
  }

  /** All rounds from `round` on, `taken` requests having been served; with the number served in
      the end.  `None` is the crash of removing a channel that is not listed. */
  function Rounds(r: SendState, env: Environment, round: nat, taken: nat): (end: Option<(SendState, nat)>)
    requires Open(r)
    decreases r.n.active + |r.cases|
  {
    var p := Pass(r, env, round, 1, 0);
    if p.n.active == 1 then Some((p, taken))
    else
      var chosen := Select(env, round, p.n.active, taken);
      if chosen > 0 then Rounds(Apply(p, Accept(chosen)), env, round + 1, taken)
      else
        var removal := Interrupt(env.requests[taken]);
        if CanStep(p, removal) then Rounds(Apply(p, removal), env, round + 1, taken + 1) else None
  }

  // ----- what the channels take

  /** How many of the tries from `k` up to `end` in a round a channel accepts. */
  function Yes(env: Environment, round: nat, k: nat, end: nat): (n: nat)
    ensures n <= if k < end then end - k else 0
    decreases end - k
  {
    if k >= end then 0 else (if env.answers(round, k) then 1 else 0) + Yes(env, round, k + 1, end)
  }

  /** The cases a pass tries, in order. */
  function Tried(r: SendState, env: Environment, round: nat, i: nat, k: nat): (tried: seq<Case>)
    requires Open(r) && 1 <= i <= r.n.active
    ensures |tried| == r.n.active - i
    decreases r.n.active - i
  {
    if i == r.n.active then []
    else if env.answers(round, k) then [r.cases[i]] + Tried(Apply(r, Accept(i)), env, round, i, k + 1)
    else [r.cases[i]] + Tried(r, env, round, i + 1, k + 1)
  }

  /** Those among the cases tried from the `k`-th on whose channel takes the value, or does not. */
  function Answering(tried: seq<Case>, env: Environment, round: nat, k: nat, answer: bool): (m: multiset<Case>)
  {
    if tried == [] then multiset{}
    else
      (if env.answers(round, k) == answer then multiset{tried[0]} else multiset{}) + Answering(tried[1..], env, round, k + 1, answer)
  }

  lemma AnsweringCons(first: Case, rest: seq<Case>, env: Environment, round: nat, k: nat, answer: bool)
    ensures Answering([first] + rest, env, round, k, answer) ==
            (if env.answers(round, k) == answer then multiset{first} else multiset{}) + Answering(rest, env, round, k + 1, answer)
  {
    assert ([first] + rest)[1..] == rest;
  }

  /** As many cases took the value as there are accepting answers. */
  lemma {:induction false} AnsweringCount(tried: seq<Case>, env: Environment, round: nat, k: nat)
    ensures |Answering(tried, env, round, k, true)| == Yes(env, round, k, k + |tried|)
  {
    if tried != [] {
      AnsweringCount(tried[1..], env, round, k + 1);
    }
  }

  /** A pass offers the value once to every active case from `i` on; as many as take it are counted
      and put aside. */
  lemma {:induction false} PassCounts(r: SendState, env: Environment, round: nat, i: nat, k: nat)
    requires Open(r) && 1 <= i <= r.n.active
    ensures var p, yes := Pass(r, env, round, i, k), Yes(env, round, k, k + r.n.active - i);
            p.n.nsent == r.n.nsent + yes && p.n.active == r.n.active - yes
    decreases r.n.active - i
  {
    if i < r.n.active {
      if env.answers(round, k) {
        PassCounts(Apply(r, Accept(i)), env, round, i, k + 1);
      } else {
        PassCounts(r, env, round, i + 1, k + 1);
      }
    }
  }

  lemma {:induction false} PassTries(r: SendState, env: Environment, round: nat, i: nat, k: nat)
    requires Open(r) && 1 <= i <= r.n.active
    ensures multiset(Tried(r, env, round, i, k)) == ToTry(r, i)
    decreases r.n.active - i
  {
    if i < r.n.active {
      var next := if env.answers(round, k) then Apply(r, Accept(i)) else r;
      var j := if env.answers(round, k) then i else i + 1;
      PassTries(next, env, round, j, k + 1);
      CasesCons(r.cases[i], Tried(next, env, round, j, k + 1));
      LeftToTry(r, i);
    }
  }

  ghost function ToTry(r: SendState, i: nat): (m: multiset<Case>)
    requires Open(r) && i <= r.n.active
  {
    multiset(r.cases[i..r.n.active])
  }

  lemma LeftToTry(r: SendState, i: nat)
    requires Open(r) && 1 <= i < r.n.active
    ensures ToTry(r, i) == multiset{r.cases[i]} + ToTry(Apply(r, Accept(i)), i)
    ensures ToTry(r, i) == multiset{r.cases[i]} + ToTry(r, i + 1)
  {
    SliceWithout(r.cases, r.n.active, i);
    SliceTail(r.cases, r.n.active, i);
  }

  lemma SliceTail(cs: seq<Case>, n: nat, i: nat)
    requires i < n <= |cs|
    ensures multiset(cs[i..n]) == multiset{cs[i]} + multiset(cs[i + 1..n])
  {
    assert cs[i..n] == [cs[i]] + cs[i + 1..n];
  }

  lemma CasesCons(first: Case, rest: seq<Case>)
    ensures multiset([first] + rest) == multiset{first} + multiset(rest)
  {
  }

  /** The deliveries of a pass go to exactly the cases that took the value. */
  lemma {:induction false} PassTakes(r: SendState, env: Environment, round: nat, i: nat, k: nat)
    requires Open(r) && 1 <= i <= r.n.active
    ensures Pass(r, env, round, i, k).n.delivered ==
            r.n.delivered + Answering(Tried(r, env, round, i, k), env, round, k, true)
    decreases r.n.active - i
  {
    if i < r.n.active {
      var next := if env.answers(round, k) then Apply(r, Accept(i)) else r;
      var j := if env.answers(round, k) then i else i + 1;
      PassTakes(next, env, round, j, k + 1);
      AnsweringCons(r.cases[i], Tried(next, env, round, j, k + 1), env, round, k, true);
    }
  }

  /** The cases that did not take it, and the entries before the `i`-th, stay active. */
  lemma {:induction false} PassKeeps(r: SendState, env: Environment, round: nat, i: nat, k: nat)
    requires Open(r) && 1 <= i <= r.n.active
    ensures var p := Pass(r, env, round, i, k);
            && i <= p.n.active && p.cases[..i] == r.cases[..i]
            && multiset(p.cases[i..p.n.active]) == Answering(Tried(r, env, round, i, k), env, round, k, false)
    decreases r.n.active - i
  {
    if i < r.n.active {
      var next := if env.answers(round, k) then Apply(r, Accept(i)) else r;
      var j := if env.answers(round, k) then i else i + 1;
      PassKeeps(next, env, round, j, k + 1);
      AnsweringCons(r.cases[i], Tried(next, env, round, j, k + 1), env, round, k, false);
      if j == i + 1 {
        HeadOfSlice(r.cases, Pass(r, env, round, i, k).cases, i, Pass(r, env, round, i, k).n.active);
      }
    }
  }

  lemma HeadOfSlice(cs: seq<Case>, ds: seq<Case>, i: nat, n: nat)
    requires i < n <= |ds| && i < |cs| && ds[..i + 1] == cs[..i + 1]
    ensures ds[..i] == cs[..i] && ds[i..n] == [cs[i]] + ds[i + 1..n]
  {
    assert ds[..i] == ds[..i + 1][..i] && cs[..i] == cs[..i + 1][..i];
    assert ds[i] == ds[..i + 1][i];
  }

  lemma SliceWithout(cs: seq<Case>, n: nat, i: nat)
    requires i < n <= |cs|
    ensures multiset(cs[i..n]) == multiset{cs[i]} + multiset(Deactivate(cs, n, i)[i..n - 1])
  {
    if i == n - 1 {
      assert cs[i..n] == [cs[i]];
    } else {
      var middle := cs[i + 1..n - 1];
      assert cs[i..n] == [cs[i]] + (middle + [cs[n - 1]]);
      assert Deactivate(cs, n, i)[i..n - 1] == [cs[n - 1]] + middle;
    }
  }

  /** If nobody takes the value the pass changes nothing; if everybody does, only the cases before
      the `i`-th stay active. */
  lemma {:induction false} PassExtremes(r: SendState, env: Environment, round: nat, i: nat, k: nat)
    requires Open(r) && 1 <= i <= r.n.active
    ensures (forall j :: k <= j < k + r.n.active - i ==> !env.answers(round, j)) ==> Pass(r, env, round, i, k) == r
    ensures (forall j :: k <= j < k + r.n.active - i ==> env.answers(round, j)) ==> Pass(r, env, round, i, k).n.active == i
    decreases r.n.active - i
  {
    if i < r.n.active {
      if env.answers(round, k) {
        PassExtremes(Apply(r, Accept(i)), env, round, i, k + 1);
      } else {
        PassExtremes(r, env, round, i + 1, k + 1);
      }
    }
  }

  /** The values taken in all rounds: the accepted tries of each, and the waits that chose a channel. */
  function Accepted(r: SendState, env: Environment, round: nat, taken: nat): (n: nat)
    requires Open(r)
    decreases r.n.active + |r.cases|
  {
    var p, tries := Pass(r, env, round, 1, 0), Yes(env, round, 0, r.n.active - 1);
    if p.n.active == 1 then tries
    else
      var chosen := Select(env, round, p.n.active, taken);
      if chosen > 0 then tries + 1 + Accepted(Apply(p, Accept(chosen)), env, round + 1, taken)
      else
        var removal := Interrupt(env.requests[taken]);
        if CanStep(p, removal) then tries + Accepted(Apply(p, removal), env, round + 1, taken + 1) else tries
  }

  /** The channels that took it, with repetition. */
  function Received(r: SendState, env: Environment, round: nat, taken: nat): (m: multiset<Case>)
    requires Open(r)
    decreases r.n.active + |r.cases|, 1
  {
    var p, tries := Pass(r, env, round, 1, 0), Answering(Tried(r, env, round, 1, 0), env, round, 0, true);
    if p.n.active == 1 then tries else tries + ReceivedFrom(p, env, round, taken)
  }

  /** Those from a wait on. */
  function ReceivedFrom(p: SendState, env: Environment, round: nat, taken: nat): (m: multiset<Case>)
    requires Open(p) && p.n.active > 1
    decreases p.n.active + |p.cases|, 0
  {
    var chosen := Select(env, round, p.n.active, taken);
    if chosen > 0 then multiset{p.cases[chosen]} + Received(Apply(p, Accept(chosen)), env, round + 1, taken)
    else
      var removal := Interrupt(env.requests[taken]);
      if CanStep(p, removal) then Received(Apply(p, removal), env, round + 1, taken + 1) else multiset{}
  }

  /** The count is the number of values the channels took. */
  lemma {:induction false} RoundsCount(r: SendState, env: Environment, round: nat, taken: nat)
    requires Open(r)
    ensures var end := Rounds(r, env, round, taken);
            end.Some? ==> end.value.0.n.nsent == r.n.nsent + Accepted(r, env, round, taken)
    decreases r.n.active + |r.cases|
  {
    PassCounts(r, env, round, 1, 0);
    var p := Pass(r, env, round, 1, 0);
    if p.n.active > 1 {
      var chosen := Select(env, round, p.n.active, taken);
      if chosen > 0 {
        RoundsCount(Apply(p, Accept(chosen)), env, round + 1, taken);
      } else if CanStep(p, Interrupt(env.requests[taken])) {
        RoundsCount(Apply(p, Interrupt(env.requests[taken])), env, round + 1, taken + 1);
      }
    }
  }

  /** Each channel is delivered to as often as it took it. */
  lemma {:induction false} RoundsReceive(r: SendState, env: Environment, round: nat, taken: nat, c: Case)
    requires Open(r) && Rounds(r, env, round, taken).Some?
    ensures Rounds(r, env, round, taken).value.0.n.delivered[c] == r.n.delivered[c] + Received(r, env, round, taken)[c]
    decreases r.n.active + |r.cases|, 1
  {
    PassTakes(r, env, round, 1, 0);
    var p := Pass(r, env, round, 1, 0);
    if p.n.active == 1 {
      RoundsEnd(r, env, round, taken);
    } else {
      RoundsStep(r, env, round, taken);
      WaitReceives(p, env, round, taken, Rounds(r, env, round, taken).value, c);
    }
  }

  lemma {:induction false} WaitReceives(p: SendState, env: Environment, round: nat, taken: nat, end: (SendState, nat), c: Case)
    requires Open(p) && p.n.active > 1
    requires var chosen := Select(env, round, p.n.active, taken);
             if chosen > 0 then Rounds(Apply(p, Accept(chosen)), env, round + 1, taken) == Some(end)
             else
               && CanStep(p, Interrupt(env.requests[taken]))
               && Rounds(Apply(p, Interrupt(env.requests[taken])), env, round + 1, taken + 1) == Some(end)
    ensures end.0.n.delivered[c] == p.n.delivered[c] + ReceivedFrom(p, env, round, taken)[c]
    decreases p.n.active + |p.cases|, 0
  {
    var chosen := Select(env, round, p.n.active, taken);
    if chosen > 0 {
      RoundsReceive(Apply(p, Accept(chosen)), env, round + 1, taken, c);
    } else {
      RoundsReceive(Apply(p, Interrupt(env.requests[taken])), env, round + 1, taken + 1, c);
    }
  }

  lemma SendReceives(list: seq<Case>, env: Environment)
    requires list != []
    ensures var end := Rounds(Begin(list), env, 0, 0);
            end.Some? ==>
              && end.value.0.n.delivered == Received(Begin(list), env, 0, 0)
              && end.value.0.n.nsent == Accepted(Begin(list), env, 0, 0)
  {
    RoundsCount(Begin(list), env, 0, 0);
    if Rounds(Begin(list), env, 0, 0).Some? {
      var delivered, received := Rounds(Begin(list), env, 0, 0).value.0.n.delivered, Received(Begin(list), env, 0, 0);
      forall c: Case ensures delivered[c] == received[c] {
        RoundsReceive(Begin(list), env, 0, 0, c);
      }
    }
  }

  // ----- what the loop achieves, whatever the channels do

  ghost predicate Good(r: SendState)
  {
    WellFormed(r.cases) && Accounted(r.cases, r.n)
  }

  /** The cases named by the requests from `i` up to `j`. */
  function Asked(requests: seq<Channel>, i: nat, j: nat): (m: multiset<Case>)
    requires j <= |requests|
    decreases j - i
  {
    if i >= j then multiset{} else multiset{Sub(requests[i])} + Asked(requests, i + 1, j)
  }

  /** A delivery keeps the books, and the list as a multiset. */
  lemma AcceptGood(r: SendState, i: nat)
    requires Good(r) && CanStep(r, Accept(i))
    ensures var next := Apply(r, Accept(i));
            Good(next) && next.n.start == r.n.start && multiset(next.cases) == multiset(r.cases) && next.n.removed == r.n.removed
  {
    DeliverAccounts(r.cases, r.n, i);
    DeactivateCounts(r.cases, r.n.active, i);
    DeactivateWellFormed(r.cases, r.n.active, i);
  }

  /** A removal keeps the books and takes one occurrence of its channel. */
  lemma InterruptGood(r: SendState, ch: Channel)
    requires Good(r) && CanStep(r, Interrupt(ch))
    ensures var next := Apply(r, Interrupt(ch));
            && Good(next) && next.n.start == r.n.start
            && multiset(next.cases) == multiset(r.cases) - multiset{Sub(ch)} && next.n.removed == r.n.removed + multiset{Sub(ch)}
  {
    var index := Find(r.cases, Sub(ch));
    RemoveAccounts(r.cases, r.n, index);
    DeleteCounts(r.cases, index);
    DeleteWellFormed(r.cases, index);
  }

  lemma {:induction false} PassGood(r: SendState, env: Environment, round: nat, i: nat, k: nat)
    requires Good(r) && 1 <= i <= r.n.active
    ensures var p := Pass(r, env, round, i, k);
            Good(p) && p.n.start == r.n.start && p.n.removed == r.n.removed && multiset(p.cases) == multiset(r.cases)
    decreases r.n.active - i
  {
    if i < r.n.active {
      if env.answers(round, k) {
        AcceptGood(r, i);
        PassGood(Apply(r, Accept(i)), env, round, i, k + 1);
      } else {
        PassGood(r, env, round, i + 1, k + 1);
      }
    }
  }

  /** Every request from `taken` on names a listed case. */
  ghost predicate Listed(cases: multiset<Case>, env: Environment, taken: nat)
  {
    taken <= |env.requests| && Asked(env.requests, taken, |env.requests|) <= cases
  }

  /** The loop ended without a crash, with the books in order, only the removal case active, and
      exactly the cases of the requests served since `taken` removed. */
  ghost predicate Ended(start: multiset<Case>, removed: multiset<Case>, env: Environment, taken: nat, end: Option<(SendState, nat)>)
  {
    && end.Some? && Good(end.value.0) && end.value.0.n.active == 1 && end.value.0.n.start == start
    && taken <= end.value.1 <= |env.requests|
    && end.value.0.n.removed == removed + Asked(env.requests, taken, end.value.1)
  }

  lemma {:induction false} RoundsGood(r: SendState, env: Environment, round: nat, taken: nat)
    requires Good(r) && Listed(multiset(r.cases), env, taken)
    ensures Ended(r.n.start, r.n.removed, env, taken, Rounds(r, env, round, taken))
    decreases r.n.active + |r.cases|, 2
  {
    PassGood(r, env, round, 1, 0);
    var p := Pass(r, env, round, 1, 0);
    if p.n.active == 1 {
      assert Asked(env.requests, taken, taken) == multiset{};
    } else {
      WaitGood(p, env, round, taken);
    }
  }

  lemma {:induction false} WaitGood(p: SendState, env: Environment, round: nat, taken: nat)
    requires Good(p) && p.n.active > 1 && Listed(multiset(p.cases), env, taken)
    ensures var chosen := Select(env, round, p.n.active, taken);
            if chosen > 0 then Ended(p.n.start, p.n.removed, env, taken, Rounds(Apply(p, Accept(chosen)), env, round + 1, taken))
            else
              var removal := Interrupt(env.requests[taken]);
              CanStep(p, removal) &&
              Ended(p.n.start, p.n.removed, env, taken, Rounds(Apply(p, removal), env, round + 1, taken + 1))
    decreases p.n.active + |p.cases|, 1
  {
    var chosen := Select(env, round, p.n.active, taken);
    if chosen > 0 {
      AcceptGood(p, chosen);
      RoundsGood(Apply(p, Accept(chosen)), env, round + 1, taken);
    } else {
      RemovalGood(p, env, round, taken);
    }
  }

  lemma {:induction false} RemovalGood(p: SendState, env: Environment, round: nat, taken: nat)
    requires Good(p) && p.n.active > 1 && taken < |env.requests| && Listed(multiset(p.cases), env, taken)
    ensures var removal := Interrupt(env.requests[taken]);
            CanStep(p, removal) &&
            Ended(p.n.start, p.n.removed, env, taken, Rounds(Apply(p, removal), env, round + 1, taken + 1))
    decreases p.n.active + |p.cases|, 0
  {
    RequestListed(multiset(p.cases), env, taken);
    InterruptGood(p, env.requests[taken]);
    var next := Apply(p, Interrupt(env.requests[taken]));
    RoundsGood(next, env, round + 1, taken + 1);
    EndedEarlier(p.n.start, p.n.removed, env, taken, Rounds(next, env, round + 1, taken + 1));
  }

  lemma RequestListed(cases: multiset<Case>, env: Environment, taken: nat)
    requires Listed(cases, env, taken) && taken < |env.requests|
    ensures Sub(env.requests[taken]) in cases && Listed(cases - multiset{Sub(env.requests[taken])}, env, taken + 1)
  {
    assert Sub(env.requests[taken]) in Asked(env.requests, taken, |env.requests|);
  }

  lemma EndedEarlier(start: multiset<Case>, removed: multiset<Case>, env: Environment, taken: nat, end: Option<(SendState, nat)>)
    requires taken < |env.requests| && Ended(start, removed + multiset{Sub(env.requests[taken])}, env, taken + 1, end)
    ensures Ended(start, removed, env, taken, end)
  {
    assert Asked(env.requests, taken, end.value.1) ==
           multiset{Sub(env.requests[taken])} + Asked(env.requests, taken + 1, end.value.1);
  }

  /** If every removal that comes in names a listed case, nothing crashes. */
  lemma SendEnds(list: seq<Case>, env: Environment)
    requires WellFormed(list) && Listed(multiset(list), env, 0)
    ensures Rounds(Begin(list), env, 0, 0).Some?
  {
    assert list[..|list|] == list;
    RoundsGood(Begin(list), env, 0, 0);
  }

  /** A whole send, whatever the channels do: if every removal that comes in names a listed case,
      nothing crashes, everybody present is served exactly once except those removed while active,
      and exactly the cases of the requests served were removed. */
  lemma SendSettles(list: seq<Case>, env: Environment)
    requires WellFormed(list) && Listed(multiset(list), env, 0)
    ensures var end := Rounds(Begin(list), env, 0, 0);
            && end.Some? && WellFormed(end.value.0.cases) && Settled(end.value.0.cases, end.value.0.n)
            && end.value.0.n.start == multiset(list)
            && end.value.1 <= |env.requests| && end.value.0.n.removed == Asked(env.requests, 0, end.value.1)
            && end.value.0.n.delivered == Received(Begin(list), env, 0, 0)
            && end.value.0.n.nsent == Accepted(Begin(list), env, 0, 0)
  {
    assert list[..|list|] == list;
    RoundsGood(Begin(list), env, 0, 0);
    SendReceives(list, env);
    var end := Rounds(Begin(list), env, 0, 0).value;
    EndOfSend(end.0.cases, end.0.n);
  }

  /** With no removals, everybody is served and the list is only reordered. */
  lemma Undisturbed(list: seq<Case>, env: Environment)
    requires WellFormed(list) && env.requests == []
    ensures var end := Rounds(Begin(list), env, 0, 0);
            && end.Some? && end.value.0.n.delivered == multiset(list) - multiset{RemoveSub}
            && end.value.0.n.nsent == |list| - 1 && multiset(end.value.0.cases) == multiset(list)
  {
    SendSettles(list, env);
    var n := Rounds(Begin(list), env, 0, 0).value.0.n;
    assert n.dropped == multiset{};
    assert RemoveSub in multiset(list) && |multiset(list)| == |list|;
  }

  // ----- the same on the backing array

  /** The first entries of the array and the counters of the loop are those of `r`. */
  ghost predicate Holds(list: seq<Case>, active: nat, sent: nat, r: SendState)
  {
    Open(r) && r.cases == list && r.n.active == active && r.n.nsent == sent
  }

  /** One channel accepts the value. */
  method Serve(cases: array<Case>, len: nat, active: nat, sent: nat, index: nat, ghost r: SendState)
    returns (active': nat, nsent: nat)
    requires len <= cases.Length && Holds(cases[..len], active, sent, r) && 1 <= index < active
    modifies cases
    ensures Holds(cases[..len], active', nsent, Apply(r, Accept(index)))
  {
    DeactivateCase(cases, len, active, index);
    active', nsent := active - 1, sent + 1;
  }

  /** The removal of a listed channel comes in. */
  method Remove(cases: array<Case>, len: nat, active: nat, sent: nat, channel: Channel, ghost r: SendState)
    returns (active': nat)
    requires len <= cases.Length && Holds(cases[..len], active, sent, r) && CanStep(r, Interrupt(channel))
    modifies cases
    ensures Holds(cases[..len - 1], active', sent, Apply(r, Interrupt(channel)))
  {
    var index := FindCase(cases, len, Sub(channel));
    DeleteCase(cases, len, index);
    active' := if index < active then active - 1 else active;
  }

  /** The non-blocking pass: offer the value to every active channel once. */
  method TrySends(cases: array<Case>, len: nat, active: nat, sent: nat, env: Environment, round: nat, ghost r: SendState)
    returns (active': nat, nsent: nat)
    requires len <= cases.Length && Holds(cases[..len], active, sent, r)
    modifies cases
    ensures Holds(cases[..len], active', nsent, Pass(r, env, round, 1, 0))
    ensures nsent == sent + Yes(env, round, 0, active - 1) && active' == active - Yes(env, round, 0, active - 1)
  {
    PassCounts(r, env, round, 1, 0);
    active', nsent := active, sent;
    ghost var now := r;
    var i, k := 1, 0;
    while i < active'
      invariant Holds(cases[..len], active', nsent, now) && 1 <= i <= active'
      invariant Pass(now, env, round, i, k) == Pass(r, env, round, 1, 0)
      decreases active' - i
    {
      if env.answers(round, k) {
        active', nsent := Serve(cases, len, active', nsent, i, now);
        now := Apply(now, Accept(i));
      } else {
        i := i + 1;
      }
      k := k + 1;
    }
  }

  /** One unfolding of the rounds, by what ends the wait. */
  lemma RoundsStep(r: SendState, env: Environment, round: nat, taken: nat)
    requires Open(r) && Pass(r, env, round, 1, 0).n.active > 1 && Rounds(r, env, round, taken).Some?
    ensures var p := Pass(r, env, round, 1, 0);
            var chosen := Select(env, round, p.n.active, taken);
            if chosen > 0 then Rounds(r, env, round, taken) == Rounds(Apply(p, Accept(chosen)), env, round + 1, taken)
            else
              && CanStep(p, Interrupt(env.requests[taken]))
              && Rounds(r, env, round, taken) == Rounds(Apply(p, Interrupt(env.requests[taken])), env, round + 1, taken + 1)
  {
  }

  /** Wait until a channel takes the value or a removal comes in. */
  method Wait(sendCases: array<Case>, len: nat, active: nat, sent: nat, env: Environment, round: nat, served: nat,
              ghost p: SendState)
    returns (len': nat, active': nat, nsent: nat, served': nat, ghost step: Step)
    requires len <= sendCases.Length && Holds(sendCases[..len], active, sent, p) && active > 1
    requires Select(env, round, active, served) == 0 ==> CanStep(p, Interrupt(env.requests[served]))
    modifies sendCases
    ensures var chosen := Select(env, round, active, served);
            if chosen > 0 then step == Accept(chosen) && len' == len && served' == served
            else step == Interrupt(env.requests[served]) && len' == len - 1 && served' == served + 1
    ensures CanStep(p, step) && Holds(sendCases[..len'], active', nsent, Apply(p, step))
  {
    len', nsent, served' := len, sent, served;
    var chosen := Select(env, round, active, served);
    if chosen == 0 {
      active' := Remove(sendCases, len, active, sent, env.requests[served], p);
      len', served', step := len - 1, served + 1, Interrupt(env.requests[served]);
    } else {
      active', nsent := Serve(sendCases, len, active, sent, chosen, p);
      step := Accept(chosen);
    }
  }

  /** The send loop.  The cases still to be served are a prefix of the list, in the same array. */
  method SendAll(sendCases: array<Case>, len: nat, env: Environment) returns (len': nat, nsent: nat, served: nat)
    requires len <= sendCases.Length && WellFormed(sendCases[..len]) && Listed(multiset(sendCases[..len]), env, 0)
    modifies sendCases
    ensures len' <= len && Rounds(Begin(old(sendCases[..len])), env, 0, 0).Some?
    ensures var end := Rounds(Begin(old(sendCases[..len])), env, 0, 0).value;
            sendCases[..len'] == end.0.cases && nsent == end.0.n.nsent && served == end.1
  {
    ghost var r := Begin(sendCases[..len]);
    ghost var end := Rounds(r, env, 0, 0);
    SendEnds(sendCases[..len], env);
    var active, round := len, 0;
    len', nsent, served := len, 0, 0;
    while true
      invariant len' <= len && Holds(sendCases[..len'], active, nsent, r) && Rounds(r, env, round, served) == end
      decreases r.n.active + |r.cases|
    {
      ghost var p := Pass(r, env, round, 1, 0);
      active, nsent := TrySends(sendCases, len', active, nsent, env, round, r);
      if active == 1 {
        RoundsEnd(r, env, round, served);
        return;
      }
      RoundsStep(r, env, round, served);
      ghost var step: Step;
      len', active, nsent, served, step := Wait(sendCases, len', active, nsent, env, round, served, p);
      r, round := Apply(p, step), round + 1;
    }
  }

  lemma RoundsEnd(r: SendState, env: Environment, round: nat, taken: nat)
    requires Open(r) && Pass(r, env, round, 1, 0).n.active == 1
    ensures Rounds(r, env, round, taken) == Some((Pass(r, env, round, 1, 0), taken))
  {
  }
}
