/** The loop of `Feed.Send` is a run of the feed protocol. */
module SendRefines {
  import opened Options
  import opened CaseList
  import opened FeedProtocol
  import opened SendLoop

  /** Run events one after the other; `None` if one is not enabled or crashes. */
  function Exec(s: State, events: seq<Event>): (r: Option<State>)
    decreases |events|
  {
    if events == [] then Some(s)
    else if !Enabled(s, events[0]) then None
    else
      match Next(s, events[0])
      case None => None
      case Some(t) => Exec(t, events[1..])
  }

  lemma {:induction false} ExecAppend(s: State, first: seq<Event>, more: seq<Event>)
    requires Exec(s, first).Some?
    ensures Exec(s, first + more) == Exec(Exec(s, first).value, more)
    decreases |first|
  {
    if first == [] {
      assert first + more == more;
    } else {
      assert (first + more)[1..] == first[1..] + more;
      ExecAppend(Next(s, first[0]).value, first[1..], more);
    }
  }

  lemma ExecCons(s: State, e: Event, rest: seq<Event>)
    requires Enabled(s, e) && Next(s, e).Some?
    ensures Exec(s, [e] + rest) == Exec(Next(s, e).value, rest)
  {
    assert ([e] + rest)[1..] == rest;
  }

  // ----- the events of the loop

  /** The deliveries of a non-blocking pass. */
  function PassEvents(r: SendState, env: Environment, round: nat, i: nat, k: nat): (events: seq<Event>)
    requires Open(r) && 1 <= i <= r.n.active
    decreases r.n.active - i
  {
    if i == r.n.active then []
    else if env.answers(round, k) then [Deliver(i)] + PassEvents(Apply(r, Accept(i)), env, round, i, k + 1)
    else PassEvents(r, env, round, i + 1, k + 1)
  }

  /** All rounds: the deliveries of each pass, then the delivery or the removal that ends the wait. */
  function RoundEvents(r: SendState, env: Environment, ids: seq<SubId>, round: nat, taken: nat): (events: seq<Event>)
    requires Open(r) && |ids| == |env.requests|
    decreases r.n.active + |r.cases|
  {
    var p, tried := Pass(r, env, round, 1, 0), PassEvents(r, env, round, 1, 0);
    if p.n.active == 1 then tried
    else
      var chosen := Select(env, round, p.n.active, taken);
      if chosen > 0 then
        tried + ([Deliver(chosen)] + RoundEvents(Apply(p, Accept(chosen)), env, ids, round + 1, taken))
      else
        var removal := Interrupt(env.requests[taken]);
        if CanStep(p, removal) then
          tried + ([RemoveDuringSend(ids[taken])] + RoundEvents(Apply(p, removal), env, ids, round + 1, taken + 1))
        else tried
  }

  /** The protocol state with the send in progress at `r`. */
  function At(s: State, r: SendState): (t: State)
  {
    s.(cases := r.cases, sending := Some(r.n))
  }

  /** The non-blocking pass is a run of its deliveries. */
  lemma {:induction false} PassRuns(s: State, r: SendState, env: Environment, round: nat, i: nat, k: nat)
    requires Open(r) && 1 <= i <= r.n.active
    ensures Exec(At(s, r), PassEvents(r, env, round, i, k)) == Some(At(s, Pass(r, env, round, i, k)))
    decreases r.n.active - i
  {
    if i < r.n.active {
      if env.answers(round, k) {
        var next := Apply(r, Accept(i));
        PassRuns(s, next, env, round, i, k + 1);
        assert Next(At(s, r), Deliver(i)) == Some(At(s, next));
        ExecCons(At(s, r), Deliver(i), PassEvents(next, env, round, i, k + 1));
      } else {
        PassRuns(s, r, env, round, i + 1, k + 1);
      }
    }
  }

  lemma {:induction false} PassInv(s: State, r: SendState, env: Environment, round: nat, i: nat, k: nat)
    requires Open(r) && 1 <= i <= r.n.active && Inv(At(s, r))
    ensures Inv(At(s, Pass(r, env, round, i, k)))
    decreases r.n.active - i
  {
    if i < r.n.active {
      if env.answers(round, k) {
        StepKeeps(At(s, r), Deliver(i));
        PassInv(s, Apply(r, Accept(i)), env, round, i, k + 1);
      } else {
        PassInv(s, r, env, round, i + 1, k + 1);
      }
    }
  }

  /** From `taken` on, the requests are pending removals of different subscriptions. */
  ghost predicate Requested(s: State, requests: seq<Channel>, ids: seq<SubId>, taken: nat)
  {
    && |ids| == |requests| && taken <= |ids|
    && (forall k :: taken <= k < |ids| ==> ids[k] in s.pending && ids[k] in s.subs && s.subs[ids[k]] == requests[k])
    && (forall j, k :: taken <= j < k < |ids| ==> ids[j] != ids[k])
  }

  /** The state a loop ends in: the send is where the loop ended, and the subscriptions whose
      removals it served are gone. */
  ghost predicate EndsAt(s: State, ids: seq<SubId>, taken: nat, end: (SendState, nat), t: State)
  {
    && taken <= end.1 <= |ids|
    && t == State(s.subs - IdSet(ids, taken, end.1), s.pending - IdSet(ids, taken, end.1), s.inbox, end.0.cases, Some(end.0.n))
  }

  ghost function IdSet(ids: seq<SubId>, i: nat, j: nat): (r: set<SubId>)
    requires j <= |ids|
  {
    set k | i <= k < j :: ids[k]
  }

  /** Whatever the channels do and whatever pending removals come in, the loop on the array is the
      run of its deliveries and removals in the protocol; it does not crash, and its end can end the
      send. */
  lemma {:induction false} RoundsRefine(s: State, r: SendState, env: Environment, ids: seq<SubId>, round: nat, taken: nat)
    returns (t: State)
    requires Open(r) && Inv(At(s, r)) && Requested(s, env.requests, ids, taken)
    ensures Rounds(r, env, round, taken).Some? && EndsAt(s, ids, taken, Rounds(r, env, round, taken).value, t)
    ensures Exec(At(s, r), RoundEvents(r, env, ids, round, taken)) == Some(t) && Inv(t) && Enabled(t, SendEnd)
    decreases r.n.active + |r.cases|, 1
  {
    var p, tried := Pass(r, env, round, 1, 0), PassEvents(r, env, round, 1, 0);
    PassInv(s, r, env, round, 1, 0);
    PassRuns(s, r, env, round, 1, 0);
    if p.n.active == 1 {
      t := At(s, p);
      assert IdSet(ids, taken, taken) == {};
    } else {
      var chosen := Select(env, round, p.n.active, taken);
      if chosen > 0 {
        StepKeeps(At(s, p), Deliver(chosen));
        var next := Apply(p, Accept(chosen));
        var rest := RoundEvents(next, env, ids, round + 1, taken);
        t := RoundsRefine(s, next, env, ids, round + 1, taken);
        ExecCons(At(s, p), Deliver(chosen), rest);
        ExecAppend(At(s, r), tried, [Deliver(chosen)] + rest);
      } else {
        var e := RemoveDuringSend(ids[taken]);
        t := RemovalRefines(s, p, env, ids, round, taken);
        ExecAppend(At(s, r), tried, [e] + RoundEvents(Apply(p, Interrupt(env.requests[taken])), env, ids, round + 1, taken + 1));
      }
    }
  }

  lemma {:induction false} RemovalRefines(s: State, p: SendState, env: Environment, ids: seq<SubId>, round: nat, taken: nat)
    returns (t: State)
    requires Open(p) && p.n.active > 1 && Inv(At(s, p)) && taken < |env.requests| && Requested(s, env.requests, ids, taken)
    ensures var removal := Interrupt(env.requests[taken]);
            && CanStep(p, removal)
            && var next := Apply(p, removal);
               && Rounds(next, env, round + 1, taken + 1).Some?
               && EndsAt(s, ids, taken, Rounds(next, env, round + 1, taken + 1).value, t)
               && Exec(At(s, p), [RemoveDuringSend(ids[taken])] + RoundEvents(next, env, ids, round + 1, taken + 1)) == Some(t)
    ensures Inv(t) && Enabled(t, SendEnd)
    decreases p.n.active + |p.cases|, 0
  {
    var id := ids[taken];
    var e, here := RemoveDuringSend(id), At(s, p);
    RemovalFinds(here, id);
    StepKeeps(here, e);
    var next := Apply(p, Interrupt(env.requests[taken]));
    var less := s.(subs := s.subs - {id}, pending := s.pending - {id});
    assert Next(here, e) == Some(At(less, next));
    t := RoundsRefine(less, next, env, ids, round + 1, taken + 1);
    ExecCons(here, e, RoundEvents(next, env, ids, round + 1, taken + 1));
    EndsEarlier(s, ids, taken, Rounds(next, env, round + 1, taken + 1).value, t);
  }

  lemma EndsEarlier(s: State, ids: seq<SubId>, taken: nat, end: (SendState, nat), t: State)
    requires taken < |ids|
    requires EndsAt(s.(subs := s.subs - {ids[taken]}, pending := s.pending - {ids[taken]}), ids, taken + 1, end, t)
    ensures EndsAt(s, ids, taken, end, t)
  {
    assert IdSet(ids, taken, end.1) == {ids[taken]} + IdSet(ids, taken + 1, end.1);
  }

  /** A whole send, from an idle feed to an idle feed: exactly its start, the deliveries and removals
      of the array loop and its end, in the protocol, lead to the list the loop leaves. */
  lemma SendRefinesProtocol(s: State, env: Environment, ids: seq<SubId>) returns (t: State)
    requires Inv(s) && s.sending.None? && Requested(s, env.requests, ids, 0)
    ensures var end := Rounds(Begin(s.cases + s.inbox), env, 0, 0);
            && end.Some? && end.value.1 <= |ids| && Settled(end.value.0.cases, end.value.0.n)
            && t == State(s.subs - IdSet(ids, 0, end.value.1), s.pending - IdSet(ids, 0, end.value.1), [], end.value.0.cases, None)
    ensures Inv(t) && Exec(s, SendEvents(s, env, ids)) == Some(t)
  {
    StepKeeps(s, SendBegin);
    var begun := Next(s, SendBegin).value;
    var r := Begin(s.cases + s.inbox);
    assert begun == At(begun, r);
    var ending := RoundsRefine(begun, r, env, ids, 0, 0);
    assert Settled(ending.cases, ending.sending.value) by {
      EndOfSend(ending.cases, ending.sending.value);
    }
    StepKeeps(ending, SendEnd);
    t := Next(ending, SendEnd).value;
    SendRuns(s, begun, RoundEvents(r, env, ids, 0, 0), ending, t);
  }

  function SendEvents(s: State, env: Environment, ids: seq<SubId>): (events: seq<Event>)
    requires s.cases != [] && |ids| == |env.requests|
  {
    [SendBegin] + (RoundEvents(Begin(s.cases + s.inbox), env, ids, 0, 0) + [SendEnd])
  }

  lemma SendRuns(s: State, begun: State, events: seq<Event>, ending: State, t: State)
    requires Enabled(s, SendBegin) && Next(s, SendBegin) == Some(begun) && Exec(begun, events) == Some(ending)
    requires Enabled(ending, SendEnd) && Next(ending, SendEnd) == Some(t)
    ensures Exec(s, [SendBegin] + (events + [SendEnd])) == Some(t)
  {
    ExecCons(s, SendBegin, events + [SendEnd]);
    ExecAppend(begun, events, [SendEnd]);
    assert [SendEnd][1..] == [];
  }
}
