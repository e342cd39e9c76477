/** The event feed as an object. */
module Feed {
  import opened CaseList
  import opened FeedProtocol
  import opened SendLoop

  class Feed {
    var sendCases: array<Case>
    var numCases: nat
    var inbox: seq<Case>

    ghost predicate Valid()
      reads this, sendCases
    {
      && numCases <= sendCases.Length && WellFormed(sendCases[..numCases])
      && forall k :: 0 <= k < |inbox| ==> inbox[k].Sub?
    }

    constructor ()
      ensures Valid() && fresh(sendCases) && sendCases[..numCases] == [RemoveSub] && inbox == []
    {
      sendCases := new Case[1](i => RemoveSub);
      numCases, inbox := 1, [];
    }

    method Subscribe(channel: Channel)
      requires Valid()
      modifies this
      ensures Valid() && inbox == old(inbox) + [Sub(channel)] && sendCases == old(sendCases) && numCases == old(numCases)
    {
      inbox := inbox + [Sub(channel)];
    }

    /** Remove a listed channel: from the inbox if it is still there.  Otherwise, if a send is in
        progress, hand the removal over to it (it becomes one of the requests of its environment);
        if not, take the channel from the send list. */
    method Unsubscribe(channel: Channel, sending: bool) returns (handedOver: bool)
      requires Valid() && (Sub(channel) in inbox || Sub(channel) in sendCases[..numCases])
      modifies this, sendCases
      ensures Valid()
      ensures Sub(channel) in old(inbox) ==>
                && inbox == Delete(old(inbox), Find(old(inbox), Sub(channel)))
                && sendCases[..numCases] == old(sendCases[..numCases])
      ensures handedOver <==> sending && Sub(channel) !in old(inbox)
      ensures handedOver ==> inbox == old(inbox) && sendCases[..numCases] == old(sendCases[..numCases])
      ensures Sub(channel) !in old(inbox) && !sending ==>
                && inbox == old(inbox)
                && sendCases[..numCases] == Delete(old(sendCases[..numCases]), Find(old(sendCases[..numCases]), Sub(channel)))
    {
      var index := Find(inbox, Sub(channel));
      handedOver := index == -1 && sending;
      if index != -1 {
        inbox := Delete(inbox, index);
      } else if !sending {
        ghost var list := sendCases[..numCases];
        index := FindCase(sendCases, numCases, Sub(channel));
        DeleteWellFormed(list, index);
        DeleteCase(sendCases, numCases, index);
        numCases := numCases - 1;
      }
    }

    /** Send to everybody in the list and the inbox.  Whatever the channels do, the list left and the
        count are those of the loop, so by `SendSettles` everybody present is served exactly once
        except those removed while active. */
    method Send(env: Environment) returns (nsent: nat, served: nat)
      requires Valid() && Listed(multiset(sendCases[..numCases] + inbox), env, 0)
      modifies this, sendCases
      ensures Valid() && inbox == []
      ensures var end := Rounds(Begin(old(sendCases[..numCases] + inbox)), env, 0, 0);
              && end.Some? && Settled(end.value.0.cases, end.value.0.n)
              && sendCases[..numCases] == end.value.0.cases && nsent == end.value.0.n.nsent && served == end.value.1
              && end.value.0.n.delivered == Received(Begin(old(sendCases[..numCases] + inbox)), env, 0, 0)
      // the count is the number of values the channels took
      ensures nsent == Accepted(Begin(old(sendCases[..numCases] + inbox)), env, 0, 0)
    {
      var all := sendCases[..numCases] + inbox;
      SendSettles(all, env);
      sendCases, numCases, inbox := new Case[|all|](i requires 0 <= i < |all| => all[i]), |all|, [];
      assert sendCases[..numCases] == all;
      numCases, nsent, served := SendAll(sendCases, numCases, env);
    }
  }
}
