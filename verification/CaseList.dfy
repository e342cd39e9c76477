/** The case lists of `event.Feed`: slices over one backing array, searched, shrunk and
    reordered in place. */
module CaseList {

  type Channel = nat

  /** Entry zero of a send list receives removal requests; the others are subscribers. */
  datatype Case = RemoveSub | Sub(channel: Channel)

  // ----- what the operations do to the list as a value

  /** The first index holding `c`, or -1. */
  function Find(cs: seq<Case>, c: Case): (i: int)
    ensures -1 <= i < |cs|
    ensures i >= 0 ==> cs[i] == c && c !in cs[..i]
    ensures i == -1 <==> c !in cs
  {
    if cs == [] then -1
    else if cs[0] == c then 0
    else
      var rest := Find(cs[1..], c);
      assert cs == [cs[0]] + cs[1..];
      if rest == -1 then -1 else
        assert cs[..rest + 1] == [cs[0]] + cs[1..][..rest];
        rest + 1
  }

  function Delete(cs: seq<Case>, i: nat): (r: seq<Case>)
    requires i < |cs|
    ensures |r| == |cs| - 1
  {
    cs[..i] + cs[i + 1..]
  }

  /** Swap entry `i` to the end of the active prefix of length `n`. */
  function Deactivate(cs: seq<Case>, n: nat, i: nat): (r: seq<Case>)
    requires i < n <= |cs|
    ensures |r| == |cs|
  {
    cs[i := cs[n - 1]][n - 1 := cs[i]]
  }

  lemma DeleteCounts(cs: seq<Case>, i: nat)
    requires i < |cs|
    ensures multiset(Delete(cs, i)) == multiset(cs) - multiset{cs[i]}
    ensures multiset(Delete(cs, i)) + multiset{cs[i]} == multiset(cs)
  {
    assert cs == cs[..i] + [cs[i]] + cs[i + 1..];
  }

  /** Deleting from the whole list deletes from the active prefix, if the entry was active, and
      leaves it alone otherwise. */
  lemma DeletePrefix(cs: seq<Case>, n: nat, i: nat)
    requires i < |cs| && n <= |cs|
    ensures i < n ==> Delete(cs, i)[..n - 1] == Delete(cs[..n], i)
    ensures i >= n ==> Delete(cs, i)[..n] == cs[..n]
  {
  }

  lemma DeactivateCounts(cs: seq<Case>, n: nat, i: nat)
    requires i < n <= |cs|
    ensures multiset(Deactivate(cs, n, i)) == multiset(cs)
    ensures multiset(Deactivate(cs, n, i)[..n - 1]) + multiset{cs[i]} == multiset(cs[..n])
  {
    var r := Deactivate(cs, n, i);
    assert r[..n] == cs[..n][i := cs[n - 1]][n - 1 := cs[i]];
    assert r[..n] == r[..n - 1] + [cs[i]];
    assert multiset(r[..n]) == multiset(cs[..n]);
    assert cs == cs[..n] + cs[n..] && r == r[..n] + cs[n..];
  }

  // ----- the same in place

  method FindCase(a: array<Case>, len: nat, c: Case) returns (index: int)
    requires len <= a.Length
    ensures index == Find(a[..len], c)
  {
    index := 0;
    while index < len
      invariant 0 <= index <= len && c !in a[..index]
    {
      if a[index] == c {
        assert a[..len][..index] == a[..index];
        return;
      }
      index := index + 1;
    }
    return -1;
  }

  /** Shift the entries after `index` down by one. */
  method DeleteCase(a: array<Case>, len: nat, index: nat)
    requires index < len <= a.Length
    modifies a
    ensures a[..len - 1] == Delete(old(a[..len]), index)
  {
    var i := index;
    while i < len - 1
      invariant index <= i <= len - 1
      invariant forall k :: 0 <= k < index || i <= k < a.Length ==> a[k] == old(a[k])
      invariant forall k :: index <= k < i ==> a[k] == old(a[k + 1])
    {
      a[i] := a[i + 1];
      i := i + 1;
    }
  }

  method DeactivateCase(a: array<Case>, len: nat, n: nat, index: nat)
    requires index < n <= len <= a.Length
    modifies a
    ensures a[..len] == Deactivate(old(a[..len]), n, index)
  {
    a[index], a[n - 1] := a[n - 1], a[index];
  }
}
