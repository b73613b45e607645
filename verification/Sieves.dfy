// Picking items out of a list without disturbing their order.
module Sieves {
  /** These are the items that pass, each once, in their order. */
  ghost predicate Sieved<T>(all: seq<T>, kept: seq<T>, pass: T -> bool, at: seq<nat>) {
    && |at| == |kept|
    && (forall k :: 0 <= k < |at| ==> at[k] < |all| && kept[k] == all[at[k]])
    && (forall k, m :: 0 <= k < m < |at| ==> at[k] < at[m])
    && (forall i: nat :: i < |all| && pass(all[i]) ==> i in at)
    && (forall i: nat :: i in at ==> i < |all| && pass(all[i]))
  }

  lemma SievedSnoc<T>(all: seq<T>, kept: seq<T>, pass: T -> bool, at: seq<nat>, x: T)
    requires Sieved(all, kept, pass, at)
    ensures Sieved(all + [x], kept + (if pass(x) then [x] else []), pass, at + if pass(x) then [|all|] else [])
  {
    var more := at + if pass(x) then [|all|] else [];
    assert forall i: nat :: i in more <==> i in at || (pass(x) && i == |all|);
  }

  lemma SamePass<T(!new)>(all: seq<T>, kept: seq<T>, a: T -> bool, b: T -> bool, at: seq<nat>)
    requires Sieved(all, kept, a, at) && forall x :: a(x) == b(x)
    ensures Sieved(all, kept, b, at)
  {
  }

  lemma SievedMembers<T>(all: seq<T>, kept: seq<T>, pass: T -> bool, at: seq<nat>)
    requires Sieved(all, kept, pass, at)
    ensures forall x :: x in kept <==> x in all && pass(x)
  {
    forall x
      ensures x in kept <==> x in all && pass(x)
    {
      if x in kept {
        var k :| 0 <= k < |kept| && kept[k] == x;
        assert at[k] in at;
      }
      if x in all && pass(x) {
        var i: nat :| i < |all| && all[i] == x;
        var k :| 0 <= k < |at| && at[k] == i;
        assert kept[k] == x;
      }
    }
  }
}
