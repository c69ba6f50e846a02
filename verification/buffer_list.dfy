/** The circular doubly linked list of buffers, by index; the list head is one more node. */
module BufferList {
  /** The node at place i of the ring that starts with the head. */
  function Ring(head: nat, order: seq<nat>, i: nat): nat
    requires i <= |order| + 1
  {
    if 0 < i <= |order| then order[i - 1] else head
  }

  ghost predicate Distinct(head: nat, order: seq<nat>) {
    && (forall i :: 0 <= i < |order| ==> order[i] != head)
    && forall i, j :: 0 <= i < j < |order| ==> order[i] != order[j]
  }

  /** next and prev join places i and i + 1 of the ring. */
  predicate LinkAt(next: seq<nat>, prev: seq<nat>, head: nat, order: seq<nat>, i: nat) {
    && i <= |order| && |next| == |prev|
    && Ring(head, order, i) < |next| && Ring(head, order, i + 1) < |next|
    && next[Ring(head, order, i)] == Ring(head, order, i + 1)
    && prev[Ring(head, order, i + 1)] == Ring(head, order, i)
  }

  /** next and prev lead around the ring both ways. */
  ghost predicate Linked(next: seq<nat>, prev: seq<nat>, head: nat, order: seq<nat>) {
    |next| == |prev| && Distinct(head, order) && forall i: nat :: i <= |order| ==> LinkAt(next, prev, head, order, i)
  }

  /** b's neighbours linked past it. */
  function WithoutNext(next: seq<nat>, prev: seq<nat>, b: nat): seq<nat>
    requires b < |next| == |prev| && prev[b] < |next|
  {
    next[prev[b] := next[b]]
  }

  function WithoutPrev(next: seq<nat>, prev: seq<nat>, b: nat): seq<nat>
    requires b < |next| == |prev| && next[b] < |prev|
  {
    prev[next[b] := prev[b]]
  }

  /** b put right behind the head. */
  function FrontNext(next: seq<nat>, head: nat, b: nat): seq<nat>
    requires b < |next| && head < |next|
  {
    next[b := next[head]][head := b]
  }

  function FrontPrev(next: seq<nat>, prev: seq<nat>, head: nat, b: nat): seq<nat>
    requires b < |prev| && head < |next| && next[head] < |prev|
  {
    prev[b := head][next[head] := b]
  }

  function Without(order: seq<nat>, k: nat): seq<nat>
    requires k < |order|
  {
    order[..k] + order[k + 1..]
  }

  lemma RingsDiffer(head: nat, order: seq<nat>, i: nat, j: nat)
    requires Distinct(head, order) && i < j <= |order|
    ensures Ring(head, order, i) != Ring(head, order, j)
  {
  }

  lemma WithoutRing(head: nat, order: seq<nat>, k: nat, i: nat)
    requires k < |order| && i <= |order|
    ensures Ring(head, Without(order, k), i) == Ring(head, order, if i <= k then i else i + 1)
  {
  }

  /** Two places of the ring hold the same node only if they are the same up to a whole round. */
  lemma PlacesDiffer(head: nat, order: seq<nat>, i: nat, j: nat)
    requires Distinct(head, order) && i <= |order| + 1 && j <= |order| + 1
    ensures Ring(head, order, i) == Ring(head, order, j) ==>
            i == j || (i == 0 && j == |order| + 1) || (j == 0 && i == |order| + 1)
  {
  }

  lemma UnlinkedAt(next: seq<nat>, prev: seq<nat>, head: nat, order: seq<nat>, k: nat, i: nat)
    requires Linked(next, prev, head, order) && k < |order| && order[k] < |next| && i < |order|
    requires next[order[k]] == Ring(head, order, k + 2) && prev[order[k]] == Ring(head, order, k)
    requires Ring(head, order, k + 2) < |next| && Ring(head, order, k) < |next|
    ensures var r, next', prev' := Without(order, k), WithoutNext(next, prev, order[k]),
            WithoutPrev(next, prev, order[k]);
            LinkAt(next', prev', head, r, i)
  {
    WithoutRing(head, order, k, i);
    WithoutRing(head, order, k, i + 1);
    var x := if i <= k then i else i + 1;
    assert LinkAt(next, prev, head, order, x);
    if x < k {
      RingsDiffer(head, order, x, k);
    } else if x > k {
      RingsDiffer(head, order, k, x);
    }
    PlacesDiffer(head, order, x + 1, k + 2);
    assert Ring(head, order, 0) == head;
  }

  lemma UnlinkKeepsLinks(next: seq<nat>, prev: seq<nat>, head: nat, order: seq<nat>, k: nat)
    requires Linked(next, prev, head, order) && k < |order| && order[k] < |next|
    ensures next[order[k]] < |prev| && prev[order[k]] < |next|
    ensures Linked(WithoutNext(next, prev, order[k]), WithoutPrev(next, prev, order[k]), head, Without(order, k))
    ensures order[k] !in Without(order, k)
  {
    var b := order[k];
    assert Ring(head, order, k + 1) == b;
    assert LinkAt(next, prev, head, order, k) && LinkAt(next, prev, head, order, k + 1);
    var r := Without(order, k);
    var next', prev' := WithoutNext(next, prev, b), WithoutPrev(next, prev, b);
    forall i: nat | i <= |r| ensures LinkAt(next', prev', head, r, i) {
      UnlinkedAt(next, prev, head, order, k, i);
    }
  }

  lemma FrontRing(head: nat, order: seq<nat>, b: nat, i: nat)
    requires i <= |order| + 2
    ensures Ring(head, [b] + order, i) == if i == 0 then head else if i == 1 then b else Ring(head, order, i - 1)
  {
  }

  lemma FrontAt(next: seq<nat>, prev: seq<nat>, head: nat, order: seq<nat>, b: nat, i: nat)
    requires Linked(next, prev, head, order) && b < |next| && b != head && b !in order && i <= |order| + 1
    requires head < |next| && next[head] == Ring(head, order, 1) < |next|
    ensures var r, next', prev' := [b] + order, FrontNext(next, head, b), FrontPrev(next, prev, head, b);
            LinkAt(next', prev', head, r, i)
  {
    FrontRing(head, order, b, i);
    FrontRing(head, order, b, i + 1);
    if i >= 1 {
      assert LinkAt(next, prev, head, order, i - 1);
      PlacesDiffer(head, order, i, 1);
      assert i <= |order| ==> LinkAt(next, prev, head, order, i) && Ring(head, order, i) != b;
    }
  }

  lemma FrontKeepsLinks(next: seq<nat>, prev: seq<nat>, head: nat, order: seq<nat>, b: nat)
    requires Linked(next, prev, head, order) && b < |next| && b != head && b !in order
    ensures head < |next| && next[head] < |prev|
    ensures Linked(FrontNext(next, head, b), FrontPrev(next, prev, head, b), head, [b] + order)
  {
    assert LinkAt(next, prev, head, order, 0);
    var r, next', prev' := [b] + order, FrontNext(next, head, b), FrontPrev(next, prev, head, b);
    forall i: nat | i <= |r| ensures LinkAt(next', prev', head, r, i) {
      FrontAt(next, prev, head, order, b, i);
    }
  }
}
