/** umalloc.c: the circular, address-ordered, coalescing free list of Kernighan and Ritchie, over
    addresses counted in header units. The static header `base` is address 0, below the heap. */
module Heap {
  import opened Options

  const MINUNITS := 4096
  const HEADER := 8

  /** Memory as the allocator sees it, with what its caller holds: `list` is the free list in address
      order from base, `live` the headers handed out, `owned` the units obtained from sbrk. */
  datatype Arena = Arena(ptr: map<nat, nat>, size: map<nat, nat>, list: seq<nat>, live: set<nat>, owned: set<nat>)

  /** Index i's successor on the circle. */
  function Next(a: Arena, i: nat): nat {
    if i + 1 < |a.list| then i + 1 else 0
  }

  /** Following ptr from base goes through the list and back. */
  ghost predicate Circular(a: Arena) {
    && |a.list| > 0 && a.list[0] == 0
    && forall i {:trigger a.ptr[a.list[i]]} {:trigger a.list[i] in a.ptr} :: 0 <= i < |a.list| ==>
         a.list[i] in a.ptr && a.ptr[a.list[i]] == a.list[Next(a, i)]
  }

  /** Free blocks are in address order and do not overlap; only base is empty. */
  ghost predicate Ordered(a: Arena) {
    && |a.list| > 0
    && (forall i :: 0 <= i < |a.list| ==> a.list[i] in a.size && (a.size[a.list[i]] == 0 <==> i == 0))
    && forall i, j :: 0 <= i < j < |a.list| ==> a.list[i] < a.list[j] && a.list[i] + a.size[a.list[i]] <= a.list[j]
  }

  /** The free block at index j ends where the next one begins; base never does. */
  predicate Touching(a: Arena, j: nat) {
    && 0 < j && j + 1 < |a.list|
    && a.list[j] in a.size && a.list[j + 1] in a.size && a.list[j + 1] in a.ptr
    && a.list[j] + a.size[a.list[j]] == a.list[j + 1]
  }

  /** No free block but those at the indices in `except` touches the next. */
  ghost predicate Coalesced(a: Arena, except: set<nat>) {
    forall i: nat :: i !in except ==> !Touching(a, i)
  }

  /** Block b overlaps no free block. */
  ghost predicate OffList(a: Arena, b: nat)
    requires Ordered(a) && b in a.size
  {
    forall i :: 0 <= i < |a.list| ==>
      b != a.list[i] && (a.list[i] + a.size[a.list[i]] <= b || b + a.size[b] <= a.list[i])
  }

  /** Blocks handed out overlap neither each other nor a free block. */
  ghost predicate Apart(a: Arena)
    requires Ordered(a)
  {
    && (forall b :: b in a.live ==> b > 0 && b in a.size && a.size[b] > 0 && OffList(a, b))
    && (forall b, c :: b in a.live && c in a.live && b < c ==> b + a.size[b] <= c)
  }

  ghost predicate InFree(a: Arena, u: nat) {
    exists b :: b in a.list && b in a.size && b <= u < b + a.size[b]
  }

  ghost predicate InLive(a: Arena, u: nat) {
    exists b :: b in a.live && b in a.size && b <= u < b + a.size[b]
  }

  /** Every unit obtained from sbrk is in a block, and blocks have no others. */
  ghost predicate Tiled(a: Arena) {
    forall u: nat :: u in a.owned <==> InFree(a, u) || InLive(a, u)
  }

  ghost predicate Sound(a: Arena) {
    Circular(a) && Ordered(a) && Apart(a) && Tiled(a)
  }

  // ----- giving a block back -----

  /** bp becomes the free block after index t. */
  function Inserted(a: Arena, t: nat, bp: nat): Arena
    requires t < |a.list|
  {
    var p, q := a.list[t], a.list[if t + 1 < |a.list| then t + 1 else 0];
    a.(ptr := a.ptr[bp := q][p := bp], list := a.list[..t + 1] + [bp] + a.list[t + 1..], live := a.live - {bp})
  }

  /** The free block after index j leaves the list. */
  function Unlinked(a: Arena, j: nat): Arena
    requires j + 1 < |a.list| && a.list[j + 1] in a.ptr
  {
    a.(ptr := a.ptr[a.list[j] := a.ptr[a.list[j + 1]]], list := a.list[..j + 1] + a.list[j + 2..])
  }

  /** The free block after index j joins the one at j. */
  function Joined(a: Arena, j: nat): Arena
    requires Touching(a, j)
  {
    Unlinked(a, j).(size := a.size[a.list[j] := a.size[a.list[j]] + a.size[a.list[j + 1]]])
  }

  /** t is where bp belongs: the last free block below it. */
  ghost predicate Below(a: Arena, t: nat, bp: nat) {
    t < |a.list| && a.list[t] < bp && (t + 1 < |a.list| ==> bp < a.list[t + 1])
  }

  lemma InsertedAt(a: Arena, t: nat, bp: nat, i: nat)
    requires t < |a.list| && i <= |a.list|
    ensures Inserted(a, t, bp).list[i] == if i <= t then a.list[i] else if i == t + 1 then bp else a.list[i - 1]
  {
  }

  lemma InsertedNext(a: Arena, t: nat, bp: nat, i: nat)
    requires t < |a.list| && i <= |a.list|
    ensures var r := Inserted(a, t, bp);
            r.list[Next(r, i)] == if i == t then bp else a.list[Next(a, if i < t then i else i - 1)]
  {
    InsertedAt(a, t, bp, if i < |a.list| then i + 1 else 0);
  }

  lemma InsertedLinks(a: Arena, t: nat, bp: nat, k: nat)
    requires Circular(a) && Ordered(a) && Below(a, t, bp) && k < |a.list|
    ensures var p := Inserted(a, t, bp).ptr;
            a.list[k] in p && bp in p && p[a.list[k]] == (if k == t then bp else a.list[Next(a, k)])
              && p[bp] == a.list[Next(a, t)]
  {
    assert a.list[k] in a.ptr && a.ptr[a.list[k]] == a.list[Next(a, k)];
    assert a.list[k] != bp && (k != t ==> a.list[k] != a.list[t]);
  }

  lemma InsertedPtr(a: Arena, t: nat, bp: nat, i: nat)
    requires Circular(a) && Ordered(a) && Below(a, t, bp) && i <= |a.list|
    ensures var r := Inserted(a, t, bp); r.list[i] in r.ptr && r.ptr[r.list[i]] == r.list[Next(r, i)]
  {
    InsertedAt(a, t, bp, i);
    InsertedNext(a, t, bp, i);
    InsertedLinks(a, t, bp, if i <= t then i else i - 1);
  }

  lemma InsertKeepsCircular(a: Arena, t: nat, bp: nat)
    requires Circular(a) && Ordered(a) && Below(a, t, bp)
    ensures Circular(Inserted(a, t, bp))
  {
    InsertedAt(a, t, bp, 0);
    forall i | 0 <= i < |a.list| + 1
      ensures var r := Inserted(a, t, bp); r.list[i] in r.ptr && r.ptr[r.list[i]] == r.list[Next(r, i)]
    {
      InsertedPtr(a, t, bp, i);
    }
  }

  lemma InsertKeepsOrdered(a: Arena, t: nat, bp: nat)
    requires Sound(a) && bp in a.live && Below(a, t, bp)
    ensures Ordered(Inserted(a, t, bp))
  {
    var r := Inserted(a, t, bp);
    forall i | 0 <= i < |r.list| ensures r.list[i] in r.size && (r.size[r.list[i]] == 0 <==> i == 0) {
      InsertedAt(a, t, bp, i);
    }
    forall i, j | 0 <= i < j < |r.list| ensures r.list[i] < r.list[j] && r.list[i] + r.size[r.list[i]] <= r.list[j] {
      InsertedAt(a, t, bp, i);
      InsertedAt(a, t, bp, j);
    }
  }

  lemma InsertKeepsApart(a: Arena, t: nat, bp: nat)
    requires Sound(a) && bp in a.live && Below(a, t, bp)
    ensures Ordered(Inserted(a, t, bp)) && Apart(Inserted(a, t, bp))
  {
    InsertKeepsOrdered(a, t, bp);
    var r := Inserted(a, t, bp);
    forall b | b in r.live ensures OffList(r, b) {
      assert OffList(a, b);
      forall i | 0 <= i < |r.list|
        ensures b != r.list[i] && (r.list[i] + r.size[r.list[i]] <= b || b + r.size[b] <= r.list[i])
      {
        InsertedAt(a, t, bp, i);
      }
    }
  }

  lemma InsertKeepsTiled(a: Arena, t: nat, bp: nat)
    requires Sound(a) && bp in a.live && t < |a.list|
    ensures Tiled(Inserted(a, t, bp))
  {
    var r := Inserted(a, t, bp);
    forall x ensures x in r.list <==> x in a.list || x == bp {
      assert a.list == a.list[..t + 1] + a.list[t + 1..];
    }
    assert forall x :: x in a.live <==> x in r.live || x == bp;
  }

  lemma InsertKeepsSound(a: Arena, t: nat, bp: nat)
    requires Sound(a) && bp in a.live && Below(a, t, bp)
    ensures Sound(Inserted(a, t, bp))
  {
    InsertKeepsCircular(a, t, bp);
    InsertKeepsApart(a, t, bp);
    InsertKeepsTiled(a, t, bp);
  }

  lemma UnlinkedAt(a: Arena, j: nat, i: nat)
    requires j + 1 < |a.list| && a.list[j + 1] in a.ptr && i < |a.list| - 1
    ensures Unlinked(a, j).list[i] == if i <= j then a.list[i] else a.list[i + 1]
  {
  }

  lemma UnlinkedNext(a: Arena, j: nat, i: nat)
    requires j + 1 < |a.list| && a.list[j + 1] in a.ptr && i < |a.list| - 1
    ensures Unlinked(a, j).list[Next(Unlinked(a, j), i)] == a.list[Next(a, if i < j then i else i + 1)]
  {
    UnlinkedAt(a, j, if i + 1 < |a.list| - 1 then i + 1 else 0);
  }

  lemma UnlinkedLinks(a: Arena, j: nat, k: nat)
    requires Circular(a) && Ordered(a) && j + 1 < |a.list| && k < |a.list|
    ensures a.list[j + 1] in a.ptr
    ensures var p := Unlinked(a, j).ptr;
            a.list[k] in p && p[a.list[k]] == a.list[Next(a, if k == j then j + 1 else k)]
  {
    assert a.list[k] in a.ptr && a.ptr[a.list[k]] == a.list[Next(a, k)];
    assert a.list[j + 1] in a.ptr && a.ptr[a.list[j + 1]] == a.list[Next(a, j + 1)];
    assert k != j ==> a.list[k] != a.list[j];
  }

  lemma UnlinkKeepsCircular(a: Arena, j: nat)
    requires Circular(a) && Ordered(a) && j + 1 < |a.list|
    ensures a.list[j + 1] in a.ptr && Circular(Unlinked(a, j))
  {
    UnlinkedLinks(a, j, j);
    UnlinkedAt(a, j, 0);
    forall i | 0 <= i < |a.list| - 1
      ensures var r := Unlinked(a, j); r.list[i] in r.ptr && r.ptr[r.list[i]] == r.list[Next(r, i)]
    {
      UnlinkedAt(a, j, i);
      UnlinkedNext(a, j, i);
      UnlinkedLinks(a, j, if i <= j then i else i + 1);
    }
  }

  lemma JoinKeepsOrdered(a: Arena, j: nat)
    requires Ordered(a) && Touching(a, j) && a.list[j + 1] in a.ptr
    ensures Ordered(Joined(a, j))
  {
    var r := Joined(a, j);
    forall i | 0 <= i < |r.list| ensures r.list[i] in r.size && (r.size[r.list[i]] == 0 <==> i == 0) {
      UnlinkedAt(a, j, i);
    }
    forall i, k | 0 <= i < k < |r.list| ensures r.list[i] < r.list[k] && r.list[i] + r.size[r.list[i]] <= r.list[k] {
      UnlinkedAt(a, j, i);
      UnlinkedAt(a, j, k);
      var old_k := if k <= j then k else k + 1;
      assert i == j ==> a.list[j + 1] + a.size[a.list[j + 1]] <= a.list[old_k];
    }
  }

  lemma JoinKeepsApart(a: Arena, j: nat)
    requires Sound(a) && Touching(a, j)
    ensures Ordered(Joined(a, j)) && Apart(Joined(a, j))
  {
    JoinKeepsOrdered(a, j);
    var r := Joined(a, j);
    forall b | b in r.live ensures r.size[b] == a.size[b] && OffList(r, b) {
      assert OffList(a, b) && b != a.list[j];
      forall i | 0 <= i < |r.list|
        ensures b != r.list[i] && (r.list[i] + r.size[r.list[i]] <= b || b + r.size[b] <= r.list[i])
      {
        UnlinkedAt(a, j, i);
      }
    }
  }

  lemma JoinedMembers(a: Arena, j: nat, x: nat)
    requires Ordered(a) && Touching(a, j)
    ensures x in Joined(a, j).list <==> x in a.list && x != a.list[j + 1]
  {
    var r := Joined(a, j);
    assert a.list == a.list[..j + 1] + [a.list[j + 1]] + a.list[j + 2..];
    forall i | 0 <= i < |r.list| ensures r.list[i] != a.list[j + 1] {
      UnlinkedAt(a, j, i);
    }
  }

  lemma JoinKeepsFree(a: Arena, j: nat, u: nat)
    requires Ordered(a) && Touching(a, j) && InFree(a, u)
    ensures InFree(Joined(a, j), u)
  {
    var b :| b in a.list && b in a.size && b <= u < b + a.size[b];
    var x := if b == a.list[j + 1] then a.list[j] else b;
    JoinedMembers(a, j, x);
    var r := Joined(a, j);
    assert x in r.list && x in r.size && x <= u < x + r.size[x];
  }

  lemma JoinAddsNothing(a: Arena, j: nat, u: nat)
    requires Ordered(a) && Touching(a, j) && InFree(Joined(a, j), u)
    ensures InFree(a, u)
  {
    var r := Joined(a, j);
    var b :| b in r.list && b in r.size && b <= u < b + r.size[b];
    JoinedMembers(a, j, b);
    var x := if b == a.list[j] && u >= a.list[j + 1] then a.list[j + 1] else b;
    assert x in a.list && x in a.size && x <= u < x + a.size[x];
  }

  lemma JoinKeepsTiled(a: Arena, j: nat)
    requires Sound(a) && Touching(a, j)
    ensures Tiled(Joined(a, j))
  {
    forall u: nat ensures InFree(Joined(a, j), u) <==> InFree(a, u) {
      if InFree(a, u) {
        JoinKeepsFree(a, j, u);
      } else if InFree(Joined(a, j), u) {
        JoinAddsNothing(a, j, u);
      }
    }
    assert forall b :: b in a.live ==> b != a.list[j];
  }

  lemma JoinKeepsSound(a: Arena, j: nat)
    requires Sound(a) && Touching(a, j)
    ensures Sound(Joined(a, j))
  {
    UnlinkKeepsCircular(a, j);
    JoinKeepsApart(a, j);
    JoinKeepsTiled(a, j);
  }

  // ----- handing a block out -----

  /** malloc's exact fit: the free block after index j is handed out whole. */
  function TakenWhole(a: Arena, j: nat): Arena
    requires j + 1 < |a.list| && a.list[j + 1] in a.ptr
  {
    Unlinked(a, j).(live := a.live + {a.list[j + 1]})
  }

  /** The sizes after the last n units of block p get a header of their own. */
  function CutSize(size: map<nat, nat>, p: nat, n: nat): map<nat, nat>
    requires p in size && n < size[p]
  {
    size[p := size[p] - n][p + (size[p] - n) := n]
  }

  /** Where the tail of n units of the free block at index k begins. */
  function TailStart(a: Arena, k: nat, n: nat): nat
    requires k < |a.list| && a.list[k] in a.size && n < a.size[a.list[k]]
  {
    a.list[k] + (a.size[a.list[k]] - n)
  }

  /** malloc's larger fit: the last n units of the free block at index k are handed out. */
  function TakenTail(a: Arena, k: nat, n: nat): Arena
    requires k < |a.list| && a.list[k] in a.size && n < a.size[a.list[k]]
  {
    a.(size := CutSize(a.size, a.list[k], n), live := a.live + {TailStart(a, k, n)})
  }

  lemma UnlinkKeepsOrdered(a: Arena, j: nat)
    requires Ordered(a) && j + 1 < |a.list| && a.list[j + 1] in a.ptr
    ensures Ordered(Unlinked(a, j))
  {
    var r := Unlinked(a, j);
    forall i | 0 <= i < |r.list| ensures r.list[i] in r.size && (r.size[r.list[i]] == 0 <==> i == 0) {
      UnlinkedAt(a, j, i);
    }
    forall i, k | 0 <= i < k < |r.list| ensures r.list[i] < r.list[k] && r.list[i] + r.size[r.list[i]] <= r.list[k] {
      UnlinkedAt(a, j, i);
      UnlinkedAt(a, j, k);
    }
  }

  lemma UnlinkedOffList(a: Arena, j: nat, b: nat)
    requires Ordered(a) && j + 1 < |a.list| && a.list[j + 1] in a.ptr && b in a.size
    requires OffList(a, b) || b == a.list[j + 1]
    ensures Ordered(Unlinked(a, j)) && OffList(Unlinked(a, j), b)
  {
    UnlinkKeepsOrdered(a, j);
    var r := Unlinked(a, j);
    forall i | 0 <= i < |r.list|
      ensures b != r.list[i] && (r.list[i] + r.size[r.list[i]] <= b || b + r.size[b] <= r.list[i])
    {
      UnlinkedAt(a, j, i);
    }
  }

  lemma TakeWholeKeepsApart(a: Arena, j: nat)
    requires Sound(a) && j + 1 < |a.list| && a.list[j + 1] in a.ptr
    ensures Ordered(TakenWhole(a, j)) && Apart(TakenWhole(a, j))
  {
    UnlinkKeepsOrdered(a, j);
    var r, p := TakenWhole(a, j), a.list[j + 1];
    forall b | b in r.live ensures b > 0 && b in r.size && r.size[b] > 0 && OffList(r, b) {
      UnlinkedOffList(a, j, b);
    }
    forall b | b in a.live ensures b + a.size[b] <= p || p + a.size[p] <= b {
      assert OffList(a, b);
    }
  }

  /** r is l without the element after index j. */
  ghost predicate ListWithout(l: seq<nat>, j: nat, r: seq<nat>) {
    && j + 1 < |l| && |r| == |l| - 1
    && forall i {:trigger r[i]} :: 0 <= i < |r| ==> r[i] == if i <= j then l[i] else l[i + 1]
  }

  ghost predicate AllLinked(a: Arena) {
    forall k :: 0 <= k < |a.list| ==> a.list[k] in a.ptr
  }

  lemma UnlinkedTouching(a: Arena, j: nat, r: Arena, i: nat)
    requires ListWithout(a.list, j, r.list) && r.size == a.size && Ordered(a) && Touching(r, i)
    requires AllLinked(a)
    ensures Touching(a, if i < j then i else i + 1)
  {
    assert r.list[i] == a.list[if i <= j then i else i + 1];
    assert r.list[i + 1] == a.list[if i < j then i + 1 else i + 2];
  }

  lemma TakeWholeKeepsTiled(a: Arena, j: nat)
    requires Sound(a) && j + 1 < |a.list| && a.list[j + 1] in a.ptr
    ensures Tiled(TakenWhole(a, j))
  {
    var r := TakenWhole(a, j);
    var p := a.list[j + 1];
    assert a.list == a.list[..j + 1] + [p] + a.list[j + 2..];
    assert forall x :: x in a.list <==> x in r.list || x == p;
    assert forall x :: x in r.live <==> x in a.live || x == p;
  }

  lemma UnlinkedList(l: seq<nat>, j: nat)
    requires j + 1 < |l|
    ensures ListWithout(l, j, l[..j + 1] + l[j + 2..])
  {
  }

  lemma Linked(a: Arena)
    requires Circular(a)
    ensures AllLinked(a)
  {
  }

  lemma TakeWholeKeepsInvariant(a: Arena, j: nat)
    requires Sound(a) && Coalesced(a, {}) && j + 1 < |a.list|
    ensures a.list[j + 1] in a.ptr && Sound(TakenWhole(a, j)) && Coalesced(TakenWhole(a, j), {})
    ensures a.list[j + 1] !in a.live
  {
    UnlinkKeepsCircular(a, j);
    TakeWholeKeepsApart(a, j);
    TakeWholeKeepsTiled(a, j);
    var r := TakenWhole(a, j);
    Linked(a);
    UnlinkedList(a.list, j);
    forall i: nat ensures !Touching(r, i) {
      if Touching(r, i) {
        UnlinkedTouching(a, j, r, i);
      }
    }
  }

  lemma TailIsNew(a: Arena, k: nat, n: nat)
    requires Sound(a) && 0 < k < |a.list| && a.list[k] in a.size && 0 < n < a.size[a.list[k]]
    ensures var x := a.list[k] + a.size[a.list[k]] - n; x !in a.live && x !in a.list
  {
    var x := a.list[k] + a.size[a.list[k]] - n;
    forall i | 0 <= i < |a.list| ensures a.list[i] != x {
      assert i < k ==> a.list[i] < a.list[k];
      assert k < i ==> a.list[k] + a.size[a.list[k]] <= a.list[i];
    }
    forall b | b in a.live ensures b != x {
      assert OffList(a, b);
    }
  }

  lemma TakeTailKeepsOrdered(a: Arena, k: nat, n: nat)
    requires Sound(a) && 0 < k < |a.list| && a.list[k] in a.size && 0 < n < a.size[a.list[k]]
    ensures Ordered(TakenTail(a, k, n))
  {
    TailIsNew(a, k, n);
  }

  lemma TailOffList(a: Arena, k: nat, n: nat)
    requires Sound(a) && 0 < k < |a.list| && a.list[k] in a.size && 0 < n < a.size[a.list[k]]
    ensures var r := TakenTail(a, k, n); Ordered(r) && OffList(r, TailStart(a, k, n))
    ensures TailStart(a, k, n) > 0 && TailStart(a, k, n) in TakenTail(a, k, n).size
    ensures TakenTail(a, k, n).size[TailStart(a, k, n)] == n
  {
    TakeTailKeepsOrdered(a, k, n);
    TailIsNew(a, k, n);
    var r, p, x := TakenTail(a, k, n), a.list[k], TailStart(a, k, n);
    forall i | 0 <= i < |r.list| ensures x != r.list[i] && (r.list[i] + r.size[r.list[i]] <= x || x + n <= r.list[i]) {
      assert i < k ==> a.list[i] + a.size[a.list[i]] <= p;
      assert k < i ==> p + a.size[p] <= a.list[i];
    }
  }

  lemma CutOffList(a: Arena, k: nat, n: nat, b: nat)
    requires Sound(a) && 0 < k < |a.list| && a.list[k] in a.size && 0 < n < a.size[a.list[k]] && b in a.live
    ensures var r := TakenTail(a, k, n); Ordered(r) && b in r.size && r.size[b] == a.size[b] && OffList(r, b)
    ensures b + a.size[b] <= a.list[k] || a.list[k] + a.size[a.list[k]] <= b
  {
    TakeTailKeepsOrdered(a, k, n);
    TailIsNew(a, k, n);
    assert OffList(a, b) && b != a.list[k];
  }

  lemma TakeTailKeepsApart(a: Arena, k: nat, n: nat)
    requires Sound(a) && 0 < k < |a.list| && a.list[k] in a.size && 0 < n < a.size[a.list[k]]
    ensures Ordered(TakenTail(a, k, n)) && Apart(TakenTail(a, k, n))
  {
    TailOffList(a, k, n);
    forall b | b in a.live
      ensures var r := TakenTail(a, k, n); b in r.size && r.size[b] == a.size[b] && OffList(r, b)
      ensures b + a.size[b] <= a.list[k] || a.list[k] + a.size[a.list[k]] <= b
    {
      CutOffList(a, k, n, b);
    }
  }

  lemma TakeTailCovers(a: Arena, k: nat, n: nat, u: nat)
    requires Sound(a) && 0 < k < |a.list| && a.list[k] in a.size && 0 < n < a.size[a.list[k]]
    requires InFree(a, u) || InLive(a, u)
    ensures InFree(TakenTail(a, k, n), u) || InLive(TakenTail(a, k, n), u)
  {
    TailIsNew(a, k, n);
    var r, p, x := TakenTail(a, k, n), a.list[k], a.list[k] + a.size[a.list[k]] - n;
    if InFree(a, u) {
      var b :| b in a.list && b in a.size && b <= u < b + a.size[b];
      assert if b == p && u >= x then x in r.live && u < x + r.size[x]
             else b in r.list && b in r.size && u < b + r.size[b];
    } else {
      var b :| b in a.live && b in a.size && b <= u < b + a.size[b];
      assert OffList(a, b);
      assert b in r.live && r.size[b] == a.size[b];
    }
  }

  lemma TakeTailAddsNothing(a: Arena, k: nat, n: nat, u: nat)
    requires Sound(a) && 0 < k < |a.list| && a.list[k] in a.size && 0 < n < a.size[a.list[k]]
    requires InFree(TakenTail(a, k, n), u) || InLive(TakenTail(a, k, n), u)
    ensures InFree(a, u) || InLive(a, u)
  {
    TailIsNew(a, k, n);
    var r, p, x := TakenTail(a, k, n), a.list[k], a.list[k] + a.size[a.list[k]] - n;
    if InFree(r, u) {
      var b :| b in r.list && b in r.size && b <= u < b + r.size[b];
      assert b in a.list && u < b + a.size[b];
    } else {
      var b :| b in r.live && b in r.size && b <= u < b + r.size[b];
      if b == x {
        assert p in a.list && u < p + a.size[p];
      } else {
        assert OffList(a, b);
        assert b in a.live && u < b + a.size[b];
      }
    }
  }

  lemma TakeTailKeepsTiled(a: Arena, k: nat, n: nat)
    requires Sound(a) && 0 < k < |a.list| && a.list[k] in a.size && 0 < n < a.size[a.list[k]]
    ensures Tiled(TakenTail(a, k, n))
  {
    var r := TakenTail(a, k, n);
    forall u: nat ensures InFree(r, u) || InLive(r, u) <==> InFree(a, u) || InLive(a, u) {
      if InFree(a, u) || InLive(a, u) {
        TakeTailCovers(a, k, n, u);
      } else if InFree(r, u) || InLive(r, u) {
        TakeTailAddsNothing(a, k, n, u);
      }
    }
  }

  lemma TakeTailKeepsInvariant(a: Arena, k: nat, n: nat)
    requires Sound(a) && Coalesced(a, {}) && 0 < k < |a.list| && a.list[k] in a.size && 0 < n < a.size[a.list[k]]
    ensures Sound(TakenTail(a, k, n)) && Coalesced(TakenTail(a, k, n), {})
    ensures a.list[k] + a.size[a.list[k]] - n !in a.live
  {
    TakeTailKeepsApart(a, k, n);
    TakeTailKeepsTiled(a, k, n);
    forall i: nat ensures !Touching(TakenTail(a, k, n), i) {
      assert !Touching(a, i);
    }
  }

  // ----- coalescing -----

  /** r is l with x put after index t. */
  ghost predicate ListWith(l: seq<nat>, t: nat, x: nat, r: seq<nat>) {
    && t < |l| && |r| == |l| + 1
    && forall i {:trigger r[i]} :: 0 <= i < |r| ==> r[i] == if i <= t then l[i] else if i == t + 1 then x else l[i - 1]
  }

  lemma InsertedTouching(a: Arena, t: nat, bp: nat, r: Arena, i: nat)
    requires ListWith(a.list, t, bp, r.list) && r.size == a.size && i !in {t, t + 1} && Touching(r, i)
    requires AllLinked(a)
    ensures i >= 1 && Touching(a, if i < t then i else i - 1)
  {
    assert r.list[i] == a.list[if i < t then i else i - 1];
    assert r.list[i + 1] == a.list[if i < t then i + 1 else i];
  }

  lemma CoalescedWith(a: Arena, t: nat, bp: nat, r: Arena)
    requires ListWith(a.list, t, bp, r.list) && r.size == a.size && Coalesced(a, {})
    requires AllLinked(a)
    ensures Coalesced(r, {t, t + 1})
  {
    forall i: nat | i !in {t, t + 1} ensures !Touching(r, i) {
      if Touching(r, i) {
        InsertedTouching(a, t, bp, r, i);
      }
    }
  }

  lemma InsertedList(l: seq<nat>, t: nat, x: nat)
    requires t < |l|
    ensures ListWith(l, t, x, l[..t + 1] + [x] + l[t + 1..])
  {
  }

  lemma InsertCoalesces(a: Arena, t: nat, bp: nat)
    requires Circular(a) && Ordered(a) && Below(a, t, bp) && Coalesced(a, {})
    ensures Coalesced(Inserted(a, t, bp), {t, t + 1})
  {
    Linked(a);
    InsertedList(a.list, t, bp);
    CoalescedWith(a, t, bp, Inserted(a, t, bp));
  }

  lemma JoinedList(a: Arena, j: nat)
    requires Touching(a, j)
    ensures ListWithout(a.list, j, Joined(a, j).list)
  {
    UnlinkedList(a.list, j);
  }

  ghost predicate Once(l: seq<nat>, j: nat) {
    j < |l| && forall k :: 0 <= k < |l| && k != j ==> l[k] != l[j]
  }

  lemma ListedOnce(a: Arena, j: nat)
    requires Ordered(a) && j < |a.list|
    ensures Once(a.list, j)
  {
    forall k | 0 <= k < |a.list| && k != j ensures a.list[k] != a.list[j] {
      assert if k < j then a.list[k] < a.list[j] else a.list[j] < a.list[k];
    }
  }

  lemma JoinedTouching(a: Arena, j: nat, r: Arena, i: nat)
    requires ListWithout(a.list, j, r.list) && Touching(a, j) && Touching(r, i)
    requires r.size == a.size[a.list[j] := a.size[a.list[j]] + a.size[a.list[j + 1]]]
    requires AllLinked(a) && Once(a.list, j)
    ensures Touching(a, if i < j then i else i + 1)
  {
    assert r.list[i] == a.list[if i <= j then i else i + 1];
    assert r.list[i + 1] == a.list[if i < j then i + 1 else i + 2];
  }

  lemma CoalescedJoined(a: Arena, j: nat, r: Arena, except: set<nat>)
    requires ListWithout(a.list, j, r.list) && Touching(a, j) && Coalesced(a, except) && except <= {j - 1, j}
    requires r.size == a.size[a.list[j] := a.size[a.list[j]] + a.size[a.list[j + 1]]]
    requires AllLinked(a) && Once(a.list, j)
    ensures Coalesced(r, except - {j})
  {
    forall i: nat | i !in except - {j} ensures !Touching(r, i) {
      if Touching(r, i) {
        JoinedTouching(a, j, r, i);
      }
    }
  }

  lemma JoinCoalesces(a: Arena, j: nat, except: set<nat>)
    requires AllLinked(a) && Once(a.list, j) && Touching(a, j) && Coalesced(a, except) && except <= {j - 1, j}
    ensures Coalesced(Joined(a, j), except - {j})
  {
    JoinedList(a, j);
    CoalescedJoined(a, j, Joined(a, j), except);
  }

  /** What free leaves: bp inserted after index t, joined with the block above if they touch, then
      with the block below if they touch. */
  function Freed(a: Arena, t: nat, bp: nat): Arena
    requires t < |a.list|
  {
    var r1 := Inserted(a, t, bp);
    var r2 := if Touching(r1, t + 1) then Joined(r1, t + 1) else r1;
    if Touching(r2, t) then Joined(r2, t) else r2
  }

  lemma JoinKeepsInvariant(a: Arena, j: nat, except: set<nat>)
    requires Sound(a) && Touching(a, j) && Coalesced(a, except) && except <= {j - 1, j}
    ensures Sound(Joined(a, j)) && Coalesced(Joined(a, j), except - {j})
  {
    JoinKeepsSound(a, j);
    Linked(a);
    ListedOnce(a, j);
    JoinCoalesces(a, j, except);
  }

  lemma FreeKeepsInvariant(a: Arena, t: nat, bp: nat)
    requires Sound(a) && Coalesced(a, {}) && bp in a.live && Below(a, t, bp)
    ensures Sound(Freed(a, t, bp)) && Coalesced(Freed(a, t, bp), {})
  {
    var r1 := Inserted(a, t, bp);
    InsertKeepsSound(a, t, bp);
    InsertCoalesces(a, t, bp);
    if Touching(r1, t + 1) {
      JoinKeepsInvariant(r1, t + 1, {t, t + 1});
    }
    var r2 := if Touching(r1, t + 1) then Joined(r1, t + 1) else r1;
    assert Coalesced(r2, {t});
    if Touching(r2, t) {
      JoinKeepsInvariant(r2, t, {t});
    }
  }

  /** What free's first test leaves, before the second. */
  function FreedUp(a: Arena, t: nat, bp: nat): Arena
    requires t < |a.list|
  {
    var r := Inserted(a, t, bp);
    if Touching(r, t + 1) then Joined(r, t + 1) else r
  }

  predicate Linkable(ptr: map<nat, nat>, size: map<nat, nat>, p: nat, bp: nat) {
    p != bp && p in ptr && p in size && bp in size && ptr[p] in ptr && ptr[p] in size
  }

  /** The sizes after free's first test, p being the block that bp belongs after. */
  function UpSize(ptr: map<nat, nat>, size: map<nat, nat>, p: nat, bp: nat): (r: map<nat, nat>)
    requires Linkable(ptr, size, p, bp)
    ensures p in r && bp in r
  {
    if bp + size[bp] == ptr[p] then size[bp := size[bp] + size[ptr[p]]] else size
  }

  /** bp's successor after free's first test. */
  function UpNext(ptr: map<nat, nat>, size: map<nat, nat>, p: nat, bp: nat): nat
    requires Linkable(ptr, size, p, bp)
  {
    if bp + size[bp] == ptr[p] then ptr[ptr[p]] else ptr[p]
  }

  /** The sizes that free leaves. */
  function LinkedSize(ptr: map<nat, nat>, size: map<nat, nat>, p: nat, bp: nat): map<nat, nat>
    requires Linkable(ptr, size, p, bp)
  {
    var up := UpSize(ptr, size, p, bp);
    if p + up[p] == bp then up[p := up[p] + up[bp]] else up
  }

  /** The links that free leaves. */
  function LinkedPtr(ptr: map<nat, nat>, size: map<nat, nat>, p: nat, bp: nat): map<nat, nat>
    requires Linkable(ptr, size, p, bp)
  {
    var up, next := UpSize(ptr, size, p, bp), UpNext(ptr, size, p, bp);
    ptr[bp := next][p := if p + up[p] == bp then next else bp]
  }

  /** p and q are the blocks around bp. */
  ghost predicate Around(a: Arena, t: nat, bp: nat) {
    && t < |a.list| && Linkable(a.ptr, a.size, a.list[t], bp) && a.ptr[a.list[t]] == a.list[Next(a, t)]
    && (t + 1 < |a.list| ==> bp < a.list[t + 1]) && (t + 1 == |a.list| ==> a.ptr[a.list[t]] == 0)
    && (t == 0 ==> a.list[0] == 0 && a.size[0] == 0) && a.list[t] < bp
  }

  lemma PlaceIsAround(a: Arena, t: nat, bp: nat)
    requires Circular(a) && Ordered(a) && Below(a, t, bp) && bp in a.size
    ensures Around(a, t, bp)
  {
    assert a.list[t] in a.ptr && a.ptr[a.list[t]] == a.list[Next(a, t)];
    assert a.list[Next(a, t)] in a.ptr;
  }

  lemma FreedUpFields(a: Arena, t: nat, bp: nat)
    requires Around(a, t, bp) && a.size[bp] > 0
    ensures var p, r := a.list[t], FreedUp(a, t, bp);
            && r.size == UpSize(a.ptr, a.size, p, bp) && r.ptr == a.ptr[bp := UpNext(a.ptr, a.size, p, bp)][p := bp]
            && t + 1 < |r.list| && r.list[t] == p && r.list[t + 1] == bp && (t == 0 ==> p == 0)
  {
    var p, q := a.list[t], a.list[Next(a, t)];
    var r := Inserted(a, t, bp);
    InsertedAt(a, t, bp, t);
    InsertedAt(a, t, bp, t + 1);
    if t + 1 < |a.list| {
      InsertedAt(a, t, bp, t + 2);
    }
    assert Touching(r, t + 1) <==> bp + a.size[bp] == q;
    assert Touching(r, t + 1) ==> r.ptr[q] == a.ptr[q];
  }

  lemma OverwrittenLink(ptr: map<nat, nat>, p: nat, bp: nat, next: nat)
    requires p != bp
    ensures ptr[bp := next][p := bp][bp] == next
    ensures ptr[bp := next][p := bp][p := next] == ptr[bp := next][p := next]
  {
  }

  /** The sizes and links that free writes are those of Freed. */
  lemma LinkedIsFreed(a: Arena, t: nat, bp: nat)
    requires t < |a.list| && Linkable(a.ptr, a.size, a.list[t], bp)
    requires var p, r := a.list[t], FreedUp(a, t, bp);
             && r.size == UpSize(a.ptr, a.size, p, bp) && r.ptr == a.ptr[bp := UpNext(a.ptr, a.size, p, bp)][p := bp]
             && t + 1 < |r.list| && r.list[t] == p && r.list[t + 1] == bp && (t == 0 ==> p == 0)
    requires t == 0 ==> a.size[0] == 0 && bp > 0
    ensures var p := a.list[t];
            && Freed(a, t, bp).size == LinkedSize(a.ptr, a.size, p, bp)
            && Freed(a, t, bp).ptr == LinkedPtr(a.ptr, a.size, p, bp)
            && p in Freed(a, t, bp).list
  {
    var p, r := a.list[t], FreedUp(a, t, bp);
    assert r.size[p] == a.size[p];
    assert Touching(r, t) <==> p + r.size[p] == bp;
    OverwrittenLink(a.ptr, p, bp, UpNext(a.ptr, a.size, p, bp));
    assert Freed(a, t, bp).list[t] == p;
  }

  function Units(hp: nat, n: nat): (r: set<nat>)
    ensures forall u :: u in r <==> hp <= u < hp + n
  {
    if n == 0 then {} else Units(hp, n - 1) + {hp + n - 1}
  }

  /** morecore's new block, before it is freed. */
  function Obtained(a: Arena, hp: nat, n: nat): Arena {
    a.(size := a.size[hp := n], live := a.live + {hp}, owned := a.owned + Units(hp, n))
  }

  lemma BlocksBelow(a: Arena, hp: nat)
    requires Sound(a) && hp > 0 && forall u :: u in a.owned ==> u < hp
    ensures forall i :: 0 <= i < |a.list| ==> a.list[i] < hp && a.list[i] + a.size[a.list[i]] <= hp
    ensures forall b :: b in a.live ==> b < hp && b + a.size[b] <= hp
  {
    forall i | 0 < i < |a.list| ensures a.list[i] < hp && a.list[i] + a.size[a.list[i]] <= hp {
      var u := a.list[i] + a.size[a.list[i]] - 1;
      assert InFree(a, u) by {
        assert a.list[i] in a.list;
      }
    }
    forall b | b in a.live ensures b < hp && b + a.size[b] <= hp {
      assert InLive(a, b + a.size[b] - 1);
    }
  }

  lemma ObtainedFree(a: Arena, hp: nat, n: nat, u: nat)
    requires Sound(a) && hp > 0 && n > 0 && forall u :: u in a.owned ==> u < hp
    ensures InFree(Obtained(a, hp, n), u) <==> InFree(a, u)
  {
    BlocksBelow(a, hp);
    var r := Obtained(a, hp, n);
    assert forall b :: b in a.list ==> b != hp && (b in r.size <==> b in a.size);
  }

  lemma ObtainedLive(a: Arena, hp: nat, n: nat, u: nat)
    requires Sound(a) && hp > 0 && n > 0 && forall u :: u in a.owned ==> u < hp
    ensures InLive(Obtained(a, hp, n), u) <==> InLive(a, u) || hp <= u < hp + n
  {
    BlocksBelow(a, hp);
    var r := Obtained(a, hp, n);
    if InLive(a, u) {
      var b :| b in a.live && b in a.size && b <= u < b + a.size[b];
      assert b in r.live && r.size[b] == a.size[b];
    }
    if hp <= u < hp + n {
      assert hp in r.live && u < hp + r.size[hp];
    }
  }

  lemma ObtainKeepsTiled(a: Arena, hp: nat, n: nat)
    requires Sound(a) && hp > 0 && n > 0 && forall u :: u in a.owned ==> u < hp
    ensures Tiled(Obtained(a, hp, n))
  {
    var r := Obtained(a, hp, n);
    forall u: nat ensures u in r.owned <==> InFree(r, u) || InLive(r, u) {
      ObtainedFree(a, hp, n, u);
      ObtainedLive(a, hp, n, u);
    }
  }

  lemma ObtainedOffList(a: Arena, hp: nat, n: nat, b: nat)
    requires Sound(a) && hp > 0 && n > 0 && (forall u :: u in a.owned ==> u < hp) && (b in a.live || b == hp)
    ensures var r := Obtained(a, hp, n); Ordered(r) && b > 0 && b in r.size && r.size[b] > 0 && OffList(r, b)
  {
    BlocksBelow(a, hp);
    assert b != hp ==> OffList(a, b);
  }

  lemma ObtainKeepsApart(a: Arena, hp: nat, n: nat)
    requires Sound(a) && hp > 0 && n > 0 && forall u :: u in a.owned ==> u < hp
    ensures Ordered(Obtained(a, hp, n)) && Apart(Obtained(a, hp, n))
  {
    BlocksBelow(a, hp);
    var r := Obtained(a, hp, n);
    ObtainedOffList(a, hp, n, hp);
    forall b | b in r.live ensures b > 0 && b in r.size && r.size[b] > 0 && OffList(r, b) {
      ObtainedOffList(a, hp, n, b);
    }
  }

  lemma ObtainKeepsInvariant(a: Arena, hp: nat, n: nat)
    requires Sound(a) && Coalesced(a, {}) && hp > 0 && n > 0 && forall u :: u in a.owned ==> u < hp
    ensures Sound(Obtained(a, hp, n)) && Coalesced(Obtained(a, hp, n), {}) && hp !in a.live
  {
    BlocksBelow(a, hp);
    ObtainKeepsTiled(a, hp, n);
    ObtainKeepsApart(a, hp, n);
    forall i: nat ensures !Touching(Obtained(a, hp, n), i) {
      assert !Touching(a, i);
    }
  }

  /** The place for a block that is not free: below it there is always base. */
  lemma PlaceFor(a: Arena, bp: nat) returns (t: nat)
    requires Sound(a) && bp in a.live
    ensures Below(a, t, bp)
  {
    assert OffList(a, bp);
    t := 0;
    while t + 1 < |a.list| && a.list[t + 1] < bp
      invariant t < |a.list| && a.list[t] < bp
    {
      t := t + 1;
    }
  }

  /** Steps from index i to index j around a circle of n. */
  function Steps(n: nat, i: nat, j: nat): int {
    if i <= j then j - i else j - i + n
  }

  /** free's search stops between p and its successor q. */
  predicate Fits(p: nat, q: nat, bp: nat) {
    (bp > p && bp < q) || (p >= q && (bp > p || bp < q))
  }

  /** No free block has n units. */
  ghost predicate AllSmaller(a: Arena, n: nat) {
    forall k :: 0 <= k < |a.list| ==> a.list[k] in a.size && a.size[a.list[k]] < n
  }

  /** The free blocks from index first up to, but not including, index i are smaller than n. */
  ghost predicate TooSmall(a: Arena, first: nat, i: nat, n: nat) {
    forall k: nat :: k < |a.list| && Steps(|a.list|, first, k) < Steps(|a.list|, first, i) ==>
      a.list[k] in a.size && a.size[a.list[k]] < n
  }

  lemma OneMoreTooSmall(a: Arena, home: nat, i: nat, n: nat)
    requires home < |a.list| && i < |a.list| && i != home && TooSmall(a, Next(a, home), i, n)
    requires a.list[i] in a.size && a.size[a.list[i]] < n
    ensures TooSmall(a, Next(a, home), Next(a, i), n)
  {
    forall k: nat | k < |a.list| && Steps(|a.list|, Next(a, home), k) < Steps(|a.list|, Next(a, home), Next(a, i))
      ensures a.list[k] in a.size && a.size[a.list[k]] < n
    {
      assert k == i || Steps(|a.list|, Next(a, home), k) < Steps(|a.list|, Next(a, home), i);
    }
  }

  /** A whole circle has been seen when the walk comes back to where it began. */
  lemma AllTooSmall(a: Arena, home: nat, i: nat, n: nat)
    requires Ordered(a) && home < |a.list| && i < |a.list| && a.list[i] == a.list[home]
    requires TooSmall(a, Next(a, home), i, n) && a.size[a.list[i]] < n
    ensures AllSmaller(a, n)
  {
    assert i == home;
    forall k | 0 <= k < |a.list| ensures a.list[k] in a.size && a.size[a.list[k]] < n {
      assert k == home || Steps(|a.list|, Next(a, home), k) < Steps(|a.list|, Next(a, home), home);
    }
  }

  lemma FollowLink(a: Arena, i: nat)
    requires Circular(a) && i < |a.list|
    ensures a.list[i] in a.ptr && a.ptr[a.list[i]] == a.list[Next(a, i)]
  {
  }

  /** free's search stops at the last free block below bp and nowhere else. */
  lemma SearchEnds(a: Arena, i: nat, t: nat, bp: nat)
    requires Ordered(a) && Below(a, t, bp) && a.list[0] == 0 && i < |a.list|
    ensures Fits(a.list[i], a.list[Next(a, i)], bp) <==> i == t
  {
    assert i < t ==> a.list[i + 1] <= a.list[t];
    assert t < i ==> a.list[t + 1] <= a.list[i];
  }

  /** Blocks handed out before and still held have not changed size. */
  ghost predicate SizesKept(a: Arena, b: Arena) {
    forall c :: c in a.live && c in b.live ==> c in a.size && c in b.size && b.size[c] == a.size[c]
  }

  lemma LinkedSizesKept(a: Arena, f: Arena, p: nat, bp: nat)
    requires Linkable(a.ptr, a.size, p, bp) && f.size == LinkedSize(a.ptr, a.size, p, bp) && bp !in f.live
    requires forall c :: c in a.live ==> c in a.size && c != p
    ensures SizesKept(a, f)
  {
  }

  lemma LiveIsNotListed(a: Arena, t: nat)
    requires Sound(a) && t < |a.list|
    ensures forall c :: c in a.live ==> c in a.size && c != a.list[t]
  {
    forall c | c in a.live ensures c != a.list[t] {
      assert OffList(a, c);
    }
  }

  lemma FreedHolders(a: Arena, t: nat, bp: nat)
    requires t < |a.list|
    ensures Freed(a, t, bp).live == a.live - {bp} && Freed(a, t, bp).owned == a.owned
  {
  }

  lemma FreedKeepsSizes(a: Arena, t: nat, bp: nat)
    requires Sound(a) && bp in a.live && Below(a, t, bp)
    ensures SizesKept(a, Freed(a, t, bp))
  {
    PlaceIsAround(a, t, bp);
    FreedUpFields(a, t, bp);
    LinkedIsFreed(a, t, bp);
    FreedHolders(a, t, bp);
    LiveIsNotListed(a, t);
    LinkedSizesKept(a, Freed(a, t, bp), a.list[t], bp);
  }

  /** The free block that bp's units are in afterwards has at least their number. */
  lemma FreedHolds(a: Arena, t: nat, bp: nat) returns (k: nat)
    requires Sound(a) && bp in a.live && Below(a, t, bp)
    ensures var f := Freed(a, t, bp); k < |f.list| && f.list[k] in f.size && f.size[f.list[k]] >= a.size[bp]
  {
    PlaceIsAround(a, t, bp);
    FreedUpFields(a, t, bp);
    var r := FreedUp(a, t, bp);
    if Touching(r, t) {
      k := t;
      UnlinkedAt(r, t, t);
    } else {
      k := t + 1;
    }
  }

  /** morecore as a whole: the new block obtained and freed after index t. */
  lemma FreshFreed(a: Arena, hp: nat, n: nat, t: nat) returns (k: nat)
    requires Sound(a) && Coalesced(a, {}) && hp > 0 && n > 0 && forall u :: u in a.owned ==> u < hp
    requires Below(Obtained(a, hp, n), t, hp)
    ensures var f := Freed(Obtained(a, hp, n), t, hp);
            && f.live == a.live && f.owned == a.owned + Units(hp, n) && SizesKept(a, f)
            && k < |f.list| && f.list[k] in f.size && f.size[f.list[k]] >= n
  {
    ObtainKeepsInvariant(a, hp, n);
    var o := Obtained(a, hp, n);
    k := FreedHolds(o, t, hp);
    FreedKeepsSizes(o, t, hp);
    FreedHolders(o, t, hp);
    forall c | c in a.live ensures o.size[c] == a.size[c] && c in o.live {
    }
  }

  ghost function IndexOf(list: seq<nat>, x: nat): (i: nat)
    requires x in list
    ensures i < |list| && list[i] == x
  {
    var i :| 0 <= i < |list| && list[i] == x; i
  }

  /** t is a with block b of n units handed out: it was nobody's, and no other block changes size. */
  ghost predicate HandedOut(a: Arena, t: Arena, b: nat, n: nat) {
    && b !in a.live && t.live == a.live + {b} && t.owned == a.owned
    && b in t.size && t.size[b] == n && SizesKept(a, t)
  }

  lemma WholeIsNew(a: Arena, j: nat)
    requires Sound(a) && j + 1 < |a.list| && a.list[j + 1] in a.ptr
    ensures a.list[j + 1] in a.size && HandedOut(a, TakenWhole(a, j), a.list[j + 1], a.size[a.list[j + 1]])
  {
    forall c | c in a.live ensures c != a.list[j + 1] && c in a.size {
      assert OffList(a, c);
    }
  }

  lemma TailIsHandedOut(a: Arena, k: nat, n: nat)
    requires Sound(a) && 0 < k < |a.list| && a.list[k] in a.size && 0 < n < a.size[a.list[k]]
    ensures HandedOut(a, TakenTail(a, k, n), TailStart(a, k, n), n)
  {
    TailIsNew(a, k, n);
    forall c | c in a.live ensures c != a.list[k] && c in a.size {
      assert OffList(a, c);
    }
  }

  lemma FitIsNotBase(a: Arena, j: nat)
    requires Sound(a) && j < |a.list| && a.list[Next(a, j)] in a.size && a.size[a.list[Next(a, j)]] > 0
    ensures j + 1 < |a.list| && a.list[j + 1] in a.ptr
  {
    assert a.list[Next(a, j)] in a.ptr;
  }

  // ----- conservation -----

  /** The units of a set of blocks, added up. */
  ghost function Total(size: map<nat, nat>, blocks: set<nat>): nat
    requires forall b :: b in blocks ==> b in size
  {
    if blocks == {} then 0
    else
      var b :| b in blocks;
      size[b] + Total(size, blocks - {b})
  }

  ghost predicate BlocksDisjoint(size: map<nat, nat>, blocks: set<nat>) {
    && (forall b :: b in blocks ==> b in size)
    && forall b, c :: b in blocks && c in blocks && b < c ==> b + size[b] <= c
  }

  /** units are the units of the blocks. */
  ghost predicate Covers(size: map<nat, nat>, blocks: set<nat>, units: set<nat>)
    requires BlocksDisjoint(size, blocks)
  {
    forall u: nat :: u in units <==> exists b :: b in blocks && b <= u < b + size[b]
  }

  lemma CoversRestAt(size: map<nat, nat>, blocks: set<nat>, units: set<nat>, b: nat, u: nat)
    requires BlocksDisjoint(size, blocks) && Covers(size, blocks, units) && b in blocks
    ensures u in units - Units(b, size[b]) <==> exists c :: c in blocks - {b} && c <= u < c + size[c]
  {
    if u in units - Units(b, size[b]) {
      var c :| c in blocks && c <= u < c + size[c];
      assert c in blocks - {b};
    } else if u in Units(b, size[b]) {
      forall c | c in blocks - {b} ensures !(c <= u < c + size[c]) {
        assert c in blocks && (c < b || b < c);
      }
    }
  }

  lemma CoversRest(size: map<nat, nat>, blocks: set<nat>, units: set<nat>, b: nat)
    requires BlocksDisjoint(size, blocks) && Covers(size, blocks, units) && b in blocks
    ensures Covers(size, blocks - {b}, units - Units(b, size[b]))
  {
    forall u: nat
      ensures u in units - Units(b, size[b]) <==> exists c :: c in blocks - {b} && c <= u < c + size[c]
    {
      CoversRestAt(size, blocks, units, b, u);
    }
  }

  lemma SplitCount(units: set<nat>, own: set<nat>)
    requires own <= units
    ensures |units| == |own| + |units - own|
  {
    assert units == own + (units - own);
  }

  lemma {:induction false} UnitsCount(hp: nat, n: nat)
    ensures |Units(hp, n)| == n
  {
    if n > 0 {
      UnitsCount(hp, n - 1);
    }
  }

  lemma RestCount(size: map<nat, nat>, blocks: set<nat>, units: set<nat>, b: nat)
    requires BlocksDisjoint(size, blocks) && Covers(size, blocks, units) && b in blocks
    ensures |units| == size[b] + |units - Units(b, size[b])|
  {
    forall u | u in Units(b, size[b]) ensures u in units {
    }
    SplitCount(units, Units(b, size[b]));
    UnitsCount(b, size[b]);
  }

  lemma {:induction false} TotalIsCardinality(size: map<nat, nat>, blocks: set<nat>, units: set<nat>)
    requires BlocksDisjoint(size, blocks) && Covers(size, blocks, units)
    ensures |units| == Total(size, blocks)
  {
    if blocks == {} {
      assert units == {};
    } else {
      var b :| b in blocks && Total(size, blocks) == size[b] + Total(size, blocks - {b});
      CoversRest(size, blocks, units, b);
      RestCount(size, blocks, units, b);
      TotalIsCardinality(size, blocks - {b}, units - Units(b, size[b]));
    }
  }

  lemma DisjointPair(a: Arena, b: nat, c: nat)
    requires Sound(a) && b < c && (b in a.live || b in a.list) && (c in a.live || c in a.list)
    ensures b in a.size && b + a.size[b] <= c
  {
    if b in a.list {
      var i :| 0 <= i < |a.list| && a.list[i] == b;
      if c in a.list {
        var k :| 0 <= k < |a.list| && a.list[k] == c;
        assert i < k;
      } else {
        assert OffList(a, c);
      }
    } else if c in a.list {
      assert OffList(a, b);
      var k :| 0 <= k < |a.list| && a.list[k] == c;
    }
  }

  /** The sizes of the free and the live blocks add up to the units obtained from sbrk. */
  lemma Conservation(a: Arena)
    requires Sound(a)
    ensures var blocks := a.live + set b | b in a.list;
            BlocksDisjoint(a.size, blocks) && Total(a.size, blocks) == |a.owned|
  {
    var blocks := a.live + set b | b in a.list;
    forall b | b in blocks ensures b in a.size {
      if b in a.list {
        var i :| 0 <= i < |a.list| && a.list[i] == b;
      }
    }
    forall b, c | b in blocks && c in blocks && b < c ensures b + a.size[b] <= c {
      DisjointPair(a, b, c);
    }
    forall u: nat ensures u in a.owned <==> exists b :: b in blocks && b <= u < b + a.size[b] {
      if b :| b in blocks && b <= u < b + a.size[b] {
        assert InFree(a, u) || InLive(a, u);
      }
    }
    TotalIsCardinality(a.size, blocks, a.owned);
  }

  /** Some free block is large enough. */
  ghost predicate HasFit(a: Arena, nunits: nat) {
    exists b :: b in a.list && b in a.size && a.size[b] >= nunits
  }

  /** The units that malloc looks for: those of nbytes, and one for the header. */
  function NeededUnits(nbytes: nat): nat {
    (nbytes + HEADER - 1) / HEADER + 1
  }

  lemma FitOrSmaller(a: Arena, nunits: nat, b: nat)
    ensures b in a.list && b in a.size && a.size[b] >= nunits ==> HasFit(a, nunits)
    ensures AllSmaller(a, nunits) ==> !HasFit(a, nunits)
  {
  }

  /** The units needed are the fewest that hold a header and nbytes. */
  lemma UnitsHold(nbytes: nat, units: nat)
    ensures units < NeededUnits(nbytes) ==> (units - 1) * HEADER < nbytes
    ensures units == NeededUnits(nbytes) ==> (units - 1) * HEADER >= nbytes > (units - 2) * HEADER
  {
  }

  /** No free block has room for a header and nbytes. */
  ghost predicate NoneHolds(a: Arena, nbytes: nat) {
    forall b :: b in a.list && b in a.size ==> (a.size[b] - 1) * HEADER < nbytes
  }

  lemma NoneIsEnough(a: Arena, nbytes: nat)
    requires AllSmaller(a, NeededUnits(nbytes))
    ensures NoneHolds(a, nbytes)
  {
    forall b | b in a.list && b in a.size ensures (a.size[b] - 1) * HEADER < nbytes {
      UnitsHold(nbytes, a.size[b]);
    }
  }

  /** A call of sbrk for so many units, and its answer. */
  datatype Request = Request(units: nat, answer: Option<nat>)

  /** What malloc asks of sbrk for a block of nunits: nothing when a block fits, else once, for at least
      MINUNITS, and it succeeds exactly when that does. The units granted become the allocator's. */
  ghost predicate AsksIfNeeded(fits: bool, nunits: nat, before: seq<Request>, after: seq<Request>,
                               owned0: set<nat>, owned: set<nat>, ok: bool) {
    if fits then ok && after == before && owned == owned0
    else
      exists answer: Option<nat> ::
        var n := if nunits < MINUNITS then MINUNITS else nunits;
        && after == before + [Request(n, answer)] && (ok <==> answer.Some?)
        && owned == if ok then owned0 + Units(answer.value, n) else owned0
  }

  // ----- the allocator -----

  class Allocator {
    var ptr: map<nat, nat>
    var size: map<nat, nat>
    var freep: Option<nat>
    /** The break, which callers of sbrk other than malloc may also move. */
    var brk: nat
    ghost var list: seq<nat>
    ghost var live: set<nat>
    ghost var owned: set<nat>
    /** Every call of sbrk so far. */
    ghost var asked: seq<Request>

    ghost function A(): Arena
      reads this
    {
      Arena(ptr, size, list, live, owned)
    }

    ghost predicate Valid()
      reads this
    {
      && brk > 0
      && (freep == None ==> live == {} && owned == {})
      && (freep.Some? ==> Sound(A()) && Coalesced(A(), {}) && freep.value in list && forall u :: u in owned ==> u < brk)
    }

    constructor (start: nat)
      requires start > 0
      ensures Valid() && live == {} && owned == {}
    {
      ptr, size, freep, brk := map[], map[], None, start;
      list, live, owned, asked := [], {}, {}, [];
    }

    /** free's search: around the circle from freep to the free block that bp belongs after. */
    method Locate(bp: nat, ghost t: nat) returns (p: nat)
      requires freep.Some? && freep.value in list && Circular(A()) && Ordered(A()) && Below(A(), t, bp)
      ensures p == list[t] && p in ptr && ptr[p] == list[Next(A(), t)]
    {
      p := freep.value;
      ghost var i :| 0 <= i < |list| && list[i] == p;
      FollowLink(A(), i);
      SearchEnds(A(), i, t, bp);
      while !(bp > p && bp < ptr[p])
        invariant 0 <= i < |list| && p == list[i]
        invariant p in ptr && ptr[p] == list[Next(A(), i)]
        invariant i == t <==> Fits(p, ptr[p], bp)
        decreases Steps(|list|, i, t)
      {
        if p >= ptr[p] && (bp > p || bp < ptr[p]) {
          break;
        }
        p := ptr[p];
        i := Next(A(), i);
        FollowLink(A(), i);
        SearchEnds(A(), i, t, bp);
      }
    }

    /** free's two tests, p being the block that bp belongs after. */
    method Link(p: nat, bp: nat)
      requires Linkable(ptr, size, p, bp)
      modifies `ptr, `size
      ensures size == LinkedSize(old(ptr), old(size), p, bp) && ptr == LinkedPtr(old(ptr), old(size), p, bp)
    {
      if bp + size[bp] == ptr[p] {
        size := size[bp := size[bp] + size[ptr[p]]];
        ptr := ptr[bp := ptr[ptr[p]]];
      } else {
        ptr := ptr[bp := ptr[p]];
      }
      if p + size[p] == bp {
        size := size[p := size[p] + size[bp]];
        ptr := ptr[p := ptr[bp]];
      } else {
        ptr := ptr[p := bp];
      }
    }

    /** free: the block goes back at its place in address order and joins its neighbours. */
    method Free(ap: nat) returns (ghost t: nat)
      requires Valid() && freep.Some? && ap > 0 && ap - 1 in live
      modifies `ptr, `size, `freep, `list, `live
      ensures Valid() && freep.Some?
      ensures Below(old(A()), t, ap - 1) && A() == Freed(old(A()), t, ap - 1)
    {
      var bp := ap - 1;
      t := PlaceFor(A(), bp);
      FreeKeepsInvariant(A(), t, bp);
      PlaceIsAround(A(), t, bp);
      FreedUpFields(A(), t, bp);
      LinkedIsFreed(A(), t, bp);
      var p := Locate(bp, t);
      Link(p, bp);
      freep := Some(p);
      list := Freed(old(A()), t, bp).list;
      live := live - {bp};
      assert A() == Freed(old(A()), t, bp);
    }

    /** sbrk, as the allocator sees it: it may fail, and the new units need not adjoin the last ones. */
    method Sbrk(n: nat) returns (r: Option<nat>)
      requires brk > 0
      modifies `brk, `asked
      ensures asked == old(asked) + [Request(n, r)]
      ensures r == None ==> brk == old(brk)
      ensures r.Some? ==> r.value >= old(brk) && brk == r.value + n
    {
      var fails: bool, gap: nat := *, *;
      if fails {
        asked := asked + [Request(n, None)];
        return None;
      }
      r := Some(brk + gap);
      asked := asked + [Request(n, r)];
      brk := brk + gap + n;
    }

    /** morecore's header for the n units at hp, which the caller is about to free. */
    method Obtain(hp: nat, n: nat)
      requires Valid() && freep.Some? && n > 0 && hp > 0 && hp + n <= brk && forall u :: u in owned ==> u < hp
      modifies `size, `live, `owned
      ensures Valid() && A() == Obtained(old(A()), hp, n)
    {
      ObtainKeepsInvariant(A(), hp, n);
      size := size[hp := n];
      live := live + {hp};
      owned := owned + Units(hp, n);
      assert A() == Obtained(old(A()), hp, n);
    }

    /** The new block's header, and its release into the free list. */
    method AddUnits(hp: nat, n: nat) returns (ghost k: nat)
      requires Valid() && freep.Some? && n > 0 && hp > 0 && hp + n <= brk && forall u :: u in owned ==> u < hp
      modifies `ptr, `size, `freep, `list, `live, `owned
      ensures Valid() && freep.Some? && live == old(live) && SizesKept(old(A()), A())
      ensures owned == old(owned) + Units(hp, n) && k < |list| && list[k] in size && size[list[k]] >= n
    {
      ghost var a := A();
      Obtain(hp, n);
      ghost var t := Free(hp + 1);
      k := FreshFreed(a, hp, n, t);
    }

    /** morecore: k is the index of a free block that now has nu units or more. */
    method Morecore(nu: nat) returns (r: Option<nat>, ghost k: nat)
      requires Valid() && freep.Some?
      modifies this
      ensures Valid() && freep.Some? && live == old(live) && SizesKept(old(A()), A())
      ensures r == None ==> A() == old(A()) && freep == old(freep)
      ensures r.Some? ==> r == freep && k < |list| && list[k] in size && size[list[k]] >= nu
      ensures AsksIfNeeded(false, nu, old(asked), asked, old(owned), owned, r.Some?)
    {
      var n := if nu < MINUNITS then MINUNITS else nu;
      var p := Sbrk(n);
      if p == None {
        return None, 0;
      }
      k := AddUnits(p.value, n);
      r := freep;
    }

    /** malloc's first call: the list is base alone. */
    method Init(ghost nunits: nat)
      requires Valid() && nunits > 0
      modifies `ptr, `size, `freep, `list
      ensures Valid() && freep.Some? && (HasFit(A(), nunits) <==> old(freep.Some? && HasFit(A(), nunits)))
      ensures forall c :: c in live ==> c in size && c in old(size) && size[c] == old(size[c])
    {
      if freep == None {
        ptr, size, freep, list := ptr[0 := 0], size[0 := 0], Some(0), [0];
      }
    }

    /** malloc's exact fit, prevp being the block before p. */
    method TakeBlock(prevp: nat, p: nat, ghost j: nat)
      requires Valid() && freep.Some? && j + 1 < |list| && prevp == list[j] && p == list[j + 1] && p in ptr
      modifies `ptr, `freep, `list, `live
      ensures Valid() && freep == Some(prevp) && A() == TakenWhole(old(A()), j)
      ensures p in old(size) && HandedOut(old(A()), A(), p, old(size)[p])
    {
      WholeIsNew(A(), j);
      TakeWholeKeepsInvariant(A(), j);
      UnlinkedAt(A(), j, j);
      ptr := ptr[prevp := ptr[p]];
      freep := Some(prevp);
      list := Unlinked(old(A()), j).list;
      live := live + {p};
      assert A() == TakenWhole(old(A()), j);
    }

    /** malloc's larger fit: p, at index k, shrinks and its tail gets a header. */
    method CutTail(prevp: nat, p: nat, nunits: nat, ghost k: nat) returns (b: nat)
      requires k < |list| && p == list[k] && p in size && nunits < size[p]
      modifies `size, `freep, `live
      ensures freep == Some(prevp) && A() == TakenTail(old(A()), k, nunits)
      ensures b == old(TailStart(A(), k, nunits))
    {
      size := size[p := size[p] - nunits];
      b := p + size[p];
      size := size[b := nunits];
      freep := Some(prevp);
      live := live + {b};
    }

    method TakeTail(prevp: nat, p: nat, nunits: nat, ghost k: nat) returns (b: nat)
      requires Valid() && freep.Some? && prevp in list && 0 < k < |list| && p == list[k]
      requires p in size && 0 < nunits < size[p]
      modifies `size, `freep, `live
      ensures Valid() && freep == Some(prevp) && HandedOut(old(A()), A(), b, nunits)
    {
      TakeTailKeepsInvariant(A(), k, nunits);
      TailIsHandedOut(A(), k, nunits);
      b := CutTail(prevp, p, nunits, k);
    }

    /** malloc's work once p, at index j+1, is large enough; prevp is the block before it. */
    method Take(prevp: nat, p: nat, nunits: nat, ghost j: nat) returns (b: nat)
      requires Valid() && freep.Some? && nunits > 0
      requires j < |list| && prevp == list[j] && p == list[Next(A(), j)] && p in size && size[p] >= nunits
      modifies `ptr, `size, `freep, `list, `live
      ensures Valid() && freep == Some(prevp) && HandedOut(old(A()), A(), b, nunits)
    {
      FitIsNotBase(A(), j);
      if size[p] == nunits {
        TakeBlock(prevp, p, j);
        b := p;
      } else {
        b := TakeTail(prevp, p, nunits, j + 1);
      }
    }

    /** malloc's walk from freep until a block is large enough or the circle is done; it passes none that is. */
    method FirstFit(nunits: nat) returns (fits: bool, prevp: nat, p: nat, ghost j: nat)
      requires freep.Some? && Circular(A()) && Ordered(A()) && freep.value in list
      ensures j < |list| && prevp == list[j] && p == list[Next(A(), j)] && p in size
      ensures fits ==> size[p] >= nunits
      ensures TooSmall(A(), Next(A(), IndexOf(list, freep.value)), Next(A(), j), nunits)
      ensures !fits ==> p == freep.value && AllSmaller(A(), nunits)
    {
      prevp := freep.value;
      ghost var home: nat := IndexOf(list, prevp);
      ghost var first := Next(A(), home);
      j := home;
      assert list[j] in ptr && ptr[list[j]] == list[Next(A(), j)];
      p := ptr[prevp];
      while true
        invariant j < |list| && prevp == list[j] && p == list[Next(A(), j)]
        invariant TooSmall(A(), first, Next(A(), j), nunits)
        decreases Steps(|list|, Next(A(), j), home)
      {
        ghost var i := Next(A(), j);
        if size[p] >= nunits {
          fits := true;
          return;
        }
        if p == freep.value {
          AllTooSmall(A(), home, i, nunits);
          fits := false;
          return;
        }
        FollowLink(A(), i);
        OneMoreTooSmall(A(), home, i, nunits);
        prevp := p;
        p := ptr[p];
        j := i;
      }
    }

    /** malloc's loop, to the block p that it takes, prevp being the one before; sbrk is asked at most once,
        because the circle after a successful morecore has a block that is large enough. */
    method Search(nunits: nat) returns (ok: bool, prevp: nat, p: nat, ghost j: nat)
      requires Valid() && freep.Some?
      modifies this
      ensures Valid() && freep.Some? && live == old(live) && SizesKept(old(A()), A())
      ensures AsksIfNeeded(old(HasFit(A(), nunits)), nunits, old(asked), asked, old(owned), owned, ok)
      ensures ok ==> j < |list| && prevp == list[j] && p == list[Next(A(), j)] && p in size && size[p] >= nunits
      ensures !ok ==> AllSmaller(A(), nunits)
    {
      ghost var before, had := asked, owned;
      ok, prevp, p, j := FirstFit(nunits);
      FitOrSmaller(A(), nunits, p);
      ghost var fitted, enough := ok, ok;
      while !ok
        invariant Valid() && freep.Some? && live == old(live) && SizesKept(old(A()), A())
        invariant ok ==> j < |list| && prevp == list[j] && p == list[Next(A(), j)] && p in size && size[p] >= nunits
        invariant !ok ==> AllSmaller(A(), nunits) && asked == before && owned == had
        invariant enough ==> ok
        invariant ok ==> AsksIfNeeded(fitted, nunits, before, asked, had, owned, true)
        decreases !enough
      {
        var more;
        ghost var k: nat;
        more, k := Morecore(nunits);
        if more == None {
          return;
        }
        enough := true;
        ok, prevp, p, j := FirstFit(nunits);
      }
    }

    /** malloc: a block of enough units that nobody held, or no block when sbrk refuses; sbrk is asked
        exactly when no free block is large enough. */
    method Malloc(nbytes: nat) returns (r: Option<nat>)
      requires Valid()
      modifies this
      ensures Valid()
      ensures AsksIfNeeded(old(freep.Some? && HasFit(A(), NeededUnits(nbytes))), NeededUnits(nbytes),
                           old(asked), asked, old(owned), owned, r.Some?)
      ensures r == None ==> live == old(live) && NoneHolds(A(), nbytes)
      ensures r.Some? ==> r.value > 0 && r.value - 1 !in old(live) && live == old(live) + {r.value - 1}
      ensures r.Some? ==> r.value - 1 in size
      ensures r.Some? ==> (size[r.value - 1] - 1) * HEADER >= nbytes > (size[r.value - 1] - 2) * HEADER
      ensures forall c :: c in old(live) ==> c in size && c in old(size) && size[c] == old(size[c])
    {
      var nunits := (nbytes + HEADER - 1) / HEADER + 1;
      Init(nunits);
      var ok, prevp, p;
      ghost var j: nat;
      ok, prevp, p, j := Search(nunits);
      if !ok {
        NoneIsEnough(A(), nbytes);
        return None;
      }
      UnitsHold(nbytes, nunits);
      var b := Take(prevp, p, nunits, j);
      r := Some(b + 1);
    }
  }
}
