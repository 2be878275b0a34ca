/**
 The circular, doubly linked list in least-recently-used order that the buffer cache (kernel/bio.c) and the
 directory-entry cache (kernel/fat32.c) both keep: nodes 0 to n - 1, and the list head as node n.
 */
module LruList {

  /** The next and prev fields. */
  datatype Links = Links(next: seq<nat>, prev: seq<nat>)

  /** The i-th stop on the way round: the head, then the nodes, most recently used first. */
  function Stop(order: seq<nat>, n: nat, i: nat): nat
    requires i <= |order| + 1
  {
    if i == 0 || i == |order| + 1 then n else order[i - 1]
  }

  /** order lists nodes below n, none twice. */
  ghost predicate Nodes(order: seq<nat>, n: nat) {
    && (forall i :: 0 <= i < |order| ==> order[i] < n)
    && (forall i, j :: 0 <= i < j < |order| ==> order[i] != order[j])
  }

  /** Stops i and i + 1 point at each other. */
  predicate Joined(l: Links, order: seq<nat>, n: nat, i: nat) {
    && i <= |order| && Stop(order, n, i) < |l.next| && Stop(order, n, i + 1) < |l.prev|
    && l.next[Stop(order, n, i)] == Stop(order, n, i + 1) && l.prev[Stop(order, n, i + 1)] == Stop(order, n, i)
  }

  /** The links form one circle through the head, in this order. */
  ghost predicate Circle(l: Links, order: seq<nat>, n: nat) {
    && |l.next| == n + 1 && |l.prev| == n + 1 && Nodes(order, n)
    && (forall i :: 0 <= i <= |order| ==> Joined(l, order, n, i))
  }

  /** The neighbours of node e are joined to each other. */
  function Unlink(l: Links, e: nat): Links
    requires e < |l.next| == |l.prev| && l.next[e] < |l.prev|
  {
    var prev := l.prev[l.next[e] := l.prev[e]];
    if prev[e] < |l.next| then Links(l.next[prev[e] := l.next[e]], prev) else l
  }

  /** Node e is linked in between the head and the node behind it. */
  function PushFront(l: Links, e: nat, n: nat): Links
    requires e < n && |l.next| == |l.prev| == n + 1
  {
    var next := l.next[e := l.next[n]];
    var prev := l.prev[e := n];
    if next[n] < |prev| then Links(next[n := e], prev[next[n] := e]) else l
  }

  function Without(order: seq<nat>, k: nat): seq<nat>
    requires k < |order|
  {
    order[..k] + order[k + 1..]
  }

  lemma StopsDiffer(order: seq<nat>, n: nat, i: nat, j: nat)
    requires Nodes(order, n) && i <= |order| && j <= |order| && i != j
    ensures Stop(order, n, i) != Stop(order, n, j)
  {
  }

  lemma StopWithout(order: seq<nat>, n: nat, k: nat, i: nat)
    requires k < |order| && i <= |order|
    ensures Stop(Without(order, k), n, i) == Stop(order, n, if i <= k then i else i + 1)
  {
  }

  lemma StopPushed(order: seq<nat>, n: nat, e: nat, i: nat)
    requires i <= |order| + 2
    ensures Stop([e] + order, n, i) == if i == 0 then n else if i == 1 then e else Stop(order, n, i - 1)
  {
  }

  lemma CircleAt(l: Links, order: seq<nat>, n: nat, i: nat)
    requires Circle(l, order, n) && i <= |order|
    ensures Stop(order, n, i) <= n && l.next[Stop(order, n, i)] == Stop(order, n, i + 1)
        && l.prev[Stop(order, n, i + 1)] == Stop(order, n, i)
    ensures Stop(order, n, i + 1) <= n
  {
    assert Joined(l, order, n, i);
  }

  /** What Unlink writes: the neighbours of node k get each other. */
  lemma UnlinkWrites(l: Links, order: seq<nat>, n: nat, k: nat)
    requires Circle(l, order, n) && k < |order|
    ensures Stop(order, n, k) <= n && Stop(order, n, k + 2) <= n && order[k] < n && l.next[order[k]] <= n
    ensures Unlink(l, order[k]) == Links(l.next[Stop(order, n, k) := Stop(order, n, k + 2)],
        l.prev[Stop(order, n, k + 2) := Stop(order, n, k)])
  {
    CircleAt(l, order, n, k);
    CircleAt(l, order, n, k + 1);
  }

  lemma UnlinkKeeps(l: Links, order: seq<nat>, n: nat, k: nat)
    requires Circle(l, order, n) && k < |order|
    ensures order[k] < n && l.next[order[k]] <= n && |Unlink(l, order[k]).next| == |Unlink(l, order[k]).prev| == n + 1
    ensures Circle(Unlink(l, order[k]), Without(order, k), n)
  {
    hide Stop, Unlink;
    UnlinkWrites(l, order, n, k);
    var t := Without(order, k);
    var u := Unlink(l, order[k]);
    forall i | 0 <= i <= |t|
      ensures Joined(u, t, n, i)
    {
      StopWithout(order, n, k, i);
      StopWithout(order, n, k, i + 1);
      var j: nat := if i <= k then i else i + 1;
      CircleAt(l, order, n, j);
      if i != k {
        StopsDiffer(order, n, j, k);
        Wraps(order, n);
        StopsDiffer(order, n, if j + 1 <= |order| then j + 1 else 0, if k + 2 <= |order| then k + 2 else 0);
      }
    }
  }

  lemma Wraps(order: seq<nat>, n: nat)
    ensures Stop(order, n, |order| + 1) == Stop(order, n, 0) == n
  {
  }

  lemma PushWrites(l: Links, order: seq<nat>, n: nat, e: nat)
    requires Circle(l, order, n) && e < n && e !in order
    ensures Stop(order, n, 1) <= n && Stop(order, n, 1) != e
    ensures PushFront(l, e, n) == Links(l.next[e := Stop(order, n, 1)][n := e], l.prev[e := n][Stop(order, n, 1) := e])
  {
    CircleAt(l, order, n, 0);
  }

  lemma PushKeeps(l: Links, order: seq<nat>, n: nat, e: nat)
    requires Circle(l, order, n) && e < n && e !in order
    ensures Circle(PushFront(l, e, n), [e] + order, n)
  {
    hide Stop, PushFront;
    PushWrites(l, order, n, e);
    var t := [e] + order;
    var u := PushFront(l, e, n);
    Wraps(order, n);
    forall i | 0 <= i <= |t|
      ensures Joined(u, t, n, i)
    {
      StopPushed(order, n, e, i);
      StopPushed(order, n, e, i + 1);
      if i > 1 {
        CircleAt(l, order, n, i - 1);
        StopIs(order, n, i - 1);
        StopIs(order, n, i);
        StopsDiffer(order, n, if i <= |order| then i else 0, 1);
      }
    }
  }

  lemma StopIs(order: seq<nat>, n: nat, i: nat)
    requires 0 < i <= |order| + 1
    ensures Stop(order, n, i) == if i == |order| + 1 then n else order[i - 1]
  {
  }

  /** Node k of the order becomes the most recently used. */
  function ToFront(order: seq<nat>, k: nat): seq<nat>
    requires k < |order|
  {
    [order[k]] + Without(order, k)
  }

  lemma FrontKeeps(l: Links, order: seq<nat>, n: nat, k: nat)
    requires Circle(l, order, n) && k < |order|
    ensures order[k] < n && l.next[order[k]] <= n && |Unlink(l, order[k]).next| == |Unlink(l, order[k]).prev| == n + 1
    ensures Circle(PushFront(Unlink(l, order[k]), order[k], n), ToFront(order, k), n)
  {
    hide Stop, Unlink, PushFront;
    UnlinkKeeps(l, order, n, k);
    var t := Without(order, k);
    assert forall i :: 0 <= i < |t| ==> t[i] == if i < k then order[i] else order[i + 1];
    PushKeeps(Unlink(l, order[k]), t, n, order[k]);
  }

  /** Where everything is after ToFront: the others keep their order. */
  lemma FrontAt(order: seq<nat>, k: nat)
    requires k < |order|
    ensures |ToFront(order, k)| == |order| && ToFront(order, k)[0] == order[k]
    ensures forall i {:trigger ToFront(order, k)[i]} :: 0 < i < |order| ==>
        ToFront(order, k)[i] == order[if i <= k then i - 1 else i]
    ensures forall x :: x in ToFront(order, k) <==> x in order
  {
    var t := ToFront(order, k);
    assert forall i :: 0 < i < |order| ==> t[i] == order[if i <= k then i - 1 else i];
    forall x
      ensures x in t <==> x in order
    {
      if x in order {
        var i :| 0 <= i < |order| && order[i] == x;
        assert x == t[if i == k then 0 else if i < k then i + 1 else i];
      }
    }
  }

  /** Following next from stop i, or prev, leads to the neighbouring stop. */
  lemma Neighbours(l: Links, order: seq<nat>, n: nat, i: nat)
    requires Circle(l, order, n) && i <= |order| + 1
    ensures Stop(order, n, i) <= n && (Stop(order, n, i) == n <==> i == 0 || i == |order| + 1)
    ensures i <= |order| ==> l.next[Stop(order, n, i)] == Stop(order, n, i + 1)
    ensures i > 0 ==> l.prev[Stop(order, n, i)] == Stop(order, n, i - 1)
  {
    assert i <= |order| ==> Joined(l, order, n, i);
    assert i > 0 ==> Joined(l, order, n, i - 1);
  }
}
