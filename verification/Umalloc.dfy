/**
 The user-level storage allocator (user/umalloc.c): malloc and free over one circular list of free blocks,
 kept in address order. Addresses are bytes; a header is one unit of 16 bytes and sizes count units.
 */
module Blocks {

  /** A block of memory with its header: size units starting at its address, free or handed out. */
  datatype Block = Block(size: nat, free: bool)

  function End(a: nat, b: Block): nat { a + 16 * b.size }

  /** The blocks do not overlap. */
  ghost predicate Apart(bs: map<nat, Block>) {
    && (forall a :: a in bs ==> bs[a].size > 0)
    && (forall a, b :: a in bs && b in bs && a < b ==> End(a, bs[a]) <= b)
  }

  /** No two free blocks touch. */
  ghost predicate Coalesced(bs: map<nat, Block>) {
    forall a, b :: a in bs && b in bs && bs[a].free && bs[b].free ==> End(a, bs[a]) != b
  }

  predicate Within(a: nat, b: Block, x: nat) { a <= x < End(a, b) }

  /** Byte x is in a free block, or in a block handed out. */
  ghost predicate Covers(bs: map<nat, Block>, free: bool, x: nat) {
    exists a :: a in bs && bs[a].free == free && Within(a, bs[a], x)
  }

  /** The blocks handed out are the same ones. */
  ghost predicate SameTaken(bs: map<nat, Block>, cs: map<nat, Block>) {
    forall a :: (a in bs && !bs[a].free) || (a in cs && !cs[a].free) ==> a in bs && a in cs && bs[a] == cs[a]
  }

  ghost predicate SameCover(bs: map<nat, Block>, cs: map<nat, Block>, free: bool) {
    forall x: nat :: Covers(bs, free, x) <==> Covers(cs, free, x)
  }

  /** Free block a swallows the free block b behind it. */
  function Merge(bs: map<nat, Block>, a: nat, b: nat): map<nat, Block>
    requires a in bs && b in bs
  {
    (bs - {b})[a := Block(bs[a].size + bs[b].size, true)]
  }

  lemma CoveredBy(bs: map<nat, Block>, free: bool, x: nat) returns (a: nat)
    requires Covers(bs, free, x)
    ensures a in bs && bs[a].free == free && Within(a, bs[a], x)
  {
    a :| a in bs && bs[a].free == free && Within(a, bs[a], x);
  }

  lemma Covering(bs: map<nat, Block>, free: bool, x: nat, a: nat)
    requires a in bs && bs[a].free == free && Within(a, bs[a], x)
    ensures Covers(bs, free, x)
  {
  }

  lemma MergeApart(bs: map<nat, Block>, a: nat, b: nat)
    requires Apart(bs) && a in bs && b in bs && bs[a].free && bs[b].free && End(a, bs[a]) == b
    ensures Apart(Merge(bs, a, b)) && SameTaken(bs, Merge(bs, a, b))
  {
    hide End;
    var cs := Merge(bs, a, b);
    assert a < b && End(a, cs[a]) == End(b, bs[b]) by { MergeEnd(a, bs[a], bs[b]); }
  }

  lemma MergeEnd(a: nat, x: Block, y: Block)
    requires x.size > 0
    ensures End(a, Block(x.size + y.size, true)) == End(End(a, x), y) && a < End(a, x)
  {
  }

  lemma MergeKeeps(bs: map<nat, Block>, a: nat, b: nat)
    requires Apart(bs) && a in bs && b in bs && bs[a].free && bs[b].free && End(a, bs[a]) == b
    ensures SameCover(bs, Merge(bs, a, b), true)
  {
    hide Covers;
    var cs := Merge(bs, a, b);
    assert a < b by { MergeEnd(a, bs[a], bs[b]); }
    hide Apart;
    forall x: nat
      ensures Covers(bs, true, x) <==> Covers(cs, true, x)
    {
      if Covers(bs, true, x) {
        var c := CoveredBy(bs, true, x);
        Covering(cs, true, x, if c == b then a else c);
      }
      if Covers(cs, true, x) {
        var c := CoveredBy(cs, true, x);
        Covering(bs, true, x, if c == a && b <= x then b else c);
      }
    }
  }

  /** Block a gives its last n units away. */
  function Split(bs: map<nat, Block>, a: nat, n: nat): map<nat, Block>
    requires a in bs && n < bs[a].size
  {
    bs[a := Block(bs[a].size - n, true)][a + 16 * (bs[a].size - n) := Block(n, false)]
  }

  lemma SplitNew(bs: map<nat, Block>, a: nat, n: nat)
    requires Apart(bs) && a in bs && 0 < n < bs[a].size
    ensures a + 16 * (bs[a].size - n) !in bs
  {
  }

  lemma SplitApart(bs: map<nat, Block>, a: nat, n: nat)
    requires Apart(bs) && Coalesced(bs) && a in bs && bs[a].free && 0 < n < bs[a].size
    ensures Apart(Split(bs, a, n)) && Coalesced(Split(bs, a, n))
  {
    hide End;
    SplitNew(bs, a, n);
    var q := a + 16 * (bs[a].size - n);
    var cs := Split(bs, a, n);
    EndAfter(q, cs[q]);
    assert End(q, cs[q]) == End(a, bs[a]) && End(a, cs[a]) == q && a < q by { SplitEnds(a, bs[a].size, n); }
    forall c, d | c in cs && d in cs && c < d
      ensures End(c, cs[c]) <= d && (cs[c].free && cs[d].free ==> End(c, cs[c]) != d)
    {
      if d != q && d != a && c != q && c != a {
        assert c in bs && d in bs;
      } else if d == q && c != a {
        ApartEither(bs, a, c);
        EndAfter(c, bs[c]);
      } else if c == q || (c == a && d != q) {
        assert d in bs && End(a, bs[a]) <= d;
      }
    }
    forall c | c in cs && cs[c].free
      ensures forall d :: d in cs && cs[d].free ==> End(c, cs[c]) != d
    {
      EndAfter(c, cs[c]);
    }
  }

  lemma ApartEither(bs: map<nat, Block>, a: nat, c: nat)
    requires Apart(bs) && a in bs && c in bs
    ensures (a < c ==> End(a, bs[a]) <= c) && (c < a ==> End(c, bs[c]) <= a)
  {
  }

  lemma SplitEnds(a: nat, size: nat, n: nat)
    requires 0 < n < size
    ensures End(a + 16 * (size - n), Block(n, false)) == End(a, Block(size, true)) == End(a, Block(size, false))
    ensures End(a, Block(size - n, true)) == a + 16 * (size - n) > a
  {
  }

  lemma EndAfter(a: nat, b: Block)
    ensures a <= End(a, b)
    ensures b.size > 0 ==> a < End(a, b)
  {
  }

  lemma SplitCover(bs: map<nat, Block>, a: nat, n: nat, x: nat)
    requires Apart(bs) && a in bs && bs[a].free && 0 < n < bs[a].size
    ensures Covers(bs, true, x) <==> Covers(Split(bs, a, n), true, x)
                                     || Within(a + 16 * (bs[a].size - n), Block(n, false), x)
  {
    hide Covers, Apart;
    SplitNew(bs, a, n);
    var q := a + 16 * (bs[a].size - n);
    var cs := Split(bs, a, n);
    if Covers(bs, true, x) {
      var c := CoveredBy(bs, true, x);
      if c != a || x < q {
        Covering(cs, true, x, c);
      }
    }
    if Covers(cs, true, x) {
      var c := CoveredBy(cs, true, x);
      Covering(bs, true, x, c);
    }
    if Within(q, Block(n, false), x) {
      Covering(bs, true, x, a);
    }
  }

  function Flip(bs: map<nat, Block>, a: nat, free: bool): map<nat, Block>
    requires a in bs
  {
    bs[a := Block(bs[a].size, free)]
  }

  /** Block a changes hands as a whole. */
  lemma FlipCover(bs: map<nat, Block>, a: nat, free: bool, x: nat)
    requires a in bs
    ensures Covers(Flip(bs, a, free), free, x) <==> Covers(bs, free, x) || Within(a, bs[a], x)
  {
    hide Covers;
    var cs := Flip(bs, a, free);
    if Covers(cs, free, x) {
      var c := CoveredBy(cs, free, x);
      if c != a {
        Covering(bs, free, x, c);
      }
    }
    if Covers(bs, free, x) {
      var c := CoveredBy(bs, free, x);
      Covering(cs, free, x, c);
    }
    if Within(a, bs[a], x) {
      Covering(cs, free, x, a);
    }
  }

  lemma FlipApart(bs: map<nat, Block>, a: nat, free: bool)
    requires a in bs && Apart(bs)
    ensures Apart(Flip(bs, a, free))
  {
  }

  lemma FlipOther(bs: map<nat, Block>, a: nat, free: bool, x: nat)
    requires a in bs && bs[a].free != free && Apart(bs)
    ensures Covers(Flip(bs, a, free), !free, x) <==> Covers(bs, !free, x) && !Within(a, bs[a], x)
  {
    hide Covers, Apart;
    var cs := Flip(bs, a, free);
    if Covers(cs, !free, x) {
      var c := CoveredBy(cs, !free, x);
      Covering(bs, !free, x, c);
      ApartEither(bs, a, c);
    }
    if Covers(bs, !free, x) {
      var c := CoveredBy(bs, !free, x);
      if c != a {
        Covering(cs, !free, x, c);
      }
    }
  }

  /**
   The free blocks are determined by the free bytes: with no two free blocks touching, two layouts with
   the same free bytes have the same free blocks.
   */
  lemma FreeBlocksFromBytes(bs: map<nat, Block>, cs: map<nat, Block>, a: nat)
    requires Apart(bs) && Apart(cs) && Coalesced(bs) && Coalesced(cs) && SameCover(bs, cs, true)
    requires a in bs && bs[a].free
    ensures a in cs && cs[a] == bs[a]
  {
    SameStart(bs, cs, a);
    SameEnd(bs, cs, a);
    SameEnd(cs, bs, a);
  }

  /** The byte before a free block, and the byte behind it, are not free. */
  lemma EdgesNotFree(bs: map<nat, Block>, a: nat)
    requires Apart(bs) && Coalesced(bs) && a in bs && bs[a].free
    ensures !Covers(bs, true, End(a, bs[a]))
    ensures a > 0 ==> !Covers(bs, true, a - 1)
  {
    hide Covers;
    if Covers(bs, true, End(a, bs[a])) {
      var c := CoveredBy(bs, true, End(a, bs[a]));
      ApartEither(bs, a, c);
      assert false;
    }
    if a > 0 && Covers(bs, true, a - 1) {
      var c := CoveredBy(bs, true, a - 1);
      ApartEither(bs, a, c);
      assert false;
    }
  }

  lemma SameStart(bs: map<nat, Block>, cs: map<nat, Block>, a: nat)
    requires Apart(bs) && Apart(cs) && Coalesced(bs) && SameCover(bs, cs, true)
    requires a in bs && bs[a].free
    ensures a in cs && cs[a].free
  {
    hide Covers;
    assert Within(a, bs[a], a);
    Covering(bs, true, a, a);
    assert Covers(cs, true, a);
    var b := CoveredBy(cs, true, a);
    EdgesNotFree(bs, a);
    if a > 0 {
      assert !Covers(cs, true, a - 1);
      CoversAll(cs, b, a - 1);
    }
  }

  lemma CoversAll(bs: map<nat, Block>, a: nat, x: nat)
    requires a in bs && bs[a].free
    ensures Within(a, bs[a], x) ==> Covers(bs, true, x)
  {
  }

  lemma SameEnd(bs: map<nat, Block>, cs: map<nat, Block>, a: nat)
    requires Apart(bs) && Apart(cs) && Coalesced(bs) && SameCover(bs, cs, true)
    requires a in bs && a in cs && bs[a].free && cs[a].free
    ensures cs[a].size <= bs[a].size
  {
    hide Covers;
    EdgesNotFree(bs, a);
    assert !Covers(cs, true, End(a, bs[a]));
    CoversAll(cs, a, End(a, bs[a]));
  }
}

module Rings {

  /** The node after index i of a circular list. */
  function After(ring: seq<nat>, i: nat): nat
    requires i < |ring|
  {
    if i + 1 < |ring| then ring[i + 1] else ring[0]
  }

  ghost predicate Ascending(ring: seq<nat>) { forall i, j :: 0 <= i < j < |ring| ==> ring[i] < ring[j] }

  function Insert(ring: seq<nat>, j: nat, a: nat): seq<nat>
    requires j < |ring|
  {
    ring[..j + 1] + [a] + ring[j + 1..]
  }

  function Remove(ring: seq<nat>, j: nat): seq<nat>
    requires j < |ring|
  {
    ring[..j] + ring[j + 1..]
  }

  /** ptr links the ring. */
  ghost predicate Links(ptr: map<nat, nat>, ring: seq<nat>) {
    forall i :: 0 <= i < |ring| ==> ring[i] in ptr && ptr[ring[i]] == After(ring, i)
  }

  lemma InsertAt(ring: seq<nat>, j: nat, a: nat)
    requires j < |ring|
    ensures |Insert(ring, j, a)| == |ring| + 1
    ensures forall i {:trigger Insert(ring, j, a)[i]} :: 0 <= i < |ring| + 1 ==>
        Insert(ring, j, a)[i] == if i <= j then ring[i] else if i == j + 1 then a else ring[i - 1]
  {
  }

  lemma RemoveAt(ring: seq<nat>, j: nat)
    requires j < |ring|
    ensures |Remove(ring, j)| == |ring| - 1
    ensures forall i {:trigger Remove(ring, j)[i]} :: 0 <= i < |ring| - 1 ==>
        Remove(ring, j)[i] == if i < j then ring[i] else ring[i + 1]
  {
  }

  lemma InsertAscends(ring: seq<nat>, j: nat, a: nat)
    requires Ascending(ring) && j < |ring| && ring[j] < a && (j + 1 < |ring| ==> a < ring[j + 1])
    ensures Ascending(Insert(ring, j, a)) && forall x :: x in Insert(ring, j, a) <==> x in ring || x == a
  {
    var t := Insert(ring, j, a);
    assert forall i :: 0 <= i < |t| ==> t[i] == if i <= j then ring[i] else if i == j + 1 then a else ring[i - 1];
    forall x
      ensures x in t <==> x in ring || x == a
    {
      if x in ring {
        var i :| 0 <= i < |ring| && ring[i] == x;
        assert x == t[if i <= j then i else i + 1];
      }
      assert t[j + 1] == a;
    }
  }

  lemma RemoveAscends(ring: seq<nat>, j: nat)
    requires Ascending(ring) && j < |ring|
    ensures Ascending(Remove(ring, j)) && forall x :: x in Remove(ring, j) <==> x in ring && x != ring[j]
  {
    var t := Remove(ring, j);
    assert forall i :: 0 <= i < |t| ==> t[i] == if i < j then ring[i] else ring[i + 1];
    forall x
      ensures x in t <==> x in ring && x != ring[j]
    {
      if x in ring && x != ring[j] {
        var i :| 0 <= i < |ring| && ring[i] == x;
        assert x == t[if i < j then i else i - 1];
      }
    }
  }

  lemma InsertLinks(ptr: map<nat, nat>, ring: seq<nat>, j: nat, a: nat, ptr': map<nat, nat>)
    requires Links(ptr, ring) && Ascending(ring) && j < |ring| && a !in ring
    requires forall x :: x in ring && x != ring[j] ==> x in ptr' && ptr'[x] == ptr[x]
    requires a in ptr' && ptr'[a] == After(ring, j) && ring[j] in ptr' && ptr'[ring[j]] == a
    ensures Links(ptr', Insert(ring, j, a))
  {
    var t := Insert(ring, j, a);
    hide Insert;
    InsertAt(ring, j, a);
    forall i | 0 <= i < |t|
      ensures t[i] in ptr' && ptr'[t[i]] == After(t, i)
    {
      if i < j {
        assert ring[i] in ring && ring[i] < ring[j];
      } else if i > j + 1 {
        assert ring[i - 1] in ring && ring[j] < ring[i - 1];
      }
    }
  }

  lemma RemoveLinks(ptr: map<nat, nat>, ring: seq<nat>, j: nat, ptr': map<nat, nat>)
    requires Links(ptr, ring) && Ascending(ring) && 0 < j < |ring|
    requires forall x :: x in ring && x != ring[j] && x != ring[j - 1] ==> x in ptr' && ptr'[x] == ptr[x]
    requires ring[j - 1] in ptr' && ptr'[ring[j - 1]] == After(ring, j)
    ensures Links(ptr', Remove(ring, j))
  {
    var t := Remove(ring, j);
    forall i | 0 <= i < |t|
      ensures t[i] in ptr' && ptr'[t[i]] == After(t, i)
    {
      if i < j - 1 {
        assert t[i] == ring[i] && t[i + 1] == ring[i + 1];
      } else if i > j - 1 {
        assert t[i] == ring[i + 1];
        assert i + 1 < |t| ==> t[i + 1] == ring[i + 2];
      }
    }
  }
}

module FreeList {
  import opened Blocks
  import opened Rings

  /** ring is the circular list from its lowest node, base: base, which is no block, and the free blocks. */
  ghost predicate Listed(base: nat, ring: seq<nat>, bs: map<nat, Block>) {
    && |ring| > 0 && ring[0] == base && Ascending(ring)
    && (forall a :: (a in ring && a != base) <==> (a in bs && bs[a].free))
  }

  ghost predicate Sized(size: map<nat, nat>, bs: map<nat, Block>) {
    forall a :: a in bs ==> a in size && size[a] == bs[a].size
  }

  ghost predicate Bounded(base: nat, brk: nat, bs: map<nat, Block>) {
    forall a :: a in bs ==> base < a && End(a, bs[a]) <= brk
  }

  /** The node after which address bp belongs. */
  ghost predicate Precedes(ring: seq<nat>, j: nat, bp: nat) {
    j < |ring| && ring[j] < bp && (j + 1 < |ring| ==> bp < ring[j + 1])
  }

  lemma {:induction false} FindPlace(ring: seq<nat>, bp: nat) returns (j: nat)
    requires Ascending(ring) && |ring| > 0 && ring[0] < bp && bp !in ring
    ensures Precedes(ring, j, bp)
  {
    if ring[|ring| - 1] < bp {
      j := |ring| - 1;
    } else {
      assert ring[|ring| - 1] in ring;
      j := FindPlace(ring[..|ring| - 1], bp);
    }
  }

  /** The test that ends free's search, at node k. */
  predicate Stops(p: nat, next: nat, bp: nat) {
    (bp > p && bp < next) || (p >= next && (bp > p || bp < next))
  }

  lemma StopsThere(ring: seq<nat>, j: nat, bp: nat, k: nat)
    requires Ascending(ring) && Precedes(ring, j, bp) && k < |ring| && bp !in ring && ring[0] < bp
    ensures Stops(ring[k], After(ring, k), bp) <==> k == j
  {
    assert ring[k] in ring && ring[j] in ring;
  }

  // ----- free: the block goes in after node j, joined to its neighbours where they touch -----

  datatype Headers = Headers(ptr: map<nat, nat>, size: map<nat, nat>)

  /** Addition of the 32-bit size fields. */
  function Plus(a: nat, b: nat): nat { (a + b) % 0x1_0000_0000 }

  /** free's writes, once the search has stopped at p. */
  function LinkIn(h: Headers, p: nat, bp: nat): Headers
    requires p in h.ptr && p in h.size && bp in h.size
        && (bp + 16 * h.size[bp] == h.ptr[p] ==> h.ptr[p] in h.ptr && h.ptr[p] in h.size)
  {
    var next := h.ptr[p];
    var h1 := if bp + 16 * h.size[bp] == next
              then Headers(h.ptr[bp := h.ptr[next]], h.size[bp := Plus(h.size[bp], h.size[next])])
              else Headers(h.ptr[bp := next], h.size);
    if p + 16 * h1.size[p] == bp
    then Headers(h1.ptr[p := h1.ptr[bp]], h1.size[p := Plus(h1.size[p], h1.size[bp])])
    else Headers(h1.ptr[p := bp], h1.size)
  }

  function FreedRing(ring: seq<nat>, j: nat, bp: nat, up: bool, down: bool): seq<nat>
    requires j < |ring| && (up ==> j + 1 < |ring|)
  {
    var r := if up then Remove(ring, j + 1) else ring;
    if down then r else Insert(r, j, bp)
  }

  function FreedBlocks(bs: map<nat, Block>, p: nat, next: nat, bp: nat, up: bool, down: bool): map<nat, Block>
    requires bp in bs && (up ==> next in bs && next != bp) && (down ==> p in bs && p != bp && p != next)
  {
    JoinIf(JoinIf(Flip(bs, bp, true), bp, next, up), p, bp, down)
  }

  lemma FreedLinks(h: Headers, ring: seq<nat>, j: nat, bp: nat)
    requires Links(h.ptr, ring) && Ascending(ring) && Precedes(ring, j, bp) && bp !in ring && bp in h.size
        && |ring| > 0 && ring[0] < bp
    requires forall a :: a in ring ==> a in h.size
    requires bp + 16 * h.size[bp] == After(ring, j) ==> j + 1 < |ring|
    ensures var up, down := bp + 16 * h.size[bp] == After(ring, j), ring[j] + 16 * h.size[ring[j]] == bp;
            var p := ring[j];
            p in h.ptr && p in h.size && (up ==> h.ptr[p] in h.ptr && h.ptr[p] in h.size) &&
            Links(LinkIn(h, p, bp).ptr, FreedRing(ring, j, bp, up, down))
  {
    hide Links, Insert, Remove;
    var p, next := ring[j], After(ring, j);
    var up, down := bp + 16 * h.size[bp] == next, p + 16 * h.size[p] == bp;
    LinkAt(h.ptr, ring, j);
    assert p in ring;
    if up {
      LinkAt(h.ptr, ring, j + 1);
      assert ring[j + 1] in ring;
      var ptr1 := h.ptr[p := After(ring, j + 1)];
      RemoveLinks(h.ptr, ring, j + 1, ptr1) by { LinksIn(h.ptr, ring); }
      RemoveAscends(ring, j + 1);
      RemoveAt(ring, j + 1);
      var r := Remove(ring, j + 1);
      if down {
        RemoveLinks(h.ptr, ring, j + 1, LinkIn(h, p, bp).ptr) by { LinksIn(h.ptr, ring); }
      } else {
        InsertLinks(ptr1, r, j, bp, LinkIn(h, p, bp).ptr) by { LinksIn(ptr1, r); }
      }
    } else if down {
      SameLinks(h.ptr, ring, LinkIn(h, p, bp).ptr, bp);
    } else {
      InsertLinks(h.ptr, ring, j, bp, LinkIn(h, p, bp).ptr) by { LinksIn(h.ptr, ring); }
    }
  }

  lemma LinkAt(ptr: map<nat, nat>, ring: seq<nat>, j: nat)
    requires Links(ptr, ring) && j < |ring|
    ensures ring[j] in ptr && ptr[ring[j]] == After(ring, j)
  {
  }

  lemma LinksIn(ptr: map<nat, nat>, ring: seq<nat>)
    requires Links(ptr, ring)
    ensures forall x :: x in ring ==> x in ptr
  {
  }

  lemma SameLinks(ptr: map<nat, nat>, ring: seq<nat>, ptr': map<nat, nat>, bp: nat)
    requires Links(ptr, ring) && bp !in ring && forall x :: x in ptr && x != bp ==> x in ptr' && ptr'[x] == ptr[x]
    ensures Links(ptr', ring)
  {
    forall i | 0 <= i < |ring|
      ensures ring[i] in ptr' && ptr'[ring[i]] == After(ring, i)
    {
      assert ring[i] in ring;
    }
  }

  /** Blocks that touch bp, once free, are its neighbours in the list. */
  lemma Neighbours(base: nat, ring: seq<nat>, bs: map<nat, Block>, j: nat, bp: nat, a: nat)
    requires Listed(base, ring, bs) && Apart(bs) && Precedes(ring, j, bp) && bp in bs && !bs[bp].free
    requires a in bs && bs[a].free
    ensures End(a, bs[a]) == bp ==> a == ring[j]
    ensures End(bp, bs[bp]) == a ==> j + 1 < |ring| && a == ring[j + 1]
  {
    assert a in ring;
    var k :| 0 <= k < |ring| && ring[k] == a;
    if k < j {
      assert ring[j] in ring && ring[0] < ring[j];
      assert End(a, bs[a]) <= ring[j];
    } else if k > j + 1 {
      assert ring[j + 1] in ring && ring[0] < ring[j + 1];
      assert End(bp, bs[bp]) <= ring[j + 1];
    }
  }

  predicate Touch(bs: map<nat, Block>, a: nat, b: nat) {
    a in bs && b in bs && bs[a].free && bs[b].free && End(a, bs[a]) == b
  }

  /** Some free block has room for n units. */
  ghost predicate HasRoom(bs: map<nat, Block>, n: nat) { exists c :: c in bs && bs[c].free && bs[c].size >= n }

  /** cs is bs with block bp freed and joined to what it touches. */
  ghost predicate FreedOk(bs: map<nat, Block>, bp: nat, cs: map<nat, Block>)
    requires bp in bs
  {
    Apart(cs) && Coalesced(cs) && SameTaken(Flip(bs, bp, true), cs) && SameCover(Flip(bs, bp, true), cs, true)
        && HasRoom(cs, bs[bp].size)
  }

  function JoinIf(bs: map<nat, Block>, a: nat, b: nat, join: bool): map<nat, Block>
    requires join ==> a in bs && b in bs
  {
    if join then Merge(bs, a, b) else bs
  }

  lemma JoinKeeps(bs: map<nat, Block>, a: nat, b: nat, join: bool, at: nat, n: nat)
    requires Apart(bs) && (join ==> Touch(bs, a, b)) && at in bs && bs[at].free && bs[at].size >= n
    ensures var cs := JoinIf(bs, a, b, join);
            && Apart(cs) && SameTaken(bs, cs) && SameCover(bs, cs, true)
            && var at' := if join && at == b then a else at; at' in cs && cs[at'].free && cs[at'].size >= n
  {
    hide Covers, Apart, SameTaken;
    if join {
      MergeApart(bs, a, b);
      MergeKeeps(bs, a, b);
    } else {
      TakenSelf(bs);
    }
  }

  lemma TakenSelf(bs: map<nat, Block>)
    ensures SameTaken(bs, bs)
  {
  }

  lemma TakenTwice(bs: map<nat, Block>, cs: map<nat, Block>, ds: map<nat, Block>)
    requires SameTaken(bs, cs) && SameTaken(cs, ds)
    ensures SameTaken(bs, ds)
  {
  }

  lemma CoverTwice(bs: map<nat, Block>, cs: map<nat, Block>, ds: map<nat, Block>)
    requires SameCover(bs, cs, true) && SameCover(cs, ds, true)
    ensures SameCover(bs, ds, true)
  {
    hide Covers;
  }

  /** The two merges leave no free blocks that touch. */
  lemma FreedCoalesced(base: nat, ring: seq<nat>, bs: map<nat, Block>, j: nat, bp: nat, up: bool, down: bool)
    requires Listed(base, ring, bs) && Apart(bs) && Coalesced(bs) && Precedes(ring, j, bp) && bp in bs
        && !bs[bp].free && base < bp && base !in bs
    requires up <==> End(bp, bs[bp]) == After(ring, j)
    requires down <==> ring[j] in bs && End(ring[j], bs[ring[j]]) == bp
    ensures up ==> j + 1 < |ring| && After(ring, j) in bs && After(ring, j) != bp
    ensures down ==> ring[j] != bp && ring[j] != After(ring, j)
    ensures FreedOk(bs, bp, FreedBlocks(bs, ring[j], After(ring, j), bp, up, down))
  {
    hide Covers, Apart, Coalesced, Listed, SameTaken, SameCover, Touch, Merge;
    var p, next := ring[j], After(ring, j);
    UpFree(base, ring, bs, j, bp);
    DownFree(base, ring, bs, j, bp);
    SizeOf(bs, bp);
    var b0 := Flip(bs, bp, true);
    FlipApart(bs, bp, true);
    OnlyNeighbours(base, ring, bs, j, bp);
    var b1 := JoinIf(b0, bp, next, up);
    TouchIs(b0, bp, next);
    JoinKeeps(b0, bp, next, up, bp, bs[bp].size);
    if up { SizeOf(bs, next); }
    TouchUp(bs, b0, b1, p, next, bp, up);
    TouchIs(b1, p, bp);
    BelowStays(b0, b1, bp, next, p, up);
    var b2 := JoinIf(b1, p, bp, down);
    JoinKeeps(b1, p, bp, down, bp, bs[bp].size);
    if down { SizeOf(bs, p); }
    TouchDown(b1, b2, p, bp, down);
    TakenTwice(b0, b1, b2);
    CoverTwice(b0, b1, b2);
  }

  lemma SizeOf(bs: map<nat, Block>, a: nat)
    requires Apart(bs) && a in bs
    ensures bs[a].size > 0
  {
  }

  lemma TouchIs(bs: map<nat, Block>, a: nat, b: nat)
    ensures Touch(bs, a, b) <==> a in bs && b in bs && bs[a].free && bs[b].free && End(a, bs[a]) == b
  {
  }

  lemma BelowStays(b0: map<nat, Block>, b1: map<nat, Block>, bp: nat, next: nat, p: nat, up: bool)
    requires up ==> bp in b0 && next in b0
    requires b1 == JoinIf(b0, bp, next, up) && p != bp && (p in b0 && up ==> p != next)
    ensures (p in b0 <==> p in b1) && (p in b0 ==> b1[p] == b0[p])
  {
  }

  lemma UpFree(base: nat, ring: seq<nat>, bs: map<nat, Block>, j: nat, bp: nat)
    requires Listed(base, ring, bs) && Apart(bs) && Precedes(ring, j, bp) && bp in bs && !bs[bp].free && base < bp
    ensures End(bp, bs[bp]) == After(ring, j) ==>
        j + 1 < |ring| && ring[j + 1] in bs && bs[ring[j + 1]].free && ring[j + 1] != bp
  {
    if End(bp, bs[bp]) == After(ring, j) {
      assert j + 1 < |ring|;
      assert ring[j + 1] in ring && ring[j + 1] != base;
    }
  }

  lemma DownFree(base: nat, ring: seq<nat>, bs: map<nat, Block>, j: nat, bp: nat)
    requires Listed(base, ring, bs) && Apart(bs) && Precedes(ring, j, bp) && bp in bs && !bs[bp].free && base < bp
        && base !in bs
    ensures ring[j] != bp
    ensures ring[j] in bs ==> bs[ring[j]].free && ring[j] != After(ring, j)
  {
    assert ring[j] in ring;
  }

  lemma OnlyNeighbours(base: nat, ring: seq<nat>, bs: map<nat, Block>, j: nat, bp: nat)
    requires Listed(base, ring, bs) && Apart(bs) && Coalesced(bs) && Precedes(ring, j, bp) && bp in bs
        && !bs[bp].free && base < bp
    ensures forall a, b :: Touch(Flip(bs, bp, true), a, b) ==>
        (a == ring[j] && b == bp) || (a == bp && b == After(ring, j))
  {
    var b0 := Flip(bs, bp, true);
    forall a, b | Touch(b0, a, b)
      ensures (a == ring[j] && b == bp) || (a == bp && b == After(ring, j))
    {
      if a != bp && b == bp {
        Neighbours(base, ring, bs, j, bp, a);
      } else if a == bp && b != bp {
        Neighbours(base, ring, bs, j, bp, b);
      }
    }
  }

  lemma TouchUp(bs: map<nat, Block>, b0: map<nat, Block>, b1: map<nat, Block>, p: nat, next: nat, bp: nat, up: bool)
    requires bp in bs && b0 == Flip(bs, bp, true) && bs[bp].size > 0 && p < bp
    requires up <==> End(bp, bs[bp]) == next
    requires up ==> next in bs && bs[next].free && next != bp && bs[next].size > 0
    requires forall a, b :: Touch(b0, a, b) ==> (a == p && b == bp) || (a == bp && b == next)
    requires b1 == JoinIf(b0, bp, next, up)
    ensures forall a, b :: Touch(b1, a, b) ==> a == p && b == bp
  {
    if up {
      MergeEnd(bp, b0[bp], b0[next]);
      forall a, b | Touch(b1, a, b)
        ensures a == p && b == bp
      {
        assert Touch(b0, if a == bp then next else a, b);
      }
    } else {
      forall a, b | Touch(b0, a, b)
        ensures a == p && b == bp
      {
        TouchIs(b0, a, b);
      }
    }
  }

  lemma TouchDown(b1: map<nat, Block>, b2: map<nat, Block>, p: nat, bp: nat, down: bool)
    requires bp in b1 && b1[bp].free && p < bp && (down ==> p in b1 && b1[p].free && b1[p].size > 0)
    requires down <==> p in b1 && b1[p].free && End(p, b1[p]) == bp
    requires forall a, b :: Touch(b1, a, b) ==> a == p && b == bp
    requires b2 == JoinIf(b1, p, bp, down)
    ensures Coalesced(b2)
  {
    if down {
      MergeEnd(p, b1[p], b1[bp]);
      forall a, b | Touch(b2, a, b)
        ensures false
      {
        assert Touch(b1, if a == p then bp else a, b);
      }
      NoTouch(b2);
    } else {
      forall a, b | Touch(b1, a, b)
        ensures false
      {
        TouchIs(b1, a, b);
      }
      NoTouch(b1);
    }
  }

  lemma NoTouch(bs: map<nat, Block>)
    requires forall a, b :: !Touch(bs, a, b)
    ensures Coalesced(bs)
  {
    forall a, b | a in bs && b in bs && bs[a].free && bs[b].free
      ensures End(a, bs[a]) != b
    {
      assert !Touch(bs, a, b);
    }
  }

  lemma FreedKeys(bs: map<nat, Block>, p: nat, next: nat, bp: nat, up: bool, down: bool, a: nat)
    requires bp in bs && (up ==> next in bs && next != bp) && (down ==> p in bs && bs[p].free && p != bp && p != next)
    ensures var cs := FreedBlocks(bs, p, next, bp, up, down);
            (a in cs && cs[a].free) <==> ((a in bs && bs[a].free && a != bp && !(up && a == next))
                || (a == bp && !down))
  {
  }

  lemma FreedAscends(ring: seq<nat>, j: nat, bp: nat, up: bool, down: bool)
    requires Ascending(ring) && Precedes(ring, j, bp) && (up ==> j + 1 < |ring|)
    ensures var t := FreedRing(ring, j, bp, up, down);
            Ascending(t) && |t| > j && t[0] == ring[0] && t[j] == ring[j]
            && forall x :: x in t <==> (x in ring && !(up && x == After(ring, j))) || (x == bp && !down)
  {
    hide Insert, Remove;
    var r := if up then Remove(ring, j + 1) else ring;
    if up {
      RemoveAscends(ring, j + 1);
      RemoveAt(ring, j + 1);
      assert j + 2 < |ring| ==> ring[j + 1] < ring[j + 2];
    }
    assert |r| > j && r[0] == ring[0] && r[j] == ring[j];
    if !down {
      InsertAscends(r, j, bp);
      InsertAt(r, j, bp);
    }
  }

  lemma FreedListed(base: nat, ring: seq<nat>, bs: map<nat, Block>, j: nat, bp: nat, up: bool, down: bool)
    requires Listed(base, ring, bs) && Precedes(ring, j, bp) && bp in bs && !bs[bp].free && base < bp && base !in bs
    requires up ==> j + 1 < |ring| && After(ring, j) in bs && bs[After(ring, j)].free && After(ring, j) != bp
    requires down ==> ring[j] in bs && bs[ring[j]].free && ring[j] != bp && ring[j] != After(ring, j)
    ensures Listed(base, FreedRing(ring, j, bp, up, down), FreedBlocks(bs, ring[j], After(ring, j), bp, up, down))
    ensures ring[j] in FreedRing(ring, j, bp, up, down)
  {
    hide FreedRing, FreedBlocks, Ascending;
    FreedAscends(ring, j, bp, up, down);
    forall a
      ensures var cs := FreedBlocks(bs, ring[j], After(ring, j), bp, up, down);
              (a in FreedRing(ring, j, bp, up, down) && a != base) <==> (a in cs && cs[a].free)
    {
      if a >= 0 {
        FreedKeys(bs, ring[j], After(ring, j), bp, up, down, a);
      }
    }
  }

  lemma FreedSize(h: Headers, bs: map<nat, Block>, p: nat, next: nat, bp: nat, up: bool, down: bool, a: nat)
    requires Sized(h.size, bs) && bp in bs && p in h.ptr && p in h.size && p != bp && next == h.ptr[p]
    requires up <==> bp + 16 * h.size[bp] == next
    requires down <==> p + 16 * h.size[p] == bp
    requires up ==> next in h.ptr && next in bs && next != bp && bs[bp].size + bs[next].size < 0x1_0000_0000
    requires down ==> p in bs && p != next
    requires a in FreedBlocks(bs, p, next, bp, up, down)
        && FreedBlocks(bs, p, next, bp, up, down)[a].size < 0x1_0000_0000
    ensures a in LinkIn(h, p, bp).size && LinkIn(h, p, bp).size[a] == FreedBlocks(bs, p, next, bp, up, down)[a].size
  {
  }

  lemma FreedSized(h: Headers, bs: map<nat, Block>, p: nat, next: nat, bp: nat, up: bool, down: bool)
    requires Sized(h.size, bs) && bp in bs && p in h.ptr && p in h.size && p != bp && next == h.ptr[p]
    requires up <==> bp + 16 * h.size[bp] == next
    requires down <==> p + 16 * h.size[p] == bp
    requires up ==> next in h.ptr && next in bs && next != bp && bs[bp].size + bs[next].size < 0x1_0000_0000
    requires down ==> p in bs && p != next
    requires forall a :: a in FreedBlocks(bs, p, next, bp, up, down) ==>
        FreedBlocks(bs, p, next, bp, up, down)[a].size < 0x1_0000_0000
    ensures Sized(LinkIn(h, p, bp).size, FreedBlocks(bs, p, next, bp, up, down))
    ensures forall a :: a in h.size && a != bp && !(down && a == p) ==>
        a in LinkIn(h, p, bp).size && LinkIn(h, p, bp).size[a] == h.size[a]
  {
    forall a | a in FreedBlocks(bs, p, next, bp, up, down)
      ensures a in LinkIn(h, p, bp).size && LinkIn(h, p, bp).size[a] == FreedBlocks(bs, p, next, bp, up, down)[a].size
    {
      FreedSize(h, bs, p, next, bp, up, down, a);
    }
    hide FreedBlocks;
  }

  lemma FreedBounded(base: nat, brk: nat, bs: map<nat, Block>, p: nat, next: nat, bp: nat, up: bool, down: bool)
    requires Bounded(base, brk, bs) && bp in bs && (up ==> next in bs && next != bp && End(bp, bs[bp]) == next)
    requires down ==> p in bs && p != bp && p != next && End(p, bs[p]) == bp
    ensures Bounded(base, brk, FreedBlocks(bs, p, next, bp, up, down))
  {
  }

  // ----- malloc: a free block is taken whole or gives its tail -----

  lemma TakeWhole(base: nat, ring: seq<nat>, bs: map<nat, Block>, k: nat)
    requires Listed(base, ring, bs) && 0 < k < |ring|
    ensures ring[k] in bs && bs[ring[k]].free
    ensures Listed(base, Remove(ring, k), Flip(bs, ring[k], false))
    ensures ring[k - 1] in Remove(ring, k)
  {
    hide Remove;
    RemoveAscends(ring, k);
    RemoveAt(ring, k);
    assert ring[k] in ring && ring[0] < ring[k];
    assert ring[k - 1] in ring && ring[k - 1] != ring[k];
    assert Remove(ring, k)[0] == base;
    var cs := Flip(bs, ring[k], false);
    assert forall a :: (a in cs && cs[a].free) <==> (a in bs && bs[a].free && a != ring[k]);
  }

  lemma TakeWholeKeeps(base: nat, brk: nat, bs: map<nat, Block>, a: nat)
    requires Apart(bs) && Coalesced(bs) && Bounded(base, brk, bs) && a in bs && bs[a].free
    ensures var cs := Flip(bs, a, false); Apart(cs) && Coalesced(cs) && Bounded(base, brk, cs)
  {
    FlipApart(bs, a, false);
    hide Apart;
  }

  lemma TakeTail(base: nat, ring: seq<nat>, bs: map<nat, Block>, a: nat, n: nat)
    requires Listed(base, ring, bs) && a in bs && bs[a].free && 0 < n < bs[a].size
    requires a + 16 * (bs[a].size - n) !in bs
    ensures Listed(base, ring, Split(bs, a, n))
  {
    hide Ascending;
  }

  lemma TakeTailBounded(base: nat, brk: nat, bs: map<nat, Block>, a: nat, n: nat)
    requires Bounded(base, brk, bs) && a in bs && 0 < n < bs[a].size
    ensures Bounded(base, brk, Split(bs, a, n))
  {
    var q := a + 16 * (bs[a].size - n);
    SplitEnds(a, bs[a].size, n);
    EndSize(a, bs[a]);
    var cs := Split(bs, a, n);
    forall c | c in cs
      ensures base < c && End(c, cs[c]) <= brk
    {
      if c == q {
      } else if c == a {
      } else {
        assert c in bs;
      }
    }
  }

  lemma EndSize(a: nat, b: Block)
    ensures End(a, b) == End(a, Block(b.size, true))
  {
  }
}

module UserAllocator {
  import opened Blocks
  import opened Rings
  import opened FreeList
  import opened Options

  /** No address reaches this, so no size field overflows. */
  const LIMIT: nat := 0x10_0000_0000

  /** The units malloc looks for: the payload rounded up, and a header. */
  function Units(nbytes: nat): nat { (nbytes + 15) / 16 + 1 }

  /** The units morecore asks for. */
  function Grain(nu: nat): nat { if nu < 4096 then 4096 else nu }

  lemma GrainIs(nu: nat)
    ensures (nu <= 4096 ==> Grain(nu) == 4096) && (nu > 4096 ==> Grain(nu) == nu)
  {
  }

  /** sbrk takes an int. */
  function AsInt(n: nat): int {
    if n % 0x1_0000_0000 < 0x8000_0000 then n % 0x1_0000_0000 else n % 0x1_0000_0000 - 0x1_0000_0000
  }

  /** A block of Units(nbytes) has room for nbytes behind its header, and no unit too many. */
  lemma UnitsFit(nbytes: nat)
    ensures 16 * (Units(nbytes) - 1) >= nbytes && (nbytes > 0 ==> 16 * (Units(nbytes) - 2) < nbytes)
  {
  }

  /** morecore asks sbrk for what it means exactly when the request is at most 0x7fffffe0 bytes. */
  lemma SbrkArgument(nbytes: nat)
    requires nbytes < 0x1_0000_0000
    ensures AsInt(16 * Grain(Units(nbytes))) == 16 * Grain(Units(nbytes)) <==> nbytes <= 0x7fff_ffe0
  {
    assert Units(nbytes) <= 0x1000_0001;
  }

  /** From node k, the steps to node j. */
  function Steps(k: nat, j: nat, n: nat): int { if k <= j then j - k else n - k + j }

  /** u steps on from node f. */
  function Ahead(f: nat, u: nat, n: nat): int { if f + u < n then f + u else f + u - n }

  lemma Fits(base: nat, brk: nat, bs: map<nat, Block>, a: nat)
    requires Bounded(base, brk, bs) && brk <= LIMIT && a in bs
    ensures bs[a].size < 0x1_0000_0000
  {
  }

  /** Block a is handed back: its bytes join the free bytes, and nobody else's block changes. */
  ghost predicate Released(bs: map<nat, Block>, a: nat, cs: map<nat, Block>) {
    && a in bs && SameTaken(Flip(bs, a, true), cs) && HasRoom(cs, bs[a].size)
    && forall x: nat :: Covers(cs, true, x) <==> Covers(bs, true, x) || Within(a, bs[a], x)
  }

  lemma FreedReleases(bs: map<nat, Block>, a: nat, cs: map<nat, Block>)
    requires a in bs && FreedOk(bs, a, cs)
    ensures Released(bs, a, cs) && Apart(cs) && Coalesced(cs)
  {
    hide Covers, Flip, Apart, Coalesced, SameTaken, HasRoom;
    forall x: nat
      ensures Covers(cs, true, x) <==> Covers(bs, true, x) || Within(a, bs[a], x)
    {
      FlipCover(bs, a, true, x);
      assert Covers(Flip(bs, a, true), true, x) <==> Covers(cs, true, x);
    }
  }

  /** New memory of n units at v joins the free bytes. */
  ghost predicate Grew(bs: map<nat, Block>, v: nat, n: nat, cs: map<nat, Block>) {
    && SameTaken(bs, cs) && HasRoom(cs, n)
    && forall x: nat :: Covers(cs, true, x) <==> Covers(bs, true, x) || Within(v, Block(n, true), x)
  }

  lemma BelowBreak(base: nat, brk: nat, bs: map<nat, Block>, v: nat)
    requires Apart(bs) && Bounded(base, brk, bs) && brk <= v
    ensures v !in bs
  {
  }

  lemma RegionApart(base: nat, brk: nat, bs: map<nat, Block>, v: nat, n: nat)
    requires Apart(bs) && Coalesced(bs) && Bounded(base, brk, bs) && brk <= v && n > 0 && v !in bs
    ensures Apart(bs[v := Block(n, false)]) && Coalesced(bs[v := Block(n, false)])
  {
    hide End;
    forall a | a in bs
      ensures End(a, bs[a]) <= v && a < v
    {
      EndAfter(a, bs[a]);
    }
    EndAfter(v, Block(n, false));
  }

  lemma NewRegion(base: nat, brk: nat, ring: seq<nat>, bs: map<nat, Block>, v: nat, n: nat)
    requires Apart(bs) && Coalesced(bs) && Bounded(base, brk, bs) && Listed(base, ring, bs) && base < brk <= v && n > 0
    ensures v !in bs && v != base
    ensures var cs := bs[v := Block(n, false)];
            Apart(cs) && Coalesced(cs) && Bounded(base, v + 16 * n, cs) && Listed(base, ring, cs)
  {
    BelowBreak(base, brk, bs, v);
    RegionApart(base, brk, bs, v, n);
    hide Apart, Coalesced, Ascending;
    var cs := bs[v := Block(n, false)];
    assert forall a :: a in bs ==> End(a, bs[a]) <= v;
  }

  lemma RegionReleased(bs: map<nat, Block>, v: nat, n: nat, cs: map<nat, Block>)
    requires v !in bs && Released(bs[v := Block(n, false)], v, cs)
    ensures Grew(bs, v, n, cs)
  {
    hide HasRoom, Covers;
    var ms := bs[v := Block(n, false)];
    forall x: nat
      ensures Covers(cs, true, x) <==> Covers(bs, true, x) || Within(v, Block(n, true), x)
    {
      assert Covers(ms, true, x) <==> Covers(bs, true, x) by {
        if Covers(ms, true, x) {
          var c := CoveredBy(ms, true, x);
          Covering(bs, true, x, c);
        }
        if Covers(bs, true, x) {
          var c := CoveredBy(bs, true, x);
          Covering(ms, true, x, c);
        }
      }
    }
    assert forall a :: (a in bs && !bs[a].free) || (a in cs && !cs[a].free) ==> a in bs && a in cs && bs[a] == cs[a];
  }

  /** n units at q were free and are handed out. */
  ghost predicate Taken(bs: map<nat, Block>, q: nat, n: nat, cs: map<nat, Block>) {
    && q in cs && cs[q] == Block(n, false) && SameTaken(bs, cs - {q}) && !(q in bs && !bs[q].free)
    && forall x: nat :: Covers(bs, true, x) <==> Covers(cs, true, x) || Within(q, Block(n, false), x)
  }

  /** q is handed out, g units at v having been added to the free memory first. */
  ghost predicate Served(bs: map<nat, Block>, v: nat, g: nat, q: nat, n: nat, cs: map<nat, Block>) {
    && q in cs && cs[q] == Block(n, false) && SameTaken(bs, cs - {q}) && !(q in bs && !bs[q].free)
    && forall x: nat :: Covers(bs, true, x) || Within(v, Block(g, true), x) <==>
        Covers(cs, true, x) || Within(q, Block(n, false), x)
  }

  lemma ServedOld(bs: map<nat, Block>, q: nat, n: nat, cs: map<nat, Block>)
    requires Taken(bs, q, n, cs)
    ensures Served(bs, 0, 0, q, n, cs)
  {
    hide Covers;
  }

  lemma ServedNew(bs: map<nat, Block>, v: nat, g: nat, ms: map<nat, Block>, q: nat, n: nat, cs: map<nat, Block>)
    requires Grew(bs, v, g, ms) && Taken(ms, q, n, cs)
    ensures Served(bs, v, g, q, n, cs)
  {
    hide Covers, HasRoom;
  }

  lemma TailTaken(bs: map<nat, Block>, a: nat, n: nat)
    requires Apart(bs) && a in bs && bs[a].free && 0 < n < bs[a].size
    ensures Taken(bs, a + 16 * (bs[a].size - n), n, Split(bs, a, n))
  {
    SplitNew(bs, a, n);
    forall x: nat
      ensures Covers(bs, true, x) <==> Covers(Split(bs, a, n), true, x)
                                       || Within(a + 16 * (bs[a].size - n), Block(n, false), x)
    {
      SplitCover(bs, a, n, x);
    }
    hide Covers, Apart;
  }

  lemma WholeTaken(bs: map<nat, Block>, a: nat)
    requires Apart(bs) && a in bs && bs[a].free
    ensures Taken(bs, a, bs[a].size, Flip(bs, a, false))
  {
    forall x: nat
      ensures Covers(bs, true, x) <==> Covers(Flip(bs, a, false), true, x) || Within(a, Block(bs[a].size, false), x)
    {
      FlipOther(bs, a, false, x);
      if Within(a, bs[a], x) {
        Covering(bs, true, x, a);
      }
    }
    hide Covers, Apart;
  }

  /** The bytes of n units at v. */
  ghost function Region(v: nat, n: nat): iset<nat> { iset x: nat | Within(v, Block(n, true), x) }

  /** Every byte of the arena is in a free block or in a block handed out, and no other byte is. */
  ghost predicate Accounted(bs: map<nat, Block>, arena: iset<nat>) {
    forall x: nat :: x in arena <==> Covers(bs, true, x) || Covers(bs, false, x)
  }

  lemma TakenCover(bs: map<nat, Block>, cs: map<nat, Block>, x: nat)
    requires SameTaken(bs, cs)
    ensures Covers(bs, false, x) <==> Covers(cs, false, x)
  {
    if Covers(bs, false, x) {
      var c := CoveredBy(bs, false, x);
      Covering(cs, false, x, c);
    }
    if Covers(cs, false, x) {
      var c := CoveredBy(cs, false, x);
      Covering(bs, false, x, c);
    }
  }

  /** Block a apart, the bytes handed out are those of the other blocks. */
  lemma TakenApartFrom(bs: map<nat, Block>, a: nat, cs: map<nat, Block>, x: nat)
    requires a in bs && !bs[a].free && forall c :: c != a ==>
        (c in cs && !cs[c].free <==> c in bs && !bs[c].free) && (c in cs && c in bs ==> cs[c] == bs[c])
    requires a in cs ==> cs[a].free
    ensures Covers(bs, false, x) <==> Covers(cs, false, x) || Within(a, bs[a], x)
  {
    if Covers(bs, false, x) {
      var c := CoveredBy(bs, false, x);
      if c != a {
        Covering(cs, false, x, c);
      }
    }
    if Covers(cs, false, x) {
      var c := CoveredBy(cs, false, x);
      Covering(bs, false, x, c);
    }
    if Within(a, bs[a], x) {
      Covering(bs, false, x, a);
    }
  }

  lemma ReleasedAccounts(bs: map<nat, Block>, a: nat, cs: map<nat, Block>, arena: iset<nat>)
    requires Released(bs, a, cs) && !bs[a].free && Accounted(bs, arena)
    ensures Accounted(cs, arena)
  {
    hide Covers, HasRoom, Within;
    forall x: nat
      ensures x in arena <==> Covers(cs, true, x) || Covers(cs, false, x)
    {
      TakenCover(Flip(bs, a, true), cs, x);
      TakenApartFrom(bs, a, Flip(bs, a, true), x);
    }
  }

  lemma TakenAccounts(bs: map<nat, Block>, q: nat, n: nat, cs: map<nat, Block>, arena: iset<nat>)
    requires Taken(bs, q, n, cs) && Accounted(bs, arena)
    ensures Accounted(cs, arena)
  {
    hide Covers, Within;
    forall x: nat
      ensures x in arena <==> Covers(cs, true, x) || Covers(cs, false, x)
    {
      TakenCover(bs, cs - {q}, x);
      TakenApartFrom(cs, q, cs - {q}, x);
    }
  }

  lemma NewAccounts(bs: map<nat, Block>, v: nat, n: nat, arena: iset<nat>)
    requires v !in bs && Accounted(bs, arena)
    ensures Accounted(bs[v := Block(n, false)], arena + Region(v, n))
  {
    hide Covers;
    var cs := bs[v := Block(n, false)];
    forall x: nat
      ensures x in arena + Region(v, n) <==> Covers(cs, true, x) || Covers(cs, false, x)
    {
      TakenApartFrom(cs, v, bs, x);
      SameFree(bs, cs, x);
    }
  }

  lemma SameFree(bs: map<nat, Block>, cs: map<nat, Block>, x: nat)
    requires forall c :: (c in cs && cs[c].free <==> c in bs && bs[c].free)
              && (c in bs && bs[c].free && c in cs ==> cs[c] == bs[c])
    ensures Covers(bs, true, x) <==> Covers(cs, true, x)
  {
    if Covers(bs, true, x) {
      var c := CoveredBy(bs, true, x);
      Covering(cs, true, x, c);
    }
    if Covers(cs, true, x) {
      var c := CoveredBy(cs, true, x);
      Covering(bs, true, x, c);
    }
  }

  class Allocator {
    const base: nat
    var mem: Headers
    var freep: nat
    ghost var blocks: map<nat, Block>
    ghost var ring: seq<nat>
    ghost var brk: nat
    ghost var arena: iset<nat>  // every byte that sbrk has given

    ghost predicate Valid()
      reads this
    {
      && Accounted(blocks, arena)
      && 0 < base < brk <= LIMIT
      && Apart(blocks) && Coalesced(blocks) && Bounded(base, brk, blocks) && Sized(mem.size, blocks)
      && (freep == 0 ==> blocks == map[])
      && (freep != 0 ==> Listed(base, ring, blocks) && Links(mem.ptr, ring) && freep in ring && base in mem.size
                         && mem.size[base] == 0)
    }

    constructor (base: nat)
      requires 0 < base && base + 16 < LIMIT
      ensures Valid() && this.base == base && blocks == map[] && arena == iset{}
    {
      this.base := base;
      mem := Headers(map[], map[]);
      freep := 0;
      blocks := map[];
      ring := [];
      brk := base + 16;
      arena := iset{};
    }

    /** free's search: it ends, within one lap, at the node the block belongs behind. */
    method Search(bp: nat) returns (p: nat, ghost j: nat)
      requires Valid() && freep != 0 && base < bp && bp !in ring
      ensures j < |ring| && Precedes(ring, j, bp) && p == ring[j]
    {
      hide Listed, Links, Apart, Coalesced, Bounded, Sized, Precedes, Accounted;
      p := freep;
      j := Place(bp);
      ghost var k: nat := IndexOf(ring, freep);
      while true
        invariant k < |ring| && p == ring[k]
        decreases Steps(k, j, |ring|)
      {
        NextIn(k);
        StopsHere(j, bp, k);
        if bp > p && bp < mem.ptr[p] {
          break;
        }
        if p >= mem.ptr[p] && (bp > p || bp < mem.ptr[p]) {
          break;
        }
        p := mem.ptr[p];
        k := if k + 1 < |ring| then k + 1 else 0;
      }
    }

    ghost method Place(bp: nat) returns (j: nat)
      requires Valid() && freep != 0 && base < bp && bp !in ring
      ensures Precedes(ring, j, bp) && j < |ring|
    {
      j := FindPlace(ring, bp);
    }

    lemma NextIn(k: nat)
      requires Valid() && freep != 0 && k < |ring|
      ensures ring[k] in mem.ptr && mem.ptr[ring[k]] == After(ring, k)
    {
      LinkAt(mem.ptr, ring, k);
    }

    lemma StopsHere(j: nat, bp: nat, k: nat)
      requires Valid() && freep != 0 && base < bp && bp !in ring && Precedes(ring, j, bp) && k < |ring|
      ensures j < |ring|
      ensures Stops(ring[k], After(ring, k), bp) <==> k == j
    {
      StopsThere(ring, j, bp, k);
    }

    /** What free does to the headers, the list and the blocks keeps them in step. */
    lemma FreeKeeps(j: nat, bp: nat)
      requires Valid() && freep != 0 && bp in blocks && !blocks[bp].free && Precedes(ring, j, bp) && j < |ring|
      ensures ring[j] in mem.ptr && ring[j] in mem.size && bp in mem.size
      ensures mem.ptr[ring[j]] == After(ring, j)
      ensures ring[j] != bp && ring[j] > 0
      ensures
        var p, next := ring[j], After(ring, j);
        var up, down := bp + 16 * mem.size[bp] == next, p + 16 * mem.size[p] == bp;
        && (up ==> next in mem.ptr && next in mem.size && next in blocks && next != bp && j + 1 < |ring|)
        && (down ==> p in blocks && p != next)
        && FreedOk(blocks, bp, FreedBlocks(blocks, p, next, bp, up, down))
        && Bounded(base, brk, FreedBlocks(blocks, p, next, bp, up, down))
        && Listed(base, FreedRing(ring, j, bp, up, down), FreedBlocks(blocks, p, next, bp, up, down))
        && p in FreedRing(ring, j, bp, up, down)
        && Links(LinkIn(mem, p, bp).ptr, FreedRing(ring, j, bp, up, down))
        && Sized(LinkIn(mem, p, bp).size, FreedBlocks(blocks, p, next, bp, up, down))
        && base in LinkIn(mem, p, bp).size && LinkIn(mem, p, bp).size[base] == 0
    {
      hide Links, Coalesced, FreedOk, FreedBlocks, FreedRing, LinkIn, Precedes, Apart;
      var p, next := ring[j], After(ring, j);
      var up, down := bp + 16 * mem.size[bp] == next, p + 16 * mem.size[p] == bp;
      assert p in ring && bp !in ring && base < bp && base !in blocks;
      assert |ring| > 0 && ring[0] == base && Ascending(ring);
      LinkAt(mem.ptr, ring, j);
      RingSized();
      PlaceBelow(ring, j, bp);
      assert down ==> p in blocks && blocks[p].free;
      assert down <==> p in blocks && End(p, blocks[p]) == bp;
      UpFree(base, ring, blocks, j, bp);
      DownFree(base, ring, blocks, j, bp);
      FreedCoalesced(base, ring, blocks, j, bp, up, down);
      if up {
        LinkAt(mem.ptr, ring, j + 1);
        Fits(base, brk, blocks, next);
      }
      FreedBounded(base, brk, blocks, p, next, bp, up, down);
      FreedListed(base, ring, blocks, j, bp, up, down);
      FreedLinks(mem, ring, j, bp);
      forall a | a in FreedBlocks(blocks, p, next, bp, up, down)
        ensures FreedBlocks(blocks, p, next, bp, up, down)[a].size < 0x1_0000_0000
      {
        Fits(base, brk, FreedBlocks(blocks, p, next, bp, up, down), a);
      }
      FreedSized(mem, blocks, p, next, bp, up, down);
    }

    lemma TakenApart(bp: nat)
      requires Valid() && bp in blocks && !blocks[bp].free
      ensures freep != 0 && base < bp && bp !in ring
    {
    }

    lemma RingSized()
      requires Valid() && freep != 0
      ensures forall a :: a in ring ==> a in mem.size
    {
      hide Links, Coalesced, Apart, Ascending;
      forall a | a in ring
        ensures a in mem.size
      {
        if a != base {
          assert a in blocks;
        }
      }
    }

    method Free(ap: nat)
      requires Valid() && ap >= 16 && ap - 16 in blocks && !blocks[ap - 16].free
      modifies this
      ensures Valid() && brk == old(brk) && freep != 0 && arena == old(arena)
      ensures Released(old(blocks), ap - 16, blocks)
    {
      hide Listed, Links, Apart, Coalesced, Bounded, Sized, Precedes, FreedBlocks, FreedRing, FreedOk, Released,
          Accounted;
      var bp := ap - 16;
      TakenApart(bp);
      ghost var j: nat;
      var p;
      p, j := Search(bp);
      FreeKeeps(j, bp);
      ghost var next := After(ring, j);
      ghost var up, down := bp + 16 * mem.size[bp] == next, p + 16 * mem.size[p] == bp;
      ghost var was := blocks;
      blocks := FreedBlocks(blocks, p, next, bp, up, down);
      ring := FreedRing(ring, j, bp, up, down);
      ghost var h := mem;
      if bp + 16 * mem.size[bp] == mem.ptr[p] {
        var n := mem.ptr[p];
        mem := mem.(size := mem.size[bp := Plus(mem.size[bp], mem.size[n])], ptr := mem.ptr[bp := mem.ptr[n]]);
      } else {
        mem := mem.(ptr := mem.ptr[bp := mem.ptr[p]]);
      }
      if p + 16 * mem.size[p] == bp {
        mem := mem.(size := mem.size[p := Plus(mem.size[p], mem.size[bp])], ptr := mem.ptr[p := mem.ptr[bp]]);
      } else {
        mem := mem.(ptr := mem.ptr[p := bp]);
      }
      freep := p;
      assert mem == LinkIn(h, p, bp);
      FreedReleases(was, bp, blocks);
      ReleasedAccounts(was, bp, blocks, arena);
    }

    /**
     morecore; sbrk is what the kernel answers: an address at or above all memory obtained before, or -1. wrong: the
     kernel is asked for something else, and the model stops there.
     */
    method Morecore(nunits: nat, sbrk: Option<nat>) returns (p: nat, wrong: bool)
      requires Valid() && freep != 0 && nunits > 0
      requires sbrk.Some? ==> brk <= sbrk.value && sbrk.value + 16 * Grain(nunits) <= LIMIT
      modifies this
      ensures Valid() && freep != 0
      ensures wrong <==> AsInt(16 * Grain(nunits)) != 16 * Grain(nunits)
      ensures sbrk.None? || wrong ==> p == 0 && blocks == old(blocks) && arena == old(arena) && brk == old(brk)
      ensures sbrk.Some? && !wrong ==>
                p == freep && Grew(old(blocks), sbrk.value, Grain(nunits), blocks)
                && arena == old(arena) + Region(sbrk.value, Grain(nunits))
    {
      hide Listed, Links, Apart, Coalesced, Bounded, Sized, Released, Grew, Accounted;
      var nu := if nunits < 4096 then 4096 else nunits;
      wrong := AsInt(16 * nu) != 16 * nu;
      if wrong || sbrk.None? {
        return 0, wrong;
      }
      var hp := sbrk.value;
      NewRegion(base, brk, ring, blocks, hp, nu);
      ghost var was := blocks;
      SizedNew(mem.size, blocks, hp, nu);
      mem := mem.(size := mem.size[hp := nu]);
      NewAccounts(blocks, hp, nu, arena);
      blocks := blocks[hp := Block(nu, false)];
      arena := arena + Region(hp, nu);
      brk := hp + 16 * nu;
      Free(hp + 16);
      RegionReleased(was, hp, nu, blocks);
      p := freep;
    }

    /** Takes n units from node k. */
    method Take(prevp: nat, p: nat, n: nat, ghost k: nat) returns (q: nat)
      requires Valid() && freep != 0 && 0 < k < |ring| && ring[k - 1] == prevp && ring[k] == p && p in mem.size
          && mem.size[p] >= n > 0
      modifies this
      ensures Valid() && brk == old(brk) && freep != 0 && q > 0 && arena == old(arena)
      ensures Taken(old(blocks), q, n, blocks)
    {
      hide Listed, Links, Apart, Coalesced, Bounded, Sized, Taken, Flip, Split, Accounted;
      ListedAt(base, ring, blocks, k);
      NextIn(k);
      NextIn(k - 1);
      SizedAt(mem.size, blocks, p);
      if mem.size[p] == n {
        TakeWhole(base, ring, blocks, k);
        TakeWholeKeeps(base, brk, blocks, p);
        WholeTaken(blocks, p);
        RemoveLinks(mem.ptr, ring, k, mem.ptr[prevp := mem.ptr[p]]) by { LinksIn(mem.ptr, ring); ListedAscends(base,
            ring, blocks); }
        SizedFlip(mem.size, blocks, p, false);
        mem := mem.(ptr := mem.ptr[prevp := mem.ptr[p]]);
        blocks := Flip(blocks, p, false);
        ring := Remove(ring, k);
        q := p;
      } else {
        ghost var was := mem.size;
        SplitApart(blocks, p, n);
        SplitNew(blocks, p, n);
        TakeTail(base, ring, blocks, p, n);
        TakeTailBounded(base, brk, blocks, p, n);
        TailTaken(blocks, p, n);
        BaseApart(base, brk, blocks, p, n);
        mem := mem.(size := mem.size[p := mem.size[p] - n]);
        q := p + 16 * mem.size[p];
        mem := mem.(size := mem.size[q := n]);
        SizedSplit(was, blocks, p, n);
        blocks := Split(blocks, p, n);
      }
      freep := prevp;
      RingBase(base, ring, blocks, prevp);
      TakenAccounts(old(blocks), q, n, blocks, arena);
    }

    /** From the node after freep, at index f, malloc has passed v nodes, all of fewer than n units. */
    ghost predicate Seen(f: nat, v: nat, n: nat)
      reads this
    {
      && f < |ring| && v < |ring| && ring[f] == freep && (forall a :: a in ring ==> a in mem.size)
      && (forall u :: 1 <= u <= v ==> mem.size[ring[Ahead(f, u, |ring|)]] < n)
    }

    lemma SeenNone(n: nat) returns (f: nat)
      requires Valid() && freep != 0
      ensures Seen(f, 0, n) && f < |ring| && ring[f] == freep && freep in mem.ptr
          && mem.ptr[freep] == ring[Ahead(f, 1, |ring|)]
    {
      f := IndexOf(ring, freep);
      RingSized();
      NextIn(f);
    }

    lemma SeenAt(f: nat, v: nat, n: nat)
      requires Valid() && freep != 0 && Seen(f, v, n)
      ensures f < |ring| && v < |ring| && |ring| > 0
      ensures ring[Ahead(f, v + 1, |ring|)] in mem.size && ring[Ahead(f, v + 1, |ring|)] in ring
      ensures ring[Ahead(f, v + 1, |ring|)] == freep <==> v + 1 == |ring|
    {
      LapDone(f, v);
    }

    lemma SeenNext(f: nat, v: nat, n: nat)
      requires Valid() && freep != 0 && Seen(f, v, n) && v + 1 < |ring|
      requires f < |ring| && ring[Ahead(f, v + 1, |ring|)] in mem.size && mem.size[ring[Ahead(f, v + 1, |ring|)]] < n
      ensures Seen(f, v + 1, n)
      ensures var p := ring[Ahead(f, v + 1, |ring|)]; p in mem.ptr && mem.ptr[p] == ring[Ahead(f, v + 2, |ring|)]
    {
      AllSmallNext(f, v, n);
      NextIn(Ahead(f, v + 1, |ring|));
    }

    lemma AllSmallNext(f: nat, v: nat, n: nat)
      requires Valid() && freep != 0 && Seen(f, v, n)
      requires mem.size[ring[Ahead(f, v + 1, |ring|)]] < n
      ensures forall u :: 1 <= u <= v + 1 ==> mem.size[ring[Ahead(f, u, |ring|)]] < n
    {
    }

    /** After a whole lap there is no room. */
    lemma AllSmall(f: nat, v: nat, n: nat)
      requires Valid() && freep != 0 && Seen(f, v, n) && v + 1 == |ring|
      requires mem.size[ring[Ahead(f, v + 1, |ring|)]] < n
      ensures !HasRoom(blocks, n)
    {
      hide Links, Apart, Coalesced;
      AllSmallNext(f, v, n);
      forall c | c in blocks && blocks[c].free
        ensures blocks[c].size < n
      {
        assert c in ring;
        var i :| 0 <= i < |ring| && ring[i] == c;
        assert Ahead(f, if i > f then i - f else |ring| - f + i, |ring|) == i;
      }
    }

    /** The first call makes base a circle of its own, of size 0. */
    method First()
      requires Valid() && freep == 0
      modifies this
      ensures Valid() && freep != 0 && blocks == old(blocks) && brk == old(brk) && arena == old(arena)
    {
      hide Listed, Links, Sized, Accounted;
      mem := Headers(mem.ptr[base := base], mem.size[base := 0]);
      freep := base;
      ring := [base];
      FirstRing(base, mem.ptr);
      StillSized(mem.size);
    }

    /** Node p, the next one, has room. */
    method Found(prevp: nat, p: nat, n: nat, ghost f: nat, ghost v: nat) returns (q: nat)
      requires Valid() && freep != 0 && Seen(f, v, n) && n > 0
      requires prevp == ring[Ahead(f, v, |ring|)] && p == ring[Ahead(f, v + 1, |ring|)] && p in mem.size
          && mem.size[p] >= n
      modifies this
      ensures Valid() && brk == old(brk) && freep != 0 && q > 0 && arena == old(arena)
      ensures Taken(old(blocks), q, n, blocks) && HasRoom(old(blocks), n)
    {
      hide Listed, Links, Apart, Coalesced, Bounded, Sized, Taken, HasRoom, Accounted;
      BaseFirst();
      RoomAt(Ahead(f, v + 1, |ring|), n);
      q := Take(prevp, p, n, Ahead(f, v + 1, |ring|));
    }

    /**
     malloc. sbrk is the answer of the kernel, should it be asked; it is asked at most once. 0 means failure. wrong:
     the number that the kernel is asked for is not the one that was meant, and the model stops there.
     */
    method Malloc(nbytes: nat, sbrk: Option<nat>) returns (ap: nat, wrong: bool, ghost grew: bool)
      requires Valid() && nbytes < 0x1_0000_0000
      requires sbrk.Some? ==> brk <= sbrk.value && sbrk.value + 16 * Grain(Units(nbytes)) <= LIMIT
      modifies this
      ensures Valid() && freep != 0
      ensures wrong <==> !HasRoom(old(blocks), Units(nbytes)) && nbytes > 0x7fff_ffe0
      ensures grew <==> !HasRoom(old(blocks), Units(nbytes)) && sbrk.Some? && !wrong
      ensures ap == 0 <==> !HasRoom(old(blocks), Units(nbytes)) && (sbrk.None? || wrong)
      ensures ap == 0 ==> blocks == old(blocks)
      ensures arena == if grew then old(arena) + Region(sbrk.value, Grain(Units(nbytes))) else old(arena)
      ensures ap != 0 ==> ap > 16 && Served(old(blocks), if grew then sbrk.value
          else 0, if grew then Grain(Units(nbytes)) else 0, ap - 16, Units(nbytes), blocks)
    {
      hide Listed, Links, Apart, Coalesced, Bounded, Sized, Served, Grew, Taken, HasRoom, Seen, Accounted;
      var nunits := (nbytes + 15) / 16 + 1;
      if freep == 0 {
        First();
      }
      var prevp := freep;
      grew, wrong := false, false;
      ghost var v: nat := 0;
      ghost var f: nat := SeenNone(nunits);
      var p := mem.ptr[prevp];
      while true
        invariant Valid() && freep != 0 && Seen(f, v, nunits) && f < |ring| && v < |ring|
        invariant prevp == ring[Ahead(f, v, |ring|)] && p == ring[Ahead(f, v + 1, |ring|)]
        invariant grew ==> sbrk.Some? && Grew(old(blocks), sbrk.value, Grain(nunits), blocks)
                           && HasRoom(blocks, nunits) && !HasRoom(old(blocks), nunits)
        invariant (!grew ==> blocks == old(blocks) && brk == old(brk)) && !wrong && (grew ==> nbytes <= 0x7fff_ffe0)
        invariant arena == if grew then old(arena) + Region(sbrk.value, Grain(nunits)) else old(arena)
        decreases if grew then 0 else 1, |ring| - v
      {
        SeenAt(f, v, nunits);
        if mem.size[p] >= nunits {
          ghost var was := blocks;
          var q := Found(prevp, p, nunits, f, v);
          ap := q + 16;
          if grew {
            ServedNew(old(blocks), sbrk.value, Grain(nunits), was, q, nunits, blocks);
          } else {
            ServedOld(old(blocks), q, nunits, blocks);
          }
          return;
        }
        if p == freep {
          AllSmall(f, v, nunits);
          SbrkArgument(nbytes);
          p, wrong := Morecore(nunits, sbrk);
          if p == 0 {
            return 0, wrong, false;
          }
          grew := true;
          RoomGrows(old(blocks), sbrk.value, Grain(nunits), blocks, nunits);
          f := SeenNone(nunits);
          v := 0;
        } else {
          SeenNext(f, v, nunits);
          v := v + 1;
        }
        prevp := p;
        p := mem.ptr[p];
      }
    }

    lemma BaseFirst()
      requires Valid() && freep != 0
      ensures |ring| > 0 && ring[0] == base && base in mem.size && mem.size[base] == 0
    {
    }

    lemma RoomAt(k: nat, n: nat)
      requires Valid() && freep != 0 && 0 < k < |ring| && ring[k] in mem.size && mem.size[ring[k]] >= n
      ensures HasRoom(blocks, n)
    {
      ListedAt(base, ring, blocks, k);
    }

    lemma LapDone(f: nat, v: nat)
      requires Valid() && freep != 0 && f < |ring| && v < |ring| && ring[f] == freep
      ensures ring[Ahead(f, v + 1, |ring|)] == freep <==> v + 1 == |ring|
    {
      ListedAscends(base, ring, blocks);
    }
  }

  lemma FirstRing(base: nat, ptr: map<nat, nat>)
    requires base in ptr && ptr[base] == base
    ensures Listed(base, [base], map[]) && Links(ptr, [base])
  {
  }

  lemma StillSized(size: map<nat, nat>)
    ensures Sized(size, map[])
  {
  }

  lemma RoomGrows(bs: map<nat, Block>, v: nat, g: nat, cs: map<nat, Block>, n: nat)
    requires Grew(bs, v, g, cs) && n <= g
    ensures HasRoom(cs, n)
  {
    assert HasRoom(cs, g);
  }

  lemma SizedNew(size: map<nat, nat>, bs: map<nat, Block>, v: nat, n: nat)
    requires Sized(size, bs) && v !in bs
    ensures Sized(size[v := n], bs[v := Block(n, false)])
  {
  }

  lemma SizedAt(size: map<nat, nat>, bs: map<nat, Block>, a: nat)
    requires Sized(size, bs) && a in bs
    ensures a in size && size[a] == bs[a].size
  {
  }

  lemma SizedFlip(size: map<nat, nat>, bs: map<nat, Block>, a: nat, free: bool)
    requires Sized(size, bs) && a in bs
    ensures Sized(size, Flip(bs, a, free))
  {
  }

  lemma SizedSplit(size: map<nat, nat>, bs: map<nat, Block>, a: nat, n: nat)
    requires Sized(size, bs) && a in bs && n < bs[a].size && a + 16 * (bs[a].size - n) !in bs
    ensures a in size && size[a] == bs[a].size
    ensures Sized(size[a := size[a] - n][a + 16 * (size[a] - n) := n], Split(bs, a, n))
  {
  }

  lemma ListedAt(base: nat, ring: seq<nat>, bs: map<nat, Block>, k: nat)
    requires Listed(base, ring, bs) && 0 < k < |ring|
    ensures ring[k] in bs && bs[ring[k]].free && ring[k] > base
  {
    assert ring[k] in ring && ring[0] < ring[k];
  }

  lemma ListedAscends(base: nat, ring: seq<nat>, bs: map<nat, Block>)
    requires Listed(base, ring, bs)
    ensures Ascending(ring)
  {
  }

  lemma RingBase(base: nat, ring: seq<nat>, bs: map<nat, Block>, a: nat)
    requires Listed(base, ring, bs) && a in ring
    ensures a >= base
  {
  }

  lemma BaseApart(base: nat, brk: nat, bs: map<nat, Block>, a: nat, n: nat)
    requires Bounded(base, brk, bs) && a in bs && n < bs[a].size
    ensures a > base && a + 16 * (bs[a].size - n) > base
  {
  }

  lemma PlaceBelow(ring: seq<nat>, j: nat, bp: nat)
    requires Precedes(ring, j, bp)
    ensures j < |ring| && ring[j] < bp
  {
  }

  lemma IndexOf(ring: seq<nat>, x: nat) returns (k: nat)
    requires x in ring
    ensures k < |ring| && ring[k] == x
  {
    k :| 0 <= k < |ring| && ring[k] == x;
  }

  /** free undoes malloc: without new memory from the kernel, the very same blocks are there again. */
  lemma FreeUndoesMalloc(bs: map<nat, Block>, q: nat, n: nat, ms: map<nat, Block>, cs: map<nat, Block>)
    requires Apart(bs) && Coalesced(bs) && Apart(cs) && Coalesced(cs)
    requires Served(bs, 0, 0, q, n, ms) && Released(ms, q, cs)
    ensures cs == bs
  {
    hide Covers, Apart, Coalesced, HasRoom;
    assert SameCover(bs, cs, true);
    assert SameCover(cs, bs, true);
    forall a: nat
      ensures (a in bs <==> a in cs) && (a in bs ==> bs[a] == cs[a])
    {
      if a in bs && bs[a].free {
        FreeBlocksFromBytes(bs, cs, a);
      } else if a in cs && cs[a].free {
        FreeBlocksFromBytes(cs, bs, a);
      } else {
        StaysTaken(Flip(ms, q, true), cs, a);
        StaysTaken(bs, ms - {q}, a);
      }
    }
  }

  lemma StaysTaken(bs: map<nat, Block>, cs: map<nat, Block>, a: nat)
    requires SameTaken(bs, cs)
    ensures (a in bs && !bs[a].free) || (a in cs && !cs[a].free) ==> a in bs && a in cs && bs[a] == cs[a]
  {
  }

  /** Blocks handed out never overlap, nor do they overlap free memory. */
  lemma HandedOutApart(bs: map<nat, Block>, a: nat, b: nat, x: nat)
    requires Apart(bs) && a in bs && !bs[a].free && Within(a, bs[a], x)
    ensures !Covers(bs, true, x) && (b in bs && Within(b, bs[b], x) ==> b == a)
  {
    if Covers(bs, true, x) {
      var c := CoveredBy(bs, true, x);
      ApartEither(bs, a, c);
      assert false;
    }
    if b in bs {
      ApartEither(bs, a, b);
    }
  }
}
