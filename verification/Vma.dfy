/** A process's list of virtual memory areas: circular, doubly linked, sorted (kernel/vma.c). */
module VmaLists {
  import opened Options

  datatype Kind = Unset | Mmap | Stack

  /** struct vma; a node is known by the page it lives in. */
  datatype Node = Node(kind: Kind, perm: int, addr: nat, end: nat, sz: nat, fd: int, fOff: int, prev: nat, next: nat)

  const MMAP_START := 0x6fff_e000
  const STACK_TOP := 0x7fff_f000
  const INIT_STACK := 0x6_4000

  // ----- addresses -----

  /** PGROUNDDOWN. */
  function Down(a: nat): (r: nat)
    ensures r <= a && r % 4096 == 0
  {
    a / 4096 * 4096
  }

  /** PGROUNDUP, on 64 bits. */
  function Up(a: nat): (r: nat)
    ensures r % 4096 == 0
  {
    Down((a + 4095) % 0x1_0000_0000_0000_0000)
  }

  /** addr + sz, on 64 bits, rounded up. */
  function EndOf(addr: nat, sz: nat): nat { Up((addr + sz) % 0x1_0000_0000_0000_0000) }

  lemma UpIs(a: nat)
    requires a <= 0xffff_ffff_ffff_f000
    ensures a <= Up(a) < a + 4096
  {
  }

  lemma Small(x: nat)
    requires x <= 0xffff_ffff_ffff_f000
    ensures x % 0x1_0000_0000_0000_0000 == x
  {
  }

  lemma UpBelow(x: nat, low: nat)
    requires low % 4096 == 0 && x <= low <= 0xffff_ffff_ffff_f000
    ensures x <= Up(x) <= low
  {
    hide Up;
    UpIs(x);
    if Up(x) > low {
      Gap(Up(x), low);
    }
  }

  lemma Gap(x: nat, y: nat)
    requires x % 4096 == 0 && y % 4096 == 0 && x > y
    ensures x >= y + 4096
  {
  }

  /** The place alloc_mmap_vma picks under the lowest mapping: the new area ends at or below it, and is not empty. */
  lemma FitsUnder(low: nat, sz: nat)
    requires low % 4096 == 0 && low <= 0xffff_ffff_ffff_f000 && 0 < sz < low
    ensures var a := Down(low - sz); Down(a) == a < EndOf(a, sz) <= low && a + sz <= EndOf(a, sz)
  {
    hide Down, Up;
    var a := Down(low - sz);
    UpBelow(a + sz, low);
    Small(a + sz);
    DownTwice(low - sz);
  }

  lemma DownTwice(x: nat)
    ensures Down(Down(x)) == Down(x)
  {
  }

  // ----- the ring -----

  /** The nodes on the way round, the head first; place |ring| is the head again. */
  function At(ring: seq<nat>, i: nat): nat
    requires i <= |ring| && ring != []
  {
    if i == |ring| then ring[0] else ring[i]
  }

  ghost predicate Distinct(s: seq<nat>) { forall i, j :: 0 <= i < j < |s| ==> s[i] != s[j] }

  predicate Joined(mem: map<nat, Node>, ring: seq<nat>, i: nat) {
    i < |ring| && ring[i] in mem && At(ring, i + 1) in mem && mem[ring[i]].next == At(ring, i + 1)
        && mem[At(ring, i + 1)].prev == ring[i]
  }

  ghost predicate Linked(mem: map<nat, Node>, ring: seq<nat>) {
    ring != [] && Distinct(ring) && forall i :: 0 <= i < |ring| ==> Joined(mem, ring, i)
  }

  /** The fields that are no links. */
  predicate SameArea(a: Node, b: Node) { a.(prev := 0, next := 0) == b.(prev := 0, next := 0) }

  function Inserted(ring: seq<nat>, k: nat, x: nat): seq<nat>
    requires k <= |ring|
  {
    ring[..k] + [x] + ring[k..]
  }

  /** Node x is linked in between f and the node in front of it. */
  function Insert(mem: map<nat, Node>, f: nat, x: nat): map<nat, Node>
    requires f in mem && mem[f].prev in mem && x in mem
  {
    var p := mem[f].prev;
    var m1 := mem[x := mem[x].(prev := p, next := f)];
    var m2 := m1[p := m1[p].(next := x)];
    m2[f := m2[f].(prev := x)]
  }

  lemma LinkedAt(mem: map<nat, Node>, ring: seq<nat>, i: nat)
    requires Linked(mem, ring) && i < |ring|
    ensures ring[i] in mem && At(ring, i + 1) in mem && mem[ring[i]].next == At(ring, i + 1)
        && mem[At(ring, i + 1)].prev == ring[i]
  {
    assert Joined(mem, ring, i);
  }

  lemma InsertedAt(ring: seq<nat>, k: nat, x: nat, i: nat)
    requires 0 < k <= |ring| && i <= |ring| + 1
    ensures At(Inserted(ring, k, x), i) == if i == |ring| + 1 then ring[0] else if i < k then ring[i]
        else if i == k then x else ring[i - 1]
  {
  }

  lemma InsertKeeps(mem: map<nat, Node>, ring: seq<nat>, k: nat, x: nat)
    requires Linked(mem, ring) && 0 < k <= |ring| && x in mem && x !in ring
    ensures At(ring, k) in mem && mem[At(ring, k)].prev == ring[k - 1] && ring[k - 1] in mem
    ensures Linked(Insert(mem, At(ring, k), x), Inserted(ring, k, x))
    ensures Insert(mem, At(ring, k), x).Keys == mem.Keys
    ensures forall y :: y in mem ==> SameArea(Insert(mem, At(ring, k), x)[y], mem[y])
  {
    hide Joined;
    LinkedAt(mem, ring, k - 1);
    var f, p, t := At(ring, k), ring[k - 1], Inserted(ring, k, x);
    var m := Insert(mem, f, x);
    InsertWrites(mem, f, x);
    forall i | 0 <= i < |t|
      ensures Joined(m, t, i)
    {
      InsertJoins(mem, ring, k, x, i);
    }
    InsertDistinct(ring, k, x);
  }

  lemma InsertDistinct(ring: seq<nat>, k: nat, x: nat)
    requires Distinct(ring) && k <= |ring| && x !in ring
    ensures Distinct(Inserted(ring, k, x))
  {
  }

  /** What Insert writes. */
  lemma InsertWrites(mem: map<nat, Node>, f: nat, x: nat)
    requires f in mem && mem[f].prev in mem && x in mem && f != x && mem[f].prev != x
    ensures Insert(mem, f, x).Keys == mem.Keys
    ensures forall y :: y in mem ==>
              var p, n := mem[f].prev, Insert(mem, f, x)[y];
              && SameArea(n, mem[y])
              && n.next == (if y == x then f else if y == p then x else mem[y].next)
              && n.prev == (if y == x then p else if y == f then x else mem[y].prev)
  {
  }

  lemma InsertJoins(mem: map<nat, Node>, ring: seq<nat>, k: nat, x: nat, i: nat)
    requires Linked(mem, ring) && 0 < k <= |ring| && x in mem && x !in ring && i <= |ring|
    requires At(ring, k) in mem && mem[At(ring, k)].prev == ring[k - 1] && ring[k - 1] in mem
    ensures Joined(Insert(mem, At(ring, k), x), Inserted(ring, k, x), i)
  {
    hide Insert, Inserted, Distinct, Linked;
    var t := Inserted(ring, k, x);
    InsertLength(ring, k, x);
    assert x != At(ring, k) && x != ring[k - 1];
    InsertWrites(mem, At(ring, k), x);
    InsertedAt(ring, k, x, i);
    InsertedAt(ring, k, x, i + 1);
    var j := if i < k then i else i - 1;
    LinkedAt(mem, ring, j);
    PlacesDiffer(ring, j, k - 1);
    PlacesDiffer(ring, if j + 1 == |ring| then 0 else j + 1, if k == |ring| then 0 else k);
    DistinctOf(mem, ring);
  }

  lemma InsertLength(ring: seq<nat>, k: nat, x: nat)
    requires k <= |ring|
    ensures |Inserted(ring, k, x)| == |ring| + 1
  {
  }

  lemma DistinctOf(mem: map<nat, Node>, ring: seq<nat>)
    requires Linked(mem, ring)
    ensures Distinct(ring)
  {
  }

  lemma PlacesDiffer(ring: seq<nat>, i: nat, j: nat)
    requires i < |ring| && j < |ring|
    ensures Distinct(ring) ==> (ring[i] == ring[j] <==> i == j)
  {
  }

  // ----- the areas -----

  /** Areas are page-aligned, do not overlap, and come in the order of their addresses. */
  ghost predicate Sorted(mem: map<nat, Node>, ring: seq<nat>)
    requires forall i :: 0 <= i < |ring| ==> ring[i] in mem
  {
    && (forall i :: 1 <= i < |ring| ==> Area(mem[ring[i]]))
    && (forall i, j :: 1 <= i < j < |ring| ==> mem[ring[i]].end <= mem[ring[j]].addr)
  }

  predicate Area(n: Node) {
    n.kind != Unset && n.addr % 4096 == 0 && n.end % 4096 == 0 && n.addr <= n.end <= 0xffff_ffff_ffff_f000
  }

  /** A new area between its neighbours keeps the order. */
  lemma SortedInsert(mem: map<nat, Node>, ring: seq<nat>, k: nat, x: nat, mem': map<nat, Node>)
    requires 0 < k <= |ring| && (forall i :: 0 <= i < |ring| ==> ring[i] in mem) && Sorted(mem, ring)
    requires x in mem' && Area(mem'[x])
        && (forall i :: 0 <= i < |ring| ==> ring[i] in mem' && SameArea(mem'[ring[i]], mem[ring[i]]))
    requires forall i :: 1 <= i < k ==> mem[ring[i]].end <= mem'[x].addr
    requires k < |ring| ==> mem'[x].end <= mem[ring[k]].addr
    ensures forall i :: 0 <= i <= |ring| ==> |Inserted(ring, k, x)| == |ring| + 1 && Inserted(ring, k, x)[i] in mem'
    ensures Sorted(mem', Inserted(ring, k, x))
  {
    var t := Inserted(ring, k, x);
    forall i | 0 <= i < |t|
      ensures t[i] == if i < k then ring[i] else if i == k then x else ring[i - 1]
    {
    }
    hide Inserted;
    forall i, j | 1 <= i < j < |t|
      ensures mem'[t[i]].end <= mem'[t[j]].addr
    {
      SortedPair(mem, ring, k, x, mem', i, j, t);
    }
  }

  lemma SortedPair(mem: map<nat, Node>, ring: seq<nat>, k: nat, x: nat, mem': map<nat, Node>, i: nat, j: nat,
      t: seq<nat>)
    requires 0 < k <= |ring| && (forall i :: 0 <= i < |ring| ==> ring[i] in mem) && Sorted(mem, ring)
    requires x in mem' && Area(mem'[x])
        && (forall i :: 0 <= i < |ring| ==> ring[i] in mem' && SameArea(mem'[ring[i]], mem[ring[i]]))
    requires forall i :: 1 <= i < k ==> mem[ring[i]].end <= mem'[x].addr
    requires k < |ring| ==> mem'[x].end <= mem[ring[k]].addr
    requires |t| == |ring| + 1 && forall m {:trigger t[m]} :: 0 <= m < |t| ==>
        t[m] == if m < k then ring[m] else if m == k then x else ring[m - 1]
    requires 1 <= i < j < |t|
    ensures t[i] in mem' && t[j] in mem'
    ensures mem'[t[i]].end <= mem'[t[j]].addr
  {
    assert i < k ==> t[i] == ring[i] && SameArea(mem'[ring[i]], mem[ring[i]]);
    assert j > k ==> t[j] == ring[j - 1] && SameArea(mem'[ring[j - 1]], mem[ring[j - 1]]);
    if i == k {
      assert Area(mem[ring[j - 1]]);
      if j - 1 > k {
        assert Area(mem[ring[k]]);
        assert mem[ring[k]].end <= mem[ring[j - 1]].addr;
      }
    } else if j == k {
    } else {
      var a: nat, b: nat := if i < k then i else i - 1, if j < k then j else j - 1;
      assert t[i] == ring[a] && t[j] == ring[b];
      assert mem[ring[a]].end <= mem[ring[b]].addr;
      assert SameArea(mem'[ring[a]], mem[ring[a]]) && SameArea(mem'[ring[b]], mem[ring[b]]);
    }
  }

  /** A node between its neighbours: what keeps the order. */
  predicate Between(mem: map<nat, Node>, ring: seq<nat>, k: nat, n: Node)
    requires 0 < k <= |ring| && InMem(mem, ring)
  {
    Area(n) && (k > 1 ==> mem[ring[k - 1]].end <= n.addr) && (k < |ring| ==> n.end <= mem[ring[k]].addr)
  }

  /** The list is in order afterwards exactly if it was before and the node fits between its neighbours. */
  lemma InsertInOrder(mem: map<nat, Node>, ring: seq<nat>, k: nat, x: nat, mem': map<nat, Node>)
    requires 0 < k <= |ring| && InMem(mem, ring)
    requires x in mem' && forall i :: 0 <= i < |ring| ==> ring[i] in mem' && SameArea(mem'[ring[i]], mem[ring[i]])
    ensures InMem(mem', Inserted(ring, k, x))
    ensures Sorted(mem', Inserted(ring, k, x)) <==> Sorted(mem, ring) && Between(mem, ring, k, mem'[x])
  {
    hide SameArea, Sorted;
    InsertedIn(mem, ring, k, x, mem');
    if Sorted(mem', Inserted(ring, k, x)) {
      RestInOrder(mem, ring, k, x, mem');
    }
    if Sorted(mem, ring) && Between(mem, ring, k, mem'[x]) {
      AllBelow(mem, ring, k, mem'[x].addr);
      SortedInsert(mem, ring, k, x, mem');
    }
  }

  lemma InsertedIn(mem: map<nat, Node>, ring: seq<nat>, k: nat, x: nat, mem': map<nat, Node>)
    requires 0 < k <= |ring| && x in mem' && forall i :: 0 <= i < |ring| ==> ring[i] in mem'
    ensures InMem(mem', Inserted(ring, k, x))
  {
  }

  lemma AllBelow(mem: map<nat, Node>, ring: seq<nat>, k: nat, a: nat)
    requires 0 < k <= |ring| && InMem(mem, ring) && Sorted(mem, ring) && (k > 1 ==> mem[ring[k - 1]].end <= a)
    ensures forall i :: 1 <= i < k ==> mem[ring[i]].end <= a
  {
    forall i | 1 <= i < k
      ensures mem[ring[i]].end <= a
    {
      assert Area(mem[ring[k - 1]]);
    }
  }

  /** Where place i of the ring comes to lie. */
  function Shifted(i: nat, k: nat): nat { if i < k then i else i + 1 }

  lemma ShiftedAt(ring: seq<nat>, k: nat, x: nat, i: nat)
    requires 0 < k <= |ring| && i < |ring|
    ensures |Inserted(ring, k, x)| == |ring| + 1 && Inserted(ring, k, x)[k] == x
    ensures Inserted(ring, k, x)[Shifted(i, k)] == ring[i]
  {
  }

  lemma SortedAt(mem: map<nat, Node>, ring: seq<nat>, i: nat, j: nat)
    requires InMem(mem, ring) && Sorted(mem, ring) && 1 <= i < |ring|
    ensures Area(mem[ring[i]]) && (i < j < |ring| ==> mem[ring[i]].end <= mem[ring[j]].addr)
  {
  }

  lemma RestInOrder(mem: map<nat, Node>, ring: seq<nat>, k: nat, x: nat, mem': map<nat, Node>)
    requires 0 < k <= |ring| && InMem(mem, ring) && InMem(mem', Inserted(ring, k, x))
    requires x in mem' && forall i :: 0 <= i < |ring| ==> ring[i] in mem' && SameArea(mem'[ring[i]], mem[ring[i]])
    requires Sorted(mem', Inserted(ring, k, x))
    ensures Sorted(mem, ring) && Between(mem, ring, k, mem'[x])
  {
    hide SameArea, Inserted;
    InsertedIn(mem, ring, k, x, mem');
    var t := Inserted(ring, k, x);
    forall i | 1 <= i < |ring|
      ensures Area(mem[ring[i]])
    {
      ShiftedAt(ring, k, x, i);
      SortedAt(mem', t, Shifted(i, k), 0);
      AreaSame(mem'[ring[i]], mem[ring[i]]);
    }
    forall i, j | 1 <= i < j < |ring|
      ensures mem[ring[i]].end <= mem[ring[j]].addr
    {
      ShiftedAt(ring, k, x, i);
      ShiftedAt(ring, k, x, j);
      SortedAt(mem', t, Shifted(i, k), Shifted(j, k));
      AreaSame(mem'[ring[i]], mem[ring[i]]);
      AreaSame(mem'[ring[j]], mem[ring[j]]);
    }
    ShiftedAt(ring, k, x, k - 1);
    SortedAt(mem', t, k, k + 1);
    AreaSame(mem'[ring[k - 1]], mem[ring[k - 1]]);
    if k > 1 {
      SortedAt(mem', t, k - 1, k);
    }
    if k < |ring| {
      ShiftedAt(ring, k, x, k);
      AreaSame(mem'[ring[k]], mem[ring[k]]);
    }
  }

  // ----- the operations -----

  /** How alloc_vma comes out. */
  datatype Outcome = Added(x: nat) | Covered(x: nat) | Overlaps | NoNode | NoPages | NullPointer

  function Members(s: seq<nat>): set<nat> { set y | y in s }

  function Rev(s: seq<nat>): seq<nat> { if s == [] then [] else Rev(s[1..]) + [s[0]] }

  lemma RevMore(s: seq<nat>, x: nat)
    ensures Rev(s + [x]) == [x] + Rev(s)
  {
    if s == [] {
      assert [x][1..] == [];
    } else {
      assert (s + [x])[1..] == s[1..] + [x];
      RevMore(s[1..], x);
    }
  }

  /** A process's areas and the pages the kernel hands out. */
  class Areas {
    var head: Option<nat>
    var mem: map<nat, Node>
    var freelist: seq<nat>
    ghost var ring: seq<nat>

    /** The nodes are in use, each once; free pages are not. */
    ghost predicate Listed()
      reads this
    {
      && Distinct(freelist) && (forall i :: 0 <= i < |freelist| ==> freelist[i] !in mem)
      && (head.Some? ==> Linked(mem, ring) && ring[0] == head.value && InMem(mem, ring))
    }

    ghost predicate InOrder()
      requires Listed()
      reads this
    {
      head.Some? ==> Sorted(mem, ring)
    }

    ghost predicate Valid()
      reads this
    {
      Listed() && InOrder()
    }

    /** A new process: no list yet, and pages that are free. */
    constructor (free: seq<nat>)
      requires Distinct(free)
      ensures Valid() && head == None && mem == map[] && freelist == free
    {
      head, mem, freelist, ring := None, map[], free, [];
    }

    /** kalloc and memset. */
    method Kalloc() returns (r: Option<nat>)
      requires Listed()
      modifies this`mem, this`freelist
      ensures r.None? ==> freelist == old(freelist) == [] && mem == old(mem)
      ensures r.Some? ==> old(freelist) != [] && r.value == old(freelist)[0] && freelist == old(freelist)[1..]
      ensures r.Some? ==> r.value !in old(mem) && mem == old(mem)[r.value := Node(Unset, 0, 0, 0, 0, 0, 0, 0, 0)]
    {
      if freelist == [] {
        return None;
      }
      r := Some(freelist[0]);
      freelist := freelist[1..];
      mem := mem[r.value := Node(Unset, 0, 0, 0, 0, 0, 0, 0, 0)];
    }

    /** kfree: the page is in no use any more, and nothing may read it. */
    method Kfree(x: nat)
      requires x in mem
      modifies this`mem, this`freelist
      ensures mem == old(mem) - {x} && freelist == [x] + old(freelist)
    {
      mem := mem - {x};
      freelist := [x] + freelist;
    }

    /** alloc_vma's search: the place in the ring in front of which the new area belongs, or how the search ends. */
    method Place(start: nat, end: nat) returns (f: nat, stop: Option<Outcome>, ghost k: nat)
      requires Listed() && head.Some?
      ensures 0 < k <= |ring| && f == At(ring, k)
      ensures forall i :: 1 <= i < k ==> ring[i] in mem && mem[ring[i]].end <= start
      ensures forall i :: 1 <= i < k ==> end > mem[ring[i]].addr
      ensures stop == None ==> k < |ring| ==> end <= mem[ring[k]].addr
      ensures stop != None ==> k < |ring| && end > mem[ring[k]].addr && start < mem[ring[k]].end
      ensures stop != None ==> stop.value == if mem[ring[k]].addr <= start
          && end <= mem[ring[k]].end then Covered(ring[k]) else Overlaps
    {
      hide Distinct, Joined;
      LinkedAt(mem, ring, 0);
      f := mem[head.value].next;
      k := 1;
      while f != head.value
        invariant 0 < k <= |ring| && f == At(ring, k)
        invariant forall i :: 1 <= i < k ==> mem[ring[i]].end <= start && end > mem[ring[i]].addr
        decreases |ring| - k
      {
        HeadOnce(k);
        if end <= mem[f].addr {
          return f, None, k;
        }
        if start >= mem[f].end {
          LinkedAt(mem, ring, k);
          f := mem[f].next;
          k := k + 1;
        } else if start >= mem[f].addr && end <= mem[f].end {
          return f, Some(Covered(f)), k;
        } else {
          return f, Some(Overlaps), k;
        }
      }
      HeadOnce(k);
      stop := None;
    }

    lemma HeadOnce(k: nat)
      requires Listed() && head.Some? && 0 < k <= |ring|
      ensures At(ring, k) == head.value <==> k == |ring|
      ensures At(ring, k) in mem
    {
    }

    /** The node goes into the ring at place k. */
    method Link(f: nat, x: nat, ghost k: nat)
      requires head.Some? && Linked(mem, ring) && 0 < k <= |ring| && f == At(ring, k) && x in mem && x !in ring
      requires f in mem && mem[f].prev in mem
      modifies this`mem, this`ring
      ensures ring == Inserted(old(ring), k, x) && mem == Insert(old(mem), f, x) && Linked(mem, ring)
    {
      hide Joined, Distinct;
      InsertKeeps(mem, ring, k, x);
      mem := Insert(mem, f, x);
      ring := Inserted(ring, k, x);
    }

    /** What else is so after Link: the list is in order if it was and the new area fits between its neighbours. */
    lemma LinkKeepsOrder(mem0: map<nat, Node>, ring0: seq<nat>, k: nat, x: nat)
      requires InMem(mem0, ring0) && Linked(mem0, ring0) && 0 < k <= |ring0| && x in mem0 && x !in ring0
      requires At(ring0, k) in mem0 && mem0[At(ring0, k)].prev in mem0
      requires mem == Insert(mem0, At(ring0, k), x) && ring == Inserted(ring0, k, x) && Linked(mem, ring)
      ensures ring[0] == ring0[0] && mem.Keys == mem0.Keys && InMem(mem, ring)
      ensures Sorted(mem, ring) <==> Sorted(mem0, ring0) && Between(mem0, ring0, k, mem0[x])
      ensures forall y :: y in mem0 ==> SameArea(mem[y], mem0[y])
    {
      hide Linked, Insert, Sorted;
      InsertKeeps(mem0, ring0, k, x);
      AreaSame(mem[x], mem0[x]);
      InsertInOrder(mem0, ring0, k, x, mem);
      InsertedFront(ring0, k, x);
    }

    /**
     alloc_vma. granted: uvmalloc1 or mappages finds the pages it needs; uvmalloc1 also fails on an empty range.
     The code does not look whether the area wraps round: if it adds one that does, the list is no longer in order.
     */
    method AllocVma(kind: Kind, addr: nat, sz: nat, perm: int, alloc: bool, pa: nat,
        granted: bool) returns (r: Outcome, ghost k: nat)
      requires Listed() && head.Some? && kind != Unset
      modifies this`mem, this`freelist, this`ring
      ensures Listed() && (r.Added? ==> (InOrder() <==> old(InOrder()) && Down(addr) <= EndOf(addr, sz)))
      ensures !r.Added? ==> mem == old(mem) && freelist == old(freelist) && ring == old(ring) && !r.NullPointer?
      ensures r.Covered? ==> 0 < k < |ring| && r.x == ring[k] && mem[r.x].addr <= Down(addr)
                             && EndOf(addr, sz) <= mem[r.x].end
      ensures r.Overlaps? ==> 0 < k < |ring| && Meets(mem[ring[k]], Down(addr), EndOf(addr, sz))
                              && !(mem[ring[k]].addr <= Down(addr) && EndOf(addr, sz) <= mem[ring[k]].end)
      ensures r.Covered? ==> Meets(mem[ring[k]], Down(addr), EndOf(addr, sz))
      ensures r.NoNode? ==> freelist == []
      ensures r.NoPages? ==> sz != 0 && (!granted || Down(addr) >= EndOf(addr, sz))
      ensures r.Added? ==>
                && 0 < k <= |old(ring)| && old(freelist) != [] && r.x == old(freelist)[0]
                && freelist == old(freelist)[1..]
                && ring == Inserted(old(ring), k, r.x) && r.x in mem
                && (forall i :: 1 <= i < k ==>
                    old(ring)[i] in old(mem) && EndOf(addr, sz) > old(mem)[old(ring)[i]].addr)
                && SameArea(mem[r.x], Node(kind, perm, Down(addr), EndOf(addr, sz), sz, -1, 0, 0, 0))
                && (forall y :: y in old(mem) ==> y in mem && SameArea(mem[y], old(mem)[y]))
      ensures r.Added? && old(InOrder()) ==> forall i :: 1 <= i < |old(ring)| ==>
                  old(ring)[i] in old(mem) && !Meets(old(mem)[old(ring)[i]], Down(addr), EndOf(addr, sz))
    {
      hide Distinct, Linked, Down, Up, EndOf, SameArea, Sorted;
      var start, end := Down(addr), EndOf(addr, sz);
      EndBound(addr, sz);
      var f, stop;
      f, stop, k := Place(start, end);
      if stop.Some? {
        MeetsThere(mem, ring, k, start, end);
        return stop.value, k;
      }
      HeadOnce(k);
      var x := Kalloc();
      if x.None? {
        return NoNode, k;
      }
      ghost var mem1 := old(mem);
      if sz != 0 && ((alloc && (start >= end || !granted)) || (!alloc && pa != 0 && !granted)) {
        Kfree(x.value);
        assert mem == old(mem);
        assert freelist == old(freelist);
        return NoPages, k;
      }
      Add(f, x.value, Node(kind, perm, start, end, sz, -1, 0, 0, 0), k, mem1, old(freelist));
      if Sorted(mem1, old(ring)) {
        AllApart(mem1, old(ring), k, start, end);
      }
      r := Added(x.value);
    }

    /** The end of alloc_vma: page x, fresh from kalloc, becomes a node of the ring. mem0, free0: from before kalloc. */
    method Add(f: nat, x: nat, n: Node, ghost k: nat, ghost mem0: map<nat, Node>, ghost free0: seq<nat>)
      requires Distinct(free0) && free0 != [] && x == free0[0] && freelist == free0[1..]
          && forall i :: 0 <= i < |free0| ==> free0[i] !in mem0
      requires x in mem && mem == mem0[x := mem[x]]
      requires head.Some? && Linked(mem0, ring) && ring[0] == head.value && InMem(mem0, ring)
          && 0 < k <= |ring| && f == At(ring, k)
      modifies this`mem, this`ring
      ensures Listed() && ring == Inserted(old(ring), k, x) && x in mem && SameArea(mem[x], n)
      ensures InOrder() <==> Sorted(mem0, old(ring)) && Between(mem0, old(ring), k, n)
      ensures forall y :: y in mem0 ==> y in mem && SameArea(mem[y], mem0[y])
    {
      hide Distinct, Linked, Sorted, SameArea, Area, At, Inserted;
      mem := mem[x := n];
      ghost var mem2 := mem;
      FreshIn(mem0, ring, mem2, x, k);
      SortedNeighbours(mem0, mem2, ring, k, n);
      Link(f, x, k);
      LinkKeepsOrder(mem2, old(ring), k, x);
      FreeRest(free0, x);
      AreasSame(mem0, mem2, x, mem);
    }

    /** find_mmap_vma: the first area of kind MMAP. */
    method FindMmap() returns (r: Option<nat>, ghost k: nat)
      requires Listed() && head.Some?
      ensures r.None? ==> forall i :: 1 <= i < |ring| ==> ring[i] in mem && mem[ring[i]].kind != Mmap
      ensures r.Some? ==> 0 < k < |ring| && r.value == ring[k] && r.value in mem && mem[r.value].kind == Mmap
      ensures r.Some? ==> forall i :: 1 <= i < k ==> ring[i] in mem && mem[ring[i]].kind != Mmap
    {
      hide Distinct, Joined;
      LinkedAt(mem, ring, 0);
      var f := mem[head.value].next;
      k := 1;
      while f != head.value
        invariant 0 < k <= |ring| && f == At(ring, k)
        invariant forall i :: 1 <= i < k ==> mem[ring[i]].kind != Mmap
        decreases |ring| - k
      {
        HeadOnce(k);
        if mem[f].kind == Mmap {
          return Some(f), k;
        }
        LinkedAt(mem, ring, k);
        f := mem[f].next;
        k := k + 1;
      }
      HeadOnce(k);
      r := None;
    }

    /** The lowest area of all is a mapping: nothing lies under the mappings. */
    ghost predicate MmapFirst()
      requires Listed() && head.Some?
      reads this
    {
      |ring| > 1 && mem[ring[1]].kind == Mmap
    }

    /** alloc_mmap_vma picks this address when it is given none. */
    function PickUnder(low: nat, addr: nat, sz: nat): nat { if addr == 0 && sz < low then Down(low - sz) else addr }

    /** The file behind an area is recorded, in a new area and in one that covers the range already. */
    method SetFile(x: nat, fd: int, fOff: int)
      requires Listed() && x in mem
      modifies this`mem
      ensures Listed() && (InOrder() <==> old(InOrder())) && mem == old(mem)[x := old(mem)[x].(fd := fd, fOff := fOff)]
    {
      hide Distinct, Sorted;
      ghost var mem0 := mem;
      mem := mem[x := mem[x].(fd := fd, fOff := fOff)];
      if head.Some? {
        FileOnly(mem0, mem, ring, x);
      }
    }

    /**
     The first half of alloc_mmap_vma; bad: it follows a null pointer, having found no mapping; m: the first mapping.
     */
    method PickAddress(addr: nat, sz: nat) returns (bad: bool, a: nat, ghost m: nat)
      requires Listed() && head.Some?
      ensures bad <==> addr == 0 && forall i :: 1 <= i < |ring| ==> ring[i] in mem && mem[ring[i]].kind != Mmap
      ensures addr != 0 ==> a == addr
      ensures addr == 0 && !bad ==> FirstMmap(mem, ring, m) && a == PickUnder(mem[ring[m]].addr, addr, sz)
      ensures addr == 0 && InOrder() ==> Down(a) <= EndOf(a, sz)
      ensures addr == 0 && InOrder() && MmapFirst() && 0 < sz < mem[ring[1]].addr ==> Under(mem[ring[1]].addr, sz, a)
    {
      hide Distinct, Linked, Sorted, Down, Up, EndOf;
      a := addr;
      bad := false;
      var f;
      f, m := FindMmap();
      NothingUnder(sz);
      AtZero();
      if addr == 0 {
        if f.None? {
          return true, 0, m;
        }
        a := PickUnder(mem[f.value].addr, addr, sz);
        if InOrder() {
          LowIs(mem, ring, m);
          if sz < mem[f.value].addr {
            PickFits(mem[f.value].addr, sz);
            NoWrap(a);
          }
        }
      }
    }

    /** The second half: the area is allocated at the address taken, and its file recorded. */
    method MapAt(a: nat, sz: nat, perm: int, fd: int, fOff: int, granted: bool) returns (r: Outcome, ghost k: nat)
      requires Listed() && head.Some?
      modifies this`mem, this`freelist, this`ring
      ensures Listed() && (InOrder() <==> old(InOrder()) && (r.Added? ==> Down(a) <= EndOf(a, sz))) && !r.NullPointer?
      ensures !r.Added? && !r.Covered? ==> mem == old(mem) && freelist == old(freelist) && ring == old(ring)
      ensures r.Added? || r.Covered? ==> r.x in mem && mem[r.x].fd == fd && mem[r.x].fOff == fOff
      ensures r.Added? ==> old(freelist) != [] && 0 < k <= |old(ring)| && ring == Inserted(old(ring), k, r.x)
                           && SameArea(mem[r.x], Node(Mmap, perm, Down(a), EndOf(a, sz), sz, fd, fOff, 0, 0))
      ensures r.Added? ==> r.x == old(freelist)[0] && freelist == old(freelist)[1..]
                           && forall y :: y in old(mem) ==> y in mem && SameArea(mem[y], old(mem)[y])
      ensures r.Covered? ==> r.x in old(mem) && freelist == old(freelist) && ring == old(ring)
                             && mem == old(mem)[r.x := old(mem)[r.x].(fd := fd, fOff := fOff)]
      ensures r.Added? ==> forall i :: 1 <= i < k ==>
          old(ring)[i] in old(mem) && EndOf(a, sz) > old(mem)[old(ring)[i]].addr
      ensures r.Covered? || r.Overlaps? ==> 0 < k < |old(ring)| && old(ring)[k] in old(mem)
      ensures r.Covered? || r.Overlaps? ==> Meets(old(mem)[old(ring)[k]], Down(a), EndOf(a, sz))
      ensures (r.NoNode? ==> freelist == []) && (r.NoPages? ==> sz != 0 && (!granted || Down(a) >= EndOf(a, sz)))
      ensures old(MmapFirst()) ==> MmapFirst()
    {
      hide Distinct, Linked, Sorted, Down, Up, EndOf, Inserted;
      ghost var mem0, ring0 := mem, ring;
      r, k := AllocVma(Mmap, a, sz, perm, true, 0, granted);
      if r.Added? {
        AreaSame(mem[r.x], Node(Mmap, perm, Down(a), EndOf(a, sz), sz, -1, 0, 0, 0));
        FirstAfter(mem0, ring0, mem, k, r.x);
      }
      if r.Added? || r.Covered? {
        SetFile(r.x, fd, fOff);
      }
    }

    /**
     alloc_mmap_vma. With address 0 it looks for the lowest mapping and takes the place right under it, which is
     always free: neither of the errors of the search can come up. a: the address it takes; m: the first mapping.
     */
    method AllocMmap(addr: nat, sz: nat, perm: int, fd: int, fOff: int, granted: bool) returns (r: Outcome,
        ghost k: nat, ghost a: nat, ghost m: nat)
      requires Listed() && head.Some?
      modifies this`mem, this`freelist, this`ring
      ensures Listed() && (InOrder() <==> old(InOrder()) && (r.Added? ==> Down(a) <= EndOf(a, sz)))
      ensures addr == 0 && old(InOrder()) ==> Down(a) <= EndOf(a, sz)
      ensures addr != 0 ==> a == addr
      ensures addr == 0 && !r.NullPointer? ==>
                old(FirstMmap(mem, ring, m)) && a == PickUnder(old(mem)[old(ring)[m]].addr, addr, sz)
      ensures !r.Added? && !r.Covered? ==> mem == old(mem) && freelist == old(freelist) && ring == old(ring)
      ensures r.NullPointer? <==> addr == 0 && forall i :: 1 <= i < |old(ring)| ==>
          old(ring)[i] in old(mem) && old(mem)[old(ring)[i]].kind != Mmap
      ensures addr == 0 && old(InOrder() && MmapFirst()) && 0 < sz < old(mem[ring[1]].addr) ==>
                !r.Overlaps? && !r.Covered? && !r.NullPointer? && (r.NoPages? ==> !granted)
                && (r.Added? ==> ring == Inserted(old(ring), 1, r.x) && AreaUnder(mem, r.x, old(mem[ring[1]].addr), sz))
      ensures r.Added? || r.Covered? ==> r.x in mem && mem[r.x].fd == fd && mem[r.x].fOff == fOff
      ensures r.Added? ==> old(freelist) != [] && 0 < k <= |old(ring)| && ring == Inserted(old(ring), k, r.x)
                           && SameArea(mem[r.x], Node(Mmap, perm, Down(a), EndOf(a, sz), sz, fd, fOff, 0, 0))
      ensures r.Added? ==> r.x == old(freelist)[0] && freelist == old(freelist)[1..]
                           && forall y :: y in old(mem) ==> y in mem && SameArea(mem[y], old(mem)[y])
      ensures r.Covered? ==> r.x in old(mem) && freelist == old(freelist) && ring == old(ring)
                             && mem == old(mem)[r.x := old(mem)[r.x].(fd := fd, fOff := fOff)]
      ensures r.Added? ==> forall i :: 1 <= i < k ==>
          old(ring)[i] in old(mem) && EndOf(a, sz) > old(mem)[old(ring)[i]].addr
      ensures r.Covered? || r.Overlaps? ==> 0 < k < |old(ring)| && old(ring)[k] in old(mem)
      ensures r.Covered? || r.Overlaps? ==> Meets(old(mem)[old(ring)[k]], Down(a), EndOf(a, sz))
      ensures (r.NoNode? ==> freelist == []) && (r.NoPages? ==> sz != 0 && (!granted || Down(a) >= EndOf(a, sz)))
      ensures old(MmapFirst()) ==> MmapFirst()
    {
      hide Distinct, Linked, Sorted, Down, Up, EndOf, Inserted, FirstMmap, PickUnder, SameArea;
      k := 0;
      var bad, b;
      bad, b, m := PickAddress(addr, sz);
      a := b;
      if bad {
        return NullPointer, 0, a, m;
      }
      ghost var mem0, ring0 := mem, ring;
      r, k := MapAt(b, sz, perm, fd, fOff, granted);
      if |ring0| > 1 && old(InOrder()) {
        Lowest(mem0, ring0, k);
      }
      if r.Added? {
        AreaSame(mem[r.x], Node(Mmap, perm, Down(a), EndOf(a, sz), sz, fd, fOff, 0, 0));
      }
    }

    /**
     mmap with an address in the last page and length 0: neither is looked at. The mapping, from the last page to
     address 0, goes in front of all others, and the list is no longer in order.
     */
    method WrappedMmap(perm: int) returns (r: Outcome)
      requires Valid() && head.Some? && freelist != []
      modifies this`mem, this`freelist, this`ring
      ensures Listed() && !InOrder()
      ensures r.Added? && |ring| > 1 && ring[1] == r.x && mem[r.x].addr == 0xffff_ffff_ffff_f000 && mem[r.x].end == 0
    {
      hide Distinct, Linked, Sorted, Down, Up, EndOf, Inserted;
      ghost var k, a, m;
      r, k, a, m := AllocMmap(0xffff_ffff_ffff_f001, 0, perm, -1, 0, true);
      LastPage();
      AreaSame(mem[r.x], Node(Mmap, perm, Down(a), EndOf(a, 0), 0, -1, 0, 0, 0));
      InsertedAtFront(old(ring), r.x);
    }

    /** The lemma about the place under the lowest mapping, of this list. */
    lemma NothingUnder(sz: nat)
      requires Listed() && head.Some?
      ensures InOrder() && MmapFirst() && 0 < sz < mem[ring[1]].addr ==>
                Under(mem[ring[1]].addr, sz, Down(mem[ring[1]].addr - sz))
    {
      hide Distinct, Linked, Sorted, Down, Up, EndOf;
      if InOrder() && MmapFirst() && 0 < sz < mem[ring[1]].addr {
        LowIs(mem, ring, 1);
        PickFits(mem[ring[1]].addr, sz);
      }
    }

    /**
     alloc_vma_stack: the stack goes to the end of the list, wherever the list ends; that is its place in the order
     exactly if the last area ends below it. r: the outcome, of which the caller sees 0 or -1.
     */
    method AllocStack(perm: int, granted: bool) returns (r: Outcome)
      requires Listed() && head.Some?
      modifies this`mem, this`freelist, this`ring
      ensures Listed() && (r.Added? || r.NoNode? || r.NoPages?)
      ensures !r.Added? ==> mem == old(mem) && freelist == old(freelist) && ring == old(ring)
      ensures r.Added? ==> (InOrder() <==> old(InOrder()) && StackFits(old(mem), old(ring)))
      ensures r.Added? ==>
                && ring == old(ring) + [r.x] && r.x in mem
                && SameArea(mem[r.x], Node(Stack, perm, 0x7ff9_b000, 0x7fff_f000, 0x6_4000, -1, -1, 0, 0))
                && old(freelist) != [] && r.x == old(freelist)[0] && freelist == old(freelist)[1..]
                && forall y :: y in old(mem) ==> y in mem && SameArea(mem[y], old(mem)[y])
      ensures r.NoNode? ==> freelist == []
      ensures r.NoPages? ==> !granted
    {
      hide Distinct, Linked, Sorted, SameArea, Inserted;
      ghost var n := |ring|;
      var f;
      f := Last();
      HeadOnce(n);
      var x := Kalloc();
      if x.None? {
        return NoNode;
      }
      if !granted {
        Kfree(x.value);
        assert mem == old(mem);
        assert freelist == old(freelist);
        return NoPages;
      }
      NextOf(old(mem), ring, n - 1);
      Add(mem[f].next, x.value, Node(Stack, perm, STACK_TOP - INIT_STACK, STACK_TOP, INIT_STACK, -1, -1, 0, 0), n,
          old(mem), old(freelist));
      InsertedLast(old(ring), x.value);
      r := Added(x.value);
    }

    /** The last node, or the head of an empty list. */
    method Last() returns (f: nat)
      requires Listed() && head.Some?
      ensures f in mem && |ring| > 0 && f == ring[|ring| - 1]
    {
      hide Distinct, Joined;
      LinkedAt(mem, ring, 0);
      f := mem[head.value].next;
      ghost var k := 1;
      HeadOnce(k);
      if f == head.value {
        return;
      }
      NextOf(mem, ring, k);
      while f != head.value && mem[f].next != head.value
        invariant 0 < k < |ring| && f == At(ring, k) && f in mem && mem[f].next == At(ring, k + 1)
        decreases |ring| - k
      {
        HeadOnce(k + 1);
        f := mem[f].next;
        k := k + 1;
        NextOf(mem, ring, k);
      }
      HeadOnce(k);
      HeadOnce(k + 1);
    }

    /**
     vma_init: a list with one empty mapping, at USER_MMAP_START. If the second page is not to be had, the first is
     freed again but the process still points at it, so that there is no list that may be followed.
     */
    method Init() returns (ok: bool)
      requires Valid()
      modifies this
      ensures ok <==> |old(freelist)| >= 2
      ensures Valid() <==> |old(freelist)| != 1
      ensures ok ==> Valid() && head.Some? && MmapFirst() && |ring| == 2
                     && mem[ring[1]].addr == mem[ring[1]].end == 0x6fff_e000
      ensures !ok ==> mem == old(mem) && freelist == old(freelist)
      ensures |old(freelist)| == 0 ==> head == old(head) && ring == old(ring)
      ensures |old(freelist)| == 1 ==> head == Some(freelist[0]) && head.value !in mem
    {
      hide Distinct, Down, Up, EndOf, SameArea, Linked, Sorted, Inserted;
      ghost var mem0, free0 := mem, freelist;
      var v := Kalloc();
      if v.None? {
        return false;
      }
      mem := mem[v.value := mem[v.value].(prev := v.value, next := v.value)];
      head, ring := v, [v.value];
      FreeRest(free0, v.value);
      OnlyHead(mem, v.value);
      AtStart();
      var r;
      ghost var k, a, m;
      r, k, a, m := AllocMmap(MMAP_START, 0, 0, 0, 0, true);
      if !r.Added? {
        assert |free0| == 1;
        Kfree(v.value);
        assert mem == mem0;
        assert freelist == free0;
        NotInUse(mem, ring);
        return false;
      }
      InsertedLast([v.value], r.x);
      AreaSame(mem[r.x], Node(Mmap, 0, Down(a), EndOf(a, 0), 0, 0, 0, 0, 0));
      ok := true;
    }

    /**
     free_vma_list: every node, and at last the head, goes back to the free pages exactly once, and no page is read
     after that.
     */
    method FreeList()
      requires Listed()
      modifies this
      ensures Valid() && head == None
      ensures old(head).None? ==> mem == old(mem) && freelist == old(freelist)
      ensures old(head).Some? ==> freelist == [old(ring)[0]] + Rev(old(ring)[1..]) + old(freelist)
      ensures old(head).Some? ==> mem == old(mem) - Members(old(ring))
    {
      hide Distinct, Joined, Sorted, Rev, Members;
      if head.None? {
        return;
      }
      ghost var ring0, mem0, free0 := ring, mem, freelist;
      var h := head.value;
      LinkedAt(mem0, ring0, 0);
      NoneGone(mem0, ring0);
      var v := mem[h].next;
      ghost var j: nat := 0;
      while v != h
        invariant j < |ring0| && v == At(ring0, j + 1) && ring == ring0
        invariant freelist == Rev(ring0[1..j + 1]) + free0 && mem == mem0 - Members(ring0[1..j + 1])
        decreases |ring0| - j
      {
        AtHead(ring0, j + 1);
        NextThere(mem0, ring0, j);
        v := mem[v].next;
        GoneMore(mem0, ring0, j);
        RevSlice(ring0, j);
        Kfree(mem[v].prev);
        j := j + 1;
      }
      AtHead(ring0, j + 1);
      HeadThere(mem0, ring0);
      Kfree(v);
      head := None;
      AllGone(mem0, ring0);
      assert ring0[1..j + 1] == ring0[1..];
      assert [v] + (Rev(ring0[1..]) + free0) == [v] + Rev(ring0[1..]) + free0;
      FreedApart(mem0, ring0, free0, freelist);
    }
  }

  /** a is the address right under low for sz bytes, and they fit there. */
  predicate Under(low: nat, sz: nat, a: nat)
    requires sz <= low
  {
    a == Down(low - sz) == Down(a) && a < EndOf(a, sz) <= low && a + sz <= EndOf(a, sz)
  }

  predicate AreaUnder(mem: map<nat, Node>, x: nat, low: nat, sz: nat)
    requires sz <= low
  {
    x in mem && Under(low, sz, mem[x].addr) && mem[x].end == EndOf(mem[x].addr, sz)
  }

  lemma SortedNeighbours(mem: map<nat, Node>, mem': map<nat, Node>, ring: seq<nat>, k: nat, n: Node)
    requires InMem(mem, ring) && 0 < k <= |ring| && InMem(mem', ring) && forall i :: 0 <= i < |ring| ==>
        mem'[ring[i]] == mem[ring[i]]
    ensures Between(mem, ring, k, n) <==> Between(mem', ring, k, n)
    ensures Sorted(mem, ring) <==> Sorted(mem', ring)
  {
  }

  lemma AreasSame(mem0: map<nat, Node>, mem2: map<nat, Node>, x: nat, mem: map<nat, Node>)
    requires x !in mem0 && x in mem2 && mem2 == mem0[x := mem2[x]] && mem.Keys == mem2.Keys && forall y :: y in mem2 ==>
        SameArea(mem[y], mem2[y])
    ensures forall y :: y in mem0 ==> y in mem && SameArea(mem[y], mem0[y])
  {
  }

  lemma EndBound(addr: nat, sz: nat)
    ensures Down(addr) % 4096 == 0 && EndOf(addr, sz) % 4096 == 0 && EndOf(addr, sz) <= 0xffff_ffff_ffff_f000
  {
  }

  lemma AreaSame(a: Node, b: Node)
    requires SameArea(a, b)
    ensures a.kind == b.kind && a.addr == b.addr && a.end == b.end && a.sz == b.sz && a.perm == b.perm
        && a.fd == b.fd && a.fOff == b.fOff
  {
    assert a.(prev := 0, next := 0).kind == b.kind;
  }

  lemma InsertedFront(ring: seq<nat>, k: nat, x: nat)
    requires 0 < k <= |ring|
    ensures Inserted(ring, k, x)[0] == ring[0] && |Inserted(ring, k, x)| == |ring| + 1
  {
  }

  lemma MeetsThere(mem: map<nat, Node>, ring: seq<nat>, k: nat, start: nat, end: nat)
    requires InMem(mem, ring) && k < |ring| && end > mem[ring[k]].addr && start < mem[ring[k]].end
    ensures Meets(mem[ring[k]], start, end)
  {
  }

  /** A node fresh from kalloc is in no ring, and the ring is as it was. */
  lemma FreshIn(mem: map<nat, Node>, ring: seq<nat>, mem': map<nat, Node>, x: nat, k: nat)
    requires Linked(mem, ring) && InMem(mem, ring) && x !in mem && 0 < k <= |ring|
    requires x in mem' && mem' == mem[x := mem'[x]]
    ensures x !in ring && Linked(mem', ring) && InMem(mem', ring)
    ensures At(ring, k) in mem' && mem'[At(ring, k)].prev in mem'
    ensures forall i :: 0 <= i < |ring| ==> mem'[ring[i]] == mem[ring[i]]
  {
    forall i | 0 <= i < |ring|
      ensures Joined(mem', ring, i) && ring[i] != x
    {
      LinkedAt(mem, ring, i);
    }
    LinkedAt(mem, ring, k - 1);
  }

  lemma FreeRest(free: seq<nat>, x: nat)
    requires Distinct(free) && free != [] && x == free[0]
    ensures Distinct(free[1..]) && forall i :: 0 <= i < |free[1..]| ==> free[1..][i] == free[i + 1] && free[1..][i] != x
  {
  }

  /** Behind the areas that end below it and in front of one that starts above it, a range meets none. */
  lemma AllApart(mem: map<nat, Node>, ring: seq<nat>, k: nat, start: nat, end: nat)
    requires InMem(mem, ring) && Sorted(mem, ring) && 0 < k <= |ring|
    requires (forall i :: 1 <= i < k ==> mem[ring[i]].end <= start) && (k < |ring| ==> end <= mem[ring[k]].addr)
    ensures forall i :: 1 <= i < |ring| ==> ring[i] in mem && !Meets(mem[ring[i]], start, end)
  {
    forall i | 1 <= i < |ring|
      ensures !Meets(mem[ring[i]], start, end)
    {
      if i > k {
        assert Area(mem[ring[k]]);
        assert mem[ring[k]].end <= mem[ring[i]].addr;
      }
    }
  }

  /** Page ranges of a node and of start to end have a page in common. */
  predicate Meets(n: Node, start: nat, end: nat) { n.addr < end && start < n.end }

  ghost predicate InMem(mem: map<nat, Node>, ring: seq<nat>) { forall i :: 0 <= i < |ring| ==> ring[i] in mem }

  /** The last area ends below the stack. */
  predicate StackFits(mem: map<nat, Node>, ring: seq<nat>)
    requires ring != [] && InMem(mem, ring)
  {
    |ring| > 1 ==> mem[ring[|ring| - 1]].end <= STACK_TOP - INIT_STACK
  }

  predicate IsStack(n: Node) {
    n.kind == Stack && n.addr == STACK_TOP - INIT_STACK && n.end == STACK_TOP
  }

  /** At the end of a list that is in order, the stack is in order exactly if the last area ends below it. */
  lemma StackInOrder(mem: map<nat, Node>, ring: seq<nat>, x: nat, mem': map<nat, Node>)
    requires ring != [] && InMem(mem, ring) && x in mem' && IsStack(mem'[x])
    requires forall i :: 0 <= i < |ring| ==> ring[i] in mem' && SameArea(mem'[ring[i]], mem[ring[i]])
    ensures InMem(mem', ring + [x])
    ensures Sorted(mem', ring + [x]) <==> Sorted(mem, ring) && StackFits(mem, ring)
  {
    hide Sorted, SameArea;
    InsertedLast(ring, x);
    InsertInOrder(mem, ring, |ring|, x, mem');
  }

  /** A list on which it is not: a mapping of one page in the middle of where the stack goes. */
  lemma StackTooLow(next: nat, prev: nat)
    ensures var m := Node(Mmap, 0, 0x7fff_0000, 0x7fff_1000, 0x1000, -1, 0, prev, next);
            var mem := map[1 := Node(Unset, 0, 0, 0, 0, 0, 0, 2, 2), 2 := m.(prev := 1, next := 1)];
            Linked(mem, [1, 2]) && InMem(mem, [1, 2]) && Sorted(mem, [1, 2]) && !StackFits(mem, [1, 2])
  {
    var m := Node(Mmap, 0, 0x7fff_0000, 0x7fff_1000, 0x1000, -1, 0, prev, next);
    var mem := map[1 := Node(Unset, 0, 0, 0, 0, 0, 0, 2, 2), 2 := m.(prev := 1, next := 1)];
    assert Joined(mem, [1, 2], 0) && Joined(mem, [1, 2], 1);
  }

  lemma InsertedLast(ring: seq<nat>, x: nat)
    ensures Inserted(ring, |ring|, x) == ring + [x]
  {
  }

  lemma NextOf(mem: map<nat, Node>, ring: seq<nat>, k: nat)
    requires Linked(mem, ring) && k < |ring|
    ensures ring[k] in mem && mem[ring[k]].next == At(ring, k + 1)
  {
    LinkedAt(mem, ring, k);
  }

  lemma OnlyHead(mem: map<nat, Node>, h: nat)
    requires h in mem && mem[h].next == h && mem[h].prev == h
    ensures Linked(mem, [h]) && InMem(mem, [h]) && Sorted(mem, [h])
  {
  }

  lemma NotInUse(mem: map<nat, Node>, ring: seq<nat>)
    requires |ring| > 0 && ring[0] !in mem
    ensures !InMem(mem, ring)
  {
  }

  lemma AtStart()
    ensures Down(MMAP_START) == MMAP_START == EndOf(MMAP_START, 0)
  {
  }

  lemma NoneGone(mem: map<nat, Node>, ring: seq<nat>)
    requires ring != []
    ensures Rev(ring[1..0 + 1]) == [] && mem - Members(ring[1..0 + 1]) == mem
  {
    assert ring[1..1] == [];
  }

  /** While the first j nodes are gone, the next one and its successor can still be read. */
  lemma NextThere(mem: map<nat, Node>, ring: seq<nat>, j: nat)
    requires Linked(mem, ring) && j + 1 < |ring|
    ensures var m := mem - Members(ring[1..j + 1]);
            && ring[j + 1] in m && m[ring[j + 1]].next == At(ring, j + 2)
            && At(ring, j + 2) in m && m[At(ring, j + 2)].prev == ring[j + 1]
  {
    hide Joined;
    LinkedAt(mem, ring, j + 1);
    NotGone(ring, j, j + 1);
    NotGone(ring, j, if j + 2 == |ring| then 0 else j + 2);
  }

  lemma NotGone(ring: seq<nat>, j: nat, i: nat)
    requires Distinct(ring) && j < |ring| && i < |ring| && (i == 0 || i > j)
    ensures ring[i] !in Members(ring[1..j + 1])
  {
    hide Distinct;
    var s := ring[1..j + 1];
    forall m | 0 <= m < |s|
      ensures s[m] != ring[i]
    {
      PlacesDiffer(ring, m + 1, i);
    }
  }

  lemma HeadThere(mem: map<nat, Node>, ring: seq<nat>)
    requires Linked(mem, ring)
    ensures ring[0] in mem - Members(ring[1..|ring| - 1 + 1])
  {
    hide Joined;
    LinkedAt(mem, ring, 0);
    NotGone(ring, |ring| - 1, 0);
  }

  lemma AtHead(ring: seq<nat>, k: nat)
    requires 0 < k <= |ring| && Distinct(ring)
    ensures At(ring, k) == ring[0] <==> k == |ring|
  {
  }

  lemma RevSlice(ring: seq<nat>, j: nat)
    requires j + 1 < |ring|
    ensures Rev(ring[1..j + 2]) == [ring[j + 1]] + Rev(ring[1..j + 1])
  {
    assert ring[1..j + 2] == ring[1..j + 1] + [ring[j + 1]];
    RevMore(ring[1..j + 1], ring[j + 1]);
  }

  lemma GoneMore(mem: map<nat, Node>, ring: seq<nat>, j: nat)
    requires j + 1 < |ring|
    ensures mem - Members(ring[1..j + 1]) - {ring[j + 1]} == mem - Members(ring[1..j + 2])
  {
    assert ring[1..j + 2] == ring[1..j + 1] + [ring[j + 1]];
  }

  lemma AllGone(mem: map<nat, Node>, ring: seq<nat>)
    requires ring != []
    ensures mem - Members(ring[1..]) - {ring[0]} == mem - Members(ring)
  {
    assert ring == [ring[0]] + ring[1..];
  }

  /** The freed pages are not in use, and each is free once. */
  lemma FreedApart(mem: map<nat, Node>, ring: seq<nat>, free: seq<nat>, free': seq<nat>)
    requires Linked(mem, ring) && InMem(mem, ring) && Distinct(free) && forall i :: 0 <= i < |free| ==> free[i] !in mem
    requires free' == [ring[0]] + Rev(ring[1..]) + free
    ensures Distinct(free') && forall i :: 0 <= i < |free'| ==> free'[i] !in mem - Members(ring)
  {
    hide Joined;
    RevDistinct(ring[1..]);
    RevMembers(ring[1..]);
    var r := Rev(ring[1..]);
    forall i | 0 <= i < |r|
      ensures r[i] in mem && r[i] in ring && r[i] != ring[0]
    {
      assert r[i] in r;
      var k :| 0 <= k < |ring[1..]| && ring[1..][k] == r[i];
      assert ring[k + 1] == r[i];
    }
  }

  lemma {:induction false} RevMembers(s: seq<nat>)
    ensures |Rev(s)| == |s| && forall y :: y in Rev(s) <==> y in s
  {
    if s != [] {
      RevMembers(s[1..]);
      assert s == [s[0]] + s[1..];
    }
  }

  lemma {:induction false} RevDistinct(s: seq<nat>)
    requires Distinct(s)
    ensures Distinct(Rev(s))
  {
    if s != [] {
      RevDistinct(s[1..]);
      RevMembers(s[1..]);
      forall i | 0 <= i < |Rev(s[1..])|
        ensures Rev(s[1..])[i] != s[0]
      {
        assert Rev(s[1..])[i] in s[1..];
      }
    }
  }

  lemma LowIs(mem: map<nat, Node>, ring: seq<nat>, k: nat)
    requires InMem(mem, ring) && Sorted(mem, ring) && 0 < k < |ring|
    ensures Area(mem[ring[k]])
  {
  }

  /** No area starts below the first one. */
  lemma Lowest(mem: map<nat, Node>, ring: seq<nat>, k: nat)
    requires InMem(mem, ring) && Sorted(mem, ring) && 1 < |ring|
    ensures 1 <= k < |ring| ==> mem[ring[1]].addr <= mem[ring[k]].addr
  {
    assert Area(mem[ring[1]]);
  }

  lemma PickFits(low: nat, sz: nat)
    requires low % 4096 == 0 && low <= 0xffff_ffff_ffff_f000 && sz < low
    ensures var a := Down(low - sz);
            a <= 0xffff_ffff_ffff_f000 && Down(a) == a && (sz > 0 ==> a < EndOf(a, sz) <= low && a + sz <= EndOf(a, sz))
  {
    hide Up, EndOf;
    DownTwice(low - sz);
    if sz > 0 {
      FitsUnder(low, sz);
    }
  }

  lemma LastPage()
    ensures Down(0xffff_ffff_ffff_f001) == 0xffff_ffff_ffff_f000 && EndOf(0xffff_ffff_ffff_f001, 0) == 0
  {
  }

  lemma InsertedAtFront(ring: seq<nat>, x: nat)
    requires ring != []
    ensures |Inserted(ring, 1, x)| > 1 && Inserted(ring, 1, x)[1] == x
  {
  }

  lemma AtZero()
    ensures Down(0) == 0
  {
  }

  lemma NoWrap(a: nat)
    requires a <= 0xffff_ffff_ffff_f000
    ensures Down(a) <= EndOf(a, 0)
  {
    hide Up, Down;
    UpIs(a);
    Small(a);
  }

  /** A new mapping comes first, or what was first still does. */
  lemma FirstAfter(mem0: map<nat, Node>, ring0: seq<nat>, mem: map<nat, Node>, k: nat, x: nat)
    requires 0 < k <= |ring0| && InMem(mem0, ring0) && x in mem && InMem(mem, Inserted(ring0, k, x))
    requires forall y :: y in mem0 ==> y in mem && SameArea(mem[y], mem0[y])
    ensures |Inserted(ring0, k, x)| > 1 && Inserted(ring0, k, x)[1] in mem
    ensures if k == 1 then Inserted(ring0, k, x)[1] == x else mem[Inserted(ring0, k, x)[1]].kind == mem0[ring0[1]].kind
  {
    var t := Inserted(ring0, k, x);
    if k > 1 {
      assert t[1] == ring0[1] && t[k] == x;
      AreaSame(mem[t[1]], mem0[ring0[1]]);
    }
  }

  /** The first mapping is the one at place m. */
  ghost predicate FirstMmap(mem: map<nat, Node>, ring: seq<nat>, m: nat) {
    && 0 < m < |ring| && ring[m] in mem && mem[ring[m]].kind == Mmap
    && forall i :: 1 <= i < m ==> ring[i] in mem && mem[ring[i]].kind != Mmap
  }

  /** The file fields are no part of the list. */
  lemma FileOnly(mem: map<nat, Node>, mem': map<nat, Node>, ring: seq<nat>, x: nat)
    requires Linked(mem, ring) && InMem(mem, ring) && x in mem && x in mem'
    requires mem' == mem[x := mem[x].(fd := mem'[x].fd, fOff := mem'[x].fOff)]
    ensures Linked(mem', ring) && InMem(mem', ring) && (Sorted(mem, ring) <==> Sorted(mem', ring))
  {
    forall i | 0 <= i < |ring|
      ensures Joined(mem', ring, i)
    {
      LinkedAt(mem, ring, i);
    }
    assert forall i :: 0 <= i < |ring| ==>
        mem'[ring[i]].addr == mem[ring[i]].addr && mem'[ring[i]].end == mem[ring[i]].end
        && mem'[ring[i]].kind == mem[ring[i]].kind;
    assert forall i :: 0 <= i < |ring| ==> (Area(mem[ring[i]]) <==> Area(mem'[ring[i]]));
  }
}
