/**
 kernel/vm.c and kernel/kalloc.c as they run: a memory changed in place by walk, mappages and
 vmunmap, each proved against the flat map that the trees stand for.
 */
module VirtualMemory {
  import opened Paging
  import opened Options
  import opened PageTree

  /**
   What a routine of vm.c came back with; Panic stands for the kernel stopping there, Wild for its taking the memory at
   a direct-mapped address for a page-table entry, where the model stops.
   */
  datatype Outcome = Ok | NoMemory | Panic(why: Cause) | Wild

  datatype Cause = SizeZero | Remap | OutOfRange | NotAligned | NoTable | NotMapped | NotALeaf

  datatype WalkResult = Found(slot: Place) | Missing | DirectMapped(va: nat) | WalkPanic

  /** memset of n bytes to c. */
  function Fill(c: Byte, n: nat): (s: seq<Byte>)
    ensures |s| == n && forall i :: 0 <= i < n ==> s[i] == c
  {
    if n == 0 then [] else Fill(c, n - 1) + [c]
  }

  /** The allocator's list holds each free page once, and no page that is in use. */
  ghost predicate FreeListOk(m: Memory, freelist: seq<nat>) {
    && (forall i :: 0 <= i < |freelist| ==> freelist[i] < FRAMES && freelist[i] !in m)
    && (forall i, j :: 0 <= i < j < |freelist| ==> freelist[i] != freelist[j])
  }

  /** Every page is in use or on the list: none is lost. */
  ghost predicate Ledger(m: Memory, freelist: seq<nat>, ram: set<nat>) {
    forall p :: p in ram <==> p in m || p in freelist
  }

  function PagesFrom(first: nat, last: nat): (s: set<nat>)
    ensures forall p: nat :: p in s <==> first <= p < last
    decreases last
  {
    if first < last then PagesFrom(first, last - 1) + {last - 1} else {}
  }

  ghost predicate DataOk(m: Memory) {
    forall p :: p in m && m[p].Data? ==> IsData(m, p) && p < FRAMES
  }

  ghost predicate SameData(m: Memory, m': Memory) {
    && (forall p :: p in m && m[p].Data? ==> p in m' && m'[p] == m[p])
    && (forall p :: p in m' && m'[p].Data? ==> p in m && m[p].Data?)
  }

  /** As SameData, but for the data pages that were freed. */
  ghost predicate DataLess(m: Memory, m': Memory, gone: seq<nat>) {
    && (forall p :: p in m && m[p].Data? && p !in gone ==> p in m' && m'[p] == m[p])
    && (forall p :: p in m' && m'[p].Data? ==> p in m && m[p].Data? && p !in gone)
  }

  lemma UnmappedStep(v: FlatMap, root: nat, vp: nat, n: nat)
    ensures Unmapped(v, root, vp, 0)
    ensures Unmapped(v, root, vp, n) && Key(root, vp + n) in v && !v[Key(root, vp + n)].flags.v ==>
        Unmapped(v, root, vp, n + 1)
  {
  }

  lemma SameDataReflexive(m: Memory)
    ensures SameData(m, m)
  {
  }

  lemma SameDataTransitive(m: Memory, m1: Memory, m2: Memory)
    requires SameData(m, m1) && SameData(m1, m2)
    ensures SameData(m, m2)
  {
  }

  lemma SuffixTransitive(a: seq<nat>, b: seq<nat>, c: seq<nat>)
    requires IsSuffix(a, b) && IsSuffix(b, c)
    ensures IsSuffix(a, c)
  {
    assert b[|b| - |a|..] == c[|c| - |a|..];
  }

  lemma WalkStart(m: Memory, freelist: seq<nat>, level: map<nat, nat>, root: nat, vp: nat)
    ensures IsRoot(level, root) ==> root in level && level[root] == ROOT
    ensures Reaches(m, root, vp, ROOT, root, ROOT) && SameData(m, m) && IsSuffix(freelist, freelist)
  {
  }

  lemma EndOfWalk(m: Memory, page: nat, vp: nat)
    ensures Slot(m, page, vp, 0) == Some(Place(page, Px(0, vp)))
  {
  }

  lemma DataLessAppend(m: Memory, m1: Memory, m2: Memory, gone: seq<nat>, p: nat)
    requires DataLess(m, m1, gone) && DataLess(m1, m2, [p])
    ensures DataLess(m, m2, [p] + gone)
  {
  }

  predicate IsSuffix(s: seq<nat>, t: seq<nat>) { |s| <= |t| && s == t[|t| - |s|..] }

  /** At most n pages have been taken from the list t since. */
  predicate Used(s: seq<nat>, t: seq<nat>, n: int) { |t| <= |s| + n }

  lemma UsedMore(s: seq<nat>, t: seq<nat>, u: seq<nat>, n: int, m: int)
    requires Used(s, t, n) && Used(t, u, m)
    ensures Used(s, u, n + m)
  {
  }

  lemma UsedWeaker(s: seq<nat>, t: seq<nat>, n: int, m: int)
    requires Used(s, t, n) && n <= m
    ensures Used(s, t, m)
  {
  }

  lemma NoneUsed(s: seq<nat>, n: nat)
    ensures Used(s, s, n)
  {
  }

  /** Number of pages that [va, va+size) touches. */
  function PageCount(va: nat, size: nat): nat {
    if size == 0 then 0 else PageOf(va + size - 1) - PageOf(va) + 1
  }

  /** The flat map after mapping the n pages from vp to the n frames from pf. */
  ghost function InstallRun(v: FlatMap, root: nat, vp: nat, n: nat, pf: nat, perm: Flags): FlatMap {
    if n == 0 then v
    else InstallRun(v, root, vp, n - 1, pf, perm)[Key(root, vp + n - 1) := LeafPte(pf + n - 1, perm)]
  }

  /** The flat map after clearing the n pages from vp. */
  ghost function RemoveRun(v: FlatMap, root: nat, vp: nat, n: nat): FlatMap {
    if n == 0 then v else RemoveRun(v, root, vp, n - 1)[Key(root, vp + n - 1) := NULL_PTE]
  }

  /** Exactly the pages of the run have the new entries; every other page of every root keeps its own. */
  lemma {:induction false} InstallRunAt(v: FlatMap, root: nat, vp: nat, n: nat, pf: nat, perm: Flags, k: Key)
    requires k in v
    ensures var v' := InstallRun(v, root, vp, n, pf, perm);
            k in v' && v'[k] == if k.root == root && vp <= k.vp < vp + n then LeafPte(pf + k.vp - vp, perm) else v[k]
  {
    if n > 0 {
      InstallRunAt(v, root, vp, n - 1, pf, perm, k);
    }
  }

  lemma {:induction false} RemoveRunAt(v: FlatMap, root: nat, vp: nat, n: nat, k: Key)
    requires k in v
    ensures var v' := RemoveRun(v, root, vp, n);
            k in v' && v'[k] == if k.root == root && vp <= k.vp < vp + n then NULL_PTE else v[k]
  {
    if n > 0 {
      RemoveRunAt(v, root, vp, n - 1, k);
    }
  }

  lemma {:induction false} InstallRunKeys(v: FlatMap, root: nat, vp: nat, n: nat, pf: nat, perm: Flags)
    requires forall j :: vp <= j < vp + n ==> Key(root, j) in v
    ensures InstallRun(v, root, vp, n, pf, perm).Keys == v.Keys
  {
    if n > 0 {
      InstallRunKeys(v, root, vp, n - 1, pf, perm);
    }
  }

  lemma {:induction false} RemoveRunKeys(v: FlatMap, root: nat, vp: nat, n: nat)
    requires forall j :: vp <= j < vp + n ==> Key(root, j) in v
    ensures RemoveRun(v, root, vp, n).Keys == v.Keys
  {
    if n > 0 {
      RemoveRunKeys(v, root, vp, n - 1);
    }
  }

  lemma InstallRunStep(v: FlatMap, root: nat, vp: nat, n: nat, pf: nat, perm: Flags)
    ensures InstallRun(v, root, vp, 0, pf, perm) == v
    ensures InstallRun(v, root, vp, n + 1, pf, perm) ==
            InstallRun(v, root, vp, n, pf, perm)[Key(root, vp + n) := LeafPte(pf + n, perm)]
  {
  }

  /** None of the n pages from vp has a valid entry. */
  ghost predicate Unmapped(v: FlatMap, root: nat, vp: nat, n: nat) {
    forall j :: vp <= j < vp + n ==> Key(root, j) in v && !v[Key(root, j)].flags.v
  }

  lemma LinkKeepsPages(m: Memory, level: map<nat, nat>, place: map<nat, Place>, free: seq<nat>, p: nat, i: nat)
    requires WellFormed(m, level, place) && DataOk(m) && FreeListOk(m, free) && free != []
    requires p in level && level[p] > 0 && i < ENTRIES
    ensures var m' := Link(m, p, i, free[0]);
            (forall ram :: Ledger(m, free, ram) ==> Ledger(m', free[1..], ram)) && DataOk(m')
                && FreeListOk(m', free[1..]) && SameData(m, m')
  {
  }

  /** The next free page becomes a table. */
  lemma NewRootPages(m: Memory, level: map<nat, nat>, place: map<nat, Place>, freelist: seq<nat>, ram: set<nat>)
    requires WellFormed(m, level, place) && DataOk(m) && FreeListOk(m, freelist) && Ledger(m, freelist, ram)
        && freelist != []
    ensures var m' := m[freelist[0] := Table(Zeros(ENTRIES))];
            && freelist[0] !in level && freelist[0] < FRAMES
            && DataOk(m') && FreeListOk(m', freelist[1..]) && Ledger(m', freelist[1..], ram) && SameData(m, m')
  {
    assert freelist == [freelist[0]] + freelist[1..];
  }

  lemma RangeOf(a: nat, vp: nat)
    requires a == AddrOf(vp)
    ensures PageOf(a) == vp && (a < MAXVA <==> vp < MAXPAGE)
    ensures vp <= MAXPAGE ==> !Direct(a)
  {
  }

  lemma SamePart63(va: nat)
    ensures va / 4096 * 4096 / 0x8000_0000_0000_0000 == va / 0x8000_0000_0000_0000
  {
    var q := va / 0x8000_0000_0000_0000;
    assert va / 4096 >= q * 0x8_0000_0000_0000;
  }

  lemma SamePart60(va: nat)
    ensures va / 4096 * 4096 / 0x1000_0000_0000_0000 == va / 0x1000_0000_0000_0000
  {
    var q := va / 0x1000_0000_0000_0000;
    assert va / 4096 >= q * 0x1_0000_0000_0000;
  }

  /** An address is in a window exactly if its page is. */
  lemma DirectPage(va: nat)
    ensures Direct(AddrOf(PageOf(va))) <==> Direct(va)
  {
    SamePart63(va);
    SamePart60(va);
  }

  /** No window is near. */
  lemma NotDirect(va: nat)
    requires va < 0x1000_0000_0000_0000
    ensures !Direct(va)
  {
  }

  lemma LinkOverwrites(m: Memory, p: nat, i: nat, q: nat, d: Page)
    requires IsTable(m, p) && i < ENTRIES && p != q
    ensures var m' := m[q := d][q := Table(Zeros(ENTRIES))];
            IsTable(m', p) && SetPte(m', p, i, InteriorPte(q)) == Link(m, p, i, q)
  {
  }

  /** A leaf that vmunmap accepts. */
  predicate Mapped(w: Pte) { w.flags.v && !OnlyV(w.flags) }

  /** The frames of n pages from vp, last page first: the order in which kfree stacks them. */
  ghost function Frames(v: FlatMap, root: nat, vp: nat, n: nat): (s: seq<nat>)
    ensures |s| == n
  {
    if n == 0 then []
    else [if Key(root, vp + n - 1) in v then v[Key(root, vp + n - 1)].frame else 0] + Frames(v, root, vp, n - 1)
  }

  /** Each of the n pages from vp has an entry that vmunmap accepts. */
  ghost predicate AllMapped(v: FlatMap, root: nat, vp: nat, n: nat) {
    forall j :: vp <= j < vp + n ==> Key(root, j) in v && Mapped(v[Key(root, j)])
  }

  /** What kfree demands of the frames behind n pages from vp: data pages in use, each named once. */
  ghost predicate FramesOwned(v: FlatMap, m: Memory, root: nat, vp: nat, n: nat) {
    && (forall j :: vp <= j < vp + n && Key(root, j) in v && v[Key(root, j)].flags.v ==>
        IsData(m, v[Key(root, j)].frame))
    && (forall i, j | vp <= i < j < vp + n && Key(root, i) in v && Key(root, j) in v ::
          v[Key(root, i)].flags.v && v[Key(root, j)].flags.v ==> v[Key(root, i)].frame != v[Key(root, j)].frame)
  }

  lemma {:induction false} FrameNotGone(v: FlatMap, m: Memory, root: nat, vp: nat, n: nat, total: nat)
    requires FramesOwned(v, m, root, vp, total) && AllMapped(v, root, vp, n) && n < total
    requires Key(root, vp + total - 1) in v && v[Key(root, vp + total - 1)].flags.v
    ensures v[Key(root, vp + total - 1)].frame !in Frames(v, root, vp, n)
  {
    if n > 0 {
      FrameNotGone(v, m, root, vp, n - 1, total);
      assert Key(root, vp + n - 1) in v && Mapped(v[Key(root, vp + n - 1)]);
    }
  }

  /** State of vmunmap after n pages: they are cleared and, if asked, their frames are free. */
  ghost predicate Cleared(v: FlatMap, v1: FlatMap, m: Memory, f: seq<nat>, m1: Memory, f1: seq<nat>, root: nat,
      vp: nat, n: nat, doFree: bool) {
    && v1 == RemoveRun(v, root, vp, n) && AllMapped(v, root, vp, n)
    && f1 == (if doFree then Frames(v, root, vp, n) else []) + f
    && DataLess(m, m1, if doFree then Frames(v, root, vp, n) else [])
  }

  lemma NothingCleared(v: FlatMap, m: Memory, f: seq<nat>, root: nat, vp: nat, doFree: bool)
    ensures Cleared(v, v, m, f, m, f, root, vp, 0, doFree)
  {
    assert [] + f == f;
  }

  lemma ClearedIs(v: FlatMap, v1: FlatMap, m: Memory, f: seq<nat>, m1: Memory, f1: seq<nat>, root: nat, vp: nat,
      n: nat, doFree: bool)
    requires Cleared(v, v1, m, f, m1, f1, root, vp, n, doFree)
    ensures v1 == RemoveRun(v, root, vp, n) && AllMapped(v, root, vp, n)
    ensures doFree ==> f1 == Frames(v, root, vp, n) + f && DataLess(m, m1, Frames(v, root, vp, n))
    ensures !doFree ==> f1 == f && DataLess(m, m1, [])
  {
    hide RemoveRun, AllMapped, Frames, DataLess;
    assert [] + f == f;
  }

  /** The next page still has its entry, and its frame has not been freed. */
  lemma NextPage(v: FlatMap, v1: FlatMap, m: Memory, f: seq<nat>, m1: Memory, f1: seq<nat>, root: nat, vp: nat,
      n: nat, total: nat, doFree: bool)
    requires Cleared(v, v1, m, f, m1, f1, root, vp, n, doFree) && n < total
        && (doFree ==> FramesOwned(v, m, root, vp, total))
    ensures Key(root, vp + n) in v <==> Key(root, vp + n) in v1
    ensures Key(root, vp + n) in v ==> v1[Key(root, vp + n)] == v[Key(root, vp + n)]
    ensures doFree && Key(root, vp + n) in v && v[Key(root, vp + n)].flags.v ==> IsData(m1, v[Key(root, vp + n)].frame)
  {
    hide RemoveRun, Frames;
    RemoveRunKeys(v, root, vp, n);
    assert Key(root, vp + n) in v <==> Key(root, vp + n) in v1;
    if Key(root, vp + n) in v {
      RemoveRunAt(v, root, vp, n, Key(root, vp + n));
      if doFree && v[Key(root, vp + n)].flags.v {
        FramesFewer(v, m, root, vp, n + 1, total);
        FrameNotGone(v, m, root, vp, n, n + 1);
      }
    }
  }

  lemma FramesFewer(v: FlatMap, m: Memory, root: nat, vp: nat, n: nat, total: nat)
    requires FramesOwned(v, m, root, vp, total) && n <= total
    ensures FramesOwned(v, m, root, vp, n)
  {
  }

  lemma ClearedMore(v: FlatMap, v1: FlatMap, m: Memory, f: seq<nat>, m1: Memory, f1: seq<nat>, m2: Memory, f2: seq<nat>,
                    root: nat, vp: nat, n: nat, total: nat, doFree: bool)
    requires Cleared(v, v1, m, f, m1, f1, root, vp, n, doFree) && n < total && Key(root, vp + n) in v
        && Mapped(v[Key(root, vp + n)])
    requires f2 == (if doFree then [v[Key(root, vp + n)].frame] else []) + f1
    requires DataLess(m1, m2, if doFree then [v[Key(root, vp + n)].frame] else [])
    ensures Cleared(v, v1[Key(root, vp + n) := NULL_PTE], m, f, m2, f2, root, vp, n + 1, doFree)
  {
    hide Mapped, DataLess;
    if doFree {
      var p := v[Key(root, vp + n)].frame;
      DataLessAppend(m, m1, m2, Frames(v, root, vp, n), p);
      assert Frames(v, root, vp, n + 1) == [p] + Frames(v, root, vp, n);
      assert [p] + (Frames(v, root, vp, n) + f) == [p] + Frames(v, root, vp, n) + f;
    } else {
      DataLessNone(m, m1, m2);
      assert [] + f1 == f1;
    }
  }

  lemma DataLessNone(m: Memory, m1: Memory, m2: Memory)
    requires DataLess(m, m1, []) && DataLess(m1, m2, [])
    ensures DataLess(m, m2, [])
  {
  }

  class Kernel {
    var mem: Memory
    var freelist: seq<nat>
    ghost var level: map<nat, nat>
    ghost var place: map<nat, Place>
    ghost const ram: set<nat>  // every page kinit gave to the allocator

    ghost predicate Valid()
      reads this
    {
      && WellFormed(mem, level, place) && DataOk(mem) && FreeListOk(mem, freelist)
      && Ledger(mem, freelist, ram)
    }

    /** kinit: the pages from first up to last are freed one by one, so the last of them comes first in the list. */
    constructor (first: nat, last: nat)
      requires first <= last <= FRAMES
      ensures Valid() && mem == map[] && level == map[] && ram == PagesFrom(first, last)
      ensures |freelist| == last - first && forall i :: 0 <= i < |freelist| ==> freelist[i] == last - 1 - i
    {
      mem, freelist, level, place := map[], [], map[], map[];
      ram := PagesFrom(first, last);
      new;
      var p := first;
      while p < last
        invariant first <= p <= last && |freelist| == p - first
        invariant forall i :: 0 <= i < |freelist| ==> freelist[i] == p - 1 - i
        invariant mem == map[] && level == map[] && ram == PagesFrom(first, last)
      {
        freelist := [p] + freelist;
        p := p + 1;
      }
      forall q | q in ram
        ensures q in freelist
      {
        assert freelist[last - 1 - q] == q;
      }
    }

    /** uvmcreate: a root that translates nothing. */
    method UvmCreate() returns (r: Option<nat>)
      requires Valid()
      modifies this
      ensures Valid() && SameData(old(mem), mem)
      ensures r.None? <==> old(freelist) == []
      ensures r.None? ==> mem == old(mem) && freelist == [] && level == old(level) && place == old(place)
      ensures r.Some? ==> r.value == old(freelist)[0] && freelist == old(freelist)[1..]
      ensures r.Some? ==> r.value !in old(level) && level == old(level)[r.value := ROOT]
      ensures r.Some? ==> forall k :: (k in Flat() <==> k in old(Flat()) || (k.root == r.value && k.vp < MAXPAGE))
                                      && (k in Flat() ==> Flat()[k] == if k.root == r.value then NULL_PTE
                                          else old(Flat())[k])
    {
      hide View, Leaf, Slot, WellFormed, DataOk, FreeListOk, SameData, Ledger;
      ghost var m, lv, fl := mem, level, freelist;
      SameDataReflexive(m);
      r := Kalloc();
      if r.Some? {
        NewRootPages(m, lv, place, fl, ram);
        NewRootWellFormed(m, lv, place, r.value);
        assert mem[r.value := Table(Zeros(ENTRIES))] == m[r.value := Table(Zeros(ENTRIES))];
        mem := mem[r.value := Table(Zeros(ENTRIES))];
        level := level[r.value := ROOT];
        forall k
          ensures (k in Flat() <==> k in View(m, lv) || (k.root == r.value && k.vp < MAXPAGE))
                  && (k in Flat() ==> Flat()[k] == if k.root == r.value then NULL_PTE else View(m, lv)[k])
        {
          NewRootView(m, lv, place, r.value, k);
        }
      }
    }

    /** What the trees in memory translate. */
    ghost function Flat(): FlatMap
      reads this
    {
      View(mem, level)
    }

    /** The flat map covers every page below MAXVA of every root. */
    lemma FlatDomain(r: nat, vp: nat)
      ensures Key(r, vp) in Flat() <==> IsRoot(level, r) && vp < MAXPAGE
    {
    }

    /** The entry in the slot of a page is what the flat map says of it. */
    lemma FlatAt(r: nat, vp: nat, s: Place)
      requires Valid() && IsRoot(level, r) && vp < MAXPAGE && Slot(mem, r, vp, ROOT) == Some(s)
      ensures s.page in mem && mem[s.page].Table? && s.idx < |mem[s.page].ptes|
      ensures Key(r, vp) in Flat() && Flat()[Key(r, vp)] == mem[s.page].ptes[s.idx]
    {
      SlotIsTable(mem, level, place, r, vp, ROOT);
    }

    /** The page comes off the front of the list, filled with the byte 5. */
    method Kalloc() returns (r: Option<nat>)
      requires Valid()
      modifies this`mem, this`freelist
      ensures Valid() && Flat() == old(Flat())
      ensures r.None? <==> old(freelist) == []
      ensures r.None? ==> mem == old(mem) && freelist == []
      ensures r.Some? ==> r.value == old(freelist)[0] && freelist == old(freelist)[1..]
      ensures r.Some? ==> mem == old(mem)[r.value := Data(Fill(5, PGSIZE))]
    {
      if freelist == [] {
        return None;
      }
      r := Some(freelist[0]);
      ghost var m := mem;
      freelist := freelist[1..];
      mem := mem[r.value := Data(Fill(5, PGSIZE))];
      SameTablesView(m, mem, level, place);
    }

    /** The page goes to the front of the list. */
    method Kfree(p: nat)
      requires Valid() && IsData(mem, p)
      modifies this`mem, this`freelist
      ensures Valid() && Flat() == old(Flat())
      ensures mem == old(mem) - {p} && freelist == [p] + old(freelist)
    {
      ghost var m := mem;
      mem := mem - {p};
      freelist := [p] + freelist;
      SameTablesView(m, mem, level, place);
    }

    /** memset or memmove of a whole data page. */
    method StorePage(p: nat, bytes: seq<Byte>)
      requires Valid() && IsData(mem, p) && |bytes| == PGSIZE
      modifies this`mem
      ensures Valid() && Flat() == old(Flat())
      ensures mem == old(mem)[p := Data(bytes)]
    {
      ghost var m := mem;
      mem := mem[p := Data(bytes)];
      SameTablesView(m, mem, level, place);
    }

    /** A fresh zeroed table, linked into the invalid entry i of table p. */
    method AllocTable(p: nat, i: nat) returns (q: Option<nat>)
      requires Valid() && p in level && level[p] > 0 && i < ENTRIES && !mem[p].ptes[i].flags.v
      modifies this
      ensures Valid() && Flat() == old(Flat())
      ensures q.None? <==> old(freelist) == []
      ensures q.None? ==> mem == old(mem) && freelist == [] && level == old(level) && place == old(place)
      ensures q.Some? ==> q.value == old(freelist)[0] && freelist == old(freelist)[1..]
      ensures q.Some? ==> q.value !in old(level) && q.value < FRAMES
      ensures q.Some? ==> mem == Link(old(mem), p, i, q.value) && SameData(old(mem), mem)
      ensures q.Some? ==> level == old(level)[q.value := old(level)[p] - 1]
    {
      hide View, Leaf, Slot, WellFormed, DataOk, FreeListOk, SameData, Ledger;
      ghost var m, lv, pl, fl := mem, level, place, freelist;
      FreshPage(p);
      q := Kalloc();
      if q.Some? {
        LinkOverwrites(m, p, i, q.value, Data(Fill(5, PGSIZE)));
        LinkKeepsPages(m, lv, pl, fl, p, i);
        LinkWellFormed(m, lv, pl, p, i, q.value);
        LinkView(m, lv, pl, p, i, q.value);
        mem := mem[q.value := Table(Zeros(ENTRIES))];
        mem := SetPte(mem, p, i, InteriorPte(q.value));
        level := level[q.value := level[p] - 1];
        place := place[q.value := Place(p, i)];
      }
    }

    /** The page that kalloc hands out next is in no use. */
    lemma FreshPage(p: nat)
      requires Valid() && p in level
      ensures IsTable(mem, p)
      ensures freelist != [] ==> freelist[0] !in mem && freelist[0] !in level && freelist[0] < FRAMES
                                 && freelist[0] != p
    {
    }

    /** One level of the walk for vp: the table under `page`, made if it is missing and alloc is set. */
    method Descend(ghost root: nat, vp: nat, page: nat, l: nat, alloc: bool) returns (q: Option<nat>)
      requires Valid() && IsRoot(level, root)
      requires page in level && level[page] == l && 0 < l <= ROOT
      requires Reaches(mem, root, vp, ROOT, page, l)
      modifies this
      ensures Valid() && Flat() == old(Flat()) && IsRoot(level, root)
      ensures SameData(old(mem), mem) && IsSuffix(freelist, old(freelist))
      ensures !alloc ==> mem == old(mem) && freelist == old(freelist) && level == old(level) && place == old(place)
      ensures q.Some? ==> q.value in level && level[q.value] == l - 1 && Reaches(mem, root, vp, ROOT, q.value, l - 1)
      ensures q.None? ==> Slot(mem, root, vp, ROOT) == None && (alloc ==> freelist == [])
      ensures Used(freelist, old(freelist), if q.Some? then 1 else 0)
    {
      hide View, Leaf, Px, DataOk, FreeListOk, Ledger, SameData;
      SameDataReflexive(mem);
      var i := Px(l, vp);
      ReachesSlot(mem, root, vp, ROOT, page, l);
      if mem[page].ptes[i].flags.v {
        assert ChildOk(mem[page].ptes[i].frame, Place(page, i), l - 1, level, place);
        ReachesStep(mem, root, vp, ROOT, page, l);
        return Some(mem[page].ptes[i].frame);
      }
      if !alloc {
        return None;
      }
      ghost var m, lv, pl := mem, level, place;
      q := AllocTable(page, i);
      if q.Some? {
        ReachesLink(m, lv, pl, root, vp, ROOT, page, l, q.value);
      }
    }

    /**
     The entry of va in the tree of root. With alloc, missing tables are taken from the allocator;
     running out of pages leaves the tables linked so far, and no translation changed.
     */
    method Walk(root: nat, va: nat, alloc: bool) returns (r: WalkResult)
      requires Valid() && IsRoot(level, root)
      modifies this
      ensures Valid() && Flat() == old(Flat()) && IsRoot(level, root)
      ensures SameData(old(mem), mem) && IsSuffix(freelist, old(freelist))
      ensures !alloc ==> mem == old(mem) && freelist == old(freelist) && level == old(level) && place == old(place)
      ensures r.DirectMapped? <==> Direct(va)
      ensures r.WalkPanic? <==> !Direct(va) && va >= MAXVA
      ensures r.Found? ==> Slot(mem, root, PageOf(va), ROOT) == Some(r.slot)
      ensures r.Missing? ==> Slot(mem, root, PageOf(va), ROOT) == None && (alloc ==> freelist == [])
      ensures Used(freelist, old(freelist), if r.Found? then ROOT else if r.Missing? then ROOT - 1 else 0)
    {
      hide *;
      NoneUsed(freelist, 0);
      WalkStart(mem, freelist, level, root, PageOf(va));
      if Direct(va) {
        return DirectMapped(va);
      }
      if va >= MAXVA {
        return WalkPanic;
      }
      var vp := PageOf(va);
      var page := root;
      var l := ROOT;
      while l > 0
        invariant 0 <= l <= ROOT && Valid() && Flat() == old(Flat()) && IsRoot(level, root)
        invariant page in level && level[page] == l
        invariant Reaches(mem, root, vp, ROOT, page, l)
        invariant SameData(old(mem), mem) && IsSuffix(freelist, old(freelist))
        invariant Used(freelist, old(freelist), ROOT - l)
        invariant !alloc ==> mem == old(mem) && freelist == old(freelist) && level == old(level) && place == old(place)
      {
        ghost var m1, f1 := mem, freelist;
        var q := Descend(root, vp, page, l, alloc);
        SameDataTransitive(old(mem), m1, mem);
        SuffixTransitive(freelist, f1, old(freelist));
        UsedMore(freelist, f1, old(freelist), if q.Some? then 1 else 0, ROOT - l);
        if q.None? {
          UsedWeaker(freelist, old(freelist), ROOT - l, ROOT - 1);
          return Missing;
        }
        page := q.value;
        l := l - 1;
      }
      ReachesSlot(mem, root, vp, ROOT, page, 0);
      EndOfWalk(mem, page, vp);
      r := Found(Place(page, Px(0, vp)));
    }

    /** Stores w in the leaf entry that walk found for page vp. */
    method WritePte(ghost root: nat, ghost vp: nat, s: Place, w: Pte)
      requires Valid() && IsRoot(level, root) && vp < MAXPAGE && Slot(mem, root, vp, ROOT) == Some(s)
      modifies this`mem
      ensures Valid() && Flat() == old(Flat())[Key(root, vp) := w]
      ensures SameData(old(mem), mem)
    {
      SetLeafView(mem, level, place, root, vp, s, w);
      mem := SetPte(mem, s.page, s.idx, w);
    }

    /** Maps page vp, at address a, to frame pf: the body of the loop of mappages. */
    method MapPage(root: nat, a: nat, ghost vp: nat, pf: nat, perm: Flags) returns (r: Outcome)
      requires Valid() && IsRoot(level, root) && a == AddrOf(vp) && !Direct(a)
      modifies this
      ensures Valid() && IsRoot(level, root) && !r.Wild?
      ensures SameData(old(mem), mem) && IsSuffix(freelist, old(freelist))
      ensures r.Ok? ==> vp < MAXPAGE && Key(root, vp) in old(Flat()) && !old(Flat())[Key(root, vp)].flags.v
      ensures r.Ok? ==> Flat() == old(Flat())[Key(root, vp) := LeafPte(pf, perm)]
      ensures !r.Ok? ==> Flat() == old(Flat())
      ensures r.NoMemory? ==> freelist == []
      ensures Used(freelist, old(freelist), if r.NoMemory? then ROOT - 1 else ROOT)
      ensures r.Panic? ==> r.why in {Remap, OutOfRange}
      ensures r == Panic(Remap) ==> vp < MAXPAGE && Key(root, vp) in old(Flat()) && old(Flat())[Key(root, vp)].flags.v
      ensures r == Panic(OutOfRange) ==> vp >= MAXPAGE
    {
      hide *;
      RangeOf(a, vp);
      var w := Walk(root, a, true);
      match w
      case Missing => return NoMemory;
      case WalkPanic =>
        UsedWeaker(freelist, old(freelist), 0, ROOT);
        return Panic(OutOfRange);
      case DirectMapped(_) => assert false;
      case Found(s) =>
        FlatAt(root, vp, s);
        if mem[s.page].ptes[s.idx].flags.v {
          return Panic(Remap);
        }
        ghost var m := mem;
        WritePte(root, vp, s, LeafPte(pf, perm));
        SameDataTransitive(old(mem), m, mem);
        return Ok;
    }

    /**
     Maps the pages of [va, va+size) to the frames from pf on. Exactly the first n pages got their new
     entry: all of them on success, those before the failing page otherwise.
     */
    method Mappages(root: nat, va: nat, size: nat, pf: nat, perm: Flags) returns (r: Outcome, ghost n: nat)
      requires Valid() && IsRoot(level, root) && va + size <= 0x1_0000_0000_0000_0000
      modifies this
      ensures Valid() && IsRoot(level, root)
      ensures n <= PageCount(va, size)
      ensures Flat() == InstallRun(old(Flat()), root, PageOf(va), n, pf, perm)
      ensures SameData(old(mem), mem) && IsSuffix(freelist, old(freelist))
      ensures Unmapped(old(Flat()), root, PageOf(va), n)
      ensures r == Panic(SizeZero) <==> size == 0
      ensures r.Wild? <==> size > 0 && Direct(va)
      ensures r.Wild? ==> n == 0
      ensures r.Ok? ==> n == PageCount(va, size)
      ensures !r.Ok? && size > 0 ==> n < PageCount(va, size)
      ensures |old(freelist)| <= |freelist| + 3 * n + if r.Ok? then 0 else if r.NoMemory? then 2 else 3
      ensures r.NoMemory? ==> freelist == []
      ensures r == Panic(Remap) ==>
                Key(root, PageOf(va) + n) in old(Flat()) && old(Flat())[Key(root, PageOf(va) + n)].flags.v
      ensures r == Panic(OutOfRange) ==> PageOf(va) + n >= MAXPAGE
      ensures r.Panic? ==> r.why in {SizeZero, Remap, OutOfRange}
    {
      hide View, Valid, Leaf, Slot, IsRoot, SameData, InstallRun, LeafPte, Unmapped, Direct;
      n := 0;
      SameDataReflexive(mem);
      InstallRunStep(Flat(), root, PageOf(va), 0, pf, perm);
      UnmappedStep(Flat(), root, PageOf(va), 0);
      if size == 0 {
        return Panic(SizeZero), 0;
      }
      DirectPage(va);
      if Direct(va) {
        return Wild, 0;
      }
      var a := AddrOf(PageOf(va));
      var last := AddrOf(PageOf(va + size - 1));
      var p := pf;
      ghost var vp, vl, v := PageOf(va), PageOf(va + size - 1), Flat();
      forall j: nat | j < MAXPAGE ensures Key(root, j) in v { FlatDomain(root, j); }
      while true
        invariant Valid() && IsRoot(level, root)
        invariant a == AddrOf(vp + n) && vp + n <= vl && p == pf + n && !Direct(a)
        invariant Flat() == InstallRun(v, root, vp, n, pf, perm)
        invariant SameData(old(mem), mem) && IsSuffix(freelist, old(freelist))
        invariant |old(freelist)| <= |freelist| + 3 * n
        invariant Unmapped(v, root, vp, n)
        invariant forall j: nat :: j < MAXPAGE ==> Key(root, j) in v
        decreases vl - vp - n
      {
        if vp + n < MAXPAGE {
          assert Key(root, vp + n) in v;
          InstallRunAt(v, root, vp, n, pf, perm, Key(root, vp + n));
        }
        ghost var m := mem;
        r := MapPage(root, a, vp + n, p, perm);
        SameDataTransitive(old(mem), m, mem);
        if !r.Ok? {
          return;
        }
        InstallRunStep(v, root, vp, n, pf, perm);
        UnmappedStep(v, root, vp, n);
        n := n + 1;
        if a == last {
          return;
        }
        a := a + PGSIZE;
        p := p + 1;
        RangeOf(a, vp + n);
      }
    }

    /** Clears the entry of page vp, at address a: the body of the loop of vmunmap. */
    method UnmapPage(root: nat, a: nat, ghost vp: nat, doFree: bool) returns (r: Outcome)
      requires Valid() && IsRoot(level, root) && a == AddrOf(vp) && !Direct(a)
      requires doFree && Key(root, vp) in Flat() && Flat()[Key(root, vp)].flags.v ==>
          IsData(mem, Flat()[Key(root, vp)].frame)
      modifies this
      ensures Valid() && level == old(level)
      ensures r.Ok? ==> vp < MAXPAGE && Key(root, vp) in old(Flat()) && Mapped(old(Flat())[Key(root, vp)])
      ensures r.Ok? ==> Flat() == old(Flat())[Key(root, vp) := NULL_PTE]
      ensures r.Ok? && doFree ==> freelist == [old(Flat())[Key(root, vp)].frame] + old(freelist)
      ensures r.Ok? && doFree ==> DataLess(old(mem), mem, [old(Flat())[Key(root, vp)].frame])
      ensures r.Ok? && !doFree ==> freelist == old(freelist) && DataLess(old(mem), mem, [])
      ensures !r.Ok? ==> mem == old(mem) && freelist == old(freelist)
      ensures !r.Ok? ==> r.Panic? && r.why in {OutOfRange, NoTable, NotMapped, NotALeaf}
      ensures r == Panic(OutOfRange) ==> vp >= MAXPAGE
      ensures !r.Ok? && r != Panic(OutOfRange) ==>
                Key(root, vp) in old(Flat()) && !Mapped(old(Flat())[Key(root, vp)])
    {
      hide View, Leaf, Slot, WellFormed, FreeListOk, DataOk, Direct, Px;
      RangeOf(a, vp);
      var w := Walk(root, a, false);
      match w
      case WalkPanic => return Panic(OutOfRange);
      case DirectMapped(_) => assert false;
      case Missing =>
        FlatMissing(root, vp);
        return Panic(NoTable);
      case Found(s) =>
        FlatAt(root, vp, s);
        var pte := mem[s.page].ptes[s.idx];
        if !pte.flags.v {
          return Panic(NotMapped);
        }
        if OnlyV(pte.flags) {
          return Panic(NotALeaf);
        }
        ghost var m := mem;
        if doFree {
          SlotAfterDrop(root, vp, pte.frame);
          Kfree(pte.frame);
        }
        WritePte(root, vp, s, NULL_PTE);
        return Ok;
    }

    lemma FlatMissing(r: nat, vp: nat)
      requires IsRoot(level, r) && vp < MAXPAGE && Slot(mem, r, vp, ROOT) == None
      ensures Key(r, vp) in Flat() && Flat()[Key(r, vp)] == NULL_PTE
    {
    }

    /** Freeing a data page moves no slot. */
    lemma SlotAfterDrop(r: nat, vp: nat, p: nat)
      requires Valid() && IsRoot(level, r) && IsData(mem, p)
      ensures Slot(mem - {p}, r, vp, ROOT) == Slot(mem, r, vp, ROOT)
    {
      SameTablesWalk(mem, mem - {p}, level, place, r, vp, ROOT);
    }

    /**
     Clears the entries of npages pages from va and, if asked, frees their frames. Exactly the first n
     pages were cleared: all of them on success, those before the page that stops the kernel otherwise.
     */
    method Vmunmap(root: nat, va: nat, npages: nat, doFree: bool) returns (r: Outcome, ghost n: nat)
      requires Valid() && IsRoot(level, root) && va + AddrOf(npages) <= 0x1_0000_0000_0000_0000
      requires doFree ==> FramesOwned(Flat(), mem, root, PageOf(va), npages)
      modifies this
      ensures Valid() && level == old(level)
      ensures n <= npages
      ensures Flat() == RemoveRun(old(Flat()), root, PageOf(va), n)
      ensures AllMapped(old(Flat()), root, PageOf(va), n)
      ensures doFree ==> freelist == Frames(old(Flat()), root, PageOf(va), n) + old(freelist)
      ensures doFree ==> DataLess(old(mem), mem, Frames(old(Flat()), root, PageOf(va), n))
      ensures !doFree ==> freelist == old(freelist) && DataLess(old(mem), mem, [])
      ensures r == Panic(NotAligned) <==> va % 4096 != 0
      ensures r == Panic(NotAligned) ==> n == 0
      ensures r.Ok? ==> n == npages
      ensures r.Wild? <==> va % 4096 == 0 && npages > 0 && Direct(va)
      ensures r.Wild? ==> n == 0
      ensures !r.Ok? ==> r.Panic? || r.Wild?
      ensures !r.Ok? && r != Panic(NotAligned) ==> n < npages
      ensures r == Panic(OutOfRange) ==> PageOf(va) + n >= MAXPAGE
      ensures r.Panic? && r != Panic(NotAligned) && r != Panic(OutOfRange) ==>
                Key(root, PageOf(va) + n) in old(Flat()) && !Mapped(old(Flat())[Key(root, PageOf(va) + n)])
    {
      hide View, Leaf, Slot, Valid, Mapped, Cleared, RemoveRun, Frames, DataLess, AllMapped, FramesOwned, Direct;
      n := 0;
      ghost var vp, v := PageOf(va), Flat();
      NothingCleared(v, mem, freelist, root, vp, doFree);
      if va % 4096 != 0 {
        ClearedIs(v, v, mem, freelist, mem, freelist, root, vp, n, doFree);
        return Panic(NotAligned), 0;
      }
      if npages > 0 && Direct(va) {
        ClearedIs(v, v, mem, freelist, mem, freelist, root, vp, n, doFree);
        return Wild, 0;
      }
      var a := va;
      while a < va + AddrOf(npages)
        invariant Valid() && level == old(level)
        invariant a == AddrOf(vp + n) && n <= npages && (npages > 0 ==> !Direct(a))
        invariant Cleared(v, Flat(), old(mem), old(freelist), mem, freelist, root, vp, n, doFree)
      {
        ghost var m, f, v1 := mem, freelist, Flat();
        NextPage(v, v1, old(mem), old(freelist), m, f, root, vp, n, npages, doFree);
        FlatDomain(root, vp + n);
        r := UnmapPage(root, a, vp + n, doFree);
        if !r.Ok? {
          ClearedIs(v, Flat(), old(mem), old(freelist), mem, freelist, root, vp, n, doFree);
          return;
        }
        ClearedMore(v, v1, old(mem), old(freelist), m, f, mem, freelist, root, vp, n, npages, doFree);
        n := n + 1;
        a := a + PGSIZE;
        RangeOf(a, vp + n);
      }
      ClearedIs(v, Flat(), old(mem), old(freelist), mem, freelist, root, vp, n, doFree);
      r := Ok;
    }
  }
}
