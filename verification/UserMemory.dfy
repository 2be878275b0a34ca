/**
 User memory on top of the page tables: growing it, copying it for fork, and moving bytes between it
 and the kernel (kernel/vm.c). The bytes a process sees are a function of the flat map and the frames.
 */
module UserMemory {
  import opened Paging
  import opened Options
  import opened PageTree
  import PteWords
  import opened VirtualMemory

  /** walkaddr accepts the entry: valid, with a privilege-level bit. */
  predicate User(w: Pte) { w.flags.v && (w.flags.plv0 || w.flags.plv1) }

  /** The tests of walkaddr and vmunmap on the word: the bits V and PLV, and flags other than V. */
  lemma UserIs(w: bv64)
    ensures User(PteWords.PteOf(w)) <==> w & 1 != 0 && w & 0xc != 0
    ensures Mapped(PteWords.PteOf(w)) <==> w & 1 != 0 && w & 0xE000_0000_0000_01FF != 1
  {
    PteWords.OnlyVIs(w);
  }

  /** The byte that the process whose table is root sees at va; None where access fails. */
  ghost function UserByte(v: FlatMap, m: Memory, root: nat, va: nat): Option<Byte> {
    var k := Key(root, PageOf(va));
    if k in v && User(v[k]) && IsData(m, v[k].frame) then Some(m[v[k].frame].bytes[va % 4096]) else None
  }

  /** Every user page of every process has a data frame, and no two share one. */
  ghost predicate Owned(v: FlatMap, m: Memory) {
    && (forall k :: k in v && User(v[k]) ==> IsData(m, v[k].frame))
    && (forall j, k | j in v && k in v :: User(v[j]) && User(v[k]) && j != k ==> v[j].frame != v[k].frame)
  }

  /** The flat map after storing the entries ws in the pages from vp on. */
  ghost function InstallSeq(v: FlatMap, root: nat, vp: nat, ws: seq<Pte>): FlatMap {
    if ws == [] then v
    else InstallSeq(v, root, vp, ws[..|ws| - 1])[Key(root, vp + |ws| - 1) := ws[|ws| - 1]]
  }

  lemma {:induction false} InstallSeqAt(v: FlatMap, root: nat, vp: nat, ws: seq<Pte>, k: Key)
    requires k in v
    ensures var v' := InstallSeq(v, root, vp, ws);
            k in v' && v'[k] == if k.root == root && vp <= k.vp < vp + |ws| then ws[k.vp - vp] else v[k]
  {
    if ws != [] {
      InstallSeqAt(v, root, vp, ws[..|ws| - 1], k);
    }
  }

  lemma {:induction false} InstallSeqKeys(v: FlatMap, root: nat, vp: nat, ws: seq<Pte>)
    requires forall j :: vp <= j < vp + |ws| ==> Key(root, j) in v
    ensures InstallSeq(v, root, vp, ws).Keys == v.Keys
  {
    if ws != [] {
      InstallSeqKeys(v, root, vp, ws[..|ws| - 1]);
    }
  }

  /** The n pages from vp exist and are empty. */
  ghost predicate Empty(v: FlatMap, root: nat, vp: nat, n: nat) {
    forall j :: vp <= j < vp + n ==> Key(root, j) in v && v[Key(root, j)] == NULL_PTE
  }

  /** Clearing pages that were filled one by one gives the flat map back. */
  lemma RemoveUndoesSeq(v: FlatMap, root: nat, vp: nat, ws: seq<Pte>)
    requires Empty(v, root, vp, |ws|)
    ensures RemoveRun(InstallSeq(v, root, vp, ws), root, vp, |ws|) == v
  {
    var w := InstallSeq(v, root, vp, ws);
    InstallSeqKeys(v, root, vp, ws);
    RemoveRunKeys(w, root, vp, |ws|);
    forall k | k in v
      ensures RemoveRun(w, root, vp, |ws|)[k] == v[k]
    {
      InstallSeqAt(v, root, vp, ws, k);
      RemoveRunAt(w, root, vp, |ws|, k);
    }
  }

  /** All data of m is untouched in m', and the data pages new in m' are exactly fs, each once. */
  ghost predicate DataMore(m: Memory, m': Memory, fs: seq<nat>) {
    && (forall p :: p in m && m[p].Data? ==> p in m' && m'[p] == m[p] && p !in fs)
    && (forall p :: p in m' && m'[p].Data? ==> (p in m && m[p].Data?) || p in fs)
    && (forall i :: 0 <= i < |fs| ==> IsData(m', fs[i]) && fs[i] < FRAMES)
    && (forall i, j :: 0 <= i < j < |fs| ==> fs[i] != fs[j])
  }

  ghost function FrameSeq(ws: seq<Pte>): (fs: seq<nat>)
    ensures |fs| == |ws| && forall i :: 0 <= i < |ws| ==> fs[i] == ws[i].frame
  {
    seq(|ws|, i requires 0 <= i < |ws| => ws[i].frame)
  }

  /** A frame that was in no memory so far can back one more user page. */
  lemma OwnedInstall(v: FlatMap, m: Memory, m': Memory, k: Key, w: Pte)
    requires Owned(v, m) && DataMore(m, m', [w.frame])
    ensures Owned(v[k := w], m')
  {
    assert [w.frame][0] == w.frame;
  }

  lemma FreshData(m: Memory, m1: Memory, m2: Memory, f: nat, bytes: seq<Byte>)
    requires f !in m && f < FRAMES && |bytes| == PGSIZE
    requires m1 == m[f := Data(bytes)] && SameData(m1, m2)
    ensures DataMore(m, m2, [f]) && f in m2 && m2[f] == Data(bytes)
    ensures m2[f].Data? && SameData(m, m2 - {f})
  {
  }

  /** Mapping one fresh page that holds the given bytes: the common step of uvmalloc and uvmcopy. */
  method MapFresh(k: Kernel, root: nat, vp: nat, bytes: seq<Byte>, perm: Flags) returns (r: Outcome, ghost f: nat)
    requires k.Valid() && IsRoot(k.level, root) && |bytes| == PGSIZE && AddrOf(vp) + 4096 <= 0x1000_0000_0000_0000
    modifies k
    ensures k.Valid() && IsRoot(k.level, root) && !r.Wild?
    ensures r.Ok? ==> vp < MAXPAGE && DataMore(old(k.mem), k.mem, [f]) && f in k.mem && k.mem[f] == Data(bytes)
    ensures r.Ok? ==> k.Flat() == old(k.Flat())[Key(root, vp) := LeafPte(f, perm)] && LeafPte(f, perm).frame == f
                      && f < FRAMES
    ensures !r.Ok? ==> k.Flat() == old(k.Flat())
    ensures r.NoMemory? ==> SameData(old(k.mem), k.mem) && |old(k.freelist)| < 4
    ensures r.Ok? ==> |old(k.freelist)| <= |k.freelist| + 4
    ensures r.Panic? ==> vp >= MAXPAGE || (Key(root, vp) in old(k.Flat()) && old(k.Flat())[Key(root, vp)].flags.v)
  {
    hide View, Leaf, Slot, WellFormed, DataOk, FreeListOk, Ledger, InstallRun, SameData, DataMore, LeafPte, Px;
    hide Paging.Direct, PageCount, PageOf, IsSuffix;
    f := 0;
    ghost var m, v := k.mem, k.Flat();
    k.FreshPage(root);
    k.FlatDomain(root, vp);
    SameDataReflexive(m);
    var p := k.Kalloc();
    if p.None? {
      return NoMemory, 0;
    }
    f := p.value;
    LeafOf(f, perm);
    k.StorePage(p.value, bytes);
    assert k.mem == m[f := Data(bytes)];
    ghost var n;
    OnePage(vp);
    NotDirect(AddrOf(vp));
    r, n := k.Mappages(root, AddrOf(vp), PGSIZE, p.value, perm);
    InstallOne(v, root, vp, n, p.value, perm);
    assert n == 1 ==> Key(root, vp) in v;
    FreshData(m, m[f := Data(bytes)], k.mem, f, bytes);
    if r.NoMemory? {
      k.Kfree(p.value);
    }
  }

  lemma OnePage(vp: nat)
    ensures PageCount(AddrOf(vp), PGSIZE) == 1 && PageOf(AddrOf(vp)) == vp
  {
  }

  lemma InstallOne(v: FlatMap, root: nat, vp: nat, n: nat, pf: nat, perm: Flags)
    ensures n == 0 ==> InstallRun(v, root, vp, n, pf, perm) == v
    ensures n == 1 ==> InstallRun(v, root, vp, n, pf, perm) == v[Key(root, vp) := LeafPte(pf, perm)]
  {
    if n == 1 {
      assert InstallRun(v, root, vp, 0, pf, perm) == v;
    }
  }

  /** The bytes a run of pages holds, as one entry a page; what fork must reproduce. */
  ghost predicate SamePages(v: FlatMap, m: Memory, parent: nat, m': Memory, ws: seq<Pte>) {
    forall j :: 0 <= j < |ws| ==> SamePage(v, m, Key(parent, j), m', ws[j])
  }

  predicate SamePage(v: FlatMap, m: Memory, k: Key, m': Memory, w: Pte) {
    && k in v && v[k].flags.v && IsData(m, v[k].frame)
    && w.frame in m' && m'[w.frame] == m[v[k].frame]
    && w.flags == LowFlags(v[k].flags).(v := true, mat := true, d := true)
  }

  lemma DataMoreAppend(m: Memory, m1: Memory, m2: Memory, fs: seq<nat>, f: nat)
    requires DataMore(m, m1, fs) && DataMore(m1, m2, [f])
    ensures DataMore(m, m2, fs + [f])
  {
    assert [f][0] == f;
  }

  /** Number of pages that hold the first sz bytes. */
  function PagesFor(sz: nat): nat { (sz + 4095) / 4096 }

  lemma InstallSeqSnoc(v: FlatMap, root: nat, vp: nat, ws: seq<Pte>, w: Pte)
    ensures InstallSeq(v, root, vp, ws + [w]) == InstallSeq(v, root, vp, ws)[Key(root, vp + |ws|) := w]
    ensures FrameSeq(ws + [w]) == FrameSeq(ws) + [w.frame]
  {
    assert (ws + [w])[..|ws|] == ws;
  }

  lemma LeafOf(f: nat, perm: Flags)
    requires f < FRAMES
    ensures Mapped(LeafPte(f, perm)) && LeafPte(f, perm).frame == f && f < FRAMES
  {
  }

  /** The copy of an entry has its flags, as far as they survive an int. */
  lemma LeafFlags(f: nat, w: Pte)
    ensures LeafPte(f, LowFlags(w.flags)).flags == LowFlags(w.flags).(v := true, mat := true, d := true)
  {
  }

  lemma SamePagesSnoc(v: FlatMap, m: Memory, parent: nat, m1: Memory, m2: Memory, ws: seq<Pte>, f: nat)
    requires SamePages(v, m, parent, m1, ws) && DataMore(m, m1, FrameSeq(ws)) && DataMore(m1, m2, [f])
    requires Key(parent, |ws|) in v && v[Key(parent, |ws|)].flags.v && IsData(m, v[Key(parent, |ws|)].frame)
    requires f in m2 && m2[f] == m[v[Key(parent, |ws|)].frame] && f < FRAMES
    ensures SamePages(v, m, parent, m2, ws + [LeafPte(f, LowFlags(v[Key(parent, |ws|)].flags))])
  {
    hide User, LeafPte, LowFlags;
    LeafOf(f, LowFlags(v[Key(parent, |ws|)].flags));
    LeafFlags(f, v[Key(parent, |ws|)]);
    var w := LeafPte(f, LowFlags(v[Key(parent, |ws|)].flags));
    forall j | 0 <= j < |ws|
      ensures SamePage(v, m, Key(parent, j), m2, ws[j])
    {
      assert SamePage(v, m, Key(parent, j), m1, ws[j]) && FrameSeq(ws)[j] == ws[j].frame;
      assert IsData(m1, ws[j].frame);
    }
    assert SamePage(v, m, Key(parent, |ws|), m2, w);
    hide SamePage;
    assert forall j :: 0 <= j < |ws| + 1 ==> (ws + [w])[j] == if j < |ws| then ws[j] else w;
  }

  /** The pages from vp on have the entries ws. */
  ghost predicate Holds(v: FlatMap, root: nat, vp: nat, ws: seq<Pte>) {
    forall j :: vp <= j < vp + |ws| ==> Key(root, j) in v && v[Key(root, j)] == ws[j - vp]
  }

  lemma InstallSeqHolds(v: FlatMap, root: nat, vp: nat, ws: seq<Pte>)
    requires forall j :: vp <= j < vp + |ws| ==> Key(root, j) in v
    ensures Holds(InstallSeq(v, root, vp, ws), root, vp, ws)
  {
    forall j | vp <= j < vp + |ws|
      ensures Key(root, j) in InstallSeq(v, root, vp, ws) && InstallSeq(v, root, vp, ws)[Key(root, j)] == ws[j - vp]
    {
      InstallSeqAt(v, root, vp, ws, Key(root, j));
    }
  }

  lemma {:induction false} FramesOfSeq(v: FlatMap, root: nat, vp: nat, ws: seq<Pte>)
    requires Holds(v, root, vp, ws)
    ensures forall p :: p in Frames(v, root, vp, |ws|) <==> p in FrameSeq(ws)
  {
    if ws != [] {
      var init := ws[..|ws| - 1];
      FramesOfSeq(v, root, vp, init);
      assert v[Key(root, vp + |ws| - 1)] == ws[|ws| - 1];
      assert FrameSeq(ws) == FrameSeq(init) + [ws[|ws| - 1].frame];
    }
  }

  /** The frames that uvmcopy and uvmalloc have mapped so far may all be freed again. */
  lemma FreshRunOwned(v: FlatMap, m: Memory, m1: Memory, root: nat, vp: nat, ws: seq<Pte>)
    requires Holds(v, root, vp, ws) && DataMore(m, m1, FrameSeq(ws))
    requires forall j :: 0 <= j < |ws| ==> Mapped(ws[j])
    ensures FramesOwned(v, m1, root, vp, |ws|) && AllMapped(v, root, vp, |ws|)
  {
    var fs := FrameSeq(ws);
    assert forall j :: vp <= j < vp + |ws| ==>
        Key(root, j) in v && v[Key(root, j)].frame == fs[j - vp] && Mapped(ws[j - vp]);
  }

  lemma FreedAgain(m: Memory, m1: Memory, m2: Memory, m3: Memory, fs: seq<nat>, gone: seq<nat>)
    requires DataMore(m, m1, fs) && SameData(m1, m2) && DataLess(m2, m3, gone)
    requires forall p :: p in gone <==> p in fs
    ensures SameData(m, m3)
  {
  }

  lemma DataMoreSame(m: Memory, m1: Memory, m2: Memory, fs: seq<nat>)
    requires DataMore(m, m1, fs) && SameData(m1, m2)
    ensures DataMore(m, m2, fs)
  {
  }

  lemma DataMoreData(m: Memory, m1: Memory, fs: seq<nat>)
    requires DataMore(m, m1, fs)
    ensures forall p :: IsData(m, p) ==> IsData(m1, p) && m1[p] == m[p]
  {
  }

  /** The error path of uvmcopy and uvmalloc: unmap and free the pages made so far. */
  method Undo(k: Kernel, root: nat, vp: nat, n: nat, ghost v: FlatMap, ghost m: Memory, ghost m1: Memory,
      ghost ws: seq<Pte>)
    requires k.Valid() && IsRoot(k.level, root) && n == |ws| && vp + n <= MAXPAGE
    requires k.Flat() == InstallSeq(v, root, vp, ws) && Empty(v, root, vp, n)
    requires DataMore(m, m1, FrameSeq(ws)) && SameData(m1, k.mem)
    requires forall j :: 0 <= j < n ==> Mapped(ws[j])
    modifies k
    ensures k.Valid() && k.level == old(k.level)
    ensures k.Flat() == v && SameData(m, k.mem)
  {
    hide View, Leaf, Slot, WellFormed, DataOk, FreeListOk, Ledger, SameData, DataMore, DataLess, InstallSeq, Frames,
        FrameSeq, IsData, IsRoot;
    ghost var m2, w := k.mem, k.Flat();
    DataMoreSame(m, m1, m2, FrameSeq(ws));
    InstallSeqHolds(v, root, vp, ws);
    FreshRunOwned(w, m, m2, root, vp, ws);
    FramesOfSeq(w, root, vp, ws);
    SameDataReflexive(m2);
    RangeOf(AddrOf(vp), vp);
    var r;
    ghost var n';
    r, n' := k.Vmunmap(root, AddrOf(vp), n, true);
    if !r.Ok? {
      assert false;
    }
    RemoveUndoesSeq(v, root, vp, ws);
    FreedAgain(m, m2, m2, k.mem, FrameSeq(ws), Frames(w, root, vp, n));
  }

  /** State of uvmcopy after |ws| pages: the child's pages so far hold the parent's bytes in frames of their own. */
  ghost predicate Copied(v: FlatMap, m: Memory, v1: FlatMap, m1: Memory, parent: nat, child: nat, ws: seq<Pte>) {
    && v1 == InstallSeq(v, child, 0, ws)
    && DataMore(m, m1, FrameSeq(ws)) && SamePages(v, m, parent, m1, ws)
    && Owned(v1, m1)
    && (forall j :: 0 <= j < |ws| ==> Mapped(ws[j]))
  }

  lemma NothingCopied(v: FlatMap, m: Memory, parent: nat, child: nat)
    requires Owned(v, m)
    ensures Copied(v, m, v, m, parent, child, [])
  {
  }

  /** A page of the parent that is not yet copied over reads as at the start. */
  lemma CopiedReads(v: FlatMap, m: Memory, v1: FlatMap, m1: Memory, parent: nat, child: nat, ws: seq<Pte>)
    requires Copied(v, m, v1, m1, parent, child, ws) && parent != child
    requires Key(parent, |ws|) in v && Key(child, |ws|) in v
    ensures Key(parent, |ws|) in v1 && v1[Key(parent, |ws|)] == v[Key(parent, |ws|)]
    ensures Key(child, |ws|) in v1 && v1[Key(child, |ws|)] == v[Key(child, |ws|)]
    ensures forall p :: IsData(m, p) ==> IsData(m1, p) && m1[p] == m[p]
  {
    InstallSeqAt(v, child, 0, ws, Key(parent, |ws|));
    InstallSeqAt(v, child, 0, ws, Key(child, |ws|));
    DataMoreData(m, m1, FrameSeq(ws));
  }

  lemma CopiedSnoc(v: FlatMap, m: Memory, v1: FlatMap, m1: Memory, parent: nat, child: nat, ws: seq<Pte>, f: nat,
      m2: Memory)
    requires Copied(v, m, v1, m1, parent, child, ws) && DataMore(m1, m2, [f])
    requires Key(parent, |ws|) in v && v[Key(parent, |ws|)].flags.v && IsData(m, v[Key(parent, |ws|)].frame)
    requires f in m2 && m2[f] == m[v[Key(parent, |ws|)].frame] && f < FRAMES
    ensures var w := LeafPte(f, LowFlags(v[Key(parent, |ws|)].flags));
            Copied(v, m, v1[Key(child, |ws|) := w], m2, parent, child, ws + [w])
  {
    hide DataMore, SamePages, Owned, InstallSeq, FrameSeq, LeafPte, LowFlags, Mapped;
    LeafOf(f, LowFlags(v[Key(parent, |ws|)].flags));
    var w := LeafPte(f, LowFlags(v[Key(parent, |ws|)].flags));
    InstallSeqSnoc(v, child, 0, ws, w);
    SamePagesSnoc(v, m, parent, m1, m2, ws, f);
    DataMoreAppend(m, m1, m2, FrameSeq(ws), f);
    OwnedInstall(v1, m1, m2, Key(child, |ws|), w);
  }

  lemma OwnedSameData(v: FlatMap, m: Memory, m1: Memory)
    requires Owned(v, m) && SameData(m, m1)
    ensures Owned(v, m1)
  {
  }

  /** Copies page j, at address i: the body of the loop of uvmcopy. */
  method CopyPage(k: Kernel, parent: nat, child: nat, i: nat, j: nat, ghost v: FlatMap, ghost m: Memory,
      ghost ws: seq<Pte>)
    returns (r: Outcome, ghost w: Pte)
    requires k.Valid() && IsRoot(k.level, parent) && IsRoot(k.level, child) && parent != child
    requires Copied(v, m, k.Flat(), k.mem, parent, child, ws) && j == |ws| < MAXPAGE && i == AddrOf(j)
    requires Key(parent, j) in v && Key(child, j) in v && v[Key(child, j)] == NULL_PTE
    requires v[Key(parent, j)].flags.v ==> IsData(m, v[Key(parent, j)].frame)
    modifies k
    ensures k.Valid() && IsRoot(k.level, parent) && IsRoot(k.level, child) && !r.Wild?
    ensures r.Ok? ==> Copied(v, m, k.Flat(), k.mem, parent, child, ws + [w])
    ensures r.NoMemory? ==> k.Flat() == old(k.Flat()) && SameData(old(k.mem), k.mem) && |old(k.freelist)| < 4
    ensures r.Ok? ==> |old(k.freelist)| <= |k.freelist| + 4
    ensures r.Panic? ==> !v[Key(parent, j)].flags.v && Copied(v, m, k.Flat(), k.mem, parent, child, ws)
  {
    hide View, Leaf, Slot, WellFormed, DataOk, FreeListOk, Ledger, SameData, Copied, DataMore, Px;
    ghost var v1, m1 := k.Flat(), k.mem;
    w := NULL_PTE;
    CopiedReads(v, m, v1, m1, parent, child, ws);
    RangeOf(i, j);
    var s := k.Walk(parent, i, false);
    match s
    case Missing =>
      k.FlatMissing(parent, j);
      return Panic(NoTable), w;
    case WalkPanic => assert false;
    case DirectMapped(_) => assert false;
    case Found(slot) =>
      k.FlatAt(parent, j, slot);
      var pte := k.mem[slot.page].ptes[slot.idx];
      if !pte.flags.v {
        return Panic(NotMapped), w;
      }
      ghost var f;
      k.FlatDomain(parent, j);
      r, f := MapFresh(k, child, j, k.mem[pte.frame].bytes, LowFlags(pte.flags));
      k.FlatDomain(parent, j);
      if r.Ok? {
        w := LeafPte(f, LowFlags(pte.flags));
        CopiedSnoc(v, m, v1, m1, parent, child, ws, f, k.mem);
      }
  }

  /**
   Copies the first sz bytes' pages of parent into child, page by page. On success every copied page of the
   child has a frame of its own with the parent's bytes; out of memory, the child's translations are as
   before and no data page stays behind.
   */
  method Uvmcopy(k: Kernel, parent: nat, child: nat, sz: nat) returns (r: Outcome, ghost ws: seq<Pte>)
    requires k.Valid() && IsRoot(k.level, parent) && IsRoot(k.level, child) && parent != child && sz <= MAXVA
    requires Owned(k.Flat(), k.mem) && Empty(k.Flat(), child, 0, PagesFor(sz))
    requires forall j :: 0 <= j < PagesFor(sz) && Key(parent, j) in k.Flat() && k.Flat()[Key(parent, j)].flags.v ==>
               IsData(k.mem, k.Flat()[Key(parent, j)].frame)
    modifies k
    ensures k.Valid() && IsRoot(k.level, parent) && IsRoot(k.level, child) && !r.Wild?
    ensures Owned(k.Flat(), k.mem)
    ensures r.Ok? ==> |ws| == PagesFor(sz) && k.Flat() == InstallSeq(old(k.Flat()), child, 0, ws)
    ensures r.Ok? ==> DataMore(old(k.mem), k.mem, FrameSeq(ws))
    ensures r.Ok? ==> forall va: nat :: PageOf(va) < PagesFor(sz) ==>
              && UserByte(k.Flat(), k.mem, child, va) == UserByte(old(k.Flat()), old(k.mem), parent, va)
              && UserByte(k.Flat(), k.mem, parent, va) == UserByte(old(k.Flat()), old(k.mem), parent, va)
    ensures r.Ok? ==> forall j :: 0 <= j < PagesFor(sz) ==>
              && Key(child, j) in k.Flat() && Key(parent, j) in old(k.Flat())
              && k.Flat()[Key(child, j)].flags
                  == LowFlags(old(k.Flat())[Key(parent, j)].flags).(v := true, mat := true, d := true)
    ensures r.NoMemory? ==> k.Flat() == old(k.Flat()) && SameData(old(k.mem), k.mem)
    ensures r.NoMemory? ==> |old(k.freelist)| < 4 * PagesFor(sz)
    ensures r.Panic? ==> exists j :: 0 <= j < PagesFor(sz)
                          && !(Key(parent, j) in old(k.Flat()) && old(k.Flat())[Key(parent, j)].flags.v)
  {
    hide View, Leaf, Slot, WellFormed, DataOk, FreeListOk, Ledger, SameData, DataMore, InstallSeq, Owned, SamePages,
        FrameSeq, Px, IsRoot, Mapped;
    ws := [];
    ghost var v, m := k.Flat(), k.mem;
    NothingCopied(v, m, parent, child);
    forall j: nat | j < MAXPAGE
      ensures Key(parent, j) in v
    {
      k.FlatDomain(parent, j);
    }
    var i := 0;
    while i < sz
      invariant i == AddrOf(|ws|) && |ws| <= PagesFor(sz)
      invariant k.Valid() && IsRoot(k.level, parent) && IsRoot(k.level, child)
      invariant Copied(v, m, k.Flat(), k.mem, parent, child, ws)
      invariant |old(k.freelist)| <= |k.freelist| + 4 * |ws|
    {
      var j := PageOf(i);
      ghost var m1 := k.mem;
      ghost var w;
      r, w := CopyPage(k, parent, child, i, j, v, m, ws);
      if r.NoMemory? {
        Undo(k, child, 0, j, v, m, m1, ws);
        OwnedSameData(v, m, k.mem);
        return;
      }
      if r.Panic? {
        return;
      }
      ws := ws + [w];
      i := i + PGSIZE;
    }
    r := Ok;
    forall j | 0 <= j < PagesFor(sz)
      ensures Key(child, j) in k.Flat() && Key(parent, j) in v
          && k.Flat()[Key(child, j)].flags == LowFlags(v[Key(parent, j)].flags).(v := true, mat := true, d := true)
    {
      CopiedFlags(v, m, k.Flat(), k.mem, parent, child, ws, j);
    }
    forall va: nat | PageOf(va) < PagesFor(sz)
      ensures UserByte(k.Flat(), k.mem, child, va) == UserByte(v, m, parent, va)
      ensures UserByte(k.Flat(), k.mem, parent, va) == UserByte(v, m, parent, va)
    {
      CopiedBytes(v, m, k.Flat(), k.mem, parent, child, ws, va);
    }
  }

  /** The child's entries have the flags of the parent's. */
  lemma CopiedFlags(v: FlatMap, m: Memory, v1: FlatMap, m1: Memory, parent: nat, child: nat, ws: seq<Pte>, j: nat)
    requires Copied(v, m, v1, m1, parent, child, ws) && j < |ws| && Key(child, j) in v
    ensures Key(child, j) in v1 && Key(parent, j) in v
    ensures v1[Key(child, j)].flags == LowFlags(v[Key(parent, j)].flags).(v := true, mat := true, d := true)
  {
    hide DataMore, Owned, InstallSeq, FrameSeq, Mapped, User, IsData;
    InstallSeqAt(v, child, 0, ws, Key(child, j));
    assert SamePage(v, m, Key(parent, j), m1, ws[j]);
  }

  /** Parent and child read the same byte at every address below the size: the parent's old one. */
  lemma CopiedBytes(v: FlatMap, m: Memory, v1: FlatMap, m1: Memory, parent: nat, child: nat, ws: seq<Pte>, va: nat)
    requires Copied(v, m, v1, m1, parent, child, ws) && parent != child && PageOf(va) < |ws|
    requires Key(parent, PageOf(va)) in v && Key(child, PageOf(va)) in v && Owned(v, m)
    ensures UserByte(v1, m1, child, va) == UserByte(v, m, parent, va)
    ensures UserByte(v1, m1, parent, va) == UserByte(v, m, parent, va)
  {
    hide DataMore, Owned, InstallSeq, FrameSeq, Mapped, IsData;
    var j := PageOf(va);
    InstallSeqAt(v, child, 0, ws, Key(child, j));
    InstallSeqAt(v, child, 0, ws, Key(parent, j));
    DataMoreData(m, m1, FrameSeq(ws));
    OwnedData(v, m, Key(parent, j));
    OwnedData(v1, m1, Key(child, j));
  }

  lemma OwnedData(v: FlatMap, m: Memory, k: Key)
    requires Owned(v, m) && k in v
    ensures User(v[k]) ==> IsData(m, v[k].frame)
  {
  }

  datatype Address = Null | Direct(va: nat) | InFrame(frame: nat)

  /** The frame behind a user address, or null; direct-mapped addresses pass through. */
  method Walkaddr(k: Kernel, root: nat, va: nat) returns (r: Address)
    requires k.Valid() && IsRoot(k.level, root)
    modifies k
    ensures k.mem == old(k.mem) && k.freelist == old(k.freelist) && k.level == old(k.level) && k.place == old(k.place)
    ensures r.Direct? <==> Paging.Direct(va)
    ensures r.InFrame? ==> Key(root, PageOf(va)) in k.Flat() && User(k.Flat()[Key(root, PageOf(va))]) &&
                           k.Flat()[Key(root, PageOf(va))].frame == r.frame
    ensures r.Null? ==> Key(root, PageOf(va)) !in k.Flat() || !User(k.Flat()[Key(root, PageOf(va))])
  {
    hide View, Leaf, Slot, WellFormed, DataOk, FreeListOk, Ledger, Px;
    if Paging.Direct(va) {
      return Direct(va);
    }
    k.FlatDomain(root, PageOf(va));
    if va >= MAXVA {
      return Null;
    }
    var w := k.Walk(root, va, false);
    match w
    case Missing =>
      k.FlatMissing(root, PageOf(va));
      return Null;
    case WalkPanic => assert false;
    case DirectMapped(_) => assert false;
    case Found(s) =>
      k.FlatAt(root, PageOf(va), s);
      var pte := k.mem[s.page].ptes[s.idx];
      if !pte.flags.v || !(pte.flags.plv0 || pte.flags.plv1) {
        return Null;
      }
      return InFrame(pte.frame);
  }

  /** The bytes of n consecutive user addresses; meaningful where each is accessible. */
  ghost predicate Reads(v: FlatMap, m: Memory, root: nat, va: nat, bytes: seq<Byte>) {
    forall i :: 0 <= i < |bytes| ==> UserByte(v, m, root, va + i) == Some(bytes[i])
  }

  /**
   Copies len bytes at srcva to the kernel; it panics for an address in a direct-mapped window. What arrived in dst is
   what the process sees there; when it fails, the first address not copied is one the process cannot read.
   */
  method Copyin(k: Kernel, root: nat, srcva: nat, len: nat) returns (r: Outcome, dst: seq<Byte>)
    requires k.Valid() && IsRoot(k.level, root) && Owned(k.Flat(), k.mem)
    modifies k
    ensures k.mem == old(k.mem) && k.freelist == old(k.freelist) && k.level == old(k.level) && k.place == old(k.place)
    ensures |dst| <= len && Reads(k.Flat(), k.mem, root, srcva, dst)
    ensures r.Ok? || r.NoMemory? || r == Panic(OutOfRange)
    ensures r.Panic? <==> Paging.Direct(srcva)
    ensures r.Panic? ==> dst == []
    ensures r.Ok? ==> |dst| == len
    ensures r.NoMemory? ==> |dst| < len && UserByte(k.Flat(), k.mem, root, srcva + |dst|) == None
  {
    hide View, Leaf, Slot, WellFormed, DataOk, FreeListOk, Ledger, Px, Owned, Paging.Direct;
    dst := [];
    ghost var v, m := k.Flat(), k.mem;
    if srcva <= MAXVA {
      NotDirect(srcva);
    }
    if srcva > MAXVA && Paging.Direct(srcva) {
      return Panic(OutOfRange), [];
    }
    while |dst| < len
      invariant |dst| <= len && Reads(v, m, root, srcva, dst) && !Paging.Direct(srcva + |dst|)
      invariant k.mem == old(k.mem) && k.freelist == old(k.freelist) && k.level == old(k.level)
          && k.place == old(k.place)
      decreases len - |dst|
    {
      var va := srcva + |dst|;
      var pa := Walkaddr(k, root, AddrOf(PageOf(va)));
      PageBase(va);
      if pa.Null? {
        return NoMemory, dst;
      }
      var off := va % 4096;
      var n := if 4096 - off > len - |dst| then len - |dst| else 4096 - off;
      ReadsPage(v, m, root, va, pa.frame, n);
      ReadsAppend(v, m, root, srcva, dst, m[pa.frame].bytes[off..off + n]);
      k.FlatDomain(root, PageOf(va));
      NextInReach(va, n);
      dst := dst + k.mem[pa.frame].bytes[off..off + n];
    }
    r := Ok;
  }

  lemma PageBase(va: nat)
    ensures PageOf(AddrOf(PageOf(va))) == PageOf(va)
    ensures Paging.Direct(AddrOf(PageOf(va))) <==> Paging.Direct(va)
  {
    DirectPage(va);
  }

  /** Behind a piece of a page that may be mapped, the window is still far away. */
  lemma NextInReach(va: nat, n: nat)
    requires PageOf(va) < MAXPAGE && va % 4096 + n <= 4096
    ensures va + n <= MAXVA && !Paging.Direct(va + n)
  {
  }

  lemma ReadsPage(v: FlatMap, m: Memory, root: nat, va: nat, f: nat, n: nat)
    requires Owned(v, m) && Key(root, PageOf(va)) in v && User(v[Key(root, PageOf(va))])
        && v[Key(root, PageOf(va))].frame == f
    requires va % 4096 + n <= 4096
    ensures IsData(m, f) && Reads(v, m, root, va, m[f].bytes[va % 4096..va % 4096 + n])
  {
    var part := m[f].bytes[va % 4096..va % 4096 + n];
    forall i | 0 <= i < |part|
      ensures UserByte(v, m, root, va + i) == Some(part[i])
    {
      assert PageOf(va + i) == PageOf(va) && (va + i) % 4096 == va % 4096 + i;
    }
  }

  lemma ReadsAppend(v: FlatMap, m: Memory, root: nat, va: nat, s: seq<Byte>, t: seq<Byte>)
    requires Reads(v, m, root, va, s) && Reads(v, m, root, va + |s|, t)
    ensures Reads(v, m, root, va, s + t)
  {
    forall i | 0 <= i < |s + t|
      ensures UserByte(v, m, root, va + i) == Some((s + t)[i])
    {
      if i >= |s| {
        assert UserByte(v, m, root, va + |s| + (i - |s|)) == Some(t[i - |s|]);
      }
    }
  }

  /** From m to m', process root has src at va, and every other byte of every process is as before. */
  ghost predicate Wrote(v: FlatMap, m: Memory, m': Memory, root: nat, va: nat, src: seq<Byte>) {
    forall r: nat, a: nat ::
      UserByte(v, m', r, a) == if r == root && va <= a < va + |src| then Some(src[a - va]) else UserByte(v, m, r, a)
  }

  /** Replacing bytes of one frame is seen by its one owner, at that page, and by no one else. */
  lemma WritePage(v: FlatMap, m: Memory, root: nat, va: nat, f: nat, src: seq<Byte>)
    requires Owned(v, m) && Key(root, PageOf(va)) in v && User(v[Key(root, PageOf(va))])
        && v[Key(root, PageOf(va))].frame == f
    requires va % 4096 + |src| <= 4096
    ensures IsData(m, f)
    ensures var b := m[f].bytes;
            var m' := m[f := Data(b[..va % 4096] + src + b[va % 4096 + |src|..])];
            Owned(v, m') && Wrote(v, m, m', root, va, src)
  {
    var b := m[f].bytes;
    var m' := m[f := Data(b[..va % 4096] + src + b[va % 4096 + |src|..])];
    forall r: nat, a: nat
      ensures UserByte(v, m', r, a) == if r == root && va <= a < va + |src| then Some(src[a - va])
          else UserByte(v, m, r, a)
    {
      var k := Key(r, PageOf(a));
      if k in v && User(v[k]) && v[k].frame == f {
        assert k == Key(root, PageOf(va));
        InPage(va, a);
      } else if r == root && va <= a < va + |src| {
        InPage(va, a);
      }
    }
  }

  lemma InPage(va: nat, a: nat)
    ensures PageOf(a) == PageOf(va) ==> a - va == a % 4096 - va % 4096
    ensures va <= a && va % 4096 + (a - va) < 4096 ==> PageOf(a) == PageOf(va)
  {
  }

  lemma WroteAppend(v: FlatMap, m: Memory, m1: Memory, m2: Memory, root: nat, va: nat, s: seq<Byte>, t: seq<Byte>)
    requires Wrote(v, m, m1, root, va, s) && Wrote(v, m1, m2, root, va + |s|, t)
    ensures Wrote(v, m, m2, root, va, s + t)
  {
    forall r: nat, a: nat
      ensures UserByte(v, m2, r, a) == if r == root && va <= a < va + |s + t| then Some((s + t)[a - va])
          else UserByte(v, m, r, a)
    {
      assert UserByte(v, m1, r, a) == if r == root && va <= a < va + |s| then Some(s[a - va]) else UserByte(v, m, r, a);
    }
  }

  /**
   Copies src from the kernel to dstva. Exactly the first n bytes were written, no other byte of this or
   any other process changed; when it fails, address dstva+n is one the process cannot access.
   */
  method Copyout(k: Kernel, root: nat, dstva: nat, src: seq<Byte>) returns (r: Outcome, ghost n: nat)
    requires k.Valid() && IsRoot(k.level, root) && Owned(k.Flat(), k.mem)
    modifies k
    ensures k.Valid() && k.level == old(k.level) && k.Flat() == old(k.Flat()) && k.freelist == old(k.freelist)
    ensures Owned(k.Flat(), k.mem)
    ensures n <= |src| && Wrote(k.Flat(), old(k.mem), k.mem, root, dstva, src[..n])
    ensures !r.Wild? && (r.Panic? <==> dstva > MAXVA)
    ensures r.Panic? ==> n == 0
    ensures r.Ok? ==> n == |src|
    ensures r.NoMemory? ==> UserByte(k.Flat(), k.mem, root, dstva + n) == None
  {
    hide View, Leaf, Slot, WellFormed, DataOk, FreeListOk, Ledger, Px, Owned, Wrote;
    n := 0;
    ghost var v := k.Flat();
    NothingWrote(v, k.mem, root, dstva);
    assert src[..0] == [];
    if dstva > MAXVA {
      return Panic(OutOfRange), 0;
    }
    var done := 0;
    while done < |src|
      invariant n == done <= |src| && dstva + done <= MAXVA
      invariant k.Valid() && k.level == old(k.level) && k.Flat() == v && k.freelist == old(k.freelist)
          && Owned(v, k.mem)
      invariant Wrote(v, old(k.mem), k.mem, root, dstva, src[..done])
      decreases |src| - done
    {
      var va := dstva + done;
      var pa := Walkaddr(k, root, AddrOf(PageOf(va)));
      PageBase(va);
      NotDirect(va);
      if pa.Null? {
        return NoMemory, n;
      }
      var off := va % 4096;
      k.FlatDomain(root, PageOf(va));
      var len := if 4096 - off > |src| - done then |src| - done else 4096 - off;
      var part := src[done..done + len];
      ghost var m := k.mem;
      WritePage(v, m, root, va, pa.frame, part);
      NextInReach(va, len);
      var b := k.mem[pa.frame].bytes;
      k.StorePage(pa.frame, b[..off] + part + b[off + len..]);
      WroteAppend(v, old(k.mem), m, k.mem, root, dstva, src[..done], part);
      assert src[..done] + part == src[..done + len];
      done := done + len;
      n := done;
    }
    assert src[..n] == src;
    r := Ok;
  }

  lemma NothingWrote(v: FlatMap, m: Memory, root: nat, va: nat)
    ensures Wrote(v, m, m, root, va, [])
  {
  }

  /** What copyout wrote, copyin reads back, over any split into pages. */
  lemma CopyoutThenCopyin(v: FlatMap, m: Memory, m': Memory, root: nat, va: nat, src: seq<Byte>, dst: seq<Byte>)
    requires Wrote(v, m, m', root, va, src)
    requires |dst| <= |src| && Reads(v, m', root, va, dst)
    requires |dst| == |src| || UserByte(v, m', root, va + |dst|) == None
    ensures dst == src
  {
    if |dst| < |src| {
      assert false;
    }
    forall i | 0 <= i < |dst|
      ensures dst[i] == src[i]
    {
      assert UserByte(v, m', root, va + i) == Some(src[i]);
    }
  }

  /** State of uvmalloc after |ws| pages: each has a frame of its own, open to the user as perm says, and zeroed. */
  ghost predicate Grown(v: FlatMap, m: Memory, v1: FlatMap, m1: Memory, root: nat, vp: nat, ws: seq<Pte>, perm: Flags) {
    && v1 == InstallSeq(v, root, vp, ws)
    && DataMore(m, m1, FrameSeq(ws)) && Owned(v1, m1)
    && (forall j :: 0 <= j < |ws| ==>
        Mapped(ws[j]) && User(ws[j]) && ws[j].frame in m1 && m1[ws[j].frame] == Data(Fill(0, PGSIZE)))
    && (forall j :: 0 <= j < |ws| ==>
        ws[j].flags == LowFlags(perm).(plv0 := true, plv1 := true, v := true, mat := true, d := true))
  }

  lemma GrownSnoc(v: FlatMap, m: Memory, v1: FlatMap, m1: Memory, root: nat, vp: nat, ws: seq<Pte>, f: nat,
      perm: Flags, m2: Memory)
    requires Grown(v, m, v1, m1, root, vp, ws, perm) && DataMore(m1, m2, [f])
    requires f in m2 && m2[f] == Data(Fill(0, PGSIZE)) && f < FRAMES
    ensures var w := LeafPte(f, perm.(plv0 := true, plv1 := true));
            Grown(v, m, v1[Key(root, vp + |ws|) := w], m2, root, vp, ws + [w], perm)
  {
    hide Owned, InstallSeq, FrameSeq, Fill, Mapped;
    var w := LeafPte(f, perm.(plv0 := true, plv1 := true));
    LeafOf(f, perm.(plv0 := true, plv1 := true));
    InstallSeqSnoc(v, root, vp, ws, w);
    DataMoreAppend(m, m1, m2, FrameSeq(ws), f);
    OwnedInstall(v1, m1, m2, Key(root, vp + |ws|), w);
    forall j | 0 <= j < |ws|
      ensures ws[j].frame in m2 && m2[ws[j].frame] == m1[ws[j].frame]
    {
    }
  }

  lemma NothingGrown(v: FlatMap, m: Memory, root: nat, vp: nat, perm: Flags)
    requires Owned(v, m)
    ensures Grown(v, m, v, m, root, vp, [], perm)
  {
  }

  /**
   Grows user memory from oldsz to newsz bytes. On success the new pages read as zero; out of memory,
   translations and data pages are as before.
   */
  method Uvmalloc(k: Kernel, root: nat, oldsz: nat, newsz: nat, perm: Flags) returns (r: Outcome, size: nat,
      ghost ws: seq<Pte>)
    requires k.Valid() && IsRoot(k.level, root) && oldsz <= MAXVA && newsz <= MAXVA
    requires Owned(k.Flat(), k.mem)
    requires newsz >= oldsz ==> Empty(k.Flat(), root, PagesFor(oldsz), PagesFor(newsz) - PagesFor(oldsz))
    modifies k
    ensures k.Valid() && IsRoot(k.level, root) && Owned(k.Flat(), k.mem)
    ensures r.Ok? || r.NoMemory?
    ensures newsz < oldsz ==> r.Ok? && size == oldsz && ws == [] && k.mem == old(k.mem)
    ensures r.Ok? && newsz >= oldsz ==> size == newsz && |ws| == PagesFor(newsz) - PagesFor(oldsz)
    ensures r.Ok? ==> Grown(old(k.Flat()), old(k.mem), k.Flat(), k.mem, root, PagesFor(oldsz), ws, perm)
    ensures r.NoMemory? ==> |old(k.freelist)| < 4 * (PagesFor(newsz) - PagesFor(oldsz))
    ensures r.NoMemory? ==> size == 0 && k.Flat() == old(k.Flat()) && SameData(old(k.mem), k.mem)
  {
    hide View, Leaf, Slot, WellFormed, DataOk, FreeListOk, Ledger, SameData, DataMore, InstallSeq, Owned, FrameSeq,
        Px, IsRoot, Mapped, Fill, LeafPte;
    ws := [];
    var vp := PagesFor(oldsz);
    ghost var v, m := k.Flat(), k.mem;
    NothingGrown(v, m, root, vp, perm);
    if newsz < oldsz {
      return Ok, oldsz, ws;
    }
    var n := 0;
    while AddrOf(vp + n) < newsz
      invariant n == |ws| && vp + n <= PagesFor(newsz)
      invariant k.Valid() && IsRoot(k.level, root)
      invariant Grown(v, m, k.Flat(), k.mem, root, vp, ws, perm)
      invariant |old(k.freelist)| <= |k.freelist| + 4 * n
    {
      ghost var m1 := k.mem;
      InstallSeqAt(v, root, vp, ws, Key(root, vp + n));
      ghost var f;
      r, f := MapFresh(k, root, vp + n, Fill(0, PGSIZE), perm.(plv0 := true, plv1 := true));
      if !r.Ok? {
        assert r.NoMemory?;
        Undo(k, root, vp, n, v, m, m1, ws);
        OwnedSameData(v, m, k.mem);
        return NoMemory, 0, [];
      }
      GrownSnoc(v, m, InstallSeq(v, root, vp, ws), m1, root, vp, ws, f, perm, k.mem);
      ws := ws + [LeafPte(f, perm.(plv0 := true, plv1 := true))];
      n := n + 1;
    }
    return Ok, newsz, ws;
  }

  /** New memory reads as zero, and what was readable before still reads the same. */
  lemma GrownBytes(v: FlatMap, m: Memory, v1: FlatMap, m1: Memory, root: nat, vp: nat, ws: seq<Pte>, perm: Flags,
      va: nat)
    requires Grown(v, m, v1, m1, root, vp, ws, perm) && Empty(v, root, vp, |ws|) && Owned(v, m)
    ensures vp <= PageOf(va) < vp + |ws| ==> UserByte(v1, m1, root, va) == Some(0)
    ensures UserByte(v, m, root, va).Some? ==> UserByte(v1, m1, root, va) == UserByte(v, m, root, va)
  {
    var k := Key(root, PageOf(va));
    if k in v {
      InstallSeqAt(v, root, vp, ws, k);
      DataMoreData(m, m1, FrameSeq(ws));
      if vp <= k.vp < vp + |ws| {
        assert v1[k] == ws[k.vp - vp];
      }
    }
  }
}
