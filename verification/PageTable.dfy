/**
 The four-level page-table tree of kernel/vm.c.

 A page is named by its frame number: the kernel pointer to it is that number shifted left by 12 bits
 with the direct-mapped window bits set. A page-table entry is a record of its frame field (bits 12 to
 47) and its flag bits; PteBits ties the record to the 64-bit word. Virtual addresses are natural
 numbers, so that splitting one into table indices is integer division.
 */
module PteBits {

  type Word = bv64

  const DMWIN_MASK: Word := 0x9000_0000_0000_0000
  const PAMASK: Word := 0x0000_FFFF_FFFF_F000
  const FLAGMASK: Word := 0xE000_0000_0000_01FF
  const PTE_V: Word := 1
  const PTE_D: Word := 2
  const PTE_MAT: Word := 16

  function Pte2Pa(w: Word): Word { (w & PAMASK) | DMWIN_MASK }

  function Pa2Pte(pa: Word): Word { pa & PAMASK }

  function PteFlags(w: Word): Word { w & FLAGMASK }

  /** A page-aligned pointer in the direct-mapped window, as kalloc returns them. */
  predicate IsPagePointer(a: Word) { a & !PAMASK == DMWIN_MASK }

  function InteriorWord(page: Word): Word { Pa2Pte(page) | PTE_V | DMWIN_MASK }

  /** What is left of a word that has been through an int: the low half, with its sign. */
  function ThroughInt(w: Word): Word {
    if w & 0x8000_0000 == 0 then w & 0xFFFF_FFFF else (w & 0xFFFF_FFFF) | 0xFFFF_FFFF_0000_0000
  }

  /** mappages takes the permission as an int. */
  function LeafWord(page: Word, perm: Word): Word { Pa2Pte(page) | ThroughInt(perm) | PTE_V | PTE_MAT | PTE_D }

  /**
   The frame field and the flag bits of an entry do not disturb each other: an entry made from a page
   pointer gives that pointer back, and a leaf's flags are the low nine permission bits plus V, MAT and D.
   */
  lemma FieldsAreSeparate(page: Word, perm: Word)
    requires IsPagePointer(page) && perm & !FLAGMASK == 0
    ensures Pte2Pa(InteriorWord(page)) == page && InteriorWord(page) & PTE_V != 0
    ensures Pte2Pa(LeafWord(page, perm)) == page && LeafWord(page, perm) & PTE_V != 0
    ensures PteFlags(LeafWord(page, perm)) == (perm & 0x1FF) | PTE_V | PTE_MAT | PTE_D
  {
  }

  /** The frame field as a number: bits 12 to 47. */
  function FrameOf(w: Word): (f: nat)
    ensures f < 0x10_0000_0000
  {
    (((w >> 12) & 0xF_FFFF_FFFF) as bv36) as nat
  }

  /**
   freewalk takes an entry for an interior one when its flags are V alone. walk also sets the
   direct-mapped window bits, so no interior entry passes that test.
   */
  lemma InteriorLooksLikeLeaf(page: Word)
    ensures PteFlags(InteriorWord(page)) != PTE_V
  {
  }
}

module Paging {

  type Byte = bv8

  const PGSIZE: nat := 4096
  const MAXVA: nat := 0x4000_0000_0000
  const ENTRIES: nat := 512
  const FRAMES: nat := 0x10_0000_0000

  /** The flag bits of an entry: bits 0 to 8 and 60 to 63. */
  datatype Flags = Flags(v: bool, d: bool, plv0: bool, plv1: bool, mat: bool, b5: bool, g: bool, p: bool, w: bool,
                         b60: bool, nr: bool, nx: bool, b63: bool)

  datatype Pte = Pte(frame: nat, flags: Flags)

  const NO_FLAGS := Flags(false, false, false, false, false, false, false, false, false, false, false, false, false)

  const NULL_PTE := Pte(0, NO_FLAGS)

  function InteriorPte(page: nat): Pte {
    Pte(page % FRAMES, NO_FLAGS.(v := true, b60 := true, b63 := true))
  }

  /** The flag bits that survive an int or a uint. */
  function LowFlags(f: Flags): Flags { f.(b60 := false, nr := false, nx := false, b63 := false) }

  /** What mappages stores: its permission is an int, so NR and NX never arrive. */
  function LeafPte(page: nat, perm: Flags): Pte {
    Pte(page % FRAMES, LowFlags(perm).(v := true, mat := true, d := true))
  }

  /** What its callers ask for. */
  function WantedPte(page: nat, perm: Flags): Pte {
    Pte(page % FRAMES, perm.(v := true, mat := true, d := true))
  }

  /** mappages stores the entry that was asked for exactly when the permission has none of the bits 60 to 63. */
  lemma PermKept(page: nat, perm: Flags)
    ensures LeafPte(page, perm) == WantedPte(page, perm) <==> LowFlags(perm) == perm
  {
    var low, all := LeafPte(page, perm).flags, WantedPte(page, perm).flags;
    assert low == all <==> low.b60 == all.b60 && low.nr == all.nr && low.nx == all.nx && low.b63 == all.b63;
  }

  /** A page asked for without the right to execute it gets an entry that grants it. */
  lemma NoExecuteLost(page: nat, perm: Flags)
    requires perm.nx
    ensures LeafPte(page, perm) != WantedPte(page, perm) && !LeafPte(page, perm).flags.nx
  {
  }

  /** PTE_FLAGS(pte) == PTE_V: bit 60 is outside the flag mask. */
  predicate OnlyV(f: Flags) { f.(b60 := false) == NO_FLAGS.(v := true) }

  /** The virtual address has one of the two direct-mapped window bits (63 or 60). */
  predicate Direct(va: nat) {
    (va / 0x8000_0000_0000_0000) % 2 == 1 || (va / 0x1000_0000_0000_0000) % 2 == 1
  }

  /** The page that holds an address (PGSIZE is 4096). */
  function PageOf(va: nat): nat { va / 4096 }

  function AddrOf(vp: nat): nat { vp * 4096 }

  /** Pages below MAXVA. */
  const MAXPAGE: nat := 0x4_0000_0000

  /** The page number shifted right by nine bits for each level below. */
  function Shifted(level: nat, vp: nat): nat {
    if level == 0 then vp else Shifted(level - 1, vp) / 512
  }

  /** Nine bits of table index at the given level. */
  function Px(level: nat, vp: nat): (i: nat)
    ensures i < ENTRIES
  {
    Shifted(level, vp) % 512
  }

  lemma {:induction false} ShiftedByDigits(vp: nat, level: nat)
    ensures Shifted(level, vp) == Shifted(level + 1, vp) * 512 + Px(level, vp)
  {
  }

  /** Nothing is left above the level-3 index. */
  lemma TopSlice(vp: nat)
    requires vp < MAXPAGE
    ensures Shifted(3, vp) == Px(3, vp)
  {
    var s0, s1, s2, s3 := Shifted(0, vp), Shifted(1, vp), Shifted(2, vp), Shifted(3, vp);
    assert s1 == s0 / 512 && s1 < 0x200_0000;
    assert s2 == s1 / 512 && s2 < 0x1_0000;
    assert s3 == s2 / 512 && s3 < 512;
  }

  /** Below MAXVA an address is its four index slices and its offset, nine bits each and twelve. */
  lemma SlicesReassemble(va: nat)
    requires va < MAXVA
    ensures var vp := PageOf(va);
            va == (((Px(3, vp) * 512 + Px(2, vp)) * 512 + Px(1, vp)) * 512 + Px(0, vp)) * 4096 + va % 4096
  {
    var vp := PageOf(va);
    TopSlice(vp);
    ShiftedByDigits(vp, 2);
    ShiftedByDigits(vp, 1);
    ShiftedByDigits(vp, 0);
  }

  /** Below MAXVA the four index slices determine the page. */
  lemma SlicesInjective(va: nat, vb: nat)
    requires va < MAXPAGE && vb < MAXPAGE
    requires forall l: nat :: l <= 3 ==> Px(l, va) == Px(l, vb)
    ensures va == vb
  {
    TopSlice(va);
    TopSlice(vb);
    assert Px(3, va) == Px(3, vb);
    ShiftedByDigits(va, 2);
    ShiftedByDigits(vb, 2);
    assert Px(2, va) == Px(2, vb);
    ShiftedByDigits(va, 1);
    ShiftedByDigits(vb, 1);
    assert Px(1, va) == Px(1, vb);
    ShiftedByDigits(va, 0);
    ShiftedByDigits(vb, 0);
    assert Px(0, va) == Px(0, vb);
  }
}

/** The 64-bit words of entries and the records that stand for them. */
module PteWords {
  import opened PteBits
  import opened Paging

  function FlagsOf(w: Word): Flags {
    Flags(w & 1 != 0, w & 2 != 0, w & 4 != 0, w & 8 != 0, w & 16 != 0, w & 32 != 0, w & 64 != 0, w & 128 != 0,
        w & 256 != 0,
          w & 0x1000_0000_0000_0000 != 0, w & 0x2000_0000_0000_0000 != 0, w & 0x4000_0000_0000_0000 != 0,
              w & 0x8000_0000_0000_0000 != 0)
  }

  function PteOf(w: Word): Pte { Pte(FrameOf(w), FlagsOf(w)) }

  lemma SameFrame(w: Word, x: Word)
    requires w & PAMASK == x & PAMASK
    ensures FrameOf(w) == FrameOf(x) && FrameOf(x) % FRAMES == FrameOf(x)
  {
    assert (w >> 12) & 0xF_FFFF_FFFF == (x >> 12) & 0xF_FFFF_FFFF;
    SmallFrame(FrameOf(x));
  }

  lemma SmallFrame(f: nat)
    requires f < 0x10_0000_0000
    ensures f % FRAMES == f
  {
  }

  lemma InteriorFrame(page: Word)
    ensures InteriorWord(page) & PAMASK == page & PAMASK
  {
  }

  lemma InteriorFlags(page: Word)
    ensures FlagsOf(InteriorWord(page)) == NO_FLAGS.(v := true, b60 := true, b63 := true)
  {
  }

  /** The word walk stores for a table is the entry that the tree has for it. */
  lemma InteriorIs(page: Word)
    ensures PteOf(InteriorWord(page)) == InteriorPte(FrameOf(page))
  {
    hide FrameOf, FlagsOf, InteriorWord;
    InteriorFrame(page);
    InteriorFlags(page);
    SameFrame(InteriorWord(page), page);
  }

  lemma LeafFrame(page: Word, perm: Word)
    requires perm & !FLAGMASK == 0
    ensures LeafWord(page, perm) & PAMASK == page & PAMASK
  {
  }

  lemma LeafFlags(page: Word, perm: Word)
    requires perm & !FLAGMASK == 0
    ensures FlagsOf(LeafWord(page, perm)) == LowFlags(FlagsOf(perm)).(v := true, mat := true, d := true)
  {
  }

  /** The word mappages stores for a page is the entry that the flat map has for it. */
  lemma LeafIs(page: Word, perm: Word)
    requires perm & !FLAGMASK == 0
    ensures PteOf(LeafWord(page, perm)) == LeafPte(FrameOf(page), FlagsOf(perm))
  {
    hide FrameOf, FlagsOf, LeafWord;
    LeafFrame(page, perm);
    LeafFlags(page, perm);
    SameFrame(LeafWord(page, perm), page);
  }

  lemma TopDigit(hi: nat, lo: nat)
    requires hi < 16 && lo < 0x1000_0000_0000_0000
    ensures Direct(hi * 0x1000_0000_0000_0000 + lo) <==> hi % 2 == 1 || hi / 8 % 2 == 1
  {
    var va := hi * 0x1000_0000_0000_0000 + lo;
    assert va / 0x1000_0000_0000_0000 == hi;
    assert va / 0x8000_0000_0000_0000 == hi / 8;
  }

  /** walk's test for a direct-mapped address, on words and on numbers: hi is the top hexadecimal digit of both. */
  lemma DirectIs(w: Word, hi: bv4, lo: nat)
    requires w >> 60 == hi as Word && lo < 0x1000_0000_0000_0000
    ensures w & DMWIN_MASK != 0 <==> Direct(hi as nat * 0x1000_0000_0000_0000 + lo)
  {
    TopDigit(hi as nat, lo);
    BitsOf(hi);
    assert w & DMWIN_MASK != 0 <==> (w >> 60) & 9 != 0;
    assert (hi as Word) & 9 != 0 <==> hi & 9 != 0;
  }

  lemma BitsOf(hi: bv4)
    ensures hi & 9 != 0 <==> (hi as nat) % 2 == 1 || (hi as nat) / 8 % 2 == 1
  {
    assert hi == 0 || hi == 1 || hi == 2 || hi == 3 || hi == 4 || hi == 5 || hi == 6 || hi == 7
        || hi == 8 || hi == 9 || hi == 10 || hi == 11 || hi == 12 || hi == 13 || hi == 14 || hi == 15;
  }

  /** The test for an interior entry, on words and on records. */
  lemma OnlyVIs(w: Word)
    ensures PteFlags(w) == PTE_V <==> OnlyV(FlagsOf(w))
  {
  }
}

/**
 The tree as a value: well-formedness, the flat map it stands for, and what writing one entry does
 to that map.
 */
module PageTree {
  import opened Paging
  import opened Options

  datatype Page = Table(ptes: seq<Pte>) | Data(bytes: seq<Byte>)

  type Memory = map<nat, Page>

  /** Where a table page hangs: the page above it and the index there. */
  datatype Place = Place(page: nat, idx: nat)

  const ROOT: nat := 3

  predicate IsTable(m: Memory, p: nat) {
    p in m && m[p].Table? && |m[p].ptes| == ENTRIES
  }

  predicate IsData(m: Memory, p: nat) {
    p in m && m[p].Data? && |m[p].bytes| == PGSIZE
  }

  /**
   Every table page has one level and one place: a valid entry above level 0 leads to a table one
   level below that records exactly this entry as its place. So no two entries share a table.
   */
  ghost predicate WellFormed(m: Memory, level: map<nat, nat>, place: map<nat, Place>) {
    && (forall p :: p in level ==> IsTable(m, p) && p < FRAMES && level[p] <= ROOT)
    && (forall p :: p in m && m[p].Table? ==> p in level)
    && (forall p, i :: p in level && level[p] > 0 && 0 <= i < ENTRIES && m[p].ptes[i].flags.v ==>
          ChildOk(m[p].ptes[i].frame, Place(p, i), level[p] - 1, level, place))
  }

  ghost predicate ChildOk(q: nat, at: Place, l: nat, level: map<nat, nat>, place: map<nat, Place>) {
    q in level && level[q] == l && q in place && place[q] == at
  }

  /** The table and index where walk ends for vp, starting at a table of the given level. */
  function Slot(m: Memory, page: nat, vp: nat, l: nat): Option<Place>
    decreases l
  {
    if l == 0 then Some(Place(page, Px(0, vp)))
    else if IsTable(m, page) && m[page].ptes[Px(l, vp)].flags.v then
      Slot(m, m[page].ptes[Px(l, vp)].frame, vp, l - 1)
    else None
  }

  /** The leaf entry of page vp, the null entry where no table covers it. */
  function Leaf(m: Memory, root: nat, vp: nat): Pte {
    match Slot(m, root, vp, ROOT)
    case None => NULL_PTE
    case Some(s) => if IsTable(m, s.page) && s.idx < ENTRIES then m[s.page].ptes[s.idx] else NULL_PTE
  }

  predicate IsRoot(level: map<nat, nat>, r: nat) { r in level && level[r] == ROOT }

  /** A root and a page number. */
  datatype Key = Key(root: nat, vp: nat)

  type FlatMap = imap<Key, Pte>

  /** The flat map of all the trees in memory. */
  ghost function View(m: Memory, level: map<nat, nat>): FlatMap {
    imap k: Key | IsRoot(level, k.root) && k.vp < MAXPAGE :: Leaf(m, k.root, k.vp)
  }

  lemma {:induction false} SlotIsTable(m: Memory, level: map<nat, nat>, place: map<nat, Place>, page: nat, vp: nat,
      l: nat)
    requires WellFormed(m, level, place)
    requires page in level && level[page] == l
    ensures var s := Slot(m, page, vp, l);
            s.Some? ==> s.value.page in level && level[s.value.page] == 0 && s.value.idx == Px(0, vp)
    decreases l
  {
    if l > 0 && m[page].ptes[Px(l, vp)].flags.v {
      assert ChildOk(m[page].ptes[Px(l, vp)].frame, Place(page, Px(l, vp)), l - 1, level, place);
      SlotIsTable(m, level, place, m[page].ptes[Px(l, vp)].frame, vp, l - 1);
    }
  }

  /** Two walks that end in the same slot started at the same table and took the same index at every level. */
  lemma {:induction false} SlotInjective(m: Memory, level: map<nat, nat>, place: map<nat, Place>,
                                         page: nat, vp: nat, page': nat, vp': nat, l: nat)
    requires WellFormed(m, level, place)
    requires page in level && level[page] == l && page' in level && level[page'] == l
    requires Slot(m, page, vp, l).Some? && Slot(m, page, vp, l) == Slot(m, page', vp', l)
    ensures page == page'
    ensures forall k: nat :: k <= l ==> Px(k, vp) == Px(k, vp')
    decreases l
  {
    if l > 0 {
      var i, i' := Px(l, vp), Px(l, vp');
      var q, q' := m[page].ptes[i].frame, m[page'].ptes[i'].frame;
      assert ChildOk(q, Place(page, i), l - 1, level, place);
      assert ChildOk(q', Place(page', i'), l - 1, level, place);
      SlotInjective(m, level, place, q, vp, q', vp', l - 1);
    }
  }

  /** The slot of one root and page is no other root's and no other page's. */
  lemma SlotExclusive(m: Memory, level: map<nat, nat>, place: map<nat, Place>, r: nat, vp: nat, r': nat, vp': nat)
    requires WellFormed(m, level, place)
    requires IsRoot(level, r) && IsRoot(level, r') && vp < MAXPAGE && vp' < MAXPAGE
    requires Slot(m, r, vp, ROOT).Some? && Slot(m, r, vp, ROOT) == Slot(m, r', vp', ROOT)
    ensures r == r' && vp == vp'
  {
    SlotInjective(m, level, place, r, vp, r', vp', ROOT);
    SlicesInjective(vp, vp');
  }

  /** Memory with entry i of table p set to w. */
  function SetPte(m: Memory, p: nat, i: nat, w: Pte): Memory
    requires IsTable(m, p) && i < ENTRIES
  {
    m[p := Table(m[p].ptes[i := w])]
  }

  /** Writing a level-0 entry moves no slot. */
  lemma {:induction false} SetLeafKeepsSlots(m: Memory, level: map<nat, nat>, place: map<nat, Place>,
                                             p: nat, i: nat, w: Pte, page: nat, vp: nat, l: nat)
    requires WellFormed(m, level, place)
    requires p in level && level[p] == 0 && i < ENTRIES
    requires page in level && level[page] == l
    ensures Slot(SetPte(m, p, i, w), page, vp, l) == Slot(m, page, vp, l)
    decreases l
  {
    if l > 0 && m[page].ptes[Px(l, vp)].flags.v {
      assert ChildOk(m[page].ptes[Px(l, vp)].frame, Place(page, Px(l, vp)), l - 1, level, place);
      SetLeafKeepsSlots(m, level, place, p, i, w, m[page].ptes[Px(l, vp)].frame, vp, l - 1);
    }
  }

  lemma SetLeafWellFormed(m: Memory, level: map<nat, nat>, place: map<nat, Place>, p: nat, i: nat, w: Pte)
    requires WellFormed(m, level, place)
    requires p in level && level[p] == 0 && i < ENTRIES
    ensures WellFormed(SetPte(m, p, i, w), level, place)
  {
    var m' := SetPte(m, p, i, w);
    forall p', i' | p' in level && level[p'] > 0 && 0 <= i' < ENTRIES && m'[p'].ptes[i'].flags.v
      ensures ChildOk(m'[p'].ptes[i'].frame, Place(p', i'), level[p'] - 1, level, place)
    {
      assert m'[p'] == m[p'];
    }
  }

  lemma SetLeafValue(m: Memory, level: map<nat, nat>, place: map<nat, Place>, r: nat, vp: nat, s: Place, w: Pte,
      r': nat, vp': nat)
    requires WellFormed(m, level, place)
    requires IsRoot(level, r) && IsRoot(level, r') && vp < MAXPAGE && vp' < MAXPAGE
    requires Slot(m, r, vp, ROOT) == Some(s) && s.page in level && level[s.page] == 0 && s.idx < ENTRIES
    ensures Leaf(SetPte(m, s.page, s.idx, w), r', vp') == if r' == r && vp' == vp then w else Leaf(m, r', vp')
  {
    hide Slot, Px;
    SetLeafKeepsSlots(m, level, place, s.page, s.idx, w, r', vp', ROOT);
    if !(r' == r && vp' == vp) && Slot(m, r', vp', ROOT) == Some(s) {
      SlotExclusive(m, level, place, r, vp, r', vp');
    }
  }

  /** Writing the slot of (r, vp) changes the flat map at that root and page, and nowhere else. */
  lemma SetLeafView(m: Memory, level: map<nat, nat>, place: map<nat, Place>, r: nat, vp: nat, s: Place, w: Pte)
    requires WellFormed(m, level, place)
    requires IsRoot(level, r) && vp < MAXPAGE && Slot(m, r, vp, ROOT) == Some(s)
    ensures s.page in level && level[s.page] == 0 && s.idx < ENTRIES
    ensures WellFormed(SetPte(m, s.page, s.idx, w), level, place)
    ensures View(SetPte(m, s.page, s.idx, w), level) == View(m, level)[Key(r, vp) := w]
  {
    SlotIsTable(m, level, place, r, vp, ROOT);
    SetLeafWellFormed(m, level, place, s.page, s.idx, w);
    hide Slot, Leaf, WellFormed, Px;
    var v, v' := View(m, level)[Key(r, vp) := w], View(SetPte(m, s.page, s.idx, w), level);
    forall k | k in v'
      ensures v'[k] == v[k]
    {
      SetLeafValue(m, level, place, r, vp, s, w, k.root, k.vp);
    }
  }

  function Zeros(n: nat): (s: seq<Pte>)
    ensures |s| == n && forall i :: 0 <= i < n ==> s[i] == NULL_PTE
  {
    if n == 0 then [] else Zeros(n - 1) + [NULL_PTE]
  }

  /** Memory after linking a fresh zeroed table q into the invalid interior entry (p, i). */
  function Link(m: Memory, p: nat, i: nat, q: nat): Memory
    requires IsTable(m, p) && i < ENTRIES
  {
    SetPte(m, p, i, InteriorPte(q))[q := Table(Zeros(ENTRIES))]
  }

  lemma EmptyTable(m: Memory, q: nat, vp: nat, l: nat)
    requires IsTable(m, q) && m[q].ptes == Zeros(ENTRIES)
    ensures Slot(m, q, vp, l).Some? ==> Slot(m, q, vp, l).value.page == q
  {
  }

  lemma {:induction false} LinkWalk(m: Memory, level: map<nat, nat>, place: map<nat, Place>,
                                    p: nat, i: nat, q: nat, page: nat, vp: nat, l: nat)
    requires WellFormed(m, level, place)
    requires p in level && level[p] > 0 && i < ENTRIES && !m[p].ptes[i].flags.v
    requires q !in level && q < FRAMES
    requires page in level && level[page] == l
    ensures var s, s' := Slot(m, page, vp, l), Slot(Link(m, p, i, q), page, vp, l);
            && (s.Some? ==> s' == s)
            && (s.None? && s'.Some? ==> s'.value.page == q)
    decreases l
  {
    var m' := Link(m, p, i, q);
    var k := Px(l, vp);
    if l > 0 {
      if m[page].ptes[k].flags.v {
        assert ChildOk(m[page].ptes[k].frame, Place(page, k), l - 1, level, place);
        LinkWalk(m, level, place, p, i, q, m[page].ptes[k].frame, vp, l - 1);
        assert m'[page].ptes[k] == m[page].ptes[k];
      } else if page == p && k == i {
        EmptyTable(m', q, vp, l - 1);
      }
    }
  }

  lemma LinkWellFormed(m: Memory, level: map<nat, nat>, place: map<nat, Place>, p: nat, i: nat, q: nat)
    requires WellFormed(m, level, place)
    requires p in level && level[p] > 0 && i < ENTRIES && !m[p].ptes[i].flags.v
    requires q !in level && q < FRAMES
    ensures WellFormed(Link(m, p, i, q), level[q := level[p] - 1], place[q := Place(p, i)])
  {
    var m', level', place' := Link(m, p, i, q), level[q := level[p] - 1], place[q := Place(p, i)];
    forall p', i' | p' in level' && level'[p'] > 0 && 0 <= i' < ENTRIES && m'[p'].ptes[i'].flags.v
      ensures ChildOk(m'[p'].ptes[i'].frame, Place(p', i'), level'[p'] - 1, level', place')
    {
      if !(p' == p && i' == i) {
        assert p' != q;
        assert m'[p'].ptes[i'] == m[p'].ptes[i'];
        assert ChildOk(m[p'].ptes[i'].frame, Place(p', i'), level[p'] - 1, level, place);
      }
    }
  }

  /** Linking an empty table leaves every flat map as it was. */
  lemma LinkKeepsLeaf(m: Memory, level: map<nat, nat>, place: map<nat, Place>, p: nat, i: nat, q: nat, r: nat, vp: nat)
    requires WellFormed(m, level, place)
    requires p in level && level[p] > 0 && i < ENTRIES && !m[p].ptes[i].flags.v
    requires q !in level && q < FRAMES
    requires IsRoot(level, r)
    ensures Leaf(Link(m, p, i, q), r, vp) == Leaf(m, r, vp)
  {
    LinkWalk(m, level, place, p, i, q, r, vp, ROOT);
    SlotIsTable(m, level, place, r, vp, ROOT);
  }

  /** Linking an empty table leaves the flat map as it was. */
  lemma LinkView(m: Memory, level: map<nat, nat>, place: map<nat, Place>, p: nat, i: nat, q: nat)
    requires WellFormed(m, level, place)
    requires p in level && level[p] > 0 && i < ENTRIES && !m[p].ptes[i].flags.v
    requires q !in level && q < FRAMES
    ensures View(Link(m, p, i, q), level[q := level[p] - 1]) == View(m, level)
  {
    var v, v' := View(m, level), View(Link(m, p, i, q), level[q := level[p] - 1]);
    forall k | k in v
      ensures v'[k] == v[k]
    {
      LinkKeepsLeaf(m, level, place, p, i, q, k.root, k.vp);
    }
  }

  /** The same table pages, whatever the other pages hold. */
  ghost predicate SameTables(m: Memory, m': Memory, level: map<nat, nat>) {
    && (forall p :: p in level ==> p in m && p in m' && m'[p] == m[p])
    && (forall p :: p in m' && m'[p].Table? ==> p in level)
  }

  lemma {:induction false} SameTablesWalk(m: Memory, m': Memory, level: map<nat, nat>, place: map<nat, Place>,
      page: nat, vp: nat, l: nat)
    requires WellFormed(m, level, place) && SameTables(m, m', level)
    requires page in level && level[page] == l
    ensures Slot(m', page, vp, l) == Slot(m, page, vp, l)
    decreases l
  {
    if l > 0 && m[page].ptes[Px(l, vp)].flags.v {
      assert ChildOk(m[page].ptes[Px(l, vp)].frame, Place(page, Px(l, vp)), l - 1, level, place);
      SameTablesWalk(m, m', level, place, m[page].ptes[Px(l, vp)].frame, vp, l - 1);
    }
  }

  /** Data pages play no part in the tree. */
  lemma SameTablesView(m: Memory, m': Memory, level: map<nat, nat>, place: map<nat, Place>)
    requires WellFormed(m, level, place) && SameTables(m, m', level)
    ensures WellFormed(m', level, place)
    ensures View(m', level) == View(m, level)
  {
    forall k | k in View(m, level)
      ensures Leaf(m', k.root, k.vp) == Leaf(m, k.root, k.vp)
    {
      SameTablesWalk(m, m', level, place, k.root, k.vp, ROOT);
      SlotIsTable(m, level, place, k.root, k.vp, ROOT);
    }
  }

  /** A zeroed table that hangs nowhere disturbs no walk. */
  lemma {:induction false} NewRootWalk(m: Memory, level: map<nat, nat>, place: map<nat, Place>, q: nat, page: nat,
      vp: nat, l: nat)
    requires WellFormed(m, level, place) && q !in level && page in level && level[page] == l
    ensures Slot(m[q := Table(Zeros(ENTRIES))], page, vp, l) == Slot(m, page, vp, l)
    decreases l
  {
    if l > 0 && m[page].ptes[Px(l, vp)].flags.v {
      assert ChildOk(m[page].ptes[Px(l, vp)].frame, Place(page, Px(l, vp)), l - 1, level, place);
      NewRootWalk(m, level, place, q, m[page].ptes[Px(l, vp)].frame, vp, l - 1);
    }
  }

  lemma NewRootWellFormed(m: Memory, level: map<nat, nat>, place: map<nat, Place>, q: nat)
    requires WellFormed(m, level, place) && q !in level && q < FRAMES
    ensures WellFormed(m[q := Table(Zeros(ENTRIES))], level[q := ROOT], place)
  {
    var m', level' := m[q := Table(Zeros(ENTRIES))], level[q := ROOT];
    forall p, i | p in level' && level'[p] > 0 && 0 <= i < ENTRIES && m'[p].ptes[i].flags.v
      ensures ChildOk(m'[p].ptes[i].frame, Place(p, i), level'[p] - 1, level', place)
    {
      assert ChildOk(m[p].ptes[i].frame, Place(p, i), level[p] - 1, level, place);
    }
  }

  /** A zeroed table as a new root translates nothing, and changes no other translation. */
  lemma NewRootView(m: Memory, level: map<nat, nat>, place: map<nat, Place>, q: nat, k: Key)
    requires WellFormed(m, level, place) && q !in level && q < FRAMES
    ensures var v, v' := View(m, level), View(m[q := Table(Zeros(ENTRIES))], level[q := ROOT]);
            && (k in v' <==> k in v || (k.root == q && k.vp < MAXPAGE))
            && (k in v' ==> v'[k] == if k.root == q then NULL_PTE else v[k])
  {
    hide Px;
    if k in View(m, level) {
      NewRootWalk(m, level, place, q, k.root, k.vp, ROOT);
      SlotIsTable(m, level, place, k.root, k.vp, ROOT);
    }
  }

  /** The walk for vp from table `from` of level l passes through table `to` at level n. */
  ghost predicate Reaches(m: Memory, from: nat, vp: nat, l: nat, to: nat, n: nat)
    decreases l
  {
    if l <= n then l == n && from == to
    else IsTable(m, from) && m[from].ptes[Px(l, vp)].flags.v &&
         Reaches(m, m[from].ptes[Px(l, vp)].frame, vp, l - 1, to, n)
  }

  lemma {:induction false} ReachesSlot(m: Memory, from: nat, vp: nat, l: nat, to: nat, n: nat)
    requires Reaches(m, from, vp, l, to, n)
    ensures Slot(m, from, vp, l) == Slot(m, to, vp, n)
    decreases l
  {
    if l > n {
      ReachesSlot(m, m[from].ptes[Px(l, vp)].frame, vp, l - 1, to, n);
    }
  }

  lemma {:induction false} ReachesStep(m: Memory, from: nat, vp: nat, l: nat, to: nat, n: nat)
    requires Reaches(m, from, vp, l, to, n) && n > 0
    requires IsTable(m, to) && m[to].ptes[Px(n, vp)].flags.v
    ensures Reaches(m, from, vp, l, m[to].ptes[Px(n, vp)].frame, n - 1)
    decreases l
  {
    if l > n {
      ReachesStep(m, m[from].ptes[Px(l, vp)].frame, vp, l - 1, to, n);
    }
  }

  /** Linking q where the walk stopped takes the walk one level further, to q. */
  lemma {:induction false} ReachesLink(m: Memory, level: map<nat, nat>, place: map<nat, Place>,
                                       from: nat, vp: nat, l: nat, to: nat, n: nat, q: nat)
    requires WellFormed(m, level, place) && from in level && level[from] == l
    requires Reaches(m, from, vp, l, to, n) && n > 0 && to in level && level[to] == n
    requires q !in level && q < FRAMES
    ensures Reaches(Link(m, to, Px(n, vp), q), from, vp, l, q, n - 1)
    decreases l
  {
    if l > n {
      var c := m[from].ptes[Px(l, vp)].frame;
      assert ChildOk(c, Place(from, Px(l, vp)), l - 1, level, place);
      ReachesLink(m, level, place, c, vp, l - 1, to, n, q);
    }
  }
}
