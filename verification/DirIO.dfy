/** Reading, making, changing and removing directory entries on a volume (kernel/fat32.c). */
module DirIO {
  import opened ByteSeq
  import opened FatTable
  import opened Clusters
  import opened DirEntries
  import opened Directories
  import F = FileIO

  const ATTR_DIRECTORY: byte := 0x10

  /** An entry in memory. name is the filename field and the four bytes behind it. */
  class Entry {
    const name: array<byte>
    var attribute: byte
    var firstClus: nat
    var fileSize: nat
    var curClus: nat
    var clusCnt: nat
    var off: nat
    var valid: int
    var dirty: bool

    constructor ()
      ensures name.Length == FIELD && fresh(name)
    {
      name := new byte[FIELD](i => 0);
      attribute, firstClus, fileSize, curClus, clusCnt, off, valid, dirty := 0, 0, 0, 0, 0, 0, 0, false;
    }
  }

  /** The directory's chain, its cursor, and no size of its own. */
  ghost predicate Ready(v: F.Volume, d: F.Dirent, chain: seq<nat>)
    reads v, d
  {
    v.Valid() && chain != [] && IsChain(v.fat, v.g.cnt, chain) && d.Cursor(chain) && d.directory
  }

  /** The bytes of the directory. */
  ghost function DirBytes(v: F.Volume, d: F.Dirent, chain: seq<nat>): seq<byte>
    requires Ready(v, d, chain)
    reads v, d
  {
    FileBytes(v.sectors, v.g, chain)
  }

  lemma {:induction false} SlotsInTimes(q: nat, s: nat)
    requires s % 32 == 0
    ensures Times(q, s) % 32 == 0
  {
    if q > 0 {
      SlotsInTimes(q - 1, s);
    }
  }

  lemma SlotsInCluster(g: Geometry)
    ensures Size(g) % 32 == 0
  {
    SlotsInTimes(g.spc, 512);
  }

  lemma Multiple(x: nat, q: nat, s: nat)
    requires s > 0 && s % 32 == 0 && x % 32 == 0 && x == Times(q, s) + x % s
    ensures x % s + 32 <= s
  {
    SlotsInTimes(q, s);
    ModBelow(x, s);
  }

  /** A slot never lies across two clusters, and it is inside the directory exactly when its cluster is. */
  lemma SlotFits(off: nat, g: Geometry, n: nat)
    requires off % 32 == 0 && Size(g) > 0
    ensures off % Size(g) + 32 <= Size(g)
    ensures off / Size(g) < n <==> off + 32 <= Times(n, Size(g))
  {
    hide Size, Times;
    SlotsInCluster(g);
    Places(off, Size(g));
    Multiple(off, off / Size(g), Size(g));
    if off + 32 <= Times(n, Size(g)) {
      PlacesBelow(off, Size(g), n);
    }
    if off / Size(g) < n {
      TimesMore(off / Size(g) + 1, n, Size(g));
      NextTimes(off / Size(g), Size(g));
    }
  }

  lemma NextTimes(q: nat, s: nat)
    ensures Times(q + 1, s) == s + Times(q, s)
  {
  }

  /**
   reloc_clus without growing, and rw_clus reading the first n bytes of a slot; here is false past the end of the
   chain.
   */
  method ReadSlot(v: F.Volume, d: F.Dirent, off: nat, n: nat, ghost chain: seq<nat>) returns (here: bool, de: seq<byte>)
    requires Ready(v, d, chain) && off % 32 == 0 && n <= 32
    modifies v, d`curClus, d`clusCnt
    ensures Ready(v, d, chain) && v.fat == old(v.fat) && v.sectors == old(v.sectors)
    ensures DirBytes(v, d, chain) == old(DirBytes(v, d, chain))
    ensures here <==> off + 32 <= |DirBytes(v, d, chain)|
    ensures here ==> |de| == n && de == DirBytes(v, d, chain)[off..off + n]
  {
    hide Cluster, Laid, Size, FileBytes, IsChain, F.Grown;
    F.SizePositive(v.g, v.sectors);
    F.ChainIn(v.fat, v.g.cnt, chain);
    PartsBlocks(v.sectors, v.g, chain);
    SlotFits(off, v.g, |chain|);
    var r, ok;
    ghost var ch;
    r, ok, ch := v.Reloc(d, off, false, chain);
    if r == -1 {
      return false, [];
    }
    de := v.ReadClus(d.curClus, r, n, n);
    FileSlice(v.sectors, v.g, chain, off / Size(v.g), off % Size(v.g), n);
    Places(off, Size(v.g));
    here := true;
  }

  /** The volume is full, and the chain ch ends in front of off. */
  ghost predicate FullBefore(v: F.Volume, ch: seq<nat>, off: nat)
    reads v
  {
    F.NoneFree(v.fat, v.g.cnt) && ch != [] && Times(|ch|, Size(v.g)) <= off
  }

  /** reloc_clus and rw_clus, writing at most a slot; with alloc the chain may grow. ok is false on a panic. */
  method WriteSlot(v: F.Volume, d: F.Dirent, off: nat, src: seq<byte>, alloc: bool,
      ghost chain: seq<nat>) returns (ok: bool, ghost ch: seq<nat>)
    requires Ready(v, d, chain) && off % 32 == 0 && |src| <= 32
    requires !alloc ==> off + 32 <= |DirBytes(v, d, chain)|
    modifies v, d`curClus, d`clusCnt
    ensures v.Valid()
    ensures ok ==> Ready(v, d, ch) && F.Written(old(v.fat), old(v.sectors), chain, v.fat, v.sectors, ch, v.g, off, src)
    ensures !alloc ==> ok && ch == chain && v.fat == old(v.fat)
    ensures !ok ==> FullBefore(v, ch, off)
  {
    hide Cluster, Laid, Size, FileBytes, IsChain, F.Grown, OthersSame, Splice, F.Written;
    F.SizePositive(v.g, v.sectors);
    F.ChainIn(v.fat, v.g.cnt, chain);
    PartsBlocks(v.sectors, v.g, chain);
    SlotFits(off, v.g, |chain|);
    var r;
    r, ok, ch := v.Reloc(d, off, alloc, chain);
    if !ok {
      F.TooShort(|ch|, off, Size(v.g));
      return;
    }
    ghost var sec1 := v.sectors;
    F.ChainIn(v.fat, v.g.cnt, ch);
    var tot;
    ghost var w;
    tot, w := v.WriteClus(d.curClus, r, src, 32);
    assert src[..w] == src;
    F.ChainApartFrom(v.fat, v.g.cnt, ch, off / Size(v.g));
    FileSplice(sec1, v.sectors, v.g, ch, off / Size(v.g), off % Size(v.g), src);
    Places(off, Size(v.g));
    F.PutWritten(old(v.fat), old(v.sectors), chain, v.fat, sec1, ch, v.sectors, v.g, off, src, off / Size(v.g));
  }

  datatype Kind = NoMore | Empty | AFile | Crash

  /** The bytes of a directory from off on. */
  function Behind(b: seq<byte>, off: nat): seq<byte> { if off <= |b| then b[off..] else [] }

  /** The filename field after memset. */
  function Blank(buf: seq<byte>): (r: seq<byte>)
    requires |buf| == FIELD
    ensures Blanked(r)
  {
    seq(256, i => 0) + buf[256..]
  }

  /** What enext returns and leaves in the entry. */
  predicate Reports(next: Next, kind: Kind, count: nat, buf: seq<byte>, attr: byte, clus: nat, size: nat) {
    match next
    case End => kind == NoMore
    case Holes(c, b) => kind == Empty && count == c && buf == b
    case Found(b, a, k, z, c) => kind == AFile && count == c && buf == b && attr == a && clus == k && size == z
    case Fault => kind == Crash
  }

  lemma BehindStep(b: seq<byte>, off: nat)
    ensures off + 32 > |b| <==> |Behind(b, off)| < 32
    ensures off + 32 <= |b| ==> Behind(b, off)[..32] == b[off..off + 32] && Behind(b, off)[32..] == Behind(b, off + 32)
  {
  }

  /**
   One turn of enext's loop, on slot de; b is the directory from there on. kind Crash: the code would write outside
   the entry or through a null pointer.
   */
  method TakeSlot(ep: Entry, de: seq<byte>, cnt: nat, open: bool, count: nat, ghost b: seq<byte>)
      returns (done: bool, kind: Kind, cnt': nat, open': bool, count': nat)
    requires ep.name.Length == FIELD && |b| >= 32 && b[..32] == de
    modifies ep.name, ep`attribute, ep`firstClus, ep`fileSize, ep`curClus, ep`clusCnt
    ensures !done ==> Scan(b, cnt, open, count, old(ep.name[..])) == Scan(b[32..], cnt', open', count', ep.name[..])
    ensures done ==> Reports(Scan(b, cnt, open, count, old(ep.name[..])), kind, count', ep.name[..], ep.attribute,
        ep.firstClus, ep.fileSize)
    ensures done && kind == AFile ==> ep.curClus == ep.firstClus && ep.clusCnt == 0
  {
    hide LongName, ShortInto, ClusOf, SizeOf;
    assert b[0] == de[0] && b[11] == de[11];
    done, kind, cnt', open', count' := true, NoMore, cnt, open, count;
    if de[0] == 0 {
      return;
    }
    if de[0] == EMPTY {
      done, cnt' := false, cnt + 1;
      return;
    }
    if cnt > 0 {
      kind, count' := Empty, cnt;
      return;
    }
    if de[11] == LONG_NAME {
      var lcnt := Number(de[0]);
      if lcnt == 0 || lcnt > 20 || (IsLast(de[0]) && !open) {
        kind := Crash;
        return;
      }
      if IsLast(de[0]) {
        count', open' := lcnt + 1, false;
      }
      ReadLongName(ep.name, (lcnt - 1) * 13, de);
      done := false;
      return;
    }
    if open {
      count' := 1;
      ReadShortName(ep.name, de);
    }
    ep.attribute, ep.firstClus, ep.fileSize := de[11], ClusOf(de), SizeOf(de);
    ep.curClus, ep.clusCnt := ep.firstClus, 0;
    kind := AFile;
  }

  /** enext. */
  method Enext(v: F.Volume, d: F.Dirent, ep: Entry, off: nat, valid: bool, ghost chain: seq<nat>) returns (kind: Kind,
      count: nat)
    requires Ready(v, d, chain) && off % 32 == 0 && ep.name.Length == FIELD
    modifies v, d`curClus, d`clusCnt, ep.name, ep`attribute, ep`firstClus, ep`fileSize, ep`curClus, ep`clusCnt
    ensures Ready(v, d, chain) && v.fat == old(v.fat) && v.sectors == old(v.sectors)
    ensures DirBytes(v, d, chain) == old(DirBytes(v, d, chain))
    ensures !valid ==> kind == NoMore
    ensures valid ==> Reports(Scan(Behind(DirBytes(v, d, chain), off), 0, true, 0, Blank(old(ep.name[..]))), kind,
        count,
                              ep.name[..], ep.attribute, ep.firstClus, ep.fileSize)
    ensures kind == AFile ==> ep.curClus == ep.firstClus && ep.clusCnt == 0
  {
    hide Ready, DirBytes, Behind, Scan, Reports;
    count := 0;
    if !valid {
      return NoMore, 0;
    }
    ghost var b, buf := DirBytes(v, d, chain), Blank(ep.name[..]);
    forall k | 0 <= k < 256 {
      ep.name[k] := 0;
    }
    assert ep.name[..] == buf;
    var done, cnt, open, o := false, 0, true, off;
    var here, de := ReadSlot(v, d, o, 32, chain);
    while here
      invariant Ready(v, d, chain) && v.fat == old(v.fat) && v.sectors == old(v.sectors) && o % 32 == 0
          && b == DirBytes(v, d, chain)
      invariant here <==> o + 32 <= |b|
      invariant here ==> |de| == 32 && de == b[o..o + 32]
      invariant Scan(Behind(b, o), cnt, open, count, ep.name[..]) == Scan(Behind(b, off), 0, true, 0, buf)
      decreases |b| - o
    {
      BehindStep(b, o);
      done, kind, cnt, open, count := TakeSlot(ep, de, cnt, open, count, Behind(b, o));
      if done {
        return;
      }
      o := o + 32;
      here, de := ReadSlot(v, d, o, 32, chain);
    }
    BehindStep(b, o);
    kind := NoMore;
    ScanEnd(Behind(b, o), cnt, open, count, ep.name[..]);
  }

  lemma ScanEnd(b: seq<byte>, cnt: nat, open: bool, count: nat, buf: seq<byte>)
    requires |b| < 32 && |buf| == FIELD
    ensures forall n: nat, a: byte, c: nat, z: nat :: Reports(Scan(b, cnt, open, count, buf), NoMore, n, buf, a, c, z)
  {
  }

  // ----- making an entry -----

  /** A slot that memset and the assignments of the short entry leave. */
  function ShortSlot(short: seq<byte>, attr: byte, clus: nat, size: nat): (s: seq<byte>)
    requires |short| == 11 && clus < 0x1_0000_0000 && size < 0x1_0000_0000
    ensures |s| == 32
  {
    SetInfo(short + [attr] + seq(20, i => 0), clus, size)
  }

  /** All bytes of a short slot. */
  predicate ShortMade(s: seq<byte>, short: seq<byte>, r: Rec) {
    && |s| == 32 && |short| == 11 && s[..11] == short && s[11] == r.attr && ClusOf(s) == r.clus && SizeOf(s) == r.size
    && forall i :: 12 <= i < 26 && i != 20 && i != 21 ==> s[i] == 0
  }

  lemma ShortSlotIs(short: seq<byte>, r: Rec)
    requires |short| == 11 && r.clus < 0x1_0000_0000 && r.size < 0x1_0000_0000
    requires short[0] != 0 && short[0] != EMPTY
    ensures var s := ShortSlot(short, r.attr, r.clus, r.size);
            ShortMade(s, short, r) && (r.attr != LONG_NAME ==> Short(s, r))
  {
    hide SetInfo, ClusOf, SizeOf;
    var z := short + [r.attr] + seq(20, i => 0);
    InfoReads(z, r.clus, r.size);
    var s := SetInfo(z, r.clus, r.size);
    assert forall i :: 0 <= i < 11 ==> s[i] == z[i];
    assert forall i :: 12 <= i < 20 || 22 <= i < 26 ==> s[i] == z[i];
  }

  /** Something has been written at off, or nothing yet. */
  ghost predicate WrittenOr(fat: seq<nat>, sectors: seq<seq<byte>>, chain: seq<nat>, fat': seq<nat>,
      sectors': seq<seq<byte>>, ch: seq<nat>,
                            g: Geometry, off: nat, d: seq<byte>) {
    if d == [] then fat' == fat && sectors' == sectors && ch == chain
    else F.Written(fat, sectors, chain, fat', sectors', ch, g, off, d)
  }

  lemma WrittenMore(fat: seq<nat>, sectors: seq<seq<byte>>, chain: seq<nat>, fat1: seq<nat>, sec1: seq<seq<byte>>,
      ch1: seq<nat>,
                    fat2: seq<nat>, sec2: seq<seq<byte>>, ch2: seq<nat>, g: Geometry, off: nat, d: seq<byte>,
                        e: seq<byte>)
    requires ch1 != [] && IsChain(fat1, g.cnt, ch1) && e != []
    requires WrittenOr(fat, sectors, chain, fat1, sec1, ch1, g, off, d)
        && F.Written(fat1, sec1, ch1, fat2, sec2, ch2, g, off + |d|, e)
    ensures WrittenOr(fat, sectors, chain, fat2, sec2, ch2, g, off, d + e)
  {
    hide F.Written, IsChain;
    if d == [] {
      assert d + e == e;
    } else {
      F.WrittenTwice(fat, sectors, chain, fat1, sec1, ch1, fat2, sec2, ch2, g, off, d, e);
    }
  }

  lemma SegmentMade(t: seq<byte>, name: seq<byte>, i: nat)
    requires Legal(name) && 1 <= i <= LongCount(name) && |t| == 32 && t[0] == Order(LongCount(name), i)
        && t[11] == LONG_NAME
    requires forall j :: 0 <= j < 13 ==> Wide(t, j) == Char(name, 13 * (i - 1) + j)
    ensures Segment(t, name, i)
  {
  }

  /** emake's loop: the long slots, last one first, from off on. */
  method MakeLongs(v: F.Volume, d: F.Dirent, name: seq<byte>, sum: byte, off: nat,
      ghost chain: seq<nat>) returns (ok: bool, ghost data: seq<byte>, ghost ch: seq<nat>)
    requires Ready(v, d, chain) && Formatted(name) && off % 32 == 0
    modifies v, d`curClus, d`clusCnt
    ensures v.Valid()
    ensures ok ==> Ready(v, d, ch) && Longs(data, name, LongCount(name), sum) && |data| == 32 * LongCount(name)
    ensures ok ==> WrittenOr(old(v.fat), old(v.sectors), chain, v.fat, v.sectors, ch, v.g, off, data)
    ensures !ok ==> |data| < 32 * LongCount(name) && FullBefore(v, ch, off + |data|)
  {
    hide DirBytes, F.Written, WrittenOr, Longs, Segment, Legal, Wide;
    LongsNeeded(name);
    var entcnt := LongCount(name);
    var de: seq<byte> := seq(32, i => 0)[13 := sum][11 := LONG_NAME];
    ok, ch, data := true, chain, [];
    assert Longs([], name, entcnt, sum) by { NoLongs(name, entcnt, sum); }
    assert WrittenOr(v.fat, v.sectors, chain, v.fat, v.sectors, ch, v.g, off,
        []) by { NothingWritten(v.fat, v.sectors, chain, v.g, off); }
    var i, o := entcnt, off;
    while i > 0
      invariant 0 <= i <= entcnt && |de| == 32 && de[11] == LONG_NAME && Marked(de, sum)
      invariant Ready(v, d, ch) && Longs(data, name, entcnt, sum) && |data| == 32 * (entcnt - i) && o == off + |data|
      invariant WrittenOr(old(v.fat), old(v.sectors), chain, v.fat, v.sectors, ch, v.g, off, data)
    {
      OrderRead(entcnt, i);
      de := de[0 := Order(entcnt, i)];
      de := FillLong(de, name, i);
      SegmentMade(de, name, i);
      ghost var fat1, sec1, ch1 := v.fat, v.sectors, ch;
      ok, ch := WriteSlot(v, d, o, de, true, ch);
      if !ok {
        return;
      }
      WrittenMore(old(v.fat), old(v.sectors), chain, fat1, sec1, ch1, v.fat, v.sectors, ch, v.g, off, data, de);
      LongsMore(data, name, entcnt, sum, de);
      data := data + de;
      i, o := i - 1, o + 32;
    }
  }

  lemma LongsNeeded(name: seq<byte>)
    requires Formatted(name)
    ensures LongCount(name) <= 20 && if name == [] then LongCount(name) == 0 else Legal(name) && LongCount(name) > 0
  {
    if name != [] {
      LongCountIs(name);
    }
  }

  lemma NoLongs(name: seq<byte>, n: nat, sum: byte)
    ensures Longs([], name, n, sum)
  {
    hide Segment, Marked;
  }

  lemma NothingWritten(fat: seq<nat>, sectors: seq<seq<byte>>, chain: seq<nat>, g: Geometry, off: nat)
    ensures WrittenOr(fat, sectors, chain, fat, sectors, chain, g, off, [])
  {
    hide F.Written;
  }

  /** All bytes of the slots of r: the long ones, every one with the checksum of the short name, and the short one. */
  predicate AllBytes(data: seq<byte>, r: Rec, short: seq<byte>) {
    var n := LongCount(r.name);
    && |data| == 32 * n + 32 && Longs(data[..32 * n], r.name, n, Checksum(short)) && ShortMade(data[32 * n..], short, r)
  }

  /** The slots of a file without a name. */
  lemma NamelessSlots(s: seq<byte>, r: Rec, short: seq<byte>)
    requires r.name == [] && |s| == 32 && |short| == 11 && s[..11] == short && (r.attr != LONG_NAME ==> Short(s, r))
    requires forall k :: 0 <= k < 11 ==> short[k] == ' ' as int
    ensures r.attr != LONG_NAME ==> Encodes(s, r)
  {
    hide Short;
    assert forall k :: 0 <= k < 11 ==> s[k] == s[..11][k];
  }

  lemma MadeData(data: seq<byte>, r: Rec, n: nat, short: seq<byte>)
    requires |short| == 11 && ShortChar(short[0]) && r.clus < 0x1_0000_0000 && r.size < 0x1_0000_0000
    requires Formatted(r.name) && n == LongCount(r.name) && Longs(data, r.name, n, Checksum(short)) && |data| == 32 * n
    requires r.name == [] ==> forall k :: 0 <= k < 11 ==> short[k] == ' ' as int
    ensures var all := data + ShortSlot(short, r.attr, r.clus, r.size);
            AllBytes(all, r, short) && (r.attr != LONG_NAME ==> Encodes(all, r))
  {
    hide ShortSlot, Segment, Marked, Short, Run, Lone, Legal, Checksum, ClusOf, SizeOf;
    var s := ShortSlot(short, r.attr, r.clus, r.size);
    ShortSlotIs(short, r);
    var all := data + s;
    assert all[..32 * n] == data && all[32 * n..] == s;
    LongsNeeded(r.name);
    if r.name == [] {
      assert all == s;
      NamelessSlots(s, r, short);
    } else if r.attr != LONG_NAME {
      LongsRun(data, r, n, Checksum(short), s);
    }
  }

  /** emake's second branch, for an offset behind the first two slots. */
  method MakeNamed(v: F.Volume, d: F.Dirent, r: Rec, off: nat, ghost chain: seq<nat>) returns (ok: bool,
      ghost data: seq<byte>, ghost ch: seq<nat>)
    requires Ready(v, d, chain) && off % 32 == 0 && off > 32
    requires Formatted(r.name) && r.clus < 0x1_0000_0000 && r.size < 0x1_0000_0000
    modifies v, d`curClus, d`clusCnt
    ensures v.Valid()
    ensures ok ==> Ready(v, d, ch) && F.Written(old(v.fat), old(v.sectors), chain, v.fat, v.sectors, ch, v.g, off, data)
    ensures !ok ==> exists o: nat :: o < off + 32 * (LongCount(r.name) + 1) && FullBefore(v, ch, o)
    ensures ok ==> AllBytes(data, r, ShortFor(r.name)) && (r.attr != LONG_NAME ==> Encodes(data, r))
  {
    hide DirBytes, F.Written, Longs, Encodes, ShortSlot, Legal, AllBytes, Checksum, ShortFor;
    var short := GenerateShortName(r.name);
    var sum := CalChecksum(short);
    ok, data, ch := MakeLongs(v, d, r.name, sum, off, chain);
    if !ok {
      return;
    }
    ghost var fat1, sec1, ch1 := v.fat, v.sectors, ch;
    var de := ShortSlot(short, r.attr, r.clus, r.size);
    ok, ch := WriteSlot(v, d, off + 32 * LongCount(r.name), de, true, ch);
    if !ok {
      return;
    }
    WrittenMore(old(v.fat), old(v.sectors), chain, fat1, sec1, ch1, v.fat, v.sectors, ch, v.g, off, data, de);
    MadeData(data, r, LongCount(r.name), short);
    data := data + de;
  }

  function DotName(off: nat): seq<byte> { if off == 0 then ['.' as int] else ['.' as int, '.' as int] }

  function DotShort(off: nat): seq<byte> { DotName(off) + seq(11 - |DotName(off)|, i => ' ' as int) }

  /** emake's first branch: "." at 0, ".." at 32, with no size. */
  method MakeDot(v: F.Volume, d: F.Dirent, clus: nat, off: nat, ghost chain: seq<nat>) returns (ok: bool,
      ghost data: seq<byte>, ghost ch: seq<nat>)
    requires Ready(v, d, chain) && (off == 0 || off == 32) && clus < 0x1_0000_0000
    modifies v, d`curClus, d`clusCnt
    ensures v.Valid()
    ensures ok ==> Ready(v, d, ch) && F.Written(old(v.fat), old(v.sectors), chain, v.fat, v.sectors, ch, v.g, off, data)
    ensures ok ==> var r := Rec(DotName(off), ATTR_DIRECTORY, clus, 0);
              Encodes(data, r) && ShortMade(data, DotShort(off), r)
    ensures !ok ==> FullBefore(v, ch, off)
  {
    hide DirBytes, F.Written, ShortSlot, Short;
    var short := DotShort(off);
    var de := ShortSlot(short, ATTR_DIRECTORY, clus, 0);
    ok, ch := WriteSlot(v, d, off, de, true, chain);
    data := de;
    ghost var r := Rec(DotName(off), ATTR_DIRECTORY, clus, 0);
    ShortSlotIs(short, r);
    assert !Legal(r.name);
    assert forall i :: 0 <= i < 11 ==> de[i] == de[..11][i];
  }

  /** What emake makes for r at off: at the first two slots it writes "." and ".." whatever the name. */
  function MadeFor(r: Rec, off: nat): Rec {
    if off > 32 then r else Rec(DotName(off), ATTR_DIRECTORY, r.clus, 0)
  }

  /** emake. It panics, which ok tells, only if the volume is full and the directory's chain too short for the slots. */
  method Emake(v: F.Volume, d: F.Dirent, r: Rec, off: nat, ghost chain: seq<nat>) returns (ok: bool,
      ghost data: seq<byte>, ghost ch: seq<nat>)
    requires Ready(v, d, chain) && off % 32 == 0
    requires Formatted(r.name) && r.clus < 0x1_0000_0000 && r.size < 0x1_0000_0000
    modifies v, d`curClus, d`clusCnt
    ensures v.Valid()
    ensures ok ==> Ready(v, d, ch) && F.Written(old(v.fat), old(v.sectors), chain, v.fat, v.sectors, ch, v.g, off, data)
    ensures ok && r.attr != LONG_NAME ==> Encodes(data, MadeFor(r, off))
    ensures ok && off > 32 ==> AllBytes(data, r, ShortFor(r.name))
    ensures ok && off <= 32 ==> ShortMade(data, DotShort(off), MadeFor(r, off))
    ensures !ok ==> F.NoneFree(v.fat, v.g.cnt) && ch != []
                    && Times(|ch|, Size(v.g)) < off + 32 * (if off > 32 then LongCount(r.name) + 1 else 1)
  {
    hide F.Written, Encodes, AllBytes, ShortMade, DotName, Legal, ShortFor;
    if off <= 32 {
      ok, data, ch := MakeDot(v, d, r.clus, off, chain);
    } else {
      ok, data, ch := MakeNamed(v, d, r, off, chain);
    }
  }

  lemma BothBytes(s: seq<byte>, name: seq<byte>, j: nat)
    requires Segment(s, name, 1) && j < 13
    ensures s[At(j)] == Char(name, j) % 256 && s[At(j) + 1] == Char(name, j) / 256
  {
    assert Wide(s, j) == Char(name, 13 * (1 - 1) + j);
  }

  lemma FooLong(s: seq<byte>)
    requires Segment(s, FOO_TXT, 1) && Marked(s, 0x65)
    ensures s == [
                0x41, 'f' as int, 0, 'o' as int, 0, 'o' as int, 0, '.' as int, 0, 't' as int, 0, 0x0f, 0, 0x65,
                'x' as int, 0, 't' as int, 0, 0, 0, 255, 255, 255, 255, 255, 255, 0, 0, 255, 255, 255, 255]
  {
    assert LongCount(FOO_TXT) == 1 && s[0] == 0x41 && s[11] == 0x0f;
    BothBytes(s, FOO_TXT, 0);
    BothBytes(s, FOO_TXT, 1);
    BothBytes(s, FOO_TXT, 2);
    BothBytes(s, FOO_TXT, 3);
    BothBytes(s, FOO_TXT, 4);
    BothBytes(s, FOO_TXT, 5);
    BothBytes(s, FOO_TXT, 6);
    BothBytes(s, FOO_TXT, 7);
    BothBytes(s, FOO_TXT, 8);
    BothBytes(s, FOO_TXT, 9);
    BothBytes(s, FOO_TXT, 10);
    BothBytes(s, FOO_TXT, 11);
    BothBytes(s, FOO_TXT, 12);
  }

  lemma FooLast(s: seq<byte>)
    requires ShortMade(s, [70, 79, 79, 32, 32, 32, 32, 32, 84, 88, 84], Rec(FOO_TXT, 0x20, 0x12345, 515))
    ensures s == [
                'F' as int, 'O' as int, 'O' as int, ' ' as int, ' ' as int, ' ' as int, ' ' as int, ' ' as int,
                'T' as int, 'X' as int, 'T' as int, 0x20, 0, 0, 0, 0, 0, 0, 0, 0, 1, 0, 0, 0, 0, 0, 0x45, 0x23,
                3, 2, 0, 0]
  {
    assert forall i :: 0 <= i < 11 ==> s[i] == s[..11][i];
    assert s[20] == 1 && s[21] == 0;
    assert s[26] == 0x45 && s[27] == 0x23;
    assert s[28] == 3 && s[29] == 2 && s[30] == 0 && s[31] == 0;
  }

  lemma FooParts(data: seq<byte>, s: seq<byte>, t: seq<byte>, short: seq<byte>)
    requires AllBytes(data, Rec(FOO_TXT, 0x20, 0x12345, 515), short)
    requires |data| >= 32 && s == data[..32] && t == data[32..]
    ensures Segment(s, FOO_TXT, 1) && Marked(s, Checksum(short))
    ensures ShortMade(t, short, Rec(FOO_TXT, 0x20, 0x12345, 515)) && data == s + t
  {
    hide Segment, Marked, ShortMade, Checksum;
    assert LongCount(FOO_TXT) == 1;
    assert s == s[32 * 0..32 * 0 + 32];
  }

  /** The 64 bytes that emake writes for the file "foo.txt" with attribute 0x20, first cluster 0x12345 and size 515. */
  lemma FooSlots(data: seq<byte>)
    requires AllBytes(data, Rec(FOO_TXT, 0x20, 0x12345, 515), ShortFor(FOO_TXT))
    ensures data == [
                0x41, 'f' as int, 0, 'o' as int, 0, 'o' as int, 0, '.' as int, 0, 't' as int, 0, 0x0f, 0, 0x65,
                'x' as int, 0, 't' as int, 0, 0, 0, 255, 255, 255, 255, 255, 255, 0, 0, 255, 255, 255, 255] + [
                'F' as int, 'O' as int, 'O' as int, ' ' as int, ' ' as int, ' ' as int, ' ' as int, ' ' as int,
                'T' as int, 'X' as int, 'T' as int, 0x20, 0, 0, 0, 0, 0, 0, 0, 0, 1, 0, 0, 0, 0, 0, 0x45, 0x23,
                3, 2, 0, 0]
  {
    hide ShortFor, Checksum, ShortMade, Segment, Marked;
    FooShort();
    var short := ShortFor(FOO_TXT);
    FooSum(short);
    var s, t := data[..32], data[32..];
    FooParts(data, s, t, short);
    FooLong(s);
    FooLast(t);
  }

  /**
   emake and then enext give back the name, attribute, first cluster, size and count exactly if off is behind the
   first two slots and the attribute is not that of a long slot.
   */
  lemma RoundTrip(r: Rec, off: nat, data: seq<byte>, rest: seq<byte>, buf: seq<byte>)
    requires Formatted(r.name) && (r.attr != LONG_NAME ==> Encodes(data, MadeFor(r, off))) && Blanked(buf)
    ensures Finds(Scan(data + rest, 0, true, 0, buf), r) <==> off > 32 && r.attr != LONG_NAME
  {
    hide Scan, Encodes;
    if r.attr == LONG_NAME {
      ScanAttr(data + rest, 0, true, 0, buf);
    } else {
      ScanFinds(data, MadeFor(r, off), rest, buf);
      assert off <= 32 ==> !Formatted(DotName(off));
    }
  }

  /** emake behind the last file of a directory adds exactly that file. */
  lemma EmakeHolds(fat: seq<nat>, sectors: seq<seq<byte>>, chain: seq<nat>, fat': seq<nat>, sectors': seq<seq<byte>>,
      ch: seq<nat>,
                   g: Geometry, items: seq<Item>, e: nat, data: seq<byte>, r: Rec)
    requires Laid(sectors, g) && Laid(sectors', g) && (forall i :: 0 <= i < |chain| ==> InRange(chain[i], g.cnt))
    requires e <= |items| && (forall i :: e <= i < |items| ==> items[i].Hole?) && Distinct(items)
        && r.name !in View(items)
    requires Holds(FileBytes(sectors, g, chain), items) && Encodes(data, r)
    requires F.Written(fat, sectors, chain, fat', sectors', ch, g, Pos(items, e), data)
    ensures forall i :: 0 <= i < |ch| ==> InRange(ch[i], g.cnt)
    ensures Holds(FileBytes(sectors', g, ch), With(items, e, data, r))
    ensures Distinct(With(items, e, data, r)) && View(With(items, e, data, r)) == View(items)[r.name := r]
  {
    hide Holds, Encodes, FileBytes, Laid, Splice, F.Pad, With, View, Distinct, Size, F.Others;
    Made(FileBytes(sectors, g, chain), items, e, data, r, Times(|ch|, Size(g)));
    MakeView(items, e, data, r);
  }

  // ----- changing and removing an entry -----

  /** A write inside the directory changes just those bytes of it, and no cluster of another file. */
  lemma InPlace(fat: seq<nat>, sectors: seq<seq<byte>>, chain: seq<nat>, sectors': seq<seq<byte>>, g: Geometry,
      off: nat, s: seq<byte>)
    requires Laid(sectors, g) && Laid(sectors', g) && (forall i :: 0 <= i < |chain| ==> InRange(chain[i], g.cnt))
    requires F.Written(fat, sectors, chain, fat, sectors', chain, g, off, s)
    ensures off + |s| <= |FileBytes(sectors, g, chain)|
        && FileBytes(sectors', g, chain) == Splice(FileBytes(sectors, g, chain), off, s)
    ensures F.Others(fat, sectors, fat, sectors', g, chain)
  {
    hide Laid, FileBytes, Splice, F.Others;
    PartsBlocks(sectors, g, chain);
  }

  /** WriteSlot on a slot that exists. */
  method PutSlot(v: F.Volume, d: F.Dirent, off: nat, src: seq<byte>, ghost chain: seq<nat>)
    requires Ready(v, d, chain) && off % 32 == 0 && |src| <= 32 && off + 32 <= |DirBytes(v, d, chain)|
    modifies v, d`curClus, d`clusCnt
    ensures Ready(v, d, chain) && v.fat == old(v.fat)
        && F.Others(old(v.fat), old(v.sectors), v.fat, v.sectors, v.g, chain)
    ensures DirBytes(v, d, chain) == Splice(old(DirBytes(v, d, chain)), off, src)
  {
    hide IsChain, FileBytes, Splice, F.Others, F.Written, Laid;
    F.ChainIn(v.fat, v.g.cnt, chain);
    var ok;
    ghost var ch;
    ok, ch := WriteSlot(v, d, off, src, false, chain);
    InPlace(old(v.fat), old(v.sectors), chain, v.sectors, v.g, off, src);
  }

  /** Item k of the directory is a file with a long name, and its slots start at off. */
  ghost predicate EntryAt(b: seq<byte>, items: seq<Item>, k: nat, off: nat) {
    Holds(b, items) && k < |items| && items[k].File? && Legal(items[k].rec.name) && off == Pos(items, k)
  }

  lemma EntrySlots(b: seq<byte>, items: seq<Item>, k: nat, off: nat)
    requires EntryAt(b, items, k, off)
    ensures var x, n := items[k].bytes, LongCount(items[k].rec.name);
            && off % 32 == 0 && |x| == 32 * n + 32 && off + |x| <= |b| && b[off..off + |x|] == x
            && Number(x[0]) == n && Encodes(x, items[k].rec)
  {
    hide Holds, Encodes, Run;
    ItemAt(b, items, k);
    ItemGood(b, items, k);
    Aligned(b, items, k);
    var x, r := items[k].bytes, items[k].rec;
    EncodesLength(x, r);
    FirstOrder(x, r);
  }

  lemma ItemGood(b: seq<byte>, items: seq<Item>, k: nat)
    requires Holds(b, items) && k < |items|
    ensures Good(items[k])
  {
    hide Good;
  }

  lemma FirstOrder(b: seq<byte>, r: Rec)
    requires Encodes(b, r) && Legal(r.name)
    ensures |b| > 32 && Number(b[0]) == LongCount(r.name)
  {
    LongCountIs(r.name);
    OrderRead(LongCount(r.name), LongCount(r.name));
  }

  lemma {:induction false} Aligned(b: seq<byte>, items: seq<Item>, k: nat)
    requires Holds(b, items) && k <= |items|
    ensures Pos(items, k) % 32 == 0
  {
    hide Holds, Good;
    if k > 0 {
      Aligned(b, items, k - 1);
      BytesSplit(items, k - 1);
      ItemGood(b, items, k - 1);
      ItemAligned(items[k - 1]);
    }
  }

  lemma ItemAligned(it: Item)
    requires Good(it)
    ensures |it.bytes| % 32 == 0
  {
    hide Encodes, IsHole;
    if it.File? {
      EncodesLength(it.bytes, it.rec);
    } else {
      HoleLength(it.bytes);
    }
  }

  lemma UpdatedIn(b: seq<byte>, off: nat, x: seq<byte>, clus: nat, size: nat)
    requires |x| >= 32 && off + |x| <= |b| && b[off..off + |x|] == x && clus < 0x1_0000_0000 && size < 0x1_0000_0000
    ensures b[off + |x| - 32..off + |x|] == x[|x| - 32..]
    ensures Splice(b, off + |x| - 32, SetInfo(x[|x| - 32..], clus, size)) == Splice(b, off, Updated(x, clus, size))
  {
    hide SetInfo;
    assert b[off + |x| - 32..off + |x|] == b[off..off + |x|][|x| - 32..];
  }

  /**
   eupdate: the file keeps its name and attribute and gets the entry's first cluster and size; nothing else changes.
   */
  method Eupdate(v: F.Volume, d: F.Dirent, ep: Entry, ghost items: seq<Item>, ghost k: nat,
      ghost chain: seq<nat>) returns (ghost x: seq<byte>)
    requires Ready(v, d, chain) && EntryAt(DirBytes(v, d, chain), items, k, ep.off)
    requires ep.firstClus < 0x1_0000_0000 && ep.fileSize < 0x1_0000_0000
    modifies v, d`curClus, d`clusCnt, ep`dirty
    ensures Ready(v, d, chain) && v.fat == old(v.fat)
    ensures !old(ep.dirty) || ep.valid != 1 ==> v.sectors == old(v.sectors) && ep.dirty == old(ep.dirty)
    ensures old(ep.dirty) && ep.valid == 1 ==>
              |x| == |items[k].bytes| >= 32
              && forall i :: 0 <= i < |x| - 12 || |x| - 10 <= i < |x| - 6 ==> x[i] == items[k].bytes[i]
    ensures old(ep.dirty) && ep.valid == 1 ==>
              && !ep.dirty && F.Others(old(v.fat), old(v.sectors), v.fat, v.sectors, v.g, chain)
              && Holds(DirBytes(v, d, chain),
                  items[k := File(x, items[k].rec.(clus := ep.firstClus, size := ep.fileSize))])
              && (Distinct(items) ==> View(items[k := File(x,
                  items[k].rec.(clus := ep.firstClus, size := ep.fileSize))])
                                      == View(items)[items[k].rec.name := items[k].rec.(clus := ep.firstClus,
                                          size := ep.fileSize)])
  {
    hide Ready, DirBytes, Splice, Encodes, Holds, Legal, SetInfo, F.Others, View, Distinct;
    x := [];
    if !ep.dirty || ep.valid != 1 {
      return;
    }
    ghost var b := DirBytes(v, d, chain);
    EntrySlots(b, items, k, ep.off);
    var here, one := ReadSlot(v, d, ep.off, 1, chain);
    assert one[0] == items[k].bytes[0];
    var off := ep.off + 32 * Number(one[0]);
    var de;
    here, de := ReadSlot(v, d, off, 32, chain);
    UpdatedIn(b, ep.off, items[k].bytes, ep.firstClus, ep.fileSize);
    de := SetInfo(de, ep.firstClus, ep.fileSize);
    PutSlot(v, d, off, de, chain);
    x := Updated(items[k].bytes, ep.firstClus, ep.fileSize);
    UpdatedBytes(items[k].bytes, ep.firstClus, ep.fileSize);
    UpdatedEncodes(items[k].bytes, items[k].rec, ep.firstClus, ep.fileSize);
    Replaced(b, items, k, File(x, items[k].rec.(clus := ep.firstClus, size := ep.fileSize)));
    if Distinct(items) {
      UpdateView(items, k, x, items[k].rec.(clus := ep.firstClus, size := ep.fileSize));
    }
    ep.dirty := false;
  }

  lemma Plain(v: F.Volume, d: F.Dirent, chain: seq<nat>)
    requires Ready(v, d, chain)
    ensures Laid(v.sectors, v.g) && |v.fat| >= v.g.cnt + 2
  {
  }

  lemma NoneErased(x: seq<byte>)
    ensures Erased(x, 0) == x
  {
  }

  lemma SpliceSame(b: seq<byte>, off: nat, x: seq<byte>)
    requires off + |x| <= |b| && b[off..off + |x|] == x
    ensures Splice(b, off, x) == b
  {
    assert b == b[..off] + b[off..off + |x|] + b[off + |x|..];
  }

  lemma EraseNone(b: seq<byte>, off: nat, x: seq<byte>)
    requires off + |x| <= |b| && b[off..off + |x|] == x
    ensures Splice(b, off, Erased(x, 0)) == b
  {
    hide Splice, Erased;
    NoneErased(x);
    SpliceSame(b, off, x);
  }

  lemma OthersSelf(fat: seq<nat>, a: seq<seq<byte>>, g: Geometry, chain: seq<nat>)
    requires Laid(a, g) && |fat| >= g.cnt + 2
    ensures F.Others(fat, a, fat, a, g, chain)
  {
    hide Cluster;
  }

  /** Writing elsewhere in the same chain again. */
  lemma OthersAgain(fat: seq<nat>, a: seq<seq<byte>>, b: seq<seq<byte>>, c: seq<seq<byte>>, g: Geometry,
      chain: seq<nat>)
    requires F.Others(fat, a, fat, b, g, chain) && F.Others(fat, b, fat, c, g, chain)
    ensures F.Others(fat, a, fat, c, g, chain)
  {
    hide Cluster;
  }

  /** eremove: the file's slots become a hole; nothing else changes. */
  method Eremove(v: F.Volume, d: F.Dirent, ep: Entry, ghost items: seq<Item>, ghost k: nat,
      ghost chain: seq<nat>) returns (ghost x: seq<byte>)
    requires Ready(v, d, chain) && EntryAt(DirBytes(v, d, chain), items, k, ep.off)
    modifies v, d`curClus, d`clusCnt, ep`valid
    ensures Ready(v, d, chain) && v.fat == old(v.fat)
    ensures old(ep.valid) != 1 ==> v.sectors == old(v.sectors) && ep.valid == old(ep.valid)
    ensures old(ep.valid) == 1 ==> |x| == |items[k].bytes| && forall i :: 0 <= i < |x| ==>
              x[i] == if i % 32 == 0 then 0xe5 else items[k].bytes[i]
    ensures old(ep.valid) == 1 ==>
              && ep.valid == -1 && F.Others(old(v.fat), old(v.sectors), v.fat, v.sectors, v.g, chain)
              && Holds(DirBytes(v, d, chain), items[k := Hole(x)])
              && (Distinct(items) ==> View(items[k := Hole(x)]) == View(items) - {items[k].rec.name})
  {
    hide Ready, DirBytes, Splice, Encodes, Holds, Legal, Erased, F.Others, View, Distinct;
    x := [];
    if ep.valid != 1 {
      return;
    }
    Plain(v, d, chain);
    ghost var b, was := DirBytes(v, d, chain), items[k].bytes;
    EntrySlots(b, items, k, ep.off);
    var here, one := ReadSlot(v, d, ep.off, 1, chain);
    assert one[0] == was[0];
    var entcnt := Number(one[0]);
    EraseNone(b, ep.off, was);
    OthersSelf(v.fat, v.sectors, v.g, chain);
    var i, off := 0, ep.off;
    while i <= entcnt
      invariant 0 <= i <= entcnt + 1 && off == ep.off + 32 * i
      invariant Ready(v, d, chain) && v.fat == old(v.fat)
          && F.Others(old(v.fat), old(v.sectors), v.fat, v.sectors, v.g, chain)
      invariant DirBytes(v, d, chain) == Splice(b, ep.off, Erased(was, i))
    {
      ghost var sec1 := v.sectors;
      EraseStep(b, ep.off, was, i);
      PutSlot(v, d, off, [EMPTY], chain);
      OthersAgain(v.fat, old(v.sectors), sec1, v.sectors, v.g, chain);
      i, off := i + 1, off + 32;
    }
    LeaveCursor(v, d, off, chain);
    x := Erased(was, i);
    ErasedHole(was, i);
    ErasedBytes(was, i);
    Replaced(b, items, k, Hole(x));
    if Distinct(items) {
      RemoveView(items, k, x);
    }
    ep.valid := -1;
  }

  /** The reloc_clus after the last slot, whose result nobody looks at. */
  method LeaveCursor(v: F.Volume, d: F.Dirent, off: nat, ghost chain: seq<nat>)
    requires Ready(v, d, chain)
    modifies v, d`curClus, d`clusCnt
    ensures Ready(v, d, chain) && v.fat == old(v.fat) && v.sectors == old(v.sectors)
    ensures DirBytes(v, d, chain) == old(DirBytes(v, d, chain))
  {
    hide Cluster, Laid, Size, FileBytes, IsChain, F.Grown;
    var _, _, _ := v.Reloc(d, off, false, chain);
  }

  // ----- looking a name up -----

  lemma BehindItems(b: seq<byte>, items: seq<Item>, k: nat)
    requires Holds(b, items) && k <= |items|
    ensures Behind(b, Pos(items, k)) == Bytes(items[k..]) + b[|Bytes(items)|..]
  {
    hide Good, F.Zeros;
    assert items == items[..k] + items[k..];
    BytesAppend(items[..k], items[k..]);
    var p := Pos(items, k);
    assert b == b[..|Bytes(items)|] + b[|Bytes(items)|..];
    assert b[..|Bytes(items)|][p..] == Bytes(items[k..]);
  }

  lemma PosFrom(items: seq<Item>, k: nat, m: nat)
    requires k + m <= |items|
    ensures Pos(items, k + m) == Pos(items, k) + Pos(items[k..], m)
  {
    assert items[..k + m] == items[..k] + items[k..][..m];
    BytesAppend(items[..k], items[k..][..m]);
  }

  /** Where the scan from item k stands next: the first file at or behind k, with only holes between. */
  function NextFile(items: seq<Item>, k: nat): (m: nat)
    requires k <= |items|
    ensures k <= m <= |items| && (forall i :: k <= i < m ==> items[i].Hole?) && (m < |items| ==> items[m].File?)
  {
    var n := Lead(items[k..]);
    assert forall i :: k <= i < k + n ==> items[i] == items[k..][i - k];
    k + n
  }

  /** enext from item k: the holes in front of the next file, if there are any, else that file, else the end. */
  lemma NextItem(b: seq<byte>, items: seq<Item>, k: nat, buf: seq<byte>)
    requires Holds(b, items) && k <= |items| && Blanked(buf)
    ensures var m, next := NextFile(items, k), Scan(Behind(b, Pos(items, k)), 0, true, 0, buf);
            && Pos(items, m) >= Pos(items, k) && (Pos(items, m) - Pos(items, k)) % 32 == 0
            && (m == |items| ==> next == End)
            && (m < |items| ==> if Pos(items, m) > Pos(items, k) then next
                == Holes((Pos(items, m) - Pos(items, k)) / 32, buf)
                                else Finds(next, items[m].rec))
  {
    hide Good, F.Zeros, Scan, Finds;
    BehindItems(b, items, k);
    ScanItems(items[k..], b[|Bytes(items)|..], 0, buf);
    PosFrom(items, k, Lead(items[k..]));
  }

  lemma BlankName(buf: seq<byte>)
    requires Blanked(buf)
    ensures CString(buf) == []
  {
  }

  /** The entry has what the directory says of the file. */
  ghost predicate FilledIn(ep: Entry, r: Rec)
    reads ep, ep.name
  {
    CString(ep.name[..]) == r.name && ep.attribute == r.attr && ep.firstClus == r.clus && ep.fileSize == r.size
  }

  /** One turn of dirlookup's loop. */
  method Turn(v: F.Volume, d: F.Dirent, ep: Entry, off: nat, ghost items: seq<Item>, ghost k: nat,
      ghost chain: seq<nat>)
      returns (kind: Kind, count: nat, ghost n: nat)
    requires Ready(v, d, chain) && ep.name.Length == FIELD && Holds(DirBytes(v, d, chain), items) && k <= |items|
        && off == Pos(items, k)
    modifies v, d`curClus, d`clusCnt, ep.name, ep`attribute, ep`firstClus, ep`fileSize, ep`curClus, ep`clusCnt
    ensures Ready(v, d, chain) && v.fat == old(v.fat) && v.sectors == old(v.sectors)
    ensures DirBytes(v, d, chain) == old(DirBytes(v, d, chain))
    ensures kind != Crash && k <= n <= |items| && (kind != AFile ==> forall i :: k <= i < n ==> items[i].Hole?)
    ensures kind == NoMore ==> n == |items|
    ensures kind == Empty ==> k < n < |items| && off + 32 * count == Pos(items, n) && CString(ep.name[..]) == []
                              && items[n].File? && Pos(items, n) > Pos(items, k)
    ensures kind == AFile ==> n > k && items[n - 1].File? && (forall i :: k <= i < n - 1 ==> items[i].Hole?)
                              && off == Pos(items, n - 1) && off + 32 * count == Pos(items, n)
                              && FilledIn(ep, items[n - 1].rec)
  {
    hide Ready, DirBytes, Holds, Scan, CString, Pos;
    ghost var b, buf := DirBytes(v, d, chain), Blank(ep.name[..]);
    Aligned(b, items, k);
    NextItem(b, items, k, buf);
    kind, count := Enext(v, d, ep, off, true, chain);
    BlankName(buf);
    n := NextFile(items, k);
    if kind == AFile {
      ItemGood(b, items, n);
      GoodSlots(items[n]);
      AfterItem(items, n);
      n := n + 1;
    }
  }

  lemma GoodSlots(it: Item)
    requires Good(it) && it.File?
    ensures |it.bytes| == 32 * Slots(it.rec)
  {
    EncodesLength(it.bytes, it.rec);
  }

  lemma AfterItem(items: seq<Item>, k: nat)
    requires k < |items|
    ensures Pos(items, k + 1) == Pos(items, k) + |items[k].bytes|
  {
    BytesSplit(items, k);
  }

  /** What dirlookup has come upon: holes from item k up to file n, a file at n - 1 behind empty holes, or the end. */
  ghost predicate Met(items: seq<Item>, k: nat, n: nat, kind: Kind) {
    && k <= n <= |items| && kind != Crash
    && match kind
       case NoMore => n == |items| && forall i :: k <= i < n ==> items[i].Hole?
       case Empty => k < n < |items| && items[n].File? && Pos(items, n) > Pos(items, k)
           && forall i :: k <= i < n ==> items[i].Hole?
       case AFile => k < n && items[n - 1].File? && Pos(items, n - 1) == Pos(items, k)
           && forall i :: k <= i < n - 1 ==> items[i].Hole?
       case Crash => false
  }

  lemma PosGrows(items: seq<Item>, i: nat, j: nat)
    requires i <= j <= |items|
    ensures Pos(items, i) <= Pos(items, j)
    ensures Pos(items, i) == Pos(items, j) ==> forall m :: i <= m < j ==> items[m].bytes == []
    decreases j - i
  {
    hide Bytes;
    if i < j {
      PosGrows(items, i + 1, j);
      AfterItem(items, i);
    }
  }

  /** The first item with bytes from k on. */
  lemma {:induction false} FirstBytes(items: seq<Item>, k: nat, n: nat) returns (j: nat)
    requires k <= n <= |items| && Pos(items, n) > Pos(items, k)
    ensures k <= j < n && items[j].bytes != [] && Pos(items, j) == Pos(items, k)
    ensures forall m :: k <= m < j ==> items[m].bytes == []
    decreases n - k
  {
    hide Bytes;
    AfterItem(items, k);
    if items[k].bytes != [] {
      j := k;
    } else {
      j := FirstBytes(items, k + 1, n);
    }
  }

  /** Nothing in front of item k is taken for the file. */
  ghost predicate Passed(items: seq<Item>, k: nat, name: seq<byte>) {
    k <= |items| && forall i :: 0 <= i < k ==> !Hits(items, i, name)
  }

  /** What was met does not have the name: the search goes on behind it. */
  lemma PassOn(items: seq<Item>, k: nat, n: nat, kind: Kind, name: seq<byte>)
    requires Passed(items, k, name) && Met(items, k, n, kind)
    requires kind == AFile ==> items[n - 1].rec.name != name
    requires kind == Empty ==> name != []
    ensures Passed(items, n, name)
  {
    hide Pos;
    if kind == AFile {
      PosGrows(items, k, n - 1);
    }
  }

  /** The hole at which an empty name is found. */
  lemma HoleHit(items: seq<Item>, k: nat, n: nat) returns (j: nat)
    requires Passed(items, k, []) && Met(items, k, n, Empty)
    ensures FirstHit(items, j, []) && items[j].Hole? && Pos(items, j) == Pos(items, k)
  {
    hide Pos;
    j := FirstBytes(items, k, n);
    assert Inner(items, j);
  }

  lemma FileHit(items: seq<Item>, k: nat, n: nat, name: seq<byte>)
    requires Passed(items, k, name) && Met(items, k, n, AFile) && items[n - 1].rec.name == name
    ensures FirstHit(items, n - 1, name)
  {
    hide Pos;
    PosGrows(items, k, n - 1);
  }

  /**
   dirlookup behind the cache. It finds the first item that it takes for the file; if there is none, poff is a place
   behind the last file. As written it never offers the holes between files.
   */
  method Dirlookup(v: F.Volume, d: F.Dirent, ep: Entry, name: seq<byte>, ghost items: seq<Item>, ghost chain: seq<nat>)
      returns (found: bool, poff: nat, ghost k: nat)
    requires Ready(v, d, chain) && ep.name.Length == FIELD
    requires Holds(DirBytes(v, d, chain), items) && Distinct(items)
    modifies v, d`curClus, d`clusCnt, ep, ep.name
    ensures Ready(v, d, chain) && v.fat == old(v.fat) && v.sectors == old(v.sectors)
    ensures if found then FirstHit(items, k, name) else NoHit(items, name)
    ensures found ==> ep.valid == 1 && ep.off == Pos(items, k) && (items[k].File? ==> FilledIn(ep, items[k].rec))
    ensures !found ==> k <= |items| && poff == Pos(items, k) && forall i :: k <= i < |items| ==> items[i].Hole?
    ensures name != [] ==> (found <==> name in View(items))
    ensures name != [] && found ==> items[k].File? && items[k].rec == View(items)[name]
  {
    hide Ready, DirBytes, Holds, CString, Pos, View, Distinct, Hits, Passed, Met, LookedUpRight, FirstHit, NoHit;
    var off, kind, count := 0, NoMore, 0;
    ghost var n;
    k := 0;
    assert Pos(items, 0) == 0 by { PosZero(items); }
    NonePassed(items, name);
    kind, count, n := Turn(v, d, ep, off, items, k, chain);
    MetIs(items, k, n, kind);
    while kind != NoMore
      invariant Ready(v, d, chain) && v.fat == old(v.fat) && v.sectors == old(v.sectors)
      invariant Holds(DirBytes(v, d, chain), items)
      invariant k <= n <= |items| && kind != Crash && Passed(items, k, name) && off == Pos(items, k)
      invariant Met(items, k, n, kind)
      invariant kind == Empty ==> n > k && off + 32 * count == Pos(items, n) && CString(ep.name[..]) == []
      invariant kind == AFile ==> n > k && items[n - 1].File? && off == Pos(items, n - 1)
                                  && off + 32 * count == Pos(items, n) && FilledIn(ep, items[n - 1].rec)
      decreases |items| - k, kind != NoMore
    {
      if CString(ep.name[..]) == name {
        if kind == AFile {
          FileHit(items, k, n, name);
          k := n - 1;
        } else {
          k := HoleHit(items, k, n);
        }
        FoundRight(items, k, name);
        ep.off, ep.valid := off, 1;
        return true, 0, k;
      }
      PassOn(items, k, n, kind, name);
      off := off + 32 * count;
      k := n;
      kind, count, n := Turn(v, d, ep, off, items, k, chain);
      MetIs(items, k, n, kind);
    }
    AllPassed(items, k, n, name);
    return false, off, k;
  }

  lemma NonePassed(items: seq<Item>, name: seq<byte>)
    ensures Passed(items, 0, name)
  {
  }

  lemma MetIs(items: seq<Item>, k: nat, n: nat, kind: Kind)
    requires k <= n <= |items| && kind != Crash && (kind != AFile ==> forall i :: k <= i < n ==> items[i].Hole?)
    requires kind == NoMore ==> n == |items|
    requires kind == Empty ==> k < n < |items| && items[n].File? && Pos(items, n) > Pos(items, k)
    requires kind == AFile ==> n > k && items[n - 1].File? && (forall i :: k <= i < n - 1 ==> items[i].Hole?)
                               && Pos(items, n - 1) == Pos(items, k)
    ensures Met(items, k, n, kind)
  {
  }

  lemma FoundRight(items: seq<Item>, k: nat, name: seq<byte>)
    requires Distinct(items) && FirstHit(items, k, name)
    ensures k < |items| && (name != [] ==> items[k].File? && name in View(items) && View(items)[name] == items[k].rec)
  {
    hide View, Distinct, Before;
    LookupRight(items, name);
  }

  lemma AllPassed(items: seq<Item>, k: nat, n: nat, name: seq<byte>)
    requires Distinct(items) && Passed(items, k, name) && Met(items, k, n, NoMore)
    ensures NoHit(items, name) && (name != [] ==> name !in View(items))
    ensures k <= |items| && forall i :: k <= i < |items| ==> items[i].Hole?
  {
    hide View, Distinct, Before;
    LookupRight(items, name);
    assert forall i :: k <= i < |items| ==> !Inner(items, i);
  }

  lemma PosZero(items: seq<Item>)
    ensures Pos(items, 0) == 0
  {
  }
}
