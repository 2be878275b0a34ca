/** Clusters on the disk. */
module Clusters {
  import opened ByteSeq
  import opened FatTable

  /** spc sectors of 512 bytes make a cluster; cnt clusters, numbered from 2, start at sector fds. */
  datatype Geometry = Geometry(spc: nat, fds: nat, cnt: nat)

  /** first_sec_of_clus. */
  function FirstSec(c: nat, g: Geometry): nat
    requires c >= 2
  {
    Times(c - 2, g.spc) + g.fds
  }

  lemma FirstSecIs(c: nat, g: Geometry)
    requires c >= 2
    ensures FirstSec(c, g) == g.fds + (c - 2) * g.spc && Size(g) == 512 * g.spc
  {
    TimesIs(c - 2, g.spc);
    TimesIs(g.spc, 512);
  }

  /** The bytes of a cluster. */
  function Size(g: Geometry): nat { Times(g.spc, 512) }

  ghost predicate Laid(sectors: seq<seq<byte>>, g: Geometry) {
    g.spc > 0 && |sectors| >= g.fds + Times(g.cnt, g.spc) && Blocks(sectors, 512)
  }

  lemma Inside(sectors: seq<seq<byte>>, g: Geometry, c: nat)
    requires Laid(sectors, g) && InRange(c, g.cnt)
    ensures FirstSec(c, g) + g.spc <= |sectors|
  {
    TimesMore(c - 1, g.cnt, g.spc);
  }

  /** The bytes of cluster c. */
  ghost function Cluster(sectors: seq<seq<byte>>, g: Geometry, c: nat): seq<byte>
    requires Laid(sectors, g) && InRange(c, g.cnt)
  {
    Inside(sectors, g, c);
    Concat(sectors[FirstSec(c, g)..FirstSec(c, g) + g.spc])
  }

  lemma ClusterSize(sectors: seq<seq<byte>>, g: Geometry, c: nat)
    requires Laid(sectors, g) && InRange(c, g.cnt)
    ensures |Cluster(sectors, g, c)| == Size(g)
  {
    Inside(sectors, g, c);
    ConcatLength(sectors[FirstSec(c, g)..FirstSec(c, g) + g.spc], 512);
  }

  /** Clusters do not share sectors. */
  lemma SectorsApart(g: Geometry, c: nat, d: nat)
    requires 2 <= c < d
    ensures FirstSec(c, g) + g.spc <= FirstSec(d, g)
  {
    TimesMore(c - 1, d - 2, g.spc);
  }

  /** Reading m bytes inside sector s of a cluster. */
  lemma SectorRead(sectors: seq<seq<byte>>, g: Geometry, c: nat, s: nat, o: nat, m: nat)
    requires Laid(sectors, g) && InRange(c, g.cnt) && s < g.spc && o + m <= 512
    ensures FirstSec(c, g) + s < |sectors| && |sectors[FirstSec(c, g) + s]| == 512
    ensures 512 * s + o + m <= |Cluster(sectors, g, c)|
    ensures Cluster(sectors, g, c)[512 * s + o..512 * s + o + m] == sectors[FirstSec(c, g) + s][o..o + m]
  {
    Inside(sectors, g, c);
    TimesIs(s, 512);
    ConcatSlice(sectors[FirstSec(c, g)..FirstSec(c, g) + g.spc], 512, s, o, m);
  }

  /** Writing inside sector s of a cluster. */
  lemma SectorWrite(sectors: seq<seq<byte>>, g: Geometry, c: nat, s: nat, o: nat, d: seq<byte>,
      sectors': seq<seq<byte>>)
    requires Laid(sectors, g) && InRange(c, g.cnt) && s < g.spc && o + |d| <= 512
    requires FirstSec(c, g) + s < |sectors| && |sectors[FirstSec(c, g) + s]| == 512
    requires sectors' == sectors[FirstSec(c, g) + s := Splice(sectors[FirstSec(c, g) + s], o, d)]
    ensures Laid(sectors', g)
    ensures 512 * s + o + |d| <= |Cluster(sectors, g, c)|
    ensures Cluster(sectors', g, c) == Splice(Cluster(sectors, g, c), 512 * s + o, d)
    ensures OthersSame(sectors, sectors', g, c)
  {
    hide Splice, Concat;
    Inside(sectors, g, c);
    TimesIs(s, 512);
    var f := FirstSec(c, g);
    ConcatSplice(sectors[f..f + g.spc], 512, s, o, d);
    assert sectors'[f..f + g.spc] == sectors[f..f + g.spc][s := Splice(sectors[f..f + g.spc][s], o, d)];
    SectorOnly(sectors, sectors', g, c, s);
  }

  ghost predicate OthersSame(sectors: seq<seq<byte>>, sectors': seq<seq<byte>>, g: Geometry, c: nat) {
    Laid(sectors, g) && Laid(sectors', g) &&
    forall d :: InRange(d, g.cnt) && d != c ==> Cluster(sectors', g, d) == Cluster(sectors, g, d)
  }

  lemma SectorOnly(sectors: seq<seq<byte>>, sectors': seq<seq<byte>>, g: Geometry, c: nat, s: nat)
    requires Laid(sectors, g) && Laid(sectors', g) && InRange(c, g.cnt) && s < g.spc
        && FirstSec(c, g) + s < |sectors| == |sectors'|
    requires sectors' == sectors[FirstSec(c, g) + s := sectors'[FirstSec(c, g) + s]]
    ensures OthersSame(sectors, sectors', g, c)
  {
    hide Concat;
    forall d: nat | InRange(d, g.cnt) && d != c
      ensures Cluster(sectors', g, d) == Cluster(sectors, g, d)
    {
      Inside(sectors, g, d);
      if c < d {
        SectorsApart(g, c, d);
      } else {
        SectorsApart(g, d, c);
      }
      var f := FirstSec(d, g);
      assert sectors'[f..f + g.spc] == sectors[f..f + g.spc];
    }
  }

  lemma OthersTwice(a: seq<seq<byte>>, b: seq<seq<byte>>, d: seq<seq<byte>>, g: Geometry, c: nat)
    requires OthersSame(a, b, g, c) && OthersSame(b, d, g, c)
    ensures OthersSame(a, d, g, c)
  {
    hide Cluster;
  }

  // ----- files -----

  /** The clusters of a chain, one after the other. */
  ghost function Parts(sectors: seq<seq<byte>>, g: Geometry, chain: seq<nat>): (r: seq<seq<byte>>)
    requires Laid(sectors, g) && forall i :: 0 <= i < |chain| ==> InRange(chain[i], g.cnt)
    ensures |r| == |chain| && forall i {:trigger r[i]} :: 0 <= i < |chain| ==> r[i] == Cluster(sectors, g, chain[i])
  {
    seq(|chain|, i requires 0 <= i < |chain| => Cluster(sectors, g, chain[i]))
  }

  ghost function FileBytes(sectors: seq<seq<byte>>, g: Geometry, chain: seq<nat>): seq<byte>
    requires Laid(sectors, g) && forall i :: 0 <= i < |chain| ==> InRange(chain[i], g.cnt)
  {
    Concat(Parts(sectors, g, chain))
  }

  lemma PartsBlocks(sectors: seq<seq<byte>>, g: Geometry, chain: seq<nat>)
    requires Laid(sectors, g) && forall i :: 0 <= i < |chain| ==> InRange(chain[i], g.cnt)
    ensures Blocks(Parts(sectors, g, chain), Size(g))
    ensures |FileBytes(sectors, g, chain)| == Times(|chain|, Size(g))
  {
    hide Cluster, Parts;
    var ps := Parts(sectors, g, chain);
    forall i | 0 <= i < |ps|
      ensures |ps[i]| == Size(g)
    {
      ClusterSize(sectors, g, chain[i]);
    }
    ConcatLength(ps, Size(g));
  }

  /** m bytes at place r of the q-th cluster are the file's bytes behind q clusters. */
  lemma FileSlice(sectors: seq<seq<byte>>, g: Geometry, chain: seq<nat>, q: nat, r: nat, m: nat)
    requires Laid(sectors, g) && (forall i :: 0 <= i < |chain| ==> InRange(chain[i], g.cnt)) && q < |chain|
        && r + m <= Size(g)
    ensures |Cluster(sectors, g, chain[q])| == Size(g)
    ensures Times(q, Size(g)) + r + m <= |FileBytes(sectors, g, chain)|
    ensures FileBytes(sectors, g, chain)[Times(q, Size(g)) + r..Times(q, Size(g)) + r + m]
            == Cluster(sectors, g, chain[q])[r..r + m]
  {
    hide Cluster, Parts;
    PartsBlocks(sectors, g, chain);
    ClusterSize(sectors, g, chain[q]);
    ConcatSlice(Parts(sectors, g, chain), Size(g), q, r, m);
  }

  lemma FileSplice(sectors: seq<seq<byte>>, sectors': seq<seq<byte>>, g: Geometry, chain: seq<nat>, q: nat, r: nat,
      d: seq<byte>)
    requires Laid(sectors, g) && Laid(sectors', g) && (forall i :: 0 <= i < |chain| ==> InRange(chain[i], g.cnt))
        && q < |chain| && r + |d| <= Size(g)
    requires forall i :: 0 <= i < |chain| && i != q ==> chain[i] != chain[q]
    requires OthersSame(sectors, sectors', g, chain[q])
    requires |Cluster(sectors, g, chain[q])| == Size(g)
    requires Cluster(sectors', g, chain[q]) == Splice(Cluster(sectors, g, chain[q]), r, d)
    ensures Times(q, Size(g)) + r + |d| <= |FileBytes(sectors, g, chain)|
    ensures FileBytes(sectors', g, chain) == Splice(FileBytes(sectors, g, chain), Times(q, Size(g)) + r, d)
  {
    hide Cluster, Parts, Splice, Laid, Size, Times, Concat;
    PartsBlocks(sectors, g, chain);
    var ps, ps' := Parts(sectors, g, chain), Parts(sectors', g, chain);
    assert ps' == ps[q := Splice(ps[q], r, d)];
    ConcatSplice(ps, Size(g), q, r, d);
  }

  lemma FileSnoc(sectors: seq<seq<byte>>, g: Geometry, chain: seq<nat>, k: nat)
    requires Laid(sectors, g) && (forall i :: 0 <= i < |chain| ==> InRange(chain[i], g.cnt)) && InRange(k, g.cnt)
    ensures FileBytes(sectors, g, chain + [k]) == FileBytes(sectors, g, chain) + Cluster(sectors, g, k)
  {
    hide Cluster, Laid;
    var ps := Parts(sectors, g, chain);
    assert Parts(sectors, g, chain + [k]) == ps + [Cluster(sectors, g, k)];
    ConcatSnoc(ps, Cluster(sectors, g, k));
  }

  lemma FileSame(sectors: seq<seq<byte>>, sectors': seq<seq<byte>>, g: Geometry, chain: seq<nat>)
    requires Laid(sectors, g) && Laid(sectors', g) && (forall i :: 0 <= i < |chain| ==> InRange(chain[i], g.cnt))
    requires forall i {:trigger chain[i]} :: 0 <= i < |chain| ==>
        Cluster(sectors', g, chain[i]) == Cluster(sectors, g, chain[i])
    ensures FileBytes(sectors', g, chain) == FileBytes(sectors, g, chain)
  {
    hide Cluster, Laid;
    assert Parts(sectors', g, chain) == Parts(sectors, g, chain);
  }
}

/** Reading and writing files through the cached cursor (kernel/fat32.c). */
module FileIO {
  import opened ByteSeq
  import opened FatTable
  import opened Clusters

  class Dirent {
    var firstClus: nat
    var curClus: nat
    var clusCnt: nat
    var fileSize: nat
    var dirty: bool
    const directory: bool
    const readOnly: bool

    /** The cursor stands on cluster number clusCnt of the chain. An empty file has no chain and no cursor. */
    ghost predicate Cursor(chain: seq<nat>)
      reads this
    {
      if chain == [] then firstClus == 0
      else firstClus == chain[0] && clusCnt < |chain| && curClus == chain[clusCnt]
    }
  }

  /** Only clusters in mine may differ. */
  ghost predicate Others(fat: seq<nat>, sectors: seq<seq<byte>>, fat': seq<nat>, sectors': seq<seq<byte>>,
      g: Geometry, mine: seq<nat>) {
    && Laid(sectors, g) && Laid(sectors', g) && |fat'| == |fat| >= g.cnt + 2 && fat'[0] == fat[0] && fat'[1] == fat[1]
    && (forall c: nat :: InRange(c, g.cnt) && c !in mine ==>
        fat'[c] == fat[c] && Cluster(sectors', g, c) == Cluster(sectors, g, c))
  }

  predicate Zeros(s: seq<byte>) { forall i :: 0 <= i < |s| ==> s[i] == 0 }

  /** The volume is full. */
  predicate NoneFree(fat: seq<nat>, cnt: nat) {
    cnt + 2 <= |fat| && forall c :: 2 <= c < cnt + 2 ==> fat[c] != 0
  }

  /** What is copied at once from position pos on: to the end of the sector or cluster, or all of the rest. */
  function Piece(pos: nat, left: nat, unit: nat): nat
    requires unit > 0
  {
    if left < unit - pos % unit then left else unit - pos % unit
  }

  /**
   How far a copy of n bytes from position off on comes when avail of them can be copied: piece by piece, up to the
   first piece that does not go as a whole.
   */
  predicate Copies(off: nat, n: nat, avail: nat, unit: nat, done: nat)
    requires unit > 0
  {
    Whole(off, n, avail, unit, done) && (done < n ==> avail < done + Piece(off + done, n - done, unit))
  }

  /** A copy that has done whole pieces only. */
  predicate Whole(off: nat, n: nat, avail: nat, unit: nat, done: nat)
    requires unit > 0
  {
    done <= n && (done == 0 || (done <= avail && (done == n || (off + done) % unit == 0)))
  }

  lemma WholeMore(off: nat, n: nat, avail: nat, unit: nat, done: nat)
    requires unit > 0 && Whole(off, n, avail, unit, done) && done < n
    ensures var m := Piece(off + done, n - done, unit);
            0 < m <= n - done
            && (if done + m <= avail then Whole(off, n, avail, unit, done + m) else Copies(off, n, avail, unit, done))
  {
    ModBelow(off + done, unit);
    PieceEnds(off + done, n - done, unit);
    var m := Piece(off + done, n - done, unit);
    assert off + (done + m) == off + done + m;
  }

  lemma WholeNone(off: nat, n: nat, avail: nat, unit: nat)
    requires unit > 0
    ensures Whole(off, n, avail, unit, 0) && (n == 0 ==> Copies(off, n, avail, unit, 0))
  {
  }

  lemma WholeAll(off: nat, n: nat, avail: nat, unit: nat)
    requires unit > 0 && Whole(off, n, avail, unit, n)
    ensures Copies(off, n, avail, unit, n)
  {
  }

  /** A place in a sector. */
  function InSector(o: nat): (r: nat)
    ensures r < 512
  {
    o % 512
  }

  /** The next piece inside a cluster: sector s, from place o on. */
  lemma SectorStep(off: nat, s: nat, o: nat, done: nat, n: nat)
    requires done < n && 512 * s + InSector(o) == off + done
    ensures var m := Piece(off + done, n - done, 512);
            && m == (if n - done < 512 - InSector(o) then n - done else 512 - InSector(o))
            && (done + m < n ==> 512 * (s + 1) + InSector(o + m) == off + (done + m))
  {
    assert (off + done) % 512 == o % 512;
  }

  /** The clusters of a chain of n, grown just so far that k bytes from off on lie in it, and at least to one. */
  function Long(n: nat, off: nat, k: nat, size: nat): nat
    requires size > 0
  {
    var need := if k == 0 then 1 else (off + k - 1) / size + 1;
    if n < need then need else n
  }

  lemma PieceEnds(o: nat, left: nat, unit: nat)
    requires unit > 0
    ensures Piece(o, left, unit) == left || (o + Piece(o, left, unit)) % unit == 0
  {
    ModBelow(o, unit);
    if Piece(o, left, unit) != left {
      var y, q := o + unit - o % unit, o / unit;
      Euclid(o, unit);
      assert y == (q + 1) * unit;
      QuotientIs(y, unit, q + 1);
      Euclid(y, unit);
    }
  }

  /** Inside one cluster the quotient does not change. */
  lemma SameCluster(x: nat, m: nat, size: nat)
    requires size > 0 && 0 < m <= size - x % size
    ensures (x + m - 1) / size == x / size
  {
    Euclid(x, size);
    QuotientIs(x + m - 1, size, x / size);
  }

  lemma QuotientIs(y: nat, size: nat, q: nat)
    requires size > 0 && q * size <= y < q * size + size
    ensures y / size == q
  {
    Euclid(y, size);
    ModBelow(y, size);
    var d := y / size;
    if d < q {
      MulMore(d + 1, q, size);
    } else if d > q {
      MulMore(q + 1, d, size);
    }
  }

  lemma {:induction false} MulMore(a: nat, b: nat, size: nat)
    requires a <= b
    ensures a * size <= b * size
  {
    if a < b {
      MulMore(a, b - 1, size);
    }
  }

  lemma QuotientMore(x: nat, y: nat, size: nat)
    requires size > 0 && x <= y
    ensures x / size <= y / size
  {
    Euclid(x, size);
    Euclid(y, size);
    ModBelow(x, size);
    ModBelow(y, size);
    if x / size > y / size {
      MulMore(y / size + 1, x / size, size);
    }
  }

  lemma LongFirst(n: nat, off: nat, len: nat, size: nat)
    requires size > 0 && len == (if n == 0 then 1 else n)
    ensures len == Long(n, off, 0, size)
  {
  }

  lemma LongNext(n: nat, off: nat, t: nat, size: nat)
    requires size > 0
    ensures var l := Long(n, off, t, size);
            Long(n, off, t + 1, size) == if l > (off + t) / size then l else (off + t) / size + 1
  {
    if t > 0 {
      QuotientMore(off + t - 1, off + t, size);
    }
  }

  lemma LongPiece(n: nat, off: nat, t: nat, m: nat, size: nat)
    requires size > 0 && 0 < m <= size - (off + t) % size
    ensures Long(n, off, t + m, size) == Long(n, off, t + 1, size)
  {
    SameCluster(off + t, m, size);
  }

  /** A chain that does not reach the cluster of o ends in front of it. */
  lemma TooShort(n: nat, o: nat, size: nat)
    requires size > 0 && n <= o / size
    ensures Times(n, size) <= o
  {
    Places(o, size);
    TimesMore(n, o / size, size);
  }

  /** A copy that may go on to its end does. */
  lemma CopiesAll(off: nat, n: nat, avail: nat, unit: nat, done: nat)
    requires unit > 0 && Copies(off, n, avail, unit, done) && n > 0
    ensures done == n <==> avail >= n
  {
  }

  lemma CopiesBound(off: nat, n: nat, avail: nat, unit: nat, done: nat)
    requires unit > 0 && Copies(off, n, avail, unit, done)
    ensures done <= n
  {
  }

  lemma GrownStays(fat: seq<nat>, sectors: seq<seq<byte>>, chain: seq<nat>, fat1: seq<nat>, sec1: seq<seq<byte>>,
      ch: seq<nat>, fat2: seq<nat>, sec2: seq<seq<byte>>, g: Geometry)
    requires Grown(fat, sectors, chain, fat1, sec1, ch, g) && NothingDone(fat1, sec1, fat2, sec2, g)
    ensures Grown(fat, sectors, chain, fat2, sec2, ch, g)
  {
    hide Cluster, Size, Laid, FileBytes;
  }

  lemma FullStays(fat: seq<nat>, sectors: seq<seq<byte>>, fat': seq<nat>, sectors': seq<seq<byte>>, g: Geometry,
      ch: seq<nat>)
    requires NoneFree(fat, g.cnt) && NothingDone(fat, sectors, fat', sectors', g)
    ensures NoneFree(fat', g.cnt) && (ch != [] && IsChain(fat, g.cnt, ch) ==> IsChain(fat', g.cnt, ch))
  {
    if ch != [] && IsChain(fat, g.cnt, ch) {
      ChainIn(fat, g.cnt, ch);
      ChainKept(fat, fat', g.cnt, ch);
    }
  }

  /** Entries and sectors of clusters are as they were. */
  predicate NothingDone(fat: seq<nat>, sectors: seq<seq<byte>>, fat': seq<nat>, sectors': seq<seq<byte>>, g: Geometry) {
    && sectors' == sectors && |fat'| == |fat| >= g.cnt + 2
    && forall c :: 0 <= c < g.cnt + 2 ==> fat'[c] == fat[c]
  }

  class Volume {
    const g: Geometry
    const fatSz: nat
    var fat: seq<nat>
    var sectors: seq<seq<byte>>

    ghost predicate Valid()
      reads this
    {
      Laid(sectors, g) && |fat| == 128 * fatSz && g.cnt + 2 <= |fat| && g.cnt + 2 <= FAT32_BAD && fat[0] != 0
          && fat[1] != 0
    }

    /** fat32_init: the geometry, the table and the sectors that are on the disk. */
    constructor (g: Geometry, fatSz: nat, fat: seq<nat>, sectors: seq<seq<byte>>)
      requires Laid(sectors, g) && |fat| == 128 * fatSz && g.cnt + 2 <= |fat| && g.cnt + 2 <= FAT32_BAD
          && fat[0] != 0 && fat[1] != 0
      ensures Valid() && this.g == g && this.fatSz == fatSz && this.fat == fat && this.sectors == sectors
    {
      this.g, this.fatSz, this.fat, this.sectors := g, fatSz, fat, sectors;
    }

    /** rw_clus, reading: data is what reached the destination, of which avail bytes can be written. */
    method ReadClus(c: nat, off: nat, n: nat, avail: nat) returns (data: seq<byte>)
      requires Valid() && InRange(c, g.cnt) && off + n <= Size(g)
      ensures |data| <= n && |Cluster(sectors, g, c)| == Size(g) && data == Cluster(sectors, g, c)[off..off + |data|]
      ensures Copies(off, n, avail, 512, |data|)
    {
      hide Cluster, Size, Laid, FirstSec, Copies, Whole, Piece, InSector;
      ClusterSize(sectors, g, c);
      var tot := 0;
      var sec := FirstSec(c, g) + off / 512;
      ghost var s := off / 512;
      var o: nat := InSector(off);
      FirstSector(off);
      WholeNone(off, n, avail, 512);
      data := [];
      while tot < n
        invariant tot == |data| <= n && data == Cluster(sectors, g, c)[off..off + tot]
        invariant Whole(off, n, avail, 512, tot)
        invariant sec == FirstSec(c, g) + s && (tot < n ==> 512 * s + InSector(o) == off + tot)
      {
        var m := 512 - InSector(o);
        if n - tot < m {
          m := n - tot;
        }
        SectorStep(off, s, o, tot, n);
        WholeMore(off, n, avail, 512, tot);
        SectorIn(g, s, off + n, off + tot);
        SectorRead(sectors, g, c, s, InSector(o), m);
        if tot + m > avail {
          return;
        }
        SliceJoin(Cluster(sectors, g, c), off, tot, m);
        data := data + sectors[sec][InSector(o)..InSector(o) + m];
        tot, o, sec := tot + m, o + m, sec + 1;
        s := s + 1;
      }
      WholeAll(off, n, avail, 512);
    }

    /**
     rw_clus, writing; avail bytes of the source can be read. sectors is what a reader finds through the buffer
     cache: a failing copy may have changed part of a sector's buffer, which is not written to the disk, so that
     part is gone again once the buffer is recycled.
     */
    method WriteClus(c: nat, off: nat, src: seq<byte>, avail: nat) returns (tot: nat, ghost w: nat)
      requires Valid() && InRange(c, g.cnt) && off + |src| <= Size(g)
      modifies this`sectors
      ensures Valid() && tot <= w <= |src| && Copies(off, |src|, avail, 512, tot)
      ensures tot == |src| || w <= tot + Piece(off + tot, |src| - tot, 512)
      ensures |Cluster(old(sectors), g, c)| == Size(g)
          && Cluster(sectors, g, c) == Splice(Cluster(old(sectors), g, c), off, src[..w])
      ensures OthersSame(old(sectors), sectors, g, c)
    {
      hide Cluster, Size, Laid, OthersSame, Splice, FirstSec, Copies, Whole, Piece, InSector;
      ClusterSize(sectors, g, c);
      ghost var before := Cluster(sectors, g, c);
      SameAsBefore(sectors, g, c);
      tot := 0;
      w := 0;
      var sec := FirstSec(c, g) + off / 512;
      ghost var s := off / 512;
      var o: nat := InSector(off);
      FirstSector(off);
      WholeNone(off, |src|, avail, 512);
      SpliceNothing(before, off);
      assert src[..0] == [];
      while tot < |src|
        invariant Valid() && tot == w <= |src| && Cluster(sectors, g, c) == Splice(before, off, src[..w])
            && |before| == Size(g)
        invariant OthersSame(old(sectors), sectors, g, c)
        invariant Whole(off, |src|, avail, 512, tot)
        invariant sec == FirstSec(c, g) + s && (tot < |src| ==> 512 * s + InSector(o) == off + tot)
      {
        var m := 512 - InSector(o);
        if |src| - tot < m {
          m := |src| - tot;
        }
        SectorStep(off, s, o, tot, |src|);
        WholeMore(off, |src|, avail, 512, tot);
        var copied: nat := m;
        if tot + m > avail {
          copied :| 0 <= copied <= m;
        }
        PutSector(c, off, s, sec, InSector(o), src, tot, copied, m, before, old(sectors));
        w := tot + copied;
        if tot + m > avail {
          return;
        }
        tot, o, sec := tot + m, o + m, sec + 1;
        s := s + 1;
      }
      WholeAll(off, |src|, avail, 512);
    }

    /** The copy of one turn: copied bytes of the source go to place o of sector s of the cluster. */
    method PutSector(c: nat, ghost off: nat, ghost s: nat, sec: nat, o: nat, src: seq<byte>, tot: nat, copied: nat,
        ghost m: nat, ghost before: seq<byte>, ghost sec0: seq<seq<byte>>)
      requires Valid() && InRange(c, g.cnt) && off + |src| <= Size(g) == |before| && tot < |src|
      requires Cluster(sectors, g, c) == Splice(before, off, src[..tot]) && OthersSame(sec0, sectors, g, c)
      requires 512 * s + o == off + tot && o + m <= 512 && copied <= m && tot + m <= |src| && sec == FirstSec(c, g) + s
      modifies this`sectors
      ensures Valid() && OthersSame(sec0, sectors, g, c)
      ensures Cluster(sectors, g, c) == Splice(before, off, src[..tot + copied])
    {
      hide Cluster, Size, Laid, OthersSame, Splice, FirstSec;
      SectorIn(g, s, off + |src|, off + tot);
      SectorRead(sectors, g, c, s, o, m);
      ghost var was := sectors;
      ghost var d := src[tot..tot + copied];
      sectors := sectors[sec := Splice(sectors[sec], o, src[tot..tot + copied])];
      SectorWrite(was, g, c, s, o, d, sectors);
      OthersTwice(sec0, was, sectors, g, c);
      SpliceTwice(before, off, src[..tot], d);
      assert src[..tot] + d == src[..tot + copied];
    }

    /** zero_clus. */
    method ZeroClus(c: nat)
      requires Valid() && InRange(c, g.cnt)
      modifies this`sectors
      ensures Valid() && OthersSame(old(sectors), sectors, g, c) && Zeros(Cluster(sectors, g, c))
    {
      hide Cluster, Size, Laid, OthersSame, Splice, Zeros;
      SameAsBefore(sectors, g, c);
      Inside(sectors, g, c);
      var i := 0;
      var sec := FirstSec(c, g);
      while i < g.spc
        invariant Valid() && i <= g.spc && sec == FirstSec(c, g) + i && OthersSame(old(sectors), sectors, g, c)
        invariant sec <= |sectors| && forall j :: sec - i <= j < sec ==> Zeros(sectors[j])
      {
        SectorRead(sectors, g, c, i, 0, 0);
        ghost var was := sectors;
        var z: seq<byte> := seq(512, k => 0);
        sectors := sectors[sec := z];
        WholeSector(was[sec], z);
        SectorWrite(was, g, c, i, 0, z, sectors);
        OthersTwice(old(sectors), was, sectors, g, c);
        assert Zeros(z) by { ZeroSeq(z); }
        i, sec := i + 1, sec + 1;
      }
      ZeroSectors(sectors, g, c);
    }

    /**
     alloc_clus as meant: the cluster whose entry is marked is the one returned. None is a panic: the table
     has no free entry, or the first one belongs to no cluster.
     */
    method AllocClus() returns (k: nat, ok: bool)
      requires Valid()
      modifies this
      ensures Valid()
      ensures ok ==> InRange(k, g.cnt) && old(fat)[k] == 0 && fat == old(fat)[k := 0x0fff_ffff]
                     && OthersSame(old(sectors), sectors, g, k) && Zeros(Cluster(sectors, g, k))
      ensures ok ==> forall c :: 0 <= c < k ==> old(fat)[c] != 0
      ensures !ok ==> NoneFree(old(fat), g.cnt) && NothingDone(old(fat), old(sectors), fat, sectors, g)
    {
      hide Cluster, Size, Laid, OthersSame, Zeros;
      var i := 0;
      while i < fatSz
        invariant 0 <= i <= fatSz && fat == old(fat) && sectors == old(sectors)
        invariant forall c :: 0 <= c < 128 * i ==> fat[c] != 0
      {
        var j := 0;
        while j < 128
          invariant 0 <= j <= 128 && fat == old(fat) && sectors == old(sectors)
          invariant forall c :: 0 <= c < 128 * i + j ==> fat[c] != 0
        {
          if fat[i * 128 + j] == 0 {
            k := i * 128 + j;
            fat := fat[k := FAT32_EOF];
            if k > g.cnt + 1 {
              return k, false;
            }
            ZeroClus(k);
            return k, true;
          }
          j := j + 1;
        }
        i := i + 1;
      }
      return 0, false;
    }

    /** One turn of reloc_clus's first loop at the end of the chain: a new cluster is linked behind it. */
    method Append(e: Dirent, ghost chain: seq<nat>) returns (k: nat, ok: bool)
      requires Valid() && chain != [] && IsChain(fat, g.cnt, chain) && e.curClus == chain[|chain| - 1]
      modifies this
      ensures Valid()
      ensures ok ==> InRange(k, g.cnt) && k !in chain && old(fat)[k] == 0 && IsChain(fat, g.cnt, chain + [k])
                     && OthersSame(old(sectors), sectors, g, k) && Zeros(Cluster(sectors, g, k))
      ensures ok ==> Others(old(fat), old(sectors), fat, sectors, g, chain + [k])
      ensures !ok ==> NoneFree(old(fat), g.cnt) && NothingDone(old(fat), old(sectors), fat, sectors, g)
    {
      hide Cluster, Size, Laid, OthersSame, Zeros, Others;
      ghost var fat0, sec0 := fat, sectors;
      k, ok := AllocClus();
      if ok {
        FreeApart(fat0, g.cnt, chain, k);
        ExtendChain(fat0, g.cnt, chain, k);
        fat := fat[e.curClus := k];
        assert fat == Extended(fat0, chain, k);
        ExtendOthers(fat0, sec0, fat, sectors, g, chain, k);
      }
    }

    /**
     reloc_clus: the cursor goes to the cluster of byte off. Past the end of the chain it goes back to the
     first cluster and the result is -1, or, with alloc, the chain grows. ok is false on a panic.
     */
    method Reloc(e: Dirent, off: nat, alloc: bool, ghost chain: seq<nat>) returns (r: int, ok: bool, ghost ch: seq<nat>)
      requires Valid() && chain != [] && IsChain(fat, g.cnt, chain) && e.Cursor(chain)
      modifies this, e`curClus, e`clusCnt
      ensures Valid() && Size(g) > 0
      ensures !alloc || off / Size(g) < |chain| ==> ok && ch == chain && fat == old(fat) && sectors == old(sectors)
      ensures ok ==> ch != [] && IsChain(fat, g.cnt, ch) && e.Cursor(ch)
                     && Grown(old(fat), old(sectors), chain, fat, sectors, ch, g)
      ensures !ok ==> alloc && NoneFree(fat, g.cnt) && |ch| <= off / Size(g) && ch != [] && IsChain(fat, g.cnt, ch)
                      && e.Cursor(ch) && Grown(old(fat), old(sectors), chain, fat, sectors, ch, g)
      ensures ok && !alloc && off / Size(g) >= |chain| ==> r == -1 && e.clusCnt == 0
      ensures ok && (alloc || off / Size(g) < |chain|) ==> r == off % Size(g) && e.clusCnt == off / Size(g)
      ensures ok && alloc ==> |ch| == if |chain| > off / Size(g) then |chain| else off / Size(g) + 1
    {
      hide Cluster, Laid, OthersSame, Zeros, Others, Grown, IsChain, Size;
      SizePositive(g, sectors);
      ch := chain;
      ok := true;
      GrownSame(fat, sectors, chain, g);
      var clusNum := off / Size(g);
      while clusNum > e.clusCnt
        invariant Valid() && ch != [] && IsChain(fat, g.cnt, ch) && e.Cursor(ch)
            && Grown(old(fat), old(sectors), chain, fat, sectors, ch, g)
        invariant !alloc || clusNum < |chain| ==> ch == chain && fat == old(fat) && sectors == old(sectors)
        invariant |ch| == |chain| || (|ch| > |chain| && |ch| <= clusNum + 1 && |ch| == e.clusCnt + 1)
        decreases clusNum - e.clusCnt
      {
        ChainStep(fat, g.cnt, ch, e.clusCnt);
        var clus := ReadFat(fat, g.cnt, e.curClus);
        if clus >= FAT32_EOC {
          if alloc {
            ghost var fat0, sec0 := fat, sectors;
            clus, ok := Append(e, ch);
            if !ok {
              GrownStays(old(fat), old(sectors), chain, fat0, sec0, ch, fat, sectors, g);
              FullStays(fat0, sec0, fat, sectors, g, ch);
              return 0, false, ch;
            }
            GrownSnoc(old(fat), old(sectors), chain, fat0, sec0, ch, fat, sectors, clus, g);
            ch := ch + [clus];
          } else {
            e.curClus := e.firstClus;
            e.clusCnt := 0;
            return -1, true, ch;
          }
        }
        e.curClus := clus;
        e.clusCnt := e.clusCnt + 1;
      }
      if clusNum < e.clusCnt {
        e.curClus := e.firstClus;
        e.clusCnt := 0;
        while e.clusCnt < clusNum
          invariant Valid() && e.Cursor(ch) && e.clusCnt <= clusNum < |ch|
          invariant fat == old(fat) && sectors == old(sectors) && ch == chain
        {
          ChainStep(fat, g.cnt, ch, e.clusCnt);
          e.curClus := ReadFat(fat, g.cnt, e.curClus);
          e.clusCnt := e.clusCnt + 1;
        }
      }
      r := off % Size(g);
    }

    /** The chain is the file's, and long enough for it. */
    ghost predicate Backs(e: Dirent, chain: seq<nat>)
      reads this, e
    {
      && e.Cursor(chain) && (chain != [] ==> IsChain(fat, g.cnt, chain)) && e.fileSize <= Times(|chain|, Size(g))
    }

    /** One turn of eread's loop: relocate, and read what the cluster has of the rest. */
    method ReadPiece(e: Dirent, o: nat, left: nat, avail: nat, ghost chain: seq<nat>) returns (piece: seq<byte>, m: nat)
      requires Valid() && Backs(e, chain) && 0 < left && o + left <= Times(|chain|, Size(g))
      modifies this, e`curClus, e`clusCnt
      ensures Valid() && fat == old(fat) && sectors == old(sectors) && Backs(e, chain) && chain != []
      ensures forall i :: 0 <= i < |chain| ==> InRange(chain[i], g.cnt)
      ensures 0 < m <= left && |piece| <= m && Size(g) > 0 && m == Piece(o, left, Size(g))
      ensures |piece| == m <==> avail >= m
      ensures o + |piece| <= |FileBytes(sectors, g, chain)| && piece == FileBytes(sectors, g, chain)[o..o + |piece|]
    {
      hide Cluster, Laid, Size, FileBytes, IsChain, Grown;
      ChainIn(fat, g.cnt, chain);
      NotEmpty(o, left, |chain|, Size(g));
      SizePositive(g, sectors);
      PlacesBelow(o, Size(g), |chain|);
      var r, ok;
      ghost var ch;
      r, ok, ch := Reloc(e, o, false, chain);
      ModBelow(o, Size(g));
      m := Size(g) - o % Size(g);
      if left < m {
        m := left;
      }
      piece := ReadClus(e.curClus, o % Size(g), m, avail);
      CopiesAll(o % Size(g), m, avail, 512, |piece|);
      FileSlice(sectors, g, chain, o / Size(g), o % Size(g), |piece|);
      Places(o, Size(g));
    }

    /** eread's loop. */
    method ReadAll(e: Dirent, off: nat, want: nat, avail: nat, ghost chain: seq<nat>) returns (data: seq<byte>)
      requires Valid() && Backs(e, chain) && off + want <= Times(|chain|, Size(g)) && (want > 0 ==> e.fileSize > 0)
      requires forall i :: 0 <= i < |chain| ==> InRange(chain[i], g.cnt)
      modifies this, e`curClus, e`clusCnt
      ensures Valid() && fat == old(fat) && sectors == old(sectors) && Backs(e, chain)
      ensures Size(g) > 0 && Copies(off, want, avail, Size(g), |data|)
      ensures off + |data| <= |FileBytes(sectors, g, chain)| && data == FileBytes(sectors, g, chain)[off..off + |data|]
    {
      hide Cluster, Laid, Size, FileBytes, IsChain, Grown, Whole, Copies, Piece, Times, InRange;
      SizePositive(g, sectors);
      PartsBlocks(sectors, g, chain);
      data := [];
      WholeNone(off, want, avail, Size(g));
      var tot, o := 0, off;
      while e.curClus < FAT32_EOC && tot < want
        invariant tot == |data| <= want && o == off + tot
        invariant Valid() && fat == old(fat) && sectors == old(sectors) && Backs(e, chain)
        invariant data == FileBytes(sectors, g, chain)[off..off + tot]
        invariant Whole(off, want, avail, Size(g), tot)
        decreases want - tot
      {
        WholeMore(off, want, avail, Size(g), tot);
        var piece, m := ReadPiece(e, o, want - tot, if avail > tot then avail - tot else 0, chain);
        if |piece| != m {
          return;
        }
        SliceJoin(FileBytes(sectors, g, chain), off, tot, m);
        data := data + piece;
        tot, o := tot + m, o + m;
      }
      if e.curClus >= FAT32_EOC {
        CursorIn(e, chain);
      }
      WholeAll(off, want, avail, Size(g));
    }

    /** eread: bytes off to off + n of the file, as far as it goes, whatever the cursor did before. */
    method Eread(e: Dirent, off: nat, n: nat, avail: nat, ghost chain: seq<nat>) returns (data: seq<byte>)
      requires Valid() && Backs(e, chain) && off < 0x1_0000_0000 && n < 0x1_0000_0000
      modifies this, e`curClus, e`clusCnt
      ensures Valid() && fat == old(fat) && sectors == old(sectors) && Backs(e, chain)
      ensures forall i :: 0 <= i < |chain| ==> InRange(chain[i], g.cnt)
      ensures off > e.fileSize || off + n >= 0x1_0000_0000 || e.directory ==> data == []
      ensures off <= e.fileSize && off + n < 0x1_0000_0000 && !e.directory ==>
                var m := if off + n > e.fileSize then e.fileSize - off else n;
                && off + |data| <= |FileBytes(sectors, g, chain)|
                && data == FileBytes(sectors, g, chain)[off..off + |data|]
                && |data| <= m && Size(g) > 0 && Copies(off, m, avail, Size(g), |data|)
    {
      hide Cluster, Laid, Size, FileBytes, IsChain, Grown, Whole, Piece, Times;
      ChainIn(fat, g.cnt, chain);
      data := [];
      if off > e.fileSize || off + n >= 0x1_0000_0000 || e.directory {
        return;
      }
      var want := n;
      if off + n > e.fileSize {
        want := e.fileSize - off;
      }
      data := ReadAll(e, off, want, avail, chain);
      CopiesBound(off, want, avail, Size(g), |data|);
    }

    lemma CursorIn(e: Dirent, chain: seq<nat>)
      requires Valid() && Backs(e, chain) && e.curClus >= FAT32_EOC
      ensures chain == [] && e.fileSize == 0
    {
      if chain != [] {
        ChainStep(fat, g.cnt, chain, e.clusCnt);
      }
    }

    /** ewrite's first cluster for an empty file. */
    method First(e: Dirent, ghost chain: seq<nat>) returns (ok: bool, ghost ch: seq<nat>)
      requires Valid() && chain == [] && e.firstClus == 0
      modifies this, e`firstClus, e`curClus, e`clusCnt, e`dirty
      ensures Valid()
      ensures ok ==> |ch| == 1 && IsChain(fat, g.cnt, ch) && e.Cursor(ch) && e.dirty && e.firstClus != 0
                     && Grown(old(fat), old(sectors), chain, fat, sectors, ch, g)
      ensures !ok ==> NoneFree(old(fat), g.cnt) && NothingDone(old(fat), old(sectors), fat, sectors, g) && ch == []
                      && e.firstClus == 0 && e.dirty == old(e.dirty)
    {
      hide Cluster, Laid, Size, FileBytes, Grown, OthersSame, Zeros, Others;
      ghost var fat0, sec0 := fat, sectors;
      GrownSame(fat, sectors, chain, g);
      var k;
      k, ok := AllocClus();
      ch := [];
      if !ok {
        return;
      }
      ch := chain + [k];
      e.curClus := k;
      e.firstClus := k;
      e.clusCnt := 0;
      e.dirty := true;
      ExtendChain(fat0, g.cnt, chain, k);
      ExtendOthers(fat0, sec0, fat, sectors, g, chain, k);
      GrownSnoc(fat0, sec0, chain, fat0, sec0, chain, fat, sectors, k, g);
    }

    /** One turn of ewrite's loop: relocate, growing the chain, and write what fits in the cluster. */
    method WritePiece(e: Dirent, o: nat, src: seq<byte>, avail: nat, ghost chain: seq<nat>)
        returns (tot: nat, m: nat, ok: bool, ghost w: nat, ghost ch: seq<nat>)
      requires Valid() && Backs(e, chain) && chain != [] && src != [] && o <= Times(|chain|, Size(g))
      modifies this, e`curClus, e`clusCnt
      ensures Valid() && ch != [] && Backs(e, ch) && Size(g) > 0 && w <= |src|
      ensures Written(old(fat), old(sectors), chain, fat, sectors, ch, g, o, src[..w])
      ensures ok ==> 0 < m == Piece(o, |src|, Size(g)) && tot <= w <= m && (tot == m <==> avail >= m)
      ensures ok ==> |ch| == if |chain| > o / Size(g) then |chain| else o / Size(g) + 1
      ensures !ok ==> w == 0 && NoneFree(fat, g.cnt) && |ch| <= o / Size(g)
    {
      hide Cluster, Laid, Size, FileBytes, IsChain, Grown, OthersSame, Splice, Written;
      SizePositive(g, sectors);
      var r;
      r, ok, ch := Reloc(e, o, true, chain);
      LongerBacks(old(fat), old(sectors), chain, fat, sectors, ch, g, e.fileSize);
      if !ok {
        GrownWritten(old(fat), old(sectors), chain, fat, sectors, ch, g, o);
        assert src[..0] == [];
        return 0, 0, false, 0, ch;
      }
      ModBelow(o, Size(g));
      m := Size(g) - o % Size(g);
      if |src| < m {
        m := |src|;
      }
      ghost var fat1, sec1 := fat, sectors;
      ChainIn(fat, g.cnt, ch);
      tot, w := WriteClus(e.curClus, o % Size(g), src[..m], avail);
      CopiesAll(o % Size(g), m, avail, 512, tot);
      assert src[..m][..w] == src[..w];
      ChainApartFrom(fat, g.cnt, ch, o / Size(g));
      FileSplice(sec1, sectors, g, ch, o / Size(g), o % Size(g), src[..w]);
      Places(o, Size(g));
      PutWritten(old(fat), old(sectors), chain, fat, sec1, ch, sectors, g, o, src[..w], o / Size(g));
    }

    /** The same, with what was written before: bytes tot and on go behind the first tot ones. */
    method WriteTurn(e: Dirent, off: nat, src: seq<byte>, tot: nat, avail: nat, ghost chain: seq<nat>,
        ghost fat0: seq<nat>, ghost sec0: seq<seq<byte>>, ghost ch0: seq<nat>)
        returns (n: nat, m: nat, ok: bool, ghost w: nat, ghost ch: seq<nat>)
      requires Valid() && Backs(e, ch0) && ch0 != [] && tot < |src| && Size(g) > 0
      requires Written(fat0, sec0, chain, fat, sectors, ch0, g, off, src[..tot])
      requires |ch0| == Long(|chain|, off, tot, Size(g))
      modifies this, e`curClus, e`clusCnt
      ensures Valid() && ch != [] && Backs(e, ch) && tot <= w <= |src|
      ensures Written(fat0, sec0, chain, fat, sectors, ch, g, off, src[..w])
      ensures ok ==> 0 < m == Piece(off + tot, |src| - tot, Size(g)) && w <= tot + m && (n == m <==> avail >= tot + m)
      ensures ok ==> |ch| == Long(|chain|, off, tot + 1, Size(g))
      ensures ok && n == m ==> w == tot + m && |ch| == Long(|chain|, off, tot + m, Size(g))
      ensures !ok ==> w == tot && NoneFree(fat, g.cnt) && Times(|ch|, Size(g)) <= off + tot
    {
      hide Cluster, Laid, Size, FileBytes, IsChain, Splice, Written, Times, Long, Copies;
      ghost var fat1, sec1, o := fat, sectors, off + tot;
      WrittenFits(fat0, sec0, chain, fat, sectors, ch0, g, off, src[..tot]);
      ghost var v;
      n, m, ok, v, ch := WritePiece(e, off + tot, src[tot..], if avail > tot then avail - tot else 0, ch0);
      assert src[tot..][..v] == src[tot..tot + v];
      WrittenTwice(fat0, sec0, chain, fat1, sec1, ch0, fat, sectors, ch, g, off, src[..tot], src[tot..tot + v]);
      assert src[..tot] + src[tot..tot + v] == src[..tot + v];
      w := tot + v;
      if !ok {
        TooShort(|ch|, o, Size(g));
        return;
      }
      LongNext(|chain|, off, tot, Size(g));
      LongPiece(|chain|, off, tot, m, Size(g));
    }

    /**
     ewrite: the bytes go to off and behind, the file and its chain grow just as needed, and nothing else changes. It
     panics only if the volume is full and the chain too short.
     */
    method Ewrite(e: Dirent, off: nat, src: seq<byte>, avail: nat, ghost chain: seq<nat>) returns (r: int, ok: bool,
        ghost w: nat, ghost ch: seq<nat>)
      requires Valid() && Backs(e, chain) && off < 0x1_0000_0000 && |src| < 0x1_0000_0000
      modifies this, e
      ensures Valid() && Size(g) > 0
      ensures off > old(e.fileSize) || off + |src| >= 0x1_0000_0000 || e.readOnly ==>
                ok && r == -1 && fat == old(fat) && sectors == old(sectors) && Backs(e, chain)
                    && e.fileSize == old(e.fileSize)
      ensures ok && off <= old(e.fileSize) && off + |src| < 0x1_0000_0000 && !e.readOnly ==>
                && Backs(e, ch) && ch != [] && 0 <= r <= w <= |src| && Copies(off, |src|, avail, Size(g), r)
                && (r < |src| ==> w <= r + Piece(off + r, |src| - r, Size(g)))
                && |ch| == Long(|chain|, off, if r < |src| then r + 1 else r, Size(g))
                && Written(old(fat), old(sectors), chain, fat, sectors, ch, g, off, src[..w])
                && e.fileSize == if off + r > old(e.fileSize) then off + r else old(e.fileSize)
      ensures e.dirty <==> old(e.dirty) || e.firstClus != old(e.firstClus) || e.fileSize != old(e.fileSize)
      ensures !ok ==> NoneFree(fat, g.cnt) && Backs(e, ch) && (ch == [] || Times(|ch|, Size(g)) < off + |src|)
                      && e.fileSize == old(e.fileSize)
      ensures !ok && ch != [] ==>
                w <= |src| && Written(old(fat), old(sectors), chain, fat, sectors, ch, g, off, src[..w])
    {
      hide Cluster, Laid, Size, FileBytes, IsChain, Grown, OthersSame, Splice, Written, Others, Zeros, Whole, Copies,
          Piece, Long;
      SizePositive(g, sectors);
      ch := chain;
      w := 0;
      ok := true;
      if off > e.fileSize || off + |src| >= 0x1_0000_0000 || e.readOnly {
        return -1, true, 0, ch;
      }
      r := 0;
      ChainIn(fat, g.cnt, chain);
      GrownSame(fat, sectors, chain, g);
      if e.firstClus == 0 {
        ok, ch := First(e, chain);
        if !ok {
          FullStays(old(fat), old(sectors), fat, sectors, g, []);
          return;
        }
      }
      LongerBacks(old(fat), old(sectors), chain, fat, sectors, ch, g, e.fileSize);
      GrownWritten(old(fat), old(sectors), chain, fat, sectors, ch, g, off);
      assert src[..0] == [];
      WholeNone(off, |src|, avail, Size(g));
      LongFirst(|chain|, off, |ch|, Size(g));
      var tot, o := 0, off;
      while tot < |src|
        invariant 0 <= tot == w <= |src| && o == off + tot
        invariant Valid() && Backs(e, ch) && ch != [] && ok
        invariant Whole(off, |src|, avail, Size(g), tot)
        invariant |ch| == Long(|chain|, off, tot, Size(g))
        invariant Written(old(fat), old(sectors), chain, fat, sectors, ch, g, off, src[..w])
        invariant e.fileSize == old(e.fileSize)
        invariant e.dirty <==> old(e.dirty) || e.firstClus != old(e.firstClus)
        decreases |src| - tot
      {
        WholeMore(off, |src|, avail, Size(g), tot);
        var n, m;
        n, m, ok, w, ch := WriteTurn(e, off, src, tot, avail, chain, old(fat), old(sectors), ch);
        if !ok {
          return;
        }
        if n != m {
          break;
        }
        tot, o := tot + m, o + m;
      }
      if tot == |src| {
        WholeAll(off, |src|, avail, Size(g));
      }
      if |src| > 0 && o > e.fileSize {
        WrittenFits(old(fat), old(sectors), chain, fat, sectors, ch, g, off, src[..w]);
        e.fileSize := o;
        e.dirty := true;
      }
      r := tot;
    }

    /**
     etrunc. It ends on any table, even one whose links run in circles; ok is false on a panic. On a chain it
     frees exactly that chain.
     */
    method Etrunc(e: Dirent, ghost chain: seq<nat>) returns (ok: bool)
      requires Valid()
      modifies this`fat, e`firstClus, e`fileSize, e`dirty
      ensures Valid() && |fat| == |old(fat)| && forall j :: 0 <= j < |fat| ==> fat[j] == old(fat)[j] || fat[j] == 0
      ensures ok ==> e.fileSize == 0 && e.firstClus == 0 && e.dirty
      ensures !ok ==> e.fileSize == old(e.fileSize) && e.firstClus == old(e.firstClus) && e.dirty == old(e.dirty)
      ensures !ok ==> LeadsOut(old(e.firstClus), g.cnt) || exists j :: 0 <= j < |fat| && LeadsOut(old(fat)[j], g.cnt)
      ensures chain != [] && IsChain(old(fat), g.cnt, chain) && chain[0] == old(e.firstClus) ==>
                ok && (forall i :: 0 <= i < |chain| ==> chain[i] < |old(fat)|) && fat == Cleared(old(fat), chain)
      ensures chain == [] && old(e.firstClus) == 0 ==> ok && fat == old(fat)
    {
      hide Cluster, Laid, Size, IsChain, Cleared;
      var clus := e.firstClus;
      ghost var i := 0;
      ghost var onChain := chain != [] && IsChain(fat, g.cnt, chain) && chain[0] == clus;
      if onChain {
        ClearedNone(fat, g.cnt, chain);
      }
      while clus >= 2 && clus < FAT32_EOC
        invariant |fat| == |old(fat)| && fat[0] == old(fat)[0] && fat[1] == old(fat)[1]
        invariant forall j :: 0 <= j < |fat| ==> fat[j] == old(fat)[j] || fat[j] == 0
        invariant clus == 0 || clus == old(e.firstClus) || exists j :: 0 <= j < |fat| && clus == old(fat)[j]
        invariant onChain ==> i <= |chain| && (if i < |chain| then clus == chain[i] else clus >= FAT32_EOC)
                              && ClearedTo(old(fat), chain, i, fat)
        invariant chain == [] && old(e.firstClus) == 0 ==> clus == 0 && fat == old(fat)
        modifies this`fat
        decreases Marked(fat, |fat|), if clus >= 2 then 1 else 0
      {
        if onChain {
          ChainStep(old(fat), g.cnt, chain, i);
          NotYetCleared(old(fat), g.cnt, chain, i, fat);
        }
        var next := ReadFat(fat, g.cnt, clus);
        if clus > g.cnt + 1 {
          return false;
        }
        MarkedLess(fat, clus, |fat|);
        fat := fat[clus := 0];
        clus := next;
        i := i + 1;
      }
      if onChain {
        AllCleared(old(fat), g.cnt, chain, i, clus, fat);
      }
      e.fileSize := 0;
      e.firstClus := 0;
      e.dirty := true;
      ok := true;
    }
  }

  /** A number of a cluster that does not exist, and no end-of-chain mark. */
  predicate LeadsOut(clus: nat, cnt: nat) { cnt + 1 < clus < 0x0fff_fff8 }

  /** The entries in use among the first k. */
  function Marked(fat: seq<nat>, k: nat): nat
    requires k <= |fat|
  {
    if k == 0 then 0 else Marked(fat, k - 1) + if fat[k - 1] == 0 then 0 else 1
  }

  lemma {:induction false} MarkedLess(fat: seq<nat>, c: nat, k: nat)
    requires c < |fat| && k <= |fat|
    ensures Marked(fat[c := 0], k) == Marked(fat, k) - if c < k && fat[c] != 0 then 1 else 0
  {
    if k > 0 {
      MarkedLess(fat, c, k - 1);
    }
  }

  /** The first i clusters of the chain are freed, and nothing else is changed. */
  ghost predicate ClearedTo(fat: seq<nat>, chain: seq<nat>, i: nat, fat': seq<nat>) {
    && i <= |chain| && |fat'| == |fat| && (forall j :: 0 <= j < |chain| ==> chain[j] < |fat|)
    && fat' == Cleared(fat, chain[..i])
  }

  lemma ClearedNone(fat: seq<nat>, cnt: nat, chain: seq<nat>)
    requires IsChain(fat, cnt, chain)
    ensures ClearedTo(fat, chain, 0, fat)
  {
    forall j | 0 <= j < |chain|
      ensures chain[j] < |fat|
    {
      assert InRange(chain[j], cnt);
    }
  }

  lemma NotYetCleared(fat: seq<nat>, cnt: nat, chain: seq<nat>, i: nat, fat': seq<nat>)
    requires IsChain(fat, cnt, chain) && i < |chain| && ClearedTo(fat, chain, i, fat')
    ensures chain[i] < |fat'| && fat'[chain[i]] == fat[chain[i]] && ClearedTo(fat, chain, i + 1, fat'[chain[i] := 0])
  {
    ChainApartFrom(fat, cnt, chain, i);
    assert chain[i] !in chain[..i];
    assert chain[..i + 1] == chain[..i] + [chain[i]];
    var a, b := Cleared(fat, chain[..i + 1]), fat'[chain[i] := 0];
    forall c | 0 <= c < |fat|
      ensures a[c] == b[c]
    {
      if c in chain[..i] {
        assert c in chain[..i + 1];
      }
    }
  }

  lemma AllCleared(fat: seq<nat>, cnt: nat, chain: seq<nat>, i: nat, clus: nat, fat': seq<nat>)
    requires chain != [] && IsChain(fat, cnt, chain) && ClearedTo(fat, chain, i, fat')
        && (i < |chain| ==> clus == chain[i]) && !(clus >= 2 && clus < FAT32_EOC)
    ensures forall j :: 0 <= j < |chain| ==> chain[j] < |fat|
    ensures fat' == Cleared(fat, chain)
  {
    if i < |chain| {
      ChainStep(fat, cnt, chain, i);
    }
    assert chain[..|chain|] == chain;
  }

  /** s brought to length n with zeros. */
  function Pad(s: seq<byte>, n: nat): seq<byte> { if |s| < n then s + seq(n - |s|, i => 0) else s }

  /**
   The file, grown to the chain ch, has d written at off; only its clusters, old and new, changed; the new ones were
   free.
   */
  ghost predicate Written(fat: seq<nat>, sectors: seq<seq<byte>>, chain: seq<nat>, fat': seq<nat>,
      sectors': seq<seq<byte>>, ch: seq<nat>,
                          g: Geometry, off: nat, d: seq<byte>) {
    && Others(fat, sectors, fat', sectors', g, ch) && chain <= ch
    && (forall i :: 0 <= i < |ch| ==> InRange(ch[i], g.cnt))
    && (forall i :: |chain| <= i < |ch| ==> fat[ch[i]] == 0)
    && off + |d| <= Times(|ch|, Size(g)) && |FileBytes(sectors, g, chain)| <= Times(|ch|, Size(g))
    && FileBytes(sectors', g, ch) == Splice(Pad(FileBytes(sectors, g, chain), Times(|ch|, Size(g))), off, d)
  }

  lemma LongerBacks(fat: seq<nat>, sectors: seq<seq<byte>>, chain: seq<nat>, fat': seq<nat>, sectors': seq<seq<byte>>,
      ch: seq<nat>, g: Geometry, n: nat)
    requires Grown(fat, sectors, chain, fat', sectors', ch, g)
    ensures |chain| <= |ch| && Times(|chain|, Size(g)) <= Times(|ch|, Size(g))
  {
    TimesMore(|chain|, |ch|, Size(g));
  }

  lemma GrownWritten(fat: seq<nat>, sectors: seq<seq<byte>>, chain: seq<nat>, fat': seq<nat>,
      sectors': seq<seq<byte>>, ch: seq<nat>, g: Geometry, off: nat)
    requires Grown(fat, sectors, chain, fat', sectors', ch, g) && off <= Times(|ch|, Size(g))
    ensures Written(fat, sectors, chain, fat', sectors', ch, g, off, [])
  {
    hide Cluster, Laid, Size, FileBytes, Times;
    var s, t := FileBytes(sectors, g, chain), FileBytes(sectors', g, ch);
    assert t == Pad(s, |t|);
    SpliceNothing(t, off);
  }

  lemma PutWritten(fat: seq<nat>, sectors: seq<seq<byte>>, chain: seq<nat>, fat1: seq<nat>, sec1: seq<seq<byte>>,
      ch: seq<nat>, sec2: seq<seq<byte>>,
                   g: Geometry, o: nat, d: seq<byte>, q: nat)
    requires Grown(fat, sectors, chain, fat1, sec1, ch, g) && q < |ch| && OthersSame(sec1, sec2, g, ch[q])
    requires o + |d| <= |FileBytes(sec1, g, ch)| && FileBytes(sec2, g, ch) == Splice(FileBytes(sec1, g, ch), o, d)
    ensures Written(fat, sectors, chain, fat1, sec2, ch, g, o, d)
  {
    hide Cluster, Laid, Size, FileBytes, Times, Splice;
    var s, t := FileBytes(sectors, g, chain), FileBytes(sec1, g, ch);
    assert t == Pad(s, |t|);
    forall c: nat | InRange(c, g.cnt) && c !in ch
      ensures Cluster(sec2, g, c) == Cluster(sectors, g, c)
    {
      assert c != ch[q];
    }
  }

  /** Two writes in a row are one. */
  lemma WrittenTwice(fat: seq<nat>, sectors: seq<seq<byte>>, chain: seq<nat>, fat1: seq<nat>, sec1: seq<seq<byte>>,
      ch1: seq<nat>,
                     fat2: seq<nat>, sec2: seq<seq<byte>>, ch2: seq<nat>, g: Geometry, off: nat, d: seq<byte>,
                         e: seq<byte>)
    requires ch1 != [] && IsChain(fat1, g.cnt, ch1)
    requires Written(fat, sectors, chain, fat1, sec1, ch1, g, off, d)
        && Written(fat1, sec1, ch1, fat2, sec2, ch2, g, off + |d|, e)
    ensures Written(fat, sectors, chain, fat2, sec2, ch2, g, off, d + e)
  {
    hide Cluster, Laid, Size, FileBytes, Times, Splice, Pad, IsChain;
    var s := FileBytes(sectors, g, chain);
    TimesMore(|ch1|, |ch2|, Size(g));
    PadSplice(s, Times(|ch1|, Size(g)), Times(|ch2|, Size(g)), off, d);
    SpliceTwice(Pad(s, Times(|ch2|, Size(g))), off, d, e);
    forall c: nat | InRange(c, g.cnt) && c !in ch2
      ensures fat2[c] == fat[c] && Cluster(sec2, g, c) == Cluster(sectors, g, c)
    {
      PrefixIn(ch1, ch2, c);
    }
    forall i | |chain| <= i < |ch2|
      ensures fat[ch2[i]] == 0
    {
      if i < |ch1| {
        assert ch2[i] == ch1[i];
      } else {
        FreeApart(fat1, g.cnt, ch1, ch2[i]);
        NewIn(fat, sectors, fat1, sec1, g, ch1, ch2[i]);
      }
    }
  }

  lemma PrefixIn(a: seq<nat>, b: seq<nat>, c: nat)
    requires a <= b && c !in b
    ensures c !in a
  {
    forall i | 0 <= i < |a|
      ensures a[i] != c
    {
      assert b[i] == a[i];
    }
  }

  lemma NewIn(fat: seq<nat>, sectors: seq<seq<byte>>, fat1: seq<nat>, sec1: seq<seq<byte>>, g: Geometry, ch: seq<nat>,
      c: nat)
    requires Others(fat, sectors, fat1, sec1, g, ch) && InRange(c, g.cnt) && fat1[c] == 0
    ensures c !in ch ==> fat[c] == 0
  {
  }

  lemma PadSplice(s: seq<byte>, n: nat, m: nat, off: nat, d: seq<byte>)
    requires |s| <= n <= m && off + |d| <= n
    ensures |Pad(s, n)| == n && |Pad(s, m)| == m
    ensures Pad(Splice(Pad(s, n), off, d), m) == Splice(Pad(s, m), off, d)
  {
  }

  lemma WrittenFits(fat: seq<nat>, sectors: seq<seq<byte>>, chain: seq<nat>, fat': seq<nat>, sectors': seq<seq<byte>>,
      ch: seq<nat>,
                    g: Geometry, off: nat, d: seq<byte>)
    requires Written(fat, sectors, chain, fat', sectors', ch, g, off, d)
    ensures off + |d| <= Times(|ch|, Size(g))
  {
  }

  lemma ChainApartFrom(fat: seq<nat>, cnt: nat, chain: seq<nat>, q: nat)
    requires IsChain(fat, cnt, chain) && q < |chain|
    ensures forall i :: 0 <= i < |chain| && i != q ==> chain[i] != chain[q]
  {
    forall i | 0 <= i < |chain| && i != q
      ensures chain[i] != chain[q]
    {
      ChainAcyclic(fat, cnt, chain, if i < q then i else q, if i < q then q else i);
    }
  }

  lemma SliceJoin(s: seq<byte>, a: nat, m: nat, n: nat)
    requires a + m + n <= |s|
    ensures s[a..a + m] + s[a + m..a + m + n] == s[a..a + m + n]
  {
  }

  lemma ChainIn(fat: seq<nat>, cnt: nat, chain: seq<nat>)
    requires chain != [] ==> IsChain(fat, cnt, chain)
    ensures forall i :: 0 <= i < |chain| ==> InRange(chain[i], cnt)
  {
  }

  lemma NotEmpty(off: nat, want: nat, n: nat, size: nat)
    requires want > 0 && off + want <= Times(n, size)
    ensures n > 0
  {
  }

  /** The chain grew, by clusters that were free, and the file by zeros; nothing else changed. */
  ghost predicate Grown(fat: seq<nat>, sectors: seq<seq<byte>>, chain: seq<nat>, fat': seq<nat>,
      sectors': seq<seq<byte>>, ch: seq<nat>, g: Geometry) {
    && Others(fat, sectors, fat', sectors', g, ch) && chain <= ch
    && (forall i :: 0 <= i < |ch| ==> InRange(ch[i], g.cnt))
    && (forall i :: |chain| <= i < |ch| ==> fat[ch[i]] == 0)
    && |FileBytes(sectors', g, ch)| == Times(|ch|, Size(g))
    && Padded(FileBytes(sectors, g, chain), FileBytes(sectors', g, ch))
  }

  /** t is s with zeros behind it. */
  ghost predicate Padded(s: seq<byte>, t: seq<byte>) { s <= t && forall i :: |s| <= i < |t| ==> t[i] == 0 }

  lemma GrownSame(fat: seq<nat>, sectors: seq<seq<byte>>, chain: seq<nat>, g: Geometry)
    requires Laid(sectors, g) && |fat| >= g.cnt + 2 && (chain != [] ==> IsChain(fat, g.cnt, chain))
    ensures Grown(fat, sectors, chain, fat, sectors, chain, g)
  {
    hide Cluster, Size, Laid, FileBytes;
    PartsBlocks(sectors, g, chain);
  }

  lemma GrownSnoc(fat: seq<nat>, sectors: seq<seq<byte>>, chain: seq<nat>, fat1: seq<nat>, sec1: seq<seq<byte>>,
      ch: seq<nat>,
                  fat2: seq<nat>, sec2: seq<seq<byte>>, k: nat, g: Geometry)
    requires Grown(fat, sectors, chain, fat1, sec1, ch, g) && Others(fat1, sec1, fat2, sec2, g, ch + [k])
    requires InRange(k, g.cnt) && k !in ch && fat1[k] == 0
    requires OthersSame(sec1, sec2, g, k) && Zeros(Cluster(sec2, g, k))
    ensures Grown(fat, sectors, chain, fat2, sec2, ch + [k], g)
  {
    hide Cluster, Size, Laid, FileBytes;
    assert forall i :: 0 <= i < |ch| ==> ch[i] != k by {
      forall i | 0 <= i < |ch| ensures ch[i] != k { assert ch[i] in ch; }
    }
    FileSame(sec1, sec2, g, ch);
    FileSnoc(sec2, g, ch, k);
    PartsBlocks(sec2, g, ch + [k]);
    forall c: nat | InRange(c, g.cnt) && c !in ch + [k]
      ensures fat2[c] == fat[c] && Cluster(sec2, g, c) == Cluster(sectors, g, c)
    {
      NotInAppend(ch, k, c);
    }
    var t := ch + [k];
    forall i | |chain| <= i < |t|
      ensures fat[t[i]] == 0
    {
      if i == |ch| {
        assert fat1[k] == fat[k];
      }
    }
  }

  lemma SizePositive(g: Geometry, sectors: seq<seq<byte>>)
    requires Laid(sectors, g)
    ensures Size(g) > 0
  {
    TimesIs(g.spc, 512);
  }

  /** What read_fat finds in the middle, and at the end, of a chain. */
  lemma ChainStep(fat: seq<nat>, cnt: nat, chain: seq<nat>, i: nat)
    requires chain != [] && IsChain(fat, cnt, chain) && i < |chain|
    ensures InRange(chain[i], cnt) && chain[i] < |fat| && ReadFat(fat, cnt, chain[i]) == fat[chain[i]]
    ensures i + 1 < |chain| ==> fat[chain[i]] == chain[i + 1] && chain[i + 1] < FAT32_BAD
    ensures fat[chain[i]] >= FAT32_EOC <==> i + 1 == |chain|
  {
    assert InRange(chain[i], cnt);
    if i + 1 < |chain| {
      assert fat[chain[i]] == chain[i + 1] && InRange(chain[i + 1], cnt);
    }
  }

  lemma WholeSector(s: seq<byte>, z: seq<byte>)
    requires |s| == |z|
    ensures Splice(s, 0, z) == z
  {
  }

  lemma ZeroSeq(z: seq<byte>)
    requires z == seq(512, k => 0)
    ensures Zeros(z)
  {
  }

  lemma {:induction false} ZeroConcat(ss: seq<seq<byte>>)
    requires forall i :: 0 <= i < |ss| ==> Zeros(ss[i])
    ensures Zeros(Concat(ss))
  {
    if ss != [] {
      ZeroConcat(ss[1..]);
      assert Zeros(ss[0]);
    }
  }

  lemma ZeroSectors(sectors: seq<seq<byte>>, g: Geometry, c: nat)
    requires Laid(sectors, g) && InRange(c, g.cnt)
    requires FirstSec(c, g) + g.spc <= |sectors| && forall j :: FirstSec(c, g) <= j < FirstSec(c, g) + g.spc ==>
        Zeros(sectors[j])
    ensures Zeros(Cluster(sectors, g, c))
  {
    hide Zeros;
    ZeroConcat(sectors[FirstSec(c, g)..FirstSec(c, g) + g.spc]);
  }

  lemma FreeApart(fat: seq<nat>, cnt: nat, chain: seq<nat>, k: nat)
    requires IsChain(fat, cnt, chain) && k < |fat| && fat[k] == 0
    ensures k !in chain
  {
    if k in chain {
      ChainNotFree(fat, cnt, chain, k);
    }
  }

  lemma ExtendOthers(fat: seq<nat>, sectors: seq<seq<byte>>, fat': seq<nat>, sectors': seq<seq<byte>>, g: Geometry,
      chain: seq<nat>, k: nat)
    requires chain != [] ==> IsChain(fat, g.cnt, chain)
    requires g.cnt + 2 <= |fat| && InRange(k, g.cnt) && OthersSame(sectors, sectors', g, k)
    requires chain != [] ==> chain[|chain| - 1] < |fat|
    requires fat' == Extended(fat, chain, k)
    ensures Others(fat, sectors, fat', sectors', g, chain + [k])
  {
    hide Cluster, Laid;
    if chain != [] {
      assert InRange(chain[|chain| - 1], g.cnt) && chain[|chain| - 1] in chain;
    }
    ExtendLength(fat, chain, k);
    forall c: nat | InRange(c, g.cnt) && c !in chain + [k]
      ensures fat'[c] == fat[c] && Cluster(sectors', g, c) == Cluster(sectors, g, c)
    {
      NotInAppend(chain, k, c);
    }
  }

  lemma NotInAppend(chain: seq<nat>, k: nat, c: nat)
    requires c !in chain + [k]
    ensures c !in chain && c != k
  {
    assert (chain + [k])[|chain|] == k;
  }

  lemma FirstSector(off: nat)
    ensures 512 * (off / 512) + InSector(InSector(off)) == off
  {
  }

  lemma SectorIn(g: Geometry, s: nat, end: nat, at: nat)
    requires 512 * s <= at < end <= Size(g)
    ensures s < g.spc
  {
    TimesIs(g.spc, 512);
  }

  lemma SameAsBefore(sectors: seq<seq<byte>>, g: Geometry, c: nat)
    requires Laid(sectors, g)
    ensures OthersSame(sectors, sectors, g, c)
  {
  }

  lemma SpliceNothing(s: seq<byte>, o: nat)
    requires o <= |s|
    ensures Splice(s, o, []) == s
  {
  }

  lemma NotShared(fat: seq<nat>, cnt: nat, files: Files, f: nat, h: nat, c: nat, i: nat)
    requires Disciplined(fat, cnt, files) && f in files && h != f && Owns(files, h, c)
    ensures i < |files[f]| ==> files[f][i] != c
  {
    if i < |files[f]| {
      assert files[f][i] in files[f];
      assert Owns(files, f, files[f][i]);
    }
  }

  /** Writing to one file leaves the chains of all files in order, and the bytes of the others as they were. */
  lemma OtherFilesKept(fat: seq<nat>, sectors: seq<seq<byte>>, fat': seq<nat>, sectors': seq<seq<byte>>, g: Geometry,
                       files: Files, f: nat, ch: seq<nat>, off: nat, d: seq<byte>, h: nat)
    requires Disciplined(fat, g.cnt, files) && f in files && Laid(sectors, g)
        && (forall i :: 0 <= i < |files[f]| ==> InRange(files[f][i], g.cnt))
    requires Written(fat, sectors, files[f], fat', sectors', ch, g, off, d) && ch != [] && IsChain(fat', g.cnt, ch)
    requires h in files && h != f
    ensures forall i :: 0 <= i < |files[h]| ==> InRange(files[h][i], g.cnt)
    ensures files[h] != [] ==> IsChain(fat', g.cnt, files[h])
    ensures forall c :: c in files[h] ==> c !in ch
    ensures FileBytes(sectors', g, files[h]) == FileBytes(sectors, g, files[h])
  {
    hide Cluster, Laid, Size, FileBytes, Splice, Pad, IsChain;
    var hs := files[h];
    forall c: nat | c in hs
      ensures InRange(c, g.cnt) && c !in ch
    {
      assert Owns(files, h, c);
      OwnedNotFree(fat, g.cnt, files, h, c);
      forall i | 0 <= i < |ch|
        ensures ch[i] != c
      {
        NotShared(fat, g.cnt, files, f, h, c, i);
      }
    }
    assert forall i :: 0 <= i < |hs| ==> hs[i] in hs;
    if hs != [] {
      ChainKept(fat, fat', g.cnt, hs);
    }
    FileSame(sectors, sectors', g, hs);
  }

  /** The clusters of a chain are in use. */
  lemma ChainUsed(fat: seq<nat>, cnt: nat, chain: seq<nat>, c: nat)
    requires IsChain(fat, cnt, chain) && c in chain
    ensures InRange(c, cnt) && fat[c] != 0 && fat[c] != FAT32_BAD
  {
    var i :| 0 <= i < |chain| && chain[i] == c;
    if i + 1 < |chain| {
      assert InRange(chain[i + 1], cnt);
    }
  }

  /** A file that a write may have grown owns its clusters alone. */
  lemma GrownApart(fat: seq<nat>, sectors: seq<seq<byte>>, fat': seq<nat>, sectors': seq<seq<byte>>, g: Geometry,
                   files: Files, f: nat, ch: seq<nat>, off: nat, d: seq<byte>, a: nat, b: nat, c: nat)
    requires Disciplined(fat, g.cnt, files) && f in files && Laid(sectors, g)
    requires forall i :: 0 <= i < |files[f]| ==> InRange(files[f][i], g.cnt)
    requires Written(fat, sectors, files[f], fat', sectors', ch, g, off, d) && ch != [] && IsChain(fat', g.cnt, ch)
    requires Owns(files[f := ch], a, c) && Owns(files[f := ch], b, c)
    ensures a == b
  {
    hide Disciplined, Laid, Written, IsChain;
    if a != f && b != f {
      assert Owns(files, a, c) && Owns(files, b, c);
      OneOwner(fat, g.cnt, files, a, b, c);
    } else if a != f {
      OtherFilesKept(fat, sectors, fat', sectors', g, files, f, ch, off, d, a);
    } else if b != f {
      OtherFilesKept(fat, sectors, fat', sectors', g, files, f, ch, off, d, b);
    }
  }

  /** After a write no cluster is lost: one in use belongs to the file written, or to the file it belonged to. */
  lemma GrownOwned(fat: seq<nat>, sectors: seq<seq<byte>>, fat': seq<nat>, sectors': seq<seq<byte>>, g: Geometry,
                   files: Files, f: nat, ch: seq<nat>, off: nat, d: seq<byte>, c: nat) returns (h: nat)
    requires Disciplined(fat, g.cnt, files) && f in files && Laid(sectors, g)
    requires forall i :: 0 <= i < |files[f]| ==> InRange(files[f][i], g.cnt)
    requires Written(fat, sectors, files[f], fat', sectors', ch, g, off, d)
    requires InRange(c, g.cnt) && g.cnt + 2 <= |fat'| && fat'[c] != 0 && fat'[c] != FAT32_BAD
    ensures Owns(files[f := ch], h, c)
  {
    hide IsChain, Cluster, FileBytes, Splice;
    if c in ch {
      return f;
    }
    assert fat'[c] == fat[c];
    h :| Owns(files, h, c);
    if h == f {
      PrefixIn(files[f], ch, c);
    }
  }

  /**
   Writing keeps the discipline: the chains of all files stay in order and disjoint, no cluster is lost, and the
   free clusters are those before, less the ones the file has grown by.
   */
  lemma WriteDisciplined(fat: seq<nat>, sectors: seq<seq<byte>>, fat': seq<nat>, sectors': seq<seq<byte>>, g: Geometry,
                         files: Files, f: nat, ch: seq<nat>, off: nat, d: seq<byte>)
    requires Disciplined(fat, g.cnt, files) && f in files && Laid(sectors, g)
    requires forall i :: 0 <= i < |files[f]| ==> InRange(files[f][i], g.cnt)
    requires Written(fat, sectors, files[f], fat', sectors', ch, g, off, d) && ch != [] && IsChain(fat', g.cnt, ch)
    ensures Disciplined(fat', g.cnt, files[f := ch])
    ensures FreeClusters(fat', g.cnt) == FreeClusters(fat, g.cnt) - set c | c in ch
  {
    hide IsChain, Cluster, FileBytes, Splice, Laid, Size, Written;
    WrittenTable(fat, sectors, files[f], fat', sectors', ch, g, off, d);
    var files' := files[f := ch];
    forall h | h in files' && files'[h] != []
      ensures IsChain(fat', g.cnt, files'[h])
    {
      if h != f {
        OtherFilesKept(fat, sectors, fat', sectors', g, files, f, ch, off, d, h);
      }
    }
    forall a: nat, b: nat, c: nat | Owns(files', a, c) && Owns(files', b, c)
      ensures a == b
    {
      GrownApart(fat, sectors, fat', sectors', g, files, f, ch, off, d, a, b, c);
    }
    forall c: nat | InRange(c, g.cnt) && fat'[c] != 0 && fat'[c] != FAT32_BAD
      ensures exists h: nat :: Owns(files', h, c)
    {
      var h := GrownOwned(fat, sectors, fat', sectors', g, files, f, ch, off, d, c);
    }
    forall c | c in ch
      ensures InRange(c, g.cnt) && fat'[c] != 0
    {
      ChainUsed(fat', g.cnt, ch, c);
    }
  }

  lemma WrittenTable(fat: seq<nat>, sectors: seq<seq<byte>>, chain: seq<nat>, fat': seq<nat>,
      sectors': seq<seq<byte>>, ch: seq<nat>,
                     g: Geometry, off: nat, d: seq<byte>)
    requires Laid(sectors, g) && (forall j :: 0 <= j < |chain| ==> InRange(chain[j], g.cnt))
    requires Written(fat, sectors, chain, fat', sectors', ch, g, off, d)
    ensures |fat'| == |fat| >= g.cnt + 2 && fat'[0] == fat[0] && fat'[1] == fat[1]
    ensures forall c: nat :: InRange(c, g.cnt) && c !in ch ==> fat'[c] == fat[c]
  {
    hide Cluster, FileBytes, Splice;
  }

  /** What was written is read back, and the rest of the file reads as before. */
  lemma WrittenReads(fat: seq<nat>, sectors: seq<seq<byte>>, chain: seq<nat>, fat': seq<nat>,
      sectors': seq<seq<byte>>, ch: seq<nat>,
                     g: Geometry, off: nat, d: seq<byte>, i: nat)
    requires Laid(sectors, g) && Laid(sectors', g) && (forall j :: 0 <= j < |chain| ==> InRange(chain[j], g.cnt))
    requires Written(fat, sectors, chain, fat', sectors', ch, g, off, d) && i < Times(|ch|, Size(g))
    ensures |FileBytes(sectors', g, ch)| == Times(|ch|, Size(g))
    ensures FileBytes(sectors', g, ch)[i] ==
              if off <= i < off + |d| then d[i - off]
              else if i < |FileBytes(sectors, g, chain)| then FileBytes(sectors, g, chain)[i] else 0
  {
    hide FileBytes, Times, Size, Laid, Others;
    var s := FileBytes(sectors, g, chain);
    assert |Pad(s, Times(|ch|, Size(g)))| == Times(|ch|, Size(g));
  }
}
