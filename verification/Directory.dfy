
/** A directory as a run of files and holes, and what making, changing and removing an entry does to it. */
module Directories {
  import opened ByteSeq
  import opened DirEntries
  import opened FileIO
  import opened Options

  datatype Item = File(bytes: seq<byte>, rec: Rec) | Hole(bytes: seq<byte>)

  /** Slots marked empty; what else is in them does not matter. */
  predicate IsHole(b: seq<byte>) {
    b == [] || (|b| >= 32 && b[0] == EMPTY && IsHole(b[32..]))
  }

  predicate Good(it: Item) { if it.File? then Encodes(it.bytes, it.rec) else IsHole(it.bytes) }

  function Bytes(items: seq<Item>): seq<byte> {
    if items == [] then [] else items[0].bytes + Bytes(items[1..])
  }

  /** b is a directory with these items; behind them it has never been written. */
  ghost predicate Holds(b: seq<byte>, items: seq<Item>) {
    && (forall i :: 0 <= i < |items| ==> Good(items[i]))
    && |Bytes(items)| <= |b| && b[..|Bytes(items)|] == Bytes(items) && Zeros(b[|Bytes(items)|..])
  }

  lemma {:induction false} BytesAppend(xs: seq<Item>, ys: seq<Item>)
    ensures Bytes(xs + ys) == Bytes(xs) + Bytes(ys)
  {
    if xs == [] {
      assert xs + ys == ys;
    } else {
      assert (xs + ys)[1..] == xs[1..] + ys;
      BytesAppend(xs[1..], ys);
    }
  }

  /** Where item k starts. */
  function Pos(items: seq<Item>, k: nat): nat
    requires k <= |items|
  {
    |Bytes(items[..k])|
  }

  lemma BytesSplit(items: seq<Item>, k: nat)
    requires k < |items|
    ensures Bytes(items) == Bytes(items[..k]) + items[k].bytes + Bytes(items[k + 1..])
    ensures Pos(items, k + 1) == Pos(items, k) + |items[k].bytes| <= |Bytes(items)|
  {
    assert items == items[..k] + items[k..];
    BytesAppend(items[..k], items[k..]);
    assert items[k..][1..] == items[k + 1..];
    assert items[..k + 1] == items[..k] + [items[k]];
    BytesAppend(items[..k], [items[k]]);
  }

  lemma {:induction false} HoleLength(b: seq<byte>)
    requires IsHole(b)
    ensures |b| % 32 == 0
  {
    if b != [] {
      HoleLength(b[32..]);
    }
  }

  lemma {:induction false} HoleRest(b: seq<byte>, n: nat)
    requires IsHole(b) && 32 * n <= |b|
    ensures IsHole(b[32 * n..])
  {
    if n > 0 {
      HoleRest(b[32..], n - 1);
      assert b[32..][32 * (n - 1)..] == b[32 * n..];
    }
  }

  lemma {:induction false} ScanHole(b: seq<byte>, rest: seq<byte>, cnt: nat, buf: seq<byte>)
    requires IsHole(b) && |buf| == FIELD
    ensures Scan(b + rest, cnt, true, 0, buf) == Scan(rest, cnt + |b| / 32, true, 0, buf)
  {
    var c := b + rest;
    if b == [] {
      assert c == rest;
    } else {
      assert c[32..] == b[32..] + rest;
      ScanHole(b[32..], rest, cnt + 1, buf);
    }
  }

  /** The number of holes in front. */
  function Lead(items: seq<Item>): (m: nat)
    ensures m <= |items| && (forall i :: 0 <= i < m ==> items[i].Hole?) && (m < |items| ==> items[m].File?)
  {
    if items == [] || items[0].File? then 0 else 1 + Lead(items[1..])
  }

  /** One call of enext: it reports the hole in front, all of it, or else the file in front, or the end. */
  lemma {:induction false} ScanItems(items: seq<Item>, tail: seq<byte>, cnt: nat, buf: seq<byte>)
    requires (forall i :: 0 <= i < |items| ==> Good(items[i])) && Zeros(tail) && Blanked(buf)
    ensures var m, next := Lead(items), Scan(Bytes(items) + tail, cnt, true, 0, buf);
            && Pos(items, m) % 32 == 0
            && (m == |items| ==> next == End)
            && (m < |items| ==> if cnt + Pos(items, m) / 32 > 0 then next == Holes(cnt + Pos(items, m) / 32, buf)
                else Finds(next, items[m].rec))
  {
    hide Encodes, Good, Scan, Finds, IsHole, Zeros;
    var b := Bytes(items) + tail;
    if items == [] {
      assert b == tail;
      ScanTail(tail, cnt, buf);
    } else {
      var it, rest := items[0], Bytes(items[1..]) + tail;
      assert b == it.bytes + rest;
      assert Good(it);
      if it.Hole? {
        HoleIs(it);
        ScanHole(it.bytes, rest, cnt, buf);
        ScanItems(items[1..], tail, cnt + |it.bytes| / 32, buf);
        LeadPos(items);
      } else {
        FileIs(it, rest, cnt, buf);
      }
    }
  }

  lemma ScanTail(tail: seq<byte>, cnt: nat, buf: seq<byte>)
    requires Zeros(tail) && |buf| == FIELD
    ensures Scan(tail, cnt, true, 0, buf) == End
  {
  }

  lemma HoleIs(it: Item)
    requires Good(it) && it.Hole?
    ensures IsHole(it.bytes) && |it.bytes| % 32 == 0
  {
    HoleLength(it.bytes);
  }

  lemma FileIs(it: Item, rest: seq<byte>, cnt: nat, buf: seq<byte>)
    requires Good(it) && it.File? && Blanked(buf)
    ensures |it.bytes| == 32 * Slots(it.rec) > 0
    ensures cnt == 0 ==> Finds(Scan(it.bytes + rest, 0, true, 0, buf), it.rec)
    ensures cnt > 0 ==> Scan(it.bytes + rest, cnt, true, 0, buf) == Holes(cnt, buf)
  {
    hide Finds, ClusOf, SizeOf, LongName;
    EncodesLength(it.bytes, it.rec);
    FirstByte(it.bytes, it.rec);
    ScanFinds(it.bytes, it.rec, rest, buf);
  }

  lemma FirstByte(b: seq<byte>, r: Rec)
    requires Encodes(b, r)
    ensures |b| >= 32 && b[0] != 0 && b[0] != EMPTY
  {
    EncodesLength(b, r);
    if Legal(r.name) {
      LongCountIs(r.name);
      OrderRead(LongCount(r.name), LongCount(r.name));
    }
  }

  lemma LeadPos(items: seq<Item>)
    requires items != [] && items[0].Hole?
    ensures Pos(items, Lead(items)) == |items[0].bytes| + Pos(items[1..], Lead(items[1..]))
  {
    var m := Lead(items);
    assert items[..m][1..] == items[1..][..m - 1];
  }

  // ----- the names in a directory -----

  /** No name twice. */
  ghost predicate Distinct(items: seq<Item>) {
    forall i, j :: 0 <= i < j < |items| && items[i].File? && items[j].File? ==> items[i].rec.name != items[j].rec.name
  }

  /** The directory as a map from names to attribute, first cluster and size. */
  function View(items: seq<Item>): map<seq<byte>, Rec> {
    if items == [] then map[]
    else if items[|items| - 1].File?
        then View(items[..|items| - 1])[items[|items| - 1].rec.name := items[|items| - 1].rec]
    else View(items[..|items| - 1])
  }

  lemma {:induction false} ViewIs(items: seq<Item>, name: seq<byte>)
    requires Distinct(items)
    ensures name in View(items) <==> exists k :: 0 <= k < |items| && items[k].File? && items[k].rec.name == name
    ensures forall k :: 0 <= k < |items| && items[k].File? && items[k].rec.name == name ==>
        View(items)[name] == items[k].rec
  {
    if items != [] {
      ViewIs(items[..|items| - 1], name);
      var last := items[|items| - 1];
      assert last.File? && last.rec.name == name ==> name in View(items);
    }
  }

  lemma SpliceMiddle(b: seq<byte>, x: seq<byte>, y: seq<byte>, z: seq<byte>, w: seq<byte>)
    requires |w| == |y| && |x| + |y| + |z| <= |b| && b[..|x| + |y| + |z|] == x + y + z
    ensures var c, n := Splice(b, |x|, w), |x| + |y| + |z|; c[..n] == x + w + z && c[n..] == b[n..]
  {
    var s := x + y + z;
    assert forall i :: 0 <= i < |s| ==> b[i] == s[i];
  }

  lemma GoodReplaced(items: seq<Item>, k: nat, it: Item, t: seq<Item>)
    requires k < |items| && Good(it) && (forall i :: 0 <= i < |items| ==> Good(items[i])) && t == items[k := it]
    ensures forall i :: 0 <= i < |t| ==> Good(t[i])
  {
    hide Good;
  }

  /** An item is replaced by one with as many bytes. */
  lemma Replaced(b: seq<byte>, items: seq<Item>, k: nat, it: Item)
    requires Holds(b, items) && k < |items| && Good(it) && |it.bytes| == |items[k].bytes|
    ensures Pos(items, k) + |it.bytes| <= |b|
    ensures Holds(Splice(b, Pos(items, k), it.bytes), items[k := it])
  {
    hide Good, Zeros, Bytes, Splice;
    var t := items[k := it];
    BytesSplit(items, k);
    BytesSplit(t, k);
    assert t[..k] == items[..k] && t[k + 1..] == items[k + 1..];
    SpliceMiddle(b, Bytes(items[..k]), items[k].bytes, Bytes(items[k + 1..]), it.bytes);
    GoodReplaced(items, k, it, t);
  }

  lemma ItemAt(b: seq<byte>, items: seq<Item>, k: nat)
    requires Holds(b, items) && k < |items|
    ensures Pos(items, k) + |items[k].bytes| <= |b|
        && b[Pos(items, k)..Pos(items, k) + |items[k].bytes|] == items[k].bytes
  {
    hide Good, Zeros, Bytes;
    BytesSplit(items, k);
    PartOf(b, Bytes(items[..k]), items[k].bytes, Bytes(items[k + 1..]));
  }

  lemma PartOf(b: seq<byte>, x: seq<byte>, y: seq<byte>, z: seq<byte>)
    requires |x| + |y| + |z| <= |b| && b[..|x| + |y| + |z|] == x + y + z
    ensures b[|x|..|x| + |y|] == y
  {
    var w := x + y + z;
    assert forall i :: 0 <= i < |y| ==> b[|x| + i] == b[..|w|][|x| + i] == y[i];
  }

  // ----- changing a directory -----

  function Le2(v: nat): seq<byte>
    requires v < 0x10000
  {
    [v % 256, v / 256]
  }

  /** A short slot with its first cluster and size replaced. */
  function SetInfo(s: seq<byte>, clus: nat, size: nat): (t: seq<byte>)
    requires |s| == 32 && clus < 0x1_0000_0000 && size < 0x1_0000_0000
    ensures |t| == 32
  {
    s[..20] + Le2(clus / 0x10000) + s[22..26] + Le2(clus % 0x10000) + Le2(size % 0x10000) + Le2(size / 0x10000)
  }

  lemma Word(v: nat)
    requires v < 0x1_0000_0000
    ensures v / 0x10000 < 0x10000 && v == v / 0x10000 * 0x10000 + v % 0x10000
  {
  }

  lemma HalfWord(v: nat)
    requires v < 0x10000
    ensures |Le2(v)| == 2 && v == Le2(v)[0] as int + 256 * Le2(v)[1] as int
  {
  }

  /** Both values read back, and no byte changes that does not belong to them. */
  lemma InfoReads(s: seq<byte>, clus: nat, size: nat)
    requires |s| == 32 && clus < 0x1_0000_0000 && size < 0x1_0000_0000
    ensures var t := SetInfo(s, clus, size); ClusOf(t) == clus && SizeOf(t) == size
    ensures forall i :: 0 <= i < 20 || 22 <= i < 26 ==> SetInfo(s, clus, size)[i] == s[i]
  {
    Word(clus);
    Word(size);
    HalfWord(clus / 0x10000);
    HalfWord(clus % 0x10000);
    HalfWord(size / 0x10000);
    HalfWord(size % 0x10000);
    hide Le2;
    var t := SetInfo(s, clus, size);
    assert t[20] == Le2(clus / 0x10000)[0] && t[21] == Le2(clus / 0x10000)[1];
    assert t[26] == Le2(clus % 0x10000)[0] && t[27] == Le2(clus % 0x10000)[1];
    assert t[28] == Le2(size % 0x10000)[0] && t[29] == Le2(size % 0x10000)[1];
    assert t[30] == Le2(size / 0x10000)[0] && t[31] == Le2(size / 0x10000)[1];
  }

  /** The slots of a file with the short one changed. */
  function Updated(b: seq<byte>, clus: nat, size: nat): (c: seq<byte>)
    requires |b| >= 32 && clus < 0x1_0000_0000 && size < 0x1_0000_0000
    ensures |c| == |b|
  {
    Splice(b, |b| - 32, SetInfo(b[|b| - 32..], clus, size))
  }

  lemma {:induction false} UpdatedRun(b: seq<byte>, r: Rec, i: nat, clus: nat, size: nat)
    requires Run(b, r, i) && clus < 0x1_0000_0000 && size < 0x1_0000_0000
    ensures |b| >= 32 && Run(Updated(b, clus, size), r.(clus := clus, size := size), i)
  {
    hide Segment, SetInfo, ClusOf, SizeOf;
    RunLength(b, r, i);
    var c := Updated(b, clus, size);
    if i == 0 {
      assert b[0..] == b;
      InfoReads(b, clus, size);
      assert c == SetInfo(b, clus, size);
    } else {
      UpdatedRun(b[32..], r, i - 1, clus, size);
      assert b[32..][|b| - 64..] == b[|b| - 32..];
      assert c[..32] == b[..32];
      assert c[32..] == Updated(b[32..], clus, size);
    }
  }

  /** Only the eight bytes of the first cluster and the size change. */
  lemma UpdatedBytes(b: seq<byte>, clus: nat, size: nat)
    requires |b| >= 32 && clus < 0x1_0000_0000 && size < 0x1_0000_0000
    ensures forall i :: 0 <= i < |b| - 12 || |b| - 10 <= i < |b| - 6 ==> Updated(b, clus, size)[i] == b[i]
  {
    hide SetInfo;
    var n := |b| - 32;
    InfoReads(b[n..], clus, size);
    forall i | 0 <= i < |b| - 12 || |b| - 10 <= i < |b| - 6
      ensures Updated(b, clus, size)[i] == b[i]
    {
      if i >= n {
        assert b[n..][i - n] == b[i];
      }
    }
  }

  /** eupdate leaves the slots of the same file, with the new first cluster and size. */
  lemma UpdatedEncodes(b: seq<byte>, r: Rec, clus: nat, size: nat)
    requires Encodes(b, r) && clus < 0x1_0000_0000 && size < 0x1_0000_0000
    ensures |b| >= 32 && Encodes(Updated(b, clus, size), r.(clus := clus, size := size))
  {
    hide SetInfo, ClusOf, SizeOf, Segment, Run;
    if Legal(r.name) {
      UpdatedRun(b, r, LongCount(r.name), clus, size);
      RunLength(b, r, LongCount(r.name));
    } else {
      assert b[0..] == b;
      InfoReads(b, clus, size);
      assert Updated(b, clus, size) == SetInfo(b, clus, size);
    }
  }

  /** The first n slots of b marked empty. */
  function Erased(b: seq<byte>, n: nat): (c: seq<byte>)
    requires 32 * n <= |b|
    ensures |c| == |b|
  {
    if n == 0 then b else [EMPTY] + b[1..32] + Erased(b[32..], n - 1)
  }

  lemma {:induction false} ErasedBytes(b: seq<byte>, n: nat)
    requires |b| == 32 * n
    ensures forall i :: 0 <= i < |b| ==> Erased(b, n)[i] == if i % 32 == 0 then 0xe5 else b[i]
  {
    if n > 0 {
      ErasedBytes(b[32..], n - 1);
      var c := Erased(b, n);
      forall i | 0 <= i < |b|
        ensures c[i] == if i % 32 == 0 then 0xe5 else b[i]
      {
        if i >= 32 {
          assert c[i] == Erased(b[32..], n - 1)[i - 32] && b[32..][i - 32] == b[i] && (i - 32) % 32 == i % 32;
        }
      }
    }
  }

  lemma {:induction false} ErasedHole(b: seq<byte>, n: nat)
    requires |b| == 32 * n
    ensures IsHole(Erased(b, n))
  {
    if n > 0 {
      ErasedHole(b[32..], n - 1);
      assert Erased(b, n)[32..] == Erased(b[32..], n - 1);
    }
  }

  lemma ErasedSlot(b: seq<byte>, n: nat)
    requires 0 < n && 32 * n <= |b|
    ensures Erased(b, n) == [EMPTY] + b[1..32] + Erased(b[32..], n - 1)
  {
  }

  lemma {:induction false} ErasedOneMore(b: seq<byte>, n: nat)
    requires 32 * n + 32 <= |b|
    ensures Erased(b, n + 1) == Splice(Erased(b, n), 32 * n, [EMPTY])
  {
    if n == 0 {
      assert Erased(b[32..], 0) == b[32..];
    } else {
      hide Erased;
      ErasedOneMore(b[32..], n - 1);
      ErasedSlot(b, n);
      ErasedSlot(b, n + 1);
    }
  }

  /** eremove's next turn. */
  lemma EraseStep(b: seq<byte>, off: nat, x: seq<byte>, n: nat)
    requires 32 * n + 32 <= |x| && off + |x| <= |b|
    ensures Splice(Splice(b, off, Erased(x, n)), off + 32 * n, [EMPTY]) == Splice(b, off, Erased(x, n + 1))
  {
    ErasedOneMore(x, n);
  }

  lemma {:induction false} HolesAreOne(items: seq<Item>)
    requires forall i :: 0 <= i < |items| ==> items[i].Hole? && Good(items[i])
    ensures IsHole(Bytes(items))
  {
    if items != [] {
      HolesAreOne(items[1..]);
      HoleJoin(items[0].bytes, Bytes(items[1..]));
    }
  }

  lemma {:induction false} HoleJoin(a: seq<byte>, b: seq<byte>)
    requires IsHole(a) && IsHole(b)
    ensures IsHole(a + b)
  {
    if a == [] {
      assert a + b == b;
    } else {
      HoleJoin(a[32..], b);
      assert (a + b)[32..] == a[32..] + b;
    }
  }

  /** What is left of the holes behind item e when nb has been written over them. */
  function LeftOver(items: seq<Item>, e: nat, nb: seq<byte>): (l: Item)
    requires e <= |items|
    ensures l.Hole?
  {
    var h := Bytes(items[e..]);
    Hole(if |nb| <= |h| then h[|nb|..] else [])
  }

  function With(items: seq<Item>, e: nat, nb: seq<byte>, r: Rec): seq<Item>
    requires e <= |items|
  {
    items[..e] + [File(nb, r), LeftOver(items, e, nb)]
  }

  lemma WithBytes(items: seq<Item>, e: nat, nb: seq<byte>, r: Rec)
    requires e <= |items|
    ensures Bytes(With(items, e, nb, r)) == Bytes(items[..e]) + nb + LeftOver(items, e, nb).bytes
  {
    BytesAppend(items[..e], [File(nb, r), LeftOver(items, e, nb)]);
    var two := [File(nb, r), LeftOver(items, e, nb)];
    assert two[1..] == [LeftOver(items, e, nb)];
    assert Bytes(two[1..]) == LeftOver(items, e, nb).bytes;
  }

  lemma LeftOverHole(items: seq<Item>, e: nat, nb: seq<byte>)
    requires e <= |items| && (forall i :: e <= i < |items| ==> items[i].Hole? && Good(items[i])) && |nb| % 32 == 0
    ensures IsHole(LeftOver(items, e, nb).bytes)
  {
    var h := Bytes(items[e..]);
    HolesAreOne(items[e..]);
    if |nb| <= |h| {
      HoleRest(h, |nb| / 32);
    }
  }

  lemma HoldsSplit(b: seq<byte>, items: seq<Item>, e: nat)
    requires Holds(b, items) && e <= |items|
    ensures var p, h := Bytes(items[..e]), Bytes(items[e..]);
            |p| + |h| <= |b| && b[..|p| + |h|] == p + h
            && Zeros(b[|p| + |h|..])
  {
    hide Good, Zeros;
    assert items == items[..e] + items[e..];
    BytesAppend(items[..e], items[e..]);
  }

  /** emake behind the last file: over the holes there, if any, and on into fresh slots. */
  lemma Made(b: seq<byte>, items: seq<Item>, e: nat, nb: seq<byte>, r: Rec, n: nat)
    requires Holds(b, items) && e <= |items| && (forall i :: e <= i < |items| ==> items[i].Hole?)
    requires Encodes(nb, r) && |b| <= n && Pos(items, e) + |nb| <= n
    ensures |Pad(b, n)| == n && Holds(Splice(Pad(b, n), Pos(items, e), nb), With(items, e, nb, r))
  {
    hide Encodes, Splice, Pad, Bytes, With, Zeros, IsHole;
    HoldsSplit(b, items, e);
    Overwritten(b, Bytes(items[..e]), Bytes(items[e..]), nb, n);
    WithBytes(items, e, nb, r);
    EncodesLength(nb, r);
    LeftOverHole(items, e, nb);
    GoodWith(items, e, nb, r);
  }

  lemma GoodWith(items: seq<Item>, e: nat, nb: seq<byte>, r: Rec)
    requires e <= |items| && (forall i :: 0 <= i < e ==> Good(items[i])) && Encodes(nb, r)
        && IsHole(LeftOver(items, e, nb).bytes)
    ensures forall i :: 0 <= i < |With(items, e, nb, r)| ==> Good(With(items, e, nb, r)[i])
  {
    hide Encodes, IsHole, LeftOver;
  }

  /** Bytes nb written behind p, over h and perhaps over the zeros behind it. */
  lemma Overwritten(b: seq<byte>, p: seq<byte>, h: seq<byte>, nb: seq<byte>, n: nat)
    requires |p| + |h| <= |b| <= n && b[..|p| + |h|] == p + h && Zeros(b[|p| + |h|..]) && |p| + |nb| <= n
    ensures |Pad(b, n)| == n
    ensures var c, l := Splice(Pad(b, n), |p|, nb), if |nb| <= |h| then h[|nb|..] else [];
            |p| + |nb| + |l| <= |c| && c[..|p| + |nb| + |l|] == p + nb + l && Zeros(c[|p| + |nb| + |l|..])
  {
    assert forall i :: 0 <= i < |p| + |h| ==> b[i] == (p + h)[i];
    assert forall i :: |p| + |h| <= i < |b| ==> b[i] == b[|p| + |h|..][i - |p| - |h|];
  }

  // ----- the map -----

  lemma WithItems(items: seq<Item>, e: nat, nb: seq<byte>, r: Rec)
    requires e <= |items|
    ensures var t := With(items, e, nb, r);
            |t| == e + 2 && t[e] == File(nb, r) && t[e + 1].Hole? && forall i :: 0 <= i < e ==> t[i] == items[i]
  {
    hide LeftOver;
  }

  /** A new name is added to the map. */
  lemma MakeView(items: seq<Item>, e: nat, nb: seq<byte>, r: Rec)
    requires Distinct(items) && e <= |items| && (forall i :: e <= i < |items| ==> items[i].Hole?)
        && r.name !in View(items)
    ensures Distinct(With(items, e, nb, r)) && View(With(items, e, nb, r)) == View(items)[r.name := r]
  {
    hide View, With, Distinct;
    var t := With(items, e, nb, r);
    WithItems(items, e, nb, r);
    NotIn(items, r.name);
    MakeDistinct(items, t, e, r);
    forall name
      ensures (name in View(t) <==> name in View(items)[r.name := r])
      ensures name in View(t) ==> View(t)[name] == View(items)[r.name := r][name]
    {
      MakeViewAt(items, t, e, r, name);
    }
  }

  lemma NotIn(items: seq<Item>, name: seq<byte>)
    requires Distinct(items) && name !in View(items)
    ensures forall i :: 0 <= i < |items| && items[i].File? ==> items[i].rec.name != name
  {
    hide View, Distinct;
    ViewIs(items, name);
  }

  lemma MakeDistinct(items: seq<Item>, t: seq<Item>, e: nat, r: Rec)
    requires Distinct(items) && e <= |items| && forall i :: 0 <= i < |items| && items[i].File? ==>
        items[i].rec.name != r.name
    requires |t| == e + 2 && t[e].File? && t[e].rec == r && t[e + 1].Hole? && forall i :: 0 <= i < e ==>
        t[i] == items[i]
    ensures Distinct(t)
  {
  }

  lemma MakeViewAt(items: seq<Item>, t: seq<Item>, e: nat, r: Rec, name: seq<byte>)
    requires Distinct(items) && Distinct(t) && e <= |items| && (forall i :: e <= i < |items| ==> items[i].Hole?)
    requires |t| == e + 2 && t[e].File? && t[e].rec == r && t[e + 1].Hole? && forall i :: 0 <= i < e ==>
        t[i] == items[i]
    ensures name in View(t) <==> name == r.name || name in View(items)
    ensures name in View(t) ==> View(t)[name] == if name == r.name then r else View(items)[name]
  {
    hide View;
    ViewIs(items, name);
    ViewIs(t, name);
    if name == r.name {
      assert t[e].rec.name == name;
    } else if name in View(items) {
      var k :| 0 <= k < |items| && items[k].File? && items[k].rec.name == name;
      assert t[k] == items[k];
    }
  }

  /** Changing a file's first cluster and size changes just that file. */
  lemma UpdateView(items: seq<Item>, k: nat, nb: seq<byte>, r: Rec)
    requires Distinct(items) && k < |items| && items[k].File? && r.name == items[k].rec.name
    ensures Distinct(items[k := File(nb, r)]) && View(items[k := File(nb, r)]) == View(items)[r.name := r]
  {
    var t := items[k := File(nb, r)];
    forall name
      ensures (name in View(t) <==> name in View(items)[r.name := r])
      ensures name in View(t) ==> View(t)[name] == View(items)[r.name := r][name]
    {
      ViewIs(items, name);
      ViewIs(t, name);
      if name in View(items) && name != r.name {
        var j :| 0 <= j < |items| && items[j].File? && items[j].rec.name == name;
        assert t[j] == items[j];
      }
      assert t[k] == File(nb, r);
    }
  }

  /** Removing a file removes just its name. */
  lemma RemoveView(items: seq<Item>, k: nat, h: seq<byte>)
    requires Distinct(items) && k < |items| && items[k].File?
    ensures Distinct(items[k := Hole(h)]) && View(items[k := Hole(h)]) == View(items) - {items[k].rec.name}
  {
    var t := items[k := Hole(h)];
    forall name
      ensures (name in View(t) <==> name in View(items) - {items[k].rec.name})
      ensures name in View(t) ==> View(t)[name] == (View(items) - {items[k].rec.name})[name]
    {
      ViewIs(items, name);
      ViewIs(t, name);
      if name in View(items) && name != items[k].rec.name {
        var j :| 0 <= j < |items| && items[j].File? && items[j].rec.name == name;
        assert t[j] == items[j];
      }
    }
  }

  // ----- what a search by name comes upon -----

  /** enext reports the slots of hole k: they are not the last thing in the directory. */
  predicate Inner(items: seq<Item>, k: nat)
    requires k < |items|
  {
    items[k].Hole? && items[k].bytes != [] && exists m :: k < m < |items| && items[m].File?
  }

  /** dirlookup takes item k for the file: its name is right, or the name is empty, as it is after memset at a hole. */
  predicate Hits(items: seq<Item>, k: nat, name: seq<byte>) {
    k < |items| && if items[k].File? then items[k].rec.name == name else name == [] && Inner(items, k)
  }

  /** Item k is the first one that is taken for the file. */
  predicate FirstHit(items: seq<Item>, k: nat, name: seq<byte>) {
    Hits(items, k, name) && forall j :: 0 <= j < k ==> !Hits(items, j, name)
  }

  predicate NoHit(items: seq<Item>, name: seq<byte>) {
    forall j :: 0 <= j < |items| ==> !Hits(items, j, name)
  }

  /** What is found, or that nothing is, is what the map says. */
  ghost predicate LookedUpRight(items: seq<Item>, name: seq<byte>) {
    && (NoHit(items, name) ==> name !in View(items))
    && (forall k: nat :: FirstHit(items, k, name) ==>
        items[k].File? && name in View(items) && View(items)[name] == items[k].rec)
  }

  /** The file with the empty name comes before item j. */
  predicate Before(items: seq<Item>, j: nat)
    requires j <= |items|
  {
    exists i :: 0 <= i < j && items[i].File? && items[i].rec.name == []
  }

  /** The search is right exactly if the name is not empty or no hole comes before the file that has the empty name. */
  lemma LookupRight(items: seq<Item>, name: seq<byte>)
    requires Distinct(items)
    ensures LookedUpRight(items, name) <==>
            name != [] || forall j :: 0 <= j < |items| && Inner(items, j) ==> Before(items, j)
  {
    hide View, Distinct, Inner, Before;
    ViewIs(items, name);
    if k: nat :| k < |items| && items[k].File? && items[k].rec.name == name {
      assert Hits(items, k, name);
    }
    if name != [] {
    } else if j: nat :| j < |items| && Inner(items, j) && !Before(items, j) {
      InnerHole(items, j);
      var k := SomeFirst(items, j, name);
      NotBefore(items, j, k);
    } else {
      forall k: nat | FirstHit(items, k, name)
        ensures items[k].File?
      {
        if items[k].Hole? {
          SomeBefore(items, k);
        }
      }
    }
  }

  lemma InnerHole(items: seq<Item>, j: nat)
    requires j < |items| && Inner(items, j)
    ensures items[j].Hole?
  {
  }

  lemma NotBefore(items: seq<Item>, j: nat, i: nat)
    requires j <= |items| && !Before(items, j)
    ensures i < j && items[i].File? ==> items[i].rec.name != []
  {
  }

  lemma SomeBefore(items: seq<Item>, j: nat)
    requires j <= |items| && Before(items, j)
    ensures exists i :: 0 <= i < j && Hits(items, i, [])
  {
    var i :| 0 <= i < j && items[i].File? && items[i].rec.name == [];
    assert Hits(items, i, []);
  }

  lemma {:induction false} SomeFirst(items: seq<Item>, j: nat, name: seq<byte>) returns (k: nat)
    requires Hits(items, j, name)
    ensures k <= j && FirstHit(items, k, name)
  {
    hide Hits;
    if i :| 0 <= i < j && Hits(items, i, name) {
      k := SomeFirst(items, i, name);
    } else {
      k := j;
    }
  }

  /** mkdir("...") in a directory with a hole in front of a file: the hole is found. */
  lemma DotsFindAHole(h: seq<byte>, b: seq<byte>, r: Rec)
    requires IsHole(h) && h != [] && Encodes(b, r) && r.name != []
    ensures Format(['.' as int, '.' as int, '.' as int]) == Some([])
    ensures var items := [Hole(h), File(b, r)];
            && (forall i :: 0 <= i < |items| ==> Good(items[i])) && Distinct(items)
            && FirstHit(items, 0, []) && [] !in View(items) && !LookedUpRight(items, [])
  {
    hide IsHole, Encodes;
    FormatIs(['.' as int, '.' as int, '.' as int]);
    var items := [Hole(h), File(b, r)];
    assert items[1].File?;
    assert Inner(items, 0);
    assert FirstHit(items, 0, []);
    ViewIs(items, []);
  }
}
