/** Byte sequences made of blocks of equal size. */
module ByteSeq {

  type byte = x: int | 0 <= x < 256

  /** s with d written over it from position o. */
  function Splice(s: seq<byte>, o: nat, d: seq<byte>): (r: seq<byte>)
    requires o + |d| <= |s|
    ensures |r| == |s|
  {
    s[..o] + d + s[o + |d|..]
  }

  function Concat(ss: seq<seq<byte>>): seq<byte> {
    if ss == [] then [] else ss[0] + Concat(ss[1..])
  }

  ghost predicate Blocks(ss: seq<seq<byte>>, b: nat) { forall i :: 0 <= i < |ss| ==> |ss[i]| == b }

  /** q blocks of b bytes. */
  function Times(q: nat, b: nat): nat { if q == 0 then 0 else b + Times(q - 1, b) }

  lemma {:induction false} TimesIs(q: nat, b: nat)
    ensures Times(q, b) == q * b
  {
    if q > 0 {
      TimesIs(q - 1, b);
      assert q * b == (q - 1) * b + b;
    }
  }

  lemma {:induction false} TimesMore(q: nat, k: nat, b: nat)
    requires q <= k
    ensures Times(q, b) <= Times(k, b)
  {
    if q < k {
      TimesMore(q, k - 1, b);
    }
  }

  /** Division and remainder name a block and a place in it. */
  lemma Places(off: nat, b: nat)
    requires b > 0
    ensures off == Times(off / b, b) + off % b
  {
    TimesIs(off / b, b);
    Euclid(off, b);
  }

  lemma Euclid(off: nat, b: nat)
    requires b > 0
    ensures off == off / b * b + off % b
  {
  }

  lemma {:induction false} PlacesBelow(off: nat, b: nat, q: nat)
    requires b > 0 && off < Times(q, b)
    ensures off / b < q
  {
    Places(off, b);
    if off / b >= q {
      TimesMore(q, off / b, b);
    }
  }

  lemma ModBelow(x: nat, b: nat)
    requires b > 0
    ensures 0 <= x / b && 0 <= x % b < b
  {
  }

  lemma {:induction false} ConcatLength(ss: seq<seq<byte>>, b: nat)
    requires Blocks(ss, b)
    ensures |Concat(ss)| == Times(|ss|, b)
  {
    if ss != [] {
      ConcatLength(ss[1..], b);
    }
  }

  /** Bytes inside block q are found behind q blocks. */
  lemma {:induction false} ConcatSlice(ss: seq<seq<byte>>, b: nat, q: nat, r: nat, m: nat)
    requires Blocks(ss, b) && q < |ss| && r + m <= b
    ensures Times(q, b) + r + m <= |Concat(ss)|
    ensures Concat(ss)[Times(q, b) + r..Times(q, b) + r + m] == ss[q][r..r + m]
  {
    ConcatLength(ss, b);
    if q == 0 {
      assert Concat(ss)[r..r + m] == ss[0][r..r + m];
    } else {
      ConcatSlice(ss[1..], b, q - 1, r, m);
      var o := Times(q - 1, b) + r;
      assert Concat(ss)[b + o..b + o + m] == Concat(ss[1..])[o..o + m];
    }
  }

  lemma SpliceFront(s: seq<byte>, t: seq<byte>, o: nat, d: seq<byte>)
    requires o + |d| <= |s|
    ensures Splice(s + t, o, d) == Splice(s, o, d) + t
  {
  }

  lemma SpliceBehind(s: seq<byte>, t: seq<byte>, o: nat, d: seq<byte>)
    requires o + |d| <= |t|
    ensures Splice(s + t, |s| + o, d) == s + Splice(t, o, d)
  {
  }

  /** Writing inside block q is writing behind q blocks. */
  lemma {:induction false} ConcatSplice(ss: seq<seq<byte>>, b: nat, q: nat, r: nat, d: seq<byte>)
    requires Blocks(ss, b) && q < |ss| && r + |d| <= b
    ensures Times(q, b) + r + |d| <= |Concat(ss)|
    ensures Concat(ss[q := Splice(ss[q], r, d)]) == Splice(Concat(ss), Times(q, b) + r, d)
  {
    hide Splice;
    ConcatSlice(ss, b, q, r, |d|);
    var tt := ss[q := Splice(ss[q], r, d)];
    if q == 0 {
      assert tt[1..] == ss[1..];
      SpliceFront(ss[0], Concat(ss[1..]), r, d);
    } else {
      assert tt[1..] == ss[1..][q - 1 := Splice(ss[1..][q - 1], r, d)];
      ConcatSplice(ss[1..], b, q - 1, r, d);
      ConcatSlice(ss[1..], b, q - 1, r, |d|);
      SpliceBehind(ss[0], Concat(ss[1..]), Times(q - 1, b) + r, d);
    }
  }

  lemma {:induction false} ConcatSnoc(ss: seq<seq<byte>>, s: seq<byte>)
    ensures Concat(ss + [s]) == Concat(ss) + s
  {
    if ss == [] {
      assert [s][1..] == [];
      assert [] + [s] == [s];
    } else {
      assert (ss + [s])[1..] == ss[1..] + [s];
      ConcatSnoc(ss[1..], s);
    }
  }

  /** Two writes, one right behind the other, are one. */
  lemma SpliceTwice(s: seq<byte>, o: nat, d: seq<byte>, e: seq<byte>)
    requires o + |d| + |e| <= |s|
    ensures Splice(Splice(s, o, d), o + |d|, e) == Splice(s, o, d + e)
  {
  }
}
