/** FAT32 directory entries as bytes: long and short slots, and what a scan of them finds (kernel/fat32.c). */
module DirEntries {
  import opened ByteSeq
  import opened Options

  const LONG_NAME: byte := 0x0f
  const EMPTY: byte := 0xe5
  const MAX_NAME := 255

  /** The filename field of an entry in memory, 256 bytes, and the four bytes behind it, which hold the attribute. */
  const FIELD := 260

  datatype Rec = Rec(name: seq<byte>, attr: byte, clus: nat, size: nat)

  /** Names that take long slots: 1 to 255 bytes, none a NUL, a control or an 8-bit character, and no dot in front. */
  predicate Legal(name: seq<byte>) {
    1 <= |name| <= MAX_NAME && name[0] != '.' as byte && forall i :: 0 <= i < |name| ==> 0x20 <= name[i] < 0x80
  }

  /** Names as formatname lets them through; of a name of dots and spaces nothing is left. */
  predicate Formatted(name: seq<byte>) { name == [] || Legal(name) }

  // ----- formatname -----

  predicate DotOrSpace(c: byte) { c == '.' as int || c == ' ' as int }

  predicate Illegal(c: byte) {
    c < 0x20 || c >= 0x80 || c == '\"' as int || c == '*' as int || c == '/' as int || c == ':' as int
    || c == '<' as int || c == '>' as int || c == '?' as int || c == '\\' as int || c == '|' as int
  }

  function TrimFront(s: seq<byte>): seq<byte> { if s == [] || !DotOrSpace(s[0]) then s else TrimFront(s[1..]) }

  function TrimBack(s: seq<byte>): seq<byte> {
    if s == [] || s[|s| - 1] != ' ' as int then s else TrimBack(s[..|s| - 1])
  }

  predicate AllLegal(s: seq<byte>) { forall i :: 0 <= i < |s| ==> !Illegal(s[i]) }

  /** Dots and spaces in front and spaces behind go; None if a character is not allowed. */
  function Format(name: seq<byte>): Option<seq<byte>> {
    var s := TrimFront(name);
    if AllLegal(s) then Some(TrimBack(s)) else None
  }

  lemma {:induction false} TrimmedFront(s: seq<byte>)
    ensures TrimFront(s) == [] <==> forall i :: 0 <= i < |s| ==> DotOrSpace(s[i])
    ensures |TrimFront(s)| <= |s| && (TrimFront(s) != [] ==> !DotOrSpace(TrimFront(s)[0]))
  {
    if s != [] && DotOrSpace(s[0]) {
      TrimmedFront(s[1..]);
      assert s == [s[0]] + s[1..];
    }
  }

  lemma {:induction false} TrimmedBack(s: seq<byte>)
    requires s != [] ==> s[0] != ' ' as int
    ensures TrimBack(s) <= s && (s != [] ==> TrimBack(s) != [] && TrimBack(s)[|TrimBack(s)| - 1] != ' ' as int)
  {
    if s != [] && s[|s| - 1] == ' ' as int {
      TrimmedBack(s[..|s| - 1]);
    }
  }

  /** What formatname lets through takes long slots, or is empty; it is empty exactly for names of dots and spaces. */
  lemma FormatIs(name: seq<byte>)
    requires |name| <= MAX_NAME
    ensures Format(name).Some? ==> Formatted(Format(name).value) && Format(Format(name).value) == Format(name)
    ensures Format(name) == Some([]) <==> forall i :: 0 <= i < |name| ==> DotOrSpace(name[i])
  {
    var s := TrimFront(name);
    TrimmedFront(name);
    TrimmedBack(s);
  }

  /**
   A name is refused exactly if it has one of the nine signs, a control character or an 8-bit one; of any other name
   goes what stands in front of the first character that is no dot and no space, and the spaces behind the last.
   */
  lemma FormatMeans(name: seq<byte>)
    ensures Format(name).None? <==>
            exists i :: 0 <= i < |name| && (name[i] < 32 || name[i] >= 128 || name[i] in NINE_SIGNS)
    ensures Format(name).Some? ==>
            exists i, j :: 0 <= i <= j <= |name| && Trims(name, i, j) && Format(name).value == name[i..j]
  {
    var i := FrontIs(name);
    var s := name[i..];
    assert TrimFront(name) == s;
    forall k | 0 <= k < |name|
      ensures Illegal(name[k]) ==> i <= k && s[k - i] == name[k]
    {
    }
    var j := BackIs(s);
    assert s[..j] == name[i..i + j];
    assert Trims(name, i, i + j);
  }

  const NINE_SIGNS: seq<byte> := [34, 42, 47, 58, 60, 62, 63, 92, 124]

  predicate Trims(name: seq<byte>, i: nat, j: nat)
    requires i <= j <= |name|
  {
    && (forall k :: 0 <= k < i ==> name[k] == 32 || name[k] == 46) && (forall k :: j <= k < |name| ==> name[k] == 32)
    && (i < j ==> name[i] != 32 && name[i] != 46 && name[j - 1] != 32)
  }

  lemma {:induction false} FrontIs(name: seq<byte>) returns (i: nat)
    ensures i <= |name| && TrimFront(name) == name[i..] && (i < |name| ==> name[i] != 32 && name[i] != 46)
    ensures forall k :: 0 <= k < i ==> name[k] == 32 || name[k] == 46
  {
    i := 0;
    if name != [] && DotOrSpace(name[0]) {
      i := FrontIs(name[1..]);
      assert name[1..][i..] == name[i + 1..];
      assert forall k :: 0 < k < |name| ==> name[k] == name[1..][k - 1];
      i := i + 1;
    }
  }

  lemma {:induction false} BackIs(s: seq<byte>) returns (j: nat)
    ensures j <= |s| && TrimBack(s) == s[..j] && (j > 0 ==> s[j - 1] != 32)
    ensures forall k :: j <= k < |s| ==> s[k] == 32
  {
    j := |s|;
    if s != [] && s[|s| - 1] == 32 {
      j := BackIs(s[..|s| - 1]);
      assert s[..|s| - 1][..j] == s[..j];
      assert forall k :: 0 <= k < |s| - 1 ==> s[k] == s[..|s| - 1][k];
    }
  }

  /** formatname. */
  method FormatName(name: seq<byte>) returns (r: Option<seq<byte>>)
    ensures r == Format(name)
  {
    hide Illegal, DotOrSpace;
    var i := 0;
    assert name[0..] == name;
    while i < |name| && DotOrSpace(name[i])
      invariant 0 <= i <= |name| && TrimFront(name) == TrimFront(name[i..])
    {
      assert name[i..][1..] == name[i + 1..];
      i := i + 1;
    }
    var s := name[i..];
    assert s == TrimFront(name);
    var p := 0;
    while p < |s|
      invariant 0 <= p <= |s| && forall j :: 0 <= j < p ==> !Illegal(s[j])
    {
      if Illegal(s[p]) {
        return None;
      }
      p := p + 1;
    }
    assert s[..p] == s;
    while p > 0 && s[p - 1] == ' ' as int
      invariant 0 <= p <= |s| && TrimBack(s) == TrimBack(s[..p])
    {
      assert s[..p][..p - 1] == s[..p - 1];
      p := p - 1;
    }
    assert s[..p] == TrimBack(s);
    r := Some(s[..p]);
  }

  /** How many long slots a name takes. */
  function LongCount(name: seq<byte>): nat { (|name| + 12) / 13 }

  lemma LongCountIs(name: seq<byte>)
    requires Legal(name)
    ensures 1 <= LongCount(name) <= 20 && 13 * (LongCount(name) - 1) < |name| <= 13 * LongCount(name)
  {
  }

  // ----- one slot -----

  /** Where the j-th character of a long slot stands: five, six and two of them. */
  function At(j: nat): (p: nat)
    requires j < 13
    ensures 0 < p <= 30
  {
    if j < 5 then 1 + 2 * j else if j < 11 then 14 + 2 * (j - 5) else 28 + 2 * (j - 11)
  }

  /** Characters do not overlap, nor do they touch the order, the attribute or the checksum. */
  lemma AtApart(j: nat, k: nat)
    requires j < 13 && k < 13
    ensures At(j) + 1 < 32 && (j < k ==> At(j) + 1 < At(k))
    ensures At(j) != 11 && At(j) + 1 != 11 && At(j) != 13 && At(j) + 1 != 13
  {
  }

  function Wide(s: seq<byte>, j: nat): nat
    requires |s| == 32 && j < 13
  {
    s[At(j)] as int + 256 * s[At(j) + 1] as int
  }

  /** The k-th character of a name as a long slot has it: a NUL behind the last one, then 0xffff. */
  function Char(name: seq<byte>, k: nat): nat {
    if k < |name| then name[k] else if k == |name| then 0 else 0xffff
  }

  function Order(n: nat, i: nat): nat { if i == n then i + 0x40 else i }

  predicate IsLast(order: byte) { order / 0x40 % 2 == 1 }

  function Number(order: byte): nat { if IsLast(order) then order - 0x40 else order }

  lemma OrderRead(n: nat, i: nat)
    requires 1 <= i <= n <= 20
    ensures 0 < Order(n, i) < 0x80 && Number(Order(n, i)) == i && (IsLast(Order(n, i)) <==> i == n)
  {
  }

  /** s is the i-th long slot of name. */
  predicate Segment(s: seq<byte>, name: seq<byte>, i: nat) {
    && |s| == 32 && i > 0 && s[0] == Order(LongCount(name), i) && s[11] == LONG_NAME
    && forall j :: 0 <= j < 13 ==> Wide(s, j) == Char(name, 13 * (i - 1) + j)
  }

  function ClusOf(s: seq<byte>): nat
    requires |s| == 32
  {
    (s[20] as int + 256 * s[21] as int) * 0x10000 + s[26] as int + 256 * s[27] as int
  }

  function SizeOf(s: seq<byte>): nat
    requires |s| == 32
  {
    s[28] as int + 256 * s[29] as int + 0x10000 * (s[30] as int + 256 * s[31] as int)
  }

  /** s is a short slot with the attribute, first cluster and size of r. */
  predicate Short(s: seq<byte>, r: Rec) {
    |s| == 32 && s[0] != 0 && s[0] != EMPTY && r.attr != LONG_NAME && s[11] == r.attr && ClusOf(s) == r.clus
        && SizeOf(s) == r.size
  }

  // ----- all slots of a file -----

  /** The long slots i, i - 1, ... 1 of the name, then the short slot. */
  predicate Run(b: seq<byte>, r: Rec, i: nat)
    decreases i
  {
    if i == 0 then Short(b, r)
    else |b| > 32 && Segment(b[..32], r.name, i) && Run(b[32..], r, i - 1)
  }

  /** b are the slots of r: long ones and a short one, or for ".", ".." and the empty name just a short one. */
  predicate Encodes(b: seq<byte>, r: Rec) {
    if Legal(r.name) then Run(b, r, LongCount(r.name)) else Lone(b, r)
  }

  predicate Lone(b: seq<byte>, r: Rec) {
    && Short(b, r) && (r.name == [] || r.name == ['.' as byte] || r.name == ['.' as byte, '.' as byte])
    && forall i :: 0 <= i < 11 ==> b[i] == if i < |r.name| then r.name[i] else ' ' as byte
  }

  /** The number of slots r takes. */
  function Slots(r: Rec): nat { if Legal(r.name) then LongCount(r.name) + 1 else 1 }

  lemma {:induction false} RunLength(b: seq<byte>, r: Rec, i: nat)
    requires Run(b, r, i)
    ensures |b| == 32 * i + 32
  {
    if i > 0 {
      RunLength(b[32..], r, i - 1);
    }
  }

  lemma EncodesLength(b: seq<byte>, r: Rec)
    requires Encodes(b, r)
    ensures |b| == 32 * Slots(r)
  {
    if Legal(r.name) {
      RunLength(b, r, LongCount(r.name));
    }
  }

  // ----- reading a slot -----

  /** How many characters of ws stand before the first NUL. */
  function Stop(ws: seq<int>): (z: nat)
    ensures z <= |ws| && (z < |ws| ==> ws[z] == 0) && forall i :: 0 <= i < z ==> ws[i] != 0
  {
    if ws == [] || ws[0] == 0 then 0 else 1 + Stop(ws[1..])
  }

  /** What snstr leaves in buf: the low bytes up to a NUL, then NULs, but none at the very last place. */
  function Narrow(buf: seq<byte>, at: nat, ws: seq<int>): (r: seq<byte>)
    requires at + |ws| <= |buf|
    ensures |r| == |buf|
  {
    seq(|buf|, k requires 0 <= k < |buf| =>
      if at <= k < at + Stop(ws) then ws[k - at] % 256 else if at + Stop(ws) <= k < at + |ws| - 1 then 0 else buf[k])
  }

  function Wides(s: seq<byte>, j: nat, n: nat): (r: seq<int>)
    requires |s| == 32 && j + n <= 13
    ensures |r| == n
  {
    seq(n, i requires 0 <= i < n => Wide(s, j + i))
  }

  /** read_entry_name, long branch. */
  function LongName(buf: seq<byte>, at: nat, s: seq<byte>): (r: seq<byte>)
    requires at + 13 <= |buf| && |s| == 32
    ensures |r| == |buf|
  {
    Narrow(Narrow(Narrow(buf, at, Wides(s, 0, 5)), at + 5, Wides(s, 5, 6)), at + 11, Wides(s, 11, 2))
  }

  /** read_entry_name, short branch: eight characters and an extension of three. */
  function ShortName(s: seq<byte>): (r: seq<byte>)
    requires |s| == 32
    ensures |r| <= 12
  {
    Front(s) + Until(s[8..11])
  }

  function Until(s: seq<byte>): (r: seq<byte>)
    ensures |r| <= |s|
  {
    if s == [] || s[0] == ' ' as byte then [] else [s[0]] + Until(s[1..])
  }

  function ShortInto(buf: seq<byte>, s: seq<byte>): (r: seq<byte>)
    requires |buf| >= 13 && |s| == 32
    ensures |r| == |buf|
  {
    Thirteen(buf, ShortName(s))
  }

  /** The first 13 bytes of buf become name and NULs. */
  function Thirteen(buf: seq<byte>, name: seq<byte>): (r: seq<byte>)
    requires |buf| >= 13 >= |name|
    ensures |r| == |buf|
  {
    name + seq(13 - |name|, i => 0) + buf[13..]
  }

  /** The eight characters of a short name, and the dot if an extension follows. */
  function Front(s: seq<byte>): (r: seq<byte>)
    requires |s| == 32
    ensures |r| <= 9
  {
    Until(s[..8]) + (if s[8] != ' ' as byte then ['.' as byte] else [])
  }

  /** The filename field as a C string. */
  function CString(buf: seq<byte>): seq<byte> {
    if buf == [] || buf[0] == 0 then [] else [buf[0]] + CString(buf[1..])
  }

  /** A short name with an extension is read with a dot in front of it. */
  lemma ShortNameReads(s: seq<byte>, front: seq<byte>, ext: seq<byte>)
    requires |s| == 32 && |front| <= 8 && |ext| <= 3 && 32 !in front && 32 !in ext
    requires forall i :: 0 <= i < 8 ==> s[i] == if i < |front| then front[i] else 32
    requires forall i :: 8 <= i < 11 ==> s[i] == if i - 8 < |ext| then ext[i - 8] else 32
    ensures ShortName(s) == if ext == [] then front else front + [46] + ext
  {
    UntilIs(s[..8], |front|);
    assert s[..8][..|front|] == front;
    var t := s[8..11];
    assert t[0] == s[8] && t[1] == s[9] && t[2] == s[10];
    assert forall i :: 0 <= i < |ext| ==> t[i] == ext[i];
    assert |ext| < 3 ==> t[|ext|] == 32;
    UntilIs(s[8..11], |ext|);
    assert s[8..11][..|ext|] == ext;
  }

  lemma UntilIs(s: seq<byte>, z: nat)
    requires z <= |s| && (forall i :: 0 <= i < z ==> s[i] != ' ' as byte) && (z == |s| || s[z] == ' ' as byte)
    ensures Until(s) == s[..z]
  {
    if z > 0 {
      UntilIs(s[1..], z - 1);
      assert s[..z] == [s[0]] + s[1..][..z - 1];
    }
  }

  lemma {:induction false} CStringIs(buf: seq<byte>, name: seq<byte>)
    requires |buf| > |name| && buf[..|name|] == name && buf[|name|] == 0
    requires forall i :: 0 <= i < |name| ==> name[i] != 0
    ensures CString(buf) == name
  {
    if name != [] {
      assert buf[1..][..|name| - 1] == name[1..];
      CStringIs(buf[1..], name[1..]);
    }
  }

  // ----- scanning -----

  /** What enext reports. Fault: a slot makes the code write outside the entry or through a null pointer. */
  datatype Next = End | Holes(count: nat, buf: seq<byte>)
      | Found(buf: seq<byte>, attr: byte, clus: nat, size: nat, count: nat) | Fault

  /**
   enext's loop over the bytes b of the directory behind its offset. cnt: the empty slots seen; open: the count
   has not been set by a last long slot; count: what it was set to; buf: the filename field.
   */
  function Scan(b: seq<byte>, cnt: nat, open: bool, count: nat, buf: seq<byte>): Next
    requires |buf| == FIELD
  {
    if |b| < 32 || b[0] == 0 then End
    else if b[0] == EMPTY then Scan(b[32..], cnt + 1, open, count, buf)
    else if cnt > 0 then Holes(cnt, buf)
    else if b[11] == LONG_NAME then
      if Number(b[0]) == 0 || Number(b[0]) > 20 || (IsLast(b[0]) && !open) then Fault
      else Scan(b[32..], 0, open && !IsLast(b[0]), if IsLast(b[0]) then Number(b[0]) + 1 else count,
                LongName(buf, 13 * (Number(b[0]) - 1), b[..32]))
    else Found(if open then ShortInto(buf, b[..32]) else buf, b[11], ClusOf(b[..32]), SizeOf(b[..32]), if open then 1
        else count)
  }

  /** The filename field as enext starts with it: NULs, and whatever stood behind it. */
  predicate Blanked(buf: seq<byte>) { |buf| == FIELD && forall i :: 0 <= i < 256 ==> buf[i] == 0 }

  /** The name is in the field from segment i on, and the rest of the field is clear. */
  predicate Filled(buf: seq<byte>, name: seq<byte>, i: nat) {
    && |buf| == FIELD > |name|
    && (forall k :: 13 * i <= k < |name| ==> buf[k] == name[k])
    && (forall k :: 0 <= k < 13 * i && k < 256 ==> buf[k] == 0)
    && buf[|name|] == 0
  }

  lemma NarrowAt(buf: seq<byte>, at: nat, ws: seq<int>, name: seq<byte>, k: nat)
    requires at + |ws| <= |buf| && forall i :: 0 <= i < |name| ==> 0 < name[i]
    requires forall j :: 0 <= j < |ws| ==> ws[j] == Char(name, at + j)
    requires k < |buf|
    ensures at <= k < at + |ws| && k < |name| ==> Narrow(buf, at, ws)[k] == name[k]
    ensures at <= k < at + |ws| && k == |name| && buf[k] == 0 ==> Narrow(buf, at, ws)[k] == 0
    ensures !(at <= k < at + |ws|) ==> Narrow(buf, at, ws)[k] == buf[k]
  {
    var z := Stop(ws);
    if at <= k < at + |ws| && k <= |name| {
      assert forall j :: 0 <= j < k - at ==> ws[j] != 0;
      assert z >= k - at;
      assert ws[k - at] == Char(name, k);
    }
  }

  lemma LongNameAt(buf: seq<byte>, s: seq<byte>, name: seq<byte>, i: nat, k: nat)
    requires |buf| == FIELD && Legal(name) && Segment(s, name, i) && i <= 20 && k < FIELD
    ensures 13 * (i - 1) <= k < 13 * i && k < |name| ==> LongName(buf, 13 * (i - 1), s)[k] == name[k]
    ensures k == |name| && buf[k] == 0 ==> LongName(buf, 13 * (i - 1), s)[k] == 0
    ensures !(13 * (i - 1) <= k < 13 * i) ==> LongName(buf, 13 * (i - 1), s)[k] == buf[k]
  {
    hide Narrow, Char, Wide;
    var at := 13 * (i - 1);
    var b1 := Narrow(buf, at, Wides(s, 0, 5));
    var b2 := Narrow(b1, at + 5, Wides(s, 5, 6));
    NarrowAt(buf, at, Wides(s, 0, 5), name, k);
    NarrowAt(b1, at + 5, Wides(s, 5, 6), name, k);
    NarrowAt(b2, at + 11, Wides(s, 11, 2), name, k);
  }

  lemma LongNameFills(buf: seq<byte>, s: seq<byte>, name: seq<byte>, i: nat)
    requires |s| == 32 && Legal(name) && 1 <= i <= LongCount(name) && Filled(buf, name, i) && Segment(s, name, i)
    ensures 13 * i <= FIELD && Filled(LongName(buf, 13 * (i - 1), s), name, i - 1)
  {
    hide LongName, Segment;
    var t := LongName(buf, 13 * (i - 1), s);
    forall k | 0 <= k < FIELD
      ensures 13 * (i - 1) <= k < |name| ==> t[k] == name[k]
      ensures k < 13 * (i - 1) && k < 256 ==> t[k] == 0
      ensures k == |name| ==> t[k] == 0
    {
      LongNameAt(buf, s, name, i, k);
    }
  }

  /** What a scan finds where the slots of r stand. */
  ghost predicate Finds(n: Next, r: Rec) {
    n.Found? && CString(n.buf) == r.name && n.attr == r.attr && n.clus == r.clus && n.size == r.size
        && n.count == Slots(r)
  }

  lemma {:induction false} ScanRun(b: seq<byte>, r: Rec, i: nat, rest: seq<byte>, open: bool, count: nat,
      buf: seq<byte>)
    requires Legal(r.name) && Run(b, r, i) && i <= LongCount(r.name) && Filled(buf, r.name, i)
    requires if i == LongCount(r.name) then open else !open && count == Slots(r)
    ensures Finds(Scan(b + rest, 0, open, count, buf), r)
    decreases i
  {
    hide LongName, Char, Wide;
    LongCountIs(r.name);
    RunLength(b, r, i);
    var c := b + rest;
    assert c[..32] == b[..32];
    if i == 0 {
      CStringIs(buf, r.name);
    } else {
      OrderRead(LongCount(r.name), i);
      assert c[32..] == b[32..] + rest;
      LongNameFills(buf, b[..32], r.name, i);
      ScanRun(b[32..], r, i - 1, rest, false, Slots(r), LongName(buf, 13 * (i - 1), b[..32]));
    }
  }

  lemma LoneName(s: seq<byte>, r: Rec)
    requires Lone(s, r)
    ensures ShortName(s) == r.name
  {
    assert s[8..11][0] == s[8] == ' ' as byte;
    if r.name == [] {
      assert s[..8][0] == s[0] == ' ' as byte;
    } else if |r.name| == 1 {
      assert Until(s[..8][1..]) == [];
    } else {
      assert s[..8][1..][0] == s[1] && s[..8][1..][1..][0] == s[2];
      assert Until(s[..8][1..][1..]) == [];
    }
  }

  /**
   Whatever stands behind it, a file's run of slots is found with its name, attribute, first cluster, size and count.
   */
  lemma ScanFinds(b: seq<byte>, r: Rec, rest: seq<byte>, buf: seq<byte>)
    requires Encodes(b, r) && Blanked(buf)
    ensures Finds(Scan(b + rest, 0, true, 0, buf), r)
  {
    if Legal(r.name) {
      LongCountIs(r.name);
      ScanRun(b, r, LongCount(r.name), rest, true, 0, buf);
    } else {
      var c := b + rest;
      assert c[..32] == b;
      LoneName(b, r);
      CStringIs(ShortInto(buf, b), r.name);
    }
  }

  /** No file is ever reported with the attribute of a long slot. */
  lemma {:induction false} ScanAttr(b: seq<byte>, cnt: nat, open: bool, count: nat, buf: seq<byte>)
    requires |buf| == FIELD
    ensures Scan(b, cnt, open, count, buf).Found? ==> Scan(b, cnt, open, count, buf).attr != LONG_NAME
    decreases |b|
  {
    hide LongName, ShortInto, ClusOf, SizeOf;
    if |b| >= 32 && b[0] != 0 {
      if b[0] == EMPTY {
        ScanAttr(b[32..], cnt + 1, open, count, buf);
      } else if cnt == 0 && b[11] == LONG_NAME && 0 < Number(b[0]) <= 20 && !(IsLast(b[0]) && !open) {
        ScanAttr(b[32..], 0, open && !IsLast(b[0]), if IsLast(b[0]) then Number(b[0]) + 1 else count,
            LongName(buf, 13 * (Number(b[0]) - 1), b[..32]));
      }
    }
  }

  /** The number of long slots that eupdate and eremove read off the first slot is right exactly if there are any. */
  lemma CountRead(b: seq<byte>, r: Rec)
    requires Encodes(b, r)
    ensures |b| >= 32 && (Number(b[0]) + 1 == Slots(r) <==> Legal(r.name))
    ensures r.name == [] ==> Number(b[0]) == 32
  {
    EncodesLength(b, r);
    if Legal(r.name) {
      LongCountIs(r.name);
      OrderRead(LongCount(r.name), LongCount(r.name));
    }
  }

  // ----- reading names, as written -----

  /** snstr: 16-bit characters become bytes. */
  method Snstr(buf: array<byte>, at: nat, ws: seq<int>)
    requires at + |ws| <= buf.Length
    modifies buf
    ensures buf[..] == Narrow(old(buf[..]), at, ws)
  {
    var n := 0;
    while n < |ws| && ws[n] != 0
      invariant 0 <= n <= Stop(ws)
      invariant forall k :: 0 <= k < buf.Length ==> buf[k] == if at <= k < at + n then ws[k - at] % 256 else old(buf[k])
    {
      buf[at + n] := ws[n] % 256;
      n := n + 1;
    }
    ghost var z := n;
    assert z == Stop(ws);
    if n < |ws| {
      while n + 1 < |ws|
        invariant z <= n < |ws|
        invariant forall k :: 0 <= k < buf.Length ==>
                    buf[k] == if at <= k < at + z then ws[k - at] % 256 else if at + z <= k < at + n then 0
                        else old(buf[k])
      {
        buf[at + n] := 0;
        n := n + 1;
      }
    }
  }

  /** read_entry_name, long branch. */
  method ReadLongName(buf: array<byte>, at: nat, s: seq<byte>)
    requires at + 13 <= buf.Length && |s| == 32
    modifies buf
    ensures buf[..] == LongName(old(buf[..]), at, s)
  {
    hide Narrow, Stop, Wide;
    Snstr(buf, at, Wides(s, 0, 5));
    Snstr(buf, at + 5, Wides(s, 5, 6));
    Snstr(buf, at + 11, Wides(s, 11, 2));
  }

  lemma Extension(s: seq<byte>, j: nat)
    requires |s| == 32 && 8 <= j <= 11 && (forall k :: 8 <= k < j ==> s[k] != ' ' as byte)
        && (j == 11 || s[j] == ' ' as byte)
    ensures Until(s[8..11]) == s[8..j] && (s[8] == ' ' as byte <==> j == 8)
  {
    UntilIs(s[8..11], j - 8);
    assert s[8..11][..j - 8] == s[8..j];
    assert s[8..11][0] == s[8];
  }

  /** read_entry_name, short branch, up to the extension. */
  method ReadFront(buf: array<byte>, s: seq<byte>) returns (i: nat)
    requires buf.Length >= 13 && |s| == 32
    modifies buf
    ensures buf[..] == Thirteen(old(buf[..]), Front(s)) && i == |Front(s)|
  {
    forall k | 0 <= k < 13 {
      buf[k] := 0;
    }
    i := 0;
    while i < 8 && s[i] != ' ' as byte
      invariant 0 <= i <= 8 && forall k :: 0 <= k < i ==> s[k] != ' ' as byte && buf[k] == s[k]
      invariant forall k :: i <= k < buf.Length ==> buf[k] == if k < 13 then 0 else old(buf[k])
    {
      buf[i] := s[i];
      i := i + 1;
    }
    UntilIs(s[..8], i);
    if s[8] != ' ' as byte {
      buf[i] := '.' as byte;
      i := i + 1;
    }
  }

  /** read_entry_name, short branch. */
  method ReadShortName(buf: array<byte>, s: seq<byte>)
    requires buf.Length >= 13 && |s| == 32
    modifies buf
    ensures buf[..] == ShortInto(old(buf[..]), s)
  {
    hide Front, Until;
    var i := ReadFront(buf, s);
    ghost var was, front := old(buf[..]), Front(s);
    var j := 8;
    while j < 11 && s[j] != ' ' as byte
      invariant 8 <= j <= 11 && i == |front| + j - 8 && (forall k :: 8 <= k < j ==> s[k] != ' ' as byte)
      invariant buf[..] == Thirteen(was, front + s[8..j])
    {
      ghost var now := buf[..];
      buf[i] := s[j];
      assert buf[..] == now[i := s[j]];
      ThirteenPut(was, front + s[8..j], s[j]);
      assert front + s[8..j + 1] == front + s[8..j] + [s[j]];
      i, j := i + 1, j + 1;
    }
    Extension(s, j);
  }

  lemma ThirteenPut(buf: seq<byte>, name: seq<byte>, c: byte)
    requires |buf| >= 13 > |name|
    ensures Thirteen(buf, name)[|name| := c] == Thirteen(buf, name + [c])
  {
  }

  // ----- making the slots of a file -----

  /** The bytes of a long slot that are no characters are the same. */
  predicate SameElse(t: seq<byte>, s: seq<byte>) {
    && |t| == |s| == 32 && t[0] == s[0] && t[11] == s[11] && t[12] == s[12] && t[13] == s[13]
    && t[26] == s[26] && t[27] == s[27]
  }

  lemma WidePut(s: seq<byte>, j: nat, m: nat, lo: byte, hi: byte)
    requires |s| == 32 && j < 13 && m < 13
    ensures At(j) + 1 < 32
    ensures var t := s[At(j) := lo][At(j) + 1 := hi];
            Wide(t, m) == (if m == j then lo as int + 256 * hi as int else Wide(s, m)) && SameElse(t, s)
  {
    AtApart(j, j);
    AtApart(m, m);
    if m < j {
      AtApart(m, j);
    } else if j < m {
      AtApart(j, m);
    }
  }

  /** emake's loop over the characters of the i-th long slot. */
  method FillLong(de: seq<byte>, name: seq<byte>, i: nat) returns (t: seq<byte>)
    requires |de| == 32 && Legal(name) && 1 <= i <= LongCount(name)
    ensures SameElse(t, de)
    ensures forall j :: 0 <= j < 13 ==> Wide(t, j) == Char(name, 13 * (i - 1) + j)
  {
    hide Wide, Legal;
    LegalBytes(name);
    LongCountIs(name);
    t := de;
    ghost var base := 13 * (i - 1);
    var p, w, end := 13 * (i - 1), 1, false;
    for j := 1 to 14
      invariant SameElse(t, de)
      invariant j < 14 ==> w == At(j - 1)
      invariant end <==> base + j - 1 > |name|
      invariant !end ==> p == base + j - 1
      invariant forall m :: 0 <= m < j - 1 ==> Wide(t, m) == Char(name, base + m)
    {
      var lo: byte, hi: byte := 0xff, 0xff;
      if !end {
        lo, hi := if p < |name| then name[p] else 0, 0;
        if lo == 0 {
          end := true;
        }
        p := p + 1;
      }
      ghost var was := t;
      AtApart(j - 1, j - 1);
      t := t[w := lo][w + 1 := hi];
      forall m | 0 <= m < j
        ensures Wide(t, m) == Char(name, base + m)
      {
        WidePut(was, j - 1, m, lo, hi);
      }
      WidePut(was, j - 1, 0, lo, hi);
      w := w + 2;
      if j == 5 {
        w := 14;
      } else if j == 11 {
        w := 28;
      }
    }
  }

  lemma LegalBytes(name: seq<byte>)
    requires Legal(name)
    ensures |name| > 0 && forall i :: 0 <= i < |name| ==> name[i] > 0
  {
  }

  /** A character that may stand in a short name: no dot, no lower case, none of the signs only long names may have. */
  predicate ShortChar(c: byte) {
    0x20 <= c < 0x80 && !('a' as int <= c <= 'z' as int) && c != '.' as int && !OnlyLong(c)
  }

  predicate OnlyLong(c: byte) {
    c == '+' as int || c == ',' as int || c == ';' as int || c == '=' as int || c == '[' as int || c == ']' as int
  }

  /** A character of a long name in a short one: in upper case, or an underscore. */
  function ShortOf(c: byte): byte {
    if 'a' as int <= c <= 'z' as int then c - 32 else if OnlyLong(c) then '_' as int else c
  }

  /** Lower case becomes upper case, the six signs + , ; = [ ] become underscores, all else stays. */
  lemma ShortCodes(c: byte)
    ensures ShortOf(c) == if 97 <= c <= 122 then c - 32 else if c in [43, 44, 59, 61, 91, 93] then 95 else c
  {
  }

  /** The characters of a name that go into a short one; spaces and dots do not. */
  function Kept(s: seq<byte>): seq<byte> {
    if s == [] then []
    else if DotOrSpace(s[|s| - 1]) then Kept(s[..|s| - 1])
    else Kept(s[..|s| - 1]) + [ShortOf(s[|s| - 1])]
  }

  function Upto(n: nat, s: seq<byte>): seq<byte> { if |s| <= n then s else s[..n] }

  function Spaced(s: seq<byte>, n: nat): seq<byte> { s + seq(if |s| < n then n - |s| else 0, i => ' ' as int) }

  /** Where the last dot stands; -1 if there is none. */
  function LastDot(name: seq<byte>): (d: int)
    ensures -1 <= d < |name| && (d >= 0 ==> name[d] == '.' as int)
    ensures forall k :: 0 <= k < |name| && k > d ==> name[k] != '.' as int
  {
    if name == [] then -1
    else if name[|name| - 1] == '.' as int then |name| - 1
    else LastDot(name[..|name| - 1])
  }

  /** Eight characters from in front of the last dot, and three from behind it. */
  function ShortFor(name: seq<byte>): seq<byte> {
    var d := LastDot(name);
    if d < 0 then Spaced(Upto(8, Kept(name)), 11)
    else Spaced(Upto(8, Kept(name[..d])), 8) + Spaced(Upto(3, Kept(name[d + 1..])), 3)
  }

  lemma KeptMore(name: seq<byte>, i: nat, k: nat)
    requires i <= k < |name|
    ensures Kept(name[i..k + 1])
        == if DotOrSpace(name[k]) then Kept(name[i..k]) else Kept(name[i..k]) + [ShortOf(name[k])]
  {
    assert name[i..k + 1][..k - i] == name[i..k];
  }

  lemma {:induction false} KeptGrows(name: seq<byte>, i: nat, k: nat, m: nat)
    requires i <= k <= m <= |name|
    ensures Kept(name[i..k]) <= Kept(name[i..m])
    decreases m - k
  {
    hide Kept, ShortOf, DotOrSpace;
    if k < m {
      KeptMore(name, i, k);
      KeptGrows(name, i, k + 1, m);
    }
  }

  lemma LastDotIs(name: seq<byte>, d: int)
    requires -1 <= d < |name| && (d >= 0 ==> name[d] == '.' as int)
    requires forall k :: 0 <= k < |name| && k > d ==> name[k] != '.' as int
    ensures LastDot(name) == d
  {
  }

  lemma {:induction false} KeptChars(s: seq<byte>)
    requires forall i :: 0 <= i < |s| ==> 0x20 <= s[i] < 0x80
    ensures forall k :: 0 <= k < |Kept(s)| ==> ShortChar(Kept(s)[k])
  {
    if s != [] {
      KeptChars(s[..|s| - 1]);
    }
  }

  lemma ShortForIs(name: seq<byte>)
    requires Formatted(name)
    ensures |ShortFor(name)| == 11 && forall k :: 0 <= k < 11 ==> ShortChar(ShortFor(name)[k])
    ensures name == [] ==> forall k :: 0 <= k < 11 ==> ShortFor(name)[k] == ' ' as int
  {
    hide Kept, LastDot;
    var d := LastDot(name);
    KeptChars(name);
    if d >= 0 {
      KeptChars(name[..d]);
      KeptChars(name[d + 1..]);
    }
    KeptEmpty();
  }

  lemma KeptEmpty()
    ensures Kept([]) == []
  {
  }

  lemma {:induction false} SpacedOne(s: seq<byte>, n: nat)
    requires |s| < n
    ensures Spaced(s, n) == Spaced(s + [' ' as int], n)
  {
  }

  /** The state of generate_shortname's loop: in front of the last dot, or behind it, where p is null. */
  predicate Shortening(name: seq<byte>, short: seq<byte>, at: nat, p: int) {
    var d := LastDot(name);
    && at <= |name| && |short| <= 11
    && (p >= 0 ==> p == (if d < 0 then 0 else d) && short == Kept(name[..at]) && |short| <= 8 && (d >= 0 ==> at <= d))
    && (p < 0 ==> 0 <= d < at && short == Spaced(Upto(8, Kept(name[..d])), 8) + Kept(name[d + 1..at]))
  }

  /** The loop ends: eleven characters, the end of the name, or eight characters and no dot to come. */
  lemma ShortDone(name: seq<byte>, short: seq<byte>, at: nat, p: int)
    requires Shortening(name, short, at, p)
    requires |short| == 11 || at == |name| || (|short| == 8 && p >= 0 && LastDot(name) < 0)
    ensures Spaced(short, 11) == ShortFor(name)
  {
    hide Kept, LastDot, Spaced, Upto;
    if p >= 0 {
      FrontDone(name, short, at);
    } else {
      BehindDone(name, Kept(name[..LastDot(name)]), LastDot(name) + 1, at);
    }
  }

  lemma FrontDone(name: seq<byte>, short: seq<byte>, at: nat)
    requires at <= |name| && short == Kept(name[..at]) && |short| <= 8 && (|short| == 8 || at == |name|)
    ensures Upto(8, Kept(name)) == short
  {
    hide Kept, Upto;
    assert name[0..at] == name[..at] && name[0..|name|] == name;
    KeptGrows(name, 0, at, |name|);
    assert at == |name| ==> name[..at] == name;
    UptoPrefix(short, Kept(name), 8);
  }

  lemma BehindDone(name: seq<byte>, s: seq<byte>, i: nat, at: nat)
    requires i <= at <= |name| && |Spaced(Upto(8, s), 8) + Kept(name[i..at])| <= 11
    requires |Spaced(Upto(8, s), 8) + Kept(name[i..at])| == 11 || at == |name|
    ensures var front := Spaced(Upto(8, s), 8);
            Spaced(front + Kept(name[i..at]), 11) == front + Spaced(Upto(3, Kept(name[i..])), 3)
  {
    hide Kept, Spaced, Upto;
    var front := Spaced(Upto(8, s), 8);
    FrontEight(s);
    assert name[i..] == name[i..|name|];
    KeptGrows(name, i, at, |name|);
    UptoPrefix(Kept(name[i..at]), Kept(name[i..]), 3);
    SpacedJoin(front, Kept(name[i..at]));
  }

  lemma UptoPrefix(s: seq<byte>, t: seq<byte>, n: nat)
    requires s <= t && |s| <= n && (|s| == n || s == t)
    ensures Upto(n, t) == s
  {
  }

  lemma FrontEight(s: seq<byte>)
    ensures |Spaced(Upto(8, s), 8)| == 8
  {
  }

  lemma SpacedJoin(a: seq<byte>, b: seq<byte>)
    requires |a| == 8 && |b| <= 3
    ensures Spaced(a + b, 11) == a + Spaced(b, 3)
  {
  }

  /** generate_shortname; p is the place of the last dot, of the first character if there is none, or null (-1). */
  method GenerateShortName(name: seq<byte>) returns (short: seq<byte>)
    requires Formatted(name)
    ensures short == ShortFor(name)
    ensures |short| == 11 && forall k :: 0 <= k < 11 ==> ShortChar(short[k])
    ensures name == [] ==> forall k :: 0 <= k < 11 ==> short[k] == ' ' as int
  {
    hide LastDot, Kept, ShortOf, ShortFor, ShortChar, OnlyLong, Legal, Spaced, Shortening;
    var p := 0;
    var j := |name| - 1;
    while j >= 0
      invariant -1 <= j < |name| && p == 0 && forall k :: j < k < |name| ==> name[k] != '.' as int
    {
      if name[j] == '.' as int {
        p := j;
        break;
      }
      j := j - 1;
    }
    LastDotIs(name, j);
    short := [];
    var at: nat := 0;
    ShortBegins(name, p, j);
    var more := true;
    while more && |short| < 11 && at < |name|
      invariant Shortening(name, short, at, p) && at <= |name| && |short| <= 11
      invariant !more ==> |short| == 8 && p >= 0 && LastDot(name) < 0
      decreases more, |name| - at
    {
      short, at, p, more := ShortTurn(name, short, at, p);
      ShortBounds(name, short, at, p);
    }
    ShortDone(name, short, at, p);
    ghost var was := short;
    SpacedSelf(short);
    while |short| < 11
      invariant |short| <= 11 && Spaced(short, 11) == Spaced(was, 11)
    {
      SpacedOne(short, 11);
      short := short + [' ' as int];
    }
    SpacedSelf(short);
    ShortForIs(name);
  }

  lemma SpacedSelf(s: seq<byte>)
    ensures |s| == 11 ==> Spaced(s, 11) == s
  {
  }

  lemma ShortBegins(name: seq<byte>, p: int, d: int)
    requires d == LastDot(name) && p == (if d < 0 then 0 else d) && Formatted(name)
    ensures Shortening(name, [], 0, p)
  {
    assert name[..0] == [];
  }

  /** Eight characters, and a dot to come: what is behind it follows. */
  lemma JumpsOver(name: seq<byte>, short: seq<byte>, at: nat, p: int)
    requires Shortening(name, short, at, p) && p >= 0 && |short| == 8 && LastDot(name) >= 0
    ensures p == LastDot(name) && Shortening(name, short, p + 1, -1)
  {
    hide Kept, LastDot;
    assert name[0..at] == name[..at] && name[0..p] == name[..p];
    KeptGrows(name, 0, at, p);
    assert name[p + 1..p + 1] == [];
    KeptEmpty();
  }

  /** The last dot: spaces up to eight characters. */
  lemma DotReached(name: seq<byte>, short: seq<byte>, at: nat, p: int)
    requires Shortening(name, short, at, p) && p >= 0 && |short| < 8 && at == LastDot(name)
    ensures Shortening(name, short + seq(8 - |short|, i => ' ' as int), at + 1, -1)
  {
    hide Kept, LastDot;
    assert name[at + 1..at + 1] == [];
    KeptEmpty();
  }

  /** Any other character. */
  lemma Proceeds(name: seq<byte>, short: seq<byte>, at: nat, p: int)
    requires Shortening(name, short, at, p) && at < |name| && |short| < (if p >= 0 then 8 else 11)
    requires at != LastDot(name)
    ensures Shortening(name, if DotOrSpace(name[at]) then short else short + [ShortOf(name[at])], at + 1, p)
  {
    hide Kept, LastDot, ShortOf, DotOrSpace, Spaced, Upto;
    var d := LastDot(name);
    if p >= 0 {
      assert name[0..at] == name[..at] && name[0..at + 1] == name[..at + 1];
      KeptMore(name, 0, at);
    } else {
      KeptMore(name, d + 1, at);
    }
  }

  lemma WhichDot(name: seq<byte>, short: seq<byte>, at: nat, p: int)
    requires Shortening(name, short, at, p) && at < |name|
    ensures name[at] == '.' as int ==> p >= 0 && LastDot(name) >= at && p == LastDot(name)
    ensures p >= 0 && LastDot(name) < 0 ==> p == 0
    ensures p >= 0 && LastDot(name) >= 0 ==> at <= p == LastDot(name)
    ensures p < 0 ==> at > LastDot(name)
    ensures at == LastDot(name) ==> name[at] == '.' as int
    ensures p >= 0 && |short| > 0 ==> at > 0
  {
    KeptEmpty();
  }

  /** One turn of its loop. */
  method ShortTurn(name: seq<byte>, short0: seq<byte>, at0: nat, p0: int)
      returns (short: seq<byte>, at: nat, p: int, more: bool)
    requires Shortening(name, short0, at0, p0) && |short0| < 11 && at0 < |name|
    ensures Shortening(name, short, at, p)
    ensures more ==> at > at0
    ensures !more ==> |short| == 8 && p >= 0 && LastDot(name) < 0
  {
    hide LastDot, Shortening;
    ShortBounds(name, short0, at0, p0);
    WhichDot(name, short0, at0, p0);
    short, p, more := short0, p0, true;
    var c := name[at0];
    at := at0 + 1;
    if |short| == 8 && p >= 0 {
      if p + 1 < at {
        at, more := at0, false;
        return;
      }
      JumpsOver(name, short, at0, p);
      at := p + 1;
      p := -1;
      return;
    }
    if c == '.' as int && at > p {
      DotReached(name, short, at0, p);
      short := short + seq(8 - |short|, i => ' ' as int);
      p := -1;
      return;
    }
    Proceeds(name, short, at0, p);
    if c != ' ' as int && c != '.' as int {
      if 'a' as int <= c <= 'z' as int {
        c := c - 32;
      } else if OnlyLong(c) {
        c := '_' as int;
      }
      short := short + [c];
    }
  }

  lemma ShortBounds(name: seq<byte>, short: seq<byte>, at: nat, p: int)
    requires Shortening(name, short, at, p)
    ensures at <= |name| && |short| <= 11 && (p >= 0 ==> |short| <= 8)
  {
  }

  /** A byte rotated right by one bit. */
  function Rotated(x: byte): byte { x % 2 * 0x80 + x / 2 }

  lemma HalfIs(b: bv8)
    ensures b as int / 2 == (b >> 1) as int
  {
  }

  lemma LowBitIs(b: bv8)
    ensures b as int % 2 == (b & 1) as int
  {
  }

  lemma RotatedIs(b: bv8)
    ensures Rotated(b as int) == b.RotateRight(1) as int
  {
    HalfIs(b);
    LowBitIs(b);
    assert b.RotateRight(1) as int == (b & 1) as int * 0x80 + (b >> 1) as int;
  }

  /** Rotating a sum is adding what is rotated exactly if the sum is below 256 and not of two odd numbers. */
  lemma RotationAdds(x: byte, y: byte)
    ensures Rotated((x + y) % 256) == (Rotated(x) + Rotated(y)) % 256 <==>
            x + y < 256 && (x % 2 == 0 || y % 2 == 0)
  {
    hide Rotated;
    var a, p, b, q := x / 2, x % 2, y / 2, y % 2;
    RotatedOf(x, a, p);
    RotatedOf(y, b, q);
    SumOf(a, p, b, q);
  }

  /** The same, with the numbers in halves and low bits. */
  lemma SumOf(a: nat, p: nat, b: nat, q: nat)
    requires a < 128 && b < 128 && p < 2 && q < 2
    ensures Rotated((2 * a + p + 2 * b + q) % 256) == (0x80 * p + a + 0x80 * q + b) % 256 <==>
            a + b < 128 && (p == 0 || q == 0)
  {
    hide Rotated;
    var h, l := if p + q == 2 then a + b + 1 else a + b, if p + q == 2 then 0 else p + q;
    Fold(2 * h + l);
    Fold(0x80 * p + a + 0x80 * q + b);
    RotatedOf(if h < 128 then 2 * h + l else 2 * h + l - 256, if h < 128 then h else h - 128, l);
  }

  lemma Fold(n: nat)
    requires n < 512
    ensures n % 256 == if n < 256 then n else n - 256
  {
  }

  lemma RotatedOf(x: byte, h: nat, l: nat)
    requires x == 2 * h + l && h < 128 && l < 2
    ensures Rotated(x) == 0x80 * l + h
  {
  }

  lemma RotatedApart(x: byte, y: byte)
    requires x != y
    ensures Rotated(x) != Rotated(y)
  {
  }

  /**
   The checksum over the first n bytes of a short name (FAT32 File System Specification v1.03, section "FAT Long
   Directory Entries").
   */
  function Checksum(short: seq<byte>): (sum: byte) {
    if short == [] then 0
    else (Rotated(Checksum(short[..|short| - 1])) + short[|short| - 1]) % 256
  }

  lemma SumsApart(x: byte, y: byte, c: byte)
    requires x != y
    ensures (Rotated(x) + c) % 256 != (Rotated(y) + c) % 256
  {
    hide Rotated;
    RotatedApart(x, y);
  }

  /** Two short names that differ in exactly one byte have different checksums. */
  lemma {:induction false} OneByteTells(s: seq<byte>, t: seq<byte>, k: nat)
    requires |s| == |t| && k < |s| && s[k] != t[k] && forall i :: 0 <= i < |s| && i != k ==> s[i] == t[i]
    ensures Checksum(s) != Checksum(t)
  {
    hide Rotated;
    var n := |s| - 1;
    if k == n {
      assert s[..n] == t[..n];
    } else {
      OneByteTells(s[..n], t[..n], k);
      SumsApart(Checksum(s[..n]), Checksum(t[..n]), s[n]);
    }
  }

  /** The partial sums. */
  lemma {:induction false} ChecksumIs(short: seq<byte>) returns (c: seq<byte>)
    requires short != []
    ensures |c| == |short| && c[0] == short[0]
    ensures forall i :: 0 < i < |c| ==> c[i] == (Rotated(c[i - 1]) + short[i]) % 256
    ensures Checksum(short) == c[|c| - 1]
  {
    var n := |short| - 1;
    if n == 0 {
      assert short[..0] == [];
      c := [short[0]];
    } else {
      c := ChecksumIs(short[..n]);
      NextSum(short, c[n - 1]);
      c := c + [(Rotated(c[n - 1]) + short[n]) % 256];
    }
  }

  lemma NextSum(short: seq<byte>, sum: byte)
    requires short != [] && Checksum(short[..|short| - 1]) == sum
    ensures Checksum(short) == (Rotated(sum) + short[|short| - 1]) % 256
  {
  }

  const FOO_TXT: seq<byte> := [102, 111, 111, 46, 116, 120, 116]

  lemma KeptThree(s: seq<byte>)
    requires |s| == 3 && forall i :: 0 <= i < 3 ==> !DotOrSpace(s[i])
    ensures Kept(s) == [ShortOf(s[0]), ShortOf(s[1]), ShortOf(s[2])]
  {
    hide Kept, ShortOf, DotOrSpace;
    KeptEmpty();
    assert s[0..0] == [] && s[0..3] == s;
    KeptMore(s, 0, 0);
    KeptMore(s, 0, 1);
    KeptMore(s, 0, 2);
  }

  lemma FooShort()
    ensures ShortFor(FOO_TXT) == [70, 79, 79, 32, 32, 32, 32, 32, 84, 88, 84]
  {
    hide Kept, LastDot;
    LastDotIs(FOO_TXT, 3);
    var front, ext := FOO_TXT[..3], FOO_TXT[4..];
    assert front == [102, 111, 111] && ext == [116, 120, 116];
    KeptThree(front);
    KeptThree(ext);
  }

  /** The checksum of "FOO     TXT". */
  lemma FooSum(s: seq<byte>)
    requires s == [70, 79, 79, 32, 32, 32, 32, 32, 84, 88, 84]
    ensures Checksum(s) == 0x65
  {
    hide Checksum;
    var c := ChecksumIs(s);
    assert c[1] == 0x72;
    assert c[2] == 0x88;
    assert c[3] == 0x64;
    assert c[4] == 0x52;
    assert c[5] == 0x49;
    assert c[6] == 0xc4;
    assert c[7] == 0x82;
    assert c[8] == 0x95;
    assert c[9] == 0x22;
  }

  /** cal_checksum. */
  method CalChecksum(short: seq<byte>) returns (sum: byte)
    requires |short| == 11
    ensures sum == Checksum(short)
  {
    sum := 0;
    var i := 11;
    while i != 0
      invariant 0 <= i <= 11 && sum == Checksum(short[..11 - i])
    {
      assert short[..11 - i + 1][..11 - i] == short[..11 - i];
      NextSum(short[..11 - i + 1], sum);
      sum := ((if sum % 2 == 1 then 0x80 else 0) + sum / 2 + short[11 - i]) % 256;
      i := i - 1;
    }
    assert short[..11] == short;
  }

  /** A long slot has the checksum, and zeros where nothing else stands. */
  predicate Marked(s: seq<byte>, sum: byte) { |s| == 32 && s[12] == 0 && s[13] == sum && s[26] == 0 && s[27] == 0 }

  /** The slots of data up to now: long slot n, n - 1, ... of the name, all with the same checksum. */
  predicate Longs(data: seq<byte>, name: seq<byte>, n: nat, sum: byte) {
    && |data| % 32 == 0 && |data| <= 32 * n
    && forall m :: 0 <= m < |data| / 32 ==>
         Segment(data[32 * m..32 * m + 32], name, n - m) && Marked(data[32 * m..32 * m + 32], sum)
  }

  lemma LongsMore(data: seq<byte>, name: seq<byte>, n: nat, sum: byte, s: seq<byte>)
    requires Longs(data, name, n, sum) && |data| < 32 * n && Segment(s, name, n - |data| / 32)
    requires Marked(s, sum)
    ensures Longs(data + s, name, n, sum)
  {
    hide Segment, Marked;
    SegmentLength(s, name, n - |data| / 32);
    var t := data + s;
    forall m | 0 <= m < |t| / 32
      ensures Segment(t[32 * m..32 * m + 32], name, n - m) && Marked(t[32 * m..32 * m + 32], sum)
    {
      if m < |data| / 32 {
        assert t[32 * m..32 * m + 32] == data[32 * m..32 * m + 32];
      } else {
        assert t[32 * m..32 * m + 32] == s;
      }
    }
  }

  lemma SegmentLength(s: seq<byte>, name: seq<byte>, i: nat)
    requires Segment(s, name, i)
    ensures |s| == 32
  {
  }

  lemma {:induction false} LongsRun(data: seq<byte>, r: Rec, n: nat, sum: byte, s: seq<byte>)
    requires Longs(data, r.name, n, sum) && |data| == 32 * n && Short(s, r)
    ensures Run(data + s, r, n)
  {
    hide Segment, Short, Marked;
    var b := data + s;
    if n == 0 {
      assert b == s;
    } else {
      assert data[32 * 0..32 * 0 + 32] == data[..32] == b[..32];
      var rest := data[32..];
      forall m | 0 <= m < |rest| / 32
        ensures Segment(rest[32 * m..32 * m + 32], r.name, n - 1 - m) && Marked(rest[32 * m..32 * m + 32], sum)
      {
        assert rest[32 * m..32 * m + 32] == data[32 * (m + 1)..32 * (m + 1) + 32];
      }
      LongsRun(rest, r, n - 1, sum, s);
      assert b[32..] == rest + s;
      ShortLength(s, r);
    }
  }

  lemma ShortLength(s: seq<byte>, r: Rec)
    requires Short(s, r)
    ensures |s| == 32
  {
  }
}
