/**
 The directory-entry cache (kernel/fat32.c): a fixed number of slots with reference counts, parent pointers
 and a least-recently-used list, at the granularity of whole calls. Slots are 0 to n - 1; the root directory,
 which is no slot of the list, is number n.
 */
module EntryCache {
  import opened LruList

  /** valid == 0, 1 and -1. */
  datatype Validity = Empty | Cached | Removed

  datatype Entry = Entry(valid: Validity, ref: nat, parent: nat, name: string)

  datatype Result = Got(e: nat) | Missing | Panic

  type Path = seq<string>

  /** In use, and holding a reference on its parent. */
  predicate Live(x: Entry) { x.ref > 0 && x.valid != Empty }

  /** Its parent pointer means something: a later lookup, or eput, will use it. */
  predicate Named(x: Entry) { x.valid == Cached || Live(x) }

  /** The live children of entry q among the first k slots. */
  function Kids(es: seq<Entry>, q: nat, k: nat): nat
    requires k <= |es|
  {
    if k == 0 then 0 else Kids(es, q, k - 1) + if Live(es[k - 1]) && es[k - 1].parent == q then 1 else 0
  }

  function Lives(es: seq<Entry>, k: nat): nat
    requires k <= |es|
  {
    if k == 0 then 0 else Lives(es, k - 1) + if Live(es[k - 1]) then 1 else 0
  }

  /** ref counts the handles outside the cache and the live children. */
  ghost predicate RefsOk(es: seq<Entry>, out: seq<nat>, n: nat) {
    |es| == |out| == n + 1 && forall q :: 0 <= q <= n ==> es[q].ref == out[q] + Kids(es, q, n)
  }

  /** Parents exist, and a parent that is named is not an empty slot. */
  ghost predicate ParentsOk(es: seq<Entry>, n: nat) {
    && |es| == n + 1 && es[n].valid == Cached
    && (forall c :: 0 <= c < n && Named(es[c]) ==> es[c].parent <= n && es[es[c].parent].valid != Empty)
    && (forall c :: 0 <= c < n && es[c].valid != Empty ==> es[c].parent <= n)
  }

  /** An unused entry lies nearer the list head than all its valid children. */
  ghost predicate OrderOk(es: seq<Entry>, order: seq<nat>, n: nat) {
    && |es| == n + 1 && |order| == n && (forall i :: 0 <= i < n ==> order[i] < n)
    && (forall c :: 0 <= c < n ==> c in order)
    && (forall i, j :: 0 <= j <= i < n && Under(es, order[j], order[i]) ==> es[order[i]].ref > 0)
  }

  predicate Under(es: seq<Entry>, c: nat, q: nat) { c < |es| && es[c].valid == Cached && es[c].parent == q }

  /** Entries stand for the files that their parent pointers and names spell out. */
  ghost predicate PathsOk(es: seq<Entry>, path: seq<Path>, n: nat) {
    && |es| == |path| == n + 1 && path[n] == []
    && (forall c :: 0 <= c < n && Named(es[c]) && es[c].parent <= n ==> path[c] == path[es[c].parent] + [es[c].name])
  }

  /** No file is cached twice. */
  ghost predicate Unique(es: seq<Entry>, n: nat) {
    |es| == n + 1 &&
    forall c, d :: 0 <= c < n && 0 <= d < n && c != d && es[c].valid == Cached && es[d].valid == Cached ==>
        es[c].parent != es[d].parent || es[c].name != es[d].name
  }

  ghost predicate Inv(es: seq<Entry>, order: seq<nat>, out: seq<nat>, path: seq<Path>, n: nat) {
    RefsOk(es, out, n) && ParentsOk(es, n) && OrderOk(es, order, n) && PathsOk(es, path, n) && Unique(es, n)
  }

  // ----- counting -----

  function Bump(es: seq<Entry>, e: nat): seq<Entry>
    requires e < |es|
  {
    es[e := es[e].(ref := es[e].ref + 1)]
  }

  lemma {:induction false} KidsPut(es: seq<Entry>, e: nat, x: Entry, q: nat, k: nat)
    requires e < |es| && k <= |es|
    ensures Kids(es[e := x], q, k) + (if e < k && Live(es[e]) && es[e].parent == q then 1 else 0)
            == Kids(es, q, k) + if e < k && Live(x) && x.parent == q then 1 else 0
  {
    if k > 0 {
      KidsPut(es, e, x, q, k - 1);
    }
  }

  lemma {:induction false} LivesPut(es: seq<Entry>, e: nat, x: Entry, k: nat)
    requires e < |es| && k <= |es|
    ensures Lives(es[e := x], k) + (if e < k && Live(es[e]) then 1 else 0) == Lives(es, k) + if e < k
        && Live(x) then 1 else 0
  {
    if k > 0 {
      LivesPut(es, e, x, k - 1);
    }
  }

  lemma {:induction false} KidIsCounted(es: seq<Entry>, c: nat, k: nat)
    requires c < k <= |es| && Live(es[c])
    ensures Kids(es, es[c].parent, k) > 0
  {
    if c < k - 1 {
      KidIsCounted(es, c, k - 1);
    }
  }

  /** A live entry's parent is in use. */
  lemma ParentUsed(es: seq<Entry>, out: seq<nat>, n: nat, c: nat)
    requires RefsOk(es, out, n) && ParentsOk(es, n) && c < n && Live(es[c])
    ensures es[c].parent <= n && es[es[c].parent].ref > 0
  {
    KidIsCounted(es, c, n);
  }

  // ----- recycling -----

  /** Everything behind position k of the list is in use. */
  ghost predicate UsedBehind(es: seq<Entry>, order: seq<nat>, k: nat) {
    forall i :: k < i < |order| ==> order[i] < |es| && es[order[i]].ref > 0
  }

  /** The slot that eget takes from the tail of the list is nobody's parent. */
  lemma RecycleSafe(es: seq<Entry>, order: seq<nat>, out: seq<nat>, path: seq<Path>, n: nat, k: nat, c: nat)
    requires Inv(es, order, out, path, n) && k < |order| && order[k] < n && es[order[k]].ref == 0
        && UsedBehind(es, order, k)
    requires c < n && Named(es[c])
    ensures es[c].parent != order[k]
  {
    hide PathsOk, Unique, Kids;
    assert c in order;
    var i :| 0 <= i < n && order[i] == c;
    if Live(es[c]) {
      ParentUsed(es, out, n, c);
    } else {
      assert Under(es, c, es[c].parent);
      assert i <= k;
    }
  }

  // ----- what each operation does to the entries -----

  /** One more handle on an entry in use. */
  lemma DupKeeps(es: seq<Entry>, order: seq<nat>, out: seq<nat>, path: seq<Path>, n: nat, e: nat)
    requires Inv(es, order, out, path, n) && e <= n && (e == n || es[e].ref > 0)
    ensures Inv(Bump(es, e), order, out[e := out[e] + 1], path, n)
  {
    hide Kids;
    forall q | 0 <= q <= n
      ensures Bump(es, e)[q].ref == out[e := out[e] + 1][q] + Kids(Bump(es, e), q, n)
    {
      KidsPut(es, e, Bump(es, e)[e], q, n);
    }
    SameNamed(es, Bump(es, e), order, path, n);
  }

  /** The same entries are named, in use or more, and mean the same. */
  lemma SameNamed(es: seq<Entry>, fs: seq<Entry>, order: seq<nat>, path: seq<Path>, n: nat)
    requires ParentsOk(es, n) && OrderOk(es, order, n) && PathsOk(es, path, n) && Unique(es, n) && |fs| == n + 1
    requires forall c :: 0 <= c <= n ==>
        fs[c].valid == es[c].valid && fs[c].parent == es[c].parent && fs[c].name == es[c].name
        && (es[c].ref > 0 ==> fs[c].ref > 0)
    requires forall c :: 0 <= c < n && Named(fs[c]) ==> Named(es[c])
    ensures ParentsOk(fs, n) && OrderOk(fs, order, n) && PathsOk(fs, path, n) && Unique(fs, n)
  {
    forall i, j | 0 <= j <= i < n && Under(fs, order[j], order[i])
      ensures fs[order[i]].ref > 0
    {
      assert Under(es, order[j], order[i]);
    }
  }

  /** eget finds entry e: a first handle also takes a reference on the parent. */
  function Taken(es: seq<Entry>, e: nat): seq<Entry>
    requires e < |es| && es[e].parent < |es|
  {
    if es[e].ref == 0 then Bump(Bump(es, e), es[e].parent) else Bump(es, e)
  }

  lemma HitKeeps(es: seq<Entry>, order: seq<nat>, out: seq<nat>, path: seq<Path>, n: nat, e: nat)
    requires Inv(es, order, out, path, n) && e < n && es[e].valid == Cached && es[e].parent <= n
        && es[es[e].parent].ref > 0
    ensures Inv(Taken(es, e), order, out[e := out[e] + 1], path, n)
  {
    hide Kids;
    var q := es[e].parent;
    var es1 := Bump(es, e);
    var fs := Taken(es, e);
    forall r | 0 <= r <= n
      ensures fs[r].ref == out[e := out[e] + 1][r] + Kids(fs, r, n)
    {
      KidsPut(es, e, es1[e], r, n);
      KidsPut(es1, q, Bump(es1, q)[q], r, n);
    }
    SameNamed(es, fs, order, path, n);
  }

  /** eget takes slot e, which nothing names, for a file to come. */
  function Cleared(es: seq<Entry>, e: nat): seq<Entry>
    requires e < |es|
  {
    es[e := es[e].(valid := Empty, ref := 1)]
  }

  lemma SlotKeeps(es: seq<Entry>, order: seq<nat>, out: seq<nat>, path: seq<Path>, n: nat, e: nat)
    requires Inv(es, order, out, path, n) && e < n && es[e].ref == 0
    requires forall c :: 0 <= c < n && Named(es[c]) ==> es[c].parent != e
    ensures Inv(Cleared(es, e), order, out[e := out[e] + 1], path, n)
  {
    hide Kids;
    var fs := Cleared(es, e);
    forall r | 0 <= r <= n
      ensures fs[r].ref == out[e := out[e] + 1][r] + Kids(fs, r, n)
    {
      KidsPut(es, e, fs[e], r, n);
    }
    forall i, j | 0 <= j <= i < n && Under(fs, order[j], order[i])
      ensures fs[order[i]].ref > 0
    {
      assert Under(es, order[j], order[i]);
    }
  }

  /** The slot is filled with the file found in directory d. */
  function Filled(es: seq<Entry>, e: nat, d: nat, name: string): seq<Entry>
    requires e < |es| && d < |es|
  {
    Bump(es[e := Entry(Cached, es[e].ref, d, name)], d)
  }

  lemma FillRefs(es: seq<Entry>, out: seq<nat>, n: nat, e: nat, d: nat, name: string)
    requires RefsOk(es, out, n) && e < n && es[e].valid == Empty && es[e].ref > 0 && d <= n && d != e && es[d].ref > 0
    ensures RefsOk(Filled(es, e, d, name), out, n)
  {
    hide Kids;
    var es1 := es[e := Entry(Cached, es[e].ref, d, name)];
    var fs := Filled(es, e, d, name);
    forall r | 0 <= r <= n
      ensures fs[r].ref == out[r] + Kids(fs, r, n)
    {
      KidsPut(es, e, es1[e], r, n);
      KidsPut(es1, d, fs[d], r, n);
    }
  }

  lemma FillPaths(es: seq<Entry>, path: seq<Path>, n: nat, e: nat, d: nat, name: string)
    requires ParentsOk(es, n) && PathsOk(es, path, n) && e < n && es[e].valid == Empty && d <= n && d != e
        && es[d].ref > 0 && es[d].valid == Cached
    ensures ParentsOk(Filled(es, e, d, name), n) && PathsOk(Filled(es, e, d, name), path[e := path[d] + [name]], n)
  {
  }

  lemma FillOrder(es: seq<Entry>, order: seq<nat>, n: nat, e: nat, d: nat, name: string)
    requires OrderOk(es, order, n) && e < n && es[e].ref > 0 && d <= n && d != e && es[d].ref > 0
    ensures OrderOk(Filled(es, e, d, name), order, n)
  {
    var fs := Filled(es, e, d, name);
    forall i, j | 0 <= j <= i < n && Under(fs, order[j], order[i])
      ensures fs[order[i]].ref > 0
    {
      if order[j] != e {
        assert Under(es, order[j], order[i]);
      }
    }
  }

  lemma FillKeeps(es: seq<Entry>, order: seq<nat>, out: seq<nat>, path: seq<Path>, n: nat, e: nat, d: nat, name: string)
    requires Inv(es, order, out, path, n) && e < n && es[e].valid == Empty && es[e].ref > 0 && d <= n && d != e
        && es[d].ref > 0 && es[d].valid == Cached
    requires forall c :: 0 <= c < n && es[c].valid == Cached ==> es[c].parent != d || es[c].name != name
    ensures Inv(Filled(es, e, d, name), order, out, path[e := path[d] + [name]], n)
  {
    FillRefs(es, out, n, e, d, name);
    FillPaths(es, path, n, e, d, name);
    FillOrder(es, order, n, e, d, name);
    hide RefsOk, ParentsOk, OrderOk, PathsOk;
  }

  function Dropped(es: seq<Entry>, e: nat): seq<Entry>
    requires e < |es| && es[e].ref > 0
  {
    es[e := es[e].(ref := es[e].ref - 1)]
  }

  /** eput, when the entry stays in use, was never filled, or is the root. */
  lemma DropKeeps(es: seq<Entry>, order: seq<nat>, out: seq<nat>, path: seq<Path>, n: nat, e: nat)
    requires Inv(es, order, out, path, n) && e <= n && out[e] > 0
    requires e == n || es[e].valid == Empty || es[e].ref != 1
    ensures es[e].ref > 0 && Inv(Dropped(es, e), order, out[e := out[e] - 1], path, n)
  {
    hide Kids;
    var fs := Dropped(es, e);
    forall r | 0 <= r <= n
      ensures fs[r].ref == out[e := out[e] - 1][r] + Kids(fs, r, n)
    {
      KidsPut(es, e, fs[e], r, n);
    }
    forall i, j | 0 <= j <= i < n && Under(fs, order[j], order[i])
      ensures fs[order[i]].ref > 0
    {
      assert Under(es, order[j], order[i]);
      assert Named(es[order[j]]);
    }
  }

  /**
   eput of the last handle: the entry goes to the head of the list, and its reference on the parent becomes the
   caller's.
   */
  lemma LastKeeps(es: seq<Entry>, order: seq<nat>, out: seq<nat>, path: seq<Path>, n: nat, k: nat)
    requires Inv(es, order, out, path, n) && k < n && order[k] < n && Nodes(order, n)
    requires es[order[k]].valid != Empty && es[order[k]].ref == 1 && out[order[k]] > 0
    ensures es[order[k]].parent <= n && es[order[k]].parent != order[k]
    ensures var e := order[k];
            Inv(Dropped(es, e), ToFront(order, k),
                out[e := out[e] - 1][es[e].parent := out[e := out[e] - 1][es[e].parent] + 1], path, n)
  {
    hide Kids, ToFront;
    var e := order[k];
    var q := es[e].parent;
    KidIsCounted(es, e, n);
    var fs := Dropped(es, e);
    forall r | 0 <= r <= n
      ensures fs[r].ref == out[e := out[e] - 1][q := out[e := out[e] - 1][q] + 1][r] + Kids(fs, r, n)
    {
      KidsPut(es, e, fs[e], r, n);
    }
    FrontAt(order, k);
    ParentUsed(es, out, n, e);
    FrontOrder(es, fs, order, n, k);
  }

  lemma FrontOrder(es: seq<Entry>, fs: seq<Entry>, order: seq<nat>, n: nat, k: nat)
    requires OrderOk(es, order, n) && Nodes(order, n) && k < n && order[k] < n && es[order[k]].ref > 0
        && fs == Dropped(es, order[k])
    requires es[order[k]].parent <= n && es[es[order[k]].parent].ref > 0 && es[order[k]].parent != order[k]
    ensures OrderOk(fs, ToFront(order, k), n)
  {
    hide ToFront;
    FrontAt(order, k);
    var t := ToFront(order, k);
    forall i, j | 0 <= j <= i < n && Under(fs, t[j], t[i])
      ensures fs[t[i]].ref > 0
    {
      if j > 0 {
        assert Under(es, order[if j <= k then j - 1 else j], order[if i <= k then i - 1 else i]);
        assert t[i] != order[k];
      }
    }
    forall i | 0 <= i < n
      ensures t[i] < n
    {
      if i > 0 {
        assert t[i] == order[if i <= k then i - 1 else i];
      }
    }
  }

  /** eremove: the entry keeps its parent while it is in use, and no lookup finds it any more. */
  lemma RemoveKeeps(es: seq<Entry>, order: seq<nat>, out: seq<nat>, path: seq<Path>, n: nat, e: nat)
    requires Inv(es, order, out, path, n) && e < n && es[e].valid == Cached
    ensures Inv(es[e := es[e].(valid := Removed)], order, out, path, n)
  {
    hide Kids;
    var fs := es[e := es[e].(valid := Removed)];
    forall r | 0 <= r <= n
      ensures fs[r].ref == out[r] + Kids(fs, r, n)
    {
      KidsPut(es, e, fs[e], r, n);
    }
    forall i, j | 0 <= j <= i < n && Under(fs, order[j], order[i])
      ensures fs[order[i]].ref > 0
    {
      assert Under(es, order[j], order[i]);
    }
  }

  /** The entries are the same files as before, whatever their reference counts. */
  ghost predicate SameFiles(es: seq<Entry>, fs: seq<Entry>) {
    |es| == |fs| && forall c :: 0 <= c < |es| ==>
        fs[c].valid == es[c].valid && fs[c].parent == es[c].parent && fs[c].name == es[c].name
  }

  predicate Match(x: Entry, parent: nat, name: string) { x.valid == Cached && x.parent == parent && x.name == name }

  /** No slot has the entry of that parent and name. */
  predicate NotIn(es: seq<Entry>, n: nat, dp: nat, name: string)
    requires n <= |es|
  {
    forall c :: 0 <= c < n ==> !Match(es[c], dp, name)
  }

  /** Nor is any slot unused. */
  predicate NoRoom(es: seq<Entry>, n: nat, dp: nat, name: string)
    requires n <= |es|
  {
    forall c :: 0 <= c < n ==> es[c].ref > 0 && !Match(es[c], dp, name)
  }

  lemma {:induction false} NoKidsOf(es: seq<Entry>, q: nat, k: nat)
    requires k <= |es| && forall c :: 0 <= c < k ==> es[c].valid == Empty
    ensures Kids(es, q, k) == 0
  {
    if k > 0 {
      NoKidsOf(es, q, k - 1);
    }
  }

  lemma NoKids(es: seq<Entry>, n: nat)
    requires |es| == n + 1 && forall c :: 0 <= c < n ==> es[c].valid == Empty
    ensures forall q :: 0 <= q <= n ==> Kids(es, q, n) == 0
  {
    forall q | 0 <= q <= n
      ensures Kids(es, q, n) == 0
    {
      NoKidsOf(es, q, n);
    }
  }

  lemma NoMatch(es: seq<Entry>, ep: nat, dp: nat, name: string)
    requires ep < |es| && es[ep].valid == Empty
    ensures forall c :: 0 <= c < |es| && c != ep && !Match(es[c], dp, name) && es[c].valid == Cached ==>
        es[c].parent != dp || es[c].name != name
  {
  }

  class Cache {
    const n: nat
    var es: seq<Entry>
    var links: Links
    ghost var order: seq<nat>
    ghost var out: seq<nat>     // the handles that callers hold
    ghost var path: seq<Path>   // the files that the entries stand for

    ghost predicate Valid()
      reads this
    {
      n > 0 && Inv(es, order, out, path, n) && Circle(links, order, n)
    }

    lemma Sizes()
      requires Valid()
      ensures |es| == |out| == |path| == n + 1 && |order| == n && |links.next| == |links.prev| == n + 1
    {
    }

    /** fat32_init: the root, and n empty slots pushed on the list one by one. */
    constructor (n: nat)
      requires n > 0
      ensures Valid() && this.n == n && out == seq(n + 1, i => 0)
    {
      this.n := n;
      var l := Links(seq(n + 1, i => n), seq(n + 1, i => n));
      ghost var o: seq<nat> := [];
      var de: nat := 0;
      while de < n
        invariant de <= n && |o| == de && |l.next| == |l.prev| == n + 1
        invariant forall x :: x in o <==> 0 <= x < de
        invariant Circle(l, o, n)
      {
        PushKeeps(l, o, n, de);
        l := PushFront(l, de, n);
        o := [de] + o;
        de := de + 1;
      }
      es := seq(n, i => Entry(Empty, 0, 0, "")) + [Entry(Cached, 0, n, "")];
      links := l;
      order := o;
      out := seq(n + 1, i => 0);
      path := seq(n + 1, i => []);
      new;
      NoKids(es, n);
    }

    method Dup(e: nat)
      requires Valid() && e <= n && (e == n || es[e].ref > 0)
      modifies this
      ensures Valid() && out == old(out)[e := old(out)[e] + 1] && es == Bump(old(es), e) && path == old(path)
    {
      hide Inv, Circle;
      Sizes();
      DupKeeps(es, order, out, path, n, e);
      es := es[e := es[e].(ref := es[e].ref + 1)];
      out := out[e := out[e] + 1];
    }

    /** eget. The caller has a handle on parent. */
    method Get(parent: nat, name: string) returns (r: Result)
      requires Valid() && parent <= n && |out| == n + 1 && out[parent] > 0
      modifies this
      ensures Valid() && |es| == |out| == n + 1 && path == old(path) && r != Missing
      ensures r.Got? ==> r.e < n && out == old(out)[r.e := old(out)[r.e] + 1]
      ensures r.Got? && es[r.e].valid == Cached ==> Match(old(es)[r.e], parent, name) && es == Taken(old(es), r.e)
      ensures r.Got? && es[r.e].valid != Cached ==>
                && (forall c :: 0 <= c < n ==> !Match(old(es)[c], parent, name))
                && old(es)[r.e].ref == 0 && old(out)[r.e] == 0 && es == Cleared(old(es), r.e)
                && (forall c :: 0 <= c < n && Named(old(es)[c]) ==> old(es)[c].parent != r.e)
      ensures r == Panic ==> es == old(es) && out == old(out) && NoRoom(es, n, parent, name)
    {
      hide Inv, Circle;
      Sizes();
      var hit, ep := Find(parent, name);
      if hit {
        TakesParent(ep);
        if es[ep].ref == 0 {
          es := es[ep := es[ep].(ref := 1)];
          es := es[es[ep].parent := es[es[ep].parent].(ref := es[es[ep].parent].ref + 1)];
        } else {
          es := es[ep := es[ep].(ref := es[ep].ref + 1)];
        }
        out := out[ep := out[ep] + 1];
        return Got(ep);
      }
      var free, eq := FindUnused();
      if free {
        UnusedUnheld(eq);
        SlotKeeps(es, order, out, path, n, eq);
        es := es[eq := es[eq].(valid := Empty, ref := 1)];
        out := out[eq := out[eq] + 1];
        return Got(eq);
      }
      return Panic;
    }

    lemma UnusedUnheld(e: nat)
      requires Valid() && e < n && |es| == |out| == n + 1 && es[e].ref == 0
      ensures out[e] == 0
    {
    }

    lemma TakesParent(ep: nat)
      requires Valid() && ep < n && es[ep].valid == Cached && es[ep].parent <= n && |out| == n + 1
          && out[es[ep].parent] > 0
      ensures Inv(Taken(es, ep), order, out[ep := out[ep] + 1], path, n)
    {
      HitKeeps(es, order, out, path, n, ep);
    }

    /** eget's first loop. */
    method Find(parent: nat, name: string) returns (hit: bool, ep: nat)
      requires Valid()
      ensures |es| == n + 1
      ensures hit ==> ep < n && Match(es[ep], parent, name)
      ensures !hit ==> forall c :: 0 <= c < n ==> !Match(es[c], parent, name)
    {
      hide Inv, Circle;
      Sizes();
      Neighbours(links, order, n, 0);
      Neighbours(links, order, n, 1);
      ep := links.next[n];
      ghost var i := 1;
      while ep != n
        invariant 1 <= i <= n + 1 && |order| == n && ep == Stop(order, n, i) && ep <= n
        invariant forall j :: 0 <= j < i - 1 ==> order[j] < |es| && !Match(es[order[j]], parent, name)
        decreases n + 1 - i
      {
        Neighbours(links, order, n, i);
        if es[ep].valid == Cached && es[ep].parent == parent && es[ep].name == name {
          return true, ep;
        }
        ep := links.next[ep];
        i := i + 1;
        Neighbours(links, order, n, i);
      }
      Neighbours(links, order, n, i);
      forall c | 0 <= c < n
        ensures !Match(es[c], parent, name)
      {
        ghost var j := Place(c);
      }
      return false, 0;
    }

    lemma Place(c: nat) returns (j: nat)
      requires Valid() && c < n
      ensures j < |order| && order[j] == c
    {
      assert c in order;
      j :| 0 <= j < |order| && order[j] == c;
    }

    /** eget's second loop, from the tail. */
    method FindUnused() returns (found: bool, ep: nat)
      requires Valid()
      ensures |es| == n + 1
      ensures found ==> ep < n && es[ep].ref == 0 && forall c :: 0 <= c < n && Named(es[c]) ==> es[c].parent != ep
      ensures !found ==> forall c :: 0 <= c < n ==> es[c].ref > 0
    {
      hide Inv, Circle, Named;
      Sizes();
      Neighbours(links, order, n, n + 1);
      Neighbours(links, order, n, n);
      ep := links.prev[n];
      ghost var i: nat := n;
      while ep != n
        invariant i <= n && |order| == n && ep == Stop(order, n, i) && ep <= n
        invariant forall j :: i <= j < n ==> order[j] < |es| && es[order[j]].ref > 0
        decreases i
      {
        Neighbours(links, order, n, i);
        if es[ep].ref == 0 {
          forall c | 0 <= c < n && Named(es[c])
            ensures es[c].parent != ep
          {
            RecycleSafe(es, order, out, path, n, i - 1, c);
          }
          return true, ep;
        }
        ep := links.prev[ep];
        i := i - 1;
        Neighbours(links, order, n, i);
      }
      Neighbours(links, order, n, i);
      forall c | 0 <= c < n
        ensures es[c].ref > 0
      {
        ghost var j := Place(c);
      }
      return false, 0;
    }

    lemma PlaceInUse(e: nat) returns (k: nat)
      requires Valid() && e < n && es[e].valid != Empty && es[e].ref == 1 && |out| == n + 1 && out[e] > 0
      ensures k < n && |order| == n && order[k] == e && es[e].parent <= n && es[e].parent != e
      ensures Inv(Dropped(es, e), ToFront(order, k),
          out[e := out[e] - 1][es[e].parent := out[e := out[e] - 1][es[e].parent] + 1], path, n)
      ensures Lives(Dropped(es, e), n) < Lives(es, n)
      ensures e < |links.next| && links.next[e] <= n && links.prev[e] <= n && |links.next| == |links.prev| == n + 1
      ensures |Unlink(links, e).next| == |Unlink(links, e).prev| == n + 1
          && Circle(PushFront(Unlink(links, e), e, n), ToFront(order, k), n)
    {
      hide Unlink, PushFront, ToFront, Kids;
      k := Place(e);
      LastKeeps(es, order, out, path, n, k);
      LivesPut(es, e, Dropped(es, e)[e], n);
      FrontKeeps(links, order, n, k);
      Neighbours(links, order, n, k + 1);
      Neighbours(links, order, n, k);
    }

    /** eput: the handle is given back, and with the last one the references up the path. */
    method Put(e: nat)
      requires Valid() && e <= n && |out| == |es| == n + 1 && out[e] > 0
      modifies this
      ensures Valid() && SameFiles(old(es), es) && path == old(path)
      ensures out == old(out)[e := old(out)[e] - 1]
      ensures old(es)[e].valid == Empty ==> es == old(es)[e := old(es)[e].(ref := old(es)[e].ref - 1)]
      decreases Lives(es, n)
    {
      hide Inv, Circle, Unlink, PushFront, ToFront;
      Sizes();
      if e != n && es[e].valid != Empty && es[e].ref == 1 {
        ghost var k := PlaceInUse(e);
        links := PushFront(Unlink(links, e), e, n);
        order := ToFront(order, k);
        var eparent := es[e].parent;
        es := es[e := es[e].(ref := es[e].ref - 1)];
        out := out[e := out[e] - 1];
        out := out[eparent := out[eparent] + 1];
        Put(eparent);
      } else {
        DropKeeps(es, order, out, path, n, e);
        es := es[e := es[e].(ref := es[e].ref - 1)];
        out := out[e := out[e] - 1];
      }
    }

    /** eremove, of an entry that the caller holds: no lookup finds it from now on. */
    method Remove(e: nat)
      requires Valid() && e < n && |out| == |es| == n + 1 && out[e] > 0
      modifies this
      ensures Valid() && out == old(out) && path == old(path)
      ensures es == if old(es)[e].valid == Cached then old(es)[e := old(es)[e].(valid := Removed)] else old(es)
    {
      hide Inv, Circle;
      if es[e].valid == Cached {
        RemoveKeeps(es, order, out, path, n, e);
        es := es[e := es[e].(valid := Removed)];
      }
    }

    lemma HeldInUse(e: nat)
      requires Valid() && e <= n && |out| == |es| == n + 1 && out[e] > 0
      ensures es[e].ref > 0
      ensures e < n && es[e].valid != Empty ==>
          es[e].parent <= n && es[es[e].parent].ref > 0 && |path| == n + 1
          && path[e] == path[es[e].parent] + [es[e].name]
    {
      hide Kids;
      if e < n && es[e].valid != Empty {
        ParentUsed(es, out, n, e);
      }
    }

    /** What callers hold stays what it was. */
    twostate predicate Undisturbed()
      reads this
    {
      && old(|out|) == old(|es|) == old(|path|) == |path| == |es| == n + 1
      && forall c :: 0 <= c <= n && old(out)[c] > 0 ==> path[c] == old(path)[c] && es[c].valid == old(es)[c].valid
    }

    /**
     dirlookup(dp, name), by a caller that holds dp. found: whether the directory on disk lists the name.
     A handle comes back for the file of that path, and for no other.
     */
    method Lookup(dp: nat, name: string, found: bool) returns (r: Result)
      requires Valid() && dp <= n && |out| == |es| == |path| == n + 1 && out[dp] > 0 && es[dp].valid != Empty
      modifies this
      ensures Valid() && Undisturbed() && |out| == n + 1
      ensures r.Got? ==> r.e <= n && es[r.e].valid != Empty && out == old(out)[r.e := old(out)[r.e] + 1]
      ensures !r.Got? ==> out == old(out)
      ensures r.Got? && name != "." && name != ".." ==> es[r.e].valid == Cached && path[r.e] == old(path)[dp] + [name]
      ensures r.Got? && name == "." ==> r.e == dp
      ensures r.Got? && name == ".." ==> path[r.e] == if dp == n then [] else old(path)[dp][..|old(path)[dp]| - 1]
      ensures r == Panic <==>
              name != "." && name != ".." && old(es)[dp].valid == Cached && NoRoom(old(es), n, dp, name)
      ensures r == Missing <==>
              name != "." && name != ".." &&
              (old(es)[dp].valid == Cached ==>
                !found && NotIn(old(es), n, dp, name) && !NoRoom(old(es), n, dp, name))
      ensures r == Missing && old(es)[dp].valid == Cached ==> NotIn(es, n, dp, name)
    {
      hide Inv, Circle;
      HeldInUse(dp);
      PathRoot();
      if name == "." {
        Dup(dp);
        return Got(dp);
      } else if name == ".." {
        if dp == n {
          Dup(n);
          return Got(n);
        }
        NotEmptyParent(dp);
        Dup(es[dp].parent);
        return Got(es[dp].parent);
      }
      if es[dp].valid != Cached {
        return Missing;
      }
      r := LookIn(dp, name, found);
    }

    /** The rest of dirlookup: the cache, then the directory. */
    method LookIn(dp: nat, name: string, found: bool) returns (r: Result)
      requires Valid() && dp <= n && |out| == |es| == |path| == n + 1 && out[dp] > 0 && es[dp].valid == Cached
      modifies this
      ensures Valid() && Undisturbed() && |out| == n + 1
      ensures r.Got? ==> r.e < n && es[r.e].valid == Cached && out == old(out)[r.e := old(out)[r.e] + 1]
                         && path[r.e] == old(path)[dp] + [name]
      ensures !r.Got? ==> out == old(out)
      ensures r == Panic <==> NoRoom(old(es), n, dp, name)
      ensures r == Missing <==> !found && NotIn(old(es), n, dp, name) && !NoRoom(old(es), n, dp, name)
      ensures r == Missing ==> NotIn(es, n, dp, name) && exists c :: 0 <= c < n && es[c].ref == 0
    {
      hide Inv, Circle;
      r := Get(dp, name);
      if r == Panic {
        return;
      }
      var ep := r.e;
      if es[ep].valid == Cached {
        assert Match(es[ep], dp, name);
        HeldInUse(ep);
        return;
      }
      ClearedHeld(ep, dp);
      if found {
        FillKeeps(es, order, out, path, n, ep, dp, name);
        es := es[ep := Entry(Cached, es[ep].ref, dp, name)];
        es := es[dp := es[dp].(ref := es[dp].ref + 1)];
        path := path[ep := path[dp] + [name]];
        return;
      }
      Put(ep);
      r := Missing;
    }

    /** ealloc: as dirlookup, but a name that the directory does not list gets an entry. */
    method Alloc(dp: nat, name: string, found: bool) returns (r: Result)
      requires Valid() && dp <= n && |out| == |es| == |path| == n + 1 && out[dp] > 0 && es[dp].valid != Empty
          && name != "." && name != ".."
      modifies this
      ensures Valid() && Undisturbed() && |out| == n + 1
      ensures r.Got? ==> r.e < n && es[r.e].valid == Cached && out == old(out)[r.e := old(out)[r.e] + 1]
                         && path[r.e] == old(path)[dp] + [name]
      ensures !r.Got? ==> out == old(out)
      ensures r == Missing <==> old(es)[dp].valid != Cached
      ensures r == Panic <==> old(es)[dp].valid == Cached && NoRoom(old(es), n, dp, name)
    {
      hide Inv, Circle, Match;
      if es[dp].valid != Cached {
        return Missing;
      }
      r := LookIn(dp, name, found);
      if r == Missing {
        r := Get(dp, name);
        if r.Got? {
          var ep := r.e;
          ClearedHeld(ep, dp);
          FillKeeps(es, order, out, path, n, ep, dp, name) by { NoMatch(es, ep, dp, name); }
          es := es[ep := Entry(Cached, es[ep].ref, dp, name)];
          es := es[dp := es[dp].(ref := es[dp].ref + 1)];
          path := path[ep := path[dp] + [name]];
        }
      }
    }

    lemma PathRoot()
      requires Valid()
      ensures |path| == n + 1 && path[n] == [] && |es| == n + 1 && es[n].valid == Cached
    {
    }

    lemma NotEmptyParent(e: nat)
      requires Valid() && e < n && |out| == |es| == n + 1 && out[e] > 0 && es[e].valid != Empty
      ensures es[e].parent <= n && es[es[e].parent].valid != Empty
    {
      HeldInUse(e);
    }

    lemma ClearedHeld(ep: nat, dp: nat)
      requires Valid() && ep < n && dp <= n && |out| == |es| == n + 1 && out[ep] > 0 && out[dp] > 0
      ensures es[ep].ref > 0 && es[dp].ref > 0
    {
    }
  }
}
