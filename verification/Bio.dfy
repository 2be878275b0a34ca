/**
 The buffer cache (kernel/bio.c): buffers in least-recently-used order over a write-through disk. Many callers may be
 inside at once: a call of bread gets its buffer under the cache's lock, waits for the buffer's sleep lock, fills the
 buffer if it must, and keeps it locked until brelse gives first the lock and then the reference back.
 */
module BufferCache {
  import opened LruList
  import opened ByteSeq
  import opened Options

  datatype Id = Id(dev: nat, sectorno: nat)

  /** owner: the call that has the buffer's sleep lock. */
  datatype Buf = Buf(valid: bool, id: Id, refcnt: nat, owner: Option<nat>, data: seq<byte>)

  type Disk = map<Id, seq<byte>>

  /** How far a call of bread has come, and brelse after it. */
  datatype Stage = Waits | Fills | Holds | Leaves

  datatype Client = Client(stage: Stage, b: nat, id: Id)

  /** order: the buffers, most recently used first. */
  datatype State = State(bufs: seq<Buf>, order: seq<nat>, disk: Disk, clients: map<nat, Client>)

  /** What call h does next. Lock: the wait for the sleep lock is over; Unlock and Drop: the two halves of brelse. */
  datatype Event = Get(h: nat, id: Id) | Lock(h: nat) | Fill(h: nat) | Change(h: nat, data: seq<byte>)
    | Write(h: nat) | Unlock(h: nat) | Drop(h: nat)

  /** dev and sectorno of a buffer that has never been used. */
  const UNUSED: Id := Id(0xffff_ffff, 0xffff_ffff)

  // ----- one step -----

  /** The first buffer of the sector. */
  function Hit(bufs: seq<Buf>, order: seq<nat>, id: Id): Option<nat> {
    if order == [] then None
    else if order[0] < |bufs| && bufs[order[0]].id == id then Some(order[0])
    else Hit(bufs, order[1..], id)
  }

  /** The last buffer that nobody uses. */
  function Free(bufs: seq<Buf>, order: seq<nat>): Option<nat> {
    if order == [] then None
    else
      var b := order[|order| - 1];
      if b < |bufs| && bufs[b].refcnt == 0 then Some(b) else Free(bufs, order[..|order| - 1])
  }

  function IndexOf(order: seq<nat>, b: nat): (r: nat)
    ensures r <= |order| && (r < |order| ==> order[r] == b) && (b in order ==> r < |order|)
  {
    if order == [] || order[0] == b then 0 else 1 + IndexOf(order[1..], b)
  }

  /** Buffer b and call h change. */
  function Put(s: State, h: nat, c: Client, x: Buf): State
    requires c.b < |s.bufs|
  {
    s.(bufs := s.bufs[c.b := x], clients := s.clients[h := c])
  }

  /** bget under the cache's lock: the sector's buffer, or the least recently used one that nobody uses. */
  function Got(s: State, h: nat, id: Id): State {
    match Hit(s.bufs, s.order, id)
    case Some(b) => if b < |s.bufs| then Put(s, h, Client(Waits, b, id), Shared(s.bufs[b])) else s
    case None =>
      match Free(s.bufs, s.order)
      case Some(b) => if b < |s.bufs| then Put(s, h, Client(Waits, b, id), Recycled(s.bufs[b], id)) else s
      case None => s
  }

  function Shared(x: Buf): Buf { x.(refcnt := x.refcnt + 1) }

  function Recycled(x: Buf, id: Id): Buf { x.(valid := false, id := id, refcnt := 1) }

  function Filled(x: Buf, disk: Disk): Buf {
    if x.valid || x.id !in disk then x else x.(valid := true, data := disk[x.id])
  }

  /** The reference goes; a buffer that nobody uses any more moves to the front. */
  function Dropped(s: State, h: nat, b: nat): State
    requires b < |s.bufs|
  {
    var x := s.bufs[b];
    var x' := x.(refcnt := if x.refcnt > 0 then x.refcnt - 1 else 0);
    var k := IndexOf(s.order, b);
    s.(bufs := s.bufs[b := x'], clients := s.clients - {h},
       order := if x'.refcnt == 0 && k < |s.order| then ToFront(s.order, k) else s.order)
  }

  function Stepped(s: State, h: nat, c: Client, ev: Event): State
    requires c.b < |s.bufs|
  {
    var x := s.bufs[c.b];
    match ev
    case Get(_, _) => s
    case Lock(_) =>
      if c.stage == Waits && x.owner == None then Put(s, h, c.(stage := Fills), x.(owner := Some(h))) else s
    case Fill(_) => if c.stage == Fills then Put(s, h, c.(stage := Holds), Filled(x, s.disk)) else s
    case Change(_, data) => if c.stage == Holds then Put(s, h, c, x.(data := data)) else s
    case Write(_) => if c.stage == Holds then s.(disk := s.disk[x.id := x.data]) else s
    case Unlock(_) => if c.stage == Holds then Put(s, h, c.(stage := Leaves), x.(owner := None)) else s
    case Drop(_) => if c.stage == Leaves then Dropped(s, h, c.b) else s
  }

  /**
   What an event does. A call that has to wait, or is not that far, leaves everything as it is; so does one that finds
   no buffer, after which the kernel has panicked.
   */
  function Next(s: State, ev: Event): State {
    if ev.Get? then (if ev.h in s.clients || ev.id !in s.disk then s else Got(s, ev.h, ev.id))
    else if ev.h in s.clients && s.clients[ev.h].b < |s.bufs| then Stepped(s, ev.h, s.clients[ev.h], ev)
    else s
  }

  function Run(s: State, evs: seq<Event>): State {
    if evs == [] then s else Next(Run(s, evs[..|evs| - 1]), evs[|evs| - 1])
  }

  // ----- the invariant -----

  /** No sector is cached twice. */
  ghost predicate Unique(bufs: seq<Buf>) {
    forall b, c :: 0 <= b < c < |bufs| && bufs[b].id == bufs[c].id ==> bufs[b].id == UNUSED
  }

  ghost predicate Listed(order: seq<nat>, n: nat) {
    |order| == n && Nodes(order, n) && forall b :: 0 <= b < n ==> b in order
  }

  /** The calls that refer to buffer b. */
  function On(clients: map<nat, Client>, b: nat): set<nat> {
    set h | h in clients && clients[h].b == b
  }

  /** refcnt counts the calls inside, those that wait included. */
  ghost predicate Counted(bufs: seq<Buf>, clients: map<nat, Client>) {
    forall b :: 0 <= b < |bufs| ==> bufs[b].refcnt == |On(clients, b)|
  }

  predicate Locks(stage: Stage) { stage == Fills || stage == Holds }

  predicate InPlace(s: State, h: nat)
    requires h in s.clients
  {
    var c := s.clients[h];
    && c.b < |s.bufs| && s.bufs[c.b].id == c.id && c.id in s.disk
    && (Locks(c.stage) <==> s.bufs[c.b].owner == Some(h)) && (c.stage == Holds ==> s.bufs[c.b].valid)
  }

  predicate Owned(s: State, b: nat)
    requires b < |s.bufs|
  {
    var x := s.bufs[b];
    && (x.owner.Some? ==> x.owner.value in s.clients && s.clients[x.owner.value].b == b)
    && (x.valid ==> x.id in s.disk)
  }

  ghost predicate Inv(s: State) {
    && Listed(s.order, |s.bufs|) && Unique(s.bufs) && Counted(s.bufs, s.clients) && UNUSED !in s.disk
    && (forall h :: h in s.clients ==> InPlace(s, h))
    && (forall b :: 0 <= b < |s.bufs| ==> Owned(s, b))
  }

  /** In every state that may come up, at most one call has a sector's buffer. */
  lemma OneHolder(s: State, g: nat, h: nat)
    requires Inv(s) && g in s.clients && h in s.clients && g != h && Locks(s.clients[g].stage)
    ensures s.clients[g].id == s.clients[h].id ==> s.clients[g].b == s.clients[h].b && !Locks(s.clients[h].stage)
  {
    assert InPlace(s, g) && InPlace(s, h);
  }

  lemma HitIs(bufs: seq<Buf>, order: seq<nat>, id: Id)
    ensures match Hit(bufs, order, id)
            case Some(b) => b in order && b < |bufs| && bufs[b].id == id
            case None => forall b :: b in order && b < |bufs| ==> bufs[b].id != id
  {
    if order != [] {
      HitIs(bufs, order[1..], id);
      assert order == [order[0]] + order[1..];
    }
  }

  lemma FreeIs(bufs: seq<Buf>, order: seq<nat>)
    ensures match Free(bufs, order)
            case Some(b) => b in order && b < |bufs| && bufs[b].refcnt == 0
            case None => forall b :: b in order && b < |bufs| ==> bufs[b].refcnt > 0
  {
    if order != [] {
      FreeIs(bufs, order[..|order| - 1]);
      assert order == order[..|order| - 1] + [order[|order| - 1]];
    }
  }

  lemma OnStays(clients: map<nat, Client>, h: nat, c: Client, b: nat)
    requires h in clients && clients[h].b == c.b
    ensures On(clients[h := c], b) == On(clients, b)
  {
  }

  lemma OnEnters(clients: map<nat, Client>, h: nat, c: Client, b: nat)
    requires h !in clients
    ensures |On(clients[h := c], b)| == |On(clients, b)| + if c.b == b then 1 else 0
  {
    assert On(clients[h := c], b) == if c.b == b then On(clients, b) + {h} else On(clients, b);
  }

  lemma OnDrop(clients: map<nat, Client>, h: nat, b: nat)
    requires h in clients
    ensures |On(clients, b)| == |On(clients - {h}, b)| + if clients[h].b == b then 1 else 0
  {
    assert On(clients - {h}, b) == On(clients, b) - {h};
  }

  lemma CountedPut(bufs: seq<Buf>, clients: map<nat, Client>, h: nat, c: Client, x: Buf)
    requires Counted(bufs, clients) && c.b < |bufs|
    requires if h in clients then clients[h].b == c.b && x.refcnt == bufs[c.b].refcnt
             else x.refcnt == bufs[c.b].refcnt + 1
    ensures Counted(bufs[c.b := x], clients[h := c])
  {
    var bufs' := bufs[c.b := x];
    forall b | 0 <= b < |bufs'|
      ensures bufs'[b].refcnt == |On(clients[h := c], b)|
    {
      if h in clients {
        OnStays(clients, h, c, b);
      } else {
        OnEnters(clients, h, c, b);
      }
    }
  }

  lemma UniquePut(bufs: seq<Buf>, b: nat, x: Buf)
    requires Unique(bufs) && b < |bufs|
    requires x.id == bufs[b].id || forall c :: 0 <= c < |bufs| ==> bufs[c].id != x.id
    ensures Unique(bufs[b := x])
  {
  }

  /** A call that is inside goes one stage on. */
  lemma PutKeeps(s: State, h: nat, c: Client, x: Buf)
    requires Inv(s) && h in s.clients && c.b == s.clients[h].b && c.id == s.clients[h].id && c.b < |s.bufs|
    requires var y := s.bufs[c.b];
             && x.id == y.id && x.refcnt == y.refcnt && (x.valid ==> x.id in s.disk) && (c.stage == Holds ==> x.valid)
             && (x.owner == y.owner || {x.owner, y.owner} == {None, Some(h)})
             && (Locks(c.stage) <==> x.owner == Some(h)) && (y.valid ==> x.valid)
    ensures Inv(Put(s, h, c, x))
  {
    hide Listed, Unique, Counted, On, Locks;
    var t := Put(s, h, c, x);
    assert InPlace(s, h) && Owned(s, c.b);
    CountedPut(s.bufs, s.clients, h, c, x);
    UniquePut(s.bufs, c.b, x);
    forall g | g in t.clients
      ensures InPlace(t, g)
    {
      assert InPlace(s, g);
    }
    forall b | 0 <= b < |t.bufs|
      ensures Owned(t, b)
    {
      assert Owned(s, b);
    }
  }

  lemma WriteKeeps(s: State, h: nat)
    requires Inv(s) && h in s.clients && s.clients[h].b < |s.bufs| && s.clients[h].stage == Holds
    ensures Inv(s.(disk := s.disk[s.bufs[s.clients[h].b].id := s.bufs[s.clients[h].b].data]))
  {
    hide Listed, Unique, Counted, Locks;
    assert InPlace(s, h);
    var t := s.(disk := s.disk[s.bufs[s.clients[h].b].id := s.bufs[s.clients[h].b].data]);
    forall g | g in t.clients
      ensures InPlace(t, g)
    {
      assert InPlace(s, g);
    }
    forall b | 0 <= b < |t.bufs|
      ensures Owned(t, b)
    {
      assert Owned(s, b);
    }
  }

  lemma NobodyOn(s: State, b: nat)
    requires Inv(s) && b < |s.bufs| && s.bufs[b].refcnt == 0
    ensures s.bufs[b].owner == None && forall h :: h in s.clients ==> s.clients[h].b != b
  {
    hide Listed, Unique;
    assert On(s.clients, b) == {};
    assert Owned(s, b);
    forall h | h in s.clients
      ensures s.clients[h].b != b
    {
      assert s.clients[h].b == b ==> h in On(s.clients, b);
    }
  }

  /** A new call comes in, on a buffer of its sector or on one that nobody uses. */
  lemma EnterKeeps(s: State, h: nat, c: Client, x: Buf)
    requires Inv(s) && h !in s.clients && c.stage == Waits && c.b < |s.bufs| && c.id in s.disk && x.id == c.id
    requires var y := s.bufs[c.b];
             && x.refcnt == y.refcnt + 1 && x.owner == y.owner
             && (x == y.(refcnt := y.refcnt + 1) ||
                 (y.refcnt == 0 && !x.valid && forall b :: 0 <= b < |s.bufs| ==> s.bufs[b].id != x.id))
    ensures Inv(Put(s, h, c, x))
  {
    hide Listed, Unique, Counted, On, Locks;
    var t := Put(s, h, c, x);
    CountedPut(s.bufs, s.clients, h, c, x);
    UniquePut(s.bufs, c.b, x);
    if s.bufs[c.b].refcnt == 0 {
      NobodyOn(s, c.b);
    }
    assert Owned(s, c.b);
    LocksWaits();
    forall g | g in t.clients
      ensures InPlace(t, g)
    {
      if g != h {
        assert InPlace(s, g);
      }
    }
    forall b | 0 <= b < |t.bufs|
      ensures Owned(t, b)
    {
      assert Owned(s, b);
    }
  }

  lemma LocksWaits()
    ensures !Locks(Waits) && !Locks(Leaves) && Locks(Fills) && Locks(Holds)
  {
  }

  lemma GotKeeps(s: State, h: nat, id: Id)
    requires Inv(s) && h !in s.clients && id in s.disk
    ensures Inv(Got(s, h, id))
  {
    hide Hit, Free, Unique, Counted, InPlace, Owned, Put;
    HitIs(s.bufs, s.order, id);
    FreeIs(s.bufs, s.order);
    match Hit(s.bufs, s.order, id) {
      case Some(b) =>
        EnterKeeps(s, h, Client(Waits, b, id), Shared(s.bufs[b]));
      case None =>
        if Free(s.bufs, s.order).Some? {
          var b := Free(s.bufs, s.order).value;
          EnterKeeps(s, h, Client(Waits, b, id), Recycled(s.bufs[b], id));
        }
    }
  }

  lemma FrontListed(order: seq<nat>, k: nat, n: nat)
    requires Listed(order, n) && k < |order|
    ensures Listed(ToFront(order, k), n)
  {
    FrontAt(order, k);
    var t := ToFront(order, k);
    forall i, j | 0 <= i < j < |t|
      ensures t[i] != t[j]
    {
    }
    forall i | 0 <= i < |t|
      ensures t[i] < n
    {
      assert t[i] in order;
    }
  }

  lemma DropKeeps(s: State, h: nat)
    requires Inv(s) && h in s.clients && s.clients[h].b < |s.bufs| && s.clients[h].stage == Leaves
    ensures Inv(Dropped(s, h, s.clients[h].b)) && s.bufs[s.clients[h].b].refcnt > 0
  {
    hide Listed, Unique, On, Locks, ToFront, IndexOf;
    LocksWaits();
    var b := s.clients[h].b;
    var t := Dropped(s, h, b);
    assert InPlace(s, h);
    OnDrop(s.clients, h, b);
    forall a | 0 <= a < |s.bufs|
      ensures t.bufs[a].refcnt == |On(t.clients, a)|
    {
      OnDrop(s.clients, h, a);
    }
    UniquePut(s.bufs, b, t.bufs[b]);
    var k := IndexOf(s.order, b);
    if k < |s.order| {
      FrontListed(s.order, k, |s.bufs|);
    }
    forall g | g in t.clients
      ensures InPlace(t, g)
    {
      assert InPlace(s, g);
    }
    forall a | 0 <= a < |t.bufs|
      ensures Owned(t, a)
    {
      assert Owned(s, a);
    }
  }

  /** Every event keeps the invariant. */
  lemma NextKeeps(s: State, ev: Event)
    requires Inv(s)
    ensures Inv(Next(s, ev))
  {
    hide Listed, Unique, Counted, Owned, Got, Put, Dropped;
    if ev.Get? {
      if ev.h !in s.clients && ev.id in s.disk {
        GotKeeps(s, ev.h, ev.id);
      }
    } else if ev.h in s.clients {
      assert InPlace(s, ev.h);
      var c := s.clients[ev.h];
      var x := s.bufs[c.b];
      ValidThere(s, c.b);
      match ev {
        case Lock(h) => if c.stage == Waits && x.owner == None {
          PutKeeps(s, h, c.(stage := Fills), x.(owner := Some(h)));
        }
        case Fill(h) => if c.stage == Fills {
          PutKeeps(s, h, c.(stage := Holds), Filled(x, s.disk));
        }
        case Change(h, data) => if c.stage == Holds {
          PutKeeps(s, h, c, x.(data := data));
        }
        case Write(h) => if c.stage == Holds {
          WriteKeeps(s, h);
        }
        case Unlock(h) => if c.stage == Holds {
          PutKeeps(s, h, c.(stage := Leaves), x.(owner := None));
        }
        case Drop(h) => if c.stage == Leaves {
          DropKeeps(s, h);
        }
      }
    }
  }

  lemma ValidThere(s: State, b: nat)
    requires Inv(s) && b < |s.bufs|
    ensures s.bufs[b].valid ==> s.bufs[b].id in s.disk
  {
    assert Owned(s, b);
  }

  // ----- transparency -----

  /** What an event is, seen from outside: Reads is what a call of bread finds, Forgets a sector losing its buffer. */
  datatype Effect = Nothing | Reads(id: Id, data: seq<byte>) | Changes(id: Id, data: seq<byte>) | Writes(id: Id)
    | Forgets(id: Id)

  function Effects(s: State, ev: Event): Effect {
    if ev.Get? then
      if ev.h in s.clients || ev.id !in s.disk || Hit(s.bufs, s.order, ev.id).Some? then Nothing
      else
        match Free(s.bufs, s.order)
        case Some(b) => if b < |s.bufs| && s.bufs[b].id in s.disk then Forgets(s.bufs[b].id) else Nothing
        case None => Nothing
    else if ev.h !in s.clients || s.clients[ev.h].b >= |s.bufs| then Nothing
    else
      var c := s.clients[ev.h];
      match ev
      case Fill(_) => if c.stage == Fills then Reads(c.id, Filled(s.bufs[c.b], s.disk).data) else Nothing
      case Change(_, data) => if c.stage == Holds then Changes(c.id, data) else Nothing
      case Write(_) => if c.stage == Holds then Writes(c.id) else Nothing
      case _ => Nothing
  }

  /** Two plain arrays of sectors: what bread shows, and what is on the disk. */
  datatype Plain = Plain(seen: Disk, disk: Disk)

  function PlainNext(p: Plain, e: Effect): Plain {
    match e
    case Nothing => p
    case Reads(_, _) => p
    case Changes(id, data) => p.(seen := p.seen[id := data])
    case Writes(id) => if id in p.seen then p.(disk := p.disk[id := p.seen[id]]) else p
    case Forgets(id) => if id in p.disk then p.(seen := p.seen[id := p.disk[id]]) else p
  }

  /** A sector shows what its buffer has, or else what the disk has. */
  ghost predicate Shows(s: State, seen: Disk) {
    && seen.Keys == s.disk.Keys
    && (forall b :: 0 <= b < |s.bufs| && s.bufs[b].valid && s.bufs[b].id in seen ==>
        seen[s.bufs[b].id] == s.bufs[b].data)
    && (forall id :: id in seen ==> seen[id] == s.disk[id] || exists b :: 0 <= b < |s.bufs| && Caches(s.bufs[b], id))
  }

  predicate Caches(x: Buf, id: Id) { x.valid && x.id == id }

  ghost predicate Stands(s: State, p: Plain) { Shows(s, p.seen) && p.disk == s.disk }

  /** Buffer b, of sector id, and what the sector shows change together. */
  lemma ShowsPut(s: State, h: nat, c: Client, x: Buf, seen: Disk, seen': Disk)
    requires Inv(s) && Shows(s, seen) && c.b < |s.bufs| && x.id == s.bufs[c.b].id && x.id in s.disk
    requires seen' == (if x.valid then seen[x.id := x.data] else seen) && (s.bufs[c.b].valid ==> x.valid)
    ensures Shows(Put(s, h, c, x), seen')
  {
    hide Listed, Counted, InPlace, Owned;
    var t := Put(s, h, c, x);
    forall id | id in seen'
      ensures seen'[id] == t.disk[id] || exists b :: 0 <= b < |t.bufs| && Caches(t.bufs[b], id)
    {
      if x.valid && id == x.id {
        assert Caches(t.bufs[c.b], id);
      } else if seen[id] != s.disk[id] {
        var b :| 0 <= b < |s.bufs| && Caches(s.bufs[b], id);
        assert Caches(t.bufs[b], id);
      }
    }
  }

  /** The buffer that is recycled takes what its sector showed with it. */
  lemma ShowsRecycled(s: State, h: nat, b: nat, id: Id, seen: Disk)
    requires Inv(s) && Shows(s, seen) && b < |s.bufs| && id in s.disk
    requires forall a :: 0 <= a < |s.bufs| ==> s.bufs[a].id != id
    ensures var out := s.bufs[b].id;
            Shows(Put(s, h, Client(Waits, b, id), Recycled(s.bufs[b], id)),
                if out in s.disk then seen[out := s.disk[out]] else seen)
  {
    hide Listed, Counted, InPlace, Owned;
    var out := s.bufs[b].id;
    var t := Put(s, h, Client(Waits, b, id), Recycled(s.bufs[b], id));
    var seen' := if out in s.disk then seen[out := s.disk[out]] else seen;
    forall i | i in seen'
      ensures seen'[i] == t.disk[i] || exists a :: 0 <= a < |t.bufs| && Caches(t.bufs[a], i)
    {
      if i != out && seen[i] != s.disk[i] {
        var a :| 0 <= a < |s.bufs| && Caches(s.bufs[a], i);
        assert Caches(t.bufs[a], i);
      }
    }
  }

  lemma ShowsWrite(s: State, b: nat, p: Plain)
    requires Inv(s) && Stands(s, p) && b < |s.bufs| && s.bufs[b].valid && s.bufs[b].id in s.disk
    ensures Stands(s.(disk := s.disk[s.bufs[b].id := s.bufs[b].data]), PlainNext(p, Writes(s.bufs[b].id)))
  {
    hide Listed, Counted, InPlace, Owned;
    var t := s.(disk := s.disk[s.bufs[b].id := s.bufs[b].data]);
    forall id | id in p.seen
      ensures p.seen[id] == t.disk[id] || exists a :: 0 <= a < |t.bufs| && Caches(t.bufs[a], id)
    {
      if id != s.bufs[b].id && p.seen[id] != s.disk[id] {
        var a :| 0 <= a < |s.bufs| && Caches(s.bufs[a], id);
        assert Caches(t.bufs[a], id);
      }
    }
  }

  /** What is shown depends on data, ids and valid flags only. */
  lemma ShowsSame(s: State, t: State, seen: Disk)
    requires Shows(s, seen) && s.disk == t.disk && |s.bufs| == |t.bufs|
    requires forall b :: 0 <= b < |s.bufs| ==>
        t.bufs[b].valid == s.bufs[b].valid && t.bufs[b].id == s.bufs[b].id && t.bufs[b].data == s.bufs[b].data
    ensures Shows(t, seen)
  {
    forall id | id in seen
      ensures seen[id] == t.disk[id] || exists b :: 0 <= b < |t.bufs| && Caches(t.bufs[b], id)
    {
      if seen[id] != s.disk[id] {
        var b :| 0 <= b < |s.bufs| && Caches(s.bufs[b], id);
        assert Caches(t.bufs[b], id);
      }
    }
  }

  lemma ShowsHeld(s: State, h: nat, p: Plain)
    requires Inv(s) && Stands(s, p) && h in s.clients
    ensures s.clients[h].b < |s.bufs| && s.bufs[s.clients[h].b].id == s.clients[h].id && s.clients[h].id in p.seen
    ensures s.clients[h].id in s.disk
    ensures s.clients[h].stage == Holds ==>
              s.bufs[s.clients[h].b].valid && p.seen[s.clients[h].id] == s.bufs[s.clients[h].b].data
    ensures s.bufs[s.clients[h].b].valid ==> p.seen[s.clients[h].id] == s.bufs[s.clients[h].b].data
  {
    assert InPlace(s, h);
  }

  /** A buffer that is not valid yet is its sector's only one: the sector shows the disk. */
  lemma NotYetValid(s: State, b: nat, p: Plain)
    requires Inv(s) && Stands(s, p) && b < |s.bufs| && !s.bufs[b].valid && s.bufs[b].id in s.disk
    ensures p.seen[s.bufs[b].id] == s.disk[s.bufs[b].id]
  {
    hide Listed, Counted, InPlace, Owned;
    forall a | 0 <= a < |s.bufs|
      ensures !Caches(s.bufs[a], s.bufs[b].id)
    {
    }
  }

  /**
   Every event of every call does to the cache what it does to the plain arrays, and what bread finds is what the
   array shows.
   */
  lemma NextRefines(s: State, ev: Event, p: Plain)
    requires Inv(s) && Stands(s, p)
    ensures Inv(Next(s, ev)) && Stands(Next(s, ev), PlainNext(p, Effects(s, ev)))
    ensures Effects(s, ev).Reads? ==>
              Effects(s, ev).id in p.seen && p.seen[Effects(s, ev).id] == Effects(s, ev).data
  {
    hide Inv, Shows, Got, Dropped;
    NextKeeps(s, ev);
    if ev.Get? {
      if ev.h !in s.clients && ev.id in s.disk {
        GotRefines(s, ev.h, ev.id, p);
      }
    } else if ev.h in s.clients {
      ShowsHeld(s, ev.h, p);
      var c := s.clients[ev.h];
      var x := s.bufs[c.b];
      match ev {
        case Lock(h) => if c.stage == Waits && x.owner == None {
          ShowsSame(s, Put(s, h, c.(stage := Fills), x.(owner := Some(h))), p.seen);
        }
        case Fill(h) => if c.stage == Fills {
          if !x.valid {
            NotYetValid(s, c.b, p);
          }
          var y := Filled(x, s.disk);
          assert y.valid && p.seen[c.id] == y.data && p.seen[y.id := y.data] == p.seen;
          ShowsPut(s, h, c.(stage := Holds), y, p.seen, p.seen);
        }
        case Change(h, data) => if c.stage == Holds {
          ShowsPut(s, h, c, x.(data := data), p.seen, p.seen[c.id := data]);
        }
        case Write(h) => if c.stage == Holds {
          ShowsWrite(s, c.b, p);
        }
        case Unlock(h) => if c.stage == Holds {
          ShowsSame(s, Put(s, h, c.(stage := Leaves), x.(owner := None)), p.seen);
        }
        case Drop(h) => if c.stage == Leaves {
          DroppedSame(s, h, c.b, p);
        }
      }
    }
  }

  lemma DroppedSame(s: State, h: nat, b: nat, p: Plain)
    requires Stands(s, p) && b < |s.bufs|
    ensures Stands(Dropped(s, h, b), p)
  {
    hide Shows, ToFront, IndexOf;
    ShowsSame(s, Dropped(s, h, b), p.seen);
  }

  lemma GotRefines(s: State, h: nat, id: Id, p: Plain)
    requires Inv(s) && Stands(s, p) && h !in s.clients && id in s.disk
    ensures Stands(Got(s, h, id), PlainNext(p, Effects(s, Get(h, id))))
  {
    hide Inv, Shows, Hit, Free, Put;
    HitIs(s.bufs, s.order, id);
    FreeIs(s.bufs, s.order);
    match Hit(s.bufs, s.order, id) {
      case Some(b) =>
        PutSame(s, h, Client(Waits, b, id), Shared(s.bufs[b]), p);
      case None =>
        if Free(s.bufs, s.order).Some? {
          var b := Free(s.bufs, s.order).value;
          AllListed(s);
          ShowsRecycled(s, h, b, id, p.seen);
          PutDisk(s, h, Client(Waits, b, id), Recycled(s.bufs[b], id));
        }
    }
  }

  lemma PutSame(s: State, h: nat, c: Client, x: Buf, p: Plain)
    requires Stands(s, p) && c.b < |s.bufs| && x == s.bufs[c.b].(refcnt := x.refcnt)
    ensures Stands(Put(s, h, c, x), p)
  {
    hide Shows;
    ShowsSame(s, Put(s, h, c, x), p.seen);
  }

  lemma PutDisk(s: State, h: nat, c: Client, x: Buf)
    requires c.b < |s.bufs|
    ensures Put(s, h, c, x).disk == s.disk
  {
  }

  lemma AllListed(s: State)
    requires Inv(s)
    ensures forall b :: 0 <= b < |s.bufs| ==> b in s.order
  {
  }

  // ----- whole runs -----

  function EffectsOf(s: State, evs: seq<Event>): seq<Effect> {
    if evs == [] then []
    else
      var most := evs[..|evs| - 1];
      EffectsOf(s, most) + [Effects(Run(s, most), evs[|evs| - 1])]
  }

  function PlainRun(p: Plain, es: seq<Effect>): Plain {
    if es == [] then p else PlainNext(PlainRun(p, es[..|es| - 1]), es[|es| - 1])
  }

  /** Every read of the run finds what the plain array shows at that time. */
  ghost predicate ReadsRight(p: Plain, es: seq<Effect>) {
    forall i :: 0 <= i < |es| && es[i].Reads? ==>
                  es[i].id in PlainRun(p, es[..i]).seen && PlainRun(p, es[..i]).seen[es[i].id] == es[i].data
  }

  lemma PlainMore(p: Plain, es: seq<Effect>, e: Effect)
    requires ReadsRight(p, es)
    requires e.Reads? ==> e.id in PlainRun(p, es).seen && PlainRun(p, es).seen[e.id] == e.data
    ensures PlainRun(p, es + [e]) == PlainNext(PlainRun(p, es), e) && ReadsRight(p, es + [e])
  {
    hide PlainNext;
    var fs := es + [e];
    assert fs[..|es|] == es;
    forall i | 0 <= i < |fs| && fs[i].Reads?
      ensures fs[i].id in PlainRun(p, fs[..i]).seen && PlainRun(p, fs[..i]).seen[fs[i].id] == fs[i].data
    {
      if i < |es| {
        assert fs[..i] == es[..i] && fs[i] == es[i];
      }
    }
  }

  /** In every run of any number of calls, interleaved in any way, the cache is the plain arrays. */
  lemma {:induction false} RunRefines(s: State, evs: seq<Event>, p: Plain)
    requires Inv(s) && Stands(s, p)
    ensures Inv(Run(s, evs)) && Stands(Run(s, evs), PlainRun(p, EffectsOf(s, evs))) && ReadsRight(p, EffectsOf(s, evs))
    decreases |evs|
  {
    hide Inv, Stands, Next, Effects, PlainNext;
    if evs != [] {
      var most := evs[..|evs| - 1];
      RunRefines(s, most, p);
      NextRefines(Run(s, most), evs[|evs| - 1], PlainRun(p, EffectsOf(s, most)));
      PlainMore(p, EffectsOf(s, most), Effects(Run(s, most), evs[|evs| - 1]));
    }
  }

  // ----- least recently used -----

  /** The buffer to which the last reference goes with this event. */
  function Freed(s: State, ev: Event): Option<nat> {
    if ev.Drop? && ev.h in s.clients && s.clients[ev.h].stage == Leaves && s.clients[ev.h].b < |s.bufs|
       && s.bufs[s.clients[ev.h].b].refcnt == 1 then Some(s.clients[ev.h].b)
    else None
  }

  /** When, counted from 1, the last reference to buffer b went for the last time; 0 if it never did. */
  function LastFreed(s: State, evs: seq<Event>, b: nat): (t: nat)
    ensures t <= |evs|
    decreases |evs|
  {
    if evs == [] then 0
    else if Freed(Run(s, evs[..|evs| - 1]), evs[|evs| - 1]) == Some(b) then |evs|
    else LastFreed(s, evs[..|evs| - 1], b)
  }

  ghost predicate Before(order: seq<nat>, a: nat, b: nat) {
    exists i, j :: 0 <= i < j < |order| && order[i] == a && order[j] == b
  }

  /** Buffer a was in use later than buffer b; of two that never were, it stood further in front at the beginning. */
  ghost predicate Later(s: State, evs: seq<Event>, a: nat, b: nat) {
    || LastFreed(s, evs, a) > LastFreed(s, evs, b)
    || (LastFreed(s, evs, a) == LastFreed(s, evs, b) == 0 && Before(s.order, a, b))
  }

  ghost predicate ByUse(s: State, evs: seq<Event>, order: seq<nat>) {
    forall i, j :: 0 <= i < j < |order| ==> Later(s, evs, order[i], order[j])
  }

  /** The order changes with the last reference to a buffer only, and then that buffer comes to the front. */
  lemma OrderNext(s: State, ev: Event) returns (k: nat)
    requires Inv(s)
    ensures Freed(s, ev) == None ==> Next(s, ev).order == s.order
    ensures Freed(s, ev).Some? ==>
              k < |s.order| && s.order[k] == Freed(s, ev).value && Next(s, ev).order == ToFront(s.order, k)
  {
    hide Unique, Counted, Owned, ToFront, Hit, Free;
    k := 0;
    if ev.Drop? && ev.h in s.clients {
      assert InPlace(s, ev.h);
      if s.clients[ev.h].stage == Leaves {
        DropKeeps(s, ev.h);
        assert s.clients[ev.h].b in s.order;
        k := IndexOf(s.order, s.clients[ev.h].b);
      }
    }
  }

  /** The buffers stand in the order in which they were last in use. */
  lemma {:induction false} OrderIsByUse(s: State, evs: seq<Event>)
    requires Inv(s)
    ensures Inv(Run(s, evs)) && ByUse(s, evs, Run(s, evs).order)
    decreases |evs|
  {
    hide Inv, Next, Freed, ByUse;
    if evs == [] {
      InitialByUse(s);
    } else {
      var most, ev := evs[..|evs| - 1], evs[|evs| - 1];
      var t := Run(s, most);
      OrderIsByUse(s, most);
      NextKeeps(t, ev);
      var k := OrderNext(t, ev);
      if Freed(t, ev).Some? {
        AllApart(t);
        FrontByUse(s, evs, t.order, k);
      } else {
        SameByUse(s, evs, t.order);
      }
    }
  }

  lemma InitialByUse(s: State)
    ensures ByUse(s, [], s.order)
  {
  }

  lemma AllApart(s: State)
    requires Inv(s)
    ensures forall i, j :: 0 <= i < j < |s.order| ==> s.order[i] != s.order[j]
  {
  }

  lemma SameByUse(s: State, evs: seq<Event>, order: seq<nat>)
    requires evs != [] && ByUse(s, evs[..|evs| - 1], order)
    requires Freed(Run(s, evs[..|evs| - 1]), evs[|evs| - 1]) == None
    ensures ByUse(s, evs, order)
  {
    hide Before, Freed, Run;
    forall i, j | 0 <= i < j < |order|
      ensures Later(s, evs, order[i], order[j])
    {
      assert Later(s, evs[..|evs| - 1], order[i], order[j]);
    }
  }

  lemma FrontByUse(s: State, evs: seq<Event>, order: seq<nat>, k: nat)
    requires evs != [] && ByUse(s, evs[..|evs| - 1], order) && k < |order|
    requires Freed(Run(s, evs[..|evs| - 1]), evs[|evs| - 1]) == Some(order[k])
    requires forall i, j :: 0 <= i < j < |order| ==> order[i] != order[j]
    ensures ByUse(s, evs, ToFront(order, k))
  {
    hide Before, Freed, Run, ToFront;
    FrontAt(order, k);
    var t := ToFront(order, k);
    forall i, j | 0 <= i < j < |t|
      ensures Later(s, evs, t[i], t[j])
    {
      var q := if j <= k then j - 1 else j;
      assert t[j] == order[q] && q != k;
      if i == 0 {
        assert LastFreed(s, evs, t[j]) < |evs| == LastFreed(s, evs, t[0]);
      } else {
        var p := if i <= k then i - 1 else i;
        assert t[i] == order[p] && p != k;
        assert Later(s, evs[..|evs| - 1], order[p], order[q]);
      }
    }
  }

  /** The buffer that a call takes for a sector which has none was not in use, and least recently of all such. */
  lemma LeastRecentlyUsed(s: State, evs: seq<Event>, h: nat, id: Id, b: nat)
    requires Inv(s) && b < |Run(s, evs).bufs| == |Next(Run(s, evs), Get(h, id)).bufs|
    requires Next(Run(s, evs), Get(h, id)).bufs[b].id != Run(s, evs).bufs[b].id
    ensures var bufs := Run(s, evs).bufs;
            bufs[b].refcnt == 0 && forall c :: 0 <= c < |bufs| && c != b && bufs[c].refcnt == 0 ==> Later(s, evs, c, b)
  {
    hide Inv, Run, Later, Hit, Free;
    OrderIsByUse(s, evs);
    var t := Run(s, evs);
    HitIs(t.bufs, t.order, id);
    AllListed(t);
    FreeIs(t.bufs, t.order);
    var i := FreeAt(t.bufs, t.order);
    assert t.order[i] == b;
    forall c | 0 <= c < |t.bufs| && c != b && t.bufs[c].refcnt == 0
      ensures Later(s, evs, c, b)
    {
      assert c in t.order;
      var j :| 0 <= j < |t.order| && t.order[j] == c;
      assert j < i;
    }
  }

  /** Where the last buffer that nobody uses stands. */
  lemma {:induction false} FreeAt(bufs: seq<Buf>, order: seq<nat>) returns (i: nat)
    ensures Free(bufs, order).Some? ==>
              && i < |order| && order[i] == Free(bufs, order).value
              && forall j :: i < j < |order| && order[j] < |bufs| ==> bufs[order[j]].refcnt > 0
  {
    i := 0;
    if order != [] {
      var n := |order| - 1;
      i := n;
      if order[n] >= |bufs| || bufs[order[n]].refcnt > 0 {
        i := FreeAt(bufs, order[..n]);
      }
    }
  }

  // ----- clients that write back -----

  /** A call lets go of the buffer only if the disk has its data. */
  predicate WritesBack(s: State, ev: Event) {
    ev.Unlock? && ev.h in s.clients && s.clients[ev.h].stage == Holds ==>
      var b := s.clients[ev.h].b;
      b < |s.bufs| && s.bufs[b].id in s.disk && s.bufs[b].data == s.disk[s.bufs[b].id]
  }

  ghost predicate AllWriteBack(s: State, evs: seq<Event>) {
    forall i :: 0 <= i < |evs| ==> WritesBack(Run(s, evs[..i]), evs[i])
  }

  predicate HeldBy(s: State, b: nat)
    requires b < |s.bufs|
  {
    var o := s.bufs[b].owner;
    o.Some? && o.value in s.clients && s.clients[o.value].stage == Holds
  }

  /** A valid buffer that nobody is at work on has what the disk has. */
  predicate CleanAt(s: State, b: nat)
    requires b < |s.bufs|
  {
    s.bufs[b].valid && s.bufs[b].id in s.disk && !HeldBy(s, b) ==> s.bufs[b].data == s.disk[s.bufs[b].id]
  }

  ghost predicate Clean(s: State) {
    forall b :: 0 <= b < |s.bufs| ==> CleanAt(s, b)
  }

  /** One plain array, on which only Change has an effect. */
  function Array(a: Disk, es: seq<Effect>): Disk {
    if es == [] then a
    else
      var b := Array(a, es[..|es| - 1]);
      match es[|es| - 1] { case Changes(id, data) => b[id := data] case _ => b }
  }

  lemma HolderOf(s: State, b: nat)
    requires Inv(s) && b < |s.bufs| && s.bufs[b].owner.Some?
    ensures s.bufs[b].owner.value in s.clients && s.clients[s.bufs[b].owner.value].b == b
  {
    assert Owned(s, b);
  }

  /** Other buffers than that of call h do not notice what it does. */
  lemma HeldSame(s: State, t: State, h: nat, b: nat)
    requires Inv(s) && b < |s.bufs| == |t.bufs| && t.bufs[b].owner == s.bufs[b].owner
    requires h in s.clients && s.clients[h].b != b
    requires forall g :: g in s.clients && g != h ==> g in t.clients && t.clients[g] == s.clients[g]
    ensures HeldBy(s, b) == HeldBy(t, b)
  {
    if s.bufs[b].owner.Some? {
      HolderOf(s, b);
    }
  }

  lemma PutClean(s: State, h: nat, c: Client, x: Buf)
    requires Inv(s) && Clean(s) && h in s.clients && c.b == s.clients[h].b < |s.bufs|
    requires CleanAt(Put(s, h, c, x), c.b)
    ensures Clean(Put(s, h, c, x))
  {
    hide Inv;
    var t := Put(s, h, c, x);
    forall b | 0 <= b < |t.bufs|
      ensures CleanAt(t, b)
    {
      if b != c.b {
        assert CleanAt(s, b) && t.bufs[b] == s.bufs[b];
        HeldSame(s, t, h, b);
      }
    }
  }

  lemma EnterCleanAt(s: State, h: nat, c: Client, x: Buf, b: nat)
    requires Inv(s) && b < |s.bufs| && CleanAt(s, b) && h !in s.clients
    requires c.b < |s.bufs| && x.owner == s.bufs[c.b].owner
    requires x.valid ==> s.bufs[c.b].valid && x.id == s.bufs[c.b].id && x.data == s.bufs[c.b].data
    ensures CleanAt(Put(s, h, c, x), b)
  {
    hide Inv;
    if s.bufs[b].owner.Some? {
      HolderOf(s, b);
    }
    var t := Put(s, h, c, x);
    assert HeldBy(s, b) == HeldBy(t, b);
    assert t.bufs[b] == if b == c.b then x else s.bufs[b];
  }

  lemma EnterClean(s: State, h: nat, c: Client, x: Buf)
    requires Inv(s) && Clean(s) && h !in s.clients && c.b < |s.bufs| && x.owner == s.bufs[c.b].owner
    requires x.valid ==> s.bufs[c.b].valid && x.id == s.bufs[c.b].id && x.data == s.bufs[c.b].data
    ensures Clean(Put(s, h, c, x))
  {
    hide Inv, CleanAt;
    forall b | 0 <= b < |s.bufs|
      ensures CleanAt(Put(s, h, c, x), b)
    {
      EnterCleanAt(s, h, c, x, b);
    }
  }

  lemma WriteClean(s: State, h: nat)
    requires Inv(s) && Clean(s) && h in s.clients && s.clients[h].b < |s.bufs| && s.clients[h].stage == Holds
    ensures Clean(s.(disk := s.disk[s.bufs[s.clients[h].b].id := s.bufs[s.clients[h].b].data]))
  {
    hide Listed, Counted, InPlace, Owned;
    var b := s.clients[h].b;
    var t := s.(disk := s.disk[s.bufs[b].id := s.bufs[b].data]);
    HeldIs(s, h);
    forall a | 0 <= a < |t.bufs|
      ensures CleanAt(t, a)
    {
      assert CleanAt(s, a);
      if a != b && s.bufs[a].valid {
        ValidThere(s, a);
      }
    }
  }

  lemma HeldIs(s: State, h: nat)
    requires Inv(s) && h in s.clients
    ensures s.clients[h].b < |s.bufs| && s.bufs[s.clients[h].b].id in s.disk && s.bufs[s.clients[h].b].id != UNUSED
    ensures Locks(s.clients[h].stage) <==> s.bufs[s.clients[h].b].owner == Some(h)
    ensures s.bufs[s.clients[h].b].id == s.clients[h].id
    ensures s.clients[h].stage == Holds ==> HeldBy(s, s.clients[h].b) && s.bufs[s.clients[h].b].valid
  {
    assert InPlace(s, h);
  }

  lemma DropClean(s: State, h: nat)
    requires Inv(s) && Clean(s) && h in s.clients && s.clients[h].b < |s.bufs| && s.clients[h].stage == Leaves
    ensures Clean(Dropped(s, h, s.clients[h].b))
  {
    hide Inv, ToFront, IndexOf;
    HeldIs(s, h);
    var t := Dropped(s, h, s.clients[h].b);
    forall b | 0 <= b < |t.bufs|
      ensures CleanAt(t, b)
    {
      assert CleanAt(s, b);
      if s.bufs[b].owner.Some? {
        HolderOf(s, b);
      }
    }
  }

  /** Buffers stay clean as long as whoever lets go of one has written it back. */
  lemma CleanKeeps(s: State, ev: Event)
    requires Inv(s) && Clean(s) && WritesBack(s, ev)
    ensures Clean(Next(s, ev))
  {
    hide Inv, Clean, Put, Dropped, Hit, Free;
    if ev.Get? {
      if ev.h !in s.clients && ev.id in s.disk {
        HitIs(s.bufs, s.order, ev.id);
        FreeIs(s.bufs, s.order);
        match Hit(s.bufs, s.order, ev.id) {
          case Some(b) =>
            EnterClean(s, ev.h, Client(Waits, b, ev.id), Shared(s.bufs[b]));
          case None =>
            if Free(s.bufs, s.order).Some? {
              var b := Free(s.bufs, s.order).value;
              EnterClean(s, ev.h, Client(Waits, b, ev.id), Recycled(s.bufs[b], ev.id));
            }
        }
      }
    } else if ev.h in s.clients {
      HeldIs(s, ev.h);
      StageClean(s, ev);
    }
  }

  lemma StageClean(s: State, ev: Event)
    requires Inv(s) && Clean(s) && WritesBack(s, ev) && !ev.Get? && ev.h in s.clients && s.clients[ev.h].b < |s.bufs|
    ensures Clean(Stepped(s, ev.h, s.clients[ev.h], ev))
  {
    hide Inv, Dropped;
    var c := s.clients[ev.h];
    var x := s.bufs[c.b];
    HeldIs(s, ev.h);
    assert CleanAt(s, c.b);
    match ev {
      case Lock(h) => if c.stage == Waits && x.owner == None {
        PutClean(s, h, c.(stage := Fills), x.(owner := Some(h)));
      }
      case Fill(h) => if c.stage == Fills {
        PutClean(s, h, c.(stage := Holds), Filled(x, s.disk));
      }
      case Change(h, data) => if c.stage == Holds {
        PutClean(s, h, c, x.(data := data));
      }
      case Write(h) => if c.stage == Holds {
        WriteClean(s, h);
      }
      case Unlock(h) => if c.stage == Holds {
        PutClean(s, h, c.(stage := Leaves), x.(owner := None));
      }
      case Drop(h) => if c.stage == Leaves {
        DropClean(s, h);
      }
    }
  }

  /** A sector that nobody is at work on shows what the disk has. */
  lemma IdleShows(s: State, p: Plain, id: Id)
    requires Inv(s) && Clean(s) && Stands(s, p) && id in s.disk
    requires forall b :: 0 <= b < |s.bufs| && s.bufs[b].id == id ==> !HeldBy(s, b)
    ensures p.seen[id] == s.disk[id]
  {
    hide Inv, HeldBy;
    if b :| 0 <= b < |s.bufs| && Caches(s.bufs[b], id) {
      assert CleanAt(s, b);
    }
  }

  /** Nothing is lost with a buffer that is recycled while clean. */
  lemma ForgetHarmless(s: State, ev: Event, p: Plain)
    requires Inv(s) && Clean(s) && Stands(s, p) && Effects(s, ev).Forgets?
    ensures PlainNext(p, Effects(s, ev)) == p
  {
    hide Inv, Clean, Hit, Free, Unique, Shows;
    FreeIs(s.bufs, s.order);
    var b := Free(s.bufs, s.order).value;
    NobodyOn(s, b);
    var id := s.bufs[b].id;
    forall a | 0 <= a < |s.bufs| && s.bufs[a].id == id
      ensures !HeldBy(s, a)
    {
      OnlyOne(s, a, b);
    }
    IdleShows(s, p, id);
    SameKeys(s, p);
    assert p.seen[id := p.disk[id]] == p.seen;
  }

  lemma SameKeys(s: State, p: Plain)
    requires Stands(s, p)
    ensures p.seen.Keys == p.disk.Keys == s.disk.Keys
  {
  }

  lemma OnlyOne(s: State, a: nat, b: nat)
    requires Inv(s) && a < |s.bufs| && b < |s.bufs| && s.bufs[a].id == s.bufs[b].id && s.bufs[b].id in s.disk
    ensures a == b
  {
  }

  /** A sector whose buffer is recycled shows the disk again: what was put there is lost exactly if it differs. */
  lemma LostIfNotWritten(s: State, ev: Event, p: Plain)
    requires Inv(s) && Stands(s, p) && Effects(s, ev).Forgets?
    ensures var id, q := Effects(s, ev).id, PlainNext(p, Effects(s, ev));
            && id in p.seen && id in q.seen && Stands(Next(s, ev), q) && q.seen[id] == s.disk[id]
            && (q == p <==> p.seen[id] == s.disk[id])
  {
    hide Inv, Shows, Next, Hit, Free;
    NextRefines(s, ev, p);
    SameKeys(s, p);
    var id := Effects(s, ev).id;
    if p.seen[id] == s.disk[id] {
      assert p.seen[id := p.disk[id]] == p.seen;
    }
  }

  lemma ArrayMore(a: Disk, es: seq<Effect>, e: Effect)
    ensures Array(a, es + [e]) == match e { case Changes(id, data) => Array(a, es)[id := data] case _ => Array(a, es) }
  {
    assert (es + [e])[..|es|] == es;
  }

  lemma {:induction false} SeenIsArray(s: State, evs: seq<Event>, p: Plain)
    requires Inv(s) && Clean(s) && Stands(s, p) && AllWriteBack(s, evs)
    ensures Clean(Run(s, evs)) && PlainRun(p, EffectsOf(s, evs)).seen == Array(p.seen, EffectsOf(s, evs))
    decreases |evs|
  {
    hide Inv, Clean, Stands, Next, Effects, WritesBack;
    if evs != [] {
      var most, ev := evs[..|evs| - 1], evs[|evs| - 1];
      assert forall i :: 0 <= i < |most| ==> most[i] == evs[i] && most[..i] == evs[..i];
      SeenIsArray(s, most, p);
      RunRefines(s, most, p);
      var t, q := Run(s, most), PlainRun(p, EffectsOf(s, most));
      CleanKeeps(t, ev);
      NextRefines(t, ev, q);
      PlainMore(p, EffectsOf(s, most), Effects(t, ev));
      ArrayMore(p.seen, EffectsOf(s, most), Effects(t, ev));
      if Effects(t, ev).Forgets? {
        ForgetHarmless(t, ev, q);
      }
    }
  }

  lemma {:induction false} EffectsPrefix(s: State, evs: seq<Event>, i: nat)
    requires i <= |evs|
    ensures |EffectsOf(s, evs)| == |evs| && EffectsOf(s, evs)[..i] == EffectsOf(s, evs[..i])
    decreases |evs|
  {
    hide Effects;
    if i == |evs| {
      assert evs[..i] == evs;
      if evs != [] {
        EffectsPrefix(s, evs[..|evs| - 1], 0);
      }
    } else {
      var most := evs[..|evs| - 1];
      EffectsPrefix(s, most, i);
      assert most[..i] == evs[..i];
    }
  }

  lemma {:induction false} PrefixWritesBack(s: State, evs: seq<Event>, i: nat)
    requires AllWriteBack(s, evs) && i <= |evs|
    ensures AllWriteBack(s, evs[..i])
  {
    hide WritesBack, Next;
    forall j | 0 <= j < i
      ensures WritesBack(Run(s, evs[..i][..j]), evs[..i][j])
    {
      assert evs[..i][..j] == evs[..j];
    }
  }

  /**
   In every run of any number of calls, interleaved in any way, in which whoever lets go of a buffer has written it
   back, nobody can tell the cache from one plain array: each bread finds what was last put there, whatever has been
   recycled in between, and in the end the disk has that of every sector that nobody is at work on.
   */
  lemma Transparent(s: State, evs: seq<Event>, p: Plain)
    requires Inv(s) && Clean(s) && Stands(s, p) && AllWriteBack(s, evs)
    ensures var es := EffectsOf(s, evs);
            forall i :: 0 <= i < |es| && es[i].Reads? ==>
                          es[i].id in Array(p.seen, es[..i]) && Array(p.seen, es[..i])[es[i].id] == es[i].data
    ensures var t := Run(s, evs);
            forall id :: id in t.disk && (forall b :: 0 <= b < |t.bufs| && t.bufs[b].id == id ==> !HeldBy(t, b)) ==>
                           id in Array(p.seen, EffectsOf(s, evs)) && t.disk[id] == Array(p.seen, EffectsOf(s, evs))[id]
  {
    hide Inv, Clean, Shows, Next, Effects, WritesBack, AllWriteBack, HeldBy, PlainNext;
    var es := EffectsOf(s, evs);
    RunRefines(s, evs, p);
    SeenIsArray(s, evs, p);
    forall i | 0 <= i < |es| && es[i].Reads?
      ensures es[i].id in Array(p.seen, es[..i]) && Array(p.seen, es[..i])[es[i].id] == es[i].data
    {
      EffectsPrefix(s, evs, 0);
      EffectsPrefix(s, evs, i);
      PrefixWritesBack(s, evs, i);
      SeenIsArray(s, evs[..i], p);
    }
    var t := Run(s, evs);
    SameKeys(t, PlainRun(p, es));
    forall id | id in t.disk && (forall b :: 0 <= b < |t.bufs| && t.bufs[b].id == id ==> !HeldBy(t, b))
      ensures id in Array(p.seen, es) && t.disk[id] == Array(p.seen, es)[id]
    {
      IdleShows(t, PlainRun(p, es), id);
    }
  }

  /** While call h is at work on a sector, no other call changes, writes or recycles it. */
  lemma WorksAlone(s: State, ev: Event, h: nat)
    requires Inv(s) && h in s.clients && s.clients[h].stage == Holds && ev.h != h
    ensures var e, id := Effects(s, ev), s.clients[h].id;
            && (e.Changes? || e.Writes? || e.Forgets? ==> e.id != id)
            && h in Next(s, ev).clients && Next(s, ev).clients[h] == s.clients[h]
  {
    hide Unique, Counted, Hit, Free;
    HeldIs(s, h);
    if ev.Get? {
      FreeIs(s.bufs, s.order);
      if Effects(s, ev).Forgets? {
        var b := Free(s.bufs, s.order).value;
        NobodyOn(s, b);
        if s.bufs[b].id == s.clients[h].id {
          OnlyOne(s, s.clients[h].b, b);
        }
      }
    } else if ev.h in s.clients {
      HeldIs(s, ev.h);
      if s.clients[ev.h].id == s.clients[h].id {
        OnlyOne(s, s.clients[h].b, s.clients[ev.h].b);
      }
    }
  }

  // ----- the cache -----

  class Cache {
    const n: nat
    var bufs: seq<Buf>
    var links: Links
    var disk: Disk
    var clients: map<nat, Client>
    ghost var order: seq<nat>

    ghost function Abs(): State
      reads this
    {
      State(bufs, order, disk, clients)
    }

    ghost predicate Valid()
      reads this
    {
      |bufs| == n && Circle(links, order, n) && Inv(Abs())
    }

    lemma Sizes()
      requires Valid()
      ensures |bufs| == |order| == n && |links.next| == |links.prev| == n + 1 && UNUSED !in disk
      ensures forall b :: 0 <= b < n ==> b in order
      ensures forall b :: b in order ==> b < n
    {
    }

    /** binit. */
    constructor (n: nat, disk: Disk)
      requires UNUSED !in disk
      ensures Valid() && this.n == n && this.disk == disk && clients == map[]
      ensures Clean(Abs()) && Stands(Abs(), Plain(disk, disk))
    {
      this.n := n;
      var l := Links(seq(n + 1, i => n), seq(n + 1, i => n));
      ghost var o: seq<nat> := [];
      var b: nat := 0;
      while b < n
        invariant b <= n && |o| == b && |l.next| == |l.prev| == n + 1
        invariant forall x :: x in o <==> 0 <= x < b
        invariant Circle(l, o, n)
      {
        PushKeeps(l, o, n, b);
        l := PushFront(l, b, n);
        o := [b] + o;
        b := b + 1;
      }
      bufs := seq(n, i => Buf(false, UNUSED, 0, None, []));
      links := l;
      this.disk := disk;
      clients := map[];
      order := o;
      new;
      assert forall c :: 0 <= c < n ==> On(clients, c) == {};
    }

    /** bget's first loop. */
    method Cached(id: Id) returns (hit: bool, b: nat)
      requires Valid() && id != UNUSED
      ensures Hit(bufs, order, id) == if hit then Some(b) else None
      ensures hit ==> b < |bufs| == n && bufs[b].id == id
      ensures !hit ==> forall c :: 0 <= c < |bufs| ==> bufs[c].id != id
    {
      hide Circle, Inv, Stop;
      Sizes();
      HitIs(bufs, order, id);
      Neighbours(links, order, n, 0);
      Neighbours(links, order, n, 1);
      b := links.next[n];
      ghost var i := 1;
      assert order[0..] == order;
      while b != n
        invariant 1 <= i <= n + 1 && b == Stop(order, n, i) && b <= n && (b == n <==> i == n + 1)
        invariant Hit(bufs, order, id) == Hit(bufs, order[i - 1..], id)
        decreases n + 1 - i
      {
        Neighbours(links, order, n, i);
        StopIs(order, n, i);
        assert order[i - 1..][0] == b && order[i - 1..][1..] == order[i..];
        if bufs[b].id.dev == id.dev && bufs[b].id.sectorno == id.sectorno {
          return true, b;
        }
        b := links.next[b];
        i := i + 1;
        Neighbours(links, order, n, i);
      }
      assert order[n..] == [];
      return false, 0;
    }

    /** bget's second loop. */
    method Unused() returns (found: bool, b: nat)
      requires Valid()
      ensures Free(bufs, order) == if found then Some(b) else None
      ensures found ==> b < |bufs| == n && bufs[b].refcnt == 0
      ensures !found ==> forall c :: 0 <= c < |bufs| ==> bufs[c].refcnt > 0
    {
      hide Circle, Inv, Stop;
      Sizes();
      FreeIs(bufs, order);
      Neighbours(links, order, n, n + 1);
      Neighbours(links, order, n, n);
      b := links.prev[n];
      ghost var i: nat := n;
      assert order[..n] == order;
      while b != n
        invariant i <= n && b == Stop(order, n, i) && b <= n && (b == n <==> i == 0)
        invariant Free(bufs, order) == Free(bufs, order[..i])
        decreases i
      {
        Neighbours(links, order, n, i);
        StopIs(order, n, i);
        assert order[..i][i - 1] == b && order[..i][..i - 1] == order[..i - 1];
        if bufs[b].refcnt == 0 {
          return true, b;
        }
        b := links.prev[b];
        i := i - 1;
        Neighbours(links, order, n, i);
      }
      assert order[..0] == [];
      return false, 0;
    }

    /**
     bget, up to the wait for the sleep lock: the sector's buffer, or the least recently used one that nobody uses.
     None is the panic: every buffer is in use, for other sectors.
     */
    method Bget(h: nat, id: Id) returns (r: Option<nat>)
      requires Valid() && id in disk && h !in clients
      modifies this`bufs, this`clients
      ensures Valid() && Abs() == Next(old(Abs()), Get(h, id))
      ensures r.None? <==> forall b :: 0 <= b < |old(bufs)| ==> old(bufs)[b].refcnt > 0 && old(bufs)[b].id != id
      ensures r.None? ==> Abs() == old(Abs())
      ensures r.Some? ==> h in clients && clients[h] == Client(Waits, r.value, id)
      ensures r.Some? ==> r.value < n == |bufs| == |old(bufs)|
      ensures r.Some? ==> bufs[r.value].owner == None
                          || (old(bufs)[r.value].id == id && bufs[r.value].owner == old(bufs)[r.value].owner)
    {
      hide Circle, Inv, Hit, Free;
      Sizes();
      NextKeeps(Abs(), Get(h, id));
      var hit, b := Cached(id);
      if hit {
        bufs := bufs[b := bufs[b].(refcnt := bufs[b].refcnt + 1)];
        clients := clients[h := Client(Waits, b, id)];
        return Some(b);
      }
      var found;
      found, b := Unused();
      if !found {
        return None;
      }
      NobodyOn(Abs(), b);
      bufs := bufs[b := Recycled(bufs[b], id)];
      clients := clients[h := Client(Waits, b, id)];
      r := Some(b);
    }

    /** acquiresleep on the buffer; ok: the lock was free. */
    method Acquire(h: nat) returns (ok: bool)
      requires Valid() && h in clients && clients[h].stage == Waits
      modifies this`bufs, this`clients
      ensures Valid() && Abs() == Next(old(Abs()), Lock(h)) && (ok <==> h in clients && clients[h].stage == Fills)
      ensures old(clients)[h].b < |old(bufs)| && (ok <==> old(bufs)[old(clients)[h].b].owner == None)
      ensures ok ==> clients[h] == old(clients)[h].(stage := Fills)
    {
      hide Circle, Inv;
      HeldIs(Abs(), h);
      NextKeeps(Abs(), Lock(h));
      var c := clients[h];
      ok := bufs[c.b].owner == None;
      if ok {
        bufs := bufs[c.b := bufs[c.b].(owner := Some(h))];
        clients := clients[h := c.(stage := Fills)];
      }
    }

    /** The end of bread: the disk is read if it must be. */
    method Finish(h: nat)
      requires Valid() && h in clients && clients[h].stage == Fills
      modifies this`bufs, this`clients
      ensures Valid() && Abs() == Next(old(Abs()), Fill(h))
      ensures clients == old(clients)[h := old(clients)[h].(stage := Holds)]
    {
      hide Circle, Inv;
      HeldIs(Abs(), h);
      NextKeeps(Abs(), Fill(h));
      var c := clients[h];
      assert bufs[c.b := bufs[c.b]] == bufs;
      if !bufs[c.b].valid {
        bufs := bufs[c.b := bufs[c.b].(data := disk[bufs[c.b].id], valid := true)];
      }
      clients := clients[h := c.(stage := Holds)];
    }

    /** bread when no other call has the buffer's lock: the caller holds the buffer, with the data it shows. */
    method Bread(h: nat, id: Id) returns (r: Option<nat>)
      requires Valid() && id in disk && h !in clients
      requires forall b :: 0 <= b < |bufs| && bufs[b].id == id ==> bufs[b].owner == None
      modifies this`bufs, this`clients
      ensures Valid() && (r.None? ==> Abs() == old(Abs()))
      ensures r.None? <==> forall b :: 0 <= b < |old(bufs)| ==> old(bufs)[b].refcnt > 0 && old(bufs)[b].id != id
      ensures r.Some? ==> Abs() == Next(Next(Next(old(Abs()), Get(h, id)), Lock(h)), Fill(h))
      ensures r.Some? ==> h in clients && clients[h] == Client(Holds, r.value, id)
    {
      hide Circle, Inv, Hit, Free, Next;
      r := Bget(h, id);
      if r.Some? {
        var ok := Acquire(h);
        Finish(h);
      }
    }

    /** The caller changes the data of its buffer. */
    method Edit(h: nat, data: seq<byte>)
      requires Valid() && h in clients && clients[h].stage == Holds
      modifies this`bufs
      ensures Valid() && Abs() == Next(old(Abs()), Change(h, data)) && |bufs| == n
      ensures clients[h].b < n && bufs == old(bufs)[clients[h].b := old(bufs)[clients[h].b].(data := data)]
    {
      hide Circle, Inv;
      HeldIs(Abs(), h);
      NextKeeps(Abs(), Change(h, data));
      var b := clients[h].b;
      assert clients[h := clients[h]] == clients;
      bufs := bufs[b := bufs[b].(data := data)];
    }

    /** bwrite; it panics for a caller that does not have the lock. */
    method Bwrite(h: nat) returns (panic: bool)
      requires Valid() && h in clients && clients[h].stage != Fills
      modifies this`disk
      ensures Valid() && Abs() == Next(old(Abs()), Write(h)) && (panic <==> clients[h].stage != Holds)
      ensures !panic ==> clients[h].b < |bufs| && disk == old(disk)[clients[h].id := bufs[clients[h].b].data]
      ensures panic ==> disk == old(disk)
    {
      hide Circle, Inv;
      HeldIs(Abs(), h);
      NextKeeps(Abs(), Write(h));
      var b := clients[h].b;
      if bufs[b].owner != Some(h) {
        return true;
      }
      disk := disk[bufs[b].id := bufs[b].data];
      panic := false;
    }

    /** The first half of brelse: the lock goes. */
    method Release(h: nat) returns (panic: bool)
      requires Valid() && h in clients && clients[h].stage != Fills
      modifies this`bufs, this`clients
      ensures Valid() && Abs() == Next(old(Abs()), Unlock(h)) && (panic <==> old(clients)[h].stage != Holds)
      ensures !panic ==> h in clients && clients[h] == old(clients)[h].(stage := Leaves)
      ensures panic ==> Abs() == old(Abs())
    {
      hide Circle, Inv;
      HeldIs(Abs(), h);
      NextKeeps(Abs(), Unlock(h));
      var c := clients[h];
      if bufs[c.b].owner != Some(h) {
        return true;
      }
      bufs := bufs[c.b := bufs[c.b].(owner := None)];
      clients := clients[h := c.(stage := Leaves)];
      panic := false;
    }

    /** The second half: the reference goes, and a buffer that nobody uses any more becomes the most recently used. */
    method Leave(h: nat)
      requires Valid() && h in clients && clients[h].stage == Leaves
      modifies this`bufs, this`clients, this`links, this`order
      ensures Valid() && Abs() == Next(old(Abs()), Drop(h))
      ensures h !in clients && old(clients)[h].b < |bufs| && |order| == n
      ensures bufs[old(clients)[h].b].refcnt == 0 ==> n > 0 && order[0] == old(clients)[h].b
      ensures bufs[old(clients)[h].b].refcnt > 0 ==> order == old(order)
    {
      hide Circle, Inv, Unlink, PushFront, ToFront;
      HeldIs(Abs(), h);
      Sizes();
      NextKeeps(Abs(), Drop(h));
      DropKeeps(Abs(), h);
      var b := clients[h].b;
      bufs := bufs[b := bufs[b].(refcnt := bufs[b].refcnt - 1)];
      clients := clients - {h};
      ghost var k := IndexOf(order, b);
      FrontKeeps(links, order, n, k);
      FrontAt(order, k);
      if bufs[b].refcnt == 0 {
        links := PushFront(Unlink(links, b), b, n);
        order := ToFront(order, k);
      }
    }

    /** One event; a call that has to wait, or is not that far, does nothing. */
    method Do(ev: Event)
      requires Valid()
      modifies this
      ensures Valid() && Abs() == Next(old(Abs()), ev)
    {
      hide Circle, Inv, Hit, Free, Put, Dropped, Got;
      if ev.Get? {
        if ev.h !in clients && ev.id in disk {
          var r := Bget(ev.h, ev.id);
        }
        return;
      }
      if ev.h !in clients {
        return;
      }
      HeldIs(Abs(), ev.h);
      var stage := clients[ev.h].stage;
      if ev.Lock? && stage == Waits {
        var ok := Acquire(ev.h);
      } else if ev.Fill? && stage == Fills {
        Finish(ev.h);
      } else if ev.Change? && stage == Holds {
        Edit(ev.h, ev.data);
      } else if ev.Write? && stage == Holds {
        var panic := Bwrite(ev.h);
      } else if ev.Unlock? && stage == Holds {
        var panic := Release(ev.h);
      } else if ev.Drop? && stage == Leaves {
        Leave(ev.h);
      }
    }

    /** Any run of calls, in any order of their steps. */
    method Replay(evs: seq<Event>)
      requires Valid()
      modifies this
      ensures Valid() && Abs() == Run(old(Abs()), evs)
    {
      hide Inv, Circle, Next;
      for i := 0 to |evs|
        invariant Valid() && Abs() == Run(old(Abs()), evs[..i])
      {
        assert evs[..i + 1][..i] == evs[..i];
        Do(evs[i]);
      }
      assert evs[..|evs|] == evs;
    }
  }
}
