/**
 The virtio block driver (kernel/virtio_disk.c): any number of processes with requests, the interrupt
 handler and the device, as one machine over the shared rings. The lock makes the driver's steps exclude
 each other; the device takes its own in between.
 */
module VirtioDisk {
  import opened Options

  const NUM: nat := 8

  /** Where a process is in virtio_disk_rw. Its buffer is its own; sleep gives the lock up and takes it again. */
  datatype Pc =
    | Idle
    | Enter        // wants the lock
    | Try          // alloc3_desc
    | NoDesc       // asleep until descriptors are freed
    | Format       // the three descriptors are filled, the buffer is the device's
    | Post         // the head goes into the avail ring
    | Publish      // the avail index moves on
    | Test         // is the buffer still the device's?
    | Nap          // asleep until the interrupt handler is done with b
    | Finish       // the chain is freed
    | Leave        // the lock is released

  /** disk: b->disk; a, b, c: idx[0], idx[1], idx[2]. */
  datatype Client = Client(pc: Pc, disk: bool, a: nat, b: nat, c: nat)

  /** What a descriptor points at: nothing, a request header, the data of a process's buffer, a status byte. */
  datatype Target = Nothing | Header | Data(p: nat) | Status(i: nat)

  datatype Desc = Desc(addr: Target, linked: bool, next: nat)

  /** A request that the device has read from the rings: the head of its chain and the buffer it points at. */
  datatype Req = Req(head: nat, data: Target)

  datatype Holder = Nobody | Process(p: nat) | Interrupt

  /**
   The last seven fields are history: the processes whose requests wait in the avail ring, in the device, in
   the used element just written and in the used ring; and the buffers that the device completed, that the
   handler released and that the driver posted, each in order.
   */
  datatype State = State(
    clients: seq<Client>,
    free: seq<bool>,
    desc: seq<Desc>,
    info: seq<Option<nat>>,    // info[i].b
    avail: seq<nat>, availIdx: nat,
    elems: seq<nat>, usedId: nat,
    usedSeen: nat,             // disk.used_idx
    holder: Holder,
    lastAvail: nat,            // the device's place in the avail ring
    inflight: seq<Req>,        // what it works on
    written: Option<Req>,      // a used element written, used->id not yet
    unread: seq<nat>, fetched: seq<nat>, closing: seq<nat>, unseen: seq<nat>, done: seq<nat>, woken: seq<nat>,
        posted: seq<nat>)

  datatype Action =
    | Call(p: nat) | Lock(p: nat) | Alloc(p: nat) | Fill(p: nat) | Slot(p: nat) | Index(p: nat) | Check(p: nat)
        | Clean(p: nat) | Unlock(p: nat)
    | Fetch | Complete(i: nat) | Bump
    | IntrLock | IntrTurn | IntrUnlock

  /** The place in a ring of an index that counts on. */
  function Place(i: nat): (r: nat)
    ensures r < 8
  {
    i % 8
  }

  /** The lowest free descriptor from i on, or NUM. */
  function FirstFree(free: seq<bool>, i: nat): nat
    requires |free| == NUM && i <= NUM
    decreases NUM - i
  {
    if i == NUM || free[i] then i else FirstFree(free, i + 1)
  }

  /** alloc3_desc: the three lowest free descriptors, if there are three. */
  function Alloc3(free: seq<bool>): Option<(nat, nat, nat)>
    requires |free| == NUM
  {
    var a := FirstFree(free, 0);
    if a == NUM then None else
    var b := FirstFree(free[a := false], 0);
    if b == NUM then None else
    var c := FirstFree(free[a := false][b := false], 0);
    if c == NUM then None else Some((a, b, c))
  }

  function Used(free: seq<bool>, k: nat): nat
    requires k <= |free|
  {
    if k == 0 then 0 else Used(free, k - 1) + if free[k - 1] then 0 else 1
  }

  lemma {:induction false} UsedLess(free: seq<bool>, i: nat, k: nat)
    requires i < |free| && k <= |free| && !free[i]
    ensures Used(free[i := true], k) == Used(free, k) - if i < k then 1 else 0
  {
    if k > 0 {
      UsedLess(free, i, k - 1);
    }
  }

  /** What free_desc leaves of a descriptor. */
  function Cleared(d: Desc): Desc { d.(addr := Nothing) }

  /** free_chain: None where free_desc panics. */
  function FreeChain(free: seq<bool>, desc: seq<Desc>, i: nat): Option<(seq<bool>, seq<Desc>)>
    requires |free| == |desc| == NUM
    decreases Used(free, NUM)
  {
    if i >= NUM || free[i] then None
    else
      UsedLess(free, i, NUM);
      var free', desc' := free[i := true], desc[i := Cleared(desc[i])];
      if desc'[i].linked then FreeChain(free', desc', desc'[i].next) else Some((free', desc'))
  }

  function Set(s: State, p: nat, x: Client): State
    requires p < |s.clients|
  {
    s.(clients := s.clients[p := x])
  }

  function Go(s: State, p: nat, pc: Pc): State
    requires p < |s.clients|
  {
    Set(s, p, s.clients[p].(pc := pc))
  }

  /** The arrays have their sizes, and the numbers kept in them index them. */
  predicate Shaped(s: State) {
    && |s.free| == |s.desc| == |s.info| == |s.avail| == |s.elems| == NUM
    && s.availIdx < 0x1_0000 && s.usedId < 0x1_0000 && s.lastAvail < 0x1_0000 && s.usedSeen < NUM
    && (forall p :: 0 <= p < |s.clients| ==> s.clients[p].a < NUM && s.clients[p].b < NUM && s.clients[p].c < NUM)
    && (forall i :: 0 <= i < NUM ==> s.desc[i].next < NUM && s.avail[i] < NUM && s.elems[i] < NUM)
  }

  predicate Can(s: State, a: Action)
    requires Shaped(s)
  {
    match a
    case Call(p) => p < |s.clients| && s.clients[p].pc.Idle?
    case Lock(p) => p < |s.clients| && s.holder.Nobody?
        && (s.clients[p].pc.Enter? || s.clients[p].pc.NoDesc? || s.clients[p].pc.Nap?)
    case Alloc(p) => p < |s.clients| && s.clients[p].pc.Try?
    case Fill(p) => p < |s.clients| && s.clients[p].pc.Format?
    case Slot(p) => p < |s.clients| && s.clients[p].pc.Post?
    case Index(p) => p < |s.clients| && s.clients[p].pc.Publish?
    case Check(p) => p < |s.clients| && s.clients[p].pc.Test?
    case Clean(p) => p < |s.clients| && s.clients[p].pc.Finish? && FreeChain(s.free, s.desc, s.clients[p].a).Some?
    case Unlock(p) => p < |s.clients| && s.clients[p].pc.Leave?
    case Fetch => s.lastAvail != s.availIdx
    case Complete(i) => i < |s.inflight| && s.written.None? && s.inflight[i].head < NUM
    case Bump => s.written.Some?
    case IntrLock => s.holder.Nobody?
    case IntrTurn => s.holder.Interrupt? && Place(s.usedSeen) != Place(s.usedId)
                     && s.info[s.elems[s.usedSeen]].Some? && s.info[s.elems[s.usedSeen]].value < |s.clients|
    case IntrUnlock => s.holder.Interrupt? && Place(s.usedSeen) == Place(s.usedId)
  }

  function Tail(q: seq<nat>): seq<nat> { if q == [] then [] else q[1..] }

  function Head(q: seq<nat>): seq<nat> { if q == [] then [] else [q[0]] }

  function Do(s: State, a: Action): State
    requires Shaped(s) && Can(s, a)
  {
    match a
    case Call(p) => Go(s, p, Enter)
    case Lock(p) => Go(s, p, if s.clients[p].pc.Nap? then Test else Try).(holder := Process(p))
    case Alloc(p) =>
      var three := Alloc3(s.free);
      if three.None? then
        Go(s, p, NoDesc).(holder := Nobody,
            desc := seq(NUM, i requires 0 <= i < NUM => if s.free[i] then Cleared(s.desc[i]) else s.desc[i]))
      else
        var (i, j, k) := three.value;
        Set(s, p, s.clients[p].(pc := Format, a := i, b := j,
            c := k)).(free := s.free[i := false][j := false][k := false])
    case Fill(p) =>
      var x := s.clients[p];
      Set(s, p, x.(pc := Post, disk := true)).(
        desc := s.desc[x.a := Desc(Header, true, x.b)][x.b := Desc(Data(p), true, x.c)][x.c := Desc(Status(x.a),
            false, 0)],
        info := s.info[x.a := Some(p)])
    case Slot(p) => Go(s, p, Publish).(avail := s.avail[Place(s.availIdx) := s.clients[p].a])
    case Index(p) => Go(s, p, Test).(availIdx := (s.availIdx + 1) % 0x1_0000, unread := s.unread + [p],
        posted := s.posted + [p])
    case Check(p) => if s.clients[p].disk then Go(s, p, Nap).(holder := Nobody) else Go(s, p, Finish)
    case Clean(p) => 
      var (free, desc) := FreeChain(s.free, s.desc, s.clients[p].a).value;
      Go(s, p, Leave).(info := s.info[s.clients[p].a := None], free := free, desc := desc)
    case Unlock(p) => Go(s, p, Idle).(holder := Nobody)
    case Fetch =>
      var h := s.avail[Place(s.lastAvail)];
      s.(lastAvail := (s.lastAvail + 1) % 0x1_0000, inflight := s.inflight + [Req(h, s.desc[s.desc[h].next].addr)],
         unread := Tail(s.unread), fetched := s.fetched + Head(s.unread))
    case Complete(i) =>
      var r := s.inflight[i];
      s.(elems := s.elems[Place(s.usedId) := r.head], written := Some(r),
          inflight := s.inflight[..i] + s.inflight[i + 1..],
         fetched := if i < |s.fetched| then s.fetched[..i] + s.fetched[i + 1..] else s.fetched,
         closing := if i < |s.fetched| then [s.fetched[i]] else [])
    case Bump => s.(usedId := (s.usedId + 1) % 0x1_0000, written := None, closing := [],
                    unseen := s.unseen + s.closing, done := s.done + Buffers(s.written))
    case IntrLock => s.(holder := Interrupt)
    case IntrTurn =>
      var b := s.info[s.elems[s.usedSeen]].value;
      Set(s, b, s.clients[b].(disk := false)).(usedSeen := Place(s.usedSeen + 1), unseen := Tail(s.unseen),
          woken := s.woken + [b])
    case IntrUnlock => s.(holder := Nobody)
  }

  /** The buffer that a request points at. */
  function Buffers(r: Option<Req>): seq<nat> { if r.Some? && r.value.data.Data? then [r.value.data.p] else [] }

  // ----- what holds in every state -----

  /** The process has three descriptors. */
  predicate HasChain(pc: Pc) { pc.Format? || pc.Post? || pc.Publish? || pc.Test? || pc.Nap? || pc.Finish? }

  /** They are linked, and name its buffer. */
  predicate HasLinks(pc: Pc) { HasChain(pc) && !pc.Format? }

  predicate InChain(x: Client, i: nat) { i == x.a || i == x.b || i == x.c }

  predicate LinksOk(s: State, p: nat)
    requires Shaped(s) && p < |s.clients|
  {
    var x := s.clients[p];
    && s.desc[x.a] == Desc(Header, true, x.b) && s.desc[x.b] == Desc(Data(p), true, x.c)
    && s.desc[x.c] == Desc(Status(x.a), false, 0)
    && s.info[x.a] == Some(p)
  }

  predicate ChainOk(s: State, p: nat)
    requires Shaped(s) && p < |s.clients|
  {
    var x := s.clients[p];
    && (HasChain(x.pc) ==> x.a != x.b && x.b != x.c && x.a != x.c && !s.free[x.a] && !s.free[x.b] && !s.free[x.c])
    && (HasLinks(x.pc) ==> LinksOk(s, p))
  }

  predicate Apart(x: Client, y: Client) {
    x.a != y.a && x.a != y.b && x.a != y.c && x.b != y.a && x.b != y.b && x.b != y.c && x.c != y.a && x.c != y.b
        && x.c != y.c
  }

  /** The descriptors are partitioned into free ones and disjoint chains of three. */
  ghost predicate Partition(s: State)
    requires Shaped(s)
  {
    && (forall p :: 0 <= p < |s.clients| ==> ChainOk(s, p))
    && (forall p, q :: 0 <= p < |s.clients| && 0 <= q < |s.clients| && p != q
                       && HasChain(s.clients[p].pc) && HasChain(s.clients[q].pc) ==>
          Apart(s.clients[p], s.clients[q]))
    && Covered(s)
  }

  predicate Uses(s: State, p: nat, i: nat) { p < |s.clients| && HasChain(s.clients[p].pc) && InChain(s.clients[p], i) }

  /** No descriptor is lost. */
  ghost predicate Covered(s: State) {
    |s.free| == NUM && forall i :: 0 <= i < NUM && !s.free[i] ==> exists p :: Uses(s, p, i)
  }

  predicate Critical(pc: Pc) { pc.Try? || pc.Format? || pc.Post? || pc.Publish? || pc.Test? || pc.Finish? || pc.Leave? }

  ghost predicate LockOk(s: State) {
    forall p :: 0 <= p < |s.clients| ==> (Critical(s.clients[p].pc) <==> s.holder == Process(p))
  }

  /** All outstanding requests, from the avail ring to the used ring. */
  function Queue(s: State): seq<nat> { s.unread + s.fetched + s.closing + s.unseen }

  predicate Distinct(q: seq<nat>) { forall i, j :: 0 <= i < j < |q| ==> q[i] != q[j] }

  predicate Waiting(x: Client) { (x.pc.Test? || x.pc.Nap?) && x.disk }

  function HeadOf(s: State, p: nat): nat { if p < |s.clients| then s.clients[p].a else NUM }

  predicate Waits(s: State, p: nat) { p < |s.clients| && Waiting(s.clients[p]) }

  /** Each waiting process has one request outstanding, and nobody else has any. */
  ghost predicate QueueOk(s: State) {
    && (forall p: nat :: multiset(Queue(s))[p] == if Waits(s, p) then 1 else 0)
    && (forall p :: 0 <= p < |s.clients| && (s.clients[p].pc.Post? || s.clients[p].pc.Publish?) ==> s.clients[p].disk)
    && (forall p :: 0 <= p < |s.clients| && s.clients[p].pc.Finish? ==> !s.clients[p].disk)
  }

  /** The avail ring holds the heads of the requests that wait in it, where the device will look. */
  ghost predicate AvailOk(s: State) {
    && |s.avail| == 8 && s.availIdx == (s.lastAvail + |s.unread|) % 0x1_0000
    && (forall i :: 0 <= i < |s.unread| ==> s.avail[Place(s.lastAvail + i)] == HeadOf(s, s.unread[i]))
    && (forall p :: 0 <= p < |s.clients| && s.clients[p].pc.Publish? ==> s.avail[Place(s.availIdx)] == s.clients[p].a)
  }

  /** The used ring holds the heads of the requests that wait in it, where the handler will look. */
  ghost predicate UsedOk(s: State) {
    && |s.elems| == 8 && Place(s.usedId) == Place(s.usedSeen + |s.unseen|)
    && (forall i :: 0 <= i < |s.unseen| ==> s.elems[Place(s.usedSeen + i)] == HeadOf(s, s.unseen[i]))
  }

  ghost predicate RingsOk(s: State) { AvailOk(s) && UsedOk(s) }

  /** The device works on the requests it fetched. */
  ghost predicate DeviceOk(s: State) {
    && |s.fetched| == |s.inflight|
    && (forall i :: 0 <= i < |s.fetched| ==>
        s.fetched[i] < |s.clients| && s.inflight[i] == Req(s.clients[s.fetched[i]].a, Data(s.fetched[i])))
    && (if s.written.None? then s.closing == []
        else |s.closing| == 1 && s.closing[0] < |s.clients|
             && s.written == Some(Req(s.clients[s.closing[0]].a, Data(s.closing[0]))))
    && |s.elems| == NUM && (s.written.Some? ==> s.elems[Place(s.usedId)] == s.clients[s.closing[0]].a)
    && s.done == s.woken + s.unseen
  }

  ghost predicate Inv(s: State) {
    Shaped(s) && Partition(s) && LockOk(s) && QueueOk(s) && RingsOk(s) && DeviceOk(s)
  }

  /** Every request posted is outstanding or done with, and nothing else is. */
  ghost predicate Conserved(s: State) { multiset(s.posted) == multiset(s.woken) + multiset(Queue(s)) }

  // ----- no more than two requests at a time -----

  lemma {:induction false} BoundedSet(q: set<nat>, n: nat)
    requires forall x :: x in q ==> x < n
    ensures |q| <= n
  {
    if q != {} {
      var x :| x in q;
      if n - 1 in q {
        BoundedSet(q - {n - 1}, n - 1);
      } else {
        BoundedSet(q, n - 1);
      }
    }
  }

  function Chain(x: Client): set<nat> { {x.a, x.b, x.c} }

  predicate Proper(x: Client) { x.a < NUM && x.b < NUM && x.c < NUM && x.a != x.b && x.b != x.c && x.a != x.c }

  lemma ChainSize(x: Client)
    requires Proper(x)
    ensures |Chain(x)| == 3 && forall i :: i in Chain(x) ==> i < 8
  {
  }

  lemma ApartChains(x: Client, y: Client)
    requires Apart(x, y)
    ensures Chain(x) * Chain(y) == {}
  {
  }

  /** Three chains would take nine descriptors. */
  lemma NoThreeChains(x: Client, y: Client, z: Client)
    requires Proper(x) && Proper(y) && Proper(z)
    ensures !(Apart(x, y) && Apart(x, z) && Apart(y, z))
  {
    hide Apart, Chain;
    if Apart(x, y) && Apart(x, z) && Apart(y, z) {
      ChainSize(x);
      ChainSize(y);
      ChainSize(z);
      ApartChains(x, y);
      ApartChains(x, z);
      ApartChains(y, z);
      var two := Chain(x) + Chain(y);
      assert two * Chain(z) == {};
      BoundedSet(two + Chain(z), 8);
      assert false;
    }
  }

  lemma PartitionAt(s: State, p: nat, q: nat)
    requires Shaped(s) && Partition(s) && p < |s.clients| && q < |s.clients|
    ensures ChainOk(s, p) && (HasChain(s.clients[p].pc) ==> Proper(s.clients[p]))
    ensures p != q && HasChain(s.clients[p].pc) && HasChain(s.clients[q].pc) ==> Apart(s.clients[p], s.clients[q])
  {
  }

  lemma ThreeChains(s: State, p: nat, q: nat, r: nat)
    requires Shaped(s) && Partition(s) && p < |s.clients| && q < |s.clients| && r < |s.clients|
    requires p != q && q != r && p != r && HasChain(s.clients[p].pc) && HasChain(s.clients[q].pc)
    ensures !HasChain(s.clients[r].pc)
  {
    hide Apart, Partition, ChainOk, Shaped, Proper;
    PartitionAt(s, p, q);
    PartitionAt(s, q, r);
    PartitionAt(s, r, p);
    PartitionAt(s, p, r);
    if HasChain(s.clients[r].pc) {
      NoThreeChains(s.clients[p], s.clients[q], s.clients[r]);
    }
  }

  lemma DistinctQueue(q: seq<nat>)
    requires forall x :: multiset(q)[x] <= 1
    ensures Distinct(q)
  {
    forall i, j | 0 <= i < j < |q|
      ensures q[i] != q[j]
    {
      var x := q[i];
      assert q == q[..i] + [x] + q[i + 1..];
      assert multiset(q) == multiset(q[..i]) + multiset{x} + multiset(q[i + 1..]);
      assert multiset(q)[x] <= 1;
      assert x !in multiset(q[i + 1..]);
      assert q[i + 1..][j - i - 1] == q[j];
    }
  }

  lemma QueueWaits(s: State)
    requires QueueOk(s)
    ensures Distinct(Queue(s)) && forall i :: 0 <= i < |Queue(s)| ==> Waits(s, Queue(s)[i])
  {
    hide Queue;
    DistinctQueue(Queue(s));
    forall i | 0 <= i < |Queue(s)|
      ensures Waits(s, Queue(s)[i])
    {
      assert Queue(s)[i] in multiset(Queue(s));
    }
  }

  lemma WaitsChain(s: State, p: nat)
    requires Waits(s, p)
    ensures p < |s.clients| && HasChain(s.clients[p].pc) && HasLinks(s.clients[p].pc)
  {
  }

  lemma QueueSmall(s: State)
    requires Shaped(s) && Partition(s) && QueueOk(s)
    ensures |Queue(s)| <= 2
  {
    hide Queue, QueueOk, Partition, Shaped, HasChain, Waits;
    var q := Queue(s);
    QueueWaits(s);
    if |q| > 2 {
      WaitsChain(s, q[0]);
      WaitsChain(s, q[1]);
      WaitsChain(s, q[2]);
      ThreeChains(s, q[0], q[1], q[2]);
    }
  }

  lemma PublisherAlone(s: State, p: nat)
    requires Shaped(s) && Partition(s) && QueueOk(s) && p < |s.clients|
        && (s.clients[p].pc.Post? || s.clients[p].pc.Publish?)
    ensures |Queue(s)| <= 1
  {
    hide Queue, QueueOk, Partition, Shaped;
    var q := Queue(s);
    QueueWaits(s);
    if |q| > 1 {
      WaitsChain(s, q[0]);
      WaitsChain(s, q[1]);
      ThreeChains(s, q[0], q[1], p);
    }
  }

  // ----- steps -----

  /** Descriptors and their owners are the same. */
  ghost predicate SameChains(s: State, t: State) {
    && t.free == s.free && t.desc == s.desc && t.info == s.info && |t.clients| == |s.clients|
    && forall p :: 0 <= p < |s.clients| ==>
         && t.clients[p].a == s.clients[p].a && t.clients[p].b == s.clients[p].b && t.clients[p].c == s.clients[p].c
         && HasChain(t.clients[p].pc) == HasChain(s.clients[p].pc)
         && HasLinks(t.clients[p].pc) == HasLinks(s.clients[p].pc)
  }

  lemma StaysCovered(s: State, t: State)
    requires Covered(s) && |t.free| == NUM && forall i :: 0 <= i < NUM && !t.free[i] ==> !s.free[i]
    requires forall q: nat, i: nat :: i < NUM && !t.free[i] && Uses(s, q, i) ==> Uses(t, q, i)
    ensures Covered(t)
  {
    forall i | 0 <= i < NUM && !t.free[i]
      ensures exists q :: Uses(t, q, i)
    {
      var q :| Uses(s, q, i);
      assert Uses(t, q, i);
    }
  }

  lemma PartitionKept(s: State, t: State)
    requires Shaped(s) && Shaped(t) && Partition(s) && SameChains(s, t)
    ensures Partition(t)
  {
    hide Covered;
    forall p | 0 <= p < |t.clients|
      ensures ChainOk(t, p)
    {
      assert ChainOk(s, p);
    }
    StaysCovered(s, t);
  }

  ghost predicate SameRings(s: State, t: State) {
    && t.avail == s.avail && t.availIdx == s.availIdx && t.elems == s.elems && t.usedId == s.usedId
    && t.usedSeen == s.usedSeen && t.lastAvail == s.lastAvail
    && t.inflight == s.inflight && t.written == s.written && t.unread == s.unread && t.fetched == s.fetched
    && t.closing == s.closing
    && t.unseen == s.unseen && t.done == s.done && t.woken == s.woken
  }

  /** Who waits, and with which head, is the same. */
  ghost predicate SameWaits(s: State, t: State) {
    && |t.clients| == |s.clients|
    && (forall p: nat :: Waits(t, p) <==> Waits(s, p))
    && (forall p: nat :: Waits(s, p) ==> HeadOf(t, p) == HeadOf(s, p))
  }

  lemma RingsKept(s: State, t: State)
    requires RingsOk(s) && SameRings(s, t) && |t.clients| == |s.clients|
    requires forall i :: 0 <= i < |s.unread| ==> HeadOf(t, s.unread[i]) == HeadOf(s, s.unread[i])
    requires forall i :: 0 <= i < |s.unseen| ==> HeadOf(t, s.unseen[i]) == HeadOf(s, s.unseen[i])
    requires forall p :: 0 <= p < |t.clients| && t.clients[p].pc.Publish? ==>
        s.clients[p].pc.Publish? && t.clients[p].a == s.clients[p].a
    ensures RingsOk(t)
  {
    hide Place, HeadOf;
  }

  lemma DeviceKept(s: State, t: State)
    requires DeviceOk(s) && SameRings(s, t) && |t.clients| == |s.clients|
    requires forall i :: 0 <= i < |s.fetched| ==> HeadOf(t, s.fetched[i]) == HeadOf(s, s.fetched[i])
    requires forall i :: 0 <= i < |s.closing| ==> HeadOf(t, s.closing[i]) == HeadOf(s, s.closing[i])
    ensures DeviceOk(t)
  {
  }

  lemma QuietKeeps(s: State, t: State)
    requires Inv(s) && Shaped(t) && SameRings(s, t) && SameWaits(s, t)
    requires forall p :: 0 <= p < |t.clients| && t.clients[p].pc.Publish? ==>
        s.clients[p].pc.Publish? && t.clients[p].a == s.clients[p].a
    requires forall p :: 0 <= p < |t.clients| && (t.clients[p].pc.Post? || t.clients[p].pc.Publish?) ==>
        t.clients[p].disk
    requires forall p :: 0 <= p < |t.clients| && t.clients[p].pc.Finish? ==> !t.clients[p].disk
    ensures QueueOk(t) && RingsOk(t) && DeviceOk(t)
  {
    hide Partition, Waits, LockOk, Shaped, HeadOf, RingsOk, DeviceOk;
    assert Queue(t) == Queue(s);
    QueueIn(s);
    RingsKept(s, t);
    DeviceKept(s, t);
  }

  lemma QueueIn(s: State)
    requires Shaped(s) && QueueOk(s)
    ensures forall i :: 0 <= i < |s.unread| ==> Waits(s, s.unread[i])
    ensures forall i :: 0 <= i < |s.fetched| ==> Waits(s, s.fetched[i])
    ensures forall i :: 0 <= i < |s.closing| ==> Waits(s, s.closing[i])
    ensures forall i :: 0 <= i < |s.unseen| ==> Waits(s, s.unseen[i])
  {
    hide QueueOk, Waits;
    QueueWaits(s);
    var q := Queue(s);
    var a, b, c := |s.unread|, |s.fetched|, |s.closing|;
    forall i | 0 <= i < a ensures Waits(s, s.unread[i]) { assert q[i] == s.unread[i]; }
    forall i | 0 <= i < b ensures Waits(s, s.fetched[i]) { assert q[a + i] == s.fetched[i]; }
    forall i | 0 <= i < c ensures Waits(s, s.closing[i]) { assert q[a + b + i] == s.closing[i]; }
    forall i | 0 <= i < |s.unseen| ensures Waits(s, s.unseen[i]) { assert q[a + b + c + i] == s.unseen[i]; }
  }

  lemma QuietStep(s: State, a: Action)
    requires Inv(s) && Can(s, a) && Quiet(a)
    ensures Inv(Do(s, a))
  {
    hide Partition, RingsOk, DeviceOk, QueueOk;
    var t := Do(s, a);
    QuietSame(s, a);
    PartitionKept(s, t);
    StagesOk(s);
    QuietKeeps(s, t);
  }

  predicate Quiet(a: Action) { a.Call? || a.Lock? || a.Check? || a.Unlock? || a.IntrLock? || a.IntrUnlock? }

  lemma QuietShape(s: State, a: Action)
    requires Shaped(s) && Can(s, a) && Quiet(a)
    ensures Shaped(Do(s, a)) && SameRings(s, Do(s, a))
  {
    hide FreeChain, Alloc3;
  }

  lemma QuietChains(s: State, a: Action)
    requires Shaped(s) && Can(s, a) && Quiet(a)
    ensures SameChains(s, Do(s, a))
  {
    hide FreeChain, Alloc3;
  }

  lemma QuietWaits(s: State, a: Action)
    requires Shaped(s) && Can(s, a) && Quiet(a)
    ensures SameWaits(s, Do(s, a))
  {
    hide FreeChain, Alloc3;
  }

  lemma QuietSame(s: State, a: Action)
    requires Shaped(s) && Can(s, a) && Quiet(a)
    ensures Shaped(Do(s, a)) && SameChains(s, Do(s, a)) && SameRings(s, Do(s, a)) && SameWaits(s, Do(s, a))
  {
    hide SameRings, SameWaits, SameChains, Do, Shaped;
    QuietShape(s, a);
    QuietChains(s, a);
    QuietWaits(s, a);
  }

  lemma StagesOk(s: State)
    requires QueueOk(s)
    ensures forall p :: 0 <= p < |s.clients| && (s.clients[p].pc.Post? || s.clients[p].pc.Publish?) ==>
        s.clients[p].disk
    ensures forall p :: 0 <= p < |s.clients| && s.clients[p].pc.Finish? ==> !s.clients[p].disk
  {
  }

  lemma {:induction false} FirstFreeIs(free: seq<bool>, i: nat)
    requires |free| == NUM && i <= NUM
    ensures var f := FirstFree(free, i); i <= f <= NUM && (f < NUM ==> free[f]) && forall k :: i <= k < f ==> !free[k]
    decreases NUM - i
  {
    if i < NUM && !free[i] {
      FirstFreeIs(free, i + 1);
    }
  }

  /** alloc3_desc finds three different free descriptors, and fails only when there are not three. */
  lemma Alloc3Is(free: seq<bool>)
    requires |free| == NUM
    ensures Alloc3(free).Some? ==> var (a, b, c) := Alloc3(free).value;
              a < NUM && b < NUM && c < NUM && a != b && b != c && a != c && free[a] && free[b] && free[c]
    ensures Alloc3(free).None? ==> forall a, b, c :: 0 <= a < b < c < NUM ==> !(free[a] && free[b] && free[c])
  {
    hide FirstFree;
    FirstFreeIs(free, 0);
    var a := FirstFree(free, 0);
    if a < NUM {
      var f := free[a := false];
      FirstFreeIs(f, 0);
      var b := FirstFree(f, 0);
      if b < NUM {
        var g := f[b := false];
        FirstFreeIs(g, 0);
        assert forall k :: 0 <= k < NUM && k != a && k != b ==> g[k] == free[k];
      } else {
        assert forall k :: 0 <= k < NUM && k != a ==> f[k] == free[k];
      }
    }
  }

  /** Other chains do not use the three descriptors given to p. */
  lemma AllocPartition(s: State, p: nat, i: nat, j: nat, k: nat, t: State)
    requires Shaped(s) && Shaped(t) && Partition(s) && p < |s.clients| && s.clients[p].pc.Try?
    requires i < NUM && j < NUM && k < NUM && i != j && j != k && i != k && s.free[i] && s.free[j] && s.free[k]
    requires t.clients == s.clients[p := s.clients[p].(pc := Format, a := i, b := j, c := k)]
    requires t.free == s.free[i := false][j := false][k := false] && t.desc == s.desc && t.info == s.info
    ensures Partition(t)
  {
    hide LinksOk, Covered;
    forall q | 0 <= q < |t.clients|
      ensures ChainOk(t, q)
    {
      assert ChainOk(s, q);
      LinksSame(s, t, q);
    }
    AllocCovered(s, p, i, j, k, t);
    forall q | 0 <= q < |s.clients| && q != p && HasChain(s.clients[q].pc)
      ensures Apart(s.clients[q], t.clients[p]) && Apart(t.clients[p], s.clients[q])
    {
      assert ChainOk(s, q);
    }
  }

  lemma AllocCovered(s: State, p: nat, i: nat, j: nat, k: nat, t: State)
    requires Covered(s) && p < |s.clients| && s.clients[p].pc.Try? && i < NUM && j < NUM && k < NUM
    requires t.clients == s.clients[p := s.clients[p].(pc := Format, a := i, b := j, c := k)]
    requires t.free == s.free[i := false][j := false][k := false]
    ensures Covered(t)
  {
    forall d | 0 <= d < NUM && !t.free[d]
      ensures exists q :: Uses(t, q, d)
    {
      if d == i || d == j || d == k {
        assert Uses(t, p, d);
      } else {
        var q :| Uses(s, q, d);
        assert Uses(t, q, d);
      }
    }
  }

  lemma LinksSame(s: State, t: State, q: nat)
    requires Shaped(s) && Shaped(t) && q < |s.clients| == |t.clients|
    requires t.desc == s.desc && t.info == s.info
    ensures s.clients[q].a == t.clients[q].a && s.clients[q].b == t.clients[q].b && s.clients[q].c == t.clients[q].c ==>
        LinksOk(t, q) == LinksOk(s, q)
  {
  }

  lemma NoneFreedPartition(s: State, p: nat, t: State)
    requires Shaped(s) && Shaped(t) && Partition(s) && p < |s.clients| && s.clients[p].pc.Try?
    requires t.clients == s.clients[p := s.clients[p].(pc := NoDesc)] && t.free == s.free && t.info == s.info
    requires forall i :: 0 <= i < NUM && !s.free[i] ==> t.desc[i] == s.desc[i]
    ensures Partition(t)
  {
    hide Covered;
    forall q | 0 <= q < |t.clients|
      ensures ChainOk(t, q)
    {
      assert ChainOk(s, q);
    }
    StaysCovered(s, t);
  }

  lemma AllocFails(s: State, p: nat)
    requires Inv(s) && Can(s, Alloc(p)) && Alloc3(s.free).None?
    ensures var t := Do(s, Alloc(p));
            && Shaped(t) && SameRings(s, t) && SameWaits(s, t) && t.free == s.free && t.info == s.info
            && t.holder == Nobody
            && t.clients == s.clients[p := s.clients[p].(pc := NoDesc)] && forall i :: 0 <= i < NUM && !s.free[i] ==>
                t.desc[i] == s.desc[i]
  {
    hide Partition, RingsOk, DeviceOk, QueueOk, Alloc3, LockOk;
    var t := Do(s, Alloc(p));
    assert forall i :: 0 <= i < NUM ==> t.desc[i].next == s.desc[i].next;
  }

  lemma AllocWorks(s: State, p: nat)
    requires Inv(s) && Can(s, Alloc(p)) && Alloc3(s.free).Some?
    ensures var t := Do(s, Alloc(p)); Shaped(t) && SameRings(s, t) && SameWaits(s, t)
  {
    hide Partition, RingsOk, DeviceOk, QueueOk, Alloc3, LockOk;
    Alloc3Is(s.free);
    var (i, j, k) := Alloc3(s.free).value;
    var t := Do(s, Alloc(p));
    assert t.clients == s.clients[p := s.clients[p].(pc := Format, a := i, b := j, c := k)];
  }

  lemma AllocStep(s: State, p: nat)
    requires Inv(s) && Can(s, Alloc(p))
    ensures Inv(Do(s, Alloc(p)))
  {
    hide Partition, RingsOk, DeviceOk, QueueOk, Alloc3, SameRings, SameWaits;
    var t := Do(s, Alloc(p));
    Alloc3Is(s.free);
    StagesOk(s);
    if Alloc3(s.free).None? {
      AllocFails(s, p);
      NoneFreedPartition(s, p, t);
      QuietKeeps(s, t);
    } else {
      AllocWorks(s, p);
      var (i, j, k) := Alloc3(s.free).value;
      AllocPartition(s, p, i, j, k, t);
      QuietKeeps(s, t);
    }
  }

  lemma FillPartition(s: State, p: nat, t: State)
    requires Shaped(s) && Shaped(t) && Partition(s) && p < |s.clients| && s.clients[p].pc.Format?
    requires t.clients == s.clients[p := s.clients[p].(pc := Post, disk := true)] && t.free == s.free
    requires var x := s.clients[p];
            t.desc == s.desc[x.a := Desc(Header, true, x.b)][x.b := Desc(Data(p), true, x.c)]
                            [x.c := Desc(Status(x.a), false, 0)]
    requires t.info == s.info[s.clients[p].a := Some(p)]
    ensures Partition(t)
  {
    hide Covered;
    forall q | 0 <= q < |t.clients|
      ensures ChainOk(t, q)
    {
      assert ChainOk(s, q) && ChainOk(s, p);
      if q != p && HasChain(s.clients[q].pc) {
        assert Apart(s.clients[q], s.clients[p]);
      }
    }
    StaysCovered(s, t);
  }

  lemma FillStep(s: State, p: nat)
    requires Inv(s) && Can(s, Fill(p))
    ensures Inv(Do(s, Fill(p)))
  {
    hide Partition, RingsOk, DeviceOk, QueueOk;
    var t := Do(s, Fill(p));
    assert Shaped(t) && SameRings(s, t) && SameWaits(s, t);
    FillPartition(s, p, t);
    StagesOk(s);
    QuietKeeps(s, t);
  }

  /** A chain of three is freed whole, without a panic. */
  lemma ThreeFreed(free: seq<bool>, desc: seq<Desc>, x: Client)
    requires |free| == |desc| == NUM && Proper(x) && !free[x.a] && !free[x.b] && !free[x.c]
    requires desc[x.a].linked && desc[x.a].next == x.b && desc[x.b].linked && desc[x.b].next == x.c && !desc[x.c].linked
    ensures FreeChain(free, desc, x.a) == Some((free[x.a := true][x.b := true][x.c := true],
              desc[x.a := Cleared(desc[x.a])][x.b := Cleared(desc[x.b])][x.c := Cleared(desc[x.c])]))
  {
    var f1, d1 := free[x.a := true], desc[x.a := Cleared(desc[x.a])];
    var f2, d2 := f1[x.b := true], d1[x.b := Cleared(d1[x.b])];
    assert FreeChain(f2, d2, x.c) == Some((f2[x.c := true], d2[x.c := Cleared(d2[x.c])]));
    assert FreeChain(f1, d1, x.b) == FreeChain(f2, d2, x.c);
  }

  lemma CleanPartition(s: State, p: nat, t: State)
    requires Shaped(s) && Shaped(t) && Partition(s) && p < |s.clients| && s.clients[p].pc.Finish?
    requires t.clients == s.clients[p := s.clients[p].(pc := Leave)]
    requires var x := s.clients[p];
            t.free == s.free[x.a := true][x.b := true][x.c := true]
            && t.info == s.info[x.a := None]
    requires forall i :: 0 <= i < NUM && !InChain(s.clients[p], i) ==> t.desc[i] == s.desc[i]
    ensures Partition(t)
  {
    hide Covered;
    forall q | 0 <= q < |t.clients|
      ensures ChainOk(t, q)
    {
      assert ChainOk(s, q) && ChainOk(s, p);
      if q != p && HasChain(s.clients[q].pc) {
        assert Apart(s.clients[q], s.clients[p]);
      }
    }
    StaysCovered(s, t);
  }

  lemma CleanStep(s: State, p: nat)
    requires Inv(s) && Can(s, Clean(p))
    ensures Inv(Do(s, Clean(p)))
  {
    hide Partition, RingsOk, DeviceOk, QueueOk, FreeChain;
    var t := Do(s, Clean(p));
    PartitionAt(s, p, p);
    ThreeFreed(s.free, s.desc, s.clients[p]);
    assert Shaped(t) && SameRings(s, t) && SameWaits(s, t);
    CleanPartition(s, p, t);
    StagesOk(s);
    QuietKeeps(s, t);
  }

  // ----- the avail ring -----

  /** Counting 16-bit indices on keeps the places in the ring. */
  lemma PlaceNext(i: nat, k: nat)
    requires i < 0x1_0000
    ensures Place((i + k) % 0x1_0000) == Place(i + k) < 8
    ensures Place((i + 1) % 0x1_0000 + k) == Place(i + 1 + k)
  {
  }

  lemma PlacesDiffer(i: nat, j: nat, k: nat)
    requires j < k < j + 8
    ensures Place(i + j) != Place(i + k) && Place(i + j) < 8
  {
  }

  lemma IndexNext(i: nat, n: nat)
    requires i < 0x1_0000
    ensures ((i + n) % 0x1_0000 + 1) % 0x1_0000 == (i + (n + 1)) % 0x1_0000
  {
  }

  lemma UsedKept(s: State, t: State)
    requires UsedOk(s) && t.elems == s.elems && t.usedId == s.usedId && t.usedSeen == s.usedSeen && t.unseen == s.unseen
    requires forall i :: 0 <= i < |s.unseen| ==> HeadOf(t, s.unseen[i]) == HeadOf(s, s.unseen[i])
    ensures UsedOk(t)
  {
    hide Place, HeadOf;
  }

  /** No unread entry is overwritten. */
  lemma SlotRings(s: State, p: nat, t: State)
    requires s.lastAvail < 0x1_0000 && AvailOk(s) && |s.unread| <= 1 && p < |s.clients| && s.clients[p].pc.Post?
    requires t == Go(s, p, Publish).(avail := s.avail[Place(s.availIdx) := s.clients[p].a])
    requires forall q :: 0 <= q < |s.clients| && q != p ==> !s.clients[q].pc.Publish?
    ensures AvailOk(t)
  {
    hide Place;
    PlaceNext(s.lastAvail, |s.unread|);
    PlacesDiffer(s.lastAvail, 0, 1);
    forall i | 0 <= i < |s.unread|
      ensures t.avail[Place(t.lastAvail + i)] == HeadOf(t, t.unread[i])
    {
      assert i == 0 && s.avail[Place(s.lastAvail + i)] == HeadOf(s, s.unread[i]);
    }
  }

  lemma AlonePublishing(s: State, p: nat)
    requires LockOk(s) && p < |s.clients| && Critical(s.clients[p].pc)
    ensures forall q :: 0 <= q < |s.clients| && q != p ==> !Critical(s.clients[q].pc)
  {
  }

  lemma SlotSame(s: State, p: nat)
    requires Inv(s) && Can(s, Slot(p))
    ensures var t := Do(s, Slot(p)); Shaped(t) && SameChains(s, t) && LockOk(t) && SameWaits(s, t)
    ensures s.lastAvail < 0x1_0000 && |s.avail| == 8
        && Do(s, Slot(p)) == Go(s, p, Publish).(avail := s.avail[Place(s.availIdx) := s.clients[p].a])
    ensures |Do(s, Slot(p)).clients| == |s.clients| && forall q: nat :: HeadOf(Do(s, Slot(p)), q) == HeadOf(s, q)
  {
    hide Partition, RingsOk, DeviceOk, QueueOk;
  }

  lemma SlotStep(s: State, p: nat)
    requires Inv(s) && Can(s, Slot(p))
    ensures Inv(Do(s, Slot(p)))
  {
    hide Partition, AvailOk, UsedOk, DeviceOk, QueueOk, Shaped, SameChains, LockOk, Do;
    var t := Do(s, Slot(p));
    SlotSame(s, p);
    PartitionKept(s, t);
    PublisherAlone(s, p);
    AlonePublishing(s, p);
    SlotRings(s, p, t);
    UsedKept(s, t);
    StagesOk(s);
    QueueMoves(s, t);
    DeviceMoves(s, t);
  }

  lemma QueueMoves(s: State, t: State)
    requires QueueOk(s) && SameWaits(s, t) && multiset(Queue(t)) == multiset(Queue(s))
    requires forall p :: 0 <= p < |t.clients| && (t.clients[p].pc.Post? || t.clients[p].pc.Publish?) ==>
        t.clients[p].disk
    requires forall p :: 0 <= p < |t.clients| && t.clients[p].pc.Finish? ==> !t.clients[p].disk
    ensures QueueOk(t)
  {
    hide Queue, Waits;
  }

  lemma DeviceMoves(s: State, t: State)
    requires Shaped(s) && QueueOk(s) && DeviceOk(s) && SameWaits(s, t)
    requires t.fetched == s.fetched && t.inflight == s.inflight && t.written == s.written && t.closing == s.closing
        && t.elems == s.elems
    requires t.usedId == s.usedId && t.done == s.done && t.woken == s.woken && t.unseen == s.unseen
    ensures DeviceOk(t)
  {
    hide QueueOk, Waits;
    QueueIn(s);
  }

  lemma IndexRings(s: State, p: nat, t: State)
    requires s.lastAvail < 0x1_0000 && AvailOk(s) && p < |s.clients| && s.clients[p].pc.Publish?
    requires t == Go(s, p, Test).(availIdx := (s.availIdx + 1) % 0x1_0000, unread := s.unread + [p],
        posted := s.posted + [p])
    requires forall q :: 0 <= q < |s.clients| && q != p ==> !s.clients[q].pc.Publish?
    ensures AvailOk(t)
  {
    hide Place;
    PlaceNext(s.lastAvail, |s.unread|);
    IndexNext(s.lastAvail, |s.unread|);
    forall i | 0 <= i < |t.unread|
      ensures t.avail[Place(t.lastAvail + i)] == HeadOf(t, t.unread[i])
    {
      if i < |s.unread| {
        assert t.unread[i] == s.unread[i];
        assert s.avail[Place(s.lastAvail + i)] == HeadOf(s, s.unread[i]);
      }
    }
  }

  lemma IndexQueue(s: State, p: nat, t: State)
    requires QueueOk(s) && p < |s.clients| && s.clients[p].pc.Publish?
    requires t == Go(s, p, Test).(availIdx := (s.availIdx + 1) % 0x1_0000, unread := s.unread + [p],
        posted := s.posted + [p])
    ensures QueueOk(t)
  {
    assert multiset(Queue(t)) == multiset(Queue(s)) + multiset{p};
    forall q: nat
      ensures multiset(Queue(t))[q] == if Waits(t, q) then 1 else 0
    {
      assert multiset(Queue(s))[q] == if Waits(s, q) then 1 else 0;
    }
  }

  lemma IndexSame(s: State, p: nat)
    requires Inv(s) && Can(s, Index(p))
    ensures var t := Do(s, Index(p)); Shaped(t) && SameChains(s, t) && LockOk(t)
    ensures s.lastAvail < 0x1_0000
        && Do(s, Index(p)) == Go(s, p, Test).(availIdx := (s.availIdx + 1) % 0x1_0000, unread := s.unread + [p],
        posted := s.posted + [p])
    ensures var t := Do(s, Index(p)); |t.clients| == |s.clients| && forall q: nat :: HeadOf(t, q) == HeadOf(s, q)
  {
    hide Partition, RingsOk, DeviceOk, QueueOk;
  }

  lemma IndexStep(s: State, p: nat)
    requires Inv(s) && Can(s, Index(p))
    ensures Inv(Do(s, Index(p)))
  {
    hide Partition, AvailOk, UsedOk, QueueOk, Shaped, SameChains, LockOk, Do, DeviceOk;
    var t := Do(s, Index(p));
    IndexSame(s, p);
    PartitionKept(s, t);
    AlonePublishing(s, p);
    IndexRings(s, p, t);
    UsedKept(s, t);
    IndexQueue(s, p, t);
    DeviceSame(s, t);
  }

  lemma DeviceSame(s: State, t: State)
    requires DeviceOk(s) && |t.clients| == |s.clients| && forall q: nat :: HeadOf(t, q) == HeadOf(s, q)
    requires t.fetched == s.fetched && t.inflight == s.inflight && t.written == s.written && t.closing == s.closing
        && t.elems == s.elems
    requires t.usedId == s.usedId && t.done == s.done && t.woken == s.woken && t.unseen == s.unseen
    ensures DeviceOk(t)
  {
    assert forall i :: 0 <= i < |s.fetched| ==> HeadOf(t, s.fetched[i]) == HeadOf(s, s.fetched[i]);
    assert forall i :: 0 <= i < |s.closing| ==> HeadOf(t, s.closing[i]) == HeadOf(s, s.closing[i]);
  }

  // ----- the device -----

  /** The device finds the oldest unread request, whole. */
  lemma FetchFinds(s: State)
    requires Inv(s) && Can(s, Fetch)
    ensures s.unread != [] && Waits(s, s.unread[0]) && s.avail[Place(s.lastAvail)] == HeadOf(s, s.unread[0]) < NUM
    ensures s.desc[s.desc[HeadOf(s, s.unread[0])].next].addr == Data(s.unread[0])
  {
    hide LockOk, DeviceOk, Waits, QueueOk;
    if s.unread != [] {
      QueueIn(s);
      WaitsChain(s, s.unread[0]);
      PartitionAt(s, s.unread[0], s.unread[0]);
      assert Place(s.lastAvail + 0) == Place(s.lastAvail);
    }
  }

  lemma FetchSame(s: State)
    requires Inv(s) && Can(s, Fetch)
    ensures var t := Do(s, Fetch);
            && Shaped(t) && SameChains(s, t) && t.clients == s.clients && t.holder == s.holder && SameWaits(s, t)
            && s.unread != []
            && t.avail == s.avail && t.availIdx == s.availIdx && t.lastAvail == (s.lastAvail + 1) % 0x1_0000
            && t.unread == s.unread[1..]
            && t.elems == s.elems && t.usedId == s.usedId && t.usedSeen == s.usedSeen && t.unseen == s.unseen
            && t.closing == s.closing && t.written == s.written
            && t.done == s.done && t.woken == s.woken
            && t.fetched == s.fetched + [s.unread[0]]
            && t.inflight == s.inflight + [Req(HeadOf(s, s.unread[0]), Data(s.unread[0]))]
  {
    hide Partition, LockOk, QueueOk, RingsOk, DeviceOk;
    FetchFinds(s);
  }

  lemma FetchStep(s: State)
    requires Inv(s) && Can(s, Fetch)
    ensures Inv(Do(s, Fetch))
  {
    hide Partition, LockOk, QueueOk, Waits, Do, AvailOk, UsedOk, SameChains, SameWaits, DeviceOk, Queue;
    var t := Do(s, Fetch);
    FetchSame(s);
    FetchFinds(s);
    WaitsChain(s, s.unread[0]);
    PartitionKept(s, t);
    LockKept(s, t);
    FetchQueue(s, t);
    StagesOk(s);
    QueueMoves(s, t);
    FetchRings(s, t);
    UsedKept(s, t);
    FetchDevice(s, t, s.unread[0]);
  }

  lemma FetchQueue(s: State, t: State)
    requires s.unread != [] && t.unread == s.unread[1..] && t.fetched == s.fetched + [s.unread[0]]
        && t.closing == s.closing && t.unseen == s.unseen
    ensures multiset(Queue(t)) == multiset(Queue(s))
  {
    assert s.unread == [s.unread[0]] + t.unread;
  }

  lemma FetchDevice(s: State, t: State, p: nat)
    requires DeviceOk(s) && t.clients == s.clients && p < |s.clients|
    requires t.fetched == s.fetched + [p] && t.inflight == s.inflight + [Req(s.clients[p].a, Data(p))]
    requires t.written == s.written && t.closing == s.closing && t.elems == s.elems && t.usedId == s.usedId
        && t.done == s.done && t.woken == s.woken && t.unseen == s.unseen
    ensures DeviceOk(t)
  {
  }

  lemma LockKept(s: State, t: State)
    requires LockOk(s) && t.clients == s.clients && t.holder == s.holder
    ensures LockOk(t)
  {
  }

  lemma FetchRings(s: State, t: State)
    requires s.lastAvail < 0x1_0000 && AvailOk(s) && s.unread != []
    requires t.clients == s.clients && t.avail == s.avail && t.availIdx == s.availIdx
    requires t.lastAvail == (s.lastAvail + 1) % 0x1_0000 && t.unread == s.unread[1..]
    ensures AvailOk(t)
  {
    hide Place;
    IndexBack(s.lastAvail, |t.unread|);
    forall i | 0 <= i < |t.unread|
      ensures t.avail[Place(t.lastAvail + i)] == HeadOf(t, t.unread[i])
    {
      PlaceNext(s.lastAvail, i);
      assert t.unread[i] == s.unread[i + 1];
      assert s.avail[Place(s.lastAvail + (i + 1))] == HeadOf(s, s.unread[i + 1]);
      assert s.lastAvail + 1 + i == s.lastAvail + (i + 1);
    }
  }

  lemma IndexBack(i: nat, n: nat)
    requires i < 0x1_0000
    ensures ((i + 1) % 0x1_0000 + n) % 0x1_0000 == (i + (n + 1)) % 0x1_0000
  {
  }

  // ----- the used ring -----

  /** A completion is not written over one that the handler has yet to see. */
  lemma CompleteUsed(s: State, t: State, h: nat)
    requires UsedOk(s) && |s.unseen| <= 2 && t.clients == s.clients && t.usedId == s.usedId
        && t.usedSeen == s.usedSeen && t.unseen == s.unseen
    requires t.elems == s.elems[Place(s.usedId) := h]
    ensures UsedOk(t)
  {
    hide Place;
    forall i | 0 <= i < |s.unseen|
      ensures t.elems[Place(t.usedSeen + i)] == HeadOf(t, t.unseen[i])
    {
      PlacesDiffer(s.usedSeen, i, |s.unseen|);
      assert s.elems[Place(s.usedSeen + i)] == HeadOf(s, s.unseen[i]);
    }
  }

  lemma CompleteSame(s: State, i: nat)
    requires Inv(s) && Can(s, Complete(i))
    ensures |s.fetched| == |s.inflight| && s.fetched[i] < |s.clients|
        && s.inflight[i].head == s.clients[s.fetched[i]].a && s.closing == []
    ensures var t := Do(s, Complete(i));
            && Shaped(t) && SameChains(s, t) && t.clients == s.clients && t.holder == s.holder && SameWaits(s, t)
            && t.avail == s.avail && t.availIdx == s.availIdx && t.lastAvail == s.lastAvail && t.unread == s.unread
            && t.elems == s.elems[Place(s.usedId) := s.inflight[i].head] && t.usedId == s.usedId
            && t.usedSeen == s.usedSeen && t.unseen == s.unseen
            && t.closing == [s.fetched[i]] && t.written == Some(s.inflight[i]) && t.done == s.done && t.woken == s.woken
            && t.fetched == s.fetched[..i] + s.fetched[i + 1..] && t.inflight == s.inflight[..i] + s.inflight[i + 1..]
  {
    hide Partition, LockOk, QueueOk, RingsOk;
  }

  lemma CompleteQueue(s: State, t: State, i: nat)
    requires i < |s.fetched| && s.closing == [] && t.closing == [s.fetched[i]]
        && t.fetched == s.fetched[..i] + s.fetched[i + 1..] && t.unread == s.unread && t.unseen == s.unseen
    ensures multiset(Queue(t)) == multiset(Queue(s))
  {
    assert s.fetched == s.fetched[..i] + [s.fetched[i]] + s.fetched[i + 1..];
  }

  lemma CompleteDevice(s: State, t: State, i: nat)
    requires DeviceOk(s) && i < |s.fetched| && t.clients == s.clients && s.closing == []
    requires t.elems == s.elems[Place(s.usedId) := s.inflight[i].head] && t.usedId == s.usedId
        && t.unseen == s.unseen && t.done == s.done && t.woken == s.woken
    requires t.closing == [s.fetched[i]] && t.written == Some(s.inflight[i])
    requires t.fetched == s.fetched[..i] + s.fetched[i + 1..] && t.inflight == s.inflight[..i] + s.inflight[i + 1..]
    ensures DeviceOk(t)
  {
    hide Place;
  }

  lemma CompleteStep(s: State, i: nat)
    requires Inv(s) && Can(s, Complete(i))
    ensures Inv(Do(s, Complete(i)))
  {
    hide Partition, LockOk, QueueOk, Do, AvailOk, UsedOk, SameChains, SameWaits, DeviceOk;
    var t := Do(s, Complete(i));
    CompleteSame(s, i);
    PartitionKept(s, t);
    LockKept(s, t);
    CompleteQueue(s, t, i);
    StagesOk(s);
    QueueMoves(s, t) by { hide Queue; }
    QueueSmall(s);
    assert |s.unseen| <= 2;
    AvailKept(s, t);
    CompleteUsed(s, t, s.inflight[i].head);
    CompleteDevice(s, t, i);
  }

  lemma AvailKept(s: State, t: State)
    requires AvailOk(s) && t.clients == s.clients && t.avail == s.avail && t.availIdx == s.availIdx
        && t.lastAvail == s.lastAvail && t.unread == s.unread
    ensures AvailOk(t)
  {
    hide Place;
  }

  lemma BumpUsed(s: State, t: State, p: nat)
    requires UsedOk(s) && s.usedId < 0x1_0000 && t.clients == s.clients && t.elems == s.elems
        && t.usedSeen == s.usedSeen
    requires t.usedId == (s.usedId + 1) % 0x1_0000 && t.unseen == s.unseen + [p]
        && s.elems[Place(s.usedId)] == HeadOf(s, p)
    ensures UsedOk(t)
  {
    BumpPlace(s.usedId, s.usedSeen, |s.unseen|);
    hide Place;
    forall i | 0 <= i < |t.unseen|
      ensures t.elems[Place(t.usedSeen + i)] == HeadOf(t, t.unseen[i])
    {
      if i < |s.unseen| {
        assert s.elems[Place(s.usedSeen + i)] == HeadOf(s, s.unseen[i]);
      }
    }
  }

  lemma BumpPlace(id: nat, seen: nat, n: nat)
    requires id < 0x1_0000 && Place(id) == Place(seen + n)
    ensures Place((id + 1) % 0x1_0000) == Place(seen + (n + 1))
  {
  }

  lemma BumpSame(s: State)
    requires Inv(s) && Can(s, Bump)
    ensures |s.closing| == 1 && s.closing[0] < |s.clients| && s.elems[Place(s.usedId)] == HeadOf(s, s.closing[0])
    ensures var t := Do(s, Bump);
            && Shaped(t) && SameChains(s, t) && t.clients == s.clients && t.holder == s.holder && SameWaits(s, t)
            && t.avail == s.avail && t.availIdx == s.availIdx && t.lastAvail == s.lastAvail && t.unread == s.unread
            && t.fetched == s.fetched
            && t.elems == s.elems && t.usedId == (s.usedId + 1) % 0x1_0000 && t.usedSeen == s.usedSeen
            && t.unseen == s.unseen + [s.closing[0]] && t.closing == []
            && DeviceOk(t)
  {
    hide Partition, LockOk, QueueOk, RingsOk, Place;
  }

  lemma BumpStep(s: State)
    requires Inv(s) && Can(s, Bump)
    ensures Inv(Do(s, Bump))
  {
    hide Partition, LockOk, QueueOk, Do, AvailOk, UsedOk, SameChains, SameWaits, DeviceOk;
    var t := Do(s, Bump);
    BumpSame(s);
    PartitionKept(s, t);
    LockKept(s, t);
    BumpQueue(s, t);
    StagesOk(s);
    QueueMoves(s, t) by { hide Queue; }
    AvailKept(s, t);
    BumpUsed(s, t, s.closing[0]);
  }

  lemma BumpQueue(s: State, t: State)
    requires |s.closing| == 1 && t.closing == [] && t.unseen == s.unseen + [s.closing[0]] && t.fetched == s.fetched
        && t.unread == s.unread
    ensures multiset(Queue(t)) == multiset(Queue(s))
  {
    assert s.closing == [s.closing[0]];
  }

  /** Comparing places shows exactly whether there is a completion to see, and the element read is the oldest one. */
  lemma IntrSees(s: State)
    requires Inv(s)
    ensures Place(s.usedSeen) != Place(s.usedId) <==> s.unseen != []
    ensures s.unseen != [] ==> s.unseen[0] < |s.clients| && Waits(s, s.unseen[0])
                               && s.elems[s.usedSeen] == HeadOf(s, s.unseen[0]) < NUM
                                                      && s.info[s.elems[s.usedSeen]] == Some(s.unseen[0])
  {
    hide Partition, LockOk, QueueOk, AvailOk, DeviceOk, Waits;
    QueueSmall(s);
    assert |s.unseen| <= 2;
    SeenPlace(s.usedSeen, |s.unseen|);
    if s.unseen != [] {
      QueueIn(s);
      WaitsChain(s, s.unseen[0]);
      PartitionAt(s, s.unseen[0], s.unseen[0]);
      assert Place(s.usedSeen + 0) == s.usedSeen;
    }
  }

  lemma SeenPlace(seen: nat, n: nat)
    requires seen < 8 && n <= 2
    ensures Place(seen) == seen && (Place(seen) != Place(seen + n) <==> n != 0)
  {
  }

  lemma IntrSame(s: State)
    requires Inv(s) && Can(s, IntrTurn)
    ensures s.unseen != [] && Waits(s, s.unseen[0])
    ensures var t := Do(s, IntrTurn); var p := s.unseen[0];
            && Shaped(t) && SameChains(s, t) && LockOk(t) && t.clients == s.clients[p := s.clients[p].(disk := false)]
            && t.avail == s.avail && t.availIdx == s.availIdx && t.lastAvail == s.lastAvail && t.unread == s.unread
            && t.fetched == s.fetched && t.closing == s.closing
            && t.elems == s.elems && t.usedId == s.usedId && t.usedSeen == Place(s.usedSeen + 1)
            && t.unseen == s.unseen[1..] && t.woken == s.woken + [p]
            && t.done == s.done && t.written == s.written && t.inflight == s.inflight
  {
    hide Partition, QueueOk, RingsOk, DeviceOk;
    IntrSees(s);
  }

  lemma QueueShorter(s: State, t: State, p: nat)
    requires s.unseen != [] && p == s.unseen[0] && t.unseen == s.unseen[1..]
    requires t.unread == s.unread && t.fetched == s.fetched && t.closing == s.closing
    ensures multiset(Queue(s)) == multiset(Queue(t)) + multiset{p}
  {
    assert s.unseen == [p] + t.unseen;
  }

  lemma IntrQueue(s: State, t: State, p: nat)
    requires QueueOk(s) && s.unseen != [] && p == s.unseen[0] && Waits(s, p) && t.unseen == s.unseen[1..]
    requires t.unread == s.unread && t.fetched == s.fetched && t.closing == s.closing
        && t.clients == s.clients[p := s.clients[p].(disk := false)]
    ensures QueueOk(t)
  {
    QueueShorter(s, t, p);
    hide Queue;
    forall q: nat
      ensures multiset(Queue(t))[q] == if Waits(t, q) then 1 else 0
    {
      assert multiset(Queue(s))[q] == if Waits(s, q) then 1 else 0;
    }
  }

  lemma IntrUsed(s: State, t: State)
    requires UsedOk(s) && s.unseen != [] && |t.clients| == |s.clients|
        && (forall q: nat :: HeadOf(t, q) == HeadOf(s, q))
    requires t.elems == s.elems && t.usedId == s.usedId && t.usedSeen == Place(s.usedSeen + 1)
        && t.unseen == s.unseen[1..]
    ensures UsedOk(t)
  {
    NextSeen(s.usedSeen, |t.unseen|);
    hide Place, HeadOf;
    assert |s.unseen| == |t.unseen| + 1;
    forall i | 0 <= i < |t.unseen|
      ensures t.elems[Place(t.usedSeen + i)] == HeadOf(t, t.unseen[i])
    {
      NextSeen(s.usedSeen, i);
      assert t.unseen[i] == s.unseen[i + 1];
      assert s.elems[Place(s.usedSeen + (i + 1))] == HeadOf(s, s.unseen[i + 1]);
    }
  }

  lemma NextSeen(seen: nat, n: nat)
    ensures Place(Place(seen + 1) + n) == Place(seen + (n + 1))
  {
  }

  lemma IntrStep(s: State)
    requires Inv(s) && Can(s, IntrTurn)
    ensures Inv(Do(s, IntrTurn))
  {
    hide Partition, LockOk, QueueOk, Do, AvailOk, UsedOk, SameChains, SameWaits, DeviceOk;
    var t := Do(s, IntrTurn);
    IntrSame(s);
    var p := s.unseen[0];
    PartitionKept(s, t);
    IntrQueue(s, t, p);
    IntrUsed(s, t);
    IntrAvail(s, t, p);
    IntrDevice(s, t, p);
  }

  lemma IntrAvail(s: State, t: State, p: nat)
    requires AvailOk(s) && p < |s.clients| && t.clients == s.clients[p := s.clients[p].(disk := false)]
        && t.avail == s.avail && t.availIdx == s.availIdx && t.lastAvail == s.lastAvail && t.unread == s.unread
    ensures AvailOk(t)
  {
    hide Place;
    assert forall i :: 0 <= i < |s.unread| ==> HeadOf(t, s.unread[i]) == HeadOf(s, s.unread[i]);
  }

  lemma IntrDevice(s: State, t: State, p: nat)
    requires DeviceOk(s) && p < |s.clients| && t.clients == s.clients[p := s.clients[p].(disk := false)]
    requires s.unseen != [] && p == s.unseen[0] && t.unseen == s.unseen[1..] && t.woken == s.woken + [p]
        && t.done == s.done
    requires t.written == s.written && t.inflight == s.inflight && t.fetched == s.fetched && t.closing == s.closing
        && t.elems == s.elems && t.usedId == s.usedId
    ensures DeviceOk(t)
  {
    hide Place;
    assert s.woken + s.unseen == t.woken + t.unseen;
  }

  lemma StepKeepsInv(s: State, a: Action)
    requires Inv(s) && Can(s, a)
    ensures Inv(Do(s, a))
  {
    hide Inv, Do, Can;
    match a
    case Call(_) => QuietStep(s, a);
    case Lock(_) => QuietStep(s, a);
    case Alloc(p) => AllocStep(s, p);
    case Fill(p) => FillStep(s, p);
    case Slot(p) => SlotStep(s, p);
    case Index(p) => IndexStep(s, p);
    case Check(_) => QuietStep(s, a);
    case Clean(p) => CleanStep(s, p);
    case Unlock(_) => QuietStep(s, a);
    case Fetch => FetchStep(s);
    case Complete(i) => CompleteStep(s, i);
    case Bump => BumpStep(s);
    case IntrLock => QuietStep(s, a);
    case IntrTurn => IntrStep(s);
    case IntrUnlock => QuietStep(s, a);
  }

  predicate MovesRequests(a: Action) { a.Index? || a.Fetch? || a.Complete? || a.Bump? || a.IntrTurn? }

  lemma OthersMoveNone(s: State, a: Action)
    requires Shaped(s) && Can(s, a) && !MovesRequests(a)
    ensures var t := Do(s, a);
            t.posted == s.posted && t.woken == s.woken && t.unread == s.unread
            && t.fetched == s.fetched && t.closing == s.closing && t.unseen == s.unseen
  {
    hide Shaped, FreeChain, Alloc3;
  }

  lemma IndexConserves(s: State, p: nat)
    requires Inv(s) && Conserved(s) && Can(s, Index(p))
    ensures Conserved(Do(s, Index(p)))
  {
    hide Partition, LockOk, QueueOk, RingsOk, DeviceOk;
  }

  lemma StepConserves(s: State, a: Action)
    requires Inv(s) && Conserved(s) && Can(s, a)
    ensures Conserved(Do(s, a))
  {
    hide Partition, LockOk, QueueOk, RingsOk, DeviceOk, Queue, Shaped, Do;
    var t := Do(s, a);
    match a
    case Index(p) =>
      IndexConserves(s, p);
    case Fetch =>
      FetchSame(s);
      FetchQueue(s, t);
      KeepsPosted(s, a);
    case Complete(i) =>
      CompleteSame(s, i);
      CompleteQueue(s, t, i);
      KeepsPosted(s, a);
    case Bump =>
      BumpSame(s);
      BumpQueue(s, t);
      KeepsPosted(s, a);
    case IntrTurn =>
      IntrSame(s);
      IntrTakes(s, t, s.unseen[0]);
      KeepsPosted(s, a);
    case _ =>
      OthersMoveNone(s, a);
      assert Queue(t) == Queue(s) by { SameQueue(s, t); }
  }

  lemma KeepsPosted(s: State, a: Action)
    requires Shaped(s) && Can(s, a) && !a.Index?
    ensures Do(s, a).posted == s.posted && (a.Fetch? || a.Complete? || a.Bump? ==> Do(s, a).woken == s.woken)
  {
    hide Shaped, FreeChain, Alloc3;
  }

  lemma IntrTakes(s: State, t: State, p: nat)
    requires s.unseen != [] && p == s.unseen[0] && t.unseen == s.unseen[1..] && t.unread == s.unread
        && t.fetched == s.fetched && t.closing == s.closing
    ensures multiset(Queue(s)) == multiset(Queue(t)) + multiset{p}
  {
    assert s.unseen == [p] + t.unseen;
  }

  lemma SameQueue(s: State, t: State)
    requires t.unread == s.unread && t.fetched == s.fetched && t.closing == s.closing && t.unseen == s.unseen
    ensures Queue(t) == Queue(s)
  {
  }

  // ----- runs -----

  /** After virtio_disk_init: everything free, the rings empty. */
  ghost predicate Init(s: State) {
    && Shaped(s) && (forall p :: 0 <= p < |s.clients| ==> s.clients[p].pc.Idle?)
    && (forall i :: 0 <= i < NUM ==> s.free[i])
    && s.availIdx == s.lastAvail == s.usedId == s.usedSeen == 0 && s.holder == Nobody && s.inflight == []
    && s.written == None
    && s.unread == s.fetched == s.closing == s.unseen == s.done == s.woken == s.posted == []
  }

  lemma InitHolds(s: State)
    requires Init(s)
    ensures Inv(s) && Conserved(s)
  {
    assert Queue(s) == [];
  }

  ghost predicate Follows(s: State, t: State) { Shaped(s) && exists a :: Can(s, a) && t == Do(s, a) }

  ghost predicate IsRun(run: seq<State>) {
    run != [] && Init(run[0]) && forall i :: 0 < i < |run| ==> Follows(run[i - 1], run[i])
  }

  function Last(run: seq<State>): State
    requires run != []
  {
    run[|run| - 1]
  }

  lemma {:induction false} RunKeepsInv(run: seq<State>)
    requires IsRun(run)
    ensures Inv(Last(run)) && Conserved(Last(run))
  {
    hide Inv, Init, Can, Do, Conserved;
    if |run| == 1 {
      InitHolds(run[0]);
    } else {
      RunKeepsInv(run[..|run| - 1]);
      assert Follows(run[|run| - 2], run[|run| - 1]);
      var a :| Can(run[|run| - 2], a) && run[|run| - 1] == Do(run[|run| - 2], a);
      StepKeepsInv(run[|run| - 2], a);
      StepConserves(run[|run| - 2], a);
    }
  }

  /** At most two requests are outstanding, and every descriptor in use belongs to exactly one process. */
  lemma AtMostTwo(run: seq<State>, i: nat)
    requires IsRun(run) && i < NUM
    ensures var s := Last(run);
            && Shaped(s) && |s.unread| + |s.fetched| + |s.closing| + |s.unseen| <= 2
            && (s.free[i] <==> forall p :: !Uses(s, p, i))
            && (forall p: nat, q: nat :: Uses(s, p, i) && Uses(s, q, i) ==> p == q)
  {
    hide LockOk, RingsOk, DeviceOk, QueueOk, LinksOk, Init;
    RunKeepsInv(run);
    var s := Last(run);
    QueueSmall(s);
    forall p | Uses(s, p, i)
      ensures !s.free[i]
    {
      assert ChainOk(s, p);
    }
    forall p: nat, q: nat | Uses(s, p, i) && Uses(s, q, i)
      ensures p == q
    {
      PartitionAt(s, p, q);
    }
    if !s.free[i] {
      assert exists p :: Uses(s, p, i);
    }
  }

  /**
   The handler releases buffers in the order in which the device completed them, leaving none out and taking
   none twice: comparing the indices modulo 8 shows exactly whether one is left.
   */
  lemma CompletionsInOrder(run: seq<State>)
    requires IsRun(run)
    ensures var s := Last(run);
            && s.woken <= s.done && |s.done| - |s.woken| <= 2
            && (Place(s.usedSeen) != Place(s.usedId) <==> |s.woken| < |s.done|)
            && multiset(s.posted) == multiset(s.woken) + multiset(Queue(s))
  {
    RunKeepsInv(run);
    var s := Last(run);
    QueueSmall(s);
    IntrSees(s);
  }

  /** The handler finds a buffer at the element it reads, and it is the next one that the device completed. */
  lemma ReleasesItsOwn(run: seq<State>)
    requires IsRun(run) && var s := Last(run); s.holder.Interrupt? && Place(s.usedSeen) != Place(s.usedId)
    ensures Shaped(Last(run)) && Can(Last(run), IntrTurn)
    ensures var s, t := Last(run), Do(Last(run), IntrTurn);
            |s.woken| < |s.done|
            && t.woken == s.woken + [s.done[|s.woken|]]
  {
    hide Partition, LockOk, QueueOk, Init, AvailOk, DeviceOk, Queue;
    RunKeepsInv(run);
    var s := Last(run);
    IntrSees(s);
    assert s.done == s.woken + s.unseen by { SeenDone(s); }
    IntrSame(s);
  }

  lemma SeenDone(s: State)
    requires DeviceOk(s)
    ensures s.done == s.woken + s.unseen
  {
  }

  /** The device works on buffers of waiting processes only, each once, with the chain its process set up. */
  lemma DeviceOwnsBuffer(run: seq<State>, i: nat)
    requires IsRun(run) && i < |Last(run).inflight|
    ensures var s := Last(run);
            s.inflight[i].data.Data? && Waits(s, s.inflight[i].data.p)
                && s.inflight[i].head == s.clients[s.inflight[i].data.p].a
    ensures var s := Last(run); forall j :: 0 <= j < |s.inflight| && j != i ==> s.inflight[j].data != s.inflight[i].data
  {
    hide Partition, LockOk, Init, RingsOk, Waits, QueueOk;
    RunKeepsInv(run);
    var s := Last(run);
    QueueIn(s);
    QueueWaits(s);
    forall j | 0 <= j < |s.inflight| && j != i
      ensures s.inflight[j].data != s.inflight[i].data
    {
      assert Queue(s)[|s.unread| + j] == s.fetched[j] && Queue(s)[|s.unread| + i] == s.fetched[i];
    }
  }

  /** free_chain never panics. */
  lemma FreesOwnChain(run: seq<State>, p: nat)
    requires IsRun(run) && p < |Last(run).clients| && Last(run).clients[p].pc.Finish?
    ensures Shaped(Last(run)) && Can(Last(run), Clean(p))
  {
    hide LockOk, Init, RingsOk, QueueOk, DeviceOk, FreeChain;
    RunKeepsInv(run);
    var s := Last(run);
    PartitionAt(s, p, p);
    ThreeFreed(s.free, s.desc, s.clients[p]);
  }

  // ----- the descriptor loops -----

  class Descriptors {
    var free: seq<bool>
    var desc: seq<Desc>

    predicate Sized()
      reads this
    {
      |free| == |desc| == NUM
    }

    method AllocDesc() returns (i: int)
      requires Sized()
      modifies this`free
      ensures Sized()
      ensures var f := FirstFree(old(free), 0); if f < NUM then i == f && free == old(free)[f := false]
          else i == -1 && free == old(free)
    {
      FirstFreeIs(free, 0);
      i := 0;
      while i < NUM
        invariant 0 <= i <= FirstFree(old(free), 0) && free == old(free)
      {
        if free[i] {
          free := free[i := false];
          return;
        }
        i := i + 1;
      }
      i := -1;
    }

    /** free_desc; ok is false on a panic. */
    method FreeDesc(i: nat) returns (ok: bool)
      requires Sized()
      modifies this
      ensures Sized() && (ok <==> i < NUM && !old(free)[i])
      ensures ok ==> free == old(free)[i := true] && desc == old(desc)[i := Cleared(old(desc)[i])]
      ensures !ok ==> free == old(free) && desc == old(desc)
    {
      if i >= NUM || free[i] {
        return false;
      }
      desc := desc[i := desc[i].(addr := Nothing)];
      free := free[i := true];
      ok := true;
    }

    /** The loop of free_chain ends, on any links, because no descriptor is freed twice. */
    method FreeAll(first: nat) returns (ok: bool)
      requires Sized()
      modifies this
      ensures Sized() && (ok <==> FreeChain(old(free), old(desc), first).Some?)
      ensures ok ==> (free, desc) == FreeChain(old(free), old(desc), first).value
    {
      var i: nat := first;
      while true
        invariant Sized() && FreeChain(free, desc, i) == FreeChain(old(free), old(desc), first)
        decreases Used(free, NUM)
      {
        if i < NUM && !free[i] {
          UsedLess(free, i, NUM);
        }
        ok := FreeDesc(i);
        if !ok {
          return;
        }
        if desc[i].linked {
          i := desc[i].next;
        } else {
          return true;
        }
      }
    }

    /** alloc3_desc's inner loop: the one or two descriptors taken so far go back. */
    method GiveBack(idx: seq<nat>, ghost free0: seq<bool>, ghost desc0: seq<Desc>)
      requires Sized() && |idx| <= 2 && Undone(free0, desc0, idx, 0, free, desc)
      modifies this
      ensures Sized() && Undone(free0, desc0, idx, |idx|, free, desc)
    {
      var j := 0;
      while j < |idx|
        invariant Sized() && 0 <= j <= |idx| <= 2 && Undone(free0, desc0, idx, j, free, desc)
      {
        var freed := FreeDesc(idx[j]);
        j := j + 1;
      }
    }

    /** alloc3_desc takes three descriptors or none. */
    method AllocThree() returns (ok: bool, idx: seq<nat>)
      requires Sized()
      modifies this
      ensures Sized() && (ok <==> Alloc3(old(free)).Some?)
      ensures ok ==> |idx| == 3 && Alloc3(old(free)) == Some((idx[0], idx[1], idx[2])) && desc == old(desc)
                     && free == old(free)[idx[0] := false][idx[1] := false][idx[2] := false]
      ensures !ok ==> free == old(free) && forall k :: 0 <= k < NUM ==>
          desc[k] == if free[k] then Cleared(old(desc)[k]) else old(desc)[k]
    {
      idx := [];
      while |idx| < 3
        invariant Sized() && desc == old(desc) && |idx| <= 3 && Picked(old(free), idx, free)
        decreases 3 - |idx|
      {
        FirstFreeIs(free, 0);
        var i := AllocDesc();
        if i < 0 {
          assert forall k :: 0 <= k < NUM ==> !free[k];
          PickedNone(old(free), idx, free);
          GiveBack(idx, old(free), old(desc));
          return false, idx;
        }
        idx := idx + [i];
      }
      ok := true;
    }
  }

  /** idx are the first descriptors that alloc3_desc takes. */
  predicate Picked(free: seq<bool>, idx: seq<nat>, now: seq<bool>) {
    && |free| == NUM && |idx| <= 3
    && (|idx| == 0 ==> now == free)
    && (|idx| > 0 ==> idx[0] == FirstFree(free, 0) < NUM && (|idx| == 1 ==> now == free[idx[0] := false]))
    && (|idx| > 1 ==> idx[1] == FirstFree(free[idx[0] := false], 0) < NUM
                      && (|idx| == 2 ==> now == free[idx[0] := false][idx[1] := false]))
    && (|idx| > 2 ==> idx[2] == FirstFree(free[idx[0] := false][idx[1] := false], 0) < NUM
                      && now == free[idx[0] := false][idx[1] := false][idx[2] := false])
  }

  lemma PickedNone(free: seq<bool>, idx: seq<nat>, now: seq<bool>)
    requires Picked(free, idx, now) && |now| == NUM && |idx| < 3 && forall k :: 0 <= k < NUM ==> !now[k]
    ensures Alloc3(free).None? && (forall j :: 0 <= j < |idx| ==> idx[j] < NUM && free[idx[j]])
    ensures (|idx| == 2 ==> idx[0] != idx[1]) && forall k :: 0 <= k < NUM ==> (free[k] <==> k in idx)
  {
    FirstFreeIs(free, 0);
    FirstFreeIs(now, 0);
    if |idx| > 0 {
      FirstFreeIs(free[idx[0] := false], 0);
    }
  }

  /** The first j descriptors taken are given back. */
  predicate Undone(free: seq<bool>, desc: seq<Desc>, idx: seq<nat>, j: nat, now: seq<bool>, desc': seq<Desc>) {
    && |free| == |desc| == |now| == |desc'| == NUM && j <= |idx|
    && forall k :: 0 <= k < NUM ==> (now[k] <==> k in idx[..j]) && desc'[k] == if k in idx[..j] then Cleared(desc[k])
        else desc[k]
  }
}
