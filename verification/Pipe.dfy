/**
 Pipes (kernel/pipe.c): any number of reading and writing processes, the two closes and kill, interleaved
 one turn of a loop at a time. sleep gives the pipe's lock up and wakeup makes its sleepers want it again.
 */
module Pipes {
  import opened ByteSeq
  import opened Options

  /** untold: this writer has stored bytes since it last woke the readers. */
  datatype Pc =
    | Idle
    | WEnter(src: seq<byte>)
    | WLoop(src: seq<byte>, i: nat, untold: bool)
    | WAsleep(src: seq<byte>, i: nat)
    | WBack(src: seq<byte>, i: nat)      // woken; wants the lock
    | REnter(n: nat)
    | RTest(n: nat)
    | RAsleep(n: nat)
    | RBack(n: nat)
    | RCopy(n: nat, i: nat)
    | CEnter(writable: bool)
    | CHeld(writable: bool)

  datatype Proc = Proc(pc: Pc, killed: bool)

  /**
   wfd, rfd: whether a descriptor for that end still exists. stored and taken are all bytes that went in and
   came out; missed: a killed writer left bytes in the pipe without telling the readers, and since then nobody has told
   them and the pipe has not been empty.
   */
  datatype State = State(
    procs: seq<Proc>, holder: Option<nat>,
    data: seq<byte>, nread: nat, nwrite: nat, readopen: bool, writeopen: bool,
    wfd: bool, rfd: bool,
    stored: seq<byte>, taken: seq<byte>, missed: bool)

  /** Copy: the user copy of the turn works; otherwise it fails. */
  datatype Action =
    | CallWrite(p: nat, src: seq<byte>) | CallRead(p: nat, n: nat) | CallClose(p: nat, writable: bool)
    | Lock(p: nat) | Turn(p: nat, copies: bool) | Kill(p: nat)

  /** The counters are 32 bits wide and wrap. */
  function Inc(n: nat): nat { (n + 1) % 0x1_0000_0000 }

  /** nwrite - nread, as unsigned numbers. */
  function Count(s: State): int { (s.nwrite - s.nread) % 0x1_0000_0000 }

  predicate Full(s: State) { s.nwrite == (s.nread + 512) % 0x1_0000_0000 }

  predicate Empty(s: State) { s.nread == s.nwrite }

  /** A place in data. */
  function At(n: nat): (r: nat)
    ensures r < 512
  {
    n % 512
  }

  predicate Writing(pc: Pc) { pc.WEnter? || pc.WLoop? || pc.WAsleep? || pc.WBack? }

  predicate Reading(pc: Pc) { pc.REnter? || pc.RTest? || pc.RAsleep? || pc.RBack? || pc.RCopy? }

  predicate Held(pc: Pc) { pc.WLoop? || pc.RTest? || pc.RCopy? || pc.CHeld? }

  function Waking(x: Proc, readers: bool): Proc {
    match x.pc
    case WAsleep(src, i) => if readers then x else x.(pc := WBack(src, i))
    case RAsleep(n) => if readers then x.(pc := RBack(n)) else x
    case _ => x
  }

  /** The readers asleep, or the writers asleep, are woken. */
  function WakeAll(procs: seq<Proc>, readers: bool): (r: seq<Proc>)
    ensures |r| == |procs| && forall p {:trigger r[p]} :: 0 <= p < |procs| ==> r[p] == Waking(procs[p], readers)
  {
    seq(|procs|, p requires 0 <= p < |procs| => Waking(procs[p], readers))
  }

  predicate Can(s: State, a: Action) {
    match a
    case CallWrite(p, _) => p < |s.procs| && s.procs[p].pc.Idle? && s.wfd
    case CallRead(p, _) => p < |s.procs| && s.procs[p].pc.Idle? && s.rfd
    case CallClose(p, w) =>
      p < |s.procs| && s.procs[p].pc.Idle? && (if w then s.wfd else s.rfd)
      && forall q :: 0 <= q < |s.procs| ==> !(if w then Writing(s.procs[q].pc) else Reading(s.procs[q].pc))
    case Lock(p) => p < |s.procs| && s.holder.None?
        && (s.procs[p].pc.WEnter? || s.procs[p].pc.WBack? || s.procs[p].pc.REnter? || s.procs[p].pc.RBack?
        || s.procs[p].pc.CEnter?)
    case Turn(p, _) => p < |s.procs| && Held(s.procs[p].pc)
    case Kill(p) => p < |s.procs|
  }

  function Locked(pc: Pc): Pc {
    match pc
    case WEnter(src) => WLoop(src, 0, false)
    case WBack(src, i) => WLoop(src, i, false)
    case REnter(n) => RTest(n)
    case RBack(n) => RTest(n)
    case CEnter(w) => CHeld(w)
    case _ => pc
  }

  /** The writer's loop is at its end, or the user copy fails. */
  predicate WEnds(s: State, src: seq<byte>, i: nat, copies: bool) { i >= |src| || (!Full(s) && !copies) }

  predicate WGivesUp(s: State, x: Proc) { !s.readopen || x.killed }

  predicate Stores(s: State, pc: Pc, copies: bool) { pc.WLoop? && pc.i < |pc.src| && !Full(s) && copies }

  predicate Takes(s: State, pc: Pc) { pc.RCopy? && pc.i < pc.n && !Empty(s) }

  /** Where a turn leads. */
  function NextPc(s: State, x: Proc, copies: bool): Pc {
    match x.pc
    case WLoop(src, i, untold) =>
      if WEnds(s, src, i, copies) then Idle
      else if Full(s) then (if WGivesUp(s, x) then Idle else WAsleep(src, i))
      else WLoop(src, i + 1, true)
    case RTest(n) => if Empty(s) && s.writeopen then (if x.killed then Idle else RAsleep(n)) else RCopy(n, 0)
    case RCopy(n, i) => if i < n && !Empty(s) && copies then RCopy(n, i + 1) else Idle
    case _ => Idle
  }

  /** Whom a turn wakes: the readers, the writers or nobody. */
  function Wakes(s: State, x: Proc, copies: bool): Option<bool> {
    match x.pc
    case WLoop(src, i, _) =>
      if WEnds(s, src, i, copies) then Some(true)
      else if Full(s) then (if WGivesUp(s, x) then None else Some(true))
      else None
    case RTest(_) => None
    case RCopy(n, i) => if i < n && !Empty(s) && copies then None else Some(false)
    case CHeld(w) => Some(w)
    case _ => None
  }

  /** What a turn does to the pipe itself. */
  function Turned(s: State, x: Proc, copies: bool): State
    requires |s.data| == 512
  {
    var t :=
      if Stores(s, x.pc, copies) then
        s.(data := s.data[At(s.nwrite) := x.pc.src[x.pc.i]], nwrite := Inc(s.nwrite),
           stored := s.stored + [x.pc.src[x.pc.i]])
      else if Takes(s, x.pc) then s.(nread := Inc(s.nread), taken := s.taken + [s.data[At(s.nread)]])
      else if x.pc.CHeld? then s.(writeopen := s.writeopen && !x.pc.writable, readopen := s.readopen && x.pc.writable)
      else s;
    var pc, w := NextPc(s, x, copies), Wakes(s, x, copies);
    t.(missed := (s.missed || Strands(x, pc, w)) && w != Some(true) && t.nread != t.nwrite)
  }

  function Do(s: State, a: Action): State
    requires Can(s, a) && |s.data| == 512
  {
    var x := s.procs[a.p];
    match a
    case CallWrite(p, src) => s.(procs := s.procs[p := x.(pc := WEnter(src))])
    case CallRead(p, n) => s.(procs := s.procs[p := x.(pc := REnter(n))])
    case CallClose(p, w) => s.(procs := s.procs[p := x.(pc := CEnter(w))], wfd := s.wfd && !w, rfd := s.rfd && w)
    case Lock(p) => s.(procs := s.procs[p := x.(pc := Locked(x.pc))], holder := Some(p))
    case Kill(p) => s.(procs := s.procs[p := Waking(Waking(x, true), false).(killed := true)])
    case Turn(p, copies) =>
      var pc, w := NextPc(s, x, copies), Wakes(s, x, copies);
      Turned(s, x, copies).(procs := (if w.Some? then WakeAll(s.procs, w.value) else s.procs)[p := x.(pc := pc)],
          holder := if Held(pc) then Some(p) else None)
  }

  /** A killed writer leaves, and does not tell the readers about what it has stored. */
  predicate Strands(x: Proc, pc: Pc, w: Option<bool>) {
    x.pc.WLoop? && x.pc.untold && x.killed && pc.Idle? && w.None?
  }

  ghost predicate LockOk(s: State) {
    forall p :: 0 <= p < |s.procs| ==> (Held(s.procs[p].pc) <==> s.holder == Some(p))
  }

  function Contents(s: State): seq<byte> { if |s.taken| <= |s.stored| then s.stored[|s.taken|..] else [] }

  /** What is in the pipe is what went in and has not come out, in order. */
  ghost predicate RingOk(s: State) {
    && |s.data| == 512 && s.nread < 0x1_0000_0000 && s.nwrite < 0x1_0000_0000
    && s.taken <= s.stored && |Contents(s)| == Count(s) <= 512
    && Window(s.data, s.nread, Contents(s))
  }

  /** c lies in the ring from place n on. */
  ghost predicate Window(data: seq<byte>, n: nat, c: seq<byte>) {
    |data| == 512 && forall k :: 0 <= k < |c| ==> data[At(n + k)] == c[k]
  }

  lemma WindowPush(data: seq<byte>, n: nat, c: seq<byte>, b: byte)
    requires Window(data, n, c) && |c| < 512
    ensures Window(data[At(n + |c|) := b], n, c + [b])
  {
    hide At;
    var data' := data[At(n + |c|) := b];
    forall k | 0 <= k < |c| + 1
      ensures data'[At(n + k)] == (c + [b])[k]
    {
      if k < |c| {
        AtDiffer(n, k, |c|);
      }
    }
  }

  lemma WindowPop(data: seq<byte>, n: nat, c: seq<byte>)
    requires Window(data, n, c) && c != [] && n < 0x1_0000_0000
    ensures data[At(n)] == c[0] && Window(data, Inc(n), c[1..])
  {
    hide At, Inc;
    assert data[At(n + 0)] == c[0];
    forall k | 0 <= k < |c| - 1
      ensures data[At(Inc(n) + k)] == c[1..][k]
    {
      AtNext(n, k);
      assert data[At(n + (k + 1))] == c[k + 1];
    }
  }

  predicate HolderIs(s: State, q: nat, reader: bool) {
    s.holder == Some(q) && q < |s.procs| && if reader then s.procs[q].pc.RCopy?
        else s.procs[q].pc.WLoop? && s.procs[q].pc.untold
  }

  predicate SleepOk(s: State, p: nat)
    requires p < |s.procs|
  {
    && (s.procs[p].pc.WAsleep? ==> (Full(s) && s.readopen) || (s.holder.Some? && HolderIs(s, s.holder.value, true)))
    && (s.procs[p].pc.RAsleep? ==>
        s.writeopen && (Empty(s) || s.missed || (s.holder.Some? && HolderIs(s, s.holder.value, false))))
    && (Writing(s.procs[p].pc) ==> s.wfd) && (Reading(s.procs[p].pc) ==> s.rfd)
    && (s.procs[p].pc.CEnter? || s.procs[p].pc.CHeld? ==> if s.procs[p].pc.writable then !s.wfd else !s.rfd)
  }

  ghost predicate Inv(s: State) {
    && LockOk(s) && RingOk(s) && (s.wfd ==> s.writeopen) && (s.rfd ==> s.readopen) && (s.missed ==> !Empty(s))
    && forall p :: 0 <= p < |s.procs| ==> SleepOk(s, p)
  }

  lemma CountStored(s: State, t: State)
    requires s.nread < 0x1_0000_0000 && s.nwrite < 0x1_0000_0000 && t.nwrite == Inc(s.nwrite) && t.nread == s.nread
        && Count(s) < 512
    ensures Count(t) == Count(s) + 1
  {
  }

  lemma CountTaken(s: State, t: State)
    requires s.nread < 0x1_0000_0000 && s.nwrite < 0x1_0000_0000 && t.nread == Inc(s.nread) && t.nwrite == s.nwrite
        && Count(s) > 0
    ensures Count(t) == Count(s) - 1
  {
  }

  lemma CountIs(s: State)
    requires s.nread < 0x1_0000_0000 && s.nwrite < 0x1_0000_0000 && 0 <= Count(s) <= 512
    ensures Full(s) <==> Count(s) == 512
    ensures Empty(s) <==> Count(s) == 0
  {
  }

  lemma AtNext(n: nat, k: nat)
    requires n < 0x1_0000_0000
    ensures At(Inc(n) + k) == At(n + (k + 1))
  {
  }

  lemma AtCount(s: State)
    requires s.nread < 0x1_0000_0000 && s.nwrite < 0x1_0000_0000 && 0 <= Count(s) < 512
    ensures At(s.nwrite) == At(s.nread + Count(s))
  {
  }

  lemma AtDiffer(n: nat, k: nat, m: nat)
    requires k < m < k + 512
    ensures At(n + k) != At(n + m)
  {
  }

  // ----- steps -----

  /** Storing a byte. */
  lemma StoreRing(s: State, t: State, b: byte)
    requires RingOk(s) && !Full(s)
    requires t.data == s.data[At(s.nwrite) := b] && t.nwrite == Inc(s.nwrite) && t.nread == s.nread
        && t.stored == s.stored + [b] && t.taken == s.taken
    ensures RingOk(t)
  {
    CountIs(s);
    CountStored(s, t);
    AtCount(s);
    hide At, Full, Count, Window, Inc;
    WindowPush(s.data, s.nread, Contents(s), b);
    assert Contents(t) == Contents(s) + [b];
    IncBound(s.nwrite);
  }

  lemma IncBound(n: nat)
    ensures Inc(n) < 0x1_0000_0000
  {
  }

  /** Taking a byte: it is the oldest one there. */
  lemma TakeRing(s: State, t: State)
    requires RingOk(s) && !Empty(s)
    requires t.data == s.data && t.nread == Inc(s.nread) && t.nwrite == s.nwrite && t.stored == s.stored
        && t.taken == s.taken + [s.data[At(s.nread)]]
    ensures RingOk(t)
  {
    CountIs(s);
    CountTaken(s, t);
    hide At, Empty, Count, Window, Inc;
    WindowPop(s.data, s.nread, Contents(s));
    assert Contents(s)[0] == s.stored[|s.taken|];
    assert Contents(t) == Contents(s)[1..];
    IncBound(s.nread);
  }

  predicate SameRing(s: State, t: State) {
    t.data == s.data && t.nread == s.nread && t.nwrite == s.nwrite && t.stored == s.stored && t.taken == s.taken
  }

  lemma RingKept(s: State, t: State)
    requires RingOk(s) && SameRing(s, t)
    ensures RingOk(t)
  {
    hide Window;
  }

  lemma RingSize(s: State)
    requires RingOk(s)
    ensures |s.data| == 512
  {
  }

  lemma StepRing(s: State, a: Action)
    requires RingOk(s) && |s.data| == 512 && Can(s, a)
    ensures RingOk(Do(s, a))
  {
    hide RingOk, Count, At, Full, Empty, NextPc, Wakes, WakeAll, Held, Inc;
    var t := Do(s, a);
    var x := s.procs[a.p];
    if a.Turn? && Stores(s, x.pc, a.copies) {
      StoreRing(s, t, x.pc.src[x.pc.i]);
    } else if a.Turn? && Takes(s, x.pc) {
      TakeRing(s, t);
    } else {
      RingKept(s, t);
    }
  }

  /** What a step makes of a process that does not take it. */
  lemma StepOther(s: State, a: Action, r: nat)
    requires |s.data| == 512 && Can(s, a) && r < |s.procs| && r != a.p
    ensures var x, y := s.procs[r], Do(s, a).procs[r];
            && |Do(s, a).procs| == |s.procs| && y.killed == x.killed
            && y == (if a.Turn? && Wakes(s, s.procs[a.p], a.copies).Some?
                then Waking(x, Wakes(s, s.procs[a.p], a.copies).value) else x)
  {
    hide Turned, Full, Empty, At, NextPc, Wakes, Held, Stores, Takes;
  }

  function SelfPc(s: State, a: Action): Pc
    requires Can(s, a)
  {
    match a
    case CallWrite(_, src) => WEnter(src)
    case CallRead(_, n) => REnter(n)
    case CallClose(_, w) => CEnter(w)
    case Lock(p) => Locked(s.procs[p].pc)
    case Kill(p) => Waking(Waking(s.procs[p], true), false).pc
    case Turn(p, copies) => NextPc(s, s.procs[p], copies)
  }

  lemma StepSelf(s: State, a: Action)
    requires |s.data| == 512 && Can(s, a)
    ensures |Do(s, a).procs| == |s.procs| && Do(s, a).procs[a.p].pc == SelfPc(s, a)
    ensures a.Turn? || a.Lock? ==> Do(s, a).holder == if Held(SelfPc(s, a)) then Some(a.p) else None
    ensures !a.Turn? && !a.Lock? ==> Do(s, a).holder == s.holder
  {
    hide Turned, Full, Empty, At, NextPc, Wakes, Held, Stores, Takes, Waking, Locked;
    if a.Lock? {
      LockedHeld(s.procs[a.p].pc);
    }
  }

  lemma LockedHeld(pc: Pc)
    ensures pc.WEnter? || pc.WBack? || pc.REnter? || pc.RBack? || pc.CEnter? ==> Held(Locked(pc))
  {
  }

  lemma WakingHeld(x: Proc, readers: bool)
    ensures Held(Waking(x, readers).pc) == Held(x.pc)
    ensures Writing(Waking(x, readers).pc) == Writing(x.pc) && Reading(Waking(x, readers).pc) == Reading(x.pc)
    ensures Waking(x, readers).pc.WAsleep? <==> x.pc.WAsleep? && readers
    ensures Waking(x, readers).pc.RAsleep? <==> x.pc.RAsleep? && !readers
    ensures !x.pc.WAsleep? && !x.pc.RAsleep? ==> Waking(x, readers) == x
  {
  }

  lemma StepLock(s: State, a: Action)
    requires LockOk(s) && |s.data| == 512 && Can(s, a)
    ensures LockOk(Do(s, a))
  {
    hide Full, Empty, At, NextPc, Wakes, Stores, Takes, Do, Waking;
    var t := Do(s, a);
    StepSelf(s, a);
    WakingHeld(s.procs[a.p], true);
    WakingHeld(Waking(s.procs[a.p], true), false);
    forall r | 0 <= r < |t.procs|
      ensures Held(t.procs[r].pc) <==> t.holder == Some(r)
    {
      if r != a.p {
        StepOther(s, a, r);
        WakingHeld(s.procs[r], true);
        WakingHeld(s.procs[r], false);
      }
    }
  }

  /** How a step changes what the sleepers wait for. */
  lemma StepShared(s: State, a: Action)
    requires |s.data| == 512 && Can(s, a)
    ensures var t, x := Do(s, a), s.procs[a.p];
            && (!(a.Turn? && Stores(s, x.pc, a.copies)) ==> t.nwrite == s.nwrite)
            && (!(a.Turn? && Takes(s, x.pc)) ==> t.nread == s.nread)
            && (a.Turn? && Stores(s, x.pc, a.copies) ==> t.nread == s.nread)
            && t.readopen == (s.readopen && !(a.Turn? && x.pc.CHeld? && !x.pc.writable))
            && t.writeopen == (s.writeopen && !(a.Turn? && x.pc.CHeld? && x.pc.writable))
            && t.missed == (if a.Turn? then (s.missed || Strands(x, NextPc(s, x, a.copies), Wakes(s, x, a.copies)))
                && Wakes(s, x, a.copies) != Some(true) && t.nread != t.nwrite else s.missed)
            && t.wfd == (s.wfd && !(a.CallClose? && a.writable)) && t.rfd == (s.rfd && !(a.CallClose? && !a.writable))
  {
    hide Full, Empty, At, Wakes, Held, WakeAll, Waking, Inc;
  }

  /** A turn of the writer or of the reader that leaves something changed untold keeps the lock. */
  lemma TurnTells(s: State, x: Proc, copies: bool)
    requires Held(x.pc)
    ensures var pc, w := NextPc(s, x, copies), Wakes(s, x, copies);
            && (Stores(s, x.pc, copies) ==> pc.WLoop? && pc.untold)
            && (Takes(s, x.pc) ==> pc.RCopy? || w == Some(false))
            && (x.pc.RCopy? ==> pc.RCopy? || w == Some(false))
            && (x.pc.WLoop? && x.pc.untold ==>
                (pc.WLoop? && pc.untold) || w == Some(true) || Strands(x, pc, w) || !s.readopen)
            && (pc.WAsleep? ==> Full(s) && s.readopen && !Stores(s, x.pc, copies) && w == Some(true))
            && (pc.RAsleep? ==> Empty(s) && s.writeopen && w.None?)
            && (x.pc.CHeld? ==> w == Some(x.pc.writable))
            && (Writing(pc) ==> Writing(x.pc)) && (Reading(pc) ==> Reading(x.pc))
  {
  }

  lemma SelfSides(s: State, a: Action)
    requires Can(s, a)
    ensures a.Lock? || a.Kill? ==> Writing(SelfPc(s, a)) == Writing(s.procs[a.p].pc)
                                   && Reading(SelfPc(s, a)) == Reading(s.procs[a.p].pc)
    ensures !a.Turn? ==> !SelfPc(s, a).WAsleep? && !SelfPc(s, a).RAsleep?
    ensures a.Kill? ==> (Held(s.procs[a.p].pc) ==> SelfPc(s, a) == s.procs[a.p].pc)
  {
  }

  /** The process with the lock is still there with it, unless it takes the step. */
  lemma HolderKept(s: State, a: Action, reader: bool)
    requires LockOk(s) && |s.data| == 512 && Can(s, a) && s.holder.Some? && HolderIs(s, s.holder.value, reader)
        && !(a.Turn? && a.p == s.holder.value)
    ensures Do(s, a).holder == s.holder && HolderIs(Do(s, a), s.holder.value, reader)
  {
    hide Full, Empty, At, NextPc, Wakes, Stores, Takes, Do, Waking, Locked;
    var q := s.holder.value;
    StepSelf(s, a);
    SelfSides(s, a);
    if a.p != q {
      StepOther(s, a, q);
      WakingHeld(s.procs[q], true);
      WakingHeld(s.procs[q], false);
      assert Held(s.procs[a.p].pc) ==> s.holder == Some(a.p);
    } else {
      assert Held(s.procs[q].pc);
    }
  }

  /** A writer asleep is due no wakeup: the pipe is full, or the reader at work will wake it. */
  lemma WriterAsleep(s: State, a: Action, r: nat)
    requires Inv(s) && Can(s, a) && r < |s.procs| && Do(s, a).procs[r].pc.WAsleep?
    ensures var t := Do(s, a); (Full(t) && t.readopen) || (t.holder.Some? && HolderIs(t, t.holder.value, true))
  {
    hide RingOk, At, NextPc, Wakes, Stores, Takes, Do, Waking, Locked, Held;
    RingSize(s);
    var t, x := Do(s, a), s.procs[a.p];
    StepSelf(s, a);
    StepShared(s, a);
    SelfSides(s, a);
    if a.Turn? {
      TurnTells(s, x, a.copies);
    }
    if r != a.p {
      StepOther(s, a, r);
      WakingHeld(s.procs[r], true);
      WakingHeld(s.procs[r], false);
      assert SleepOk(s, r);
      if s.holder.Some? && HolderIs(s, s.holder.value, true) && !(a.Turn? && a.p == s.holder.value) {
        HolderKept(s, a, true);
      }
      StoresOnly(s, x.pc, a.Turn? && a.copies);
      CopyHeld(t, a.p);
    }
  }

  lemma StoresOnly(s: State, pc: Pc, copies: bool)
    ensures Stores(s, pc, copies) ==> !Full(s)
    ensures Takes(s, pc) ==> pc.RCopy? && !Empty(s)
  {
  }

  lemma CopyHeld(t: State, p: nat)
    ensures p < |t.procs| && (t.procs[p].pc.RCopy? || t.procs[p].pc.WLoop?) ==> Held(t.procs[p].pc)
  {
  }

  /** A reader asleep is due no wakeup, unless a writer gave up without telling. */
  lemma ReaderAsleep(s: State, a: Action, r: nat)
    requires Inv(s) && Can(s, a) && r < |s.procs| && Do(s, a).procs[r].pc.RAsleep?
    ensures var t := Do(s, a);
            t.writeopen && (Empty(t) || t.missed || (t.holder.Some? && HolderIs(t, t.holder.value, false)))
  {
    hide RingOk, At, NextPc, Wakes, Stores, Takes, Do, Waking, Locked, Held;
    RingSize(s);
    var t, x := Do(s, a), s.procs[a.p];
    StepSelf(s, a);
    StepShared(s, a);
    SelfSides(s, a);
    if a.Turn? {
      TurnTells(s, x, a.copies);
    }
    StoresOnly(s, x.pc, a.Turn? && a.copies);
    CopyHeld(t, a.p);
    if r != a.p {
      StepOther(s, a, r);
      WakingHeld(s.procs[r], true);
      WakingHeld(s.procs[r], false);
      assert SleepOk(s, r);
      if s.holder.Some? && HolderIs(s, s.holder.value, false) && !(a.Turn? && a.p == s.holder.value) {
        HolderKept(s, a, false);
      }
    }
  }

  lemma StepSides(s: State, a: Action, r: nat)
    requires Inv(s) && Can(s, a) && r < |s.procs|
    ensures var t := Do(s, a);
            (Writing(t.procs[r].pc) ==> t.wfd) && (Reading(t.procs[r].pc) ==> t.rfd)
            && (t.wfd ==> t.writeopen) && (t.rfd ==> t.readopen)
  {
    hide RingOk, At, NextPc, Wakes, Stores, Takes, Do, Waking, Locked, Held, LockOk;
    RingSize(s);
    StepSelf(s, a);
    StepShared(s, a);
    SelfSides(s, a);
    assert SleepOk(s, r) && SleepOk(s, a.p);
    if a.Turn? {
      TurnTells(s, s.procs[a.p], a.copies);
    }
    if r != a.p {
      StepOther(s, a, r);
      WakingHeld(s.procs[r], true);
      WakingHeld(s.procs[r], false);
    }
    CloseAlone(s, a.p);
  }

  /** pipeclose of an end comes after the last descriptor for it. */
  lemma CloseAlone(s: State, p: nat)
    requires Inv(s) && p < |s.procs|
    ensures s.procs[p].pc.CHeld? ==> if s.procs[p].pc.writable then !s.wfd else !s.rfd
  {
    assert SleepOk(s, p);
  }

  lemma ClosesSides(s: State, a: Action)
    requires Can(s, a)
    ensures var pc := SelfPc(s, a); pc.CEnter? || pc.CHeld? ==>
        (a.CallClose? && pc.writable == a.writable)
        || ((s.procs[a.p].pc.CEnter? || s.procs[a.p].pc.CHeld?) && pc.writable == s.procs[a.p].pc.writable)
  {
  }

  lemma WakingCloses(x: Proc, readers: bool)
    ensures Waking(x, readers).pc.CEnter? || Waking(x, readers).pc.CHeld? ==> Waking(x, readers) == x
  {
  }

  lemma StepCloses(s: State, a: Action, r: nat)
    requires Inv(s) && Can(s, a) && r < |s.procs|
    ensures var t := Do(s, a); t.procs[r].pc.CEnter? || t.procs[r].pc.CHeld? ==>
        if t.procs[r].pc.writable then !t.wfd else !t.rfd
  {
    hide RingOk, At, NextPc, Wakes, Stores, Takes, Do, Waking, Locked, Held, LockOk, SelfPc;
    RingSize(s);
    StepSelf(s, a);
    StepShared(s, a);
    ClosesSides(s, a);
    assert SleepOk(s, r) && SleepOk(s, a.p);
    if r != a.p {
      StepOther(s, a, r);
      WakingCloses(s.procs[r], true);
      WakingCloses(s.procs[r], false);
    }
  }

  lemma StepKeepsInv(s: State, a: Action)
    requires Inv(s) && Can(s, a)
    ensures |s.data| == 512 && Inv(Do(s, a))
  {
    hide RingOk, LockOk, Do, Can, Writing, Reading, Full, Empty, HolderIs;
    RingSize(s);
    StepRing(s, a);
    StepLock(s, a);
    StepLength(s, a);
    FirstSides(s, a);
    forall r | 0 <= r < |Do(s, a).procs|
      ensures SleepOk(Do(s, a), r)
    {
      if Do(s, a).procs[r].pc.WAsleep? {
        WriterAsleep(s, a, r);
      }
      if Do(s, a).procs[r].pc.RAsleep? {
        ReaderAsleep(s, a, r);
      }
      StepSides(s, a, r);
      StepCloses(s, a, r);
    }
  }

  lemma StepLength(s: State, a: Action)
    requires |s.data| == 512 && Can(s, a)
    ensures |Do(s, a).procs| == |s.procs| > a.p
  {
    hide Do, NextPc, Wakes, Stores, Takes, At;
    StepSelf(s, a);
  }

  lemma FirstSides(s: State, a: Action)
    requires Inv(s) && Can(s, a)
    ensures |s.data| == 512 && (Do(s, a).wfd ==> Do(s, a).writeopen) && (Do(s, a).rfd ==> Do(s, a).readopen)
    ensures Do(s, a).missed ==> !Empty(Do(s, a))
  {
    hide RingOk, Do, Can;
    RingSize(s);
    StepLength(s, a);
    StepSides(s, a, a.p);
    StepShared(s, a);
  }

  // ----- runs -----

  /** pipealloc. */
  ghost predicate Init(s: State) {
    && (forall p :: 0 <= p < |s.procs| ==> s.procs[p].pc.Idle?) && s.holder.None?
    && |s.data| == 512 && s.nread == s.nwrite == 0 && s.readopen && s.writeopen && s.wfd && s.rfd
    && s.stored == s.taken == [] && !s.missed
  }

  lemma InitHolds(s: State)
    requires Init(s)
    ensures Inv(s)
  {
  }

  ghost predicate Follows(s: State, t: State) { |s.data| == 512 && exists a :: Can(s, a) && t == Do(s, a) }

  ghost predicate IsRun(run: seq<State>) {
    run != [] && Init(run[0]) && forall i :: 0 < i < |run| ==> Follows(run[i - 1], run[i])
  }

  function Last(run: seq<State>): State
    requires run != []
  {
    run[|run| - 1]
  }

  lemma {:induction false} RunKeepsInv(run: seq<State>)
    requires IsRun(run)
    ensures Inv(Last(run))
  {
    hide Inv, Init, Can, Do;
    if |run| == 1 {
      InitHolds(run[0]);
    } else {
      RunKeepsInv(run[..|run| - 1]);
      assert Follows(run[|run| - 2], run[|run| - 1]);
      var a :| Can(run[|run| - 2], a) && run[|run| - 1] == Do(run[|run| - 2], a);
      StepKeepsInv(run[|run| - 2], a);
    }
  }

  /** First in, first out, whoever reads and writes, and never more than 512 bytes in between. */
  lemma Fifo(run: seq<State>)
    requires IsRun(run)
    ensures var s := Last(run); s.taken <= s.stored && |s.stored| - |s.taken| == Count(s) <= 512
  {
    hide LockOk, SleepOk, Init;
    RunKeepsInv(run);
  }

  /** With the lock free, a writer sleeps only while the pipe is full and somebody may read it. */
  lemma WriterWaitsForRoom(run: seq<State>, p: nat)
    requires IsRun(run) && p < |Last(run).procs| && Last(run).procs[p].pc.WAsleep? && Last(run).holder.None?
    ensures Full(Last(run)) && Last(run).readopen
  {
    hide LockOk, RingOk, Init;
    RunKeepsInv(run);
    assert SleepOk(Last(run), p);
  }

  /**
   With the lock free, a reader sleeps only while somebody may write to the pipe, and sleeps in front of bytes exactly
   if a killed writer left them there without telling, and since then nobody has told the readers and the pipe has not
   been empty.
   */
  lemma ReaderWaitsForBytes(run: seq<State>, p: nat)
    requires IsRun(run) && p < |Last(run).procs| && Last(run).procs[p].pc.RAsleep? && Last(run).holder.None?
    ensures Last(run).writeopen && (Empty(Last(run)) <==> !Last(run).missed)
  {
    hide LockOk, RingOk, Init;
    RunKeepsInv(run);
    assert SleepOk(Last(run), p);
  }

  /** When both ends are closed, and the pipe's page is freed, nobody is inside. */
  lemma FreedUnused(run: seq<State>, p: nat)
    requires IsRun(run) && p < |Last(run).procs| && !Last(run).readopen && !Last(run).writeopen
    ensures !Writing(Last(run).procs[p].pc) && !Reading(Last(run).procs[p].pc)
  {
    hide LockOk, RingOk, Init;
    RunKeepsInv(run);
    assert SleepOk(Last(run), p);
  }

  lemma RunMore(run: seq<State>, a: Action) returns (more: seq<State>)
    requires IsRun(run) && |Last(run).data| == 512 && Can(Last(run), a)
    ensures IsRun(more) && Last(more) == Do(Last(run), a)
  {
    hide Init, Can, Do;
    more := run + [Do(Last(run), a)];
    assert Follows(Last(run), Do(Last(run), a));
    assert forall i :: 0 <= i < |run| ==> more[i] == run[i];
  }

  /** A reader asleep, and a writer that has put i bytes into the pipe since. */
  function Filling(src: seq<byte>, i: nat): State
    requires i <= 512 <= |src|
  {
    State([Proc(RAsleep(1), false), Proc(WLoop(src, i, i > 0), false)], Some(1), src[..i] + seq(512 - i, j => 0), 0, i,
        true, true, true, true, src[..i], [], false)
  }

  lemma Asleep(src: seq<byte>) returns (run: seq<State>)
    requires |src| > 512
    ensures IsRun(run) && Last(run) == Filling(src, 0)
  {
    var idle := Proc(Idle, false);
    var s := State([idle, idle], None, seq(512, j => 0), 0, 0, true, true, true, true, [], [], false);
    run := [s];
    run := RunMore(run, CallRead(0, 1));
    run := RunMore(run, Lock(0));
    run := RunMore(run, Turn(0, true));
    run := RunMore(run, CallWrite(1, src));
    run := RunMore(run, Lock(1));
    assert Last(run).procs == Filling(src, 0).procs;
    assert Last(run).data == Filling(src, 0).data;
  }

  lemma FillTurn(src: seq<byte>, i: nat)
    requires i < 512 < |src|
    ensures |Filling(src, i).data| == 512 && Can(Filling(src, i), Turn(1, true))
    ensures Do(Filling(src, i), Turn(1, true)) == Filling(src, i + 1)
  {
    var s, t := Filling(src, i), Do(Filling(src, i), Turn(1, true));
    assert !Full(s) && !Empty(t);
    assert t.data == Filling(src, i + 1).data;
    assert t.stored == Filling(src, i + 1).stored;
    assert t.procs == Filling(src, i + 1).procs;
  }

  lemma {:induction false} Filled(src: seq<byte>, i: nat) returns (run: seq<State>)
    requires i <= 512 < |src|
    ensures IsRun(run) && Last(run) == Filling(src, i)
    decreases i
  {
    hide Do, Can, IsRun, Filling;
    if i == 0 {
      run := Asleep(src);
    } else {
      run := Filled(src, i - 1);
      FillTurn(src, i - 1);
      run := RunMore(run, Turn(1, true));
    }
  }

  /**
   A run that strands a reader: it falls asleep in front of an empty pipe, a writer of more than 512 bytes fills the
   pipe, is killed, and leaves without waking it. The reader sleeps on in front of 512 bytes.
   */
  lemma KilledWriterTellsNobody(src: seq<byte>) returns (run: seq<State>)
    requires |src| > 512
    ensures IsRun(run)
    ensures var t := Last(run); |t.procs| == 2 && t.procs[0].pc == RAsleep(1) && t.procs[1].pc.Idle? && t.holder.None?
                                && t.stored == src[..512] && t.taken == [] && t.missed
  {
    run := Filled(src, 512);
    var s := Last(run);
    run := RunMore(run, Kill(1));
    assert Last(run).procs == [Proc(RAsleep(1), false), Proc(WLoop(src, 512, true), true)];
    assert Full(Last(run));
    run := RunMore(run, Turn(1, true));
    assert Last(run).procs == [Proc(RAsleep(1), false), Proc(Idle, true)];
  }
}
