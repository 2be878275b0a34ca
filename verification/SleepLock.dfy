/**
 Sleeping locks over sleep and wakeup (kernel/sleeplock.c, kernel/proc.c), as a machine that interleaves
 the processes one lock operation at a time. Any number of processes, any number of sleep locks.
 */
module SleepLocks {
  import opened Options

  datatype RunState = Running | Runnable | Sleeping

  /** What a process sleeps on: a sleep lock, or something else in the kernel. */
  datatype Chan = NoChan | OnLock(l: nat) | Elsewhere

  /** Where a process is: the next thing it does. */
  datatype Pc =
    | Out                    // outside these routines
    | Acq(l: nat)            // acquiresleep wants the inner spinlock
    | Check(l: nat)          // is the lock taken?
    | Take(l: nat)           // the lock is taken
    | TakeRel(l: nat)        // the inner spinlock is released
    | SlpLock(l: nat)        // sleep wants its own process lock
    | SlpRel(l: nat)         // sleep releases the inner spinlock
    | OtherLock              // sleep on something else wants its own process lock
    | SlpSet(c: Chan)        // sleep records the channel and the state
    | Sched(c: Chan)         // sched switches to the scheduler, which releases the process lock
    | Asleep(c: Chan)        // off the CPU until the scheduler finds it RUNNABLE
    | Woken(c: Chan)         // back on a CPU with the process lock held
    | WokenRel(c: Chan)      // sleep releases its own process lock
    | Reacq(l: nat)          // sleep wants the inner spinlock back
    | Rel(l: nat)            // releasesleep wants the inner spinlock
    | Clear(l: nat)          // the lock is given up
    | Wake(l: nat, i: nat)   // wakeup wants the lock of process i
    | WakeAt(l: nat, i: nat) // a sleeper on this lock becomes runnable; the process lock is released
    | WakeRel(l: nat)        // the inner spinlock is released
    | Rouse(q: nat)          // kill or another wakeup wants q's lock
    | RouseAt(q: nat)        // a sleeper becomes runnable; the process lock is released

  /** held: the locks for which acquiresleep has returned and releasesleep has not been called. */
  datatype Proc = Proc(state: RunState, chan: Chan, lock: Option<nat>, pc: Pc, held: set<nat>)

  datatype Slk = Slk(spin: Option<nat>, locked: bool, pid: Option<nat>)

  datatype State = State(procs: seq<Proc>, locks: seq<Slk>)

  /** What a process outside these routines starts to do; Go is the next step of one already inside. */
  datatype Event = Go | CallAcquire(l: nat) | CallRelease(l: nat) | CallSleep | CallRouse(q: nat)

  function Put(s: State, p: nat, x: Proc): State
    requires p < |s.procs|
  {
    s.(procs := s.procs[p := x])
  }

  function PutLock(s: State, l: nat, x: Slk): State
    requires l < |s.locks|
  {
    s.(locks := s.locks[l := x])
  }

  function Pcs(s: State, p: nat, pc: Pc): State
    requires p < |s.procs|
  {
    Put(s, p, s.procs[p].(pc := pc))
  }

  /** The process may take this step now: the spinlock it wants is free, and indices exist. */
  predicate Enabled(s: State, p: nat, e: Event) {
    p < |s.procs| &&
    match s.procs[p].pc
    case Out => (match e
                 case Go => false
                 case CallAcquire(l) => l < |s.locks|
                 case CallRelease(l) => l in s.procs[p].held
                 case CallSleep => true
                 case CallRouse(q) => q < |s.procs|)
    case Acq(l) => e.Go? && l < |s.locks| && s.locks[l].spin.None?
    case Reacq(l) => e.Go? && l < |s.locks| && s.locks[l].spin.None?
    case Rel(l) => e.Go? && l < |s.locks| && s.locks[l].spin.None?
    case SlpLock(_) => e.Go? && s.procs[p].lock.None?
    case OtherLock => e.Go? && s.procs[p].lock.None?
    case Asleep(_) => e.Go? && s.procs[p].lock.None? && s.procs[p].state.Runnable?
    case Wake(_, i) => e.Go? && (i < |s.procs| ==> s.procs[i].lock.None?)
    case Rouse(q) => e.Go? && q < |s.procs| && s.procs[q].lock.None?
    case _ => e.Go?
  }

  /** Where sleep continues once it has given p->lock back. */
  function AfterSleep(c: Chan): Pc { if c.OnLock? then Reacq(c.l) else Out }

  /** One lock-level step. */
  function Step(s: State, p: nat, e: Event): (t: State)
    requires Indexed(s) && Enabled(s, p, e)
    ensures |t.procs| == |s.procs| && |t.locks| == |s.locks|
  {
    var me := s.procs[p];
    match me.pc
    case Out => (match e
                 case CallAcquire(l) => Pcs(s, p, Acq(l))
                 case CallRelease(l) => Put(s, p, me.(pc := Rel(l), held := me.held - {l}))
                 case CallSleep => Pcs(s, p, OtherLock)
                 case CallRouse(q) => Pcs(s, p, Rouse(q))
                 case Go => s)
    case Acq(l) => PutLock(Pcs(s, p, Check(l)), l, s.locks[l].(spin := Some(p)))
    case Check(l) => Pcs(s, p, if s.locks[l].locked then SlpLock(l) else Take(l))
    case Take(l) => PutLock(Pcs(s, p, TakeRel(l)), l, s.locks[l].(locked := true, pid := Some(p)))
    case TakeRel(l) => PutLock(Put(s, p, me.(pc := Out, held := me.held + {l})), l, s.locks[l].(spin := None))
    case SlpLock(l) => Put(s, p, me.(pc := SlpRel(l), lock := Some(p)))
    case SlpRel(l) => PutLock(Pcs(s, p, SlpSet(OnLock(l))), l, s.locks[l].(spin := None))
    case OtherLock => Put(s, p, me.(pc := SlpSet(Elsewhere), lock := Some(p)))
    case SlpSet(c) => Put(s, p, me.(pc := Sched(c), chan := c, state := Sleeping))
    case Sched(c) => Put(s, p, me.(pc := Asleep(c), lock := None))
    case Asleep(c) => Put(s, p, me.(pc := Woken(c), lock := Some(p), state := Running))
    case Woken(c) => Put(s, p, me.(pc := WokenRel(c), chan := NoChan))
    case WokenRel(c) => Put(s, p, me.(pc := AfterSleep(c), lock := None))
    case Reacq(l) => PutLock(Pcs(s, p, Check(l)), l, s.locks[l].(spin := Some(p)))
    case Rel(l) => PutLock(Pcs(s, p, Clear(l)), l, s.locks[l].(spin := Some(p)))
    case Clear(l) => PutLock(Pcs(s, p, Wake(l, 0)), l, s.locks[l].(locked := false, pid := None))
    case Wake(l, i) =>
      if i < |s.procs| then
        var t := Pcs(s, p, WakeAt(l, i));
        Put(t, i, t.procs[i].(lock := Some(p)))
      else Pcs(s, p, WakeRel(l))
    case WakeAt(l, i) =>
      var t := Pcs(s, p, Wake(l, i + 1));
      Put(t, i, t.procs[i].(lock := None,
        state := if t.procs[i].state.Sleeping? && t.procs[i].chan == OnLock(l) then Runnable else t.procs[i].state))
    case WakeRel(l) => PutLock(Pcs(s, p, Out), l, s.locks[l].(spin := None))
    case Rouse(q) =>
      var t := Pcs(s, p, RouseAt(q));
      Put(t, q, t.procs[q].(lock := Some(p)))
    case RouseAt(q) =>
      var t := Pcs(s, p, Out);
      Put(t, q, t.procs[q].(lock := None, state := if t.procs[q].state.Sleeping? then Runnable else t.procs[q].state))
  }

  /** The lock and process numbers inside program counters exist. */
  predicate Indexed(s: State) {
    forall p :: 0 <= p < |s.procs| ==>
        PcIndexed(s.procs[p].pc, |s.procs|, |s.locks|) && forall l :: l in s.procs[p].held ==> l < |s.locks|
  }

  predicate PcIndexed(pc: Pc, np: nat, nl: nat) {
    match pc
    case Out => true
    case OtherLock => true
    case Acq(l) => l < nl
    case Check(l) => l < nl
    case Take(l) => l < nl
    case TakeRel(l) => l < nl
    case SlpLock(l) => l < nl
    case SlpRel(l) => l < nl
    case Reacq(l) => l < nl
    case Rel(l) => l < nl
    case Clear(l) => l < nl
    case WakeRel(l) => l < nl
    case SlpSet(c) => ChanIndexed(c, nl)
    case Sched(c) => ChanIndexed(c, nl)
    case Asleep(c) => ChanIndexed(c, nl)
    case Woken(c) => ChanIndexed(c, nl)
    case WokenRel(c) => ChanIndexed(c, nl)
    case Wake(l, i) => l < nl && i <= np
    case WakeAt(l, i) => l < nl && i < np
    case Rouse(q) => q < np
    case RouseAt(q) => q < np
  }

  predicate ChanIndexed(c: Chan, nl: nat) { c != NoChan && (c.OnLock? ==> c.l < nl) }

  /** At pc, process p holds the process lock of q. */
  predicate OwnsProc(pc: Pc, p: nat, q: nat) {
    match pc
    case SlpRel(_) => q == p
    case SlpSet(_) => q == p
    case Sched(_) => q == p
    case Woken(_) => q == p
    case WokenRel(_) => q == p
    case WakeAt(_, i) => q == i
    case RouseAt(r) => q == r
    case _ => false
  }

  /** At pc, a process holds the spinlock inside sleep lock l. */
  predicate OwnsSpin(pc: Pc, l: nat) {
    match pc
    case Check(k) => k == l
    case Take(k) => k == l
    case TakeRel(k) => k == l
    case SlpLock(k) => k == l
    case SlpRel(k) => k == l
    case Clear(k) => k == l
    case Wake(k, _) => k == l
    case WakeAt(k, _) => k == l
    case WakeRel(k) => k == l
    case _ => false
  }

  ghost predicate ProcLocksOk(s: State) {
    && (forall p, q :: 0 <= p < |s.procs| && 0 <= q < |s.procs| && OwnsProc(s.procs[p].pc, p, q) ==>
        s.procs[q].lock == Some(p))
    && (forall q :: 0 <= q < |s.procs| && s.procs[q].lock.Some? ==>
          s.procs[q].lock.value < |s.procs| && OwnsProc(s.procs[s.procs[q].lock.value].pc, s.procs[q].lock.value, q))
  }

  ghost predicate SpinsOk(s: State) {
    && (forall p, l :: 0 <= p < |s.procs| && 0 <= l < |s.locks| && OwnsSpin(s.procs[p].pc, l) ==>
        s.locks[l].spin == Some(p))
    && (forall l :: 0 <= l < |s.locks| && s.locks[l].spin.Some? ==>
          s.locks[l].spin.value < |s.procs| && OwnsSpin(s.procs[s.locks[l].spin.value].pc, l))
  }

  /** A process has state SLEEPING and a channel only where sleep gives it them. */
  predicate SleepFields(x: Proc) {
    match x.pc
    case Sched(c) => x.state == Sleeping && x.chan == c
    case Asleep(c) => x.state != Running && x.chan == c
    case Woken(c) => x.state != Sleeping && x.chan == c
    case _ => x.state != Sleeping && x.chan == NoChan
  }

  /** The process has decided to sleep on l, or sleeps on it, and has not been woken. */
  predicate WaitsOn(x: Proc, l: nat) {
    match x.pc
    case SlpSet(c) => c == OnLock(l)
    case Sched(c) => c == OnLock(l)
    case Asleep(c) => c == OnLock(l) && x.state == Sleeping
    case _ => false
  }

  /** The wakeup loop at pc, for lock l, has yet to visit process p. */
  predicate WillWake(pc: Pc, l: nat, p: nat) {
    match pc
    case Wake(k, i) => k == l && i <= p
    case WakeAt(k, i) => k == l && i <= p
    case _ => false
  }

  ghost predicate WaitersOk(s: State) {
    forall p, l :: 0 <= p < |s.procs| && 0 <= l < |s.locks| && WaitsOn(s.procs[p], l) && !s.locks[l].locked ==>
      s.locks[l].spin.Some? && s.locks[l].spin.value < |s.procs| && WillWake(s.procs[s.locks[l].spin.value].pc, l, p)
  }

  /** Process x, numbered p, is the one that took lock l. */
  predicate Has(x: Proc, l: nat) {
    l in x.held || x.pc == TakeRel(l) || x.pc == Rel(l) || x.pc == Clear(l)
  }

  predicate LoopTest(x: Proc, k: Slk, l: nat) {
    && (x.pc == Take(l) ==> !k.locked)
    && (x.pc == SlpLock(l) || x.pc == SlpRel(l) ==> k.locked)
    && (x.pc == TakeRel(l) || x.pc == Rel(l) || x.pc == Clear(l) ==> l !in x.held)
  }

  ghost predicate HoldersOk(s: State) {
    && (forall p, l :: 0 <= p < |s.procs| && 0 <= l < |s.locks| && Has(s.procs[p], l) ==>
        s.locks[l].locked && s.locks[l].pid == Some(p))
    && (forall l :: 0 <= l < |s.locks| && s.locks[l].locked ==>
          s.locks[l].pid.Some? && s.locks[l].pid.value < |s.procs| && Has(s.procs[s.locks[l].pid.value], l))
    && (forall p, l :: 0 <= p < |s.procs| && 0 <= l < |s.locks| ==> LoopTest(s.procs[p], s.locks[l], l))
  }

  ghost predicate Inv(s: State) {
    && Indexed(s) && ProcLocksOk(s) && SpinsOk(s)
    && (forall p :: 0 <= p < |s.procs| ==> SleepFields(s.procs[p]))
    && WaitersOk(s) && HoldersOk(s)
  }

  /** initsleeplock and procinit: nothing locked, every process outside. */
  ghost predicate Init(s: State) {
    && (forall p :: 0 <= p < |s.procs| ==> s.procs[p] == Proc(Running, NoChan, None, Out, {}))
    && (forall l :: 0 <= l < |s.locks| ==> s.locks[l] == Slk(None, false, None))
  }

  /** Every step moves one process's program counter; the others keep theirs and what they hold. */
  ghost predicate Moves(s: State, t: State, p: nat) {
    && p < |s.procs| == |t.procs| && |s.locks| == |t.locks|
    && (forall r :: 0 <= r < |s.procs| && r != p ==>
        t.procs[r].pc == s.procs[r].pc && t.procs[r].held == s.procs[r].held)
  }

  lemma StepMoves(s: State, p: nat, e: Event)
    requires Indexed(s) && Enabled(s, p, e)
    ensures Moves(s, Step(s, p, e), p)
  {
  }

  /** The process lock that a step takes (Left) or gives back (Right), and likewise for spinlocks. */
  datatype Effect = Nothing | Takes(i: nat) | Gives(i: nat)

  function ProcEffect(pc: Pc, p: nat, np: nat): Effect {
    match pc
    case SlpLock(_) => Takes(p)
    case OtherLock => Takes(p)
    case Asleep(_) => Takes(p)
    case Sched(_) => Gives(p)
    case WokenRel(_) => Gives(p)
    case Wake(_, i) => if i < np then Takes(i) else Nothing
    case WakeAt(_, i) => Gives(i)
    case Rouse(q) => Takes(q)
    case RouseAt(q) => Gives(q)
    case _ => Nothing
  }

  function SpinEffect(pc: Pc): Effect {
    match pc
    case Acq(l) => Takes(l)
    case Reacq(l) => Takes(l)
    case Rel(l) => Takes(l)
    case TakeRel(l) => Gives(l)
    case SlpRel(l) => Gives(l)
    case WakeRel(l) => Gives(l)
    case _ => Nothing
  }

  /** Process locks after an effect of process p. */
  ghost predicate ProcLocksAfter(s: State, t: State, p: nat, f: Effect) {
    && |s.procs| == |t.procs|
    && (forall q :: 0 <= q < |s.procs| ==>
          t.procs[q].lock == if f == Takes(q) then Some(p) else if f == Gives(q) then None else s.procs[q].lock)
    && (f.Takes? ==> f.i < |s.procs| && s.procs[f.i].lock.None?)
  }

  ghost predicate SpinsAfter(s: State, t: State, p: nat, f: Effect) {
    && |s.locks| == |t.locks|
    && (forall l :: 0 <= l < |s.locks| ==>
          t.locks[l].spin == if f == Takes(l) then Some(p) else if f == Gives(l) then None else s.locks[l].spin)
    && (f.Takes? ==> f.i < |s.locks| && s.locks[f.i].spin.None?)
  }

  lemma StepProcLocks(s: State, p: nat, e: Event)
    requires Indexed(s) && Enabled(s, p, e)
    ensures ProcLocksAfter(s, Step(s, p, e), p, ProcEffect(s.procs[p].pc, p, |s.procs|))
  {
  }

  lemma StepSpinLocks(s: State, p: nat, e: Event)
    requires Indexed(s) && Enabled(s, p, e)
    ensures SpinsAfter(s, Step(s, p, e), p, SpinEffect(s.procs[p].pc))
  {
  }

  /** The program counter says exactly which locks a process holds, before and after its step. */
  lemma StepOwns(s: State, p: nat, e: Event, i: nat)
    requires Indexed(s) && Enabled(s, p, e)
    ensures var pc, pc' := s.procs[p].pc, Step(s, p, e).procs[p].pc;
            && (OwnsProc(pc', p, i) <==> (OwnsProc(pc, p, i) && ProcEffect(pc, p, |s.procs|) != Gives(i))
                                         || ProcEffect(pc, p, |s.procs|) == Takes(i))
            && (ProcEffect(pc, p, |s.procs|) == Gives(i) ==> OwnsProc(pc, p, i))
  {
  }

  lemma StepOwnsSpin(s: State, p: nat, e: Event, i: nat)
    requires Indexed(s) && Enabled(s, p, e)
    ensures var pc, pc' := s.procs[p].pc, Step(s, p, e).procs[p].pc;
            && (OwnsSpin(pc', i) <==> (OwnsSpin(pc, i) && SpinEffect(pc) != Gives(i)) || SpinEffect(pc) == Takes(i))
            && (SpinEffect(pc) == Gives(i) ==> OwnsSpin(pc, i))
  {
  }

  lemma StepKeepsProcLocks(s: State, p: nat, e: Event)
    requires Inv(s) && Enabled(s, p, e)
    ensures ProcLocksOk(Step(s, p, e))
  {
    hide Step, ProcEffect, OwnsProc, OwnsSpin, WaitersOk, HoldersOk, SpinsOk, SleepFields;
    var t := Step(s, p, e);
    StepMoves(s, p, e);
    StepProcLocks(s, p, e);
    forall r, q | 0 <= r < |t.procs| && 0 <= q < |t.procs| && OwnsProc(t.procs[r].pc, r, q)
      ensures t.procs[q].lock == Some(r)
    {
      StepOwns(s, p, e, q);
      assert OwnsProc(s.procs[p].pc, p, q) ==> s.procs[q].lock == Some(p);
      assert OwnsProc(s.procs[r].pc, r, q) ==> s.procs[q].lock == Some(r);
    }
    forall q | 0 <= q < |t.procs| && t.procs[q].lock.Some?
      ensures t.procs[q].lock.value < |t.procs| && OwnsProc(t.procs[t.procs[q].lock.value].pc, t.procs[q].lock.value, q)
    {
      StepOwns(s, p, e, q);
    }
  }

  lemma StepKeepsSpins(s: State, p: nat, e: Event)
    requires Inv(s) && Enabled(s, p, e)
    ensures SpinsOk(Step(s, p, e))
  {
    hide Step, SpinEffect, OwnsProc, OwnsSpin, WaitersOk, HoldersOk, ProcLocksOk, SleepFields;
    var t := Step(s, p, e);
    StepMoves(s, p, e);
    StepSpinLocks(s, p, e);
    forall r, l | 0 <= r < |t.procs| && 0 <= l < |t.locks| && OwnsSpin(t.procs[r].pc, l)
      ensures t.locks[l].spin == Some(r)
    {
      StepOwnsSpin(s, p, e, l);
      assert OwnsSpin(s.procs[p].pc, l) ==> s.locks[l].spin == Some(p);
      assert OwnsSpin(s.procs[r].pc, l) ==> s.locks[l].spin == Some(r);
    }
    forall l | 0 <= l < |t.locks| && t.locks[l].spin.Some?
      ensures t.locks[l].spin.value < |t.procs| && OwnsSpin(t.procs[t.locks[l].spin.value].pc, l)
    {
      StepOwnsSpin(s, p, e, l);
    }
  }

  lemma StepPcIndexed(s: State, p: nat, e: Event)
    requires Indexed(s) && Enabled(s, p, e)
    ensures PcIndexed(Step(s, p, e).procs[p].pc, |s.procs|, |s.locks|)
  {
    assert PcIndexed(s.procs[p].pc, |s.procs|, |s.locks|);
    hide Indexed;
    if s.procs[p].pc.Out? {
      CallPcIndexed(s, p, e);
    }
  }

  lemma CallPcIndexed(s: State, p: nat, e: Event)
    requires Indexed(s) && Enabled(s, p, e) && s.procs[p].pc.Out?
    ensures PcIndexed(Step(s, p, e).procs[p].pc, |s.procs|, |s.locks|)
  {
  }

  lemma StepHeldIndexed(s: State, p: nat, e: Event, l: nat)
    requires Indexed(s) && Enabled(s, p, e) && l in Step(s, p, e).procs[p].held
    ensures l < |s.locks|
  {
    assert PcIndexed(s.procs[p].pc, |s.procs|, |s.locks|);
  }

  lemma StepKeepsIndexed(s: State, p: nat, e: Event)
    requires Inv(s) && Enabled(s, p, e)
    ensures Indexed(Step(s, p, e))
  {
    hide Step, PcIndexed, ProcLocksOk, SpinsOk, WaitersOk, HoldersOk, SleepFields;
    StepMoves(s, p, e);
    StepPcIndexed(s, p, e);
    forall l | l in Step(s, p, e).procs[p].held
      ensures l < |s.locks|
    {
      StepHeldIndexed(s, p, e, l);
    }
  }

  /** A step changes another process's state only from SLEEPING to RUNNABLE, and only under its lock. */
  lemma StepOther(s: State, p: nat, e: Event, r: nat)
    requires Indexed(s) && Enabled(s, p, e) && r < |s.procs| && r != p
    ensures var x, y := s.procs[r], Step(s, p, e).procs[r];
            && y.pc == x.pc && y.chan == x.chan
            && (y.state == x.state || (x.state == Sleeping && y.state == Runnable && OwnsProc(s.procs[p].pc, p, r)))
  {
  }

  /** While a process holds its own lock in sched, no one else can change its state. */
  lemma StepFields(s: State, p: nat, e: Event, r: nat)
    requires Indexed(s) && ProcLocksOk(s) && p < |s.procs| && Enabled(s, p, e) && r < |s.procs|
    requires SleepFields(s.procs[r]) && r != p
    ensures SleepFields(Step(s, p, e).procs[r])
  {
    hide Step, Enabled, Indexed;
    StepOther(s, p, e, r);
    if s.procs[r].pc.Sched? {
      assert OwnsProc(s.procs[r].pc, r, r);
    }
    assert OwnsProc(s.procs[p].pc, p, r) ==> s.procs[r].lock == Some(p);
  }

  lemma StepOwnFields(s: State, p: nat, e: Event)
    requires Indexed(s) && Enabled(s, p, e) && SleepFields(s.procs[p])
    ensures SleepFields(Step(s, p, e).procs[p])
  {
    assert PcIndexed(s.procs[p].pc, |s.procs|, |s.locks|);
  }

  lemma StepKeepsFields(s: State, p: nat, e: Event)
    requires Inv(s) && Enabled(s, p, e)
    ensures forall r :: 0 <= r < |Step(s, p, e).procs| ==> SleepFields(Step(s, p, e).procs[r])
  {
    hide Step, Enabled, ProcLocksOk, SpinsOk, WaitersOk, HoldersOk, SleepFields;
    StepMoves(s, p, e);
    forall r | 0 <= r < |s.procs|
      ensures SleepFields(Step(s, p, e).procs[r])
    {
      if r == p {
        StepOwnFields(s, p, e);
      } else {
        StepFields(s, p, e, r);
      }
    }
  }

  /** Only releasesleep clears a lock, and only acquiresleep sets one. */
  lemma StepLocked(s: State, p: nat, e: Event, l: nat)
    requires Indexed(s) && Enabled(s, p, e) && l < |s.locks|
    ensures var t, pc := Step(s, p, e), s.procs[p].pc;
            && |t.locks| == |s.locks|
            && t.locks[l].locked == (if pc == Clear(l) then false else if pc == Take(l) then true
                else s.locks[l].locked)
            && t.locks[l].pid == (if pc == Clear(l) then None else if pc == Take(l) then Some(p) else s.locks[l].pid)
  {
  }

  /** A process starts to wait only by its own step, under the spinlock. */
  lemma StepWaits(s: State, p: nat, e: Event, r: nat, l: nat)
    requires Indexed(s) && Enabled(s, p, e) && r < |s.procs|
    requires WaitsOn(Step(s, p, e).procs[r], l)
    ensures WaitsOn(s.procs[r], l) || (r == p && s.procs[p].pc == SlpRel(l))
  {
  }

  /** The wakeup loop moves past a process only after waking it. */
  lemma StepLoop(s: State, p: nat, e: Event, r: nat, l: nat)
    requires Indexed(s) && ProcLocksOk(s) && Enabled(s, p, e) && r < |s.procs|
    requires SleepFields(s.procs[r]) && WillWake(s.procs[p].pc, l, r) && WaitsOn(s.procs[r], l)
    ensures WillWake(Step(s, p, e).procs[p].pc, l, r) || !WaitsOn(Step(s, p, e).procs[r], l)
  {
    if WaitsOn(s.procs[r], l) && s.procs[r].pc.Asleep? {
    } else {
      assert OwnsProc(s.procs[r].pc, r, r);
    }
  }

  lemma WaiterStep(s: State, p: nat, e: Event, r: nat, l: nat)
    requires Inv(s) && Enabled(s, p, e) && r < |s.procs| && l < |s.locks|
    requires var t := Step(s, p, e); WaitsOn(t.procs[r], l) && !t.locks[l].locked
    ensures var t := Step(s, p, e);
            t.locks[l].spin.Some? && t.locks[l].spin.value < |t.procs|
                && WillWake(t.procs[t.locks[l].spin.value].pc, l, r)
  {
    hide Step, Enabled, Indexed, PcIndexed, ProcLocksOk, OwnsProc, WaitsOn, SleepFields, HoldersOk, ProcEffect,
        WillWake;
    var t := Step(s, p, e);
    StepMoves(s, p, e);
    StepSpinLocks(s, p, e);
    StepLocked(s, p, e, l);
    StepWaits(s, p, e, r, l);
    if s.procs[p].pc == Clear(l) {
      ClearStep(s, p, e, l);
    } else {
      TestOf(s, p, l);
      assert WaitsOn(s.procs[r], l) && !s.locks[l].locked;
      if s.locks[l].spin == Some(p) {
        WillWakeHolds(s.procs[p].pc, l, r);
        StepLoop(s, p, e, r, l);
      } else {
        assert SpinEffect(s.procs[p].pc) != Gives(l) by { GivesOwn(s.procs[p].pc, l); }
      }
    }
  }

  lemma StepKeepsWaiters(s: State, p: nat, e: Event)
    requires Inv(s) && Enabled(s, p, e)
    ensures WaitersOk(Step(s, p, e))
  {
    hide Step, Enabled, Indexed, PcIndexed, ProcLocksOk, SpinsOk, SleepFields, HoldersOk, WaitsOn, WillWake;
    var t := Step(s, p, e);
    forall r, l | 0 <= r < |t.procs| && 0 <= l < |t.locks| && WaitsOn(t.procs[r], l) && !t.locks[l].locked
      ensures t.locks[l].spin.Some? && t.locks[l].spin.value < |t.procs|
          && WillWake(t.procs[t.locks[l].spin.value].pc, l, r)
    {
      WaiterStep(s, p, e, r, l);
    }
  }

  lemma TestOf(s: State, p: nat, l: nat)
    requires HoldersOk(s) && p < |s.procs| && l < |s.locks|
    ensures s.procs[p].pc == SlpRel(l) ==> s.locks[l].locked
  {
    assert LoopTest(s.procs[p], s.locks[l], l);
  }

  lemma ClearStep(s: State, p: nat, e: Event, l: nat)
    requires Indexed(s) && Enabled(s, p, e) && s.procs[p].pc == Clear(l)
    ensures Step(s, p, e).procs[p].pc == Wake(l, 0) && SpinEffect(s.procs[p].pc) == Nothing
    ensures forall r: nat :: WillWake(Wake(l, 0), l, r)
  {
  }

  lemma WillWakeHolds(pc: Pc, l: nat, r: nat)
    requires WillWake(pc, l, r)
    ensures SpinEffect(pc) == Nothing
  {
  }

  lemma GivesOwn(pc: Pc, l: nat)
    ensures SpinEffect(pc) == Gives(l) ==> OwnsSpin(pc, l)
  {
  }

  lemma StepHas(s: State, p: nat, e: Event, l: nat)
    requires Indexed(s) && Enabled(s, p, e) && l < |s.locks|
    requires LoopTest(s.procs[p], s.locks[l], l)
    ensures Has(Step(s, p, e).procs[p], l) <==>
        (Has(s.procs[p], l) && s.procs[p].pc != Clear(l)) || s.procs[p].pc == Take(l)
  {
  }

  lemma StepOwnTest(s: State, p: nat, e: Event, l: nat)
    requires Indexed(s) && Enabled(s, p, e) && l < |s.locks| && LoopTest(s.procs[p], s.locks[l], l)
    requires s.procs[p].pc == Take(l) ==> l !in s.procs[p].held
    ensures LoopTest(Step(s, p, e).procs[p], Step(s, p, e).locks[l], l)
  {
  }

  /** The loop test a process made under the spinlock still stands while it holds it. */
  lemma StepKeepsTest(s: State, p: nat, e: Event, r: nat, l: nat)
    requires Inv(s) && Enabled(s, p, e) && r < |s.procs| && l < |s.locks|
    ensures LoopTest(Step(s, p, e).procs[r], Step(s, p, e).locks[l], l)
  {
    hide Step, Enabled, ProcLocksOk, WaitersOk, PcIndexed, SleepFields, OwnsProc;
    assert LoopTest(s.procs[r], s.locks[l], l);
    if r == p {
      assert l in s.procs[p].held ==> Has(s.procs[p], l);
      StepOwnTest(s, p, e, l);
    } else {
      StepMoves(s, p, e);
      StepLocked(s, p, e, l);
      assert OwnsSpin(s.procs[p].pc, l) ==> s.locks[l].spin == Some(p);
      assert OwnsSpin(s.procs[r].pc, l) ==> s.locks[l].spin == Some(r);
    }
  }

  lemma StepKeepsHolders(s: State, p: nat, e: Event)
    requires Inv(s) && Enabled(s, p, e)
    ensures HoldersOk(Step(s, p, e))
  {
    hide Step, Enabled, PcIndexed, ProcLocksOk, SpinsOk, WaitersOk, SleepFields, LoopTest;
    var t := Step(s, p, e);
    StepMoves(s, p, e);
    forall l | 0 <= l < |t.locks|
      ensures forall r :: 0 <= r < |t.procs| && Has(t.procs[r], l) ==> t.locks[l].locked && t.locks[l].pid == Some(r)
      ensures t.locks[l].locked ==> t.locks[l].pid.Some? && t.locks[l].pid.value < |t.procs|
                                    && Has(t.procs[t.locks[l].pid.value], l)
    {
      assert LoopTest(s.procs[p], s.locks[l], l);
      StepLocked(s, p, e, l);
      StepHas(s, p, e, l);
      TakeTest(s, p, l);
      assert forall r :: 0 <= r < |s.procs| && r != p ==> (Has(t.procs[r], l) <==> Has(s.procs[r], l));
    }
    forall r, l | 0 <= r < |t.procs| && 0 <= l < |t.locks|
      ensures LoopTest(t.procs[r], t.locks[l], l)
    {
      StepKeepsTest(s, p, e, r, l);
    }
  }

  lemma TakeTest(s: State, p: nat, l: nat)
    requires p < |s.procs| && l < |s.locks| && LoopTest(s.procs[p], s.locks[l], l)
    ensures s.procs[p].pc == Take(l) ==> !s.locks[l].locked
    ensures s.procs[p].pc == Clear(l) ==> Has(s.procs[p], l)
  {
  }

  lemma StepKeepsInv(s: State, p: nat, e: Event)
    requires Inv(s) && Enabled(s, p, e)
    ensures Inv(Step(s, p, e))
  {
    hide Step, Enabled, Indexed, ProcLocksOk, SpinsOk, WaitersOk, HoldersOk, SleepFields;
    StepKeepsIndexed(s, p, e);
    StepKeepsProcLocks(s, p, e);
    StepKeepsSpins(s, p, e);
    StepKeepsFields(s, p, e);
    StepKeepsWaiters(s, p, e);
    StepKeepsHolders(s, p, e);
  }

  /** A run: each state is reached from the one before by one enabled step of one process. */
  ghost predicate IsRun(run: seq<State>) {
    && run != [] && Init(run[0])
    && (forall i :: 0 < i < |run| ==> Follows(run[i - 1], run[i]))
  }

  ghost predicate Follows(s: State, t: State) {
    Indexed(s) && exists p, e :: Enabled(s, p, e) && t == Step(s, p, e)
  }

  lemma {:induction false} RunKeepsInv(run: seq<State>)
    requires IsRun(run)
    ensures Inv(run[|run| - 1])
  {
    if |run| > 1 {
      var before := run[..|run| - 1];
      RunKeepsInv(before);
      assert Follows(run[|run| - 2], run[|run| - 1]);
      var p, e :| Enabled(run[|run| - 2], p, e) && run[|run| - 1] == Step(run[|run| - 2], p, e);
      StepKeepsInv(run[|run| - 2], p, e);
    }
  }

  /**
   No lost wakeup, in any interleaving: a process sleeping on a lock whose inner spinlock is free sleeps
   on a lock that is taken, by a process that stands between acquiresleep and releasesleep.
   */
  lemma NoLostWakeup(run: seq<State>, p: nat, l: nat)
    requires IsRun(run)
    requires var s := run[|run| - 1];
             p < |s.procs| && l < |s.locks| && s.procs[p].state == Sleeping && s.procs[p].chan == OnLock(l)
                 && s.locks[l].spin.None?
    ensures var s := run[|run| - 1];
            && s.locks[l].locked && s.locks[l].pid.Some? && s.locks[l].pid.value < |s.procs|
            && Has(s.procs[s.locks[l].pid.value], l)
  {
    RunKeepsInv(run);
    assert SleepFields(run[|run| - 1].procs[p]);
    assert WaitsOn(run[|run| - 1].procs[p], l);
  }

  /** At most one process holds a sleep lock at a time. */
  lemma MutualExclusion(run: seq<State>, p: nat, q: nat, l: nat)
    requires IsRun(run)
    requires var s := run[|run| - 1]; p < |s.procs| && q < |s.procs| && l in s.procs[p].held && l in s.procs[q].held
    ensures p == q
  {
    RunKeepsInv(run);
    var s := run[|run| - 1];
    assert l < |s.locks|;
    assert Has(s.procs[p], l) && Has(s.procs[q], l);
    assert s.locks[l].pid == Some(p) && s.locks[l].pid == Some(q);
  }

  /**
   sched's checks never fail: a process that enters sched holds its own process lock, no other
   process's, and no spinlock of a sleep lock; and its state is no longer RUNNING.
   */
  lemma SchedHoldsOneLock(run: seq<State>, p: nat)
    requires IsRun(run)
    requires p < |run[|run| - 1].procs| && run[|run| - 1].procs[p].pc.Sched?
    ensures var s := run[|run| - 1];
            && s.procs[p].state != Running
            && (forall q :: 0 <= q < |s.procs| ==> (s.procs[q].lock == Some(p) <==> q == p))
            && (forall l :: 0 <= l < |s.locks| ==> s.locks[l].spin != Some(p))
  {
    RunKeepsInv(run);
    var s := run[|run| - 1];
    assert SleepFields(s.procs[p]);
    forall q | 0 <= q < |s.procs|
      ensures s.procs[q].lock == Some(p) <==> q == p
    {
      assert OwnsProc(s.procs[p].pc, p, p);
    }
  }
}
