/**
 exit, wait, fork and the scheduler (kernel/proc.c) as a machine that interleaves any number of CPUs, one
 lock operation at a time. A process lock belongs to the CPU that took it, so swtch hands p->lock from the
 process to the scheduler, or back, without releasing it. A timer interrupt may make a process yield
 wherever its CPU holds no lock.
 */
module ExitWait {
  import opened Options

  datatype RunState = Unused | Sleeping | Runnable | Running | Zombie

  /** What a process sleeps on: a process structure, or something else in the kernel. */
  datatype Chan = NoChan | OnProc(q: nat) | Elsewhere

  /** Which child is waited for: any, through wait or through wait4pid(-1), or the one with this pid. */
  datatype Want = Any(checksKilled: bool) | Child(pid: nat)

  /** Where a process holds no lock; it may be interrupted there. */
  datatype Point =
    | User
    | ForkLook(i: nat)             // allocproc wants the lock of slot i
    | ExitInit                     // exit wants initproc's lock
    | ExitSelf                     // exit wants its own lock, to read who its parent is
    | ExitParent(op: nat)          // exit wants that parent's lock
    | WaitLock(w: Want)            // wait wants its own lock
    | SleepLock                    // sleep on something else wants its own lock
    | Rouse(q: nat)                // a wakeup of something else wants q's lock
    | Kill(q: nat)                 // kill wants q's lock

  /** Where a process that gave up its CPU continues. */
  datatype Cont = First | AfterYield(at: Point) | AfterSleep | AfterWait(w: Want, t: nat) | Dead

  /** Where a process is: the next thing it does. */
  datatype Pc =
    | Free                         // no process in this slot
    | At(at: Point)
    | YieldLock(at: Point)         // yield wants its own lock
    | YieldSet(at: Point)          // yield marks itself runnable
    | Swtch(k: Cont)               // sched: swtch to the scheduler
    | Off(k: Cont)                 // not on a CPU
    | Back(k: Cont)                // the scheduler has switched to it, with its lock held
    | SleepSet                     // sleep records the channel and the state
    | RouseAt(q: nat)
    | KillAt(q: nat)
    | ForkTest(i: nat)             // is slot i unused?
    | ForkFill(i: nat)             // the copies, which may fail, and the new process's parent
    | ForkRun(i: nat)              // the new process becomes runnable, its lock is released
    | ExitInitWake                 // initproc is woken, its lock released
    | ExitRead                     // the parent is noted, the own lock released
    | ExitOwn(op: nat)             // exit wants its own lock, with the parent's lock held
    | Rep(op: nat, i: nat)         // reparent asks, without its lock, whether process i is a child
    | RepLock(op: nat, i: nat)     // reparent wants the child's lock
    | RepSet(op: nat, i: nat)      // the child goes to initproc
    | RepRel(op: nat, i: nat)      // the child's lock is released
    | ExitWake(op: nat)            // wake the parent from wait or wait4pid
    | ExitZombie(op: nat)          // exit becomes a zombie and releases the parent's lock
    | Scan(w: Want, i: nat, t: Option<nat>)     // wait asks, without its lock, whether process i is a child
    | ScanLock(w: Want, i: nat, t: Option<nat>) // wait wants the child's lock
    | ScanTest(w: Want, i: nat, t: Option<nat>) // a zombie is freed
    | WaitRel(kid: Option<nat>)    // wait releases its own lock and returns this pid, or -1

  datatype Proc = Proc(state: RunState, chan: Chan, parent: Option<nat>, pid: nat, killed: bool, lock: Option<nat>,
      pc: Pc)

  /** What a CPU does: the scheduler's loop around process i, or process p's code. */
  datatype Mode = Idle(i: nat) | Look(i: nat) | Run(p: nat) | Ret(i: nat)

  datatype State = State(procs: seq<Proc>, cpus: seq<Mode>, nextpid: nat)

  /**
   Go is the next step; Fail the next step where a copy or an allocation fails, early if it is that of the trapframe,
   after which allocproc leaves the slot its new pid; Tick an interrupt.
   */
  datatype Event = Go | Fail(early: bool) | Tick | CallFork | CallExit | CallWait(w: Want) | CallSleep
      | CallRouse(q: nat) | CallKill(q: nat)

  const INIT: nat := 0

  /** freeproc. */
  function Freed(x: Proc): Proc {
    x.(state := Unused, chan := NoChan, parent := None, pid := 0, killed := false, pc := Free)
  }

  function Woken(x: Proc): Proc { if x.state.Sleeping? then x.(state := Runnable) else x }

  predicate Matches(w: Want, pid: nat) { w.Any? || w.pid == pid }

  /** What wait sleeps on: the process itself, or in wait4pid with a pid the last child found. */
  function WaitChan(p: nat, w: Want, t: nat): Chan { OnProc(if w.Any? then p else t) }

  function Next(i: nat, n: nat): nat { if i + 1 < n then i + 1 else 0 }

  /** The lock the next step acquires. */
  function Wants(pc: Pc, p: nat): Option<nat> {
    match pc
    case At(pt) => (match pt
                    case User => None
                    case ForkLook(i) => Some(i)
                    case ExitInit => Some(INIT)
                    case ExitSelf => Some(p)
                    case ExitParent(op) => Some(op)
                    case WaitLock(_) => Some(p)
                    case SleepLock => Some(p)
                    case Rouse(q) => Some(q)
                    case Kill(q) => Some(q))
    case YieldLock(_) => Some(p)
    case ExitOwn(_) => Some(p)
    case RepLock(_, i) => Some(i)
    case ScanLock(_, i, _) => Some(i)
    case _ => None
  }

  /** The locks held at pc by the CPU that runs process p. */
  predicate Owns(pc: Pc, p: nat, q: nat) {
    match pc
    case YieldSet(_) => q == p
    case Swtch(_) => q == p
    case Back(_) => q == p
    case SleepSet => q == p
    case RouseAt(r) => q == r
    case KillAt(r) => q == r
    case ForkTest(i) => q == i
    case ForkFill(i) => q == i
    case ForkRun(i) => q == i
    case ExitInitWake => q == INIT
    case ExitRead => q == p
    case ExitOwn(op) => q == op
    case Rep(op, _) => q == op || q == p
    case RepLock(op, _) => q == op || q == p
    case RepSet(op, i) => q == op || q == p || q == i
    case RepRel(op, i) => q == op || q == p || q == i
    case ExitWake(op) => q == op || q == p
    case ExitZombie(op) => q == op || q == p
    case Scan(_, _, _) => q == p
    case ScanLock(_, _, _) => q == p
    case ScanTest(_, i, _) => q == p || q == i
    case WaitRel(_) => q == p
    case _ => false
  }

  predicate OnPc(pc: Pc) { !pc.Free? && !pc.Off? }

  /** The process can take this step: the lock it wants is free, and the code does not panic there. */
  predicate RunEnabled(s: State, p: nat, e: Event) {
    p < |s.procs| &&
    var pc := s.procs[p].pc;
    match e
    case Go => OnPc(pc) && pc != At(User) && pc != Back(Dead) && (pc.ExitRead? ==> s.procs[p].parent.Some?)
               && (pc == At(ForkLook(|s.procs|))
                   || (Wants(pc, p).Some? ==> Wants(pc, p).value < |s.procs| && s.procs[Wants(pc, p).value].lock.None?))
    case Fail(_) => pc.ForkFill? || (pc.ScanTest? && pc.i < |s.procs| && s.procs[pc.i].state.Zombie?)
    case Tick => pc.At?
    case CallFork => pc == At(User)
    case CallExit => pc == At(User) && p != INIT
    case CallWait(_) => pc == At(User)
    case CallSleep => pc == At(User)
    case CallRouse(q) => pc == At(User) && q < |s.procs|
    case CallKill(q) => pc == At(User) && q < |s.procs|
  }

  /** wait has looked at every process and will not sleep: no child, or killed. */
  predicate GivesUp(x: Proc, w: Want, t: Option<nat>) { t.None? || (w.Any? && w.checksKilled && x.killed) }

  /** Where the process goes from a point where it wants a lock. */
  function EnterPc(pt: Point, n: nat): Pc {
    match pt
    case User => At(User)
    case ForkLook(i) => if i == n then At(User) else ForkTest(i)
    case ExitInit => ExitInitWake
    case ExitSelf => ExitRead
    case ExitParent(op) => ExitOwn(op)
    case WaitLock(w) => Scan(w, 0, None)
    case SleepLock => SleepSet
    case Rouse(q) => RouseAt(q)
    case Kill(q) => KillAt(q)
  }

  function ResumePc(k: Cont): Pc {
    match k
    case AfterYield(pt) => At(pt)
    case AfterWait(w, _) => Scan(w, 0, None)
    case _ => At(User)
  }

  /** Where the next step of process p leads, or where it leads when a copy or an allocation fails. */
  function GoPc(s: State, p: nat, fail: bool): Pc
    requires p < |s.procs| && PcIndexed(s.procs[p].pc, |s.procs|)
        && (s.procs[p].pc.ExitRead? ==> s.procs[p].parent.Some?)
  {
    var me, n := s.procs[p], |s.procs|;
    match me.pc
    case At(pt) => EnterPc(pt, n)
    case YieldLock(pt) => YieldSet(pt)
    case YieldSet(pt) => Swtch(AfterYield(pt))
    case Swtch(k) => Off(k)
    case Back(k) => ResumePc(k)
    case SleepSet => Swtch(AfterSleep)
    case ForkTest(i) => if s.procs[i].state.Unused? then ForkFill(i) else At(ForkLook(i + 1))
    case ForkFill(i) => if fail then At(User) else ForkRun(i)
    case ExitInitWake => At(ExitSelf)
    case ExitRead => At(ExitParent(me.parent.value))
    case ExitOwn(op) => Rep(op, 0)
    case Rep(op, i) => if i == n then ExitWake(op) else if s.procs[i].parent == Some(p) then RepLock(op, i)
        else Rep(op, i + 1)
    case RepLock(op, i) => RepSet(op, i)
    case RepSet(op, i) => RepRel(op, i)
    case RepRel(op, i) => Rep(op, i + 1)
    case ExitWake(op) => ExitZombie(op)
    case ExitZombie(op) => Swtch(Dead)
    case Scan(w, i, t) =>
      if i < n then
        if s.procs[i].parent == Some(p) && Matches(w, s.procs[i].pid) then ScanLock(w, i, t) else Scan(w, i + 1, t)
      else if GivesUp(me, w, t) then At(User)
      else Swtch(AfterWait(w, t.value))
    case ScanLock(w, i, t) => ScanTest(w, i, t)
    case ScanTest(w, i, t) =>
      if s.procs[i].state.Zombie? then WaitRel(if fail then None else Some(s.procs[i].pid))
      else Scan(w, i + 1, Some(i))
    case _ => At(User)
  }

  /** Where an event other than Go and Fail leads. */
  function CallPc(pc: Pc, e: Event): Pc
    requires e.Tick? ==> pc.At?
  {
    match e
    case Tick => YieldLock(pc.at)
    case CallFork => At(ForkLook(0))
    case CallExit => At(ExitInit)
    case CallWait(w) => At(WaitLock(w))
    case CallSleep => At(SleepLock)
    case CallRouse(q) => At(Rouse(q))
    case CallKill(q) => At(Kill(q))
    case _ => pc
  }

  function NextPc(s: State, p: nat, e: Event): Pc
    requires RunEnabled(s, p, e) && PcIndexed(s.procs[p].pc, |s.procs|)
  {
    if e.Go? || e.Fail? then GoPc(s, p, e.Fail?) else CallPc(s.procs[p].pc, e)
  }

  /** The process whose fields a step of process p at pc may write. */
  function Touched(pc: Pc, p: nat): Option<nat> {
    match pc
    case YieldSet(_) => Some(p)
    case Back(_) => Some(p)
    case SleepSet => Some(p)
    case ExitZombie(_) => Some(p)
    case Scan(_, _, _) => Some(p)
    case RouseAt(q) => Some(q)
    case KillAt(q) => Some(q)
    case ForkTest(i) => Some(i)
    case ForkFill(i) => Some(i)
    case ForkRun(i) => Some(i)
    case ExitInitWake => Some(INIT)
    case RepSet(_, i) => Some(i)
    case ExitWake(op) => Some(op)
    case ScanTest(_, i, _) => Some(i)
    case _ => None
  }

  /** What it writes there, x being the touched process. */
  function Written(s: State, p: nat, e: Event, x: Proc): Proc
    requires p < |s.procs|
  {
    match s.procs[p].pc
    case YieldSet(_) => x.(state := Runnable)
    case Back(_) => x.(chan := NoChan)
    case SleepSet => x.(state := Sleeping, chan := Elsewhere)
    case ExitZombie(_) => x.(state := Zombie)
    case Scan(w, i, t) => if i == |s.procs|
        && !GivesUp(x, w, t) then x.(state := Sleeping, chan := WaitChan(p, w, t.value)) else x
    case RouseAt(_) => if x.chan == Elsewhere then Woken(x) else x
    case KillAt(_) => Woken(x).(killed := true)
    case ForkTest(_) => if x.state.Unused? then x.(pid := s.nextpid) else x
    case ForkFill(_) => if e.Fail? then (if e.early then x else Freed(x)) else x.(parent := Some(p))
    case ForkRun(_) => x.(state := Runnable, pc := Off(First))
    case ExitInitWake => if x.chan == OnProc(INIT) then Woken(x) else x
    case RepSet(_, _) => x.(parent := Some(INIT))
    case ExitWake(op) => if x.chan == OnProc(op) || x.chan == OnProc(p) then Woken(x) else x
    case ScanTest(_, _, _) => if x.state.Zombie? && !e.Fail? then Freed(x) else x
    case _ => x
  }

  /** The process lock that a step takes or gives back. */
  datatype Effect = Nothing | Takes(q: nat) | Gives(q: nat)

  function LockEffect(s: State, p: nat, e: Event): Effect
    requires p < |s.procs|
  {
    var pc := s.procs[p].pc;
    if !e.Go? && !e.Fail? then Nothing
    else if Wants(pc, p).Some? then (if pc == At(ForkLook(|s.procs|)) then Nothing else Takes(Wants(pc, p).value))
    else
      match pc
      case Back(k) => if k.AfterWait? then Nothing else Gives(p)
      case RouseAt(q) => Gives(q)
      case KillAt(q) => Gives(q)
      case ForkTest(i) => if i < |s.procs| && s.procs[i].state.Unused? then Nothing else Gives(i)
      case ForkFill(i) => if e.Fail? then Gives(i) else Nothing
      case ForkRun(i) => Gives(i)
      case ExitInitWake => Gives(INIT)
      case ExitRead => Gives(p)
      case RepRel(_, i) => Gives(i)
      case ExitZombie(op) => Gives(op)
      case Scan(w, i, t) => if i == |s.procs| && GivesUp(s.procs[p], w, t) then Gives(p) else Nothing
      case ScanTest(_, i, _) => Gives(i)
      case WaitRel(_) => Gives(p)
      case _ => Nothing
  }

  function WithLock(x: Proc, r: nat, c: nat, f: Effect): Proc {
    if f == Takes(r) then x.(lock := Some(c)) else if f == Gives(r) then x.(lock := None) else x
  }

  /** Process r after a step of process p on CPU c. */
  function RunAfter(s: State, c: nat, p: nat, e: Event, r: nat): Proc
    requires RunEnabled(s, p, e) && PcIndexed(s.procs[p].pc, |s.procs|) && r < |s.procs|
  {
    var writes := (e.Go? || e.Fail?) && Touched(s.procs[p].pc, p) == Some(r);
    var x := if writes then Written(s, p, e, s.procs[r]) else s.procs[r];
    WithLock(if r == p then x.(pc := NextPc(s, p, e)) else x, r, c, LockEffect(s, p, e))
  }

  /** Process r after a step of the scheduler on CPU c. */
  function SchedAfter(s: State, c: nat, r: nat): Proc
    requires c < |s.cpus| && r < |s.procs|
  {
    var x := s.procs[r];
    match s.cpus[c]
    case Idle(i) => WithLock(x, r, c, Takes(i))
    case Look(i) =>
      if i < |s.procs| && s.procs[i].state.Runnable? then
        (if r == i then x.(state := Running, pc := if x.pc.Off? then Back(x.pc.k) else x.pc) else x)
      else WithLock(x, r, c, Gives(i))
    case Ret(i) => WithLock(x, r, c, Gives(i))
    case Run(_) => x
  }

  function NextMode(s: State, c: nat, e: Event): Mode
    requires c < |s.cpus|
  {
    match s.cpus[c]
    case Idle(i) => Look(i)
    case Look(i) => if i < |s.procs| && s.procs[i].state.Runnable? then Run(i) else Idle(Next(i, |s.procs|))
    case Ret(i) => Idle(Next(i, |s.procs|))
    case Run(p) => if p < |s.procs| && e.Go? && s.procs[p].pc.Swtch? then Ret(p) else Run(p)
  }

  function After(s: State, c: nat, e: Event, r: nat): Proc
    requires Indexed(s) && Enabled(s, c, e) && r < |s.procs|
  {
    if s.cpus[c].Run? then RunAfter(s, c, s.cpus[c].p, e, r) else SchedAfter(s, c, r)
  }

  predicate Enabled(s: State, c: nat, e: Event) {
    c < |s.cpus| &&
    match s.cpus[c]
    case Idle(i) => e.Go? && i < |s.procs| && s.procs[i].lock.None?
    case Look(i) => e.Go? && i < |s.procs|
    case Ret(i) => e.Go? && i < |s.procs|
    case Run(p) => RunEnabled(s, p, e)
  }

  /** One step of CPU c. */
  function Step(s: State, c: nat, e: Event): State
    requires Indexed(s) && Enabled(s, c, e)
  {
    var allocates := s.cpus[c].Run? && e.Go? && s.procs[s.cpus[c].p].pc.ForkTest?
        && s.procs[s.procs[s.cpus[c].p].pc.i].state.Unused?;
    State(seq(|s.procs|, r requires 0 <= r < |s.procs| => After(s, c, e, r)),
          s.cpus[c := NextMode(s, c, e)],
          if allocates then s.nextpid + 1 else s.nextpid)
  }

  predicate PointIndexed(pt: Point, n: nat) {
    match pt
    case ForkLook(i) => i <= n
    case ExitParent(op) => op < n
    case Rouse(q) => q < n
    case Kill(q) => q < n
    case _ => true
  }

  predicate ContIndexed(k: Cont, n: nat) {
    match k
    case AfterYield(pt) => PointIndexed(pt, n)
    case AfterWait(_, t) => t < n
    case _ => true
  }

  predicate PcIndexed(pc: Pc, n: nat) {
    match pc
    case At(pt) => PointIndexed(pt, n)
    case YieldLock(pt) => PointIndexed(pt, n)
    case YieldSet(pt) => PointIndexed(pt, n)
    case Swtch(k) => ContIndexed(k, n)
    case Off(k) => ContIndexed(k, n)
    case Back(k) => ContIndexed(k, n)
    case RouseAt(q) => q < n
    case KillAt(q) => q < n
    case ForkTest(i) => i < n
    case ForkFill(i) => i < n
    case ForkRun(i) => i < n
    case ExitInitWake => INIT < n
    case ExitOwn(op) => op < n
    case Rep(op, i) => op < n && i <= n
    case RepLock(op, i) => op < n && i < n
    case RepSet(op, i) => op < n && i < n
    case RepRel(op, i) => op < n && i < n
    case ExitWake(op) => op < n
    case ExitZombie(op) => op < n
    case Scan(_, i, t) => i <= n && (t.Some? ==> t.value < n)
    case ScanLock(_, i, t) => i < n && (t.Some? ==> t.value < n)
    case ScanTest(_, i, t) => i < n && (t.Some? ==> t.value < n)
    case _ => true
  }

  /** Process numbers inside program counters, parent pointers and CPU modes exist. */
  ghost predicate Indexed(s: State) {
    && INIT < |s.procs|
    && (forall p :: 0 <= p < |s.procs| ==>
        PcIndexed(s.procs[p].pc, |s.procs|) && (s.procs[p].parent.Some? ==> s.procs[p].parent.value < |s.procs|))
    && (forall c :: 0 <= c < |s.cpus| ==> ModeIndexed(s.cpus[c], |s.procs|))
  }

  predicate ModeIndexed(m: Mode, n: nat) {
    match m
    case Idle(i) => i < n
    case Look(i) => i < n
    case Ret(i) => i < n
    case Run(p) => p < n
  }

  /** CPU c holds the lock of process q. */
  predicate Holds(s: State, c: nat, q: nat)
  {
    c < |s.cpus| &&
    match s.cpus[c]
    case Idle(_) => false
    case Look(i) => q == i
    case Ret(i) => q == i
    case Run(p) => p < |s.procs| && Owns(s.procs[p].pc, p, q)
  }

  ghost predicate LocksOk(s: State) {
    forall q, c: nat :: 0 <= q < |s.procs| ==> (s.procs[q].lock == Some(c) <==> Holds(s, c, q))
  }

  predicate RunsOn(s: State, p: nat, c: nat) { c < |s.cpus| && s.cpus[c] == Run(p) }

  ghost predicate Somewhere(s: State, p: nat) { exists c :: RunsOn(s, p, c) }

  ghost predicate ModesOk(s: State) {
    && (forall p, c: nat :: 0 <= p < |s.procs| && RunsOn(s, p, c) ==> OnPc(s.procs[p].pc))
    && (forall p: nat, c: nat, d: nat :: RunsOn(s, p, c) && RunsOn(s, p, d) ==> c == d)
    && (forall p :: 0 <= p < |s.procs| && OnPc(s.procs[p].pc) ==> Somewhere(s, p))
  }

  predicate ContState(k: Cont, st: RunState) {
    match k
    case First => st == Runnable
    case AfterYield(_) => st == Runnable
    case AfterSleep => st == Sleeping
    case AfterWait(_, _) => st == Sleeping
    case Dead => st == Zombie
  }

  function ContChan(k: Cont, p: nat): Chan {
    match k
    case AfterSleep => Elsewhere
    case AfterWait(w, t) => WaitChan(p, w, t)
    case _ => NoChan
  }

  /** The state and channel that go with each place in the code. */
  predicate FieldsOk(p: nat, x: Proc) {
    match x.pc
    case Free => x.state == Unused && x.chan == NoChan
    case Swtch(k) => ContState(k, x.state) && x.chan == ContChan(k, p) && k != First
    case Off(k) => (ContState(k, x.state) || (x.state == Runnable && (k == AfterSleep || k.AfterWait?)))
        && x.chan == ContChan(k, p)
    case Back(k) => x.state == Running && k != Dead && x.chan == ContChan(k, p)
    case _ => x.state == Running && x.chan == NoChan
  }

  /** The parent that exit read. */
  function Captured(pc: Pc): Option<nat> {
    match pc
    case At(pt) => CapturedAt(pt)
    case YieldLock(pt) => CapturedAt(pt)
    case YieldSet(pt) => CapturedAt(pt)
    case Swtch(k) => if k.AfterYield? then CapturedAt(k.at) else None
    case Off(k) => if k.AfterYield? then CapturedAt(k.at) else None
    case Back(k) => if k.AfterYield? then CapturedAt(k.at) else None
    case ExitOwn(op) => Some(op)
    case Rep(op, _) => Some(op)
    case RepLock(op, _) => Some(op)
    case RepSet(op, _) => Some(op)
    case RepRel(op, _) => Some(op)
    case ExitWake(op) => Some(op)
    case ExitZombie(op) => Some(op)
    case _ => None
  }

  function CapturedAt(pt: Point): Option<nat> { if pt.ExitParent? then Some(pt.op) else None }

  /** The process found by an unlocked read of its parent pointer, or just given one. */
  function Found(pc: Pc): Option<nat> {
    match pc
    case RepLock(_, i) => Some(i)
    case RepSet(_, i) => Some(i)
    case ScanLock(_, i, _) => Some(i)
    case ScanTest(_, i, _) => Some(i)
    case ForkRun(i) => Some(i)
    case _ => None
  }

  predicate ExitPoint(pt: Point) { pt.ExitInit? || pt.ExitSelf? || pt.ExitParent? }

  predicate Exiting(pc: Pc) {
    match pc
    case At(pt) => ExitPoint(pt)
    case YieldLock(pt) => ExitPoint(pt)
    case YieldSet(pt) => ExitPoint(pt)
    case Swtch(k) => k.Dead? || (k.AfterYield? && ExitPoint(k.at))
    case Off(k) => k.Dead? || (k.AfterYield? && ExitPoint(k.at))
    case Back(k) => k.Dead? || (k.AfterYield? && ExitPoint(k.at))
    case ExitInitWake => true
    case ExitRead => true
    case _ => Captured(pc).Some?
  }

  /** The wait at pc: what is wanted and the last child found. */
  function Waits(pc: Pc): Option<(Want, Option<nat>)> {
    match pc
    case Swtch(k) => if k.AfterWait? then Some((k.w, Some(k.t))) else None
    case Off(k) => if k.AfterWait? then Some((k.w, Some(k.t))) else None
    case Back(k) => if k.AfterWait? then Some((k.w, Some(k.t))) else None
    case Scan(w, _, t) => Some((w, t))
    case ScanLock(w, _, t) => Some((w, t))
    case ScanTest(w, _, t) => Some((w, t))
    case _ => None
  }

  /** A process at pc may still have process q as a child. */
  predicate CanHave(pc: Pc, q: nat) {
    match pc
    case Free => false
    case Rep(_, i) => i <= q
    case RepLock(_, i) => i <= q
    case RepSet(_, i) => i <= q
    case RepRel(_, i) => i < q
    case ExitWake(_) => false
    case ExitZombie(_) => false
    case Swtch(k) => !k.Dead?
    case Off(k) => !k.Dead?
    case _ => true
  }

  predicate IsChild(s: State, q: nat, p: nat) { q < |s.procs| && s.procs[q].parent == Some(p) }

  /** The parent that exit read: still the parent, unless that is initproc by now, and never a child. */
  ghost predicate CapturedOk(s: State, p: nat)
    requires p < |s.procs|
  {
    var x := s.procs[p];
    Captured(x.pc).Some? ==>
      var op := Captured(x.pc).value;
      op != p && !IsChild(s, op, p) && (x.parent == Some(op) || x.parent == Some(INIT))
  }

  /** What process p knows of the others, through its own program counter. */
  ghost predicate KinRest(s: State, p: nat)
    requires p < |s.procs|
  {
    var x := s.procs[p];
    && (Found(x.pc).Some? ==> IsChild(s, Found(x.pc).value, p))
    && (x.pc.ScanLock? || x.pc.ScanTest? ==> x.pc.i < |s.procs| && Matches(x.pc.w, s.procs[x.pc.i].pid))
    && (x.pc.RepRel? ==> x.pc.i != p && x.pc.i != x.pc.op)
    && (x.pc.ForkFill? ==> x.pc.i < |s.procs| && s.procs[x.pc.i].parent.None? && s.procs[x.pc.i].pc.Free?
                           && x.pid < s.procs[x.pc.i].pid)
    && (x.pc.ForkRun? ==> x.pc.i < |s.procs| && s.procs[x.pc.i].pc.Free?)
    && (Waits(x.pc).Some? && Waits(x.pc).value.1.Some? ==>
          var t := Waits(x.pc).value.1.value;
          IsChild(s, t, p) && Matches(Waits(x.pc).value.0, s.procs[t].pid))
  }

  ghost predicate Kin(s: State, p: nat)
    requires p < |s.procs|
  {
    CapturedOk(s, p) && KinRest(s, p)
  }

  ghost predicate InitOk(s: State)
    requires INIT < |s.procs|
  {
    var x := s.procs[INIT];
    x.pid == 1 && x.parent.None? && !x.pc.Free? && !Exiting(x.pc) && s.nextpid >= 2
  }

  ghost predicate PidsOk(s: State) {
    && (forall q :: 0 <= q < |s.procs| ==> s.procs[q].pid < s.nextpid && (s.procs[q].pid == 0 ==> s.procs[q].pc.Free?))
    && (forall q, r :: 0 <= q < r < |s.procs| && s.procs[q].pid == s.procs[r].pid ==> s.procs[q].pid == 0)
    && (forall p, q: nat :: 0 <= p < |s.procs| && IsChild(s, q, p) ==> 0 < s.procs[p].pid < s.procs[q].pid)
  }

  ghost predicate ParentsOk(s: State) {
    && (forall p, q: nat :: 0 <= p < |s.procs| && IsChild(s, q, p) ==>
        CanHave(s.procs[p].pc, q) && (s.procs[q].pc.Free? ==> s.procs[p].pc == ForkRun(q)))
    && (forall q :: 0 <= q < |s.procs| && !s.procs[q].pc.Free? && q != INIT ==> s.procs[q].parent.Some?)
  }

  /** How far wait has looked, with p->lock held throughout. */
  function Scanned(pc: Pc): nat {
    match pc
    case Scan(_, i, _) => i
    case ScanLock(_, i, _) => i
    case ScanTest(_, i, _) => i
    case _ => 0
  }

  predicate Asleep(x: Proc) {
    x.state.Sleeping? && match x.pc
                         case Swtch(k) => k.AfterWait?
                         case Off(k) => k.AfterWait?
                         case _ => false
  }

  /** Child q is one that the wait of process p would take, once it is a ZOMBIE. */
  predicate Wanted(s: State, p: nat, q: nat)
  {
    p < |s.procs| && IsChild(s, q, p) && Waits(s.procs[p].pc).Some?
        && Matches(Waits(s.procs[p].pc).value.0, s.procs[q].pid)
  }

  /** wait has missed nothing. initproc is different: it may be given children while it waits. */
  ghost predicate WaitOk(s: State, p: nat, q: nat)
    requires p < |s.procs|
  {
    p != INIT && Wanted(s, p, q) ==>
      && (q < Scanned(s.procs[p].pc) ==> !s.procs[q].state.Zombie? && Waits(s.procs[p].pc).value.1.Some?)
      && (Asleep(s.procs[p]) ==> !s.procs[q].state.Zombie? && s.procs[q].pc != ExitZombie(p))
  }

  ghost predicate Inv(s: State) {
    && Indexed(s) && ModesOk(s) && LocksOk(s)
    && (forall p :: 0 <= p < |s.procs| ==> FieldsOk(p, s.procs[p]))
    && (forall p :: 0 <= p < |s.procs| ==> Kin(s, p))
    && InitOk(s) && PidsOk(s) && ParentsOk(s)
    && (forall p, q :: 0 <= p < |s.procs| && 0 <= q < |s.procs| ==> WaitOk(s, p, q))
  }

  // ----- what a step changes -----

  /** fork, having failed, frees the slot r that it took. */
  predicate GivesBack(e: Event, pc: Pc, r: nat) { e.Fail? && !e.early && pc == ForkFill(r) }

  /** wait frees child r at pc. */
  predicate Frees(s: State, pc: Pc, e: Event, r: nat) {
    pc.ScanTest? && pc.i == r && r < |s.procs| && s.procs[r].state.Zombie? && !e.Fail?
  }

  function NewParent(s: State, p: nat, e: Event, r: nat): Option<nat>
    requires p < |s.procs| && r < |s.procs|
  {
    var pc := s.procs[p].pc;
    if e.Go? && pc == ForkFill(r) then Some(p)
    else if e.Go? && pc.RepSet? && pc.i == r then Some(INIT)
    else if Frees(s, pc, e, r) && e.Go? then None
    else if GivesBack(e, pc, r) then None
    else s.procs[r].parent
  }

  function NewPid(s: State, p: nat, e: Event, r: nat): nat
    requires p < |s.procs| && r < |s.procs|
  {
    var pc := s.procs[p].pc;
    if e.Go? && pc == ForkTest(r) && s.procs[r].state.Unused? then s.nextpid
    else if (Frees(s, pc, e, r) && e.Go?) || GivesBack(e, pc, r) then 0
    else s.procs[r].pid
  }

  lemma StepAt(s: State, c: nat, e: Event)
    requires Indexed(s) && Enabled(s, c, e)
    ensures var t := Step(s, c, e);
            && |t.procs| == |s.procs| && |t.cpus| == |s.cpus|
            && (forall r :: 0 <= r < |s.procs| ==> t.procs[r] == After(s, c, e, r))
            && t.cpus == s.cpus[c := NextMode(s, c, e)]
  {
    hide After, NextMode, RunEnabled;
  }

  ghost predicate Steps(s: State, c: nat, e: Event) { Indexed(s) && Enabled(s, c, e) }

  lemma RunnerIs(s: State, c: nat, e: Event)
    requires Steps(s, c, e)
    ensures c < |s.cpus| && ModeIndexed(s.cpus[c], |s.procs|)
    ensures s.cpus[c].Run? ==> RunEnabled(s, s.cpus[c].p, e) && PcIndexed(s.procs[s.cpus[c].p].pc, |s.procs|)
  {
  }

  /** Parent pointers and pids change only here, and pids come from nextpid. */
  lemma TreeAt(s: State, c: nat, e: Event, r: nat)
    requires Steps(s, c, e) && r < |s.procs|
    ensures var x, y := s.procs[r], After(s, c, e, r);
            if s.cpus[c].Run? then y.parent == NewParent(s, s.cpus[c].p, e, r) && y.pid == NewPid(s, s.cpus[c].p, e, r)
            else y.parent == x.parent && y.pid == x.pid
  {
    hide NextPc, LockEffect, Indexed;
    RunnerIs(s, c, e);
  }

  lemma SelfPc(s: State, c: nat, e: Event)
    requires Steps(s, c, e) && s.cpus[c].Run?
    ensures s.cpus[c].p < |s.procs| && RunEnabled(s, s.cpus[c].p, e) && PcIndexed(s.procs[s.cpus[c].p].pc, |s.procs|)
    ensures After(s, c, e, s.cpus[c].p).pc == NextPc(s, s.cpus[c].p, e)
  {
    hide NextPc, LockEffect, Indexed, Written;
    RunnerIs(s, c, e);
  }

  /** Another process's place changes only when it is dispatched, started or freed. */
  predicate PcKept(s: State, c: nat, e: Event, r: nat, pc: Pc)
    requires r < |s.procs| && c < |s.cpus|
  {
    var x := s.procs[r];
    || pc == x.pc
    || (s.cpus[c] == Look(r) && x.state.Runnable? && x.pc.Off? && pc == Back(x.pc.k))
    || (s.cpus[c].Run? && s.cpus[c].p < |s.procs| && e.Go? && s.procs[s.cpus[c].p].pc == ForkRun(r) && pc == Off(First))
    || (s.cpus[c].Run? && s.cpus[c].p < |s.procs| && Clears(s, s.procs[s.cpus[c].p].pc, e, r) && pc == Free)
  }

  /** The slot of process r becomes UNUSED: wait frees it, or fork gives it back. */
  predicate Clears(s: State, pc: Pc, e: Event, r: nat) {
    (e.Go? && Frees(s, pc, e, r)) || GivesBack(e, pc, r)
  }

  /** What another process's state may become. */
  predicate StateKept(s: State, c: nat, e: Event, r: nat, y: Proc)
    requires r < |s.procs| && c < |s.cpus|
  {
    var x := s.procs[r];
    || (y.state == x.state && y.chan == x.chan)
    || (s.cpus[c] == Look(r) && x.state.Runnable? && y.state.Running? && y.chan == x.chan)
    || (s.cpus[c].Run? && s.cpus[c].p < |s.procs| && (e.Go? || e.Fail?)
        && Touched(s.procs[s.cpus[c].p].pc, s.cpus[c].p) == Some(r) &&
        ((x.state.Sleeping? && y.state.Runnable? && y.chan == x.chan)
         || (e.Go? && s.procs[s.cpus[c].p].pc == ForkRun(r) && y.state.Runnable? && y.chan == x.chan)
         || (Clears(s, s.procs[s.cpus[c].p].pc, e, r) && y.state.Unused? && y.chan == NoChan)))
  }

  lemma OtherAt(s: State, c: nat, e: Event, r: nat)
    requires Steps(s, c, e) && r < |s.procs| && s.cpus[c] != Run(r)
    ensures PcKept(s, c, e, r, After(s, c, e, r).pc) && StateKept(s, c, e, r, After(s, c, e, r))
    ensures s.cpus[c].Run? && e.Go? && s.procs[s.cpus[c].p].pc == ForkRun(r) ==> After(s, c, e, r).pc == Off(First)
  {
    hide NextPc, LockEffect, Indexed;
    RunnerIs(s, c, e);
  }

  // ----- locks -----

  function StepEffect(s: State, c: nat, e: Event): Effect
    requires c < |s.cpus|
  {
    match s.cpus[c]
    case Idle(i) => Takes(i)
    case Look(i) => if i < |s.procs| && s.procs[i].state.Runnable? then Nothing else Gives(i)
    case Ret(i) => Gives(i)
    case Run(p) => if p < |s.procs| then LockEffect(s, p, e) else Nothing
  }

  lemma LockAt(s: State, c: nat, e: Event, r: nat)
    requires Steps(s, c, e) && r < |s.procs|
    ensures After(s, c, e, r).lock == WithLock(s.procs[r], r, c, StepEffect(s, c, e)).lock
    ensures StepEffect(s, c, e) == Takes(r) ==> s.procs[r].lock.None?
  {
    hide NextPc, Indexed;
    RunnerIs(s, c, e);
  }

  /** The processes named at pc are different ones. */
  predicate Distinct(pc: Pc, p: nat) {
    && (Captured(pc).Some? ==> Captured(pc).value != p)
    && (pc.RepSet? || pc.RepRel? ==> pc.i != p && pc.i != pc.op)
    && (pc.ScanTest? || pc.RepLock? || pc.ScanLock? || pc.ForkFill? || pc.ForkRun? ==> pc.i != p)
  }

  lemma Apart(s: State, p: nat)
    requires p < |s.procs| && PidsOk(s) && Kin(s, p)
    ensures Distinct(s.procs[p].pc, p)
    ensures s.procs[p].pc.RepLock? ==> s.procs[p].pc.i != s.procs[p].pc.op
  {
    hide Waits;
    var pc := s.procs[p].pc;
    if Found(pc).Some? {
      assert IsChild(s, Found(pc).value, p);
    }
  }

  predicate OwnsOk(s: State, p: nat, e: Event, q: nat)
    requires RunEnabled(s, p, e) && PcIndexed(s.procs[p].pc, |s.procs|)
  {
    var pc, f := s.procs[p].pc, LockEffect(s, p, e);
    && ((if e.Go? && pc.Swtch? then q == p else Owns(NextPc(s, p, e), p, q)) <==>
        (Owns(pc, p, q) && f != Gives(q)) || f == Takes(q))
    && (f == Gives(q) ==> Owns(pc, p, q))
  }

  lemma OwnsCall(s: State, p: nat, e: Event, q: nat)
    requires RunEnabled(s, p, e) && PcIndexed(s.procs[p].pc, |s.procs|) && ((!e.Go? && !e.Fail?) || s.procs[p].pc.At?)
    ensures OwnsOk(s, p, e, q)
  {
    hide Wants;
    if s.procs[p].pc.At? && e.Go? {
      OwnsEnter(s, p, e, q);
    } else {
      hide GoPc, LockEffect;
      assert LockEffect(s, p, e) == Nothing by { NoLock(s, p, e); }
    }
  }

  lemma NoLock(s: State, p: nat, e: Event)
    requires p < |s.procs| && !e.Go? && !e.Fail?
    ensures LockEffect(s, p, e) == Nothing
  {
  }

  lemma OwnsEnter(s: State, p: nat, e: Event, q: nat)
    requires RunEnabled(s, p, e) && PcIndexed(s.procs[p].pc, |s.procs|) && e.Go? && s.procs[p].pc.At?
    ensures OwnsOk(s, p, e, q)
  {
  }

  predicate InExit(pc: Pc) {
    pc.ExitOwn? || pc.Rep? || pc.RepLock? || pc.RepSet? || pc.RepRel? || pc.ExitWake? || pc.ExitZombie?
  }

  predicate InWait(pc: Pc) { pc.Scan? || pc.ScanLock? || pc.ScanTest? || pc.WaitRel? }

  lemma OwnsExit(s: State, p: nat, e: Event, q: nat)
    requires RunEnabled(s, p, e) && PcIndexed(s.procs[p].pc, |s.procs|) && Distinct(s.procs[p].pc, p)
    requires e.Go? && InExit(s.procs[p].pc)
    ensures OwnsOk(s, p, e, q)
  {
    hide CallPc, EnterPc, ResumePc, PcIndexed;
  }

  lemma OwnsWait(s: State, p: nat, e: Event, q: nat)
    requires RunEnabled(s, p, e) && PcIndexed(s.procs[p].pc, |s.procs|) && Distinct(s.procs[p].pc, p)
    requires (e.Go? || e.Fail?) && InWait(s.procs[p].pc)
    ensures OwnsOk(s, p, e, q)
  {
    hide CallPc, EnterPc, ResumePc, Captured, PointIndexed, ContIndexed;
  }

  lemma OwnsRest(s: State, p: nat, e: Event, q: nat)
    requires RunEnabled(s, p, e) && PcIndexed(s.procs[p].pc, |s.procs|)
    requires (e.Go? || e.Fail?) && !s.procs[p].pc.At? && !InExit(s.procs[p].pc) && !InWait(s.procs[p].pc)
    ensures OwnsOk(s, p, e, q)
  {
    hide CallPc, EnterPc, GivesUp, PointIndexed, ContIndexed;
  }

  /** The program counter says which locks are held, before and after each step. */
  lemma OwnsNext(s: State, p: nat, e: Event, q: nat)
    requires RunEnabled(s, p, e) && PcIndexed(s.procs[p].pc, |s.procs|) && Distinct(s.procs[p].pc, p)
    ensures OwnsOk(s, p, e, q)
  {
    hide GoPc, LockEffect, Owns, PcIndexed, OwnsOk, Distinct, CallPc;
    var pc := s.procs[p].pc;
    if pc.At? || (!e.Go? && !e.Fail?) {
      OwnsCall(s, p, e, q);
    } else if InExit(pc) {
      OwnsExit(s, p, e, q);
    } else if InWait(pc) {
      OwnsWait(s, p, e, q);
    } else {
      OwnsRest(s, p, e, q);
    }
  }

  /** No process holds its own lock while another CPU holds it. */
  lemma NotOwnLock(s: State, c: nat, r: nat)
    requires ModesOk(s) && LocksOk(s) && Holds(s, c, r) && r < |s.procs| && !RunsOn(s, r, c)
    ensures !(OnPc(s.procs[r].pc) && Owns(s.procs[r].pc, r, r))
  {
    if OnPc(s.procs[r].pc) && Owns(s.procs[r].pc, r, r) {
      assert Somewhere(s, r);
      var d :| RunsOn(s, r, d);
      assert Holds(s, d, r);
    }
  }

  /** The hand-off: a RUNNABLE process whose lock the scheduler holds has left its CPU. */
  lemma DispatchOff(s: State, c: nat, i: nat)
    requires ModesOk(s) && LocksOk(s) && i < |s.procs| && FieldsOk(i, s.procs[i]) && c < |s.cpus|
    requires s.cpus[c] == Look(i) && s.procs[i].state.Runnable?
    ensures s.procs[i].pc.Off? && !s.procs[i].pc.k.Dead?
  {
    NotOwnLock(s, c, i);
  }

  lemma Dispatched(s: State, c: nat, e: Event, i: nat)
    requires Inv(s) && Steps(s, c, e) && i < |s.procs| && s.cpus[c] == Look(i) && s.procs[i].state.Runnable?
    ensures s.procs[i].pc.Off? && !s.procs[i].pc.k.Dead? && Step(s, c, e).procs[i].pc == Back(s.procs[i].pc.k)
        && Step(s, c, e).procs[i].state.Running?
  {
    hide Indexed, Step, InitOk, PidsOk, ParentsOk, WaitOk, Kin, LocksOk, ModesOk;
    StepAt(s, c, e);
    DispatchOff(s, c, i);
  }

  lemma HoldsNext(s: State, c: nat, e: Event, q: nat)
    requires Inv(s) && Steps(s, c, e)
    requires q < |s.procs|
    ensures var t, f := Step(s, c, e), StepEffect(s, c, e);
            && (Holds(t, c, q) <==> (Holds(s, c, q) && f != Gives(q)) || f == Takes(q))
            && (f == Gives(q) ==> Holds(s, c, q))
  {
    hide NextPc, LockEffect, Indexed, PcIndexed, RunEnabled, Step, After, Kin, PidsOk, Distinct, FieldsOk, LocksOk,
        ModesOk, InitOk, ParentsOk, WaitOk;
    RunnerIs(s, c, e);
    StepAt(s, c, e);
    if s.cpus[c].Run? {
      SelfPc(s, c, e);
      Apart(s, s.cpus[c].p);
      OwnsNext(s, s.cpus[c].p, e, q);
    } else if s.cpus[c].Look? && s.procs[s.cpus[c].i].state.Runnable? {
      Dispatched(s, c, e, s.cpus[c].i);
    }
  }

  /** A process writes another one's fields only with its lock. */
  lemma TouchedOwned(pc: Pc, p: nat, r: nat)
    requires Touched(pc, p) == Some(r) && r != p
    ensures Owns(pc, p, r)
  {
  }

  /** A process on another CPU stays where it is. */
  lemma OthersStay(s: State, c: nat, e: Event, r: nat, d: nat)
    requires Inv(s) && Steps(s, c, e) && RunsOn(s, r, d) && d != c && r < |s.procs|
    ensures Step(s, c, e).procs[r].pc == s.procs[r].pc
  {
    hide NextPc, LockEffect, Indexed, PcIndexed, RunEnabled, Step, After, PidsOk, Distinct, InitOk, ParentsOk, WaitOk,
        LocksOk, Captured, Owns, Waits;
    RunnerIs(s, c, e);
    StepAt(s, c, e);
    assert !RunsOn(s, r, c);
    OtherAt(s, c, e, r);
    if s.cpus[c].Run? {
      var p := s.cpus[c].p;
      assert Kin(s, p);
      if Clears(s, s.procs[p].pc, e, r) && !s.procs[p].pc.ForkFill? {
        FreedIsOff(s, c, p, r);
      }
    }
  }

  /** The zombie that wait finds is not on any CPU. */
  lemma FreedIsOff(s: State, c: nat, p: nat, r: nat)
    requires Inv(s) && RunsOn(s, p, c) && p < |s.procs| && s.procs[p].pc.ScanTest? && s.procs[p].pc.i == r
        && r < |s.procs| && s.procs[r].state.Zombie?
    ensures s.procs[r].pc == Off(Dead) && r != p
  {
    hide Indexed, InitOk, ParentsOk, WaitOk, LocksOk, ModesOk, Kin, PidsOk, Distinct;
    Apart(s, p);
    assert r != p by { assert Distinct(s.procs[p].pc, p); DistinctTest(s.procs[p].pc, p); }
    assert Holds(s, c, r);
    NotOwnLock(s, c, r);
    assert FieldsOk(r, s.procs[r]);
  }

  lemma DistinctTest(pc: Pc, p: nat)
    requires Distinct(pc, p)
    ensures pc.ScanTest? ==> pc.i != p
  {
  }

  lemma StepKeepsLocks(s: State, c: nat, e: Event)
    requires Inv(s) && Steps(s, c, e)
    ensures LocksOk(Step(s, c, e))
  {
    hide NextPc, Indexed, Step, After, PidsOk, InitOk, ParentsOk, WaitOk, Kin, FieldsOk, StepEffect, ModesOk, Owns;
    var t := Step(s, c, e);
    RunnerIs(s, c, e);
    StepAt(s, c, e);
    forall q, d: nat | 0 <= q < |t.procs|
      ensures t.procs[q].lock == Some(d) <==> Holds(t, d, q)
    {
      LockAt(s, c, e, q);
      HoldsNext(s, c, e, q);
      assert s.procs[q].lock == Some(d) <==> Holds(s, d, q);
      assert s.procs[q].lock == Some(c) <==> Holds(s, c, q);
      if d != c {
        if d < |s.cpus| && s.cpus[d].Run? {
          ModeIn(s, d);
          OthersStay(s, c, e, s.cpus[d].p, d);
        }
        assert Holds(t, d, q) <==> Holds(s, d, q);
      }
    }
  }

  lemma ModeIn(s: State, d: nat)
    requires Indexed(s) && d < |s.cpus|
    ensures ModeIndexed(s.cpus[d], |s.procs|)
  {
  }

  // ----- which CPU runs whom -----

  lemma StepKeepsModes(s: State, c: nat, e: Event)
    requires Inv(s) && Steps(s, c, e)
    ensures ModesOk(Step(s, c, e))
  {
    hide NextPc, Indexed, Step, After, PidsOk, InitOk, ParentsOk, WaitOk, Kin, FieldsOk, LocksOk, Owns, RunEnabled;
    var t := Step(s, c, e);
    RunnerIs(s, c, e);
    StepAt(s, c, e);
    forall p: nat, d: nat | 0 <= p < |s.procs| && RunsOn(t, p, d)
      ensures OnPc(t.procs[p].pc) && if d == c && s.cpus[c].Look? then s.cpus[c] == Look(p) && s.procs[p].pc.Off?
          else RunsOn(s, p, d)
    {
      if d != c {
        OthersStay(s, c, e, p, d);
      } else if s.cpus[c].Look? {
        Dispatched(s, c, e, p);
      } else {
        SelfPc(s, c, e);
        SelfOn(s, p, e);
      }
    }
    forall p | 0 <= p < |s.procs| && OnPc(t.procs[p].pc)
      ensures Somewhere(t, p)
    {
      StaysOn(s, c, e, p);
    }
    forall p: nat, d, d' | RunsOn(t, p, d) && RunsOn(t, p, d')
      ensures d == d'
    {
      ModeNext(s, c, e, p, d);
    }
  }

  lemma ModeNext(s: State, c: nat, e: Event, p: nat, d: nat)
    requires Indexed(s) && Enabled(s, c, e) && RunsOn(Step(s, c, e), p, d)
    ensures p < |s.procs|
  {
    hide After;
    ModeIn(s, d);
  }

  lemma SelfOn(s: State, p: nat, e: Event)
    requires RunEnabled(s, p, e) && PcIndexed(s.procs[p].pc, |s.procs|)
    ensures OnPc(NextPc(s, p, e)) <==> !(e.Go? && s.procs[p].pc.Swtch?)
  {
  }

  lemma StaysOn(s: State, c: nat, e: Event, p: nat)
    requires Inv(s) && Steps(s, c, e) && p < |s.procs| && OnPc(Step(s, c, e).procs[p].pc)
    ensures Somewhere(Step(s, c, e), p)
  {
    hide NextPc, Indexed, Step, After, PidsOk, InitOk, ParentsOk, WaitOk, Kin, FieldsOk, LocksOk, Owns, RunEnabled;
    var t := Step(s, c, e);
    RunnerIs(s, c, e);
    StepAt(s, c, e);
    if s.cpus[c] == Run(p) {
      SelfPc(s, c, e);
      SelfOn(s, p, e);
      assert RunsOn(t, p, c);
    } else {
      OtherAt(s, c, e, p);
      if OnPc(s.procs[p].pc) {
        var d :| RunsOn(s, p, d);
        assert RunsOn(t, p, d);
      } else {
        assert RunsOn(t, p, c);
      }
    }
  }

  lemma PointsIndexed(pt: Point, k: Cont, n: nat)
    requires 0 < n
    ensures PointIndexed(pt, n) ==> PcIndexed(EnterPc(pt, n), n)
    ensures ContIndexed(k, n) ==> PcIndexed(ResumePc(k), n)
  {
  }

  lemma GoIndexed(s: State, p: nat, fail: bool)
    requires p < |s.procs| && PcIndexed(s.procs[p].pc, |s.procs|) && INIT < |s.procs|
    requires (s.procs[p].pc.ExitRead? ==> s.procs[p].parent.Some?)
        && (s.procs[p].parent.Some? ==> s.procs[p].parent.value < |s.procs|)
    ensures PcIndexed(GoPc(s, p, fail), |s.procs|)
  {
    hide Matches, EnterPc, ResumePc;
    var pc := s.procs[p].pc;
    PointsIndexed(if pc.At? then pc.at else User, if pc.Back? then pc.k else First, |s.procs|);
  }

  lemma SelfIndexed(s: State, p: nat, e: Event)
    requires RunEnabled(s, p, e) && PcIndexed(s.procs[p].pc, |s.procs|) && INIT < |s.procs|
    requires s.procs[p].parent.Some? ==> s.procs[p].parent.value < |s.procs|
    ensures PcIndexed(NextPc(s, p, e), |s.procs|)
  {
    hide GoPc;
    if e.Go? || e.Fail? {
      GoIndexed(s, p, e.Fail?);
    }
  }

  lemma StepKeepsIndexed(s: State, c: nat, e: Event)
    requires Inv(s) && Steps(s, c, e)
    ensures Indexed(Step(s, c, e))
  {
    hide NextPc, Step, After, PidsOk, InitOk, ParentsOk, WaitOk, Kin, FieldsOk, LocksOk, ModesOk, RunEnabled, PcIndexed;
    var t := Step(s, c, e);
    RunnerIs(s, c, e);
    StepAt(s, c, e);
    forall r | 0 <= r < |s.procs|
      ensures PcIndexed(t.procs[r].pc, |s.procs|) && (t.procs[r].parent.Some? ==> t.procs[r].parent.value < |s.procs|)
    {
      TreeAt(s, c, e, r);
      if s.cpus[c] == Run(r) {
        SelfPc(s, c, e);
        SelfIndexed(s, r, e);
      } else {
        OtherAt(s, c, e, r);
        KeptIndexed(s, c, e, r, t.procs[r].pc);
      }
    }
  }

  lemma KeptIndexed(s: State, c: nat, e: Event, r: nat, pc: Pc)
    requires r < |s.procs| && c < |s.cpus| && PcIndexed(s.procs[r].pc, |s.procs|) && PcKept(s, c, e, r, pc)
    ensures PcIndexed(pc, |s.procs|)
  {
  }

  /** The steps that change the state or the channel of the process that takes them. */
  predicate OwnWrite(pc: Pc) { pc.YieldSet? || pc.Back? || pc.SleepSet? || pc.ExitZombie? || pc.Scan? }

  lemma SelfSame(s: State, c: nat, p: nat, e: Event)
    requires RunEnabled(s, p, e) && PcIndexed(s.procs[p].pc, |s.procs|) && Distinct(s.procs[p].pc, p)
        && FieldsOk(p, s.procs[p])
    requires !((e.Go? || e.Fail?) && OwnWrite(s.procs[p].pc))
    ensures RunAfter(s, c, p, e, p).state == s.procs[p].state && RunAfter(s, c, p, e, p).chan == s.procs[p].chan
  {
    hide LockEffect, Owns, NextPc, PcIndexed;
  }

  lemma SelfSamePc(s: State, p: nat, e: Event)
    requires RunEnabled(s, p, e) && PcIndexed(s.procs[p].pc, |s.procs|) && FieldsOk(p, s.procs[p])
    requires !((e.Go? || e.Fail?) && OwnWrite(s.procs[p].pc))
    ensures FieldsOk(p, s.procs[p].(pc := NextPc(s, p, e)))
  {
    hide LockEffect, Owns, PcIndexed;
  }

  lemma SelfFields(s: State, c: nat, p: nat, e: Event)
    requires RunEnabled(s, p, e) && PcIndexed(s.procs[p].pc, |s.procs|) && Distinct(s.procs[p].pc, p)
        && FieldsOk(p, s.procs[p])
    ensures FieldsOk(p, RunAfter(s, c, p, e, p))
  {
    hide LockEffect, Owns, Distinct;
    if (e.Go? || e.Fail?) && OwnWrite(s.procs[p].pc) {
    } else {
      hide RunAfter, NextPc;
      SelfSame(s, c, p, e);
      SelfSamePc(s, p, e);
      SelfNext(s, c, p, e);
    }
  }

  lemma SelfNext(s: State, c: nat, p: nat, e: Event)
    requires RunEnabled(s, p, e) && PcIndexed(s.procs[p].pc, |s.procs|)
    ensures RunAfter(s, c, p, e, p).pc == NextPc(s, p, e)
  {
    hide LockEffect, NextPc, Written, RunEnabled;
  }

  lemma OtherFields(s: State, c: nat, e: Event, r: nat)
    requires Inv(s) && Steps(s, c, e) && r < |s.procs| && s.cpus[c] != Run(r)
    ensures FieldsOk(r, Step(s, c, e).procs[r])
  {
    hide NextPc, Indexed, Step, After, PidsOk, InitOk, ParentsOk, WaitOk, Kin, LocksOk, ModesOk, RunEnabled,
        LockEffect, PcIndexed, Captured;
    RunnerIs(s, c, e);
    StepAt(s, c, e);
    OtherAt(s, c, e, r);
    assert FieldsOk(r, s.procs[r]);
    if s.cpus[c].Run? {
      var p := s.cpus[c].p;
      assert Kin(s, p);
      if Touched(s.procs[p].pc, p) == Some(r) {
        TouchedOwned(s.procs[p].pc, p, r);
        assert Holds(s, c, r);
        NotOwnLock(s, c, r);
        SlotFree(s, c, e, r);
      }
    } else if s.cpus[c] == Look(r) && s.procs[r].state.Runnable? {
      Dispatched(s, c, e, r);
    }
  }

  lemma SlotFree(s: State, c: nat, e: Event, r: nat)
    requires Inv(s) && Steps(s, c, e) && r < |s.procs| && s.cpus[c].Run?
    ensures var pc := s.procs[s.cpus[c].p].pc; pc == ForkRun(r) || pc == ForkFill(r) ==> s.procs[r].pc.Free?
    ensures var pc := s.procs[s.cpus[c].p].pc; e.Go? && pc == ForkRun(r) ==>
        After(s, c, e, r).pc == Off(First) && After(s, c, e, r).state == Runnable
    ensures Clears(s, s.procs[s.cpus[c].p].pc, e, r) && s.cpus[c].p != r ==>
        After(s, c, e, r).pc == Free && After(s, c, e, r).state == Unused && After(s, c, e, r).chan == NoChan
  {
    hide NextPc, Indexed, Step, PidsOk, InitOk, ParentsOk, WaitOk, LocksOk, ModesOk, Owns, LockEffect, Captured,
        FieldsOk, Waits;
    RunnerIs(s, c, e);
    assert Kin(s, s.cpus[c].p);
  }

  lemma StepKeepsFields(s: State, c: nat, e: Event)
    requires Inv(s) && Steps(s, c, e)
    ensures forall r :: 0 <= r < |s.procs| ==> FieldsOk(r, Step(s, c, e).procs[r])
  {
    hide NextPc, Indexed, Step, RunAfter, PidsOk, InitOk, ParentsOk, WaitOk, Kin, FieldsOk, LocksOk, ModesOk,
        RunEnabled, PcIndexed, Captured;
    RunnerIs(s, c, e);
    StepAt(s, c, e);
    forall r | 0 <= r < |s.procs|
      ensures FieldsOk(r, Step(s, c, e).procs[r])
    {
      if s.cpus[c] == Run(r) {
        Apart(s, r);
        SelfFields(s, c, r, e);
      } else {
        OtherFields(s, c, e, r);
      }
    }
  }

  // ----- the family -----

  /** A slot that allocproc takes has no parent: nobody else is filling it. */
  lemma NewSlot(s: State, c: nat, p: nat, i: nat)
    requires Inv(s) && RunsOn(s, p, c) && p < |s.procs| && s.procs[p].pc == ForkTest(i) && i < |s.procs|
        && s.procs[i].state.Unused?
    ensures s.procs[i].pc.Free? && s.procs[i].parent.None? && i != p
  {
    hide Indexed, InitOk, PidsOk, WaitOk, Kin, LocksOk, ModesOk, CanHave;
    assert FieldsOk(i, s.procs[i]) && FieldsOk(p, s.procs[p]);
    if s.procs[i].parent.Some? {
      var r := s.procs[i].parent.value;
      ParentIn(s, i);
      assert IsChild(s, i, r);
      assert s.procs[r].pc == ForkRun(i);
      SameHolder(s, p, c, r, i);
      assert false;
    }
  }

  lemma ParentIn(s: State, i: nat)
    requires Indexed(s) && i < |s.procs| && s.procs[i].parent.Some?
    ensures s.procs[i].parent.value < |s.procs|
  {
  }

  /** A lock held by running processes p and r: they are the same. */
  lemma SameHolder(s: State, p: nat, c: nat, r: nat, i: nat)
    requires ModesOk(s) && LocksOk(s) && RunsOn(s, p, c) && p < |s.procs| && r < |s.procs| && i < |s.procs|
    requires Owns(s.procs[p].pc, p, i) && OnPc(s.procs[r].pc) && Owns(s.procs[r].pc, r, i)
    ensures p == r
  {
    hide Owns, OnPc;
    assert Somewhere(s, r);
    var d :| RunsOn(s, r, d);
    assert Holds(s, d, i) && Holds(s, c, i);
  }

  /** Only its parent takes a process's parent pointer from it. */
  predicate ParentWritten(s: State, c: nat, e: Event, q: nat, y: Proc)
    requires q < |s.procs| && c < |s.cpus|
  {
    var x := s.procs[q];
    y.parent == x.parent ||
    (s.cpus[c].Run? && s.cpus[c].p < |s.procs| &&
     var p := s.cpus[c].p;
     var pc := s.procs[p].pc;
     || (e.Go? && pc == ForkFill(q) && x.parent.None? && y.parent == Some(p))
     || (e.Go? && pc.RepSet? && pc.i == q && x.parent == Some(p) && y.parent == Some(INIT))
     || (e.Go? && Frees(s, pc, e, q) && x.parent == Some(p) && y.parent.None? && y.pc.Free?))
  }

  predicate PidWritten(s: State, c: nat, e: Event, q: nat, y: Proc)
    requires q < |s.procs| && c < |s.cpus|
  {
    var x := s.procs[q];
    y.pid == x.pid ||
    (s.cpus[c].Run? && s.cpus[c].p < |s.procs| &&
     var pc := s.procs[s.cpus[c].p].pc;
     || (e.Go? && pc == ForkTest(q) && x.pc.Free? && x.parent.None? && y.pid == s.nextpid)
     || (Clears(s, pc, e, q) && y.pid == 0 && y.pc.Free? && (x.parent == Some(s.cpus[c].p) || x.parent.None?)))
  }

  lemma FamilyAt(s: State, c: nat, e: Event, q: nat)
    requires Inv(s) && Steps(s, c, e) && q < |s.procs|
    ensures ParentWritten(s, c, e, q, Step(s, c, e).procs[q]) && PidWritten(s, c, e, q, Step(s, c, e).procs[q])
    ensures s.cpus[c].Run? && s.cpus[c].p < |s.procs| && e.Go? && s.procs[s.cpus[c].p].pc == ForkFill(q) ==>
        Step(s, c, e).procs[q].parent == Some(s.cpus[c].p)
    ensures s.cpus[c].Run? && s.cpus[c].p < |s.procs| && e.Go? && s.procs[s.cpus[c].p].pc.RepSet?
            && s.procs[s.cpus[c].p].pc.i == q ==>
              Step(s, c, e).procs[q].parent == Some(INIT)
    ensures s.cpus[c].Run? && s.cpus[c].p < |s.procs| && e.Go? && Frees(s, s.procs[s.cpus[c].p].pc, e, q) ==>
        Step(s, c, e).procs[q].parent.None?
  {
    hide Indexed, InitOk, PidsOk, WaitOk, LocksOk, ModesOk, CanHave, ParentsOk, Captured, Waits, Step, After,
        FieldsOk, NextPc, PcIndexed;
    StepAt(s, c, e);
    RunnerIs(s, c, e);
    TreeAt(s, c, e, q);
    if s.cpus[c].Run? {
      var p := s.cpus[c].p;
      assert Kin(s, p);
      if s.procs[p].pc == ForkTest(q) && s.procs[q].state.Unused? {
        NewSlot(s, c, p, q);
      }
      if Clears(s, s.procs[p].pc, e, q) {
        Apart(s, p);
        SlotFree(s, c, e, q);
      }
    }
  }

  /** A child stays a child, with its pid, unless its parent gives it away or frees it. */
  lemma ChildKept(s: State, c: nat, e: Event, q: nat, p: nat)
    requires Inv(s) && Steps(s, c, e) && IsChild(s, q, p)
    ensures || (IsChild(Step(s, c, e), q, p) && Step(s, c, e).procs[q].pid == s.procs[q].pid)
            || (s.cpus[c] == Run(p) && p < |s.procs| && e.Go?
                && ((s.procs[p].pc.RepSet? && s.procs[p].pc.i == q) || Frees(s, s.procs[p].pc, e, q)))
  {
    hide Indexed, InitOk, PidsOk, WaitOk, LocksOk, ModesOk, CanHave, ParentsOk, Captured, Waits, Step, After,
        FieldsOk, NextPc, PcIndexed, Kin, Inv;
    StepLength(s, c, e);
    FamilyAt(s, c, e, q);
    FillsOrphan(s, c, e, q);
  }

  lemma StepLength(s: State, c: nat, e: Event)
    requires Steps(s, c, e)
    ensures |Step(s, c, e).procs| == |s.procs| && c < |s.cpus|
  {
    hide After, NextMode;
    StepAt(s, c, e);
  }

  lemma FillsOrphan(s: State, c: nat, e: Event, q: nat)
    requires Inv(s) && Steps(s, c, e) && q < |s.procs|
    ensures s.cpus[c].Run? && s.cpus[c].p < |s.procs| && s.procs[s.cpus[c].p].pc == ForkFill(q) ==>
        s.procs[q].parent.None?
  {
    hide Indexed, InitOk, PidsOk, WaitOk, LocksOk, ModesOk, CanHave, ParentsOk, Captured, Waits, Step, After,
        FieldsOk, NextPc, PcIndexed;
    RunnerIs(s, c, e);
    if s.cpus[c].Run? {
      assert Kin(s, s.cpus[c].p);
    }
  }

  lemma ChildNew(s: State, c: nat, e: Event, q: nat, p: nat)
    requires Inv(s) && Steps(s, c, e) && IsChild(Step(s, c, e), q, p)
    ensures || IsChild(s, q, p)
            || (s.cpus[c] == Run(p) && p < |s.procs| && e.Go? && s.procs[p].pc == ForkFill(q) && q < |s.procs|)
            || (p == INIT && s.cpus[c].Run? && s.cpus[c].p < |s.procs| && s.procs[s.cpus[c].p].pc.RepSet?
                && s.procs[s.cpus[c].p].pc.i == q && IsChild(s, q, s.cpus[c].p))
  {
    hide Indexed, InitOk, PidsOk, WaitOk, LocksOk, ModesOk, CanHave, ParentsOk, Captured, Waits, Step, After,
        FieldsOk, NextPc, PcIndexed, Kin, Inv;
    StepLength(s, c, e);
    FamilyAt(s, c, e, q);
  }

  lemma NextPidAt(s: State, c: nat, e: Event)
    requires Steps(s, c, e)
    ensures c < |s.cpus| && s.nextpid <= Step(s, c, e).nextpid
    ensures s.cpus[c].Run? && e.Go? && s.cpus[c].p < |s.procs| ==>
              var pc := s.procs[s.cpus[c].p].pc;
              pc.ForkTest? && pc.i < |s.procs| && s.procs[pc.i].state.Unused? ==> s.nextpid < Step(s, c, e).nextpid
  {
    hide After, NextMode;
  }

  /** An empty slot is filled only by the fork that has made it a child. */
  lemma FreeStays(s: State, c: nat, e: Event, q: nat)
    requires Inv(s) && Steps(s, c, e) && q < |s.procs| && s.procs[q].pc.Free? && !Step(s, c, e).procs[q].pc.Free?
    ensures s.cpus[c].Run? && s.cpus[c].p < |s.procs| && e.Go? && s.procs[s.cpus[c].p].pc == ForkRun(q)
        && IsChild(s, q, s.cpus[c].p)
  {
    hide Indexed, InitOk, PidsOk, WaitOk, LocksOk, CanHave, ParentsOk, Captured, Waits, Step, After, FieldsOk, NextPc,
        PcIndexed;
    StepAt(s, c, e);
    RunnerIs(s, c, e);
    assert !RunsOn(s, q, c);
    OtherAt(s, c, e, q);
    if s.cpus[c].Run? {
      assert Kin(s, s.cpus[c].p);
    }
  }

  lemma PidBelow(s: State, c: nat, e: Event, q: nat)
    requires Inv(s) && Steps(s, c, e) && q < |s.procs|
    ensures var t := Step(s, c, e);
            && q < |t.procs| && t.procs[q].pid < t.nextpid && (t.procs[q].pid == 0 ==> t.procs[q].pc.Free?)
            && (t.procs[q].pid == s.procs[q].pid || t.procs[q].pid == 0
                || (t.procs[q].pid == s.nextpid && s.cpus[c].Run? && s.cpus[c].p < |s.procs|
                && s.procs[s.cpus[c].p].pc == ForkTest(q)))
  {
    hide Indexed, InitOk, WaitOk, LocksOk, ModesOk, CanHave, ParentsOk, Captured, Waits, Step, After, FieldsOk,
        NextPc, PcIndexed, Kin;
    StepLength(s, c, e);
    NextPidAt(s, c, e);
    FamilyAt(s, c, e, q);
    UnusedFree(s, q);
    if s.procs[q].pid == 0 && !Step(s, c, e).procs[q].pc.Free? {
      FreeStays(s, c, e, q);
    }
  }

  lemma UnusedFree(s: State, q: nat)
    requires Inv(s) && q < |s.procs|
    ensures s.procs[q].state.Unused? <==> s.procs[q].pc.Free?
  {
    hide Indexed, InitOk, WaitOk, LocksOk, ModesOk, CanHave, ParentsOk, Captured, Waits, Kin, PidsOk;
    assert FieldsOk(q, s.procs[q]);
  }

  /** A process with a child keeps its pid. */
  lemma ParentPid(s: State, c: nat, e: Event, q: nat, p: nat)
    requires Inv(s) && Steps(s, c, e) && IsChild(s, q, p) && p < |s.procs|
    ensures Step(s, c, e).procs[p].pid == s.procs[p].pid && p < |Step(s, c, e).procs|
  {
    hide Indexed, InitOk, WaitOk, LocksOk, ModesOk, PidsOk, Captured, Waits, Step, After, NextPc, PcIndexed, Kin;
    StepLength(s, c, e);
    FamilyAt(s, c, e, p);
    assert CanHave(s.procs[p].pc, q);
    if s.cpus[c].Run? {
      RunnerRuns(s, c, e);
      var r := s.cpus[c].p;
      if Frees(s, s.procs[r].pc, e, p) {
        FreedIsOff(s, c, r, p);
      }
      if s.procs[r].pc == ForkFill(p) {
        FilledFree(s, r, p);
      }
    }
  }

  lemma RunnerRuns(s: State, c: nat, e: Event)
    requires Steps(s, c, e) && s.cpus[c].Run?
    ensures s.cpus[c].p < |s.procs| && RunsOn(s, s.cpus[c].p, c)
  {
    RunnerIs(s, c, e);
  }

  lemma FilledFree(s: State, r: nat, i: nat)
    requires Inv(s) && r < |s.procs| && s.procs[r].pc == ForkFill(i) && i < |s.procs|
    ensures s.procs[i].pc.Free? && s.procs[i].parent.None? && s.procs[r].pid < s.procs[i].pid
  {
    hide Indexed, InitOk, WaitOk, LocksOk, ModesOk, PidsOk, Captured, Waits, ParentsOk, FieldsOk;
    assert Kin(s, r);
  }

  lemma StepKeepsPids(s: State, c: nat, e: Event)
    requires Inv(s) && Steps(s, c, e)
    ensures PidsOk(Step(s, c, e))
  {
    hide Indexed, WaitOk, LocksOk, ModesOk, CanHave, ParentsOk, Captured, Waits, Step, After, FieldsOk, NextPc,
        PcIndexed, Kin;
    var t := Step(s, c, e);
    StepLength(s, c, e);
    NextPidAt(s, c, e);
    forall q | 0 <= q < |t.procs|
      ensures t.procs[q].pid < t.nextpid && (t.procs[q].pid == 0 ==> t.procs[q].pc.Free?)
    {
      PidBelow(s, c, e, q);
    }
    forall q, r | 0 <= q < r < |t.procs| && t.procs[q].pid == t.procs[r].pid
      ensures t.procs[q].pid == 0
    {
      PidBelow(s, c, e, q);
      PidBelow(s, c, e, r);
    }
    forall p, q: nat | 0 <= p < |t.procs| && IsChild(t, q, p)
      ensures 0 < t.procs[p].pid < t.procs[q].pid
    {
      ChildPids(s, c, e, q, p);
    }
  }

  lemma ChildPids(s: State, c: nat, e: Event, q: nat, p: nat)
    requires Inv(s) && Steps(s, c, e) && p < |s.procs| && IsChild(Step(s, c, e), q, p)
    ensures var t := Step(s, c, e); |t.procs| == |s.procs| && q < |s.procs| && 0 < t.procs[p].pid < t.procs[q].pid
  {
    hide Indexed, WaitOk, LocksOk, ModesOk, CanHave, ParentsOk, Captured, Waits, Step, After, FieldsOk, NextPc,
        PcIndexed, Kin;
    StepLength(s, c, e);
    ChildNew(s, c, e, q, p);
    if IsChild(s, q, p) {
      ChildKept(s, c, e, q, p);
      ParentPid(s, c, e, q, p);
      FamilyAt(s, c, e, q);
      assert 0 < s.procs[p].pid < s.procs[q].pid;
    } else if s.cpus[c] == Run(p) && s.procs[p].pc == ForkFill(q) {
      FilledFree(s, p, q);
      SelfFree(s, c, p);
      FamilyAt(s, c, e, q);
      FamilyAt(s, c, e, p);
    } else {
      assert p == INIT;
      FamilyAt(s, c, e, q);
      InitKept(s, c, e);
      assert 0 < s.procs[s.cpus[c].p].pid < s.procs[q].pid;
    }
  }

  lemma SelfFree(s: State, c: nat, p: nat)
    requires Inv(s) && RunsOn(s, p, c) && p < |s.procs|
    ensures !s.procs[p].pc.Free? && s.procs[p].pid > 0
  {
    hide Indexed, WaitOk, LocksOk, CanHave, ParentsOk, Captured, Waits, FieldsOk, Kin;
  }

  lemma InitKept(s: State, c: nat, e: Event)
    requires Inv(s) && Steps(s, c, e)
    ensures var t := Step(s, c, e); INIT < |t.procs| && t.procs[INIT].pid == 1 && t.procs[INIT].parent.None?
    ensures s.cpus[c].Run? && s.cpus[c].p < |s.procs| ==> !Clears(s, s.procs[s.cpus[c].p].pc, e, INIT)
  {
    hide Indexed, WaitOk, LocksOk, ModesOk, CanHave, ParentsOk, Captured, Waits, Step, After, NextPc, PcIndexed, Kin;
    StepLength(s, c, e);
    FamilyAt(s, c, e, INIT);
    assert FieldsOk(INIT, s.procs[INIT]);
    if s.cpus[c].Run? {
      RunnerRuns(s, c, e);
      var r := s.cpus[c].p;
      if Frees(s, s.procs[r].pc, e, INIT) {
        FreedIsOff(s, c, r, INIT);
      }
      if s.procs[r].pc == ForkFill(INIT) {
        FilledFree(s, r, INIT);
      }
    }
  }

  lemma StepKeepsInit(s: State, c: nat, e: Event)
    requires Inv(s) && Steps(s, c, e)
    ensures INIT < |Step(s, c, e).procs| && InitOk(Step(s, c, e))
  {
    hide Indexed, WaitOk, LocksOk, CanHave, ParentsOk, Captured, Waits, Step, After, NextPc, PcIndexed, Kin, PidsOk,
        Exiting;
    InitKept(s, c, e);
    NextPidAt(s, c, e);
    StepAt(s, c, e);
    PidBelow(s, c, e, INIT);
    if s.cpus[c] == Run(INIT) {
      SelfPc(s, c, e);
      ExitNext(s, INIT, e);
      NextNotFree(s, INIT, e);
    } else {
      OtherAt(s, c, e, INIT);
      ExitOff(s.procs[INIT].pc);
    }
  }

  lemma ExitNext(s: State, p: nat, e: Event)
    requires RunEnabled(s, p, e) && PcIndexed(s.procs[p].pc, |s.procs|) && !Exiting(s.procs[p].pc) && p == INIT
    ensures !Exiting(NextPc(s, p, e))
  {
  }

  lemma ExitOff(pc: Pc)
    ensures pc.Off? ==> Exiting(Back(pc.k)) == Exiting(pc)
    ensures !Exiting(Off(First))
  {
  }

  lemma HaveNext(s: State, p: nat, e: Event, q: nat)
    requires RunEnabled(s, p, e) && PcIndexed(s.procs[p].pc, |s.procs|) && CanHave(s.procs[p].pc, q) && IsChild(s, q, p)
    requires !(e.Go? && s.procs[p].pc.RepSet? && s.procs[p].pc.i == q)
    ensures CanHave(NextPc(s, p, e), q)
  {
    hide PcIndexed;
  }

  /** reparent passes only processes that are not, or no longer, children. */
  lemma StepKeepsHave(s: State, c: nat, e: Event, q: nat, p: nat)
    requires Inv(s) && Steps(s, c, e) && p < |s.procs| && IsChild(Step(s, c, e), q, p)
    ensures p < |Step(s, c, e).procs| && CanHave(Step(s, c, e).procs[p].pc, q)
  {
    hide Indexed, WaitOk, LocksOk, ModesOk, CanHave, Captured, Waits, Step, After, FieldsOk, NextPc, PcIndexed, Kin,
        PidsOk, RunEnabled;
    var t := Step(s, c, e);
    StepAt(s, c, e);
    ChildNew(s, c, e, q, p);
    FamilyAt(s, c, e, q);
    if IsChild(s, q, p) {
      assert CanHave(s.procs[p].pc, q);
      if s.cpus[c] == Run(p) {
        SelfPc(s, c, e);
        if s.procs[p].pc.RepSet? {
          NotInit(s, p);
        }
        HaveNext(s, p, e, q);
      } else {
        OtherAt(s, c, e, p);
        HaveOther(s, c, e, q, p);
      }
    } else if s.cpus[c] == Run(p) {
      SelfPc(s, c, e);
      ForkNext(s, p, e, q);
    } else {
      StepKeepsInit(s, c, e);
      HaveInit(t.procs[INIT].pc, q);
    }
  }

  lemma NotInit(s: State, p: nat)
    requires Inv(s) && p < |s.procs| && s.procs[p].pc.RepSet?
    ensures p != INIT
  {
    hide Indexed, WaitOk, LocksOk, ModesOk, CanHave, Waits, FieldsOk, Kin, PidsOk, ParentsOk;
  }

  lemma ForkNext(s: State, p: nat, e: Event, q: nat)
    requires RunEnabled(s, p, e) && PcIndexed(s.procs[p].pc, |s.procs|) && e.Go? && s.procs[p].pc == ForkFill(q)
    ensures NextPc(s, p, e) == ForkRun(q) && CanHave(ForkRun(q), q)
  {
  }

  lemma HaveInit(pc: Pc, q: nat)
    requires !pc.Free? && !Exiting(pc)
    ensures CanHave(pc, q)
  {
  }

  lemma HaveOther(s: State, c: nat, e: Event, q: nat, p: nat)
    requires Inv(s) && Steps(s, c, e) && p < |s.procs| && IsChild(s, q, p) && s.cpus[c] != Run(p)
    requires CanHave(s.procs[p].pc, q)
    ensures CanHave(Step(s, c, e).procs[p].pc, q)
  {
    hide Indexed, WaitOk, LocksOk, ModesOk, ParentsOk, Captured, Waits, Step, After, NextPc, PcIndexed, Kin, PidsOk,
        RunEnabled;
    StepAt(s, c, e);
    OtherAt(s, c, e, p);
    if s.cpus[c].Run? {
      RunnerRuns(s, c, e);
      var r := s.cpus[c].p;
      if Frees(s, s.procs[r].pc, e, p) {
        FreedIsOff(s, c, r, p);
      }
      if s.procs[r].pc == ForkFill(p) {
        FilledFree(s, r, p);
      }
    } else if s.cpus[c] == Look(p) && s.procs[p].state.Runnable? {
      Dispatched(s, c, e, p);
    }
  }

  lemma StepKeepsBirth(s: State, c: nat, e: Event, q: nat, p: nat)
    requires Inv(s) && Steps(s, c, e) && p < |s.procs| && IsChild(Step(s, c, e), q, p)
    ensures var t := Step(s, c, e); |t.procs| == |s.procs| && (t.procs[q].pc.Free? ==> t.procs[p].pc == ForkRun(q))
  {
    hide Indexed, WaitOk, LocksOk, ModesOk, CanHave, Captured, Waits, Step, After, FieldsOk, NextPc, PcIndexed, Kin,
        PidsOk, RunEnabled;
    var t := Step(s, c, e);
    StepAt(s, c, e);
    if t.procs[q].pc.Free? {
      ChildNew(s, c, e, q, p);
      FamilyAt(s, c, e, q);
      BecomesFree(s, c, e, q);
      if IsChild(s, q, p) {
        if s.cpus[c] == Run(p) {
          if s.procs[q].pc.Free? {
            SelfPc(s, c, e);
            RunStays(s, c, e, p, q);
          }
        } else {
          OtherAt(s, c, e, p);
          if s.procs[q].pc.Free? {
            ForkRunOn(s, c, e, p, q);
          }
        }
      } else if s.cpus[c] == Run(p) {
        SelfPc(s, c, e);
        ForkNext(s, p, e, q);
      }
    }
  }

  lemma ForkRunOn(s: State, c: nat, e: Event, p: nat, q: nat)
    requires Inv(s) && Steps(s, c, e) && p < |s.procs| && s.cpus[c] != Run(p) && s.procs[p].pc == ForkRun(q)
    ensures Step(s, c, e).procs[p].pc == ForkRun(q)
  {
    hide Indexed, WaitOk, LocksOk, CanHave, Captured, Waits, Step, After, FieldsOk, NextPc, PcIndexed, Kin, PidsOk,
        RunEnabled, ParentsOk;
    var d :| RunsOn(s, p, d);
    OthersStay(s, c, e, p, d);
  }

  lemma RunStays(s: State, c: nat, e: Event, p: nat, q: nat)
    requires Inv(s) && Steps(s, c, e) && p < |s.procs| && s.cpus[c] == Run(p) && s.procs[p].pc == ForkRun(q)
        && q < |s.procs|
    ensures Step(s, c, e).procs[q].pc == Off(First)
  {
    hide Indexed, WaitOk, LocksOk, CanHave, Captured, Waits, Step, After, FieldsOk, NextPc, PcIndexed, Kin, PidsOk,
        ParentsOk, ModesOk;
    StepAt(s, c, e);
    RunnerIs(s, c, e);
    Apart(s, p);
    OtherAt(s, c, e, q);
  }

  lemma BecomesFree(s: State, c: nat, e: Event, q: nat)
    requires Inv(s) && Steps(s, c, e) && q < |s.procs| && Step(s, c, e).procs[q].pc.Free?
    ensures s.procs[q].pc.Free? || (Step(s, c, e).procs[q].parent.None?)
  {
    hide Indexed, WaitOk, LocksOk, ModesOk, CanHave, Captured, Waits, Step, After, FieldsOk, NextPc, PcIndexed, Kin,
        PidsOk, RunEnabled, ParentsOk;
    StepAt(s, c, e);
    FamilyAt(s, c, e, q);
    if s.cpus[c] == Run(q) {
      SelfPc(s, c, e);
      NextNotFree(s, q, e);
    } else {
      OtherAt(s, c, e, q);
      if s.cpus[c].Run? {
        RunnerRuns(s, c, e);
        if s.procs[s.cpus[c].p].pc == ForkFill(q) {
          FilledFree(s, s.cpus[c].p, q);
        }
      }
    }
  }

  lemma NextNotFree(s: State, p: nat, e: Event)
    requires RunEnabled(s, p, e) && PcIndexed(s.procs[p].pc, |s.procs|)
    ensures !NextPc(s, p, e).Free?
  {
  }

  lemma StepKeepsParents(s: State, c: nat, e: Event)
    requires Inv(s) && Steps(s, c, e)
    ensures ParentsOk(Step(s, c, e))
  {
    hide Indexed, WaitOk, LocksOk, ModesOk, CanHave, Captured, Waits, Step, After, FieldsOk, NextPc, PcIndexed, Kin,
        PidsOk, RunEnabled;
    var t := Step(s, c, e);
    StepLength(s, c, e);
    forall p, q: nat | 0 <= p < |t.procs| && IsChild(t, q, p)
      ensures CanHave(t.procs[p].pc, q) && (t.procs[q].pc.Free? ==> t.procs[p].pc == ForkRun(q))
    {
      StepKeepsHave(s, c, e, q, p);
      StepKeepsBirth(s, c, e, q, p);
    }
    forall q | 0 <= q < |t.procs| && !t.procs[q].pc.Free? && q != INIT
      ensures t.procs[q].parent.Some?
    {
      FamilyAt(s, c, e, q);
      if s.procs[q].pc.Free? {
        FreeStays(s, c, e, q);
        FillsOrphan(s, c, e, q);
      }
    }
  }

  // ----- what a process knows of its relatives -----

  lemma CapturedNext(s: State, p: nat, e: Event)
    requires RunEnabled(s, p, e) && PcIndexed(s.procs[p].pc, |s.procs|)
    ensures var pc' := NextPc(s, p, e);
            || Captured(pc').None? || Captured(pc') == Captured(s.procs[p].pc)
            || (s.procs[p].pc.ExitRead? && Captured(pc') == s.procs[p].parent)
  {
  }

  lemma CapturedKept(s: State, c: nat, e: Event, r: nat, pc: Pc)
    requires r < |s.procs| && c < |s.cpus| && PcKept(s, c, e, r, pc)
    ensures Captured(pc).None? || Captured(pc) == Captured(s.procs[r].pc)
  {
  }

  lemma StepKeepsCaptured(s: State, c: nat, e: Event, p: nat)
    requires Inv(s) && Steps(s, c, e) && p < |s.procs|
    ensures p < |Step(s, c, e).procs| && CapturedOk(Step(s, c, e), p)
  {
    hide Indexed, WaitOk, LocksOk, ModesOk, CanHave, Captured, Waits, Step, After, FieldsOk, NextPc, PcIndexed,
        RunEnabled, ParentsOk, Exiting, Found;
    var t := Step(s, c, e);
    StepAt(s, c, e);
    assert Kin(s, p);
    if s.cpus[c] == Run(p) {
      SelfPc(s, c, e);
      CapturedNext(s, p, e);
    } else {
      OtherAt(s, c, e, p);
      CapturedKept(s, c, e, p, t.procs[p].pc);
    }
    if Captured(t.procs[p].pc).Some? {
      var op := Captured(t.procs[p].pc).value;
      FamilyAt(s, c, e, p);
      if Captured(s.procs[p].pc).Some? {
        CapturedOn(s.procs[p].pc);
      }
      ExitReads(s.procs[p].pc);
      if s.procs[p].parent == Some(op) {
        assert IsChild(s, p, op);
        ParentIn(s, p);
        assert 0 < s.procs[op].pid < s.procs[p].pid;
        if IsChild(s, op, p) {
          NoCycle(s, p, op);
        }
      }
      if IsChild(t, op, p) {
        ChildNew(s, c, e, op, p);
      }
      NotFreed(s, c, e, p);
    }
  }

  /** No process is the parent of its own parent. */
  lemma NoCycle(s: State, p: nat, q: nat)
    requires PidsOk(s) && p < |s.procs| && q < |s.procs|
    ensures !(IsChild(s, p, q) && IsChild(s, q, p))
  {
  }

  lemma CapturedOn(pc: Pc)
    requires Captured(pc).Some?
    ensures Exiting(pc) && !pc.Free? && !pc.ForkFill?
  {
  }

  lemma ExitReads(pc: Pc)
    ensures pc.ExitRead? ==> Exiting(pc)
  {
  }

  /** A process in the middle of exit is not freed. */
  lemma NotFreed(s: State, c: nat, e: Event, p: nat)
    requires Inv(s) && Steps(s, c, e) && p < |s.procs| && (Captured(s.procs[p].pc).Some? || s.procs[p].pc.ExitRead?)
    ensures Step(s, c, e).procs[p].parent == s.procs[p].parent || Step(s, c, e).procs[p].parent == Some(INIT)
  {
    hide Indexed, WaitOk, LocksOk, ModesOk, CanHave, Waits, Step, After, NextPc, PcIndexed, ParentsOk, Exiting,
        PidsOk, FieldsOk, Kin;
    FamilyAt(s, c, e, p);
    if s.cpus[c].Run? {
      RunnerRuns(s, c, e);
      if Frees(s, s.procs[s.cpus[c].p].pc, e, p) {
        FreedIsOff(s, c, s.cpus[c].p, p);
      }
      if s.procs[s.cpus[c].p].pc == ForkFill(p) {
        FilledFree(s, s.cpus[c].p, p);
      }
    }
  }

  lemma FoundNext(s: State, p: nat, e: Event)
    requires RunEnabled(s, p, e) && PcIndexed(s.procs[p].pc, |s.procs|)
    ensures var pc, pc' := s.procs[p].pc, NextPc(s, p, e);
            && (Found(pc').None? || (Found(pc') == Found(pc) && !(e.Go? && pc.RepSet?) && !pc.ScanTest?)
                || (e.Go? && pc.ForkFill? && Found(pc') == Some(pc.i))
                || (IsChild(s, Found(pc').value, p) && !pc.RepSet? && !pc.ScanTest?))
            && (pc'.RepRel? ==> pc.RepSet? && pc'.i == pc.i && pc'.op == pc.op)
            && (pc'.ScanLock? || pc'.ScanTest? ==>
                  pc'.i < |s.procs| && ((pc.ScanLock? && pc.i == pc'.i && pc.w == pc'.w)
                      || Matches(pc'.w, s.procs[pc'.i].pid)))
            && (pc'.ForkFill? ==> e.Go? && pc == ForkTest(pc'.i) && pc'.i < |s.procs| && s.procs[pc'.i].state.Unused?)
            && (pc'.ForkRun? ==> e.Go? && pc == ForkFill(pc'.i) && pc'.i < |s.procs|)
  {
  }

  lemma WaitsNext(s: State, p: nat, e: Event)
    requires RunEnabled(s, p, e) && PcIndexed(s.procs[p].pc, |s.procs|)
    ensures var pc, w' := s.procs[p].pc, Waits(NextPc(s, p, e));
            && (w'.None? || w'.value.1.None? || (w' == Waits(pc) && !Clears(s, pc, e, w'.value.1.value))
                || (e.Go? && pc.ScanTest? && pc.i < |s.procs| && !s.procs[pc.i].state.Zombie?
                    && w'.value == (pc.w, Some(pc.i))))
            && (w'.Some? && w'.value.1.Some? ==> !pc.RepSet?)
  {
    hide Scanned;
  }

  lemma WaitsKept(s: State, c: nat, e: Event, r: nat, pc: Pc)
    requires r < |s.procs| && c < |s.cpus| && PcKept(s, c, e, r, pc)
    ensures Waits(pc).None? || Waits(pc) == Waits(s.procs[r].pc)
    ensures Found(pc).None? || pc == s.procs[r].pc
    ensures pc.RepRel? || pc.ForkFill? || pc.ForkRun? || pc.ScanLock? || pc.ScanTest? || pc.ExitZombie? ==>
        pc == s.procs[r].pc
  {
  }

  /** Held by one process, a slot is not written by another. */
  lemma SlotStays(s: State, c: nat, e: Event, p: nat, i: nat)
    requires Inv(s) && Steps(s, c, e) && p < |s.procs| && s.cpus[c] != Run(p) && i < |s.procs|
    requires s.procs[p].pc == ForkFill(i) || s.procs[p].pc == ForkRun(i)
    ensures var t := Step(s, c, e);
            |t.procs| == |s.procs| && t.procs[p].pid == s.procs[p].pid && t.procs[i].pid == s.procs[i].pid
                && t.procs[i].parent == s.procs[i].parent && t.procs[i].pc == Free
  {
    hide Indexed, WaitOk, LocksOk, ModesOk, CanHave, Waits, Step, After, NextPc, PcIndexed, ParentsOk, Exiting,
        PidsOk, Captured;
    StepAt(s, c, e);
    assert Kin(s, p);
    assert FieldsOk(p, s.procs[p]);
    FamilyAt(s, c, e, i);
    FamilyAt(s, c, e, p);
    NotRunner(s, c, e, i);
    OtherAt(s, c, e, i);
    if s.cpus[c].Run? {
      RunnerRuns(s, c, e);
      var r := s.cpus[c].p;
      if Touched(s.procs[r].pc, r) == Some(i) {
        TouchedOwned(s.procs[r].pc, r, i);
        SameHolder(s, r, c, p, i);
        assert false;
      }
      if s.procs[r].pc == ForkFill(p) {
        FilledFree(s, r, p);
      }
      if Frees(s, s.procs[r].pc, e, p) {
        FreedIsOff(s, c, r, p);
      }
    }
  }

  lemma NotRunner(s: State, c: nat, e: Event, i: nat)
    requires Inv(s) && Steps(s, c, e) && i < |s.procs| && s.procs[i].pc.Free?
    ensures s.cpus[c] != Run(i)
  {
    hide Indexed, WaitOk, LocksOk, CanHave, Waits, Step, After, NextPc, PcIndexed, ParentsOk, Exiting, PidsOk,
        Captured, Kin, FieldsOk;
    assert !RunsOn(s, i, c);
  }

  lemma KinOther(s: State, c: nat, e: Event, p: nat)
    requires Inv(s) && Steps(s, c, e) && p < |s.procs| && s.cpus[c] != Run(p)
    ensures |Step(s, c, e).procs| == |s.procs| && KinRest(Step(s, c, e), p)
  {
    hide Indexed, WaitOk, LocksOk, ModesOk, CanHave, Waits, Step, After, FieldsOk, NextPc, PcIndexed, RunEnabled,
        ParentsOk, Exiting, Found, Captured, PidsOk;
    var t := Step(s, c, e);
    StepAt(s, c, e);
    assert Kin(s, p);
    OtherAt(s, c, e, p);
    WaitsKept(s, c, e, p, t.procs[p].pc);
    var pc := t.procs[p].pc;
    FoundIs(pc);
    if Found(pc).Some? {
      ChildKept(s, c, e, Found(pc).value, p);
    }
    if Waits(pc).Some? && Waits(pc).value.1.Some? {
      ChildKept(s, c, e, Waits(pc).value.1.value, p);
    }
    if pc.ForkFill? || pc.ForkRun? {
      SlotStays(s, c, e, p, pc.i);
    }
  }

  lemma FoundIs(pc: Pc)
    ensures pc.ScanLock? || pc.ScanTest? || pc.ForkRun? ==> Found(pc) == Some(pc.i)
  {
  }

  lemma KinSelf(s: State, c: nat, e: Event, p: nat)
    requires Inv(s) && Steps(s, c, e) && p < |s.procs| && s.cpus[c] == Run(p)
    ensures |Step(s, c, e).procs| == |s.procs| && KinRest(Step(s, c, e), p)
  {
    hide Indexed, WaitOk, LocksOk, ModesOk, CanHave, Waits, Step, After, FieldsOk, NextPc, PcIndexed, RunEnabled,
        ParentsOk, Exiting, Found, Captured, PidsOk;
    var t := Step(s, c, e);
    StepAt(s, c, e);
    SelfPc(s, c, e);
    assert Kin(s, p);
    FoundNext(s, p, e);
    WaitsNext(s, p, e);
    Apart(s, p);
    var pc := t.procs[p].pc;
    FoundIs(pc);
    FoundIs(s.procs[p].pc);
    RepFound(s.procs[p].pc);
    if Found(pc).Some? {
      FamilyAt(s, c, e, Found(pc).value);
      if IsChild(s, Found(pc).value, p) {
        ChildKept(s, c, e, Found(pc).value, p);
      }
    }
    if Waits(pc).Some? && Waits(pc).value.1.Some? {
      ChildKept(s, c, e, Waits(pc).value.1.value, p);
    }
    if pc.ForkFill? {
      KinNewSlot(s, c, e, p, pc.i);
    }
    if pc.ForkRun? {
      KinFilled(s, c, e, p, pc.i);
    }
  }

  lemma RepFound(pc: Pc)
    ensures pc.RepSet? ==> Found(pc) == Some(pc.i)
  {
  }

  lemma KinNewSlot(s: State, c: nat, e: Event, p: nat, i: nat)
    requires Inv(s) && Steps(s, c, e) && p < |s.procs| && s.cpus[c] == Run(p) && e.Go?
        && s.procs[p].pc == ForkTest(i) && i < |s.procs| && s.procs[i].state.Unused?
    ensures var t := Step(s, c, e);
            |t.procs| == |s.procs| && t.procs[i].parent.None? && t.procs[i].pc.Free? && t.procs[p].pid < t.procs[i].pid
  {
    hide Indexed, WaitOk, LocksOk, ModesOk, CanHave, Waits, Step, FieldsOk, NextPc, PcIndexed, ParentsOk, Exiting,
        Captured, Kin;
    RunnerRuns(s, c, e);
    RunnerIs(s, c, e);
    StepAt(s, c, e);
    NewSlot(s, c, p, i);
    OtherAt(s, c, e, i);
    FamilyAt(s, c, e, i);
    FamilyAt(s, c, e, p);
    TreeAt(s, c, e, i);
  }

  lemma KinFilled(s: State, c: nat, e: Event, p: nat, i: nat)
    requires Inv(s) && Steps(s, c, e) && p < |s.procs| && s.cpus[c] == Run(p) && e.Go?
        && s.procs[p].pc == ForkFill(i) && i < |s.procs|
    ensures Step(s, c, e).procs[i].pc.Free? && IsChild(Step(s, c, e), i, p)
  {
    hide Indexed, WaitOk, LocksOk, ModesOk, CanHave, Waits, Step, After, FieldsOk, NextPc, PcIndexed, ParentsOk,
        Exiting, Captured, Kin, PidsOk;
    FilledFree(s, p, i);
    NotRunner(s, c, e, i);
    StepAt(s, c, e);
    OtherAt(s, c, e, i);
    FamilyAt(s, c, e, i);
  }

  lemma StepKeepsKin(s: State, c: nat, e: Event, p: nat)
    requires Inv(s) && Steps(s, c, e) && p < |s.procs|
    ensures p < |Step(s, c, e).procs| && Kin(Step(s, c, e), p)
  {
    hide Indexed, WaitOk, LocksOk, ModesOk, CanHave, Waits, Step, After, FieldsOk, NextPc, PcIndexed, RunEnabled,
        ParentsOk, Exiting, Found, Captured, PidsOk, Inv, IsChild;
    StepKeepsCaptured(s, c, e, p);
    if s.cpus[c] == Run(p) {
      KinSelf(s, c, e, p);
    } else {
      KinOther(s, c, e, p);
    }
  }

  // ----- wait misses nothing -----

  /** A process becomes ZOMBIE, or is about to, only by its own exit. */
  lemma BecomesZombie(s: State, c: nat, e: Event, q: nat)
    requires Inv(s) && Steps(s, c, e) && q < |s.procs|
    ensures var x, y := s.procs[q], Step(s, c, e).procs[q];
            && (y.state.Zombie? ==> x.state.Zombie? || (s.cpus[c] == Run(q) && e.Go? && x.pc.ExitZombie?))
            && (y.pc.ExitZombie? ==> y.pc == x.pc || (s.cpus[c] == Run(q) && e.Go? && x.pc == ExitWake(y.pc.op)))
  {
    hide Indexed, WaitOk, LocksOk, ModesOk, CanHave, Waits, Step, PcIndexed, ParentsOk, Exiting, Found, Captured,
        PidsOk, Kin, FieldsOk, RunAfter, NextPc, SchedAfter;
    StepAt(s, c, e);
    RunnerIs(s, c, e);
    if s.cpus[c] == Run(q) {
      SelfPc(s, c, e);
      ZombieNext(s, c, q, e);
    } else {
      OtherAt(s, c, e, q);
      WaitsKept(s, c, e, q, Step(s, c, e).procs[q].pc);
    }
  }

  lemma ZombieNext(s: State, c: nat, q: nat, e: Event)
    requires RunEnabled(s, q, e) && PcIndexed(s.procs[q].pc, |s.procs|)
    ensures RunAfter(s, c, q, e, q).state.Zombie? ==> s.procs[q].state.Zombie? || (e.Go? && s.procs[q].pc.ExitZombie?)
    ensures NextPc(s, q, e).ExitZombie? ==> e.Go? && s.procs[q].pc == ExitWake(NextPc(s, q, e).op)
  {
    hide LockEffect;
  }

  /** Only a process on a CPU scans, and only with its own lock. */
  lemma WaitLocked(s: State, p: nat, c: nat, q: nat)
    requires Inv(s) && p < |s.procs| && q < |s.procs| && RunsOn(s, q, c) && p != q
    requires s.procs[q].pc == ExitZombie(p) || s.procs[q].pc == ExitWake(p)
    ensures !Asleep(s.procs[p]) || s.procs[p].pc.Off?
    ensures Scanned(s.procs[p].pc) == 0
    ensures !s.procs[p].pc.Scan?
  {
    hide Indexed, WaitOk, CanHave, Waits, PcIndexed, ParentsOk, Exiting, Found, Captured, PidsOk, Kin, FieldsOk,
        LocksOk, ModesOk;
    if OnPc(s.procs[p].pc) && Owns(s.procs[p].pc, p, p) {
      SameHolder(s, q, c, p, p);
      assert false;
    }
  }

  /** exit sees to it that a parent asleep for it is awake before it is a ZOMBIE. */
  lemma WakesParent(s: State, c: nat, e: Event, p: nat, q: nat)
    requires Inv(s) && Steps(s, c, e) && p < |s.procs| && q < |s.procs| && p != q
    requires s.cpus[c] == Run(q) && e.Go? && s.procs[q].pc == ExitWake(p) && Wanted(s, p, q)
    ensures !Asleep(Step(s, c, e).procs[p])
  {
    hide Indexed, WaitOk, CanHave, PcIndexed, ParentsOk, Exiting, Found, Captured, LocksOk, ModesOk, Step, NextPc;
    StepAt(s, c, e);
    RunnerRuns(s, c, e);
    WaitLocked(s, p, c, q);
    OtherAt(s, c, e, p);
    assert FieldsOk(p, s.procs[p]);
    assert Kin(s, p);
    if Asleep(s.procs[p]) {
      var k := s.procs[p].pc.k;
      assert s.procs[p].chan == WaitChan(p, k.w, k.t);
      if k.w.Child? {
        assert IsChild(s, k.t, p) && s.procs[k.t].pid == k.w.pid == s.procs[q].pid;
        ChildPid(s, q, p);
        assert k.t == q;
      }
    }
  }

  lemma ChildPid(s: State, q: nat, p: nat)
    requires PidsOk(s) && p < |s.procs| && IsChild(s, q, p)
    ensures s.procs[q].pid > 0 && q != p
    ensures forall r: nat :: r < |s.procs| && s.procs[r].pid == s.procs[q].pid ==> r == q
  {
  }

  lemma AsleepKept(s: State, c: nat, e: Event, p: nat)
    requires Inv(s) && Steps(s, c, e) && p < |s.procs| && s.cpus[c] != Run(p)
    ensures var x, y := s.procs[p], Step(s, c, e).procs[p];
            && (Waits(y.pc).Some? ==> Waits(y.pc) == Waits(x.pc) && Scanned(y.pc) == Scanned(x.pc))
            && (Asleep(y) ==> Asleep(x))
  {
    hide Indexed, WaitOk, CanHave, PcIndexed, ParentsOk, Exiting, Found, Captured, LocksOk, ModesOk, Step, NextPc,
        Kin, FieldsOk, PidsOk, After;
    StepAt(s, c, e);
    OtherAt(s, c, e, p);
  }

  lemma WaitOther(s: State, c: nat, e: Event, p: nat, q: nat)
    requires Inv(s) && Steps(s, c, e) && p < |s.procs| && q < |s.procs| && s.cpus[c] != Run(p)
    ensures |Step(s, c, e).procs| == |s.procs| && WaitOk(Step(s, c, e), p, q)
  {
    hide Indexed, CanHave, PcIndexed, ParentsOk, Exiting, Found, Captured, Waits, LocksOk, ModesOk, Step, NextPc, Kin,
        FieldsOk, PidsOk, After, Asleep, RunEnabled;
    var t := Step(s, c, e);
    StepAt(s, c, e);
    if p != INIT && Wanted(t, p, q) {
      ChildNew(s, c, e, q, p);
      ChildKept(s, c, e, q, p);
      AsleepKept(s, c, e, p);
      assert Wanted(s, p, q) && WaitOk(s, p, q);
      BecomesZombie(s, c, e, q);
      if s.cpus[c] == Run(q) {
        RunnerRuns(s, c, e);
        ExitsTo(s, p, q);
        ChildPidOk(s, q, p);
        if s.procs[q].pc.ExitZombie? || s.procs[q].pc.ExitWake? {
          WaitLocked(s, p, c, q);
        }
        if e.Go? && s.procs[q].pc == ExitWake(p) {
          WakesParent(s, c, e, p, q);
        }
      }
    }
  }

  lemma ChildPidOk(s: State, q: nat, p: nat)
    requires Inv(s) && p < |s.procs| && IsChild(s, q, p)
    ensures q != p
  {
    hide Indexed, CanHave, PcIndexed, ParentsOk, Exiting, Found, Captured, Waits, LocksOk, ModesOk, Kin, FieldsOk,
        PidsOk;
    ChildPid(s, q, p);
  }

  /** A child that exits wakes the parent it has, unless that is initproc. */
  lemma ExitsTo(s: State, p: nat, q: nat)
    requires Inv(s) && p < |s.procs| && p != INIT && IsChild(s, q, p)
    ensures s.procs[q].pc.ExitZombie? || s.procs[q].pc.ExitWake? ==> s.procs[q].pc.op == p
  {
    hide Indexed, CanHave, PcIndexed, ParentsOk, Exiting, Found, Waits, LocksOk, ModesOk, FieldsOk, PidsOk;
    assert Kin(s, q);
  }

  lemma ScanNext(s: State, c: nat, p: nat, e: Event, q: nat)
    requires RunEnabled(s, p, e) && PcIndexed(s.procs[p].pc, |s.procs|) && Waits(NextPc(s, p, e)).Some? && q < |s.procs|
    requires IsChild(s, q, p) && Matches(Waits(NextPc(s, p, e)).value.0, s.procs[q].pid)
    ensures var pc, pc', y := s.procs[p].pc, NextPc(s, p, e), RunAfter(s, c, p, e, p);
            && (q < Scanned(pc') ==>
                  && Waits(pc).Some? && Waits(pc).value.0 == Waits(pc').value.0
                  && ((q < Scanned(pc) && (Waits(pc').value.1 == Waits(pc).value.1 || Waits(pc').value.1.Some?))
                      || (!s.procs[q].state.Zombie? && Waits(pc').value.1.Some?)))
            && (Asleep(y) ==>
                  || (Asleep(s.procs[p]) && Waits(pc) == Waits(pc'))
                  || (pc.Scan? && pc.w == Waits(pc').value.0 && q < Scanned(pc)))
  {
    hide LockEffect, EnterPc, CallPc, ContIndexed, PointIndexed;
    var pc := s.procs[p].pc;
    EnterWaits(if pc.At? then pc.at else User, |s.procs|);
    CallWaits(pc, e);
  }

  lemma EnterWaits(pt: Point, n: nat)
    ensures var pc := EnterPc(pt, n);
            !pc.Swtch? && !pc.Off? && !pc.Back? && !pc.ScanLock? && !pc.ScanTest?
            && (pc.Scan? ==> pc.i == 0)
  {
  }

  lemma CallWaits(pc: Pc, e: Event)
    requires e.Tick? ==> pc.At?
    ensures e.Go? || e.Fail? || Waits(CallPc(pc, e)).None?
  {
  }

  lemma WaitSelf(s: State, c: nat, e: Event, p: nat, q: nat)
    requires Inv(s) && Steps(s, c, e) && p < |s.procs| && q < |s.procs| && s.cpus[c] == Run(p)
    ensures |Step(s, c, e).procs| == |s.procs| && WaitOk(Step(s, c, e), p, q)
  {
    hide Indexed, CanHave, PcIndexed, ParentsOk, Exiting, Found, Captured, Waits, LocksOk, ModesOk, Step, NextPc, Kin,
        FieldsOk, PidsOk, Asleep, RunEnabled, RunAfter, Scanned;
    var t := Step(s, c, e);
    StepAt(s, c, e);
    SelfPc(s, c, e);
    if p != INIT && Wanted(t, p, q) {
      WaitNoFork(s, p, e);
      ChildNew(s, c, e, q, p);
      ChildKept(s, c, e, q, p);
      ChildPidOk(s, q, p);
      ScanNext(s, c, p, e, q);
      BecomesZombie(s, c, e, q);
      assert Wanted(s, p, q) ==> WaitOk(s, p, q);
      ScanWaits(s.procs[p].pc);
      if s.procs[q].pc == ExitZombie(p) {
        ZombieRuns(s, q);
        var d :| RunsOn(s, q, d);
        WaitLocked(s, p, d, q);
      }
    }
  }

  lemma ScanWaits(pc: Pc)
    ensures pc.Scan? ==> Waits(pc) == Some((pc.w, pc.t))
  {
  }

  lemma ZombieRuns(s: State, q: nat)
    requires Inv(s) && q < |s.procs| && s.procs[q].pc.ExitZombie?
    ensures exists d :: RunsOn(s, q, d)
  {
    hide Indexed, CanHave, PcIndexed, ParentsOk, Exiting, Found, Captured, Waits, LocksOk, Kin, FieldsOk, PidsOk;
    assert Somewhere(s, q);
  }

  lemma WaitNoFork(s: State, p: nat, e: Event)
    requires RunEnabled(s, p, e) && PcIndexed(s.procs[p].pc, |s.procs|) && Waits(NextPc(s, p, e)).Some?
    ensures !s.procs[p].pc.ForkFill? && !s.procs[p].pc.RepSet? && forall q :: !(e.Go? && Frees(s, s.procs[p].pc, e, q))
  {
  }

  lemma StepKeepsWait(s: State, c: nat, e: Event)
    requires Inv(s) && Steps(s, c, e)
    ensures var t := Step(s, c, e);
            |t.procs| == |s.procs| && forall p, q :: 0 <= p < |t.procs| && 0 <= q < |t.procs| ==> WaitOk(t, p, q)
  {
    hide Inv, Step, WaitOk, Enabled, Indexed;
    StepLength(s, c, e);
    forall p, q | 0 <= p < |s.procs| && 0 <= q < |s.procs|
      ensures WaitOk(Step(s, c, e), p, q)
    {
      if s.cpus[c] == Run(p) {
        WaitSelf(s, c, e, p, q);
      } else {
        WaitOther(s, c, e, p, q);
      }
    }
  }

  lemma StepKeepsInv(s: State, c: nat, e: Event)
    requires Inv(s) && Steps(s, c, e)
    ensures Inv(Step(s, c, e))
  {
    hide Indexed, ModesOk, LocksOk, FieldsOk, Kin, InitOk, PidsOk, ParentsOk, WaitOk, Step, Enabled;
    StepLength(s, c, e);
    StepKeepsIndexed(s, c, e);
    StepKeepsModes(s, c, e);
    StepKeepsLocks(s, c, e);
    StepKeepsFields(s, c, e);
    StepKeepsInit(s, c, e);
    StepKeepsPids(s, c, e);
    StepKeepsParents(s, c, e);
    StepKeepsWait(s, c, e);
    forall p | 0 <= p < |s.procs|
      ensures Kin(Step(s, c, e), p)
    {
      StepKeepsKin(s, c, e, p);
    }
  }

  // ----- runs -----

  /** After procinit and userinit: initproc is RUNNABLE and everything else empty. */
  ghost predicate Init(s: State) {
    && INIT < |s.procs| && s.nextpid == 2
    && s.procs[INIT] == Proc(Runnable, NoChan, None, 1, false, None, Off(First))
    && (forall p :: 0 < p < |s.procs| ==> s.procs[p] == Proc(Unused, NoChan, None, 0, false, None, Free))
    && (forall c :: 0 <= c < |s.cpus| ==> s.cpus[c] == Idle(0))
  }

  lemma InitHolds(s: State)
    requires Init(s)
    ensures Inv(s)
  {
    hide LocksOk, ModesOk, Kin, WaitOk, PidsOk, ParentsOk;
    InitLocks(s);
    InitFamily(s);
    forall p | 0 <= p < |s.procs|
      ensures FieldsOk(p, s.procs[p])
    {
    }
  }

  lemma InitLocks(s: State)
    requires Init(s)
    ensures LocksOk(s) && ModesOk(s)
  {
  }

  lemma InitFamily(s: State)
    requires Init(s)
    ensures PidsOk(s) && ParentsOk(s)
    ensures forall p :: 0 <= p < |s.procs| ==> Kin(s, p)
    ensures forall p, q :: 0 <= p < |s.procs| && 0 <= q < |s.procs| ==> WaitOk(s, p, q)
  {
    assert forall p, q: nat :: 0 <= p < |s.procs| ==> !IsChild(s, q, p);
  }

  /** A run: each state is reached from the one before by one step of one CPU. */
  ghost predicate IsRun(run: seq<State>) {
    && run != [] && Init(run[0])
    && (forall i :: 0 < i < |run| ==> Follows(run[i - 1], run[i]))
  }

  ghost predicate Follows(s: State, t: State) { exists c, e :: Steps(s, c, e) && t == Step(s, c, e) }

  function Last(run: seq<State>): State
    requires run != []
  {
    run[|run| - 1]
  }

  lemma {:induction false} RunKeepsInv(run: seq<State>)
    requires IsRun(run)
    ensures Inv(Last(run))
  {
    hide Inv, Init, Enabled, Indexed, Step;
    if |run| == 1 {
      InitHolds(run[0]);
    } else {
      RunKeepsInv(run[..|run| - 1]);
      assert Follows(run[|run| - 2], run[|run| - 1]);
      var c, e :| Steps(run[|run| - 2], c, e) && run[|run| - 1] == Step(run[|run| - 2], c, e);
      StepKeepsInv(run[|run| - 2], c, e);
    }
  }

  /**
   A process other than initproc that is asleep in wait, with its lock free, has no ZOMBIE child of the
   kind it waits for: none at all, or none with the pid that was asked for. The child it saw last is still its own.
   */
  lemma NoMissedChild(run: seq<State>, p: nat, w: Want, t: nat)
    requires IsRun(run) && p < |Last(run).procs| && p != INIT
    requires var x := Last(run).procs[p]; x.state.Sleeping? && x.pc == Off(AfterWait(w, t)) && x.lock.None?
    ensures forall q :: 0 <= q < |Last(run).procs| && Last(run).procs[q].parent == Some(p) ==>
        (w.Child? ==> Last(run).procs[q].pid == w.pid) ==> !Last(run).procs[q].state.Zombie?
    ensures t < |Last(run).procs| && Last(run).procs[t].parent == Some(p)
    ensures w.Child? ==> Last(run).procs[t].pid == w.pid
  {
    hide Indexed, ModesOk, LocksOk, FieldsOk, InitOk, PidsOk, ParentsOk, Init, Captured, Found;
    RunKeepsInv(run);
    var s := Last(run);
    assert Kin(s, p);
    forall q | 0 <= q < |s.procs| && s.procs[q].parent == Some(p) && (w.Child? ==> s.procs[q].pid == w.pid)
      ensures !s.procs[q].state.Zombie?
    {
      assert IsChild(s, q, p);
      assert WaitOk(s, p, q);
    }
  }

  /** wait returns without a child, unless killed, only when there is none, or none with the pid asked for. */
  lemma NoChildNone(run: seq<State>, p: nat, w: Want, q: nat)
    requires IsRun(run) && p < |Last(run).procs| && p != INIT
    requires Last(run).procs[p].pc == Scan(w, |Last(run).procs|, None)
    requires q < |Last(run).procs| && Last(run).procs[q].parent == Some(p)
    ensures w.Child? && Last(run).procs[q].pid != w.pid
  {
    hide Indexed, ModesOk, LocksOk, FieldsOk, InitOk, PidsOk, ParentsOk, Init, Captured, Found, Kin;
    RunKeepsInv(run);
    assert IsChild(Last(run), q, p);
    assert WaitOk(Last(run), p, q);
  }

  function PointAsked(pt: Point): Option<Want> { if pt.WaitLock? then Some(pt.w) else None }

  /** What a process inside wait or wait4pid was asked for, from the call on. */
  function Asked(pc: Pc): Option<Want> {
    match pc
    case At(pt) => PointAsked(pt)
    case YieldLock(pt) => PointAsked(pt)
    case YieldSet(pt) => PointAsked(pt)
    case Swtch(k) => ContAsked(k)
    case Off(k) => ContAsked(k)
    case Back(k) => ContAsked(k)
    case Scan(w, _, _) => Some(w)
    case ScanLock(w, _, _) => Some(w)
    case ScanTest(w, _, _) => Some(w)
    case _ => None
  }

  function ContAsked(k: Cont): Option<Want> {
    match k
    case AfterYield(pt) => PointAsked(pt)
    case AfterWait(w, _) => Some(w)
    case _ => None
  }

  /**
   A wait looks for what it was called with, and ends in one of three ways: with the pid of the ZOMBIE it found, with -1
   because that could not be copied out, or with -1 having found no child of the kind or, in wait, being killed.
   */
  lemma WaitStays(s: State, c: nat, e: Event, p: nat)
    requires Inv(s) && Steps(s, c, e) && p < |s.procs|
    ensures p < |Step(s, c, e).procs|
    ensures var x, y := s.procs[p].pc, Step(s, c, e).procs[p].pc;
            Asked(y).Some? ==>
              Asked(y) == Asked(x) || (s.cpus[c] == Run(p) && x == At(User) && e.CallWait? && Asked(y) == Some(e.w))
    ensures var x, y := s.procs[p].pc, Step(s, c, e).procs[p].pc;
            Asked(x).Some? && Asked(y).None? ==>
              s.cpus[c] == Run(p) &&
              ((x.ScanTest? && x.i < |s.procs| && s.procs[x.i].state.Zombie?
                && y == WaitRel(if e.Fail? then None else Some(s.procs[x.i].pid)))
               || (x.Scan? && x.i == |s.procs| && y == At(User)
                   && (x.t.None? || (x.w == Any(true) && s.procs[p].killed))))
  {
    hide Step, After, Enabled, LocksOk, ModesOk, InitOk, PidsOk, ParentsOk, WaitOk, Captured, Waits, LockEffect;
    hide Written;
    StepAt(s, c, e);
    RunnerIs(s, c, e);
    if s.cpus[c] == Run(p) {
      SelfPc(s, c, e);
      SelfAsked(s, p, e);
    } else {
      hide NextPc, PcIndexed;
      OtherAt(s, c, e, p);
      OtherAsked(s, c, e, p);
    }
  }

  lemma SelfAsked(s: State, p: nat, e: Event)
    requires RunEnabled(s, p, e) && PcIndexed(s.procs[p].pc, |s.procs|)
    ensures var x, y := s.procs[p].pc, NextPc(s, p, e);
            && (Asked(y).Some? ==> Asked(y) == Asked(x) || (x == At(User) && e.CallWait? && Asked(y) == Some(e.w)))
            && (Asked(x).Some? && Asked(y).None? ==>
                  (x.ScanTest? && s.procs[x.i].state.Zombie?
                   && y == WaitRel(if e.Fail? then None else Some(s.procs[x.i].pid)))
                  || (x.Scan? && x.i == |s.procs| && y == At(User)
                      && (x.t.None? || (x.w == Any(true) && s.procs[p].killed))))
  {
  }

  lemma OtherAsked(s: State, c: nat, e: Event, p: nat)
    requires Inv(s) && Steps(s, c, e) && p < |s.procs| && s.cpus[c] != Run(p)
    requires PcKept(s, c, e, p, After(s, c, e, p).pc)
    ensures Asked(After(s, c, e, p).pc) == Asked(s.procs[p].pc)
  {
    hide After, Enabled, LocksOk, InitOk, PidsOk, ParentsOk, WaitOk, Captured, Waits, LockEffect, Written, NextPc;
    hide PcIndexed;
    RunnerIs(s, c, e);
    if s.cpus[c].Run? {
      var r := s.cpus[c].p;
      assert Kin(s, r);
      assert FieldsOk(p, s.procs[p]);
    }
  }

  /** A step that frees a ZOMBIE is one of a wait for any child, or for the one with its pid, which it reports. */
  lemma ReapsTheOne(run: seq<State>, c: nat, e: Event, q: nat)
    requires IsRun(run) && Steps(Last(run), c, e) && q < |Last(run).procs| && Last(run).procs[q].state.Zombie?
    requires !Step(Last(run), c, e).procs[q].state.Zombie?
    ensures var s := Last(run);
            && s.cpus[c].Run? && s.cpus[c].p < |s.procs| && s.procs[q].parent == Some(s.cpus[c].p)
            && var x, y := s.procs[s.cpus[c].p].pc, Step(s, c, e).procs[s.cpus[c].p].pc;
            && x.ScanTest? && x.i == q && (x.w.Child? ==> s.procs[q].pid == x.w.pid)
            && y == WaitRel(Some(s.procs[q].pid))
  {
    hide Inv, Step, After, Init, Enabled, Indexed;
    RunKeepsInv(run);
    ZombieFreed(run, c, e, q);
    StepSize(Last(run), c, e);
    ReapedBy(Last(run), c, e, q);
  }

  lemma ReapedBy(s: State, c: nat, e: Event, q: nat)
    requires Inv(s) && Steps(s, c, e) && q < |s.procs| && s.procs[q].state.Zombie?
    requires s.cpus[c].Run? && s.procs[q].parent == Some(s.cpus[c].p) && q < |Step(s, c, e).procs|
    requires Step(s, c, e).procs[q].state.Unused? && s.procs[q].pc == Off(Dead)
    ensures s.cpus[c].p < |s.procs| == |Step(s, c, e).procs|
    ensures var x, y := s.procs[s.cpus[c].p].pc, Step(s, c, e).procs[s.cpus[c].p].pc;
            && x.ScanTest? && x.i == q && (x.w.Child? ==> s.procs[q].pid == x.w.pid)
            && y == WaitRel(Some(s.procs[q].pid))
  {
    hide Step, After, Enabled, LocksOk, ModesOk, InitOk, PidsOk, ParentsOk, WaitOk, Captured, Waits, LockEffect;
    hide Written;
    StepAt(s, c, e);
    RunnerIs(s, c, e);
    var p := s.cpus[c].p;
    assert Kin(s, p);
    SelfPc(s, c, e);
    DeadIsOff(s, p, q, e);
    OtherAt(s, c, e, q);
  }

  lemma StepSize(s: State, c: nat, e: Event)
    requires Steps(s, c, e)
    ensures |Step(s, c, e).procs| == |s.procs|
  {
    hide Enabled, Indexed, After;
    StepAt(s, c, e);
  }

  lemma DeadIsOff(s: State, p: nat, q: nat, e: Event)
    requires RunEnabled(s, p, e) && q < |s.procs| && s.procs[q].pc == Off(Dead)
    ensures p != q
  {
  }

  /** A ZOMBIE stays one until its current parent frees it, when no CPU is on its stack any more. */
  lemma ZombieFreed(run: seq<State>, c: nat, e: Event, q: nat)
    requires IsRun(run) && Steps(Last(run), c, e) && q < |Last(run).procs| && Last(run).procs[q].state.Zombie?
    ensures var s, t := Last(run), Step(Last(run), c, e);
            t.procs[q].state.Zombie? ||
            (t.procs[q].state.Unused? && s.cpus[c].Run? && s.procs[q].parent == Some(s.cpus[c].p)
                && s.procs[q].pc == Off(Dead) && forall d: nat :: !RunsOn(s, q, d))
  {
    RunKeepsInv(run);
    ZombieOut(Last(run), c, e, q);
  }

  lemma ZombieOut(s: State, c: nat, e: Event, q: nat)
    requires Inv(s) && Steps(s, c, e) && q < |s.procs| && s.procs[q].state.Zombie?
    ensures var t := Step(s, c, e);
            q < |t.procs| &&
            (t.procs[q].state.Zombie? ||
             (t.procs[q].state.Unused? && s.cpus[c].Run? && s.procs[q].parent == Some(s.cpus[c].p)
                 && s.procs[q].pc == Off(Dead) && forall d: nat :: !RunsOn(s, q, d)))
  {
    hide Indexed, LocksOk, InitOk, PidsOk, ParentsOk, Captured, Waits, Step, NextPc, After, PcIndexed;
    StepAt(s, c, e);
    RunnerIs(s, c, e);
    assert FieldsOk(q, s.procs[q]);
    if s.cpus[c] == Run(q) {
      SelfSame(s, c, q, e) by { Apart(s, q); }
      ZombieSelf(s, c, e, q);
    } else {
      OtherAt(s, c, e, q);
      if s.cpus[c].Run? {
        var p := s.cpus[c].p;
        assert Kin(s, p);
        RunnerRuns(s, c, e);
        if Frees(s, s.procs[p].pc, e, q) {
          FreedIsOff(s, c, p, q);
        }
      }
    }
  }

  lemma ZombieSelf(s: State, c: nat, e: Event, q: nat)
    requires Steps(s, c, e) && s.cpus[c] == Run(q) && q < |s.procs|
    ensures After(s, c, e, q) == RunAfter(s, c, q, e, q)
  {
    hide RunAfter, Indexed;
    RunnerIs(s, c, e);
  }

  /** The life of a slot: UNUSED, then live, then ZOMBIE, then UNUSED. */
  lemma LifeCycle(s: State, c: nat, e: Event, q: nat)
    requires Inv(s) && Steps(s, c, e) && q < |s.procs|
    ensures var x, y := s.procs[q].state, Step(s, c, e).procs[q].state;
            && (y.Zombie? && !x.Zombie? ==> x.Running?)
            && (x.Zombie? && !y.Zombie? ==> y.Unused?)
            && (y.Unused? && !x.Unused? ==> x.Zombie?)
            && (x.Unused? && !y.Unused? ==> y.Runnable?)
  {
    hide Indexed, LocksOk, InitOk, PidsOk, ParentsOk, Captured, Waits, Step, NextPc, After, PcIndexed, Kin, WaitOk,
        ModesOk, RunEnabled;
    StepAt(s, c, e);
    BecomesZombie(s, c, e, q);
    assert FieldsOk(q, s.procs[q]);
    StepKeepsFields(s, c, e);
    assert FieldsOk(q, Step(s, c, e).procs[q]);
    if s.procs[q].state.Zombie? {
      ZombieOut(s, c, e, q);
    }
    if s.cpus[c] == Run(q) {
      SelfPc(s, c, e);
      NextNotFree(s, q, e);
      SelfFree(s, c, q);
    } else {
      OtherAt(s, c, e, q);
      if s.cpus[c].Run? && s.cpus[c].p < |s.procs| && s.procs[s.cpus[c].p].pc == ForkFill(q) {
        FilledFree(s, s.cpus[c].p, q);
      }
    }
  }

  /** How often slot q became a ZOMBIE in a run; below, how often it was freed, and how often fork started it. */
  function Exits(run: seq<State>, q: nat): nat
    requires forall i :: 0 <= i < |run| ==> q < |run[i].procs|
  {
    if |run| < 2 then 0
    else Exits(run[..|run| - 1], q) + if run[|run| - 2].procs[q].state.Running?
        && Last(run).procs[q].state.Zombie? then 1 else 0
  }

  function Reaps(run: seq<State>, q: nat): nat
    requires forall i :: 0 <= i < |run| ==> q < |run[i].procs|
  {
    if |run| < 2 then 0
    else Reaps(run[..|run| - 1], q) + if run[|run| - 2].procs[q].state.Zombie?
        && Last(run).procs[q].state.Unused? then 1 else 0
  }

  function Forks(run: seq<State>, q: nat): nat
    requires forall i :: 0 <= i < |run| ==> q < |run[i].procs|
  {
    if |run| < 2 then 0
    else Forks(run[..|run| - 1], q) + if run[|run| - 2].procs[q].state.Unused?
        && Last(run).procs[q].state.Runnable? then 1 else 0
  }

  lemma {:induction false} RunLength(run: seq<State>, i: nat)
    requires IsRun(run) && i < |run|
    ensures |run[i].procs| == |run[0].procs|
  {
    if i > 0 {
      RunLength(run, i - 1);
      assert Follows(run[i - 1], run[i]);
      var c, e :| Steps(run[i - 1], c, e) && run[i] == Step(run[i - 1], c, e);
      StepLength(run[i - 1], c, e);
    }
  }

  /** Conservation: each fork of a slot is matched by at most one exit, and each exit by at most one reaping. */
  lemma {:induction false} EachFreedOnce(run: seq<State>, q: nat)
    requires IsRun(run) && 0 < q < |run[0].procs|
    ensures forall i :: 0 <= i < |run| ==> q < |run[i].procs|
    ensures Forks(run, q) == Reaps(run, q) + if Last(run).procs[q].state.Unused? then 0 else 1
    ensures Exits(run, q) == Reaps(run, q) + if Last(run).procs[q].state.Zombie? then 1 else 0
  {
    hide Inv, Step, Indexed, Enabled;
    forall i | 0 <= i < |run| ensures q < |run[i].procs| { RunLength(run, i); }
    if |run| > 1 {
      var before := run[..|run| - 1];
      EachFreedOnce(before, q);
      RunKeepsInv(before);
      assert Follows(run[|run| - 2], run[|run| - 1]);
      var c, e :| Steps(run[|run| - 2], c, e) && run[|run| - 1] == Step(run[|run| - 2], c, e);
      LifeCycle(run[|run| - 2], c, e, q);
    }
  }

  /** A process is RUNNING on at most one CPU, and on one. */
  lemma RunsOnOneCpu(run: seq<State>, p: nat)
    requires IsRun(run) && p < |Last(run).procs| && Last(run).procs[p].state.Running?
    ensures exists c: nat :: RunsOn(Last(run), p, c) && forall d: nat :: RunsOn(Last(run), p, d) ==> d == c
  {
    hide Indexed, LocksOk, InitOk, PidsOk, ParentsOk, Init, Kin, WaitOk;
    RunKeepsInv(run);
    assert FieldsOk(p, Last(run).procs[p]);
    assert Somewhere(Last(run), p);
  }

  /** sched's checks hold: the CPU holds p->lock, no other process lock, and p is no longer RUNNING. */
  lemma SchedHoldsOneLock(run: seq<State>, p: nat, c: nat, q: nat)
    requires IsRun(run) && p < |Last(run).procs| && RunsOn(Last(run), p, c) && Last(run).procs[p].pc.Swtch?
        && q < |Last(run).procs|
    ensures Last(run).procs[q].lock == Some(c) <==> q == p
    ensures !Last(run).procs[p].state.Running?
  {
    hide Indexed, ModesOk, InitOk, PidsOk, ParentsOk, Init, Kin, WaitOk;
    RunKeepsInv(run);
    assert FieldsOk(p, Last(run).procs[p]);
    assert Holds(Last(run), c, q) <==> q == p;
  }

  /** acquire never finds that its own CPU holds the lock already. */
  lemma AcquireNotHeld(run: seq<State>, p: nat, c: nat, q: nat)
    requires IsRun(run) && p < |Last(run).procs| && RunsOn(Last(run), p, c)
    requires Wants(Last(run).procs[p].pc, p) == Some(q) && q < |Last(run).procs|
    ensures Last(run).procs[q].lock != Some(c)
  {
    hide Indexed, ModesOk, InitOk, PidsOk, ParentsOk, Init, WaitOk, Kin, Captured;
    RunKeepsInv(run);
    Apart(Last(run), p);
    ExitOwnApart(Last(run).procs[p].pc, p);
    assert !Holds(Last(run), c, q);
  }

  lemma ExitOwnApart(pc: Pc, p: nat)
    requires Distinct(pc, p)
    ensures pc.ExitOwn? ==> pc.op != p
  {
  }

  /** An exited process has no children left, so every process but initproc has a parent that has not exited. */
  lemma ParentIsAlive(run: seq<State>, q: nat)
    requires IsRun(run) && 0 < q < |Last(run).procs| && !Last(run).procs[q].state.Unused?
    ensures var s := Last(run);
            s.procs[q].parent.Some? && s.procs[q].parent.value < |s.procs| && s.procs[q].parent.value != q
            && !s.procs[s.procs[q].parent.value].state.Unused? && !s.procs[s.procs[q].parent.value].state.Zombie?
  {
    hide Indexed, LocksOk, ModesOk, InitOk, Init, WaitOk, Kin, Captured;
    RunKeepsInv(run);
    var s := Last(run);
    UnusedFree(s, q);
    ParentIn(s, q);
    var p := s.procs[q].parent.value;
    assert IsChild(s, q, p);
    assert CanHave(s.procs[p].pc, q);
    assert FieldsOk(p, s.procs[p]);
  }
}
