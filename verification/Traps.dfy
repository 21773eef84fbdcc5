/** What a trap does to the processes as a whole: PIDs, the ready queue and who runs next. */
module TrapSpec {
  import opened Options

  /** `live` says which PID slots hold a process; `cur` is running and everyone else alive is queued. */
  datatype Procs = Procs(live: seq<bool>, free: seq<nat>, ready: seq<nat>, cur: nat)

  /**
   * What trapped, and how what the kernel does about it goes. `Call` is any system call without effect on processes;
   * `mapped` says that the pointers it gets are. None stands for an assertion that fails inside the call: the path of an
   * exec that is not mapped, or no frame or ASID left for a program, a heap or a fork.
   */
  datatype Cause =
    | Interrupt
    | TlbMiss(mapped: bool)
    | Call(mapped: bool)
    | Exit
    | Exec(loads: Option<bool>)
    | Brk(valid: Option<bool>)
    | Fork(fits: bool)
    | Fault
    | Unknown

  /** The kernel stops: an assertion fails, or it calls Halt. */
  predicate Halts(c: Cause) {
    match c
    case TlbMiss(mapped) => !mapped
    case Call(mapped) => !mapped
    case Exec(loads) => loads.None?
    case Brk(valid) => valid.None?
    case Fork(fits) => !fits
    case Fault => true
    case _ => false
  }

  predicate Kills(c: Cause) { c.Exit? || (c.Brk? && c.valid.Some? && !c.valid.value) }

  predicate Builds(c: Cause) { c.Exec? && c.loads.Some? && c.loads.value }

  predicate Alive(live: seq<bool>, i: nat) { i < |live| && live[i] }

  /** A slot is empty exactly when its index is free, and it is free only once. */
  ghost predicate Pids(p: Procs) {
    && (forall i: nat :: i < |p.live| ==> (!p.live[i] <==> i in p.free))
    && (forall i :: i in p.free ==> i < |p.live|)
    && (forall i, j :: 0 <= i < j < |p.free| ==> p.free[i] != p.free[j])
  }

  /** The queue holds exactly the live processes, less one, and each of them once. */
  ghost predicate Queued(ready: seq<nat>, live: seq<bool>, except: Option<nat>) {
    && (forall i: nat :: i in ready <==> Alive(live, i) && except != Some(i))
    && (forall i, j :: 0 <= i < j < |ready| ==> ready[i] != ready[j])
  }

  /** Between traps: PIDs are disciplined, somebody live runs, and everyone else alive waits exactly once. */
  ghost predicate Good(p: Procs) {
    Pids(p) && Alive(p.live, p.cur) && Queued(p.ready, p.live, Some(p.cur))
  }

  function ReleasePid(p: Procs, pid: nat): Procs {
    if pid >= |p.live| then p
    else if pid == |p.live| - 1 then p.(live := p.live[..pid])
    else p.(live := p.live[pid := false], free := p.free + [pid])
  }

  function NewPid(p: Procs): nat { if p.free == [] then |p.live| else p.free[|p.free| - 1] }

  function TakePid(p: Procs): Procs {
    if p.free == [] then p.(live := p.live + [true])
    else if NewPid(p) >= |p.live| then p
    else p.(live := p.live[NewPid(p) := true], free := p.free[..|p.free| - 1])
  }

  /** The next process is the front of the queue; with nobody left the system halts. */
  function Next(p: Procs): Option<Procs> {
    if p.ready == [] then None else Some(p.(cur := p.ready[0], ready := p.ready[1..]))
  }

  function Rotate(p: Procs): Option<Procs> { Next(p.(ready := p.ready + [p.cur])) }

  function Handle(p: Procs, c: Cause): Option<Procs> {
    if Halts(c) then None
    else match c
      case TlbMiss(_) => Some(p)
      case Exit => Next(ReleasePid(p, p.cur))
      case Brk(_) => if Kills(c) then Next(ReleasePid(p, p.cur)) else Rotate(p)
      case Exec(_) => Rotate(if Builds(c) then ReleasePid(TakePid(p), NewPid(p)) else p)
      case Fork(_) => Rotate(TakePid(p).(ready := p.ready + [NewPid(p)]))
      case _ => Rotate(p)
  }

  // ---- Every trap keeps the PID and queue discipline ----

  /** Dispatching the front of a queue that holds exactly the live processes. */
  lemma Dispatched(p: Procs)
    requires Pids(p) && Queued(p.ready, p.live, None) && p.ready != []
    ensures Good(Next(p).value)
  {
    var p' := Next(p).value;
    assert p.ready[0] in p.ready;
    forall i: nat ensures i in p'.ready <==> Alive(p.live, i) && i != p'.cur {
      if i in p.ready && i != p'.cur {
        var k :| 0 <= k < |p.ready| && p.ready[k] == i;
        assert p'.ready[k - 1] == i;
      }
      if i in p'.ready {
        var k :| 0 <= k < |p'.ready| && p'.ready[k] == i;
        assert p.ready[k + 1] == i;
      }
    }
  }

  lemma ReleasePids(p: Procs, pid: nat)
    requires Pids(p) && Alive(p.live, pid)
    ensures Pids(ReleasePid(p, pid))
    ensures forall i: nat :: Alive(ReleasePid(p, pid).live, i) <==> Alive(p.live, i) && i != pid
  {
    var p' := ReleasePid(p, pid);
    forall i: nat | i < |p'.live| ensures !p'.live[i] <==> i in p'.free {
      assert i != pid ==> p'.live[i] == p.live[i];
    }
  }

  lemma TakePids(p: Procs)
    requires Pids(p)
    ensures !Alive(p.live, NewPid(p)) && (p.free != [] ==> NewPid(p) < |p.live|)
    ensures Pids(TakePid(p))
    ensures forall i: nat :: Alive(TakePid(p).live, i) <==> Alive(p.live, i) || i == NewPid(p)
  {
    if p.free != [] {
      var p', pid := TakePid(p), NewPid(p);
      assert pid in p.free;
      forall i | i in p'.free ensures i in p.free && i != pid {
        var k :| 0 <= k < |p'.free| && p'.free[k] == i;
        assert p.free[k] == i;
      }
      forall i | i in p.free && i != pid ensures i in p'.free {
        var k :| 0 <= k < |p.free| && p.free[k] == i;
        assert p'.free[k] == i;
      }
    }
  }

  lemma Enqueued(ready: seq<nat>, live: seq<bool>, pid: nat, except: Option<nat>)
    requires Alive(live, pid) && pid !in ready && except != Some(pid)
    requires forall i: nat :: i in ready <==> Alive(live, i) && except != Some(i) && i != pid
    requires forall i, j :: 0 <= i < j < |ready| ==> ready[i] != ready[j]
    ensures Queued(ready + [pid], live, except)
  {}

  lemma KillGood(p: Procs)
    requires Good(p)
    ensures ReleasePid(p, p.cur).ready != [] ==> Good(Next(ReleasePid(p, p.cur)).value)
  {
    ReleasePids(p, p.cur);
    if p.ready != [] { Dispatched(ReleasePid(p, p.cur)); }
  }

  lemma ExecGood(p: Procs)
    requires Good(p)
    ensures Good(Rotate(ReleasePid(TakePid(p), NewPid(p))).value)
  {
    TakePids(p);
    ReleasePids(TakePid(p), NewPid(p));
    var q := ReleasePid(TakePid(p), NewPid(p));
    Enqueued(p.ready, q.live, p.cur, None);
    Dispatched(q.(ready := p.ready + [p.cur]));
  }

  lemma ForkGood(p: Procs)
    requires Good(p)
    ensures Good(Rotate(TakePid(p).(ready := p.ready + [NewPid(p)])).value)
  {
    TakePids(p);
    var t := TakePid(p);
    Enqueued(p.ready, t.live, NewPid(p), Some(p.cur));
    Enqueued(p.ready + [NewPid(p)], t.live, p.cur, None);
    Dispatched(t.(ready := p.ready + [NewPid(p)] + [p.cur]));
  }

  lemma RotateGood(p: Procs)
    requires Good(p)
    ensures Good(Rotate(p).value)
  {
    Enqueued(p.ready, p.live, p.cur, None);
    Dispatched(p.(ready := p.ready + [p.cur]));
  }

  /** After every trap the system has halted or the discipline holds again, so the PID dequeued is always live. */
  lemma HandleGood(p: Procs, c: Cause)
    requires Good(p) && Handle(p, c).Some?
    ensures Good(Handle(p, c).value)
  {
    if Kills(c) {
      KillGood(p);
    } else if Builds(c) {
      ExecGood(p);
    } else if c.Fork? {
      ForkGood(p);
    } else if !c.TlbMiss? {
      RotateGood(p);
    }
  }

  // ---- Who lives, who waits, who runs ----

  /** The kernel stops at the causes it cannot deal with, and when the last process goes. */
  lemma HandleStops(p: Procs, c: Cause)
    requires Good(p)
    ensures Handle(p, c).None? <==>
      || c in {TlbMiss(false), Call(false), Exec(None), Brk(None), Fork(false), Fault}
      || (c in {Exit, Brk(Some(false))} && p.ready == [])
  {}

  /** An exit and a bad brk request remove the running process and nobody else, and the front of the queue runs. */
  lemma HandleRemoves(p: Procs, c: Cause)
    requires Good(p) && c in {Exit, Brk(Some(false))} && Handle(p, c).Some?
    ensures var p' := Handle(p, c).value;
      && (forall i: nat :: Alive(p'.live, i) <==> Alive(p.live, i) && i != p.cur)
      && [p'.cur] + p'.ready == p.ready
  {
    ReleasePids(p, p.cur);
  }

  /** A miss goes back to the running process. */
  lemma HandleMiss(p: Procs)
    requires Good(p)
    ensures Handle(p, TlbMiss(true)) == Some(p)
  {}

  /** A fork adds one process, and it waits in line right before its parent, behind everyone else. */
  lemma HandleForks(p: Procs)
    requires Good(p)
    ensures var p', child := Handle(p, Fork(true)), NewPid(p);
      && p'.Some? && !Alive(p.live, child)
      && (forall i: nat :: Alive(p'.value.live, i) <==> Alive(p.live, i) || i == child)
      && [p'.value.cur] + p'.value.ready == p.ready + [child, p.cur]
  {
    TakePids(p);
    assert p.ready + [NewPid(p)] + [p.cur] == p.ready + [NewPid(p), p.cur];
  }

  /** Everything else, an exec that finds its program or not included, leaves everybody alive and puts the caller last. */
  lemma HandleRotates(p: Procs, c: Cause)
    requires Good(p)
    requires c in {Interrupt, Call(true), Exec(Some(true)), Exec(Some(false)), Brk(Some(true)), Unknown}
    ensures var p' := Handle(p, c);
      && p'.Some?
      && (forall i: nat :: Alive(p'.value.live, i) <==> Alive(p.live, i))
      && [p'.value.cur] + p'.value.ready == p.ready + [p.cur]
  {
    if c == Exec(Some(true)) {
      TakePids(p);
      ReleasePids(TakePid(p), NewPid(p));
    }
  }

  /**
   * The PID given up last is the first to be used again: the child of a fork after an exit gets the PID of the one that
   * exited, if and only if that was not the highest or there are no other PIDs to be used again.
   */
  lemma PidReused(p: Procs)
    requires Good(p) && p.ready != []
    ensures var p' := Handle(p, Exit).value;
      Handle(p', Fork(true)).Some?
      && (Alive(Handle(p', Fork(true)).value.live, p.cur) <==> p.cur + 1 < |p.live| || p.free == [])
  {
    HandleRemoves(p, Exit);
    HandleGood(p, Exit);
    HandleForks(Handle(p, Exit).value);
    if p.free != [] { assert p.free[|p.free| - 1] in p.free; }
  }

  // ---- Runs ----

  function HandleAll(p: Procs, cs: seq<Cause>): Option<Procs>
    decreases |cs|
  {
    if cs == [] then Some(p)
    else match Handle(p, cs[0])
      case None => None
      case Some(p') => HandleAll(p', cs[1..])
  }

  lemma {:induction false} RunGood(p: Procs, cs: seq<Cause>)
    requires Good(p) && HandleAll(p, cs).Some?
    ensures Good(HandleAll(p, cs).value)
    decreases |cs|
  {
    if cs != [] {
      HandleGood(p, cs[0]);
      RunGood(Handle(p, cs[0]).value, cs[1..]);
    }
  }

  function Dispatches(cs: seq<Cause>): nat {
    if cs == [] then 0 else (if cs[0].TlbMiss? then 0 else 1) + Dispatches(cs[1..])
  }

  /** A waiting process moves up by exactly one on every dispatch, whatever the trap was. */
  lemma MovesUp(p: Procs, c: Cause, k: nat)
    requires Good(p) && k < |p.ready| && Handle(p, c).Some?
    ensures var p' := Handle(p, c).value;
      if c.TlbMiss? then p' == p
      else if k == 0 then p'.cur == p.ready[0]
      else k - 1 < |p'.ready| && p'.ready[k - 1] == p.ready[k]
  {}

  /** With k processes ahead of it, a ready process does not run before the (k+1)-th dispatch. */
  lemma {:induction false} StillWaiting(p: Procs, cs: seq<Cause>, k: nat)
    requires Good(p) && k < |p.ready| && HandleAll(p, cs).Some? && Dispatches(cs) <= k
    ensures
      var p' := HandleAll(p, cs).value;
      var k' := k - Dispatches(cs);
      k' < |p'.ready| && p'.ready[k'] == p.ready[k] && p'.cur != p.ready[k]
    decreases |cs|
  {
    if cs == [] {
      assert p.ready[k] in p.ready;
    } else {
      HandleGood(p, cs[0]);
      MovesUp(p, cs[0], k);
      StillWaiting(Handle(p, cs[0]).value, cs[1..], if cs[0].TlbMiss? then k else k - 1);
    }
  }

  lemma {:induction false} HandleAppend(p: Procs, cs: seq<Cause>, c: Cause)
    ensures HandleAll(p, cs + [c]) == match HandleAll(p, cs) case None => None case Some(q) => Handle(q, c)
    ensures Dispatches(cs + [c]) == Dispatches(cs) + if c.TlbMiss? then 0 else 1
    decreases |cs|
  {
    if cs == [] {
      assert (cs + [c])[1..] == [];
    } else {
      assert (cs + [c])[1..] == cs[1..] + [c];
      HandleAppend(p, cs[1..], c);
      if Handle(p, cs[0]).Some? { HandleAppend(Handle(p, cs[0]).value, cs[1..], c); }
    }
  }

  /** Bounded waiting: whatever is forked, killed or called meanwhile, the (k+1)-th dispatch runs it. */
  lemma BoundedWaiting(p: Procs, cs: seq<Cause>, c: Cause, k: nat)
    requires Good(p) && k < |p.ready| && Dispatches(cs) == k && !c.TlbMiss? && HandleAll(p, cs + [c]).Some?
    ensures HandleAll(p, cs + [c]).value.cur == p.ready[k]
  {
    HandleAppend(p, cs, c);
    StillWaiting(p, cs, k);
    RunGood(p, cs);
    MovesUp(HandleAll(p, cs).value, c, 0);
  }
}

/** The kernel's trap handler over PCBs, guards and the ready queue, proved to do what `TrapSpec` says. */
module KernelTraps {
  import opened Options
  import opened Processes
  import opened TrapSpec
  import opened Scheduler

  // The handler's guard variables.
  const OLD_THREAD: nat := 0
  const NEW_PROC: nat := 1
  const ARGUMENT: nat := 2
  const INCOMING: nat := 3

  function LiveOf(slots: seq<Option<Addr>>): (live: seq<bool>)
    ensures |live| == |slots|
    ensures forall i :: 0 <= i < |slots| ==> live[i] == slots[i].Some?
  {
    seq(|slots|, i requires 0 <= i < |slots| => slots[i].Some?)
  }

  ghost predicate Plain(pcbs: map<Addr, Pcb>) {
    forall a :: a in pcbs && a != KERNEL ==> pcbs[a].priority == 0 && pcbs[a].state != ZOMBIE
  }

  class Kernel {
    var pcbs: map<Addr, Pcb>
    var slots: seq<Option<Addr>>
    var freePids: seq<nat>
    var guards: map<nat, Addr>
    var current: Addr
    const queue: MultiLevelQueue

    ghost function C(): Core
      reads this
    {
      Core(pcbs, slots, freePids, guards)
    }

    ghost function View(): Procs
      requires current in pcbs && queue.Valid()
      reads this, queue
    {
      Procs(LiveOf(slots), freePids, queue.levels[0], pcbs[current].pid)
    }

    /** What holds between traps: no guard outlives the handler, and the queue follows the PID discipline. */
    ghost predicate Quiet()
      reads this, queue
    {
      && Inv(C()) && guards == map[] && Plain(pcbs) && current in pcbs && current != KERNEL
      && queue.Valid() && queue.levels[1..] == [[], []]
      && Good(View())
    }

    /** Boot: the kernel's own PCB runs, and no process exists. */
    constructor ()
      ensures Inv(C()) && guards == map[] && Plain(pcbs) && pcbs.Keys == {KERNEL} && slots == []
      ensures current == KERNEL && queue.Valid() && queue.levels == [[], [], []] && fresh(queue)
    {
      pcbs := map[KERNEL := Pcb(KERNEL_PID, RUNNING, 0, 0)];
      slots, freePids, guards := [], [], map[];
      current := KERNEL;
      queue := new MultiLevelQueue();
    }

    /** The boot code's last act: the first process becomes the current one. */
    method StartFirst(a: Addr)
      requires Inv(C()) && guards == map[] && Plain(pcbs) && pcbs.Keys == {KERNEL} && slots == [] && a != KERNEL
      requires queue.Valid() && queue.levels == [[], [], []]
      modifies this
      ensures Quiet() && View() == Procs([true], [], [], 0)
    {
      FirstInstalled(C(), a);
      var pid := InstallProcess(a, BLOCKED);
      RunFirst(pid, a);
      FirstGood();
      assert LiveOf(slots) == [true];
    }

    /** The guard on the first process makes it current and goes. */
    method RunFirst(pid: nat, a: Addr)
      requires Inv(C()) && guards == map[] && pid < |slots| && slots[pid] == Some(a) && pcbs[a].state != ZOMBIE
      modifies `pcbs, `guards, `slots, `freePids, `current
      ensures C() == old(C()) && current == a
    {
      ghost var c := C();
      Index(pid, NEW_PROC);
      current := guards[NEW_PROC];
      BorrowReset(c, a, NEW_PROC);
      Reset(NEW_PROC);
    }

    method Borrow(a: Addr, g: nat)
      requires Inv(C()) && a in pcbs && g !in guards && |guards| < REFCOUNT_LIMIT
      modifies `pcbs, `guards
      ensures C() == Processes.Borrow(old(C()), a, g) && Inv(C())
    {
      BorrowInv(C(), a, g);
      pcbs := pcbs[a := pcbs[a].(refcount := pcbs[a].refcount + 1)];
      guards := guards[g := a];
    }

    method Reset(g: nat)
      requires Inv(C())
      modifies `pcbs, `guards, `slots, `freePids
      ensures C() == Processes.Reset(old(C()), g) && Inv(C())
    {
      ResetInv(C(), g);
      if g !in guards { return; }
      var a := guards[g];
      if a != KERNEL { HeldCount(C(), g); }
      guards := guards - {g};
      if a == KERNEL { return; }
      var pcb := pcbs[a].(refcount := pcbs[a].refcount - 1);
      pcbs := pcbs[a := pcb];
      if pcb.state == ZOMBIE && pcb.refcount == 0 { FreeProcess(pcb.pid); }
    }

    /** The three conditions are the source's assertion. */
    method FreeProcess(pid: nat)
      requires pid < |slots| && slots[pid].Some? && slots[pid].value in pcbs
      requires pcbs[slots[pid].value].refcount == 0 && pcbs[slots[pid].value].state == ZOMBIE
      modifies `pcbs, `slots, `freePids
      ensures C() == Processes.FreeProcess(old(C()), pid)
    {
      pcbs := pcbs - {slots[pid].value};
      if pid == |slots| - 1 {
        slots := slots[..pid];
        return;
      }
      slots := slots[pid := None];
      freePids := freePids + [pid];
    }

    method MarkForDeath(a: Addr)
      requires Inv(C()) && a in pcbs && a != KERNEL && Holders(guards, a) != {}
      modifies `pcbs
      ensures C() == Doom(old(C()), a) && Inv(C())
    {
      DoomInv(C(), a);
      pcbs := pcbs[a := pcbs[a].(state := ZOMBIE)];
    }

    method MoveGuard(from: nat, to: nat)
      requires Inv(C()) && to !in guards
      modifies `guards
      ensures C() == Move(old(C()), from, to) && Inv(C())
    {
      MoveInv(C(), from, to);
      if from in guards {
        var a := guards[from];
        guards := (guards - {from})[to := a];
      } else {
        guards := guards - {to};
      }
    }

    method AssignGuard(to: nat, from: nat)
      requires Inv(C())
      modifies `pcbs, `guards, `slots, `freePids
      ensures C() == MoveAssign(old(C()), to, from) && Inv(C())
    {
      if to == from { return; }
      ResetInv(C(), to);
      Reset(to);
      MoveGuard(from, to);
    }

    /** The slot a new process takes; the assertion that it is empty holds. */
    method InstallProcess(a: Addr, state: State) returns (pid: nat)
      requires Inv(C()) && a !in pcbs && state != ZOMBIE && |slots| + 1 < NO_PCB
      modifies `pcbs, `slots, `freePids
      ensures C() == Install(old(C()), a, state) && Inv(C()) && pid == NextPid(old(C()))
      ensures pid < |old(slots)| ==> old(slots)[pid].None?
      ensures pid < |slots| && slots[pid] == Some(a)
    {
      InstallInv(C(), a, state);
      if freePids != [] {
        pid := freePids[|freePids| - 1];
        freePids := freePids[..|freePids| - 1];
        slots := slots[pid := Some(a)];
      } else {
        pid := |slots|;
        slots := slots + [Some(a)];
      }
      pcbs := pcbs[a := Pcb(pid, state, 0, 0)];
    }

    /** operator[]: a guard on the process with this PID, or a null one. */
    method Index(pid: nat, g: nat)
      requires Inv(C()) && g !in guards && |guards| < REFCOUNT_LIMIT
      modifies `pcbs, `guards
      ensures Inv(C())
      ensures C() == if pid < |slots| && slots[pid].Some? then Processes.Borrow(old(C()), slots[pid].value, g) else old(C())
    {
      if pid >= |slots| || slots[pid].None? { return; }
      Borrow(slots[pid].value, g);
    }

    // ---- The trap handler ----

    /** exec builds a process, keeps only its page table and registers, and lets it die with its guard. */
    method ExecProcess(a: Addr)
      requires Inv(C()) && a !in pcbs && |slots| + 1 < NO_PCB && NEW_PROC !in guards && |guards| < REFCOUNT_LIMIT
      modifies `pcbs, `slots, `freePids, `guards
      ensures C() == ExecCore(old(C()), a) && Inv(C())
    {
      var pid := InstallProcess(a, BLOCKED);
      ghost var c := C();
      FreshHeld(old(C()), c, a);
      DoomReset(c, a, NEW_PROC);
      Index(pid, NEW_PROC);
      HoldersAdded(c.guards, NEW_PROC, a);
      MarkForDeath(a);
      Reset(NEW_PROC);
    }

    /** fork installs the child and queues it. */
    method ForkProcess(a: Addr)
      requires Inv(C()) && a !in pcbs && |slots| + 1 < NO_PCB && queue.Valid()
      requires NEW_PROC !in guards && ARGUMENT !in guards && |guards| + 1 < REFCOUNT_LIMIT
      modifies `pcbs, `slots, `freePids, `guards, queue
      ensures C() == Install(old(C()), a, READY) && Inv(C()) && queue.Valid()
      ensures queue.levels == old(queue.levels)[0 := old(queue.levels)[0] + [NextPid(old(C()))]]
    {
      var pid := InstallProcess(a, READY);
      ghost var c := C();
      assert a != KERNEL;
      Index(pid, NEW_PROC);
      ghost var c1 := C();
      Index(pid, ARGUMENT);
      queue.Enqueue(pcbs[a].pid, pcbs[a].priority);
      BorrowReset(c1, a, ARGUMENT);
      Reset(ARGUMENT);
      BorrowReset(c, a, NEW_PROC);
      Reset(NEW_PROC);
    }

    method Kill()
      requires Inv(C()) && OLD_THREAD in guards && guards[OLD_THREAD] != KERNEL
      modifies `pcbs, `slots, `freePids, `guards
      ensures C() == Processes.Reset(Doom(old(C()), old(guards)[OLD_THREAD]), OLD_THREAD) && Inv(C())
    {
      assert OLD_THREAD in Holders(guards, guards[OLD_THREAD]);
      MarkForDeath(guards[OLD_THREAD]);
      Reset(OLD_THREAD);
    }

    /** A surviving thread goes to the back of its queue, through a temporary guard. */
    method Requeue()
      requires Inv(C()) && OLD_THREAD in guards && guards[OLD_THREAD] != KERNEL && ARGUMENT !in guards
      requires |guards| < REFCOUNT_LIMIT && queue.Valid()
      requires pcbs[guards[OLD_THREAD]].priority == 0 && pcbs[guards[OLD_THREAD]].state != ZOMBIE
      modifies `pcbs, `slots, `freePids, `guards, queue
      ensures C() == old(C()) && queue.Valid()
      ensures queue.levels == old(queue.levels)[0 := old(queue.levels)[0] + [old(pcbs)[old(guards)[OLD_THREAD]].pid]]
    {
      var a := guards[OLD_THREAD];
      BorrowReset(C(), a, ARGUMENT);
      Borrow(a, ARGUMENT);
      queue.Enqueue(pcbs[a].pid, pcbs[a].priority);
      Reset(ARGUMENT);
    }

    /** Takes the next PID from the queue and makes its process current. */
    method DispatchNext()
      requires Inv(C()) && INCOMING !in guards && |guards| < REFCOUNT_LIMIT && Plain(pcbs)
      requires queue.Valid() && queue.levels[1..] == [[], []] && queue.levels[0] != []
      requires queue.levels[0][0] < |slots| && slots[queue.levels[0][0]].Some?
      modifies `pcbs, `slots, `freePids, `guards, `current, queue
      ensures C() == old(C()) && queue.Valid()
      ensures queue.levels == old(queue.levels)[0 := old(queue.levels)[0][1..]]
      ensures Some(current) == slots[old(queue.levels)[0][0]]
    {
      var pid := queue.Dequeue();
      ghost var c := C();
      Index(pid.value, INCOMING);
      current := guards[INCOMING];
      BorrowReset(c, current, INCOMING);
      Reset(INCOMING);
    }

    /** The handler's switch, after `current` has become the kernel: what it does to the interrupted thread `me`. */
    method Act(cause: Cause, a: Addr, ghost c0: Core, ghost me: Addr)
      requires Inv(c0) && c0.guards == map[] && Plain(c0.pcbs) && me in c0.pcbs && me != KERNEL
      requires C() == Processes.Borrow(c0, me, OLD_THREAD) && Inv(C())
      requires a !in c0.pcbs && |slots| + 1 < NO_PCB && queue.Valid()
      requires !Halts(cause)
      modifies `pcbs, `slots, `freePids, `guards, queue
      ensures Kills(cause) ==> C() == Net(c0, me, cause, a)
      ensures !Kills(cause) ==>
        me in Net(c0, me, cause, a).pcbs && C() == Processes.Borrow(Net(c0, me, cause, a), me, OLD_THREAD)
      ensures Inv(C()) && queue.Valid()
      ensures queue.levels ==
        if cause.Fork? then old(queue.levels)[0 := old(queue.levels)[0] + [NextPid(c0)]] else old(queue.levels)
    {
      if Kills(cause) {
        DoomReset(c0, me, OLD_THREAD);
        Kill();
      } else if Builds(cause) {
        ExecBorrow(c0, me, a);
        ExecProcess(a);
      } else if cause.Fork? {
        InstallBorrow(c0, me, a);
        ForkProcess(a);
      }
    }

    /**
     * One trap, from the guard on the interrupted thread to the next one running. `a` is where a new PCB would be
     * allocated. Halting covers the kernel's assertions, its Halt calls and the empty queue.
     */
    method HandleTrap(cause: Cause, a: Addr) returns (halted: bool)
      requires Quiet() && a !in pcbs && |slots| + 1 < NO_PCB
      modifies this, queue
      ensures halted <==> Handle(old(View()), cause).None?
      ensures !halted ==> Quiet() && View() == Handle(old(View()), cause).value
    {
      ghost var p0, c0, me := View(), C(), current;
      BorrowReset(c0, me, OLD_THREAD);
      Borrow(current, OLD_THREAD);
      current := KERNEL;
      if Halts(cause) { return true; }
      if cause.TlbMiss? {
        current := guards[OLD_THREAD];
        Reset(OLD_THREAD);
        return false;
      }
      halted := Serve(cause, a, c0, me, p0);
    }

    method Serve(cause: Cause, a: Addr, ghost c0: Core, ghost me: Addr, ghost p0: Procs) returns (halted: bool)
      requires Inv(c0) && c0.guards == map[] && Plain(c0.pcbs) && me in c0.pcbs && me != KERNEL
      requires C() == Processes.Borrow(c0, me, OLD_THREAD) && Inv(C())
      requires a !in c0.pcbs && |slots| + 1 < NO_PCB
      requires queue.Valid() && queue.levels[1..] == [[], []] && queue.levels[0] == p0.ready
      requires !Halts(cause) && !cause.TlbMiss?
      requires Good(p0) && p0.live == LiveOf(c0.slots) && p0.free == c0.freePids && p0.cur == c0.pcbs[me].pid
      modifies this, queue
      ensures halted <==> Handle(p0, cause).None?
      ensures !halted ==> Quiet() && View() == Handle(p0, cause).value
    {
      if Handle(p0, cause).Some? { HandleGood(p0, cause); }
      HandleIs(p0, cause);
      NetOk(c0, me, cause, a, p0);
      Act(cause, a, c0, me);
      halted := Finish(Net(c0, me, cause, a), me, cause, p0);
    }

    /** After the switch: a surviving thread is queued again, then somebody is dispatched. */
    method Finish(ghost net: Core, ghost me: Addr, ghost cause: Cause, ghost p0: Procs) returns (halted: bool)
      requires Inv(C()) && Inv(net) && net.guards == map[] && Plain(net.pcbs) && me != KERNEL
      requires if Kills(cause) then C() == net else me in net.pcbs && C() == Processes.Borrow(net, me, OLD_THREAD)
      requires me in net.pcbs ==> net.pcbs[me].pid == p0.cur
      requires queue.Valid() && queue.levels[1..] == [[], []]
      requires queue.levels[0] == if cause.Fork? then p0.ready + [NewPid(p0)] else p0.ready
      requires NetProcs(p0, cause).live == LiveOf(net.slots) && NetProcs(p0, cause).free == net.freePids
      requires Next(Leaving(p0, cause)).Some? ==> Good(Next(Leaving(p0, cause)).value)
      modifies this, queue
      ensures halted <==> Next(Leaving(p0, cause)).None?
      ensures !halted ==> Quiet() && View() == Next(Leaving(p0, cause)).value
    {
      if OLD_THREAD in guards { Requeue(); }
      halted := Switch(net, me, Leaving(p0, cause));
    }

    /** The end of the handler: halt on an empty queue, else run the next process and drop the last guard. */
    method Switch(ghost net: Core, ghost me: Addr, ghost p: Procs) returns (halted: bool)
      requires Inv(C()) && Inv(net) && net.guards == map[] && Plain(net.pcbs) && me != KERNEL
      requires C() == net || (me in net.pcbs && C() == Processes.Borrow(net, me, OLD_THREAD))
      requires queue.Valid() && queue.levels[1..] == [[], []] && queue.levels[0] == p.ready
      requires p.live == LiveOf(net.slots) && p.free == net.freePids
      requires Next(p).Some? ==> Good(Next(p).value)
      modifies this, queue
      ensures halted <==> Next(p).None?
      ensures !halted ==> Quiet() && View() == Next(p).value
    {
      Levels(queue.levels);
      if queue.size == 0 { return true; }
      if me in net.pcbs { BorrowReset(net, me, OLD_THREAD); }
      NextAlive(p);
      DispatchNext();
      Reset(OLD_THREAD);
      assert C() == net;
      return false;
    }
  }

  lemma FirstGood()
    ensures Good(Procs([true], [], [], 0))
  {}

  lemma FreeBelow(c: Core, i: nat)
    requires Inv(c) && i < |c.freePids|
    ensures c.freePids[i] < |c.slots|
  {
    assert c.freePids[i] in c.freePids;
  }

  lemma FirstInstalled(c: Core, a: Addr)
    requires Inv(c) && c.pcbs.Keys == {KERNEL} && c.slots == [] && a != KERNEL && Plain(c.pcbs)
    ensures NextPid(c) == 0 && Install(c, a, BLOCKED) == c.(pcbs := c.pcbs[a := Pcb(0, BLOCKED, 0, 0)], slots := [Some(a)])
    ensures c.freePids == [] && Plain(c.pcbs[a := Pcb(0, BLOCKED, 0, 0)])
  {
    if |c.freePids| > 0 { FreeBelow(c, 0); }
  }

  lemma HandleIs(p: Procs, cause: Cause)
    requires !cause.TlbMiss? && !Halts(cause)
    ensures Handle(p, cause) == Next(Leaving(p, cause))
  {}

  /** The state handed to the dispatcher. */
  function Leaving(p: Procs, cause: Cause): Procs {
    var n := NetProcs(p, cause);
    var queued := if cause.Fork? then p.ready + [NewPid(p)] else p.ready;
    n.(ready := if Kills(cause) then queued else queued + [p.cur])
  }

  lemma NextAlive(p: Procs)
    requires p.ready != [] && Good(Next(p).value)
    ensures Alive(p.live, p.ready[0])
  {}

  lemma Levels(levels: seq<seq<nat>>)
    requires |levels| == NUM_LEVELS && levels[1..] == [[], []]
    ensures Total(levels) == |levels[0]|
  {
    var one, two := levels[1..], levels[1..][1..];
    assert two == [[]] && two[1..] == [];
    assert Total(two) == 0 && Total(one) == 0;
  }

  /** PCBs, slots and free PIDs after the switch, leaving the handler's own guard aside. */
  ghost function Net(c: Core, me: Addr, cause: Cause, a: Addr): Core
    requires Inv(c) && me in c.pcbs && me != KERNEL && a !in c.pcbs && |c.slots| + 1 < NO_PCB
  {
    if Kills(cause) then FreeProcess(c, c.pcbs[me].pid)
    else if Builds(cause) then ExecCore(c, a)
    else if cause.Fork? then Install(c, a, READY)
    else c
  }

  /** PCBs and guards after the switch, as the rest of the handler needs them. */
  ghost predicate NetCore(c: Core, n: Core, me: Addr, killed: bool) {
    && Inv(n) && n.guards == map[] && Plain(n.pcbs) && (me in n.pcbs <==> !killed)
    && (me in n.pcbs && me in c.pcbs ==> n.pcbs[me] == c.pcbs[me])
  }

  lemma NetKill(c: Core, me: Addr)
    requires Inv(c) && c.guards == map[] && Plain(c.pcbs) && me in c.pcbs && me != KERNEL
    ensures NetCore(c, FreeProcess(c, c.pcbs[me].pid), me, true)
  {
    forall b | b in c.pcbs && b != KERNEL ensures Counted(c, b) {}
    FreeProcessInv(c, c.pcbs[me].pid);
  }

  lemma NetFork(c: Core, me: Addr, a: Addr)
    requires Inv(c) && c.guards == map[] && Plain(c.pcbs) && me in c.pcbs && a !in c.pcbs && |c.slots| + 1 < NO_PCB
    ensures NetCore(c, Install(c, a, READY), me, false)
  {
    InstallInv(c, a, READY);
  }

  lemma NetOk(c: Core, me: Addr, cause: Cause, a: Addr, p: Procs)
    requires Inv(c) && c.guards == map[] && Plain(c.pcbs) && me in c.pcbs && me != KERNEL
    requires a !in c.pcbs && |c.slots| + 1 < NO_PCB
    requires p.live == LiveOf(c.slots) && p.free == c.freePids && p.cur == c.pcbs[me].pid
    ensures
      var n := Net(c, me, cause, a);
      && NetCore(c, n, me, Kills(cause))
      && LiveOf(n.slots) == NetProcs(p, cause).live && n.freePids == NetProcs(p, cause).free
      && NewPid(p) == NextPid(c)
  {
    if Kills(cause) {
      NetKill(c, me);
      ReleaseView(c, c.pcbs[me].pid, p);
    } else if Builds(cause) {
      ExecKeeps(c, a);
      ExecView(c, a, p);
    } else if cause.Fork? {
      NetFork(c, me, a);
      InstallView(c, a, READY, p);
    }
  }

  /** The same on the level of PIDs. */
  function NetProcs(p: Procs, cause: Cause): Procs {
    if Kills(cause) then ReleasePid(p, p.cur)
    else if Builds(cause) then ReleasePid(TakePid(p), NewPid(p))
    else if cause.Fork? then TakePid(p)
    else p
  }

  /** What exec leaves behind once the process it built has died. */
  ghost function ExecCore(c: Core, a: Addr): Core
    requires Inv(c) && a !in c.pcbs && |c.slots| + 1 < NO_PCB
  {
    InstallInv(c, a, BLOCKED);
    FreeProcess(Install(c, a, BLOCKED), NextPid(c))
  }

  lemma FreshHeld(c: Core, c': Core, a: Addr)
    requires Inv(c) && a !in c.pcbs && c'.guards == c.guards
    ensures Holders(c'.guards, a) == {} && a != KERNEL
  {}

  lemma ReleaseView(c: Core, pid: nat, p: Procs)
    requires pid < |c.slots| && c.slots[pid].Some? && p.live == LiveOf(c.slots) && p.free == c.freePids
    ensures
      var c', p' := FreeProcess(c, pid), ReleasePid(p, pid);
      p'.live == LiveOf(c'.slots) && p'.free == c'.freePids
  {}

  lemma InstallView(c: Core, a: Addr, state: State, p: Procs)
    requires Inv(c) && p.live == LiveOf(c.slots) && p.free == c.freePids
    ensures NewPid(p) == NextPid(c)
    ensures
      var c', p' := Install(c, a, state), TakePid(p);
      p'.live == LiveOf(c'.slots) && p'.free == c'.freePids
  {}

  lemma ExecView(c: Core, a: Addr, p: Procs)
    requires Inv(c) && a !in c.pcbs && |c.slots| + 1 < NO_PCB && p.live == LiveOf(c.slots) && p.free == c.freePids
    ensures NewPid(p) == NextPid(c)
    ensures
      var c', p' := ExecCore(c, a), ReleasePid(TakePid(p), NewPid(p));
      p'.live == LiveOf(c'.slots) && p'.free == c'.freePids
  {
    InstallInv(c, a, BLOCKED);
    InstallView(c, a, BLOCKED, p);
    ReleaseView(Install(c, a, BLOCKED), NextPid(c), TakePid(p));
  }

  lemma SetTwice<K, V>(m: map<K, V>, x: K, u: V, y: K, v: V)
    requires x != y
    ensures m[x := u][y := v] == m[y := v][x := u]
  {}

  lemma InstallBorrow(c: Core, me: Addr, a: Addr)
    requires Inv(c) && me in c.pcbs && me != KERNEL && a !in c.pcbs && OLD_THREAD !in c.guards && |c.slots| + 1 < NO_PCB
    ensures Inv(Install(c, a, READY)) && me in Install(c, a, READY).pcbs
    ensures Install(Processes.Borrow(c, me, OLD_THREAD), a, READY) == Processes.Borrow(Install(c, a, READY), me, OLD_THREAD)
  {
    InstallInv(c, a, READY);
    InstallCommutes(c, me, a);
  }

  lemma InstallCommutes(c: Core, me: Addr, a: Addr)
    requires me in c.pcbs && a !in c.pcbs
    ensures me in Install(c, a, READY).pcbs
    ensures Install(Processes.Borrow(c, me, OLD_THREAD), a, READY) == Processes.Borrow(Install(c, a, READY), me, OLD_THREAD)
  {
    SetTwice(c.pcbs, me, c.pcbs[me].(refcount := c.pcbs[me].refcount + 1), a, Pcb(NextPid(c), READY, 0, 0));
  }

  /** Nobody holds the process exec built, so it may go. */
  lemma ExecDies(c: Core, a: Addr)
    requires Inv(c) && a !in c.pcbs && |c.slots| + 1 < NO_PCB && Inv(Install(c, a, BLOCKED))
    ensures var c1 := Install(c, a, BLOCKED);
      && (forall g :: g in c1.guards ==> c1.guards[g] in c1.pcbs && c1.guards[g] != a)
      && (forall b :: b in c1.pcbs && b != KERNEL ==> Counted(c1, b))
  {
    var c1 := Install(c, a, BLOCKED);
    FreshHeld(c, c1, a);
    forall g | g in c1.guards ensures c1.guards[g] != a { assert g in Holders(c1.guards, c1.guards[g]); }
  }

  /** exec takes a PID and gives it back: no PCB is gained or lost. */
  lemma ExecKeeps(c: Core, a: Addr)
    requires Inv(c) && a !in c.pcbs && |c.slots| + 1 < NO_PCB
    ensures Inv(ExecCore(c, a)) && ExecCore(c, a).pcbs == c.pcbs && ExecCore(c, a).guards == c.guards
  {
    InstallInv(c, a, BLOCKED);
    ExecDies(c, a);
    FreeProcessInv(Install(c, a, BLOCKED), NextPid(c));
    ExecPcbs(c, a);
  }

  lemma ExecPcbs(c: Core, a: Addr)
    requires Inv(c) && a !in c.pcbs && |c.slots| + 1 < NO_PCB
    ensures ExecCore(c, a).pcbs == c.pcbs && ExecCore(c, a).guards == c.guards
  {
    InstallInv(c, a, BLOCKED);
    assert c.pcbs[a := Pcb(NextPid(c), BLOCKED, 0, 0)] - {a} == c.pcbs;
  }

  lemma ExecBorrow(c: Core, me: Addr, a: Addr)
    requires Inv(c) && me in c.pcbs && me != KERNEL && a !in c.pcbs && OLD_THREAD !in c.guards && |c.slots| + 1 < NO_PCB
    ensures Inv(Processes.Borrow(c, me, OLD_THREAD)) && Inv(ExecCore(c, a)) && ExecCore(c, a).pcbs == c.pcbs
    ensures ExecCore(Processes.Borrow(c, me, OLD_THREAD), a) == Processes.Borrow(ExecCore(c, a), me, OLD_THREAD)
  {
    BorrowInv(c, me, OLD_THREAD);
    ExecKeeps(c, a);
    ExecKeeps(Processes.Borrow(c, me, OLD_THREAD), a);
  }
}
