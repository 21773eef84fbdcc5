/** The trap handler and the address spaces together: what a run of traps does to PIDs, queue, frames and TLB. */
module KernelSteps {
  import opened Options
  import opened Frames
  import opened PageTables
  import opened AddressSpaces
  import opened Tlb
  import opened Isolation
  import opened TrapSpec

  /**
   * What trapped, with what the running program asked for. `Nothing` is a timer interrupt, `Missing` an exec that finds no
   * program, `Calls` a system call without effect on processes; `mapped` says that the pointers it gets are.
   */
  datatype Event =
    | Nothing
    | Calls(mapped: bool)
    | Faults
    | Others
    | Touches(vaddr: nat)
    | Exits
    | Execs(text: nat, data: nat, brk: nat)
    | Missing
    | Grows(vaddr: nat)
    | Forks(order: seq<nat>, brk: nat)

  predicate InHeap(vaddr: nat) { BRK_DEFAULT <= vaddr < HEAP_LIMIT }

  /** The step on the address spaces; a bad brk request kills. */
  function StepOf(p: Procs, e: Event): Option<Step> {
    match e
    case Touches(vaddr) => Some(Miss(p.cur, vaddr))
    case Exits => Some(Step.Exit(p.cur))
    case Execs(text, data, brk) => Some(Replace(p.cur, NewPid(p), text, data, 4, 0, brk))
    case Grows(vaddr) => Some(if InHeap(vaddr) then BrkTo(p.cur, vaddr) else Step.Exit(p.cur))
    case Forks(order, brk) => Some(Step.Fork(p.cur, NewPid(p), order, brk))
    case _ => None
  }

  /** The trap as the handler sees it; `done` says that frames, ASIDs and page were there. */
  function CauseOf(e: Event, done: bool): Cause {
    match e
    case Nothing => Cause.Interrupt
    case Calls(mapped) => Cause.Call(mapped)
    case Faults => Cause.Fault
    case Others => Cause.Unknown
    case Touches(_) => TlbMiss(done)
    case Exits => Cause.Exit
    case Execs(_, _, _) => Cause.Exec(if done then Some(true) else None)
    case Missing => Cause.Exec(Some(false))
    case Grows(vaddr) => Cause.Brk(if !InHeap(vaddr) then Some(false) else if done then Some(true) else None)
    case Forks(_, _) => Cause.Fork(done)
  }

  /** A fork copies the pages of the running process, in the order of its table. */
  ghost predicate Admits(s: Sys, p: Procs, e: Event) {
    p.cur in s.spaces && (e.Forks? ==> Enumerates(e.order, s.spaces[p.cur].table))
  }

  ghost predicate Done(s: Sys, p: Procs, e: Event) {
    match StepOf(p, e)
    case None => true
    case Some(step) => Enabled(s, step) && Isolation.Next(s, step).Some?
  }

  /** One trap; None is a kernel that stops. */
  ghost function TrapNext(p: Procs, s: Sys, e: Event): Option<(Procs, Sys)> {
    match Handle(p, CauseOf(e, Done(s, p, e)))
    case None => None
    case Some(p') =>
      (match StepOf(p, e)
       case None => Some((p', s))
       case Some(step) => if Done(s, p, e) then Some((p', Isolation.Next(s, step).value)) else None)
  }

  /** The live PIDs are the processes with an address space. */
  ghost predicate Coupled(p: Procs, s: Sys) {
    Good(p) && Owned(s) && forall i: nat :: Alive(p.live, i) <==> i in s.spaces
  }

  lemma StepEnabled(p: Procs, s: Sys, e: Event)
    requires Coupled(p, s) && Admits(s, p, e) && StepOf(p, e).Some?
    ensures Enabled(s, StepOf(p, e).value)
  {
    TakePids(p);
    assert p.cur in s.spaces;
  }

  /** The kernel stops exactly when the handler does: no step it takes is ever refused. */
  lemma TrapStops(p: Procs, s: Sys, e: Event)
    requires Coupled(p, s) && Admits(s, p, e)
    ensures TrapNext(p, s, e).None? <==> Handle(p, CauseOf(e, Done(s, p, e))).None?
  {
    if StepOf(p, e).Some? { StepEnabled(p, s, e); }
  }

  lemma HandleLive(p: Procs, c: Cause, i: nat)
    requires Good(p) && Handle(p, c).Some?
    ensures Alive(Handle(p, c).value.live, i) <==> (Alive(p.live, i) && !(Kills(c) && i == p.cur)) || (c.Fork? && i == NewPid(p))
  {
    TakePids(p);
    if Kills(c) { ReleasePids(p, p.cur); }
    if Builds(c) { ReleasePids(TakePid(p), NewPid(p)); }
  }

  /** The process a step adds or removes. */
  lemma StepSpaces(s: Sys, step: Step, i: nat)
    requires Enabled(s, step) && Isolation.Next(s, step).Some?
    ensures i in Isolation.Next(s, step).value.spaces <==>
      (i in s.spaces && !(step.Exit? && i == step.p)) || ((step.Create? || step.Fork?) && i == step.p)
  {}

  lemma TrapLive(p: Procs, s: Sys, e: Event, i: nat)
    requires Coupled(p, s) && Admits(s, p, e) && TrapNext(p, s, e).Some?
    ensures var (p', s') := TrapNext(p, s, e).value; Alive(p'.live, i) <==> i in s'.spaces
  {
    HandleLive(p, CauseOf(e, Done(s, p, e)), i);
    if StepOf(p, e).Some? { StepSpaces(s, StepOf(p, e).value, i); }
  }

  /** Every trap keeps PIDs, queue and address spaces in step with each other, and every frame with one owner. */
  lemma TrapCoupled(p: Procs, s: Sys, e: Event)
    requires Coupled(p, s) && Admits(s, p, e) && TrapNext(p, s, e).Some?
    ensures var (p', s') := TrapNext(p, s, e).value; Coupled(p', s')
  {
    HandleGood(p, CauseOf(e, Done(s, p, e)));
    if StepOf(p, e).Some? { StepOwned(s, StepOf(p, e).value); }
    var (p', s') := TrapNext(p, s, e).value;
    forall i: nat ensures Alive(p'.live, i) <==> i in s'.spaces { TrapLive(p, s, e, i); }
  }

  // ---- Runs of traps ----

  ghost function TrapAll(p: Procs, s: Sys, es: seq<Event>): Option<(Procs, Sys)>
    decreases |es|
  {
    if es == [] then Some((p, s))
    else if !Admits(s, p, es[0]) then None
    else match TrapNext(p, s, es[0])
      case None => None
      case Some((p', s')) => TrapAll(p', s', es[1..])
  }

  function Steps(p: Procs, e: Event): seq<Step> { match StepOf(p, e) case None => [] case Some(step) => [step] }

  ghost function AllSteps(p: Procs, s: Sys, es: seq<Event>): seq<Step>
    decreases |es|
  {
    if es == [] || TrapNext(p, s, es[0]).None? then []
    else
      var (p', s') := TrapNext(p, s, es[0]).value;
      Steps(p, es[0]) + AllSteps(p', s', es[1..])
  }

  ghost function AllCauses(p: Procs, s: Sys, es: seq<Event>): seq<Cause>
    decreases |es|
  {
    if es == [] || TrapNext(p, s, es[0]).None? then []
    else
      var (p', s') := TrapNext(p, s, es[0]).value;
      [CauseOf(es[0], Done(s, p, es[0]))] + AllCauses(p', s', es[1..])
  }

  lemma TrapRun(p: Procs, s: Sys, e: Event, rest: seq<Step>, s': Sys)
    requires TrapNext(p, s, e).Some? && Run(TrapNext(p, s, e).value.1, rest, s')
    ensures Run(s, Steps(p, e) + rest, s')
  {
    var s1 := TrapNext(p, s, e).value.1;
    match StepOf(p, e)
    case None => assert [] + rest == rest;
    case Some(step) => RunDoes(s, step, s1, rest, s');
  }

  /**
   * A run of traps is a run of the handler and a run of the address spaces, with the PIDs of the one the processes of the
   * other: what is proved of either kind of run holds of it.
   */
  lemma {:induction false} TrapsRun(p: Procs, s: Sys, es: seq<Event>)
    requires Coupled(p, s) && TrapAll(p, s, es).Some?
    ensures var (p', s') := TrapAll(p, s, es).value;
      Coupled(p', s') && Run(s, AllSteps(p, s, es), s') && HandleAll(p, AllCauses(p, s, es)) == Some(p')
    decreases |es|
  {
    if es != [] {
      var (p1, s1) := TrapNext(p, s, es[0]).value;
      TrapCoupled(p, s, es[0]);
      TrapsRun(p1, s1, es[1..]);
      TrapRun(p, s, es[0], AllSteps(p1, s1, es[1..]), TrapAll(p, s, es).value.1);
      var cause := CauseOf(es[0], Done(s, p, es[0]));
      assert ([cause] + AllCauses(p1, s1, es[1..]))[1..] == AllCauses(p1, s1, es[1..]);
    }
  }

  /** One process, running. */
  const FIRST: Procs := Procs([true], [], [], 0)

  lemma FirstOpened(s0: Sys, text: nat, data: nat, brk: nat, s: Sys)
    requires Owned(s0) && NoStale(s0) && s0.spaces == map[] && Open(s0, 0, Layout(text, data, 4, 0), brk) == Some(s)
    ensures Coupled(FIRST, s) && Consistent(s)
  {
    StepOwned(s0, Create(0, text, data, 4, 0, brk));
    OpenConsistent(s0, 0, Layout(text, data, 4, 0), brk);
  }

  lemma FirstCoupled(boundary: nat, text: nat, data: nat, brk: nat, s: Sys)
    requires boundary <= NUM_PAGES && Boot(boundary).Some?
    requires Open(Boot(boundary).value, 0, Layout(text, data, 4, 0), brk) == Some(s)
    ensures Coupled(FIRST, s) && Consistent(s)
  {
    BootOwned(boundary);
    FirstOpened(Boot(boundary).value, text, data, brk, s);
  }

  /**
   * From boot, whatever programs trap for: as long as leftover entries fit the tables they meet, what the running process
   * accesses below 0x80000000 is in no frame of another live process or of the kernel heap.
   */
  lemma TrapsIsolate(boundary: nat, text: nat, data: nat, brk: nat, s: Sys, es: seq<Event>, vaddr: nat)
    requires boundary <= NUM_PAGES && Boot(boundary).Some?
    requires Open(Boot(boundary).value, 0, Layout(text, data, 4, 0), brk) == Some(s)
    requires TrapAll(FIRST, s, es).Some? && CleanRun(s, AllSteps(FIRST, s, es)) && vaddr < DIRECT_START
    ensures var (p', s') := TrapAll(FIRST, s, es).value;
      && p'.cur in s'.spaces
      && (Translate(s'.tlb, vaddr, s'.spaces[p'.cur].asid).Some? ==>
            var frame := Translate(s'.tlb, vaddr, s'.spaces[p'.cur].asid).value / PAGE;
            frame !in s'.kernel && forall q, v :: q != p'.cur && Mapped(s', q, v) ==> Frame(s', q, v) != frame)
  {
    FirstCoupled(boundary, text, data, brk, s);
    TrapsRun(FIRST, s, es);
    var (p', s') := TrapAll(FIRST, s, es).value;
    if Translate(s'.tlb, vaddr, s'.spaces[p'.cur].asid).Some? {
      RunIsolates(s, AllSteps(FIRST, s, es), s', p'.cur, vaddr);
    }
  }

  // ---- Putting a run together ----

  lemma {:induction false} TrapsOn(p: Procs, s: Sys, es: seq<Event>, p1: Procs, s1: Sys, e: Event, p2: Procs, s2: Sys)
    requires TrapAll(p, s, es) == Some((p1, s1)) && Admits(s1, p1, e) && TrapNext(p1, s1, e) == Some((p2, s2))
    ensures TrapAll(p, s, es + [e]) == Some((p2, s2))
    decreases |es|
  {
    if es == [] {
      assert ([] + [e])[1..] == [];
    } else {
      var (p', s') := TrapNext(p, s, es[0]).value;
      TrapsOn(p', s', es[1..], p1, s1, e, p2, s2);
      assert (es + [e])[1..] == es[1..] + [e];
    }
  }

  lemma TrapDoes(p: Procs, s: Sys, e: Event, step: Step, p': Procs, s': Sys)
    requires StepOf(p, e) == Some(step) && Does(s, step, s') && Handle(p, CauseOf(e, true)) == Some(p')
    ensures TrapNext(p, s, e) == Some((p', s'))
  {}
}
