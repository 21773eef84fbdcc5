/** One process on memory of its own, and why the machine with frames and page tables behaves like that. */
module PrivateMachine {
  import opened Bytes
  import opened Options
  import opened Tlb
  import opened Frames
  import opened PageTables
  import opened PageFrames
  import opened Machine
  import Isolation

  /** A process as its program sees it: registers without k0 and k1, and its own pages. */
  datatype Proc = Proc(ctx: Context, pages: map<nat, seq<Byte>>)

  function Mask(c: Context): Context
    requires |c.regs| == REGISTERS
  {
    c.(regs := c.regs[K0 := 0][K1 := 0])
  }

  /** Instructions user programs may use: k0 and k1 belong to the kernel, and register 0 is never written. */
  predicate UserInstr(i: Instr) {
    match i
    case Load(_, _, rt, rs, _) => rt !in {0, K0, K1} && rs !in {K0, K1}
    case Store(_, rt, rs, _) => rt !in {K0, K1} && rs !in {K0, K1}
    case Branch(_, rt, rs, _) => rt !in {K0, K1} && rs !in {K0, K1}
    case JumpReg(rs) => rs !in {K0, K1}
    case AddImm(rt, rs, _) => rt !in {0, K0, K1} && rs !in {K0, K1}
    case _ => true
  }

  function ReadPage(pages: map<nat, seq<Byte>>, a: nat, size: nat): Option<nat> {
    var v, off := a / PAGE, a % PAGE;
    if v in pages && size > 0 && off % size == 0 && off + size <= |pages[v]|
    then Some(BigEndian(pages[v][off..off + size]))
    else None
  }

  function WritePage(pages: map<nat, seq<Byte>>, a: nat, bytes: seq<Byte>): Option<map<nat, seq<Byte>>> {
    var v, off := a / PAGE, a % PAGE;
    if v in pages && |bytes| > 0 && off % |bytes| == 0 && off + |bytes| <= |pages[v]|
    then Some(pages[v := Put(pages[v], off, bytes)])
    else None
  }

  datatype PrivateOutcome = Ran(proc: Proc) | Asked | Failed

  /** One instruction on private memory: no TLB, no frames, no cache. */
  function PrivateCycle(p: Proc): PrivateOutcome
    requires ValidContext(p.ctx)
  {
    match ReadPage(p.pages, p.ctx.pc, 4)
    case None => Failed
    case Some(w) =>
      DecodeWellFormed(w, p.ctx.pc);
      match Decode(w, p.ctx.pc)
      case None => Failed
      case Some(i) => if !UserInstr(i) then Failed else PrivatePerform(PlanOf(i, p.ctx), p)
  }

  function PrivatePerform(plan: Plan, p: Proc): PrivateOutcome
    requires plan.Read? ==> plan.rt < |p.ctx.regs|
  {
    match plan
    case Go(c) => Ran(p.(ctx := c))
    case Trap => Asked
    case Stuck => Failed
    case Read(a, size, _, _) =>
      (match ReadPage(p.pages, a, size)
       case None => Failed
       case Some(value) => Ran(p.(ctx := AfterRead(p.ctx, plan, value))))
    case Write(a, size, value) =>
      (match WritePage(p.pages, a, ToBytes(value, size))
       case None => Failed
       case Some(pages) => Ran(Proc(p.ctx.(pc := Wrap(p.ctx.pc + 4)), pages)))
  }

  // ---- Pages in frames ----

  function PagesOf(t: Table, phys: Memory): map<nat, seq<Byte>> {
    map v | v in t :: PageAt(phys, t[v].pfn)
  }

  function View(t: Table, phys: Memory, c: Context): Proc
    requires |c.regs| == REGISTERS
  {
    Proc(Mask(c), PagesOf(t, phys))
  }

  /** A table of user pages in distinct frames of a memory of the machine's size. */
  ghost predicate Framed(t: Table, phys: Memory) {
    && |phys| == PHYS_MEM_SIZE && Isolation.UserPages(t)
    && (forall v :: v in t ==> t[v].pfn < NUM_PAGES)
    && (forall v, u :: v in t && u in t && t[v].pfn == t[u].pfn ==> v == u)
  }

  lemma Located(t: Table, phys: Memory, a: nat, size: nat)
    requires Framed(t, phys) && a / PAGE in t && size in {1, 2, 4} && a % PAGE % size == 0 && a % PAGE + size <= PAGE
    ensures
      var f, off := t[a / PAGE].pfn, a % PAGE;
      var pa := f * PAGE + off;
      && Look(ByTable(t), a) == Some(pa) && pa % size == 0 && pa + size <= (f + 1) * PAGE <= |phys|
      && phys[pa..pa + size] == PageAt(phys, f)[off..off + size]
  {
    var f, off := t[a / PAGE].pfn, a % PAGE;
    assert a < DIRECT_START;
    assert (f + 1) * PAGE <= NUM_PAGES * PAGE;
    SameAlignment(f, off, size);
    var pa := f * PAGE + off;
    SliceOfSlice(phys, f * PAGE, (f + 1) * PAGE, off, size);
    if size == 2 { assert pa % 2 == 0; }
    if size == 4 { assert pa % 4 == 0; }
  }

  lemma SameAlignment(f: nat, off: nat, size: nat)
    requires size in {1, 2, 4}
    ensures (f * PAGE + off) % size == off % size
  {
    var q, r := off / size, off % size;
    var k := if size == 1 then f * 4096 else if size == 2 then f * 2048 else f * 1024;
    assert off == q * size + r by {
      if size == 2 { assert off == off / 2 * 2 + off % 2; }
      if size == 4 { assert off == off / 4 * 4 + off % 4; }
    }
    assert f * PAGE + off == (k + q) * size + r;
    ModUnique(f * PAGE + off, size, k + q, r);
  }

  lemma ModUnique(x: nat, m: nat, q: nat, r: nat)
    requires m in {1, 2, 4} && r < m && x == q * m + r
    ensures x % m == r
  {}

  lemma ReadAgrees(t: Table, phys: Memory, a: nat, size: nat)
    requires Framed(t, phys) && size in {1, 2, 4} && ReadPage(PagesOf(t, phys), a, size).Some?
    ensures
      var l := Look(ByTable(t), a);
      && l.Some? && l.value % size == 0 && l.value + size <= |phys|
      && BigEndian(phys[l.value..l.value + size]) == ReadPage(PagesOf(t, phys), a, size).value
  {
    Located(t, phys, a, size);
  }

  lemma PutTable(t: Table, phys: Memory, v: nat, off: nat, bytes: seq<Byte>)
    requires Framed(t, phys) && v in t && off + |bytes| <= PAGE
    ensures var f := t[v].pfn;
      && f < NUM_PAGES && f * PAGE + off + |bytes| <= |phys| && |PageAt(phys, f)| == PAGE
      && PagesOf(t, Put(phys, f * PAGE + off, bytes)) == PagesOf(t, phys)[v := Put(PageAt(phys, f), off, bytes)]
  {
    var f := t[v].pfn;
    assert (f + 1) * PAGE <= NUM_PAGES * PAGE;
    forall u | u in t
      ensures PageAt(Put(phys, f * PAGE + off, bytes), t[u].pfn)
           == if u == v then Put(PageAt(phys, f), off, bytes) else PageAt(phys, t[u].pfn)
    {
      PutPages(phys, f, off, bytes, t[u].pfn);
    }
  }

  lemma WriteFits(t: Table, phys: Memory, a: nat, bytes: seq<Byte>)
    requires Framed(t, phys) && |bytes| in {1, 2, 4} && WritePage(PagesOf(t, phys), a, bytes).Some?
    ensures var v, off := a / PAGE, a % PAGE;
      && v in t && off % |bytes| == 0 && off + |bytes| <= PAGE == |PageAt(phys, t[v].pfn)|
      && WritePage(PagesOf(t, phys), a, bytes).value == PagesOf(t, phys)[v := Put(PageAt(phys, t[v].pfn), off, bytes)]
  {
    var v := a / PAGE;
    assert v in t && PagesOf(t, phys)[v] == PageAt(phys, t[v].pfn);
    assert (t[v].pfn + 1) * PAGE <= NUM_PAGES * PAGE;
  }

  lemma OtherFramesStay(t: Table, phys: Memory, v: nat, off: nat, bytes: seq<Byte>)
    requires Framed(t, phys) && v in t && off + |bytes| <= PAGE && t[v].pfn * PAGE + off + |bytes| <= |phys|
    ensures forall g :: g !in FramesOf(t) ==> PageAt(Put(phys, t[v].pfn * PAGE + off, bytes), g) == PageAt(phys, g)
  {
    var f := t[v].pfn;
    forall g | g !in FramesOf(t) ensures PageAt(Put(phys, f * PAGE + off, bytes), g) == PageAt(phys, g) {
      assert f in FramesOf(t);
      PutPages(phys, f, off, bytes, g);
    }
  }

  lemma PutAgrees(t: Table, phys: Memory, v: nat, off: nat, bytes: seq<Byte>, pa: nat)
    requires Framed(t, phys) && v in t && off + |bytes| <= PAGE && pa == t[v].pfn * PAGE + off
    ensures pa + |bytes| <= |phys| && off + |bytes| <= |PageAt(phys, t[v].pfn)|
    ensures PagesOf(t, Put(phys, pa, bytes)) == PagesOf(t, phys)[v := Put(PageAt(phys, t[v].pfn), off, bytes)]
    ensures forall g :: g !in FramesOf(t) ==> PageAt(Put(phys, pa, bytes), g) == PageAt(phys, g)
  {
    PutTable(t, phys, v, off, bytes);
    OtherFramesStay(t, phys, v, off, bytes);
  }

  lemma WriteAgrees(t: Table, phys: Memory, a: nat, bytes: seq<Byte>)
    requires Framed(t, phys) && |bytes| in {1, 2, 4} && WritePage(PagesOf(t, phys), a, bytes).Some?
    ensures
      var l := Look(ByTable(t), a);
      && l.Some? && l.value % |bytes| == 0 && l.value + |bytes| <= |phys|
      && PagesOf(t, Put(phys, l.value, bytes)) == WritePage(PagesOf(t, phys), a, bytes).value
      && (forall g :: g !in FramesOf(t) ==> PageAt(Put(phys, l.value, bytes), g) == PageAt(phys, g))
  {
    WriteFits(t, phys, a, bytes);
    Located(t, phys, a, |bytes|);
    PutAgrees(t, phys, a / PAGE, a % PAGE, bytes, Look(ByTable(t), a).value);
  }

  /** Masking k0 and k1 away changes nothing an instruction without them computes. */
  lemma MaskPlan(i: Instr, c: Context)
    requires WellFormed(i) && UserInstr(i) && ValidContext(c)
    ensures
      var p, q := PlanOf(i, c), PlanOf(i, Mask(c));
      match p
      case Go(c') => q == Go(Mask(c'))
      case _ => q == p
  {
    var q := PlanOf(i, Mask(c));
    match i
    case JumpLink(target) => assert Mask(PlanOf(i, c).ctx).regs == q.ctx.regs;
    case AddImm(rt, rs, imm) => assert Mask(PlanOf(i, c).ctx).regs == q.ctx.regs;
    case _ =>
  }

  lemma MaskRead(c: Context, p: Plan, value: nat)
    requires ValidContext(c) && p.Read? && p.rt < REGISTERS && p.rt !in {K0, K1}
    ensures Mask(AfterRead(c, p, value)) == AfterRead(Mask(c), p, value)
  {
    assert Mask(AfterRead(c, p, value)).regs == AfterRead(Mask(c), p, value).regs;
  }

  lemma PerformRead(p: Plan, t: Table, phys: Memory, c: Context)
    requires Framed(t, phys) && ValidContext(c) && p.Read? && p.size in {1, 2, 4}
    requires p.rt < REGISTERS && p.rt !in {K0, K1} && PrivatePerform(p, View(t, phys, c)).Ran?
    ensures
      var o := Perform(p, ByTable(t), phys, c);
      && o.Done? && ValidContext(o.ctx) && o.phys == phys
      && PrivatePerform(p, View(t, phys, c)) == Ran(View(t, phys, o.ctx))
  {
    ReadAgrees(t, phys, p.addr, p.size);
    MaskRead(c, p, ReadPage(PagesOf(t, phys), p.addr, p.size).value);
  }

  lemma PerformWrite(p: Plan, t: Table, phys: Memory, c: Context)
    requires Framed(t, phys) && ValidContext(c) && p.Write? && p.size in {1, 2, 4}
    requires PrivatePerform(p, View(t, phys, c)).Ran?
    ensures
      var o := Perform(p, ByTable(t), phys, c);
      && o.Done? && ValidContext(o.ctx) && |o.phys| == |phys|
      && PrivatePerform(p, View(t, phys, c)) == Ran(View(t, o.phys, o.ctx))
      && (forall g :: g !in FramesOf(t) ==> PageAt(o.phys, g) == PageAt(phys, g))
  {
    WriteAgrees(t, phys, p.addr, ToBytes(p.value, p.size));
  }

  lemma PlanShape(i: Instr, c: Context)
    requires WellFormed(i) && UserInstr(i) && ValidContext(c)
    ensures match PlanOf(i, c)
            case Read(_, size, _, rt) => size in {1, 2, 4} && rt < REGISTERS && rt !in {K0, K1}
            case Write(_, size, _) => size in {1, 2, 4}
            case Go(c') => ValidContext(c')
            case _ => true
  {}

  lemma PerformAgrees(i: Instr, t: Table, phys: Memory, c: Context)
    requires Framed(t, phys) && WellFormed(i) && UserInstr(i) && ValidContext(c)
    requires PrivatePerform(PlanOf(i, Mask(c)), View(t, phys, c)).Ran?
    ensures
      var o := Execute(i, ByTable(t), phys, c);
      && o.Done? && ValidContext(o.ctx) && |o.phys| == |phys|
      && PrivatePerform(PlanOf(i, Mask(c)), View(t, phys, c)) == Ran(View(t, o.phys, o.ctx))
      && (forall g :: g !in FramesOf(t) ==> PageAt(o.phys, g) == PageAt(phys, g))
  {
    MaskPlan(i, c);
    PlanShape(i, c);
    var p := PlanOf(i, c);
    if p.Read? { PerformRead(p, t, phys, c); }
    if p.Write? { PerformWrite(p, t, phys, c); }
  }

  /** Whatever a process does on its private memory, the machine with frames does through the page table alone. */
  lemma DirectIsPrivate(t: Table, phys: Memory, c: Context)
    requires Framed(t, phys) && ValidContext(c) && PrivateCycle(View(t, phys, c)).Ran?
    ensures
      var o := DirectCycle(ByTable(t), phys, c);
      && o.Done? && ValidContext(o.ctx) && |o.phys| == |phys|
      && PrivateCycle(View(t, phys, c)) == Ran(View(t, o.phys, o.ctx))
      && (forall g :: g !in FramesOf(t) ==> PageAt(o.phys, g) == PageAt(phys, g))
  {
    ReadAgrees(t, phys, c.pc, 4);
    var w := Fetch(ByTable(t), phys, c.pc).w;
    DecodeWellFormed(w, c.pc);
    PerformAgrees(Decode(w, c.pc).value, t, phys, c);
  }

  /** Fetching through the page table outside the direct range finds a word exactly where private memory has one. */
  lemma FetchAgrees(t: Table, phys: Memory, pc: nat)
    requires Framed(t, phys) && !(DIRECT_START <= pc < DIRECT_END)
    ensures Fetch(ByTable(t), phys, pc) ==
      if pc / PAGE !in t then FetchMiss
      else match ReadPage(PagesOf(t, phys), pc, 4) case None => BadFetch case Some(w) => Word(w)
  {
    if pc / PAGE in t {
      if pc % PAGE % 4 == 0 {
        Located(t, phys, pc, 4);
      } else {
        assert t[pc / PAGE].pfn < NUM_PAGES;
        SameAlignment(t[pc / PAGE].pfn, pc % PAGE, 4);
      }
    }
  }

  /** The machine makes a system call exactly when the process does on its private memory; code in the direct range is nobody's. */
  lemma DirectAsks(t: Table, phys: Memory, c: Context)
    requires Framed(t, phys) && ValidContext(c)
    ensures PrivateCycle(View(t, phys, c)).Asked? <==>
            DirectCycle(ByTable(t), phys, c).SysCall? && !(DIRECT_START <= c.pc < DIRECT_END)
  {
    if DIRECT_START <= c.pc < DIRECT_END {
      assert c.pc / PAGE !in t;
    } else {
      FetchAgrees(t, phys, c.pc);
      match Fetch(ByTable(t), phys, c.pc)
      case Word(w) =>
        DecodeWellFormed(w, c.pc);
        if Decode(w, c.pc).Some? { AsksIsSyscall(Decode(w, c.pc).value, t, phys, c); }
      case _ =>
    }
  }

  lemma AsksIsSyscall(i: Instr, t: Table, phys: Memory, c: Context)
    requires WellFormed(i) && ValidContext(c)
    ensures Execute(i, ByTable(t), phys, c).SysCall? <==> i.Syscall?
    ensures UserInstr(i) ==> (PrivatePerform(PlanOf(i, Mask(c)), View(t, phys, c)).Asked? <==> i.Syscall?)
  {}
}

/** The machine with TLB, instruction cache, traps and several processes, refining one private machine per process. */
module PagedMachine {
  import opened Bytes
  import opened Options
  import opened Tlb
  import opened Frames
  import opened PageTables
  import opened PageFrames
  import opened AddressSpaces
  import opened Machine
  import opened PrivateMachine
  import opened Isolation

  /** A context in a PCB: the kernel resumes it with eret, after which the cycle adds 4. */
  datatype Saved = Saved(regs: seq<nat>, epc: nat)

  datatype Vm = Vm(sys: Sys, phys: Memory, cache: Cache, cpu: Context, saved: map<nat, Saved>, cur: nat)

  function Resume(epc: nat): nat { Wrap(epc + 4) }

  function Back(pc: nat): nat { Wrap(pc as int - 4) }

  function ContextOf(vm: Vm, p: nat): Context
    requires p == vm.cur || p in vm.saved
  {
    if p == vm.cur then vm.cpu else Context(vm.saved[p].regs, Resume(vm.saved[p].epc))
  }

  function TableOf(vm: Vm, p: nat): Table
    requires p in vm.sys.spaces
  {
    vm.sys.spaces[p].table
  }

  predicate ValidSaved(c: Saved) { |c.regs| == REGISTERS && c.epc < WORD_LIMIT }

  ghost predicate Placed(vm: Vm) {
    && vm.cur in vm.sys.spaces && vm.saved.Keys == vm.sys.spaces.Keys - {vm.cur}
    && |vm.phys| == PHYS_MEM_SIZE && ValidContext(vm.cpu)
    && forall p :: p in vm.saved ==> ValidSaved(vm.saved[p])
  }

  ghost predicate Ok(vm: Vm) {
    Placed(vm) && Owned(vm.sys) && Consistent(vm.sys) && WellFormedCache(vm.cache)
  }

  /** The instruction cache holds what the running process would fetch. */
  ghost predicate Warm(vm: Vm)
    requires Placed(vm)
  {
    Coherent(vm.cache, ByTable(TableOf(vm, vm.cur)), vm.phys)
  }

  ghost function ProcView(vm: Vm, p: nat): Proc
    requires Placed(vm) && p in vm.sys.spaces
  {
    View(TableOf(vm, p), vm.phys, ContextOf(vm, p))
  }

  function Hardware(vm: Vm): Translation
    requires vm.cur in vm.sys.spaces
  {
    ByTlb(vm.sys.tlb, vm.sys.spaces[vm.cur].asid)
  }

  /** One hardware cycle of the running process. */
  ghost function Outcome(vm: Vm): (Machine.Outcome, Cache)
    requires Ok(vm)
  {
    CoreCycle(vm.cache, Hardware(vm), vm.phys, vm.cpu)
  }

  /** The kernel's use of k0 and k1 shows when it returns. */
  function Clobber(c: Context, k0: nat, k1: nat): Context
    requires |c.regs| == REGISTERS
  {
    c.(regs := c.regs[K0 := k0][K1 := k1])
  }

  function Restore(c: Saved, k0: nat, k1: nat): Context
    requires |c.regs| == REGISTERS
  {
    Clobber(Context(c.regs, Resume(c.epc)), k0, k1)
  }

  /** A cycle and the kernel's answer to a miss; None for anything else that traps. */
  ghost function CycleNext(vm: Vm, k0: nat, k1: nat): Option<Vm>
    requires Ok(vm)
  {
    var (o, cache) := Outcome(vm);
    match o
    case Done(c, phys) => Some(vm.(phys := phys, cache := cache, cpu := c))
    case Miss(a, _) =>
      (match Refill(vm.sys, vm.cur, a)
       case None => None
       case Some(sys) =>
         Some(vm.(sys := sys, cache := cache, cpu := Restore(Saved(vm.cpu.regs, Back(vm.cpu.pc)), k0, k1))))
    case _ => None
  }

  /**
   * An interrupt, right after an instruction or right after the eret that was to resume one: the kernel takes 4 off the
   * saved program counter, dispatches somebody and clears the instruction cache.
   */
  function Interrupted(vm: Vm, next: nat, k0: nat, k1: nat): Vm
    requires next == vm.cur || next in vm.saved
    requires |vm.cpu.regs| == REGISTERS && forall p :: p in vm.saved ==> |vm.saved[p].regs| == REGISTERS
  {
    var saved := vm.saved[vm.cur := Saved(vm.cpu.regs, Back(vm.cpu.pc))];
    vm.(cache := [], cpu := Restore(saved[next], k0, k1), saved := saved - {next}, cur := next)
  }

  ghost predicate Completes(vm: Vm)
    requires Ok(vm)
  {
    Outcome(vm).0.Done?
  }

  // ---- One cycle of the process itself ----

  lemma TableFramed(vm: Vm, p: nat)
    requires Placed(vm) && Owned(vm.sys) && p in vm.sys.spaces
    ensures Framed(TableOf(vm, p), vm.phys)
  {
    var t := TableOf(vm, p);
    forall v | v in t ensures t[v].pfn < NUM_PAGES { assert Mapped(vm.sys, p, v); }
    forall v, u | v in t && u in t && t[v].pfn == t[u].pfn ensures v == u {
      assert Mapped(vm.sys, p, v) && Mapped(vm.sys, p, u);
    }
  }

  /** The TLB never contradicts the running process's own table. */
  lemma TlbAgrees(vm: Vm)
    requires Ok(vm)
    ensures Machine.Agrees(Hardware(vm), ByTable(TableOf(vm, vm.cur)))
  {
    var t := TableOf(vm, vm.cur);
    TableFramed(vm, vm.cur);
    forall a: nat | Look(ByTable(t), a).Some?
      ensures Look(Hardware(vm), a).None? || Look(Hardware(vm), a) == Look(ByTable(t), a)
    {
      if !(DIRECT_START <= a < DIRECT_END) && Look(Hardware(vm), a).Some? {
        assert a < DIRECT_START;
        UserTranslation(vm.sys, vm.cur, a);
      }
    }
  }

  /** What the process is about to do on its private memory decides what the machine does, unless it misses. */
  lemma OutcomeIs(vm: Vm)
    requires Ok(vm) && Warm(vm) && !PrivateCycle(ProcView(vm, vm.cur)).Failed?
    ensures
      var (o, cache) := Outcome(vm);
      var t := TableOf(vm, vm.cur);
      var d := DirectCycle(ByTable(t), vm.phys, vm.cpu);
      && (o == d || (o.Miss? && Look(Hardware(vm), o.vaddr).None? && Look(ByTable(t), o.vaddr).Some?))
      && Coherent(cache, ByTable(t), vm.phys)
      && (PrivateCycle(ProcView(vm, vm.cur)).Ran? ==> d.Done?)
      && (PrivateCycle(ProcView(vm, vm.cur)).Asked? ==> d.SysCall?)
  {
    var t := TableOf(vm, vm.cur);
    TableFramed(vm, vm.cur);
    TlbAgrees(vm);
    DirectAsks(t, vm.phys, vm.cpu);
    if PrivateCycle(ProcView(vm, vm.cur)).Ran? { DirectIsPrivate(t, vm.phys, vm.cpu); }
    CachedIsDirect(vm.cache, Hardware(vm), ByTable(t), vm.phys, vm.cpu);
  }

  lemma ResumeBack(pc: nat)
    requires pc < WORD_LIMIT
    ensures Resume(Back(pc)) == pc
  {
    if pc < 4 { assert Back(pc) == pc + WORD_LIMIT - 4; } else { assert Back(pc) == pc - 4; }
  }

  lemma ClobberMasked(c: Context, k0: nat, k1: nat)
    requires |c.regs| == REGISTERS
    ensures Mask(Clobber(c, k0, k1)) == Mask(c)
  {
    assert Mask(Clobber(c, k0, k1)).regs == Mask(c).regs;
  }

  /** A switch loses nothing: every process, the one saved and the one restored included, keeps its view. */
  lemma InterruptKeepsViews(vm: Vm, next: nat, k0: nat, k1: nat)
    requires Ok(vm) && next in vm.sys.spaces
    ensures var vm' := Interrupted(vm, next, k0, k1);
      Ok(vm') && Warm(vm') && forall p :: p in vm.sys.spaces ==> ProcView(vm', p) == ProcView(vm, p)
  {
    var vm' := Interrupted(vm, next, k0, k1);
    ResumeBack(vm.cpu.pc);
    var saved := vm.saved[vm.cur := Saved(vm.cpu.regs, Back(vm.cpu.pc))];
    assert (saved - {next}).Keys == vm.sys.spaces.Keys - {next};
    forall p | p in vm.sys.spaces ensures ProcView(vm', p) == ProcView(vm, p) {
      if p == next { ClobberMasked(Context(saved[next].regs, Resume(saved[next].epc)), k0, k1); }
    }
  }

  /** Writing one process's frames leaves the pages of every other process alone. */
  lemma OthersKeepPages(vm: Vm, phys: Memory, p: nat)
    requires Placed(vm) && Owned(vm.sys) && p in vm.sys.spaces && p != vm.cur
    requires forall g :: g !in FramesOf(TableOf(vm, vm.cur)) ==> PageAt(phys, g) == PageAt(vm.phys, g)
    ensures PagesOf(TableOf(vm, p), phys) == PagesOf(TableOf(vm, p), vm.phys)
  {
    var t := TableOf(vm, p);
    forall v | v in t ensures PageAt(phys, t[v].pfn) == PageAt(vm.phys, t[v].pfn) {
      if t[v].pfn in FramesOf(TableOf(vm, vm.cur)) {
        var u :| u in TableOf(vm, vm.cur) && TableOf(vm, vm.cur)[u].pfn == t[v].pfn;
        assert Mapped(vm.sys, p, v) && Mapped(vm.sys, vm.cur, u);
      }
    }
  }

  /** The instructions the cache holds stay right across the store this cycle may do. */
  ghost predicate SparesCode(vm: Vm)
    requires Ok(vm)
  {
    var (o, cache) := Outcome(vm);
    var x := ByTable(TableOf(vm, vm.cur));
    o.Done? ==> forall e :: e in cache && e.1.Some? ==> Fetch(x, o.phys, e.0) == Fetch(x, vm.phys, e.0)
  }

  /** A completed cycle is one private step of the running process and nothing for anybody else. */
  lemma DoneViews(vm: Vm)
    requires Ok(vm) && Warm(vm) && PrivateCycle(ProcView(vm, vm.cur)).Ran? && Completes(vm) && SparesCode(vm)
    ensures
      var (o, cache) := Outcome(vm);
      var done := vm.(phys := o.phys, cache := cache, cpu := o.ctx);
      && Ok(done) && Warm(done)
      && forall p :: p in vm.sys.spaces ==>
           ProcView(done, p) == if p == vm.cur then PrivateCycle(ProcView(vm, p)).proc else ProcView(vm, p)
  {
    OutcomeIs(vm);
    TableFramed(vm, vm.cur);
    var t := TableOf(vm, vm.cur);
    DirectIsPrivate(t, vm.phys, vm.cpu);
    var (o, cache) := Outcome(vm);
    StoreKeepsCoherent(cache, ByTable(t), vm.phys, o.phys);
    CoherentWellFormed(cache, ByTable(t), o.phys);
    forall p | p in vm.sys.spaces && p != vm.cur
      ensures PagesOf(TableOf(vm, p), o.phys) == PagesOf(TableOf(vm, p), vm.phys)
    {
      OthersKeepPages(vm, o.phys, p);
    }
  }

  /** Whoever misses: once the page is refilled everybody is where they were, and the instruction starts over. */
  lemma RefillViews(vm: Vm, k0: nat, k1: nat)
    requires Ok(vm) && Outcome(vm).0.Miss? && CycleNext(vm, k0, k1).Some?
    ensures var vm' := CycleNext(vm, k0, k1).value;
      && Ok(vm') && vm'.sys.spaces == vm.sys.spaces && vm'.cur == vm.cur && vm'.phys == vm.phys
      && vm'.cpu == Clobber(vm.cpu, k0, k1)
      && forall p :: p in vm.sys.spaces ==> ProcView(vm', p) == ProcView(vm, p)
  {
    RefillConsistent(vm.sys, vm.cur, Outcome(vm).0.vaddr);
    ResumeBack(vm.cpu.pc);
    ClobberMasked(vm.cpu, k0, k1);
    FilledWellFormed(vm.cache, Hardware(vm), vm.phys, vm.cpu.pc);
  }

  /** A miss of a process that runs on its own pages is on a mapped page, so it can be refilled. */
  lemma MissViews(vm: Vm, k0: nat, k1: nat)
    requires Ok(vm) && Warm(vm) && !PrivateCycle(ProcView(vm, vm.cur)).Failed? && Outcome(vm).0.Miss?
    ensures CycleNext(vm, k0, k1).Some?
    ensures var vm' := CycleNext(vm, k0, k1).value;
      && Ok(vm') && Warm(vm') && vm'.sys.spaces == vm.sys.spaces && vm'.cur == vm.cur && vm'.cpu == Clobber(vm.cpu, k0, k1)
      && forall p :: p in vm.sys.spaces ==> ProcView(vm', p) == ProcView(vm, p)
  {
    OutcomeIs(vm);
    var a, table := Outcome(vm).0.vaddr, TableOf(vm, vm.cur);
    assert !(DIRECT_START <= a < DIRECT_END) && a / PAGE in table;
    assert table[a / PAGE].present;
    RefillViews(vm, k0, k1);
  }

  /** Paging is invisible for one cycle: misses and refills change no process's view. */
  lemma CycleViews(vm: Vm, k0: nat, k1: nat)
    requires Ok(vm) && Warm(vm) && !PrivateCycle(ProcView(vm, vm.cur)).Failed? && SparesCode(vm)
    requires Completes(vm) || Outcome(vm).0.Miss?
    ensures CycleNext(vm, k0, k1).Some?
    ensures var vm' := CycleNext(vm, k0, k1).value;
      && Ok(vm') && Warm(vm') && vm'.sys.spaces == vm.sys.spaces && vm'.cur == vm.cur
      && (Completes(vm) ==> PrivateCycle(ProcView(vm, vm.cur)).Ran?)
      && forall p :: p in vm.sys.spaces ==>
           ProcView(vm', p) == if p == vm.cur && Completes(vm) then PrivateCycle(ProcView(vm, p)).proc else ProcView(vm, p)
  {
    OutcomeIs(vm);
    if Completes(vm) { DoneViews(vm); } else { MissViews(vm, k0, k1); }
  }

  // ---- A cycle of somebody else ----

  /** The instruction about to run does not store at an address that a user program should not use. */
  ghost predicate StoresLow(vm: Vm)
    requires Ok(vm)
  {
    FilledWellFormed(vm.cache, Hardware(vm), vm.phys, vm.cpu.pc);
    var f := FillSlot(vm.cache, Hardware(vm), vm.phys, vm.cpu.pc).0;
    f.Instruction? && PlanOf(f.i, vm.cpu).Write? ==> PlanOf(f.i, vm.cpu).addr < DIRECT_START
  }

  /** A store through the TLB reaches one page of the running process. */
  lemma StoreStays(vm: Vm, a: nat, bytes: seq<Byte>, pa: nat, g: nat)
    requires Ok(vm) && a < DIRECT_START && Look(Hardware(vm), a) == Some(pa) && |bytes| in {1, 2, 4}
    requires pa % |bytes| == 0 && pa + |bytes| <= |vm.phys| && g !in FramesOf(TableOf(vm, vm.cur))
    ensures PageAt(Put(vm.phys, pa, bytes), g) == PageAt(vm.phys, g)
  {
    UserTranslation(vm.sys, vm.cur, a);
    var f, off := TableOf(vm, vm.cur)[a / PAGE].pfn, a % PAGE;
    assert Mapped(vm.sys, vm.cur, a / PAGE) && f in FramesOf(TableOf(vm, vm.cur));
    SameAlignment(f, off, |bytes|);
    AlignedFits(off, |bytes|);
    PutPages(vm.phys, f, off, bytes, g);
  }

  lemma AlignedFits(off: nat, size: nat)
    requires off < PAGE && size in {1, 2, 4} && off % size == 0
    ensures off + size <= PAGE
  {
    if size == 2 { assert off == off / 2 * 2; }
    if size == 4 { assert off == off / 4 * 4; }
  }

  /** Whatever instruction another process completes, right or wrong, fresh or stale in its cache. */
  lemma OtherDone(vm: Vm, p: nat)
    requires Ok(vm) && Completes(vm) && StoresLow(vm) && p in vm.sys.spaces && p != vm.cur
    ensures var (o, cache) := Outcome(vm);
      && WellFormedCache(cache) && ValidContext(o.ctx) && |o.phys| == |vm.phys|
      && PagesOf(TableOf(vm, p), o.phys) == PagesOf(TableOf(vm, p), vm.phys)
  {
    CycleValid(vm.cache, Hardware(vm), vm.phys, vm.cpu);
    FilledWellFormed(vm.cache, Hardware(vm), vm.phys, vm.cpu.pc);
    var plan := PlanOf(FillSlot(vm.cache, Hardware(vm), vm.phys, vm.cpu.pc).0.i, vm.cpu);
    var phys := Outcome(vm).0.phys;
    forall g: nat | g !in FramesOf(TableOf(vm, vm.cur)) ensures PageAt(phys, g) == PageAt(vm.phys, g) {
      if plan.Write? {
        StoreStays(vm, plan.addr, ToBytes(plan.value, plan.size), Look(Hardware(vm), plan.addr).value, g);
      }
    }
    OthersKeepPages(vm, phys, p);
  }

  lemma OtherCycle(vm: Vm, k0: nat, k1: nat, p: nat)
    requires Ok(vm) && StoresLow(vm) && CycleNext(vm, k0, k1).Some? && p in vm.sys.spaces && p != vm.cur
    ensures var vm' := CycleNext(vm, k0, k1).value;
      Ok(vm') && vm'.sys.spaces == vm.sys.spaces && vm'.cur == vm.cur && ProcView(vm', p) == ProcView(vm, p)
  {
    if Completes(vm) { OtherDone(vm, p); } else { RefillViews(vm, k0, k1); }
  }

  // ---- At most two refills ----

  lemma MissFront(vm: Vm)
    requires Ok(vm) && Warm(vm) && PrivateCycle(ProcView(vm, vm.cur)).Ran? && Outcome(vm).0.Miss?
    ensures
      var (o, cache) := Outcome(vm);
      && |cache| > 0 && cache[0].0 == vm.cpu.pc
      && match cache[0].1
         case None => o.vaddr == vm.cpu.pc
         case Some(i) => WellFormed(i) && UserInstr(i) && Touches(PlanOf(i, vm.cpu), o.vaddr)
  {
    var t := TableOf(vm, vm.cur);
    TableFramed(vm, vm.cur);
    ReadAgrees(t, vm.phys, vm.cpu.pc, 4);
    TlbAgrees(vm);
    MissSlot(vm.cache, Hardware(vm), ByTable(t), vm.phys, vm.cpu);
  }

  /** With the decoded instruction in front, only its data address can still miss. */
  lemma FrontMisses(vm: Vm)
    requires Ok(vm) && |vm.cache| > 0 && vm.cache[0].0 == vm.cpu.pc && vm.cache[0].1.Some?
    requires WellFormed(vm.cache[0].1.value) && Outcome(vm).0.Miss?
    ensures Touches(PlanOf(vm.cache[0].1.value, vm.cpu), Outcome(vm).0.vaddr)
  {
    FrontKept(vm.cache, vm.cpu.pc);
  }

  lemma MissRefilled(vm: Vm, k0: nat, k1: nat)
    requires Ok(vm) && Warm(vm) && PrivateCycle(ProcView(vm, vm.cur)).Ran? && Outcome(vm).0.Miss?
    ensures CycleNext(vm, k0, k1).Some?
    ensures
      var vm', (o, cache) := CycleNext(vm, k0, k1).value, Outcome(vm);
      && Ok(vm') && Warm(vm') && vm'.cur == vm.cur && ProcView(vm', vm.cur) == ProcView(vm, vm.cur)
      && Look(Hardware(vm'), o.vaddr).Some? && vm'.cache == cache && vm'.cpu == Clobber(vm.cpu, k0, k1)
  {
    OutcomeIs(vm);
    MissViews(vm, k0, k1);
    var a, table := Outcome(vm).0.vaddr, TableOf(vm, vm.cur);
    assert !(DIRECT_START <= a < DIRECT_END);
    RefillHits(vm.sys.tlb, vm.sys.random, RefillEntry(table[a / PAGE], a / PAGE, vm.sys.spaces[vm.cur].asid),
               a, vm.sys.spaces[vm.cur].asid);
  }

  /** Once its data address is in the TLB, the instruction in front completes. */
  lemma FrontCompletes(vm: Vm, k0: nat, k1: nat)
    requires Ok(vm) && Warm(vm) && PrivateCycle(ProcView(vm, vm.cur)).Ran? && Outcome(vm).0.Miss?
    requires Outcome(vm).1[0].1.Some?
    ensures CycleNext(vm, k0, k1).Some? && Ok(CycleNext(vm, k0, k1).value) && Completes(CycleNext(vm, k0, k1).value)
  {
    MissFront(vm);
    MissRefilled(vm, k0, k1);
    var vm' := CycleNext(vm, k0, k1).value;
    var i := vm'.cache[0].1.value;
    OutcomeIs(vm');
    if Outcome(vm').0.Miss? {
      FrontMisses(vm');
      MaskPlan(i, vm.cpu);
      MaskPlan(i, vm'.cpu);
      ClobberMasked(vm.cpu, k0, k1);
      assert false;
    }
  }

  /** With no interrupt in between, an instruction completes after at most two refills. */
  lemma AtMostTwoRefills(vm: Vm, k0: nat, k1: nat, l0: nat, l1: nat)
    requires Ok(vm) && Warm(vm) && PrivateCycle(ProcView(vm, vm.cur)).Ran? && !Completes(vm)
    ensures CycleNext(vm, k0, k1).Some? && Ok(CycleNext(vm, k0, k1).value)
    ensures
      var vm1 := CycleNext(vm, k0, k1).value;
      && vm1.sys.spaces == vm.sys.spaces
      && (Completes(vm1)
          || (CycleNext(vm1, l0, l1).Some? && Ok(CycleNext(vm1, l0, l1).value) && Completes(CycleNext(vm1, l0, l1).value)))
  {
    OutcomeIs(vm);
    MissFront(vm);
    MissViews(vm, k0, k1);
    if Outcome(vm).1[0].1.Some? {
      FrontCompletes(vm, k0, k1);
    } else {
      MissRefilled(vm, k0, k1);
      var vm1 := CycleNext(vm, k0, k1).value;
      OutcomeIs(vm1);
      if !Completes(vm1) {
        MissFront(vm1);
        FrontCompletes(vm1, l0, l1);
      }
    }
  }

  // ---- System calls ----

  /** One thing the kernel does for its caller: compute, or change an address space. */
  datatype Act = Compute | Do(step: Step)

  /** The frames of the kernel's image and heap. */
  ghost function KernelFrames(s: Sys): set<nat> {
    (set f: nat | 0 <= f < s.pool.boundary && InImage(s, f)) + s.kernel
  }

  ghost predicate InImage(s: Sys, f: nat) { f < s.pool.boundary }

  /** The kernel acts for its caller and for processes it has just made, not on the others. */
  ghost predicate ForCaller(step: Step, caller: nat, others: set<nat>) {
    match step
    case Fork(parent, _, _, _) => parent == caller
    case Miss(p, _) => p == caller
    case BrkTo(p, _) => p !in others
    case Replace(p, _, _, _, _, _, _) => p !in others
    case Exit(p) => p !in others
    case _ => true
  }

  /** The copies a fork is about to make. */
  ghost function CopiesOf(s: Sys, step: Step): seq<Copy>
    requires step.Fork? && Enabled(s, step)
  {
    CopyList(s.pool, step.order, s.spaces[step.parent].table)
  }

  /** What an address-space step writes: the kernel's frames, the pages of a program being loaded, the copies of a fork. */
  ghost predicate StepWrites(s: Sys, phys: Memory, step: Step, s': Sys, phys': Memory)
    requires Enabled(s, step) && Next(s, step) == Some(s') && CopiesFit(s, step)
  {
    match step
    case Create(q, _, _, _, _, _) => WritesOnly(phys, phys', KernelFrames(s) + FramesOf(s'.spaces[q].table))
    case Replace(q, _, _, _, _, _, _) => WritesOnly(phys, phys', KernelFrames(s) + FramesOf(s'.spaces[q].table))
    case Fork(_, _, _, _) => ForkEffect(phys, CopiesOf(s, step), KernelFrames(s), phys')
    case _ => WritesOnly(phys, phys', KernelFrames(s))
  }

  /** No copy of a fork runs past the end of memory. */
  ghost predicate CopiesFit(s: Sys, step: Step)
    requires Enabled(s, step)
  {
    step.Fork? ==> AllFit(CopiesOf(s, step))
  }

  /** The system while a call is being served. */
  datatype Mid = Mid(sys: Sys, phys: Memory)

  /** What an act does to the address spaces. */
  ghost predicate Changes(s: Sys, act: Act, caller: nat, others: set<nat>, s': Sys) {
    match act
    case Compute => s' == s
    case Do(step) =>
      Enabled(s, step) && CleanTags(s, step) && CopiesFit(s, step) && ForCaller(step, caller, others) && Next(s, step) == Some(s')
  }

  /** Computing may also write the caller's pages, through its own translation: the buffer of a read. */
  ghost predicate Acts(s: Mid, act: Act, caller: nat, others: set<nat>, s': Mid) {
    && Changes(s.sys, act, caller, others, s'.sys)
    && match act
       case Compute =>
         WritesOnly(s.phys, s'.phys,
                    KernelFrames(s.sys) + if caller in s.sys.spaces then FramesOf(s.sys.spaces[caller].table) else {})
       case Do(step) => StepWrites(s.sys, s.phys, step, s'.sys, s'.phys)
  }

  /** If the act is a fork, its copies leave every frame of p with its own page: known before the fork. */
  ghost predicate Spares(s: Sys, act: Act, p: nat) {
    p in s.spaces && act.Do? && act.step.Fork? && Enabled(s, act.step) ==>
      Untouched(CopiesOf(s, act.step), s.spaces[p].table)
  }

  /** Every frame of the table is its own origin. */
  ghost predicate Untouched(copies: seq<Copy>, t: Table) { forall v :: v in t ==> Origin(copies, t[v].pfn) == t[v].pfn }

  ghost predicate Live(s: Mid) { Owned(s.sys) && Consistent(s.sys) && |s.phys| == PHYS_MEM_SIZE }

  /** An act keeps ownership and consistency, and the address space of every process it is not for. */
  lemma ActKeepsSpace(s: Mid, act: Act, caller: nat, others: set<nat>, s': Mid, p: nat)
    requires Acts(s, act, caller, others, s')
    ensures s'.sys.kernel == s.sys.kernel && s'.sys.pool.boundary == s.sys.pool.boundary
    ensures p in s.sys.spaces && p in others && p != caller ==> p in s'.sys.spaces && s'.sys.spaces[p] == s.sys.spaces[p]
  {}

  lemma ActOk(s: Mid, act: Act, caller: nat, others: set<nat>, s': Mid, p: nat)
    requires Live(s) && Acts(s, act, caller, others, s')
    ensures Owned(s'.sys) && Consistent(s'.sys)
    ensures s'.sys.kernel == s.sys.kernel && s'.sys.pool.boundary == s.sys.pool.boundary
    ensures p in s.sys.spaces && p in others && p != caller ==> p in s'.sys.spaces && s'.sys.spaces[p] == s.sys.spaces[p]
  {
    ActKeepsSpace(s, act, caller, others, s', p);
    if act.Do? {
      StepOwned(s.sys, act.step);
      StepConsistent(s.sys, act.step);
    }
  }

  /** A mapped frame is neither the kernel's nor another process's. */
  lemma FrameApart(s: Sys, p: nat, v: nat, q: nat)
    requires Owned(s) && Mapped(s, p, v)
    ensures Frame(s, p, v) !in KernelFrames(s)
    ensures q in s.spaces && q != p ==> Frame(s, p, v) !in FramesOf(s.spaces[q].table)
  {
    if q in s.spaces && q != p && Frame(s, p, v) in FramesOf(s.spaces[q].table) {
      var u :| u in s.spaces[q].table && s.spaces[q].table[u].pfn == Frame(s, p, v);
      assert Mapped(s, q, u);
    }
  }

  /** The copies of a fork go from the parent's frames to others, and read and write none of the kernel's. */
  lemma ForkCopies(s: Sys, step: Step)
    requires Owned(s) && step.Fork? && Enabled(s, step) && Next(s, step).Some?
    ensures var copies := CopiesOf(s, step);
      Apart(copies) && ReadsClear(copies, KernelFrames(s)) && forall c :: c in copies ==> c.dst !in KernelFrames(s)
  {
    var s', parent, copies := Next(s, step).value, step.parent, CopiesOf(s, step);
    StepOwned(s, step);
    forall c | c in copies
      ensures c.src != c.dst && c.dst !in KernelFrames(s)
      ensures forall f: nat :: c.src <= f < c.src + COPIED_FRAMES ==> f !in KernelFrames(s)
    {
      var i :| 0 <= i < |copies| && copies[i] == c;
      var v := step.order[i];
      ChildFrame(s.pool, step.order, s.spaces[parent].table, i);
      assert v in step.order && Mapped(s, parent, v) && Mapped(s', parent, v) && Mapped(s', step.p, v);
    }
  }

  /** What every frame holds after a fork. */
  lemma ForkedPage(s: Mid, step: Step, caller: nat, others: set<nat>, s': Mid, h: nat)
    requires Live(s) && step.Fork? && Acts(s, Do(step), caller, others, s') && h !in KernelFrames(s.sys)
    ensures |s'.phys| == |s.phys| && PageAt(s'.phys, h) == PageAt(s.phys, Origin(CopiesOf(s.sys, step), h))
  {
    ForkCopies(s.sys, step);
    ForkPage(s.phys, CopiesOf(s.sys, step), KernelFrames(s.sys), s'.phys, h);
  }

  /** What an act leaves in the frames of a process it is not for. */
  lemma ActPage(s: Mid, act: Act, caller: nat, others: set<nat>, s': Mid, p: nat, v: nat)
    requires Live(s) && Acts(s, act, caller, others, s') && Spares(s.sys, act, p)
    requires Mapped(s.sys, p, v) && p in others && p != caller
    ensures PageAt(s'.phys, Frame(s.sys, p, v)) == PageAt(s.phys, Frame(s.sys, p, v)) && |s'.phys| == |s.phys|
  {
    ActOk(s, act, caller, others, s', p);
    assert Mapped(s'.sys, p, v);
    FrameApart(s.sys, p, v, caller);
    if act.Do? {
      match act.step
      case Create(q, _, _, _, _, _) => FrameApart(s'.sys, p, v, q);
      case Replace(q, _, _, _, _, _, _) => FrameApart(s'.sys, p, v, q);
      case Fork(_, _, _, _) => ForkedPage(s, act.step, caller, others, s', Frame(s.sys, p, v));
      case _ =>
    }
  }

  // ---- Whole calls ----

  /** The acts of one call, with the states before, between and after them. */
  ghost predicate Serves(states: seq<Mid>, acts: seq<Act>, caller: nat, others: set<nat>) {
    && |states| == |acts| + 1
    && forall i :: 0 <= i < |acts| ==> Acts(states[i], acts[i], caller, others, states[i + 1])
  }

  ghost predicate SparesAll(states: seq<Mid>, acts: seq<Act>, p: nat) {
    |states| == |acts| + 1 && forall i :: 0 <= i < |acts| ==> Spares(states[i].sys, acts[i], p)
  }

  /** The pages of p are in the same frames as at first, and hold the same. */
  ghost predicate Kept(s: Mid, s': Mid, p: nat) {
    p in s.sys.spaces && p in s'.sys.spaces && s'.sys.spaces[p] == s.sys.spaces[p]
    && PagesOf(s.sys.spaces[p].table, s'.phys) == PagesOf(s.sys.spaces[p].table, s.phys)
  }

  lemma ActSize(s: Mid, act: Act, caller: nat, others: set<nat>, s': Mid)
    requires Live(s) && Acts(s, act, caller, others, s')
    ensures Live(s')
  {
    ActOk(s, act, caller, others, s', caller);
    if act.Do? && act.step.Fork? {
      var copies := CopiesOf(s.sys, act.step);
      if copies != [] { var k := BeforeLast(s.phys, copies, KernelFrames(s.sys), s'.phys); }
    }
  }

  lemma ActKeeps(s: Mid, act: Act, caller: nat, others: set<nat>, s': Mid, p: nat)
    requires Live(s) && Acts(s, act, caller, others, s') && Spares(s.sys, act, p)
    requires p in s.sys.spaces && p in others && p != caller
    ensures Kept(s, s', p)
  {
    ActOk(s, act, caller, others, s', p);
    forall v | v in s.sys.spaces[p].table
      ensures PageAt(s'.phys, s.sys.spaces[p].table[v].pfn) == PageAt(s.phys, s.sys.spaces[p].table[v].pfn)
    {
      assert Mapped(s.sys, p, v);
      ActPage(s, act, caller, others, s', p, v);
    }
  }

  lemma {:induction false} ServesOk(states: seq<Mid>, acts: seq<Act>, caller: nat, others: set<nat>, n: nat)
    requires Serves(states, acts, caller, others) && Live(states[0]) && n < |states|
    requires caller !in others && others <= states[0].sys.spaces.Keys
    ensures Live(states[n]) && others <= states[n].sys.spaces.Keys
    decreases n
  {
    if n > 0 {
      ServesOk(states, acts, caller, others, n - 1);
      assert Acts(states[n - 1], acts[n - 1], caller, others, states[n - 1 + 1]);
      ActSize(states[n - 1], acts[n - 1], caller, others, states[n]);
      forall q | q in others ensures q in states[n].sys.spaces {
        ActOk(states[n - 1], acts[n - 1], caller, others, states[n], q);
      }
    }
  }

  lemma KeptOn(s: Mid, s1: Mid, s2: Mid, p: nat)
    requires Kept(s, s1, p) && Kept(s1, s2, p)
    ensures Kept(s, s2, p)
  {}

  /** What the kernel does for its caller leaves every bystander's pages as they are, unless a fork runs on into them. */
  lemma {:induction false} ServesKeeps(states: seq<Mid>, acts: seq<Act>, caller: nat, others: set<nat>, p: nat, n: nat)
    requires Serves(states, acts, caller, others) && Live(states[0]) && n < |states| && SparesAll(states, acts, p)
    requires caller !in others && others <= states[0].sys.spaces.Keys && p in others
    ensures Kept(states[0], states[n], p)
    decreases n
  {
    if n > 0 {
      var i := n - 1;
      ServesKeeps(states, acts, caller, others, p, i);
      ServesOk(states, acts, caller, others, i);
      assert Acts(states[i], acts[i], caller, others, states[i + 1]) && Spares(states[i].sys, acts[i], p);
      ActKeeps(states[i], acts[i], caller, others, states[n], p);
      KeptOn(states[0], states[i], states[n], p);
    }
  }

  /**
   * What a system call does: the acts, the contexts the kernel leaves for its caller and for new processes, and who is
   * dispatched.
   */
  datatype Call = Call(acts: seq<Act>, states: seq<Mid>, contexts: map<nat, Saved>, next: nat, k0: nat, k1: nat)

  function Returned(s: Mid, saved: map<nat, Saved>, next: nat, k0: nat, k1: nat): Vm
    requires next in saved && |saved[next].regs| == REGISTERS
  {
    Vm(s.sys, s.phys, [], Restore(saved[next], k0, k1), saved - {next}, next)
  }

  ghost predicate CallStep(vm: Vm, c: Call, vm': Vm)
    requires Ok(vm)
  {
    && Outcome(vm).0.SysCall?
    && Serves(c.states, c.acts, vm.cur, vm.saved.Keys) && c.states[0] == Mid(vm.sys, vm.phys)
    && var last := c.states[|c.acts|];
    && c.contexts.Keys == last.sys.spaces.Keys - vm.saved.Keys && (forall q :: q in c.contexts ==> ValidSaved(c.contexts[q]))
    && c.next in (vm.saved + c.contexts) && ValidSaved((vm.saved + c.contexts)[c.next])
    && vm' == Returned(last, vm.saved + c.contexts, c.next, c.k0, c.k1)
  }

  lemma CallOk(vm: Vm, c: Call, vm': Vm)
    requires Ok(vm) && CallStep(vm, c, vm')
    ensures Ok(vm') && Warm(vm') && vm.saved.Keys <= vm'.sys.spaces.Keys
  {
    ServesOk(c.states, c.acts, vm.cur, vm.saved.Keys, |c.acts|);
  }

  /** A system call of somebody else, whatever it does for its caller: p keeps its registers and its pages. */
  lemma CallKeepsView(vm: Vm, c: Call, vm': Vm, p: nat)
    requires Ok(vm) && CallStep(vm, c, vm') && p in vm.saved && SparesAll(c.states, c.acts, p)
    ensures Ok(vm') && p in vm'.sys.spaces && ProcView(vm', p) == ProcView(vm, p)
  {
    CallOk(vm, c, vm');
    ServesKeeps(c.states, c.acts, vm.cur, vm.saved.Keys, p, |c.acts|);
    if p == c.next { ClobberMasked(Context(vm.saved[p].regs, Resume(vm.saved[p].epc)), c.k0, c.k1); }
  }

  // ---- Runs ----

  datatype Move = Cycle(k0: nat, k1: nat) | Interrupt(next: nat, k0: nat, k1: nat) | Serve(call: Call)

  /**
   * The machine moves on, p making no system call. p must stay on its own pages and off its own code; the others may
   * run anything, as long as they store below 0x80000000 and their forks do not run on into p's frames.
   */
  ghost predicate Moves(vm: Vm, m: Move, vm': Vm, p: nat) {
    Ok(vm) &&
    match m
    case Cycle(k0, k1) =>
      && CycleNext(vm, k0, k1) == Some(vm')
      && (if vm.cur == p then !PrivateCycle(ProcView(vm, p)).Failed? && SparesCode(vm) else StoresLow(vm))
    case Interrupt(next, k0, k1) => next in vm.sys.spaces && vm' == Interrupted(vm, next, k0, k1)
    case Serve(call) => vm.cur != p && CallStep(vm, call, vm') && SparesAll(call.states, call.acts, p)
  }

  /** A run during which p makes no system call; it starts, and therefore stays, with p alive. */
  ghost predicate RunFor(vms: seq<Vm>, moves: seq<Move>, p: nat) {
    && |vms| == |moves| + 1 && Good(vms[0], p)
    && (forall i :: 0 <= i < |moves| ==> Moves(vms[i], moves[i], vms[i + 1], p))
  }

  ghost predicate Good(vm: Vm, p: nat) { Ok(vm) && p in vm.sys.spaces && (vm.cur == p ==> Warm(vm)) }

  ghost predicate CompletesFor(vm: Vm, m: Move, p: nat) {
    m.Cycle? && vm.cur == p && Ok(vm) && Completes(vm)
  }

  /** One instruction on private memory, if it does not fail. */
  function PrivateNext(u: Proc): Option<Proc> {
    if ValidContext(u.ctx) && PrivateCycle(u).Ran? then Some(PrivateCycle(u).proc) else None
  }

  function Iterate<T>(next: T -> Option<T>, v: T, k: nat): Option<T> {
    if k == 0 then Some(v)
    else match Iterate(next, v, k - 1)
      case None => None
      case Some(u) => next(u)
  }

  /** k instructions on private memory, if none of them fails. */
  function After(v: Proc, k: nat): Option<Proc> { Iterate(PrivateNext, v, k) }

  /** One private step, or none. */
  ghost predicate Progress(u: Proc, w: Proc, one: bool) {
    if one then ValidContext(u.ctx) && PrivateCycle(u) == Ran(w) else w == u
  }

  lemma OwnCycleMoves(vm: Vm, k0: nat, k1: nat, vm': Vm)
    requires Ok(vm) && Warm(vm) && CycleNext(vm, k0, k1) == Some(vm')
    requires !PrivateCycle(ProcView(vm, vm.cur)).Failed? && SparesCode(vm)
    ensures Good(vm', vm.cur) && Progress(ProcView(vm, vm.cur), ProcView(vm', vm.cur), Completes(vm))
  {
    CycleViews(vm, k0, k1);
  }

  lemma OtherCycleMoves(vm: Vm, k0: nat, k1: nat, vm': Vm, p: nat)
    requires Good(vm, p) && Moves(vm, Cycle(k0, k1), vm', p) && vm.cur != p
    ensures Good(vm', p) && ProcView(vm', p) == ProcView(vm, p)
  {
    OtherCycle(vm, k0, k1, p);
  }

  lemma InterruptMoves(vm: Vm, next: nat, k0: nat, k1: nat, vm': Vm, p: nat)
    requires Good(vm, p) && Moves(vm, Move.Interrupt(next, k0, k1), vm', p)
    ensures Good(vm', p) && ProcView(vm', p) == ProcView(vm, p)
  {
    InterruptKeepsViews(vm, next, k0, k1);
  }

  lemma ServeMoves(vm: Vm, call: Call, vm': Vm, p: nat)
    requires Good(vm, p) && Moves(vm, Serve(call), vm', p)
    ensures Good(vm', p) && ProcView(vm', p) == ProcView(vm, p)
  {
    CallOk(vm, call, vm');
    CallKeepsView(vm, call, vm', p);
  }

  lemma MoveViews(vm: Vm, m: Move, vm': Vm, p: nat)
    requires Good(vm, p) && Moves(vm, m, vm', p)
    ensures Good(vm', p) && Progress(ProcView(vm, p), ProcView(vm', p), CompletesFor(vm, m, p))
  {
    match m
    case Cycle(k0, k1) => if vm.cur == p { OwnCycleMoves(vm, k0, k1, vm'); } else { OtherCycleMoves(vm, k0, k1, vm', p); }
    case Interrupt(next, k0, k1) => InterruptMoves(vm, next, k0, k1, vm', p);
    case Serve(call) => ServeMoves(vm, call, vm', p);
  }

  lemma MoveGood(vm: Vm, m: Move, vm': Vm, p: nat)
    requires Good(vm, p) && Moves(vm, m, vm', p)
    ensures Good(vm', p)
  {
    MoveViews(vm, m, vm', p);
  }

  function Count(ones: seq<bool>, n: nat): nat
    requires n <= |ones|
  {
    if n == 0 then 0 else Count(ones, n - 1) + if ones[n - 1] then 1 else 0
  }

  lemma {:induction false} Chain<T>(next: T -> Option<T>, us: seq<T>, ones: seq<bool>, n: nat)
    requires |us| == |ones| + 1 && n <= |ones|
    requires forall i :: 0 <= i < |ones| ==> if ones[i] then next(us[i]) == Some(us[i + 1]) else us[i + 1] == us[i]
    ensures Iterate(next, us[0], Count(ones, n)) == Some(us[n])
  {
    if n > 0 {
      var i := n - 1;
      Chain(next, us, ones, i);
      assert if ones[i] then next(us[i]) == Some(us[i + 1]) else us[i + 1] == us[i];
    }
  }

  lemma ProgressNext(u: Proc, w: Proc, one: bool)
    requires Progress(u, w, one)
    ensures if one then PrivateNext(u) == Some(w) else w == u
  {}

  lemma {:induction false} RunGood(vms: seq<Vm>, moves: seq<Move>, p: nat, n: nat)
    requires RunFor(vms, moves, p) && n <= |moves|
    ensures Good(vms[n], p)
  {
    if n > 0 {
      var i := n - 1;
      RunGood(vms, moves, p, i);
      assert Moves(vms[i], moves[i], vms[i + 1], p);
      MoveGood(vms[i], moves[i], vms[i + 1], p);
    }
  }

  /** Which moves of the run complete an instruction of p. */
  ghost function Completions(vms: seq<Vm>, moves: seq<Move>, p: nat): seq<bool>
    requires |moves| <= |vms|
  {
    seq(|moves|, i requires 0 <= i < |moves| => CompletesFor(vms[i], moves[i], p))
  }

  lemma RunProgress(vms: seq<Vm>, moves: seq<Move>, p: nat, i: nat)
    requires RunFor(vms, moves, p) && i < |moves|
    ensures Good(vms[i], p) && Good(vms[i + 1], p)
    ensures Progress(ProcView(vms[i], p), ProcView(vms[i + 1], p), CompletesFor(vms[i], moves[i], p))
  {
    RunGood(vms, moves, p, i);
    assert Moves(vms[i], moves[i], vms[i + 1], p);
    MoveViews(vms[i], moves[i], vms[i + 1], p);
  }

  /**
   * Paging is invisible over whole runs: after any run of cycles, misses, interrupts, switches and other processes'
   * system calls, p is exactly where running its completed instructions on memory of its own would have put it.
   */
  lemma RunIsPrivate(vms: seq<Vm>, moves: seq<Move>, p: nat, n: nat)
    requires RunFor(vms, moves, p) && n <= |moves|
    ensures Good(vms[n], p)
    ensures After(ProcView(vms[0], p), Count(Completions(vms, moves, p), n)) == Some(ProcView(vms[n], p))
  {
    forall i | 0 <= i < |vms| ensures Placed(vms[i]) && Good(vms[i], p) { RunGood(vms, moves, p, i); }
    var us := seq(|vms|, i requires 0 <= i < |vms| => ProcView(vms[i], p));
    var ones := Completions(vms, moves, p);
    forall i | 0 <= i < |ones| ensures if ones[i] then PrivateNext(us[i]) == Some(us[i + 1]) else us[i + 1] == us[i] {
      RunProgress(vms, moves, p, i);
      ProgressNext(us[i], us[i + 1], ones[i]);
    }
    Chain(PrivateNext, us, ones, n);
  }

  /** The starting point is reachable: the first process on a booted machine, with an empty instruction cache. */
  lemma FirstOk(boundary: nat, p: nat, wants: seq<Want>, brk: nat, phys: Memory, cpu: Context)
    requires boundary <= NUM_PAGES && Boot(boundary).Some? && p !in Boot(boundary).value.spaces && UserWants(wants)
    requires Open(Boot(boundary).value, p, wants, brk).Some? && |phys| == PHYS_MEM_SIZE && ValidContext(cpu)
    ensures Good(Vm(Open(Boot(boundary).value, p, wants, brk).value, phys, [], cpu, map[], p), p)
  {
    BootOwned(boundary);
    var s := Boot(boundary).value;
    OpenOwned(s, p, wants, brk);
    OpenConsistent(s, p, wants, brk);
  }
}
