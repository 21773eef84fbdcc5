/** One core: instructions, the cycle that fetches and executes them, and the cache of decoded instructions. */
module Machine {
  import opened Bytes
  import opened Options
  import opened Tlb
  import opened LruSpec
  import opened PageTables

  type Memory = seq<Byte>

  const REGISTERS: nat := 32
  const RA: nat := 31
  const K0: nat := 26
  const K1: nat := 27
  const CACHE_CAPACITY: nat := 32768

  function Wrap(x: int): nat { x % WORD_LIMIT }

  // ---- Instructions ----

  datatype Instr =
    | Load(size: nat, signed: bool, rt: nat, rs: nat, imm: int)
    | Store(size: nat, rt: nat, rs: nat, imm: int)
    | Branch(onEqual: bool, rt: nat, rs: nat, imm: int)
    | Jump(target: nat)
    | JumpLink(target: nat)
    | JumpReg(rs: nat)
    | AddImm(rt: nat, rs: nat, imm: int)
    | Syscall
    | Unmodelled

  function SignExtend(x: nat, limit: nat): int { if x >= limit / 2 then x - limit else x }

  /** The region of pc + 4 joined with the 25 target bits the source keeps, less the 4 that every cycle adds. */
  function JumpTarget(w: nat, pc: nat): nat {
    Wrap(Wrap(pc + 4) / 0x1000_0000 * 0x1000_0000 + w % 0x200_0000 * 4 - 4)
  }

  const R_FUNCTS: set<nat> := {
    0x00, 0x02, 0x03, 0x04, 0x06, 0x07, 0x08, 0x09, 0x0b, 0x0c, 0x0f, 0x10, 0x11, 0x12, 0x13, 0x18, 0x19, 0x1a, 0x1b,
    0x20, 0x21, 0x22, 0x23, 0x24, 0x25, 0x26, 0x27, 0x2a, 0x2b, 0x34, 0x3f }

  const OPCODES: set<nat> := {
    0x02, 0x03, 0x04, 0x05, 0x06, 0x07, 0x08, 0x09, 0x0a, 0x0b, 0x0c, 0x0d, 0x0e, 0x0f,
    0x20, 0x21, 0x23, 0x24, 0x25, 0x28, 0x29, 0x2b, 0x2f, 0x31, 0x39 }

  /** The words some decoding table lists; any other word is a reserved instruction. */
  predicate Listed(w: nat) {
    var opcode, rs, rt, funct := w / 0x400_0000 % 64, w / 0x20_0000 % 32, w / 0x1_0000 % 32, w % 64;
    if opcode == 0x00 then funct in R_FUNCTS
    else if opcode == 0x01 then rt < 2
    else if opcode == 0x10 then (rs == 0x10 && funct in {1, 2, 6, 8, 0x18}) || rs == 0 || rs == 4
    else if opcode == 0x11 then funct < 4
    else if opcode == 0x1c then funct == 2
    else opcode in OPCODES
  }

  /** None is the reserved-instruction trap that decoding raises. */
  function Decode(w: nat, pc: nat): Option<Instr> {
    var opcode, rs, rt := w / 0x400_0000 % 64, w / 0x20_0000 % 32, w / 0x1_0000 % 32;
    var imm := SignExtend(w % 0x1_0000, 0x1_0000);
    if !Listed(w) then None
    else match opcode
      case 0x00 => Some(if w % 64 == 0x08 then JumpReg(rs) else if w % 64 == 0x0c then Syscall else Unmodelled)
      case 0x02 => Some(Jump(JumpTarget(w, pc)))
      case 0x03 => Some(JumpLink(JumpTarget(w, pc)))
      case 0x04 => Some(Branch(true, rt, rs, imm))
      case 0x05 => Some(Branch(false, rt, rs, imm))
      case 0x09 => Some(AddImm(rt, rs, imm))
      case 0x20 => Some(Load(1, true, rt, rs, imm))
      case 0x21 => Some(Load(2, true, rt, rs, imm))
      case 0x23 => Some(Load(4, true, rt, rs, imm))
      case 0x24 => Some(Load(1, false, rt, rs, imm))
      case 0x25 => Some(Load(2, false, rt, rs, imm))
      case 0x28 => Some(Store(1, rt, rs, imm))
      case 0x29 => Some(Store(2, rt, rs, imm))
      case 0x2b => Some(Store(4, rt, rs, imm))
      case _ => Some(Unmodelled)
  }

  predicate WellFormed(i: Instr) {
    match i
    case Load(size, _, rt, rs, _) => size in {1, 2, 4} && rt < REGISTERS && rs < REGISTERS
    case Store(size, rt, rs, _) => size in {1, 2, 4} && rt < REGISTERS && rs < REGISTERS
    case Branch(_, rt, rs, _) => rt < REGISTERS && rs < REGISTERS
    case JumpReg(rs) => rs < REGISTERS
    case AddImm(rt, rs, _) => rt < REGISTERS && rs < REGISTERS
    case _ => true
  }

  lemma DecodeWellFormed(w: nat, pc: nat)
    ensures Decode(w, pc).Some? ==> WellFormed(Decode(w, pc).value)
  {}

  // ---- Registers and the access an instruction asks for ----

  datatype Context = Context(regs: seq<nat>, pc: nat)

  predicate ValidContext(c: Context) { |c.regs| == REGISTERS && c.pc < WORD_LIMIT }

  datatype Plan =
    | Go(ctx: Context)
    | Read(addr: nat, size: nat, signed: bool, rt: nat)
    | Write(addr: nat, size: nat, value: nat)
    | Trap
    | Stuck

  /** What an instruction computes from the registers alone; pc has already moved past the instruction. */
  function PlanOf(i: Instr, c: Context): Plan
    requires WellFormed(i) && ValidContext(c)
  {
    var next := Wrap(c.pc + 4);
    match i
    case Load(size, signed, rt, rs, imm) => Read(Wrap(c.regs[rs] + imm), size, signed, rt)
    case Store(size, rt, rs, imm) => Write(Wrap(c.regs[rs] + imm), size, c.regs[rt])
    case Branch(onEqual, rt, rs, imm) =>
      Go(c.(pc := if (c.regs[rt] == c.regs[rs]) == onEqual then Wrap(c.pc + imm * 4 + 4) else next))
    case Jump(target) => Go(c.(pc := Wrap(target + 4)))
    case JumpLink(target) => Go(Context(c.regs[RA := next], Wrap(target + 4)))
    case JumpReg(rs) => Go(c.(pc := Wrap(Wrap(c.regs[rs] as int - 4) + 4)))
    case AddImm(rt, rs, imm) => Go(Context(c.regs[rt := Wrap(c.regs[rs] + imm)], next))
    case Syscall => Trap
    case Unmodelled => Stuck
  }

  /** One more than the largest number of this many bytes. */
  function Top(size: nat): nat { if size == 1 then 256 else if size == 2 then 0x1_0000 else WORD_LIMIT }

  /** What a register holds after loading a value of this many bytes. */
  function Extended(value: nat, size: nat, signed: bool): nat {
    if signed then Wrap(SignExtend(value, Top(size))) else value
  }

  function AfterRead(c: Context, p: Plan, value: nat): Context
    requires p.Read? && p.rt < |c.regs|
  {
    Context(c.regs[p.rt := Extended(value, p.size, p.signed)], Wrap(c.pc + 4))
  }

  // ---- Memory, big-endian ----

  /** Loading back what was stored returns the value's low bytes. */
  lemma LoadStored(value: nat, size: nat)
    requires size in {1, 2, 4}
    ensures BigEndian(ToBytes(value, size)) == value % Top(size)
  {
    Limits();
    ReadBytes(value, size);
  }

  function Put(m: Memory, at: nat, bytes: seq<Byte>): Memory
    requires at + |bytes| <= |m|
  {
    m[..at] + bytes + m[at + |bytes|..]
  }

  // ---- Translation ----

  /** How addresses are translated: by the TLB under an ASID, or straight through a page table. */
  datatype Translation = ByTlb(tlb: seq<TlbEntry>, asid: nat) | ByTable(table: Table)

  function Look(x: Translation, a: nat): Option<nat> {
    match x
    case ByTlb(tlb, asid) => Translate(tlb, a, asid)
    case ByTable(t) =>
      if DIRECT_START <= a < DIRECT_END then Some(a - DIRECT_START)
      else if a / PAGE in t then Some(t[a / PAGE].pfn * PAGE + a % PAGE)
      else None
  }

  // ---- The cycle ----

  datatype Outcome =
    | Done(ctx: Context, phys: Memory)
    | Miss(vaddr: nat, store: bool)
    | SysCall
    | Reserved
    | Abort

  function Perform(p: Plan, x: Translation, phys: Memory, c: Context): Outcome
    requires p.Read? ==> p.size > 0 && p.rt < |c.regs|
    requires p.Write? ==> p.size > 0
  {
    match p
    case Go(c') => Done(c', phys)
    case Trap => SysCall
    case Stuck => Abort
    case Read(a, size, _, _) =>
      (match Look(x, a)
       case None => Miss(a, false)
       case Some(pa) =>
         if pa % size != 0 || pa + size > |phys| then Abort
         else Done(AfterRead(c, p, BigEndian(phys[pa..pa + size])), phys))
    case Write(a, size, value) =>
      (match Look(x, a)
       case None => Miss(a, true)
       case Some(pa) =>
         if pa % size != 0 || pa + size > |phys| then Abort
         else Done(c.(pc := Wrap(c.pc + 4)), Put(phys, pa, ToBytes(value, size))))
  }

  /** A load from an address just stored to returns the low bytes stored, extended as the load says. */
  lemma StoreLoad(a: nat, size: nat, value: nat, signed: bool, rt: nat, x: Translation, phys: Memory, c: Context)
    requires size in {1, 2, 4} && rt < |c.regs| && Perform(Write(a, size, value), x, phys, c).Done?
    ensures
      var s := Perform(Write(a, size, value), x, phys, c);
      var l := Perform(Read(a, size, signed, rt), x, s.phys, s.ctx);
      l.Done? && l.phys == s.phys && l.ctx.regs == c.regs[rt := Extended(value % Top(size), size, signed)]
    ensures size == 4 && value < WORD_LIMIT ==> Extended(value % Top(size), size, signed) == value
  {
    LoadStored(value, size);
    StoreDone(a, size, value, x, phys, c);
    var s := Perform(Write(a, size, value), x, phys, c);
    PutBack(phys, Look(x, a).value, ToBytes(value, size));
    LoadDone(Read(a, size, signed, rt), x, s.phys, s.ctx, value % Top(size));
    FullWord(value);
  }

  lemma StoreDone(a: nat, size: nat, value: nat, x: Translation, phys: Memory, c: Context)
    requires size > 0 && Perform(Write(a, size, value), x, phys, c).Done?
    ensures Look(x, a).Some? && Look(x, a).value % size == 0 && Look(x, a).value + size <= |phys|
    ensures Perform(Write(a, size, value), x, phys, c)
         == Done(c.(pc := Wrap(c.pc + 4)), Put(phys, Look(x, a).value, ToBytes(value, size)))
  {}

  lemma LoadDone(p: Plan, x: Translation, phys: Memory, c: Context, value: nat)
    requires p.Read? && p.size > 0 && p.rt < |c.regs| && Look(x, p.addr).Some?
    requires Look(x, p.addr).value % p.size == 0 && Look(x, p.addr).value + p.size <= |phys|
    requires BigEndian(phys[Look(x, p.addr).value..Look(x, p.addr).value + p.size]) == value
    ensures Perform(p, x, phys, c) == Done(AfterRead(c, p, value), phys)
  {}

  lemma PutBack(m: Memory, at: nat, bytes: seq<Byte>)
    requires at + |bytes| <= |m|
    ensures |Put(m, at, bytes)| == |m| && Put(m, at, bytes)[at..at + |bytes|] == bytes
  {}

  lemma FullWord(value: nat)
    ensures value < WORD_LIMIT ==> Extended(value % Top(4), 4, true) == value && Extended(value % Top(4), 4, false) == value
  {}

  lemma PutApart(m: Memory, at: nat, bytes: seq<Byte>, from: nat, n: nat)
    requires at + |bytes| <= |m| && from + n <= |m| && (at + |bytes| <= from || from + n <= at)
    ensures Put(m, at, bytes)[from..from + n] == m[from..from + n]
  {}

  /** A load whose bytes do not meet those of a store is not affected by it. */
  lemma LoadElsewhere(w: Plan, r: Plan, x: Translation, phys: Memory, c: Context)
    requires w.Write? && w.size in {1, 2, 4} && r.Read? && r.size in {1, 2, 4} && r.rt < |c.regs|
    requires Look(x, w.addr).Some? && Look(x, r.addr).Some? && Perform(w, x, phys, c).Done?
    requires Look(x, w.addr).value + w.size <= Look(x, r.addr).value || Look(x, r.addr).value + r.size <= Look(x, w.addr).value
    ensures
      var after, before := Perform(r, x, Perform(w, x, phys, c).phys, c), Perform(r, x, phys, c);
      if before.Done? then after.Done? && after.ctx == before.ctx else after == before
  {
    var pw, pr := Look(x, w.addr).value, Look(x, r.addr).value;
    if pr + r.size <= |phys| { PutApart(phys, pw, ToBytes(w.value, w.size), pr, r.size); }
  }

  function Execute(i: Instr, x: Translation, phys: Memory, c: Context): Outcome
    requires WellFormed(i) && ValidContext(c)
  {
    Perform(PlanOf(i, c), x, phys, c)
  }

  datatype Fetched = Word(w: nat) | FetchMiss | BadFetch

  function Fetch(x: Translation, phys: Memory, pc: nat): Fetched {
    match Look(x, pc)
    case None => FetchMiss
    case Some(pa) => if pa % 4 != 0 || pa + 4 > |phys| then BadFetch else Word(BigEndian(phys[pa..pa + 4]))
  }

  /** Fetching and decoding on every cycle: the behaviour the instruction cache must not change. */
  function DirectCycle(x: Translation, phys: Memory, c: Context): Outcome
    requires ValidContext(c)
  {
    match Fetch(x, phys, c.pc)
    case FetchMiss => Miss(c.pc, false)
    case BadFetch => Abort
    case Word(w) =>
      DecodeWellFormed(w, c.pc);
      if Decode(w, c.pc).None? then Reserved else Execute(Decode(w, c.pc).value, x, phys, c)
  }

  type Cache = Store<nat, Option<Instr>>

  /** What the first half of a cycle leaves: an instruction to run, a trap of the fetch or of decoding, or a stop. */
  datatype Slot = Instruction(i: Instr) | FetchTrap | Illegal | Stop

  /** The slot of an address, decoded now if it was empty: operator[] creates it, and it stays empty when the fill traps. */
  function FillSlot(cache: Cache, x: Translation, phys: Memory, pc: nat): (Slot, Cache) {
    var slot := Access(cache, CACHE_CAPACITY, pc, None);
    if slot[0].1.Some? then (Instruction(slot[0].1.value), slot)
    else match Fetch(x, phys, pc)
      case FetchMiss => (FetchTrap, slot)
      case BadFetch => (Stop, slot)
      case Word(w) =>
        match Decode(w, pc)
        case None => (Illegal, slot)
        case Some(i) => (Instruction(i), SetFront(slot, Some(i)))
  }

  lemma FilledWellFormed(cache: Cache, x: Translation, phys: Memory, pc: nat)
    requires WellFormedCache(cache)
    ensures var (f, cache') := FillSlot(cache, x, phys, pc);
      WellFormedCache(cache') && (f.Instruction? ==> WellFormed(f.i))
  {
    AccessEntries(cache, pc);
    if Fetch(x, phys, pc).Word? { DecodeWellFormed(Fetch(x, phys, pc).w, pc); }
  }

  /** The second half of a cycle. */
  function Finish(f: Slot, x: Translation, phys: Memory, c: Context): Outcome
    requires ValidContext(c) && (f.Instruction? ==> WellFormed(f.i))
  {
    match f
    case Instruction(i) => Execute(i, x, phys, c)
    case FetchTrap => Miss(c.pc, false)
    case Illegal => Reserved
    case Stop => Abort
  }

  /** The cycle as it runs, through the instruction cache. */
  function CoreCycle(cache: Cache, x: Translation, phys: Memory, c: Context): (Outcome, Cache)
    requires ValidContext(c) && WellFormedCache(cache)
  {
    FilledWellFormed(cache, x, phys, c.pc);
    var (f, cache') := FillSlot(cache, x, phys, c.pc);
    (Finish(f, x, phys, c), cache')
  }

  predicate WellFormedCache(cache: Cache) {
    forall k :: 0 <= k < |cache| && cache[k].1.Some? ==> WellFormed(cache[k].1.value)
  }

  lemma AccessEntries(cache: Cache, pc: nat)
    ensures forall e :: e in Access(cache, CACHE_CAPACITY, pc, None) ==> e in cache || e == (pc, None)
    ensures WellFormedCache(cache) ==> WellFormedCache(Access(cache, CACHE_CAPACITY, pc, None))
  {
    var r := Access(cache, CACHE_CAPACITY, pc, None);
    forall k | 0 <= k < |r| ensures r[k] in cache || r[k] == (pc, None) {}
    if WellFormedCache(cache) {
      forall k | 0 <= k < |r| && r[k].1.Some? ensures WellFormed(r[k].1.value) {
        var j :| 0 <= j < |cache| && cache[j] == r[k];
      }
    }
  }

  lemma FrontKept(cache: Cache, pc: nat)
    requires |cache| > 0 && cache[0].0 == pc
    ensures Access(cache, CACHE_CAPACITY, pc, None)[0] == cache[0]
  {}

  /** Every cached instruction is what a fetch at its address, decoded there, would give now. */
  ghost predicate Coherent(cache: Cache, x: Translation, phys: Memory) {
    forall e :: e in cache && e.1.Some? ==> CachedRight(e, x, phys)
  }

  ghost predicate CachedRight(e: (nat, Option<Instr>), x: Translation, phys: Memory)
    requires e.1.Some?
  {
    var f := Fetch(x, phys, e.0);
    f.Word? && e.1 == Decode(f.w, e.0)
  }

  lemma CoherentWellFormed(cache: Cache, x: Translation, phys: Memory)
    requires Coherent(cache, x, phys)
    ensures WellFormedCache(cache)
  {
    forall k | 0 <= k < |cache| && cache[k].1.Some? ensures WellFormed(cache[k].1.value) {
      assert cache[k] in cache && CachedRight(cache[k], x, phys);
      DecodeWellFormed(Fetch(x, phys, cache[k].0).w, cache[k].0);
    }
  }

  /** A translation that never contradicts another one; it may miss where the other one does not. */
  ghost predicate Agrees(x: Translation, y: Translation) {
    forall a :: Look(y, a).Some? ==> Look(x, a).None? || Look(x, a) == Look(y, a)
  }

  /** With the same translation on both sides there is no miss left: caching is transparent, evictions and empty slots included. */
  lemma CacheTransparent(cache: Cache, x: Translation, phys: Memory, c: Context)
    requires ValidContext(c) && Coherent(cache, x, phys) && WellFormedCache(cache)
    ensures CoreCycle(cache, x, phys, c).0 == DirectCycle(x, phys, c)
    ensures Coherent(CoreCycle(cache, x, phys, c).1, x, phys)
  {
    var slot := Access(cache, CACHE_CAPACITY, c.pc, None);
    var cache' := CoreCycle(cache, x, phys, c).1;
    AccessEntries(cache, c.pc);
    assert slot[0] in slot;
    if slot[0].1.Some? { assert CachedRight(slot[0], x, phys); }
    if cache' != slot {
      forall e | e in cache' && e.1.Some? ensures CachedRight(e, x, phys) {
        if e != cache'[0] { assert e in slot; }
      }
    }
  }

  lemma ExecuteAgrees(i: Instr, x: Translation, y: Translation, phys: Memory, c: Context)
    requires WellFormed(i) && ValidContext(c) && Agrees(x, y) && !Execute(i, y, phys, c).Miss?
    ensures
      var o := Execute(i, x, phys, c);
      o == Execute(i, y, phys, c) || (o.Miss? && Look(x, o.vaddr).None? && Look(y, o.vaddr).Some?)
  {}

  /** The cached cycle over a partial translation does what the direct cycle over the full one does, or misses. */
  lemma CachedIsDirect(cache: Cache, x: Translation, y: Translation, phys: Memory, c: Context)
    requires ValidContext(c) && Coherent(cache, y, phys) && WellFormedCache(cache) && Agrees(x, y)
    requires !DirectCycle(y, phys, c).Miss?
    ensures
      var (o, cache') := CoreCycle(cache, x, phys, c);
      && (o == DirectCycle(y, phys, c) || (o.Miss? && Look(x, o.vaddr).None? && Look(y, o.vaddr).Some?))
      && Coherent(cache', y, phys)
  {
    CacheTransparent(cache, y, phys, c);
    var slot := Access(cache, CACHE_CAPACITY, c.pc, None);
    if slot[0].1.Some? { CachedHit(cache, x, y, phys, c); } else { CachedMiss(cache, x, y, phys, c); }
  }

  lemma CachedHit(cache: Cache, x: Translation, y: Translation, phys: Memory, c: Context)
    requires ValidContext(c) && Coherent(cache, y, phys) && WellFormedCache(cache) && Agrees(x, y)
    requires !DirectCycle(y, phys, c).Miss? && CoreCycle(cache, y, phys, c).0 == DirectCycle(y, phys, c)
    requires Access(cache, CACHE_CAPACITY, c.pc, None)[0].1.Some?
    ensures
      var (o, cache') := CoreCycle(cache, x, phys, c);
      && (o == DirectCycle(y, phys, c) || (o.Miss? && Look(x, o.vaddr).None? && Look(y, o.vaddr).Some?))
      && Coherent(cache', y, phys)
  {
    AccessEntries(cache, c.pc);
    var slot := Access(cache, CACHE_CAPACITY, c.pc, None);
    assert slot[0] in slot;
    ExecuteAgrees(slot[0].1.value, x, y, phys, c);
  }

  lemma CachedMiss(cache: Cache, x: Translation, y: Translation, phys: Memory, c: Context)
    requires ValidContext(c) && Coherent(cache, y, phys) && WellFormedCache(cache) && Agrees(x, y)
    requires !DirectCycle(y, phys, c).Miss? && CoreCycle(cache, y, phys, c).0 == DirectCycle(y, phys, c)
    requires Coherent(CoreCycle(cache, y, phys, c).1, y, phys) && Access(cache, CACHE_CAPACITY, c.pc, None)[0].1.None?
    ensures
      var (o, cache') := CoreCycle(cache, x, phys, c);
      && (o == DirectCycle(y, phys, c) || (o.Miss? && Look(x, o.vaddr).None? && Look(y, o.vaddr).Some?))
      && Coherent(cache', y, phys)
  {
    AccessEntries(cache, c.pc);
    assert Coherent(Access(cache, CACHE_CAPACITY, c.pc, None), y, phys);
    if Fetch(x, phys, c.pc) == Fetch(y, phys, c.pc) && Fetch(y, phys, c.pc).Word? {
      var w := Fetch(y, phys, c.pc).w;
      DecodeWellFormed(w, c.pc);
      if Decode(w, c.pc).Some? { ExecuteAgrees(Decode(w, c.pc).value, x, y, phys, c); }
    }
  }

  predicate Touches(p: Plan, a: nat) { (p.Read? || p.Write?) && p.addr == a }

  /** What a miss leaves in front: an empty slot if the fetch missed, the decoded instruction if the data did. */
  ghost predicate SlotLeft(o: Outcome, cache: Cache, y: Translation, phys: Memory, c: Context)
    requires ValidContext(c) && Fetch(y, phys, c.pc).Word? && o.Miss?
  {
    var i := Decode(Fetch(y, phys, c.pc).w, c.pc);
    && |cache| > 0 && cache[0].0 == c.pc
    && if cache[0].1.None? then o.vaddr == c.pc
       else cache[0].1 == i && WellFormed(i.value) && Touches(PlanOf(i.value, c), o.vaddr)
  }

  lemma MissedData(i: Instr, x: Translation, phys: Memory, c: Context)
    requires WellFormed(i) && ValidContext(c) && Execute(i, x, phys, c).Miss?
    ensures Touches(PlanOf(i, c), Execute(i, x, phys, c).vaddr)
  {}

  /** After a miss the slot of the current address is in front. */
  lemma MissSlot(cache: Cache, x: Translation, y: Translation, phys: Memory, c: Context)
    requires ValidContext(c) && Coherent(cache, y, phys) && WellFormedCache(cache) && Agrees(x, y)
    requires Fetch(y, phys, c.pc).Word? && CoreCycle(cache, x, phys, c).0.Miss?
    ensures var (o, cache') := CoreCycle(cache, x, phys, c); SlotLeft(o, cache', y, phys, c)
  {
    var slot := Access(cache, CACHE_CAPACITY, c.pc, None);
    var (f, filled) := FillSlot(cache, x, phys, c.pc);
    AccessEntries(cache, c.pc);
    FilledWellFormed(cache, x, phys, c.pc);
    assert slot[0] in slot;
    if slot[0].1.Some? { assert CachedRight(slot[0], y, phys); }
    if f.Instruction? { MissedData(f.i, x, phys, c); }
  }

  /** A store keeps the cache coherent when fetches at the cached addresses give the same words as before. */
  lemma StoreKeepsCoherent(cache: Cache, x: Translation, phys: Memory, phys': Memory)
    requires Coherent(cache, x, phys)
    requires forall e :: e in cache && e.1.Some? ==> Fetch(x, phys', e.0) == Fetch(x, phys, e.0)
    ensures Coherent(cache, x, phys')
  {
    forall e | e in cache && e.1.Some? ensures CachedRight(e, x, phys') {
      assert CachedRight(e, x, phys);
    }
  }

  lemma ExecuteValid(i: Instr, x: Translation, phys: Memory, c: Context)
    requires WellFormed(i) && ValidContext(c) && Execute(i, x, phys, c).Done?
    ensures ValidContext(Execute(i, x, phys, c).ctx)
  {}

  /** A cycle in its two halves. */
  lemma CycleIs(cache: Cache, x: Translation, phys: Memory, c: Context)
    requires ValidContext(c) && WellFormedCache(cache)
    ensures var (f, filled), (o, cache') := FillSlot(cache, x, phys, c.pc), CoreCycle(cache, x, phys, c);
      && cache' == filled && WellFormedCache(cache') && (o.Done? ==> ValidContext(o.ctx))
      && (f.Instruction? ==> WellFormed(f.i)) && o == Finish(f, x, phys, c)
  {
    CycleValid(cache, x, phys, c);
    FilledWellFormed(cache, x, phys, c.pc);
  }

  lemma CycleValid(cache: Cache, x: Translation, phys: Memory, c: Context)
    requires ValidContext(c) && WellFormedCache(cache)
    ensures var (o, cache') := CoreCycle(cache, x, phys, c);
      WellFormedCache(cache') && (o.Done? ==> ValidContext(o.ctx))
  {
    FilledWellFormed(cache, x, phys, c.pc);
    var f := FillSlot(cache, x, phys, c.pc).0;
    if CoreCycle(cache, x, phys, c).0.Done? { ExecuteValid(f.i, x, phys, c); }
  }
}

/** The core as an object: registers, coprocessor 0 and the instruction cache, updated cycle by cycle. */
module Cores {
  import opened Bytes
  import opened Options
  import opened Tlb
  import opened Lru
  import opened Machine

  const INTERRUPT: nat := 0
  const TLB_L: nat := 2
  const TLB_S: nat := 3
  const SYSCALL: nat := 8
  const RI: nat := 10

  /** What the kernel finds in coprocessor 0 after a trap. */
  datatype TrapState = TrapState(epc: nat, cause: nat, badVAddr: nat, exl: bool, ie: bool)

  /** How running an instruction ends: normally, by a throw, or by a failed assertion. */
  datatype Thrown = Nothing | Thrown(code: nat, bad: nat) | Asserted

  /** The throw, if any, that an outcome stands for. */
  function ThrowOf(o: Outcome): Thrown {
    match o
    case Done(_, _) => Nothing
    case Miss(a, store) => Thrown(if store then TLB_S else TLB_L, a)
    case SysCall => Thrown(SYSCALL, 0)
    case Reserved => Thrown(RI, 0)
    case Abort => Asserted
  }

  lemma WrapWrap(x: int, y: int)
    ensures Wrap(Wrap(x) + y) == Wrap(x + y)
  {}

  class Core {
    var registers: seq<nat>
    var programCounter: nat
    var physMem: Memory
    var cp0: TrapState
    const trapEntry: nat
    const instructionCache: LruCache<nat, Option<Instr>>

    ghost predicate Valid()
      reads this, instructionCache
    {
      && ValidContext(C()) && trapEntry < WORD_LIMIT
      && instructionCache.Valid() && WellFormedCache(instructionCache.View())
      && instructionCache.capacity == CACHE_CAPACITY && instructionCache.default == None
    }

    ghost function C(): Context
      reads this
    {
      Context(registers, programCounter)
    }

    constructor (phys: Memory, trapEntry: nat)
      requires trapEntry < WORD_LIMIT
      ensures Valid() && instructionCache.View() == [] && physMem == phys && fresh(instructionCache)
    {
      registers := seq(REGISTERS, _ => 0);
      programCounter := 0;
      physMem := phys;
      cp0 := TrapState(0, 0, 0, false, false);
      this.trapEntry := trapEntry;
      instructionCache := new LruCache(CACHE_CAPACITY, None);
    }

    method RaiseTrap(code: nat, bad: nat)
      modifies `programCounter, `cp0
      ensures programCounter == trapEntry && cp0 == TrapState(old(programCounter), code * 4, bad, true, false)
    {
      cp0 := cp0.(epc := programCounter);
      cp0 := cp0.(exl := true);
      cp0 := cp0.(badVAddr := bad);
      cp0 := cp0.(cause := code * 4);
      cp0 := cp0.(ie := false);
      programCounter := trapEntry;
    }

    // ---- Memory, byte by byte ----

    method GetBytes(pa: nat, size: nat) returns (value: nat)
      requires size in {1, 2, 4} && pa + size <= |physMem|
      ensures value == BigEndian(physMem[pa..pa + size]) && value < Top(size)
    {
      SmallValue(physMem[pa..pa + size]);
      var b0: nat := physMem[pa];
      if size == 1 {
        OneByte(physMem[pa..pa + 1]);
        return b0;
      }
      var b1: nat := physMem[pa + 1];
      if size == 2 {
        TwoBytes(physMem[pa..pa + 2]);
        return b0 * 0x100 + b1;
      }
      var b2: nat, b3: nat := physMem[pa + 2], physMem[pa + 3];
      FourBytes(physMem[pa..pa + 4]);
      return b0 * 0x100_0000 + b1 * 0x1_0000 + b2 * 0x100 + b3;
    }

    /** The conversion from char, short or int to the register. */
    static method Extend(value: nat, size: nat, signed: bool) returns (r: nat)
      requires size in {1, 2, 4} && value < Top(size)
      ensures r == Extended(value, size, signed)
    {
      r := value;
      if signed && value >= Top(size) / 2 { r := Wrap(value - Top(size)); }
    }

    method SetBytes(pa: nat, size: nat, value: nat)
      requires size in {1, 2, 4} && pa + size <= |physMem|
      modifies `physMem
      ensures physMem == Put(old(physMem), pa, ToBytes(value, size))
    {
      if size == 1 {
        OneDigit(value);
        physMem := physMem[pa := value % 0x100];
      } else if size == 2 {
        TwoDigits(value);
        physMem := physMem[pa := value / 0x100 % 0x100];
        physMem := physMem[pa + 1 := value % 0x100];
      } else {
        FourDigits(value);
        physMem := physMem[pa := value / 0x100_0000 % 0x100];
        physMem := physMem[pa + 1 := value / 0x1_0000 % 0x100];
        physMem := physMem[pa + 2 := value / 0x100 % 0x100];
        physMem := physMem[pa + 3 := value % 0x100];
      }
    }

    // ---- Instructions; the program counter is still on the instruction, and 4 is added after it ----

    method LoadValue(size: nat, signed: bool, rt: nat, rs: nat, imm: int, x: Translation) returns (t: Thrown)
      requires ValidContext(C()) && WellFormed(Load(size, signed, rt, rs, imm))
      modifies `registers
      ensures t == ThrowOf(Execute(Load(size, signed, rt, rs, imm), x, physMem, old(C())))
      ensures t.Nothing? ==> registers == Execute(Load(size, signed, rt, rs, imm), x, physMem, old(C())).ctx.regs
      ensures !t.Nothing? ==> registers == old(registers)
    {
      var addr := Wrap(registers[rs] + imm);
      var pa := Look(x, addr);
      if pa.None? { return Thrown(TLB_L, addr); }
      if pa.value % size != 0 || pa.value + size > |physMem| { return Asserted; }
      var value := GetBytes(pa.value, size);
      value := Extend(value, size, signed);
      registers := registers[rt := value];
      return Nothing;
    }

    method StoreValue(size: nat, rt: nat, rs: nat, imm: int, x: Translation) returns (t: Thrown)
      requires ValidContext(C()) && WellFormed(Store(size, rt, rs, imm))
      modifies `physMem
      ensures t == ThrowOf(Execute(Store(size, rt, rs, imm), x, old(physMem), C()))
      ensures t.Nothing? ==> physMem == Execute(Store(size, rt, rs, imm), x, old(physMem), C()).phys
      ensures !t.Nothing? ==> physMem == old(physMem)
    {
      var addr := Wrap(registers[rs] + imm);
      var pa := Look(x, addr);
      if pa.None? { return Thrown(TLB_S, addr); }
      if pa.value % size != 0 || pa.value + size > |physMem| { return Asserted; }
      SetBytes(pa.value, size, registers[rt]);
      return Nothing;
    }

    /** Runs one instruction up to the throw, if there is one; nothing has changed when there is. */
    method Run(i: Instr, x: Translation) returns (t: Thrown)
      requires ValidContext(C()) && WellFormed(i)
      modifies `registers, `programCounter, `physMem
      ensures t == ThrowOf(Execute(i, x, old(physMem), old(C())))
      ensures !t.Nothing? ==> C() == old(C()) && physMem == old(physMem)
      ensures t.Nothing? ==>
        Execute(i, x, old(physMem), old(C())) == Done(Context(registers, Wrap(programCounter + 4)), physMem)
    {
      t := Nothing;
      match i
      case Load(size, signed, rt, rs, imm) => t := LoadValue(size, signed, rt, rs, imm, x);
      case Store(size, rt, rs, imm) => t := StoreValue(size, rt, rs, imm, x);
      case Branch(onEqual, rt, rs, imm) =>
        if (registers[rt] == registers[rs]) == onEqual {
          WrapWrap(programCounter + imm * 4, 4);
          programCounter := Wrap(programCounter + imm * 4);
        }
      case Jump(target) => programCounter := target;
      case JumpLink(target) =>
        registers := registers[RA := Wrap(programCounter + 4)];
        programCounter := target;
      case JumpReg(rs) => programCounter := Wrap(registers[rs] as int - 4);
      case AddImm(rt, rs, imm) => registers := registers[rt := Wrap(registers[rs] + imm)];
      case Syscall => t := Thrown(SYSCALL, 0);
      case Unmodelled => t := Asserted;
    }

    /** How a cycle's outcome shows: a completed instruction, possibly followed by an interrupt, or a trap before it. */
    ghost predicate Shows(o: Outcome, was: Context, memory: Memory, state: TrapState, poll: bool)
      reads this
    {
      if o.Done? then
        && registers == o.ctx.regs && physMem == o.phys
        && (if poll && state.ie
            then programCounter == trapEntry && cp0 == TrapState(o.ctx.pc, INTERRUPT * 4, 0, true, false)
            else programCounter == o.ctx.pc && cp0 == state)
      else
        && registers == was.regs && physMem == memory
        && if o.Abort? then programCounter == was.pc && cp0 == state
           else programCounter == trapEntry && cp0 == TrapState(was.pc, ThrowOf(o).code * 4, ThrowOf(o).bad, true, false)
    }

    /** The slot of the program counter, decoded now if it was empty. */
    method Prepare(x: Translation) returns (f: Slot)
      requires Valid()
      modifies instructionCache
      ensures (f, instructionCache.View()) == FillSlot(old(instructionCache.View()), x, physMem, programCounter)
      ensures instructionCache.Valid()
    {
      var threw := instructionCache.Index(programCounter);
      var instr := instructionCache.Front();
      if instr.Some? { return Instruction(instr.value); }
      match Fetch(x, physMem, programCounter)
      case FetchMiss => f := FetchTrap;
      case BadFetch => f := Stop;
      case Word(w) =>
        var i := Decode(w, programCounter);
        if i.None? { return Illegal; }
        instructionCache.AssignFront(i);
        f := Instruction(i.value);
    }

    /** Runs a decoded instruction; whatever it throws becomes a trap with the program counter still on it. */
    method RunInstr(i: Instr, x: Translation, poll: bool) returns (aborted: bool)
      requires ValidContext(C()) && WellFormed(i)
      modifies `registers, `programCounter, `physMem, `cp0
      ensures aborted == Execute(i, x, old(physMem), old(C())).Abort?
      ensures Shows(Execute(i, x, old(physMem), old(C())), old(C()), old(physMem), old(cp0), poll)
    {
      var oldIE := cp0.ie;
      var t := Run(i, x);
      match t
      case Nothing =>
        programCounter := Wrap(programCounter + 4);
        if poll && oldIE && cp0.ie { RaiseTrap(INTERRUPT, 0); }
        aborted := false;
      case Thrown(code, bad) =>
        RaiseTrap(code, bad);
        aborted := false;
      case Asserted => aborted := true;
    }

    /** Runs what the slot holds, or raises the trap of the fetch or of decoding. */
    method RunSlot(f: Slot, x: Translation, poll: bool) returns (aborted: bool)
      requires ValidContext(C()) && (f.Instruction? ==> WellFormed(f.i))
      modifies `registers, `programCounter, `physMem, `cp0
      ensures aborted == Finish(f, x, old(physMem), old(C())).Abort?
      ensures Shows(Finish(f, x, old(physMem), old(C())), old(C()), old(physMem), old(cp0), poll)
    {
      aborted := false;
      match f
      case Instruction(i) => aborted := RunInstr(i, x, poll);
      case FetchTrap => RaiseTrap(TLB_L, programCounter);
      case Illegal => RaiseTrap(RI, 0);
      case Stop => aborted := true;
    }

    /** One cycle. `aborted` stands for a failed alignment assertion or an instruction that is not modelled. */
    method Cycle(x: Translation, poll: bool) returns (aborted: bool)
      requires Valid()
      modifies this, instructionCache
      ensures var (o, cache) := CoreCycle(old(instructionCache.View()), x, old(physMem), old(C()));
        instructionCache.View() == cache && aborted == o.Abort? && Shows(o, old(C()), old(physMem), old(cp0), poll)
      ensures Valid()
    {
      CycleIs(instructionCache.View(), x, physMem, C());
      var f := Prepare(x);
      aborted := RunSlot(f, x, poll);
    }
  }

  lemma OneByte(bs: seq<Byte>)
    requires |bs| == 1
    ensures BigEndian(bs) == bs[0]
  {
    assert bs[..0] == [];
  }

  lemma TwoBytes(bs: seq<Byte>)
    requires |bs| == 2
    ensures BigEndian(bs) == bs[0] as nat * 0x100 + bs[1]
  {
    OneByte(bs[..1]);
  }

  lemma FourBytes(bs: seq<Byte>)
    requires |bs| == 4
    ensures BigEndian(bs) == bs[0] as nat * 0x100_0000 + bs[1] as nat * 0x1_0000 + bs[2] as nat * 0x100 + bs[3]
  {
    TwoBytes(bs[..2]);
    assert bs[..3][..2] == bs[..2];
    assert BigEndian(bs[..3]) == 256 * BigEndian(bs[..2]) + bs[2];
  }

  lemma OneDigit(n: nat)
    ensures ToBytes(n, 1) == [n % 0x100]
  {
    assert ToBytes(n / 0x100, 0) == [];
  }

  lemma TwoDigits(n: nat)
    ensures ToBytes(n, 2) == [n / 0x100 % 0x100, n % 0x100]
  {
    OneDigit(n / 0x100);
  }

  lemma FourDigits(n: nat)
    ensures ToBytes(n, 4) == [n / 0x100_0000 % 0x100, n / 0x1_0000 % 0x100, n / 0x100 % 0x100, n % 0x100]
  {
    var m := n / 0x100;
    TwoDigits(m / 0x100);
    assert m / 0x100 == n / 0x1_0000 && m / 0x100 / 0x100 == n / 0x100_0000;
    assert ToBytes(m, 3) == ToBytes(m / 0x100, 2) + [m % 0x100];
  }

  lemma SmallValue(bs: seq<Byte>)
    requires |bs| in {1, 2, 4}
    ensures BigEndian(bs) < Top(|bs|)
  {
    WriteBytes(bs);
    Limits();
  }
}
