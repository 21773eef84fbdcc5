/**
 * What every instruction does, said on words, registers and bytes: the fields of the encodings as numbers, two's
 * complement as ranges, memory byte by byte. None of it mentions how decoding and execution are defined.
 */
module InstructionSet {
  import opened Bytes
  import opened Division
  import opened Options
  import opened Tlb
  import opened Machine
  import opened Cores

  // ---- Encodings ----

  /** Opcode, two registers and a 16-bit two's complement immediate. */
  function IWord(opcode: nat, rs: nat, rt: nat, imm: int): nat {
    opcode * 0x400_0000 + rs * 0x20_0000 + rt * 0x1_0000 + imm % 0x1_0000
  }

  /** Opcode and a 26-bit target. */
  function JWord(opcode: nat, target: nat): nat { opcode * 0x400_0000 + target }

  /** Opcode 0, three registers, a shift amount and a function code. */
  function RWord(rs: nat, rt: nat, rd: nat, shamt: nat, funct: nat): nat {
    rs * 0x20_0000 + rt * 0x1_0000 + rd * 0x800 + shamt * 0x40 + funct
  }

  predicate Short(imm: int) { -0x8000 <= imm < 0x8000 }

  lemma IFields(opcode: nat, rs: nat, rt: nat, imm: int)
    requires opcode < 64 && rs < 32 && rt < 32 && Short(imm)
    ensures var w := IWord(opcode, rs, rt, imm);
      && w / 0x400_0000 % 64 == opcode && w / 0x20_0000 % 32 == rs && w / 0x1_0000 % 32 == rt
      && SignExtend(w % 0x1_0000, 0x1_0000) == imm
  {
    var w, low := IWord(opcode, rs, rt, imm), imm % 0x1_0000;
    DivMod(opcode * 0x400 + rs * 0x20 + rt, low, 0x1_0000);
    DivMod(opcode * 0x20 + rs, rt * 0x1_0000 + low, 0x20_0000);
    DivMod(opcode, rs * 0x20_0000 + rt * 0x1_0000 + low, 0x400_0000);
    DivMod(opcode * 0x20 + rs, rt, 0x20);
    DivMod(opcode, rs, 0x20);
    assert low == if imm < 0 then imm + 0x1_0000 else imm;
  }

  lemma RFields(rs: nat, rt: nat, rd: nat, shamt: nat, funct: nat)
    requires rs < 32 && rt < 32 && rd < 32 && shamt < 32 && funct < 64
    ensures var w := RWord(rs, rt, rd, shamt, funct);
      w / 0x400_0000 % 64 == 0 && w / 0x20_0000 % 32 == rs && w / 0x1_0000 % 32 == rt && w % 64 == funct
  {
    var w := RWord(rs, rt, rd, shamt, funct);
    var low := rd * 0x800 + shamt * 0x40 + funct;
    assert w / 0x1_0000 == rs * 0x20 + rt;
    assert w == (rs * 0x8000 + rt * 0x400 + rd * 0x20 + shamt) * 0x40 + funct;
  }

  /** Loads: signed byte, signed halfword, word, byte, halfword. */
  lemma DecodesLoad(rs: nat, rt: nat, imm: int, pc: nat)
    requires rs < 32 && rt < 32 && Short(imm)
    ensures Decode(IWord(0x20, rs, rt, imm), pc) == Some(Load(1, true, rt, rs, imm))
    ensures Decode(IWord(0x21, rs, rt, imm), pc) == Some(Load(2, true, rt, rs, imm))
    ensures Decode(IWord(0x23, rs, rt, imm), pc) == Some(Load(4, true, rt, rs, imm))
    ensures Decode(IWord(0x24, rs, rt, imm), pc) == Some(Load(1, false, rt, rs, imm))
    ensures Decode(IWord(0x25, rs, rt, imm), pc) == Some(Load(2, false, rt, rs, imm))
  {
    IFields(0x20, rs, rt, imm);
    IFields(0x21, rs, rt, imm);
    IFields(0x23, rs, rt, imm);
    IFields(0x24, rs, rt, imm);
    IFields(0x25, rs, rt, imm);
  }

  lemma DecodesStore(rs: nat, rt: nat, imm: int, pc: nat)
    requires rs < 32 && rt < 32 && Short(imm)
    ensures Decode(IWord(0x28, rs, rt, imm), pc) == Some(Store(1, rt, rs, imm))
    ensures Decode(IWord(0x29, rs, rt, imm), pc) == Some(Store(2, rt, rs, imm))
    ensures Decode(IWord(0x2b, rs, rt, imm), pc) == Some(Store(4, rt, rs, imm))
  {
    IFields(0x28, rs, rt, imm);
    IFields(0x29, rs, rt, imm);
    IFields(0x2b, rs, rt, imm);
  }

  lemma DecodesBranch(rs: nat, rt: nat, imm: int, pc: nat)
    requires rs < 32 && rt < 32 && Short(imm)
    ensures Decode(IWord(0x04, rs, rt, imm), pc) == Some(Branch(true, rt, rs, imm))
    ensures Decode(IWord(0x05, rs, rt, imm), pc) == Some(Branch(false, rt, rs, imm))
  {
    IFields(0x04, rs, rt, imm);
    IFields(0x05, rs, rt, imm);
  }

  lemma DecodesAdd(rs: nat, rt: nat, imm: int, pc: nat)
    requires rs < 32 && rt < 32 && Short(imm)
    ensures Decode(IWord(0x09, rs, rt, imm), pc) == Some(AddImm(rt, rs, imm))
  {
    IFields(0x09, rs, rt, imm);
  }

  /** An address in the 256 MB region of the instruction after the jump, at four times what is kept of the target. */
  predicate LandsOn(to: nat, pc: nat, target: nat) {
    && to < WORD_LIMIT
    && to / 0x1000_0000 == (pc + 4) % WORD_LIMIT / 0x1000_0000
    && to % 0x1000_0000 == 4 * (target % 0x200_0000)
  }

  lemma DecodesJump(target: nat, pc: nat)
    requires target < 0x400_0000
    ensures exists t: nat :: (
      && Decode(JWord(0x02, target), pc) == Some(Jump(t)) && Decode(JWord(0x03, target), pc) == Some(JumpLink(t))
      && LandsOn(Wrap(t + 4), pc, target))
  {
    TargetBits(2, target);
    TargetBits(3, target);
    TargetLands(JWord(0x02, target), pc, target);
    var t := JumpTarget(JWord(0x02, target), pc);
    assert Decode(JWord(0x02, target), pc) == Some(Jump(t)) && Decode(JWord(0x03, target), pc) == Some(JumpLink(t));
  }

  lemma TargetBits(opcode: nat, target: nat)
    requires opcode < 64 && target < 0x400_0000
    ensures var w := JWord(opcode, target); w / 0x400_0000 % 64 == opcode && w % 0x200_0000 == target % 0x200_0000
  {
    DivMod(opcode, target, 0x400_0000);
    DivMod(opcode * 2 + target / 0x200_0000, target % 0x200_0000, 0x200_0000);
  }

  lemma TargetLands(w: nat, pc: nat, target: nat)
    requires w % 0x200_0000 == target % 0x200_0000
    ensures LandsOn(Wrap(JumpTarget(w, pc) + 4), pc, target)
  {
    var region, low := Wrap(pc + 4) / 0x1000_0000, target % 0x200_0000;
    WrapWrap(region * 0x1000_0000 + low * 4 - 4, 4);
    RegionJoined(region, low);
  }

  lemma RegionJoined(region: nat, low: nat)
    requires region < 16 && low < 0x200_0000
    ensures var to := region * 0x1000_0000 + low * 4;
      to < WORD_LIMIT && Wrap(to) == to && to / 0x1000_0000 == region && to % 0x1000_0000 == low * 4
  {
    DivMod(region, low * 4, 0x1000_0000);
  }

  /** Only 25 of the 26 target bits are kept: a jump goes where its target says if and only if the highest one is clear. */
  lemma TargetKept(to: nat, pc: nat, target: nat)
    requires target < 0x400_0000 && LandsOn(to, pc, target)
    ensures to % 0x1000_0000 == 4 * target <==> target < 0x200_0000
  {
    assert target % 0x200_0000 == if target < 0x200_0000 then target else target - 0x200_0000;
  }

  lemma DecodesRegister(rs: nat, rt: nat, rd: nat, shamt: nat, pc: nat)
    requires rs < 32 && rt < 32 && rd < 32 && shamt < 32
    ensures Decode(RWord(rs, rt, rd, shamt, 0x08), pc) == Some(JumpReg(rs))
    ensures Decode(RWord(rs, rt, rd, shamt, 0x0c), pc) == Some(Syscall)
  {
    RFields(rs, rt, rd, shamt, 0x08);
    RFields(rs, rt, rd, shamt, 0x0c);
  }

  /** The words of one opcode or function code that decoding refuses, outside the four opcodes with tables of their own. */
  lemma DecodesReserved(w: nat, pc: nat)
    requires w < WORD_LIMIT
    ensures var opcode, funct := w / 0x400_0000, w % 64;
      && (opcode == 0 ==>
          (Decode(w, pc).None? <==>
            funct in {1, 5, 10, 13, 14} || 20 <= funct < 24 || 28 <= funct < 32 || 40 <= funct < 42 || 44 <= funct < 52
            || 53 <= funct < 63))
      && (opcode !in {0, 1, 0x10, 0x11, 0x1c} ==>
          (Decode(w, pc).None? <==>
            18 <= opcode < 32 || opcode in {0x22, 0x26, 0x27, 0x2a} || 0x2c <= opcode < 0x2f || opcode == 0x30
            || 0x32 <= opcode < 0x39 || 0x3a <= opcode))
  {
    assert w / 0x400_0000 < 64;
  }

  // ---- Memory and fetching ----

  /** The number in two or four bytes, the most significant first. */
  function HalfAt(m: Memory, at: nat): nat
    requires at + 2 <= |m|
  {
    m[at] as nat * 0x100 + m[at + 1]
  }

  function WordAt(m: Memory, at: nat): nat
    requires at + 4 <= |m|
  {
    m[at] as nat * 0x100_0000 + m[at + 1] as nat * 0x1_0000 + m[at + 2] as nat * 0x100 + m[at + 3]
  }

  /** The word w is what pc points at. */
  ghost predicate Stands(x: Translation, phys: Memory, pc: nat, w: nat) {
    var pa := Look(x, pc);
    pa.Some? && pa.value % 4 == 0 && pa.value + 4 <= |phys| && WordAt(phys, pa.value) == w
  }

  lemma FetchIs(x: Translation, phys: Memory, pc: nat, w: nat)
    requires Stands(x, phys, pc, w)
    ensures Fetch(x, phys, pc) == Word(w)
  {
    var pa := Look(x, pc).value;
    FourBytes(phys[pa..pa + 4]);
  }

  lemma Fetched(x: Translation, phys: Memory, c: Context, w: nat, i: Instr)
    requires ValidContext(c) && Stands(x, phys, c.pc, w) && Decode(w, c.pc) == Some(i)
    ensures WellFormed(i) && DirectCycle(x, phys, c) == Execute(i, x, phys, c)
  {
    FetchIs(x, phys, c.pc, w);
    DecodeWellFormed(w, c.pc);
  }

  // ---- Computing and jumping ----

  /** The sum modulo 2^32 in rt, and nothing else changes. */
  ghost predicate Adds(o: Outcome, rs: nat, rt: nat, imm: int, phys: Memory, c: Context)
    requires rs < |c.regs| && rt < |c.regs|
  {
    o == Done(Context(c.regs[rt := (c.regs[rs] + imm) % WORD_LIMIT], (c.pc + 4) % WORD_LIMIT), phys)
  }

  lemma AddExecutes(rs: nat, rt: nat, imm: int, x: Translation, phys: Memory, c: Context)
    requires ValidContext(c) && rs < 32 && rt < 32
    ensures Adds(Execute(AddImm(rt, rs, imm), x, phys, c), rs, rt, imm, phys, c)
  {}

  /** ADDIU. */
  lemma AddRuns(rs: nat, rt: nat, imm: int, x: Translation, phys: Memory, c: Context)
    requires ValidContext(c) && rs < 32 && rt < 32 && Short(imm) && Stands(x, phys, c.pc, IWord(0x09, rs, rt, imm))
    ensures Adds(DirectCycle(x, phys, c), rs, rt, imm, phys, c)
  {
    DecodesAdd(rs, rt, imm, c.pc);
    Fetched(x, phys, c, IWord(0x09, rs, rt, imm), AddImm(rt, rs, imm));
    AddExecutes(rs, rt, imm, x, phys, c);
  }

  /** On to pc + 4 + 4 * imm when the branch is taken, to pc + 4 when not. */
  ghost predicate Branches(o: Outcome, taken: bool, imm: int, phys: Memory, c: Context) {
    o == Done(Context(c.regs, (if taken then c.pc + 4 + 4 * imm else c.pc + 4) % WORD_LIMIT), phys)
  }

  lemma BranchExecutes(eq: bool, rs: nat, rt: nat, imm: int, x: Translation, phys: Memory, c: Context)
    requires ValidContext(c) && rs < 32 && rt < 32
    ensures Branches(Execute(Branch(eq, rt, rs, imm), x, phys, c),
              if eq then c.regs[rs] == c.regs[rt] else c.regs[rs] != c.regs[rt], imm, phys, c)
  {}

  /** BEQ is taken exactly when the registers are equal, BNE exactly when they differ. */
  lemma BranchRuns(eq: bool, rs: nat, rt: nat, imm: int, x: Translation, phys: Memory, c: Context)
    requires ValidContext(c) && rs < 32 && rt < 32 && Short(imm)
    requires Stands(x, phys, c.pc, IWord(if eq then 0x04 else 0x05, rs, rt, imm))
    ensures Branches(DirectCycle(x, phys, c), if eq then c.regs[rs] == c.regs[rt] else c.regs[rs] != c.regs[rt], imm, phys, c)
  {
    DecodesBranch(rs, rt, imm, c.pc);
    Fetched(x, phys, c, IWord(if eq then 0x04 else 0x05, rs, rt, imm), Branch(eq, rt, rs, imm));
    BranchExecutes(eq, rs, rt, imm, x, phys, c);
  }

  /** J and JAL go to their target; JAL leaves the address of the next instruction in register 31. */
  lemma JumpRuns(link: bool, target: nat, x: Translation, phys: Memory, c: Context)
    requires ValidContext(c) && target < 0x400_0000 && Stands(x, phys, c.pc, JWord(if link then 0x03 else 0x02, target))
    ensures var o := DirectCycle(x, phys, c);
      && o.Done? && o.phys == phys && LandsOn(o.ctx.pc, c.pc, target)
      && o.ctx.regs == if link then c.regs[31 := (c.pc + 4) % WORD_LIMIT] else c.regs
  {
    DecodesJump(target, c.pc);
    var t: nat :|
      && Decode(JWord(0x02, target), c.pc) == Some(Jump(t)) && Decode(JWord(0x03, target), c.pc) == Some(JumpLink(t))
      && LandsOn(Wrap(t + 4), c.pc, target);
    Fetched(x, phys, c, JWord(if link then 0x03 else 0x02, target), if link then JumpLink(t) else Jump(t));
    JumpExecutes(link, t, x, phys, c);
  }

  lemma JumpExecutes(link: bool, t: nat, x: Translation, phys: Memory, c: Context)
    requires ValidContext(c)
    ensures Execute(if link then JumpLink(t) else Jump(t), x, phys, c)
         == Done(Context(if link then c.regs[31 := (c.pc + 4) % WORD_LIMIT] else c.regs, Wrap(t + 4)), phys)
  {}

  /** JR goes to the address in its register. */
  lemma JumpRegisterRuns(rs: nat, rt: nat, rd: nat, shamt: nat, x: Translation, phys: Memory, c: Context)
    requires ValidContext(c) && rs < 32 && rt < 32 && rd < 32 && shamt < 32
    requires Stands(x, phys, c.pc, RWord(rs, rt, rd, shamt, 0x08))
    ensures DirectCycle(x, phys, c) == Done(Context(c.regs, c.regs[rs] % WORD_LIMIT), phys)
  {
    DecodesRegister(rs, rt, rd, shamt, c.pc);
    Fetched(x, phys, c, RWord(rs, rt, rd, shamt, 0x08), JumpReg(rs));
    JumpRegisterExecutes(rs, x, phys, c);
  }

  lemma JumpRegisterExecutes(rs: nat, x: Translation, phys: Memory, c: Context)
    requires ValidContext(c) && rs < 32
    ensures Execute(JumpReg(rs), x, phys, c) == Done(Context(c.regs, c.regs[rs] % WORD_LIMIT), phys)
  {
    WrapWrap(c.regs[rs] as int - 4, 4);
  }

  /** SYSCALL traps, whatever stands in its other fields. */
  lemma SyscallRuns(rs: nat, rt: nat, rd: nat, shamt: nat, x: Translation, phys: Memory, c: Context)
    requires ValidContext(c) && rs < 32 && rt < 32 && rd < 32 && shamt < 32
    requires Stands(x, phys, c.pc, RWord(rs, rt, rd, shamt, 0x0c))
    ensures DirectCycle(x, phys, c) == SysCall
  {
    DecodesRegister(rs, rt, rd, shamt, c.pc);
    Fetched(x, phys, c, RWord(rs, rt, rd, shamt, 0x0c), Syscall);
  }

  // ---- Loads and stores ----

  /** A load that finds its bytes, by the number they spell. */
  lemma LoadFinds(i: Instr, value: nat, x: Translation, phys: Memory, c: Context)
    requires ValidContext(c) && WellFormed(i) && i.Load?
    requires var pa := Look(x, (c.regs[i.rs] + i.imm) % WORD_LIMIT);
      && pa.Some? && pa.value % i.size == 0 && pa.value + i.size <= |phys|
      && BigEndian(phys[pa.value..pa.value + i.size]) == value
    ensures Execute(i, x, phys, c)
         == Done(Context(c.regs[i.rt := Extended(value, i.size, i.signed)], (c.pc + 4) % WORD_LIMIT), phys)
  {}

  lemma Extends(value: nat)
    ensures value < 0x100 ==> Extended(value, 1, true) == value + if value >= 0x80 then 0xFFFF_FF00 else 0
    ensures value < 0x1_0000 ==> Extended(value, 2, true) == value + if value >= 0x8000 then 0xFFFF_0000 else 0
    ensures value < WORD_LIMIT ==> Extended(value, 4, true) == value
    ensures Extended(value, 1, false) == Extended(value, 2, false) == value
  {}

  /** The byte at the sum of register and immediate; signed, one from 128 on stands for a negative number. */
  ghost predicate LoadsByte(o: Outcome, signed: bool, rs: nat, rt: nat, imm: int, x: Translation, phys: Memory, c: Context)
    requires rs < |c.regs| && rt < |c.regs|
  {
    var a := (c.regs[rs] + imm) % WORD_LIMIT;
    match Look(x, a)
    case None => o == Miss(a, false)
    case Some(pa) =>
      if pa >= |phys| then o == Abort
      else
        var v := phys[pa] as nat + if signed && phys[pa] >= 0x80 then 0xFFFF_FF00 else 0;
        o == Done(Context(c.regs[rt := v], (c.pc + 4) % WORD_LIMIT), phys)
  }

  lemma ByteExecutes(signed: bool, rs: nat, rt: nat, imm: int, x: Translation, phys: Memory, c: Context)
    requires ValidContext(c) && rs < 32 && rt < 32
    ensures LoadsByte(Execute(Load(1, signed, rt, rs, imm), x, phys, c), signed, rs, rt, imm, x, phys, c)
  {
    var pa := Look(x, (c.regs[rs] + imm) % WORD_LIMIT);
    if pa.Some? && pa.value < |phys| {
      OneByte(phys[pa.value..pa.value + 1]);
      LoadFinds(Load(1, signed, rt, rs, imm), phys[pa.value], x, phys, c);
      Extends(phys[pa.value]);
    }
  }

  /** LB and LBU. */
  lemma LoadByteRuns(signed: bool, rs: nat, rt: nat, imm: int, x: Translation, phys: Memory, c: Context)
    requires ValidContext(c) && rs < 32 && rt < 32 && Short(imm)
    requires Stands(x, phys, c.pc, IWord(if signed then 0x20 else 0x24, rs, rt, imm))
    ensures LoadsByte(DirectCycle(x, phys, c), signed, rs, rt, imm, x, phys, c)
  {
    DecodesLoad(rs, rt, imm, c.pc);
    Fetched(x, phys, c, IWord(if signed then 0x20 else 0x24, rs, rt, imm), Load(1, signed, rt, rs, imm));
    ByteExecutes(signed, rs, rt, imm, x, phys, c);
  }

  /** Two bytes; signed, from 2^15 on. An odd physical address fails the assertion. */
  ghost predicate LoadsHalf(o: Outcome, signed: bool, rs: nat, rt: nat, imm: int, x: Translation, phys: Memory, c: Context)
    requires rs < |c.regs| && rt < |c.regs|
  {
    var a := (c.regs[rs] + imm) % WORD_LIMIT;
    match Look(x, a)
    case None => o == Miss(a, false)
    case Some(pa) =>
      if pa % 2 != 0 || pa + 2 > |phys| then o == Abort
      else
        var v := HalfAt(phys, pa) + if signed && HalfAt(phys, pa) >= 0x8000 then 0xFFFF_0000 else 0;
        o == Done(Context(c.regs[rt := v], (c.pc + 4) % WORD_LIMIT), phys)
  }

  lemma HalfExecutes(signed: bool, rs: nat, rt: nat, imm: int, x: Translation, phys: Memory, c: Context)
    requires ValidContext(c) && rs < 32 && rt < 32
    ensures LoadsHalf(Execute(Load(2, signed, rt, rs, imm), x, phys, c), signed, rs, rt, imm, x, phys, c)
  {
    var pa := Look(x, (c.regs[rs] + imm) % WORD_LIMIT);
    if pa.Some? && pa.value % 2 == 0 && pa.value + 2 <= |phys| {
      TwoBytes(phys[pa.value..pa.value + 2]);
      LoadFinds(Load(2, signed, rt, rs, imm), HalfAt(phys, pa.value), x, phys, c);
      Extends(HalfAt(phys, pa.value));
    }
  }

  /** LH and LHU. */
  lemma LoadHalfRuns(signed: bool, rs: nat, rt: nat, imm: int, x: Translation, phys: Memory, c: Context)
    requires ValidContext(c) && rs < 32 && rt < 32 && Short(imm)
    requires Stands(x, phys, c.pc, IWord(if signed then 0x21 else 0x25, rs, rt, imm))
    ensures LoadsHalf(DirectCycle(x, phys, c), signed, rs, rt, imm, x, phys, c)
  {
    DecodesLoad(rs, rt, imm, c.pc);
    Fetched(x, phys, c, IWord(if signed then 0x21 else 0x25, rs, rt, imm), Load(2, signed, rt, rs, imm));
    HalfExecutes(signed, rs, rt, imm, x, phys, c);
  }

  /** Four bytes. */
  ghost predicate LoadsWord(o: Outcome, rs: nat, rt: nat, imm: int, x: Translation, phys: Memory, c: Context)
    requires rs < |c.regs| && rt < |c.regs|
  {
    var a := (c.regs[rs] + imm) % WORD_LIMIT;
    match Look(x, a)
    case None => o == Miss(a, false)
    case Some(pa) =>
      if pa % 4 != 0 || pa + 4 > |phys| then o == Abort
      else o == Done(Context(c.regs[rt := WordAt(phys, pa)], (c.pc + 4) % WORD_LIMIT), phys)
  }

  lemma WordExecutes(rs: nat, rt: nat, imm: int, x: Translation, phys: Memory, c: Context)
    requires ValidContext(c) && rs < 32 && rt < 32
    ensures LoadsWord(Execute(Load(4, true, rt, rs, imm), x, phys, c), rs, rt, imm, x, phys, c)
  {
    var pa := Look(x, (c.regs[rs] + imm) % WORD_LIMIT);
    if pa.Some? && pa.value % 4 == 0 && pa.value + 4 <= |phys| {
      FourBytes(phys[pa.value..pa.value + 4]);
      LoadFinds(Load(4, true, rt, rs, imm), WordAt(phys, pa.value), x, phys, c);
      Extends(WordAt(phys, pa.value));
    }
  }

  /** LW. */
  lemma LoadWordRuns(rs: nat, rt: nat, imm: int, x: Translation, phys: Memory, c: Context)
    requires ValidContext(c) && rs < 32 && rt < 32 && Short(imm)
    requires Stands(x, phys, c.pc, IWord(0x23, rs, rt, imm))
    ensures LoadsWord(DirectCycle(x, phys, c), rs, rt, imm, x, phys, c)
  {
    DecodesLoad(rs, rt, imm, c.pc);
    Fetched(x, phys, c, IWord(0x23, rs, rt, imm), Load(4, true, rt, rs, imm));
    WordExecutes(rs, rt, imm, x, phys, c);
  }

  /** The value's low bytes stand at `at`, the most significant first, and no other byte has changed. */
  ghost predicate Stored(m: Memory, m': Memory, at: nat, size: nat, value: nat)
    requires size in {1, 2, 4} && at + size <= |m|
  {
    && |m'| == |m|
    && (forall k :: 0 <= k < |m| && !(at <= k < at + size) ==> m'[k] == m[k])
    && match size
       case 1 => m'[at] == value % 0x100
       case 2 => HalfAt(m', at) == value % 0x1_0000
       case _ => WordAt(m', at) == value % WORD_LIMIT
  }

  lemma PutStored(m: Memory, at: nat, size: nat, value: nat)
    requires size in {1, 2, 4} && at + size <= |m|
    ensures Stored(m, Put(m, at, ToBytes(value, size)), at, size, value)
  {
    var bytes := ToBytes(value, size);
    LoadStored(value, size);
    PutBack(m, at, bytes);
    if size == 1 { OneByte(bytes); } else if size == 2 { TwoBytes(bytes); } else { FourBytes(bytes); }
  }

  /** The register's low bytes go to the sum of register and immediate. */
  ghost predicate Stores(o: Outcome, size: nat, rs: nat, rt: nat, imm: int, x: Translation, phys: Memory, c: Context)
    requires rs < |c.regs| && rt < |c.regs| && size in {1, 2, 4}
  {
    var a := (c.regs[rs] + imm) % WORD_LIMIT;
    match Look(x, a)
    case None => o == Miss(a, true)
    case Some(pa) =>
      if pa % size != 0 || pa + size > |phys| then o == Abort
      else o.Done? && o.ctx == Context(c.regs, (c.pc + 4) % WORD_LIMIT) && Stored(phys, o.phys, pa, size, c.regs[rt])
  }

  lemma StoreExecutes(size: nat, rs: nat, rt: nat, imm: int, x: Translation, phys: Memory, c: Context)
    requires ValidContext(c) && rs < 32 && rt < 32 && size in {1, 2, 4}
    ensures Stores(Execute(Store(size, rt, rs, imm), x, phys, c), size, rs, rt, imm, x, phys, c)
  {
    var pa := Look(x, (c.regs[rs] + imm) % WORD_LIMIT);
    if pa.Some? && pa.value % size == 0 && pa.value + size <= |phys| { PutStored(phys, pa.value, size, c.regs[rt]); }
  }

  /** SB, SH and SW. */
  lemma StoreRuns(opcode: nat, rs: nat, rt: nat, imm: int, x: Translation, phys: Memory, c: Context)
    requires ValidContext(c) && rs < 32 && rt < 32 && Short(imm)
    requires opcode in {0x28, 0x29, 0x2b} && Stands(x, phys, c.pc, IWord(opcode, rs, rt, imm))
    ensures var size := if opcode == 0x28 then 1 else if opcode == 0x29 then 2 else 4;
      Stores(DirectCycle(x, phys, c), size, rs, rt, imm, x, phys, c)
  {
    var size := if opcode == 0x28 then 1 else if opcode == 0x29 then 2 else 4;
    DecodesStore(rs, rt, imm, c.pc);
    Fetched(x, phys, c, IWord(opcode, rs, rt, imm), Store(size, rt, rs, imm));
    StoreExecutes(size, rs, rt, imm, x, phys, c);
  }
}
