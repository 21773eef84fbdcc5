/** Results that may be missing: a miss, a failed reservation, an empty slot. */
module Options {
  datatype Option<+T> = None | Some(value: T)
}

/** The hardware TLB: the two words of an entry, the lookup, and the privileged instructions that read and write it. */
module Tlb {
  import opened Division
  import opened Options

  const WORD_LIMIT: nat := 0x1_0000_0000
  const TLB_ENTRIES: nat := 64
  const DIRECT_START: nat := 0x8000_0000
  const DIRECT_END: nat := 0xC000_0000
  const PAGE: nat := 4096

  datatype TlbEntry = TlbEntry(vpn: nat, pfn: nat, global: bool, dirty: bool, valid: bool, asid: nat, cc: nat)

  const EMPTY := TlbEntry(0, 0, false, false, false, 0, 0)

  function Bit(b: bool): nat { if b then 1 else 0 }

  // Shifted fields do not overlap, so the source's `|` is written as `+`; a left shift wraps at 32 bits.

  function EntryHi(vpn: nat, global: bool, asid: nat): nat { vpn * 4096 % WORD_LIMIT + Bit(global) * 2048 + asid }

  function EntryLo(pfn: nat, cc: nat, dirty: bool, valid: bool): nat {
    pfn * 64 % WORD_LIMIT + cc * 8 + Bit(dirty) * 4 + Bit(valid) * 2
  }

  function DecodeWords(hi: nat, lo: nat): TlbEntry {
    TlbEntry(hi / 4096, lo / 64, hi / 2048 % 2 == 1, lo / 4 % 2 == 1, lo / 2 % 2 == 1, hi % 256, lo / 8 % 8)
  }

  lemma OrIsPlus(v: bv32, g: bv32, a: bv32)
    requires g <= 1 && a < 256
    ensures (v << 12) | (g << 11) | a == (v << 12) + (g << 11) + a
  {}

  lemma HiFields(q: nat, g: nat, u: nat, a: nat)
    requires g < 2 && u < 8 && a < 256
    ensures var hi := q * 4096 + g * 2048 + u * 256 + a;
      hi / 4096 == q && hi / 2048 % 2 == g && hi / 256 % 8 == u && hi % 256 == a
  {
    var hi := q * 4096 + g * 2048 + u * 256 + a;
    DivMod(q, g * 2048 + u * 256 + a, 4096);
    DivMod(q * 2 + g, u * 256 + a, 2048);
    DivMod(q * 16 + g * 8 + u, a, 256);
    DivMod(q, g, 2);
    DivMod(q * 2 + g, u, 8);
  }

  lemma LoFields(q: nat, c: nat, d: nat, v: nat, z: nat)
    requires c < 8 && d < 2 && v < 2 && z < 2
    ensures var lo := q * 64 + c * 8 + d * 4 + v * 2 + z;
      lo / 64 == q && lo / 8 % 8 == c && lo / 4 % 2 == d && lo / 2 % 2 == v && lo % 2 == z
  {
    DivMod(q, c * 8 + d * 4 + v * 2 + z, 64);
    DivMod(q * 8 + c, d * 4 + v * 2 + z, 8);
    DivMod(q * 16 + c * 2 + d, v * 2 + z, 4);
    DivMod(q * 32 + c * 4 + d * 2 + v, z, 2);
    DivMod(q, c, 8);
    DivMod(q * 8 + c, d, 2);
    DivMod(q * 16 + c * 2 + d, v, 2);
  }

  /** Where the fields stand in the two words: page, global bit and ASID; frame, cache bits, dirty and valid bit. */
  lemma WordFields(q: nat, g: bool, u: nat, a: nat, f: nat, c: nat, d: bool, v: bool, z: nat)
    requires u < 8 && a < 256 && c < 8 && z < 2
    ensures
      DecodeWords(q * 0x1000 + (if g then 0x800 else 0) + u * 0x100 + a,
                  f * 0x40 + c * 8 + (if d then 4 else 0) + (if v then 2 else 0) + z)
      == TlbEntry(q, f, g, d, v, a, c)
  {
    HiFields(q, if g then 1 else 0, u, a);
    LoFields(f, c, if d then 1 else 0, if v then 1 else 0, z);
  }

  lemma ShiftWraps(x: nat)
    ensures x * 4096 % WORD_LIMIT == x % 0x10_0000 * 4096
    ensures x * 64 % WORD_LIMIT == x % 0x400_0000 * 64
  {
    assert x * 4096 == x / 0x10_0000 * WORD_LIMIT + x % 0x10_0000 * 4096;
    assert x * 64 == x / 0x400_0000 * WORD_LIMIT + x % 0x400_0000 * 64;
  }

  lemma SmallWords(vpn: nat, pfn: nat, global: bool, dirty: bool, valid: bool, asid: nat)
    requires asid < 256 && vpn < 0x10_0000 && pfn < 0x400_0000
    ensures EntryHi(vpn, global, asid) == vpn * 0x1000 + (if global then 0x800 else 0) + asid
    ensures EntryLo(pfn, 0, dirty, valid) == pfn * 0x40 + (if dirty then 4 else 0) + (if valid then 2 else 0)
  {}

  lemma DecodeLow(vpn: nat, pfn: nat, global: bool, dirty: bool, valid: bool, asid: nat)
    requires asid < 256 && vpn < 0x10_0000 && pfn < 0x400_0000
    ensures DecodeWords(EntryHi(vpn, global, asid), EntryLo(pfn, 0, dirty, valid))
         == TlbEntry(vpn, pfn, global, dirty, valid, asid, 0)
  {
    SmallWords(vpn, pfn, global, dirty, valid, asid);
    WordFields(vpn, global, 0, asid, pfn, 0, dirty, valid, 0);
  }

  lemma SameWords(vpn: nat, pfn: nat, global: bool, dirty: bool, valid: bool, asid: nat)
    ensures EntryHi(vpn, global, asid) == EntryHi(vpn % 0x10_0000, global, asid)
    ensures EntryLo(pfn, 0, dirty, valid) == EntryLo(pfn % 0x400_0000, 0, dirty, valid)
  {
    ShiftWraps(vpn);
    ShiftWraps(vpn % 0x10_0000);
    ShiftWraps(pfn);
    ShiftWraps(pfn % 0x400_0000);
  }

  /** The words the kernel builds come back as the entry it meant exactly when page and frame numbers fit their fields. */
  lemma DecodeEncode(vpn: nat, pfn: nat, global: bool, dirty: bool, valid: bool, asid: nat)
    requires asid < 256
    ensures
      DecodeWords(EntryHi(vpn, global, asid), EntryLo(pfn, 0, dirty, valid))
      == TlbEntry(vpn % 0x10_0000, pfn % 0x400_0000, global, dirty, valid, asid, 0)
    ensures
      var read := DecodeWords(EntryHi(vpn, global, asid), EntryLo(pfn, 0, dirty, valid));
      read == TlbEntry(vpn, pfn, global, dirty, valid, asid, 0) <==> vpn < 0x10_0000 && pfn < 0x400_0000
  {
    SameWords(vpn, pfn, global, dirty, valid, asid);
    DecodeLow(vpn % 0x10_0000, pfn % 0x400_0000, global, dirty, valid, asid);
  }

  /** Reading an entry back after writing it returns its words less the unused bits: 8 to 10 of hi and bit 0 of lo. */
  lemma ReadBack(hi: nat, lo: nat)
    requires hi < WORD_LIMIT && lo < WORD_LIMIT
    ensures
      var e := DecodeWords(hi, lo);
      && EntryHi(e.vpn, e.global, e.asid) == hi - hi / 256 % 8 * 256
      && EntryLo(e.pfn, e.cc, e.dirty, e.valid) == lo - lo % 2
  {
    assert hi == hi / 4096 * 4096 + hi / 2048 % 2 * 2048 + hi / 256 % 8 * 256 + hi % 256 by { HiSum(hi); }
    assert lo == lo / 64 * 64 + lo / 8 % 8 * 8 + lo / 4 % 2 * 4 + lo / 2 % 2 * 2 + lo % 2 by { LoSum(lo); }
    ShiftWraps(hi / 4096);
    ShiftWraps(lo / 64);
  }

  lemma HiSum(hi: nat)
    ensures hi == hi / 4096 * 4096 + hi / 2048 % 2 * 2048 + hi / 256 % 8 * 256 + hi % 256
  {
    var q, r := hi / 4096, hi % 4096;
    var g, s := r / 2048, r % 2048;
    HiFields(q, g, s / 256, s % 256);
  }

  lemma LoSum(lo: nat)
    ensures lo == lo / 64 * 64 + lo / 8 % 8 * 8 + lo / 4 % 2 * 4 + lo / 2 % 2 * 2 + lo % 2
  {
    var q, r := lo / 64, lo % 64;
    var c, s := r / 8, r % 8;
    LoFields(q, c, s / 4, s % 4 / 2, s % 2);
  }

  predicate Matches(e: TlbEntry, vpn: nat, asid: nat) {
    e.vpn == vpn && e.valid && (e.asid == asid || e.global)
  }

  function FirstMatch(tlb: seq<TlbEntry>, vpn: nat, asid: nat, from: nat): (i: nat)
    requires from <= |tlb|
    ensures from <= i <= |tlb|
    ensures i < |tlb| ==> Matches(tlb[i], vpn, asid)
    ensures forall k :: from <= k < i ==> !Matches(tlb[k], vpn, asid)
    decreases |tlb| - from
  {
    if from == |tlb| || Matches(tlb[from], vpn, asid) then from else FirstMatch(tlb, vpn, asid, from + 1)
  }

  /** The physical address behind a virtual one, or None for a TLB miss. */
  function Translate(tlb: seq<TlbEntry>, vaddr: nat, asid: nat): Option<nat> {
    if DIRECT_START <= vaddr < DIRECT_END then Some(vaddr - DIRECT_START)
    else
      var i := FirstMatch(tlb, vaddr / PAGE, asid, 0);
      if i == |tlb| then None else Some(tlb[i].pfn * PAGE % WORD_LIMIT + vaddr % PAGE)
  }

  /** From 0x80000000 to 0xC0000000 an address is its own physical address less 0x80000000, whatever the TLB holds. */
  lemma TranslatesDirect(tlb: seq<TlbEntry>, pa: nat, asid: nat)
    requires pa < 0x4000_0000
    ensures Translate(tlb, 0x8000_0000 + pa, asid) == Some(pa)
  {}

  /** Elsewhere it is the offset within the frame of the first valid entry for its page that is global or has the ASID. */
  lemma TranslatesFirst(tlb: seq<TlbEntry>, page: nat, offset: nat, asid: nat, i: nat)
    requires offset < 0x1000 && !(0x8_0000 <= page < 0xC_0000) && i <= |tlb|
    requires forall k :: 0 <= k < i ==> !(tlb[k].vpn == page && tlb[k].valid && (tlb[k].global || tlb[k].asid == asid))
    requires i < |tlb| ==> tlb[i].vpn == page && tlb[i].valid && (tlb[i].global || tlb[i].asid == asid)
    ensures Translate(tlb, page * 0x1000 + offset, asid)
         == if i < |tlb| then Some(tlb[i].pfn * 0x1000 % WORD_LIMIT + offset) else None
  {
    DivMod(page, offset, 0x1000);
  }

  datatype Trap = Interrupt | TlbLoad | TlbStore | ReservedInstruction

  class TlbUnit {
    var entries: seq<TlbEntry>
    var index: nat
    var random: nat
    var entryHi: nat
    var entryLo: nat
    var status: nat

    constructor ()
      ensures Valid() && (forall e :: e in entries ==> !e.valid)
    {
      entries := seq(TLB_ENTRIES, _ => EMPTY);
      index, random, entryHi, entryLo, status := 0, 0, 0, 0, 0;
    }

    ghost predicate Valid()
      reads this
    {
      |entries| == TLB_ENTRIES && random < TLB_ENTRIES && entryHi < WORD_LIMIT && entryLo < WORD_LIMIT
    }

    /** Returns the first usable entry for the page, or the trap that asks the kernel for one. */
    method Lookup(vaddr: nat, store: bool, asid: nat) returns (entry: Option<TlbEntry>, trap: Option<Trap>)
      requires Valid()
      ensures entry.None? <==> trap.Some?
      ensures trap.Some? <==>
        forall e :: e in entries ==> !(e.vpn == vaddr / PAGE && e.valid && (e.asid == asid || e.global))
      ensures trap.Some? ==> trap.value == if store then TlbStore else TlbLoad
      ensures entry.Some? ==> var i := FirstMatch(entries, vaddr / PAGE, asid, 0); i < TLB_ENTRIES && entry.value == entries[i]
    {
      var i := 0;
      while i < TLB_ENTRIES
        invariant 0 <= i <= TLB_ENTRIES
        invariant forall k :: 0 <= k < i ==> !Matches(entries[k], vaddr / PAGE, asid)
        invariant FirstMatch(entries, vaddr / PAGE, asid, 0) == FirstMatch(entries, vaddr / PAGE, asid, i)
      {
        var e := entries[i];
        if e.vpn == vaddr / PAGE && e.valid && (e.asid == asid || e.global) {
          return Some(e), None;
        }
        i := i + 1;
      }
      return None, Some(if store then TlbStore else TlbLoad);
    }

    predicate Privileged()
      reads this
    {
      status / 2 % 2 == 1
    }

    /** Unlike a lookup, a probe also finds entries that are not valid. */
    method Probe() returns (trap: Option<Trap>)
      requires Valid()
      modifies `index
      ensures trap.Some? <==> !old(Privileged())
      ensures trap.Some? ==> index == old(index)
      ensures
        var want := DecodeWords(entryHi, 0);
        && (trap.None? && index == 0x8000_0000 ==>
              forall e :: e in entries ==> !(e.vpn == want.vpn && (e.global || e.asid == want.asid)))
        && (trap.None? && index != 0x8000_0000 ==>
              && index < TLB_ENTRIES && entries[index].vpn == want.vpn
              && (entries[index].global || entries[index].asid == want.asid))
    {
      if !Privileged() { return Some(ReservedInstruction); }
      var want := DecodeWords(entryHi, 0);
      var i := 0;
      while i < TLB_ENTRIES
        invariant 0 <= i <= TLB_ENTRIES
        invariant forall k :: 0 <= k < i ==>
          !(entries[k].vpn == want.vpn && (entries[k].global || entries[k].asid == want.asid))
      {
        if entries[i].vpn == want.vpn && (entries[i].global || entries[i].asid == want.asid) {
          index := i;
          return None;
        }
        i := i + 1;
      }
      index := 0x8000_0000;
      return None;
    }

    method ReadIndexed() returns (trap: Option<Trap>)
      requires Valid() && index < TLB_ENTRIES
      requires forall e :: e in entries ==> e.cc < 8 && e.asid < 256
      modifies `entryHi, `entryLo
      ensures trap.Some? <==> !old(Privileged())
      ensures
        var e := entries[index];
        if trap.Some? then entryHi == old(entryHi) && entryLo == old(entryLo)
        else entryHi == EntryHi(e.vpn, e.global, e.asid) && entryLo == EntryLo(e.pfn, e.cc, e.dirty, e.valid)
    {
      if !Privileged() { return Some(ReservedInstruction); }
      var e := entries[index];
      entryHi := EntryHi(e.vpn, e.global, e.asid);
      entryLo := EntryLo(e.pfn, e.cc, e.dirty, e.valid);
      return None;
    }

    method WriteAt(at: nat) returns (trap: Option<Trap>)
      requires Valid() && at < TLB_ENTRIES
      modifies `entries
      ensures Valid() && (trap.Some? <==> !old(Privileged()))
      ensures entries == if trap.Some? then old(entries) else old(entries)[at := DecodeWords(entryHi, entryLo)]
    {
      if !Privileged() { return Some(ReservedInstruction); }
      entries := entries[at := DecodeWords(entryHi, entryLo)];
      return None;
    }

    /** The write of a refill: the slot `random` names, which then moves on to the next one round robin. */
    method WriteRandom() returns (trap: Option<Trap>)
      requires Valid()
      modifies `entries, `random
      ensures Valid() && (trap.Some? <==> !old(Privileged()))
      ensures trap.Some? ==> entries == old(entries) && random == old(random)
      ensures trap.None? ==> entries == old(entries)[old(random) := DecodeWords(entryHi, entryLo)]
      ensures trap.None? ==> random == NextRandom(old(random))
    {
      trap := WriteAt(random);
      if trap.None? {
        random := random + 1;
        random := random % TLB_ENTRIES;
      }
    }
  }

  function NextRandom(r: nat): nat { (r + 1) % TLB_ENTRIES }

  /** Where the register stands after so many refills. */
  function AfterRefills(r: nat, k: nat): nat { if k == 0 then r else NextRandom(AfterRefills(r, k - 1)) }

  /** Slots are refilled round robin: 64 refills in a row go to 64 different slots, and the next one to the first again. */
  lemma {:induction false} RoundRobin(r: nat, k: nat)
    requires r < TLB_ENTRIES
    ensures AfterRefills(r, k) == (r + k) % 64
    decreases k
  {
    if k > 0 {
      RoundRobin(r, k - 1);
      NextWraps(r + k - 1);
    }
  }

  lemma NextWraps(n: nat)
    ensures (n % 64 + 1) % 64 == (n + 1) % 64
  {}

  /** After a refill for (vpn, asid), which had missed, the lookup finds the new entry wherever it was put. */
  lemma RefillHits(tlb: seq<TlbEntry>, r: nat, e: TlbEntry, vaddr: nat, asid: nat)
    requires r < |tlb| && e.valid && e.vpn == vaddr / PAGE && e.asid == asid
    requires Translate(tlb, vaddr, asid).None?
    ensures Translate(tlb[r := e], vaddr, asid) == Some(e.pfn * PAGE % WORD_LIMIT + vaddr % PAGE)
  {
    var i := FirstMatch(tlb[r := e], vaddr / PAGE, asid, 0);
    assert Matches(tlb[r := e][r], vaddr / PAGE, asid);
  }

  /** A refill disturbs no other translation except those of the entry it overwrites. */
  lemma RefillKeepsOthers(tlb: seq<TlbEntry>, r: nat, e: TlbEntry, vaddr: nat, asid: nat)
    requires r < |tlb| && !Matches(e, vaddr / PAGE, asid)
    requires DIRECT_START <= vaddr < DIRECT_END || FirstMatch(tlb, vaddr / PAGE, asid, 0) != r
    ensures Translate(tlb[r := e], vaddr, asid) == Translate(tlb, vaddr, asid)
  {
    var i, i' := FirstMatch(tlb, vaddr / PAGE, asid, 0), FirstMatch(tlb[r := e], vaddr / PAGE, asid, 0);
    if !(DIRECT_START <= vaddr < DIRECT_END) {
      if i < |tlb| { assert tlb[r := e][i] == tlb[i]; }
      if i' < |tlb| { assert tlb[r := e][i'] == tlb[i']; }
    }
  }
}
