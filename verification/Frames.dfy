/** Physical frames and page tables: who holds which frame, through creation, growth, fork and destruction. */
module Frames {
  import opened Options

  const NUM_PAGES: nat := 1280

  /** The frame bitmap; frames below `boundary` belong to the kernel image. */
  datatype Pool = Pool(bits: seq<bool>, boundary: nat)

  predicate ValidPool(p: Pool) { |p.bits| == NUM_PAGES && p.boundary <= NUM_PAGES }

  function FirstClear(bits: seq<bool>, from: nat): (i: nat)
    ensures from <= i
    ensures i < |bits| ==> !bits[i]
    ensures forall k :: from <= k < i && k < |bits| ==> bits[k]
    decreases |bits| - from
  {
    if from >= |bits| || !bits[from] then from else FirstClear(bits, from + 1)
  }

  /** The k-th clear frame from `from` on, counted from 0. */
  function NthClear(bits: seq<bool>, from: nat, k: nat): nat
    decreases k
  {
    var i := FirstClear(bits, from);
    if k == 0 then i else NthClear(bits, i + 1, k - 1)
  }

  lemma {:induction false} SameFirst(a: seq<bool>, b: seq<bool>, from: nat)
    requires |a| == |b| && forall i :: from <= i < |a| ==> a[i] == b[i]
    ensures FirstClear(a, from) == FirstClear(b, from)
    decreases |a| - from
  {
    if from < |a| && a[from] { SameFirst(a, b, from + 1); }
  }

  lemma {:induction false} SameNth(a: seq<bool>, b: seq<bool>, from: nat, k: nat)
    requires |a| == |b| && forall i :: from <= i < |a| ==> a[i] == b[i]
    ensures NthClear(a, from, k) == NthClear(b, from, k)
    decreases k
  {
    SameFirst(a, b, from);
    if k > 0 { SameNth(a, b, FirstClear(a, from) + 1, k - 1); }
  }

  lemma {:induction false} SkipSet(bits: seq<bool>, from: nat, to: nat)
    requires from <= to <= |bits| && forall i :: from <= i < to ==> bits[i]
    ensures FirstClear(bits, from) == FirstClear(bits, to)
    decreases |bits| - from
  {
    if from < to { SkipSet(bits, from + 1, to); }
  }

  /** Once the first clear frame is taken, the k-th one left is the one that was next to it in line. */
  lemma NthAfterTake(bits: seq<bool>, from: nat, k: nat)
    requires FirstClear(bits, from) < |bits|
    ensures NthClear(bits[FirstClear(bits, from) := true], from, k) == NthClear(bits, from, k + 1)
  {
    var i := FirstClear(bits, from);
    var b := bits[i := true];
    SkipSet(b, from, i + 1);
    SameStart(b, from, i + 1, k);
    SameNth(b, bits, i + 1, k);
    assert NthClear(bits, from, k + 1) == NthClear(bits, i + 1, k);
  }

  lemma {:induction false} NthGrows(bits: seq<bool>, from: nat, j: nat, k: nat)
    requires j < k
    ensures from <= NthClear(bits, from, j) < NthClear(bits, from, k)
    decreases j
  {
    var i := FirstClear(bits, from);
    if j == 0 { NthFrom(bits, i + 1, k - 1); } else { NthGrows(bits, i + 1, j - 1, k - 1); }
  }

  lemma {:induction false} NthFrom(bits: seq<bool>, from: nat, k: nat)
    ensures from <= NthClear(bits, from, k)
    decreases k
  {
    if k > 0 { NthFrom(bits, FirstClear(bits, from) + 1, k - 1); }
  }

  lemma SameStart(bits: seq<bool>, from: nat, to: nat, k: nat)
    requires FirstClear(bits, from) == FirstClear(bits, to)
    ensures NthClear(bits, from, k) == NthClear(bits, to, k)
  {}

  /** Reserving takes the lowest clear frame at or above the boundary; None is the kernel's assertion failing. */
  function Reserve(p: Pool): Option<(nat, Pool)> {
    var i := FirstClear(p.bits, p.boundary);
    if i >= |p.bits| then None else Some((i, p.(bits := p.bits[i := true])))
  }

  function Clear(bits: seq<bool>, frames: set<nat>): (r: seq<bool>)
    ensures |r| == |bits|
    ensures forall i :: 0 <= i < |bits| ==> r[i] == (bits[i] && i !in frames)
  {
    seq(|bits|, i requires 0 <= i < |bits| => bits[i] && i !in frames)
  }

  class MemoryManager {
    var reservedPages: seq<bool>
    const boundary: nat

    constructor (boundary: nat)
      requires boundary <= NUM_PAGES
      ensures ValidPool(View()) && View() == Pool(seq(NUM_PAGES, _ => false), boundary)
    {
      reservedPages := seq(NUM_PAGES, _ => false);
      this.boundary := boundary;
    }

    ghost function View(): Pool
      reads this
    {
      Pool(reservedPages, boundary)
    }

    method ReserveFrame() returns (r: Option<nat>)
      modifies this
      ensures match Reserve(old(View()))
              case None => r.None? && View() == old(View())
              case Some((i, p)) => r == Some(i) && View() == p
    {
      var i := boundary;
      while i < |reservedPages|
        invariant boundary <= i
        invariant FirstClear(reservedPages, boundary) == FirstClear(reservedPages, i)
      {
        if !reservedPages[i] {
          reservedPages := reservedPages[i := true];
          return Some(i);
        }
        i := i + 1;
      }
      return None;
    }

    method FreeFrame(frame: nat)
      requires frame < |reservedPages|
      modifies this
      ensures View() == old(View()).(bits := old(reservedPages)[frame := false])
    {
      reservedPages := reservedPages[frame := false];
    }
  }
}

module PageTables {
  import opened Options
  import opened Frames

  const TEXT_VPN: nat := 0x400
  const STATIC_VPN: nat := 0x1_0000
  const DYNAMIC_VPN: nat := 0x1_0008
  const STACK_VPN: nat := 0x8_0000

  datatype Pte = Pte(pfn: nat, global: bool, writable: bool, user: bool, present: bool)

  type Table = map<nat, Pte>

  /** An entry built from flags: `present` is taken from the user flag, as the source writes it. */
  function FromFlags(pfn: nat, global: bool, writable: bool, user: bool): Pte {
    Pte(pfn, global, writable, user, user)
  }

  /** A page to be added: where it goes, and the entry it gets once a frame is reserved for it. */
  datatype Want = Want(vpn: nat, shape: Pte)

  /** Adding a page keeps an entry that is already there; the frame reserved for it then belongs to nobody. */
  function Place(t: Table, w: Want, frame: nat): Table {
    if w.vpn in t then t else t[w.vpn := w.shape.(pfn := frame)]
  }

  /** Reserving and placing pages one after the other, as every constructor and brk does. */
  function MapAll(p: Pool, t: Table, wants: seq<Want>): (r: Option<(Pool, Table)>)
    ensures r.Some? ==> |r.value.0.bits| == |p.bits| && r.value.0.boundary == p.boundary
    decreases |wants|
  {
    if wants == [] then Some((p, t))
    else match Reserve(p)
      case None => None
      case Some((f, p')) => MapAll(p', Place(t, wants[0], f), wants[1..])
  }

  function Region(start: nat, n: nat, writable: bool): seq<Want> {
    seq(n, i requires 0 <= i < n => Want(start + i, FromFlags(0, false, writable, true)))
  }

  function StackRegion(n: nat): seq<Want>
    requires n <= STACK_VPN
  {
    seq(n, i requires 0 <= i < n => Want(STACK_VPN - 1 - i, FromFlags(0, false, true, true)))
  }

  /** The pages of a new process, in the order the constructor asks for them. */
  function Layout(text: nat, data: nat, stack: nat, dynamic: nat): seq<Want>
    requires stack <= STACK_VPN
  {
    Region(TEXT_VPN, text, false) + Region(STATIC_VPN, data, true) + StackRegion(stack) + Region(DYNAMIC_VPN, dynamic, true)
  }

  /** The pages of a forked process, in the parent's iteration order. */
  function Copies(order: seq<nat>, parent: Table): seq<Want>
    requires forall v :: v in order ==> v in parent
  {
    seq(|order|, i requires 0 <= i < |order| => Want(order[i], parent[order[i]]))
  }

  lemma {:induction false} MapAppend(p: Pool, t: Table, a: seq<Want>, b: seq<Want>)
    ensures MapAll(p, t, a + b) == match MapAll(p, t, a) case None => None case Some((p', t')) => MapAll(p', t', b)
    decreases |a|
  {
    if a == [] {
      assert a + b == b;
    } else {
      assert (a + b)[1..] == a[1..] + b;
      match Reserve(p)
      case None =>
      case Some((f, p')) => MapAppend(p', Place(t, a[0], f), a[1..], b);
    }
  }

  lemma {:induction false} MapSnoc(p: Pool, t: Table, wants: seq<Want>, k: nat)
    requires k < |wants|
    ensures MapAll(p, t, wants[..k + 1]) ==
      match MapAll(p, t, wants[..k])
      case None => None
      case Some((p', t')) => match Reserve(p') case None => None case Some((f, p'')) => Some((p'', Place(t', wants[k], f)))
    ensures MapAll(p, t, wants[..k + 1]).None? ==> MapAll(p, t, wants).None?
  {
    assert wants[..k + 1] == wants[..k] + [wants[k]];
    MapAppend(p, t, wants[..k], [wants[k]]);
    assert wants == wants[..k + 1] + wants[k + 1..];
    MapAppend(p, t, wants[..k + 1], wants[k + 1..]);
    match MapAll(p, t, wants[..k])
    case None =>
    case Some((p', t')) =>
      assert [wants[k]][1..] == [];
  }

  // ---- What mapping does to the frames ----

  function FramesOf(t: Table): set<nat> { set v <- t :: t[v].pfn }

  /** Entries hold distinct frames, each reserved and above the kernel's, none of them in `others`. */
  ghost predicate Holds(p: Pool, t: Table, others: set<nat>) {
    && (forall v :: v in t ==> p.boundary <= t[v].pfn < |p.bits| && p.bits[t[v].pfn] && t[v].pfn !in others)
    && (forall v, u :: v in t && u in t && t[v].pfn == t[u].pfn ==> v == u)
  }

  ghost predicate Reserved(p: Pool, frames: set<nat>) {
    forall f :: f in frames ==> f < |p.bits| && p.bits[f]
  }

  lemma PlaceHolds(p: Pool, t: Table, want: Want, others: set<nat>)
    requires Holds(p, t, others) && Reserved(p, others) && Reserve(p).Some?
    ensures var (f, p') := Reserve(p).value;
      && Holds(p', Place(t, want, f), others) && Reserved(p', others)
      && |p'.bits| == |p.bits| && (forall i :: 0 <= i < |p.bits| && p.bits[i] ==> p'.bits[i])
  {
    var (f, p') := Reserve(p).value;
    assert forall v :: v in t ==> t[v].pfn != f;
  }

  /** Mapping pages gives the table fresh frames only: what others hold stays theirs, and stays reserved. */
  lemma {:induction false} MapHolds(p: Pool, t: Table, wants: seq<Want>, others: set<nat>)
    requires Holds(p, t, others) && Reserved(p, others) && MapAll(p, t, wants).Some?
    ensures var (p', t') := MapAll(p, t, wants).value;
      && Holds(p', t', others) && Reserved(p', others)
      && |p'.bits| == |p.bits| && (forall i :: 0 <= i < |p.bits| && p.bits[i] ==> p'.bits[i])
    decreases |wants|
  {
    if wants != [] {
      PlaceHolds(p, t, wants[0], others);
      var (f, p') := Reserve(p).value;
      MapHolds(p', Place(t, wants[0], f), wants[1..], others);
    }
  }

  /** The first want for a page; |wants| when there is none. */
  function FirstWant(wants: seq<Want>, vpn: nat): (k: nat)
    ensures k <= |wants| && (k < |wants| ==> wants[k].vpn == vpn)
    ensures forall j :: 0 <= j < k ==> wants[j].vpn != vpn
  {
    if wants == [] || wants[0].vpn == vpn then 0 else 1 + FirstWant(wants[1..], vpn)
  }

  lemma {:induction false} FirstWantIs(wants: seq<Want>, v: nat, k: nat)
    requires k < |wants| && wants[k].vpn == v && forall j :: 0 <= j < k ==> wants[j].vpn != v
    ensures FirstWant(wants, v) == k
    decreases k
  {
    if k > 0 { FirstWantIs(wants[1..], v, k - 1); }
  }

  /** The entry a page has after mapping: its old one, or the first wanted one with the frame next in line for it. */
  lemma {:induction false} MapFrame(p: Pool, t: Table, wants: seq<Want>, v: nat)
    requires MapAll(p, t, wants).Some?
    ensures var t', k := MapAll(p, t, wants).value.1, FirstWant(wants, v);
      && (v in t' <==> v in t || k < |wants|)
      && (v in t ==> t'[v] == t[v])
      && (v !in t && k < |wants| ==> t'[v] == wants[k].shape.(pfn := NthClear(p.bits, p.boundary, k)))
    decreases |wants|
  {
    if wants != [] {
      var (f, p') := Reserve(p).value;
      var t1 := Place(t, wants[0], f);
      MapFrame(p', t1, wants[1..], v);
      if v != wants[0].vpn { NthAfterTake(p.bits, p.boundary, FirstWant(wants[1..], v)); }
    }
  }

  /** After mapping, the next frame in line is the one that was |wants| places down the line. */
  lemma {:induction false} NextFrame(p: Pool, t: Table, wants: seq<Want>)
    requires MapAll(p, t, wants).Some?
    ensures var p' := MapAll(p, t, wants).value.0; FirstClear(p'.bits, p'.boundary) == NthClear(p.bits, p.boundary, |wants|)
    decreases |wants|
  {
    if wants != [] {
      var (f, p') := Reserve(p).value;
      NextFrame(p', Place(t, wants[0], f), wants[1..]);
      NthAfterTake(p.bits, p.boundary, |wants| - 1);
    }
  }

  ghost predicate WantedAs(wants: seq<Want>, vpn: nat, e: Pte) {
    exists k :: 0 <= k < |wants| && wants[k].vpn == vpn && e == wants[k].shape.(pfn := e.pfn)
  }

  /** The entries afterwards: the old ones untouched, plus exactly the wanted pages with the wanted flags. */
  lemma {:induction false} MapEntries(p: Pool, t: Table, wants: seq<Want>)
    requires MapAll(p, t, wants).Some?
    ensures var t' := MapAll(p, t, wants).value.1;
      && (forall v :: v in t ==> v in t' && t'[v] == t[v])
      && (forall v :: v in t' && v !in t ==> WantedAs(wants, v, t'[v]))
      && (forall k :: 0 <= k < |wants| ==> wants[k].vpn in t')
    decreases |wants|
  {
    if wants != [] {
      var (f, p') := Reserve(p).value;
      var t1 := Place(t, wants[0], f);
      MapEntries(p', t1, wants[1..]);
      var t' := MapAll(p, t, wants).value.1;
      forall v | v in t' && v !in t
        ensures WantedAs(wants, v, t'[v])
      {
        if v in t1 {
          assert wants[0].vpn == v;
        } else {
          var k :| 0 <= k < |wants[1..]| && wants[1..][k].vpn == v && t'[v] == wants[1..][k].shape.(pfn := t'[v].pfn);
          assert wants[k + 1] == wants[1..][k];
        }
      }
      forall k | 0 <= k < |wants| ensures wants[k].vpn in t' {
        if k > 0 { assert wants[k] == wants[1..][k - 1]; }
      }
    }
  }

  /** Every page asked for took a frame of its own, so no more pages can be mapped than there are frames. */
  lemma {:induction false} MapConsumes(p: Pool, t: Table, wants: seq<Want>)
    requires MapAll(p, t, wants).Some?
    ensures wants != [] ==> FirstClear(p.bits, p.boundary) + |wants| <= |p.bits|
    decreases |wants|
  {
    if wants != [] {
      var (f, p') := Reserve(p).value;
      MapConsumes(p', Place(t, wants[0], f), wants[1..]);
      assert FirstClear(p'.bits, p'.boundary) > f;
    }
  }

  /** New pages only: the frames reserved are exactly the frames the new entries hold, none is leaked. */
  lemma {:induction false} MapExact(p: Pool, t: Table, wants: seq<Want>)
    requires MapAll(p, t, wants).Some?
    requires forall k :: 0 <= k < |wants| ==> wants[k].vpn !in t
    requires forall k, l :: 0 <= k < l < |wants| ==> wants[k].vpn != wants[l].vpn
    ensures var (p', t') := MapAll(p, t, wants).value;
      forall i :: 0 <= i < |p.bits| ==>
        (p'.bits[i] <==> p.bits[i] || exists v :: v in t' && v !in t && t'[v].pfn == i)
    decreases |wants|
  {
    if wants != [] {
      var (f, p1) := Reserve(p).value;
      var t1 := Place(t, wants[0], f);
      forall k | 0 <= k < |wants[1..]| ensures wants[1..][k].vpn !in t1 {
        assert wants[1..][k] == wants[k + 1];
      }
      MapExact(p1, t1, wants[1..]);
      MapEntries(p1, t1, wants[1..]);
      var (p', t') := MapAll(p, t, wants).value;
      forall i | 0 <= i < |p.bits|
        ensures p'.bits[i] <==> p.bits[i] || exists v :: v in t' && v !in t && t'[v].pfn == i
      {
        assert p'.bits[i] <==> p1.bits[i] || exists v :: v in t' && v !in t1 && t'[v].pfn == i;
        if i == f { assert wants[0].vpn in t' && t'[wants[0].vpn].pfn == i; }
      }
    }
  }
}
