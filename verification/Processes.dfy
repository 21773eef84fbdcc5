/** PCBs, the guards that hold them, PID slots and their reuse. */
module Processes {
  import opened Options

  type Addr = nat

  const KERNEL: Addr := 0
  const KERNEL_PID: nat := 0xFFFF_FFFF
  const NO_PCB: nat := 0xFFFF_FFFF
  const REFCOUNT_LIMIT: nat := 65535

  datatype State = READY | RUNNING | BLOCKED | ZOMBIE

  datatype Pcb = Pcb(pid: nat, state: State, priority: nat, refcount: nat)

  /** The allocated PCBs by address, the slot vector that owns them, the free PIDs, and what each guard refers to. */
  datatype Core = Core(pcbs: map<Addr, Pcb>, slots: seq<Option<Addr>>, freePids: seq<nat>, guards: map<nat, Addr>)

  ghost function Holders(guards: map<nat, Addr>, a: Addr): set<nat> {
    set g | g in guards && guards[g] == a
  }

  // ---- Invariants ----

  /** A slot owns the PCB whose PID is its index; every user PCB is owned by its slot. */
  ghost predicate SlotsOk(c: Core) {
    && KERNEL in c.pcbs && c.pcbs[KERNEL].pid == KERNEL_PID && |c.slots| < NO_PCB
    && (forall i :: 0 <= i < |c.slots| && c.slots[i].Some? ==>
          c.slots[i].value != KERNEL && c.slots[i].value in c.pcbs && c.pcbs[c.slots[i].value].pid == i)
    && (forall a :: a in c.pcbs && a != KERNEL ==> c.pcbs[a].pid < |c.slots| && c.slots[c.pcbs[a].pid] == Some(a))
  }

  /** A slot is empty exactly when its index is among the free PIDs, and it is there only once. */
  ghost predicate FreeOk(c: Core) {
    && (forall i :: 0 <= i < |c.slots| ==> (c.slots[i].None? <==> i in c.freePids))
    && (forall p :: p in c.freePids ==> p < |c.slots|)
    && (forall i, j :: 0 <= i < j < |c.freePids| ==> c.freePids[i] != c.freePids[j])
  }

  /** No guard dangles, and a user PCB's count is the number of guards that hold it; only a held PCB can be a zombie. */
  ghost predicate GuardsOk(c: Core) {
    && (forall g :: g in c.guards ==> c.guards[g] in c.pcbs)
    && (forall a :: a in c.pcbs && a != KERNEL ==> Counted(c, a))
  }

  ghost predicate Counted(c: Core, a: Addr)
    requires a in c.pcbs
  {
    && c.pcbs[a].refcount == |Holders(c.guards, a)|
    && (c.pcbs[a].state == ZOMBIE ==> c.pcbs[a].refcount > 0)
  }

  ghost predicate Inv(c: Core) { SlotsOk(c) && FreeOk(c) && GuardsOk(c) }

  // ---- Operations on guards ----

  /** borrow: the new guard g holds a. */
  function Borrow(c: Core, a: Addr, g: nat): Core
    requires a in c.pcbs
  {
    c.(pcbs := c.pcbs[a := c.pcbs[a].(refcount := c.pcbs[a].refcount + 1)], guards := c.guards[g := a])
  }

  /** freeProcess: the last slot is popped, any other is emptied and its PID becomes free. */
  function FreeProcess(c: Core, pid: nat): Core
    requires pid < |c.slots| && c.slots[pid].Some?
  {
    var c' := c.(pcbs := c.pcbs - {c.slots[pid].value});
    if pid == |c.slots| - 1 then c'.(slots := c.slots[..pid])
    else c'.(slots := c.slots[pid := None], freePids := c.freePids + [pid])
  }

  /** reset: the guard lets go; a zombie nobody holds any more is freed. */
  function Reset(c: Core, g: nat): Core {
    if g !in c.guards || c.guards[g] !in c.pcbs then c
    else
      var a := c.guards[g];
      var c1 := c.(guards := c.guards - {g});
      if a == KERNEL then c1
      else
        var pcb := c.pcbs[a].(refcount := if c.pcbs[a].refcount > 0 then c.pcbs[a].refcount - 1 else REFCOUNT_LIMIT);
        var c2 := c1.(pcbs := c.pcbs[a := pcb]);
        if pcb.state == ZOMBIE && pcb.refcount == 0 && pcb.pid < |c.slots| && c.slots[pcb.pid].Some?
        then FreeProcess(c2, pcb.pid) else c2
  }

  /** Moving a guard hands its reference over; the count does not change. */
  function Move(c: Core, from: nat, to: nat): Core {
    if from !in c.guards then c.(guards := c.guards - {to})
    else c.(guards := (c.guards - {from})[to := c.guards[from]])
  }

  function MoveAssign(c: Core, to: nat, from: nat): Core {
    if to == from then c else Move(Reset(c, to), from, to)
  }

  function Doom(c: Core, a: Addr): Core
    requires a in c.pcbs
  {
    c.(pcbs := c.pcbs[a := c.pcbs[a].(state := ZOMBIE)])
  }

  /** The PID the next process gets: the last one freed, else a new slot. */
  function NextPid(c: Core): nat { if c.freePids == [] then |c.slots| else c.freePids[|c.freePids| - 1] }

  /** createProcess and forkProcess install the new PCB at address a. */
  function Install(c: Core, a: Addr, state: State): Core {
    var pid := NextPid(c);
    var c' := c.(pcbs := c.pcbs[a := Pcb(pid, state, 0, 0)]);
    if c.freePids == [] then c'.(slots := c.slots + [Some(a)])
    else if pid < |c.slots| then c'.(slots := c.slots[pid := Some(a)], freePids := c.freePids[..|c.freePids| - 1])
    else c'
  }

  // ---- What they keep ----

  lemma HoldersAdded(guards: map<nat, Addr>, g: nat, a: Addr)
    requires g !in guards
    ensures forall b :: Holders(guards[g := a], b) == if b == a then Holders(guards, b) + {g} else Holders(guards, b)
    ensures |Holders(guards[g := a], a)| == |Holders(guards, a)| + 1
  {
    assert Holders(guards[g := a], a) == Holders(guards, a) + {g};
  }

  lemma HoldersDropped(guards: map<nat, Addr>, g: nat)
    requires g in guards
    ensures forall b :: Holders(guards - {g}, b) == if b == guards[g] then Holders(guards, b) - {g} else Holders(guards, b)
    ensures |Holders(guards - {g}, guards[g])| + 1 == |Holders(guards, guards[g])|
  {
    assert Holders(guards - {g}, guards[g]) == Holders(guards, guards[g]) - {g};
    assert g in Holders(guards, guards[g]);
  }

  lemma BorrowInv(c: Core, a: Addr, g: nat)
    requires Inv(c) && a in c.pcbs && g !in c.guards
    ensures Inv(Borrow(c, a, g))
  {
    HoldersAdded(c.guards, g, a);
    var c' := Borrow(c, a, g);
    forall b | b in c'.pcbs && b != KERNEL ensures Counted(c', b) { assert Counted(c, b); }
  }

  lemma FreeProcessSlots(c: Core, pid: nat)
    requires SlotsOk(c) && FreeOk(c) && pid < |c.slots| && c.slots[pid].Some?
    ensures SlotsOk(FreeProcess(c, pid)) && FreeOk(FreeProcess(c, pid))
  {
    var c' := FreeProcess(c, pid);
    forall i | 0 <= i < |c'.slots| ensures c'.slots[i].None? <==> i in c'.freePids {
      assert i != pid ==> c'.slots[i] == c.slots[i];
    }
  }

  lemma FreeProcessInv(c: Core, pid: nat)
    requires SlotsOk(c) && FreeOk(c) && pid < |c.slots| && c.slots[pid].Some?
    requires forall g :: g in c.guards ==> c.guards[g] in c.pcbs && c.guards[g] != c.slots[pid].value
    requires forall a :: a in c.pcbs && a != KERNEL && a != c.slots[pid].value ==> Counted(c, a)
    ensures Inv(FreeProcess(c, pid))
  {
    var c' := FreeProcess(c, pid);
    FreeProcessSlots(c, pid);
    forall a | a in c'.pcbs && a != KERNEL ensures Counted(c', a) { assert Counted(c, a); }
  }

  /** The state just before reset decides whether to free: the guard gone, its PCB's count lowered. */
  function Dropped(c: Core, g: nat): Core
    requires g in c.guards && c.guards[g] in c.pcbs && c.pcbs[c.guards[g]].refcount > 0
  {
    var a := c.guards[g];
    c.(guards := c.guards - {g}, pcbs := c.pcbs[a := c.pcbs[a].(refcount := c.pcbs[a].refcount - 1)])
  }

  lemma HeldCount(c: Core, g: nat)
    requires Inv(c) && g in c.guards && c.guards[g] != KERNEL
    ensures c.pcbs[c.guards[g]].refcount > 0
    ensures c.pcbs[c.guards[g]].refcount == 1 <==> Holders(c.guards, c.guards[g]) == {g}
  {
    var h := Holders(c.guards, c.guards[g]);
    assert Counted(c, c.guards[g]) && g in h;
    if |h| == 1 { assert |h - {g}| == 0; }
  }

  lemma DroppedCounts(c: Core, g: nat)
    requires Inv(c) && g in c.guards && c.guards[g] != KERNEL && c.pcbs[c.guards[g]].refcount > 0
    ensures var c2 := Dropped(c, g);
      && SlotsOk(c2) && FreeOk(c2)
      && (forall h :: h in c2.guards ==> c2.guards[h] in c2.pcbs)
      && (forall b :: b in c2.pcbs && b != KERNEL ==> c2.pcbs[b].refcount == |Holders(c2.guards, b)|)
      && (forall b :: b in c2.pcbs && b != KERNEL && b != c.guards[g] ==> Counted(c2, b))
  {
    var c2, a := Dropped(c, g), c.guards[g];
    HoldersDropped(c.guards, g);
    assert Counted(c, a);
    forall b | b in c2.pcbs && b != KERNEL && b != a ensures Counted(c2, b) { assert Counted(c, b); }
  }

  lemma ResetIs(c: Core, g: nat)
    requires Inv(c) && g in c.guards && c.guards[g] != KERNEL && c.pcbs[c.guards[g]].refcount > 0
    ensures var c2, pcb := Dropped(c, g), c.pcbs[c.guards[g]];
      && pcb.pid < |c.slots| && c.slots[pcb.pid] == Some(c.guards[g])
      && Reset(c, g) == if pcb.state == ZOMBIE && pcb.refcount == 1 then FreeProcess(c2, pcb.pid) else c2
  {}

  /** Dropping a guard keeps every count right. */
  lemma ResetInv(c: Core, g: nat)
    requires Inv(c)
    ensures Inv(Reset(c, g)) && g !in Reset(c, g).guards
  {
    if g in c.guards && c.guards[g] != KERNEL {
      var a := c.guards[g];
      HeldCount(c, g);
      DroppedCounts(c, g);
      ResetIs(c, g);
      var c2 := Dropped(c, g);
      if c.pcbs[a].state == ZOMBIE && c.pcbs[a].refcount == 1 {
        forall h | h in c2.guards ensures c2.guards[h] != a {
          assert h in Holders(c2.guards, c2.guards[h]);
        }
        FreeProcessInv(c2, c.pcbs[a].pid);
      }
    } else if g in c.guards {
      HoldersDropped(c.guards, g);
      var c1 := c.(guards := c.guards - {g});
      forall b | b in c1.pcbs && b != KERNEL ensures Counted(c1, b) { assert Counted(c, b); }
    }
  }

  /** A PCB is freed by a reset exactly when it is a zombie and this was the last guard holding it. */
  lemma ResetFrees(c: Core, g: nat, a: Addr)
    requires Inv(c) && a in c.pcbs
    ensures a !in Reset(c, g).pcbs <==> a != KERNEL && c.pcbs[a].state == ZOMBIE && Holders(c.guards, a) == {g}
  {
    if g in c.guards && c.guards[g] != KERNEL {
      HeldCount(c, g);
      ResetIs(c, g);
    }
    if Holders(c.guards, a) == {g} { assert g in Holders(c.guards, a); }
  }

  lemma MoveInv(c: Core, from: nat, to: nat)
    requires Inv(c) && to !in c.guards
    ensures Inv(Move(c, from, to)) && Move(c, from, to).pcbs == c.pcbs
  {
    var c' := Move(c, from, to);
    if from in c.guards {
      HoldersDropped(c.guards, from);
      HoldersAdded(c.guards - {from}, to, c.guards[from]);
    } else {
      assert c.guards - {to} == c.guards;
    }
    forall b | b in c'.pcbs && b != KERNEL ensures Counted(c', b) { assert Counted(c, b); }
  }

  /** Move-assignment drops what the target held and keeps every count right; assigning to itself changes nothing. */
  lemma MoveAssignInv(c: Core, to: nat, from: nat)
    requires Inv(c)
    ensures Inv(MoveAssign(c, to, from))
  {
    if to != from {
      ResetInv(c, to);
      MoveInv(Reset(c, to), from, to);
    }
  }

  /** A held user PCB may be doomed: it lives on until its last guard lets go. */
  lemma DoomInv(c: Core, a: Addr)
    requires Inv(c) && a in c.pcbs && a != KERNEL && Holders(c.guards, a) != {}
    ensures Inv(Doom(c, a))
  {
    var c' := Doom(c, a);
    assert Counted(c, a);
    forall b | b in c'.pcbs && b != KERNEL ensures Counted(c', b) { assert Counted(c, b); }
  }

  /** A new PCB goes into an empty slot, so the slot assertion never fires, and keeps the PID discipline. */
  lemma InstallInv(c: Core, a: Addr, state: State)
    requires Inv(c) && a !in c.pcbs && state != ZOMBIE && |c.slots| + 1 < NO_PCB
    ensures Inv(Install(c, a, state))
    ensures NextPid(c) < |c.slots| ==> c.slots[NextPid(c)].None?
    ensures NextPid(c) < |Install(c, a, state).slots| && Install(c, a, state).slots[NextPid(c)] == Some(a)
  {
    var c', pid := Install(c, a, state), NextPid(c);
    if c.freePids != [] {
      assert pid in c.freePids;
      assert forall p :: p in c'.freePids ==> p in c.freePids;
    }
    assert a != KERNEL;
    forall g | g in c.guards ensures c.guards[g] != a {}
    assert Holders(c.guards, a) == {};
    forall b | b in c'.pcbs && b != KERNEL ensures Counted(c', b) {
      if b != a { assert Counted(c, b); }
    }
    forall i | 0 <= i < |c'.slots| ensures c'.slots[i].None? <==> i in c'.freePids {
      if c.freePids != [] { assert c.freePids == c'.freePids + [pid]; }
    }
  }

  // ---- What one call undoes ----

  /** Borrowing and letting go again leaves no trace, as long as nobody doomed the process meanwhile. */
  lemma BorrowReset(c: Core, a: Addr, g: nat)
    requires Inv(c) && a in c.pcbs && a != KERNEL && g !in c.guards
    ensures c.pcbs[a].state != ZOMBIE ==> Reset(Borrow(c, a, g), g) == c
  {
    assert c.guards[g := a] - {g} == c.guards;
    assert c.pcbs[a := c.pcbs[a].(refcount := c.pcbs[a].refcount + 1)][a := c.pcbs[a]] == c.pcbs;
  }

  /** A doomed process that nobody else holds is freed, slot and PID included, when its one guard lets go. */
  lemma DoomReset(c: Core, a: Addr, g: nat)
    requires Inv(c) && a in c.pcbs && a != KERNEL && g !in c.guards && Holders(c.guards, a) == {}
    ensures c.pcbs[a].pid < |c.slots| && c.slots[c.pcbs[a].pid] == Some(a)
    ensures Reset(Doom(Borrow(c, a, g), a), g) == FreeProcess(c, c.pcbs[a].pid)
    ensures Inv(FreeProcess(c, c.pcbs[a].pid))
  {
    assert Counted(c, a);
    var c1, pid := Doom(Borrow(c, a, g), a), c.pcbs[a].pid;
    assert c1.guards - {g} == c.guards;
    assert c1.pcbs[a].refcount == 1 && c1.guards[g] == a;
    var c2 := Reset(c1, g);
    assert c2.slots == FreeProcess(c, pid).slots && c2.freePids == FreeProcess(c, pid).freePids;
    assert c2.pcbs == c.pcbs - {a};
    forall h | h in c.guards ensures c.guards[h] != a { assert h in Holders(c.guards, c.guards[h]); }
    FreeProcessInv(c, pid);
  }
}

/** The ready queue of the kernel: three levels served in order. */
module Scheduler {
  import opened Options

  const NUM_LEVELS: nat := 3

  function Total(levels: seq<seq<nat>>): nat {
    if levels == [] then 0 else |levels[0]| + Total(levels[1..])
  }

  lemma {:induction false} TotalUpdate(levels: seq<seq<nat>>, i: nat, l: seq<nat>)
    requires i < |levels|
    ensures Total(levels[i := l]) + |levels[i]| == Total(levels) + |l|
    decreases |levels|
  {
    if i == 0 {
      assert levels[i := l][1..] == levels[1..];
    } else {
      assert levels[i := l][1..] == levels[1..][i - 1 := l];
      TotalUpdate(levels[1..], i - 1, l);
    }
  }

  function FirstNonEmpty(levels: seq<seq<nat>>, from: nat): (i: nat)
    requires from <= |levels|
    ensures from <= i <= |levels| && (i < |levels| ==> levels[i] != [])
    ensures forall k :: from <= k < i ==> levels[k] == []
    decreases |levels| - from
  {
    if from == |levels| || levels[from] != [] then from else FirstNonEmpty(levels, from + 1)
  }

  function Reverse(s: seq<nat>): seq<nat> {
    if s == [] then [] else [s[|s| - 1]] + Reverse(s[..|s| - 1])
  }

  lemma {:induction false} ReverseKeeps(s: seq<nat>)
    ensures |Reverse(s)| == |s| && multiset(Reverse(s)) == multiset(s)
  {
    if s != [] {
      ReverseKeeps(s[..|s| - 1]);
      assert s == s[..|s| - 1] + [s[|s| - 1]];
    }
  }

  /** The k-th from the back comes k-th. */
  lemma {:induction false} ReverseAt(s: seq<nat>, k: nat)
    requires k < |s|
    ensures |Reverse(s)| == |s| && Reverse(s)[k] == s[|s| - 1 - k]
    decreases |s|
  {
    ReverseKeeps(s[..|s| - 1]);
    if k > 0 { ReverseAt(s[..|s| - 1], k - 1); }
  }

  class MultiLevelQueue {
    var levels: seq<seq<nat>>
    var size: nat

    ghost predicate Valid()
      reads this
    {
      |levels| == NUM_LEVELS && size == Total(levels)
    }

    constructor ()
      ensures Valid() && levels == [[], [], []]
    {
      levels := [[], [], []];
      size := 0;
      new;
      assert levels[1..][1..][1..] == [];
    }

    method Enqueue(pid: nat, priority: nat)
      requires Valid() && priority < NUM_LEVELS
      modifies this
      ensures Valid() && levels == old(levels)[priority := old(levels)[priority] + [pid]]
    {
      TotalUpdate(levels, priority, levels[priority] + [pid]);
      levels := levels[priority := levels[priority] + [pid]];
      size := size + 1;
    }

    /** The front of the first level that is not empty; None stands for the PID -1 of an empty queue. */
    method Dequeue() returns (pid: Option<nat>)
      requires Valid()
      modifies this
      ensures Valid()
      ensures
        var i := FirstNonEmpty(old(levels), 0);
        if i == NUM_LEVELS then pid.None? && levels == old(levels)
        else pid == Some(old(levels)[i][0]) && levels == old(levels)[i := old(levels)[i][1..]]
    {
      var i := 0;
      while i < NUM_LEVELS
        invariant 0 <= i <= NUM_LEVELS && levels == old(levels) && size == old(size)
        invariant FirstNonEmpty(levels, 0) == FirstNonEmpty(levels, i)
      {
        if levels[i] != [] {
          pid := Some(levels[i][0]);
          TotalUpdate(levels, i, levels[i][1..]);
          levels := levels[i := levels[i][1..]];
          size := size - 1;
          return;
        }
        i := i + 1;
      }
      pid := None;
    }

    /** The inner loop of boost: level i is emptied from the back into level 0. */
    method Drain(i: nat)
      requires Valid() && 0 < i < NUM_LEVELS
      modifies `levels
      ensures Valid()
      ensures levels == old(levels)[0 := old(levels)[0] + Reverse(old(levels)[i])][i := []]
    {
      ghost var l := levels;
      while levels[i] != []
        invariant Valid()
        invariant forall k :: 0 < k < NUM_LEVELS && k != i ==> levels[k] == l[k]
        invariant levels[0] + Reverse(levels[i]) == l[0] + Reverse(l[i])
        decreases |levels[i]|
      {
        var last := |levels[i]| - 1;
        assert levels[0] + [levels[i][last]] + Reverse(levels[i][..last]) == levels[0] + Reverse(levels[i]);
        TotalUpdate(levels, 0, levels[0] + [levels[i][last]]);
        levels := levels[0 := levels[0] + [levels[i][last]]];
        TotalUpdate(levels, i, levels[i][..last]);
        levels := levels[i := levels[i][..last]];
      }
      assert levels[0] + [] == levels[0];
    }

    /** Everything waiting moves to level 0, each lower level in reverse; the count does not change. */
    method Boost()
      requires Valid()
      modifies this
      ensures Valid() && size == old(size)
      ensures levels == [old(levels)[0] + Reverse(old(levels)[1]) + Reverse(old(levels)[2]), [], []]
    {
      ghost var l := levels;
      var i := 1;
      while i < NUM_LEVELS
        invariant 1 <= i <= NUM_LEVELS && Valid() && size == old(size)
        invariant i == 1 ==> levels == l
        invariant i == 2 ==> levels == [l[0] + Reverse(l[1]), [], l[2]]
        invariant i == 3 ==> levels == [l[0] + Reverse(l[1]) + Reverse(l[2]), [], []]
      {
        Drain(i);
        i := i + 1;
      }
    }
  }

  /** Boosting keeps the queued PIDs: nothing is lost, doubled or invented. */
  lemma BoostKeeps(levels: seq<seq<nat>>)
    requires |levels| == NUM_LEVELS
    ensures
      multiset(levels[0] + Reverse(levels[1]) + Reverse(levels[2]))
      == multiset(levels[0]) + multiset(levels[1]) + multiset(levels[2])
  {
    ReverseKeeps(levels[1]);
    ReverseKeeps(levels[2]);
  }
}
