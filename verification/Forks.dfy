/** What fork's copying loop, four frames for every page, does to parent, child and bystanders, exactly. */
module Forks {
  import opened Options
  import opened Frames
  import opened PageTables
  import opened PageFrames
  import opened AddressSpaces
  import opened Machine
  import opened PrivateMachine
  import opened Isolation
  import opened PagedMachine

  /** Whatever memory holds and whatever the kernel writes: the one table then has the pages the other had before. */
  ghost predicate Gives(s: Sys, step: Step, caller: nat, others: set<nat>, s': Sys, after: Table, before: Table) {
    forall m: Memory, m': Memory :: |m| == PHYS_MEM_SIZE && Acts(Mid(s, m), Do(step), caller, others, Mid(s', m')) ==>
      PagesOf(after, m') == PagesOf(before, m)
  }

  /** Every page of the one table has its origin in the frame of the other. */
  ghost predicate Origins(copies: seq<Copy>, after: Table, before: Table)
    requires after.Keys == before.Keys
  {
    forall v :: v in after ==> Origin(copies, after[v].pfn) == before[v].pfn
  }

  lemma SamePages(after: Table, m': Memory, before: Table, m: Memory)
    requires after.Keys == before.Keys && forall v :: v in after ==> PageAt(m', after[v].pfn) == PageAt(m, before[v].pfn)
    ensures PagesOf(after, m') == PagesOf(before, m)
  {}

  lemma MovedPages(m: Memory, copies: seq<Copy>, kernel: set<nat>, m': Memory, after: Table, before: Table)
    requires AllFit(copies) && Apart(copies) && ReadsClear(copies, kernel) && after.Keys == before.Keys
    requires forall v :: v in after ==> after[v].pfn !in kernel
    requires |m| == PHYS_MEM_SIZE && ForkEffect(m, copies, kernel, m') && Origins(copies, after, before)
    ensures PagesOf(after, m') == PagesOf(before, m)
  {
    forall v | v in after ensures PageAt(m', after[v].pfn) == PageAt(m, before[v].pfn) {
      ForkPage(m, copies, kernel, m', after[v].pfn);
    }
    SamePages(after, m', before, m);
  }

  /** For any two tables of the same pages: the pages move from one to the other if and only if the origins say so. */
  lemma GivesExactly(s: Sys, step: Step, caller: nat, others: set<nat>, s': Sys, after: Table, before: Table)
    requires Owned(s) && step.Fork? && Changes(s, Do(step), caller, others, s') && after.Keys == before.Keys
    requires forall v :: v in after ==> after[v].pfn !in KernelFrames(s) && before[v].pfn < NUM_PAGES
    ensures Gives(s, step, caller, others, s', after, before) <==> Origins(CopiesOf(s, step), after, before)
  {
    var copies, kernel := CopiesOf(s, step), KernelFrames(s);
    ForkCopies(s, step);
    if Gives(s, step, caller, others, s', after, before) {
      forall v | v in after ensures Origin(copies, after[v].pfn) == before[v].pfn {
        forall m: Memory, m': Memory | |m| == PHYS_MEM_SIZE && ForkEffect(m, copies, kernel, m')
          ensures PageAt(m', after[v].pfn) == PageAt(m, before[v].pfn)
        {
          assert Acts(Mid(s, m), Do(step), caller, others, Mid(s', m'));
          assert PagesOf(after, m')[v] == PagesOf(before, m)[v];
        }
        OriginOnly(copies, kernel, after[v].pfn, before[v].pfn);
      }
    }
    if Origins(copies, after, before) {
      forall m: Memory, m': Memory | |m| == PHYS_MEM_SIZE && Acts(Mid(s, m), Do(step), caller, others, Mid(s', m'))
        ensures PagesOf(after, m') == PagesOf(before, m)
      {
        MovedPages(m, copies, kernel, m', after, before);
      }
    }
  }

  lemma UserFrames(s: Sys, p: nat)
    requires Owned(s) && p in s.spaces
    ensures var t := s.spaces[p].table; forall v :: v in t ==> t[v].pfn !in KernelFrames(s) && t[v].pfn < NUM_PAGES
  {
    var t := s.spaces[p].table;
    forall v | v in t ensures t[v].pfn !in KernelFrames(s) && t[v].pfn < NUM_PAGES { assert Mapped(s, p, v); }
  }

  /**
   * A fork leaves a process its pages, for every memory, if and only if every frame of the process is its own origin: a
   * bystander, and the parent itself.
   */
  lemma ForkSparesExactly(s: Sys, step: Step, caller: nat, others: set<nat>, s': Sys, p: nat)
    requires Owned(s) && step.Fork? && Changes(s, Do(step), caller, others, s') && p in s.spaces
    ensures Gives(s, step, caller, others, s', s.spaces[p].table, s.spaces[p].table) <==> Spares(s, Do(step), p)
  {
    UserFrames(s, p);
    GivesExactly(s, step, caller, others, s', s.spaces[p].table, s.spaces[p].table);
  }

  /** The child's table: the parent's pages, in the frames the copies go to. */
  lemma ForkedTable(s: Sys, step: Step)
    requires Owned(s) && step.Fork? && Enabled(s, step) && Next(s, step).Some?
    ensures var s' := Next(s, step).value;
      && step.p in s'.spaces && s'.spaces[step.p].table.Keys == s.spaces[step.parent].table.Keys
      && forall i :: 0 <= i < |step.order| ==> s'.spaces[step.p].table[step.order[i]].pfn == CopiesOf(s, step)[i].dst
  {
    var order, parent := step.order, s.spaces[step.parent].table;
    var t := Next(s, step).value.spaces[step.p].table;
    MapEntries(s.pool, map[], Copies(order, parent));
    forall v | v in t ensures v in parent { assert WantedAs(Copies(order, parent), v, t[v]); }
    forall i | 0 <= i < |order| ensures order[i] in t && t[order[i]].pfn == CopiesOf(s, step)[i].dst {
      ChildFrame(s.pool, order, parent, i);
    }
    forall v | v in parent ensures v in t { var i :| 0 <= i < |order| && order[i] == v; }
  }

  /** No copy reads a page that the copies before it have changed. */
  ghost predicate ReadsFresh(copies: seq<Copy>) {
    forall i :: 0 <= i < |copies| ==> Origin(copies[..i], copies[i].src) == copies[i].src
  }

  lemma FreshOrigins(p: Pool, order: seq<nat>, parent: Table, child: Table)
    requires Enumerates(order, parent) && child.Keys == parent.Keys && Apart(CopyList(p, order, parent))
    requires forall i :: 0 <= i < |order| ==> child[order[i]].pfn == CopyList(p, order, parent)[i].dst
    ensures Origins(CopyList(p, order, parent), child, parent) <==> ReadsFresh(CopyList(p, order, parent))
  {
    var copies := CopyList(p, order, parent);
    CopiesAscend(p, order, parent);
    forall i | 0 <= i < |order|
      ensures Origin(copies, child[order[i]].pfn) == Origin(copies[..i], copies[i].src) && copies[i].src == parent[order[i]].pfn
    {
      TargetOrigin(copies, i);
    }
    if Origins(copies, child, parent) {
      forall i | 0 <= i < |copies| ensures Origin(copies[..i], copies[i].src) == copies[i].src { assert order[i] in child; }
    }
    if ReadsFresh(copies) {
      forall v | v in child ensures Origin(copies, child[v].pfn) == parent[v].pfn {
        var i :| 0 <= i < |order| && order[i] == v;
      }
    }
  }

  lemma ForkOrigins(s: Sys, step: Step)
    requires Owned(s) && step.Fork? && Enabled(s, step) && Next(s, step).Some?
    ensures var t, t' := s.spaces[step.parent].table, Next(s, step).value.spaces[step.p].table;
      && t'.Keys == t.Keys && (Origins(CopiesOf(s, step), t', t) <==> ReadsFresh(CopiesOf(s, step)))
  {
    ForkedTable(s, step);
    ForkCopies(s, step);
    FreshOrigins(s.pool, step.order, s.spaces[step.parent].table, Next(s, step).value.spaces[step.p].table);
  }

  lemma ForkedFrames(s: Sys, step: Step)
    requires Owned(s) && step.Fork? && Enabled(s, step) && Next(s, step).Some?
    ensures var t, t' := s.spaces[step.parent].table, Next(s, step).value.spaces[step.p].table;
      forall v :: v in t && v in t' ==> t'[v].pfn !in KernelFrames(s) && t[v].pfn < NUM_PAGES
  {
    StepOwned(s, step);
    UserFrames(Next(s, step).value, step.p);
    UserFrames(s, step.parent);
    assert KernelFrames(Next(s, step).value) == KernelFrames(s);
  }

  /** The child gets the parent's pages, for every memory, if and only if no copy reads a page that an earlier one changed. */
  lemma ForkIsCopy(s: Sys, step: Step, caller: nat, others: set<nat>, s': Sys)
    requires Owned(s) && step.Fork? && Changes(s, Do(step), caller, others, s')
    ensures step.p in s'.spaces && s'.spaces[step.p].table.Keys == s.spaces[step.parent].table.Keys
    ensures Gives(s, step, caller, others, s', s'.spaces[step.p].table, s.spaces[step.parent].table)
       <==> ReadsFresh(CopiesOf(s, step))
  {
    ForkOrigins(s, step);
    ForkedFrames(s, step);
    GivesExactly(s, step, caller, others, s', s'.spaces[step.p].table, s.spaces[step.parent].table);
  }

  // ---- Whole calls ----

  predicate IsFork(act: Act) { act.Do? && act.step.Fork? }

  /** The address spaces in the course of a call, and how its acts change them. */
  ghost predicate Course(syss: seq<Sys>, acts: seq<Act>, caller: nat, others: set<nat>) {
    && |syss| == |acts| + 1 && Owned(syss[0]) && Consistent(syss[0])
    && caller !in others && others <= syss[0].spaces.Keys
    && forall i :: 0 <= i < |acts| ==> Changes(syss[i], acts[i], caller, others, syss[i + 1])
  }

  ghost predicate Over(states: seq<Mid>, syss: seq<Sys>) {
    |states| == |syss| && forall i :: 0 <= i < |syss| ==> states[i].sys == syss[i]
  }

  /** Whatever memory holds before the call and whatever its acts write, p keeps its pages. */
  ghost predicate AlwaysKept(syss: seq<Sys>, acts: seq<Act>, caller: nat, others: set<nat>, p: nat) {
    |syss| == |acts| + 1 &&
    forall states: seq<Mid> ::
      Over(states, syss) && |states[0].phys| == PHYS_MEM_SIZE && Serves(states, acts, caller, others) ==>
        Kept(states[0], states[|acts|], p)
  }

  /** An act other than a fork may write nothing. */
  lemma WritesNothing(s: Sys, act: Act, caller: nat, others: set<nat>, s': Sys, m: Memory)
    requires Changes(s, act, caller, others, s') && !IsFork(act)
    ensures Acts(Mid(s, m), act, caller, others, Mid(s', m))
  {}

  lemma {:induction false} SameSpace(states: seq<Mid>, acts: seq<Act>, caller: nat, others: set<nat>, p: nat, n: nat)
    requires Serves(states, acts, caller, others) && n < |states| && caller !in others && p in others && p in states[0].sys.spaces
    ensures p in states[n].sys.spaces && states[n].sys.spaces[p] == states[0].sys.spaces[p]
    decreases n
  {
    if n > 0 {
      var i := n - 1;
      SameSpace(states, acts, caller, others, p, i);
      assert Acts(states[i], acts[i], caller, others, states[i + 1]);
      ActKeepsSpace(states[i], acts[i], caller, others, states[n], p);
    }
  }

  /** The call in which only the k-th act, a fork, writes memory. */
  lemma ForkAlone(syss: seq<Sys>, acts: seq<Act>, caller: nat, others: set<nat>, k: nat, m: Memory) returns (states: seq<Mid>)
    requires Course(syss, acts, caller, others) && |m| == PHYS_MEM_SIZE && k < |acts| && IsFork(acts[k])
    requires forall i :: 0 <= i < |acts| && i != k ==> !IsFork(acts[i])
    ensures Over(states, syss) && Serves(states, acts, caller, others)
    ensures Changes(syss[k], acts[k], caller, others, syss[k + 1])
    ensures states[0] == Mid(syss[0], m) && states[|acts|].phys == CopyPages(m, CopiesOf(syss[k], acts[k].step))
  {
    assert Changes(syss[k], acts[k], caller, others, syss[k + 1]);
    var copies := CopiesOf(syss[k], acts[k].step);
    var m' := CopyPages(m, copies);
    states := seq(|syss|, i requires 0 <= i < |syss| => Mid(syss[i], if i <= k then m else m'));
    CopyPagesEffect(m, copies, KernelFrames(syss[k]));
    forall i | 0 <= i < |acts| ensures Acts(states[i], acts[i], caller, others, states[i + 1]) {
      assert Changes(syss[i], acts[i], caller, others, syss[i + 1]);
      if i != k { WritesNothing(syss[i], acts[i], caller, others, syss[i + 1], states[i].phys); }
    }
  }

  /** What the marked page of a frame that is not its own origin turns into. */
  lemma MarkLost(s: Sys, step: Step, g: nat)
    requires Owned(s) && step.Fork? && Enabled(s, step) && Next(s, step).Some? && CopiesFit(s, step)
    requires g !in KernelFrames(s) && g < NUM_PAGES && Origin(CopiesOf(s, step), g) != g
    ensures PageAt(CopyPages(Marked(g), CopiesOf(s, step)), g) != PageAt(Marked(g), g)
  {
    ForkCopies(s, step);
    CopyPagesEffect(Marked(g), CopiesOf(s, step), KernelFrames(s));
    ForkPage(Marked(g), CopiesOf(s, step), KernelFrames(s), CopyPages(Marked(g), CopiesOf(s, step)), g);
    MarkedPage(g, Origin(CopiesOf(s, step), g));
  }

  lemma NotAlwaysKept(syss: seq<Sys>, acts: seq<Act>, caller: nat, others: set<nat>, p: nat, k: nat)
    requires Course(syss, acts, caller, others) && p in others && k < |acts| && IsFork(acts[k])
    requires forall i :: 0 <= i < |acts| && i != k ==> !IsFork(acts[i])
    requires !Spares(syss[k], acts[k], p)
    ensures !AlwaysKept(syss, acts, caller, others, p)
  {
    var step := acts[k].step;
    var t := syss[k].spaces[p].table;
    var v :| v in t && Origin(CopiesOf(syss[k], step), t[v].pfn) != t[v].pfn;
    var g := t[v].pfn;
    var states := ForkAlone(syss, acts, caller, others, k, Marked(g));
    ServesOk(states, acts, caller, others, k);
    SameSpace(states, acts, caller, others, p, k);
    UserFrames(syss[k], p);
    MarkLost(syss[k], step, g);
    PageDiffers(t, Marked(g), states[|acts|].phys, v);
    assert !Kept(states[0], states[|acts|], p);
  }

  lemma PageDiffers(t: Table, m: Memory, m': Memory, v: nat)
    requires v in t && PageAt(m', t[v].pfn) != PageAt(m, t[v].pfn)
    ensures PagesOf(t, m') != PagesOf(t, m)
  {
    assert PagesOf(t, m')[v] != PagesOf(t, m)[v];
  }

  /** A call with one fork among its acts always leaves a bystander its pages if and only if the fork spares it. */
  lemma CallSparesExactly(syss: seq<Sys>, acts: seq<Act>, caller: nat, others: set<nat>, p: nat, k: nat)
    requires Course(syss, acts, caller, others) && p in others && k < |acts| && IsFork(acts[k])
    requires forall i :: 0 <= i < |acts| && i != k ==> !IsFork(acts[i])
    ensures AlwaysKept(syss, acts, caller, others, p) <==> Spares(syss[k], acts[k], p)
  {
    if Spares(syss[k], acts[k], p) {
      forall states: seq<Mid> | Over(states, syss) && |states[0].phys| == PHYS_MEM_SIZE && Serves(states, acts, caller, others)
        ensures Kept(states[0], states[|acts|], p)
      {
        forall i | 0 <= i < |acts| ensures Spares(states[i].sys, acts[i], p) {}
        ServesKeeps(states, acts, caller, others, p, |acts|);
      }
    } else {
      NotAlwaysKept(syss, acts, caller, others, p, k);
    }
  }
}
