/** In which order the levels of the task queue are served, whatever the threads interleave. */
module WorkerQueues {
  import opened Options
  import opened Workers

  // ---- What an action does to one level ----

  /** The task that comes to the back of level i: pushed by an enqueuer, or brought to level 0 by a boost. */
  ghost function Enters(s: State, t: nat, i: nat): Option<Task>
    requires t < |s.threads|
  {
    match s.threads[t]
    case EnqPush(task) => if task.priority == i then Some(task) else None
    case BoostMove(j, _) =>
      if i == 0 && j < |s.levels| && s.levels[j] != [] then Some(s.levels[j][|s.levels[j]| - 1].(priority := 0)) else None
    case _ => None
  }

  /** The task a dequeuer has in its hands after looking at level i. */
  ghost function Serves(s: State, s': State, t: nat, i: nat): Option<Task>
    requires t < |s.threads| && t < |s'.threads|
  {
    match (s.threads[t], s'.threads[t])
    case (DeqLook(j), DeqPopped(_, task)) => if j == i then Some(task) else None
    case _ => None
  }

  /** A boost takes the last task of level i. */
  ghost predicate Takes(s: State, t: nat, i: nat)
    requires t < |s.threads| && i < |s.levels|
  {
    s.threads[t].BoostMove? && s.threads[t].i == i && s.levels[i] != []
  }

  function OneTask(task: Option<Task>): seq<Task> { if task.Some? then [task.value] else [] }

  /** A level changes at its ends only: one action adds at the back, takes from the front, or boosts from the back. */
  ghost predicate AtItsEnds(s: State, s': State, t: nat, i: nat)
    requires t < |s.threads| && t < |s'.threads| && i < |s.levels|
  {
    && i < |s'.levels|
    && OneTask(Serves(s, s', t, i)) + s'.levels[i]
       == (if Takes(s, t, i) then s.levels[i][..|s.levels[i]| - 1] else s.levels[i]) + OneTask(Enters(s, t, i))
    && (Takes(s, t, i) ==> Serves(s, s', t, i).None? && Enters(s, t, i).None?)
  }

  lemma LevelPush(s: State, t: nat, step: Step, i: nat)
    requires Inv(s) && t < |s.threads| && Exec(s, t, step).Some? && i < LEVELS && s.threads[t].EnqPush?
    ensures t < |Exec(s, t, step).value.threads| && AtItsEnds(s, Exec(s, t, step).value, t, i)
  {}

  lemma LevelLift(s: State, t: nat, step: Step, i: nat)
    requires Inv(s) && t < |s.threads| && Exec(s, t, step).Some? && i < LEVELS && s.threads[t].BoostMove?
    ensures t < |Exec(s, t, step).value.threads| && AtItsEnds(s, Exec(s, t, step).value, t, i)
  {
    LiftIs(s, t, step);
  }

  lemma LevelPop(s: State, t: nat, step: Step, i: nat)
    requires Inv(s) && t < |s.threads| && Exec(s, t, step).Some? && i < LEVELS && s.threads[t].DeqLook?
    ensures t < |Exec(s, t, step).value.threads| && AtItsEnds(s, Exec(s, t, step).value, t, i)
  {
    var level := s.levels[i];
    if level != [] { assert [level[0]] + level[1..] == level; }
  }

  lemma LevelStep(s: State, t: nat, step: Step, i: nat)
    requires Inv(s) && t < |s.threads| && Exec(s, t, step).Some? && i < LEVELS
    ensures t < |Exec(s, t, step).value.threads| && AtItsEnds(s, Exec(s, t, step).value, t, i)
  {
    match s.threads[t]
    case EnqPush(_) => LevelPush(s, t, step, i);
    case BoostMove(_, _) => LevelLift(s, t, step, i);
    case DeqLook(_) => LevelPop(s, t, step, i);
    case _ => CarriedKept(s, t, step);
  }

  // ---- Runs ----

  /** The tasks that came to level i along a run, in order. */
  ghost function Entered(s: State, acts: seq<(nat, Step)>, i: nat): seq<Task>
    requires ExecAll(s, acts).Some?
    decreases |acts|
  {
    if acts == [] then []
    else OneTask(Enters(s, acts[0].0, i)) + Entered(Exec(s, acts[0].0, acts[0].1).value, acts[1..], i)
  }

  /** The tasks that dequeuers took from level i along a run, in order. */
  ghost function Served(s: State, acts: seq<(nat, Step)>, i: nat): seq<Task>
    requires ExecAll(s, acts).Some?
    decreases |acts|
  {
    if acts == [] then []
    else
      var s' := Exec(s, acts[0].0, acts[0].1).value;
      ExecShape(s, acts[0].0, acts[0].1);
      OneTask(Serves(s, s', acts[0].0, i)) + Served(s', acts[1..], i)
  }

  /** `line` and everything that came to level i along a run, less what boosts took back from the end. */
  ghost function Line(line: seq<Task>, s: State, acts: seq<(nat, Step)>, i: nat): seq<Task>
    requires ExecAll(s, acts).Some? && i < LEVELS
    decreases |acts|
  {
    if acts == [] then line
    else
      var kept := if Takes(s, acts[0].0, i) && line != [] then line[..|line| - 1] else line;
      Line(kept + OneTask(Enters(s, acts[0].0, i)), Exec(s, acts[0].0, acts[0].1).value, acts[1..], i)
  }

  /** Whether a boost takes anything from level i along a run. */
  ghost predicate Boosted(s: State, acts: seq<(nat, Step)>, i: nat)
    requires ExecAll(s, acts).Some? && i < LEVELS
    decreases |acts|
  {
    acts != [] && (Takes(s, acts[0].0, i) || Boosted(Exec(s, acts[0].0, acts[0].1).value, acts[1..], i))
  }

  lemma {:induction false} RunLine(done: seq<Task>, s: State, acts: seq<(nat, Step)>, i: nat)
    requires Inv(s) && ExecAll(s, acts).Some? && i < LEVELS
    ensures |ExecAll(s, acts).value.levels| == LEVELS
    ensures Line(done + s.levels[i], s, acts, i) == done + Served(s, acts, i) + ExecAll(s, acts).value.levels[i]
    decreases |acts|
  {
    if acts != [] {
      var s', now := NextState(s, acts), NowServed(s, acts, i);
      LineOn(done, s, acts, i);
      RunLine(done + now, s', acts[1..], i);
      Regrouped(done, now, Served(s', acts[1..], i));
    } else {
      assert done + [] == done;
    }
  }

  lemma Regrouped<T>(a: seq<T>, b: seq<T>, c: seq<T>)
    ensures a + (b + c) == a + b + c
  {}

  /** The state after the first action of a run, and what that action serves from level i. */
  ghost function NextState(s: State, acts: seq<(nat, Step)>): (s': State)
    requires ExecAll(s, acts).Some? && acts != []
    ensures ExecAll(s', acts[1..]) == ExecAll(s, acts)
    ensures Inv(s) ==> Inv(s')
  {
    if Inv(s) then ExecInv(s, acts[0].0, acts[0].1); Exec(s, acts[0].0, acts[0].1).value
    else Exec(s, acts[0].0, acts[0].1).value
  }

  ghost function NowServed(s: State, acts: seq<(nat, Step)>, i: nat): (now: seq<Task>)
    requires ExecAll(s, acts).Some? && acts != []
    ensures now + Served(NextState(s, acts), acts[1..], i) == Served(s, acts, i)
  {
    ExecShape(s, acts[0].0, acts[0].1);
    OneTask(Serves(s, NextState(s, acts), acts[0].0, i))
  }

  /** One action further, the line is the same line, seen from the next state. */
  lemma LineOn(done: seq<Task>, s: State, acts: seq<(nat, Step)>, i: nat)
    requires Inv(s) && ExecAll(s, acts).Some? && i < LEVELS && acts != []
    ensures Line(done + s.levels[i], s, acts, i)
         == Line(done + NowServed(s, acts, i) + NextState(s, acts).levels[i], NextState(s, acts), acts[1..], i)
  {
    LevelStep(s, acts[0].0, acts[0].1, i);
    LineJoins(done, s, NextState(s, acts), acts[0].0, i);
  }

  lemma LineJoins(done: seq<Task>, s: State, s': State, t: nat, i: nat)
    requires t < |s.threads| && t < |s'.threads| && i < |s.levels| && AtItsEnds(s, s', t, i)
    ensures var line := done + s.levels[i];
      (if Takes(s, t, i) && line != [] then line[..|line| - 1] else line) + OneTask(Enters(s, t, i))
      == done + OneTask(Serves(s, s', t, i)) + s'.levels[i]
  {
    LineStep(done, s.levels[i], Takes(s, t, i), Enters(s, t, i), OneTask(Serves(s, s', t, i)), s'.levels[i]);
  }

  lemma LineStep(done: seq<Task>, level: seq<Task>, takes: bool, enters: Option<Task>, now: seq<Task>, level': seq<Task>)
    requires takes ==> level != []
    requires now + level' == (if takes then level[..|level| - 1] else level) + OneTask(enters)
    ensures var line := done + level;
      (if takes && line != [] then line[..|line| - 1] else line) + OneTask(enters) == done + now + level'
  {
    var line := done + level;
    if takes { assert line[..|line| - 1] == done + level[..|level| - 1]; }
    assert done + now + level' == done + (now + level');
  }

  /**
   * First in, first out, in every interleaving: what stood in a level and what came to it, less what boosts took back
   * from its end, is what was served from it, in this order, and what still stands in it.
   */
  lemma RunFifo(s: State, acts: seq<(nat, Step)>, i: nat)
    requires Inv(s) && ExecAll(s, acts).Some? && i < LEVELS
    ensures |ExecAll(s, acts).value.levels| == LEVELS
    ensures Line(s.levels[i], s, acts, i) == Served(s, acts, i) + ExecAll(s, acts).value.levels[i]
    ensures !Boosted(s, acts, i) ==>
      s.levels[i] + Entered(s, acts, i) == Served(s, acts, i) + ExecAll(s, acts).value.levels[i]
    ensures i == 0 ==> !Boosted(s, acts, i)
  {
    FromHere(s, acts, i);
    if !Boosted(s, acts, i) { PlainLine(s.levels[i], s, acts, i); }
    if i == 0 { NeverBoosted(s, acts); }
  }

  lemma FromHere(s: State, acts: seq<(nat, Step)>, i: nat)
    requires Inv(s) && ExecAll(s, acts).Some? && i < LEVELS
    ensures |ExecAll(s, acts).value.levels| == LEVELS
    ensures Line(s.levels[i], s, acts, i) == Served(s, acts, i) + ExecAll(s, acts).value.levels[i]
  {
    RunLine([], s, acts, i);
    assert [] + s.levels[i] == s.levels[i];
    assert [] + Served(s, acts, i) == Served(s, acts, i);
  }

  lemma {:induction false} PlainLine(line: seq<Task>, s: State, acts: seq<(nat, Step)>, i: nat)
    requires ExecAll(s, acts).Some? && i < LEVELS && !Boosted(s, acts, i)
    ensures Line(line, s, acts, i) == line + Entered(s, acts, i)
    decreases |acts|
  {
    if acts != [] {
      PlainLine(line + OneTask(Enters(s, acts[0].0, i)), Exec(s, acts[0].0, acts[0].1).value, acts[1..], i);
    }
  }

  lemma {:induction false} NeverBoosted(s: State, acts: seq<(nat, Step)>)
    requires Inv(s) && ExecAll(s, acts).Some?
    ensures !Boosted(s, acts, 0)
    decreases |acts|
  {
    if acts != [] {
      assert PcOk(s.threads[acts[0].0]);
      ExecInv(s, acts[0].0, acts[0].1);
      NeverBoosted(Exec(s, acts[0].0, acts[0].1).value, acts[1..]);
    }
  }

  /** Of two tasks that come to a level with no boost of it in between and after, the first is served before the second. */
  lemma FirstComesFirst(s: State, acts: seq<(nat, Step)>, i: nat, p: nat, q: nat)
    requires Inv(s) && ExecAll(s, acts).Some? && i < LEVELS && !Boosted(s, acts, i)
    requires p < q < |Entered(s, acts, i)| && |s.levels[i]| + q < |Served(s, acts, i)|
    ensures Served(s, acts, i)[|s.levels[i]| + p] == Entered(s, acts, i)[p]
    ensures Served(s, acts, i)[|s.levels[i]| + q] == Entered(s, acts, i)[q]
  {
    RunFifo(s, acts, i);
    var all, out := s.levels[i] + Entered(s, acts, i), Served(s, acts, i);
    assert forall k :: 0 <= k < |out| ==> out[k] == all[k];
  }

  // ---- A boost ----

  /** How many of the actions are thread t's. */
  function Moves(acts: seq<(nat, Step)>, t: nat): nat {
    if acts == [] then 0 else (if acts[0].0 == t then 1 else 0) + Moves(acts[1..], t)
  }

  /** The last n tasks of `level` stand at the end of `top`, the last one first, with priority 0. */
  ghost predicate Drained(level: seq<Task>, top: seq<Task>, level': seq<Task>, top': seq<Task>, n: nat) {
    && n <= |level| && level' == level[..|level| - n]
    && |top'| == |top| + n && top'[..|top|] == top
    && forall j :: |top| <= j < |top'| ==> top'[j] == level[|level| - 1 - (j - |top|)].(priority := 0)
  }

  /** Nobody else gets at the two levels that a boost has locked. */
  lemma BoostAlone(s: State, t: nat, u: nat, step: Step)
    requires Inv(s) && t < |s.threads| && u < |s.threads| && u != t && Exec(s, u, step).Some? && s.threads[t].BoostMove?
    ensures var s' := Exec(s, u, step).value;
      && |s'.levels| == LEVELS && |s'.threads| == |s.threads| && s'.threads[t] == s.threads[t] && s.threads[t].i < LEVELS
      && s'.levels[0] == s.levels[0] && s'.levels[s.threads[t].i] == s.levels[s.threads[t].i]
  {
    assert PcOk(s.threads[t]) && PcOk(s.threads[u]);
    assert Holds(s.threads[t], Level(0)) && Holds(s.threads[t], Level(s.threads[t].i));
    assert !Holds(s.threads[u], Level(0)) && !Holds(s.threads[u], Level(s.threads[t].i));
  }

  lemma DrainOne(level: seq<Task>, top: seq<Task>, level': seq<Task>, top': seq<Task>, n: nat)
    requires level != []
    requires Drained(level[..|level| - 1], top + [level[|level| - 1].(priority := 0)], level', top', n)
    ensures Drained(level, top, level', top', n + 1)
  {
    assert top'[..|top|] == top'[..|top| + 1][..|top|];
    assert top'[|top|] == top'[..|top| + 1][|top|];
  }

  /**
   * In every interleaving a boost empties a level from the back: after n of its moves the last n tasks of level i stand
   * at the end of level 0 in reverse, and nothing else has come between or gone.
   */
  lemma {:induction false} RunDrains(s: State, acts: seq<(nat, Step)>, t: nat)
    requires Inv(s) && ExecAll(s, acts).Some? && t < |s.threads| && s.threads[t].BoostMove?
    requires s.threads[t].i < LEVELS && Moves(acts, t) <= |s.levels[s.threads[t].i]|
    ensures var s', i := ExecAll(s, acts).value, s.threads[t].i;
      |s'.levels| == LEVELS && Drained(s.levels[i], s.levels[0], s'.levels[i], s'.levels[0], Moves(acts, t))
    decreases |acts|
  {
    if acts != [] {
      var u, s1, i := acts[0].0, NextState(s, acts), s.threads[t].i;
      if u == t {
        LiftIs(s, t, acts[0].1);
        BoostStays(s, t, acts[0].1);
        RunDrains(s1, acts[1..], t);
        var s' := ExecAll(s, acts).value;
        DrainOne(s.levels[i], s.levels[0], s'.levels[i], s'.levels[0], Moves(acts[1..], t));
      } else {
        BoostAlone(s, t, u, acts[0].1);
        RunDrains(s1, acts[1..], t);
      }
    }
  }

  lemma BoostStays(s: State, t: nat, step: Step)
    requires |s.levels| == LEVELS && t < |s.threads| && Exec(s, t, step).Some? && s.threads[t].BoostMove?
    requires s.threads[t].i < LEVELS && s.levels[s.threads[t].i] != []
    ensures var s', i := Exec(s, t, step).value, s.threads[t].i;
      && |s'.threads| == |s.threads| && s'.threads[t] == s.threads[t] && |s'.levels| == LEVELS
      && 0 < i && s'.levels[i] == s.levels[i][..|s.levels[i]| - 1]
      && s'.levels[0] == s.levels[0] + [s.levels[i][|s.levels[i]| - 1].(priority := 0)]
  {}

  // ---- Which level a task goes to ----

  /**
   * The rule of the queue, from what thread t does: a new task comes with its priority, one served from level i counts
   * as i + 1, and checkQuanta leaves the remainder by the number of levels, or 0 when a boost was due, whoever did it.
   */
  ghost function Rule(s: State, t: nat, step: Step, was: Task): Task
    requires t < |s.threads|
  {
    match s.threads[t]
    case Idle => if step.Submit? then step.task else was
    case DeqLook(i) => if i < |s.levels| && s.levels[i] != [] then Task(s.levels[i][0].id, i + 1) else was
    case EnqCheck(_) =>
      if !step.Check? then was else Task(was.id, if step.q == NotDue then was.priority % LEVELS else 0)
    case _ => was
  }

  /** The rule followed along a run. */
  ghost function Ruled(s: State, acts: seq<(nat, Step)>, t: nat, was: Task): Task
    requires ExecAll(s, acts).Some? && t < |s.threads|
    decreases |acts|
  {
    if acts == [] then was
    else
      ExecShape(s, acts[0].0, acts[0].1);
      Ruled(NextState(s, acts), acts[1..], t, if acts[0].0 == t then Rule(s, t, acts[0].1, was) else was)
  }

  /** A thread's place agrees with the rule. */
  ghost predicate Obeys(pc: Pc, rule: Task) {
    match pc
    case EnqCheck(task) => task == rule
    case EnqLock(task) => task == rule
    case EnqPush(task) => task == rule
    case BoostLock(ThenEnqueue(task)) => rule == task.(priority := 0)
    case BoostNext(_, ThenEnqueue(task)) => rule == task.(priority := 0)
    case BoostMove(_, ThenEnqueue(task)) => rule == task.(priority := 0)
    case DeqPopped(_, task) => rule == task.(priority := task.priority + 1)
    case DeqFound(_, task) => rule == task.(priority := task.priority + 1)
    case DeqDone(task) => task == rule
    case _ => true
  }

  lemma ExecObeys(s: State, t: nat, step: Step, rule: Task)
    requires Inv(s) && t < |s.threads| && Exec(s, t, step).Some? && Obeys(s.threads[t], rule)
    ensures t < |Exec(s, t, step).value.threads| && Obeys(Exec(s, t, step).value.threads[t], Rule(s, t, step, rule))
  {}

  /** In every interleaving a task is pushed to the level the rule gives, and it is the task the rule speaks of. */
  lemma {:induction false} RunObeys(s: State, acts: seq<(nat, Step)>, t: nat, was: Task)
    requires Inv(s) && ExecAll(s, acts).Some? && t < |s.threads| && Obeys(s.threads[t], was)
    ensures var s' := ExecAll(s, acts).value; t < |s'.threads| && Obeys(s'.threads[t], Ruled(s, acts, t, was))
    decreases |acts|
  {
    if acts != [] {
      var (u, step) := acts[0];
      ExecShape(s, u, step);
      if u == t { ExecObeys(s, t, step, was); }
      RunObeys(NextState(s, acts), acts[1..], t, if u == t then Rule(s, t, step, was) else was);
    }
  }

  /** From the empty queue: whatever thread t is about to push is the task the rule speaks of, at the level it gives. */
  lemma RunLevels(s: State, acts: seq<(nat, Step)>, t: nat, was: Task)
    requires Initial(s) && ExecAll(s, acts).Some? && t < |s.threads|
    ensures var s' := ExecAll(s, acts).value;
      t < |s'.threads| && (s'.threads[t].EnqPush? ==> s'.threads[t].task == Ruled(s, acts, t, was))
  {
    InitialInv(s);
    RunObeys(s, acts, t, was);
  }

  // ---- A boost that is due ----

  /**
   * How far the boost that thread t claimed has come: None when none is due, otherwise the levels from 1 up to this one
   * have been found empty since, one after the other.
   */
  ghost function Swept(s: State, t: nat, step: Step, was: Option<nat>): Option<nat>
    requires t < |s.threads|
  {
    match s.threads[t]
    case EnqCheck(_) => if step == Check(Ours) then Some(1) else None
    case DeqCheck => if step == Check(Ours) then Some(1) else None
    case BoostMove(i, _) => if was == Some(i) && i < |s.levels| && s.levels[i] == [] then Some(i + 1) else was
    case _ => was
  }

  ghost function SweptAll(s: State, acts: seq<(nat, Step)>, t: nat, was: Option<nat>): Option<nat>
    requires ExecAll(s, acts).Some? && t < |s.threads|
    decreases |acts|
  {
    if acts == [] then was
    else
      ExecShape(s, acts[0].0, acts[0].1);
      SweptAll(NextState(s, acts), acts[1..], t, if acts[0].0 == t then Swept(s, t, acts[0].1, was) else was)
  }

  /** Where a thread can be: in a boost at the level it has come to, elsewhere only with no boost due or all of it done. */
  ghost predicate Sweeps(pc: Pc, swept: Option<nat>) {
    match pc
    case BoostLock(_) => swept == Some(1)
    case BoostNext(i, _) => swept == Some(i)
    case BoostMove(i, _) => swept == Some(i)
    case _ => swept.None? || swept == Some(LEVELS)
  }

  lemma ExecSweeps(s: State, t: nat, step: Step, was: Option<nat>)
    requires Inv(s) && t < |s.threads| && Exec(s, t, step).Some? && Sweeps(s.threads[t], was)
    ensures t < |Exec(s, t, step).value.threads| && Sweeps(Exec(s, t, step).value.threads[t], Swept(s, t, step, was))
  {
    assert PcOk(s.threads[t]);
  }

  lemma {:induction false} RunSweeps(s: State, acts: seq<(nat, Step)>, t: nat, was: Option<nat>)
    requires Inv(s) && ExecAll(s, acts).Some? && t < |s.threads| && Sweeps(s.threads[t], was)
    ensures var s' := ExecAll(s, acts).value; t < |s'.threads| && Sweeps(s'.threads[t], SweptAll(s, acts, t, was))
    decreases |acts|
  {
    if acts != [] {
      var (u, step) := acts[0];
      ExecShape(s, u, step);
      if u == t { ExecSweeps(s, t, step, was); }
      RunSweeps(NextState(s, acts), acts[1..], t, if u == t then Swept(s, t, step, was) else was);
    }
  }

  /**
   * From the empty queue, in every interleaving: a thread that has claimed a boost comes to push its task, or to wait for
   * one, only after it has emptied every level below the top one.
   */
  lemma RunBoosts(s: State, acts: seq<(nat, Step)>, t: nat)
    requires Initial(s) && ExecAll(s, acts).Some? && t < |s.threads|
    ensures var s', swept := ExecAll(s, acts).value, SweptAll(s, acts, t, None);
      t < |s'.threads| && (s'.threads[t].EnqPush? || s'.threads[t] == DeqWait ==> swept.None? || swept == Some(LEVELS))
  {
    InitialInv(s);
    RunSweeps(s, acts, t, None);
  }
}
