/** The server's task queue under threads: five levels with a lock each, an atomic counter, and a boost. */
module Workers {
  import opened Multisets
  import opened Options

  const LEVELS: nat := 5

  datatype Task = Task(id: nat, priority: nat)

  /** emptyMtx, or one of the level locks. */
  datatype Lock = Empty | Level(i: nat)

  /** Where a thread returns after a boost. */
  datatype Then = ThenEnqueue(task: Task) | ThenDequeue

  /** A thread's place in the code; a task it carries is part of its place. */
  datatype Pc =
    | Idle
    | EnqCheck(task: Task)             // enqueue: about to run checkQuanta
    | EnqLock(task: Task)              // waits for the lock of level task.priority
    | EnqPush(task: Task)              // holds it
    | EnqUnlock(level: nat)            // pushed, still holds it
    | EnqCount                         // pushed, about to add to the counter
    | BoostLock(next: Then)            // waits for level 0
    | BoostNext(i: nat, next: Then)    // holds level 0, waits for level i
    | BoostMove(i: nat, next: Then)    // holds levels 0 and i
    | DeqCheck                         // dequeue: about to run checkQuanta
    | DeqLock                          // waits for emptyMtx
    | DeqWait                          // holds it, about to test the counter
    | DeqScan(i: nat)                  // holds it, waits for level i
    | DeqLook(i: nat)                  // holds it and level i
    | DeqPopped(i: nat, task: Task)    // same, task taken, not yet counted
    | DeqFound(i: nat, task: Task)     // same, counted
    | DeqDone(task: Task)              // released everything
    | DeqMissed                        // scanned all levels and found nothing: the source dereferences null

  datatype State = State(levels: seq<seq<Task>>, size: int, threads: seq<Pc>)

  predicate Holds(pc: Pc, l: Lock) {
    match pc
    case EnqPush(t) => l == Level(t.priority)
    case EnqUnlock(i) => l == Level(i)
    case BoostNext(_, _) => l == Level(0)
    case BoostMove(i, _) => l == Level(0) || l == Level(i)
    case DeqWait => l == Empty
    case DeqScan(_) => l == Empty
    case DeqLook(i) => l == Empty || l == Level(i)
    case DeqPopped(i, _) => l == Empty || l == Level(i)
    case DeqFound(i, _) => l == Empty || l == Level(i)
    case _ => false
  }

  /** The lock a thread's next step has to take first. */
  function Wants(pc: Pc): Option<Lock> {
    match pc
    case EnqLock(t) => Some(Level(t.priority))
    case BoostLock(_) => Some(Level(0))
    case BoostNext(i, _) => if i < LEVELS then Some(Level(i)) else None
    case DeqLock => Some(Empty)
    case DeqScan(i) => if i < LEVELS then Some(Level(i)) else None
    case _ => None
  }

  predicate Available(s: State, l: Lock) {
    forall t :: 0 <= t < |s.threads| ==> !Holds(s.threads[t], l)
  }

  predicate Blocked(s: State, t: nat)
    requires t < |s.threads|
  {
    Wants(s.threads[t]).Some? && !Available(s, Wants(s.threads[t]).value)
  }

  /** What checkQuanta decided: not yet due, claimed by somebody else meanwhile, or ours to do. */
  datatype Quanta = NotDue | Lost | Ours

  // ---- Steps ----

  datatype Step =
    | Submit(task: Task)   // a new task is passed to enqueue
    | Again                // a worker re-submits or finishes the task it holds
    | Finish
    | Ask                  // a worker calls dequeue
    | Check(q: Quanta)
    | Go                   // the one next action of every other place

  function After(next: Then): Pc {
    match next
    case ThenEnqueue(t) => EnqLock(t.(priority := 0))
    case ThenDequeue => DeqLock
  }

  function At(s: State, t: nat, pc: Pc): State
    requires t < |s.threads|
  {
    s.(threads := s.threads[t := pc])
  }

  function Push(levels: seq<seq<Task>>, i: nat, task: Task): seq<seq<Task>>
    requires i < |levels|
  {
    levels[i := levels[i] + [task]]
  }

  /** One move of the boost: the last task of level i goes to the end of level 0. */
  function Lift(levels: seq<seq<Task>>, i: nat): seq<seq<Task>>
    requires 0 < i < |levels| && levels[i] != []
  {
    var last := |levels[i]| - 1;
    Push(levels, 0, levels[i][last].(priority := 0))[i := levels[i][..last]]
  }

  /** One atomic action of thread t; None when it is not enabled. */
  function Exec(s: State, t: nat, step: Step): Option<State>
    requires |s.levels| == LEVELS && t < |s.threads|
  {
    if Blocked(s, t) then None
    else match (s.threads[t], step)
      case (Idle, Submit(task)) => Some(At(s, t, EnqCheck(task)))
      case (Idle, Ask) => Some(At(s, t, DeqCheck))
      case (DeqDone(task), Again) => Some(At(s, t, EnqCheck(task)))
      case (DeqDone(task), Finish) => Some(At(s, t, Idle))
      case (EnqCheck(task), Check(q)) =>
        Some(At(s, t,
          if q == Ours then BoostLock(ThenEnqueue(task))
          else EnqLock(task.(priority := if q == Lost then 0 else task.priority % LEVELS))))
      case (DeqCheck, Check(q)) => Some(At(s, t, if q == Ours then BoostLock(ThenDequeue) else DeqLock))
      case (_, Go) => Advance(s, t)
      case _ => None
  }

  function Advance(s: State, t: nat): Option<State>
    requires |s.levels| == LEVELS && t < |s.threads|
  {
    match s.threads[t]
    case EnqLock(task) => Some(At(s, t, EnqPush(task)))
    case EnqPush(task) =>
      if task.priority >= LEVELS then None
      else Some(At(s, t, EnqUnlock(task.priority)).(levels := Push(s.levels, task.priority, task)))
    case EnqUnlock(_) => Some(At(s, t, EnqCount))
    case EnqCount => Some(At(s, t, Idle).(size := s.size + 1))
    case BoostLock(next) => Some(At(s, t, BoostNext(1, next)))
    case BoostNext(i, next) => Some(At(s, t, if i < LEVELS then BoostMove(i, next) else After(next)))
    case BoostMove(i, next) =>
      if i == 0 || i >= LEVELS then None
      else if s.levels[i] == [] then Some(At(s, t, BoostNext(i + 1, next)))
      else Some(s.(levels := Lift(s.levels, i)))
    case DeqLock => Some(At(s, t, DeqWait))
    case DeqWait => Some(if s.size > 0 then At(s, t, DeqScan(0)) else At(s, t, DeqLock))
    case DeqScan(i) => Some(At(s, t, if i < LEVELS then DeqLook(i) else DeqMissed))
    case DeqLook(i) =>
      if i >= LEVELS then None
      else if s.levels[i] == [] then Some(At(s, t, DeqScan(i + 1)))
      else Some(At(s, t, DeqPopped(i, s.levels[i][0])).(levels := s.levels[i := s.levels[i][1..]]))
    case DeqPopped(i, task) => Some(At(s, t, DeqFound(i, task)).(size := s.size - 1))
    case DeqFound(i, task) => Some(At(s, t, DeqDone(task.(priority := task.priority + 1))))
    case _ => None
  }

  ghost predicate Initial(s: State) {
    s.levels == [[], [], [], [], []] && s.size == 0 && forall t :: 0 <= t < |s.threads| ==> s.threads[t] == Idle
  }

  // ---- Counting over threads ----

  /** Pushed but not yet counted is one less in the counter, popped but not yet counted one more. */
  function Uncounted(pc: Pc): int {
    if pc.EnqUnlock? || pc.EnqCount? then 1 else if pc.DeqPopped? then -1 else 0
  }

  function SumUncounted(threads: seq<Pc>): int {
    if threads == [] then 0 else Uncounted(threads[0]) + SumUncounted(threads[1..])
  }

  lemma {:induction false} SumUpdate(threads: seq<Pc>, t: nat, pc: Pc)
    requires t < |threads|
    ensures SumUncounted(threads[t := pc]) == SumUncounted(threads) - Uncounted(threads[t]) + Uncounted(pc)
    decreases |threads|
  {
    if t == 0 {
      assert threads[t := pc][1..] == threads[1..];
    } else {
      assert threads[t := pc][1..] == threads[1..][t - 1 := pc];
      SumUpdate(threads[1..], t - 1, pc);
    }
  }

  function Queued(levels: seq<seq<Task>>): nat {
    if levels == [] then 0 else |levels[0]| + Queued(levels[1..])
  }

  lemma {:induction false} QueuedUpdate(levels: seq<seq<Task>>, i: nat, l: seq<Task>)
    requires i < |levels|
    ensures Queued(levels[i := l]) == Queued(levels) - |levels[i]| + |l|
    decreases |levels|
  {
    if i == 0 {
      assert levels[i := l][1..] == levels[1..];
    } else {
      assert levels[i := l][1..] == levels[1..][i - 1 := l];
      QueuedUpdate(levels[1..], i - 1, l);
    }
  }

  // ---- Where the tasks are ----

  function Ids(l: seq<Task>): multiset<nat> {
    if l == [] then multiset{} else multiset{l[0].id} + Ids(l[1..])
  }

  lemma {:induction false} IdsConcat(a: seq<Task>, b: seq<Task>)
    ensures Ids(a + b) == Ids(a) + Ids(b)
    decreases |a|
  {
    if a == [] {
      assert a + b == b;
    } else {
      assert (a + b)[1..] == a[1..] + b;
      IdsConcat(a[1..], b);
    }
  }

  function LevelIds(levels: seq<seq<Task>>): multiset<nat> {
    if levels == [] then multiset{} else Ids(levels[0]) + LevelIds(levels[1..])
  }

  lemma {:induction false} LevelUpdate(levels: seq<seq<Task>>, i: nat, l: seq<Task>)
    requires i < |levels|
    ensures LevelIds(levels[i := l]) + Ids(levels[i]) == LevelIds(levels) + Ids(l)
    decreases |levels|
  {
    if i == 0 {
      assert levels[i := l][1..] == levels[1..];
    } else {
      var u := levels[i := l];
      assert u[1..] == levels[1..][i - 1 := l] && u[0] == levels[0];
      LevelUpdate(levels[1..], i - 1, l);
      Replaced(Ids(levels[0]), LevelIds(levels[1..]), LevelIds(u[1..]), Ids(levels[i]), Ids(l));
    }
  }

  /** The task a thread has in its hands. */
  function Carried(pc: Pc): Option<Task> {
    match pc
    case EnqCheck(t) => Some(t)
    case EnqLock(t) => Some(t)
    case EnqPush(t) => Some(t)
    case BoostLock(ThenEnqueue(t)) => Some(t)
    case BoostNext(_, ThenEnqueue(t)) => Some(t)
    case BoostMove(_, ThenEnqueue(t)) => Some(t)
    case DeqPopped(_, t) => Some(t)
    case DeqFound(_, t) => Some(t)
    case DeqDone(t) => Some(t)
    case _ => None
  }

  function CarriedId(pc: Pc): Option<nat> {
    if Carried(pc).Some? then Some(Carried(pc).value.id) else None
  }

  function OneId(id: Option<nat>): multiset<nat> { if id.Some? then multiset{id.value} else multiset{} }

  function HandIds(pc: Pc): multiset<nat> { OneId(CarriedId(pc)) }

  function ThreadIds(threads: seq<Pc>): multiset<nat> {
    if threads == [] then multiset{} else HandIds(threads[0]) + ThreadIds(threads[1..])
  }

  lemma {:induction false} ThreadUpdate(threads: seq<Pc>, t: nat, pc: Pc)
    requires t < |threads|
    ensures ThreadIds(threads[t := pc]) + HandIds(threads[t]) == ThreadIds(threads) + HandIds(pc)
    decreases |threads|
  {
    if t == 0 {
      assert threads[t := pc][1..] == threads[1..];
    } else {
      var u := threads[t := pc];
      assert u[1..] == threads[1..][t - 1 := pc] && u[0] == threads[0];
      ThreadUpdate(threads[1..], t - 1, pc);
      Replaced(HandIds(threads[0]), ThreadIds(threads[1..]), ThreadIds(u[1..]), HandIds(threads[t]), HandIds(pc));
    }
  }

  /** Every place a task can be, counted. */
  function AllIds(s: State): multiset<nat> { LevelIds(s.levels) + ThreadIds(s.threads) }

  // ---- Invariants ----

  ghost predicate PcOk(pc: Pc) {
    match pc
    case EnqLock(t) => t.priority < LEVELS
    case EnqPush(t) => t.priority < LEVELS
    case EnqUnlock(i) => i < LEVELS
    case BoostNext(i, _) => 0 < i <= LEVELS
    case BoostMove(i, _) => 0 < i < LEVELS
    case DeqScan(i) => i <= LEVELS
    case DeqLook(i) => i < LEVELS
    case DeqPopped(i, t) => i < LEVELS && t.priority == i
    case DeqFound(i, t) => i < LEVELS && t.priority == i
    case _ => true
  }

  ghost predicate Exclusive(threads: seq<Pc>) {
    forall t, u, l :: 0 <= t < |threads| && 0 <= u < |threads| && Holds(threads[t], l) && Holds(threads[u], l) ==> t == u
  }

  predicate Scanning(pc: Pc) { pc.DeqScan? || pc.DeqLook? || pc.DeqPopped? }

  function ScanFrom(pc: Pc): nat { if pc.DeqScan? || pc.DeqLook? then pc.i else 0 }

  ghost predicate SomeFrom(levels: seq<seq<Task>>, i: nat) {
    exists j :: i <= j < |levels| && levels[j] != []
  }

  ghost predicate Sorted(levels: seq<seq<Task>>) {
    forall i, k :: 0 <= i < |levels| && 0 <= k < |levels[i]| ==> levels[i][k].priority == i
  }

  /** The counter is the queue's length, less pushes not yet counted, plus pops not yet counted; never negative. */
  ghost predicate Counter(s: State) {
    && s.size == Queued(s.levels) - SumUncounted(s.threads) && s.size >= 0
    && forall t :: 0 <= t < |s.threads| && Scanning(s.threads[t]) ==> s.size > 0
  }

  ghost predicate Inv(s: State) {
    && |s.levels| == LEVELS && (forall t :: 0 <= t < |s.threads| ==> PcOk(s.threads[t]))
    && Exclusive(s.threads) && Sorted(s.levels) && Counter(s)
  }

  lemma InitialInv(s: State)
    requires Initial(s)
    ensures Inv(s) && AllIds(s) == multiset{}
  {
    IdleSums(s.threads);
    var l: seq<seq<Task>> := [[], [], [], [], []];
    assert l[1..] == [[], [], [], []] && l[1..][1..] == [[], [], []] && l[1..][1..][1..] == [[], []];
    assert l[1..][1..][1..][1..] == [[]] && l[1..][1..][1..][1..][1..] == [];
  }

  lemma {:induction false} IdleSums(threads: seq<Pc>)
    requires forall t :: 0 <= t < |threads| ==> threads[t] == Idle
    ensures SumUncounted(threads) == 0 && ThreadIds(threads) == multiset{}
    decreases |threads|
  {
    if threads != [] { IdleSums(threads[1..]); }
  }

  lemma ExecShape(s: State, t: nat, step: Step)
    requires |s.levels| == LEVELS && t < |s.threads| && Exec(s, t, step).Some?
    ensures var s' := Exec(s, t, step).value;
      |s'.levels| == LEVELS && |s'.threads| == |s.threads| && s'.threads == s.threads[t := s'.threads[t]]
  {}

  lemma ExecPcs(s: State, t: nat, step: Step)
    requires |s.levels| == LEVELS && t < |s.threads| && Exec(s, t, step).Some?
    requires PcOk(s.threads[t]) && Sorted(s.levels)
    ensures PcOk(Exec(s, t, step).value.threads[t])
  {}

  /** A thread gains a lock only by taking one nobody holds. */
  lemma ExecLocks(s: State, t: nat, step: Step, l: Lock)
    requires |s.levels| == LEVELS && t < |s.threads| && Exec(s, t, step).Some?
    ensures var s' := Exec(s, t, step).value;
      Holds(s'.threads[t], l) ==> Holds(s.threads[t], l) || Available(s, l)
  {}

  lemma ExecExclusive(s: State, t: nat, step: Step)
    requires Inv(s) && t < |s.threads| && Exec(s, t, step).Some?
    ensures Exclusive(Exec(s, t, step).value.threads)
  {
    ExecShape(s, t, step);
    var s' := Exec(s, t, step).value;
    forall u, v, l | 0 <= u < |s'.threads| && 0 <= v < |s'.threads| && Holds(s'.threads[u], l) && Holds(s'.threads[v], l)
      ensures u == v
    {
      ExecLocks(s, t, step, l);
    }
  }

  lemma ExecSorted(s: State, t: nat, step: Step)
    requires Inv(s) && t < |s.threads| && Exec(s, t, step).Some?
    ensures Sorted(Exec(s, t, step).value.levels)
  {
    assert PcOk(s.threads[t]);
  }

  /** Pushes and pops and the counter stay in step, one action at a time. */
  lemma ExecBalance(s: State, t: nat, step: Step)
    requires |s.levels| == LEVELS && t < |s.threads| && PcOk(s.threads[t]) && Exec(s, t, step).Some?
    ensures var s' := Exec(s, t, step).value;
      s'.size - Queued(s'.levels) + SumUncounted(s'.threads) == s.size - Queued(s.levels) + SumUncounted(s.threads)
  {
    var s' := Exec(s, t, step).value;
    ExecShape(s, t, step);
    SumUpdate(s.threads, t, s'.threads[t]);
    match s.threads[t]
    case EnqPush(task) => if step.Go? { QueuedUpdate(s.levels, task.priority, s.levels[task.priority] + [task]); }
    case BoostMove(i, _) =>
      if step.Go? && s.levels[i] != [] {
        var last := |s.levels[i]| - 1;
        var up := Push(s.levels, 0, s.levels[i][last].(priority := 0));
        QueuedUpdate(s.levels, 0, up[0]);
        QueuedUpdate(up, i, s.levels[i][..last]);
      }
    case DeqLook(i) => if step.Go? && s.levels[i] != [] { QueuedUpdate(s.levels, i, s.levels[i][1..]); }
    case _ =>
  }

  lemma SizeSteps(s: State, t: nat, step: Step)
    requires |s.levels| == LEVELS && t < |s.threads| && PcOk(s.threads[t]) && Exec(s, t, step).Some?
    ensures var s' := Exec(s, t, step).value;
      && s'.size >= s.size - 1 && (s'.size < s.size ==> s.threads[t].DeqPopped? && s'.threads[t].DeqFound?)
      && (Scanning(s'.threads[t]) ==> s'.size == s.size && (Scanning(s.threads[t]) || s.size > 0))
  {}

  /** The counter never goes below zero: only a scan lowers it, and it saw a positive counter under its lock. */
  lemma ExecCounter(s: State, t: nat, step: Step)
    requires Inv(s) && t < |s.threads| && Exec(s, t, step).Some?
    ensures Counter(Exec(s, t, step).value)
  {
    ExecBalance(s, t, step);
    ExecShape(s, t, step);
    SizeSteps(s, t, step);
    var s' := Exec(s, t, step).value;
    forall u | 0 <= u < |s'.threads| && Scanning(s'.threads[u]) ensures s'.size > 0 {
      if u != t {
        OneScanner(s, t, u);
      }
    }
  }

  lemma OneScanner(s: State, t: nat, u: nat)
    requires Inv(s) && t < |s.threads| && u < |s.threads| && t != u && Scanning(s.threads[u])
    ensures !s.threads[t].DeqPopped? && s.size > 0
  {
    assert Holds(s.threads[u], Empty);
    assert s.threads[t].DeqPopped? ==> Holds(s.threads[t], Empty);
  }

  lemma {:induction false} SumNonNegative(threads: seq<Pc>)
    requires forall t :: 0 <= t < |threads| ==> !threads[t].DeqPopped?
    ensures SumUncounted(threads) >= 0
    decreases |threads|
  {
    if threads != [] { SumNonNegative(threads[1..]); }
  }

  lemma {:induction false} QueuedSome(levels: seq<seq<Task>>)
    requires Queued(levels) > 0
    ensures SomeFrom(levels, 0)
    decreases |levels|
  {
    if levels[0] == [] {
      QueuedSome(levels[1..]);
      var j :| 0 <= j < |levels[1..]| && levels[1..][j] != [];
      assert levels[j + 1] != [];
    }
  }

  /** A dequeuer that saw a positive counter has a task somewhere in front of it. */
  lemma ScanStarts(s: State, t: nat)
    requires Inv(s) && t < |s.threads| && s.threads[t] == DeqWait && s.size > 0
    ensures SomeFrom(s.levels, 0)
  {
    forall u | 0 <= u < |s.threads| ensures !s.threads[u].DeqPopped? {
      assert s.threads[u].DeqPopped? ==> Holds(s.threads[u], Empty) && Holds(s.threads[t], Empty);
    }
    SumNonNegative(s.threads);
    QueuedSome(s.levels);
  }

  predicate Looking(pc: Pc) { pc.DeqScan? || pc.DeqLook? }

  lemma ExecInv(s: State, t: nat, step: Step)
    requires Inv(s) && t < |s.threads| && Exec(s, t, step).Some?
    ensures Inv(Exec(s, t, step).value)
  {
    var s' := Exec(s, t, step).value;
    assert PcOk(s.threads[t]);
    ExecShape(s, t, step);
    ExecPcs(s, t, step);
    ExecExclusive(s, t, step);
    ExecSorted(s, t, step);
    ExecCounter(s, t, step);
  }

  // ---- Conservation ----

  function Arriving(step: Step): multiset<nat> { if step.Submit? then multiset{step.task.id} else multiset{} }

  function Leaving(s: State, t: nat, step: Step): multiset<nat>
    requires t < |s.threads|
  {
    if step.Finish? then HandIds(s.threads[t]) else multiset{}
  }

  lemma IdsSnoc(l: seq<Task>, task: Task)
    ensures Ids(l + [task]) == Ids(l) + multiset{task.id}
  {
    assert [task][1..] == [];
    IdsConcat(l, [task]);
  }

  lemma IdsSplit(l: seq<Task>)
    requires l != []
    ensures Ids(l) == Ids(l[..|l| - 1]) + multiset{l[|l| - 1].id}
  {
    var most, last := l[..|l| - 1], l[|l| - 1];
    assert l == most + [last];
    IdsSnoc(most, last);
  }

  lemma LiftKeeps(levels: seq<seq<Task>>, i: nat)
    requires 0 < i < |levels| && levels[i] != []
    ensures LevelIds(Lift(levels, i)) == LevelIds(levels)
  {
    var last := |levels[i]| - 1;
    var task := levels[i][last].(priority := 0);
    var up := Push(levels, 0, task);
    LevelUpdate(levels, 0, up[0]);
    IdsSnoc(levels[0], task);
    LevelUpdate(up, i, levels[i][..last]);
    IdsSplit(levels[i]);
    Cancel(LevelIds(levels), LevelIds(up), LevelIds(Lift(levels, i)), Ids(levels[0]), Ids(levels[i][..last]), multiset{task.id});
  }

  lemma Cancel(a: multiset<nat>, b: multiset<nat>, c: multiset<nat>, x: multiset<nat>, y: multiset<nat>, z: multiset<nat>)
    requires b + x == a + (x + z) && c + (y + z) == b + y
    ensures c == a
  {
    assert forall k :: (b + x)[k] == b[k] + x[k] && (a + (x + z))[k] == a[k] + x[k] + z[k];
    assert forall k :: (c + (y + z))[k] == c[k] + y[k] + z[k] && (b + y)[k] == b[k] + y[k];
    assert forall k :: c[k] == a[k];
  }

  /** No action loses or doubles a task: what is in levels and hands changes only by arrivals and departures. */
  lemma ExecConserves(s: State, t: nat, step: Step)
    requires Inv(s) && t < |s.threads| && Exec(s, t, step).Some?
    ensures AllIds(Exec(s, t, step).value) + Leaving(s, t, step) == AllIds(s) + Arriving(step)
  {
    var s' := Exec(s, t, step).value;
    ExecShape(s, t, step);
    assert PcOk(s.threads[t]);
    ThreadUpdate(s.threads, t, s'.threads[t]);
    HandsAndLevels(s, t, step);
    Balance(LevelIds(s.levels), LevelIds(s'.levels), ThreadIds(s.threads), ThreadIds(s'.threads),
            HandIds(s.threads[t]), HandIds(s'.threads[t]), Leaving(s, t, step), Arriving(step));
  }

  lemma Balance(l: multiset<nat>, l': multiset<nat>, h: multiset<nat>, h': multiset<nat>,
                p: multiset<nat>, p': multiset<nat>, out: multiset<nat>, in_: multiset<nat>)
    requires h' + p == h + p' && l' + p' + out == l + p + in_
    ensures l' + h' + out == l + h + in_
  {
    assert forall k :: (h' + p)[k] == h'[k] + p[k] && (h + p')[k] == h[k] + p'[k];
    assert forall k :: (l' + p' + out)[k] == l'[k] + p'[k] + out[k] && (l + p + in_)[k] == l[k] + p[k] + in_[k];
    assert forall k :: (l' + h' + out)[k] == l'[k] + h'[k] + out[k] && (l + h + in_)[k] == l[k] + h[k] + in_[k];
    assert forall k :: (l' + h' + out)[k] == (l + h + in_)[k];
  }

  lemma PushIds(levels: seq<seq<Task>>, i: nat, task: Task)
    requires i < |levels|
    ensures LevelIds(Push(levels, i, task)) == LevelIds(levels) + multiset{task.id}
  {
    LevelUpdate(levels, i, levels[i] + [task]);
    IdsSnoc(levels[i], task);
    Subtract(LevelIds(levels) + multiset{task.id}, LevelIds(Push(levels, i, task)), multiset{}, Ids(levels[i]));
  }

  lemma PopIds(levels: seq<seq<Task>>, i: nat)
    requires i < |levels| && levels[i] != []
    ensures LevelIds(levels[i := levels[i][1..]]) + multiset{levels[i][0].id} == LevelIds(levels)
  {
    LevelUpdate(levels, i, levels[i][1..]);
    IdsSplit(levels[i]);
    Subtract(LevelIds(levels[i := levels[i][1..]]), LevelIds(levels), multiset{levels[i][0].id}, Ids(levels[i][1..]));
  }

  lemma Subtract(a: multiset<nat>, b: multiset<nat>, x: multiset<nat>, y: multiset<nat>)
    requires a + (x + y) == b + y
    ensures a + x == b
  {
    assert forall k :: (a + (x + y))[k] == a[k] + x[k] + y[k] && (b + y)[k] == b[k] + y[k];
    assert forall k :: (a + x)[k] == b[k];
  }

  predicate TouchesLevels(pc: Pc) { pc.EnqPush? || pc.BoostMove? || pc.DeqLook? }

  lemma CarriedKept(s: State, t: nat, step: Step)
    requires |s.levels| == LEVELS && t < |s.threads| && Exec(s, t, step).Some? && !TouchesLevels(s.threads[t])
    ensures var s' := Exec(s, t, step).value;
      && s'.levels == s.levels && t < |s'.threads|
      && (step.Submit? ==> CarriedId(s.threads[t]).None? && CarriedId(s'.threads[t]) == Some(step.task.id))
      && (step.Finish? ==> CarriedId(s'.threads[t]).None?)
      && (!step.Submit? && !step.Finish? ==> CarriedId(s'.threads[t]) == CarriedId(s.threads[t]))
  {}

  lemma HandsOnly(s: State, t: nat, step: Step)
    requires |s.levels| == LEVELS && t < |s.threads| && Exec(s, t, step).Some? && !TouchesLevels(s.threads[t])
    ensures var s' := Exec(s, t, step).value;
      && s'.levels == s.levels && t < |s'.threads|
      && HandIds(s'.threads[t]) + Leaving(s, t, step) == HandIds(s.threads[t]) + Arriving(step)
  {
    CarriedKept(s, t, step);
  }

  lemma PushToo(s: State, t: nat, step: Step)
    requires |s.levels| == LEVELS && t < |s.threads| && Exec(s, t, step).Some? && s.threads[t].EnqPush?
    ensures var s' := Exec(s, t, step).value;
      step.Go? && t < |s'.threads| && LevelIds(s'.levels) + HandIds(s'.threads[t]) == LevelIds(s.levels) + HandIds(s.threads[t])
  {
    var task := s.threads[t].task;
    PushIds(s.levels, task.priority, task);
  }

  lemma LiftIs(s: State, t: nat, step: Step)
    requires |s.levels| == LEVELS && t < |s.threads| && Exec(s, t, step).Some? && s.threads[t].BoostMove?
    ensures var s', i := Exec(s, t, step).value, s.threads[t].i;
      && 0 < i < LEVELS && t < |s'.threads| && CarriedId(s'.threads[t]) == CarriedId(s.threads[t])
      && s'.levels == if s.levels[i] == [] then s.levels else Lift(s.levels, i)
  {}

  lemma PopIs(s: State, t: nat, step: Step)
    requires |s.levels| == LEVELS && t < |s.threads| && Exec(s, t, step).Some? && s.threads[t].DeqLook?
    ensures var s', i := Exec(s, t, step).value, s.threads[t].i;
      && i < LEVELS && t < |s'.threads| && CarriedId(s.threads[t]).None?
      && CarriedId(s'.threads[t]) == (if s.levels[i] == [] then None else Some(s.levels[i][0].id))
      && s'.levels == if s.levels[i] == [] then s.levels else s.levels[i := s.levels[i][1..]]
  {}

  lemma LiftToo(s: State, t: nat, step: Step)
    requires |s.levels| == LEVELS && t < |s.threads| && Exec(s, t, step).Some? && s.threads[t].BoostMove?
    ensures var s' := Exec(s, t, step).value;
      t < |s'.threads| && LevelIds(s'.levels) + HandIds(s'.threads[t]) == LevelIds(s.levels) + HandIds(s.threads[t])
  {
    LiftIs(s, t, step);
    var i := s.threads[t].i;
    if s.levels[i] != [] { LiftKeeps(s.levels, i); }
  }

  lemma PopToo(s: State, t: nat, step: Step)
    requires |s.levels| == LEVELS && t < |s.threads| && Exec(s, t, step).Some? && s.threads[t].DeqLook?
    ensures var s' := Exec(s, t, step).value;
      t < |s'.threads| && LevelIds(s'.levels) + HandIds(s'.threads[t]) == LevelIds(s.levels) + HandIds(s.threads[t])
  {
    PopIs(s, t, step);
    var i := s.threads[t].i;
    if s.levels[i] != [] { PopIds(s.levels, i); }
  }

  /** What the acting thread holds and the levels, taken together. */
  lemma HandsAndLevels(s: State, t: nat, step: Step)
    requires |s.levels| == LEVELS && t < |s.threads| && PcOk(s.threads[t]) && Exec(s, t, step).Some?
    ensures var s' := Exec(s, t, step).value;
      && t < |s'.threads|
      && LevelIds(s'.levels) + HandIds(s'.threads[t]) + Leaving(s, t, step)
         == LevelIds(s.levels) + HandIds(s.threads[t]) + Arriving(step)
  {
    var s' := Exec(s, t, step).value;
    if TouchesLevels(s.threads[t]) {
      if s.threads[t].EnqPush? { PushToo(s, t, step); } else if s.threads[t].DeqLook? { PopToo(s, t, step); } else { LiftToo(s, t, step); }
    } else {
      HandsOnly(s, t, step);
      BesideLevels(LevelIds(s.levels), HandIds(s'.threads[t]), Leaving(s, t, step), HandIds(s.threads[t]), Arriving(step));
    }
  }

  lemma BesideLevels<T>(l: multiset<T>, a: multiset<T>, b: multiset<T>, c: multiset<T>, d: multiset<T>)
    requires a + b == c + d
    ensures l + a + b == l + c + d
  {
    assert l + a + b == l + (a + b) && l + c + d == l + (c + d);
  }

  // ---- Runs ----

  function ExecAll(s: State, acts: seq<(nat, Step)>): Option<State>
    decreases |acts|
  {
    if acts == [] then Some(s)
    else if |s.levels| != LEVELS || acts[0].0 >= |s.threads| then None
    else match Exec(s, acts[0].0, acts[0].1)
      case None => None
      case Some(s') => ExecAll(s', acts[1..])
  }

  function Arrived(acts: seq<(nat, Step)>): multiset<nat> {
    if acts == [] then multiset{} else Arriving(acts[0].1) + Arrived(acts[1..])
  }

  /** Every interleaving keeps the counter law and the lock discipline. */
  lemma {:induction false} RunInv(s: State, acts: seq<(nat, Step)>)
    requires Inv(s) && ExecAll(s, acts).Some?
    ensures Inv(ExecAll(s, acts).value)
    decreases |acts|
  {
    if acts != [] {
      ExecInv(s, acts[0].0, acts[0].1);
      RunInv(Exec(s, acts[0].0, acts[0].1).value, acts[1..]);
    }
  }

  /** The tasks that left the system along a run: finished while a worker held them. */
  ghost function Departed(s: State, acts: seq<(nat, Step)>): multiset<nat>
    requires ExecAll(s, acts).Some?
    decreases |acts|
  {
    if acts == [] then multiset{}
    else Leaving(s, acts[0].0, acts[0].1) + Departed(Exec(s, acts[0].0, acts[0].1).value, acts[1..])
  }

  /** Nothing is lost and nothing doubled in any interleaving: what is there and what left is what was there and what came. */
  lemma {:induction false} RunConserves(s: State, acts: seq<(nat, Step)>)
    requires Inv(s) && ExecAll(s, acts).Some?
    ensures AllIds(ExecAll(s, acts).value) + Departed(s, acts) == AllIds(s) + Arrived(acts)
    decreases |acts|
  {
    if acts != [] {
      var (t, step) := acts[0];
      ExecInv(s, t, step);
      ExecConserves(s, t, step);
      var s' := Exec(s, t, step).value;
      RunConserves(s', acts[1..]);
      InTurn(AllIds(ExecAll(s, acts).value), Departed(s', acts[1..]), AllIds(s'), Arrived(acts[1..]),
             Leaving(s, t, step), AllIds(s), Arriving(step));
    }
  }

  lemma InTurn(end: multiset<nat>, later: multiset<nat>, mid: multiset<nat>, come: multiset<nat>,
               left: multiset<nat>, start: multiset<nat>, came: multiset<nat>)
    requires end + later == mid + come && mid + left == start + came
    ensures end + (left + later) == start + (came + come)
  {
    assert end + (left + later) == (end + later) + left;
    assert (mid + come) + left == (mid + left) + come;
    assert (start + came) + come == start + (came + come);
  }

  lemma {:induction false} CarriedCounts(threads: seq<Pc>, t: nat, id: nat)
    requires t < |threads|
    ensures HandIds(threads[t])[id] <= ThreadIds(threads)[id]
    decreases |threads|
  {
    if t > 0 { CarriedCounts(threads[1..], t - 1, id); }
  }

  lemma TwoCarry(threads: seq<Pc>, t: nat, u: nat, id: nat)
    requires t < |threads| && u < |threads| && t != u
    ensures HandIds(threads[t])[id] + HandIds(threads[u])[id] <= ThreadIds(threads)[id]
  {
    var without := threads[u := Idle];
    ThreadUpdate(threads, u, Idle);
    CarriedCounts(without, t, id);
    assert without[t] == threads[t];
    CountSum(ThreadIds(without), HandIds(threads[u]), ThreadIds(threads), id);
  }

  lemma CountSum(a: multiset<nat>, b: multiset<nat>, c: multiset<nat>, id: nat)
    requires a + b == c + multiset{}
    ensures a[id] + b[id] == c[id]
  {
    assert (a + b)[id] == a[id] + b[id];
    assert (c + multiset{})[id] == c[id];
  }

  lemma {:induction false} QueuedCounts(levels: seq<seq<Task>>, i: nat, k: nat)
    requires i < |levels| && k < |levels[i]|
    ensures levels[i][k].id in LevelIds(levels)
    decreases |levels|
  {
    if i == 0 { IdCounts(levels[0], k); } else { QueuedCounts(levels[1..], i - 1, k); }
  }

  lemma {:induction false} IdCounts(l: seq<Task>, k: nat)
    requires k < |l|
    ensures l[k].id in Ids(l)
    decreases |l|
  {
    if k > 0 { IdCounts(l[1..], k - 1); }
  }

  // ---- One place ----

  function Without(l: seq<Task>, k: nat): seq<Task>
    requires k < |l|
  {
    l[..k] + l[k + 1..]
  }

  lemma IdsWithout(l: seq<Task>, k: nat)
    requires k < |l|
    ensures Ids(l) == Ids(Without(l, k)) + multiset{l[k].id}
  {
    var a, b := l[..k], l[k..];
    assert l == a + b && b[1..] == l[k + 1..];
    IdsConcat(a, b);
    IdsConcat(a, b[1..]);
    Between(Ids(a), multiset{l[k].id}, Ids(b[1..]));
  }

  lemma Between(x: multiset<nat>, y: multiset<nat>, z: multiset<nat>)
    ensures x + (y + z) == (x + z) + y
  {}

  /** Taking one queued task out takes out one occurrence of its id. */
  lemma LevelWithout(levels: seq<seq<Task>>, i: nat, k: nat)
    requires i < |levels| && k < |levels[i]|
    ensures LevelIds(levels) == LevelIds(levels[i := Without(levels[i], k)]) + multiset{levels[i][k].id}
  {
    LevelUpdate(levels, i, Without(levels[i], k));
    IdsWithout(levels[i], k);
    Subtract(LevelIds(levels[i := Without(levels[i], k)]), LevelIds(levels), multiset{levels[i][k].id}, Ids(Without(levels[i], k)));
  }

  lemma TwoQueued(levels: seq<seq<Task>>, i: nat, k: nat, j: nat, l: nat)
    requires i < |levels| && k < |levels[i]| && j < |levels| && l < |levels[j]| && (i, k) != (j, l)
    requires levels[i][k].id == levels[j][l].id
    ensures LevelIds(levels)[levels[i][k].id] >= 2
  {
    var rest := levels[i := Without(levels[i], k)];
    LevelWithout(levels, i, k);
    QueuedCounts(rest, j, if i == j && l > k then l - 1 else l);
  }

  /** A position in a level, or a thread's hands. */
  datatype Place = Queue(level: nat, k: nat) | Hands(t: nat)

  ghost predicate IsAt(s: State, p: Place, id: nat) {
    match p
    case Queue(i, k) => i < |s.levels| && k < |s.levels[i]| && s.levels[i][k].id == id
    case Hands(t) => t < |s.threads| && CarriedId(s.threads[t]) == Some(id)
  }

  lemma {:induction false} FindId(l: seq<Task>, id: nat) returns (k: nat)
    requires id in Ids(l)
    ensures k < |l| && l[k].id == id
    decreases |l|
  {
    if l[0].id == id { k := 0; } else { k := FindId(l[1..], id); k := k + 1; }
  }

  lemma {:induction false} FindQueued(levels: seq<seq<Task>>, id: nat) returns (i: nat, k: nat)
    requires id in LevelIds(levels)
    ensures i < |levels| && k < |levels[i]| && levels[i][k].id == id
    decreases |levels|
  {
    if id in Ids(levels[0]) {
      i := 0;
      k := FindId(levels[0], id);
    } else {
      i, k := FindQueued(levels[1..], id);
      i := i + 1;
    }
  }

  lemma {:induction false} FindCarried(threads: seq<Pc>, id: nat) returns (t: nat)
    requires id in ThreadIds(threads)
    ensures t < |threads| && CarriedId(threads[t]) == Some(id)
    decreases |threads|
  {
    if id in HandIds(threads[0]) { t := 0; } else { t := FindCarried(threads[1..], id); t := t + 1; }
  }

  /** An id is somewhere exactly when it is counted. */
  lemma SomePlace(s: State, id: nat)
    ensures id in AllIds(s) <==> exists p :: IsAt(s, p, id)
  {
    if id in LevelIds(s.levels) {
      var i, k := FindQueued(s.levels, id);
      assert IsAt(s, Queue(i, k), id);
    } else if id in ThreadIds(s.threads) {
      var t := FindCarried(s.threads, id);
      assert IsAt(s, Hands(t), id);
    }
    forall p | IsAt(s, p, id) ensures id in AllIds(s) {
      match p
      case Queue(i, k) => QueuedCounts(s.levels, i, k);
      case Hands(t) => CarriedCounts(s.threads, t, id);
    }
  }

  /** An id that is counted once is not in two places. */
  lemma SamePlace(s: State, id: nat, p: Place, q: Place)
    requires AllIds(s)[id] <= 1 && IsAt(s, p, id) && IsAt(s, q, id)
    ensures p == q
  {
    match (p, q)
    case (Queue(i, k), Queue(j, l)) => if p != q { TwoQueued(s.levels, i, k, j, l); }
    case (Hands(t), Hands(u)) => if t != u { TwoCarry(s.threads, t, u, id); }
    case (Queue(i, k), Hands(t)) =>
      QueuedCounts(s.levels, i, k);
      CarriedCounts(s.threads, t, id);
    case (Hands(t), Queue(i, k)) =>
      QueuedCounts(s.levels, i, k);
      CarriedCounts(s.threads, t, id);
  }

  /**
   * From the empty queue, in every interleaving: a task submitted once is in exactly one level position or one thread's
   * hands until it is finished, and nowhere before and after.
   */
  lemma RunOnePlace(s: State, acts: seq<(nat, Step)>, id: nat)
    requires Initial(s) && ExecAll(s, acts).Some? && Arrived(acts)[id] <= 1
    ensures var s' := ExecAll(s, acts).value;
      && ((exists p :: IsAt(s', p, id)) <==> id in Arrived(acts) && id !in Departed(s, acts))
      && (forall p, q :: IsAt(s', p, id) && IsAt(s', q, id) ==> p == q)
  {
    InitialInv(s);
    RunConserves(s, acts);
    var s' := ExecAll(s, acts).value;
    CountSum(AllIds(s'), Departed(s, acts), Arrived(acts), id);
    SomePlace(s', id);
    forall p, q | IsAt(s', p, id) && IsAt(s', q, id) ensures p == q { SamePlace(s', id, p, q); }
  }

  // ---- What a scan misses ----

  /** A scan of thread u still has a task to come. */
  ghost predicate Ahead(s: State, u: nat)
    requires u < |s.threads|
  {
    SomeFrom(s.levels, ScanFrom(s.threads[u]))
  }

  /** A boost moves the last task that was ahead of u's scan to behind it. */
  ghost predicate TakesLast(s: State, t: nat, u: nat)
    requires |s.levels| == LEVELS && t < |s.threads| && u < |s.threads|
  {
    && t != u && s.threads[t].BoostMove? && 0 < s.threads[t].i < LEVELS && s.levels[s.threads[t].i] != []
    && Ahead(s, u) && !SomeFrom(Lift(s.levels, s.threads[t].i), ScanFrom(s.threads[u]))
  }

  /** A new task goes to a level that u's scan has not passed. */
  predicate AddsAhead(s: State, t: nat, u: nat)
    requires t < |s.threads| && u < |s.threads|
  {
    s.threads[t].EnqPush? && s.threads[t].task.priority >= ScanFrom(s.threads[u])
  }

  /** History of u's scan: a boost took the last task ahead of it, and nothing has been added ahead of it since. */
  ghost predicate Robbed(s: State, acts: seq<(nat, Step)>, u: nat, before: bool)
    decreases |acts|
  {
    if acts == [] || |s.levels| != LEVELS || acts[0].0 >= |s.threads| || u >= |s.threads| then before
    else match Exec(s, acts[0].0, acts[0].1)
      case None => before
      case Some(s') => Robbed(s', acts[1..], u, NowRobbed(s, acts[0].0, u, before))
  }

  ghost predicate NowRobbed(s: State, t: nat, u: nat, before: bool)
    requires |s.levels| == LEVELS && t < |s.threads| && u < |s.threads|
  {
    if t == u then before && s.threads[u] != DeqWait
    else TakesLast(s, t, u) || (before && !AddsAhead(s, t, u))
  }

  lemma OwnScan(s: State, u: nat, step: Step)
    requires Inv(s) && u < |s.threads| && Exec(s, u, step).Some? && Looking(Exec(s, u, step).value.threads[u])
    ensures s.threads[u] == DeqWait || (Looking(s.threads[u]) && (Ahead(Exec(s, u, step).value, u) <==> Ahead(s, u)))
    ensures s.threads[u] == DeqWait ==> Ahead(Exec(s, u, step).value, u)
  {
    var s' := Exec(s, u, step).value;
    assert PcOk(s.threads[u]);
    if s.threads[u] == DeqWait {
      ScanStarts(s, u);
    } else if s.threads[u].DeqLook? {
      var i := s.threads[u].i;
      assert s.levels[i] == [];
      if Ahead(s, u) {
        var j :| i <= j < |s.levels| && s.levels[j] != [];
        assert s'.levels[j] != [];
      }
    }
  }

  lemma LiftAhead(levels: seq<seq<Task>>, i: nat, from: nat)
    requires 0 < i < |levels| && levels[i] != [] && SomeFrom(Lift(levels, i), from)
    ensures SomeFrom(levels, from)
  {
    var j :| from <= j < |levels| && Lift(levels, i)[j] != [];
    assert levels[if j == 0 then i else j] != [];
  }

  lemma PushAhead(levels: seq<seq<Task>>, i: nat, task: Task, from: nat)
    requires i < |levels|
    ensures SomeFrom(Push(levels, i, task), from) <==> SomeFrom(levels, from) || i >= from
  {
    var after := Push(levels, i, task);
    assert after[i] != [];
    if SomeFrom(levels, from) {
      var j :| from <= j < |levels| && levels[j] != [];
      assert after[j] != [];
    }
  }

  /** While u scans, it holds emptyMtx, so only boosts and pushes of others change what is ahead of it. */
  lemma OtherScan(s: State, t: nat, step: Step, u: nat)
    requires Inv(s) && t < |s.threads| && u < |s.threads| && u != t && Exec(s, t, step).Some? && Looking(s.threads[u])
    ensures Ahead(Exec(s, t, step).value, u) <==> (Ahead(s, u) && !TakesLast(s, t, u)) || AddsAhead(s, t, u)
  {
    assert Holds(s.threads[u], Empty) && PcOk(s.threads[t]);
    assert !Holds(s.threads[t], Empty);
    var from := ScanFrom(s.threads[u]);
    match s.threads[t]
    case EnqPush(task) => PushAhead(s.levels, task.priority, task, from);
    case BoostMove(i, _) => if s.levels[i] != [] && SomeFrom(Lift(s.levels, i), from) { LiftAhead(s.levels, i, from); }
    case _ =>
  }

  lemma ScanStep(s: State, t: nat, step: Step, u: nat, before: bool)
    requires Inv(s) && t < |s.threads| && u < |s.threads| && Exec(s, t, step).Some?
    requires Looking(s.threads[u]) ==> (before <==> !Ahead(s, u))
    ensures var s' := Exec(s, t, step).value;
      |s'.threads| == |s.threads| && (Looking(s'.threads[u]) ==> (NowRobbed(s, t, u, before) <==> !Ahead(s', u)))
  {
    ExecShape(s, t, step);
    if t == u {
      if Looking(Exec(s, t, step).value.threads[u]) { OwnScan(s, u, step); }
    } else if Looking(s.threads[u]) {
      OtherScan(s, t, step, u);
    }
  }

  lemma {:induction false} RunScan(s: State, acts: seq<(nat, Step)>, u: nat, before: bool)
    requires Inv(s) && ExecAll(s, acts).Some? && u < |s.threads|
    requires Looking(s.threads[u]) ==> (before <==> !Ahead(s, u))
    ensures var s' := ExecAll(s, acts).value;
      u < |s'.threads| && (Looking(s'.threads[u]) ==> (Robbed(s, acts, u, before) <==> !Ahead(s', u)))
    decreases |acts|
  {
    if acts != [] {
      var s' := Exec(s, acts[0].0, acts[0].1).value;
      ExecInv(s, acts[0].0, acts[0].1);
      ScanStep(s, acts[0].0, acts[0].1, u, before);
      RunScan(s', acts[1..], u, NowRobbed(s, acts[0].0, u, before));
    }
  }

  /**
   * From the empty queue: a scan has no task ahead of it if and only if a boost took the last one and nothing was added
   * ahead of it since. So it comes to the end empty-handed only after that.
   */
  lemma MissedMeansBoost(s: State, acts: seq<(nat, Step)>, u: nat)
    requires Initial(s) && ExecAll(s, acts).Some? && u < |s.threads|
    requires u < |ExecAll(s, acts).value.threads| && Looking(ExecAll(s, acts).value.threads[u])
    ensures !Ahead(ExecAll(s, acts).value, u) <==> Robbed(s, acts, u, false)
    ensures ExecAll(s, acts).value.threads[u] == DeqScan(LEVELS) ==> Robbed(s, acts, u, false)
  {
    InitialInv(s);
    RunInv(s, acts);
    RunScan(s, acts, u, false);
  }

  /** The level a worker indexes its quanta with: within bounds unless the task came from the last level. */
  lemma QuantaIndex(s: State, t: nat, step: Step)
    requires Inv(s) && t < |s.threads| && s.threads[t].DeqFound? && Exec(s, t, step).Some?
    ensures var s' := Exec(s, t, step).value;
      && s'.threads[t].DeqDone?
      && (s'.threads[t].task.priority < LEVELS <==> s.threads[t].i < LEVELS - 1)
  {
    assert PcOk(s.threads[t]);
  }

  // ---- No deadlock ----

  function Rank(l: Lock): nat { if l.Empty? then 0 else l.i + 1 }

  /** Locks are taken in order: emptyMtx, level 0, a higher level. */
  lemma LocksAscend(pc: Pc, held: Lock)
    requires PcOk(pc) && Wants(pc).Some? && Holds(pc, held)
    ensures Rank(held) < Rank(Wants(pc).value)
  {}

  lemma HolderCanGo(s: State, t: nat, l: Lock)
    requires Inv(s) && t < |s.threads| && Holds(s.threads[t], l) && !Blocked(s, t)
    ensures Exec(s, t, Go).Some?
  {
    assert PcOk(s.threads[t]);
  }

  /** Whenever a thread is blocked, some thread that holds a lock can act: the locks never deadlock. */
  lemma {:induction false} NoDeadlock(s: State, t: nat) returns (u: nat)
    requires Inv(s) && t < |s.threads| && Blocked(s, t)
    ensures u < |s.threads| && Exec(s, u, Go).Some?
    decreases LEVELS + 2 - Rank(Wants(s.threads[t]).value)
  {
    var l := Wants(s.threads[t]).value;
    assert PcOk(s.threads[t]);
    u :| 0 <= u < |s.threads| && Holds(s.threads[u], l);
    assert PcOk(s.threads[u]);
    if Blocked(s, u) {
      LocksAscend(s.threads[u], l);
      u := NoDeadlock(s, u);
    } else {
      HolderCanGo(s, u, l);
    }
  }

  // ---- A boost during a scan can hide every task ----

  lemma {:induction false} Extend(s: State, acts: seq<(nat, Step)>, mid: State, t: nat, step: Step)
    requires ExecAll(s, acts) == Some(mid) && |mid.levels| == LEVELS && t < |mid.threads|
    ensures ExecAll(s, acts + [(t, step)]) == Exec(mid, t, step)
    decreases |acts|
  {
    if acts == [] {
      assert ([] + [(t, step)])[1..] == [];
    } else {
      assert (acts + [(t, step)])[1..] == acts[1..] + [(t, step)];
      Extend(Exec(s, acts[0].0, acts[0].1).value, acts[1..], mid, t, step);
    }
  }

  const LONE := Task(7, 1)

  /** Two threads, with level 0 and level 1 given and the others empty. */
  function Two(zero: seq<Task>, one: seq<Task>, size: int, dequeuer: Pc, other: Pc): State {
    State([zero, one, [], [], []], size, [dequeuer, other])
  }

  lemma TwoSet(s: State, dequeuer: Pc, other: Pc)
    requires s.threads == [dequeuer, other]
    ensures forall pc: Pc :: At(s, 0, pc) == s.(threads := [pc, other])
    ensures forall pc: Pc :: At(s, 1, pc) == s.(threads := [dequeuer, pc])
  {
    forall pc: Pc
      ensures At(s, 0, pc) == s.(threads := [pc, other])
    {
      assert [dequeuer, other][0 := pc] == [pc, other];
    }
    forall pc: Pc
      ensures At(s, 1, pc) == s.(threads := [dequeuer, pc])
    {
      assert [dequeuer, other][1 := pc] == [dequeuer, pc];
    }
  }

  /** The dequeuer's next action. */
  lemma Near(s: State, acts: seq<(nat, Step)>, mid: State, step: Step, pc: Pc) returns (longer: seq<(nat, Step)>)
    requires ExecAll(s, acts) == Some(mid) && |mid.levels| == LEVELS && |mid.threads| == 2
    requires Exec(mid, 0, step) == Some(At(mid, 0, pc))
    ensures ExecAll(s, longer) == Some(mid.(threads := [pc, mid.threads[1]]))
  {
    TwoSet(mid, mid.threads[0], mid.threads[1]);
    Extend(s, acts, mid, 0, step);
    longer := acts + [(0, step)];
  }

  /** The other thread's next action. */
  lemma Far(s: State, acts: seq<(nat, Step)>, mid: State, step: Step, pc: Pc) returns (longer: seq<(nat, Step)>)
    requires ExecAll(s, acts) == Some(mid) && |mid.levels| == LEVELS && |mid.threads| == 2
    requires Exec(mid, 1, step) == Some(At(mid, 1, pc))
    ensures ExecAll(s, longer) == Some(mid.(threads := [mid.threads[0], pc]))
  {
    TwoSet(mid, mid.threads[0], mid.threads[1]);
    Extend(s, acts, mid, 1, step);
    longer := acts + [(1, step)];
  }

  lemma PushLone()
    ensures Push([[], [], [], [], []], 1, LONE) == [[], [LONE], [], [], []]
  {
    var empty: seq<Task> := [];
    assert empty + [LONE] == [LONE];
  }

  lemma LiftLone()
    ensures Lift([[], [LONE], [], [], []], 1) == [[Task(7, 0)], [], [], [], []]
  {
    var empty: seq<Task> := [];
    assert empty + [Task(7, 0)] == [Task(7, 0)];
    assert [LONE][..0] == empty;
  }

  /** The other thread's next action, whatever it changes. */
  lemma FarTo(s: State, acts: seq<(nat, Step)>, mid: State, mid': State) returns (longer: seq<(nat, Step)>)
    requires ExecAll(s, acts) == Some(mid) && |mid.levels| == LEVELS && |mid.threads| == 2 && Exec(mid, 1, Go) == Some(mid')
    ensures ExecAll(s, longer) == Some(mid')
  {
    Extend(s, acts, mid, 1, Go);
    longer := acts + [(1, Go)];
  }

  lemma LonePushed()
    ensures Exec(Two([], [], 0, Idle, EnqPush(LONE)), 1, Go) == Some(Two([], [LONE], 0, Idle, EnqUnlock(1)))
  {
    PushLone();
    assert [Idle, EnqPush(LONE)][1 := EnqUnlock(1)] == [Idle, EnqUnlock(1)];
  }

  lemma LoneCounted()
    ensures Exec(Two([], [LONE], 0, Idle, EnqCount), 1, Go) == Some(Two([], [LONE], 1, Idle, Idle))
  {
    assert [Idle, EnqCount][1 := Idle] == [Idle, Idle];
  }

  lemma ReadyRun() returns (acts: seq<(nat, Step)>)
    ensures ExecAll(Two([], [], 0, Idle, Idle), acts) == Some(Two([], [], 0, Idle, EnqPush(LONE)))
  {
    var s := Two([], [], 0, Idle, Idle);
    acts := Far(s, [], s, Submit(LONE), EnqCheck(LONE));
    acts := Far(s, acts, Two([], [], 0, Idle, EnqCheck(LONE)), Check(NotDue), EnqLock(LONE));
    acts := Far(s, acts, Two([], [], 0, Idle, EnqLock(LONE)), Go, EnqPush(LONE));
  }

  /** The other thread enqueues the lone task at level 1. */
  lemma EnqueueRun() returns (acts: seq<(nat, Step)>)
    ensures ExecAll(Two([], [], 0, Idle, Idle), acts) == Some(Two([], [LONE], 1, Idle, Idle))
  {
    var s := Two([], [], 0, Idle, Idle);
    acts := ReadyRun();
    LonePushed();
    acts := FarTo(s, acts, Two([], [], 0, Idle, EnqPush(LONE)), Two([], [LONE], 0, Idle, EnqUnlock(1)));
    acts := Far(s, acts, Two([], [LONE], 0, Idle, EnqUnlock(1)), Go, EnqCount);
    LoneCounted();
    acts := FarTo(s, acts, Two([], [LONE], 0, Idle, EnqCount), Two([], [LONE], 1, Idle, Idle));
  }

  /** The dequeuer finds the wait already over. */
  lemma WaitRun(s: State, before: seq<(nat, Step)>) returns (acts: seq<(nat, Step)>)
    requires ExecAll(s, before) == Some(Two([], [LONE], 1, Idle, Idle))
    ensures ExecAll(s, acts) == Some(Two([], [LONE], 1, DeqWait, Idle))
  {
    acts := Near(s, before, Two([], [LONE], 1, Idle, Idle), Ask, DeqCheck);
    acts := Near(s, acts, Two([], [LONE], 1, DeqCheck, Idle), Check(NotDue), DeqLock);
    acts := Near(s, acts, Two([], [LONE], 1, DeqLock, Idle), Go, DeqWait);
  }

  /** The scan passes over an empty level. */
  lemma EmptyLevel(s: State, before: seq<(nat, Step)>, mid: State, i: nat, other: Pc) returns (acts: seq<(nat, Step)>)
    requires ExecAll(s, before) == Some(mid) && |mid.levels| == LEVELS && i < LEVELS && mid.levels[i] == []
    requires mid.threads == [DeqScan(i), other] && !Holds(other, Level(i))
    ensures ExecAll(s, acts) == Some(mid.(threads := [DeqScan(i + 1), other]))
  {
    acts := Near(s, before, mid, Go, DeqLook(i));
    acts := Near(s, acts, mid.(threads := [DeqLook(i), other]), Go, DeqScan(i + 1));
  }

  lemma LoneSeen()
    ensures Exec(Two([], [LONE], 1, DeqWait, Idle), 0, Go) == Some(At(Two([], [LONE], 1, DeqWait, Idle), 0, DeqScan(0)))
  {}

  /** It sees a positive counter and finds level 0 empty. */
  lemma ScanRun(s: State, before: seq<(nat, Step)>) returns (acts: seq<(nat, Step)>)
    requires ExecAll(s, before) == Some(Two([], [LONE], 1, DeqWait, Idle))
    ensures ExecAll(s, acts) == Some(Two([], [LONE], 1, DeqScan(1), Idle))
  {
    LoneSeen();
    acts := Near(s, before, Two([], [LONE], 1, DeqWait, Idle), Go, DeqScan(0));
    acts := EmptyLevel(s, acts, Two([], [LONE], 1, DeqScan(0), Idle), 0, Idle);
  }

  /** The other thread claims the boost and reaches level 1. */
  lemma ClaimRun(s: State, before: seq<(nat, Step)>) returns (acts: seq<(nat, Step)>)
    requires ExecAll(s, before) == Some(Two([], [LONE], 1, DeqScan(1), Idle))
    ensures ExecAll(s, acts) == Some(Two([], [LONE], 1, DeqScan(1), BoostNext(1, ThenDequeue)))
  {
    acts := Far(s, before, Two([], [LONE], 1, DeqScan(1), Idle), Ask, DeqCheck);
    acts := Far(s, acts, Two([], [LONE], 1, DeqScan(1), DeqCheck), Check(Ours), BoostLock(ThenDequeue));
    acts := Far(s, acts, Two([], [LONE], 1, DeqScan(1), BoostLock(ThenDequeue)), Go, BoostNext(1, ThenDequeue));
  }

  /** The boost moves the task behind the scan. */
  lemma BoostRun(s: State, before: seq<(nat, Step)>) returns (acts: seq<(nat, Step)>)
    requires ExecAll(s, before) == Some(Two([], [LONE], 1, DeqScan(1), BoostNext(1, ThenDequeue)))
    ensures ExecAll(s, acts) == Some(Two([Task(7, 0)], [], 1, DeqScan(1), BoostNext(2, ThenDequeue)))
  {
    acts := Far(s, before, Two([], [LONE], 1, DeqScan(1), BoostNext(1, ThenDequeue)), Go, BoostMove(1, ThenDequeue));
    LiftLone();
    Extend(s, acts, Two([], [LONE], 1, DeqScan(1), BoostMove(1, ThenDequeue)), 1, Go);
    acts := acts + [(1, Go)];
    acts := Far(s, acts, Two([Task(7, 0)], [], 1, DeqScan(1), BoostMove(1, ThenDequeue)), Go, BoostNext(2, ThenDequeue));
  }

  /** The rest of the scan finds the higher levels empty. */
  lemma HigherLevels(s: State, before: seq<(nat, Step)>) returns (acts: seq<(nat, Step)>)
    requires ExecAll(s, before) == Some(Two([Task(7, 0)], [], 1, DeqScan(1), BoostNext(2, ThenDequeue)))
    ensures ExecAll(s, acts) == Some(Two([Task(7, 0)], [], 1, DeqScan(5), BoostNext(2, ThenDequeue)))
  {
    var other := BoostNext(2, ThenDequeue);
    acts := EmptyLevel(s, before, Two([Task(7, 0)], [], 1, DeqScan(1), other), 1, other);
    acts := EmptyLevel(s, acts, Two([Task(7, 0)], [], 1, DeqScan(2), other), 2, other);
    acts := EmptyLevel(s, acts, Two([Task(7, 0)], [], 1, DeqScan(3), other), 3, other);
    acts := EmptyLevel(s, acts, Two([Task(7, 0)], [], 1, DeqScan(4), other), 4, other);
  }

  /** From an idle, empty queue: a run in which a dequeuer saw a task counted and yet finds nothing. */
  lemma ScanCanMiss() returns (acts: seq<(nat, Step)>)
    ensures Initial(Two([], [], 0, Idle, Idle))
    ensures ExecAll(Two([], [], 0, Idle, Idle), acts)
         == Some(Two([Task(7, 0)], [], 1, DeqMissed, BoostNext(2, ThenDequeue)))
  {
    var s := Two([], [], 0, Idle, Idle);
    acts := EnqueueRun();
    acts := WaitRun(s, acts);
    acts := ScanRun(s, acts);
    acts := ClaimRun(s, acts);
    acts := BoostRun(s, acts);
    acts := HigherLevels(s, acts);
    acts := Near(s, acts, Two([Task(7, 0)], [], 1, DeqScan(5), BoostNext(2, ThenDequeue)), Go, DeqMissed);
  }

  // ---- A task that uses up every level ----

  /** One thread, and either nothing queued or one task at level p. */
  function Lone(queued: Option<Task>, p: nat, size: int, pc: Pc): State {
    State(seq(LEVELS, i requires 0 <= i < LEVELS => if i == p && queued.Some? then [queued.value] else []), size, [pc])
  }

  /** The thread's next action, when it only moves the thread on. */
  lemma Next(s: State, acts: seq<(nat, Step)>, mid: State, step: Step, pc: Pc) returns (longer: seq<(nat, Step)>)
    requires ExecAll(s, acts) == Some(mid) && |mid.levels| == LEVELS && |mid.threads| == 1
    requires Exec(mid, 0, step) == Some(At(mid, 0, pc))
    ensures ExecAll(s, longer) == Some(mid.(threads := [pc]))
  {
    Extend(s, acts, mid, 0, step);
    longer := acts + [(0, step)];
    assert mid.threads[0 := pc] == [pc];
  }

  /** The thread's next action, whatever it changes. */
  lemma NextTo(s: State, acts: seq<(nat, Step)>, mid: State, mid': State) returns (longer: seq<(nat, Step)>)
    requires ExecAll(s, acts) == Some(mid) && |mid.levels| == LEVELS && |mid.threads| == 1 && Exec(mid, 0, Go) == Some(mid')
    ensures ExecAll(s, longer) == Some(mid')
  {
    Extend(s, acts, mid, 0, Go);
    longer := acts + [(0, Go)];
  }

  lemma Pushed(task: Task)
    requires task.priority < LEVELS
    ensures Exec(Lone(None, 0, 0, EnqPush(task)), 0, Go) == Some(Lone(Some(task), task.priority, 0, EnqUnlock(task.priority)))
  {
    var s := Lone(None, 0, 0, EnqPush(task));
    assert s.levels[task.priority] + [task] == [task];
    assert Push(s.levels, task.priority, task) == Lone(Some(task), task.priority, 0, Idle).levels;
    assert [EnqPush(task)][0 := EnqUnlock(task.priority)] == [EnqUnlock(task.priority)];
  }

  /** The thread enqueues the task it is about to. */
  lemma Enqueues(s: State, before: seq<(nat, Step)>, task: Task) returns (acts: seq<(nat, Step)>)
    requires ExecAll(s, before) == Some(Lone(None, 0, 0, EnqCheck(task))) && task.priority < LEVELS
    ensures ExecAll(s, acts) == Some(Lone(Some(task), task.priority, 1, Idle))
  {
    acts := Next(s, before, Lone(None, 0, 0, EnqCheck(task)), Check(NotDue), EnqLock(task));
    acts := Next(s, acts, Lone(None, 0, 0, EnqLock(task)), Go, EnqPush(task));
    acts := Counts(s, acts, task);
  }

  lemma Counts(s: State, before: seq<(nat, Step)>, task: Task) returns (acts: seq<(nat, Step)>)
    requires ExecAll(s, before) == Some(Lone(None, 0, 0, EnqPush(task))) && task.priority < LEVELS
    ensures ExecAll(s, acts) == Some(Lone(Some(task), task.priority, 1, Idle))
  {
    var p := task.priority;
    Pushed(task);
    acts := NextTo(s, before, Lone(None, 0, 0, EnqPush(task)), Lone(Some(task), p, 0, EnqUnlock(p)));
    acts := Next(s, acts, Lone(Some(task), p, 0, EnqUnlock(p)), Go, EnqCount);
    assert [EnqCount][0 := Idle] == [Idle];
    acts := NextTo(s, acts, Lone(Some(task), p, 0, EnqCount), Lone(Some(task), p, 1, Idle));
  }

  /** It scans up to the level the task is at. */
  lemma {:induction false} Scans(s: State, before: seq<(nat, Step)>, task: Task, p: nat, i: nat) returns (acts: seq<(nat, Step)>)
    requires ExecAll(s, before) == Some(Lone(Some(task), p, 1, DeqScan(0))) && i <= p < LEVELS
    ensures ExecAll(s, acts) == Some(Lone(Some(task), p, 1, DeqScan(i)))
    decreases i
  {
    if i == 0 {
      acts := before;
    } else {
      acts := Scans(s, before, task, p, i - 1);
      acts := Next(s, acts, Lone(Some(task), p, 1, DeqScan(i - 1)), Go, DeqLook(i - 1));
      acts := Next(s, acts, Lone(Some(task), p, 1, DeqLook(i - 1)), Go, DeqScan(i));
    }
  }

  lemma Popped(task: Task, p: nat)
    requires p < LEVELS
    ensures Exec(Lone(Some(task), p, 1, DeqLook(p)), 0, Go) == Some(Lone(None, 0, 1, DeqPopped(p, task)))
  {
    var s := Lone(Some(task), p, 1, DeqLook(p));
    assert s.levels[p][1..] == [];
    assert s.levels[p := s.levels[p][1..]] == Lone(None, 0, 1, Idle).levels;
    assert [DeqLook(p)][0 := DeqPopped(p, task)] == [DeqPopped(p, task)];
  }

  lemma StartsScan(s: State, before: seq<(nat, Step)>, q: Option<Task>, p: nat) returns (acts: seq<(nat, Step)>)
    requires ExecAll(s, before) == Some(Lone(q, p, 1, Idle)) && p < LEVELS
    ensures ExecAll(s, acts) == Some(Lone(q, p, 1, DeqScan(0)))
  {
    acts := Next(s, before, Lone(q, p, 1, Idle), Ask, DeqCheck);
    acts := Next(s, acts, Lone(q, p, 1, DeqCheck), Check(NotDue), DeqLock);
    acts := Next(s, acts, Lone(q, p, 1, DeqLock), Go, DeqWait);
    acts := Next(s, acts, Lone(q, p, 1, DeqWait), Go, DeqScan(0));
  }

  lemma EndsScan(s: State, before: seq<(nat, Step)>, task: Task, p: nat) returns (acts: seq<(nat, Step)>)
    requires ExecAll(s, before) == Some(Lone(None, 0, 1, DeqPopped(p, task))) && p < LEVELS
    ensures ExecAll(s, acts) == Some(Lone(None, 0, 0, DeqDone(task.(priority := task.priority + 1))))
  {
    assert [DeqPopped(p, task)][0 := DeqFound(p, task)] == [DeqFound(p, task)];
    acts := NextTo(s, before, Lone(None, 0, 1, DeqPopped(p, task)), Lone(None, 0, 0, DeqFound(p, task)));
    acts := Next(s, acts, Lone(None, 0, 0, DeqFound(p, task)), Go, DeqDone(task.(priority := task.priority + 1)));
  }

  /** It takes the task again, one level lower. */
  lemma Dequeues(s: State, before: seq<(nat, Step)>, task: Task, p: nat) returns (acts: seq<(nat, Step)>)
    requires ExecAll(s, before) == Some(Lone(Some(task), p, 1, Idle)) && p < LEVELS
    ensures ExecAll(s, acts) == Some(Lone(None, 0, 0, DeqDone(task.(priority := task.priority + 1))))
  {
    acts := StartsScan(s, before, Some(task), p);
    acts := Scans(s, acts, task, p, p);
    acts := Next(s, acts, Lone(Some(task), p, 1, DeqScan(p)), Go, DeqLook(p));
    Popped(task, p);
    acts := NextTo(s, acts, Lone(Some(task), p, 1, DeqLook(p)), Lone(None, 0, 1, DeqPopped(p, task)));
    acts := EndsScan(s, acts, task, p);
  }

  lemma LoneInitial()
    ensures Initial(Lone(None, 0, 0, Idle))
  {
    assert Lone(None, 0, 0, Idle).levels == [[], [], [], [], []];
  }

  /** With no boost in between, a task that is taken up for the n-th time comes with priority n. */
  lemma {:induction false} TakenUp(n: nat) returns (acts: seq<(nat, Step)>)
    requires 0 < n <= LEVELS
    ensures ExecAll(Lone(None, 0, 0, Idle), acts) == Some(Lone(None, 0, 0, DeqDone(Task(7, n))))
    decreases n
  {
    var s, task := Lone(None, 0, 0, Idle), Task(7, n - 1);
    if n == 1 {
      acts := Next(s, [], s, Submit(task), EnqCheck(task));
    } else {
      acts := TakenUp(n - 1);
      acts := Next(s, acts, Lone(None, 0, 0, DeqDone(task)), Again, EnqCheck(task));
    }
    acts := Enqueues(s, acts, task);
    acts := Dequeues(s, acts, task, n - 1);
  }

  /** From the empty queue: a run after which a worker indexes its five quanta with five. */
  lemma QuantaRun() returns (acts: seq<(nat, Step)>)
    ensures Initial(Lone(None, 0, 0, Idle))
    ensures ExecAll(Lone(None, 0, 0, Idle), acts) == Some(Lone(None, 0, 0, DeqDone(Task(7, LEVELS))))
  {
    LoneInitial();
    acts := TakenUp(LEVELS);
  }
}
