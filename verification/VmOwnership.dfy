/** How a virtual machine passes between a connection, the thread handling its commands and the tasks that step it. */
module VmOwnership {
  import opened Options

  /** A connection's destructor: starts when the last shared pointer drops, takes the machine out, deletes it. */
  datatype Phase = Open | Closing | Emptied(held: Option<nat>) | Gone

  /**
   * `listed` is the server's own shared pointer, `strong` the count of all of them; machine c is made with connection c.
   * `strays` is history: how often a pointer was dropped that nobody gave up.
   */
  datatype Conn = Conn(listed: bool, strong: int, strays: nat, phase: Phase, vm: Option<nat>, running: Option<nat>)

  datatype Pc =
    | Unqueued                                  // made, not yet given to the queue
    | Ready                                     // queued, or between two runs
    | RunLocked                                 // run has locked the connection
    | Stepping(on: nat)                         // and loaded the machine, which it steps
    | RunDone(again: bool)                      // about to drop the lock and return
    | DtorLock                                  // destructor: about to lock the connection
    | DtorExchange(locked: bool)                // about to take the machine out
    | DtorHand(locked: bool, m: Option<nat>)    // about to give it back or delete it
    | DtorRelease                               // about to drop the lock
    | Dead

  datatype Task = Task(conn: nat, vm: Option<nat>, pc: Pc)

  /** The thread that serves all sockets. */
  datatype Handler =
    | Idle
    | Locked(c: nat)
    | Took(c: nat, m: Option<nat>)
    | Made(c: nat, t: nat)
    | HasTask(t: nat)

  datatype State = State(conns: seq<Conn>, handler: Handler, tasks: seq<Task>, deleted: multiset<nat>)

  datatype Step =
    | Connect
    | Command(c: nat)        // a command that needs the machine
    | Notify(c: nat)         // one that does not
    | Kill(c: nat)           // the server gives up its pointer
    | Stray(c: nat, d: nat)  // kill again: the list node of c is gone, what is dropped is a pointer to d
    | Handle                 // the handler's next action
    | Act(t: nat, go: bool)  // a task's next action; `go` is what run decides
    | Close(c: nat)          // the destructor's next action

  // ---- Steps ----

  function SetConn(s: State, c: nat, k: Conn): State
    requires c < |s.conns|
  {
    s.(conns := s.conns[c := k])
  }

  function SetTask(s: State, t: nat, u: Task): State
    requires t < |s.tasks|
  {
    s.(tasks := s.tasks[t := u])
  }

  function Acquired(k: Conn): Conn { k.(strong := k.strong + 1) }

  /** Dropping the last shared pointer starts the destructor. */
  function Released(k: Conn): Conn {
    k.(strong := k.strong - 1, phase := if k.strong == 1 then Closing else k.phase)
  }

  function Exec(s: State, step: Step): Option<State> {
    match step
    case Connect =>
      if s.handler != Idle then None
      else Some(s.(conns := s.conns + [Conn(true, 1, 0, Open, Some(|s.conns|), None)]))
    case Command(c) =>
      if s.handler != Idle || c >= |s.conns| then None
      else if s.conns[c].strong == 0 then Some(s)
      else Some(SetConn(s, c, Acquired(s.conns[c])).(handler := Locked(c)))
    case Notify(c) =>
      if s.handler != Idle || c >= |s.conns| then None
      else Some(s.(tasks := s.tasks + [Task(c, None, Unqueued)], handler := HasTask(|s.tasks|)))
    case Kill(c) =>
      if s.handler != Idle || c >= |s.conns| || !s.conns[c].listed then None
      else Some(SetConn(s, c, Released(s.conns[c].(listed := false))))
    case Stray(c, d) =>
      if s.handler != Idle || c >= |s.conns| || d >= |s.conns| || s.conns[c].listed || !s.conns[d].phase.Open? then None
      else Some(SetConn(s, d, Released(s.conns[d].(strays := s.conns[d].strays + 1))))
    case Handle => HandleNext(s)
    case Act(t, go) => if t >= |s.tasks| || s.tasks[t].conn >= |s.conns| then None else TaskNext(s, t, go)
    case Close(c) => if c >= |s.conns| then None else CloseNext(s, c)
  }

  function HandleNext(s: State): Option<State> {
    match s.handler
    case Idle => None
    case Locked(c) =>
      if c >= |s.conns| then None
      else Some(SetConn(s, c, s.conns[c].(vm := None)).(handler := Took(c, s.conns[c].vm)))
    case Took(c, m) =>
      if c >= |s.conns| then None
      else if m.None? then Some(SetConn(s, c, Released(s.conns[c])).(handler := Idle))
      else Some(SetConn(s, c, s.conns[c].(running := Some(|s.tasks|)))
                .(tasks := s.tasks + [Task(c, m, Unqueued)], handler := Made(c, |s.tasks|)))
    case Made(c, t) =>
      if c >= |s.conns| then None
      else Some(SetConn(s, c, Released(s.conns[c])).(handler := HasTask(t)))
    case HasTask(t) =>
      if t >= |s.tasks| then None
      else Some(SetTask(s, t, s.tasks[t].(pc := Ready)).(handler := Idle))
  }

  /** A task together with its connection, after the task's next action; the machine it deletes, if it does. */
  datatype Local = Local(task: Task, conn: Conn, deletes: Option<nat>)

  function TaskLocal(u: Task, k: Conn, go: bool): Option<Local> {
    match u.pc
    case Unqueued => None
    case Dead => None
    case Ready =>
      Some(if go && k.strong != 0 then Local(u.(pc := RunLocked), Acquired(k), None) else Local(u.(pc := DtorLock), k, None))
    case RunLocked => Some(Local(u.(pc := if u.vm.Some? then Stepping(u.vm.value) else RunDone(false)), k, None))
    case Stepping(_) => Some(Local(u.(pc := RunDone(go)), k, None))
    case RunDone(again) => Some(Local(u.(pc := if again then Ready else DtorLock), Released(k), None))
    case DtorLock =>
      Some(if k.strong != 0 then Local(u.(pc := DtorExchange(true)), Acquired(k), None)
           else Local(u.(pc := DtorExchange(false)), k, None))
    case DtorExchange(locked) => Some(Local(u.(vm := None, pc := DtorHand(locked, u.vm)), k, None))
    case DtorHand(locked, m) =>
      Some(if locked then Local(u.(pc := DtorRelease), if m.Some? then k.(vm := m) else k, None)
           else Local(u.(pc := Dead), k, m))
    case DtorRelease => Some(Local(u.(pc := Dead), Released(k), None))
  }

  function Bag(m: Option<nat>): multiset<nat> { if m.Some? then multiset{m.value} else multiset{} }

  function TaskNext(s: State, t: nat, go: bool): Option<State>
    requires t < |s.tasks| && s.tasks[t].conn < |s.conns|
  {
    var c := s.tasks[t].conn;
    match TaskLocal(s.tasks[t], s.conns[c], go)
    case None => None
    case Some(l) => Some(SetTask(SetConn(s, c, l.conn), t, l.task).(deleted := s.deleted + Bag(l.deletes)))
  }

  function CloseNext(s: State, c: nat): Option<State>
    requires c < |s.conns|
  {
    var k := s.conns[c];
    match k.phase
    case Closing => Some(SetConn(s, c, k.(vm := None, phase := Emptied(k.vm))))
    case Emptied(m) => Some(SetConn(s, c, k.(phase := Gone)).(deleted := s.deleted + Bag(m)))
    case _ => None
  }

  // ---- Counting ----

  function One(b: bool): int { if b then 1 else 0 }

  function Total(ns: seq<int>): int { if ns == [] then 0 else ns[0] + Total(ns[1..]) }

  lemma {:induction false} TotalUpdate(ns: seq<int>, i: nat, n: int)
    requires i < |ns|
    ensures Total(ns[i := n]) == Total(ns) - ns[i] + n
    decreases |ns|
  {
    if i == 0 {
      assert ns[i := n][1..] == ns[1..];
    } else {
      assert ns[i := n][1..] == ns[1..][i - 1 := n];
      TotalUpdate(ns[1..], i - 1, n);
    }
  }

  lemma {:induction false} TotalAppend(ns: seq<int>, n: int)
    ensures Total(ns + [n]) == Total(ns) + n
    decreases |ns|
  {
    if ns == [] {
      assert ([] + [n])[1..] == [];
    } else {
      assert (ns + [n])[1..] == ns[1..] + [n];
      TotalAppend(ns[1..], n);
    }
  }

  /** Non-negative numbers: no one and no two of them exceed the total. */
  lemma {:induction false} TotalBounds(ns: seq<int>)
    requires forall i :: 0 <= i < |ns| ==> ns[i] >= 0
    ensures Total(ns) >= 0 && forall i :: 0 <= i < |ns| ==> ns[i] <= Total(ns)
    decreases |ns|
  {
    if ns != [] {
      TotalBounds(ns[1..]);
      forall i | 0 <= i < |ns| ensures ns[i] <= Total(ns) {
        assert i > 0 ==> ns[i] == ns[1..][i - 1];
      }
    }
  }

  lemma TotalTwo(ns: seq<int>, i: nat, j: nat)
    requires forall k :: 0 <= k < |ns| ==> ns[k] >= 0
    requires i < |ns| && j < |ns| && i != j
    ensures ns[i] + ns[j] <= Total(ns)
  {
    var without := ns[i := 0];
    TotalUpdate(ns, i, 0);
    TotalBounds(without);
    assert without[j] == ns[j];
  }

  /** How many of a task's places hold machine m: its pointer, and its destructor's local. */
  function TaskHolds(u: Task, m: nat): int { One(u.vm == Some(m)) + One(u.pc.DtorHand? && u.pc.m == Some(m)) }

  function ConnHolds(k: Conn, m: nat): int { One(k.vm == Some(m)) + One(k.phase.Emptied? && k.phase.held == Some(m)) }

  function HandlerHolds(h: Handler, m: nat): int { One(h.Took? && h.m == Some(m)) }

  function TaskLocks(u: Task, c: nat): int {
    One(u.conn == c && match u.pc
      case RunLocked => true
      case Stepping(_) => true
      case RunDone(_) => true
      case DtorExchange(locked) => locked
      case DtorHand(locked, _) => locked
      case DtorRelease => true
      case _ => false)
  }

  function HandlerLocks(h: Handler, c: nat): int {
    One(match h
      case Locked(d) => c == d
      case Took(d, _) => c == d
      case Made(d, _) => c == d
      case _ => false)
  }

  function InTasks(tasks: seq<Task>, m: nat): seq<int> { seq(|tasks|, i requires 0 <= i < |tasks| => TaskHolds(tasks[i], m)) }

  function InConns(conns: seq<Conn>, m: nat): seq<int> { seq(|conns|, i requires 0 <= i < |conns| => ConnHolds(conns[i], m)) }

  function Lockers(tasks: seq<Task>, c: nat): seq<int> { seq(|tasks|, i requires 0 <= i < |tasks| => TaskLocks(tasks[i], c)) }

  /** Every place that holds machine m, and every time it was deleted. */
  function Places(s: State, m: nat): int {
    Total(InConns(s.conns, m)) + HandlerHolds(s.handler, m) + Total(InTasks(s.tasks, m)) + s.deleted[m]
  }

  /** Shared pointers to connection c other than the server's own. */
  function Guests(s: State, c: nat): int { HandlerLocks(s.handler, c) + Total(Lockers(s.tasks, c)) }

  lemma TasksUpdate(tasks: seq<Task>, t: nat, u: Task, n: nat)
    requires t < |tasks|
    ensures Total(InTasks(tasks[t := u], n)) == Total(InTasks(tasks, n)) - TaskHolds(tasks[t], n) + TaskHolds(u, n)
    ensures Total(Lockers(tasks[t := u], n)) == Total(Lockers(tasks, n)) - TaskLocks(tasks[t], n) + TaskLocks(u, n)
  {
    assert InTasks(tasks[t := u], n) == InTasks(tasks, n)[t := TaskHolds(u, n)];
    TotalUpdate(InTasks(tasks, n), t, TaskHolds(u, n));
    assert Lockers(tasks[t := u], n) == Lockers(tasks, n)[t := TaskLocks(u, n)];
    TotalUpdate(Lockers(tasks, n), t, TaskLocks(u, n));
  }

  lemma TasksAppend(tasks: seq<Task>, u: Task, n: nat)
    ensures Total(InTasks(tasks + [u], n)) == Total(InTasks(tasks, n)) + TaskHolds(u, n)
    ensures Total(Lockers(tasks + [u], n)) == Total(Lockers(tasks, n)) + TaskLocks(u, n)
  {
    assert InTasks(tasks + [u], n) == InTasks(tasks, n) + [TaskHolds(u, n)];
    TotalAppend(InTasks(tasks, n), TaskHolds(u, n));
    assert Lockers(tasks + [u], n) == Lockers(tasks, n) + [TaskLocks(u, n)];
    TotalAppend(Lockers(tasks, n), TaskLocks(u, n));
  }

  lemma ConnsUpdate(conns: seq<Conn>, c: nat, k: Conn, m: nat)
    requires c < |conns|
    ensures Total(InConns(conns[c := k], m)) == Total(InConns(conns, m)) - ConnHolds(conns[c], m) + ConnHolds(k, m)
  {
    assert InConns(conns[c := k], m) == InConns(conns, m)[c := ConnHolds(k, m)];
    TotalUpdate(InConns(conns, m), c, ConnHolds(k, m));
  }

  lemma ConnsAppend(conns: seq<Conn>, k: Conn, m: nat)
    ensures Total(InConns(conns + [k], m)) == Total(InConns(conns, m)) + ConnHolds(k, m)
  {
    assert InConns(conns + [k], m) == InConns(conns, m) + [ConnHolds(k, m)];
    TotalAppend(InConns(conns, m), ConnHolds(k, m));
  }

  // ---- Conservation ----

  /** A task in its destructor after the exchange, or dead, has no pointer left; its connection's lock keeps the slot free. */
  ghost predicate TaskOk(u: Task) {
    && (u.pc.Stepping? ==> u.vm == Some(u.pc.on))
    && (u.pc.DtorHand? || u.pc.DtorRelease? || u.pc.Dead? ==> u.vm.None?)
    && (u.vm.Some? ==> u.vm.value == u.conn)
    && (u.pc.DtorHand? && u.pc.m.Some? ==> u.pc.m.value == u.conn)
  }

  ghost predicate ConnOk(k: Conn, c: nat) {
    && (k.phase.Open? <==> k.strong > 0)
    && (k.vm.Some? ==> k.vm.value == c)
    && (k.phase.Emptied? && k.phase.held.Some? ==> k.phase.held.value == c)
    && (k.strays == 0 && (k.phase.Emptied? || k.phase.Gone?) ==> k.vm.None?)
  }

  ghost predicate HandlerOk(s: State) {
    match s.handler
    case Idle => true
    case Locked(c) => c < |s.conns|
    case Took(c, m) => c < |s.conns| && (m.Some? ==> m.value == c)
    case Made(c, t) => c < |s.conns| && t < |s.tasks| && s.tasks[t].pc == Unqueued
    case HasTask(t) => t < |s.tasks| && s.tasks[t].pc == Unqueued
  }

  /** One task's standing: its connection exists, a destructor that found it gone was right, and it is the running task if it holds. */
  ghost predicate Standing(s: State, t: nat)
    requires t < |s.tasks|
  {
    var u := s.tasks[t];
    && TaskOk(u) && u.conn < |s.conns|
    && (Unlocked(u) ==> !s.conns[u.conn].phase.Open?)
    && (Carries(u) ==> s.conns[u.conn].running == Some(t))
  }

  /** One connection's standing: shared pointers counted, less the strays, its machine in exactly one place, deleted only after it closed. */
  ghost predicate Kept(s: State, c: nat)
    requires c < |s.conns|
  {
    && ConnOk(s.conns[c], c)
    && s.conns[c].strong == One(s.conns[c].listed) + Guests(s, c) - s.conns[c].strays
    && (s.deleted[c] > 0 ==> !s.conns[c].phase.Open?)
  }

  ghost predicate Inv(s: State) {
    && HandlerOk(s)
    && (forall t :: 0 <= t < |s.tasks| ==> Standing(s, t))
    && (forall c :: 0 <= c < |s.conns| ==> Kept(s, c))
    && (forall m: nat :: Places(s, m) == One(m < |s.conns|))
  }

  // ---- One action ----

  lemma HoldsNonNegative(s: State, m: nat)
    ensures Total(InConns(s.conns, m)) >= 0 && Total(InTasks(s.tasks, m)) >= 0 && HandlerHolds(s.handler, m) >= 0
    ensures forall c :: 0 <= c < |s.conns| ==> ConnHolds(s.conns[c], m) <= Total(InConns(s.conns, m))
    ensures forall t :: 0 <= t < |s.tasks| ==> TaskHolds(s.tasks[t], m) <= Total(InTasks(s.tasks, m))
  {
    var conns, tasks := InConns(s.conns, m), InTasks(s.tasks, m);
    TotalBounds(conns);
    TotalBounds(tasks);
    forall c | 0 <= c < |s.conns| ensures ConnHolds(s.conns[c], m) <= Total(conns) { assert conns[c] <= Total(conns); }
    forall t | 0 <= t < |s.tasks| ensures TaskHolds(s.tasks[t], m) <= Total(tasks) { assert tasks[t] <= Total(tasks); }
  }

  /** A destructor that gives the machine back overwrites no other pointer. */
  lemma SlotFree(s: State, t: nat)
    requires Inv(s) && t < |s.tasks| && s.tasks[t].pc.DtorHand? && s.tasks[t].pc.m.Some?
    ensures s.tasks[t].conn < |s.conns| && s.conns[s.tasks[t].conn].vm.None?
  {
    assert Standing(s, t);
    var c := s.tasks[t].conn;
    assert Kept(s, c) && Places(s, c) == 1;
    HoldsNonNegative(s, c);
    assert TaskHolds(s.tasks[t], c) >= 1;
  }

  lemma HandMoves(u: Task, k: Conn, go: bool, n: nat)
    requires u.pc.DtorHand? && u.vm.None? && (u.pc.m.Some? ==> k.vm.None?)
    ensures TaskLocal(u, k, go).Some?
    ensures var l := TaskLocal(u, k, go).value;
      TaskHolds(l.task, n) + ConnHolds(l.conn, n) + Bag(l.deletes)[n] == TaskHolds(u, n) + ConnHolds(k, n)
  {}

  lemma StayMoves(u: Task, k: Conn, go: bool, n: nat)
    requires TaskLocal(u, k, go).Some? && !u.pc.DtorHand? && (k.strong > 0 ==> k.phase.Open?)
    ensures var l := TaskLocal(u, k, go).value;
      TaskHolds(l.task, n) == TaskHolds(u, n) && ConnHolds(l.conn, n) == ConnHolds(k, n) && l.deletes.None?
  {}

  lemma LocalFrame(u: Task, k: Conn, go: bool)
    requires TaskLocal(u, k, go).Some?
    ensures var l := TaskLocal(u, k, go).value;
      l.task.conn == u.conn && l.conn.listed == k.listed && l.conn.running == k.running
  {}

  /** A task's own action moves its pointer without losing or doubling it. */
  lemma LocalMoves(u: Task, k: Conn, go: bool, n: nat)
    requires TaskLocal(u, k, go).Some?
    requires u.pc.DtorHand? && u.pc.m.Some? ==> k.vm.None?
    requires (u.pc.DtorHand? ==> u.vm.None?) && (k.strong > 0 ==> k.phase.Open?)
    ensures var l := TaskLocal(u, k, go).value;
      && TaskHolds(l.task, n) + ConnHolds(l.conn, n) + Bag(l.deletes)[n] == TaskHolds(u, n) + ConnHolds(k, n)
      && l.task.conn == u.conn && l.conn.listed == k.listed && l.conn.running == k.running
  {
    LocalFrame(u, k, go);
    if u.pc.DtorHand? { HandMoves(u, k, go, n); } else { StayMoves(u, k, go, n); }
  }

  lemma LocalLocks(u: Task, k: Conn, go: bool, c: nat)
    requires TaskLocal(u, k, go).Some?
    ensures var l := TaskLocal(u, k, go).value;
      && TaskLocks(l.task, c) - TaskLocks(u, c) == (if u.conn == c then l.conn.strong - k.strong else 0)
      && l.conn.listed == k.listed && l.conn.strays == k.strays
  {}

  lemma ActPlaces(s: State, t: nat, go: bool, m: nat)
    requires Inv(s) && Exec(s, Act(t, go)).Some?
    ensures Places(Exec(s, Act(t, go)).value, m) == Places(s, m)
  {
    var u, c := s.tasks[t], s.tasks[t].conn;
    assert Standing(s, t) && Kept(s, c);
    if u.pc.DtorHand? && u.pc.m.Some? { SlotFree(s, t); }
    LocalMoves(u, s.conns[c], go, m);
    var l := TaskLocal(u, s.conns[c], go).value;
    TasksUpdate(s.tasks, t, l.task, m);
    ConnsUpdate(s.conns, c, l.conn, m);
    assert (s.deleted + Bag(l.deletes))[m] == s.deleted[m] + Bag(l.deletes)[m];
  }

  lemma ClosePlaces(s: State, c: nat, m: nat)
    requires Inv(s) && Exec(s, Close(c)).Some?
    ensures Places(Exec(s, Close(c)).value, m) == Places(s, m)
  {
    assert Kept(s, c);
    var s' := Exec(s, Close(c)).value;
    ConnsUpdate(s.conns, c, s'.conns[c], m);
  }

  lemma TookPlaces(s: State, m: nat)
    requires Inv(s) && s.handler.Took? && Exec(s, Handle).Some?
    ensures Places(Exec(s, Handle).value, m) == Places(s, m)
  {
    var c, held := s.handler.c, s.handler.m;
    assert Kept(s, c);
    if held.None? {
      ConnsUpdate(s.conns, c, Released(s.conns[c]), m);
    } else {
      ConnsUpdate(s.conns, c, s.conns[c].(running := Some(|s.tasks|)), m);
      TasksAppend(s.tasks, Task(c, held, Unqueued), m);
    }
  }

  lemma HandlePlaces(s: State, m: nat)
    requires Inv(s) && Exec(s, Handle).Some?
    ensures Places(Exec(s, Handle).value, m) == Places(s, m)
  {
    match s.handler
    case Idle =>
    case Locked(c) => ConnsUpdate(s.conns, c, s.conns[c].(vm := None), m);
    case Took(c, held) => TookPlaces(s, m);
    case Made(c, _) => assert Kept(s, c); ConnsUpdate(s.conns, c, Released(s.conns[c]), m);
    case HasTask(t) => TasksUpdate(s.tasks, t, s.tasks[t].(pc := Ready), m);
  }

  /** Every action, by whichever thread, keeps every machine in exactly as many places as before. */
  lemma ExecPlaces(s: State, step: Step, m: nat)
    requires Inv(s) && Exec(s, step).Some?
    ensures Places(Exec(s, step).value, m) == Places(s, m) + One(step.Connect? && m == |s.conns|)
  {
    var s' := Exec(s, step).value;
    match step
    case Connect => ConnsAppend(s.conns, Conn(true, 1, 0, Open, Some(|s.conns|), None), m);
    case Command(c) => ConnsUpdate(s.conns, c, s'.conns[c], m);
    case Notify(c) => TasksAppend(s.tasks, Task(c, None, Unqueued), m);
    case Kill(c) => assert Kept(s, c); ConnsUpdate(s.conns, c, s'.conns[c], m);
    case Stray(c, d) => assert Kept(s, d); ConnsUpdate(s.conns, d, s'.conns[d], m);
    case Handle => HandlePlaces(s, m);
    case Act(t, go) => ActPlaces(s, t, go, m);
    case Close(c) => ClosePlaces(s, c, m);
  }

  /** Shared pointers not accounted for; the invariant says none. */
  function Slack(s: State, c: nat): int
    requires c < |s.conns|
  {
    s.conns[c].strong + s.conns[c].strays - One(s.conns[c].listed) - Guests(s, c)
  }

  lemma ActGuests(s: State, t: nat, go: bool, c: nat)
    requires Inv(s) && c < |s.conns| && Exec(s, Act(t, go)).Some?
    ensures Slack(Exec(s, Act(t, go)).value, c) == Slack(s, c)
  {
    var u := s.tasks[t];
    assert Standing(s, t);
    LocalLocks(u, s.conns[u.conn], go, c);
    var l := TaskLocal(u, s.conns[u.conn], go).value;
    TasksUpdate(s.tasks, t, l.task, c);
  }

  lemma HandleGuests(s: State, c: nat)
    requires Inv(s) && c < |s.conns| && Exec(s, Handle).Some?
    ensures c < |Exec(s, Handle).value.conns| && Slack(Exec(s, Handle).value, c) == Slack(s, c)
  {
    match s.handler
    case Took(d, held) => TasksAppend(s.tasks, Task(d, held, Unqueued), c);
    case HasTask(t) => TasksUpdate(s.tasks, t, s.tasks[t].(pc := Ready), c);
    case _ =>
  }

  /** Every action creates and drops shared pointers in step with the count, strays set aside. */
  lemma ExecGuests(s: State, step: Step, c: nat)
    requires Inv(s) && c < |s.conns| && Exec(s, step).Some?
    ensures c < |Exec(s, step).value.conns|
    ensures Slack(Exec(s, step).value, c) == Slack(s, c)
  {
    match step
    case Notify(d) => TasksAppend(s.tasks, Task(d, None, Unqueued), c);
    case Handle => HandleGuests(s, c);
    case Act(t, go) => ActGuests(s, t, go, c);
    case _ =>
  }

  lemma LocksNonNegative(s: State, c: nat)
    ensures Guests(s, c) >= HandlerLocks(s.handler, c) >= 0
    ensures forall t :: 0 <= t < |s.tasks| ==> TaskLocks(s.tasks[t], c) <= Guests(s, c)
  {
    var locks := Lockers(s.tasks, c);
    TotalBounds(locks);
    forall t | 0 <= t < |s.tasks| ensures TaskLocks(s.tasks[t], c) <= Guests(s, c) { assert locks[t] <= Total(locks); }
  }

  // ---- The invariant ----

  lemma LocalConnOk(u: Task, k: Conn, go: bool)
    requires ConnOk(k, u.conn) && TaskOk(u) && (k.strays == 0 ==> TaskLocks(u, u.conn) <= k.strong) && TaskLocal(u, k, go).Some?
    ensures var l := TaskLocal(u, k, go).value;
      ConnOk(l.conn, u.conn) && (l.conn.phase.Open? ==> k.phase.Open?) && TaskOk(l.task)
  {}

  lemma ActConnOk(s: State, t: nat, go: bool, c: nat)
    requires Inv(s) && Exec(s, Act(t, go)).Some? && c < |s.conns|
    ensures var s' := Exec(s, Act(t, go)).value;
      && c < |s'.conns| && ConnOk(s'.conns[c], c) && (s'.conns[c].phase.Open? ==> s.conns[c].phase.Open?)
  {
    assert Kept(s, c) && Standing(s, t);
    LocksNonNegative(s, c);
    if s.tasks[t].conn == c { LocalConnOk(s.tasks[t], s.conns[c], go); }
  }

  lemma HandleConnOk(s: State, c: nat)
    requires Inv(s) && Exec(s, Handle).Some? && c < |s.conns|
    ensures var s' := Exec(s, Handle).value;
      && c < |s'.conns| && ConnOk(s'.conns[c], c) && (s'.conns[c].phase.Open? ==> s.conns[c].phase.Open?)
  {
    assert Kept(s, c);
    LocksNonNegative(s, c);
  }

  lemma ExecConnOk(s: State, step: Step, c: nat)
    requires Inv(s) && Exec(s, step).Some? && c < |s.conns|
    ensures var s' := Exec(s, step).value;
      && c < |s'.conns| && ConnOk(s'.conns[c], c) && (s'.conns[c].phase.Open? ==> s.conns[c].phase.Open?)
  {
    match step
    case Act(t, go) => ActConnOk(s, t, go, c);
    case Handle => HandleConnOk(s, c);
    case _ => assert Kept(s, c);
  }

  /** Nothing is deleted while its connection is open. */
  lemma ExecDeletes(s: State, step: Step, c: nat)
    requires Inv(s) && Exec(s, step).Some? && c < |s.conns|
    ensures Exec(s, step).value.deleted[c] > s.deleted[c] ==> !s.conns[c].phase.Open?
  {
    assert Kept(s, c);
    if step.Act? { assert Standing(s, step.t); }
    if step.Close? && step.c < |s.conns| { assert Kept(s, step.c); }
  }

  lemma ExecKept(s: State, step: Step, c: nat)
    requires Inv(s) && Exec(s, step).Some? && c < |s.conns|
    ensures c < |Exec(s, step).value.conns| && Kept(Exec(s, step).value, c)
  {
    assert Kept(s, c);
    ExecConnOk(s, step, c);
    ExecGuests(s, step, c);
    ExecDeletes(s, step, c);
  }

  /** Nobody points at a connection that does not exist yet. */
  lemma NoGuestsYet(s: State, c: nat)
    requires Inv(s) && c >= |s.conns| && s.handler == Idle
    ensures Guests(s, c) == 0
  {
    var locks := Lockers(s.tasks, c);
    forall t | 0 <= t < |s.tasks| ensures locks[t] == 0 { assert Standing(s, t); }
    AllZero(locks);
  }

  lemma {:induction false} AllZero(ns: seq<int>)
    requires forall i :: 0 <= i < |ns| ==> ns[i] == 0
    ensures Total(ns) == 0
    decreases |ns|
  {
    if ns != [] { AllZero(ns[1..]); }
  }

  lemma ConnectKept(s: State)
    requires Inv(s) && s.handler == Idle
    ensures Kept(Exec(s, Connect).value, |s.conns|)
  {
    NoGuestsYet(s, |s.conns|);
    HoldsNonNegative(s, |s.conns|);
    assert Places(s, |s.conns|) == 0;
  }

  predicate Unlocked(u: Task) { u.pc == DtorExchange(false) || (u.pc.DtorHand? && !u.pc.locked) }

  predicate Carries(u: Task) { u.vm.Some? || (u.pc.DtorHand? && u.pc.m.Some?) }

  lemma LocalStanding(u: Task, k: Conn, go: bool)
    requires (k.phase.Open? <==> k.strong > 0) && (Unlocked(u) ==> !k.phase.Open?) && TaskLocal(u, k, go).Some?
    ensures var l := TaskLocal(u, k, go).value;
      && (Unlocked(l.task) ==> !l.conn.phase.Open?) && (Carries(l.task) ==> Carries(u)) && l.conn.running == k.running
      && l.task.conn == u.conn
  {}

  lemma ActStanding(s: State, t: nat, go: bool)
    requires Inv(s) && Exec(s, Act(t, go)).Some?
    ensures Standing(Exec(s, Act(t, go)).value, t)
  {
    var u := s.tasks[t];
    var k := s.conns[u.conn];
    assert Standing(s, t) && Kept(s, u.conn);
    LocksNonNegative(s, u.conn);
    LocalConnOk(u, k, go);
    LocalStanding(u, k, go);
  }

  /** The machine of the connection whose command is handled is not with a task. */
  lemma TookAlone(s: State, t: nat)
    requires Inv(s) && t < |s.tasks| && s.handler.Took? && s.handler.m.Some? && s.tasks[t].conn == s.handler.c
    ensures s.tasks[t].vm.None? && (s.tasks[t].pc.DtorHand? ==> s.tasks[t].pc.m.None?)
  {
    var c := s.handler.c;
    assert Places(s, c) == 1 && Standing(s, t);
    HoldsNonNegative(s, c);
    assert TaskHolds(s.tasks[t], c) <= 0;
  }

  lemma RunningKept(s: State, step: Step, c: nat)
    requires Inv(s) && Exec(s, step).Some? && c < |s.conns|
    ensures c < |Exec(s, step).value.conns|
    ensures Exec(s, step).value.conns[c].running == s.conns[c].running
         || (step == Handle && s.handler.Took? && s.handler.m.Some? && s.handler.c == c)
  {
    if step.Act? { LocalRunning(s.tasks[step.t], s.conns[s.tasks[step.t].conn], step.go); }
  }

  lemma LocalRunning(u: Task, k: Conn, go: bool)
    requires TaskLocal(u, k, go).Some?
    ensures TaskLocal(u, k, go).value.conn.running == k.running
  {}

  lemma TasksKept(s: State, step: Step, t: nat)
    requires Inv(s) && Exec(s, step).Some? && t < |s.tasks| && !(step.Act? && step.t == t)
    ensures t < |Exec(s, step).value.tasks|
    ensures var u, u' := s.tasks[t], Exec(s, step).value.tasks[t];
      u' == u || (u.pc == Unqueued && u' == u.(pc := Ready))
  {}

  lemma ExecStanding(s: State, step: Step, t: nat)
    requires Inv(s) && Exec(s, step).Some? && t < |s.tasks|
    ensures t < |Exec(s, step).value.tasks| && Standing(Exec(s, step).value, t)
  {
    var c := s.tasks[t].conn;
    assert Standing(s, t);
    ExecConnOk(s, step, c);
    if step.Act? && step.t == t {
      ActStanding(s, t, step.go);
    } else {
      TasksKept(s, step, t);
      RunningKept(s, step, c);
      if step == Handle && s.handler.Took? && s.handler.m.Some? && s.handler.c == c { TookAlone(s, t); }
    }
  }

  lemma NewStanding(s: State, step: Step)
    requires Inv(s) && Exec(s, step).Some?
    ensures var s' := Exec(s, step).value;
      |s'.tasks| <= |s.tasks| + 1 && (|s'.tasks| > |s.tasks| ==> Standing(s', |s.tasks|))
  {}

  lemma ExecHandler(s: State, step: Step)
    requires Inv(s) && Exec(s, step).Some?
    ensures HandlerOk(Exec(s, step).value)
  {
    match s.handler
    case Locked(c) => assert Kept(s, c);
    case _ =>
  }

  lemma ExecInv(s: State, step: Step)
    requires Inv(s) && Exec(s, step).Some?
    ensures Inv(Exec(s, step).value)
  {
    var s' := Exec(s, step).value;
    ExecHandler(s, step);
    NewStanding(s, step);
    forall t | 0 <= t < |s'.tasks| ensures Standing(s', t) {
      if t < |s.tasks| { ExecStanding(s, step, t); }
    }
    forall c | 0 <= c < |s'.conns| ensures Kept(s', c) {
      if c < |s.conns| { ExecKept(s, step, c); } else { ConnectKept(s); }
    }
    forall m: nat ensures Places(s', m) == One(m < |s'.conns|) {
      ExecPlaces(s, step, m);
    }
  }

  // ---- Runs ----

  function ExecAll(s: State, steps: seq<Step>): Option<State>
    decreases |steps|
  {
    if steps == [] then Some(s)
    else match Exec(s, steps[0])
      case None => None
      case Some(s') => ExecAll(s', steps[1..])
  }

  const START := State([], Idle, [], multiset{})

  lemma {:induction false} RunInv(s: State, steps: seq<Step>)
    requires Inv(s) && ExecAll(s, steps).Some?
    ensures Inv(ExecAll(s, steps).value)
    decreases |steps|
  {
    if steps != [] {
      ExecInv(s, steps[0]);
      RunInv(Exec(s, steps[0]).value, steps[1..]);
    }
  }

  lemma StartInv()
    ensures Inv(START)
  {
    forall m: nat ensures Places(START, m) == 0 {
      assert InConns([], m) == [] && InTasks([], m) == [];
    }
  }

  /** A machine is nowhere else: one holder excludes every other, and deletion excludes all. */
  ghost predicate HeldOnce(s: State, m: nat) {
    && s.deleted[m] <= 1
    && (forall t, u :: 0 <= t < |s.tasks| && 0 <= u < |s.tasks| && TaskHolds(s.tasks[t], m) > 0 && TaskHolds(s.tasks[u], m) > 0 ==>
      t == u)
    && (forall t, c :: 0 <= t < |s.tasks| && 0 <= c < |s.conns| && TaskHolds(s.tasks[t], m) > 0 ==> ConnHolds(s.conns[c], m) == 0)
    && (s.deleted[m] > 0 ==> NoHolder(s, m))
  }

  ghost predicate NoHolder(s: State, m: nat) {
    && HandlerHolds(s.handler, m) == 0
    && (forall t :: 0 <= t < |s.tasks| ==> TaskHolds(s.tasks[t], m) == 0)
    && (forall c :: 0 <= c < |s.conns| ==> ConnHolds(s.conns[c], m) == 0)
  }

  lemma TasksApart(s: State, m: nat, t: nat, u: nat)
    requires Inv(s) && t < |s.tasks| && u < |s.tasks| && t != u
    ensures TaskHolds(s.tasks[t], m) + TaskHolds(s.tasks[u], m) <= 1
  {
    HoldsNonNegative(s, m);
    assert Places(s, m) <= 1;
    TotalTwo(InTasks(s.tasks, m), t, u);
  }

  /** In every interleaving, strays or not, a machine is held by exactly one of connection, handler, task or destructor, or deleted once. */
  lemma RunHeldOnce(steps: seq<Step>, m: nat)
    requires ExecAll(START, steps).Some?
    ensures var s := ExecAll(START, steps).value;
      HeldOnce(s, m) && Places(s, m) == One(m < |s.conns|)
  {
    StartInv();
    RunInv(START, steps);
    var s := ExecAll(START, steps).value;
    assert Places(s, m) <= 1;
    HoldsNonNegative(s, m);
    forall t, u | 0 <= t < |s.tasks| && 0 <= u < |s.tasks| && TaskHolds(s.tasks[t], m) > 0 && TaskHolds(s.tasks[u], m) > 0
      ensures t == u
    {
      if t != u { TasksApart(s, m, t, u); }
    }
  }

  /** In every interleaving, strays or not, at most one worker steps a machine, and it is not deleted meanwhile. */
  lemma RunOneStepper(steps: seq<Step>, t: nat, u: nat)
    requires ExecAll(START, steps).Some?
    requires var s := ExecAll(START, steps).value; t < |s.tasks| && u < |s.tasks| && s.tasks[t].pc.Stepping? && s.tasks[u].pc.Stepping?
    ensures var s := ExecAll(START, steps).value;
      && (s.tasks[t].pc.on == s.tasks[u].pc.on ==> t == u)
      && s.tasks[t].pc.on == s.tasks[t].conn < |s.conns| && s.deleted[s.tasks[t].pc.on] == 0
  {
    StartInv();
    RunInv(START, steps);
    var s := ExecAll(START, steps).value;
    var m := s.tasks[t].pc.on;
    assert Standing(s, t) && Standing(s, u);
    RunHeldOnce(steps, m);
  }

  // ---- Strays ----

  /** How many pointers to c a run drops that nobody gave up: events for a connection after its kill. */
  function StraysIn(steps: seq<Step>, c: nat): nat {
    if steps == [] then 0 else StraysIn(steps[1..], c) + if steps[0].Stray? && steps[0].d == c then 1 else 0
  }

  function StraysOf(s: State, c: nat): nat { if c < |s.conns| then s.conns[c].strays else 0 }

  lemma ExecStrays(s: State, step: Step, c: nat)
    requires Exec(s, step).Some?
    ensures StraysOf(Exec(s, step).value, c) == StraysOf(s, c) + if step.Stray? && step.d == c then 1 else 0
  {
    if step.Act? { LocalLocks(s.tasks[step.t], s.conns[s.tasks[step.t].conn], step.go, c); }
  }

  lemma {:induction false} RunStrays(s: State, steps: seq<Step>, c: nat)
    requires ExecAll(s, steps).Some?
    ensures StraysOf(ExecAll(s, steps).value, c) == StraysOf(s, c) + StraysIn(steps, c)
    decreases |steps|
  {
    if steps != [] {
      ExecStrays(s, steps[0], c);
      RunStrays(Exec(s, steps[0]).value, steps[1..], c);
    }
  }

  /**
   * The count is that of the shared pointers there are if and only if the run had no stray for the connection; and the
   * connection is open exactly while it has more pointers than it had strays.
   */
  lemma RunCounted(steps: seq<Step>, c: nat)
    requires ExecAll(START, steps).Some? && c < |ExecAll(START, steps).value.conns|
    ensures var s := ExecAll(START, steps).value;
      && (s.conns[c].strong == One(s.conns[c].listed) + Guests(s, c) <==> StraysIn(steps, c) == 0)
      && (s.conns[c].phase.Open? <==> One(s.conns[c].listed) + Guests(s, c) > StraysIn(steps, c))
  {
    StartInv();
    RunInv(START, steps);
    RunStrays(START, steps, c);
    assert Kept(ExecAll(START, steps).value, c);
  }

  /**
   * A worker that has locked a connection, to step its machine or to give it back, finds it open as long as the strays are
   * fewer than the pointers, its own among them: always without strays, and exactly so far with them.
   */
  lemma RunKeepsOpen(steps: seq<Step>, t: nat)
    requires ExecAll(START, steps).Some? && t < |ExecAll(START, steps).value.tasks|
    requires var s := ExecAll(START, steps).value; TaskLocks(s.tasks[t], s.tasks[t].conn) > 0
    ensures var s := ExecAll(START, steps).value;
      var c := s.tasks[t].conn;
      && c < |s.conns| && Guests(s, c) >= 1
      && (s.conns[c].phase.Open? <==> StraysIn(steps, c) < One(s.conns[c].listed) + Guests(s, c))
  {
    StartInv();
    RunInv(START, steps);
    var s := ExecAll(START, steps).value;
    assert Standing(s, t);
    RunCounted(steps, s.tasks[t].conn);
    LocksNonNegative(s, s.tasks[t].conn);
  }

  /** The handler and every task are done with connection c. */
  ghost predicate Abandoned(s: State, c: nat) {
    && (s.handler.Took? ==> s.handler.c != c)
    && forall t :: 0 <= t < |s.tasks| && s.tasks[t].conn == c ==> s.tasks[t].pc.Dead?
  }

  /** The connection's destructor has looked for the machine. */
  predicate Looked(k: Conn) { k.phase.Emptied? || k.phase.Gone? }

  /** A task's destructor gives machine c back to its connection after the connection's own had looked. */
  ghost predicate LateReturn(s: State, step: Step, c: nat) {
    && step.Act? && step.t < |s.tasks| && s.tasks[step.t].conn == c < |s.conns|
    && s.tasks[step.t].pc.DtorHand? && s.tasks[step.t].pc.locked && s.tasks[step.t].pc.m.Some?
    && Looked(s.conns[c])
  }

  /** The handler, which had locked the connection before, takes the machine out. */
  predicate TakesOut(s: State, step: Step, c: nat) { step.Handle? && s.handler == Locked(c) }

  /** History of a run: the last such return that nothing took out again, or what was left behind before the run. */
  ghost predicate LeftBehind(s: State, steps: seq<Step>, c: nat, before: bool)
    decreases |steps|
  {
    if steps == [] then before
    else match Exec(s, steps[0])
      case None => before
      case Some(s') => LeftBehind(s', steps[1..], c, LateReturn(s, steps[0], c) || (before && !TakesOut(s, steps[0], c)))
  }

  ghost predicate Stranded(s: State, c: nat) {
    c < |s.conns| && Looked(s.conns[c]) && s.conns[c].vm.Some?
  }

  lemma LocalStranded(u: Task, k: Conn, go: bool)
    requires TaskLocal(u, k, go).Some? && (k.phase.Open? <==> k.strong > 0)
    ensures var k' := TaskLocal(u, k, go).value.conn;
      && (Looked(k') <==> Looked(k))
      && (k'.vm.Some? <==> k.vm.Some? || (u.pc.DtorHand? && u.pc.locked && u.pc.m.Some?))
  {}

  lemma ActStranded(s: State, t: nat, go: bool, c: nat)
    requires Inv(s) && Exec(s, Act(t, go)).Some?
    ensures Stranded(Exec(s, Act(t, go)).value, c) <==> LateReturn(s, Act(t, go), c) || Stranded(s, c)
  {
    var d := s.tasks[t].conn;
    assert Kept(s, d);
    LocalStranded(s.tasks[t], s.conns[d], go);
  }

  lemma OtherStranded(s: State, step: Step, c: nat)
    requires Inv(s) && Exec(s, step).Some? && !step.Act?
    ensures Stranded(Exec(s, step).value, c) <==> Stranded(s, c) && !TakesOut(s, step, c)
  {
    if c < |s.conns| { assert Kept(s, c); }
  }

  lemma ExecStranded(s: State, step: Step, c: nat)
    requires Inv(s) && Exec(s, step).Some?
    ensures Stranded(Exec(s, step).value, c) <==> LateReturn(s, step, c) || (Stranded(s, c) && !TakesOut(s, step, c))
  {
    if step.Act? { ActStranded(s, step.t, step.go, c); } else { OtherStranded(s, step, c); }
  }

  lemma {:induction false} RunStranded(s: State, steps: seq<Step>, c: nat)
    requires Inv(s) && ExecAll(s, steps).Some?
    ensures Stranded(ExecAll(s, steps).value, c) <==> LeftBehind(s, steps, c, Stranded(s, c))
    decreases |steps|
  {
    if steps != [] {
      ExecInv(s, steps[0]);
      ExecStranded(s, steps[0], c);
      RunStranded(Exec(s, steps[0]).value, steps[1..], c);
    }
  }

  /**
   * Its machine is then back with the connection while that is open. When the connection is gone too, the machine has been
   * deleted, once, if and only if none of the tasks left it there after the connection's destructor had looked; that
   * takes a stray.
   */
  lemma RunReturned(steps: seq<Step>, c: nat)
    requires ExecAll(START, steps).Some?
    requires var s := ExecAll(START, steps).value; c < |s.conns| && Abandoned(s, c)
    ensures var s := ExecAll(START, steps).value;
      && (s.conns[c].phase.Open? ==> s.conns[c].vm == Some(c)) && (s.deleted[c] > 0 ==> !s.conns[c].phase.Open?)
      && (s.conns[c].phase.Gone? ==> (s.deleted[c] == 1 <==> !LeftBehind(START, steps, c, false)))
      && (s.conns[c].phase.Gone? && StraysIn(steps, c) == 0 ==> s.deleted[c] == 1)
  {
    StartInv();
    RunInv(START, steps);
    RunStrays(START, steps, c);
    RunStranded(START, steps, c);
    ReturnedAt(ExecAll(START, steps).value, c);
  }

  lemma ReturnedAt(s: State, c: nat)
    requires Inv(s) && c < |s.conns| && Abandoned(s, c)
    ensures (s.conns[c].phase.Open? ==> s.conns[c].vm == Some(c)) && (s.deleted[c] > 0 ==> !s.conns[c].phase.Open?)
    ensures s.conns[c].phase.Gone? ==> (s.deleted[c] == 1 <==> s.conns[c].vm.None?)
    ensures s.conns[c].phase.Gone? && s.conns[c].strays == 0 ==> s.deleted[c] == 1
  {
    assert Kept(s, c) && Places(s, c) == 1;
    HoldsNonNegative(s, c);
    NotInTasks(s, c);
    OnlyOwnHolds(s, c);
  }

  lemma NotInTasks(s: State, c: nat)
    requires Inv(s) && Abandoned(s, c)
    ensures Total(InTasks(s.tasks, c)) == 0 && HandlerHolds(s.handler, c) == 0
  {
    var tasks := InTasks(s.tasks, c);
    forall t | 0 <= t < |s.tasks| ensures tasks[t] == 0 { assert Standing(s, t); }
    AllZero(tasks);
  }

  /** No connection holds another's machine. */
  lemma OnlyOwnHolds(s: State, c: nat)
    requires Inv(s) && c < |s.conns|
    ensures Total(InConns(s.conns, c)) == ConnHolds(s.conns[c], c)
  {
    var conns := InConns(s.conns, c);
    var without := conns[c := 0];
    forall d | 0 <= d < |s.conns| ensures without[d] == 0 { assert Kept(s, d); }
    AllZero(without);
    TotalUpdate(conns, c, 0);
  }

  /** While a connection is open and its machine is away, its running task exists, is its own and is not dead. */
  lemma RunningTask(steps: seq<Step>, c: nat)
    requires ExecAll(START, steps).Some?
    requires var s := ExecAll(START, steps).value;
      c < |s.conns| && s.conns[c].phase.Open? && s.conns[c].vm.None? && !(s.handler.Took? && s.handler.c == c)
    ensures var s := ExecAll(START, steps).value;
      && s.conns[c].running.Some? && s.conns[c].running.value < |s.tasks|
      && s.tasks[s.conns[c].running.value].conn == c && !s.tasks[s.conns[c].running.value].pc.Dead?
  {
    StartInv();
    RunInv(START, steps);
    var s := ExecAll(START, steps).value;
    assert Kept(s, c) && Places(s, c) == 1;
    OnlyOwnHolds(s, c);
    assert s.deleted[c] == 0;
    var t := SomeTaskHolds(s.tasks, c);
    assert Standing(s, t);
  }

  lemma SomeTaskHolds(tasks: seq<Task>, m: nat) returns (t: nat)
    requires Total(InTasks(tasks, m)) > 0
    ensures t < |tasks| && TaskHolds(tasks[t], m) > 0
  {
    var ns := InTasks(tasks, m);
    t := Positive(ns);
    assert ns[t] == TaskHolds(tasks[t], m);
  }

  lemma {:induction false} Positive(ns: seq<int>) returns (i: nat)
    requires Total(ns) > 0
    ensures i < |ns| && ns[i] > 0
    decreases |ns|
  {
    if ns[0] > 0 { i := 0; } else { i := Positive(ns[1..]); i := i + 1; }
  }

  // ---- A run with a stray ----

  lemma Then(s: State, step: Step, s': State, rest: seq<Step>, end: State)
    requires Exec(s, step) == Some(s') && ExecAll(s', rest) == Some(end)
    ensures ExecAll(s, [step] + rest) == Some(end)
  {
    assert ([step] + rest)[1..] == rest;
  }

  lemma {:induction false} ExecAppend(s: State, a: seq<Step>, s': State, b: seq<Step>)
    requires ExecAll(s, a) == Some(s')
    ensures ExecAll(s, a + b) == ExecAll(s', b)
    decreases |a|
  {
    if a == [] {
      assert a + b == b;
    } else {
      assert (a + b)[1..] == a[1..] + b;
      ExecAppend(Exec(s, a[0]).value, a[1..], s', b);
    }
  }

  /** One connection and, once there is one, its task. */
  function Sole(k: Conn, h: Handler, tasks: seq<Task>): State { State([k], h, tasks, multiset{}) }

  lemma SoleConn(k: Conn, h: Handler, tasks: seq<Task>, k': Conn)
    ensures SetConn(Sole(k, h, tasks), 0, k') == Sole(k', h, tasks)
  {
    assert [k][0 := k'] == [k'];
  }

  lemma SoleTask(k: Conn, h: Handler, u: Task, u': Task)
    ensures SetTask(Sole(k, h, [u]), 0, u') == Sole(k, h, [u'])
  {
    assert [u][0 := u'] == [u'];
  }

  /** An action of the only task. */
  lemma SoleAct(k: Conn, u: Task, go: bool, rest: seq<Step>, end: State)
    requires u.conn == 0 && TaskLocal(u, k, go).Some? && TaskLocal(u, k, go).value.deletes.None?
    requires var l := TaskLocal(u, k, go).value; ExecAll(Sole(l.conn, Idle, [l.task]), rest) == Some(end)
    ensures ExecAll(Sole(k, Idle, [u]), [Act(0, go)] + rest) == Some(end)
  {
    var l := TaskLocal(u, k, go).value;
    SoleConn(k, Idle, [u], l.conn);
    SoleTask(l.conn, Idle, u, l.task);
    assert multiset{} + Bag(l.deletes) == multiset{};
    Then(Sole(k, Idle, [u]), Act(0, go), Sole(l.conn, Idle, [l.task]), rest, end);
  }

  /** An action on the only connection that keeps handler and tasks. */
  lemma SoleStep(k: Conn, tasks: seq<Task>, step: Step, k': Conn, rest: seq<Step>, end: State)
    requires Exec(Sole(k, Idle, tasks), step) == Some(SetConn(Sole(k, Idle, tasks), 0, k'))
    requires ExecAll(Sole(k', Idle, tasks), rest) == Some(end)
    ensures ExecAll(Sole(k, Idle, tasks), [step] + rest) == Some(end)
  {
    SoleConn(k, Idle, tasks, k');
    Then(Sole(k, Idle, tasks), step, Sole(k', Idle, tasks), rest, end);
  }

  /** A client connects and asks for steps; a worker takes the task up, locks the connection and starts to step. */
  const STARTS: seq<Step> := [Connect, Command(0), Handle, Handle, Handle, Handle, Act(0, true), Act(0, true)]

  const STEPPED: State := Sole(Conn(true, 2, 0, Open, None, Some(0)), Idle, [Task(0, Some(0), Stepping(0))])

  lemma Asked()
    ensures ExecAll(START, STARTS[..4]) == Some(Sole(Conn(true, 2, 0, Open, None, Some(0)), Made(0, 0), [Task(0, Some(0), Unqueued)]))
  {
    var k := Conn(true, 2, 0, Open, None, None);
    var locked, took := Sole(k.(vm := Some(0)), Locked(0), []), Sole(k, Took(0, Some(0)), []);
    var made := Sole(k.(running := Some(0)), Made(0, 0), [Task(0, Some(0), Unqueued)]);
    var listed := Conn(true, 1, 0, Open, Some(0), None);
    SoleConn(k, Took(0, Some(0)), [], k.(running := Some(0)));
    assert [] + [Task(0, Some(0), Unqueued)] == [Task(0, Some(0), Unqueued)];
    Then(took, Handle, made, [], made);
    SoleConn(k.(vm := Some(0)), Locked(0), [], k);
    Then(locked, Handle, took, [Handle] + [], made);
    SoleConn(listed, Idle, [], k.(vm := Some(0)));
    Then(Sole(listed, Idle, []), Command(0), locked, [Handle] + ([Handle] + []), made);
    assert [] + [listed] == [listed];
    Then(START, Connect, Sole(listed, Idle, []), [Command(0)] + ([Handle] + ([Handle] + [])), made);
    assert STARTS[..4] == [Connect] + ([Command(0)] + ([Handle] + ([Handle] + [])));
  }

  lemma LockedAndStepped()
    ensures ExecAll(Sole(Conn(true, 1, 0, Open, None, Some(0)), Idle, [Task(0, Some(0), Ready)]), STARTS[6..]) == Some(STEPPED)
  {
    var k, idle := Conn(true, 2, 0, Open, None, Some(0)), Conn(true, 1, 0, Open, None, Some(0));
    SoleAct(k, Task(0, Some(0), RunLocked), true, [], STEPPED);
    SoleAct(idle, Task(0, Some(0), Ready), true, [Act(0, true)] + [], STEPPED);
    assert STARTS[6..] == [Act(0, true)] + ([Act(0, true)] + []);
  }

  lemma TakenUp()
    ensures ExecAll(Sole(Conn(true, 2, 0, Open, None, Some(0)), Made(0, 0), [Task(0, Some(0), Unqueued)]), STARTS[4..]) == Some(STEPPED)
  {
    var k, idle := Conn(true, 2, 0, Open, None, Some(0)), Conn(true, 1, 0, Open, None, Some(0));
    var u, ready := Task(0, Some(0), Unqueued), Task(0, Some(0), Ready);
    LockedAndStepped();
    SoleTask(idle, HasTask(0), u, ready);
    Then(Sole(idle, HasTask(0), [u]), Handle, Sole(idle, Idle, [ready]), STARTS[6..], STEPPED);
    SoleConn(k, Made(0, 0), [u], idle);
    Then(Sole(k, Made(0, 0), [u]), Handle, Sole(idle, HasTask(0), [u]), [Handle] + STARTS[6..], STEPPED);
    assert STARTS[4..] == [Handle] + ([Handle] + STARTS[6..]);
  }

  lemma Started()
    ensures ExecAll(START, STARTS) == Some(STEPPED)
  {
    Asked();
    TakenUp();
    ExecAppend(START, STARTS[..4], Sole(Conn(true, 2, 0, Open, None, Some(0)), Made(0, 0), [Task(0, Some(0), Unqueued)]), STARTS[4..]);
    assert STARTS == STARTS[..4] + STARTS[4..];
  }

  /** The client goes away; its socket stays open while the worker holds the connection, and the same event comes again. */
  const DROPS: seq<Step> := [Kill(0), Stray(0, 0)]

  const DROPPED: Conn := Conn(false, 0, 1, Closing, None, Some(0))

  lemma Dropped()
    ensures ExecAll(STEPPED, DROPS) == Some(Sole(DROPPED, Idle, STEPPED.tasks))
  {
    var k := Conn(false, 1, 0, Open, None, Some(0));
    SoleStep(k, STEPPED.tasks, Stray(0, 0), DROPPED, [], Sole(DROPPED, Idle, STEPPED.tasks));
    SoleStep(STEPPED.conns[0], STEPPED.tasks, Kill(0), k, [Stray(0, 0)] + [], Sole(DROPPED, Idle, STEPPED.tasks));
    assert DROPS == [Kill(0)] + ([Stray(0, 0)] + []);
  }

  /** The destructor runs under the worker, who then gives the machine back to what was the connection. */
  const ENDS: seq<Step> :=
    [Close(0), Close(0), Act(0, false), Act(0, false), Act(0, false), Act(0, false), Act(0, false), Act(0, false)]

  const LOST: State := Sole(Conn(false, -1, 1, Gone, Some(0), Some(0)), Idle, [Task(0, None, Dead)])

  lemma GivenBack()
    ensures ExecAll(Sole(DROPPED.(phase := Gone), Idle, STEPPED.tasks), ENDS[2..]) == Some(LOST)
  {
    var k := DROPPED.(phase := Gone);
    var a := Act(0, false);
    SoleAct(k.(vm := Some(0)), Task(0, None, DtorRelease), false, [], LOST);
    SoleAct(k, Task(0, None, DtorHand(true, Some(0))), false, [a] + [], LOST);
    SoleAct(k, Task(0, Some(0), DtorExchange(true)), false, [a] + ([a] + []), LOST);
    SoleAct(k.(strong := -1), Task(0, Some(0), DtorLock), false, [a] + ([a] + ([a] + [])), LOST);
    SoleAct(k, Task(0, Some(0), RunDone(false)), false, [a] + ([a] + ([a] + ([a] + []))), LOST);
    SoleAct(k, Task(0, Some(0), Stepping(0)), false, [a] + ([a] + ([a] + ([a] + ([a] + [])))), LOST);
    assert ENDS[2..] == [a] + ([a] + ([a] + ([a] + ([a] + ([a] + [])))));
  }

  lemma Closed()
    ensures ExecAll(Sole(DROPPED, Idle, STEPPED.tasks), ENDS) == Some(LOST)
  {
    GivenBack();
    SoleConn(DROPPED.(phase := Emptied(None)), Idle, STEPPED.tasks, DROPPED.(phase := Gone));
    assert multiset{} + Bag(None) == multiset{};
    Then(Sole(DROPPED.(phase := Emptied(None)), Idle, STEPPED.tasks), Close(0), Sole(DROPPED.(phase := Gone), Idle, STEPPED.tasks),
         ENDS[2..], LOST);
    SoleStep(DROPPED, STEPPED.tasks, Close(0), DROPPED.(phase := Emptied(None)), [Close(0)] + ENDS[2..], LOST);
    assert ENDS == [Close(0)] + ([Close(0)] + ENDS[2..]);
  }

  /** A worker that holds a lock steps a machine whose connection is being destroyed. */
  ghost predicate SteppedWhileClosing(s: State) {
    && |s.tasks| == 1 && |s.conns| == 1 && s.tasks[0].pc == Stepping(0) && TaskLocks(s.tasks[0], 0) > 0
    && !s.conns[0].phase.Open?
  }

  /** Connection and task are gone, and the machine with neither deleted nor reachable. */
  ghost predicate MachineLost(s: State) {
    |s.conns| == 1 && s.conns[0].phase.Gone? && Abandoned(s, 0) && s.deleted[0] == 0
  }

  /**
   * A run with a stray: the connection is destroyed while a worker that has locked it steps its machine, and in the end
   * everybody is gone and the machine was never deleted.
   */
  lemma StrayRun()
    ensures ExecAll(START, STARTS + DROPS).Some? && SteppedWhileClosing(ExecAll(START, STARTS + DROPS).value)
    ensures ExecAll(START, STARTS + DROPS + ENDS).Some? && MachineLost(ExecAll(START, STARTS + DROPS + ENDS).value)
  {
    Started();
    Dropped();
    Closed();
    ExecAppend(START, STARTS, STEPPED, DROPS);
    ExecAppend(START, STARTS + DROPS, Sole(DROPPED, Idle, STEPPED.tasks), ENDS);
  }

  // ---- Whole rounds, with nobody else in between ----

  /** Consecutive actions of one task. */
  function ActAll(u: Task, k: Conn, gos: seq<bool>): Option<Local>
    decreases |gos|
  {
    if gos == [] then Some(Local(u, k, None))
    else match TaskLocal(u, k, gos[0])
      case None => None
      case Some(l) => if l.deletes.Some? then (if |gos| == 1 then Some(l) else None) else ActAll(l.task, l.conn, gos[1..])
  }

  lemma ActOn(u: Task, k: Conn, gos: seq<bool>, u': Task, k': Conn)
    requires gos != [] && TaskLocal(u, k, gos[0]) == Some(Local(u', k', None))
    ensures ActAll(u, k, gos) == ActAll(u', k', gos[1..])
  {}

  /** A task that is to go on steps its own machine and is ready again, its connection as it was. */
  lemma TaskRounds(u: Task, k: Conn, m: nat, x: bool, y: bool)
    requires u.pc == Ready && u.vm == Some(m) && k.strong > 0
    ensures ActAll(u, k, [true, x]).Some? && ActAll(u, k, [true, x]).value.task.pc == Stepping(m)
    ensures ActAll(u, k, [true, x, true, y]) == Some(Local(u, k, None))
  {
    var locked, stepping, done := u.(pc := RunLocked), u.(pc := Stepping(m)), u.(pc := RunDone(true));
    var k1 := Acquired(k);
    ActOn(u, k, [true, x], locked, k1);
    ActOn(locked, k1, [x], stepping, k1);
    ActOn(u, k, [true, x, true, y], locked, k1);
    ActOn(locked, k1, [x, true, y], stepping, k1);
    ActOn(stepping, k1, [true, y], done, k1);
    ActOn(done, k1, [y], u, k);
  }

  /** A task that is not to go on gives its machine back to an open connection, which is otherwise as it was. */
  lemma TaskReturns(u: Task, k: Conn, m: nat, x: bool)
    requires u.pc == Ready && u.vm == Some(m) && k.strong > 0
    ensures ActAll(u, k, [false, x, x, x, x]) == Some(Local(u.(vm := None, pc := Dead), k.(vm := Some(m)), None))
  {
    var k1, k2 := Acquired(k), Acquired(k).(vm := Some(m));
    var lock, exchange := u.(pc := DtorLock), u.(pc := DtorExchange(true));
    var hand, release := u.(vm := None, pc := DtorHand(true, Some(m))), u.(vm := None, pc := DtorRelease);
    ActOn(u, k, [false, x, x, x, x], lock, k);
    ActOn(lock, k, [x, x, x, x], exchange, k1);
    ActOn(exchange, k1, [x, x, x], hand, k1);
    ActOn(hand, k1, [x, x], release, k2);
    ActOn(release, k2, [x], u.(vm := None, pc := Dead), k.(vm := Some(m)));
  }

  /** Once the connection is gone, the task deletes the machine, whatever run would decide. */
  lemma TaskDeletes(u: Task, k: Conn, m: nat, go: bool, x: bool)
    requires u.pc == Ready && u.vm == Some(m) && k.strong == 0
    ensures ActAll(u, k, [go, x, x, x]) == Some(Local(u.(vm := None, pc := Dead), k, Some(m)))
  {
    var lock, exchange := u.(pc := DtorLock), u.(pc := DtorExchange(false));
    var hand := u.(vm := None, pc := DtorHand(false, Some(m)));
    ActOn(u, k, [go, x, x, x], lock, k);
    ActOn(lock, k, [x, x, x], exchange, k);
    ActOn(exchange, k, [x, x], hand, k);
  }

  /** The second half of it: the machine is in the handler's hands. */
  lemma TookServed(s: State, c: nat) returns (s5: State)
    requires s.handler == Idle && c < |s.conns| && s.conns[c].phase.Open? && s.conns[c].strong > 0 && s.conns[c].vm.Some?
    ensures s5 == SetConn(s, c, s.conns[c].(vm := None, running := Some(|s.tasks|)))
                  .(tasks := s.tasks + [Task(c, s.conns[c].vm, Ready)])
    ensures ExecAll(SetConn(s, c, Acquired(s.conns[c]).(vm := None)).(handler := Took(c, s.conns[c].vm)), [Handle, Handle, Handle])
         == Some(s5)
  {
    var k, t := s.conns[c], |s.tasks|;
    var out := k.(vm := None, running := Some(t));
    var s2 := SetConn(s, c, Acquired(k).(vm := None)).(handler := Took(c, k.vm));
    var s3 := SetConn(s, c, Acquired(out)).(tasks := s.tasks + [Task(c, k.vm, Unqueued)], handler := Made(c, t));
    var s4 := SetConn(s, c, out).(tasks := s.tasks + [Task(c, k.vm, Unqueued)], handler := HasTask(t));
    s5 := SetConn(s, c, out).(tasks := s.tasks + [Task(c, k.vm, Ready)]);
    assert s2.conns[c := Acquired(out)] == s3.conns && s3.conns[c := out] == s4.conns;
    assert s4.tasks[t := Task(c, k.vm, Ready)] == s5.tasks;
    Then(s4, Handle, s5, [], s5);
    Then(s3, Handle, s4, [Handle], s5);
    Then(s2, Handle, s3, [Handle, Handle], s5);
  }

  /** The first half of it: the connection is locked and its machine taken out, if it is there. */
  lemma CommandTakes(s: State, c: nat, rest: seq<Step>, end: State)
    requires s.handler == Idle && c < |s.conns| && s.conns[c].strong > 0
    requires ExecAll(SetConn(s, c, Acquired(s.conns[c]).(vm := None)).(handler := Took(c, s.conns[c].vm)), rest) == Some(end)
    ensures ExecAll(s, [Command(c)] + ([Handle] + rest)) == Some(end)
  {
    var k := s.conns[c];
    var s1 := SetConn(s, c, Acquired(k)).(handler := Locked(c));
    var s2 := SetConn(s, c, Acquired(k).(vm := None)).(handler := Took(c, k.vm));
    assert s1.conns[c := Acquired(k).(vm := None)] == s2.conns;
    Then(s1, Handle, s2, rest, end);
    Then(s, Command(c), s1, [Handle] + rest, end);
  }

  /**
   * A command on an open connection that has its machine at home makes a new ready task of it and leaves the pointer count
   * as it was.
   */
  lemma CommandServed(s: State, c: nat)
    requires s.handler == Idle && c < |s.conns| && s.conns[c].phase.Open? && s.conns[c].strong > 0 && s.conns[c].vm.Some?
    ensures ExecAll(s, [Command(c)] + ([Handle] + [Handle, Handle, Handle])) ==
      Some(SetConn(s, c, s.conns[c].(vm := None, running := Some(|s.tasks|)))
           .(tasks := s.tasks + [Task(c, s.conns[c].vm, Ready)]))
  {
    var end := TookServed(s, c);
    CommandTakes(s, c, [Handle, Handle, Handle], end);
  }

  /** With the machine out, or the connection gone, a command changes nothing. */
  lemma CommandIdle(s: State, c: nat)
    requires s.handler == Idle && c < |s.conns|
    ensures s.conns[c].strong == 0 ==> Exec(s, Command(c)) == Some(s)
    ensures s.conns[c].strong > 0 && s.conns[c].phase.Open? && s.conns[c].vm.None? ==>
      ExecAll(s, [Command(c)] + ([Handle] + [Handle])) == Some(s)
  {
    var k := s.conns[c];
    if k.strong > 0 && k.phase.Open? && k.vm.None? {
      assert Acquired(k).(vm := None) == Acquired(k);
      TookIdle(s, c);
      CommandTakes(s, c, [Handle], s);
    }
  }

  lemma TookIdle(s: State, c: nat)
    requires s.handler == Idle && c < |s.conns| && s.conns[c].phase.Open? && s.conns[c].strong > 0
    ensures ExecAll(SetConn(s, c, Acquired(s.conns[c])).(handler := Took(c, None)), [Handle]) == Some(s)
  {
    var s2 := SetConn(s, c, Acquired(s.conns[c])).(handler := Took(c, None));
    assert s2.conns[c := s.conns[c]] == s.conns;
    Then(s2, Handle, s, [], s);
  }
}
