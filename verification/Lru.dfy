/** The LRU cache: what each operation does to the recency list, and what the list holds after any run. */
module LruSpec {
  import opened Options

  /** Entries from most to least recently touched. */
  type Store<K, V> = seq<(K, V)>

  function IndexOf<K(==), V>(s: Store<K, V>, k: K): (i: nat)
    ensures i <= |s| && (i < |s| ==> s[i].0 == k)
    ensures forall j :: 0 <= j < i ==> s[j].0 != k
  {
    if s == [] || s[0].0 == k then 0 else 1 + IndexOf(s[1..], k)
  }

  function MoveToFront<K, V>(s: Store<K, V>, i: nat): Store<K, V>
    requires i < |s|
  {
    [s[i]] + s[..i] + s[i + 1..]
  }

  /** Makes room for one more entry by dropping the least recently touched one. */
  function Evict<K, V>(s: Store<K, V>, cap: nat): Store<K, V> {
    if |s| == cap && s != [] then s[..|s| - 1] else s
  }

  function Emplace<K(==), V>(s: Store<K, V>, cap: nat, k: K, v: V): Store<K, V> {
    var i := IndexOf(s, k);
    if i < |s| then MoveToFront(s[i := (k, v)], i)
    else if cap == 0 then s
    else [(k, v)] + Evict(s, cap)
  }

  /** operator[] throws: there is no room for even one entry. */
  predicate NoRoom<K(==), V>(s: Store<K, V>, cap: nat, k: K) { cap == 0 && IndexOf(s, k) == |s| }

  /** operator[]: touches the entry, creating it with the default value when it is missing. */
  function Access<K(==), V>(s: Store<K, V>, cap: nat, k: K, default: V): (r: Store<K, V>)
    requires !NoRoom(s, cap, k)
    ensures |r| > 0 && r[0].0 == k
  {
    var i := IndexOf(s, k);
    if i < |s| then MoveToFront(s, i) else [(k, default)] + Evict(s, cap)
  }

  function SetFront<K, V>(s: Store<K, V>, v: V): Store<K, V> {
    if s == [] then s else s[0 := (s[0].0, v)]
  }

  // ---- Runs ----

  /** `Assign` is a write through the reference that the last touch returned. */
  datatype Op<K, V> = Put(k: K, v: V) | Index(k: K) | At(k: K) | Assign(v: V)

  /** A key was touched, and possibly given a value. */
  datatype Event<K, V> = Event(key: K, value: Option<V>)

  function Apply<K(==), V>(s: Store<K, V>, cap: nat, default: V, op: Op<K, V>): (Store<K, V>, seq<Event<K, V>>) {
    match op
    case Put(k, v) => (Emplace(s, cap, k, v), [Event(k, Some(v))])
    case Index(k) =>
      if NoRoom(s, cap, k) then (s, [])
      else (Access(s, cap, k, default), [Event(k, if IndexOf(s, k) < |s| then None else Some(default))])
    case At(k) => if IndexOf(s, k) < |s| then (MoveToFront(s, IndexOf(s, k)), [Event(k, None)]) else (s, [])
    case Assign(v) => (SetFront(s, v), if s == [] then [] else [Event(s[0].0, Some(v))])
  }

  function Run<K(==), V>(cap: nat, default: V, ops: seq<Op<K, V>>): (Store<K, V>, seq<Event<K, V>>) {
    if ops == [] then ([], [])
    else
      var (s, log) := Run(cap, default, ops[..|ops| - 1]);
      var (s', events) := Apply(s, cap, default, ops[|ops| - 1]);
      (s', log + events)
  }

  /** The time of the last touch of a key, counted from 1; 0 when it was never touched. */
  function LastTouch<K(==), V>(log: seq<Event<K, V>>, k: K): (t: nat)
    ensures t <= |log| && (t > 0 <==> exists i :: 0 <= i < |log| && log[i].key == k)
  {
    if log == [] then 0
    else if log[|log| - 1].key == k then |log|
    else LastTouch(log[..|log| - 1], k)
  }

  /** The last value a key was given. */
  function LastValue<K(==), V>(log: seq<Event<K, V>>, k: K): Option<V> {
    if log == [] then None
    else
      var e := log[|log| - 1];
      if e.key == k && e.value.Some? then e.value else LastValue(log[..|log| - 1], k)
  }

  /** Most recently touched first, and nothing in the list that was never touched. */
  ghost predicate InOrder<K, V>(s: Store<K, V>, log: seq<Event<K, V>>) {
    && (forall i, j :: 0 <= i < j < |s| ==> LastTouch(log, s[i].0) > LastTouch(log, s[j].0))
    && (forall i :: 0 <= i < |s| ==> LastTouch(log, s[i].0) > 0)
  }

  ghost predicate Missing<K, V>(s: Store<K, V>, k: K) {
    forall i :: 0 <= i < |s| ==> s[i].0 != k
  }

  /** A touched key is missing only because `cap` others were touched later. */
  ghost predicate NoneOlder<K(!new), V>(s: Store<K, V>, cap: nat, log: seq<Event<K, V>>) {
    forall k :: LastTouch(log, k) > 0 && Missing(s, k) ==>
      |s| == cap && forall i :: 0 <= i < |s| ==> LastTouch(log, k) < LastTouch(log, s[i].0)
  }

  ghost predicate LastValues<K, V>(s: Store<K, V>, log: seq<Event<K, V>>) {
    forall i :: 0 <= i < |s| ==> LastValue(log, s[i].0) == Some(s[i].1)
  }

  /** Exactly the `cap` most recently touched keys, most recent first, each with its last value. */
  ghost predicate MostRecent<K(!new), V>(s: Store<K, V>, cap: nat, log: seq<Event<K, V>>) {
    |s| <= cap && InOrder(s, log) && NoneOlder(s, cap, log) && LastValues(s, log)
  }

  lemma Logged<K, V>(log: seq<Event<K, V>>, e: Event<K, V>, k: K)
    ensures LastTouch(log + [e], k) == if e.key == k then |log| + 1 else LastTouch(log, k)
    ensures LastValue(log + [e], k) == if e.key == k && e.value.Some? then e.value else LastValue(log, k)
  {
    assert (log + [e])[..|log|] == log;
  }

  lemma AllLogged<K(!new), V>(log: seq<Event<K, V>>, e: Event<K, V>)
    ensures forall k :: LastTouch(log + [e], k) == if e.key == k then |log| + 1 else LastTouch(log, k)
    ensures forall k :: LastValue(log + [e], k) == if e.key == k && e.value.Some? then e.value else LastValue(log, k)
  {
    forall k { Logged(log, e, k); }
  }

  /** The list after touching entry i, which may be given a value. */
  function Hit<K, V>(s: Store<K, V>, i: nat, value: Option<V>): Store<K, V>
    requires i < |s|
  {
    [(s[i].0, if value.Some? then value.value else s[i].1)] + s[..i] + s[i + 1..]
  }

  /** Where entry j of the list after a hit on entry i came from. */
  function Source(i: nat, j: nat): nat { if j == 0 then i else if j <= i then j - 1 else j }

  lemma HitKeys<K, V>(s: Store<K, V>, i: nat, value: Option<V>)
    requires i < |s|
    ensures |Hit(s, i, value)| == |s|
    ensures forall j :: 0 <= j < |s| ==> Hit(s, i, value)[j].0 == s[Source(i, j)].0
    ensures forall j :: 0 < j < |s| ==> Hit(s, i, value)[j] == s[Source(i, j)]
  {}

  lemma HitOrder<K(!new), V>(s: Store<K, V>, log: seq<Event<K, V>>, i: nat, e: Event<K, V>)
    requires InOrder(s, log) && i < |s| && e.key == s[i].0
    ensures InOrder(Hit(s, i, e.value), log + [e])
  {
    var s' := Hit(s, i, e.value);
    HitKeys(s, i, e.value);
    AllLogged(log, e);
    forall j, l | 0 <= j < l < |s'| ensures LastTouch(log + [e], s'[j].0) > LastTouch(log + [e], s'[l].0) {
      assert s[Source(i, l)].0 != e.key by { DistinctOrder(s, log, Source(i, l), i); }
      if j > 0 { DistinctOrder(s, log, Source(i, j), i); }
    }
  }

  lemma DistinctOrder<K, V>(s: Store<K, V>, log: seq<Event<K, V>>, i: nat, j: nat)
    requires InOrder(s, log) && i < |s| && j < |s| && i != j
    ensures s[i].0 != s[j].0
  {
    if i < j { assert LastTouch(log, s[i].0) > LastTouch(log, s[j].0); }
    if j < i { assert LastTouch(log, s[j].0) > LastTouch(log, s[i].0); }
  }

  lemma HitValues<K(!new), V>(s: Store<K, V>, log: seq<Event<K, V>>, i: nat, e: Event<K, V>)
    requires InOrder(s, log) && LastValues(s, log) && i < |s| && e.key == s[i].0
    ensures LastValues(Hit(s, i, e.value), log + [e])
  {
    var s' := Hit(s, i, e.value);
    HitKeys(s, i, e.value);
    AllLogged(log, e);
    forall j | 0 <= j < |s'| ensures LastValue(log + [e], s'[j].0) == Some(s'[j].1) {
      if j > 0 { DistinctOrder(s, log, Source(i, j), i); }
    }
  }

  lemma HitMissing<K, V>(s: Store<K, V>, i: nat, value: Option<V>, k: K)
    requires i < |s| && Missing(Hit(s, i, value), k)
    ensures Missing(s, k)
  {
    var s' := Hit(s, i, value);
    forall j | 0 <= j < |s| ensures s[j].0 != k {
      assert s'[if j == i then 0 else if j < i then j + 1 else j].0 == s[j].0;
    }
  }

  lemma HitNoneOlder<K(!new), V>(s: Store<K, V>, cap: nat, log: seq<Event<K, V>>, i: nat, e: Event<K, V>)
    requires NoneOlder(s, cap, log) && i < |s| && e.key == s[i].0
    ensures NoneOlder(Hit(s, i, e.value), cap, log + [e])
  {
    var s' := Hit(s, i, e.value);
    AllLogged(log, e);
    forall k | LastTouch(log + [e], k) > 0 && Missing(s', k)
      ensures |s'| == cap && forall j :: 0 <= j < |s'| ==> LastTouch(log + [e], k) < LastTouch(log + [e], s'[j].0)
    {
      HitMissing(s, i, e.value, k);
      assert s'[0].0 != k;
      forall j | 0 <= j < |s'| ensures LastTouch(log + [e], k) < LastTouch(log + [e], s'[j].0) {
        if j > 0 { assert s'[j] == s[if j <= i then j - 1 else j]; }
      }
    }
  }

  lemma MissKept<K, V>(s: Store<K, V>, cap: nat, k: K, v: V, j: nat)
    requires 0 < j < |[(k, v)] + Evict(s, cap)|
    ensures j - 1 < |s| && ([(k, v)] + Evict(s, cap))[j] == s[j - 1]
  {}

  lemma MissOrder<K(!new), V>(s: Store<K, V>, cap: nat, log: seq<Event<K, V>>, k: K, v: V)
    requires InOrder(s, log) && Missing(s, k)
    ensures InOrder([(k, v)] + Evict(s, cap), log + [Event(k, Some(v))])
  {
    var s', log' := [(k, v)] + Evict(s, cap), log + [Event(k, Some(v))];
    AllLogged(log, Event(k, Some(v)));
    forall i, j | 0 <= i < j < |s'| ensures LastTouch(log', s'[i].0) > LastTouch(log', s'[j].0) {
      MissKept(s, cap, k, v, j);
      if i > 0 { MissKept(s, cap, k, v, i); }
    }
    forall i | 0 <= i < |s'| ensures LastTouch(log', s'[i].0) > 0 {
      if i > 0 { MissKept(s, cap, k, v, i); }
    }
  }

  lemma MissValues<K(!new), V>(s: Store<K, V>, cap: nat, log: seq<Event<K, V>>, k: K, v: V)
    requires LastValues(s, log) && Missing(s, k)
    ensures LastValues([(k, v)] + Evict(s, cap), log + [Event(k, Some(v))])
  {
    var s', log' := [(k, v)] + Evict(s, cap), log + [Event(k, Some(v))];
    AllLogged(log, Event(k, Some(v)));
    forall i | 0 <= i < |s'| ensures LastValue(log', s'[i].0) == Some(s'[i].1) {
      if i > 0 { assert s'[i] == s[i - 1]; }
    }
  }

  lemma MissMissing<K, V>(s: Store<K, V>, cap: nat, k: K, v: V, x: K)
    requires Missing([(k, v)] + Evict(s, cap), x)
    ensures x != k && Missing(Evict(s, cap), x)
    ensures (|s| == cap && s != [] && s[|s| - 1].0 == x) || Missing(s, x)
  {
    var s' := [(k, v)] + Evict(s, cap);
    assert s'[0].0 != x;
    forall j | 0 <= j < |Evict(s, cap)| ensures Evict(s, cap)[j].0 != x { assert s'[j + 1] == Evict(s, cap)[j]; }
  }

  lemma MissNoneOlder<K(!new), V>(s: Store<K, V>, cap: nat, log: seq<Event<K, V>>, k: K, v: V)
    requires MostRecent(s, cap, log) && cap > 0 && Missing(s, k)
    ensures NoneOlder([(k, v)] + Evict(s, cap), cap, log + [Event(k, Some(v))])
  {
    var e := Event(k, Some(v));
    var s' := [(k, v)] + Evict(s, cap);
    AllLogged(log, e);
    forall x | LastTouch(log + [e], x) > 0 && Missing(s', x)
      ensures |s'| == cap && forall j :: 0 <= j < |s'| ==> LastTouch(log + [e], x) < LastTouch(log + [e], s'[j].0)
    {
      MissMissing(s, cap, k, v, x);
      forall j | 0 <= j < |s'| ensures LastTouch(log + [e], x) < LastTouch(log + [e], s'[j].0) {
        if j > 0 { assert s'[j] == s[j - 1]; }
      }
    }
  }

  /** An event on a listed key is a hit; any other one gives a value and goes in front. */
  ghost predicate HitOrMiss<K, V>(s: Store<K, V>, cap: nat, s': Store<K, V>, e: Event<K, V>) {
    var i := IndexOf(s, e.key);
    if i < |s| then s' == Hit(s, i, e.value) else e.value.Some? && s' == [(e.key, e.value.value)] + Evict(s, cap)
  }

  lemma PutIsHit<K, V>(s: Store<K, V>, cap: nat, k: K, v: V)
    requires cap > 0
    ensures HitOrMiss(s, cap, Emplace(s, cap, k, v), Event(k, Some(v)))
  {
    var i := IndexOf(s, k);
    if i < |s| { assert MoveToFront(s[i := (k, v)], i) == Hit(s, i, Some(v)); }
  }

  lemma MoveIsHit<K, V>(s: Store<K, V>, i: nat)
    requires i < |s|
    ensures MoveToFront(s, i) == Hit<K, V>(s, i, None)
  {}

  lemma AssignIsHit<K, V>(s: Store<K, V>, cap: nat, v: V)
    ensures s != [] ==> HitOrMiss(s, cap, SetFront(s, v), Event(s[0].0, Some(v)))
  {
    if s != [] { assert SetFront(s, v) == Hit(s, 0, Some(v)); }
  }

  lemma ApplyIsHit<K, V>(s: Store<K, V>, cap: nat, default: V, op: Op<K, V>)
    requires cap > 0
    ensures
      var (s', events) := Apply(s, cap, default, op);
      if events == [] then s' == s else events == [events[0]] && HitOrMiss(s, cap, s', events[0])
  {
    match op
    case Put(k, v) => PutIsHit(s, cap, k, v);
    case Index(k) => if IndexOf(s, k) < |s| { MoveIsHit(s, IndexOf(s, k)); }
    case At(k) => if IndexOf(s, k) < |s| { MoveIsHit(s, IndexOf(s, k)); }
    case Assign(v) => AssignIsHit(s, cap, v);
  }

  lemma ApplyAtZero<K, V>(default: V, op: Op<K, V>)
    ensures Apply<K, V>([], 0, default, op).0 == []
  {}

  lemma ApplyKeeps<K(!new), V>(s: Store<K, V>, cap: nat, default: V, log: seq<Event<K, V>>, op: Op<K, V>)
    requires MostRecent(s, cap, log)
    ensures var (s', events) := Apply(s, cap, default, op); MostRecent(s', cap, log + events)
  {
    var (s', events) := Apply(s, cap, default, op);
    if cap == 0 {
      ApplyAtZero(default, op);
    } else {
      ApplyIsHit(s, cap, default, op);
      if events == [] {
        assert log + events == log;
      } else {
        var e := events[0];
        var i := IndexOf(s, e.key);
        if i < |s| {
          HitOrder(s, log, i, e);
          HitValues(s, log, i, e);
          HitNoneOlder(s, cap, log, i, e);
        } else {
          MissOrder(s, cap, log, e.key, e.value.value);
          MissValues(s, cap, log, e.key, e.value.value);
          MissNoneOlder(s, cap, log, e.key, e.value.value);
        }
      }
    }
  }

  /** After every run from empty the cache holds exactly the most recently touched keys with their last values. */
  lemma {:induction false} RunMostRecent<K(!new), V>(cap: nat, default: V, ops: seq<Op<K, V>>)
    ensures var (s, log) := Run(cap, default, ops); MostRecent(s, cap, log)
  {
    if ops != [] {
      RunMostRecent(cap, default, ops[..|ops| - 1]);
      var (s, log) := Run(cap, default, ops[..|ops| - 1]);
      ApplyKeeps(s, cap, default, log, ops[|ops| - 1]);
    }
  }
}

module Lru {
  import opened Options
  import opened LruSpec

  /** A list node; `id` stands for the iterator that names it and survives splicing. */
  datatype Node<K, V> = Node(id: nat, key: K, value: V)

  function Entries<K, V>(nodes: seq<Node<K, V>>): (s: Store<K, V>)
    ensures |s| == |nodes|
    ensures forall i :: 0 <= i < |nodes| ==> s[i] == (nodes[i].key, nodes[i].value)
  {
    seq(|nodes|, i requires 0 <= i < |nodes| => (nodes[i].key, nodes[i].value))
  }

  /** Tracker and list describe the same entries: each key leads to the one node that holds it. */
  ghost predicate Tracks<K, V>(nodes: seq<Node<K, V>>, tracker: map<K, nat>, nextId: nat) {
    && (forall i :: 0 <= i < |nodes| ==> Tracked(nodes[i], tracker, nextId))
    && (forall i, j :: 0 <= i < j < |nodes| ==> nodes[i].id != nodes[j].id)
    && (forall k :: k in tracker ==> Present(nodes, k))
    && |tracker| == |nodes|
  }

  ghost predicate Tracked<K, V>(n: Node<K, V>, tracker: map<K, nat>, nextId: nat) {
    n.id < nextId && n.key in tracker && tracker[n.key] == n.id
  }

  ghost predicate Present<K, V>(nodes: seq<Node<K, V>>, k: K) {
    exists i :: 0 <= i < |nodes| && nodes[i].key == k
  }

  /** Where the node that an iterator names is in the list. */
  function Locate<K, V>(nodes: seq<Node<K, V>>, id: nat): (i: nat)
    ensures i <= |nodes| && (i < |nodes| ==> nodes[i].id == id)
    ensures forall j :: 0 <= j < i ==> nodes[j].id != id
  {
    if nodes == [] || nodes[0].id == id then 0 else 1 + Locate(nodes[1..], id)
  }

  /** Following the tracker finds what searching the list would find. */
  lemma TrackerFinds<K, V>(nodes: seq<Node<K, V>>, tracker: map<K, nat>, nextId: nat, k: K)
    requires Tracks(nodes, tracker, nextId)
    ensures k in tracker <==> IndexOf(Entries(nodes), k) < |nodes|
    ensures k in tracker ==> Locate(nodes, tracker[k]) == IndexOf(Entries(nodes), k)
  {
    var i := IndexOf(Entries(nodes), k);
    if i < |nodes| { assert Tracked(nodes[i], tracker, nextId); }
    if k in tracker {
      assert Present(nodes, k);
      var j :| 0 <= j < |nodes| && nodes[j].key == k;
      assert Entries(nodes)[j].0 == k;
      assert Tracked(nodes[j], tracker, nextId);
    }
  }

  function Splice<K, V>(nodes: seq<Node<K, V>>, i: nat): seq<Node<K, V>>
    requires i < |nodes|
  {
    [nodes[i]] + nodes[..i] + nodes[i + 1..]
  }

  /** Where node j of the list goes when node i is spliced to the front. */
  function Moved(i: nat, j: nat): nat { if j == i then 0 else if j < i then j + 1 else j }

  lemma SpliceMoves<K, V>(nodes: seq<Node<K, V>>, i: nat)
    requires i < |nodes|
    ensures forall j :: 0 <= j < |nodes| ==> Splice(nodes, i)[Moved(i, j)] == nodes[j]
    ensures forall j :: 0 <= j < |nodes| ==> Splice(nodes, i)[j] == nodes[if j == 0 then i else if j <= i then j - 1 else j]
  {}

  lemma SpliceEntries<K, V>(nodes: seq<Node<K, V>>, i: nat)
    requires i < |nodes|
    ensures Entries(Splice(nodes, i)) == MoveToFront(Entries(nodes), i)
  {}

  lemma SpliceTracks<K, V>(nodes: seq<Node<K, V>>, tracker: map<K, nat>, nextId: nat, i: nat)
    requires Tracks(nodes, tracker, nextId) && i < |nodes|
    ensures Tracks(Splice(nodes, i), tracker, nextId)
  {
    var r := Splice(nodes, i);
    SpliceMoves(nodes, i);
    forall j | 0 <= j < |r| ensures Tracked(r[j], tracker, nextId) {
      assert Tracked(nodes[if j == 0 then i else if j <= i then j - 1 else j], tracker, nextId);
    }
    forall k | k in tracker ensures Present(r, k) {
      assert Present(nodes, k);
      var j :| 0 <= j < |nodes| && nodes[j].key == k;
      assert r[Moved(i, j)] == nodes[j];
    }
    SpliceIds(nodes, i);
  }

  lemma SpliceIds<K, V>(nodes: seq<Node<K, V>>, i: nat)
    requires i < |nodes| && forall j, l :: 0 <= j < l < |nodes| ==> nodes[j].id != nodes[l].id
    ensures forall j, l :: 0 <= j < l < |nodes| ==> Splice(nodes, i)[j].id != Splice(nodes, i)[l].id
  {
    SpliceMoves(nodes, i);
  }

  lemma DropKeys<K, V>(nodes: seq<Node<K, V>>, tracker: map<K, nat>, nextId: nat)
    requires Tracks(nodes, tracker, nextId) && nodes != []
    ensures forall j :: 0 <= j < |nodes| - 1 ==> nodes[j].key != nodes[|nodes| - 1].key
    ensures |tracker - {nodes[|nodes| - 1].key}| == |nodes| - 1
  {
    var last := nodes[|nodes| - 1];
    assert Tracked(last, tracker, nextId);
    assert (tracker - {last.key}).Keys == tracker.Keys - {last.key};
    assert |(tracker - {last.key}).Keys| == |nodes| - 1;
    forall j | 0 <= j < |nodes| - 1 ensures nodes[j].key != last.key { assert Tracked(nodes[j], tracker, nextId); }
  }

  lemma DropEntries<K, V>(nodes: seq<Node<K, V>>)
    requires nodes != []
    ensures Entries(nodes[..|nodes| - 1]) == Entries(nodes)[..|nodes| - 1]
  {}

  lemma DropTracks<K, V>(nodes: seq<Node<K, V>>, tracker: map<K, nat>, nextId: nat)
    requires Tracks(nodes, tracker, nextId) && nodes != []
    ensures Tracks(nodes[..|nodes| - 1], tracker - {nodes[|nodes| - 1].key}, nextId)
  {
    var last := |nodes| - 1;
    var r, t := nodes[..last], tracker - {nodes[last].key};
    DropKeys(nodes, tracker, nextId);
    forall i | 0 <= i < |r| ensures Tracked(r[i], t, nextId) { assert Tracked(nodes[i], tracker, nextId); }
    forall k | k in t ensures Present(r, k) {
      assert Present(nodes, k);
      var j :| 0 <= j < |nodes| && nodes[j].key == k;
      assert r[j].key == k;
    }
  }

  lemma PushTracks<K, V>(nodes: seq<Node<K, V>>, tracker: map<K, nat>, nextId: nat, k: K, v: V)
    requires Tracks(nodes, tracker, nextId) && k !in tracker
    ensures Tracks([Node(nextId, k, v)] + nodes, tracker[k := nextId], nextId + 1)
  {
    var r, t := [Node(nextId, k, v)] + nodes, tracker[k := nextId];
    assert t.Keys == tracker.Keys + {k};
    forall i | 0 <= i < |r| ensures Tracked(r[i], t, nextId + 1) && (i > 0 ==> r[i].id < nextId) {
      if i > 0 { assert r[i] == nodes[i - 1] && Tracked(nodes[i - 1], tracker, nextId); }
    }
    forall i, j | 0 <= i < j < |r| ensures r[i].id != r[j].id {
      if i > 0 { assert r[i] == nodes[i - 1] && r[j] == nodes[j - 1]; }
    }
    forall x | x in t ensures Present(r, x) {
      if x == k {
        assert r[0].key == x;
      } else {
        assert Present(nodes, x);
        var j :| 0 <= j < |nodes| && nodes[j].key == x;
        assert r[j + 1].key == x;
      }
    }
  }

  lemma PushEntries<K, V>(nodes: seq<Node<K, V>>, n: Node<K, V>)
    ensures Entries([n] + nodes) == [(n.key, n.value)] + Entries(nodes)
  {}

  lemma SetTracks<K, V>(nodes: seq<Node<K, V>>, tracker: map<K, nat>, nextId: nat, i: nat, v: V)
    requires Tracks(nodes, tracker, nextId) && i < |nodes|
    ensures Tracks(nodes[i := nodes[i].(value := v)], tracker, nextId)
    ensures Entries(nodes[i := nodes[i].(value := v)]) == Entries(nodes)[i := (nodes[i].key, v)]
  {
    var r := nodes[i := nodes[i].(value := v)];
    assert forall j :: 0 <= j < |r| ==> r[j].key == nodes[j].key && r[j].id == nodes[j].id;
    forall j | 0 <= j < |r| ensures Tracked(r[j], tracker, nextId) { assert Tracked(nodes[j], tracker, nextId); }
    forall k | k in tracker ensures Present(r, k) {
      assert Present(nodes, k);
      var j :| 0 <= j < |nodes| && nodes[j].key == k;
      assert r[j].key == k;
    }
  }

  class LruCache<K(==), V> {
    const capacity: nat
    const default: V
    var storage: seq<Node<K, V>>
    var tracker: map<K, nat>
    var nextId: nat

    ghost predicate Valid()
      reads this
    {
      Tracks(storage, tracker, nextId)
    }

    ghost function View(): Store<K, V>
      reads this
    {
      Entries(storage)
    }

    constructor (capacity: nat, default: V)
      ensures Valid() && View() == [] && this.capacity == capacity && this.default == default
    {
      this.capacity, this.default := capacity, default;
      storage, tracker, nextId := [], map[], 0;
    }

    method Touch(i: nat)
      requires Valid() && i < |storage|
      modifies `storage
      ensures Valid() && View() == MoveToFront(old(View()), i)
    {
      SpliceTracks(storage, tracker, nextId, i);
      SpliceEntries(storage, i);
      storage := Splice(storage, i);
    }

    method DropLast()
      requires Valid() && storage != []
      modifies `storage, `tracker
      ensures Valid() && View() == old(View())[..|old(View())| - 1]
      ensures tracker.Keys <= old(tracker).Keys
    {
      DropTracks(storage, tracker, nextId);
      DropEntries(storage);
      var last := |storage| - 1;
      tracker := tracker - {storage[last].key};
      storage := storage[..last];
    }

    method PushFront(k: K, v: V)
      requires Valid() && k !in tracker
      modifies `storage, `tracker, `nextId
      ensures Valid() && View() == [(k, v)] + old(View())
    {
      PushTracks(storage, tracker, nextId, k, v);
      PushEntries(storage, Node(nextId, k, v));
      storage := [Node(nextId, k, v)] + storage;
      tracker := tracker[k := nextId];
      nextId := nextId + 1;
    }

    method Emplace(k: K, v: V) returns (inserted: bool)
      requires Valid()
      modifies this
      ensures Valid() && View() == LruSpec.Emplace(old(View()), capacity, k, v)
      ensures inserted <==> IndexOf(old(View()), k) == |old(View())| && capacity > 0
    {
      TrackerFinds(storage, tracker, nextId, k);
      if k in tracker {
        var i := Locate(storage, tracker[k]);
        SetTracks(storage, tracker, nextId, i, v);
        storage := storage[i := storage[i].(value := v)];
        Touch(i);
        return false;
      }
      if capacity == 0 { return false; }
      if |tracker| == capacity { DropLast(); }
      PushFront(k, v);
      return true;
    }

    /** operator[]: afterwards the entry is at the front, where the returned reference points; or the length_error. */
    method Index(k: K) returns (threw: bool)
      requires Valid()
      modifies this
      ensures Valid() && threw == NoRoom(old(View()), capacity, k)
      ensures View() == if threw then old(View()) else Access(old(View()), capacity, k, default)
    {
      TrackerFinds(storage, tracker, nextId, k);
      threw := false;
      if k in tracker {
        Touch(Locate(storage, tracker[k]));
        return;
      }
      if capacity == 0 { return true; }
      if |tracker| == capacity { DropLast(); }
      PushFront(k, default);
    }

    /** `at`: None is the out_of_range exception. */
    method At(k: K) returns (r: Option<V>)
      requires Valid()
      modifies this
      ensures Valid()
      ensures r.Some? <==> IndexOf(old(View()), k) < |old(View())|
      ensures r.None? ==> View() == old(View())
      ensures r.Some? ==> View() == MoveToFront(old(View()), IndexOf(old(View()), k)) && r.value == View()[0].1
    {
      TrackerFinds(storage, tracker, nextId, k);
      if k !in tracker { return None; }
      Touch(Locate(storage, tracker[k]));
      r := Some(storage[0].value);
    }

    /** Reading through the reference a touch returned. */
    method Front() returns (v: V)
      requires Valid() && storage != []
      ensures v == View()[0].1
    {
      v := storage[0].value;
    }

    /** Writing through the reference a touch returned. */
    method AssignFront(v: V)
      requires Valid() && storage != []
      modifies `storage
      ensures Valid() && View() == SetFront(old(View()), v)
    {
      SetTracks(storage, tracker, nextId, 0, v);
      storage := storage[0 := storage[0].(value := v)];
    }

    method Pop()
      requires Valid()
      modifies this
      ensures Valid() && View() == if old(View()) == [] then [] else old(View())[..|old(View())| - 1]
    {
      if storage == [] { return; }
      DropLast();
    }

    method Clear()
      modifies this
      ensures Valid() && View() == []
    {
      tracker := map[];
      storage := [];
    }
  }
}
