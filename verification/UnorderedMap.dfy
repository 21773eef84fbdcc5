/** The hash of a 32-bit key: a permutation of the words, so distinct keys never share a full hash. */
module IntegerHash {
  type Word = bv32

  function Half(h: Word): Word { h ^ (h >> 16) }

  function Third(h: Word): Word { h ^ (h >> 13) }

  function Unthird(h: Word): Word { h ^ (h >> 13) ^ (h >> 26) }

  function First(h: Word): Word { h * 0x85eb_ca6b }

  function Unfirst(h: Word): Word { h * 0xa5cb_9243 }

  function Second(h: Word): Word { h * 0xc2b2_ae35 }

  function Unsecond(h: Word): Word { h * 0x7ed1_b41d }

  /** The order of the five steps; backwards it is the same order with the inverses. */
  function Rounds<T>(half: T -> T, first: T -> T, third: T -> T, second: T -> T, h: T): T {
    half(second(third(first(half(h)))))
  }

  function Mix(h: Word): Word { Rounds(Half, First, Third, Second, h) }

  function Unmix(h: Word): Word { Rounds(Half, Unsecond, Unthird, Unfirst, h) }

  ghost predicate Undoes<T(!new)>(g: T -> T, f: T -> T) { forall x :: g(f(x)) == x }

  lemma HalfTwice(h: Word)
    ensures Half(h ^ (h >> 16)) == h
  {}

  lemma ThirdUndone(h: Word)
    ensures Unthird(h ^ (h >> 13)) == h && Third(h ^ (h >> 13) ^ (h >> 26)) == h
  {}

  lemma FirstUndone(h: Word)
    ensures Unfirst(h * 0x85eb_ca6b) == h && First(h * 0xa5cb_9243) == h
  {}

  lemma SecondUndone(h: Word)
    ensures Unsecond(h * 0xc2b2_ae35) == h && Second(h * 0x7ed1_b41d) == h
  {}

  lemma ShiftsUndone()
    ensures Undoes(Half, Half) && Undoes(Unthird, Third) && Undoes(Third, Unthird)
  {
    forall h: Word ensures Half(Half(h)) == h { HalfTwice(h); }
    forall h: Word ensures Unthird(Third(h)) == h { ThirdUndone(h); }
    forall h: Word ensures Third(Unthird(h)) == h { ThirdUndone(h); }
  }

  lemma FirstsUndone()
    ensures Undoes(Unfirst, First) && Undoes(First, Unfirst)
  {
    forall h: Word ensures Unfirst(First(h)) == h { FirstUndone(h); }
    forall h: Word ensures First(Unfirst(h)) == h { FirstUndone(h); }
  }

  lemma SecondsUndone()
    ensures Undoes(Unsecond, Second) && Undoes(Second, Unsecond)
  {
    forall h: Word ensures Unsecond(Second(h)) == h { SecondUndone(h); }
    forall h: Word ensures Second(Unsecond(h)) == h { SecondUndone(h); }
  }

  lemma RoundsUndone<T(!new)>(half: T -> T, first: T -> T, third: T -> T, second: T -> T,
                              unfirst: T -> T, unthird: T -> T, unsecond: T -> T, h: T)
    requires Undoes(half, half) && Undoes(unfirst, first) && Undoes(unthird, third) && Undoes(unsecond, second)
    ensures Rounds(half, unsecond, unthird, unfirst, Rounds(half, first, third, second, h)) == h
  {}

  /** The hash is one to one and onto: no two 32-bit words share a hash, and every word is one. */
  lemma MixUndone(h: Word)
    ensures Unmix(Mix(h)) == h && Mix(Unmix(h)) == h
  {
    ShiftsUndone();
    FirstsUndone();
    SecondsUndone();
    RoundsUndone(Half, First, Third, Second, Unfirst, Unthird, Unsecond, h);
    RoundsUndone(Half, Unsecond, Unthird, Unfirst, Second, Third, First, h);
  }

  function HashOf(key: Word): nat { Mix(key) as nat }
}

/** The kernel's chained hash map, as seen through its entries. */
module HashBags {
  import opened Multisets

  /** Every entry of every bucket, counted. */
  ghost function Bag<K, V>(buckets: seq<seq<(K, V)>>): multiset<(K, V)> {
    if buckets == [] then multiset{} else multiset(buckets[0]) + Bag(buckets[1..])
  }

  /** Every entry is in the bucket its key's hash selects. */
  ghost predicate Homed<K, V>(hash: K -> nat, buckets: seq<seq<(K, V)>>) {
    forall i, j :: 0 <= i < |buckets| && 0 <= j < |buckets[i]| ==> hash(buckets[i][j].0) % |buckets| == i
  }

  lemma {:induction false} BagUpdate<K, V>(buckets: seq<seq<(K, V)>>, i: nat, b: seq<(K, V)>)
    requires i < |buckets|
    ensures Bag(buckets[i := b]) + multiset(buckets[i]) == Bag(buckets) + multiset(b)
    decreases |buckets|
  {
    var u := buckets[i := b];
    if i == 0 {
      assert u[1..] == buckets[1..];
    } else {
      assert u[1..] == buckets[1..][i - 1 := b] && u[0] == buckets[0];
      BagUpdate(buckets[1..], i - 1, b);
      Replaced(multiset(buckets[0]), Bag(buckets[1..]), Bag(u[1..]), multiset(buckets[i]), multiset(b));
    }
  }

  lemma BagAdd<K, V>(buckets: seq<seq<(K, V)>>, i: nat, e: (K, V))
    requires i < |buckets|
    ensures Bag(buckets[i := buckets[i] + [e]]) == Bag(buckets) + multiset{e}
  {
    BagUpdate(buckets, i, buckets[i] + [e]);
    Trim(multiset(buckets[i]), Bag(buckets[i := buckets[i] + [e]]), Bag(buckets), multiset{e});
  }

  lemma Trim<T>(x: multiset<T>, a: multiset<T>, b: multiset<T>, y: multiset<T>)
    requires a + x == b + (x + y)
    ensures a == b + y
  {
    assert b + (x + y) == (b + y) + x;
    assert a == (a + x) - x && b + y == ((b + y) + x) - x;
  }

  lemma BagDrop<K, V>(buckets: seq<seq<(K, V)>>, i: nat)
    requires i < |buckets| && buckets[i] != []
    ensures var last := |buckets[i]| - 1;
      Bag(buckets[i := buckets[i][..last]]) + multiset{buckets[i][last]} == Bag(buckets)
  {
    var last := |buckets[i]| - 1;
    var b := buckets[i][..last];
    var e := buckets[i][last];
    var u := buckets[i := b];
    BagAdd(u, i, e);
    assert b + [e] == buckets[i];
    assert u[i := b + [e]] == buckets;
  }

  lemma {:induction false} BagHolds<K, V>(buckets: seq<seq<(K, V)>>, i: nat, j: nat)
    requires i < |buckets| && j < |buckets[i]|
    ensures buckets[i][j] in Bag(buckets)
    decreases |buckets|
  {
    if i > 0 { BagHolds(buckets[1..], i - 1, j); }
  }

  lemma {:induction false} BagFrom<K, V>(buckets: seq<seq<(K, V)>>, e: (K, V)) returns (i: nat, j: nat)
    requires e in Bag(buckets)
    ensures i < |buckets| && j < |buckets[i]| && buckets[i][j] == e
    decreases |buckets|
  {
    if e in buckets[0] {
      i := 0;
      j :| 0 <= j < |buckets[0]| && buckets[0][j] == e;
    } else {
      i, j := BagFrom(buckets[1..], e);
      i := i + 1;
    }
  }

  lemma {:induction false} BagEmpty<K, V>(buckets: seq<seq<(K, V)>>)
    requires forall i :: 0 <= i < |buckets| ==> buckets[i] == []
    ensures Bag(buckets) == multiset{}
    decreases |buckets|
  {
    if buckets != [] { BagEmpty(buckets[1..]); }
  }

  lemma HomedAdd<K, V>(hash: K -> nat, buckets: seq<seq<(K, V)>>, e: (K, V))
    requires Homed(hash, buckets) && |buckets| > 0
    ensures Homed(hash, Hung(hash, buckets, e))
  {}

  /** Moving one entry from one table to the other keeps the two together. */
  lemma Carry<T>(a: multiset<T>, a': multiset<T>, b: multiset<T>, e: T)
    requires a' + multiset{e} == a
    ensures a' + (b + multiset{e}) == a + b
  {
    assert a' + (b + multiset{e}) == (a' + multiset{e}) + b;
  }

  /** The entry is hung at the end of the bucket its hash selects. */
  function Hung<K, V>(hash: K -> nat, buckets: seq<seq<(K, V)>>, e: (K, V)): seq<seq<(K, V)>>
    requires |buckets| > 0
  {
    var i := hash(e.0) % |buckets|;
    buckets[i := buckets[i] + [e]]
  }

  /** In the middle of a rehash: the two tables together hold everything, and the first i buckets are drained. */
  ghost predicate Moving<K, V>(hash: K -> nat, buckets: seq<seq<(K, V)>>, realloc: seq<seq<(K, V)>>, all: multiset<(K, V)>, i: nat) {
    && Bag(buckets) + Bag(realloc) == all && Homed(hash, realloc)
    && i <= |buckets| && forall k :: 0 <= k < i ==> buckets[k] == []
  }

  lemma MoveStarts<K, V>(hash: K -> nat, buckets: seq<seq<(K, V)>>, realloc: seq<seq<(K, V)>>)
    requires forall k :: 0 <= k < |realloc| ==> realloc[k] == []
    ensures Moving(hash, buckets, realloc, Bag(buckets), 0)
  {
    BagEmpty(realloc);
  }

  lemma MoveEnds<K, V>(hash: K -> nat, buckets: seq<seq<(K, V)>>, realloc: seq<seq<(K, V)>>, all: multiset<(K, V)>)
    requires Moving(hash, buckets, realloc, all, |buckets|)
    ensures Homed(hash, realloc) && Bag(realloc) == all
  {
    BagEmpty(buckets);
  }

  lemma MovingHolds<K, V>(hash: K -> nat, buckets: seq<seq<(K, V)>>, realloc: seq<seq<(K, V)>>, all: multiset<(K, V)>, i: nat)
    requires Moving(hash, buckets, realloc, all, i) && i < |buckets| && buckets[i] != []
    ensures all != multiset{}
  {
    BagHolds(buckets, i, 0);
    assert buckets[i][0] in all;
  }

  /** One step of a rehash: the last entry of bucket i goes to its new home. */
  lemma PopAndPlace<K, V>(hash: K -> nat, buckets: seq<seq<(K, V)>>, realloc: seq<seq<(K, V)>>, all: multiset<(K, V)>, i: nat)
    requires Moving(hash, buckets, realloc, all, i) && i < |buckets| && buckets[i] != [] && |realloc| > 0
    ensures var last := |buckets[i]| - 1;
      var loc := hash(buckets[i][last].0) % |realloc|;
      Moving(hash, buckets[i := buckets[i][..last]], realloc[loc := realloc[loc] + [buckets[i][last]]], all, i)
  {
    var last := |buckets[i]| - 1;
    var pop := buckets[i][last];
    BagDrop(buckets, i);
    BagAdd(realloc, hash(pop.0) % |realloc|, pop);
    HomedAdd(hash, realloc, pop);
    Carry(Bag(buckets), Bag(buckets[i := buckets[i][..last]]), Bag(realloc), pop);
  }

  /** A bag that holds exactly the bindings of m, each once. */
  ghost predicate Describes<K(!new), V(!new)>(bag: multiset<(K, V)>, m: map<K, V>) {
    forall e :: bag[e] == if Binds(m, e) then 1 else 0
  }

  ghost predicate Binds<K, V>(m: map<K, V>, e: (K, V)) { e.0 in m && m[e.0] == e.1 }

  lemma Bound<K(!new), V(!new)>(bag: multiset<(K, V)>, m: map<K, V>, e: (K, V))
    requires Describes(bag, m)
    ensures e in bag <==> Binds(m, e)
    ensures bag[e] <= 1
  {}

  /** A key missing from its own bucket is missing from the map. */
  lemma MissingKey<K(!new), V(!new)>(hash: K -> nat, buckets: seq<seq<(K, V)>>, m: map<K, V>, key: K)
    requires Homed(hash, buckets) && Describes(Bag(buckets), m) && |buckets| > 0
    requires forall j :: 0 <= j < |buckets[hash(key) % |buckets|]| ==> buckets[hash(key) % |buckets|][j].0 != key
    ensures key !in m
  {
    if key in m {
      Bound(Bag(buckets), m, (key, m[key]));
      var i, j := BagFrom(buckets, (key, m[key]));
      assert false;
    }
  }

  lemma FoundKey<K(!new), V(!new)>(buckets: seq<seq<(K, V)>>, m: map<K, V>, i: nat, j: nat)
    requires Describes(Bag(buckets), m) && i < |buckets| && j < |buckets[i]|
    ensures buckets[i][j].0 in m && m[buckets[i][j].0] == buckets[i][j].1
  {
    BagHolds(buckets, i, j);
    Bound(Bag(buckets), m, buckets[i][j]);
  }

  lemma AddKey<K(!new), V(!new)>(bag: multiset<(K, V)>, m: map<K, V>, key: K, value: V)
    requires Describes(bag, m) && key !in m
    ensures Describes(bag + multiset{(key, value)}, m[key := value])
    ensures |m[key := value]| == |m| + 1
  {
    forall e: (K, V)
      ensures (bag + multiset{(key, value)})[e] == if Binds(m[key := value], e) then 1 else 0
    {
      assert bag[e] == if Binds(m, e) then 1 else 0;
      assert e == (e.0, e.1);
    }
    assert m[key := value].Keys == m.Keys + {key};
  }

  lemma DropKey<K(!new), V(!new)>(bag: multiset<(K, V)>, rest: multiset<(K, V)>, m: map<K, V>, key: K)
    requires Describes(bag, m) && key in m && rest + multiset{(key, m[key])} == bag
    ensures Describes(rest, m - {key}) && |m - {key}| == |m| - 1
  {
    forall e: (K, V)
      ensures rest[e] == if Binds(m - {key}, e) then 1 else 0
    {
      assert bag[e] == if Binds(m, e) then 1 else 0;
      assert bag[e] == rest[e] + multiset{(key, m[key])}[e];
      assert e == (e.0, e.1);
    }
    assert (m - {key}).Keys == m.Keys - {key};
  }

  /** Overwriting one entry's value. */
  lemma PutKey<K(!new), V(!new)>(bag: multiset<(K, V)>, rest: multiset<(K, V)>, m: map<K, V>, key: K, value: V)
    requires Describes(bag, m) && key in m && rest + multiset{(key, m[key])} == bag
    ensures Describes(rest + multiset{(key, value)}, m[key := value]) && |m[key := value]| == |m|
  {
    DropKey(bag, rest, m, key);
    AddKey(rest, m - {key}, key, value);
    assert (m - {key})[key := value] == m[key := value];
  }

  lemma {:induction false} BagSize<K(!new), V(!new)>(bag: multiset<(K, V)>, m: map<K, V>)
    requires Describes(bag, m)
    ensures |bag| == |m|
    decreases |m|
  {
    if k :| k in m {
      var e := (k, m[k]);
      Bound(bag, m, e);
      var rest := bag - multiset{e};
      assert rest + multiset{e} == bag;
      DropKey(bag, rest, m, k);
      BagSize(rest, m - {k});
    } else {
      forall e: (K, V) ensures bag[e] == 0 { assert !Binds(m, e); }
      assert bag == multiset{};
    }
  }

  // ---- Where the entries are ----

  /** Two entries in different places have different keys. */
  lemma DistinctKeys<K(!new), V(!new)>(buckets: seq<seq<(K, V)>>, m: map<K, V>, i: nat, j: nat, k: nat)
    requires Describes(Bag(buckets), m) && i < |buckets| && j < k < |buckets[i]|
    ensures buckets[i][j].0 != buckets[i][k].0
  {
    FoundKey(buckets, m, i, j);
    FoundKey(buckets, m, i, k);
    var e := buckets[i][j];
    Bound(Bag(buckets), m, e);
    BucketInBag(buckets, i);
    if buckets[i][k] == e {
      TwiceInSeq(buckets[i], j, k);
    }
  }

  lemma EachOnce<K(!new), V(!new)>(visited: seq<(K, V)>, m: map<K, V>)
    requires Describes(multiset(visited), m)
    ensures forall i :: 0 <= i < |visited| ==> visited[i].0 in m && m[visited[i].0] == visited[i].1
    ensures forall i, j :: 0 <= i < j < |visited| ==> visited[i].0 != visited[j].0
    ensures forall k :: k in m ==> (k, m[k]) in visited
  {
    var bag := multiset(visited);
    forall i | 0 <= i < |visited| ensures visited[i].0 in m && m[visited[i].0] == visited[i].1 {
      assert visited[i] in bag;
      Bound(bag, m, visited[i]);
    }
    forall i, j | 0 <= i < j < |visited| ensures visited[i].0 != visited[j].0 {
      Bound(bag, m, visited[i]);
      if visited[i] == visited[j] { TwiceInSeq(visited, i, j); }
    }
    forall k | k in m ensures (k, m[k]) in visited {
      Bound(bag, m, (k, m[k]));
    }
  }

  lemma {:induction false} BucketInBag<K, V>(buckets: seq<seq<(K, V)>>, i: nat)
    requires i < |buckets|
    ensures multiset(buckets[i]) <= Bag(buckets)
    decreases |buckets|
  {
    if i > 0 { BucketInBag(buckets[1..], i - 1); }
  }

  lemma TwiceInSeq<T>(b: seq<T>, j: nat, k: nat)
    requires j < k < |b| && b[j] == b[k]
    ensures multiset(b)[b[j]] >= 2
  {
    var head, tail := b[..k], b[k..];
    assert b == head + tail;
    assert head[j] == b[j] && tail[0] == b[j];
    assert multiset(b) == multiset(head) + multiset(tail);
  }

  /** The entries in the order an iterator visits them. */
  function Flatten<T>(buckets: seq<seq<T>>): seq<T> {
    if buckets == [] then [] else Flatten(buckets[..|buckets| - 1]) + buckets[|buckets| - 1]
  }

  /** The entries an iterator has passed when it stands at entry i of bucket o. */
  function Before<T>(buckets: seq<seq<T>>, o: nat, i: nat): seq<T>
    requires o <= |buckets| && (o < |buckets| ==> i <= |buckets[o]|)
  {
    Flatten(buckets[..o]) + if o < |buckets| then buckets[o][..i] else []
  }

  lemma NextBucket<T>(buckets: seq<seq<T>>, o: nat)
    requires o < |buckets|
    ensures Before(buckets, o, |buckets[o]|) == Before(buckets, o + 1, 0)
  {
    assert buckets[..o + 1][..o] == buckets[..o];
    assert buckets[o][..|buckets[o]|] == buckets[o];
  }

  lemma NextEntry<T>(buckets: seq<seq<T>>, o: nat, i: nat)
    requires o < |buckets| && i < |buckets[o]|
    ensures Before(buckets, o, i + 1) == Before(buckets, o, i) + [buckets[o][i]]
  {
    assert buckets[o][..i + 1] == buckets[o][..i] + [buckets[o][i]];
  }

  lemma BagReplace<K, V>(buckets: seq<seq<(K, V)>>, i: nat, j: nat, e: (K, V))
    requires i < |buckets| && j < |buckets[i]|
    ensures var rest := Bag(buckets) - multiset{buckets[i][j]};
      && rest + multiset{buckets[i][j]} == Bag(buckets)
      && Bag(buckets[i := buckets[i][j := e]]) == rest + multiset{e}
  {
    var b, was := buckets[i], buckets[i][j];
    BagHolds(buckets, i, j);
    BagUpdate(buckets, i, b[j := e]);
    assert multiset(b[j := e]) == multiset(b) - multiset{was} + multiset{e};
    Substitute(Bag(buckets[i := b[j := e]]), Bag(buckets), multiset(b), multiset(b[j := e]), was, e);
  }

  lemma Substitute<T>(a: multiset<T>, b: multiset<T>, m: multiset<T>, n: multiset<T>, was: T, e: T)
    requires a + m == b + n && n == m - multiset{was} + multiset{e} && was in m && was in b
    ensures a == b - multiset{was} + multiset{e}
  {
    forall k: T ensures a[k] == (b - multiset{was} + multiset{e})[k] {
      assert (a + m)[k] == a[k] + m[k] && (b + n)[k] == b[k] + n[k];
    }
  }

  lemma PutAt<K(!new), V(!new)>(hash: K -> nat, buckets: seq<seq<(K, V)>>, m: map<K, V>, i: nat, j: nat, value: V)
    requires Homed(hash, buckets) && Describes(Bag(buckets), m) && i < |buckets| && j < |buckets[i]|
    ensures var key := buckets[i][j].0;
      var put := buckets[i := buckets[i][j := (key, value)]];
      Homed(hash, put) && Describes(Bag(put), m[key := value]) && |m[key := value]| == |m|
  {
    var was := buckets[i][j];
    FoundKey(buckets, m, i, j);
    BagReplace(buckets, i, j, (was.0, value));
    PutKey(Bag(buckets), Bag(buckets) - multiset{was}, m, was.0, value);
    HomedPut(hash, buckets, i, j, value);
  }

  lemma HomedPut<K, V>(hash: K -> nat, buckets: seq<seq<(K, V)>>, i: nat, j: nat, value: V)
    requires Homed(hash, buckets) && i < |buckets| && j < |buckets[i]|
    ensures Homed(hash, buckets[i := buckets[i][j := (buckets[i][j].0, value)]])
  {}

  lemma {:induction false} FlattenBag<K, V>(buckets: seq<seq<(K, V)>>)
    ensures multiset(Flatten(buckets)) == Bag(buckets)
    decreases |buckets|
  {
    if buckets != [] {
      var most, last := buckets[..|buckets| - 1], buckets[|buckets| - 1];
      FlattenBag(most);
      BagSnoc(most, last);
      assert buckets == most + [last];
    }
  }

  lemma {:induction false} BagSnoc<K, V>(buckets: seq<seq<(K, V)>>, b: seq<(K, V)>)
    ensures Bag(buckets + [b]) == Bag(buckets) + multiset(b)
    decreases |buckets|
  {
    if buckets == [] {
      assert ([] + [b])[1..] == [];
    } else {
      assert (buckets + [b])[1..] == buckets[1..] + [b];
      BagSnoc(buckets[1..], b);
    }
  }
}

/** The order in which a table built from scratch lists its keys. */
module IterationOrder {
  import opened HashBags

  /** A table of `count` buckets into which the keys have gone one after the other, never growing. */
  function Built<K>(hash: K -> nat, keys: seq<K>, count: nat): (r: seq<seq<(K, ())>>)
    requires count > 0
    ensures |r| == count
  {
    if keys == [] then seq(count, _ => [])
    else Hung(hash, Built(hash, keys[..|keys| - 1], count), (keys[|keys| - 1], ()))
  }

  /** The keys in the order of an iterator. */
  function KeyOrder<K>(hash: K -> nat, keys: seq<K>, count: nat): seq<K>
    requires count > 0
  {
    KeysOf(Flatten(Built(hash, keys, count)))
  }

  function KeysOf<K>(entries: seq<(K, ())>): seq<K> {
    seq(|entries|, i requires 0 <= i < |entries| => entries[i].0)
  }
}

module UnorderedMaps {
  import opened HashBags

  class UnorderedMap<K(==, !new), V(!new)> {
    const hash: K -> nat
    var buckets: seq<seq<(K, V)>>
    var size: nat
    ghost var model: map<K, V>

    ghost predicate Valid() reads this {
      Homed(hash, buckets) && Describes(Bag(buckets), model) && size == |model| <= |buckets|
    }

    constructor (hash: K -> nat, count: nat)
      ensures Valid() && model == map[] && |buckets| == count && this.hash == hash
    {
      this.hash := hash;
      buckets := seq(count, _ => []);
      size := 0;
      model := map[];
      new;
      BagEmpty(buckets);
    }

    /** The inner loop of rehash: one bucket is emptied from the back. */
    method MoveBucket(i: nat, to: seq<seq<(K, V)>>, ghost all: multiset<(K, V)>) returns (realloc: seq<seq<(K, V)>>)
      requires i < |buckets| && Moving(hash, buckets, to, all, i) && |all| <= |to|
      modifies this`buckets
      ensures |buckets| == old(|buckets|) && |realloc| == |to| && Moving(hash, buckets, realloc, all, i + 1)
    {
      realloc := to;
      while buckets[i] != []
        invariant i < |buckets| == old(|buckets|) && |realloc| == |to| && Moving(hash, buckets, realloc, all, i)
        decreases |buckets[i]|
      {
        var last := |buckets[i]| - 1;
        MovingHolds(hash, buckets, realloc, all, i);
        PopAndPlace(hash, buckets, realloc, all, i);
        var loc := hash(buckets[i][last].0) % |realloc|;
        realloc := realloc[loc := realloc[loc] + [buckets[i][last]]];
        buckets := buckets[i := buckets[i][..last]];
      }
    }

    /** The fewest buckets is the number of entries; a smaller request is ignored. */
    method Rehash(count: nat)
      requires Valid()
      modifies this`buckets
      ensures Valid() && |buckets| == if count < size then old(|buckets|) else count
      ensures Bag(buckets) == old(Bag(buckets))
    {
      if count < size { return; }
      var realloc: seq<seq<(K, V)>> := seq(count, _ => []);
      MoveStarts(hash, buckets, realloc);
      ghost var all := Bag(buckets);
      BagSize(all, model);
      var i := 0;
      while i < |buckets|
        invariant 0 <= i <= |buckets| == old(|buckets|) && |realloc| == count && Moving(hash, buckets, realloc, all, i)
      {
        realloc := MoveBucket(i, realloc, all);
        i := i + 1;
      }
      MoveEnds(hash, buckets, realloc, all);
      buckets := realloc;
    }

    /** Where the key is in its bucket, or the bucket's length. */
    method Search(key: K) returns (loc: nat, it: nat)
      requires |buckets| > 0
      ensures loc == hash(key) % |buckets| && it <= |buckets[loc]|
      ensures it < |buckets[loc]| ==> buckets[loc][it].0 == key
      ensures it == |buckets[loc]| ==> forall j :: 0 <= j < |buckets[loc]| ==> buckets[loc][j].0 != key
    {
      loc := hash(key) % |buckets|;
      it := 0;
      while it < |buckets[loc]|
        invariant it <= |buckets[loc]|
        invariant forall j :: 0 <= j < it ==> buckets[loc][j].0 != key
      {
        if buckets[loc][it].0 == key { return; }
        it := it + 1;
      }
    }

    /** The entry of key, or the end iterator (bucket |buckets|). */
    method Find(key: K) returns (loc: nat, it: nat)
      requires Valid() && |buckets| > 0
      ensures key in model <==> loc < |buckets|
      ensures key in model ==> it < |buckets[loc]| && buckets[loc][it] == (key, model[key])
      ensures key !in model ==> loc == |buckets|
    {
      loc, it := Search(key);
      if it < |buckets[loc]| {
        FoundKey(buckets, model, loc, it);
      } else {
        MissingKey(hash, buckets, model, key);
        loc, it := |buckets|, 0;
      }
    }

    method Contains(key: K) returns (found: bool)
      requires Valid() && |buckets| > 0
      ensures found == (key in model)
    {
      var loc, it := Search(key);
      found := it < |buckets[loc]|;
      if found { FoundKey(buckets, model, loc, it); } else { MissingKey(hash, buckets, model, key); }
    }

    /** The table doubles when it holds as many entries as buckets. */
    method Grow()
      requires Valid() && |buckets| > 0
      modifies this`buckets
      ensures Valid() && size < |buckets| && Bag(buckets) == old(Bag(buckets))
      ensures |buckets| == if size == old(|buckets|) then 2 * old(|buckets|) else old(|buckets|)
      ensures size < old(|buckets|) ==> buckets == old(buckets)
    {
      if size == |buckets| { Rehash(|buckets| * 2); }
    }

    method Append(loc: nat, key: K, value: V)
      requires Valid() && size < |buckets| && loc == hash(key) % |buckets| && key !in model
      modifies this
      ensures Valid() && model == old(model)[key := value] && buckets == Hung(hash, old(buckets), (key, value))
    {
      BagAdd(buckets, loc, (key, value));
      AddKey(Bag(buckets), model, key, value);
      HomedAdd(hash, buckets, (key, value));
      buckets := buckets[loc := buckets[loc] + [(key, value)]];
      size := size + 1;
      model := model[key := value];
    }

    /** Adds a binding, last in its bucket, unless the key has one; the position returned is that of the key's binding. */
    method Emplace(key: K, value: V) returns (loc: nat, it: nat, inserted: bool)
      requires Valid() && |buckets| > 0
      modifies this
      ensures Valid() && inserted == (key !in old(model))
      ensures model == if key in old(model) then old(model) else old(model)[key := value]
      ensures loc < |buckets| && it < |buckets[loc]| && buckets[loc][it] == (key, model[key])
      ensures |buckets| == if old(size) == old(|buckets|) then 2 * old(|buckets|) else old(|buckets|)
      ensures old(size) < old(|buckets|) && inserted ==> buckets == Hung(hash, old(buckets), (key, value))
    {
      Grow();
      loc, it := Search(key);
      if it < |buckets[loc]| {
        FoundKey(buckets, model, loc, it);
        return loc, it, false;
      }
      MissingKey(hash, buckets, model, key);
      Append(loc, key, value);
      inserted := true;
    }

    /** The position of key's binding, made with the default value when there was none. */
    method Index(key: K, default: V) returns (loc: nat, it: nat)
      requires Valid() && |buckets| > 0
      modifies this
      ensures Valid() && model == if key in old(model) then old(model) else old(model)[key := default]
      ensures loc < |buckets| && it < |buckets[loc]| && buckets[loc][it] == (key, model[key])
    {
      Grow();
      loc, it := Search(key);
      if it < |buckets[loc]| {
        FoundKey(buckets, model, loc, it);
        return;
      }
      MissingKey(hash, buckets, model, key);
      Append(loc, key, default);
    }

    /** Assigning through the reference that Index returned. */
    method Assign(loc: nat, it: nat, value: V)
      requires Valid() && loc < |buckets| && it < |buckets[loc]|
      modifies this`buckets, this`model
      ensures Valid() && model == old(model)[old(buckets[loc][it].0) := value]
    {
      var key := buckets[loc][it].0;
      PutAt(hash, buckets, model, loc, it, value);
      buckets := buckets[loc := buckets[loc][it := (key, value)]];
      model := model[key := value];
    }

    // ---- Iteration ----

    /** An iterator at the end of a bucket moves to the next entry, or to the end. */
    method SkipEmpty(outer: nat, inner: nat) returns (o: nat, i: nat)
      requires outer <= |buckets| && (outer < |buckets| ==> inner <= |buckets[outer]|)
      ensures outer <= o <= |buckets| && (o < |buckets| ==> i < |buckets[o]|)
      ensures Before(buckets, o, i) == Before(buckets, outer, inner)
    {
      o, i := outer, inner;
      while o != |buckets| && i == |buckets[o]|
        invariant outer <= o <= |buckets| && (o < |buckets| ==> i <= |buckets[o]|)
        invariant Before(buckets, o, i) == Before(buckets, outer, inner)
        decreases |buckets| - o
      {
        NextBucket(buckets, o);
        o := o + 1;
        if o != |buckets| { i := 0; }
      }
    }

    /** From begin to end an iterator visits every binding exactly once, bucket after bucket. */
    method Walk() returns (visited: seq<(K, V)>)
      requires Valid()
      ensures visited == Flatten(buckets)
      ensures Describes(multiset(visited), model) && |visited| == |model|
      ensures forall i :: 0 <= i < |visited| ==> visited[i].0 in model && model[visited[i].0] == visited[i].1
      ensures forall i, j :: 0 <= i < j < |visited| ==> visited[i].0 != visited[j].0
      ensures forall k :: k in model ==> (k, model[k]) in visited
    {
      visited := Collect();
      BagSize(multiset(visited), model);
      EachOnce(visited, model);
    }

    /** The loop from begin to end. */
    method Collect() returns (visited: seq<(K, V)>)
      ensures visited == Flatten(buckets) && multiset(visited) == Bag(buckets)
    {
      var o: nat, i: nat := SkipEmpty(0, 0);
      visited := [];
      while o != |buckets|
        invariant o <= |buckets| && (o < |buckets| ==> i < |buckets[o]|)
        invariant visited == Before(buckets, o, i)
        decreases |buckets| - o, if o < |buckets| then |buckets[o]| - i else 0
      {
        visited := visited + [buckets[o][i]];
        NextEntry(buckets, o, i);
        o, i := SkipEmpty(o, i + 1);
      }
      FlattenBag(buckets);
      assert buckets[..|buckets|] == buckets;
    }
  }
}
