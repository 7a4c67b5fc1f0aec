/**
 * The bounded cache (`schema/src/lru-map.ts`): a map that keeps its entries in the order they were last used and drops
 * the least recently used while there are too many or they weigh too much together. `Cache` is the source's class over
 * its two maps and its running total; `Recency` functions say what its entries are, and the laws are about those.
 */
module LruMap {

  import opened Maybe

  // ---- A map in insertion order -----------------------------------------------------------------------------------

  function Keys<K(==), V>(s: seq<(K, V)>): set<K> {
    if s == [] then {} else {s[0].0} + Keys(s[1..])
  }

  predicate Distinct<K(==), V>(s: seq<(K, V)>) {
    s == [] || (s[0].0 !in Keys(s[1..]) && Distinct(s[1..]))
  }

  function Lookup<K(==), V>(s: seq<(K, V)>, key: K): Option<V> {
    if s == [] then None else if s[0].0 == key then Some(s[0].1) else Lookup(s[1..], key)
  }

  function Forgotten<K(==), V>(s: seq<(K, V)>, key: K): seq<(K, V)> {
    if s == [] then [] else if s[0].0 == key then Forgotten(s[1..], key) else [s[0]] + Forgotten(s[1..], key)
  }

  predicate Lacks<K(==), V>(s: seq<(K, V)>, key: K) { forall i :: 0 <= i < |s| ==> s[i].0 != key }

  /** `rest` is `s` without the entry of `key`, the others in the order they were in. */
  ghost predicate CutOut<K, V>(s: seq<(K, V)>, key: K, rest: seq<(K, V)>) {
    if Lacks(s, key) then rest == s
    else exists i :: 0 <= i < |s| && s[i].0 == key && rest == s[..i] + s[i + 1..]
  }

  // ---- What the operations make of the order ----------------------------------------------------------------------

  /** The bounds of a cache: how many entries, and, when it weighs them, how much together. */
  datatype Bounds<!V> = Bounds(max: nat, weight: Option<Weight<V>>)
  datatype Weight<!V> = Weight(weigh: V -> int, maxWeight: nat)

  predicate Sound<V>(b: Bounds<V>) { b.max >= 1 && (b.weight.Some? ==> b.weight.value.maxWeight >= 1) }

  function Total<K, V>(s: seq<(K, V)>, weigh: V -> int): int {
    if s == [] then 0 else weigh(s[0].1) + Total(s[1..], weigh)
  }

  /** What each entry weighs. */
  function Costs<K(==), V>(s: seq<(K, V)>, weigh: V -> int): map<K, int> {
    if s == [] then map[] else Costs(s[1..], weigh)[s[0].0 := weigh(s[0].1)]
  }

  function Weighed<K, V>(s: seq<(K, V)>, b: Bounds<V>): int {
    if b.weight.Some? then Total(s, b.weight.value.weigh) else 0
  }

  predicate Within<K, V>(s: seq<(K, V)>, b: Bounds<V>) {
    |s| <= b.max && (b.weight.Some? ==> Weighed(s, b) <= b.weight.value.maxWeight)
  }

  /** How many of the least recently used go: the fewest that bring the rest within the bounds. */
  function Dropped<K, V>(s: seq<(K, V)>, b: Bounds<V>): (n: nat)
    ensures n <= |s|
    ensures n < |s| ==> Within(s[n..], b)
    ensures forall m :: 0 <= m < n ==> !Within(s[m..], b)
  {
    if s == [] || Within(s, b) then
      assert s[0..] == s;
      0
    else
      var n := 1 + Dropped(s[1..], b);
      assert s[1..][n - 1..] == s[n..];
      assert forall m :: 0 < m < n ==> !Within(s[m..], b) by {
        forall m | 0 < m < n ensures !Within(s[m..], b) { assert s[1..][m - 1..] == s[m..]; }
      }
      assert s[0..] == s;
      n
  }

  function Touched<K(==), V>(s: seq<(K, V)>, key: K): seq<(K, V)> {
    var v := Lookup(s, key);
    if v.None? then s else Forgotten(s, key) + [(key, v.value)]
  }

  function Placed<K(==), V>(s: seq<(K, V)>, key: K, value: V): seq<(K, V)> { Forgotten(s, key) + [(key, value)] }

  function Stored<K(==), V>(s: seq<(K, V)>, b: Bounds<V>, key: K, value: V): seq<(K, V)> {
    var all := Placed(s, key, value);
    all[Dropped(all, b)..]
  }

  // ---- Facts about the order --------------------------------------------------------------------------------------

  lemma {:induction false} LookupFinds<K, V>(s: seq<(K, V)>, key: K)
    ensures Lookup(s, key).Some? <==> key in Keys(s)
    ensures Lookup(s, key).Some? ==> (key, Lookup(s, key).value) in s
  {
    if s != [] {
      LookupFinds(s[1..], key);
    }
  }

  /** With distinct keys, an entry is what its key looks up. */
  lemma {:induction false} EntryLooksUp<K, V>(s: seq<(K, V)>, e: (K, V))
    requires Distinct(s) && e in s
    ensures e.0 in Keys(s) && Lookup(s, e.0) == Some(e.1)
  {
    if s[0] != e {
      EntryLooksUp(s[1..], e);
    }
  }

  /** Forgetting a key takes out its entry, when there is one, and nothing else; the rest keep their order. */
  lemma {:induction false} ForgottenIs<K, V>(s: seq<(K, V)>, key: K)
    requires Distinct(s)
    ensures Distinct(Forgotten(s, key)) && Keys(Forgotten(s, key)) == Keys(s) - {key}
    ensures |Forgotten(s, key)| == |s| - (if key in Keys(s) then 1 else 0)
    ensures key !in Keys(s) ==> Forgotten(s, key) == s
  {
    if s != [] {
      ForgottenIs(s[1..], key);
      if s[0].0 != key {
        var f := Forgotten(s[1..], key);
        assert ([s[0]] + f)[1..] == f;
      }
    }
  }

  lemma {:induction false} KeysAre<K, V>(s: seq<(K, V)>, key: K)
    ensures key in Keys(s) <==> !Lacks(s, key)
  {
    if s != [] {
      KeysAre(s[1..], key);
      if key in Keys(s[1..]) {
        var i :| 0 <= i < |s[1..]| && s[1..][i].0 == key;
        assert s[i + 1].0 == key;
      } else if s[0].0 != key {
        forall i | 0 <= i < |s| ensures s[i].0 != key {
          if i > 0 { assert s[i] == s[1..][i - 1]; }
        }
      }
    }
  }

  /** Forgetting a key cuts its one entry out. */
  lemma {:induction false} ForgottenCutsOut<K, V>(s: seq<(K, V)>, key: K)
    requires Distinct(s)
    ensures CutOut(s, key, Forgotten(s, key))
  {
    KeysAre(s, key);
    ForgottenIs(s, key);
    if !Lacks(s, key) {
      var i := ForgottenAt(s, key);
    }
  }

  lemma {:induction false} ForgottenAt<K, V>(s: seq<(K, V)>, key: K) returns (i: nat)
    requires Distinct(s) && key in Keys(s)
    ensures i < |s| && s[i].0 == key && Forgotten(s, key) == s[..i] + s[i + 1..]
  {
    if s[0].0 == key {
      ForgottenIs(s[1..], key);
      i := 0;
      assert s[..0] + s[1..] == s[1..];
    } else {
      var k := ForgottenAt(s[1..], key);
      hide Forgotten;
      i := k + 1;
      assert s[1..][k] == s[k + 1];
      OneInFront(s, k);
      assert Forgotten(s, key) == [s[0]] + Forgotten(s[1..], key) by { ForgottenStep(s, key); }
    }
  }

  lemma ForgottenStep<K, V>(s: seq<(K, V)>, key: K)
    requires s != [] && s[0].0 != key
    ensures Forgotten(s, key) == [s[0]] + Forgotten(s[1..], key)
  {
  }

  lemma OneInFront<T>(s: seq<T>, k: nat)
    requires k + 1 < |s|
    ensures [s[0]] + (s[1..][..k] + s[1..][k + 1..]) == s[..k + 1] + s[k + 2..]
  {
  }

  lemma {:induction false} LastIs<K, V>(s: seq<(K, V)>, key: K, value: V)
    ensures Keys(s + [(key, value)]) == Keys(s) + {key}
    ensures Distinct(s) && key !in Keys(s) ==> Distinct(s + [(key, value)])
  {
    var last := [(key, value)];
    if s == [] {
      assert s + last == last && last[1..] == [];
    } else {
      LastIs(s[1..], key, value);
      assert (s + last)[1..] == s[1..] + last;
    }
  }

  lemma PlacedIs<K, V>(s: seq<(K, V)>, key: K, value: V)
    requires Distinct(s)
    ensures Distinct(Placed(s, key, value)) && Keys(Placed(s, key, value)) == Keys(s) + {key}
    ensures |Placed(s, key, value)| == if key in Keys(s) then |s| else |s| + 1
  {
    ForgottenIs(s, key);
    LastIs(Forgotten(s, key), key, value);
  }

  /** Forgetting a key takes its weight off the total and out of the weights; placing one puts its own there. */
  lemma {:induction false} WeightsForget<K, V>(s: seq<(K, V)>, key: K, weigh: V -> int)
    requires Distinct(s)
    ensures Costs(Forgotten(s, key), weigh) == Costs(s, weigh) - {key} && Costs(s, weigh).Keys == Keys(s)
    ensures Total(Forgotten(s, key), weigh)
            == Total(s, weigh) - (if key in Costs(s, weigh) then Costs(s, weigh)[key] else 0)
  {
    if s != [] {
      WeightsForget(s[1..], key, weigh);
      if s[0].0 != key {
        var f := Forgotten(s[1..], key);
        assert ([s[0]] + f)[1..] == f;
      }
    }
  }

  lemma {:induction false} WeightsPlace<K, V>(s: seq<(K, V)>, key: K, value: V, weigh: V -> int)
    requires key !in Keys(s)
    ensures Costs(s + [(key, value)], weigh) == Costs(s, weigh)[key := weigh(value)]
    ensures Total(s + [(key, value)], weigh) == Total(s, weigh) + weigh(value)
  {
    var last := [(key, value)];
    if s == [] {
      assert s + last == last && last[1..] == [];
    } else {
      WeightsPlace(s[1..], key, value, weigh);
      assert (s + last)[1..] == s[1..] + last;
    }
  }

  /** Where every weight counts up, an entry too heavy on its own leaves the cache empty. */
  lemma HeavyEmpties<K, V>(s: seq<(K, V)>, b: Bounds<V>)
    requires Sound(b) && b.weight.Some? && s != []
    requires forall e :: e in s ==> b.weight.value.weigh(e.1) >= 0
    requires b.weight.value.weigh(s[|s| - 1].1) > b.weight.value.maxWeight
    ensures s[Dropped(s, b)..] == []
  {
    var n := Dropped(s, b);
    if n < |s| {
      var rest := s[n..];
      assert rest[|rest| - 1] == s[|s| - 1];
      forall e | e in rest ensures e in s { var i :| 0 <= i < |rest| && rest[i] == e; assert s[n + i] == e; }
      TotalIsAtLeastLast(rest, b.weight.value.weigh);
    }
  }

  lemma {:induction false} TotalIsAtLeastLast<K, V>(s: seq<(K, V)>, weigh: V -> int)
    requires s != [] && forall e :: e in s ==> weigh(e.1) >= 0
    ensures Total(s, weigh) >= weigh(s[|s| - 1].1)
  {
    if |s| > 1 {
      assert s[0] in s;
      TotalIsAtLeastLast(s[1..], weigh);
    } else {
      assert s[1..] == [];
      assert Total(s, weigh) == weigh(s[0].1) + Total(s[1..], weigh);
    }
  }

  // ---- The class --------------------------------------------------------------------------------------------------

  class Cache<K(==, !new), V> {
    const bounds: Bounds<V>
    var entries: seq<(K, V)>
    var weights: map<K, int>
    var weighed: int
    /** What `onEvict` was told, in order. */
    var told: seq<(K, V)>

    ghost predicate Valid()
      reads this
    {
      Sound(bounds) && Distinct(entries) && weights == Costed(entries) && weighed == Weighed(entries, bounds)
    }

    /** Exactly the entries are weighed, each as it was when it was set; a cache given no weight keeps none. */
    ghost function Costed(s: seq<(K, V)>): map<K, int> {
      if bounds.weight.Some? then Costs(s, bounds.weight.value.weigh) else map[]
    }

    constructor (b: Bounds<V>)
      requires Sound(b)
      ensures Valid() && bounds == b && entries == [] && told == []
    {
      bounds := b;
      entries, weights, weighed, told := [], map[], 0, [];
    }

    /** A read that counts as a use: a hit moves its entry to the end of the order. */
    method Get(key: K) returns (value: Option<V>)
      requires Valid()
      modifies this`entries
      ensures Valid() && entries == Done(old(entries), bounds, Op.Get(key))
      ensures value == Lookup(old(entries), key) && entries == Touched(old(entries), key)
      ensures Lacks(old(entries), key) ==> value == None && entries == old(entries)
      ensures !Lacks(old(entries), key) ==>
                && value.Some? && (key, value.value) in old(entries)
                && CutOut(old(entries), key, entries[..|entries| - 1]) && entries[|entries| - 1] == (key, value.value)
    {
      LookupFinds(entries, key);
      KeysAre(entries, key);
      ForgottenCutsOut(entries, key);
      if key !in Keys(entries) {
        return None;
      }
      value := Lookup(entries, key);
      MovedKeeps(entries, key, value.value, bounds);
      entries := Forgotten(entries, key) + [(key, value.value)];
      assert entries[..|entries| - 1] == Forgotten(old(entries), key);
    }

    /** A read that does not count as a use. */
    method Peek(key: K) returns (value: Option<V>)
      requires Valid()
      ensures entries == Done(entries, bounds, Op.Peek(key))
      ensures value == Lookup(entries, key) && (value.None? <==> Lacks(entries, key))
      ensures value.Some? ==> (key, value.value) in entries
    {
      LookupFinds(entries, key);
      KeysAre(entries, key);
      return Lookup(entries, key);
    }

    /** Store `value` as the most recently used; the least recently used go until the bounds hold, each told in turn. */
    method Set(key: K, value: V)
      requires Valid()
      modifies this
      ensures Valid() && Within(entries, bounds)
      ensures entries == Stored(old(entries), bounds, key, value)
      ensures entries == Done(old(entries), bounds, Op.Set(key, value))
      ensures var all := Placed(old(entries), key, value);
              && told == old(told) + all[..Dropped(all, bounds)]
              && CutOut(old(entries), key, all[..|all| - 1]) && all[|all| - 1] == (key, value)
      ensures entries != [] ==> entries[|entries| - 1] == (key, value)
    {
      ForgottenCutsOut(old(entries), key);
      assert Placed(old(entries), key, value)[..|Forgotten(old(entries), key)|] == Forgotten(old(entries), key);
      var _ := Forget(key);
      ForgottenIs(old(entries), key);
      PlacedIs(old(entries), key, value);
      if bounds.weight.Some? {
        var cost := bounds.weight.value.weigh(value);
        WeightsPlace(entries, key, value, bounds.weight.value.weigh);
        weights := weights[key := cost];
        weighed := weighed + cost;
      }
      entries := entries + [(key, value)];
      Shrink();
      SetIs(old(entries), bounds, key, value);
      hide Done;
    }

    /** Drop the least recently used while there are too many or they weigh too much together. */
    method Shrink()
      requires Valid()
      modifies this
      ensures Valid() && Within(entries, bounds)
      ensures var n := Dropped(old(entries), bounds);
              entries == old(entries)[n..] && told == old(told) + old(entries)[..n]
    {
      ghost var all := entries;
      ghost var n := 0;
      while |entries| > bounds.max || (bounds.weight.Some? && weighed > bounds.weight.value.maxWeight)
        invariant Valid()
        invariant 0 <= n <= |all| && entries == all[n..] && told == old(told) + all[..n]
        invariant n <= Dropped(all, bounds)
        decreases |entries|
      {
        var oldest := entries[0];
        FirstForgotten(entries);
        assert all[..n] + [all[n]] == all[..n + 1];
        assert entries[1..] == all[n + 1..];
        var _ := Forget(oldest.0);
        told := told + [oldest];
        n := n + 1;
      }
      assert n == Dropped(all, bounds);
    }

    method Delete(key: K) returns (had: bool)
      requires Valid()
      modifies this`entries, this`weights, this`weighed
      ensures Valid() && had == !Lacks(old(entries), key)
      ensures entries == Forgotten(old(entries), key) && CutOut(old(entries), key, entries)
      ensures entries == Done(old(entries), bounds, Op.Delete(key))
    {
      KeysAre(entries, key);
      ForgottenCutsOut(entries, key);
      had := Forget(key);
    }

    method Clear()
      requires Valid()
      modifies this`entries, this`weights, this`weighed
      ensures Valid() && entries == [] && entries == Done(old(entries), bounds, Op.Clear)
    {
      entries, weights, weighed := [], map[], 0;
    }

    /** The one place an entry leaves: it goes, and its weight is taken off the total. */
    method Forget(key: K) returns (had: bool)
      requires Valid()
      modifies this`entries, this`weights, this`weighed
      ensures Valid() && had == (key in Keys(old(entries))) && entries == Forgotten(old(entries), key)
    {
      ForgottenIs(entries, key);
      if bounds.weight.Some? {
        WeightsForget(entries, key, bounds.weight.value.weigh);
      }
      had := key in Keys(entries);
      entries := Forgotten(entries, key);
      if key in weights {
        weighed := weighed - weights[key];
        weights := weights - {key};
      }
    }
  }

  /** Moving an entry to the end keeps its value, and with it the weights and their total. */
  lemma MovedKeeps<K, V>(s: seq<(K, V)>, key: K, value: V, b: Bounds<V>)
    requires Distinct(s) && Lookup(s, key) == Some(value)
    ensures Distinct(Placed(s, key, value)) && Weighed(Placed(s, key, value), b) == Weighed(s, b)
    ensures b.weight.Some? ==> Costs(Placed(s, key, value), b.weight.value.weigh) == Costs(s, b.weight.value.weigh)
  {
    PlacedIs(s, key, value);
    ForgottenIs(s, key);
    if b.weight.Some? {
      WeightsForget(s, key, b.weight.value.weigh);
      WeightsPlace(Forgotten(s, key), key, value, b.weight.value.weigh);
      CostOf(s, key, b.weight.value.weigh);
    }
  }

  lemma {:induction false} CostOf<K, V>(s: seq<(K, V)>, key: K, weigh: V -> int)
    requires Distinct(s) && Lookup(s, key).Some?
    ensures key in Costs(s, weigh) && Costs(s, weigh)[key] == weigh(Lookup(s, key).value)
  {
    if s[0].0 != key {
      CostOf(s[1..], key, weigh);
    }
  }

  lemma FirstForgotten<K, V>(s: seq<(K, V)>)
    requires Distinct(s) && s != []
    ensures Forgotten(s, s[0].0) == s[1..]
  {
    ForgottenIs(s[1..], s[0].0);
  }

  // ---- Two caches of different sizes ------------------------------------------------------------------------------

  datatype Op<K, V> = Get(key: K) | Peek(key: K) | Set(key: K, value: V) | Delete(key: K) | Clear

  function Done<K(==), V>(s: seq<(K, V)>, b: Bounds<V>, op: Op<K, V>): seq<(K, V)> {
    match op
    case Get(key) => Touched(s, key)
    case Peek(_) => s
    case Set(key, value) => Stored(s, b, key, value)
    case Delete(key) => Forgotten(s, key)
    case Clear => []
  }

  lemma SetIs<K, V>(s: seq<(K, V)>, b: Bounds<V>, key: K, value: V)
    ensures Done(s, b, Op.Set(key, value)) == Stored(s, b, key, value)
  {
    hide Stored;
  }

  function RunAll<K(==), V>(s: seq<(K, V)>, b: Bounds<V>, ops: seq<Op<K, V>>): seq<(K, V)>
    decreases |ops|
  {
    if ops == [] then s else RunAll(Done(s, b, ops[0]), b, ops[1..])
  }

  /** `a` is what is left of `b` when some entries are crossed out. */
  predicate Crossed<T(==)>(a: seq<T>, b: seq<T>) {
    a == [] || (b != [] && ((a[0] == b[0] && Crossed(a[1..], b[1..])) || Crossed(a, b[1..])))
  }

  lemma {:induction false} CrossedTail<T>(a: seq<T>, b: seq<T>)
    requires Crossed(a, b) && a != []
    ensures Crossed(a[1..], b) && b != [] && Crossed(a[1..], b[1..])
  {
    if a[0] == b[0] && Crossed(a[1..], b[1..]) {
      CrossedMore(a[1..], b[1..], b);
    } else {
      CrossedTail(a, b[1..]);
      CrossedMore(a[1..], b[1..], b);
    }
  }

  lemma CrossedMore<T>(a: seq<T>, tail: seq<T>, b: seq<T>)
    requires Crossed(a, tail) && b != [] && b[1..] == tail
    ensures Crossed(a, b)
  {
  }

  lemma {:induction false} CrossedForgets<K, V>(a: seq<(K, V)>, b: seq<(K, V)>, key: K)
    requires Crossed(a, b)
    ensures Crossed(Forgotten(a, key), Forgotten(b, key))
  {
    if a != [] {
      var f := Forgotten(b[1..], key);
      if a[0] == b[0] && Crossed(a[1..], b[1..]) {
        CrossedForgets(a[1..], b[1..], key);
        var g := Forgotten(a[1..], key);
        assert ([a[0]] + g)[1..] == g && ([b[0]] + f)[1..] == f;
      } else {
        CrossedForgets(a, b[1..], key);
        assert ([b[0]] + f)[1..] == f;
      }
    }
  }

  lemma {:induction false} CrossedAppends<T>(a: seq<T>, b: seq<T>, x: T)
    requires Crossed(a, b)
    ensures Crossed(a + [x], b + [x]) && Crossed(a, b + [x])
  {
    if a == [] {
      CrossedLast(b, x);
      assert a + [x] == [x];
    } else {
      assert (a + [x])[1..] == a[1..] + [x] && (b + [x])[1..] == b[1..] + [x];
      if a[0] == b[0] && Crossed(a[1..], b[1..]) {
        CrossedAppends(a[1..], b[1..], x);
      } else {
        CrossedAppends(a, b[1..], x);
      }
    }
  }

  lemma {:induction false} CrossedLast<T>(b: seq<T>, x: T)
    ensures Crossed([x], b + [x])
  {
    if b != [] {
      CrossedLast(b[1..], x);
      assert (b + [x])[1..] == b[1..] + [x];
    }
  }

  lemma {:induction false} CrossedHolds<T>(a: seq<T>, b: seq<T>)
    requires Crossed(a, b)
    ensures |a| <= |b| && forall x :: x in a ==> x in b
  {
    if a != [] {
      assert a == [a[0]] + a[1..] && b == [b[0]] + b[1..];
      if a[0] == b[0] && Crossed(a[1..], b[1..]) {
        CrossedHolds(a[1..], b[1..]);
      } else {
        CrossedHolds(a, b[1..]);
      }
    }
  }

  /** A key the smaller holds, the larger holds with the same value. */
  lemma CrossedLookup<K, V>(a: seq<(K, V)>, b: seq<(K, V)>, key: K)
    requires Crossed(a, b) && Distinct(a) && Distinct(b)
    ensures key in Keys(a) ==> key in Keys(b) && Lookup(a, key) == Lookup(b, key)
  {
    CrossedHolds(a, b);
    LookupFinds(a, key);
    if key in Keys(a) {
      EntryLooksUp(b, (key, Lookup(a, key).value));
    }
  }

  /** Bounded by count alone, at most one entry goes for each one stored. */
  lemma CountDrops<K, V>(s: seq<(K, V)>, b: Bounds<V>)
    requires b.weight.None? && |s| <= b.max + 1
    ensures Dropped(s, b) == if |s| > b.max then 1 else 0
  {
    if |s| > b.max {
      assert !Within(s[0..], b);
    }
  }

  ghost predicate Includes<K, V>(small: seq<(K, V)>, large: seq<(K, V)>, a: Bounds<V>, b: Bounds<V>) {
    && Distinct(small) && Distinct(large) && |small| <= a.max && |large| <= b.max
    && Crossed(small, large) && |large| - |small| <= b.max - a.max
  }

  ghost predicate CountBounded<V>(a: Bounds<V>, b: Bounds<V>) {
    Sound(a) && Sound(b) && a.weight.None? && b.weight.None? && a.max <= b.max
  }

  lemma OpKeepsInclusion<K, V>(small: seq<(K, V)>, large: seq<(K, V)>, a: Bounds<V>, b: Bounds<V>, op: Op<K, V>)
    requires CountBounded(a, b) && Includes(small, large, a, b)
    ensures Includes(Done(small, a, op), Done(large, b, op), a, b)
  {
    match op
    case Get(key) => GetKeepsInclusion(small, large, a, b, key);
    case Set(key, value) => SetKeepsInclusion(small, large, a, b, key, value);
    case Delete(key) =>
      CrossedForgets(small, large, key);
      CrossedLookup(small, large, key);
      ForgottenIs(small, key);
      ForgottenIs(large, key);
    case _ =>
  }

  lemma GetKeepsInclusion<K, V>(small: seq<(K, V)>, large: seq<(K, V)>, a: Bounds<V>, b: Bounds<V>, key: K)
    requires CountBounded(a, b) && Includes(small, large, a, b)
    ensures Includes(Touched(small, key), Touched(large, key), a, b)
  {
    CrossedLookup(small, large, key);
    LookupFinds(small, key);
    LookupFinds(large, key);
    ForgottenIs(small, key);
    ForgottenIs(large, key);
    if key in Keys(large) {
      var last := (key, Lookup(large, key).value);
      CrossedForgets(small, large, key);
      PlacedIs(large, key, last.1);
      PlacedIs(small, key, last.1);
      CrossedAppends(Forgotten(small, key), Forgotten(large, key), last);
    }
  }

  lemma SetKeepsInclusion<K, V>(small: seq<(K, V)>, large: seq<(K, V)>, a: Bounds<V>, b: Bounds<V>, key: K, value: V)
    requires CountBounded(a, b) && Includes(small, large, a, b)
    ensures Includes(Stored(small, a, key, value), Stored(large, b, key, value), a, b)
  {
    var s, l := Placed(small, key, value), Placed(large, key, value);
    CrossedLookup(small, large, key);
    ForgottenIs(small, key);
    ForgottenIs(large, key);
    CrossedForgets(small, large, key);
    CrossedAppends(Forgotten(small, key), Forgotten(large, key), (key, value));
    PlacedIs(small, key, value);
    PlacedIs(large, key, value);
    CountDrops(s, a);
    CountDrops(l, b);
    CrossedTail(s, l);
    CrossedHolds(s, l);
    assert s[0..] == s && l[0..] == l;
  }

  /**
   * A larger cache, used the same way, holds everything a smaller one does, in the same order of use and with the same
   * values, and never more than the difference of their bounds besides; so whatever the smaller finds, the larger
   * finds.
   */
  lemma {:induction false} LargerIncludesSmaller<K, V>(small: seq<(K, V)>, large: seq<(K, V)>, a: Bounds<V>,
      b: Bounds<V>, ops: seq<Op<K, V>>, key: K)
    requires CountBounded(a, b) && Includes(small, large, a, b)
    ensures var s, l := RunAll(small, a, ops), RunAll(large, b, ops);
            && Crossed(s, l) && |s| <= |l| <= |s| + (b.max - a.max)
            && (Lookup(s, key).Some? ==> Lookup(l, key) == Lookup(s, key))
    decreases |ops|
  {
    if ops == [] {
      CrossedHolds(small, large);
      LookupFinds(small, key);
      CrossedLookup(small, large, key);
    } else {
      OpKeepsInclusion(small, large, a, b, ops[0]);
      LargerIncludesSmaller(Done(small, a, ops[0]), Done(large, b, ops[0]), a, b, ops[1..], key);
    }
  }

  // ---- The least recently used goes -------------------------------------------------------------------------------

  /** The key an operation uses: one that is set, or one that is there when it is got. */
  function UsedBy<K(==), V>(s: seq<(K, V)>, op: Op<K, V>): set<K> {
    match op
    case Set(key, _) => {key}
    case Get(key) => if Lacks(s, key) then {} else {key}
    case _ => {}
  }

  /** The keys used in a run. */
  function Used<K(==), V>(s: seq<(K, V)>, b: Bounds<V>, ops: seq<Op<K, V>>): set<K>
    decreases |ops|
  {
    if ops == [] then {} else UsedBy(s, ops[0]) + Used(Done(s, b, ops[0]), b, ops[1..])
  }

  /** Neither emptied nor used or deleted itself. */
  predicate LeftAlone<K(==), V>(op: Op<K, V>, key: K) { !op.Clear? && (!op.Peek? ==> op.key != key) }

  predicate AllLeaveAlone<K(==), V>(ops: seq<Op<K, V>>, key: K) {
    forall i :: 0 <= i < |ops| ==> LeftAlone(ops[i], key)
  }

  predicate NoneDeletes<K, V>(ops: seq<Op<K, V>>) { forall i :: 0 <= i < |ops| ==> !ops[i].Delete? }

  lemma FirstAndRest<K, V>(ops: seq<Op<K, V>>, key: K)
    requires ops != []
    ensures AllLeaveAlone(ops, key) ==> LeftAlone(ops[0], key) && AllLeaveAlone(ops[1..], key)
    ensures NoneDeletes(ops) ==> !ops[0].Delete? && NoneDeletes(ops[1..])
  {
  }

  /** The keys in the order after `key`. */
  function After<K(==), V>(s: seq<(K, V)>, key: K): set<K> {
    if s == [] then {} else if s[0].0 == key then Keys(s[1..]) else After(s[1..], key)
  }

  lemma {:induction false} AfterIs<K, V>(s: seq<(K, V)>, key: K)
    requires Distinct(s)
    ensures key !in After(s, key) && |Keys(s)| == |s| && After(s, key) <= Keys(s)
    ensures key in Keys(s) ==> |After(s, key)| < |s|
    ensures key in Keys(s) && |After(s, key)| == |s| - 1 ==> s[0].0 == key
  {
    if s != [] {
      AfterIs(s[1..], key);
    }
  }

  lemma {:induction false} AfterForgets<K, V>(s: seq<(K, V)>, key: K, other: K)
    requires Distinct(s) && other != key && key in Keys(s)
    ensures After(Forgotten(s, other), key) == After(s, key) - {other} && key in Keys(Forgotten(s, other))
  {
    ForgottenIs(s, other);
    if s[0].0 == key {
      ForgottenIs(s[1..], other);
      assert Forgotten(s, other)[1..] == Forgotten(s[1..], other);
    } else {
      AfterForgets(s[1..], key, other);
      if s[0].0 != other {
        ForgottenIs(s[1..], other);
        assert Forgotten(s, other)[1..] == Forgotten(s[1..], other);
      } else {
        ForgottenIs(s[1..], other);
        AfterIs(s[1..], key);
        assert Forgotten(s, other) == Forgotten(s[1..], other) == s[1..];
      }
    }
  }

  lemma {:induction false} AfterPlaced<K, V>(s: seq<(K, V)>, key: K, last: (K, V))
    requires key in Keys(s)
    ensures After(s + [last], key) == After(s, key) + {last.0}
  {
    assert (s + [last])[1..] == s[1..] + [last];
    if s[0].0 == key {
      LastIs(s[1..], last.0, last.1);
    } else {
      AfterPlaced(s[1..], key, last);
    }
  }

  lemma {:induction false} AfterJustUsed<K, V>(s: seq<(K, V)>, last: (K, V))
    requires last.0 !in Keys(s)
    ensures After(s + [last], last.0) == {} && last.0 in Keys(s + [last])
  {
    if s == [] {
      assert s + [last] == [last] && [last][1..] == [];
    } else {
      AfterJustUsed(s[1..], last);
      assert (s + [last])[1..] == s[1..] + [last];
    }
  }

  ghost predicate Counted<K, V>(s: seq<(K, V)>, b: Bounds<V>) {
    Sound(b) && b.weight.None? && Distinct(s) && |s| <= b.max
  }

  /** One operation that leaves the key alone: it stays, with what was used now after it, unless as many as fit are. */
  lemma OpKeepsKey<K, V>(s: seq<(K, V)>, b: Bounds<V>, op: Op<K, V>, key: K)
    requires Counted(s, b) && key in Keys(s) && LeftAlone(op, key)
    ensures var t := Done(s, b, op);
            && Counted(t, b)
            && (key in Keys(t) ==> After(t, key) <= After(s, key) + UsedBy(s, op))
            && (key in Keys(t) && !op.Delete? ==> After(t, key) == After(s, key) + UsedBy(s, op))
            && (key in Keys(t) <==> |After(s, key) + UsedBy(s, op)| < b.max)
  {
    AfterIs(s, key);
    match op
    case Peek(_) => assert After(s, key) + {} == After(s, key);
    case Delete(other) =>
      ForgottenIs(s, other);
      AfterForgets(s, key, other);
      assert After(s, key) + {} == After(s, key);
    case Get(_) => GetKeepsKey(s, b, op, key);
    case Set(_, _) => SetKeepsKey(s, b, op, key);
  }

  lemma GetKeepsKey<K, V>(s: seq<(K, V)>, b: Bounds<V>, op: Op<K, V>, key: K)
    requires Counted(s, b) && key in Keys(s) && op.Get? && op.key != key
    ensures var t := Done(s, b, op);
            && Counted(t, b)
            && (key in Keys(t) ==> After(t, key) == After(s, key) + UsedBy(s, op))
            && (key in Keys(t) <==> |After(s, key) + UsedBy(s, op)| < b.max)
  {
    hide *;
    CountedIs(s, b);
    GetDone(s, b, op);
    KeysAre(s, op.key);
    LookupFinds(s, op.key);
    AfterIs(s, key);
    if op.key in Keys(s) {
      AfterMoves(s, key, op.key, Lookup(s, op.key).value);
      PlacedIs(s, op.key, Lookup(s, op.key).value);
      AfterIs(Done(s, b, op), key);
    } else {
      assert After(s, key) + {} == After(s, key);
    }
    CountedIs(Done(s, b, op), b);
  }

  lemma CountedIs<K, V>(s: seq<(K, V)>, b: Bounds<V>)
    ensures Counted(s, b) <==> Sound(b) && b.weight.None? && Distinct(s) && |s| <= b.max
  {
  }

  lemma GetDone<K, V>(s: seq<(K, V)>, b: Bounds<V>, op: Op<K, V>)
    requires op.Get? && Distinct(s)
    ensures Done(s, b, op) == if Lookup(s, op.key).None? then s else Placed(s, op.key, Lookup(s, op.key).value)
    ensures UsedBy(s, op) == if Lookup(s, op.key).None? then {} else {op.key}
  {
    KeysAre(s, op.key);
    LookupFinds(s, op.key);
  }

  /** Placing another key puts it after. */
  lemma AfterMoves<K, V>(s: seq<(K, V)>, key: K, other: K, value: V)
    requires Distinct(s) && other != key && key in Keys(s)
    ensures After(Placed(s, other, value), key) == After(s, key) + {other} && key in Keys(Placed(s, other, value))
  {
    hide Keys, After, Forgotten, Distinct;
    AfterForgets(s, key, other);
    AfterPlaced(Forgotten(s, other), key, (other, value));
    PlacedIs(s, other, value);
    PutBack(After(s, key), other);
  }

  lemma PutBack<K>(a: set<K>, x: K)
    ensures a - {x} + {x} == a + {x}
  {
  }

  lemma SetKeepsKey<K, V>(s: seq<(K, V)>, b: Bounds<V>, op: Op<K, V>, key: K)
    requires Counted(s, b) && key in Keys(s) && op.Set? && op.key != key
    ensures var t := Done(s, b, op);
            && Counted(t, b)
            && (key in Keys(t) ==> After(t, key) == After(s, key) + UsedBy(s, op))
            && (key in Keys(t) <==> |After(s, key) + UsedBy(s, op)| < b.max)
  {
    hide *;
    CountedIs(s, b);
    SetDone(s, b, op);
    var all := Placed(s, op.key, op.value);
    PlacedIs(s, op.key, op.value);
    AfterMoves(s, key, op.key, op.value);
    AfterIs(all, key);
    if |all| > b.max {
      FirstGoes(all, key);
    }
    CountedIs(Done(s, b, op), b);
  }

  lemma SetDone<K, V>(s: seq<(K, V)>, b: Bounds<V>, op: Op<K, V>)
    requires op.Set? && Counted(s, b)
    ensures var all := Placed(s, op.key, op.value); Done(s, b, op) == if |all| > b.max then all[1..] else all
    ensures UsedBy(s, op) == {op.key}
  {
    var all := Placed(s, op.key, op.value);
    PlacedIs(s, op.key, op.value);
    hide Keys, Distinct, Forgotten, Dropped;
    CountDrops(all, b);
    assert all[0..] == all;
  }

  lemma FirstGoes<K, V>(all: seq<(K, V)>, key: K)
    requires Distinct(all) && key in Keys(all)
    ensures Distinct(all[1..])
    ensures key in Keys(all[1..]) <==> |After(all, key)| < |all| - 1
    ensures key in Keys(all[1..]) ==> After(all[1..], key) == After(all, key)
  {
    AfterIs(all, key);
    AfterIs(all[1..], key);
  }

  lemma {:induction false} GoneStays<K, V>(s: seq<(K, V)>, b: Bounds<V>, ops: seq<Op<K, V>>, key: K)
    requires Counted(s, b) && key !in Keys(s) && AllLeaveAlone(ops, key)
    ensures key !in Keys(RunAll(s, b, ops))
    decreases |ops|
  {
    if ops != [] {
      hide Keys, Done, Counted, LeftAlone, AllLeaveAlone;
      FirstAndRest(ops, key);
      OpKeepsAway(s, b, ops[0], key);
      GoneStays(Done(s, b, ops[0]), b, ops[1..], key);
    }
  }

  lemma OpKeepsAway<K, V>(s: seq<(K, V)>, b: Bounds<V>, op: Op<K, V>, key: K)
    requires Counted(s, b) && key !in Keys(s) && LeftAlone(op, key)
    ensures Counted(Done(s, b, op), b) && key !in Keys(Done(s, b, op))
  {
    match op
    case Peek(_) =>
    case Delete(other) => ForgottenIs(s, other);
    case Get(other) =>
      LookupFinds(s, other);
      ForgottenIs(s, other);
      if other in Keys(s) {
        PlacedIs(s, other, Lookup(s, other).value);
      }
    case Set(other, value) =>
      var all := Placed(s, other, value);
      PlacedIs(s, other, value);
      CountDrops(all, b);
      assert all[0..] == all;
  }

  lemma {:induction false} SizeGrows<K>(a: set<K>, c: set<K>)
    requires a <= c
    ensures |a| <= |c|
  {
    if a != {} {
      var x :| x in a;
      SizeGrows(a - {x}, c - {x});
    }
  }

  lemma UsedStep<K, V>(s: seq<(K, V)>, b: Bounds<V>, ops: seq<Op<K, V>>)
    requires ops != []
    ensures Used(s, b, ops) == UsedBy(s, ops[0]) + Used(Done(s, b, ops[0]), b, ops[1..])
    ensures RunAll(s, b, ops) == RunAll(Done(s, b, ops[0]), b, ops[1..])
  {
    hide Done, UsedBy;
  }

  /**
   * From a key with some keys used after it: it stays exactly while those and the ones used from there on are fewer
   * than fit.
   */
  lemma {:induction false} StaysExactly<K, V>(s: seq<(K, V)>, b: Bounds<V>, ops: seq<Op<K, V>>, key: K)
    requires Counted(s, b) && key in Keys(s) && AllLeaveAlone(ops, key)
    ensures |After(s, key) + Used(s, b, ops)| < b.max ==> key in Keys(RunAll(s, b, ops))
    ensures NoneDeletes(ops) ==>
              (key in Keys(RunAll(s, b, ops)) ==> |After(s, key) + Used(s, b, ops)| < b.max)
    decreases |ops|
  {
    hide *;
    CountedIs(s, b);
    if ops == [] {
      AfterIs(s, key);
      NothingUsed(s, b, ops);
      assert After(s, key) + {} == After(s, key);
    } else {
      var op, rest := ops[0], ops[1..];
      var t := Done(s, b, op);
      UsedStep(s, b, ops);
      FirstAndRest(ops, key);
      OpKeepsKey(s, b, op, key);
      var now, later := After(s, key) + UsedBy(s, op), Used(t, b, rest);
      assert After(s, key) + (UsedBy(s, op) + later) == now + later;
      SizeGrows(now, now + later);
      if key in Keys(t) {
        StaysExactly(t, b, rest, key);
        SizeGrows(After(t, key) + later, now + later);
      } else {
        GoneStays(t, b, rest, key);
      }
    }
  }

  lemma NothingUsed<K, V>(s: seq<(K, V)>, b: Bounds<V>, ops: seq<Op<K, V>>)
    requires ops == []
    ensures Used(s, b, ops) == {} && RunAll(s, b, ops) == s
  {
  }

  /**
   * Bounded by count, a key that is got or set stays until as many other keys as fit have been used since; where
   * nothing is deleted, it goes just then. So what is dropped is what was least recently used, reads counted.
   */
  lemma LeastRecentlyUsedGoes<K, V>(s: seq<(K, V)>, b: Bounds<V>, use: Op<K, V>, ops: seq<Op<K, V>>, key: K)
    requires Counted(s, b) && key in UsedBy(s, use)
    requires AllLeaveAlone(ops, key)
    ensures var t := Done(s, b, use);
            && (|Used(t, b, ops)| < b.max ==> !Lacks(RunAll(t, b, ops), key))
            && (NoneDeletes(ops) ==>
                  (|Used(t, b, ops)| >= b.max ==> Lacks(RunAll(t, b, ops), key)))
  {
    var t := Done(s, b, use);
    UsePutsLast(s, b, use, key);
    StaysExactly(t, b, ops, key);
    assert {} + Used(t, b, ops) == Used(t, b, ops);
    KeysAre(RunAll(t, b, ops), key);
  }

  lemma UsePutsLast<K, V>(s: seq<(K, V)>, b: Bounds<V>, use: Op<K, V>, key: K)
    requires Counted(s, b) && key in UsedBy(s, use)
    ensures var t := Done(s, b, use); Counted(t, b) && key in Keys(t) && After(t, key) == {}
  {
    KeysAre(s, key);
    LookupFinds(s, key);
    ForgottenIs(s, key);
    if use.Set? {
      var all := Placed(s, key, use.value);
      PlacedIs(s, key, use.value);
      CountDrops(all, b);
      AfterJustUsed(Forgotten(s, key), (key, use.value));
      assert all[0..] == all;
      if |all| > b.max {
        AfterIs(all, key);
        FirstGoes(all, key);
      }
    } else {
      PlacedIs(s, key, Lookup(s, key).value);
      AfterJustUsed(Forgotten(s, key), (key, Lookup(s, key).value));
    }
  }
}
