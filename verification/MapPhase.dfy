/** The map phase of the benchmark: keys that several maps hold are paired up, the others are
collected. Timing is not modelled. */
module MapPhase {
  import opened Options

  /** The value of a later map beside that of the first map. */
  datatype Pair<V> = Pair(later: V, first: V)

  class DataMap<V> {
    var entries: map<int, V>

    constructor (m: map<int, V>)
      ensures entries == m
    {
      entries := m;
    }
  }

  ghost predicate Distinct<V>(list: seq<DataMap<V>>) {
    forall i, j | 0 <= i < j < |list| :: list[i] != list[j]
  }

  ghost function Contents<V>(list: seq<DataMap<V>>): (ms: seq<map<int, V>>)
    reads list
    ensures |ms| == |list| && forall i | 0 <= i < |list| :: ms[i] == list[i].entries
  {
    seq(|list|, i requires 0 <= i < |list| reads list => list[i].entries)
  }

  lemma ContentsSplit<V>(list: seq<DataMap<V>>)
    requires list != []
    ensures Contents(list) == [list[0].entries] + Contents(list[1..])
  {
  }

  // ----- specification -----

  /** The values the maps hold for a key, in list order. */
  ghost function Holders<V>(ms: seq<map<int, V>>, k: int): seq<V> {
    if ms == [] then [] else (if k in ms[0] then [ms[0][k]] else []) + Holders(ms[1..], k)
  }

  /** Each of the values beside the first one. */
  function PairUp<V>(later: seq<V>, first: V): (p: seq<Pair<V>>)
    ensures |p| == |later|
  {
    if later == [] then [] else [Pair(later[0], first)] + PairUp(later[1..], first)
  }

  function Get<V>(m: map<int, seq<V>>, k: int): seq<V> {
    if k in m then m[k] else []
  }

  function Find<V>(m: map<int, V>, k: int): Option<V> {
    if k in m then Some(m[k]) else None
  }

  /** The shared map after the values of some later maps have been paired up. */
  function Extended<V>(s: map<int, seq<Pair<V>>>, k: int, later: seq<V>, first: V): map<int, seq<Pair<V>>> {
    if later == [] then s else s[k := Get(s, k) + PairUp(later, first)]
  }

  /** What the two result maps hold for a key in the end: a key that one map holds goes to the
      unshared map, and one that several hold goes to the shared map with its pairs. */
  ghost function FinalUnshared<V>(held: seq<V>, unshared: Option<V>): Option<V> {
    if |held| == 1 then Some(held[0]) else unshared
  }

  ghost function FinalShared<V>(held: seq<V>, shared: Option<seq<Pair<V>>>): Option<seq<Pair<V>>> {
    if |held| < 2 then shared
    else Some((if shared.Some? then shared.value else []) + PairUp(held[1..], held[0]))
  }

  ghost function Without<V>(ms: seq<map<int, V>>, k: int): (r: seq<map<int, V>>)
    ensures |r| == |ms|
  {
    seq(|ms|, i requires 0 <= i < |ms| => ms[i] - {k})
  }

  // ----- lemmas -----

  lemma {:induction false} HoldersConcat<V>(a: seq<map<int, V>>, b: seq<map<int, V>>, k: int)
    ensures Holders(a + b, k) == Holders(a, k) + Holders(b, k)
  {
    if a == [] {
      assert a + b == b;
    } else {
      var head := if k in a[0] then [a[0][k]] else [];
      assert (a + b)[1..] == a[1..] + b;
      HoldersConcat(a[1..], b, k);
      calc {
        Holders(a + b, k);
        head + Holders(a[1..] + b, k);
        head + (Holders(a[1..], k) + Holders(b, k));
        head + Holders(a[1..], k) + Holders(b, k);
      }
    }
  }

  lemma {:induction false} PairUpSnoc<V>(later: seq<V>, v: V, first: V)
    ensures PairUp(later + [v], first) == PairUp(later, first) + [Pair(v, first)]
  {
    if later != [] {
      assert (later + [v])[1..] == later[1..] + [v];
      PairUpSnoc(later[1..], v, first);
    }
  }

  lemma SomeKey(keys: set<int>)
    ensures keys == {} || exists k :: k in keys
  {
    if forall k :: k !in keys {
      assert keys == {};
    }
  }

  lemma Apart<V>(all: seq<DataMap<V>>, n: nat)
    requires Distinct(all) && n < |all|
    ensures Distinct(all[n + 1..]) && all[n] !in all[n + 1..]
    ensures forall i | 0 <= i < n :: all[i] !in all[n..]
  {
  }

  lemma HoldersNext<V>(ms: seq<map<int, V>>, i: nat, k: int)
    requires i < |ms|
    ensures Holders(ms[..i + 1], k) == if k in ms[i] then Holders(ms[..i], k) + [ms[i][k]] else Holders(ms[..i], k)
  {
    assert ms[..i + 1] == ms[..i] + [ms[i]];
    HoldersConcat(ms[..i], [ms[i]], k);
    assert [ms[i]][1..] == [];
  }

  lemma NoneHeld<V>(ms: seq<map<int, V>>, k: int, s: map<int, seq<Pair<V>>>, first: V)
    ensures Holders(ms[..0], k) == [] && Extended(s, k, Holders(ms[..0], k), first) == s
  {
    assert ms[..0] == [];
  }

  lemma ExtendedNext<V>(s: map<int, seq<Pair<V>>>, k: int, later: seq<V>, first: V, v: V)
    ensures
      var s' := Extended(s, k, later, first);
      Extended(s, k, later + [v], first) == s'[k := Get(s', k) + [Pair(v, first)]]
  {
    PairUpSnoc(later, v, first);
    var s' := Extended(s, k, later, first);
    assert Get(s', k) + [Pair(v, first)] == Get(s, k) + PairUp(later + [v], first);
    assert s'[k := Get(s', k) + [Pair(v, first)]] == s[k := Get(s, k) + PairUp(later + [v], first)];
  }

  lemma {:induction false} HoldersWithout<V>(ms: seq<map<int, V>>, k: int, j: int)
    ensures Holders(Without(ms, k), j) == if j == k then [] else Holders(ms, j)
  {
    if ms != [] {
      assert Without(ms, k)[1..] == Without(ms[1..], k);
      HoldersWithout(ms[1..], k, j);
    }
  }

  /** One entry of the first map, as the inner loop treats it. */
  lemma StepHolders<V>(m: map<int, V>, ms: seq<map<int, V>>, k: int, j: int)
    requires k in m
    ensures Holders([m], j) + Holders(ms, j) ==
      if j == k then [m[k]] + Holders(ms, k) else Holders([m - {k}], j) + Holders(ms, j)
    ensures Holders([m - {k}], j) + Holders(Without(ms, k), j) ==
      if j == k then [] else Holders([m - {k}], j) + Holders(ms, j)
  {
    HoldersWithout(ms, k, j);
    assert [m][1..] == [] && [m - {k}][1..] == [];
  }

  /** Everything that went in can be read back from the two result maps, in order. */
  ghost function ReadBack<V>(unshared: Option<V>, shared: Option<seq<Pair<V>>>): seq<V> {
    if unshared.Some? then [unshared.value]
    else if shared.Some? && shared.value != [] then [shared.value[0].first] + Laters(shared.value)
    else []
  }

  ghost function Laters<V>(p: seq<Pair<V>>): seq<V> {
    if p == [] then [] else [p[0].later] + Laters(p[1..])
  }

  lemma {:induction false} LatersPairUp<V>(later: seq<V>, first: V)
    ensures Laters(PairUp(later, first)) == later
  {
    if later != [] {
      LatersPairUp(later[1..], first);
    }
  }

  lemma NothingLost<V>(ms: seq<map<int, V>>, k: int)
    ensures ReadBack(FinalUnshared(Holders(ms, k), None), FinalShared(Holders(ms, k), None)) == Holders(ms, k)
  {
    var held := Holders(ms, k);
    if |held| >= 2 {
      LatersPairUp(held[1..], held[0]);
      assert [] + PairUp(held[1..], held[0]) == PairUp(held[1..], held[0]);
      assert held == [held[0]] + held[1..];
    }
  }

  // ----- the thread -----

  class MapThread<V> {
    var dataList: seq<DataMap<V>>
    var sharedKeys: map<int, seq<Pair<V>>>
    var unsharedKeys: map<int, V>

    constructor (list: seq<DataMap<V>>)
      ensures dataList == list && sharedKeys == map[] && unsharedKeys == map[]
    {
      dataList, sharedKeys, unsharedKeys := list, map[], map[];
    }

    /** Takes a key out of all remaining maps and pairs up its values. */
    method FindMatchAndRemove(key: int, value: V) returns (found: bool)
      requires Distinct(dataList)
      modifies this`sharedKeys, dataList
      ensures Contents(dataList) == Without(old(Contents(dataList)), key)
      ensures
        var later := Holders(old(Contents(dataList)), key);
        found == (later != []) && sharedKeys == Extended(old(sharedKeys), key, later, value)
    {
      hide PairUp, Get, Extended, Holders;
      ghost var ms := Contents(dataList);
      found := false;
      NoneHeld(ms, key, old(sharedKeys), value);
      var i := 0;
      while i < |dataList|
        invariant i <= |dataList|
        invariant forall j | 0 <= j < |dataList| :: dataList[j].entries == if j < i then ms[j] - {key} else ms[j]
        invariant found == (Holders(ms[..i], key) != [])
        invariant sharedKeys == Extended(old(sharedKeys), key, Holders(ms[..i], key), value)
      {
        var m := dataList[i];
        HoldersNext(ms, i, key);
        if key in m.entries {
          ExtendedNext(old(sharedKeys), key, Holders(ms[..i], key), value, m.entries[key]);
          var p := Pair(m.entries[key], value);
          var lst := Get(sharedKeys, key);
          sharedKeys := sharedKeys[key := lst + [p]];
          m.entries := m.entries - {key};
          found := true;
        }
        i := i + 1;
      }
      assert ms[..i] == ms;
    }

    /** The inner loop of `Run`: treats the entries of a map in any order, and removes them. */
    method Drain(m: DataMap<V>)
      requires Distinct(dataList) && m !in dataList
      modifies this`sharedKeys, this`unsharedKeys, m, dataList
      ensures m.entries == map[]
      ensures SameOutcome([old(m.entries)] + old(Contents(dataList)), old(unsharedKeys), old(sharedKeys),
                          Contents(dataList), unsharedKeys, sharedKeys)
    {
      hide Holders, FinalUnshared, FinalShared;
      while m.entries.Keys != {}
        invariant SameOutcome([old(m.entries)] + old(Contents(dataList)), old(unsharedKeys), old(sharedKeys),
                              [m.entries] + Contents(dataList), unsharedKeys, sharedKeys)
        decreases |m.entries|
      {
        SomeKey(m.entries.Keys);
        var k :| k in m.entries.Keys;
        ghost var e, rest, u, s := m.entries, Contents(dataList), unsharedKeys, sharedKeys;
        var found := FindMatchAndRemove(k, m.entries[k]);
        if !found {
          unsharedKeys := unsharedKeys[k := m.entries[k]];
        }
        m.entries := m.entries - {k};
        StepOutcome(e, rest, k, u, s, Contents(dataList), unsharedKeys, sharedKeys);
      }
      assert m.entries == map[];
      EmptyHolds(Contents(dataList));
    }

    /** Empties all maps. Each key ends up in the unshared map with its value if one map held it, and
        in the shared map with one pair for every later map if several did. */
    method Run()
      requires Distinct(dataList)
      modifies this, dataList
      ensures dataList == []
      ensures forall m | m in old(dataList) :: m.entries == map[]
      ensures forall k ::
        && Find(unsharedKeys, k) == FinalUnshared(Holders(old(Contents(dataList)), k), Find(old(unsharedKeys), k))
        && Find(sharedKeys, k) == FinalShared(Holders(old(Contents(dataList)), k), Find(old(sharedKeys), k))
    {
      hide Holders, FinalUnshared, FinalShared, SameOutcome, Distinct, Contents;
      var all, n := dataList, 0;
      SameReflexive(Contents(dataList), unsharedKeys, sharedKeys);
      while dataList != []
        invariant n <= |all| && dataList == all[n..]
        invariant forall i | 0 <= i < n :: all[i].entries == map[]
        invariant SameOutcome(old(Contents(dataList)), old(unsharedKeys), old(sharedKeys),
                              Contents(dataList), unsharedKeys, sharedKeys)
      {
        var m := dataList[0];
        ghost var before, u, s := Contents(dataList), unsharedKeys, sharedKeys;
        ContentsSplit(dataList);
        Apart(all, n);
        dataList := dataList[1..];
        n := n + 1;
        assert m == all[n - 1];
        Drain(m);
        SameTransitive(old(Contents(dataList)), old(unsharedKeys), old(sharedKeys), before, u, s,
                       Contents(dataList), unsharedKeys, sharedKeys);
      }
      NothingHeld(old(Contents(dataList)), old(unsharedKeys), old(sharedKeys), unsharedKeys, sharedKeys);
    }
  }

  /** Two stages of a run lead to the same final result maps. */
  ghost predicate SameOutcome<V>(ms: seq<map<int, V>>, u: map<int, V>, s: map<int, seq<Pair<V>>>,
                                 ms': seq<map<int, V>>, u': map<int, V>, s': map<int, seq<Pair<V>>>) {
    forall k :: SameAt(k, Holders(ms, k), u, s, Holders(ms', k), u', s')
  }

  ghost predicate SameAt<V>(k: int, h: seq<V>, u: map<int, V>, s: map<int, seq<Pair<V>>>,
                            h': seq<V>, u': map<int, V>, s': map<int, seq<Pair<V>>>) {
    && FinalUnshared(h, Find(u, k)) == FinalUnshared(h', Find(u', k))
    && FinalShared(h, Find(s, k)) == FinalShared(h', Find(s', k))
  }

  lemma SameReflexive<V>(ms: seq<map<int, V>>, u: map<int, V>, s: map<int, seq<Pair<V>>>)
    ensures SameOutcome(ms, u, s, ms, u, s)
  {
  }

  lemma SameTransitive<V>(ms: seq<map<int, V>>, u: map<int, V>, s: map<int, seq<Pair<V>>>,
                          ms1: seq<map<int, V>>, u1: map<int, V>, s1: map<int, seq<Pair<V>>>,
                          ms2: seq<map<int, V>>, u2: map<int, V>, s2: map<int, seq<Pair<V>>>)
    requires SameOutcome(ms, u, s, ms1, u1, s1) && SameOutcome(ms1, u1, s1, ms2, u2, s2)
    ensures SameOutcome(ms, u, s, ms2, u2, s2)
  {
    hide FinalUnshared, FinalShared, Holders;
    forall k ensures SameAt(k, Holders(ms, k), u, s, Holders(ms2, k), u2, s2) {
      assert SameAt(k, Holders(ms, k), u, s, Holders(ms1, k), u1, s1);
    }
  }

  lemma StepOutcome<V>(m: map<int, V>, ms: seq<map<int, V>>, k: int, u: map<int, V>, s: map<int, seq<Pair<V>>>,
                             ms': seq<map<int, V>>, u': map<int, V>, s': map<int, seq<Pair<V>>>)
    requires k in m && ms' == Without(ms, k)
    requires u' == if Holders(ms, k) == [] then u[k := m[k]] else u
    requires s' == Extended(s, k, Holders(ms, k), m[k])
    ensures SameOutcome([m] + ms, u, s, [m - {k}] + ms', u', s')
  {
    forall j ensures SameAt(j, Holders([m] + ms, j), u, s, Holders([m - {k}] + ms', j), u', s') {
      HoldersConcat([m], ms, j);
      HoldersConcat([m - {k}], ms', j);
      StepHolders(m, ms, k, j);
    }
  }

  lemma EmptyHolds<V>(ms: seq<map<int, V>>)
    ensures forall k :: Holders([map[]] + ms, k) == Holders(ms, k)
  {
    assert ([map[]] + ms)[1..] == ms;
  }

  lemma NothingHeld<V>(ms: seq<map<int, V>>, u: map<int, V>, s: map<int, seq<Pair<V>>>,
                       u': map<int, V>, s': map<int, seq<Pair<V>>>)
    requires SameOutcome(ms, u, s, [], u', s')
    ensures forall k ::
      && Find(u', k) == FinalUnshared(Holders(ms, k), Find(u, k))
      && Find(s', k) == FinalShared(Holders(ms, k), Find(s, k))
  {
    forall k
      ensures Find(u', k) == FinalUnshared(Holders(ms, k), Find(u, k))
      ensures Find(s', k) == FinalShared(Holders(ms, k), Find(s, k))
    {
      assert SameAt(k, Holders(ms, k), u, s, Holders([], k), u', s');
    }
  }
}
