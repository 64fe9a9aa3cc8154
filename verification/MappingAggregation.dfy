/** The cluster-mapping list: all profile mappings of a namespace, grouped by
    (local, remote) pair and deduplicated, in first-seen order. */
module MappingAggregation {
  import opened Prelude

  type Pair = (string, string)

  datatype Mapping = Mapping(local: string, remote: string, pools: seq<Pair>)

  datatype MappingCR = MappingCR(name: string, uid: string, mappings: seq<Mapping>)

  /** A record as Ceph CSI reads it: singleton maps. */
  datatype MappingRecord = MappingRecord(clusterIdMapping: map<string, string>,
                                         rbdPoolIdMapping: seq<map<string, string>>)

  // ------------------------------------------------------------ specification

  function KeyOf(m: Mapping): Pair {
    (m.local, m.remote)
  }

  function AllMappings(crs: seq<MappingCR>): seq<Mapping> {
    if crs == [] then [] else AllMappings(crs[..|crs| - 1]) + crs[|crs| - 1].mappings
  }

  /** First occurrences, in order. */
  function Dedup<T(==)>(s: seq<T>): seq<T> {
    if s == [] then []
    else
      var d := Dedup(s[..|s| - 1]);
      if s[|s| - 1] in d then d else d + [s[|s| - 1]]
  }

  function Keys(ms: seq<Mapping>): seq<Pair> {
    if ms == [] then [] else Keys(ms[..|ms| - 1]) + [KeyOf(ms[|ms| - 1])]
  }

  /** All pool pairs given for `key`, in order, repetitions included. */
  function PoolsOf(ms: seq<Mapping>, key: Pair): seq<Pair> {
    if ms == [] then []
    else
      var m := ms[|ms| - 1];
      PoolsOf(ms[..|ms| - 1], key) + if KeyOf(m) == key then m.pools else []
  }

  function Grouped(ms: seq<Mapping>, key: Pair): Mapping {
    Mapping(key.0, key.1, Dedup(PoolsOf(ms, key)))
  }

  function GroupAll(ms: seq<Mapping>, keys: seq<Pair>): seq<Mapping> {
    if keys == [] then []
    else GroupAll(ms, keys[..|keys| - 1]) + [Grouped(ms, keys[|keys| - 1])]
  }

  /** One entry for each key in first-seen order, holding the deduplicated pool
      pairs of that key in first-seen order. */
  function Aggregate(ms: seq<Mapping>): seq<Mapping> {
    GroupAll(ms, Dedup(Keys(ms)))
  }

  function RenderPools(pools: seq<Pair>): seq<map<string, string>> {
    if pools == [] then []
    else RenderPools(pools[..|pools| - 1]) + [map[pools[|pools| - 1].0 := pools[|pools| - 1].1]]
  }

  function Render(m: Mapping): MappingRecord {
    MappingRecord(map[m.local := m.remote], RenderPools(m.pools))
  }

  function RenderAll(ms: seq<Mapping>): seq<MappingRecord> {
    if ms == [] then [] else RenderAll(ms[..|ms| - 1]) + [Render(ms[|ms| - 1])]
  }

  // ------------------------------------------------- the specification by index

  lemma {:induction false} DedupElements<T(!new)>(s: seq<T>)
    ensures forall x :: x in Dedup(s) <==> x in s
    ensures Distinct(Dedup(s))
  {
    if s != [] {
      DedupElements(s[..|s| - 1]);
      assert s == s[..|s| - 1] + [s[|s| - 1]];
    }
  }

  /** The least position of x in s. */
  function FirstAt<T(==)>(s: seq<T>, x: T): (i: nat)
    requires x in s
    ensures i < |s| && s[i] == x && x !in s[..i]
  {
    if x in s[..|s| - 1] then FirstAt(s[..|s| - 1], x)
    else
      assert s == s[..|s| - 1] + [s[|s| - 1]];
      |s| - 1
  }

  ghost predicate SameElements<T(!new)>(d: seq<T>, s: seq<T>) {
    forall x :: x in d <==> x in s
  }

  /** d holds the elements of s, each once, by increasing first position in s. */
  ghost predicate FirstSeen<T(!new)>(d: seq<T>, s: seq<T>) {
    && SameElements(d, s)
    && (forall i, j :: 0 <= i < j < |d| ==> d[i] in s && d[j] in s && FirstAt(s, d[i]) < FirstAt(s, d[j]))
  }

  lemma FirstAtSnoc<T>(s: seq<T>, x: T)
    ensures forall y :: y in s ==> FirstAt(s + [x], y) == FirstAt(s, y)
    ensures x !in s ==> FirstAt(s + [x], x) == |s|
  {
    TakeOfSnoc(s, x);
  }

  lemma {:induction false} DedupIsFirstSeen<T(!new)>(s: seq<T>)
    ensures FirstSeen(Dedup(s), s)
  {
    DedupElements(s);
    if s != [] {
      var front, x := s[..|s| - 1], s[|s| - 1];
      assert s == front + [x];
      DedupIsFirstSeen(front);
      FirstAtSnoc(front, x);
    }
  }

  lemma SameWithoutLast<T(!new)>(d: seq<T>, s: seq<T>, x: T)
    requires SameElements(d + [x], s + [x]) && x !in d && x !in s
    ensures SameElements(d, s)
  {
    forall y ensures y in d <==> y in s {
      assert y in d + [x] <==> y in d || y == x;
      assert y in s + [x] <==> y in s || y == x;
    }
  }

  lemma LaterIsSeenLater<T(!new)>(d: seq<T>, r: seq<T>, i: nat, j: nat)
    requires FirstSeen(d, r)
    ensures i < j < |d| ==> d[i] in r && d[j] in r && FirstAt(r, d[i]) < FirstAt(r, d[j])
  {
  }

  /** An element seen last stands last. */
  lemma StandsLast<T(!new)>(d: seq<T>, s: seq<T>, x: T)
    requires FirstSeen(d, s + [x]) && x !in s
    ensures d != [] && d[|d| - 1] == x && x !in d[..|d| - 1]
  {
    var r := s + [x];
    FirstAtSnoc(s, x);
    var k := PlaceOf(d, r, x);
    hide FirstSeen;
    LaterIsSeenLater(d, r, k, k + 1);
    assert k == |d| - 1;
    forall j | 0 <= j < |d| - 1 ensures d[j] != x {
      LaterIsSeenLater(d, r, j, k);
    }
  }

  lemma PlaceOf<T(!new)>(d: seq<T>, r: seq<T>, x: T) returns (k: nat)
    requires SameElements(d, r) && x in r
    ensures k < |d| && d[k] == x
  {
    assert x in d;
    k :| 0 <= k < |d| && d[k] == x;
  }

  lemma InBoth<T(!new)>(d: seq<T>, r: seq<T>, i: nat)
    requires SameElements(d, r) && i < |d|
    ensures d[i] in r
  {
  }

  lemma LastSeenIsLast<T(!new)>(d: seq<T>, s: seq<T>, x: T)
    requires FirstSeen(d, s + [x]) && x !in s
    ensures d != [] && d[|d| - 1] == x && FirstSeen(d[..|d| - 1], s)
  {
    StandsLast(d, s, x);
    hide SameElements;
    var e := d[..|d| - 1];
    assert d == e + [x];
    SameWithoutLast(e, s, x);
    FirstAtSnoc(s, x);
    forall i, j | 0 <= i < j < |e| ensures e[i] in s && e[j] in s && FirstAt(s, e[i]) < FirstAt(s, e[j]) {
      InBoth(e, s, i);
      InBoth(e, s, j);
      assert FirstAt(s + [x], d[i]) < FirstAt(s + [x], d[j]);
    }
  }

  lemma NothingSeen<T(!new)>(d: seq<T>, s: seq<T>)
    requires SameElements(d, s) && s == []
    ensures d == []
  {
    hide SameElements;
    if d != [] {
      InBoth(d, s, 0);
    }
  }

  /** Nothing but Dedup(s) is such a sequence. */
  lemma {:induction false} FirstSeenIsDedup<T(!new)>(d: seq<T>, s: seq<T>)
    requires FirstSeen(d, s)
    ensures d == Dedup(s)
  {
    if s == [] {
      NothingSeen(d, s);
    } else {
      var front, x := s[..|s| - 1], s[|s| - 1];
      assert s == front + [x];
      DedupElements(front);
      if x in front {
        FirstAtSnoc(front, x);
        FirstSeenIsDedup(d, front);
      } else {
        LastSeenIsLast(d, front, x);
        FirstSeenIsDedup(d[..|d| - 1], front);
      }
    }
  }

  lemma {:induction false} KeysAt(ms: seq<Mapping>)
    ensures |Keys(ms)| == |ms|
    ensures forall i :: 0 <= i < |ms| ==> Keys(ms)[i] == KeyOf(ms[i])
  {
    if ms != [] {
      KeysAt(ms[..|ms| - 1]);
    }
  }

  lemma {:induction false} GroupAllAt(ms: seq<Mapping>, keys: seq<Pair>)
    ensures |GroupAll(ms, keys)| == |keys|
    ensures forall i :: 0 <= i < |keys| ==> GroupAll(ms, keys)[i] == Grouped(ms, keys[i])
  {
    hide Grouped;
    if keys != [] {
      var n := |keys| - 1;
      GroupAllAt(ms, keys[..n]);
      var front := GroupAll(ms, keys[..n]);
      assert GroupAll(ms, keys) == front + [Grouped(ms, keys[n])];
      forall i | 0 <= i < |keys| ensures GroupAll(ms, keys)[i] == Grouped(ms, keys[i]) {
        assert i < n ==> front[i] == Grouped(ms, keys[..n][i]);
      }
    }
  }

  lemma {:induction false} RenderPoolsAt(pools: seq<Pair>)
    ensures |RenderPools(pools)| == |pools|
    ensures forall i :: 0 <= i < |pools| ==> RenderPools(pools)[i] == map[pools[i].0 := pools[i].1]
  {
    if pools != [] {
      RenderPoolsAt(pools[..|pools| - 1]);
    }
  }

  lemma {:induction false} RenderAllAt(ms: seq<Mapping>)
    ensures |RenderAll(ms)| == |ms|
    ensures forall i :: 0 <= i < |ms| ==> RenderAll(ms)[i] == Render(ms[i])
  {
    if ms != [] {
      RenderAllAt(ms[..|ms| - 1]);
    }
  }

  // ---------------------------------------------------------------- the loops

  lemma DedupSnoc<T(!new)>(s: seq<T>, x: T)
    ensures Dedup(s + [x]) == if x in s then Dedup(s) else Dedup(s) + [x]
  {
    assert (s + [x])[..|s|] == s;
    DedupElements(s);
  }

  lemma PoolsSnoc(ms: seq<Mapping>, m: Mapping, key: Pair)
    ensures PoolsOf(ms + [m], key) == PoolsOf(ms, key) + if KeyOf(m) == key then m.pools else []
  {
    assert (ms + [m])[..|ms|] == ms;
  }

  lemma KeysSnoc(ms: seq<Mapping>, m: Mapping)
    ensures Keys(ms + [m]) == Keys(ms) + [KeyOf(m)]
  {
    assert (ms + [m])[..|ms|] == ms;
  }

  lemma {:induction false} NoPoolsWithoutKey(ms: seq<Mapping>, key: Pair)
    requires key !in Keys(ms)
    ensures PoolsOf(ms, key) == []
  {
    if ms != [] {
      NoPoolsWithoutKey(ms[..|ms| - 1], key);
    }
  }

  lemma GroupedSnoc(ms: seq<Mapping>, m: Mapping, k: Pair)
    ensures Grouped(ms + [m], k) ==
            if k == KeyOf(m) then Mapping(m.local, m.remote, Dedup(PoolsOf(ms, k) + m.pools)) else Grouped(ms, k)
  {
    PoolsSnoc(ms, m, k);
    assert PoolsOf(ms, k) + [] == PoolsOf(ms, k);
  }

  /** The record of a group once one more mapping for its pair is scanned. */
  function Extended(ms: seq<Mapping>, m: Mapping): Mapping {
    Mapping(m.local, m.remote, Dedup(PoolsOf(ms, KeyOf(m)) + m.pools))
  }

  /** Groups of other pairs do not see the new mapping. */
  lemma {:induction false} GroupAllElsewhere(ms: seq<Mapping>, m: Mapping, keys: seq<Pair>)
    requires KeyOf(m) !in keys
    ensures GroupAll(ms + [m], keys) == GroupAll(ms, keys)
  {
    if keys != [] {
      GroupAllElsewhere(ms, m, keys[..|keys| - 1]);
      GroupedSnoc(ms, m, keys[|keys| - 1]);
    }
  }

  lemma {:induction false} GroupAllConcat(ms: seq<Mapping>, a: seq<Pair>, b: seq<Pair>)
    ensures GroupAll(ms, a + b) == GroupAll(ms, a) + GroupAll(ms, b)
    ensures |GroupAll(ms, a)| == |a|
  {
    if b == [] {
      assert a + b == a;
      if a != [] {
        GroupAllConcat(ms, a[..|a| - 1], []);
        assert a[..|a| - 1] + [] == a[..|a| - 1];
      }
    } else {
      GroupAllConcat(ms, a, b[..|b| - 1]);
      TakeOfConcat(a, b);
      ConcatAssociates(GroupAll(ms, a), GroupAll(ms, b[..|b| - 1]), [Grouped(ms, b[|b| - 1])]);
    }
  }

  /** One more mapping for a new pair opens a group at the end. */
  lemma AggregateNewPair(ms: seq<Mapping>, m: Mapping)
    requires KeyOf(m) !in Keys(ms)
    ensures Aggregate(ms + [m]) == Aggregate(ms) + [Extended(ms, m)]
  {
    var key, keys := KeyOf(m), Dedup(Keys(ms));
    KeysSnoc(ms, m);
    DedupSnoc(Keys(ms), key);
    DedupElements(Keys(ms));
    GroupAllElsewhere(ms, m, keys);
    GroupedSnoc(ms, m, key);
    assert (keys + [key])[..|keys|] == keys;
  }

  /** One more mapping for a known pair extends its group in place. */
  lemma AggregateKnownPair(ms: seq<Mapping>, m: Mapping, i: nat)
    requires i < |Dedup(Keys(ms))| && Dedup(Keys(ms))[i] == KeyOf(m)
    ensures i < |Aggregate(ms)| && Aggregate(ms + [m]) == Aggregate(ms)[i := Extended(ms, m)]
  {
    var key, keys := KeyOf(m), Dedup(Keys(ms));
    var a, b := keys[..i], keys[i + 1..];
    SplitAt(keys, i);
    assert key !in a && key !in b by {
      DedupElements(Keys(ms));
    }
    assert Dedup(Keys(ms + [m])) == keys by {
      KeysSnoc(ms, m);
      DedupElements(Keys(ms));
      DedupSnoc(Keys(ms), key);
    }
    GroupAllElsewhere(ms, m, a);
    GroupAllElsewhere(ms, m, b);
    GroupedSnoc(ms, m, key);
    ThreeGroups(ms, a, key, b);
    ThreeGroups(ms + [m], a, key, b);
    UpdateMiddle(GroupAll(ms, a), Grouped(ms, key), GroupAll(ms, b), Extended(ms, m));
  }

  lemma SplitAt<T>(s: seq<T>, i: nat)
    requires i < |s|
    ensures s == s[..i] + [s[i]] + s[i + 1..]
  {
  }

  lemma AppendThenReplace<T>(s: seq<T>, x: T, y: T)
    ensures var t := s + [x];
            |t| == |s| + 1 && t[|s|] == x && t[|s| := y] == s + [y]
  {
  }

  lemma UpdateMiddle<T>(a: seq<T>, x: T, b: seq<T>, y: T)
    ensures (a + [x] + b)[|a| := y] == a + [y] + b
  {
  }

  lemma ThreeGroups(ms: seq<Mapping>, a: seq<Pair>, key: Pair, b: seq<Pair>)
    ensures GroupAll(ms, a + [key] + b) == GroupAll(ms, a) + [Grouped(ms, key)] + GroupAll(ms, b)
    ensures |GroupAll(ms, a)| == |a|
  {
    GroupAllConcat(ms, a, [key]);
    GroupAllConcat(ms, a + [key], b);
    assert [key][..0] == [];
  }

  lemma RenderAllSnoc(ms: seq<Mapping>, m: Mapping)
    ensures RenderAll(ms + [m]) == RenderAll(ms) + [Render(m)]
  {
    assert (ms + [m])[..|ms|] == ms;
  }

  lemma RenderAllUpdate(ms: seq<Mapping>, i: nat, m: Mapping)
    requires i < |ms|
    ensures |RenderAll(ms)| == |ms| && RenderAll(ms[i := m]) == RenderAll(ms)[i := Render(m)]
    ensures RenderAll(ms)[i] == Render(ms[i])
  {
    RenderAllAt(ms);
    RenderAllAt(ms[i := m]);
  }

  lemma RenderPoolsSnoc(pools: seq<Pair>, p: Pair)
    ensures RenderPools(pools + [p]) == RenderPools(pools) + [map[p.0 := p.1]]
  {
    assert (pools + [p])[..|pools|] == pools;
  }

  ghost predicate IndexesKeys(index: map<Pair, nat>, keys: seq<Pair>) {
    && (forall i :: 0 <= i < |keys| ==> keys[i] in index && index[keys[i]] == i)
    && (forall k :: k in index ==> k in keys)
  }

  type SeenKey = (Pair, Pair)

  ghost predicate RecordsSeen(seen: set<SeenKey>, ms: seq<Mapping>) {
    forall k, p :: (k, p) in seen <==> p in PoolsOf(ms, k)
  }

  lemma KnownRecord(done: seq<Mapping>, m: Mapping, i: nat, index: map<Pair, nat>)
    requires IndexesKeys(index, Dedup(Keys(done))) && KeyOf(m) in index && i == index[KeyOf(m)]
    ensures IndexesKeys(index, Dedup(Keys(done + [m])))
    ensures var list := RenderAll(Aggregate(done));
            && i < |list| && list[i] == Render(Grouped(done, KeyOf(m)))
            && RenderAll(Aggregate(done + [m])) == list[i := Render(Extended(done, m))]
  {
    KeysSnoc(done, m);
    DedupSnoc(Keys(done), KeyOf(m));
    DedupElements(Keys(done));
    AggregateKnownPair(done, m, i);
    GroupAllAt(done, Dedup(Keys(done)));
    RenderAllUpdate(Aggregate(done), i, Extended(done, m));
  }

  lemma NewRecord(done: seq<Mapping>, m: Mapping, index: map<Pair, nat>)
    requires IndexesKeys(index, Dedup(Keys(done))) && KeyOf(m) !in index
    ensures RenderPools(Dedup(PoolsOf(done, KeyOf(m)))) == []
    ensures var list := RenderAll(Aggregate(done));
            && IndexesKeys(index[KeyOf(m) := |list|], Dedup(Keys(done + [m])))
            && RenderAll(Aggregate(done + [m])) == list + [Render(Extended(done, m))]
  {
    var keys := Dedup(Keys(done));
    assert KeyOf(m) !in Keys(done) by {
      DedupElements(Keys(done));
    }
    assert |RenderAll(Aggregate(done))| == |keys| by {
      GroupAllAt(done, keys);
      RenderAllAt(Aggregate(done));
    }
    assert Dedup(Keys(done + [m])) == keys + [KeyOf(m)] by {
      KeysSnoc(done, m);
      DedupSnoc(Keys(done), KeyOf(m));
    }
    IndexesOneMore(index, keys, KeyOf(m));
    NoPoolsWithoutKey(done, KeyOf(m));
    AggregateNewPair(done, m);
    RenderAllSnoc(Aggregate(done), Extended(done, m));
  }

  lemma IndexesOneMore(index: map<Pair, nat>, keys: seq<Pair>, key: Pair)
    requires IndexesKeys(index, keys) && key !in index
    ensures IndexesKeys(index[key := |keys|], keys + [key])
  {
  }

  /** The list under construction with its two look-up structures. */
  class Aggregator {
    var indexByPair: map<Pair, nat>
    var alreadySeen: set<SeenKey>
    var list: seq<MappingRecord>

    /** The fields describe the mappings scanned so far. */
    ghost predicate Describes(done: seq<Mapping>)
      reads this
    {
      && IndexesKeys(indexByPair, Dedup(Keys(done)))
      && RecordsSeen(alreadySeen, done)
      && list == RenderAll(Aggregate(done))
    }

    constructor ()
      ensures Describes([])
    {
      indexByPair, alreadySeen, list := map[], {}, [];
    }

    /** Position of the pair's record, appended empty when the pair is new. */
    method Locate(mapping: Mapping, ghost done: seq<Mapping>) returns (index: nat)
      requires IndexesKeys(indexByPair, Dedup(Keys(done)))
      requires list == RenderAll(Aggregate(done))
      modifies this`indexByPair, this`list
      ensures IndexesKeys(indexByPair, Dedup(Keys(done + [mapping])))
      ensures index < |list| && list[index].clusterIdMapping == map[mapping.local := mapping.remote]
      ensures list[index].rbdPoolIdMapping == RenderPools(Dedup(PoolsOf(done, KeyOf(mapping))))
      ensures RenderAll(Aggregate(done + [mapping])) == list[index := Render(Extended(done, mapping))]
    {
      var key := (mapping.local, mapping.remote);
      if key in indexByPair {
        index := indexByPair[key];
        KnownRecord(done, mapping, index, indexByPair);
      } else {
        NewRecord(done, mapping, indexByPair);
        var record := MappingRecord(map[mapping.local := mapping.remote], []);
        AppendThenReplace(list, record, Render(Extended(done, mapping)));
        index := |list|;
        indexByPair := indexByPair[key := index];
        list := list + [record];
      }
    }

    /** Append the pool pairs of one mapping, skipping identical ones. */
    method AppendPools(mapping: Mapping, rendered: seq<map<string, string>>, ghost done: seq<Mapping>)
      returns (pools: seq<map<string, string>>)
      requires rendered == RenderPools(Dedup(PoolsOf(done, KeyOf(mapping)))) && RecordsSeen(alreadySeen, done)
      modifies this`alreadySeen
      ensures pools == RenderPools(Extended(done, mapping).pools)
      ensures RecordsSeen(alreadySeen, done + [mapping])
    {
      var key := (mapping.local, mapping.remote);
      pools := rendered;
      ScanStart(done, mapping, alreadySeen);
      for t := 0 to |mapping.pools|
        invariant Scanned(pools, alreadySeen, done, mapping, t)
      {
        var pair := mapping.pools[t];
        ScanStep(pools, alreadySeen, done, mapping, t);
        if (key, pair) !in alreadySeen {
          pools := pools + [map[pair.0 := pair.1]];
          alreadySeen := alreadySeen + {(key, pair)};
        }
      }
      ScanEnd(pools, alreadySeen, done, mapping);
    }

    method AddMapping(mapping: Mapping, ghost done: seq<Mapping>)
      requires Describes(done)
      modifies this
      ensures Describes(done + [mapping])
    {
      var index := Locate(mapping, done);
      var pools := AppendPools(mapping, list[index].rbdPoolIdMapping, done);
      list := list[index := list[index].(rbdPoolIdMapping := pools)];
    }

    /** Scan every resource, for each every mapping. */
    method Reconcile(crs: seq<MappingCR>)
      requires Describes([])
      modifies this
      ensures list == RenderAll(Aggregate(AllMappings(crs)))
    {
      ghost var done: seq<Mapping> := [];
      for i := 0 to |crs|
        invariant done == AllMappings(crs[..i]) && Describes(done)
      {
        var mappings := crs[i].mappings;
        ghost var start := done;
        for j := 0 to |mappings|
          invariant done == start + mappings[..j] && Describes(done)
        {
          AddMapping(mappings[j], done);
          TakeOneMore(start, mappings, j);
          done := done + [mappings[j]];
        }
        AllMappingsOneMore(crs, i);
        assert mappings[..|mappings|] == mappings;
      }
      assert crs[..|crs|] == crs;
    }
  }

  /** After `t` pool pairs of `m`: what was rendered and what is marked as seen. */
  ghost predicate Scanned(pools: seq<map<string, string>>, seen: set<SeenKey>,
                          done: seq<Mapping>, m: Mapping, t: nat)
    requires t <= |m.pools|
  {
    && pools == RenderPools(Dedup(PoolsOf(done, KeyOf(m)) + m.pools[..t]))
    && (forall k, p :: (k, p) in seen <==> p in PoolsOf(done, k) || (k == KeyOf(m) && p in m.pools[..t]))
  }

  lemma ScanStart(done: seq<Mapping>, m: Mapping, seen: set<SeenKey>)
    requires RecordsSeen(seen, done)
    ensures Scanned(RenderPools(Dedup(PoolsOf(done, KeyOf(m)))), seen, done, m, 0)
  {
    assert PoolsOf(done, KeyOf(m)) + m.pools[..0] == PoolsOf(done, KeyOf(m));
  }

  lemma ScanStep(pools: seq<map<string, string>>, seen: set<SeenKey>, done: seq<Mapping>, m: Mapping, t: nat)
    requires t < |m.pools| && Scanned(pools, seen, done, m, t)
    ensures var p := m.pools[t];
            && ((KeyOf(m), p) in seen ==> Scanned(pools, seen, done, m, t + 1))
            && ((KeyOf(m), p) !in seen ==>
                  Scanned(pools + [map[p.0 := p.1]], seen + {(KeyOf(m), p)}, done, m, t + 1))
  {
    var key, p := KeyOf(m), m.pools[t];
    var before := PoolsOf(done, key) + m.pools[..t];
    TakeOneMore(PoolsOf(done, key), m.pools, t);
    InOneMore(PoolsOf(done, key), m.pools, t);
    DedupSnoc(before, p);
    RenderPoolsSnoc(Dedup(before), p);
  }

  lemma InOneMore(given: seq<Pair>, s: seq<Pair>, t: nat)
    requires t < |s|
    ensures forall p :: p in s[..t + 1] <==> p in s[..t] || p == s[t]
    ensures forall p :: p in given + s[..t] <==> p in given || p in s[..t]
  {
  }

  lemma ScanEnd(pools: seq<map<string, string>>, seen: set<SeenKey>, done: seq<Mapping>, m: Mapping)
    requires Scanned(pools, seen, done, m, |m.pools|)
    ensures pools == RenderPools(Extended(done, m).pools)
    ensures RecordsSeen(seen, done + [m])
  {
    assert m.pools[..|m.pools|] == m.pools;
    forall k, p ensures (k, p) in seen <==> p in PoolsOf(done + [m], k) {
      PoolsSnoc(done, m, k);
    }
  }

  lemma TakeOneMore<T>(start: seq<T>, s: seq<T>, j: nat)
    requires j < |s|
    ensures start + s[..j + 1] == start + s[..j] + [s[j]]
  {
  }

  lemma AllMappingsOneMore(crs: seq<MappingCR>, i: nat)
    requires i < |crs|
    ensures AllMappings(crs[..i + 1]) == AllMappings(crs[..i]) + crs[i].mappings
  {
    assert crs[..i + 1][..i] == crs[..i];
  }

  // ------------------------------------------------------------ what it means

  /** (local, remote) is offered the pool pair `p` by some mapping. */
  ghost predicate Offers(ms: seq<Mapping>, key: Pair, p: Pair) {
    exists i :: 0 <= i < |ms| && KeyOf(ms[i]) == key && p in ms[i].pools
  }

  ghost predicate HasPair(ms: seq<Mapping>, key: Pair) {
    exists i :: 0 <= i < |ms| && KeyOf(ms[i]) == key
  }

  lemma {:induction false} PoolsAreOffered(ms: seq<Mapping>, key: Pair, p: Pair)
    ensures p in PoolsOf(ms, key) <==> Offers(ms, key, p)
  {
    if ms != [] {
      var front, m := ms[..|ms| - 1], ms[|ms| - 1];
      PoolsAreOffered(front, key, p);
      if Offers(front, key, p) {
        var i :| 0 <= i < |front| && KeyOf(front[i]) == key && p in front[i].pools;
        assert ms[i] == front[i];
      }
      if Offers(ms, key, p) && !(KeyOf(m) == key && p in m.pools) {
        var i :| 0 <= i < |ms| && KeyOf(ms[i]) == key && p in ms[i].pools;
        assert front[i] == ms[i];
      }
    }
  }

  /** One entry for each pair, pairs and pool pairs listed by where they first occur. */
  lemma AggregateShape(ms: seq<Mapping>)
    ensures var out := Aggregate(ms);
            && Keys(out) == Dedup(Keys(ms)) && |out| == |Keys(out)|
            && (forall i :: 0 <= i < |out| ==> out[i] == Grouped(ms, KeyOf(out[i])) && KeyOf(out[i]) == Keys(out)[i])
            && Distinct(Keys(out))
            && (forall k :: k in Keys(out) <==> k in Keys(ms))
            && FirstSeen(Keys(out), Keys(ms))
            && (forall i :: 0 <= i < |out| ==> FirstSeen(out[i].pools, PoolsOf(ms, KeyOf(out[i]))))
  {
    GroupAllAt(ms, Dedup(Keys(ms)));
    KeysAt(Aggregate(ms));
    DedupElements(Keys(ms));
    DedupIsFirstSeen(Keys(ms));
    hide FirstSeen;
    forall i | 0 <= i < |Aggregate(ms)|
      ensures FirstSeen(Aggregate(ms)[i].pools, PoolsOf(ms, KeyOf(Aggregate(ms)[i])))
    {
      DedupIsFirstSeen(PoolsOf(ms, KeyOf(Aggregate(ms)[i])));
    }
  }

  lemma PairsAreKeys(ms: seq<Mapping>, key: Pair)
    ensures HasPair(ms, key) <==> key in Keys(ms)
  {
    KeysAt(ms);
  }

  /** The output offers exactly what the input offers, one entry for each pair, no
      pool pair twice. */
  lemma AggregateMeaning(ms: seq<Mapping>)
    ensures var out := Aggregate(ms);
            && Distinct(Keys(out))
            && (forall i :: 0 <= i < |out| ==> Distinct(out[i].pools))
            && (forall key :: HasPair(out, key) <==> HasPair(ms, key))
            && (forall key, p :: Offers(out, key, p) <==> Offers(ms, key, p))
  {
    hide FirstSeen;
    var out, keys := Aggregate(ms), Dedup(Keys(ms));
    AggregateShape(ms);
    forall key ensures HasPair(out, key) <==> HasPair(ms, key) {
      PairsAreKeys(ms, key);
      PairsAreKeys(out, key);
    }
    forall i | 0 <= i < |out| ensures Distinct(out[i].pools) {
      DedupElements(PoolsOf(ms, KeyOf(out[i])));
    }
    forall key, p ensures Offers(out, key, p) <==> Offers(ms, key, p) {
      PoolsAreOffered(ms, key, p);
      DedupElements(PoolsOf(ms, key));
      if Offers(ms, key, p) {
        assert HasPair(ms, key);
        var j :| 0 <= j < |out| && KeyOf(out[j]) == key;
        assert p in out[j].pools;
      }
    }
  }

  /** The stored list says of two clusters that a pool of the one is a pool of the other. */
  ghost predicate Says(list: seq<MappingRecord>, local: string, remote: string, pool: string, remotePool: string) {
    exists i :: 0 <= i < |list| && list[i].clusterIdMapping == map[local := remote] &&
      map[pool := remotePool] in list[i].rbdPoolIdMapping
  }

  /** Some mapping of some resource says so. */
  ghost predicate Given(crs: seq<MappingCR>, local: string, remote: string, pool: string, remotePool: string) {
    exists i, j :: 0 <= i < |crs| && 0 <= j < |crs[i].mappings| &&
      crs[i].mappings[j].local == local && crs[i].mappings[j].remote == remote &&
      (pool, remotePool) in crs[i].mappings[j].pools
  }

  lemma RenderedSays(ms: seq<Mapping>, local: string, remote: string, pool: string, remotePool: string)
    ensures Says(RenderAll(ms), local, remote, pool, remotePool) <==> Offers(ms, (local, remote), (pool, remotePool))
  {
    RenderAllAt(ms);
    var list := RenderAll(ms);
    if Offers(ms, (local, remote), (pool, remotePool)) {
      var i :| 0 <= i < |ms| && KeyOf(ms[i]) == (local, remote) && (pool, remotePool) in ms[i].pools;
      var k :| 0 <= k < |ms[i].pools| && ms[i].pools[k] == (pool, remotePool);
      RenderPoolsAt(ms[i].pools);
      assert RenderPools(ms[i].pools)[k] == map[pool := remotePool];
      assert list[i] == Render(ms[i]);
    }
    if Says(list, local, remote, pool, remotePool) {
      var i :| 0 <= i < |list| && list[i].clusterIdMapping == map[local := remote] &&
        map[pool := remotePool] in list[i].rbdPoolIdMapping;
      assert list[i] == Render(ms[i]);
      SingletonMapsAgree(ms[i].local, ms[i].remote, local, remote);
      RenderPoolsAt(ms[i].pools);
      var k :| 0 <= k < |ms[i].pools| && RenderPools(ms[i].pools)[k] == map[pool := remotePool];
      SingletonMapsAgree(ms[i].pools[k].0, ms[i].pools[k].1, pool, remotePool);
      assert ms[i].pools[k] == (pool, remotePool);
    }
  }

  lemma GivenIsOffered(crs: seq<MappingCR>, local: string, remote: string, pool: string, remotePool: string)
    ensures Given(crs, local, remote, pool, remotePool) <==> Offers(AllMappings(crs), (local, remote), (pool, remotePool))
  {
    var key, p := (local, remote), (pool, remotePool);
    OffersOfAll(crs, key, p);
    if Given(crs, local, remote, pool, remotePool) {
      var i, j :| 0 <= i < |crs| && 0 <= j < |crs[i].mappings| &&
        crs[i].mappings[j].local == local && crs[i].mappings[j].remote == remote && p in crs[i].mappings[j].pools;
      assert KeyOf(crs[i].mappings[j]) == key;
      assert crs[i] in crs && Offers(crs[i].mappings, key, p);
    }
    if cr :| cr in crs && Offers(cr.mappings, key, p) {
      var i :| 0 <= i < |crs| && crs[i] == cr;
      var j :| 0 <= j < |cr.mappings| && KeyOf(cr.mappings[j]) == key && p in cr.mappings[j].pools;
      assert crs[i].mappings[j].local == local;
    }
  }

  /** From the resources to the stored text: it says what the resources say, no more and
      no less. */
  lemma StoredFacts(crs: seq<MappingCR>, local: string, remote: string, pool: string, remotePool: string)
    ensures Says(RenderAll(Aggregate(AllMappings(crs))), local, remote, pool, remotePool) <==>
            Given(crs, local, remote, pool, remotePool)
  {
    AggregateMeaning(AllMappings(crs));
    RenderedSays(Aggregate(AllMappings(crs)), local, remote, pool, remotePool);
    GivenIsOffered(crs, local, remote, pool, remotePool);
  }

  /** The set of (local, remote, pool, pool) facts does not depend on the order of
      the resources nor on how their mappings are split over resources. */
  lemma OrderAndSplitDoNotMatter(crs1: seq<MappingCR>, crs2: seq<MappingCR>)
    requires forall key, p :: Offers(AllMappings(crs1), key, p) <==> Offers(AllMappings(crs2), key, p)
    requires forall key :: HasPair(AllMappings(crs1), key) <==> HasPair(AllMappings(crs2), key)
    ensures var o1, o2 := Aggregate(AllMappings(crs1)), Aggregate(AllMappings(crs2));
            && (forall key, p :: Offers(o1, key, p) <==> Offers(o2, key, p))
            && multiset(Keys(o1)) == multiset(Keys(o2))
  {
    var m1, m2 := AllMappings(crs1), AllMappings(crs2);
    AggregateMeaning(m1);
    AggregateMeaning(m2);
    var k1, k2 := Keys(Aggregate(m1)), Keys(Aggregate(m2));
    forall key ensures key in k1 <==> key in k2 {
      PairsAreKeys(Aggregate(m1), key);
      PairsAreKeys(Aggregate(m2), key);
    }
    SameElementsSameMultiset(k1, k2);
  }

  lemma DistinctCounts<T>(s: seq<T>, x: T)
    requires Distinct(s)
    ensures multiset(s)[x] == if x in s then 1 else 0
  {
    if s != [] {
      assert s == s[..|s| - 1] + [s[|s| - 1]];
      DistinctCounts(s[..|s| - 1], x);
    }
  }

  lemma SameElementsSameMultiset<T(!new)>(a: seq<T>, b: seq<T>)
    requires Distinct(a) && Distinct(b) && forall x :: x in a <==> x in b
    ensures multiset(a) == multiset(b)
  {
    forall x ensures multiset(a)[x] == multiset(b)[x] {
      DistinctCounts(a, x);
      DistinctCounts(b, x);
    }
  }

  /** Reordering the resources is one way to offer the same. */
  lemma {:induction false} OffersOfAll(crs: seq<MappingCR>, key: Pair, p: Pair)
    ensures Offers(AllMappings(crs), key, p) <==> exists cr :: cr in crs && Offers(cr.mappings, key, p)
    ensures HasPair(AllMappings(crs), key) <==> exists cr :: cr in crs && HasPair(cr.mappings, key)
  {
    if crs != [] {
      var front, last := crs[..|crs| - 1], crs[|crs| - 1];
      OffersOfAll(front, key, p);
      OffersOfConcat(AllMappings(front), last.mappings, key, p);
      assert forall cr :: cr in crs <==> cr in front || cr == last;
    }
  }

  lemma OffersOfConcat(a: seq<Mapping>, b: seq<Mapping>, key: Pair, p: Pair)
    ensures Offers(a + b, key, p) <==> Offers(a, key, p) || Offers(b, key, p)
    ensures HasPair(a + b, key) <==> HasPair(a, key) || HasPair(b, key)
  {
    var c := a + b;
    assert forall i :: 0 <= i < |a| ==> c[i] == a[i];
    assert forall i :: 0 <= i < |b| ==> c[|a| + i] == b[i];
    if HasPair(c, key) {
      var i :| 0 <= i < |c| && KeyOf(c[i]) == key;
      assert if i < |a| then a[i] == c[i] else b[i - |a|] == c[i];
    }
    if Offers(c, key, p) {
      var i :| 0 <= i < |c| && KeyOf(c[i]) == key && p in c[i].pools;
      assert if i < |a| then a[i] == c[i] else b[i - |a|] == c[i];
    }
  }

  lemma ListOrderDoesNotMatter(crs1: seq<MappingCR>, crs2: seq<MappingCR>)
    requires multiset(crs1) == multiset(crs2)
    ensures var o1, o2 := Aggregate(AllMappings(crs1)), Aggregate(AllMappings(crs2));
            && (forall key, p :: Offers(o1, key, p) <==> Offers(o2, key, p))
            && multiset(Keys(o1)) == multiset(Keys(o2))
  {
    assert forall cr :: cr in crs1 <==> cr in multiset(crs1);
    assert forall cr :: cr in crs2 <==> cr in multiset(crs2);
    forall key, p
      ensures Offers(AllMappings(crs1), key, p) <==> Offers(AllMappings(crs2), key, p)
    {
      OffersOfAll(crs1, key, p);
      OffersOfAll(crs2, key, p);
    }
    forall key
      ensures HasPair(AllMappings(crs1), key) <==> HasPair(AllMappings(crs2), key)
    {
      OffersOfAll(crs1, key, ("", ""));
      OffersOfAll(crs2, key, ("", ""));
    }
    OrderAndSplitDoNotMatter(crs1, crs2);
  }

  /** Dividing one mapping's pool pairs over two mappings changes nothing at all. */
  lemma SplitMappingIsSameMapping(before: seq<Mapping>, m: Mapping, p1: seq<Pair>, p2: seq<Pair>)
    requires m.pools == p1 + p2
    ensures Aggregate(before + [m]) == Aggregate(before + [m.(pools := p1)] + [m.(pools := p2)])
  {
    var a, b := m.(pools := p1), m.(pools := p2);
    var key := KeyOf(m);
    KeysSnoc(before, m);
    KeysSnoc(before, a);
    KeysSnoc(before + [a], b);
    DedupSnoc(Keys(before), key);
    DedupSnoc(Keys(before) + [key], key);
    var keys := Dedup(Keys(before + [m]));
    assert keys == Dedup(Keys(before + [a] + [b]));
    GroupAllAt(before + [m], keys);
    GroupAllAt(before + [a] + [b], keys);
    forall i | 0 <= i < |keys| ensures Aggregate(before + [m])[i] == Aggregate(before + [a] + [b])[i] {
      SplitPools(before, m, p1, p2, keys[i]);
    }
  }

  lemma SplitPools(before: seq<Mapping>, m: Mapping, p1: seq<Pair>, p2: seq<Pair>, k: Pair)
    requires m.pools == p1 + p2
    ensures PoolsOf(before + [m], k) == PoolsOf(before + [m.(pools := p1)] + [m.(pools := p2)], k)
  {
    PoolsSnoc(before, m, k);
    PoolsSnoc(before, m.(pools := p1), k);
    PoolsSnoc(before + [m.(pools := p1)], m.(pools := p2), k);
    ConcatAssociates(PoolsOf(before, k), p1, p2);
  }

  // ------------------------------------------------------------- fed back in

  lemma {:induction false} DedupOfDistinct<T(!new)>(s: seq<T>)
    requires Distinct(s)
    ensures Dedup(s) == s
  {
    if s != [] {
      DedupOfDistinct(s[..|s| - 1]);
      assert s == s[..|s| - 1] + [s[|s| - 1]];
    }
  }

  lemma {:induction false} PoolsOfDistinctKeys(ms: seq<Mapping>, i: nat)
    requires Distinct(Keys(ms)) && i < |ms|
    ensures PoolsOf(ms, KeyOf(ms[i])) == ms[i].pools
  {
    var front, m := ms[..|ms| - 1], ms[|ms| - 1];
    var keys := Keys(front);
    KeysAt(ms);
    KeysAt(front);
    assert Keys(ms) == keys + [KeyOf(m)];
    assert forall j :: 0 <= j < |front| ==> Keys(ms)[j] == keys[j] && keys[j] != Keys(ms)[|front|];
    if i == |front| {
      NoPoolsWithoutKey(front, KeyOf(m));
    } else {
      assert forall j, k :: 0 <= j < k < |front| ==> Keys(ms)[j] != Keys(ms)[k];
      PoolsOfDistinctKeys(front, i);
    }
  }

  /** Aggregating an aggregate reproduces it, entry for entry. */
  lemma AggregateTwice(ms: seq<Mapping>)
    ensures Aggregate(Aggregate(ms)) == Aggregate(ms)
  {
    var out := Aggregate(ms);
    AggregateMeaning(ms);
    AggregateShape(ms);
    DedupOfDistinct(Keys(out));
    GroupAllAt(out, Keys(out));
    forall i | 0 <= i < |out| ensures Aggregate(out)[i] == out[i] {
      PoolsOfDistinctKeys(out, i);
      DedupOfDistinct(out[i].pools);
    }
  }

  /** The rendered list determines the aggregate: nothing is lost by the singleton maps. */
  lemma RenderIsInjective(a: seq<Mapping>, b: seq<Mapping>)
    requires RenderAll(a) == RenderAll(b)
    ensures a == b
  {
    RenderAllAt(a);
    RenderAllAt(b);
    forall i | 0 <= i < |a| ensures a[i] == b[i] {
      assert Render(a[i]) == RenderAll(a)[i] == RenderAll(b)[i] == Render(b[i]);
      SingletonMapsAgree(a[i].local, a[i].remote, b[i].local, b[i].remote);
      var pa, pb := a[i].pools, b[i].pools;
      RenderPoolsAt(pa);
      RenderPoolsAt(pb);
      forall j | 0 <= j < |pa| ensures pa[j] == pb[j] {
        assert RenderPools(pa)[j] == RenderPools(pb)[j];
        SingletonMapsAgree(pa[j].0, pa[j].1, pb[j].0, pb[j].1);
      }
    }
  }

  lemma SingletonMapsAgree(k1: string, v1: string, k2: string, v2: string)
    requires map[k1 := v1] == map[k2 := v2]
    ensures k1 == k2 && v1 == v2
  {
    assert k1 in map[k2 := v2];
    assert map[k1 := v1][k1] == v1;
  }
}
