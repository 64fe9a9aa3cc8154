/** Merging a source list into a destination list by key: the index-map algorithm
    refines a fold of linear "replace the last match, else append" steps. */
module KeyedMerge {
  import opened Prelude

  /** Position of the last item with key `key`, or -1. */
  function LastIndex<D>(dest: seq<D>, getKey: D -> string, key: string): (i: int)
    ensures -1 <= i < |dest|
    ensures i >= 0 ==> getKey(dest[i]) == key
    ensures forall j :: i < j < |dest| ==> getKey(dest[j]) != key
  {
    if dest == [] then -1
    else if getKey(dest[|dest| - 1]) == key then |dest| - 1
    else LastIndex(dest[..|dest| - 1], getKey, key)
  }

  predicate HasKey<D>(dest: seq<D>, getKey: D -> string, key: string) {
    LastIndex(dest, getKey, key) >= 0
  }

  function UpsertItem<D>(dest: seq<D>, d: D, getKey: D -> string): seq<D> {
    var i := LastIndex(dest, getKey, getKey(d));
    if i >= 0 then dest[i := d] else dest + [d]
  }

  /** What a source item contributes: nothing when the transform refuses it or
      when its key is empty. */
  function Accepted<S, D>(s: S, transform: S -> Option<D>, getKey: D -> string): (d: Option<D>)
    ensures d.Some? ==> getKey(d.value) != ""
  {
    var d := transform(s);
    if d.Some? && getKey(d.value) != "" then d else None
  }

  function MergeItem<S, D>(dest: seq<D>, s: S, transform: S -> Option<D>, getKey: D -> string): seq<D> {
    match Accepted(s, transform, getKey)
    case None => dest
    case Some(d) => UpsertItem(dest, d, getKey)
  }

  /** The linear specification: source items are merged one by one. */
  function Merge<S, D>(dest: seq<D>, src: seq<S>, transform: S -> Option<D>, getKey: D -> string): seq<D> {
    if src == [] then dest
    else MergeItem(Merge(dest, src[..|src| - 1], transform, getKey), src[|src| - 1], transform, getKey)
  }

  /** The index map in use: each non-empty key of `dest` is mapped to its last position. */
  ghost predicate Indexes<D>(index: map<string, int>, dest: seq<D>, getKey: D -> string) {
    && (forall k :: k in index <==> k != "" && HasKey(dest, getKey, k))
    && (forall k :: k in index ==> index[k] == LastIndex(dest, getKey, k))
  }

  lemma LastIndexIs<D>(dest: seq<D>, getKey: D -> string, key: string, i: int)
    requires -1 <= i < |dest|
    requires i >= 0 ==> getKey(dest[i]) == key
    requires forall j :: i < j < |dest| ==> getKey(dest[j]) != key
    ensures LastIndex(dest, getKey, key) == i
  {
  }

  lemma LastIndexAfterUpsert<D>(dest: seq<D>, d: D, getKey: D -> string, key: string)
    ensures var i := LastIndex(dest, getKey, getKey(d));
            LastIndex(UpsertItem(dest, d, getKey), getKey, key) ==
            if key == getKey(d) then (if i >= 0 then i else |dest|) else LastIndex(dest, getKey, key)
  {
    var i := LastIndex(dest, getKey, getKey(d));
    var k := LastIndex(dest, getKey, key);
    LastIndexIs(UpsertItem(dest, d, getKey), getKey, key,
                if key == getKey(d) then (if i >= 0 then i else |dest|) else k);
  }

  lemma LastIndexAfterAppend<D>(dest: seq<D>, d: D, getKey: D -> string, key: string)
    ensures LastIndex(dest + [d], getKey, key) == if key == getKey(d) then |dest| else LastIndex(dest, getKey, key)
  {
    TakeOfSnoc(dest, d);
  }

  lemma IndexAfterAppend<D>(index: map<string, int>, dest: seq<D>, d: D, getKey: D -> string)
    requires Indexes(index, dest, getKey)
    ensures Indexes(if getKey(d) != "" then index[getKey(d) := |dest|] else index, dest + [d], getKey)
  {
    forall k { LastIndexAfterAppend(dest, d, getKey, k); }
    hide LastIndex;
  }

  lemma IndexAfterUpsert<D>(index: map<string, int>, dest: seq<D>, d: D, getKey: D -> string)
    requires Indexes(index, dest, getKey) && getKey(d) != ""
    ensures var key := getKey(d);
            && (key in index ==> 0 <= index[key] < |dest| && UpsertItem(dest, d, getKey) == dest[index[key] := d])
            && (key !in index ==> UpsertItem(dest, d, getKey) == dest + [d])
            && Indexes(if key in index then index else index[key := |dest|], UpsertItem(dest, d, getKey), getKey)
  {
    forall k { LastIndexAfterUpsert(dest, d, getKey, k); }
    hide LastIndex;
  }

  lemma MergeOneItem<S, D>(dest: seq<D>, src: seq<S>, n: nat, transform: S -> Option<D>, getKey: D -> string)
    requires n < |src|
    ensures Merge(dest, src[..n + 1], transform, getKey) ==
            MergeItem(Merge(dest, src[..n], transform, getKey), src[n], transform, getKey)
  {
    assert src[..n + 1][..n] == src[..n];
  }

  method MapMergeByKey<S, D>(dest0: seq<D>, src: seq<S>, transform: S -> Option<D>, getKey: D -> string)
    returns (dest: seq<D>)
    ensures dest == Merge(dest0, src, transform, getKey)
  {
    dest := dest0;
    var indexMap: map<string, int> := map[];
    for i := 0 to |dest|
      invariant dest == dest0
      invariant Indexes(indexMap, dest[..i], getKey)
    {
      IndexAfterAppend(indexMap, dest[..i], dest[i], getKey);
      assert dest[..i + 1] == dest[..i] + [dest[i]];
      var key := getKey(dest[i]);
      if key != "" {
        indexMap := indexMap[key := i];
      }
    }
    assert dest[..|dest|] == dest;
    for n := 0 to |src|
      invariant dest == Merge(dest0, src[..n], transform, getKey)
      invariant Indexes(indexMap, dest, getKey)
    {
      MergeOneItem(dest0, src, n, transform, getKey);
      var t := transform(src[n]);
      if t.None? {
        continue;
      }
      var d := t.value;
      var key := getKey(d);
      if key == "" {
        continue;
      }
      IndexAfterUpsert(indexMap, dest, d, getKey);
      if key in indexMap {
        dest := dest[indexMap[key] := d];
      } else {
        indexMap := indexMap[key := |dest|];
        dest := dest + [d];
      }
    }
    assert src[..|src|] == src;
  }

  // ------------------------------------------------------------- what it means

  /** The last accepted source item with key `key`. */
  function LastAccepted<S, D>(src: seq<S>, transform: S -> Option<D>, getKey: D -> string, key: string): (d: Option<D>)
    ensures d.Some? ==> getKey(d.value) == key != ""
  {
    if src == [] then None
    else
      var a := Accepted(src[|src| - 1], transform, getKey);
      if a.Some? && getKey(a.value) == key then a
      else LastAccepted(src[..|src| - 1], transform, getKey, key)
  }

  ghost predicate UniqueKeys<D>(dest: seq<D>, getKey: D -> string) {
    forall i, j :: 0 <= i < j < |dest| && getKey(dest[i]) != "" ==> getKey(dest[i]) != getKey(dest[j])
  }

  /** Positions and keys of the destination are kept; the last match of a key that
      the source offers holds the last accepted item, every other old position is
      untouched; what is appended has new, pairwise different keys. */
  ghost predicate IsMergeOf<S, D>(result: seq<D>, dest: seq<D>, src: seq<S>,
                                  transform: S -> Option<D>, getKey: D -> string) {
    && |dest| <= |result|
    && (forall i :: 0 <= i < |dest| ==> OldPosition(result, dest, src, transform, getKey, i))
    && (forall i :: |dest| <= i < |result| ==> NewPosition(result, dest, src, transform, getKey, i))
    && (forall key :: HasKey(result, getKey, key) <==>
          HasKey(dest, getKey, key) || LastAccepted(src, transform, getKey, key).Some?)
  }

  ghost predicate OldPosition<S, D>(result: seq<D>, dest: seq<D>, src: seq<S>,
                                    transform: S -> Option<D>, getKey: D -> string, i: nat)
    requires i < |dest| <= |result|
  {
    var key := getKey(dest[i]);
    var last := LastAccepted(src, transform, getKey, key);
    result[i] == if last.Some? && i == LastIndex(dest, getKey, key) then last.value else dest[i]
  }

  ghost predicate NewPosition<S, D>(result: seq<D>, dest: seq<D>, src: seq<S>,
                                    transform: S -> Option<D>, getKey: D -> string, i: nat)
    requires |dest| <= i < |result|
  {
    var key := getKey(result[i]);
    && LastAccepted(src, transform, getKey, key) == Some(result[i])
    && !HasKey(dest, getKey, key)
    && LastIndex(result, getKey, key) == i
    && (forall j :: |dest| <= j < i ==> getKey(result[j]) != key)
  }

  lemma {:induction false} MergeMeaning<S, D>(dest: seq<D>, src: seq<S>, transform: S -> Option<D>, getKey: D -> string)
    ensures IsMergeOf(Merge(dest, src, transform, getKey), dest, src, transform, getKey)
  {
    if src != [] {
      var front, s := src[..|src| - 1], src[|src| - 1];
      MergeMeaning(dest, front, transform, getKey);
      var r := Merge(dest, front, transform, getKey);
      var a := Accepted(s, transform, getKey);
      if a.Some? {
        MergeOneMore(r, dest, front, src, a.value, transform, getKey);
      } else {
        forall key ensures LastAccepted(src, transform, getKey, key) == LastAccepted(front, transform, getKey, key) {}
        forall i | 0 <= i < |dest| ensures OldPosition(r, dest, src, transform, getKey, i) {
          assert OldPosition(r, dest, front, transform, getKey, i);
        }
        forall i | |dest| <= i < |r| ensures NewPosition(r, dest, src, transform, getKey, i) {
          assert NewPosition(r, dest, front, transform, getKey, i);
        }
      }
    }
  }

  lemma MergeOneMore<S, D>(r: seq<D>, dest: seq<D>, front: seq<S>, src: seq<S>, d: D,
                           transform: S -> Option<D>, getKey: D -> string)
    requires src != [] && front == src[..|src| - 1]
    requires Accepted(src[|src| - 1], transform, getKey) == Some(d)
    requires IsMergeOf(r, dest, front, transform, getKey)
    ensures IsMergeOf(UpsertItem(r, d, getKey), dest, src, transform, getKey)
  {
    var r' := UpsertItem(r, d, getKey);
    var at := LastIndex(r, getKey, getKey(d));
    forall key { LastIndexAfterUpsert(r, d, getKey, key); }
    LastMatchKept(r, dest, front, transform, getKey, getKey(d));
    forall i | 0 <= i < |dest| ensures OldPosition(r', dest, src, transform, getKey, i) {
      assert OldPosition(r, dest, front, transform, getKey, i);
    }
    forall i | |dest| <= i < |r'| ensures NewPosition(r', dest, src, transform, getKey, i) {
      NewPositionStays(r, dest, front, src, d, transform, getKey, i);
    }
    forall key
      ensures HasKey(r', getKey, key) <==>
              HasKey(dest, getKey, key) || LastAccepted(src, transform, getKey, key).Some?
    {
      assert LastAccepted(src, transform, getKey, key) ==
             if key == getKey(d) then Some(d) else LastAccepted(front, transform, getKey, key);
    }
  }

  lemma NewPositionStays<S, D>(r: seq<D>, dest: seq<D>, front: seq<S>, src: seq<S>, d: D,
                               transform: S -> Option<D>, getKey: D -> string, i: nat)
    requires src != [] && front == src[..|src| - 1]
    requires Accepted(src[|src| - 1], transform, getKey) == Some(d)
    requires IsMergeOf(r, dest, front, transform, getKey)
    requires |dest| <= i < |UpsertItem(r, d, getKey)|
    ensures NewPosition(UpsertItem(r, d, getKey), dest, src, transform, getKey, i)
  {
    var r' := UpsertItem(r, d, getKey);
    LastIndexAfterUpsert(r, d, getKey, getKey(r'[i]));
    LastMatchKept(r, dest, front, transform, getKey, getKey(d));
    if i < |r| {
      assert NewPosition(r, dest, front, transform, getKey, i);
      assert getKey(r'[i]) == getKey(r[i]);
      assert forall j :: 0 <= j < i ==> getKey(r'[j]) == getKey(r[j]);
    }
  }

  /** A key of the destination still has its last match where it was. */
  lemma LastMatchKept<S, D>(r: seq<D>, dest: seq<D>, src: seq<S>, transform: S -> Option<D>, getKey: D -> string,
                            key: string)
    requires IsMergeOf(r, dest, src, transform, getKey)
    ensures HasKey(dest, getKey, key) ==> LastIndex(r, getKey, key) == LastIndex(dest, getKey, key)
    ensures !HasKey(dest, getKey, key) && HasKey(r, getKey, key) ==> LastIndex(r, getKey, key) >= |dest|
  {
    forall i | 0 <= i < |dest| ensures getKey(r[i]) == getKey(dest[i]) {
      assert OldPosition(r, dest, src, transform, getKey, i);
    }
    if HasKey(dest, getKey, key) {
      forall i | |dest| <= i < |r| ensures getKey(r[i]) != key {
        assert NewPosition(r, dest, src, transform, getKey, i);
      }
      LastIndexIs(r, getKey, key, LastIndex(dest, getKey, key));
    }
  }

  lemma {:induction false} UniqueKeysStayUnique<S, D>(dest: seq<D>, src: seq<S>, transform: S -> Option<D>, getKey: D -> string)
    requires UniqueKeys(dest, getKey)
    ensures UniqueKeys(Merge(dest, src, transform, getKey), getKey)
  {
    MergeMeaning(dest, src, transform, getKey);
    var r := Merge(dest, src, transform, getKey);
    forall i, j | 0 <= i < j < |r| && getKey(r[i]) != "" ensures getKey(r[i]) != getKey(r[j]) {
      forall k | 0 <= k < |dest| ensures getKey(r[k]) == getKey(dest[k]) {
        assert OldPosition(r, dest, src, transform, getKey, k);
      }
      if j >= |dest| {
        assert NewPosition(r, dest, src, transform, getKey, j);
      }
    }
  }

  lemma {:induction false} MergeInTwoParts<S, D>(dest: seq<D>, s1: seq<S>, s2: seq<S>,
                                                 transform: S -> Option<D>, getKey: D -> string)
    ensures Merge(Merge(dest, s1, transform, getKey), s2, transform, getKey) ==
            Merge(dest, s1 + s2, transform, getKey)
  {
    if s2 == [] {
      assert s1 + s2 == s1;
    } else {
      MergeInTwoParts(dest, s1, s2[..|s2| - 1], transform, getKey);
      assert (s1 + s2)[..|s1 + s2| - 1] == s1 + s2[..|s2| - 1];
    }
  }

  lemma MergeTwiceIsMergeOnce<S, D>(dest: seq<D>, src: seq<S>, transform: S -> Option<D>, getKey: D -> string)
    ensures var once := Merge(dest, src, transform, getKey);
            Merge(once, src, transform, getKey) == once
  {
    var once := Merge(dest, src, transform, getKey);
    var twice := Merge(once, src, transform, getKey);
    MergeMeaning(dest, src, transform, getKey);
    MergeMeaning(once, src, transform, getKey);
    assert |twice| > |once| ==> NewPosition(twice, once, src, transform, getKey, |once|);
    forall i | 0 <= i < |once| ensures twice[i] == once[i] {
      assert OldPosition(twice, once, src, transform, getKey, i);
      LastMatchKept(once, dest, src, transform, getKey, getKey(once[i]));
      if i < |dest| {
        assert OldPosition(once, dest, src, transform, getKey, i);
      } else {
        assert NewPosition(once, dest, src, transform, getKey, i);
      }
    }
  }

  /** Some item of the source is accepted with this key. */
  ghost predicate Offers<S, D>(src: seq<S>, transform: S -> Option<D>, getKey: D -> string, key: string) {
    key != "" && exists i :: 0 <= i < |src| && transform(src[i]).Some? && getKey(transform(src[i]).value) == key
  }

  ghost predicate Holds<D>(dest: seq<D>, getKey: D -> string, key: string) {
    exists i :: 0 <= i < |dest| && getKey(dest[i]) == key
  }

  /** The keys of a merge: those of the destination and the accepted ones of the source. */
  lemma MergedKeys<S, D>(dest: seq<D>, src: seq<S>, transform: S -> Option<D>, getKey: D -> string, key: string)
    ensures Holds(Merge(dest, src, transform, getKey), getKey, key) <==>
            Holds(dest, getKey, key) || Offers(src, transform, getKey, key)
  {
    MergeMeaning(dest, src, transform, getKey);
    HasKeyMeaning(dest, getKey, key);
    HasKeyMeaning(Merge(dest, src, transform, getKey), getKey, key);
    LastAcceptedMeaning(src, transform, getKey, key);
    hide HasKey, Merge, LastAccepted, Holds, Offers;
  }

  lemma HasKeyMeaning<D>(dest: seq<D>, getKey: D -> string, key: string)
    ensures HasKey(dest, getKey, key) <==> Holds(dest, getKey, key)
  {
  }

  lemma {:induction false} LastAcceptedMeaning<S, D>(src: seq<S>, transform: S -> Option<D>, getKey: D -> string, key: string)
    ensures LastAccepted(src, transform, getKey, key).Some? <==> Offers(src, transform, getKey, key)
  {
    if src != [] {
      var n := |src| - 1;
      LastAcceptedMeaning(src[..n], transform, getKey, key);
      OffersOneMore(src, transform, getKey, key);
      hide Offers;
    }
  }

  /** Item k of the source transforms to d with a non-empty key, and no later item to one
      with the same key. */
  ghost predicate LastWithKey<S, D>(src: seq<S>, transform: S -> Option<D>, getKey: D -> string, d: D, k: int) {
    && 0 <= k < |src| && transform(src[k]) == Some(d) && getKey(d) != ""
    && (forall j :: k < j < |src| && transform(src[j]).Some? ==> getKey(transform(src[j]).value) != getKey(d))
  }

  lemma {:induction false} LastAcceptedIsLast<S, D>(src: seq<S>, transform: S -> Option<D>, getKey: D -> string, key: string)
    returns (k: int)
    ensures var d := LastAccepted(src, transform, getKey, key);
            d.Some? ==> getKey(d.value) == key && LastWithKey(src, transform, getKey, d.value, k)
  {
    k := |src| - 1;
    if src != [] {
      var a := Accepted(src[k], transform, getKey);
      if !(a.Some? && getKey(a.value) == key) {
        var n := k;
        k := LastAcceptedIsLast(src[..n], transform, getKey, key);
        assert 0 <= k < n ==> src[..n][k] == src[k];
        assert forall j :: k < j < n && 0 <= j ==> src[..n][j] == src[j];
      }
    }
  }

  /** What stands under a key after a merge into a list with unique keys: the last item the
      source gives for it, else what the destination had. */
  lemma MergedItem<S, D>(dest: seq<D>, src: seq<S>, transform: S -> Option<D>, getKey: D -> string, i: nat)
    requires UniqueKeys(dest, getKey) && i < |Merge(dest, src, transform, getKey)|
    ensures var d := Merge(dest, src, transform, getKey)[i];
            if getKey(d) != "" && Offers(src, transform, getKey, getKey(d))
            then exists k :: LastWithKey(src, transform, getKey, d, k)
            else d in dest
  {
    MergeMeaning(dest, src, transform, getKey);
    var r := Merge(dest, src, transform, getKey);
    var key := getKey(r[i]);
    LastAcceptedMeaning(src, transform, getKey, key);
    var k := LastAcceptedIsLast(src, transform, getKey, key);
    hide Merge, LastAccepted, Offers, LastWithKey;
    if i < |dest| {
      assert OldPosition(r, dest, src, transform, getKey, i);
      if key != "" {
        LastIndexIs(dest, getKey, getKey(dest[i]), i);
      }
    } else {
      assert NewPosition(r, dest, src, transform, getKey, i);
    }
  }

  lemma OffersOneMore<S, D>(src: seq<S>, transform: S -> Option<D>, getKey: D -> string, key: string)
    requires src != []
    ensures var n := |src| - 1;
            var a := Accepted(src[n], transform, getKey);
            Offers(src, transform, getKey, key) <==>
            Offers(src[..n], transform, getKey, key) || (a.Some? && getKey(a.value) == key)
  {
    var n := |src| - 1;
    if i :| 0 <= i < n && transform(src[..n][i]).Some? && getKey(transform(src[..n][i]).value) == key {
      assert src[..n][i] == src[i];
    }
    if i :| 0 <= i < |src| && transform(src[i]).Some? && getKey(transform(src[i]).value) == key && i < n {
      assert src[..n][i] == src[i];
    }
  }
}
