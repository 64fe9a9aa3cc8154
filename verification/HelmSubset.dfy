/** The comparison of generated chart values with the maintained ones: every generated
    key must be there with the same value, except at a few paths. */
module HelmSubset {
  import opened Prelude

  /** A YAML value as Python reads it. */
  datatype Value =
    | Null
    | Bool(b: bool)
    | Int(n: int)
    | Float(r: real)
    | NaN
    | Infinity(negative: bool)
    | Text(s: string)
    | List(items: seq<Value>)
    | Map(entries: seq<Entry>)

  datatype Entry = Entry(key: string, value: Value)

  /** A mapping has each key once. */
  ghost predicate WellFormed(v: Value) {
    match v
    case List(items) => forall i :: 0 <= i < |items| ==> WellFormed(items[i])
    case Map(entries) =>
      && (forall i, j :: 0 <= i < j < |entries| ==> entries[i].key != entries[j].key)
      && (forall i :: 0 <= i < |entries| ==> WellFormed(entries[i].value))
    case _ => true
  }

  /** Python compares booleans, integers and floats by number. */
  function Number(v: Value): Option<real> {
    match v
    case Bool(b) => Some(if b then 1.0 else 0.0)
    case Int(n) => Some(n as real)
    case Float(r) => Some(r)
    case _ => None
  }

  /** `==` on values that are not both lists or both mappings. */
  predicate PyEqual(a: Value, b: Value) {
    if Number(a).Some? || Number(b).Some? then Number(a) == Number(b)
    else if a.Text? && b.Text? then a.s == b.s
    else if a.Infinity? && b.Infinity? then a.negative == b.negative
    else a.Null? && b.Null?
  }

  // --------------------------------------------------------------------- paths

  const ALLOWED_VALUE_DIFFS := {"controllerManager.priorityClassName"}

  function KeyPath(path: string, key: string): string {
    if path == "" then key else path + "." + key
  }

  function Digits(n: nat): string {
    if n < 10 then ["0123456789"[n]] else Digits(n / 10) + ["0123456789"[n % 10]]
  }

  function ItemPath(path: string, i: nat): string {
    path + "[" + Digits(i) + "]"
  }

  // --------------------------------------------------------------------- check

  /** Position of `key`, or -1. */
  function Find(entries: seq<Entry>, key: string): (i: int)
    ensures -1 <= i < |entries|
    ensures i >= 0 ==> entries[i].key == key
    ensures i == -1 ==> forall j :: 0 <= j < |entries| ==> entries[j].key != key
  {
    if entries == [] then -1
    else if entries[|entries| - 1].key == key then |entries| - 1
    else Find(entries[..|entries| - 1], key)
  }

  ghost predicate Check(generated: Value, maintained: Value, path: string) {
    if generated.Map? && maintained.Map? then
      var g, m := generated.entries, maintained.entries;
      forall i :: 0 <= i < |g| ==>
        && Find(m, g[i].key) != -1
        && Check(g[i].value, m[Find(m, g[i].key)].value, KeyPath(path, g[i].key))
    else if generated.List? && maintained.List? then
      var g, m := generated.items, maintained.items;
      |g| == |m| && forall i :: 0 <= i < |g| ==> Check(g[i], m[i], ItemPath(path, i))
    else
      PyEqual(generated, maintained) || path in ALLOWED_VALUE_DIFFS
  }

  // ------------------------------------------------------------- what it means

  predicate Leaf(v: Value) {
    !v.Map? && !v.List?
  }

  /** Leaves that agree, spelled out. */
  predicate Agree(w: Value, u: Value) {
    || (w == u && !w.NaN? && Leaf(w))
    || (w.Int? && u.Float? && u.r == w.n as real)
    || (w.Float? && u.Int? && w.r == u.n as real)
    || (w.Bool? && u.Int? && u.n == if w.b then 1 else 0)
    || (w.Int? && u.Bool? && w.n == if u.b then 1 else 0)
    || (w.Bool? && u.Float? && u.r == if w.b then 1.0 else 0.0)
    || (w.Float? && u.Bool? && w.r == if u.b then 1.0 else 0.0)
  }

  /** The relation without paths: the generated tree is part of the maintained one. */
  ghost predicate Within(a: Value, b: Value) {
    if a.Map? && b.Map? then
      forall i :: 0 <= i < |a.entries| ==>
        && Find(b.entries, a.entries[i].key) != -1
        && Within(a.entries[i].value, b.entries[Find(b.entries, a.entries[i].key)].value)
    else if a.List? && b.List? then
      |a.items| == |b.items| && forall i :: 0 <= i < |a.items| ==> Within(a.items[i], b.items[i])
    else
      Agree(a, b)
  }

  /** Some place of the tree has a path at which values may differ. */
  ghost predicate ReachesAllowed(v: Value, path: string) {
    || path in ALLOWED_VALUE_DIFFS
    || (v.Map? && exists i :: 0 <= i < |v.entries| && ReachesAllowed(v.entries[i].value, KeyPath(path, v.entries[i].key)))
    || (v.List? && exists i :: 0 <= i < |v.items| && ReachesAllowed(v.items[i], ItemPath(path, i)))
  }

  /** Away from such places the check is that relation. */
  lemma {:induction false} CheckIsWithin(a: Value, b: Value, path: string)
    requires !ReachesAllowed(a, path)
    ensures Check(a, b, path) <==> Within(a, b)
    decreases a
  {
    if a.Map? && b.Map? {
      forall i | 0 <= i < |a.entries| && Find(b.entries, a.entries[i].key) != -1
        ensures var v := b.entries[Find(b.entries, a.entries[i].key)].value;
                Check(a.entries[i].value, v, KeyPath(path, a.entries[i].key)) <==> Within(a.entries[i].value, v)
      {
        CheckIsWithin(a.entries[i].value, b.entries[Find(b.entries, a.entries[i].key)].value,
                      KeyPath(path, a.entries[i].key));
      }
    } else if a.List? && b.List? && |a.items| == |b.items| {
      forall i | 0 <= i < |a.items|
        ensures Check(a.items[i], b.items[i], ItemPath(path, i)) <==> Within(a.items[i], b.items[i])
      {
        CheckIsWithin(a.items[i], b.items[i], ItemPath(path, i));
      }
    }
  }

  // -------------------------------------------------------------------- leaves

  /** Equality of leaves, in Dafny's terms: texts are the same text, null is null, and
      booleans, integers and floats are the same number, true being 1 and false 0. */
  lemma LeavesAgree(a: string, b: string, m: int, n: int, x: real, y: real, p: bool, q: bool, path: string)
    requires path !in ALLOWED_VALUE_DIFFS
    ensures Check(Text(a), Text(b), path) <==> a == b
    ensures Check(Int(m), Int(n), path) <==> m == n
    ensures Check(Float(x), Float(y), path) <==> x == y
    ensures Check(Bool(p), Bool(q), path) <==> p == q
    ensures Check(Infinity(p), Infinity(q), path) <==> p == q
    ensures Check(Int(m), Float(x), path) <==> m as real == x
    ensures Check(Float(x), Int(m), path) <==> m as real == x
    ensures Check(Bool(p), Int(m), path) <==> m == if p then 1 else 0
    ensures Check(Int(m), Bool(p), path) <==> m == if p then 1 else 0
    ensures Check(Bool(p), Float(x), path) <==> x == if p then 1.0 else 0.0
    ensures Check(Float(x), Bool(p), path) <==> x == if p then 1.0 else 0.0
  {
  }

  predicate Numeric(v: Value) {
    v.Bool? || v.Int? || v.Float?
  }

  /** Values of different kinds never agree, but for booleans, integers and floats; a NaN
      agrees with nothing, and null with null alone. */
  lemma KindsAgree(a: Value, b: Value, path: string)
    requires path !in ALLOWED_VALUE_DIFFS && Check(a, b, path)
    ensures (a.Null? <==> b.Null?) && (a.Text? <==> b.Text?) && (a.List? <==> b.List?) && (a.Map? <==> b.Map?)
    ensures (Numeric(a) <==> Numeric(b)) && (a.Infinity? <==> b.Infinity?) && !a.NaN? && !b.NaN?
  {
  }

  lemma NullAgrees(path: string)
    ensures Check(Null, Null, path)
  {
  }

  /** One step into a tree: to the value under a key, or to an item. */
  datatype Place = Under(key: string) | At(index: nat)

  /** At the place that `places` leads to, `v` holds `w`. */
  ghost predicate Holds(v: Value, places: seq<Place>, w: Value) {
    if places == [] then v == w
    else if places[0].At? then
      v.List? && places[0].index < |v.items| && Holds(v.items[places[0].index], places[1..], w)
    else
      && v.Map?
      && (exists i :: 0 <= i < |v.entries| && v.entries[i].key == places[0].key && Holds(v.entries[i].value, places[1..], w))
  }

  /** What the maintained tree may have where the generated one has w: a mapping for a
      mapping, a list of the same length for a list, and for a leaf one that agrees. */
  predicate Alike(w: Value, u: Value) {
    if w.Map? then u.Map?
    else if w.List? then u.List? && |u.items| == |w.items|
    else Agree(w, u)
  }

  lemma AgreeIsPyEqual(w: Value, u: Value)
    requires Leaf(w)
    ensures PyEqual(w, u) <==> Agree(w, u)
  {
  }

  /** At the same place the maintained tree has something alike. */
  ghost predicate HoldsAlike(b: Value, places: seq<Place>, w: Value) {
    exists u :: Holds(b, places, u) && Alike(w, u)
  }

  ghost predicate StepsTo(v: Value, place: Place, sub: Value) {
    if place.Under?
    then v.Map? && (exists i :: 0 <= i < |v.entries| && v.entries[i].key == place.key && v.entries[i].value == sub)
    else v.List? && place.index < |v.items| && v.items[place.index] == sub
  }

  lemma HoldsBelow(v: Value, place: Place, sub: Value, places: seq<Place>, w: Value)
    requires StepsTo(v, place, sub) && Holds(sub, places, w)
    ensures Holds(v, [place] + places, w)
  {
    assert ([place] + places)[1..] == places;
    if place.Under? {
      var i :| 0 <= i < |v.entries| && v.entries[i].key == place.key && v.entries[i].value == sub;
      assert Holds(v.entries[i].value, places, w);
    }
  }

  /** Where no allowed path is reached, a pass means that whatever is at some place of
      the generated tree has its like at the same place of the maintained one. */
  lemma {:induction false} PlacesAreKept(a: Value, b: Value, path: string, places: seq<Place>, w: Value)
    requires !ReachesAllowed(a, path) && Check(a, b, path) && Holds(a, places, w)
    ensures HoldsAlike(b, places, w)
    decreases |places|
  {
    if places == [] {
      if Leaf(a) {
        AgreeIsPyEqual(a, b);
      }
      assert Holds(b, places, b);
    } else {
      assert [places[0]] + places[1..] == places;
      match places[0]
      case Under(key) =>
        var i :| 0 <= i < |a.entries| && a.entries[i].key == key && Holds(a.entries[i].value, places[1..], w);
        var sub := b.entries[Find(b.entries, key)];
        PlacesAreKept(a.entries[i].value, sub.value, KeyPath(path, key), places[1..], w);
        var u :| Holds(sub.value, places[1..], u) && Alike(w, u);
        HoldsBelow(b, Under(key), sub.value, places[1..], u);
      case At(index) =>
        PlacesAreKept(a.items[index], b.items[index], ItemPath(path, index), places[1..], w);
        var u :| Holds(b.items[index], places[1..], u) && Alike(w, u);
        HoldsBelow(b, At(index), b.items[index], places[1..], u);
    }
  }

  ghost predicate AllHeldAlike(a: Value, b: Value) {
    forall places, w :: Holds(a, places, w) ==> HoldsAlike(b, places, w)
  }

  lemma HeldAtTop(a: Value, b: Value)
    requires AllHeldAlike(a, b)
    ensures Alike(a, b)
  {
    assert Holds(a, [], a);
    var u :| Holds(b, [], u) && Alike(a, u);
  }

  /** With different keys there is one way under a key. */
  lemma OneWayUnder(b: Value, key: string, places: seq<Place>, u: Value)
    requires WellFormed(b) && Holds(b, [Under(key)] + places, u)
    ensures b.Map? && Find(b.entries, key) != -1 && Holds(b.entries[Find(b.entries, key)].value, places, u)
  {
    assert ([Under(key)] + places)[1..] == places;
    var k :| 0 <= k < |b.entries| && b.entries[k].key == key && Holds(b.entries[k].value, places, u);
    assert k == Find(b.entries, key);
  }

  lemma HeldUnder(a: Value, b: Value, i: nat)
    requires AllHeldAlike(a, b) && WellFormed(b) && a.Map? && b.Map? && i < |a.entries|
    ensures var j := Find(b.entries, a.entries[i].key);
            j != -1 && AllHeldAlike(a.entries[i].value, b.entries[j].value)
  {
    var key, sub := a.entries[i].key, a.entries[i].value;
    assert StepsTo(a, Under(key), sub) && Holds(sub, [], sub);
    hide Holds, Find, WellFormed, StepsTo, AllHeldAlike, HoldsAlike;
    forall places, w | Holds(sub, places, w)
      ensures Find(b.entries, key) != -1 && HoldsAlike(b.entries[Find(b.entries, key)].value, places, w)
    {
      HeldUnderKey(a, b, key, sub, places, w);
    }
    ByPlaces(sub, b.entries[Find(b.entries, key)].value);
  }

  lemma ByPlaces(a: Value, b: Value)
    requires forall places, w :: Holds(a, places, w) ==> HoldsAlike(b, places, w)
    ensures AllHeldAlike(a, b)
  {
  }

  lemma HeldUnderKey(a: Value, b: Value, key: string, sub: Value, places: seq<Place>, w: Value)
    requires AllHeldAlike(a, b) && WellFormed(b) && StepsTo(a, Under(key), sub) && Holds(sub, places, w)
    ensures b.Map? && Find(b.entries, key) != -1
    ensures HoldsAlike(b.entries[Find(b.entries, key)].value, places, w)
  {
    hide Holds, Find, WellFormed, Alike, StepsTo;
    HoldsBelow(a, Under(key), sub, places, w);
    var u :| Holds(b, [Under(key)] + places, u) && Alike(w, u);
    OneWayUnder(b, key, places, u);
  }

  lemma HeldAt(a: Value, b: Value, i: nat)
    requires AllHeldAlike(a, b) && a.List? && b.List? && i < |a.items| == |b.items|
    ensures AllHeldAlike(a.items[i], b.items[i])
  {
    forall places, w | Holds(a.items[i], places, w) ensures HoldsAlike(b.items[i], places, w) {
      HoldsBelow(a, At(i), a.items[i], places, w);
      var u :| Holds(b, [At(i)] + places, u) && Alike(w, u);
      assert ([At(i)] + places)[1..] == places;
    }
  }

  lemma {:induction false} HeldAlikePasses(a: Value, b: Value, path: string)
    requires WellFormed(b) && AllHeldAlike(a, b)
    ensures Check(a, b, path)
    decreases a
  {
    HeldAtTop(a, b);
    if a.Map? {
      forall i | 0 <= i < |a.entries|
        ensures var j := Find(b.entries, a.entries[i].key);
                j != -1 && Check(a.entries[i].value, b.entries[j].value, KeyPath(path, a.entries[i].key))
      {
        HeldUnder(a, b, i);
        HeldAlikePasses(a.entries[i].value, b.entries[Find(b.entries, a.entries[i].key)].value,
                        KeyPath(path, a.entries[i].key));
      }
    } else if a.List? {
      forall i | 0 <= i < |a.items| ensures Check(a.items[i], b.items[i], ItemPath(path, i)) {
        HeldAt(a, b, i);
        HeldAlikePasses(a.items[i], b.items[i], ItemPath(path, i));
      }
    } else {
      AgreeIsPyEqual(a, b);
    }
  }

  /** Away from the allowed paths a tree passes if and only if everything in it has its
      like at the same place of the maintained tree. */
  lemma PassIffAllHeldAlike(a: Value, b: Value, path: string)
    requires !ReachesAllowed(a, path) && WellFormed(b)
    ensures Check(a, b, path) <==> AllHeldAlike(a, b)
  {
    if Check(a, b, path) {
      forall places, w | Holds(a, places, w) ensures HoldsAlike(b, places, w) {
        PlacesAreKept(a, b, path, places, w);
      }
    }
    if AllHeldAlike(a, b) {
      HeldAlikePasses(a, b, path);
    }
  }

  /** In particular every text is there unchanged. */
  lemma TextsAreKept(a: Value, b: Value, path: string, places: seq<Place>, text: string)
    requires !ReachesAllowed(a, path) && Check(a, b, path) && Holds(a, places, Text(text))
    ensures Holds(b, places, Text(text))
  {
    PlacesAreKept(a, b, path, places, Text(text));
  }

  // ---------------------------------------------------------- the allowed place

  function PathAt(path: string, place: Place): string {
    match place
    case Under(key) => KeyPath(path, key)
    case At(index) => ItemPath(path, index)
  }

  function PathOf(path: string, places: seq<Place>): string
    decreases |places|
  {
    if places == [] then path else PathOf(PathAt(path, places[0]), places[1..])
  }

  /** A tree reaches an allowed path where it holds something at a place of that path. */
  lemma {:induction false} ReachedPlace(v: Value, path: string) returns (places: seq<Place>, w: Value)
    requires ReachesAllowed(v, path)
    ensures Holds(v, places, w) && PathOf(path, places) in ALLOWED_VALUE_DIFFS
    decreases v
  {
    if path in ALLOWED_VALUE_DIFFS {
      places, w := [], v;
    } else if v.Map? {
      var i :| 0 <= i < |v.entries| && ReachesAllowed(v.entries[i].value, KeyPath(path, v.entries[i].key));
      var sub, key := v.entries[i].value, v.entries[i].key;
      var rest: seq<Place>;
      rest, w := ReachedPlace(sub, KeyPath(path, key));
      HoldsBelow(v, Under(key), sub, rest, w);
      places := [Under(key)] + rest;
      assert places[1..] == rest;
    } else {
      var i :| 0 <= i < |v.items| && ReachesAllowed(v.items[i], ItemPath(path, i));
      var rest: seq<Place>;
      rest, w := ReachedPlace(v.items[i], ItemPath(path, i));
      HoldsBelow(v, At(i), v.items[i], rest, w);
      places := [At(i)] + rest;
      assert places[1..] == rest;
    }
  }

  lemma {:induction false} PlaceIsReached(v: Value, path: string, places: seq<Place>, w: Value)
    requires Holds(v, places, w) && PathOf(path, places) in ALLOWED_VALUE_DIFFS
    ensures ReachesAllowed(v, path)
    decreases |places|
  {
    if places != [] {
      match places[0]
      case Under(key) =>
        var i :| 0 <= i < |v.entries| && v.entries[i].key == key && Holds(v.entries[i].value, places[1..], w);
        PlaceIsReached(v.entries[i].value, KeyPath(path, key), places[1..], w);
      case At(index) =>
        PlaceIsReached(v.items[index], ItemPath(path, index), places[1..], w);
    }
  }

  lemma DigitIs(m: nat, n: nat)
    requires m < 10 && n < 10 && "0123456789"[m] == "0123456789"[n]
    ensures m == n
  {
  }

  lemma {:induction false} DigitsAreNumber(m: nat, n: nat)
    requires Digits(m) == Digits(n)
    ensures m == n
  {
    var x, y := Digits(m), Digits(n);
    assert x[|x| - 1] == "0123456789"[m % 10] && y[|y| - 1] == "0123456789"[n % 10];
    DigitIs(m % 10, n % 10);
    DigitsLength(m);
    DigitsLength(n);
    if m >= 10 && n >= 10 {
      assert x[..|x| - 1] == Digits(m / 10) && y[..|y| - 1] == Digits(n / 10);
      DigitsAreNumber(m / 10, n / 10);
    }
  }

  lemma DigitsLength(n: nat)
    ensures |Digits(n)| >= 1 && (|Digits(n)| == 1 <==> n < 10)
  {
  }

  /** The items of a list are reported under different paths. */
  lemma ItemPathsDiffer(path: string, i: nat, j: nat)
    requires ItemPath(path, i) == ItemPath(path, j)
    ensures i == j
  {
    var x, y := ItemPath(path, i), ItemPath(path, j);
    var n := |path| + 1;
    assert |x| == n + |Digits(i)| + 1 && |y| == n + |Digits(j)| + 1;
    assert x[n..|x| - 1] == Digits(i) && y[n..|y| - 1] == Digits(j);
    DigitsAreNumber(i, j);
  }

  /** Not empty and without a dot, as keys of a chart are. */
  predicate OrdinaryKey(key: string) {
    key != "" && '.' !in key
  }

  predicate Ordinary(places: seq<Place>) {
    forall k :: 0 <= k < |places| && places[k].Under? ==> OrdinaryKey(places[k].key)
  }

  lemma {:induction false} PathGrows(path: string, places: seq<Place>)
    ensures path <= PathOf(path, places)
    decreases |places|
  {
    if places != [] {
      PathGrows(PathAt(path, places[0]), places[1..]);
    }
  }

  lemma {:induction false} ItemsShow(path: string, places: seq<Place>, k: nat)
    requires k < |places| && places[k].At?
    ensures '[' in PathOf(path, places)
    decreases |places|
  {
    if k == 0 {
      var next := PathAt(path, places[0]);
      assert next[|path|] == '[';
      PathGrows(next, places[1..]);
    } else {
      ItemsShow(PathAt(path, places[0]), places[1..], k - 1);
    }
  }

  const FIRST_KEY := "controllerManager"
  const SECOND_KEY := "priorityClassName"

  lemma DotFreeKeys()
    ensures '.' !in FIRST_KEY && '[' !in FIRST_KEY
    ensures '.' !in SECOND_KEY && '[' !in SECOND_KEY
  {
    FreeOf(FIRST_KEY, '.');
    FreeOf(FIRST_KEY, '[');
    FreeOf(SECOND_KEY, '.');
    FreeOf(SECOND_KEY, '[');
  }

  lemma FreeOf(s: string, c: char)
    requires |s| == 17
    requires s[0] != c && s[1] != c && s[2] != c && s[3] != c && s[4] != c && s[5] != c && s[6] != c && s[7] != c && s[8] != c
    requires s[9] != c && s[10] != c && s[11] != c && s[12] != c && s[13] != c && s[14] != c && s[15] != c && s[16] != c
    ensures c !in s
  {
  }

  lemma AllowedPath()
    ensures FIRST_KEY + "." + SECOND_KEY == "controllerManager.priorityClassName"
    ensures ALLOWED_VALUE_DIFFS == {FIRST_KEY + "." + SECOND_KEY}
  {
  }

  /** A dot-free text in front of a dot is at most what stands in front of the first dot. */
  lemma StopsAtDot(a: string, t: string, n: nat)
    requires '.' !in a && a <= t && n < |t| && t[n] == '.'
    ensures |a| <= n
  {
    assert forall i :: 0 <= i < |a| ==> a[i] in a && a[i] == t[i];
  }

  lemma CutAtDot(a: string, first: string, second: string)
    requires '.' !in a && '.' !in first && a + "." <= first + "." + second
    ensures a == first
  {
    var t := first + "." + second;
    assert (a + ".")[|a|] == t[|a|];
    StopsAtDot(a, t, |first|);
    StopsAtDot(first, t, |a|);
  }

  /** Under ordinary keys there is one allowed place. */
  lemma AllowedPlace(places: seq<Place>)
    requires Ordinary(places)
    ensures PathOf("", places) in ALLOWED_VALUE_DIFFS <==>
            places == [Under("controllerManager"), Under("priorityClassName")]
  {
    var t := FIRST_KEY + "." + SECOND_KEY;
    AllowedPath();
    DotFreeKeys();
    if k :| 0 <= k < |places| && places[k].At? {
      ItemsShow("", places, k);
      NoBracket();
    } else if |places| >= 2 {
      TwoKeys(places, FIRST_KEY, SECOND_KEY);
    } else if |places| == 1 {
      assert PathOf("", places) == PathOf(places[0].key, places[1..]) == places[0].key;
      assert t[|FIRST_KEY|] == '.';
    }
  }

  lemma NoBracket()
    ensures '[' !in FIRST_KEY + "." + SECOND_KEY
  {
    DotFreeKeys();
    hide *;
    assert forall c :: c in FIRST_KEY + "." + SECOND_KEY ==> c in FIRST_KEY || c == '.' || c in SECOND_KEY;
  }

  lemma PrefixAt(x: string, t: string, n: nat)
    requires n < |x|
    ensures x <= t ==> n < |t| && t[n] == x[n]
  {
  }

  lemma NoLaterDot(first: string, second: string, n: nat)
    requires '.' !in second
    ensures var t := first + "." + second; |first| < n < |t| ==> t[n] != '.'
  {
    var t := first + "." + second;
    assert |first| < n < |t| ==> t[n] == second[n - |first| - 1] && second[n - |first| - 1] in second;
  }

  lemma NoSecondDot(first: string, second: string, b: string, c: string)
    requires '.' !in second
    ensures !(first + "." + b + "." + c <= first + "." + second)
  {
    var n := |first| + 1 + |b|;
    assert (first + "." + b + "." + c)[n] == '.';
    PrefixAt(first + "." + b + "." + c, first + "." + second, n);
    NoLaterDot(first, second, n);
  }

  lemma TwoKeys(places: seq<Place>, first: string, second: string)
    requires Ordinary(places) && |places| >= 2 && forall k :: 0 <= k < |places| ==> places[k].Under?
    requires '.' !in first && '.' !in second
    ensures PathOf("", places) == first + "." + second <==> places == [Under(first), Under(second)]
  {
    var a, b, rest := places[0].key, places[1].key, places[2..];
    assert places[1..][1..] == rest;
    assert PathOf("", places) == PathOf(a, places[1..]) == PathOf(a + "." + b, rest);
    PathGrows(a + "." + b, rest);
    if PathOf("", places) == first + "." + second {
      CutAtDot(a, first, second);
      if rest != [] {
        PathGrows(a + "." + b + "." + rest[0].key, rest[1..]);
        NoSecondDot(first, second, b, rest[0].key);
      } else {
        assert b == (first + "." + second)[|first| + 1..];
      }
    }
  }

  ghost predicate OrdinaryKeys(v: Value) {
    match v
    case Map(entries) => forall i :: 0 <= i < |entries| ==> OrdinaryKey(entries[i].key) && OrdinaryKeys(entries[i].value)
    case List(items) => forall i :: 0 <= i < |items| ==> OrdinaryKeys(items[i])
    case _ => true
  }

  lemma {:induction false} PlacesAreOrdinary(v: Value, places: seq<Place>, w: Value)
    requires OrdinaryKeys(v) && Holds(v, places, w)
    ensures Ordinary(places)
    decreases |places|
  {
    if places != [] {
      assert forall k :: 1 <= k < |places| ==> places[k] == places[1..][k - 1];
      if places[0].At? {
        PlacesAreOrdinary(v.items[places[0].index], places[1..], w);
      } else {
        var i :| 0 <= i < |v.entries| && v.entries[i].key == places[0].key && Holds(v.entries[i].value, places[1..], w);
        PlacesAreOrdinary(v.entries[i].value, places[1..], w);
      }
    }
  }

  /** A chart with ordinary keys reaches the allowed path exactly when it sets the
      priority class of the controller manager. */
  lemma OneAllowedPlace(v: Value)
    requires OrdinaryKeys(v)
    ensures ReachesAllowed(v, "") <==>
            exists w :: Holds(v, [Under("controllerManager"), Under("priorityClassName")], w)
  {
    var allowed := [Under("controllerManager"), Under("priorityClassName")];
    hide Holds, PathOf, ReachesAllowed;
    if ReachesAllowed(v, "") {
      var places, w := ReachedPlace(v, "");
      PlacesAreOrdinary(v, places, w);
      AllowedPlace(places);
      assert Holds(v, allowed, w);
    }
    if w :| Holds(v, allowed, w) {
      PlacesAreOrdinary(v, allowed, w);
      AllowedPlace(allowed);
      PlaceIsReached(v, "", allowed, w);
    }
  }

  // ----------------------------------------------------------------- reflexive

  /** A NaN at a place where values must agree: it equals nothing, not even itself. */
  ghost predicate HasNaN(v: Value, path: string) {
    || (v.NaN? && path !in ALLOWED_VALUE_DIFFS)
    || (v.Map? && exists i :: 0 <= i < |v.entries| && HasNaN(v.entries[i].value, KeyPath(path, v.entries[i].key)))
    || (v.List? && exists i :: 0 <= i < |v.items| && HasNaN(v.items[i], ItemPath(path, i)))
  }

  /** A tree is part of itself, unless it holds such a NaN. */
  lemma {:induction false} Reflexive(v: Value, path: string)
    requires WellFormed(v)
    ensures Check(v, v, path) <==> !HasNaN(v, path)
    decreases v
  {
    if v.Map? {
      forall i | 0 <= i < |v.entries|
        ensures Find(v.entries, v.entries[i].key) == i
        ensures Check(v.entries[i].value, v.entries[i].value, KeyPath(path, v.entries[i].key)) <==>
                !HasNaN(v.entries[i].value, KeyPath(path, v.entries[i].key))
      {
        Reflexive(v.entries[i].value, KeyPath(path, v.entries[i].key));
      }
    } else if v.List? {
      forall i | 0 <= i < |v.items|
        ensures Check(v.items[i], v.items[i], ItemPath(path, i)) <==> !HasNaN(v.items[i], ItemPath(path, i))
      {
        Reflexive(v.items[i], ItemPath(path, i));
      }
    }
  }

  // ------------------------------------------------- what the allowed paths cost

  /** A NaN at a place that no allowed path leads past. */
  ghost predicate HasStrictNaN(v: Value, path: string) {
    && path !in ALLOWED_VALUE_DIFFS
    && (|| v.NaN?
        || (v.Map? && exists i :: 0 <= i < |v.entries| && HasStrictNaN(v.entries[i].value, KeyPath(path, v.entries[i].key)))
        || (v.List? && exists i :: 0 <= i < |v.items| && HasStrictNaN(v.items[i], ItemPath(path, i))))
  }

  /** Such a tree passes against nothing. */
  lemma {:induction false} StrictNaNNeverPasses(a: Value, b: Value, path: string)
    requires HasStrictNaN(a, path)
    ensures !Check(a, b, path)
    decreases a
  {
    if a.Map? && b.Map? {
      var i :| 0 <= i < |a.entries| && HasStrictNaN(a.entries[i].value, KeyPath(path, a.entries[i].key));
      var j := Find(b.entries, a.entries[i].key);
      if j != -1 {
        StrictNaNNeverPasses(a.entries[i].value, b.entries[j].value, KeyPath(path, a.entries[i].key));
      }
    } else if a.List? && b.List? && |a.items| == |b.items| {
      var i :| 0 <= i < |a.items| && HasStrictNaN(a.items[i], ItemPath(path, i));
      StrictNaNNeverPasses(a.items[i], b.items[i], ItemPath(path, i));
    }
  }

  /** The tree with `w` at every allowed path. */
  ghost function Filled(v: Value, path: string, w: Value): Value {
    if path in ALLOWED_VALUE_DIFFS then w
    else if v.Map? then
      Map(seq(|v.entries|, i requires 0 <= i < |v.entries| =>
        Entry(v.entries[i].key, Filled(v.entries[i].value, KeyPath(path, v.entries[i].key), w))))
    else if v.List? then
      List(seq(|v.items|, i requires 0 <= i < |v.items| => Filled(v.items[i], ItemPath(path, i), w)))
    else v
  }

  predicate Scalar(w: Value) {
    w.Null? || w.Text?
  }

  /** Mappings with the same keys at the same places. */
  ghost predicate SameKeys(a: seq<Entry>, b: seq<Entry>) {
    |a| == |b| && forall i :: 0 <= i < |a| ==> a[i].key == b[i].key
  }

  ghost predicate UniqueKeys(entries: seq<Entry>) {
    forall i, j :: 0 <= i < j < |entries| ==> entries[i].key != entries[j].key
  }

  /** Then a key is found at the same place in both. */
  lemma FindsItself(a: seq<Entry>, b: seq<Entry>, i: nat)
    requires UniqueKeys(a) && SameKeys(a, b) && i < |a|
    ensures Find(b, a[i].key) == i
  {
  }

  /** So the check of two such mappings goes entry by entry. */
  lemma CheckEntries(a: seq<Entry>, b: seq<Entry>, path: string)
    requires UniqueKeys(a) && SameKeys(a, b)
    ensures Check(Map(a), Map(b), path) <==>
            forall i :: 0 <= i < |a| ==> Check(a[i].value, b[i].value, KeyPath(path, a[i].key))
  {
    forall i | 0 <= i < |a| ensures Find(b, a[i].key) == i {
      FindsItself(a, b, i);
    }
  }

  lemma PassesByEntry(a: seq<Entry>, f: seq<Entry>, path: string)
    requires UniqueKeys(a) && SameKeys(a, f)
    requires forall i :: 0 <= i < |a| ==> WellFormed(f[i].value)
    requires forall i :: 0 <= i < |a| ==>
               var q := KeyPath(path, a[i].key);
               Check(a[i].value, f[i].value, q) && Check(f[i].value, a[i].value, q) && Check(f[i].value, f[i].value, q)
    ensures WellFormed(Map(f))
    ensures Check(Map(a), Map(f), path) && Check(Map(f), Map(a), path) && Check(Map(f), Map(f), path)
  {
    hide Check;
    CheckEntries(a, f, path);
    CheckEntries(f, a, path);
    CheckEntries(f, f, path);
  }

  /** Filled with a scalar the tree passes against the original, and the other way
      round, unless it holds such a NaN. */
  lemma {:induction false} FilledPasses(v: Value, path: string, w: Value)
    requires WellFormed(v) && Scalar(w) && !HasStrictNaN(v, path)
    ensures WellFormed(Filled(v, path, w))
    ensures Check(v, Filled(v, path, w), path) && Check(Filled(v, path, w), v, path)
    ensures Check(Filled(v, path, w), Filled(v, path, w), path)
    decreases v
  {
    if path in ALLOWED_VALUE_DIFFS {
    } else if v.Map? {
      var f := Filled(v, path, w).entries;
      forall i | 0 <= i < |v.entries|
        ensures WellFormed(f[i].value)
        ensures Check(v.entries[i].value, f[i].value, KeyPath(path, v.entries[i].key))
        ensures Check(f[i].value, v.entries[i].value, KeyPath(path, f[i].key))
        ensures Check(f[i].value, f[i].value, KeyPath(path, f[i].key))
      {
        FilledPasses(v.entries[i].value, KeyPath(path, v.entries[i].key), w);
      }
      PassesByEntry(v.entries, f, path);
    } else if v.List? {
      forall i | 0 <= i < |v.items|
        ensures WellFormed(Filled(v, path, w).items[i])
        ensures Check(v.items[i], Filled(v, path, w).items[i], ItemPath(path, i))
        ensures Check(Filled(v, path, w).items[i], v.items[i], ItemPath(path, i))
        ensures Check(Filled(v, path, w).items[i], Filled(v, path, w).items[i], ItemPath(path, i))
      {
        FilledPasses(v.items[i], ItemPath(path, i), w);
      }
    }
  }

  // ---------------------------------------------------------------- transitive

  /** A scalar may stand for it at an allowed path, but not everything of its own kind. */
  predicate Open(v: Value) {
    v.List? || (v.Map? && v.entries != [])
  }

  /** At some allowed path of the tree there is a list or a non-empty mapping. */
  ghost predicate HasOpenPlace(v: Value, path: string) {
    || (path in ALLOWED_VALUE_DIFFS && Open(v))
    || (v.Map? && exists i :: 0 <= i < |v.entries| && HasOpenPlace(v.entries[i].value, KeyPath(path, v.entries[i].key)))
    || (v.List? && exists i :: 0 <= i < |v.items| && HasOpenPlace(v.items[i], ItemPath(path, i)))
  }

  ghost predicate TransitiveFrom(a: Value, path: string) {
    forall b, c :: WellFormed(b) && WellFormed(c) && Check(a, b, path) && Check(b, c, path) ==> Check(a, c, path)
  }

  /** Without such a place the check is transitive, whatever b and c are. */
  lemma {:induction false} ClosedIsTransitive(a: Value, b: Value, c: Value, path: string)
    requires !HasOpenPlace(a, path) && Check(a, b, path) && Check(b, c, path)
    ensures Check(a, c, path)
    decreases a
  {
    if a.Map? && b.Map? && c.Map? {
      forall i | 0 <= i < |a.entries|
        ensures Find(c.entries, a.entries[i].key) != -1
        ensures Check(a.entries[i].value, c.entries[Find(c.entries, a.entries[i].key)].value,
                      KeyPath(path, a.entries[i].key))
      {
        var j := Find(b.entries, a.entries[i].key);
        ClosedIsTransitive(a.entries[i].value, b.entries[j].value, c.entries[Find(c.entries, b.entries[j].key)].value,
                           KeyPath(path, a.entries[i].key));
      }
    } else if a.List? && b.List? && c.List? {
      forall i | 0 <= i < |a.items| ensures Check(a.items[i], c.items[i], ItemPath(path, i)) {
        ClosedIsTransitive(a.items[i], b.items[i], c.items[i], ItemPath(path, i));
      }
    }
  }

  /** With one, the filled tree stands between `a` and a tree that `a` fails against. */
  lemma {:induction false} OpenPlaceBreaks(a: Value, path: string) returns (c: Value)
    requires WellFormed(a) && HasOpenPlace(a, path) && !HasStrictNaN(a, path)
    ensures WellFormed(c) && Check(Filled(a, path, Null), c, path) && !Check(a, c, path)
    decreases a
  {
    if path in ALLOWED_VALUE_DIFFS {
      c := OpenHereBreaks(a, path);
    } else if a.Map? {
      var i :| 0 <= i < |a.entries| && HasOpenPlace(a.entries[i].value, KeyPath(path, a.entries[i].key));
      var v := OpenPlaceBreaks(a.entries[i].value, KeyPath(path, a.entries[i].key));
      c := EntryBreaks(a, path, i, v);
    } else {
      var i :| 0 <= i < |a.items| && HasOpenPlace(a.items[i], ItemPath(path, i));
      var v := OpenPlaceBreaks(a.items[i], ItemPath(path, i));
      c := ItemBreaks(a, path, i, v);
    }
  }

  lemma OpenHereBreaks(a: Value, path: string) returns (c: Value)
    requires path in ALLOWED_VALUE_DIFFS && Open(a)
    ensures WellFormed(c) && Check(Null, c, path) && !Check(a, c, path)
  {
    if a.Map? {
      c := Map([]);
      assert Find(c.entries, a.entries[0].key) == -1;
    } else {
      c := if a.items == [] then List([Null]) else List([]);
    }
  }

  lemma EntryBreaks(a: Value, path: string, i: nat, v: Value) returns (c: Value)
    requires a.Map? && WellFormed(a) && path !in ALLOWED_VALUE_DIFFS && !HasStrictNaN(a, path) && i < |a.entries|
    requires var q := KeyPath(path, a.entries[i].key);
             WellFormed(v) && Check(Filled(a.entries[i].value, q, Null), v, q) && !Check(a.entries[i].value, v, q)
    ensures WellFormed(c) && Check(Filled(a, path, Null), c, path) && !Check(a, c, path)
  {
    FilledPasses(a, path, Null);
    var f := Filled(a, path, Null).entries;
    assert SameKeys(a.entries, f) && UniqueKeys(a.entries);
    assert f[i].value == Filled(a.entries[i].value, KeyPath(path, a.entries[i].key), Null);
    assert Filled(a, path, Null) == Map(f) && a == Map(a.entries);
    c := Map(f[i := Entry(f[i].key, v)]);
    hide Filled, Check, WellFormed, HasStrictNaN;
    EntryReplaced(a.entries, f, path, i, v);
  }

  lemma StaysWellFormed(f: seq<Entry>, i: nat, v: Value)
    requires i < |f| && WellFormed(Map(f)) && WellFormed(v)
    ensures WellFormed(Map(f[i := Entry(f[i].key, v)]))
  {
    assert forall j :: 0 <= j < |f| ==> WellFormed(f[j].value);
  }

  lemma EntryReplaced(a: seq<Entry>, f: seq<Entry>, path: string, i: nat, v: Value)
    requires UniqueKeys(a) && SameKeys(a, f) && i < |a|
    requires WellFormed(Map(f)) && WellFormed(v) && Check(Map(f), Map(f), path)
    requires Check(f[i].value, v, KeyPath(path, a[i].key)) && !Check(a[i].value, v, KeyPath(path, a[i].key))
    ensures var c := f[i := Entry(f[i].key, v)];
            WellFormed(Map(c)) && Check(Map(f), Map(c), path) && !Check(Map(a), Map(c), path)
  {
    hide Check, WellFormed;
    var c := f[i := Entry(f[i].key, v)];
    StaysWellFormed(f, i, v);
    assert SameKeys(f, c) && SameKeys(a, c) && UniqueKeys(f) && UniqueKeys(c);
    CheckEntries(f, f, path);
    CheckEntries(f, c, path);
    CheckEntries(a, c, path);
  }

  lemma ItemBreaks(a: Value, path: string, i: nat, v: Value) returns (c: Value)
    requires a.List? && WellFormed(a) && path !in ALLOWED_VALUE_DIFFS && !HasStrictNaN(a, path) && i < |a.items|
    requires var q := ItemPath(path, i);
             WellFormed(v) && Check(Filled(a.items[i], q, Null), v, q) && !Check(a.items[i], v, q)
    ensures WellFormed(c) && Check(Filled(a, path, Null), c, path) && !Check(a, c, path)
  {
    var f := Filled(a, path, Null).items;
    FilledPasses(a, path, Null);
    c := List(f[i := v]);
  }

  /** From `a` the check is transitive if and only if no allowed path of `a` holds a
      list or a non-empty mapping, or `a` passes against nothing at all. */
  lemma Transitive(a: Value, path: string)
    requires WellFormed(a)
    ensures TransitiveFrom(a, path) <==> !HasOpenPlace(a, path) || HasStrictNaN(a, path)
  {
    if HasStrictNaN(a, path) {
      forall b ensures !Check(a, b, path) {
        StrictNaNNeverPasses(a, b, path);
      }
    } else if HasOpenPlace(a, path) {
      FilledPasses(a, path, Null);
      var c := OpenPlaceBreaks(a, path);
      assert !TransitiveFrom(a, path);
    } else {
      forall b, c | Check(a, b, path) && Check(b, c, path) ensures Check(a, c, path) {
        ClosedIsTransitive(a, b, c, path);
      }
    }
  }

  /** At the allowed path itself: a scalar between two mappings is accepted twice. */
  lemma AllowedDiffBreaksTransitivity()
    ensures var path := "controllerManager.priorityClassName";
            var a, b, c := Map([Entry("x", Null)]), Null, Map([]);
            Check(a, b, path) && Check(b, c, path) && !Check(a, c, path)
  {
    var a, c := Map([Entry("x", Null)]), Map([]);
    assert Find(c.entries, a.entries[0].key) == -1;
  }

  // ------------------------------------------------------------- antisymmetric

  /** Equal trees: the same keys, and equal values under them. */
  ghost predicate Same(a: Value, b: Value) {
    if a.Map? && b.Map? then
      && (forall i :: 0 <= i < |b.entries| ==> Find(a.entries, b.entries[i].key) != -1)
      && (forall i :: 0 <= i < |a.entries| ==>
            && Find(b.entries, a.entries[i].key) != -1
            && Same(a.entries[i].value, b.entries[Find(b.entries, a.entries[i].key)].value))
    else if a.List? && b.List? then
      |a.items| == |b.items| && forall i :: 0 <= i < |a.items| ==> Same(a.items[i], b.items[i])
    else
      Agree(a, b)
  }

  /** Equal trees, but for values of different kinds or unequal scalars at allowed paths. */
  ghost predicate SameOutside(a: Value, b: Value, path: string) {
    if a.Map? && b.Map? then
      && (forall i :: 0 <= i < |b.entries| ==> Find(a.entries, b.entries[i].key) != -1)
      && (forall i :: 0 <= i < |a.entries| ==>
            && Find(b.entries, a.entries[i].key) != -1
            && SameOutside(a.entries[i].value, b.entries[Find(b.entries, a.entries[i].key)].value,
                           KeyPath(path, a.entries[i].key)))
    else if a.List? && b.List? then
      |a.items| == |b.items| && forall i :: 0 <= i < |a.items| ==> SameOutside(a.items[i], b.items[i], ItemPath(path, i))
    else
      Agree(a, b) || path in ALLOWED_VALUE_DIFFS
  }

  /** Two trees pass both ways if and only if they are equal outside the allowed paths. */
  lemma {:induction false} MutualPassIsSame(a: Value, b: Value, path: string)
    requires WellFormed(a) && WellFormed(b)
    ensures Check(a, b, path) && Check(b, a, path) <==> SameOutside(a, b, path)
    decreases a
  {
    if a.Map? && b.Map? {
      forall i | 0 <= i < |a.entries| && Find(b.entries, a.entries[i].key) != -1
        ensures MutualAt(a.entries, b.entries, path, i)
      {
        MutualPassIsSame(a.entries[i].value, b.entries[Find(b.entries, a.entries[i].key)].value,
                         KeyPath(path, a.entries[i].key));
      }
      MutualEntries(a.entries, b.entries, path);
    } else if a.List? && b.List? && |a.items| == |b.items| {
      forall i | 0 <= i < |a.items|
        ensures Check(a.items[i], b.items[i], ItemPath(path, i)) && Check(b.items[i], a.items[i], ItemPath(path, i)) <==>
                SameOutside(a.items[i], b.items[i], ItemPath(path, i))
      {
        MutualPassIsSame(a.items[i], b.items[i], ItemPath(path, i));
      }
    }
  }

  ghost predicate MutualAt(a: seq<Entry>, b: seq<Entry>, path: string, i: nat)
    requires i < |a| && Find(b, a[i].key) != -1
  {
    var v, q := b[Find(b, a[i].key)].value, KeyPath(path, a[i].key);
    Check(a[i].value, v, q) && Check(v, a[i].value, q) <==> SameOutside(a[i].value, v, q)
  }

  lemma MutualEntries(a: seq<Entry>, b: seq<Entry>, path: string)
    requires UniqueKeys(a) && UniqueKeys(b)
    requires forall i :: 0 <= i < |a| && Find(b, a[i].key) != -1 ==> MutualAt(a, b, path, i)
    ensures Check(Map(a), Map(b), path) && Check(Map(b), Map(a), path) <==> SameOutside(Map(a), Map(b), path)
  {
    FoundBack(a, b);
    FoundBack(b, a);
    hide Find, UniqueKeys;
    if SameOutside(Map(a), Map(b), path) {
      SamePassesBothWays(a, b, path);
    }
    if Check(Map(a), Map(b), path) && Check(Map(b), Map(a), path) {
      forall i | 0 <= i < |a| ensures SameOutside(a[i].value, b[Find(b, a[i].key)].value, KeyPath(path, a[i].key)) {
        assert MutualAt(a, b, path, i);
        assert Find(a, b[Find(b, a[i].key)].key) == i;
      }
    }
  }

  lemma FoundBack(a: seq<Entry>, b: seq<Entry>)
    requires UniqueKeys(a)
    ensures forall i :: 0 <= i < |a| && Find(b, a[i].key) != -1 ==> Find(a, b[Find(b, a[i].key)].key) == i
  {
    forall i | 0 <= i < |a| ensures Find(a, a[i].key) == i {
      FindsItself(a, a, i);
    }
  }

  lemma SamePassesBothWays(a: seq<Entry>, b: seq<Entry>, path: string)
    requires forall i :: 0 <= i < |a| && Find(b, a[i].key) != -1 ==> MutualAt(a, b, path, i)
    requires forall j :: 0 <= j < |b| && Find(a, b[j].key) != -1 ==> Find(b, a[Find(a, b[j].key)].key) == j
    requires SameOutside(Map(a), Map(b), path)
    ensures Check(Map(a), Map(b), path) && Check(Map(b), Map(a), path)
  {
    hide Find;
    forall i | 0 <= i < |a| ensures Check(a[i].value, b[Find(b, a[i].key)].value, KeyPath(path, a[i].key)) {
      assert MutualAt(a, b, path, i);
    }
    forall j | 0 <= j < |b| ensures Check(b[j].value, a[Find(a, b[j].key)].value, KeyPath(path, b[j].key)) {
      assert MutualAt(a, b, path, Find(a, b[j].key));
    }
  }

  lemma {:induction false} NothingOutside(a: Value, b: Value, path: string)
    requires !ReachesAllowed(a, path) && SameOutside(a, b, path)
    ensures Same(a, b)
    decreases a
  {
    if a.Map? && b.Map? {
      forall i | 0 <= i < |a.entries|
        ensures Same(a.entries[i].value, b.entries[Find(b.entries, a.entries[i].key)].value)
      {
        NothingOutside(a.entries[i].value, b.entries[Find(b.entries, a.entries[i].key)].value,
                       KeyPath(path, a.entries[i].key));
      }
    } else if a.List? && b.List? {
      forall i | 0 <= i < |a.items| ensures Same(a.items[i], b.items[i]) {
        NothingOutside(a.items[i], b.items[i], ItemPath(path, i));
      }
    }
  }

  ghost predicate AntisymmetricFrom(a: Value, path: string) {
    forall b :: WellFormed(b) && Check(a, b, path) && Check(b, a, path) ==> Same(a, b)
  }

  /** Some filling of the allowed paths is a different tree. */
  lemma {:induction false} SomeFillingDiffers(a: Value, path: string) returns (w: Value)
    requires WellFormed(a) && ReachesAllowed(a, path)
    ensures Scalar(w) && !Same(a, Filled(a, path, w))
    decreases a
  {
    if path in ALLOWED_VALUE_DIFFS {
      w := if a.Null? then Text("") else Null;
    } else if a.Map? {
      var i :| 0 <= i < |a.entries| && ReachesAllowed(a.entries[i].value, KeyPath(path, a.entries[i].key));
      w := SomeFillingDiffers(a.entries[i].value, KeyPath(path, a.entries[i].key));
      var f := Filled(a, path, w);
      assert f.entries[i].value == Filled(a.entries[i].value, KeyPath(path, a.entries[i].key), w);
      assert UniqueKeys(a.entries) && SameKeys(a.entries, f.entries);
      FindsItself(a.entries, f.entries, i);
      hide Filled, WellFormed, ReachesAllowed;
    } else {
      var i :| 0 <= i < |a.items| && ReachesAllowed(a.items[i], ItemPath(path, i));
      w := SomeFillingDiffers(a.items[i], ItemPath(path, i));
      assert Filled(a, path, w).items[i] == Filled(a.items[i], ItemPath(path, i), w);
    }
  }

  /** Whatever passes both ways with `a` equals it, if and only if `a` reaches no
      allowed path, or passes against nothing at all. */
  lemma Antisymmetric(a: Value, path: string)
    requires WellFormed(a)
    ensures AntisymmetricFrom(a, path) <==> !ReachesAllowed(a, path) || HasStrictNaN(a, path)
  {
    if HasStrictNaN(a, path) {
      forall b ensures !Check(a, b, path) {
        StrictNaNNeverPasses(a, b, path);
      }
    } else if ReachesAllowed(a, path) {
      var w := SomeFillingDiffers(a, path);
      FilledPasses(a, path, w);
      assert !AntisymmetricFrom(a, path);
    } else {
      forall b | WellFormed(b) && Check(a, b, path) && Check(b, a, path) ensures Same(a, b) {
        MutualPassIsSame(a, b, path);
        NothingOutside(a, b, path);
      }
    }
  }

  /** `b` is `a` with keys added to any of its mappings, at any depth. */
  ghost predicate Extends(a: Value, b: Value) {
    if a.Map? && b.Map? then
      forall i :: 0 <= i < |a.entries| ==>
        && Find(b.entries, a.entries[i].key) != -1
        && Extends(a.entries[i].value, b.entries[Find(b.entries, a.entries[i].key)].value)
    else if a.List? && b.List? then
      |a.items| == |b.items| && forall i :: 0 <= i < |a.items| ==> Extends(a.items[i], b.items[i])
    else
      a == b
  }

  /** Adding keys to the maintained values never turns a pass into a failure. */
  lemma {:induction false} AddingKeysKeepsPass(generated: Value, maintained: Value, extended: Value, path: string)
    requires Check(generated, maintained, path) && Extends(maintained, extended)
    ensures Check(generated, extended, path)
    decreases generated
  {
    if generated.Map? && maintained.Map? && extended.Map? {
      var g, m, x := generated.entries, maintained.entries, extended.entries;
      forall i | 0 <= i < |g|
        ensures Find(x, g[i].key) != -1
        ensures Check(g[i].value, x[Find(x, g[i].key)].value, KeyPath(path, g[i].key))
      {
        var j := Find(m, g[i].key);
        AddingKeysKeepsPass(g[i].value, m[j].value, x[Find(x, m[j].key)].value, KeyPath(path, g[i].key));
      }
    } else if generated.List? && maintained.List? && extended.List? {
      forall i | 0 <= i < |generated.items|
        ensures Check(generated.items[i], extended.items[i], ItemPath(path, i))
      {
        AddingKeysKeepsPass(generated.items[i], maintained.items[i], extended.items[i], ItemPath(path, i));
      }
    }
  }
}
