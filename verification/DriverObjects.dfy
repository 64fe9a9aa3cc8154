/** The objects one driver reconcile writes, one for each of its nine concurrent
    functions, and what it means that they are different. */
module DriverObjects {
  import opened Prelude

  datatype Driver = Driver(namespace: string, name: string)

  datatype Kind = ConfigMap | CsiDriver | Deployment | DaemonSet | NetworkPolicy | Service

  /** CSIDriver objects have no namespace. */
  datatype ObjectKey = ObjectKey(kind: Kind, namespace: string, name: string)

  // -------------------------------------------------------------------- names

  function Named(d: Driver, suffix: string): string {
    d.name + "-" + suffix
  }

  predicate Plain(c: char) {
    'a' <= c <= 'z' || '0' <= c <= '9' || c == '-'
  }

  /** Every character that a service name may not have becomes a hyphen. */
  function Sanitized(s: string): (r: string)
    ensures |r| == |s| && forall i :: 0 <= i < |s| ==> r[i] == if Plain(s[i]) then s[i] else '-'
  {
    if s == [] then [] else Sanitized(s[..|s| - 1]) + [if Plain(s[|s| - 1]) then s[|s| - 1] else '-']
  }

  const DRIVER_TYPES: seq<string> := ["rbd", "cephfs", "nfs", "nvmeof"]

  /** A driver type, with an optional prefix that ends in a dot, before ".csi.ceph.com". */
  ghost predicate ValidName(name: string) {
    exists prefix: string, i: nat ::
      && i < |DRIVER_TYPES| && name == prefix + DRIVER_TYPES[i] + ".csi.ceph.com"
      && (prefix == "" || (|prefix| >= 2 && prefix[|prefix| - 1] == '.' && '\n' !in prefix))
  }

  function CommonConfigMap(d: Driver): ObjectKey {
    ObjectKey(ConfigMap, d.namespace, "ceph-csi-config")
  }

  function LivenessService(d: Driver): ObjectKey {
    ObjectKey(Service, d.namespace, Sanitized(Named(d, "liveness")))
  }

  /** In the order of the list of reconcile functions. */
  function Objects(d: Driver): (keys: seq<ObjectKey>)
    ensures |keys| == 9
  {
    [CommonConfigMap(d),
     ObjectKey(ConfigMap, d.namespace, Named(d, "logrotate-config")),
     ObjectKey(CsiDriver, "", d.name),
     ObjectKey(Deployment, d.namespace, Named(d, "ctrlplugin")),
     ObjectKey(NetworkPolicy, d.namespace, Named(d, "ctrlplugin")),
     ObjectKey(DaemonSet, d.namespace, Named(d, "nodeplugin")),
     LivenessService(d),
     ObjectKey(DaemonSet, d.namespace, Named(d, "nodeplugin-csi-addons")),
     ObjectKey(NetworkPolicy, d.namespace, Named(d, "nodeplugin-csi-addons"))]
  }

  lemma LastOf(d: Driver, suffix: string)
    requires suffix != ""
    ensures Named(d, suffix)[|Named(d, suffix)| - 1] == suffix[|suffix| - 1]
    ensures |Named(d, suffix)| == |d.name| + 1 + |suffix|
  {
  }

  lemma SameSuffix(a: Driver, b: Driver, suffix: string)
    ensures Named(a, suffix) == Named(b, suffix) <==> a.name == b.name
  {
    if Named(a, suffix) == Named(b, suffix) {
      assert a.name == Named(a, suffix)[..|a.name|] == Named(b, suffix)[..|b.name|] == b.name;
    }
  }

  /** Names of the two kinds that are used twice are told apart by their last letter,
      the two config maps by their length. */
  lemma SuffixesDiffer(a: Driver, b: Driver)
    ensures Named(a, "nodeplugin") != Named(b, "nodeplugin-csi-addons")
    ensures Named(a, "ctrlplugin") != Named(b, "nodeplugin-csi-addons")
    ensures Named(a, "logrotate-config") != "ceph-csi-config"
  {
    LastOf(a, "nodeplugin");
    LastOf(a, "ctrlplugin");
    LastOf(b, "nodeplugin-csi-addons");
    LastOf(a, "logrotate-config");
  }

  /** The nine functions of a reconcile write nine different objects. */
  lemma ObjectsAreDistinct(d: Driver)
    ensures Distinct(Objects(d))
  {
    SuffixesDiffer(d, d);
  }

  /** The names differ at most where neither has a lower-case letter or a digit. */
  ghost predicate ReadAlike(a: string, b: string) {
    |a| == |b| && forall i :: 0 <= i < |a| ==>
      a[i] == b[i] ||
      (!('a' <= a[i] <= 'z') && !('0' <= a[i] <= '9') && !('a' <= b[i] <= 'z') && !('0' <= b[i] <= '9'))
  }

  lemma SanitizedAlike(a: string, b: string)
    ensures Sanitized(a) == Sanitized(b) <==> ReadAlike(a, b)
  {
    var x, y := Sanitized(a), Sanitized(b);
    if x == y {
      forall i | 0 <= i < |a| ensures a[i] == b[i] ||
        (!('a' <= a[i] <= 'z') && !('0' <= a[i] <= '9') && !('a' <= b[i] <= 'z') && !('0' <= b[i] <= '9'))
      {
        assert x[i] == y[i];
      }
    }
    hide Sanitized;
    if ReadAlike(a, b) {
      forall i | 0 <= i < |a| ensures x[i] == y[i] {}
    }
  }

  /** Two drivers of one namespace share the common config map, and the liveness
      service if and only if their names read the same once sanitized. */
  lemma SharedInNamespace(a: Driver, b: Driver, key: ObjectKey)
    requires a.namespace == b.namespace && a.name != b.name
    ensures key in Objects(a) && key in Objects(b) <==>
            key == ObjectKey(ConfigMap, a.namespace, "ceph-csi-config") || (key == LivenessService(a) && ReadAlike(a.name, b.name))
  {
    SanitizedAlike(a.name, b.name);
    SuffixesDiffer(a, b);
    SuffixesDiffer(b, a);
    SameSuffix(a, b, "logrotate-config");
    SameSuffix(a, b, "ctrlplugin");
    SameSuffix(a, b, "nodeplugin");
    SameSuffix(a, b, "nodeplugin-csi-addons");
    SanitizedSuffix(a, b, "liveness");
    hide Named, Sanitized, Objects, ReadAlike;
    ByKind(a, key);
    ByKind(b, key);
  }

  lemma ByKind(d: Driver, key: ObjectKey)
    ensures key in Objects(d) <==>
            match key.kind
            case ConfigMap => key == CommonConfigMap(d) || key == ObjectKey(ConfigMap, d.namespace, Named(d, "logrotate-config"))
            case CsiDriver => key == ObjectKey(CsiDriver, "", d.name)
            case Deployment => key == ObjectKey(Deployment, d.namespace, Named(d, "ctrlplugin"))
            case DaemonSet => key == ObjectKey(DaemonSet, d.namespace, Named(d, "nodeplugin")) ||
                              key == ObjectKey(DaemonSet, d.namespace, Named(d, "nodeplugin-csi-addons"))
            case NetworkPolicy => key == ObjectKey(NetworkPolicy, d.namespace, Named(d, "ctrlplugin")) ||
                                  key == ObjectKey(NetworkPolicy, d.namespace, Named(d, "nodeplugin-csi-addons"))
            case Service => key == LivenessService(d)
  {
    hide Named, Sanitized;
    InNine(Objects(d), key);
  }

  lemma InNine<T>(s: seq<T>, x: T)
    requires |s| == 9
    ensures x in s <==>
            x == s[0] || x == s[1] || x == s[2] || x == s[3] || x == s[4] || x == s[5] || x == s[6] || x == s[7] || x == s[8]
  {
  }

  lemma SanitizedSuffix(a: Driver, b: Driver, suffix: string)
    ensures Sanitized(Named(a, suffix)) == Sanitized(Named(b, suffix)) <==> Sanitized(a.name) == Sanitized(b.name)
  {
    var x, y := Sanitized(Named(a, suffix)), Sanitized(Named(b, suffix));
    if x == y {
      forall i | 0 <= i < |a.name| ensures Sanitized(a.name)[i] == Sanitized(b.name)[i] {
        assert x[i] == y[i] && Named(a, suffix)[i] == a.name[i] && Named(b, suffix)[i] == b.name[i];
      }
    }
    if Sanitized(a.name) == Sanitized(b.name) {
      forall i | 0 <= i < |x| ensures x[i] == y[i] {
        if i < |a.name| {
          assert Sanitized(a.name)[i] == Sanitized(b.name)[i];
        }
      }
    }
  }

  /** Drivers of different namespaces share the CSIDriver of a common name at most. */
  lemma SharedAcrossNamespaces(a: Driver, b: Driver, key: ObjectKey)
    requires a.namespace != b.namespace && a.namespace != "" && b.namespace != ""
    ensures key in Objects(a) && key in Objects(b) <==> a.name == b.name && key == ObjectKey(CsiDriver, "", a.name)
  {
    hide Named, Sanitized, Objects;
    ByKind(a, key);
    ByKind(b, key);
  }

  lemma DotReadsAsHyphen(p: string, q: string)
    ensures Sanitized(p + "." + q) == Sanitized(p + "-" + q)
  {
    var x, y := p + "." + q, p + "-" + q;
    var n := |p|;
    assert x[n] == '.' && y[n] == '-';
    assert forall i :: 0 <= i < |x| && i != n ==> x[i] == y[i];
    assert |Sanitized(x)| == |Sanitized(y)|;
    hide Sanitized;
    forall i | 0 <= i < |x| ensures Sanitized(x)[i] == Sanitized(y)[i] {
    }
  }

  /** Two valid names can read the same once sanitized. */
  lemma ServicesCollide(namespace: string)
    ensures var tail := "y." + "rbd" + ".csi.ceph.com";
            var a, b := Driver(namespace, "x" + "." + tail), Driver(namespace, "x" + "-" + tail);
            ValidName(a.name) && ValidName(b.name) && a.name != b.name && LivenessService(a) == LivenessService(b)
  {
    var tail := "y." + "rbd" + ".csi.ceph.com";
    var a, b := Driver(namespace, "x" + "." + tail), Driver(namespace, "x" + "-" + tail);
    ValidWith("x" + "." + "y.");
    ValidWith("x" + "-" + "y.");
    ConcatAssociates("x" + ".", "y." + "rbd", ".csi.ceph.com");
    ConcatAssociates("x" + ".", "y.", "rbd");
    ConcatAssociates("x" + "-", "y." + "rbd", ".csi.ceph.com");
    ConcatAssociates("x" + "-", "y.", "rbd");
    hide Sanitized, ValidName;
    assert a.name[1] != b.name[1];
    DotReadsAsHyphen("x", tail);
    SanitizedSuffix(a, b, "liveness");
  }

  lemma ValidWith(prefix: string)
    requires |prefix| >= 2 && prefix[|prefix| - 1] == '.' && '\n' !in prefix
    ensures ValidName(prefix + "rbd" + ".csi.ceph.com")
  {
    assert DRIVER_TYPES[0] == "rbd";
  }

  // ------------------------------------------------------------- interleavings

  /** One API call of a function: from its own state and the present value of its
      object to the next ones. */
  type Step<!L, !V> = (L, Option<V>) -> (L, Option<V>)

  datatype Cluster<L, V> = Cluster(locals: seq<L>, objects: map<ObjectKey, V>)

  function Value<V>(objects: map<ObjectKey, V>, key: ObjectKey): Option<V> {
    if key in objects then Some(objects[key]) else None
  }

  function SetValue<V>(objects: map<ObjectKey, V>, key: ObjectKey, value: Option<V>): (r: map<ObjectKey, V>)
    ensures Value(r, key) == value
    ensures forall k :: k != key ==> Value(r, k) == Value(objects, k)
  {
    if value.Some? then objects[key := value.value] else objects - {key}
  }

  ghost predicate Fits<L, V>(keys: seq<ObjectKey>, steps: seq<Step<L, V>>, s: Cluster<L, V>) {
    |keys| == |steps| == |s.locals|
  }

  /** Function i takes one step. */
  ghost function Act<L, V>(keys: seq<ObjectKey>, steps: seq<Step<L, V>>, s: Cluster<L, V>, i: nat): (r: Cluster<L, V>)
    requires Fits(keys, steps, s) && i < |keys|
    ensures Fits(keys, steps, r)
  {
    var (local, value) := steps[i](s.locals[i], Value(s.objects, keys[i]));
    Cluster(s.locals[i := local], SetValue(s.objects, keys[i], value))
  }

  ghost predicate Names(schedule: seq<nat>, n: nat) {
    forall k :: 0 <= k < |schedule| ==> schedule[k] < n
  }

  lemma NamesFront(schedule: seq<nat>, n: nat)
    requires schedule != [] && Names(schedule, n)
    ensures Names(schedule[..|schedule| - 1], n) && schedule[|schedule| - 1] < n
  {
  }

  ghost function Run<L, V>(keys: seq<ObjectKey>, steps: seq<Step<L, V>>, s: Cluster<L, V>, schedule: seq<nat>)
    : (r: Cluster<L, V>)
    requires Fits(keys, steps, s) && Names(schedule, |keys|)
    ensures Fits(keys, steps, r)
  {
    if schedule == [] then s
    else
      var front, i := schedule[..|schedule| - 1], schedule[|schedule| - 1];
      NamesFront(schedule, |keys|);
      Act(keys, steps, Run(keys, steps, s, front), i)
  }

  /** n steps of one function on its own. */
  ghost function Alone<L, V>(step: Step<L, V>, local: L, value: Option<V>, n: nat): (L, Option<V>) {
    if n == 0 then (local, value)
    else
      var (l, v) := Alone(step, local, value, n - 1);
      step(l, v)
  }

  ghost predicate IsAlone<L, V>(keys: seq<ObjectKey>, steps: seq<Step<L, V>>, s: Cluster<L, V>, r: Cluster<L, V>,
                                i: nat, n: nat)
    requires Fits(keys, steps, s) && Fits(keys, steps, r) && i < |keys|
  {
    (r.locals[i], Value(r.objects, keys[i])) == Alone(steps[i], s.locals[i], Value(s.objects, keys[i]), n)
  }

  /** On different objects each function gets as far as it would have got alone. */
  lemma {:induction false} EachIsAlone<L, V>(keys: seq<ObjectKey>, steps: seq<Step<L, V>>, s: Cluster<L, V>,
                                             schedule: seq<nat>)
    requires Fits(keys, steps, s) && Names(schedule, |keys|) && Distinct(keys)
    ensures var r := Run(keys, steps, s, schedule);
            && (forall i :: 0 <= i < |keys| ==> IsAlone(keys, steps, s, r, i, multiset(schedule)[i]))
            && (forall key :: key !in keys ==> Value(r.objects, key) == Value(s.objects, key))
  {
    if schedule != [] {
      var front: seq<nat>, j: nat := schedule[..|schedule| - 1], schedule[|schedule| - 1];
      assert schedule == front + [j];
      NamesFront(schedule, |keys|);
      EachIsAlone(keys, steps, s, front);
      var before := Run(keys, steps, s, front);
      var r := Run(keys, steps, s, schedule);
      assert r == Act(keys, steps, before, j);
      forall i | 0 <= i < |keys| ensures IsAlone(keys, steps, s, r, i, multiset(schedule)[i]) {
        assert IsAlone(keys, steps, s, before, i, multiset(front)[i]);
        assert multiset(schedule)[i] == multiset(front)[i] + if i == j then 1 else 0;
      }
    }
  }

  lemma SameObjects<V>(a: map<ObjectKey, V>, b: map<ObjectKey, V>)
    requires forall k :: Value(a, k) == Value(b, k)
    ensures a == b
  {
    assert forall k :: k in a <==> Value(a, k).Some?;
    assert forall k :: k in b <==> Value(b, k).Some?;
    forall k | k in a ensures k in b && a[k] == b[k] {
      assert Value(a, k) == Value(b, k);
    }
  }

  /** Any two interleavings of the same steps end in the same state. */
  lemma InterleavingsAgree<L, V>(keys: seq<ObjectKey>, steps: seq<Step<L, V>>, s: Cluster<L, V>,
                                 a: seq<nat>, b: seq<nat>)
    requires Fits(keys, steps, s) && Names(a, |keys|) && Names(b, |keys|) && Distinct(keys)
    requires multiset(a) == multiset(b)
    ensures Run(keys, steps, s, a) == Run(keys, steps, s, b)
  {
    EachIsAlone(keys, steps, s, a);
    EachIsAlone(keys, steps, s, b);
    var x, y := Run(keys, steps, s, a), Run(keys, steps, s, b);
    hide Run, Alone, SetValue;
    forall i | 0 <= i < |keys|
      ensures x.locals[i] == y.locals[i] && Value(x.objects, keys[i]) == Value(y.objects, keys[i])
    {
      assert IsAlone(keys, steps, s, x, i, multiset(a)[i]);
      assert IsAlone(keys, steps, s, y, i, multiset(b)[i]);
    }
    forall k ensures Value(x.objects, k) == Value(y.objects, k) {
      if k in keys {
        var i :| 0 <= i < |keys| && keys[i] == k;
      }
    }
    SameObjects(x.objects, y.objects);
  }

  ghost function Count(schedule: seq<nat>, i: nat): nat {
    multiset(schedule)[i]
  }

  ghost function Times(c: nat, i: nat): seq<nat> {
    if c == 0 then [] else Times(c - 1, i) + [i]
  }

  /** The steps of function 0, then those of function 1, and so on. */
  ghost function InTurn(schedule: seq<nat>, n: nat): seq<nat> {
    if n == 0 then [] else InTurn(schedule, n - 1) + Times(Count(schedule, n - 1), n - 1)
  }

  lemma {:induction false} InTurnCount(schedule: seq<nat>, n: nat, i: nat)
    ensures Count(InTurn(schedule, n), i) == if i < n then Count(schedule, i) else 0
    decreases n
  {
    if n > 0 {
      InTurnCount(schedule, n - 1, i);
      InTurnStep(schedule, n, i);
    }
  }

  lemma InTurnStep(schedule: seq<nat>, n: nat, i: nat)
    requires n > 0
    ensures Count(InTurn(schedule, n), i) ==
            Count(InTurn(schedule, n - 1), i) + if i == n - 1 then Count(schedule, i) else 0
  {
    hide Count;
    OneMoreTurn(InTurn(schedule, n - 1), Count(schedule, n - 1), n - 1, i);
  }

  lemma OneMoreTurn(turns: seq<nat>, c: nat, x: nat, i: nat)
    ensures Count(turns + Times(c, x), i) == Count(turns, i) + if i == x then c else 0
  {
    TimesCounts(c, x, i);
    CountOfConcat(turns, Times(c, x), i);
  }

  lemma {:induction false} TimesCounts(c: nat, x: nat, i: nat)
    ensures multiset(Times(c, x))[i] == if i == x then c else 0
  {
    if c > 0 {
      TimesCounts(c - 1, x, i);
      CountOfConcat(Times(c - 1, x), [x], i);
    }
  }

  /** The nine functions of one driver, interleaved in any way, end as if they had run
      one after the other. */
  lemma ConcurrentIsSequential<L, V>(d: Driver, steps: seq<Step<L, V>>, s: Cluster<L, V>, schedule: seq<nat>)
    requires Fits(Objects(d), steps, s) && Names(schedule, 9)
    ensures Names(InTurn(schedule, 9), 9)
    ensures Run(Objects(d), steps, s, schedule) == Run(Objects(d), steps, s, InTurn(schedule, 9))
  {
    var turn := InTurn(schedule, 9);
    hide InTurn, Objects;
    forall k | 0 <= k < |turn| ensures turn[k] < 9 {
      InTurnCount(schedule, 9, turn[k]);
      assert multiset(turn)[turn[k]] > 0;
    }
    forall i: nat ensures multiset(turn)[i] == multiset(schedule)[i] {
      InTurnCount(schedule, 9, i);
      assert i in multiset(schedule) <==> i in schedule;
    }
    ObjectsAreDistinct(d);
    InterleavingsAgree(Objects(d), steps, s, schedule, turn);
  }
}
