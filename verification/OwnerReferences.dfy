/** Owner references of an API object: the membership test by UID, the
    replace-or-append and the removal by (group, kind, name), and the toggle that
    combines them. */
module OwnerReferences {
  import opened Prelude

  datatype Key = Key(group: string, kind: string, name: string)

  datatype Ref = Ref(key: Key, uid: string)

  /** What the toggle reads of an owner: its identity, its UID, its namespace. */
  datatype Owner = Owner(key: Key, uid: string, namespace: string)

  datatype Outcome = Outcome(refs: seq<Ref>, changed: bool, failed: bool)

  predicate HasUid(refs: seq<Ref>, uid: string) {
    exists i :: 0 <= i < |refs| && refs[i].uid == uid
  }

  /** Position of the first reference to `key`, or -1. */
  function IndexOf(refs: seq<Ref>, key: Key): (i: int)
    ensures -1 <= i < |refs|
    ensures i >= 0 ==> refs[i].key == key && forall j :: 0 <= j < i ==> refs[j].key != key
    ensures i == -1 ==> forall j :: 0 <= j < |refs| ==> refs[j].key != key
  {
    if refs == [] then -1
    else if refs[0].key == key then 0
    else var r := IndexOf(refs[1..], key); if r == -1 then -1 else r + 1
  }

  /** A namespaced owner may own only objects of its own namespace. */
  predicate OwnerAllowed(owner: Owner, namespace: string) {
    owner.namespace == "" || owner.namespace == namespace
  }

  function Upsert(refs: seq<Ref>, ref: Ref): seq<Ref> {
    var i := IndexOf(refs, ref.key);
    if i == -1 then refs + [ref] else refs[i := ref]
  }

  /** The list without its element i; the later ones move up. */
  function Removed(refs: seq<Ref>, i: nat): seq<Ref>
    requires i < |refs|
  {
    refs[..i] + refs[i + 1..]
  }

  function Toggle(on: bool, refs: seq<Ref>, owner: Owner, namespace: string): Outcome {
    var owned := HasUid(refs, owner.uid);
    if on && !owned then
      if OwnerAllowed(owner, namespace)
      then Outcome(Upsert(refs, Ref(owner.key, owner.uid)), true, false)
      else Outcome(refs, false, true)
    else if !on && owned then
      var i := IndexOf(refs, owner.key);
      if i == -1 then Outcome(refs, false, true) else Outcome(Removed(refs, i), true, false)
    else
      Outcome(refs, false, false)
  }

  // ---------------------------------------------------------------- in place

  /** The object's metadata, as the helpers update it. */
  class ObjectMeta {
    const namespace: string
    var ownerReferences: seq<Ref>

    constructor (namespace: string, refs: seq<Ref>)
      ensures this.namespace == namespace && ownerReferences == refs
    {
      this.namespace := namespace;
      ownerReferences := refs;
    }

    method IsOwnedBy(owner: Owner) returns (owned: bool)
      ensures owned <==> HasUid(ownerReferences, owner.uid)
    {
      for i := 0 to |ownerReferences|
        invariant forall j :: 0 <= j < i ==> ownerReferences[j].uid != owner.uid
      {
        if owner.uid == ownerReferences[i].uid {
          return true;
        }
      }
      return false;
    }

    method IndexOwnerRef(key: Key) returns (index: int)
      ensures index == IndexOf(ownerReferences, key)
    {
      for i := 0 to |ownerReferences|
        invariant forall j :: 0 <= j < i ==> ownerReferences[j].key != key
      {
        if ownerReferences[i].key == key {
          return i;
        }
      }
      return -1;
    }

    method SetOwnerReference(owner: Owner) returns (failed: bool)
      modifies this
      ensures failed <==> !OwnerAllowed(owner, namespace)
      ensures ownerReferences ==
              if failed then old(ownerReferences) else Upsert(old(ownerReferences), Ref(owner.key, owner.uid))
    {
      if owner.namespace != "" && owner.namespace != namespace {
        return true;
      }
      var ref := Ref(owner.key, owner.uid);
      var index := IndexOwnerRef(owner.key);
      if index == -1 {
        ownerReferences := ownerReferences + [ref];
      } else {
        ownerReferences := ownerReferences[index := ref];
      }
      return false;
    }

    method RemoveOwnerReference(owner: Owner) returns (failed: bool)
      modifies this
      ensures var i := IndexOf(old(ownerReferences), owner.key);
              && (failed <==> i == -1)
              && ownerReferences == if failed then old(ownerReferences) else Removed(old(ownerReferences), i)
    {
      var index := IndexOwnerRef(owner.key);
      if index == -1 {
        return true;
      }
      ownerReferences := ownerReferences[..index] + ownerReferences[index + 1..];
      return false;
    }

    method ToggleOwnerReference(on: bool, owner: Owner) returns (changed: bool, failed: bool)
      modifies this
      ensures Outcome(ownerReferences, changed, failed) ==
              Toggle(on, old(ownerReferences), owner, namespace)
    {
      var owned := IsOwnedBy(owner);
      if on {
        if !owned {
          failed := SetOwnerReference(owner);
          return !failed, failed;
        }
      } else if owned {
        failed := RemoveOwnerReference(owner);
        return !failed, failed;
      }
      return false, false;
    }
  }

  // ------------------------------------------------- one call: what it means

  ghost predicate UniqueKeys(refs: seq<Ref>) {
    forall i, j :: 0 <= i < j < |refs| ==> refs[i].key != refs[j].key
  }

  ghost predicate UniqueUids(refs: seq<Ref>) {
    forall i, j :: 0 <= i < j < |refs| ==> refs[i].uid != refs[j].uid
  }

  ghost predicate WellFormed(refs: seq<Ref>) {
    UniqueKeys(refs) && UniqueUids(refs)
  }

  /** A UID belongs to one object: a reference that carries the owner's UID is a
      reference to the owner. */
  ghost predicate Identifies(refs: seq<Ref>, owner: Owner) {
    forall i :: 0 <= i < |refs| && refs[i].uid == owner.uid ==> refs[i].key == owner.key
  }

  /** The references to anything but `key`, in order. */
  ghost function Others(refs: seq<Ref>, key: Key): (o: seq<Ref>)
    ensures forall r :: r in o <==> r in refs && r.key != key
  {
    if refs == [] then []
    else (if refs[0].key == key then [] else [refs[0]]) + Others(refs[1..], key)
  }

  lemma {:induction false} OthersConcat(a: seq<Ref>, b: seq<Ref>, key: Key)
    ensures Others(a + b, key) == Others(a, key) + Others(b, key)
  {
    if a == [] {
      assert a + b == b;
    } else {
      OthersConcat(a[1..], b, key);
      DropOfConcat(a, b);
      ConcatAssociates(if a[0].key == key then [] else [a[0]], Others(a[1..], key), Others(b, key));
    }
  }

  lemma OthersAround(refs: seq<Ref>, i: int, middle: seq<Ref>, key: Key)
    requires 0 <= i < |refs| && refs[i].key == key
    requires |middle| <= 1 && forall r :: r in middle ==> r.key == key
    ensures Others(refs[..i] + middle + refs[i + 1..], key) == Others(refs, key)
  {
    assert refs == refs[..i] + [refs[i]] + refs[i + 1..];
    OthersConcat(refs[..i] + [refs[i]], refs[i + 1..], key);
    OthersConcat(refs[..i], [refs[i]], key);
    OthersConcat(refs[..i] + middle, refs[i + 1..], key);
    OthersConcat(refs[..i], middle, key);
    assert Others([refs[i]], key) == [];
    assert Others(middle, key) == [];
  }

  /** References to other owners keep their content and their order, whatever the
      list looks like. */
  lemma ToggleKeepsOthers(on: bool, refs: seq<Ref>, owner: Owner, namespace: string)
    ensures Others(Toggle(on, refs, owner, namespace).refs, owner.key) == Others(refs, owner.key)
  {
    hide Upsert, Removed, Others;
    if on {
      UpsertKeepsOthers(refs, Ref(owner.key, owner.uid));
    } else {
      var i := IndexOf(refs, owner.key);
      if i != -1 {
        RemovedKeepsOthers(refs, i, owner.key);
      }
    }
  }

  lemma RemovedKeepsOthers(refs: seq<Ref>, i: nat, key: Key)
    requires i < |refs| && refs[i].key == key
    ensures Others(Removed(refs, i), key) == Others(refs, key)
  {
    OthersAround(refs, i, [], key);
    ConcatEmpty(refs[..i]);
  }

  lemma UpsertKeepsOthers(refs: seq<Ref>, ref: Ref)
    ensures Others(Upsert(refs, ref), ref.key) == Others(refs, ref.key)
  {
    hide Others;
    var i := IndexOf(refs, ref.key);
    if i == -1 {
      OthersConcat(refs, [ref], ref.key);
      OthersOfOne(ref, ref.key);
      ConcatEmpty(Others(refs, ref.key));
    } else {
      UpdateSplits(refs, i, ref);
      OthersAround(refs, i, [ref], ref.key);
    }
  }

  lemma OthersOfOne(ref: Ref, key: Key)
    ensures Others([ref], key) == if ref.key == key then [] else [ref]
  {
  }

  /** On a well-formed list the toggle never fails to remove, keeps the list well
      formed, says "changed" exactly when the list changed, and leaves the owner
      referenced or not as asked. */
  lemma ToggleMeaning(on: bool, refs: seq<Ref>, owner: Owner, namespace: string)
    requires WellFormed(refs) && Identifies(refs, owner)
    ensures var o := Toggle(on, refs, owner, namespace);
            && WellFormed(o.refs)
            && (o.changed <==> o.refs != refs)
            && (o.failed <==> on && !HasUid(refs, owner.uid) && owner.namespace != "" && owner.namespace != namespace)
            && (!o.failed ==> (HasUid(o.refs, owner.uid) <==> on))
            && (forall uid :: uid != owner.uid ==>
                  (HasUid(o.refs, uid) <==>
                     HasUid(refs, uid) &&
                     !(on && o.changed && Ref(owner.key, uid) in refs)))
  {
    hide Removed, WellFormed;
    var i := IndexOf(refs, owner.key);
    if on {
      if !HasUid(refs, owner.uid) {
        if i == -1 {
          UpsertAppends(refs, owner);
        } else {
          UpsertReplaces(refs, owner, i);
        }
      }
    } else if HasUid(refs, owner.uid) {
      RemovalDrops(refs, owner, i);
    }
  }

  /** An allowed owner is recorded by the toggle, whatever the list looks like. */
  lemma ToggleOnRecords(refs: seq<Ref>, owner: Owner, namespace: string)
    requires OwnerAllowed(owner, namespace)
    ensures !Toggle(true, refs, owner, namespace).failed
    ensures HasUid(Toggle(true, refs, owner, namespace).refs, owner.uid)
  {
    var i := IndexOf(refs, owner.key);
    var r := Upsert(refs, Ref(owner.key, owner.uid));
    assert r[if i == -1 then |refs| else i] == Ref(owner.key, owner.uid);
  }

  lemma UpsertAppends(refs: seq<Ref>, owner: Owner)
    requires WellFormed(refs) && !HasUid(refs, owner.uid) && IndexOf(refs, owner.key) == -1
    ensures var r := refs + [Ref(owner.key, owner.uid)];
            && WellFormed(r) && HasUid(r, owner.uid)
            && (forall uid :: uid != owner.uid ==> (HasUid(r, uid) <==> HasUid(refs, uid)))
            && (forall uid :: Ref(owner.key, uid) !in refs)
  {
    var r := refs + [Ref(owner.key, owner.uid)];
    assert r[|refs|].uid == owner.uid;
    forall uid | uid != owner.uid ensures HasUid(r, uid) <==> HasUid(refs, uid) {
      if HasUid(refs, uid) {
        var j :| 0 <= j < |refs| && refs[j].uid == uid;
        assert r[j].uid == uid;
      }
    }
  }

  lemma UpsertReplaces(refs: seq<Ref>, owner: Owner, i: int)
    requires WellFormed(refs) && !HasUid(refs, owner.uid) && i == IndexOf(refs, owner.key) >= 0
    ensures var r := refs[i := Ref(owner.key, owner.uid)];
            && WellFormed(r) && HasUid(r, owner.uid) && r != refs
            && (forall uid :: uid != owner.uid ==>
                  (HasUid(r, uid) <==> HasUid(refs, uid) && Ref(owner.key, uid) !in refs))
  {
    var r := refs[i := Ref(owner.key, owner.uid)];
    assert r[i].uid == owner.uid && refs[i].uid != owner.uid;
    forall uid | uid != owner.uid
      ensures HasUid(r, uid) <==> HasUid(refs, uid) && Ref(owner.key, uid) !in refs
    {
      if HasUid(r, uid) {
        var j :| 0 <= j < |r| && r[j].uid == uid;
        assert j != i && refs[j].uid == uid;
      }
      if HasUid(refs, uid) && Ref(owner.key, uid) !in refs {
        var j :| 0 <= j < |refs| && refs[j].uid == uid;
        assert refs[j] == Ref(refs[j].key, uid);
        assert j != i && r[j].uid == uid;
      }
    }
  }

  lemma RemovalDrops(refs: seq<Ref>, owner: Owner, i: int)
    requires WellFormed(refs) && Identifies(refs, owner) && HasUid(refs, owner.uid)
    requires i == IndexOf(refs, owner.key)
    ensures i >= 0 && refs[i].uid == owner.uid
    ensures var r := Removed(refs, i);
            && WellFormed(r) && !HasUid(r, owner.uid) && r != refs
            && (forall uid :: uid != owner.uid ==> (HasUid(r, uid) <==> HasUid(refs, uid)))
  {
    var k :| 0 <= k < |refs| && refs[k].uid == owner.uid;
    assert k == i;
    Without(refs, i);
  }

  lemma Without(refs: seq<Ref>, i: nat)
    requires WellFormed(refs) && i < |refs|
    ensures var r := Removed(refs, i);
            && WellFormed(r)
            && (forall uid :: HasUid(r, uid) <==> HasUid(refs, uid) && uid != refs[i].uid)
  {
    var r := Removed(refs, i);
    assert forall j :: 0 <= j < |r| ==> r[j] == refs[if j < i then j else j + 1];
    forall uid ensures HasUid(r, uid) <==> HasUid(refs, uid) && uid != refs[i].uid {
      if HasUid(refs, uid) && uid != refs[i].uid {
        var j :| 0 <= j < |refs| && refs[j].uid == uid;
        assert r[if j < i then j else j - 1].uid == uid;
      }
    }
  }

  // ------------------------------------------------------- any call sequence

  datatype Call = Call(on: bool, owner: Owner)

  ghost function AfterCalls(refs: seq<Ref>, calls: seq<Call>, namespace: string): seq<Ref> {
    if calls == [] then refs
    else
      var last := calls[|calls| - 1];
      Toggle(last.on, AfterCalls(refs, calls[..|calls| - 1], namespace), last.owner, namespace).refs
  }

  /** One UID, one object, over the initial list and all calls. */
  ghost predicate OneObjectPerUid(refs: seq<Ref>, calls: seq<Call>) {
    && (forall i :: 0 <= i < |calls| ==> Identifies(refs, calls[i].owner))
    && (forall i, j :: 0 <= i < |calls| && 0 <= j < |calls| && calls[i].owner.uid == calls[j].owner.uid ==>
          calls[i].owner.key == calls[j].owner.key)
  }

  /** The call ends the ownership of (key, uid): it switches that UID off, or
      records a re-created owner of the same name. */
  predicate Ends(call: Call, ref: Ref) {
    if call.on then call.owner.key == ref.key && call.owner.uid != ref.uid
    else call.owner.uid == ref.uid
  }

  predicate Starts(call: Call, ref: Ref) {
    call.on && call.owner.key == ref.key && call.owner.uid == ref.uid
  }

  ghost predicate LastToggledOn(refs: seq<Ref>, calls: seq<Call>, ref: Ref) {
    || (ref in refs && forall j :: 0 <= j < |calls| ==> !Ends(calls[j], ref))
    || (exists i :: 0 <= i < |calls| && Starts(calls[i], ref) &&
                    forall j :: i < j < |calls| ==> !Ends(calls[j], ref))
  }

  /** After any sequence of calls the references are exactly those last toggled on
      and not superseded since; no call fails. */
  lemma {:induction false} OwnersAfterAnyCalls(refs: seq<Ref>, calls: seq<Call>, namespace: string)
    requires WellFormed(refs) && OneObjectPerUid(refs, calls)
    requires forall i :: 0 <= i < |calls| ==> OwnerAllowed(calls[i].owner, namespace)
    ensures WellFormed(AfterCalls(refs, calls, namespace))
    ensures forall ref :: ref in AfterCalls(refs, calls, namespace) <==> LastToggledOn(refs, calls, ref)
    ensures calls != [] ==>
              var last := calls[|calls| - 1];
              !Toggle(last.on, AfterCalls(refs, calls[..|calls| - 1], namespace), last.owner, namespace).failed
  {
    if calls != [] {
      var front, last := calls[..|calls| - 1], calls[|calls| - 1];
      OwnersAfterAnyCalls(refs, front, namespace);
      var before := AfterCalls(refs, front, namespace);
      ReferencesComeFromSomewhere(refs, front, namespace, last.owner);
      ToggleMeaning(last.on, before, last.owner, namespace);
      forall ref
        ensures ref in AfterCalls(refs, calls, namespace) <==> LastToggledOn(refs, calls, ref)
      {
        ToggleOneRef(last, before, namespace, ref);
        LastToggledOnStep(refs, front, last, ref);
        assert front + [last] == calls;
      }
    }
  }

  lemma ReferencesComeFromSomewhere(refs: seq<Ref>, calls: seq<Call>, namespace: string, owner: Owner)
    requires forall ref :: ref in AfterCalls(refs, calls, namespace) ==> LastToggledOn(refs, calls, ref)
    requires Identifies(refs, owner)
    requires forall i :: 0 <= i < |calls| && calls[i].owner.uid == owner.uid ==> calls[i].owner.key == owner.key
    ensures Identifies(AfterCalls(refs, calls, namespace), owner)
  {
    var now := AfterCalls(refs, calls, namespace);
    forall i | 0 <= i < |now| && now[i].uid == owner.uid ensures now[i].key == owner.key {
      assert now[i] in now;
      assert LastToggledOn(refs, calls, now[i]);
    }
  }

  lemma ToggleOneRef(call: Call, refs: seq<Ref>, namespace: string, ref: Ref)
    requires WellFormed(refs) && Identifies(refs, call.owner) && OwnerAllowed(call.owner, namespace)
    ensures ref in Toggle(call.on, refs, call.owner, namespace).refs <==>
            Starts(call, ref) || (ref in refs && !Ends(call, ref))
  {
    ToggleIdentifies(call, refs, namespace);
    var owner := call.owner;
    var r := Toggle(call.on, refs, owner, namespace).refs;
    ToggleMeaning(call.on, refs, owner, namespace);
    ToggleKeepsOthers(call.on, refs, owner, namespace);
    if ref.key != owner.key {
      assert ref in Others(refs, owner.key) <==> ref in refs;
      assert ref in Others(r, owner.key) <==> ref in r;
    } else if ref.uid == owner.uid {
      OwnRef(refs, owner);
      OwnRef(r, owner);
    } else {
      RivalRef(call, refs, namespace, ref);
    }
  }

  lemma ToggleIdentifies(call: Call, refs: seq<Ref>, namespace: string)
    requires Identifies(refs, call.owner)
    ensures Identifies(Toggle(call.on, refs, call.owner, namespace).refs, call.owner)
  {
  }

  lemma OwnRef(refs: seq<Ref>, owner: Owner)
    requires Identifies(refs, owner)
    ensures Ref(owner.key, owner.uid) in refs <==> HasUid(refs, owner.uid)
  {
    if HasUid(refs, owner.uid) {
      var k :| 0 <= k < |refs| && refs[k].uid == owner.uid;
      assert refs[k] == Ref(refs[k].key, refs[k].uid);
    }
  }

  /** A reference to an earlier object of the same name. */
  lemma RivalRef(call: Call, refs: seq<Ref>, namespace: string, ref: Ref)
    requires WellFormed(refs) && Identifies(refs, call.owner) && OwnerAllowed(call.owner, namespace)
    requires ref.key == call.owner.key && ref.uid != call.owner.uid
    ensures ref in Toggle(call.on, refs, call.owner, namespace).refs <==> ref in refs && !call.on
  {
    var owner := call.owner;
    var r := Toggle(call.on, refs, owner, namespace).refs;
    ToggleMeaning(call.on, refs, owner, namespace);
    ToggleAddsOnlyOwner(call.on, refs, owner, namespace);
    hide Toggle, IndexOf;
    if ref in refs {
      assert HasUid(refs, ref.uid);
      NoOtherRefOfKey(refs, owner, ref);
      if !call.on {
        var k :| 0 <= k < |r| && r[k].uid == ref.uid;
        assert r[k] in r;
        OneRefPerUid(refs, r[k], ref);
      }
    }
    if ref in r {
      assert HasUid(r, ref.uid);
      assert ref in refs;
    }
  }

  lemma ToggleAddsOnlyOwner(on: bool, refs: seq<Ref>, owner: Owner, namespace: string)
    ensures forall x :: x in Toggle(on, refs, owner, namespace).refs ==> x in refs || x == Ref(owner.key, owner.uid)
  {
  }

  lemma NoOtherRefOfKey(refs: seq<Ref>, owner: Owner, ref: Ref)
    requires UniqueKeys(refs) && Identifies(refs, owner) && ref in refs
    requires ref.key == owner.key && ref.uid != owner.uid
    ensures !HasUid(refs, owner.uid)
  {
  }

  lemma OneRefPerUid(refs: seq<Ref>, a: Ref, b: Ref)
    requires UniqueUids(refs) && a in refs && b in refs && a.uid == b.uid
    ensures a == b
  {
  }

  lemma LastToggledOnStep(refs: seq<Ref>, front: seq<Call>, last: Call, ref: Ref)
    ensures LastToggledOn(refs, front + [last], ref) <==>
            Starts(last, ref) || (LastToggledOn(refs, front, ref) && !Ends(last, ref))
  {
    var calls := front + [last];
    assert forall j :: 0 <= j < |front| ==> calls[j] == front[j];
    assert calls[|front|] == last;
    if LastToggledOn(refs, front, ref) && !Ends(last, ref) {
      if i :| 0 <= i < |front| && Starts(front[i], ref) && forall j :: i < j < |front| ==> !Ends(front[j], ref) {
        assert Starts(calls[i], ref) && forall j :: i < j < |calls| ==> !Ends(calls[j], ref);
      }
    }
    if LastToggledOn(refs, calls, ref) && !Starts(last, ref) {
      assert !Ends(calls[|front|], ref);
      if i :| 0 <= i < |calls| && Starts(calls[i], ref) && forall j :: i < j < |calls| ==> !Ends(calls[j], ref) {
        assert Starts(front[i], ref) && forall j :: i < j < |front| ==> !Ends(front[j], ref);
      }
    }
  }
}
