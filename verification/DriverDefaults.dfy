/** Filling the unset fields of a driver's specification with the operator's
    defaults, without sharing any object with them. */
module DriverDefaults {
  import opened Prelude

  datatype Field =
    | Log | ImageSet | ClusterName | EnableMetadata | EnableFencing | GRpcTimeout | SnapshotPolicy | GenerateOMapInfo
    | FsGroupPolicy | Encryption | AttachRequired | Liveness | LeaderElection | DeployCsiAddons | CephFsClientType
    | KernelMountOptions | FuseMountOptions
    // of a plugin specification
    | ServiceAccountName | PriorityClassName | Labels | Annotations | Affinity | Tolerations | Volumes | ImagePullPolicy
    | UpdateStrategy | KubeletDirPath | EnableSeLinuxHostMount | Topology | ContainerExtraArgs
    | HostNetwork | DeploymentStrategy | Replicas | Privileged
    | RegistrarResources | LivenessResources | AddonsResources | LogRotatorResources | PluginResources
    | AttacherResources | SnapshotterResources | ResizerResources | ProvisionerResources | OMapGeneratorResources

  /** The fields of each part that are merged one by one. */
  const DRIVER_MERGED := {Log, ClusterName, GRpcTimeout, SnapshotPolicy, GenerateOMapInfo, EnableFencing, FsGroupPolicy,
                         Encryption, AttachRequired, Liveness, LeaderElection, DeployCsiAddons, KernelMountOptions,
                         FuseMountOptions, CephFsClientType}

  const NODE_MERGED := {ServiceAccountName, PriorityClassName, Labels, Annotations, Affinity, Tolerations, Volumes,
                       ImagePullPolicy, UpdateStrategy, KubeletDirPath, EnableSeLinuxHostMount, RegistrarResources,
                       LivenessResources, PluginResources, LogRotatorResources, AddonsResources, ContainerExtraArgs}

  const CONTROLLER_MERGED := {ServiceAccountName, PriorityClassName, Labels, Annotations, Affinity, Tolerations, Volumes,
                             ImagePullPolicy, Replicas, Privileged, AttacherResources, SnapshotterResources,
                             ResizerResources, ProvisionerResources, OMapGeneratorResources, LivenessResources,
                             PluginResources, LogRotatorResources, AddonsResources, ContainerExtraArgs}

  /** What a field holds: a scalar, or a structure of any depth whose inner pointers,
      slices and maps are the children. */
  datatype Content = Content(text: string, children: seq<Content>)

  /** The set fields with their contents. Unset is nil for a pointer, a slice or a map,
      zero for a number, empty for a text; a map or slice that is empty but not nil is set. */
  type Fields = map<Field, Content>

  datatype Spec = Spec(fields: Fields, node: Option<Fields>, controller: Option<Fields>)

  // ------------------------------------------------------------------- values

  function FillIn<V>(dest: map<Field, V>, src: map<Field, V>, merged: set<Field>): map<Field, V> {
    map f | f in dest.Keys + src.Keys * merged :: if f in dest then dest[f] else src[f]
  }

  /** A missing part is taken over as a whole, a present one is filled in. */
  function FillPart(dest: Option<Fields>, src: Option<Fields>, merged: set<Field>): Option<Fields> {
    if src.None? then dest
    else if dest.None? then src
    else Some(FillIn(dest.value, src.value, merged))
  }

  function Merge(dest: Spec, src: Spec): Spec {
    Spec(FillIn(dest.fields, src.fields, DRIVER_MERGED),
         FillPart(dest.node, src.node, NODE_MERGED),
         FillPart(dest.controller, src.controller, CONTROLLER_MERGED))
  }

  /** The fields in `skipped` come over only with the whole part. */
  ghost predicate PartIsLeftBiased(dest: Option<Fields>, src: Option<Fields>, r: Option<Fields>, skipped: set<Field>) {
    && (r.Some? <==> dest.Some? || src.Some?)
    && (dest.Some? ==>
          && (forall f :: f in dest.value ==> f in r.value && r.value[f] == dest.value[f])
          && (forall f :: f in r.value && f !in dest.value ==>
                src.Some? && f in src.value && r.value[f] == src.value[f] && f !in skipped))
    && (dest.None? ==> r == src)
  }

  lemma FilledPart(dest: Option<Fields>, src: Option<Fields>, merged: set<Field>, skipped: set<Field>)
    requires forall f :: f in skipped ==> f !in merged
    ensures PartIsLeftBiased(dest, src, FillPart(dest, src, merged), skipped)
  {
  }

  /** The driver's own settings win, and the defaults show only where they are missing. */
  lemma MergeIsLeftBiased(dest: Spec, src: Spec)
    ensures var r := Merge(dest, src);
            && PartIsLeftBiased(Some(dest.fields), Some(src.fields), Some(r.fields), {ImageSet, EnableMetadata})
            && PartIsLeftBiased(dest.node, src.node, r.node, {Topology})
            && PartIsLeftBiased(dest.controller, src.controller, r.controller, {HostNetwork, DeploymentStrategy})
  {
    FilledPart(Some(dest.fields), Some(src.fields), DRIVER_MERGED, {ImageSet, EnableMetadata});
    FilledPart(dest.node, src.node, NODE_MERGED, {Topology});
    FilledPart(dest.controller, src.controller, CONTROLLER_MERGED, {HostNetwork, DeploymentStrategy});
    hide FillIn, PartIsLeftBiased;
  }

  // The fields of each part, as its type declares them.

  predicate DriverField(f: Field) {
    f.Log? || f.ImageSet? || f.ClusterName? || f.EnableMetadata? || f.EnableFencing? || f.GRpcTimeout? ||
    f.SnapshotPolicy? || f.GenerateOMapInfo? || f.FsGroupPolicy? || f.Encryption? || f.AttachRequired? ||
    f.Liveness? || f.LeaderElection? || f.DeployCsiAddons? || f.CephFsClientType? || f.KernelMountOptions? ||
    f.FuseMountOptions?
  }

  predicate PodField(f: Field) {
    f.ServiceAccountName? || f.PriorityClassName? || f.Labels? || f.Annotations? || f.Affinity? || f.Tolerations? ||
    f.Volumes? || f.ImagePullPolicy? || f.ContainerExtraArgs? ||
    f.LivenessResources? || f.AddonsResources? || f.LogRotatorResources? || f.PluginResources?
  }

  predicate NodeField(f: Field) {
    PodField(f) || f.UpdateStrategy? || f.KubeletDirPath? || f.EnableSeLinuxHostMount? || f.Topology? ||
    f.RegistrarResources?
  }

  predicate ControllerField(f: Field) {
    PodField(f) || f.HostNetwork? || f.DeploymentStrategy? || f.Replicas? || f.Privileged? ||
    f.AttacherResources? || f.SnapshotterResources? || f.ResizerResources? || f.ProvisionerResources? ||
    f.OMapGeneratorResources?
  }

  /** f is set in r exactly where dest sets it, or src does and it is not skipped; with
      the contents dest gives it, else those of src. */
  ghost predicate FieldIsFilled(dest: Fields, src: Fields, r: Fields, f: Field, skipped: set<Field>) {
    && (f in r <==> f in dest || (f in src && f !in skipped))
    && (f in dest ==> r[f] == dest[f])
    && (f in r && f !in dest ==> r[f] == src[f])
  }

  /** What becomes of each field: the driver's own value, else the default. A part that
      the driver lacks is taken over whole. */
  lemma EveryFieldIsFilled(dest: Spec, src: Spec)
    ensures var r := Merge(dest, src);
            && (forall f :: DriverField(f) ==>
                  FieldIsFilled(dest.fields, src.fields, r.fields, f, {ImageSet, EnableMetadata}))
            && r.node == (if dest.node.Some? && src.node.Some? then r.node
                          else if dest.node.Some? then dest.node else src.node)
            && (dest.node.Some? && src.node.Some? ==>
                  && r.node.Some?
                  && (forall f :: NodeField(f) ==>
                        FieldIsFilled(dest.node.value, src.node.value, r.node.value, f, {Topology})))
            && r.controller == (if dest.controller.Some? && src.controller.Some? then r.controller
                                else if dest.controller.Some? then dest.controller else src.controller)
            && (dest.controller.Some? && src.controller.Some? ==>
                  && r.controller.Some?
                  && (forall f :: ControllerField(f) ==>
                        FieldIsFilled(dest.controller.value, src.controller.value, r.controller.value, f,
                                      {HostNetwork, DeploymentStrategy})))
  {
    DriverFieldsAreMerged();
    NodeFieldsAreMerged();
    ControllerFieldsAreMerged();
    hide DriverField, NodeField, ControllerField, FieldIsFilled, FillIn;
    FilledFields(dest.fields, src.fields, DRIVER_MERGED, {ImageSet, EnableMetadata});
    if dest.node.Some? && src.node.Some? {
      FilledFields(dest.node.value, src.node.value, NODE_MERGED, {Topology});
    }
    if dest.controller.Some? && src.controller.Some? {
      FilledFields(dest.controller.value, src.controller.value, CONTROLLER_MERGED, {HostNetwork, DeploymentStrategy});
    }
  }

  lemma FilledFields(dest: Fields, src: Fields, merged: set<Field>, skipped: set<Field>)
    ensures forall f :: (f in merged <==> f !in skipped) ==>
              FieldIsFilled(dest, src, FillIn(dest, src, merged), f, skipped)
  {
  }

  lemma DriverFieldsAreMerged()
    ensures forall f :: DriverField(f) ==> (f in DRIVER_MERGED <==> f !in {ImageSet, EnableMetadata})
  {
  }

  lemma NodeFieldsAreMerged()
    ensures forall f :: NodeField(f) ==> (f in NODE_MERGED <==> f !in {Topology})
  {
  }

  lemma ControllerFieldsAreMerged()
    ensures forall f :: ControllerField(f) ==> (f in CONTROLLER_MERGED <==> f !in {HostNetwork, DeploymentStrategy})
  {
  }

  lemma FillInLaws<V>(a: map<Field, V>, b: map<Field, V>, c: map<Field, V>, merged: set<Field>)
    ensures FillIn(a, a, merged) == a
    ensures FillIn(FillIn(a, b, merged), b, merged) == FillIn(a, b, merged)
    ensures FillIn(FillIn(a, b, merged), c, merged) == FillIn(a, FillIn(b, c, merged), merged)
  {
  }

  lemma FillPartLaws(a: Option<Fields>, b: Option<Fields>, c: Option<Fields>, merged: set<Field>)
    ensures FillPart(a, a, merged) == a
    ensures FillPart(FillPart(a, b, merged), b, merged) == FillPart(a, b, merged)
    ensures FillPart(FillPart(a, b, merged), c, merged) == FillPart(a, FillPart(b, c, merged), merged)
  {
    hide FillIn;
    var none: Fields := map[];
    var x, y, z := if a.Some? then a.value else none, if b.Some? then b.value else none, if c.Some? then c.value else none;
    FillInLaws(x, y, z, merged);
    FillInLaws(y, y, z, merged);
  }

  /** Merging is idempotent and associative, skipped fields included. */
  lemma MergeLaws(a: Spec, b: Spec, c: Spec)
    ensures Merge(a, a) == a
    ensures Merge(Merge(a, b), b) == Merge(a, b)
    ensures Merge(Merge(a, b), c) == Merge(a, Merge(b, c))
  {
    hide FillIn, FillPart;
    FillInLaws(a.fields, b.fields, c.fields, DRIVER_MERGED);
    FillPartLaws(a.node, b.node, c.node, NODE_MERGED);
    FillPartLaws(a.controller, b.controller, c.controller, CONTROLLER_MERGED);
  }

  // ------------------------------------------------------------------ in place

  /** One object that a pointer, slice or map refers to: what it holds itself, and the
      objects it refers to in turn. */
  class Node {
    var text: string
    var children: seq<Node>
    ghost var Repr: set<Node>

    ghost predicate Valid()
      reads this, Repr
      decreases Repr
    {
      && this in Repr
      && (forall i :: 0 <= i < |children| ==>
            children[i] in Repr && children[i].Repr <= Repr && this !in children[i].Repr && children[i].Valid())
    }

    ghost function Value(): Content
      requires Valid()
      reads this, Repr
      decreases Repr, |children| + 1
    {
      Content(text, ValuesOf(|children|))
    }

    /** The contents of the first n children. */
    ghost function ValuesOf(n: nat): (cs: seq<Content>)
      requires Valid() && n <= |children|
      ensures |cs| == n && forall i :: 0 <= i < n ==> cs[i] == children[i].Value()
      reads this, Repr
      decreases Repr, n
    {
      if n == 0 then [] else ValuesOf(n - 1) + [children[n - 1].Value()]
    }

    constructor (text: string, children: seq<Node>)
      requires forall i :: 0 <= i < |children| ==> children[i].Valid()
      ensures Valid() && this.text == text && this.children == children
      ensures Repr == {this} + Reached(children)
    {
      this.text, this.children := text, children;
      Repr := {this} + Reached(children);
    }

    lemma ChildrenAreSmaller()
      requires Valid()
      ensures forall i :: 0 <= i < |children| ==> children[i].Valid() && children[i].Repr < Repr
    {
    }

    /** A copy of the whole structure, every object of it new. */
    method DeepCopy() returns (copy: Node)
      requires Valid()
      ensures copy.Valid() && fresh(copy.Repr) && copy.Value() == Value()
      decreases Repr, 1
    {
      hide Valid, Value, ValuesOf, Reached;
      ChildrenAreSmaller();
      var copies := CopyChildren();
      copy := new Node(text, copies);
      InReached(copies);
      SameValue(this, copy);
    }

    method CopyChildren() returns (copies: seq<Node>)
      requires Valid()
      ensures |copies| == |children|
      ensures forall j :: 0 <= j < |copies| ==> copies[j].Valid() && fresh(copies[j].Repr)
      ensures forall j :: 0 <= j < |copies| ==> copies[j].Value() == children[j].Value()
      decreases Repr, 0
    {
      hide Valid, Value, ValuesOf;
      ChildrenAreSmaller();
      copies := [];
      for i := 0 to |children|
        invariant |copies| == i
        invariant forall j :: 0 <= j < i ==> copies[j].Valid() && fresh(copies[j].Repr)
        invariant forall j :: 0 <= j < i ==> copies[j].Value() == children[j].Value()
      {
        var child := children[i].DeepCopy();
        copies := copies + [child];
      }
    }
  }

  lemma InReached(nodes: seq<Node>)
    ensures forall o :: o in Reached(nodes) ==> exists i :: 0 <= i < |nodes| && o in nodes[i].Repr
  {
  }

  lemma SameValue(a: Node, b: Node)
    requires a.Valid() && b.Valid() && a.text == b.text && |a.children| == |b.children|
    requires forall i :: 0 <= i < |a.children| ==> a.children[i].Value() == b.children[i].Value()
    ensures a.Value() == b.Value()
  {
    assert a.ValuesOf(|a.children|) == b.ValuesOf(|b.children|);
  }

  /** Everything reachable from the given objects. */
  ghost function Reached(nodes: seq<Node>): set<Node>
    reads set i | 0 <= i < |nodes| :: nodes[i]
  {
    set i, o | 0 <= i < |nodes| && o in nodes[i].Repr :: o
  }

  /** Everything reachable from the given fields. */
  ghost function FieldReach(fields: map<Field, Node>): set<Node>
    reads set f | f in fields :: fields[f]
  {
    set f, o | f in fields && o in fields[f].Repr :: o
  }

  ghost predicate AllValid(fields: map<Field, Node>)
    reads set f | f in fields :: fields[f], FieldReach(fields)
  {
    forall f :: f in fields ==> fields[f].Valid()
  }

  ghost function Contents(fields: map<Field, Node>): Fields
    requires AllValid(fields)
    reads set f | f in fields :: fields[f], FieldReach(fields)
  {
    map f | f in fields :: fields[f].Value()
  }

  /** A part of the specification: the fields of the driver itself or of one plugin. */
  class Part {
    var fields: map<Field, Node>

    constructor (fields: map<Field, Node>)
      ensures this.fields == fields
    {
      this.fields := fields;
    }

    ghost predicate Valid()
      reads this, set f | f in fields :: fields[f], FieldReach(fields)
    {
      AllValid(fields)
    }

    /** Everything reachable from here. */
    ghost function Reach(): set<object>
      reads this, set f | f in fields :: fields[f]
    {
      {this} + FieldReach(fields)
    }

    method DeepCopy() returns (copy: Part)
      requires Valid()
      ensures fresh(copy.Reach()) && copy.Valid() && Contents(copy.fields) == Contents(fields)
    {
      hide Node.Valid, Node.Value;
      var copied: map<Field, Node> := map[];
      var rest := fields.Keys;
      while rest != {}
        invariant rest <= fields.Keys && copied.Keys == fields.Keys - rest
        invariant forall f :: f in copied ==> copied[f].Valid() && fresh(copied[f].Repr)
        invariant forall f :: f in copied ==> copied[f].Value() == fields[f].Value()
      {
        var f :| f in rest;
        var node := fields[f].DeepCopy();
        copied := copied[f := node];
        rest := rest - {f};
      }
      copy := new Part(copied);
    }

    /** Fill the unset fields among `merged` with the objects of `src`. */
    method FillFrom(src: Part, merged: set<Field>)
      requires Valid() && src.Valid()
      modifies this
      ensures fields == FillIn(old(fields), old(src.fields), merged)
      ensures Valid() && Contents(fields) == FillIn(old(Contents(fields)), old(Contents(src.fields)), merged)
      ensures Reach() <= old(Reach()) + old(src.Reach())
    {
      hide Node.Valid, Node.Value;
      FilledContents(fields, src.fields, merged);
      fields := FillIn(fields, src.fields, merged);
    }
  }

  lemma FilledContents(dest: map<Field, Node>, src: map<Field, Node>, merged: set<Field>)
    requires AllValid(dest) && AllValid(src)
    ensures AllValid(FillIn(dest, src, merged))
    ensures Contents(FillIn(dest, src, merged)) == FillIn(Contents(dest), Contents(src), merged)
    ensures FieldReach(FillIn(dest, src, merged)) <= FieldReach(dest) + FieldReach(src)
  {
    hide Node.Valid, Node.Value;
  }

  /** The objects the fields refer to directly. */
  ghost function PartNodes(part: Part?): set<Node>
    reads part
  {
    if part == null then {} else set f | f in part.fields :: part.fields[f]
  }

  ghost function PartReach(part: Part?): set<object>
    reads part, PartNodes(part)
  {
    if part == null then {} else part.Reach()
  }

  ghost predicate PartValid(part: Part?)
    reads part, PartNodes(part), PartReach(part)
  {
    part != null ==> part.Valid()
  }

  ghost function PartValue(part: Part?): (v: Option<Fields>)
    requires PartValid(part)
    ensures v.None? <==> part == null
    reads part, PartNodes(part), PartReach(part)
  {
    if part == null then None else Some(Contents(part.fields))
  }

  twostate lemma NodeKept(node: Node)
    requires old(node.Valid())
    requires forall n :: n in old(node.Repr) ==> unchanged(n)
    ensures node.Repr == old(node.Repr) && node.Valid() && node.Value() == old(node.Value())
  {
  }

  /** A part keeps its value while nothing reachable from it is written to. */
  twostate lemma PartKept(part: Part?)
    requires old(PartValid(part))
    requires part != null ==> unchanged(part) && forall n :: n in old(FieldReach(part.fields)) ==> unchanged(n)
    ensures PartValid(part) && PartValue(part) == old(PartValue(part)) && PartReach(part) == old(PartReach(part))
  {
    hide Node.Valid, Node.Value;
    if part != null {
      forall f | f in part.fields
        ensures part.fields[f].Valid() && part.fields[f].Repr == old(part.fields[f].Repr)
        ensures part.fields[f].Value() == old(part.fields[f].Value())
      {
        assert old(part.fields[f].Repr <= FieldReach(part.fields));
        NodeKept(part.fields[f]);
      }
      assert Contents(part.fields) == old(Contents(part.fields));
    }
  }

  method CopyPart(part: Part?) returns (copy: Part?)
    requires PartValid(part)
    ensures PartValid(copy) && fresh(PartReach(copy)) && PartValue(copy) == old(PartValue(part))
    ensures (copy == null <==> part == null) && (copy != null ==> fresh(copy))
  {
    copy := null;
    if part != null {
      copy := part.DeepCopy();
      PartKept(part);
    }
  }

  /** Fill a part: `dest` itself, or the copy's part when there is none. */
  method MergePart(dest: Part?, copy: Part?, merged: set<Field>) returns (r: Part?)
    requires PartValid(dest) && PartValid(copy) && (dest == null || dest != copy)
    modifies dest
    ensures r == if copy != null && dest == null then copy else dest
    ensures PartValid(r) && PartValue(r) == FillPart(old(PartValue(dest)), old(PartValue(copy)), merged)
    ensures PartReach(r) <= old(PartReach(dest)) + old(PartReach(copy))
  {
    hide AllValid, Contents, FieldReach, FillIn;
    r := dest;
    if copy != null {
      if dest == null {
        r := copy;
      } else {
        dest.FillFrom(copy, merged);
      }
    }
  }

  class DriverSpec {
    var own: Part
    var node: Part?
    var controller: Part?

    constructor (own: Part, node: Part?, controller: Part?)
      ensures this.own == own && this.node == node && this.controller == controller
    {
      this.own, this.node, this.controller := own, node, controller;
    }

    ghost function Parts(): set<object>
      reads this
    {
      {own as object} + (if node != null then {node as object} else {}) +
      (if controller != null then {controller as object} else {})
    }

    /** Three different parts, each well formed. */
    ghost predicate Valid()
      reads this, own, node, controller, PartNodes(own), PartNodes(node), PartNodes(controller)
      reads PartReach(own), PartReach(node), PartReach(controller)
    {
      && own != node && own != controller && (node != null ==> node != controller)
      && PartValid(own) && PartValid(node) && PartValid(controller)
    }

    /** Everything reachable from here but the specification itself, at any depth. */
    ghost function Rest(): set<object>
      reads this, own, node, controller, PartNodes(own), PartNodes(node), PartNodes(controller)
    {
      PartReach(own) + PartReach(node) + PartReach(controller)
    }

    ghost function Reach(): set<object>
      reads this, own, node, controller, PartNodes(own), PartNodes(node), PartNodes(controller)
    {
      {this} + Rest()
    }

    ghost function Value(): Spec
      requires Valid()
      reads this, own, node, controller, PartNodes(own), PartNodes(node), PartNodes(controller)
      reads PartReach(own), PartReach(node), PartReach(controller)
    {
      Spec(PartValue(own).value, PartValue(node), PartValue(controller))
    }

    method DeepCopy() returns (copy: DriverSpec)
      requires Valid()
      ensures fresh(copy) && fresh(copy.Parts()) && fresh(copy.Rest())
      ensures copy.Valid() && copy.Value() == old(Value())
    {
      hide PartValid, PartValue, PartReach;
      var ownCopy := CopyPart(own);
      label One:
      PartKept(node);
      var nodeCopy := CopyPart(node);
      label Two:
      PartKept@One(ownCopy);
      PartKept(controller);
      var controllerCopy := CopyPart(controller);
      PartKept@Two(ownCopy);
      PartKept@Two(nodeCopy);
      label Three:
      copy := new DriverSpec(ownCopy, nodeCopy, controllerCopy);
      PartKept@Three(ownCopy);
      PartKept@Three(nodeCopy);
      PartKept@Three(controllerCopy);
    }
  }

  /** The parts of the two specifications are different objects. */
  ghost predicate Apart(a: DriverSpec, b: DriverSpec)
    reads a, b
  {
    && a != b
    && a.own != b.own && a.own != b.node && a.own != b.controller
    && a.node != b.own && (a.node != null ==> a.node != b.node && a.node != b.controller)
    && a.controller != b.own && (a.controller != null ==> a.controller != b.node && a.controller != b.controller)
  }

  method MergeCopy(dest: DriverSpec, copy: DriverSpec)
    requires Apart(dest, copy) && dest.Valid() && copy.Valid()
    modifies dest, dest.Parts()
    ensures dest.Valid() && dest.Value() == Merge(old(dest.Value()), old(copy.Value()))
    ensures dest.Rest() <= old(dest.Rest()) + old(copy.Rest())
  {
    hide FillIn, PartValid, PartValue, PartReach;
    var own := MergePart(dest.own, copy.own, DRIVER_MERGED);
    label One:
    PartKept(dest.node);
    PartKept(copy.node);
    var node := MergePart(dest.node, copy.node, NODE_MERGED);
    label Two:
    PartKept@One(own);
    PartKept(dest.controller);
    PartKept(copy.controller);
    var controller := MergePart(dest.controller, copy.controller, CONTROLLER_MERGED);
    PartKept@Two(own);
    PartKept@Two(node);
    label Three:
    dest.node := node;
    dest.controller := controller;
    PartKept@Three(own);
    PartKept@Three(node);
    PartKept@Three(controller);
  }

  /** The defaults are merged into `dest` in place. What can be reached from it
      afterwards, at any depth, could be reached before or is new: nothing is shared
      with the defaults, and of the old objects only the parts of `dest` are written to. */
  method MergeDriverSpecs(dest: DriverSpec, src: DriverSpec)
    requires dest.Valid() && src.Valid()
    modifies dest, dest.Parts()
    ensures dest.Valid() && dest.Value() == Merge(old(dest.Value()), old(src.Value()))
    ensures forall o :: o in dest.Reach() ==> o in old(dest.Reach()) || fresh(o)
  {
    hide PartValid, PartValue, PartReach;
    hide Merge;
    var copy := src.DeepCopy();
    PartKept(dest.own);
    PartKept(dest.node);
    PartKept(dest.controller);
    MergeCopy(dest, copy);
  }
}
