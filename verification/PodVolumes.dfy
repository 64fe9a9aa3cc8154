/** The volumes of the three pods of a driver and the mounts of their containers,
    with the user's own volumes merged over the built-in ones. */
module PodVolumes {
  import opened Prelude
  import opened KeyedMerge

  datatype BuiltIn =
    | SocketDir | HostDev | HostSys | HostRunMount | LibModules | KeysTmpDir | OidcToken | CsiConfig | EtcSelinux
    | KmsConfig | CsiMountInfo | RegistrationDir | PluginDir | PodsMountDir | PluginMountDir | LogsDir | LogRotateDir

  function NameOf(b: BuiltIn): string {
    match b
    case SocketDir => "socket-dir"
    case HostDev => "host-dev"
    case HostSys => "host-sys"
    case HostRunMount => "host-run-mount"
    case LibModules => "lib-modules"
    case KeysTmpDir => "keys-tmp-dir"
    case OidcToken => "oidc-token"
    case CsiConfig => "ceph-csi-config"
    case EtcSelinux => "etc-selinux"
    case KmsConfig => "ceph-csi-kms-config"
    case CsiMountInfo => "ceph-csi-mountinfo"
    case RegistrationDir => "registration-dir"
    case PluginDir => "plugin-dir"
    case PodsMountDir => "pods-mount-dir"
    case PluginMountDir => "plugin-mount-dir"
    case LogsDir => "logs-dir"
    case LogRotateDir => "log-rotate-dir"
  }

  /** Where a volume comes from, or a mount goes, is built in or the user's text. */
  datatype Detail = Standard | Given(text: string)

  datatype Volume = Volume(name: string, source: Detail)

  datatype Mount = Mount(name: string, path: Detail)

  datatype VolumeSpec = VolumeSpec(volume: Volume, mount: Mount)

  datatype Container = Container(name: string, mounts: seq<Mount>)

  /** A container with built-in mounts only, and when it is part of the pod. */
  datatype Sidecar = Sidecar(present: bool, name: string, mounts: seq<BuiltIn>)

  datatype Pod = Pod(containers: seq<Container>, volumes: seq<Volume>)

  datatype DriverType = Rbd | CephFs | Nfs | Nvmeof

  datatype Options = Options(
    driverType: DriverType, encryption: bool, logRotation: bool, liveness: bool,
    snapshots: bool, extendedSnapshotter: bool, addons: bool, generateOMap: bool,
    seLinuxHostMount: bool, volumeCondition: bool)

  // ------------------------------------------------------------- list building

  function When<T>(condition: bool, items: seq<T>): seq<T> {
    if condition then items else []
  }

  /** Items that belong to the list under a condition. */
  datatype Part = Part(present: bool, items: seq<BuiltIn>)

  function Pick(parts: seq<Part>): seq<BuiltIn> {
    if parts == [] then []
    else Pick(parts[..|parts| - 1]) + When(parts[|parts| - 1].present, parts[|parts| - 1].items)
  }

  function Volumes(bs: seq<BuiltIn>): (vs: seq<Volume>)
    ensures |vs| == |bs| && forall i :: 0 <= i < |bs| ==> vs[i] == Volume(NameOf(bs[i]), Standard)
  {
    seq(|bs|, i requires 0 <= i < |bs| => Volume(NameOf(bs[i]), Standard))
  }

  function Mounts(bs: seq<BuiltIn>): (ms: seq<Mount>)
    ensures |ms| == |bs| && forall i :: 0 <= i < |bs| ==> ms[i] == Mount(NameOf(bs[i]), Standard)
  {
    seq(|bs|, i requires 0 <= i < |bs| => Mount(NameOf(bs[i]), Standard))
  }

  function GivenVolume(v: VolumeSpec): Option<Volume> {
    if v.volume.name != "" then Some(v.volume) else None
  }

  function GivenMount(v: VolumeSpec): Option<Mount> {
    if v.mount.name != "" then Some(v.mount) else None
  }

  function VolumeName(v: Volume): string {
    v.name
  }

  function MountName(m: Mount): string {
    m.name
  }

  function WithUserVolumes(bs: seq<BuiltIn>, specs: seq<VolumeSpec>): seq<Volume> {
    Merge(Volumes(bs), specs, GivenVolume, VolumeName)
  }

  function WithUserMounts(bs: seq<BuiltIn>, specs: seq<VolumeSpec>): seq<Mount> {
    Merge(Mounts(bs), specs, GivenMount, MountName)
  }

  // --------------------------------------------------------- controller plugin

  function ControllerVolumeParts(o: Options): seq<Part> {
    [Part(true, [HostDev, HostSys, LibModules, SocketDir, KeysTmpDir, OidcToken, CsiConfig]),
     Part(o.encryption, [KmsConfig]),
     Part(o.logRotation, [LogsDir, LogRotateDir])]
  }

  function ControllerMountParts(o: Options): seq<Part> {
    [Part(true, [SocketDir, HostDev, HostSys, LibModules, KeysTmpDir, CsiConfig]),
     Part(o.encryption, [KmsConfig]),
     Part(o.driverType.Rbd?, [OidcToken]),
     Part(o.logRotation, [LogsDir])]
  }

  function ControllerVolumes(o: Options): seq<BuiltIn> {
    Pick(ControllerVolumeParts(o))
  }

  function ControllerMounts(o: Options): seq<BuiltIn> {
    Pick(ControllerMountParts(o))
  }

  /** Position of the first volume named "tls-key", or -1. */
  function TlsIndex(specs: seq<VolumeSpec>): (i: int)
    ensures -1 <= i < |specs|
    ensures i >= 0 ==> specs[i].volume.name == "tls-key" && forall j :: 0 <= j < i ==> specs[j].volume.name != "tls-key"
    ensures i == -1 ==> forall j :: 0 <= j < |specs| ==> specs[j].volume.name != "tls-key"
  {
    if specs == [] then -1
    else if specs[0].volume.name == "tls-key" then 0
    else var i := TlsIndex(specs[1..]); if i == -1 then -1 else i + 1
  }

  function SnapshotMetadata(o: Options, specs: seq<VolumeSpec>): seq<Container> {
    if o.driverType.Rbd? && TlsIndex(specs) != -1
    then [Container("csi-snapshot-metadata", [specs[TlsIndex(specs)].mount] + Mounts([SocketDir]))]
    else []
  }

  function Containers(sidecars: seq<Sidecar>): seq<Container> {
    if sidecars == [] then []
    else
      var last := sidecars[|sidecars| - 1];
      Containers(sidecars[..|sidecars| - 1]) + When(last.present, [Container(last.name, Mounts(last.mounts))])
  }

  function ControllerSidecars(o: Options): seq<Sidecar> {
    [Sidecar(true, "csi-provisioner", [SocketDir]),
     Sidecar(true, "csi-resizer", [SocketDir]),
     Sidecar(true, "csi-attacher", [SocketDir]),
     Sidecar(o.snapshots, "csi-snapshotter", [SocketDir]),
     Sidecar(o.extendedSnapshotter && o.snapshots && o.driverType.CephFs?, "ex-csi-snapshotter", [SocketDir]),
     Sidecar(!o.driverType.Nfs? && o.addons, "csi-addons",
             Pick([Part(true, [SocketDir]), Part(o.logRotation, [LogsDir])])),
     Sidecar((o.driverType.Rbd? || o.driverType.CephFs?) && o.generateOMap, "csi-omap-generator", [CsiConfig, KeysTmpDir]),
     Sidecar(o.liveness, "liveness-prometheus", [SocketDir]),
     Sidecar(o.logRotation, "log-rotator", [LogsDir, LogRotateDir])]
  }

  function PluginName(t: DriverType): string {
    match t
    case Rbd => "csi-rbdplugin"
    case CephFs => "csi-cephfsplugin"
    case Nfs => "csi-nfsplugin"
    case Nvmeof => "csi-nvmeofplugin"
  }

  function ControllerPod(o: Options, specs: seq<VolumeSpec>): Pod {
    Pod([Container(PluginName(o.driverType), WithUserMounts(ControllerMounts(o), specs))] +
        Containers(ControllerSidecars(o)) + SnapshotMetadata(o, specs),
        WithUserVolumes(ControllerVolumes(o), specs))
  }

  // ---------------------------------------------------------------- node plugin

  function NodeVolumeParts(o: Options): seq<Part> {
    [Part(true, [HostDev, HostSys, HostRunMount, LibModules, KeysTmpDir, CsiConfig, PluginDir, PluginMountDir,
                 PodsMountDir, RegistrationDir]),
     Part(o.driverType.CephFs?, [CsiMountInfo]),
     Part(o.seLinuxHostMount, [EtcSelinux]),
     Part(o.encryption, [KmsConfig]),
     Part(o.driverType.Rbd? || o.driverType.Nvmeof?, [OidcToken]),
     Part(o.logRotation, [LogsDir, LogRotateDir])]
  }

  function NodeMountParts(o: Options): seq<Part> {
    [Part(true, [HostDev, HostSys, HostRunMount, LibModules, KeysTmpDir, PluginDir, CsiConfig, PluginMountDir,
                 PodsMountDir]),
     Part(o.seLinuxHostMount, [EtcSelinux]),
     Part(o.encryption, [KmsConfig]),
     Part(o.driverType.CephFs?, [CsiMountInfo]),
     Part(o.driverType.Rbd? || o.driverType.Nvmeof?, [OidcToken]),
     Part(o.logRotation, [LogsDir])]
  }

  function NodeVolumes(o: Options): seq<BuiltIn> {
    Pick(NodeVolumeParts(o))
  }

  function NodeMounts(o: Options): seq<BuiltIn> {
    Pick(NodeMountParts(o))
  }

  function NodeSidecars(o: Options): seq<Sidecar> {
    [Sidecar(true, "driver-registrar", [PluginDir, RegistrationDir]),
     Sidecar(o.liveness, "liveness-prometheus", [PluginDir]),
     Sidecar(o.logRotation, "log-rotator", [LogsDir, LogRotateDir])]
  }

  function NodePod(o: Options, specs: seq<VolumeSpec>): Pod {
    Pod([Container(PluginName(o.driverType), WithUserMounts(NodeMounts(o), specs))] + Containers(NodeSidecars(o)),
        WithUserVolumes(NodeVolumes(o), specs))
  }

  // ----------------------------------------------------------------- csi-addons

  /** The user's volumes are not used here. */
  function AddonsVolumeParts(o: Options): seq<Part> {
    [Part(true, [PluginDir]),
     Part(o.logRotation, [LogsDir, LogRotateDir]),
     Part(o.volumeCondition, [PluginMountDir, PodsMountDir])]
  }

  function AddonsMountParts(o: Options): seq<Part> {
    [Part(true, [PluginDir]),
     Part(o.logRotation, [LogsDir]),
     Part(o.volumeCondition, [PluginMountDir, PodsMountDir])]
  }

  function AddonsVolumes(o: Options): seq<BuiltIn> {
    Pick(AddonsVolumeParts(o))
  }

  function AddonsContainers(o: Options): seq<Sidecar> {
    [Sidecar(true, "csi-addons", Pick(AddonsMountParts(o))),
     Sidecar(o.logRotation, "log-rotator", [LogsDir, LogRotateDir])]
  }

  function AddonsPod(o: Options): Pod {
    Pod(Containers(AddonsContainers(o)), Volumes(AddonsVolumes(o)))
  }

  // ------------------------------------------------------------------- names

  /** Length, first and last letter tell the built-in names apart. */
  function Fingerprint(b: BuiltIn): (int, char, char) {
    match b
    case SocketDir => (10, 's', 'r')
    case HostDev => (8, 'h', 'v')
    case HostSys => (8, 'h', 's')
    case HostRunMount => (14, 'h', 't')
    case LibModules => (11, 'l', 's')
    case KeysTmpDir => (12, 'k', 'r')
    case OidcToken => (10, 'o', 'n')
    case CsiConfig => (15, 'c', 'g')
    case EtcSelinux => (11, 'e', 'x')
    case KmsConfig => (19, 'c', 'g')
    case CsiMountInfo => (18, 'c', 'o')
    case RegistrationDir => (16, 'r', 'r')
    case PluginDir => (10, 'p', 'r')
    case PodsMountDir => (14, 'p', 'r')
    case PluginMountDir => (16, 'p', 'r')
    case LogsDir => (8, 'l', 'r')
    case LogRotateDir => (14, 'l', 'r')
  }

  lemma NameHasFingerprint(b: BuiltIn)
    ensures var n := NameOf(b); n != "" && Fingerprint(b) == (|n|, n[0], n[|n| - 1])
  {
  }

  lemma NamesAreDifferent(a: BuiltIn, b: BuiltIn)
    ensures NameOf(a) == NameOf(b) ==> a == b
  {
    NameHasFingerprint(a);
    NameHasFingerprint(b);
    hide NameOf;
  }

  // ---------------------------------------------------------- what a merge holds

  ghost predicate HasVolume(vs: seq<Volume>, name: string) {
    exists i :: 0 <= i < |vs| && vs[i].name == name
  }

  ghost predicate HasMount(ms: seq<Mount>, name: string) {
    exists i :: 0 <= i < |ms| && ms[i].name == name
  }

  ghost predicate IsBuiltIn(bs: seq<BuiltIn>, name: string) {
    exists i :: 0 <= i < |bs| && NameOf(bs[i]) == name
  }

  ghost predicate GivesVolume(specs: seq<VolumeSpec>, name: string) {
    name != "" && exists i :: 0 <= i < |specs| && specs[i].volume.name == name
  }

  ghost predicate GivesMount(specs: seq<VolumeSpec>, name: string) {
    name != "" && exists i :: 0 <= i < |specs| && specs[i].mount.name == name
  }

  lemma VolumesHeld(bs: seq<BuiltIn>, specs: seq<VolumeSpec>, name: string)
    ensures HasVolume(WithUserVolumes(bs, specs), name) <==> IsBuiltIn(bs, name) || GivesVolume(specs, name)
  {
    MergedKeys(Volumes(bs), specs, GivenVolume, VolumeName, name);
    hide Merge, Volumes, NameOf;
    var built := Volumes(bs);
    assert IsBuiltIn(bs, name) <==> exists i :: 0 <= i < |built| && VolumeName(built[i]) == name by {
      if i :| 0 <= i < |bs| && NameOf(bs[i]) == name {
        assert VolumeName(built[i]) == name;
      }
    }
    if GivesVolume(specs, name) {
      var i :| 0 <= i < |specs| && specs[i].volume.name == name;
      assert GivenVolume(specs[i]).Some? && VolumeName(GivenVolume(specs[i]).value) == name;
    }
    var merged := WithUserVolumes(bs, specs);
    if i :| 0 <= i < |merged| && merged[i].name == name {
      assert VolumeName(merged[i]) == name;
    }
  }

  lemma MountsHeld(bs: seq<BuiltIn>, specs: seq<VolumeSpec>, name: string)
    ensures HasMount(WithUserMounts(bs, specs), name) <==> IsBuiltIn(bs, name) || GivesMount(specs, name)
  {
    MergedKeys(Mounts(bs), specs, GivenMount, MountName, name);
    hide Merge, Mounts, NameOf;
    var built := Mounts(bs);
    assert IsBuiltIn(bs, name) <==> exists i :: 0 <= i < |built| && MountName(built[i]) == name by {
      if i :| 0 <= i < |bs| && NameOf(bs[i]) == name {
        assert MountName(built[i]) == name;
      }
    }
    if GivesMount(specs, name) {
      var i :| 0 <= i < |specs| && specs[i].mount.name == name;
      assert GivenMount(specs[i]).Some? && MountName(GivenMount(specs[i]).value) == name;
    }
    var merged := WithUserMounts(bs, specs);
    if i :| 0 <= i < |merged| && merged[i].name == name {
      assert MountName(merged[i]) == name;
    }
  }

  /** A volume of the pod: under a name the user gives the last volume given for it, and
      under any other name the built-in one. */
  lemma VolumeShown(bs: seq<BuiltIn>, specs: seq<VolumeSpec>, i: nat)
    requires Distinct(bs) && i < |WithUserVolumes(bs, specs)|
    ensures var v := WithUserVolumes(bs, specs)[i];
            if GivesVolume(specs, v.name)
            then exists k :: 0 <= k < |specs| && specs[k].volume == v &&
                   forall j :: k < j < |specs| ==> specs[j].volume.name != v.name
            else v.source == Standard && IsBuiltIn(bs, v.name)
  {
    var built, v := Volumes(bs), WithUserVolumes(bs, specs)[i];
    forall i, j | 0 <= i < j < |built| ensures VolumeName(built[i]) != VolumeName(built[j]) {
      NamesAreDifferent(bs[i], bs[j]);
    }
    MergedItem(built, specs, GivenVolume, VolumeName, i);
    hide Merge, NameOf;
    if GivesVolume(specs, v.name) {
      var n :| 0 <= n < |specs| && specs[n].volume.name == v.name;
      assert GivenVolume(specs[n]).Some? && VolumeName(GivenVolume(specs[n]).value) == v.name;
      var k :| LastWithKey(specs, GivenVolume, VolumeName, v, k);
      forall j | k < j < |specs| ensures specs[j].volume.name != v.name {
        assert GivenVolume(specs[j]).Some? ==> VolumeName(GivenVolume(specs[j]).value) != v.name;
      }
      assert specs[k].volume == v;
    } else {
      assert !Offers(specs, GivenVolume, VolumeName, v.name);
      var n :| 0 <= n < |built| && built[n] == v;
      assert NameOf(bs[n]) == v.name;
    }
  }

  /** And a mount of its plugin container likewise. */
  lemma MountShown(bs: seq<BuiltIn>, specs: seq<VolumeSpec>, i: nat)
    requires Distinct(bs) && i < |WithUserMounts(bs, specs)|
    ensures var m := WithUserMounts(bs, specs)[i];
            if GivesMount(specs, m.name)
            then exists k :: 0 <= k < |specs| && specs[k].mount == m &&
                   forall j :: k < j < |specs| ==> specs[j].mount.name != m.name
            else m.path == Standard && IsBuiltIn(bs, m.name)
  {
    var built, m := Mounts(bs), WithUserMounts(bs, specs)[i];
    forall i, j | 0 <= i < j < |built| ensures MountName(built[i]) != MountName(built[j]) {
      NamesAreDifferent(bs[i], bs[j]);
    }
    MergedItem(built, specs, GivenMount, MountName, i);
    hide Merge, NameOf;
    if GivesMount(specs, m.name) {
      var n :| 0 <= n < |specs| && specs[n].mount.name == m.name;
      assert GivenMount(specs[n]).Some? && MountName(GivenMount(specs[n]).value) == m.name;
      var k :| LastWithKey(specs, GivenMount, MountName, m, k);
      forall j | k < j < |specs| ensures specs[j].mount.name != m.name {
        assert GivenMount(specs[j]).Some? ==> MountName(GivenMount(specs[j]).value) != m.name;
      }
      assert specs[k].mount == m;
    } else {
      assert !Offers(specs, GivenMount, MountName, m.name);
      var n :| 0 <= n < |built| && built[n] == m;
      assert NameOf(bs[n]) == m.name;
    }
  }

  // ------------------------------------------------------------------ distinct

  ghost predicate DistinctVolumes(vs: seq<Volume>) {
    forall i, j :: 0 <= i < j < |vs| ==> vs[i].name != vs[j].name
  }

  lemma NoEmptyName(bs: seq<BuiltIn>)
    ensures !IsBuiltIn(bs, "")
  {
    forall i | 0 <= i < |bs| ensures NameOf(bs[i]) != "" {
      NameHasFingerprint(bs[i]);
    }
  }

  /** Whatever volumes the user gives, the names in the pod stay distinct. */
  lemma VolumesStayDistinct(bs: seq<BuiltIn>, specs: seq<VolumeSpec>)
    requires Distinct(bs)
    ensures DistinctVolumes(WithUserVolumes(bs, specs))
  {
    var built, merged := Volumes(bs), WithUserVolumes(bs, specs);
    forall i, j | 0 <= i < j < |built| ensures VolumeName(built[i]) != VolumeName(built[j]) {
      NamesAreDifferent(bs[i], bs[j]);
    }
    UniqueKeysStayUnique(built, specs, GivenVolume, VolumeName);
    VolumesHeld(bs, specs, "");
    NoEmptyName(bs);
    hide Merge, Volumes, NameOf;
    assert KeyedMerge.UniqueKeys(merged, VolumeName);
    forall i, j | 0 <= i < j < |merged| ensures merged[i].name != merged[j].name {
      assert VolumeName(merged[i]) == merged[i].name != "";
      assert VolumeName(merged[j]) == merged[j].name;
    }
  }

  // ------------------------------------------------------------------- closure

  ghost predicate ContainerResolves(c: Container, vs: seq<Volume>) {
    forall j :: 0 <= j < |c.mounts| ==> HasVolume(vs, c.mounts[j].name)
  }

  ghost predicate AllResolve(cs: seq<Container>, vs: seq<Volume>) {
    forall i :: 0 <= i < |cs| ==> ContainerResolves(cs[i], vs)
  }

  /** Every mount of every container names a volume of the pod. */
  ghost predicate Resolves(pod: Pod) {
    AllResolve(pod.containers, pod.volumes)
  }

  lemma ResolveConcat(a: seq<Container>, b: seq<Container>, vs: seq<Volume>)
    ensures AllResolve(a + b, vs) <==> AllResolve(a, vs) && AllResolve(b, vs)
  {
    assert forall i :: 0 <= i < |a| ==> (a + b)[i] == a[i];
    assert forall i :: 0 <= i < |b| ==> (a + b)[|a| + i] == b[i];
  }

  /** vs has all the built-in volumes bs. */
  ghost predicate Provides(vs: seq<Volume>, bs: seq<BuiltIn>) {
    forall b :: b in bs ==> HasVolume(vs, NameOf(b))
  }

  ghost predicate Within(ms: seq<BuiltIn>, bs: seq<BuiltIn>) {
    forall b :: b in ms ==> b in bs
  }

  /** Every sidecar that is present mounts volumes of bs only. */
  ghost predicate Sound(sidecars: seq<Sidecar>, bs: seq<BuiltIn>) {
    forall k :: 0 <= k < |sidecars| && sidecars[k].present ==> Within(sidecars[k].mounts, bs)
  }

  lemma {:induction false} SidecarsResolve(sidecars: seq<Sidecar>, bs: seq<BuiltIn>, vs: seq<Volume>)
    requires Provides(vs, bs) && Sound(sidecars, bs)
    ensures AllResolve(Containers(sidecars), vs)
  {
    hide NameOf, HasVolume;
    if sidecars != [] {
      var n := |sidecars| - 1;
      var last := sidecars[n];
      SidecarsResolve(sidecars[..n], bs, vs);
      forall j | 0 <= j < |last.mounts| && last.present ensures HasVolume(vs, Mounts(last.mounts)[j].name) {
        assert last.mounts[j] in bs;
      }
      var c := Container(last.name, Mounts(last.mounts));
      assert last.present ==> ContainerResolves(c, vs);
      ResolveConcat(Containers(sidecars[..n]), When(last.present, [c]), vs);
    }
  }

  lemma ProvidesItsOwn(bs: seq<BuiltIn>, specs: seq<VolumeSpec>)
    ensures Provides(WithUserVolumes(bs, specs), bs)
  {
    forall b | b in bs ensures HasVolume(WithUserVolumes(bs, specs), NameOf(b)) {
      VolumesHeld(bs, specs, NameOf(b));
    }
  }

  /** What a user has to see to: each named mount names a built-in volume of the pod or
      a volume of the user's own list. */
  ghost predicate UserMountsResolve(bs: seq<BuiltIn>, specs: seq<VolumeSpec>) {
    forall k :: 0 <= k < |specs| && specs[k].mount.name != "" ==>
      IsBuiltIn(bs, specs[k].mount.name) || GivesVolume(specs, specs[k].mount.name)
  }

  /** The plugin container resolves exactly when the user's mounts do. */
  lemma PluginResolves(name: string, ms: seq<BuiltIn>, bs: seq<BuiltIn>, specs: seq<VolumeSpec>)
    requires Within(ms, bs)
    ensures AllResolve([Container(name, WithUserMounts(ms, specs))], WithUserVolumes(bs, specs)) <==>
            UserMountsResolve(bs, specs)
  {
    var mounts, vs := WithUserMounts(ms, specs), WithUserVolumes(bs, specs);
    hide WithUserMounts, WithUserVolumes, NameOf;
    var c := Container(name, mounts);
    if AllResolve([c], vs) {
      assert ContainerResolves([c][0], vs);
      forall k | 0 <= k < |specs| && specs[k].mount.name != ""
        ensures IsBuiltIn(bs, specs[k].mount.name) || GivesVolume(specs, specs[k].mount.name)
      {
        var n := specs[k].mount.name;
        MountsHeld(ms, specs, n);
        VolumesHeld(bs, specs, n);
        assert GivesMount(specs, n);
        var j :| 0 <= j < |mounts| && mounts[j].name == n;
        assert HasVolume(vs, c.mounts[j].name);
      }
    }
    if UserMountsResolve(bs, specs) {
      forall j | 0 <= j < |mounts| ensures HasVolume(vs, mounts[j].name) {
        NamedMountResolves(ms, bs, specs, mounts[j].name);
      }
    }
  }

  lemma NamedMountResolves(ms: seq<BuiltIn>, bs: seq<BuiltIn>, specs: seq<VolumeSpec>, name: string)
    requires Within(ms, bs) && UserMountsResolve(bs, specs) && HasMount(WithUserMounts(ms, specs), name)
    ensures HasVolume(WithUserVolumes(bs, specs), name)
  {
    MountsHeld(ms, specs, name);
    VolumesHeld(bs, specs, name);
    hide WithUserMounts, WithUserVolumes, NameOf;
    if IsBuiltIn(ms, name) {
      var i :| 0 <= i < |ms| && NameOf(ms[i]) == name;
      assert ms[i] in bs;
      var k :| 0 <= k < |bs| && bs[k] == ms[i];
      assert NameOf(bs[k]) == name;
    }
  }

  lemma {:induction false} InPick(parts: seq<Part>, b: BuiltIn)
    ensures b in Pick(parts) <==> exists k :: 0 <= k < |parts| && parts[k].present && b in parts[k].items
  {
    if parts != [] {
      var n := |parts| - 1;
      InPick(parts[..n], b);
      InWhen(Pick(parts[..n]), parts[n].present, parts[n].items, b);
      if k :| 0 <= k < n && parts[..n][k].present && b in parts[..n][k].items {
        assert parts[k].present && b in parts[k].items;
      }
      if k :| 0 <= k < |parts| && parts[k].present && b in parts[k].items && k < n {
        assert parts[..n][k] == parts[k];
      }
    }
  }

  lemma InWhen(bs: seq<BuiltIn>, condition: bool, more: seq<BuiltIn>, b: BuiltIn)
    ensures b in bs + When(condition, more) <==> b in bs || (condition && b in more)
  {
  }

  lemma PartIsPicked(parts: seq<Part>, k: nat)
    requires k < |parts| && parts[k].present
    ensures forall b :: b in parts[k].items ==> b in Pick(parts)
  {
    forall b | b in parts[k].items ensures b in Pick(parts) {
      InPick(parts, b);
    }
  }

  /** Every item stands where `place` says: in one part, at one position. */
  ghost predicate Placed(parts: seq<Part>, place: BuiltIn -> (int, int)) {
    forall k, i :: 0 <= k < |parts| && 0 <= i < |parts[k].items| ==> place(parts[k].items[i]) == (k, i)
  }

  lemma {:induction false} PickIsDistinct(parts: seq<Part>, place: BuiltIn -> (int, int))
    requires Placed(parts, place)
    ensures Distinct(Pick(parts))
  {
    if parts != [] {
      var n := |parts| - 1;
      var front, items := Pick(parts[..n]), parts[n].items;
      assert forall k :: 0 <= k < n ==> parts[..n][k] == parts[k];
      PickIsDistinct(parts[..n], place);
      forall b | b in front ensures b !in items {
        InPick(parts[..n], b);
        var k :| 0 <= k < n && parts[..n][k].present && b in parts[..n][k].items;
        assert place(b).0 == k;
      }
      assert forall i, j :: 0 <= i < j < |items| ==> place(items[i]) != place(items[j]);
      DistinctWhen(front, parts[n].present, items);
    }
  }

  lemma DistinctWhen(bs: seq<BuiltIn>, condition: bool, more: seq<BuiltIn>)
    requires Distinct(bs) && Distinct(more) && forall b :: b in bs ==> b !in more
    ensures Distinct(bs + When(condition, more))
  {
    var all := bs + When(condition, more);
    forall i, j | 0 <= i < j < |all| ensures all[i] != all[j] {
      assert i < |bs| ==> all[i] == bs[i] && bs[i] in bs;
      assert i >= |bs| ==> all[i] == more[i - |bs|];
      assert j < |bs| ==> all[j] == bs[j];
      assert j >= |bs| ==> all[j] == more[j - |bs|] && more[j - |bs|] in more;
    }
  }

  /** Each part of `ms` has its volumes in the part of `vs` that `at` names. */
  ghost predicate Backed(ms: seq<Part>, vs: seq<Part>, at: seq<nat>) {
    && |at| == |ms|
    && (forall k :: 0 <= k < |ms| ==> at[k] < |vs|)
    && (forall k :: 0 <= k < |ms| && ms[k].present ==> vs[at[k]].present && Within(ms[k].items, vs[at[k]].items))
  }

  lemma BackedIsWithin(ms: seq<Part>, vs: seq<Part>, at: seq<nat>)
    requires Backed(ms, vs, at)
    ensures Within(Pick(ms), Pick(vs))
  {
    forall b | b in Pick(ms) ensures b in Pick(vs) {
      InPick(ms, b);
      InPick(vs, b);
      var k :| 0 <= k < |ms| && ms[k].present && b in ms[k].items;
      assert vs[at[k]].present && b in vs[at[k]].items;
    }
  }

  function ControllerPlace(b: BuiltIn): (int, int) {
    match b
    case HostDev => (0, 0)
    case HostSys => (0, 1)
    case LibModules => (0, 2)
    case SocketDir => (0, 3)
    case KeysTmpDir => (0, 4)
    case OidcToken => (0, 5)
    case CsiConfig => (0, 6)
    case KmsConfig => (1, 0)
    case LogsDir => (2, 0)
    case _ => (2, 1)
  }

  lemma ControllerPartsPlaced(o: Options)
    ensures Placed(ControllerVolumeParts(o), ControllerPlace)
  {
  }

  lemma ControllerPartsBacked(o: Options)
    ensures Backed(ControllerMountParts(o), ControllerVolumeParts(o), [0, 1, 0, 2])
    ensures Backed([Part(true, [SocketDir]), Part(o.logRotation, [LogsDir])], ControllerVolumeParts(o), [0, 2])
    ensures Within([SocketDir, CsiConfig, KeysTmpDir], ControllerVolumeParts(o)[0].items)
  {
    var items := ControllerVolumeParts(o)[0].items;
    assert items[0] in items && items[1] in items && items[2] in items && items[3] in items;
    assert items[4] in items && items[5] in items && items[6] in items;
  }

  lemma ControllerSidecarsSound(o: Options)
    ensures Sound(ControllerSidecars(o), ControllerVolumes(o))
    ensures Within(ControllerMounts(o), ControllerVolumes(o)) && Distinct(ControllerVolumes(o))
    ensures SocketDir in ControllerVolumes(o)
  {
    var vs := ControllerVolumeParts(o);
    ControllerPartsPlaced(o);
    ControllerPartsBacked(o);
    PickIsDistinct(vs, ControllerPlace);
    BackedIsWithin(ControllerMountParts(o), vs, [0, 1, 0, 2]);
    BackedIsWithin([Part(true, [SocketDir]), Part(o.logRotation, [LogsDir])], vs, [0, 2]);
    PartIsPicked(vs, 0);
    if o.logRotation {
      PartIsPicked(vs, 2);
    }
    hide Pick, Placed, Backed, Distinct;
  }

  function NodePlace(b: BuiltIn): (int, int) {
    match b
    case HostDev => (0, 0)
    case HostSys => (0, 1)
    case HostRunMount => (0, 2)
    case LibModules => (0, 3)
    case KeysTmpDir => (0, 4)
    case CsiConfig => (0, 5)
    case PluginDir => (0, 6)
    case PluginMountDir => (0, 7)
    case PodsMountDir => (0, 8)
    case RegistrationDir => (0, 9)
    case CsiMountInfo => (1, 0)
    case EtcSelinux => (2, 0)
    case KmsConfig => (3, 0)
    case OidcToken => (4, 0)
    case LogsDir => (5, 0)
    case _ => (5, 1)
  }

  lemma NodePartsPlaced(o: Options)
    ensures Placed(NodeVolumeParts(o), NodePlace)
  {
  }

  lemma NodePartsBacked(o: Options)
    ensures Backed(NodeMountParts(o), NodeVolumeParts(o), [0, 2, 3, 1, 4, 5])
  {
  }

  lemma NodeSidecarsSound(o: Options)
    ensures Sound(NodeSidecars(o), NodeVolumes(o))
    ensures Within(NodeMounts(o), NodeVolumes(o)) && Distinct(NodeVolumes(o))
  {
    var vs := NodeVolumeParts(o);
    NodePartsPlaced(o);
    NodePartsBacked(o);
    PickIsDistinct(vs, NodePlace);
    BackedIsWithin(NodeMountParts(o), vs, [0, 2, 3, 1, 4, 5]);
    PartIsPicked(vs, 0);
    if o.logRotation {
      PartIsPicked(vs, 5);
    }
    hide Pick, Placed, Backed, Distinct, NodeMountParts;
  }

  function AddonsPlace(b: BuiltIn): (int, int) {
    match b
    case PluginDir => (0, 0)
    case LogsDir => (1, 0)
    case LogRotateDir => (1, 1)
    case PluginMountDir => (2, 0)
    case _ => (2, 1)
  }

  lemma AddonsSound(o: Options)
    ensures Sound(AddonsContainers(o), AddonsVolumes(o)) && Distinct(AddonsVolumes(o))
  {
    var ms, vs := AddonsMountParts(o), AddonsVolumeParts(o);
    PickIsDistinct(vs, AddonsPlace);
    BackedIsWithin(ms, vs, [0, 1, 2]);
    if o.logRotation {
      PartIsPicked(vs, 1);
    }
    hide Pick;
  }

  // ------------------------------------------------------ which volumes there are

  /** The volumes of the controller pod, by option. */
  lemma ControllerVolumesAre(o: Options, b: BuiltIn)
    ensures b in ControllerVolumes(o) <==>
            match b
            case HostDev => true
            case HostSys => true
            case LibModules => true
            case SocketDir => true
            case KeysTmpDir => true
            case OidcToken => true
            case CsiConfig => true
            case KmsConfig => o.encryption
            case LogsDir => o.logRotation
            case LogRotateDir => o.logRotation
            case _ => false
  {
    hide Pick;
    InPick(ControllerVolumeParts(o), b);
    OneOfThree(ControllerVolumeParts(o), b);
  }

  /** The built-in mounts of its plugin container. */
  lemma ControllerMountsAre(o: Options, b: BuiltIn)
    ensures b in ControllerMounts(o) <==>
            match b
            case SocketDir => true
            case HostDev => true
            case HostSys => true
            case LibModules => true
            case KeysTmpDir => true
            case CsiConfig => true
            case KmsConfig => o.encryption
            case OidcToken => o.driverType == Rbd
            case LogsDir => o.logRotation
            case _ => false
  {
    hide Pick;
    InPick(ControllerMountParts(o), b);
    OneOfFour(ControllerMountParts(o), b);
  }

  /** The volumes of the node pod. */
  lemma NodeVolumesAre(o: Options, b: BuiltIn)
    ensures b in NodeVolumes(o) <==>
            match b
            case HostDev => true
            case HostSys => true
            case HostRunMount => true
            case LibModules => true
            case KeysTmpDir => true
            case CsiConfig => true
            case PluginDir => true
            case PluginMountDir => true
            case PodsMountDir => true
            case RegistrationDir => true
            case CsiMountInfo => o.driverType == CephFs
            case EtcSelinux => o.seLinuxHostMount
            case KmsConfig => o.encryption
            case OidcToken => o.driverType == Rbd || o.driverType == Nvmeof
            case LogsDir => o.logRotation
            case LogRotateDir => o.logRotation
            case _ => false
  {
    hide Pick;
    InPick(NodeVolumeParts(o), b);
    OneOfSix(NodeVolumeParts(o), b);
  }

  /** The built-in mounts of its plugin container. */
  lemma NodeMountsAre(o: Options, b: BuiltIn)
    ensures b in NodeMounts(o) <==>
            match b
            case HostDev => true
            case HostSys => true
            case HostRunMount => true
            case LibModules => true
            case KeysTmpDir => true
            case CsiConfig => true
            case PluginDir => true
            case PluginMountDir => true
            case PodsMountDir => true
            case CsiMountInfo => o.driverType == CephFs
            case EtcSelinux => o.seLinuxHostMount
            case KmsConfig => o.encryption
            case OidcToken => o.driverType == Rbd || o.driverType == Nvmeof
            case LogsDir => o.logRotation
            case _ => false
  {
    hide Pick;
    InPick(NodeMountParts(o), b);
    OneOfSix(NodeMountParts(o), b);
  }

  /** The volumes of the csi-addons pod. */
  lemma AddonsVolumesAre(o: Options, b: BuiltIn)
    ensures b in AddonsVolumes(o) <==>
            match b
            case PluginDir => true
            case LogsDir => o.logRotation
            case LogRotateDir => o.logRotation
            case PluginMountDir => o.volumeCondition
            case PodsMountDir => o.volumeCondition
            case _ => false
  {
    hide Pick;
    InPick(AddonsVolumeParts(o), b);
    OneOfThree(AddonsVolumeParts(o), b);
  }

  lemma OneOfThree(parts: seq<Part>, b: BuiltIn)
    requires |parts| == 3
    ensures (exists k :: 0 <= k < |parts| && parts[k].present && b in parts[k].items) <==>
            (parts[0].present && b in parts[0].items) ||
            (parts[1].present && b in parts[1].items) ||
            (parts[2].present && b in parts[2].items)
  {
  }

  lemma OneOfFour(parts: seq<Part>, b: BuiltIn)
    requires |parts| == 4
    ensures (exists k :: 0 <= k < |parts| && parts[k].present && b in parts[k].items) <==>
            (parts[0].present && b in parts[0].items) ||
            (parts[1].present && b in parts[1].items) ||
            (parts[2].present && b in parts[2].items) ||
            (parts[3].present && b in parts[3].items)
  {
  }

  lemma OneOfSix(parts: seq<Part>, b: BuiltIn)
    requires |parts| == 6
    ensures (exists k :: 0 <= k < |parts| && parts[k].present && b in parts[k].items) <==>
            (parts[0].present && b in parts[0].items) ||
            (parts[1].present && b in parts[1].items) ||
            (parts[2].present && b in parts[2].items) ||
            (parts[3].present && b in parts[3].items) ||
            (parts[4].present && b in parts[4].items) ||
            (parts[5].present && b in parts[5].items)
  {
  }

  predicate Shown(sidecar: Sidecar, c: Container) {
    sidecar.present && c == Container(sidecar.name, Mounts(sidecar.mounts))
  }

  lemma {:induction false} InContainers(sidecars: seq<Sidecar>, c: Container)
    ensures c in Containers(sidecars) <==> exists k :: 0 <= k < |sidecars| && Shown(sidecars[k], c)
  {
    if sidecars != [] {
      var n := |sidecars| - 1;
      InContainers(sidecars[..n], c);
      assert c in Containers(sidecars) <==> c in Containers(sidecars[..n]) || Shown(sidecars[n], c);
      hide Shown;
      if k :| 0 <= k < n && Shown(sidecars[..n][k], c) {
        assert Shown(sidecars[k], c);
      }
      if k :| 0 <= k < |sidecars| && Shown(sidecars[k], c) && k < n {
        assert Shown(sidecars[..n][k], c);
      }
    }
  }

  lemma OneOfNine(s: seq<Sidecar>, c: Container)
    requires |s| == 9
    ensures (exists k :: 0 <= k < |s| && Shown(s[k], c)) <==>
            Shown(s[0], c) || Shown(s[1], c) || Shown(s[2], c) || Shown(s[3], c) || Shown(s[4], c) || Shown(s[5], c) ||
            Shown(s[6], c) || Shown(s[7], c) || Shown(s[8], c)
  {
  }

  function Mounted(name: string, a: string): Container {
    Container(name, [Mount(a, Standard)])
  }

  function MountedTwo(name: string, a: string, b: string): Container {
    Container(name, [Mount(a, Standard), Mount(b, Standard)])
  }

  /** The sidecars of the controller pod, by option, with what they mount. */
  lemma ControllerSidecarsAre(o: Options, c: Container)
    ensures c in Containers(ControllerSidecars(o)) <==>
            || c == Mounted("csi-provisioner", "socket-dir")
            || c == Mounted("csi-resizer", "socket-dir")
            || c == Mounted("csi-attacher", "socket-dir")
            || (o.snapshots && c == Mounted("csi-snapshotter", "socket-dir"))
            || (o.snapshots && o.extendedSnapshotter && o.driverType == CephFs && c == Mounted("ex-csi-snapshotter", "socket-dir"))
            || (o.addons && o.driverType != Nfs &&
                c == if o.logRotation then MountedTwo("csi-addons", "socket-dir", "logs-dir") else Mounted("csi-addons", "socket-dir"))
            || (o.generateOMap && (o.driverType == Rbd || o.driverType == CephFs) &&
                c == MountedTwo("csi-omap-generator", "ceph-csi-config", "keys-tmp-dir"))
            || (o.liveness && c == Mounted("liveness-prometheus", "socket-dir"))
            || (o.logRotation && c == MountedTwo("log-rotator", "logs-dir", "log-rotate-dir"))
  {
    hide Shown, Mounted, MountedTwo, NameOf, Pick, Containers;
    var sidecars := ControllerSidecars(o);
    InContainers(sidecars, c);
    OneOfNine(sidecars, c);
    SidecarNames();
    AddonsItems(o);
    OneShown(sidecars[0], SocketDir, c);
    OneShown(sidecars[1], SocketDir, c);
    OneShown(sidecars[2], SocketDir, c);
    OneShown(sidecars[3], SocketDir, c);
    OneShown(sidecars[4], SocketDir, c);
    if o.logRotation {
      TwoShown(sidecars[5], SocketDir, LogsDir, c);
    } else {
      OneShown(sidecars[5], SocketDir, c);
    }
    TwoShown(sidecars[6], CsiConfig, KeysTmpDir, c);
    OneShown(sidecars[7], SocketDir, c);
    TwoShown(sidecars[8], LogsDir, LogRotateDir, c);
  }

  lemma SidecarNames()
    ensures NameOf(SocketDir) == "socket-dir" && NameOf(LogsDir) == "logs-dir" && NameOf(LogRotateDir) == "log-rotate-dir"
    ensures NameOf(CsiConfig) == "ceph-csi-config" && NameOf(KeysTmpDir) == "keys-tmp-dir"
    ensures NameOf(PluginDir) == "plugin-dir" && NameOf(RegistrationDir) == "registration-dir"
    ensures NameOf(PluginMountDir) == "plugin-mount-dir" && NameOf(PodsMountDir) == "pods-mount-dir"
  {
  }

  lemma OneShown(sidecar: Sidecar, a: BuiltIn, c: Container)
    requires sidecar.mounts == [a]
    ensures Shown(sidecar, c) <==> sidecar.present && c == Mounted(sidecar.name, NameOf(a))
  {
    assert Mounts([a]) == [Mount(NameOf(a), Standard)];
  }

  lemma TwoShown(sidecar: Sidecar, a: BuiltIn, b: BuiltIn, c: Container)
    requires sidecar.mounts == [a, b]
    ensures Shown(sidecar, c) <==> sidecar.present && c == MountedTwo(sidecar.name, NameOf(a), NameOf(b))
  {
    assert Mounts([a, b]) == [Mount(NameOf(a), Standard), Mount(NameOf(b), Standard)];
  }

  lemma OneOfThreeShown(s: seq<Sidecar>, c: Container)
    requires |s| == 3
    ensures (exists k :: 0 <= k < |s| && Shown(s[k], c)) <==> Shown(s[0], c) || Shown(s[1], c) || Shown(s[2], c)
  {
  }

  lemma OneOfTwoShown(s: seq<Sidecar>, c: Container)
    requires |s| == 2
    ensures (exists k :: 0 <= k < |s| && Shown(s[k], c)) <==> Shown(s[0], c) || Shown(s[1], c)
  {
  }

  /** The sidecars of the node pod. */
  lemma NodeSidecarsAre(o: Options, c: Container)
    ensures c in Containers(NodeSidecars(o)) <==>
            || c == MountedTwo("driver-registrar", "plugin-dir", "registration-dir")
            || (o.liveness && c == Mounted("liveness-prometheus", "plugin-dir"))
            || (o.logRotation && c == MountedTwo("log-rotator", "logs-dir", "log-rotate-dir"))
  {
    hide Shown, Mounted, MountedTwo, NameOf, Containers;
    var sidecars := NodeSidecars(o);
    InContainers(sidecars, c);
    OneOfThreeShown(sidecars, c);
    SidecarNames();
    TwoShown(sidecars[0], PluginDir, RegistrationDir, c);
    OneShown(sidecars[1], PluginDir, c);
    TwoShown(sidecars[2], LogsDir, LogRotateDir, c);
  }

  /** The containers of the csi-addons pod. */
  lemma AddonsContainersAre(o: Options, c: Container)
    ensures c in Containers(AddonsContainers(o)) <==>
            || (c.name == "csi-addons" &&
                c.mounts == [Mount("plugin-dir", Standard)] +
                            (if o.logRotation then [Mount("logs-dir", Standard)] else []) +
                            (if o.volumeCondition then [Mount("plugin-mount-dir", Standard), Mount("pods-mount-dir", Standard)]
                             else []))
            || (o.logRotation && c == MountedTwo("log-rotator", "logs-dir", "log-rotate-dir"))
  {
    hide Mounted, MountedTwo, NameOf, Containers, Pick;
    var sidecars := AddonsContainers(o);
    InContainers(sidecars, c);
    OneOfTwoShown(sidecars, c);
    SidecarNames();
    AddonsMountItems(o);
    TwoShown(sidecars[1], LogsDir, LogRotateDir, c);
    var items := [PluginDir] + (if o.logRotation then [LogsDir] else []) +
                 (if o.volumeCondition then [PluginMountDir, PodsMountDir] else []);
    assert Mounts(items) == [Mount("plugin-dir", Standard)] + (if o.logRotation then [Mount("logs-dir", Standard)] else []) +
      (if o.volumeCondition then [Mount("plugin-mount-dir", Standard), Mount("pods-mount-dir", Standard)] else []);
  }

  lemma AddonsMountItems(o: Options)
    ensures Pick(AddonsMountParts(o)) ==
            [PluginDir] + (if o.logRotation then [LogsDir] else []) +
            (if o.volumeCondition then [PluginMountDir, PodsMountDir] else [])
  {
    var parts := AddonsMountParts(o);
    assert parts[..2][..1] == parts[..1] && parts[..1][..0] == [];
    assert Pick(parts[..1]) == Pick(parts[..1][..0]) + [PluginDir];
  }

  lemma AddonsItems(o: Options)
    ensures Pick([Part(true, [SocketDir]), Part(o.logRotation, [LogsDir])]) ==
            if o.logRotation then [SocketDir, LogsDir] else [SocketDir]
  {
    var parts := [Part(true, [SocketDir]), Part(o.logRotation, [LogsDir])];
    assert parts[..1] == [Part(true, [SocketDir])] && parts[..1][..0] == [];
    assert Pick(parts[..1]) == Pick(parts[..1][..0]) + [SocketDir];
  }

  // --------------------------------------------------------------- main results

  /** The snapshot-metadata sidecar mounts what the first "tls-key" volume comes with,
      even when that mount has no name. */
  ghost predicate TlsMountNamed(o: Options, specs: seq<VolumeSpec>) {
    o.driverType.Rbd? && TlsIndex(specs) != -1 ==> specs[TlsIndex(specs)].mount.name != ""
  }

  /** In the controller pod every mount names a volume exactly when each named user
      mount does and a "tls-key" volume of an rbd driver comes with a named mount. */
  lemma ControllerCloses(o: Options, specs: seq<VolumeSpec>)
    ensures DistinctVolumes(ControllerPod(o, specs).volumes)
    ensures Resolves(ControllerPod(o, specs)) <==>
            UserMountsResolve(ControllerVolumes(o), specs) && TlsMountNamed(o, specs)
  {
    var bs := ControllerVolumes(o);
    var vs := WithUserVolumes(bs, specs);
    ControllerSidecarsSound(o);
    hide ControllerVolumes, ControllerMounts, ControllerSidecars, WithUserVolumes, WithUserMounts, Containers, Distinct;
    VolumesStayDistinct(bs, specs);
    ProvidesItsOwn(bs, specs);
    SidecarsResolve(ControllerSidecars(o), bs, vs);
    PluginResolves(PluginName(o.driverType), ControllerMounts(o), bs, specs);
    SnapshotMetadataResolves(o, specs);
    var plugin := [Container(PluginName(o.driverType), WithUserMounts(ControllerMounts(o), specs))];
    hide AllResolve, SnapshotMetadata, TlsMountNamed, UserMountsResolve, DistinctVolumes, PluginName;
    ResolveConcat(plugin, Containers(ControllerSidecars(o)), vs);
    ResolveConcat(plugin + Containers(ControllerSidecars(o)), SnapshotMetadata(o, specs), vs);
  }

  lemma SnapshotMetadataResolves(o: Options, specs: seq<VolumeSpec>)
    requires SocketDir in ControllerVolumes(o)
    ensures var vs := WithUserVolumes(ControllerVolumes(o), specs);
            && (AllResolve(SnapshotMetadata(o, specs), vs) ==> TlsMountNamed(o, specs))
            && (UserMountsResolve(ControllerVolumes(o), specs) && TlsMountNamed(o, specs) ==>
                  AllResolve(SnapshotMetadata(o, specs), vs))
  {
    hide ControllerVolumes, WithUserVolumes, NameOf;
    var bs := ControllerVolumes(o);
    var vs := WithUserVolumes(bs, specs);
    var k := TlsIndex(specs);
    if o.driverType.Rbd? && k != -1 {
      var c := SnapshotMetadata(o, specs)[0];
      var mount := specs[k].mount;
      ProvidesItsOwn(bs, specs);
      assert HasVolume(vs, NameOf(SocketDir));
      assert c.mounts == [mount, Mounts([SocketDir])[0]];
      assert ContainerResolves(c, vs) <==> HasVolume(vs, mount.name) by {
        assert c.mounts[0] == mount && c.mounts[1].name == NameOf(SocketDir);
      }
      VolumesHeld(bs, specs, mount.name);
      NoEmptyName(bs);
    }
  }

  /** The node pod closes exactly when each named user mount does. */
  lemma NodeCloses(o: Options, specs: seq<VolumeSpec>)
    ensures DistinctVolumes(NodePod(o, specs).volumes)
    ensures Resolves(NodePod(o, specs)) <==> UserMountsResolve(NodeVolumes(o), specs)
  {
    var bs := NodeVolumes(o);
    var vs := WithUserVolumes(bs, specs);
    NodeSidecarsSound(o);
    hide NodeVolumes, NodeMounts, NodeSidecars, WithUserVolumes, WithUserMounts, Containers, Distinct;
    VolumesStayDistinct(bs, specs);
    ProvidesItsOwn(bs, specs);
    SidecarsResolve(NodeSidecars(o), bs, vs);
    PluginResolves(PluginName(o.driverType), NodeMounts(o), bs, specs);
    hide AllResolve, UserMountsResolve, DistinctVolumes, PluginName;
    ResolveConcat([Container(PluginName(o.driverType), WithUserMounts(NodeMounts(o), specs))],
                  Containers(NodeSidecars(o)), vs);
  }

  /** The csi-addons pod always closes. */
  lemma AddonsCloses(o: Options)
    ensures DistinctVolumes(AddonsPod(o).volumes) && Resolves(AddonsPod(o))
  {
    var bs := AddonsVolumes(o);
    AddonsSound(o);
    assert Volumes(bs) == WithUserVolumes(bs, []);
    hide AddonsVolumes, AddonsContainers, WithUserVolumes, Volumes, Distinct;
    VolumesStayDistinct(bs, []);
    ProvidesItsOwn(bs, []);
    SidecarsResolve(AddonsContainers(o), bs, Volumes(bs));
  }
}
