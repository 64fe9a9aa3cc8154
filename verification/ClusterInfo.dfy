/** The cluster-info record of a client profile and the list that holds one record
    for each profile: composition, in-place upsert and unordered delete. */
module ClusterInfo {
  import opened Prelude
  import opened MapText
  import opened Election

  // -------------------------------------------------------------------- inputs

  datatype SecretRef = SecretRef(name: string, namespace: string)

  datatype Secrets = Secrets(controllerPublish: SecretRef, nodePublish: SecretRef)

  datatype CephFs = CephFs(subVolumeGroup: string,
                           kernelMountOptions: Option<map<string, string>>,
                           fuseMountOptions: Option<map<string, string>>,
                           radosNamespace: Option<string>,
                           secrets: Option<Secrets>)

  datatype Rbd = Rbd(radosNamespace: string, secrets: Option<Secrets>)

  datatype Nvmeof = Nvmeof(radosNamespace: string, secrets: Option<Secrets>)

  datatype ProfileSpec = ProfileSpec(connection: string, cephFs: Option<CephFs>, rbd: Option<Rbd>,
                                     nvmeof: Option<Nvmeof>)

  datatype ConnectionSpec = ConnectionSpec(monitors: seq<string>, readAffinity: Option<seq<string>>,
                                           rbdMirrorDaemonCount: int)

  datatype PoolMapping = PoolMapping(name: string, remoteId: string)

  datatype ReplicationSpec = ReplicationSpec(local: string, remote: string, rbd: Option<seq<PoolMapping>>)

  /** What the reconcile holds when it composes a record: the profile, its
      connection, and the replication that was loaded, if any. */
  datatype Inputs = Inputs(name: string, spec: ProfileSpec, connection: ConnectionSpec,
                           replication: Option<(ReplicationSpec, Phase)>)

  // -------------------------------------------------------------------- record

  datatype CephFsRecord = CephFsRecord(subvolumeGroup: string, kernelMountOptions: string,
                                       fuseMountOptions: string, radosNamespace: string,
                                       controllerPublishSecret: SecretRef)

  datatype RbdRecord = RbdRecord(radosNamespace: string, mirrorCount: int,
                                 controllerPublishSecret: SecretRef, nodePublishSecret: SecretRef)

  datatype NvmeofRecord = NvmeofRecord(radosNamespace: string, controllerPublishSecret: SecretRef)

  datatype Destination = Destination(remoteClusterId: string, poolMapping: Option<map<string, string>>)

  datatype Record = Record(clusterId: string, monitors: seq<string>, cephFs: CephFsRecord, rbd: RbdRecord,
                           nvmeof: NvmeofRecord, readAffinity: Option<seq<string>>,
                           destination: Option<Destination>)

  const NO_SECRET := SecretRef("", "")

  const ZERO_RECORD := Record("", [], CephFsRecord("", "", "", "", NO_SECRET), RbdRecord("", 0, NO_SECRET, NO_SECRET),
                             NvmeofRecord("", NO_SECRET), None, None)

  /** The pool id a consumer finds under a pool name: the last one given. */
  function RemotePools(pools: seq<PoolMapping>): map<string, string> {
    if pools == [] then map[]
    else RemotePools(pools[..|pools| - 1])[pools[|pools| - 1].name := pools[|pools| - 1].remoteId]
  }

  /** Some pool pair has this name, and the last one that has it gives this id. */
  ghost predicate LastGiven(pools: seq<PoolMapping>, name: string, id: string) {
    exists i :: 0 <= i < |pools| && pools[i].name == name && pools[i].remoteId == id &&
      forall j :: i < j < |pools| ==> pools[j].name != name
  }

  lemma {:induction false} RemotePoolsMeaning(pools: seq<PoolMapping>, name: string)
    ensures name in RemotePools(pools) <==> exists i :: 0 <= i < |pools| && pools[i].name == name
    ensures name in RemotePools(pools) ==> LastGiven(pools, name, RemotePools(pools)[name])
  {
    if pools != [] {
      var n := |pools| - 1;
      RemotePoolsMeaning(pools[..n], name);
      if pools[n].name != name && name in RemotePools(pools[..n]) {
        var id := RemotePools(pools[..n])[name];
        var i :| 0 <= i < n && pools[..n][i].name == name && pools[..n][i].remoteId == id &&
          forall j :: i < j < n ==> pools[..n][j].name != name;
        assert pools[i].name == name && pools[i].remoteId == id;
        assert forall j :: i < j < n ==> pools[..n][j] == pools[j];
      }
      if i :| 0 <= i < |pools| && pools[i].name == name && i < n {
        assert pools[..n][i].name == name;
      }
    }
  }

  ghost predicate PrintsOptions(text: string, options: Option<map<string, string>>) {
    if options.None? then text == "" else IsPrinting(text, options.value, "=", ",")
  }

  predicate ShowsControllerSecret(ref: SecretRef, secrets: Option<Secrets>) {
    ref == if secrets.Some? then secrets.value.controllerPublish else NO_SECRET
  }

  predicate ShowsNodeSecret(ref: SecretRef, secrets: Option<Secrets>) {
    ref == if secrets.Some? then secrets.value.nodePublish else NO_SECRET
  }

  ghost predicate DescribesCephFs(r: CephFsRecord, cephFs: Option<CephFs>) {
    match cephFs
    case None => r == ZERO_RECORD.cephFs
    case Some(fs) =>
      && r.subvolumeGroup == fs.subVolumeGroup
      && r.radosNamespace == (if fs.radosNamespace.Some? then fs.radosNamespace.value else "")
      && PrintsOptions(r.kernelMountOptions, fs.kernelMountOptions)
      && PrintsOptions(r.fuseMountOptions, fs.fuseMountOptions)
      && ShowsControllerSecret(r.controllerPublishSecret, fs.secrets)
  }

  predicate DescribesRbd(r: RbdRecord, rbd: Option<Rbd>, mirrorDaemons: int) {
    match rbd
    case None => r == ZERO_RECORD.rbd
    case Some(rbd) =>
      && r.radosNamespace == rbd.radosNamespace
      && r.mirrorCount == mirrorDaemons
      && ShowsControllerSecret(r.controllerPublishSecret, rbd.secrets)
      && ShowsNodeSecret(r.nodePublishSecret, rbd.secrets)
  }

  predicate DescribesNvmeof(r: NvmeofRecord, nvmeof: Option<Nvmeof>) {
    match nvmeof
    case None => r == ZERO_RECORD.nvmeof
    case Some(n) => r.radosNamespace == n.radosNamespace && ShowsControllerSecret(r.controllerPublishSecret, n.secrets)
  }

  /** The replication destination is announced exactly for a Ready replication. */
  predicate DescribesDestination(d: Option<Destination>, replication: Option<(ReplicationSpec, Phase)>) {
    if replication.None? || replication.value.1 != Ready then d == None
    else
      var rep := replication.value.0;
      && d.Some?
      && d.value.remoteClusterId == rep.remote
      && d.value.poolMapping == (if rep.rbd.None? || rep.rbd.value == [] then None
                                 else Some(RemotePools(rep.rbd.value)))
  }

  /** `r` is a record of the given inputs. It is unique but for the order in which
      mount options are printed. */
  ghost predicate IsRecordOf(r: Record, inputs: Inputs) {
    && r.clusterId == inputs.name
    && r.monitors == inputs.connection.monitors
    && DescribesCephFs(r.cephFs, inputs.spec.cephFs)
    && DescribesRbd(r.rbd, inputs.spec.rbd, inputs.connection.rbdMirrorDaemonCount)
    && DescribesNvmeof(r.nvmeof, inputs.spec.nvmeof)
    && r.readAffinity == inputs.connection.readAffinity
    && DescribesDestination(r.destination, inputs.replication)
  }

  method ComposeCsiClusterInfoRecord(inputs: Inputs) returns (record: Record)
    ensures IsRecordOf(record, inputs)
  {
    record := ZERO_RECORD;
    record := record.(clusterId := inputs.name);
    record := record.(monitors := inputs.connection.monitors);
    if inputs.spec.cephFs.Some? {
      var cephFs := ComposeCephFs(record.cephFs, inputs.spec.cephFs.value);
      record := record.(cephFs := cephFs);
    }
    if inputs.spec.rbd.Some? {
      var rbd := ComposeRbd(record.rbd, inputs.spec.rbd.value, inputs.connection);
      record := record.(rbd := rbd);
    }
    if inputs.spec.nvmeof.Some? {
      var nvmeof := ComposeNvmeof(record.nvmeof, inputs.spec.nvmeof.value);
      record := record.(nvmeof := nvmeof);
    }
    if inputs.connection.readAffinity.Some? {
      record := record.(readAffinity := inputs.connection.readAffinity);
    }
    if inputs.replication.Some? && inputs.replication.value.1 == Ready {
      var destination := ComposeDestination(inputs.replication.value.0);
      record := record.(destination := Some(destination));
    }
  }

  method ComposeCephFs(zero: CephFsRecord, cephFs: CephFs) returns (out: CephFsRecord)
    requires zero == ZERO_RECORD.cephFs
    ensures DescribesCephFs(out, Some(cephFs))
  {
    out := zero.(subvolumeGroup := cephFs.subVolumeGroup);
    if cephFs.radosNamespace.Some? {
      out := out.(radosNamespace := cephFs.radosNamespace.value);
    }
    if cephFs.kernelMountOptions.Some? {
      var text := MapToString(cephFs.kernelMountOptions.value, "=", ",");
      out := out.(kernelMountOptions := text);
    }
    if cephFs.fuseMountOptions.Some? {
      var text := MapToString(cephFs.fuseMountOptions.value, "=", ",");
      out := out.(fuseMountOptions := text);
    }
    if cephFs.secrets.Some? {
      out := out.(controllerPublishSecret := cephFs.secrets.value.controllerPublish);
    }
  }

  method ComposeRbd(zero: RbdRecord, rbd: Rbd, connection: ConnectionSpec) returns (out: RbdRecord)
    requires zero == ZERO_RECORD.rbd
    ensures DescribesRbd(out, Some(rbd), connection.rbdMirrorDaemonCount)
  {
    out := zero.(radosNamespace := rbd.radosNamespace);
    out := out.(mirrorCount := connection.rbdMirrorDaemonCount);
    if rbd.secrets.Some? {
      out := out.(controllerPublishSecret := rbd.secrets.value.controllerPublish);
      out := out.(nodePublishSecret := rbd.secrets.value.nodePublish);
    }
  }

  method ComposeNvmeof(zero: NvmeofRecord, nvmeof: Nvmeof) returns (out: NvmeofRecord)
    requires zero == ZERO_RECORD.nvmeof
    ensures DescribesNvmeof(out, Some(nvmeof))
  {
    out := zero.(radosNamespace := nvmeof.radosNamespace);
    if nvmeof.secrets.Some? {
      out := out.(controllerPublishSecret := nvmeof.secrets.value.controllerPublish);
    }
  }

  method ComposeDestination(rep: ReplicationSpec) returns (destination: Destination)
    ensures DescribesDestination(Some(destination), Some((rep, Ready)))
    ensures rep.rbd.Some? && destination.poolMapping.Some? ==>
              forall name :: name in destination.poolMapping.value ==>
                LastGiven(rep.rbd.value, name, destination.poolMapping.value[name])
    ensures rep.rbd.Some? && rep.rbd.value != [] ==>
              && destination.poolMapping.Some?
              && (forall i :: 0 <= i < |rep.rbd.value| ==> rep.rbd.value[i].name in destination.poolMapping.value)
  {
    destination := Destination(rep.remote, None);
    if rep.rbd.Some? && |rep.rbd.value| > 0 {
      var pools := rep.rbd.value;
      var mapping: map<string, string> := map[];
      for i := 0 to |pools|
        invariant mapping == RemotePools(pools[..i])
      {
        assert pools[..i + 1][..i] == pools[..i];
        mapping := mapping[pools[i].name := pools[i].remoteId];
      }
      assert pools[..|pools|] == pools;
      destination := destination.(poolMapping := Some(mapping));
      forall name { RemotePoolsMeaning(pools, name); }
    }
  }

  // ---------------------------------------------------------------------- list

  /** Position of the first record for `id`, or -1. */
  function IndexOf(list: seq<Record>, id: string): (i: int)
    ensures -1 <= i < |list|
    ensures i >= 0 ==> list[i].clusterId == id && forall j :: 0 <= j < i ==> list[j].clusterId != id
    ensures i == -1 ==> forall j :: 0 <= j < |list| ==> list[j].clusterId != id
  {
    if list == [] then -1
    else if list[0].clusterId == id then 0
    else var i := IndexOf(list[1..], id); if i == -1 then -1 else i + 1
  }

  function Lookup(list: seq<Record>, id: string): (r: Option<Record>)
    ensures r.Some? ==> r.value in list && r.value.clusterId == id
  {
    var i := IndexOf(list, id);
    if i == -1 then None else Some(list[i])
  }

  function Upsert(list: seq<Record>, record: Record): seq<Record> {
    var i := IndexOf(list, record.clusterId);
    if i == -1 then list + [record] else list[i := record]
  }

  /** Move the last record into the hole, then drop the last position. */
  function SwapDelete(list: seq<Record>, id: string): seq<Record> {
    var i := IndexOf(list, id);
    if i == -1 then list else list[i := list[|list| - 1]][..|list| - 1]
  }

  ghost predicate UniqueIds(list: seq<Record>) {
    forall i, j :: 0 <= i < j < |list| ==> list[i].clusterId != list[j].clusterId
  }

  lemma LookupIs(list: seq<Record>, i: nat)
    requires UniqueIds(list) && i < |list|
    ensures Lookup(list, list[i].clusterId) == Some(list[i])
  {
  }

  lemma LookupNone(list: seq<Record>, id: string)
    ensures Lookup(list, id) == None <==> forall i :: 0 <= i < |list| ==> list[i].clusterId != id
  {
  }

  /** The list as a map: upsert sets one entry and touches no other. */
  lemma UpsertMeaning(list: seq<Record>, record: Record)
    requires UniqueIds(list)
    ensures var l := Upsert(list, record);
            && UniqueIds(l)
            && (forall id :: Lookup(l, id) == if id == record.clusterId then Some(record) else Lookup(list, id))
            && |list| <= |l| && (forall i :: 0 <= i < |list| ==> l[i].clusterId == list[i].clusterId)
            && (|l| > |list| ==> |l| == |list| + 1 && l[|list|].clusterId == record.clusterId)
  {
    var l := Upsert(list, record);
    forall id ensures Lookup(l, id) == if id == record.clusterId then Some(record) else Lookup(list, id) {
      SameLookup(list, l, record, id);
    }
  }

  lemma SameLookup(list: seq<Record>, l: seq<Record>, record: Record, id: string)
    requires UniqueIds(list) && l == Upsert(list, record)
    ensures Lookup(l, id) == if id == record.clusterId then Some(record) else Lookup(list, id)
  {
    var at := IndexOf(list, record.clusterId);
    if id == record.clusterId {
      assert l[if at == -1 then |list| else at] == record;
    } else if Lookup(list, id).Some? {
      assert l[IndexOf(list, id)] == list[IndexOf(list, id)];
    }
  }

  /** Delete removes one entry, keeps every other record, and the order of the list
      is the only thing it disturbs. */
  lemma SwapDeleteMeaning(list: seq<Record>, id: string)
    requires UniqueIds(list)
    ensures var l := SwapDelete(list, id);
            && UniqueIds(l)
            && (forall k :: Lookup(l, k) == if k == id then None else Lookup(list, k))
            && multiset(l) + (if Lookup(list, id).Some? then multiset{Lookup(list, id).value} else multiset{}) ==
               multiset(list)
  {
    var l, at, last := SwapDelete(list, id), IndexOf(list, id), |list| - 1;
    if at != -1 {
      SwapDeleteAt(list, id);
      LastMoved(list, at);
      hide SwapDelete;
      forall k ensures Lookup(l, k) == if k == id then None else Lookup(list, k) {
        DeletedLookup(list, l, id, k);
      }
    }
  }

  lemma SwapDeleteAt(list: seq<Record>, id: string)
    requires IndexOf(list, id) != -1
    ensures var l, at := SwapDelete(list, id), IndexOf(list, id);
            |l| == |list| - 1 && forall i :: 0 <= i < |l| ==> l[i] == if i == at then list[|list| - 1] else list[i]
  {
  }

  /** Moving the last element into position i drops element i. */
  lemma LastMoved<T>(s: seq<T>, i: nat)
    requires i < |s|
    ensures multiset(s[i := s[|s| - 1]][..|s| - 1]) + multiset{s[i]} == multiset(s)
  {
    var last := |s| - 1;
    assert s == s[..last] + [s[last]];
    if i < last {
      assert s[i := s[last]][..last] == s[..last][i := s[last]];
    }
  }

  lemma DeletedLookup(list: seq<Record>, l: seq<Record>, id: string, k: string)
    requires UniqueIds(list) && IndexOf(list, id) != -1 && |l| == |list| - 1
    requires forall i :: 0 <= i < |l| ==> l[i] == if i == IndexOf(list, id) then list[|list| - 1] else list[i]
    ensures Lookup(l, k) == if k == id then None else Lookup(list, k)
  {
    var at, last := IndexOf(list, id), |list| - 1;
    if k != id && Lookup(list, k).Some? {
      var i := IndexOf(list, k);
      assert l[if i == last then at else i] == list[i];
      LookupIs(l, if i == last then at else i);
    }
  }
}
