/** The three writers of the shared config map, each as the function it applies to
    the value it read, and as the method that edits the object in place. */
module ConfigMapWriters {
  import opened Prelude
  import opened OwnerReferences
  import opened ClusterInfo
  import opened MappingAggregation

  /** Text under a key of the config map: absent (or empty), the encoding of a
      list, or something that does not parse. */
  datatype Text<+T> = Absent | Json(list: T) | Foreign

  datatype ConfigMapValue = ConfigMapValue(owners: seq<Ref>, config: Text<seq<Record>>,
                                           mapping: Text<seq<MappingRecord>>)

  /** What a create starts from. */
  const EMPTY_CONFIG_MAP := ConfigMapValue([], Absent, Absent)

  function Records(config: Text<seq<Record>>): seq<Record> {
    if config.Json? then config.list else []
  }

  /** A profile's edit: its owner reference, and its record in the list. None is a
      failed edit, after which nothing is written. */
  function ProfileEdit(v: ConfigMapValue, namespace: string, cleanUp: bool, owner: Owner, record: Record)
    : Option<ConfigMapValue>
  {
    var o := Toggle(!cleanUp, v.owners, owner, namespace);
    if o.failed || v.config.Foreign? then None
    else
      var list := Records(v.config);
      Some(v.(owners := o.refs,
              config := Json(if cleanUp then SwapDelete(list, owner.key.name) else ClusterInfo.Upsert(list, record))))
  }

  const GROUP := "csi.ceph.io"

  function MappingOwner(cr: MappingCR, namespace: string): Owner {
    Owner(Key(GROUP, "ClientProfileMapping", cr.name), cr.uid, namespace)
  }

  /** First listed resource with the request's name. */
  function Named(crs: seq<MappingCR>, name: string): (r: Option<MappingCR>)
    ensures r.Some? ==> r.value.name == name && r.value in crs
    ensures r.None? ==> forall i :: 0 <= i < |crs| ==> crs[i].name != name
  {
    if crs == [] then None
    else if crs[0].name == name then Some(crs[0])
    else Named(crs[1..], name)
  }

  /** The mapping controller's edit: an owner reference if the requested resource
      is still listed, and the whole aggregate, rebuilt. */
  function MappingEdit(v: ConfigMapValue, namespace: string, crs: seq<MappingCR>, name: string): Option<ConfigMapValue> {
    var cr := Named(crs, name);
    var o := if cr.Some? then Toggle(true, v.owners, MappingOwner(cr.value, namespace), namespace)
             else Outcome(v.owners, false, false);
    if o.failed then None
    else Some(v.(owners := o.refs, mapping := Json(RenderAll(Aggregate(AllMappings(crs))))))
  }

  /** The driver controller's edit: its owner reference only. */
  function DriverEdit(v: ConfigMapValue, namespace: string, owner: Owner): Option<ConfigMapValue> {
    var o := Toggle(true, v.owners, owner, namespace);
    if o.failed then None else Some(v.(owners := o.refs))
  }

  // ------------------------------------------------------------------ in place

  class ConfigMap {
    const meta: ObjectMeta
    var config: Text<seq<Record>>
    var mapping: Text<seq<MappingRecord>>

    constructor (meta: ObjectMeta, config: Text<seq<Record>>, mapping: Text<seq<MappingRecord>>)
      ensures this.meta == meta && this.config == config && this.mapping == mapping
    {
      this.meta, this.config, this.mapping := meta, config, mapping;
    }

    function Value(): ConfigMapValue
      reads this, meta
    {
      ConfigMapValue(meta.ownerReferences, config, mapping)
    }

    /** The edit of one client-profile reconcile. */
    method EditForProfile(cleanUp: bool, owner: Owner, inputs: Inputs) returns (failed: bool, ghost record: Record)
      requires inputs.name == owner.key.name
      modifies this, meta
      ensures !cleanUp && !failed ==> IsRecordOf(record, inputs)
      ensures ProfileEdit(old(Value()), meta.namespace, cleanUp, owner, record) == if failed then None else Some(Value())
    {
      record := ZERO_RECORD;
      var _, toggleFailed := meta.ToggleOwnerReference(!cleanUp, owner);
      if toggleFailed {
        return true, record;
      }
      var clusterInfoList: seq<Record> := [];
      match config {
        case Absent =>
        case Json(list) => clusterInfoList := list;
        case Foreign => return true, record;
      }
      var index := -1;
      for i := 0 to |clusterInfoList|
        invariant index == -1 && forall j :: 0 <= j < i ==> clusterInfoList[j].clusterId != inputs.name
      {
        if clusterInfoList[i].clusterId == inputs.name {
          index := i;
          break;
        }
      }
      assert index == ClusterInfo.IndexOf(clusterInfoList, inputs.name);
      if !cleanUp {
        var composed := ComposeCsiClusterInfoRecord(inputs);
        record := composed;
        if index > -1 {
          clusterInfoList := clusterInfoList[index := composed];
        } else {
          clusterInfoList := clusterInfoList + [composed];
        }
      } else if index > -1 {
        var length := |clusterInfoList|;
        clusterInfoList := clusterInfoList[index := clusterInfoList[length - 1]];
        clusterInfoList := clusterInfoList[..length - 1];
      }
      config := Json(clusterInfoList);
      return false, record;
    }

    /** The edit of one mapping reconcile. */
    method EditForMapping(crs: seq<MappingCR>, name: string) returns (failed: bool)
      modifies this, meta
      ensures MappingEdit(old(Value()), meta.namespace, crs, name) == if failed then None else Some(Value())
    {
      var owner: Option<MappingCR> := None;
      for i := 0 to |crs|
        invariant owner == None && Named(crs[i..], name) == Named(crs, name)
      {
        assert crs[i..][1..] == crs[i + 1..];
        if crs[i].name == name {
          owner := Some(crs[i]);
          break;
        }
      }
      if owner.Some? {
        var _, toggleFailed := meta.ToggleOwnerReference(true, MappingOwner(owner.value, meta.namespace));
        if toggleFailed {
          return true;
        }
      }
      var aggregator := new Aggregator();
      aggregator.Reconcile(crs);
      mapping := Json(aggregator.list);
      return false;
    }

    /** The edit of one driver reconcile. */
    method EditForDriver(owner: Owner) returns (failed: bool)
      modifies this, meta
      ensures DriverEdit(old(Value()), meta.namespace, owner) == if failed then None else Some(Value())
    {
      var _, toggleFailed := meta.ToggleOwnerReference(true, owner);
      return toggleFailed;
    }
  }

  // ---------------------------------------------- each writer keeps to its part

  /** References to other owners are the same, in the same order. */
  ghost predicate SameOwnersExcept(before: ConfigMapValue, after: ConfigMapValue, key: Key) {
    Others(after.owners, key) == Others(before.owners, key)
  }

  lemma ProfileEditIsOwn(v: ConfigMapValue, namespace: string, cleanUp: bool, owner: Owner, record: Record)
    requires UniqueIds(Records(v.config)) && (!cleanUp ==> record.clusterId == owner.key.name)
    requires ProfileEdit(v, namespace, cleanUp, owner, record).Some?
    ensures var w := ProfileEdit(v, namespace, cleanUp, owner, record).value;
            && w.mapping == v.mapping
            && SameOwnersExcept(v, w, owner.key)
            && UniqueIds(Records(w.config))
            && (forall id :: Lookup(Records(w.config), id) ==
                  if id != owner.key.name then Lookup(Records(v.config), id)
                  else if cleanUp then None else Some(record))
  {
    ToggleKeepsOthers(!cleanUp, v.owners, owner, namespace);
    if cleanUp {
      SwapDeleteMeaning(Records(v.config), owner.key.name);
    } else {
      UpsertMeaning(Records(v.config), record);
    }
  }

  lemma MappingEditIsOwn(v: ConfigMapValue, namespace: string, crs: seq<MappingCR>, name: string)
    requires MappingEdit(v, namespace, crs, name).Some?
    ensures var w := MappingEdit(v, namespace, crs, name).value;
            && w.config == v.config
            && w.mapping == Json(RenderAll(Aggregate(AllMappings(crs))))
            && SameOwnersExcept(v, w, Key(GROUP, "ClientProfileMapping", name))
  {
    var cr := Named(crs, name);
    if cr.Some? {
      ToggleKeepsOthers(true, v.owners, MappingOwner(cr.value, namespace), namespace);
    }
  }

  lemma DriverEditIsOwn(v: ConfigMapValue, namespace: string, owner: Owner)
    requires DriverEdit(v, namespace, owner).Some?
    ensures var w := DriverEdit(v, namespace, owner).value;
            w.config == v.config && w.mapping == v.mapping && SameOwnersExcept(v, w, owner.key)
  {
    ToggleKeepsOthers(true, v.owners, owner, namespace);
  }
}
