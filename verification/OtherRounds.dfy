/** Undisturbed reconciles of the other two writers of the config map. */
module OtherRounds {
  import opened Prelude
  import opened OwnerReferences
  import opened MappingAggregation
  import opened ConfigMapWriters
  import opened Protocol

  ghost function MappingRound(s: State, n: string): State {
    Next(Next(Next(s, MList(n)), MGetConfigMap(n)), MPutConfigMap(n))
  }

  ghost function DriverRound(s: State, n: string): State {
    Next(Next(Next(s, DGet(n)), DGetConfigMap(n)), DPutConfigMap(n))
  }

  /** Only the config map differs. */
  ghost predicate OnlyConfigMap(s: State, r: State) {
    r == s.(cm := r.cm, clock := r.clock)
  }

  lemma MappingReads(s: State, n: string)
    requires n !in s.mappingTasks
    ensures var s2 := Next(Next(s, MList(n)), MGetConfigMap(n));
            s2 == s.(mappingTasks := s.mappingTasks[n := ListedMappings(s.mappings)]
                                                   [n := MappingGotConfigMap(s.mappings, s.cm)],
                     clock := s.clock + 2)
  {
    WriterSteps(s, MList(n));
    WriterSteps(Next(s, MList(n)), MGetConfigMap(n));
    hide Next;
  }

  /** The config map once `value` is committed at the given time: written only if
      something changed. */
  ghost function Written(cm: Option<Stored<ConfigMapValue>>, clock: nat, value: ConfigMapValue)
    : (r: Option<Stored<ConfigMapValue>>)
    ensures r.Some? && Base(r) == value
    ensures cm.Some? && Base(cm) == value ==> r == cm
  {
    if cm.Some? && cm.value.value == value then cm else Some(Stored(clock, value))
  }

  lemma MappingCommits(s: State, n: string, crs: seq<MappingCR>)
    requires n in s.mappingTasks && s.mappingTasks[n] == MappingGotConfigMap(crs, s.cm)
    requires MappingEdit(Base(s.cm), s.namespace, crs, n).Some?
    ensures StepMapping(s, MPutConfigMap(n)) ==
            s.(mappingTasks := s.mappingTasks - {n},
               cm := Written(s.cm, s.clock, MappingEdit(Base(s.cm), s.namespace, crs, n).value))
  {
    hide MappingEdit;
  }

  lemma MappingWrites(s: State, n: string)
    requires n !in s.mappingTasks && MappingEdit(Base(s.cm), s.namespace, s.mappings, n).Some?
    ensures MappingRound(s, n) ==
            s.(cm := Written(s.cm, s.clock + 2, MappingEdit(Base(s.cm), s.namespace, s.mappings, n).value),
               clock := s.clock + 3)
  {
    hide Next, MappingEdit, StepMapping, Written;
    MappingReads(s, n);
    var s2 := Next(Next(s, MList(n)), MGetConfigMap(n));
    WriterSteps(s2, MPutConfigMap(n));
    MappingCommits(s2, n, s.mappings);
    InsertThenRemove(s.mappingTasks, n, ListedMappings(s.mappings));
    InsertThenRemove(s.mappingTasks[n := ListedMappings(s.mappings)], n, MappingGotConfigMap(s.mappings, s.cm));
  }

  /** A mapping reconcile rebuilds the mapping text from the resources that exist,
      records the requested one as an owner, and writes only when something changed. */
  lemma MappingRoundMeaning(s: State, n: string)
    requires n !in s.mappingTasks
    ensures var r := MappingRound(s, n);
            && OnlyConfigMap(s, r) && r.cm.Some?
            && Base(r.cm).config == Base(s.cm).config
            && Base(r.cm).mapping == Json(RenderAll(Aggregate(AllMappings(s.mappings))))
            && SameOwnersExcept(Base(s.cm), Base(r.cm), Key(GROUP, "ClientProfileMapping", n))
            && (Named(s.mappings, n).Some? ==> HasUid(Base(r.cm).owners, Named(s.mappings, n).value.uid))
            && (s.cm.Some? && Base(r.cm) == Base(s.cm) ==> r.cm == s.cm)
  {
    MappingEditSucceeds(Base(s.cm), s.namespace, s.mappings, n);
    MappingEditIsOwn(Base(s.cm), s.namespace, s.mappings, n);
    MappingWrites(s, n);
    hide MappingEdit, MappingRound, RenderAll, Aggregate, AllMappings, SameOwnersExcept;
  }

  lemma MappingEditSucceeds(v: ConfigMapValue, namespace: string, crs: seq<MappingCR>, n: string)
    ensures MappingEdit(v, namespace, crs, n).Some?
    ensures Named(crs, n).Some? ==> HasUid(MappingEdit(v, namespace, crs, n).value.owners, Named(crs, n).value.uid)
  {
    if Named(crs, n).Some? {
      ToggleOnRecords(v.owners, MappingOwner(Named(crs, n).value, namespace), namespace);
    }
  }

  lemma DriverReads(s: State, n: string)
    requires n in s.drivers && n !in s.driverTasks
    ensures var s2 := Next(Next(s, DGet(n)), DGetConfigMap(n));
            s2 == s.(driverTasks := s.driverTasks[n := GotDriver(s.drivers[n])]
                                                 [n := DriverGotConfigMap(s.drivers[n], s.cm)],
                     clock := s.clock + 2)
  {
    WriterSteps(s, DGet(n));
    WriterSteps(Next(s, DGet(n)), DGetConfigMap(n));
    hide Next;
  }

  lemma DriverCommits(s: State, n: string, uid: string)
    requires n in s.driverTasks && s.driverTasks[n] == DriverGotConfigMap(uid, s.cm)
    requires DriverEdit(Base(s.cm), s.namespace, DriverOwner(s, n, uid)).Some?
    ensures StepDriver(s, DPutConfigMap(n)) ==
            s.(driverTasks := s.driverTasks - {n},
               cm := Written(s.cm, s.clock, DriverEdit(Base(s.cm), s.namespace, DriverOwner(s, n, uid)).value))
  {
    hide DriverEdit;
  }

  lemma DriverWrites(s: State, n: string)
    requires n in s.drivers && n !in s.driverTasks
    requires DriverEdit(Base(s.cm), s.namespace, DriverOwner(s, n, s.drivers[n])).Some?
    ensures DriverRound(s, n) ==
            s.(cm := Written(s.cm, s.clock + 2, DriverEdit(Base(s.cm), s.namespace, DriverOwner(s, n, s.drivers[n])).value),
               clock := s.clock + 3)
  {
    hide Next, DriverEdit, StepDriver, Written;
    DriverReads(s, n);
    var s2 := Next(Next(s, DGet(n)), DGetConfigMap(n));
    WriterSteps(s2, DPutConfigMap(n));
    DriverCommits(s2, n, s.drivers[n]);
    InsertThenRemove(s.driverTasks, n, GotDriver(s.drivers[n]));
    InsertThenRemove(s.driverTasks[n := GotDriver(s.drivers[n])], n, DriverGotConfigMap(s.drivers[n], s.cm));
  }

  /** A driver reconcile sees to it that the config map exists and is owned by the
      driver, and leaves both texts alone. */
  lemma DriverRoundMeaning(s: State, n: string)
    requires n in s.drivers && n !in s.driverTasks
    ensures var r := DriverRound(s, n);
            && OnlyConfigMap(s, r) && r.cm.Some?
            && Base(r.cm).config == Base(s.cm).config && Base(r.cm).mapping == Base(s.cm).mapping
            && SameOwnersExcept(Base(s.cm), Base(r.cm), Key(GROUP, "Driver", n))
            && HasUid(Base(r.cm).owners, s.drivers[n])
            && (s.cm.Some? && Base(r.cm) == Base(s.cm) ==> r.cm == s.cm)
  {
    var owner := DriverOwner(s, n, s.drivers[n]);
    ToggleOnRecords(Base(s.cm).owners, owner, s.namespace);
    DriverEditIsOwn(Base(s.cm), s.namespace, owner);
    hide Toggle;
    DriverWrites(s, n);
    hide DriverRound, SameOwnersExcept;
  }
}
