/** Owner references in reachable states: when the API server gives no UID to two
    objects, a recorded UID is always recorded under its owner's own key. */
module OwnerUids {
  import opened Prelude
  import opened OwnerReferences
  import opened ClusterInfo
  import opened MappingAggregation
  import opened ConfigMapWriters
  import opened Protocol
  import opened ProtocolInvariant
  import opened ProtocolRuns
  import opened ProfileRounds
  import opened Quiescence
  import opened SecondPass

  /** The object that each UID was given to. */
  type Naming = string -> Key

  ghost predicate RefsNamed(refs: seq<Ref>, naming: Naming) {
    forall ref :: ref in refs ==> naming(ref.uid) == ref.key
  }

  /** And each object is recorded once, as in a list that the controllers alone have written. */
  ghost predicate OwnersNamed(refs: seq<Ref>, naming: Naming) {
    RefsNamed(refs, naming) && OwnerReferences.UniqueKeys(refs)
  }

  ghost predicate MappingsNamed(crs: seq<MappingCR>, naming: Naming) {
    forall cr :: cr in crs ==> naming(cr.uid) == Key(GROUP, "ClientProfileMapping", cr.name)
  }

  ghost predicate DriverNamed(n: string, uid: string, naming: Naming) {
    naming(uid) == Key(GROUP, "Driver", n)
  }

  /** Events keep to the naming: what is created gets a UID that names it, and users
      write only references that the server could have given out. */
  ghost predicate KeepsNaming(e: Event, naming: Naming) {
    && (e.CreateProfile? ==> naming(e.uid) == ProfileKey(e.p))
    && (e.PutConnection? ==> RefsNamed(e.connection.owners, naming))
    && (e.PutMappings? ==> MappingsNamed(e.crs, naming))
    && (e.PutDrivers? ==> forall n :: n in e.drivers ==> DriverNamed(n, e.drivers[n], naming))
  }

  ghost predicate TaskNamed(p: string, t: ProfileTask, naming: Naming) {
    && naming(t.self.value.uid) == ProfileKey(p)
    && RefsNamed(t.connection.value.owners, naming)
    && OwnersNamed(Base(t.snapshot).owners, naming)
  }

  /** What the client-profile controller reads and writes. */
  ghost predicate ProfilesNamed(s: State, naming: Naming) {
    && OwnersNamed(Base(s.cm).owners, naming)
    && (forall p :: p in s.profiles ==> naming(s.profiles[p].value.uid) == ProfileKey(p))
    && (forall n :: n in s.connections ==> RefsNamed(s.connections[n].value.owners, naming))
    && (forall p :: p in s.profileTasks ==> TaskNamed(p, s.profileTasks[p], naming))
  }

  ghost predicate MappingTaskNamed(t: MappingTask, naming: Naming) {
    && MappingsNamed(t.crs, naming)
    && (t.MappingGotConfigMap? ==> OwnersNamed(Base(t.snapshot).owners, naming))
  }

  ghost predicate DriverTaskNamed(n: string, t: DriverTask, naming: Naming) {
    && DriverNamed(n, t.uid, naming)
    && (t.DriverGotConfigMap? ==> OwnersNamed(Base(t.snapshot).owners, naming))
  }

  /** What the other two writers of the config map read. */
  ghost predicate WritersNamed(s: State, naming: Naming) {
    && MappingsNamed(s.mappings, naming)
    && (forall n :: n in s.drivers ==> DriverNamed(n, s.drivers[n], naming))
    && (forall n :: n in s.mappingTasks ==> MappingTaskNamed(s.mappingTasks[n], naming))
    && (forall n :: n in s.driverTasks ==> DriverTaskNamed(n, s.driverTasks[n], naming))
  }

  ghost predicate AllNamed(s: State, naming: Naming) {
    ProfilesNamed(s, naming) && WritersNamed(s, naming)
  }

  // ------------------------------------------------------------------- lists

  lemma ToggleNamed(on: bool, refs: seq<Ref>, owner: Owner, namespace: string, naming: Naming)
    requires RefsNamed(refs, naming) && naming(owner.uid) == owner.key
    ensures RefsNamed(Toggle(on, refs, owner, namespace).refs, naming)
  {
    ToggleAddsOnlyOwner(on, refs, owner, namespace);
    hide Toggle;
  }

  lemma ToggleOwnersNamed(on: bool, refs: seq<Ref>, owner: Owner, namespace: string, naming: Naming)
    requires OwnersNamed(refs, naming) && naming(owner.uid) == owner.key
    ensures OwnersNamed(Toggle(on, refs, owner, namespace).refs, naming)
  {
    NamedIsWellFormed(refs, owner, naming);
    ToggleNamed(on, refs, owner, namespace, naming);
    ToggleMeaning(on, refs, owner, namespace);
    hide Toggle;
  }

  lemma NamedIsWellFormed(refs: seq<Ref>, owner: Owner, naming: Naming)
    requires OwnersNamed(refs, naming) && naming(owner.uid) == owner.key
    ensures WellFormed(refs) && Identifies(refs, owner)
  {
    forall i, j | 0 <= i < j < |refs| ensures refs[i].uid != refs[j].uid {
      assert refs[i] in refs && refs[j] in refs;
    }
  }

  lemma UpsertNamed(refs: seq<Ref>, ref: Ref, naming: Naming)
    requires RefsNamed(refs, naming) && naming(ref.uid) == ref.key
    ensures RefsNamed(OwnerReferences.Upsert(refs, ref), naming)
  {
  }

  lemma CommitNamed(s: State, snapshot: Option<Stored<ConfigMapValue>>, value: ConfigMapValue, naming: Naming)
    requires OwnersNamed(Base(s.cm).owners, naming) && OwnersNamed(value.owners, naming)
    requires Commit(s, snapshot, value).Some?
    ensures OwnersNamed(Base(Commit(s, snapshot, value).value).owners, naming)
  {
  }

  // --------------------------------------------------- client-profile controller

  lemma SetNamed(s: State, p: string, t: ProfileTask, naming: Naming)
    requires ProfilesNamed(s, naming) && TaskNamed(p, t, naming)
    ensures ProfilesNamed(Set(s, p, t), naming)
  {
    hide OnlyTask, Calm, TaskNamed, RefsNamed, OwnersNamed;
  }

  lemma EndNamed(s: State, p: string, naming: Naming)
    requires ProfilesNamed(s, naming)
    ensures ProfilesNamed(End(s, p), naming)
  {
    hide OnlyTask, TaskNamed, RefsNamed, OwnersNamed;
  }

  lemma ProfileStored(s: State, p: string, stored: Stored<Profile>, naming: Naming)
    requires ProfilesNamed(s, naming) && naming(stored.value.uid) == ProfileKey(p)
    ensures ProfilesNamed(s.(profiles := s.profiles[p := stored]), naming)
    ensures ProfilesNamed(s.(profiles := s.profiles - {p}), naming)
  {
    hide RefsNamed, OwnersNamed, TaskNamed;
  }

  lemma StoreProfileNamed(s: State, p: string, value: Profile, naming: Naming)
    requires ProfilesNamed(s, naming) && p in s.profiles && naming(value.uid) == ProfileKey(p)
    ensures ProfilesNamed(StoreProfile(s, p, value), naming)
  {
    hide ProfilesNamed;
    ProfileStored(s, p, Write(s.profiles[p], value, s.clock), naming);
  }

  lemma HeldIsNamed(s: State, p: string, naming: Naming)
    requires ProfilesNamed(s, naming)
    ensures p in s.profiles ==> naming(s.profiles[p].value.uid) == ProfileKey(p)
    ensures p in s.profileTasks ==> TaskNamed(p, s.profileTasks[p], naming)
  {
    hide TaskNamed, RefsNamed, OwnersNamed;
  }

  lemma StatusNamed(s: State, p: string, naming: Naming)
    requires ProfilesNamed(s, naming)
    ensures ProfilesNamed(Status(s, p), naming)
  {
    hide OnlyTask, Calm, NoNewCleanUp, ProfilesNamed, TaskNamed, End;
    EndNamed(s, p, naming);
    if At(s, p, Finishing) && Current(s.profiles, p, s.profileTasks[p].self.version) {
      HeldIsNamed(s, p, naming);
      var stored := Stored(s.clock, s.profiles[p].value);
      ProfileStored(s, p, stored, naming);
      EndNamed(s.(profiles := s.profiles[p := stored]), p, naming);
    }
  }

  lemma GetNamed(s: State, p: string, naming: Naming)
    requires ProfilesNamed(s, naming)
    ensures ProfilesNamed(Get(s, p), naming)
  {
    hide OnlyTask, Calm, NoNewCleanUp, Set;
    if p !in s.profileTasks && p in s.profiles {
      var self := s.profiles[p];
      SetNamed(s, p, ProfileTask(GotProfile, self, self.value.deleting, NO_CONNECTION, None, None), naming);
    }
  }

  lemma GetConnectionNamed(s: State, p: string, naming: Naming)
    requires ProfilesNamed(s, naming)
    ensures ProfilesNamed(GetConnection(s, p), naming)
  {
    hide OnlyTask, Calm, NoNewCleanUp, PlainMove, Set, End;
    if At(s, p, GotProfile) {
      var t := s.profileTasks[p];
      var name := t.self.value.spec.connection;
      EndNamed(s, p, naming);
      if name in s.connections {
        SetNamed(s, p, t.(stage := GotConnection, connection := s.connections[name]), naming);
      }
    }
  }

  lemma WriteConnectionNamed(s: State, t: ProfileTask, owners: seq<Ref>, naming: Naming)
    requires RefsNamed(owners, naming)
    ensures var w := WriteConnection(s, t, owners); w.Some? ==> RefsNamed(w.value.value.owners, naming)
  {
    hide RefsNamed, OwnersNamed;
  }

  lemma WithConnectionNamed(s: State, p: string, t: ProfileTask, stored: Stored<Connection>, naming: Naming)
    requires ProfilesNamed(s, naming) && TaskNamed(p, t, naming) && RefsNamed(stored.value.owners, naming)
    ensures ProfilesNamed(WithConnection(s, p, t, stored), naming)
  {
    hide OnlyTask, Calm, RefsNamed, OwnersNamed;
  }

  lemma OwnConnectionNamed(s: State, p: string, naming: Naming)
    requires ProfilesNamed(s, naming)
    ensures ProfilesNamed(OwnConnection(s, p), naming)
  {
    hide OnlyTask, Calm, NoNewCleanUp, PlainMove, Set, End, WithConnection, WriteConnection, RefsNamed, OwnersNamed,
         OwnerReferences.Upsert;
    if At(s, p, GotConnection) {
      var t := s.profileTasks[p];
      assert TaskNamed(p, t, naming);
      var owner := ProfileOwner(s, p, t.self.value.uid);
      var owners := OwnerReferences.Upsert(t.connection.value.owners, Ref(owner.key, owner.uid));
      UpsertNamed(t.connection.value.owners, Ref(owner.key, owner.uid), naming);
      EndNamed(s, p, naming);
      SetNamed(s, p, t.(stage := OwnedConnection), naming);
      WriteConnectionNamed(s, t, owners, naming);
      var w := WriteConnection(s, t, owners);
      if w.Some? {
        WithConnectionNamed(s, p, t.(stage := OwnedConnection), w.value, naming);
      }
    }
  }

  lemma ListNamed(s: State, p: string, naming: Naming)
    requires ProfilesNamed(s, naming)
    ensures ProfilesNamed(List(s, p), naming)
  {
    hide OnlyTask, Calm, NoNewCleanUp, PlainMove, Set, End, RefsNamed, OwnersNamed;
    if At(s, p, OwnedConnection) {
      EndNamed(s, p, naming);
      SetNamed(s, p, s.profileTasks[p].(stage := Listed, replication := ReadyReplication(s, p)), naming);
    }
  }

  lemma FinalizeNamed(s: State, p: string, naming: Naming)
    requires ProfilesNamed(s, naming)
    ensures ProfilesNamed(Finalize(s, p), naming)
  {
    hide OnlyTask, Calm, NoNewCleanUp, FinalizeTask, RefsNamed, OwnersNamed, Set;
    if At(s, p, Listed) {
      var t := s.profileTasks[p];
      assert TaskNamed(p, t, naming);
      SetNamed(s, p, t.(stage := Finalized), naming);
      SetNamed(s, p, t.(stage := Finishing), naming);
      var stored := Write(t.self, t.self.value.(cleanup := true), s.clock);
      var s' := s.(profiles := s.profiles[p := stored]);
      ProfileStored(s, p, stored, naming);
      SetNamed(s', p, t.(stage := Finalized, self := stored), naming);
    }
  }

  lemma AfterToggleNamed(s: State, p: string, t: ProfileTask, o: Outcome, owners: seq<Ref>, stage: Stage,
                         naming: Naming)
    requires ProfilesNamed(s, naming) && p in s.profileTasks && t == s.profileTasks[p] && RefsNamed(owners, naming)
    requires (t.stage == Finalized && stage == ToggledConnection) ||
             (t.stage == ToggledConnection && stage == ToggledReplication)
    ensures ProfilesNamed(AfterToggle(s, p, t, o, owners, stage), naming)
  {
    hide OnlyTask, Calm, NoNewCleanUp, PlainMove, Set, WithConnection, WriteConnection, RefsNamed, OwnersNamed;
    assert TaskNamed(p, t, naming);
    SetNamed(s, p, t.(stage := stage), naming);
    SetNamed(s, p, t.(stage := Finishing), naming);
    WriteConnectionNamed(s, t, owners, naming);
    var w := WriteConnection(s, t, owners);
    if w.Some? {
      WithConnectionNamed(s, p, t.(stage := stage), w.value, naming);
    }
  }

  lemma ToggleConnectionNamed(s: State, p: string, naming: Naming)
    requires ProfilesNamed(s, naming)
    ensures ProfilesNamed(ToggleConnection(s, p), naming)
  {
    hide OnlyTask, Calm, NoNewCleanUp, PlainMove, AfterToggle, Toggle, RefsNamed, OwnersNamed;
    if At(s, p, Finalized) {
      var t := s.profileTasks[p];
      assert TaskNamed(p, t, naming);
      var owner := ProfileOwner(s, p, t.self.value.uid);
      var o := Toggle(!t.cleanUp, t.connection.value.owners, owner, s.namespace);
      ToggleNamed(!t.cleanUp, t.connection.value.owners, owner, s.namespace, naming);
      AfterToggleNamed(s, p, t, o, o.refs, ToggledConnection, naming);
    }
  }

  lemma ToggleReplicationNamed(s: State, p: string, naming: Naming)
    requires ProfilesNamed(s, naming)
    ensures ProfilesNamed(ToggleReplication(s, p), naming)
  {
    hide OnlyTask, Calm, NoNewCleanUp, PlainMove, AfterToggle, Toggle, RefsNamed, OwnersNamed, Set;
    if At(s, p, ToggledConnection) {
      var t := s.profileTasks[p];
      assert TaskNamed(p, t, naming);
      SetNamed(s, p, t.(stage := ToggledReplication), naming);
      if t.replication.Some? {
        var o := Toggle(!t.cleanUp, t.replication.value.owners, ProfileOwner(s, p, t.self.value.uid), s.namespace);
        AfterToggleNamed(s, p, t, o, t.connection.value.owners, ToggledReplication, naming);
      }
    }
  }

  lemma CheckNamed(s: State, p: string, naming: Naming)
    requires ProfilesNamed(s, naming)
    ensures ProfilesNamed(Check(s, p), naming) && ProfilesNamed(GetConfigMap(s, p), naming)
  {
    hide OnlyTask, Calm, NoNewCleanUp, PlainMove, RefsNamed, OwnersNamed, Set, Referenced;
    if p in s.profileTasks {
      var t := s.profileTasks[p];
      assert TaskNamed(p, t, naming);
      SetNamed(s, p, t.(stage := Finishing), naming);
      SetNamed(s, p, t.(stage := Checked), naming);
      SetNamed(s, p, t.(stage := GotConfigMap, snapshot := s.cm), naming);
    }
  }

  lemma ProfileEditNamed(v: ConfigMapValue, namespace: string, cleanUp: bool, owner: Owner, record: Record,
                         naming: Naming)
    requires OwnersNamed(v.owners, naming) && naming(owner.uid) == owner.key
    ensures var edited := ProfileEdit(v, namespace, cleanUp, owner, record);
            edited.Some? ==> OwnersNamed(edited.value.owners, naming)
  {
    hide Toggle, RefsNamed, OwnersNamed, SwapDelete, ClusterInfo.Upsert;
    ToggleOwnersNamed(!cleanUp, v.owners, owner, namespace, naming);
  }

  lemma CommitKeepsProfilesNamed(s: State, snapshot: Option<Stored<ConfigMapValue>>, value: ConfigMapValue,
                                 naming: Naming)
    requires ProfilesNamed(s, naming) && OwnersNamed(value.owners, naming) && Commit(s, snapshot, value).Some?
    ensures ProfilesNamed(s.(cm := Commit(s, snapshot, value).value), naming)
  {
    hide TaskNamed, RefsNamed, OwnersNamed, Commit;
    CommitNamed(s, snapshot, value, naming);
  }

  lemma PutConfigMapNamed(s: State, p: string, record: Record, naming: Naming)
    requires ProfilesNamed(s, naming)
    ensures ProfilesNamed(PutConfigMap(s, p, record), naming)
  {
    hide OnlyTask, Calm, NoNewCleanUp, Set, Commit, ProfileEdit, ProfilesNamed, RefsNamed, OwnersNamed, IsRecordOf;
    if At(s, p, GotConfigMap) {
      var t := s.profileTasks[p];
      HeldIsNamed(s, p, naming);
      var owner := ProfileOwner(s, p, t.self.value.uid);
      ProfileEditNamed(Base(t.snapshot), s.namespace, t.cleanUp, owner, record, naming);
      SetNamed(s, p, t.(stage := Finishing), naming);
      var edited := ProfileEdit(Base(t.snapshot), s.namespace, t.cleanUp, owner, record);
      if edited.Some? && Commit(s, t.snapshot, edited.value).Some? {
        CommitKeepsProfilesNamed(s, t.snapshot, edited.value, naming);
        SetNamed(s.(cm := Commit(s, t.snapshot, edited.value).value), p, t.(stage := WroteConfigMap), naming);
      }
    }
  }

  lemma UnfinalizeNamed(s: State, p: string, naming: Naming)
    requires ProfilesNamed(s, naming)
    ensures ProfilesNamed(Unfinalize(s, p), naming)
  {
    hide OnlyTask, NoNewCleanUp, UnfinalizeTask, ProfilesEvolve, ProfilesNamed, RefsNamed, OwnersNamed, Set, StoreProfile;
    if At(s, p, WroteConfigMap) {
      var t := s.profileTasks[p];
      HeldIsNamed(s, p, naming);
      SetNamed(s, p, t.(stage := Finishing), naming);
      if Current(s.profiles, p, t.self.version) {
        var value := t.self.value.(cleanup := false);
        var s' := StoreProfile(s, p, value);
        StoreProfileNamed(s, p, value, naming);
        HeldIsNamed(s', p, naming);
        SetNamed(s', p, t.(stage := Finishing, self := if p in s'.profiles then s'.profiles[p] else t.self), naming);
      }
    }
  }

  lemma StepProfileNamed(s: State, e: Event, naming: Naming)
    requires ProfilesNamed(s, naming) && OfProfile(e)
    ensures ProfilesNamed(StepProfile(s, e), naming)
  {
    hide ProfilesNamed, OnlyTask, Calm, NoNewCleanUp, PlainMove, FinalizeTask, UnfinalizeTask, ProfilesEvolve,
         FinalizersStay, Get, GetConnection, OwnConnection, List, Finalize, ToggleConnection, ToggleReplication,
         Check, GetConfigMap, PutConfigMap, Unfinalize, Status;
    GetNamed(s, e.p, naming);
    GetConnectionNamed(s, e.p, naming);
    OwnConnectionNamed(s, e.p, naming);
    ListNamed(s, e.p, naming);
    FinalizeNamed(s, e.p, naming);
    ToggleConnectionNamed(s, e.p, naming);
    ToggleReplicationNamed(s, e.p, naming);
    CheckNamed(s, e.p, naming);
    UnfinalizeNamed(s, e.p, naming);
    StatusNamed(s, e.p, naming);
    if e.PPutConfigMap? {
      PutConfigMapNamed(s, e.p, e.record, naming);
    }
  }

  lemma ProfileStepNamed(s: State, e: Event, naming: Naming)
    requires AllNamed(s, naming) && OfProfile(e)
    ensures AllNamed(Step(s, e), naming)
  {
    hide StepProfile, Calm, NoNewCleanUp, ProfilesEvolve, FinalizersStay, OtherTasksStay, MappingsNamed, DriverNamed,
         MappingTaskNamed, DriverTaskNamed, ProfilesNamed;
    StepProfileNamed(s, e, naming);
    assert OnlyTask(s, Step(s, e), e.p);
  }

  // ------------------------------------------------------------ everybody else

  /** What the step leaves alone, and the config map if it was written. */
  lemma OthersNamed(s: State, r: State, naming: Naming)
    requires ProfilesNamed(s, naming) && OwnersNamed(Base(r.cm).owners, naming)
    requires r.profiles == s.profiles && r.connections == s.connections && r.profileTasks == s.profileTasks
    ensures ProfilesNamed(r, naming)
  {
    hide TaskNamed, RefsNamed, OwnersNamed;
  }

  lemma MappingStepNamed(s: State, e: Event, naming: Naming)
    requires AllNamed(s, naming) && OfMapping(e)
    ensures AllNamed(StepMapping(s, e), naming)
  {
    hide Commit, MappingEdit, RefsNamed, OwnersNamed, TaskNamed, MappingsNamed, DriverTaskNamed, DriverNamed, ProfilesEvolve,
         StepMapping;
    MappingWritersNamed(s, e, naming);
    MappingWriteNamed(s, e, naming);
    OthersNamed(s, StepMapping(s, e), naming);
  }

  lemma MappingWritersNamed(s: State, e: Event, naming: Naming)
    requires AllNamed(s, naming) && OfMapping(e)
    ensures WritersNamed(StepMapping(s, e), naming) && StepMapping(s, e).connections == s.connections
  {
    hide Commit, MappingEdit, RefsNamed, OwnersNamed, TaskNamed, MappingsNamed, DriverTaskNamed, DriverNamed;
  }

  lemma MappingWriteNamed(s: State, e: Event, naming: Naming)
    requires AllNamed(s, naming) && OfMapping(e)
    ensures OwnersNamed(Base(StepMapping(s, e).cm).owners, naming)
  {
    hide Commit, MappingEdit, RefsNamed, OwnersNamed, TaskNamed, MappingsNamed, DriverTaskNamed, DriverNamed, SameProfileTasks;
    if e.MPutConfigMap? && e.n in s.mappingTasks && s.mappingTasks[e.n].MappingGotConfigMap? {
      var t := s.mappingTasks[e.n];
      assert MappingTaskNamed(t, naming);
      MappingEditNamed(Base(t.snapshot), s.namespace, t.crs, e.n, naming);
      var edited := MappingEdit(Base(t.snapshot), s.namespace, t.crs, e.n);
      if edited.Some? && Commit(s, t.snapshot, edited.value).Some? {
        CommitNamed(s, t.snapshot, edited.value, naming);
      }
    }
  }

  lemma MappingEditNamed(v: ConfigMapValue, namespace: string, crs: seq<MappingCR>, name: string, naming: Naming)
    requires OwnersNamed(v.owners, naming) && MappingsNamed(crs, naming)
    ensures var edited := MappingEdit(v, namespace, crs, name);
            edited.Some? ==> OwnersNamed(edited.value.owners, naming)
  {
    hide Toggle, RefsNamed, OwnersNamed;
    var cr := Named(crs, name);
    if cr.Some? {
      ToggleOwnersNamed(true, v.owners, MappingOwner(cr.value, namespace), namespace, naming);
    }
  }

  lemma DriverStepNamed(s: State, e: Event, naming: Naming)
    requires AllNamed(s, naming) && OfDriver(e)
    ensures AllNamed(StepDriver(s, e), naming)
  {
    hide Commit, RefsNamed, OwnersNamed, TaskNamed, MappingsNamed, MappingTaskNamed, DriverNamed, StepDriver;
    DriverWritersNamed(s, e, naming);
    DriverWriteNamed(s, e, naming);
    OthersNamed(s, StepDriver(s, e), naming);
  }

  lemma DriverWritersNamed(s: State, e: Event, naming: Naming)
    requires AllNamed(s, naming) && OfDriver(e)
    ensures WritersNamed(StepDriver(s, e), naming) && StepDriver(s, e).connections == s.connections
  {
    hide Commit, DriverEdit, RefsNamed, OwnersNamed, TaskNamed, MappingsNamed, MappingTaskNamed, DriverNamed;
  }

  lemma DriverWriteNamed(s: State, e: Event, naming: Naming)
    requires AllNamed(s, naming) && OfDriver(e)
    ensures OwnersNamed(Base(StepDriver(s, e).cm).owners, naming)
  {
    hide Commit, Toggle, RefsNamed, OwnersNamed, TaskNamed, MappingsNamed, MappingTaskNamed, SameProfileTasks;
    if e.DPutConfigMap? && e.n in s.driverTasks && s.driverTasks[e.n].DriverGotConfigMap? {
      var t := s.driverTasks[e.n];
      assert DriverTaskNamed(e.n, t, naming);
      var owner := DriverOwner(s, e.n, t.uid);
      ToggleOwnersNamed(true, Base(t.snapshot).owners, owner, s.namespace, naming);
      var edited := DriverEdit(Base(t.snapshot), s.namespace, owner);
      if edited.Some? && Commit(s, t.snapshot, edited.value).Some? {
        CommitNamed(s, t.snapshot, edited.value, naming);
      }
    }
  }

  lemma ConnectionStored(s: State, name: string, stored: Stored<Connection>, naming: Naming)
    requires ProfilesNamed(s, naming) && RefsNamed(stored.value.owners, naming)
    ensures ProfilesNamed(s.(connections := s.connections[name := stored]), naming)
    ensures ProfilesNamed(s.(connections := s.connections - {name}), naming)
  {
    hide RefsNamed, OwnersNamed, TaskNamed;
  }

  lemma EnvironmentProfilesNamed(s: State, e: Event, naming: Naming)
    requires ProfilesNamed(s, naming) && KeepsNaming(e, naming)
    requires e.CreateProfile? || e.EditProfile? || e.DeleteProfile?
    ensures ProfilesNamed(StepEnvironment(s, e), naming)
  {
    hide ProfilesNamed, RefsNamed, OwnersNamed, StoreProfile, ProfilesEvolve, FinalizersStay;
    if e.CreateProfile? {
      ProfileStored(s, e.p, Stored(s.clock, Profile(e.uid, false, false, e.foreign, e.spec)), naming);
    } else if e.p in s.profiles {
      var held := s.profiles[e.p].value;
      HeldIsNamed(s, e.p, naming);
      if e.EditProfile? {
        StoreProfileNamed(s, e.p, held.(foreign := e.foreign, spec := e.spec), naming);
      } else {
        StoreProfileNamed(s, e.p, held.(deleting := true), naming);
      }
    }
  }

  lemma OtherEnvironmentNamed(s: State, e: Event, naming: Naming)
    requires ProfilesNamed(s, naming) && KeepsNaming(e, naming)
    requires !e.CreateProfile? && !e.EditProfile? && !e.DeleteProfile?
    ensures ProfilesNamed(StepEnvironment(s, e), naming)
  {
    hide RefsNamed, OwnersNamed, TaskNamed, ProfilesEvolve, FinalizersStay, StoreProfile;
    if e.PutConnection? {
      ConnectionStored(s, e.name, Stored(s.clock, e.connection), naming);
    } else if e.DropConfigMap? {
      NothingNamed(naming);
    }
  }

  lemma NothingNamed(naming: Naming)
    ensures OwnersNamed(EMPTY_CONFIG_MAP.owners, naming)
  {
  }

  lemma EnvironmentWritersNamed(s: State, e: Event, naming: Naming)
    requires WritersNamed(s, naming) && KeepsNaming(e, naming)
    ensures WritersNamed(StepEnvironment(s, e), naming)
  {
    hide RefsNamed, OwnersNamed, MappingsNamed, MappingTaskNamed, DriverNamed, DriverTaskNamed, FinalizersStay, ProfilesEvolve,
         StepEnvironment;
  }

  lemma EnvironmentStepNamed(s: State, e: Event, naming: Naming)
    requires AllNamed(s, naming) && KeepsNaming(e, naming)
    ensures AllNamed(StepEnvironment(s, e), naming)
  {
    hide StepEnvironment, ProfilesNamed, WritersNamed, KeepsNaming, FinalizersStay, ProfilesEvolve;
    EnvironmentWritersNamed(s, e, naming);
    if e.CreateProfile? || e.EditProfile? || e.DeleteProfile? {
      EnvironmentProfilesNamed(s, e, naming);
    } else {
      OtherEnvironmentNamed(s, e, naming);
    }
  }

  lemma ReplicationStepNamed(s: State, e: Event, naming: Naming)
    requires AllNamed(s, naming)
    ensures AllNamed(StepReplication(s, e), naming)
  {
    hide RefsNamed, OwnersNamed, TaskNamed, MappingsNamed, MappingTaskNamed, DriverNamed, DriverTaskNamed, FinalizersStay,
         ProfilesEvolve, StepReplication;
    OthersNamed(s, StepReplication(s, e), naming);
  }

  lemma TickNamed(s: State, n: nat, naming: Naming)
    requires AllNamed(s, naming)
    ensures AllNamed(s.(clock := n), naming)
  {
  }

  lemma StepNamed(s: State, e: Event, naming: Naming)
    requires AllNamed(s, naming) && KeepsNaming(e, naming)
    ensures AllNamed(Next(s, e), naming)
  {
    hide AllNamed, StepProfile, StepReplication, StepMapping, StepDriver, StepEnvironment, OtherTasksStay,
         FinalizersStay, ProfilesEvolve, Calm;
    if OfProfile(e) {
      ProfileStepNamed(s, e, naming);
    } else if OfReplication(e) {
      ReplicationStepNamed(s, e, naming);
    } else if OfMapping(e) {
      MappingStepNamed(s, e, naming);
    } else if OfDriver(e) {
      DriverStepNamed(s, e, naming);
    } else {
      EnvironmentStepNamed(s, e, naming);
    }
    TickNamed(Step(s, e), s.clock + 1, naming);
  }

  lemma {:induction false} RunNamed(s: State, events: seq<Event>, naming: Naming)
    requires AllNamed(s, naming) && forall i :: 0 <= i < |events| ==> KeepsNaming(events[i], naming)
    ensures AllNamed(After(s, events), naming)
  {
    hide AllNamed, Next, KeepsNaming;
    if events != [] {
      RunNamed(s, events[..|events| - 1], naming);
      StepNamed(After(s, events[..|events| - 1]), events[|events| - 1], naming);
    }
  }

  // ---------------------------------------------------------------- consequences

  lemma NamedIdentifies(refs: seq<Ref>, owner: Owner, naming: Naming)
    requires RefsNamed(refs, naming) && naming(owner.uid) == owner.key
    ensures Identifies(refs, owner) && Removable(refs, owner)
  {
  }

  /** When no UID is given out twice, every UID among the owners of the config map or
      of a connection belongs to the object it stands beside, after any events. So the
      owner reference of a profile can be found and removed. */
  lemma OwnersAreIdentified(namespace: string, events: seq<Event>, naming: Naming, p: string)
    requires forall i :: 0 <= i < |events| ==> KeepsNaming(events[i], naming)
    requires p in After(Initial(namespace), events).profiles
    ensures var s := After(Initial(namespace), events);
            && Identifies(Base(s.cm).owners, OwnerOf(s, p)) && Removable(Base(s.cm).owners, OwnerOf(s, p))
            && (forall n :: n in s.connections ==> Removable(s.connections[n].value.owners, OwnerOf(s, p)))
  {
    hide Next, Identifies, Removable, RefsNamed, OwnerReferences.UniqueKeys, TaskNamed, WritersNamed;
    var s := After(Initial(namespace), events);
    InitialNamed(namespace, naming);
    RunNamed(Initial(namespace), events, naming);
    NamedIdentifies(Base(s.cm).owners, OwnerOf(s, p), naming);
    forall n | n in s.connections ensures Removable(s.connections[n].value.owners, OwnerOf(s, p)) {
      NamedIdentifies(s.connections[n].value.owners, OwnerOf(s, p), naming);
    }
  }

  lemma NamedAreIdentified(s: State, naming: Naming, names: set<string>)
    requires OwnersNamed(Base(s.cm).owners, naming)
    requires forall p :: p in names ==> Live(s, p) && naming(OwnerOf(s, p).uid) == ProfileKey(p)
    ensures Identified(s, names)
  {
    hide RefsNamed, OwnerReferences.UniqueKeys, Identifies, Removable, MultipleReady, Referenced;
    forall p | p in names ensures Identifies(Base(s.cm).owners, OwnerOf(s, p)) {
      NamedIdentifies(Base(s.cm).owners, OwnerOf(s, p), naming);
    }
    forall p, q | p in names && q in names && p != q ensures OwnerOf(s, p).uid != OwnerOf(s, q).uid {
      assert ProfileKey(p).name == p && ProfileKey(q).name == q;
    }
  }

  lemma OwnUid(s: State, naming: Naming, p: string)
    requires AllNamed(s, naming) && Live(s, p)
    ensures p in s.profiles && naming(OwnerOf(s, p).uid) == ProfileKey(p)
  {
    hide RefsNamed, OwnerReferences.UniqueKeys, TaskNamed, WritersNamed, Removable, MultipleReady, Referenced;
  }

  /** And what the second pass asks for: profiles that are not being deleted have
      UIDs of their own, recorded for nobody else. */
  lemma ProfilesAreIdentified(namespace: string, events: seq<Event>, naming: Naming, names: set<string>)
    requires forall i :: 0 <= i < |events| ==> KeepsNaming(events[i], naming)
    requires forall p :: p in names ==> Live(After(Initial(namespace), events), p)
    ensures Identified(After(Initial(namespace), events), names)
  {
    hide After, Next, Live, Identified, KeepsNaming, RefsNamed, OwnerReferences.UniqueKeys, TaskNamed, WritersNamed;
    var s := After(Initial(namespace), events);
    InitialNamed(namespace, naming);
    RunNamed(Initial(namespace), events, naming);
    forall p | p in names ensures p in s.profiles && naming(OwnerOf(s, p).uid) == ProfileKey(p) {
      OwnUid(s, naming, p);
    }
    NamedAreIdentified(s, naming, names);
  }

  lemma StartsInOrder(namespace: string)
    ensures Inv(Initial(namespace))
  {
  }

  lemma InitialNamed(namespace: string, naming: Naming)
    ensures AllNamed(Initial(namespace), naming)
  {
  }

  /** Nothing in the way of a clean-up of p but what a user can see: its connection
      exists, the config map parses, no replication refers to p. */
  ghost predicate ReadyToGo(s: State, p: string) {
    && p in s.profiles && p !in s.profileTasks && s.profiles[p].value.deleting
    && s.profiles[p].value.spec.connection != "" && s.profiles[p].value.spec.connection in s.connections
    && !Base(s.cm).config.Foreign? && !Referenced(s, p)
  }

  lemma ReadyIsReferenced(s: State, p: string)
    ensures MultipleReady(s, p) ==> Referenced(s, p)
  {
    if MultipleReady(s, p) {
      var c, d :| c != d && ReadyFor(s, c, p) && ReadyFor(s, d, p);
      assert References(s, c, p);
    }
  }

  lemma ReadyIsUnblocked(s: State, p: string)
    requires ReadyToGo(s, p)
    requires Removable(Base(s.cm).owners, OwnerOf(s, p))
    requires forall n :: n in s.connections ==> Removable(s.connections[n].value.owners, OwnerOf(s, p))
    ensures Unblocked(s, p)
  {
    hide Removable, MultipleReady, Referenced;
    ReadyIsReferenced(s, p);
  }

  /** After any events in which UIDs are unique, an undisturbed reconcile of a deleted
      profile that nothing refers to removes its record and its finalizer. */
  lemma DeletionCompletesInRuns(namespace: string, events: seq<Event>, naming: Naming, p: string, record: Record)
    requires forall i :: 0 <= i < |events| ==> KeepsNaming(events[i], naming)
    requires ReadyToGo(After(Initial(namespace), events), p)
    ensures var s := After(Initial(namespace), events);
            var r := Round(s, p, record);
            && !HoldsFinalizer(r, p) && (p in r.profiles <==> s.profiles[p].value.foreign)
            && (forall id :: Lookup(ListOf(r), id) == if id == p then None else Lookup(ListOf(s), id))
            && !HasUid(Base(r.cm).owners, s.profiles[p].value.uid)
            && (forall ref :: ref in Base(r.cm).owners <==> ref in Base(s.cm).owners && ref.uid != s.profiles[p].value.uid)
  {
    hide After, Next, Round, Lookup, HasUid, Removable, Identifies, Unblocked, TasksOk, AllNamed, KeepsNaming;
    var s := After(Initial(namespace), events);
    StartsInOrder(namespace);
    InvHolds(Initial(namespace), events);
    OwnersAreIdentified(namespace, events, naming, p);
    InitialNamed(namespace, naming);
    RunNamed(Initial(namespace), events, naming);
    ReadyIsUnblocked(s, p);
    DeletionCompletes(s, p, record);
    DeletionDisowns(s, p, record, naming);
  }

  /** The owner reference of a deleted profile goes, and no other. */
  lemma ToggledOff(refs: seq<Ref>, owner: Owner, namespace: string)
    requires WellFormed(refs) && Identifies(refs, owner)
    ensures var r := Toggle(false, refs, owner, namespace).refs;
            !HasUid(r, owner.uid) && forall ref :: ref in r <==> ref in refs && ref.uid != owner.uid
  {
    ToggleMeaning(false, refs, owner, namespace);
    ToggleKeepsOthers(false, refs, owner, namespace);
    ToggleAddsOnlyOwner(false, refs, owner, namespace);
    var r := Toggle(false, refs, owner, namespace).refs;
    if HasUid(refs, owner.uid) {
      hide Toggle;
      forall ref | ref in refs && ref.uid != owner.uid ensures ref in r {
        if ref.key == owner.key {
          NoOtherRefOfKey(refs, owner, ref);
        } else {
          assert ref in Others(refs, owner.key);
          assert ref in Others(r, owner.key);
        }
      }
    }
  }

  lemma DeletionDisowns(s: State, p: string, record: Record, naming: Naming)
    requires Unblocked(s, p) && s.profiles[p].value.deleting && AllNamed(s, naming)
    ensures var owners := Base(Round(s, p, record).cm).owners;
            && !HasUid(owners, s.profiles[p].value.uid)
            && (forall ref :: ref in owners <==> ref in Base(s.cm).owners && ref.uid != s.profiles[p].value.uid)
  {
    hide Round, WritersNamed, TaskNamed, Removable, MultipleReady, Referenced, Toggle, SwapDelete, HasUid;
    RoundMeaning(s, p, record);
    assert Base(Round(s, p, record).cm) == Edited(s, p, record);
    NamedIsWellFormed(Base(s.cm).owners, OwnerOf(s, p), naming);
    ToggledOff(Base(s.cm).owners, OwnerOf(s, p), s.namespace);
  }
}
