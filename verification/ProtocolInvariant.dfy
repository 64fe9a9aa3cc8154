/** What every reachable state of the machine satisfies. */
module ProtocolInvariant {
  import opened Prelude
  import opened OwnerReferences
  import opened ClusterInfo
  import opened MappingAggregation
  import opened ConfigMapWriters
  import opened Protocol

  ghost function ListOf(s: State): seq<Record> {
    Records(Base(s.cm).config)
  }

  ghost predicate VersionsBelowClock(s: State) {
    && (s.cm.Some? ==> s.cm.value.version < s.clock)
    && (forall p :: p in s.profiles ==> s.profiles[p].version < s.clock)
  }

  /** One record for each cluster, and each belongs to an existing profile that
      holds the cleanup finalizer. */
  ghost predicate RecordsAreOwned(s: State) {
    && UniqueIds(ListOf(s))
    && (forall i :: 0 <= i < |ListOf(s)| ==> HoldsFinalizer(s, ListOf(s)[i].clusterId))
  }

  /** A snapshot that still has the current version is the current value. */
  ghost predicate SnapshotOk(s: State, snapshot: Option<Stored<ConfigMapValue>>) {
    snapshot.Some? ==>
      && snapshot.value.version < s.clock
      && (s.cm.Some? && s.cm.value.version == snapshot.value.version ==> s.cm == snapshot)
  }

  ghost predicate SelfOk(s: State, p: string, self: Stored<Profile>) {
    self.version < s.clock && (Current(s.profiles, p, self.version) ==> s.profiles[p] == self)
  }

  ghost predicate ProfileTaskOk(s: State, p: string, t: ProfileTask) {
    && SelfOk(s, p, t.self)
    && SnapshotOk(s, t.snapshot)
    && (t.stage != Finishing && t.self.value.cleanup ==> HoldsFinalizer(s, p))
    && (PastFinalize(t.stage) && !t.cleanUp ==> t.self.value.cleanup)
    && (t.stage == GotConfigMap && t.cleanUp && Lookup(Records(Base(t.snapshot).config), p) == None ==>
          Lookup(ListOf(s), p) == None)
    && (t.stage == WroteConfigMap && t.cleanUp ==> Lookup(ListOf(s), p) == None)
  }

  ghost predicate MappingTaskOk(s: State, t: MappingTask) {
    t.MappingGotConfigMap? ==> SnapshotOk(s, t.snapshot)
  }

  ghost predicate DriverTaskOk(s: State, t: DriverTask) {
    t.DriverGotConfigMap? ==> SnapshotOk(s, t.snapshot)
  }

  ghost predicate TasksOk(s: State) {
    && (forall p :: p in s.profileTasks ==> ProfileTaskOk(s, p, s.profileTasks[p]))
    && (forall n :: n in s.mappingTasks ==> MappingTaskOk(s, s.mappingTasks[n]))
    && (forall n :: n in s.driverTasks ==> DriverTaskOk(s, s.driverTasks[n]))
  }

  ghost predicate Inv(s: State) {
    VersionsBelowClock(s) && RecordsAreOwned(s) && TasksOk(s)
  }

  // ------------------------------------------------- commits to the config map

  /** A commit that went through was computed from the current value. */
  lemma CommitIsFresh(s: State, snapshot: Option<Stored<ConfigMapValue>>, value: ConfigMapValue)
    requires SnapshotOk(s, snapshot) && Commit(s, snapshot, value).Some?
    ensures var cm := Commit(s, snapshot, value).value;
            || (cm == s.cm && snapshot.Some? && value == snapshot.value.value)
            || (Base(snapshot) == Base(s.cm) && cm == Some(Stored(s.clock, value)))
  {
  }

  ghost function ProfileKey(p: string): Key {
    Key(GROUP, "ClientProfile", p)
  }

  /** A commit of the reconcile of p: its own record and its own owner reference. */
  ghost predicate CommittedByProfile(s: State, s': State, p: string, record: Option<Record>) {
    && s'.cm.Some? && s'.cm.value.version == s.clock
    && Base(s'.cm).mapping == Base(s.cm).mapping
    && SameOwnersExcept(Base(s.cm), Base(s'.cm), ProfileKey(p))
    && UniqueIds(ListOf(s'))
    && (forall id :: Lookup(ListOf(s'), id) == if id == p then record else Lookup(ListOf(s), id))
  }

  lemma ProfilePut(s: State, p: string, record: Record)
    requires Inv(s)
    ensures var s' := Next(s, PPutConfigMap(p, record));
            || s'.cm == s.cm
            || (&& At(s, p, GotConfigMap)
                && var t := s.profileTasks[p];
                && (!t.cleanUp ==> IsRecordOf(record, InputsOf(p, t)))
                && CommittedByProfile(s, s', p, if t.cleanUp then None else Some(record)))
  {
    hide Next, PutConfigMap, IsRecordOf, Inv, CommittedByProfile;
    ProfileSteps(s, PPutConfigMap(p, record));
    if PutConfigMap(s, p, record).cm != s.cm {
      PutIsOwn(s, p, record);
      SameCommit(s, PutConfigMap(s, p, record), Next(s, PPutConfigMap(p, record)), p);
    }
  }

  /** The clock does not matter to what was committed. */
  lemma SameCommit(s: State, r: State, s': State, p: string)
    requires s'.cm == r.cm
    ensures forall record :: CommittedByProfile(s, s', p, record) <==> CommittedByProfile(s, r, p, record)
  {
    hide SameOwnersExcept, UniqueIds, Lookup;
  }

  lemma PutIsOwn(s: State, p: string, record: Record)
    requires Inv(s) && PutConfigMap(s, p, record).cm != s.cm
    ensures At(s, p, GotConfigMap)
    ensures !s.profileTasks[p].cleanUp ==> IsRecordOf(record, InputsOf(p, s.profileTasks[p]))
    ensures CommittedByProfile(s, PutConfigMap(s, p, record), p, if s.profileTasks[p].cleanUp then None else Some(record))
  {
    PutCommits(s, p, record);
    hide PutConfigMap, Commit, ProfileEdit;
    var t := s.profileTasks[p];
    var owner := ProfileOwner(s, p, t.self.value.uid);
    assert ProfileTaskOk(s, p, t);
    CommitIsFresh(s, t.snapshot, ProfileEdit(Base(t.snapshot), s.namespace, t.cleanUp, owner, record).value);
    ProfileEditIsOwn(Base(s.cm), s.namespace, t.cleanUp, owner, record);
  }

  lemma PutCommits(s: State, p: string, record: Record)
    requires PutConfigMap(s, p, record).cm != s.cm
    ensures At(s, p, GotConfigMap)
    ensures var t := s.profileTasks[p];
            var edited := ProfileEdit(Base(t.snapshot), s.namespace, t.cleanUp, ProfileOwner(s, p, t.self.value.uid), record);
            && (!t.cleanUp ==> IsRecordOf(record, InputsOf(p, t)))
            && edited.Some?
            && Commit(s, t.snapshot, edited.value) == Some(PutConfigMap(s, p, record).cm)
  {
    hide Commit, ProfileEdit, IsRecordOf;
  }

  /** A commit of the mapping controller: the mapping text, rebuilt from the listed
      resources, and the owner reference of the requested one. */
  lemma MappingPut(s: State, n: string)
    requires Inv(s)
    ensures var s' := Next(s, MPutConfigMap(n));
            || s'.cm == s.cm
            || (&& n in s.mappingTasks && s'.cm.Some? && s'.cm.value.version == s.clock
                && Base(s'.cm).config == Base(s.cm).config
                && Base(s'.cm).mapping == Json(RenderAll(Aggregate(AllMappings(s.mappingTasks[n].crs))))
                && SameOwnersExcept(Base(s.cm), Base(s'.cm), Key(GROUP, "ClientProfileMapping", n)))
  {
    WriterSteps(s, MPutConfigMap(n));
    hide Next;
    var s' := Next(s, MPutConfigMap(n));
    if s'.cm != s.cm {
      var t := s.mappingTasks[n];
      assert MappingTaskOk(s, t);
      CommitIsFresh(s, t.snapshot, MappingEdit(Base(t.snapshot), s.namespace, t.crs, n).value);
      MappingEditIsOwn(Base(s.cm), s.namespace, t.crs, n);
    }
  }

  /** A commit of the driver controller: its owner reference. */
  lemma DriverPut(s: State, n: string)
    requires Inv(s)
    ensures var s' := Next(s, DPutConfigMap(n));
            || s'.cm == s.cm
            || (&& s'.cm.Some? && s'.cm.value.version == s.clock
                && Base(s'.cm).config == Base(s.cm).config
                && Base(s'.cm).mapping == Base(s.cm).mapping
                && SameOwnersExcept(Base(s.cm), Base(s'.cm), Key(GROUP, "Driver", n)))
  {
    WriterSteps(s, DPutConfigMap(n));
    hide Next;
    var s' := Next(s, DPutConfigMap(n));
    if s'.cm != s.cm {
      var t := s.driverTasks[n];
      assert DriverTaskOk(s, t);
      CommitIsFresh(s, t.snapshot, DriverEdit(Base(t.snapshot), s.namespace, DriverOwner(s, n, t.uid)).value);
      DriverEditIsOwn(Base(s.cm), s.namespace, DriverOwner(s, n, t.uid));
    }
  }

  // ------------------------------------------------------------ what one step does

  ghost predicate Evolves(s: State, s': State) {
    && s'.clock == s.clock + 1
    && (s'.cm == s.cm || s'.cm.None? || s'.cm.value.version == s.clock)
    && ProfilesEvolve(s, s')
  }

  lemma StepEvolves(s: State, e: Event)
    requires Inv(s)
    ensures Evolves(s, Next(s, e))
    ensures UniqueIds(ListOf(Next(s, e)))
  {
    hide Step;
    if e.PPutConfigMap? {
      ProfilePut(s, e.p, e.record);
    } else if e.MPutConfigMap? {
      MappingPut(s, e.n);
    } else if e.DPutConfigMap? {
      DriverPut(s, e.n);
    }
  }

  /** A profile's finalizer is taken only by its own removal step; a record appears
      only by its own write. */
  ghost predicate Keeps(s: State, s': State, p: string) {
    && (HoldsFinalizer(s, p) ==> HoldsFinalizer(s', p))
    && (Lookup(ListOf(s), p) == None ==> Lookup(ListOf(s'), p) == None)
  }

  lemma StepKeepsFinalizer(s: State, e: Event, p: string)
    requires Inv(s) && e != PUnfinalize(p) && HoldsFinalizer(s, p)
    ensures HoldsFinalizer(Next(s, e), p)
  {
    hide Step;
  }

  lemma StepKeepsAbsence(s: State, e: Event, p: string)
    requires Inv(s) && !(e.PPutConfigMap? && e.p == p) && Lookup(ListOf(s), p) == None
    ensures Lookup(ListOf(Next(s, e)), p) == None
  {
    hide Step;
    if e.PPutConfigMap? {
      ProfilePut(s, e.p, e.record);
    } else if e.MPutConfigMap? {
      MappingPut(s, e.n);
    } else if e.DPutConfigMap? {
      DriverPut(s, e.n);
    }
  }

  lemma StepKeeps(s: State, e: Event, p: string)
    requires Inv(s)
    requires e != PUnfinalize(p) && !(e.PPutConfigMap? && e.p == p)
    ensures Keeps(s, Next(s, e), p)
  {
    hide Step;
    if HoldsFinalizer(s, p) {
      StepKeepsFinalizer(s, e, p);
    }
    if Lookup(ListOf(s), p) == None {
      StepKeepsAbsence(s, e, p);
    }
  }

  /** A task nobody stepped is still in order. */
  lemma TaskCarries(s: State, s': State, p: string, t: ProfileTask)
    requires ProfileTaskOk(s, p, t) && Evolves(s, s') && Keeps(s, s', p)
    ensures ProfileTaskOk(s', p, t)
  {
  }

  lemma SelfCarries(s: State, s': State, p: string, self: Stored<Profile>)
    requires SelfOk(s, p, self) && Evolves(s, s')
    ensures SelfOk(s', p, self)
  {
  }

  lemma SnapshotCarries(s: State, s': State, snapshot: Option<Stored<ConfigMapValue>>)
    requires SnapshotOk(s, snapshot) && Evolves(s, s')
    ensures SnapshotOk(s', snapshot)
  {
  }

  // --------------------------------------------------- the task that was stepped

  ghost predicate TaskOk(s: State, p: string) {
    p in s.profileTasks ==> ProfileTaskOk(s, p, s.profileTasks[p])
  }

  /** s' is r one tick later. */
  ghost predicate Tick(s: State, r: State, s': State) {
    s' == r.(clock := s.clock + 1)
  }

  /** A plain move asks for nothing new. */
  lemma AfterPlainMove(s: State, s': State, p: string)
    requires TaskOk(s, p) && PlainMove(s, s', p) && Evolves(s, s') && Keeps(s, s', p)
    ensures TaskOk(s', p)
  {
    if p in s'.profileTasks {
      TaskCarries(s, s', p, s.profileTasks[p]);
    }
  }

  lemma AfterGet(s: State, s': State, p: string)
    requires VersionsBelowClock(s) && TaskOk(s, p) && Tick(s, Get(s, p), s') && Evolves(s, s') && Keeps(s, s', p)
    ensures TaskOk(s', p)
  {
    if p in s.profileTasks {
      TaskCarries(s, s', p, s.profileTasks[p]);
    }
  }

  lemma AfterFinalize(s: State, s': State, p: string, u: ProfileTask, t: ProfileTask)
    requires ProfileTaskOk(s, p, u) && FinalizeTask(s', p, u, t, s.clock) && Evolves(s, s') && Keeps(s, s', p)
    ensures ProfileTaskOk(s', p, t)
  {
    TaskCarries(s, s', p, u);
  }

  lemma AfterGetConfigMap(s: State, s': State, p: string)
    requires VersionsBelowClock(s) && TaskOk(s, p) && Tick(s, GetConfigMap(s, p), s') && Evolves(s, s') && Keeps(s, s', p)
    ensures TaskOk(s', p)
  {
    if p in s.profileTasks {
      TaskCarries(s, s', p, s.profileTasks[p]);
    }
  }

  lemma AfterUnfinalize(s: State, s': State, p: string, u: ProfileTask, t: ProfileTask)
    requires VersionsBelowClock(s) && ProfileTaskOk(s, p, u) && Evolves(s, s')
    requires t.stage == Finishing && t.snapshot == u.snapshot
    requires t.self == u.self || (p in s'.profiles && t.self == s'.profiles[p])
    ensures ProfileTaskOk(s', p, t)
  {
    SelfCarries(s, s', p, u.self);
    SnapshotCarries(s, s', u.snapshot);
  }

  lemma AfterStatus(s: State, s': State, p: string)
    requires TaskOk(s, p) && Tick(s, Status(s, p), s') && Evolves(s, s') && Keeps(s, s', p)
    ensures TaskOk(s', p)
  {
    if p in s.profileTasks {
      TaskCarries(s, s', p, s.profileTasks[p]);
    }
  }

  /** Past its config-map write a clean-up task knows that its record is gone, also
      when the write was skipped because nothing changed. */
  lemma PutRemoves(s: State, s': State, p: string, record: Record)
    requires Inv(s) && At(s, p, GotConfigMap) && s.profileTasks[p].cleanUp
    requires s' == Next(s, PPutConfigMap(p, record)) && At(s', p, WroteConfigMap)
    ensures Lookup(ListOf(s'), p) == None
  {
    ProfileSteps(s, PPutConfigMap(p, record));
    hide Next;
    ProfilePut(s, p, record);
    var t := s.profileTasks[p];
    assert ProfileTaskOk(s, p, t);
    if s'.cm == s.cm {
      var v := Base(t.snapshot);
      var owner := ProfileOwner(s, p, t.self.value.uid);
      var edited := ProfileEdit(v, s.namespace, true, owner, record);
      CommitIsFresh(s, t.snapshot, edited.value);
      DeleteNothing(v, s.namespace, owner, record);
    }
  }

  lemma DeleteNothing(v: ConfigMapValue, namespace: string, owner: Owner, record: Record)
    ensures ProfileEdit(v, namespace, true, owner, record) == Some(v) ==>
              Lookup(Records(v.config), owner.key.name) == None
  {
  }

  lemma AfterPut(s: State, s': State, p: string, record: Record)
    requires Inv(s) && s' == Next(s, PPutConfigMap(p, record)) && Evolves(s, s')
    ensures TaskOk(s', p)
  {
    ProfileSteps(s, PPutConfigMap(p, record));
    hide Next;
    if p in s'.profileTasks {
      var u, t := s.profileTasks[p], s'.profileTasks[p];
      assert ProfileTaskOk(s, p, u);
      SelfCarries(s, s', p, u.self);
      SnapshotCarries(s, s', u.snapshot);
      if At(s, p, GotConfigMap) {
        if t.cleanUp && t.stage == WroteConfigMap {
          PutRemoves(s, s', p, record);
        }
      }
    }
  }

  lemma ProfileStepKeepsTask(s: State, e: Event, s': State)
    requires Inv(s) && OfProfile(e) && s' == Next(s, e)
    ensures TaskOk(s', e.p)
  {
    hide Step;
    var p := e.p;
    StepEvolves(s, e);
    if e.PPutConfigMap? {
      AfterPut(s, s', p, e.record);
    } else if e.PUnfinalize? {
      ProfileSteps(s, PUnfinalize(p));
      if p in s'.profileTasks && At(s, p, WroteConfigMap) {
        AfterUnfinalize(s, s', p, s.profileTasks[p], s'.profileTasks[p]);
      } else if p in s'.profileTasks {
        UnfinalizeElsewhere(s, s', p);
      }
    } else {
      StepKeeps(s, e, p);
      OtherProfileSteps(s, e, s');
    }
  }

  lemma UnfinalizeElsewhere(s: State, s': State, p: string)
    requires Inv(s) && s' == Next(s, PUnfinalize(p)) && !At(s, p, WroteConfigMap) && Evolves(s, s')
    ensures TaskOk(s', p)
  {
    ProfileSteps(s, PUnfinalize(p));
    hide Next;
    assert Keeps(s, s', p);
    if p in s.profileTasks {
      TaskCarries(s, s', p, s.profileTasks[p]);
    }
  }

  lemma OtherProfileSteps(s: State, e: Event, s': State)
    requires Inv(s) && OfProfile(e) && !e.PPutConfigMap? && !e.PUnfinalize?
    requires s' == Next(s, e) && Evolves(s, s') && Keeps(s, s', e.p)
    ensures TaskOk(s', e.p)
  {
    var p := e.p;
    if e.PGet? {
      AfterGet(s, s', p);
    } else if e.PFinalize? {
      if p in s'.profileTasks {
        AfterFinalize(s, s', p, s.profileTasks[p], s'.profileTasks[p]);
      }
    } else if e.PGetConfigMap? {
      AfterGetConfigMap(s, s', p);
    } else if e.PStatus? {
      AfterStatus(s, s', p);
    } else {
      assert PlainMove(s, s', p);
      AfterPlainMove(s, s', p);
    }
  }

  /** The other tasks are untouched, or gone, or hold a snapshot just taken. */
  lemma MappingTasksCarry(s: State, e: Event, s': State)
    requires Inv(s) && s' == Next(s, e) && Evolves(s, s')
    ensures forall n :: n in s'.mappingTasks ==> MappingTaskOk(s', s'.mappingTasks[n])
  {
    hide Step, StepMapping, MappingTaskOk;
    if OfMapping(e) {
      WriterSteps(s, e);
    }
    forall n | n in s'.mappingTasks ensures MappingTaskOk(s', s'.mappingTasks[n]) {
      if OfMapping(e) {
        MappingTaskCarries(s, e, s', n);
      } else {
        MappingSnapshotCarries(s, s', s.mappingTasks[n]);
      }
    }
  }

  lemma MappingSnapshotCarries(s: State, s': State, t: MappingTask)
    requires MappingTaskOk(s, t) && Evolves(s, s')
    ensures MappingTaskOk(s', t)
  {
  }

  lemma MappingTaskCarries(s: State, e: Event, s': State, n: string)
    requires Inv(s) && s' == StepMapping(s, e).(clock := s.clock + 1) && Evolves(s, s') && n in s'.mappingTasks
    ensures MappingTaskOk(s', s'.mappingTasks[n])
  {
    hide Commit, MappingEdit, RecordsAreOwned, ProfileTaskOk, DriverTaskOk, ProfilesEvolve;
    assert n in s.mappingTasks ==> MappingTaskOk(s, s.mappingTasks[n]);
  }

  lemma DriverTasksCarry(s: State, e: Event, s': State)
    requires Inv(s) && s' == Next(s, e) && Evolves(s, s')
    ensures forall n :: n in s'.driverTasks ==> DriverTaskOk(s', s'.driverTasks[n])
  {
    hide Step, StepDriver, DriverTaskOk;
    if OfDriver(e) {
      WriterSteps(s, e);
    }
    forall n | n in s'.driverTasks ensures DriverTaskOk(s', s'.driverTasks[n]) {
      if OfDriver(e) {
        DriverTaskCarries(s, e, s', n);
      } else {
        DriverSnapshotCarries(s, s', s.driverTasks[n]);
      }
    }
  }

  lemma DriverSnapshotCarries(s: State, s': State, t: DriverTask)
    requires DriverTaskOk(s, t) && Evolves(s, s')
    ensures DriverTaskOk(s', t)
  {
  }

  lemma DriverTaskCarries(s: State, e: Event, s': State, n: string)
    requires Inv(s) && s' == StepDriver(s, e).(clock := s.clock + 1) && Evolves(s, s') && n in s'.driverTasks
    ensures DriverTaskOk(s', s'.driverTasks[n])
  {
    hide Commit, DriverEdit, RecordsAreOwned, ProfileTaskOk, MappingTaskOk, ProfilesEvolve;
    assert n in s.driverTasks ==> DriverTaskOk(s, s.driverTasks[n]);
  }

  /** A step of something else does not touch the task of q, unless it is a restart. */
  lemma TaskElsewhere(s: State, e: Event, s': State, q: string)
    requires s' == Next(s, e) && !(OfProfile(e) && e.p == q) && q in s'.profileTasks
    ensures q in s.profileTasks && s'.profileTasks[q] == s.profileTasks[q]
  {
    hide Step;
  }

  lemma ProfileTasksCarry(s: State, e: Event, s': State)
    requires Inv(s) && s' == Next(s, e) && Evolves(s, s')
    ensures forall q :: q in s'.profileTasks ==> ProfileTaskOk(s', q, s'.profileTasks[q])
  {
    hide Next, ProfileTaskOk;
    forall q | q in s'.profileTasks ensures ProfileTaskOk(s', q, s'.profileTasks[q]) {
      if OfProfile(e) && e.p == q {
        ProfileStepKeepsTask(s, e, s');
      } else {
        TaskElsewhere(s, e, s', q);
        OtherStepKeeps(s, e, q);
        TaskCarries(s, s', q, s.profileTasks[q]);
      }
    }
  }

  lemma OtherStepKeeps(s: State, e: Event, q: string)
    requires Inv(s) && !(OfProfile(e) && e.p == q)
    ensures Keeps(s, Next(s, e), q)
  {
    hide Next;
    StepKeeps(s, e, q);
  }

  lemma RecordsStayOwned(s: State, e: Event, s': State)
    requires Inv(s) && s' == Next(s, e) && UniqueIds(ListOf(s'))
    ensures RecordsAreOwned(s')
  {
    hide Step;
    forall i | 0 <= i < |ListOf(s')| ensures HoldsFinalizer(s', ListOf(s')[i].clusterId) {
      var id := ListOf(s')[i].clusterId;
      LookupNone(ListOf(s'), id);
      RecordIsOwned(s, e, s', id);
    }
  }

  lemma RecordIsOwned(s: State, e: Event, s': State, id: string)
    requires Inv(s) && s' == Next(s, e) && Lookup(ListOf(s'), id).Some?
    ensures HoldsFinalizer(s', id)
  {
    hide Step;
    if e.PPutConfigMap? && e.p == id {
      ProfilePut(s, id, e.record);
      if s'.cm != s.cm {
        assert ProfileTaskOk(s, id, s.profileTasks[id]);
      } else {
        LookupNone(ListOf(s), id);
      }
      StepKeepsFinalizer(s, e, id);
    } else {
      if Lookup(ListOf(s), id) == None {
        StepKeepsAbsence(s, e, id);
      }
      LookupNone(ListOf(s), id);
      if e == PUnfinalize(id) {
        ProfileSteps(s, PUnfinalize(id));
        assert At(s, id, WroteConfigMap) ==> ProfileTaskOk(s, id, s.profileTasks[id]);
      } else {
        StepKeepsFinalizer(s, e, id);
      }
    }
  }

  lemma StepKeepsInv(s: State, e: Event)
    requires Inv(s)
    ensures Inv(Next(s, e))
  {
    hide Step;
    var s' := Next(s, e);
    StepEvolves(s, e);
    MappingTasksCarry(s, e, s');
    DriverTasksCarry(s, e, s');
    ProfileTasksCarry(s, e, s');
    RecordsStayOwned(s, e, s');
  }
}
