/** A client profile from its creation to its deletion, said in terms of the objects
    themselves: what its reconcile stores, and that its deletion takes it all back. */
module ProfileLife {
  import opened Prelude
  import opened OwnerReferences
  import opened MapText
  import opened ClusterInfo
  import opened Election
  import opened ConfigMapWriters
  import opened Protocol
  import opened ProtocolInvariant
  import opened ProfileRounds
  import opened Quiescence
  import ReadyElection

  // ----------------------------------------------------- the loaded replication

  /** c is a Ready replication whose local profile is p. */
  ghost predicate IsReady(s: State, c: string, p: string) {
    c in s.replications && s.replications[c].value.spec.local == p && s.replications[c].value.phase == Ready
  }

  lemma ReadyForIs(s: State, p: string)
    ensures forall c :: ReadyFor(s, c, p) <==> IsReady(s, c, p)
    ensures MultipleReady(s, p) <==> exists c, d :: c != d && IsReady(s, c, p) && IsReady(s, d, p)
    ensures !MultipleReady(s, p) ==>
              && (forall c :: IsReady(s, c, p) ==> ReadyReplication(s, p) == Some(s.replications[c].value))
              && ((forall c :: !IsReady(s, c, p)) ==> ReadyReplication(s, p) == None)
  {
    assert forall c :: ReadyFor(s, c, p) <==> IsReady(s, c, p);
  }

  /** The listing step stops the reconcile when two replications of p are Ready, and else
      loads the one that is, as it is stored, or none. */
  lemma ListLoads(s: State, p: string)
    requires At(s, p, OwnedConnection)
    ensures var r := Next(s, PList(p));
            && (p !in r.profileTasks <==> exists c, d :: c != d && IsReady(s, c, p) && IsReady(s, d, p))
            && (p in r.profileTasks ==>
                  && (forall c :: IsReady(s, c, p) ==> r.profileTasks[p].replication == Some(s.replications[c].value))
                  && ((forall c :: !IsReady(s, c, p)) ==> r.profileTasks[p].replication == None))
  {
    hide Next, IsReady, MultipleReady, ReadyReplication, OnlyTask, Calm, PlainMove, NoNewCleanUp;
    ProfileSteps(s, PList(p));
    ReadyForIs(s, p);
  }

  // ----------------------------------------------------------- the stored record

  /** The destination of a record, for the replication of a profile. */
  ghost predicate Announces(d: Option<Destination>, rep: ReplicationSpec) {
    && d.Some? && d.value.remoteClusterId == rep.remote
    && (d.value.poolMapping.None? <==> rep.rbd.None? || rep.rbd.value == [])
    && (d.value.poolMapping.Some? ==>
          && (forall i :: 0 <= i < |rep.rbd.value| ==> rep.rbd.value[i].name in d.value.poolMapping.value)
          && (forall n :: n in d.value.poolMapping.value ==> LastGiven(rep.rbd.value, n, d.value.poolMapping.value[n])))
  }

  /** The text prints the options, or is empty when there are none. */
  ghost predicate ShowsOptions(text: string, options: Option<map<string, string>>) {
    (options.None? ==> text == "") && (options.Some? ==> IsPrinting(text, options.value, "=", ","))
  }

  /** The fields of a record that come from the profile and its connection. */
  ghost predicate ShowsSpecs(r: Record, profile: ProfileSpec, connection: ConnectionSpec) {
    && r.monitors == connection.monitors && r.readAffinity == connection.readAffinity
    && (profile.cephFs.Some? ==>
          var fs := profile.cephFs.value;
          && r.cephFs.subvolumeGroup == fs.subVolumeGroup
          && (fs.radosNamespace.Some? ==> r.cephFs.radosNamespace == fs.radosNamespace.value)
          && (fs.radosNamespace.None? ==> r.cephFs.radosNamespace == "")
          && ShowsOptions(r.cephFs.kernelMountOptions, fs.kernelMountOptions)
          && ShowsOptions(r.cephFs.fuseMountOptions, fs.fuseMountOptions)
          && (fs.secrets.Some? ==> r.cephFs.controllerPublishSecret == fs.secrets.value.controllerPublish)
          && (fs.secrets.None? ==> r.cephFs.controllerPublishSecret == SecretRef("", "")))
    && (profile.rbd.Some? ==>
          var rbd := profile.rbd.value;
          && r.rbd.radosNamespace == rbd.radosNamespace && r.rbd.mirrorCount == connection.rbdMirrorDaemonCount
          && (rbd.secrets.Some? ==>
                r.rbd.controllerPublishSecret == rbd.secrets.value.controllerPublish &&
                r.rbd.nodePublishSecret == rbd.secrets.value.nodePublish)
          && (rbd.secrets.None? ==>
                r.rbd.controllerPublishSecret == SecretRef("", "") && r.rbd.nodePublishSecret == SecretRef("", "")))
    && (profile.nvmeof.Some? ==>
          var nvmeof := profile.nvmeof.value;
          && r.nvmeof.radosNamespace == nvmeof.radosNamespace
          && (nvmeof.secrets.Some? ==> r.nvmeof.controllerPublishSecret == nvmeof.secrets.value.controllerPublish)
          && (nvmeof.secrets.None? ==> r.nvmeof.controllerPublishSecret == SecretRef("", "")))
    && (profile.cephFs.None? ==> r.cephFs == CephFsRecord("", "", "", "", SecretRef("", "")))
    && (profile.rbd.None? ==> r.rbd == RbdRecord("", 0, SecretRef("", ""), SecretRef("", "")))
    && (profile.nvmeof.None? ==> r.nvmeof == NvmeofRecord("", SecretRef("", "")))
  }

  lemma RecordShowsSpecs(r: Record, inputs: Inputs)
    requires IsRecordOf(r, inputs)
    ensures ShowsSpecs(r, inputs.spec, inputs.connection)
  {
    hide IsPrinting, DescribesDestination;
  }

  lemma DescribedIsAnnounced(d: Option<Destination>, rep: ReplicationSpec)
    requires DescribesDestination(d, Some((rep, Ready)))
    ensures Announces(d, rep)
  {
    if rep.rbd.Some? {
      forall n { RemotePoolsMeaning(rep.rbd.value, n); }
    }
  }

  /** What an undisturbed reconcile of a live profile stores under its name: the monitors
      and the read affinity of its connection, its own three sections, and as destination
      the remote of the one Ready replication; no destination when none is Ready. */
  lemma RoundStores(s: State, p: string, record: Record)
    requires UniqueIds(ListOf(s)) && Live(s, p) && IsRecordOf(record, InputsAt(s, p))
    ensures var stored := Lookup(ListOf(Round(s, p, record)), p);
            && stored.Some?
            && ShowsSpecs(stored.value, s.profiles[p].value.spec,
                          s.connections[s.profiles[p].value.spec.connection].value.spec)
            && (forall c :: IsReady(s, c, p) ==> Announces(stored.value.destination, s.replications[c].value.spec))
            && ((forall c :: !IsReady(s, c, p)) ==> stored.value.destination == None)
  {
    PossibleRound(s, Job(p, record));
    UpsertMeaning(ListOf(s), record);
    hide Round, ListOf, ClusterInfo.Upsert, Lookup, UniqueIds;
    ReadyForIs(s, p);
    RecordAnnounces(s, p, record);
  }

  lemma RecordAnnounces(s: State, p: string, record: Record)
    requires Live(s, p) && IsRecordOf(record, InputsAt(s, p))
    ensures record.clusterId == p
    ensures ShowsSpecs(record, s.profiles[p].value.spec, s.connections[s.profiles[p].value.spec.connection].value.spec)
    ensures forall c :: IsReady(s, c, p) ==> Announces(record.destination, s.replications[c].value.spec)
    ensures (forall c :: !IsReady(s, c, p)) ==> record.destination == None
  {
    ReadyForIs(s, p);
    RecordShowsSpecs(record, InputsAt(s, p));
    hide MultipleReady, ReadyReplication, Announces, ShowsSpecs, DescribesCephFs, DescribesRbd, DescribesNvmeof, Removable,
         Referenced;
    forall c | IsReady(s, c, p) ensures Announces(record.destination, s.replications[c].value.spec) {
      DescribedIsAnnounced(record.destination, s.replications[c].value.spec);
    }
  }

  // -------------------------------------------------------- created, then deleted

  /** p has left nothing behind yet: no record, and no owner reference by name or UID. */
  ghost predicate Unknown(owners: seq<Ref>, owner: Owner) {
    forall ref :: ref in owners ==> ref.key != owner.key && ref.uid != owner.uid
  }

  lemma ToggledOnAndOff(owners: seq<Ref>, owner: Owner, namespace: string)
    requires Unknown(owners, owner) && OwnerAllowed(owner, namespace)
    ensures var on := owners + [Ref(owner.key, owner.uid)];
            && !HasUid(owners, owner.uid) && OwnerReferences.Upsert(owners, Ref(owner.key, owner.uid)) == on
            && HasUid(on, owner.uid) && Removable(on, owner)
            && Toggle(true, owners, owner, namespace).refs == on
            && Toggle(true, on, owner, namespace).refs == on
            && Toggle(false, on, owner, namespace).refs == owners
  {
    var on := owners + [Ref(owner.key, owner.uid)];
    assert on[|owners|] == Ref(owner.key, owner.uid);
    assert forall i :: 0 <= i < |owners| ==> owners[i] in owners && on[i] == owners[i];
    var i := OwnerReferences.IndexOf(on, owner.key);
    assert i == |owners|;
    assert on[..i] == owners && on[i + 1..] == [];
  }

  lemma AppendedAndDeleted(list: seq<Record>, record: Record)
    requires Lookup(list, record.clusterId) == None
    ensures ClusterInfo.Upsert(list, record) == list + [record]
    ensures SwapDelete(list + [record], record.clusterId) == list
  {
    var l := list + [record];
    LookupNone(list, record.clusterId);
    assert l[|list|] == record;
    assert ClusterInfo.IndexOf(l, record.clusterId) == |list|;
  }

  /** p is about to be reconciled for the first time. */
  ghost predicate Newborn(s: State, p: string) {
    && UniqueIds(ListOf(s)) && Live(s, p) && !s.profiles[p].value.foreign
    && Lookup(ListOf(s), p) == None && Unknown(Base(s.cm).owners, OwnerOf(s, p))
    && Unknown(s.connections[ConnectionName(s, p)].value.owners, OwnerOf(s, p))
  }

  /** The connection of p and its owners apart, r is s; and p, its record and its owner
      references are there in r. */
  ghost predicate Present(s: State, r: State, p: string, record: Record)
    requires p in s.profiles && ConnectionName(s, p) in s.connections
  {
    var name, ref := ConnectionName(s, p), Ref(OwnerOf(s, p).key, OwnerOf(s, p).uid);
    && OnlyItsOwn(s, r, p) && r.cm.Some?
    && p in r.profiles && r.profiles == s.profiles[p := r.profiles[p]]
    && r.profiles[p].value == s.profiles[p].value.(cleanup := true)
    && Base(r.cm) == ConfigMapValue(Base(s.cm).owners + [ref], Json(ListOf(s) + [record]), Base(s.cm).mapping)
    && r.connections[name].value.owners == s.connections[name].value.owners + [ref]
  }

  lemma FirstRound(s: State, p: string, record: Record)
    requires Newborn(s, p) && IsRecordOf(record, InputsAt(s, p))
    ensures Present(s, Round(s, p, record), p, record)
  {
    RoundMeaning(s, p, record);
    hide Round;
    FirstResult(s, Round(s, p, record), p, record);
  }

  lemma FirstResult(s: State, r: State, p: string, record: Record)
    requires Newborn(s, p) && RoundResult(s, r, p, record) && record.clusterId == p
    ensures Present(s, r, p, record)
  {
    var owner := OwnerOf(s, p);
    ToggledOnAndOff(Base(s.cm).owners, owner, s.namespace);
    ToggledOnAndOff(s.connections[ConnectionName(s, p)].value.owners, owner, s.namespace);
    AppendedAndDeleted(ListOf(s), record);
    assert Base(r.cm) == Edited(s, p, record);
    hide Toggle, ClusterInfo.Upsert, OwnerReferences.Upsert, SwapDelete, Lookup, Unknown, Removable, UniqueIds,
         MultipleReady, Referenced;
  }

  /** r is s without p; what p had written to the config map and to its connection is gone. */
  ghost predicate Gone(s: State, r: State, p: string)
    requires p in s.profiles && ConnectionName(s, p) in s.connections
  {
    var name := ConnectionName(s, p);
    && OnlyItsOwn(s, r, p) && r.profiles == s.profiles - {p}
    && r.connections[name].value == s.connections[name].value
    && r.cm.Some? && Base(r.cm) == Base(s.cm).(config := Json(ListOf(s)))
  }

  lemma DeletionMarks(s: State, p: string)
    requires p in s.profiles && s.profiles[p].value.cleanup
    ensures var r := Next(s, DeleteProfile(p));
            && p in r.profiles && r.profiles[p].value == s.profiles[p].value.(deleting := true)
            && r == s.(profiles := s.profiles[p := r.profiles[p]], clock := r.clock)
  {
    hide Next;
    EnvironmentSteps(s, DeleteProfile(p));
  }

  lemma MarkedIsUnblocked(s: State, r: State, m: State, p: string, record: Record)
    requires Newborn(s, p) && !Referenced(s, p) && Present(s, r, p, record)
    requires p in m.profiles && m.profiles[p].value == r.profiles[p].value.(deleting := true)
    requires m == r.(profiles := r.profiles[p := m.profiles[p]], clock := m.clock)
    ensures Unblocked(m, p) && OwnerOf(m, p) == OwnerOf(s, p) && ConnectionName(m, p) == ConnectionName(s, p)
  {
    ToggledOnAndOff(Base(s.cm).owners, OwnerOf(s, p), s.namespace);
    ToggledOnAndOff(s.connections[ConnectionName(s, p)].value.owners, OwnerOf(s, p), s.namespace);
    SameListing(s, m, p);
    hide Toggle, ClusterInfo.Upsert, OwnerReferences.Upsert, SwapDelete, Lookup, Unknown, Removable, UniqueIds,
         MultipleReady, Referenced;
  }

  lemma LastConfigMap(s: State, r: State, m: State, x: State, p: string, record: Record, any: Record)
    requires Newborn(s, p) && !Referenced(s, p) && Present(s, r, p, record) && record.clusterId == p
    requires p in m.profiles && m.profiles[p].value == r.profiles[p].value.(deleting := true)
    requires m == r.(profiles := r.profiles[p := m.profiles[p]], clock := m.clock)
    requires Unblocked(m, p) && OwnerOf(m, p) == OwnerOf(s, p) && ConnectionName(m, p) == ConnectionName(s, p)
    requires RoundResult(m, x, p, any)
    ensures x.cm.Some? && Base(x.cm) == Base(s.cm).(config := Json(ListOf(s)))
  {
    ToggledOnAndOff(Base(s.cm).owners, OwnerOf(s, p), s.namespace);
    AppendedAndDeleted(ListOf(s), record);
    assert Base(x.cm) == Edited(m, p, any);
    hide Toggle, SwapDelete, Lookup, Unknown, Removable, UniqueIds, MultipleReady, Referenced, ProfileDone, ConnectionDone,
         OnlyItsOwn;
  }

  lemma LastConnection(s: State, r: State, m: State, x: State, p: string, record: Record, any: Record)
    requires Newborn(s, p) && !Referenced(s, p) && Present(s, r, p, record) && record.clusterId == p
    requires p in m.profiles && m.profiles[p].value == r.profiles[p].value.(deleting := true)
    requires m == r.(profiles := r.profiles[p := m.profiles[p]], clock := m.clock)
    requires Unblocked(m, p) && OwnerOf(m, p) == OwnerOf(s, p) && ConnectionName(m, p) == ConnectionName(s, p)
    requires RoundResult(m, x, p, any)
    ensures x.connections[ConnectionName(s, p)].value == s.connections[ConnectionName(s, p)].value
  {
    ToggledOnAndOff(s.connections[ConnectionName(s, p)].value.owners, OwnerOf(s, p), s.namespace);
    hide Toggle, SwapDelete, Lookup, Unknown, Removable, UniqueIds, MultipleReady, Referenced, ProfileDone, Committed, ListOf;
    var name := ConnectionName(s, p);
    assert x.connections[name].value.spec == s.connections[name].value.spec;
  }

  lemma LastResult(s: State, r: State, m: State, x: State, p: string, record: Record, any: Record)
    requires Newborn(s, p) && !Referenced(s, p) && Present(s, r, p, record) && record.clusterId == p
    requires p in m.profiles && m.profiles[p].value == r.profiles[p].value.(deleting := true)
    requires m == r.(profiles := r.profiles[p := m.profiles[p]], clock := m.clock)
    requires Unblocked(m, p) && OwnerOf(m, p) == OwnerOf(s, p) && ConnectionName(m, p) == ConnectionName(s, p)
    requires RoundResult(m, x, p, any)
    ensures Gone(s, x, p)
  {
    LastConfigMap(s, r, m, x, p, record, any);
    LastConnection(s, r, m, x, p, record, any);
    hide Newborn, Unblocked, ConnectionDone, Committed, ListOf, OwnerOf;
    var name := ConnectionName(s, p);
    InsertThenRemove(s.profiles, p, r.profiles[p]);
    InsertThenRemove(s.profiles[p := r.profiles[p]], p, m.profiles[p]);
    UpdateTwice(s.connections, name, r.connections[name], x.connections[name]);
  }

  lemma DeletedIsGone(s: State, r: State, p: string, record: Record, any: Record)
    requires Newborn(s, p) && !Referenced(s, p) && Present(s, r, p, record) && record.clusterId == p
    ensures Gone(s, Round(Next(r, DeleteProfile(p)), p, any), p)
  {
    hide Round, RoundResult, Present, Gone, Newborn, Next, Unblocked, Referenced;
    var m := Next(r, DeleteProfile(p));
    PresentHolds(s, r, p, record);
    DeletionMarks(r, p);
    MarkedIsUnblocked(s, r, m, p, record);
    RoundMeaning(m, p, any);
    LastResult(s, r, m, Round(m, p, any), p, record, any);
  }

  /** A profile that is reconciled, deleted and reconciled again leaves nothing behind:
      its record is stored and removed, its owner references come and go, and all other
      objects are as they were. */
  lemma LeavesNoTrace(s: State, p: string, record: Record, any: Record)
    requires Newborn(s, p) && !Referenced(s, p) && IsRecordOf(record, InputsAt(s, p))
    ensures var r := Round(s, p, record);
            && Present(s, r, p, record)
            && Gone(s, Round(Next(r, DeleteProfile(p)), p, any), p)
  {
    FirstRound(s, p, record);
    NewbornNames(s, p, record);
    hide Round, Present, Gone, Newborn, Next, IsRecordOf, Referenced;
    DeletedIsGone(s, Round(s, p, record), p, record, any);
  }

  ghost function Without(s: State, c: string): State {
    s.(replications := s.replications - {c})
  }

  lemma WithoutReplication(s: State, c: string, p: string)
    requires Newborn(s, p) && forall d :: References(s, d, p) ==> d == c
    ensures Newborn(Without(s, c), p) && !Referenced(Without(s, c), p)
    ensures OwnerOf(Without(s, c), p) == OwnerOf(s, p)
  {
    var w := Without(s, c);
    hide Lookup, UniqueIds, Unknown;
    forall d ensures !References(w, d, p) {
      assert References(w, d, p) ==> References(s, d, p);
    }
    assert forall d :: !ReadyFor(w, d, p);
  }

  lemma DroppedIsPresent(s: State, r: State, c: string, p: string, record: Record)
    requires p in s.profiles && ConnectionName(s, p) in s.connections && Present(s, r, p, record)
    ensures Present(Without(s, c), Next(r, DropReplication(c)), p, record)
  {
    hide Next, StepEnvironment;
    EnvironmentSteps(r, DropReplication(c));
    DropReplicationDoes(r, DropReplication(c));
  }

  lemma DropReplicationDoes(s: State, e: Event)
    requires e.DropReplication?
    ensures StepEnvironment(s, e) == Without(s, e.c)
  {
    hide ProfilesEvolve, FinalizersStay, SameProfileTasks, StoreProfile, Write;
  }

  /** Likewise with a replication, once it is dropped: the profile is announced, then the
      replication goes, then the profile, and nothing of either is left. */
  lemma LeavesNoTraceWithReplication(s: State, c: string, p: string, record: Record, any: Record)
    requires Newborn(s, p) && IsRecordOf(record, InputsAt(s, p)) && forall d :: References(s, d, p) ==> d == c
    ensures var dropped := Next(Round(s, p, record), DropReplication(c));
            Gone(s.(replications := s.replications - {c}), Round(Next(dropped, DeleteProfile(p)), p, any), p)
  {
    FirstRound(s, p, record);
    NewbornNames(s, p, record);
    WithoutReplication(s, c, p);
    hide Round, Present, Gone, Next, IsRecordOf, Referenced;
    DroppedIsPresent(s, Round(s, p, record), c, p, record);
    DeletedIsGone(Without(s, c), Next(Round(s, p, record), DropReplication(c)), p, record, any);
  }

  lemma NewbornNames(s: State, p: string, record: Record)
    requires Newborn(s, p) && IsRecordOf(record, InputsAt(s, p))
    ensures record.clusterId == p
  {
  }

  lemma PresentHolds(s: State, r: State, p: string, record: Record)
    requires Newborn(s, p) && Present(s, r, p, record)
    ensures p in r.profiles && r.profiles[p].value.cleanup
  {
  }

  // ------------------------------------------------------------------ a whole run

  /** What the replication controller leaves alone. */
  ghost predicate SameForProfiles(s: State, r: State) {
    && r.cm == s.cm && r.namespace == s.namespace && r.profiles == s.profiles && r.connections == s.connections
    && r.profileTasks == s.profileTasks
  }

  lemma ReplicationStepKeeps(s: State, e: Event)
    requires OfReplication(e)
    ensures SameForProfiles(s, Next(s, e))
  {
    hide StepProfile, StepReplication, StepMapping, StepDriver, StepEnvironment, ProfilesEvolve, FinalizersStay, OtherTasksStay;
  }

  lemma ReplicationRoundKeeps(s: State, c: string)
    ensures SameForProfiles(s, ReadyElection.Round(s, c))
  {
    hide Next;
    var s1 := Next(s, RGet(c));
    var s2 := Next(s1, RFindProfile(c));
    var s3 := Next(s2, RElect(c));
    ReplicationStepKeeps(s, RGet(c));
    ReplicationStepKeeps(s1, RFindProfile(c));
    ReplicationStepKeeps(s2, RElect(c));
    ReplicationStepKeeps(s3, RStatus(c));
  }

  /** A user creates a profile, its connection and a replication for it. */
  ghost function Created(namespace: string, p: string, uid: string, spec: ProfileSpec, connection: Connection,
                         c: string, e: Event): State
  {
    Next(Next(Next(Initial(namespace), CreateProfile(p, uid, false, spec)), PutConnection(spec.connection, connection)), e)
  }

  lemma WhatIsCreated(namespace: string, p: string, uid: string, spec: ProfileSpec, connection: Connection,
                      c: string, e: Event)
    requires e.CreateReplication? && e.c == c
    ensures var s := Created(namespace, p, uid, spec, connection, c, e);
            && s.cm == None && s.namespace == namespace && s.profileTasks == map[] && s.replicationTasks == map[]
            && s.profiles == map[p := Stored(0, Profile(uid, false, false, false, spec))]
            && s.connections == map[spec.connection := Stored(1, connection)]
            && s.replications == map[c := Stored(2, Replication(e.uid, e.created, e.owners, e.rspec, NoPhase))]
  {
    hide Next, StepEnvironment, ProfilesEvolve, FinalizersStay, SameProfileTasks;
    var s0 := Initial(namespace);
    EnvironmentSteps(s0, CreateProfile(p, uid, false, spec));
    CreateProfileDoes(s0, CreateProfile(p, uid, false, spec));
    var s1 := Next(s0, CreateProfile(p, uid, false, spec));
    EnvironmentSteps(s1, PutConnection(spec.connection, connection));
    PutConnectionDoes(s1, PutConnection(spec.connection, connection));
    var s2 := Next(s1, PutConnection(spec.connection, connection));
    EnvironmentSteps(s2, e);
    CreateReplicationDoes(s2, e);
  }

  lemma CreateProfileDoes(s: State, e: Event)
    requires e.CreateProfile? && e.p !in s.profiles
    ensures StepEnvironment(s, e) ==
            s.(profiles := s.profiles[e.p := Stored(s.clock, Profile(e.uid, false, false, e.foreign, e.spec))])
  {
    hide ProfilesEvolve, FinalizersStay, SameProfileTasks, StoreProfile, Write;
  }

  lemma PutConnectionDoes(s: State, e: Event)
    requires e.PutConnection?
    ensures StepEnvironment(s, e) == s.(connections := s.connections[e.name := Stored(s.clock, e.connection)])
  {
    hide ProfilesEvolve, FinalizersStay, SameProfileTasks, StoreProfile, Write;
  }

  lemma CreateReplicationDoes(s: State, e: Event)
    requires e.CreateReplication? && e.c !in s.replications
    ensures StepEnvironment(s, e) ==
            s.(replications := s.replications[e.c :=
                 Stored(s.clock, Replication(e.uid, e.created, e.owners, e.rspec, NoPhase))])
  {
    hide ProfilesEvolve, FinalizersStay, SameProfileTasks, StoreProfile, Write;
  }

  /** From nothing: once a profile, its connection and a replication of it exist, the
      replication's reconcile makes it Ready, and then the profile's reconcile stores the
      one record there is, with the replication's remote as its destination, records the
      profile as the owner and gives it its finalizer. */
  lemma ReplicationIsAnnounced(namespace: string, p: string, uid: string, spec: ProfileSpec, connection: Connection,
                               c: string, e: Event, record: Record)
    requires e.CreateReplication? && e.c == c && e.rspec.local == p && spec.connection != ""
    ensures var s := ReadyElection.Round(Created(namespace, p, uid, spec, connection, c, e), c);
            && c in s.replications && s.replications[c].value.phase == Ready
            && Live(s, p)
            && (IsRecordOf(record, InputsAt(s, p)) ==>
                  var r := Round(s, p, record);
                  && r.cm.Some?
                  && Base(r.cm) == ConfigMapValue([Ref(Key("csi.ceph.io", "ClientProfile", p), uid)], Json([record]), Absent)
                  && ShowsSpecs(record, spec, connection.spec) && Announces(record.destination, e.rspec)
                  && HoldsFinalizer(r, p))
  {
    hide Next, Round, IsRecordOf, Announces;
    var s1 := Created(namespace, p, uid, spec, connection, c, e);
    WhatIsCreated(namespace, p, uid, spec, connection, c, e);
    OneReplicationWins(s1, c, p);
    var s := ReadyElection.Round(s1, c);
    ReplicationRoundKeeps(s1, c);
    hide Created, ReadyElection.Round;
    IsLive(s, p, c);
    if IsRecordOf(record, InputsAt(s, p)) {
      RecordAnnounces(s, p, record);
      PossibleRound(s, Job(p, record));
      FirstRecord(record);
      RoundOwns(s, p, record);
      assert IsReady(s, c, p);
    }
  }

  lemma OneReplicationWins(s: State, c: string, p: string)
    requires c in s.replications && s.replications == map[c := s.replications[c]] && s.replicationTasks == map[]
    requires s.replications[c].value.spec.local == p && p in s.profiles
    ensures var r := ReadyElection.Round(s, c);
            && r.replications.Keys == {c} && r.replications[c].value == s.replications[c].value.(phase := Ready)
  {
    hide ReadyElection.Round, ReadyElection.FirstCreated, ReadyElection.Verdict;
    ReadyElection.RoundMeaning(s, c);
    OneIsFirst(s, c, p);
  }

  lemma OneIsFirst(s: State, c: string, p: string)
    requires c in s.replications && s.replications == map[c := s.replications[c]]
    requires s.replications[c].value.spec.local == p
    ensures ReadyElection.FirstCreated(s, c, p)
  {
  }

  lemma IsLive(s: State, p: string, c: string)
    requires s.replications.Keys == {c} && s.profileTasks == map[] && s.cm == None
    requires p in s.profiles && !s.profiles[p].value.deleting
    requires s.profiles[p].value.spec.connection != "" && s.profiles[p].value.spec.connection in s.connections
    ensures Live(s, p)
  {
    assert forall d :: d in s.replications <==> d == c;
  }

  lemma FirstRecord(record: Record)
    ensures ClusterInfo.Upsert([], record) == [record]
  {
  }

  lemma RoundOwns(s: State, p: string, record: Record)
    requires Live(s, p) && s.cm == None && IsRecordOf(record, InputsAt(s, p))
    ensures var r := Round(s, p, record);
            && r.cm.Some?
            && Base(r.cm) == ConfigMapValue([Ref(OwnerOf(s, p).key, OwnerOf(s, p).uid)], Json([record]), Absent)
            && HoldsFinalizer(r, p)
  {
    RoundMeaning(s, p, record);
    hide Round, IsRecordOf;
    var r := Round(s, p, record);
    assert Base(r.cm) == Edited(s, p, record);
    ToggledOnAndOff([], OwnerOf(s, p), s.namespace);
    FirstRecord(record);
    hide Toggle, MultipleReady, Referenced, ClusterInfo.Upsert;
  }
}
