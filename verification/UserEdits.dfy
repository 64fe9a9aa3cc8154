/** What users write is not lost: a controller's update of a profile, a connection or a
    replication is relative to the value it replaces and keeps to the controller's part. */
module UserEdits {
  import opened Prelude
  import opened OwnerReferences
  import opened ClusterInfo
  import opened ConfigMapWriters
  import opened Protocol
  import opened ProtocolInvariant
  import opened ProtocolRuns
  import ReadyElection

  // ------------------------------------------------------------------ invariant

  /** A copy of a connection that still has the current version is the current value. */
  ghost predicate CopyOk(s: State, name: string, copy: Stored<Connection>) {
    copy.version < s.clock && (Current(s.connections, name, copy.version) ==> s.connections[name] == copy)
  }

  ghost predicate TaskOk(s: State, t: ProfileTask) {
    t.stage != GotProfile ==> CopyOk(s, t.self.value.spec.connection, t.connection)
  }

  ghost predicate ConnectionsOk(s: State) {
    && (forall n :: n in s.connections ==> s.connections[n].version < s.clock)
    && (forall p :: p in s.profileTasks ==> TaskOk(s, s.profileTasks[p]))
  }

  /** Connections are as they were or newly written. */
  ghost predicate ConnectionsEvolve(s: State, r: State) {
    forall n :: n in r.connections ==>
      (n in s.connections && r.connections[n] == s.connections[n]) || r.connections[n].version == s.clock
  }

  // ---------------------------------------------------------- what a step may do

  /** Only the owner reference of p may be different. */
  ghost predicate SameButOwner(k: Connection, k': Connection, p: string) {
    k'.spec == k.spec && Others(k'.owners, ProfileKey(p)) == Others(k.owners, ProfileKey(p))
  }

  ghost predicate OwnConnections(s: State, r: State, p: string) {
    && r.connections.Keys == s.connections.Keys
    && (forall n :: n in s.connections ==> SameButOwner(s.connections[n].value, r.connections[n].value, p))
  }

  ghost predicate OwnProfile(s: State, r: State, p: string) {
    && (forall q :: q != p ==> (q in r.profiles <==> q in s.profiles))
    && (forall q :: q != p && q in s.profiles ==> r.profiles[q] == s.profiles[q])
    && (p in r.profiles ==>
          && p in s.profiles
          && r.profiles[p].value == s.profiles[p].value.(cleanup := r.profiles[p].value.cleanup))
    && (p in s.profiles && p !in r.profiles ==> s.profiles[p].value.deleting && !s.profiles[p].value.foreign)
  }

  /** The next task of p, if any: with a copy of the connection that is in order. */
  ghost predicate NextTaskOk(s: State, r: State, p: string) {
    p in r.profileTasks ==> TaskOk(r.(clock := s.clock + 1), r.profileTasks[p])
  }

  ghost predicate StepOk(s: State, r: State, p: string) {
    ConnectionsEvolve(s, r) && OwnConnections(s, r, p) && OwnProfile(s, r, p) && NextTaskOk(s, r, p)
  }

  // ----------------------------------------------- the client-profile controller

  lemma QuietMove(s: State, r: State, p: string)
    requires ConnectionsOk(s) && r.connections == s.connections && r.profiles == s.profiles
    requires p in r.profileTasks ==>
               p in s.profileTasks && r.profileTasks[p].connection == s.profileTasks[p].connection &&
               r.profileTasks[p].self == s.profileTasks[p].self &&
               (r.profileTasks[p].stage != GotProfile ==> s.profileTasks[p].stage != GotProfile)
    ensures StepOk(s, r, p)
  {
    if p in r.profileTasks {
      assert TaskOk(s, s.profileTasks[p]);
    }
  }

  lemma GetOk(s: State, p: string)
    requires ConnectionsOk(s)
    ensures StepOk(s, Get(s, p), p)
  {
    hide OnlyTask, Calm, NoNewCleanUp;
    if p in s.profileTasks || p !in s.profiles {
      QuietMove(s, s, p);
    }
  }

  lemma GetConnectionOk(s: State, p: string)
    requires ConnectionsOk(s)
    ensures StepOk(s, GetConnection(s, p), p)
  {
    hide OnlyTask, Calm, NoNewCleanUp, PlainMove, StepOk;
    QuietMove(s, s, p);
    QuietMove(s, End(s, p), p);
    if At(s, p, GotProfile) {
      var t := s.profileTasks[p];
      var name := t.self.value.spec.connection;
      if name in s.connections {
        ConnectionRead(s, p, t.(stage := GotConnection, connection := s.connections[name]));
      }
    }
  }

  lemma ConnectionRead(s: State, p: string, t: ProfileTask)
    requires ConnectionsOk(s) && t.self.value.spec.connection in s.connections
    requires t.connection == s.connections[t.self.value.spec.connection]
    ensures StepOk(s, Set(s, p, t), p)
  {
    hide OnlyTask, Calm, Others;
  }

  lemma WrittenConnection(s: State, t: ProfileTask, owners: seq<Ref>, p: string)
    requires ConnectionsOk(s) && TaskOk(s, t) && t.stage != GotProfile
    requires Others(owners, ProfileKey(p)) == Others(t.connection.value.owners, ProfileKey(p))
    ensures var w := WriteConnection(s, t, owners);
            var name := t.self.value.spec.connection;
            w.Some? ==>
              && name in s.connections && SameButOwner(s.connections[name].value, w.value.value, p)
              && (w.value == s.connections[name] || w.value.version == s.clock)
              && w.value.version <= s.clock
  {
    hide Others;
  }

  lemma ConnectionReplaced(s: State, r: State, name: string, stored: Stored<Connection>, p: string)
    requires name in s.connections && r.connections == s.connections[name := stored] && r.profiles == s.profiles
    requires SameButOwner(s.connections[name].value, stored.value, p)
    requires stored == s.connections[name] || stored.version == s.clock
    ensures ConnectionsEvolve(s, r) && OwnConnections(s, r, p) && OwnProfile(s, r, p)
  {
    hide Others;
  }

  /** The task's copy is written back with other owners. */
  lemma ConnectionWritten(s: State, p: string, t: ProfileTask, owners: seq<Ref>)
    requires ConnectionsOk(s) && p in s.profileTasks && t.connection == s.profileTasks[p].connection
    requires t.self == s.profileTasks[p].self && s.profileTasks[p].stage != GotProfile && t.stage != GotProfile
    requires Others(owners, ProfileKey(p)) == Others(t.connection.value.owners, ProfileKey(p))
    ensures var w := WriteConnection(s, t, owners);
            w.Some? ==> StepOk(s, WithConnection(s, p, t, w.value), p)
  {
    hide OnlyTask, Calm, Others, WriteConnection, SameButOwner, ConnectionsEvolve, OwnConnections, OwnProfile;
    assert TaskOk(s, s.profileTasks[p]);
    WrittenConnection(s, t, owners, p);
    var w := WriteConnection(s, t, owners);
    if w.Some? {
      ConnectionReplaced(s, WithConnection(s, p, t, w.value), t.self.value.spec.connection, w.value, p);
    }
  }

  lemma OwnConnectionOk(s: State, p: string)
    requires ConnectionsOk(s)
    ensures StepOk(s, OwnConnection(s, p), p)
  {
    hide OnlyTask, Calm, NoNewCleanUp, PlainMove, Others, StepOk, WithConnection, WriteConnection, OwnerReferences.Upsert;
    if !At(s, p, GotConnection) {
      QuietMove(s, s, p);
    } else {
      var t := s.profileTasks[p];
      var owner := ProfileOwner(s, p, t.self.value.uid);
      var owners := OwnerReferences.Upsert(t.connection.value.owners, Ref(owner.key, owner.uid));
      UpsertKeepsOthers(t.connection.value.owners, Ref(owner.key, owner.uid));
      QuietMove(s, Set(s, p, t.(stage := OwnedConnection)), p);
      QuietMove(s, End(s, p), p);
      ConnectionWritten(s, p, t.(stage := OwnedConnection), owners);
      SameWrite(s, t, t.(stage := OwnedConnection), owners);
    }
  }

  lemma SameWrite(s: State, t: ProfileTask, u: ProfileTask, owners: seq<Ref>)
    requires u.self == t.self && u.connection == t.connection
    ensures WriteConnection(s, u, owners) == WriteConnection(s, t, owners)
  {
  }

  lemma ListOk(s: State, p: string)
    requires ConnectionsOk(s)
    ensures StepOk(s, List(s, p), p)
  {
    hide OnlyTask, Calm, NoNewCleanUp, PlainMove, StepOk, MultipleReady, ReadyReplication;
    QuietMove(s, s, p);
    QuietMove(s, End(s, p), p);
    if At(s, p, OwnedConnection) {
      QuietMove(s, Set(s, p, s.profileTasks[p].(stage := Listed, replication := ReadyReplication(s, p))), p);
    }
  }

  /** The task of p goes on with a copy of the profile that names the same connection. */
  lemma ProfileMove(s: State, r: State, p: string)
    requires ConnectionsOk(s) && r.connections == s.connections && OwnProfile(s, r, p)
    requires p in r.profileTasks ==>
               p in s.profileTasks && r.profileTasks[p].connection == s.profileTasks[p].connection &&
               r.profileTasks[p].self.value.spec == s.profileTasks[p].self.value.spec &&
               (r.profileTasks[p].stage != GotProfile ==> s.profileTasks[p].stage != GotProfile)
    ensures StepOk(s, r, p)
  {
    hide OwnProfile;
    if p in r.profileTasks {
      assert TaskOk(s, s.profileTasks[p]);
    }
  }

  /** A profile is replaced by a value that differs in the cleanup finalizer at most. */
  lemma ProfileWritten(s: State, r: State, p: string, stored: Stored<Profile>)
    requires p in s.profiles && r.profiles == s.profiles[p := stored]
    requires stored.value == s.profiles[p].value.(cleanup := stored.value.cleanup)
    ensures OwnProfile(s, r, p)
  {
  }

  lemma ProfileRemoved(s: State, r: State, p: string)
    requires r.profiles == s.profiles - {p}
    requires p in s.profiles ==> s.profiles[p].value.deleting && !s.profiles[p].value.foreign
    ensures OwnProfile(s, r, p)
  {
  }

  lemma FinalizeOk(s: State, p: string)
    requires Inv(s) && ConnectionsOk(s)
    ensures StepOk(s, Finalize(s, p), p)
  {
    hide OnlyTask, Calm, NoNewCleanUp, FinalizeTask, StepOk, OwnProfile;
    QuietMove(s, s, p);
    if At(s, p, Listed) {
      var t := s.profileTasks[p];
      CopyIsCurrent(s, p);
      QuietMove(s, Set(s, p, t.(stage := Finalized)), p);
      QuietMove(s, Set(s, p, t.(stage := Finishing)), p);
      if Current(s.profiles, p, t.self.version) {
        var stored := Write(t.self, t.self.value.(cleanup := true), s.clock);
        var r := Set(s.(profiles := s.profiles[p := stored]), p, t.(stage := Finalized, self := stored));
        ProfileWritten(s, r, p, stored);
        ProfileMove(s, r, p);
      }
    }
  }

  lemma CopyIsCurrent(s: State, p: string)
    requires Inv(s) && p in s.profileTasks
    ensures Current(s.profiles, p, s.profileTasks[p].self.version) ==> s.profiles[p] == s.profileTasks[p].self
  {
    assert ProfileTaskOk(s, p, s.profileTasks[p]);
  }

  lemma AfterToggleOk(s: State, p: string, t: ProfileTask, o: Outcome, owners: seq<Ref>, stage: Stage)
    requires ConnectionsOk(s) && p in s.profileTasks && t == s.profileTasks[p]
    requires (t.stage == Finalized && stage == ToggledConnection) ||
             (t.stage == ToggledConnection && stage == ToggledReplication)
    requires Others(owners, ProfileKey(p)) == Others(t.connection.value.owners, ProfileKey(p))
    ensures StepOk(s, AfterToggle(s, p, t, o, owners, stage), p)
  {
    hide OnlyTask, Calm, NoNewCleanUp, PlainMove, Others, StepOk, WithConnection, WriteConnection;
    QuietMove(s, Set(s, p, t.(stage := stage)), p);
    QuietMove(s, Set(s, p, t.(stage := Finishing)), p);
    ConnectionWritten(s, p, t.(stage := stage), owners);
    SameWrite(s, t, t.(stage := stage), owners);
  }

  lemma ToggleConnectionOk(s: State, p: string)
    requires ConnectionsOk(s)
    ensures StepOk(s, ToggleConnection(s, p), p)
  {
    hide OnlyTask, Calm, NoNewCleanUp, PlainMove, Others, StepOk, AfterToggle, Toggle;
    if !At(s, p, Finalized) {
      QuietMove(s, s, p);
    } else {
      var t := s.profileTasks[p];
      var owner := ProfileOwner(s, p, t.self.value.uid);
      var o := Toggle(!t.cleanUp, t.connection.value.owners, owner, s.namespace);
      ToggleKeepsOthers(!t.cleanUp, t.connection.value.owners, owner, s.namespace);
      AfterToggleOk(s, p, t, o, o.refs, ToggledConnection);
    }
  }

  lemma ToggleReplicationOk(s: State, p: string)
    requires ConnectionsOk(s)
    ensures StepOk(s, ToggleReplication(s, p), p)
  {
    hide OnlyTask, Calm, NoNewCleanUp, PlainMove, Others, StepOk, AfterToggle, Toggle;
    if !At(s, p, ToggledConnection) {
      QuietMove(s, s, p);
    } else {
      var t := s.profileTasks[p];
      if t.replication.None? {
        QuietMove(s, Set(s, p, t.(stage := ToggledReplication)), p);
      } else {
        var o := Toggle(!t.cleanUp, t.replication.value.owners, ProfileOwner(s, p, t.self.value.uid), s.namespace);
        AfterToggleOk(s, p, t, o, t.connection.value.owners, ToggledReplication);
      }
    }
  }

  lemma CheckOk(s: State, p: string)
    requires ConnectionsOk(s)
    ensures StepOk(s, Check(s, p), p) && StepOk(s, GetConfigMap(s, p), p)
  {
    hide OnlyTask, Calm, NoNewCleanUp, PlainMove, StepOk, Referenced;
    QuietMove(s, s, p);
    if p in s.profileTasks && s.profileTasks[p].stage != GotProfile {
      var t := s.profileTasks[p];
      QuietMove(s, Set(s, p, t.(stage := Finishing)), p);
      QuietMove(s, Set(s, p, t.(stage := Checked)), p);
      QuietMove(s, Set(s, p, t.(stage := GotConfigMap, snapshot := s.cm)), p);
    }
  }

  lemma PutConfigMapOk(s: State, p: string, record: Record)
    requires ConnectionsOk(s)
    ensures StepOk(s, PutConfigMap(s, p, record), p)
  {
    hide OnlyTask, Calm, NoNewCleanUp, StepOk, Commit, ProfileEdit, IsRecordOf;
    QuietMove(s, s, p);
    if At(s, p, GotConfigMap) {
      var t := s.profileTasks[p];
      QuietMove(s, Set(s, p, t.(stage := Finishing)), p);
      var edited := ProfileEdit(Base(t.snapshot), s.namespace, t.cleanUp, ProfileOwner(s, p, t.self.value.uid), record);
      if edited.Some? && Commit(s, t.snapshot, edited.value).Some? {
        var written := s.(cm := Commit(s, t.snapshot, edited.value).value);
        QuietMove(s, Set(written, p, t.(stage := WroteConfigMap)), p);
      }
    }
  }

  lemma UnfinalizeOk(s: State, p: string)
    requires Inv(s) && ConnectionsOk(s)
    ensures StepOk(s, Unfinalize(s, p), p)
  {
    hide OnlyTask, Calm, NoNewCleanUp, UnfinalizeTask, ProfilesEvolve, HoldsFinalizer, StepOk, OwnProfile, ConnectionsOk, Inv;
    QuietMove(s, s, p);
    if At(s, p, WroteConfigMap) {
      var t := s.profileTasks[p];
      CopyIsCurrent(s, p);
      QuietMove(s, Set(s, p, t.(stage := Finishing)), p);
      if Current(s.profiles, p, t.self.version) {
        var value := t.self.value.(cleanup := false);
        var s' := StoreProfile(s, p, value);
        var r := Set(s', p, t.(stage := Finishing, self := if p in s'.profiles then s'.profiles[p] else t.self));
        if p in s'.profiles {
          ProfileWritten(s, r, p, Write(s.profiles[p], value, s.clock));
        } else {
          ProfileRemoved(s, r, p);
        }
        ProfileMove(s, r, p);
      }
    }
  }

  lemma StatusOk(s: State, p: string)
    requires ConnectionsOk(s)
    ensures StepOk(s, Status(s, p), p)
  {
    hide OnlyTask, Calm, NoNewCleanUp, StepOk, OwnProfile;
    QuietMove(s, s, p);
    QuietMove(s, End(s, p), p);
    if At(s, p, Finishing) && Current(s.profiles, p, s.profileTasks[p].self.version) {
      var stored := Stored(s.clock, s.profiles[p].value);
      var r := End(s.(profiles := s.profiles[p := stored]), p);
      ProfileWritten(s, r, p, stored);
      ProfileMove(s, r, p);
    }
  }

  lemma ProfileStepOk(s: State, e: Event)
    requires Inv(s) && ConnectionsOk(s) && OfProfile(e)
    ensures StepOk(s, StepProfile(s, e), e.p)
  {
    hide StepOk, Inv, ConnectionsOk, OnlyTask, Calm, NoNewCleanUp, PlainMove, FinalizeTask, UnfinalizeTask, ProfilesEvolve,
         FinalizersStay, Get, GetConnection, OwnConnection, List, Finalize, ToggleConnection, ToggleReplication, Check,
         GetConfigMap, PutConfigMap, Unfinalize, Status;
    GetOk(s, e.p);
    GetConnectionOk(s, e.p);
    OwnConnectionOk(s, e.p);
    ListOk(s, e.p);
    FinalizeOk(s, e.p);
    ToggleConnectionOk(s, e.p);
    ToggleReplicationOk(s, e.p);
    CheckOk(s, e.p);
    UnfinalizeOk(s, e.p);
    StatusOk(s, e.p);
    if e.PPutConfigMap? {
      PutConfigMapOk(s, e.p, e.record);
    }
  }

  // ------------------------------------------------------------------ every step

  lemma TaskCarries(s: State, r: State, t: ProfileTask)
    requires TaskOk(s, t) && ConnectionsEvolve(s, r) && r.clock == s.clock + 1
    ensures TaskOk(r, t)
  {
  }

  lemma Carries(s: State, r: State, p: string)
    requires ConnectionsOk(s) && ConnectionsEvolve(s, r) && r.clock == s.clock + 1
    requires forall q :: q != p && q in r.profileTasks ==> q in s.profileTasks && r.profileTasks[q] == s.profileTasks[q]
    requires p in r.profileTasks ==> TaskOk(r, r.profileTasks[p])
    ensures ConnectionsOk(r)
  {
    hide TaskOk;
    forall q | q in r.profileTasks ensures TaskOk(r, r.profileTasks[q]) {
      if q != p {
        TaskCarries(s, r, s.profileTasks[q]);
      }
    }
  }

  lemma ProfileEventOk(s: State, e: Event)
    requires Inv(s) && ConnectionsOk(s) && OfProfile(e)
    ensures var r := Next(s, e);
            && ConnectionsOk(r) && OwnConnections(s, r, e.p) && OwnProfile(s, r, e.p)
            && r.replications == s.replications && r.replicationTasks == s.replicationTasks
  {
    hide StepProfile, Inv, OwnConnections, OwnProfile, ProfilesEvolve, FinalizersStay, OtherTasksStay, NoNewCleanUp, TaskOk;
    ProfileStepOk(s, e);
    var x, r := StepProfile(s, e), Next(s, e);
    assert OnlyTask(s, x, e.p);
    Later(s, x, r, e.p);
    Carries(s, r, e.p);
  }

  /** The clock does not matter to the objects. */
  lemma Later(s: State, x: State, r: State, p: string)
    requires r == x.(clock := s.clock + 1)
    ensures OwnConnections(s, r, p) <==> OwnConnections(s, x, p)
    ensures OwnProfile(s, r, p) <==> OwnProfile(s, x, p)
    ensures ConnectionsEvolve(s, r) <==> ConnectionsEvolve(s, x)
    ensures NextTaskOk(s, x, p) && p in r.profileTasks ==> TaskOk(r, r.profileTasks[p])
  {
    hide SameButOwner;
  }

  lemma OtherEventOk(s: State, e: Event)
    requires ConnectionsOk(s) && !OfProfile(e)
    ensures var r := Next(s, e);
            && ConnectionsOk(r)
            && (!e.PutConnection? && !e.DropConnection? ==> r.connections == s.connections)
  {
    hide StepProfile, StepReplication, StepMapping, StepDriver, StepEnvironment, ProfilesEvolve, FinalizersStay, Calm, TaskOk;
    var r := Next(s, e);
    assert ConnectionsEvolve(s, r);
    forall q | q in r.profileTasks ensures q in s.profileTasks && r.profileTasks[q] == s.profileTasks[q] {}
    forall q | q in r.profileTasks ensures TaskOk(r, r.profileTasks[q]) {
      TaskCarries(s, r, s.profileTasks[q]);
    }
  }

  lemma {:induction false} RunOk(s: State, events: seq<Event>)
    requires Inv(s) && ConnectionsOk(s)
    ensures Inv(After(s, events)) && ConnectionsOk(After(s, events))
  {
    hide Inv, ConnectionsOk, Next;
    if events != [] {
      var front, last := events[..|events| - 1], events[|events| - 1];
      RunOk(s, front);
      StepKeepsInv(After(s, front), last);
      if OfProfile(last) {
        ProfileEventOk(After(s, front), last);
      } else {
        OtherEventOk(After(s, front), last);
      }
    }
  }

  // --------------------------------------------------------------- replications

  /** Replications are as they were or newly written, and their tasks hold a copy they
      had or one just read. */
  lemma StaysFresh(s: State, r: State)
    requires ReadyElection.Fresh(s) && r.clock == s.clock + 1
    requires forall c :: c in r.replications ==>
               (c in s.replications && r.replications[c] == s.replications[c]) || r.replications[c].version == s.clock
    requires forall c :: c in r.replicationTasks ==>
               (c in s.replicationTasks && r.replicationTasks[c].self == s.replicationTasks[c].self) ||
               (c in s.replications && r.replicationTasks[c].self == s.replications[c] && r.replications == s.replications)
    ensures ReadyElection.Fresh(r)
  {
    forall c | c in r.replicationTasks ensures ReadyElection.CopyOk(r, c, r.replicationTasks[c].self) {
      if c in s.replicationTasks {
        assert ReadyElection.CopyOk(s, c, s.replicationTasks[c].self);
      }
    }
  }

  /** Only the phase of c may be different. */
  ghost predicate OnlyPhase(s: State, r: State, c: string) {
    && r.replications.Keys == s.replications.Keys
    && (forall d :: d != c && d in s.replications ==> r.replications[d] == s.replications[d])
    && (c in s.replications ==>
          r.replications[c].value == s.replications[c].value.(phase := r.replications[c].value.phase))
  }

  lemma ReplicationStatusOk(s: State, c: string, r: State)
    requires ReadyElection.Fresh(s) && r == ReplicationStatus(s, c).(clock := s.clock + 1)
    ensures ReadyElection.Fresh(r) && OnlyPhase(s, r, c)
  {
    ReadyElection.StatusKeepsFresh(s, c, r);
    if c in s.replicationTasks && s.replicationTasks[c].Decided? {
      assert ReadyElection.CopyOk(s, c, s.replicationTasks[c].self);
      ReadyElection.StatusIs(s, c, r);
      hide ReplicationStatus, OnlyReplicationTask;
    }
  }

  /** Only the task of c is different, and its copy is the one it had or the stored value. */
  ghost predicate OnlyReads(s: State, r: State, c: string) {
    && r.replications == s.replications
    && (forall d :: d in r.replicationTasks ==>
          (d in s.replicationTasks && r.replicationTasks[d].self == s.replicationTasks[d].self) ||
          (d in s.replications && r.replicationTasks[d].self == s.replications[d]))
  }

  lemma StartReads(s: State, c: string)
    ensures OnlyReads(s, GetReplication(s, c), c) && OnlyReads(s, FindProfile(s, c), c)
  {
    hide OnlyReplicationTask;
  }

  lemma ElectReads(s: State, c: string)
    ensures OnlyReads(s, Elect(s, c), c)
  {
    hide OnlyReplicationTask, Calm, Referenced, IsOldest;
    if c in s.replicationTasks && s.replicationTasks[c].ProfileFound? {
      assert Elect(s, c).replications == s.replications;
    }
  }

  lemma ReadingOk(s: State, x: State, r: State, c: string)
    requires ReadyElection.Fresh(s) && OnlyReads(s, x, c) && r == x.(clock := s.clock + 1)
    ensures ReadyElection.Fresh(r) && OnlyPhase(s, r, c)
  {
    StaysFresh(s, r);
  }

  lemma ReplicationEventOk(s: State, e: Event)
    requires ReadyElection.Fresh(s) && OfReplication(e)
    ensures var r := Next(s, e);
            && ReadyElection.Fresh(r) && OnlyPhase(s, r, e.c)
            && r.profiles == s.profiles && r.connections == s.connections
  {
    hide Next, OnlyPhase, OnlyReads, ReadyElection.Fresh, GetReplication, FindProfile, Elect, ReplicationStatus;
    ReplicationSteps(s, e);
    if e.RStatus? {
      ReplicationStatusOk(s, e.c, Next(s, e));
    } else if e.RElect? {
      ElectReads(s, e.c);
      ReadingOk(s, Elect(s, e.c), Next(s, e), e.c);
    } else {
      StartReads(s, e.c);
      ReadingOk(s, if e.RGet? then GetReplication(s, e.c) else FindProfile(s, e.c), Next(s, e), e.c);
    }
  }

  lemma WritersOk(s: State, e: Event)
    requires OfMapping(e) || OfDriver(e)
    ensures var r := Next(s, e);
            && r.profiles == s.profiles && r.connections == s.connections
            && r.replications == s.replications && r.replicationTasks == s.replicationTasks && r.clock == s.clock + 1
  {
    hide Next, StepMapping, StepDriver;
    WriterSteps(s, e);
  }

  lemma EnvironmentKeepsFresh(s: State, e: Event)
    requires ReadyElection.Fresh(s) && !OfProfile(e) && !OfReplication(e) && !OfMapping(e) && !OfDriver(e)
    ensures ReadyElection.Fresh(Next(s, e))
  {
    hide Next, ReadyElection.Fresh;
    EnvironmentSteps(s, e);
    if e.CreateReplication? || e.EditReplication? || e.DropReplication? {
      ReplicationsEvolve(s, e);
    }
    hide StepEnvironment;
    StaysFresh(s, Next(s, e));
  }

  lemma ReplicationsEvolve(s: State, e: Event)
    requires e.CreateReplication? || e.EditReplication? || e.DropReplication?
    ensures forall c :: c in StepEnvironment(s, e).replications ==>
              (c in s.replications && StepEnvironment(s, e).replications[c] == s.replications[c]) ||
              StepEnvironment(s, e).replications[c].version == s.clock
  {
    hide ProfilesEvolve, FinalizersStay, SameProfileTasks, StoreProfile;
  }

  lemma StepKeepsFresh(s: State, e: Event)
    requires ReadyElection.Fresh(s)
    ensures ReadyElection.Fresh(Next(s, e))
  {
    hide ReadyElection.Fresh, Step, OnlyPhase;
    if OfProfile(e) {
      ReadyElection.ElsewhereNothing(s, e);
      ReadyElection.Unrelated(s, Next(s, e));
    } else if OfReplication(e) {
      ReplicationEventOk(s, e);
    } else if OfMapping(e) || OfDriver(e) {
      WritersOk(s, e);
      ReadyElection.Unrelated(s, Next(s, e));
    } else {
      EnvironmentKeepsFresh(s, e);
    }
  }

  lemma {:induction false} RunKeepsFresh(s: State, events: seq<Event>)
    requires ReadyElection.Fresh(s)
    ensures ReadyElection.Fresh(After(s, events))
  {
    hide ReadyElection.Fresh, Next;
    if events != [] {
      RunKeepsFresh(s, events[..|events| - 1]);
      StepKeepsFresh(After(s, events[..|events| - 1]), events[|events| - 1]);
    }
  }

  // ---------------------------------------------------------------- main results

  ghost predicate InOrder(s: State) {
    Inv(s) && ConnectionsOk(s) && ReadyElection.Fresh(s)
  }

  lemma ReachableIsInOrder(namespace: string, events: seq<Event>)
    ensures InOrder(After(Initial(namespace), events))
  {
    StartsInOrder(namespace);
    hide Inv, ConnectionsOk, ReadyElection.Fresh, After;
    RunOk(Initial(namespace), events);
    RunKeepsFresh(Initial(namespace), events);
  }

  lemma StartsInOrder(namespace: string)
    ensures InOrder(Initial(namespace))
  {
  }

  /** Whatever is in flight, a controller's step changes of a connection the owner
      reference of its own profile, of its own profile the cleanup finalizer, of its own
      replication the phase, always relative to the current value, and nothing else. */
  lemma UpdatesAreRelative(namespace: string, events: seq<Event>, e: Event)
    ensures var s := After(Initial(namespace), events);
            var r := Next(s, e);
            && (OfProfile(e) ==> OwnConnections(s, r, e.p) && OwnProfile(s, r, e.p) && r.replications == s.replications)
            && (OfReplication(e) ==> OnlyPhase(s, r, e.c) && r.profiles == s.profiles && r.connections == s.connections)
            && (OfMapping(e) || OfDriver(e) ==>
                  r.profiles == s.profiles && r.connections == s.connections && r.replications == s.replications)
  {
    ReachableIsInOrder(namespace, events);
    hide After, Next, OwnConnections, OwnProfile, OnlyPhase, Inv, ConnectionsOk, ReadyElection.Fresh;
    var s := After(Initial(namespace), events);
    if OfProfile(e) {
      ProfileEventOk(s, e);
    } else if OfReplication(e) {
      ReplicationEventOk(s, e);
    } else if OfMapping(e) || OfDriver(e) {
      WritersOk(s, e);
    }
  }

  /** No user writes to p, to the connection n or to the replication c. */
  ghost predicate Leaves(e: Event, p: string, n: string, c: string) {
    && !((e.EditProfile? || e.DeleteProfile?) && e.p == p)
    && !((e.PutConnection? || e.DropConnection?) && e.name == n)
    && !((e.EditReplication? || e.DropReplication?) && e.c == c)
  }

  /** They are still there with what the user wrote. */
  ghost predicate UserPartKept(s: State, r: State, p: string, n: string, c: string) {
    && (p in s.profiles && !s.profiles[p].value.deleting ==>
          p in r.profiles && r.profiles[p].value == s.profiles[p].value.(cleanup := r.profiles[p].value.cleanup))
    && (n in s.connections ==> n in r.connections && r.connections[n].value.spec == s.connections[n].value.spec)
    && (c in s.replications ==>
          c in r.replications &&
          r.replications[c].value == s.replications[c].value.(phase := r.replications[c].value.phase))
  }

  lemma StoreKeepsOthers(s: State, q: string, value: Profile, p: string)
    requires q in s.profiles && p in s.profiles && p != q
    ensures var r := StoreProfile(s, q, value); p in r.profiles && r.profiles[p] == s.profiles[p]
  {
    hide Write;
  }

  lemma EnvironmentKeepsProfile(s: State, e: Event, p: string)
    requires p in s.profiles && !((e.EditProfile? || e.DeleteProfile?) && e.p == p)
    ensures var r := StepEnvironment(s, e); p in r.profiles && r.profiles[p] == s.profiles[p]
  {
    hide ProfilesEvolve, FinalizersStay, SameProfileTasks, Write, StoreProfile;
    if e.EditProfile? && e.p in s.profiles {
      StoreKeepsOthers(s, e.p, s.profiles[e.p].value.(foreign := e.foreign, spec := e.spec), p);
    } else if e.DeleteProfile? && e.p in s.profiles {
      StoreKeepsOthers(s, e.p, s.profiles[e.p].value.(deleting := true), p);
    }
  }

  lemma EnvironmentKeepsReplication(s: State, e: Event, c: string)
    requires c in s.replications && !((e.EditReplication? || e.DropReplication?) && e.c == c)
    ensures var r := StepEnvironment(s, e); c in r.replications && r.replications[c] == s.replications[c]
  {
    hide ProfilesEvolve, FinalizersStay, SameProfileTasks, Write, StoreProfile;
  }

  lemma EnvironmentKeepsUserPart(s: State, e: Event, p: string, n: string, c: string)
    requires !OfProfile(e) && !OfReplication(e) && !OfMapping(e) && !OfDriver(e) && Leaves(e, p, n, c)
    ensures UserPartKept(s, StepEnvironment(s, e), p, n, c)
  {
    hide StepEnvironment, ProfilesEvolve, FinalizersStay, SameProfileTasks;
    if p in s.profiles {
      EnvironmentKeepsProfile(s, e, p);
    }
    if c in s.replications {
      EnvironmentKeepsReplication(s, e, c);
    }
  }

  lemma StepKeepsUserPart(s: State, e: Event, p: string, n: string, c: string)
    requires InOrder(s) && Leaves(e, p, n, c)
    ensures UserPartKept(s, Next(s, e), p, n, c)
  {
    hide Next, Inv, ConnectionsOk, ReadyElection.Fresh, Others, StepEnvironment;
    if OfProfile(e) {
      ProfileEventOk(s, e);
    } else if OfReplication(e) {
      ReplicationEventOk(s, e);
    } else if OfMapping(e) || OfDriver(e) {
      WritersOk(s, e);
    } else {
      EnvironmentSteps(s, e);
      EnvironmentKeepsUserPart(s, e, p, n, c);
    }
  }

  lemma StepKeepsOrder(s: State, e: Event)
    requires InOrder(s)
    ensures InOrder(Next(s, e))
  {
    hide Next, Inv, ConnectionsOk, ReadyElection.Fresh, OwnConnections, OwnProfile;
    StepKeepsInv(s, e);
    StepKeepsFresh(s, e);
    if OfProfile(e) {
      ProfileEventOk(s, e);
    } else {
      OtherEventOk(s, e);
    }
  }

  /** No interleaving of the controllers loses what users wrote: a profile keeps its
      specification, a connection its own, a replication everything but its phase, as
      long as users themselves leave them alone. */
  lemma {:induction false} UserEditsAreNotLost(s: State, events: seq<Event>, p: string, n: string, c: string)
    requires InOrder(s) && forall i :: 0 <= i < |events| ==> Leaves(events[i], p, n, c)
    ensures InOrder(After(s, events)) && UserPartKept(s, After(s, events), p, n, c)
  {
    hide Next, InOrder, Leaves;
    if events != [] {
      var front, last := events[..|events| - 1], events[|events| - 1];
      UserEditsAreNotLost(s, front, p, n, c);
      StepKeepsUserPart(After(s, front), last, p, n, c);
      StepKeepsOrder(After(s, front), last);
    }
  }
}
