/** One undisturbed reconcile of a client profile, and what any sequence of them
    makes of the shared configuration. */
module ProfileRounds {
  import opened Prelude
  import opened OwnerReferences
  import opened ClusterInfo
  import opened ConfigMapWriters
  import opened Protocol
  import opened Election

  /** What a reconcile of p composes its record from. */
  ghost function InputsAt(s: State, p: string): Inputs
    requires p in s.profiles && s.profiles[p].value.spec.connection in s.connections
  {
    var spec := s.profiles[p].value.spec;
    var ready := ReadyReplication(s, p);
    Inputs(p, spec, s.connections[spec.connection].value.spec,
           if ready.None? then None else Some((ready.value.spec, ready.value.phase)))
  }

  /** An owner that is recorded is recorded under its own name. */
  predicate Removable(owners: seq<Ref>, owner: Owner) {
    HasUid(owners, owner.uid) ==> OwnerReferences.IndexOf(owners, owner.key) != -1
  }

  ghost function OwnerOf(s: State, p: string): Owner
    requires p in s.profiles
  {
    ProfileOwner(s, p, s.profiles[p].value.uid)
  }

  /** Nothing stands in the way of a reconcile of p: its connection exists, the shared
      configuration parses, at most one replication is Ready. A deletion also needs
      that no replication refers to p. */
  ghost predicate Unblocked(s: State, p: string) {
    && p in s.profiles && p !in s.profileTasks
    && s.profiles[p].value.spec.connection != "" && s.profiles[p].value.spec.connection in s.connections
    && !MultipleReady(s, p) && !Base(s.cm).config.Foreign?
    && (s.profiles[p].value.deleting ==>
          && !Referenced(s, p)
          && Removable(Base(s.cm).owners, OwnerOf(s, p))
          && Removable(s.connections[s.profiles[p].value.spec.connection].value.owners, OwnerOf(s, p)))
  }

  ghost predicate RecordFits(s: State, p: string, record: Record)
    requires p in s.profiles && s.profiles[p].value.spec.connection in s.connections
  {
    !s.profiles[p].value.deleting ==> IsRecordOf(record, InputsAt(s, p))
  }

  // ------------------------------------------------------------ along the round

  ghost function ConnectionName(s: State, p: string): string
    requires p in s.profiles
  {
    s.profiles[p].value.spec.connection
  }

  /** s with the task t for p; p and its connection are as given, the clock shows n. */
  ghost function Mid(s: State, p: string, t: ProfileTask, connection: Stored<Connection>, n: nat): (r: State)
    requires p in s.profiles
    ensures r.clock == n
  {
    s.(profileTasks := s.profileTasks[p := t],
       profiles := s.profiles[p := t.self],
       connections := s.connections[ConnectionName(s, p) := connection],
       clock := n)
  }

  lemma UpdateTwice<K, V>(m: map<K, V>, k: K, a: V, b: V)
    ensures m[k := a][k := b] == m[k := b]
  {
  }

  lemma UpdateSame<K, V>(m: map<K, V>, k: K)
    requires k in m
    ensures m[k := m[k]] == m
  {
  }

  lemma MidMoves(s: State, p: string, t: ProfileTask, u: ProfileTask, a: Stored<Connection>, b: Stored<Connection>,
                 n: nat)
    requires p in s.profiles
    ensures var m := Mid(s, p, t, a, n);
            m.(profileTasks := m.profileTasks[p := u], profiles := m.profiles[p := u.self],
               connections := m.connections[ConnectionName(s, p) := b]) == Mid(s, p, u, b, n)
    ensures u.self == t.self ==> var m := Mid(s, p, t, a, n);
            m.(profileTasks := m.profileTasks[p := u], connections := m.connections[ConnectionName(s, p) := b]) ==
            Mid(s, p, u, b, n)
    ensures u.self == t.self ==> var m := Mid(s, p, t, a, n); Set(m, p, u) == Mid(s, p, u, a, n)
    ensures var m := Mid(s, p, t, a, n);
            m.(profileTasks := m.profileTasks[p := u], profiles := m.profiles[p := u.self]) == Mid(s, p, u, a, n)
  {
    UpdateTwice(s.profileTasks, p, t, u);
    UpdateTwice(s.profiles, p, t.self, u.self);
    UpdateTwice(s.connections, ConnectionName(s, p), a, b);
  }

  ghost function Begun(s: State, p: string): ProfileTask
    requires p in s.profiles
  {
    ProfileTask(GotProfile, s.profiles[p], s.profiles[p].value.deleting, NO_CONNECTION, None, None)
  }

  lemma RoundGets(s: State, p: string)
    requires Unblocked(s, p)
    ensures Get(s, p).(clock := s.clock + 1) == Mid(s, p, Begun(s, p), s.connections[ConnectionName(s, p)], s.clock + 1)
  {
    UpdateSame(s.profiles, p);
    UpdateSame(s.connections, ConnectionName(s, p));
  }

  lemma RoundGetsConnection(s: State, p: string, t: ProfileTask, k: Stored<Connection>, n: nat)
    requires Unblocked(s, p) && t.stage == GotProfile && t.self == s.profiles[p]
    ensures GetConnection(Mid(s, p, t, k, n), p).(clock := n + 1) ==
            Mid(s, p, t.(stage := GotConnection, connection := k), k, n + 1)
  {
    MidMoves(s, p, t, t.(stage := GotConnection, connection := k), k, k, n);
    hide Set;
  }

  /** The owners once `owner` is on the list. */
  ghost function WithOwner(owners: seq<Ref>, owner: Owner): seq<Ref> {
    if HasUid(owners, owner.uid) then owners else OwnerReferences.Upsert(owners, Ref(owner.key, owner.uid))
  }

  ghost function SetOwners(k: Stored<Connection>, owners: seq<Ref>, n: nat): (r: Stored<Connection>)
    ensures r.value.owners == owners && r.value.spec == k.value.spec
  {
    Write(k, k.value.(owners := owners), n)
  }

  lemma RoundOwnsConnection(s: State, p: string, t: ProfileTask, k: Stored<Connection>, n: nat)
    requires Unblocked(s, p) && t.stage == GotConnection && t.self == s.profiles[p] && t.connection == k
    ensures var k' := SetOwners(k, WithOwner(k.value.owners, OwnerOf(s, p)), n);
            OwnConnection(Mid(s, p, t, k, n), p).(clock := n + 1) ==
            Mid(s, p, t.(stage := OwnedConnection, connection := k'), k', n + 1)
  {
    var k' := SetOwners(k, WithOwner(k.value.owners, OwnerOf(s, p)), n);
    MidMoves(s, p, t, t.(stage := OwnedConnection, connection := k'), k, k', n);
    hide Set, OwnerReferences.Upsert;
  }

  /** The listing depends on the replications alone. */
  lemma SameListing(s0: State, s: State, p: string)
    requires s.replications == s0.replications
    ensures MultipleReady(s, p) <==> MultipleReady(s0, p)
    ensures !MultipleReady(s0, p) ==> ReadyReplication(s, p) == ReadyReplication(s0, p)
    ensures Referenced(s, p) <==> Referenced(s0, p)
    ensures !Referenced(s0, p) ==> ReadyReplication(s0, p) == None
  {
    assert forall c :: ReadyFor(s, c, p) <==> ReadyFor(s0, c, p);
    assert forall c :: References(s, c, p) <==> References(s0, c, p);
  }

  lemma RoundLists(s: State, p: string, t: ProfileTask, k: Stored<Connection>, n: nat)
    requires Unblocked(s, p) && t.stage == OwnedConnection && t.self == s.profiles[p]
    ensures List(Mid(s, p, t, k, n), p).(clock := n + 1) ==
            Mid(s, p, t.(stage := Listed, replication := ReadyReplication(s, p)), k, n + 1)
  {
    SameListing(s, Mid(s, p, t, k, n), p);
    MidMoves(s, p, t, t.(stage := Listed, replication := ReadyReplication(s, p)), k, k, n);
    hide Set, MultipleReady, ReadyReplication, Referenced;
  }

  ghost function WithFinalizer(self: Stored<Profile>, n: nat): Stored<Profile> {
    if self.value.deleting then self else Write(self, self.value.(cleanup := true), n)
  }

  lemma RoundFinalizes(s: State, p: string, t: ProfileTask, k: Stored<Connection>, n: nat)
    requires Unblocked(s, p) && t.stage == Listed && t.self == s.profiles[p] && t.cleanUp == t.self.value.deleting
    ensures Finalize(Mid(s, p, t, k, n), p).(clock := n + 1) ==
            Mid(s, p, t.(stage := Finalized, self := WithFinalizer(t.self, n)), k, n + 1)
  {
    MidMoves(s, p, t, t.(stage := Finalized, self := WithFinalizer(t.self, n)), k, k, n);
    hide Set;
  }

  /** The toggle for p's owner reference. */
  ghost function ToggleFor(s: State, p: string, owners: seq<Ref>): Outcome
    requires p in s.profiles
  {
    Toggle(!s.profiles[p].value.deleting, owners, OwnerOf(s, p), s.namespace)
  }

  lemma ToggleGoesThrough(s: State, p: string, owners: seq<Ref>)
    requires p in s.profiles && (s.profiles[p].value.deleting ==> Removable(owners, OwnerOf(s, p)))
    ensures !ToggleFor(s, p, owners).failed
    ensures !ToggleFor(s, p, owners).changed ==> ToggleFor(s, p, owners).refs == owners
  {
  }

  /** t is a task of p's present reconcile. */
  ghost predicate Own(s: State, p: string, t: ProfileTask)
    requires p in s.profiles
  {
    && t.cleanUp == s.profiles[p].value.deleting
    && t.self.value == s.profiles[p].value.(cleanup := t.self.value.cleanup)
  }

  lemma RoundAfterToggle(s: State, p: string, t: ProfileTask, k: Stored<Connection>, n: nat,
                         o: Outcome, owners: seq<Ref>, stage: Stage)
    requires p in s.profiles && t.self.value.spec.connection == ConnectionName(s, p) && t.connection == k
    requires (t.stage == Finalized && stage == ToggledConnection) ||
             (t.stage == ToggledConnection && stage == ToggledReplication)
    requires !o.failed && (!o.changed ==> owners == k.value.owners)
    ensures var k' := SetOwners(k, owners, n);
            AfterToggle(Mid(s, p, t, k, n), p, t, o, owners, stage).(clock := n + 1) ==
            Mid(s, p, t.(stage := stage, connection := k'), k', n + 1)
  {
    var k' := SetOwners(k, owners, n);
    MidMoves(s, p, t, t.(stage := stage, connection := k'), k, k', n);
    hide Set;
  }

  lemma RoundTogglesConnection(s: State, p: string, t: ProfileTask, k: Stored<Connection>, n: nat)
    requires Unblocked(s, p) && t.stage == Finalized && Own(s, p, t) && t.connection == k
    requires s.profiles[p].value.deleting ==> Removable(k.value.owners, OwnerOf(s, p))
    ensures var k' := SetOwners(k, ToggleFor(s, p, k.value.owners).refs, n);
            ToggleConnection(Mid(s, p, t, k, n), p).(clock := n + 1) ==
            Mid(s, p, t.(stage := ToggledConnection, connection := k'), k', n + 1)
  {
    hide AfterToggle, Toggle, Removable, SetOwners, MultipleReady, Referenced;
    var o := ToggleFor(s, p, k.value.owners);
    ToggleGoesThrough(s, p, k.value.owners);
    RoundAfterToggle(s, p, t, k, n, o, o.refs, ToggledConnection);
  }

  lemma RoundTogglesReplication(s: State, p: string, t: ProfileTask, k: Stored<Connection>, n: nat)
    requires Unblocked(s, p) && t.stage == ToggledConnection && Own(s, p, t) && t.connection == k
    requires t.cleanUp ==> t.replication == None
    ensures ToggleReplication(Mid(s, p, t, k, n), p).(clock := n + 1) ==
            Mid(s, p, t.(stage := ToggledReplication), k, n + 1)
  {
    hide AfterToggle, Toggle, Removable, MultipleReady, Referenced;
    if t.replication.Some? {
      ToggleGoesThrough(s, p, t.replication.value.owners);
      var o := ToggleFor(s, p, t.replication.value.owners);
      RoundAfterToggle(s, p, t, k, n, o, k.value.owners, ToggledReplication);
    } else {
      MidMoves(s, p, t, t.(stage := ToggledReplication), k, k, n);
    }
  }

  lemma RoundChecks(s: State, p: string, t: ProfileTask, k: Stored<Connection>, n: nat)
    requires Unblocked(s, p) && t.stage == ToggledReplication && Own(s, p, t)
    ensures Check(Mid(s, p, t, k, n), p).(clock := n + 1) == Mid(s, p, t.(stage := Checked), k, n + 1)
  {
    SameListing(s, Mid(s, p, t, k, n), p);
    MidMoves(s, p, t, t.(stage := Checked), k, k, n);
    hide Set, Referenced;
  }

  lemma RoundGetsConfigMap(s: State, p: string, t: ProfileTask, k: Stored<Connection>, n: nat)
    requires Unblocked(s, p) && t.stage == Checked
    ensures GetConfigMap(Mid(s, p, t, k, n), p).(clock := n + 1) ==
            Mid(s, p, t.(stage := GotConfigMap, snapshot := s.cm), k, n + 1)
  {
    MidMoves(s, p, t, t.(stage := GotConfigMap, snapshot := s.cm), k, k, n);
    hide Set;
  }

  /** The shared value once p's reconcile has edited it. */
  ghost function Edited(s: State, p: string, record: Record): ConfigMapValue
    requires Unblocked(s, p)
  {
    var v, o := Base(s.cm), ToggleFor(s, p, Base(s.cm).owners);
    var list := Records(v.config);
    v.(owners := o.refs,
       config := Json(if s.profiles[p].value.deleting then SwapDelete(list, p) else ClusterInfo.Upsert(list, record)))
  }

  /** The config map after the commit: written only if something changed. */
  ghost function Committed(s: State, p: string, record: Record, n: nat): Option<Stored<ConfigMapValue>>
    requires Unblocked(s, p)
  {
    if s.cm.Some? && s.cm.value.value == Edited(s, p, record) then s.cm else Some(Stored(n, Edited(s, p, record)))
  }

  lemma EditGoesThrough(s: State, p: string, record: Record)
    requires Unblocked(s, p)
    ensures ProfileEdit(Base(s.cm), s.namespace, s.profiles[p].value.deleting, OwnerOf(s, p), record) ==
            Some(Edited(s, p, record))
  {
    ToggleGoesThrough(s, p, Base(s.cm).owners);
    hide Toggle, Removable, SwapDelete, ClusterInfo.Upsert;
  }

  lemma RoundPuts(s: State, p: string, t: ProfileTask, k: Stored<Connection>, n: nat, record: Record)
    requires Unblocked(s, p) && t.stage == GotConfigMap && Own(s, p, t) && t.snapshot == s.cm
    requires !t.cleanUp ==> IsRecordOf(record, InputsOf(p, t))
    ensures PutConfigMap(Mid(s, p, t, k, n), p, record) ==
            Mid(s, p, t.(stage := WroteConfigMap), k, n).(cm := Committed(s, p, record, n))
  {
    EditGoesThrough(s, p, record);
    MidMoves(s, p, t, t.(stage := WroteConfigMap), k, k, n);
    hide Edited, ProfileEdit, IsRecordOf;
  }

  /** Of s, only p, its connection's owners and the config map are different in r. */
  ghost predicate OnlyItsOwn(s: State, r: State, p: string)
    requires p in s.profiles && ConnectionName(s, p) in s.connections
  {
    var name := ConnectionName(s, p);
    && r == s.(profiles := r.profiles, connections := r.connections, cm := r.cm, clock := r.clock)
    && name in r.connections && r.connections == s.connections[name := r.connections[name]]
    && r.connections[name].value.spec == s.connections[name].value.spec
  }

  /** A live profile has the finalizer; of a deleted one the finalizer is gone, and it
      too unless another finalizer holds it. */
  ghost predicate ProfileDone(s: State, r: State, p: string)
    requires p in s.profiles
  {
    var v := s.profiles[p].value;
    if v.deleting && !v.foreign then r.profiles == s.profiles - {p}
    else
      && p in r.profiles && r.profiles == s.profiles[p := r.profiles[p]]
      && r.profiles[p].value == v.(cleanup := !v.deleting)
  }

  ghost predicate Idle(s: State, p: string) {
    p in s.profiles && p !in s.profileTasks && ConnectionName(s, p) in s.connections
  }

  /** The last copy: for a deletion without the cleanup finalizer. */
  ghost function WithoutFinalizer(self: Stored<Profile>, n: nat): Stored<Profile> {
    if self.value.deleting then Write(self, self.value.(cleanup := false), n) else self
  }

  lemma RoundUnfinalizes(s: State, p: string, t: ProfileTask, k: Stored<Connection>, n: nat)
    requires Idle(s, p) && t.stage == WroteConfigMap && Own(s, p, t)
    requires !t.cleanUp || t.self.value.foreign
    ensures Unfinalize(Mid(s, p, t, k, n), p) ==
            Mid(s, p, t.(stage := Finishing, self := WithoutFinalizer(t.self, n)), k, n)
  {
    MidMoves(s, p, t, t.(stage := Finishing, self := WithoutFinalizer(t.self, n)), k, k, n);
    hide Set;
  }

  /** s once p's reconcile is over. */
  ghost function Over(s: State, p: string, profiles: map<string, Stored<Profile>>, k: Stored<Connection>, n: nat): State
    requires p in s.profiles
  {
    s.(profiles := profiles, connections := s.connections[ConnectionName(s, p) := k], clock := n)
  }

  lemma RoundWritesStatus(s: State, p: string, t: ProfileTask, k: Stored<Connection>, n: nat)
    requires Idle(s, p) && t.stage == Finishing
    ensures Status(Mid(s, p, t, k, n), p) == Over(s, p, s.profiles[p := Stored(n, t.self.value)], k, n)
  {
    UpdateTwice(s.profiles, p, t.self, Stored(n, t.self.value));
    InsertThenRemove(s.profileTasks, p, t);
  }

  /** Without another finalizer the profile goes away, and its status cannot be written. */
  lemma RoundDeletes(s: State, p: string, t: ProfileTask, k: Stored<Connection>, n: nat)
    requires Idle(s, p) && t.stage == WroteConfigMap && Own(s, p, t) && t.cleanUp && !t.self.value.foreign
    ensures Unfinalize(Mid(s, p, t, k, n), p) ==
            Over(s, p, s.profiles - {p}, k, n).(profileTasks := s.profileTasks[p := t.(stage := Finishing)])
  {
    InsertThenRemove(s.profiles, p, t.self);
    UpdateTwice(s.profileTasks, p, t, t.(stage := Finishing));
  }

  lemma RoundFindsNoStatus(s: State, p: string, t: ProfileTask, k: Stored<Connection>, n: nat)
    requires Idle(s, p) && t.stage == Finishing
    ensures Status(Over(s, p, s.profiles - {p}, k, n).(profileTasks := s.profileTasks[p := t]), p) ==
            Over(s, p, s.profiles - {p}, k, n)
  {
    InsertThenRemove(s.profileTasks, p, t);
  }

  lemma RoundEnds(s: State, p: string, t: ProfileTask, k: Stored<Connection>, n: nat)
    requires Idle(s, p) && t.stage == WroteConfigMap && Own(s, p, t)
    requires !t.cleanUp ==> t.self.value.cleanup
    requires k.value.spec == s.connections[ConnectionName(s, p)].value.spec
    ensures var r := Status(Unfinalize(Mid(s, p, t, k, n), p).(clock := n + 1), p);
            && OnlyItsOwn(s, r, p) && ProfileDone(s, r, p) && r.cm == s.cm
            && r.connections[ConnectionName(s, p)] == k
  {
    hide Unfinalize, Status;
    if t.cleanUp && !t.self.value.foreign {
      RoundDeletes(s, p, t, k, n);
      RoundFindsNoStatus(s, p, t.(stage := Finishing), k, n + 1);
    } else {
      RoundUnfinalizes(s, p, t, k, n);
      RoundWritesStatus(s, p, t.(stage := Finishing, self := WithoutFinalizer(t.self, n)), k, n + 1);
    }
  }

  // ---------------------------------------------------------------- the round

  ghost function Loaded(s: State, p: string): State {
    Next(Next(Next(Next(s, PGet(p)), PGetConnection(p)), POwnConnection(p)), PList(p))
  }

  ghost function Prepared(s: State, p: string): State {
    var s1 := Next(Next(Loaded(s, p), PFinalize(p)), PToggleConnection(p));
    Next(Next(Next(s1, PToggleReplication(p)), PCheck(p)), PGetConfigMap(p))
  }


  ghost function Finished(s: State, p: string, record: Record): State {
    Next(Next(Next(s, PPutConfigMap(p, record)), PUnfinalize(p)), PStatus(p))
  }

  /** The twelve steps of one reconcile of p with nothing in between. */
  ghost function Round(s: State, p: string, record: Record): State {
    Finished(Prepared(s, p), p, record)
  }

  lemma RoundLoads(s: State, p: string)
    requires Unblocked(s, p)
    ensures var k := s.connections[ConnectionName(s, p)];
            Next(Next(s, PGet(p)), PGetConnection(p)) ==
            Mid(s, p, Begun(s, p).(stage := GotConnection, connection := k), k, s.clock + 2)
  {
    hide Next, Get, GetConnection;
    var k := s.connections[ConnectionName(s, p)];
    ProfileSteps(s, PGet(p));
    RoundGets(s, p);
    ProfileSteps(Next(s, PGet(p)), PGetConnection(p));
    RoundGetsConnection(s, p, Begun(s, p), k, s.clock + 1);
  }

  lemma RoundOwnsAndLists(s: State, p: string, t: ProfileTask, k: Stored<Connection>, n: nat)
    requires Unblocked(s, p) && t.stage == GotConnection && t.self == s.profiles[p] && t.connection == k
    ensures var k' := SetOwners(k, WithOwner(k.value.owners, OwnerOf(s, p)), n);
            Next(Next(Mid(s, p, t, k, n), POwnConnection(p)), PList(p)) ==
            Mid(s, p, t.(stage := Listed, connection := k', replication := ReadyReplication(s, p)), k', n + 2)
  {
    hide Next, Mid, OwnConnection, List, SetOwners, WithOwner, ReadyReplication;
    var k' := SetOwners(k, WithOwner(k.value.owners, OwnerOf(s, p)), n);
    ProfileSteps(Mid(s, p, t, k, n), POwnConnection(p));
    RoundOwnsConnection(s, p, t, k, n);
    ProfileSteps(Next(Mid(s, p, t, k, n), POwnConnection(p)), PList(p));
    RoundLists(s, p, t.(stage := OwnedConnection, connection := k'), k', n + 1);
  }

  lemma RoundFinalizesAndToggles(s: State, p: string, t: ProfileTask, k: Stored<Connection>, n: nat)
    requires Unblocked(s, p) && t.stage == Listed && t.self == s.profiles[p] && t.cleanUp == t.self.value.deleting
    requires t.connection == k && (s.profiles[p].value.deleting ==> Removable(k.value.owners, OwnerOf(s, p)))
    ensures var k' := SetOwners(k, ToggleFor(s, p, k.value.owners).refs, n + 1);
            Next(Next(Mid(s, p, t, k, n), PFinalize(p)), PToggleConnection(p)) ==
            Mid(s, p, t.(stage := ToggledConnection, connection := k', self := WithFinalizer(t.self, n)), k', n + 2)
  {
    hide Next, Mid, Finalize, ToggleConnection, Removable, SetOwners, ToggleFor;
    ProfileSteps(Mid(s, p, t, k, n), PFinalize(p));
    RoundFinalizes(s, p, t, k, n);
    ProfileSteps(Next(Mid(s, p, t, k, n), PFinalize(p)), PToggleConnection(p));
    RoundTogglesConnection(s, p, t.(stage := Finalized, self := WithFinalizer(t.self, n)), k, n + 1);
  }

  lemma RoundReadsConfigMap(s: State, p: string, t: ProfileTask, k: Stored<Connection>, n: nat)
    requires Unblocked(s, p) && t.stage == ToggledConnection && Own(s, p, t) && t.connection == k
    requires t.cleanUp ==> t.replication == None
    ensures Next(Next(Next(Mid(s, p, t, k, n), PToggleReplication(p)), PCheck(p)), PGetConfigMap(p)) ==
            Mid(s, p, t.(stage := GotConfigMap, snapshot := s.cm), k, n + 3)
  {
    hide Next, Mid, ToggleReplication, Check, GetConfigMap;
    var m := Mid(s, p, t, k, n);
    ProfileSteps(m, PToggleReplication(p));
    RoundTogglesReplication(s, p, t, k, n);
    ProfileSteps(Next(m, PToggleReplication(p)), PCheck(p));
    RoundChecks(s, p, t.(stage := ToggledReplication), k, n + 1);
    ProfileSteps(Next(Next(m, PToggleReplication(p)), PCheck(p)), PGetConfigMap(p));
    RoundGetsConfigMap(s, p, t.(stage := Checked), k, n + 2);
  }

  /** Neither the config map nor the clock matters to what else has changed. */
  lemma WithOtherConfigMap(s: State, w: State, r: State, r': State, p: string)
    requires p in s.profiles && ConnectionName(s, p) in s.connections && w == s.(cm := w.cm)
    requires OnlyItsOwn(w, r, p) && ProfileDone(w, r, p) && r' == r.(clock := r'.clock)
    ensures OnlyItsOwn(s, r', p) && ProfileDone(s, r', p)
    ensures r'.cm == r.cm && r'.connections == r.connections
  {
  }

  lemma RoundPutsNext(s: State, p: string, t: ProfileTask, k: Stored<Connection>, n: nat, record: Record)
    requires Unblocked(s, p) && t.stage == GotConfigMap && Own(s, p, t) && t.snapshot == s.cm
    requires !t.cleanUp ==> IsRecordOf(record, InputsOf(p, t))
    ensures Next(Mid(s, p, t, k, n), PPutConfigMap(p, record)) ==
            Mid(s.(cm := Committed(s, p, record, n)), p, t.(stage := WroteConfigMap), k, n + 1)
  {
    hide Next, PutConfigMap, IsRecordOf, Committed;
    ProfileSteps(Mid(s, p, t, k, n), PPutConfigMap(p, record));
    RoundPuts(s, p, t, k, n, record);
  }

  lemma RoundCommits(s: State, p: string, t: ProfileTask, k: Stored<Connection>, n: nat, record: Record)
    requires Unblocked(s, p) && t.stage == GotConfigMap && Own(s, p, t) && t.snapshot == s.cm
    requires !t.cleanUp ==> t.self.value.cleanup && IsRecordOf(record, InputsOf(p, t))
    requires k.value.spec == s.connections[ConnectionName(s, p)].value.spec
    ensures var r := Finished(Mid(s, p, t, k, n), p, record);
            && r.clock == n + 3 && OnlyItsOwn(s, r, p) && ProfileDone(s, r, p) && r.cm == Committed(s, p, record, n)
            && r.connections[ConnectionName(s, p)] == k
  {
    hide Next, Unfinalize, Status, IsRecordOf, Committed, Mid, OnlyItsOwn, ProfileDone;
    RoundPutsNext(s, p, t, k, n, record);
    var w := s.(cm := Committed(s, p, record, n));
    var m := Mid(w, p, t.(stage := WroteConfigMap), k, n + 1);
    ProfileSteps(m, PUnfinalize(p));
    ProfileSteps(Next(m, PUnfinalize(p)), PStatus(p));
    RoundEnds(w, p, t.(stage := WroteConfigMap), k, n + 1);
    WithOtherConfigMap(s, w, Status(Next(m, PUnfinalize(p)), p), Finished(Mid(s, p, t, k, n), p, record), p);
  }

  /** The owners of the connection: p is recorded while it loads, and toggled off again
      if p is being deleted. */
  ghost predicate ConnectionDone(s: State, r: State, p: string)
    requires Unblocked(s, p) && OnlyItsOwn(s, r, p)
  {
    var name := ConnectionName(s, p);
    r.connections[name].value.owners ==
    ToggleFor(s, p, WithOwner(s.connections[name].value.owners, OwnerOf(s, p))).refs
  }

  /** What one reconcile of p does when nothing interferes: it edits p's part of the
      config map, its connection's owners and p's finalizer, and nothing else. */
  ghost predicate RoundResult(s: State, r: State, p: string, record: Record)
    requires Unblocked(s, p)
  {
    && OnlyItsOwn(s, r, p) && ProfileDone(s, r, p) && ConnectionDone(s, r, p)
    && (exists n: nat :: s.clock <= n < r.clock && r.cm == Committed(s, p, record, n))
  }

  /** The connection as the reconcile leaves it. */
  ghost function ConnectionAfter(s: State, p: string): Stored<Connection>
    requires Unblocked(s, p)
  {
    var k := s.connections[ConnectionName(s, p)];
    var k1 := SetOwners(k, WithOwner(k.value.owners, OwnerOf(s, p)), s.clock + 2);
    SetOwners(k1, ToggleFor(s, p, k1.value.owners).refs, s.clock + 5)
  }

  /** The task when it is about to write the config map. */
  ghost function TaskBeforePut(s: State, p: string): ProfileTask
    requires Unblocked(s, p)
  {
    ProfileTask(GotConfigMap, WithFinalizer(s.profiles[p], s.clock + 4), s.profiles[p].value.deleting,
                ConnectionAfter(s, p), ReadyReplication(s, p), s.cm)
  }

  lemma RoundPrepares(s: State, p: string)
    requires Unblocked(s, p)
    ensures Prepared(s, p) == Mid(s, p, TaskBeforePut(s, p), ConnectionAfter(s, p), s.clock + 9)
  {
    hide Next, Mid, Removable, ToggleFor, SetOwners, WithOwner, ReadyReplication, MultipleReady, Referenced, HasUid;
    var k, c := s.connections[ConnectionName(s, p)], s.clock;
    var t := Begun(s, p).(stage := GotConnection, connection := k);
    var k1 := SetOwners(k, WithOwner(k.value.owners, OwnerOf(s, p)), c + 2);
    RoundLoads(s, p);
    RoundOwnsAndLists(s, p, t, k, c + 2);
    var t1 := t.(stage := Listed, connection := k1, replication := ReadyReplication(s, p));
    if s.profiles[p].value.deleting {
      RemovableWithOwner(k.value.owners, OwnerOf(s, p));
    }
    RoundFinalizesAndToggles(s, p, t1, k1, c + 4);
    var k2 := SetOwners(k1, ToggleFor(s, p, k1.value.owners).refs, c + 5);
    var t2 := t1.(stage := ToggledConnection, connection := k2, self := WithFinalizer(t1.self, c + 4));
    SameListing(s, s, p);
    RoundReadsConfigMap(s, p, t2, k2, c + 6);
  }

  lemma RoundMeaning(s: State, p: string, record: Record)
    requires Unblocked(s, p) && RecordFits(s, p, record)
    ensures RoundResult(s, Round(s, p, record), p, record)
  {
    hide Mid, IsRecordOf, Committed, Prepared, Finished, ProfileDone, ToggleFor;
    RoundPrepares(s, p);
    RoundCommits(s, p, TaskBeforePut(s, p), ConnectionAfter(s, p), s.clock + 9, record);
  }

  lemma RemovableWithOwner(owners: seq<Ref>, owner: Owner)
    requires Removable(owners, owner)
    ensures Removable(WithOwner(owners, owner), owner)
  {
    var i := OwnerReferences.IndexOf(owners, owner.key);
    var r := OwnerReferences.Upsert(owners, Ref(owner.key, owner.uid));
    assert r[if i == -1 then |owners| else i] == Ref(owner.key, owner.uid);
  }
}
