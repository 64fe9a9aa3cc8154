/** The controllers of one namespace and the API server they share, as a machine.

    The server keeps versioned objects: an update commits only if the object still
    has the version that was read, a create only if the object does not exist.
    Every reconcile is a sequence of steps with one server call each; between any
    two of them anything else may happen. At most one reconcile for each object is
    in flight. The lock around the config-map update is not part of the machine. */
module Protocol {
  import opened Prelude
  import opened OwnerReferences
  import opened ClusterInfo
  import opened MappingAggregation
  import opened ConfigMapWriters
  import opened Election

  /** `cleanup` is the operator's finalizer, `foreign` any other one. */
  datatype Profile = Profile(uid: string, deleting: bool, cleanup: bool, foreign: bool, spec: ProfileSpec)

  datatype Connection = Connection(owners: seq<Ref>, spec: ConnectionSpec)

  datatype Replication = Replication(uid: string, created: int, owners: seq<Ref>, spec: ReplicationSpec, phase: Phase)

  // -------------------------------------------------------- reconciles in flight

  /** The last step a client-profile reconcile has taken. */
  datatype Stage =
    | GotProfile | GotConnection | OwnedConnection | Listed | Finalized
    | ToggledConnection | ToggledReplication | Checked | GotConfigMap | WroteConfigMap
    | Finishing   // only the status update is left

  datatype ProfileTask = ProfileTask(stage: Stage, self: Stored<Profile>, cleanUp: bool,
                                     connection: Stored<Connection>, replication: Option<Replication>,
                                     snapshot: Option<Stored<ConfigMapValue>>)

  datatype ReplicationTask =
    | GotReplication(self: Stored<Replication>)
    | ProfileFound(self: Stored<Replication>)
    | Decided(self: Stored<Replication>, phase: Phase)

  datatype MappingTask =
    | ListedMappings(crs: seq<MappingCR>)
    | MappingGotConfigMap(crs: seq<MappingCR>, snapshot: Option<Stored<ConfigMapValue>>)

  datatype DriverTask =
    | GotDriver(uid: string)
    | DriverGotConfigMap(uid: string, snapshot: Option<Stored<ConfigMapValue>>)

  datatype State = State(
    namespace: string,
    clock: nat,                                  // greater than every version in use
    cm: Option<Stored<ConfigMapValue>>,
    profiles: map<string, Stored<Profile>>,
    connections: map<string, Stored<Connection>>,
    replications: map<string, Stored<Replication>>,
    mappings: seq<MappingCR>,
    drivers: map<string, string>,
    profileTasks: map<string, ProfileTask>,
    replicationTasks: map<string, ReplicationTask>,
    mappingTasks: map<string, MappingTask>,
    driverTasks: map<string, DriverTask>)

  datatype Event =
    // the client-profile controller, for the profile named p
    | PGet(p: string) | PGetConnection(p: string) | POwnConnection(p: string) | PList(p: string)
    | PFinalize(p: string) | PToggleConnection(p: string) | PToggleReplication(p: string) | PCheck(p: string)
    | PGetConfigMap(p: string) | PPutConfigMap(p: string, record: Record) | PUnfinalize(p: string) | PStatus(p: string)
    // the replication controller, for the replication named c
    | RGet(c: string) | RFindProfile(c: string) | RElect(c: string) | RStatus(c: string)
    // the mapping controller and the driver controller
    | MList(n: string) | MGetConfigMap(n: string) | MPutConfigMap(n: string)
    | DGet(n: string) | DGetConfigMap(n: string) | DPutConfigMap(n: string)
    // users, the garbage collector, a restart of the operator
    | CreateProfile(p: string, uid: string, foreign: bool, spec: ProfileSpec)
    | EditProfile(p: string, foreign: bool, spec: ProfileSpec)
    | DeleteProfile(p: string)
    | PutConnection(name: string, connection: Connection)
    | DropConnection(name: string)
    | CreateReplication(c: string, uid: string, created: int, owners: seq<Ref>, rspec: ReplicationSpec)
    | EditReplication(c: string, owners: seq<Ref>, rspec: ReplicationSpec)
    | DropReplication(c: string)
    | PutMappings(crs: seq<MappingCR>)
    | PutDrivers(drivers: map<string, string>)
    | DropConfigMap
    | Restart

  const NO_CONNECTION := Stored(0, Connection([], ConnectionSpec([], None, 0)))

  function Initial(namespace: string): State {
    State(namespace, 0, None, map[], map[], map[], [], map[], map[], map[], map[], map[])
  }

  // ----------------------------------------------------------------- API server

  /** The write of an unchanged value leaves the version alone. */
  ghost function Write<T>(held: Stored<T>, value: T, clock: nat): Stored<T> {
    if held.value == value then held else Stored(clock, value)
  }

  ghost predicate Current<T>(objects: map<string, Stored<T>>, name: string, version: nat) {
    name in objects && objects[name].version == version
  }

  /** An update of a profile; the object goes away with its last finalizer once it
      is marked as deleted. */
  ghost function StoreProfile(s: State, p: string, value: Profile): State
    requires p in s.profiles
  {
    if value.deleting && !value.cleanup && !value.foreign then s.(profiles := s.profiles - {p})
    else s.(profiles := s.profiles[p := Write(s.profiles[p], value, s.clock)])
  }

  // -------------------------------------------------------------------- frames

  /** Profiles are as they were or newly written. */
  ghost predicate ProfilesEvolve(s: State, r: State) {
    forall q :: q in r.profiles ==>
      (q in s.profiles && r.profiles[q] == s.profiles[q]) || r.profiles[q].version == s.clock
  }

  ghost predicate HoldsFinalizer(s: State, p: string) {
    p in s.profiles && s.profiles[p].value.cleanup
  }

  ghost predicate FinalizersStay(s: State, r: State) {
    forall q :: HoldsFinalizer(s, q) ==> HoldsFinalizer(r, q)
  }

  /** No write to the config map, no finalizer taken away. */
  ghost predicate Calm(s: State, r: State) {
    r.cm == s.cm && r.clock == s.clock && r.namespace == s.namespace && ProfilesEvolve(s, r) && FinalizersStay(s, r)
  }

  ghost predicate SameProfileTasks(s: State, r: State) {
    r.profileTasks == s.profileTasks
  }

  /** Of the tasks, only the one for the profile p may differ; and nothing that
      the client-profile controller does not write differs at all. */
  ghost predicate OnlyTask(s: State, r: State, p: string) {
    && r.clock == s.clock && r.namespace == s.namespace
    && r.replications == s.replications && r.replicationTasks == s.replicationTasks
    && r.mappings == s.mappings && r.mappingTasks == s.mappingTasks
    && r.drivers == s.drivers && r.driverTasks == s.driverTasks
    && (forall q :: q != p && q in r.profileTasks ==> q in s.profileTasks && r.profileTasks[q] == s.profileTasks[q])
    && (forall q :: q != p && q in s.profileTasks ==> q in r.profileTasks)
  }

  ghost predicate PastFinalize(stage: Stage) {
    stage.Finalized? || stage.ToggledConnection? || stage.ToggledReplication? || PastCheck(stage)
  }

  ghost predicate PastCheck(stage: Stage) {
    stage.Checked? || stage.GotConfigMap? || stage.WroteConfigMap?
  }

  /** A clean-up of p that has found no reference is under way. */
  ghost predicate CleansUp(s: State, p: string) {
    p in s.profileTasks && s.profileTasks[p].cleanUp && PastCheck(s.profileTasks[p].stage)
  }

  ghost predicate NoNewCleanUp(s: State, r: State, p: string) {
    CleansUp(r, p) ==> CleansUp(s, p)
  }

  /** From one task to the next: same profile, same mode, same snapshot, no stage
      that would promise more. */
  ghost predicate PlainTask(u: ProfileTask, t: ProfileTask) {
    && t.self == u.self && t.cleanUp == u.cleanUp && t.snapshot == u.snapshot
    && (t.stage != Finishing ==> u.stage != Finishing)
    && (PastFinalize(t.stage) ==> PastFinalize(u.stage))
    && (t.stage == u.stage || (t.stage != GotConfigMap && t.stage != WroteConfigMap))
  }

  /** Past the finalizer step a live profile's task holds a copy with the finalizer,
      the one it read or the one it just wrote. */
  ghost predicate FinalizeTask(r: State, p: string, u: ProfileTask, t: ProfileTask, clock: nat) {
    || t == u
    || (&& t.cleanUp == u.cleanUp && t.snapshot == u.snapshot && u.stage == Listed
        && (t.stage == Finalized || t.stage == Finishing)
        && ((t.self == u.self && (t.stage == Finalized ==> t.cleanUp || t.self.value.cleanup)) ||
            (HoldsFinalizer(r, p) && t.self == r.profiles[p] && t.self.version == clock)))
  }

  /** The removal step leaves only the status update to do. */
  ghost predicate UnfinalizeTask(s: State, r: State, p: string, u: ProfileTask, t: ProfileTask) {
    || r == s
    || (t.stage == Finishing && t.snapshot == u.snapshot &&
        (t.self == u.self || (p in r.profiles && t.self == r.profiles[p])))
  }

  ghost predicate PlainMove(s: State, r: State, p: string) {
    p in r.profileTasks ==> p in s.profileTasks && PlainTask(s.profileTasks[p], r.profileTasks[p])
  }

  // -------------------------------------------------- client-profile controller

  ghost function Set(s: State, p: string, t: ProfileTask): (r: State)
    ensures OnlyTask(s, r, p) && Calm(s, r) && r.profiles == s.profiles
    ensures p in r.profileTasks && r.profileTasks[p] == t
  {
    s.(profileTasks := s.profileTasks[p := t])
  }

  ghost function End(s: State, p: string): (r: State)
    ensures OnlyTask(s, r, p) && r.cm == s.cm && r.profiles == s.profiles
  {
    s.(profileTasks := s.profileTasks - {p})
  }

  ghost predicate At(s: State, p: string, stage: Stage) {
    p in s.profileTasks && s.profileTasks[p].stage == stage
  }

  function ProfileOwner(s: State, p: string, uid: string): Owner {
    Owner(Key(GROUP, "ClientProfile", p), uid, s.namespace)
  }

  function DriverOwner(s: State, n: string, uid: string): Owner {
    Owner(Key(GROUP, "Driver", n), uid, s.namespace)
  }

  ghost predicate References(s: State, c: string, p: string) {
    c in s.replications && s.replications[c].value.spec.local == p
  }

  ghost predicate Referenced(s: State, p: string) {
    exists c :: References(s, c, p)
  }

  ghost predicate ReadyFor(s: State, c: string, p: string) {
    References(s, c, p) && s.replications[c].value.phase == Ready
  }

  /** The consumer's "multiple Ready" error. */
  ghost predicate MultipleReady(s: State, p: string) {
    exists c, d :: c != d && ReadyFor(s, c, p) && ReadyFor(s, d, p)
  }

  ghost function ReadyReplication(s: State, p: string): Option<Replication> {
    if exists c :: ReadyFor(s, c, p) then
      var c :| ReadyFor(s, c, p);
      Some(s.replications[c].value)
    else None
  }

  ghost function Get(s: State, p: string): (r: State)
    ensures NoNewCleanUp(s, r, p)
    ensures OnlyTask(s, r, p) && Calm(s, r)
  {
    if p in s.profileTasks || p !in s.profiles then s
    else
      var self := s.profiles[p];
      Set(s, p, ProfileTask(GotProfile, self, self.value.deleting, NO_CONNECTION, None, None))
  }

  ghost function GetConnection(s: State, p: string): (r: State)
    ensures NoNewCleanUp(s, r, p)
    ensures OnlyTask(s, r, p) && Calm(s, r) && PlainMove(s, r, p)
  {
    if !At(s, p, GotProfile) then s
    else
      var t := s.profileTasks[p];
      var name := t.self.value.spec.connection;
      if name == "" || name !in s.connections then End(s, p)
      else Set(s, p, t.(stage := GotConnection, connection := s.connections[name]))
  }

  /** The connection once the task's copy is written back with the given owners;
      None when the server refuses. */
  ghost function WriteConnection(s: State, t: ProfileTask, owners: seq<Ref>): Option<Stored<Connection>> {
    if Current(s.connections, t.self.value.spec.connection, t.connection.version)
    then Some(Write(t.connection, t.connection.value.(owners := owners), s.clock))
    else None
  }

  ghost function WithConnection(s: State, p: string, t: ProfileTask, stored: Stored<Connection>): (r: State)
    ensures OnlyTask(s, r, p) && Calm(s, r)
    ensures p in r.profileTasks && r.profileTasks[p] == t.(connection := stored)
  {
    Set(s.(connections := s.connections[t.self.value.spec.connection := stored]), p, t.(connection := stored))
  }

  ghost function OwnConnection(s: State, p: string): (r: State)
    ensures NoNewCleanUp(s, r, p)
    ensures OnlyTask(s, r, p) && Calm(s, r) && PlainMove(s, r, p)
  {
    if !At(s, p, GotConnection) then s
    else
      var t := s.profileTasks[p];
      var owners := t.connection.value.owners;
      var owner := ProfileOwner(s, p, t.self.value.uid);
      if HasUid(owners, owner.uid) then Set(s, p, t.(stage := OwnedConnection))
      else
        var w := WriteConnection(s, t, OwnerReferences.Upsert(owners, Ref(owner.key, owner.uid)));
        if w.None? then End(s, p) else WithConnection(s, p, t.(stage := OwnedConnection), w.value)
  }

  ghost function List(s: State, p: string): (r: State)
    ensures NoNewCleanUp(s, r, p)
    ensures OnlyTask(s, r, p) && Calm(s, r) && PlainMove(s, r, p)
  {
    if !At(s, p, OwnedConnection) then s
    else if MultipleReady(s, p) then End(s, p)
    else Set(s, p, s.profileTasks[p].(stage := Listed, replication := ReadyReplication(s, p)))
  }

  ghost function Finalize(s: State, p: string): (r: State)
    ensures NoNewCleanUp(s, r, p)
    ensures OnlyTask(s, r, p) && Calm(s, r)
    ensures p in r.profileTasks ==>
              p in s.profileTasks && FinalizeTask(r, p, s.profileTasks[p], r.profileTasks[p], s.clock)
  {
    if !At(s, p, Listed) then s
    else
      var t := s.profileTasks[p];
      if t.cleanUp || t.self.value.cleanup then Set(s, p, t.(stage := Finalized))
      else if Current(s.profiles, p, t.self.version) then
        var stored := Write(t.self, t.self.value.(cleanup := true), s.clock);
        Set(s.(profiles := s.profiles[p := stored]), p, t.(stage := Finalized, self := stored))
      else Set(s, p, t.(stage := Finishing))
  }

  /** The move to `stage` after a toggle with outcome `o`; when something changed, the
      connection is sent with the given owners first. */
  ghost function AfterToggle(s: State, p: string, t: ProfileTask, o: Outcome, owners: seq<Ref>, stage: Stage): (r: State)
    requires p in s.profileTasks && t == s.profileTasks[p]
    requires (t.stage == Finalized && stage == ToggledConnection) ||
             (t.stage == ToggledConnection && stage == ToggledReplication)
    ensures NoNewCleanUp(s, r, p)
    ensures OnlyTask(s, r, p) && Calm(s, r) && PlainMove(s, r, p)
  {
    if !o.failed && !o.changed then Set(s, p, t.(stage := stage))
    else
      var w := if o.failed then None else WriteConnection(s, t, owners);
      if w.None? then Set(s, p, t.(stage := Finishing)) else WithConnection(s, p, t.(stage := stage), w.value)
  }

  ghost function ToggleConnection(s: State, p: string): (r: State)
    ensures NoNewCleanUp(s, r, p)
    ensures OnlyTask(s, r, p) && Calm(s, r) && PlainMove(s, r, p)
  {
    if !At(s, p, Finalized) then s
    else
      var t := s.profileTasks[p];
      var o := Toggle(!t.cleanUp, t.connection.value.owners, ProfileOwner(s, p, t.self.value.uid), s.namespace);
      AfterToggle(s, p, t, o, o.refs, ToggledConnection)
  }

  /** The replication's owner list is edited in memory only; what is sent is the
      connection, unchanged. */
  ghost function ToggleReplication(s: State, p: string): (r: State)
    ensures NoNewCleanUp(s, r, p)
    ensures OnlyTask(s, r, p) && Calm(s, r) && PlainMove(s, r, p)
  {
    if !At(s, p, ToggledConnection) then s
    else
      var t := s.profileTasks[p];
      if t.replication.None? then Set(s, p, t.(stage := ToggledReplication))
      else
        var o := Toggle(!t.cleanUp, t.replication.value.owners, ProfileOwner(s, p, t.self.value.uid), s.namespace);
        AfterToggle(s, p, t, o, t.connection.value.owners, ToggledReplication)
  }

  ghost function Check(s: State, p: string): (r: State)
    ensures CleansUp(r, p) ==> CleansUp(s, p) || (At(s, p, ToggledReplication) && !Referenced(s, p))
    ensures OnlyTask(s, r, p) && Calm(s, r) && PlainMove(s, r, p)
  {
    if !At(s, p, ToggledReplication) then s
    else
      var t := s.profileTasks[p];
      Set(s, p, t.(stage := if t.cleanUp && Referenced(s, p) then Finishing else Checked))
  }

  ghost function GetConfigMap(s: State, p: string): (r: State)
    ensures NoNewCleanUp(s, r, p)
    ensures OnlyTask(s, r, p) && Calm(s, r)
  {
    if !At(s, p, Checked) then s
    else Set(s, p, s.profileTasks[p].(stage := GotConfigMap, snapshot := s.cm))
  }

  function Base(snapshot: Option<Stored<ConfigMapValue>>): ConfigMapValue {
    if snapshot.Some? then snapshot.value.value else EMPTY_CONFIG_MAP
  }

  /** The config map after the write of `value`, computed from `snapshot`: created,
      left alone because nothing changed, or updated; None when the server refuses. */
  ghost function Commit(s: State, snapshot: Option<Stored<ConfigMapValue>>, value: ConfigMapValue)
    : Option<Option<Stored<ConfigMapValue>>>
  {
    if snapshot.None? then
      if s.cm.None? then Some(Some(Stored(s.clock, value))) else None
    else if value == snapshot.value.value then Some(s.cm)
    else if s.cm.Some? && s.cm.value.version == snapshot.value.version then Some(Some(Stored(s.clock, value)))
    else None
  }

  function InputsOf(p: string, t: ProfileTask): Inputs {
    Inputs(p, t.self.value.spec, t.connection.value.spec,
           if t.replication.None? then None else Some((t.replication.value.spec, t.replication.value.phase)))
  }

  ghost function PutConfigMap(s: State, p: string, record: Record): (r: State)
    ensures NoNewCleanUp(s, r, p)
    ensures OnlyTask(s, r, p) && r.profiles == s.profiles
    ensures r == s || (&& At(s, p, GotConfigMap) && p in r.profileTasks
                       && r.profileTasks[p] == s.profileTasks[p].(stage := r.profileTasks[p].stage)
                       && (r.profileTasks[p].stage.WroteConfigMap? || r.profileTasks[p].stage.Finishing?))
  {
    if !At(s, p, GotConfigMap) then s
    else
      var t := s.profileTasks[p];
      if !t.cleanUp && !IsRecordOf(record, InputsOf(p, t)) then s
      else
        var edited := ProfileEdit(Base(t.snapshot), s.namespace, t.cleanUp, ProfileOwner(s, p, t.self.value.uid), record);
        var written := if edited.None? then None else Commit(s, t.snapshot, edited.value);
        if written.None? then Set(s, p, t.(stage := Finishing))
        else Set(s.(cm := written.value), p, t.(stage := WroteConfigMap))
  }

  ghost function Unfinalize(s: State, p: string): (r: State)
    ensures NoNewCleanUp(s, r, p)
    ensures p in r.profileTasks ==>
              p in s.profileTasks && UnfinalizeTask(s, r, p, s.profileTasks[p], r.profileTasks[p])
    ensures OnlyTask(s, r, p) && r.cm == s.cm && ProfilesEvolve(s, r)
    ensures forall q :: q != p && HoldsFinalizer(s, q) ==> HoldsFinalizer(r, q)
  {
    if !At(s, p, WroteConfigMap) then s
    else
      var t := s.profileTasks[p];
      if t.cleanUp && Current(s.profiles, p, t.self.version) then
        var s' := StoreProfile(s, p, t.self.value.(cleanup := false));
        Set(s', p, t.(stage := Finishing, self := if p in s'.profiles then s'.profiles[p] else t.self))
      else Set(s, p, t.(stage := Finishing))
  }

  /** The status update changes nothing the machine keeps but the version. */
  ghost function Status(s: State, p: string): (r: State)
    ensures NoNewCleanUp(s, r, p)
    ensures OnlyTask(s, r, p) && Calm(s, r)
  {
    if !At(s, p, Finishing) then s
    else
      var t := s.profileTasks[p];
      if Current(s.profiles, p, t.self.version)
      then End(s.(profiles := s.profiles[p := Stored(s.clock, s.profiles[p].value)]), p)
      else End(s, p)
  }

  // ----------------------------------------------------- replication controller

  ghost predicate Before(s: State, c: string, d: string)
    requires c in s.replications && d in s.replications
  {
    Earlier(Candidate(c, s.replications[c].value.created), Candidate(d, s.replications[d].value.created))
  }

  /** c is the oldest existing resource for the profile p. */
  ghost predicate IsOldest(s: State, c: string, p: string) {
    References(s, c, p) && forall d :: References(s, d, p) && d != c ==> Before(s, c, d)
  }

  ghost predicate OnlyReplicationTask(s: State, r: State, c: string) {
    && Calm(s, r) && r.profiles == s.profiles && SameProfileTasks(s, r)
    && r.mappingTasks == s.mappingTasks && r.driverTasks == s.driverTasks
    && r.connections == s.connections && r.mappings == s.mappings && r.drivers == s.drivers
    && (forall d :: d != c ==> (d in r.replicationTasks <==> d in s.replicationTasks))
    && (forall d :: d != c && d in s.replicationTasks ==> r.replicationTasks[d] == s.replicationTasks[d])
  }

  ghost function SetReplicationTask(s: State, c: string, t: ReplicationTask): (r: State)
    ensures OnlyReplicationTask(s, r, c) && r.replications == s.replications
    ensures c in r.replicationTasks && r.replicationTasks[c] == t
  {
    s.(replicationTasks := s.replicationTasks[c := t])
  }

  ghost function GetReplication(s: State, c: string): (r: State)
    ensures OnlyReplicationTask(s, r, c)
  {
    if c in s.replicationTasks || c !in s.replications then s
    else SetReplicationTask(s, c, GotReplication(s.replications[c]))
  }

  ghost function FindProfile(s: State, c: string): (r: State)
    ensures OnlyReplicationTask(s, r, c)
  {
    if c !in s.replicationTasks || !s.replicationTasks[c].GotReplication? then s
    else
      var self := s.replicationTasks[c].self;
      SetReplicationTask(s, c, if self.value.spec.local in s.profiles then ProfileFound(self) else Decided(self, Rejected))
  }

  /** Sort the list and compare with its first item. An empty list has none, and the
      reconcile is aborted. */
  ghost function Elect(s: State, c: string): (r: State)
    ensures OnlyReplicationTask(s, r, c)
  {
    if c !in s.replicationTasks || !s.replicationTasks[c].ProfileFound? then s
    else
      var self := s.replicationTasks[c].self;
      if !Referenced(s, self.value.spec.local) then s.(replicationTasks := s.replicationTasks - {c})
      else SetReplicationTask(s, c, Decided(self, if IsOldest(s, c, self.value.spec.local) then Ready else Rejected))
  }

  ghost function ReplicationStatus(s: State, c: string): (r: State)
    ensures OnlyReplicationTask(s, r, c)
  {
    if c !in s.replicationTasks || !s.replicationTasks[c].Decided? then s
    else
      var t := s.replicationTasks[c];
      var s' := s.(replicationTasks := s.replicationTasks - {c});
      if Current(s.replications, c, t.self.version)
      then s'.(replications := s.replications[c :=
                 Write(s.replications[c], t.self.value.(phase := t.phase), s.clock)])
      else s'
  }

  ghost function StepReplication(s: State, e: Event): (r: State)
    ensures Calm(s, r) && r.profiles == s.profiles && SameProfileTasks(s, r)
    ensures r.mappingTasks == s.mappingTasks && r.driverTasks == s.driverTasks
    ensures r.connections == s.connections && r.mappings == s.mappings && r.drivers == s.drivers
  {
    if e.RGet? then GetReplication(s, e.c)
    else if e.RFindProfile? then FindProfile(s, e.c)
    else if e.RElect? then Elect(s, e.c)
    else if e.RStatus? then ReplicationStatus(s, e.c)
    else s
  }

  // ------------------------------------------- mapping controller, driver controller

  ghost function StepMapping(s: State, e: Event): (r: State)
    ensures r.clock == s.clock && r.namespace == s.namespace && r.profiles == s.profiles && SameProfileTasks(s, r)
    ensures r.driverTasks == s.driverTasks && r.replications == s.replications && r.replicationTasks == s.replicationTasks
    ensures r.connections == s.connections
    ensures !e.MPutConfigMap? ==> r.cm == s.cm
  {
    if e.MList? && e.n !in s.mappingTasks then
      s.(mappingTasks := s.mappingTasks[e.n := ListedMappings(s.mappings)])
    else if e.MGetConfigMap? && e.n in s.mappingTasks && s.mappingTasks[e.n].ListedMappings? then
      s.(mappingTasks := s.mappingTasks[e.n := MappingGotConfigMap(s.mappingTasks[e.n].crs, s.cm)])
    else if e.MPutConfigMap? && e.n in s.mappingTasks && s.mappingTasks[e.n].MappingGotConfigMap? then
      var t := s.mappingTasks[e.n];
      var edited := MappingEdit(Base(t.snapshot), s.namespace, t.crs, e.n);
      var written := if edited.None? then None else Commit(s, t.snapshot, edited.value);
      s.(mappingTasks := s.mappingTasks - {e.n}, cm := if written.None? then s.cm else written.value)
    else s
  }

  ghost function StepDriver(s: State, e: Event): (r: State)
    ensures r.clock == s.clock && r.namespace == s.namespace && r.profiles == s.profiles && SameProfileTasks(s, r)
    ensures r.mappingTasks == s.mappingTasks && r.replications == s.replications && r.replicationTasks == s.replicationTasks
    ensures r.connections == s.connections
    ensures !e.DPutConfigMap? ==> r.cm == s.cm
  {
    if e.DGet? && e.n !in s.driverTasks && e.n in s.drivers then
      s.(driverTasks := s.driverTasks[e.n := GotDriver(s.drivers[e.n])])
    else if e.DGetConfigMap? && e.n in s.driverTasks && s.driverTasks[e.n].GotDriver? then
      s.(driverTasks := s.driverTasks[e.n := DriverGotConfigMap(s.driverTasks[e.n].uid, s.cm)])
    else if e.DPutConfigMap? && e.n in s.driverTasks && s.driverTasks[e.n].DriverGotConfigMap? then
      var t := s.driverTasks[e.n];
      var edited := DriverEdit(Base(t.snapshot), s.namespace, DriverOwner(s, e.n, t.uid));
      var written := if edited.None? then None else Commit(s, t.snapshot, edited.value);
      s.(driverTasks := s.driverTasks - {e.n}, cm := if written.None? then s.cm else written.value)
    else s
  }

  // ---------------------------------------------------------------- environment

  ghost function StepEnvironment(s: State, e: Event): (r: State)
    ensures r.clock == s.clock && r.namespace == s.namespace && ProfilesEvolve(s, r) && FinalizersStay(s, r)
    ensures r.cm == if e.DropConfigMap? then None else s.cm
    ensures !e.CreateProfile? && !e.EditProfile? && !e.DeleteProfile? ==> r.profiles == s.profiles
    ensures r.mappings == (if e.PutMappings? then e.crs else s.mappings)
    ensures r.drivers == (if e.PutDrivers? then e.drivers else s.drivers)
    ensures r.connections == (if e.PutConnection? then s.connections[e.name := Stored(s.clock, e.connection)]
                              else if e.DropConnection? then s.connections - {e.name} else s.connections)
    ensures !e.CreateReplication? && !e.EditReplication? && !e.DropReplication? ==> r.replications == s.replications
    ensures !e.Restart? ==>
              SameProfileTasks(s, r) && r.mappingTasks == s.mappingTasks && r.driverTasks == s.driverTasks &&
              r.replicationTasks == s.replicationTasks
    ensures e.Restart? ==>
              r.profileTasks == map[] && r.mappingTasks == map[] && r.driverTasks == map[] && r.replicationTasks == map[]
  {
    if e.CreateProfile? && e.p !in s.profiles then
      s.(profiles := s.profiles[e.p := Stored(s.clock, Profile(e.uid, false, false, e.foreign, e.spec))])
    else if e.EditProfile? && e.p in s.profiles then
      StoreProfile(s, e.p, s.profiles[e.p].value.(foreign := e.foreign, spec := e.spec))
    else if e.DeleteProfile? && e.p in s.profiles then
      StoreProfile(s, e.p, s.profiles[e.p].value.(deleting := true))
    else if e.PutConnection? then
      s.(connections := s.connections[e.name := Stored(s.clock, e.connection)])
    else if e.DropConnection? then
      s.(connections := s.connections - {e.name})
    else if e.CreateReplication? && e.c !in s.replications then
      var created := Replication(e.uid, e.created, e.owners, e.rspec, NoPhase);
      s.(replications := s.replications[e.c := Stored(s.clock, created)])
    else if e.EditReplication? && e.c in s.replications then
      var held := s.replications[e.c];
      s.(replications := s.replications[e.c := Write(held, held.value.(owners := e.owners, spec := e.rspec), s.clock)])
    else if e.DropReplication? then
      s.(replications := s.replications - {e.c})
    else if e.PutMappings? then s.(mappings := e.crs)
    else if e.PutDrivers? then s.(drivers := e.drivers)
    else if e.DropConfigMap? then s.(cm := None)
    else if e.Restart? then
      s.(profileTasks := map[], replicationTasks := map[], mappingTasks := map[], driverTasks := map[])
    else s
  }

  // ----------------------------------------------------------------------- runs

  ghost function StepProfile(s: State, e: Event): (r: State)
    ensures OfProfile(e) ==> OnlyTask(s, r, e.p) && ProfilesEvolve(s, r)
    ensures OfProfile(e) && !e.PUnfinalize? ==> FinalizersStay(s, r)
    ensures OfProfile(e) && e.PUnfinalize? ==> forall q :: q != e.p && HoldsFinalizer(s, q) ==> HoldsFinalizer(r, q)
    ensures !e.PPutConfigMap? ==> r.cm == s.cm
    ensures OfProfile(e) && !e.PCheck? ==> NoNewCleanUp(s, r, e.p)
    ensures OfProfile(e) && !e.PGet? && e.p !in s.profileTasks ==> r == s
  {
    if e.PGet? then Get(s, e.p)
    else if e.PGetConnection? then GetConnection(s, e.p)
    else if e.POwnConnection? then OwnConnection(s, e.p)
    else if e.PList? then List(s, e.p)
    else if e.PFinalize? then Finalize(s, e.p)
    else if e.PToggleConnection? then ToggleConnection(s, e.p)
    else if e.PToggleReplication? then ToggleReplication(s, e.p)
    else if e.PCheck? then Check(s, e.p)
    else if e.PGetConfigMap? then GetConfigMap(s, e.p)
    else if e.PPutConfigMap? then PutConfigMap(s, e.p, e.record)
    else if e.PUnfinalize? then Unfinalize(s, e.p)
    else if e.PStatus? then Status(s, e.p)
    else s
  }

  ghost predicate OfProfile(e: Event) {
    e.PGet? || e.PGetConnection? || e.POwnConnection? || e.PList? || e.PFinalize? || e.PToggleConnection? ||
    e.PToggleReplication? || e.PCheck? || e.PGetConfigMap? || e.PPutConfigMap? || e.PUnfinalize? || e.PStatus?
  }

  ghost predicate OfReplication(e: Event) {
    e.RGet? || e.RFindProfile? || e.RElect? || e.RStatus?
  }

  ghost predicate OfMapping(e: Event) {
    e.MList? || e.MGetConfigMap? || e.MPutConfigMap?
  }

  ghost predicate OfDriver(e: Event) {
    e.DGet? || e.DGetConfigMap? || e.DPutConfigMap?
  }

  ghost predicate OfConfigMap(e: Event) {
    e.PPutConfigMap? || e.MPutConfigMap? || e.DPutConfigMap? || e.DropConfigMap?
  }

  /** Of the tasks of profiles, only that of e.p may be new or different. */
  ghost predicate OtherTasksStay(s: State, r: State, e: Event) {
    forall q :: q in r.profileTasks && !(OfProfile(e) && e.p == q) ==>
      q in s.profileTasks && r.profileTasks[q] == s.profileTasks[q]
  }

  ghost function Step(s: State, e: Event): (r: State)
    ensures r.clock == s.clock && r.namespace == s.namespace && ProfilesEvolve(s, r) && OtherTasksStay(s, r, e)
    ensures !e.PUnfinalize? ==> FinalizersStay(s, r)
    ensures e.PUnfinalize? ==> forall q :: q != e.p && HoldsFinalizer(s, q) ==> HoldsFinalizer(r, q)
    ensures !OfConfigMap(e) ==> r.cm == s.cm
    ensures e.DropConfigMap? ==> r.cm == None
    ensures OfMapping(e) || r.mappingTasks == s.mappingTasks || r.mappingTasks == map[]
    ensures OfDriver(e) || r.driverTasks == s.driverTasks || r.driverTasks == map[]
  {
    if OfProfile(e) then StepProfile(s, e)
    else if OfReplication(e) then StepReplication(s, e)
    else if OfMapping(e) then StepMapping(s, e)
    else if OfDriver(e) then StepDriver(s, e)
    else StepEnvironment(s, e)
  }

  /** One event. An event that is not possible leaves everything as it is. */
  ghost function Next(s: State, e: Event): (r: State)
    ensures r.clock == s.clock + 1
  {
    Step(s, e).(clock := s.clock + 1)
  }

  /** The state after a sequence of events. */
  ghost function After(s: State, events: seq<Event>): State {
    if events == [] then s else Next(After(s, events[..|events| - 1]), events[|events| - 1])
  }

  // ------------------------------------------- single steps of each participant

  /** The steps of the client-profile controller, free of the rest of the machine. */
  lemma ProfileSteps(s: State, e: Event)
    requires OfProfile(e)
    ensures e.PGet? ==> Next(s, e) == Get(s, e.p).(clock := s.clock + 1)
    ensures e.PGetConnection? ==> Next(s, e) == GetConnection(s, e.p).(clock := s.clock + 1)
    ensures e.POwnConnection? ==> Next(s, e) == OwnConnection(s, e.p).(clock := s.clock + 1)
    ensures e.PList? ==> Next(s, e) == List(s, e.p).(clock := s.clock + 1)
    ensures e.PFinalize? ==> Next(s, e) == Finalize(s, e.p).(clock := s.clock + 1)
    ensures e.PToggleConnection? ==> Next(s, e) == ToggleConnection(s, e.p).(clock := s.clock + 1)
    ensures e.PToggleReplication? ==> Next(s, e) == ToggleReplication(s, e.p).(clock := s.clock + 1)
    ensures e.PCheck? ==> Next(s, e) == Check(s, e.p).(clock := s.clock + 1)
    ensures e.PGetConfigMap? ==> Next(s, e) == GetConfigMap(s, e.p).(clock := s.clock + 1)
    ensures e.PPutConfigMap? ==> Next(s, e) == PutConfigMap(s, e.p, e.record).(clock := s.clock + 1)
    ensures e.PUnfinalize? ==> Next(s, e) == Unfinalize(s, e.p).(clock := s.clock + 1)
    ensures e.PStatus? ==> Next(s, e) == Status(s, e.p).(clock := s.clock + 1)
  {
    hide OnlyTask, Calm, NoNewCleanUp, PlainMove, FinalizeTask, UnfinalizeTask, ProfilesEvolve, FinalizersStay,
         OtherTasksStay, CleansUp, Get, GetConnection, OwnConnection, List, Finalize, ToggleConnection,
         ToggleReplication, Check, GetConfigMap, PutConfigMap, Unfinalize, Status, StepReplication, StepMapping, StepDriver, StepEnvironment;
  }

  /** The steps of the replication controller. */
  lemma ReplicationSteps(s: State, e: Event)
    requires OfReplication(e)
    ensures e.RGet? ==> Next(s, e) == GetReplication(s, e.c).(clock := s.clock + 1)
    ensures e.RFindProfile? ==> Next(s, e) == FindProfile(s, e.c).(clock := s.clock + 1)
    ensures e.RElect? ==> Next(s, e) == Elect(s, e.c).(clock := s.clock + 1)
    ensures e.RStatus? ==> Next(s, e) == ReplicationStatus(s, e.c).(clock := s.clock + 1)
  {
    hide Calm, ProfilesEvolve, FinalizersStay, OnlyReplicationTask, OtherTasksStay, CleansUp,
         StepProfile, StepMapping, StepDriver, StepEnvironment, GetReplication, FindProfile, Elect, ReplicationStatus;
  }

  /** The steps of the other two writers of the config map. */
  lemma WriterSteps(s: State, e: Event)
    requires OfMapping(e) || OfDriver(e)
    ensures OfMapping(e) ==> Next(s, e) == StepMapping(s, e).(clock := s.clock + 1)
    ensures OfDriver(e) ==> Next(s, e) == StepDriver(s, e).(clock := s.clock + 1)
  {
    hide Calm, ProfilesEvolve, FinalizersStay, OtherTasksStay, CleansUp,
         StepProfile, StepReplication, StepMapping, StepDriver, StepEnvironment;
  }

  /** The steps of everybody else. */
  lemma EnvironmentSteps(s: State, e: Event)
    requires !OfProfile(e) && !OfReplication(e) && !OfMapping(e) && !OfDriver(e)
    ensures Next(s, e) == StepEnvironment(s, e).(clock := s.clock + 1)
  {
    hide Calm, ProfilesEvolve, FinalizersStay, OtherTasksStay, CleansUp,
         StepProfile, StepReplication, StepMapping, StepDriver, StepEnvironment;
  }
}
