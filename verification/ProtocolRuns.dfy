/** Safety and progress over whole runs of the machine. */
module ProtocolRuns {
  import opened Prelude
  import opened OwnerReferences
  import opened ClusterInfo
  import opened MappingAggregation
  import opened ConfigMapWriters
  import opened Protocol
  import opened ProtocolInvariant

  lemma {:induction false} InvHolds(s: State, events: seq<Event>)
    requires Inv(s)
    ensures Inv(After(s, events))
  {
    hide Next;
    if events != [] {
      InvHolds(s, events[..|events| - 1]);
      StepKeepsInv(After(s, events[..|events| - 1]), events[|events| - 1]);
    }
  }

  /** In every reachable state there is one record for each cluster, and a record
      for p implies that p exists and holds the cleanup finalizer. So when the
      finalizer of p is gone, no record of p is left, whatever else is in flight. */
  lemma NoOrphanRecords(namespace: string, events: seq<Event>)
    ensures var s := After(Initial(namespace), events);
            && UniqueIds(ListOf(s))
            && (forall p :: Lookup(ListOf(s), p).Some? ==> HoldsFinalizer(s, p))
  {
    var s := After(Initial(namespace), events);
    InvHolds(Initial(namespace), events);
    forall p | Lookup(ListOf(s), p).Some? ensures HoldsFinalizer(s, p) {
      LookupNone(ListOf(s), p);
    }
  }

  // --------------------------------------------------------- no update is lost

  /** Every commit is relative to the value it replaces: a profile touches its own
      record and owner reference, the mapping controller the mapping text and an
      owner reference, the driver controller an owner reference, and nothing else
      touches the config map but its deletion. */
  lemma CommitsKeepToTheirPart(s: State, e: Event)
    requires Inv(s) && Next(s, e).cm != s.cm
    ensures var s' := Next(s, e);
            || (&& e.PPutConfigMap? && At(s, e.p, GotConfigMap)
                && var t := s.profileTasks[e.p];
                && (!t.cleanUp ==> IsRecordOf(e.record, InputsOf(e.p, t)))
                && CommittedByProfile(s, s', e.p, if t.cleanUp then None else Some(e.record)))
            || (&& e.MPutConfigMap? && e.n in s.mappingTasks
                && Base(s'.cm).config == Base(s.cm).config
                && Base(s'.cm).mapping == Json(RenderAll(Aggregate(AllMappings(s.mappingTasks[e.n].crs))))
                && SameOwnersExcept(Base(s.cm), Base(s'.cm), Key(GROUP, "ClientProfileMapping", e.n)))
            || (&& e.DPutConfigMap?
                && Base(s'.cm).config == Base(s.cm).config
                && Base(s'.cm).mapping == Base(s.cm).mapping
                && SameOwnersExcept(Base(s.cm), Base(s'.cm), Key(GROUP, "Driver", e.n)))
            || (e.DropConfigMap? && s'.cm == None)
  {
    hide Step, IsRecordOf, CommittedByProfile,
         RenderAll, Aggregate, AllMappings, SameOwnersExcept;
    if e.PPutConfigMap? {
      ProfilePut(s, e.p, e.record);
    } else if e.MPutConfigMap? {
      MappingPut(s, e.n);
    } else if e.DPutConfigMap? {
      DriverPut(s, e.n);
    }
  }

  ghost predicate LeavesRecord(e: Event, id: string) {
    !e.DropConfigMap? && !(e.PPutConfigMap? && e.p == id)
  }

  lemma StepLeavesRecord(s: State, e: Event, id: string)
    requires Inv(s) && LeavesRecord(e, id)
    ensures Lookup(ListOf(Next(s, e)), id) == Lookup(ListOf(s), id)
  {
    hide Step;
    if e.PPutConfigMap? {
      ProfilePut(s, e.p, e.record);
    } else if e.MPutConfigMap? {
      MappingPut(s, e.n);
    } else if e.DPutConfigMap? {
      DriverPut(s, e.n);
    }
  }

  /** A record changes only by its own profile's reconcile: all the other writers,
      interleaved in any way, leave it as it is. */
  lemma {:induction false} RecordIsNotLost(s: State, events: seq<Event>, id: string)
    requires Inv(s) && forall i :: 0 <= i < |events| ==> LeavesRecord(events[i], id)
    ensures Lookup(ListOf(After(s, events)), id) == Lookup(ListOf(s), id)
  {
    hide Next;
    if events != [] {
      var front, last := events[..|events| - 1], events[|events| - 1];
      RecordIsNotLost(s, front, id);
      InvHolds(s, front);
      StepLeavesRecord(After(s, front), last, id);
    }
  }

  /** What the task of p read of its own record is still stored. */
  ghost predicate ShowsRecord(s: State, p: string) {
    At(s, p, GotConfigMap) ==>
      Lookup(Records(Base(s.profileTasks[p].snapshot).config), p) == Lookup(ListOf(s), p)
  }

  /** A live task past its config-map write finds the record it composed. */
  ghost predicate FindsRecord(s: State, p: string) {
    At(s, p, WroteConfigMap) && !s.profileTasks[p].cleanUp ==>
      var record := Lookup(ListOf(s), p);
      record.Some? && IsRecordOf(record.value, InputsOf(p, s.profileTasks[p]))
  }

  lemma EditStores(v: ConfigMapValue, namespace: string, owner: Owner, record: Record)
    requires record.clusterId == owner.key.name
    ensures var edited := ProfileEdit(v, namespace, false, owner, record);
            edited.Some? ==> Lookup(Records(edited.value.config), record.clusterId) == Some(record)
  {
    var list := Records(v.config);
    var l, at := ClusterInfo.Upsert(list, record), ClusterInfo.IndexOf(list, record.clusterId);
    assert l[if at == -1 then |list| else at] == record;
  }

  /** A write that is skipped found the record in its snapshot. */
  lemma SkippedWrite(s: State, p: string, record: Record)
    requires Inv(s) && At(s, p, GotConfigMap) && !s.profileTasks[p].cleanUp
    requires var s' := Next(s, PPutConfigMap(p, record)); At(s', p, WroteConfigMap) && s'.cm == s.cm
    ensures IsRecordOf(record, InputsOf(p, s.profileTasks[p]))
    ensures Lookup(Records(Base(s.profileTasks[p].snapshot).config), p) == Some(record)
  {
    ProfileSteps(s, PPutConfigMap(p, record));
    hide Next, Lookup, Toggle, ClusterInfo.Upsert, SwapDelete;
    var t := s.profileTasks[p];
    assert ProfileTaskOk(s, p, t);
    EditStores(Base(t.snapshot), s.namespace, ProfileOwner(s, p, t.self.value.uid), record);
  }

  /** A live task that gets past its write, whether it wrote or skipped the write
      because nothing had changed, finds its record stored: exactly unless the write was
      skipped for a snapshot whose record has meanwhile been deleted with the config map. */
  lemma RecordIsStored(s: State, p: string, record: Record)
    requires Inv(s) && At(s, p, GotConfigMap) && !s.profileTasks[p].cleanUp
    requires At(Next(s, PPutConfigMap(p, record)), p, WroteConfigMap)
    ensures var s' := Next(s, PPutConfigMap(p, record));
            && IsRecordOf(record, InputsOf(p, s.profileTasks[p]))
            && (Lookup(ListOf(s'), p) == Some(record) <==> s'.cm != s.cm || ShowsRecord(s, p))
  {
    hide Next, IsRecordOf, Lookup;
    ProfilePut(s, p, record);
    if Next(s, PPutConfigMap(p, record)).cm == s.cm {
      SkippedWrite(s, p, record);
    }
  }

  lemma PutKeepsFinding(s: State, p: string, record: Record)
    requires Inv(s) && ShowsRecord(s, p) && FindsRecord(s, p)
    ensures var s' := Next(s, PPutConfigMap(p, record)); ShowsRecord(s', p) && FindsRecord(s', p)
  {
    hide Next, IsRecordOf, Lookup, Inv, PutConfigMap, OnlyTask, NoNewCleanUp;
    ProfileSteps(s, PPutConfigMap(p, record));
    var s' := Next(s, PPutConfigMap(p, record));
    if At(s, p, GotConfigMap) && !s.profileTasks[p].cleanUp && At(s', p, WroteConfigMap) {
      RecordIsStored(s, p, record);
    }
  }

  ghost predicate HasRead(s: State, p: string) {
    At(s, p, GotConfigMap) || At(s, p, WroteConfigMap)
  }

  /** Once the config map is read, no other step but the write moves the task to a
      stage before the last. */
  lemma AfterReading(s: State, e: Event, p: string)
    requires OfProfile(e) && e.p == p && !e.PPutConfigMap? && HasRead(s, p)
    ensures var s' := Next(s, e); HasRead(s', p) ==> s'.profileTasks[p] == s.profileTasks[p]
  {
    hide Next, OnlyTask, Calm, NoNewCleanUp, PlainMove, FinalizeTask, Set, End, WithConnection, AfterToggle, Toggle,
         WriteConnection, ReadyReplication, Current, PutConfigMap;
    ProfileSteps(s, e);
  }

  ghost predicate ReadsNow(s: State, s': State, p: string) {
    HasRead(s', p) ==> At(s', p, GotConfigMap) && s'.profileTasks[p].snapshot == s.cm
  }

  lemma PlainMoveReadsNothing(s: State, s': State, p: string)
    requires PlainMove(s, s', p) && !HasRead(s, p)
    ensures ReadsNow(s, s', p)
  {
  }

  lemma FinalizerMoveReadsNothing(s: State, e: Event, p: string)
    requires (e == PFinalize(p) || e == PUnfinalize(p)) && !HasRead(s, p)
    ensures ReadsNow(s, Next(s, e), p)
  {
    hide Next, OnlyTask, Calm, NoNewCleanUp, ProfilesEvolve, HoldsFinalizer, Finalize, Unfinalize;
    ProfileSteps(s, e);
  }

  lemma GetReadsNothing(s: State, p: string)
    requires !HasRead(s, p)
    ensures !HasRead(Get(s, p), p) && !HasRead(Status(s, p), p)
  {
    hide OnlyTask, Calm, NoNewCleanUp;
  }

  lemma GetConfigMapReadsNow(s: State, p: string)
    requires !HasRead(s, p)
    ensures ReadsNow(s, GetConfigMap(s, p), p)
  {
    hide OnlyTask, Calm, NoNewCleanUp;
  }

  lemma OuterMoveReadsNow(s: State, e: Event, p: string)
    requires (e == PGet(p) || e == PGetConfigMap(p) || e == PStatus(p)) && !HasRead(s, p)
    ensures ReadsNow(s, Next(s, e), p)
  {
    hide Next, OnlyTask, Calm, NoNewCleanUp, Get, GetConfigMap, Status, PlainMove, FinalizeTask, UnfinalizeTask,
         ProfilesEvolve, Current, GetConnection, OwnConnection, List, Finalize, ToggleConnection, ToggleReplication,
         Check, PutConfigMap, Unfinalize;
    ProfileSteps(s, e);
    GetReadsNothing(s, p);
    GetConfigMapReadsNow(s, p);
  }

  /** Before, a step that reads it takes it as it is, and none gets past the write. */
  lemma BeforeReading(s: State, e: Event, p: string)
    requires OfProfile(e) && e.p == p && !e.PPutConfigMap? && !HasRead(s, p)
    ensures ReadsNow(s, Next(s, e), p)
  {
    hide Next, ReadsNow, HasRead, OnlyTask, Calm, NoNewCleanUp, PlainTask, ProfilesEvolve, GetConnection, OwnConnection,
         List, ToggleConnection, ToggleReplication, Check;
    if e.PGet? || e.PGetConfigMap? || e.PStatus? {
      OuterMoveReadsNow(s, e, p);
    } else if e.PFinalize? || e.PUnfinalize? {
      FinalizerMoveReadsNothing(s, e, p);
    } else {
      ProfileSteps(s, e);
      PlainMoveReadsNothing(s, Next(s, e), p);
    }
  }

  lemma OwnStepKeepsFinding(s: State, e: Event, p: string)
    requires Inv(s) && OfProfile(e) && e.p == p && !e.PPutConfigMap? && ShowsRecord(s, p) && FindsRecord(s, p)
    ensures ShowsRecord(Next(s, e), p) && FindsRecord(Next(s, e), p)
  {
    hide Step, IsRecordOf, Lookup, Inv;
    if HasRead(s, p) {
      AfterReading(s, e, p);
    } else {
      BeforeReading(s, e, p);
    }
  }

  lemma StepKeepsFinding(s: State, e: Event, p: string)
    requires Inv(s) && !e.DropConfigMap? && ShowsRecord(s, p) && FindsRecord(s, p)
    ensures ShowsRecord(Next(s, e), p) && FindsRecord(Next(s, e), p)
  {
    hide Next, IsRecordOf, Lookup, Inv;
    if e.PPutConfigMap? && e.p == p {
      PutKeepsFinding(s, p, e.record);
    } else if OfProfile(e) && e.p == p {
      OwnStepKeepsFinding(s, e, p);
    } else {
      StepLeavesRecord(s, e, p);
      if p in Next(s, e).profileTasks {
        TaskElsewhere(s, e, Next(s, e), p);
      }
    }
  }

  /** As long as nobody deletes the config map, every live reconcile past its write
      finds the record of its inputs in the list, also when it skipped the write. */
  lemma {:induction false} WrittenRecordIsThere(s: State, events: seq<Event>, p: string)
    requires Inv(s) && ShowsRecord(s, p) && FindsRecord(s, p)
    requires forall i :: 0 <= i < |events| ==> !events[i].DropConfigMap?
    ensures ShowsRecord(After(s, events), p) && FindsRecord(After(s, events), p)
  {
    hide Next, ShowsRecord, FindsRecord;
    if events != [] {
      var front, last := events[..|events| - 1], events[|events| - 1];
      WrittenRecordIsThere(s, front, p);
      InvHolds(s, front);
      StepKeepsFinding(After(s, front), last, p);
    }
  }

  /** Any run without a deletion of the config map, then a live reconcile's write or
      skipped write, then any run without writes of the same profile: the record is
      found again. */
  lemma CommittedRecordIsFound(namespace: string, before: seq<Event>, p: string, record: Record, events: seq<Event>)
    requires forall i :: 0 <= i < |before| ==> !before[i].DropConfigMap?
    requires var s := After(Initial(namespace), before);
             && At(s, p, GotConfigMap) && !s.profileTasks[p].cleanUp
             && At(Next(s, PPutConfigMap(p, record)), p, WroteConfigMap)
    requires forall i :: 0 <= i < |events| ==> LeavesRecord(events[i], p)
    ensures var s := After(Initial(namespace), before);
            Lookup(ListOf(After(Next(s, PPutConfigMap(p, record)), events)), p) == Some(record)
  {
    hide Next, Lookup, IsRecordOf;
    var s := After(Initial(namespace), before);
    WrittenRecordIsThere(Initial(namespace), before, p);
    InvHolds(Initial(namespace), before);
    RecordIsStored(s, p, record);
    StepKeepsInv(s, PPutConfigMap(p, record));
    RecordIsNotLost(Next(s, PPutConfigMap(p, record)), events, p);
  }

  ghost predicate LeavesMapping(e: Event) {
    !e.DropConfigMap? && !e.MPutConfigMap?
  }

  lemma {:induction false} MappingIsNotLost(s: State, events: seq<Event>)
    requires Inv(s) && forall i :: 0 <= i < |events| ==> LeavesMapping(events[i])
    ensures Base(After(s, events).cm).mapping == Base(s.cm).mapping
  {
    hide Next;
    if events != [] {
      var front, last := events[..|events| - 1], events[|events| - 1];
      MappingIsNotLost(s, front);
      InvHolds(s, front);
      if Next(After(s, front), last).cm != After(s, front).cm {
        CommitsKeepToTheirPart(After(s, front), last);
      }
    }
  }

  /** The events that may edit the owner reference of `key`. */
  ghost predicate MayEditOwner(e: Event, key: Key) {
    || e.DropConfigMap?
    || (e.PPutConfigMap? && key == Key(GROUP, "ClientProfile", e.p))
    || (e.MPutConfigMap? && key == Key(GROUP, "ClientProfileMapping", e.n))
    || (e.DPutConfigMap? && key == Key(GROUP, "Driver", e.n))
  }

  lemma StepLeavesOwner(s: State, e: Event, ref: Ref)
    requires Inv(s) && !MayEditOwner(e, ref.key)
    ensures ref in Base(Next(s, e).cm).owners <==> ref in Base(s.cm).owners
  {
    hide Step;
    var s' := Next(s, e);
    if s'.cm != s.cm {
      CommitsKeepToTheirPart(s, e);
      var key := if e.PPutConfigMap? then ProfileKey(e.p)
                 else if e.MPutConfigMap? then Key(GROUP, "ClientProfileMapping", e.n)
                 else Key(GROUP, "Driver", e.n);
      assert ref in Others(Base(s'.cm).owners, key) <==> ref in Base(s'.cm).owners;
      assert ref in Others(Base(s.cm).owners, key) <==> ref in Base(s.cm).owners;
    }
  }

  lemma {:induction false} OwnerIsNotLost(s: State, events: seq<Event>, ref: Ref)
    requires Inv(s) && forall i :: 0 <= i < |events| ==> !MayEditOwner(events[i], ref.key)
    ensures ref in Base(After(s, events).cm).owners <==> ref in Base(s.cm).owners
  {
    hide Next;
    if events != [] {
      var front, last := events[..|events| - 1], events[|events| - 1];
      OwnerIsNotLost(s, front, ref);
      InvHolds(s, front);
      StepLeavesOwner(After(s, front), last, ref);
    }
  }

  // -------------------------------------------------------------- unreadable text

  /** A config.json that does not parse fails the profile's edit. */
  lemma ForeignFailsEdit(v: ConfigMapValue, namespace: string, cleanUp: bool, owner: Owner, record: Record)
    ensures v.config.Foreign? ==> ProfileEdit(v, namespace, cleanUp, owner, record) == None
  {
  }

  lemma PutKeepsForeign(s: State, p: string, record: Record)
    requires Inv(s) && Base(s.cm).config.Foreign?
    ensures Next(s, PPutConfigMap(p, record)).cm == s.cm
  {
    hide Next, PutConfigMap, IsRecordOf, ProfileEdit, Commit;
    ProfileSteps(s, PPutConfigMap(p, record));
    if PutConfigMap(s, p, record).cm != s.cm {
      PutCommits(s, p, record);
      var t := s.profileTasks[p];
      assert ProfileTaskOk(s, p, t);
      var owner := ProfileOwner(s, p, t.self.value.uid);
      CommitIsFresh(s, t.snapshot, ProfileEdit(Base(t.snapshot), s.namespace, t.cleanUp, owner, record).value);
      ForeignFailsEdit(Base(t.snapshot), s.namespace, t.cleanUp, owner, record);
    }
  }

  lemma StepKeepsForeign(s: State, e: Event)
    requires Inv(s) && Base(s.cm).config.Foreign? && !e.DropConfigMap?
    ensures Base(Next(s, e).cm).config == Base(s.cm).config
  {
    hide Step;
    if e.PPutConfigMap? {
      PutKeepsForeign(s, e.p, e.record);
    } else if e.MPutConfigMap? {
      MappingPut(s, e.n);
    } else if e.DPutConfigMap? {
      DriverPut(s, e.n);
    }
  }

  /** A config.json that nobody can read is never overwritten. */
  lemma {:induction false} ForeignTextStays(s: State, events: seq<Event>)
    requires Inv(s) && Base(s.cm).config.Foreign? && forall i :: 0 <= i < |events| ==> !events[i].DropConfigMap?
    ensures Base(After(s, events).cm).config == Base(s.cm).config
  {
    hide Next;
    if events != [] {
      var front, last := events[..|events| - 1], events[|events| - 1];
      ForeignTextStays(s, front);
      InvHolds(s, front);
      StepKeepsForeign(After(s, front), last);
    }
  }

  // ---------------------------------------------------------- deletion protection

  /** A clean-up gets past its check only by listing no reference. */
  lemma CleanUpIsChecked(s: State, e: Event, p: string)
    requires CleansUp(Next(s, e), p) && !CleansUp(s, p)
    ensures e == PCheck(p) && !Referenced(s, p) && p in s.profileTasks
  {
    hide Step;
    if OfProfile(e) && e.p == p {
      ProfileSteps(s, e);
      hide Next, Referenced;
    } else {
      TaskElsewhere(s, e, Next(s, e), p);
    }
  }

  /** Only a clean-up past its check takes the finalizer, or deletes the record. */
  lemma OnlyCleanUpRemoves(s: State, e: Event, p: string)
    requires Inv(s) && !CleansUp(s, p)
    ensures HoldsFinalizer(s, p) ==> HoldsFinalizer(Next(s, e), p)
    ensures !e.DropConfigMap? && Lookup(ListOf(s), p).Some? ==> Lookup(ListOf(Next(s, e)), p).Some?
  {
    hide Step;
    if e == PUnfinalize(p) {
      ProfileSteps(s, e);
    } else if HoldsFinalizer(s, p) {
      StepKeepsFinalizer(s, e, p);
    }
    if !e.DropConfigMap? {
      if e.PPutConfigMap? && e.p == p {
        ProfilePut(s, p, e.record);
      } else {
        StepLeavesRecord(s, e, p);
      }
    }
  }

  /** As long as some replication refers to p, whatever its phase, p keeps its
      finalizer, and its record too unless the config map itself is deleted. */
  lemma {:induction false} ReferencedProfileIsProtected(s: State, events: seq<Event>, p: string)
    requires Inv(s) && HoldsFinalizer(s, p) && !CleansUp(s, p)
    requires forall i :: 0 <= i < |events| ==> Referenced(After(s, events[..i]), p)
    ensures HoldsFinalizer(After(s, events), p) && !CleansUp(After(s, events), p)
    ensures Lookup(ListOf(s), p).Some? && (forall i :: 0 <= i < |events| ==> !events[i].DropConfigMap?) ==>
              Lookup(ListOf(After(s, events)), p).Some?
  {
    hide Next;
    if events != [] {
      var front, last := events[..|events| - 1], events[|events| - 1];
      forall i | 0 <= i < |front| ensures Referenced(After(s, front[..i]), p) {
        assert front[..i] == events[..i];
      }
      ReferencedProfileIsProtected(s, front, p);
      InvHolds(s, front);
      var before := After(s, front);
      assert Referenced(before, p);
      OnlyCleanUpRemoves(before, last, p);
      if CleansUp(Next(before, last), p) {
        CleanUpIsChecked(before, last, p);
      }
    }
  }

  ghost predicate InFlightAfter(namespace: string, events: seq<Event>, p: string) {
    p in After(Initial(namespace), events).profileTasks
  }

  /** A clean-up in progress listed the references before, found none, and has been
      in flight ever since. */
  lemma {:induction false} CleanUpListedNothing(namespace: string, events: seq<Event>, p: string) returns (k: nat)
    requires CleansUp(After(Initial(namespace), events), p)
    ensures k < |events| && events[k] == PCheck(p)
    ensures !Referenced(After(Initial(namespace), events[..k]), p)
    ensures forall j :: k <= j <= |events| ==> InFlightAfter(namespace, events[..j], p)
  {
    hide Next;
    var n := |events| - 1;
    var front := events[..n];
    var before := After(Initial(namespace), front);
    if CleansUp(before, p) {
      k := CleanUpListedNothing(namespace, front, p);
      assert front[..k] == events[..k];
    } else {
      CleanUpIsChecked(before, events[n], p);
      k := n;
    }
    forall j | k <= j <= |events| ensures InFlightAfter(namespace, events[..j], p) {
      if j <= n {
        assert front[..j] == events[..j];
        assert k < n ==> InFlightAfter(namespace, front[..j], p);
      } else {
        assert events[..j] == events;
      }
    }
  }

  /** Every removal of a finalizer is preceded, within the same reconcile, by a
      listing in which nothing referred to the profile. */
  lemma RemovalFollowsEmptyListing(namespace: string, events: seq<Event>, e: Event, p: string) returns (k: nat)
    requires HoldsFinalizer(After(Initial(namespace), events), p)
    requires !HoldsFinalizer(Next(After(Initial(namespace), events), e), p)
    ensures k < |events| && events[k] == PCheck(p)
    ensures !Referenced(After(Initial(namespace), events[..k]), p)
    ensures forall j :: k <= j <= |events| ==> InFlightAfter(namespace, events[..j], p)
  {
    hide Next;
    InvHolds(Initial(namespace), events);
    if !CleansUp(After(Initial(namespace), events), p) {
      OnlyCleanUpRemoves(After(Initial(namespace), events), e, p);
    }
    k := CleanUpListedNothing(namespace, events, p);
  }
}
