/** With the inputs at rest, reconciling the profiles brings the shared configuration
    to the same contents whatever the order, and keeps it there. */
module Quiescence {
  import opened Prelude
  import opened OwnerReferences
  import opened ClusterInfo
  import opened MapText
  import opened ConfigMapWriters
  import opened Protocol
  import opened ProtocolInvariant
  import opened ProfileRounds

  // --------------------------------------------------------------- the records

  /** The record without its two printed option texts; all else is kept. */
  function Blank(r: Record): (b: Record)
    ensures b.clusterId == r.clusterId && b.monitors == r.monitors && b.readAffinity == r.readAffinity
    ensures b.rbd == r.rbd && b.nvmeof == r.nvmeof && b.destination == r.destination
    ensures b.cephFs.subvolumeGroup == r.cephFs.subvolumeGroup && b.cephFs.radosNamespace == r.cephFs.radosNamespace
    ensures b.cephFs.controllerPublishSecret == r.cephFs.controllerPublishSecret
  {
    r.(cephFs := r.cephFs.(kernelMountOptions := "", fuseMountOptions := ""))
  }

  predicate FewOptions(options: Option<map<string, string>>) {
    options.Some? ==> |options.value| <= 1
  }

  /** Two records of the same inputs differ in the order of printed options at most,
      and not at all when there is nothing to order. */
  lemma RecordsAgree(a: Record, b: Record, inputs: Inputs)
    requires IsRecordOf(a, inputs) && IsRecordOf(b, inputs)
    ensures Blank(a) == Blank(b)
    ensures (inputs.spec.cephFs.Some? ==>
               FewOptions(inputs.spec.cephFs.value.kernelMountOptions) &&
               FewOptions(inputs.spec.cephFs.value.fuseMountOptions)) ==> a == b
  {
    hide IsPrinting;
    if inputs.spec.cephFs.Some? {
      var fs := inputs.spec.cephFs.value;
      OptionsAgree(a.cephFs.kernelMountOptions, b.cephFs.kernelMountOptions, fs.kernelMountOptions);
      OptionsAgree(a.cephFs.fuseMountOptions, b.cephFs.fuseMountOptions, fs.fuseMountOptions);
    }
  }

  lemma OptionsAgree(a: string, b: string, options: Option<map<string, string>>)
    requires PrintsOptions(a, options) && PrintsOptions(b, options)
    ensures FewOptions(options) ==> a == b
  {
    if options.Some? && |options.value| <= 1 {
      var m := options.value;
      var x :| Enumerates(x, m) && a == Print(x, m, "=", ",");
      var y :| Enumerates(y, m) && b == Print(y, m, "=", ",");
      OneOrder(x, y, m);
    }
  }

  // ------------------------------------------------------------------ the list

  function UpsertAll(list: seq<Record>, records: seq<Record>): seq<Record> {
    if records == [] then list
    else ClusterInfo.Upsert(UpsertAll(list, records[..|records| - 1]), records[|records| - 1])
  }

  /** The record written last under `id`. */
  function Written(records: seq<Record>, id: string): (r: Option<Record>)
    ensures r.Some? ==> r.value in records && r.value.clusterId == id
    ensures r.None? ==> forall x :: x in records ==> x.clusterId != id
  {
    if records == [] then None
    else if records[|records| - 1].clusterId == id then Some(records[|records| - 1])
    else Written(records[..|records| - 1], id)
  }

  lemma {:induction false} UpsertAllMeaning(list: seq<Record>, records: seq<Record>)
    requires UniqueIds(list)
    ensures var l := UpsertAll(list, records);
            && UniqueIds(l)
            && (forall id :: Lookup(l, id) == if Written(records, id).Some? then Written(records, id) else Lookup(list, id))
            && |list| <= |l| && (forall i :: 0 <= i < |list| ==> l[i].clusterId == list[i].clusterId)
  {
    if records != [] {
      var front, r := records[..|records| - 1], records[|records| - 1];
      UpsertAllMeaning(list, front);
      UpsertMeaning(UpsertAll(list, front), r);
      hide Lookup, UniqueIds, ClusterInfo.Upsert;
    }
  }

  // --------------------------------------------------------------- the machine

  /** One reconcile of `profile`, with the record it happens to compose. */
  datatype Job = Job(profile: string, record: Record)

  ghost predicate Live(s: State, p: string) {
    Unblocked(s, p) && !s.profiles[p].value.deleting
  }

  ghost predicate Possible(s: State, job: Job) {
    Live(s, job.profile) && IsRecordOf(job.record, InputsAt(s, job.profile))
  }

  ghost function Rounds(s: State, jobs: seq<Job>): State {
    if jobs == [] then s
    else
      var last := jobs[|jobs| - 1];
      Round(Rounds(s, jobs[..|jobs| - 1]), last.profile, last.record)
  }

  function RecordsOf(jobs: seq<Job>): (records: seq<Record>)
    ensures |records| == |jobs|
  {
    if jobs == [] then [] else RecordsOf(jobs[..|jobs| - 1]) + [jobs[|jobs| - 1].record]
  }

  /** If live, q is as live in r, with the same inputs and the same identity. */
  ghost predicate Rests(s: State, r: State, q: string) {
    Live(s, q) ==> Live(r, q) && InputsAt(r, q) == InputsAt(s, q) && OwnerOf(r, q) == OwnerOf(s, q)
  }

  ghost predicate AtRest(s: State, r: State) {
    forall q :: Rests(s, r, q)
  }

  /** A round leaves every live profile as live as it was, and its inputs as they were. */
  lemma RoundKeepsInputs(s: State, r: State, p: string, record: Record, q: string)
    requires Live(s, p) && RoundResult(s, r, p, record) && Live(s, q)
    ensures Live(r, q) && InputsAt(r, q) == InputsAt(s, q) && OwnerOf(r, q) == OwnerOf(s, q)
  {
    SameListing(s, r, q);
    hide MultipleReady, ReadyReplication, Referenced, Edited, ClusterInfo.Upsert;
    assert Base(r.cm) == Edited(s, p, record);
    NotForeign(s, p, record);
    var name := ConnectionName(s, p);
    assert r.connections[name].value.spec == s.connections[name].value.spec;
  }

  lemma NotForeign(s: State, p: string, record: Record)
    requires Live(s, p)
    ensures Edited(s, p, record).config == Json(ClusterInfo.Upsert(ListOf(s), record))
  {
  }

  lemma RoundUpserts(s: State, r: State, p: string, record: Record)
    requires Live(s, p) && RoundResult(s, r, p, record)
    ensures ListOf(r) == ClusterInfo.Upsert(ListOf(s), record)
  {
    NotForeign(s, p, record);
    hide Edited, ClusterInfo.Upsert;
  }

  ghost predicate AllPossible(s: State, jobs: seq<Job>) {
    forall i :: 0 <= i < |jobs| ==> Possible(s, jobs[i])
  }

  lemma RoundRests(s: State, r: State, p: string, record: Record)
    requires Live(s, p) && RoundResult(s, r, p, record)
    ensures AtRest(s, r)
  {
    forall q ensures Rests(s, r, q) {
      RoundRestsAt(s, r, p, record, q);
    }
  }

  lemma RoundRestsAt(s: State, r: State, p: string, record: Record, q: string)
    requires Live(s, p) && RoundResult(s, r, p, record)
    ensures Rests(s, r, q)
  {
    hide RoundResult, Live, InputsAt, OwnerOf;
    if Live(s, q) {
      RoundKeepsInputs(s, r, p, record, q);
    }
  }

  lemma RestsOn(s: State, m: State, r: State)
    requires AtRest(s, m) && AtRest(m, r)
    ensures AtRest(s, r)
  {
    hide Live, InputsAt, OwnerOf;
    forall q ensures Rests(s, r, q) {
      assert Rests(s, m, q) && Rests(m, r, q);
    }
  }

  lemma PossibleRound(s: State, job: Job)
    requires Possible(s, job)
    ensures var r := Round(s, job.profile, job.record);
            && ListOf(r) == ClusterInfo.Upsert(ListOf(s), job.record)
            && AtRest(s, r)
  {
    RoundMeaning(s, job.profile, job.record);
    var r := Round(s, job.profile, job.record);
    hide Round;
    RoundUpserts(s, r, job.profile, job.record);
    RoundRests(s, r, job.profile, job.record);
    hide RoundResult, ClusterInfo.Upsert, AtRest;
  }

  lemma UpsertAllSnoc(list: seq<Record>, jobs: seq<Job>, job: Job)
    ensures UpsertAll(list, RecordsOf(jobs + [job])) == ClusterInfo.Upsert(UpsertAll(list, RecordsOf(jobs)), job.record)
  {
    TakeOfSnoc(jobs, job);
    TakeOfSnoc(RecordsOf(jobs), job.record);
  }

  lemma NothingMoves(s: State)
    ensures AtRest(s, s)
  {
  }

  lemma StillPossible(s: State, r: State, job: Job)
    requires Possible(s, job) && AtRest(s, r)
    ensures Possible(r, job)
  {
    assert Rests(s, r, job.profile);
    hide Live, IsRecordOf, InputsAt;
  }

  /** Any sequence of reconciles is a sequence of upserts, and changes no inputs. */
  lemma {:induction false} RoundsMeaning(s: State, jobs: seq<Job>)
    requires AllPossible(s, jobs)
    ensures var r := Rounds(s, jobs);
            && ListOf(r) == UpsertAll(ListOf(s), RecordsOf(jobs))
            && AtRest(s, r)
  {
    hide Round, ClusterInfo.Upsert, InputsAt, Live, ListOf, IsRecordOf, AtRest, OwnerOf;
    if jobs == [] {
      NothingMoves(s);
    } else {
      var front, last := jobs[..|jobs| - 1], jobs[|jobs| - 1];
      assert jobs == front + [last];
      RoundsMeaning(s, front);
      assert Possible(s, last);
      StillPossible(s, Rounds(s, front), last);
      PossibleRound(Rounds(s, front), last);
      RestsOn(s, Rounds(s, front), Rounds(s, jobs));
      UpsertAllSnoc(ListOf(s), front, last);
    }
  }

  ghost predicate Covers(jobs: seq<Job>, p: string) {
    exists i :: 0 <= i < |jobs| && jobs[i].profile == p
  }

  lemma CoversSnoc(jobs: seq<Job>, job: Job, p: string)
    ensures Covers(jobs + [job], p) <==> Covers(jobs, p) || job.profile == p
  {
    var all := jobs + [job];
    if i :| 0 <= i < |jobs| && jobs[i].profile == p {
      assert all[i].profile == p;
    }
    assert all[|jobs|] == job;
  }

  lemma WrittenSnoc(jobs: seq<Job>, job: Job, p: string)
    ensures Written(RecordsOf(jobs + [job]), p) ==
            if job.record.clusterId == p then Some(job.record) else Written(RecordsOf(jobs), p)
  {
    TakeOfSnoc(jobs, job);
    TakeOfSnoc(RecordsOf(jobs), job.record);
  }

  lemma {:induction false} WrittenFor(s: State, jobs: seq<Job>, p: string)
    requires AllPossible(s, jobs)
    ensures Written(RecordsOf(jobs), p).Some? <==> Covers(jobs, p)
    ensures Covers(jobs, p) ==> Live(s, p) && IsRecordOf(Written(RecordsOf(jobs), p).value, InputsAt(s, p))
  {
    hide InputsAt, Live, Covers;
    if jobs != [] {
      var front, last := jobs[..|jobs| - 1], jobs[|jobs| - 1];
      assert jobs == front + [last];
      WrittenFor(s, front, p);
      assert Possible(s, last);
      JobNamesProfile(s, last);
      CoversSnoc(front, last, p);
      WrittenSnoc(front, last, p);
      hide Written, RecordsOf, IsRecordOf;
    } else {
      NothingCovers(jobs, p);
    }
  }

  lemma NothingCovers(jobs: seq<Job>, p: string)
    requires jobs == []
    ensures !Covers(jobs, p)
  {
  }

  lemma JobNamesProfile(s: State, job: Job)
    requires Possible(s, job)
    ensures job.record.clusterId == job.profile
  {
  }

  /** After every profile has been reconciled, in any order, the list maps each to a
      record of its inputs and every other record is what it was; all are still live
      with the same inputs, so this goes on to hold. */
  lemma Settles(s: State, jobs: seq<Job>)
    requires UniqueIds(ListOf(s)) && AllPossible(s, jobs)
    ensures var r := Rounds(s, jobs);
            && UniqueIds(ListOf(r))
            && (forall p :: Covers(jobs, p) ==>
                  && Live(s, p) && Lookup(ListOf(r), p).Some?
                  && IsRecordOf(Lookup(ListOf(r), p).value, InputsAt(s, p)))
            && (forall p :: !Covers(jobs, p) ==> Lookup(ListOf(r), p) == Lookup(ListOf(s), p))
            && AtRest(s, r)
            && |ListOf(s)| <= |ListOf(r)|
            && (forall i :: 0 <= i < |ListOf(s)| ==> ListOf(r)[i].clusterId == ListOf(s)[i].clusterId)
  {
    RoundsMeaning(s, jobs);
    UpsertAllMeaning(ListOf(s), RecordsOf(jobs));
    hide Rounds, Live, InputsAt, UniqueIds, Lookup, UpsertAll, AllPossible, Covers, AtRest;
    forall p { WrittenFor(s, jobs, p); }
  }

  ghost predicate SameCover(a: seq<Job>, b: seq<Job>) {
    forall p :: Covers(a, p) <==> Covers(b, p)
  }

  function Ids(list: seq<Record>): (ids: seq<string>)
    ensures |ids| == |list| && forall i :: 0 <= i < |list| ==> ids[i] == list[i].clusterId
  {
    if list == [] then [] else Ids(list[..|list| - 1]) + [list[|list| - 1].clusterId]
  }

  /** The order of the reconciles shows only in the order of the list and of printed
      options. */
  lemma OrderDoesNotMatter(s: State, a: seq<Job>, b: seq<Job>)
    requires UniqueIds(ListOf(s)) && AllPossible(s, a) && AllPossible(s, b) && SameCover(a, b)
    ensures var x, y := ListOf(Rounds(s, a)), ListOf(Rounds(s, b));
            && multiset(Ids(x)) == multiset(Ids(y))
            && (forall p :: Lookup(x, p).Some? <==> Lookup(y, p).Some?)
            && (forall p :: Lookup(x, p).Some? ==> Blank(Lookup(x, p).value) == Blank(Lookup(y, p).value))
  {
    var x, y := ListOf(Rounds(s, a)), ListOf(Rounds(s, b));
    Settles(s, a);
    Settles(s, b);
    hide Rounds, Live, InputsAt, AllPossible, IsRecordOf;
    forall p
      ensures Lookup(x, p).Some? <==> Lookup(y, p).Some?
      ensures Lookup(x, p).Some? ==> Blank(Lookup(x, p).value) == Blank(Lookup(y, p).value)
    {
      hide Lookup, UniqueIds;
      if Covers(a, p) {
        RecordsAgree(Lookup(x, p).value, Lookup(y, p).value, InputsAt(s, p));
      }
    }
    SameIds(x, y);
  }

  lemma SameIds(x: seq<Record>, y: seq<Record>)
    requires UniqueIds(x) && UniqueIds(y) && forall p :: Lookup(x, p).Some? <==> Lookup(y, p).Some?
    ensures multiset(Ids(x)) == multiset(Ids(y))
  {
    forall p ensures multiset(Ids(x))[p] == multiset(Ids(y))[p] {
      IdCount(x, p);
      IdCount(y, p);
    }
  }

  lemma {:induction false} IdCount(x: seq<Record>, p: string)
    requires UniqueIds(x)
    ensures multiset(Ids(x))[p] == if Lookup(x, p).Some? then 1 else 0
  {
    if x != [] {
      var front, last := x[..|x| - 1], x[|x| - 1];
      IdCount(front, p);
      LookupNone(front, p);
      LookupNone(x, p);
      assert Ids(x) == Ids(front) + [last.clusterId];
      if last.clusterId == p {
        assert Lookup(front, p) == None;
      }
    }
  }

  /** A further reconcile leaves the config map alone exactly when it composes the
      very record that is there. */
  lemma FurtherRound(s: State, p: string, record: Record)
    requires UniqueIds(ListOf(s)) && Live(s, p) && IsRecordOf(record, InputsAt(s, p))
    requires Lookup(ListOf(s), p).Some? && HasUid(Base(s.cm).owners, s.profiles[p].value.uid)
    ensures Round(s, p, record).cm == s.cm <==> record == Lookup(ListOf(s), p).value
    ensures var l, l' := ListOf(s), ListOf(Round(s, p, record));
            && |l'| == |l|
            && (forall i :: 0 <= i < |l| ==> l'[i] == if l[i].clusterId == p then record else l[i])
  {
    RoundMeaning(s, p, record);
    hide Round, RoundResult, Live, ListOf, InputsAt;
    FurtherResult(s, Round(s, p, record), p, record);
  }

  lemma FurtherResult(s: State, r: State, p: string, record: Record)
    requires UniqueIds(ListOf(s)) && Live(s, p) && RoundResult(s, r, p, record) && record.clusterId == p
    requires Lookup(ListOf(s), p).Some? && HasUid(Base(s.cm).owners, s.profiles[p].value.uid)
    ensures r.cm == s.cm <==> record == Lookup(ListOf(s), p).value
    ensures var l, l' := ListOf(s), ListOf(r);
            && |l'| == |l|
            && (forall i :: 0 <= i < |l| ==> l'[i] == if l[i].clusterId == p then record else l[i])
  {
    RoundUpserts(s, r, p, record);
    UpsertSame(ListOf(s), p, record);
    EditedSame(s, p, record);
    hide Edited, ClusterInfo.Upsert, Lookup, UniqueIds;
  }

  /** After its own reconcile a live profile is recorded as an owner of the config map. */
  lemma OwnerAfterRound(s: State, p: string, record: Record)
    requires Live(s, p) && IsRecordOf(record, InputsAt(s, p))
    ensures HasUid(Base(Round(s, p, record).cm).owners, s.profiles[p].value.uid)
  {
    RoundMeaning(s, p, record);
    var r := Round(s, p, record);
    hide Round;
    assert Base(r.cm) == Edited(s, p, record);
    ToggleOnRecords(Base(s.cm).owners, OwnerOf(s, p), s.namespace);
  }

  /** With the owner recorded, the edit is an upsert and no more. */
  lemma EditedSame(s: State, p: string, record: Record)
    requires Live(s, p) && HasUid(Base(s.cm).owners, s.profiles[p].value.uid) && ListOf(s) != []
    ensures Edited(s, p, record) == Base(s.cm) <==> ClusterInfo.Upsert(ListOf(s), record) == ListOf(s)
    ensures s.cm.Some?
  {
  }

  lemma UpsertSame(list: seq<Record>, p: string, record: Record)
    requires UniqueIds(list) && Lookup(list, p).Some? && record.clusterId == p
    ensures var l := ClusterInfo.Upsert(list, record);
            && |l| == |list|
            && (forall i :: 0 <= i < |list| ==> l[i] == if list[i].clusterId == p then record else list[i])
            && (l == list <==> record == Lookup(list, p).value)
  {
  }

  // ------------------------------------------------------------------ deletion

  /** An undisturbed reconcile of a deleted profile that nothing blocks removes its
      record, and no other, and then its finalizer. */
  lemma DeletionCompletes(s: State, p: string, record: Record)
    requires UniqueIds(ListOf(s)) && Unblocked(s, p) && s.profiles[p].value.deleting
    ensures var r := Round(s, p, record);
            && !HoldsFinalizer(r, p) && (p in r.profiles <==> s.profiles[p].value.foreign)
            && UniqueIds(ListOf(r))
            && (forall id :: Lookup(ListOf(r), id) == if id == p then None else Lookup(ListOf(s), id))
  {
    RoundMeaning(s, p, record);
    var r := Round(s, p, record);
    hide Round, UniqueIds, Lookup;
    DeletionResult(s, r, p, record);
    SwapDeleteMeaning(ListOf(s), p);
    hide ListOf, RoundResult;
  }

  lemma DeletionResult(s: State, r: State, p: string, record: Record)
    requires Unblocked(s, p) && s.profiles[p].value.deleting && RoundResult(s, r, p, record)
    ensures !HoldsFinalizer(r, p) && (p in r.profiles <==> s.profiles[p].value.foreign)
    ensures ListOf(r) == SwapDelete(ListOf(s), p)
  {
    hide SwapDelete;
  }

  ghost function Later(s: State, n: nat): State {
    s.(clock := s.clock + n)
  }

  lemma NothingInFlight(s: State, n: nat, e: Event)
    requires OfProfile(e) && !e.PGet? && e.p !in s.profileTasks
    ensures Next(Later(s, n), e) == Later(s, n + 1)
  {
    hide StepProfile, StepReplication, StepMapping, StepDriver, StepEnvironment;
  }

  /** Without its connection the reconcile ends before it has changed anything, so a
      deleted profile stays. */
  lemma MissingConnectionBlocks(s: State, p: string, record: Record)
    requires p in s.profiles && p !in s.profileTasks
    requires s.profiles[p].value.spec.connection == "" || s.profiles[p].value.spec.connection !in s.connections
    ensures Round(s, p, record) == Later(s, 12)
  {
    hide Next, Later;
    LoadingEnds(s, p);
    NothingInFlight(s, 2, POwnConnection(p));
    NothingInFlight(s, 3, PList(p));
    NothingInFlight(s, 4, PFinalize(p));
    NothingInFlight(s, 5, PToggleConnection(p));
    NothingInFlight(s, 6, PToggleReplication(p));
    NothingInFlight(s, 7, PCheck(p));
    NothingInFlight(s, 8, PGetConfigMap(p));
    NothingInFlight(s, 9, PPutConfigMap(p, record));
    NothingInFlight(s, 10, PUnfinalize(p));
    NothingInFlight(s, 11, PStatus(p));
  }

  lemma LoadingEnds(s: State, p: string)
    requires p in s.profiles && p !in s.profileTasks
    requires s.profiles[p].value.spec.connection == "" || s.profiles[p].value.spec.connection !in s.connections
    ensures Next(Next(s, PGet(p)), PGetConnection(p)) == Later(s, 2)
  {
    ProfileSteps(s, PGet(p));
    ProfileSteps(Next(s, PGet(p)), PGetConnection(p));
    hide Next;
    InsertThenRemove(s.profileTasks, p, Begun(s, p));
  }
}
