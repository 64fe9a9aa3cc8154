/** The pass after every profile has been reconciled: what it can still change, and
    exactly when it writes nothing. */
module SecondPass {
  import opened Prelude
  import opened OwnerReferences
  import opened ClusterInfo
  import opened MapText
  import opened Election
  import opened ConfigMapWriters
  import opened Protocol
  import opened ProtocolInvariant
  import opened ProfileRounds
  import opened Quiescence

  // ------------------------------------------------ how many records there are

  predicate FreeOptions(options: Option<map<string, string>>) {
    options.Some? ==> SeparatorFree(options.value, '=', ',')
  }

  /** The mount options of the profile, if any, are free of "=" in keys and of ",". */
  predicate OptionsAreFree(inputs: Inputs) {
    inputs.spec.cephFs.Some? ==>
      FreeOptions(inputs.spec.cephFs.value.kernelMountOptions) && FreeOptions(inputs.spec.cephFs.value.fuseMountOptions)
  }

  /** Neither map of mount options has two entries. */
  predicate OptionsAreFew(inputs: Inputs) {
    inputs.spec.cephFs.Some? ==>
      FewOptions(inputs.spec.cephFs.value.kernelMountOptions) && FewOptions(inputs.spec.cephFs.value.fuseMountOptions)
  }

  /** The record with the given option texts. */
  function RecordWith(inputs: Inputs, kernel: string, fuse: string): Record {
    var spec := inputs.spec;
    Record(inputs.name, inputs.connection.monitors,
           match spec.cephFs {
             case None => ZERO_RECORD.cephFs
             case Some(fs) => CephFsRecord(fs.subVolumeGroup, kernel, fuse,
                                           if fs.radosNamespace.Some? then fs.radosNamespace.value else "",
                                           ControllerSecret(fs.secrets))
           },
           match spec.rbd {
             case None => ZERO_RECORD.rbd
             case Some(rbd) => RbdRecord(rbd.radosNamespace, inputs.connection.rbdMirrorDaemonCount,
                                         ControllerSecret(rbd.secrets), NodeSecret(rbd.secrets))
           },
           match spec.nvmeof {
             case None => ZERO_RECORD.nvmeof
             case Some(n) => NvmeofRecord(n.radosNamespace, ControllerSecret(n.secrets))
           },
           inputs.connection.readAffinity,
           if inputs.replication.None? || inputs.replication.value.1 != Ready then None
           else
             var rep := inputs.replication.value.0;
             Some(Destination(rep.remote, if rep.rbd.None? || rep.rbd.value == [] then None
                                          else Some(RemotePools(rep.rbd.value)))))
  }

  function ControllerSecret(secrets: Option<Secrets>): SecretRef {
    if secrets.Some? then secrets.value.controllerPublish else NO_SECRET
  }

  function NodeSecret(secrets: Option<Secrets>): SecretRef {
    if secrets.Some? then secrets.value.nodePublish else NO_SECRET
  }

  lemma RecordWithIs(inputs: Inputs, kernel: string, fuse: string)
    requires inputs.spec.cephFs.Some? ==>
               && PrintsOptions(kernel, inputs.spec.cephFs.value.kernelMountOptions)
               && PrintsOptions(fuse, inputs.spec.cephFs.value.fuseMountOptions)
    ensures IsRecordOf(RecordWith(inputs, kernel, fuse), inputs)
  {
    hide PrintsOptions, RemotePools;
  }

  lemma SomeText(options: Option<map<string, string>>) returns (text: string)
    ensures PrintsOptions(text, options)
  {
    text := "";
    if options.Some? {
      text := SomePrinting(options.value, "=", ",");
    }
  }

  lemma SomeRecord(inputs: Inputs) returns (r: Record)
    ensures IsRecordOf(r, inputs)
  {
    var kernel, fuse := "", "";
    if inputs.spec.cephFs.Some? {
      kernel := SomeText(inputs.spec.cephFs.value.kernelMountOptions);
      fuse := SomeText(inputs.spec.cephFs.value.fuseMountOptions);
    }
    RecordWithIs(inputs, kernel, fuse);
    r := RecordWith(inputs, kernel, fuse);
  }

  lemma OtherText(text: string, options: Option<map<string, string>>) returns (other: string)
    requires FreeOptions(options) && !FewOptions(options)
    ensures PrintsOptions(other, options) && other != text
  {
    var a, b := TwoPrintings(options.value, '=', ',');
    other := if a == text then b else a;
  }

  /** Two options are enough for a second record of the same inputs. */
  lemma OtherRecord(r: Record, inputs: Inputs) returns (other: Record)
    requires IsRecordOf(r, inputs) && OptionsAreFree(inputs) && !OptionsAreFew(inputs)
    ensures IsRecordOf(other, inputs) && other != r
  {
    var fs := inputs.spec.cephFs.value;
    if FewOptions(fs.kernelMountOptions) {
      var text := OtherText(r.cephFs.fuseMountOptions, fs.fuseMountOptions);
      other := r.(cephFs := r.cephFs.(fuseMountOptions := text));
    } else {
      var text := OtherText(r.cephFs.kernelMountOptions, fs.kernelMountOptions);
      other := r.(cephFs := r.cephFs.(kernelMountOptions := text));
    }
  }

  ghost predicate OneRecord(inputs: Inputs) {
    forall a, b :: IsRecordOf(a, inputs) && IsRecordOf(b, inputs) ==> a == b
  }

  /** The inputs determine the record if and only if no option map has two entries. */
  lemma OneRecordIffFew(inputs: Inputs)
    requires OptionsAreFree(inputs)
    ensures OneRecord(inputs) <==> OptionsAreFew(inputs)
  {
    if OptionsAreFew(inputs) {
      forall a, b | IsRecordOf(a, inputs) && IsRecordOf(b, inputs) ensures a == b {
        RecordsAgree(a, b, inputs);
      }
    } else {
      var r := SomeRecord(inputs);
      var other := OtherRecord(r, inputs);
    }
  }

  // ------------------------------------------------------- one further reconcile

  /** The stored record of a live profile describes its inputs, and the profile owns
      the config map. */
  ghost predicate UpToDate(s: State, p: string) {
    && UniqueIds(ListOf(s)) && Live(s, p)
    && Lookup(ListOf(s), p).Some? && IsRecordOf(Lookup(ListOf(s), p).value, InputsAt(s, p))
    && HasUid(Base(s.cm).owners, OwnerOf(s, p).uid)
  }

  ghost predicate NeverWrites(s: State, p: string)
    requires Live(s, p)
  {
    forall record :: IsRecordOf(record, InputsAt(s, p)) ==> Round(s, p, record).cm == s.cm
  }

  /** Every further reconcile of p leaves the config map alone, whatever record it
      composes, if and only if no option map of p has two entries. */
  lemma FurtherRoundsWriteNothingIffFew(s: State, p: string)
    requires UpToDate(s, p) && OptionsAreFree(InputsAt(s, p))
    ensures NeverWrites(s, p) <==> OptionsAreFew(InputsAt(s, p))
  {
    hide Round, IsRecordOf, InputsAt, UniqueIds, Lookup, ListOf;
    var stored := Lookup(ListOf(s), p).value;
    if OptionsAreFew(InputsAt(s, p)) {
      forall record | IsRecordOf(record, InputsAt(s, p)) ensures Round(s, p, record).cm == s.cm {
        RecordsAgree(record, stored, InputsAt(s, p));
        FurtherRound(s, p, record);
      }
    } else {
      var other := OtherRecord(stored, InputsAt(s, p));
      FurtherRound(s, p, other);
    }
  }

  // --------------------------------------------------------------------- owners

  ghost function OwnRef(s: State, p: string): Ref
    requires p in s.profiles
  {
    Ref(ProfileKey(p), s.profiles[p].value.uid)
  }

  /** The profiles in `names` are live, each has its own UID, and the UIDs in the owner
      list identify them. */
  ghost predicate Identified(s: State, names: set<string>) {
    && (forall p :: p in names ==> Live(s, p) && Identifies(Base(s.cm).owners, OwnerOf(s, p)))
    && (forall p, q :: p in names && q in names && p != q ==> OwnerOf(s, p).uid != OwnerOf(s, q).uid)
  }

  ghost function NamesOf(jobs: seq<Job>): set<string> {
    set i | 0 <= i < |jobs| :: jobs[i].profile
  }

  /** What a reconcile of p does to the rest of the config map: the mapping text stays,
      the owner list is toggled for p. */
  lemma RoundOwners(s: State, r: State, p: string, record: Record)
    requires Live(s, p) && RoundResult(s, r, p, record)
    ensures r.cm.Some? && Base(r.cm).mapping == Base(s.cm).mapping
    ensures Base(r.cm).owners == Toggle(true, Base(s.cm).owners, OwnerOf(s, p), s.namespace).refs
    ensures OwnerAllowed(OwnerOf(s, p), s.namespace)
  {
    assert Base(r.cm) == Edited(s, p, record);
    hide Toggle, ClusterInfo.Upsert;
  }

  lemma ToggleOnKeepsRef(refs: seq<Ref>, owner: Owner, namespace: string, ref: Ref)
    requires ref in refs && ref.key != owner.key
    ensures ref in Toggle(true, refs, owner, namespace).refs
  {
    ToggleKeepsOthers(true, refs, owner, namespace);
    assert ref in Others(refs, owner.key);
    assert ref in Others(Toggle(true, refs, owner, namespace).refs, owner.key);
  }

  lemma ToggleOnAddsRef(refs: seq<Ref>, owner: Owner, namespace: string)
    requires OwnerAllowed(owner, namespace) && Identifies(refs, owner)
    ensures Ref(owner.key, owner.uid) in Toggle(true, refs, owner, namespace).refs
  {
    ToggleOnRecords(refs, owner, namespace);
    ToggleIdentifies(Call(true, owner), refs, namespace);
    OwnerReferences.OwnRef(Toggle(true, refs, owner, namespace).refs, owner);
  }

  lemma ToggleOnIdentifies(refs: seq<Ref>, owner: Owner, namespace: string, other: Owner)
    requires Identifies(refs, other) && (owner.uid == other.uid ==> owner.key == other.key)
    ensures Identifies(Toggle(true, refs, owner, namespace).refs, other)
  {
    var r := Toggle(true, refs, owner, namespace).refs;
    ToggleAddsOnlyOwner(true, refs, owner, namespace);
    hide Toggle;
    forall i | 0 <= i < |r| && r[i].uid == other.uid ensures r[i].key == other.key {
      assert r[i] in r;
    }
  }

  /** In m the UIDs of `names` still identify them, and those in `covered` own the config map. */
  ghost predicate OwnersHold(s: State, m: State, names: set<string>, covered: set<string>)
    requires forall p :: p in names + covered ==> p in s.profiles
  {
    && (forall p :: p in names ==> Identifies(Base(m.cm).owners, OwnerOf(s, p)))
    && (forall p :: p in covered ==> OwnRef(s, p) in Base(m.cm).owners)
  }

  lemma OwnersStep(s: State, m: State, r: State, names: set<string>, covered: set<string>, p: string, record: Record)
    requires Identified(s, names) && covered <= names && p in names
    requires OwnersHold(s, m, names, covered) && Live(m, p) && RoundResult(m, r, p, record)
    requires OwnerOf(m, p) == OwnerOf(s, p)
    ensures OwnersHold(s, r, names, covered + {p})
  {
    RoundOwners(m, r, p, record);
    hide RoundResult, Identifies, Toggle;
    var refs, owner := Base(m.cm).owners, OwnerOf(s, p);
    forall q | q in names ensures Identifies(Base(r.cm).owners, OwnerOf(s, q)) {
      ToggleOnIdentifies(refs, owner, m.namespace, OwnerOf(s, q));
    }
    forall q | q in covered + {p} ensures OwnRef(s, q) in Base(r.cm).owners {
      if q == p {
        ToggleOnAddsRef(refs, owner, m.namespace);
      } else {
        ToggleOnKeepsRef(refs, owner, m.namespace, OwnRef(s, q));
      }
    }
  }

  lemma NamesOneMore(front: seq<Job>, job: Job)
    ensures NamesOf(front + [job]) == NamesOf(front) + {job.profile}
  {
    var jobs := front + [job];
    forall p ensures p in NamesOf(jobs) <==> p in NamesOf(front) || p == job.profile {
      if p in NamesOf(front) {
        var i :| 0 <= i < |front| && front[i].profile == p;
        assert jobs[i].profile == p;
      }
      assert jobs[|front|].profile == job.profile;
    }
  }

  lemma NothingOwnedYet(s: State, jobs: seq<Job>, names: set<string>)
    requires Identified(s, names) && jobs == []
    ensures OwnersHold(s, s, names, NamesOf(jobs))
  {
  }

  /** Every profile that was reconciled is an owner afterwards, whatever other
      reconciles came after its own. */
  lemma {:induction false} OwnersAfterRounds(s: State, jobs: seq<Job>, names: set<string>)
    requires Identified(s, names) && AllPossible(s, jobs) && NamesOf(jobs) <= names
    ensures OwnersHold(s, Rounds(s, jobs), names, NamesOf(jobs))
  {
    hide Round, RoundResult, OwnersHold, ListOf, InputsAt, IsRecordOf;
    if jobs == [] {
      NothingOwnedYet(s, jobs, names);
    } else {
      var front, last := jobs[..|jobs| - 1], jobs[|jobs| - 1];
      assert jobs == front + [last];
      NamesOneMore(front, last);
      OwnersAfterRounds(s, front, names);
      RoundsMeaning(s, front);
      assert Possible(s, last) && Rests(s, Rounds(s, front), last.profile);
      StillPossible(s, Rounds(s, front), last);
      RoundMeaning(Rounds(s, front), last.profile, last.record);
      OwnersStep(s, Rounds(s, front), Rounds(s, jobs), names, NamesOf(front), last.profile, last.record);
    }
  }

  // ---------------------------------------------------------------- second pass

  /** Seen from s, the profiles in `names` have been reconciled in m. */
  ghost predicate Settled(s: State, m: State, names: set<string>) {
    && UniqueIds(ListOf(m)) && AtRest(s, m)
    && (forall p :: p in names ==> SettledAt(s, m, p))
  }

  ghost predicate SettledAt(s: State, m: State, p: string) {
    && Live(s, p)
    && Lookup(ListOf(m), p).Some? && IsRecordOf(Lookup(ListOf(m), p).value, InputsAt(s, p))
    && HasUid(Base(m.cm).owners, OwnerOf(s, p).uid)
  }

  /** The same ids at the same positions, the same records up to the order of printed
      options, the same owners and the same mapping text. */
  ghost predicate Similar(m: State, r: State) {
    && SameUpToOptions(ListOf(m), ListOf(r))
    && Base(r.cm).owners == Base(m.cm).owners && Base(r.cm).mapping == Base(m.cm).mapping
  }

  ghost predicate SameUpToOptions(l: seq<Record>, l': seq<Record>) {
    |l'| == |l| && forall i :: 0 <= i < |l| ==> l'[i].clusterId == l[i].clusterId && Blank(l'[i]) == Blank(l[i])
  }

  lemma ReplacedIsSimilar(l: seq<Record>, l': seq<Record>, record: Record, inputs: Inputs)
    requires UniqueIds(l) && |l'| == |l| && Lookup(l, inputs.name).Some?
    requires IsRecordOf(record, inputs) && IsRecordOf(Lookup(l, inputs.name).value, inputs)
    requires forall i :: 0 <= i < |l| ==> l'[i] == if l[i].clusterId == inputs.name then record else l[i]
    ensures SameUpToOptions(l, l')
    ensures OptionsAreFew(inputs) ==> record == Lookup(l, inputs.name).value
  {
    RecordsAgree(record, Lookup(l, inputs.name).value, inputs);
    assert record.clusterId == inputs.name;
    hide IsRecordOf, Blank;
    forall i | 0 <= i < |l| ensures l'[i].clusterId == l[i].clusterId && Blank(l'[i]) == Blank(l[i]) {
      if l[i].clusterId == inputs.name {
        LookupIs(l, i);
      }
    }
  }

  lemma StaysSettled(s: State, m: State, r: State, names: set<string>, p: string, record: Record)
    requires Settled(s, m, names) && p in names && IsRecordOf(record, InputsAt(s, p)) && record.clusterId == p
    requires AtRest(m, r) && ListOf(r) == ClusterInfo.Upsert(ListOf(m), record) && Base(r.cm).owners == Base(m.cm).owners
    ensures Settled(s, r, names)
  {
    RestsOn(s, m, r);
    UpsertMeaning(ListOf(m), record);
    hide IsRecordOf, Lookup, UniqueIds, ClusterInfo.Upsert, AtRest, Live, HasUid;
    forall q | q in names ensures SettledAt(s, r, q) {
      assert SettledAt(s, m, q);
    }
  }

  lemma RecordedOwnersStay(m: State, r: State, p: string, record: Record)
    requires Live(m, p) && RoundResult(m, r, p, record) && HasUid(Base(m.cm).owners, OwnerOf(m, p).uid)
    ensures Base(r.cm).owners == Base(m.cm).owners && Base(r.cm).mapping == Base(m.cm).mapping
  {
    RoundOwners(m, r, p, record);
    hide RoundResult;
  }

  lemma RoundOfSettled(m: State, p: string, record: Record)
    requires Live(m, p) && IsRecordOf(record, InputsAt(m, p)) && HasUid(Base(m.cm).owners, OwnerOf(m, p).uid)
    ensures var r := Round(m, p, record);
            && ListOf(r) == ClusterInfo.Upsert(ListOf(m), record) && AtRest(m, r)
            && Base(r.cm).owners == Base(m.cm).owners && Base(r.cm).mapping == Base(m.cm).mapping
  {
    hide Round, RoundResult, IsRecordOf, ClusterInfo.Upsert, AtRest, InputsAt, HasUid, ListOf;
    PossibleRound(m, Job(p, record));
    RoundMeaning(m, p, record);
    RecordedOwnersStay(m, Round(m, p, record), p, record);
  }

  /** One step of the second pass. */
  lemma FurtherStep(s: State, m: State, names: set<string>, job: Job)
    requires Settled(s, m, names) && job.profile in names && Possible(s, job)
    ensures var r := Round(m, job.profile, job.record);
            && Settled(s, r, names) && Similar(m, r)
            && (OptionsAreFew(InputsAt(s, job.profile)) ==> r.cm == m.cm)
  {
    hide Round, IsRecordOf, Lookup, UniqueIds, ClusterInfo.Upsert, InputsAt, HasUid, ListOf, SameUpToOptions;
    var p, record := job.profile, job.record;
    assert SettledAt(s, m, p) && Rests(s, m, p);
    JobNamesProfile(s, job);
    RoundOfSettled(m, p, record);
    FurtherRound(m, p, record);
    NamedInputs(s, p);
    var r := Round(m, p, record);
    ReplacedIsSimilar(ListOf(m), ListOf(r), record, InputsAt(s, p));
    hide Rests, SettledAt;
    StaysSettled(s, m, r, names, p, record);
  }

  lemma NamedInputs(s: State, p: string)
    requires Live(s, p)
    ensures InputsAt(s, p).name == p
  {
  }

  lemma SimilarOn(a: State, b: State, c: State)
    requires Similar(a, b) && Similar(b, c)
    ensures Similar(a, c)
  {
    hide Blank, ListOf;
  }

  lemma SimilarToItself(a: State)
    ensures Similar(a, a)
  {
  }

  /** A second pass over settled profiles, in any order and however often. */
  lemma {:induction false} FurtherPass(s: State, x: State, names: set<string>, jobs: seq<Job>)
    requires Settled(s, x, names) && AllPossible(s, jobs) && NamesOf(jobs) <= names
    ensures var y := Rounds(x, jobs);
            && Settled(s, y, names) && Similar(x, y)
            && ((forall p :: p in names ==> OptionsAreFew(InputsAt(s, p))) ==> y.cm == x.cm)
  {
    hide Round, Similar, Possible;
    if jobs == [] {
      SimilarToItself(x);
    } else {
      var front, last := jobs[..|jobs| - 1], jobs[|jobs| - 1];
      assert jobs == front + [last];
      NamesOneMore(front, last);
      FurtherPass(s, x, names, front);
      assert Possible(s, last);
      FurtherStep(s, Rounds(x, front), names, last);
      SimilarOn(x, Rounds(x, front), Rounds(x, jobs));
    }
  }

  lemma SettledAfterRounds(s: State, jobs: seq<Job>)
    requires UniqueIds(ListOf(s)) && AllPossible(s, jobs) && Identified(s, NamesOf(jobs))
    ensures Settled(s, Rounds(s, jobs), NamesOf(jobs))
  {
    Settles(s, jobs);
    OwnersAfterRounds(s, jobs, NamesOf(jobs));
    var x := Rounds(s, jobs);
    hide Rounds, Live, InputsAt, UniqueIds, Lookup, AtRest, ListOf;
    forall p | p in NamesOf(jobs) ensures SettledAt(s, x, p) {
      assert Covers(jobs, p);
      assert OwnRef(s, p) in Base(x.cm).owners;
    }
  }

  /** Quiescence. Once every profile has been reconciled, in any order, a further pass
      over them, in any order, keeps ids, positions, owners and mapping text, and the
      records up to the order of printed options; when no option map has two entries it
      does not write the config map at all. */
  lemma SecondPassChangesNothing(s: State, a: seq<Job>, b: seq<Job>)
    requires UniqueIds(ListOf(s)) && AllPossible(s, a) && AllPossible(s, b)
    requires Identified(s, NamesOf(a)) && NamesOf(b) <= NamesOf(a)
    ensures var x, y := Rounds(s, a), Rounds(Rounds(s, a), b);
            && Similar(x, y)
            && (forall p :: p in NamesOf(a) ==> OwnRef(s, p) in Base(x.cm).owners && OwnRef(s, p) in Base(y.cm).owners)
            && ((forall p :: p in NamesOf(a) ==> OptionsAreFew(InputsAt(s, p))) ==> y.cm == x.cm)
  {
    SettledAfterRounds(s, a);
    OwnersAfterRounds(s, a, NamesOf(a));
    FurtherPass(s, Rounds(s, a), NamesOf(a), b);
  }

  ghost predicate NoPassWrites(s: State, a: seq<Job>) {
    forall b :: AllPossible(s, b) && NamesOf(b) <= NamesOf(a) ==> Rounds(Rounds(s, a), b).cm == Rounds(s, a).cm
  }

  /** No further pass writes the config map, whatever it composes, if and only if no
      option map of any of the profiles has two entries. */
  lemma SecondPassWritesNothingIffFew(s: State, a: seq<Job>)
    requires UniqueIds(ListOf(s)) && AllPossible(s, a) && Identified(s, NamesOf(a))
    requires forall p :: p in NamesOf(a) ==> OptionsAreFree(InputsAt(s, p))
    ensures NoPassWrites(s, a) <==> forall p :: p in NamesOf(a) ==> OptionsAreFew(InputsAt(s, p))
  {
    var x := Rounds(s, a);
    if p :| p in NamesOf(a) && !OptionsAreFew(InputsAt(s, p)) {
      var b := SomePassWrites(s, x, NamesOf(a), a, p);
    } else {
      forall b | AllPossible(s, b) && NamesOf(b) <= NamesOf(a) ensures Rounds(x, b).cm == x.cm {
        SecondPassChangesNothing(s, a, b);
      }
    }
  }

  lemma SomePassWrites(s: State, x: State, names: set<string>, a: seq<Job>, p: string) returns (b: seq<Job>)
    requires UniqueIds(ListOf(s)) && AllPossible(s, a) && Identified(s, NamesOf(a))
    requires x == Rounds(s, a) && names == NamesOf(a) && p in names
    requires OptionsAreFree(InputsAt(s, p)) && !OptionsAreFew(InputsAt(s, p))
    ensures AllPossible(s, b) && NamesOf(b) <= names && Rounds(x, b).cm != x.cm
  {
    hide Round, IsRecordOf, Lookup, UniqueIds, InputsAt, HasUid, ListOf;
    SettledAfterRounds(s, a);
    assert SettledAt(s, x, p) && Rests(s, x, p);
    var other := OtherRecord(Lookup(ListOf(x), p).value, InputsAt(s, p));
    FurtherRound(x, p, other);
    b := [Job(p, other)];
    assert b[..0] == [];
  }

  // -------------------------------------------------------------------- witness

  const TWO_OPTIONS := map["a" := "1", "b" := "2"]

  lemma TwoOptionTexts()
    ensures IsPrinting("a=1,b=2", TWO_OPTIONS, "=", ",") && IsPrinting("b=2,a=1", TWO_OPTIONS, "=", ",")
  {
    var ab, ba := ["a", "b"], ["b", "a"];
    assert ab[..1] == ["a"] && ba[..1] == ["b"] && ["a"][..0] == [] && ["b"][..0] == [];
    assert Print(["a"], TWO_OPTIONS, "=", ",") == "a=1" && Print(["b"], TWO_OPTIONS, "=", ",") == "b=2";
    assert Print(ab, TWO_OPTIONS, "=", ",") == "a=1,b=2" && Enumerates(ab, TWO_OPTIONS);
    assert Print(ba, TWO_OPTIONS, "=", ",") == "b=2,a=1" && Enumerates(ba, TWO_OPTIONS);
  }

  /** A namespace with one profile, p, that has two kernel mount options. */
  function OneProfile(namespace: string): State {
    var spec := ProfileSpec("c", Some(CephFs("", Some(TWO_OPTIONS), None, None, None)), None, None);
    Initial(namespace).(clock := 2,
                        profiles := map["p" := Stored(0, Profile("u", false, false, false, spec))],
                        connections := map["c" := Stored(1, Connection([], ConnectionSpec([], None, 0)))])
  }

  lemma OneProfileIsLive(namespace: string)
    ensures var s := OneProfile(namespace);
            Live(s, "p") && UniqueIds(ListOf(s)) && InputsAt(s, "p").spec == s.profiles["p"].value.spec
  {
    var s := OneProfile(namespace);
    assert forall c :: !ReadyFor(s, c, "p");
  }

  /** There the second of two reconciles in a row writes the config map again: it
      prints the same options in the other order. */
  lemma SecondReconcileWrites(namespace: string) returns (first: Record, second: Record)
    ensures var s := OneProfile(namespace);
            && Live(s, "p") && IsRecordOf(first, InputsAt(s, "p")) && IsRecordOf(second, InputsAt(s, "p"))
            && first.cephFs.kernelMountOptions == "a=1,b=2" && second.cephFs.kernelMountOptions == "b=2,a=1"
            && var once := Round(s, "p", first);
            && Live(once, "p") && InputsAt(once, "p") == InputsAt(s, "p")
            && Round(once, "p", second).cm != once.cm
  {
    var s := OneProfile(namespace);
    OneProfileIsLive(namespace);
    TwoOptionTexts();
    var inputs := InputsAt(s, "p");
    RecordWithIs(inputs, "a=1,b=2", "");
    RecordWithIs(inputs, "b=2,a=1", "");
    first, second := RecordWith(inputs, "a=1,b=2", ""), RecordWith(inputs, "b=2,a=1", "");
    assert first.cephFs.kernelMountOptions[0] != second.cephFs.kernelMountOptions[0];
    hide OneProfile, Round, RecordWith, IsRecordOf, InputsAt, ListOf;
    OnceThenAgain(s, "p", first, second);
  }

  /** A reconcile that composes another record than the one before writes again. */
  lemma OnceThenAgain(s: State, p: string, first: Record, second: Record)
    requires UniqueIds(ListOf(s)) && Live(s, p) && first != second
    requires IsRecordOf(first, InputsAt(s, p)) && IsRecordOf(second, InputsAt(s, p))
    ensures var once := Round(s, p, first);
            Live(once, p) && InputsAt(once, p) == InputsAt(s, p) && Round(once, p, second).cm != once.cm
  {
    hide Round, IsRecordOf, InputsAt, ListOf, UniqueIds, Lookup, HasUid;
    var once := Round(s, p, first);
    PossibleRound(s, Job(p, first));
    OwnerAfterRound(s, p, first);
    JobNamesProfile(s, Job(p, first));
    UpsertMeaning(ListOf(s), first);
    assert Rests(s, once, p);
    FurtherRound(once, p, second);
  }
}
