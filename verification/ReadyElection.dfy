/** Over whole runs: which replication may be Ready, and when two of them can be. */
module ReadyElection {
  import opened Prelude
  import opened OwnerReferences
  import opened ClusterInfo
  import opened Protocol
  import opened Election

  ghost predicate CarriesReady(s: State, c: string) {
    && c in s.replicationTasks && s.replicationTasks[c].Decided? && s.replicationTasks[c].phase == Ready
    && Current(s.replications, c, s.replicationTasks[c].self.version)
  }

  /** Ready, or about to be: a decision is in flight and its write will go through. */
  ghost predicate Promised(s: State, c: string) {
    c in s.replications && (s.replications[c].value.phase == Ready || CarriesReady(s, c))
  }

  ghost predicate OldestOfItsProfile(s: State, c: string)
    requires c in s.replications
  {
    IsOldest(s, c, s.replications[c].value.spec.local)
  }

  /** Every replication that is Ready, or about to be, is the oldest one of its profile. */
  ghost predicate Elected(s: State) {
    forall c :: Promised(s, c) ==> OldestOfItsProfile(s, c)
  }

  /** Copies held by reconciles in flight are old, or current. */
  ghost predicate Fresh(s: State) {
    && (forall c :: c in s.replications ==> s.replications[c].version < s.clock)
    && (forall c :: c in s.replicationTasks ==> CopyOk(s, c, s.replicationTasks[c].self))
  }

  ghost predicate CopyOk(s: State, c: string, self: Stored<Replication>) {
    self.version < s.clock && (Current(s.replications, c, self.version) ==> s.replications[c] == self)
  }

  ghost predicate PromisedFor(s: State, d: string, p: string) {
    Promised(s, d) && References(s, d, p)
  }

  /** The new replication is later than any that is Ready, or about to be, for its profile. */
  ghost predicate JoinsLast(s: State, c: string, created: int, p: string) {
    forall d :: d != c && PromisedFor(s, d, p) ==>
      Earlier(Candidate(d, s.replications[d].value.created), Candidate(c, created))
  }

  /** What an event must respect: who is Ready is earlier than a newcomer, and a Ready
      replication moves only to a profile whose replications are all later. */
  ghost predicate KeepsOrder(s: State, e: Event) {
    if e.CreateReplication? then
      e.c in s.replications || JoinsLast(s, e.c, e.created, e.rspec.local)
    else if e.EditReplication? then
      || e.c !in s.replications
      || e.rspec.local == s.replications[e.c].value.spec.local
      || (&& JoinsLast(s, e.c, s.replications[e.c].value.created, e.rspec.local)
          && (s.replications[e.c].value.phase == Ready ==>
                forall d :: d != e.c && References(s, d, e.rspec.local) ==> Before(s, e.c, d)))
    else true
  }

  // ----------------------------------------------------------------- one step

  ghost predicate SameReplications(s: State, s': State) {
    s'.replications == s.replications && s'.replicationTasks == s.replicationTasks && s'.clock == s.clock + 1
  }

  lemma Unrelated(s: State, s': State)
    requires SameReplications(s, s')
    ensures Elected(s') <==> Elected(s)
    ensures Fresh(s) ==> Fresh(s')
  {
    assert forall c :: Promised(s', c) <==> Promised(s, c);
    forall c | c in s.replications ensures OldestOfItsProfile(s', c) <==> OldestOfItsProfile(s, c) {
      SameOldest(s, s', c);
    }
  }

  ghost predicate TouchesReplications(e: Event) {
    e.CreateReplication? || e.EditReplication? || e.DropReplication? || e.Restart? || OfReplication(e)
  }

  lemma ElsewhereNothing(s: State, e: Event)
    requires !TouchesReplications(e)
    ensures SameReplications(s, Next(s, e))
  {
    hide StepProfile, StepReplication, StepMapping, StepDriver, StepEnvironment;
  }

  /** d stays the oldest of its profile exactly when it is earlier than the new or
      edited c, if that belongs to the same profile. */
  lemma OneMoreRival(s: State, s': State, d: string, c: string, v: Stored<Replication>)
    requires d != c && d in s.replications && s'.replications == s.replications[c := v]
    requires OldestOfItsProfile(s, d)
    ensures OldestOfItsProfile(s', d) <==>
            (v.value.spec.local == s.replications[d].value.spec.local ==> Before(s', d, c))
  {
    var p := s.replications[d].value.spec.local;
    assert forall x :: x != c ==> (References(s', x, p) <==> References(s, x, p));
  }

  /** The others keep their promises; c has one exactly when it is Ready. */
  lemma PromisesAround(s: State, s': State, c: string, v: Stored<Replication>)
    requires Fresh(s) && v.version == s.clock
    requires s'.replications == s.replications[c := v] && s'.replicationTasks == s.replicationTasks
    ensures forall d :: d != c ==> (Promised(s', d) <==> Promised(s, d))
    ensures Promised(s', c) <==> v.value.phase == Ready
  {
  }

  lemma FreshAfterWrite(s: State, s': State, c: string, v: Stored<Replication>)
    requires Fresh(s) && v.version == s.clock && s'.clock == s.clock + 1
    requires s'.replications == s.replications[c := v]
    requires forall x :: x in s'.replicationTasks ==> x in s.replicationTasks && s'.replicationTasks[x] == s.replicationTasks[x]
    ensures Fresh(s')
  {
    forall x | x in s'.replicationTasks ensures CopyOk(s', x, s'.replicationTasks[x].self) {
      assert CopyOk(s, x, s.replicationTasks[x].self);
    }
  }

  /** The newcomers' rule, as a condition on the state after. */
  lemma RivalsOfNewcomer(s: State, s': State, c: string, v: Stored<Replication>)
    requires Fresh(s) && Elected(s) && v.version == s.clock
    requires s'.replications == s.replications[c := v] && s'.replicationTasks == s.replicationTasks
    ensures (forall d :: d != c && Promised(s', d) ==> OldestOfItsProfile(s', d)) <==>
            JoinsLast(s, c, v.value.created, v.value.spec.local)
  {
    PromisesAround(s, s', c, v);
    forall d | d != c && Promised(s, d)
      ensures OldestOfItsProfile(s', d) <==>
              (v.value.spec.local == s.replications[d].value.spec.local ==>
                 Earlier(Candidate(d, s.replications[d].value.created), Candidate(c, v.value.created)))
    {
      OneMoreRival(s, s', d, c, v);
    }
  }

  lemma AfterCreate(s: State, e: Event, s': State)
    requires Fresh(s) && Elected(s) && e.CreateReplication? && s' == StepEnvironment(s, e).(clock := s.clock + 1)
    ensures Fresh(s') && (Elected(s') <==> KeepsOrder(s, e))
  {
    if e.c in s.replications {
      Unrelated(s, s');
    } else {
      var v := Stored(s.clock, Replication(e.uid, e.created, e.owners, e.rspec, NoPhase));
      PromisesAround(s, s', e.c, v);
      FreshAfterWrite(s, s', e.c, v);
      RivalsOfNewcomer(s, s', e.c, v);
    }
  }

  /** A Ready replication that moved is the oldest exactly when all of the new profile are later. */
  lemma MovedOldest(s: State, s': State, c: string, v: Stored<Replication>)
    requires c in s.replications && s'.replications == s.replications[c := v]
    requires v.value.created == s.replications[c].value.created
    ensures OldestOfItsProfile(s', c) <==> forall d :: d != c && References(s, d, v.value.spec.local) ==> Before(s, c, d)
  {
    var p := v.value.spec.local;
    assert forall x :: x != c ==> (References(s', x, p) <==> References(s, x, p));
    assert References(s', c, p);
    assert forall x :: x != c && References(s, x, p) ==> (Before(s', c, x) <==> Before(s, c, x));
  }

  lemma AfterEdit(s: State, e: Event, s': State)
    requires Fresh(s) && Elected(s) && e.EditReplication? && s' == StepEnvironment(s, e).(clock := s.clock + 1)
    ensures Fresh(s') && (Elected(s') <==> KeepsOrder(s, e))
  {
    var c := e.c;
    if c !in s.replications {
      Unrelated(s, s');
    } else {
      var held := s.replications[c];
      var v := Write(held, held.value.(owners := e.owners, spec := e.rspec), s.clock);
      if v == held {
        assert s.replications[c := held] == s.replications;
        Unrelated(s, s');
      } else {
        PromisesAround(s, s', c, v);
        FreshAfterWrite(s, s', c, v);
        RivalsOfNewcomer(s, s', c, v);
        MovedOldest(s, s', c, v);
        if e.rspec.local == held.value.spec.local {
          StaysWhereItIs(s, c);
        }
      }
    }
  }

  /** Within its own profile a replication is later than whoever is promised there. */
  lemma StaysWhereItIs(s: State, c: string)
    requires Elected(s) && c in s.replications
    ensures JoinsLast(s, c, s.replications[c].value.created, s.replications[c].value.spec.local)
    ensures s.replications[c].value.phase == Ready ==>
              forall d :: d != c && References(s, d, s.replications[c].value.spec.local) ==> Before(s, c, d)
  {
    var p := s.replications[c].value.spec.local;
    assert References(s, c, p);
    forall d | d != c && PromisedFor(s, d, p)
      ensures Earlier(Candidate(d, s.replications[d].value.created), Candidate(c, s.replications[c].value.created))
    {
      assert OldestOfItsProfile(s, d);
      assert Before(s, d, c);
    }
    if s.replications[c].value.phase == Ready {
      assert Promised(s, c);
    }
  }

  lemma AfterDrop(s: State, e: Event, s': State)
    requires Fresh(s) && Elected(s) && e.DropReplication? && s' == StepEnvironment(s, e).(clock := s.clock + 1)
    ensures Fresh(s') && Elected(s')
  {
    forall d | Promised(s', d) ensures OldestOfItsProfile(s', d) {
      assert Promised(s, d);
      var p := s.replications[d].value.spec.local;
      assert forall x :: References(s', x, p) ==> References(s, x, p);
    }
    forall x | x in s'.replicationTasks ensures CopyOk(s', x, s'.replicationTasks[x].self) {
      assert CopyOk(s, x, s.replicationTasks[x].self);
    }
  }

  lemma AfterRestart(s: State, e: Event, s': State)
    requires Fresh(s) && Elected(s) && e.Restart? && s'.replicationTasks == map[]
    requires s'.replications == s.replications && s'.clock == s.clock + 1
    ensures Fresh(s') && Elected(s')
  {
    forall d | Promised(s', d) ensures OldestOfItsProfile(s', d) {
      assert Promised(s, d);
      SameOldest(s, s', d);
    }
  }

  lemma SameOldest(s: State, s': State, d: string)
    requires s'.replications == s.replications && d in s.replications
    ensures OldestOfItsProfile(s', d) <==> OldestOfItsProfile(s, d)
  {
    var p := s.replications[d].value.spec.local;
    assert forall x :: References(s', x, p) <==> References(s, x, p);
  }

  /** A step within a reconcile of c: only its task changes, and a new promise is
      one that the list it has just read supports. */
  lemma AfterTaskStep(s: State, s': State, c: string)
    requires Fresh(s) && Elected(s)
    requires s'.replications == s.replications && s'.clock == s.clock + 1
    requires forall x :: x != c ==> (x in s'.replicationTasks <==> x in s.replicationTasks)
    requires forall x :: x != c && x in s.replicationTasks ==> s'.replicationTasks[x] == s.replicationTasks[x]
    requires c in s'.replicationTasks ==>
               var t := s'.replicationTasks[c];
               && CopyOk(s, c, t.self)
               && (t.Decided? && t.phase == Ready ==> IsOldest(s, c, t.self.value.spec.local))
    ensures Fresh(s') && Elected(s')
  {
    forall x | x in s'.replicationTasks ensures CopyOk(s', x, s'.replicationTasks[x].self) {
      if x != c {
        assert CopyOk(s, x, s.replicationTasks[x].self);
      }
    }
    forall d | Promised(s', d) ensures OldestOfItsProfile(s', d) {
      SameOldest(s, s', d);
      if d != c && CarriesReady(s', d) {
        assert Promised(s, d);
      } else if s.replications[d].value.phase == Ready {
        assert Promised(s, d);
      }
    }
  }

  lemma AfterReading(s: State, c: string, s': State)
    requires Fresh(s) && Elected(s)
    requires s' == GetReplication(s, c).(clock := s.clock + 1) || s' == FindProfile(s, c).(clock := s.clock + 1)
    ensures Fresh(s') && Elected(s')
  {
    assert c in s.replicationTasks ==> CopyOk(s, c, s.replicationTasks[c].self);
    if s'.replicationTasks == s.replicationTasks {
      Unrelated(s, s');
    } else {
      AfterTaskStep(s, s', c);
    }
  }

  lemma AfterElect(s: State, c: string, s': State)
    requires Fresh(s) && Elected(s) && s' == Elect(s, c).(clock := s.clock + 1)
    ensures Fresh(s') && Elected(s')
  {
    assert c in s.replicationTasks ==> CopyOk(s, c, s.replicationTasks[c].self);
    if s'.replicationTasks == s.replicationTasks {
      Unrelated(s, s');
    } else {
      AfterTaskStep(s, s', c);
    }
  }

  lemma AfterStatusWrite(s: State, c: string, s': State)
    requires Fresh(s) && Elected(s) && s' == ReplicationStatus(s, c).(clock := s.clock + 1)
    ensures Fresh(s') && Elected(s')
  {
    if c in s.replicationTasks && s.replicationTasks[c].Decided? {
      StatusKeepsFresh(s, c, s');
      StatusKeepsFields(s, c, s');
      hide ReplicationStatus, Fresh, OldestOfItsProfile;
      forall d | Promised(s', d) ensures OldestOfItsProfile(s', d) {
        StatusKeepsPromises(s, c, s', d);
        SameFields(s, s', d);
      }
    } else {
      Unrelated(s, s');
    }
  }

  /** The status write replaces c by a copy with another phase, or does nothing. */
  lemma StatusIs(s: State, c: string, s': State)
    requires c in s.replicationTasks && CopyOk(s, c, s.replicationTasks[c].self)
    requires s.replicationTasks[c].Decided? && s' == ReplicationStatus(s, c).(clock := s.clock + 1)
    ensures if Current(s.replications, c, s.replicationTasks[c].self.version)
            then s'.replications == s.replications[c := s'.replications[c]] && c in s'.replications
                 && s'.replications[c].value == s.replications[c].value.(phase := s.replicationTasks[c].phase)
            else s'.replications == s.replications
    ensures s'.replicationTasks == s.replicationTasks - {c}
  {
  }

  lemma StatusKeepsFields(s: State, c: string, s': State)
    requires Fresh(s) && c in s.replicationTasks && s.replicationTasks[c].Decided?
    requires s' == ReplicationStatus(s, c).(clock := s.clock + 1)
    ensures s'.replications.Keys == s.replications.Keys
    ensures forall x :: x in s.replications ==>
              && s'.replications[x].value.spec.local == s.replications[x].value.spec.local
              && s'.replications[x].value.created == s.replications[x].value.created
  {
    assert CopyOk(s, c, s.replicationTasks[c].self);
    StatusIs(s, c, s');
    hide ReplicationStatus, Fresh, CopyOk;
  }

  lemma StatusKeepsPromises(s: State, c: string, s': State, d: string)
    requires Fresh(s) && c in s.replicationTasks && s.replicationTasks[c].Decided?
    requires s' == ReplicationStatus(s, c).(clock := s.clock + 1) && Promised(s', d)
    ensures Promised(s, d)
  {
    assert CopyOk(s, c, s.replicationTasks[c].self);
    StatusIs(s, c, s');
    hide ReplicationStatus, Fresh, CopyOk;
  }

  lemma StatusKeepsFresh(s: State, c: string, s': State)
    requires Fresh(s) && s' == ReplicationStatus(s, c).(clock := s.clock + 1)
    ensures Fresh(s')
  {
    if s'.replications == s.replications {
      forall x | x in s'.replicationTasks ensures CopyOk(s', x, s'.replicationTasks[x].self) {
        assert CopyOk(s, x, s.replicationTasks[x].self);
      }
    } else {
      assert s.replications[c := s.replications[c]] == s.replications;
      FreshAfterWrite(s, s', c, s'.replications[c]);
    }
  }

  /** A write that changes no name, age or profile changes no order. */
  lemma SameFields(s: State, s': State, d: string)
    requires s'.replications.Keys == s.replications.Keys && d in s.replications
    requires forall x :: x in s.replications ==>
               && s'.replications[x].value.spec.local == s.replications[x].value.spec.local
               && s'.replications[x].value.created == s.replications[x].value.created
    ensures OldestOfItsProfile(s', d) <==> OldestOfItsProfile(s, d)
  {
    var p := s.replications[d].value.spec.local;
    assert forall x :: References(s', x, p) <==> References(s, x, p);
  }

  /** One event keeps "whoever is Ready, or about to be, is the oldest" exactly when
      it respects the order. */
  lemma StepElects(s: State, e: Event)
    requires Fresh(s) && Elected(s)
    ensures Fresh(Next(s, e)) && (Elected(Next(s, e)) <==> KeepsOrder(s, e))
  {
    hide Next, StepEnvironment, GetReplication, FindProfile, Elect, ReplicationStatus, Fresh, Elected, JoinsLast;
    var s' := Next(s, e);
    if OfReplication(e) {
      ReplicationSteps(s, e);
    } else if TouchesReplications(e) {
      EnvironmentSteps(s, e);
    }
    if !TouchesReplications(e) {
      ElsewhereNothing(s, e);
      Unrelated(s, s');
    } else if e.CreateReplication? {
      AfterCreate(s, e, s');
    } else if e.EditReplication? {
      AfterEdit(s, e, s');
    } else if e.DropReplication? {
      AfterDrop(s, e, s');
    } else if e.Restart? {
      AfterRestart(s, e, s');
    } else if e.RElect? {
      AfterElect(s, e.c, s');
    } else if e.RStatus? {
      AfterStatusWrite(s, e.c, s');
    } else {
      AfterReading(s, e.c, s');
    }
  }

  // --------------------------------------------------------------------- runs

  ghost predicate ElectedAfter(namespace: string, events: seq<Event>) {
    Elected(After(Initial(namespace), events))
  }

  ghost predicate OrderedAfter(namespace: string, events: seq<Event>, e: Event) {
    KeepsOrder(After(Initial(namespace), events), e)
  }

  ghost predicate ElectedThroughout(namespace: string, events: seq<Event>) {
    forall i :: 0 <= i <= |events| ==> ElectedAfter(namespace, events[..i])
  }

  ghost predicate OrderedThroughout(namespace: string, events: seq<Event>) {
    forall i :: 0 <= i < |events| ==> OrderedAfter(namespace, events[..i], events[i])
  }

  lemma ElectedOneMore(namespace: string, front: seq<Event>, e: Event)
    ensures ElectedThroughout(namespace, front + [e]) <==>
            ElectedThroughout(namespace, front) && ElectedAfter(namespace, front + [e])
  {
    hide ElectedAfter;
    var events := front + [e];
    forall i | 0 <= i <= |front| ensures events[..i] == front[..i] {
      PrefixOfSnoc(front, e, i);
    }
    assert events[..|events|] == events;
    if ElectedThroughout(namespace, events) {
      assert ElectedAfter(namespace, events[..|events|]);
      forall i | 0 <= i <= |front| ensures ElectedAfter(namespace, front[..i]) {
        assert ElectedAfter(namespace, events[..i]);
      }
    }
    if ElectedThroughout(namespace, front) && ElectedAfter(namespace, events) {
      forall i | 0 <= i <= |events| ensures ElectedAfter(namespace, events[..i]) {
        if i <= |front| {
          assert ElectedAfter(namespace, front[..i]);
        }
      }
    }
  }

  lemma OrderedOneMore(namespace: string, front: seq<Event>, e: Event)
    ensures OrderedThroughout(namespace, front + [e]) <==>
            OrderedThroughout(namespace, front) && OrderedAfter(namespace, front, e)
  {
    hide OrderedAfter;
    var events := front + [e];
    forall i | 0 <= i <= |front| ensures events[..i] == front[..i] {
      PrefixOfSnoc(front, e, i);
    }
    assert front[..|front|] == front;
    if OrderedThroughout(namespace, events) {
      assert OrderedAfter(namespace, events[..|front|], events[|front|]);
      forall i | 0 <= i < |front| ensures OrderedAfter(namespace, front[..i], front[i]) {
        assert OrderedAfter(namespace, events[..i], events[i]);
      }
    }
    if OrderedThroughout(namespace, front) && OrderedAfter(namespace, front, e) {
      forall i | 0 <= i < |events| ensures OrderedAfter(namespace, events[..i], events[i]) {
        if i < |front| {
          assert OrderedAfter(namespace, front[..i], front[i]);
        }
      }
    }
  }

  /** Over a whole run, every replication that is Ready, or that a decision in flight
      will make Ready, is the oldest of its profile at every moment, exactly when every
      event respects the order. */
  lemma {:induction false} OldestWinsThroughout(namespace: string, events: seq<Event>)
    ensures ElectedThroughout(namespace, events) <==> OrderedThroughout(namespace, events)
    ensures OrderedThroughout(namespace, events) ==>
              var s := After(Initial(namespace), events); Fresh(s) && Elected(s)
  {
    hide Next, KeepsOrder;
    if events != [] {
      var front, e := events[..|events| - 1], events[|events| - 1];
      assert events == front + [e];
      OldestWinsThroughout(namespace, front);
      ElectedOneMore(namespace, front, e);
      OrderedOneMore(namespace, front, e);
      hide ElectedThroughout, OrderedThroughout, Elected, Fresh;
      if OrderedThroughout(namespace, front) {
        StepElects(After(Initial(namespace), front), e);
      }
    } else {
      assert forall i :: 0 <= i <= |events| ==> events[..i] == events;
    }
  }

  // ------------------------------------------------- the Ready replications alone

  ghost predicate ReadyIsOldest(s: State) {
    forall c :: c in s.replications && s.replications[c].value.phase == Ready ==> OldestOfItsProfile(s, c)
  }

  ghost predicate OfControllers(e: Event) {
    OfProfile(e) || OfReplication(e) || OfMapping(e) || OfDriver(e)
  }

  ghost predicate AllOfControllers(events: seq<Event>) {
    forall i :: 0 <= i < |events| ==> OfControllers(events[i])
  }

  /** Whatever the controllers do from here on, without users or a restart, every Ready
      replication is the oldest of its profile. */
  ghost predicate ReadySafe(s: State) {
    forall events :: AllOfControllers(events) ==> ReadyIsOldest(After(s, events))
  }

  lemma {:induction false} ControllersKeepElected(s: State, events: seq<Event>)
    requires Fresh(s) && Elected(s) && AllOfControllers(events)
    ensures Fresh(After(s, events)) && Elected(After(s, events))
  {
    hide Next, Fresh, Elected, OfControllers;
    if events != [] {
      var front, e := events[..|events| - 1], events[|events| - 1];
      ControllersKeepElected(s, front);
      assert OfControllers(e);
      ControllerKeepsOrder(After(s, front), e);
      StepElects(After(s, front), e);
    }
  }

  lemma ControllerKeepsOrder(s: State, e: Event)
    requires OfControllers(e)
    ensures KeepsOrder(s, e)
  {
  }

  /** A decision in flight for a replication that is not the oldest gets written. */
  lemma BrokenPromiseShows(s: State, c: string) returns (events: seq<Event>)
    requires Fresh(s) && Promised(s, c) && !OldestOfItsProfile(s, c)
    ensures AllOfControllers(events) && !ReadyIsOldest(After(s, events))
  {
    if s.replications[c].value.phase == Ready {
      events := [];
    } else {
      events := [RStatus(c)];
      assert events[..0] == [];
      ReplicationSteps(s, RStatus(c));
      var s' := Next(s, RStatus(c));
      hide Next;
      assert After(s, events) == s';
      StatusKeepsFields(s, c, s');
      assert CopyOk(s, c, s.replicationTasks[c].self);
      StatusIs(s, c, s');
      hide ReplicationStatus, Fresh;
      SameFields(s, s', c);
    }
  }

  /** The exact meaning of "Ready, or about to be": it is what keeps the Ready ones the
      oldest, whatever the controllers do next. */
  lemma ElectedIffReadySafe(s: State)
    requires Fresh(s)
    ensures Elected(s) <==> ReadySafe(s)
  {
    hide Next;
    if Elected(s) {
      forall events | AllOfControllers(events) ensures ReadyIsOldest(After(s, events)) {
        ControllersKeepElected(s, events);
      }
    } else {
      var c :| Promised(s, c) && !OldestOfItsProfile(s, c);
      var events := BrokenPromiseShows(s, c);
    }
  }

  ghost predicate ReadySafeAfter(namespace: string, events: seq<Event>) {
    ReadySafe(After(Initial(namespace), events))
  }

  ghost predicate ReadySafeThroughout(namespace: string, events: seq<Event>) {
    forall i :: 0 <= i <= |events| ==> ReadySafeAfter(namespace, events[..i])
  }

  lemma ReadySafeOneMore(namespace: string, front: seq<Event>, e: Event)
    ensures ReadySafeThroughout(namespace, front + [e]) <==>
            ReadySafeThroughout(namespace, front) && ReadySafeAfter(namespace, front + [e])
  {
    hide ReadySafeAfter;
    var events := front + [e];
    forall i | 0 <= i <= |front| ensures events[..i] == front[..i] {
      PrefixOfSnoc(front, e, i);
    }
    assert events[..|events|] == events;
    if ReadySafeThroughout(namespace, events) {
      assert ReadySafeAfter(namespace, events[..|events|]);
      forall i | 0 <= i <= |front| ensures ReadySafeAfter(namespace, front[..i]) {
        assert ReadySafeAfter(namespace, events[..i]);
      }
    }
    if ReadySafeThroughout(namespace, front) && ReadySafeAfter(namespace, events) {
      forall i | 0 <= i <= |events| ensures ReadySafeAfter(namespace, events[..i]) {
        if i <= |front| {
          assert ReadySafeAfter(namespace, front[..i]);
        }
      }
    }
  }

  /** The exact condition for the Ready replications alone: at every moment of a run,
      whatever the controllers may do next, they are the oldest of their profiles, if
      and only if every event respects the order. */
  lemma {:induction false} ReadyWinsThroughout(namespace: string, events: seq<Event>)
    ensures ReadySafeThroughout(namespace, events) <==> OrderedThroughout(namespace, events)
  {
    hide Next, KeepsOrder, Initial, ReadySafe;
    OldestWinsThroughout(namespace, events);
    if events == [] {
      assert forall i :: 0 <= i <= |events| ==> events[..i] == events;
      InitialIsElected(namespace);
      ElectedIffReadySafe(After(Initial(namespace), events));
    } else {
      var front, e := events[..|events| - 1], events[|events| - 1];
      assert events == front + [e];
      ReadyWinsThroughout(namespace, front);
      ReadySafeOneMore(namespace, front, e);
      OrderedOneMore(namespace, front, e);
      hide ReadySafeThroughout, OrderedThroughout, ElectedThroughout, Elected, Fresh;
      if OrderedThroughout(namespace, front) {
        OldestWinsThroughout(namespace, front);
        StepElects(After(Initial(namespace), front), e);
        ElectedIffReadySafe(After(Initial(namespace), events));
      }
    }
  }

  lemma InitialIsElected(namespace: string)
    ensures Fresh(Initial(namespace)) && Elected(Initial(namespace))
  {
  }

  ghost predicate NobodyIsReady(s: State) {
    forall d :: d in s.replications ==> s.replications[d].value.phase != Ready
  }

  lemma NobodyBecomesReady(s: State, e: Event)
    requires NobodyIsReady(s) && (e.CreateReplication? || e.Restart?)
    ensures NobodyIsReady(Next(s, e))
  {
    hide Next;
    EnvironmentSteps(s, e);
  }

  /** Looking at the Ready ones of the moment is not enough: an earlier newcomer breaks
      the order while the decision for c is in flight, and a restart that drops the
      decision hides it. No replication was Ready throughout. */
  lemma RestartHidesDisorder(s: State, c: string, e: Event)
    requires Fresh(s) && CarriesReady(s, c) && NobodyIsReady(s)
    requires e.CreateReplication? && e.c !in s.replications && e.rspec.local == s.replications[c].value.spec.local
    requires Earlier(Candidate(e.c, e.created), Candidate(c, s.replications[c].value.created))
    ensures !KeepsOrder(s, e)
    ensures ReadyIsOldest(s) && ReadyIsOldest(Next(s, e)) && ReadyIsOldest(Next(Next(s, e), Restart))
  {
    hide Next, OldestOfItsProfile, Fresh;
    assert PromisedFor(s, c, e.rspec.local);
    EarlierIsStrictTotalOrder(Candidate(e.c, e.created), Candidate(c, s.replications[c].value.created),
                              Candidate(e.c, e.created));
    NobodyBecomesReady(s, e);
    NobodyBecomesReady(Next(s, e), Restart);
  }

  /** So at every moment of such a run no profile has two Ready replications, and the
      consumer's listing does not fail. */
  lemma AtMostOneReady(namespace: string, events: seq<Event>, p: string)
    requires OrderedThroughout(namespace, events)
    ensures !MultipleReady(After(Initial(namespace), events), p)
  {
    hide Next;
    OldestWinsThroughout(namespace, events);
    var s := After(Initial(namespace), events);
    forall c, d | c != d && ReadyFor(s, c, p) && ReadyFor(s, d, p) ensures false {
      assert Promised(s, c) && Promised(s, d);
      OnlyOneOldest(s, c, d, p);
    }
  }

  lemma ListingSucceeds(namespace: string, events: seq<Event>, p: string)
    requires OrderedThroughout(namespace, events) && At(After(Initial(namespace), events), p, OwnedConnection)
    ensures At(List(After(Initial(namespace), events), p), p, Listed)
  {
    AtMostOneReady(namespace, events, p);
    hide Next, MultipleReady;
  }

  /** What users can see to: a new replication is later than all existing ones of its
      profile, and an edit keeps the profile. */
  ghost predicate Orderly(s: State, e: Event) {
    if e.CreateReplication? then
      e.c in s.replications ||
      forall d :: References(s, d, e.rspec.local) ==>
        Earlier(Candidate(d, s.replications[d].value.created), Candidate(e.c, e.created))
    else
      e.EditReplication? && e.c in s.replications ==> e.rspec.local == s.replications[e.c].value.spec.local
  }

  lemma OrderlyKeepsOrder(s: State, e: Event)
    requires Orderly(s, e)
    ensures KeepsOrder(s, e)
  {
  }

  // -------------------------------------------------- an undisturbed reconcile

  ghost function Round(s: State, c: string): State {
    Next(Next(Next(Next(s, RGet(c)), RFindProfile(c)), RElect(c)), RStatus(c))
  }

  /** What a reconcile of c decides when nothing interferes. */
  ghost function Verdict(s: State, c: string): Phase
    requires c in s.replications
  {
    if s.replications[c].value.spec.local in s.profiles && OldestOfItsProfile(s, c) then Ready else Rejected
  }

  /** Same objects, but for the status of c. */
  ghost predicate OnlyPhase(s: State, s': State, c: string, phase: Phase)
    requires c in s.replications
  {
    && s'.profiles == s.profiles && s'.replicationTasks == s.replicationTasks
    && s'.replications.Keys == s.replications.Keys
    && (forall d :: d != c && d in s.replications ==> s'.replications[d] == s.replications[d])
    && s'.replications[c].value == s.replications[c].value.(phase := phase)
  }

  /** s with the task of c set, n ticks later. */
  ghost function WithTask(s: State, c: string, t: ReplicationTask, n: nat): State {
    s.(replicationTasks := s.replicationTasks[c := t], clock := s.clock + n)
  }

  lemma RoundFindsProfile(s: State, c: string)
    requires c in s.replications && c !in s.replicationTasks
    ensures var self := s.replications[c];
            Next(Next(s, RGet(c)), RFindProfile(c)) ==
            WithTask(s, c, if self.value.spec.local in s.profiles then ProfileFound(self) else Decided(self, Rejected), 2)
  {
    hide Next, Elect, ReplicationStatus, OnlyReplicationTask, Calm;
    ReplicationSteps(s, RGet(c));
    ReplicationSteps(Next(s, RGet(c)), RFindProfile(c));
  }

  lemma RoundDecides(s: State, c: string, s2: State)
    requires c in s.replications && c !in s.replicationTasks
    requires var self := s.replications[c];
             s2 == WithTask(s, c, if self.value.spec.local in s.profiles then ProfileFound(self) else Decided(self, Rejected), 2)
    ensures Next(s2, RElect(c)) == WithTask(s, c, Decided(s.replications[c], Verdict(s, c)), 3)
  {
    hide Next, OnlyReplicationTask, Calm, GetReplication, FindProfile, ReplicationStatus, IsOldest;
    ReplicationSteps(s2, RElect(c));
    assert References(s2, c, s.replications[c].value.spec.local);
    SameOldest(s, s2, c);
  }

  lemma RoundWrites(s: State, c: string, s3: State)
    requires c in s.replications && c !in s.replicationTasks
    requires s3 == WithTask(s, c, Decided(s.replications[c], Verdict(s, c)), 3)
    ensures OnlyPhase(s, Next(s3, RStatus(c)), c, Verdict(s, c))
  {
    hide Next;
    ReplicationSteps(s3, RStatus(c));
  }

  lemma RoundMeaning(s: State, c: string)
    requires c in s.replications && c !in s.replicationTasks
    ensures OnlyPhase(s, Round(s, c), c, Verdict(s, c))
    ensures var p := s.replications[c].value.spec.local;
            Verdict(s, c) == if p in s.profiles && FirstCreated(s, c, p) then Ready else Rejected
  {
    OldestIsFirstCreated(s, c, s.replications[c].value.spec.local);
    hide Next, OnlyPhase, WithTask, FirstCreated, IsOldest;
    var s2 := Next(Next(s, RGet(c)), RFindProfile(c));
    RoundFindsProfile(s, c);
    RoundDecides(s, c, s2);
    RoundWrites(s, c, Next(s2, RElect(c)));
  }

  // ------------------------------------------------- every replication once

  /** One undisturbed reconcile after the other. */
  ghost function Rounds(s: State, order: seq<string>): State {
    if order == [] then s else Round(Rounds(s, order[..|order| - 1]), order[|order| - 1])
  }

  ghost predicate Settled(s: State, s': State, order: seq<string>) {
    && s'.profiles == s.profiles && s'.replicationTasks == s.replicationTasks
    && s'.replications.Keys == s.replications.Keys
    && (forall c :: c in s.replications ==>
          s'.replications[c].value ==
          if c in order then s.replications[c].value.(phase := Verdict(s, c)) else s.replications[c].value)
  }

  lemma SameVerdict(s: State, s': State, c: string)
    requires c in s.replications && s'.profiles == s.profiles && s'.replications.Keys == s.replications.Keys
    requires forall x :: x in s.replications ==>
               && s'.replications[x].value.spec.local == s.replications[x].value.spec.local
               && s'.replications[x].value.created == s.replications[x].value.created
    ensures Verdict(s', c) == Verdict(s, c)
  {
    SameFields(s, s', c);
  }

  lemma {:induction false} RoundsSettle(s: State, order: seq<string>)
    requires forall c :: c in order ==> c in s.replications && c !in s.replicationTasks
    ensures Settled(s, Rounds(s, order), order)
  {
    hide Next;
    if order != [] {
      var front, c := order[..|order| - 1], order[|order| - 1];
      assert order == front + [c];
      RoundsSettle(s, front);
      var before := Rounds(s, front);
      SameVerdict(s, before, c);
      RoundMeaning(before, c);
      hide Round, Verdict;
    }
  }

  /** Once every replication of p has been reconciled, in any order and however often,
      a single one is Ready, the oldest, and the rest are Rejected; all are Rejected
      when p does not exist. */
  lemma ElectionSettles(s: State, order: seq<string>, p: string)
    requires forall c :: c in order ==> c in s.replications && c !in s.replicationTasks
    requires forall c :: References(s, c, p) ==> c in order
    ensures var s' := Rounds(s, order);
            && (forall c :: References(s', c, p) <==> References(s, c, p))
            && (forall c :: References(s, c, p) ==>
                  s'.replications[c].value.phase == if p in s.profiles && FirstCreated(s, c, p) then Ready else Rejected)
            && !MultipleReady(s', p)
  {
    RoundsSettle(s, order);
    forall c { OldestIsFirstCreated(s, c, p); }
    hide Rounds, FirstCreated, IsOldest;
    SettledMeansElected(s, Rounds(s, order), order, p);
  }

  lemma SettledMeansElected(s: State, s': State, order: seq<string>, p: string)
    requires Settled(s, s', order) && forall c :: References(s, c, p) ==> c in order
    ensures forall c :: References(s', c, p) <==> References(s, c, p)
    ensures forall c :: References(s, c, p) ==>
              s'.replications[c].value.phase == if p in s.profiles && IsOldest(s, c, p) then Ready else Rejected
    ensures !MultipleReady(s', p)
  {
    forall c ensures References(s', c, p) <==> References(s, c, p) {
      assert c in s'.replications.Keys <==> c in s.replications.Keys;
    }
    forall c, d | c != d && ReadyFor(s', c, p) && ReadyFor(s', d, p) ensures false {
      assert References(s, c, p) && References(s, d, p);
      OnlyOneOldest(s, c, d, p);
    }
  }

  lemma OnlyOneOldest(s: State, c: string, d: string, p: string)
    requires c != d && IsOldest(s, c, p)
    ensures !IsOldest(s, d, p)
  {
    if References(s, d, p) {
      var a, b := Candidate(c, s.replications[c].value.created), Candidate(d, s.replications[d].value.created);
      EarlierIsStrictTotalOrder(a, b, a);
    }
  }

  /** No replication of p was created before c, and none of the same time comes before
      it by name. */
  ghost predicate FirstCreated(s: State, c: string, p: string) {
    && c in s.replications && s.replications[c].value.spec.local == p
    && (forall d :: d in s.replications && s.replications[d].value.spec.local == p && d != c ==>
          var a, b := s.replications[c].value.created, s.replications[d].value.created;
          a < b || (a == b && ComesBefore(c, d)))
  }

  lemma OldestIsFirstCreated(s: State, c: string, p: string)
    ensures IsOldest(s, c, p) <==> FirstCreated(s, c, p)
  {
    forall d | c in s.replications && d in s.replications
      ensures Before(s, c, d) <==>
              var a, b := s.replications[c].value.created, s.replications[d].value.created;
              a < b || (a == b && ComesBefore(c, d))
    {
      EarlierMeaning(Candidate(c, s.replications[c].value.created), Candidate(d, s.replications[d].value.created));
    }
    hide ComesBefore, Earlier, Before;
    if FirstCreated(s, c, p) {
      forall d | References(s, d, p) && d != c ensures Before(s, c, d) {
        assert s.replications[d].value.spec.local == p;
      }
    }
    if IsOldest(s, c, p) {
      forall d | d in s.replications && s.replications[d].value.spec.local == p && d != c ensures Before(s, c, d) {
        assert References(s, d, p);
      }
    }
  }

  // ------------------------------------------------------ list, sort, compare

  /** One listing of the replications of p, in whatever order. */
  ghost predicate Lists(s: State, p: string, items: seq<Candidate>) {
    && DistinctNames(items)
    && (forall i :: 0 <= i < |items| ==>
          References(s, items[i].name, p) && s.replications[items[i].name].value.created == items[i].created)
    && (forall c :: References(s, c, p) ==> Candidate(c, s.replications[c].value.created) in items)
  }

  /** The machine's verdict is that of the reconcile that lists, sorts and compares. */
  lemma WinnerIsOldest(s: State, p: string, items: seq<Candidate>, c: string)
    requires Lists(s, p, items)
    ensures IsOldest(s, c, p) <==> exists w :: Wins(w, items) && w.name == c
    ensures IsOldest(s, c, p) <==> FirstCreated(s, c, p)
    ensures Referenced(s, p) <==> items != []
  {
    hide FirstCreated;
    OldestIsFirstCreated(s, c, p);
    if IsOldest(s, c, p) {
      assert Wins(Candidate(c, s.replications[c].value.created), items);
    }
    if w :| Wins(w, items) && w.name == c {
      forall d | References(s, d, p) && d != c ensures Before(s, c, d) {
        assert Candidate(d, s.replications[d].value.created) in items;
      }
    }
    if items != [] {
      assert References(s, items[0].name, p);
    }
  }

  /** When the listing is empty, there is no first item: the reconcile ends there and
      writes nothing. */
  lemma EmptyListingAborts(s: State, c: string)
    requires c in s.replicationTasks && s.replicationTasks[c].ProfileFound?
    ensures (forall d :: d in s.replications ==>
               s.replications[d].value.spec.local != s.replicationTasks[c].self.value.spec.local) <==>
            c !in Next(s, RElect(c)).replicationTasks
    ensures Next(s, RElect(c)).replications == s.replications
  {
    hide Next, OnlyReplicationTask, Calm, IsOldest;
    ReplicationSteps(s, RElect(c));
    if !Referenced(s, s.replicationTasks[c].self.value.spec.local) {
      forall d | d in s.replications
        ensures s.replications[d].value.spec.local != s.replicationTasks[c].self.value.spec.local
      {
        assert !References(s, d, s.replicationTasks[c].self.value.spec.local);
      }
    }
  }

  // -------------------------------------------------------- when order is broken

  /** A newcomer earlier than the Ready replication of its profile, such as one of the
      same second with a smaller name, becomes Ready too: nothing makes the former
      one step down, and the next reconcile of the profile stops with an error. */
  lemma EarlierNewcomerMakesTwoReady(s: State, c: string, e: Event, p: string)
    requires ReadyFor(s, c, p) && IsOldest(s, c, p) && p in s.profiles
    requires e.CreateReplication? && e.c !in s.replications && e.c !in s.replicationTasks && e.rspec.local == p
    requires Earlier(Candidate(e.c, e.created), Candidate(c, s.replications[c].value.created))
    ensures var s' := Round(Next(s, e), e.c);
            && MultipleReady(s', p)
            && (At(s', p, OwnedConnection) ==> p !in Next(s', PList(p)).profileTasks)
  {
    hide Next, MultipleReady, StepEnvironment, IsOldest, Round;
    EnvironmentSteps(s, e);
    var s1 := Next(s, e);
    NewcomerIsOldest(s, c, e, s1);
    RoundMeaning(s1, e.c);
    TwoAreReady(Round(s1, e.c), c, e.c, p);
    TwoReadyStopListing(Round(s1, e.c), p);
  }

  lemma TwoAreReady(s: State, c: string, d: string, p: string)
    requires c != d && ReadyFor(s, c, p) && ReadyFor(s, d, p)
    ensures MultipleReady(s, p)
  {
  }

  lemma TwoReadyStopListing(s: State, p: string)
    requires MultipleReady(s, p)
    ensures At(s, p, OwnedConnection) ==> p !in Next(s, PList(p)).profileTasks
  {
    ProfileSteps(s, PList(p));
    hide Next, MultipleReady;
  }

  lemma NewcomerIsOldest(s: State, c: string, e: Event, s1: State)
    requires e.CreateReplication? && e.c !in s.replications && IsOldest(s, c, e.rspec.local)
    requires s1 == StepEnvironment(s, e).(clock := s.clock + 1)
    requires Earlier(Candidate(e.c, e.created), Candidate(c, s.replications[c].value.created))
    ensures IsOldest(s1, e.c, e.rspec.local) && s1.profiles == s.profiles
    ensures s1.replicationTasks == s.replicationTasks && s1.replications.Keys == s.replications.Keys + {e.c}
    ensures forall d :: d in s.replications ==> s1.replications[d] == s.replications[d]
    ensures s1.replications[e.c].value.spec == e.rspec
  {
    var p := e.rspec.local;
    var newcomer := Candidate(e.c, e.created);
    forall d | References(s1, d, p) && d != e.c ensures Before(s1, e.c, d) {
      assert References(s, d, p);
      if d != c {
        EarlierIsStrictTotalOrder(newcomer, Candidate(c, s.replications[c].value.created),
                                  Candidate(d, s.replications[d].value.created));
      }
    }
  }
}
