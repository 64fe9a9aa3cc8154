/** The claim of a cluster-wide CSIDriver name by a namespaced driver: an annotation
    that names the owner, checked before a reconcile and written by it, also when the
    object has to be deleted and created again. */
module CsiDriverClaim {
  import opened Prelude

  datatype Key = Key(namespace: string, name: string)

  /** The owner annotation: missing, not readable, or the key of a driver. */
  datatype Owner = Unowned | Unreadable | OwnedBy(key: Key)

  datatype CsiDriver = CsiDriver(owner: Owner, attachRequired: bool)

  datatype Stage =
    | Validated
    | GotCsiDriver(snapshot: Option<Stored<CsiDriver>>)
    | Refused    // the update was invalid: attachRequired cannot be changed
    | Deleted

  datatype Task = Task(stage: Stage, attachRequired: bool)

  /** `oneWorker`: a reconcile begins only when none is in flight. */
  datatype State = State(oneWorker: bool, clock: nat, csiDrivers: map<string, Stored<CsiDriver>>, tasks: map<Key, Task>)

  datatype Event =
    | Validate(d: Key, attachRequired: bool)
    | Get(d: Key)
    | Put(d: Key)
    | Delete(d: Key)
    | Recreate(d: Key)
    | UserDeletes(name: string)
    | Restart

  // ------------------------------------------------------------------ machine

  /** The name is free, or already this driver's. */
  predicate Passes(s: State, d: Key) {
    d.name in s.csiDrivers ==> s.csiDrivers[d.name].value.owner == OwnedBy(d)
  }

  function End(s: State, d: Key): State {
    s.(tasks := s.tasks - {d})
  }

  function Move(s: State, d: Key, stage: Stage): State
    requires d in s.tasks
  {
    s.(tasks := s.tasks[d := s.tasks[d].(stage := stage)])
  }

  function Store(s: State, d: Key): State
    requires d in s.tasks
  {
    s.(csiDrivers := s.csiDrivers[d.name := Stored(s.clock, CsiDriver(OwnedBy(d), s.tasks[d].attachRequired))])
  }

  /** Create, or update what was read: the annotation is set to this driver in any case. */
  function PutSnapshot(s: State, d: Key, snapshot: Option<Stored<CsiDriver>>): State
    requires d in s.tasks
  {
    var current := d.name in s.csiDrivers && snapshot.Some? && s.csiDrivers[d.name].version == snapshot.value.version;
    if snapshot.None? then
      if d.name in s.csiDrivers then End(s, d) else End(Store(s, d), d)
    else if snapshot.value.value == CsiDriver(OwnedBy(d), s.tasks[d].attachRequired) || !current then End(s, d)
    else if snapshot.value.value.attachRequired != s.tasks[d].attachRequired then Move(s, d, Refused)
    else End(Store(s, d), d)
  }

  function Step(s: State, e: Event): State {
    match e
    case Validate(d, attachRequired) =>
      if d in s.tasks || (s.oneWorker && s.tasks != map[]) || !Passes(s, d) then s
      else s.(tasks := s.tasks[d := Task(Validated, attachRequired)])
    case Get(d) =>
      if d !in s.tasks || !s.tasks[d].stage.Validated? then s
      else Move(s, d, GotCsiDriver(if d.name in s.csiDrivers then Some(s.csiDrivers[d.name]) else None))
    case Put(d) =>
      if d !in s.tasks || !s.tasks[d].stage.GotCsiDriver? then s
      else PutSnapshot(s, d, s.tasks[d].stage.snapshot)
    case Delete(d) =>
      if d !in s.tasks || !s.tasks[d].stage.Refused? then s
      else if d.name !in s.csiDrivers then End(s, d)
      else Move(s.(csiDrivers := s.csiDrivers - {d.name}), d, Deleted)
    case Recreate(d) =>
      if d !in s.tasks || !s.tasks[d].stage.Deleted? then s
      else if d.name in s.csiDrivers then End(s, d)
      else End(Store(s, d), d)
    case UserDeletes(name) => s.(csiDrivers := s.csiDrivers - {name})
    case Restart => s.(tasks := map[])
  }

  function Next(s: State, e: Event): State {
    Step(s, e).(clock := s.clock + 1)
  }

  function After(s: State, events: seq<Event>): State {
    if events == [] then s else Next(After(s, events[..|events| - 1]), events[|events| - 1])
  }

  // -------------------------------------------------------------------- claim

  predicate Recreating(s: State, d: Key) {
    d in s.tasks && s.tasks[d].stage.Deleted? && d.name !in s.csiDrivers
  }

  /** `name` is claimed by `owner`: it is annotated so, or a reconcile of the owner has
      just deleted it to create it again. */
  ghost predicate Claims(s: State, name: string, owner: Owner) {
    || (name in s.csiDrivers && s.csiDrivers[name].value.owner == owner)
    || (owner.OwnedBy? && owner.key.name == name && Recreating(s, owner.key))
  }

  /** With one worker a reconcile in flight is alone, and its name is free or its own. */
  ghost predicate Inv(s: State) {
    && s.oneWorker
    && (forall a, b :: a in s.tasks && b in s.tasks ==> a == b)
    && (forall d :: d in s.tasks ==> Passes(s, d))
  }

  /** Only a user's deletion, or a restart between delete and create, gives up a claim. */
  predicate GivesUp(s: State, e: Event, name: string) {
    e == UserDeletes(name) || (e.Restart? && name !in s.csiDrivers)
  }

  lemma StepKeepsInv(s: State, e: Event)
    requires Inv(s)
    ensures Inv(Next(s, e))
  {
  }

  lemma StepKeepsClaim(s: State, e: Event, name: string, owner: Owner)
    requires Inv(s) && Claims(s, name, owner) && !GivesUp(s, e, name)
    ensures Claims(Next(s, e), name, owner)
  {
  }

  /** No event of the run gives up the claim to `name`. */
  ghost predicate KeptThroughout(s: State, events: seq<Event>, name: string) {
    forall i :: 0 <= i < |events| ==> !GivesUp(After(s, events[..i]), events[i], name)
  }

  lemma {:induction false} InvHolds(s: State, events: seq<Event>)
    requires Inv(s)
    ensures Inv(After(s, events))
  {
    if events != [] {
      InvHolds(s, events[..|events| - 1]);
      StepKeepsInv(After(s, events[..|events| - 1]), events[|events| - 1]);
    }
  }

  /** A claim never moves: not to another driver, and not from an object without an
      owner either, also while the object is deleted and created again. */
  lemma {:induction false} ClaimNeverMoves(s: State, events: seq<Event>, name: string, owner: Owner)
    requires Inv(s) && Claims(s, name, owner) && KeptThroughout(s, events, name)
    ensures Claims(After(s, events), name, owner)
    ensures name in After(s, events).csiDrivers ==> After(s, events).csiDrivers[name].value.owner == owner
  {
    hide Next, GivesUp;
    if events != [] {
      var front, last := events[..|events| - 1], events[|events| - 1];
      forall i | 0 <= i < |front| ensures !GivesUp(After(s, front[..i]), front[i], name) {
        assert front[..i] == events[..i];
      }
      ClaimNeverMoves(s, front, name, owner);
      InvHolds(s, front);
      assert events[..|front|] == front;
      StepKeepsClaim(After(s, front), last, name, owner);
    }
  }

  /** Two drivers of one name never both pass: once the first has its claim, no
      reconcile of the second begins as long as the claim is kept, while the first
      itself may begin again whenever nothing is in flight. */
  lemma NeverBothPass(s: State, events: seq<Event>, first: Key, second: Key, attachRequired: bool)
    requires Inv(s) && Claims(s, first.name, OwnedBy(first)) && KeptThroughout(s, events, first.name)
    requires second != first && second.name == first.name
    ensures second !in After(s, events).tasks
    ensures Next(After(s, events), Validate(second, attachRequired)).tasks == After(s, events).tasks
    ensures After(s, events).tasks == map[] ==>
              Next(After(s, events), Validate(first, attachRequired)).tasks == map[first := Task(Validated, attachRequired)]
  {
    ClaimNeverMoves(s, events, first.name, OwnedBy(first));
    InvHolds(s, events);
  }

  /** A reconcile that may run begins if and only if the name is free or annotated with
      this very driver; a missing, an unreadable and a foreign annotation refuse it. */
  lemma BeginsIffFreeOrOwn(s: State, d: Key, attachRequired: bool)
    requires d !in s.tasks && (s.oneWorker ==> s.tasks == map[])
    ensures d in Next(s, Validate(d, attachRequired)).tasks <==>
            (d.name in s.csiDrivers ==> s.csiDrivers[d.name].value.owner == OwnedBy(d))
  {
  }

  /** One reconcile of d with nothing in between. A step that has nothing to do does nothing. */
  function Round(s: State, d: Key, attachRequired: bool): State {
    Next(Next(Next(Next(Next(s, Validate(d, attachRequired)), Get(d)), Put(d)), Delete(d)), Recreate(d))
  }

  /** The object as d wants it. An object that is that already keeps its version. */
  ghost predicate Reconciled(s: State, r: State, d: Key, attachRequired: bool) {
    && r.tasks == map[]
    && d.name in r.csiDrivers && r.csiDrivers[d.name].value == CsiDriver(OwnedBy(d), attachRequired)
    && r.csiDrivers == s.csiDrivers[d.name := r.csiDrivers[d.name]]
    && (d.name in s.csiDrivers && s.csiDrivers[d.name].value == CsiDriver(OwnedBy(d), attachRequired) ==>
          r.csiDrivers == s.csiDrivers)
  }

  /** An undisturbed reconcile ends with the object stored, annotated with d and with
      attachRequired as asked, by create, by update or by delete and create, if and only
      if the name was free or already d's; else it leaves everything as it was. */
  lemma RoundClaims(s: State, d: Key, attachRequired: bool)
    requires s.tasks == map[]
    ensures var r := Round(s, d, attachRequired);
            var mayBegin := d.name in s.csiDrivers ==> s.csiDrivers[d.name].value.owner == OwnedBy(d);
            && (mayBegin <==> Reconciled(s, r, d, attachRequired))
            && (!mayBegin ==> r.csiDrivers == s.csiDrivers && r.tasks == map[])
  {
    if d.name in s.csiDrivers && s.csiDrivers[d.name].value.owner != OwnedBy(d) {
      RoundRefused(s, d, attachRequired);
    } else if d.name !in s.csiDrivers {
      RoundCreates(s, d, attachRequired);
    } else if s.csiDrivers[d.name].value.attachRequired == attachRequired {
      RoundFinds(s, d, attachRequired);
    } else {
      RoundReplaces(s, d, attachRequired);
    }
  }

  lemma RoundRefused(s: State, d: Key, attachRequired: bool)
    requires s.tasks == map[] && d.name in s.csiDrivers && s.csiDrivers[d.name].value.owner != OwnedBy(d)
    ensures var r := Round(s, d, attachRequired); r.csiDrivers == s.csiDrivers && r.tasks == map[]
  {
  }

  lemma RoundReads(s: State, d: Key, attachRequired: bool)
    requires s.tasks == map[] && Passes(s, d)
    ensures var snapshot := if d.name in s.csiDrivers then Some(s.csiDrivers[d.name]) else None;
            Next(Next(s, Validate(d, attachRequired)), Get(d)) ==
            s.(tasks := map[d := Task(GotCsiDriver(snapshot), attachRequired)], clock := s.clock + 2)
  {
  }

  lemma RoundCreates(s: State, d: Key, attachRequired: bool)
    requires s.tasks == map[] && d.name !in s.csiDrivers
    ensures Reconciled(s, Round(s, d, attachRequired), d, attachRequired)
  {
    RoundReads(s, d, attachRequired);
    var s2 := Next(Next(s, Validate(d, attachRequired)), Get(d));
    assert s2.tasks - {d} == map[];
  }

  lemma RoundFinds(s: State, d: Key, attachRequired: bool)
    requires s.tasks == map[] && d.name in s.csiDrivers
    requires s.csiDrivers[d.name].value == CsiDriver(OwnedBy(d), attachRequired)
    ensures Reconciled(s, Round(s, d, attachRequired), d, attachRequired)
  {
    RoundReads(s, d, attachRequired);
    var s2 := Next(Next(s, Validate(d, attachRequired)), Get(d));
    assert s2.tasks - {d} == map[];
  }

  lemma RoundReplaces(s: State, d: Key, attachRequired: bool)
    requires s.tasks == map[] && d.name in s.csiDrivers
    requires s.csiDrivers[d.name].value == CsiDriver(OwnedBy(d), !attachRequired)
    ensures Reconciled(s, Round(s, d, attachRequired), d, attachRequired)
  {
    RoundReads(s, d, attachRequired);
    var s2 := Next(Next(s, Validate(d, attachRequired)), Get(d));
    var s3 := Next(s2, Put(d));
    assert s3.tasks == map[d := Task(Refused, attachRequired)];
    var s4 := Next(s3, Delete(d));
    assert s4.tasks == map[d := Task(Deleted, attachRequired)];
    assert s4.tasks - {d} == map[];
  }

  /** A reconcile that ends by creating or updating has its claim. */
  lemma PutClaims(s: State, d: Key)
    requires Inv(s) && d in s.tasks && s.tasks[d].stage.GotCsiDriver?
    requires d.name in s.csiDrivers || s.tasks[d].stage.snapshot.None?
    ensures Claims(Next(s, Put(d)), d.name, OwnedBy(d))
  {
  }

  /** What does give up a claim frees the name: nobody's object is left, and with nothing
      in flight any driver of that name may begin. */
  lemma GivenUpIsFree(s: State, e: Event, name: string, d: Key, attachRequired: bool)
    requires GivesUp(s, e, name) && d.name == name
    ensures var r := Next(s, e);
            && name !in r.csiDrivers
            && (e.Restart? ==> r.tasks == map[] && forall k :: !Claims(r, name, OwnedBy(k)))
            && (r.tasks == map[] ==> d in Next(r, Validate(d, attachRequired)).tasks)
  {
  }

  lemma AfterSnoc(s: State, events: seq<Event>, e: Event)
    ensures After(s, events + [e]) == Next(After(s, events), e)
  {
    TakeOfSnoc(events, e);
  }

  lemma AfterTwo(s: State, a: Event, b: Event)
    ensures After(s, [a, b]) == Next(Next(s, a), b)
  {
    hide Next;
    AfterSnoc(s, [a], b);
    AfterSnoc(s, [], a);
    assert [] + [a] == [a] && [a] + [b] == [a, b];
  }

  lemma AfterFour(s: State, a: Event, b: Event, c: Event, d: Event)
    ensures After(s, [a, b, c, d]) == Next(Next(Next(Next(s, a), b), c), d)
  {
    hide Next;
    AfterTwo(s, a, b);
    AfterSnoc(s, [a, b], c);
    AfterSnoc(s, [a, b, c], d);
    assert [a, b] + [c] == [a, b, c] && [a, b, c] + [d] == [a, b, c, d];
  }

  /** One worker is needed: with two, both drivers pass while the name is free, and the
      second writer takes the name from the first. */
  lemma SecondWorkerTakesOver(s: State, first: Key, second: Key)
    requires !s.oneWorker && s.tasks == map[] && first.name !in s.csiDrivers
    requires second != first && second.name == first.name
    ensures var claimed := After(s, [Validate(first, true), Validate(second, true), Get(first), Put(first)]);
            && Claims(claimed, first.name, OwnedBy(first))
            && var moved := After(claimed, [Get(second), Put(second)]);
            && KeptThroughout(claimed, [Get(second), Put(second)], first.name)
            && Claims(moved, first.name, OwnedBy(second)) && !Claims(moved, first.name, OwnedBy(first))
  {
    AfterFour(s, Validate(first, true), Validate(second, true), Get(first), Put(first));
    var s4 := After(s, [Validate(first, true), Validate(second, true), Get(first), Put(first)]);
    FirstClaims(s, first, second);
    hide After;
    assert s4.csiDrivers[first.name].value == CsiDriver(OwnedBy(first), true);
    AfterTwo(s4, Get(second), Put(second));
  }

  lemma FirstClaims(s: State, first: Key, second: Key)
    requires !s.oneWorker && s.tasks == map[] && first.name !in s.csiDrivers
    requires second != first && second.name == first.name
    ensures var s4 := Next(Next(Next(Next(s, Validate(first, true)), Validate(second, true)), Get(first)), Put(first));
            && s4.tasks == map[second := Task(Validated, true)]
            && first.name in s4.csiDrivers && s4.csiDrivers[first.name].value == CsiDriver(OwnedBy(first), true)
  {
    var s2 := Next(Next(s, Validate(first, true)), Validate(second, true));
    assert s2.tasks == map[first := Task(Validated, true), second := Task(Validated, true)];
    var s3 := Next(s2, Get(first));
    assert s3.tasks == map[first := Task(GotCsiDriver(None), true), second := Task(Validated, true)];
    assert s3.tasks - {first} == map[second := Task(Validated, true)];
  }
}
