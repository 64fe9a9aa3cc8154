/** Running functions concurrently and collecting their results: goroutines, a wait
    group, an unbuffered channel, a goroutine that closes it, and the consumer that
    ranges over it, as a machine whose steps interleave freely. */
module ConcurrentRun {
  import opened Prelude

  /** Where one worker goroutine stands. */
  datatype Worker =
    | NotStarted
    | Running      // the function has not returned yet
    | Sending      // blocked on the unbuffered channel
    | Sent         // the consumer took the value
    | Finished     // the deferred wg.Done() ran

  datatype State<E> = State(
    workers: seq<Worker>,
    wg: int,               // the wait group's counter
    closerStarted: bool,
    returned: bool,        // the channel is in the consumer's hands
    closed: bool,
    out: seq<E>,
    consumerDone: bool)

  datatype Step =
    | Start(i: nat)        // one turn of the spawning loop: wg.Add(1), go
    | StartCloser
    | Return
    | FunctionReturns(i: nat)
    | Handover(i: nat)     // send and receive on an unbuffered channel are one event
    | Done(i: nat)
    | Close
    | StopReading          // the range loop sees the closed channel

  function Init<E>(n: nat): State<E> {
    State(seq(n, i => NotStarted), 0, false, false, false, [], false)
  }

  predicate Enabled<E>(s: State<E>, step: Step) {
    match step
    case Start(i) => !s.closerStarted && i < |s.workers| && s.workers[i] == NotStarted &&
                     forall j :: 0 <= j < i ==> s.workers[j] != NotStarted
    case StartCloser => !s.closerStarted && forall j :: 0 <= j < |s.workers| ==> s.workers[j] != NotStarted
    case Return => s.closerStarted && !s.returned
    case FunctionReturns(i) => i < |s.workers| && s.workers[i] == Running
    case Handover(i) => i < |s.workers| && s.workers[i] == Sending && s.returned && !s.closed && !s.consumerDone
    case Done(i) => i < |s.workers| && s.workers[i] == Sent
    case Close => s.closerStarted && !s.closed && s.wg == 0
    case StopReading => s.returned && s.closed && !s.consumerDone
  }

  function Next<E>(results: seq<E>, s: State<E>, step: Step): State<E>
    requires |results| == |s.workers| && Enabled(s, step)
  {
    match step
    case Start(i) => s.(workers := s.workers[i := Running], wg := s.wg + 1)
    case StartCloser => s.(closerStarted := true)
    case Return => s.(returned := true)
    case FunctionReturns(i) => s.(workers := s.workers[i := Sending])
    case Handover(i) => s.(workers := s.workers[i := Sent], out := s.out + [results[i]])
    case Done(i) => s.(workers := s.workers[i := Finished], wg := s.wg - 1)
    case Close => s.(closed := true)
    case StopReading => s.(consumerDone := true)
  }

  /** The state after a schedule, or None when some step of it was not possible. */
  function Run<E>(results: seq<E>, schedule: seq<Step>): (r: Option<State<E>>)
    ensures r.Some? ==> |r.value.workers| == |results|
  {
    if schedule == [] then Some(Init(|results|))
    else
      var before := Run(results, schedule[..|schedule| - 1]);
      var step := schedule[|schedule| - 1];
      if before.Some? && Enabled(before.value, step) then Some(Next(results, before.value, step)) else None
  }

  // ---------------------------------------------------------------- invariant

  /** Counted by the wait group: started and not yet done. */
  predicate Counted(w: Worker) {
    w != NotStarted && w != Finished
  }

  predicate Taken(w: Worker) {
    w == Sent || w == Finished
  }

  function Active(ws: seq<Worker>): (n: nat)
    ensures n == 0 ==> forall i :: 0 <= i < |ws| ==> !Counted(ws[i])
  {
    if ws == [] then 0 else Active(ws[..|ws| - 1]) + if Counted(ws[|ws| - 1]) then 1 else 0
  }

  /** How often `e` was handed to the consumer. */
  function Delivered<E(==)>(ws: seq<Worker>, results: seq<E>, e: E): nat
    requires |ws| == |results|
  {
    if ws == [] then 0
    else
      var n := |ws| - 1;
      Delivered(ws[..n], results[..n], e) + if Taken(ws[n]) && results[n] == e then 1 else 0
  }

  function Remaining(w: Worker): nat {
    match w
    case NotStarted => 4
    case Running => 3
    case Sending => 2
    case Sent => 1
    case Finished => 0
  }

  function RemainingAll(ws: seq<Worker>): nat {
    if ws == [] then 0 else RemainingAll(ws[..|ws| - 1]) + Remaining(ws[|ws| - 1])
  }

  /** Steps still to come. */
  function StepsLeft<E>(s: State<E>): nat {
    RemainingAll(s.workers) +
    (if s.closerStarted then 0 else 1) + (if s.returned then 0 else 1) +
    (if s.closed then 0 else 1) + (if s.consumerDone then 0 else 1)
  }

  ghost predicate Inv<E(!new)>(results: seq<E>, s: State<E>) {
    && |s.workers| == |results|
    && s.wg == Active(s.workers)
    && (s.closerStarted ==> forall i :: 0 <= i < |s.workers| ==> s.workers[i] != NotStarted)
    && (s.returned ==> s.closerStarted)
    && (s.closed ==> s.closerStarted && s.wg == 0)
    && (s.consumerDone ==> s.closed && s.returned)
    && (forall e :: multiset(s.out)[e] == Delivered(s.workers, results, e))
  }

  lemma {:induction false} UpdateCounts(ws: seq<Worker>, i: nat, w: Worker)
    requires i < |ws|
    ensures Active(ws[i := w]) == Active(ws) + (if Counted(w) then 1 else 0) - (if Counted(ws[i]) then 1 else 0)
    ensures RemainingAll(ws[i := w]) == RemainingAll(ws) + Remaining(w) - Remaining(ws[i])
  {
    var n := |ws| - 1;
    if i == n {
      assert ws[i := w][..n] == ws[..n];
    } else {
      assert ws[i := w][..n] == ws[..n][i := w];
      UpdateCounts(ws[..n], i, w);
    }
  }

  lemma {:induction false} UpdateDelivered<E>(ws: seq<Worker>, results: seq<E>, i: nat, w: Worker, e: E)
    requires |ws| == |results| && i < |ws| && (Taken(ws[i]) ==> Taken(w))
    ensures Delivered(ws[i := w], results, e) ==
            Delivered(ws, results, e) + if Taken(w) && !Taken(ws[i]) && results[i] == e then 1 else 0
  {
    var n := |ws| - 1;
    if i == n {
      assert ws[i := w][..n] == ws[..n];
    } else {
      assert ws[i := w][..n] == ws[..n][i := w];
      UpdateDelivered(ws[..n], results[..n], i, w, e);
    }
  }

  /** The counters before and after worker i moves to w. */
  lemma UpdateWorker<E(!new)>(ws: seq<Worker>, results: seq<E>, i: nat, w: Worker)
    requires |ws| == |results| && i < |ws| && (Taken(ws[i]) ==> Taken(w))
    ensures Active(ws[i := w]) == Active(ws) + (if Counted(w) then 1 else 0) - (if Counted(ws[i]) then 1 else 0)
    ensures RemainingAll(ws[i := w]) == RemainingAll(ws) + Remaining(w) - Remaining(ws[i])
    ensures forall e :: Delivered(ws[i := w], results, e) ==
              Delivered(ws, results, e) + if Taken(w) && !Taken(ws[i]) && results[i] == e then 1 else 0
  {
    UpdateCounts(ws, i, w);
    forall e
      ensures Delivered(ws[i := w], results, e) ==
              Delivered(ws, results, e) + if Taken(w) && !Taken(ws[i]) && results[i] == e then 1 else 0
    {
      UpdateDelivered(ws, results, i, w, e);
    }
  }

  lemma {:induction false} InitialCounts<E(!new)>(results: seq<E>)
    ensures var ws := Init<E>(|results|).workers;
            && Active(ws) == 0 && RemainingAll(ws) == 4 * |results|
            && forall e :: Delivered(ws, results, e) == 0
  {
    if results != [] {
      var n := |results| - 1;
      var ws := Init<E>(|results|).workers;
      assert ws[..n] == Init<E>(n).workers;
      InitialCounts(results[..n]);
    }
  }

  lemma StepKeepsInv<E(!new)>(results: seq<E>, s: State<E>, step: Step)
    requires Inv(results, s) && Enabled(s, step)
    ensures Inv(results, Next(results, s, step))
    ensures StepsLeft(Next(results, s, step)) + 1 == StepsLeft(s)
  {
    match step
    case Start(i) => WorkerMoves(results, s, step, i, Running);
    case FunctionReturns(i) => WorkerMoves(results, s, step, i, Sending);
    case Handover(i) => WorkerMoves(results, s, step, i, Sent);
    case Done(i) => WorkerMoves(results, s, step, i, Finished);
    case StartCloser =>
    case Return =>
    case Close =>
    case StopReading =>
  }

  lemma WorkerMoves<E(!new)>(results: seq<E>, s: State<E>, step: Step, i: nat, w: Worker)
    requires Inv(results, s) && Enabled(s, step)
    requires (step == Start(i) && w == Running) || (step == FunctionReturns(i) && w == Sending) ||
             (step == Handover(i) && w == Sent) || (step == Done(i) && w == Finished)
    ensures Inv(results, Next(results, s, step))
    ensures StepsLeft(Next(results, s, step)) + 1 == StepsLeft(s)
  {
    UpdateWorker(s.workers, results, i, w);
  }

  /** Every schedule keeps the invariant, and each of its steps uses up exactly one
      of the 4n + 4 steps there are. */
  lemma {:induction false} RunKeepsInv<E(!new)>(results: seq<E>, schedule: seq<Step>)
    requires Run(results, schedule).Some?
    ensures Inv(results, Run(results, schedule).value)
    ensures |schedule| + StepsLeft(Run(results, schedule).value) == 4 * |results| + 4
  {
    if schedule == [] {
      InitialCounts(results);
    } else {
      var front := schedule[..|schedule| - 1];
      RunKeepsInv(results, front);
      StepKeepsInv(results, Run(results, front).value, schedule[|schedule| - 1]);
    }
  }

  // -------------------------------------------------------------- main results

  /** No goroutine is at, or before, its send once the channel is closed, and the
      wait group never goes negative. */
  lemma NoSendOnClosedChannel<E(!new)>(results: seq<E>, schedule: seq<Step>)
    requires Run(results, schedule).Some?
    ensures var s := Run(results, schedule).value;
            && s.wg >= 0
            && (s.closed ==> forall i :: 0 <= i < |s.workers| ==> s.workers[i] == Finished)
  {
    RunKeepsInv(results, schedule);
  }

  /** Until the consumer has finished, some step is possible. */
  lemma NoDeadlock<E(!new)>(results: seq<E>, schedule: seq<Step>) returns (step: Step)
    requires Run(results, schedule).Some? && !Run(results, schedule).value.consumerDone
    ensures Run(results, schedule + [step]).Some?
  {
    RunKeepsInv(results, schedule);
    var s := Run(results, schedule).value;
    step := PossibleStep(results, s);
    assert (schedule + [step])[..|schedule|] == schedule;
  }

  lemma PossibleStep<E(!new)>(results: seq<E>, s: State<E>) returns (step: Step)
    requires Inv(results, s) && !s.consumerDone
    ensures Enabled(s, step)
  {
    if !s.closerStarted {
      if j :| 0 <= j < |s.workers| && s.workers[j] == NotStarted {
        step := FirstToStart(s, j);
      } else {
        step := StartCloser;
      }
    } else if !s.returned {
      step := Return;
    } else if s.closed {
      step := StopReading;
    } else if s.wg == 0 {
      step := Close;
    } else {
      var i := SomeActive(s.workers);
      step := match s.workers[i]
        case Running => FunctionReturns(i)
        case Sending => Handover(i)
        case _ => Done(i);
    }
  }

  lemma FirstToStart<E>(s: State<E>, j: nat) returns (step: Step)
    requires !s.closerStarted && j < |s.workers| && s.workers[j] == NotStarted
    ensures Enabled(s, step)
  {
    if k :| 0 <= k < j && s.workers[k] == NotStarted {
      step := FirstToStart(s, k);
    } else {
      step := Start(j);
    }
  }

  lemma {:induction false} SomeActive(ws: seq<Worker>) returns (i: nat)
    requires Active(ws) != 0
    ensures i < |ws| && Counted(ws[i])
  {
    var n := |ws| - 1;
    if Counted(ws[n]) {
      i := n;
    } else {
      i := SomeActive(ws[..n]);
    }
  }

  lemma {:induction false} NothingRemains(ws: seq<Worker>)
    requires forall i :: 0 <= i < |ws| ==> ws[i] == Finished
    ensures RemainingAll(ws) == 0
  {
    if ws != [] {
      NothingRemains(ws[..|ws| - 1]);
    }
  }

  lemma {:induction false} AllDelivered<E>(ws: seq<Worker>, results: seq<E>, e: E)
    requires |ws| == |results| && forall i :: 0 <= i < |ws| ==> ws[i] == Finished
    ensures Delivered(ws, results, e) == multiset(results)[e]
  {
    if ws != [] {
      var n := |ws| - 1;
      AllDelivered(ws[..n], results[..n], e);
      assert results == results[..n] + [results[n]];
    }
  }

  /** When the consumer finishes, after exactly 4n + 4 steps, it has every result
      once and every goroutine is gone. */
  lemma CollectsEveryResult<E(!new)>(results: seq<E>, schedule: seq<Step>)
    requires Run(results, schedule).Some?
    ensures |schedule| <= 4 * |results| + 4
    ensures var s := Run(results, schedule).value;
            && (s.consumerDone <==> |schedule| == 4 * |results| + 4)
            && (s.consumerDone ==> multiset(s.out) == multiset(results))
  {
    RunKeepsInv(results, schedule);
    var s := Run(results, schedule).value;
    if s.closed {
      NothingRemains(s.workers);
      forall e ensures multiset(s.out)[e] == multiset(results)[e] {
        AllDelivered(s.workers, results, e);
      }
    }
  }

  /** The results of the functions in the order in which they were handed over. */
  function HandedOver<E>(results: seq<E>, schedule: seq<Step>): seq<E> {
    if schedule == [] then []
    else
      var front, last := HandedOver(results, schedule[..|schedule| - 1]), schedule[|schedule| - 1];
      if last.Handover? && last.i < |results| then front + [results[last.i]] else front
  }

  lemma OutAfter<E>(results: seq<E>, s: State<E>, step: Step)
    requires |results| == |s.workers| && Enabled(s, step)
    ensures Next(results, s, step).out ==
            if step.Handover? && step.i < |results| then s.out + [results[step.i]] else s.out
  {
  }

  /** The consumer receives them in that order, at any moment of any schedule. */
  lemma {:induction false} ReceivedInOrder<E>(results: seq<E>, schedule: seq<Step>)
    requires Run(results, schedule).Some?
    ensures Run(results, schedule).value.out == HandedOver(results, schedule)
  {
    hide Next, Enabled;
    if schedule != [] {
      var front := schedule[..|schedule| - 1];
      ReceivedInOrder(results, front);
      OutAfter(results, Run(results, front).value, schedule[|schedule| - 1]);
    }
  }

  /** What the consumer does with the errors: drop the nil ones and join the rest; the
      joined error is nil when none is left. */
  function Join(errors: seq<Option<string>>): (messages: seq<string>) {
    if errors == [] then []
    else
      var e := errors[|errors| - 1];
      Join(errors[..|errors| - 1]) + if e.Some? then [e.value] else []
  }

  lemma {:induction false} JoinIsEmpty(errors: seq<Option<string>>)
    ensures Join(errors) == [] <==> forall i :: 0 <= i < |errors| ==> errors[i] == None
    ensures forall m :: m in Join(errors) <==> Some(m) in errors
  {
    if errors != [] {
      var n := |errors| - 1;
      JoinIsEmpty(errors[..n]);
      assert errors == errors[..n] + [errors[n]];
      assert errors[n].Some? ==> Join(errors) == Join(errors[..n]) + [errors[n].value];
      if Join(errors) == [] {
        forall i | 0 <= i < |errors| ensures errors[i] == None {
          assert i < n ==> errors[..n][i] == None;
        }
      }
    }
  }

  /** The reconcile succeeds exactly when every one of its functions did, whatever
      the schedule was, and else reports each of their errors. */
  lemma SucceedsIffAllSucceed(results: seq<Option<string>>, schedule: seq<Step>)
    requires Run(results, schedule).Some? && Run(results, schedule).value.consumerDone
    ensures var messages := Join(Run(results, schedule).value.out);
            && (messages == [] <==> forall i :: 0 <= i < |results| ==> results[i] == None)
            && (forall m :: m in messages <==> exists i :: 0 <= i < |results| && results[i] == Some(m))
  {
    CollectsEveryResult(results, schedule);
    var out := Run(results, schedule).value.out;
    JoinIsEmpty(out);
    hide Join, Run;
    assert forall e :: e in out <==> e in multiset(out);
    assert forall e :: e in results <==> e in multiset(results);
    forall i | 0 <= i < |out| && (forall j :: 0 <= j < |results| ==> results[j] == None) ensures out[i] == None {
      assert out[i] in results;
    }
    forall i | 0 <= i < |results| && Join(out) == [] ensures results[i] == None {
      assert results[i] in out;
    }
  }
}
