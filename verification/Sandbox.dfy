// The sandbox as a concurrent protocol: a semaphore, and per call a goroutine, two channels and a deadline.
module Sandbox {
  import opened Basics

  /** How a node's execution ends: with its result or with a recovered panic. */
  datatype Ending<R> = Result(result: R) | Panic(message: string)

  /** What `Execute` returns; only `Succeeded` comes with a nil error. */
  datatype Return<R> = NoSlot | DeadlinePassed | Panicked(message: string) | Succeeded(result: R)

  datatype Caller<R> = Acquiring | Entered | Selecting | Canceling(ret: Return<R>) | Releasing(ret: Return<R>) | Returned(ret: Return<R>)

  datatype Worker<R> = NotStarted | Executing | Sending(ending: Ending<R>) | Stopped

  /** One call of `Execute`; `ended` remembers how its own node ended and `sent` how many messages its goroutine sent. */
  datatype Call<R> = Call(
    caller: Caller<R>, worker: Worker<R>, results: Option<R>, errors: Option<string>,
    parentDone: bool, childDone: bool, ended: Option<Ending<R>>, sent: nat)

  datatype System<R> = System(maxParallel: nat, free: int, calls: seq<Call<R>>)

  datatype Step<R> =
    | Arrive
    | ParentEnds(i: nat)
    | Acquire(i: nat)
    | GiveUp(i: nat)
    | Spawn(i: nat)
    | Expire(i: nat)
    | End(i: nat, ending: Ending<R>)
    | Send(i: nat)
    | SelectDeadline(i: nat)
    | SelectError(i: nat)
    | SelectResult(i: nat)
    | Cancel(i: nat)
    | Release(i: nat)

  function Fresh<R>(): Call<R> {
    Call(Acquiring, NotStarted, None, None, false, false, None, 0)
  }

  function Start<R>(maxParallel: nat): System<R> {
    System(maxParallel, maxParallel, [])
  }

  /** A send is enabled only while the channel, of capacity one, is empty. */
  predicate Enabled<R>(s: System<R>, step: Step<R>) {
    step.Arrive? ||
    (step.i < |s.calls| &&
     var c := s.calls[step.i];
     match step
     case ParentEnds(_) => !c.parentDone
     case Acquire(_) => c.caller.Acquiring? && s.free >= 1
     case GiveUp(_) => c.caller.Acquiring? && c.parentDone
     case Spawn(_) => c.caller.Entered?
     case Expire(_) => c.caller.Selecting? && !c.childDone
     case End(_, _) => c.worker.Executing?
     case Send(_) => c.worker.Sending? && (if c.worker.ending.Result? then c.results.None? else c.errors.None?)
     case SelectDeadline(_) => c.caller.Selecting? && c.childDone
     case SelectError(_) => c.caller.Selecting? && c.errors.Some?
     case SelectResult(_) => c.caller.Selecting? && c.results.Some?
     case Cancel(_) => c.caller.Canceling?
     case Release(_) => c.caller.Releasing?)
  }

  /** What a step does to its own call. */
  function Moved<R>(c: Call<R>, step: Step<R>): Call<R> {
    match step
    case Arrive => c
    case ParentEnds(_) => c.(parentDone := true, childDone := true)
    case Acquire(_) => c.(caller := Entered)
    case GiveUp(_) => c.(caller := Returned(NoSlot))
    case Spawn(_) => c.(caller := Selecting, worker := Executing, childDone := c.parentDone)
    case Expire(_) => c.(childDone := true)
    case End(_, ending) => c.(worker := Sending(ending), ended := Some(ending))
    case Send(_) =>
      if !c.worker.Sending? then c
      else
        (match c.worker.ending
         case Result(r) => c.(worker := Stopped, results := Some(r), sent := c.sent + 1)
         case Panic(m) => c.(worker := Stopped, errors := Some(m), sent := c.sent + 1))
    case SelectDeadline(_) => c.(caller := Canceling(DeadlinePassed))
    case SelectError(_) => if c.errors.None? then c else c.(caller := Canceling(Panicked(c.errors.value)), errors := None)
    case SelectResult(_) => if c.results.None? then c else c.(caller := Canceling(Succeeded(c.results.value)), results := None)
    case Cancel(_) => if c.caller.Canceling? then c.(caller := Releasing(c.caller.ret), childDone := true) else c
    case Release(_) => if c.caller.Releasing? then c.(caller := Returned(c.caller.ret)) else c
  }

  function Apply<R>(s: System<R>, step: Step<R>): System<R>
    requires Enabled(s, step)
  {
    if step.Arrive? then s.(calls := s.calls + [Fresh()])
    else
      s.(calls := s.calls[step.i := Moved(s.calls[step.i], step)],
         free := if step.Acquire? then s.free - 1 else if step.Release? then s.free + 1 else s.free)
  }

  /** The state after an interleaving, if every step of it is enabled in turn. */
  function After<R>(s: System<R>, steps: seq<Step<R>>): Option<System<R>>
    decreases |steps|
  {
    if steps == [] then Some(s)
    else if !Enabled(s, steps[0]) then None
    else After(Apply(s, steps[0]), steps[1..])
  }

  // ----- what every interleaving keeps -----

  /** Between a successful acquire and the release. */
  predicate Inside<R>(c: Call<R>) {
    c.caller.Entered? || c.caller.Selecting? || c.caller.Canceling? || c.caller.Releasing?
  }

  predicate IsExecuting<R>(c: Call<R>) {
    c.worker.Executing?
  }

  /** Its node still runs although its caller gave the slot back. */
  predicate Abandoned<R>(c: Call<R>) {
    IsExecuting(c) && !Inside(c)
  }

  function Holding<R>(calls: seq<Call<R>>, p: Call<R> -> bool): nat {
    if calls == [] then 0 else Holding(calls[..|calls| - 1], p) + if p(calls[|calls| - 1]) then 1 else 0
  }

  /** Messages sent and not yet received. */
  function Pending<R>(c: Call<R>): nat {
    (if c.results.Some? then 1 else 0) + (if c.errors.Some? then 1 else 0)
  }

  ghost predicate Returning<R>(c: Call<R>, ret: Return<R>) {
    (c.caller.Canceling? || c.caller.Releasing? || c.caller.Returned?) && c.caller.ret == ret
  }

  /** The messages of a call come from its own node, and there is at most one. */
  ghost predicate Orderly<R>(c: Call<R>) {
    && (c.worker.NotStarted? <==> c.caller.Acquiring? || c.caller.Entered? || c.caller == Returned(NoSlot))
    && c.sent == (if c.worker.Stopped? then 1 else 0) && Pending(c) <= c.sent
    && (c.ended.Some? <==> c.worker.Sending? || c.worker.Stopped?)
    && (c.worker.Sending? ==> c.ended == Some(c.worker.ending))
    && (c.results.Some? ==> c.ended == Some(Result(c.results.value)))
    && (c.errors.Some? ==> c.ended == Some(Panic(c.errors.value)))
    && (c.caller.Canceling? || c.caller.Releasing? || c.caller.Returned? ==>
          match c.caller.ret
          case NoSlot => c.caller.Returned?
          case DeadlinePassed => c.childDone
          case Panicked(m) => c.ended == Some(Panic(m)) && c.worker.Stopped?
          case Succeeded(r) => c.ended == Some(Result(r)) && c.worker.Stopped?)
  }

  ghost predicate Inv<R>(s: System<R>) {
    && s.free >= 0
    && s.free + Holding(s.calls, Inside) == s.maxParallel
    && forall i :: 0 <= i < |s.calls| ==> Orderly(s.calls[i])
  }

  lemma {:induction false} HoldingUpdate<R>(calls: seq<Call<R>>, i: nat, c: Call<R>, p: Call<R> -> bool)
    requires i < |calls|
    ensures Holding(calls[i := c], p) == Holding(calls, p) - (if p(calls[i]) then 1 else 0) + if p(c) then 1 else 0
  {
    var n := |calls| - 1;
    if i < n {
      HoldingUpdate(calls[..n], i, c, p);
      assert calls[i := c][..n] == calls[..n][i := c];
    } else {
      assert calls[i := c][..n] == calls[..n];
    }
  }

  lemma MovedStaysOrderly<R>(s: System<R>, step: Step<R>)
    requires Enabled(s, step) && !step.Arrive? && Orderly(s.calls[step.i])
    ensures Orderly(Moved(s.calls[step.i], step))
    ensures step.Acquire? ==> !Inside(s.calls[step.i]) && Inside(Moved(s.calls[step.i], step))
    ensures step.Release? ==> Inside(s.calls[step.i]) && !Inside(Moved(s.calls[step.i], step))
    ensures !step.Acquire? && !step.Release? ==> (Inside(s.calls[step.i]) <==> Inside(Moved(s.calls[step.i], step)))
  {
  }

  lemma PermitsKept<R>(s: System<R>, step: Step<R>)
    requires Inv(s) && Enabled(s, step)
    ensures var s1 := Apply(s, step);
      s1.free >= 0 && s1.free + Holding(s1.calls, Inside) == s1.maxParallel == s.maxParallel
  {
    var s1 := Apply(s, step);
    if step.Arrive? {
      assert s1.calls[..|s.calls|] == s.calls;
    } else {
      MovedStaysOrderly(s, step);
      HoldingUpdate(s.calls, step.i, s1.calls[step.i], Inside);
    }
  }

  lemma StepKeeps<R>(s: System<R>, step: Step<R>)
    requires Inv(s) && Enabled(s, step)
    ensures Inv(Apply(s, step)) && Apply(s, step).maxParallel == s.maxParallel
  {
    PermitsKept(s, step);
    if !step.Arrive? {
      MovedStaysOrderly(s, step);
    }
  }

  lemma {:induction false} RunKeeps<R>(s: System<R>, steps: seq<Step<R>>)
    requires Inv(s) && After(s, steps).Some?
    ensures Inv(After(s, steps).value) && After(s, steps).value.maxParallel == s.maxParallel
    decreases |steps|
  {
    if steps != [] {
      StepKeeps(s, steps[0]);
      RunKeeps(Apply(s, steps[0]), steps[1..]);
    }
  }

  /** Reached by some interleaving of any number of calls. */
  ghost predicate Reached<R(!new)>(maxParallel: nat, s: System<R>) {
    exists steps: seq<Step<R>> :: After(Start(maxParallel), steps) == Some(s)
  }

  lemma ReachedIsInv<R(!new)>(maxParallel: nat, s: System<R>)
    requires Reached(maxParallel, s)
    ensures Inv(s) && s.maxParallel == maxParallel
  {
    var steps :| After(Start<R>(maxParallel), steps) == Some(s);
    RunKeeps(Start(maxParallel), steps);
  }

  /** Permits are conserved, so never more than maxParallel calls are inside. */
  lemma PermitsConserved<R(!new)>(maxParallel: nat, s: System<R>)
    requires Reached(maxParallel, s)
    ensures s.free + Holding(s.calls, Inside) == maxParallel && 0 <= s.free
    ensures Holding(s.calls, Inside) <= maxParallel
  {
    ReachedIsInv(maxParallel, s);
  }

  /** A goroutine sends at most one message and never blocks on it, even when nobody will receive it. */
  lemma WorkersNeverBlock<R(!new)>(maxParallel: nat, s: System<R>, i: nat)
    requires Reached(maxParallel, s) && i < |s.calls|
    ensures s.calls[i].sent <= 1 && Pending(s.calls[i]) <= s.calls[i].sent
    ensures s.calls[i].worker.Sending? ==> Enabled(s, Send(i))
  {
    ReachedIsInv(maxParallel, s);
  }

  /** A nil error comes only with the result of the call's own node, and an error from a panic only with that node's panic. */
  lemma ReturnsOwnResult<R(!new)>(maxParallel: nat, s: System<R>, i: nat)
    requires Reached(maxParallel, s) && i < |s.calls|
    ensures forall r :: Returning(s.calls[i], Succeeded(r)) ==> s.calls[i].ended == Some(Result(r))
    ensures forall m :: Returning(s.calls[i], Panicked(m)) ==> s.calls[i].ended == Some(Panic(m))
  {
    ReachedIsInv(maxParallel, s);
  }

  // ----- what a call returns, by the steps taken -----

  /** The call's context was ended by its deadline or its parent in the interleaving. */
  predicate CutOff<R(==)>(steps: seq<Step<R>>, i: nat) {
    Expire(i) in steps || ParentEnds(i) in steps
  }

  /** What a call's fields say about the steps so far. */
  ghost predicate Told<R>(c: Call<R>, steps: seq<Step<R>>, i: nat) {
    && (c.parentDone <==> ParentEnds(i) in steps)
    && (c.caller.Selecting? && CutOff(steps, i) ==> c.childDone)
    && (Expire(i) in steps ==> c.childDone && !c.caller.Acquiring? && !c.caller.Entered?)
    && (c.childDone ==> CutOff(steps, i) || c.caller.Releasing? || c.caller.Returned?)
    && (Returning(c, DeadlinePassed) ==> CutOff(steps, i))
    && (Returning(c, NoSlot) ==> ParentEnds(i) in steps)
    && (c.ended.Some? ==> End(i, c.ended.value) in steps)
    && (forall step :: step in steps && step.End? && step.i == i ==> c.ended == Some(step.ending))
  }

  ghost predicate AllTold<R>(s: System<R>, steps: seq<Step<R>>) {
    && (forall i :: 0 <= i < |s.calls| ==> Told(s.calls[i], steps, i))
    && forall step :: step in steps && !step.Arrive? ==> step.i < |s.calls|
  }

  lemma MovedTold<R>(s: System<R>, steps: seq<Step<R>>, step: Step<R>)
    requires Inv(s) && AllTold(s, steps) && Enabled(s, step) && !step.Arrive?
    ensures Told(Moved(s.calls[step.i], step), steps + [step], step.i)
  {
    var c, c1 := s.calls[step.i], Moved(s.calls[step.i], step);
    assert forall x :: x in steps + [step] <==> x in steps || x == step;
    assert Orderly(c) && Told(c, steps, step.i);
  }

  lemma OthersTold<R>(s: System<R>, steps: seq<Step<R>>, step: Step<R>, i: nat)
    requires AllTold(s, steps) && i < |s.calls| && (step.Arrive? || step.i != i)
    ensures Told(s.calls[i], steps + [step], i)
  {
    assert forall x :: x in steps + [step] <==> x in steps || x == step;
    assert Told(s.calls[i], steps, i);
  }

  lemma NewTold<R>(s: System<R>, steps: seq<Step<R>>)
    requires AllTold(s, steps)
    ensures Told(Fresh(), steps + [Arrive], |s.calls|)
  {
    assert forall x :: x in steps + [Arrive] <==> x in steps || x == Arrive;
  }

  lemma StepTells<R>(s: System<R>, steps: seq<Step<R>>, step: Step<R>)
    requires Inv(s) && AllTold(s, steps) && Enabled(s, step)
    ensures AllTold(Apply(s, step), steps + [step])
  {
    var s1 := Apply(s, step);
    forall i | 0 <= i < |s1.calls| ensures Told(s1.calls[i], steps + [step], i) {
      if step.Arrive? && i == |s.calls| {
        NewTold(s, steps);
      } else if step.Arrive? || step.i != i {
        OthersTold(s, steps, step, i);
      } else {
        MovedTold(s, steps, step);
      }
    }
  }

  lemma {:induction false} RunTells<R>(s: System<R>, before: seq<Step<R>>, steps: seq<Step<R>>, all: seq<Step<R>>)
    requires Inv(s) && AllTold(s, before) && After(s, steps).Some? && all == before + steps
    ensures AllTold(After(s, steps).value, all)
    decreases |steps|
  {
    if steps == [] {
      assert all == before;
    } else {
      StepKeeps(s, steps[0]);
      StepTells(s, before, steps[0]);
      assert all == (before + [steps[0]]) + steps[1..];
      RunTells(Apply(s, steps[0]), before + [steps[0]], steps[1..], all);
    }
  }

  /** What a caller gets when its node ends in time. */
  function Own<R>(ending: Ending<R>): Return<R> {
    match ending
    case Result(r) => Succeeded(r)
    case Panic(m) => Panicked(m)
  }

  /** Every return is accounted for by the steps: without a slot only after the parent ended, past the deadline only after deadline or parent ended the context, and otherwise, so always when neither happened, with the node's own ending. */
  lemma ReturnsByTheSteps<R>(maxParallel: nat, steps: seq<Step<R>>, i: nat)
    requires After(Start(maxParallel), steps).Some? && i < |After(Start(maxParallel), steps).value.calls|
    ensures var caller := After(Start(maxParallel), steps).value.calls[i].caller;
      caller.Returned? ==>
        && (caller.ret == NoSlot ==> ParentEnds(i) in steps)
        && (caller.ret == DeadlinePassed ==> CutOff(steps, i))
        && (caller.ret != NoSlot && caller.ret != DeadlinePassed ==> exists e :: End(i, e) in steps && caller.ret == Own(e))
        && (forall e :: End(i, e) in steps && !CutOff(steps, i) ==> caller.ret == Own(e))
        && (!CutOff(steps, i) ==> exists e :: End(i, e) in steps)
  {
    RunKeeps(Start(maxParallel), steps);
    assert [] + steps == steps;
    RunTells(Start(maxParallel), [], steps, steps);
    var c := After(Start(maxParallel), steps).value.calls[i];
    assert Orderly(c) && Told(c, steps, i);
    if c.caller.Returned? && c.ended.Some? {
      assert End(i, c.ended.value) in steps;
    }
  }

  /** A caller that still waits can leave by the deadline exactly when its context has been ended, before or after the spawn. */
  lemma DeadlineIsSeen<R>(maxParallel: nat, steps: seq<Step<R>>, i: nat)
    requires After(Start(maxParallel), steps).Some? && i < |After(Start(maxParallel), steps).value.calls|
    requires After(Start(maxParallel), steps).value.calls[i].caller.Selecting?
    ensures Enabled(After(Start(maxParallel), steps).value, SelectDeadline(i)) <==> CutOff(steps, i)
  {
    RunKeeps(Start(maxParallel), steps);
    assert [] + steps == steps;
    RunTells(Start(maxParallel), [], steps, steps);
    assert Told(After(Start(maxParallel), steps).value.calls[i], steps, i);
  }

  // ----- progress -----

  /** Steps the protocol takes by itself: everything but new calls, cancelled parents and nodes that end. */
  predicate OwnStep<R>(step: Step<R>) {
    !step.Arrive? && !step.ParentEnds? && !step.End?
  }

  function CallerRank<R>(c: Call<R>): nat {
    match c.caller
    case Acquiring => 6
    case Entered => 5
    case Selecting => if c.childDone then 3 else 4
    case Canceling(_) => 2
    case Releasing(_) => 1
    case Returned(_) => 0
  }

  function WorkerRank<R>(c: Call<R>): nat {
    match c.worker
    case NotStarted => 3
    case Executing => 2
    case Sending(_) => 1
    case Stopped => 0
  }

  function Rank<R>(calls: seq<Call<R>>): nat {
    if calls == [] then 0
    else
      var c := calls[|calls| - 1];
      Rank(calls[..|calls| - 1]) + CallerRank(c) + WorkerRank(c)
  }

  lemma {:induction false} RankUpdate<R>(calls: seq<Call<R>>, i: nat, c: Call<R>)
    requires i < |calls|
    ensures Rank(calls[i := c]) == Rank(calls) - CallerRank(calls[i]) - WorkerRank(calls[i]) + CallerRank(c) + WorkerRank(c)
  {
    var n := |calls| - 1;
    if i < n {
      RankUpdate(calls[..n], i, c);
      assert calls[i := c][..n] == calls[..n][i := c];
    } else {
      assert calls[i := c][..n] == calls[..n];
    }
  }

  lemma MovedLowersRank<R>(s: System<R>, step: Step<R>)
    requires Enabled(s, step) && !step.Arrive? && Orderly(s.calls[step.i])
    ensures var c, c1 := s.calls[step.i], Moved(s.calls[step.i], step);
      CallerRank(c1) + WorkerRank(c1) + (if step.ParentEnds? then 0 else 1) <= CallerRank(c) + WorkerRank(c)
  {
  }

  /** Every step but an arrival or a parent's end lowers the rank. */
  lemma StepLowersRank<R>(s: System<R>, step: Step<R>)
    requires Inv(s) && Enabled(s, step) && !step.Arrive?
    ensures Rank(Apply(s, step).calls) + (if step.ParentEnds? then 0 else 1) <= Rank(s.calls)
  {
    MovedLowersRank(s, step);
    RankUpdate(s.calls, step.i, Moved(s.calls[step.i], step));
  }

  /** Its parent may still end. */
  predicate ParentLive<R>(c: Call<R>) {
    !c.parentDone
  }

  /** Steps still possible without a new call. */
  function Remaining<R>(calls: seq<Call<R>>): nat {
    Rank(calls) + Holding(calls, ParentLive)
  }

  lemma StepUsesBudget<R>(s: System<R>, step: Step<R>)
    requires Inv(s) && Enabled(s, step)
    ensures var s1 := Apply(s, step);
      1 + Remaining(s1.calls) - 11 * |s1.calls| <= Remaining(s.calls) - 11 * |s.calls|
  {
    var s1 := Apply(s, step);
    if step.Arrive? {
      assert s1.calls[..|s.calls|] == s.calls;
    } else {
      StepLowersRank(s, step);
      HoldingUpdate(s.calls, step.i, s1.calls[step.i], ParentLive);
    }
  }

  lemma {:induction false} RunUsesBudget<R>(s: System<R>, steps: seq<Step<R>>)
    requires Inv(s) && After(s, steps).Some?
    ensures var s1 := After(s, steps).value;
      |steps| + Remaining(s1.calls) - 11 * |s1.calls| <= Remaining(s.calls) - 11 * |s.calls|
    decreases |steps|
  {
    if steps != [] {
      StepKeeps(s, steps[0]);
      StepUsesBudget(s, steps[0]);
      RunUsesBudget(Apply(s, steps[0]), steps[1..]);
    }
  }

  /** An interleaving of k calls, their arrivals and parents' ends included, has at most 11 k steps. */
  lemma InterleavingsAreFinite<R>(maxParallel: nat, steps: seq<Step<R>>)
    requires After(Start(maxParallel), steps).Some?
    ensures |steps| <= 11 * |After(Start(maxParallel), steps).value.calls|
  {
    RunUsesBudget(Start(maxParallel), steps);
  }

  lemma {:induction false} SomeoneInside<R>(calls: seq<Call<R>>) returns (i: nat)
    requires Holding(calls, Inside) > 0
    ensures i < |calls| && Inside(calls[i])
  {
    i := |calls| - 1;
    if !Inside(calls[i]) {
      i := SomeoneInside(calls[..i]);
    }
  }

  function NextOf<R>(c: Call<R>, i: nat): Step<R> {
    match c.caller
    case Entered => Spawn(i)
    case Selecting => if c.childDone then SelectDeadline(i) else Expire(i)
    case Canceling(_) => Cancel(i)
    case _ => Release(i)
  }

  /** With at least one permit, some step is always possible until every caller has returned, even if no node ever ends. */
  lemma NeverStuck<R(!new)>(maxParallel: nat, s: System<R>, i: nat) returns (step: Step<R>)
    requires Reached(maxParallel, s) && maxParallel >= 1 && i < |s.calls| && !s.calls[i].caller.Returned?
    ensures OwnStep(step) && Enabled(s, step)
  {
    ReachedIsInv(maxParallel, s);
    if s.calls[i].caller.Acquiring? {
      if s.free >= 1 {
        step := Acquire(i);
      } else {
        var j := SomeoneInside(s.calls);
        step := NextOf(s.calls[j], j);
      }
    } else {
      step := NextOf(s.calls[i], i);
    }
  }

  lemma {:induction false} NobodyInside<R>(calls: seq<Call<R>>)
    requires forall i :: 0 <= i < |calls| ==> !Inside(calls[i])
    ensures Holding(calls, Inside) == 0
  {
    if calls != [] {
      NobodyInside(calls[..|calls| - 1]);
    }
  }

  /** When the protocol has come to rest, all callers have returned and all permits are back. */
  lemma AtRestAllReturned<R(!new)>(maxParallel: nat, s: System<R>)
    requires Reached(maxParallel, s) && maxParallel >= 1
    requires forall step: Step<R> :: OwnStep(step) ==> !Enabled(s, step)
    ensures s.free == maxParallel && forall i :: 0 <= i < |s.calls| ==> s.calls[i].caller.Returned? && !s.calls[i].worker.Sending?
  {
    ReachedIsInv(maxParallel, s);
    forall i | 0 <= i < |s.calls| ensures s.calls[i].caller.Returned? && !s.calls[i].worker.Sending? {
      if !s.calls[i].caller.Returned? {
        var step := NeverStuck(maxParallel, s, i);
      }
      assert !Enabled(s, Send(i));
    }
    NobodyInside(s.calls);
  }

  // ----- how many nodes execute at once -----

  /** Its node is still at work although its context is done: by its own deadline, or because the parent ended, before or after the spawn. */
  predicate Overruns<R>(c: Call<R>) {
    IsExecuting(c) && c.childDone
  }

  /** Only the given calls overrun in this state. */
  predicate Punctual<R>(calls: seq<Call<R>>, late: set<nat>) {
    forall i :: 0 <= i < |calls| && Overruns(calls[i]) ==> i in late
  }

  /** Only the given calls ever overrun along the interleaving. */
  ghost predicate OnlyLate<R>(s: System<R>, steps: seq<Step<R>>, late: set<nat>)
    decreases |steps|
  {
    && Punctual(s.calls, late)
    && (steps != [] && Enabled(s, steps[0]) ==> OnlyLate(Apply(s, steps[0]), steps[1..], late))
  }

  lemma {:induction false} EndsPunctual<R>(s: System<R>, steps: seq<Step<R>>, late: set<nat>)
    requires OnlyLate(s, steps, late) && After(s, steps).Some?
    ensures Punctual(After(s, steps).value.calls, late)
    decreases |steps|
  {
    if steps != [] {
      EndsPunctual(Apply(s, steps[0]), steps[1..], late);
    }
  }

  lemma {:induction false} ExecutingSplits<R>(calls: seq<Call<R>>)
    ensures Holding(calls, IsExecuting) <= Holding(calls, Inside) + Holding(calls, Abandoned)
  {
    if calls != [] {
      ExecutingSplits(calls[..|calls| - 1]);
    }
  }

  lemma {:induction false} AbandonedAreLate<R>(calls: seq<Call<R>>, late: set<nat>)
    requires forall i :: 0 <= i < |calls| ==> Orderly(calls[i])
    requires Punctual(calls, late)
    ensures Holding(calls, Abandoned) <= |late|
  {
    if calls != [] {
      var n := |calls| - 1;
      var front := calls[..n];
      assert forall i :: 0 <= i < n ==> front[i] == calls[i];
      AbandonedAreLate(front, late - {n});
      if Abandoned(calls[n]) {
        assert Overruns(calls[n]);
        assert |late - {n}| == |late| - 1;
      } else {
        AbandonedAreLate(front, late);
      }
    }
  }

  /** If only the given calls ever overrun, nodes at work number at most maxParallel plus those calls, in every interleaving. */
  lemma ExecutingBound<R>(maxParallel: nat, steps: seq<Step<R>>, late: set<nat>)
    requires After(Start(maxParallel), steps).Some? && OnlyLate(Start(maxParallel), steps, late)
    ensures Holding(After(Start(maxParallel), steps).value.calls, IsExecuting) <= maxParallel + |late|
  {
    var s := After(Start(maxParallel), steps).value;
    RunKeeps(Start(maxParallel), steps);
    EndsPunctual(Start(maxParallel), steps, late);
    ExecutingSplits(s.calls);
    AbandonedAreLate(s.calls, late);
  }

  // ----- the bound is attained -----

  lemma {:induction false} RunsCompose<R>(s: System<R>, front: seq<Step<R>>, back: seq<Step<R>>, late: set<nat>)
    requires After(s, front).Some?
    ensures After(s, front + back) == After(After(s, front).value, back)
    ensures OnlyLate(s, front, late) && OnlyLate(After(s, front).value, back, late) ==> OnlyLate(s, front + back, late)
    decreases |front|
  {
    if front == [] {
      assert front + back == back;
    } else {
      assert (front + back)[1..] == front[1..] + back;
      RunsCompose(Apply(s, front[0]), front[1..], back, late);
    }
  }

  lemma PunctualNewest<R>(calls: seq<Call<R>>, c: Call<R>, late: set<nat>)
    requires Punctual(calls, late) && (Overruns(c) ==> |calls| in late)
    ensures Punctual(calls + [c], late)
  {
  }

  /** A step of the newest call, followed by more steps. */
  lemma NewestMoves<R>(m: nat, free: int, calls: seq<Call<R>>, c: Call<R>, step: Step<R>, more: seq<Step<R>>, late: set<nat>)
    requires !step.Arrive? && step.i == |calls| && Enabled(System(m, free, calls + [c]), step)
    requires Punctual(calls, late) && (Overruns(c) ==> |calls| in late)
    ensures var s := System(m, free, calls + [c]);
      var next := System(m, if step.Acquire? then free - 1 else if step.Release? then free + 1 else free, calls + [Moved(c, step)]);
      && After(s, [step] + more) == After(next, more)
      && (OnlyLate(next, more, late) ==> OnlyLate(s, [step] + more, late))
  {
    PunctualNewest(calls, c, late);
    assert ([step] + more)[1..] == more;
    assert (calls + [c])[|calls| := Moved(c, step)] == calls + [Moved(c, step)];
  }

  /** A call whose node is running, and the same call after its deadline. */
  function Running<R>(): Call<R> {
    Fresh().(caller := Selecting, worker := Executing)
  }

  function TimedOut<R>(): Call<R> {
    Running().(caller := Returned(DeadlinePassed), childDone := true)
  }

  lemma CallEnters<R>(m: nat, free: int, calls: seq<Call<R>>, more: seq<Step<R>>, late: set<nat>)
    requires free >= 1 && Punctual(calls, late)
    ensures var n, s, next := |calls|, System(m, free, calls + [Fresh()]), System(m, free - 1, calls + [Running()]);
      && After(s, [Acquire(n)] + ([Spawn(n)] + more)) == After(next, more)
      && (OnlyLate(next, more, late) ==> OnlyLate(s, [Acquire(n)] + ([Spawn(n)] + more), late))
  {
    var n, c := |calls|, Fresh();
    NewestMoves(m, free, calls, c, Acquire(n), [Spawn(n)] + more, late);
    NewestMoves(m, free - 1, calls, Moved(c, Acquire(n)), Spawn(n), more, late);
  }

  lemma CallTimesOut<R>(m: nat, free: int, calls: seq<Call<R>>, late: set<nat>)
    requires Punctual(calls, late) && |calls| in late
    ensures var n, s := |calls|, System(m, free, calls + [Running()]);
      var steps := [Expire(n)] + ([SelectDeadline(n)] + ([Cancel(n)] + ([Release(n)] + [])));
      After(s, steps) == Some(System(m, free + 1, calls + [TimedOut()])) && OnlyLate(s, steps, late)
  {
    var n, c := |calls|, Running();
    var c1 := c.(childDone := true);
    PunctualNewest(calls, TimedOut(), late);
    NewestMoves(m, free, calls, c1.(caller := Releasing(DeadlinePassed)), Release(n), [], late);
    NewestMoves(m, free, calls, c1.(caller := Canceling(DeadlinePassed)), Cancel(n), [Release(n)] + [], late);
    NewestMoves(m, free, calls, c1, SelectDeadline(n), [Cancel(n)] + ([Release(n)] + []), late);
    NewestMoves(m, free, calls, c, Expire(n), [SelectDeadline(n)] + ([Cancel(n)] + ([Release(n)] + [])), late);
  }

  lemma ArrivalFirst<R>(s: System<R>, more: seq<Step<R>>, late: set<nat>)
    requires Punctual(s.calls, late)
    ensures var next := s.(calls := s.calls + [Fresh()]);
      && After(s, [Arrive] + more) == After(next, more)
      && (OnlyLate(next, more, late) ==> OnlyLate(s, [Arrive] + more, late))
  {
    assert ([Arrive] + more)[1..] == more;
  }

  /** A call whose node outlives its deadline leaves the node running and every permit where it was. */
  lemma NodeOutlivesCall<R>(s: System<R>, late: set<nat>) returns (steps: seq<Step<R>>)
    requires s.free >= 1 && Punctual(s.calls, late) && |s.calls| in late
    ensures After(s, steps) == Some(s.(calls := s.calls + [TimedOut()])) && OnlyLate(s, steps, late)
  {
    var n := |s.calls|;
    var tail: seq<Step<R>> := [Expire(n)] + ([SelectDeadline(n)] + ([Cancel(n)] + ([Release(n)] + [])));
    CallTimesOut(s.maxParallel, s.free - 1, s.calls, late);
    CallEnters(s.maxParallel, s.free, s.calls, tail, late);
    ArrivalFirst(s, [Acquire(n)] + ([Spawn(n)] + tail), late);
    steps := [Arrive] + ([Acquire(n)] + ([Spawn(n)] + tail));
  }

  function Selection<R>(n: nat, ending: Ending<R>): Step<R> {
    if ending.Result? then SelectResult(n) else SelectError(n)
  }

  /** A node that ends, and its caller's way out. */
  function Finishing<R>(n: nat, ending: Ending<R>): seq<Step<R>> {
    [End(n, ending)] + ([Send(n)] + ([Selection(n, ending)] + ([Cancel(n)] + ([Release(n)] + []))))
  }

  function Answered<R>(ending: Ending<R>): Call<R> {
    Call(Returned(Own(ending)), Stopped, None, None, false, true, Some(ending), 1)
  }

  lemma CallAnswers<R>(m: nat, free: int, calls: seq<Call<R>>, ending: Ending<R>, late: set<nat>)
    requires Punctual(calls, late)
    ensures After(System(m, free, calls + [Running()]), Finishing(|calls|, ending)) == Some(System(m, free + 1, calls + [Answered(ending)]))
  {
    var n, c := |calls|, Running();
    var c1 := c.(worker := Sending(ending), ended := Some(ending));
    var c2 := Moved(c1, Send(n));
    var c3 := Moved(c2, Selection(n, ending));
    var c4 := Moved(c3, Cancel(n));
    NewestMoves(m, free, calls, c4, Release(n), [], late);
    NewestMoves(m, free, calls, c3, Cancel(n), [Release(n)] + [], late);
    NewestMoves(m, free, calls, c2, Selection(n, ending), [Cancel(n)] + ([Release(n)] + []), late);
    NewestMoves(m, free, calls, c1, Send(n), [Selection(n, ending)] + ([Cancel(n)] + ([Release(n)] + [])), late);
    NewestMoves(m, free, calls, c, End(n, ending), [Send(n)] + ([Selection(n, ending)] + ([Cancel(n)] + ([Release(n)] + []))), late);
  }

  /** Wherever a permit is free, a new call can return whatever its node ends with, and give the permit back. */
  lemma EveryEndingIsReturned<R>(s: System<R>, ending: Ending<R>) returns (steps: seq<Step<R>>)
    requires s.free >= 1
    ensures After(s, steps) == Some(s.(calls := s.calls + [Answered(ending)]))
    ensures Answered(ending).caller == Returned(if ending.Result? then Succeeded(ending.result) else Panicked(ending.message))
  {
    var n, late := |s.calls|, FirstCalls(|s.calls|);
    CallAnswers(s.maxParallel, s.free - 1, s.calls, ending, late);
    CallEnters(s.maxParallel, s.free, s.calls, Finishing(n, ending), late);
    ArrivalFirst(s, [Acquire(n)] + ([Spawn(n)] + Finishing(n, ending)), late);
    steps := [Arrive] + ([Acquire(n)] + ([Spawn(n)] + Finishing(n, ending)));
  }

  /** When the node's ending and the deadline are both there, the select may take either. */
  lemma RaceIsOpen<R>(s: System<R>, i: nat, ending: Ending<R>)
    requires i < |s.calls| && s.calls[i].caller.Selecting? && s.calls[i].childDone
    requires if ending.Result? then s.calls[i].results == Some(ending.result) else s.calls[i].errors == Some(ending.message)
    ensures var won := After(s, [Selection(i, ending), Cancel(i), Release(i)]);
      won.Some? && |won.value.calls| == |s.calls| && won.value.calls[i].caller == Returned(Own(ending)) && won.value.free == s.free + 1
    ensures var lost := After(s, [SelectDeadline(i), Cancel(i), Release(i)]);
      lost.Some? && |lost.value.calls| == |s.calls| && lost.value.calls[i].caller == Returned(DeadlinePassed) && lost.value.free == s.free + 1
  {
    WayOut(s, i, Selection(i, ending));
    WayOut(s, i, SelectDeadline(i));
  }

  /** A node at work may end in any way, even after its caller left: its message finds room, and its goroutine stops. */
  lemma NodeMayEnd<R(!new)>(maxParallel: nat, s: System<R>, i: nat, ending: Ending<R>)
    requires Reached(maxParallel, s) && i < |s.calls| && IsExecuting(s.calls[i])
    ensures var after := After(s, [End(i, ending), Send(i)]);
      && after.Some? && |after.value.calls| == |s.calls| && after.value.free == s.free
      && after.value.calls[i].worker.Stopped? && after.value.calls[i].caller == s.calls[i].caller
  {
    ReachedIsInv(maxParallel, s);
    var send: seq<Step<R>> := [Send(i)];
    var s1 := Apply(s, End(i, ending));
    assert [End(i, ending), Send(i)] == [End(i, ending)] + send && ([End(i, ending)] + send)[1..] == send && send[1..] == [];
    assert After(s1, send) == Some(Apply(s1, Send(i)));
  }

  /** After its select a caller cancels, releases and returns what it selected. */
  lemma WayOut<R>(s: System<R>, i: nat, select: Step<R>)
    requires Enabled(s, select) && !select.Arrive? && select.i == i && Apply(s, select).calls[i].caller.Canceling?
    requires !select.Acquire? && !select.Release?
    ensures var out := After(s, [select, Cancel(i), Release(i)]);
      out.Some? && |out.value.calls| == |s.calls| && out.value.calls[i].caller == Returned(Apply(s, select).calls[i].caller.ret) && out.value.free == s.free + 1
  {
    var s1 := Apply(s, select);
    var s2 := Apply(s1, Cancel(i));
    var release: seq<Step<R>> := [Release(i)];
    assert ([select] + ([Cancel(i)] + release))[1..] == [Cancel(i)] + release;
    assert ([Cancel(i)] + release)[1..] == release && release[1..] == [];
    assert [select, Cancel(i), Release(i)] == [select] + ([Cancel(i)] + release);
    assert After(s2, release) == Some(Apply(s2, Release(i)));
    assert After(s1, [Cancel(i)] + release) == After(s2, release);
  }

  /** A call that takes a permit and keeps working. */
  lemma NodeKeepsWorking<R>(s: System<R>, late: set<nat>) returns (steps: seq<Step<R>>)
    requires s.free >= 1 && Punctual(s.calls, late)
    ensures After(s, steps) == Some(s.(calls := s.calls + [Running()], free := s.free - 1)) && OnlyLate(s, steps, late)
  {
    var n := |s.calls|;
    PunctualNewest(s.calls, Running(), late);
    CallEnters(s.maxParallel, s.free, s.calls, [], late);
    ArrivalFirst(s, [Acquire(n)] + ([Spawn(n)] + []), late);
    steps := [Arrive] + ([Acquire(n)] + ([Spawn(n)] + []));
  }

  /** A call that only waits for a permit. */
  lemma CallWaits<R>(s: System<R>, late: set<nat>) returns (steps: seq<Step<R>>)
    requires Punctual(s.calls, late)
    ensures After(s, steps) == Some(s.(calls := s.calls + [Fresh()])) && OnlyLate(s, steps, late)
  {
    PunctualNewest(s.calls, Fresh(), late);
    ArrivalFirst(s, [], late);
    steps := [Arrive] + [];
  }

  lemma HoldingAppend<R>(calls: seq<Call<R>>, c: Call<R>, p: Call<R> -> bool)
    ensures Holding(calls + [c], p) == Holding(calls, p) + if p(c) then 1 else 0
  {
    assert (calls + [c])[..|calls|] == calls;
  }

  function Below(late: set<nat>, n: nat): set<nat> {
    set i | i in late && i < n
  }

  lemma BelowStep(late: set<nat>, n: nat)
    ensures |Below(late, n + 1)| == |Below(late, n)| + if n in late then 1 else 0
  {
    assert Below(late, n + 1) == Below(late, n) + if n in late then {n} else {};
  }

  /** The first n calls, of which the late ones are abandoned at work. */
  lemma {:induction false} AbandonLate<R>(m: nat, late: set<nat>, n: nat) returns (steps: seq<Step<R>>, s: System<R>)
    requires m >= 1
    ensures After(Start(m), steps) == Some(s) && OnlyLate(Start(m), steps, late) && Punctual(s.calls, late)
    ensures s.maxParallel == m == s.free && |s.calls| == n && Holding(s.calls, IsExecuting) == |Below(late, n)|
  {
    if n == 0 {
      steps, s := [], Start(m);
      assert Below(late, 0) == {};
    } else {
      var front, s0 := AbandonLate<R>(m, late, n - 1);
      var back;
      if n - 1 in late {
        back := NodeOutlivesCall(s0, late);
      } else {
        back := CallWaits(s0, late);
      }
      var c := if n - 1 in late then TimedOut() else Fresh();
      RunsCompose(Start(m), front, back, late);
      HoldingAppend(s0.calls, c, IsExecuting);
      PunctualNewest(s0.calls, c, late);
      BelowStep(late, n - 1);
      steps, s := front + back, s0.(calls := s0.calls + [c]);
    }
  }

  /** Then k permits are taken by nodes that keep working. */
  lemma {:induction false} FillPermits<R>(m: nat, late: set<nat>, n: nat, k: nat) returns (steps: seq<Step<R>>, s: System<R>)
    requires 1 <= m && k <= m
    ensures After(Start(m), steps) == Some(s) && OnlyLate(Start(m), steps, late) && Punctual(s.calls, late)
    ensures s.maxParallel == m && s.free == m - k && Holding(s.calls, IsExecuting) == |Below(late, n)| + k
  {
    if k == 0 {
      steps, s := AbandonLate(m, late, n);
    } else {
      var front, s0 := FillPermits<R>(m, late, n, k - 1);
      var back := NodeKeepsWorking(s0, late);
      RunsCompose(Start(m), front, back, late);
      HoldingAppend(s0.calls, Running(), IsExecuting);
      PunctualNewest(s0.calls, Running(), late);
      steps, s := front + back, s0.(calls := s0.calls + [Running()], free := s0.free - 1);
    }
  }

  lemma {:induction false} AllBelow(late: set<nat>) returns (n: nat)
    ensures Below(late, n) == late
    decreases |late|
  {
    n := 0;
    if late != {} {
      var i :| i in late;
      var k := AllBelow(late - {i});
      n := if i < k then k else i + 1;
      assert forall j :: j in late ==> j == i || j in Below(late - {i}, k);
    }
  }

  /** The bound is attained for every set of late calls: abandon them, then fill the permits. */
  lemma ExecutingBoundAttained<R>(maxParallel: nat, late: set<nat>) returns (steps: seq<Step<R>>)
    requires maxParallel >= 1
    ensures After(Start(maxParallel), steps).Some? && OnlyLate(Start(maxParallel), steps, late)
    ensures Holding(After(Start(maxParallel), steps).value.calls, IsExecuting) == maxParallel + |late|
  {
    var n := AllBelow(late);
    var s;
    steps, s := FillPermits(maxParallel, late, n, maxParallel);
  }

  /** The nodes at work stay within maxParallel in all interleavings of these late calls. */
  ghost predicate LimitHolds<R(!new)>(maxParallel: nat, late: set<nat>) {
    forall steps: seq<Step<R>> :: After(Start(maxParallel), steps).Some? && OnlyLate(Start(maxParallel), steps, late) ==>
      Holding(After(Start(maxParallel), steps).value.calls, IsExecuting) <= maxParallel
  }

  /** maxParallel limits the nodes at work if and only if no call may overrun. */
  lemma LimitHoldsIffNoneLate<R(!new)>(maxParallel: nat, late: set<nat>)
    requires maxParallel >= 1
    ensures LimitHolds<R>(maxParallel, late) <==> late == {}
  {
    if late == {} {
      forall steps: seq<Step<R>> | After(Start(maxParallel), steps).Some? && OnlyLate(Start(maxParallel), steps, late)
        ensures Holding(After(Start(maxParallel), steps).value.calls, IsExecuting) <= maxParallel
      {
        ExecutingBound(maxParallel, steps, late);
      }
    } else {
      var steps := ExecutingBoundAttained<R>(maxParallel, late);
      assert |late| > 0;
    }
  }

  /** The first k calls. */
  function FirstCalls(k: nat): (r: set<nat>)
    ensures forall i: nat :: i in r <==> i < k
  {
    if k == 0 then {} else FirstCalls(k - 1) + {k - 1}
  }

  lemma {:induction false} CountFirst(k: nat)
    ensures |FirstCalls(k)| == k
  {
    if k > 0 {
      CountFirst(k - 1);
      assert k - 1 !in FirstCalls(k - 1);
    }
  }

  /** However few the permits, any number of nodes can be at work at once with every permit free, all of them abandoned. */
  lemma PermitsDoNotBoundNodes<R>(maxParallel: nat, k: nat) returns (steps: seq<Step<R>>, s: System<R>)
    requires maxParallel >= 1
    ensures After(Start(maxParallel), steps) == Some(s) && s.free == maxParallel && Holding(s.calls, IsExecuting) == k
  {
    CountFirst(k);
    assert Below(FirstCalls(k), k) == FirstCalls(k);
    steps, s := AbandonLate(maxParallel, FirstCalls(k), k);
  }
}
