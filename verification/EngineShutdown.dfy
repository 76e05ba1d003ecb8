/**
 The engine's run thread and one destroying thread as a protocol: every interleaving of their steps around one
 mutex, one condition variable and the event loop.
 */
module EngineShutdown {
  import opened Wrappers

  /** Where Engine::run is. Failed is the return out of a failed construction. */
  datatype RunPc =
    | Begin | Constructing | HasMain | HasDispatcher | Notified | Looping | LoopExited | MainReset | RunDone | Failed

  /** Where ~Engine is. Requesting holds the mutex and is about to call exit. */
  datatype DestroyPc =
    | Idle | Locking | Checking | Waiting | Woken | Requesting | Requested | Joining | Returned

  datatype Owner = Nobody | Runner | Destroyer

  datatype State = State(
    run: RunPc, destroy: DestroyPc, mutex: Owner, mainCommon: bool, dispatcherSet: bool,
    exitRequested: bool, badExit: bool, exits: nat)

  const START := State(Begin, Idle, Nobody, false, false, false, false, 0)

  datatype Step =
    // Engine::run
    | LockRun | SetMain | SetDispatcher | NotifyAll | UnlockRun | ExitLoop | ResetMain | OnExit
    // ~Engine
    | EnterDestructor | LockDestroy | CheckMain | Reacquire | RequestExit | UnlockDestroy | Join
    // what the environment may do wrong
    | ConstructionFails | LoopExitsUnasked | SpuriousWake

  predicate Fault(t: Step) {
    t.ConstructionFails? || t.LoopExitsUnasked? || t.SpuriousWake?
  }

  /** The state after a step, or None when the step cannot be taken. */
  function Next(s: State, t: Step): Option<State> {
    match t
    case LockRun => if s.run.Begin? && s.mutex.Nobody? then Some(s.(run := Constructing, mutex := Runner)) else None
    case SetMain => if s.run.Constructing? then Some(s.(run := HasMain, mainCommon := true)) else None
    case SetDispatcher => if s.run.HasMain? then Some(s.(run := HasDispatcher, dispatcherSet := true)) else None
    case NotifyAll =>
      if s.run.HasDispatcher? then
        Some(s.(run := Notified, destroy := if s.destroy.Waiting? then Woken else s.destroy))
      else None
    case UnlockRun => if s.run.Notified? then Some(s.(run := Looping, mutex := Nobody)) else None
    case ExitLoop => if s.run.Looping? && s.exitRequested then Some(s.(run := LoopExited)) else None
    case ResetMain => if s.run.LoopExited? then Some(s.(run := MainReset, mainCommon := false)) else None
    case OnExit => if s.run.MainReset? then Some(s.(run := RunDone, exits := s.exits + 1)) else None
    case EnterDestructor => if s.destroy.Idle? then Some(s.(destroy := Locking)) else None
    case LockDestroy =>
      if s.destroy.Locking? && s.mutex.Nobody? then Some(s.(destroy := Checking, mutex := Destroyer)) else None
    case CheckMain =>
      if !s.destroy.Checking? then None
      else if s.mainCommon then Some(s.(destroy := Requesting))
      else Some(s.(destroy := Waiting, mutex := Nobody))
    case Reacquire =>
      if s.destroy.Woken? && s.mutex.Nobody? then Some(s.(destroy := Requesting, mutex := Destroyer)) else None
    case RequestExit =>
      if s.destroy.Requesting? then
        Some(s.(destroy := Requested, exitRequested := true,
                badExit := s.badExit || !(s.mainCommon && s.dispatcherSet)))
      else None
    case UnlockDestroy => if s.destroy.Requested? then Some(s.(destroy := Joining, mutex := Nobody)) else None
    case Join => if s.destroy.Joining? && (s.run.RunDone? || s.run.Failed?) then Some(s.(destroy := Returned)) else None
    case ConstructionFails => if s.run.Constructing? then Some(s.(run := Failed, mutex := Nobody)) else None
    case LoopExitsUnasked => if s.run.Looping? then Some(s.(run := LoopExited)) else None
    case SpuriousWake => if s.destroy.Waiting? then Some(s.(destroy := Woken)) else None
  }

  function Run(s: State, ts: seq<Step>): Option<State>
    decreases |ts|
  {
    if ts == [] then Some(s)
    else if Next(s, ts[0]).None? then None
    else Run(Next(s, ts[0]).value, ts[1..])
  }

  predicate FaultFree(ts: seq<Step>) {
    forall t :: t in ts ==> !Fault(t)
  }

  // ---------- What every step keeps ----------

  predicate Constructed(run: RunPc) {
    run.Notified? || run.Looping? || run.LoopExited? || run.MainReset? || run.RunDone?
  }

  predicate RunHoldsMutex(run: RunPc) {
    run.Constructing? || run.HasMain? || run.HasDispatcher? || run.Notified?
  }

  predicate DestroyHoldsMutex(destroy: DestroyPc) {
    destroy.Checking? || destroy.Requesting? || destroy.Requested?
  }

  /** What holds in every run, whatever faults there are. */
  predicate Consistent(s: State) {
    && (s.mutex.Runner? <==> RunHoldsMutex(s.run))
    && (s.mutex.Destroyer? <==> DestroyHoldsMutex(s.destroy))
    && (s.mainCommon <==> s.run.HasMain? || s.run.HasDispatcher? || s.run.Notified? || s.run.Looping? || s.run.LoopExited?)
    && (s.dispatcherSet <==> s.run.HasDispatcher? || Constructed(s.run))
    && (s.exitRequested <==> s.destroy.Requested? || s.destroy.Joining? || s.destroy.Returned?)
    && s.exits == (if s.run.RunDone? then 1 else 0)
    && (s.destroy.Returned? ==> s.run.RunDone? || s.run.Failed?)
  }

  /** What holds in every run without faults. */
  predicate Inv(s: State) {
    && Consistent(s) && !s.run.Failed? && !s.badExit
    && (s.destroy.Waiting? ==> s.run.Begin? || s.run.Constructing? || s.run.HasMain? || s.run.HasDispatcher?)
    && (s.destroy.Woken? || s.destroy.Requesting? || s.exitRequested ==> Constructed(s.run))
    && (s.run.LoopExited? || s.run.MainReset? || s.run.RunDone? ==> s.exitRequested)
  }

  lemma StepConsistent(s: State, t: Step)
    requires Consistent(s) && Next(s, t).Some?
    ensures Consistent(Next(s, t).value)
  {
  }

  lemma StepKeeps(s: State, t: Step)
    requires Inv(s) && !Fault(t) && Next(s, t).Some?
    ensures Inv(Next(s, t).value)
  {
    StepConsistent(s, t);
  }

  lemma {:induction false} RunKeeps(s: State, ts: seq<Step>)
    requires Inv(s) && FaultFree(ts) && Run(s, ts).Some?
    ensures Inv(Run(s, ts).value)
    decreases |ts|
  {
    if ts != [] {
      assert ts[0] in ts;
      StepKeeps(s, ts[0]);
      RunKeeps(Next(s, ts[0]).value, ts[1..]);
    }
  }

  /**
   In every interleaving without faults: exit is only requested on a dispatcher that is set and alive, the loop only
   ends on request, on_exit is called at most once, and the destructor returns only after it was called.
   */
  lemma ShutdownIsSafe(ts: seq<Step>)
    requires FaultFree(ts) && Run(START, ts).Some?
    ensures var s := Run(START, ts).value;
            && !s.badExit
            && (s.exitRequested ==> s.dispatcherSet)
            && s.exits <= 1 && (s.exits == 1 ==> !s.mainCommon && s.exitRequested)
            && (s.destroy.Returned? ==> s.exits == 1 && s.run.RunDone? && !s.mainCommon)
  {
    RunKeeps(START, ts);
  }

  // ---------- Progress ----------

  /** Program steps still ahead. */
  function Ahead(s: State): nat {
    (match s.run
     case Begin => 8 case Constructing => 7 case HasMain => 6 case HasDispatcher => 5 case Notified => 4
     case Looping => 3 case LoopExited => 2 case MainReset => 1 case RunDone => 0 case Failed => 0) +
    (match s.destroy
     case Idle => 8 case Locking => 7 case Checking => 6 case Waiting => 5 case Woken => 4 case Requesting => 3
     case Requested => 2 case Joining => 1 case Returned => 0)
  }

  lemma StepsRunOut(s: State, t: Step)
    requires Next(s, t).Some?
    ensures Ahead(Next(s, t).value) < Ahead(s)
  {
  }

  /** A step without fault that can be taken, as long as the destructor was entered and has not returned. */
  function Enabled(s: State): Step {
    match s.run
    case Begin =>
      if s.mutex.Nobody? then LockRun
      else if s.destroy.Requesting? then RequestExit
      else if s.destroy.Requested? then UnlockDestroy
      else CheckMain
    case Constructing => SetMain
    case HasMain => SetDispatcher
    case HasDispatcher => NotifyAll
    case Notified => UnlockRun
    case LoopExited => ResetMain
    case MainReset => OnExit
    case _ =>
      match s.destroy
      case Idle => EnterDestructor
      case Locking => LockDestroy
      case Checking => CheckMain
      case Waiting => SpuriousWake
      case Woken => Reacquire
      case Requesting => RequestExit
      case Requested => UnlockDestroy
      case _ => if s.run.Looping? then ExitLoop else Join
  }

  lemma NeverStuck(s: State)
    requires Inv(s) && !s.destroy.Returned?
    ensures !Fault(Enabled(s)) && Next(s, Enabled(s)).Some?
  {
  }

  lemma {:induction false} RunIsBounded(s: State, ts: seq<Step>)
    requires Run(s, ts).Some?
    ensures |ts| + Ahead(Run(s, ts).value) <= Ahead(s)
    decreases |ts|
  {
    if ts != [] {
      StepsRunOut(s, ts[0]);
      RunIsBounded(Next(s, ts[0]).value, ts[1..]);
    }
  }

  /** No step of the two threads can be taken. */
  ghost predicate CannotGoOn(s: State) {
    forall t: Step :: !Fault(t) ==> Next(s, t).None?
  }

  /** No interleaving deadlocks or goes on for ever: within 16 steps, one that cannot go on has returned. */
  lemma DestructorReturns(ts: seq<Step>)
    requires FaultFree(ts) && Run(START, ts).Some? && CannotGoOn(Run(START, ts).value)
    ensures Run(START, ts).value.destroy.Returned? && |ts| <= 16
  {
    var s := Run(START, ts).value;
    RunKeeps(START, ts);
    RunIsBounded(START, ts);
    if !s.destroy.Returned? {
      NeverStuck(s);
    }
  }

  // ---------- Exactly when each fault does harm ----------

  /** The given fault may happen any number of times, and no other. */
  predicate OnlyFault(fault: Step, ts: seq<Step>) {
    forall t :: t in ts ==> t == fault || !Fault(t)
  }

  /** A destructor that waits while nobody can wake it. */
  ghost predicate WaitsForEver(s: State) {
    s.destroy.Waiting? && forall t: Step :: !t.SpuriousWake? ==> Next(s, t).None?
  }

  // Construction fails.

  /** Until construction fails everything is as without faults; then the destructor gets as far as its wait. */
  predicate FailureInv(s: State) {
    Consistent(s) &&
    if s.run.Failed? then
      !s.badExit && (s.destroy.Idle? || s.destroy.Locking? || s.destroy.Checking? || s.destroy.Waiting?)
    else Inv(s)
  }

  lemma FailureStep(s: State, t: Step)
    requires FailureInv(s) && Next(s, t).Some? && (t.ConstructionFails? || !Fault(t))
    ensures FailureInv(Next(s, t).value)
    ensures Next(s, t).value.run.Failed? <==> s.run.Failed? || t.ConstructionFails?
  {
    if !t.ConstructionFails? && !s.run.Failed? {
      StepKeeps(s, t);
    }
  }

  lemma {:induction false} FailureRun(s: State, ts: seq<Step>)
    requires FailureInv(s) && OnlyFault(ConstructionFails, ts) && Run(s, ts).Some?
    ensures FailureInv(Run(s, ts).value)
    ensures Run(s, ts).value.run.Failed? <==> s.run.Failed? || ConstructionFails in ts
    decreases |ts|
  {
    if ts != [] {
      assert ts[0] in ts;
      FailureStep(s, ts[0]);
      hide FailureInv, Next;
      FailureRun(Next(s, ts[0]).value, ts[1..]);
    }
  }

  /**
   When construction is all that may fail: exit is never requested on a missing dispatcher, and a run that cannot go
   on has returned from the destructor if construction did not fail, and waits for ever if it did.
   */
  lemma FailedConstructionExactly(ts: seq<Step>)
    requires OnlyFault(ConstructionFails, ts) && Run(START, ts).Some?
    ensures var s := Run(START, ts).value;
            && !s.badExit
            && (CannotGoOn(s) ==> (s.destroy.Returned? <==> ConstructionFails !in ts)
                                  && (WaitsForEver(s) <==> ConstructionFails in ts))
  {
    var s := Run(START, ts).value;
    FailureRun(START, ts);
    if CannotGoOn(s) {
      if s.run.Failed? {
        assert Next(s, EnterDestructor).None? && Next(s, LockDestroy).None? && Next(s, CheckMain).None?;
      } else if !s.destroy.Returned? {
        NeverStuck(s);
      }
    }
  }

  // The condition variable wakes spuriously.

  /** The destructor takes the mutex back before the run thread has ever taken it. */
  predicate EarlyReacquire(s: State, ts: seq<Step>)
    requires Run(s, ts).Some?
    decreases |ts|
  {
    ts != [] && ((ts[0].Reacquire? && s.run.Begin?) || EarlyReacquire(Next(s, ts[0]).value, ts[1..]))
  }

  predicate WakeInv(s: State, early: bool) {
    && Consistent(s) && !s.run.Failed?
    && (s.destroy.Waiting? ==> s.run.Begin? || s.run.Constructing? || s.run.HasMain? || s.run.HasDispatcher?)
    && (s.destroy.Requesting? ==> if early then s.run.Begin? else s.run.Looping?)
    && (early ==> s.destroy.Requesting? || s.exitRequested)
    && (s.exitRequested && !early ==> Constructed(s.run))
    && (s.run.LoopExited? || s.run.MainReset? || s.run.RunDone? ==> s.exitRequested)
    && (s.badExit <==> s.exitRequested && early)
  }

  lemma WakeStep(s: State, t: Step, early: bool)
    requires WakeInv(s, early) && Next(s, t).Some? && (t.SpuriousWake? || !Fault(t))
    ensures WakeInv(Next(s, t).value, early || (t.Reacquire? && s.run.Begin?))
  {
    StepConsistent(s, t);
  }

  lemma {:induction false} WakeRun(s: State, ts: seq<Step>, early: bool)
    requires WakeInv(s, early) && OnlyFault(SpuriousWake, ts) && Run(s, ts).Some?
    ensures WakeInv(Run(s, ts).value, early || EarlyReacquire(s, ts))
    decreases |ts|
  {
    if ts != [] {
      assert ts[0] in ts;
      WakeStep(s, ts[0], early);
      hide WakeInv, Next;
      WakeRun(Next(s, ts[0]).value, ts[1..], early || (ts[0].Reacquire? && s.run.Begin?));
    }
  }

  lemma WakeNeverStuck(s: State, early: bool)
    requires WakeInv(s, early) && !s.destroy.Returned?
    ensures !Fault(Enabled(s)) && Next(s, Enabled(s)).Some?
  {
  }

  /**
   With spurious wake-ups only: exit is requested on a missing dispatcher exactly when it is requested after such an
   early reacquisition; every run that cannot go on has returned, and did so harmlessly exactly without one.
   */
  lemma SpuriousWakeExactly(ts: seq<Step>)
    requires OnlyFault(SpuriousWake, ts) && Run(START, ts).Some?
    ensures var s := Run(START, ts).value;
            && (s.badExit <==> s.exitRequested && EarlyReacquire(START, ts))
            && (CannotGoOn(s) ==> s.destroy.Returned? && s.exits == 1 && (s.badExit <==> EarlyReacquire(START, ts)))
  {
    var s := Run(START, ts).value;
    WakeRun(START, ts, false);
    if CannotGoOn(s) && !s.destroy.Returned? {
      WakeNeverStuck(s, EarlyReacquire(START, ts));
    }
  }

  // The loop exits unasked.

  /** The run thread resets main before exit was requested. */
  predicate ResetBeforeRequest(s: State, ts: seq<Step>)
    requires Run(s, ts).Some?
    decreases |ts|
  {
    ts != [] && ((ts[0].ResetMain? && !s.exitRequested) || ResetBeforeRequest(Next(s, ts[0]).value, ts[1..]))
  }

  predicate UnaskedInv(s: State, late: bool) {
    && Consistent(s) && !s.run.Failed?
    && (s.destroy.Waiting? ==> late || s.run.Begin? || s.run.Constructing? || s.run.HasMain? || s.run.HasDispatcher?)
    && (s.destroy.Woken? || s.destroy.Requesting? || s.exitRequested ==> Constructed(s.run))
    && (late ==> s.run.MainReset? || s.run.RunDone?)
    && (s.run.MainReset? || s.run.RunDone? ==> late || s.exitRequested)
    && (s.badExit <==> s.exitRequested && late)
  }

  lemma UnaskedStep(s: State, t: Step, late: bool)
    requires UnaskedInv(s, late) && Next(s, t).Some? && (t.LoopExitsUnasked? || !Fault(t))
    ensures UnaskedInv(Next(s, t).value, late || (t.ResetMain? && !s.exitRequested))
  {
    StepConsistent(s, t);
  }

  lemma {:induction false} UnaskedRun(s: State, ts: seq<Step>, late: bool)
    requires UnaskedInv(s, late) && OnlyFault(LoopExitsUnasked, ts) && Run(s, ts).Some?
    ensures UnaskedInv(Run(s, ts).value, late || ResetBeforeRequest(s, ts))
    decreases |ts|
  {
    if ts != [] {
      assert ts[0] in ts;
      UnaskedStep(s, ts[0], late);
      hide UnaskedInv, Next;
      UnaskedRun(Next(s, ts[0]).value, ts[1..], late || (ts[0].ResetMain? && !s.exitRequested));
    }
  }

  lemma UnaskedStuckExactly(s: State, late: bool)
    requires UnaskedInv(s, late) && !s.destroy.Returned? && !(late && s.destroy.Waiting? && s.run.RunDone?)
    ensures !Fault(Enabled(s)) && Next(s, Enabled(s)).Some?
  {
  }

  /**
   With unasked loop exits only: a run that cannot go on has returned without harm exactly when exit was requested
   before main was reset; otherwise exit was requested on a destroyed dispatcher, or the destructor waits for ever.
   */
  lemma UnaskedLoopExitExactly(ts: seq<Step>)
    requires OnlyFault(LoopExitsUnasked, ts) && Run(START, ts).Some?
    ensures var s, late := Run(START, ts).value, ResetBeforeRequest(START, ts);
            && (s.badExit <==> s.exitRequested && late)
            && (CannotGoOn(s) ==> (s.destroy.Returned? && !s.badExit <==> !late)
                                  && (late ==> (s.destroy.Returned? && s.badExit) || WaitsForEver(s)))
  {
    var s, late := Run(START, ts).value, ResetBeforeRequest(START, ts);
    UnaskedRun(START, ts, false);
    if CannotGoOn(s) && !s.destroy.Returned? {
      if !(late && s.destroy.Waiting? && s.run.RunDone?) {
        UnaskedStuckExactly(s, late);
      }
    }
  }

  // ---------- Each of these harms is reached ----------

  lemma {:induction false} RunSnoc(s: State, ts: seq<Step>, t: Step)
    requires Run(s, ts).Some?
    ensures Run(s, ts + [t]) == Next(Run(s, ts).value, t)
    decreases |ts|
  {
    if ts == [] {
      assert [] + [t] == [t] && [t][1..] == [];
      if Next(s, t).Some? {
        assert Run(Next(s, t).value, []) == Next(s, t);
      }
    } else {
      RunSnoc(Next(s, ts[0]).value, ts[1..], t);
      assert (ts + [t])[1..] == ts[1..] + [t] && (ts + [t])[0] == ts[0];
    }
  }

  /** A run whose only fault, taken any number of times, is the given one. */
  ghost predicate ReachableWith(fault: Step, s: State) {
    exists ts {:trigger Run(START, ts)} :: Run(START, ts) == Some(s) && OnlyFault(fault, ts)
  }

  lemma StartReachable(fault: Step)
    ensures ReachableWith(fault, START)
  {
    assert Run(START, []) == Some(START);
  }

  lemma Extend(fault: Step, s: State, t: Step)
    requires ReachableWith(fault, s) && Next(s, t).Some? && (t == fault || !Fault(t))
    ensures ReachableWith(fault, Next(s, t).value)
  {
    var ts :| Run(START, ts) == Some(s) && OnlyFault(fault, ts);
    RunSnoc(START, ts, t);
    assert Run(START, ts + [t]) == Next(s, t) && OnlyFault(fault, ts + [t]);
  }

  /** The destructor reaches its wait before the run thread has begun. */
  const EARLY_WAIT := START.(destroy := Waiting)

  lemma EarlyWaitReachable(fault: Step)
    ensures ReachableWith(fault, EARLY_WAIT)
  {
    StartReachable(fault);
    Extend(fault, START, EnterDestructor);
    var s := Next(START, EnterDestructor).value;
    Extend(fault, s, LockDestroy);
    Extend(fault, Next(s, LockDestroy).value, CheckMain);
  }

  /** The wait is not repeated, so a spurious wake-up leads to exit on a dispatcher that does not exist yet. */
  lemma SpuriousWakeBreaks()
    ensures exists s :: ReachableWith(SpuriousWake, s) && s.badExit
  {
    EarlyWaitReachable(SpuriousWake);
    Extend(SpuriousWake, EARLY_WAIT, SpuriousWake);
    var s := Next(EARLY_WAIT, SpuriousWake).value;
    Extend(SpuriousWake, s, Reacquire);
    Extend(SpuriousWake, Next(s, Reacquire).value, RequestExit);
    assert Next(Next(s, Reacquire).value, RequestExit).value.badExit;
  }

  /** A failed construction returns without notifying. */
  lemma FailedConstructionBreaks()
    ensures exists s :: ReachableWith(ConstructionFails, s) && WaitsForEver(s)
  {
    EarlyWaitReachable(ConstructionFails);
    Extend(ConstructionFails, EARLY_WAIT, LockRun);
    var s := Next(EARLY_WAIT, LockRun).value;
    Extend(ConstructionFails, s, ConstructionFails);
    assert WaitsForEver(Next(s, ConstructionFails).value);
  }

  const AFTER_UNASKED_EXIT := State(RunDone, Idle, Nobody, false, true, false, false, 1)

  lemma UnaskedExit()
    ensures ReachableWith(LoopExitsUnasked, AFTER_UNASKED_EXIT)
  {
    LoopingReachable(LoopExitsUnasked);
    Extend(LoopExitsUnasked, LOOPING, LoopExitsUnasked);
    var s1 := Next(LOOPING, LoopExitsUnasked).value;
    Extend(LoopExitsUnasked, s1, ResetMain);
    Extend(LoopExitsUnasked, Next(s1, ResetMain).value, OnExit);
  }

  lemma LateWaitIsForEver()
    ensures WaitsForEver(AFTER_UNASKED_EXIT.(destroy := Waiting))
  {
  }

  /** After a loop that ended unasked, main is gone and a later destructor waits for a second notification. */
  lemma UnaskedLoopExitBreaks()
    ensures exists s :: ReachableWith(LoopExitsUnasked, s) && WaitsForEver(s)
  {
    UnaskedExit();
    var s := AFTER_UNASKED_EXIT;
    Extend(LoopExitsUnasked, s, EnterDestructor);
    var s1 := Next(s, EnterDestructor).value;
    Extend(LoopExitsUnasked, s1, LockDestroy);
    var s2 := Next(s1, LockDestroy).value;
    Extend(LoopExitsUnasked, s2, CheckMain);
    assert Next(s2, CheckMain) == Some(s.(destroy := Waiting));
    hide WaitsForEver, ReachableWith;
    LateWaitIsForEver();
  }

  const LOOPING := State(Looping, Idle, Nobody, true, true, false, false, 0)

  lemma LoopingReachable(fault: Step)
    ensures ReachableWith(fault, LOOPING)
  {
    StartReachable(fault);
    Extend(fault, START, LockRun);
    var s1 := Next(START, LockRun).value;
    Extend(fault, s1, SetMain);
    var s2 := Next(s1, SetMain).value;
    Extend(fault, s2, SetDispatcher);
    var s3 := Next(s2, SetDispatcher).value;
    Extend(fault, s3, NotifyAll);
    Extend(fault, Next(s3, NotifyAll).value, UnlockRun);
  }

  /** Main is reset without the mutex: between the destructor's check and its request, the dispatcher is destroyed. */
  lemma UnaskedLoopExitDestroysDispatcher()
    ensures exists s :: ReachableWith(LoopExitsUnasked, s) && s.badExit
  {
    LoopingReachable(LoopExitsUnasked);
    Extend(LoopExitsUnasked, LOOPING, EnterDestructor);
    var s1 := Next(LOOPING, EnterDestructor).value;
    Extend(LoopExitsUnasked, s1, LockDestroy);
    var s2 := Next(s1, LockDestroy).value;
    Extend(LoopExitsUnasked, s2, CheckMain);
    ResetBehindCheck(LOOPING.(destroy := Requesting, mutex := Destroyer));
  }

  lemma ResetBehindCheck(s: State)
    requires ReachableWith(LoopExitsUnasked, s) && s == LOOPING.(destroy := Requesting, mutex := Destroyer)
    ensures exists s' :: ReachableWith(LoopExitsUnasked, s') && s'.badExit
  {
    Extend(LoopExitsUnasked, s, LoopExitsUnasked);
    var s1 := Next(s, LoopExitsUnasked).value;
    Extend(LoopExitsUnasked, s1, ResetMain);
    var s2 := Next(s1, ResetMain).value;
    Extend(LoopExitsUnasked, s2, RequestExit);
    assert Next(s2, RequestExit).value.badExit;
  }
}
