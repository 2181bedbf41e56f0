/**
 * The event loop thread of `ns_event_loop.c` as interleaved steps: the creator, the starter, the
 * stopper, the loop thread, and an environment that signals and that uses the scheduler mutex.
 */
module EventLoop {
  /** A counting semaphore over its life. */
  datatype Semaphore = Missing | Live(count: nat) | Deleted

  datatype Mutex = Free | HeldByLoop | HeldByOther

  /** Where the loop thread is; the idle points are those of `eventOS_scheduler_idle`. */
  datatype LoopPoint =
    | NotRunning      // not created yet
    | FlagReset       // about to reset the stop flag
    | StartWait       // waiting for the start semaphore
    | FirstMutex      // waiting for the mutex before the loop
    | FlagCheck       // at the loop condition
    | Dispatch        // dispatching an event
    | IdleRelease     // releasing the mutex to idle
    | IdleWait        // waiting for a signal
    | IdleMutex       // taking the mutex back
    | StopRelease     // out of the loop, about to release the stop semaphore
    | Exited

  datatype CreatePoint = MakeStart | DrainStart | MakeStop | MakeSignal | MakeMutex | MakeThread | Created

  datatype StopPoint = NotStopping | Signal | StopWait | DeleteStart | DeleteStop | Stopped

  datatype State = State(
    start: Semaphore, stop: Semaphore, signal: Semaphore, mutex: Mutex, flag: bool,
    creator: CreatePoint, started: bool, loop: LoopPoint, stopper: StopPoint,
    afterReset: bool,   // the stop flag was set after the loop thread had reset it
    broken: bool)       // a semaphore was used that did not exist

  const INITIAL := State(Missing, Missing, Missing, Free, false, MakeStart, false, NotRunning, NotStopping, false, false)

  datatype Action = Create | Start | Stop | Loop(dispatched: bool) | SignalLoop | TakeMutex | DropMutex

  predicate CanWait(s: Semaphore) {
    s.Live? ==> s.count > 0
  }

  function Decrement(s: Semaphore): (after: Semaphore) {
    if s.Live? && s.count > 0 then Live(s.count - 1) else s
  }

  function Increment(s: Semaphore): (after: Semaphore) {
    if s.Live? then Live(s.count + 1) else s
  }

  function CreateStep(s: State): (after: State) {
    match s.creator
    case MakeStart => s.(start := Live(1), creator := DrainStart)
    case DrainStart => s.(start := Decrement(s.start), broken := s.broken || !s.start.Live?, creator := MakeStop)
    case MakeStop => s.(stop := Live(0), creator := MakeSignal)
    case MakeSignal => s.(signal := Live(1), creator := MakeMutex)
    case MakeMutex => s.(creator := MakeThread)
    case MakeThread => s.(loop := FlagReset, creator := Created)
    case Created => s
  }

  function StopStep(s: State): (after: State) {
    match s.stopper
    case NotStopping => s.(flag := true, afterReset := s.loop != FlagReset, stopper := Signal)
    case Signal => s.(signal := Increment(s.signal), broken := s.broken || !s.signal.Live?, stopper := StopWait)
    case StopWait => s.(stop := Decrement(s.stop), broken := s.broken || !s.stop.Live?, stopper := DeleteStart)
    case DeleteStart => s.(start := Deleted, stopper := DeleteStop)
    case DeleteStop => s.(stop := Deleted, stopper := Stopped)
    case Stopped => s
  }

  function LoopStep(s: State, dispatched: bool): (after: State) {
    match s.loop
    case NotRunning => s
    case FlagReset => s.(flag := false, loop := StartWait)
    case StartWait => s.(start := Decrement(s.start), broken := s.broken || !s.start.Live?, loop := FirstMutex)
    case FirstMutex => s.(mutex := HeldByLoop, loop := FlagCheck)
    case FlagCheck => s.(loop := if s.flag then StopRelease else Dispatch)
    case Dispatch => s.(loop := if dispatched then FlagCheck else IdleRelease)
    case IdleRelease => s.(mutex := Free, loop := IdleWait)
    case IdleWait => s.(signal := Decrement(s.signal), broken := s.broken || !s.signal.Live?, loop := IdleMutex)
    case IdleMutex => s.(mutex := HeldByLoop, loop := FlagCheck)
    case StopRelease => s.(stop := Increment(s.stop), broken := s.broken || !s.stop.Live?, loop := Exited)
    case Exited => s
  }

  /** Whether an actor can move: its caller may call it, and it is not blocked. */
  predicate Enabled(s: State, a: Action) {
    match a
    case Create => s.creator != Created && (s.creator == DrainStart ==> CanWait(s.start))
    case Start => s.creator == Created && !s.started
    case Stop => s.creator == Created && s.stopper != Stopped && (s.stopper == StopWait ==> CanWait(s.stop))
    case Loop(_) =>
      && s.loop != NotRunning && s.loop != Exited
      && (s.loop == StartWait ==> CanWait(s.start))
      && (s.loop == IdleWait ==> CanWait(s.signal))
      && (s.loop == FirstMutex || s.loop == IdleMutex ==> s.mutex == Free)
    case SignalLoop => s.creator == Created
    case TakeMutex => s.creator == Created && s.mutex == Free
    case DropMutex => s.mutex == HeldByOther
  }

  function Next(s: State, a: Action): (after: State) {
    match a
    case Create => CreateStep(s)
    case Start => s.(start := Increment(s.start), broken := s.broken || !s.start.Live?, started := true)
    case Stop => StopStep(s)
    case Loop(dispatched) => LoopStep(s, dispatched)
    case SignalLoop => s.(signal := Increment(s.signal), broken := s.broken || !s.signal.Live?)
    case TakeMutex => s.(mutex := HeldByOther)
    case DropMutex => s.(mutex := Free)
  }

  function Run(actions: seq<Action>): (after: State)
    decreases |actions|
  {
    if actions == [] then INITIAL else Next(Run(actions[..|actions| - 1]), actions[|actions| - 1])
  }

  predicate Interleaving(actions: seq<Action>)
    decreases |actions|
  {
    actions == [] ||
    (Interleaving(actions[..|actions| - 1]) &&
     Enabled(Run(actions[..|actions| - 1]), actions[|actions| - 1]))
  }

  // ----- what every interleaving keeps

  predicate InLoop(p: LoopPoint) {
    p.FlagCheck? || p.Dispatch? || p.IdleRelease? || p.IdleWait? || p.IdleMutex?
  }

  predicate PastStart(p: LoopPoint) {
    p.FirstMutex? || InLoop(p) || p.StopRelease? || p.Exited?
  }

  predicate Returning(p: StopPoint) {
    p.DeleteStart? || p.DeleteStop? || p.Stopped?
  }

  function AsCount(s: Semaphore): (n: nat) {
    if s.Live? then s.count else 0
  }

  /** Which semaphores exist. */
  predicate Life(s: State) {
    && !s.broken
    && (s.start.Deleted? ==> s.stopper == DeleteStop || s.stopper == Stopped)
    && (s.stop.Deleted? ==> s.stopper == Stopped)
    && !s.signal.Deleted?
    && (s.creator.MakeStart? ==> s.start == Missing)
    && (s.creator.DrainStart? ==> s.start == Live(1))
    && (s.creator != MakeStart ==> !s.start.Missing?)
    && (s.creator.MakeSignal? || s.creator.MakeMutex? || s.creator.MakeThread? || s.creator.Created? ==> !s.stop.Missing?)
    && (s.creator.MakeMutex? || s.creator.MakeThread? || s.creator.Created? ==> !s.signal.Missing?)
    && (s.creator != Created ==>
          s.loop == NotRunning && s.stopper == NotStopping && !s.started && s.mutex == Free &&
          AsCount(s.start) == (if s.creator.DrainStart? then 1 else 0) && AsCount(s.stop) == 0)
    && (s.creator == Created ==> s.loop != NotRunning)
  }

  /** The start semaphore holds the start until the thread takes it; the stop semaphore, the exit. */
  predicate Handshakes(s: State) {
    && (s.creator == Created && s.start.Live? ==>
          s.start.count == if s.started && !PastStart(s.loop) then 1 else 0)
    && (PastStart(s.loop) ==> s.started)
    && (s.creator == Created && s.stop.Live? ==>
          s.stop.count == if s.loop == Exited && !Returning(s.stopper) then 1 else 0)
    && (Returning(s.stopper) ==> s.loop == Exited)
  }

  /** A stop that began after the reset is kept in the flag, and its signal keeps the loop from sleeping. */
  predicate Kept(s: State) {
    && (s.afterReset ==> s.stopper != NotStopping && s.loop != FlagReset && s.loop != NotRunning)
    && (s.afterReset ==> s.flag)
    && (s.afterReset && s.stopper != Signal && (s.loop.Dispatch? || s.loop.IdleRelease? || s.loop.IdleWait?) ==>
          AsCount(s.signal) > 0)
    && (!s.afterReset && s.loop != FlagReset && s.loop != NotRunning ==> !s.flag)
    && (s.loop.StopRelease? || s.loop.Exited? ==> s.afterReset)
    && (!s.flag && !s.afterReset && s.stopper != NotStopping ==> s.loop != FlagReset)
  }

  /** The loop thread holds the mutex from its first check on, except while it idles. */
  predicate MutexKept(s: State) {
    s.mutex.HeldByLoop? <==>
      s.loop.FlagCheck? || s.loop.Dispatch? || s.loop.IdleRelease? || s.loop.StopRelease? || s.loop.Exited?
  }

  predicate Inv(s: State) {
    Life(s) && Handshakes(s) && Kept(s) && MutexKept(s)
  }

  lemma StepKeeps(s: State, a: Action)
    requires Inv(s) && Enabled(s, a)
    ensures Inv(Next(s, a))
  {
    match a
    case Create => CreateKeeps(s);
    case Start =>
    case Stop => StopKeeps(s);
    case Loop(dispatched) => LoopKeeps(s, dispatched);
    case SignalLoop =>
    case TakeMutex =>
    case DropMutex =>
  }

  lemma CreateKeeps(s: State)
    requires Inv(s) && Enabled(s, Create)
    ensures Inv(CreateStep(s))
  {
  }

  lemma StopKeeps(s: State)
    requires Inv(s) && Enabled(s, Stop)
    ensures Inv(StopStep(s))
  {
  }

  lemma LoopKeeps(s: State, dispatched: bool)
    requires Inv(s) && Enabled(s, Loop(dispatched))
    ensures Inv(LoopStep(s, dispatched))
  {
  }

  lemma {:induction false} RunKeeps(actions: seq<Action>)
    requires Interleaving(actions)
    ensures Inv(Run(actions))
    decreases |actions|
  {
    hide Next, Enabled;
    if actions != [] {
      hide Inv;
      RunKeeps(actions[..|actions| - 1]);
      StepKeeps(Run(actions[..|actions| - 1]), actions[|actions| - 1]);
    }
  }

  /**
   * In every interleaving: no semaphore is used before it exists or after it is deleted; the loop is
   * not entered before start; and stop returns only after the loop thread's last semaphore release.
   */
  lemma SafeInEveryInterleaving(actions: seq<Action>)
    requires Interleaving(actions)
    ensures var s := Run(actions);
            && !s.broken
            && (InLoop(s.loop) ==> s.started)
            && (Returning(s.stopper) ==> s.loop == Exited)
  {
    hide Run;
    RunKeeps(actions);
  }

  /**
   * If the stop flag is set after the loop thread has reset it, then once the signal is released the
   * thread is never blocked in idle with no signal left.
   */
  lemma NeverAsleepAfterStop(actions: seq<Action>)
    requires Interleaving(actions)
    ensures var s := Run(actions);
            s.afterReset && s.stopper != Signal ==> !(s.loop == IdleWait && s.signal == Live(0))
  {
    hide Run;
    RunKeeps(actions);
  }

  // ----- the stop takes effect

  /** How many steps the loop thread still needs when the flag is set. */
  function StepsToExit(p: LoopPoint): (n: nat) {
    match p
    case NotRunning => 9
    case FlagReset => 8
    case Dispatch => 6
    case IdleRelease => 5
    case IdleWait => 4
    case StartWait => 4
    case IdleMutex => 3
    case FirstMutex => 3
    case FlagCheck => 2
    case StopRelease => 1
    case Exited => 0
  }

  /** Once the loop thread is stopping, its own steps bring it to its end and no other step holds it back. */
  lemma StoppingProgresses(actions: seq<Action>, a: Action)
    requires Interleaving(actions) && Enabled(Run(actions), a)
    requires Run(actions).afterReset
    ensures var s := Run(actions);
            var t := Next(s, a);
            && t.afterReset
            && (a.Loop? ==> StepsToExit(t.loop) < StepsToExit(s.loop))
            && (!a.Loop? ==> t.loop == s.loop)
  {
    hide Run;
    RunKeeps(actions);
  }

  function LoopSteps(actions: seq<Action>): (n: nat)
    decreases |actions|
  {
    if actions == [] then 0
    else LoopSteps(actions[..|actions| - 1]) + if actions[|actions| - 1].Loop? then 1 else 0
  }

  /** However the run goes on, the loop thread has exited after at most six more steps of its own. */
  lemma {:induction false} StopTakesEffect(before: seq<Action>, more: seq<Action>)
    requires Interleaving(before + more) && Run(before).afterReset
    ensures Run(before + more).afterReset
    ensures LoopSteps(more) + StepsToExit(Run(before + more).loop) <= StepsToExit(Run(before).loop) <= 6
    decreases |more|
  {
    hide Next, Enabled, Inv;
    if more == [] {
      assert before + more == before;
      RunKeeps(before);
      ResetIsPast(Run(before));
    } else {
      var most, last := more[..|more| - 1], more[|more| - 1];
      assert (before + more)[..|before + more| - 1] == before + most;
      StopTakesEffect(before, most);
      hide StepsToExit;
      StoppingProgresses(before + most, last);
    }
  }

  lemma ResetIsPast(s: State)
    requires Inv(s) && s.afterReset
    ensures StepsToExit(s.loop) <= 6
  {
  }

  lemma StoppingIsNotBlocked(actions: seq<Action>, dispatched: bool)
    requires Interleaving(actions)
    requires Run(actions).afterReset && Run(actions).started && Run(actions).stopper != Signal
    ensures var s := Run(actions);
            Enabled(s, Loop(dispatched)) || s.mutex == HeldByOther || s.loop == Exited
    ensures Run(actions).loop == Exited && !Returning(Run(actions).stopper) ==> Enabled(Run(actions), Stop)
  {
    hide Run;
    RunKeeps(actions);
  }

  // ----- no signal is lost

  /** How many steps the loop thread needs at most to dispatch again, while it is not stopped. */
  function StepsToDispatch(p: LoopPoint): (n: nat) {
    match p
    case Dispatch => 5
    case FlagReset | IdleRelease => 4
    case StartWait | IdleWait => 3
    case FirstMutex | IdleMutex => 2
    case FlagCheck => 1
    case NotRunning | StopRelease | Exited => 0
  }

  /** A signal is still there, or the thread will dispatch before it can sleep. */
  predicate Noticed(s: State) {
    s.loop.Dispatch? || s.loop.IdleRelease? || s.loop.IdleWait? ==> AsCount(s.signal) > 0
  }

  /** How often the loop thread comes to a dispatch in these actions. */
  function Dispatches(before: seq<Action>, more: seq<Action>): (n: nat)
    decreases |more|
  {
    if more == [] then 0
    else
      var most := more[..|more| - 1];
      Dispatches(before, most) + if more[|more| - 1].Loop? && Run(before + most).loop.FlagCheck? then 1 else 0
  }

  lemma NoticedStep(s: State, a: Action)
    requires Inv(s) && Enabled(s, a) && Noticed(s) && s.creator.Created?
    requires !(a.Loop? && s.loop.FlagCheck?) && !Next(s, a).afterReset
    ensures var t := Next(s, a);
            && Noticed(t) && t.creator.Created?
            && (a.Loop? ==> StepsToDispatch(t.loop) < StepsToDispatch(s.loop))
            && (!a.Loop? ==> t.loop == s.loop)
  {
  }

  lemma NeverUnstopped(s: State, a: Action)
    requires Inv(s) && Enabled(s, a) && s.afterReset
    ensures Next(s, a).afterReset
  {
  }

  lemma SignalIsNoticed(s: State)
    requires Inv(s) && s.creator.Created?
    ensures Noticed(Next(s, SignalLoop)) && Next(s, SignalLoop).loop == s.loop && Next(s, SignalLoop).creator.Created?
    ensures StepsToDispatch(s.loop) <= 5
  {
  }

  /**
   * After a signal, however the run goes on, a thread that is not stopped comes to a dispatch after at most
   * five steps of its own, and until then it is never asleep without a signal.
   */
  lemma {:induction false} EverySignalIsDispatched(before: seq<Action>, more: seq<Action>)
    requires Interleaving(before + [SignalLoop] + more) && !Run(before + [SignalLoop] + more).afterReset
    requires Dispatches(before + [SignalLoop], more) == 0
    ensures var s := Run(before + [SignalLoop] + more);
            && Noticed(s) && s.creator.Created? && !(s.loop == IdleWait && s.signal == Live(0))
            && LoopSteps(more) + StepsToDispatch(s.loop) <= 5
    decreases |more|
  {
    hide Next, Enabled, Inv, StepsToDispatch;
    var signalled := before + [SignalLoop];
    if more == [] {
      assert signalled + more == signalled && signalled[..|signalled| - 1] == before;
      assert Enabled(Run(before), SignalLoop);
      RunKeeps(before);
      SignalEnabled(Run(before));
      SignalIsNoticed(Run(before));
    } else {
      var most, last := more[..|more| - 1], more[|more| - 1];
      var all := signalled + more;
      assert all[..|all| - 1] == signalled + most && all[|all| - 1] == last;
      RunKeeps(signalled + most);
      if Run(signalled + most).afterReset {
        NeverUnstopped(Run(signalled + most), last);
      }
      EverySignalIsDispatched(before, most);
      NoticedStep(Run(signalled + most), last);
    }
  }

  lemma SignalEnabled(s: State)
    requires Enabled(s, SignalLoop)
    ensures s.creator.Created?
  {
  }

  /** The thread that comes to the loop condition dispatches exactly when it is not stopped. */
  lemma DispatchesUnlessStopped(actions: seq<Action>, dispatched: bool)
    requires Interleaving(actions) && Run(actions).loop.FlagCheck?
    ensures var s := Run(actions);
            && Enabled(s, Loop(dispatched))
            && (Next(s, Loop(dispatched)).loop.Dispatch? <==> !s.afterReset)
            && (Next(s, Loop(dispatched)).loop.StopRelease? <==> s.afterReset)
  {
    hide Run;
    RunKeeps(actions);
  }

  /** As long as there are events to dispatch, the thread comes back to the next one without idling. */
  lemma DispatchesOn(actions: seq<Action>, dispatched: bool)
    requires Interleaving(actions) && Run(actions).loop.Dispatch?
    ensures var s := Next(Run(actions), Loop(true));
            && Enabled(Run(actions), Loop(true)) && Enabled(s, Loop(dispatched)) && s.mutex.HeldByLoop?
            && (Next(s, Loop(dispatched)).loop.Dispatch? <==> !s.afterReset)
    ensures var s := Next(Run(actions), Loop(false));
            s.loop.IdleRelease? && Next(s, Loop(dispatched)).mutex.Free?
  {
    hide Run;
    RunKeeps(actions);
  }

  // ----- the lost stop

  /** A stop that begins before the reset is lost: it never returns, in any interleaving. */
  lemma EarlyStopNeverReturns(actions: seq<Action>)
    requires Interleaving(actions)
    ensures Returning(Run(actions).stopper) ==> Run(actions).afterReset
    ensures Run(actions).loop == Exited ==> Run(actions).afterReset
  {
    hide Run;
    RunKeeps(actions);
  }

  lemma Extend(actions: seq<Action>, a: Action) returns (more: seq<Action>)
    requires Interleaving(actions) && Enabled(Run(actions), a)
    ensures Interleaving(more) && Run(more) == Next(Run(actions), a)
  {
    hide Next, Enabled;
    more := actions + [a];
    assert more[..|actions|] == actions;
  }

  /** The semaphores are made. */
  lemma CreatingRun() returns (actions: seq<Action>)
    ensures Interleaving(actions)
    ensures Run(actions) == State(Live(0), Live(0), Live(1), Free, false, MakeMutex, false, NotRunning, NotStopping, false, false)
  {
    actions := [];
    assert Interleaving([]) && Run([]) == INITIAL;
    hide Run, Interleaving;
    actions := Extend(actions, Create);
    actions := Extend(actions, Create);
    actions := Extend(actions, Create);
    actions := Extend(actions, Create);
  }

  /** The thread is created and start has been called. */
  lemma StartedRun() returns (actions: seq<Action>)
    ensures Interleaving(actions)
    ensures Run(actions) == State(Live(1), Live(0), Live(1), Free, false, Created, true, FlagReset, NotStopping, false, false)
  {
    hide Run, Interleaving;
    actions := CreatingRun();
    actions := Extend(actions, Create);
    actions := Extend(actions, Create);
    actions := Extend(actions, Start);
  }

  /** One round of the loop that finds nothing to dispatch and takes a signal. */
  lemma IdleRound(actions: seq<Action>) returns (more: seq<Action>)
    requires Interleaving(actions)
    requires var s := Run(actions); s.loop == FlagCheck && !s.flag && s.signal.Live? && s.signal.count > 0
    ensures Interleaving(more)
    ensures Run(more) == Run(actions).(signal := Live(Run(actions).signal.count - 1), mutex := HeldByLoop)
  {
    hide Run, Interleaving;
    more := Extend(actions, Loop(false));
    more := Extend(more, Loop(false));
    more := Extend(more, Loop(false));
    more := Extend(more, Loop(false));
    more := Extend(more, Loop(false));
  }

  /** A stop before the thread has run: flag and signal are set, and the flag is reset again. */
  lemma EarlyStopRun() returns (actions: seq<Action>)
    ensures Interleaving(actions)
    ensures Run(actions) == State(Live(0), Live(0), Live(2), HeldByLoop, false, Created, true, FlagCheck, StopWait, false, false)
  {
    hide Run, Interleaving;
    actions := StartedRun();
    actions := Extend(actions, Stop);
    actions := Extend(actions, Stop);
    actions := Extend(actions, Loop(false));
    actions := Extend(actions, Loop(false));
    actions := Extend(actions, Loop(false));
  }

  /** An early stop can leave the thread asleep with no signal left and the stopper waiting for it. */
  lemma LostStop() returns (actions: seq<Action>)
    ensures Interleaving(actions)
    ensures var s := Run(actions);
            && s.loop == IdleWait && s.signal == Live(0) && s.stopper == StopWait
            && !Enabled(s, Stop) && !Enabled(s, Loop(false)) && !Enabled(s, Loop(true))
  {
    hide Run, Interleaving;
    actions := EarlyStopRun();
    actions := IdleRound(actions);
    actions := IdleRound(actions);
    actions := Extend(actions, Loop(false));
    actions := Extend(actions, Loop(false));
    actions := Extend(actions, Loop(false));
  }
}
