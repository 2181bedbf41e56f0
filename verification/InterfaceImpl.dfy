/** `M2MInterfaceImpl`: the fields of the source, changed by its re-entrant methods. */
module InterfaceImpl {
  import opened Bytes
  import opened EngineModel
  import opened EngineSteps
  import opened EngineRuns
  import opened EngineSessions

  class Interface {
    const initial: nat
    const queueMode: bool
    const sleepHandler: bool
    const fallback: bool
    var script: seq<Move>
    var state: State
    var eventGenerated: bool
    var eventData: EventData
    var eventIgnored: bool
    var security: bool
    var reconnecting: bool
    var retryTimerExpired: bool
    var bootstrapped: bool
    var queueModeTimerOngoing: bool
    var reconnection: Reconnection
    var reconnectionTime: nat
    ghost var history: seq<Retry>
    ghost var trace: seq<Happening>

    ghost function View(): (c: Client)
      reads this
    {
      Client(initial, queueMode, sleepHandler, fallback, script, state, security, reconnecting,
             retryTimerExpired, bootstrapped, queueModeTimerOngoing, reconnection, reconnectionTime,
             history, trace)
    }

    /** No event is pending or marked as ignored, and no event data is left over. */
    ghost predicate NoEvent()
      reads this
    {
      !eventGenerated && eventData.NoData? && !eventIgnored
    }

    constructor (initial: nat, queueMode: bool, sleepHandler: bool, script: seq<Move>, fallback: bool)
      requires 2 <= initial <= 10
      ensures NoEvent() && Ready(View())
      ensures View() == Client(initial, queueMode, sleepHandler, fallback, script, Idle, false, false, false, true,
                               false, Reconnection.None, initial, [], [])
    {
      this.initial, this.queueMode, this.sleepHandler := initial, queueMode, sleepHandler;
      this.script, this.fallback := script, fallback;
      state := Idle;
      eventGenerated, eventData, eventIgnored := false, NoData, false;
      security, reconnecting, retryTimerExpired, queueModeTimerOngoing := false, false, false, false;
      bootstrapped := true;
      reconnection := Reconnection.None;
      reconnectionTime := initial;
      history, trace := [], [];
    }

    /** A foreign call: the environment plays its script until it returns. */
    method Foreign(service: Happening) returns (ok: bool)
      requires NoEvent() && Ready(View()) && Neutral(service)
      modifies this
      ensures NoEvent() && Answer(View(), ok) == AfterForeign(old(View()), service)
      decreases |script|, 0, 1
    {
      hide RetriesTimed, Mindful, AfterScript;
      CalledIsLawful(View(), service);
      trace := trace + [service];
      ok := PlayScript();
    }

    method PlayScript() returns (ok: bool)
      requires NoEvent() && Ready(View())
      modifies this
      ensures NoEvent() && Answer(View(), ok) == AfterScript(old(View()))
      decreases |script|, 0, 0
    {
      hide RetriesTimed, Mindful, AfterCall, Resting;
      while script != []
        invariant NoEvent() && Ready(View()) && |script| <= old(|script|)
        invariant AfterScript(View()) == AfterScript(old(View()))
        decreases |script|
      {
        var move := script[0];
        script := script[1..];
        match move {
          case Return(b) => return b;
          case CallBack(call) => Dispatch(call);
        }
      }
      return fallback;
    }

    // ----- assignments to single fields

    method SetReconnection(value: Reconnection)
      modifies this`reconnection
      ensures View() == old(View()).(reconnection := value)
    {
      reconnection := value;
    }

    method Note(value: Reconnection, ghost h: Happening)
      modifies this`reconnection, this`trace
      ensures View() == Noted(old(View()), value, h)
    {
      reconnection := value;
      trace := trace + [h];
    }

    method SetReconnecting(value: bool)
      modifies this`reconnecting
      ensures View() == old(View()).(reconnecting := value)
    {
      reconnecting := value;
    }

    method SetRetryTimerExpired(value: bool)
      modifies this`retryTimerExpired
      ensures View() == old(View()).(retryTimerExpired := value)
    {
      retryTimerExpired := value;
    }

    method SetSecurity(value: bool)
      modifies this`security
      ensures View() == old(View()).(security := value)
    {
      security := value;
    }

    method SetBootstrapped(value: bool)
      modifies this`bootstrapped
      ensures View() == old(View()).(bootstrapped := value)
    {
      bootstrapped := value;
    }

    method SetQueueModeTimerOngoing(value: bool)
      modifies this`queueModeTimerOngoing
      ensures View() == old(View()).(queueModeTimerOngoing := value)
    {
      queueModeTimerOngoing := value;
    }

    // ----- the engine

    /** `internal_event`. */
    method InternalEvent(newState: State, data: EventData)
      requires NoEvent() && Lawful(View()) && Asked(View(), newState, data)
      modifies this
      ensures NoEvent() && View() == AfterEvent(old(View()), newState, data)
      decreases |script|, Rank(newState), 3
    {
      hide RetriesTimed, Mindful, AfterState, Handled, Untouched;
      eventData := data;
      eventGenerated := true;
      state := newState;
      Engine();
    }

    /** `state_engine`: although it loops, each state function leaves no event behind. */
    method Engine()
      requires eventGenerated && !eventIgnored && Lawful(View()) && Asked(View(), state, eventData)
      modifies this
      ensures NoEvent() && View() == AfterState(old(View()), old(eventData))
      decreases |script|, Rank(state), 2
    {
      hide RetriesTimed, Mindful, AfterState, Handled, Untouched;
      while eventGenerated
        invariant !eventIgnored
        invariant eventGenerated ==> View() == old(View()) && eventData == old(eventData)
        invariant !eventGenerated ==> NoEvent() && View() == AfterState(old(View()), old(eventData))
        decreases if eventGenerated then 1 else 0
      {
        var data := eventData;
        eventData := NoData;
        eventGenerated := false;
        StateFunction(data);
      }
    }

    /** `state_function`. */
    method StateFunction(data: EventData)
      requires NoEvent() && Lawful(View()) && Asked(View(), state, data)
      modifies this
      ensures NoEvent() && View() == AfterState(old(View()), data)
      decreases |script|, Rank(state), 1
    {
      hide RetriesTimed, Mindful, Handled, Untouched, Onward, Restart, AfterBootstrap, AfterBootstrapAddress,
           AfterRegister, AfterRegisterAddress, AfterRegistered, AfterUpdate, AfterUnregister, AfterUnregistered,
           AfterReceived, AfterPassing;
      match state {
        case Bootstrap => StateBootstrap(data);
        case BootstrapAddressResolved => StateBootstrapAddressResolved(data);
        case Register => StateRegister(data);
        case RegisterAddressResolved => StateRegisterAddressResolved(data);
        case Registered => StateRegistered();
        case UpdateRegistration => StateUpdateRegistration(data);
        case Unregister => StateUnregister();
        case Unregistered => StateUnregistered();
        case CoapDataReceived => StateCoapDataReceived(data);
        case SendingCoapData | CoapDataSent | ProcessingCoapData | CoapDataProcessed => PassOn();
        case _ =>
      }
    }

    /** The state functions of data that was sent or processed. */
    method PassOn()
      requires NoEvent() && Lawful(View()) && Passes(state)
      modifies this
      ensures NoEvent() && View() == AfterPassing(old(View()))
      decreases |script|, Rank(state), 0
    {
      hide RetriesTimed, Mindful, AfterState, Untouched;
      InternalEvent(Waiting, NoData);
    }

    /** An error that sends the client back to idle. */
    method Fail()
      requires NoEvent() && Lawful(View())
      modifies this
      ensures NoEvent() && View() == AfterFailure(old(View()))
      decreases |script|, 0, 5
    {
      hide RetriesTimed, Mindful, AfterForeign, Untouched;
      InternalEvent(Idle, NoData);
      var _ := Foreign(ReportError);
    }

    method StateBootstrap(data: EventData)
      requires NoEvent() && Lawful(View()) && state == Bootstrap
      modifies this
      ensures NoEvent() && View() == AfterBootstrap(old(View()), data)
      decreases |script|, 0, 9
    {
      hide RetriesTimed, Mindful, Handled, AfterForeign, AfterFailure, Untouched;
      SetBootstrapped(false);
      if !security {
        var usable := false;
        if !data.NoData? {
          SetSecurity(true);
          usable := Foreign(CheckAddress);
          if usable {
            var _ := Foreign(ResolveBootstrapServer);
          }
        }
        if !usable {
          Fail();
        }
      } else {
        var _ := Foreign(ResolveBootstrapServer);
      }
    }

    method StateBootstrapAddressResolved(data: EventData)
      requires NoEvent() && Lawful(View()) && state == BootstrapAddressResolved
      modifies this
      ensures NoEvent() && View() == AfterBootstrapAddress(old(View()), data)
      decreases |script|, 0, 9
    {
      hide RetriesTimed, Mindful, AfterForeign, AfterFailure, Untouched;
      if !data.NoData? {
        var created := Foreign(CreateBootstrapResource);
        if created {
          InternalEvent(BootstrapResourceCreated, NoData);
        } else {
          Fail();
        }
      }
    }

    method ResolveFully()
      requires NoEvent() && Ready(View())
      modifies this
      ensures NoEvent() && View() == AfterFullResolve(old(View()))
      decreases |script|, 0, 2
    {
      hide RetriesTimed, Mindful, AfterScript;
      NotedIsLawful(View(), FullRegistration, ResolveServer);
      Note(FullRegistration, ResolveServer);
      var _ := PlayScript();
    }

    method MisreadList()
      requires Ready(View()) && trace != [] && Misleads(trace[|trace| - 1])
      modifies this`trace
      ensures View() == AfterMisread(old(View()))
    {
      hide RetriesTimed, Mindful;
      trace := trace + [Misread];
    }

    method StateRegister(data: EventData)
      requires NoEvent() && Lawful(View()) && state == Register && Asked(View(), Register, data)
      modifies this
      ensures NoEvent() && View() == AfterRegister(old(View()), data)
      decreases |script|, 0, 9
    {
      hide AfterFullResolve, AfterMisread, AfterFirst, RetriesTimed, Mindful, Handled, AfterForeign, Untouched;
      if !security {
        RegisterFirst(data);
      } else {
        if data.Data? {
          var _ := Foreign(CreateList);
        } else if data.UpdateData? && data.lifetime != 0 {
          MisreadList();
          return;
        }
        ResolveFully();
      }
    }

    /** The branch of `state_register` for a client without a security object. */
    method RegisterFirst(data: EventData)
      requires NoEvent() && Lawful(View()) && state == Register && !security && Asked(View(), Register, data)
      modifies this
      ensures NoEvent() && View() == AfterFirst(old(View()), data)
      decreases |script|, 0, 8
    {
      hide AfterFullResolve, AfterMisread, RetriesTimed, Mindful, Handled, AfterForeign, AfterFailure, Untouched;
      var usable := false;
      match data {
        case NoData =>
        case Data =>
          SetSecurity(true);
          usable := Foreign(CheckAddress);
          if usable {
            ResolveFully();
          }
        case UpdateData(given, lifetime, _) =>
          SetSecurity(!given.NoSecurity?);
          if given.WithServer? && lifetime != 0 {
            MisreadList();
            return;
          }
      }
      if !usable {
        Fail();
      }
    }

    method SendRegisterMessage()
      requires NoEvent() && Ready(View())
      modifies this
      ensures NoEvent() && View() == AfterSendRegister(old(View()))
      decreases |script|, 0, 6
    {
      hide RetriesTimed, Mindful, Handled, AfterForeign, AfterFailure, Untouched;
      var sent := Foreign(SendRegister);
      if !sent {
        Fail();
      }
    }

    method StateRegisterAddressResolved(data: EventData)
      requires NoEvent() && Lawful(View()) && state == RegisterAddressResolved
      modifies this
      ensures NoEvent() && View() == AfterRegisterAddress(old(View()), data)
      decreases |script|, 1, 9
    {
      hide RetriesTimed, Mindful, Handled, AfterSendRegister, AfterEvent, Untouched;
      if !data.NoData? {
        match reconnection {
          case None => SendRegisterMessage();
          case FullRegistration => SendRegisterMessage();
          case Unregistration => InternalEvent(UpdateRegistration, NoData);
          case WithUpdate => InternalEvent(UpdateRegistration, NoData);
        }
      }
    }

    method ContinueUnregistration()
      requires NoEvent() && Ready(View())
      modifies this
      ensures NoEvent() && View() == AfterContinued(old(View()))
      decreases |script|, 2, 8
    {
      hide RetriesTimed, Mindful, AfterEvent, Untouched, Onward;
      if reconnection.Unregistration? {
        InternalEvent(Unregister, NoData);
      }
    }

    method StateRegistered()
      requires NoEvent() && Lawful(View()) && state == Registered
      modifies this
      ensures NoEvent() && View() == AfterRegistered(old(View()))
      decreases |script|, 3, 0
    {
      hide RetriesTimed, Mindful, AfterContinued, Onward;
      RestartIsLawful(View());
      RestartRetryTime();
      SetReconnecting(false);
      ContinueUnregistration();
      Note(Reconnection.None, RegistrationHandled);
    }

    method AddNewObjects(data: EventData)
      requires NoEvent() && Ready(View())
      modifies this
      ensures NoEvent() && View() == AfterNewObjects(old(View()), data)
      decreases |script|, 0, 2
    {
      hide RetriesTimed, Mindful, AfterForeign;
      if data.UpdateData? && data.newObjects {
        var _ := Foreign(CreateList);
      }
    }

    method StateUpdateRegistration(data: EventData)
      requires NoEvent() && Lawful(View()) && state == UpdateRegistration
      modifies this
      ensures NoEvent() && View() == AfterUpdate(old(View()), data)
      decreases |script|, 0, 9
    {
      hide RetriesTimed, Mindful, Handled, AfterForeign, AfterSendRegister, AfterNewObjects, Untouched;
      SetQueueModeTimerOngoing(false);
      AddNewObjects(data);
      var success := Foreign(SendUpdate);
      if !success && reconnection.WithUpdate? {
        SetReconnection(FullRegistration);
        SendRegisterMessage();
      }
    }

    method StateUnregister()
      requires NoEvent() && Lawful(View()) && state == Unregister
      modifies this
      ensures NoEvent() && View() == AfterUnregister(old(View()))
      decreases |script|, 1, 9
    {
      hide RetriesTimed, Mindful, AfterForeign, AfterFailure, Untouched;
      InternalEvent(SendingCoapData, NoData);
      var sent := Foreign(SendUnregister);
      if !sent {
        Fail();
      }
    }

    method StateUnregistered()
      requires NoEvent() && Lawful(View()) && state == Unregistered
      modifies this
      ensures NoEvent() && View() == AfterUnregistered(old(View()))
      decreases |script|, 1, 0
    {
      hide RetriesTimed, Mindful, Untouched;
      RestartIsLawful(View());
      RestartRetryTime();
      InternalEvent(Idle, NoData);
    }

    method StateCoapDataReceived(data: EventData)
      requires NoEvent() && Lawful(View()) && state == CoapDataReceived
      modifies this
      ensures NoEvent() && View() == AfterReceived(old(View()), data)
      decreases |script|, 2, 0
    {
      hide RetriesTimed, Mindful, AfterForeign, Untouched;
      if !data.NoData? {
        InternalEvent(ProcessingCoapData, NoData);
        var parsed := Foreign(ProcessData);
        if !parsed {
          var _ := Foreign(ReportError);
        }
      }
    }

    // ----- retry times

    method StartRetryTimer()
      requires Lawful(View())
      modifies this`reconnectionTime, this`retryTimerExpired, this`history
      ensures View() == Arm(old(View()))
    {
      hide RetriesTimed, Mindful, Untouched;
      retryTimerExpired := false;
      history := history + [Armed(reconnectionTime)];
      reconnectionTime := reconnectionTime * 2;
      if reconnectionTime >= MAX_RECONNECT_TIMEOUT {
        reconnectionTime := MAX_RECONNECT_TIMEOUT;
      }
    }

    method RestartRetryTime()
      modifies this`reconnectionTime, this`history
      ensures View() == Restart(old(View()))
    {
      history := history + [Restarted];
      reconnectionTime := initial;
    }

    // ----- public calls

    /** `external_event` with the entry of a transition map, and the report of an ignored one. */
    method ExternalEvent(target: Option<State>, data: EventData)
      requires NoEvent() && Ready(View())
      requires target.Some? ==> !target.value.CoapDataReceived? && Asked(View(), target.value, data)
      modifies this
      ensures NoEvent() && View() == AfterMapped(old(View()), target, data)
      decreases |script|, 4, 0
    {
      hide RetriesTimed, Mindful, AfterForeign, AfterEvent, Handled, Untouched;
      if target.None? {
        eventIgnored := true;
      } else {
        InternalEvent(target.value, data);
      }
      if eventIgnored {
        eventIgnored := false;
        var _ := Foreign(ReportError);
      }
    }

    method BootstrapClient(secured: bool)
      requires NoEvent() && Ready(View())
      modifies this
      ensures NoEvent() && View() == AfterBootstrapCall(old(View()), secured)
      decreases |script|, 5, 0
    {
      hide RetriesTimed, Mindful, AfterForeign, AfterMapped, Untouched;
      SetSecurity(false);
      if !secured {
        var _ := Foreign(ReportError);
        return;
      }
      ExternalEvent(BootstrapMap(state), Data);
    }

    method RegisterObject(secured: bool)
      requires NoEvent() && Ready(View())
      modifies this
      ensures NoEvent() && View() == AfterRegisterCall(old(View()), secured)
      decreases |script|, 5, 0
    {
      hide RetriesTimed, Mindful, AfterForeign, AfterMapped, Untouched;
      if !secured {
        var _ := Foreign(ReportError);
        return;
      }
      ExternalEvent(RegisterMap(state), Data);
    }

    method CheckLifetime(lifetime: nat)
      requires NoEvent() && Ready(View())
      modifies this
      ensures NoEvent() && View() == AfterCheck(old(View()), lifetime)
      decreases |script|, 0, 2
    {
      hide RetriesTimed, Mindful, AfterForeign;
      if lifetime != 0 && lifetime < MINIMUM_REGISTRATION_TIME {
        var _ := Foreign(ReportError);
      }
    }

    /** An update while the client reconnects is dropped. */
    method StartRegisterUpdate(given: Given, lifetime: nat, newObjects: bool)
      requires NoEvent() && Ready(View())
      modifies this
      ensures NoEvent() && View() == AfterUpdateCall(old(View()), given, lifetime, newObjects)
      decreases |script|, 5, 0
    {
      hide RetriesTimed, Mindful, AfterCheck, AfterMapped, Untouched;
      CheckLifetime(lifetime);
      if reconnecting {
        return;
      }
      ghost var asked := UpdateAsked(state, security || given.WithServer?, lifetime);
      NotedIsLawful(View(), WithUpdate, asked);
      Note(WithUpdate, asked);
      ExternalEvent(UpdateMap(state), UpdateData(given, lifetime, newObjects));
    }

    // ----- callbacks

    method OnCoapMessageReady()
      requires NoEvent() && Ready(View())
      modifies this
      ensures NoEvent() && View() == AfterMessageReady(old(View()))
      decreases |script|, 6, 0
    {
      hide RetriesTimed, Mindful, AfterForeign, AfterSocketError, Untouched, Completes, Sleeps, Reported;
      if state != Idle {
        InternalEvent(SendingCoapData, NoData);
        var sent := Foreign(SendData);
        if !sent {
          InternalEvent(Idle, NoData);
          if !reconnecting {
            SetQueueModeTimerOngoing(false);
            OnSocketError(SocketSendError, true);
          } else {
            OnSocketError(SocketAbort, true);
          }
        }
      }
    }

    method OnRegistered()
      requires NoEvent() && Ready(View())
      modifies this
      ensures NoEvent() && View() == AfterClientRegistered(old(View()))
      decreases |script|, 4, 0
    {
      hide RetriesTimed, Mindful, AfterForeign, AfterEvent, Untouched;
      InternalEvent(Registered, NoData);
      var _ := Foreign(ReportSuccess);
    }

    method OnRegistrationError(unregistrationFailed: bool, retry: bool)
      requires NoEvent() && Ready(View())
      modifies this
      ensures NoEvent() && View() == AfterRegistrationError(old(View()), unregistrationFailed, retry)
      decreases |script|, 6, 0
    {
      hide Awake, Resting, RetriesTimed, Mindful, AfterSocketError, AfterFailure, Untouched, Onward, Handled, Completes, Sleeps,
           Reported;
      if retry {
        WakeUp(unregistrationFailed);
        OnSocketError(SocketSendError, true);
      } else {
        SetSecurity(false);
        Fail();
      }
    }

    method WakeUp(unregistrationFailed: bool)
      requires Lawful(View())
      modifies this`queueModeTimerOngoing, this`reconnection, this`trace
      ensures View() == Awake(old(View()), unregistrationFailed)
    {
      hide RetriesTimed, Mindful, Onward;
      SetQueueModeTimerOngoing(false);
      if unregistrationFailed {
        Note(Unregistration, UnregistrationFailed);
      }
    }

    method OnUnregistered()
      requires NoEvent() && Ready(View())
      modifies this
      ensures NoEvent() && View() == AfterClientUnregistered(old(View()))
      decreases |script|, 4, 0
    {
      hide RetriesTimed, Mindful, AfterForeign, AfterEvent, Untouched;
      InternalEvent(Unregistered, NoData);
      var _ := Foreign(ReportSuccess);
    }

    method OnBootstrapDone()
      requires NoEvent() && Ready(View())
      modifies this
      ensures NoEvent() && View() == AfterBootstrapDone(old(View()))
      decreases |script|, 4, 0
    {
      hide RetriesTimed, Mindful, AfterForeign, Untouched, Completed;
      CompleteBootstrap();
      InternalEvent(Bootstrapped, NoData);
      var _ := Foreign(ReportSuccess);
    }

    method CompleteBootstrap()
      requires Ready(View())
      modifies this
      ensures unchanged(`eventGenerated) && unchanged(`eventData) && unchanged(`eventIgnored)
      ensures View() == Completed(old(View()))
    {
      hide RetriesTimed, Mindful, Onward;
      RestartRetryTime();
      SetReconnecting(false);
      SetBootstrapped(true);
      Note(Reconnection.None, BootstrapCompleted);
    }

    method ReportBootstrapError()
      requires NoEvent() && Ready(View())
      modifies this
      ensures NoEvent() && View() == AfterBootstrapReport(old(View()))
      decreases |script|, 4, 0
    {
      hide RetriesTimed, Mindful, AfterForeign, Untouched;
      SetBootstrapped(false);
      NotedIsLawful(View(), Reconnection.None, BootstrapFailed);
      Note(Reconnection.None, BootstrapFailed);
      var _ := Foreign(ReportError);
      InternalEvent(Idle, NoData);
    }

    method OnBootstrapError()
      requires NoEvent() && Ready(View())
      modifies this
      ensures NoEvent() && View() == AfterBootstrapError(old(View()))
      decreases |script|, 5, 0
    {
      hide RetriesTimed, Mindful, AfterBootstrapReport, Arm, Untouched;
      ReportBootstrapError();
      SetReconnecting(true);
      StartRetryTimer();
    }

    /** The part of `socket_error` that acts on a lost connection. */
    method LoseConnection(error: SocketError, retry: bool)
      requires NoEvent() && Ready(View())
      modifies this
      ensures NoEvent() && View() == AfterLoss(old(View()), error, retry)
      decreases |script|, 4, 0
    {
      hide RetriesTimed, Mindful, AfterForeign, Settle, Untouched, Handled;
      InternalEvent(Idle, NoData);
      SettleRetries(error, retry);
      if Reported(error) {
        var _ := Foreign(ReportError);
      }
    }

    method SettleRetries(error: SocketError, retry: bool)
      requires Ready(View())
      modifies this`reconnectionTime, this`retryTimerExpired, this`history, this`reconnecting, this`security,
               this`reconnection, this`trace
      ensures View() == Settle(old(View()), error, retry)
    {
      hide RetriesTimed, Mindful, Arm;
      if retry {
        SetReconnecting(true);
        StartRetryTimer();
      }
      if !retry && Reported(error) {
        RestartRetryTime();
        SetSecurity(false);
        SetReconnecting(false);
        Note(Reconnection.None, GivenUp);
      }
    }

    method OnSocketError(error: SocketError, retry: bool)
      requires NoEvent() && Ready(View())
      modifies this
      ensures NoEvent() && View() == AfterSocketError(old(View()), error, retry)
      decreases |script|, 5, 0
    {
      hide Resting, RetriesTimed, Mindful, AfterLoss, AfterBootstrapDone, Untouched, Mark, Reported, Onward, Handled;
      if state == BootstrapWait && error == SslPeerClosed {
        SetSecurity(false);
        OnBootstrapDone();
        return;
      }
      if queueMode && sleepHandler && queueModeTimerOngoing {
        return;
      }
      MarkConnection();
      LoseConnection(error, retry);
    }

    method MarkConnection()
      modifies this`reconnection
      ensures View() == Mark(old(View()))
    {
      if !reconnection.Unregistration? && !reconnection.FullRegistration? {
        reconnection := WithUpdate;
      }
    }

    method OnDataSent()
      requires NoEvent() && Ready(View())
      modifies this
      ensures NoEvent() && View() == AfterDataSent(old(View()))
      decreases |script|, 6, 0
    {
      hide RetriesTimed, Mindful, AfterBootstrapError, AfterEvent, Untouched;
      if state == BootstrapErrorWait {
        OnBootstrapError();
      } else if state != BootstrapWait {
        InternalEvent(CoapDataSent, NoData);
      }
    }

    method OnQueueSleep()
      requires NoEvent() && Ready(View())
      modifies this
      ensures NoEvent() && View() == AfterTimer(old(View()), QueueSleep)
      decreases |script|, 7, 0
    {
      hide RetriesTimed, Mindful, AfterForeign, Onward, Handled, Resting;
      SetQueueModeTimerOngoing(true);
      if sleepHandler {
        var _ := Foreign(CallSleepHandler);
      }
    }

    method OnRetryTimer()
      requires NoEvent() && Ready(View())
      modifies this
      ensures NoEvent() && View() == AfterTimer(old(View()), RetryTimer)
      decreases |script|, 7, 0
    {
      hide RetriesTimed, Mindful, AfterEvent, Onward, Handled, Resting;
      SetRetryTimerExpired(true);
      if bootstrapped {
        InternalEvent(Register, NoData);
      } else {
        InternalEvent(Bootstrap, NoData);
      }
    }

    method OnBootstrapFlowTimer()
      requires NoEvent() && Ready(View())
      modifies this
      ensures NoEvent() && View() == AfterTimer(old(View()), BootstrapFlowTimer)
      decreases |script|, 7, 0
    {
      hide RetriesTimed, Mindful, AfterBootstrapError, Onward, Handled, Resting;
      SetBootstrapped(false);
      OnBootstrapError();
    }

    method OnTimerExpired(kind: TimerKind)
      requires NoEvent() && Ready(View())
      modifies this
      ensures NoEvent() && View() == AfterTimer(old(View()), kind)
      decreases |script|, 7, 1
    {
      hide RetriesTimed, Mindful, AfterRegistrationError, Onward, Handled, Resting, Completes;
      match kind {
        case QueueSleep => OnQueueSleep();
        case RetryTimer => OnRetryTimer();
        case BootstrapFlowTimer => OnBootstrapFlowTimer();
        case RegistrationFlowTimer => OnRegistrationError(false, true);
      }
    }

    /** Any entry point, from the application or as a callback. */
    method Dispatch(call: Call)
      requires NoEvent() && Ready(View())
      modifies this
      ensures NoEvent() && View() == AfterCall(old(View()), call)
      ensures BeginsRightly(old(View()), call, trace)
      decreases |script|, 8, 0
    {
      hide RetriesTimed, Mindful, AfterBootstrapCall, AfterRegisterCall, AfterUpdateCall, AfterMapped,
           AfterMessageReady, AfterClientRegistered, AfterRegistrationError, AfterClientUnregistered,
           AfterBootstrapDone, AfterEvent, AfterBootstrapError, AfterSocketError, AfterDataSent,
           AfterTimer, UnregisterMap, Handled, Untouched, Onward, Completes, Sleeps, Reported, BeginsRightly;
      EveryCallBeginsRightly(View(), call);
      match call {
        case BootstrapCall(secured) => BootstrapClient(secured);
        case RegisterCall(secured) => RegisterObject(secured);
        case UpdateCall(given, lifetime, newObjects) => StartRegisterUpdate(given, lifetime, newObjects);
        case UnregisterCall => UnregisterObject();
        case CoapMessageReady => OnCoapMessageReady();
        case ClientRegistered => OnRegistered();
        case RegistrationUpdated => OnRegistered();
        case RegistrationError(failed, retry) => OnRegistrationError(failed, retry);
        case ClientUnregistered => OnUnregistered();
        case BootstrapDone => OnBootstrapDone();
        case BootstrapWaits => InternalEvent(BootstrapWait, NoData);
        case BootstrapErrorWaits => InternalEvent(BootstrapErrorWait, NoData);
        case BootstrapError => OnBootstrapError();
        case CoapDataIsProcessed => InternalEvent(CoapDataProcessed, NoData);
        case DataAvailable => InternalEvent(CoapDataReceived, Data);
        case SocketFails(error, retry) => OnSocketError(error, retry);
        case AddressReady(bootstrapServer) =>
          InternalEvent(if bootstrapServer then BootstrapAddressResolved else RegisterAddressResolved, Data);
        case DataSent => OnDataSent();
        case TimerExpired(kind) => OnTimerExpired(kind);
      }
    }

    method UnregisterObject()
      requires NoEvent() && Ready(View())
      modifies this
      ensures NoEvent() && View() == AfterMapped(old(View()), UnregisterMap(old(state)), NoData)
      decreases |script|, 5, 0
    {
      hide RetriesTimed, Mindful, AfterMapped, Untouched;
      ExternalEvent(UnregisterMap(state), NoData);
    }

    /**
     * Any calls, one after the other. Unless an object list was misread, the client rests, every retry was
     * and the next one is due in time, and an unregistration waits exactly when one is remembered.
     */
    method Play(calls: seq<Call>)
      requires NoEvent() && Ready(View())
      modifies this
      ensures NoEvent() && View() == AfterCalls(old(View()), calls)
      ensures Misread !in trace ==>
                && Resting(state)
                && Timed(initial, history) && reconnectionTime == RetryTime(initial, Since(history))
                && (reconnection.Unregistration? <==> Remembered(trace))
      ensures Explained(trace)
    {
      hide AfterCall, Untouched, Resting, Timed, Remembered, Explained, Since, RetryTime;
      for i := 0 to |calls|
        invariant NoEvent() && Ready(View())
        invariant View() == AfterCalls(old(View()), calls[..i])
      {
        Dispatch(calls[i]);
        assert calls[..i + 1][..i] == calls[..i];
      }
      assert calls[..|calls|] == calls;
    }
  }
}
