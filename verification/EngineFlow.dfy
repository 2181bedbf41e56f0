/**
 * What each call makes the client do, against every script: the foreign calls in their order, and the state
 * each of them finds. Nothing here speaks of events or of transition maps.
 */
module EngineFlow {
  import opened Bytes
  import opened EngineModel
  import opened EngineSteps
  import opened EngineRuns

  // ----- pieces of a flow

  /** A foreign call whose answer does not matter. */
  function Told(c: Client, service: Happening): (r: Client)
    requires Ready(c) && Neutral(service)
    ensures Ready(r) && c.trace + [service] <= r.trace
  {
    hide RetriesTimed, Mindful, AfterForeign;
    CalledFirst(c, service);
    AfterForeign(c, service).client
  }

  /** The client is idle and says so. */
  function Failed(c: Client): (r: Client)
    requires Lawful(c)
    ensures Ready(r) && c.trace + [ReportError] <= r.trace
  {
    hide RetriesTimed, Mindful, Told;
    Told(c.(state := Idle), ReportError)
  }

  /** A foreign call, and a failure if it is refused. */
  function Tried(c: Client, service: Happening): (r: Client)
    requires Ready(c) && Neutral(service)
    ensures Ready(r) && c.trace + [service] <= r.trace
  {
    hide RetriesTimed, Mindful, Failed, AfterForeign;
    CalledFirst(c, service);
    var a := AfterForeign(c, service);
    if a.ok then a.client else Failed(a.client)
  }

  /** The address of the server is resolved, for a full registration. */
  function Resolved(c: Client): (r: Client)
    requires Ready(c)
    ensures Ready(r) && c.trace + [ResolveServer] <= r.trace
  {
    hide RetriesTimed, Mindful, AfterScript;
    NotedIsLawful(c, FullRegistration, ResolveServer);
    AfterScript(c.(reconnection := FullRegistration, trace := c.trace + [ResolveServer])).client
  }

  lemma ToldIs(c: Client, service: Happening)
    requires Ready(c) && Neutral(service)
    ensures Told(c, service) == AfterForeign(c, service).client
  {
    hide RetriesTimed, Mindful, AfterForeign;
  }

  lemma FailureIs(c: Client)
    requires Lawful(c)
    ensures AfterFailure(c) == Failed(c)
  {
    hide RetriesTimed, Mindful, AfterForeign;
  }

  lemma ResolvedIs(c: Client)
    requires Ready(c)
    ensures AfterFullResolve(c) == Resolved(c)
  {
    hide RetriesTimed, Mindful, AfterScript;
  }

  lemma Ignored(c: Client, data: EventData)
    requires Ready(c)
    ensures AfterMapped(c, Option.None, data) == Told(c, ReportError)
  {
    hide RetriesTimed, Mindful, AfterForeign;
  }

  lemma Taken(c: Client, s: State, data: EventData)
    requires Ready(c) && Asked(c, s, data) && !s.CoapDataReceived?
    ensures AfterMapped(c, Some(s), data) == AfterEvent(c, s, data)
  {
    hide RetriesTimed, Mindful, Handled, AfterEvent;
  }

  // ----- bootstrap

  /** The address of the bootstrap server is checked and resolved. */
  function Bootstraps(c: Client): (r: Client)
    requires Lawful(c)
    ensures Ready(r) && c.trace + [CheckAddress] <= r.trace
  {
    hide RetriesTimed, Mindful, AfterForeign, Told, Failed;
    var c0 := c.(state := Bootstrap, security := true, bootstrapped := false);
    CalledFirst(c0, CheckAddress);
    var a := AfterForeign(c0, CheckAddress);
    if a.ok then Told(a.client, ResolveBootstrapServer) else Failed(a.client)
  }

  /** `bootstrap` asks for the address exactly in two states, and anywhere else only reports an error. */
  lemma BootstrapFlow(c: Client, secured: bool)
    requires Ready(c)
    ensures AfterCall(c, BootstrapCall(secured)) ==
            if secured && (c.state == Idle || c.state == Bootstrapped) then Bootstraps(c)
            else Told(c.(security := false), ReportError)
  {
    hide RetriesTimed, Mindful, AfterForeign, AfterMapped, AfterCall, Bootstraps, Told;
    BootstrapIsCalled(c, secured);
    var c0 := c.(security := false);
    if secured && (c.state == Idle || c.state == Bootstrapped) {
      BootstrapTaken(c);
    } else if secured {
      Ignored(c0, Data);
    } else {
      ToldIs(c0, ReportError);
    }
  }

  lemma BootstrapTaken(c: Client)
    requires Ready(c)
    ensures AfterMapped(c.(security := false), Some(Bootstrap), Data) == Bootstraps(c)
  {
    hide RetriesTimed, Mindful, Handled, AfterEvent, AfterMapped, Bootstraps, AfterState, Resting;
    var c0 := c.(security := false);
    Taken(c0, Bootstrap, Data);
    EventEnters(c0, Bootstrap, Data);
    BootstrapIs(c0.(state := Bootstrap));
    BootstrapsFrom(c, c0.(state := Bootstrap));
  }

  lemma BootstrapsFrom(c: Client, c0: Client)
    requires Lawful(c) && c0 == c.(state := Bootstrap, security := false)
    ensures Bootstraps(c0) == Bootstraps(c)
  {
    hide RetriesTimed, Mindful, AfterForeign, Told, Failed;
  }

  lemma BootstrapIsCalled(c: Client, secured: bool)
    requires Ready(c)
    ensures AfterCall(c, BootstrapCall(secured)) == AfterBootstrapCall(c, secured)
  {
    hide RetriesTimed, Mindful, AfterBootstrapCall, Onward, Resting;
  }

  lemma BootstrapIs(c: Client)
    requires Lawful(c) && c.state == Bootstrap && !c.security
    ensures AfterState(c, Data) == Bootstraps(c)
  {
    hide RetriesTimed, Mindful, Handled, AfterForeign, AfterFailure, Failed, Onward, Told, AfterBootstrap;
    assert AfterState(c, Data) == AfterBootstrap(c, Data);
    BootstrapChecks(c);
  }

  lemma BootstrapChecks(c: Client)
    requires Lawful(c) && c.state == Bootstrap && !c.security
    ensures AfterBootstrap(c, Data) == Bootstraps(c)
  {
    hide RetriesTimed, Mindful, Handled, AfterForeign, AfterFailure, Failed, Onward, Told;
    var a := AfterForeign(c.(security := true, bootstrapped := false), CheckAddress);
    FailureIs(a.client);
    ToldIs(a.client, ResolveBootstrapServer);
  }

  // ----- registration

  /** The objects are listed, or the address of the server is checked, and then the address is resolved. */
  function Registers(c: Client): (r: Client)
    requires Lawful(c)
    ensures Ready(r) && c.trace + [if c.security then CreateList else CheckAddress] <= r.trace
  {
    hide RetriesTimed, Mindful, AfterForeign, Told, Failed, Resolved;
    var c0 := c.(state := Register, security := true);
    if c.security then Resolved(Told(c0, CreateList))
    else
      CalledFirst(c0, CheckAddress);
      var a := AfterForeign(c0, CheckAddress);
      if a.ok then Resolved(a.client) else Failed(a.client)
  }

  /** `register_object` begins a registration exactly in four states, and anywhere else only reports an error. */
  lemma RegisterFlow(c: Client, secured: bool)
    requires Ready(c)
    ensures AfterCall(c, RegisterCall(secured)) ==
            if secured && (c.state == Idle || c.state == Bootstrapped || c.state == Registered || c.state == Waiting)
            then Registers(c)
            else Told(c, ReportError)
  {
    hide RetriesTimed, Mindful, Handled, AfterForeign, AfterEvent, AfterMapped, AfterCall, Registers, Told,
         AfterState, AfterRegister;
    RegisterIsCalled(c, secured);
    if secured && (c.state == Idle || c.state == Bootstrapped || c.state == Registered || c.state == Waiting) {
      Taken(c, Register, Data);
      EventEnters(c, Register, Data);
      StateIsRegister(c.(state := Register), Data);
      RegisterIs(c.(state := Register));
      RegistersFrom(c);
    } else if secured {
      Ignored(c, Data);
    } else {
      ToldIs(c, ReportError);
    }
  }

  lemma RegistersFrom(c: Client)
    requires Lawful(c)
    ensures Registers(c.(state := Register)) == Registers(c)
  {
    hide RetriesTimed, Mindful, AfterForeign, Told, Failed, Resolved;
  }

  lemma RegisterIsCalled(c: Client, secured: bool)
    requires Ready(c)
    ensures AfterCall(c, RegisterCall(secured)) == AfterRegisterCall(c, secured)
  {
    hide RetriesTimed, Mindful, AfterRegisterCall, Onward, Resting;
  }

  lemma RegisterIs(c: Client)
    requires Lawful(c) && c.state == Register
    ensures AfterRegister(c, Data) == Registers(c)
  {
    hide RetriesTimed, Mindful, Handled, AfterForeign, AfterFailure, AfterFullResolve, Failed, Resolved, Onward, Told;
    if c.security {
      assert c.(state := Register, security := true) == c;
      ToldIs(c, CreateList);
      ResolvedIs(AfterForeign(c, CreateList).client);
    } else {
      var a := AfterForeign(c.(security := true), CheckAddress);
      FailureIs(a.client);
      ResolvedIs(a.client);
    }
  }

  /** The bootstrap resource is created. */
  function BootstrapGoesOn(c: Client): (r: Client)
    requires Ready(c)
    ensures Ready(r) && c.trace + [CreateBootstrapResource] <= r.trace
  {
    hide RetriesTimed, Mindful, AfterForeign, Failed;
    CalledFirst(c, CreateBootstrapResource);
    var a := AfterForeign(c, CreateBootstrapResource);
    if a.ok then a.client.(state := BootstrapResourceCreated) else Failed(a.client)
  }

  /** The registration message goes out in a registration from scratch; any other reconnection sends an update. */
  lemma AddressFlow(c: Client, bootstrapServer: bool)
    requires Ready(c)
    ensures AfterCall(c, AddressReady(bootstrapServer)) ==
            if bootstrapServer then BootstrapGoesOn(c.(state := BootstrapAddressResolved))
            else if c.reconnection.None? || c.reconnection.FullRegistration? then
              Tried(c.(state := RegisterAddressResolved), SendRegister)
            else Updated(c.(state := UpdateRegistration, queueModeTimerOngoing := false))
  {
    hide RetriesTimed, Mindful, Handled, AfterCall, AfterEvent, AfterState, BootstrapGoesOn, Tried, Updated;
    var s := if bootstrapServer then BootstrapAddressResolved else RegisterAddressResolved;
    AddressIsCalled(c, bootstrapServer);
    EventEnters(c, s, Data);
    if bootstrapServer {
      BootstrapAddressIs(c.(state := s));
    } else {
      RegisterAddressIs(c.(state := s));
    }
  }

  lemma AddressIsCalled(c: Client, bootstrapServer: bool)
    requires Ready(c)
    ensures AfterCall(c, AddressReady(bootstrapServer)) ==
            AfterEvent(c, if bootstrapServer then BootstrapAddressResolved else RegisterAddressResolved, Data)
  {
    hide RetriesTimed, Mindful, AfterEvent, Handled, Onward, Resting;
  }

  /** The update message, and after a refused reconnection the registration message. */
  function Updated(c: Client): (r: Client)
    requires Ready(c)
    ensures Ready(r) && c.trace + [SendUpdate] <= r.trace
  {
    hide RetriesTimed, Mindful, AfterForeign, Tried;
    CalledFirst(c, SendUpdate);
    var a := AfterForeign(c, SendUpdate);
    if !a.ok && a.client.reconnection.WithUpdate?
    then Tried(a.client.(reconnection := FullRegistration), SendRegister)
    else a.client
  }

  lemma BootstrapAddressIs(c: Client)
    requires Lawful(c) && c.state == BootstrapAddressResolved
    ensures AfterState(c, Data) == BootstrapGoesOn(c)
  {
    hide RetriesTimed, Mindful, Handled, AfterForeign, AfterFailure, Failed, Onward, Through;
    assert AfterState(c, Data) == AfterBootstrapAddress(c, Data);
    FailureIs(AfterForeign(c, CreateBootstrapResource).client);
  }

  lemma SentIs(c: Client)
    requires Ready(c)
    ensures AfterSendRegister(c) == Tried(c, SendRegister)
  {
    hide RetriesTimed, Mindful, Handled, AfterForeign, AfterFailure, Failed, Onward;
    FailureIs(AfterForeign(c, SendRegister).client);
  }

  lemma UpdatedIs(c: Client, data: EventData)
    requires Ready(c) && c.state == UpdateRegistration
    ensures AfterUpdate(c, data) ==
            var c0 := c.(queueModeTimerOngoing := false);
            Updated(if data.UpdateData? && data.newObjects then Told(c0, CreateList) else c0)
  {
    hide RetriesTimed, Mindful, Handled, AfterForeign, AfterSendRegister, Tried, Onward;
    var a := AfterForeign(AfterNewObjects(c.(queueModeTimerOngoing := false), data), SendUpdate);
    if !a.ok && a.client.reconnection.WithUpdate? {
      SentIs(a.client.(reconnection := FullRegistration));
    }
  }

  lemma RegisterAddressIs(c: Client)
    requires Lawful(c) && c.state == RegisterAddressResolved
    ensures AfterState(c, Data) ==
            if c.reconnection.None? || c.reconnection.FullRegistration? then Tried(c, SendRegister)
            else Updated(c.(state := UpdateRegistration, queueModeTimerOngoing := false))
  {
    hide RetriesTimed, Mindful, Handled, AfterForeign, AfterEvent, AfterSendRegister, AfterUpdate, Tried, Updated, Onward;
    assert AfterState(c, Data) == AfterRegisterAddress(c, Data);
    if c.reconnection.None? || c.reconnection.FullRegistration? {
      SentIs(c);
    } else {
      assert AfterRegisterAddress(c, Data) == ToRest(c, UpdateRegistration, NoData);
      assert ToRest(c, UpdateRegistration, NoData) == AfterEvent(c, UpdateRegistration, NoData);
      UpdateEnters(c, NoData);
      UpdatedIs(c.(state := UpdateRegistration), NoData);
    }
  }

  // ----- unregistration

  /** The unregistration message. */
  function Unregisters(c: Client): (r: Client)
    requires Lawful(c)
    ensures Ready(r) && c.trace + [SendUnregister] <= r.trace
  {
    hide RetriesTimed, Mindful, Tried;
    Tried(c.(state := Waiting), SendUnregister)
  }

  lemma UnregistersFrom(c: Client, s: State)
    requires Lawful(c)
    ensures Unregisters(c.(state := s)) == Unregisters(c)
  {
    hide RetriesTimed, Mindful, Tried;
  }

  /** `unregister_object` sends exactly in the three states of a registered client that can be met at rest. */
  lemma UnregisterFlow(c: Client)
    requires Ready(c)
    ensures AfterCall(c, UnregisterCall) ==
            if c.state == Registered || c.state == UpdateRegistration || c.state == Waiting
            then Unregisters(c)
            else Told(c, ReportError)
  {
    hide RetriesTimed, Mindful, AfterMapped, AfterCall, Unregisters, Told, UnregisterMap, Resting;
    UnregisterIsCalled(c);
    UnregisterTarget(c.state);
    if c.state == Registered || c.state == UpdateRegistration || c.state == Waiting {
      UnregisterTaken(c);
    } else {
      Ignored(c, NoData);
    }
  }

  lemma UnregisterTaken(c: Client)
    requires Ready(c)
    ensures AfterMapped(c, Some(Unregister), NoData) == Unregisters(c)
  {
    hide RetriesTimed, Mindful, Handled, AfterEvent, AfterMapped, Unregisters, AfterUnregister, Resting;
    Taken(c, Unregister, NoData);
    UnregisterEnters(c);
    UnregisterIs(c.(state := Unregister));
    UnregistersFrom(c, Unregister);
  }

  lemma UnregisterTarget(s: State)
    requires Resting(s)
    ensures UnregisterMap(s) ==
            if s == Registered || s == UpdateRegistration || s == Waiting then Some(Unregister) else Option.None
  {
  }

  lemma UnregisterIsCalled(c: Client)
    requires Ready(c)
    ensures AfterCall(c, UnregisterCall) == AfterMapped(c, UnregisterMap(c.state), NoData)
  {
    hide RetriesTimed, Mindful, AfterMapped, UnregisterMap, Onward, Resting;
  }

  lemma UnregisterIs(c: Client)
    requires Lawful(c) && c.state == Unregister
    ensures AfterUnregister(c) == Unregisters(c)
  {
    hide RetriesTimed, Mindful, Handled, AfterForeign, AfterFailure, Failed, Onward, Through;
    assert Through(c, SendingCoapData) == c.(state := Waiting);
    FailureIs(AfterForeign(c.(state := Waiting), SendUnregister).client);
  }

  /** A finished unregistration: the retry times start over and the client is idle. */
  lemma UnregisteredFlow(c: Client)
    requires Ready(c)
    ensures Ready(Restart(c).(state := Idle))
    ensures AfterCall(c, ClientUnregistered) == Told(Restart(c).(state := Idle), ReportSuccess)
  {
    hide RetriesTimed, Mindful, AfterForeign, AfterEvent, Restart;
    RestartIsLawful(c);
    assert AfterCall(c, ClientUnregistered) == AfterClientUnregistered(c);
    assert AfterEvent(c, Unregistered, NoData) == Restart(c).(state := Idle);
  }

  // ----- a registration that succeeds or fails

  /** A registered client: an unregistration that waits is sent, and nothing is left to reconnect. */
  function Settled(c: Client): (r: Client)
    requires Ready(c)
    ensures Ready(r)
  {
    hide RetriesTimed, Mindful, Unregisters;
    RestartIsLawful(c);
    var c1 := c.(state := Registered, reconnecting := false, reconnectionTime := c.initial,
                 history := c.history + [Restarted]);
    var c2 := if c.reconnection.Unregistration? then Unregisters(c1) else c1;
    NotedIsLawful(c2, Reconnection.None, RegistrationHandled);
    c2.(reconnection := Reconnection.None, trace := c2.trace + [RegistrationHandled])
  }

  /** `client_registered` and `registration_updated`. */
  lemma RegisteredFlow(c: Client)
    requires Ready(c)
    ensures AfterCall(c, ClientRegistered) == AfterCall(c, RegistrationUpdated) == Told(Settled(c), ReportSuccess)
  {
    hide RetriesTimed, Mindful, AfterForeign, AfterEvent, Settled;
    assert AfterCall(c, ClientRegistered) == AfterClientRegistered(c) == AfterCall(c, RegistrationUpdated);
    RegisteredEnters(c);
    RegisteredIs(c);
  }

  lemma RegisteredIs(c: Client)
    requires Ready(c)
    ensures AfterRegistered(c.(state := Registered)) == Settled(c)
  {
    hide RetriesTimed, Mindful, AfterContinued, Unregisters, Onward;
    RestartIsLawful(c);
    ContinuedIs(Restart(c.(state := Registered)).(reconnecting := false));
  }

  lemma ContinuedIs(c: Client)
    requires Ready(c)
    ensures AfterContinued(c) ==
            if c.reconnection.Unregistration? then Unregisters(c) else c
  {
    hide RetriesTimed, Mindful, Handled, AfterEvent, AfterUnregister, Unregisters, Onward, Resting;
    if c.reconnection.Unregistration? {
      assert AfterContinued(c) == ToRest(c, Unregister, NoData) == AfterEvent(c, Unregister, NoData);
      UnregisterEnters(c);
      UnregisterIs(c.(state := Unregister));
      UnregistersFrom(c, Unregister);
    }
  }

  // ----- a lost connection

  /** The errors that a client reports. */
  predicate Worth(error: SocketError) {
    match error
    case NoError | SslPeerClosed => false
    case _ => true
  }

  /** No retry: the client forgets its security object and what it had to reconnect for. */
  function GivesUp(c: Client): (r: Client)
    requires Ready(c)
    ensures Ready(r)
  {
    hide RetriesTimed, Mindful;
    RestartIsLawful(c);
    var c1 := c.(security := false, reconnecting := false, reconnectionTime := c.initial,
                 history := c.history + [Restarted]);
    NotedIsLawful(c1, Reconnection.None, GivenUp);
    c1.(reconnection := Reconnection.None, trace := c1.trace + [GivenUp])
  }

  /** Without a connection the client is idle, and there is at least an update to reconnect for. */
  function Dropped(c: Client): (r: Client)
    requires Ready(c)
    ensures Ready(r)
  {
    hide RetriesTimed, Mindful;
    c.(state := Idle, reconnection := if c.reconnection.None? then WithUpdate else c.reconnection)
  }

  function AndTold(c: Client, error: SocketError): (r: Client)
    requires Ready(c)
    ensures Ready(r)
  {
    hide RetriesTimed, Mindful, Told;
    if Worth(error) then Told(c, ReportError) else c
  }

  /** The connection is lost: a retry is armed, or the client gives up, and the error is reported. */
  function Lost(c: Client, error: SocketError, retry: bool): (r: Client)
    requires Ready(c)
    ensures Ready(r)
  {
    hide RetriesTimed, Mindful, Arm, GivesUp, Dropped, AndTold;
    var c1 := Dropped(c);
    if retry then
      AndTold(Arm(c1.(reconnecting := true)), error)
    else if Worth(error) then AndTold(GivesUp(c1), error)
    else c1
  }

  lemma SettleIs(c: Client, error: SocketError, retry: bool)
    requires Ready(c)
    ensures Settle(c, error, retry) ==
            if retry then Arm(c.(reconnecting := true)) else if Worth(error) then GivesUp(c) else c
  {
    hide RetriesTimed, Mindful, Arm, Onward;
  }

  lemma LossIs(c: Client, error: SocketError, retry: bool)
    requires Ready(c)
    ensures AfterLoss(Mark(c), error, retry) == Lost(c, error, retry)
  {
    hide RetriesTimed, Mindful, AfterLoss, Lost, Settle, AndTold;
    MarkedIs(c);
    LossSettles(Mark(c), error, retry);
    LostSettles(c, error, retry);
  }

  lemma MarkedIs(c: Client)
    ensures Mark(c) == c.(reconnection := if c.reconnection.None? then WithUpdate else c.reconnection)
  {
  }

  lemma LossSettles(c: Client, error: SocketError, retry: bool)
    requires Ready(c)
    ensures AfterLoss(c, error, retry) == AndTold(Settle(c.(state := Idle), error, retry), error)
  {
    hide RetriesTimed, Mindful, AfterForeign, Through, Settle, Handled, Onward, Told, Resting;
    assert Through(c, Idle) == c.(state := Idle);
    ToldIs(Settle(c.(state := Idle), error, retry), ReportError);
  }

  lemma LostSettles(c: Client, error: SocketError, retry: bool)
    requires Ready(c)
    ensures Lost(c, error, retry) == AndTold(Settle(Dropped(c), error, retry), error)
  {
    hide RetriesTimed, Mindful, Settle, Onward, Arm, GivesUp, Dropped, Told;
    SettleIs(Dropped(c), error, retry);
  }

  /** `socket_error`: a closed peer ends a bootstrap, and a sleeping client does not notice. */
  lemma SocketFlow(c: Client, error: SocketError, retry: bool)
    requires Ready(c)
    ensures AfterCall(c, SocketFails(error, retry)) ==
            if c.state == BootstrapWait && error == SslPeerClosed then Ended(c.(security := false))
            else if c.queueMode && c.sleepHandler && c.queueModeTimerOngoing then c
            else Lost(c, error, retry)
  {
    hide RetriesTimed, Mindful, AfterSocketError, Ended, Lost, Onward, Resting;
    SocketIs(c, error, retry);
  }

  lemma SocketIs(c: Client, error: SocketError, retry: bool)
    requires Ready(c)
    ensures AfterSocketError(c, error, retry) ==
            if c.state == BootstrapWait && error == SslPeerClosed then Ended(c.(security := false))
            else if c.queueMode && c.sleepHandler && c.queueModeTimerOngoing then c
            else Lost(c, error, retry)
  {
    hide RetriesTimed, Mindful, AfterLoss, Mark, AfterBootstrapDone, Ended, Lost, Onward;
    if c.state == BootstrapWait && error == SslPeerClosed {
      DoneIs(c.(security := false));
    } else {
      LossIs(c, error, retry);
    }
  }

  /** The bootstrap is complete. */
  function Ended(c: Client): (r: Client)
    requires Ready(c)
    ensures Ready(r)
  {
    hide RetriesTimed, Mindful, Told;
    RestartIsLawful(c);
    var c1 := c.(state := Bootstrapped, reconnecting := false, bootstrapped := true, reconnectionTime := c.initial,
                 history := c.history + [Restarted]);
    NotedIsLawful(c1, Reconnection.None, BootstrapCompleted);
    Told(c1.(reconnection := Reconnection.None, trace := c1.trace + [BootstrapCompleted]), ReportSuccess)
  }

  lemma DoneIs(c: Client)
    requires Ready(c)
    ensures AfterBootstrapDone(c) == Ended(c)
  {
    hide RetriesTimed, Mindful, AfterForeign, Through, Handled, Onward;
  }

  /** `bootstrap_done`. */
  lemma BootstrapDoneFlow(c: Client)
    requires Ready(c)
    ensures AfterCall(c, BootstrapDone) == Ended(c)
  {
    hide RetriesTimed, Mindful, AfterBootstrapDone, Ended, Onward, Resting;
    DoneIs(c);
  }

  // ----- a failed bootstrap, a failed registration

  /** The client is not bootstrapped and has nothing to reconnect for. */
  function NotBootstrapped(c: Client): (r: Client)
    requires Ready(c)
    ensures Ready(r)
  {
    hide RetriesTimed, Mindful;
    NotedIsLawful(c.(bootstrapped := false), Reconnection.None, BootstrapFailed);
    c.(bootstrapped := false, reconnection := Reconnection.None, trace := c.trace + [BootstrapFailed])
  }

  /** It is reported, and then a retry is armed. */
  function Broken(c: Client): (r: Client)
    requires Ready(c)
    ensures Ready(r)
  {
    hide RetriesTimed, Mindful, Told, Arm, NotBootstrapped;
    Arm(Told(NotBootstrapped(c), ReportError).(state := Idle, reconnecting := true))
  }

  lemma BrokenIs(c: Client)
    requires Ready(c)
    ensures AfterBootstrapError(c) == Broken(c)
  {
    hide RetriesTimed, Mindful, AfterBootstrapReport, Arm, Onward, Told, Resting, NotBootstrapped;
    BrokenReports(c);
  }

  lemma BrokenReports(c: Client)
    requires Ready(c)
    ensures AfterBootstrapReport(c) == Told(NotBootstrapped(c), ReportError).(state := Idle)
  {
    hide RetriesTimed, Mindful, AfterForeign, Through, Handled, Onward, Told;
    ToldIs(NotBootstrapped(c), ReportError);
  }

  /** `bootstrap_error`. */
  lemma BootstrapErrorFlow(c: Client)
    requires Ready(c)
    ensures AfterCall(c, BootstrapError) == Broken(c)
  {
    hide RetriesTimed, Mindful, AfterBootstrapError, Broken, Onward, Resting;
    BrokenIs(c);
  }

  /** A registration that failed for good drops the security object; otherwise the connection counts as lost. */
  function Unregistrable(c: Client, unregistrationFailed: bool, retry: bool): (r: Client)
    requires Ready(c)
    ensures Ready(r)
  {
    hide RetriesTimed, Mindful, Lost, Failed;
    var c0 := c.(queueModeTimerOngoing := false);
    NotedIsLawful(c0, Unregistration, UnregistrationFailed);
    if !retry then Failed(c.(security := false))
    else if unregistrationFailed then
      Lost(c0.(reconnection := Unregistration, trace := c.trace + [UnregistrationFailed]), SocketSendError, true)
    else Lost(c0, SocketSendError, true)
  }

  lemma UnregistrableIs(c: Client, unregistrationFailed: bool, retry: bool)
    requires Ready(c)
    ensures AfterRegistrationError(c, unregistrationFailed, retry) == Unregistrable(c, unregistrationFailed, retry)
  {
    hide RetriesTimed, Mindful, Lost, Failed, AfterFailure, AfterSocketError, Onward, Handled;
    if retry {
      SocketIs(Awake(c, unregistrationFailed), SocketSendError, true);
    } else {
      FailureIs(c.(security := false));
    }
  }

  /** `registration_error`. */
  lemma RegistrationErrorFlow(c: Client, unregistrationFailed: bool, retry: bool)
    requires Ready(c)
    ensures AfterCall(c, RegistrationError(unregistrationFailed, retry)) ==
            Unregistrable(c, unregistrationFailed, retry)
  {
    hide RetriesTimed, Mindful, AfterRegistrationError, Unregistrable, Onward, Resting;
    UnregistrableIs(c, unregistrationFailed, retry);
  }

  // ----- data

  /** The calls that only mark a state. */
  lemma MarksFlow(c: Client)
    requires Ready(c)
    ensures AfterCall(c, BootstrapWaits) == c.(state := BootstrapWait)
    ensures AfterCall(c, BootstrapErrorWaits) == c.(state := BootstrapErrorWait)
    ensures AfterCall(c, CoapDataIsProcessed) == c.(state := Waiting)
  {
    hide RetriesTimed, Mindful, AfterEvent, AfterCall;
    WaitIsCalled(c);
    ErrorWaitIsCalled(c);
    ProcessedIsCalled(c);
    EventMarks(c, BootstrapWait);
    EventMarks(c, BootstrapErrorWait);
    EventMarks(c, CoapDataProcessed);
  }

  lemma WaitIsCalled(c: Client)
    requires Ready(c)
    ensures AfterCall(c, BootstrapWaits) == AfterEvent(c, BootstrapWait, NoData)
  {
    hide RetriesTimed, Mindful, AfterEvent, Handled, Onward, Resting;
  }

  lemma ErrorWaitIsCalled(c: Client)
    requires Ready(c)
    ensures AfterCall(c, BootstrapErrorWaits) == AfterEvent(c, BootstrapErrorWait, NoData)
  {
    hide RetriesTimed, Mindful, AfterEvent, Handled, Onward, Resting;
  }

  lemma ProcessedIsCalled(c: Client)
    requires Ready(c)
    ensures AfterCall(c, CoapDataIsProcessed) == AfterEvent(c, CoapDataProcessed, NoData)
  {
    hide RetriesTimed, Mindful, AfterEvent, Handled, Onward, Resting;
  }

  lemma EventMarks(c: Client, s: State)
    requires Ready(c) && (s.BootstrapWait? || s.BootstrapErrorWait? || s.CoapDataProcessed?)
    ensures AfterEvent(c, s, NoData) == c.(state := if s.CoapDataProcessed? then Waiting else s)
  {
    hide RetriesTimed, Mindful, AfterEvent, Onward, Restart;
  }

  /** `data_available`: received data is processed, and an error reported. */
  lemma DataFlow(c: Client)
    requires Ready(c)
    ensures AfterCall(c, DataAvailable) ==
            var a := AfterForeign(c.(state := Waiting), ProcessData);
            if a.ok then a.client else Told(a.client, ReportError)
  {
    hide RetriesTimed, Mindful, AfterEvent, AfterForeign, AfterCall, AfterState, Handled, Onward, Told;
    DataIsCalled(c);
    EventEnters(c, CoapDataReceived, Data);
    ReceivedIs(c.(state := CoapDataReceived));
  }

  lemma DataIsCalled(c: Client)
    requires Ready(c)
    ensures AfterCall(c, DataAvailable) == AfterEvent(c, CoapDataReceived, Data)
  {
    hide RetriesTimed, Mindful, AfterEvent, Handled, Onward, Resting;
  }

  lemma ReceivedIs(c: Client)
    requires Lawful(c) && c.state == CoapDataReceived
    ensures AfterState(c, Data) ==
            var a := AfterForeign(c.(state := Waiting), ProcessData);
            if a.ok then a.client else Told(a.client, ReportError)
  {
    hide RetriesTimed, Mindful, AfterForeign, Handled, Onward, Through;
    assert AfterState(c, Data) == AfterMarked(c, Data) == AfterReceived(c, Data);
    assert Through(c, ProcessingCoapData) == c.(state := Waiting);
  }

  /** `data_sent`: an error that waited for it is handled now. */
  lemma DataSentFlow(c: Client)
    requires Ready(c)
    ensures AfterCall(c, DataSent) ==
            if c.state == BootstrapErrorWait then Broken(c)
            else if c.state == BootstrapWait then c
            else c.(state := Waiting)
  {
    hide RetriesTimed, Mindful, AfterBootstrapError, AfterCall, Broken, Onward, Through, Handled;
    SentIsCalled(c);
    BrokenIs(c);
  }

  lemma SentIsCalled(c: Client)
    requires Ready(c)
    ensures AfterCall(c, DataSent) == AfterDataSent(c)
  {
    hide RetriesTimed, Mindful, AfterDataSent, Onward, Resting;
  }

  /** `coap_message_ready`: an idle client sends nothing, and a message that cannot be sent loses the connection. */
  lemma MessageFlow(c: Client)
    requires Ready(c)
    ensures AfterCall(c, CoapMessageReady) ==
            if c.state == Idle then c
            else
              var a := AfterForeign(c.(state := Waiting), SendData);
              if a.ok then a.client
              else if !a.client.reconnecting
              then Lost(a.client.(queueModeTimerOngoing := false), SocketSendError, true)
              else if a.client.queueMode && a.client.sleepHandler && a.client.queueModeTimerOngoing
              then a.client.(state := Idle)
              else Lost(a.client, SocketAbort, true)
  {
    hide RetriesTimed, Mindful, AfterForeign, AfterSocketError, AfterCall, Lost, Onward, Through, Handled;
    MessageIsCalled(c);
    if c.state != Idle {
      assert Through(c, SendingCoapData) == c.(state := Waiting);
      var a := AfterForeign(c.(state := Waiting), SendData);
      assert Through(a.client, Idle) == a.client.(state := Idle);
      SendFails(a.client);
    }
  }

  lemma MessageIsCalled(c: Client)
    requires Ready(c)
    ensures AfterCall(c, CoapMessageReady) == AfterMessageReady(c)
  {
    hide RetriesTimed, Mindful, AfterMessageReady, Onward, Resting;
  }

  lemma SendFails(c: Client)
    requires Ready(c)
    ensures var idle := c.(state := Idle);
            && AfterSocketError(idle.(queueModeTimerOngoing := false), SocketSendError, true) ==
               Lost(c.(queueModeTimerOngoing := false), SocketSendError, true)
            && AfterSocketError(idle, SocketAbort, true) ==
               if c.queueMode && c.sleepHandler && c.queueModeTimerOngoing then idle else Lost(c, SocketAbort, true)
  {
    hide RetriesTimed, Mindful, AfterSocketError, Lost, Onward;
    var idle := c.(state := Idle);
    SocketIs(idle.(queueModeTimerOngoing := false), SocketSendError, true);
    SocketIs(idle, SocketAbort, true);
    LostIsIdle(c.(queueModeTimerOngoing := false), SocketSendError, true);
    LostIsIdle(c, SocketAbort, true);
  }

  lemma LostIsIdle(c: Client, error: SocketError, retry: bool)
    requires Ready(c)
    ensures Lost(c.(state := Idle), error, retry) == Lost(c, error, retry)
  {
    hide RetriesTimed, Mindful, Arm, GivesUp, AndTold, Dropped, Worth;
    DroppedAnyway(c);
  }

  lemma DroppedAnyway(c: Client)
    requires Ready(c)
    ensures Dropped(c.(state := Idle)) == Dropped(c)
  {
    hide RetriesTimed, Mindful;
  }

  // ----- timers

  /** A retry of the registration or of the bootstrap, which fails without a security object. */
  function Retried(c: Client): (r: Client)
    requires Ready(c)
    ensures Ready(r)
  {
    hide RetriesTimed, Mindful, Resolved, Failed, Told;
    var c0 := c.(retryTimerExpired := true);
    if c.bootstrapped then
      if c.security then Resolved(c0.(state := Register)) else Failed(c0)
    else if c.security then Told(c0.(state := Bootstrap), ResolveBootstrapServer)
    else Failed(c0)
  }

  lemma RetriedIs(c: Client)
    requires Ready(c)
    ensures AfterCall(c, TimerExpired(RetryTimer)) == Retried(c)
  {
    hide RetriesTimed, Mindful, AfterEvent, AfterCall, AfterRegister, AfterBootstrap, Handled, Resolved, Failed, Told;
    var c0 := c.(retryTimerExpired := true);
    RetryEnters(c);
    if c.bootstrapped {
      RegisterEnters(c0);
      RegisterAgain(c0.(state := Register));
    } else {
      BootstrapEnters(c0);
      BootstrapAgain(c0.(state := Bootstrap));
    }
    FailedAnyway(c0, Register);
    FailedAnyway(c0, Bootstrap);
  }

  lemma FailedAnyway(c: Client, s: State)
    requires Ready(c)
    ensures Failed(c.(state := s)) == Failed(c)
  {
    hide RetriesTimed, Mindful, Told;
  }

  lemma RegisterAgain(c: Client)
    requires Lawful(c) && c.state == Register
    ensures AfterRegister(c, NoData) == if c.security then Resolved(c) else Failed(c)
  {
    hide RetriesTimed, Mindful, AfterFullResolve, AfterFailure, Handled, Resolved, Failed, Onward;
    if c.security {
      ResolvedIs(c);
    } else {
      FailureIs(c);
    }
  }

  lemma BootstrapAgain(c: Client)
    requires Lawful(c) && c.state == Bootstrap && !c.bootstrapped
    ensures AfterBootstrap(c, NoData) == if c.security then Told(c, ResolveBootstrapServer) else Failed(c)
  {
    hide RetriesTimed, Mindful, AfterForeign, AfterFailure, Handled, Failed, Onward;
    assert c.(bootstrapped := false) == c;
    FailureIs(c);
  }

  /** `timer_expired`. */
  lemma TimerFlow(c: Client, kind: TimerKind)
    requires Ready(c)
    ensures AfterCall(c, TimerExpired(kind)) ==
            match kind
            case QueueSleep =>
              var c0 := c.(queueModeTimerOngoing := true);
              if c.sleepHandler then Told(c0, CallSleepHandler) else c0
            case RetryTimer => Retried(c)
            case BootstrapFlowTimer => Broken(c.(bootstrapped := false))
            case RegistrationFlowTimer => Unregistrable(c, false, true)
  {
    hide RetriesTimed, Mindful, AfterCall, AfterForeign, AfterBootstrapError, AfterRegistrationError, ToRest,
         Handled, Onward, Told, Retried, Broken, Unregistrable, Resting;
    RetriedIs(c);
    AnyTimerIsCalled(c, kind);
    match kind
    case QueueSleep => ToldIs(c.(queueModeTimerOngoing := true), CallSleepHandler);
    case RetryTimer =>
    case BootstrapFlowTimer => BrokenIs(c.(bootstrapped := false));
    case RegistrationFlowTimer => UnregistrableIs(c, false, true);
  }

  lemma AnyTimerIsCalled(c: Client, kind: TimerKind)
    requires Ready(c)
    ensures AfterCall(c, TimerExpired(kind)) == AfterTimer(c, kind)
  {
    hide RetriesTimed, Mindful, AfterTimer, Onward, Resting;
  }

  // ----- updates

  /** An update of an idle client registers it, unless the lifetime hides its objects. */
  function FromIdle(c: Client, given: Given, lifetime: nat): (r: Client)
    requires Ready(c) && c.trace != [] && (lifetime != 0 && (c.security || given.WithServer?) ==> Misleads(c.trace[|c.trace| - 1]))
    ensures Ready(r)
  {
    hide RetriesTimed, Mindful, Resolved, Failed, AfterMisread, Misleads;
    var c1 := c.(state := Register);
    if lifetime != 0 && (c.security || given.WithServer?) then AfterMisread(c1.(security := true))
    else if c.security then Resolved(c1)
    else Failed(c1.(security := !given.NoSecurity?))
  }

  lemma IdleUpdateIs(c: Client, data: EventData)
    requires Ready(c) && c.state == Idle && data.UpdateData? && Asked(c, Register, data)
    ensures AfterMapped(c, UpdateMap(Idle), data) == FromIdle(c, data.given, data.lifetime)
  {
    hide RetriesTimed, Mindful, AfterEvent, AfterMapped, AfterState, AfterRegister, Handled, Onward, FromIdle;
    Taken(c, Register, data);
    EventEnters(c, Register, data);
    StateIsRegister(c.(state := Register), data);
    RegisterUpdateIs(c, data);
  }

  lemma RegisterUpdateIs(c: Client, data: EventData)
    requires Ready(c) && data.UpdateData? && Asked(c, Register, data)
    ensures AfterRegister(c.(state := Register), data) == FromIdle(c, data.given, data.lifetime)
  {
    hide RetriesTimed, Mindful, AfterMisread, AfterFullResolve, AfterFirst, Handled, Onward, Resolved, Failed;
    var c1 := c.(state := Register);
    if c.security {
      assert c1.(security := true) == c1;
      ResolvedIs(c1);
    } else {
      FirstUpdateIs(c, data);
    }
  }

  lemma FirstUpdateIs(c: Client, data: EventData)
    requires Ready(c) && !c.security && data.UpdateData? && Asked(c, Register, data)
    ensures AfterFirst(c.(state := Register), data) == FromIdle(c, data.given, data.lifetime)
  {
    hide RetriesTimed, Mindful, AfterMisread, AfterFailure, Handled, Onward, Resolved, Failed;
    var c1 := c.(state := Register);
    FailureIs(c1);
    FailureIs(c1.(security := true));
    assert c1.(security := false) == c1;
  }

  /** The update call is recorded, and a reconnection would from now on be an update. */
  function UpdateRequested(c: Client, given: Given, lifetime: nat): (r: Client)
    requires Ready(c)
    ensures Ready(r) && r.trace != [] && (c.state == Idle ==> Asked(r, Register, UpdateData(given, lifetime, false)))
    ensures c.state == Idle && lifetime != 0 && (c.security || given.WithServer?) ==> Misleads(r.trace[|r.trace| - 1])
    ensures r.state == c.state && r.security == c.security
  {
    hide RetriesTimed, Mindful;
    var asked := UpdateAsked(c.state, c.security || given.WithServer?, lifetime);
    NotedIsLawful(c, WithUpdate, asked);
    c.(reconnection := WithUpdate, trace := c.trace + [asked])
  }

  /** A registered client sends its new objects and the update; an idle one registers; any other reports an error. */
  function UpdateStarted(c: Client, given: Given, lifetime: nat, newObjects: bool): (r: Client)
    requires Ready(c)
    ensures Ready(r)
  {
    hide RetriesTimed, Mindful, Told, Updated, FromIdle, Misleads;
    var c1 := UpdateRequested(c, given, lifetime);
    if c.state == Idle then FromIdle(c1, given, lifetime)
    else if c.state == Registered || c.state == Waiting then
      var c2 := c1.(state := UpdateRegistration, queueModeTimerOngoing := false);
      Updated(if newObjects then Told(c2, CreateList) else c2)
    else Told(c1, ReportError)
  }

  /** `start_register_update`: a short lifetime is reported and the update goes on, unless the client reconnects. */
  lemma UpdateFlow(c: Client, given: Given, lifetime: nat, newObjects: bool)
    requires Ready(c)
    ensures AfterCall(c, UpdateCall(given, lifetime, newObjects)) ==
            var c0 := if 0 < lifetime < 60 then Told(c, ReportError) else c;
            if c0.reconnecting then c0 else UpdateStarted(c0, given, lifetime, newObjects)
  {
    hide RetriesTimed, Mindful, AfterCheck, AfterMapped, AfterCall, Told, UpdateStarted, Misleads, Asked, Resting;
    UpdateIsCalled(c, given, lifetime, newObjects);
    CheckIs(c, lifetime);
    var c0 := AfterCheck(c, lifetime);
    if !c0.reconnecting {
      UpdateGoesOn(c0, given, lifetime, newObjects);
    }
  }

  lemma CheckIs(c: Client, lifetime: nat)
    requires Ready(c)
    ensures AfterCheck(c, lifetime) == if 0 < lifetime < 60 then Told(c, ReportError) else c
  {
    hide RetriesTimed, Mindful, AfterForeign;
  }

  lemma UpdateGoesOn(c: Client, given: Given, lifetime: nat, newObjects: bool)
    requires Ready(c)
    ensures AfterMapped(Asking(c, given, lifetime), UpdateMap(c.state), UpdateData(given, lifetime, newObjects)) ==
            UpdateStarted(c, given, lifetime, newObjects)
  {
    hide RetriesTimed, Mindful, AfterMapped, Told, Updated, FromIdle, Misleads, Onward, Resting;
    var c1 := UpdateRequested(c, given, lifetime);
    var data := UpdateData(given, lifetime, newObjects);
    assert c1 == Asking(c, given, lifetime);
    if c.state == Idle {
      IdleUpdateIs(c1, data);
    } else if c.state == Registered || c.state == Waiting {
      UpdateMessageIs(c1, data);
    } else {
      Ignored(c1, data);
    }
  }

  lemma UpdateMessageIs(c: Client, data: EventData)
    requires Ready(c)
    ensures AfterMapped(c, Some(UpdateRegistration), data) ==
            var c2 := c.(state := UpdateRegistration, queueModeTimerOngoing := false);
            Updated(if data.UpdateData? && data.newObjects then Told(c2, CreateList) else c2)
  {
    hide RetriesTimed, Mindful, AfterMapped, AfterUpdate, AfterEvent, Told, Updated, Onward;
    Taken(c, UpdateRegistration, data);
    UpdateEnters(c, data);
    UpdatedIs(c.(state := UpdateRegistration), data);
  }
}
