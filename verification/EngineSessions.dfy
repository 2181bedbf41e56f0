/**
 * How each call begins, against every script, and the whole sessions of a client whose environment grants
 * what it asks for.
 */
module EngineSessions {
  import opened Bytes
  import opened EngineModel
  import opened EngineSteps
  import opened EngineRuns
  import opened EngineFlow

  // ----- how a call begins

  /** Exactly when a registration begins, against every script, and that an error is reported otherwise. */
  lemma RegisterBegins(c: Client, secured: bool)
    requires Ready(c)
    ensures var all := AfterCall(c, RegisterCall(secured)).trace;
            var may := secured && (c.state == Idle || c.state == Bootstrapped || c.state == Registered || c.state == Waiting);
            && (c.trace + [CheckAddress] <= all <==> may && !c.security)
            && (c.trace + [CreateList] <= all <==> may && c.security)
            && (c.trace + [ReportError] <= all <==> !may)
  {
    hide RetriesTimed, Mindful, AfterCall, AfterForeign, Told, Registers;
    RegisterFlow(c, secured);
    var all := AfterCall(c, RegisterCall(secured)).trace;
    var may := secured && (c.state == Idle || c.state == Bootstrapped || c.state == Registered || c.state == Waiting);
    var first := if !may then ReportError else if c.security then CreateList else CheckAddress;
    FirstIs(c.trace, all, first);
  }

  lemma FirstIs(t: seq<Happening>, all: seq<Happening>, x: Happening)
    requires t + [x] <= all
    ensures forall y :: t + [y] <= all <==> y == x
  {
    forall y ensures t + [y] <= all <==> y == x {
      NextIs(t, all, x, y);
    }
  }

  /** The same for a bootstrap. */
  lemma BootstrapBegins(c: Client, secured: bool)
    requires Ready(c)
    ensures var all := AfterCall(c, BootstrapCall(secured)).trace;
            var may := secured && (c.state == Idle || c.state == Bootstrapped);
            && (c.trace + [CheckAddress] <= all <==> may)
            && (c.trace + [ReportError] <= all <==> !may)
  {
    hide RetriesTimed, Mindful, AfterCall, AfterForeign, Told, Bootstraps;
    BootstrapFlow(c, secured);
    var all := AfterCall(c, BootstrapCall(secured)).trace;
    var may := secured && (c.state == Idle || c.state == Bootstrapped);
    FirstIs(c.trace, all, if may then CheckAddress else ReportError);
  }

  /** The same for an unregistration. */
  lemma UnregisterBegins(c: Client)
    requires Ready(c)
    ensures var all := AfterCall(c, UnregisterCall).trace;
            var may := c.state == Registered || c.state == UpdateRegistration || c.state == Waiting;
            && (c.trace + [SendUnregister] <= all <==> may)
            && (c.trace + [ReportError] <= all <==> !may)
  {
    hide RetriesTimed, Mindful, AfterCall, Told, Unregisters, Resting;
    UnregisterFlow(c);
    var may := c.state == Registered || c.state == UpdateRegistration || c.state == Waiting;
    FirstIs(c.trace, AfterCall(c, UnregisterCall).trace, if may then SendUnregister else ReportError);
  }

  /** A resolved address leads to a registration exactly if no other reconnection is due, and to an update otherwise. */
  lemma AddressBegins(c: Client)
    requires Ready(c)
    ensures var all := AfterCall(c, AddressReady(false)).trace;
            var full := c.reconnection.None? || c.reconnection.FullRegistration?;
            && (c.trace + [SendRegister] <= all <==> full)
            && (c.trace + [SendUpdate] <= all <==> !full)
    ensures c.trace + [CreateBootstrapResource] <= AfterCall(c, AddressReady(true)).trace
  {
    hide RetriesTimed, Mindful, AfterCall, AfterForeign, Tried, Updated, BootstrapGoesOn;
    AddressFlow(c, false);
    AddressFlow(c, true);
    var full := c.reconnection.None? || c.reconnection.FullRegistration?;
    FirstIs(c.trace, AfterCall(c, AddressReady(false)).trace, if full then SendRegister else SendUpdate);
  }

  /** The beginning of what a public call, or a resolved address, makes happen. */
  predicate BeginsRightly(c: Client, call: Call, all: seq<Happening>) {
    match call
    case BootstrapCall(secured) =>
      var may := secured && (c.state == Idle || c.state == Bootstrapped);
      c.trace + [if may then CheckAddress else ReportError] <= all
    case RegisterCall(secured) =>
      var may := secured && (c.state == Idle || c.state == Bootstrapped || c.state == Registered || c.state == Waiting);
      c.trace + [if !may then ReportError else if c.security then CreateList else CheckAddress] <= all
    case UnregisterCall =>
      var may := c.state == Registered || c.state == UpdateRegistration || c.state == Waiting;
      c.trace + [if may then SendUnregister else ReportError] <= all
    case AddressReady(bootstrapServer) =>
      var full := c.reconnection.None? || c.reconnection.FullRegistration?;
      c.trace + [if bootstrapServer then CreateBootstrapResource else if full then SendRegister else SendUpdate] <= all
    case _ => true
  }

  lemma EveryCallBeginsRightly(c: Client, call: Call)
    requires Ready(c)
    ensures BeginsRightly(c, call, AfterCall(c, call).trace)
  {
    hide RetriesTimed, Mindful, AfterCall, Resting;
    match call
    case BootstrapCall(secured) => BootstrapBegins(c, secured);
    case RegisterCall(secured) => RegisterBegins(c, secured);
    case UnregisterCall => UnregisterBegins(c);
    case AddressReady(bootstrapServer) => AddressBegins(c);
    case _ =>
  }

  // ----- an environment that only answers

  /** A foreign call that is answered at once changes nothing but the trace. */
  lemma AnsweredAtOnce(c: Client, service: Happening)
    requires Ready(c) && Neutral(service) && (c.script == [] || c.script[0].Return?)
    ensures AfterForeign(c, service) ==
            if c.script == [] then Answer(c.(trace := c.trace + [service]), c.fallback)
            else Answer(c.(trace := c.trace + [service], script := c.script[1..]), c.script[0].ok)
  {
    hide RetriesTimed, Mindful;
  }

  /** What is called back happens before the answer. */
  lemma CalledBackFirst(c: Client, service: Happening)
    requires Ready(c) && Neutral(service) && c.script != [] && c.script[0].CallBack?
    ensures var d := c.(trace := c.trace + [service], script := c.script[1..]);
            Ready(d) && AfterForeign(c, service) == AfterScript(AfterCall(d, c.script[0].call))
  {
    hide RetriesTimed, Mindful, AfterCall;
    CalledIsLawful(c, service);
  }

  /** Everything that the client asks for succeeds at once. */
  predicate Obliging(c: Client) {
    Ready(c) && c.script == [] && c.fallback
  }

  /** More was done, and this happened. */
  function Then(c: Client, happened: seq<Happening>): (r: Client) {
    c.(trace := c.trace + happened)
  }

  lemma Obliged(c: Client, service: Happening)
    requires Obliging(c) && Neutral(service)
    ensures AfterForeign(c, service) == Answer(Then(c, [service]), true)
    ensures Told(c, service) == Tried(c, service) == Then(c, [service])
  {
    hide RetriesTimed, Mindful, AfterForeign, Failed;
    AnsweredAtOnce(c, service);
  }

  lemma ObligedResolve(c: Client)
    requires Obliging(c)
    ensures Resolved(c) == Then(c, [ResolveServer]).(reconnection := FullRegistration)
  {
    hide RetriesTimed, Mindful;
    NotedIsLawful(c, FullRegistration, ResolveServer);
  }

  lemma ObligedRegister(c: Client)
    requires Obliging(c) && (c.state == Idle || c.state == Bootstrapped || c.state == Registered || c.state == Waiting)
    ensures AfterCall(c, RegisterCall(true)) ==
            Then(c, [if c.security then CreateList else CheckAddress, ResolveServer]).(
              state := Register, security := true, reconnection := FullRegistration)
  {
    hide RetriesTimed, Mindful, AfterCall, Told, Registers;
    RegisterFlow(c, true);
    ObligedRegisters(c);
  }

  lemma ObligedRegisters(c: Client)
    requires Obliging(c)
    ensures Registers(c) ==
            Then(c, [if c.security then CreateList else CheckAddress, ResolveServer]).(
              state := Register, security := true, reconnection := FullRegistration)
  {
    hide RetriesTimed, Mindful, AfterForeign, Told, Failed, Resolved, Tried;
    var first := if c.security then CreateList else CheckAddress;
    var c1 := c.(state := Register, security := true);
    Obliged(c1, first);
    ObligedResolve(Then(c1, [first]));
    assert c.trace + [first] + [ResolveServer] == c.trace + [first, ResolveServer];
  }

  lemma ObligedAddress(c: Client)
    requires Obliging(c) && c.reconnection.FullRegistration?
    ensures AfterCall(c, AddressReady(false)) == Then(c, [SendRegister]).(state := RegisterAddressResolved)
  {
    hide RetriesTimed, Mindful, AfterCall, AfterForeign, Tried, Updated;
    AddressFlow(c, false);
    Obliged(c.(state := RegisterAddressResolved), SendRegister);
  }

  lemma SettledIs(c: Client)
    requires Ready(c) && !c.reconnection.Unregistration?
    ensures Settled(c) ==
            Then(Restart(c), [RegistrationHandled]).(
              state := Registered, reconnecting := false, reconnection := Reconnection.None)
    ensures Obliging(c) ==> Obliging(Settled(c))
  {
    hide RetriesTimed, Mindful, Unregisters;
  }

  lemma ObligedRegistered(c: Client)
    requires Ready(c) && Obliging(c) && !c.reconnection.Unregistration?
    ensures AfterCall(c, ClientRegistered) ==
            Then(Restart(c), [RegistrationHandled, ReportSuccess]).(
              state := Registered, reconnecting := false, reconnection := Reconnection.None)
  {
    hide *;
    RegisteredFlow(c);
    SettledIs(c);
    SettledThen(c, Settled(c));
    ObligedSuccess(Settled(c));
  }

  lemma ObligedSuccess(c: Client)
    requires Obliging(c)
    ensures Told(c, ReportSuccess) == Then(c, [ReportSuccess])
  {
    hide RetriesTimed, Mindful, AfterForeign, Tried, Told;
    Obliged(c, ReportSuccess);
  }

  lemma SettledThen(c: Client, settled: Client)
    requires settled == Then(Restart(c), [RegistrationHandled]).(
                          state := Registered, reconnecting := false, reconnection := Reconnection.None)
    ensures Then(settled, [ReportSuccess]) ==
            Then(Restart(c), [RegistrationHandled, ReportSuccess]).(
              state := Registered, reconnecting := false, reconnection := Reconnection.None)
  {
    ThenBoth(c.trace, RegistrationHandled, ReportSuccess);
  }

  lemma ThenBoth(t: seq<Happening>, x: Happening, y: Happening)
    ensures t + [x] + [y] == t + [x, y]
  {
  }

  lemma ObligedUnregister(c: Client)
    requires Obliging(c) && c.state == Registered
    ensures AfterCall(c, UnregisterCall) == Then(c, [SendUnregister]).(state := Waiting)
  {
    hide RetriesTimed, Mindful, AfterCall, AfterForeign, Tried;
    UnregisterFlow(c);
    Obliged(c.(state := Waiting), SendUnregister);
  }

  lemma ObligedUnregistered(c: Client)
    requires Obliging(c)
    ensures AfterCall(c, ClientUnregistered) == Then(Restart(c), [ReportSuccess]).(state := Idle)
  {
    hide RetriesTimed, Mindful, AfterCall, AfterForeign, Told;
    UnregisteredFlow(c);
    Obliged(Restart(c).(state := Idle), ReportSuccess);
  }

  // ----- whole sessions

  lemma AfterOneMore(c: Client, calls: seq<Call>, call: Call)
    requires Ready(c)
    ensures AfterCalls(c, calls + [call]) == AfterCall(AfterCalls(c, calls), call)
  {
    hide RetriesTimed, Mindful, AfterCall;
    assert (calls + [call])[..|calls|] == calls;
  }

  /** The calls of a session, one after the other. */
  lemma CallByCall(c: Client, first: Call, second: Call, third: Call, fourth: Call)
    requires Ready(c)
    ensures AfterCalls(c, [first]) == AfterCall(c, first)
    ensures AfterCalls(c, [first, second]) == AfterCall(AfterCalls(c, [first]), second)
    ensures AfterCalls(c, [first, second, third]) == AfterCall(AfterCalls(c, [first, second]), third)
    ensures AfterCalls(c, [first, second, third, fourth]) == AfterCall(AfterCalls(c, [first, second, third]), fourth)
  {
    hide RetriesTimed, Mindful, AfterCall, AfterCalls;
    AfterNone(c);
    AfterOneMore(c, [], first);
    assert [] + [first] == [first];
    AfterOneMore(c, [first], second);
    assert [first] + [second] == [first, second];
    AfterOneMore(c, [first, second], third);
    assert [first, second] + [third] == [first, second, third];
    AfterOneMore(c, [first, second, third], fourth);
    assert [first, second, third] + [fourth] == [first, second, third, fourth];
  }

  lemma AfterNone(c: Client)
    requires Ready(c)
    ensures AfterCalls(c, []) == c
  {
    hide RetriesTimed, Mindful, AfterCall;
  }

  /** The end of every registration from scratch. */
  lemma ObligedReconnection(c: Client)
    requires Obliging(c) && c.reconnection.FullRegistration?
    ensures AfterCall(AfterCall(c, AddressReady(false)), ClientRegistered) ==
            Then(Restart(c), [SendRegister, RegistrationHandled, ReportSuccess]).(
              state := Registered, reconnecting := false, reconnection := Reconnection.None)
  {
    hide RetriesTimed, Mindful, AfterCall;
    ObligedAddress(c);
    ObligedRegistered(AfterCall(c, AddressReady(false)));
    assert c.trace + [SendRegister] + [RegistrationHandled, ReportSuccess] ==
           c.trace + [SendRegister, RegistrationHandled, ReportSuccess];
  }

  /** A client registers with exactly these messages. */
  lemma RegistrationSession(c: Client)
    requires Obliging(c) && (c.state == Idle || c.state == Bootstrapped)
    ensures AfterCalls(c, [RegisterCall(true), AddressReady(false), ClientRegistered]) ==
            Then(Restart(c), [if c.security then CreateList else CheckAddress, ResolveServer, SendRegister,
                              RegistrationHandled, ReportSuccess]).(
              state := Registered, security := true, reconnecting := false, reconnection := Reconnection.None)
  {
    hide RetriesTimed, Mindful, AfterCalls, AfterCall;
    CallByCall(c, RegisterCall(true), AddressReady(false), ClientRegistered, UnregisterCall);
    ObligedRegister(c);
    ObligedReconnection(AfterCalls(c, [RegisterCall(true)]));
    var first := if c.security then CreateList else CheckAddress;
    assert c.trace + [first, ResolveServer] + [SendRegister, RegistrationHandled, ReportSuccess] ==
           c.trace + [first, ResolveServer, SendRegister, RegistrationHandled, ReportSuccess];
  }

  /** And the registered client unregisters with one message, idle and with fresh retry times in the end. */
  lemma UnregistrationSession(c: Client)
    requires Obliging(c) && c.state == Registered
    ensures AfterCalls(c, [UnregisterCall, ClientUnregistered]) ==
            Then(Restart(c), [SendUnregister, ReportSuccess]).(state := Idle)
  {
    hide RetriesTimed, Mindful, AfterCalls, AfterCall;
    CallByCall(c, UnregisterCall, ClientUnregistered, UnregisterCall, UnregisterCall);
    ObligedUnregister(c);
    ObligedUnregistered(AfterCalls(c, [UnregisterCall]));
    assert c.trace + [SendUnregister] + [ReportSuccess] == c.trace + [SendUnregister, ReportSuccess];
  }

  /** A bootstrap. */
  lemma BootstrapSession(c: Client)
    requires Obliging(c) && (c.state == Idle || c.state == Bootstrapped)
    ensures AfterCalls(c, [BootstrapCall(true), AddressReady(true), BootstrapDone]) ==
            Then(Restart(c), [CheckAddress, ResolveBootstrapServer, CreateBootstrapResource,
                              BootstrapCompleted, ReportSuccess]).(
              state := Bootstrapped, security := true, bootstrapped := true, reconnecting := false,
              reconnection := Reconnection.None)
  {
    hide RetriesTimed, Mindful, AfterCalls, AfterCall;
    CallByCall(c, BootstrapCall(true), AddressReady(true), BootstrapDone, UnregisterCall);
    ObligedBootstrap(c);
    ObligedBootstrapAddress(AfterCalls(c, [BootstrapCall(true)]));
    ObligedDone(AfterCalls(c, [BootstrapCall(true), AddressReady(true)]));
    assert c.trace + [CheckAddress, ResolveBootstrapServer] + [CreateBootstrapResource] + [BootstrapCompleted, ReportSuccess] ==
           c.trace + [CheckAddress, ResolveBootstrapServer, CreateBootstrapResource, BootstrapCompleted, ReportSuccess];
  }

  lemma ObligedBootstrap(c: Client)
    requires Obliging(c) && (c.state == Idle || c.state == Bootstrapped)
    ensures AfterCall(c, BootstrapCall(true)) ==
            Then(c, [CheckAddress, ResolveBootstrapServer]).(state := Bootstrap, security := true, bootstrapped := false)
  {
    hide RetriesTimed, Mindful, AfterCall, AfterForeign, Told, Failed, Tried;
    BootstrapFlow(c, true);
    var c1 := c.(state := Bootstrap, security := true, bootstrapped := false);
    Obliged(c1, CheckAddress);
    Obliged(Then(c1, [CheckAddress]), ResolveBootstrapServer);
    assert c.trace + [CheckAddress] + [ResolveBootstrapServer] == c.trace + [CheckAddress, ResolveBootstrapServer];
  }

  lemma ObligedBootstrapAddress(c: Client)
    requires Obliging(c)
    ensures AfterCall(c, AddressReady(true)) ==
            Then(c, [CreateBootstrapResource]).(state := BootstrapResourceCreated)
  {
    hide RetriesTimed, Mindful, AfterCall, AfterForeign, Failed;
    AddressFlow(c, true);
    Obliged(c.(state := BootstrapAddressResolved), CreateBootstrapResource);
  }

  lemma ObligedDone(c: Client)
    requires Obliging(c)
    ensures AfterCall(c, BootstrapDone) ==
            Then(Restart(c), [BootstrapCompleted, ReportSuccess]).(
              state := Bootstrapped, bootstrapped := true, reconnecting := false, reconnection := Reconnection.None)
  {
    hide RetriesTimed, Mindful, AfterCall, AfterForeign, Told;
    BootstrapDoneFlow(c);
    RestartIsLawful(c);
    var c1 := Restart(c).(state := Bootstrapped, reconnecting := false, bootstrapped := true);
    NotedIsLawful(c1, Reconnection.None, BootstrapCompleted);
    Obliged(Noted(c1, Reconnection.None, BootstrapCompleted), ReportSuccess);
    assert c.trace + [BootstrapCompleted] + [ReportSuccess] == c.trace + [BootstrapCompleted, ReportSuccess];
  }

  /** A lost connection is reported, and the retry registers the client again with the time that was due. */
  lemma RecoverySession(c: Client)
    requires Obliging(c) && c.security && c.bootstrapped && !c.reconnection.Unregistration? && !c.queueModeTimerOngoing
    ensures AfterCalls(c, [SocketFails(SocketAbort, true), TimerExpired(RetryTimer), AddressReady(false), ClientRegistered]) ==
            Then(c, [ReportError, ResolveServer, SendRegister, RegistrationHandled, ReportSuccess]).(
              state := Registered, retryTimerExpired := true, reconnecting := false, reconnection := Reconnection.None,
              reconnectionTime := c.initial, history := c.history + [Armed(c.reconnectionTime), Restarted])
  {
    hide RetriesTimed, Mindful, AfterCalls, AfterCall;
    var fails, expires := SocketFails(SocketAbort, true), TimerExpired(RetryTimer);
    CallByCall(c, fails, expires, AddressReady(false), ClientRegistered);
    ObligedLoss(c);
    ObligedRetry(AfterCall(c, fails));
    RecoveryEnds(c, AfterCall(AfterCall(c, fails), expires));
  }

  lemma RecoveryEnds(c: Client, c2: Client)
    requires Obliging(c2) && c2.reconnection.FullRegistration?
    requires c2 == Then(Then(c, [ReportError]), [ResolveServer]).(
                     state := Register, retryTimerExpired := true, reconnecting := true,
                     reconnection := FullRegistration, reconnectionTime := c2.reconnectionTime,
                     history := c.history + [Armed(c.reconnectionTime)])
    ensures AfterCall(AfterCall(c2, AddressReady(false)), ClientRegistered) ==
            Then(c, [ReportError, ResolveServer, SendRegister, RegistrationHandled, ReportSuccess]).(
              state := Registered, retryTimerExpired := true, reconnecting := false, reconnection := Reconnection.None,
              reconnectionTime := c.initial, history := c.history + [Armed(c.reconnectionTime), Restarted])
  {
    hide RetriesTimed, Mindful, AfterCall;
    ObligedReconnection(c2);
    assert c2.trace + [SendRegister, RegistrationHandled, ReportSuccess] ==
           c.trace + [ReportError, ResolveServer, SendRegister, RegistrationHandled, ReportSuccess];
    assert c2.history + [Restarted] == c.history + [Armed(c.reconnectionTime), Restarted];
  }

  lemma ObligedLoss(c: Client)
    requires Obliging(c) && !c.reconnection.Unregistration? && !c.queueModeTimerOngoing
    ensures var r := AfterCall(c, SocketFails(SocketAbort, true));
            && Obliging(r) && !r.reconnection.Unregistration?
            && r == Then(c, [ReportError]).(state := Idle, reconnecting := true, retryTimerExpired := false,
                      reconnection := r.reconnection, reconnectionTime := r.reconnectionTime,
                      history := c.history + [Armed(c.reconnectionTime)])
  {
    hide RetriesTimed, Mindful, AfterCall, Lost;
    SocketFlow(c, SocketAbort, true);
    ObligedLost(c);
  }

  lemma ObligedLost(c: Client)
    requires Obliging(c) && !c.reconnection.Unregistration?
    ensures var r := Lost(c, SocketAbort, true);
            && Obliging(r) && !r.reconnection.Unregistration?
            && r == Then(c, [ReportError]).(state := Idle, reconnecting := true, retryTimerExpired := false,
                      reconnection := r.reconnection, reconnectionTime := r.reconnectionTime,
                      history := c.history + [Armed(c.reconnectionTime)])
  {
    hide RetriesTimed, Mindful, AfterForeign, Told, Tried, Arm;
    var c1 := Dropped(c).(reconnecting := true);
    ArmedIs(c1);
    Obliged(Arm(c1), ReportError);
  }

  lemma ArmedIs(c: Client)
    requires Lawful(c)
    ensures var r := Arm(c);
            r == c.(retryTimerExpired := false, reconnectionTime := r.reconnectionTime,
                    history := c.history + [Armed(c.reconnectionTime)])
  {
    hide RetriesTimed, Mindful, Timed, Pow2, Since;
  }

  lemma ObligedRetry(c: Client)
    requires Obliging(c) && c.security && c.bootstrapped
    ensures AfterCall(c, TimerExpired(RetryTimer)) ==
            Then(c, [ResolveServer]).(state := Register, retryTimerExpired := true, reconnection := FullRegistration)
  {
    hide RetriesTimed, Mindful, AfterCall, Resolved, Failed, Told;
    TimerFlow(c, RetryTimer);
    ObligedResolve(c.(retryTimerExpired := true, state := Register));
  }
}
