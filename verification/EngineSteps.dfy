/**
 * The client state engine of `m2minterfaceimpl.cpp` as functions. Every call into foreign code
 * (connection handler, NSDL interface, application) is answered by a finite script, which may first
 * call back into any entry point. The contracts say that every call comes to rest.
 */
module EngineSteps {
  import opened Bytes
  import opened EngineModel

  const MINIMUM_REGISTRATION_TIME := 60

  datatype TimerKind = QueueSleep | RetryTimer | BootstrapFlowTimer | RegistrationFlowTimer

  /** The security object that comes with an update: none, or one without or with an instance for the server. */
  datatype Given = NoSecurity | WithoutServer | WithServer

  /** The entry points of the client. */
  datatype Call =
    | BootstrapCall(security: bool)
    | RegisterCall(security: bool)
    | UpdateCall(given: Given, lifetime: nat, newObjects: bool)
    | UnregisterCall
    | CoapMessageReady
    | ClientRegistered
    | RegistrationUpdated
    | RegistrationError(unregistrationFailed: bool, retry: bool)
    | ClientUnregistered
    | BootstrapDone
    | BootstrapWaits
    | BootstrapErrorWaits
    | BootstrapError
    | CoapDataIsProcessed
    | DataAvailable
    | SocketFails(error: SocketError, retry: bool)
    | AddressReady(bootstrapServer: bool)
    | DataSent
    | TimerExpired(kind: TimerKind)

  /** The data of an event: the kind that its state expects, or that of a registration update. */
  datatype EventData = NoData | Data | UpdateData(given: Given, lifetime: nat, newObjects: bool)

  /** A move of the environment during a foreign call: call back, or return. */
  datatype Move = CallBack(call: Call) | Return(ok: bool)

  /**
   * What happens to a client: the foreign calls it makes, `CheckAddress` standing for the reading of the
   * server address, and the events that an unregistration it remembers depends on. `UpdateAsked` says what
   * state the update met, whether there was a security object for the server, and the lifetime. At `Misread`
   * an object list is read where there is none; the source may do anything from there on.
   */
  datatype Happening =
    | CheckAddress | ResolveBootstrapServer | ResolveServer | CreateBootstrapResource | CreateList
    | SendRegister | SendUpdate | SendUnregister | SendData | ProcessData
    | ReportError | ReportSuccess | CallSleepHandler
    | UnregistrationFailed | RegistrationHandled | BootstrapCompleted | BootstrapFailed | GivenUp
    | UpdateAsked(state: State, secured: bool, lifetime: nat) | Misread

  /** A registration attempt, a registration, an update call, the end of a bootstrap or a final error. */
  predicate Forgets(h: Happening) {
    match h
    case ResolveServer | RegistrationHandled | UpdateAsked(_, _, _) | BootstrapCompleted | BootstrapFailed | GivenUp => true
    case _ => false
  }

  predicate NoneForgets(trace: seq<Happening>, from: nat) {
    forall j :: from <= j < |trace| ==> !Forgets(trace[j])
  }

  /** An unregistration failed, and nothing since makes the client forget it. */
  predicate Remembered(trace: seq<Happening>) {
    exists i :: 0 <= i < |trace| && trace[i].UnregistrationFailed? && NoneForgets(trace, i + 1)
  }

  lemma RememberedSnoc(trace: seq<Happening>, h: Happening)
    ensures Remembered(trace + [h]) <==> h.UnregistrationFailed? || (Remembered(trace) && !Forgets(h))
  {
    hide Forgets;
    var all := trace + [h];
    assert all[|trace|] == h && forall k :: 0 <= k < |trace| ==> all[k] == trace[k];
    if Remembered(all) && !h.UnregistrationFailed? {
      var i :| 0 <= i < |all| && all[i].UnregistrationFailed? && NoneForgets(all, i + 1);
      assert trace[i].UnregistrationFailed? && NoneForgets(trace, i + 1);
    }
    if h.UnregistrationFailed? {
      assert all[|trace|].UnregistrationFailed? && NoneForgets(all, |trace| + 1);
    } else if Remembered(trace) && !Forgets(h) {
      var i :| 0 <= i < |trace| && trace[i].UnregistrationFailed? && NoneForgets(trace, i + 1);
      assert all[i].UnregistrationFailed? && NoneForgets(all, i + 1);
    }
  }

  /** An update of an idle client, with a lifetime and a security object for the server. */
  predicate Misleads(h: Happening) {
    h.UpdateAsked? && h.state.Idle? && h.secured && h.lifetime != 0
  }

  /** Whatever was misread came directly from such an update. */
  predicate Explained(trace: seq<Happening>) {
    forall i :: 0 <= i < |trace| && trace[i].Misread? ==> i > 0 && Misleads(trace[i - 1])
  }

  lemma ExplainedSnoc(trace: seq<Happening>, h: Happening)
    requires Explained(trace) && (h.Misread? ==> trace != [] && Misleads(trace[|trace| - 1]))
    ensures Explained(trace + [h])
  {
    hide Misleads;
    var all := trace + [h];
    forall i | 0 <= i < |all| && all[i].Misread? ensures i > 0 && Misleads(all[i - 1]) {
      assert i < |trace| ==> all[i] == trace[i];
      assert 0 < i ==> all[i - 1] == trace[i - 1];
    }
  }

  /** The reconnection state holds an unregistration exactly when one is remembered, and misreads are explained. */
  predicate Mindful(unregistration: bool, trace: seq<Happening>) {
    (unregistration <==> Remembered(trace)) && Explained(trace)
  }

  datatype Client = Client(
    initial: nat, queueMode: bool, sleepHandler: bool, fallback: bool,
    script: seq<Move>,
    state: State,
    security: bool,
    reconnecting: bool,
    retryTimerExpired: bool,
    bootstrapped: bool,
    queueModeTimerOngoing: bool,
    reconnection: Reconnection,
    reconnectionTime: nat,
    history: seq<Retry>,
    trace: seq<Happening>)

  /** The retry time is the one that is due next, and every arming so far was due. */
  predicate RetriesTimed(initial: nat, reconnectionTime: nat, history: seq<Retry>) {
    2 <= initial <= 10 && Timed(initial, history) && reconnectionTime == RetryTime(initial, Since(history))
  }

  predicate Lawful(c: Client) {
    RetriesTimed(c.initial, c.reconnectionTime, c.history) && Mindful(c.reconnection.Unregistration?, c.trace)
  }

  predicate Ready(c: Client) {
    Lawful(c) && Resting(c.state)
  }

  /** The script is only used up, and the history and the trace only grow. */
  predicate Onward(c: Client, r: Client) {
    && r.initial == c.initial && r.queueMode == c.queueMode
    && r.sleepHandler == c.sleepHandler && r.fallback == c.fallback
    && |r.script| <= |c.script| && c.history <= r.history && c.trace <= r.trace
  }

  /** Nothing was called and no retry time changed. */
  predicate Untouched(c: Client, r: Client) {
    r.script == c.script && r.history == c.history && r.reconnectionTime == c.reconnectionTime && r.trace == c.trace
  }

  /**
   * What an event for `s` leads to: the client rests, unless received data is missing; silent states
   * lead to a fixed state; registering and unregistering restart the retry times.
   */
  predicate Handled(c: Client, r: Client, s: State, data: EventData) {
    && Lawful(r) && Onward(c, r)
    && (Resting(r.state) <==> !s.CoapDataReceived? || !data.NoData?)
    && (s.CoapDataReceived? && data.NoData? ==> r.state == s && Untouched(c, r))
    && (Silent(s) && !s.Unregistered? ==> r == c.(state := RestOf(s)))
    && (s.Unregistered? ==> r == Restart(c).(state := Idle))
    && (s.Registered? ==> c.history + [Restarted] <= r.history && r.reconnection.None?)
    && (s.Registered? && !c.reconnection.Unregistration? ==>
          r.state == Registered && r.script == c.script && r.trace == c.trace + [RegistrationHandled])
  }

  // ----- retry times

  /** The retry timer is started and the next retry time doubles up to its cap. */
  function Arm(c: Client): (r: Client)
    requires Lawful(c)
    ensures Lawful(r) && Onward(c, r) && r.history == c.history + [Armed(c.reconnectionTime)]
    ensures r.state == c.state && r.reconnecting == c.reconnecting && !r.retryTimerExpired
  {
    hide Mindful, Timed, Pow2;
    TimedSnoc(c.initial, c.history, Armed(c.reconnectionTime));
    NextRetryTime(c.initial, Since(c.history));
    var t := c.reconnectionTime * 2;
    c.(retryTimerExpired := false,
       history := c.history + [Armed(c.reconnectionTime)],
       reconnectionTime := if t >= MAX_RECONNECT_TIMEOUT then MAX_RECONNECT_TIMEOUT else t)
  }

  function Restart(c: Client): (r: Client) {
    c.(history := c.history + [Restarted], reconnectionTime := c.initial)
  }

  lemma RestartIsLawful(c: Client)
    requires Lawful(c)
    ensures Lawful(Restart(c))
  {
    TimedSnoc(c.initial, c.history, Restarted);
  }

  /** The reconnection state changes because of something that matters to an unregistration. */
  function Noted(c: Client, value: Reconnection, h: Happening): (r: Client) {
    c.(reconnection := value, trace := c.trace + [h])
  }

  lemma NotedIsLawful(c: Client, value: Reconnection, h: Happening)
    requires Lawful(c)
    requires if value.Unregistration? then h.UnregistrationFailed? else Forgets(h)
    ensures Lawful(Noted(c, value, h))
  {
    hide RetriesTimed, Remembered, Explained;
    RememberedSnoc(c.trace, h);
    ExplainedSnoc(c.trace, h);
  }

  /** A foreign call other than the resolving of the server's address leaves the memory alone. */
  predicate Neutral(h: Happening) {
    !Forgets(h) && !h.UnregistrationFailed? && !h.Misread?
  }

  lemma CalledIsLawful(c: Client, h: Happening)
    requires Lawful(c) && Neutral(h)
    ensures Lawful(c.(trace := c.trace + [h]))
  {
    hide RetriesTimed, Remembered, Explained;
    RememberedSnoc(c.trace, h);
    ExplainedSnoc(c.trace, h);
  }

  /** The data of an update comes to the register state only from the update call that was just made. */
  predicate Asked(c: Client, s: State, data: EventData) {
    data.UpdateData? && s.Register? ==>
      c.trace != [] && c.trace[|c.trace| - 1] == UpdateAsked(Idle, c.security || data.given.WithServer?, data.lifetime)
  }

  // ----- the environment

  datatype Answer = Answer(client: Client, ok: bool)

  function AfterForeign(c: Client, service: Happening): (a: Answer)
    requires Ready(c) && Neutral(service)
    ensures Ready(a.client) && Onward(c, a.client)
    decreases |c.script|, 0, 1
  {
    hide RetriesTimed, Mindful, AfterScript;
    CalledIsLawful(c, service);
    AfterScript(c.(trace := c.trace + [service]))
  }

  /** The environment plays its script until it returns. */
  function AfterScript(c: Client): (a: Answer)
    requires Ready(c)
    ensures Ready(a.client) && Onward(c, a.client)
    decreases |c.script|, 0, 0
  {
    hide RetriesTimed, Mindful, AfterCall;
    if c.script == [] then Answer(c, c.fallback)
    else
      var d := c.(script := c.script[1..]);
      match c.script[0]
      case Return(ok) => Answer(d, ok)
      case CallBack(call) => AfterScript(AfterCall(d, call))
  }

  // ----- the engine

  /** `internal_event`: the event is set and the engine works it off. */
  function AfterEvent(c: Client, s: State, data: EventData): (r: Client)
    requires Lawful(c) && Asked(c, s, data)
    ensures Handled(c, r, s, data)
    decreases |c.script|, Rank(s), 2
  {
    hide RetriesTimed, Mindful, AfterState;
    AfterState(c.(state := s), data)
  }

  /** States other than those that `Handled` singles out need only come to rest. */
  lemma HandledByRest(c: Client, r: Client, s: State, data: EventData)
    requires Ready(r) && Onward(c, r) && Talks(s)
    ensures Handled(c, r, s, data)
  {
    hide RetriesTimed, Mindful;
  }

  lemma HandledRegistered(c: Client, r: Client, data: EventData)
    requires Ready(r) && Onward(c, r) && c.history + [Restarted] <= r.history && r.reconnection.None?
    requires !c.reconnection.Unregistration? ==>
              r.state == Registered && r.script == c.script && r.trace == c.trace + [RegistrationHandled]
    ensures Handled(c, r, Registered, data)
  {
    hide RetriesTimed, Mindful;
  }

  lemma HandledUnregistered(c: Client, data: EventData)
    requires Lawful(c)
    ensures Handled(c, Restart(c).(state := Idle), Unregistered, data)
  {
    RestartIsLawful(c);
    hide RetriesTimed, Mindful;
  }

  lemma HandledReceived(c: Client, r: Client, data: EventData)
    requires Lawful(r) && Onward(c, r) && (if data.NoData? then r == c && c.state == CoapDataReceived else Resting(r.state))
    ensures Handled(c, r, CoapDataReceived, data)
  {
    hide RetriesTimed, Mindful;
  }

  /** `state_function`. */
  function AfterState(c: Client, data: EventData): (r: Client)
    requires Lawful(c) && Asked(c, c.state, data)
    ensures Handled(c, r, c.state, data)
    decreases |c.script|, Rank(c.state), 1
  {
    hide RetriesTimed, Mindful, Handled, Onward, Restart, Rank, Passes, Talks, Silent, Resting,
         AfterPassing, AfterTalking, AfterMarked;
    if c.state.Registered? || c.state.Unregistered? || c.state.CoapDataReceived? then AfterMarked(c, data)
    else if Passes(c.state) then
      HandledPassing(c, data);
      AfterPassing(c)
    else if Talks(c.state) then
      var r := AfterTalking(c, data);
      HandledByRest(c, r, c.state, data);
      r
    else
      HandledAtRest(c, data);
      c
  }

  /** States whose function only passes on to waiting. */
  predicate Passes(s: State) {
    s.SendingCoapData? || s.CoapDataSent? || s.ProcessingCoapData? || s.CoapDataProcessed?
  }

  /** States whose function talks to foreign code. */
  predicate Talks(s: State) {
    !Silent(s) && !s.Registered? && !s.CoapDataReceived?
  }

  lemma HandledPassing(c: Client, data: EventData)
    requires Lawful(c) && Passes(c.state)
    ensures Handled(c, c.(state := Waiting), c.state, data)
  {
    hide RetriesTimed, Mindful;
  }

  lemma HandledAtRest(c: Client, data: EventData)
    requires Lawful(c) && !c.state.Registered? && !c.state.Unregistered? && !c.state.CoapDataReceived?
    requires !Passes(c.state) && !Talks(c.state)
    ensures Handled(c, c, c.state, data)
  {
    hide RetriesTimed, Mindful, Rank;
    assert RestOf(c.state) == c.state;
  }

  /** The states that `Handled` singles out. */
  function AfterMarked(c: Client, data: EventData): (r: Client)
    requires Lawful(c) && (c.state.Registered? || c.state.Unregistered? || c.state.CoapDataReceived?)
    ensures Handled(c, r, c.state, data)
    decreases |c.script|, Rank(c.state), 0
  {
    hide RetriesTimed, Mindful, Handled, Onward, Restart, AfterRegistered, AfterUnregistered, AfterReceived;
    match c.state
    case Registered =>
      var r := AfterRegistered(c);
      HandledRegistered(c, r, data);
      r
    case Unregistered =>
      HandledUnregistered(c, data);
      AfterUnregistered(c)
    case CoapDataReceived =>
      var r := AfterReceived(c, data);
      HandledReceived(c, r, data);
      r
  }

  /** Sending, sent, processing and processed data pass on to waiting. */
  function AfterPassing(c: Client): (r: Client)
    requires Lawful(c) && Passes(c.state)
    ensures r == c.(state := Waiting)
    decreases |c.script|, Rank(c.state), 0
  {
    hide RetriesTimed, Mindful, Handled, Through;
    Through(c, Waiting)
  }

  /** The states that talk to foreign code. */
  function AfterTalking(c: Client, data: EventData): (r: Client)
    requires Lawful(c) && Talks(c.state) && Asked(c, c.state, data)
    ensures Ready(r) && Onward(c, r)
    decreases |c.script|, Rank(c.state), 0
  {
    hide RetriesTimed, Mindful, Handled, AfterBootstrap, AfterBootstrapAddress, AfterRegister, AfterRegisterAddress,
         AfterUpdate, AfterUnregister;
    match c.state
    case Bootstrap => AfterBootstrap(c, data)
    case BootstrapAddressResolved => AfterBootstrapAddress(c, data)
    case Register => AfterRegister(c, data)
    case RegisterAddressResolved => AfterRegisterAddress(c, data)
    case UpdateRegistration => AfterUpdate(c, data)
    case Unregister => AfterUnregister(c)
  }

  /** The events of silent states lead to a fixed state. */
  function Through(c: Client, s: State): (r: Client)
    requires Lawful(c) && Silent(s) && !s.Unregistered?
    ensures r == c.(state := RestOf(s))
    decreases |c.script|, Rank(s), 3
  {
    hide RetriesTimed, Mindful;
    AfterEvent(c, s, NoData)
  }

  /** Any other event comes to rest. */
  function ToRest(c: Client, s: State, data: EventData): (r: Client)
    requires Lawful(c) && Asked(c, s, data) && (s.CoapDataReceived? ==> !data.NoData?)
    ensures Ready(r) && Onward(c, r)
    decreases |c.script|, Rank(s), 3
  {
    hide RetriesTimed, Mindful;
    AfterEvent(c, s, data)
  }

  /** Back to idle, and the application is told. */
  function AfterFailure(c: Client): (r: Client)
    requires Lawful(c)
    ensures Ready(r) && Onward(c, r)
    decreases |c.script|, 0, 5
  {
    hide RetriesTimed, Mindful, Handled, AfterForeign, Through;
    AfterForeign(Through(c, Idle), ReportError).client
  }

  /** `state_bootstrap`. */
  function AfterBootstrap(c: Client, data: EventData): (r: Client)
    requires Lawful(c) && c.state == Bootstrap
    ensures Ready(r) && Onward(c, r)
    decreases |c.script|, 0, 9
  {
    hide RetriesTimed, Mindful, Handled, AfterForeign, AfterFailure;
    var c0 := c.(bootstrapped := false);
    if c.security then AfterForeign(c0, ResolveBootstrapServer).client
    else if data.NoData? then AfterFailure(c0)
    else
      var a := AfterForeign(c0.(security := true), CheckAddress);
      if a.ok then AfterForeign(a.client, ResolveBootstrapServer).client else AfterFailure(a.client)
  }

  /** `state_bootstrap_address_resolved`. */
  function AfterBootstrapAddress(c: Client, data: EventData): (r: Client)
    requires Lawful(c) && c.state == BootstrapAddressResolved
    ensures Ready(r) && Onward(c, r)
    decreases |c.script|, 0, 9
  {
    hide RetriesTimed, Mindful, Handled, AfterForeign, Through, AfterFailure;
    if data.NoData? then c
    else
      var a := AfterForeign(c, CreateBootstrapResource);
      if a.ok then Through(a.client, BootstrapResourceCreated) else AfterFailure(a.client)
  }

  /** The server address is resolved for a full registration. */
  function AfterFullResolve(c: Client): (r: Client)
    requires Ready(c)
    ensures Ready(r) && Onward(c, r)
    decreases |c.script|, 0, 2
  {
    hide RetriesTimed, Mindful, AfterScript;
    NotedIsLawful(c, FullRegistration, ResolveServer);
    AfterScript(Noted(c, FullRegistration, ResolveServer)).client
  }

  /**
   * The list of an update's data is taken for that of a registration and read one field early: its size is
   * the lifetime, and its elements are not there.
   */
  function AfterMisread(c: Client): (r: Client)
    requires Ready(c) && c.trace != [] && Misleads(c.trace[|c.trace| - 1])
    ensures Ready(r) && Onward(c, r)
  {
    hide RetriesTimed, Remembered, Explained;
    RememberedSnoc(c.trace, Misread);
    ExplainedSnoc(c.trace, Misread);
    c.(trace := c.trace + [Misread])
  }

  /**
   * `state_register`. A reconnection always becomes a full registration. The list that an update without a
   * lifetime seems to bring is empty.
   */
  function AfterRegister(c: Client, data: EventData): (r: Client)
    requires Lawful(c) && c.state == Register && Asked(c, Register, data)
    ensures Ready(r) && Onward(c, r)
    decreases |c.script|, 0, 9
  {
    hide AfterFullResolve, AfterMisread, RetriesTimed, Mindful, Handled, AfterForeign, AfterFailure, AfterFirst;
    if !c.security then AfterFirst(c, data)
    else if data.UpdateData? && data.lifetime != 0 then AfterMisread(c)
    else AfterFullResolve(if data.Data? then AfterForeign(c, CreateList).client else c)
  }

  /** The same for a client without a security object. */
  function AfterFirst(c: Client, data: EventData): (r: Client)
    requires Lawful(c) && c.state == Register && !c.security && Asked(c, Register, data)
    ensures Ready(r) && Onward(c, r)
    decreases |c.script|, 0, 8
  {
    hide AfterFullResolve, AfterMisread, RetriesTimed, Mindful, Handled, AfterForeign, AfterFailure;
    match data
    case NoData => AfterFailure(c)
    case Data =>
      var a := AfterForeign(c.(security := true), CheckAddress);
      if a.ok then AfterFullResolve(a.client) else AfterFailure(a.client)
    case UpdateData(given, lifetime, _) =>
      if given.NoSecurity? then AfterFailure(c)
      else if given.WithServer? && lifetime != 0 then AfterMisread(c.(security := true))
      else AfterFailure(c.(security := true))
  }

  function AfterSendRegister(c: Client): (r: Client)
    requires Ready(c)
    ensures Ready(r) && Onward(c, r)
    decreases |c.script|, 0, 6
  {
    hide RetriesTimed, Mindful, Handled, AfterForeign, AfterFailure;
    var a := AfterForeign(c, SendRegister);
    if a.ok then a.client else AfterFailure(a.client)
  }

  /** `state_register_address_resolved`. */
  function AfterRegisterAddress(c: Client, data: EventData): (r: Client)
    requires Lawful(c) && c.state == RegisterAddressResolved
    ensures Ready(r) && Onward(c, r)
    decreases |c.script|, 1, 9
  {
    hide RetriesTimed, Mindful, Handled, ToRest, AfterSendRegister;
    if data.NoData? then c
    else if c.reconnection.None? || c.reconnection.FullRegistration? then AfterSendRegister(c)
    else ToRest(c, UpdateRegistration, NoData)
  }

  /** A remembered unregistration goes on. */
  function AfterContinued(c: Client): (r: Client)
    requires Ready(c)
    ensures Ready(r) && Onward(c, r) && (!c.reconnection.Unregistration? ==> r == c)
    decreases |c.script|, 2, 8
  {
    hide RetriesTimed, Mindful, Handled, ToRest;
    if c.reconnection.Unregistration? then ToRest(c, Unregister, NoData) else c
  }

  /** `state_registered`. */
  function AfterRegistered(c: Client): (r: Client)
    requires Lawful(c) && c.state == Registered
    ensures Ready(r) && Onward(c, r) && c.history + [Restarted] <= r.history && r.reconnection.None?
    ensures !c.reconnection.Unregistration? ==>
              r.state == Registered && r.script == c.script && r.trace == c.trace + [RegistrationHandled]
    decreases |c.script|, 2, 9
  {
    hide RetriesTimed, Mindful, Handled, AfterContinued;
    RestartIsLawful(c);
    var c2 := AfterContinued(Restart(c).(reconnecting := false));
    NotedIsLawful(c2, Reconnection.None, RegistrationHandled);
    Noted(c2, Reconnection.None, RegistrationHandled)
  }

  /** The objects that come with an update are added to the list first. */
  function AfterNewObjects(c: Client, data: EventData): (r: Client)
    requires Ready(c)
    ensures Ready(r) && Onward(c, r)
    decreases |c.script|, 0, 2
  {
    hide RetriesTimed, Mindful, AfterForeign;
    if data.UpdateData? && data.newObjects then AfterForeign(c, CreateList).client else c
  }

  /** `state_update_registration`. */
  function AfterUpdate(c: Client, data: EventData): (r: Client)
    requires Lawful(c) && c.state == UpdateRegistration
    ensures Ready(r) && Onward(c, r)
    decreases |c.script|, 0, 9
  {
    hide RetriesTimed, Mindful, Handled, AfterNewObjects, AfterForeign, AfterSendRegister;
    var a := AfterForeign(AfterNewObjects(c.(queueModeTimerOngoing := false), data), SendUpdate);
    if !a.ok && a.client.reconnection.WithUpdate?
    then AfterSendRegister(a.client.(reconnection := FullRegistration))
    else a.client
  }

  /** `state_unregister`. */
  function AfterUnregister(c: Client): (r: Client)
    requires Lawful(c) && c.state == Unregister
    ensures Ready(r) && Onward(c, r)
    decreases |c.script|, 1, 9
  {
    hide RetriesTimed, Mindful, Handled, AfterForeign, Through, AfterFailure;
    var a := AfterForeign(Through(c, SendingCoapData), SendUnregister);
    if a.ok then a.client else AfterFailure(a.client)
  }

  /** `state_unregistered`. */
  function AfterUnregistered(c: Client): (r: Client)
    requires Lawful(c) && c.state == Unregistered
    ensures Lawful(r) && r == Restart(c).(state := Idle)
    decreases |c.script|, 0, 9
  {
    hide RetriesTimed, Mindful, Through;
    RestartIsLawful(c);
    Through(Restart(c), Idle)
  }

  /** `state_coap_data_received`. */
  function AfterReceived(c: Client, data: EventData): (r: Client)
    requires Lawful(c) && c.state == CoapDataReceived
    ensures Lawful(r) && Onward(c, r) && (if data.NoData? then r == c else Resting(r.state))
    decreases |c.script|, 1, 9
  {
    hide RetriesTimed, Mindful, Handled, AfterForeign, Through;
    if data.NoData? then c
    else
      var a := AfterForeign(Through(c, ProcessingCoapData), ProcessData);
      if a.ok then a.client else AfterForeign(a.client, ReportError).client
  }

  // ----- public calls

  /** A transition map and `external_event`; an ignored event is reported. */
  function AfterMapped(c: Client, target: Option<State>, data: EventData): (r: Client)
    requires Ready(c) && (target.Some? ==> !target.value.CoapDataReceived? && Asked(c, target.value, data))
    ensures Ready(r) && Onward(c, r)
    decreases |c.script|, 4, 0
  {
    hide RetriesTimed, Mindful, Handled, AfterForeign, ToRest;
    if target.Some? then ToRest(c, target.value, data)
    else AfterForeign(c, ReportError).client
  }

  /** `bootstrap`. */
  function AfterBootstrapCall(c: Client, secured: bool): (r: Client)
    requires Ready(c)
    ensures Ready(r) && Onward(c, r)
    decreases |c.script|, 5, 0
  {
    hide RetriesTimed, Mindful, AfterForeign, AfterMapped;
    var c0 := c.(security := false);
    if secured then AfterMapped(c0, BootstrapMap(c.state), Data) else AfterForeign(c0, ReportError).client
  }

  /** `register_object`. */
  function AfterRegisterCall(c: Client, secured: bool): (r: Client)
    requires Ready(c)
    ensures Ready(r) && Onward(c, r)
    decreases |c.script|, 5, 0
  {
    hide RetriesTimed, Mindful, AfterForeign, AfterMapped;
    if secured then AfterMapped(c, RegisterMap(c.state), Data) else AfterForeign(c, ReportError).client
  }

  /** An invalid lifetime is reported first. */
  function AfterCheck(c: Client, lifetime: nat): (r: Client)
    requires Ready(c)
    ensures Ready(r) && Onward(c, r)
    decreases |c.script|, 0, 2
  {
    hide RetriesTimed, Mindful, AfterForeign;
    if lifetime != 0 && lifetime < MINIMUM_REGISTRATION_TIME then AfterForeign(c, ReportError).client else c
  }

  /** `start_register_update`: after a report of its lifetime the update goes on all the same. */
  function AfterUpdateCall(c: Client, given: Given, lifetime: nat, newObjects: bool): (r: Client)
    requires Ready(c)
    ensures Ready(r) && Onward(c, r)
    decreases |c.script|, 5, 0
  {
    hide RetriesTimed, Mindful, AfterCheck, AfterMapped;
    var c0 := AfterCheck(c, lifetime);
    var asked := UpdateAsked(c0.state, c0.security || given.WithServer?, lifetime);
    NotedIsLawful(c0, WithUpdate, asked);
    if c0.reconnecting then c0
    else AfterMapped(Noted(c0, WithUpdate, asked), UpdateMap(c0.state), UpdateData(given, lifetime, newObjects))
  }

  // ----- callbacks

  /** `coap_message_ready`. An idle client sends nothing. */
  function AfterMessageReady(c: Client): (r: Client)
    requires Ready(c)
    ensures Ready(r) && Onward(c, r)
    ensures c.state == Idle ==> r == c
    decreases |c.script|, 6, 0
  {
    hide RetriesTimed, Mindful, Handled, AfterForeign, Through, AfterSocketError;
    if c.state == Idle then c
    else
      var a := AfterForeign(Through(c, SendingCoapData), SendData);
      if a.ok then a.client
      else
        var idle := Through(a.client, Idle);
        if !idle.reconnecting then AfterSocketError(idle.(queueModeTimerOngoing := false), SocketSendError, true)
        else AfterSocketError(idle, SocketAbort, true)
  }

  /** `client_registered` and `registration_updated`. */
  function AfterClientRegistered(c: Client): (r: Client)
    requires Ready(c)
    ensures Ready(r) && Onward(c, r) && c.history + [Restarted] <= r.history
    decreases |c.script|, 4, 0
  {
    hide RetriesTimed, Mindful, AfterForeign, AfterEvent;
    AfterForeign(AfterEvent(c, Registered, NoData), ReportSuccess).client
  }

  /** The client is no longer asleep, and a failed unregistration is remembered. */
  function Awake(c: Client, unregistrationFailed: bool): (r: Client)
    requires Lawful(c)
    ensures Lawful(r) && Onward(c, r) && !r.queueModeTimerOngoing
    ensures r.state == c.state && r.history == c.history && r.reconnectionTime == c.reconnectionTime
    ensures unregistrationFailed ==> r.trace == c.trace + [UnregistrationFailed]
  {
    hide RetriesTimed, Mindful;
    var c0 := c.(queueModeTimerOngoing := false);
    NotedIsLawful(c0, Unregistration, UnregistrationFailed);
    if unregistrationFailed then Noted(c0, Unregistration, UnregistrationFailed) else c0
  }

  /** `registration_error`. */
  function AfterRegistrationError(c: Client, unregistrationFailed: bool, retry: bool): (r: Client)
    requires Ready(c)
    ensures Ready(r) && Onward(c, r)
    ensures retry && !Completes(c, SocketSendError) ==> c.history + [Armed(c.reconnectionTime)] <= r.history
    decreases |c.script|, 6, 0
  {
    hide Awake, RetriesTimed, Mindful, Handled, AfterFailure, AfterSocketError;
    if retry then AfterSocketError(Awake(c, unregistrationFailed), SocketSendError, true)
    else AfterFailure(c.(security := false))
  }

  /** `client_unregistered`. */
  function AfterClientUnregistered(c: Client): (r: Client)
    requires Ready(c)
    ensures Ready(r) && Onward(c, r) && c.history + [Restarted] <= r.history
    decreases |c.script|, 4, 0
  {
    hide RetriesTimed, Mindful, AfterForeign, AfterEvent;
    AfterForeign(AfterEvent(c, Unregistered, NoData), ReportSuccess).client
  }

  /** The client as a completed bootstrap leaves it. */
  function Completed(c: Client): (r: Client)
    requires Ready(c)
    ensures Ready(r) && Onward(c, r) && r.script == c.script && c.history + [Restarted] <= r.history
  {
    hide RetriesTimed, Mindful;
    var c1 := Restart(c).(reconnecting := false, bootstrapped := true);
    RestartIsLawful(c);
    NotedIsLawful(c1, Reconnection.None, BootstrapCompleted);
    Noted(c1, Reconnection.None, BootstrapCompleted)
  }

  /** `bootstrap_done`. */
  function AfterBootstrapDone(c: Client): (r: Client)
    requires Ready(c)
    ensures Ready(r) && Onward(c, r) && c.history + [Restarted] <= r.history
    decreases |c.script|, 4, 0
  {
    hide RetriesTimed, Mindful, Handled, AfterForeign, Through, Completed;
    AfterForeign(Through(Completed(c), Bootstrapped), ReportSuccess).client
  }

  /** The part of `bootstrap_error` that reports it and goes idle. */
  function AfterBootstrapReport(c: Client): (r: Client)
    requires Ready(c)
    ensures Ready(r) && Onward(c, r) && r.state == Idle
    decreases |c.script|, 4, 0
  {
    hide RetriesTimed, Mindful, Handled, AfterForeign, Through;
    NotedIsLawful(c.(bootstrapped := false), Reconnection.None, BootstrapFailed);
    Through(AfterForeign(Noted(c.(bootstrapped := false), Reconnection.None, BootstrapFailed), ReportError).client, Idle)
  }

  /** `bootstrap_error`: it is reported first and then schedules a retry. */
  function AfterBootstrapError(c: Client): (r: Client)
    requires Ready(c)
    ensures Ready(r) && Onward(c, r)
    ensures r.state == Idle && r.reconnecting && !r.retryTimerExpired
    ensures |r.history| > |c.history| && r.history[|r.history| - 1].Armed?
    decreases |c.script|, 5, 0
  {
    hide RetriesTimed, Mindful, Handled, AfterBootstrapReport, Arm;
    Arm(AfterBootstrapReport(c).(reconnecting := true))
  }

  /** The peer closed the connection of a bootstrap that was waiting for it. */
  predicate Completes(c: Client, error: SocketError) {
    c.state == BootstrapWait && error == SslPeerClosed
  }

  /** A queue mode client sleeps. */
  predicate Sleeps(c: Client) {
    c.queueMode && c.sleepHandler && c.queueModeTimerOngoing
  }

  /** The part of `socket_error` that acts on a lost connection. */
  function AfterLoss(c: Client, error: SocketError, retry: bool): (r: Client)
    requires Ready(c)
    ensures Ready(r) && Onward(c, r)
    ensures retry ==> c.history + [Armed(c.reconnectionTime)] <= r.history
    ensures !retry && Reported(error) ==> c.history + [Restarted] <= r.history
    ensures !retry && !Reported(error) ==> r == c.(state := Idle)
    decreases |c.script|, 4, 0
  {
    hide RetriesTimed, Mindful, Handled, Settle, AfterForeign, Through;
    var c1 := Settle(Through(c, Idle), error, retry);
    if Reported(error) then AfterForeign(c1, ReportError).client else c1
  }

  /** What a lost connection does to the retry times. */
  function Settle(c: Client, error: SocketError, retry: bool): (r: Client)
    requires Ready(c)
    ensures Ready(r) && Onward(c, r) && r.state == c.state
    ensures retry ==> r.history == c.history + [Armed(c.reconnectionTime)]
    ensures !retry && Reported(error) ==> r.history == c.history + [Restarted]
    ensures !retry && !Reported(error) ==> r == c
  {
    hide RetriesTimed, Mindful, Arm;
    RestartIsLawful(c);
    if retry then Arm(c.(reconnecting := true))
    else if Reported(error) then
      var c1 := Restart(c).(security := false, reconnecting := false);
      NotedIsLawful(c1, Reconnection.None, GivenUp);
      Noted(c1, Reconnection.None, GivenUp)
    else c
  }

  /**
   * `socket_error`. A closed peer completes a waiting bootstrap; a sleeping client ignores the error;
   * a retryable error arms the timer; a reported final error restarts the retry times.
   */
  function AfterSocketError(c: Client, error: SocketError, retry: bool): (r: Client)
    requires Ready(c)
    ensures Ready(r) && Onward(c, r)
    ensures Completes(c, error) ==> c.history + [Restarted] <= r.history
    ensures !Completes(c, error) && Sleeps(c) ==> r == c
    ensures !Completes(c, error) && !Sleeps(c) && retry ==> c.history + [Armed(c.reconnectionTime)] <= r.history
    ensures !Completes(c, error) && !Sleeps(c) && !retry && Reported(error) ==> c.history + [Restarted] <= r.history
    ensures !Completes(c, error) && !Sleeps(c) && !retry && !Reported(error) ==> r.state == Idle && Untouched(c, r)
    decreases |c.script|, 5, 0
  {
    hide RetriesTimed, Mindful, Handled, AfterBootstrapDone, AfterLoss, Mark;
    if Completes(c, error) then AfterBootstrapDone(c.(security := false))
    else if Sleeps(c) then c
    else
      AfterLoss(Mark(c), error, retry)
  }

  /** A reconnection needs an update, unless more than that is already due. */
  function Mark(c: Client): (r: Client)
    ensures r == c.(reconnection := r.reconnection)
    ensures r.reconnection.Unregistration? <==> c.reconnection.Unregistration?
  {
    if c.reconnection.Unregistration? || c.reconnection.FullRegistration? then c
    else c.(reconnection := WithUpdate)
  }

  /** `data_sent`. */
  function AfterDataSent(c: Client): (r: Client)
    requires Ready(c)
    ensures Ready(r) && Onward(c, r)
    ensures c.state == BootstrapWait ==> r == c
    ensures c.state == BootstrapErrorWait ==> r.state == Idle
    ensures c.state != BootstrapWait && c.state != BootstrapErrorWait ==> r == c.(state := Waiting)
    decreases |c.script|, 6, 0
  {
    hide RetriesTimed, Mindful, Handled, Through, AfterBootstrapError;
    if c.state == BootstrapErrorWait then AfterBootstrapError(c)
    else if c.state != BootstrapWait then Through(c, CoapDataSent)
    else c
  }

  /** `timer_expired`. */
  function AfterTimer(c: Client, kind: TimerKind): (r: Client)
    requires Ready(c)
    ensures Ready(r) && Onward(c, r)
    decreases |c.script|, 7, 0
  {
    hide RetriesTimed, Mindful, Handled, AfterForeign, ToRest, AfterRegistrationError, AfterBootstrapError;
    match kind
    case QueueSleep =>
      var c0 := c.(queueModeTimerOngoing := true);
      if c.sleepHandler then AfterForeign(c0, CallSleepHandler).client else c0
    case RetryTimer =>
      ToRest(c.(retryTimerExpired := true), if c.bootstrapped then Register else Bootstrap, NoData)
    case BootstrapFlowTimer => AfterBootstrapError(c.(bootstrapped := false))
    case RegistrationFlowTimer => AfterRegistrationError(c, false, true)
  }

  /** Any entry point, from the application or as a callback, comes to rest. */
  function AfterCall(c: Client, call: Call): (r: Client)
    requires Ready(c)
    ensures Ready(r) && Onward(c, r)
    decreases |c.script|, 8, 0
  {
    hide RetriesTimed, Mindful, Handled;
    match call
    case BootstrapCall(secured) => AfterBootstrapCall(c, secured)
    case RegisterCall(secured) => AfterRegisterCall(c, secured)
    case UpdateCall(given, lifetime, newObjects) => AfterUpdateCall(c, given, lifetime, newObjects)
    case UnregisterCall => AfterMapped(c, UnregisterMap(c.state), NoData)
    case CoapMessageReady => AfterMessageReady(c)
    case ClientRegistered => AfterClientRegistered(c)
    case RegistrationUpdated => AfterClientRegistered(c)
    case RegistrationError(failed, retry) => AfterRegistrationError(c, failed, retry)
    case ClientUnregistered => AfterClientUnregistered(c)
    case BootstrapDone => AfterBootstrapDone(c)
    case BootstrapWaits => ToRest(c, BootstrapWait, NoData)
    case BootstrapErrorWaits => ToRest(c, BootstrapErrorWait, NoData)
    case BootstrapError => AfterBootstrapError(c)
    case CoapDataIsProcessed => ToRest(c, CoapDataProcessed, NoData)
    case DataAvailable => ToRest(c, CoapDataReceived, Data)
    case SocketFails(error, retry) => AfterSocketError(c, error, retry)
    case AddressReady(bootstrapServer) =>
      ToRest(c, if bootstrapServer then BootstrapAddressResolved else RegisterAddressResolved, Data)
    case DataSent => AfterDataSent(c)
    case TimerExpired(kind) => AfterTimer(c, kind)
  }
}
