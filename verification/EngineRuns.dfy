/** Laws of the client state engine over every run of calls: the retry times and the failed unregistration. */
module EngineRuns {
  import opened Bytes
  import opened EngineModel
  import opened EngineSteps

  function AfterCalls(c: Client, calls: seq<Call>): (r: Client)
    requires Ready(c)
    ensures Ready(r) && Onward(c, r)
    decreases |calls|
  {
    hide RetriesTimed, Mindful, AfterCall;
    if calls == [] then c else AfterCall(AfterCalls(c, calls[..|calls| - 1]), calls[|calls| - 1])
  }

  /**
   * Any calls against any finite script leave the client at rest, and the k-th retry since the retry
   * times last started over was armed for exactly `min(initial * 2^k, 604800)` seconds, unless an object
   * list was misread.
   */
  lemma EveryRunRestsAndRetriesOnTime(c: Client, calls: seq<Call>)
    requires Ready(c)
    ensures var r := AfterCalls(c, calls);
            Misread !in r.trace ==>
              && Resting(r.state)
              && forall i :: 0 <= i < |r.history| && r.history[i].Armed? ==>
                   var t := c.initial * Pow2(Since(r.history[..i]));
                   r.history[i].seconds == if t < 604800 then t else 604800
  {
    hide AfterCalls, Since, Pow2;
    var r := AfterCalls(c, calls);
    forall i | 0 <= i < |r.history| && r.history[i].Armed?
      ensures r.history[i].seconds == RetryTime(c.initial, Since(r.history[..i]))
    {
    }
  }

  // ----- the object list of an update

  /** What an update of an idle client that does not reconnect does first. */
  function FirstOfUpdate(c: Client, given: Given, lifetime: nat): (h: Happening) {
    if lifetime != 0 && (c.security || given.WithServer?) then Misread
    else if c.security then ResolveServer
    else ReportError
  }

  lemma RegisterWithUpdate(c: Client, data: EventData)
    requires Lawful(c) && c.state == Register && data.UpdateData? && Asked(c, Register, data)
    ensures c.trace + [FirstOfUpdate(c, data.given, data.lifetime)] <= AfterRegister(c, data).trace
  {
    hide RetriesTimed, Mindful, AfterFirst, AfterFullResolve, Handled, Onward;
    if !c.security {
      FirstWithUpdate(c, data);
    } else if data.lifetime == 0 {
      ResolvesFirst(c);
    }
  }

  lemma ResolvesFirst(c: Client)
    requires Ready(c)
    ensures c.trace + [ResolveServer] <= AfterFullResolve(c).trace
  {
    hide RetriesTimed, Mindful, AfterScript;
  }

  lemma FirstWithUpdate(c: Client, data: EventData)
    requires Lawful(c) && c.state == Register && !c.security && data.UpdateData? && Asked(c, Register, data)
    ensures c.trace + [FirstOfUpdate(c, data.given, data.lifetime)] <= AfterFirst(c, data).trace
  {
    hide RetriesTimed, Mindful, AfterFailure, Handled, Onward;
    FailureReports(c);
    FailureReports(c.(security := true));
  }

  /** Any other update begins with the new objects, the update message or a report. */
  lemma OtherUpdates(c: Client, data: EventData)
    requires Ready(c) && data.UpdateData? && !c.state.Idle?
    ensures var all := AfterMapped(c, UpdateMap(c.state), data).trace;
            !(c.trace + [Misread] <= all)
  {
    hide RetriesTimed, Mindful, AfterForeign, AfterEvent, AfterUpdate, Handled, Onward;
    var all := AfterMapped(c, UpdateMap(c.state), data).trace;
    var next := ReportError;
    if UpdateMap(c.state).Some? {
      UpdateEnters(c, data);
      UpdateNext(c.(state := UpdateRegistration), data);
      next := if data.newObjects then CreateList else SendUpdate;
      assert all == ToRest(c, UpdateRegistration, data).trace == AfterEvent(c, UpdateRegistration, data).trace;
      assert c.trace + [next] <= all;
    } else {
      CalledFirst(c, ReportError);
    }
    NextIs(c.trace, all, next, Misread);
  }

  lemma UpdateEnters(c: Client, data: EventData)
    requires Lawful(c)
    ensures AfterEvent(c, UpdateRegistration, data) == AfterUpdate(c.(state := UpdateRegistration), data)
  {
    hide RetriesTimed, Mindful, AfterUpdate, Handled, AfterEvent, Onward;
    EventEnters(c, UpdateRegistration, data);
  }

  lemma CalledFirst(c: Client, service: Happening)
    requires Ready(c) && Neutral(service)
    ensures c.trace + [service] <= AfterForeign(c, service).client.trace
  {
    hide RetriesTimed, Mindful, AfterScript;
  }

  lemma UpdateNext(c: Client, data: EventData)
    requires Lawful(c) && c.state == UpdateRegistration && data.UpdateData?
    ensures c.trace + [if data.newObjects then CreateList else SendUpdate] <= AfterUpdate(c, data).trace
  {
    hide RetriesTimed, Mindful, AfterForeign, AfterSendRegister, Handled, AfterNewObjects;
    var c0 := c.(queueModeTimerOngoing := false);
    var c1 := AfterNewObjects(c0, data);
    ObjectsNext(c0, data);
    CalledFirst(c1, SendUpdate);
    assert AfterForeign(c1, SendUpdate).client.trace <= AfterUpdate(c, data).trace;
  }

  lemma ObjectsNext(c: Client, data: EventData)
    requires Ready(c) && data.UpdateData?
    ensures if data.newObjects then c.trace + [CreateList] <= AfterNewObjects(c, data).trace
            else AfterNewObjects(c, data) == c
  {
    hide RetriesTimed, Mindful, AfterForeign;
    CalledFirst(c, CreateList);
  }

  /** The client when an update call gets past its checks. */
  function Asking(c: Client, given: Given, lifetime: nat): (r: Client)
    requires Ready(c)
    ensures Ready(r)
  {
    hide RetriesTimed, Mindful;
    var asked := UpdateAsked(c.state, c.security || given.WithServer?, lifetime);
    NotedIsLawful(c, WithUpdate, asked);
    Noted(c, WithUpdate, asked)
  }

  /**
   * Exactly when an update call reads the object list in the wrong place: it brings a lifetime, the client
   * is idle and does not reconnect, and there is a security object, a stored one or a given one with an
   * instance for the server. A report of a lifetime that is too short comes first.
   */
  lemma UpdateMisreadsExactly(c: Client, given: Given, lifetime: nat, newObjects: bool)
    requires Ready(c)
    ensures var c0 := AfterCheck(c, lifetime);
            var asked := UpdateAsked(c0.state, c0.security || given.WithServer?, lifetime);
            c0.trace + [asked] + [Misread] <= AfterCall(c, UpdateCall(given, lifetime, newObjects)).trace <==>
            lifetime != 0 && c0.state.Idle? && !c0.reconnecting && (c0.security || given.WithServer?)
  {
    hide RetriesTimed, Mindful, AfterCheck, AfterMapped, AfterCall;
    var c0 := AfterCheck(c, lifetime);
    UpdateIsCalled(c, given, lifetime, newObjects);
    if !c0.reconnecting {
      var c1 := Asking(c0, given, lifetime);
      var data := UpdateData(given, lifetime, newObjects);
      var all := AfterMapped(c1, UpdateMap(c0.state), data).trace;
      if c0.state.Idle? {
        IdleUpdate(c1, data);
        NextIs(c1.trace, all, FirstOfUpdate(c1, given, lifetime), Misread);
      } else {
        OtherUpdates(c1, data);
      }
    }
  }

  lemma IdleUpdate(c: Client, data: EventData)
    requires Ready(c) && c.state.Idle? && data.UpdateData? && Asked(c, Register, data)
    ensures c.trace + [FirstOfUpdate(c, data.given, data.lifetime)] <= AfterMapped(c, UpdateMap(c.state), data).trace
  {
    hide RetriesTimed, Mindful, AfterEvent, AfterRegister, Handled, Onward;
    EventEnters(c, Register, data);
    StateIsRegister(c.(state := Register), data);
    RegisterWithUpdate(c.(state := Register), data);
  }

  lemma StateIsRegister(c: Client, data: EventData)
    requires Lawful(c) && c.state == Register && Asked(c, Register, data)
    ensures AfterState(c, data) == AfterRegister(c, data)
  {
    hide RetriesTimed, Mindful, AfterRegister, Handled, Onward;
  }

  lemma UpdateIsCalled(c: Client, given: Given, lifetime: nat, newObjects: bool)
    requires Ready(c)
    ensures var c0 := AfterCheck(c, lifetime);
            AfterCall(c, UpdateCall(given, lifetime, newObjects)) ==
            if c0.reconnecting then c0
            else AfterMapped(Asking(c0, given, lifetime), UpdateMap(c0.state), UpdateData(given, lifetime, newObjects))
  {
    hide RetriesTimed, Mindful, AfterCheck, AfterMapped, Onward, Resting;
  }

  /** In every run, whatever was misread came directly from such an update call. */
  lemma MisreadsAreExplained(c: Client, calls: seq<Call>)
    requires Ready(c)
    ensures Explained(AfterCalls(c, calls).trace)
  {
    hide RetriesTimed, AfterCalls, Explained, Remembered;
  }

  /** A new client that is updated with a lifetime of two minutes. */
  lemma NewClientMisreads(initial: nat, queueMode: bool, sleepHandler: bool, fallback: bool, script: seq<Move>)
    requires 2 <= initial <= 10
    ensures var c := Client(initial, queueMode, sleepHandler, fallback, script, Idle, false, false, false, true,
                            false, Reconnection.None, initial, [], []);
            Ready(c) && Misread in AfterCall(c, UpdateCall(WithServer, 120, false)).trace
  {
    hide AfterCall;
    var c := Client(initial, queueMode, sleepHandler, fallback, script, Idle, false, false, false, true,
                    false, Reconnection.None, initial, [], []);
    UpdateMisreadsExactly(c, WithServer, 120, false);
    var asked := UpdateAsked(Idle, true, 120);
    assert (c.trace + [asked] + [Misread])[1] == Misread;
  }

  // ----- unregistration

  lemma EventEnters(c: Client, s: State, data: EventData)
    requires Lawful(c) && Asked(c, s, data)
    ensures AfterEvent(c, s, data) == AfterState(c.(state := s), data)
  {
    hide RetriesTimed, Mindful, AfterState, Handled;
  }

  lemma RegisteredEnters(c: Client)
    requires Lawful(c)
    ensures AfterEvent(c, Registered, NoData) == AfterRegistered(c.(state := Registered))
  {
    hide RetriesTimed, Mindful, AfterRegistered, Handled, AfterEvent, Onward;
    EventEnters(c, Registered, NoData);
  }

  lemma UnregisterEnters(c: Client)
    requires Lawful(c)
    ensures AfterEvent(c, Unregister, NoData) == AfterUnregister(c.(state := Unregister))
  {
    hide RetriesTimed, Mindful, AfterUnregister, Handled, AfterEvent, Onward;
    EventEnters(c, Unregister, NoData);
  }

  lemma RegisterEnters(c: Client)
    requires Lawful(c)
    ensures AfterEvent(c, Register, NoData) == AfterRegister(c.(state := Register), NoData)
  {
    hide RetriesTimed, Mindful, AfterRegister, Handled, AfterEvent, Onward;
    EventEnters(c, Register, NoData);
  }

  lemma SendsUnregister(c: Client)
    requires Lawful(c) && c.state == Unregister
    ensures c.trace + [SendUnregister] <= AfterUnregister(c).trace
  {
    hide RetriesTimed, Mindful, AfterScript, AfterFailure, Handled;
  }

  lemma NextIs(t: seq<Happening>, all: seq<Happening>, x: Happening, y: Happening)
    requires t + [x] <= all
    ensures t + [y] <= all <==> y == x
  {
    assert all[|t|] == (t + [x])[|t|] == x;
    if t + [y] <= all {
      assert all[|t|] == (t + [y])[|t|];
    }
  }

  /** The client that registers sends the unregistration first, or notes that there was none to send. */
  lemma RegisteringSends(c: Client)
    requires Lawful(c)
    ensures var next := if c.reconnection.Unregistration? then SendUnregister else RegistrationHandled;
            c.trace + [next] <= AfterEvent(c, Registered, NoData).trace
  {
    hide RetriesTimed, Mindful, AfterEvent, Handled, AfterContinued;
    var entered := c.(state := Registered);
    RegisteredEnters(c);
    if c.reconnection.Unregistration? {
      RestartIsLawful(entered);
      ContinuedSends(Restart(entered).(reconnecting := false));
    }
  }

  lemma ContinuedSends(c: Client)
    requires Ready(c) && c.reconnection.Unregistration?
    ensures c.trace + [SendUnregister] <= AfterContinued(c).trace
  {
    hide RetriesTimed, Mindful, AfterUnregister, AfterEvent, Handled, Onward;
    UnregisterEnters(c);
    SendsUnregister(c.(state := Unregister));
  }

  /**
   * After any calls against any script, a client that is registered sends the unregistration exactly
   * when one failed and there has been no registration attempt, registration, update call, end of a
   * bootstrap or final error since.
   */
  lemma UnregistrationGoesOnExactly(c: Client, calls: seq<Call>)
    requires Ready(c)
    ensures var r := AfterCalls(c, calls);
            r.trace + [SendUnregister] <= AfterCall(r, ClientRegistered).trace <==> Remembered(r.trace)
  {
    hide RetriesTimed, AfterCalls, AfterCall, Remembered;
    var r := AfterCalls(c, calls);
    RegisteredNext(r);
    NextIs(r.trace, AfterCall(r, ClientRegistered).trace,
           if r.reconnection.Unregistration? then SendUnregister else RegistrationHandled, SendUnregister);
  }

  lemma RegisteredNext(c: Client)
    requires Ready(c)
    ensures var next := if c.reconnection.Unregistration? then SendUnregister else RegistrationHandled;
            c.trace + [next] <= AfterCall(c, ClientRegistered).trace
  {
    hide RetriesTimed, Mindful, AfterEvent, AfterForeign;
    RegisteringSends(c);
    assert AfterCall(c, ClientRegistered) == AfterClientRegistered(c);
    assert AfterClientRegistered(c) == AfterForeign(AfterEvent(c, Registered, NoData), ReportSuccess).client;
  }

  predicate NoNewFailure(trace: seq<Happening>, from: nat) {
    forall j :: from <= j < |trace| ==> !trace[j].UnregistrationFailed?
  }

  lemma RememberedSince(trace: seq<Happening>, i: nat)
    requires i < |trace| && trace[i].UnregistrationFailed? && NoNewFailure(trace, i + 1)
    ensures Remembered(trace) <==> NoneForgets(trace, i + 1)
  {
    hide Forgets;
    if Remembered(trace) {
      var k :| 0 <= k < |trace| && trace[k].UnregistrationFailed? && NoneForgets(trace, k + 1);
      assert k <= i;
    }
  }

  lemma FailureIsNoted(c: Client)
    requires Ready(c)
    ensures c.trace + [UnregistrationFailed] <= AfterCall(c, RegistrationError(true, true)).trace
  {
    hide RetriesTimed, Mindful, Awake, AfterSocketError, Handled;
    assert AfterCall(c, RegistrationError(true, true)) == AfterSocketError(Awake(c, true), SocketSendError, true);
  }

  /**
   * From a failed unregistration on, without a new one: the next registration sends it again exactly
   * when nothing that forgets it came between, whatever else was called or called back.
   */
  lemma ResumedAfterFailureExactly(c: Client, calls: seq<Call>)
    requires Ready(c)
    requires NoNewFailure(AfterCalls(AfterCall(c, RegistrationError(true, true)), calls).trace, |c.trace| + 1)
    ensures var r := AfterCalls(AfterCall(c, RegistrationError(true, true)), calls);
            r.trace + [SendUnregister] <= AfterCall(r, ClientRegistered).trace <==> NoneForgets(r.trace, |c.trace| + 1)
  {
    hide RetriesTimed, Mindful, AfterCalls, AfterCall, Remembered, NoNewFailure, NoneForgets;
    var failed := AfterCall(c, RegistrationError(true, true));
    FailureIsNoted(c);
    var r := AfterCalls(failed, calls);
    assert r.trace[|c.trace|] == failed.trace[|c.trace|] == (c.trace + [UnregistrationFailed])[|c.trace|];
    RememberedSince(r.trace, |c.trace|);
    UnregistrationGoesOnExactly(failed, calls);
  }

  lemma TimerIsCalled(c: Client)
    requires Ready(c)
    ensures AfterCall(c, TimerExpired(RetryTimer)) == AfterTimer(c, RetryTimer)
  {
    hide RetriesTimed, Mindful, AfterTimer, Onward, Resting;
  }

  lemma RetryEnters(c: Client)
    requires Ready(c)
    ensures AfterCall(c, TimerExpired(RetryTimer)) ==
            AfterEvent(c.(retryTimerExpired := true), if c.bootstrapped then Register else Bootstrap, NoData)
  {
    hide RetriesTimed, Mindful, AfterCall, AfterEvent, Handled, Onward, Resting;
    TimerIsCalled(c);
  }

  lemma FailureReports(c: Client)
    requires Lawful(c)
    ensures c.trace + [ReportError] <= AfterFailure(c).trace
  {
    hide RetriesTimed, Mindful, AfterScript, Handled;
  }

  lemma BootstrapEnters(c: Client)
    requires Lawful(c)
    ensures AfterEvent(c, Bootstrap, NoData) == AfterBootstrap(c.(state := Bootstrap), NoData)
  {
    hide RetriesTimed, Mindful, AfterBootstrap, Handled, AfterEvent, Onward;
    EventEnters(c, Bootstrap, NoData);
  }

  /** A retry starts with a registration attempt exactly when the client is bootstrapped and has its security object. */
  lemma RetryForgetsExactly(c: Client)
    requires Ready(c)
    ensures c.trace + [ResolveServer] <= AfterCall(c, TimerExpired(RetryTimer)).trace <==> c.bootstrapped && c.security
  {
    hide RetriesTimed, Mindful, AfterEvent, AfterCall, Handled;
    var c1 := c.(retryTimerExpired := true);
    RetryEnters(c);
    var next: Happening;
    if c.bootstrapped {
      RegisterEnters(c1);
      RegisterNext(c1.(state := Register));
      next := if c.security then ResolveServer else ReportError;
    } else {
      BootstrapEnters(c1);
      BootstrapNext(c1.(state := Bootstrap));
      next := if c.security then ResolveBootstrapServer else ReportError;
    }
    NextIs(c.trace, AfterCall(c, TimerExpired(RetryTimer)).trace, next, ResolveServer);
  }

  lemma RegisterNext(c: Client)
    requires Lawful(c) && c.state == Register
    ensures c.trace + [if c.security then ResolveServer else ReportError] <= AfterRegister(c, NoData).trace
  {
    hide RetriesTimed, Mindful, AfterScript, AfterFailure, Handled;
    if !c.security {
      FailureReports(c);
    }
  }

  lemma BootstrapNext(c: Client)
    requires Lawful(c) && c.state == Bootstrap
    ensures c.trace + [if c.security then ResolveBootstrapServer else ReportError] <= AfterBootstrap(c, NoData).trace
  {
    hide RetriesTimed, Mindful, AfterScript, AfterFailure, Handled;
    if !c.security {
      FailureReports(c.(bootstrapped := false));
    }
  }

  /** So a failed unregistration that is retried is lost: the registration after the retry does not send it. */
  lemma RetriedUnregistrationIsLost(c: Client, before: seq<Call>, failed: Client, after: seq<Call>, r: Client)
    requires Ready(c) && failed == AfterCalls(AfterCall(c, RegistrationError(true, true)), before)
    requires r == AfterCalls(AfterCall(failed, TimerExpired(RetryTimer)), after)
    requires failed.bootstrapped && failed.security && NoNewFailure(r.trace, |failed.trace|)
    ensures !(r.trace + [SendUnregister] <= AfterCall(r, ClientRegistered).trace)
  {
    hide RetriesTimed, Mindful, AfterCalls, AfterCall, Remembered;
    RetryForgetsExactly(failed);
    UnregistrationGoesOnExactly(AfterCall(failed, TimerExpired(RetryTimer)), after);
    ForgottenBy(r.trace, |failed.trace|);
  }

  lemma ForgottenBy(trace: seq<Happening>, i: nat)
    requires i < |trace| && Forgets(trace[i]) && NoNewFailure(trace, i)
    ensures !Remembered(trace)
  {
  }
}
