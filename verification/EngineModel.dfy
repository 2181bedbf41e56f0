/** The states of the client, where it may rest, and the law of its retry times. */
module EngineModel {
  import opened Bytes

  /** The states in the order of the source's enumeration. */
  datatype State =
    | Idle | Bootstrap | BootstrapAddressResolved | BootstrapResourceCreated | BootstrapWait | BootstrapErrorWait
    | Bootstrapped | Register | RegisterAddressResolved | Registered | UpdateRegistration
    | Unregister | Unregistered | SendingCoapData | CoapDataSent | CoapDataReceived
    | ProcessingCoapData | CoapDataProcessed | Waiting

  /** The states the client can be left in; the others are only passed through. */
  predicate Resting(s: State) {
    match s
    case SendingCoapData | CoapDataSent | CoapDataReceived | ProcessingCoapData | CoapDataProcessed
       | Unregister | Unregistered => false
    case _ => true
  }

  /** How many further events a state can raise by itself. */
  function Rank(s: State): (n: nat) {
    match s
    case Registered => 3
    case RegisterAddressResolved | Unregister | CoapDataReceived => 2
    case Bootstrap | BootstrapAddressResolved | Register | UpdateRegistration | Unregistered
       | SendingCoapData | CoapDataSent | ProcessingCoapData | CoapDataProcessed => 1
    case _ => 0
  }

  /** States whose function calls no foreign code, so that their outcome is fixed. */
  predicate Silent(s: State) {
    match s
    case Bootstrap | BootstrapAddressResolved | Register | RegisterAddressResolved | Registered
       | UpdateRegistration | Unregister | CoapDataReceived => false
    case _ => true
  }

  /** Where a silent state leads. */
  function RestOf(s: State): (r: State)
    requires Silent(s)
    ensures Resting(r)
  {
    match s
    case SendingCoapData | CoapDataSent | ProcessingCoapData | CoapDataProcessed => Waiting
    case Unregistered => Idle
    case _ => s
  }

  datatype Reconnection = None | WithUpdate | FullRegistration | Unregistration

  /** The transition maps of the public calls; `None` is an ignored event. */
  function BootstrapMap(s: State): (next: Option<State>) {
    if s.Idle? || s.Bootstrapped? then Some(Bootstrap) else Option.None
  }

  function RegisterMap(s: State): (next: Option<State>) {
    if s.Idle? || s.Bootstrapped? || s.Registered? || s.Waiting? then Some(Register) else Option.None
  }

  function UnregisterMap(s: State): (next: Option<State>) {
    match s
    case Registered | UpdateRegistration | SendingCoapData | CoapDataSent | CoapDataReceived
       | ProcessingCoapData | CoapDataProcessed | Waiting => Some(Unregister)
    case _ => Option.None
  }

  function UpdateMap(s: State): (next: Option<State>) {
    if s.Idle? then Some(Register)
    else if s.Registered? || s.Waiting? then Some(UpdateRegistration)
    else Option.None
  }

  datatype SocketError =
    | NoError | SslConnectionError | SocketReadError | SocketSendError | SocketAbort
    | DnsResolvingError | SslHandshakeError | SslPeerClosed

  /** The errors that `socket_error` reports to the application. */
  predicate Reported(e: SocketError) {
    !e.NoError? && !e.SslPeerClosed?
  }

  // ----- retry times

  /** The retry timer is armed, or the retry time starts over. */
  datatype Retry = Armed(seconds: nat) | Restarted

  const MAX_RECONNECT_TIMEOUT := 604800

  function Pow2(k: nat): (p: nat)
    ensures p >= 1
  {
    if k == 0 then 1 else 2 * Pow2(k - 1)
  }

  /** The time of the `k`-th retry since the last start. */
  function RetryTime(initial: nat, k: nat): (n: nat) {
    var t := initial * Pow2(k);
    if t < MAX_RECONNECT_TIMEOUT then t else MAX_RECONNECT_TIMEOUT
  }

  /** How often the timer was armed since the last start. */
  function Since(history: seq<Retry>): (n: nat) {
    if history == [] || history[|history| - 1].Restarted? then 0
    else Since(history[..|history| - 1]) + 1
  }

  /** Every arming used the time that its number since the last start demands. */
  predicate Timed(initial: nat, history: seq<Retry>) {
    forall i :: 0 <= i < |history| && history[i].Armed? ==>
      history[i].seconds == RetryTime(initial, Since(history[..i]))
  }

  /** The last `k` records are armings, and before them the times start over. */
  lemma {:induction false} SinceCounts(history: seq<Retry>, k: nat)
    ensures Since(history) == k <==>
            && k <= |history|
            && (forall i :: |history| - k <= i < |history| ==> history[i].Armed?)
            && (k == |history| || history[|history| - k - 1].Restarted?)
    decreases |history|
  {
    if history != [] && history[|history| - 1].Armed? {
      var rest := history[..|history| - 1];
      if k > 0 {
        SinceCounts(rest, k - 1);
      }
    }
  }

  lemma TimesDouble(initial: nat, k: nat)
    ensures initial * Pow2(k + 1) == 2 * (initial * Pow2(k))
  {
    var p := Pow2(k);
    assert Pow2(k + 1) == 2 * p;
    assert initial * (2 * p) == 2 * (initial * p);
  }

  /** Doubling with the cap goes from one retry time to the next. */
  lemma NextRetryTime(initial: nat, k: nat)
    ensures var t := 2 * RetryTime(initial, k);
            RetryTime(initial, k + 1) == if t >= MAX_RECONNECT_TIMEOUT then MAX_RECONNECT_TIMEOUT else t
  {
    TimesDouble(initial, k);
  }

  lemma TimedSnoc(initial: nat, history: seq<Retry>, r: Retry)
    requires Timed(initial, history)
    requires r.Armed? ==> r.seconds == RetryTime(initial, Since(history))
    ensures Timed(initial, history + [r])
    ensures Since(history + [r]) == if r.Armed? then Since(history) + 1 else 0
  {
    hide RetryTime, Since;
    var all := history + [r];
    assert all[..|history|] == history && all[|history|] == r;
    assert forall i :: 0 <= i < |history| ==> all[..i] == history[..i] && all[i] == history[i];
    SinceSnoc(history, r);
  }

  lemma SinceSnoc(history: seq<Retry>, r: Retry)
    ensures Since(history + [r]) == if r.Armed? then Since(history) + 1 else 0
  {
    assert (history + [r])[..|history|] == history;
  }
}
