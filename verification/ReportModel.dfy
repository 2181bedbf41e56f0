/**
 * The observation report handler of `m2mreporthandler.cpp` as a state and functions on it. The methods
 * of `ReportHandlers` are proved against these. Floating-point values are modelled as reals.
 */
module ReportModel {
  /** The write attributes; a `has` flag is a bit of `_attribute_state`. */
  datatype Attributes = Attributes(
    hasPmin: bool, hasPmax: bool, hasLt: bool, hasGt: bool, hasSt: bool,
    pmin: int, pmax: int, lt: real, gt: real, st: real)

  const DEFAULTS := Attributes(false, false, false, false, false, 1, -1, 0.0, 0.0, 0.0)

  /** What happened to a handler, in order. `Sent` is a call of `observation_to_be_sent`. */
  datatype Record =
    | Updated(value: real)
    | Triggered(id: nat)
    | PMinExpired
    | PMaxExpired
    | Sent(ids: seq<nat>, number: nat, whole: bool)
    | Reset

  datatype Handler = Handler(
    attrs: Attributes,
    underObservation: bool,
    notify: bool,
    pminExceeded: bool,
    pmaxExceeded: bool,
    number: nat,
    pminTimer: bool,
    pmaxTimer: bool,
    current: real,
    high: real,
    low: real,
    last: real,
    changed: seq<nat>,
    log: seq<Record>)

  const NEW_HANDLER := Handler(DEFAULTS, false, false, false, false, 0, false, false, 0.0, 0.0, 0.0, -1.0, [], [])

  /** The observation number is a 24-bit counter that skips 1. */
  function NextNumber(n: nat): (count: nat) {
    var k := (n + 1) % 0x100_0000;
    if k == 1 then 2 else k
  }

  /** `handle_timers`. */
  function HandleTimers(h: Handler): (after: Handler) {
    var h1 :=
      if !h.attrs.hasPmin then h
      else if h.attrs.pmin == h.attrs.pmax then h.(pminExceeded := true)
      else h.(pminExceeded := false, pminTimer := true);
    if h.attrs.hasPmax && h.attrs.pmax > 0 then h1.(pmaxTimer := true) else h1
  }

  /** A notification goes out with the changed ids and the low 16 bits of the new number. */
  function Send(h: Handler, whole: bool): (after: Handler) {
    var n := NextNumber(h.number);
    h.(number := n, changed := [], log := h.log + [Sent(h.changed, n % 0x1_0000, whole)])
  }

  predicate Pending(h: Handler) {
    h.current != h.last && h.notify
  }

  /** The branch of `report` that sends a pending change. */
  function SendChange(h: Handler): (after: Handler) {
    Send(h.(pminExceeded := false, pmaxExceeded := false, notify := false), false).(pmaxTimer := false)
  }

  /** `report`. */
  function Report(h: Handler): (after: Handler) {
    var h1 :=
      if Pending(h) then SendChange(h)
      else if h.pmaxExceeded then Send(h, true)
      else h;
    var h2 := HandleTimers(h1);
    h2.(last := h2.current)
  }

  /** `schedule_report`. */
  function ScheduleReport(h: Handler): (after: Handler) {
    var h1 := h.(notify := true);
    if !h.attrs.hasPmin || h.pminExceeded then Report(h1) else h1
  }

  /** `check_gt_lt_params`. */
  predicate GtLtAccepts(a: Attributes, v: real) {
    if a.hasLt && a.hasGt then v > a.gt || v < a.lt
    else if a.hasLt then v < a.lt
    else if a.hasGt then v > a.gt
    else true
  }

  /** `check_threshold_values`. */
  predicate ThresholdAccepts(h: Handler) {
    var a := h.attrs;
    if a.hasSt then
      h.current >= h.high || h.current <= h.low ||
      ((a.hasLt || a.hasGt) && GtLtAccepts(a, h.current))
    else GtLtAccepts(a, h.current)
  }

  predicate HasThreshold(a: Attributes) {
    a.hasLt || a.hasGt || a.hasSt
  }

  /** The branch of `set_value` for a value that no threshold lets through. */
  function Withhold(h: Handler): (after: Handler) {
    var h1 := h.(notify := false, last := h.current);
    if HasThreshold(h.attrs) then h1.(pminTimer := false, pminExceeded := true) else h1
  }

  /** `set_value`. */
  function SetValue(h: Handler, v: real): (after: Handler) {
    var h1 := h.(current := v, log := h.log + [Updated(v)]);
    if v == h.last then h1
    else
      var h2 := if ThresholdAccepts(h1) then ScheduleReport(h1) else Withhold(h1);
      h2.(high := h2.current + h2.attrs.st, low := h2.current - h2.attrs.st)
  }

  /** `set_notification_trigger`. */
  function SetTrigger(h: Handler, id: nat): (after: Handler) {
    var changed := if id in h.changed then h.changed else h.changed + [id];
    ScheduleReport(h.(changed := changed, current := 0.0, last := 1.0, log := h.log + [Triggered(id)]))
  }

  /** `timer_expired` for the pmin timer, which is single shot. */
  function PMinTimeout(h: Handler): (after: Handler) {
    var h1 := h.(pminTimer := false, pminExceeded := true, log := h.log + [PMinExpired]);
    if h.notify || (h.attrs.pmin > 0 && !h.attrs.hasPmax) then Report(h1) else h1
  }

  /** `timer_expired` for the pmax timer, which is single shot. */
  function PMaxTimeout(h: Handler): (after: Handler) {
    var h1 := h.(pmaxTimer := false, pmaxExceeded := true, log := h.log + [PMaxExpired]);
    if h.pminExceeded || !h.attrs.hasPmin then Report(h1) else h1
  }

  /** `set_default_values`. */
  function SetDefaults(h: Handler): (after: Handler) {
    h.(attrs := DEFAULTS, high := 0.0, low := 0.0, pminExceeded := false, pmaxExceeded := false,
       last := -1.0, changed := [], log := h.log + [Reset])
  }

  /** `set_under_observation`. */
  function SetUnderObservation(h: Handler, observed: bool): (after: Handler) {
    var h1 := h.(underObservation := observed, pminExceeded := false, pminTimer := false,
                 pmaxExceeded := false, pmaxTimer := false);
    if observed then HandleTimers(h1) else SetDefaults(h1)
  }

  // ----- attribute writes

  /** One `name=value` of a write-attributes query; `Malformed` has an unknown name or no value. */
  datatype Assignment =
    | Pmin(period: int) | Pmax(period: int)
    | Gt(level: real) | Lt(level: real) | St(step: real)
    | Malformed

  /** `set_notification_attribute`: whether it succeeds, and the handler it leaves either way. */
  datatype Written = Written(handler: Handler, success: bool)

  function Assign(h: Handler, w: Assignment, isResource: bool, numeric: bool): (out: Written) {
    var a := h.attrs;
    var known := w.Pmin? || w.Pmax? || (isResource && !w.Malformed?);
    var h1 :=
      if !known then h
      else match w
        case Pmin(v) => h.(attrs := a.(pmin := v, hasPmin := true))
        case Pmax(v) => h.(attrs := a.(pmax := v, hasPmax := true))
        case Gt(v) => h.(attrs := a.(gt := v, hasGt := true))
        case Lt(v) => h.(attrs := a.(lt := v, hasLt := true))
        case St(v) => h.(attrs := a.(st := v, hasSt := true), high := h.current + v, low := h.current - v)
        case Malformed => h;
    Written(h1, known && (numeric || !HasThreshold(h1.attrs)))
  }

  /** The options of one query, applied until one fails. */
  function AssignAll(h: Handler, ws: seq<Assignment>, isResource: bool, numeric: bool): (out: Written)
    decreases |ws|
  {
    if ws == [] then Written(h, true)
    else
      var first := Assign(h, ws[0], isResource, numeric);
      if first.success then AssignAll(first.handler, ws[1..], isResource, numeric) else first
  }

  /** `check_attribute_validity`. */
  predicate ValidAttributes(a: Attributes) {
    && !(a.hasPmax && a.pmax >= -1 && a.pmin > a.pmax)
    && !(a.hasGt && a.lt + 2.0 * a.st >= a.gt)
  }

  /** Only the first five options of a query are looked at. */
  function FirstFive(ws: seq<Assignment>): (kept: seq<Assignment>) {
    if |ws| <= 5 then ws else ws[..5]
  }

  /** A write-attributes query: a single option, or several around `&` separators. */
  datatype Query = Single(option: Assignment) | Several(options: seq<Assignment>) {
    function Considered(): (ws: seq<Assignment>) {
      if Single? then [option] else FirstFive(options)
    }
  }

  /**
   * `parse_notification_attribute`. A failing option among several puts the old attributes back;
   * attributes that were all set but do not fit together stay.
   */
  function ParseAttributes(h: Handler, q: Query, isResource: bool, numeric: bool): (out: Written) {
    var w := AssignAll(h, q.Considered(), isResource, numeric);
    if w.success then Written(w.handler, ValidAttributes(w.handler.attrs))
    else if q.Several? then Written(w.handler.(attrs := h.attrs, high := h.high, low := h.low), false)
    else w
  }

  /** `handle_observation_attribute` of the node that owns the handler. */
  function WriteAttributes(h: Handler, q: Query, isResource: bool, numeric: bool): (after: Handler) {
    var w := ParseAttributes(h, q, isResource, numeric);
    if !w.success then SetDefaults(w.handler)
    else if w.handler.underObservation then SetUnderObservation(w.handler, true)
    else w.handler
  }

  // ----- runs

  datatype Event =
    | Update(value: real)
    | Trigger(id: nat)
    | ExpirePMin
    | ExpirePMax
    | Observe(on: bool)
    | Write(query: Query, isResource: bool, numeric: bool)

  function Step(h: Handler, e: Event): (after: Handler) {
    match e
    case Update(v) => SetValue(h, v)
    case Trigger(id) => SetTrigger(h, id)
    case ExpirePMin => PMinTimeout(h)
    case ExpirePMax => PMaxTimeout(h)
    case Observe(on) => SetUnderObservation(h, on)
    case Write(q, isResource, numeric) => WriteAttributes(h, q, isResource, numeric)
  }

  function Run(h: Handler, es: seq<Event>): (after: Handler)
    decreases |es|
  {
    if es == [] then h else Step(Run(h, es[..|es| - 1]), es[|es| - 1])
  }

  /** Events that leave the attributes and the observation alone. */
  predicate Reporting(e: Event) {
    e.Update? || e.Trigger? || e.ExpirePMin? || e.ExpirePMax?
  }

  predicate AllReporting(es: seq<Event>) {
    forall i :: 0 <= i < |es| ==> Reporting(es[i])
  }
}
