/**
 * What each event does to a report handler, in terms of its log, its attributes and its timers,
 * and the simple reporter that it is while pmin is unset.
 */
module ReportEvents {
  import opened ReportModel

  /** A value that is let through: it leaves the step band or crosses a limit, or there is neither. */
  predicate LetThrough(a: Attributes, high: real, low: real, v: real) {
    || (a.hasSt && (v >= high || v <= low))
    || (a.hasLt && v < a.lt)
    || (a.hasGt && v > a.gt)
    || (!a.hasSt && !a.hasLt && !a.hasGt)
  }

  /** No pmin holds a notification back. */
  predicate Open(h: Handler) {
    !h.attrs.hasPmin || h.pminExceeded
  }

  function Following(number: nat): (next: nat) {
    var n := (number + 1) % 0x100_0000;
    if n == 1 then 2 else n
  }

  /** Exactly one notification followed these records, with these ids. */
  predicate Sends(before: Handler, after: Handler, first: seq<Record>, ids: seq<nat>, whole: bool) {
    && after.log == before.log + first + [Sent(ids, Following(before.number) % 0x1_0000, whole)]
    && after.number == Following(before.number)
    && after.changed == [] && after.last == after.current
  }

  /** Only these records were made. */
  predicate Silent(before: Handler, after: Handler, first: seq<Record>) {
    after.log == before.log + first && after.number == before.number
  }

  /** A notification of a change starts both timers afresh. */
  predicate Restarted(a: Attributes, r: Handler) {
    && (r.pmaxTimer <==> a.hasPmax && a.pmax > 0)
    && (a.hasPmin && a.pmin != a.pmax ==> r.pminTimer && !r.pminExceeded)
    && (a.hasPmin && a.pmin == a.pmax ==> r.pminExceeded)
    && !r.notify && !r.pmaxExceeded
  }

  // ----- `report`

  /** What `report` does: it sends a change, or the whole after a pmax expiry, or nothing, and sets the timers. */
  lemma ReportExactly(h: Handler)
    ensures var r, a := Report(h), h.attrs;
            && r.attrs == a && r.current == h.current && r.last == h.current && r.high == h.high && r.low == h.low
            && (Pending(h) ==> Sends(h, r, [], h.changed, false) && Restarted(a, r))
            && (!Pending(h) && h.pmaxExceeded ==> Sends(h, r, [], h.changed, true))
            && (!Pending(h) && !h.pmaxExceeded ==> Silent(h, r, []) && r.changed == h.changed)
            && (!Pending(h) ==> r.notify == h.notify && (r.pmaxTimer <==> h.pmaxTimer || (a.hasPmax && a.pmax > 0)))
            && (r.pminTimer <==> h.pminTimer || (a.hasPmin && a.pmin != a.pmax))
  {
    hide HandleTimers;
    var h1 := if Pending(h) then SendChange(h) else if h.pmaxExceeded then Send(h, true) else h;
    TimersExactly(h1);
    assert h.log + [] == h.log;
  }

  lemma TimersExactly(h: Handler)
    ensures var r, a := HandleTimers(h), h.attrs;
            && r == h.(pminTimer := r.pminTimer, pmaxTimer := r.pmaxTimer, pminExceeded := r.pminExceeded)
            && (r.pminTimer <==> h.pminTimer || (a.hasPmin && a.pmin != a.pmax))
            && (r.pmaxTimer <==> h.pmaxTimer || (a.hasPmax && a.pmax > 0))
            && (r.pminExceeded <==> if a.hasPmin then a.pmin == a.pmax else h.pminExceeded)
  {
  }

  /** The records made before `report`. */
  lemma Recorded(h: Handler, h1: Handler, record: Record, r: Handler)
    requires h1.log == h.log + [record] && h1.number == h.number
    ensures forall ids, whole :: Sends(h1, r, [], ids, whole) ==> Sends(h, r, [record], ids, whole)
    ensures Silent(h1, r, []) ==> Silent(h, r, [record])
  {
    assert h1.log + [] == h1.log;
  }

  // ----- timers

  /** The expiry of pmax sends what there is, exactly unless pmin still holds it back, and pmax runs again. */
  lemma PMaxExpiry(h: Handler)
    ensures var r := Step(h, ExpirePMax);
            && r.attrs == h.attrs && r.current == h.current && r.high == h.high && r.low == h.low
            && (Open(h) ==> Sends(h, r, [PMaxExpired], h.changed, !Pending(h)))
            && (!Open(h) ==> Silent(h, r, [PMaxExpired]) && r.changed == h.changed && r.pmaxExceeded)
            && (r.pmaxTimer <==> Open(h) && h.attrs.hasPmax && h.attrs.pmax > 0)
            && (!h.attrs.hasPmin ==> r.pminTimer == h.pminTimer)
  {
    hide Report, Sends, Silent;
    var h1 := h.(pmaxTimer := false, pmaxExceeded := true, log := h.log + [PMaxExpired]);
    ReportExactly(h1);
    Recorded(h, h1, PMaxExpired, Report(h1));
    Recorded(h, h1, PMaxExpired, h1);
    NothingSent(h1);
  }

  lemma NothingSent(h: Handler)
    ensures Silent(h, h, [])
  {
  }

  /** The expiry of pmin sends a pending change, or the whole value after a pmax expiry. */
  lemma PMinExpiry(h: Handler)
    ensures var r := Step(h, ExpirePMin);
            var reports := h.notify || (h.attrs.pmin > 0 && !h.attrs.hasPmax);
            && r.attrs == h.attrs && r.current == h.current
            && (reports && Pending(h) ==> Sends(h, r, [PMinExpired], h.changed, false) && Restarted(h.attrs, r))
            && (reports && !Pending(h) && h.pmaxExceeded ==> Sends(h, r, [PMinExpired], h.changed, true))
            && (!reports || (!Pending(h) && !h.pmaxExceeded) ==>
                  Silent(h, r, [PMinExpired]) && r.changed == h.changed)
            && (!reports ==> r.pminExceeded && r.last == h.last)
            && (r.pminTimer <==> reports && h.attrs.hasPmin && h.attrs.pmin != h.attrs.pmax)
            && (!Pending(h) ==> h.pmaxTimer ==> r.pmaxTimer)
  {
    hide Report, Sends, Silent, Restarted;
    var h1 := h.(pminTimer := false, pminExceeded := true, log := h.log + [PMinExpired]);
    ReportExactly(h1);
    Recorded(h, h1, PMinExpired, Report(h1));
    Recorded(h, h1, PMinExpired, h1);
    NothingSent(h1);
  }

  /** An observation starts the timers and sends nothing; its end leaves the defaults and no timer. */
  lemma ObservationSwitch(h: Handler, on: bool)
    ensures var r, a := Step(h, Observe(on)), h.attrs;
            && r.underObservation == on && r.number == h.number && !r.pmaxExceeded && r.notify == h.notify
            && (on ==>
                  && r.log == h.log && r.attrs == a && r.changed == h.changed && r.last == h.last
                  && (r.pminTimer <==> a.hasPmin && a.pmin != a.pmax)
                  && (r.pmaxTimer <==> a.hasPmax && a.pmax > 0)
                  && (r.pminExceeded <==> a.hasPmin && a.pmin == a.pmax))
            && (!on ==>
                  && r.log == h.log + [Reset] && !r.pminTimer && !r.pmaxTimer && !r.pminExceeded
                  && r.attrs == Attributes(false, false, false, false, false, 1, -1, 0.0, 0.0, 0.0)
                  && r.changed == [] && r.last == -1.0 && r.high == 0.0 && r.low == 0.0)
  {
  }

  // ----- values and triggers

  /** A change of this handler is sent at once exactly if nothing holds it back, and waits otherwise. */
  lemma ChangeExactly(h: Handler)
    requires h.current != h.last
    ensures var r := ScheduleReport(h);
            && r.attrs == h.attrs && r.current == h.current && r.high == h.high && r.low == h.low
            && (Open(h) ==> Sends(h, r, [], h.changed, false) && Restarted(h.attrs, r))
            && (!Open(h) ==> Silent(h, r, []) && r.changed == h.changed && Pending(r) && r.pminTimer == h.pminTimer)
            && (!h.attrs.hasPmin ==> r.pminTimer == h.pminTimer)
  {
    hide Report, Restarted;
    ReportExactly(h.(notify := true));
    assert h.log + [] == h.log;
  }

  /** A new value that is let through is sent at once exactly if nothing holds it back, and waits otherwise. */
  lemma ValueUpdate(h: Handler, v: real)
    ensures var r := Step(h, Update(v));
            var through := v != h.last && LetThrough(h.attrs, h.high, h.low, v);
            && r.attrs == h.attrs && r.current == v
            && (through && Open(h) ==> Sends(h, r, [Updated(v)], h.changed, false) && Restarted(h.attrs, r))
            && (!through || !Open(h) ==> Silent(h, r, [Updated(v)]) && r.changed == h.changed)
            && (through && !Open(h) ==> Pending(r) && r.pminTimer == h.pminTimer)
            && (v != h.last && !through ==>
                  !r.notify && r.last == v && r.pminExceeded && !r.pminTimer && r.pmaxTimer == h.pmaxTimer)
            && (v == h.last ==> r == h.(current := v, log := h.log + [Updated(v)]))
            && (v != h.last ==> r.high == v + h.attrs.st && r.low == v - h.attrs.st)
            && (!h.attrs.hasPmin && !h.pminTimer ==> !r.pminTimer)
  {
    hide ScheduleReport, Withhold, ThresholdAccepts;
    var h1 := h.(current := v, log := h.log + [Updated(v)]);
    NothingSent(h1);
    Recorded(h, h1, Updated(v), h1);
    AcceptedExactly(h1);
    if v != h.last {
      ChangeExactly(h1);
      WithheldExactly(h1);
      Recorded(h, h1, Updated(v), ScheduleReport(h1));
      Recorded(h, h1, Updated(v), Withhold(h1));
    }
  }

  lemma AcceptedExactly(h: Handler)
    ensures ThresholdAccepts(h) <==> LetThrough(h.attrs, h.high, h.low, h.current)
  {
  }

  lemma WithheldExactly(h: Handler)
    ensures var r := Withhold(h);
            && Silent(h, r, []) && r.attrs == h.attrs && r.current == h.current && r.changed == h.changed
            && !r.notify && r.last == h.current && r.pmaxTimer == h.pmaxTimer
            && (!LetThrough(h.attrs, h.high, h.low, h.current) ==> r.pminExceeded && !r.pminTimer)
  {
    assert h.log + [] == h.log;
  }

  /** A trigger adds its id once and is sent with all that wait exactly if nothing holds it back. */
  lemma TriggerUpdate(h: Handler, id: nat)
    ensures var r := Step(h, Trigger(id));
            var ids := if id in h.changed then h.changed else h.changed + [id];
            && r.attrs == h.attrs && r.current == 0.0 && r.high == h.high && r.low == h.low
            && (Open(h) ==> Sends(h, r, [Triggered(id)], ids, false) && Restarted(h.attrs, r))
            && (!Open(h) ==>
                  Silent(h, r, [Triggered(id)]) && r.changed == ids && Pending(r) && r.pminTimer == h.pminTimer)
            && (!h.attrs.hasPmin ==> r.pminTimer == h.pminTimer)
  {
    hide ScheduleReport;
    var ids := if id in h.changed then h.changed else h.changed + [id];
    var h1 := h.(changed := ids, current := 0.0, last := 1.0, log := h.log + [Triggered(id)]);
    ChangeExactly(h1);
    Recorded(h, h1, Triggered(id), ScheduleReport(h1));
  }

  // ----- a handler without pmin is a simple reporter

  /** All that a reporter without pmin remembers. */
  datatype Reporter = Reporter(current: real, last: real, high: real, low: real, number: nat, changed: seq<nat>)

  function ReporterOf(h: Handler): (p: Reporter) {
    Reporter(h.current, h.last, h.high, h.low, h.number, h.changed)
  }

  /** Whether the event is notified, and with which ids. */
  predicate Notified(a: Attributes, p: Reporter, e: Event) {
    e.Update? ==> e.value != p.last && LetThrough(a, p.high, p.low, e.value)
  }

  function Waiting(p: Reporter, e: Event): (ids: seq<nat>) {
    if e.Trigger? && e.id !in p.changed then p.changed + [e.id] else p.changed
  }

  /** What the event records: itself, and directly after it the notification if there is one. */
  function Records(a: Attributes, p: Reporter, e: Event): (records: seq<Record>)
    requires e.Update? || e.Trigger? || e.ExpirePMax?
  {
    [match e
     case Update(v) => Updated(v)
     case Trigger(id) => Triggered(id)
     case ExpirePMax => PMaxExpired] +
    if Notified(a, p, e) then [Sent(Waiting(p, e), Following(p.number) % 0x1_0000, e.ExpirePMax?)] else []
  }

  function Reported(a: Attributes, p: Reporter, e: Event): (after: Reporter) {
    var v := if e.Update? then e.value else if e.Trigger? then 0.0 else p.current;
    var p1 := p.(current := v, last := v);
    var p2 := if Notified(a, p, e) then p1.(number := Following(p.number), changed := []) else p1;
    if e.Update? && v != p.last then p2.(high := v + a.st, low := v - a.st) else p2
  }

  /** The events of an observation without pmin, whose pmin timer never runs. */
  predicate Unlimited(es: seq<Event>) {
    forall i :: 0 <= i < |es| ==> es[i].Update? || es[i].Trigger? || es[i].ExpirePMax?
  }

  function ReportAll(a: Attributes, p: Reporter, es: seq<Event>): (after: Reporter)
    decreases |es|
  {
    if es == [] then p else Reported(a, ReportAll(a, p, es[..|es| - 1]), es[|es| - 1])
  }

  function AllRecords(a: Attributes, p: Reporter, es: seq<Event>): (records: seq<Record>)
    requires Unlimited(es)
    decreases |es|
  {
    if es == [] then []
    else
      var before := es[..|es| - 1];
      AllRecords(a, p, before) + Records(a, ReportAll(a, p, before), es[|es| - 1])
  }

  /** pmin is unset, no change waits, and pmax, if there is one, is running. */
  predicate Free(h: Handler) {
    && !h.attrs.hasPmin && !h.pminTimer && !Pending(h)
    && (h.pmaxTimer <==> h.attrs.hasPmax && h.attrs.pmax > 0)
  }

  lemma FreeStep(h: Handler, e: Event)
    requires Free(h) && (e.Update? || e.Trigger? || e.ExpirePMax?)
    ensures var r := Step(h, e);
            && Free(r) && r.attrs == h.attrs
            && ReporterOf(r) == Reported(h.attrs, ReporterOf(h), e)
            && r.log == h.log + Records(h.attrs, ReporterOf(h), e)
  {
    hide Step, LetThrough, Following;
    match e
    case Update(v) => ValueUpdate(h, v);
    case Trigger(id) => TriggerUpdate(h, id);
    case ExpirePMax => PMaxExpiry(h);
  }

  /** Without pmin the whole run is that of the simple reporter, and pmax never stops running. */
  lemma {:induction false} FreeRun(h: Handler, es: seq<Event>)
    requires Free(h) && Unlimited(es)
    ensures var r := Run(h, es);
            && Free(r) && r.attrs == h.attrs
            && ReporterOf(r) == ReportAll(h.attrs, ReporterOf(h), es)
            && r.log == h.log + AllRecords(h.attrs, ReporterOf(h), es)
    decreases |es|
  {
    if es != [] {
      var before, e := es[..|es| - 1], es[|es| - 1];
      FreeRun(h, before);
      FreeStep(Run(h, before), e);
    }
  }

  // ----- nothing waits without pmin

  /** Every pmax expiry and every trigger from here on is followed directly by a notification. */
  predicate Prompt(log: seq<Record>, from: nat) {
    forall i :: from <= i < |log| && (log[i].PMaxExpired? || log[i].Triggered?) ==> i + 1 < |log| && log[i + 1].Sent?
  }

  predicate PMaxRuns(h: Handler) {
    h.attrs.hasPmax && h.attrs.pmax > 0 ==> h.pmaxTimer
  }

  lemma PromptAfter(h: Handler, record: Record, r: Handler, from: nat)
    requires Prompt(h.log, from)
    ensures forall ids, whole :: Sends(h, r, [record], ids, whole) ==> Prompt(r.log, from)
    ensures Silent(h, r, [record]) && !record.PMaxExpired? && !record.Triggered? ==> Prompt(r.log, from)
  {
    forall ids, whole | Sends(h, r, [record], ids, whole)
      ensures Prompt(r.log, from)
    {
      assert r.log == h.log + [record, Sent(ids, Following(h.number) % 0x1_0000, whole)];
    }
  }

  lemma PromptStep(h: Handler, e: Event, from: nat)
    requires !h.attrs.hasPmin && Reporting(e) && Prompt(h.log, from)
    ensures var r := Step(h, e);
            r.attrs == h.attrs && Prompt(r.log, from) && (PMaxRuns(h) ==> PMaxRuns(r))
  {
    hide Step, Prompt, Sends, Silent, LetThrough;
    var r := Step(h, e);
    match e
    case Update(v) =>
      ValueUpdate(h, v);
      PromptAfter(h, Updated(v), r, from);
    case Trigger(id) =>
      TriggerUpdate(h, id);
      PromptAfter(h, Triggered(id), r, from);
    case ExpirePMin =>
      PMinExpiry(h);
      PromptAfter(h, PMinExpired, r, from);
    case ExpirePMax =>
      PMaxExpiry(h);
      PromptAfter(h, PMaxExpired, r, from);
  }

  /** While pmin is unset every pmax expiry is answered by a notification, whatever else happens, and pmax runs on. */
  lemma {:induction false} PromptRun(h: Handler, es: seq<Event>)
    requires !h.attrs.hasPmin && AllReporting(es)
    ensures var r := Run(h, es);
            r.attrs == h.attrs && Prompt(r.log, |h.log|) && (PMaxRuns(h) ==> PMaxRuns(r))
    decreases |es|
  {
    if es != [] {
      var before, e := es[..|es| - 1], es[|es| - 1];
      PromptRun(h, before);
      PromptStep(Run(h, before), e, |h.log|);
    }
  }

  /** The same from the start of an observation. */
  lemma ObservedPrompt(h: Handler, es: seq<Event>)
    requires !h.attrs.hasPmin && AllReporting(es)
    ensures var r := Run(Step(h, Observe(true)), es);
            Prompt(r.log, |h.log|) && PMaxRuns(r)
    ensures !Pending(h) && Unlimited(es) ==>
              Run(Step(h, Observe(true)), es).log == h.log + AllRecords(h.attrs, ReporterOf(h), es)
  {
    hide Run, Step;
    ObservationSwitch(h, true);
    var o := Step(h, Observe(true));
    PromptRun(o, es);
    if !Pending(h) && Unlimited(es) {
      ObservedReporter(h);
      FreeRun(o, es);
    }
  }

  lemma ObservedReporter(h: Handler)
    requires !h.attrs.hasPmin && !Pending(h)
    ensures Free(Step(h, Observe(true))) && ReporterOf(Step(h, Observe(true))) == ReporterOf(h)
  {
  }

  // ----- attribute writes

  predicate Known(w: Assignment, isResource: bool) {
    w.Pmin? || w.Pmax? || (isResource && !w.Malformed?)
  }

  predicate Threshold(w: Assignment) {
    w.Gt? || w.Lt? || w.St?
  }

  predicate SameKind(w: Assignment, u: Assignment) {
    match w
    case Pmin(_) => u.Pmin?
    case Pmax(_) => u.Pmax?
    case Gt(_) => u.Gt?
    case Lt(_) => u.Lt?
    case St(_) => u.St?
    case Malformed => u.Malformed?
  }

  /** The attribute that the option names is set, to the option's value. */
  predicate InForce(a: Attributes, w: Assignment) {
    match w
    case Pmin(v) => a.hasPmin && a.pmin == v
    case Pmax(v) => a.hasPmax && a.pmax == v
    case Gt(v) => a.hasGt && a.gt == v
    case Lt(v) => a.hasLt && a.lt == v
    case St(v) => a.hasSt && a.st == v
    case Malformed => true
  }

  predicate NoneLike(ws: seq<Assignment>, w: Assignment) {
    forall j :: 0 <= j < |ws| ==> !SameKind(w, ws[j])
  }

  /** The last option of each kind is in force. */
  predicate LastInForce(ws: seq<Assignment>, r: Attributes) {
    forall i :: 0 <= i < |ws| && NoneLike(ws[i + 1..], ws[i]) ==> InForce(r, ws[i])
  }

  /** An attribute that no option names is as before. */
  predicate OthersKept(ws: seq<Assignment>, a: Attributes, r: Attributes) {
    && (NoneLike(ws, Pmin(0)) ==> r.hasPmin == a.hasPmin && r.pmin == a.pmin)
    && (NoneLike(ws, Pmax(0)) ==> r.hasPmax == a.hasPmax && r.pmax == a.pmax)
    && (NoneLike(ws, Gt(0.0)) ==> r.hasGt == a.hasGt && r.gt == a.gt)
    && (NoneLike(ws, Lt(0.0)) ==> r.hasLt == a.hasLt && r.lt == a.lt)
    && (NoneLike(ws, St(0.0)) ==> r.hasSt == a.hasSt && r.st == a.st)
  }

  predicate Results(ws: seq<Assignment>, a: Attributes, r: Attributes) {
    LastInForce(ws, r) && OthersKept(ws, a, r)
  }

  lemma NoneCons(w: Assignment, rest: seq<Assignment>, k: Assignment)
    ensures NoneLike([w] + rest, k) <==> !SameKind(k, w) && NoneLike(rest, k)
  {
    hide SameKind;
    var ws := [w] + rest;
    assert ws[0] == w;
    assert forall j :: 0 <= j < |rest| ==> rest[j] == ws[j + 1];
  }

  lemma NoneIn(w: Assignment)
    ensures NoneLike([], w)
  {
  }

  lemma NoneOfKind(ws: seq<Assignment>, w: Assignment, u: Assignment)
    requires SameKind(w, u)
    ensures NoneLike(ws, w) <==> NoneLike(ws, u)
  {
  }

  /** The options that are taken: known ones, and thresholds only for a number. */
  predicate Taken(a: Attributes, ws: seq<Assignment>, isResource: bool, numeric: bool) {
    && (forall i :: 0 <= i < |ws| ==> Known(ws[i], isResource))
    && (ws == [] || numeric ||
        (!a.hasGt && !a.hasLt && !a.hasSt && forall i :: 0 <= i < |ws| ==> !Threshold(ws[i])))
  }

  /** Only the attributes and the step band differ. */
  predicate OnlyAttributes(h: Handler, r: Handler) {
    r == h.(attrs := r.attrs, high := r.high, low := r.low)
  }

  predicate SetsStep(ws: seq<Assignment>) {
    exists i :: 0 <= i < |ws| && ws[i].St?
  }

  /** A step set by an option lies around the current value. */
  predicate BandSet(ws: seq<Assignment>, h: Handler, r: Handler) {
    && (SetsStep(ws) ==> r.high == h.current + r.attrs.st && r.low == h.current - r.attrs.st)
    && (!SetsStep(ws) ==> r.high == h.high && r.low == h.low && r.attrs.st == h.attrs.st)
  }

  lemma AssignedOne(h: Handler, w: Assignment, isResource: bool, numeric: bool)
    ensures var out := Assign(h, w, isResource, numeric);
            && OnlyAttributes(h, out.handler)
            && (out.success <==> Taken(h.attrs, [w], isResource, numeric))
            && (out.success ==>
                  && Results([w], h.attrs, out.handler.attrs) && InForce(out.handler.attrs, w)
                  && BandSet([w], h, out.handler))
  {
    hide Results, BandSet, Taken;
    TakenOne(h.attrs, w, isResource, numeric);
    var out := Assign(h, w, isResource, numeric);
    if out.success {
      AssignedChanges(h, w, isResource, numeric);
      ResultsOne(w, h.attrs, out.handler.attrs);
      BandOne(h, w, isResource, numeric);
    }
  }

  /** Only the attribute that the option names has changed. */
  predicate OnlyThis(w: Assignment, a: Attributes, r: Attributes) {
    r == match w
         case Pmin(_) => a.(pmin := r.pmin, hasPmin := r.hasPmin)
         case Pmax(_) => a.(pmax := r.pmax, hasPmax := r.hasPmax)
         case Gt(_) => a.(gt := r.gt, hasGt := r.hasGt)
         case Lt(_) => a.(lt := r.lt, hasLt := r.hasLt)
         case St(_) => a.(st := r.st, hasSt := r.hasSt)
         case Malformed => a
  }

  lemma AssignedChanges(h: Handler, w: Assignment, isResource: bool, numeric: bool)
    requires Known(w, isResource)
    ensures var r := Assign(h, w, isResource, numeric).handler.attrs;
            InForce(r, w) && OnlyThis(w, h.attrs, r)
  {
  }

  lemma TakenOne(a: Attributes, w: Assignment, isResource: bool, numeric: bool)
    ensures Taken(a, [w], isResource, numeric) <==>
              Known(w, isResource) && (numeric || (!a.hasGt && !a.hasLt && !a.hasSt && !Threshold(w)))
  {
    assert [w][0] == w;
  }

  lemma ResultsOne(w: Assignment, a: Attributes, r: Attributes)
    requires InForce(r, w) && OnlyThis(w, a, r)
    ensures Results([w], a, r)
  {
    assert LastInForce([w], r) by { hide InForce, NoneLike; assert [w][0] == w; }
    hide NoneLike, InForce;
    assert [w] + [] == [w];
    NoneCons(w, [], Pmin(0));
    NoneCons(w, [], Pmax(0));
    NoneCons(w, [], Gt(0.0));
    NoneCons(w, [], Lt(0.0));
    NoneCons(w, [], St(0.0));
  }

  lemma BandOne(h: Handler, w: Assignment, isResource: bool, numeric: bool)
    requires Known(w, isResource)
    ensures BandSet([w], h, Assign(h, w, isResource, numeric).handler)
  {
    assert [w][0] == w;
  }

  /** Later options of other kinds leave it in force. */
  lemma StaysInForce(w: Assignment, rest: seq<Assignment>, b: Attributes, c: Attributes)
    requires InForce(b, w) && OthersKept(rest, b, c) && NoneLike(rest, w)
    ensures InForce(c, w)
  {
    hide NoneLike;
    var k := match w
      case Pmin(_) => Pmin(0)
      case Pmax(_) => Pmax(0)
      case Gt(_) => Gt(0.0)
      case Lt(_) => Lt(0.0)
      case St(_) => St(0.0)
      case Malformed => Malformed;
    NoneOfKind(rest, w, k);
  }

  lemma ResultsCons(w: Assignment, rest: seq<Assignment>, a: Attributes, b: Attributes, c: Attributes)
    requires InForce(b, w) && Results([w], a, b) && Results(rest, b, c)
    ensures Results([w] + rest, a, c)
  {
    InForceCons(w, rest, b, c);
    KeptCons(w, rest, a, b, c);
    hide LastInForce, OthersKept;
  }

  lemma InForceCons(w: Assignment, rest: seq<Assignment>, b: Attributes, c: Attributes)
    requires InForce(b, w) && Results(rest, b, c)
    ensures LastInForce([w] + rest, c)
  {
    hide InForce, NoneLike, OthersKept;
    var ws := [w] + rest;
    forall i | 0 <= i < |ws| && NoneLike(ws[i + 1..], ws[i])
      ensures InForce(c, ws[i])
    {
      if i == 0 {
        assert ws[1..] == rest;
        StaysInForce(w, rest, b, c);
      } else {
        assert ws[i] == rest[i - 1] && ws[i + 1..] == rest[i - 1 + 1..];
      }
    }
  }

  lemma KeptCons(w: Assignment, rest: seq<Assignment>, a: Attributes, b: Attributes, c: Attributes)
    requires OthersKept([w], a, b) && OthersKept(rest, b, c)
    ensures OthersKept([w] + rest, a, c)
  {
    hide NoneLike, SameKind;
    forall k
      ensures NoneLike([w] + rest, k) ==> NoneLike([w], k) && NoneLike(rest, k)
    {
      NoneCons(w, rest, k);
      NoneCons(w, [], k);
      NoneIn(k);
      assert [w] + [] == [w];
    }
  }

  lemma BandCons(w: Assignment, rest: seq<Assignment>, h: Handler, h1: Handler, r: Handler)
    requires BandSet([w], h, h1) && BandSet(rest, h1, r) && h1.current == h.current
    ensures BandSet([w] + rest, h, r)
  {
    var ws := [w] + rest;
    assert ws[0] == [w][0] == w;
    assert forall i :: 0 <= i < |ws| ==> ws[i] == if i == 0 then w else rest[i - 1];
    assert forall i :: 0 <= i < |rest| ==> rest[i] == ws[i + 1];
  }

  lemma TakenCons(a: Attributes, b: Attributes, ws: seq<Assignment>, isResource: bool, numeric: bool)
    requires ws != [] && Results(ws[..1], a, b) && Taken(a, ws[..1], isResource, numeric)
    ensures Taken(a, ws, isResource, numeric) <==> Taken(b, ws[1..], isResource, numeric)
  {
  }

  lemma {:induction false} AssignedAll(h: Handler, ws: seq<Assignment>, isResource: bool, numeric: bool)
    ensures var out := AssignAll(h, ws, isResource, numeric);
            && OnlyAttributes(h, out.handler)
            && (out.success <==> Taken(h.attrs, ws, isResource, numeric))
            && (out.success ==> Results(ws, h.attrs, out.handler.attrs) && BandSet(ws, h, out.handler))
    decreases |ws|
  {
    hide Assign, Taken, Results, BandSet;
    if ws == [] {
      TakesNone(h, isResource, numeric);
    } else {
      var first := Assign(h, ws[0], isResource, numeric);
      AssignedOne(h, ws[0], isResource, numeric);
      assert ws == [ws[0]] + ws[1..] && ws[..1] == [ws[0]];
      if first.success {
        AssignedAll(first.handler, ws[1..], isResource, numeric);
        TakenCons(h.attrs, first.handler.attrs, ws, isResource, numeric);
        if Taken(h.attrs, ws, isResource, numeric) {
          ResultsCons(ws[0], ws[1..], h.attrs, first.handler.attrs,
                      AssignAll(first.handler, ws[1..], isResource, numeric).handler.attrs);
          BandCons(ws[0], ws[1..], h, first.handler, AssignAll(first.handler, ws[1..], isResource, numeric).handler);
        }
      } else {
        NotTaken(h.attrs, ws, isResource, numeric);
      }
    }
  }

  lemma TakesNone(h: Handler, isResource: bool, numeric: bool)
    ensures Taken(h.attrs, [], isResource, numeric) && Results([], h.attrs, h.attrs) && BandSet([], h, h)
  {
  }

  lemma NotTaken(a: Attributes, ws: seq<Assignment>, isResource: bool, numeric: bool)
    requires ws != [] && !Taken(a, [ws[0]], isResource, numeric)
    ensures !Taken(a, ws, isResource, numeric)
  {
  }

  /** The last option of the kind of the one at i. */
  lemma {:induction false} FindLast(ws: seq<Assignment>, i: nat) returns (k: nat)
    requires i < |ws|
    ensures i <= k < |ws| && SameKind(ws[i], ws[k]) && NoneLike(ws[k + 1..], ws[k])
    decreases |ws| - i
  {
    if NoneLike(ws[i + 1..], ws[i]) {
      k := i;
    } else {
      var j :| 0 <= j < |ws[i + 1..]| && SameKind(ws[i], ws[i + 1..][j]);
      k := FindLast(ws, i + 1 + j);
    }
  }

  /** The attribute of this kind is the same. */
  predicate SameIn(w: Assignment, r: Attributes, r': Attributes) {
    match w
    case Pmin(_) => r.hasPmin == r'.hasPmin && r.pmin == r'.pmin
    case Pmax(_) => r.hasPmax == r'.hasPmax && r.pmax == r'.pmax
    case Gt(_) => r.hasGt == r'.hasGt && r.gt == r'.gt
    case Lt(_) => r.hasLt == r'.hasLt && r.lt == r'.lt
    case St(_) => r.hasSt == r'.hasSt && r.st == r'.st
    case Malformed => true
  }

  /** A named attribute is decided by the last option that names it. */
  lemma NamedUnique(ws: seq<Assignment>, w: Assignment, r: Attributes, r': Attributes)
    requires LastInForce(ws, r) && LastInForce(ws, r') && !NoneLike(ws, w)
    ensures SameIn(w, r, r')
  {
    var i :| 0 <= i < |ws| && SameKind(w, ws[i]);
    var k := FindLast(ws, i);
    assert InForce(r, ws[k]) && InForce(r', ws[k]);
  }

  /** The options leave no choice of the attributes. */
  lemma ResultsUnique(ws: seq<Assignment>, a: Attributes, r: Attributes, r': Attributes)
    requires Results(ws, a, r) && Results(ws, a, r')
    ensures r == r'
  {
    hide LastInForce, NoneLike;
    forall w | !NoneLike(ws, w)
      ensures SameIn(w, r, r')
    {
      NamedUnique(ws, w, r, r');
    }
    assert NoneLike(ws, Pmin(0)) || SameIn(Pmin(0), r, r');
    assert NoneLike(ws, Pmax(0)) || SameIn(Pmax(0), r, r');
    assert NoneLike(ws, Gt(0.0)) || SameIn(Gt(0.0), r, r');
    assert NoneLike(ws, Lt(0.0)) || SameIn(Lt(0.0), r, r');
    assert NoneLike(ws, St(0.0)) || SameIn(St(0.0), r, r');
  }

  /** pmin does not exceed pmax, and two steps fit between the limits. */
  predicate FitTogether(a: Attributes) {
    && (a.hasPmax && a.pmax >= -1 ==> a.pmin <= a.pmax)
    && (a.hasGt ==> a.lt + 2.0 * a.st < a.gt)
  }

  /** The options of a query that count. */
  function FirstOptions(q: Query): (ws: seq<Assignment>) {
    if q.Single? then [q.option] else if |q.options| <= 5 then q.options else q.options[..5]
  }

  lemma WriteSucceeds(h: Handler, q: Query, isResource: bool, numeric: bool, a: Attributes)
    requires Results(FirstOptions(q), h.attrs, a)
    ensures var w := ParseAttributes(h, q, isResource, numeric);
            && OnlyAttributes(h, w.handler)
            && (w.success <==> Taken(h.attrs, FirstOptions(q), isResource, numeric) && FitTogether(a))
            && (w.success ==> w.handler.attrs == a && BandSet(FirstOptions(q), h, w.handler))
  {
    hide Taken, Results, AssignAll, BandSet;
    var ws := FirstOptions(q);
    AssignedAll(h, ws, isResource, numeric);
    if Taken(h.attrs, ws, isResource, numeric) {
      ResultsUnique(ws, h.attrs, a, AssignAll(h, ws, isResource, numeric).handler.attrs);
    }
  }

  /** Of several options, one that is not taken undoes those before it. */
  lemma UntakenIsUndone(h: Handler, q: Query, isResource: bool, numeric: bool)
    requires q.Several? && !Taken(h.attrs, FirstOptions(q), isResource, numeric)
    ensures ParseAttributes(h, q, isResource, numeric) == Written(h, false)
  {
    hide Taken, AssignAll;
    AssignedAll(h, FirstOptions(q), isResource, numeric);
  }

  lemma ObservationKeepsBand(ws: seq<Assignment>, h: Handler, h1: Handler)
    requires BandSet(ws, h, h1)
    ensures var r := SetUnderObservation(h1, true);
            BandSet(ws, h, r) && r.current == h1.current && r.notify == h1.notify
  {
    hide SetsStep;
  }

  /**
   * A write of attributes: taken options that fit together replace exactly the attributes they name and
   * start the timers of an observation afresh; anything else resets them all.
   */
  lemma WriteExactly(h: Handler, q: Query, isResource: bool, numeric: bool, a: Attributes)
    requires Results(FirstOptions(q), h.attrs, a)
    ensures var r := Step(h, Write(q, isResource, numeric));
            r.number == h.number && r.current == h.current && r.notify == h.notify
    ensures var r := Step(h, Write(q, isResource, numeric));
            if Taken(h.attrs, FirstOptions(q), isResource, numeric) && FitTogether(a) then
              && r.attrs == a && r.log == h.log && r.changed == h.changed && r.last == h.last
              && BandSet(FirstOptions(q), h, r)
              && (h.underObservation ==>
                    && (r.pminTimer <==> a.hasPmin && a.pmin != a.pmax)
                    && (r.pmaxTimer <==> a.hasPmax && a.pmax > 0))
              && (!h.underObservation ==> r.pminTimer == h.pminTimer && r.pmaxTimer == h.pmaxTimer)
            else
              && r.attrs == Attributes(false, false, false, false, false, 1, -1, 0.0, 0.0, 0.0)
              && r.log == h.log + [Reset] && r.changed == [] && r.last == -1.0 && r.high == 0.0 && r.low == 0.0
              && r.pminTimer == h.pminTimer && r.pmaxTimer == h.pmaxTimer
  {
    hide Taken, Results, ParseAttributes, FitTogether, FirstOptions, SetUnderObservation, BandSet;
    WriteSucceeds(h, q, isResource, numeric, a);
    var w := ParseAttributes(h, q, isResource, numeric);
    assert Step(w.handler, Observe(true)) == SetUnderObservation(w.handler, true);
    ObservationSwitch(w.handler, true);
    if w.success {
      ObservationKeepsBand(FirstOptions(q), h, w.handler);
    }
  }
}
