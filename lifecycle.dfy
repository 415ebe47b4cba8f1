/**
 * The per-field validation lifecycle as functions on a snapshot of
 * everything it changes: the instance's `value`, `previousValue` and
 * `state`, its two timer ids and the timers the host still has scheduled,
 * the remote calls still outstanding, the field's and submit control's
 * marks, the shared cache's entries, and the trace of what it did outward.
 *
 * Timers and remote calls are explicit: scheduling a timer adds a pending
 * entry that a later host step fires, and a remote call is a pending
 * request that a later host step resolves or rejects. The class in
 * `Validator` runs the same steps on its fields and is proved to agree.
 */
module Lifecycle {
  import opened Optional
  import opened States
  import opened ResultCache
  import EmailPattern

  // ---------------------------------------------------------------------------
  // Values of the source

  /** `String(x)` for the field value; an unset value reads as "undefined". */
  function ToJsString(o: Option<string>): string {
    match o
    case None => "undefined"
    case Some(s) => s
  }

  /** The key `processCache` reads: `this.email`, which nothing assigns. */
  const EmailKey: string := ToJsString(None)

  /** A remote call still outstanding: the value it was given, and which callbacks wait on it. */
  datatype Request = Request(arg: Option<string>, runWaiting: bool, submitWaiting: bool)

  /** What the lifecycle does that the page or its user can see. */
  datatype Event =
    | ValidateCall              // `validate` was entered
    | RemoteCall(arg: Option<string>)  // the `remoteValidate` option was called
    | FormSubmitted             // the form went through (a submit carrying `evPlugin`)
    | SubmitNotified            // `femm/submit` was triggered on the form
    | FieldFocused              // the field was given the focus
    | StateFault                // `setState` threw 'Not allowed value of state'

  /** What `run`, `validate` and `remoteValidate` hand back to their caller. */
  datatype Reply =
    | Returned                  // `undefined`: nothing was started
    | Settled(v: JsValue)       // a deferred already resolved with `v`
    | Awaiting(id: nat)         // the deferred of remote request `id`
    | Thrown                    // an exception left the call

  /** How many times `validate` was entered. */
  function Validations(trace: seq<Event>): nat {
    multiset(trace)[ValidateCall]
  }

  // ---------------------------------------------------------------------------
  // Marks

  /**
   * The field's `--valid`, `--invalid` and `--loading` marks, its `disabled`
   * property, and the submit control's `Submit--disabled` mark.
   */
  datatype Marks = Marks(valid: bool, invalid: bool, loading: bool, fieldDisabled: bool, submitDisabled: bool)
  {
    /** `setInValid`: the field's `disabled` property is left as it is. */
    function Invalidated(): Marks {
      this.(valid := false, invalid := true, loading := false, submitDisabled := true)
    }

    /** `setValid` */
    function Validated(): Marks {
      this.(valid := true, invalid := false, loading := false, fieldDisabled := false, submitDisabled := false)
    }

    /** `resetState` */
    function Cleared(): Marks {
      this.(valid := false, invalid := false, loading := false, fieldDisabled := false, submitDisabled := false)
    }

    /** The marks `setPendingState` adds. */
    function Loading(): Marks {
      this.(loading := true, fieldDisabled := true)
    }

    /** Submit is disabled exactly when the field is marked invalid, and never valid and invalid at once. */
    predicate Consistent() {
      submitDisabled == invalid && !(valid && invalid)
    }
  }

  const NoMarks := Marks(false, false, false, false, false)

  /** The marks after `setState(v)`. */
  function Shown(v: JsValue, m: Marks): (r: Marks)
    ensures v == JsFalse ==> r.invalid && !r.valid && !r.loading && r.submitDisabled && r.fieldDisabled == m.fieldDisabled
    ensures v == JsTrue ==> r.valid && !r.invalid && !r.loading && !r.fieldDisabled && !r.submitDisabled
    ensures v == JsNull ==> r == m
    ensures v == JsUndefined || v == JsOther ==> r == NoMarks
    ensures v != JsNull ==> r.Consistent()
    ensures m.Consistent() ==> r.Consistent()
  {
    match v
    case JsFalse => m.Invalidated()
    case JsTrue => m.Validated()
    case JsNull => m
    case _ => m.Cleared()
  }

  /** The state `setState(v)` leaves: the one `v` encodes, or `Undefined` once the fault path ran. */
  function StateAfter(v: JsValue): (s: State)
    ensures v != JsOther ==> Encode(s) == v
    ensures v == JsOther ==> s == Undefined
  {
    match Decode(v)
    case Some(s) => s
    case None => Undefined
  }

  // ---------------------------------------------------------------------------
  // Timers

  function Ids(o: Option<nat>): set<nat> {
    match o
    case None => {}
    case Some(t) => {t}
  }

  /**
   * `blurTimeoutId` and `keyupTimer`, the blur and reset timers the host
   * still has scheduled, and the next id `setTimeout` hands out.
   */
  datatype Timers = Timers(blurId: Option<nat>, keyupId: Option<nat>, blurPending: set<nat>, resetPending: set<nat>, next: nat)
  {
    /** Every id was handed out already, and only the latest keyup timer can be pending. */
    ghost predicate Valid() {
      (forall t :: t in Ids(blurId) ==> t < next) &&
      (forall t :: t in Ids(keyupId) ==> t < next) &&
      (forall t :: t in blurPending ==> t < next) &&
      resetPending <= Ids(keyupId)
    }

    /** `clearBlurTimeout`: cancels the blur timer whose id was kept last. */
    function CancelBlur(): (t: Timers)
      ensures Valid() ==> t.Valid()
      ensures t.blurPending == blurPending - Ids(blurId)
    {
      this.(blurPending := blurPending - Ids(blurId))
    }

    /** `clearTimeout(keyupTimer)` */
    function CancelReset(): (t: Timers)
      ensures Valid() ==> t.Valid() && t.resetPending == {}
    {
      this.(resetPending := resetPending - Ids(keyupId))
    }

    /** `blurTimeoutId = setTimeout(run, blurDelay)`: the id kept before is overwritten. */
    function ScheduleBlur(): (t: Timers)
      ensures Valid() ==> t.Valid() && next !in blurPending
      ensures t.blurPending == blurPending + {next} && t.blurId == Some(next)
    {
      this.(blurId := Some(next), blurPending := blurPending + {next}, next := next + 1)
    }

    /** `keyupTimer = setTimeout(resetState, keyupResetDelay)` */
    function ScheduleReset(): (t: Timers)
      ensures Valid() && resetPending == {} ==> t.Valid() && t.resetPending == {next}
    {
      this.(keyupId := Some(next), resetPending := resetPending + {next}, next := next + 1)
    }

    /** The host fires a scheduled blur timer. */
    function FireBlur(id: nat): (t: Timers)
      requires id in blurPending
      ensures Valid() ==> t.Valid()
      ensures t.blurPending == blurPending - {id}
    {
      this.(blurPending := blurPending - {id})
    }

    /** The host fires the scheduled reset timer. */
    function FireReset(id: nat): (t: Timers)
      requires id in resetPending
      ensures Valid() ==> t.Valid() && t.resetPending == {}
    {
      this.(resetPending := resetPending - {id})
    }
  }

  const NoTimers := Timers(None, None, {}, {}, 0)

  /** Two blurs in a row, then a focus: the first blur's timer is still scheduled. */
  lemma SecondBlurLeaksFirstTimer(t: Timers)
    requires t.Valid()
    ensures var u := t.ScheduleBlur().ScheduleBlur().CancelBlur();
      t.next in u.blurPending && t.next + 1 !in u.blurPending
  {
  }

  /** A focus right after a blur leaves the scheduled blur timers as they were before the blur. */
  lemma FocusCancelsBlur(t: Timers)
    requires t.Valid()
    ensures t.ScheduleBlur().CancelBlur().blurPending == t.blurPending
  {
    assert t.next !in t.blurPending;
  }

  /** Keyup restarts the reset timer: only the newest one is ever scheduled. */
  lemma KeyupRestartsReset(t: Timers)
    requires t.Valid()
    ensures t.CancelReset().ScheduleReset().resetPending == {t.next}
    ensures |t.resetPending| <= 1
  {
    if t.keyupId.Some? {
      assert t.resetPending == {} || t.resetPending == {t.keyupId.value};
    }
  }

  // ---------------------------------------------------------------------------
  // The snapshot

  datatype Core = Core(
    value: Option<string>,
    previousValue: Option<string>,
    state: State,
    timers: Timers,
    requests: map<nat, Request>,
    nextRequest: nat,
    marks: Marks,
    cache: map<string, JsValue>,
    trace: seq<Event>)
  {
    /** Timer ids are well kept and every outstanding request id was handed out. */
    ghost predicate Valid() {
      timers.Valid() && forall id :: id in requests ==> id < nextRequest
    }
  }

  // ---------------------------------------------------------------------------
  // Steps

  /** `setState(v)`: on a value that is no state it resets, forces `Undefined` and throws. */
  function SetStateStep(c: Core, v: JsValue): (d: Core)
    ensures d.state == StateAfter(v) && d.marks == Shown(v, c.marks)
    ensures d.trace == c.trace + (if v == JsOther then [StateFault] else [])
    ensures d.(state := c.state, marks := c.marks, trace := c.trace) == c
  {
    c.(state := StateAfter(v), marks := Shown(v, c.marks), trace := c.trace + (if v == JsOther then [StateFault] else []))
  }

  /**
   * `remoteValidate`: Pending is set before the injected validator is
   * called with the current value. A missing `remoteValidate` option is the
   * default one, which throws.
   */
  function RemoteValidateStep(c: Core, remote: bool): (res: (Core, Reply))
    ensures res.0.state == Pending && res.0.marks == c.marks.Loading()
    ensures res.0.trace == c.trace + [RemoteCall(c.value)]
    ensures res.0.cache == c.cache && res.0.value == c.value && res.0.previousValue == c.previousValue
    ensures res.0.timers == c.timers
    ensures remote ==> (res.1 == Awaiting(c.nextRequest) && res.0.nextRequest == c.nextRequest + 1 &&
      res.0.requests == c.requests[c.nextRequest := Request(c.value, false, false)])
    ensures !remote ==> res.1 == Thrown && res.0.requests == c.requests && res.0.nextRequest == c.nextRequest
    // the request in flight records the value the remote validator was called with
    ensures res.1.Awaiting? ==> res.0.trace == c.trace + [RemoteCall(res.0.requests[res.1.id].arg)]
    ensures c.Valid() ==> res.0.Valid()
  {
    var pending := c.(state := Pending, marks := c.marks.Loading(), trace := c.trace + [RemoteCall(c.value)]);
    if !remote then (pending, Thrown)
    else
      (pending.(requests := c.requests[c.nextRequest := Request(c.value, false, false)], nextRequest := c.nextRequest + 1),
       Awaiting(c.nextRequest))
  }

  /** `validate`: a value the pattern rejects resolves `false` at once; any other goes remote. */
  function ValidateStep(c: Core, remote: bool): (res: (Core, Reply))
    ensures !EmailPattern.Matches(ToJsString(c.value)) ==>
      res == (c.(trace := c.trace + [ValidateCall]), Settled(JsFalse))
    ensures EmailPattern.Matches(ToJsString(c.value)) ==>
      res == RemoteValidateStep(c.(trace := c.trace + [ValidateCall]), remote)
    ensures res.1.Awaiting? ==> res.1.id in res.0.requests
    ensures c.Valid() ==> res.0.Valid()
  {
    var entered := c.(trace := c.trace + [ValidateCall]);
    if EmailPattern.Matches(ToJsString(c.value)) then RemoteValidateStep(entered, remote)
    else (entered, Settled(JsFalse))
  }

  /**
   * `processCache`: the entry under `this.email` (which nothing assigns, so
   * the key is "undefined") is applied and handed back as already resolved.
   */
  function ProcessCacheStep(c: Core): (res: (Core, Reply))
    ensures res.0 == SetStateStep(c, Lookup(c.cache, "undefined"))
    ensures res.1 == (if Lookup(c.cache, "undefined") == JsOther then Thrown else Settled(Lookup(c.cache, "undefined")))
    ensures c.Valid() ==> res.0.Valid()
  {
    var v := Lookup(c.cache, EmailKey);
    (SetStateStep(c, v), if v == JsOther then Thrown else Settled(v))
  }

  /**
   * The cache-miss branch of `run`: `validate`, and attach the callback that
   * caches the result under the value and applies it.
   */
  function ValidateThenCacheStep(c: Core, text: string, remote: bool): (res: (Core, Reply))
    requires c.value == Some(text)
    // the pattern fails: Invalid at once, `false` cached, no remote call
    ensures !EmailPattern.Matches(text) ==>
      res.1 == Settled(JsFalse) && res.0.state == Invalid && res.0.marks == c.marks.Invalidated() &&
      res.0.cache == c.cache[text := JsFalse] && res.0.trace == c.trace + [ValidateCall] &&
      res.0.requests == c.requests && res.0.nextRequest == c.nextRequest
    // the pattern holds: Pending, one remote call, nothing cached yet
    ensures EmailPattern.Matches(text) ==>
      res.0.state == Pending && res.0.marks == c.marks.Loading() && res.0.cache == c.cache &&
      res.0.trace == c.trace + [ValidateCall, RemoteCall(Some(text))] &&
      (remote ==> res.1 == Awaiting(c.nextRequest) && res.0.nextRequest == c.nextRequest + 1 &&
                  res.0.requests == c.requests[c.nextRequest := Request(Some(text), true, false)]) &&
      (!remote ==> res.1 == Thrown && res.0.requests == c.requests && res.0.nextRequest == c.nextRequest)
    ensures res.0.value == c.value && res.0.previousValue == c.previousValue && res.0.timers == c.timers
    ensures res.1.Awaiting? ==> res.1.id in res.0.requests
    ensures c.Valid() ==> res.0.Valid()
  {
    var validated := ValidateStep(c, remote);
    match validated.1
    case Settled(v) =>
      (SetStateStep(validated.0.(cache := validated.0.cache[text := v]), v), if v == JsOther then Thrown else Settled(v))
    case Awaiting(id) =>
      var waiting := validated.0.requests[id].(runWaiting := true);
      (validated.0.(requests := validated.0.requests[id := waiting]), validated.1)
    case _ => validated
  }

  /** The field's value differs from the one validated last, and no validation is outstanding. */
  predicate RoundStarts(c: Core, text: string) {
    c.previousValue != Some(text) && c.state != Pending
  }

  /**
   * `run`, with `text` the field's current value and `remote` whether the
   * `remoteValidate` option was supplied.
   */
  function RunStep(c: Core, text: string, remote: bool): (res: (Core, Reply))
    // the latest blur timer is cancelled and the field value read, always
    ensures res.0.timers == c.timers.CancelBlur()
    ensures res.0.value == Some(text) && res.0.previousValue == Some(text)
    // an unchanged value, or a validation outstanding: nothing else happens
    ensures !RoundStarts(c, text) ==> (res.1 == Returned &&
      res.0 == c.(timers := c.timers.CancelBlur(), value := Some(text), previousValue := Some(text)))
    // a cache hit applies the entry under `EmailKey`, at once, without validating
    ensures RoundStarts(c, text) && text in c.cache ==>
      var v := Lookup(c.cache, EmailKey);
      res.0.state == StateAfter(v) && res.0.marks == Shown(v, c.marks) &&
      res.0.trace == c.trace + (if v == JsOther then [StateFault] else []) &&
      res.0.cache == c.cache && res.0.requests == c.requests && res.0.nextRequest == c.nextRequest &&
      res.1 == (if v == JsOther then Thrown else Settled(v))
    // the pattern fails: Invalid at once, `false` cached, no remote call
    ensures RoundStarts(c, text) && text !in c.cache && !EmailPattern.Matches(text) ==>
      res.1 == Settled(JsFalse) && res.0.state == Invalid && res.0.marks == c.marks.Invalidated() &&
      res.0.cache == c.cache[text := JsFalse] && res.0.trace == c.trace + [ValidateCall] &&
      res.0.requests == c.requests && res.0.nextRequest == c.nextRequest
    // the pattern holds: Pending, one remote call, nothing cached yet
    ensures RoundStarts(c, text) && text !in c.cache && EmailPattern.Matches(text) ==>
      res.0.state == Pending && res.0.marks == c.marks.Loading() && res.0.cache == c.cache &&
      res.0.trace == c.trace + [ValidateCall, RemoteCall(Some(text))] &&
      (remote ==> res.1 == Awaiting(c.nextRequest) && res.0.nextRequest == c.nextRequest + 1 &&
                  res.0.requests == c.requests[c.nextRequest := Request(Some(text), true, false)]) &&
      (!remote ==> res.1 == Thrown && res.0.requests == c.requests && res.0.nextRequest == c.nextRequest)
    ensures res.1.Awaiting? ==> res.1.id in res.0.requests
    ensures c.Valid() ==> res.0.Valid()
  {
    var read := c.(timers := c.timers.CancelBlur(), value := Some(text));
    if c.previousValue == Some(text) then (read, Returned)
    else
      var changed := read.(previousValue := Some(text));
      StateNames();
      if IsState(changed.state, "pending") then (changed, Returned)
      else if text in changed.cache then ProcessCacheStep(changed)
      else ValidateThenCacheStep(changed, text, remote)
  }

  // ---------------------------------------------------------------------------
  // Submit

  /** What `resolveStateOnSubmit` does with a state. */
  datatype Verdict = Resubmit | Refocus | Hold

  /** Valid and Undefined let the form through, Invalid focuses the field, Pending does nothing. */
  function VerdictFor(s: State): (d: Verdict)
    ensures d == Resubmit <==> s == Valid || s == Undefined
    ensures d == Refocus <==> s == Invalid
    ensures d == Hold <==> s == Pending
  {
    StateNames();
    if IsState(s, "valid") || IsState(s, "undefined") then Resubmit
    else if IsState(s, "invalid") then Refocus
    else Hold
  }

  /** The submit handler on a submit that carries `evPlugin`: the form goes through. */
  function PassSubmitStep(c: Core): (d: Core)
    ensures d.trace == c.trace + [FormSubmitted]
    ensures c.Valid() ==> d.timers.resetPending == {} && d.Valid()
    ensures d.timers.(resetPending := c.timers.resetPending) == c.timers
    ensures d.(timers := c.timers, trace := c.trace) == c
  {
    c.(timers := c.timers.CancelReset(), trace := c.trace + [FormSubmitted])
  }

  /**
   * `resolveStateOnSubmit`: resubmitting with `evPlugin` runs the submit
   * handler, which cancels the reset timer; focusing the field runs the
   * focus handler, which cancels the latest blur timer.
   */
  function SettleSubmitStep(c: Core): (d: Core)
    ensures c.trace <= d.trace
    ensures FormSubmitted in d.trace[|c.trace|..] <==> c.state == Valid || c.state == Undefined
    ensures SubmitNotified in d.trace[|c.trace|..] <==> c.state == Valid || c.state == Undefined
    ensures FieldFocused in d.trace[|c.trace|..] <==> c.state == Invalid
    ensures c.state == Pending ==> d == c
    ensures d.timers.blurPending <= c.timers.blurPending && d.timers.resetPending <= c.timers.resetPending
    ensures d.timers.next == c.timers.next
    ensures d.state == c.state && d.marks == c.marks && d.cache == c.cache && d.requests == c.requests
    ensures c.Valid() ==> d.Valid()
  {
    match VerdictFor(c.state)
    case Resubmit =>
      var passed := PassSubmitStep(c);
      var notified := passed.(trace := passed.trace + [SubmitNotified]);
      assert notified.trace[|c.trace|..] == [FormSubmitted, SubmitNotified];
      notified
    case Refocus =>
      var focused := c.(timers := c.timers.CancelBlur(), trace := c.trace + [FieldFocused]);
      assert focused.trace[|c.trace|..] == [FieldFocused];
      focused
    case Hold =>
      assert c.trace[|c.trace|..] == [];
      c
  }

  /**
   * `onSubmit`: a submit carrying `evPlugin` is left alone; any other is
   * held back while `run` decides, and settled by `resolveStateOnSubmit`
   * once `run`'s deferred resolves: at once when `run` started nothing or
   * answered from the pattern or the cache, later when a remote call is in
   * flight, never when `run` threw.
   */
  function OnSubmitStep(c: Core, text: string, remote: bool, evPlugin: bool): (d: Core)
    ensures evPlugin ==> d == c
    ensures !evPlugin ==>
      var ran := RunStep(c, text, remote);
      d.state == ran.0.state && d.marks == ran.0.marks && d.cache == ran.0.cache &&
      d.value == ran.0.value && d.previousValue == ran.0.previousValue && ran.0.trace <= d.trace &&
      (ran.1.Returned? || ran.1.Settled? ==>
        d.requests == ran.0.requests &&
        (FormSubmitted in d.trace[|ran.0.trace|..] <==> ran.0.state == Valid || ran.0.state == Undefined) &&
        (FieldFocused in d.trace[|ran.0.trace|..] <==> ran.0.state == Invalid)) &&
      (ran.1.Awaiting? ==>
        ran.1.id in ran.0.requests && ran.0.requests[ran.1.id].runWaiting && d.trace == ran.0.trace &&
        d.requests == ran.0.requests[ran.1.id := ran.0.requests[ran.1.id].(submitWaiting := true)]) &&
      (ran.1 == Thrown ==> d == ran.0)
    ensures c.Valid() ==> d.Valid()
  {
    if evPlugin then c
    else
      var ran := RunStep(c, text, remote);
      match ran.1
      case Returned => SettleSubmitStep(ran.0)
      case Settled(_) => SettleSubmitStep(ran.0)
      case Awaiting(id) => ran.0.(requests := ran.0.requests[id := ran.0.requests[id].(submitWaiting := true)])
      case Thrown => ran.0
  }

  /**
   * A submit event on the form: the handler cancels the reset timer and
   * calls `onSubmit`; a submit carrying `evPlugin` is not prevented, so the
   * form goes through.
   */
  function SubmitStep(c: Core, text: string, remote: bool, evPlugin: bool): (d: Core)
    ensures evPlugin ==> d == PassSubmitStep(c)
    ensures !evPlugin ==> d == OnSubmitStep(c.(timers := c.timers.CancelReset()), text, remote, false)
    ensures c.Valid() ==> d.Valid() && d.timers.resetPending == {}
  {
    var handled := OnSubmitStep(c.(timers := c.timers.CancelReset()), text, remote, evPlugin);
    if evPlugin then handled.(trace := handled.trace + [FormSubmitted]) else handled
  }

  // ---------------------------------------------------------------------------
  // Remote replies

  /**
   * The remote call `id` resolves with `v`. Its callbacks run in the order
   * they were attached: `remoteValidate`'s `setState(v)`; then, if `run`
   * attached one, caching `v` under the value the field holds NOW and
   * `setState(v)` again; then, if a submit waits, `resolveStateOnSubmit`.
   * A value that is no state makes the first `setState` throw, and the
   * later callbacks do not run.
   */
  function ResolveStep(c: Core, id: nat, v: JsValue): (d: Core)
    requires id in c.requests
    ensures d.requests == c.requests - {id}
    ensures c.trace <= d.trace
    ensures d.state == StateAfter(v) && d.marks == Shown(v, c.marks)
    ensures d.cache == (if v != JsOther && c.requests[id].runWaiting then c.cache[ToJsString(c.value) := v] else c.cache)
    ensures v == JsOther ==> d.trace == c.trace + [StateFault] && d.timers == c.timers
    ensures v != JsOther && !c.requests[id].submitWaiting ==> d.trace == c.trace && d.timers == c.timers
    ensures v != JsOther && c.requests[id].submitWaiting ==>
      (FormSubmitted in d.trace[|c.trace|..] <==> v == JsTrue || v == JsUndefined) &&
      (SubmitNotified in d.trace[|c.trace|..] <==> v == JsTrue || v == JsUndefined) &&
      (FieldFocused in d.trace[|c.trace|..] <==> v == JsFalse)
    ensures d.value == c.value && d.previousValue == c.previousValue
    ensures c.Valid() ==> d.Valid()
  {
    var req := c.requests[id];
    var first := SetStateStep(c.(requests := c.requests - {id}), v);
    if v == JsOther then first
    else
      var cached := if req.runWaiting then SetStateStep(first.(cache := first.cache[ToJsString(first.value) := v]), v) else first;
      assert cached.marks == Shown(v, c.marks);
      if req.submitWaiting then SettleSubmitStep(cached) else cached
  }

  /** The remote call `id` is rejected: `remoteValidate`'s fail callback resets to Undefined; nothing is cached. */
  function RejectStep(c: Core, id: nat): (d: Core)
    requires id in c.requests
    ensures d == c.(requests := c.requests - {id}, state := Undefined, marks := NoMarks)
    ensures c.Valid() ==> d.Valid()
  {
    SetStateStep(c.(requests := c.requests - {id}), JsUndefined)
  }

  // ---------------------------------------------------------------------------
  // Field events and timers firing

  /** The blur handler: the reset timer is cancelled and a blur timer scheduled. */
  function BlurStep(c: Core): (d: Core)
    ensures d.timers.blurId == Some(c.timers.next) && d.timers.blurPending == c.timers.blurPending + {c.timers.next}
    ensures c.Valid() ==> d.timers.resetPending == {}
    ensures d.(timers := c.timers) == c
    ensures c.Valid() ==> d.Valid()
  {
    c.(timers := c.timers.CancelReset().ScheduleBlur())
  }

  /** The focus handler: `clearBlurTimeout`. */
  function FocusStep(c: Core): (d: Core)
    ensures d.timers.blurPending == c.timers.blurPending - Ids(c.timers.blurId)
    ensures d.(timers := c.timers) == c
    ensures c.Valid() ==> d.Valid()
  {
    c.(timers := c.timers.CancelBlur())
  }

  /** The keyup handler: the reset timer is restarted, whatever key was pressed. */
  function KeyupStep(c: Core): (d: Core)
    ensures c.Valid() ==> d.timers.resetPending == {c.timers.next} && d.timers.keyupId == Some(c.timers.next)
    ensures d.timers.blurPending == c.timers.blurPending
    ensures d.(timers := c.timers) == c
    ensures c.Valid() ==> d.Valid()
  {
    c.(timers := c.timers.CancelReset().ScheduleReset())
  }

  /** The host fires blur timer `id`: `run`, with whatever timer id is kept now. */
  function BlurFiresStep(c: Core, id: nat, text: string, remote: bool): (d: Core)
    requires id in c.timers.blurPending
    ensures d == RunStep(c.(timers := c.timers.FireBlur(id)), text, remote).0
    ensures c.Valid() ==> d.Valid()
  {
    RunStep(c.(timers := c.timers.FireBlur(id)), text, remote).0
  }

  /** The host fires the reset timer: `resetState` clears the marks and leaves the state alone. */
  function ResetFiresStep(c: Core, id: nat): (d: Core)
    requires id in c.timers.resetPending
    ensures d == c.(timers := c.timers.FireReset(id), marks := NoMarks)
    ensures c.Valid() ==> d.Valid()
  {
    c.(timers := c.timers.FireReset(id), marks := c.marks.Cleared())
  }
}
