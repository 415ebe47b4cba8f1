/**
 * The `EmailValiditon` instance as a class with the source's fields, and
 * the page around its field. Each method changes the fields the way the
 * prototype method of the same name does, and is proved to agree with the
 * matching step in `Lifecycle` on the snapshot `Now()`.
 */
module Validator {
  import opened Optional
  import opened States
  import opened ResultCache
  import opened Lifecycle
  import EmailPattern

  /** What looking up the enclosing form, or the submit control in it, found. */
  datatype Found = NotLookedUp | Missing | Present

  /**
   * The page around one email field: whether the field has an enclosing
   * form and the form a submit control, the field's current text, its
   * `--inited` mark, the marks the widget sets, the timers the host has
   * scheduled, and what happened outwardly.
   */
  class Page {
    const hasForm: bool
    const hasSubmit: bool
    var text: string
    var inited: bool
    var marks: Marks
    var blurPending: set<nat>
    var resetPending: set<nat>
    var nextTimer: nat
    var trace: seq<Event>

    constructor (hasForm: bool, hasSubmit: bool, text: string)
      ensures this.hasForm == hasForm && this.hasSubmit == hasSubmit && this.text == text
      ensures !inited && marks == NoMarks && blurPending == {} && resetPending == {} && nextTimer == 0 && trace == []
    {
      this.hasForm := hasForm;
      this.hasSubmit := hasSubmit;
      this.text := text;
      inited := false;
      marks := NoMarks;
      blurPending := {};
      resetPending := {};
      nextTimer := 0;
      trace := [];
    }

    /** The user edits the field (`$field.val(text)` in the tests). */
    method Type(text: string)
      modifies this`text
      ensures this.text == text
    {
      this.text := text;
    }
  }

  class FieldValidator {
    const page: Page
    const cache: Cache
    /** Whether the `remoteValidate` option was supplied; the default one throws. */
    const remote: bool
    var form: Found
    var submit: Found
    var value: Option<string>
    var previousValue: Option<string>
    var state: State
    var blurTimeoutId: Option<nat>
    var keyupTimer: Option<nat>
    /** The remote calls still in flight, with the callbacks attached to each. */
    var requests: map<nat, Request>
    var nextRequest: nat

    /** The instance, its page and the cache as one lifecycle snapshot. */
    ghost function Now(): Core
      reads this, page, cache
    {
      Core(value, previousValue, state,
           Timers(blurTimeoutId, keyupTimer, page.blurPending, page.resetPending, page.nextTimer),
           requests, nextRequest, page.marks, cache.entries, page.trace)
    }

    ghost predicate Valid()
      reads this, page, cache
    {
      Now().Valid()
    }

    /** `init` found both the form and the submit control. */
    predicate Bound()
      reads this
    {
      form == Present && submit == Present
    }

    /** `new EmailValiditon` with its field and options: every instance field is unset. */
    constructor (page: Page, cache: Cache, remote: bool)
      ensures this.page == page && this.cache == cache && this.remote == remote
      ensures form == NotLookedUp && submit == NotLookedUp
      ensures value == None && previousValue == None && state == Undefined
      ensures blurTimeoutId == None && keyupTimer == None && requests == map[] && nextRequest == 0
    {
      this.page := page;
      this.cache := cache;
      this.remote := remote;
      form := NotLookedUp;
      submit := NotLookedUp;
      value := None;
      previousValue := None;
      state := Undefined;
      blurTimeoutId := None;
      keyupTimer := None;
      requests := map[];
      nextRequest := 0;
    }

    /**
     * `init`: nothing when the field is already marked inited; otherwise the
     * form is looked up, then the submit control, and the field is marked
     * inited (and its handlers bound) only when both were found.
     */
    method Init()
      modifies this`form, this`submit, page`inited
      ensures old(page.inited) ==> form == old(form) && submit == old(submit) && page.inited
      ensures !old(page.inited) ==>
        form == (if page.hasForm then Present else Missing) &&
        submit == (if !page.hasForm then old(submit) else if page.hasSubmit then Present else Missing) &&
        (page.inited <==> page.hasForm && page.hasSubmit)
      ensures !old(page.inited) ==> (Bound() <==> page.inited)
    {
      if page.inited {
        return;
      }
      form := if page.hasForm then Present else Missing;
      if !page.hasForm {
        return;
      }
      submit := if page.hasSubmit then Present else Missing;
      if !page.hasSubmit {
        return;
      }
      page.inited := true;
    }

    /** `clearBlurTimeout`: cancels the blur timer whose id was kept last. */
    method ClearBlurTimeout()
      requires Bound()
      modifies page`blurPending
      ensures Now() == old(Now()).(timers := old(Now()).timers.CancelBlur())
    {
      page.blurPending := page.blurPending - Ids(blurTimeoutId);
    }

    /** `clearTimeout(keyupTimer)` */
    method ClearKeyupTimer()
      requires Bound()
      modifies page`resetPending
      ensures Now() == old(Now()).(timers := old(Now()).timers.CancelReset())
    {
      page.resetPending := page.resetPending - Ids(keyupTimer);
    }

    /** `isValueChanged`: reads the field; a changed value becomes the last validated one. */
    method IsValueChanged() returns (changed: bool)
      requires Bound()
      modifies this`value, this`previousValue
      ensures changed <==> old(previousValue) != Some(page.text)
      ensures Now() == old(Now()).(value := Some(page.text), previousValue := Some(page.text))
    {
      value := Some(page.text);
      if previousValue == value {
        return false;
      }
      previousValue := value;
      return true;
    }

    /** `validateRegExp`: the pattern tested on the value, `undefined` reading as "undefined". */
    predicate ValidateRegExp(): (r: bool)
      reads this
      ensures r <==> EmailPattern.Accepted(ToJsString(value))
    {
      EmailPattern.MatchesCorrect(ToJsString(value));
      EmailPattern.Matches(ToJsString(value))
    }

    /** `setInValid` */
    method SetInValid()
      requires Bound()
      modifies page`marks
      ensures page.marks == old(page.marks).Invalidated()
    {
      page.marks := page.marks.(valid := false, invalid := true, loading := false, submitDisabled := true);
    }

    /** `setValid` */
    method SetValid()
      requires Bound()
      modifies page`marks
      ensures page.marks == old(page.marks).Validated()
    {
      page.marks := page.marks.(valid := true, invalid := false, loading := false, fieldDisabled := false, submitDisabled := false);
    }

    /** `resetState`: every mark cleared; the state is left as it is. */
    method ResetState()
      requires Bound()
      modifies page`marks
      ensures page.marks == NoMarks
    {
      page.marks := NoMarks;
    }

    /** `setPendingState` */
    method SetPendingState()
      requires Bound()
      modifies this`state, page`marks
      ensures state == Pending && page.marks == old(page.marks).Loading()
    {
      state := Pending;
      page.marks := page.marks.(loading := true, fieldDisabled := true);
    }

    /** `setState(v)`; `thrown` reports the 'Not allowed value of state' error. */
    method SetState(v: JsValue) returns (thrown: bool)
      requires Bound()
      modifies this`state, page`marks, page`trace
      ensures thrown <==> v == JsOther
      ensures Now() == SetStateStep(old(Now()), v)
    {
      state := StateAfter(v);
      thrown := false;
      if v == JsFalse {
        SetInValid();
      } else if v == JsTrue {
        SetValid();
      } else if v == JsUndefined {
        ResetState();
      } else if v != JsNull {
        ResetState();
        state := Undefined;
        page.trace := page.trace + [StateFault];
        thrown := true;
      }
    }

    /** `processCache` */
    method ProcessCache() returns (reply: Reply)
      requires Bound()
      modifies this`state, page`marks, page`trace
      ensures (Now(), reply) == ProcessCacheStep(old(Now()))
    {
      var cached := cache.Get(EmailKey);
      var thrown := SetState(cached);
      reply := if thrown then Thrown else Settled(cached);
    }

    /** `remoteValidate` */
    method RemoteValidate() returns (reply: Reply)
      requires Bound()
      modifies this`state, this`requests, this`nextRequest, page`marks, page`trace
      ensures (Now(), reply) == RemoteValidateStep(old(Now()), remote)
    {
      SetPendingState();
      page.trace := page.trace + [RemoteCall(value)];
      if !remote {
        return Thrown;
      }
      requests := requests[nextRequest := Request(value, false, false)];
      reply := Awaiting(nextRequest);
      nextRequest := nextRequest + 1;
    }

    /** `validate` */
    method Validate() returns (reply: Reply)
      requires Bound()
      modifies this`state, this`requests, this`nextRequest, page`marks, page`trace
      ensures (Now(), reply) == ValidateStep(old(Now()), remote)
    {
      page.trace := page.trace + [ValidateCall];
      if ValidateRegExp() {
        reply := RemoteValidate();
      } else {
        reply := Settled(JsFalse);
      }
    }

    /** The cache-miss branch of `run`. */
    method ValidateThenCache() returns (reply: Reply)
      requires Bound() && value == Some(page.text)
      modifies this`state, this`requests, this`nextRequest, page`marks, page`trace, cache
      ensures (Now(), reply) == ValidateThenCacheStep(old(Now()), page.text, remote)
    {
      reply := Validate();
      match reply
      case Settled(v) =>
        cache.Set(page.text, v);
        var thrown := SetState(v);
        if thrown {
          reply := Thrown;
        }
      case Awaiting(id) =>
        requests := requests[id := requests[id].(runWaiting := true)];
      case _ =>
    }

    /** `run` */
    method Run() returns (reply: Reply)
      requires Bound()
      modifies this`value, this`previousValue, this`state, this`requests, this`nextRequest, page`blurPending, page`marks, page`trace, cache
      ensures (Now(), reply) == RunStep(old(Now()), page.text, remote)
      ensures old(Valid()) ==> Valid()
    {
      ClearBlurTimeout();
      var changed := IsValueChanged();
      if !changed {
        return Returned;
      }
      StateNames();
      if IsState(state, "pending") {
        return Returned;
      }
      if cache.Has(page.text) {
        reply := ProcessCache();
      } else {
        reply := ValidateThenCache();
      }
    }

    /** `resolveStateOnSubmit` */
    method ResolveStateOnSubmit()
      requires Bound()
      modifies this`value, this`previousValue, this`state, this`requests, this`nextRequest, page`blurPending, page`resetPending, page`marks, page`trace, cache
      ensures Now() == SettleSubmitStep(old(Now()))
      decreases 2
    {
      StateNames();
      if IsState(state, "valid") || IsState(state, "undefined") {
        Submit(true);
        page.trace := page.trace + [SubmitNotified];
      } else if IsState(state, "invalid") {
        page.trace := page.trace + [FieldFocused];
        Focus();
      }
    }

    /** `onSubmit` */
    method OnSubmit(evPlugin: bool)
      requires Bound()
      modifies this`value, this`previousValue, this`state, this`requests, this`nextRequest, page`blurPending, page`resetPending, page`marks, page`trace, cache
      ensures Now() == OnSubmitStep(old(Now()), page.text, remote, evPlugin)
      decreases if evPlugin then 0 else 3
    {
      if evPlugin {
        return;
      }
      var result := Run();
      match result
      case Returned =>
        ResolveStateOnSubmit();
      case Settled(_) =>
        ResolveStateOnSubmit();
      case Awaiting(id) =>
        requests := requests[id := requests[id].(submitWaiting := true)];
      case Thrown =>
    }

    /**
     * A submit event on the form: the handler bound by `setEvents`, then
     * the form's default action when the handler did not prevent it.
     */
    method Submit(evPlugin: bool)
      requires Bound()
      modifies this`value, this`previousValue, this`state, this`requests, this`nextRequest, page`blurPending, page`resetPending, page`marks, page`trace, cache
      ensures Now() == SubmitStep(old(Now()), page.text, remote, evPlugin)
      ensures old(Valid()) ==> Valid()
      decreases if evPlugin then 1 else 4
    {
      ClearKeyupTimer();
      OnSubmit(evPlugin);
      if evPlugin {
        page.trace := page.trace + [FormSubmitted];
      }
    }

    /** The blur handler bound by `setEvents`. */
    method Blur()
      requires Bound()
      modifies this`blurTimeoutId, page`blurPending, page`resetPending, page`nextTimer
      ensures Now() == BlurStep(old(Now()))
      ensures old(Valid()) ==> Valid()
    {
      ClearKeyupTimer();
      blurTimeoutId := Some(page.nextTimer);
      page.blurPending := page.blurPending + {page.nextTimer};
      page.nextTimer := page.nextTimer + 1;
    }

    /** The focus handler bound by `setEvents`. */
    method Focus()
      requires Bound()
      modifies page`blurPending
      ensures Now() == FocusStep(old(Now()))
      ensures old(Valid()) ==> Valid()
    {
      ClearBlurTimeout();
    }

    /** The keyup handler bound by `setEvents`. */
    method Keyup()
      requires Bound()
      modifies this`keyupTimer, page`resetPending, page`nextTimer
      ensures Now() == KeyupStep(old(Now()))
      ensures old(Valid()) ==> Valid()
    {
      ClearKeyupTimer();
      keyupTimer := Some(page.nextTimer);
      page.resetPending := page.resetPending + {page.nextTimer};
      page.nextTimer := page.nextTimer + 1;
    }

    /** The host fires blur timer `id`, which calls `run`. */
    method FireBlur(id: nat)
      requires Bound() && id in page.blurPending
      modifies this`value, this`previousValue, this`state, this`requests, this`nextRequest, page`blurPending, page`marks, page`trace, cache
      ensures Now() == BlurFiresStep(old(Now()), id, page.text, remote)
      ensures old(Valid()) ==> Valid()
    {
      page.blurPending := page.blurPending - {id};
      var _ := Run();
    }

    /** The host fires reset timer `id`, which calls `resetState`. */
    method FireReset(id: nat)
      requires Bound() && id in page.resetPending
      modifies page`resetPending, page`marks
      ensures Now() == ResetFiresStep(old(Now()), id)
      ensures old(Valid()) ==> Valid()
    {
      page.resetPending := page.resetPending - {id};
      ResetState();
    }

    /** The remote call `id` resolves with `v`: its callbacks run in the order they were attached. */
    method Resolve(id: nat, v: JsValue)
      requires Bound() && id in requests
      modifies this`value, this`previousValue, this`state, this`requests, this`nextRequest, page`blurPending, page`resetPending, page`marks, page`trace, cache
      ensures Now() == ResolveStep(old(Now()), id, v)
      ensures old(Valid()) ==> Valid()
    {
      var req := requests[id];
      requests := requests - {id};
      var thrown := SetState(v);
      if thrown {
        return;
      }
      if req.runWaiting {
        cache.Set(ToJsString(value), v);
        thrown := SetState(v);
      }
      if req.submitWaiting {
        ResolveStateOnSubmit();
      }
    }

    /** The remote call `id` is rejected: `remoteValidate`'s fail callback. */
    method Reject(id: nat)
      requires Bound() && id in requests
      modifies this`state, this`requests, page`marks, page`trace
      ensures Now() == RejectStep(old(Now()), id)
      ensures old(Valid()) ==> Valid()
    {
      requests := requests - {id};
      var _ := SetState(JsUndefined);
    }
  }

  /** `initField`: a new instance on the field, initialised. */
  method InitField(page: Page, cache: Cache, remote: bool) returns (v: FieldValidator)
    modifies page`inited
    ensures fresh(v) && v.page == page && v.cache == cache && v.remote == remote
    ensures v.Now() == Core(None, None, Undefined, Timers(None, None, page.blurPending, page.resetPending, page.nextTimer),
                            map[], 0, page.marks, cache.entries, page.trace)
    ensures old(page.inited) ==> v.form == NotLookedUp && v.submit == NotLookedUp && page.inited
    ensures !old(page.inited) ==>
      v.form == (if page.hasForm then Present else Missing) &&
      v.submit == (if page.hasForm && page.hasSubmit then Present else if page.hasForm then Missing else NotLookedUp) &&
      (page.inited <==> page.hasForm && page.hasSubmit) && (v.Bound() <==> page.inited)
  {
    v := new FieldValidator(page, cache, remote);
    v.Init();
  }
}
