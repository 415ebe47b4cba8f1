# Email field validator, modelled in Dafny

This project models the email-field validation widget of `index.js`, the
`EmailValiditon` component. The widget attaches to one email input in a
form and validates the input's value when the field loses focus and when
the form is submitted. Validation is a local pattern check, followed by an
injected remote check that answers asynchronously. Results are kept in a
cache shared by every instance. The widget marks the field and the submit
control as valid, invalid or loading, and it holds back a submit until the
value has been decided.

The model has these modules:

- `Optional`: the `Option` type, with `None` standing for JavaScript's `undefined`.
- `Separated`: sequences cut at a separator and joined again.
- `EmailPattern`: the default `validationReg` pattern.
  - Reference predicates follow the pattern's own shape, as existentials over the ways to cut the input.
  - `Matches` is an executable matcher that checks the one cut that can work.
  - The two are proved equal.
- `States`: the four validation states, and the `STATES` table of JavaScript values that encode them (`undefined`, `true`, `false`, `null`). `JsOther` stands for any other value a remote validator or a caller might hand to `setState`. `isState` tests a state by name.
- `ResultCache`: the shared cache and its static accessors.
- `Lifecycle`: every lifecycle operation as a function on a snapshot `Core`.
  - The snapshot holds the instance fields, the two timer ids, the timers the host still has scheduled, and the remote calls in flight.
  - It also holds the marks on the field and the submit control, the cache's entries, and a trace of what the widget did outwardly.
  - Timers and remote calls are explicit. Scheduling a timer adds a pending entry, and a later host step fires it. A remote call is a pending request, and a later host step resolves or rejects it.
- `LifecycleProperties`: what the steps promise over several calls.
- `Validator`: the instance as a class with the source's fields, plus the `Page` around its field. The lifecycle and event methods (`SetState`, `ProcessCache`, `RemoteValidate`, `Validate`, `ValidateThenCache`, `Run`, the submit methods, the handlers, the timers firing, `Resolve` and `Reject`) are proved to change the fields exactly as the matching `Lifecycle` step changes the snapshot (`Now() == Step(old(Now()))`). `Init`, `IsValueChanged` and the mark setters (`SetInValid`, `SetValid`, `ResetState`, `SetPendingState`) are specified field by field; `Init` has no `Lifecycle` step.
- `Scenarios`: runs of the class on a fresh page and cache, in the situations the repository's tests set up.

Where the written specification and the code disagree, the model follows the code:

- `run` sets Pending only when the remote validator is called. A value the pattern rejects goes straight to Invalid and never passes through Pending.
- Results are always cached. The `cache` option is never read.
- On a cache hit, `processCache` reads the entry under `this.email`. Nothing assigns that property, so the key is `"undefined"` rather than the field's value (`CachedValueIgnored`, `CachedEntryNotApplied`). For the same reason, the expectation of test/spec.js:350-357 (`setState` called with `false`) does not hold of the code: `setState` receives whatever is stored under `"undefined"`.
- An earlier remote call that resolves after the value has changed is not discarded. Its result is applied, and cached under the value the field holds at that moment (`ResultCachedUnderCurrentValue`, `UncheckedValueCachedValid`).
- The keyup reset also runs while a validation is in flight, and it clears the marks without changing the state (`KeyupThenResetClearsMarks`).

## Model

| member | source | states |
|---|---|---|
| EmailPattern.MatchesCorrect | index.js:307 | The matcher accepts a string exactly when some `@` in it has a local part before it and a domain after it. The local part is dot-separated atoms or a quoted run; the domain is a bracketed dotted quad or labels ending in an alphabetic TLD. |
| EmailPattern.DotAtomCorrect | index.js:307 | The first local-part alternative, `[^…]+(\.[^…]+)*`, holds exactly when the text is a join of one or more atoms with dots. |
| EmailPattern.QuadCorrect | index.js:307 | The bracketed alternative holds exactly when the text is `[`, four dot-joined runs of 1 to 3 digits, then `]`. There is no range check on the numbers. |
| EmailPattern.HostCorrect | index.js:307 | The host alternative holds exactly when the text is one or more `[A-Za-z0-9-]+` labels, each followed by a dot, and then at least two letters. |
| EmailPattern.MatchesSound | index.js:307 | Whatever the matcher accepts is in the pattern's language. |
| EmailPattern.MatchesComplete | index.js:307 | Whatever is in the pattern's language, the matcher accepts. |
| EmailPattern.Matches | index.js:146-148 | `validationReg.test`. An accepted string has an `@` with a non-empty local part before its last `@` and a non-empty domain after it. Its full meaning is stated by `MatchesCorrect`. |
| EmailPattern.LastIndexOf | index.js:307 | Finds the last `@` where there is one, and reports its absence otherwise. No domain contains an `@`, so this is the only cut that can work. |
| EmailPattern.AcceptsPlainAddress | test/spec.js:154-163 | `name@gmail.com` is accepted. |
| EmailPattern.AcceptsQuotedLocalPart | index.js:307 | A quoted local part may itself contain `@`, and the address is still accepted. |
| EmailPattern.AcceptsBracketedAddress | index.js:307 | `x@[1.22.333.999]` is accepted, out-of-range numbers included. |
| EmailPattern.RejectsWithoutAt | test/spec.js:108-114 | Any input without `@` is rejected, by the matcher and by the reference definition alike. This covers `email` and the empty field. |
| EmailPattern.RejectsMissingTld | index.js:307 | `name@gmail` is rejected, because the domain needs a dot and a final alphabetic label. |
| States.Encode | index.js:295-303 | Each state is encoded by one of `undefined`, `true`, `false`, `null`, and never by another value. |
| States.Decode | index.js:295-303 | A value that encodes no state decodes to nothing; any other value decodes to a state that `Encode` takes back to it. |
| States.DecodeEncode | index.js:295-303 | Every state's encoding decodes back to that state: with `Decode`'s contract, the table is a bijection between the states and the four values. |
| States.IsState | index.js:127-129 | `isState(name)` compares the state with the table entry for the upper-cased name. VALID, INVALID and PENDING select their state. Any other name selects `undefined` and therefore tests for Undefined. |
| States.IsStateByName | index.js:186-189 | The names the lifecycle uses (`valid`, `invalid`, `pending`, `undefined`) test for exactly their state. |
| ResultCache.Lookup | index.js:328-330 | A stored key reads its entry. A key never stored reads `undefined`. |
| ResultCache.Cache.constructor | index.js:327 | The cache starts empty. |
| ResultCache.Cache.Get | index.js:328-330 | `getCache` reads a stored entry, and `undefined` for a key not stored. |
| ResultCache.Cache.Has | index.js:334-336 | A key `hasCache` denies reads `undefined`. |
| ResultCache.Cache.Set | index.js:331-333 | `setCache` stores or overwrites exactly one entry. Every other key reads as before. |
| ResultCache.Cache.Clear | index.js:337-339 | After `clearCache`, no key is present and every key reads `undefined`. |
| Lifecycle.Shown | index.js:197-210 | The marks after `setState(v)`. `false` gives invalid, not valid, not loading and submit disabled, with the field's `disabled` kept. `true` gives valid, with the field and submit enabled. `null` changes nothing. Any other value clears everything. Marks that were consistent stay consistent (submit is disabled exactly when the field is invalid). |
| Lifecycle.StateAfter | index.js:197-210 | The state `setState(v)` leaves is the one `v` encodes. A value that encodes no state leaves Undefined. |
| Lifecycle.SetStateStep | index.js:197-210 | `setState` changes only the state and the marks. A disallowed value also records the fault. |
| Lifecycle.Timers.CancelBlur | index.js:108-110 | Cancels only the blur timer whose id was kept last, and keeps the timer bookkeeping valid. |
| Lifecycle.Timers.CancelReset | index.js:90 | `clearTimeout(keyupTimer)` leaves no reset timer scheduled. |
| Lifecycle.Timers.ScheduleBlur | index.js:95-97 | A blur schedules a new timer and overwrites the kept id, while earlier timers stay scheduled. |
| Lifecycle.Timers.ScheduleReset | index.js:102-104 | With no reset timer scheduled, exactly the new one is. |
| Lifecycle.Timers.FireBlur | index.js:95-97 | Firing removes exactly that blur timer. |
| Lifecycle.Timers.FireReset | index.js:102-104 | Firing the reset timer leaves none scheduled. |
| Lifecycle.SecondBlurLeaksFirstTimer | index.js:95 | After two blurs and a focus, the first blur's timer is still scheduled and the second is not. |
| Lifecycle.FocusCancelsBlur | index.js:98-100 | A focus right after a blur restores the scheduled blur timers to what they were before the blur. |
| Lifecycle.KeyupRestartsReset | index.js:100-105 | Keyup leaves exactly the newest reset timer scheduled. At most one reset timer is ever scheduled. |
| Lifecycle.RemoteValidateStep | index.js:150-158 | The state is Pending and the field shows loading before the injected validator is called with the current value. A supplied validator leaves one new request in flight. The default validator throws, leaving the field Pending. |
| Lifecycle.ValidateStep | index.js:131-139 | A value the pattern rejects resolves `false` at once and calls nothing remote. Any other value goes to `remoteValidate`. |
| Lifecycle.ProcessCacheStep | index.js:160-165 | A cache hit applies, and hands back, the entry under key `"undefined"`. A disallowed entry throws. |
| Lifecycle.ValidateThenCacheStep | index.js:120-124 | `validate().done(setCache; setState)`. A rejected value resolves `false` at once, which is cached under the value and applied (Invalid). An accepted value becomes Pending with one remote call that `run`'s callback waits on, and nothing is cached yet. Without a remote validator, the call throws and no request is made. Value, `previousValue` and timers are untouched. |
| Lifecycle.RunStep | index.js:112-125 | In every case, the latest blur timer is cancelled and the value read is recorded as `previousValue`. An unchanged value, or a validation in flight, changes nothing else. A cache hit applies the `"undefined"` entry without validating. A value the pattern rejects becomes Invalid with `false` cached and no remote call. An accepted value becomes Pending with one remote call, and `run`'s callback is attached to it. |
| Lifecycle.VerdictFor | index.js:185-191 | Valid and Undefined resubmit, Invalid refocuses, Pending does nothing. The body is written with `isState`. |
| Lifecycle.PassSubmitStep | index.js:89-92 | A submit carrying `evPlugin`: the handler cancels the reset timer, `onSubmit` returns at index.js:175, and the form goes through. Only the trace (one `FormSubmitted`) and the reset timer change. |
| Lifecycle.SettleSubmitStep | index.js:185-191 | The form goes through (and `femm/submit` is announced) exactly when the state is Valid or Undefined. The field is focused exactly when the state is Invalid. On Pending nothing happens. State, marks, cache and requests are untouched. |
| Lifecycle.OnSubmitStep | index.js:174-183 | A submit carrying `evPlugin` is left alone. On any other submit, `run` decides. The submit is settled at once when `run` started nothing or answered from the pattern or the cache. It waits on the request when a remote call is in flight, and is dropped when `run` threw. |
| Lifecycle.SubmitStep | index.js:89-92 | The form's submit handler cancels the reset timer before `onSubmit`. A submit carrying `evPlugin` goes through. |
| Lifecycle.ResolveStep | index.js:153-154 | A resolved call applies `v`. If `run` waited on the call, `v` is cached under the value the field holds now. If a submit waited, it is settled by `v` (submitted on `true`/`undefined`, focused on `false`). A disallowed value faults after the first `setState`, and the later callbacks are skipped. |
| Lifecycle.RejectStep | index.js:155-157 | A rejected call leaves Undefined with every mark cleared. Nothing is cached. |
| Lifecycle.BlurStep | index.js:93-97 | Blur cancels the reset timer and schedules a blur timer under the kept id. |
| Lifecycle.FocusStep | index.js:98-100 | Focus cancels the latest blur timer and changes nothing else. |
| Lifecycle.KeyupStep | index.js:100-105 | Keyup restarts the reset timer, whatever key was pressed, and leaves the blur timers alone. |
| Lifecycle.BlurFiresStep | index.js:95-97 | A fired blur timer calls `run`. |
| Lifecycle.ResetFiresStep | index.js:102-104 | A fired reset timer clears every mark and keeps the state. |
| LifecycleProperties.RunAll | index.js:112-125 | Repeated runs keep the snapshot's bookkeeping valid. |
| LifecycleProperties.RunValidatesOnlyOnNewRounds | index.js:112-119 | `run` enters `validate` exactly when the value changed, nothing is in flight and the value is not cached, and then exactly once. |
| LifecycleProperties.SecondRunOnSameValueSkips | index.js:167-172 | Running twice on the same value validates at most once. The second run returns nothing and changes neither the trace nor the state. |
| LifecycleProperties.PendingBlocksRuns | index.js:115 | While Pending, any number of runs on any values validate nothing and change neither the state, requests, cache nor marks. `previousValue` still follows the last value read. |
| LifecycleProperties.ThreeRunsValidateOnce | test/spec.js:144-152 | Three runs on an accepted address validate once, and leave one request in flight with the state Pending. |
| LifecycleProperties.ResultCachedUnderCurrentValue | index.js:121-124 | A value typed while an earlier value's call is in flight receives that call's result in the cache. |
| LifecycleProperties.UncheckedValueCachedValid | index.js:122 | Concretely: `email`, which the pattern rejects, ends up cached as valid. |
| LifecycleProperties.PatternFailureNeverGoesRemote | index.js:131-139 | A rejected value becomes Invalid, never Pending, with `false` cached, no request and no remote call. |
| LifecycleProperties.UnchangedUndefinedSubmits | index.js:178 | Resubmitting an unchanged value in state Undefined lets the form through without validating. |
| LifecycleProperties.SubmitHeldOnRemote | index.js:174-183 | A submit of a new, uncached, accepted value holds back on one remote call. The state becomes Pending and nothing is cached. The trace gains `validate` and the remote call. The one new request is waited on by both `run` and the submit. |
| LifecycleProperties.RejectedThenResubmitted | test/spec.js:132-142 | A submit waiting on a rejected call is never submitted, and nothing is cached. The next submit of the same value goes through without validating. |
| LifecycleProperties.InvalidSubmitFocuses | test/spec.js:188-193 | Submitting a value the pattern rejects focuses the field and does not submit. |
| LifecycleProperties.ResolvedSubmitGoesThrough | test/spec.js:154-175 | A held-back submit goes through once its call resolves `true` or `undefined`, and focuses the field on `false`. |
| LifecycleProperties.SubmitWhilePendingIsDropped | index.js:185-191 | A submit made while a blur-started call is in flight is settled at once on Pending, and the later result submits nothing. |
| LifecycleProperties.CachedValueIgnored | index.js:161 | With only `false` cached for the value, a run resets the field to Undefined without validating. |
| LifecycleProperties.MissingRemoteLocksPending | index.js:309-311 | Without a `remoteValidate` option, an accepted value throws after Pending is set. The field stays Pending, and no later run validates. |
| LifecycleProperties.PendingThenInvalidStaysDisabled | index.js:228-240 | Pending then invalid leaves the field disabled. |
| LifecycleProperties.BlurThenSubmitRunsOnce | test/spec.js:85-93 | A submit after a blur cancels the blur timer, so `run` does not run again. |
| LifecycleProperties.FocusAfterBlurCancelsRun | test/spec.js:74-82 | Blur then focus leaves no new blur timer. |
| LifecycleProperties.KeyupThenResetClearsMarks | test/spec.js:282-291 | After a keyup, the fired reset timer clears the marks and keeps the state. |
| LifecycleProperties.SingleFlightAtMostOne | index.js:114-115 | Under the single-flight guard (a request in flight only while Pending, and no two requests with different ids), at most one request is in flight. |
| LifecycleProperties.RunKeepsSingleFlight | index.js:112-125 | `run` keeps the guard. It calls the remote validator only from a state other than Pending, when nothing is in flight. |
| LifecycleProperties.SubmitKeepsSingleFlight | index.js:174-183 | The submit handler keeps the guard, with or without `evPlugin`, however `run` answers. |
| LifecycleProperties.BlurFiresKeepsSingleFlight | index.js:95-97 | A firing blur timer keeps the guard. |
| LifecycleProperties.FieldEventsKeepSingleFlight | index.js:93-105 | Blur, focus, keyup and the firing reset timer keep the guard. |
| LifecycleProperties.ResolveEndsFlight | index.js:153-154 | The call in flight resolving, with any value, leaves nothing in flight. |
| LifecycleProperties.RejectEndsFlight | index.js:155-157 | The call in flight being rejected leaves nothing in flight. |
| LifecycleProperties.Apply | index.js:87-105 | One event on an inited field: a handler, a scheduled timer firing, `run`, a submit, or the call in flight settling. The snapshot's bookkeeping stays valid. |
| LifecycleProperties.ApplyAll | index.js:87-105 | A sequence of events keeps the snapshot's bookkeeping valid. |
| LifecycleProperties.EventKeepsSingleFlight | index.js:87-105 | Every single event keeps the guard. |
| LifecycleProperties.EventsKeepSingleFlight | index.js:87-105 | Every sequence of events keeps the guard (by induction on the sequence). |
| LifecycleProperties.AtMostOneInFlight | index.js:114-115 | From a freshly initialised field, after any sequence of events, at most one remote call is in flight, and one is in flight only while the state is Pending. |
| Validator.FieldValidator.constructor | index.js:14-46 | A new instance has every field unset, and has not looked up a form or a submit control. |
| Validator.FieldValidator.Init | index.js:49-55 | On an inited field, nothing happens. Otherwise the form is looked up, and then the submit control if a form was found. The field is marked inited exactly when both were found. |
| Validator.InitField | index.js:271-277 | A new instance, initialised. A second instance on an inited field keeps form and submit unset. |
| Validator.FieldValidator.ClearBlurTimeout | index.js:108-110 | Agrees with `CancelBlur`. |
| Validator.FieldValidator.ClearKeyupTimer | index.js:90 | Agrees with `CancelReset`. |
| Validator.FieldValidator.IsValueChanged | index.js:167-172 | Reports a change exactly when the field's text differs from `previousValue`. Afterwards both fields hold the text. |
| Validator.FieldValidator.SetInValid | index.js:228-234 | The marks become `Invalidated()`. |
| Validator.FieldValidator.SetValid | index.js:246-253 | The marks become `Validated()`. |
| Validator.FieldValidator.ResetState | index.js:215-222 | Every mark is cleared. The state is not touched. |
| Validator.FieldValidator.SetPendingState | index.js:236-240 | The state becomes Pending and the field shows loading and is disabled. |
| Validator.FieldValidator.SetState | index.js:197-210 | Agrees with `SetStateStep`, and reports a throw exactly for a disallowed value. |
| Validator.FieldValidator.ProcessCache | index.js:160-165 | Agrees with `ProcessCacheStep`. |
| Validator.FieldValidator.RemoteValidate | index.js:150-158 | Agrees with `RemoteValidateStep`. |
| Validator.FieldValidator.Validate | index.js:131-139 | Agrees with `ValidateStep`. |
| Validator.FieldValidator.ValidateRegExp | index.js:146-148 | Holds exactly when the field's value (`undefined` reading as "undefined") is in the pattern's language. |
| Validator.FieldValidator.ValidateThenCache | index.js:120-124 | Agrees with `ValidateThenCacheStep` on the field's current text. |
| Validator.FieldValidator.Run | index.js:112-125 | Agrees with `RunStep` on the field's current text, and keeps the bookkeeping valid. |
| Validator.FieldValidator.ResolveStateOnSubmit | index.js:185-191 | Agrees with `SettleSubmitStep`. |
| Validator.FieldValidator.OnSubmit | index.js:174-183 | Agrees with `OnSubmitStep`. |
| Validator.FieldValidator.Submit | index.js:89-92 | Agrees with `SubmitStep`. |
| Validator.FieldValidator.Blur | index.js:93-97 | Agrees with `BlurStep`. |
| Validator.FieldValidator.Focus | index.js:98-100 | Agrees with `FocusStep`. |
| Validator.FieldValidator.Keyup | index.js:100-105 | Agrees with `KeyupStep`. |
| Validator.FieldValidator.FireBlur | index.js:95-97 | Agrees with `BlurFiresStep`. |
| Validator.FieldValidator.FireReset | index.js:102-104 | Agrees with `ResetFiresStep`. |
| Validator.FieldValidator.Resolve | index.js:153-154 | Agrees with `ResolveStep`. |
| Validator.FieldValidator.Reject | index.js:155-157 | Agrees with `RejectStep`. |
| Scenarios.SecondInitOnSameField | test/spec.js:101-104 | The first instance is bound and the field is marked. A second instance on the same field leaves its form unset. |
| Scenarios.FieldOutsideForm | index.js:75-78 | Without a form, nothing is marked inited and the submit control is never looked up. |
| Scenarios.SameValueValidatedOnce | test/spec.js:108-114 | `email` run twice is validated once. The state is Invalid, and `false` is cached. |
| Scenarios.ChangedValueValidatedTwice | test/spec.js:116-123 | Two different rejected values, such as `email` then `email1`, are validated twice. |
| Scenarios.PendingRunsValidateOnce | test/spec.js:144-152 | Three runs on an accepted address make one validation and one request, and the state is Pending. |
| Scenarios.RejectedValueSubmitFocuses | test/spec.js:188-193 | Submitting a rejected value focuses the field, does not submit, and gives Invalid. |
| Scenarios.ResolvedSubmitGoesThrough | test/spec.js:154-175 | A submit is held back, then submitted and announced once the call resolves `true`. `true` is cached. |
| Scenarios.RejectedSubmitHeldBack | test/spec.js:132-142 | After a rejection the submit is not made, the state is Undefined and nothing is cached. |
| Scenarios.CachedEntryNotApplied | test/spec.js:350-357 | With `name` cached as `false`, a run validates nothing and leaves Undefined with no invalid mark. |
| Scenarios.FocusAfterBlur | test/spec.js:74-82 | Blur then focus leaves no blur timer scheduled. |
| Scenarios.SecondBlurLeaksFirst | index.js:95 | Blur, blur, focus leaves the first blur timer scheduled. |
| Scenarios.KeyupResetsMarks | test/spec.js:282-291 | An invalid field, after a keyup and the reset timer, has no marks and is still Invalid. |

## Left out

- DOM and jQuery are host machinery and not modelled: element lookup (`closest('form')`, `find('[type="submit"]')`), event binding, CSS class strings and the `dName` base classes. They are reduced to whether a form and a submit control exist, the `--inited` mark, and the state marks as booleans.
- Real timers are not modelled. Timers fire only when the host fires them, so `blurDelay` and `keyupResetDelay` and the ordering of timers by time are left out.
- jQuery Deferred internals are not modelled.
  - Remote calls settle in explicit host steps.
  - A remote validator that hands back an already-settled deferred is treated as settling right after the call returns. Nothing happens in between, so the outcome is the same.
  - Any resolution value that encodes no state is `JsOther`.
- Options are a fixed record. `setOptions` and `$.extend` merging are not modelled. `validationReg` is the default pattern. The only option that varies is whether `remoteValidate` was supplied.
- `initSelector`'s DOM query and the `global.l` logger are not modelled.
- `isLetterKey`, `isFieldInViewport` and `scrollToField` are not modelled, because they are not defined in `index.js`.
- Some test expectations are not implemented by `index.js`, and the model does not adopt them:
  - a reset only on letter keys (`index.js` checks no key);
  - the field re-enabled after pending-then-invalid;
  - the `cache` option being honoured;
  - `focusoutDelay` and `triggerType`.
- ResultCache.Cache.Has: does not model keys inherited from `Object.prototype` ("constructor", "toString", …), which the source's `in` also reports as present.
- ResultCache.Lookup: does not model keys inherited from `Object.prototype`; `this.cache["toString"]` reads a function where the model reads `undefined`.
- ResultCache.Cache.Get: does not model those inherited keys either; `getCache("toString")` reads a function where the model reads `undefined`.
- ResultCache.Cache.Set: does not model the `__proto__` key, where `setCache("__proto__", v)` stores nothing when `v` is not an object; the model stores it like any other key.
- States.IsState: `toUpperCase` is modelled on ASCII letters only. Every name the lifecycle passes is ASCII.
- Exceptions are not modelled as propagating to the host. A throw is recorded as the reply `Thrown`, or as the `StateFault` event, and the later callbacks are skipped.
- A half-initialised instance has no handlers. Without a form, `$submit` is never assigned, so the mark setters would throw on it. With a form but no submit control, `$submit` is an empty jQuery set and the mark setters change nothing on it. An instance on an already-inited field looks nothing up and also leaves `$submit` unassigned. The lifecycle methods require `Bound()` (form and submit control found), so calls on such instances are not modelled; no handler can reach them.
- Lifecycle.RunStep: because the cache is a plain map, a field value that names an `Object.prototype` member (`constructor`, `toString`, `valueOf`, `__proto__`) is not modelled as a cache hit. The source's `hasCache` reports it present on an empty cache (index.js:117). `run` then calls `processCache`, which applies the unset `"undefined"` entry and leaves Undefined, so a submit goes through although the pattern rejects the value. The model validates such a value like any other: it becomes Invalid, and a submit focuses the field. `Validator.FieldValidator.Run`, `PatternFailureNeverGoesRemote` and `InvalidSubmitFocuses` inherit this.
- Validator.FieldValidator.Run: the same plain-map cache as `Lifecycle.RunStep`, so the prototype-name values described there are validated instead of bypassing the submit gate.
- LifecycleProperties.SingleFlight: other code calling `remoteValidate` directly (index.js:150-158) can start a second call while one is in flight. That is not one of the events `Apply` models, so the guard is proved for the lifecycle's own events only.
- With several instances on one form, a triggered submit runs every instance's handler. The model runs only the calling instance's handler.
- `$field.focus()` is modelled as running the focus handler even when the field is disabled.
