/**
 * Concrete runs of the class on a fresh page and cache, following the
 * situations the repository's tests set up: what the model then says the
 * field, the page and the cache end up as.
 */
module Scenarios {
  import opened Optional
  import opened States
  import opened ResultCache
  import opened Lifecycle
  import opened Validator
  import LifecycleProperties
  import EmailPattern

  /** A page with a form and a submit control, its field holding `text`, and a bound validator. */
  method Setup(text: string, remote: bool) returns (page: Page, cache: Cache, v: FieldValidator)
    ensures fresh(page) && fresh(cache) && fresh(v)
    ensures v.page == page && v.cache == cache && v.remote == remote && v.Bound() && page.inited
    ensures page.text == text && cache.entries == map[] && page.trace == [] && page.marks == NoMarks
    ensures v.value == None && v.previousValue == None && v.state == Undefined
    ensures v.requests == map[] && v.nextRequest == 0
    ensures v.blurTimeoutId == None && v.keyupTimer == None
    ensures page.blurPending == {} && page.resetPending == {} && page.nextTimer == 0
  {
    page := new Page(true, true, text);
    cache := new Cache();
    v := InitField(page, cache, remote);
  }

  /** A second instance on an inited field looks nothing up, so its form stays unset. */
  method SecondInitOnSameField() returns (firstBound: bool, marked: bool, secondForm: Found)
    ensures firstBound && marked && secondForm == NotLookedUp
  {
    var page := new Page(true, true, "");
    var cache := new Cache();
    var first := InitField(page, cache, true);
    var second := InitField(page, cache, true);
    firstBound := first.Bound();
    marked := page.inited;
    secondForm := second.form;
  }

  /** No form around the field: nothing is marked inited, and the submit control is never looked up. */
  method FieldOutsideForm() returns (marked: bool, form: Found, submit: Found)
    ensures !marked && form == Missing && submit == NotLookedUp
  {
    var page := new Page(false, true, "");
    var cache := new Cache();
    var v := InitField(page, cache, true);
    marked := page.inited;
    form := v.form;
    submit := v.submit;
  }

  /** "email" run twice: validated once, Invalid, `false` cached. */
  method SameValueValidatedOnce() returns (validations: nat, state: State, cached: JsValue)
    ensures validations == 1 && state == Invalid && cached == JsFalse
  {
    var page, cache, v := Setup("email", true);
    EmailPattern.RejectsWithoutAt("email");
    var _ := v.Run();
    var _ := v.Run();
    assert page.trace == [ValidateCall];
    validations := Validations(page.trace);
    state := v.state;
    cached := cache.Get("email");
  }

  /** Two different values the pattern rejects (such as "email" then "email1"): validated twice. */
  method ChangedValueValidatedTwice(first: string, second: string) returns (validations: nat)
    requires !EmailPattern.Matches(first) && !EmailPattern.Matches(second) && first != second
    ensures validations == 2
  {
    var page, cache, v := Setup(first, true);
    var _ := v.Run();
    page.Type(second);
    var _ := v.Run();
    assert page.trace == [ValidateCall, ValidateCall];
    validations := Validations(page.trace);
  }

  /**
   * An address the pattern accepts (such as "name@gmail.com") run three
   * times while its remote call is in flight: one validation, one remote call.
   */
  method PendingRunsValidateOnce(text: string) returns (validations: nat, state: State, inFlight: nat)
    requires EmailPattern.Matches(text)
    ensures validations == 1 && state == Pending && inFlight == 1
  {
    var page, cache, v := Setup(text, true);
    var _ := v.Run();
    assert v.state == Pending && page.trace == [ValidateCall, RemoteCall(Some(text))];
    var _ := v.Run();
    var _ := v.Run();
    validations := Validations(page.trace);
    state := v.state;
    inFlight := |v.requests|;
  }

  /** Submitting a value the pattern rejects (the empty field, say): Invalid, the field is focused, the form does not go through. */
  method RejectedValueSubmitFocuses(text: string) returns (focused: bool, submitted: bool, state: State)
    requires !EmailPattern.Matches(text)
    ensures focused && !submitted && state == Invalid
  {
    var page, cache, v := Setup(text, true);
    v.Submit(false);
    assert page.trace == [ValidateCall, FieldFocused];
    focused := FieldFocused in page.trace;
    submitted := FormSubmitted in page.trace;
    state := v.state;
  }

  /** Submitting an accepted address: held back until the remote call resolves `true`, then submitted and announced. */
  method ResolvedSubmitGoesThrough(text: string) returns (heldBack: bool, submitted: bool, notified: bool, cached: JsValue)
    requires EmailPattern.Matches(text)
    ensures heldBack && submitted && notified && cached == JsTrue
  {
    var page, cache, v := Setup(text, true);
    ghost var c := v.Now();
    v.Submit(false);
    LifecycleProperties.SubmitHeldOnRemote(c, text);
    LifecycleProperties.ResolvedSubmitGoesThrough(c, text, JsTrue);
    heldBack := FormSubmitted !in page.trace;
    v.Resolve(0, JsTrue);
    submitted := FormSubmitted in page.trace[2..];
    notified := SubmitNotified in page.trace[2..];
    cached := cache.Get(text);
  }

  /** The remote call is rejected: the submit stays held back, the state is Undefined, nothing is cached. */
  method RejectedSubmitHeldBack(text: string) returns (submitted: bool, state: State, cached: bool)
    requires EmailPattern.Matches(text)
    ensures !submitted && state == Undefined && !cached
  {
    var page, cache, v := Setup(text, true);
    ghost var c := v.Now();
    v.Submit(false);
    LifecycleProperties.SubmitHeldOnRemote(c, text);
    v.Reject(0);
    assert page.trace == [ValidateCall, RemoteCall(Some(text))];
    submitted := FormSubmitted in page.trace;
    state := v.state;
    cached := cache.Has(text);
  }

  /** "name" cached as `false`, then run: the entry under "undefined" is applied instead, which resets the field. */
  method CachedEntryNotApplied() returns (validations: nat, state: State, invalidMark: bool)
    ensures validations == 0 && state == Undefined && !invalidMark
  {
    var page, cache, v := Setup("name", true);
    cache.Set("name", JsFalse);
    var _ := v.Run();
    assert page.trace == [];
    validations := Validations(page.trace);
    state := v.state;
    invalidMark := page.marks.invalid;
  }

  /** Blur then focus before the delay: no blur timer is left to fire. */
  method FocusAfterBlur() returns (scheduled: set<nat>)
    ensures scheduled == {}
  {
    var page, cache, v := Setup("", true);
    v.Blur();
    v.Focus();
    scheduled := page.blurPending;
  }

  /** Two blurs then a focus: the first blur's timer can no longer be cancelled and still fires. */
  method SecondBlurLeaksFirst() returns (scheduled: set<nat>)
    ensures scheduled == {0}
  {
    var page, cache, v := Setup("", true);
    v.Blur();
    v.Blur();
    v.Focus();
    scheduled := page.blurPending;
  }

  /** Marked invalid, then a keystroke: once the reset timer fires the marks are gone but the state is still Invalid. */
  method KeyupResetsMarks() returns (marks: Marks, state: State)
    ensures marks == NoMarks && state == Invalid
  {
    var page, cache, v := Setup("", true);
    EmailPattern.RejectsWithoutAt("");
    var _ := v.Run();
    v.Keyup();
    assert 0 in page.resetPending;
    v.FireReset(0);
    marks := page.marks;
    state := v.state;
  }
}
