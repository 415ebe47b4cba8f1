/**
 * What the lifecycle steps promise over several calls: change detection,
 * the single-flight guard, submit gating, the cache key, and the timers.
 */
module LifecycleProperties {
  import opened Optional
  import opened States
  import opened ResultCache
  import opened Lifecycle
  import EmailPattern

  /** A freshly initialised field on a page with an empty cache. */
  const Start := Core(None, None, Undefined, NoTimers, map[], 0, NoMarks, map[], [])

  /** `run` called once per value in `texts`, in order, from the field's blur timer or the test code. */
  function RunAll(c: Core, texts: seq<string>, remote: bool): (d: Core)
    ensures c.Valid() ==> d.Valid()
    decreases |texts|
  {
    if texts == [] then c else RunAll(RunStep(c, texts[0], remote).0, texts[1..], remote)
  }

  /** `validate` is entered by `run` exactly when the value changed, nothing is in flight, and the value is not cached. */
  lemma RunValidatesOnlyOnNewRounds(c: Core, text: string, remote: bool)
    ensures Validations(RunStep(c, text, remote).0.trace) ==
      Validations(c.trace) + (if RoundStarts(c, text) && text !in c.cache then 1 else 0)
  {
    var d := RunStep(c, text, remote).0;
    if RoundStarts(c, text) {
      if text in c.cache {
        var v := Lookup(c.cache, EmailKey);
        assert d.trace == c.trace + (if v == JsOther then [StateFault] else []);
        assert multiset(d.trace) == multiset(c.trace) + multiset(if v == JsOther then [StateFault] else []);
      } else if EmailPattern.Matches(text) {
        assert d.trace == c.trace + [ValidateCall, RemoteCall(Some(text))];
        assert multiset(d.trace) == multiset(c.trace) + multiset([ValidateCall, RemoteCall(Some(text))]);
      } else {
        assert d.trace == c.trace + [ValidateCall];
        assert multiset(d.trace) == multiset(c.trace) + multiset([ValidateCall]);
      }
    }
  }

  /** Running twice on the same value validates at most once, and the second run does nothing. */
  lemma SecondRunOnSameValueSkips(c: Core, text: string, remote: bool)
    ensures var first := RunStep(c, text, remote).0;
      var second := RunStep(first, text, remote);
      second.1 == Returned && second.0.trace == first.trace && second.0.state == first.state &&
      Validations(second.0.trace) <= Validations(c.trace) + 1
  {
    var first := RunStep(c, text, remote).0;
    RunValidatesOnlyOnNewRounds(c, text, remote);
    assert !RoundStarts(first, text);
  }

  /**
   * While a validation is in flight, any number of runs on any values start
   * nothing: the state stays Pending, `validate` is not entered, nothing is
   * requested or cached, and `previousValue` follows the last value read.
   */
  lemma {:induction false} PendingBlocksRuns(c: Core, texts: seq<string>, remote: bool)
    requires c.state == Pending
    ensures var d := RunAll(c, texts, remote);
      d.state == Pending && Validations(d.trace) == Validations(c.trace) && d.trace == c.trace &&
      d.requests == c.requests && d.cache == c.cache && d.marks == c.marks &&
      (texts != [] ==> d.previousValue == Some(texts[|texts| - 1]) && d.value == Some(texts[|texts| - 1]))
    decreases |texts|
  {
    if texts != [] {
      var first := RunStep(c, texts[0], remote).0;
      PendingBlocksRuns(first, texts[1..], remote);
      if |texts| > 1 {
        assert texts[1..][|texts[1..]| - 1] == texts[|texts| - 1];
      } else {
        assert texts[1..] == [];
      }
    }
  }

  /** Three runs on an address the pattern accepts call `validate` once (and the remote validator once). */
  lemma ThreeRunsValidateOnce(c: Core, text: string)
    requires RoundStarts(c, text) && text !in c.cache && EmailPattern.Matches(text)
    ensures var d := RunAll(c, [text, text, text], true);
      Validations(d.trace) == Validations(c.trace) + 1 && d.state == Pending &&
      d.requests == c.requests[c.nextRequest := Request(Some(text), true, false)]
  {
    var first := RunStep(c, text, true).0;
    RunValidatesOnlyOnNewRounds(c, text, true);
    PendingBlocksRuns(first, [text, text], true);
    assert [text, text, text][1..] == [text, text];
  }

  /**
   * A value typed while the remote call for an earlier value is in flight
   * gets the earlier value's result cached under it: the key is the value
   * the field holds when the call resolves.
   */
  lemma ResultCachedUnderCurrentValue(c: Core, a: string, b: string, v: JsValue)
    requires RoundStarts(c, a) && a !in c.cache && EmailPattern.Matches(a)
    requires v != JsOther
    ensures var started := RunStep(c, a, true);
      var retyped := RunStep(started.0, b, true).0;
      started.1 == Awaiting(c.nextRequest) && c.nextRequest in retyped.requests &&
      var resolved := ResolveStep(retyped, c.nextRequest, v);
      resolved.cache == c.cache[b := v] && resolved.state == StateAfter(v) && resolved.previousValue == Some(b)
  {
    var started := RunStep(c, a, true);
    assert started.0.state == Pending;
  }

  /** The case above with a value the pattern rejects: it is cached as valid without ever being checked. */
  lemma UncheckedValueCachedValid()
    ensures var started := RunStep(Start, "name@gmail.com", true);
      var retyped := RunStep(started.0, "email", true).0;
      0 in retyped.requests &&
      var resolved := ResolveStep(retyped, 0, JsTrue);
      resolved.cache == map["email" := JsTrue] && !EmailPattern.Matches("email")
  {
    EmailPattern.AcceptsPlainAddress();
    EmailPattern.RejectsWithoutAt("email");
    ResultCachedUnderCurrentValue(Start, "name@gmail.com", "email", JsTrue);
  }

  /** A value the pattern rejects: Invalid at once, `false` cached, the remote validator never called. */
  lemma PatternFailureNeverGoesRemote(c: Core, text: string, remote: bool)
    requires RoundStarts(c, text) && text !in c.cache && !EmailPattern.Matches(text)
    ensures var d := RunStep(c, text, remote).0;
      d.state == Invalid && d.state != Pending && d.cache == c.cache[text := JsFalse] &&
      d.requests == c.requests && d.nextRequest == c.nextRequest &&
      d.previousValue == Some(text) && d.trace == c.trace + [ValidateCall]
  {
  }

  /** A submit of an unchanged value re-reads the state; Undefined lets the form through without validating. */
  lemma UnchangedUndefinedSubmits(c: Core, text: string, remote: bool)
    requires c.previousValue == Some(text) && c.state == Undefined
    ensures var d := SubmitStep(c, text, remote, false);
      FormSubmitted in d.trace[|c.trace|..] && Validations(d.trace) == Validations(c.trace)
  {
    var c0 := c.(timers := c.timers.CancelReset());
    var ran := RunStep(c0, text, remote);
    assert ran.1 == Returned && ran.0.trace == c.trace;
    var d := SettleSubmitStep(ran.0);
    assert d.trace == c.trace + [FormSubmitted, SubmitNotified];
    assert multiset(d.trace) == multiset(c.trace) + multiset([FormSubmitted, SubmitNotified]);
  }

  /** A submit of a new, uncached, accepted value holds back on one remote call that both `run` and the submit wait on. */
  lemma SubmitHeldOnRemote(c: Core, text: string)
    requires RoundStarts(c, text) && text !in c.cache && EmailPattern.Matches(text)
    ensures var held := SubmitStep(c, text, true, false);
      held.state == Pending && held.cache == c.cache && held.value == Some(text) &&
      held.trace == c.trace + [ValidateCall, RemoteCall(Some(text))] &&
      held.requests == c.requests[c.nextRequest := Request(Some(text), true, true)] &&
      held.nextRequest == c.nextRequest + 1
  {
    var c0 := c.(timers := c.timers.CancelReset());
    var ran := RunStep(c0, text, true);
    assert ran.1 == Awaiting(c.nextRequest);
    assert ran.0.requests == c.requests[c.nextRequest := Request(Some(text), true, false)];
  }

  /**
   * A rejected remote call leaves the state Undefined and nothing cached;
   * the submit that waited on it stays held back, and the next submit of
   * the same value goes through without validating again.
   */
  lemma RejectedThenResubmitted(c: Core, text: string)
    requires RoundStarts(c, text) && text !in c.cache && EmailPattern.Matches(text)
    ensures var held := SubmitStep(c, text, true, false);
      c.nextRequest in held.requests &&
      var rejected := RejectStep(held, c.nextRequest);
      rejected.state == Undefined && rejected.cache == c.cache && rejected.marks == NoMarks &&
      FormSubmitted !in rejected.trace[|c.trace|..] &&
      var again := SubmitStep(rejected, text, true, false);
      FormSubmitted in again.trace[|rejected.trace|..] && Validations(again.trace) == Validations(rejected.trace)
  {
    SubmitHeldOnRemote(c, text);
    var held := SubmitStep(c, text, true, false);
    var rejected := RejectStep(held, c.nextRequest);
    assert rejected.trace[|c.trace|..] == [ValidateCall, RemoteCall(Some(text))];
    UnchangedUndefinedSubmits(rejected, text, true);
  }

  /** Submitting a value the pattern rejects focuses the field and does not let the form through. */
  lemma InvalidSubmitFocuses(c: Core, text: string, remote: bool)
    requires RoundStarts(c, text) && text !in c.cache && !EmailPattern.Matches(text)
    ensures var d := SubmitStep(c, text, remote, false);
      d.state == Invalid && FieldFocused in d.trace[|c.trace|..] && FormSubmitted !in d.trace[|c.trace|..]
  {
    var c0 := c.(timers := c.timers.CancelReset());
    var ran := RunStep(c0, text, remote);
    assert ran.1 == Settled(JsFalse) && ran.0.state == Invalid;
    var d := SettleSubmitStep(ran.0);
    assert ran.0.trace == c.trace + [ValidateCall];
    assert d.trace[|c.trace|..] == [ValidateCall] + d.trace[|ran.0.trace|..];
  }

  /** A submit held back on a remote call goes through, and is announced, once the call resolves `true` or `undefined`. */
  lemma ResolvedSubmitGoesThrough(c: Core, text: string, v: JsValue)
    requires RoundStarts(c, text) && text !in c.cache && EmailPattern.Matches(text)
    ensures var held := SubmitStep(c, text, true, false);
      c.nextRequest in held.requests && FormSubmitted !in held.trace[|c.trace|..] &&
      var resolved := ResolveStep(held, c.nextRequest, v);
      (v == JsTrue || v == JsUndefined ==>
        FormSubmitted in resolved.trace[|held.trace|..] && SubmitNotified in resolved.trace[|held.trace|..] &&
        resolved.cache == c.cache[text := v] && resolved.state == StateAfter(v)) &&
      (v == JsFalse ==> FieldFocused in resolved.trace[|held.trace|..] && FormSubmitted !in resolved.trace[|held.trace|..])
  {
    SubmitHeldOnRemote(c, text);
    var held := SubmitStep(c, text, true, false);
    assert held.trace[|c.trace|..] == [ValidateCall, RemoteCall(Some(text))];
  }

  /**
   * A submit made while a blur-started validation is in flight is dropped:
   * it is settled at once on Pending, and the later result does not submit.
   */
  lemma SubmitWhilePendingIsDropped(c: Core, text: string, v: JsValue)
    requires RoundStarts(c, text) && text !in c.cache && EmailPattern.Matches(text)
    requires v != JsOther
    ensures var blurred := RunStep(c, text, true).0;
      var submitted := SubmitStep(blurred, text, true, false);
      submitted.trace == blurred.trace && c.nextRequest in submitted.requests &&
      ResolveStep(submitted, c.nextRequest, v).trace == submitted.trace
  {
    var blurred := RunStep(c, text, true).0;
    assert blurred.state == Pending;
    var b0 := blurred.(timers := blurred.timers.CancelReset());
    var ran := RunStep(b0, text, true);
    assert ran.1 == Returned && ran.0.state == Pending;
  }

  /** A cache hit applies the entry under "undefined", not the one stored for the value (here: `false` for "name"). */
  lemma CachedValueIgnored(c: Core, text: string, remote: bool)
    requires RoundStarts(c, text) && c.cache == map[text := JsFalse] && text != "undefined"
    ensures var r := RunStep(c, text, remote);
      r.1 == Settled(JsUndefined) && r.0.state == Undefined && r.0.marks == NoMarks &&
      Validations(r.0.trace) == Validations(c.trace)
  {
    assert "undefined" !in c.cache;
    RunValidatesOnlyOnNewRounds(c, text, remote);
  }

  /** The default `remoteValidate` throws after Pending is set: the field stays Pending and no later run starts anything. */
  lemma MissingRemoteLocksPending(c: Core, text: string, later: seq<string>)
    requires RoundStarts(c, text) && text !in c.cache && EmailPattern.Matches(text)
    ensures var r := RunStep(c, text, false);
      r.1 == Thrown && r.0.state == Pending && r.0.requests == c.requests &&
      var d := RunAll(r.0, later, false);
      d.state == Pending && Validations(d.trace) == Validations(r.0.trace)
  {
    var r := RunStep(c, text, false);
    PendingBlocksRuns(r.0, later, false);
  }

  /** Pending then invalid: the field keeps its `disabled` property. */
  lemma PendingThenInvalidStaysDisabled(m: Marks)
    ensures var d := Shown(JsFalse, m.Loading());
      d.invalid && !d.valid && !d.loading && d.submitDisabled && d.fieldDisabled
  {
  }

  /** Blur then submit: the submit's `run` cancels the blur timer, so `run` is not called a second time. */
  lemma BlurThenSubmitRunsOnce(c: Core, text: string, remote: bool)
    requires c.Valid()
    ensures var blurred := BlurStep(c);
      var d := SubmitStep(blurred, text, remote, false);
      c.timers.next !in d.timers.blurPending && d.timers.blurPending <= c.timers.blurPending
  {
    var blurred := BlurStep(c);
    var b0 := blurred.(timers := blurred.timers.CancelReset());
    var ran := RunStep(b0, text, remote);
    assert ran.0.timers.blurPending == c.timers.blurPending;
  }

  /** Blur then focus before the delay: no blur timer of the field's is left to fire. */
  lemma FocusAfterBlurCancelsRun(c: Core)
    requires c.Valid()
    ensures FocusStep(BlurStep(c)).timers.blurPending == c.timers.blurPending
  {
    FocusCancelsBlur(c.timers.CancelReset());
  }

  /** Keyup after an invalid mark: when the reset timer fires, the marks are cleared and the state is kept. */
  lemma KeyupThenResetClearsMarks(c: Core)
    requires c.Valid()
    ensures var typed := KeyupStep(c);
      c.timers.next in typed.timers.resetPending &&
      var reset := ResetFiresStep(typed, c.timers.next);
      reset.marks == NoMarks && reset.state == c.state && reset.timers.resetPending == {}
  {
  }

  // ---------------------------------------------------------------------------
  // At most one validation in flight

  /**
   * The single-flight guard of `run`: at most one remote call is in flight,
   * and one is in flight only while the state is Pending. A `remoteValidate`
   * called directly, outside the lifecycle, breaks it, so it is no part of
   * `Core.Valid`.
   */
  predicate SingleFlight(c: Core) {
    (c.requests != map[] ==> c.state == Pending) &&
    forall i, j :: i in c.requests && j in c.requests ==> i == j
  }

  /** Under the guard, the requests in flight number at most one. */
  lemma SingleFlightAtMostOne(c: Core)
    requires SingleFlight(c)
    ensures |c.requests| <= 1
  {
    if c.requests != map[] {
      var i :| i in c.requests;
      assert c.requests.Keys == {i};
    }
  }

  /** `run` keeps the guard: it calls remote only from a state that is not Pending, so with nothing in flight. */
  lemma RunKeepsSingleFlight(c: Core, text: string, remote: bool)
    requires SingleFlight(c)
    ensures SingleFlight(RunStep(c, text, remote).0)
  {
    var d := RunStep(c, text, remote).0;
    if RoundStarts(c, text) && text !in c.cache && EmailPattern.Matches(text) && remote {
      assert c.requests == map[];
      assert d.requests.Keys == {c.nextRequest};
    }
  }

  /** The submit handler keeps the guard. */
  lemma SubmitKeepsSingleFlight(c: Core, text: string, remote: bool, evPlugin: bool)
    requires SingleFlight(c)
    ensures SingleFlight(SubmitStep(c, text, remote, evPlugin))
  {
    if !evPlugin {
      var c0 := c.(timers := c.timers.CancelReset());
      RunKeepsSingleFlight(c0, text, remote);
      var ran := RunStep(c0, text, remote);
      var d := SubmitStep(c, text, remote, evPlugin);
      if ran.1.Awaiting? {
        assert d.requests.Keys == ran.0.requests.Keys;
      }
    }
  }

  /** A firing blur timer runs `run`, so it keeps the guard. */
  lemma BlurFiresKeepsSingleFlight(c: Core, id: nat, text: string, remote: bool)
    requires SingleFlight(c) && id in c.timers.blurPending
    ensures SingleFlight(BlurFiresStep(c, id, text, remote))
  {
    RunKeepsSingleFlight(c.(timers := c.timers.FireBlur(id)), text, remote);
  }

  /** Blur, focus, keyup and the reset timer touch neither the state nor the requests. */
  lemma FieldEventsKeepSingleFlight(c: Core)
    requires SingleFlight(c)
    ensures SingleFlight(BlurStep(c)) && SingleFlight(FocusStep(c)) && SingleFlight(KeyupStep(c))
    ensures forall id :: id in c.timers.resetPending ==> SingleFlight(ResetFiresStep(c, id))
  {
  }

  /** The call in flight resolving leaves nothing in flight. */
  lemma ResolveEndsFlight(c: Core, id: nat, v: JsValue)
    requires SingleFlight(c) && id in c.requests
    ensures ResolveStep(c, id, v).requests == map[]
    ensures SingleFlight(ResolveStep(c, id, v))
  {
    assert (c.requests - {id}).Keys == {};
  }

  /** The call in flight being rejected leaves nothing in flight. */
  lemma RejectEndsFlight(c: Core, id: nat)
    requires SingleFlight(c) && id in c.requests
    ensures RejectStep(c, id).requests == map[]
    ensures SingleFlight(RejectStep(c, id))
  {
    assert (c.requests - {id}).Keys == {};
  }

  /**
   * What can happen to an inited field: its handlers, its timers firing,
   * `run` called by other code, and the remote call settling. `text` is the
   * field's value at that moment.
   */
  datatype HostEvent =
    | Blurred | Focused | Typed
    | BlurFired(id: nat, text: string) | ResetFired(id: nat)
    | RunCalled(text: string) | Submitted(text: string, evPlugin: bool)
    | Resolved(id: nat, v: JsValue) | Rejected(id: nat)

  /** One event; the host fires only timers it has scheduled and settles only calls in flight. */
  function Apply(c: Core, e: HostEvent, remote: bool): (d: Core)
    ensures c.Valid() ==> d.Valid()
  {
    match e
    case Blurred => BlurStep(c)
    case Focused => FocusStep(c)
    case Typed => KeyupStep(c)
    case BlurFired(id, text) => if id in c.timers.blurPending then BlurFiresStep(c, id, text, remote) else c
    case ResetFired(id) => if id in c.timers.resetPending then ResetFiresStep(c, id) else c
    case RunCalled(text) => RunStep(c, text, remote).0
    case Submitted(text, evPlugin) => SubmitStep(c, text, remote, evPlugin)
    case Resolved(id, v) => if id in c.requests then ResolveStep(c, id, v) else c
    case Rejected(id) => if id in c.requests then RejectStep(c, id) else c
  }

  /** The events `es`, in order. */
  function ApplyAll(c: Core, es: seq<HostEvent>, remote: bool): (d: Core)
    ensures c.Valid() ==> d.Valid()
    decreases |es|
  {
    if es == [] then c else ApplyAll(Apply(c, es[0], remote), es[1..], remote)
  }

  /** Every event keeps the guard. */
  lemma EventKeepsSingleFlight(c: Core, e: HostEvent, remote: bool)
    requires SingleFlight(c)
    ensures SingleFlight(Apply(c, e, remote))
  {
    match e
    case Blurred => FieldEventsKeepSingleFlight(c);
    case Focused => FieldEventsKeepSingleFlight(c);
    case Typed => FieldEventsKeepSingleFlight(c);
    case BlurFired(id, text) => if id in c.timers.blurPending { BlurFiresKeepsSingleFlight(c, id, text, remote); }
    case ResetFired(id) => FieldEventsKeepSingleFlight(c);
    case RunCalled(text) => RunKeepsSingleFlight(c, text, remote);
    case Submitted(text, evPlugin) => SubmitKeepsSingleFlight(c, text, remote, evPlugin);
    case Resolved(id, v) => if id in c.requests { ResolveEndsFlight(c, id, v); }
    case Rejected(id) => if id in c.requests { RejectEndsFlight(c, id); }
  }

  /** Any sequence of events keeps the guard. */
  lemma {:induction false} EventsKeepSingleFlight(c: Core, es: seq<HostEvent>, remote: bool)
    requires SingleFlight(c)
    ensures SingleFlight(ApplyAll(c, es, remote))
    decreases |es|
  {
    if es != [] {
      EventKeepsSingleFlight(c, es[0], remote);
      EventsKeepSingleFlight(Apply(c, es[0], remote), es[1..], remote);
    }
  }

  /** From a fresh field, whatever happens, at most one remote call is in flight, and only while Pending. */
  lemma AtMostOneInFlight(es: seq<HostEvent>, remote: bool)
    ensures var d := ApplyAll(Start, es, remote);
      |d.requests| <= 1 && (d.requests != map[] ==> d.state == Pending)
  {
    EventsKeepSingleFlight(Start, es, remote);
    SingleFlightAtMostOne(ApplyAll(Start, es, remote));
  }
}
