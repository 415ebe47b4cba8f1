/**
 * The validation states and the JavaScript values that stand for them
 * (the `STATES` table), and the `isState` test by state name.
 */
module States {
  import opened Optional

  /**
   * The values the lifecycle passes around: a cached entry, whatever a
   * remote validator resolves with, the argument of `setState`. `Other`
   * is every value that is none of the four `STATES` values.
   */
  datatype JsValue = JsUndefined | JsTrue | JsFalse | JsNull | JsOther

  /** A field's validation state. `Undefined` is also what a never-set state reads as. */
  datatype State = Undefined | Valid | Invalid | Pending

  /** The `STATES` table: the value that encodes each state. */
  function Encode(s: State): (v: JsValue)
    ensures v != JsOther
  {
    match s
    case Undefined => JsUndefined
    case Valid => JsTrue
    case Invalid => JsFalse
    case Pending => JsNull
  }

  /** The state a value encodes, if any; `Encode` is its inverse (see `DecodeEncode` for the other direction). */
  function Decode(v: JsValue): (r: Option<State>)
    ensures r.None? <==> v == JsOther
    ensures r.Some? ==> Encode(r.value) == v
  {
    match v
    case JsUndefined => Some(Undefined)
    case JsTrue => Some(Valid)
    case JsFalse => Some(Invalid)
    case JsNull => Some(Pending)
    case JsOther => None
  }

  /** `Decode` takes every encoding back to its state: the two directions of the `STATES` table. */
  lemma DecodeEncode(s: State)
    ensures Decode(Encode(s)) == Some(s)
  {
  }

  /** JavaScript's `toUpperCase` on the ASCII letters (other characters are kept). */
  function UpperAscii(name: string): string {
    seq(|name|, i requires 0 <= i < |name| =>
      if 'a' <= name[i] <= 'z' then (name[i] as int - 32) as char else name[i])
  }

  /** `STATES[key]`: a missing key reads as `undefined`. */
  function StatesEntry(key: string): JsValue {
    if key == "VALID" then JsTrue
    else if key == "INVALID" then JsFalse
    else if key == "PENDING" then JsNull
    else JsUndefined
  }

  /**
   * `isState(name)`: the state strictly equals `STATES[name.toUpperCase()]`.
   * A name that is no key of the table selects `undefined`, so it tests for
   * the `Undefined` state.
   */
  function IsState(s: State, name: string): (r: bool)
    ensures UpperAscii(name) == "VALID" ==> (r <==> s == Valid)
    ensures UpperAscii(name) == "INVALID" ==> (r <==> s == Invalid)
    ensures UpperAscii(name) == "PENDING" ==> (r <==> s == Pending)
    ensures UpperAscii(name) !in {"VALID", "INVALID", "PENDING"} ==> (r <==> s == Undefined)
  {
    Encode(s) == StatesEntry(UpperAscii(name))
  }

  /** The four names the lifecycle asks about, upper-cased. */
  lemma StateNames()
    ensures UpperAscii("valid") == "VALID"
    ensures UpperAscii("invalid") == "INVALID"
    ensures UpperAscii("pending") == "PENDING"
    ensures UpperAscii("undefined") == "UNDEFINED"
  {
  }

  /** `isState` with the names the lifecycle uses tests for exactly that state. */
  lemma IsStateByName(s: State)
    ensures IsState(s, "valid") <==> s == Valid
    ensures IsState(s, "invalid") <==> s == Invalid
    ensures IsState(s, "pending") <==> s == Pending
    ensures IsState(s, "undefined") <==> s == Undefined
  {
    StateNames();
  }
}
