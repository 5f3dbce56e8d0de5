/** The text slice of the store: a piece of text and whether it is shown. */
module TextSlice {
  import opened Wrappers
  import opened Actions

  datatype TextState = TextState(text: string, isVisible: bool)

  /** The state the reducer starts from when it is given no state. */
  const InitialTextState: TextState := TextState("hoge", true)

  /** The reducer's default parameter: an undefined state reads as the
      initial one. */
  function Current(state: Option<TextState>): (s: TextState)
    ensures state.Some? ==> s == state.value
    ensures state.None? ==> s == InitialTextState
  {
    state.GetOr(InitialTextState)
  }

  /** The text reducer. `SWITCH` copies the state with `isVisible` negated;
      every other action returns the state it was given. */
  function TextReduce(state: Option<TextState>, action: Action): (r: TextState)
    ensures r.text == Current(state).text
    ensures r.isVisible != Current(state).isVisible <==> action == Switch
    ensures action != Switch ==> r == Current(state)
  {
    var s := Current(state);
    match action
    case Switch => s.(isVisible := !s.isVisible)
    case _ => s
  }

  /** The text slice after `n` `SWITCH` actions, starting from `s`. */
  function SwitchN(s: TextState, n: nat): (r: TextState)
    ensures r.text == s.text
  {
    if n == 0 then s else TextReduce(Some(SwitchN(s, n - 1)), Switch)
  }

  /** `SWITCH` is an involution on the text slice. */
  lemma SwitchTwice(s: TextState)
    ensures TextReduce(Some(TextReduce(Some(s), Switch)), Switch) == s
  {
  }

  /** After `n` switches the visibility is flipped exactly when `n` is odd. */
  lemma {:induction false} SwitchNParity(s: TextState, n: nat)
    ensures SwitchN(s, n).isVisible == (s.isVisible != (n % 2 == 1))
  {
    if n > 0 {
      SwitchNParity(s, n - 1);
    }
  }

  /** A run of switches leaves the text slice as it was if and only if the run
      has even length. */
  lemma SwitchNIdentity(s: TextState, n: nat)
    ensures SwitchN(s, n) == s <==> n % 2 == 0
  {
    SwitchNParity(s, n);
  }
}
