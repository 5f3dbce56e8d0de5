/** The store's combined reducer: each slice reducer is applied to its own
    sub-state and the results are reassembled into one snapshot. */
module Store {
  import opened Wrappers
  import opened Actions
  import opened TextSlice
  import opened GoodsSlice

  datatype State = State(textState: TextState, goodsListState: GoodsListState)

  /** The snapshot the store holds once it has initialised. */
  const InitialState: State := State(InitialTextState, InitialGoodsListState)

  /** The sub-state the combined reducer hands to the text reducer. */
  function TextOf(state: Option<State>): Option<TextState> {
    if state.Some? then Some(state.value.textState) else None
  }

  /** The sub-state the combined reducer hands to the goods reducer. */
  function GoodsOf(state: Option<State>): Option<GoodsListState> {
    if state.Some? then Some(state.value.goodsListState) else None
  }

  /** The combined reducer. Every action reaches both slice reducers; `SWITCH`
      changes only the text slice, `ROTATE` only the goods slice, and any
      other action changes nothing. */
  function Reduce(state: Option<State>, action: Action): (r: State)
    ensures action != Switch ==> r.textState == TextSlice.Current(TextOf(state))
    ensures action != Rotate ==> r.goodsListState == GoodsSlice.Current(GoodsOf(state))
    ensures action == Switch ==>
      r.textState.isVisible != TextSlice.Current(TextOf(state)).isVisible
    ensures r.textState.text == TextSlice.Current(TextOf(state)).text
    ensures action == Rotate ==>
      r.goodsListState.goods == GoodsSlice.RotateOnce(GoodsSlice.Current(GoodsOf(state)).goods)
    ensures state.Some? && action.Other? ==> r == state.value
  {
    State(TextReduce(TextOf(state), action), GoodsReduce(GoodsOf(state), action))
  }

  /** An undefined store state behaves exactly like the documented initial
      snapshot, whatever the action. */
  lemma UndefinedIsInitial(action: Action)
    ensures Reduce(None, action) == Reduce(Some(InitialState), action)
  {
  }

  /** The store's first reduction, made with an action no reducer recognises,
      yields the documented initial snapshot. */
  lemma InitialisationYieldsInitialState(action: Action)
    requires action.Other?
    ensures Reduce(None, action) == InitialState
  {
  }

  /** One dispatch: the next snapshot of a store holding `s`. */
  function Step(s: State, action: Action): State {
    Reduce(Some(s), action)
  }

  /** The snapshot after dispatching `actions` in order, starting from `s`. */
  function Run(s: State, actions: seq<Action>): State
    decreases |actions|
  {
    if |actions| == 0 then s
    else Step(Run(s, actions[..|actions| - 1]), actions[|actions| - 1])
  }

  /** The state reached after `switches` switches and `rotations` rotations
      from `s`. */
  function AfterCounts(s: State, switches: nat, rotations: nat): State {
    State(SwitchN(s.textState, switches),
          GoodsListState(RotateN(s.goodsListState.goods, rotations)))
  }

  /** How many times `a` occurs in `actions`. */
  function Occurrences(actions: seq<Action>, a: Action): nat {
    multiset(actions)[a]
  }

  /** Slice independence over whole histories: after any sequence of actions
      the text slice has seen exactly the `SWITCH` actions and the goods
      slice exactly the `ROTATE` actions, whatever their interleaving. */
  lemma {:induction false} RunCounts(s: State, actions: seq<Action>)
    ensures Run(s, actions) ==
      AfterCounts(s, Occurrences(actions, Switch), Occurrences(actions, Rotate))
    decreases |actions|
  {
    if |actions| > 0 {
      var init := actions[..|actions| - 1];
      var last := actions[|actions| - 1];
      RunCounts(s, init);
      OccurrencesSnoc(init, last, Switch);
      OccurrencesSnoc(init, last, Rotate);
      assert actions == init + [last];
      StepAfterCounts(s, Occurrences(init, Switch), Occurrences(init, Rotate), last);
    }
  }

  /** One more dispatch adds one to the count of its own kind only. */
  lemma StepAfterCounts(s: State, switches: nat, rotations: nat, action: Action)
    ensures Step(AfterCounts(s, switches, rotations), action) ==
      AfterCounts(s, switches + (if action == Switch then 1 else 0),
                     rotations + (if action == Rotate then 1 else 0))
  {
  }

  /** Appending one action adds one to its own count only. */
  lemma OccurrencesSnoc(actions: seq<Action>, last: Action, a: Action)
    ensures Occurrences(actions + [last], a) ==
      Occurrences(actions, a) + (if last == a then 1 else 0)
  {
    assert multiset(actions + [last]) == multiset(actions) + multiset{last};
  }

  /** Reordering the dispatched actions does not change the final snapshot. */
  lemma RunReorder(s: State, actions: seq<Action>, reordered: seq<Action>)
    requires multiset(actions) == multiset(reordered)
    ensures Run(s, actions) == Run(s, reordered)
  {
    RunCounts(s, actions);
    RunCounts(s, reordered);
  }

  /** Dispatching `ROTATE` once per item gives back the snapshot the store
      started from. */
  lemma RotateRoundTrip(s: State)
    ensures Run(s, seq(|s.goodsListState.goods|, _ => Rotate)) == s
  {
    var actions := seq(|s.goodsListState.goods|, _ => Rotate);
    RunCounts(s, actions);
    assert Occurrences(actions, Switch) == 0 by {
      assert Switch !in actions;
    }
    assert Occurrences(actions, Rotate) == |actions| by {
      RotateCount(actions);
    }
    RotateFullCycle(s.goodsListState.goods);
  }

  /** A run made only of `ROTATE` actions counts one rotation per action. */
  lemma {:induction false} RotateCount(actions: seq<Action>)
    requires forall i :: 0 <= i < |actions| ==> actions[i] == Rotate
    ensures Occurrences(actions, Rotate) == |actions|
  {
    if |actions| > 0 {
      RotateCount(actions[1..]);
      assert actions == [actions[0]] + actions[1..];
    }
  }

  /** A store dispatching `actions` one after another, as the running
      application does: the text is never altered, the visibility has been
      flipped once per `SWITCH`, and the goods have been rotated once per
      `ROTATE`. */
  method Replay(s: State, actions: seq<Action>) returns (r: State)
    ensures r.textState.text == s.textState.text
    ensures r.textState.isVisible ==
      (s.textState.isVisible != (Occurrences(actions, Switch) % 2 == 1))
    ensures r.goodsListState.goods ==
      RotateN(s.goodsListState.goods, Occurrences(actions, Rotate))
  {
    r := s;
    var i := 0;
    while i < |actions|
      invariant 0 <= i <= |actions|
      invariant r == Run(s, actions[..i])
    {
      assert actions[..i + 1][..i] == actions[..i];
      r := Step(r, actions[i]);
      i := i + 1;
    }
    assert actions[..i] == actions;
    RunCounts(s, actions);
    SwitchNParity(s.textState, Occurrences(actions, Switch));
  }
}
