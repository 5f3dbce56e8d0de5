# Reducers of the router/redux demonstration application

This project models, in Dafny, the state logic of the demonstration
application in `src/app/bundle.jsx`: two pure slice reducers and the
combined reducer the store applies on every dispatch.

- **Text slice** (`TextSlice`): a record `{text, isVisible}` starting as
  `{"hoge", true}`. A `SWITCH` action negates `isVisible` and keeps `text`;
  any other action returns the state unchanged.
- **Goods slice** (`GoodsSlice`): a record `{goods}` starting as
  `["milk", "flour", "nuts", "apples", "pen"]`. A `ROTATE` action replaces the
  list by `goods.slice(1).concat(goods.slice(0, 1))`, moving the first item
  to the end (an empty list stays empty); any other action returns the state
  unchanged.
- **Combined state** (`Store`): `combineReducers` hands each slice reducer its
  own sub-state and reassembles the snapshot. `Store.Run` folds a sequence of
  dispatched actions, which is all the store does with its state.
- **Actions** (`Actions`): the reducers switch on the action's string `type`.
  The model uses the closed variant `Switch | Rotate | Other(kind)`;
  `Actions.Classify` maps a tag to it by exact string comparison, as the
  `switch` statements do.

A reducer's default parameter (`state = initialTextState`) is modelled by
passing the sub-state as `Option<…>`: `None` is the undefined state the store
passes on its first call, and it reads as the initial state.

The goods slice is modelled from the code. Another variant of the
application gives the goods slice loading flags and fetch actions driven by
an asynchronous effect routine; none of that is in `src/app/bundle.jsx`, so
the model follows this file and the goods state has only `goods`.

## Model

| member | source | states |
|---|---|---|
| Actions.Classify | src/app/bundle.jsx:21-22 | a tag is classified as `Switch` exactly when it is "SWITCH" and as `Rotate` exactly when it is "ROTATE"; the result is well formed and carries the tag back |
| Actions.ClassifyTypeOf | src/app/bundle.jsx:35-36 | classifying the tag of a well-formed action gives the same action back |
| TextSlice.Current | src/app/bundle.jsx:16-20 | an undefined text state reads as `{"hoge", true}`; a defined one is used as is |
| TextSlice.TextReduce | src/app/bundle.jsx:20-29 | the text is always kept; `isVisible` changes if and only if the action is `SWITCH`; any other action returns the state unchanged |
| TextSlice.SwitchN | src/app/bundle.jsx:23-26 | no number of switches alters the text |
| TextSlice.SwitchTwice | src/app/bundle.jsx:22-26 | two `SWITCH` actions give back the original text slice |
| TextSlice.SwitchNParity | src/app/bundle.jsx:22-26 | after `n` switches the visibility is flipped exactly when `n` is odd |
| TextSlice.SwitchNIdentity | src/app/bundle.jsx:22-26 | a run of switches restores the text slice if and only if its length is even |
| GoodsSlice.Current | src/app/bundle.jsx:31-34 | an undefined goods state reads as the five documented items; a defined one is used as is |
| GoodsSlice.RotateOnce | src/app/bundle.jsx:38-41 | rotation keeps the length, and on a non-empty list the former first item ends up last |
| GoodsSlice.RotateOncePermutes | src/app/bundle.jsx:38-41 | rotation keeps the same items with the same multiplicities |
| GoodsSlice.RotateOnceShift | src/app/bundle.jsx:39 | every other item moves one place towards the front |
| GoodsSlice.GoodsReduce | src/app/bundle.jsx:34-45 | `ROTATE` rotates the current list; any other action returns the state unchanged |
| GoodsSlice.RotateNPermutes | src/app/bundle.jsx:38-41 | any number of rotations is a permutation of the items |
| GoodsSlice.RotateNSplit | src/app/bundle.jsx:38-41 | `k` (at most the length) rotations give `goods[k..] + goods[..k]` |
| GoodsSlice.RotateFullCycle | src/app/bundle.jsx:38-41 | rotating as many times as there are items gives back the original list |
| GoodsSlice.RotateNAdd | src/app/bundle.jsx:38-41 | `a` rotations followed by `b` rotations equal `a + b` rotations |
| GoodsSlice.RotateNPeriodic | src/app/bundle.jsx:38-41 | rotation counts are periodic with period the number of items |
| GoodsSlice.RotateNIndex | src/app/bundle.jsx:38-41 | rotation is cyclic: after `k` rotations position `i` holds the item formerly at `(i + k)` modulo the number of items |
| Store.Reduce | src/app/bundle.jsx:49-54 | `SWITCH` leaves the goods slice unchanged and flips visibility; `ROTATE` leaves the text slice unchanged and rotates the goods; any other action leaves a defined snapshot unchanged; the text is never altered |
| Store.UndefinedIsInitial | src/app/bundle.jsx:16-19 | reducing an undefined snapshot is the same as reducing the documented initial snapshot |
| Store.InitialisationYieldsInitialState | src/app/bundle.jsx:31-33 | the store's first reduction with an unrecognised action yields both documented initial slices |
| Store.RunCounts | src/app/bundle.jsx:49-54 | after any sequence of dispatches, the text slice has been switched once per `SWITCH` and the goods rotated once per `ROTATE`, whatever the interleaving |
| Store.StepAfterCounts | src/app/bundle.jsx:49-54 | one dispatch adds one to the count of its own kind and leaves the other slice's count alone |
| Store.RunReorder | src/app/bundle.jsx:49-54 | two histories with the same multiset of actions reach the same snapshot |
| Store.RotateRoundTrip | src/app/bundle.jsx:36-41 | dispatching `ROTATE` once per item gives back the starting snapshot |
| Store.Replay | src/app/bundle.jsx:55 | dispatching a sequence of actions one by one keeps the text, flips visibility by the parity of the `SWITCH` count and rotates the goods by the `ROTATE` count |

## Left out

- The `routing` slice (`routerReducer`), `syncHistoryWithStore` and the
  memory history: library behaviour whose source is not part of this model.
- `createStore` and the `redux-logger` middleware: the store is abstracted as
  `state' = Reduce(state, action)` (`Store.Step`, `Store.Run`); logging is I/O.
- Observer notification and `subscribe`: the library store's callbacks carry
  no state logic of the application.
- The React components, the `connect` mappings and rendering, including the
  view's `isVisible ? text : ""`: user-interface glue.
- Reference identity: a reducer returns the very object it was given for an
  unknown action, and `combineReducers` reuses the previous snapshot when no
  slice changed. Dafny values have no identity, so the model states value
  equality only.
- `Object.assign` copying fields other than `isVisible`: the text state has
  exactly the two fields, so copying the rest is keeping `text`.
- The asynchronous fetch routine, its loading flags and fetch actions: they
  do not appear in `src/app/bundle.jsx`.
- `webpack.config.js`: build configuration with no behaviour.
