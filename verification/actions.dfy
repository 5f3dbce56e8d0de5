/** The actions the store is asked to dispatch. In the application an action
    is an object whose `type` field is a string tag; the reducers recognise
    the tags "SWITCH" and "ROTATE" and treat every other tag alike. */
module Actions {

  /** A closed variant of the action tags: `Other` stands for any tag that no
      reducer of the model recognises (including the store's own start-up
      action). */
  datatype Action = Switch | Rotate | Other(kind: string)

  const SwitchType: string := "SWITCH"
  const RotateType: string := "ROTATE"

  /** An `Other` action never carries one of the two recognised tags, so each
      tag has exactly one representation. */
  predicate WellFormed(a: Action) {
    a.Other? ==> a.kind != SwitchType && a.kind != RotateType
  }

  /** The `type` tag of the action object a view would dispatch. */
  function TypeOf(a: Action): (t: string)
    ensures WellFormed(a) ==> (t == SwitchType <==> a == Switch)
    ensures WellFormed(a) ==> (t == RotateType <==> a == Rotate)
  {
    match a
    case Switch => SwitchType
    case Rotate => RotateType
    case Other(k) => k
  }

  /** Reads an action object's `type` tag the way the reducers' `switch`
      statements do: an exact string comparison with each known tag. */
  function Classify(t: string): (a: Action)
    ensures WellFormed(a)
    ensures TypeOf(a) == t
    ensures a == Switch <==> t == SwitchType
    ensures a == Rotate <==> t == RotateType
  {
    if t == SwitchType then Switch
    else if t == RotateType then Rotate
    else Other(t)
  }

  /** Classifying the tag of a well-formed action gives the action back. */
  lemma ClassifyTypeOf(a: Action)
    requires WellFormed(a)
    ensures Classify(TypeOf(a)) == a
  {
  }
}
