/** Result shapes shared by the whole model.
    Option stands for a Python value that may be None; Outcome stands for a
    Python call that either returns a value or raises an exception. */
module Wrappers {

  datatype Option<+T> = None | Some(value: T)

  /** The result of running Python code that may raise: either the value it
      returned, or the fact that an exception escaped from it. */
  datatype Outcome<+T> = Returned(value: T) | Raised

  /** Running two enumerations one after the other: an exception in the first
      stops everything, an exception in the second discards nothing of the
      first but still escapes. */
  function Concat<T>(a: Outcome<seq<T>>, b: Outcome<seq<T>>): (r: Outcome<seq<T>>)
    ensures r.Raised? <==> a.Raised? || b.Raised?
    ensures r.Returned? ==> |r.value| == |a.value| + |b.value|
  {
    if a.Raised? || b.Raised? then Raised else Returned(a.value + b.value)
  }
}
