/** Failure-carrying datatypes shared by the scanner and the annotation-value models.
    - Option<T> stands for a Java reference that may be null, or a lookup that may miss.
    - Result<T, E> stands for a Java call that either returns a value or throws. */
module Wrappers {

  datatype Option<+T> = None | Some(value: T)

  datatype Result<+T, +E> = Success(value: T) | Failure(error: E)

  /** The list of zero or one element that an optional value contributes to a collection. */
  function OptionToSeq<T>(o: Option<T>): (s: seq<T>)
    ensures |s| <= 1
    ensures o.Some? <==> |s| == 1
    ensures o.Some? ==> s[0] == o.value
  {
    match o
    case None => []
    case Some(v) => [v]
  }
}
