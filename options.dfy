/** The optional value used for "at most one request per host". */
module Options {

  datatype Option<+T> = None | Some(value: T)

  /** The requests an optional request stands for: none or exactly one. */
  function ToSeq<T>(o: Option<T>): (s: seq<T>)
    ensures |s| <= 1
    ensures o.None? <==> s == []
    ensures o.Some? ==> s == [o.value]
  {
    match o
    case None => []
    case Some(v) => [v]
  }
}
