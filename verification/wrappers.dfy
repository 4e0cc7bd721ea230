/** Python's `Optional[...]`: a value that may be `None`. */
module Wrappers {

  datatype Option<+T> = None | Some(value: T)

  /** The entries of an optional value as a list: `[x]` for `Some(x)`, `[]` for `None`. */
  function AsList<T>(o: Option<T>): (r: seq<Option<T>>)
    ensures |r| <= 1
    ensures r == [] <==> o.None?
    ensures forall x :: x in r ==> x == o
  {
    match o
    case None => []
    case Some(_) => [o]
  }
}
