/** Notions that several parts of the model share. */
module Common {

  datatype Maybe<T> = Nothing | Just(value: T)

  ghost predicate NoDup<T>(q: seq<T>) {
    forall i, j :: 0 <= i < j < |q| ==> q[i] != q[j]
  }
}
