/** Lists without duplicates. */
module Sequences {

  predicate Unique<T(==)>(list: seq<T>) {
    forall j, k :: 0 <= j < k < |list| ==> list[j] != list[k]
  }
}
