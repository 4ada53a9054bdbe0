/** What several modules share: optional values, and the seals on large invariants. */
module Wrappers {

  datatype Option<T> = None | Some(value: T)

  /**
   A sealed fact is `forall i {:trigger Opened(i)} :: Opened(i) && i == n ==> fact`: a proof sees it only after it
   mentions `Opened(n)`. Every seal has its own number.
   */
  predicate Opened(i: int) { true }
}
