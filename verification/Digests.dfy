/** The row checksum of the chained logs: a hash over sequence number, previous hash and event. */
module Digests {
  type Digest<!E> = (int, string, E) -> string

  /** What stands before the first row. */
  const ZERO: string := "0000000000000000000000000000000000000000000000000000000000000000"

  /** Equal hashes come from equal rows. */
  ghost predicate CollisionFree<E(!new)>(h: Digest<E>) {
    forall i, p, e, j, q, f :: h(i, p, e) == h(j, q, f) ==> i == j && p == q && e == f
  }
}
