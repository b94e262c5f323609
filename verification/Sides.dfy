/** The two sides of a binary tree; what the sources write twice, once for each side, is written once with a side. */
module Sides {
  datatype Side = Left | Right

  function Other(side: Side): Side {
    if side == Left then Right else Left
  }

  /** The rotations of both trees keep the order because of this. */
  lemma Regroup<T>(a: seq<T>, b: seq<T>, c: seq<T>, d: seq<T>, e: seq<T>)
    ensures a + (b + c + d) + e == (a + b) + c + (d + e)
  {}
}
