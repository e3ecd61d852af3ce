/** Random draws that are repeated while they collide, and idealised hashes. */
module Draws {

  /** pgcrypto's crypt(raw, hash) == hash, idealised: a hash matches one raw value. */
  datatype Hash = Bcrypt(raw: string)

  /** How many draws are consumed before one that violates no unique constraint. */
  function FirstFree<T>(draws: seq<T>, taken: T -> bool): (n: nat)
    ensures n <= |draws|
    ensures forall i :: 0 <= i < n ==> taken(draws[i])
    ensures n < |draws| ==> !taken(draws[n])
  {
    if draws == [] || !taken(draws[0]) then 0 else 1 + FirstFree(draws[1..], taken)
  }

  /** The retry loop. */
  method DrawUntilFree<T>(draws: seq<T>, taken: T -> bool) returns (n: nat)
    ensures n == FirstFree(draws, taken)
  {
    n := 0;
    while n < |draws| && taken(draws[n])
      invariant n <= |draws|
      invariant forall k :: 0 <= k < n ==> taken(draws[k])
    {
      n := n + 1;
    }
  }
}
