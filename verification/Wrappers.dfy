/** The optional value used wherever the agent uses an absent entry, an unset
    timestamp or a missing field, and what several components count and compare with. */
module Wrappers {
  datatype Option<+T> = None | Some(value: T)

  function Min(a: int, b: int): int {
    if a <= b then a else b
  }

  function Max(a: int, b: int): int {
    if a >= b then a else b
  }

  /** Clock samples in order. */
  ghost predicate Sorted(times: seq<int>) {
    forall i, j | 0 <= i < j < |times| :: times[i] <= times[j]
  }

  ghost predicate Distinct<T(!new)>(s: seq<T>) {
    forall i, j | 0 <= i < j < |s| :: s[i] != s[j]
  }

  lemma ScaleMonotone(a: nat, j: int, k: int)
    requires j <= k
    ensures a * j <= a * k && j * a <= k * a
  {
  }

  lemma ScaleSum(a: nat, j: nat, k: nat)
    ensures (j + k) * a == j * a + k * a && a * (j + k) == a * j + a * k
  {
  }
}
