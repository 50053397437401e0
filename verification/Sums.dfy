/** Sums over a store of numbered records. */
module Sums {
  /** The total weight of the records numbered below n. */
  function Total<T>(m: map<nat, T>, weight: T -> int, n: nat): int {
    if n == 0 then 0
    else Total(m, weight, n - 1) + if n - 1 in m then weight(m[n - 1]) else 0
  }

  lemma {:induction false} TotalUnchanged<T>(m: map<nat, T>, weight: T -> int, n: nat, id: nat, v: T)
    requires n <= id
    ensures Total(m[id := v], weight, n) == Total(m, weight, n)
  {
    if n != 0 {
      TotalUnchanged(m, weight, n - 1, id, v);
    }
  }

  /** Rewriting one record changes the total by the change of its weight. */
  lemma {:induction false} TotalUpdate<T>(m: map<nat, T>, weight: T -> int, n: nat, id: nat, v: T)
    requires id in m && id < n
    ensures Total(m[id := v], weight, n) == Total(m, weight, n) - weight(m[id]) + weight(v)
  {
    if id == n - 1 {
      TotalUnchanged(m, weight, n - 1, id, v);
    } else {
      TotalUpdate(m, weight, n - 1, id, v);
    }
  }

  lemma {:induction false} TotalAppend<T>(m: map<nat, T>, weight: T -> int, n: nat, v: T)
    requires n !in m
    ensures Total(m[n := v], weight, n + 1) == Total(m, weight, n) + weight(v)
  {
    TotalUnchanged(m, weight, n, n, v);
  }

  lemma {:induction false} TotalCovers<T>(m: map<nat, T>, weight: T -> int, n: nat, id: nat)
    requires forall k <- m :: 0 <= weight(m[k])
    requires id in m && id < n
    ensures weight(m[id]) <= Total(m, weight, n)
  {
    if id == n - 1 {
      TotalNonNegative(m, weight, n - 1);
    } else {
      TotalCovers(m, weight, n - 1, id);
    }
  }

  lemma {:induction false} TotalNonNegative<T>(m: map<nat, T>, weight: T -> int, n: nat)
    requires forall k <- m :: 0 <= weight(m[k])
    ensures 0 <= Total(m, weight, n)
  {
    if n != 0 {
      TotalNonNegative(m, weight, n - 1);
    }
  }
}
