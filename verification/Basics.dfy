/** Small datatypes and sequence functions shared by the models. */
module Basics {

  datatype Option<+T> = None | Some(value: T)

  datatype Result<+T, +E> = Ok(value: T) | Err(error: E)

  predicate NoDuplicates<T(==)>(s: seq<T>) {
    forall i, j | 0 <= i < j < |s| :: s[i] != s[j]
  }

  function LastOf<T>(s: seq<T>): Option<T> {
    if s == [] then None else Some(s[|s| - 1])
  }

  lemma Reassociated<T>(a: seq<T>, b: seq<T>, c: seq<T>)
    ensures a + (b + c) == (a + b) + c
  {
  }

  /** The items among the first `n` whose key is `k`, in order. */
  function OwnedUpTo<T>(items: seq<T>, keys: seq<Option<int>>, n: nat, k: int): seq<T>
    requires n <= |items| == |keys|
  {
    if n == 0 then []
    else
      var rest := OwnedUpTo(items, keys, n - 1, k);
      if keys[n - 1] == Some(k) then rest + [items[n - 1]] else rest
  }

  function Owned<T>(items: seq<T>, keys: seq<Option<int>>, k: int): seq<T>
    requires |items| == |keys|
  {
    OwnedUpTo(items, keys, |items|, k)
  }

  /** The last item among the first `n` whose key is `k`; a missing key or no such item leaves `prev`. */
  function LatestUpTo<T>(items: seq<T>, keys: seq<Option<int>>, n: nat, k: Option<int>, prev: Option<T>): Option<T>
    requires n <= |items| == |keys|
  {
    if n == 0 then prev
    else if k.Some? && keys[n - 1] == k then Some(items[n - 1])
    else LatestUpTo(items, keys, n - 1, k, prev)
  }

  function Latest<T>(items: seq<T>, keys: seq<Option<int>>, k: Option<int>): Option<T>
    requires |items| == |keys|
  {
    LatestUpTo(items, keys, |items|, k, None)
  }

  /** The positions among the first `n` whose key is `k`. */
  function PositionsUpTo(keys: seq<Option<int>>, n: nat, k: int): seq<nat>
    requires n <= |keys|
  {
    if n == 0 then []
    else
      var rest := PositionsUpTo(keys, n - 1, k);
      if keys[n - 1] == Some(k) then rest + [n - 1] else rest
  }

  lemma {:induction false} PositionsFacts(keys: seq<Option<int>>, n: nat, k: int)
    requires n <= |keys|
    ensures forall x | 0 <= x < |PositionsUpTo(keys, n, k)| ::
              PositionsUpTo(keys, n, k)[x] < n && keys[PositionsUpTo(keys, n, k)[x]] == Some(k)
  {
    if n > 0 {
      PositionsFacts(keys, n - 1, k);
    }
  }

  lemma {:induction false} OwnedAtPositions<T>(items: seq<T>, keys: seq<Option<int>>, n: nat, k: int)
    requires n <= |items| == |keys|
    ensures |OwnedUpTo(items, keys, n, k)| == |PositionsUpTo(keys, n, k)|
    ensures forall x | 0 <= x < |PositionsUpTo(keys, n, k)| ::
              PositionsUpTo(keys, n, k)[x] < n && OwnedUpTo(items, keys, n, k)[x] == items[PositionsUpTo(keys, n, k)[x]]
  {
    if n > 0 {
      OwnedAtPositions(items, keys, n - 1, k);
    }
  }

  /** Two sequences filtered by the same keys keep the same positions. */
  lemma OwnedPositions<A, B>(a: seq<A>, b: seq<B>, keys: seq<Option<int>>, n: nat, k: int)
    requires n <= |a| == |b| == |keys|
    ensures |OwnedUpTo(a, keys, n, k)| == |OwnedUpTo(b, keys, n, k)| == |PositionsUpTo(keys, n, k)|
    ensures forall x | 0 <= x < |PositionsUpTo(keys, n, k)| ::
              var j := PositionsUpTo(keys, n, k)[x];
              j < n && keys[j] == Some(k) && OwnedUpTo(a, keys, n, k)[x] == a[j] && OwnedUpTo(b, keys, n, k)[x] == b[j]
  {
    PositionsFacts(keys, n, k);
    OwnedAtPositions(a, keys, n, k);
    OwnedAtPositions(b, keys, n, k);
  }

  /** Everything with the right key is kept. */
  lemma {:induction false} OwnedMembers<T>(items: seq<T>, keys: seq<Option<int>>, n: nat, k: int)
    requires n <= |items| == |keys|
    ensures forall j | 0 <= j < n && keys[j] == Some(k) :: items[j] in OwnedUpTo(items, keys, n, k)
    ensures forall t | t in OwnedUpTo(items, keys, n, k) :: exists j | 0 <= j < n :: keys[j] == Some(k) && items[j] == t
  {
    if n > 0 {
      OwnedMembers(items, keys, n - 1, k);
    }
  }

  /** The latest item of a key is the last of the items of that key. */
  lemma {:induction false} LatestIsLastOwned<T>(items: seq<T>, keys: seq<Option<int>>, n: nat, k: int, prev: Option<T>)
    requires n <= |items| == |keys|
    ensures LatestUpTo(items, keys, n, Some(k), prev)
         == if OwnedUpTo(items, keys, n, k) == [] then prev else LastOf(OwnedUpTo(items, keys, n, k))
  {
    if n > 0 {
      LatestIsLastOwned(items, keys, n - 1, k, prev);
    }
  }
}
