/** Names shared by the whole model: bytes, paths, optional values and the widths the program computes in. */
module Prelude {
  newtype Byte = b: int | 0 <= b < 256

  type Bytes = seq<Byte>

  type Path = string

  datatype Option<+T> = None | Some(value: T)

  /** The number of values of a `uint32`. */
  const UINT32_RANGE: nat := 0x1_0000_0000

  const UINT64_RANGE: nat := 0x1_0000_0000_0000_0000

  function Min(a: nat, b: nat): nat {
    if a < b then a else b
  }

  function Max(a: nat, b: nat): nat {
    if a < b then b else a
  }

  /** The cast `(uint32)x` of a `uint64`. */
  function Truncate32(x: nat): nat {
    x % UINT32_RANGE
  }

  function Sum(numbers: seq<nat>): nat {
    if numbers == [] then 0 else numbers[0] + Sum(numbers[1..])
  }

  lemma {:induction false} SumAppend(a: seq<nat>, b: seq<nat>)
    ensures Sum(a + b) == Sum(a) + Sum(b)
  {
    if a == [] {
      assert a + b == b;
    } else {
      SumAppend(a[1..], b);
      assert (a + b)[1..] == a[1..] + b;
    }
  }

  lemma SumNext(a: seq<nat>, i: nat)
    requires i < |a|
    ensures Sum(a[..i + 1]) == Sum(a[..i]) + a[i]
  {
    assert a[..i + 1] == a[..i] + [a[i]];
    SumAppend(a[..i], [a[i]]);
  }

  lemma {:induction false} SumUpdate(a: seq<nat>, i: nat, x: nat)
    requires i < |a|
    ensures Sum(a[i := x]) + a[i] == Sum(a) + x
  {
    if i == 0 {
      assert a[i := x][1..] == a[1..];
    } else {
      SumUpdate(a[1..], i - 1, x);
      assert a[i := x][1..] == a[1..][i - 1 := x];
    }
  }

  lemma {:induction false} SumOfZeros(numbers: seq<nat>)
    requires forall i | 0 <= i < |numbers| :: numbers[i] == 0
    ensures Sum(numbers) == 0
  {
    if numbers != [] { SumOfZeros(numbers[1..]); }
  }

  /** `place` sends the numbers of `a` to equal numbers of `b`, each to another one; what it misses on either side
      is 0. */
  predicate Rearranged(a: seq<nat>, b: seq<nat>, place: seq<Option<nat>>) {
    && |place| == |a|
    && (forall i | 0 <= i < |a| && place[i].None? :: a[i] == 0)
    && (forall i | 0 <= i < |a| && place[i].Some? :: place[i].value < |b| && b[place[i].value] == a[i])
    && (forall i, j | 0 <= i < j < |a| && place[i].Some? :: place[i] != place[j])
    && (forall w | 0 <= w < |b| && b[w] > 0 :: Some(w) in place)
  }

  lemma {:induction false} SumRearranged(a: seq<nat>, b: seq<nat>, place: seq<Option<nat>>)
    requires Rearranged(a, b, place)
    ensures Sum(a) == Sum(b)
    decreases |a|
  {
    if a == [] {
      SumOfZeros(b);
    } else {
      var n := |a| - 1;
      assert a[..n + 1] == a;
      SumNext(a, n);
      var b' := if place[n].Some? then b[place[n].value := 0] else b;
      forall w | 0 <= w < |b'| && b'[w] > 0 ensures Some(w) in place[..n] {
        assert Some(w) in place;
      }
      SumRearranged(a[..n], b', place[..n]);
      if place[n].Some? { SumUpdate(b, place[n].value, 0); }
    }
  }

  /** Repeats `f` until `stop`, at most `k` times. */
  function Iterate<T>(f: T -> T, stop: T -> bool, x: T, k: nat): T
    decreases k
  {
    if k == 0 || stop(x) then x else Iterate(f, stop, f(x), k - 1)
  }

  /** Once `k` repetitions suffice, more change nothing. */
  lemma {:induction false} IterateAgrees<T>(f: T -> T, stop: T -> bool, x: T, k: nat, m: nat)
    requires stop(Iterate(f, stop, x, k)) && k <= m
    ensures Iterate(f, stop, x, m) == Iterate(f, stop, x, k)
    decreases k
  {
    if !stop(x) { IterateAgrees(f, stop, f(x), k - 1, m - 1); }
  }

  lemma {:induction false} IterateKeeps<T(!new)>(f: T -> T, stop: T -> bool, inv: T -> bool, x: T, k: nat)
    requires inv(x) && forall y | inv(y) && !stop(y) :: inv(f(y))
    ensures inv(Iterate(f, stop, x, k))
    decreases k
  {
    if k > 0 && !stop(x) { IterateKeeps(f, stop, inv, f(x), k - 1); }
  }

  lemma {:induction false} InitialSegment(n: nat, s: set<nat>)
    requires forall v: nat | v < n :: v in s
    ensures n <= |s|
  {
    if n > 0 { InitialSegment(n - 1, s - {n - 1}); }
  }
}
