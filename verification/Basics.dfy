/** Byte strings and sums over sequences, shared by every other module. */
module Basics {

  newtype byte = x: int | 0 <= x < 0x100

  /** A Go []byte: an opaque Yjs diff, or a document blob. */
  type Bytes = seq<byte>

  datatype Option<+T> = None | Some(value: T)

  function Total(ws: seq<nat>): nat {
    if ws == [] then 0 else ws[0] + Total(ws[1..])
  }

  /** Pointwise smaller weights have a smaller total, strictly if one of them is strictly smaller. */
  lemma {:induction false} TotalMonotone(a: seq<nat>, b: seq<nat>)
    requires |a| == |b|
    requires forall i | 0 <= i < |a| :: a[i] <= b[i]
    ensures Total(a) <= Total(b)
    ensures (exists i | 0 <= i < |a| :: a[i] < b[i]) ==> Total(a) < Total(b)
  {
    if a != [] {
      TotalMonotone(a[1..], b[1..]);
      if i :| 0 <= i < |a| && a[i] < b[i] {
        assert i > 0 ==> a[1..][i - 1] < b[1..][i - 1];
      }
    }
  }

  function Without<T>(xs: seq<T>, k: nat): seq<T>
    requires k < |xs|
  {
    xs[..k] + xs[k + 1..]
  }

  predicate Distinct<T(==)>(xs: seq<T>) { forall i, j | 0 <= i < j < |xs| :: xs[i] != xs[j] }

  lemma WithoutCount<T>(xs: seq<T>, k: nat, x: T)
    requires k < |xs|
    ensures multiset(xs)[x] == multiset(Without(xs, k))[x] + if xs[k] == x then 1 else 0
  {
    assert xs == xs[..k] + [xs[k]] + xs[k + 1..];
  }
}
