/** Merging diffs into a document state. The code concatenates bytes today and means to apply Yjs updates later;
    everything here is about an arbitrary way `apply` of adding one diff to a state. */
module Merge {
  import opened Basics

  function ApplyAll<S>(apply: (S, Bytes) -> S, base: S, diffs: seq<Bytes>): S {
    if diffs == [] then base
    else apply(ApplyAll(apply, base, diffs[..|diffs| - 1]), diffs[|diffs| - 1])
  }

  /** What makes a merge conflict-free: diffs may be applied in any order, and applying one again changes nothing. */
  ghost predicate ConflictFree<S(!new)>(apply: (S, Bytes) -> S) {
    && (forall s, a, b :: apply(apply(s, a), b) == apply(apply(s, b), a))
    && (forall s, a :: apply(apply(s, a), a) == apply(s, a))
  }

  /** Joining the state of a diff by a commutative, associative and idempotent join is conflict-free. */
  lemma JoinIsConflictFree<S(!new)>(join: (S, S) -> S, inject: Bytes -> S)
    requires forall x, y :: join(x, y) == join(y, x)
    requires forall x, y, z :: join(join(x, y), z) == join(x, join(y, z))
    requires forall x :: join(x, x) == x
    ensures ConflictFree((s, d) => join(s, inject(d)))
  {
  }

  /** Applying a sequence in two batches is applying it at once, whatever the merge. */
  lemma {:induction false} ApplyBatches<S>(apply: (S, Bytes) -> S, base: S, xs: seq<Bytes>, ys: seq<Bytes>)
    ensures ApplyAll(apply, base, xs + ys) == ApplyAll(apply, ApplyAll(apply, base, xs), ys)
  {
    if ys == [] {
      assert xs + ys == xs;
    } else {
      ApplyBatches(apply, base, xs, ys[..|ys| - 1]);
      assert (xs + ys)[..|xs + ys| - 1] == xs + ys[..|ys| - 1];
    }
  }

  lemma {:induction false} ApplyFirst<S(!new)>(apply: (S, Bytes) -> S, base: S, d: Bytes, xs: seq<Bytes>)
    requires ConflictFree(apply)
    ensures ApplyAll(apply, apply(base, d), xs) == apply(ApplyAll(apply, base, xs), d)
  {
    if xs != [] { ApplyFirst(apply, base, d, xs[..|xs| - 1]); }
  }

  lemma {:induction false} ApplySwap<S(!new)>(apply: (S, Bytes) -> S, base: S, xs: seq<Bytes>, ys: seq<Bytes>)
    requires ConflictFree(apply)
    ensures ApplyAll(apply, base, xs + ys) == ApplyAll(apply, base, ys + xs)
  {
    if ys == [] {
      assert xs + ys == xs == ys + xs;
    } else {
      var init, last := ys[..|ys| - 1], ys[|ys| - 1];
      assert (xs + ys)[..|xs + ys| - 1] == xs + init;
      ApplySwap(apply, base, xs, init);
      ApplyBatches(apply, base, init, xs);
      ApplyFirst(apply, ApplyAll(apply, base, init), last, xs);
      ApplyBatches(apply, base, ys, xs);
    }
  }

  lemma {:induction false} ApplyAgain<S(!new)>(apply: (S, Bytes) -> S, base: S, xs: seq<Bytes>, ys: seq<Bytes>)
    requires ConflictFree(apply) && forall d | d in ys :: d in xs
    ensures ApplyAll(apply, base, xs + ys) == ApplyAll(apply, base, xs)
  {
    if ys == [] {
      assert xs + ys == xs;
    } else {
      ApplyAgain(apply, base, xs, ys[..|ys| - 1]);
      assert (xs + ys)[..|xs + ys| - 1] == xs + ys[..|ys| - 1];
      Absorbed(apply, base, xs, ys[|ys| - 1]);
    }
  }

  lemma {:induction false} Absorbed<S(!new)>(apply: (S, Bytes) -> S, base: S, xs: seq<Bytes>, d: Bytes)
    requires ConflictFree(apply) && d in xs
    ensures apply(ApplyAll(apply, base, xs), d) == ApplyAll(apply, base, xs)
  {
    if d != xs[|xs| - 1] { Absorbed(apply, base, xs[..|xs| - 1], d); }
  }

  /** With a conflict-free merge the state depends only on which diffs were applied, not on their order or number. */
  lemma {:induction false} SameDiffsSameState<S(!new)>(apply: (S, Bytes) -> S, base: S, xs: seq<Bytes>, ys: seq<Bytes>)
    requires ConflictFree(apply) && forall d :: d in xs <==> d in ys
    ensures ApplyAll(apply, base, xs) == ApplyAll(apply, base, ys)
  {
    ApplyAgain(apply, base, xs, ys);
    ApplySwap(apply, base, xs, ys);
    ApplyAgain(apply, base, ys, xs);
  }
}
