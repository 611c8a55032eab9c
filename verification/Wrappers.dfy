/** What the other modules share. */
module Wrappers {
  datatype Option<+T> = None | Some(value: T)

  // ---- Numbers and sequences -----------------------------------------------

  function Min(a: nat, b: nat): nat { if a < b then a else b }

  function Pow2(k: nat): nat { if k == 0 then 1 else 2 * Pow2(k - 1) }

  lemma Regroup<T>(a: seq<T>, b: seq<T>, c: seq<T>)
    ensures a + b + c == a + (b + c)
  {
  }

  lemma NilRight<T>(s: seq<T>)
    ensures s + [] == s
  {
  }

  predicate Distinct<T(==)>(s: seq<T>) {
    forall i, j :: 0 <= i < j < |s| ==> s[i] != s[j]
  }

  // ---- Runs of a step system -----------------------------------------------

  /** A finite run, last step outermost. */
  datatype History<S, T> = Begun(from: S) | Then(before: History<S, T>, last: T)

  predicate Extends<S(==), T(==)>(run: History<S, T>, more: History<S, T>) {
    more == run || (more.Then? && Extends(run, more.before))
  }

  lemma {:induction false} ExtendsFurther<S, T>(a: History<S, T>, b: History<S, T>, c: History<S, T>)
    requires Extends(a, b) && Extends(b, c)
    ensures Extends(a, c)
  {
    if c != b {
      ExtendsFurther(a, b, c.before);
    }
  }
}
