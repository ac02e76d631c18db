/** Runs of a deterministic step function over a sequence of operations. */
module Runs {
  import opened Wrappers

  /** The state after the first `k` operations. */
  function After<S, T>(step: (S, T) -> S, s: S, ops: seq<T>, k: nat): S
    requires k <= |ops|
  {
    if k == 0 then s else step(After(step, s, ops, k - 1), ops[k - 1])
  }

  /** The operations among the first `k` that `counts` accepts in the state they meet. */
  function Counted<S, T>(step: (S, T) -> S, counts: (S, T) -> bool, s: S, ops: seq<T>, k: nat): (r: seq<T>)
    requires k <= |ops|
    ensures |r| <= k
  {
    if k == 0 then []
    else
      var front := Counted(step, counts, s, ops, k - 1);
      if counts(After(step, s, ops, k - 1), ops[k - 1]) then front + [ops[k - 1]] else front
  }

  lemma {:induction false} AfterPrefix<S, T>(step: (S, T) -> S, s: S, ops: seq<T>, more: seq<T>, k: nat)
    requires k <= |ops|
    ensures After(step, s, ops + more, k) == After(step, s, ops, k)
  {
    if k > 0 {
      AfterPrefix(step, s, ops, more, k - 1);
    }
  }

  /** Operations that change nothing where they do not count can be left out. */
  lemma {:induction false} OnlyCountedMatter<S, T>(
      step: (S, T) -> S, counts: (S, T) -> bool, s: S, ops: seq<T>, k: nat)
    requires k <= |ops|
    requires forall i :: 0 <= i < k && !counts(After(step, s, ops, i), ops[i]) ==>
               step(After(step, s, ops, i), ops[i]) == After(step, s, ops, i)
    ensures var done := Counted(step, counts, s, ops, k);
            After(step, s, ops, k) == After(step, s, done, |done|)
  {
    if k > 0 {
      OnlyCountedMatter(step, counts, s, ops, k - 1);
      var front := Counted(step, counts, s, ops, k - 1);
      AfterPrefix(step, s, front, [ops[k - 1]], |front|);
    }
  }

  /** What every step keeps holds in the end. */
  lemma {:induction false} Kept<S, T>(step: (S, T) -> S, good: S -> bool, s: S, ops: seq<T>, k: nat)
    requires k <= |ops| && good(s)
    requires forall i :: 0 <= i < k && good(After(step, s, ops, i)) ==> good(step(After(step, s, ops, i), ops[i]))
    ensures good(After(step, s, ops, k))
  {
    if k > 0 {
      Kept(step, good, s, ops, k - 1);
    }
  }

  /** The same from moment `m` to moment `n` of a run. */
  lemma {:induction false} KeptBetween(good: nat -> bool, m: nat, n: nat)
    requires m <= n && good(m)
    requires forall x :: m <= x < n && good(x) ==> good(x + 1)
    ensures good(n)
  {
    if m < n {
      KeptBetween(good, m, n - 1);
    }
  }

  // ---- steps that may be impossible -------------------------------------------------------

  /** The state a schedule leads to; None when one of its steps is not possible. */
  function Play<S, T>(attempt: (S, T) -> Option<S>, s: S, ops: seq<T>): Option<S> {
    if ops == [] then Some(s)
    else
      match Play(attempt, s, ops[..|ops| - 1])
      case Some(t) => attempt(t, ops[|ops| - 1])
      case None => None
  }

  lemma PlayNext<S, T>(attempt: (S, T) -> Option<S>, s: S, front: seq<T>, t: S, op: T)
    requires Play(attempt, s, front) == Some(t)
    ensures Play(attempt, s, front + [op]) == attempt(t, op)
  {
    assert (front + [op])[..|front|] == front;
  }

  lemma {:induction false} PlayOn<S, T>(attempt: (S, T) -> Option<S>, s: S, front: seq<T>, t: S, more: seq<T>)
    requires Play(attempt, s, front) == Some(t) && Play(attempt, t, more).Some?
    ensures Play(attempt, s, front + more) == Play(attempt, t, more)
  {
    if more == [] {
      assert front + more == front;
    } else {
      var n := |more| - 1;
      PlayOn(attempt, s, front, t, more[..n]);
      PlayNext(attempt, s, front + more[..n], Play(attempt, t, more[..n]).value, more[n]);
      assert front + more == (front + more[..n]) + [more[n]];
    }
  }

  /** The states a possible schedule passes through. */
  lemma {:induction false} PlayTrace<S, T>(attempt: (S, T) -> Option<S>, s: S, ops: seq<T>) returns (run: seq<S>)
    requires Play(attempt, s, ops).Some?
    ensures |run| == |ops| + 1 && run[0] == s && run[|ops|] == Play(attempt, s, ops).value
    ensures forall m :: 0 <= m < |ops| ==> attempt(run[m], ops[m]) == Some(run[m + 1])
  {
    if ops == [] {
      run := [s];
    } else {
      var n := |ops| - 1;
      var front := PlayTrace(attempt, s, ops[..n]);
      run := front + [Play(attempt, s, ops).value];
      forall m | 0 <= m < |ops| ensures attempt(run[m], ops[m]) == Some(run[m + 1]) {
        assert m < n ==> ops[..n][m] == ops[m];
      }
    }
  }
}
