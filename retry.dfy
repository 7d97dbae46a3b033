/** `retry`: runs an operation, and after each failure waits and runs it
    again with one retry fewer and twice the delay, until it succeeds or no
    retry is left. The operation's outcomes are a parameter: `outcome(k)` is
    what its k-th run (counting from 0) settles with; the waits are
    returned rather than slept. */
module Retry {
  import opened Common

  const DEFAULT_RETRIES := 3
  const DEFAULT_DELAY := 1000

  function Pow2(k: nat): (p: nat)
    ensures p >= 1
  {
    if k == 0 then 1 else 2 * Pow2(k - 1)
  }

  /** The recursive definition: from run `k` with `retries` left and the
      current `delay`, the settled result and the waits in order. */
  function RetryFrom<T, E>(outcome: nat -> Result<T, E>, k: nat, retries: int, delay: int): (Result<T, E>, seq<int>)
    decreases if retries > 0 then retries else 0
  {
    if outcome(k).Success? || retries <= 0 then (outcome(k), [])
    else
      var (r, waits) := RetryFrom(outcome, k + 1, retries - 1, delay * 2);
      (r, [delay] + waits)
  }

  /** The loop the recursion unrolls to. */
  method Run<T, E>(outcome: nat -> Result<T, E>, retries: int, delay: int) returns (r: Result<T, E>, waits: seq<int>)
    ensures (r, waits) == RetryFrom(outcome, 0, retries, delay)
  {
    var k: nat := 0;
    var left := retries;
    var d := delay;
    waits := [];
    assert [] + RetryFrom(outcome, 0, retries, delay).1 == RetryFrom(outcome, 0, retries, delay).1;
    while outcome(k).Failure? && left > 0
      invariant left == retries - k && |waits| == k && d == delay * Pow2(k)
      invariant RetryFrom(outcome, 0, retries, delay).0 == RetryFrom(outcome, k, left, d).0
      invariant RetryFrom(outcome, 0, retries, delay).1 == waits + RetryFrom(outcome, k, left, d).1
      decreases left
    {
      assert RetryFrom(outcome, k, left, d).0 == RetryFrom(outcome, k + 1, left - 1, d * 2).0;
      assert RetryFrom(outcome, k, left, d).1 == [d] + RetryFrom(outcome, k + 1, left - 1, d * 2).1;
      assert waits + ([d] + RetryFrom(outcome, k + 1, left - 1, d * 2).1)
          == (waits + [d]) + RetryFrom(outcome, k + 1, left - 1, d * 2).1;
      waits := waits + [d];
      k := k + 1;
      left := left - 1;
      d := d * 2;
    }
    r := outcome(k);
    assert RetryFrom(outcome, k, left, d) == (outcome(k), []);
    assert waits + [] == waits;
  }

  /** At most `retries + 1` runs, so at most `retries` waits, the k-th wait
      being `delay * 2^k`; the result is the outcome of the last run, every
      run before it failed, and a failure comes back only once the retries
      are used up. */
  lemma {:induction false} RetryShape<T, E>(outcome: nat -> Result<T, E>, k: nat, retries: int, delay: int)
    ensures var (r, waits) := RetryFrom(outcome, k, retries, delay);
      && |waits| <= (if retries > 0 then retries else 0)
      && (forall i | 0 <= i < |waits| :: waits[i] == delay * Pow2(i))
      && r == outcome(k + |waits|)
      && (forall j | k <= j < k + |waits| :: outcome(j).Failure?)
      && (r.Failure? ==> |waits| == (if retries > 0 then retries else 0))
    decreases if retries > 0 then retries else 0
  {
    if outcome(k).Failure? && retries > 0 {
      RetryShape(outcome, k + 1, retries - 1, delay * 2);
      var (r, waits) := RetryFrom(outcome, k + 1, retries - 1, delay * 2);
      forall i | 0 <= i < |waits|
        ensures waits[i] == delay * Pow2(i + 1)
      {
        assert delay * 2 * Pow2(i) == delay * (2 * Pow2(i));
      }
    }
  }

  /** The result is the first success among the first `retries + 1` runs. */
  lemma FirstSuccess<T, E>(outcome: nat -> Result<T, E>, retries: nat, delay: int, j: nat)
    requires j <= retries && outcome(j).Success?
    requires forall i | 0 <= i < j :: outcome(i).Failure?
    ensures RetryFrom(outcome, 0, retries, delay).0 == outcome(j)
    ensures |RetryFrom(outcome, 0, retries, delay).1| == j
  {
    RetryShape(outcome, 0, retries, delay);
  }

  /** When none of the first `retries + 1` runs succeeds, the error of the
      last one is rethrown after `retries` waits. */
  lemma AllFail<T, E>(outcome: nat -> Result<T, E>, retries: nat, delay: int)
    requires forall i | 0 <= i <= retries :: outcome(i).Failure?
    ensures RetryFrom(outcome, 0, retries, delay).0 == outcome(retries)
    ensures |RetryFrom(outcome, 0, retries, delay).1| == retries
  {
    RetryShape(outcome, 0, retries, delay);
  }
}
