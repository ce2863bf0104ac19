/** Lists of pass/fail checks, as the password meters and validators build them: a score
    that counts the checks passed, and a list of messages, one per failed check, in order.
    Both are defined over the first `k` checks, the way a chain of `if` statements extends
    them one check at a time. */
module RuleChecks {

  /** The number of checks among the first `k` that passed. */
  function PassedAmong(checks: seq<bool>, k: nat): (n: nat)
    requires k <= |checks|
    ensures n <= k
  {
    if k == 0 then 0 else PassedAmong(checks, k - 1) + (if checks[k - 1] then 1 else 0)
  }

  /** The message of every failed check among the first `k`, in check order
      (`if (!ok) list.push(msg)`). */
  function FailedAmong<M>(checks: seq<bool>, messages: seq<M>, k: nat): (r: seq<M>)
    requires k <= |checks| == |messages|
    ensures |r| <= k
  {
    if k == 0 then []
    else if checks[k - 1] then FailedAmong(checks, messages, k - 1)
    else FailedAmong(checks, messages, k - 1) + [messages[k - 1]]
  }

  /** The number of checks that passed. */
  function CountTrue(checks: seq<bool>): nat {
    PassedAmong(checks, |checks|)
  }

  /** The message of every failed check, in check order. */
  function Unmet<M>(checks: seq<bool>, messages: seq<M>): seq<M>
    requires |checks| == |messages|
  {
    FailedAmong(checks, messages, |checks|)
  }

  lemma {:induction false} PassedPlusFailed<M>(checks: seq<bool>, messages: seq<M>, k: nat)
    requires k <= |checks| == |messages|
    ensures PassedAmong(checks, k) + |FailedAmong(checks, messages, k)| == k
  {
    if k > 0 {
      PassedPlusFailed(checks, messages, k - 1);
    }
  }

  /** One message is reported per failed check, so passed and failed add up to all checks. */
  lemma ScorePlusFeedback<M>(checks: seq<bool>, messages: seq<M>)
    requires |checks| == |messages|
    ensures CountTrue(checks) + |Unmet(checks, messages)| == |checks|
  {
    PassedPlusFailed(checks, messages, |checks|);
  }

  lemma {:induction false} NoneFailedAmong<M>(checks: seq<bool>, messages: seq<M>, k: nat)
    requires k <= |checks| == |messages|
    ensures FailedAmong(checks, messages, k) == [] <==> forall i | 0 <= i < k :: checks[i]
  {
    if k > 0 {
      NoneFailedAmong(checks, messages, k - 1);
    }
  }

  /** No message at all exactly when every check passed. */
  lemma UnmetEmptyIffAllPass<M>(checks: seq<bool>, messages: seq<M>)
    requires |checks| == |messages|
    ensures Unmet(checks, messages) == [] <==> forall i | 0 <= i < |checks| :: checks[i]
  {
    NoneFailedAmong(checks, messages, |checks|);
  }

  /** Every message reported among the first `k` is the message of a failed check. */
  lemma {:induction false} FailedAmongFromFailed<M>(checks: seq<bool>, messages: seq<M>, k: nat, j: nat)
    requires k <= |checks| == |messages| && j < |FailedAmong(checks, messages, k)|
    ensures exists i | 0 <= i < k :: !checks[i] && messages[i] == FailedAmong(checks, messages, k)[j]
  {
    if j < |FailedAmong(checks, messages, k - 1)| {
      FailedAmongFromFailed(checks, messages, k - 1, j);
    } else {
      assert !checks[k - 1] && messages[k - 1] == FailedAmong(checks, messages, k)[j];
    }
  }

  /** Every message reported is the message of a failed check. */
  lemma UnmetFromFailed<M>(checks: seq<bool>, messages: seq<M>, j: nat)
    requires |checks| == |messages| && j < |Unmet(checks, messages)|
    ensures exists i | 0 <= i < |checks| :: !checks[i] && messages[i] == Unmet(checks, messages)[j]
  {
    FailedAmongFromFailed(checks, messages, |checks|, j);
  }

  lemma {:induction false} FirstFailedAmong<M>(checks: seq<bool>, messages: seq<M>, k: nat, n: nat)
    requires n <= |checks| == |messages| && k < n
    requires !checks[k] && forall i | 0 <= i < k :: checks[i]
    ensures FailedAmong(checks, messages, n) != [] && FailedAmong(checks, messages, n)[0] == messages[k]
  {
    if k < n - 1 {
      FirstFailedAmong(checks, messages, k, n - 1);
    } else {
      NoneFailedAmong(checks, messages, k);
    }
  }

  /** The first message reported is that of the first failed check. */
  lemma UnmetFirst<M>(checks: seq<bool>, messages: seq<M>, k: nat)
    requires |checks| == |messages| && k < |checks|
    requires !checks[k] && forall i | 0 <= i < k :: checks[i]
    ensures Unmet(checks, messages) != [] && Unmet(checks, messages)[0] == messages[k]
  {
    FirstFailedAmong(checks, messages, k, |checks|);
  }

  /** Six checks tested one after the other, as `score += 1` lines do. */
  lemma CountTrueSix(a: bool, b: bool, c: bool, d: bool, e: bool, f: bool)
    ensures CountTrue([a, b, c, d, e, f]) ==
      (if a then 1 else 0) + (if b then 1 else 0) + (if c then 1 else 0)
      + (if d then 1 else 0) + (if e then 1 else 0) + (if f then 1 else 0)
  {
    var checks := [a, b, c, d, e, f];
    assert PassedAmong(checks, 1) == (if a then 1 else 0);
    assert PassedAmong(checks, 3) == PassedAmong(checks, 1) + (if b then 1 else 0) + (if c then 1 else 0);
    assert PassedAmong(checks, 5) == PassedAmong(checks, 3) + (if d then 1 else 0) + (if e then 1 else 0);
  }
}
