/** Properties of the subscription retry loop: how many attempts a run of failures makes
    and how long it sleeps between them, that a success starts the backoff over, and that
    `stop()` ends the loop. */
module MonitorProperties {
  import opened Monitor

  /** The number of subscribe attempts among the effects. */
  function Attempts(es: seq<Effect>): nat
    decreases |es|
  {
    if es == [] then 0
    else Attempts(es[..|es| - 1]) + (if es[|es| - 1].Subscribe? then 1 else 0)
  }

  /** The number of failed attempts since the last successful one (or since the start). */
  function FailStreak(es: seq<Effect>): nat
    decreases |es|
  {
    if es == [] then 0
    else
      var last := es[|es| - 1];
      if last == Subscribe(true) then 0
      else if last == Subscribe(false) then FailStreak(es[..|es| - 1]) + 1
      else FailStreak(es[..|es| - 1])
  }

  lemma {:induction false} AttemptsConcat(xs: seq<Effect>, ys: seq<Effect>)
    ensures Attempts(xs + ys) == Attempts(xs) + Attempts(ys)
    decreases |ys|
  {
    if ys == [] {
      assert xs + ys == xs;
    } else {
      var ys' := ys[..|ys| - 1];
      assert (xs + ys)[..|xs + ys| - 1] == xs + ys';
      assert (xs + ys)[|xs + ys| - 1] == ys[|ys| - 1];
      AttemptsConcat(xs, ys');
    }
  }

  /** From a loop head with counter k < maxRetries, a run of maxRetries - k failures (and
      no stop) ends the loop at the ceiling: one attempt per failure, and after each but the
      last a sleep of retryDelay times the new counter. */
  lemma {:induction false} FailuresFromCounter(maxRetries: int, retryDelay: int, env: seq<Attempt>, k: int)
    requires 0 <= k < maxRetries && maxRetries - k <= |env|
    requires forall j :: 0 <= j < maxRetries - k ==> env[j] == Attempt(false, false)
    ensures var r := Retry(maxRetries, retryDelay, env, true, k);
            && r.exit == Exhausted
            && r.monitoring
            && |r.effects| == 2 * (maxRetries - k) - 1
            && (forall j :: 0 <= j < maxRetries - k ==> r.effects[2 * j] == Subscribe(false))
            && (forall j :: 0 <= j < maxRetries - k - 1 ==> r.effects[2 * j + 1] == Sleep(retryDelay * (k + j + 1)))
    decreases maxRetries - k
  {
    var r := Retry(maxRetries, retryDelay, env, true, k);
    if k + 1 < maxRetries {
      var rest := Retry(maxRetries, retryDelay, env[1..], true, k + 1);
      forall j | 0 <= j < maxRetries - (k + 1)
        ensures env[1..][j] == Attempt(false, false)
      {
        assert env[1..][j] == env[j + 1];
      }
      FailuresFromCounter(maxRetries, retryDelay, env[1..], k + 1);
      assert r.effects == [Subscribe(false), Sleep(retryDelay * (k + 1))] + rest.effects;
      forall j | 0 <= j < maxRetries - k
        ensures r.effects[2 * j] == Subscribe(false)
      {
        if j > 0 {
          assert r.effects[2 * j] == rest.effects[2 * (j - 1)];
        }
      }
      forall j | 0 <= j < maxRetries - k - 1
        ensures r.effects[2 * j + 1] == Sleep(retryDelay * (k + j + 1))
      {
        if j > 0 {
          assert r.effects[2 * j + 1] == rest.effects[2 * (j - 1) + 1];
        }
      }
    }
  }

  /** maxRetries >= 1 consecutive failures from the start make exactly maxRetries attempts,
      sleep retryDelay * k after the k-th failure for every k < maxRetries, do not sleep after
      the last, and leave the loop with the flag still set. */
  lemma AllFailuresExhaust(maxRetries: int, retryDelay: int, env: seq<Attempt>)
    requires 1 <= maxRetries <= |env|
    requires forall j :: 0 <= j < maxRetries ==> env[j] == Attempt(false, false)
    ensures var r := Retry(maxRetries, retryDelay, env, true, 0);
            && r.exit == Exhausted
            && r.monitoring
            && Attempts(r.effects) == maxRetries
            && |r.effects| == 2 * maxRetries - 1
            && (forall j :: 0 <= j < maxRetries ==> r.effects[2 * j] == Subscribe(false))
            && (forall k :: 1 <= k < maxRetries ==> r.effects[2 * k - 1] == Sleep(retryDelay * k))
            && r.effects[|r.effects| - 1] == Subscribe(false)
  {
    FailuresFromCounter(maxRetries, retryDelay, env, 0);
    var r := Retry(maxRetries, retryDelay, env, true, 0);
    forall k | 1 <= k < maxRetries
      ensures r.effects[2 * k - 1] == Sleep(retryDelay * k)
    {
      assert r.effects[2 * (k - 1) + 1] == Sleep(retryDelay * (0 + (k - 1) + 1));
    }
    AttemptsAlternating(r.effects, maxRetries);
    assert r.effects[|r.effects| - 1] == r.effects[2 * (maxRetries - 1)];
  }

  /** With the default options, five failures in a row give five attempts with sleeps of 1,
      2, 3 and 4 seconds between them, and then the loop gives up, whatever would follow. */
  lemma DefaultRetrySchedule(rest: seq<Attempt>)
    ensures var f := Attempt(false, false);
            var r := Retry(DefaultMaxRetries, DefaultRetryDelay, [f, f, f, f, f] + rest, true, 0);
            && r.effects == [Subscribe(false), Sleep(1000), Subscribe(false), Sleep(2000), Subscribe(false),
                             Sleep(3000), Subscribe(false), Sleep(4000), Subscribe(false)]
            && r.exit == Exhausted
            && r.monitoring
  {
    var f := Attempt(false, false);
    var e4 := [f] + rest;
    var e3 := [f] + e4;
    var e2 := [f] + e3;
    var e1 := [f] + e2;
    assert [f, f, f, f, f] + rest == [f] + e1;
    var r4 := Retry(DefaultMaxRetries, DefaultRetryDelay, e4, true, 4);
    assert r4 == Run([Subscribe(false)], Exhausted, true);
    var r3 := Retry(DefaultMaxRetries, DefaultRetryDelay, e3, true, 3);
    assert e3[1..] == e4;
    assert r3 == Prepend([Subscribe(false), Sleep(4000)], r4);
    var r2 := Retry(DefaultMaxRetries, DefaultRetryDelay, e2, true, 2);
    assert e2[1..] == e3;
    assert r2 == Prepend([Subscribe(false), Sleep(3000)], r3);
    var r1 := Retry(DefaultMaxRetries, DefaultRetryDelay, e1, true, 1);
    assert e1[1..] == e2;
    assert r1 == Prepend([Subscribe(false), Sleep(2000)], r2);
    assert ([f] + e1)[1..] == e1;
    assert Retry(DefaultMaxRetries, DefaultRetryDelay, [f] + e1, true, 0) == Prepend([Subscribe(false), Sleep(1000)], r1);
  }

  /** A sequence that alternates attempts at even positions with sleeps at odd ones holds one
      attempt per even position. */
  lemma {:induction false} AttemptsAlternating(es: seq<Effect>, n: nat)
    requires |es| == 2 * n - 1
    requires forall j :: 0 <= j < n ==> es[2 * j].Subscribe?
    requires forall j :: 0 <= j < n - 1 ==> es[2 * j + 1].Sleep?
    ensures Attempts(es) == n
    decreases n
  {
    if n > 1 {
      var front := es[..|es| - 2];
      assert es == front + [es[|es| - 2], es[|es| - 1]];
      assert es[|es| - 2] == es[2 * (n - 2) + 1];
      assert es[|es| - 1] == es[2 * (n - 1)];
      forall j | 0 <= j < n - 1
        ensures front[2 * j].Subscribe?
      {
        assert front[2 * j] == es[2 * j];
      }
      forall j | 0 <= j < n - 2
        ensures front[2 * j + 1].Sleep?
      {
        assert front[2 * j + 1] == es[2 * j + 1];
      }
      assert es[|es| - 2].Sleep? && es[|es| - 1].Subscribe?;
      AttemptsAlternating(front, n - 1);
      AttemptsConcat(front, [es[|es| - 2], es[|es| - 1]]);
      AttemptsOfPair(es[|es| - 2], es[|es| - 1]);
    } else {
      assert es[..0] == [];
    }
  }

  lemma AttemptsOfPair(x: Effect, y: Effect)
    ensures Attempts([x, y]) == (if x.Subscribe? then 1 else 0) + (if y.Subscribe? then 1 else 0)
  {
    assert [x][..0] == [];
    assert Attempts([x]) == (if x.Subscribe? then 1 else 0);
    assert [x, y][..1] == [x];
  }

  lemma FailStreakStep(es: seq<Effect>, e: Effect)
    ensures FailStreak(es + [e]) ==
      if e == Subscribe(true) then 0
      else if e == Subscribe(false) then FailStreak(es) + 1
      else FailStreak(es)
  {
    assert (es + [e])[..|es + [e]| - 1] == es;
  }

  /** The failure streak after es, starting from a streak of k. */
  function StreakAfter(k: nat, es: seq<Effect>): nat
    decreases |es|
  {
    if es == [] then k
    else StreakAfter(if es[0] == Subscribe(true) then 0 else if es[0] == Subscribe(false) then k + 1 else k, es[1..])
  }

  /** es, walked from a failure streak of k, sleeps only between a failure and the next
      attempt, for retryDelay times the streak at that point, and only while the streak is
      between 1 and maxRetries - 1. */
  predicate BackoffFrom(maxRetries: int, retryDelay: int, k: nat, es: seq<Effect>)
    decreases |es|
  {
    if es == [] then true
    else match es[0]
      case Subscribe(ok) => BackoffFrom(maxRetries, retryDelay, if ok then 0 else k + 1, es[1..])
      case Sleep(ms) => 0 < k < maxRetries && ms == retryDelay * k && BackoffFrom(maxRetries, retryDelay, k, es[1..])
  }

  /** From a loop head with counter k, the rest of the run keeps the backoff rule, and the
      loop gives up only once the streak reaches maxRetries. */
  lemma {:induction false} RetryKeepsBackoff(maxRetries: int, retryDelay: int, env: seq<Attempt>, monitoring: bool, k: nat)
    ensures var r := Retry(maxRetries, retryDelay, env, monitoring, k);
            && BackoffFrom(maxRetries, retryDelay, k, r.effects)
            && (r.exit == Exhausted ==> StreakAfter(k, r.effects) == maxRetries)
    decreases |env|
  {
    var r := Retry(maxRetries, retryDelay, env, monitoring, k);
    if monitoring && k < maxRetries && env != [] {
      var a := env[0];
      if a.subscribed {
        var rest := Retry(maxRetries, retryDelay, env[1..], !a.stopRequested, 0);
        RetryKeepsBackoff(maxRetries, retryDelay, env[1..], !a.stopRequested, 0);
        assert r.effects[0] == Subscribe(true) && r.effects[1..] == rest.effects;
      } else if k + 1 < maxRetries {
        var rest := Retry(maxRetries, retryDelay, env[1..], !a.stopRequested, k + 1);
        RetryKeepsBackoff(maxRetries, retryDelay, env[1..], !a.stopRequested, k + 1);
        var tail := r.effects[1..];
        assert r.effects[0] == Subscribe(false);
        assert tail[0] == Sleep(retryDelay * (k + 1)) && tail[1..] == rest.effects;
      } else {
        assert r.effects == [Subscribe(false)] && r.effects[1..] == [];
      }
    }
  }

  /** The streak a walk from the front carries is the failure streak counted from the end. */
  lemma {:induction false} StreakAfterIsFailStreak(prefix: seq<Effect>, es: seq<Effect>)
    ensures StreakAfter(FailStreak(prefix), es) == FailStreak(prefix + es)
    decreases |es|
  {
    if es == [] {
      assert prefix + es == prefix;
    } else {
      FailStreakStep(prefix, es[0]);
      StreakAfterIsFailStreak(prefix + [es[0]], es[1..]);
      assert prefix + [es[0]] + es[1..] == prefix + es;
    }
  }

  /** The backoff rule read at each position: a sleep at position i lasts retryDelay times
      the failure streak of everything before it. */
  lemma {:induction false} BackoffAt(maxRetries: int, retryDelay: int, prefix: seq<Effect>, es: seq<Effect>, i: nat)
    requires BackoffFrom(maxRetries, retryDelay, FailStreak(prefix), es)
    requires i < |es| && es[i].Sleep?
    ensures 0 < FailStreak(prefix + es[..i]) < maxRetries
    ensures es[i].ms == retryDelay * FailStreak(prefix + es[..i])
    decreases i
  {
    if i == 0 {
      assert prefix + es[..0] == prefix;
    } else {
      FailStreakStep(prefix, es[0]);
      assert es[1..][i - 1] == es[i];
      BackoffAt(maxRetries, retryDelay, prefix + [es[0]], es[1..], i - 1);
      assert prefix + [es[0]] + es[1..][..i - 1] == prefix + es[..i];
    }
  }

  /** Over a whole run from the start: each backoff sleep is retryDelay times the number of
      failures since the last success (so a success starts the backoff over at retryDelay),
      and the loop gives up only after maxRetries failures in a row. */
  lemma BackoffGrowsWithConsecutiveFailures(maxRetries: int, retryDelay: int, env: seq<Attempt>)
    ensures var r := Retry(maxRetries, retryDelay, env, true, 0);
            && (forall i :: 0 <= i < |r.effects| && r.effects[i].Sleep? ==>
                  && 0 < FailStreak(r.effects[..i]) < maxRetries
                  && r.effects[i].ms == retryDelay * FailStreak(r.effects[..i]))
            && (r.exit == Exhausted ==> FailStreak(r.effects) == maxRetries)
  {
    var r := Retry(maxRetries, retryDelay, env, true, 0);
    assert FailStreak([]) == 0;
    RetryKeepsBackoff(maxRetries, retryDelay, env, true, 0);
    forall i | 0 <= i < |r.effects| && r.effects[i].Sleep?
      ensures && 0 < FailStreak(r.effects[..i]) < maxRetries
              && r.effects[i].ms == retryDelay * FailStreak(r.effects[..i])
    {
      BackoffAt(maxRetries, retryDelay, [], r.effects, i);
      assert [] + r.effects[..i] == r.effects[..i];
    }
    StreakAfterIsFailStreak([], r.effects);
    assert [] + r.effects == r.effects;
  }

  /** When stop() is called during the iteration at position j, the loop makes no attempt
      after that iteration's, it ends at the flag check or at the failure ceiling (so it
      needs no iteration past j), and, when that iteration's attempt was made, it leaves the
      flag clear. */
  lemma {:induction false} StopPreventsFurtherAttempts(maxRetries: int, retryDelay: int, env: seq<Attempt>,
                                                       monitoring: bool, retries: int, j: nat)
    requires j < |env| && env[j].stopRequested
    ensures var r := Retry(maxRetries, retryDelay, env, monitoring, retries);
            && Attempts(r.effects) <= j + 1
            && r.exit != InputEnded
            && (Attempts(r.effects) == j + 1 ==> !r.monitoring)
    decreases j
  {
    var r := Retry(maxRetries, retryDelay, env, monitoring, retries);
    if monitoring && retries < maxRetries {
      var a := env[0];
      var next := if a.subscribed then 0 else retries + 1;
      var rest := Retry(maxRetries, retryDelay, env[1..], !a.stopRequested, next);
      if a.subscribed || retries + 1 < maxRetries {
        var head := if a.subscribed then [Subscribe(true)] else [Subscribe(false), Sleep(retryDelay * (retries + 1))];
        assert r.effects == head + rest.effects;
        AttemptsConcat(head, rest.effects);
        assert Attempts(head) == 1 by {
          assert head[..1] == [head[0]];
          assert [head[0]][..0] == [];
        }
        if j == 0 {
          assert rest == Run([], Stopped, false);
        } else {
          assert env[1..][j - 1] == env[j];
          StopPreventsFurtherAttempts(maxRetries, retryDelay, env[1..], !a.stopRequested, next, j - 1);
        }
      } else {
        assert r.effects == [Subscribe(false)];
        assert [Subscribe(false)][..0] == [];
      }
    }
  }

  /** A success resets the counter: whatever the counter was, a success followed by a
      failure sleeps retryDelay, the delay of a first failure, before the next attempt. */
  lemma SuccessResetsCounter(maxRetries: int, retryDelay: int, env: seq<Attempt>, retries: int)
    requires retries < maxRetries && 1 < maxRetries
    requires 2 <= |env| && env[0] == Attempt(true, false) && env[1] == Attempt(false, false)
    ensures var r := Retry(maxRetries, retryDelay, env, true, retries);
            3 <= |r.effects| && r.effects[..3] == [Subscribe(true), Subscribe(false), Sleep(retryDelay)]
  {
  }
}
