/** Properties of the polling resolver: which attempts the loop makes, where it stops,
    what it reports, and what calls it makes on the device. */
module PollProperties {
  import opened Faults
  import opened Model
  import opened SafeRequestNewHandler

  /** Attempts k .. n-1 each found nothing yet and slept without interruption. */
  predicate RetriedFrom(locator: By, env: Env, k: nat, n: nat)
  {
    forall j :: k <= j < n ==> Attempt(locator, env, j).verdict.Retry?
  }

  /** Checks k .. n-1 all saw the clock within the timeout. */
  predicate InBudget(env: Env, timeout: int, k: nat, n: nat)
  {
    forall j :: k <= j < n ==> Elapsed(env, j) < timeout
  }

  /** The calls of attempts k .. n-1, in order. */
  function AttemptCalls(locator: By, env: Env, k: nat, n: nat): seq<Call>
    decreases n - k
  {
    if n <= k then [] else Attempt(locator, env, k).calls + AttemptCalls(locator, env, k + 1, n)
  }

  /** How many times `c` occurs in `s`. */
  function Occurrences(s: seq<Call>, c: Call): (n: nat)
    ensures n <= |s|
    ensures n == 0 <==> c !in s
  {
    if s == [] then 0 else (if s[0] == c then 1 else 0) + Occurrences(s[1..], c)
  }

  /** Whether `s` contains a tap on the screen. */
  predicate Taps(s: seq<Call>)
  {
    exists i :: 0 <= i < |s| && s[i].Tap?
  }

  /** Regrouping a concatenation, kept apart so the recursive proofs below stay cheap. */
  lemma AppendAssoc(a: seq<Call>, b: seq<Call>, c: seq<Call>)
    ensures a + (b + c) == (a + b) + c
  {
  }

  lemma {:induction false} OccurrencesAppend(a: seq<Call>, b: seq<Call>, c: Call)
    ensures Occurrences(a + b, c) == Occurrences(a, c) + Occurrences(b, c)
  {
    if a != [] {
      assert (a + b)[0] == a[0] && (a + b)[1..] == a[1..] + b;
      OccurrencesAppend(a[1..], b, c);
    } else {
      assert a + b == b;
    }
  }

  lemma TapsAppend(a: seq<Call>, b: seq<Call>)
    ensures Taps(a + b) <==> Taps(a) || Taps(b)
  {
    if Taps(a + b) {
      var i :| 0 <= i < |a + b| && (a + b)[i].Tap?;
      if i >= |a| {
        assert b[i - |a|].Tap?;
      }
    }
    if Taps(a) {
      var i :| 0 <= i < |a| && a[i].Tap?;
      assert (a + b)[i].Tap?;
    }
    if Taps(b) {
      var i :| 0 <= i < |b| && b[i].Tap?;
      assert (a + b)[|a| + i].Tap?;
    }
  }

  // ---------------------------------------------------------------------------
  // Where the loop stops
  // ---------------------------------------------------------------------------

  /** The calls of a run are those of the attempts it made, in order, after the ones
      made before. */
  lemma {:induction false} PollCalls(locator: By, env: Env, timeout: int, k: nat, acc: seq<Call>)
    ensures var p := Poll(locator, env, timeout, k, acc);
      p.calls == acc + AttemptCalls(locator, env, k, p.attempts)
    decreases timeout - Elapsed(env, k)
  {
    var p := Poll(locator, env, timeout, k, acc);
    PollBounds(locator, env, timeout, k, acc);
    if Elapsed(env, k) >= timeout {
      assert acc + [] == acc;
    } else {
      var a := Attempt(locator, env, k);
      if a.verdict.Stop? {
        assert AttemptCalls(locator, env, k, k + 1) == a.calls + [];
      } else {
        PollCalls(locator, env, timeout, k + 1, acc + a.calls);
        PollBounds(locator, env, timeout, k + 1, acc + a.calls);
        assert AttemptCalls(locator, env, k, p.attempts) ==
               a.calls + AttemptCalls(locator, env, k + 1, p.attempts);
        AppendAssoc(acc, a.calls, AttemptCalls(locator, env, k + 1, p.attempts));
      }
    }
  }

  /** Every attempt of a run is made with the clock within the timeout. */
  lemma {:induction false} PollInBudget(locator: By, env: Env, timeout: int, k: nat, acc: seq<Call>)
    ensures var p := Poll(locator, env, timeout, k, acc);
      p.attempts >= k && InBudget(env, timeout, k, p.attempts)
    decreases timeout - Elapsed(env, k)
  {
    var p := Poll(locator, env, timeout, k, acc);
    if Elapsed(env, k) < timeout {
      var a := Attempt(locator, env, k);
      if a.verdict.Retry? {
        PollInBudget(locator, env, timeout, k + 1, acc + a.calls);
        assert p == Poll(locator, env, timeout, k + 1, acc + a.calls);
      }
    }
  }

  /** A run that ends with a null element ran out of time: every attempt it made found
      nothing yet, and the clock is past the timeout at its last check. */
  lemma {:induction false} PollTimedOut(locator: By, env: Env, timeout: int, k: nat, acc: seq<Call>)
    ensures var p := Poll(locator, env, timeout, k, acc);
      p.element == Returned(None) ==>
        RetriedFrom(locator, env, k, p.attempts) && Elapsed(env, p.attempts) >= timeout
    decreases timeout - Elapsed(env, k)
  {
    var p := Poll(locator, env, timeout, k, acc);
    if Elapsed(env, k) < timeout {
      var a := Attempt(locator, env, k);
      if a.verdict.Retry? {
        PollTimedOut(locator, env, timeout, k + 1, acc + a.calls);
        assert p == Poll(locator, env, timeout, k + 1, acc + a.calls);
      } else {
        StopIsNotNull(locator, env, k);
      }
    }
  }

  /** A run that ends with anything else was stopped by its last attempt: every earlier
      attempt found nothing yet, and the element is that attempt's verdict. */
  lemma {:induction false} PollStopped(locator: By, env: Env, timeout: int, k: nat, acc: seq<Call>)
    ensures var p := Poll(locator, env, timeout, k, acc);
      p.element != Returned(None) ==>
        && p.attempts > k
        && RetriedFrom(locator, env, k, p.attempts - 1)
        && Attempt(locator, env, p.attempts - 1).verdict == Stop(p.element)
    decreases timeout - Elapsed(env, k)
  {
    var p := Poll(locator, env, timeout, k, acc);
    if Elapsed(env, k) < timeout {
      var a := Attempt(locator, env, k);
      if a.verdict.Retry? {
        PollStopped(locator, env, timeout, k + 1, acc + a.calls);
        assert p == Poll(locator, env, timeout, k + 1, acc + a.calls);
      } else {
        assert p == Polled(a.verdict.element, k + 1, acc + a.calls);
      }
    }
  }

  /** Conversely, attempts that find nothing yet within the timeout are passed over: the
      run from check k is the run from check n, after their calls. */
  lemma {:induction false} PollSkipsRetries(locator: By, env: Env, timeout: int, k: nat, n: nat, acc: seq<Call>)
    requires k <= n
    requires RetriedFrom(locator, env, k, n) && InBudget(env, timeout, k, n)
    ensures Poll(locator, env, timeout, k, acc) ==
            Poll(locator, env, timeout, n, acc + AttemptCalls(locator, env, k, n))
    decreases n - k
  {
    if k == n {
      assert acc + [] == acc;
    } else {
      var a := Attempt(locator, env, k);
      assert Elapsed(env, k) < timeout && a.verdict.Retry?;
      PollSkipsRetries(locator, env, timeout, k + 1, n, acc + a.calls);
      AppendAssoc(acc, a.calls, AttemptCalls(locator, env, k + 1, n));
    }
  }

  /** The first attempt whose verdict is Stop ends the loop with that verdict, provided
      the clock is still within the timeout at its check. */
  lemma PollFirstStop(locator: By, env: Env, timeout: int, n: nat, e: Lookup)
    requires RetriedFrom(locator, env, 0, n) && InBudget(env, timeout, 0, n + 1)
    requires Attempt(locator, env, n).verdict == Stop(e)
    ensures var p := Poll(locator, env, timeout, 0, []);
      p.element == e && p.attempts == n + 1
  {
    PollSkipsRetries(locator, env, timeout, 0, n, []);
  }

  /** When attempts keep finding nothing until the clock passes the timeout, the loop
      ends with a null element after exactly those attempts. */
  lemma PollExhausts(locator: By, env: Env, timeout: int, n: nat)
    requires RetriedFrom(locator, env, 0, n) && InBudget(env, timeout, 0, n)
    requires Elapsed(env, n) >= timeout
    ensures var p := Poll(locator, env, timeout, 0, []);
      p.element == Returned(None) && p.attempts == n
  {
    PollSkipsRetries(locator, env, timeout, 0, n, []);
  }

  // ---------------------------------------------------------------------------
  // How many attempts
  // ---------------------------------------------------------------------------

  /** With a timeout of t ms the loop makes at most ceil(t / 500) attempts; with a timeout
      of zero or less it makes none and the element stays null. */
  lemma AttemptsBound(locator: By, env: Env, timeout: int)
    ensures var p := Poll(locator, env, timeout, 0, []);
      && (p.attempts > 0 ==> SleepMillis * (p.attempts - 1) < timeout)
      && (timeout <= 0 ==> p == Polled(Returned(None), 0, []))
  {
    PollBounds(locator, env, timeout, 0, []);
  }

  /** A one-second timeout allows two attempts, not three, whatever the clock drift. With
      no drift and nothing found, exactly two attempts are made and findAndroidElement then
      throws ElementNotFound. */
  lemma {:induction false} OneSecondTimeout(model: FindElementModel, env: Env, locator: By)
    requires model.timeout == Some(1000) && model.skip == None
    requires env.strategy(model.strategy, model.selector) == Returned(locator)
    ensures Find(Returned(model), env).attempts <= 2
    ensures env.drift(0) == 0 && env.drift(1) == 0 && RetriedFrom(locator, env, 0, 2) ==>
      var r := Find(Returned(model), env);
      r.attempts == 2 && r.result == Threw(ElementNotFound)
  {
    PollBounds(locator, env, 1000, 0, []);
    if env.drift(0) == 0 && env.drift(1) == 0 && RetriedFrom(locator, env, 0, 2) {
      ElapsedAtLeast(env, 2);
      PollExhausts(locator, env, 1000, 2);
    }
  }

  /** If the first k attempts would find nothing and 500 ms times k already reaches the
      timeout, the loop ends with a null element: it cannot wait for a later attempt. */
  lemma GivesUpAfterBudget(locator: By, env: Env, timeout: int, k: nat)
    requires RetriedFrom(locator, env, 0, k) && SleepMillis * k >= timeout
    ensures Poll(locator, env, timeout, 0, []).element == Returned(None)
  {
    var p := Poll(locator, env, timeout, 0, []);
    PollBounds(locator, env, timeout, 0, []);
    PollStopped(locator, env, timeout, 0, []);
  }

  // ---------------------------------------------------------------------------
  // What findAndroidElement returns
  // ---------------------------------------------------------------------------

  /** An element comes back only when the last dispatch returned its node, through the
      UiObject2 API, the sleep after it was not interrupted, and every earlier attempt
      found nothing yet. The element remembers the locator. */
  lemma FindSucceedsOnlyWithDispatchedNode(model: FindElementModel, env: Env, locator: By)
    requires env.strategy(model.strategy, model.selector) == Returned(locator)
    ensures var r := Find(Returned(model), env);
      r.result.Returned? ==>
        && r.attempts >= 1
        && RetriedFrom(locator, env, 0, r.attempts - 1)
        && Dispatch(locator, env.tree(r.attempts - 1), env.rewriteId(r.attempts - 1)).outcome ==
             Returned(Some(r.result.value.node))
        && !env.interrupted(r.attempts - 1)
        && r.result.value.node.api == UiObject2Api
        && r.result.value.locator == locator
  {
    var timeout := TimeoutOf(model.timeout);
    PollStopped(locator, env, timeout, 0, []);
    var p := Poll(locator, env, timeout, 0, []);
    if p.element != Returned(None) {
      AttemptVerdict(locator, env, p.attempts - 1);
    }
  }

  /** When the loop runs out of time, findAndroidElement throws ElementNotFound, or, with
      skip set, dereferences the null element. */
  lemma FindTimesOut(model: FindElementModel, env: Env, locator: By, n: nat)
    requires env.strategy(model.strategy, model.selector) == Returned(locator)
    requires RetriedFrom(locator, env, 0, n) && InBudget(env, TimeoutOf(model.timeout), 0, n)
    requires Elapsed(env, n) >= TimeoutOf(model.timeout)
    ensures var r := Find(Returned(model), env);
      && r.attempts == n
      && (model.skip == Some(true) ==> r.result == Threw(NullDereference))
      && (model.skip != Some(true) ==> r.result == Threw(ElementNotFound))
  {
    PollExhausts(locator, env, TimeoutOf(model.timeout), n);
  }

  /** A request that cannot be decoded, or whose strategy cannot be resolved, fails after
      the first cache refresh, before any attempt, with the decoder's or the strategy
      lookup's own throwable. */
  lemma FindFailsEarly(model: Outcome<FindElementModel>, env: Env)
    requires model.Threw? || env.strategy(model.value.strategy, model.value.selector).Threw?
    ensures var r := Find(model, env);
      && r.result == Threw(if model.Threw? then model.fault
                           else env.strategy(model.value.strategy, model.value.selector).fault)
      && r.attempts == 0 && r.calls == [RefreshCache]
  {
  }

  /** A match on the first attempt is returned after exactly one dispatch and one sleep. */
  lemma FindFirstAttempt(model: FindElementModel, env: Env, locator: By, node: AccessibleUiObject)
    requires env.strategy(model.strategy, model.selector) == Returned(locator)
    requires Elapsed(env, 0) < TimeoutOf(model.timeout)
    requires Dispatch(locator, env.tree(0), env.rewriteId(0)).outcome == Returned(Some(node))
    requires node.api == UiObject2Api && !env.interrupted(0)
    ensures var r := Find(Returned(model), env);
      && r.result == Returned(UiObject2Element(node, locator))
      && r.attempts == 1
      && r.calls == [RefreshCache] + Dispatch(locator, env.tree(0), env.rewriteId(0)).calls + [Sleep(SleepMillis)]
  {

  }

  /** A stale node on the first attempt is retried; a match on the second is returned. */
  lemma FindRecoversFromStale(model: FindElementModel, env: Env, locator: By, node: AccessibleUiObject)
    requires model.timeout == None
    requires env.strategy(model.strategy, model.selector) == Returned(locator)
    requires Dispatch(locator, env.tree(0), env.rewriteId(0)).outcome == Threw(StaleObject)
    requires Dispatch(locator, env.tree(1), env.rewriteId(1)).outcome == Returned(Some(node))
    requires node.api == UiObject2Api
    requires !env.interrupted(0) && !env.interrupted(1)
    requires env.drift(0) + env.drift(1) < DefaultTimeout - SleepMillis
    ensures var r := Find(Returned(model), env);
      r.result == Returned(UiObject2Element(node, locator)) && r.attempts == 2
  {
    AttemptVerdict(locator, env, 0);
    AttemptVerdict(locator, env, 1);
    PollFirstStop(locator, env, DefaultTimeout, 1, Returned(Some(node)));
  }

  // ---------------------------------------------------------------------------
  // What the loop does on the device
  // ---------------------------------------------------------------------------

  /** One attempt refreshes the cache once, first, and does not tap. */
  lemma AttemptRefreshesOnce(locator: By, env: Env, k: nat)
    ensures var a := Attempt(locator, env, k);
      Occurrences(a.calls, RefreshCache) == 1 && !Taps(a.calls)
  {
    var d := Dispatch(locator, env.tree(k), env.rewriteId(k));
    DispatchCallShape(locator, env.tree(k), env.rewriteId(k));
    DispatchQueries(locator, env.tree(k), env.rewriteId(k));
    var tail := d.calls[1..];
    assert d.calls == [RefreshCache] + tail;
    assert !Taps(tail) by {
      forall i | 0 <= i < |tail| ensures !tail[i].Tap? {
        assert tail[i] == d.calls[i + 1];
      }
    }
    OccurrencesAppend([RefreshCache], tail, RefreshCache);
    TapsAppend([RefreshCache], tail);
    AttemptVerdict(locator, env, k);
    if !Escapes(d.outcome) {
      OccurrencesAppend(d.calls, [Sleep(SleepMillis)], RefreshCache);
      TapsAppend(d.calls, [Sleep(SleepMillis)]);
    }
  }

  /** Each attempt refreshes the accessibility cache exactly once, and none taps. */
  lemma {:induction false} AttemptCallsRefresh(locator: By, env: Env, k: nat, n: nat)
    ensures Occurrences(AttemptCalls(locator, env, k, n), RefreshCache) == if n <= k then 0 else n - k
    ensures !Taps(AttemptCalls(locator, env, k, n))
    decreases n - k
  {
    if k < n {
      var a := Attempt(locator, env, k);
      AttemptRefreshesOnce(locator, env, k);
      AttemptCallsRefresh(locator, env, k + 1, n);
      OccurrencesAppend(a.calls, AttemptCalls(locator, env, k + 1, n), RefreshCache);
      TapsAppend(a.calls, AttemptCalls(locator, env, k + 1, n));
    }
  }

  /** findAndroidElement refreshes the cache once up front and once per attempt, and
      never taps the screen. */
  lemma FindRefreshesPerAttempt(model: Outcome<FindElementModel>, env: Env)
    ensures var r := Find(model, env);
      Occurrences(r.calls, RefreshCache) == r.attempts + 1 && !Taps(r.calls)
  {
    var r := Find(model, env);
    if model.Returned? && env.strategy(model.value.strategy, model.value.selector).Returned? {
      var locator := env.strategy(model.value.strategy, model.value.selector).value;
      var timeout := TimeoutOf(model.value.timeout);
      var p := Poll(locator, env, timeout, 0, []);
      PollBounds(locator, env, timeout, 0, []);
      PollCalls(locator, env, timeout, 0, []);
      AttemptCallsRefresh(locator, env, 0, p.attempts);
      assert p.calls == AttemptCalls(locator, env, 0, p.attempts);
      OccurrencesAppend([RefreshCache], p.calls, RefreshCache);
      TapsAppend([RefreshCache], p.calls);
    } else {
      assert Occurrences(r.calls, RefreshCache) == 1 by {
        assert r.calls == [RefreshCache];
        assert r.calls[1..] == [];
      }
    }
  }
}
