/** The base class shared by the find and click handlers: the catch-all classifier
    (`handle`), the polling resolver (`findAndroidElement`) and the locator dispatcher
    (`findAndroidElementByBy`). */
module SafeRequestNewHandler {
  import opened Faults
  import opened Model

  /** The fixed back-off between attempts, in ms. */
  const SleepMillis := 500

  /** The polling budget when the request gives none, in ms. */
  const DefaultTimeout := 5000

  // ---------------------------------------------------------------------------
  // handle: classification of what safeHandle throws
  // ---------------------------------------------------------------------------

  /** The response `handle` gives for the outcome of `safeHandle`. It is total: whatever
      `safeHandle` does, a response comes back. */
  function Handle(h: Hierarchy, sessionId: string, outcome: Outcome<Response>): (resp: Response)
    ensures outcome.Returned? ==> resp == outcome.value
    ensures outcome.Threw? ==>
      && resp.sessionId == sessionId
      && resp.body.Error?
      && resp.body.failure.cause == outcome.fault
      && resp.body.failure == Report(FirstClause(h, outcome.fault), outcome.fault)
  {
    match outcome
    case Returned(resp) => resp
    case Threw(f) => Response(sessionId, Error(Report(FirstClause(h, f), f)))
  }

  // ---------------------------------------------------------------------------
  // findAndroidElementByBy: one tree query per locator variant
  // ---------------------------------------------------------------------------

  /** The calls one dispatch made, in order, and what it returned or threw. */
  datatype Dispatched = Dispatched(calls: seq<Call>, outcome: Lookup)

  /** The message NotImplementedException carries for an unknown variant. */
  function NotSupportedMessage(kind: string): string
  {
    kind + " locator is not supported"
  }

  /** One dispatch from the device root, after a cache refresh. */
  function Dispatch(locator: By, tree: Tree, rewriteId: string -> string): (r: Dispatched)
  {
    match locator
    case ById(id) =>
      var sel := Res(rewriteId(id));
      Dispatched([RefreshCache, FindObject(sel)], tree.findObject(sel))
    case ByAccessibilityId(desc) =>
      Dispatched([RefreshCache, FindObject(Desc(desc))], tree.findObject(Desc(desc)))
    case ByClass(name) =>
      Dispatched([RefreshCache, FindObject(Clazz(name))], tree.findObject(Clazz(name)))
    case ByXPath(expr) =>
      var matched := tree.xpathMatch(expr, Root);
      if matched.Threw? then
        Dispatched([RefreshCache, XPathMatch(expr, Root)], Threw(matched.fault))
      else if |matched.value| == 0 then
        Dispatched([RefreshCache, XPathMatch(expr, Root)], Threw(ElementNotFound))
      else
        Dispatched([RefreshCache, XPathMatch(expr, Root), FindObjectByNodes(matched.value)],
                   tree.findObjectByNodes(matched.value))
    case ByAndroidUiAutomator(expr) =>
      Dispatched([RefreshCache, FindOne(expr, Root)], tree.findOne(expr, Root))
    case Unsupported(kind, _) =>
      Dispatched([RefreshCache], Threw(NotImplemented(NotSupportedMessage(kind))))
  }

  /** What each locator variant queries, and what a dispatch hands back. */
  lemma DispatchQueries(locator: By, tree: Tree, rewriteId: string -> string)
    ensures var r := Dispatch(locator, tree, rewriteId);
      && |r.calls| >= 1 && r.calls[0] == RefreshCache
      // a lookup is made only as the last call, and its answer, node, null or throwable,
      // is what the dispatch hands back; without a lookup the dispatch throws
      && (IsLookup(Last(r.calls)) ==> r.outcome == Answer(tree, Last(r.calls)))
      && (r.outcome.Returned? ==> IsLookup(Last(r.calls)))
      // the attribute variants query the root with their selector (ids rewritten)
      && (SelectorFor(locator, rewriteId).Some? ==>
            r.calls == [RefreshCache, FindObject(SelectorFor(locator, rewriteId).value)])
      // XPath enumerates matches from the root; no match is a thrown ElementNotFound, never null
      && (locator.ByXPath? ==> |r.calls| >= 2 && r.calls[1] == XPathMatch(locator.expr, Root))
      && (locator.ByXPath? && tree.xpathMatch(locator.expr, Root) == Returned([]) ==>
            r == Dispatched([RefreshCache, XPathMatch(locator.expr, Root)], Threw(ElementNotFound)))
      // a non-empty match is handed to the device's node lookup
      && (locator.ByXPath? && tree.xpathMatch(locator.expr, Root).Returned? &&
          |tree.xpathMatch(locator.expr, Root).value| > 0 ==>
            var m := tree.xpathMatch(locator.expr, Root).value;
            r == Dispatched([RefreshCache, XPathMatch(locator.expr, Root), FindObjectByNodes(m)],
                            tree.findObjectByNodes(m)))
      // a matcher that throws passes its own throwable on
      && (locator.ByXPath? && tree.xpathMatch(locator.expr, Root).Threw? ==>
            r == Dispatched([RefreshCache, XPathMatch(locator.expr, Root)],
                            Threw(tree.xpathMatch(locator.expr, Root).fault)))
      && (locator.ByAndroidUiAutomator? ==> r.calls == [RefreshCache, FindOne(locator.expr, Root)])
      // an unknown variant queries nothing and throws; every known one queries the tree
      && (locator.Unsupported? <==> |r.calls| == 1)
      && (locator.Unsupported? ==> r.outcome == Threw(NotImplemented(NotSupportedMessage(locator.kind))))
  {
  }

  /** The cache is refreshed first and only then, and at most one lookup is made: the
      last call. */
  lemma DispatchCallShape(locator: By, tree: Tree, rewriteId: string -> string)
    ensures var r := Dispatch(locator, tree, rewriteId);
      && RefreshCache !in r.calls[1..]
      && forall i :: 0 <= i < |r.calls| - 1 ==> !IsLookup(r.calls[i])
  {
  }

  // ---------------------------------------------------------------------------
  // findAndroidElement: defaults, strategy, polling loop, conclusion
  // ---------------------------------------------------------------------------

  /** An absent skip flag means false. */
  function SkipOf(skip: Option<bool>): (b: bool)
    ensures b <==> skip == Some(true)
  {
    if skip.None? then false else skip.value
  }

  /** An absent timeout means the default; a supplied one is used unchanged. */
  function TimeoutOf(timeout: Option<int>): (t: int)
    ensures timeout.Some? ==> t == timeout.value
    ensures timeout.None? ==> t == DefaultTimeout
  {
    if timeout.None? then DefaultTimeout else timeout.value
  }

  /** Clock reading at loop check k minus the start time. Every iteration moves the
      clock by the 500 ms sleep plus a non-negative drift. */
  function Elapsed(env: Env, k: nat): int
  {
    if k == 0 then env.drift(0) else Elapsed(env, k - 1) + SleepMillis + env.drift(k)
  }

  /** The clock has moved at least 500 ms per completed iteration. */
  lemma {:induction false} ElapsedAtLeast(env: Env, k: nat)
    ensures Elapsed(env, k) >= SleepMillis * k
  {
    if k > 0 {
      ElapsedAtLeast(env, k - 1);
    }
  }

  /** "Nothing yet": a null result or a transient throwable, both absorbed by the loop. */
  predicate NothingYet(o: Lookup)
  {
    o == Returned(None) || (o.Threw? && (o.fault == ElementNotFound || o.fault == StaleObject))
  }

  /** Whether the loop goes on after an attempt, or stops with this element outcome. */
  datatype Verdict = Retry | Stop(element: Lookup)

  datatype Attempted = Attempted(verdict: Verdict, calls: seq<Call>)

  /** Whether a dispatch outcome escapes the loop at once, before the sleep. */
  predicate Escapes(o: Lookup)
  {
    o.Threw? && !NothingYet(o)
  }

  /** One pass of the loop body: the dispatch, then the 500 ms sleep. */
  function Attempt(locator: By, env: Env, k: nat): Attempted
  {
    var d := Dispatch(locator, env.tree(k), env.rewriteId(k));
    if Escapes(d.outcome) then Attempted(Stop(d.outcome), d.calls)
    else
      var slept := d.calls + [Sleep(SleepMillis)];
      if env.interrupted(k) then Attempted(Stop(Threw(Interrupted)), slept)
      else if d.outcome.Threw? || d.outcome.value.None? then Attempted(Retry, slept)
      else Attempted(Stop(d.outcome), slept)
  }

  /** Only null, ElementNotFound and StaleObject lead to another attempt; any other
      throwable leaves at once without sleeping; everything else sleeps, and an interrupted
      sleep stops the loop even after a success. */
  lemma AttemptVerdict(locator: By, env: Env, k: nat)
    ensures var a := Attempt(locator, env, k);
      var d := Dispatch(locator, env.tree(k), env.rewriteId(k));
      // only null, ElementNotFound and StaleObject lead to another attempt
      && (a.verdict.Retry? <==> NothingYet(d.outcome) && !env.interrupted(k))
      // any other throwable leaves at once, without sleeping
      && (Escapes(d.outcome) ==> a == Attempted(Stop(d.outcome), d.calls))
      // everything else sleeps, a successful attempt included
      && (!Escapes(d.outcome) ==> a.calls == d.calls + [Sleep(SleepMillis)])
      // an interrupted sleep turns into a RuntimeException, even after a success
      && (!Escapes(d.outcome) && env.interrupted(k) ==> a.verdict == Stop(Threw(Interrupted)))
      // a found node stops the loop and is kept
      && (d.outcome.Returned? && d.outcome.value.Some? && !env.interrupted(k) ==>
            a.verdict == Stop(d.outcome))
  {
  }

  /** An attempt never stops the loop with a null element. */
  lemma StopIsNotNull(locator: By, env: Env, k: nat)
    ensures var a := Attempt(locator, env, k);
      a.verdict.Stop? ==> a.verdict.element != Returned(None)
  {
  }

  /** What the loop ends with, how many dispatches it made, and the calls it made. */
  datatype Polled = Polled(element: Lookup, attempts: nat, calls: seq<Call>)

  /** The loop from check k on, `acc` being the calls made before check k: it stops at the
      first check past the timeout, or at the first attempt whose verdict is Stop. */
  function Poll(locator: By, env: Env, timeout: int, k: nat, acc: seq<Call>): Polled
    decreases timeout - Elapsed(env, k)
  {
    if Elapsed(env, k) >= timeout then Polled(Returned(None), k, acc)
    else
      var a := Attempt(locator, env, k);
      match a.verdict
      case Stop(e) => Polled(e, k + 1, acc + a.calls)
      case Retry => Poll(locator, env, timeout, k + 1, acc + a.calls)
  }

  /** The loop never counts back, only dispatches while the clock is within the
      timeout, keeps the calls made so far as a prefix, and has dispatched at least once
      when it found a node. */
  lemma {:induction false} PollBounds(locator: By, env: Env, timeout: int, k: nat, acc: seq<Call>)
    ensures var p := Poll(locator, env, timeout, k, acc);
      && p.attempts >= k
      && (p.attempts > k ==> SleepMillis * (p.attempts - 1) < timeout)
      && (p.element.Returned? && p.element.value.Some? ==> p.attempts > k)
      && acc <= p.calls
    decreases timeout - Elapsed(env, k)
  {
    if Elapsed(env, k) < timeout {
      ElapsedAtLeast(env, k);
      var a := Attempt(locator, env, k);
      if a.verdict.Retry? {
        PollBounds(locator, env, timeout, k + 1, acc + a.calls);
      }
    }
  }

  /** One pass of the loop: each way the attempt at check k can end. */
  lemma PollStep(locator: By, env: Env, timeout: int, k: nat, acc: seq<Call>)
    requires Elapsed(env, k) < timeout
    ensures var d := Dispatch(locator, env.tree(k), env.rewriteId(k));
      var p := Poll(locator, env, timeout, k, acc);
      var slept := (acc + d.calls) + [Sleep(SleepMillis)];
      && (Escapes(d.outcome) ==> p == Polled(d.outcome, k + 1, acc + d.calls))
      && (!Escapes(d.outcome) && env.interrupted(k) ==> p == Polled(Threw(Interrupted), k + 1, slept))
      && (!env.interrupted(k) && d.outcome.Returned? && d.outcome.value.Some? ==>
            p == Polled(d.outcome, k + 1, slept))
      && (NothingYet(d.outcome) && !env.interrupted(k) ==> p == Poll(locator, env, timeout, k + 1, slept))
  {
    var d := Dispatch(locator, env.tree(k), env.rewriteId(k));
    assert acc + (d.calls + [Sleep(SleepMillis)]) == (acc + d.calls) + [Sleep(SleepMillis)];
  }

  /** What follows the loop: no element without skip is ElementNotFoundException; with
      skip the null element is dereferenced; a node is cast to UiObject2 and wrapped. */
  function Conclude(element: Lookup, skip: bool, locator: By): Outcome<AndroidElement>
  {
    match element
    case Threw(f) => Threw(f)
    case Returned(None) =>
      if !skip then Threw(ElementNotFound)
      else Threw(NullDereference)        // element.getValue() on null
    case Returned(Some(node)) =>
      if node.api == UiObject2Api then Returned(UiObject2Element(node, locator))
      else Threw(ClassCast)              // (UiObject2) cast of a UiObject-based node
  }

  /** The outcome of findAndroidElement, the number of dispatches and every call made. */
  datatype Resolution = Resolution(result: Outcome<AndroidElement>, attempts: nat, calls: seq<Call>)

  /** The specification of findAndroidElement. */
  function Find(model: Outcome<FindElementModel>, env: Env): Resolution
  {
    match model
    case Threw(f) => Resolution(Threw(f), 0, [RefreshCache])
    case Returned(m) =>
      match env.strategy(m.strategy, m.selector)
      case Threw(f) => Resolution(Threw(f), 0, [RefreshCache])
      case Returned(locator) =>
        var p := Poll(locator, env, TimeoutOf(m.timeout), 0, []);
        Resolution(Conclude(p.element, SkipOf(m.skip), locator), p.attempts, [RefreshCache] + p.calls)
  }

  /** The polling loop. `element` is null until a dispatch returns a node;
      the loop stops then, or at the first clock check past the timeout. A throwable
      other than ElementNotFound or StaleObject, or an interrupted sleep, leaves at once. */
  method PollLoop(locator: By, env: Env, timeout: int)
    returns (element: Lookup, attempts: nat, calls: seq<Call>)
    ensures Polled(element, attempts, calls) == Poll(locator, env, timeout, 0, [])
  {
    var found: Option<AccessibleUiObject> := None;
    var startTime := env.start;
    var now := startTime + env.drift(0);
    var k: nat := 0;
    calls := [];
    ghost var whole := Poll(locator, env, timeout, 0, []);
    while found.None? && now - startTime < timeout
      invariant now - startTime == Elapsed(env, k)
      invariant found.None? ==> whole == Poll(locator, env, timeout, k, calls)
      invariant found.Some? ==> whole == Polled(Returned(found), k, calls)
      decreases timeout - (now - startTime)
    {
      PollStep(locator, env, timeout, k, calls);
      var d := Dispatch(locator, env.tree(k), env.rewriteId(k));
      calls := calls + d.calls;
      if d.outcome.Threw? && d.outcome.fault != ElementNotFound && d.outcome.fault != StaleObject {
        element, attempts := d.outcome, k + 1;
        return;
      }
      found := if d.outcome.Returned? then d.outcome.value else None;
      calls := calls + [Sleep(SleepMillis)];
      if env.interrupted(k) {
        element, attempts := Threw(Interrupted), k + 1;
        return;
      }
      k := k + 1;
      now := now + SleepMillis + env.drift(k);
    }
    element, attempts := Returned(found), k;
  }

  /** findAndroidElement: refresh, decode, resolve the strategy once, poll, then turn
      what the loop found into an element or a throwable. */
  method FindAndroidElement(model: Outcome<FindElementModel>, env: Env)
    returns (result: Outcome<AndroidElement>, attempts: nat, calls: seq<Call>)
    ensures Resolution(result, attempts, calls) == Find(model, env)
  {
    calls, attempts := [RefreshCache], 0;
    if model.Threw? {
      result := Threw(model.fault);
      return;
    }
    var m := model.value;
    var skip := SkipOf(m.skip);
    var timeout := TimeoutOf(m.timeout);
    var strategy := env.strategy(m.strategy, m.selector);
    if strategy.Threw? {
      result := Threw(strategy.fault);
      return;
    }
    var locator := strategy.value;
    var element, polled;
    element, attempts, polled := PollLoop(locator, env, timeout);
    calls := calls + polled;
    if element.Threw? {
      result := Threw(element.fault);
    } else if element.value.None? && !skip {
      result := Threw(ElementNotFound);
    } else if element.value.None? {
      result := Threw(NullDereference);         // element.getValue() on null
    } else if element.value.value.api != UiObject2Api {
      result := Threw(ClassCast);               // (UiObject2) of a UiObject-based node
    } else {
      result := Returned(UiObject2Element(element.value.value, locator));
    }
  }
}
