# Locator resolution in appium-uiautomator2-server, in Dafny

This project models how the UiAutomator2 server turns a find-element or click request into a
UI node. The command handlers share a base class, `SafeRequestNewHandler`, which provides:

- `handle`, a catch-all classifier that turns whatever the command throws into a
  session-tagged error response;
- `findAndroidElement`, a polling resolver. It decodes the request, resolves the locator
  strategy once and then retries the dispatcher every 500 ms until a node turns up, a
  non-transient throwable escapes, the sleep is interrupted or the timeout passes;
- `findAndroidElementByBy`, the dispatcher. It refreshes the accessibility cache and issues
  one tree query chosen by the locator variant.

Two commands use the base class. `FindElementNew` answers with the element's attributes and
declares two unused lookup helpers, one from the root and one within a context element.
`ClickNew` resolves the element, reads its attributes, taps the centre of its bounds and
answers with the attributes.

Modules:

- `Faults`: throwables, the catch clauses of `handle` and what each one reports.
- `Model`: locators, nodes, the tree as an oracle, the calls made on collaborators, and the
  request, response and environment.
- `SafeRequestNewHandler`:
  - `Handle`;
  - the dispatcher `Dispatch`;
  - the loop specification `Poll`, built from `Attempt`;
  - the loop itself as the method `PollLoop`, proved equal to `Poll`;
  - `findAndroidElement` as the method `FindAndroidElement`, proved equal to the function
    `Find`.
- `PollProperties`: where the loop stops, how many attempts it makes, what it returns and
  what calls it makes.
- `FindElementNew`: the two `findElement` overloads and the command's `safeHandle` with its
  properties.
- `ClickNew`: the command as a method recording its calls on a `Trace`, proved against
  the specification function `Run`, plus its properties.

Every collaborator the core does not define is an oracle held in a field of `Env` or `Tree`:

- tree queries, each tree as seen after the attempt's own refresh;
- `rewriteIdLocator`;
- the strategy lookup;
- `getElementInfo` and `getBounds`;
- the clock, modelled as a start reading plus a non-negative drift per check, on top of the
  500 ms sleep;
- interruption of each sleep.

A call either returns a value or throws (`Outcome`). The supertypes of the server's own
`ElementNotFoundException` and `NotImplementedException` are not part of this model. A
`Hierarchy` parameter says which of the catch clauses of `handle` each of them falls under.
The polling loop's own catch clauses do not consult it; the type `Hierarchy` excludes the
one choice they would contradict, `NotImplementedException` being a `StaleObjectException`.

## Behaviour worth noting

- **Skip.** `skip=true` with no match is not an empty success. The code only skips the
  `throw` at line 109 of `SafeRequestNewHandler.java`, then dereferences the null element
  at line 114. The client therefore gets a `NullPointerException` through the `Throwable`
  clause (`SkipWithoutMatchFails`).
- **Attempt count.** The clock is checked before each attempt, and every attempt that goes
  on to the next check has slept 500 ms first. So the loop makes at most
  `ceil(timeout/500)` attempts: two for a 1000 ms timeout (`OneSecondTimeout`,
  `AttemptsBound`). An attempt whose dispatch throws anything other than
  `ElementNotFoundException` or `StaleObjectException` leaves the loop before the sleep
  (lines 95-103).
- **Successful attempts.** An attempt that finds a node does not return at once: it still
  sleeps 500 ms, and an interrupted sleep turns the success into a failure
  (`AttemptVerdict`).
- **Casting.** The found node is cast to `UiObject2`. A node from the `UiObject` API
  therefore fails with `ClassCastException` (`Conclude`).

## Model

| member | source | states |
|---|---|---|
| Faults.FirstClause | app/src/main/java/io/appium/uiautomator2/handler/request/SafeRequestNewHandler.java:67-80 | The clause chosen catches the throwable, and no clause written earlier does |
| Faults.LibraryFaultClauses | app/src/main/java/io/appium/uiautomator2/handler/request/SafeRequestNewHandler.java:69-80 | UiObjectNotFound, StaleObject and JsonSyntax/IllegalArgument go to their own clauses whatever the hierarchy; interrupts, null dereferences, bad casts and other throwables reach only the Throwable clause |
| Faults.Report | app/src/main/java/io/appium/uiautomator2/handler/request/SafeRequestNewHandler.java:69-80 | Each clause's wrapper keeps the caught throwable as its cause |
| SafeRequestNewHandler.Handle | app/src/main/java/io/appium/uiautomator2/handler/request/SafeRequestNewHandler.java:62-81 | A normal response passes through unchanged; a throwable becomes an error response for the request's session, wrapped by the first clause that catches it, with the throwable as cause |
| SafeRequestNewHandler.DispatchQueries | app/src/main/java/io/appium/uiautomator2/handler/request/SafeRequestNewHandler.java:120-143 | Refresh first; id, accessibility id and class query the root with `res`/`desc`/`clazz` (ids rewritten); XPath matches from the root: an empty match throws ElementNotFound instead of returning null, a non-empty one goes to `findObject(matchedNodes)`, a throwing matcher passes its throwable on; UiAutomator uses findOne from the root; an unknown variant makes no query and throws NotImplemented "<kind> locator is not supported"; the last lookup's answer (node, null or throwable) is the dispatch's outcome, and a normal return needs a lookup |
| SafeRequestNewHandler.DispatchCallShape | app/src/main/java/io/appium/uiautomator2/handler/request/SafeRequestNewHandler.java:120-137 | The cache is refreshed only as the first call, and only the last call can be a node lookup |
| SafeRequestNewHandler.SkipOf | app/src/main/java/io/appium/uiautomator2/handler/request/SafeRequestNewHandler.java:88 | Skip holds exactly when the request says true; absent means false |
| SafeRequestNewHandler.TimeoutOf | app/src/main/java/io/appium/uiautomator2/handler/request/SafeRequestNewHandler.java:89 | A supplied timeout is used unchanged; absent means 5000 ms |
| SafeRequestNewHandler.ElapsedAtLeast | app/src/main/java/io/appium/uiautomator2/handler/request/SafeRequestNewHandler.java:92-106 | At the k-th clock check at least 500·k ms have passed since the start reading |
| SafeRequestNewHandler.AttemptVerdict | app/src/main/java/io/appium/uiautomator2/handler/request/SafeRequestNewHandler.java:94-106 | Only null, ElementNotFound and StaleObject lead to a retry; any other throwable leaves before the sleep; everything else sleeps 500 ms; an interrupted sleep stops the loop with a RuntimeException, even after a match; a match with an uninterrupted sleep stops the loop with the node |
| SafeRequestNewHandler.StopIsNotNull | app/src/main/java/io/appium/uiautomator2/handler/request/SafeRequestNewHandler.java:93-100 | The loop is never stopped with a null element by an attempt; only the clock ends it with null |
| SafeRequestNewHandler.PollBounds | app/src/main/java/io/appium/uiautomator2/handler/request/SafeRequestNewHandler.java:91-107 | Attempts never decrease; the last attempt started before 500·(attempts−1) ms reached the timeout; a found node means at least one attempt; earlier calls stay a prefix |
| SafeRequestNewHandler.PollStep | app/src/main/java/io/appium/uiautomator2/handler/request/SafeRequestNewHandler.java:93-106 | Within the timeout, one pass ends the run with the escaping throwable, the interrupt or the node, or else the run continues from the next check after the dispatch and sleep calls |
| SafeRequestNewHandler.PollLoop | app/src/main/java/io/appium/uiautomator2/handler/request/SafeRequestNewHandler.java:91-107 | The imperative loop (clock reads, dispatch, catch of transient throwables, sleep) ends with exactly the element, attempt count and calls of the specification `Poll` |
| SafeRequestNewHandler.FindAndroidElement | app/src/main/java/io/appium/uiautomator2/handler/request/SafeRequestNewHandler.java:83-117 | Refresh, decode, defaults, one strategy lookup, the loop, then the conclusion; the result, attempts and calls are those of the specification `Find` |
| PollProperties.PollCalls | app/src/main/java/io/appium/uiautomator2/handler/request/SafeRequestNewHandler.java:91-107 | The calls of a run are those of its attempts, in order |
| PollProperties.PollInBudget | app/src/main/java/io/appium/uiautomator2/handler/request/SafeRequestNewHandler.java:93 | Every attempt was started with the clock within the timeout |
| PollProperties.PollTimedOut | app/src/main/java/io/appium/uiautomator2/handler/request/SafeRequestNewHandler.java:93-107 | A null result means every attempt retried and the clock was past the timeout at the final check |
| PollProperties.PollStopped | app/src/main/java/io/appium/uiautomator2/handler/request/SafeRequestNewHandler.java:93-107 | Any other result is the verdict of the last attempt, and every earlier attempt retried |
| PollProperties.PollSkipsRetries | app/src/main/java/io/appium/uiautomator2/handler/request/SafeRequestNewHandler.java:93-107 | Conversely, retried attempts within the timeout are passed over: the run continues from the first later check |
| PollProperties.PollFirstStop | app/src/main/java/io/appium/uiautomator2/handler/request/SafeRequestNewHandler.java:93-107 | The first attempt that stops, if started in time, decides the element, after exactly that many attempts |
| PollProperties.PollExhausts | app/src/main/java/io/appium/uiautomator2/handler/request/SafeRequestNewHandler.java:93-107 | Attempts that keep finding nothing until the timeout end with a null element after exactly those attempts; the loop terminates |
| PollProperties.AttemptsBound | app/src/main/java/io/appium/uiautomator2/handler/request/SafeRequestNewHandler.java:89-107 | At most ceil(timeout/500) attempts; a timeout ≤ 0 makes none and yields null with no calls |
| PollProperties.OneSecondTimeout | app/src/main/java/io/appium/uiautomator2/handler/request/SafeRequestNewHandler.java:89-111 | A 1000 ms timeout allows at most two attempts; with no drift and no match, exactly two are made, then ElementNotFound |
| PollProperties.GivesUpAfterBudget | app/src/main/java/io/appium/uiautomator2/handler/request/SafeRequestNewHandler.java:93-107 | If the first k attempts find nothing and 500·k ≥ timeout, the element stays null |
| PollProperties.FindSucceedsOnlyWithDispatchedNode | app/src/main/java/io/appium/uiautomator2/handler/request/SafeRequestNewHandler.java:91-116 | An element comes back only from the last dispatch's node, through the UiObject2 API, with an uninterrupted sleep after it, all earlier attempts having retried; it keeps the locator |
| PollProperties.FindTimesOut | app/src/main/java/io/appium/uiautomator2/handler/request/SafeRequestNewHandler.java:109-114 | Running out of time throws ElementNotFound without skip, and a null dereference with skip |
| PollProperties.FindFailsEarly | app/src/main/java/io/appium/uiautomator2/handler/request/SafeRequestNewHandler.java:84-90 | A request that cannot be decoded, or whose strategy cannot be resolved, fails after the first refresh with no attempt, throwing the decoder's or the strategy lookup's own throwable |
| PollProperties.FindFirstAttempt | app/src/main/java/io/appium/uiautomator2/handler/request/SafeRequestNewHandler.java:91-116 | A match on the first attempt is returned after one dispatch and one sleep |
| PollProperties.FindRecoversFromStale | app/src/main/java/io/appium/uiautomator2/handler/request/SafeRequestNewHandler.java:94-100 | StaleObject on the first attempt and a match on the second resolves the element in two attempts |
| PollProperties.AttemptRefreshesOnce | app/src/main/java/io/appium/uiautomator2/handler/request/SafeRequestNewHandler.java:121 | Each attempt refreshes the cache exactly once and taps nothing |
| PollProperties.AttemptCallsRefresh | app/src/main/java/io/appium/uiautomator2/handler/request/SafeRequestNewHandler.java:93-107 | n attempts refresh the cache n times and tap nothing |
| PollProperties.FindRefreshesPerAttempt | app/src/main/java/io/appium/uiautomator2/handler/request/SafeRequestNewHandler.java:84-107 | findAndroidElement refreshes once up front and once per attempt, and never taps |
| FindElementNew.FindElement | app/src/main/java/io/appium/uiautomator2/handler/FindElementNew.java:63-86 | The root overload asks and answers exactly what the polling dispatcher does |
| FindElementNew.FindElementWithin | app/src/main/java/io/appium/uiautomator2/handler/FindElementNew.java:89-110 | No refresh and every call within the context; attribute variants ask the context for a child; XPath matches within the context: an empty match throws ElementNotFound, a non-empty one goes to `findObject(matchedNodes)`, a throwing matcher passes its throwable on; UiAutomator uses findOne in the context; an unknown variant makes no call and throws NotImplemented; the last lookup's answer is the outcome, and a normal return needs a lookup |
| FindElementNew.OverloadsAgreeUpToScope | app/src/main/java/io/appium/uiautomator2/handler/FindElementNew.java:63-110 | When XPath matches the same nodes from both scopes, the root overload makes a refresh followed by the scoped overload's calls asked from the root, and the two fail alike except in the lookup itself |
| FindElementNew.Command | app/src/main/java/io/appium/uiautomator2/handler/FindElementNew.java:57-60 | The command's response is always tagged with the request's session |
| FindElementNew.RespondAnswersWithAttributes | app/src/main/java/io/appium/uiautomator2/handler/FindElementNew.java:57-60 | safeHandle answers exactly when the element resolves and its attributes can be read, with those attributes for the request's session; otherwise it throws what failed, with the calls made |
| FindElementNew.SkipWithoutMatchFails | app/src/main/java/io/appium/uiautomator2/handler/request/SafeRequestNewHandler.java:109-114 | With skip and no match, the client gets the NullPointerException as an error, not an empty success |
| FindElementNew.NoMatchIsElementNotFound | app/src/main/java/io/appium/uiautomator2/handler/request/SafeRequestNewHandler.java:109-111 | Without skip, no match is ElementNotFoundException reported by the first clause its type falls under, as itself when it falls under none |
| FindElementNew.UnsupportedLocatorFailsAtOnce | app/src/main/java/io/appium/uiautomator2/handler/request/SafeRequestNewHandler.java:140-142 | An unknown locator variant is not retried: one attempt, then NotImplemented reported through `handle` |
| ClickNew.SafeHandle | app/src/main/java/io/appium/uiautomator2/handler/ClickNew.java:62-69 | The imperative command appends exactly its calls to the trace, in order, and returns what `Run` specifies |
| ClickNew.Command | app/src/main/java/io/appium/uiautomator2/handler/ClickNew.java:62-69 | The command's response is always tagged with the request's session |
| ClickNew.TapsOnceOnSuccess | app/src/main/java/io/appium/uiautomator2/handler/ClickNew.java:63-68 | The click taps exactly when it succeeds, once, as the last call, at (x of the first bounds, y of the second), after reading the attributes it answers with |
| ClickNew.ClickExtendsFindElement | app/src/main/java/io/appium/uiautomator2/handler/ClickNew.java:63-68 | A find-element failure is the click's failure with the same calls; on success the click answers what find-element answers, after the same calls |
| ClickNew.StaleAfterResolution | app/src/main/java/io/appium/uiautomator2/handler/ClickNew.java:64-66 | A node gone stale after resolution is reported as a stale element reference, and nothing is tapped |
| ClickNew.NoTapWithoutElement | app/src/main/java/io/appium/uiautomator2/handler/ClickNew.java:63 | When resolution fails, the click fails the same way, makes no call beyond resolution and taps nothing |

## Left out

- Real time, `Thread.sleep` and threads: the clock is a start reading plus per-check drift, and each sleep is a `Sleep(500)` call whose interruption is an oracle. Concurrent commands and concurrent cache refreshes are not modelled.
- The contents of the accessibility tree are not modelled. The queries (`findObject`, `getChild`, `getXPathNodeMatch`, `ByUiAutomatorFinder.findOne`) and `refreshAccessibilityCache` are oracles. Each attempt sees its own tree.
- `ElementsLookupStrategy.ofName(...).toNativeSelector` and `toModel` are oracles. A decoding failure is the throwable the request carries.
- `rewriteIdLocator` is an oracle read afresh by each attempt, so the package it qualifies ids with may change between attempts. `Dispatch` assumes it returns normally; a throwable from it is not modelled.
- `RefreshCache` stands for `refreshAccessibilityCache` as a call that always returns normally: `Dispatch` and `Find` assume it never throws.
- `getSessionId` is not modelled: the session id is taken as given with the request.
- `AppiumResponse` serialisation, the JSON of `getElementInfo`, `Rect.centerX/centerY` arithmetic and `Logger` output are left out. Attributes are an opaque value, and bounds are reduced to their centre.
- The supertypes of `ElementNotFoundException` and `NotImplementedException` are not part of this model. The `Hierarchy` parameter stands for them in `handle`. The polling loop (`NothingYet`) assumes `NotImplementedException` is neither an `ElementNotFoundException` nor a `StaleObjectException`, and the type `Hierarchy` rules out the second.
- `UiDevice.click` takes only coordinates, so it cannot raise StaleObjectException. The tap is modelled as always taking place. The boolean it returns is ignored by the command and is not modelled.
- The timeout is a Java `Long` but is modelled as an unbounded integer. Overflow of `currentTimeMillis() - startTime` is not modelled.
- The two `findElement` overloads of `FindElementNew` are private and never called from the command. They are modelled only as lookups, with their properties.
- `UiObject2Element`'s other constructor arguments (`true`, `null`) are not modelled, and neither is any element cache.
- `WakeUp`, `KillServer` and the other handlers built on `SafeRequestHandler` are not part of this model.
