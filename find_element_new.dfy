/** The find-element command: resolve the request's locator by polling and answer with
    the element's attributes; and the two lookup helpers the command class declares, one
    from the device root and one within a previously found element. */
module FindElementNew {
  import opened Faults
  import opened Model
  import opened SafeRequestNewHandler
  import opened PollProperties

  // ---------------------------------------------------------------------------
  // findElement(by): the root lookup
  // ---------------------------------------------------------------------------

  /** The root lookup, written out as the command class writes it; it asks exactly what
      the dispatcher of the polling resolver asks, and gets the same answer. */
  function FindElement(locator: By, tree: Tree, rewriteId: string -> string): (r: Dispatched)
    ensures r == Dispatch(locator, tree, rewriteId)
  {
    match locator
    case ById(id) =>
      var sel := Res(rewriteId(id));
      Dispatched([RefreshCache, FindObject(sel)], tree.findObject(sel))
    case ByAccessibilityId(desc) =>
      Dispatched([RefreshCache, FindObject(Desc(desc))], tree.findObject(Desc(desc)))
    case ByClass(name) =>
      Dispatched([RefreshCache, FindObject(Clazz(name))], tree.findObject(Clazz(name)))
    case ByXPath(expr) =>
      var matched := tree.xpathMatch(expr, Root);
      if matched.Threw? then
        Dispatched([RefreshCache, XPathMatch(expr, Root)], Threw(matched.fault))
      else if |matched.value| == 0 then
        Dispatched([RefreshCache, XPathMatch(expr, Root)], Threw(ElementNotFound))
      else
        Dispatched([RefreshCache, XPathMatch(expr, Root), FindObjectByNodes(matched.value)],
                   tree.findObjectByNodes(matched.value))
    case ByAndroidUiAutomator(expr) =>
      Dispatched([RefreshCache, FindOne(expr, Root)], tree.findOne(expr, Root))
    case Unsupported(kind, _) =>
      Dispatched([RefreshCache], Threw(NotImplemented(NotSupportedMessage(kind))))
  }

  // ---------------------------------------------------------------------------
  // findElement(by, context): the scoped lookup
  // ---------------------------------------------------------------------------

  /** Whether a call stays within `context`: child queries on it, XPath matching and
      UiAutomator lookups rooted at it, and the device lookup of the nodes matched there. */
  predicate InScope(c: Call, context: AndroidElement)
  {
    match c
    case GetChild(ctx, _) => ctx == context
    case XPathMatch(_, scope) => scope == Within(context)
    case FindOne(_, scope) => scope == Within(context)
    case FindObjectByNodes(_) => true
    case _ => false
  }

  /** The scoped lookup: no cache refresh, every query relative to the context. */
  function FindElementWithin(locator: By, context: AndroidElement, tree: Tree, rewriteId: string -> string)
    : (r: Dispatched)
    // never refreshes, never leaves the context
    ensures forall i :: 0 <= i < |r.calls| ==> InScope(r.calls[i], context)
    // a lookup is made only as the last call, and its answer, node, null or throwable,
    // is what the helper hands back; without a lookup the helper throws
    ensures |r.calls| > 0 && IsLookup(Last(r.calls)) ==> r.outcome == Answer(tree, Last(r.calls))
    ensures r.outcome.Returned? ==> |r.calls| > 0 && IsLookup(Last(r.calls))
    // the attribute variants ask the context for a child with their selector
    ensures SelectorFor(locator, rewriteId).Some? ==>
      var sel := SelectorFor(locator, rewriteId).value;
      r == Dispatched([GetChild(context, sel)], tree.getChild(context, sel))
    // XPath matches within the context; no match is a thrown ElementNotFound, never null
    ensures locator.ByXPath? && tree.xpathMatch(locator.expr, Within(context)) == Returned([]) ==>
      r == Dispatched([XPathMatch(locator.expr, Within(context))], Threw(ElementNotFound))
    // a non-empty match is handed to the device's node lookup
    ensures && locator.ByXPath? && tree.xpathMatch(locator.expr, Within(context)).Returned?
            && |tree.xpathMatch(locator.expr, Within(context)).value| > 0 ==>
        var m := tree.xpathMatch(locator.expr, Within(context)).value;
        r == Dispatched([XPathMatch(locator.expr, Within(context)), FindObjectByNodes(m)],
                        tree.findObjectByNodes(m))
    // a matcher that throws passes its own throwable on
    ensures locator.ByXPath? && tree.xpathMatch(locator.expr, Within(context)).Threw? ==>
      r == Dispatched([XPathMatch(locator.expr, Within(context))],
                      Threw(tree.xpathMatch(locator.expr, Within(context)).fault))
    ensures locator.ByAndroidUiAutomator? ==>
      r == Dispatched([FindOne(locator.expr, Within(context))], tree.findOne(locator.expr, Within(context)))
    // an unknown variant queries nothing and throws
    ensures locator.Unsupported? <==> r.calls == []
    ensures locator.Unsupported? ==> r.outcome == Threw(NotImplemented(NotSupportedMessage(locator.kind)))
  {
    match locator
    case ById(id) =>
      var sel := Res(rewriteId(id));
      Dispatched([GetChild(context, sel)], tree.getChild(context, sel))
    case ByAccessibilityId(desc) =>
      Dispatched([GetChild(context, Desc(desc))], tree.getChild(context, Desc(desc)))
    case ByClass(name) =>
      Dispatched([GetChild(context, Clazz(name))], tree.getChild(context, Clazz(name)))
    case ByXPath(expr) =>
      var matched := tree.xpathMatch(expr, Within(context));
      if matched.Threw? then
        Dispatched([XPathMatch(expr, Within(context))], Threw(matched.fault))
      else if |matched.value| == 0 then
        Dispatched([XPathMatch(expr, Within(context))], Threw(ElementNotFound))
      else
        Dispatched([XPathMatch(expr, Within(context)), FindObjectByNodes(matched.value)],
                   tree.findObjectByNodes(matched.value))
    case ByAndroidUiAutomator(expr) =>
      Dispatched([FindOne(expr, Within(context))], tree.findOne(expr, Within(context)))
    case Unsupported(kind, _) =>
      Dispatched([], Threw(NotImplemented(NotSupportedMessage(kind))))
  }

  /** The same query asked from the device root. */
  function AtRoot(c: Call): Call
  {
    match c
    case GetChild(_, sel) => FindObject(sel)
    case XPathMatch(expr, _) => XPathMatch(expr, Root)
    case FindOne(expr, _) => FindOne(expr, Root)
    case _ => c
  }

  /** The two overloads ask the same questions, one from the root after a refresh, the
      other relative to the context, as long as XPath matches the same nodes from both;
      they fail alike wherever the failure is not the lookup's own. */
  lemma OverloadsAgreeUpToScope(locator: By, context: AndroidElement, tree: Tree, rewriteId: string -> string)
    requires locator.ByXPath? ==>
      tree.xpathMatch(locator.expr, Root) == tree.xpathMatch(locator.expr, Within(context))
    ensures var u := FindElement(locator, tree, rewriteId);
      var s := FindElementWithin(locator, context, tree, rewriteId);
      && |u.calls| == |s.calls| + 1
      && u.calls[0] == RefreshCache
      && (forall i :: 0 <= i < |s.calls| ==> u.calls[i + 1] == AtRoot(s.calls[i]))
      // a throw that does not come from the final lookup is the same throw
      && (u.outcome.Threw? && !IsLookup(Last(u.calls)) ==> s.outcome == u.outcome)
  {

  }

  // ---------------------------------------------------------------------------
  // safeHandle and the command as a whole
  // ---------------------------------------------------------------------------

  /** What safeHandle returned or threw, and every call it made. */
  datatype Served = Served(result: Outcome<Response>, calls: seq<Call>)

  /** safeHandle: resolve the element, then answer with its attributes, tagged with the
      request's session. */
  function Respond(req: Request, env: Env): Served
  {
    var r := Find(req.model, env);
    match r.result
    case Threw(f) => Served(Threw(f), r.calls)
    case Returned(element) =>
      var node := element.node;
      match env.elementInfo(node)
      case Threw(f) => Served(Threw(f), r.calls + [GetElementInfo(node)])
      case Returned(info) =>
        Served(Returned(Response(req.sessionId, Value(info))), r.calls + [GetElementInfo(node)])
  }

  /** The whole command: safeHandle under the base handler's catch clauses. */
  function Command(h: Hierarchy, req: Request, env: Env): (resp: Response)
    ensures resp.sessionId == req.sessionId
  {
    Handle(h, req.sessionId, Respond(req, env).result)
  }

  /** safeHandle answers exactly when the element was resolved and its attributes could be
      read, and then with those attributes; otherwise it throws what failed. */
  lemma RespondAnswersWithAttributes(req: Request, env: Env)
    ensures var r := Find(req.model, env);
      var s := Respond(req, env);
      && (s.result.Returned? <==> r.result.Returned? && env.elementInfo(r.result.value.node).Returned?)
      && (s.result.Returned? ==>
            s.result.value == Response(req.sessionId, Value(env.elementInfo(r.result.value.node).value)))
      && (r.result.Threw? ==> s.result == Threw(r.result.fault) && s.calls == r.calls)
      && (r.result.Returned? ==> s.calls == r.calls + [GetElementInfo(r.result.value.node)])
  {
  }

  /** With skip set and no match before the timeout the command does not answer with an
      empty success: the null element is dereferenced and the client gets that throwable. */
  lemma SkipWithoutMatchFails(h: Hierarchy, req: Request, env: Env, locator: By)
    requires req.model.Returned? && req.model.value.skip == Some(true)
    requires env.strategy(req.model.value.strategy, req.model.value.selector) == Returned(locator)
    requires Poll(locator, env, TimeoutOf(req.model.value.timeout), 0, []).element == Returned(None)
    ensures Command(h, req, env) == Response(req.sessionId, Error(Raised(NullDereference)))
  {

  }

  /** Without skip, no match before the timeout is ElementNotFoundException, reported by
      the first clause its type falls under; with no specific one, as itself. */
  lemma NoMatchIsElementNotFound(h: Hierarchy, req: Request, env: Env, locator: By)
    requires req.model.Returned? && req.model.value.skip != Some(true)
    requires env.strategy(req.model.value.strategy, req.model.value.selector) == Returned(locator)
    requires Poll(locator, env, TimeoutOf(req.model.value.timeout), 0, []).element == Returned(None)
    ensures Command(h, req, env) ==
      Response(req.sessionId, Error(Report(FirstClause(h, ElementNotFound), ElementNotFound)))
    ensures h.elementNotFound == {} ==>
      Command(h, req, env) == Response(req.sessionId, Error(Raised(ElementNotFound)))
  {

  }

  /** An unknown locator variant is never retried away: the first attempt throws
      NotImplementedException and the command reports it after one attempt. */
  lemma UnsupportedLocatorFailsAtOnce(h: Hierarchy, req: Request, env: Env, kind: string, text: string)
    requires req.model.Returned?
    requires env.strategy(req.model.value.strategy, req.model.value.selector) == Returned(Unsupported(kind, text))
    requires Elapsed(env, 0) < TimeoutOf(req.model.value.timeout)
    ensures var f := NotImplemented(NotSupportedMessage(kind));
      && Find(req.model, env).attempts == 1
      && Command(h, req, env) == Response(req.sessionId, Error(Report(FirstClause(h, f), f)))
  {

  }
}
