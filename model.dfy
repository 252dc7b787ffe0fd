/** The values the handlers work on: locators, UI nodes, the accessibility tree as an
    oracle, the calls the pipeline makes on its collaborators, and the decoded request
    and the response. */
module Model {
  import opened Faults

  /** Which UiAutomator API a found node belongs to. */
  datatype NodeApi = UiObject2Api | UiObjectApi

  /** An opaque UI node as returned by a tree query (an AccessibleUiObject). */
  datatype AccessibleUiObject = AccessibleUiObject(id: nat, api: NodeApi)

  /** One entry of the node list that an XPath match produces. */
  datatype NodeInfo = NodeInfo(id: nat)

  /** The locator variants; `Unsupported` stands for every By subclass that the dispatchers
      do not know. */
  datatype By =
    | ById(id: string)
    | ByAccessibilityId(desc: string)
    | ByClass(className: string)
    | ByXPath(expr: string)
    | ByAndroidUiAutomator(expr: string)
    | Unsupported(kind: string, locator: string)

  /** A UiAutomator selector: By.res, By.desc, By.clazz. */
  datatype Selector = Res(id: string) | Desc(desc: string) | Clazz(className: string)

  /** A resolved element (UiObject2Element): the node and the locator that found it. */
  datatype AndroidElement = UiObject2Element(node: AccessibleUiObject, locator: By)

  /** Where a query starts: the device root or a previously resolved element. */
  datatype Scope = Root | Within(context: AndroidElement)

  /** One lookup: a node, null, or a throwable. */
  type Lookup = Outcome<Option<AccessibleUiObject>>

  /** A call the pipeline makes on one of its collaborators, in the order it makes them. */
  datatype Call =
    | RefreshCache                                      // refreshAccessibilityCache()
    | FindObject(selector: Selector)                    // device.findObject(selector), from the root
    | XPathMatch(expr: string, scope: Scope)            // getXPathNodeMatch(expr, context, false)
    | FindObjectByNodes(nodes: seq<NodeInfo>)           // device.findObject(matchedNodes)
    | FindOne(expr: string, scope: Scope)               // ByUiAutomatorFinder.findOne
    | GetChild(context: AndroidElement, selector: Selector) // context.getChild(selector)
    | Sleep(millis: int)                                // Thread.sleep(millis)
    | GetElementInfo(node: AccessibleUiObject)          // element.getElementInfo()
    | GetBounds(node: AccessibleUiObject)               // element.getBounds()
    | Tap(x: int, y: int)                               // uiDevice.click(x, y)

  /** The answers the accessibility tree gives to queries, as seen after one cache refresh. */
  datatype Tree = Tree(
    findObject: Selector -> Lookup,
    findObjectByNodes: seq<NodeInfo> -> Lookup,
    xpathMatch: (string, Scope) -> Outcome<seq<NodeInfo>>,
    findOne: (string, Scope) -> Lookup,
    getChild: (AndroidElement, Selector) -> Lookup)

  /** The calls that look a node up (as opposed to refreshing, matching XPath or sleeping). */
  predicate IsLookup(c: Call)
  {
    c.FindObject? || c.FindObjectByNodes? || c.FindOne? || c.GetChild?
  }

  /** The tree's answer to a lookup call. */
  function Answer(tree: Tree, c: Call): Lookup
    requires IsLookup(c)
  {
    match c
    case FindObject(s) => tree.findObject(s)
    case FindObjectByNodes(ns) => tree.findObjectByNodes(ns)
    case FindOne(e, s) => tree.findOne(e, s)
    case GetChild(ctx, s) => tree.getChild(ctx, s)
  }

  /** The selector each attribute locator turns into; ids go through the id rewrite,
      labels and class names are used as written. Other variants have none. */
  function SelectorFor(locator: By, rewriteId: string -> string): Option<Selector>
  {
    match locator
    case ById(id) => Some(Res(rewriteId(id)))
    case ByAccessibilityId(desc) => Some(Desc(desc))
    case ByClass(name) => Some(Clazz(name))
    case _ => None
  }

  function Last<T>(s: seq<T>): T
    requires |s| > 0
  {
    s[|s| - 1]
  }

  /** The decoded request body (FindElementModel). Java's boxed nulls are `None`. */
  datatype FindElementModel = FindElementModel(
    strategy: string, selector: string, skip: Option<bool>, timeout: Option<int>)

  /** A request: the session id it carries and the outcome of decoding its body. */
  datatype Request = Request(sessionId: string, model: Outcome<FindElementModel>)

  /** The attribute bundle of an element (getElementInfo), opaque here. */
  datatype ElementInfo = ElementInfo(id: nat)

  /** An element's bounding box, reduced to its centre. */
  datatype Rect = Rect(centerX: int, centerY: int)

  datatype Body = Value(info: ElementInfo) | Error(failure: Failure)

  /** An AppiumResponse: the session it is tagged with and its payload or failure. */
  datatype Response = Response(sessionId: string, body: Body)

  /** Everything outside the core that the handlers consult, as oracles:
      - strategy: ElementsLookupStrategy.ofName(name).toNativeSelector(selector);
      - rewriteId(k): rewriteIdLocator as the k-th polling attempt applies it;
      - tree(k): the tree as the k-th polling attempt sees it, after its own refresh;
      - start: the clock reading taken as the polling start time;
      - drift(0): ms between that reading and the first loop check; drift(k), k > 0: ms
        the k-th loop check comes later than 500 ms after the previous one;
      - interrupted(k): whether the sleep after attempt k is interrupted;
      - elementInfo, bounds(node, n): what getElementInfo and the n-th getBounds give. */
  datatype Env = Env(
    strategy: (string, string) -> Outcome<By>,
    rewriteId: nat -> string -> string,
    tree: nat -> Tree,
    start: int,
    drift: nat -> nat,
    interrupted: nat -> bool,
    elementInfo: AccessibleUiObject -> Outcome<ElementInfo>,
    bounds: (AccessibleUiObject, nat) -> Outcome<Rect>)
}
