/** The click command: resolve the element by polling, read its attributes, tap the
    device at the centre of its bounds, and answer with the attributes read before the
    tap. */
module ClickNew {
  import opened Faults
  import opened Model
  import opened SafeRequestNewHandler
  import opened PollProperties
  import FindElementNew

  /** The calls the command has made on its collaborators so far, the taps included. */
  class Trace {
    var calls: seq<Call>

    constructor ()
      ensures calls == []
    {
      calls := [];
    }

    /** Records calls made, in the order they were made. */
    method Append(made: seq<Call>)
      modifies this
      ensures calls == old(calls) + made
    {
      calls := calls + made;
    }
  }

  /** What safeHandle returned or threw, and the calls it made, up to where it stopped. */
  datatype Clicked = Clicked(result: Outcome<Response>, effects: seq<Call>)

  /** The specification of safeHandle. The centre's x comes from the first getBounds call
      and its y from the second; a throwable from any step ends the command there. */
  function Run(req: Request, env: Env): Clicked
  {
    var r := Find(req.model, env);
    match r.result
    case Threw(f) => Clicked(Threw(f), r.calls)
    case Returned(element) =>
      var node := element.node;
      var read := r.calls + [GetElementInfo(node)];
      match env.elementInfo(node)
      case Threw(f) => Clicked(Threw(f), read)
      case Returned(info) =>
        match env.bounds(node, 0)
        case Threw(f) => Clicked(Threw(f), read + [GetBounds(node)])
        case Returned(first) =>
          match env.bounds(node, 1)
          case Threw(f) => Clicked(Threw(f), read + [GetBounds(node), GetBounds(node)])
          case Returned(second) =>
            Clicked(Returned(Response(req.sessionId, Value(info))),
                    read + [GetBounds(node), GetBounds(node), Tap(first.centerX, second.centerY)])
  }

  /** safeHandle, step by step, recording each call on the trace as it is made. */
  method SafeHandle(trace: Trace, req: Request, env: Env) returns (result: Outcome<Response>)
    modifies trace
    ensures trace.calls == old(trace.calls) + Run(req, env).effects
    ensures result == Run(req, env).result
  {
    var element, attempts, resolution := FindAndroidElement(req.model, env);
    trace.Append(resolution);
    if element.Threw? {
      result := Threw(element.fault);
      return;
    }
    var node := element.value.node;
    trace.Append([GetElementInfo(node)]);
    var info := env.elementInfo(node);
    if info.Threw? {
      result := Threw(info.fault);
      return;
    }
    // the receiver first, then the arguments left to right: getBounds twice
    trace.Append([GetBounds(node)]);
    var first := env.bounds(node, 0);
    if first.Threw? {
      result := Threw(first.fault);
      return;
    }
    trace.Append([GetBounds(node)]);
    var second := env.bounds(node, 1);
    if second.Threw? {
      result := Threw(second.fault);
      return;
    }
    trace.Append([Tap(first.value.centerX, second.value.centerY)]);
    result := Returned(Response(req.sessionId, Value(info.value)));
  }

  /** The whole command: safeHandle under the base handler's catch clauses. */
  function Command(h: Hierarchy, req: Request, env: Env): (resp: Response)
    ensures resp.sessionId == req.sessionId
  {
    Handle(h, req.sessionId, Run(req, env).result)
  }

  /** The command taps exactly when it succeeds, exactly once, as its last call, at the
      centre of the resolved element's bounds, after reading the attributes it answers
      with. */
  lemma {:induction false} TapsOnceOnSuccess(req: Request, env: Env)
    ensures var c := Run(req, env);
      var r := Find(req.model, env);
      && (c.result.Returned? <==> Taps(c.effects))
      && (c.result.Returned? ==>
            var node := r.result.value.node;
            && c.effects == r.calls + [GetElementInfo(node), GetBounds(node), GetBounds(node),
                                       Tap(env.bounds(node, 0).value.centerX, env.bounds(node, 1).value.centerY)]
            && c.result.value == Response(req.sessionId, Value(env.elementInfo(node).value))
            && !Taps(c.effects[..|c.effects| - 1]))
  {
    var c := Run(req, env);
    var r := Find(req.model, env);
    FindRefreshesPerAttempt(req.model, env);
    if r.result.Returned? {
      var node := r.result.value.node;
      var read := r.calls + [GetElementInfo(node)];
      TapsAppend(r.calls, [GetElementInfo(node)]);
      assert !Taps([GetElementInfo(node)]);
      if c.result.Returned? {
        var last := [GetBounds(node), GetBounds(node),
                     Tap(env.bounds(node, 0).value.centerX, env.bounds(node, 1).value.centerY)];
        assert read + last == r.calls + [GetElementInfo(node), GetBounds(node), GetBounds(node),
                       Tap(env.bounds(node, 0).value.centerX, env.bounds(node, 1).value.centerY)];
        assert c.effects[..|c.effects| - 1] == read + last[..2];
        TapsAppend(read, last[..2]);
        assert !Taps(last[..2]);
        TapsAppend(read, last);
        assert last[2].Tap?;
      } else if env.elementInfo(node).Threw? {
      } else if env.bounds(node, 0).Threw? {
        TapsAppend(read, [GetBounds(node)]);
        assert !Taps([GetBounds(node)]);
      } else {
        TapsAppend(read, [GetBounds(node), GetBounds(node)]);
        assert !Taps([GetBounds(node), GetBounds(node)]);
      }
    }
  }

  /** Up to the tap the click does what the find-element command does; on success it
      answers with the same response, having then read the bounds twice and tapped. A
      failure of find-element is the click's failure too, with no further call. */
  lemma ClickExtendsFindElement(req: Request, env: Env)
    ensures var c := Run(req, env);
      var s := FindElementNew.Respond(req, env);
      && (s.result.Threw? ==> c == Clicked(s.result, s.calls))
      && (s.result.Returned? ==> s.calls <= c.effects)
      && (c.result.Returned? ==> c.result == s.result)
  {
  }

  /** An element gone stale between resolution and the tap reaches the client as a stale
      element reference, and nothing is tapped. */
  lemma StaleAfterResolution(h: Hierarchy, req: Request, env: Env)
    requires Find(req.model, env).result.Returned?
    requires var node := Find(req.model, env).result.value.node;
      || env.elementInfo(node) == Threw(StaleObject)
      || (env.elementInfo(node).Returned? && env.bounds(node, 0) == Threw(StaleObject))
      || (env.elementInfo(node).Returned? && env.bounds(node, 0).Returned? &&
          env.bounds(node, 1) == Threw(StaleObject))
    ensures Command(h, req, env) == Response(req.sessionId, Error(StaleElementReference(StaleObject)))
    ensures !Taps(Run(req, env).effects)
  {
    TapsOnceOnSuccess(req, env);
  }

  /** A request whose element never appears is reported as the command's failure and
      nothing is tapped. */
  lemma NoTapWithoutElement(req: Request, env: Env)
    requires Find(req.model, env).result.Threw?
    ensures Run(req, env) == Clicked(Threw(Find(req.model, env).result.fault), Find(req.model, env).calls)
    ensures !Taps(Run(req, env).effects)
  {
    FindRefreshesPerAttempt(req.model, env);
  }
}
