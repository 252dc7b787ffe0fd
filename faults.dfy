/** Throwables that cross the locator-resolution pipeline, the outcome of a Java call
    (a value or a throwable), and the catch clauses of the base request handler. */
module Faults {

  datatype Option<+T> = None | Some(value: T)

  /** Every throwable the pipeline raises or lets through. */
  datatype Fault =
    | UiObjectNotFound              // androidx UiObjectNotFoundException
    | StaleObject                   // androidx StaleObjectException
    | JsonSyntax                    // gson JsonSyntaxException
    | IllegalArgument               // java.lang.IllegalArgumentException
    | ElementNotFound               // the server's ElementNotFoundException
    | NotImplemented(message: string) // the server's NotImplementedException
    | Interrupted                   // RuntimeException wrapping an InterruptedException
    | NullDereference               // NullPointerException
    | ClassCast                     // ClassCastException
    | OtherThrowable(name: string)  // any other throwable

  /** A Java call either returns normally with a value or throws. */
  datatype Outcome<+T> = Returned(value: T) | Threw(fault: Fault)

  /** The catch clauses of the base handler, in the order they are written. */
  datatype Clause =
    | UiObjectNotFoundClause        // catch (UiObjectNotFoundException e)
    | StaleObjectClause             // catch (StaleObjectException e)
    | InvalidArgumentClause         // catch (JsonSyntaxException | IllegalArgumentException e)
    | ThrowableClause               // catch (Throwable e)

  /** Position of a clause in the try statement; the first clause has rank 0. */
  function Rank(c: Clause): (r: nat)
    ensures r < 4
  {
    match c
    case UiObjectNotFoundClause => 0
    case StaleObjectClause => 1
    case InvalidArgumentClause => 2
    case ThrowableClause => 3
  }

  /** The superclasses of the server's own exception types are not part of this model:
      each set names the specific clauses (besides Throwable) whose type that exception
      extends. */
  datatype Supertypes = Supertypes(elementNotFound: set<Clause>, notImplemented: set<Clause>)

  /** The hierarchies the polling loop's own catch clauses agree with: the loop absorbs
      ElementNotFoundException and StaleObjectException, and lets NotImplementedException
      escape, so NotImplementedException is not a StaleObjectException. */
  type Hierarchy = h: Supertypes | StaleObjectClause !in h.notImplemented
    witness Supertypes({}, {})

  /** Whether a throwable of kind `f` is an instance of the type caught by clause `c`. */
  predicate CaughtBy(h: Hierarchy, f: Fault, c: Clause)
  {
    c == ThrowableClause ||
    match f
    case UiObjectNotFound => c == UiObjectNotFoundClause
    case StaleObject => c == StaleObjectClause
    case JsonSyntax => c == InvalidArgumentClause
    case IllegalArgument => c == InvalidArgumentClause
    case ElementNotFound => c in h.elementNotFound
    case NotImplemented(_) => c in h.notImplemented
    case _ => false
  }

  /** The clause Java selects: the first one, in written order, that catches `f`. */
  function FirstClause(h: Hierarchy, f: Fault): (c: Clause)
    ensures CaughtBy(h, f, c)
    ensures forall d :: CaughtBy(h, f, d) ==> Rank(c) <= Rank(d)
  {
    if CaughtBy(h, f, UiObjectNotFoundClause) then UiObjectNotFoundClause
    else if CaughtBy(h, f, StaleObjectClause) then StaleObjectClause
    else if CaughtBy(h, f, InvalidArgumentClause) then InvalidArgumentClause
    else ThrowableClause
  }

  /** The library's own throwables land in their own clauses whatever the server's types
      extend; everything else in the pipeline is caught only by the Throwable clause. */
  lemma LibraryFaultClauses(h: Hierarchy, f: Fault)
    ensures f == UiObjectNotFound ==> FirstClause(h, f) == UiObjectNotFoundClause
    ensures f == StaleObject ==> FirstClause(h, f) == StaleObjectClause
    ensures f == JsonSyntax || f == IllegalArgument ==> FirstClause(h, f) == InvalidArgumentClause
    ensures f.Interrupted? || f.NullDereference? || f.ClassCast? || f.OtherThrowable? ==>
      FirstClause(h, f) == ThrowableClause
  {
  }

  /** What a failed command reports to the client. */
  datatype Failure =
    | ElementNotFoundError(cause: Fault)    // new ElementNotFoundException(e)
    | StaleElementReference(cause: Fault)   // new StaleElementReferenceException(e)
    | InvalidArgumentError(cause: Fault)    // new InvalidArgumentException(e)
    | Raised(cause: Fault)                  // the throwable itself

  /** The wrapper each clause puts around the throwable it caught. */
  function Report(c: Clause, f: Fault): (e: Failure)
    ensures e.cause == f
  {
    match c
    case UiObjectNotFoundClause => ElementNotFoundError(f)
    case StaleObjectClause => StaleElementReference(f)
    case InvalidArgumentClause => InvalidArgumentError(f)
    case ThrowableClause => Raised(f)
  }
}
