/**
 * The subject a command chain currently points at, the errors the
 * interpreter throws, and the shape of one handler's outcome.
 */
module Subject {
  import opened Wrappers
  import opened Values
  import opened Driver

  datatype Kind = LocatorKind | ValueKind | HandleKind

  /** A DOM locator, a plain value, or an opaque remote handle. */
  datatype Subject = LocatorOf(loc: Locator) | ValueOf(v: Value) | HandleOf(h: Handle)

  function KindOf(s: Subject): Kind {
    match s
    case LocatorOf(_) => LocatorKind
    case ValueOf(_) => ValueKind
    case HandleOf(_) => HandleKind
  }

  /** `subject.value`, as handed to `expect`. */
  function OperandOf(s: Subject): Operand {
    match s
    case LocatorOf(l) => Loc(l)
    case ValueOf(v) => Val(v)
    case HandleOf(h) => Hnd(h)
  }

  /** Everything the interpreter throws, each with the data its message carries. */
  datatype Error =
    | ExpectedLocator(got: Kind)                          // Expected Locator subject, got <kind>
    | LocatorExpected(text: string, kind: Option<Kind>)   // the older inline guards: <text>[, got <kind> ...]
    | UnknownAction(actionType: string)                   // Unknown action "<type>"
    | UnknownAssertion(name: string)                      // Unknown assertion "<name>"
    | UnknownAssertionType(name: string)                  // Unknown assertion type "<name>"
    | ActionNotImplemented(actionType: string)            // Action type "<type>" is not implemented
    | UnknownSelectorModifier(modifier: string)           // Unknown selector modifier <modifier>
    | UnknownPosition(position: string)                   // Unknown position <position>
    | UnknownGlobalName(global: string)                   // Unknown global name "<global>"
    | UnknownHandleValue                                  // Unknown handle value
    | KeyboardNotImplemented(operation: string)           // Keyboard action "<op>" is not implemented
    | HandleNotImplemented                                // Handle subject is not implemented
    | UnresolvableLocator                                 // what
    | TypeError(what: string)                             // a JavaScript TypeError
    | AliasNotFound(alias: string)
    | AssertionFailed(check: Check)                       // the expectation library's failure
    | PayloadMismatch(handlerType: string)
    | CannotChainOffCy(command: string)                   // .<command>() cannot be chained off "cy"
    | NoDomElement(actionType: string)                    // "<type>" action doesn't yield DOM element

  type AliasMap = map<string, Subject>

  /**
   * What one handler produces: the next subject or the error it throws, the
   * alias map afterwards, and the driver calls it made, in order.
   */
  datatype Step = Step(result: Result<Subject, Error>, aliases: AliasMap, events: seq<Event>)

  /** A handler that yields `s` after making the calls `events`. */
  function Yield(s: Subject, aliases: AliasMap, events: seq<Event>): Step {
    Step(Ok(s), aliases, events)
  }

  /** A handler that throws `e` before making any call. */
  function Throw(e: Error, aliases: AliasMap): Step {
    Step(Err(e), aliases, [])
  }

  /**
   * `assertLocator`: passes exactly the locator subjects through, and throws
   * the wrong-subject error naming the actual kind otherwise.
   */
  function AssertLocator(s: Subject): (r: Result<Locator, Error>)
    ensures r.Ok? <==> KindOf(s) == LocatorKind
    ensures r.Ok? ==> s == LocatorOf(r.value)
    ensures r.Err? ==> r.error == ExpectedLocator(KindOf(s))
  {
    match s
    case LocatorOf(l) => Ok(l)
    case _ => Err(ExpectedLocator(KindOf(s)))
  }

  /** `handleSubject`: a handle subject holding exactly `h`. */
  function HandleSubject(h: Handle): (r: Subject)
    ensures KindOf(r) == HandleKind && OperandOf(r) == Hnd(h)
  {
    HandleOf(h)
  }

  /** `valueSubject`: a value subject holding exactly `v`. */
  function ValueSubject(v: Value): (r: Subject)
    ensures KindOf(r) == ValueKind && OperandOf(r) == Val(v)
  {
    ValueOf(v)
  }

  /** The subject every run starts from: `{ type: 'value', value: null }`. */
  function Initial(): Subject {
    ValueOf(Null)
  }
}
