/**
 * The browser driver, seen from the interpreter: the symbolic locators it
 * builds, the remote handles it returns, the checks of its `expect` library,
 * the calls it receives (recorded as a trace of events) and what it reports
 * back (a `Page` oracle). Nothing here says how a real browser behaves; the
 * interpreter only forwards to these calls and trusts their answers.
 */
module Driver {
  import opened Wrappers
  import opened Values

  /** What a query is issued against: the page itself, or an earlier locator. */
  datatype Scope = PageScope | Within(loc: Locator)

  /** A lazily evaluated locator: the chain of queries that produced it. */
  datatype Locator =
    | Query(parent: Scope, css: string)                       // parent.locator(css)
    | ByText(parent: Scope, text: string, exact: Option<bool>) // parent.getByText(text, { exact })
    | FirstOf(of: Locator)                                     // locator.first()
    | LastOf(of: Locator)                                      // locator.last()
    | NthOf(of: Locator, index: int)                           // locator.nth(index)

  /** A reference to a remote page object obtained through evaluateHandle. */
  datatype Handle = WindowHandle | DocumentHandle

  datatype Cookie = Cookie(name: string, value: string, domain: Option<string>, path: string)

  /** A cookie as the driver returns it to the test: a plain object. */
  function CookieValue(c: Cookie): Value {
    Obj([Field("name", Str(c.name)), Field("value", Str(c.value)),
         Field("domain", match c.domain case Some(d) => Str(d) case None => Undefined),
         Field("path", Str(c.path))])
  }

  /** The fields of a parsed URL that the `location` command exposes. */
  datatype Url = Url(hash: string, host: string, hostname: string, href: string, origin: string,
                     pathname: string, port: string, protocol: string, search: string)

  datatype UrlField = Hash | Host | Hostname | Href | Origin | Pathname | Port | Protocol | Search

  /** The name of a URL field, as `keyof URL` spells it. */
  function FieldName(f: UrlField): string {
    match f
    case Hash => "hash"
    case Host => "host"
    case Hostname => "hostname"
    case Href => "href"
    case Origin => "origin"
    case Pathname => "pathname"
    case Port => "port"
    case Protocol => "protocol"
    case Search => "search"
  }

  function UrlPart(u: Url, f: UrlField): string {
    match f
    case Hash => u.hash
    case Host => u.host
    case Hostname => u.hostname
    case Href => u.href
    case Origin => u.origin
    case Pathname => u.pathname
    case Port => u.port
    case Protocol => u.protocol
    case Search => u.search
  }

  /** The scroll geometry of an element, in CSS pixels. */
  datatype Metrics = Metrics(scrollWidth: int, clientWidth: int, scrollHeight: int, clientHeight: int)

  datatype Offsets = Offsets(top: real, left: real)

  datatype ScrollTarget = DocumentRoot | Element(loc: Locator)

  datatype Point = Point(x: real, y: real)

  /** The options object handed to click/dblclick; absent members are `None`. */
  datatype ClickOptions = ClickOptions(force: Option<bool>, button: Option<string>,
                                       position: Option<Point>, modifiers: Option<seq<string>>)

  /** The `name` filter handed to clearCookies. */
  datatype CookieFilter = CookieFilter(name: Option<string>)

  /** What is handed to `expect(...)`: the `value` of a subject. */
  datatype Operand = Val(v: Value) | Loc(l: Locator) | Hnd(h: Handle)

  /** The matchers of the expectation library that the assertions use. */
  datatype Matcher =
    | HaveCount(loc: Locator, expected: Value)
    | HaveText(loc: Locator, expected: Value)
    | HaveClass(loc: Locator, pattern: Value)
    | HaveAttribute(loc: Locator, attribute: Value, expected: Value)
    | BeVisible(loc: Locator)
    | BeHidden(loc: Locator)
    | HaveValue(loc: Locator, expected: Value)
    | ContainText(loc: Locator, expected: Value)
    | BeEmpty(loc: Locator)
    | BeChecked(loc: Locator)
    | HaveLength(actual: Operand, expected: Value)
    | Contain(actual: Operand, item: Value)
    | HaveProperty(actual: Operand, property: Value)
    | Be(actual: Operand, expected: Value)

  /** `expect(x).m(...)` when `negated` is false, `expect(x).not.m(...)` when it is true. */
  datatype Check = Check(matcher: Matcher, negated: bool)

  /** The calls the interpreter makes on the driver, in the order it makes them. */
  datatype Event =
    | Goto(url: string)
    | Fill(target: Locator, text: string)
    | ClearInput(target: Locator)
    | Press(key: string)
    | SetChecked(target: Locator, checked: Option<bool>)
    | CheckBox(target: Locator)
    | Click(target: Locator, options: Option<ClickOptions>)
    | DblClick(target: Locator, options: Option<ClickOptions>)
    | Pause
    | WaitForTimeout(ms: real)
    | ScrollIntoViewIfNeeded(target: Locator, timeout: nat)
    | DispatchEvent(target: Locator, event: string)
    | Blur(target: Locator)
    | Focus(target: Locator)
    | SelectOption(target: Locator, values: Value)
    | ClearCookies(filter: Option<CookieFilter>)
    | AddCookies(cookies: seq<Cookie>)
    | ScrollTo(scrolled: ScrollTarget, offsets: Offsets)
    | Expect(check: Check)

  /**
   * What the driver answers: the page's URL, title and cookies, the number of
   * elements a locator matches, the scroll geometry, the verdict of every
   * check the interpreter cannot decide itself, and own-property tests on
   * remote handles.
   */
  datatype Page = Page(
    url: Url,
    title: string,
    cookies: seq<Cookie>,
    count: Locator -> nat,
    rootMetrics: Metrics,
    metrics: Locator -> Metrics,
    probe: Matcher -> bool,
    hasOwn: (Handle, Value) -> bool)

  /**
   * The matcher rejects what it was handed whatever the negation: a length
   * check on something whose `length` is not a number, or against an
   * expected length that is not a non-negative safe integer; a containment
   * check on null or undefined, or on a string searched for a non-string; a
   * property check on null or undefined.
   */
  predicate MatcherError(m: Matcher) {
    match m
    case HaveLength(Val(v), expected) => NumericLength(v).None? || !NonNegativeSafeInteger(expected)
    case HaveLength(_, _) => true
    case Contain(Val(v), item) => v.Null? || v.Undefined? || (v.Str? && !item.Str?)
    case Contain(_, _) => true
    case HaveProperty(Val(v), _) => v.Null? || v.Undefined?
    case _ => false
  }

  /** Whether the plain (non-negated) matcher passes. */
  predicate Verdict(page: Page, m: Matcher) {
    match m
    case HaveLength(Val(v), expected) => NumericLength(v).Some? && expected == Num(NumericLength(v).value)
    case Contain(Val(Str(s)), item) => item.Str? && Includes(s, item.s)
    case Contain(Val(Arr(items)), item) => item in items
    case Contain(Val(_), _) => false
    case HaveProperty(Val(Obj(fields)), property) => property.Str? && property.s in FieldKeys(fields)
    case Be(Val(v), expected) => v == expected
    case Be(_, _) => false
    case _ => page.probe(m)
  }

  /** Whether `expect` with this check passes; a failing check throws. */
  predicate Holds(page: Page, c: Check) {
    !MatcherError(c.matcher) && Verdict(page, c.matcher) != c.negated
  }

  /** Negation flips the outcome of every matcher that accepts its input. */
  lemma NegationFlips(page: Page, m: Matcher)
    requires !MatcherError(m)
    ensures Holds(page, Check(m, true)) <==> !Holds(page, Check(m, false))
  {
  }

  /** The `expect` calls for the first `n` checks, in order. */
  function Issued(checks: seq<Check>, n: nat): seq<Event>
    requires n <= |checks|
  {
    seq(n, j requires 0 <= j < n => Expect(checks[j]))
  }

  /**
   * The checks that are run, in order, until the first one that fails
   * (included): the calls made are those of a prefix of the checks, every
   * check before the last one issued holds, and the failure reported is the
   * last one issued.
   */
  function RunChecks(page: Page, checks: seq<Check>): (r: (seq<Event>, Option<Check>))
    ensures |r.0| <= |checks| && r.0 == Issued(checks, |r.0|)
    ensures forall j :: 0 <= j < |r.0| - 1 ==> Holds(page, checks[j])
    ensures r.1.None? <==> forall k :: 0 <= k < |checks| ==> Holds(page, checks[k])
    ensures r.1.None? ==> |r.0| == |checks|
    ensures r.1.Some? ==> 0 < |r.0| && r.1.value == checks[|r.0| - 1] && !Holds(page, r.1.value)
  {
    if checks == [] then ([], None)
    else if !Holds(page, checks[0]) then ([Expect(checks[0])], Some(checks[0]))
    else
      var rest := RunChecks(page, checks[1..]);
      assert forall k :: 1 <= k < |checks| ==> checks[k] == checks[1..][k - 1];
      assert [Expect(checks[0])] + rest.0 == Issued(checks, |rest.0| + 1);
      ([Expect(checks[0])] + rest.0, rest.1)
  }
}
