/**
 * The action handlers of the registry: selector resolution, the alias map,
 * DOM commands guarded by `assertLocator`, loose-mode fan-out for check and
 * multi-click, cookies, `location`, and `scrollTo`. Each handler takes the
 * current subject and alias map and yields a `Step`.
 */
module Actions {
  import opened Wrappers
  import opened Values
  import opened Driver
  import opened Subject
  import opened Vocabulary
  import opened Loose
  import opened Scroll

  // ----- Selector resolution -----

  /** The scope a locator was resolved against. */
  function ScopeOf(l: Locator): Scope {
    match l
    case Query(parent, _) => parent
    case ByText(parent, _, _) => parent
    case FirstOf(of) => Within(of)
    case LastOf(of) => Within(of)
    case NthOf(of, _) => Within(of)
  }

  /** The selector step a locator was resolved from. */
  function StepOf(l: Locator): SelectorStep {
    match l
    case Query(_, css) => Css(css)
    case ByText(_, text, exact) => ContainsStep(text, exact)
    case FirstOf(_) => FirstStep
    case LastOf(_) => LastStep
    case NthOf(_, n) => NthStep(n)
  }

  predicate Positional(step: SelectorStep) {
    step.FirstStep? || step.LastStep? || step.NthStep?
  }

  /**
   * `resolveSelectorItem`: a string is a query on the parent, `contains` a
   * text filter carrying the `exact` flag, `first`/`last`/`nth` pick from the
   * parent's matches. The page has no `first`/`last`/`nth`, so a positional
   * step against it is a TypeError; an unknown modifier throws.
   */
  function ResolveSelectorItem(parent: Scope, step: SelectorStep): (r: Result<Locator, Error>)
    ensures r.Ok? ==> ScopeOf(r.value) == parent && StepOf(r.value) == step
    ensures r.Err? <==> step.OtherModifier? || (parent.PageScope? && Positional(step))
    ensures step.OtherModifier? ==> r == Err(UnknownSelectorModifier(step.modifier))
  {
    match step
    case Css(query) => Ok(Query(parent, query))
    case ContainsStep(text, exact) => Ok(ByText(parent, text, exact))
    case FirstStep => if parent.Within? then Ok(FirstOf(parent.loc)) else Err(TypeError("first is not a function"))
    case LastStep => if parent.Within? then Ok(LastOf(parent.loc)) else Err(TypeError("last is not a function"))
    case NthStep(n) => if parent.Within? then Ok(NthOf(parent.loc, n)) else Err(TypeError("nth is not a function"))
    case OtherModifier(m) => Err(UnknownSelectorModifier(m))
  }

  // ----- Cookie domains -----

  const CurrentDomain: string := "__CURRENT_DOMAIN__"

  /**
   * `resolveDomain`: the current-domain sentinel becomes `.` followed by the
   * host name of the page's URL; any other domain, or none, is unchanged.
   */
  function ResolveDomain(hostname: string, domain: Option<string>): (r: Option<string>)
    ensures domain == Some(CurrentDomain) ==> r == Some("." + hostname)
    ensures domain != Some(CurrentDomain) ==> r == domain
  {
    if domain == Some(CurrentDomain) then Some("." + hostname) else domain
  }

  // ----- Handlers that change the subject or the alias map -----

  /** `handle`: a handle on the page's window or document; any other name throws. */
  function HandleStep(global: string, aliases: AliasMap): (r: Step)
    ensures r.result.Ok? <==> global in {"window", "document"}
    ensures global == "window" ==> r.result == Ok(HandleSubject(WindowHandle))
    ensures global == "document" ==> r.result == Ok(HandleSubject(DocumentHandle))
    ensures r.result.Err? ==> r.result.error == UnknownGlobalName(global)
    ensures r.aliases == aliases && r.events == []
  {
    if global == "window" then Yield(HandleSubject(WindowHandle), aliases, [])
    else if global == "document" then Yield(HandleSubject(DocumentHandle), aliases, [])
    else Throw(UnknownGlobalName(global), aliases)
  }

  /** `alias`: stores the current subject under `name` and yields it unchanged. */
  function AliasStep(s: Subject, name: string, aliases: AliasMap): (r: Step)
    ensures r.result == Ok(s) && r.events == []
    ensures name in r.aliases && r.aliases[name] == s
    ensures forall other :: other != name ==> (other in r.aliases <==> other in aliases)
    ensures forall other :: other != name && other in aliases ==> r.aliases[other] == aliases[other]
  {
    Step(Ok(s), aliases[name := s], [])
  }

  /** The alias a selector refers to: its first step is a string starting with `@`. */
  function AliasRef(selector: Selector): (r: Option<string>)
    ensures r.Some? ==> |selector| > 0 && selector[0] == Css("@" + r.value)
  {
    if |selector| > 0 && selector[0].Css? && StartsWith(selector[0].query, "@") then
      assert selector[0].query == "@" + selector[0].query[1..];
      Some(selector[0].query[1..])
    else None
  }

  /** The alias reference `@name` is recognised as such. */
  lemma AliasRefOf(name: string, rest: Selector)
    ensures AliasRef([Css("@" + name)] + rest) == Some(name)
  {
    var q := "@" + name;
    assert StartsWith(q, "@") && q[1..] == name;
  }

  /**
   * `locator`: an `@name` first step yields the stored subject without any
   * resolution; otherwise only the first step is resolved, against the page
   * when the subject's value is null or `root` is set, against the subject's
   * locator when it is one, and any other subject throws.
   */
  function LocatorStep(s: Subject, selector: Selector, root: bool, aliases: AliasMap): (r: Result<Subject, Error>)
    ensures AliasRef(selector).Some? ==>
              r == if AliasRef(selector).value in aliases then Ok(aliases[AliasRef(selector).value])
                   else Err(AliasNotFound(AliasRef(selector).value))
    ensures AliasRef(selector).None? && r.Ok? ==>
              r.value.LocatorOf? && |selector| > 0 && StepOf(r.value.loc) == selector[0] &&
              (s == Initial() || root ==> ScopeOf(r.value.loc) == PageScope) &&
              (s != Initial() && !root ==> s.LocatorOf? && ScopeOf(r.value.loc) == Within(s.loc))
    ensures AliasRef(selector).None? && s != Initial() && !root && !s.LocatorOf? ==> r == Err(UnresolvableLocator)
    ensures AliasRef(selector).None? && |selector| > 0 && (s == Initial() || root || s.LocatorOf?) ==>
              (r.Ok? <==> ResolveSelectorItem(if s == Initial() || root then PageScope else Within(s.loc), selector[0]).Ok?)
  {
    match AliasRef(selector)
    case Some(name) => if name in aliases then Ok(aliases[name]) else Err(AliasNotFound(name))
    case None =>
      if s == Initial() || root then
        if |selector| == 0 then Err(TypeError("Cannot read properties of undefined (reading 'modifier')"))
        else var l :- ResolveSelectorItem(PageScope, selector[0]); Ok(LocatorOf(l))
      else if s.LocatorOf? then
        if |selector| == 0 then Err(TypeError("Cannot read properties of undefined (reading 'modifier')"))
        else var l :- ResolveSelectorItem(Within(s.loc), selector[0]); Ok(LocatorOf(l))
      else Err(UnresolvableLocator)
  }

  /** Only the first selector step is ever looked at. */
  lemma OnlyFirstStepResolved(s: Subject, step: SelectorStep, rest1: Selector, rest2: Selector, root: bool, aliases: AliasMap)
    ensures LocatorStep(s, [step] + rest1, root, aliases) == LocatorStep(s, [step] + rest2, root, aliases)
  {
  }

  /**
   * Alias round trip: after `alias(name)` on subject `s`, a `locator` step
   * whose first step is `@name` yields exactly `s`, whatever the subject then.
   */
  lemma AliasRoundTrip(s: Subject, name: string, aliases: AliasMap, later: Subject, rest: Selector, root: bool)
    ensures LocatorStep(later, [Css("@" + name)] + rest, root, AliasStep(s, name, aliases).aliases) == Ok(s)
  {
    AliasRefOf(name, rest);
  }

  // ----- DOM commands -----

  /**
   * A command that needs a locator: `assertLocator` runs before any driver
   * call, the subject is yielded unchanged, and a non-locator subject throws
   * the wrong-subject error with no call made.
   */
  function RequireLocator(s: Subject, aliases: AliasMap, effect: Locator -> seq<Event>): (r: Step)
    ensures r.result.Ok? <==> KindOf(s) == LocatorKind
    ensures r.result.Ok? ==> r.result.value == s && r.events == effect(s.loc)
    ensures r.result.Err? ==> r.result.error == ExpectedLocator(KindOf(s)) && r.events == []
    ensures r.aliases == aliases
  {
    match AssertLocator(s)
    case Ok(l) => Yield(s, aliases, effect(l))
    case Err(e) => Throw(e, aliases)
  }

  /** The options handed to click/dblclick: `position` only when it is a point, never a name. */
  function ClickOptionsOf(force: Option<bool>, button: Option<string>, position: Option<ClickPosition>,
                          modifiers: Option<seq<string>>): (r: ClickOptions)
    ensures r.force == force && r.button == button && r.modifiers == modifiers
    ensures r.position.Some? <==> position.Some? && position.value.PointClick?
    ensures r.position.Some? ==> r.position.value == Point(position.value.x, position.value.y)
  {
    ClickOptions(force, button,
                 match position case Some(PointClick(x, y)) => Some(Point(x, y)) case _ => None,
                 modifiers)
  }

  function ClickCall(double: bool, options: ClickOptions): Locator -> Event {
    (el: Locator) => if double then DblClick(el, Some(options)) else Click(el, Some(options))
  }

  /**
   * `click`: with `multiple`, one call per element through loose mode;
   * otherwise a single `dblclick` when `double` is set and `click` when not.
   */
  function ClickStep(s: Subject, a: Action, page: Page, aliases: AliasMap): (r: Step)
    requires a.ClickAction?
    ensures r.result.Ok? <==> s.LocatorOf?
    ensures r.result.Ok? && a.multiple ==>
              r.events == CallEach(ClickCall(a.double, ClickOptionsOf(a.force, a.button, a.position, a.modifiers)),
                                   Targets(s.loc, page.count(s.loc)))
    ensures r.result.Ok? && !a.multiple ==>
              |r.events| == 1 && (r.events[0].DblClick? <==> a.double) && (r.events[0].Click? <==> !a.double) &&
              r.events[0].target == s.loc &&
              r.events[0].options == Some(ClickOptionsOf(a.force, a.button, a.position, a.modifiers))
  {
    var options := ClickOptionsOf(a.force, a.button, a.position, a.modifiers);
    RequireLocator(s, aliases, (l: Locator) =>
      if a.multiple then CallEach(ClickCall(a.double, options), Targets(l, page.count(l)))
      else if a.double then [DblClick(l, Some(options))]
      else [Click(l, Some(options))])
  }

  /** `check`: `setChecked(value)` on each element, through loose mode. */
  function CheckStep(s: Subject, checked: Option<bool>, page: Page, aliases: AliasMap): (r: Step)
    ensures r.result.Ok? <==> s.LocatorOf?
    ensures r.result.Ok? ==>
              r.events == CallEach((el: Locator) => SetChecked(el, checked), Targets(s.loc, page.count(s.loc)))
  {
    RequireLocator(s, aliases, (l: Locator) => CallEach((el: Locator) => SetChecked(el, checked), Targets(l, page.count(l))))
  }

  // ----- Page commands -----

  /** `keyboard`: only `press` is implemented. */
  function KeyboardStep(s: Subject, operation: string, key: string, aliases: AliasMap): (r: Step)
    ensures r.result.Ok? <==> operation == "press"
    ensures r.result.Ok? ==> r.result.value == s && r.events == [Press(key)]
    ensures r.result.Err? ==> r.result.error == KeyboardNotImplemented(operation) && r.events == []
  {
    if operation == "press" then Yield(s, aliases, [Press(key)])
    else Throw(KeyboardNotImplemented(operation), aliases)
  }

  /** The keys of the object `location` yields without a key, in the source's order. */
  const UrlKeys: seq<string> := ["hash", "host", "hostname", "href", "origin", "pathname", "port", "protocol", "search"]

  /** The object `location` yields without a key (its `toString` member aside). */
  function UrlObject(u: Url): (r: Value)
    ensures r.Obj? && FieldKeys(r.fields) == UrlKeys
  {
    Obj([Field("hash", Str(u.hash)), Field("host", Str(u.host)), Field("hostname", Str(u.hostname)),
         Field("href", Str(u.href)), Field("origin", Str(u.origin)), Field("pathname", Str(u.pathname)),
         Field("port", Str(u.port)), Field("protocol", Str(u.protocol)), Field("search", Str(u.search))])
  }

  /** `location`: one field of the page's URL as a string, or all of them as an object. */
  function LocationValue(u: Url, part: Option<UrlField>): (r: Value)
    ensures part.Some? ==> r == Str(UrlPart(u, part.value))
    ensures part.None? ==> r.Obj? && FieldKeys(r.fields) == UrlKeys
  {
    match part
    case Some(f) => Str(UrlPart(u, f))
    case None => UrlObject(u)
  }

  /**
   * Without a key, `location` yields an object whose member under each
   * field's name is what `location` with that key yields.
   */
  lemma LocationKeysAgree(u: Url, f: UrlField)
    ensures FieldValue(LocationValue(u, None).fields, FieldName(f)) == Some(LocationValue(u, Some(f)))
  {
    var fields := UrlObject(u).fields;
    var k := match f
      case Hash => 0 case Host => 1 case Hostname => 2 case Href => 3 case Origin => 4
      case Pathname => 5 case Port => 6 case Protocol => 7 case Search => 8;
    assert fields[k] == Field(FieldName(f), LocationValue(u, Some(f)));
    forall j | 0 <= j < k ensures fields[j].key != FieldName(f) {
      var key, name := UrlKeys[j], FieldName(f);
      assert fields[j].key == key;
      assert |key| != |name| || key[0] != name[0] || key[1] != name[1];
    }
    FirstFieldWins(fields, k, FieldName(f));
  }

  /** `cookie.clear`: forwards only the `name` of a filter, or no filter at all. */
  function CookieClearStep(s: Subject, filter: Option<ClearFilter>, aliases: AliasMap): (r: Step)
    ensures r.result == Ok(s)
    ensures filter.None? ==> r.events == [ClearCookies(None)]
    ensures filter.Some? ==> r.events == [ClearCookies(Some(CookieFilter(filter.value.name)))]
  {
    Yield(s, aliases, [ClearCookies(match filter case Some(f) => Some(CookieFilter(f.name)) case None => None)])
  }

  /** The index of the first cookie named `name`; an absent name matches no cookie. */
  function {:induction false} FirstNamedFrom(cookies: seq<Cookie>, name: Option<string>, from: nat): (r: Option<nat>)
    requires from <= |cookies|
    ensures r.Some? ==> from <= r.value < |cookies| && Some(cookies[r.value].name) == name
    ensures r.Some? ==> forall j :: from <= j < r.value ==> Some(cookies[j].name) != name
    ensures r.None? ==> forall j :: from <= j < |cookies| ==> Some(cookies[j].name) != name
    decreases |cookies| - from
  {
    if from == |cookies| then None
    else if Some(cookies[from].name) == name then Some(from)
    else FirstNamedFrom(cookies, name, from + 1)
  }

  function CookieValues(cookies: seq<Cookie>): seq<Value> {
    seq(|cookies|, i requires 0 <= i < |cookies| => CookieValue(cookies[i]))
  }

  /**
   * `cookie.get`: every cookie when `multiple` is set; otherwise the first
   * cookie with the requested name, or null when there is none.
   */
  function CookieGetStep(multiple: bool, name: Option<string>, page: Page, aliases: AliasMap): (r: Step)
    ensures r.result.Ok? && r.result.value.ValueOf? && r.events == []
    ensures multiple ==> r.result.value.v == Arr(CookieValues(page.cookies))
    ensures !multiple ==> (r.result.value.v == Null <==> forall c :: c in page.cookies ==> Some(c.name) != name)
    ensures !multiple && r.result.value.v != Null ==>
              exists k :: 0 <= k < |page.cookies| && r.result.value.v == CookieValue(page.cookies[k]) &&
                          Some(page.cookies[k].name) == name &&
                          forall j :: 0 <= j < k ==> Some(page.cookies[j].name) != name
  {
    var found := FirstNamedFrom(page.cookies, name, 0);
    Yield(ValueSubject(if multiple then Arr(CookieValues(page.cookies))
                       else match found case Some(k) => CookieValue(page.cookies[k]) case None => Null),
          aliases, [])
  }

  /** `cookie.set`: adds the cookie with its domain resolved against the page's host. */
  function CookieSetStep(s: Subject, cookie: Cookie, page: Page, aliases: AliasMap): (r: Step)
    ensures r.result == Ok(s)
    ensures r.events == [AddCookies([cookie.(domain := ResolveDomain(page.url.hostname, cookie.domain))])]
  {
    Yield(s, aliases, [AddCookies([cookie.(domain := ResolveDomain(page.url.hostname, cookie.domain))])])
  }

  /**
   * `scrollTo`: a subject whose value is null scrolls the document root;
   * any other subject must be a locator and scrolls that element.
   */
  function ScrollToStep(s: Subject, position: ScrollPosition, page: Page, aliases: AliasMap): (r: Step)
    ensures s == Initial() ==>
              r.result == (if TargetOffsets(position, page.rootMetrics).Ok? then Ok(s)
                           else Err(TargetOffsets(position, page.rootMetrics).error))
    ensures s == Initial() && r.result.Ok? ==>
              r.events == [ScrollTo(DocumentRoot, TargetOffsets(position, page.rootMetrics).value)]
    ensures s != Initial() && !s.LocatorOf? ==> r.result == Err(ExpectedLocator(KindOf(s))) && r.events == []
    ensures s.LocatorOf? ==> (r.result.Ok? <==> TargetOffsets(position, page.metrics(s.loc)).Ok?)
    ensures s.LocatorOf? && r.result.Ok? ==>
              r.events == [ScrollTo(Element(s.loc), TargetOffsets(position, page.metrics(s.loc)).value)]
    ensures r.result.Ok? ==> r.result.value == s
  {
    if s == Initial() then
      match TargetOffsets(position, page.rootMetrics)
      case Ok(o) => Yield(s, aliases, [ScrollTo(DocumentRoot, o)])
      case Err(e) => Throw(e, aliases)
    else
      match AssertLocator(s)
      case Err(e) => Throw(e, aliases)
      case Ok(l) =>
        match TargetOffsets(position, page.metrics(l))
        case Ok(o) => Yield(s, aliases, [ScrollTo(Element(l), o)])
        case Err(e) => Throw(e, aliases)
  }

  // ----- The handler table -----

  /** The action handlers, one per registered callback. */
  datatype Handler =
    | OnHandle | OnAlias | OnSubject | OnLocator | OnNavigate | OnFill | OnClear | OnKeyboard
    | OnCheck | OnClick | OnTitle | OnPause | OnWait | OnScrollIntoView | OnDispatchEvent
    | OnBlur | OnFocus | OnLocation | OnCookieClear | OnCookieGet | OnCookieSet | OnSelect | OnScrollTo

  /** A handler called with an action of another shape. */
  function Mismatch(a: Action, aliases: AliasMap): Step {
    Throw(PayloadMismatch(TypeOf(a)), aliases)
  }

  /** Calls a handler: `(subject, action, page, aliasMap) => Promise<Subject>`. */
  function Call(h: Handler, a: Action, s: Subject, page: Page, aliases: AliasMap): (r: Step)
    ensures !Accepts(h, a) ==> r == Mismatch(a, aliases)
  {
    match h
    case OnHandle => if a.HandleAction? then HandleStep(a.global, aliases) else Mismatch(a, aliases)
    case OnAlias => if a.AliasAction? then AliasStep(s, a.name, aliases) else Mismatch(a, aliases)
    case OnSubject => if a.SubjectAction? then Yield(ValueSubject(a.value), aliases, []) else Mismatch(a, aliases)
    case OnLocator =>
      if a.LocatorAction? then Step(LocatorStep(s, a.selector, a.root, aliases), aliases, []) else Mismatch(a, aliases)
    case OnNavigate => if a.NavigateAction? then Yield(s, aliases, [Goto(a.url)]) else Mismatch(a, aliases)
    case OnFill => if a.FillAction? then RequireLocator(s, aliases, (l: Locator) => [Fill(l, a.text)]) else Mismatch(a, aliases)
    case OnClear => if a.ClearAction? then RequireLocator(s, aliases, (l: Locator) => [ClearInput(l)]) else Mismatch(a, aliases)
    case OnKeyboard => if a.KeyboardAction? then KeyboardStep(s, a.operation, a.key, aliases) else Mismatch(a, aliases)
    case OnCheck => if a.CheckAction? then CheckStep(s, a.checked, page, aliases) else Mismatch(a, aliases)
    case OnClick => if a.ClickAction? then ClickStep(s, a, page, aliases) else Mismatch(a, aliases)
    case OnTitle => if a.TitleAction? then Yield(ValueSubject(Str(page.title)), aliases, []) else Mismatch(a, aliases)
    case OnPause => if a.PauseAction? then Yield(s, aliases, [Pause]) else Mismatch(a, aliases)
    case OnWait => if a.WaitAction? then Yield(s, aliases, [WaitForTimeout(a.ms)]) else Mismatch(a, aliases)
    case OnScrollIntoView =>
      if a.ScrollIntoViewAction? then RequireLocator(s, aliases, (l: Locator) => [ScrollIntoViewIfNeeded(l, 4000)])
      else Mismatch(a, aliases)
    case OnDispatchEvent =>
      if a.DispatchEventAction? then RequireLocator(s, aliases, (l: Locator) => [DispatchEvent(l, a.event)])
      else Mismatch(a, aliases)
    case OnBlur => if a.BlurAction? then RequireLocator(s, aliases, (l: Locator) => [Blur(l)]) else Mismatch(a, aliases)
    case OnFocus => if a.FocusAction? then RequireLocator(s, aliases, (l: Locator) => [Focus(l)]) else Mismatch(a, aliases)
    case OnLocation =>
      if a.LocationAction? then
        Yield(ValueSubject(LocationValue(page.url, a.part)), aliases, [])
      else Mismatch(a, aliases)
    case OnCookieClear => if a.CookieClearAction? then CookieClearStep(s, a.filter, aliases) else Mismatch(a, aliases)
    case OnCookieGet =>
      if a.CookieGetAction? then CookieGetStep(a.multiple, a.cookieName, page, aliases) else Mismatch(a, aliases)
    case OnCookieSet => if a.CookieSetAction? then CookieSetStep(s, a.cookie, page, aliases) else Mismatch(a, aliases)
    case OnSelect =>
      if a.SelectAction? then RequireLocator(s, aliases, (l: Locator) => [SelectOption(l, a.choice)]) else Mismatch(a, aliases)
    case OnScrollTo => if a.ScrollToAction? then ScrollToStep(s, a.to, page, aliases) else Mismatch(a, aliases)
  }

  /**
   * The handlers written inline: `subject` and `title` yield a value,
   * `navigate`, `pause` and `wait` make their one driver call and keep the
   * subject, and `location` yields the URL or one of its parts.
   */
  lemma InlineHandlers(a: Action, s: Subject, page: Page, aliases: AliasMap)
    ensures a.SubjectAction? ==> Call(OnSubject, a, s, page, aliases) == Step(Ok(ValueSubject(a.value)), aliases, [])
    ensures a.NavigateAction? ==> Call(OnNavigate, a, s, page, aliases) == Step(Ok(s), aliases, [Goto(a.url)])
    ensures a.TitleAction? ==> Call(OnTitle, a, s, page, aliases) == Step(Ok(ValueSubject(Str(page.title))), aliases, [])
    ensures a.PauseAction? ==> Call(OnPause, a, s, page, aliases) == Step(Ok(s), aliases, [Pause])
    ensures a.WaitAction? ==> Call(OnWait, a, s, page, aliases) == Step(Ok(s), aliases, [WaitForTimeout(a.ms)])
    ensures a.LocationAction? ==>
              Call(OnLocation, a, s, page, aliases) == Step(Ok(ValueSubject(LocationValue(page.url, a.part))), aliases, [])
  {
  }

  /** The handlers that need a locator subject and guard with `assertLocator`. */
  predicate Guarded(h: Handler) {
    h in {OnFill, OnClear, OnCheck, OnClick, OnSelect, OnScrollIntoView, OnDispatchEvent, OnBlur, OnFocus}
  }

  /** The handler written for each shape of action. */
  predicate Accepts(h: Handler, a: Action) {
    match h
    case OnHandle => a.HandleAction?
    case OnAlias => a.AliasAction?
    case OnSubject => a.SubjectAction?
    case OnLocator => a.LocatorAction?
    case OnNavigate => a.NavigateAction?
    case OnFill => a.FillAction?
    case OnClear => a.ClearAction?
    case OnKeyboard => a.KeyboardAction?
    case OnCheck => a.CheckAction?
    case OnClick => a.ClickAction?
    case OnTitle => a.TitleAction?
    case OnPause => a.PauseAction?
    case OnWait => a.WaitAction?
    case OnScrollIntoView => a.ScrollIntoViewAction?
    case OnDispatchEvent => a.DispatchEventAction?
    case OnBlur => a.BlurAction?
    case OnFocus => a.FocusAction?
    case OnLocation => a.LocationAction?
    case OnCookieClear => a.CookieClearAction?
    case OnCookieGet => a.CookieGetAction?
    case OnCookieSet => a.CookieSetAction?
    case OnSelect => a.SelectAction?
    case OnScrollTo => a.ScrollToAction?
  }

  /**
   * The DOM commands (fill, clear, check, click, select, scrollIntoView,
   * dispatchEvent, blur, focus) throw the wrong-subject error with no driver
   * call on a non-locator subject, and yield the same subject otherwise.
   */
  lemma GuardedCommands(h: Handler, a: Action, s: Subject, page: Page, aliases: AliasMap)
    requires Guarded(h) && Accepts(h, a)
    ensures Call(h, a, s, page, aliases).result.Ok? <==> s.LocatorOf?
    ensures !s.LocatorOf? ==> Call(h, a, s, page, aliases) == Throw(ExpectedLocator(KindOf(s)), aliases)
    ensures s.LocatorOf? ==> Call(h, a, s, page, aliases).result == Ok(s)
  {
  }

  /**
   * On a locator, each guarded command other than `check` and `click` (whose
   * calls `CheckStep` and `ClickStep` state) makes exactly its one driver
   * call on that locator.
   */
  lemma GuardedCalls(h: Handler, a: Action, l: Locator, page: Page, aliases: AliasMap)
    requires Accepts(h, a)
    ensures h == OnFill ==> Call(h, a, LocatorOf(l), page, aliases).events == [Fill(l, a.text)]
    ensures h == OnClear ==> Call(h, a, LocatorOf(l), page, aliases).events == [ClearInput(l)]
    ensures h == OnSelect ==> Call(h, a, LocatorOf(l), page, aliases).events == [SelectOption(l, a.choice)]
    ensures h == OnScrollIntoView ==> Call(h, a, LocatorOf(l), page, aliases).events == [ScrollIntoViewIfNeeded(l, 4000)]
    ensures h == OnDispatchEvent ==> Call(h, a, LocatorOf(l), page, aliases).events == [DispatchEvent(l, a.event)]
    ensures h == OnBlur ==> Call(h, a, LocatorOf(l), page, aliases).events == [Blur(l)]
    ensures h == OnFocus ==> Call(h, a, LocatorOf(l), page, aliases).events == [Focus(l)]
  {
  }

  /** Only `alias` writes the alias map. */
  lemma OnlyAliasWritesAliases(h: Handler, a: Action, s: Subject, page: Page, aliases: AliasMap)
    requires Accepts(h, a) && h != OnAlias
    ensures Call(h, a, s, page, aliases).aliases == aliases
  {
    if Guarded(h) {
      GuardedCommands(h, a, s, page, aliases);
    }
  }

  /**
   * Every handler but `handle`, `subject`, `locator`, `title`, `location`
   * and `cookie.get` yields the subject it was given when it succeeds.
   */
  lemma SubjectPassesThrough(h: Handler, a: Action, s: Subject, page: Page, aliases: AliasMap)
    requires Accepts(h, a)
    ensures (h !in {OnHandle, OnSubject, OnLocator, OnTitle, OnLocation, OnCookieGet} &&
             Call(h, a, s, page, aliases).result.Ok?) ==> Call(h, a, s, page, aliases).result.value == s
  {
  }
}
