/**
 * The older interpreter: one `evaluateAction` switch over the action type,
 * with the assertions inlined. Its guards carry their own messages, a few
 * assertions ignore the negation flag, `check` calls `check()` per element
 * and `click` takes no options, and the newer commands are not implemented.
 */
module LegacyActions {
  import opened Wrappers
  import opened Values
  import opened Driver
  import opened Subject
  import opened Vocabulary
  import opened Loose
  import opened Actions
  import opened Assertions

  /** The inline guard: a locator passes, anything else throws `text` with the subject's kind. */
  function LegacyGuard(s: Subject, text: string): (r: Result<Locator, Error>)
    ensures r.Ok? <==> s.LocatorOf?
    ensures r.Ok? ==> r.value == s.loc
    ensures r.Err? ==> r.error == LocatorExpected(text, Some(KindOf(s)))
  {
    if s.LocatorOf? then Ok(s.loc) else Err(LocatorExpected(text, Some(KindOf(s))))
  }

  /** The assertion names the switch has a case for. */
  function LegacyAssertion(name: string): (r: Option<Assertion>)
    ensures r.Some? <==> name in {"dom.length", "dom.text", "dom.class", "dom.exist", "dom.value",
                                  "include", "property", "empty", "equal", "dom.checked"}
    ensures r.Some? ==> NameOf(r.value) == name && r.value !in {DomAttr, DomVisible, IsNull}
  {
    if name == "dom.length" then Some(DomLength)
    else if name == "dom.text" then Some(DomText)
    else if name == "dom.class" then Some(DomClass)
    else if name == "dom.exist" then Some(DomExist)
    else if name == "dom.value" then Some(DomValue)
    else if name == "include" then Some(Include)
    else if name == "property" then Some(Property)
    else if name == "empty" then Some(Empty)
    else if name == "equal" then Some(Equal)
    else if name == "dom.checked" then Some(DomChecked)
    else None
  }

  /**
   * `empty` on a value as written: for a value that is neither a string nor
   * an array both branches ask for a non-empty key list, whatever the negation.
   */
  function LegacyEmptyAsWritten(v: Value, negation: bool): (r: Result<seq<Check>, Error>)
    ensures !v.Str? && !v.Arr? && r.Ok? ==> forall k :: 0 <= k < |r.value| ==> r.value[k].negated
  {
    if v.Str? || v.Arr? then Ok(One(HaveLength(Val(v), Num(0 as real)), negation))
    else match ObjectKeys(v)
         case Some(keys) => Ok(One(HaveLength(Val(Arr(Strings(keys))), Num(0 as real)), true))
         case None => Err(TypeError("Cannot convert undefined or null to object"))
  }

  /** An empty object fails `empty` as written, and an object with a key passes it. */
  lemma EmptyInvertedAsWritten(page: Page)
    ensures LegacyEmptyAsWritten(Obj([]), false).Ok?
    ensures !Holds(page, LegacyEmptyAsWritten(Obj([]), false).value[0])
    ensures Holds(page, LegacyEmptyAsWritten(Obj([Field("a", Null)]), false).value[0])
  {
    var keys := FieldKeys([Field("a", Null)]);
    assert |keys| == 1 && keys[0] == "a";
    assert keys == ["a"];
    assert Strings(["a"]) == [Str("a")];
  }

  /** `empty` as intended: the negation picks between the plain and the negated zero-length check. */
  function LegacyEmpty(v: Value, negation: bool): (r: Result<seq<Check>, Error>)
    ensures r.Ok? <==> !v.Null? && !v.Undefined?
    ensures r.Ok? ==> |r.value| == 1 && r.value[0].negated == negation
  {
    var m :- EmptyMatcher(v);
    Ok(One(m, negation))
  }

  /** The expectations of an inline assertion, or what it throws first. */
  function LegacyChecks(x: Assertion, s: Subject, value: Value, negation: bool, page: Page): (r: Result<seq<Check>, Error>)
    requires x !in {DomAttr, DomVisible, IsNull}
    ensures x in {DomLength, DomText, DomClass, DomExist} && !s.LocatorOf? ==>
              r == Err(LocatorExpected("count assertion expected locator", Some(KindOf(s))))
    ensures x == DomValue && !s.LocatorOf? ==> r == Err(LocatorExpected("assertion expected locator", Some(KindOf(s))))
    ensures x == DomChecked && !s.LocatorOf? ==> r == Err(LocatorExpected("Locator expected", None))
    ensures x in {DomLength, DomClass, DomExist} && r.Ok? ==> forall k :: 0 <= k < |r.value| ==> !r.value[k].negated
    ensures x == DomExist && s.LocatorOf? ==> r == Ok(One(if negation then BeHidden(s.loc) else BeVisible(s.loc), false))
  {
    match x
    case DomLength =>
      var l :- LegacyGuard(s, "count assertion expected locator"); Ok(One(HaveCount(l, value), false))
    case DomText =>
      var l :- LegacyGuard(s, "count assertion expected locator"); Ok(One(HaveText(l, value), negation))
    case DomClass =>
      var l :- LegacyGuard(s, "count assertion expected locator"); Ok(One(HaveClass(l, value), false))
    case DomExist =>
      var l :- LegacyGuard(s, "count assertion expected locator");
      Ok(One(if negation then BeHidden(l) else BeVisible(l), false))
    case DomValue =>
      var l :- LegacyGuard(s, "assertion expected locator"); Ok(One(HaveValue(l, value), negation))
    case Include =>
      (match s
       case ValueOf(v) => Ok(One(Contain(Val(v), value), negation))
       case LocatorOf(l) => Ok(One(ContainText(l, value), negation))
       case HandleOf(_) => Err(HandleNotImplemented))
    case Property =>
      (match s
       case HandleOf(h) => Ok(One(Be(Val(Bool(page.hasOwn(h, value))), Bool(true)), negation))
       case _ => Ok(One(HaveProperty(OperandOf(s), value), negation)))
    case Empty =>
      (match s
       case ValueOf(v) => LegacyEmpty(v, negation)
       case LocatorOf(l) => Ok(One(BeEmpty(l), negation))
       case HandleOf(_) => Err(HandleNotImplemented))
    case Equal => Ok(One(Be(OperandOf(s), value), negation))
    case DomChecked =>
      if s.LocatorOf? then Ok(EachChecked(s.loc, page.count(s.loc), negation))
      else Err(LocatorExpected("Locator expected", None))
  }

  /**
   * Where both interpreters have the assertion, the inline switch (with `empty`
   * corrected) runs the same expectations as the registry's assertion, except
   * for the guard messages and for `dom.length`, `dom.class` and `dom.exist`.
   * As written, `empty` on a value that is neither a string nor an array runs
   * the registry's `empty` negated, whatever its own negation flag.
   */
  lemma LegacyAgreesWithRegistry(x: Assertion, s: Subject, value: Value, negation: bool, page: Page)
    requires x in {Include, Property, Empty, Equal} || (x in {DomText, DomValue, DomChecked} && s.LocatorOf?)
    ensures LegacyChecks(x, s, value, negation, page) == Checks(x, s, value, Undefined, negation, page)
    ensures x == Empty && s.ValueOf? && !s.v.Str? && !s.v.Arr? ==>
              LegacyEmptyAsWritten(s.v, negation) == Checks(Empty, s, value, Undefined, true, page)
  {
  }

  /** `dom.length` and `dom.class` run the same expectation whatever the negation. */
  lemma NegationIgnored(x: Assertion, s: Subject, value: Value, page: Page)
    requires x == DomLength || x == DomClass
    ensures LegacyChecks(x, s, value, true, page) == LegacyChecks(x, s, value, false, page)
  {
  }

  /**
   * The older interpreter: one step per action. Only `alias` writes the
   * alias map, and a type the switch has no case for always throws.
   */
  function LegacyEvaluate(a: Action, s: Subject, page: Page, aliases: AliasMap): (r: Step)
    ensures !a.AliasAction? ==> r.aliases == aliases
    ensures a.OtherAction? ==> r.result.Err? && r.events == []
  {
    match a
    case HandleAction(global) =>
      if global == "window" then Yield(HandleSubject(WindowHandle), aliases, [])
      else if global == "document" then Yield(HandleSubject(DocumentHandle), aliases, [])
      else Throw(UnknownHandleValue, aliases)
    case AliasAction(name) => AliasStep(s, name, aliases)
    case SubjectAction(v) => Yield(ValueSubject(v), aliases, [])
    case LocatorAction(selector, root) => Step(LocatorStep(s, selector, root, aliases), aliases, [])
    case NavigateAction(url) => Yield(s, aliases, [Goto(url)])
    case AssertionAction(name, negation, value, _, _) =>
      (match LegacyAssertion(name)
       case None => Throw(UnknownAssertionType(name), aliases)
       case Some(x) =>
         match LegacyChecks(x, s, value, negation, page)
         case Err(e) => Throw(e, aliases)
         case Ok(checks) => Conclude(s, checks, page, aliases))
    case FillAction(_, text) =>
      (match LegacyGuard(s, "expected locator")
       case Err(e) => Throw(e, aliases)
       case Ok(l) => Yield(s, aliases, [Fill(l, text)]))
    case ClearAction =>
      (match LegacyGuard(s, "expected locator")
       case Err(e) => Throw(e, aliases)
       case Ok(l) => Yield(s, aliases, [ClearInput(l)]))
    case KeyboardAction(operation, key) => KeyboardStep(s, operation, key, aliases)
    case CheckAction(_, _) =>
      (match LegacyGuard(s, "count assertion expected locator")
       case Err(e) => Throw(e, aliases)
       case Ok(l) => Yield(s, aliases, CallEach((el: Locator) => CheckBox(el), Targets(l, page.count(l)))))
    case ClickAction(_, _, _, _, _, _, _) =>
      (match LegacyGuard(s, "count assertion expected locator")
       case Err(e) => Throw(e, aliases)
       case Ok(l) => Yield(s, aliases, [Click(l, None)]))
    case TitleAction => Yield(ValueSubject(Str(page.title)), aliases, [])
    case PauseAction => Yield(s, aliases, [Pause])
    case WaitAction(ms) => Yield(s, aliases, [WaitForTimeout(ms)])
    case LocationAction(part) => Yield(ValueSubject(LocationValue(page.url, part)), aliases, [])
    case OtherAction(t) =>
      if t == "assertion" then Throw(UnknownAssertionType("undefined"), aliases)
      else Throw(ActionNotImplemented(t), aliases)
    case _ => Throw(ActionNotImplemented(TypeOf(a)), aliases)
  }

  /** The action types the switch has a case for. */
  const LegacyTypes: set<string> :=
    {"handle", "alias", "subject", "locator", "navigate", "assertion", "fill", "clear", "keyboard",
     "check", "click", "title", "pause", "wait", "location"}

  /** The actions that fall through to the end of the switch. */
  predicate FallsThrough(a: Action) {
    a.NavigateAction? || a.FillAction? || a.ClearAction? || a.KeyboardAction? || a.CheckAction? ||
    a.ClickAction? || a.PauseAction? || a.WaitAction? || a.AssertionAction?
  }

  /**
   * The cases that do not return early yield the incoming subject unchanged,
   * and only `alias` touches the alias map.
   */
  lemma FallThroughKeepsSubject(a: Action, s: Subject, page: Page, aliases: AliasMap)
    requires FallsThrough(a)
    ensures LegacyEvaluate(a, s, page, aliases).result.Ok? ==> LegacyEvaluate(a, s, page, aliases).result.value == s
    ensures LegacyEvaluate(a, s, page, aliases).aliases == aliases
  {
    match a
    case AssertionAction(name, negation, value, _, _) =>
    case NavigateAction(_) =>
    case FillAction(_, _) =>
    case ClearAction =>
    case KeyboardAction(_, _) =>
    case CheckAction(_, _) =>
    case ClickAction(_, _, _, _, _, _, _) =>
    case PauseAction =>
    case WaitAction(_) =>
  }

  /** `fill`, `clear`, `check` and `click` throw on a non-locator subject before any driver call. */
  lemma CommandsNeedLocator(a: Action, s: Subject, page: Page, aliases: AliasMap)
    requires a.FillAction? || a.ClearAction? || a.CheckAction? || a.ClickAction?
    ensures LegacyEvaluate(a, s, page, aliases).result.Ok? <==> s.LocatorOf?
    ensures !s.LocatorOf? ==> LegacyEvaluate(a, s, page, aliases).events == []
  {
  }

  /**
   * The driver calls of the older commands: `navigate` goes to the URL on any
   * subject; on a locator, `fill` fills it with the text, `clear` clears it,
   * `check` checks each element through loose mode and `click` clicks it with
   * no options. Each yields the subject it was given.
   */
  lemma LegacyCalls(a: Action, l: Locator, page: Page, aliases: AliasMap)
    ensures a.NavigateAction? ==>
              forall s :: LegacyEvaluate(a, s, page, aliases) == Step(Ok(s), aliases, [Goto(a.url)])
    ensures a.FillAction? ==>
              LegacyEvaluate(a, LocatorOf(l), page, aliases) == Step(Ok(LocatorOf(l)), aliases, [Fill(l, a.text)])
    ensures a.ClearAction? ==>
              LegacyEvaluate(a, LocatorOf(l), page, aliases) == Step(Ok(LocatorOf(l)), aliases, [ClearInput(l)])
    ensures a.CheckAction? ==>
              LegacyEvaluate(a, LocatorOf(l), page, aliases) ==
              Step(Ok(LocatorOf(l)), aliases, CallEach((el: Locator) => CheckBox(el), Targets(l, page.count(l))))
    ensures a.ClickAction? ==>
              LegacyEvaluate(a, LocatorOf(l), page, aliases) == Step(Ok(LocatorOf(l)), aliases, [Click(l, None)])
  {
  }

  /** A `handle` action with any global but `window` or `document` throws `Unknown handle value`. */
  lemma UnknownHandleRejected(global: string, s: Subject, page: Page, aliases: AliasMap)
    requires global !in {"window", "document"}
    ensures LegacyEvaluate(HandleAction(global), s, page, aliases) == Throw(UnknownHandleValue, aliases)
  {
  }

  /** An assertion name without a case throws `Unknown assertion type`. */
  lemma UnknownAssertionRejected(a: Action, s: Subject, page: Page, aliases: AliasMap)
    requires a.AssertionAction? && LegacyAssertion(a.name).None?
    ensures LegacyEvaluate(a, s, page, aliases) == Throw(UnknownAssertionType(a.name), aliases)
  {
  }

  /** The element commands added with the registry are not implemented by the switch. */
  lemma NewerElementCommandsNotImplemented(a: Action, s: Subject, page: Page, aliases: AliasMap)
    requires a.ScrollIntoViewAction? || a.DispatchEventAction? || a.BlurAction? || a.FocusAction? || a.SelectAction?
    ensures LegacyEvaluate(a, s, page, aliases) == Throw(ActionNotImplemented(TypeOf(a)), aliases)
  {
  }

  /** Nor are the cookie commands, `scrollTo`, or any type the switch has no case for. */
  lemma NewerPageCommandsNotImplemented(a: Action, s: Subject, page: Page, aliases: AliasMap)
    requires a.CookieClearAction? || a.CookieGetAction? || a.CookieSetAction? || a.ScrollToAction? ||
             (a.OtherAction? && a.actionType !in LegacyTypes)
    ensures LegacyEvaluate(a, s, page, aliases) == Throw(ActionNotImplemented(TypeOf(a)), aliases)
  {
  }

  /**
   * An assertion action without a name enters the assertion switch and
   * falls to its default, which reports the name as `undefined`.
   */
  lemma NamelessAssertionRejected(s: Subject, page: Page, aliases: AliasMap)
    ensures LegacyEvaluate(OtherAction("assertion"), s, page, aliases) == Throw(UnknownAssertionType("undefined"), aliases)
  {
  }
}
