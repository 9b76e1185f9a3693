/**
 * The registry: two name-to-callback tables, one for actions keyed by their
 * `type` and one for assertions keyed by their `name`, a fluent builder that
 * fills them, `compose` that merges two registries, and `evaluateAction`
 * that dispatches one recorded action. Callbacks are identified by the
 * handler or assertion they run.
 */
module Registry {
  import opened Wrappers
  import opened Driver
  import opened Subject
  import opened Vocabulary
  import opened Actions
  import opened Assertions

  /**
   * Dispatch on a registry's tables: an `assertion` action goes to the
   * assertion registered under its name, any other action to the callback
   * registered under its type; a missing entry throws before any call.
   */
  function Evaluate(actions: map<string, Handler>, assertions: map<string, Assertion>,
                    a: Action, s: Subject, page: Page, aliases: AliasMap): (r: Step)
    ensures a.AssertionAction? && a.name in assertions ==>
              r == AssertStep(assertions[a.name], s, a.value, a.attribute, a.negation, page, aliases)
    ensures !a.AssertionAction? && TypeOf(a) != "assertion" && TypeOf(a) in actions ==>
              r == Call(actions[TypeOf(a)], a, s, page, aliases)
    ensures a.AssertionAction? && a.name !in assertions ==> r == Throw(UnknownAssertion(a.name), aliases)
    ensures a == OtherAction("assertion") ==> r == Throw(UnknownAssertion("undefined"), aliases)
    ensures !a.AssertionAction? && TypeOf(a) != "assertion" && TypeOf(a) !in actions ==>
              r == Throw(UnknownAction(TypeOf(a)), aliases)
  {
    if a.AssertionAction? then
      if a.name in assertions then AssertStep(assertions[a.name], s, a.value, a.attribute, a.negation, page, aliases)
      else Throw(UnknownAssertion(a.name), aliases)
    else if a.OtherAction? && a.actionType == "assertion" then Throw(UnknownAssertion("undefined"), aliases)
    else if TypeOf(a) in actions then Call(actions[TypeOf(a)], a, s, page, aliases)
    else Throw(UnknownAction(TypeOf(a)), aliases)
  }

  class Registry {
    var actions: map<string, Handler>
    var assertions: map<string, Assertion>

    constructor (actions: map<string, Handler>, assertions: map<string, Assertion>)
      ensures this.actions == actions && this.assertions == assertions
    {
      this.actions := actions;
      this.assertions := assertions;
    }

    /** `compose`: a new registry holding both tables, the second one winning on a shared key. */
    static method Compose(a: Registry, b: Registry) returns (r: Registry)
      ensures fresh(r)
      ensures r.actions == a.actions + b.actions && r.assertions == a.assertions + b.assertions
    {
      r := new Registry(a.actions + b.actions, a.assertions + b.assertions);
    }

    /** `action`: registers (or replaces) the callback for a type and returns this registry. */
    method RegisterAction(actionType: string, h: Handler) returns (self: Registry)
      modifies this
      ensures self == this
      ensures actions == old(actions)[actionType := h] && assertions == old(assertions)
    {
      actions := actions[actionType := h];
      self := this;
    }

    /** `assertion`: registers (or replaces) the callback for an assertion name and returns this registry. */
    method RegisterAssertion(name: string, x: Assertion) returns (self: Registry)
      modifies this
      ensures self == this
      ensures assertions == old(assertions)[name := x] && actions == old(actions)
    {
      assertions := assertions[name := x];
      self := this;
    }

    /** `evaluateAction`: dispatches on the current tables. */
    method EvaluateAction(a: Action, s: Subject, page: Page, aliases: AliasMap) returns (r: Step)
      ensures r == Evaluate(actions, assertions, a, s, page, aliases)
    {
      if a.AssertionAction? {
        if a.name in assertions {
          r := AssertStep(assertions[a.name], s, a.value, a.attribute, a.negation, page, aliases);
        } else {
          r := Throw(UnknownAssertion(a.name), aliases);
        }
      } else if a.OtherAction? && a.actionType == "assertion" {
        r := Throw(UnknownAssertion("undefined"), aliases);
      } else if TypeOf(a) in actions {
        r := Call(actions[TypeOf(a)], a, s, page, aliases);
      } else {
        r := Throw(UnknownAction(TypeOf(a)), aliases);
      }
    }
  }

  /** Composition keeps every key of both registries, and the second registry wins on a shared key. */
  lemma ComposeUnion<K, V>(a: map<K, V>, b: map<K, V>)
    ensures (a + b).Keys == a.Keys + b.Keys
    ensures forall k :: k in b ==> (a + b)[k] == b[k]
    ensures forall k :: k in a && k !in b ==> (a + b)[k] == a[k]
  {
  }

  /** The handlers both registries register, in registration order. */
  function SharedActionTable(): map<string, Handler> {
    map["handle" := OnHandle, "alias" := OnAlias, "subject" := OnSubject, "locator" := OnLocator,
        "navigate" := OnNavigate, "fill" := OnFill, "clear" := OnClear, "keyboard" := OnKeyboard,
        "check" := OnCheck, "click" := OnClick, "title" := OnTitle, "pause" := OnPause, "wait" := OnWait,
        "scrollIntoView" := OnScrollIntoView, "dispatchEvent" := OnDispatchEvent, "blur" := OnBlur,
        "focus" := OnFocus, "location" := OnLocation, "cookie.clear" := OnCookieClear,
        "cookie.get" := OnCookieGet, "cookie.set" := OnCookieSet]
  }

  /** Neither `assertion` nor the two newer commands are among the shared handlers. */
  lemma SharedKeys()
    ensures "assertion" !in SharedActionTable()
    ensures "select" !in SharedActionTable() && "scrollTo" !in SharedActionTable()
  {
  }

  /** The action registry's table: the shared handlers, then `select` and `scrollTo`. */
  function ActionTable(): map<string, Handler> {
    SharedActionTable()["select" := OnSelect]["scrollTo" := OnScrollTo]
  }

  /** The assertion registry's table. */
  function AssertionTable(): map<string, Assertion> {
    map["dom.length" := DomLength, "dom.text" := DomText, "dom.class" := DomClass, "dom.attr" := DomAttr,
        "dom.exist" := DomExist, "dom.value" := DomValue, "include" := Include, "property" := Property,
        "empty" := Empty, "equal" := Equal, "dom.checked" := DomChecked, "dom.visible" := DomVisible,
        "null" := IsNull]
  }

  /** `actionRegistry`: a fresh registry with one callback per action type. */
  method BuildActionRegistry() returns (r: Registry)
    ensures fresh(r) && r.actions == ActionTable() && r.assertions == map[]
  {
    r := new Registry(map[], map[]);
    r := r.RegisterAction("handle", OnHandle);
    r := r.RegisterAction("alias", OnAlias);
    r := r.RegisterAction("subject", OnSubject);
    r := r.RegisterAction("locator", OnLocator);
    r := r.RegisterAction("navigate", OnNavigate);
    r := r.RegisterAction("fill", OnFill);
    r := r.RegisterAction("clear", OnClear);
    r := r.RegisterAction("keyboard", OnKeyboard);
    r := r.RegisterAction("check", OnCheck);
    r := r.RegisterAction("click", OnClick);
    r := r.RegisterAction("title", OnTitle);
    r := r.RegisterAction("pause", OnPause);
    r := r.RegisterAction("wait", OnWait);
    r := r.RegisterAction("scrollIntoView", OnScrollIntoView);
    r := r.RegisterAction("dispatchEvent", OnDispatchEvent);
    r := r.RegisterAction("blur", OnBlur);
    r := r.RegisterAction("focus", OnFocus);
    r := r.RegisterAction("location", OnLocation);
    r := r.RegisterAction("cookie.clear", OnCookieClear);
    r := r.RegisterAction("cookie.get", OnCookieGet);
    r := r.RegisterAction("cookie.set", OnCookieSet);
    r := r.RegisterAction("select", OnSelect);
    r := r.RegisterAction("scrollTo", OnScrollTo);
  }

  /** `assertionRegistry`: a fresh registry with one callback per assertion name. */
  method BuildAssertionRegistry() returns (r: Registry)
    ensures fresh(r) && r.actions == map[] && r.assertions == AssertionTable()
  {
    r := new Registry(map[], map[]);
    r := r.RegisterAssertion("dom.length", DomLength);
    r := r.RegisterAssertion("dom.text", DomText);
    r := r.RegisterAssertion("dom.class", DomClass);
    r := r.RegisterAssertion("dom.attr", DomAttr);
    r := r.RegisterAssertion("dom.exist", DomExist);
    r := r.RegisterAssertion("dom.value", DomValue);
    r := r.RegisterAssertion("include", Include);
    r := r.RegisterAssertion("property", Property);
    r := r.RegisterAssertion("empty", Empty);
    r := r.RegisterAssertion("equal", Equal);
    r := r.RegisterAssertion("dom.checked", DomChecked);
    r := r.RegisterAssertion("dom.visible", DomVisible);
    r := r.RegisterAssertion("null", IsNull);
  }

  /** `registry`: the action registry composed with the assertion registry. */
  method BuildRegistry() returns (r: Registry)
    ensures fresh(r) && r.actions == ActionTable() && r.assertions == AssertionTable()
  {
    var actionRegistry := BuildActionRegistry();
    var assertionRegistry := BuildAssertionRegistry();
    r := Registry.Compose(actionRegistry, assertionRegistry);
    assert actionRegistry.actions + map[] == ActionTable();
    assert map[] + AssertionTable() == AssertionTable();
  }

  /** An action whose `type` is not one the registry knows is only ever a truly unknown type. */
  predicate Recorded(a: Action) {
    a.OtherAction? ==> a.actionType !in ActionTable() && a.actionType != "assertion"
  }

  /** Each of the commands that produce a new subject or alias is registered under its type with its own handler. */
  lemma SubjectCommandsRegistered(a: Action)
    requires a.HandleAction? || a.AliasAction? || a.SubjectAction? || a.LocatorAction? || a.TitleAction? || a.LocationAction? || a.CookieGetAction?
    ensures TypeOf(a) in ActionTable() && Accepts(ActionTable()[TypeOf(a)], a)
  {
    if a.HandleAction? { assert ActionTable()["handle"] == OnHandle; }
    if a.AliasAction? { assert ActionTable()["alias"] == OnAlias; }
    if a.SubjectAction? { assert ActionTable()["subject"] == OnSubject; }
    if a.LocatorAction? { assert ActionTable()["locator"] == OnLocator; }
    if a.TitleAction? { assert ActionTable()["title"] == OnTitle; }
    if a.LocationAction? { assert ActionTable()["location"] == OnLocation; }
    if a.CookieGetAction? { assert ActionTable()["cookie.get"] == OnCookieGet; }
  }

  /** Each of the commands that act on the subject's elements is registered under its type with its own handler. */
  lemma DomCommandsRegistered(a: Action)
    requires a.FillAction? || a.ClearAction? || a.CheckAction? || a.ClickAction? || a.SelectAction? || a.ScrollIntoViewAction? || a.DispatchEventAction? || a.BlurAction? || a.FocusAction?
    ensures TypeOf(a) in ActionTable() && Accepts(ActionTable()[TypeOf(a)], a)
  {
    if a.FillAction? { assert ActionTable()["fill"] == OnFill; }
    if a.ClearAction? { assert ActionTable()["clear"] == OnClear; }
    if a.CheckAction? { assert ActionTable()["check"] == OnCheck; }
    if a.ClickAction? { assert ActionTable()["click"] == OnClick; }
    if a.SelectAction? { assert ActionTable()["select"] == OnSelect; }
    if a.ScrollIntoViewAction? { assert ActionTable()["scrollIntoView"] == OnScrollIntoView; }
    if a.DispatchEventAction? { assert ActionTable()["dispatchEvent"] == OnDispatchEvent; }
    if a.BlurAction? { assert ActionTable()["blur"] == OnBlur; }
    if a.FocusAction? { assert ActionTable()["focus"] == OnFocus; }
  }

  /** Each of the commands that act on the page is registered under its type with its own handler. */
  lemma PageCommandsRegistered(a: Action)
    requires a.NavigateAction? || a.KeyboardAction? || a.PauseAction? || a.WaitAction? || a.CookieClearAction? || a.CookieSetAction? || a.ScrollToAction?
    ensures TypeOf(a) in ActionTable() && Accepts(ActionTable()[TypeOf(a)], a)
  {
    if a.NavigateAction? { assert ActionTable()["navigate"] == OnNavigate; }
    if a.KeyboardAction? { assert ActionTable()["keyboard"] == OnKeyboard; }
    if a.PauseAction? { assert ActionTable()["pause"] == OnPause; }
    if a.WaitAction? { assert ActionTable()["wait"] == OnWait; }
    if a.CookieClearAction? { assert ActionTable()["cookie.clear"] == OnCookieClear; }
    if a.CookieSetAction? { assert ActionTable()["cookie.set"] == OnCookieSet; }
    if a.ScrollToAction? { assert ActionTable()["scrollTo"] == OnScrollTo; }
  }

  /**
   * Every recorded action other than an assertion reaches the handler written
   * for its shape, so the composed registry never calls a handler with the
   * wrong payload; an unregistered type throws `Unknown action`.
   */
  lemma DispatchReachesHandler(a: Action)
    requires Recorded(a) && !a.AssertionAction?
    ensures a.OtherAction? <==> TypeOf(a) !in ActionTable()
    ensures !a.OtherAction? ==> Accepts(ActionTable()[TypeOf(a)], a)
  {
    if a.HandleAction? || a.AliasAction? || a.SubjectAction? || a.LocatorAction? || a.TitleAction? || a.LocationAction? || a.CookieGetAction? {
      SubjectCommandsRegistered(a);
    } else if a.FillAction? || a.ClearAction? || a.CheckAction? || a.ClickAction? || a.SelectAction? || a.ScrollIntoViewAction? || a.DispatchEventAction? || a.BlurAction? || a.FocusAction? {
      DomCommandsRegistered(a);
    } else if a.NavigateAction? || a.KeyboardAction? || a.PauseAction? || a.WaitAction? || a.CookieClearAction? || a.CookieSetAction? || a.ScrollToAction? {
      PageCommandsRegistered(a);
    }
  }

  /** An unregistered type throws `Unknown action` with nothing else happening. */
  lemma UnknownActionThrows(t: string, s: Subject, page: Page, aliases: AliasMap)
    requires t !in ActionTable() && t != "assertion"
    ensures Evaluate(ActionTable(), AssertionTable(), OtherAction(t), s, page, aliases) ==
            Throw(UnknownAction(t), aliases)
  {
  }

  /** Each assertion is registered under its own name, and only there. */
  lemma AssertionRegisteredByName(x: Assertion)
    ensures NameOf(x) in AssertionTable() && AssertionTable()[NameOf(x)] == x
    ensures forall name :: name in AssertionTable() && AssertionTable()[name] == x ==> name == NameOf(x)
  {
  }

  /** An assertion action runs the assertion named by its `name`, or throws `Unknown assertion`. */
  lemma AssertionDispatch(a: Action, s: Subject, page: Page, aliases: AliasMap)
    requires a.AssertionAction?
    ensures a.name in AssertionTable() ==>
              Evaluate(ActionTable(), AssertionTable(), a, s, page, aliases) ==
              AssertStep(AssertionTable()[a.name], s, a.value, a.attribute, a.negation, page, aliases)
    ensures a.name !in AssertionTable() ==>
              Evaluate(ActionTable(), AssertionTable(), a, s, page, aliases) == Throw(UnknownAssertion(a.name), aliases)
  {
  }

  /** The composed registry never throws a payload mismatch. */
  lemma NoPayloadMismatch(a: Action, s: Subject, page: Page, aliases: AliasMap)
    requires Recorded(a)
    ensures !Evaluate(ActionTable(), AssertionTable(), a, s, page, aliases).result.Err? ||
            !Evaluate(ActionTable(), AssertionTable(), a, s, page, aliases).result.error.PayloadMismatch?
  {
    if !a.AssertionAction? && !a.OtherAction? {
      DispatchReachesHandler(a);
      var h := ActionTable()[TypeOf(a)];
      AcceptedNeverMismatches(h, a, s, page, aliases);
    }
  }

  /** A handler called with the payload it was written for never throws a payload mismatch. */
  lemma AcceptedNeverMismatches(h: Handler, a: Action, s: Subject, page: Page, aliases: AliasMap)
    requires Accepts(h, a)
    ensures !Call(h, a, s, page, aliases).result.Err? || !Call(h, a, s, page, aliases).result.error.PayloadMismatch?
  {
  }
}
