/**
 * The older registry: the same fluent builder, but `evaluateAction` looks
 * only at the action map, so assertion registrations are never consulted,
 * and its handler set has no `select` and no `scrollTo`.
 */
module LegacyRegistry {
  import opened Driver
  import opened Subject
  import opened Vocabulary
  import opened Actions
  import opened Assertions
  import opened Registry

  /** Dispatch on the action map alone: a missing type throws `Unknown action`. */
  function LegacyDispatch(actions: map<string, Handler>, a: Action, s: Subject, page: Page, aliases: AliasMap): Step {
    if TypeOf(a) in actions then Call(actions[TypeOf(a)], a, s, page, aliases)
    else Throw(UnknownAction(TypeOf(a)), aliases)
  }

  class LegacyRegistry {
    var actions: map<string, Handler>
    var assertions: map<string, Assertion>

    constructor ()
      ensures actions == map[] && assertions == map[]
    {
      actions := map[];
      assertions := map[];
    }

    /** `action`: registers (or replaces) the callback for a type and returns this registry. */
    method RegisterAction(actionType: string, h: Handler) returns (self: LegacyRegistry)
      modifies this
      ensures self == this
      ensures actions == old(actions)[actionType := h] && assertions == old(assertions)
    {
      actions := actions[actionType := h];
      self := this;
    }

    /** `assertion`: stores into the assertion map only. */
    method RegisterAssertion(name: string, x: Assertion) returns (self: LegacyRegistry)
      modifies this
      ensures self == this
      ensures assertions == old(assertions)[name := x] && actions == old(actions)
    {
      assertions := assertions[name := x];
      self := this;
    }

    /** `evaluateAction`: looks up the type in the action map only. */
    method EvaluateAction(a: Action, s: Subject, page: Page, aliases: AliasMap) returns (r: Step)
      ensures r == LegacyDispatch(actions, a, s, page, aliases)
      ensures TypeOf(a) !in actions ==> r == Throw(UnknownAction(TypeOf(a)), aliases)
    {
      var actionType := TypeOf(a);
      if actionType !in actions {
        return Throw(UnknownAction(actionType), aliases);
      }
      r := Call(actions[actionType], a, s, page, aliases);
    }
  }

  /** The older handler set: the newer one without `select` and `scrollTo`. */
  function LegacyActionTable(): map<string, Handler> {
    SharedActionTable()
  }

  /** `actionRegistry` of the older module. */
  method BuildLegacyActionRegistry() returns (r: LegacyRegistry)
    ensures fresh(r) && r.actions == LegacyActionTable() && r.assertions == map[]
  {
    r := new LegacyRegistry();
    r := r.RegisterAction("handle", OnHandle);
    r := r.RegisterAction("alias", OnAlias);
    r := r.RegisterAction("subject", OnSubject);
    r := r.RegisterAction("locator", OnLocator);
    r := r.RegisterAction("navigate", OnNavigate);
    r := r.RegisterAction("fill", OnFill);
    r := r.RegisterAction("clear", OnClear);
    r := r.RegisterAction("keyboard", OnKeyboard);
    r := r.RegisterAction("check", OnCheck);
    r := r.RegisterAction("click", OnClick);
    r := r.RegisterAction("title", OnTitle);
    r := r.RegisterAction("pause", OnPause);
    r := r.RegisterAction("wait", OnWait);
    r := r.RegisterAction("scrollIntoView", OnScrollIntoView);
    r := r.RegisterAction("dispatchEvent", OnDispatchEvent);
    r := r.RegisterAction("blur", OnBlur);
    r := r.RegisterAction("focus", OnFocus);
    r := r.RegisterAction("location", OnLocation);
    r := r.RegisterAction("cookie.clear", OnCookieClear);
    r := r.RegisterAction("cookie.get", OnCookieGet);
    r := r.RegisterAction("cookie.set", OnCookieSet);
  }

  /**
   * Whatever was registered as an assertion, an assertion action throws
   * `Unknown action "assertion"` unless a callback was registered under the
   * type `assertion` itself; the older handler set has none.
   */
  lemma AssertionsNeverConsulted(a: Action, s: Subject, page: Page, aliases: AliasMap)
    requires a.AssertionAction?
    ensures LegacyDispatch(LegacyActionTable(), a, s, page, aliases) == Throw(UnknownAction("assertion"), aliases)
  {
    SharedKeys();
  }

  /** Every type the older registry knows runs the same handler as in the newer one. */
  lemma SameHandlers(a: Action, s: Subject, page: Page, aliases: AliasMap)
    requires TypeOf(a) in LegacyActionTable()
    ensures LegacyDispatch(LegacyActionTable(), a, s, page, aliases) ==
            Evaluate(ActionTable(), AssertionTable(), a, s, page, aliases)
  {
    SharedKeys();
    var t := TypeOf(a);
    assert t != "select" && t != "scrollTo" && t != "assertion";
    assert !a.AssertionAction?;
    assert t in ActionTable() && ActionTable()[t] == LegacyActionTable()[t];
  }

  /** `select` and `scrollTo` are unknown to the older registry. */
  lemma SelectAndScrollUnknown(a: Action, s: Subject, page: Page, aliases: AliasMap)
    requires a.SelectAction? || a.ScrollToAction?
    ensures LegacyDispatch(LegacyActionTable(), a, s, page, aliases) == Throw(UnknownAction(TypeOf(a)), aliases)
  {
  }
}
