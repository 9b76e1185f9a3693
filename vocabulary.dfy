/**
 * The recorded commands: selector steps, scroll and click positions, and the
 * `Action` union that the queue stores and the registry dispatches on.
 * Flags that a recorded action may leave out and that are only tested for
 * truth (`root`, `double`, `multiple`, `negation`) are `false` when absent;
 * fields that are forwarded to the driver as they are keep `None` for absent.
 */
module Vocabulary {
  import opened Wrappers
  import opened Values
  import opened Driver

  /** One step of a selector: a query string, or a modifier object. */
  datatype SelectorStep =
    | Css(query: string)
    | FirstStep
    | LastStep
    | NthStep(n: int)
    | ContainsStep(text: string, exact: Option<bool>)
    | OtherModifier(modifier: string)   // a modifier outside the closed set

  type Selector = seq<SelectorStep>

  /** A click position: one of the nine names, or a point. */
  datatype ClickPosition = NamedClick(name: string) | PointClick(x: real, y: real)

  /** One axis of a scroll target: a percentage string (already parsed) or a pixel count. */
  datatype Coordinate = Percent(percentage: int) | Pixels(pixels: real)

  datatype ScrollPosition = NamedPosition(name: string) | Coordinates(x: Coordinate, y: Coordinate)

  datatype ClearFilter = ClearFilter(name: Option<string>, domain: Option<string>)

  datatype Action =
    | HandleAction(global: string)
    | AliasAction(name: string)
    | SubjectAction(value: Value)
    | LocatorAction(selector: Selector, root: bool)
    | NavigateAction(url: string)
    | FillAction(selector: Selector, text: string)
    | ClearAction
    | KeyboardAction(operation: string, key: string)
    | CheckAction(selector: Selector, checked: Option<bool>)
    | ClickAction(selector: Selector, position: Option<ClickPosition>, force: Option<bool>,
                  modifiers: Option<seq<string>>, button: Option<string>, double: bool, multiple: bool)
    | TitleAction
    | PauseAction
    | WaitAction(ms: real)
    | ScrollIntoViewAction
    | DispatchEventAction(event: string)
    | BlurAction
    | FocusAction
    | LocationAction(part: Option<UrlField>)
    | CookieClearAction(filter: Option<ClearFilter>)
    | CookieGetAction(multiple: bool, cookieName: Option<string>)
    | CookieSetAction(cookie: Cookie)
    | SelectAction(choice: Value)
    | ScrollToAction(to: ScrollPosition)
    | AssertionAction(name: string, negation: bool, value: Value, attribute: Value, selector: Selector)
    | OtherAction(actionType: string)    // any other `type` string

  /** The `type` discriminant of an action. */
  function TypeOf(a: Action): string {
    match a
    case HandleAction(_) => "handle"
    case AliasAction(_) => "alias"
    case SubjectAction(_) => "subject"
    case LocatorAction(_, _) => "locator"
    case NavigateAction(_) => "navigate"
    case FillAction(_, _) => "fill"
    case ClearAction => "clear"
    case KeyboardAction(_, _) => "keyboard"
    case CheckAction(_, _) => "check"
    case ClickAction(_, _, _, _, _, _, _) => "click"
    case TitleAction => "title"
    case PauseAction => "pause"
    case WaitAction(_) => "wait"
    case ScrollIntoViewAction => "scrollIntoView"
    case DispatchEventAction(_) => "dispatchEvent"
    case BlurAction => "blur"
    case FocusAction => "focus"
    case LocationAction(_) => "location"
    case CookieClearAction(_) => "cookie.clear"
    case CookieGetAction(_, _) => "cookie.get"
    case CookieSetAction(_) => "cookie.set"
    case SelectAction(_) => "select"
    case ScrollToAction(_) => "scrollTo"
    case AssertionAction(_, _, _, _, _) => "assertion"
    case OtherAction(t) => t
  }
}
