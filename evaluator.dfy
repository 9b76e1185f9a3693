/**
 * The test runner: `it` and `beforeEach` first run the test body, which
 * records actions into a freshly reset queue, and take a snapshot of it;
 * the browser test they register later replays that snapshot through the
 * registry, starting from `value(null)` and an empty alias map, each
 * action's subject feeding the next, and the first thrown error ending
 * the run.
 */
module Evaluator {
  import opened Wrappers
  import opened Values
  import opened Driver
  import opened Subject
  import opened Vocabulary
  import opened Queue
  import opened Actions
  import opened Assertions
  import opened Registry
  import LegacyActions
  import Cy

  /** How a replay ends: after the last action, or at the first error. Either way, the driver calls made. */
  datatype Outcome =
    | Finished(subject: Subject, aliases: AliasMap, events: seq<Event>)
    | Aborted(error: Error, events: seq<Event>)

  /** The same outcome with `earlier` driver calls made before it. */
  function After(earlier: seq<Event>, o: Outcome): (r: Outcome)
    ensures r.Finished? == o.Finished? && r.events == earlier + o.events
    ensures r.Finished? ==> r.subject == o.subject && r.aliases == o.aliases
    ensures r.Aborted? ==> r.error == o.error
  {
    match o
    case Finished(s, aliases, events) => Finished(s, aliases, earlier + events)
    case Aborted(e, events) => Aborted(e, earlier + events)
  }

  /** Replaying `actions` in order from subject `s`: each result is the next subject; an error stops the run. */
  function Replay(actions: map<string, Handler>, assertions: map<string, Assertion>,
                  queue: seq<Action>, s: Subject, page: Page, aliases: AliasMap): Outcome
    decreases |queue|
  {
    if |queue| == 0 then Finished(s, aliases, [])
    else
      var step := Evaluate(actions, assertions, queue[0], s, page, aliases);
      match step.result
      case Err(e) => Aborted(e, step.events)
      case Ok(next) => After(step.events, Replay(actions, assertions, queue[1..], next, page, step.aliases))
  }

  /** A replay as a test starts it: from `value(null)` and no aliases. */
  function Run(actions: map<string, Handler>, assertions: map<string, Assertion>,
               snapshot: seq<Action>, page: Page): Outcome
  {
    Replay(actions, assertions, snapshot, Initial(), page, map[])
  }

  /**
   * Running the test body: reset the queue, let the body record its
   * actions, and snapshot the result. The body is user code; it is modelled
   * by the actions it records.
   */
  method Define(queue: Queue<Action>, body: seq<Action>) returns (snapshot: seq<Action>)
    modifies queue
    ensures snapshot == body && queue.items == body
  {
    queue.Reset();
    var i := 0;
    while i < |body|
      invariant 0 <= i <= |body|
      invariant queue.items == body[..i]
    {
      queue.Push(body[i]);
      i := i + 1;
    }
    snapshot := queue.Clone();
  }

  /** The registered test: the `for ... of` loop over the snapshot, awaiting each action. */
  method RunTest(registry: Registry, snapshot: seq<Action>, page: Page) returns (o: Outcome)
    ensures o == Run(registry.actions, registry.assertions, snapshot, page)
  {
    var subject := Initial();
    var aliases: AliasMap := map[];
    var trace: seq<Event> := [];
    var i := 0;
    while i < |snapshot|
      invariant 0 <= i <= |snapshot|
      invariant After(trace, Replay(registry.actions, registry.assertions, snapshot[i..], subject, page, aliases)) ==
                Run(registry.actions, registry.assertions, snapshot, page)
    {
      var step := registry.EvaluateAction(snapshot[i], subject, page, aliases);
      AfterAfter(trace, step.events,
                 Replay(registry.actions, registry.assertions, snapshot[i + 1..], subject, page, aliases));
      if step.result.Err? {
        return Aborted(step.result.error, trace + step.events);
      }
      assert snapshot[i..][1..] == snapshot[i + 1..];
      AfterAfter(trace, step.events,
                 Replay(registry.actions, registry.assertions, snapshot[i + 1..], step.result.value, page, step.aliases));
      trace := trace + step.events;
      subject := step.result.value;
      aliases := step.aliases;
      i := i + 1;
    }
    o := Finished(subject, aliases, trace);
    assert snapshot[i..] == [];
  }

  /** `it`/`beforeEach`: define the test now, replay it when the browser test runs. */
  method It(queue: Queue<Action>, body: seq<Action>, registry: Registry, page: Page)
    returns (snapshot: seq<Action>, o: Outcome)
    modifies queue
    ensures snapshot == body && queue.items == body
    ensures o == Run(registry.actions, registry.assertions, body, page)
  {
    snapshot := Define(queue, body);
    o := RunTest(registry, snapshot, page);
  }

  // ----- Properties of the replay -----

  lemma AfterAfter(first: seq<Event>, second: seq<Event>, o: Outcome)
    ensures After(first, After(second, o)) == After(first + second, o)
  {
    assert first + (second + o.events) == (first + second) + o.events;
  }

  /**
   * Replaying two queues one after the other is replaying their
   * concatenation: the second starts from the subject and aliases the first
   * ends with, and a failure in the first means the second never runs.
   */
  lemma {:induction false} ReplayAppend(actions: map<string, Handler>, assertions: map<string, Assertion>,
                                        xs: seq<Action>, ys: seq<Action>, s: Subject, page: Page, aliases: AliasMap)
    ensures var first := Replay(actions, assertions, xs, s, page, aliases);
            Replay(actions, assertions, xs + ys, s, page, aliases) ==
              match first
              case Aborted(_, _) => first
              case Finished(next, after, events) => After(events, Replay(actions, assertions, ys, next, page, after))
    decreases |xs|
  {
    if |xs| == 0 {
      assert xs + ys == ys;
    } else {
      assert (xs + ys)[0] == xs[0];
      assert (xs + ys)[1..] == xs[1..] + ys;
      var step := Evaluate(actions, assertions, xs[0], s, page, aliases);
      if step.result.Ok? {
        ReplayAppend(actions, assertions, xs[1..], ys, step.result.value, page, step.aliases);
        var rest := Replay(actions, assertions, xs[1..], step.result.value, page, step.aliases);
        if rest.Finished? {
          AfterAfter(step.events, rest.events, Replay(actions, assertions, ys, rest.subject, page, rest.aliases));
        }
      }
    }
  }

  /** Once an action throws, nothing recorded after it reaches the driver. */
  lemma FailureStopsTheRun(actions: map<string, Handler>, assertions: map<string, Assertion>,
                           xs: seq<Action>, ys: seq<Action>, page: Page)
    requires Run(actions, assertions, xs, page).Aborted?
    ensures Run(actions, assertions, xs + ys, page) == Run(actions, assertions, xs, page)
  {
    ReplayAppend(actions, assertions, xs, ys, Initial(), page, map[]);
  }

  /** A run that finishes makes every action's driver calls, in recorded order, one action at a time. */
  lemma {:induction false} FinishedRunsEveryAction(actions: map<string, Handler>, assertions: map<string, Assertion>,
                                                   queue: seq<Action>, s: Subject, page: Page, aliases: AliasMap)
    requires Replay(actions, assertions, queue, s, page, aliases).Finished?
    requires |queue| > 0
    ensures var step := Evaluate(actions, assertions, queue[0], s, page, aliases);
            step.result.Ok? &&
            Replay(actions, assertions, queue, s, page, aliases).events ==
              step.events + Replay(actions, assertions, queue[1..], step.result.value, page, step.aliases).events
  {
  }

  /** The example test: visit, get `.input`, type `hi` navigates and then fills the input found on the page. */
  lemma VisitGetTypeRun(url: string, page: Page)
    ensures Run(ActionTable(), AssertionTable(),
                [NavigateAction(url), LocatorAction([Css(".input")], false), FillAction([Css(".input")], "hi")], page) ==
            Finished(LocatorOf(Query(PageScope, ".input")), map[], [Goto(url), Fill(Query(PageScope, ".input"), "hi")])
  {
    var q := [NavigateAction(url), LocatorAction([Css(".input")], false), FillAction([Css(".input")], "hi")];
    var input := LocatorOf(Query(PageScope, ".input"));
    NavigateStep(url, page);
    LocateStep(page);
    FillStep([Css(".input")], "hi", input, page, map[]);
    var fill := Fill(Query(PageScope, ".input"), "hi");
    assert q[1..][1..] == [q[2]] && q[1..][1..][1..] == [];
    assert [fill] + [] == [fill];
    assert Replay(ActionTable(), AssertionTable(), [q[2]], input, page, map[]) == Finished(input, map[], [fill]);
    assert Replay(ActionTable(), AssertionTable(), q[1..], Initial(), page, map[]) == Finished(input, map[], [fill]);
    assert [Goto(url)] + [fill] == [Goto(url), fill];
  }

  lemma NavigateStep(url: string, page: Page)
    ensures Evaluate(ActionTable(), AssertionTable(), NavigateAction(url), Initial(), page, map[]) ==
            Step(Ok(Initial()), map[], [Goto(url)])
  {
    assert ActionTable()["navigate"] == OnNavigate;
  }

  lemma LocateStep(page: Page)
    ensures Evaluate(ActionTable(), AssertionTable(), LocatorAction([Css(".input")], false), Initial(), page, map[]) ==
            Step(Ok(LocatorOf(Query(PageScope, ".input"))), map[], [])
  {
    assert ".input"[0] == '.';
    assert AliasRef([Css(".input")]) == None;
    assert LocatorStep(Initial(), [Css(".input")], false, map[]) == Ok(LocatorOf(Query(PageScope, ".input")));
    assert ActionTable()["locator"] == OnLocator;
  }

  /** `fill` on a locator types the action's text into it and yields the locator. */
  lemma FillStep(selector: Selector, text: string, input: Subject, page: Page, aliases: AliasMap)
    requires input.LocatorOf?
    ensures Evaluate(ActionTable(), AssertionTable(), FillAction(selector, text), input, page, aliases) ==
            Step(Ok(input), aliases, [Fill(input.loc, text)])
  {
    assert ActionTable()["fill"] == OnFill;
  }

  /** A test that fills before locating anything fails on its first command and makes no driver call. */
  lemma FillWithoutElementFails(text: string, page: Page)
    ensures Run(ActionTable(), AssertionTable(), [FillAction([], text)], page) ==
            Aborted(ExpectedLocator(ValueKind), [])
  {
    assert ActionTable()["fill"] == OnFill;
  }

  /**
   * The chain builder records its assertions under names neither
   * interpreter registers, so replaying one always throws `Unknown
   * assertion`.
   */
  lemma ChainAssertionsUnknown(name: string, negation: bool, expected: Value, attribute: Value, selector: Selector,
                               s: Subject, page: Page, aliases: AliasMap)
    requires name in Cy.ShouldNames
    ensures name !in AssertionTable() && LegacyActions.LegacyAssertion(name).None?
    ensures Evaluate(ActionTable(), AssertionTable(), AssertionAction(name, negation, expected, attribute, selector), s, page, aliases) ==
            Throw(UnknownAssertion(name), aliases)
  {
    assert name[0] in {'c', 'h', 'e'};
  }
}
