/**
 * The chain builder: `cy.visit(...).get(...).first()...` records actions in
 * the action queue. Commands that start a chain push; commands that refine
 * the element chosen so far look at the queue's tail and either rewrite it
 * in place or push after it, and throw (leaving the queue alone) when there
 * is no tail or the tail does not yield an element.
 */
module Cy {
  import opened Wrappers
  import opened Values
  import opened Subject
  import opened Vocabulary
  import opened Queue

  /** The chainable calls, with their arguments. */
  datatype Command =
    | Visit(url: string)
    | Get(selector: string)
    | Contains(text: string)
    | First
    | Last
    | CheckBox
    | Click
    | Parent
    | Parents(ancestor: string)
    | Find(descendant: string)
    | Should(phrase: string, expected: Value)
    | Type(typed: string)

  const Enter: string := "{enter}"

  /** The tail action, or the error for a command chained directly off `cy`. */
  function TailOf(q: seq<Action>, name: string): (r: Result<Action, Error>)
    ensures r.Ok? <==> |q| > 0
    ensures r.Ok? ==> r.value == q[|q| - 1]
    ensures r.Err? ==> r.error == CannotChainOffCy(name)
  {
    match At(q, -1)
    case None => Err(CannotChainOffCy(name))
    case Some(a) => Ok(a)
  }

  /** The tail's selector when the tail is a locator; otherwise the error the command throws. */
  function LocatorTailOf(q: seq<Action>, name: string): (r: Result<Selector, Error>)
    ensures r.Ok? <==> |q| > 0 && q[|q| - 1].LocatorAction?
    ensures r.Ok? ==> r.value == q[|q| - 1].selector
    ensures |q| == 0 ==> r == Err(CannotChainOffCy(name))
    ensures |q| > 0 && !q[|q| - 1].LocatorAction? ==> r == Err(NoDomElement(TypeOf(q[|q| - 1])))
  {
    var a :- TailOf(q, name);
    if a.LocatorAction? then Ok(a.selector) else Err(NoDomElement(TypeOf(a)))
  }

  /** `replaceQueue(-1, a)`. */
  function ReplaceTail(q: seq<Action>, a: Action): (r: seq<Action>)
    requires |q| > 0
    ensures r == q[..|q| - 1] + [a]
  {
    Put(q, -1, a)
  }

  /** `first`/`last`: refine a locator tail in place, or push a locator after an assertion tail. */
  function Narrow(q: seq<Action>, name: string, step: SelectorStep): Result<seq<Action>, Error> {
    var a :- TailOf(q, name);
    if a.AssertionAction? then Ok(q + [LocatorAction(a.selector + [step], false)])
    else if a.LocatorAction? then Ok(ReplaceTail(q, LocatorAction(a.selector + [step], a.root)))
    else Err(NoDomElement(TypeOf(a)))
  }

  /** Whether an assertion phrase is negated: it starts with `not`. */
  predicate Negated(phrase: string) {
    StartsWith(phrase, "not")
  }

  /** An assertion that either follows an assertion tail or replaces a locator tail. */
  function AssertOnTail(q: seq<Action>, name: string, negation: bool, expected: Value): Result<seq<Action>, Error> {
    var a :- TailOf(q, "should");
    if a.AssertionAction? then Ok(q + [AssertionAction(name, negation, expected, Undefined, a.selector)])
    else if a.LocatorAction? then Ok(ReplaceTail(q, AssertionAction(name, negation, expected, Undefined, a.selector)))
    else Err(NoDomElement(TypeOf(a)))
  }

  /** `should`: six phrases, each turned into an assertion on the tail's selector. */
  function ShouldStep(q: seq<Action>, phrase: string, expected: Value): Result<seq<Action>, Error> {
    if phrase == "have.length" then
      var selector :- LocatorTailOf(q, "should");
      Ok(ReplaceTail(q, AssertionAction("count", false, expected, Undefined, selector)))
    else if phrase == "have.text" || phrase == "not.have.text" then
      AssertOnTail(q, "haveText", Negated(phrase), expected)
    else if phrase == "have.class" then
      var selector :- LocatorTailOf(q, "should");
      Ok(ReplaceTail(q, AssertionAction("haveClass", false, expected, Undefined, selector)))
    else if phrase == "not.exist" || phrase == "exist" then
      var selector :- LocatorTailOf(q, "should");
      Ok(ReplaceTail(q, AssertionAction("exists", Negated(phrase), Undefined, Undefined, selector)))
    else Err(UnknownAssertion(phrase))
  }

  /** `type`: a `fill` without the first `{enter}`, then an Enter key press when the text ends with one. */
  function TypeStep(q: seq<Action>, typed: string): Result<seq<Action>, Error> {
    var selector :- LocatorTailOf(q, "type");
    var filled := ReplaceTail(q, FillAction(selector, RemoveFirst(typed, Enter)));
    Ok(if EndsWith(typed, Enter) then filled + [KeyboardAction("press", "Enter")] else filled)
  }

  /**
   * The queue after a command, or the error it throws. The error texts follow
   * the source, which names `first` in `last`'s message and `check` in
   * `click`'s.
   */
  function Apply(cmd: Command, q: seq<Action>): (r: Result<seq<Action>, Error>)
    ensures r.Ok? ==> |q| <= |r.value| <= |q| + 1
    ensures r.Ok? && |q| > 0 ==> r.value[..|q| - 1] == q[..|q| - 1]
    ensures r.Ok? && !Refines(cmd) ==> r.value[..|q|] == q
  {
    match cmd
    case Visit(url) => Ok(q + [NavigateAction(url)])
    case Get(selector) => Ok(q + [LocatorAction([Css(selector)], false)])
    case Contains(text) => Ok(q + [LocatorAction([ContainsStep(text, None)], false)])
    case First => Narrow(q, "first", FirstStep)
    case Last => Narrow(q, "first", LastStep)
    case CheckBox =>
      var selector :- LocatorTailOf(q, "check"); Ok(ReplaceTail(q, CheckAction(selector, None)))
    case Click =>
      var selector :- LocatorTailOf(q, "check");
      Ok(ReplaceTail(q, ClickAction(selector, None, None, None, None, false, false)))
    case Parent =>
      var selector :- LocatorTailOf(q, "parent");
      Ok(ReplaceTail(q, LocatorAction(selector + [Css("xpath=..")], false)))
    case Parents(ancestor) =>
      var selector :- LocatorTailOf(q, "parents");
      Ok(ReplaceTail(q, LocatorAction(selector + [Css("xpath=ancestor::" + ancestor)], false)))
    case Find(descendant) =>
      var selector :- LocatorTailOf(q, "find");
      Ok(ReplaceTail(q, LocatorAction(selector + [Css(descendant)], false)))
    case Should(phrase, expected) => ShouldStep(q, phrase, expected)
    case Type(typed) => TypeStep(q, typed)
  }

  /** The queue after a command: unchanged when the command throws. */
  function After(cmd: Command, q: seq<Action>): seq<Action> {
    match Apply(cmd, q)
    case Ok(r) => r
    case Err(_) => q
  }

  /** What a chainable call returns: the chain again, or the error it throws. */
  function Chained<T>(res: Result<seq<Action>, Error>, self: T): Result<T, Error> {
    match res
    case Ok(_) => Ok(self)
    case Err(e) => Err(e)
  }

  // ----- What the commands do to the queue -----

  /** The commands that need a tail. */
  predicate Refines(cmd: Command) {
    !(cmd.Visit? || cmd.Get? || cmd.Contains?)
  }

  /** The six phrases `should` knows. */
  predicate KnownPhrase(phrase: string) {
    phrase in {"have.length", "have.text", "not.have.text", "have.class", "exist", "not.exist"}
  }

  /** Chained directly off `cy`, every refining command throws; `should` first checks its phrase. */
  lemma EmptyQueueRejects(cmd: Command)
    requires Refines(cmd) && (cmd.Should? ==> KnownPhrase(cmd.phrase))
    ensures Apply(cmd, []).Err? && Apply(cmd, []).error.CannotChainOffCy?
  {
  }

  /** `should` with any other phrase throws `Unknown assertion` before looking at the queue. */
  lemma UnknownPhraseRejects(phrase: string, expected: Value, q: seq<Action>)
    requires !KnownPhrase(phrase)
    ensures Apply(Should(phrase, expected), q) == Err(UnknownAssertion(phrase))
  {
  }

  /**
   * A tail that does not yield an element makes a refining command throw;
   * `first`, `last` and the text assertion also accept an assertion tail.
   */
  lemma NonElementTailRejects(cmd: Command, q: seq<Action>)
    requires Refines(cmd) && (cmd.Should? ==> KnownPhrase(cmd.phrase))
    requires |q| > 0 && !q[|q| - 1].LocatorAction?
    requires q[|q| - 1].AssertionAction? ==>
               !(cmd.First? || cmd.Last? || (cmd.Should? && cmd.phrase in {"have.text", "not.have.text"}))
    ensures Apply(cmd, q) == Err(NoDomElement(TypeOf(q[|q| - 1])))
  {
  }

  /** The assertion names `should` records. */
  const ShouldNames: set<string> := {"count", "haveText", "haveClass", "exists"}

  /**
   * On a locator tail, each known phrase replaces the tail with an assertion
   * on the tail's selector: `have.length` records `count`, `have.text` and
   * `not.have.text` record `haveText`, `have.class` records `haveClass`, and
   * `exist` and `not.exist` record `exists` without an expected value. Only
   * the two `not.` phrases are negated.
   */
  lemma ShouldRecordsAssertion(phrase: string, expected: Value, q: seq<Action>)
    requires KnownPhrase(phrase)
    requires |q| > 0 && q[|q| - 1].LocatorAction?
    ensures Apply(Should(phrase, expected), q) ==
            Ok(q[..|q| - 1] + [AssertionAction(
                 if phrase == "have.length" then "count"
                 else if phrase in {"have.text", "not.have.text"} then "haveText"
                 else if phrase == "have.class" then "haveClass"
                 else "exists",
                 phrase in {"not.have.text", "not.exist"},
                 if phrase in {"exist", "not.exist"} then Undefined else expected,
                 Undefined,
                 q[|q| - 1].selector)])
  {
    NegatedPhrases();
  }

  /**
   * After an assertion, only the text phrases are accepted: they push a
   * `haveText` assertion on the same selector and keep the earlier one.
   */
  lemma TextAssertionAfterAssertion(phrase: string, expected: Value, q: seq<Action>)
    requires phrase in {"have.text", "not.have.text"}
    requires |q| > 0 && q[|q| - 1].AssertionAction?
    ensures Apply(Should(phrase, expected), q) ==
            Ok(q + [AssertionAction("haveText", phrase == "not.have.text", expected, Undefined, q[|q| - 1].selector)])
  {
    NegatedPhrases();
  }

  /**
   * `first`/`last` after a locator rewrite it in place with the extra step,
   * keeping its `root` flag; after an assertion they push a new locator on
   * the assertion's selector and leave the assertion in place.
   */
  lemma NarrowingCases(cmd: Command, q: seq<Action>)
    requires cmd.First? || cmd.Last?
    requires |q| > 0 && (q[|q| - 1].LocatorAction? || q[|q| - 1].AssertionAction?)
    ensures var step := if cmd.First? then FirstStep else LastStep;
            var tail := q[|q| - 1];
            Apply(cmd, q) ==
              if tail.LocatorAction? then Ok(q[..|q| - 1] + [LocatorAction(tail.selector + [step], tail.root)])
              else Ok(q + [LocatorAction(tail.selector + [step], false)])
  {
  }

  /**
   * `check`, `click` and `type` turn the tail locator into a command on its
   * selector, length unchanged: `check` records a check action and `click`
   * a click action, both with no options.
   */
  lemma CommandsReplaceTail(cmd: Command, q: seq<Action>)
    requires cmd.CheckBox? || cmd.Click? || (cmd.Type? && !EndsWith(cmd.typed, Enter))
    requires |q| > 0 && q[|q| - 1].LocatorAction?
    ensures Apply(cmd, q).Ok? && |Apply(cmd, q).value| == |q|
    ensures Apply(cmd, q).value[|q| - 1].selector == q[|q| - 1].selector
    ensures cmd.CheckBox? ==> Apply(cmd, q) == Ok(q[..|q| - 1] + [CheckAction(q[|q| - 1].selector, None)])
    ensures cmd.Click? ==>
              Apply(cmd, q) == Ok(q[..|q| - 1] + [ClickAction(q[|q| - 1].selector, None, None, None, None, false, false)])
  {
  }

  /** `{enter}` cannot overlap itself: no occurrence straddles the end of a text it is appended to. */
  lemma EnterFirstAtEnd(s: string)
    requires !Includes(s, Enter)
    ensures IndexOf(s + Enter, Enter) == Some(|s|)
  {
    var t := s + Enter;
    assert OccursAt(t, Enter, |s|) by { assert t[|s|..|s| + |Enter|] == Enter; }
    forall j | 0 <= j < |s| ensures !OccursAt(t, Enter, j) {
      if j + |Enter| <= |s| {
        assert t[j..j + |Enter|] == s[j..j + |Enter|];
        assert !OccursAt(s, Enter, j);
      } else {
        assert t[|s|] == '{' && Enter[|s| - j] != '{';
        assert t[j..j + |Enter|][|s| - j] != Enter[|s| - j];
      }
    }
    assert IndexFrom(t, Enter, 0).Some?;
  }

  /** A text without `{enter}` ends with a key press only when `{enter}` is appended. */
  lemma TypeWithEnter(q: seq<Action>, s: string)
    requires |q| > 0 && q[|q| - 1].LocatorAction?
    requires !Includes(s, Enter)
    ensures Apply(Type(s + Enter), q) ==
            Ok(q[..|q| - 1] + [FillAction(q[|q| - 1].selector, s), KeyboardAction("press", "Enter")])
    ensures Apply(Type(s), q) == Ok(q[..|q| - 1] + [FillAction(q[|q| - 1].selector, s)])
  {
    EnterFirstAtEnd(s);
    var t := s + Enter;
    assert t[|s|..] == Enter;
    assert RemoveFirst(t, Enter) == t[..|s|] + t[|s| + |Enter|..];
    assert t[..|s|] == s && t[|s| + |Enter|..] == [];
    assert t[..|s|] + t[|s| + |Enter|..] == s;
    assert RemoveFirst(s, Enter) == s;
    assert EndsWith(t, Enter);
    var sel := q[|q| - 1].selector;
    var filled := ReplaceTail(q, FillAction(sel, s));
    assert filled + [KeyboardAction("press", "Enter")] ==
           q[..|q| - 1] + [FillAction(sel, s), KeyboardAction("press", "Enter")];
    if EndsWith(s, Enter) {
      assert OccursAt(s, Enter, |s| - |Enter|);
    }
  }

  /** Which `should` phrases start with `not`. */
  lemma NegatedPhrases()
    ensures Negated("not.have.text") && Negated("not.exist")
    ensures !Negated("have.text") && !Negated("exist") && !Negated("have.length") && !Negated("have.class")
  {
    assert "not.have.text"[..3] == "not";
    assert "not.exist"[..3] == "not";
    assert "have.text"[..3][0] == 'h';
    assert "exist"[..3][0] == 'e';
    assert "have.length"[..3][0] == 'h';
    assert "have.class"[..3][0] == 'h';
  }

  /** `visit(url).get('.input').type('hi')` records a navigation and a fill on `.input`. */
  lemma VisitGetType(url: string)
    ensures Apply(Visit(url), []) == Ok([NavigateAction(url)])
    ensures Apply(Get(".input"), [NavigateAction(url)]) ==
            Ok([NavigateAction(url), LocatorAction([Css(".input")], false)])
    ensures Apply(Type("hi"), [NavigateAction(url), LocatorAction([Css(".input")], false)]) ==
            Ok([NavigateAction(url), FillAction([Css(".input")], "hi")])
  {
    assert [] + [NavigateAction(url)] == [NavigateAction(url)];
    assert [NavigateAction(url)] + [LocatorAction([Css(".input")], false)] ==
           [NavigateAction(url), LocatorAction([Css(".input")], false)];
    var q := [NavigateAction(url), LocatorAction([Css(".input")], false)];
    assert !Includes("hi", Enter);
    TypeWithEnter(q, "hi");
    assert q[..1] + [FillAction([Css(".input")], "hi")] == [NavigateAction(url), FillAction([Css(".input")], "hi")];
  }

  // ----- The chain object over the shared queue -----

  class Chain {
    const queue: Queue<Action>

    constructor (queue: Queue<Action>)
      ensures this.queue == queue
    {
      this.queue := queue;
    }

    method Visit(url: string) returns (r: Result<Chain, Error>)
      modifies queue
      ensures queue.items == After(Command.Visit(url), old(queue.items))
      ensures r == Chained(Apply(Command.Visit(url), old(queue.items)), this)
    {
      queue.Push(NavigateAction(url));
      r := Ok(this);
    }

    method Get(selector: string) returns (r: Result<Chain, Error>)
      modifies queue
      ensures queue.items == After(Command.Get(selector), old(queue.items))
      ensures r == Chained(Apply(Command.Get(selector), old(queue.items)), this)
    {
      queue.Push(LocatorAction([Css(selector)], false));
      r := Ok(this);
    }

    method Contains(text: string) returns (r: Result<Chain, Error>)
      modifies queue
      ensures queue.items == After(Command.Contains(text), old(queue.items))
      ensures r == Chained(Apply(Command.Contains(text), old(queue.items)), this)
    {
      queue.Push(LocatorAction([ContainsStep(text, None)], false));
      r := Ok(this);
    }

    /** `first` and `last`: the shared body with the step and the error's command name. */
    method NarrowTail(name: string, step: SelectorStep) returns (r: Result<Chain, Error>)
      modifies queue
      ensures queue.items == match Narrow(old(queue.items), name, step) case Ok(q) => q case Err(_) => old(queue.items)
      ensures r == Chained(Narrow(old(queue.items), name, step), this)
    {
      var action := queue.Inspect(-1);
      if action.None? {
        return Err(CannotChainOffCy(name));
      }
      var a := action.value;
      if a.AssertionAction? {
        queue.Push(LocatorAction(a.selector + [step], false));
        return Ok(this);
      }
      if !a.LocatorAction? {
        return Err(NoDomElement(TypeOf(a)));
      }
      queue.Replace(-1, LocatorAction(a.selector + [step], a.root));
      r := Ok(this);
    }

    method First() returns (r: Result<Chain, Error>)
      modifies queue
      ensures queue.items == After(Command.First, old(queue.items))
      ensures r == Chained(Apply(Command.First, old(queue.items)), this)
    {
      r := NarrowTail("first", FirstStep);
    }

    method Last() returns (r: Result<Chain, Error>)
      modifies queue
      ensures queue.items == After(Command.Last, old(queue.items))
      ensures r == Chained(Apply(Command.Last, old(queue.items)), this)
    {
      r := NarrowTail("first", LastStep);
    }

    /** The shared body of the commands that replace a locator tail. */
    method ReplaceLocatorTail(name: string, make: Selector -> Action) returns (r: Result<Chain, Error>)
      modifies queue
      ensures LocatorTailOf(old(queue.items), name).Ok? ==>
                queue.items == ReplaceTail(old(queue.items), make(LocatorTailOf(old(queue.items), name).value)) &&
                r == Ok(this)
      ensures LocatorTailOf(old(queue.items), name).Err? ==>
                queue.items == old(queue.items) && r == Err(LocatorTailOf(old(queue.items), name).error)
    {
      var action := queue.Inspect(-1);
      if action.None? {
        return Err(CannotChainOffCy(name));
      }
      var a := action.value;
      if !a.LocatorAction? {
        return Err(NoDomElement(TypeOf(a)));
      }
      queue.Replace(-1, make(a.selector));
      r := Ok(this);
    }

    method Check() returns (r: Result<Chain, Error>)
      modifies queue
      ensures queue.items == After(Command.CheckBox, old(queue.items))
      ensures r == Chained(Apply(Command.CheckBox, old(queue.items)), this)
    {
      r := ReplaceLocatorTail("check", (selector: Selector) => CheckAction(selector, None));
    }

    method Click() returns (r: Result<Chain, Error>)
      modifies queue
      ensures queue.items == After(Command.Click, old(queue.items))
      ensures r == Chained(Apply(Command.Click, old(queue.items)), this)
    {
      r := ReplaceLocatorTail("check",
                              (selector: Selector) => ClickAction(selector, None, None, None, None, false, false));
    }

    method Parent() returns (r: Result<Chain, Error>)
      modifies queue
      ensures queue.items == After(Command.Parent, old(queue.items))
      ensures r == Chained(Apply(Command.Parent, old(queue.items)), this)
    {
      r := ReplaceLocatorTail("parent", (selector: Selector) => LocatorAction(selector + [Css("xpath=..")], false));
    }

    method Parents(ancestor: string) returns (r: Result<Chain, Error>)
      modifies queue
      ensures queue.items == After(Command.Parents(ancestor), old(queue.items))
      ensures r == Chained(Apply(Command.Parents(ancestor), old(queue.items)), this)
    {
      r := ReplaceLocatorTail("parents",
                              (selector: Selector) => LocatorAction(selector + [Css("xpath=ancestor::" + ancestor)], false));
    }

    method Find(descendant: string) returns (r: Result<Chain, Error>)
      modifies queue
      ensures queue.items == After(Command.Find(descendant), old(queue.items))
      ensures r == Chained(Apply(Command.Find(descendant), old(queue.items)), this)
    {
      r := ReplaceLocatorTail("find", (selector: Selector) => LocatorAction(selector + [Css(descendant)], false));
    }

    method Should(phrase: string, expected: Value) returns (r: Result<Chain, Error>)
      modifies queue
      ensures queue.items == After(Command.Should(phrase, expected), old(queue.items))
      ensures r == Chained(Apply(Command.Should(phrase, expected), old(queue.items)), this)
    {
      if phrase == "have.length" {
        r := ReplaceLocatorTail("should", (selector: Selector) => AssertionAction("count", false, expected, Undefined, selector));
      } else if phrase == "have.text" || phrase == "not.have.text" {
        var negation := Negated(phrase);
        var action := queue.Inspect(-1);
        if action.None? {
          return Err(CannotChainOffCy("should"));
        }
        var a := action.value;
        if a.AssertionAction? {
          queue.Push(AssertionAction("haveText", negation, expected, Undefined, a.selector));
          return Ok(this);
        }
        if !a.LocatorAction? {
          return Err(NoDomElement(TypeOf(a)));
        }
        queue.Replace(-1, AssertionAction("haveText", negation, expected, Undefined, a.selector));
        r := Ok(this);
      } else if phrase == "have.class" {
        r := ReplaceLocatorTail("should", (selector: Selector) => AssertionAction("haveClass", false, expected, Undefined, selector));
      } else if phrase == "not.exist" || phrase == "exist" {
        var negation := Negated(phrase);
        r := ReplaceLocatorTail("should", (selector: Selector) => AssertionAction("exists", negation, Undefined, Undefined, selector));
      } else {
        r := Err(UnknownAssertion(phrase));
      }
    }

    /** `type` returns nothing, so it ends a chain. */
    method Type(typed: string) returns (r: Result<(), Error>)
      modifies queue
      ensures queue.items == After(Command.Type(typed), old(queue.items))
      ensures r == Chained(Apply(Command.Type(typed), old(queue.items)), ())
    {
      var action := queue.Inspect(-1);
      if action.None? {
        return Err(CannotChainOffCy("type"));
      }
      var a := action.value;
      if !a.LocatorAction? {
        return Err(NoDomElement(TypeOf(a)));
      }
      queue.Replace(-1, FillAction(a.selector, RemoveFirst(typed, Enter)));
      if EndsWith(typed, Enter) {
        queue.Push(KeyboardAction("press", "Enter"));
      }
      r := Ok(());
    }
  }
}
