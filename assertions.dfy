/**
 * The assertion handlers of the registry. Each assertion turns the current
 * subject into the expectations it runs (`expect(x)` or `expect(x).not`
 * according to the action's `negation`), or throws before running any;
 * the step then runs those expectations in order and stops at the first
 * one that fails.
 */
module Assertions {
  import opened Wrappers
  import opened Values
  import opened Driver
  import opened Subject
  import opened Loose

  datatype Assertion =
    | DomLength | DomText | DomClass | DomAttr | DomExist | DomValue | Include
    | Property | Empty | Equal | DomChecked | DomVisible | IsNull

  /** The name each assertion is registered under. */
  function NameOf(a: Assertion): string {
    match a
    case DomLength => "dom.length"
    case DomText => "dom.text"
    case DomClass => "dom.class"
    case DomAttr => "dom.attr"
    case DomExist => "dom.exist"
    case DomValue => "dom.value"
    case Include => "include"
    case Property => "property"
    case Empty => "empty"
    case Equal => "equal"
    case DomChecked => "dom.checked"
    case DomVisible => "dom.visible"
    case IsNull => "null"
  }

  /** The assertions that start with `assertLocator`. */
  predicate LocatorOnly(a: Assertion) {
    a in {DomText, DomClass, DomAttr, DomExist, DomValue, DomChecked, DomVisible}
  }

  /** The assertions that throw on a handle subject. */
  predicate NoHandle(a: Assertion) {
    a == Include || a == Empty
  }

  /** The single expectation of a non-loose assertion. */
  function One(m: Matcher, negation: bool): seq<Check> {
    [Check(m, negation)]
  }

  /** `toBeChecked` on each element of `l`, through loose mode. */
  function EachChecked(l: Locator, count: nat, negation: bool): (r: seq<Check>)
    ensures |r| == |Targets(l, count)|
    ensures forall i :: 0 <= i < |r| ==> r[i] == Check(BeChecked(Targets(l, count)[i]), negation)
  {
    var targets := Targets(l, count);
    seq(|targets|, i requires 0 <= i < |targets| => Check(BeChecked(targets[i]), negation))
  }

  /** What `empty` measures on a value: its length, or the list of its own keys. */
  function EmptyMatcher(v: Value): Result<Matcher, Error> {
    if v.Str? || v.Arr? then Ok(HaveLength(Val(v), Num(0 as real)))
    else match ObjectKeys(v)
         case Some(keys) => Ok(HaveLength(Val(Arr(Strings(keys))), Num(0 as real)))
         case None => Err(TypeError("Cannot convert undefined or null to object"))
  }

  /**
   * The expectations an assertion runs on subject `s`, or the error it
   * throws first: the DOM assertions need a locator, `include` and `empty`
   * refuse a handle, and `empty` on null or undefined fails in `Object.keys`.
   * Every expectation carries the action's negation.
   */
  function Checks(a: Assertion, s: Subject, value: Value, attribute: Value, negation: bool, page: Page)
    : (r: Result<seq<Check>, Error>)
    ensures r.Ok? <==> !(LocatorOnly(a) && !s.LocatorOf?) && !(NoHandle(a) && s.HandleOf?) &&
                       !(a == Empty && s.ValueOf? && (s.v.Null? || s.v.Undefined?))
    ensures LocatorOnly(a) && !s.LocatorOf? ==> r == Err(ExpectedLocator(KindOf(s)))
    ensures NoHandle(a) && s.HandleOf? ==> r == Err(HandleNotImplemented)
    ensures r.Ok? ==> forall k :: 0 <= k < |r.value| ==> r.value[k].negated == negation
    ensures r.Ok? && a != DomChecked ==> |r.value| == 1
    ensures r.Ok? && a == DomChecked ==> r.value == EachChecked(s.loc, page.count(s.loc), negation)
  {
    match a
    case DomLength =>
      Ok(match s
         case LocatorOf(l) => One(HaveCount(l, value), negation)
         case _ => One(HaveLength(OperandOf(s), value), negation))
    case DomText => var l :- AssertLocator(s); Ok(One(HaveText(l, value), negation))
    case DomClass => var l :- AssertLocator(s); Ok(One(HaveClass(l, value), negation))
    case DomAttr => var l :- AssertLocator(s); Ok(One(HaveAttribute(l, attribute, value), negation))
    case DomExist => var l :- AssertLocator(s); Ok(One(BeVisible(l), negation))
    case DomValue => var l :- AssertLocator(s); Ok(One(HaveValue(l, value), negation))
    case Include =>
      (match s
       case ValueOf(v) => Ok(One(Contain(Val(v), value), negation))
       case LocatorOf(l) => Ok(One(ContainText(l, value), negation))
       case HandleOf(_) => Err(HandleNotImplemented))
    case Property =>
      (match s
       case HandleOf(h) => Ok(One(Be(Val(Bool(page.hasOwn(h, value))), Bool(true)), negation))
       case _ => Ok(One(HaveProperty(OperandOf(s), value), negation)))
    case Empty =>
      (match s
       case ValueOf(v) => var m :- EmptyMatcher(v); Ok(One(m, negation))
       case LocatorOf(l) => Ok(One(BeEmpty(l), negation))
       case HandleOf(_) => Err(HandleNotImplemented))
    case Equal => Ok(One(Be(OperandOf(s), value), negation))
    case DomChecked => var l :- AssertLocator(s); Ok(EachChecked(l, page.count(l), negation))
    case DomVisible => var l :- AssertLocator(s); Ok(One(BeVisible(l), negation))
    case IsNull => Ok(One(Be(OperandOf(s), Null), negation))
  }

  /**
   * Runs the expectations in order and throws the first that fails: the
   * driver sees exactly the checks up to and including that one, and every
   * check before it held.
   */
  function Conclude(s: Subject, checks: seq<Check>, page: Page, aliases: AliasMap): (r: Step)
    ensures r.aliases == aliases
    ensures |r.events| <= |checks| && r.events == Issued(checks, |r.events|)
    ensures r.result.Ok? <==> forall k :: 0 <= k < |checks| ==> Holds(page, checks[k])
    ensures r.result.Ok? ==> r.result.value == s && |r.events| == |checks|
    ensures r.result.Err? ==>
              0 < |r.events| && r.result.error == AssertionFailed(checks[|r.events| - 1]) &&
              !Holds(page, checks[|r.events| - 1]) &&
              forall j :: 0 <= j < |r.events| - 1 ==> Holds(page, checks[j])
  {
    var (events, failed) := RunChecks(page, checks);
    match failed
    case None => Yield(s, aliases, events)
    case Some(c) => Step(Err(AssertionFailed(c)), aliases, events)
  }

  /**
   * An assertion step: throws what `Checks` throws, otherwise yields the
   * subject unchanged exactly when every expectation holds.
   */
  function AssertStep(a: Assertion, s: Subject, value: Value, attribute: Value, negation: bool,
                      page: Page, aliases: AliasMap): (r: Step)
    ensures r.aliases == aliases
    ensures r.result.Ok? ==> r.result.value == s
    ensures Checks(a, s, value, attribute, negation, page).Err? ==>
              r == Throw(Checks(a, s, value, attribute, negation, page).error, aliases)
    ensures Checks(a, s, value, attribute, negation, page).Ok? ==>
              (r.result.Ok? <==> forall c :: c in Checks(a, s, value, attribute, negation, page).value ==> Holds(page, c))
  {
    match Checks(a, s, value, attribute, negation, page)
    case Err(e) => Throw(e, aliases)
    case Ok(checks) => Conclude(s, checks, page, aliases)
  }

  /** Whether a one-expectation assertion passes. */
  predicate Passes(a: Assertion, s: Subject, value: Value, negation: bool, page: Page)
    requires a != DomChecked
  {
    AssertStep(a, s, value, Undefined, negation, page, map[]).result.Ok?
  }

  // ----- What the value assertions mean -----

  /** A one-expectation assertion passes exactly when its expectation holds. */
  lemma PassesWhenHolds(a: Assertion, s: Subject, value: Value, negation: bool, page: Page, m: Matcher)
    requires a != DomChecked && Checks(a, s, value, Undefined, negation, page) == Ok(One(m, negation))
    ensures Passes(a, s, value, negation, page) <==> Holds(page, Check(m, negation))
  {
  }

  /** `equal` on a value passes exactly when the value is the expected one, flipped by negation. */
  lemma EqualMeansEqual(v: Value, expected: Value, negation: bool, page: Page)
    ensures Passes(Equal, ValueOf(v), expected, negation, page) <==> ((v == expected) != negation)
  {
  }

  /** `null` passes on the null value alone; on a locator or handle only when negated. */
  lemma NullMeansNull(s: Subject, negation: bool, page: Page)
    ensures Passes(IsNull, s, Undefined, negation, page) <==> ((s == ValueOf(Null)) != negation)
  {
  }

  /**
   * `include` on a string passes when the expected text occurs in it, on an
   * array when the item is an element. Null, undefined, and a string
   * searched for a non-string make the matcher throw whatever the negation;
   * a number, boolean or object has no elements, so only the negated form
   * passes.
   */
  lemma IncludeMeansContains(v: Value, item: Value, negation: bool, page: Page)
    ensures v.Str? && item.Str? ==> (Passes(Include, ValueOf(v), item, negation, page) <==> (Includes(v.s, item.s) != negation))
    ensures v.Arr? ==> (Passes(Include, ValueOf(v), item, negation, page) <==> ((item in v.items) != negation))
    ensures v.Null? || v.Undefined? || (v.Str? && !item.Str?) ==> !Passes(Include, ValueOf(v), item, negation, page)
    ensures v.Num? || v.Bool? || v.Obj? ==> (Passes(Include, ValueOf(v), item, negation, page) <==> negation)
  {
    PassesWhenHolds(Include, ValueOf(v), item, negation, page, Contain(Val(v), item));
  }

  /**
   * `empty` on a value: a string or array passes when its length is zero,
   * any other value except null and undefined when it has no own keys; the
   * negated form passes exactly in the other cases.
   */
  lemma EmptyMeansNoKeys(v: Value, negation: bool, page: Page)
    requires !v.Null? && !v.Undefined?
    ensures Passes(Empty, ValueOf(v), Undefined, negation, page) <==>
            ((if v.Str? || v.Arr? then Length(v) == Some(0) else |ObjectKeys(v).value| == 0) != negation)
  {
    if v.Str? || v.Arr? {
      EmptySequence(v, negation, page);
    } else {
      EmptyObject(v, negation, page);
    }
  }

  lemma EmptySequence(v: Value, negation: bool, page: Page)
    requires v.Str? || v.Arr?
    ensures Passes(Empty, ValueOf(v), Undefined, negation, page) <==> ((Length(v) == Some(0)) != negation)
  {
    PassesWhenHolds(Empty, ValueOf(v), Undefined, negation, page, HaveLength(Val(v), Num(0 as real)));
  }

  lemma EmptyObject(v: Value, negation: bool, page: Page)
    requires !v.Null? && !v.Undefined? && !v.Str? && !v.Arr?
    ensures Passes(Empty, ValueOf(v), Undefined, negation, page) <==> ((|ObjectKeys(v).value| == 0) != negation)
  {
    var keys := ObjectKeys(v).value;
    var m := HaveLength(Val(Arr(Strings(keys))), Num(0 as real));
    assert EmptyMatcher(v) == Ok(m);
    PassesWhenHolds(Empty, ValueOf(v), Undefined, negation, page, m);
    assert Length(Arr(Strings(keys))) == Some(|keys|);
    assert (Num(0 as real) == Num(|keys| as real)) <==> |keys| == 0;
  }

  /** `property` on a handle passes exactly when the remote object owns the property. */
  lemma PropertyOnHandle(h: Handle, property: Value, negation: bool, page: Page)
    ensures Passes(Property, HandleOf(h), property, negation, page) <==> (page.hasOwn(h, property) != negation)
  {
  }

  /**
   * `dom.length` on a value compares its numeric `length` (a string's, an
   * array's, or an object's own `length` field) with the expected count; a
   * value without a numeric `length`, or an expected count that is not a
   * non-negative safe integer, fails either way.
   */
  lemma LengthOfValue(v: Value, expected: Value, negation: bool, page: Page)
    ensures NumericLength(v).None? || !NonNegativeSafeInteger(expected) ==>
              !Passes(DomLength, ValueOf(v), expected, negation, page)
    ensures NumericLength(v).Some? && NonNegativeSafeInteger(expected) ==>
              (Passes(DomLength, ValueOf(v), expected, negation, page) <==>
               ((expected.n == NumericLength(v).value) != negation))
  {
  }

  /** `dom.checked` passes when every element it visits is checked (unchecked, when negated). */
  lemma CheckedEveryElement(l: Locator, negation: bool, page: Page)
    ensures AssertStep(DomChecked, LocatorOf(l), Undefined, Undefined, negation, page, map[]).result.Ok? <==>
            forall t :: t in Targets(l, page.count(l)) ==> Holds(page, Check(BeChecked(t), negation))
  {
    var checks := EachChecked(l, page.count(l), negation);
    var targets := Targets(l, page.count(l));
    forall t | t in targets ensures Check(BeChecked(t), negation) in checks {
      var i :| 0 <= i < |targets| && targets[i] == t;
      assert checks[i] == Check(BeChecked(t), negation);
    }
  }

  // ----- What the assertions mean on an element -----

  /**
   * On a locator subject, assertion `a` makes exactly one driver call, the
   * check of matcher `m` with the action's negation, and passes exactly when
   * the driver's verdict on `m` differs from the negation.
   */
  predicate RunsOne(a: Assertion, l: Locator, value: Value, attribute: Value, negation: bool, page: Page, m: Matcher) {
    var r := AssertStep(a, LocatorOf(l), value, attribute, negation, page, map[]);
    r.events == [Expect(Check(m, negation))] && (r.result.Ok? <==> page.probe(m) != negation)
  }

  /** An assertion whose only expectation is a matcher the driver decides runs that one check. */
  lemma RunsTheCheck(a: Assertion, l: Locator, value: Value, attribute: Value, negation: bool, page: Page, m: Matcher)
    requires Checks(a, LocatorOf(l), value, attribute, negation, page) == Ok(One(m, negation))
    requires !MatcherError(m) && Verdict(page, m) == page.probe(m)
    ensures RunsOne(a, l, value, attribute, negation, page, m)
  {
  }

  /** The web-first matcher each DOM assertion runs on the element it was given. */
  lemma DomMatchers(l: Locator, value: Value, attribute: Value, negation: bool, page: Page)
    ensures RunsOne(DomLength, l, value, attribute, negation, page, HaveCount(l, value))
    ensures RunsOne(DomText, l, value, attribute, negation, page, HaveText(l, value))
    ensures RunsOne(DomClass, l, value, attribute, negation, page, HaveClass(l, value))
    ensures RunsOne(DomAttr, l, value, attribute, negation, page, HaveAttribute(l, attribute, value))
  {
    RunsTheCheck(DomLength, l, value, attribute, negation, page, HaveCount(l, value));
    RunsTheCheck(DomText, l, value, attribute, negation, page, HaveText(l, value));
    RunsTheCheck(DomClass, l, value, attribute, negation, page, HaveClass(l, value));
    RunsTheCheck(DomAttr, l, value, attribute, negation, page, HaveAttribute(l, attribute, value));
  }

  /** `dom.exist` and `dom.visible` both check visibility; `dom.value` checks the input's value. */
  lemma PresenceMatchers(l: Locator, value: Value, attribute: Value, negation: bool, page: Page)
    ensures RunsOne(DomExist, l, value, attribute, negation, page, BeVisible(l))
    ensures RunsOne(DomVisible, l, value, attribute, negation, page, BeVisible(l))
    ensures RunsOne(DomValue, l, value, attribute, negation, page, HaveValue(l, value))
  {
    RunsTheCheck(DomExist, l, value, attribute, negation, page, BeVisible(l));
    RunsTheCheck(DomVisible, l, value, attribute, negation, page, BeVisible(l));
    RunsTheCheck(DomValue, l, value, attribute, negation, page, HaveValue(l, value));
  }

  /**
   * The assertions that also take values run the element form of their
   * matcher on a locator: `include` its text, `empty` its content, `property`
   * the locator object's property.
   */
  lemma ValueAssertionsOnElements(l: Locator, value: Value, attribute: Value, negation: bool, page: Page)
    ensures RunsOne(Include, l, value, attribute, negation, page, ContainText(l, value))
    ensures RunsOne(Empty, l, value, attribute, negation, page, BeEmpty(l))
    ensures RunsOne(Property, l, value, attribute, negation, page, HaveProperty(Loc(l), value))
  {
    RunsTheCheck(Include, l, value, attribute, negation, page, ContainText(l, value));
    RunsTheCheck(Empty, l, value, attribute, negation, page, BeEmpty(l));
    RunsTheCheck(Property, l, value, attribute, negation, page, HaveProperty(Loc(l), value));
  }

  /**
   * `equal` on a locator compares the locator object with the expected
   * value, which is never the same object: only the negated form passes.
   */
  lemma EqualOnElement(l: Locator, value: Value, negation: bool, page: Page)
    ensures Passes(Equal, LocatorOf(l), value, negation, page) <==> negation
  {
  }

  // ----- The unawaited class expectation -----

  /**
   * `dom.class` as written: the expectation is started but not awaited, so
   * its failure never reaches the step, which yields the subject in every case
   * where the subject is a locator.
   */
  function DomClassAsWritten(s: Subject, pattern: Value, negation: bool, aliases: AliasMap): (r: Step)
    ensures r.result.Ok? <==> s.LocatorOf?
    ensures r.result.Ok? ==> r.result.value == s && r.events == [Expect(Check(HaveClass(s.loc, pattern), negation))]
  {
    match AssertLocator(s)
    case Err(e) => Throw(e, aliases)
    case Ok(l) => Yield(s, aliases, [Expect(Check(HaveClass(l, pattern), negation))])
  }

  /** A page on which no element has any class the interpreter asks about. */
  function ClasslessPage(): Page {
    Page(Url("", "", "", "", "", "", "", "", ""), "", [], (l: Locator) => 0, Metrics(0, 0, 0, 0),
         (l: Locator) => Metrics(0, 0, 0, 0), (m: Matcher) => false, (h: Handle, v: Value) => false)
  }

  /**
   * The unawaited expectation lets a failing class check pass: on a page where
   * the element lacks the class, the as-written step succeeds while the awaited
   * step throws the failed expectation.
   */
  lemma UnawaitedClassPasses(l: Locator)
    ensures DomClassAsWritten(LocatorOf(l), Str("active"), false, map[]).result.Ok?
    ensures !Holds(ClasslessPage(), Check(HaveClass(l, Str("active")), false))
    ensures AssertStep(DomClass, LocatorOf(l), Str("active"), Undefined, false, ClasslessPage(), map[]).result ==
            Err(AssertionFailed(Check(HaveClass(l, Str("active")), false)))
  {
  }
}
