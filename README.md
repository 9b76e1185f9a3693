# A Dafny model of the Cypress-to-Playwright command adapter

The adapter lets Cypress-style tests (`cy.visit(...).get('.input').type('hi')`) run on
Playwright. It works in two phases:

1. **Recording.** Chainable `cy` calls record *actions* in an action queue. Each action is
   a small record tagged by `type`. Refining commands (`first`, `find`, `click`, `should`,
   `type`, ...) look at the queue's tail and rewrite it in place or push after it.
2. **Replay.** When the browser test runs, the recorded queue is replayed through a
   *registry*: a map from action type to handler, and a map from assertion name to
   assertion handler. Each handler receives the current *subject* and returns the next one.
   A subject is a located element, a plain value or a JavaScript handle. Handlers also see
   a shared alias map.

The model follows the repository module by module:

| file | module | models |
|---|---|---|
| wrappers.dfy | `Wrappers` | `Option` and `Result` (errors are thrown exceptions in the source) |
| values.dfy | `Values` | JavaScript values and the string helpers the source uses (`indexOf`, `replace`, `startsWith`, `endsWith`, `Object.keys`) |
| driver.dfy | `Driver` | the browser driver: locators as symbolic values, a `Page` oracle, the trace of driver calls, matchers and their verdicts |
| subject.dfy | `Subject` | `src/actions/subject.ts`, plus the error and step types every handler returns |
| vocabulary.dfy | `Vocabulary` | the recorded actions and selector steps |
| queue.dfy | `Queue` | the action queue (`src/action-queue/queue.ts`, and the same functions at `src/actions.ts:408-433`) as a class over a `seq` |
| loose.dfy | `Loose` | `usingLooseMode`, the per-element fan-out |
| scroll.dfy | `Scroll` | the `scrollTo` geometry |
| actions.dfy | `Actions` | selector resolution, the domain sentinel and every action handler (`src/action-queue/actions.ts`; `src/actions/registry.ts` has identical handler bodies, without `select` and `scrollTo`) |
| assertions.dfy | `Assertions` | the assertion handlers of `src/action-queue/assertions.ts` |
| registry.dfy | `Registry` | class `Registry`, `compose`, dispatch, and the composed registry |
| legacy_actions.dfy | `LegacyActions` | the older monolithic `evaluateAction` switch in `src/actions.ts` |
| legacy_registry.dfy | `LegacyRegistry` | the older single-map registry in `src/actions/registry.ts` |
| cy.dfy | `Cy` | the `cy` chain builder in `src/cy.ts` |
| evaluator.dfy | `Evaluator` | the build-then-replay loop of `it` and `beforeEach` in `src/index.ts` |
| configuration.dfy | `Configuration` | the timeout defaults |

Modelling choices:

- **The browser is an oracle.** A `Page` value supplies what the handlers read from the
  browser: the URL parts, the title, the cookie jar, element counts, element metrics,
  the verdicts of DOM matchers and own-property tests on handles.
- **Driver calls that act on the browser are recorded.** Each is appended to an event trace
  (`Goto`, `Fill`, `Click`, `Expect`, ...). Reads (`page.title()`, `page.url()`,
  `context.cookies()`, `locator.count()`, `evaluateHandle`, the own-property `evaluate`) are
  answered by the `Page` oracle and leave no event. A handler's result is a `Step`: the next
  subject (or the error it throws), the alias map after it, and the events it produced.
- **Assertions.** Value matchers (`toBe`, `toHaveLength`, `toContain`) are computed on the
  value, and so is `toHaveProperty` on an object. `toHaveProperty` on a string, array,
  number or boolean, and the DOM matchers, take their verdict from the oracle. A check
  `Holds` when the matcher does not throw and its verdict differs from its negation flag.
- **Absent fields.** JavaScript flags that are `undefined` when absent (`root`, `double`,
  `multiple`, `negation`) become `false`. Optional fields that are forwarded to the driver
  become `Option`s.
- **Imperative code stays imperative.** The queue, the registries, the chain builder, the
  loose-mode loop, the `scrollTo` option building and the replay loop are methods. Each
  method is proved equal to a specification function, and the properties are proved about
  those functions.

Where descriptions of the adapter's behaviour differ from its code, the model follows the code:

- `type` replaces the tail locator with a `fill` that carries the selector. So
  `visit(u).get('.input').type('hi')` records two actions, `navigate` and
  `fill(['.input'], 'hi')`, not three (`Cy.VisitGetType`).
- The source has no stop-word parser and no root/derived chain split. The `cy` builder
  only inspects and rewrites the queue's tail.

Where the code has a defect (see "## Findings"), the defect is modelled and exhibited by its
own member, and the interpreters run the corrected form: the older `empty` on objects and
the awaited `dom.class`. "## Left out" lists both.

## Model

| member | source | states |
|---|---|---|
| Values.IndexFrom | src/cy.ts:240 | `indexOf` from a start position: the result is an occurrence, no earlier one exists, and `None` means there is no occurrence at all |
| Values.IndexOf | src/cy.ts:240 | the search `replace` makes: the first occurrence of the pattern, and `None` exactly when there is none |
| Values.IncludesMeansInfix | src/action-queue/assertions.ts:79 | `includes` holds exactly when the text is some text, then the pattern, then some text |
| Values.RemoveFirst | src/cy.ts:240 | `replace(pattern, '')` removes only the first occurrence: putting the pattern back at that index restores the text, and a text without the pattern is unchanged |
| Values.StartsWithMeansPrefix | src/cy.ts:168 | `startsWith` holds exactly when the text is the prefix followed by some text |
| Values.EndsWithMeansSuffix | src/cy.ts:249 | `endsWith` holds exactly when the text is some text followed by the suffix |
| Values.FieldValue | src/action-queue/actions.ts:252 | reading a member of an object gives a field with that key, and `None` exactly when no field has the key |
| Values.ObjectKeys | src/action-queue/assertions.ts:115 | `Object.keys`: throws on `null`/`undefined` (the `None` result), gives the field keys of an object, one key per character or item of a string or array, and none for booleans and numbers |
| Values.FieldKeys | src/action-queue/assertions.ts:115 | the result has one key per field, and its k-th key is the k-th field's key |
| Values.Strings | src/action-queue/assertions.ts:115 | the array of key strings handed to `toHaveLength`, element by element |
| Values.DecimalString | src/action-queue/assertions.ts:115 | the digits denote n, with no leading zero, as `Object.keys` spells an array index |
| Values.IndexKeys | src/action-queue/assertions.ts:115 | an array or string of length n has n keys |
| Driver.NegationFlips | src/action-queue/assertions.ts:13-15 | the negated matcher holds exactly when the plain one fails, for every matcher that does not throw |
| Driver.RunChecks | src/action-queue/assertions.ts:13-15 | awaited `expect` calls in order: the calls made are those of a prefix of the checks, every check before the last one issued holds, a failure reported is the last one issued, and there is no failure exactly when every check holds and all are issued |
| Subject.AssertLocator | src/actions/subject.ts:10-14 | succeeds exactly on a locator subject and then yields that locator; otherwise throws `Expected Locator subject, got <kind>` |
| Subject.HandleSubject | src/actions/subject.ts:16-18 | a handle subject holding exactly the given handle |
| Subject.ValueSubject | src/actions/subject.ts:20-22 | a value subject holding exactly the given value |
| Queue.At | src/action-queue/queue.ts:23-28 | `inspectQueue`: defined exactly for an index in range, counting from the tail when negative, and then the element at that slot (same code at src/actions.ts:420-425) |
| Queue.Put | src/action-queue/queue.ts:30-36 | `replaceQueue` on values: same length, the resolved slot holds the new action, every other slot is unchanged |
| Queue.LastIsMinusOne | src/action-queue/queue.ts:23-28 | `inspect(-1)` is the last element, or undefined on an empty queue |
| Queue.PutThenAt | src/action-queue/queue.ts:23-36 | replacing at an index and then inspecting that index gives the new action back |
| Queue.Queue.constructor | src/action-queue/queue.ts:9 | the queue starts empty |
| Queue.Queue.Reset | src/action-queue/queue.ts:11-13 | `resetQueue` leaves the queue empty (same code at src/actions.ts:408-410) |
| Queue.Queue.Clone | src/action-queue/queue.ts:15-17 | `cloneQueue` returns the queue's contents as an immutable value, so later mutation cannot reach it |
| Queue.Queue.Push | src/action-queue/queue.ts:19-21 | `pushQueue` appends one action: the length grows by one and the earlier actions are unchanged |
| Queue.Queue.Inspect | src/action-queue/queue.ts:23-28 | `queue[i]` for `i >= 0`, `queue[len + i]` for `i < 0`, undefined out of range |
| Queue.Queue.Replace | src/action-queue/queue.ts:30-36 | overwrites only the resolved slot (same code at src/actions.ts:427-433) |
| Loose.CallEach | src/action-queue/loose.ts:9-11 | one callback per target, in target order |
| Loose.Targets | src/action-queue/loose.ts:6-16 | with more than one match the callback receives `nth(0)` to `nth(count - 1)` in order; otherwise only the locator itself |
| Loose.UsingLooseMode | src/action-queue/loose.ts:6-16 | with more than one match the callback runs `count` times, on `nth(0)` to `nth(count - 1)` in order; otherwise once, on the locator itself (same loop at src/actions.ts:119-129) |
| Scroll.TargetOffsets | src/action-queue/actions.ts:315-369 | throws `Unknown position` exactly for a name outside the nine compass points |
| Scroll.ScrollOptions | src/action-queue/actions.ts:307-437 | the `switch` that fills the scroll options computes the offsets of `TargetOffsets` |
| Scroll.CompassOffsets | src/action-queue/actions.ts:315-353 | each named position puts `top` at 0, H/2 or H and `left` at 0, W/2 or W, where W and H are the scrollable extents |
| Scroll.CornersAndCentre | src/action-queue/actions.ts:315-353 | `center` is (H/2, W/2), `topLeft` (0, 0), `bottomRight` (H, W), `topRight` (0, W), `bottomLeft` (H, 0) |
| Scroll.CoordinateOffsets | src/action-queue/actions.ts:355-367 | an `{x, y}` target never throws; each axis is its percentage of that axis's extent, or its pixel count as given |
| Scroll.PercentagesMatchCompass | src/action-queue/actions.ts:315-367 | the percentages 0, 50 and 100 on both axes give the same offsets as the nine compass names |
| Scroll.WorkedExample | src/action-queue/actions.ts:355-367 | one instance, extents 200 by 100: `center` is (50, 100), and `{x: '50%', y: 10}` is (10, 100) |
| Actions.ResolveSelectorItem | src/action-queue/actions.ts:18-34 | a string step queries the parent, `contains` filters by text, `first`/`last`/`nth` pick from the parent's matches; any other modifier throws `Unknown selector modifier` (same function at src/actions/registry.ts:26-42 and src/actions.ts:131-147) |
| Actions.ResolveDomain | src/action-queue/actions.ts:49-54 | `__CURRENT_DOMAIN__` becomes `.` + the page's hostname; any other domain, or none, is returned unchanged (same at src/actions/registry.ts:44-49) |
| Actions.HandleStep | src/action-queue/actions.ts:57-69 | `window` and `document` give handle subjects; any other global throws |
| Actions.AliasStep | src/action-queue/actions.ts:71-78 | stores the subject under the name, returns it unchanged, and leaves every other alias as it was |
| Actions.AliasRef | src/action-queue/actions.ts:93-96 | a first step `@name` refers to alias `name` |
| Actions.AliasRefOf | src/action-queue/actions.ts:93-96 | `@name` is always read back as a reference to `name` |
| Actions.LocatorStep | src/action-queue/actions.ts:90-106 | an `@alias` first step returns the stored subject without resolution; otherwise the first step is resolved against the page when the subject is `value(null)` or `root` is set, against the subject's locator when it is one, and any other subject throws (same handler at src/actions/registry.ts:124-140) |
| Actions.OnlyFirstStepResolved | src/action-queue/actions.ts:99-104 | steps after the first never affect the result |
| Actions.AliasRoundTrip | src/action-queue/actions.ts:71-96 | a subject stored by `alias` is returned exactly by a later `locator` whose first step names it, whatever the subject then |
| Actions.RequireLocator | src/action-queue/actions.ts:116-123 | the `assertLocator` guard: on a locator the command runs and the subject is returned unchanged; otherwise it throws before any driver call |
| Actions.ClickOptionsOf | src/action-queue/actions.ts:170-175 | `force`, `button` and `modifiers` are forwarded; `position` only when it is an `{x, y}` point, never a named position |
| Actions.ClickStep | src/action-queue/actions.ts:157-188 | `multiple` clicks every match through loose mode; otherwise one call, `dblclick` when `double` is set and `click` otherwise, on the subject's locator with the forwarded options; a non-locator subject throws |
| Actions.CheckStep | src/action-queue/actions.ts:148-155 | `setChecked` on every match through loose mode, after the locator guard |
| Actions.KeyboardStep | src/action-queue/actions.ts:134-146 | only `press` is implemented; it presses the key and keeps the subject |
| Actions.UrlObject | src/action-queue/actions.ts:254-265 | the object `location` yields without a key has the members `hash` to `search`, in the source's order |
| Actions.LocationValue | src/action-queue/actions.ts:247-268 | with a key, that part of the page's URL as a string; without one, an object with the nine members |
| Actions.LocationKeysAgree | src/action-queue/actions.ts:247-268 | the object's member under each key's name is what `location` with that key yields |
| Actions.CookieClearStep | src/action-queue/actions.ts:270-278 | forwards only the `name` of a filter, or no filter at all (same at src/actions/registry.ts:304-312) |
| Actions.FirstNamedFrom | src/action-queue/actions.ts:286 | `find` over the cookie jar: the first cookie with the requested name |
| Actions.CookieGetStep | src/action-queue/actions.ts:280-288 | `multiple` yields every cookie; otherwise the first cookie with the name, and `null` exactly when no cookie has it |
| Actions.CookieSetStep | src/action-queue/actions.ts:290-296 | adds the cookie with its domain passed through the current-domain sentinel |
| Actions.ScrollToStep | src/action-queue/actions.ts:307-437 | a `value(null)` subject scrolls the document root; any other subject must be a locator, scrolled by the offsets of its own metrics; the subject is returned unchanged |
| Actions.Call | src/action-queue/actions.ts:56-305 | calling a handler with an action of another shape throws the payload mismatch |
| Actions.InlineHandlers | src/action-queue/actions.ts:80-268 | `subject` and `title` yield a value, `navigate`, `pause` and `wait` make their one driver call and keep the subject, and `location` yields the URL or one of its parts |
| Actions.GuardedCommands | src/action-queue/actions.ts:116-245 | `fill`, `clear`, `check`, `click`, `select`, `scrollIntoView`, `dispatchEvent`, `blur` and `focus` succeed exactly on a locator subject and return it unchanged; otherwise they throw before any driver call |
| Actions.GuardedCalls | src/action-queue/actions.ts:116-305 | on a locator, `fill`, `clear`, `select`, `scrollIntoView`, `dispatchEvent`, `blur` and `focus` each make exactly one driver call on it: fill with the text, clear, selectOption with the value, scrollIntoViewIfNeeded with a 4000 ms timeout, dispatchEvent with the event, blur, focus |
| Actions.OnlyAliasWritesAliases | src/action-queue/actions.ts:71-78 | only `alias` writes the alias map; every other handler leaves it as it was |
| Actions.SubjectPassesThrough | src/action-queue/actions.ts:108-305 | every handler except `handle`, `subject`, `locator`, `title`, `location` and `cookie.get` returns the incoming subject when it succeeds |
| Assertions.EachChecked | src/action-queue/assertions.ts:134-141 | `dom.checked` checks every element in loose mode |
| Assertions.Checks | src/action-queue/assertions.ts:18-158 | the errors and the size of what each assertion runs: the DOM assertions reject non-locators, `include` and `empty` reject handles, `empty` rejects null and undefined, every check carries the action's negation flag, and all but `dom.checked` issue exactly one check |
| Assertions.Conclude | src/action-queue/assertions.ts:13-15 | the step succeeds exactly when every check holds and then returns the subject after issuing all of them; otherwise it throws the first failing check, after issuing exactly the checks up to it |
| Assertions.AssertStep | src/action-queue/assertions.ts:18-158 | every assertion handler returns the incoming subject unchanged and never touches the aliases; selection errors are thrown before any driver call |
| Assertions.EqualMeansEqual | src/action-queue/assertions.ts:126-132 | `equal` passes exactly when the value equals the expected one, inverted by negation |
| Assertions.NullMeansNull | src/action-queue/assertions.ts:152-158 | `null` passes exactly when the subject is `value(null)`, inverted by negation |
| Assertions.IncludeMeansContains | src/action-queue/assertions.ts:75-88 | `include` on a string is substring search and on an array membership; null, undefined and a string searched for a non-string throw; on a number, boolean or object only the negated form passes |
| Assertions.EmptyMeansNoKeys | src/action-queue/assertions.ts:107-124 | `empty` on a value passes exactly when it has no keys (length 0 for strings and arrays), inverted by negation |
| Assertions.PropertyOnHandle | src/action-queue/assertions.ts:90-105 | `property` on a handle passes exactly when the page reports the own property, inverted by negation |
| Assertions.LengthOfValue | src/action-queue/assertions.ts:18-28 | `dom.length` on a value compares its numeric `length` (a string's, an array's, or an object's own `length` field) with the expected count; no numeric `length`, or an expected count that is not a non-negative safe integer, makes the check throw |
| Assertions.CheckedEveryElement | src/action-queue/assertions.ts:134-141 | `dom.checked` passes exactly when every element passes its check |
| Assertions.DomMatchers | src/action-queue/assertions.ts:18-55 | on a locator, `dom.length` runs only `toHaveCount`, `dom.text` `toHaveText`, `dom.class` `toHaveClass` (awaited) and `dom.attr` `toHaveAttribute`, each passing exactly when the driver's verdict differs from the negation |
| Assertions.PresenceMatchers | src/action-queue/assertions.ts:57-73 | on a locator, `dom.exist` and `dom.visible` run only `toBeVisible` and `dom.value` only `toHaveValue`, each passing exactly when the driver's verdict differs from the negation |
| Assertions.ValueAssertionsOnElements | src/action-queue/assertions.ts:75-124 | on a locator, `include` runs only `toContainText`, `empty` only `toBeEmpty` and `property` only `toHaveProperty` on the locator, each passing exactly when the driver's verdict differs from the negation |
| Assertions.EqualOnElement | src/action-queue/assertions.ts:126-132 | `equal` on a locator passes exactly when negated |
| Assertions.DomClassAsWritten | src/action-queue/assertions.ts:39-46 | the handler as written: it issues the class check and returns the subject without waiting for the check's outcome |
| Assertions.UnawaitedClassPasses | src/action-queue/assertions.ts:43 | on a page where the element lacks the class, the handler as written succeeds while the check fails; the awaited handler fails |
| Registry.Registry.constructor | src/action-queue/registry.ts:15-21 | the registry holds the given maps |
| Registry.Registry.Compose | src/action-queue/registry.ts:23-28 | fresh maps that are the right-biased unions of both registries' maps |
| Registry.ComposeUnion | src/action-queue/registry.ts:25-26 | the union's keys are both key sets, and `b`'s entry wins on a shared key |
| Registry.Registry.RegisterAction | src/action-queue/registry.ts:30-39 | stores the handler under the type, replacing any previous one, changes nothing else and returns the same registry |
| Registry.Registry.RegisterAssertion | src/action-queue/registry.ts:41-48 | stores into the assertion map only and returns the same registry |
| Registry.Evaluate | src/action-queue/registry.ts:50-70 | for any tables: a named assertion runs the assertion registered under its name, another action runs the handler registered under its type, and a missing entry throws `Unknown assertion` or `Unknown action` with no driver call |
| Registry.Registry.EvaluateAction | src/action-queue/registry.ts:50-70 | equal to `Evaluate` on the registry's current tables |
| Registry.SharedKeys | src/action-queue/actions.ts:56-305 | no handler is registered as `assertion`, `select` or `scrollTo` in the handler set both registries share |
| Registry.BuildActionRegistry | src/action-queue/actions.ts:56-437 | the action registry maps each of the 23 types to its handler |
| Registry.BuildAssertionRegistry | src/action-queue/assertions.ts:17-158 | the assertion registry maps each of the 13 names to its handler |
| Registry.BuildRegistry | src/action-queue/queue.ts:5 | composing the two gives both tables unchanged |
| Registry.SubjectCommandsRegistered | src/action-queue/actions.ts:57-106 | the subject-producing actions are registered under their type with the handler that accepts them |
| Registry.DomCommandsRegistered | src/action-queue/actions.ts:116-305 | the element commands are registered under their type with the handler that accepts them |
| Registry.PageCommandsRegistered | src/action-queue/actions.ts:108-437 | the page commands are registered under their type with the handler that accepts them |
| Registry.DispatchReachesHandler | src/action-queue/registry.ts:64-69 | every recorded action type is registered, and its handler accepts its payload |
| Registry.UnknownActionThrows | src/action-queue/registry.ts:64-67 | a type with no handler throws `Unknown action "<type>"` |
| Registry.AssertionRegisteredByName | src/action-queue/assertions.ts:17-158 | each assertion is registered under its own name and under no other |
| Registry.AssertionDispatch | src/action-queue/registry.ts:54-61 | an assertion action runs the assertion registered under its name; a missing name throws `Unknown assertion "<name>"` |
| Registry.NoPayloadMismatch | src/action-queue/registry.ts:64-69 | dispatch never hands a handler an action of another type |
| Registry.AcceptedNeverMismatches | src/action-queue/actions.ts:57-437 | a handler called with its own action type never reports a payload mismatch |
| LegacyActions.LegacyGuard | src/actions.ts:337-342 | the older guard: succeeds exactly on a locator, otherwise throws with the command's message |
| LegacyActions.LegacyAssertion | src/actions.ts:199-334 | the older switch knows exactly ten assertion names |
| LegacyActions.LegacyEmptyAsWritten | src/actions.ts:294-302 | `empty` as written: on a non-string, non-array value every check it issues is negated, whatever the negation flag |
| LegacyActions.EmptyInvertedAsWritten | src/actions.ts:294-302 | as written, `empty` fails on `{}` and passes on `{a: null}` |
| LegacyActions.LegacyEmpty | src/actions.ts:283-314 | corrected `empty`: one check carrying the action's negation flag; throws only on `null`/`undefined` |
| LegacyActions.LegacyChecks | src/actions.ts:199-334 | the older checks: `dom.length`, `dom.class` and `dom.exist` ignore negation, `dom.exist` negated checks hidden instead of visible, and each guard throws its own message |
| LegacyActions.LegacyAgreesWithRegistry | src/actions.ts:209-322 | with `empty` corrected, `include`, `property`, `empty`, `equal` and the locator cases of `dom.text`, `dom.value` and `dom.checked` choose the same checks as the newer handlers; as written, `empty` on a value that is neither a string nor an array runs the newer `empty` negated, whatever its own flag |
| LegacyActions.NegationIgnored | src/actions.ts:201-224 | `dom.length` and `dom.class` give the same checks with and without negation |
| LegacyActions.LegacyEvaluate | src/actions.ts:154-406 | only `alias` writes the alias map, and a type with no case throws without any driver call |
| LegacyActions.FallThroughKeepsSubject | src/actions.ts:405 | the cases that break out of the switch return the incoming subject and leave the aliases alone |
| LegacyActions.CommandsNeedLocator | src/actions.ts:337-370 | `fill`, `clear`, `check` and `click` throw on a non-locator subject before any driver call |
| LegacyActions.LegacyCalls | src/actions.ts:196-370 | the older switch's driver calls: `navigate` goes to the URL on any subject; on a locator, `fill` fills it with the text, `clear` clears it, `check` checks each element through loose mode, `click` clicks it with no options; each yields the subject and keeps the aliases |
| LegacyActions.UnknownHandleRejected | src/actions.ts:161-170 | an unknown global throws `Unknown handle value` |
| LegacyActions.UnknownAssertionRejected | src/actions.ts:333-334 | an unknown assertion name throws `Unknown assertion type` |
| LegacyActions.NewerElementCommandsNotImplemented | src/actions.ts:401-402 | `scrollIntoView`, `dispatchEvent`, `blur`, `focus` and `select` throw `Action type "<type>" is not implemented` |
| LegacyActions.NewerPageCommandsNotImplemented | src/actions.ts:401-402 | the cookie commands, `scrollTo` and types with no case throw `Action type "<type>" is not implemented` |
| LegacyActions.NamelessAssertionRejected | src/actions.ts:199-200 | an assertion action without a name falls to the assertion switch's default and throws `Unknown assertion type "undefined"` |
| LegacyRegistry.LegacyRegistry.constructor | src/actions/registry.ts:51-54 | both maps start empty |
| LegacyRegistry.LegacyRegistry.RegisterAction | src/actions/registry.ts:56-65 | stores the handler under the type, replacing any previous one, and returns the same registry |
| LegacyRegistry.LegacyRegistry.RegisterAssertion | src/actions/registry.ts:67-74 | stores into the assertion map only and returns the same registry |
| LegacyRegistry.LegacyRegistry.EvaluateAction | src/actions/registry.ts:76-85 | looks up only the action's type; a missing type throws `Unknown action "<type>"` |
| LegacyRegistry.BuildLegacyActionRegistry | src/actions/registry.ts:90-330 | the older handler set: the same 21 handlers, without `select` and `scrollTo` |
| LegacyRegistry.AssertionsNeverConsulted | src/actions/registry.ts:67-85 | an assertion action throws `Unknown action "assertion"`: the assertion map is never read |
| LegacyRegistry.SameHandlers | src/actions/registry.ts:90-330 | every type the older registry knows is handled exactly as by the newer registry |
| LegacyRegistry.SelectAndScrollUnknown | src/actions/registry.ts:76-85 | `select` and `scrollTo` are unknown actions to the older registry |
| Cy.TailOf | src/cy.ts:15-18 | the tail action, or `cannot be chained off "cy"` on an empty queue |
| Cy.LocatorTailOf | src/cy.ts:65-71 | the tail's selector when it is a locator; otherwise `doesn't yield DOM element`, or the empty-queue error |
| Cy.ReplaceTail | src/cy.ts:73-76 | `replaceQueue(-1, a)` keeps every earlier action and puts `a` last |
| Cy.Apply | src/cy.ts:6-256 | every command only appends or rewrites the tail: the queue grows by at most one, the actions before the tail are kept, and `visit`, `get` and `contains` keep the whole queue |
| Cy.EmptyQueueRejects | src/cy.ts:14-256 | every refining command chained directly off `cy` throws `cannot be chained off "cy"` |
| Cy.UnknownPhraseRejects | src/cy.ts:223-225 | `should` with any other phrase throws `Unknown assertion` |
| Cy.NonElementTailRejects | src/cy.ts:14-256 | a tail that yields no element makes every refining command throw, except that `first`, `last` and the text assertion accept an assertion tail |
| Cy.ShouldRecordsAssertion | src/cy.ts:135-229 | on a locator tail each phrase replaces the tail with an assertion on its selector: `have.length` records `count`, the two text phrases `haveText`, `have.class` `haveClass`, and the two existence phrases `exists` with no expected value; only the `not.` phrases are negated |
| Cy.TextAssertionAfterAssertion | src/cy.ts:155-171 | after an assertion tail, `have.text` and `not.have.text` push a `haveText` assertion on the same selector and keep the earlier one |
| Cy.NarrowingCases | src/cy.ts:14-59 | `first`/`last` after a locator rewrite it in place with the extra step; after an assertion they push a new locator on its selector and keep the assertion |
| Cy.CommandsReplaceTail | src/cy.ts:64-95 | `check`, `click` and `type` replace the tail locator with a command on the same selector, length unchanged; `check` records exactly a check action and `click` exactly a click action with no options |
| Cy.EnterFirstAtEnd | src/cy.ts:240-249 | `{enter}` appended to a text without one is first found at the end |
| Cy.TypeWithEnter | src/cy.ts:230-256 | `type` removes the first `{enter}` and, when the text ended with it, pushes an `Enter` press right after the `fill` |
| Cy.VisitGetType | src/cy.ts:6-13 | `visit(u)` pushes one `navigate` action, `get` a locator on `[selector]`, and `type` turns it into a `fill` |
| Cy.Chain.constructor | src/cy.ts:5 | the chain works on the given queue |
| Cy.Chain.Visit | src/cy.ts:6-9 | pushes a `navigate` action and returns the chain |
| Cy.Chain.Get | src/cy.ts:10-13 | pushes a locator with selector `[selector]` |
| Cy.Chain.Contains | src/cy.ts:60-63 | pushes a locator with a `contains` step |
| Cy.Chain.NarrowTail | src/cy.ts:14-36 | the shared body of `first` and `last`, equal to `Narrow` |
| Cy.Chain.First | src/cy.ts:14-36 | the queue after `first` and what it returns are those of `Apply` |
| Cy.Chain.Last | src/cy.ts:37-59 | as `first`, with the `last` step (and `first`'s error text) |
| Cy.Chain.ReplaceLocatorTail | src/cy.ts:64-79 | inspect the tail, check that it is a locator, replace it |
| Cy.Chain.Check | src/cy.ts:64-79 | the tail locator becomes a `check` action on its selector |
| Cy.Chain.Click | src/cy.ts:80-95 | the tail locator becomes a `click` action on its selector |
| Cy.Chain.Parent | src/cy.ts:96-108 | the tail locator's selector gains `xpath=..` |
| Cy.Chain.Parents | src/cy.ts:109-121 | the tail locator's selector gains `xpath=ancestor::` + the argument |
| Cy.Chain.Find | src/cy.ts:122-134 | the tail locator's selector gains the argument |
| Cy.Chain.Should | src/cy.ts:135-229 | the queue after `should` and what it returns are those of `Apply` |
| Cy.Chain.Type | src/cy.ts:230-256 | the queue after `type` is that of `Apply`; it returns nothing |
| Evaluator.After | src/index.ts:38-41 | prefixing driver calls keeps how the run ended |
| Evaluator.Define | src/index.ts:29-32 | reset the queue, record the body's actions, snapshot: the snapshot is exactly the recorded actions (same at src/index.ts:12-15) |
| Evaluator.RunTest | src/index.ts:34-42 | the loop replays the snapshot from `value(null)` and an empty alias map, in order, each result the next subject, stopping at the first error (same loop at src/index.ts:17-25) |
| Evaluator.It | src/index.ts:29-43 | defining then running a test replays exactly the actions its body recorded |
| Evaluator.AfterAfter | src/index.ts:38-41 | driver calls made in two stretches are the concatenation |
| Evaluator.ReplayAppend | src/index.ts:38-41 | replaying two queues in turn is replaying their concatenation, the second starting from the state the first ends in |
| Evaluator.FailureStopsTheRun | src/index.ts:38-41 | after an action throws, nothing recorded after it runs |
| Evaluator.FinishedRunsEveryAction | src/index.ts:38-41 | a run that finishes makes each action's driver calls in recorded order |
| Evaluator.NavigateStep | src/action-queue/actions.ts:108-114 | `navigate` goes to the URL and keeps the subject |
| Evaluator.LocateStep | src/action-queue/actions.ts:90-106 | `locator ['.input']` on the initial subject finds `.input` on the page |
| Evaluator.FillStep | src/action-queue/actions.ts:116-123 | dispatched through the registry, `fill` on a locator fills it with the action's text, for every text, and yields the same locator with the aliases kept |
| Evaluator.VisitGetTypeRun | src/index.ts:34-42 | the example test navigates, then fills the input found on the page |
| Evaluator.FillWithoutElementFails | src/action-queue/actions.ts:116-123 | a test that fills before locating anything fails on its first command, with no driver call |
| Evaluator.ChainAssertionsUnknown | src/cy.ts:147-217 | the names the chain builder records are unknown to both interpreters, so replaying such an assertion throws `Unknown assertion` |
| Configuration.DefaultTimeout | src/configuration.ts:3-10 | exec, task and pageLoad default to 60000 and the others to less; every default is positive |
| Configuration.GetTimeout | src/configuration.ts:12-18 | a given value is returned unchanged; otherwise the default for the kind |
| Configuration.ShortDefaults | src/configuration.ts:4-9 | command 4000, request 5000, response 30000 |
| Configuration.GivenValueWins | src/configuration.ts:13-15 | a given value wins even when it is zero or negative, since nothing validates it; it agrees with the unset result only when it equals the default |

## Left out

- The browser driver's own behaviour (navigation, typing, clicking, waiting, cookies,
  matcher semantics on the DOM) is an oracle. Page state does not change as commands run:
  the model records the calls but does not say what they do to the page.
- URL parsing (`new URL(...)`) is left out. The URL's parts and its hostname are inputs.
- `Number.parseInt` on percentage strings is left out. The parsed integer is an input.
- Scroll geometry is computed over `real`, not over JavaScript doubles.
- Promise unwrapping in the `subject` handler is left out. A value is stored as given.
- `toBe` on objects compares identity in JavaScript. The model compares structurally.
- Driver.Verdict: `toContain` on an array compares items with `===`. The model compares
  them structurally, so an object item equal to the expected one counts as contained.
- Driver.Verdict: `toHaveProperty` is computed only on objects, by their own field keys; it
  does not follow dotted paths such as `'a.b'` and does not see inherited properties. On a
  string, array, number or boolean its verdict is left to the `Page` oracle, unconstrained,
  so the model does not say that `length` or an index is found there.
- LegacyActions.LegacyChecks: the older interpreter runs the corrected `empty` (`LegacyEmpty`),
  not the code as written (`LegacyEmptyAsWritten`). So `{type:'assertion', name:'empty',
  negation:false}` on subject `{}` succeeds in `LegacyEvaluate`, while the code as written
  fails there.
- LegacyActions.LegacyAgreesWithRegistry: the agreement on `empty` is for the corrected form.
  As written, the older `empty` on objects runs the newer check negated, which the lemma's
  second clause states.
- Registry.BuildAssertionRegistry: the newer interpreter runs `dom.class` awaited
  (`AssertStep`), not as written (`DomClassAsWritten`). So `dom.class` with value `active` on
  an element without that class makes `Evaluate` and `Run` abort with `AssertionFailed`,
  while the code as written resolves and the replay goes on.
- Driver.Verdict: `toContain` on an object reads it as array-like through its `length`
  member (`Array.from`). The model gives every object no elements, so an object whose
  `length` is positive never contains `undefined` or its indexed members.
- Driver.MatcherError: `toHaveLength` reads `length` from an object's own fields only;
  inherited `length` members (of functions, say) are not modelled.
- Assertions.Checks: `dom.class` builds `new RegExp(value)`, which throws a syntax error on
  an invalid pattern before any check is issued. The model hands the pattern to the class
  check as given; regular-expression syntax is not modelled.
- LegacyActions.LegacyChecks: the same `new RegExp(value)` of the older `dom.class` is not
  checked for syntax either.
- Actions.LocationValue: only the nine URL fields the object form lists are keys. The
  other members of `keyof URL` (`username`, `password`, `searchParams`, `toJSON`,
  `toString`) are not modelled, nor is the object's `toString` member.
- `setup()`, the global injection, and the `describe`/`context` re-exports of `src/index.ts`
  are left out. So are the Playwright test registration and its fixtures.
- Actions.LocatorStep: a missing alias makes the source return `undefined` as the next
  subject. The model throws `AliasNotFound` instead, because the model has no undefined
  subject.
- Actions.ResolveSelectorItem: `first`/`last`/`nth` on the page itself call a method the
  page lacks. The model throws a `TypeError` there.
- Actions.ResolveSelectorItem: `nth` takes any integer. A negative index is passed to the
  driver unchanged, and what the driver then picks is not modelled.
- Error messages are modelled by their kind and the arguments that identify them. The
  subject's printed value inside some messages is not modelled.
- Cy.Chain: the `subject: 'locator'` field written into assertions is not modelled, since
  no handler reads it. The `type` command returns nothing in the source, modelled as `()`.
- Cy.Apply: the error texts follow the source as written. `last` reports itself as
  `first`, and `click` reports itself as `check`.
- Queue.Put: replacing at an index outside the queue is excluded by a precondition. In
  JavaScript it would leave holes in the array.
- LegacyRegistry.LegacyRegistry.EvaluateAction: the older `evaluateAction` forwards its
  remaining arguments to the handler. The model assumes the caller passes the subject,
  the same action, the page and the aliases.
- Evaluator.Define: the test body is user code. It is modelled by the actions it records.
- Evaluator.RunTest: the source shares one mutable alias map across the loop. The model
  threads the map from step to step. Both show each step the writes of earlier steps.
- Evaluator.It: the chain builder writes into the older queue, while `src/index.ts` resets
  and snapshots the newer one. The two queues are modelled separately, with no proof that
  links recording in `src/cy.ts` to replay in `src/index.ts`.

## Findings

| source | as written | input that shows it | evidently intended | confidence | as-written member | corrected member |
|---|---|---|---|---|---|---|
| src/actions.ts:294-302 | `empty` on a non-string, non-array value issues the negated key-count check in both branches | `{type:'assertion', name:'empty', negation:false}` on subject `{}` fails, and on `{a: null}` it passes | the non-negated branch checks that there are no keys, and negation inverts it | high, not executed | LegacyActions.EmptyInvertedAsWritten | LegacyActions.LegacyEmpty |
| src/action-queue/assertions.ts:43 | the `dom.class` check is not awaited, so the handler returns before the check settles | `dom.class` with value `active` on an element without that class: the handler succeeds | the check is awaited like every other assertion's, so the handler fails | high, not executed | Assertions.UnawaitedClassPasses | Assertions.AssertStep |
