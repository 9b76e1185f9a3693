/**
 * Loose mode: run a per-element callback on every element a locator matches
 * instead of on the locator itself, so that the driver's strict mode (one
 * element per action) is not violated. The element count is the driver's
 * answer to `count()`.
 */
module Loose {
  import opened Driver

  /** The locators the callback receives, in call order. */
  function Targets(elements: Locator, count: nat): (r: seq<Locator>)
    ensures count > 1 ==> |r| == count && forall i :: 0 <= i < count ==> r[i] == NthOf(elements, i)
    ensures count <= 1 ==> r == [elements]
  {
    if count > 1 then seq(count, i => NthOf(elements, i)) else [elements]
  }

  /** Applies `cb` to each target, in order. */
  function CallEach(cb: Locator -> Event, targets: seq<Locator>): (r: seq<Event>)
    ensures |r| == |targets|
    ensures forall i :: 0 <= i < |targets| ==> r[i] == cb(targets[i])
  {
    if targets == [] then [] else [cb(targets[0])] + CallEach(cb, targets[1..])
  }

  /**
   * `usingLooseMode`: with more than one match, the callback runs once per
   * element on `nth(0)` ... `nth(count - 1)` in increasing order; otherwise it
   * runs exactly once, on the original locator. Each call completes before
   * the next, and all have completed when it returns.
   */
  method UsingLooseMode(elements: Locator, count: nat, cb: Locator -> Event) returns (trace: seq<Event>)
    ensures count > 1 ==> |trace| == count && forall i :: 0 <= i < count ==> trace[i] == cb(NthOf(elements, i))
    ensures count <= 1 ==> trace == [cb(elements)]
    ensures trace == CallEach(cb, Targets(elements, count))
  {
    if count > 1 {
      trace := [];
      var index := 0;
      while index < count
        invariant 0 <= index <= count
        invariant |trace| == index
        invariant forall i :: 0 <= i < index ==> trace[i] == cb(NthOf(elements, i))
      {
        trace := trace + [cb(NthOf(elements, index))];
        index := index + 1;
      }
    } else {
      trace := [cb(elements)];
    }
    ghost var targets := Targets(elements, count);
    assert |CallEach(cb, targets)| == |trace|;
    assert forall i :: 0 <= i < |trace| ==> CallEach(cb, targets)[i] == trace[i];
  }
}
