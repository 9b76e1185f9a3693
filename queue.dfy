/**
 * The action queue: a module-level list that the chain builder appends to,
 * inspects and refines from the tail, and that a test definition resets and
 * then copies. The same five operations exist twice in the source (the
 * action-queue module and the older actions module); both are this class.
 */
module Queue {
  import opened Wrappers

  /** The position an index addresses: itself, or counted from the end when negative. */
  function Slot(length: nat, index: int): int {
    if index >= 0 then index else length + index
  }

  predicate InRange(length: nat, index: int) {
    0 <= Slot(length, index) < length
  }

  /** `queue[slot]`, with `None` for JavaScript's `undefined`. */
  function At<T>(items: seq<T>, index: int): (r: Option<T>)
    ensures r.Some? <==> InRange(|items|, index)
    ensures r.Some? ==> r.value == items[Slot(|items|, index)]
  {
    var k := Slot(|items|, index);
    if 0 <= k < |items| then Some(items[k]) else None
  }

  /** The list after `queue[slot] = a`. */
  function Put<T>(items: seq<T>, index: int, a: T): (r: seq<T>)
    requires InRange(|items|, index)
    ensures |r| == |items|
    ensures r[Slot(|items|, index)] == a
    ensures forall k :: 0 <= k < |items| && k != Slot(|items|, index) ==> r[k] == items[k]
  {
    items[Slot(|items|, index) := a]
  }

  /** The tail, as `inspect(-1)` sees it. */
  lemma LastIsMinusOne<T>(items: seq<T>)
    ensures At(items, -1) == if items == [] then None else Some(items[|items| - 1])
  {
  }

  /** What `replace(i, a)` wrote is what `inspect(i)` reads back. */
  lemma PutThenAt<T>(items: seq<T>, index: int, a: T)
    requires InRange(|items|, index)
    ensures At(Put(items, index, a), index) == Some(a)
  {
  }

  class Queue<T> {
    var items: seq<T>

    constructor ()
      ensures items == []
    {
      items := [];
    }

    /** `resetQueue`: the queue becomes empty. */
    method Reset()
      modifies this
      ensures items == []
    {
      items := [];
    }

    /** `cloneQueue`: a copy of the current contents; it is a value, so later changes do not reach it. */
    method Clone() returns (copy: seq<T>)
      ensures copy == items
    {
      copy := items[..];
    }

    /** `pushQueue`: exactly one action more, at the end. */
    method Push(a: T)
      modifies this
      ensures |items| == |old(items)| + 1
      ensures items[..|old(items)|] == old(items) && items[|old(items)|] == a
    {
      items := items + [a];
    }

    /** `inspectQueue`: `queue[i]` for `i >= 0`, `queue[length + i]` for `i < 0`, undefined out of range. */
    method Inspect(index: int) returns (r: Option<T>)
      ensures index >= 0 ==> r == if index < |items| then Some(items[index]) else None
      ensures index < 0 ==> r == if 0 <= |items| + index then Some(items[|items| + index]) else None
      ensures r == At(items, index)
    {
      if index >= 0 {
        r := if index < |items| then Some(items[index]) else None;
      } else {
        r := if 0 <= |items| + index then Some(items[|items| + index]) else None;
      }
    }

    /** `replaceQueue`: overwrites the addressed slot only. */
    method Replace(index: int, a: T)
      requires InRange(|items|, index)
      modifies this
      ensures items == Put(old(items), index, a)
    {
      if index >= 0 {
        items := items[index := a];
      } else {
        items := items[|items| + index := a];
      }
    }
  }
}
