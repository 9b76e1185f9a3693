/** Cypress-style timeouts: a per-kind default unless the caller gives a value. */
module Configuration {
  import opened Wrappers

  datatype Timeout = Command | Exec | Task | PageLoad | Request | Response

  /** The default for each kind of timeout, in milliseconds. */
  function DefaultTimeout(t: Timeout): (ms: nat)
    ensures ms > 0
    ensures ms == 60000 <==> t in {Exec, Task, PageLoad}
  {
    match t
    case Command => 4000
    case Exec => 60000
    case Task => 60000
    case PageLoad => 60000
    case Request => 5000
    case Response => 30000
  }

  /** The value given, when there is one; otherwise the default for `t`. */
  function GetTimeout(t: Timeout, value: Option<int>): (ms: int)
    ensures value.Some? ==> ms == value.value
    ensures value.None? ==> ms == DefaultTimeout(t)
  {
    match value
    case Some(v) => v
    case None => DefaultTimeout(t)
  }

  /** The individual defaults: a command waits 4 seconds, a request 5 and a response 30. */
  lemma ShortDefaults()
    ensures GetTimeout(Command, None) == 4000
    ensures GetTimeout(Request, None) == 5000
    ensures GetTimeout(Response, None) == 30000
    ensures GetTimeout(Command, None) < GetTimeout(Request, None) < GetTimeout(Response, None) < GetTimeout(Exec, None)
  {
  }

  /** A given value always wins, even one that is zero or negative: nothing is validated. */
  lemma GivenValueWins(t: Timeout, v: int)
    ensures GetTimeout(t, Some(v)) == v
    ensures GetTimeout(t, Some(v)) == GetTimeout(t, None) <==> v == DefaultTimeout(t)
  {
  }
}
