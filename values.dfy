/**
 * JavaScript values as the interpreter passes them around: the payload of a
 * `value` subject, the expected value of an assertion, the body of a cookie.
 * Objects keep their fields in insertion order, as JavaScript does.
 * Also the string operations the source uses (`startsWith`, `endsWith`,
 * `indexOf`, `replace` with a string pattern) and `Object.keys`.
 */
module Values {
  import opened Wrappers

  datatype Value =
    | Undefined
    | Null
    | Bool(b: bool)
    | Num(n: real)
    | Str(s: string)
    | Arr(items: seq<Value>)
    | Obj(fields: seq<Field>)

  datatype Field = Field(key: string, val: Value)

  predicate StartsWith(s: string, prefix: string) {
    |prefix| <= |s| && s[..|prefix|] == prefix
  }

  predicate EndsWith(s: string, suffix: string) {
    |suffix| <= |s| && s[|s| - |suffix|..] == suffix
  }

  /** `pattern` occurs in `s` starting at index `i`. */
  predicate OccursAt(s: string, pattern: string, i: nat) {
    i + |pattern| <= |s| && s[i..i + |pattern|] == pattern
  }

  /** `s.indexOf(pattern, from)`: the first occurrence at or after `from`. */
  function IndexFrom(s: string, pattern: string, from: nat): (r: Option<nat>)
    requires from <= |s| + 1
    ensures r.Some? ==> from <= r.value && OccursAt(s, pattern, r.value)
    ensures r.Some? ==> forall j :: from <= j < r.value ==> !OccursAt(s, pattern, j)
    ensures r.None? ==> forall j :: from <= j ==> !OccursAt(s, pattern, j)
    decreases |s| + 1 - from
  {
    if from + |pattern| > |s| then None
    else if s[from..from + |pattern|] == pattern then Some(from)
    else IndexFrom(s, pattern, from + 1)
  }

  /** `s.indexOf(pattern)`, `None` standing for -1: the first occurrence, if any. */
  function IndexOf(s: string, pattern: string): (r: Option<nat>)
    ensures r.Some? ==> OccursAt(s, pattern, r.value) && forall j :: 0 <= j < r.value ==> !OccursAt(s, pattern, j)
    ensures r.None? <==> forall j :: 0 <= j ==> !OccursAt(s, pattern, j)
  {
    IndexFrom(s, pattern, 0)
  }

  /** `s.includes(t)`. */
  predicate Includes(s: string, t: string) {
    IndexOf(s, t).Some?
  }

  /** `t` is included in `s` exactly when `s` is some text, then `t`, then some text. */
  lemma IncludesMeansInfix(s: string, t: string)
    ensures Includes(s, t) <==> exists u, w :: s == u + t + w
  {
    if Includes(s, t) {
      var i := IndexOf(s, t).value;
      assert s == s[..i] + t + s[i + |t|..];
    }
    if exists u, w :: s == u + t + w {
      var u, w :| s == u + t + w;
      assert s[|u|..|u| + |t|] == t;
      assert OccursAt(s, t, |u|);
    }
  }

  /**
   * `s.replace(pattern, '')` with a string pattern: only the FIRST occurrence
   * is removed, so putting the pattern back where it was gives `s` again;
   * without an occurrence `s` is unchanged.
   */
  function RemoveFirst(s: string, pattern: string): (r: string)
    ensures IndexOf(s, pattern).None? ==> r == s
    ensures IndexOf(s, pattern).Some? ==>
              var i := IndexOf(s, pattern).value;
              |r| == |s| - |pattern| && r[..i] + pattern + r[i..] == s
  {
    match IndexOf(s, pattern)
    case None => s
    case Some(i) =>
      var r := s[..i] + s[i + |pattern|..];
      assert r[..i] == s[..i] && r[i..] == s[i + |pattern|..];
      assert s == s[..i] + s[i..i + |pattern|] + s[i + |pattern|..];
      r
  }

  /** `s.startsWith(prefix)` holds exactly when `s` is `prefix` followed by some text. */
  lemma StartsWithMeansPrefix(s: string, prefix: string)
    ensures StartsWith(s, prefix) <==> exists t :: s == prefix + t
  {
    if StartsWith(s, prefix) {
      assert s == prefix + s[|prefix|..];
    }
    if exists t :: s == prefix + t {
      var t :| s == prefix + t;
      assert s[..|prefix|] == prefix;
    }
  }

  /** `s.endsWith(suffix)` holds exactly when `s` is some text followed by `suffix`. */
  lemma EndsWithMeansSuffix(s: string, suffix: string)
    ensures EndsWith(s, suffix) <==> exists t :: s == t + suffix
  {
    if EndsWith(s, suffix) {
      assert s == s[..|s| - |suffix|] + suffix;
    }
    if exists t :: s == t + suffix {
      var t :| s == t + suffix;
      assert s[|t|..] == suffix;
    }
  }

  predicate AllDigits(s: string) {
    forall k :: 0 <= k < |s| ==> '0' <= s[k] <= '9'
  }

  /** The number a string of decimal digits denotes, most significant digit first. */
  function DigitsValue(s: string): nat
    requires AllDigits(s)
  {
    if s == [] then 0 else 10 * DigitsValue(s[..|s| - 1]) + (s[|s| - 1] - '0') as nat
  }

  /**
   * The decimal spelling of a natural number, as `String(n)` writes it: its
   * digits denote n, and there is no leading zero.
   */
  function DecimalString(n: nat): (r: string)
    ensures |r| > 0 && AllDigits(r)
    ensures DigitsValue(r) == n
    ensures |r| > 1 ==> r[0] != '0'
  {
    var digit := ['0' + (n % 10) as char];
    if n < 10 then digit
    else
      var r := DecimalString(n / 10) + digit;
      assert r[..|r| - 1] == DecimalString(n / 10);
      r
  }

  function IndexKeys(n: nat): (r: seq<string>)
    ensures |r| == n
  {
    if n == 0 then [] else IndexKeys(n - 1) + [DecimalString(n - 1)]
  }

  function FieldKeys(fields: seq<Field>): (r: seq<string>)
    ensures |r| == |fields|
    ensures forall k :: 0 <= k < |fields| ==> r[k] == fields[k].key
  {
    if fields == [] then [] else [fields[0].key] + FieldKeys(fields[1..])
  }

  /** `obj[key]` on an object's own fields: the first field with that key, or `None` when there is none. */
  function FieldValue(fields: seq<Field>, key: string): (r: Option<Value>)
    ensures r.None? <==> key !in FieldKeys(fields)
    ensures r.Some? ==> Field(key, r.value) in fields
  {
    if fields == [] then None
    else if fields[0].key == key then Some(fields[0].val)
    else FieldValue(fields[1..], key)
  }

  /** The first field with a key is the one `FieldValue` finds. */
  lemma {:induction false} FirstFieldWins(fields: seq<Field>, k: nat, key: string)
    requires k < |fields| && fields[k].key == key
    requires forall j :: 0 <= j < k ==> fields[j].key != key
    ensures FieldValue(fields, key) == Some(fields[k].val)
  {
    if k > 0 {
      FirstFieldWins(fields[1..], k - 1, key);
    }
  }

  /**
   * `Object.keys(v)`: `None` where JavaScript throws a TypeError (on null and
   * undefined); strings and arrays have their indices as keys; other
   * primitives have none.
   */
  function ObjectKeys(v: Value): (r: Option<seq<string>>)
    ensures r.None? <==> (v.Null? || v.Undefined?)
    ensures v.Obj? ==> r == Some(FieldKeys(v.fields))
    ensures v.Str? ==> r.Some? && |r.value| == |v.s|
    ensures v.Arr? ==> r.Some? && |r.value| == |v.items|
    ensures (v.Bool? || v.Num?) ==> r == Some([])
  {
    match v
    case Undefined => None
    case Null => None
    case Bool(_) => Some([])
    case Num(_) => Some([])
    case Str(s) => Some(IndexKeys(|s|))
    case Arr(items) => Some(IndexKeys(|items|))
    case Obj(fields) => Some(FieldKeys(fields))
  }

  /** The `length` property, for the values that have one. */
  function Length(v: Value): Option<nat> {
    match v
    case Str(s) => Some(|s|)
    case Arr(items) => Some(|items|)
    case _ => None
  }

  /**
   * `v.length` when it is a number: the length of a string or an array, or
   * an object's own `length` field when that holds a number.
   */
  function NumericLength(v: Value): (r: Option<real>)
    ensures Length(v).Some? ==> r == Some(Length(v).value as real)
    ensures v.Obj? ==> (r.Some? <==> FieldValue(v.fields, "length").Some? && FieldValue(v.fields, "length").value.Num?)
    ensures r.Some? ==> v.Str? || v.Arr? || v.Obj?
  {
    match v
    case Str(s) => Some(|s| as real)
    case Arr(items) => Some(|items| as real)
    case Obj(fields) =>
      (match FieldValue(fields, "length")
       case Some(Num(n)) => Some(n)
       case _ => None)
    case _ => None
  }

  /** The largest integer a double represents exactly, `Number.MAX_SAFE_INTEGER`. */
  const MaxSafeInteger: real := 9007199254740991.0

  /** `typeof x === 'number' && Number.isSafeInteger(x) && x >= 0`. */
  predicate NonNegativeSafeInteger(x: Value) {
    x.Num? && x.n == x.n.Floor as real && 0.0 <= x.n <= MaxSafeInteger
  }

  function Strings(keys: seq<string>): (r: seq<Value>)
    ensures |r| == |keys|
    ensures forall k :: 0 <= k < |keys| ==> r[k] == Str(keys[k])
  {
    if keys == [] then [] else [Str(keys[0])] + Strings(keys[1..])
  }
}
