/**
  The part of PHP's value model that the adapter, the collection and the
  predicate renderer rely on: scalars, ordered arrays, the conversions PHP
  applies when a value is used as a string or as an array key, `empty()`,
  and the errors PHP 8 raises where these operations fail.
 */
module PhpValues {
  import opened OrderedMap

  /** An array key: PHP keys are integers or strings. */
  datatype Key = IntKey(n: int) | StrKey(s: string)

  /** A PHP value. Floats and objects are not part of this model. */
  datatype Value =
    | Null
    | Bool(b: bool)
    | Int(n: int)
    | Str(s: string)
    | Arr(entries: seq<(Key, Value)>)

  /** What PHP throws where the modelled code fails. */
  datatype Error =
    | TypeError(reason: string)
    | ValueError(reason: string)
    | DbException(message: string)
    // `$s[$k]` on a string `$s`; the PHP result depends on version and key
    | StringOffset
    // `$o->m()` with `$o` null
    | CallOnNull(methodName: string)

  datatype Result<+T> = Ok(value: T) | Err(error: Error) {
    predicate IsFailure() {
      Err?
    }

    function PropagateFailure<U>(): Result<U>
      requires Err?
    {
      Err(error)
    }

    function Extract(): T
      requires Ok?
    {
      value
    }
  }

  /** A call that returns `$this` on success. */
  datatype Outcome = Done | Fail(error: Error)

  const PHP_INT_MAX: int := 9223372036854775807
  const PHP_INT_MIN: int := -9223372036854775808

  function DigitChar(d: int): char
    requires 0 <= d < 10
  {
    "0123456789"[d]
  }

  function NatToString(n: nat): (s: string)
    ensures |s| > 0
    ensures forall i :: 0 <= i < |s| ==> '0' <= s[i] <= '9'
    decreases n
  {
    if n < 10 then [DigitChar(n)] else NatToString(n / 10) + [DigitChar(n % 10)]
  }

  /** Decimal text of an integer, as `(string)$n` gives it. */
  function IntToString(n: int): string {
    if n < 0 then "-" + NatToString(-n) else NatToString(n)
  }

  /** `(string)$v`, also what `sprintf('%s', $v)` and string parameters
      of built-in functions make of a value. */
  function ToPhpString(v: Value): string {
    match v
    case Null => ""
    case Bool(b) => if b then "1" else ""
    case Int(n) => IntToString(n)
    case Str(s) => s
    case Arr(_) => "Array"
  }

  /** `empty($v)`. */
  predicate IsEmpty(v: Value) {
    match v
    case Null => true
    case Bool(b) => !b
    case Int(n) => n == 0
    case Str(s) => s == "" || s == "0"
    case Arr(es) => es == []
  }

  /** `$v == true`, loose comparison with true. */
  predicate IsTruthy(v: Value) {
    !IsEmpty(v)
  }

  predicate IsDigit(c: char) {
    '0' <= c <= '9'
  }

  /** Decimal digits without a redundant leading zero. */
  predicate IsCanonicalNat(s: string) {
    && |s| > 0
    && (forall i :: 0 <= i < |s| ==> IsDigit(s[i]))
    && (s[0] != '0' || |s| == 1)
  }

  function ParseNat(s: string): nat
    requires forall i :: 0 <= i < |s| ==> IsDigit(s[i])
  {
    if s == [] then 0
    else
      assert IsDigit(s[|s| - 1]);
      ParseNat(s[..|s| - 1]) * 10 + (s[|s| - 1] as int - '0' as int)
  }

  /** The integer a string key stands for, if PHP turns it into an integer
      key: canonical decimal text of a value within the 64-bit range. */
  function IntegerKeyOf(s: string): (r: Option<int>)
    ensures r.Some? ==> PHP_INT_MIN <= r.value <= PHP_INT_MAX
  {
    if IsCanonicalNat(s) && ParseNat(s) <= PHP_INT_MAX then Some(ParseNat(s))
    else if |s| > 1 && s[0] == '-' && s[1] != '0' && IsCanonicalNat(s[1..])
            && PHP_INT_MIN <= 0 - ParseNat(s[1..]) then Some(0 - ParseNat(s[1..]))
    else None
  }

  /** A string used as an array key: "12" becomes the key 12, "012" stays. */
  function SymKey(s: string): Key {
    match IntegerKeyOf(s)
    case Some(n) => IntKey(n)
    case None => StrKey(s)
  }

  /** A key that starts with neither a digit nor a minus sign stays a string. */
  lemma WordKey(s: string)
    requires s != [] && !IsDigit(s[0]) && s[0] != '-'
    ensures SymKey(s) == StrKey(s)
  {
  }

  /** `$a[$v]` with an arbitrary value `$v` as the offset. */
  function OffsetKey(v: Value): Result<Key> {
    match v
    case Null => Ok(StrKey(""))
    case Bool(b) => Ok(IntKey(if b then 1 else 0))
    case Int(n) => Ok(IntKey(n))
    case Str(s) => Ok(SymKey(s))
    case Arr(_) => Err(TypeError("Illegal offset type"))
  }

  /** Reading `$c[$k]`: a missing key and an offset into null, a bool or an
      integer all read as null (PHP warns and goes on). */
  function ReadOffset(c: Value, k: Key): Result<Value> {
    match c
    case Arr(es) => Ok(match Get(es, k) case Some(v) => v case None => Null)
    case Str(_) => Err(StringOffset)
    case _ => Ok(Null)
  }

  /** Reading `$c[$v]` with an arbitrary value `$v` as the offset: only an
      array container converts the offset to a key. */
  function ReadValueOffset(c: Value, v: Value): Result<Value> {
    match c
    case Arr(es) =>
      var k :- OffsetKey(v);
      Ok(match Get(es, k) case Some(x) => x case None => Null)
    case Str(_) => Err(StringOffset)
    case _ => Ok(Null)
  }

  /** Reading `$c["name"]` with a literal string offset. */
  function ReadNamed(c: Value, name: string): Result<Value> {
    ReadOffset(c, SymKey(name))
  }

  /** The entries of the list `[$vs[0], $vs[1], ...]`. */
  function ListEntries(vs: seq<Value>): (es: seq<(Key, Value)>)
    ensures |es| == |vs|
    ensures forall i :: 0 <= i < |vs| ==> es[i] == (IntKey(i), vs[i])
  {
    seq(|vs|, i requires 0 <= i < |vs| => (IntKey(i), vs[i]))
  }

  /** Appending to a list gives the next integer key. */
  lemma ListEntriesAppend(vs: seq<Value>, v: Value)
    ensures ListEntries(vs) + [(IntKey(|vs|), v)] == ListEntries(vs + [v])
  {
  }

  /** A PHP list value. */
  function List(vs: seq<Value>): Value {
    Arr(ListEntries(vs))
  }

  /** Applies `f` to each element in order and stops at the first error, as
      a `foreach` loop does whose body may throw. */
  function Traverse<T, U>(f: T -> Result<U>, xs: seq<T>): (r: Result<seq<U>>)
    ensures r.Ok? ==> |r.value| == |xs|
  {
    if xs == [] then Ok([])
    else
      var init :- Traverse(f, xs[..|xs| - 1]);
      var last :- f(xs[|xs| - 1]);
      Ok(init + [last])
  }

  /** The loop succeeds exactly when every step does, and collects the steps'
      results in order. */
  lemma {:induction false} TraverseAll<T, U>(f: T -> Result<U>, xs: seq<T>)
    ensures Traverse(f, xs).Ok? <==> forall i :: 0 <= i < |xs| ==> f(xs[i]).Ok?
    ensures Traverse(f, xs).Ok? ==>
      forall i :: 0 <= i < |xs| ==> Traverse(f, xs).value[i] == f(xs[i]).value
  {
    if xs != [] {
      var init, last := xs[..|xs| - 1], xs[|xs| - 1];
      TraverseAll(f, init);
      assert forall i :: 0 <= i < |init| ==> init[i] == xs[i];
      if Traverse(f, init).Err? {
        var j :| 0 <= j < |init| && f(init[j]).Err?;
        assert f(xs[j]).Err?;
      }
    }
  }

  /** Once a prefix has failed, the rest of the loop does not run. */
  lemma {:induction false} TraverseFirstError<T, U>(f: T -> Result<U>, xs: seq<T>, j: nat)
    requires j <= |xs| && Traverse(f, xs[..j]).Err?
    ensures Traverse(f, xs) == Traverse(f, xs[..j])
    decreases |xs|
  {
    if j < |xs| {
      assert xs[..|xs| - 1][..j] == xs[..j];
      TraverseFirstError(f, xs[..|xs| - 1], j);
    } else {
      assert xs[..j] == xs;
    }
  }
}
