/**
 * The slice of JavaScript the core relies on: its values, truthiness,
 * loose equality with null, property reads and writes, and the decimal
 * form a number takes when it is used as an object key.
 */
module Js {

  datatype Option<+T> = None | Some(value: T)

  /** A settled promise or a completed call: a value, or the error it threw. */
  datatype Result<+T> = Ok(value: T) | Err(error: string)

  /** The message of every `TypeError` the modelled code can throw
      (reading a property of `null`/`undefined`, calling a missing `push`). */
  const TypeError := "TypeError"

  /** JavaScript values. Numbers are integers: nothing in the core does
      arithmetic beyond comparisons and `length`. */
  datatype Value =
    | Undefined
    | Null
    | Bool(b: bool)
    | Num(n: int)
    | Str(s: string)
    | Array(elems: seq<Value>)
    | Object(fields: map<string, Value>)

  /** `!!v`: the test behind `if (v)`, `!v` and `v || w`. */
  predicate Truthy(v: Value) {
    match v
    case Undefined | Null => false
    case Bool(b) => b
    case Num(n) => n != 0
    case Str(s) => s != ""
    case Array(_) | Object(_) => true
  }

  /** `v == null`: loose equality with null holds for null and undefined only. */
  predicate Nullish(v: Value) {
    v.Undefined? || v.Null?
  }

  /** Who the router acts for (`this.userId`): absent, null, or a string id. */
  datatype UserId = UndefinedUser | NullUser | User(id: string)

  /** `"" + userId`: the text a user id contributes to a string concatenation. */
  function UserText(u: UserId): string {
    match u
    case UndefinedUser => "undefined"
    case NullUser => "null"
    case User(s) => s
  }

  /** `userId == undefined`, which also holds for null. */
  predicate LooselyUndefined(u: UserId) {
    u.UndefinedUser? || u.NullUser?
  }

  /** A property key: a name, or an integer index as the router hands it over. */
  datatype Key = Name(name: string) | Index(index: int)

  function Digit(d: int): (c: char)
    requires 0 <= d < 10
    ensures '0' <= c <= '9'
  {
    ('0' as int + d) as char
  }

  /** The decimal digits of a natural number, most significant first. */
  function Digits(n: nat): (s: string)
    ensures |s| >= 1
    ensures n < 10 <==> |s| == 1
    ensures forall i :: 0 <= i < |s| ==> '0' <= s[i] <= '9'
  {
    if n < 10 then [Digit(n)] else Digits(n / 10) + [Digit(n % 10)]
  }

  /** `String(n)` for an integer `n`. */
  function Decimal(n: int): string {
    if n < 0 then "-" + Digits(-n) else Digits(n)
  }

  lemma {:induction false} DigitsInjective(a: nat, b: nat)
    requires Digits(a) == Digits(b)
    ensures a == b
  {
    if a >= 10 && b >= 10 {
      var sa, sb := Digits(a), Digits(b);
      assert sa[|sa| - 1] == Digit(a % 10) && sb[|sb| - 1] == Digit(b % 10);
      assert Digits(a / 10) == sa[..|sa| - 1];
      assert Digits(b / 10) == sb[..|sb| - 1];
      DigitsInjective(a / 10, b / 10);
    }
  }

  /** Only negative numbers print with a leading minus sign. */
  lemma DecimalSign(n: int)
    ensures |Decimal(n)| >= 1 && (Decimal(n)[0] == '-' <==> n < 0)
  {
  }

  /** Distinct integers give distinct object keys. */
  lemma DecimalInjective(a: int, b: int)
    requires Decimal(a) == Decimal(b)
    ensures a == b
  {
    DecimalSign(a);
    DecimalSign(b);
    if a < 0 && b < 0 {
      assert Digits(-a) == Decimal(a)[1..];
      DigitsInjective(-a, -b);
    } else if a >= 0 && b >= 0 {
      DigitsInjective(a, b);
    }
  }

  /** The object key a path key stands for. */
  function KeyText(k: Key): string {
    match k
    case Name(s) => s
    case Index(i) => Decimal(i)
  }

  /** The property read `v[k]`: a `TypeError` on null and undefined,
      `undefined` for a missing property. Arrays answer integer indices and
      `length` (numeric strings used as array indices are not modelled);
      strings answer `length` only. */
  function Get(v: Value, k: Key): (r: Result<Value>)
    ensures r.Err? <==> Nullish(v)
    ensures r.Ok? && v.Object? ==> r.value == Lookup(v.fields, KeyText(k), Undefined)
  {
    match v
    case Undefined | Null => Err(TypeError)
    case Array(es) =>
      Ok(match k
         case Index(i) => if 0 <= i < |es| then es[i] else Undefined
         case Name(s) => if s == "length" then Num(|es|) else Undefined)
    case Str(s) => Ok(if k == Name("length") then Num(|s|) else Undefined)
    case Object(f) => Ok(Lookup(f, KeyText(k), Undefined))
    case _ => Ok(Undefined)
  }

  /** Whether the assignment `v[k] = x` lands on an existing slot of `v`. */
  predicate Writable(v: Value, k: Key) {
    v.Object? || (v.Array? && k.Index? && 0 <= k.index < |v.elems|)
  }

  /** The value `v` becomes after `v[k] = x`. */
  function Put(v: Value, k: Key, x: Value): (r: Value)
    requires Writable(v, k)
    ensures Get(r, k) == Ok(x)
    ensures forall k' :: KeyText(k') != KeyText(k) ==> Get(r, k') == Get(v, k')
  {
    match v
    case Object(f) => Object(f[KeyText(k) := x])
    case Array(es) => Array(es[k.index := x])
  }

  /** `m[k]`, or `absent` when `k` is not a key of `m`. */
  function Lookup<K, V>(m: map<K, V>, k: K, absent: V): V {
    if k in m then m[k] else absent
  }

  /** `m[k]` where a missing key reads as `undefined`: `None`. */
  function Find<K, V>(m: map<K, V>, k: K): (r: Option<V>)
    ensures r.Some? <==> k in m
  {
    if k in m then Some(m[k]) else None
  }

  /** The elements of a sequence, as a set. */
  function Elems<T>(s: seq<T>): set<T> {
    set x | x in s
  }
}
