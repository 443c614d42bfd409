/**
 * JSON values as the extension stores and reads them, with the JavaScript operators the
 * source applies to them: truthiness, `||`, `Math.round`, and `Array.prototype.slice`.
 */
module JsValue {
  import opened Wrappers

  /** A scalar JSON value. `Num` is exact; NaN and the infinities do not arise in stored data. */
  datatype Value = Null | Bool(b: bool) | Num(x: real) | Str(s: string)

  /** A JavaScript object with scalar fields: a key that is absent reads as `undefined`. */
  type Object = map<string, Value>

  predicate Truthy(v: Value) {
    match v
    case Null => false
    case Bool(b) => b
    case Num(x) => x != 0.0
    case Str(s) => s != ""
  }

  /** Reading `o.k`: `None` stands for `undefined`. */
  function Field(o: Object, k: string): (r: Option<Value>)
    ensures r.Some? <==> k in o
    ensures k in o ==> r.value == o[k]
  {
    if k in o then Some(o[k]) else None
  }

  /** Truthiness of a possibly `undefined` value. */
  predicate TruthyField(v: Option<Value>) {
    v.Some? && Truthy(v.value)
  }

  /**
   * `v || d`: a truthy `v` itself, otherwise the default. In a test the result is truthy
   * exactly when one of the two operands is.
   */
  function OrElse(v: Option<Value>, d: Value): (r: Value)
    ensures TruthyField(v) ==> r == v.value
    ensures !TruthyField(v) ==> r == d
    ensures Truthy(r) <==> TruthyField(v) || Truthy(d)
  {
    if TruthyField(v) then v.value else d
  }

  /**
   * Storing `{...o, k: v}`: an `undefined` value is dropped when the object is serialised
   * into storage, so the key ends up absent.
   */
  function Put(o: Object, k: string, v: Option<Value>): (r: Object)
    ensures v.Some? ==> k in r && r[k] == v.value
    ensures v.None? ==> k !in r
    ensures forall j :: j != k ==> (j in r <==> j in o) && (j in r ==> r[j] == o[j])
  {
    if v.Some? then o[k := v.value] else o - {k}
  }

  /** `Math.round(x)`: the nearest integer, halves rounded up. */
  function Round(x: real): (r: int)
    ensures x - 0.5 < r as real <= x + 0.5
  {
    (x + 0.5).Floor
  }

  /** Dividing by a positive number keeps bounds: `lo * d <= a <= hi * d` gives `lo <= a / d <= hi`. */
  lemma DivideBounds(a: real, d: real, lo: real, hi: real)
    requires d > 0.0 && lo * d <= a <= hi * d
    ensures lo <= a / d <= hi
  {
    assert (a / d) * d == a;
  }

  /** A share `a / b` of naturals lies in [0, 1] and is 1 exactly when the two are equal. */
  lemma Ratio(a: nat, b: nat)
    requires a <= b && b > 0
    ensures 0.0 <= a as real / b as real <= 1.0
    ensures a as real / b as real == 1.0 <==> a == b
  {
    DivideBounds(a as real, b as real, 0.0, 1.0);
    var q := a as real / b as real;
    assert q * b as real == a as real;
    if a == b {
      assert (q - 1.0) * b as real == 0.0;
    }
  }

  /** `ToIntegerOrInfinity` on a finite number: truncation toward zero. */
  function Trunc(x: real): (r: int)
    ensures 0.0 <= x ==> r == x.Floor
    ensures x < 0.0 ==> r == -((-x).Floor)
  {
    if x >= 0.0 then x.Floor else -((-x).Floor)
  }

  /**
   * `ToNumber` of a possibly `undefined` value; `None` stands for NaN. A non-empty string
   * is taken as not numeric.
   */
  function ToNumber(v: Option<Value>): Option<real> {
    match v
    case None => None
    case Some(Null) => Some(0.0)
    case Some(Bool(b)) => Some(if b then 1.0 else 0.0)
    case Some(Num(x)) => Some(x)
    case Some(Str(s)) => if s == "" then Some(0.0) else None
  }

  /**
   * `s.slice(start)`: always a suffix of `s`. A negative start keeps the last `-start` elements
   * (all of them when there are fewer); a non-negative one drops the first `start`.
   */
  function SliceFrom<T>(s: seq<T>, start: int): (r: seq<T>)
    ensures |r| <= |s| && r == s[|s| - |r|..]
    ensures start < 0 ==> |r| == (if -start < |s| then -start else |s|)
    ensures 0 <= start ==> |r| == (if start < |s| then |s| - start else 0)
  {
    var from := if start < 0 then (if |s| + start < 0 then 0 else |s| + start)
                else (if start > |s| then |s| else start);
    s[from..]
  }

  /** `s.slice(0, n)`, and what popping from the back while longer than `n` leaves: a prefix of at most `n`. */
  function Take<T>(s: seq<T>, n: nat): (r: seq<T>)
    ensures |r| == (if n < |s| then n else |s|)
    ensures r == s[..|r|]
  {
    if n < |s| then s[..n] else s
  }

  /** `s.reverse()` on a copy: the element `i` places from the end lands at index `i`. */
  function Reverse<T>(s: seq<T>): (r: seq<T>)
    ensures |r| == |s|
    ensures forall i :: 0 <= i < |s| ==> r[i] == s[|s| - 1 - i]
  {
    if s == [] then [] else [s[|s| - 1]] + Reverse(s[..|s| - 1])
  }

  /** `s.map(f)`: one result per element, the result at `i` computed from the element at `i`. */
  function MapSeq<A, B>(f: A -> B, s: seq<A>): (r: seq<B>)
    ensures |r| == |s|
    ensures forall i :: 0 <= i < |s| ==> r[i] == f(s[i])
  {
    if s == [] then [] else MapSeq(f, s[..|s| - 1]) + [f(s[|s| - 1])]
  }
}
