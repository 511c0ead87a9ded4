/** Small vocabulary shared by the modules of the model. */
module Prelude {

  datatype Option<+T> = None | Some(value: T)

  datatype Result<+T, +E> = Ok(value: T) | Err(error: E) {
    predicate IsFailure() {
      Err?
    }

    function PropagateFailure<U>(): Result<U, E>
      requires Err?
    {
      Err(error)
    }

    function Extract(): T
      requires Ok?
    {
      value
    }
  }

  // The names that a lookup on a plain object finds though nothing was put under them: the
  // members of `Object.prototype`.
  const INHERITED_NAMES :=
    {"constructor", "hasOwnProperty", "isPrototypeOf", "propertyIsEnumerable", "toLocaleString", "toString", "valueOf",
     "__proto__", "__defineGetter__", "__defineSetter__", "__lookupGetter__", "__lookupSetter__"}

  function Map<A, B>(f: A -> B, xs: seq<A>): (r: seq<B>)
    ensures |r| == |xs| && forall k :: 0 <= k < |xs| ==> r[k] == f(xs[k])
  {
    seq(|xs|, k requires 0 <= k < |xs| => f(xs[k]))
  }

  function Max(a: int, b: int): (r: int)
    ensures r >= a && r >= b && (r == a || r == b)
  {
    if a >= b then a else b
  }

  function Min(a: int, b: int): (r: int)
    ensures r <= a && r <= b && (r == a || r == b)
  {
    if a <= b then a else b
  }

  /** The character `c` does not occur in `s`. */
  ghost predicate FreeOf(s: string, c: char) {
    forall k :: 0 <= k < |s| ==> s[k] != c
  }

  lemma LastSeparator(c: char, a: string, x: string)
    requires FreeOf(x, c)
    ensures (a + [c] + x)[|a|] == c
    ensures forall j :: |a| < j < |a| + 1 + |x| ==> (a + [c] + x)[j] != c
    ensures (a + [c] + x)[..|a|] == a && (a + [c] + x)[|a| + 1..] == x
  {
  }

  /** A text splits in one way at its last separator. */
  lemma SplitAtLast(c: char, a: string, x: string, b: string, y: string)
    requires FreeOf(x, c) && FreeOf(y, c) && a + [c] + x == b + [c] + y
    ensures a == b && x == y
  {
    LastSeparator(c, a, x);
    LastSeparator(c, b, y);
    assert |a| + 1 + |x| == |a + [c] + x| == |b + [c] + y| == |b| + 1 + |y|;
    assert |a| == |b|;
  }

  lemma Regroup<T>(a: seq<T>, b: seq<T>, c: seq<T>)
    ensures a + b + c == a + (b + c)
  {
  }
}
