/**
  Values shared by every part of the model: optional values, the outcome of a
  Ruby call that may raise, and the Ruby values that knife config hashes and
  constructor attribute hashes hold.
*/
module Basics {

  datatype Option<+T> = None | Some(value: T)

  /** The outcome of a Ruby call: a value, or an exception that propagates with its message. */
  datatype Result<+T> = Ok(value: T) | Raised(message: string)

  /** A Ruby value as a knife `config` hash or an attribute hash holds it. */
  datatype Value = Nil | Flag(b: bool) | Str(s: string) | List(items: seq<string>)

  /** `hash[key]`: nil when the key is missing. */
  function Get(m: map<string, Value>, k: string): Value
  {
    if k in m then m[k] else Nil
  }

  /** Ruby truthiness: everything except nil and false. */
  predicate Truthy(v: Value)
  {
    !(v.Nil? || v == Flag(false))
  }

  /** `a.join(sep)` */
  function Join(xs: seq<string>, sep: string): string
  {
    if xs == [] then "" else if |xs| == 1 then xs[0] else xs[0] + sep + Join(xs[1..], sep)
  }

  /** `"#{v}"`: string interpolation of a value (an array is shown as its `inspect` form, without escaping). */
  function ToS(v: Value): string
  {
    match v
    case Nil => ""
    case Flag(b) => if b then "true" else "false"
    case Str(s) => s
    case List(items) => "[" + Join(Quoted(items), ", ") + "]"
  }

  function Quoted(xs: seq<string>): seq<string>
  {
    seq(|xs|, i requires 0 <= i < |xs| => "\"" + xs[i] + "\"")
  }

  /** The elements of `xs` that are not in `keep`, in order (`xs.select { |x| !keep.include?(x) }`). */
  function Outside(xs: seq<string>, keep: set<string>): (r: seq<string>)
    ensures forall x :: x in r <==> x in xs && x !in keep
    ensures r == [] <==> forall x :: x in xs ==> x in keep
  {
    if xs == [] then []
    else Outside(xs[..|xs| - 1], keep) + (if xs[|xs| - 1] in keep then [] else [xs[|xs| - 1]])
  }

  /** A single element is kept exactly when it is not in `keep`. */
  lemma OutsideSingle(x: string, keep: set<string>)
    ensures Outside([x], keep) == if x in keep then [] else [x]
  {
    assert [x][..0] == [];
  }

  /** Appending one element appends it to the result exactly when it is rejected. */
  lemma OutsideSnoc(xs: seq<string>, x: string, keep: set<string>)
    ensures Outside(xs + [x], keep) == Outside(xs, keep) + (if x in keep then [] else [x])
  {
    assert (xs + [x])[..|xs|] == xs;
  }

  /** Filtering distributes over concatenation: order and repetitions of the
      rejected elements are those of `xs`. */
  lemma {:induction false} OutsideAppend(a: seq<string>, b: seq<string>, keep: set<string>)
    ensures Outside(a + b, keep) == Outside(a, keep) + Outside(b, keep)
  {
    if b == [] {
      assert a + b == a;
    } else {
      var init, x := b[..|b| - 1], b[|b| - 1];
      var last := if x in keep then [] else [x];
      assert b == init + [x];
      OutsideAppend(a, init, keep);
      ConcatAssoc(a, init, [x]);
      OutsideSnoc(a + init, x, keep);
      OutsideSnoc(init, x, keep);
      ConcatAssoc(Outside(a, keep), Outside(init, keep), last);
    }
  }

  lemma ConcatAssoc<T>(p: seq<T>, q: seq<T>, r: seq<T>)
    ensures p + (q + r) == (p + q) + r
  {
  }

  predicate IsDigit(c: char)
  {
    '0' <= c <= '9'
  }

  predicate AllDigits(s: string)
  {
    forall i :: 0 <= i < |s| ==> IsDigit(s[i])
  }

  predicate EndsWithDot(s: string)
  {
    |s| > 0 && s[|s| - 1] == '.'
  }
}
