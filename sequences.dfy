/** Facts about taking a sequence apart at its head, used by the inductions of the model. */
module Sequences {

  /** The head and tail of a concatenation whose left part is non-empty. */
  lemma ConsAppend<T>(a: seq<T>, b: seq<T>)
    requires a != []
    ensures a + b != [] && (a + b)[0] == a[0] && (a + b)[1..] == a[1..] + b
  {
  }

  /** A sequence of two or more elements is its first element, its second, and the rest. */
  lemma TwoHeads<T>(s: seq<T>)
    requires |s| >= 2
    ensures s == s[..1] + [s[1]] + s[2..]
  {
  }

  /** A sequence of three or more elements is its first element, its second, its third, and the rest. */
  lemma ThreeHeads<T>(s: seq<T>)
    requires |s| >= 3
    ensures s == s[..1] + s[1..2] + [s[2]] + s[3..]
  {
  }

  /** A non-empty sequence holds its head once more than its tail does. */
  lemma MultisetCons<T>(s: seq<T>)
    requires s != []
    ensures multiset(s) == multiset(s[1..]) + multiset{s[0]}
  {
    assert s == [s[0]] + s[1..];
  }

  /** Each element's image under `f`, concatenated in order. */
  function FlatMap<T, U>(f: T -> seq<U>, s: seq<T>): (r: seq<U>)
    ensures s == [] ==> r == []
    ensures |s| == 1 ==> r == f(s[0])
  {
    if s == [] then [] else f(s[0]) + FlatMap(f, s[1..])
  }

  /** Flat-mapping a concatenation concatenates the two flat maps. */
  lemma {:induction false} FlatMapAppend<T, U>(f: T -> seq<U>, a: seq<T>, b: seq<T>)
    ensures FlatMap(f, a + b) == FlatMap(f, a) + FlatMap(f, b)
  {
    if a == [] {
      assert a + b == b;
    } else {
      FlatMapAppend(f, a[1..], b);
      ConsAppend(a, b);
    }
  }
}
