/** Shared value types. */
module Prelude {

  datatype Option<+T> = None | Some(value: T)

  /** Position of a message on the chain. Only the order of two keys is ever used. */
  type ChainOrder = int

  /** A chain timestamp in seconds. */
  type Seconds = int

  /** SQL `coalesce(a, b)`. */
  function Coalesce<T>(a: Option<T>, b: Option<T>): Option<T> {
    if a.Some? then a else b
  }

  /** SQL `greatest(a, b)` on keys that are never null. */
  function Greatest(a: int, b: int): int {
    if a < b then b else a
  }

  /** SQL `greatest(a, b)` on nullable values: nulls are ignored. */
  function GreatestOpt(a: Option<int>, b: Option<int>): Option<int> {
    match (a, b)
    case (Some(x), Some(y)) => Some(Greatest(x, y))
    case (Some(_), None) => a
    case (None, _) => b
  }

  /** Taking one element out of a sequence takes one occurrence out of its multiset. */
  lemma MultisetRemove<T>(s: seq<T>, i: nat)
    requires i < |s|
    ensures multiset(s[..i] + s[i + 1..]) == multiset(s) - multiset{s[i]}
  {
    assert s == s[..i] + [s[i]] + s[i + 1..];
  }

  lemma MultisetTail<T>(a: seq<T>)
    requires a != []
    ensures multiset(a[1..]) == multiset(a) - multiset{a[0]}
  {
    assert a == [a[0]] + a[1..];
  }

  /** The first of a non-empty sequence can be taken out of any rearrangement of it. */
  lemma TakeOut<T>(a: seq<T>, b: seq<T>) returns (i: nat)
    requires multiset(a) == multiset(b) && a != []
    ensures i < |b| && b[i] == a[0]
    ensures multiset(a[1..]) == multiset(b[..i] + b[i + 1..])
  {
    i := Position(a[0], b) by {
      assert a[0] in multiset(b);
    }
    MultisetTail(a);
    MultisetRemove(b, i);
  }

  lemma Position<T>(x: T, s: seq<T>) returns (i: nat)
    requires x in s
    ensures i < |s| && s[i] == x
  {
    i :| 0 <= i < |s| && s[i] == x;
  }

  /** No element occurs twice. */
  predicate Distinct<T(==)>(s: seq<T>) {
    forall i, j :: 0 <= i < j < |s| ==> s[i] != s[j]
  }

  /** A subset has no more elements than the whole. */
  lemma {:induction false} SubsetSize<T>(a: set<T>, b: set<T>)
    requires a <= b
    ensures |a| <= |b|
  {
    if a != {} {
      var x :| x in a;
      SubsetSize(a - {x}, b - {x});
    }
  }

  /** A non-empty set has an element of least measure. */
  lemma {:induction false} LeastBy<T>(s: set<T>, measure: T -> int) returns (x: T)
    requires s != {}
    ensures x in s && forall y :: y in s ==> measure(x) <= measure(y)
  {
    x :| x in s;
    if s != {x} {
      var y := LeastBy(s - {x}, measure);
      assert s == (s - {x}) + {x};
      if measure(y) < measure(x) {
        x := y;
      }
    }
  }
}
