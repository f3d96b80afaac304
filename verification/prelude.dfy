/** Small vocabulary shared by every module of the model. */
module Prelude {

  /** A nullable column or pointer. */
  datatype Option<+T> = None | Some(value: T)

  /** A Go `(value, error)` pair: exactly one side is meaningful. */
  datatype Result<+T, +E> = Ok(value: T) | Err(error: E)

  function Min(a: int, b: int): int {
    if a <= b then a else b
  }

  function Max(a: int, b: int): int {
    if a >= b then a else b
  }

  /** Some element of a non-empty set. */
  ghost function Pick<T>(s: set<T>): (x: T)
    requires s != {}
    ensures x in s
  {
    var x :| x in s; x
  }

  lemma AtMostOne<T>(s: set<T>)
    requires forall x, y :: x in s && y in s ==> x == y
    ensures |s| <= 1
  {
    if s != {} {
      assert s == {Pick(s)};
    }
  }

  lemma {:induction false} SubsetSize<T>(a: set<T>, b: set<T>)
    requires a <= b
    ensures |a| <= |b| && (|a| == |b| ==> a == b)
    decreases |a|
  {
    if a != {} {
      var x := Pick(a);
      SubsetSize(a - {x}, b - {x});
      assert a == (a - {x}) + {x} && b == (b - {x}) + {x};
    }
  }

  function Elements<T>(s: seq<T>): set<T> {
    set x | x in s
  }

  ghost predicate Distinct<T>(s: seq<T>) {
    forall i, j :: 0 <= i < j < |s| ==> s[i] != s[j]
  }

  lemma TakeNext<T>(s: seq<T>, i: nat)
    requires i < |s| && Distinct(s)
    ensures Elements(s[..i + 1]) == Elements(s[..i]) + {s[i]} && s[i] !in Elements(s[..i])
  {
  }

  lemma {:induction false} DistinctSize<T>(s: seq<T>, i: nat)
    requires i <= |s| && Distinct(s)
    ensures |Elements(s[..i])| == i
    decreases i
  {
    if i > 0 {
      DistinctSize(s, i - 1);
      TakeNext(s, i - 1);
    }
  }

  /** The elements of a set in some order: the rows of a query, or the keys of a Go map. */
  method Collect<T(==)>(rows: set<T>) returns (out: seq<T>)
    ensures Distinct(out) && Elements(out) == rows && |out| == |rows|
  {
    out := [];
    var rest := rows;
    while rest != {}
      invariant rest !! Elements(out) && rest + Elements(out) == rows
      invariant Distinct(out) && |out| + |rest| == |rows|
      decreases |rest|
    {
      ghost var some := Pick(rest);
      var x :| x in rest;
      assert Elements(out + [x]) == Elements(out) + {x};
      out := out + [x];
      rest := rest - {x};
    }
  }
}
