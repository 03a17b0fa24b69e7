/** Values and sequence operations shared by the models. */
module Prelude {

  datatype Option<+T> = None | Some(value: T)

  datatype Result<+T, +E> = Success(value: T) | Failure(error: E)

  /** The greatest integer a number of the host language holds exactly. */
  const MAX_SAFE_INTEGER := 9007199254740991

  function One(b: bool): (n: nat)
  {
    if b then 1 else 0
  }

  /** A string that is present and not empty. */
  predicate IsTruthy(s: Option<string>)
  {
    s.Some? && s.value != ""
  }

  lemma AppendAssociative<T>(a: seq<T>, b: seq<T>, c: seq<T>)
    ensures a + (b + c) == a + b + c
  {
  }

  function Flatten<T>(parts: seq<seq<T>>): (all: seq<T>)
  {
    if parts == [] then [] else parts[0] + Flatten(parts[1..])
  }

  lemma {:induction false} FlattenAppend<T>(left: seq<seq<T>>, right: seq<seq<T>>)
    ensures Flatten(left + right) == Flatten(left) + Flatten(right)
  {
    if left == [] {
      assert left + right == right;
    } else {
      FlattenAppend(left[1..], right);
      assert (left + right)[0] == left[0] && (left + right)[1..] == left[1..] + right;
      AppendAssociative(left[0], Flatten(left[1..]), Flatten(right));
    }
  }

  lemma FlattenSingle<T>(part: seq<T>)
    ensures Flatten([part]) == part
  {
    assert [part][1..] == [];
  }

  lemma FlattenSnoc<T>(parts: seq<seq<T>>, part: seq<T>)
    ensures Flatten(parts + [part]) == Flatten(parts) + part
  {
    FlattenAppend(parts, [part]);
    FlattenSingle(part);
  }

  function FlatMap<A, B>(xs: seq<A>, f: A -> seq<B>): (ys: seq<B>)
  {
    if xs == [] then [] else f(xs[0]) + FlatMap(xs[1..], f)
  }

  lemma EmptyFlatMap<A, B>(xs: seq<A>, f: A -> seq<B>)
    requires xs == []
    ensures FlatMap(xs, f) == []
  {
  }

  lemma {:induction false} FlatMapAppend<A, B>(left: seq<A>, right: seq<A>, f: A -> seq<B>)
    ensures FlatMap(left + right, f) == FlatMap(left, f) + FlatMap(right, f)
  {
    if left == [] {
      assert left + right == right;
    } else {
      FlatMapAppend(left[1..], right, f);
      assert (left + right)[0] == left[0] && (left + right)[1..] == left[1..] + right;
      AppendAssociative(f(left[0]), FlatMap(left[1..], f), FlatMap(right, f));
    }
  }

  /** Extending a processed prefix by one element, as a `for` loop does. */
  lemma FlatMapNext<A, B>(xs: seq<A>, i: nat, f: A -> seq<B>)
    requires i < |xs|
    ensures FlatMap(xs[..i + 1], f) == FlatMap(xs[..i], f) + f(xs[i])
  {
    FlatMapAppend(xs[..i], [xs[i]], f);
    assert xs[..i + 1] == xs[..i] + [xs[i]];
    assert [xs[i]][1..] == [];
  }

  lemma {:induction false} FlatMapMember<A, B>(xs: seq<A>, f: A -> seq<B>, y: B)
    ensures y in FlatMap(xs, f) <==> exists i :: 0 <= i < |xs| && y in f(xs[i])
  {
    if xs != [] {
      FlatMapMember(xs[1..], f, y);
      if y in FlatMap(xs[1..], f) {
        var i :| 0 <= i < |xs[1..]| && y in f(xs[1..][i]);
        assert y in f(xs[i + 1]);
      }
      if i :| 0 <= i < |xs| && y in f(xs[i]) {
        if i > 0 {
          assert xs[1..][i - 1] == xs[i];
        }
      }
    }
  }

  function Repeat<T>(x: T, n: nat): (xs: seq<T>)
    ensures |xs| == n && forall i :: 0 <= i < n ==> xs[i] == x
  {
    if n == 0 then [] else Repeat(x, n - 1) + [x]
  }

  /** The distinct values in order of first occurrence, as a `Set` iterates. */
  function Distinct<T(==, !new)>(xs: seq<T>): (ys: seq<T>)
    ensures forall x :: x in ys <==> x in xs
    ensures forall i, j :: 0 <= i < j < |ys| ==> ys[i] != ys[j]
  {
    if xs == [] then []
    else
      var n := |xs| - 1;
      var ys := Distinct(xs[..n]);
      assert xs == xs[..n] + [xs[n]];
      if xs[n] in ys then ys else ys + [xs[n]]
  }
}
