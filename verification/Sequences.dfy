/** Mapping every element of a sequence to a sequence and joining the results. */
module Sequences {

  function Each<A, B>(f: A -> seq<B>, xs: seq<A>): seq<B> {
    if xs == [] then [] else f(xs[0]) + Each(f, xs[1..])
  }

  lemma Associative<B>(a: seq<B>, b: seq<B>, c: seq<B>)
    ensures a + (b + c) == a + b + c
  {
  }

  lemma {:induction false} EachConcat<A, B>(f: A -> seq<B>, xs: seq<A>, ys: seq<A>)
    ensures Each(f, xs + ys) == Each(f, xs) + Each(f, ys)
  {
    if xs == [] {
      assert xs + ys == ys;
    } else {
      EachConcat(f, xs[1..], ys);
      assert (xs + ys)[0] == xs[0] && (xs + ys)[1..] == xs[1..] + ys;
      Associative(f(xs[0]), Each(f, xs[1..]), Each(f, ys));
    }
  }

  lemma EachOne<A, B>(f: A -> seq<B>, x: A)
    ensures Each(f, [x]) == f(x)
  {
    assert [x][1..] == [];
  }

  /** One turn of a loop that appends `f(xs[i])`. */
  lemma EachStep<A, B>(f: A -> seq<B>, xs: seq<A>, i: nat, done: seq<B>)
    requires i < |xs|
    ensures done + Each(f, xs[i..]) == done + f(xs[i]) + Each(f, xs[i + 1..])
  {
    assert xs[i..][1..] == xs[i + 1..];
  }

  lemma {:induction false} EachFused<A, B, C>(f: A -> seq<B>, g: B -> seq<C>, h: A -> seq<C>, xs: seq<A>)
    requires forall x :: x in xs ==> Each(g, f(x)) == h(x)
    ensures Each(g, Each(f, xs)) == Each(h, xs)
  {
    if xs != [] {
      EachFused(f, g, h, xs[1..]);
      EachConcat(g, f(xs[0]), Each(f, xs[1..]));
    }
  }

  lemma {:induction false} EachNothing<A, B>(f: A -> seq<B>, xs: seq<A>)
    requires forall x :: x in xs ==> f(x) == []
    ensures Each(f, xs) == []
  {
    if xs != [] { EachNothing(f, xs[1..]); }
  }

  lemma {:induction false} EachNonempty<A, B>(f: A -> seq<B>, xs: seq<A>)
    ensures Each(f, xs) != [] <==> exists x :: x in xs && f(x) != []
  {
    if xs != [] {
      EachNonempty(f, xs[1..]);
      assert xs == [xs[0]] + xs[1..];
    }
  }

  /** What maps each element to one keeps length and order. */
  lemma {:induction false} EachSingle<A, B>(f: A -> seq<B>, xs: seq<A>)
    requires forall x :: x in xs ==> |f(x)| == 1
    ensures |Each(f, xs)| == |xs| && forall i :: 0 <= i < |xs| ==> Each(f, xs)[i] == f(xs[i])[0]
  {
    if xs != [] {
      EachSingle(f, xs[1..]);
      assert xs == [xs[0]] + xs[1..];
    }
  }

  lemma {:induction false} EachMember<A, B>(f: A -> seq<B>, xs: seq<A>, y: B)
    ensures y in Each(f, xs) <==> exists x :: x in xs && y in f(x)
  {
    if xs != [] {
      EachMember(f, xs[1..], y);
      assert xs == [xs[0]] + xs[1..];
    }
  }

  /** When one map yields at least as much as the other, the results agree exactly when they do on each element. */
  lemma {:induction false} EachAgrees<A, B>(f: A -> seq<B>, g: A -> seq<B>, xs: seq<A>)
    requires forall x :: x in xs ==> |f(x)| >= |g(x)|
    ensures |Each(f, xs)| >= |Each(g, xs)|
    ensures Each(f, xs) == Each(g, xs) <==> forall x :: x in xs ==> f(x) == g(x)
  {
    if xs != [] {
      var head, tail := xs[0], xs[1..];
      assert xs == [head] + tail;
      EachAgrees(f, g, tail);
      if Each(f, xs) == Each(g, xs) {
        assert |f(head)| == |g(head)|;
        assert f(head) == Each(f, xs)[..|f(head)|] == g(head);
        assert Each(f, tail) == Each(f, xs)[|f(head)|..] == Each(g, tail);
      }
    }
  }

  /** What maps everything to something keeps a list exactly when it keeps each element. */
  lemma {:induction false} EachKeepsIff<A>(f: A -> seq<A>, xs: seq<A>)
    requires forall x :: x in xs ==> f(x) != []
    ensures |Each(f, xs)| >= |xs|
    ensures Each(f, xs) == xs <==> forall x :: x in xs ==> f(x) == [x]
  {
    if xs != [] {
      var head, tail := xs[0], xs[1..];
      assert xs == [head] + tail;
      EachKeepsIff(f, tail);
      if Each(f, xs) == xs {
        assert |f(head)| == 1;
        assert f(head)[0] == xs[0];
        assert Each(f, tail) == xs[1..];
      }
    }
  }
}
