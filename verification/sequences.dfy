/** Generic sequence notions used to state the order properties of the model. */
module Sequences {

  /** `xs` with every occurrence of `x` removed, the rest in order. */
  function Without<T(==)>(xs: seq<T>, x: T): (r: seq<T>)
    ensures |r| <= |xs|
    decreases |xs|
  {
    if xs == [] then []
    else (if xs[0] == x then [] else [xs[0]]) + Without(xs[1..], x)
  }

  /** The first occurrence of every element of `xs`, in the order of first appearance. */
  function Dedup<T(==)>(xs: seq<T>): seq<T>
    decreases |xs|
  {
    if xs == [] then [] else [xs[0]] + Dedup(Without(xs[1..], xs[0]))
  }

  /** No element occurs twice. */
  predicate Distinct<T(==)>(xs: seq<T>) {
    forall i, j :: 0 <= i < j < |xs| ==> xs[i] != xs[j]
  }

  /** `a` is obtained from `b` by deleting elements, keeping the order of the rest. */
  predicate Subseq<T(==)>(a: seq<T>, b: seq<T>)
    decreases |b|
  {
    if a == [] then true
    else if b == [] then false
    else (a[0] == b[0] && Subseq(a[1..], b[1..])) || Subseq(a, b[1..])
  }

  lemma {:induction false} WithoutSnoc<T>(xs: seq<T>, x: T, y: T)
    ensures Without(xs + [y], x) == Without(xs, x) + (if y == x then [] else [y])
    decreases |xs|
  {
    if xs == [] {
      assert [y][1..] == [];
    } else {
      assert (xs + [y])[1..] == xs[1..] + [y];
      WithoutSnoc(xs[1..], x, y);
    }
  }

  lemma {:induction false} WithoutMembers<T>(xs: seq<T>, x: T)
    ensures forall y :: y in Without(xs, x) <==> y in xs && y != x
    decreases |xs|
  {
    if xs != [] {
      WithoutMembers(xs[1..], x);
      assert xs == [xs[0]] + xs[1..];
    }
  }

  /** Dedup keeps exactly the elements of its input. */
  lemma {:induction false} DedupMembers<T>(xs: seq<T>)
    ensures forall y :: y in Dedup(xs) <==> y in xs
    decreases |xs|
  {
    if xs != [] {
      DedupMembers(Without(xs[1..], xs[0]));
      WithoutMembers(xs[1..], xs[0]);
      assert xs == [xs[0]] + xs[1..];
    }
  }

  /** Dedup never repeats an element. */
  lemma {:induction false} DedupDistinct<T>(xs: seq<T>)
    ensures Distinct(Dedup(xs))
    decreases |xs|
  {
    if xs != [] {
      var rest := Without(xs[1..], xs[0]);
      DedupDistinct(rest);
      DedupMembers(rest);
      WithoutMembers(xs[1..], xs[0]);
      var d := Dedup(xs);
      assert d == [xs[0]] + Dedup(rest);
      forall i, j | 0 <= i < j < |d| ensures d[i] != d[j] {
        if i == 0 {
          assert d[j] in Dedup(rest);
        } else {
          assert d[i] == Dedup(rest)[i - 1] && d[j] == Dedup(rest)[j - 1];
        }
      }
    }
  }

  /** Appending an element adds it at the end unless it was already present. */
  lemma {:induction false} DedupSnoc<T>(xs: seq<T>, x: T)
    ensures Dedup(xs + [x]) == if x in xs then Dedup(xs) else Dedup(xs) + [x]
    decreases |xs|
  {
    if xs == [] {
      assert Dedup([x]) == [x] + Dedup(Without([], x));
    } else {
      var h := xs[0];
      assert (xs + [x])[0] == h;
      assert (xs + [x])[1..] == xs[1..] + [x];
      WithoutSnoc(xs[1..], h, x);
      var rest := Without(xs[1..], h);
      if x == h {
        assert rest + [] == rest;
      } else {
        DedupSnoc(rest, x);
        WithoutMembers(xs[1..], h);
        assert xs == [h] + xs[1..];
        assert x in rest <==> x in xs;
      }
    }
  }

  /** Subsequence is preserved by putting the same element in front of both sides. */
  lemma SubseqCons<T>(x: T, a: seq<T>, b: seq<T>)
    requires Subseq(a, b)
    ensures Subseq([x] + a, [x] + b)
  {
    assert ([x] + a)[1..] == a && ([x] + b)[1..] == b;
  }

  /** Subsequence is preserved by putting elements in front of the larger side. */
  lemma {:induction false} SubseqPrepend<T>(p: seq<T>, a: seq<T>, b: seq<T>)
    requires Subseq(a, b)
    ensures Subseq(a, p + b)
    decreases |p|
  {
    if p != [] {
      SubseqPrepend(p[1..], a, b);
      assert (p + b)[1..] == p[1..] + b;
      assert Subseq(a, (p + b)[1..]);
    } else {
      assert p + b == b;
    }
  }

  /** Subsequences concatenate. */
  lemma {:induction false} SubseqConcat<T>(a1: seq<T>, b1: seq<T>, a2: seq<T>, b2: seq<T>)
    requires Subseq(a1, b1) && Subseq(a2, b2)
    ensures Subseq(a1 + a2, b1 + b2)
    decreases |b1|
  {
    if a1 == [] {
      SubseqPrepend(b1, a2, b2);
      assert a1 + a2 == a2;
    } else {
      assert b1 != [];
      assert (b1 + b2)[1..] == b1[1..] + b2;
      if a1[0] == b1[0] && Subseq(a1[1..], b1[1..]) {
        SubseqConcat(a1[1..], b1[1..], a2, b2);
        assert (a1 + a2)[1..] == a1[1..] + a2;
      } else {
        SubseqConcat(a1, b1[1..], a2, b2);
      }
    }
  }
}
