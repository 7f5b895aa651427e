/** Sequence helpers shared by the parser and the corpus pipeline. */
module Seqs {

  /** `r` is obtained from `s` by deleting elements; the order of the rest is kept. */
  predicate Subseq<T(==)>(r: seq<T>, s: seq<T>)
    decreases |s|
  {
    |r| == 0 || (|s| > 0 && ((r[0] == s[0] && Subseq(r[1..], s[1..])) || Subseq(r, s[1..])))
  }

  /** No element occurs twice. */
  predicate Distinct<T(==)>(xs: seq<T>) {
    forall i, j :: 0 <= i < j < |xs| ==> xs[i] != xs[j]
  }

  /** The elements of `s` satisfying `p`, in their original order (a list comprehension with an `if`). */
  function Filter<T(==)>(s: seq<T>, p: T -> bool): (r: seq<T>)
    ensures |r| <= |s|
    ensures forall x :: x in r ==> x in s && p(x)
    ensures forall i :: 0 <= i < |s| && p(s[i]) ==> s[i] in r
    ensures Subseq(r, s)
  {
    if |s| == 0 then []
    else if p(s[0]) then
      var rest := Filter(s[1..], p);
      assert ([s[0]] + rest)[1..] == rest;
      [s[0]] + rest
    else Filter(s[1..], p)
  }

  /** Filtering a sequence whose elements all pass gives it back. */
  lemma {:induction false} FilterKeepsAll<T>(s: seq<T>, p: T -> bool)
    requires forall i :: 0 <= i < |s| ==> p(s[i])
    ensures Filter(s, p) == s
  {
    if |s| > 0 {
      FilterKeepsAll(s[1..], p);
      assert [s[0]] + s[1..] == s;
    }
  }

  /** `xs` with every copy of `x` struck out. */
  function Without<T(==,!new)>(xs: seq<T>, x: T): (r: seq<T>)
    ensures |r| <= |xs|
    ensures forall y :: y in r <==> y in xs && y != x
  {
    if |xs| == 0 then []
    else if xs[0] == x then Without(xs[1..], x)
    else [xs[0]] + Without(xs[1..], x)
  }

  lemma {:induction false} WithoutSnoc<T(!new)>(xs: seq<T>, y: T, x: T)
    ensures Without(xs + [y], x) == Without(xs, x) + (if y == x then [] else [y])
  {
    if |xs| > 0 {
      assert (xs + [y])[1..] == xs[1..] + [y];
      WithoutSnoc(xs[1..], y, x);
    } else {
      assert xs + [y] == [y];
    }
  }

  /**
   * Reference definition of first-seen order: keep the first occurrence of
   * the head, strike all its later copies, and continue with the rest.
   */
  function Dedup<T(==,!new)>(xs: seq<T>): (r: seq<T>)
    ensures Distinct(r)
    ensures forall y :: y in r <==> y in xs
    decreases |xs|
  {
    if |xs| == 0 then []
    else
      var rest := Dedup(Without(xs[1..], xs[0]));
      assert xs[0] !in rest;
      [xs[0]] + rest
  }

  /**
   * Dedup seen from the other end: appending an element to the input appends
   * it to the output exactly when it has not been seen before.
   */
  lemma {:induction false} DedupSnoc<T(!new)>(xs: seq<T>, x: T)
    ensures Dedup(xs + [x]) == if x in xs then Dedup(xs) else Dedup(xs) + [x]
    decreases |xs|
  {
    if |xs| == 0 {
      assert xs + [x] == [x];
      assert Without([x][1..], x) == [];
    } else {
      var a := xs[0];
      assert (xs + [x])[0] == a;
      assert (xs + [x])[1..] == xs[1..] + [x];
      WithoutSnoc(xs[1..], x, a);
      var w := Without(xs[1..], a);
      assert Dedup(xs) == [a] + Dedup(w);
      if x == a {
        assert Without(xs[1..] + [x], a) == w;
        assert Dedup(xs + [x]) == [a] + Dedup(w);
      } else {
        assert Without(xs[1..] + [x], a) == w + [x];
        assert Dedup(xs + [x]) == [a] + Dedup(w + [x]);
        DedupSnoc(w, x);
        assert x in w <==> x in xs;
      }
    }
  }

  /** The concatenation of a sequence of sequences. */
  function Flatten<T(!new)>(ss: seq<seq<T>>): (r: seq<T>)
    ensures forall x :: x in r <==> exists i :: 0 <= i < |ss| && x in ss[i]
  {
    if |ss| == 0 then []
    else
      var init := Flatten(ss[..|ss| - 1]);
      assert forall i :: 0 <= i < |ss| - 1 ==> ss[..|ss| - 1][i] == ss[i];
      init + ss[|ss| - 1]
  }

  /** `f` applied to every element (a list comprehension). */
  function Map<A, B>(f: A -> B, s: seq<A>): (r: seq<B>)
    ensures |r| == |s|
    ensures forall i :: 0 <= i < |s| ==> r[i] == f(s[i])
  {
    seq(|s|, i requires 0 <= i < |s| => f(s[i]))
  }

  lemma MapSnoc<A, B>(f: A -> B, s: seq<A>, x: A)
    ensures Map(f, s + [x]) == Map(f, s) + [f(x)]
  {
    assert forall i :: 0 <= i < |s| ==> (s + [x])[i] == s[i];
  }

  /** Deleting from a sequence obtained by deleting is deleting. */
  lemma {:induction false} SubseqTrans<T>(a: seq<T>, b: seq<T>, c: seq<T>)
    requires Subseq(a, b) && Subseq(b, c)
    ensures Subseq(a, c)
    decreases |c|
  {
    if |a| > 0 {
      if Subseq(b, c[1..]) {
        SubseqTrans(a, b, c[1..]);
      } else if a[0] == b[0] && Subseq(a[1..], b[1..]) {
        SubseqTrans(a[1..], b[1..], c[1..]);
      } else {
        SubseqTrans(a, b[1..], c[1..]);
      }
    }
  }

  /** Mapping keeps the order of the kept elements. */
  lemma {:induction false} SubseqMap<A, B>(f: A -> B, r: seq<A>, s: seq<A>)
    requires Subseq(r, s)
    ensures Subseq(Map(f, r), Map(f, s))
    decreases |s|
  {
    if |r| > 0 {
      assert Map(f, s)[1..] == Map(f, s[1..]);
      if r[0] == s[0] && Subseq(r[1..], s[1..]) {
        assert Map(f, r)[1..] == Map(f, r[1..]);
        SubseqMap(f, r[1..], s[1..]);
      } else {
        SubseqMap(f, r, s[1..]);
      }
    }
  }

  /** Every sequence is a subsequence of itself. */
  lemma {:induction false} SubseqRefl<T>(s: seq<T>)
    ensures Subseq(s, s)
    decreases |s|
  {
    if |s| > 0 {
      SubseqRefl(s[1..]);
    }
  }

  /** Filtering commutes with mapping when the two tests agree through the map. */
  lemma {:induction false} FilterMap<A, B>(f: A -> B, s: seq<A>, p: A -> bool, q: B -> bool)
    requires forall i :: 0 <= i < |s| ==> p(s[i]) == q(f(s[i]))
    ensures Map(f, Filter(s, p)) == Filter(Map(f, s), q)
    decreases |s|
  {
    if |s| > 0 {
      assert Map(f, s)[0] == f(s[0]);
      assert Map(f, s)[1..] == Map(f, s[1..]);
      FilterMap(f, s[1..], p, q);
      if p(s[0]) {
        assert Map(f, [s[0]] + Filter(s[1..], p)) == [f(s[0])] + Map(f, Filter(s[1..], p));
      }
    }
  }

  /** The elements of a subsequence are elements of the whole. */
  lemma {:induction false} SubseqIn<T>(r: seq<T>, s: seq<T>, x: T)
    requires Subseq(r, s) && x in r
    ensures x in s
    decreases |s|
  {
    if r[0] == s[0] && Subseq(r[1..], s[1..]) {
      if x != r[0] {
        SubseqIn(r[1..], s[1..], x);
      }
    } else {
      SubseqIn(r, s[1..], x);
    }
  }

  /** A subsequence as long as the whole is the whole. */
  lemma {:induction false} SubseqFull<T>(r: seq<T>, s: seq<T>)
    requires Subseq(r, s) && |r| == |s|
    ensures r == s
    decreases |s|
  {
    if |r| > 0 {
      if r[0] == s[0] && Subseq(r[1..], s[1..]) {
        SubseqFull(r[1..], s[1..]);
        assert r == [r[0]] + r[1..];
        assert s == [s[0]] + s[1..];
      } else {
        SubseqShort(r, s[1..]);
      }
    }
  }

  /** A subsequence is no longer than the whole. */
  lemma {:induction false} SubseqShort<T>(r: seq<T>, s: seq<T>)
    requires Subseq(r, s)
    ensures |r| <= |s|
    decreases |s|
  {
    if |r| > 0 {
      if r[0] == s[0] && Subseq(r[1..], s[1..]) {
        SubseqShort(r[1..], s[1..]);
      } else {
        SubseqShort(r, s[1..]);
      }
    }
  }
}
