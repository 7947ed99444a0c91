// Subsequences: the order relation between what a stage passes on and what it was given.
module Seqs {

  /** `a` can be obtained from `b` by deleting elements. */
  ghost predicate Subseq<T>(a: seq<T>, b: seq<T>)
    decreases |b|
  {
    if a == [] then true
    else if b == [] then false
    else if a[|a| - 1] == b[|b| - 1] then Subseq(a[..|a| - 1], b[..|b| - 1])
    else Subseq(a, b[..|b| - 1])
  }

  lemma {:induction false} SubseqRefl<T>(a: seq<T>)
    ensures Subseq(a, a)
  {
    if a != [] {
      SubseqRefl(a[..|a| - 1]);
    }
  }

  /** Deleting the last element of the smaller side, or adding one to the larger side, keeps the relation. */
  lemma {:induction false} SubseqWeaken<T>(a: seq<T>, b: seq<T>, x: T)
    requires Subseq(a, b)
    ensures Subseq(a, b + [x])
    ensures a != [] ==> Subseq(a[..|a| - 1], b)
    decreases |b|
  {
    assert (b + [x])[..|b|] == b;
    if a != [] {
      var b0 := b[..|b| - 1];
      assert b == b0 + [b[|b| - 1]];
      if a[|a| - 1] == b[|b| - 1] {
        SubseqWeaken(a[..|a| - 1], b0, b[|b| - 1]);
      } else {
        SubseqWeaken(a, b0, b[|b| - 1]);
        SubseqWeaken(a[..|a| - 1], b0, b[|b| - 1]);
      }
    }
  }

  lemma {:induction false} SubseqSnoc<T>(a: seq<T>, b: seq<T>, x: T)
    requires Subseq(a, b)
    ensures Subseq(a + [x], b + [x])
  {
    assert (a + [x])[..|a|] == a && (b + [x])[..|b|] == b;
  }

  lemma {:induction false} SubseqTrans<T>(a: seq<T>, b: seq<T>, c: seq<T>)
    requires Subseq(a, b) && Subseq(b, c)
    ensures Subseq(a, c)
    decreases |c|
  {
    if a != [] && b != [] {
      var c0 := c[..|c| - 1];
      assert c == c0 + [c[|c| - 1]];
      if b[|b| - 1] == c[|c| - 1] {
        if a[|a| - 1] == b[|b| - 1] {
          SubseqTrans(a[..|a| - 1], b[..|b| - 1], c0);
        } else {
          SubseqTrans(a, b[..|b| - 1], c0);
        }
      } else {
        SubseqTrans(a, b, c0);
        SubseqWeaken(a, c0, c[|c| - 1]);
      }
    }
  }

  /** Deleting one element anywhere. */
  lemma {:induction false} SubseqDelete<T>(p: seq<T>, x: T, s: seq<T>)
    ensures Subseq(p + s, p + [x] + s)
    decreases |s|
  {
    if s == [] {
      SubseqRefl(p);
      SubseqWeaken(p, p, x);
      assert p + s == p && p + [x] + s == p + [x];
    } else {
      var s0 := s[..|s| - 1];
      SubseqDelete(p, x, s0);
      assert (p + s)[..|p + s| - 1] == p + s0;
      assert (p + [x] + s)[..|p + [x] + s| - 1] == p + [x] + s0;
    }
  }

  lemma {:induction false} SubseqPrefix<T>(a: seq<T>, s: seq<T>)
    ensures Subseq(a, a + s)
    decreases |s|
  {
    if s == [] {
      SubseqRefl(a);
      assert a + s == a;
    } else {
      var s0 := s[..|s| - 1];
      SubseqPrefix(a, s0);
      assert a + s == a + s0 + [s[|s| - 1]];
      SubseqWeaken(a, a + s0, s[|s| - 1]);
    }
  }

  lemma {:induction false} SubseqLength<T>(a: seq<T>, b: seq<T>)
    requires Subseq(a, b)
    ensures |a| <= |b|
    decreases |b|
  {
    if a != [] {
      if a[|a| - 1] == b[|b| - 1] {
        SubseqLength(a[..|a| - 1], b[..|b| - 1]);
      } else {
        SubseqLength(a, b[..|b| - 1]);
      }
    }
  }

  function Map<S, T>(f: S -> T, s: seq<S>): (r: seq<T>)
    ensures |r| == |s|
  {
    if s == [] then [] else Map(f, s[..|s| - 1]) + [f(s[|s| - 1])]
  }

  lemma {:induction false} SubseqMap<S, T>(f: S -> T, a: seq<S>, b: seq<S>)
    requires Subseq(a, b)
    ensures Subseq(Map(f, a), Map(f, b))
    decreases |b|
  {
    if a != [] {
      var b0 := b[..|b| - 1];
      if a[|a| - 1] == b[|b| - 1] {
        SubseqMap(f, a[..|a| - 1], b0);
        SubseqSnoc(Map(f, a[..|a| - 1]), Map(f, b0), f(b[|b| - 1]));
      } else {
        SubseqMap(f, a, b0);
        SubseqWeaken(Map(f, a), Map(f, b0), f(b[|b| - 1]));
      }
    }
  }
}
