/** Subsequences: what is left of a sequence when elements are left out. */
module Sequences {
  /** `c` is obtained from `a` by leaving elements out. */
  ghost predicate Subsequence<T>(c: seq<T>, a: seq<T>)
    decreases |a|
  {
    if c == [] then true
    else if a == [] then false
    else (c[|c| - 1] == a[|a| - 1] && Subsequence(c[..|c| - 1], a[..|a| - 1])) || Subsequence(c, a[..|a| - 1])
  }

  /** An element put in front of the longer sequence, or of both, keeps a subsequence one. */
  lemma {:induction false} SubsequencePrepend<T>(x: T, c: seq<T>, a: seq<T>)
    requires Subsequence(c, a)
    ensures Subsequence(c, [x] + a)
    ensures Subsequence([x] + c, [x] + a)
    decreases |a|
  {
    var xa, xc := [x] + a, [x] + c;
    if a == [] {
      assert xa == xc == [x] && xa[..0] == [];
      assert Subsequence<T>([], []);
    } else {
      var a' := a[..|a| - 1];
      assert xa[..|xa| - 1] == [x] + a' && xa[|xa| - 1] == a[|a| - 1];
      if c == [] {
        assert Subsequence([], a');
        SubsequencePrepend(x, [], a');
        assert xc == [x] + [];
      } else {
        var c' := c[..|c| - 1];
        assert xc[..|xc| - 1] == [x] + c' && xc[|xc| - 1] == c[|c| - 1];
        if c[|c| - 1] == a[|a| - 1] && Subsequence(c', a') {
          SubsequencePrepend(x, c', a');
        } else {
          SubsequencePrepend(x, c, a');
        }
      }
    }
  }

  /** The same at the other end. */
  lemma {:induction false} SubsequenceAppend<T>(c: seq<T>, a: seq<T>, x: T)
    requires Subsequence(c, a)
    ensures Subsequence(c, a + [x])
    ensures Subsequence(c + [x], a + [x])
  {
    var ax, cx := a + [x], c + [x];
    assert ax[..|ax| - 1] == a && cx[..|cx| - 1] == c;
  }

  lemma {:induction false} SubsequenceLength<T>(c: seq<T>, a: seq<T>)
    requires Subsequence(c, a)
    ensures |c| <= |a|
    decreases |a|
  {
    if c != [] {
      if Subsequence(c, a[..|a| - 1]) {
        SubsequenceLength(c, a[..|a| - 1]);
      } else {
        SubsequenceLength(c[..|c| - 1], a[..|a| - 1]);
      }
    }
  }

  lemma {:induction false} SubsequenceReflexive<T>(a: seq<T>)
    ensures Subsequence(a, a)
  {
    if a != [] {
      SubsequenceReflexive(a[..|a| - 1]);
    }
  }
}
