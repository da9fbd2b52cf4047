/**
 * Sequence facts shared by the pipeline stages: the subsequence relation
 * (every stage keeps an order-preserving selection of its input), masked
 * selection, and Python's slicing rules with negative indices.
 */
module Seqs {

  /** `a` can be obtained from `b` by deleting elements, keeping the order of the rest. */
  predicate IsSubseq<T(==)>(a: seq<T>, b: seq<T>)
    decreases |b|
  {
    |a| == 0 || (|b| > 0 && ((a[0] == b[0] && IsSubseq(a[1..], b[1..])) || IsSubseq(a, b[1..])))
  }

  lemma {:induction false} SubseqLength<T>(a: seq<T>, b: seq<T>)
    requires IsSubseq(a, b)
    ensures |a| <= |b|
    decreases |b|
  {
    if |a| > 0 {
      if a[0] == b[0] && IsSubseq(a[1..], b[1..]) {
        SubseqLength(a[1..], b[1..]);
      } else {
        SubseqLength(a, b[1..]);
      }
    }
  }

  lemma {:induction false} SubseqMembership<T>(a: seq<T>, b: seq<T>, x: T)
    requires IsSubseq(a, b) && x in a
    ensures x in b
    decreases |b|
  {
    if a[0] == b[0] && IsSubseq(a[1..], b[1..]) {
      if x != a[0] {
        SubseqMembership(a[1..], b[1..], x);
      }
    } else {
      SubseqMembership(a, b[1..], x);
    }
  }

  lemma {:induction false} SubseqRefl<T>(a: seq<T>)
    ensures IsSubseq(a, a)
    decreases |a|
  {
    if |a| > 0 {
      SubseqRefl(a[1..]);
    }
  }

  lemma SubseqCons<T>(x: T, a: seq<T>, b: seq<T>)
    requires IsSubseq(a, b)
    ensures IsSubseq([x] + a, [x] + b)
    ensures IsSubseq(a, [x] + b)
  {
    assert ([x] + a)[1..] == a;
    assert ([x] + b)[1..] == b;
  }

  lemma {:induction false} SubseqAppendRight<T>(a: seq<T>, b: seq<T>, x: T)
    requires IsSubseq(a, b)
    ensures IsSubseq(a, b + [x])
    decreases |b|
  {
    if |a| > 0 {
      assert (b + [x])[0] == b[0] && (b + [x])[1..] == b[1..] + [x];
      if a[0] == b[0] && IsSubseq(a[1..], b[1..]) {
        SubseqAppendRight(a[1..], b[1..], x);
      } else {
        SubseqAppendRight(a, b[1..], x);
      }
    }
  }

  lemma {:induction false} SubseqAppendBoth<T>(a: seq<T>, b: seq<T>, x: T)
    requires IsSubseq(a, b)
    ensures IsSubseq(a + [x], b + [x])
    decreases |b|
  {
    if |b| == 0 {
      assert a == [];
      assert (a + [x])[1..] == [] && (b + [x])[1..] == [];
    } else {
      assert (b + [x])[0] == b[0] && (b + [x])[1..] == b[1..] + [x];
      if |a| > 0 && a[0] == b[0] && IsSubseq(a[1..], b[1..]) {
        SubseqAppendBoth(a[1..], b[1..], x);
        assert (a + [x])[0] == a[0] && (a + [x])[1..] == a[1..] + [x];
      } else if |a| > 0 {
        SubseqAppendBoth(a, b[1..], x);
      } else {
        SubseqAppendBoth(a, b[1..], x);
      }
    }
  }

  lemma {:induction false} SubseqDropFront<T>(a: seq<T>, b: seq<T>, k: nat)
    requires k <= |b| && IsSubseq(a, b[k..])
    ensures IsSubseq(a, b)
    decreases k
  {
    if k > 0 {
      assert b[1..][k - 1..] == b[k..];
      SubseqDropFront(a, b[1..], k - 1);
    }
  }

  lemma {:induction false} SubseqTrans<T>(a: seq<T>, b: seq<T>, c: seq<T>)
    requires IsSubseq(a, b) && IsSubseq(b, c)
    ensures IsSubseq(a, c)
    decreases |c|
  {
    if |a| > 0 {
      SubseqLength(a, b);
      if b[0] == c[0] && IsSubseq(b[1..], c[1..]) {
        if a[0] == b[0] && IsSubseq(a[1..], b[1..]) {
          SubseqTrans(a[1..], b[1..], c[1..]);
        } else {
          SubseqTrans(a, b[1..], c[1..]);
        }
      } else {
        SubseqTrans(a, b, c[1..]);
      }
    }
  }

  /** `[f(x) for x in s]`. */
  function MapSeq<A, B>(f: A -> B, s: seq<A>): (r: seq<B>)
    ensures |r| == |s|
    ensures forall i | 0 <= i < |s| :: r[i] == f(s[i])
  {
    seq(|s|, i requires 0 <= i < |s| => f(s[i]))
  }

  lemma {:induction false} SubseqMap<A, B>(f: A -> B, a: seq<A>, b: seq<A>)
    requires IsSubseq(a, b)
    ensures IsSubseq(MapSeq(f, a), MapSeq(f, b))
    decreases |b|
  {
    if |a| > 0 {
      assert MapSeq(f, a)[1..] == MapSeq(f, a[1..]);
      assert MapSeq(f, b)[1..] == MapSeq(f, b[1..]);
      if a[0] == b[0] && IsSubseq(a[1..], b[1..]) {
        SubseqMap(f, a[1..], b[1..]);
      } else {
        SubseqMap(f, a, b[1..]);
      }
    }
  }

  /** The elements of `xs` whose flag in `sel` is set, in order. */
  function Select<T>(xs: seq<T>, sel: seq<bool>): (r: seq<T>)
    requires |sel| == |xs|
    decreases |xs|
  {
    if |xs| == 0 then []
    else Select(xs[..|xs| - 1], sel[..|sel| - 1]) + (if sel[|sel| - 1] then [xs[|xs| - 1]] else [])
  }

  lemma {:induction false} SelectMembership<T>(xs: seq<T>, sel: seq<bool>, x: T)
    requires |sel| == |xs|
    ensures x in Select(xs, sel) <==> exists j | 0 <= j < |xs| :: sel[j] && xs[j] == x
    decreases |xs|
  {
    if |xs| > 0 {
      var n := |xs| - 1;
      SelectMembership(xs[..n], sel[..n], x);
      assert forall j | 0 <= j < n :: xs[..n][j] == xs[j] && sel[..n][j] == sel[j];
    }
  }

  /** Selecting from one more element of the same pair of sequences. */
  lemma SelectStep<T>(xs: seq<T>, sel: seq<bool>, n: nat)
    requires |sel| == |xs| && n < |xs|
    ensures Select(xs[..n + 1], sel[..n + 1]) == Select(xs[..n], sel[..n]) + (if sel[n] then [xs[n]] else [])
  {
    assert xs[..n + 1][..n] == xs[..n] && sel[..n + 1][..n] == sel[..n];
  }

  /** Python's normalisation of one slice bound against a sequence of length `n`. */
  function SliceBound(i: int, n: nat): (r: nat)
    ensures r <= n
  {
    if i < 0 then (if i + n < 0 then 0 else i + n)
    else if i > n then n
    else i
  }

  lemma SliceBoundSpread(lo: int, hi: int, n: nat)
    requires lo <= hi
    ensures SliceBound(hi, n) - SliceBound(lo, n) <= hi - lo
  {
  }

  /** Python's `s[lo:hi]`, negative bounds counting from the end. */
  function PySlice<T>(s: seq<T>, lo: int, hi: int): (r: seq<T>)
    ensures |r| <= |s|
    ensures lo <= hi ==> |r| <= hi - lo
    ensures 0 <= lo <= hi <= |s| ==> r == s[lo..hi]
  {
    var a := SliceBound(lo, |s|);
    var b := SliceBound(hi, |s|);
    if lo <= hi then SliceBoundSpread(lo, hi, |s|); (if a < b then s[a..b] else [])
    else if a < b then s[a..b] else []
  }
}
