/** Small sequence utilities shared by the scheduling model. */
module Common {

  datatype Option<+T> = None | Some(value: T)

  /** The indices 0, 1, ..., n-1 in increasing order. */
  function Range(n: nat): (r: seq<nat>)
    ensures |r| == n
    ensures forall i :: 0 <= i < n ==> r[i] == i
  {
    seq(n, i => i)
  }

  /** No element occurs twice. */
  predicate NoDup<T(==)>(s: seq<T>)
  {
    forall i, j :: 0 <= i < j < |s| ==> s[i] != s[j]
  }

  /** Dropping the last element keeps NoDup, and the last element is not in the rest. */
  lemma NoDupSnoc<T>(s: seq<T>)
    requires s != [] && NoDup(s)
    ensures NoDup(s[..|s| - 1]) && s[|s| - 1] !in s[..|s| - 1]
  {
    var init := s[..|s| - 1];
    forall j | 0 <= j < |init| ensures init[j] != s[|s| - 1] {
      assert init[j] == s[j];
    }
  }

  /** The concatenation of f(x) for x in xs, in order: the shape of a Python
      loop that appends zero or more items per element. Peeled from the end,
      so that a loop over a prefix matches it step by step. */
  function ConcatMap<A, B>(xs: seq<A>, f: A -> seq<B>): seq<B>
  {
    if xs == [] then [] else ConcatMap(xs[..|xs| - 1], f) + f(xs[|xs| - 1])
  }

  lemma ConcatMapSnoc<A, B>(xs: seq<A>, x: A, f: A -> seq<B>)
    ensures ConcatMap(xs + [x], f) == ConcatMap(xs, f) + f(x)
  {
    assert (xs + [x])[..|xs|] == xs;
  }

  lemma {:induction false} ConcatMapAppend<A, B>(xs: seq<A>, ys: seq<A>, f: A -> seq<B>)
    ensures ConcatMap(xs + ys, f) == ConcatMap(xs, f) + ConcatMap(ys, f)
  {
    if ys == [] {
      assert xs + ys == xs;
    } else {
      var ys' := ys[..|ys| - 1];
      var y := ys[|ys| - 1];
      assert xs + ys == (xs + ys') + [y];
      assert ys == ys' + [y];
      ConcatMapSnoc(xs + ys', y, f);
      ConcatMapSnoc(ys', y, f);
      ConcatMapAppend(xs, ys', f);
    }
  }

  /** Something is in the concatenation iff it is in the chunk of some element. */
  lemma {:induction false} ConcatMapMember<A, B>(xs: seq<A>, f: A -> seq<B>, y: B)
    ensures y in ConcatMap(xs, f) <==> exists j :: 0 <= j < |xs| && y in f(xs[j])
  {
    if xs != [] {
      var init := xs[..|xs| - 1];
      ConcatMapMember(init, f, y);
      if y in ConcatMap(xs, f) && y !in f(xs[|xs| - 1]) {
        var j :| 0 <= j < |init| && y in f(init[j]);
        assert xs[j] == init[j];
      }
      if exists j :: 0 <= j < |xs| && y in f(xs[j]) {
        var j :| 0 <= j < |xs| && y in f(xs[j]);
        if j < |xs| - 1 {
          assert xs[j] == init[j];
        }
      }
    }
  }

  lemma AppendAssoc<T>(a: seq<T>, b: seq<T>, c: seq<T>)
    ensures a + b + c == a + (b + c)
  {
  }

  function Sum(s: seq<int>): int
  {
    if s == [] then 0 else Sum(s[..|s| - 1]) + s[|s| - 1]
  }

  lemma {:induction false} SumAppend(a: seq<int>, b: seq<int>)
    ensures Sum(a + b) == Sum(a) + Sum(b)
  {
    if b == [] {
      assert a + b == a;
    } else {
      var b' := b[..|b| - 1];
      assert (a + b)[..|a + b| - 1] == a + b';
      SumAppend(a, b');
    }
  }

  predicate AllBinary(s: seq<int>)
  {
    forall j :: 0 <= j < |s| ==> s[j] == 0 || s[j] == 1
  }

  /** A sum of zeros and ones lies between 0 and the length. */
  lemma {:induction false} SumBinaryBounds(s: seq<int>)
    requires AllBinary(s)
    ensures 0 <= Sum(s) <= |s|
  {
    if s != [] {
      SumBinaryBounds(s[..|s| - 1]);
    }
  }

  /** Zeros and ones that sum to zero are all zero. */
  lemma {:induction false} SumBinaryZero(s: seq<int>)
    requires AllBinary(s)
    requires Sum(s) == 0
    ensures forall j :: 0 <= j < |s| ==> s[j] == 0
  {
    if s != [] {
      var init := s[..|s| - 1];
      SumBinaryBounds(init);
      SumBinaryZero(init);
      forall j | 0 <= j < |s| ensures s[j] == 0 {
        if j < |s| - 1 { assert s[j] == init[j]; }
      }
    }
  }

  lemma {:induction false} SumAllOnes(s: seq<int>)
    requires forall j :: 0 <= j < |s| ==> s[j] == 1
    ensures Sum(s) == |s|
  {
    if s != [] {
      SumAllOnes(s[..|s| - 1]);
    }
  }

  /** Zeros and ones that sum to one have exactly one one. */
  lemma {:induction false} SumBinaryOne(s: seq<int>) returns (k: nat)
    requires AllBinary(s)
    requires Sum(s) == 1
    ensures k < |s| && s[k] == 1
    ensures forall j :: 0 <= j < |s| && j != k ==> s[j] == 0
  {
    var init := s[..|s| - 1];
    SumBinaryBounds(init);
    if s[|s| - 1] == 1 {
      SumBinaryZero(init);
      k := |s| - 1;
      forall j | 0 <= j < |s| && j != k ensures s[j] == 0 {
        assert s[j] == init[j];
      }
    } else {
      k := SumBinaryOne(init);
      forall j | 0 <= j < |s| && j != k ensures s[j] == 0 {
        if j < |s| - 1 { assert s[j] == init[j]; }
      }
    }
  }

  /** Zeros and ones sum to at least one iff one of them is a one. */
  lemma {:induction false} SumBinaryPositive(s: seq<int>)
    requires AllBinary(s)
    ensures Sum(s) >= 1 <==> exists j :: 0 <= j < |s| && s[j] == 1
  {
    if s != [] {
      var init := s[..|s| - 1];
      SumBinaryPositive(init);
      SumBinaryBounds(init);
      if exists j :: 0 <= j < |s| && s[j] == 1 {
        var j :| 0 <= j < |s| && s[j] == 1;
        if j < |s| - 1 { assert init[j] == 1; }
      }
      if exists j :: 0 <= j < |init| && init[j] == 1 {
        var j :| 0 <= j < |init| && init[j] == 1;
        assert s[j] == 1;
      }
    }
  }

  lemma {:induction false} SumAllZeros(s: seq<int>)
    requires forall j :: 0 <= j < |s| ==> s[j] == 0
    ensures Sum(s) == 0
  {
    if s != [] {
      SumAllZeros(s[..|s| - 1]);
    }
  }

  /** A sequence that is 1 on a window and 0 elsewhere sums to the window's length. */
  lemma SumIndicator(s: seq<int>, lo: nat, hi: nat)
    requires lo <= hi <= |s|
    requires forall j :: 0 <= j < |s| ==> s[j] == if lo <= j < hi then 1 else 0
    ensures Sum(s) == hi - lo
  {
    var a, m, b := s[..lo], s[lo..hi], s[hi..];
    SumSplit3(s, lo, hi);
    forall j | 0 <= j < |m| ensures m[j] == 1 {
      assert m[j] == s[lo + j];
    }
    forall j | 0 <= j < |a| ensures a[j] == 0 {
      assert a[j] == s[j];
    }
    forall j | 0 <= j < |b| ensures b[j] == 0 {
      assert b[j] == s[hi + j];
    }
    SumAllOnes(m);
    SumAllZeros(a);
    SumAllZeros(b);
  }

  /** A sum splits at two cut points. */
  lemma SumSplit3(s: seq<int>, lo: nat, hi: nat)
    requires lo <= hi <= |s|
    ensures Sum(s) == Sum(s[..lo]) + Sum(s[lo..hi]) + Sum(s[hi..])
  {
    assert s == s[..lo] + s[lo..hi] + s[hi..];
    SumAppend(s[..lo] + s[lo..hi], s[hi..]);
    SumAppend(s[..lo], s[lo..hi]);
  }

  lemma AllBinaryParts(s: seq<int>, k: nat)
    requires AllBinary(s) && k <= |s|
    ensures AllBinary(s[..k]) && AllBinary(s[k..])
  {
    forall j | 0 <= j < k ensures s[..k][j] == 0 || s[..k][j] == 1 {
      assert s[..k][j] == s[j];
    }
    forall j | 0 <= j < |s| - k ensures s[k..][j] == 0 || s[k..][j] == 1 {
      assert s[k..][j] == s[k + j];
    }
  }

  /** Zeros and ones outside a window that sum to zero are all zero. */
  lemma OutsideZero(s: seq<int>, lo: nat, hi: nat)
    requires AllBinary(s) && lo <= hi <= |s|
    requires Sum(s[..lo]) + Sum(s[hi..]) == 0
    ensures forall j :: 0 <= j < |s| && !(lo <= j < hi) ==> s[j] == 0
  {
    var a, b := s[..lo], s[hi..];
    AllBinaryParts(s, lo);
    AllBinaryParts(s, hi);
    SumBinaryBounds(a);
    SumBinaryBounds(b);
    SumBinaryZero(a);
    SumBinaryZero(b);
    forall j | 0 <= j < |s| && !(lo <= j < hi) ensures s[j] == 0 {
      if j < lo { assert s[j] == a[j]; } else { assert s[j] == b[j - hi]; }
    }
  }

  /** Zeros and ones whose sum equals the length of a window of ones are zero
      outside that window. */
  lemma SumWindowForcesZero(s: seq<int>, lo: nat, hi: nat)
    requires AllBinary(s)
    requires lo <= hi <= |s|
    requires forall j :: lo <= j < hi ==> s[j] == 1
    requires Sum(s) == hi - lo
    ensures forall j :: 0 <= j < |s| && !(lo <= j < hi) ==> s[j] == 0
  {
    var m := s[lo..hi];
    SumSplit3(s, lo, hi);
    forall j | 0 <= j < |m| ensures m[j] == 1 {
      assert m[j] == s[lo + j];
    }
    SumAllOnes(m);
    OutsideZero(s, lo, hi);
  }
}
