/** Why the shift-shape block of build_model works: the equality
    "sum of starts == y", the equality "sum x == 2 s2 + 3 s3 + 4 s4" and the
    one-directional links "x >= start" together force a student's day to be
    either empty or one contiguous run of 2, 3 or 4 blocks. */
module ShiftShape {
  import opened Common
  import opened Blocks
  import opened LinearModel
  import opened ModelSpec

  /** On a day of n blocks, the student's x values are 1 exactly on the
      blocks i0 .. i0+k-1, with 2 <= k <= 4. */
  predicate IsRun(val: Valuation, s: Student, d: Day, n: nat, k: int, i0: int)
  {
    2 <= k <= 4 && 0 <= i0 && i0 + k <= n &&
    forall i :: 0 <= i < n ==> (Value(val, X(s, d, i)) == 1 <==> i0 <= i < i0 + k)
  }

  /** The day is either not worked (y = 0, every x = 0) or worked as a
      single run of 2 to 4 consecutive blocks (y = 1). */
  predicate ShiftShapeOk(val: Valuation, s: Student, d: Day, n: nat)
  {
    || (Value(val, Y(s, d)) == 0 && forall i :: 0 <= i < n ==> Value(val, X(s, d, i)) == 0)
    || (Value(val, Y(s, d)) == 1 && exists k, i0 | 2 <= k <= 4 && 0 <= i0 <= n :: IsRun(val, s, d, n, k, i0))
  }

  lemma ValuesAppend(a: seq<VarKey>, b: seq<VarKey>, val: Valuation)
    ensures Values(a + b, val) == Values(a, val) + Values(b, val)
  {
  }

  lemma EvalShifts(s: Student, d: Day, idxs: seq<nat>, vars: seq<VarKey>, val: Valuation)
    ensures Eval(ShiftsOf(s, d, idxs, vars).lhs, val)
         == Sum(Values(StartList(2, s, d, vars, idxs), val))
          + Sum(Values(StartList(3, s, d, vars, idxs), val))
          + Sum(Values(StartList(4, s, d, vars, idxs), val))
          - Value(val, Y(s, d))
  {
    var l2, l3, l4 := StartList(2, s, d, vars, idxs), StartList(3, s, d, vars, idxs), StartList(4, s, d, vars, idxs);
    var yTerm: LinExpr := [Term(-1, Y(s, d))];
    EvalAppend(Ones(l2 + l3 + l4), yTerm, val);
    EvalScaled(1, l2 + l3 + l4, val);
    ValuesAppend(l2 + l3, l4, val);
    ValuesAppend(l2, l3, val);
    SumAppend(Values(l2 + l3, val), Values(l4, val));
    SumAppend(Values(l2, val), Values(l3, val));
    assert Eval(yTerm, val) == -Value(val, Y(s, d)) by {
      assert yTerm[..0] == [];
    }
  }

  lemma EvalSumX(s: Student, d: Day, idxs: seq<nat>, vars: seq<VarKey>, val: Valuation)
    ensures Eval(SumXOf(s, d, idxs, vars).lhs, val)
         == Sum(Values(XDayKeys(s, d, idxs), val))
          - 2 * Sum(Values(StartList(2, s, d, vars, idxs), val))
          - 3 * Sum(Values(StartList(3, s, d, vars, idxs), val))
          - 4 * Sum(Values(StartList(4, s, d, vars, idxs), val))
  {
    var l2, l3, l4 := StartList(2, s, d, vars, idxs), StartList(3, s, d, vars, idxs), StartList(4, s, d, vars, idxs);
    var xs := XDayKeys(s, d, idxs);
    EvalAppend(Ones(xs) + Scaled(-2, l2) + Scaled(-3, l3), Scaled(-4, l4), val);
    EvalAppend(Ones(xs) + Scaled(-2, l2), Scaled(-3, l3), val);
    EvalAppend(Ones(xs), Scaled(-2, l2), val);
    EvalScaled(1, xs, val);
    EvalScaled(-2, l2, val);
    EvalScaled(-3, l3, val);
    EvalScaled(-4, l4, val);
  }

  /** Every key of s<k>_list is a start<k> variable of that day that exists. */
  lemma StartListMember(k: nat, s: Student, d: Day, vars: seq<VarKey>, idxs: seq<nat>, key: VarKey)
    requires key in StartList(k, s, d, vars, idxs)
    ensures key.Start? && key == Start(k, s, d, key.i) && key in vars && key.i in idxs
  {
    var f := (i: nat) => if Start(k, s, d, i) in vars then [Start(k, s, d, i)] else [];
    ConcatMapMember(idxs, f, key);
    var j :| 0 <= j < |idxs| && key in f(idxs[j]);
  }

  /** The link constraints of an existing start variable are emitted. */
  lemma LinkEmitted(s: Student, d: Day, vars: seq<VarKey>, idxs: seq<nat>, k: nat, i: nat, t: nat)
    requires 2 <= k <= 4 && t < k
    requires Start(k, s, d, i) in vars && i in idxs
    ensures LinkK(k, s, d, i)[t] in LinksDay(s, d, vars, idxs)
  {
    var f := (i: nat) => LinksAt(s, d, vars, i);
    var j :| 0 <= j < |idxs| && idxs[j] == i;
    assert LinkK(k, s, d, i)[t] in f(idxs[j]);
    ConcatMapMember(idxs, f, LinkK(k, s, d, i)[t]);
  }

  /** A satisfied link whose start variable is 1 forces its x to 1. */
  lemma LinkForces(s: Student, d: Day, k: nat, i: nat, t: nat, val: Valuation)
    requires Binary(val) && t < k
    requires Satisfies(LinkK(k, s, d, i)[t], val)
    requires Value(val, Start(k, s, d, i)) == 1
    ensures Value(val, X(s, d, i + t)) == 1
  {
    var e := LinkK(k, s, d, i)[t].lhs;
    assert e == [Term(1, X(s, d, i + t)), Term(-1, Start(k, s, d, i))];
    assert e[..1] == [Term(1, X(s, d, i + t))];
    assert e[..1][..0] == [];
    assert Eval(e[..1], val) == Value(val, X(s, d, i + t));
    assert Eval(e, val) == Value(val, X(s, d, i + t)) - 1;
  }

  /** The day's x values, block by block. */
  function XDay(s: Student, d: Day, n: nat, val: Valuation): (r: seq<int>)
    ensures |r| == n
  {
    seq(n, i requires 0 <= i < n => Value(val, X(s, d, i)))
  }

  /** The two equalities of the block, read as sums of values. */
  lemma ShiftDayEquations(s: Student, d: Day, n: nat, vars: seq<VarKey>, val: Valuation)
    requires SatisfiesAll(ShiftDay(s, d, Range(n), vars), val)
    ensures Sum(Values(StartList(2, s, d, vars, Range(n)), val))
          + Sum(Values(StartList(3, s, d, vars, Range(n)), val))
          + Sum(Values(StartList(4, s, d, vars, Range(n)), val)) == Value(val, Y(s, d))
    ensures Sum(XDay(s, d, n, val))
         == 2 * Sum(Values(StartList(2, s, d, vars, Range(n)), val))
          + 3 * Sum(Values(StartList(3, s, d, vars, Range(n)), val))
          + 4 * Sum(Values(StartList(4, s, d, vars, Range(n)), val))
  {
    var idxs := Range(n);
    var c0, c1 := ShiftsOf(s, d, idxs, vars), SumXOf(s, d, idxs, vars);
    assert ShiftDay(s, d, idxs, vars) == [c0, c1] + LinksDay(s, d, vars, idxs);
    assert c0 in ShiftDay(s, d, idxs, vars) && c1 in ShiftDay(s, d, idxs, vars);
    assert Satisfies(c0, val) && Satisfies(c1, val);
    assert Eval(c0.lhs, val) == 0 && Eval(c1.lhs, val) == 0;
    EvalShifts(s, d, idxs, vars, val);
    EvalSumX(s, d, idxs, vars, val);
    assert Values(XDayKeys(s, d, idxs), val) == XDay(s, d, n, val);
  }

  /** With exactly one start<k> at 1 and k blocks worked, the blocks worked
      are the k blocks from that start. */
  lemma RunFromStart(s: Student, d: Day, n: nat, vars: seq<VarKey>, val: Valuation, k: nat)
    requires Binary(val) && 2 <= k <= 4
    requires forall k: nat, i: nat :: 2 <= k <= 4 && Start(k, s, d, i) in vars ==> i + k <= n
    requires SatisfiesAll(ShiftDay(s, d, Range(n), vars), val)
    requires Sum(Values(StartList(k, s, d, vars, Range(n)), val)) == 1
    requires Sum(XDay(s, d, n, val)) == k
    ensures exists k, i0 | 2 <= k <= 4 && 0 <= i0 <= n :: IsRun(val, s, d, n, k, i0)
  {
    var idxs := Range(n);
    var l := StartList(k, s, d, vars, idxs);
    var xs := XDay(s, d, n, val);
    BinaryValues(l, val);
    var p := SumBinaryOne(Values(l, val));
    var key := l[p];
    StartListMember(k, s, d, vars, idxs, key);
    var i0 := key.i;
    assert Value(val, Start(k, s, d, i0)) == 1;
    assert i0 + k <= n;
    forall i | i0 <= i < i0 + k ensures xs[i] == 1 {
      var t: nat := i - i0;
      LinkEmitted(s, d, vars, idxs, k, i0, t);
      assert LinkK(k, s, d, i0)[t] in ShiftDay(s, d, idxs, vars);
      LinkForces(s, d, k, i0, t, val);
    }
    SumWindowForcesZero(xs, i0, i0 + k);
    forall i | 0 <= i < n ensures Value(val, X(s, d, i)) == 1 <==> i0 <= i < i0 + k {
      assert xs[i] == Value(val, X(s, d, i));
    }
    assert IsRun(val, s, d, n, k, i0);
  }

  /** Shift-shape soundness: a 0/1 answer that satisfies the student's
      shift-shape constraints for a day of n blocks leaves that day empty or
      a single run of 2 to 4 blocks, provided every start variable that exists
      starts a run that fits in the day. */
  lemma ShiftShapeSound(s: Student, d: Day, n: nat, vars: seq<VarKey>, val: Valuation)
    requires Binary(val)
    requires forall k: nat, i: nat :: 2 <= k <= 4 && Start(k, s, d, i) in vars ==> i + k <= n
    requires SatisfiesAll(ShiftDay(s, d, Range(n), vars), val)
    ensures ShiftShapeOk(val, s, d, n)
  {
    var idxs := Range(n);
    var v2 := Values(StartList(2, s, d, vars, idxs), val);
    var v3 := Values(StartList(3, s, d, vars, idxs), val);
    var v4 := Values(StartList(4, s, d, vars, idxs), val);
    var xs := XDay(s, d, n, val);
    BinaryValues(StartList(2, s, d, vars, idxs), val);
    BinaryValues(StartList(3, s, d, vars, idxs), val);
    BinaryValues(StartList(4, s, d, vars, idxs), val);
    SumBinaryBounds(v2);
    SumBinaryBounds(v3);
    SumBinaryBounds(v4);
    ShiftDayEquations(s, d, n, vars, val);
    var y := Value(val, Y(s, d));
    assert y == 0 || y == 1;
    if y == 0 {
      assert AllBinary(xs);
      SumBinaryZero(xs);
      forall i | 0 <= i < n ensures Value(val, X(s, d, i)) == 0 {
        assert xs[i] == Value(val, X(s, d, i));
      }
    } else if Sum(v2) == 1 {
      RunFromStart(s, d, n, vars, val, 2);
    } else if Sum(v3) == 1 {
      RunFromStart(s, d, n, vars, val, 3);
    } else {
      RunFromStart(s, d, n, vars, val, 4);
    }
  }

  // ---------------------------------------------------------------- completeness

  /** Every start<k>[s,d,i] is 0, except start<k0>[s,d,i0] when one holds. */
  ghost predicate StartsAre(val: Valuation, s: Student, d: Day, one: bool, k0: nat, i0: nat)
  {
    forall k: nat, i: nat :: Value(val, Start(k, s, d, i)) == if one && k == k0 && i == i0 then 1 else 0
  }

  lemma {:induction false} StartListSum(k: nat, s: Student, d: Day, vars: seq<VarKey>, idxs: seq<nat>, val: Valuation,
                                        one: bool, k0: nat, i0: nat)
    requires NoDup(idxs)
    requires StartsAre(val, s, d, one, k0, i0)
    ensures Sum(Values(StartList(k, s, d, vars, idxs), val))
         == if one && k == k0 && i0 in idxs && Start(k0, s, d, i0) in vars then 1 else 0
  {
    if idxs != [] {
      var init := idxs[..|idxs| - 1];
      var last := idxs[|idxs| - 1];
      NoDupSnoc(idxs);
      StartListSum(k, s, d, vars, init, val, one, k0, i0);
      var f := (i: nat) => if Start(k, s, d, i) in vars then [Start(k, s, d, i)] else [];
      var l := StartList(k, s, d, vars, init);
      assert StartList(k, s, d, vars, idxs) == l + f(last);
      ValuesAppend(l, f(last), val);
      SumAppend(Values(l, val), Values(f(last), val));
      assert idxs == init + [last];
      if Start(k, s, d, last) in vars {
        assert Values(f(last), val) == [Value(val, Start(k, s, d, last))];
        assert Values(f(last), val)[..0] == [];
      } else {
        assert Values(f(last), val) == [];
      }
    }
  }

  /** A link x[s,d,i+j] >= start<k>[s,d,i] evaluates to the difference. */
  lemma LinkEval(k: nat, s: Student, d: Day, i: nat, j: nat, val: Valuation)
    ensures Eval(LinkOf(k, s, d, i, j).lhs, val) == Value(val, X(s, d, i + j)) - Value(val, Start(k, s, d, i))
  {
    var e := LinkOf(k, s, d, i, j).lhs;
    assert e == [Term(1, X(s, d, i + j)), Term(-1, Start(k, s, d, i))];
    assert e[..1] == [Term(1, X(s, d, i + j))];
    assert e[..1][..0] == [];
    assert Eval(e[..1], val) == Value(val, X(s, d, i + j));
  }

  lemma LinkAtHolds(s: Student, d: Day, vars: seq<VarKey>, i: nat, val: Valuation, one: bool, k0: nat, i0: nat,
                    c: Constraint)
    requires Binary(val) && StartsAre(val, s, d, one, k0, i0)
    requires one ==> forall i :: i0 <= i < i0 + k0 ==> Value(val, X(s, d, i)) == 1
    requires c in LinksAt(s, d, vars, i)
    ensures Satisfies(c, val)
  {
    var l2 := if Start(2, s, d, i) in vars then LinkK(2, s, d, i) else [];
    var l3 := if Start(3, s, d, i) in vars then LinkK(3, s, d, i) else [];
    var l4 := if Start(4, s, d, i) in vars then LinkK(4, s, d, i) else [];
    assert LinksAt(s, d, vars, i) == l2 + l3 + l4;
    var k: nat := if c in l2 then 2 else if c in l3 then 3 else 4;
    assert c in LinkK(k, s, d, i);
    var t :| 0 <= t < k && LinkK(k, s, d, i)[t] == c;
    LinkEval(k, s, d, i, t, val);
    ValueBinary(val, X(s, d, i + t));
    if one && k == k0 && i == i0 {
      assert Value(val, X(s, d, i + t)) == 1;
    }
  }

  lemma LinksHold(s: Student, d: Day, n: nat, vars: seq<VarKey>, val: Valuation, one: bool, k0: nat, i0: nat)
    requires Binary(val) && StartsAre(val, s, d, one, k0, i0)
    requires one ==> forall i :: i0 <= i < i0 + k0 ==> Value(val, X(s, d, i)) == 1
    ensures SatisfiesAll(LinksDay(s, d, vars, Range(n)), val)
  {
    forall c | c in LinksDay(s, d, vars, Range(n)) ensures Satisfies(c, val) {
      var f := (i: nat) => LinksAt(s, d, vars, i);
      ConcatMapMember(Range(n), f, c);
      var j :| 0 <= j < n && c in f(Range(n)[j]);
      LinkAtHolds(s, d, vars, j, val, one, k0, i0, c);
    }
  }

  /** The day's x values are 1 exactly on [lo, hi): their sum is hi - lo. */
  lemma XDaySum(s: Student, d: Day, n: nat, val: Valuation, lo: nat, hi: nat)
    requires Binary(val) && lo <= hi <= n
    requires forall i :: 0 <= i < n ==> (Value(val, X(s, d, i)) == 1 <==> lo <= i < hi)
    ensures Sum(Values(XDayKeys(s, d, Range(n)), val)) == hi - lo
  {
    var xs := Values(XDayKeys(s, d, Range(n)), val);
    forall j | 0 <= j < n ensures xs[j] == if lo <= j < hi then 1 else 0 {
      ValueBinary(val, X(s, d, j));
    }
    SumIndicator(xs, lo, hi);
  }

  /** With the starts as given, the start sums are 1 and k0 for a run, 0 and 0 otherwise. */
  lemma StartSums(s: Student, d: Day, n: nat, vars: seq<VarKey>, val: Valuation, one: bool, k0: nat, i0: nat)
    requires StartsAre(val, s, d, one, k0, i0)
    requires one ==> 2 <= k0 <= 4 && i0 < n && Start(k0, s, d, i0) in vars
    ensures var p2, p3, p4 := Sum(Values(StartList(2, s, d, vars, Range(n)), val)),
                              Sum(Values(StartList(3, s, d, vars, Range(n)), val)),
                              Sum(Values(StartList(4, s, d, vars, Range(n)), val));
            p2 + p3 + p4 == (if one then 1 else 0) && 2 * p2 + 3 * p3 + 4 * p4 == (if one then k0 else 0)
  {
    var idxs := Range(n);
    StartListSum(2, s, d, vars, idxs, val, one, k0, i0);
    StartListSum(3, s, d, vars, idxs, val, one, k0, i0);
    StartListSum(4, s, d, vars, idxs, val, one, k0, i0);
    if one {
      assert idxs[i0] == i0;
    }
  }

  /** Shift-shape completeness, the converse of ShiftShapeSound: a 0/1 answer
      that leaves the day empty with every start at 0 (y = 0), or works one
      run of k0 blocks from i0 with start<k0>[s,d,i0], which exists, the only
      start at 1 (y = 1), satisfies the student's shift-shape constraints for
      that day. */
  lemma ShiftShapeComplete(s: Student, d: Day, n: nat, vars: seq<VarKey>, val: Valuation, k0: nat, i0: nat)
    requires Binary(val)
    requires StartsAre(val, s, d, Value(val, Y(s, d)) == 1, k0, i0)
    requires Value(val, Y(s, d)) == 0 ==> forall i :: 0 <= i < n ==> Value(val, X(s, d, i)) == 0
    requires Value(val, Y(s, d)) == 1 ==> IsRun(val, s, d, n, k0, i0) && Start(k0, s, d, i0) in vars
    ensures SatisfiesAll(ShiftDay(s, d, Range(n), vars), val)
  {
    var idxs := Range(n);
    var one := Value(val, Y(s, d)) == 1;
    EquationsHold(s, d, n, vars, val, one, k0, i0);
    LinksHold(s, d, n, vars, val, one, k0, i0);
    assert ShiftDay(s, d, idxs, vars) == [ShiftsOf(s, d, idxs, vars), SumXOf(s, d, idxs, vars)] + LinksDay(s, d, vars, idxs);
  }

  /** The two equalities hold for an empty day or a single run with its start. */
  lemma EquationsHold(s: Student, d: Day, n: nat, vars: seq<VarKey>, val: Valuation, one: bool, k0: nat, i0: nat)
    requires Binary(val)
    requires one <==> Value(val, Y(s, d)) == 1
    requires StartsAre(val, s, d, one, k0, i0)
    requires !one ==> forall i :: 0 <= i < n ==> Value(val, X(s, d, i)) == 0
    requires one ==> IsRun(val, s, d, n, k0, i0) && Start(k0, s, d, i0) in vars
    ensures Satisfies(ShiftsOf(s, d, Range(n), vars), val) && Satisfies(SumXOf(s, d, Range(n), vars), val)
  {
    var idxs := Range(n);
    ValueBinary(val, Y(s, d));
    StartSums(s, d, n, vars, val, one, k0, i0);
    if one {
      XDaySum(s, d, n, val, i0, i0 + k0);
    } else {
      XDaySum(s, d, n, val, 0, 0);
    }
    EvalShifts(s, d, idxs, vars, val);
    EvalSumX(s, d, idxs, vars, val);
  }
}
