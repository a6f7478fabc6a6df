/** What the model built for the default window guarantees: which variables
    exist, and what a 0/1 answer satisfying every constraint means for
    coverage, overlap, weekly hours, the fleet average, classes and shifts. */
module ModelProperties {
  import opened Common
  import opened Blocks
  import opened Availability
  import opened LinearModel
  import opened ModelSpec
  import opened ShiftShape

  /** Blocks per day in the default window (ten). */
  const DayLen: nat := NumBlocks(WindowStart, WindowEnd)

  /** What build_model produces for days ds (listed once each), students
      stus and classes stmap; BuildModel ensures its results are these. */
  function BuiltBlocks(ds: seq<Day>): seq<Block>
  {
    AllBlocks(ds, WindowStart, WindowEnd)
  }

  function BuiltDayBlocks(ds: seq<Day>): map<Day, seq<Slot>>
  {
    DayBlocksOf(ds, BuiltBlocks(ds))
  }

  function BuiltVars(stus: seq<Student>, ds: seq<Day>): seq<VarKey>
  {
    VarSpec(stus, ds, BuiltDayBlocks(ds), BuiltBlocks(ds))
  }

  function BuiltConstraints(stus: seq<Student>, ds: seq<Day>, stmap: map<Student, seq<ClassInterval>>, p: Params): seq<Constraint>
  {
    ModelConstraints(stus, ds, BuiltBlocks(ds), BuiltDayBlocks(ds), stmap, BuiltVars(stus, ds), p)
  }

  /** Every listed day holds the full day of slots 0..DayLen-1. */
  lemma BuiltSlots(ds: seq<Day>, d: Day)
    requires NoDup(ds) && d in ds
    ensures SlotsFor(BuiltDayBlocks(ds), d) == DaySlots(WindowStart, WindowEnd)
    ensures Indices(SlotsFor(BuiltDayBlocks(ds), d)) == Range(DayLen)
  {
    SlotsOfAllBlocks(ds, WindowStart, WindowEnd, d);
    DaySlotsIndices(WindowStart, WindowEnd);
  }

  // ---------------------------------------------------------------- variables

  /** The keys created for student s on a day of n blocks. */
  predicate DayKey(s: Student, d: Day, n: nat, key: VarKey)
  {
    match key
    case X(s', d', i) => s' == s && d' == d && i < n
    case Y(s', d') => s' == s && d' == d
    case Start(k, s', d', i) => s' == s && d' == d && 2 <= k <= 4 && i + k <= n
    case U(_, _) => false
  }

  /** The keys that exist: x and y for every student and listed day, start<k>
      exactly where a run of k blocks fits in the day, u for every block. */
  predicate IsVar(stus: seq<Student>, ds: seq<Day>, key: VarKey)
  {
    match key
    case X(s, d, i) => s in stus && d in ds && i < DayLen
    case Y(s, d) => s in stus && d in ds
    case Start(k, s, d, i) => s in stus && d in ds && 2 <= k <= 4 && i + k <= DayLen
    case U(d, i) => d in ds && i < DayLen
  }

  lemma RangeMember(n: nat, x: nat)
    ensures x in Range(n) <==> x < n
  {
    if x < n {
      assert Range(n)[x] == x;
    }
  }

  lemma StartVarsAtMember(s: Student, d: Day, n: nat, i: nat, key: VarKey)
    ensures key in StartVarsAt(s, d, Range(n), i) <==>
            key.Start? && key.s == s && key.d == d && key.i == i && 2 <= key.k <= 4 && i + key.k <= n
  {
    RangeMember(n, i + 1);
    RangeMember(n, i + 2);
    RangeMember(n, i + 3);
  }

  lemma DayVarsMember(s: Student, d: Day, key: VarKey)
    ensures key in DayVars(s, d, DaySlots(WindowStart, WindowEnd)) <==> DayKey(s, d, DayLen, key)
  {
    var slots := DaySlots(WindowStart, WindowEnd);
    var idxs := Indices(slots);
    DaySlotsIndices(WindowStart, WindowEnd);
    var fx := (sl: Slot) => [X(s, d, sl.idx)];
    var fs := (sl: Slot) => StartVarsAt(s, d, idxs, sl.idx);
    ConcatMapMember(slots, fx, key);
    ConcatMapMember(slots, fs, key);
    assert DayVars(s, d, slots) == [Y(s, d)] + ConcatMap(slots, fx) + ConcatMap(slots, fs);
    match key
    case X(s', d', i) =>
      if s' == s && d' == d && i < DayLen {
        assert key in fx(slots[i]);
      }
    case Y(_, _) =>
    case Start(k, s', d', i) =>
      if key in ConcatMap(slots, fs) {
        var j :| 0 <= j < |slots| && key in fs(slots[j]);
        StartVarsAtMember(s, d, DayLen, slots[j].idx, key);
      }
      if DayKey(s, d, DayLen, key) {
        StartVarsAtMember(s, d, DayLen, i, key);
        assert key in fs(slots[i]);
      }
    case U(_, _) =>
  }

  lemma StudentVarsMember(s: Student, ds: seq<Day>, key: VarKey)
    requires NoDup(ds)
    ensures key in StudentVars(s, ds, BuiltDayBlocks(ds)) <==> key.d in ds && DayKey(s, key.d, DayLen, key)
  {
    var f := (d: Day) => DayVars(s, d, SlotsFor(BuiltDayBlocks(ds), d));
    ConcatMapMember(ds, f, key);
    if key in StudentVars(s, ds, BuiltDayBlocks(ds)) {
      var j :| 0 <= j < |ds| && key in f(ds[j]);
      BuiltSlots(ds, ds[j]);
      DayVarsMember(s, ds[j], key);
    }
    if key.d in ds && DayKey(s, key.d, DayLen, key) {
      var j :| 0 <= j < |ds| && ds[j] == key.d;
      BuiltSlots(ds, ds[j]);
      DayVarsMember(s, ds[j], key);
      assert key in f(ds[j]);
    }
  }

  lemma PersonVarsMember(stus: seq<Student>, ds: seq<Day>, key: VarKey)
    requires NoDup(ds)
    ensures key in PersonVars(stus, ds, BuiltDayBlocks(ds)) <==>
            !key.U? && key.s in stus && key.d in ds && DayKey(key.s, key.d, DayLen, key)
  {
    var f := (s: Student) => StudentVars(s, ds, BuiltDayBlocks(ds));
    ConcatMapMember(stus, f, key);
    if key in PersonVars(stus, ds, BuiltDayBlocks(ds)) {
      var j :| 0 <= j < |stus| && key in f(stus[j]);
      StudentVarsMember(stus[j], ds, key);
    }
    if !key.U? && key.s in stus && key.d in ds && DayKey(key.s, key.d, DayLen, key) {
      var j :| 0 <= j < |stus| && stus[j] == key.s;
      StudentVarsMember(stus[j], ds, key);
      assert key in f(stus[j]);
    }
  }

  lemma UVarsMember(ds: seq<Day>, key: VarKey)
    ensures key in UVars(BuiltBlocks(ds)) <==> key.U? && key.d in ds && key.i < DayLen
  {
    var blks := BuiltBlocks(ds);
    var f := (b: Block) => [U(b.day, b.idx)];
    ConcatMapMember(blks, f, key);
    if key in UVars(blks) {
      var j :| 0 <= j < |blks| && key in f(blks[j]);
      AllBlocksMember(ds, WindowStart, WindowEnd, blks[j]);
    }
    if key.U? && key.d in ds && key.i < DayLen {
      var b := Block(key.d, key.i, WindowStart + BlockMinutes * key.i, WindowStart + BlockMinutes * key.i + BlockMinutes);
      AllBlocksMember(ds, WindowStart, WindowEnd, b);
      var j :| 0 <= j < |blks| && blks[j] == b;
      assert key in f(blks[j]);
    }
  }

  /** The variables build_model creates are exactly the IsVar keys: in
      particular start<k>[s,d,i] exists iff blocks i .. i+k-1 all exist. */
  lemma VarsMember(stus: seq<Student>, ds: seq<Day>, key: VarKey)
    requires NoDup(ds)
    ensures key in BuiltVars(stus, ds) <==> IsVar(stus, ds, key)
  {
    var pv, uv := PersonVars(stus, ds, BuiltDayBlocks(ds)), UVars(BuiltBlocks(ds));
    assert BuiltVars(stus, ds) == pv + uv;
    assert key in BuiltVars(stus, ds) <==> key in pv || key in uv;
    PersonVarsMember(stus, ds, key);
    UVarsMember(ds, key);
    match key
    case X(s, d, i) =>
    case Y(s, d) =>
    case Start(k, s, d, i) =>
    case U(d, i) =>
  }

  /** Every x the link constraints of an existing start<k> mention exists. */
  lemma LinkTargetsExist(stus: seq<Student>, ds: seq<Day>, k: nat, s: Student, d: Day, i: nat, j: nat)
    requires NoDup(ds)
    requires Start(k, s, d, i) in BuiltVars(stus, ds) && j < k
    ensures X(s, d, i + j) in BuiltVars(stus, ds)
  {
    VarsMember(stus, ds, Start(k, s, d, i));
    VarsMember(stus, ds, X(s, d, i + j));
  }

  // ---------------------------------------------------------------- what one constraint means

  /** How many students the answer puts on block i of day d. */
  function Staffing(stus: seq<Student>, d: Day, i: nat, val: Valuation): int
  {
    Sum(Values(XKeysAt(stus, d, i), val))
  }

  /** total_hrs of student s: the blocks the answer gives them. */
  function WeeklyHours(s: Student, blks: seq<Block>, val: Valuation): int
  {
    Sum(Values(StudentXKeys(s, blks), val))
  }

  /** total_all: the blocks the answer gives anybody, counted per student. */
  function TotalHours(stus: seq<Student>, blks: seq<Block>, val: Valuation): int
  {
    Sum(Values(AllXKeys(stus, blks), val))
  }

  lemma EvalSingle(t: Term, val: Valuation)
    ensures Eval([t], val) == t.coef * Value(val, t.key)
  {
    assert [t][..0] == [];
  }

  /** cover_d_i holds iff the block is flagged uncovered or some student works it. */
  lemma CoverMeaning(stus: seq<Student>, b: Block, val: Valuation)
    requires Binary(val)
    ensures Satisfies(CoverOf(stus, b), val) <==>
            Value(val, U(b.day, b.idx)) == 1 || exists j :: 0 <= j < |stus| && Value(val, X(stus[j], b.day, b.idx)) == 1
  {
    var keys := XKeysAt(stus, b.day, b.idx);
    var vs := Values(keys, val);
    EvalAppend(Ones(keys), [Term(1, U(b.day, b.idx))], val);
    EvalScaled(1, keys, val);
    EvalSingle(Term(1, U(b.day, b.idx)), val);
    BinaryValues(keys, val);
    SumBinaryBounds(vs);
    SumBinaryPositive(vs);
    assert forall j :: 0 <= j < |stus| ==> vs[j] == Value(val, X(stus[j], b.day, b.idx));
    assert Value(val, U(b.day, b.idx)) == 0 || Value(val, U(b.day, b.idx)) == 1;
  }

  /** ovl_d_i holds iff at most maxovl students work the block. */
  lemma OverlapMeaning(stus: seq<Student>, maxovl: int, b: Block, val: Valuation)
    ensures Satisfies(OvlOf(stus, maxovl, b), val) <==> Staffing(stus, b.day, b.idx, val) <= maxovl
  {
    EvalScaled(1, XKeysAt(stus, b.day, b.idx), val);
  }

  /** minH_s and maxH_s hold iff the student's week is between minh and maxh blocks. */
  lemma HoursMeaning(blks: seq<Block>, minh: int, maxh: int, s: Student, val: Valuation)
    ensures SatisfiesAll(HoursOf(blks, minh, maxh, s), val) <==> minh <= WeeklyHours(s, blks, val) <= maxh
  {
    EvalScaled(1, StudentXKeys(s, blks), val);
    var cs := HoursOf(blks, minh, maxh, s);
    assert cs[0] in cs && cs[1] in cs;
  }

  /** AvgLow and AvgHigh hold iff the total lies between avg_low and avg_high
      times the number of students. */
  lemma FleetMeaning(stus: seq<Student>, blks: seq<Block>, avgLow: int, avgHigh: int, val: Valuation)
    ensures SatisfiesAll(FleetSpec(stus, blks, avgLow, avgHigh), val) <==>
            avgLow * |stus| <= TotalHours(stus, blks, val) <= avgHigh * |stus|
  {
    EvalScaled(1, AllXKeys(stus, blks), val);
    var cs := FleetSpec(stus, blks, avgLow, avgHigh);
    assert cs[0] in cs && cs[1] in cs;
  }

  /** The fleet total is the sum of the students' weekly hours. */
  lemma {:induction false} TotalIsSumOfHours(stus: seq<Student>, blks: seq<Block>, val: Valuation)
    ensures TotalHours(stus, blks, val) == Sum(seq(|stus|, j requires 0 <= j < |stus| => WeeklyHours(stus[j], blks, val)))
  {
    var hs := seq(|stus|, j requires 0 <= j < |stus| => WeeklyHours(stus[j], blks, val));
    if stus != [] {
      var init := stus[..|stus| - 1];
      var last := stus[|stus| - 1];
      TotalIsSumOfHours(init, blks, val);
      assert AllXKeys(stus, blks) == AllXKeys(init, blks) + StudentXKeys(last, blks);
      ValuesAppend(AllXKeys(init, blks), StudentXKeys(last, blks), val);
      SumAppend(Values(AllXKeys(init, blks), val), Values(StudentXKeys(last, blks), val));
      assert hs[..|stus| - 1] == seq(|init|, j requires 0 <= j < |init| => WeeklyHours(init[j], blks, val));
    }
  }

  /** Coverage and overlap each emit one constraint per block, in block order. */
  lemma {:induction false} OnePerBlock(blks: seq<Block>, stus: seq<Student>, maxovl: int)
    ensures |CoverageSpec(blks, stus)| == |blks| && |OverlapSpec(blks, stus, maxovl)| == |blks|
    ensures forall j :: 0 <= j < |blks| ==> CoverageSpec(blks, stus)[j] == CoverOf(stus, blks[j])
    ensures forall j :: 0 <= j < |blks| ==> OverlapSpec(blks, stus, maxovl)[j] == OvlOf(stus, maxovl, blks[j])
  {
    if blks != [] {
      var init := blks[..|blks| - 1];
      OnePerBlock(init, stus, maxovl);
      forall j | 0 <= j < |init| ensures blks[j] == init[j] {
      }
    }
  }

  /** For the built blocks, no two coverage (or overlap) constraints share a
      name: each block has exactly one of each. */
  lemma OneCoverPerSlot(stus: seq<Student>, ds: seq<Day>, maxovl: int)
    requires NoDup(ds)
    ensures forall j, k :: 0 <= j < k < |CoverageSpec(BuiltBlocks(ds), stus)| ==>
      CoverageSpec(BuiltBlocks(ds), stus)[j].tag != CoverageSpec(BuiltBlocks(ds), stus)[k].tag
    ensures forall j, k :: 0 <= j < k < |OverlapSpec(BuiltBlocks(ds), stus, maxovl)| ==>
      OverlapSpec(BuiltBlocks(ds), stus, maxovl)[j].tag != OverlapSpec(BuiltBlocks(ds), stus, maxovl)[k].tag
  {
    OnePerBlock(BuiltBlocks(ds), stus, maxovl);
    AllBlocksUnique(ds, WindowStart, WindowEnd);
  }


  /** The objective's value: 1000 per uncovered block, 1 per block worked by
      a student, day_cost per student-day worked. */
  lemma ObjectiveValue(stus: seq<Student>, ds: seq<Day>, blks: seq<Block>, dayCost: int, val: Valuation)
    ensures Eval(ObjectiveSpec(stus, ds, blks, dayCost), val)
         == BigWeight * Sum(Values(UKeys(blks), val)) + TotalHours(stus, blks, val)
          + dayCost * Sum(Values(YKeys(stus, ds), val))
  {
    var us, xs, ys := Scaled(BigWeight, UKeys(blks)), Ones(AllXKeys(stus, blks)), Scaled(dayCost, YKeys(stus, ds));
    EvalAppend(us + xs, ys, val);
    EvalAppend(us, xs, val);
    EvalScaled(BigWeight, UKeys(blks), val);
    EvalScaled(1, AllXKeys(stus, blks), val);
    EvalScaled(dayCost, YKeys(stus, ds), val);
  }

  // ---------------------------------------------------------------- what a solution means

  /** An answer the solver may return with status Optimal or Feasible: binary
      and satisfying every constraint of the built model. */
  predicate Solves(stus: seq<Student>, ds: seq<Day>, stmap: map<Student, seq<ClassInterval>>, p: Params, val: Valuation)
  {
    Binary(val) && SatisfiesAll(BuiltConstraints(stus, ds, stmap, p), val)
  }

  /** Where each family sits in the emitted constraint list. */
  lemma FamilyIn(stus: seq<Student>, ds: seq<Day>, stmap: map<Student, seq<ClassInterval>>, p: Params, c: Constraint)
    ensures c in CoverageSpec(BuiltBlocks(ds), stus) ==> c in BuiltConstraints(stus, ds, stmap, p)
    ensures c in OverlapSpec(BuiltBlocks(ds), stus, p.maxovl) ==> c in BuiltConstraints(stus, ds, stmap, p)
    ensures c in HoursSpec(stus, BuiltBlocks(ds), p.minh, p.maxh) ==> c in BuiltConstraints(stus, ds, stmap, p)
    ensures c in FleetSpec(stus, BuiltBlocks(ds), p.avgLow, p.avgHigh) ==> c in BuiltConstraints(stus, ds, stmap, p)
    ensures c in BusySpec(stus, ds, BuiltDayBlocks(ds), stmap) ==> c in BuiltConstraints(stus, ds, stmap, p)
    ensures c in ShiftSpec(stus, ds, BuiltDayBlocks(ds), BuiltVars(stus, ds)) ==> c in BuiltConstraints(stus, ds, stmap, p)
  {
  }

  /** The reference block i of day d in the default window. */
  function BuiltBlock(d: Day, i: nat): Block
  {
    Block(d, i, WindowStart + BlockMinutes * i, WindowStart + BlockMinutes * i + BlockMinutes)
  }

  lemma BuiltBlockIn(ds: seq<Day>, d: Day, i: nat)
    requires d in ds && i < DayLen
    ensures BuiltBlock(d, i) in BuiltBlocks(ds)
  {
    AllBlocksMember(ds, WindowStart, WindowEnd, BuiltBlock(d, i));
  }

  /** Every block of every listed day is worked by someone or flagged uncovered. */
  lemma ModelCoverage(stus: seq<Student>, ds: seq<Day>, stmap: map<Student, seq<ClassInterval>>, p: Params,
                      val: Valuation, d: Day, i: nat)
    requires Solves(stus, ds, stmap, p, val)
    requires d in ds && i < DayLen
    ensures Value(val, U(d, i)) == 1 || exists j :: 0 <= j < |stus| && Value(val, X(stus[j], d, i)) == 1
  {
    var blks := BuiltBlocks(ds);
    var b := BuiltBlock(d, i);
    BuiltBlockIn(ds, d, i);
    var j :| 0 <= j < |blks| && blks[j] == b;
    var f := (b: Block) => [CoverOf(stus, b)];
    ConcatMapMember(blks, f, CoverOf(stus, b));
    assert CoverOf(stus, b) in f(blks[j]);
    FamilyIn(stus, ds, stmap, p, CoverOf(stus, b));
    CoverMeaning(stus, b, val);
  }

  /** No block has more than maxovl students. */
  lemma ModelOverlap(stus: seq<Student>, ds: seq<Day>, stmap: map<Student, seq<ClassInterval>>, p: Params,
                     val: Valuation, d: Day, i: nat)
    requires Solves(stus, ds, stmap, p, val)
    requires d in ds && i < DayLen
    ensures Staffing(stus, d, i, val) <= p.maxovl
  {
    var blks := BuiltBlocks(ds);
    var b := BuiltBlock(d, i);
    BuiltBlockIn(ds, d, i);
    var j :| 0 <= j < |blks| && blks[j] == b;
    var f := (b: Block) => [OvlOf(stus, p.maxovl, b)];
    ConcatMapMember(blks, f, OvlOf(stus, p.maxovl, b));
    assert OvlOf(stus, p.maxovl, b) in f(blks[j]);
    FamilyIn(stus, ds, stmap, p, OvlOf(stus, p.maxovl, b));
    OverlapMeaning(stus, p.maxovl, b, val);
  }

  /** Every student works between minh and maxh blocks in the week. */
  lemma ModelHours(stus: seq<Student>, ds: seq<Day>, stmap: map<Student, seq<ClassInterval>>, p: Params,
                   val: Valuation, s: Student)
    requires Solves(stus, ds, stmap, p, val)
    requires s in stus
    ensures p.minh <= WeeklyHours(s, BuiltBlocks(ds), val) <= p.maxh
  {
    var blks := BuiltBlocks(ds);
    var f := (s: Student) => HoursOf(blks, p.minh, p.maxh, s);
    var j :| 0 <= j < |stus| && stus[j] == s;
    forall c | c in HoursOf(blks, p.minh, p.maxh, s) ensures Satisfies(c, val) {
      ConcatMapMember(stus, f, c);
      assert c in f(stus[j]);
      FamilyIn(stus, ds, stmap, p, c);
    }
    HoursMeaning(blks, p.minh, p.maxh, s, val);
  }

  /** The total of all students' hours is between avg_low and avg_high per student. */
  lemma ModelFleet(stus: seq<Student>, ds: seq<Day>, stmap: map<Student, seq<ClassInterval>>, p: Params, val: Valuation)
    requires Solves(stus, ds, stmap, p, val)
    ensures p.avgLow * |stus| <= Sum(seq(|stus|, j requires 0 <= j < |stus| => WeeklyHours(stus[j], BuiltBlocks(ds), val)))
                              <= p.avgHigh * |stus|
  {
    var blks := BuiltBlocks(ds);
    forall c | c in FleetSpec(stus, blks, p.avgLow, p.avgHigh) ensures Satisfies(c, val) {
      FamilyIn(stus, ds, stmap, p, c);
    }
    FleetMeaning(stus, blks, p.avgLow, p.avgHigh, val);
    TotalIsSumOfHours(stus, blks, val);
  }

  /** busy_s_d_i, the constraint x[s,d,i] == 0. */
  function BusyConstraint(s: Student, d: Day, i: nat): Constraint
  {
    Constraint(Busy(s, d, i), [Term(1, X(s, d, i))], Eq, 0)
  }

  lemma BusyDayMember(s': Student, d': Day, cl: seq<ClassInterval>, s: Student, d: Day, i: nat)
    ensures BusyConstraint(s, d, i) in BusyDay(s', d', cl, DaySlots(WindowStart, WindowEnd)) <==>
            s' == s && d' == d && i < DayLen && !IsFree(cl, d, BuiltBlock(d, i).start, BuiltBlock(d, i).end)
  {
    var c := BusyConstraint(s, d, i);
    var slots := DaySlots(WindowStart, WindowEnd);
    var fb := (sl: Slot) => BusyAt(s', d', cl, sl);
    ConcatMapMember(slots, fb, c);
    if s' == s && d' == d && i < DayLen && !IsFree(cl, d, BuiltBlock(d, i).start, BuiltBlock(d, i).end) {
      assert c in fb(slots[i]);
    }
  }

  lemma BusyStudentMember(s': Student, ds: seq<Day>, cl: seq<ClassInterval>, s: Student, d: Day, i: nat)
    requires NoDup(ds)
    ensures BusyConstraint(s, d, i) in BusyStudent(s', BuiltDayBlocks(ds), cl, ds) <==>
            s' == s && d in ds && i < DayLen && !IsFree(cl, d, BuiltBlock(d, i).start, BuiltBlock(d, i).end)
  {
    var c := BusyConstraint(s, d, i);
    var dbs := BuiltDayBlocks(ds);
    var fd := (d: Day) => BusyDay(s', d, cl, SlotsFor(dbs, d));
    ConcatMapMember(ds, fd, c);
    if c in BusyStudent(s', dbs, cl, ds) {
      var b :| 0 <= b < |ds| && c in fd(ds[b]);
      BuiltSlots(ds, ds[b]);
      BusyDayMember(s', ds[b], cl, s, d, i);
    }
    if s' == s && d in ds && i < DayLen && !IsFree(cl, d, BuiltBlock(d, i).start, BuiltBlock(d, i).end) {
      var b :| 0 <= b < |ds| && ds[b] == d;
      BuiltSlots(ds, d);
      BusyDayMember(s', d, cl, s, d, i);
      assert c in fd(ds[b]);
    }
  }

  /** busy_s_d_i is emitted iff s is a student, d a listed day, i a block of
      the day and one of the student's classes overlaps that block. */
  lemma BusyPresent(stus: seq<Student>, ds: seq<Day>, stmap: map<Student, seq<ClassInterval>>, s: Student, d: Day, i: nat)
    requires NoDup(ds)
    ensures BusyConstraint(s, d, i) in BusySpec(stus, ds, BuiltDayBlocks(ds), stmap) <==>
            s in stus && d in ds && i < DayLen &&
            !IsFree(ClassesFor(stmap, s), d, BuiltBlock(d, i).start, BuiltBlock(d, i).end)
  {
    var dbs := BuiltDayBlocks(ds);
    var c := BusyConstraint(s, d, i);
    var fs := (s: Student) => BusyStudent(s, dbs, ClassesFor(stmap, s), ds);
    ConcatMapMember(stus, fs, c);
    if c in BusySpec(stus, ds, dbs, stmap) {
      var a :| 0 <= a < |stus| && c in fs(stus[a]);
      BusyStudentMember(stus[a], ds, ClassesFor(stmap, stus[a]), s, d, i);
    }
    if s in stus && d in ds && i < DayLen &&
       !IsFree(ClassesFor(stmap, s), d, BuiltBlock(d, i).start, BuiltBlock(d, i).end) {
      var a :| 0 <= a < |stus| && stus[a] == s;
      BusyStudentMember(s, ds, ClassesFor(stmap, s), s, d, i);
      assert c in fs(stus[a]);
    }
  }

  /** A student is never given a block that one of their classes overlaps. */
  lemma ModelBusy(stus: seq<Student>, ds: seq<Day>, stmap: map<Student, seq<ClassInterval>>, p: Params,
                  val: Valuation, s: Student, d: Day, i: nat, k: nat)
    requires NoDup(ds)
    requires Solves(stus, ds, stmap, p, val)
    requires s in stus && d in ds && i < DayLen
    requires k < |ClassesFor(stmap, s)| && Overlaps(ClassesFor(stmap, s)[k], d, BuiltBlock(d, i).start, BuiltBlock(d, i).end)
    ensures Value(val, X(s, d, i)) == 0
  {
    BusyPresent(stus, ds, stmap, s, d, i);
    FamilyIn(stus, ds, stmap, p, BusyConstraint(s, d, i));
    assert Satisfies(BusyConstraint(s, d, i), val);
    EvalSingle(Term(1, X(s, d, i)), val);
  }

  /** The shift-shape block of a listed student and day is part of the built model. */
  lemma ShiftDayIn(stus: seq<Student>, ds: seq<Day>, stmap: map<Student, seq<ClassInterval>>, p: Params,
                   s: Student, d: Day, c: Constraint)
    requires NoDup(ds)
    requires s in stus && d in ds
    requires c in ShiftDay(s, d, Range(DayLen), BuiltVars(stus, ds))
    ensures c in BuiltConstraints(stus, ds, stmap, p)
  {
    var dbs := BuiltDayBlocks(ds);
    var vars := BuiltVars(stus, ds);
    BuiltSlots(ds, d);
    var a :| 0 <= a < |stus| && stus[a] == s;
    var b :| 0 <= b < |ds| && ds[b] == d;
    var fd := (d: Day) => ShiftDay(s, d, Indices(SlotsFor(dbs, d)), vars);
    var fs := (s: Student) => ShiftStudent(s, dbs, vars, ds);
    assert c in fd(ds[b]);
    ConcatMapMember(ds, fd, c);
    assert c in fs(stus[a]);
    ConcatMapMember(stus, fs, c);
    FamilyIn(stus, ds, stmap, p, c);
  }

  /** Each student's day is empty or a single run of 2 to 4 consecutive blocks. */
  lemma ModelShifts(stus: seq<Student>, ds: seq<Day>, stmap: map<Student, seq<ClassInterval>>, p: Params,
                    val: Valuation, s: Student, d: Day)
    requires NoDup(ds)
    requires Solves(stus, ds, stmap, p, val)
    requires s in stus && d in ds
    ensures ShiftShapeOk(val, s, d, DayLen)
  {
    var vars := BuiltVars(stus, ds);
    forall c | c in ShiftDay(s, d, Range(DayLen), vars) ensures Satisfies(c, val) {
      ShiftDayIn(stus, ds, stmap, p, s, d, c);
    }
    forall k: nat, i: nat | 2 <= k <= 4 && Start(k, s, d, i) in vars ensures i + k <= DayLen {
      VarsMember(stus, ds, Start(k, s, d, i));
    }
    ShiftShapeSound(s, d, DayLen, vars, val);
  }

  /** The converse of ModelShifts: any empty day, or any single run of 2 to 4
      blocks inside the day with its own start variable set and every other
      start at 0, satisfies the shift-shape constraints the model emits for
      that student and day. */
  lemma ModelShiftsComplete(stus: seq<Student>, ds: seq<Day>, val: Valuation, s: Student, d: Day, k0: nat, i0: nat)
    requires NoDup(ds)
    requires s in stus && d in ds && Binary(val)
    requires StartsAre(val, s, d, Value(val, Y(s, d)) == 1, k0, i0)
    requires Value(val, Y(s, d)) == 0 ==> forall i :: 0 <= i < DayLen ==> Value(val, X(s, d, i)) == 0
    requires Value(val, Y(s, d)) == 1 ==> IsRun(val, s, d, DayLen, k0, i0)
    ensures SatisfiesAll(ShiftDay(s, d, Range(DayLen), BuiltVars(stus, ds)), val)
  {
    VarsMember(stus, ds, Start(k0, s, d, i0));
    ShiftShapeComplete(s, d, DayLen, BuiltVars(stus, ds), val, k0, i0);
  }

  // ---------------------------------------------------------------- the answer where nobody works

  /** The answer that gives nobody a block and flags every block uncovered. */
  function AllUncovered(ds: seq<Day>): Valuation
  {
    map k | k in UVars(BuiltBlocks(ds)) :: 1
  }

  /** The constraint mentions no u and holds when its left side is 0. */
  predicate ZeroHolds(c: Constraint)
  {
    (forall t :: t in c.lhs ==> !t.key.U?) && Holds(0, c.rel, c.bound)
  }

  lemma {:induction false} EvalZero(e: LinExpr, val: Valuation)
    requires forall t :: t in e ==> Value(val, t.key) == 0
    ensures Eval(e, val) == 0
  {
    if e != [] {
      assert forall t :: t in e[..|e| - 1] ==> t in e;
      EvalZero(e[..|e| - 1], val);
      assert e[|e| - 1] in e;
    }
  }

  lemma ScaledKeys(c: int, keys: seq<VarKey>, t: Term)
    requires t in Scaled(c, keys)
    ensures t.key in keys
  {
    var j :| 0 <= j < |keys| && Scaled(c, keys)[j] == t;
  }

  lemma StartListNoU(k: nat, s: Student, d: Day, vars: seq<VarKey>, idxs: seq<nat>, c: int, t: Term)
    requires t in Scaled(c, StartList(k, s, d, vars, idxs))
    ensures !t.key.U?
  {
    ScaledKeys(c, StartList(k, s, d, vars, idxs), t);
    StartListMember(k, s, d, vars, idxs, t.key);
  }

  lemma ShiftsOfZero(s: Student, d: Day, idxs: seq<nat>, vars: seq<VarKey>)
    ensures ZeroHolds(ShiftsOf(s, d, idxs, vars))
  {
    var l2, l3, l4 := StartList(2, s, d, vars, idxs), StartList(3, s, d, vars, idxs), StartList(4, s, d, vars, idxs);
    forall t | t in ShiftsOf(s, d, idxs, vars).lhs ensures !t.key.U? {
      if t in Ones(l2 + l3 + l4) {
        ScaledKeys(1, l2 + l3 + l4, t);
        assert t.key in l2 || t.key in l3 || t.key in l4;
        if t.key in l2 { StartListMember(2, s, d, vars, idxs, t.key); }
        else if t.key in l3 { StartListMember(3, s, d, vars, idxs, t.key); }
        else { StartListMember(4, s, d, vars, idxs, t.key); }
      }
    }
  }

  lemma SumXOfZero(s: Student, d: Day, idxs: seq<nat>, vars: seq<VarKey>)
    ensures ZeroHolds(SumXOf(s, d, idxs, vars))
  {
    var xs := XDayKeys(s, d, idxs);
    forall t | t in SumXOf(s, d, idxs, vars).lhs ensures !t.key.U? {
      if t in Ones(xs) {
        ScaledKeys(1, xs, t);
      } else if t in Scaled(-2, StartList(2, s, d, vars, idxs)) {
        StartListNoU(2, s, d, vars, idxs, -2, t);
      } else if t in Scaled(-3, StartList(3, s, d, vars, idxs)) {
        StartListNoU(3, s, d, vars, idxs, -3, t);
      } else {
        StartListNoU(4, s, d, vars, idxs, -4, t);
      }
    }
  }

  lemma LinkKZero(k: nat, s: Student, d: Day, i: nat, c: Constraint)
    requires c in LinkK(k, s, d, i)
    ensures ZeroHolds(c)
  {
    var j :| 0 <= j < k && LinkK(k, s, d, i)[j] == c;
    assert c == LinkOf(k, s, d, i, j);
  }

  lemma LinksAtZero(s: Student, d: Day, vars: seq<VarKey>, i: nat, c: Constraint)
    requires c in LinksAt(s, d, vars, i)
    ensures ZeroHolds(c)
  {
    var l2 := if Start(2, s, d, i) in vars then LinkK(2, s, d, i) else [];
    var l3 := if Start(3, s, d, i) in vars then LinkK(3, s, d, i) else [];
    var l4 := if Start(4, s, d, i) in vars then LinkK(4, s, d, i) else [];
    assert LinksAt(s, d, vars, i) == l2 + l3 + l4;
    if c in l2 {
      LinkKZero(2, s, d, i, c);
    } else if c in l3 {
      LinkKZero(3, s, d, i, c);
    } else {
      LinkKZero(4, s, d, i, c);
    }
  }

  lemma LinksDayZero(s: Student, d: Day, vars: seq<VarKey>, idxs: seq<nat>, c: Constraint)
    requires c in LinksDay(s, d, vars, idxs)
    ensures ZeroHolds(c)
  {
    var f := (i: nat) => LinksAt(s, d, vars, i);
    ConcatMapMember(idxs, f, c);
    var j :| 0 <= j < |idxs| && c in f(idxs[j]);
    LinksAtZero(s, d, vars, idxs[j], c);
  }

  lemma ShiftSpecZero(stus: seq<Student>, ds: seq<Day>, dbs: map<Day, seq<Slot>>, vars: seq<VarKey>, c: Constraint)
    requires c in ShiftSpec(stus, ds, dbs, vars)
    ensures ZeroHolds(c)
  {
    var fs := (s: Student) => ShiftStudent(s, dbs, vars, ds);
    ConcatMapMember(stus, fs, c);
    var a :| 0 <= a < |stus| && c in fs(stus[a]);
    var fd := (d: Day) => ShiftDay(stus[a], d, Indices(SlotsFor(dbs, d)), vars);
    ConcatMapMember(ds, fd, c);
    var b :| 0 <= b < |ds| && c in fd(ds[b]);
    var idxs := Indices(SlotsFor(dbs, ds[b]));
    if c == ShiftsOf(stus[a], ds[b], idxs, vars) {
      ShiftsOfZero(stus[a], ds[b], idxs, vars);
    } else if c == SumXOf(stus[a], ds[b], idxs, vars) {
      SumXOfZero(stus[a], ds[b], idxs, vars);
    } else {
      LinksDayZero(stus[a], ds[b], vars, idxs, c);
    }
  }

  lemma BusyDayZero(s: Student, d: Day, cl: seq<ClassInterval>, slots: seq<Slot>, c: Constraint)
    requires c in BusyDay(s, d, cl, slots)
    ensures ZeroHolds(c)
  {
    var fb := (sl: Slot) => BusyAt(s, d, cl, sl);
    ConcatMapMember(slots, fb, c);
  }

  lemma BusyStudentZero(s: Student, dbs: map<Day, seq<Slot>>, cl: seq<ClassInterval>, ds: seq<Day>, c: Constraint)
    requires c in BusyStudent(s, dbs, cl, ds)
    ensures ZeroHolds(c)
  {
    var fd := (d: Day) => BusyDay(s, d, cl, SlotsFor(dbs, d));
    ConcatMapMember(ds, fd, c);
    var b :| 0 <= b < |ds| && c in fd(ds[b]);
    BusyDayZero(s, ds[b], cl, SlotsFor(dbs, ds[b]), c);
  }

  lemma BusySpecZero(stus: seq<Student>, ds: seq<Day>, dbs: map<Day, seq<Slot>>, stmap: map<Student, seq<ClassInterval>>, c: Constraint)
    requires c in BusySpec(stus, ds, dbs, stmap)
    ensures ZeroHolds(c)
  {
    var fs := (s: Student) => BusyStudent(s, dbs, ClassesFor(stmap, s), ds);
    ConcatMapMember(stus, fs, c);
    var a :| 0 <= a < |stus| && c in fs(stus[a]);
    BusyStudentZero(stus[a], dbs, ClassesFor(stmap, stus[a]), ds, c);
  }

  lemma HoursSpecZero(stus: seq<Student>, blks: seq<Block>, minh: int, maxh: int, c: Constraint)
    requires minh <= 0 <= maxh
    requires c in HoursSpec(stus, blks, minh, maxh)
    ensures ZeroHolds(c)
  {
    var f := (s: Student) => HoursOf(blks, minh, maxh, s);
    ConcatMapMember(stus, f, c);
    var a :| 0 <= a < |stus| && c in f(stus[a]);
    forall t | t in c.lhs ensures !t.key.U? {
      ScaledKeys(1, StudentXKeys(stus[a], blks), t);
    }
  }

  lemma AllXKeysNoU(stus: seq<Student>, blks: seq<Block>, t: Term)
    requires t in Ones(AllXKeys(stus, blks))
    ensures !t.key.U?
  {
    ScaledKeys(1, AllXKeys(stus, blks), t);
    var f := (s: Student) => StudentXKeys(s, blks);
    ConcatMapMember(stus, f, t.key);
  }

  lemma AllUncoveredValue(ds: seq<Day>, k: VarKey)
    ensures !k.U? ==> Value(AllUncovered(ds), k) == 0
    ensures k.U? && k.d in ds && k.i < DayLen ==> Value(AllUncovered(ds), k) == 1
  {
    UVarsMember(ds, k);
  }

  lemma CoverageAllUncovered(stus: seq<Student>, ds: seq<Day>, c: Constraint)
    requires c in CoverageSpec(BuiltBlocks(ds), stus)
    ensures Satisfies(c, AllUncovered(ds))
  {
    var val := AllUncovered(ds);
    var blks := BuiltBlocks(ds);
    var f := (b: Block) => [CoverOf(stus, b)];
    ConcatMapMember(blks, f, c);
    var j :| 0 <= j < |blks| && c in f(blks[j]);
    var b := blks[j];
    AllBlocksMember(ds, WindowStart, WindowEnd, b);
    var keys := XKeysAt(stus, b.day, b.idx);
    forall t | t in Ones(keys) ensures Value(val, t.key) == 0 {
      ScaledKeys(1, keys, t);
      AllUncoveredValue(ds, t.key);
    }
    EvalZero(Ones(keys), val);
    EvalAppend(Ones(keys), [Term(1, U(b.day, b.idx))], val);
    EvalSingle(Term(1, U(b.day, b.idx)), val);
    AllUncoveredValue(ds, U(b.day, b.idx));
  }

  lemma OverlapAllUncovered(stus: seq<Student>, ds: seq<Day>, maxovl: int, c: Constraint)
    requires 0 <= maxovl
    requires c in OverlapSpec(BuiltBlocks(ds), stus, maxovl)
    ensures Satisfies(c, AllUncovered(ds))
  {
    var val := AllUncovered(ds);
    var blks := BuiltBlocks(ds);
    var f := (b: Block) => [OvlOf(stus, maxovl, b)];
    ConcatMapMember(blks, f, c);
    var j :| 0 <= j < |blks| && c in f(blks[j]);
    var keys := XKeysAt(stus, blks[j].day, blks[j].idx);
    forall t | t in Ones(keys) ensures Value(val, t.key) == 0 {
      ScaledKeys(1, keys, t);
      AllUncoveredValue(ds, t.key);
    }
    EvalZero(Ones(keys), val);
  }

  lemma FleetAllUncovered(stus: seq<Student>, ds: seq<Day>, avgLow: int, avgHigh: int, c: Constraint)
    requires avgLow <= 0 <= avgHigh
    requires c in FleetSpec(stus, BuiltBlocks(ds), avgLow, avgHigh)
    ensures Satisfies(c, AllUncovered(ds))
  {
    var val := AllUncovered(ds);
    forall t | t in c.lhs ensures Value(val, t.key) == 0 {
      AllXKeysNoU(stus, BuiltBlocks(ds), t);
      AllUncoveredValue(ds, t.key);
    }
    EvalZero(c.lhs, val);
    assert avgLow * |stus| <= 0 <= avgHigh * |stus|;
  }

  lemma ZeroHoldsAllUncovered(ds: seq<Day>, c: Constraint)
    requires ZeroHolds(c)
    ensures Satisfies(c, AllUncovered(ds))
  {
    forall t | t in c.lhs ensures Value(AllUncovered(ds), t.key) == 0 {
      AllUncoveredValue(ds, t.key);
    }
    EvalZero(c.lhs, AllUncovered(ds));
  }

  /** With minh and avg_low at most 0 and maxh, avg_high and maxovl at least
      0, giving nobody a block and flagging every block uncovered satisfies
      the whole model, whatever the students' classes. */
  lemma AllUncoveredSolves(stus: seq<Student>, ds: seq<Day>, stmap: map<Student, seq<ClassInterval>>, p: Params)
    requires p.minh <= 0 <= p.maxh && p.avgLow <= 0 <= p.avgHigh && 0 <= p.maxovl
    ensures Solves(stus, ds, stmap, p, AllUncovered(ds))
  {
    var blks := BuiltBlocks(ds);
    var dbs := BuiltDayBlocks(ds);
    var vars := BuiltVars(stus, ds);
    var cs := BuiltConstraints(stus, ds, stmap, p);
    var cov, ovl, hrs := CoverageSpec(blks, stus), OverlapSpec(blks, stus, p.maxovl), HoursSpec(stus, blks, p.minh, p.maxh);
    var flt, bsy, sft := FleetSpec(stus, blks, p.avgLow, p.avgHigh), BusySpec(stus, ds, dbs, stmap), ShiftSpec(stus, ds, dbs, vars);
    assert cs == cov + ovl + hrs + flt + bsy + sft;
    forall c | c in cs ensures Satisfies(c, AllUncovered(ds)) {
      if c in cov {
        CoverageAllUncovered(stus, ds, c);
      } else if c in ovl {
        OverlapAllUncovered(stus, ds, p.maxovl, c);
      } else if c in flt {
        FleetAllUncovered(stus, ds, p.avgLow, p.avgHigh, c);
      } else if c in hrs {
        HoursSpecZero(stus, blks, p.minh, p.maxh, c);
        ZeroHoldsAllUncovered(ds, c);
      } else if c in bsy {
        BusySpecZero(stus, ds, dbs, stmap, c);
        ZeroHoldsAllUncovered(ds, c);
      } else {
        ShiftSpecZero(stus, ds, dbs, vars, c);
        ZeroHoldsAllUncovered(ds, c);
      }
    }
  }
}
