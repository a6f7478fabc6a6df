/** What build_model creates, stated as functions: the variable keys in the
    order the variable loops create them, the objective, and each family of
    constraints in the order the constraint loops emit them. */
module ModelSpec {
  import opened Common
  import opened Blocks
  import opened Availability
  import opened LinearModel

  /** The keyword parameters of build_model. */
  datatype Params = Params(minh: int, maxh: int, avgLow: int, avgHigh: int, maxovl: int, dayCost: int)

  const DefaultParams: Params := Params(6, 20, 8, 12, 3, 1)

  /** The weight of an uncovered block in the objective. */
  const BigWeight: int := 1000

  /** genblocks' default window, 07:30 to 17:30, in minutes after midnight. */
  const WindowStart: int := 450
  const WindowEnd: int := 1050

  function SlotsFor(dayBlocks: map<Day, seq<Slot>>, d: Day): seq<Slot>
  {
    if d in dayBlocks then dayBlocks[d] else []
  }

  function ClassesFor(stmap: map<Student, seq<ClassInterval>>, s: Student): seq<ClassInterval>
  {
    if s in stmap then stmap[s] else []
  }

  /** day_blocks as build_model builds it from blks. */
  function DayBlocksOf(ds: seq<Day>, blks: seq<Block>): map<Day, seq<Slot>>
  {
    map d | d in ds :: SlotsOf(blks, d)
  }

  // ---------------------------------------------------------------- variables

  /** The start<k> keys created at block i: start2 if block i+1 exists,
      start3 if block i+2 exists, start4 if block i+3 exists. */
  function StartVarsAt(s: Student, d: Day, idxs: seq<nat>, i: nat): seq<VarKey>
  {
    (if i + 1 in idxs then [Start(2, s, d, i)] else []) +
    (if i + 2 in idxs then [Start(3, s, d, i)] else []) +
    (if i + 3 in idxs then [Start(4, s, d, i)] else [])
  }

  function XVarsDay(s: Student, d: Day, slots: seq<Slot>): seq<VarKey>
  {
    ConcatMap(slots, (sl: Slot) => [X(s, d, sl.idx)])
  }

  function StartVarsDay(s: Student, d: Day, idxs: seq<nat>, slots: seq<Slot>): seq<VarKey>
  {
    ConcatMap(slots, (sl: Slot) => StartVarsAt(s, d, idxs, sl.idx))
  }

  lemma StartVarsDayStep(s: Student, d: Day, idxs: seq<nat>, slots: seq<Slot>, c: nat)
    requires c < |slots|
    ensures StartVarsDay(s, d, idxs, slots[..c + 1]) == StartVarsDay(s, d, idxs, slots[..c]) + StartVarsAt(s, d, idxs, slots[c].idx)
  {
    assert slots[..c + 1][..c] == slots[..c];
  }

  /** The keys created for one student and day: y, then x per block, then the
      shift starts per block. */
  function DayVars(s: Student, d: Day, slots: seq<Slot>): seq<VarKey>
  {
    [Y(s, d)] + XVarsDay(s, d, slots) + StartVarsDay(s, d, Indices(slots), slots)
  }

  function StudentVars(s: Student, ds: seq<Day>, dayBlocks: map<Day, seq<Slot>>): seq<VarKey>
  {
    ConcatMap(ds, (d: Day) => DayVars(s, d, SlotsFor(dayBlocks, d)))
  }

  function PersonVars(stus: seq<Student>, ds: seq<Day>, dayBlocks: map<Day, seq<Slot>>): seq<VarKey>
  {
    ConcatMap(stus, (s: Student) => StudentVars(s, ds, dayBlocks))
  }

  function UVars(blks: seq<Block>): seq<VarKey>
  {
    ConcatMap(blks, (b: Block) => [U(b.day, b.idx)])
  }

  /** Every variable key, in creation order. */
  function VarSpec(stus: seq<Student>, ds: seq<Day>, dayBlocks: map<Day, seq<Slot>>, blks: seq<Block>): seq<VarKey>
  {
    PersonVars(stus, ds, dayBlocks) + UVars(blks)
  }

  // ---------------------------------------------------------------- objective

  function UKeys(blks: seq<Block>): seq<VarKey>
  {
    seq(|blks|, j requires 0 <= j < |blks| => U(blks[j].day, blks[j].idx))
  }

  /** One student's x keys over all blocks, in blks order. */
  function StudentXKeys(s: Student, blks: seq<Block>): seq<VarKey>
  {
    seq(|blks|, j requires 0 <= j < |blks| => X(s, blks[j].day, blks[j].idx))
  }

  /** Every x key, student by student. */
  function AllXKeys(stus: seq<Student>, blks: seq<Block>): seq<VarKey>
  {
    ConcatMap(stus, (s: Student) => StudentXKeys(s, blks))
  }

  function YKeys(stus: seq<Student>, ds: seq<Day>): seq<VarKey>
  {
    ConcatMap(stus, (s: Student) => seq(|ds|, j requires 0 <= j < |ds| => Y(s, ds[j])))
  }

  /** big_weight * sum u + sum x + day_cost * sum y. */
  function ObjectiveSpec(stus: seq<Student>, ds: seq<Day>, blks: seq<Block>, dayCost: int): LinExpr
  {
    Scaled(BigWeight, UKeys(blks)) + Ones(AllXKeys(stus, blks)) + Scaled(dayCost, YKeys(stus, ds))
  }

  // ---------------------------------------------------------------- constraints

  /** The x keys of every student at one block. */
  function XKeysAt(stus: seq<Student>, d: Day, i: nat): seq<VarKey>
  {
    seq(|stus|, j requires 0 <= j < |stus| => X(stus[j], d, i))
  }

  /** cover_d_i: sum over students of x + u >= 1. */
  function CoverOf(stus: seq<Student>, b: Block): Constraint
  {
    Constraint(Cover(b.day, b.idx), Ones(XKeysAt(stus, b.day, b.idx)) + [Term(1, U(b.day, b.idx))], Ge, 1)
  }

  function CoverageSpec(blks: seq<Block>, stus: seq<Student>): seq<Constraint>
  {
    ConcatMap(blks, (b: Block) => [CoverOf(stus, b)])
  }

  /** ovl_d_i: sum over students of x <= maxovl. */
  function OvlOf(stus: seq<Student>, maxovl: int, b: Block): Constraint
  {
    Constraint(Ovl(b.day, b.idx), Ones(XKeysAt(stus, b.day, b.idx)), Le, maxovl)
  }

  function OverlapSpec(blks: seq<Block>, stus: seq<Student>, maxovl: int): seq<Constraint>
  {
    ConcatMap(blks, (b: Block) => [OvlOf(stus, maxovl, b)])
  }

  /** minH_s and maxH_s on the student's total over all blocks. */
  function HoursOf(blks: seq<Block>, minh: int, maxh: int, s: Student): seq<Constraint>
  {
    [Constraint(MinH(s), Ones(StudentXKeys(s, blks)), Ge, minh),
     Constraint(MaxH(s), Ones(StudentXKeys(s, blks)), Le, maxh)]
  }

  function HoursSpec(stus: seq<Student>, blks: seq<Block>, minh: int, maxh: int): seq<Constraint>
  {
    ConcatMap(stus, (s: Student) => HoursOf(blks, minh, maxh, s))
  }

  /** AvgLow and AvgHigh on the total over every student and block. */
  function FleetSpec(stus: seq<Student>, blks: seq<Block>, avgLow: int, avgHigh: int): seq<Constraint>
  {
    [Constraint(AvgLow, Ones(AllXKeys(stus, blks)), Ge, avgLow * |stus|),
     Constraint(AvgHigh, Ones(AllXKeys(stus, blks)), Le, avgHigh * |stus|)]
  }

  /** busy_s_d_i: x == 0, emitted only when the block is not free. */
  function BusyAt(s: Student, d: Day, classes: seq<ClassInterval>, sl: Slot): seq<Constraint>
  {
    if IsFree(classes, d, sl.start, sl.end) then []
    else [Constraint(Busy(s, d, sl.idx), [Term(1, X(s, d, sl.idx))], Eq, 0)]
  }

  function BusyDay(s: Student, d: Day, classes: seq<ClassInterval>, slots: seq<Slot>): seq<Constraint>
  {
    ConcatMap(slots, (sl: Slot) => BusyAt(s, d, classes, sl))
  }

  function BusyStudent(s: Student, dayBlocks: map<Day, seq<Slot>>, classes: seq<ClassInterval>, ds: seq<Day>): seq<Constraint>
  {
    ConcatMap(ds, (d: Day) => BusyDay(s, d, classes, SlotsFor(dayBlocks, d)))
  }

  function BusySpec(stus: seq<Student>, ds: seq<Day>, dayBlocks: map<Day, seq<Slot>>, stmap: map<Student, seq<ClassInterval>>): seq<Constraint>
  {
    ConcatMap(stus, (s: Student) => BusyStudent(s, dayBlocks, ClassesFor(stmap, s), ds))
  }

  /** s<k>_list: the start<k> variables of the day that exist, in block order. */
  function StartList(k: nat, s: Student, d: Day, vars: seq<VarKey>, idxs: seq<nat>): seq<VarKey>
  {
    ConcatMap(idxs, (i: nat) => if Start(k, s, d, i) in vars then [Start(k, s, d, i)] else [])
  }

  /** sum_x_day: the day's x keys. */
  function XDayKeys(s: Student, d: Day, idxs: seq<nat>): seq<VarKey>
  {
    seq(|idxs|, j requires 0 <= j < |idxs| => X(s, d, idxs[j]))
  }

  /** shifts_s_d: sum of all shift starts == y. */
  function ShiftsOf(s: Student, d: Day, idxs: seq<nat>, vars: seq<VarKey>): Constraint
  {
    Constraint(Shifts(s, d),
      Ones(StartList(2, s, d, vars, idxs) + StartList(3, s, d, vars, idxs) + StartList(4, s, d, vars, idxs))
        + [Term(-1, Y(s, d))],
      Eq, 0)
  }

  /** sumx_s_d: sum_x_day == 2 * sum start2 + 3 * sum start3 + 4 * sum start4. */
  function SumXOf(s: Student, d: Day, idxs: seq<nat>, vars: seq<VarKey>): Constraint
  {
    Constraint(SumX(s, d),
      Ones(XDayKeys(s, d, idxs))
        + Scaled(-2, StartList(2, s, d, vars, idxs))
        + Scaled(-3, StartList(3, s, d, vars, idxs))
        + Scaled(-4, StartList(4, s, d, vars, idxs)),
      Eq, 0)
  }

  /** One link x[s,d,i+j] >= start<k>[s,d,i]. */
  function LinkOf(k: nat, s: Student, d: Day, i: nat, j: nat): Constraint
  {
    Constraint(Link(k, s, d, i, j), [Term(1, X(s, d, i + j)), Term(-1, Start(k, s, d, i))], Ge, 0)
  }

  /** x[s,d,i+j] >= start<k>[s,d,i] for j = 0..k-1. */
  function LinkK(k: nat, s: Student, d: Day, i: nat): seq<Constraint>
  {
    seq(k, j requires 0 <= j < k => LinkOf(k, s, d, i, j))
  }

  /** The link constraints of the start variables that exist at block i. */
  function LinksAt(s: Student, d: Day, vars: seq<VarKey>, i: nat): seq<Constraint>
  {
    (if Start(2, s, d, i) in vars then LinkK(2, s, d, i) else []) +
    (if Start(3, s, d, i) in vars then LinkK(3, s, d, i) else []) +
    (if Start(4, s, d, i) in vars then LinkK(4, s, d, i) else [])
  }

  function LinksDay(s: Student, d: Day, vars: seq<VarKey>, idxs: seq<nat>): seq<Constraint>
  {
    ConcatMap(idxs, (i: nat) => LinksAt(s, d, vars, i))
  }

  /** The shift-shape block for one student and day. */
  function ShiftDay(s: Student, d: Day, idxs: seq<nat>, vars: seq<VarKey>): seq<Constraint>
  {
    [ShiftsOf(s, d, idxs, vars), SumXOf(s, d, idxs, vars)] + LinksDay(s, d, vars, idxs)
  }

  function ShiftStudent(s: Student, dayBlocks: map<Day, seq<Slot>>, vars: seq<VarKey>, ds: seq<Day>): seq<Constraint>
  {
    ConcatMap(ds, (d: Day) => ShiftDay(s, d, Indices(SlotsFor(dayBlocks, d)), vars))
  }

  function ShiftSpec(stus: seq<Student>, ds: seq<Day>, dayBlocks: map<Day, seq<Slot>>, vars: seq<VarKey>): seq<Constraint>
  {
    ConcatMap(stus, (s: Student) => ShiftStudent(s, dayBlocks, vars, ds))
  }

  /** Every constraint build_model emits, in order. */
  function ModelConstraints(stus: seq<Student>, ds: seq<Day>, blks: seq<Block>,
                            dayBlocks: map<Day, seq<Slot>>, stmap: map<Student, seq<ClassInterval>>,
                            vars: seq<VarKey>, p: Params): seq<Constraint>
  {
    CoverageSpec(blks, stus) + OverlapSpec(blks, stus, p.maxovl) + HoursSpec(stus, blks, p.minh, p.maxh)
      + FleetSpec(stus, blks, p.avgLow, p.avgHigh) + BusySpec(stus, ds, dayBlocks, stmap)
      + ShiftSpec(stus, ds, dayBlocks, vars)
  }

  // ---------------------------------------------------------------- one loop step

  lemma BusyDayStep(s: Student, d: Day, classes: seq<ClassInterval>, slots: seq<Slot>, c: nat)
    requires c < |slots|
    ensures BusyDay(s, d, classes, slots[..c + 1]) == BusyDay(s, d, classes, slots[..c]) + BusyAt(s, d, classes, slots[c])
  {
    assert slots[..c + 1][..c] == slots[..c];
  }

  lemma BusyStudentStep(s: Student, dayBlocks: map<Day, seq<Slot>>, classes: seq<ClassInterval>, ds: seq<Day>, b: nat)
    requires b < |ds|
    ensures BusyStudent(s, dayBlocks, classes, ds[..b + 1])
         == BusyStudent(s, dayBlocks, classes, ds[..b]) + BusyDay(s, ds[b], classes, SlotsFor(dayBlocks, ds[b]))
  {
    assert ds[..b + 1][..b] == ds[..b];
  }

  lemma BusySpecStep(stus: seq<Student>, ds: seq<Day>, dayBlocks: map<Day, seq<Slot>>, stmap: map<Student, seq<ClassInterval>>, a: nat)
    requires a < |stus|
    ensures BusySpec(stus[..a + 1], ds, dayBlocks, stmap)
         == BusySpec(stus[..a], ds, dayBlocks, stmap) + BusyStudent(stus[a], dayBlocks, ClassesFor(stmap, stus[a]), ds)
  {
    assert stus[..a + 1][..a] == stus[..a];
  }

  lemma LinksDayStep(s: Student, d: Day, vars: seq<VarKey>, idxs: seq<nat>, c: nat)
    requires c < |idxs|
    ensures LinksDay(s, d, vars, idxs[..c + 1]) == LinksDay(s, d, vars, idxs[..c]) + LinksAt(s, d, vars, idxs[c])
  {
    assert idxs[..c + 1][..c] == idxs[..c];
  }

  lemma ShiftStudentStep(s: Student, dayBlocks: map<Day, seq<Slot>>, vars: seq<VarKey>, ds: seq<Day>, b: nat)
    requires b < |ds|
    ensures ShiftStudent(s, dayBlocks, vars, ds[..b + 1])
         == ShiftStudent(s, dayBlocks, vars, ds[..b]) + ShiftDay(s, ds[b], Indices(SlotsFor(dayBlocks, ds[b])), vars)
  {
    assert ds[..b + 1][..b] == ds[..b];
  }

  lemma ShiftSpecStep(stus: seq<Student>, ds: seq<Day>, dayBlocks: map<Day, seq<Slot>>, vars: seq<VarKey>, a: nat)
    requires a < |stus|
    ensures ShiftSpec(stus[..a + 1], ds, dayBlocks, vars)
         == ShiftSpec(stus[..a], ds, dayBlocks, vars) + ShiftStudent(stus[a], dayBlocks, vars, ds)
  {
    assert stus[..a + 1][..a] == stus[..a];
  }

  lemma StudentVarsStep(s: Student, ds: seq<Day>, dayBlocks: map<Day, seq<Slot>>, b: nat)
    requires b < |ds|
    ensures StudentVars(s, ds[..b + 1], dayBlocks) == StudentVars(s, ds[..b], dayBlocks) + DayVars(s, ds[b], SlotsFor(dayBlocks, ds[b]))
  {
    assert ds[..b + 1][..b] == ds[..b];
  }

  lemma PersonVarsStep(stus: seq<Student>, ds: seq<Day>, dayBlocks: map<Day, seq<Slot>>, a: nat)
    requires a < |stus|
    ensures PersonVars(stus[..a + 1], ds, dayBlocks) == PersonVars(stus[..a], ds, dayBlocks) + StudentVars(stus[a], ds, dayBlocks)
  {
    assert stus[..a + 1][..a] == stus[..a];
  }
}
