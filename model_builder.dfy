/** build_model: the variable loops and the constraint loops, each proved to
    produce exactly what ModelSpec describes. */
module ModelBuilder {
  import opened Common
  import opened Blocks
  import opened Availability
  import opened LinearModel
  import opened ModelSpec

  // ---------------------------------------------------------------- variables

  /** The start<k> keys at block i: start2 if block i+1 exists, start3 if
      block i+2 exists, start4 if block i+3 exists. */
  method AddStartVarsAt(vars0: seq<VarKey>, s: Student, d: Day, blockIndices: seq<nat>, i: nat)
    returns (vars: seq<VarKey>)
    ensures vars == vars0 + StartVarsAt(s, d, blockIndices, i)
  {
    vars := vars0;
    if i + 1 in blockIndices {
      vars := vars + [Start(2, s, d, i)];
    }
    if i + 2 in blockIndices {
      vars := vars + [Start(3, s, d, i)];
    }
    if i + 3 in blockIndices {
      vars := vars + [Start(4, s, d, i)];
    }
  }

  method AddXVars(vars0: seq<VarKey>, s: Student, d: Day, slots: seq<Slot>) returns (vars: seq<VarKey>)
    ensures vars == vars0 + XVarsDay(s, d, slots)
  {
    vars := vars0;
    for c := 0 to |slots|
      invariant vars == vars0 + XVarsDay(s, d, slots[..c])
    {
      assert slots[..c + 1][..c] == slots[..c];
      vars := vars + [X(s, d, slots[c].idx)];
    }
    assert slots[..|slots|] == slots;
  }

  method AddStartVars(vars0: seq<VarKey>, s: Student, d: Day, blockIndices: seq<nat>, slots: seq<Slot>)
    returns (vars: seq<VarKey>)
    ensures vars == vars0 + StartVarsDay(s, d, blockIndices, slots)
  {
    vars := vars0;
    for c := 0 to |slots|
      invariant vars == vars0 + StartVarsDay(s, d, blockIndices, slots[..c])
    {
      StartVarsDayStep(s, d, blockIndices, slots, c);
      AppendAssoc(vars0, StartVarsDay(s, d, blockIndices, slots[..c]), StartVarsAt(s, d, blockIndices, slots[c].idx));
      vars := AddStartVarsAt(vars, s, d, blockIndices, slots[c].idx);
    }
    assert slots[..|slots|] == slots;
  }

  /** y[s,d], then x[s,d,i] per block, then the shift starts per block. */
  method AddDayVars(vars0: seq<VarKey>, s: Student, d: Day, slots: seq<Slot>) returns (vars: seq<VarKey>)
    ensures vars == vars0 + DayVars(s, d, slots)
  {
    vars := vars0 + [Y(s, d)];
    vars := AddXVars(vars, s, d, slots);
    var blockIndices := Indices(slots);
    vars := AddStartVars(vars, s, d, blockIndices, slots);
  }

  /** The variables of one student, day by day. */
  method AddStudentVars(vars0: seq<VarKey>, s: Student, ds: seq<Day>, dayBlocks: map<Day, seq<Slot>>)
    returns (vars: seq<VarKey>)
    requires forall d :: d in ds ==> d in dayBlocks
    ensures vars == vars0 + StudentVars(s, ds, dayBlocks)
  {
    vars := vars0;
    for b := 0 to |ds|
      invariant vars == vars0 + StudentVars(s, ds[..b], dayBlocks)
    {
      StudentVarsStep(s, ds, dayBlocks, b);
      assert SlotsFor(dayBlocks, ds[b]) == dayBlocks[ds[b]];
      AppendAssoc(vars0, StudentVars(s, ds[..b], dayBlocks), DayVars(s, ds[b], dayBlocks[ds[b]]));
      vars := AddDayVars(vars, s, ds[b], dayBlocks[ds[b]]);
    }
    assert ds[..|ds|] == ds;
  }

  /** u[d,i] per block. */
  method AddUVars(vars0: seq<VarKey>, blks: seq<Block>) returns (vars: seq<VarKey>)
    ensures vars == vars0 + UVars(blks)
  {
    vars := vars0;
    for j := 0 to |blks|
      invariant vars == vars0 + UVars(blks[..j])
    {
      assert blks[..j + 1][..j] == blks[..j];
      vars := vars + [U(blks[j].day, blks[j].idx)];
    }
    assert blks[..|blks|] == blks;
  }

  method CreateVariables(stus: seq<Student>, ds: seq<Day>, dayBlocks: map<Day, seq<Slot>>, blks: seq<Block>)
    returns (vars: seq<VarKey>)
    requires forall d :: d in ds ==> d in dayBlocks
    ensures vars == VarSpec(stus, ds, dayBlocks, blks)
  {
    vars := [];
    for a := 0 to |stus|
      invariant vars == PersonVars(stus[..a], ds, dayBlocks)
    {
      PersonVarsStep(stus, ds, dayBlocks, a);
      vars := AddStudentVars(vars, stus[a], ds, dayBlocks);
    }
    assert stus[..|stus|] == stus;
    vars := AddUVars(vars, blks);
  }

  // ---------------------------------------------------------------- constraints

  method EmitCoverage(prob: Problem, blks: seq<Block>, stus: seq<Student>)
    modifies prob
    ensures prob.constraints == old(prob.constraints) + CoverageSpec(blks, stus)
    ensures prob.objective == old(prob.objective)
  {
    for j := 0 to |blks|
      invariant prob.constraints == old(prob.constraints) + CoverageSpec(blks[..j], stus)
      invariant prob.objective == old(prob.objective)
    {
      assert blks[..j + 1][..j] == blks[..j];
      prob.Add(CoverOf(stus, blks[j]));
    }
    assert blks[..|blks|] == blks;
  }

  method EmitOverlap(prob: Problem, blks: seq<Block>, stus: seq<Student>, maxovl: int)
    modifies prob
    ensures prob.constraints == old(prob.constraints) + OverlapSpec(blks, stus, maxovl)
    ensures prob.objective == old(prob.objective)
  {
    for j := 0 to |blks|
      invariant prob.constraints == old(prob.constraints) + OverlapSpec(blks[..j], stus, maxovl)
      invariant prob.objective == old(prob.objective)
    {
      assert blks[..j + 1][..j] == blks[..j];
      prob.Add(OvlOf(stus, maxovl, blks[j]));
    }
    assert blks[..|blks|] == blks;
  }

  method EmitHours(prob: Problem, stus: seq<Student>, blks: seq<Block>, minh: int, maxh: int)
    modifies prob
    ensures prob.constraints == old(prob.constraints) + HoursSpec(stus, blks, minh, maxh)
    ensures prob.objective == old(prob.objective)
  {
    for a := 0 to |stus|
      invariant prob.constraints == old(prob.constraints) + HoursSpec(stus[..a], blks, minh, maxh)
      invariant prob.objective == old(prob.objective)
    {
      assert stus[..a + 1][..a] == stus[..a];
      var s := stus[a];
      var totalHrs := Ones(StudentXKeys(s, blks));
      prob.Add(Constraint(MinH(s), totalHrs, Ge, minh));
      prob.Add(Constraint(MaxH(s), totalHrs, Le, maxh));
    }
    assert stus[..|stus|] == stus;
  }

  method EmitFleet(prob: Problem, stus: seq<Student>, blks: seq<Block>, avgLow: int, avgHigh: int)
    modifies prob
    ensures prob.constraints == old(prob.constraints) + FleetSpec(stus, blks, avgLow, avgHigh)
    ensures prob.objective == old(prob.objective)
  {
    var n := |stus|;
    var totalAll := Ones(AllXKeys(stus, blks));
    prob.Add(Constraint(AvgLow, totalAll, Ge, avgLow * n));
    prob.Add(Constraint(AvgHigh, totalAll, Le, avgHigh * n));
  }

  method EmitBusyDay(prob: Problem, s: Student, d: Day, classes: seq<ClassInterval>, slots: seq<Slot>)
    modifies prob
    ensures prob.constraints == old(prob.constraints) + BusyDay(s, d, classes, slots)
    ensures prob.objective == old(prob.objective)
  {
    for c := 0 to |slots|
      invariant prob.constraints == old(prob.constraints) + BusyDay(s, d, classes, slots[..c])
      invariant prob.objective == old(prob.objective)
    {
      BusyDayStep(s, d, classes, slots, c);
      var sl := slots[c];
      var free := FreeBlk(classes, d, sl.start, sl.end);
      if !free {
        prob.Add(Constraint(Busy(s, d, sl.idx), [Term(1, X(s, d, sl.idx))], Eq, 0));
      }
    }
    assert slots[..|slots|] == slots;
  }

  /** The busy constraints of one student, day by day. */
  method EmitBusyStudent(prob: Problem, s: Student, ds: seq<Day>, dayBlocks: map<Day, seq<Slot>>,
                         classes: seq<ClassInterval>)
    requires forall d :: d in ds ==> d in dayBlocks
    modifies prob
    ensures prob.constraints == old(prob.constraints) + BusyStudent(s, dayBlocks, classes, ds)
    ensures prob.objective == old(prob.objective)
  {
    for b := 0 to |ds|
      invariant prob.constraints == old(prob.constraints) + BusyStudent(s, dayBlocks, classes, ds[..b])
      invariant prob.objective == old(prob.objective)
    {
      BusyStudentStep(s, dayBlocks, classes, ds, b);
      assert SlotsFor(dayBlocks, ds[b]) == dayBlocks[ds[b]];
      EmitBusyDay(prob, s, ds[b], classes, dayBlocks[ds[b]]);
      AppendAssoc(old(prob.constraints), BusyStudent(s, dayBlocks, classes, ds[..b]), BusyDay(s, ds[b], classes, dayBlocks[ds[b]]));
    }
    assert ds[..|ds|] == ds;
  }

  method EmitBusy(prob: Problem, stus: seq<Student>, ds: seq<Day>, dayBlocks: map<Day, seq<Slot>>,
                  stmap: map<Student, seq<ClassInterval>>)
    requires forall d :: d in ds ==> d in dayBlocks
    requires forall s :: s in stus ==> s in stmap
    modifies prob
    ensures prob.constraints == old(prob.constraints) + BusySpec(stus, ds, dayBlocks, stmap)
    ensures prob.objective == old(prob.objective)
  {
    for a := 0 to |stus|
      invariant prob.constraints == old(prob.constraints) + BusySpec(stus[..a], ds, dayBlocks, stmap)
      invariant prob.objective == old(prob.objective)
    {
      BusySpecStep(stus, ds, dayBlocks, stmap, a);
      assert ClassesFor(stmap, stus[a]) == stmap[stus[a]];
      EmitBusyStudent(prob, stus[a], ds, dayBlocks, stmap[stus[a]]);
      AppendAssoc(old(prob.constraints), BusySpec(stus[..a], ds, dayBlocks, stmap), BusyStudent(stus[a], dayBlocks, stmap[stus[a]], ds));
    }
    assert stus[..|stus|] == stus;
  }

  method EmitLinks2(prob: Problem, s: Student, d: Day, i: nat)
    modifies prob
    ensures prob.constraints == old(prob.constraints) + LinkK(2, s, d, i)
    ensures prob.objective == old(prob.objective)
  {
    prob.Add(LinkOf(2, s, d, i, 0));
    prob.Add(LinkOf(2, s, d, i, 1));
    assert LinkK(2, s, d, i) == [LinkOf(2, s, d, i, 0), LinkOf(2, s, d, i, 1)];
  }

  method EmitLinks3(prob: Problem, s: Student, d: Day, i: nat)
    modifies prob
    ensures prob.constraints == old(prob.constraints) + LinkK(3, s, d, i)
    ensures prob.objective == old(prob.objective)
  {
    prob.Add(LinkOf(3, s, d, i, 0));
    prob.Add(LinkOf(3, s, d, i, 1));
    prob.Add(LinkOf(3, s, d, i, 2));
    assert LinkK(3, s, d, i) == [LinkOf(3, s, d, i, 0), LinkOf(3, s, d, i, 1), LinkOf(3, s, d, i, 2)];
  }

  method EmitLinks4(prob: Problem, s: Student, d: Day, i: nat)
    modifies prob
    ensures prob.constraints == old(prob.constraints) + LinkK(4, s, d, i)
    ensures prob.objective == old(prob.objective)
  {
    prob.Add(LinkOf(4, s, d, i, 0));
    prob.Add(LinkOf(4, s, d, i, 1));
    prob.Add(LinkOf(4, s, d, i, 2));
    prob.Add(LinkOf(4, s, d, i, 3));
    assert LinkK(4, s, d, i)
        == [LinkOf(4, s, d, i, 0), LinkOf(4, s, d, i, 1), LinkOf(4, s, d, i, 2), LinkOf(4, s, d, i, 3)];
  }

  /** The links of the start variables that exist at block i. */
  method EmitLinksAt(prob: Problem, s: Student, d: Day, vars: seq<VarKey>, i: nat)
    modifies prob
    ensures prob.constraints == old(prob.constraints) + LinksAt(s, d, vars, i)
    ensures prob.objective == old(prob.objective)
  {
    ghost var l2 := if Start(2, s, d, i) in vars then LinkK(2, s, d, i) else [];
    ghost var l3 := if Start(3, s, d, i) in vars then LinkK(3, s, d, i) else [];
    ghost var l4 := if Start(4, s, d, i) in vars then LinkK(4, s, d, i) else [];
    if Start(2, s, d, i) in vars {
      EmitLinks2(prob, s, d, i);
    }
    ghost var after2 := prob.constraints;
    if Start(3, s, d, i) in vars {
      EmitLinks3(prob, s, d, i);
    }
    ghost var after3 := prob.constraints;
    if Start(4, s, d, i) in vars {
      EmitLinks4(prob, s, d, i);
    }
    assert after2 == old(prob.constraints) + l2;
    AppendAssoc(old(prob.constraints), l2, l3);
    AppendAssoc(old(prob.constraints), l2 + l3, l4);
  }

  method EmitShiftDay(prob: Problem, s: Student, d: Day, blockIndices: seq<nat>, vars: seq<VarKey>)
    modifies prob
    ensures prob.constraints == old(prob.constraints) + ShiftDay(s, d, blockIndices, vars)
    ensures prob.objective == old(prob.objective)
  {
    prob.Add(ShiftsOf(s, d, blockIndices, vars));
    prob.Add(SumXOf(s, d, blockIndices, vars));
    ghost var head := prob.constraints;
    for c := 0 to |blockIndices|
      invariant prob.constraints == head + LinksDay(s, d, vars, blockIndices[..c])
      invariant prob.objective == old(prob.objective)
    {
      LinksDayStep(s, d, vars, blockIndices, c);
      EmitLinksAt(prob, s, d, vars, blockIndices[c]);
      AppendAssoc(head, LinksDay(s, d, vars, blockIndices[..c]), LinksAt(s, d, vars, blockIndices[c]));
    }
    assert blockIndices[..|blockIndices|] == blockIndices;
    AppendAssoc(old(prob.constraints), [ShiftsOf(s, d, blockIndices, vars), SumXOf(s, d, blockIndices, vars)], LinksDay(s, d, vars, blockIndices));
  }

  /** block_indices of day d, then the day's shift-shape constraints. */
  method EmitShiftDayOf(prob: Problem, s: Student, d: Day, dayBlocks: map<Day, seq<Slot>>, vars: seq<VarKey>)
    requires d in dayBlocks
    modifies prob
    ensures prob.constraints == old(prob.constraints) + ShiftDay(s, d, Indices(SlotsFor(dayBlocks, d)), vars)
    ensures prob.objective == old(prob.objective)
  {
    var blockIndices := Indices(dayBlocks[d]);
    EmitShiftDay(prob, s, d, blockIndices, vars);
  }

  /** The shift-shape constraints of one student, day by day. */
  method EmitShiftStudent(prob: Problem, s: Student, ds: seq<Day>, dayBlocks: map<Day, seq<Slot>>, vars: seq<VarKey>)
    requires forall d :: d in ds ==> d in dayBlocks
    modifies prob
    ensures prob.constraints == old(prob.constraints) + ShiftStudent(s, dayBlocks, vars, ds)
    ensures prob.objective == old(prob.objective)
  {
    for b := 0 to |ds|
      invariant prob.constraints == old(prob.constraints) + ShiftStudent(s, dayBlocks, vars, ds[..b])
      invariant prob.objective == old(prob.objective)
    {
      ShiftStudentStep(s, dayBlocks, vars, ds, b);
      EmitShiftDayOf(prob, s, ds[b], dayBlocks, vars);
      AppendAssoc(old(prob.constraints), ShiftStudent(s, dayBlocks, vars, ds[..b]), ShiftDay(s, ds[b], Indices(SlotsFor(dayBlocks, ds[b])), vars));
    }
    assert ds[..|ds|] == ds;
  }

  method EmitShifts(prob: Problem, stus: seq<Student>, ds: seq<Day>, dayBlocks: map<Day, seq<Slot>>, vars: seq<VarKey>)
    requires forall d :: d in ds ==> d in dayBlocks
    modifies prob
    ensures prob.constraints == old(prob.constraints) + ShiftSpec(stus, ds, dayBlocks, vars)
    ensures prob.objective == old(prob.objective)
  {
    for a := 0 to |stus|
      invariant prob.constraints == old(prob.constraints) + ShiftSpec(stus[..a], ds, dayBlocks, vars)
      invariant prob.objective == old(prob.objective)
    {
      ShiftSpecStep(stus, ds, dayBlocks, vars, a);
      EmitShiftStudent(prob, stus[a], ds, dayBlocks, vars);
      AppendAssoc(old(prob.constraints), ShiftSpec(stus[..a], ds, dayBlocks, vars), ShiftStudent(stus[a], dayBlocks, vars, ds));
    }
    assert stus[..|stus|] == stus;
  }

  // ---------------------------------------------------------------- the whole model

  /** The six constraint families, in source order. */
  method EmitConstraints(prob: Problem, stus: seq<Student>, ds: seq<Day>, blks: seq<Block>,
                         dayBlocks: map<Day, seq<Slot>>, stmap: map<Student, seq<ClassInterval>>,
                         vars: seq<VarKey>, p: Params)
    requires forall d :: d in ds ==> d in dayBlocks
    requires forall s :: s in stus ==> s in stmap
    modifies prob
    ensures prob.constraints == old(prob.constraints) + ModelConstraints(stus, ds, blks, dayBlocks, stmap, vars, p)
    ensures prob.objective == old(prob.objective)
  {
    ghost var c0 := prob.constraints;
    ghost var cov, ovl, hrs := CoverageSpec(blks, stus), OverlapSpec(blks, stus, p.maxovl), HoursSpec(stus, blks, p.minh, p.maxh);
    ghost var flt, bsy := FleetSpec(stus, blks, p.avgLow, p.avgHigh), BusySpec(stus, ds, dayBlocks, stmap);
    ghost var sft := ShiftSpec(stus, ds, dayBlocks, vars);
    EmitCoverage(prob, blks, stus);
    EmitOverlap(prob, blks, stus, p.maxovl);
    AppendAssoc(c0, cov, ovl);
    EmitHours(prob, stus, blks, p.minh, p.maxh);
    AppendAssoc(c0, cov + ovl, hrs);
    EmitFleet(prob, stus, blks, p.avgLow, p.avgHigh);
    AppendAssoc(c0, cov + ovl + hrs, flt);
    EmitBusy(prob, stus, ds, dayBlocks, stmap);
    AppendAssoc(c0, cov + ovl + hrs + flt, bsy);
    EmitShifts(prob, stus, ds, dayBlocks, vars);
    AppendAssoc(c0, cov + ovl + hrs + flt + bsy, sft);
  }

  /** build_model: blocks for the default window, day_blocks, the variables,
      the objective and the six constraint families in source order. The days
      ds and the students stus (with their classes in stmap) are given. */
  method BuildModel(stmap: map<Student, seq<ClassInterval>>, stus: seq<Student>, ds: seq<Day>, p: Params)
    returns (prob: Problem, vars: seq<VarKey>, blks: seq<Block>)
    requires forall s :: s in stus ==> s in stmap
    ensures fresh(prob)
    ensures blks == AllBlocks(ds, WindowStart, WindowEnd)
    ensures vars == VarSpec(stus, ds, DayBlocksOf(ds, blks), blks)
    ensures prob.objective == ObjectiveSpec(stus, ds, blks, p.dayCost)
    ensures prob.constraints == ModelConstraints(stus, ds, blks, DayBlocksOf(ds, blks), stmap, vars, p)
  {
    blks := GenBlocks(ds, WindowStart, WindowEnd);
    forall j | 0 <= j < |blks| ensures blks[j].day in ds {
      AllBlocksMember(ds, WindowStart, WindowEnd, blks[j]);
    }
    prob := new Problem();
    var dayBlocks := GroupByDay(ds, blks);
    assert dayBlocks == DayBlocksOf(ds, blks);
    vars := CreateVariables(stus, ds, dayBlocks, blks);
    prob.SetObjective(ObjectiveSpec(stus, ds, blks, p.dayCost));
    EmitConstraints(prob, stus, ds, blks, dayBlocks, stmap, vars, p);
    assert [] + ModelConstraints(stus, ds, blks, dayBlocks, stmap, vars, p) == ModelConstraints(stus, ds, blks, dayBlocks, stmap, vars, p);
  }
}
