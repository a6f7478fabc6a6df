/** solve_and_extract after the solver call: the status check, the table of
    assigned blocks with per-student totals, sorted by (day number, block
    index, student), and the table of uncovered blocks. The solver's answer
    is a status string and a valuation. */
module Decode {
  import opened Common
  import opened Blocks
  import opened Availability
  import opened LinearModel
  import opened ModelSpec
  import opened ModelProperties
  import opened RowOrder

  /** One entry of rows before TotalHrs is attached. */
  datatype Row = Row(student: Student, day: Day, idx: nat, start: int, end: int)

  /** One row of sol_df. */
  datatype AssignedRow = AssignedRow(student: Student, day: Day, idx: nat, start: int, end: int, totalHrs: nat)

  /** One row of uncovered_df. */
  datatype UncoveredRow = UncoveredRow(day: Day, idx: nat, start: int, end: int, status: string)

  datatype Tables = Tables(schedule: seq<AssignedRow>, uncovered: seq<UncoveredRow>)

  /** The statuses for which a schedule is read off the answer. */
  predicate Accepted(status: string)
  {
    status == "Optimal" || status == "Feasible"
  }

  // ---------------------------------------------------------------- assigned rows

  function RowOf(s: Student, b: Block): Row
  {
    Row(s, b.day, b.idx, b.start, b.end)
  }

  function BlockOf(r: Row): Block
  {
    Block(r.day, r.idx, r.start, r.end)
  }

  /** The block a row describes, whatever its student. */
  function AssignedBlock(r: AssignedRow): Block
  {
    Block(r.day, r.idx, r.start, r.end)
  }

  function RowsAt(s: Student, val: Valuation, b: Block): seq<Row>
  {
    if Value(val, X(s, b.day, b.idx)) == 1 then [RowOf(s, b)] else []
  }

  function StudentRows(s: Student, blks: seq<Block>, val: Valuation): seq<Row>
  {
    ConcatMap(blks, (b: Block) => RowsAt(s, val, b))
  }

  /** rows: student by student, block by block, one row per x = 1. */
  function RowsSpec(stus: seq<Student>, blks: seq<Block>, val: Valuation): seq<Row>
  {
    ConcatMap(stus, (s: Student) => StudentRows(s, blks, val))
  }

  method CollectStudentRows(rows0: seq<Row>, s: Student, blks: seq<Block>, val: Valuation) returns (rows: seq<Row>)
    ensures rows == rows0 + StudentRows(s, blks, val)
  {
    rows := rows0;
    for j := 0 to |blks|
      invariant rows == rows0 + StudentRows(s, blks[..j], val)
    {
      assert blks[..j + 1][..j] == blks[..j];
      var b := blks[j];
      if Value(val, X(s, b.day, b.idx)) == 1 {
        rows := rows + [Row(s, b.day, b.idx, b.start, b.end)];
      }
    }
    assert blks[..|blks|] == blks;
  }

  method CollectRows(stus: seq<Student>, blks: seq<Block>, val: Valuation) returns (rows: seq<Row>)
    ensures rows == RowsSpec(stus, blks, val)
  {
    rows := [];
    for a := 0 to |stus|
      invariant rows == RowsSpec(stus[..a], blks, val)
    {
      assert stus[..a + 1][..a] == stus[..a];
      rows := CollectStudentRows(rows, stus[a], blks, val);
    }
    assert stus[..|stus|] == stus;
  }

  /** A row is produced iff its student is listed, its block is one of blks
      and the answer sets that x to 1. */
  lemma RowsMember(stus: seq<Student>, blks: seq<Block>, val: Valuation, r: Row)
    ensures r in RowsSpec(stus, blks, val) <==>
            r.student in stus && BlockOf(r) in blks && Value(val, X(r.student, r.day, r.idx)) == 1
  {
    var fs := (s: Student) => StudentRows(s, blks, val);
    ConcatMapMember(stus, fs, r);
    if r in RowsSpec(stus, blks, val) {
      var a :| 0 <= a < |stus| && r in fs(stus[a]);
      var fb := (b: Block) => RowsAt(stus[a], val, b);
      ConcatMapMember(blks, fb, r);
      var j :| 0 <= j < |blks| && r in fb(blks[j]);
      assert BlockOf(r) == blks[j];
    }
    if r.student in stus && BlockOf(r) in blks && Value(val, X(r.student, r.day, r.idx)) == 1 {
      var a :| 0 <= a < |stus| && stus[a] == r.student;
      var j :| 0 <= j < |blks| && blks[j] == BlockOf(r);
      var fb := (b: Block) => RowsAt(stus[a], val, b);
      assert r in fb(blks[j]);
      ConcatMapMember(blks, fb, r);
      assert r in fs(stus[a]);
    }
  }

  // ---------------------------------------------------------------- TotalHrs

  /** hrs[s]: how many rows name student s. */
  function CountOf(rows: seq<Row>, s: Student): nat
  {
    if rows == [] then 0
    else CountOf(rows[..|rows| - 1], s) + (if rows[|rows| - 1].student == s then 1 else 0)
  }

  lemma {:induction false} CountAppend(a: seq<Row>, b: seq<Row>, s: Student)
    ensures CountOf(a + b, s) == CountOf(a, s) + CountOf(b, s)
  {
    if b == [] {
      assert a + b == a;
    } else {
      assert (a + b)[..|a + b| - 1] == a + b[..|b| - 1];
      CountAppend(a, b[..|b| - 1], s);
    }
  }

  lemma WeeklyHoursSnoc(s: Student, blks: seq<Block>, val: Valuation)
    requires blks != []
    ensures WeeklyHours(s, blks, val)
         == WeeklyHours(s, blks[..|blks| - 1], val) + Value(val, X(s, blks[|blks| - 1].day, blks[|blks| - 1].idx))
  {
    var vs := Values(StudentXKeys(s, blks), val);
    assert vs[..|blks| - 1] == Values(StudentXKeys(s, blks[..|blks| - 1]), val);
  }

  lemma CountRowsAt(s': Student, val: Valuation, b: Block, s: Student)
    ensures CountOf(RowsAt(s', val, b), s) == if s' == s && Value(val, X(s', b.day, b.idx)) == 1 then 1 else 0
  {
    var rs := RowsAt(s', val, b);
    if rs != [] {
      assert rs[..0] == [];
    }
  }

  lemma {:induction false} CountStudentRows(s': Student, blks: seq<Block>, val: Valuation, s: Student)
    requires Binary(val)
    ensures CountOf(StudentRows(s', blks, val), s) == if s' == s then WeeklyHours(s, blks, val) else 0
  {
    if blks != [] {
      var init := blks[..|blks| - 1];
      var last := blks[|blks| - 1];
      CountStudentRows(s', init, val, s);
      assert StudentRows(s', blks, val) == StudentRows(s', init, val) + RowsAt(s', val, last);
      CountAppend(StudentRows(s', init, val), RowsAt(s', val, last), s);
      CountRowsAt(s', val, last, s);
      WeeklyHoursSnoc(s, blks, val);
      var v := Value(val, X(s, last.day, last.idx));
      assert v == 0 || v == 1;
    }
  }

  /** TotalHrs of a listed student is their weekly hours in the model. */
  lemma {:induction false} CountIsHours(stus: seq<Student>, blks: seq<Block>, val: Valuation, s: Student)
    requires Binary(val) && NoDup(stus)
    ensures CountOf(RowsSpec(stus, blks, val), s) == if s in stus then WeeklyHours(s, blks, val) else 0
  {
    if stus != [] {
      var init := stus[..|stus| - 1];
      var last := stus[|stus| - 1];
      assert NoDup(init);
      CountIsHours(init, blks, val, s);
      assert RowsSpec(stus, blks, val) == RowsSpec(init, blks, val) + StudentRows(last, blks, val);
      CountAppend(RowsSpec(init, blks, val), StudentRows(last, blks, val), s);
      CountStudentRows(last, blks, val, s);
      assert stus == init + [last];
      assert last == s ==> s !in init;
    }
  }

  function WithTotal(r: Row, total: nat): AssignedRow
  {
    AssignedRow(r.student, r.day, r.idx, r.start, r.end, total)
  }

  /** sol_df["TotalHrs"] = sol_df["Student"].map(hrs). */
  function WithTotals(rows: seq<Row>): (out: seq<AssignedRow>)
    ensures |out| == |rows|
  {
    seq(|rows|, j requires 0 <= j < |rows| => WithTotal(rows[j], CountOf(rows, rows[j].student)))
  }

  /** Each row's TotalHrs is the number of blocks the answer gives its student. */
  lemma TotalsAreHours(stus: seq<Student>, blks: seq<Block>, val: Valuation, j: nat)
    requires Binary(val) && NoDup(stus)
    requires j < |RowsSpec(stus, blks, val)|
    ensures WithTotals(RowsSpec(stus, blks, val))[j].totalHrs == WeeklyHours(RowsSpec(stus, blks, val)[j].student, blks, val)
  {
    var rows := RowsSpec(stus, blks, val);
    RowsMember(stus, blks, val, rows[j]);
    CountIsHours(stus, blks, val, rows[j].student);
  }

  // ---------------------------------------------------------------- sorting

  function KeyOf(r: AssignedRow): Key
  {
    Key(DayNum(r.day), r.idx, r.student)
  }

  /** Ordered by (daynum, BlockIdx, Student). */
  predicate SortedRows(rs: seq<AssignedRow>)
  {
    forall i, j :: 0 <= i < j < |rs| ==> KeyLe(KeyOf(rs[i]), KeyOf(rs[j]))
  }

  lemma PrependSorted(r: AssignedRow, xs: seq<AssignedRow>)
    requires SortedRows(xs)
    requires xs != [] ==> KeyLe(KeyOf(r), KeyOf(xs[0]))
    ensures SortedRows([r] + xs)
  {
    forall j | 0 <= j < |xs| ensures KeyLe(KeyOf(r), KeyOf(xs[j])) {
      if j > 0 {
        KeyLeTransitive(KeyOf(r), KeyOf(xs[0]), KeyOf(xs[j]));
      }
    }
  }

  lemma InsertBehind(r: AssignedRow, xs: seq<AssignedRow>, rest: seq<AssignedRow>)
    requires SortedRows(xs) && xs != [] && !KeyLe(KeyOf(r), KeyOf(xs[0]))
    requires SortedRows(rest) && multiset(rest) == multiset(xs[1..]) + multiset{r}
    ensures SortedRows([xs[0]] + rest)
    ensures multiset([xs[0]] + rest) == multiset(xs) + multiset{r}
  {
    KeyLessTotal(KeyOf(r), KeyOf(xs[0]));
    forall j | 0 <= j < |rest| ensures KeyLe(KeyOf(xs[0]), KeyOf(rest[j])) {
      assert rest[j] in multiset(rest);
      if rest[j] != r {
        assert rest[j] in multiset(xs[1..]);
        var k :| 0 <= k < |xs[1..]| && xs[1..][k] == rest[j];
        assert xs[k + 1] == rest[j];
      }
    }
    assert xs == [xs[0]] + xs[1..];
  }

  /** Insert into a sorted sequence, after the rows that come no later. */
  function Insert(r: AssignedRow, xs: seq<AssignedRow>): (out: seq<AssignedRow>)
    requires SortedRows(xs)
    ensures SortedRows(out)
    ensures multiset(out) == multiset(xs) + multiset{r}
    decreases |xs|
  {
    if xs == [] then [r]
    else if KeyLe(KeyOf(r), KeyOf(xs[0])) then
      PrependSorted(r, xs);
      [r] + xs
    else
      var rest := Insert(r, xs[1..]);
      InsertBehind(r, xs, rest);
      [xs[0]] + rest
  }

  /** sort_values(["daynum", "BlockIdx", "Student"]): a sorted permutation. */
  function SortRows(xs: seq<AssignedRow>): (out: seq<AssignedRow>)
    ensures SortedRows(out)
    ensures multiset(out) == multiset(xs)
  {
    if xs == [] then []
    else
      assert xs == xs[..|xs| - 1] + [xs[|xs| - 1]];
      Insert(xs[|xs| - 1], SortRows(xs[..|xs| - 1]))
  }

  /** No two rows share a key. */
  predicate DistinctKeys(rs: seq<AssignedRow>)
  {
    forall i, j :: 0 <= i < j < |rs| ==> KeyOf(rs[i]) != KeyOf(rs[j])
  }

  lemma ConsDistinct(x: AssignedRow, ys: seq<AssignedRow>)
    requires DistinctKeys(ys)
    requires forall y :: y in ys ==> KeyOf(y) != KeyOf(x)
    ensures DistinctKeys([x] + ys)
  {
    var xs := [x] + ys;
    forall i, j | 0 <= i < j < |xs| ensures KeyOf(xs[i]) != KeyOf(xs[j]) {
      if i == 0 {
        assert xs[j] in ys;
      } else {
        assert xs[i] == ys[i - 1] && xs[j] == ys[j - 1];
      }
    }
  }

  lemma {:induction false} InsertDistinct(r: AssignedRow, xs: seq<AssignedRow>)
    requires SortedRows(xs) && DistinctKeys(xs)
    requires forall y :: y in xs ==> KeyOf(y) != KeyOf(r)
    ensures DistinctKeys(Insert(r, xs))
  {
    if xs == [] {
    } else if KeyLe(KeyOf(r), KeyOf(xs[0])) {
      assert Insert(r, xs) == [r] + xs;
      ConsDistinct(r, xs);
    } else {
      var rest := Insert(r, xs[1..]);
      assert Insert(r, xs) == [xs[0]] + rest;
      assert forall y :: y in xs[1..] ==> y in xs;
      InsertDistinct(r, xs[1..]);
      forall y | y in rest ensures KeyOf(y) != KeyOf(xs[0]) {
        assert y in multiset(rest);
        if y != r {
          assert y in multiset(xs[1..]);
          var k :| 0 <= k < |xs[1..]| && xs[1..][k] == y;
          assert xs[k + 1] == y;
        }
      }
      ConsDistinct(xs[0], rest);
    }
  }

  /** Sorting keeps the keys distinct. */
  lemma {:induction false} SortRowsDistinct(xs: seq<AssignedRow>)
    requires DistinctKeys(xs)
    ensures DistinctKeys(SortRows(xs))
  {
    if xs != [] {
      var init := xs[..|xs| - 1];
      var last := xs[|xs| - 1];
      SortRowsDistinct(init);
      var sorted := SortRows(init);
      forall y | y in sorted ensures KeyOf(y) != KeyOf(last) {
        assert y in multiset(init);
        var k :| 0 <= k < |init| && init[k] == y;
        assert xs[k] == y;
      }
      InsertDistinct(last, sorted);
    }
  }

  /** Two sorted permutations of a row set with distinct keys start alike. */
  lemma SortedSameHead(a: seq<AssignedRow>, b: seq<AssignedRow>)
    requires SortedRows(a) && SortedRows(b) && DistinctKeys(a)
    requires multiset(a) == multiset(b) && a != []
    ensures b != [] && a[0] == b[0]
  {
    assert a[0] in multiset(b);
    var i :| 0 <= i < |b| && b[i] == a[0];
    assert b[0] in multiset(a);
    var k :| 0 <= k < |a| && a[k] == b[0];
    var ka, kb := KeyOf(a[0]), KeyOf(b[0]);
    assert KeyLe(kb, ka) by {
      if i != 0 {
        assert KeyLe(KeyOf(b[0]), KeyOf(b[i]));
      }
    }
    assert KeyLe(ka, kb) by {
      if k != 0 {
        assert KeyLe(KeyOf(a[0]), KeyOf(a[k]));
      }
    }
    KeyLeAntisymmetric(ka, kb);
  }

  lemma TailMultiset(a: seq<AssignedRow>)
    requires a != []
    ensures multiset(a[1..]) == multiset(a) - multiset{a[0]}
  {
    assert a == [a[0]] + a[1..];
    assert multiset(a) == multiset{a[0]} + multiset(a[1..]);
  }

  lemma TailSorted(a: seq<AssignedRow>)
    requires a != [] && SortedRows(a)
    ensures SortedRows(a[1..])
    ensures DistinctKeys(a) ==> DistinctKeys(a[1..])
  {
    forall i, j | 0 <= i < j < |a[1..]| ensures a[1..][i] == a[i + 1] && a[1..][j] == a[j + 1] {
    }
  }

  /** A row set with distinct keys has only one sorted order, so the order
      does not depend on the sorting algorithm (pandas' default is not stable). */
  lemma {:induction false} SortedUnique(a: seq<AssignedRow>, b: seq<AssignedRow>)
    requires SortedRows(a) && SortedRows(b) && DistinctKeys(a)
    requires multiset(a) == multiset(b)
    ensures a == b
  {
    if a == [] {
      assert |b| == |multiset(b)| == 0;
    } else {
      SortedSameHead(a, b);
      TailMultiset(a);
      TailMultiset(b);
      TailSorted(a);
      TailSorted(b);
      SortedUnique(a[1..], b[1..]);
    }
  }

  /** No two rows share a student, a day and a block index. */
  predicate DistinctRows(rs: seq<Row>)
  {
    forall i, j :: 0 <= i < j < |rs| ==>
      rs[i].student != rs[j].student || rs[i].day != rs[j].day || rs[i].idx != rs[j].idx
  }

  lemma DistinctRowsAppend(a: seq<Row>, b: seq<Row>)
    requires DistinctRows(a) && DistinctRows(b)
    requires forall x, y :: x in a && y in b ==> x.student != y.student || x.day != y.day || x.idx != y.idx
    ensures DistinctRows(a + b)
  {
    var ab := a + b;
    forall i, j | 0 <= i < j < |ab|
      ensures ab[i].student != ab[j].student || ab[i].day != ab[j].day || ab[i].idx != ab[j].idx
    {
      if j < |a| {
        assert ab[i] == a[i] && ab[j] == a[j];
      } else if i >= |a| {
        assert ab[i] == b[i - |a|] && ab[j] == b[j - |a|];
      } else {
        assert ab[i] in a && ab[j] in b;
      }
    }
  }

  lemma StudentRowsMember(s: Student, blks: seq<Block>, val: Valuation, r: Row)
    requires r in StudentRows(s, blks, val)
    ensures r.student == s && BlockOf(r) in blks
  {
    var fb := (b: Block) => RowsAt(s, val, b);
    ConcatMapMember(blks, fb, r);
    var j :| 0 <= j < |blks| && r in fb(blks[j]);
    assert BlockOf(r) == blks[j];
  }

  lemma {:induction false} StudentRowsDistinct(s: Student, blks: seq<Block>, val: Valuation)
    requires UniqueSlots(blks)
    ensures DistinctRows(StudentRows(s, blks, val))
  {
    if blks != [] {
      var init := blks[..|blks| - 1];
      var last := blks[|blks| - 1];
      assert UniqueSlots(init);
      StudentRowsDistinct(s, init, val);
      assert StudentRows(s, blks, val) == StudentRows(s, init, val) + RowsAt(s, val, last);
      forall x, y | x in StudentRows(s, init, val) && y in RowsAt(s, val, last)
        ensures x.student != y.student || x.day != y.day || x.idx != y.idx
      {
        StudentRowsMember(s, init, val, x);
        var k :| 0 <= k < |init| && init[k] == BlockOf(x);
        assert blks[k] == BlockOf(x);
      }
      DistinctRowsAppend(StudentRows(s, init, val), RowsAt(s, val, last));
    }
  }

  /** With each student listed once and each block once, rows never repeat
      a (student, day, block) triple. */
  lemma {:induction false} RowsDistinct(stus: seq<Student>, blks: seq<Block>, val: Valuation)
    requires NoDup(stus) && UniqueSlots(blks)
    ensures DistinctRows(RowsSpec(stus, blks, val))
  {
    if stus != [] {
      var init := stus[..|stus| - 1];
      var last := stus[|stus| - 1];
      assert NoDup(init);
      RowsDistinct(init, blks, val);
      StudentRowsDistinct(last, blks, val);
      assert RowsSpec(stus, blks, val) == RowsSpec(init, blks, val) + StudentRows(last, blks, val);
      forall x, y | x in RowsSpec(init, blks, val) && y in StudentRows(last, blks, val)
        ensures x.student != y.student || x.day != y.day || x.idx != y.idx
      {
        RowsMember(init, blks, val, x);
        StudentRowsMember(last, blks, val, y);
        assert last !in init;
      }
      DistinctRowsAppend(RowsSpec(init, blks, val), StudentRows(last, blks, val));
    }
  }

  /** The schedule of the built model is the only sorted arrangement of its
      rows, so any correct sort, stable or not, yields it. */
  lemma ScheduleDetermined(stus: seq<Student>, ds: seq<Day>, val: Valuation, other: seq<AssignedRow>)
    requires NoDup(stus) && NoDup(ds)
    requires SortedRows(other)
    requires multiset(other) == multiset(WithTotals(RowsSpec(stus, BuiltBlocks(ds), val)))
    ensures other == TablesOf(stus, BuiltBlocks(ds), val).schedule
  {
    var blks := BuiltBlocks(ds);
    var rows := RowsSpec(stus, blks, val);
    var out := WithTotals(rows);
    AllBlocksUnique(ds, WindowStart, WindowEnd);
    RowsDistinct(stus, blks, val);
    forall i, j | 0 <= i < j < |out| ensures KeyOf(out[i]) != KeyOf(out[j]) {
      DayNumInjective(rows[i].day, rows[j].day);
    }
    SortRowsDistinct(out);
    SortedUnique(SortRows(out), other);
  }

  // ---------------------------------------------------------------- uncovered rows

  function UncoveredOf(b: Block): UncoveredRow
  {
    UncoveredRow(b.day, b.idx, b.start, b.end, "Uncovered")
  }

  function UncoveredAt(val: Valuation, b: Block): seq<UncoveredRow>
  {
    if Value(val, U(b.day, b.idx)) == 1 then [UncoveredOf(b)] else []
  }

  /** uncovered_rows: one row per u = 1, in block order. */
  function UncoveredSpec(blks: seq<Block>, val: Valuation): seq<UncoveredRow>
  {
    ConcatMap(blks, (b: Block) => UncoveredAt(val, b))
  }

  method CollectUncovered(blks: seq<Block>, val: Valuation) returns (rows: seq<UncoveredRow>)
    ensures rows == UncoveredSpec(blks, val)
  {
    rows := [];
    for j := 0 to |blks|
      invariant rows == UncoveredSpec(blks[..j], val)
    {
      assert blks[..j + 1][..j] == blks[..j];
      var b := blks[j];
      if Value(val, U(b.day, b.idx)) == 1 {
        rows := rows + [UncoveredRow(b.day, b.idx, b.start, b.end, "Uncovered")];
      }
    }
    assert blks[..|blks|] == blks;
  }

  /** An uncovered row is produced iff its block is one of blks and the
      answer sets that u to 1; its status is "Uncovered". */
  lemma UncoveredMember(blks: seq<Block>, val: Valuation, r: UncoveredRow)
    ensures r in UncoveredSpec(blks, val) <==>
            r.status == "Uncovered" && Block(r.day, r.idx, r.start, r.end) in blks && Value(val, U(r.day, r.idx)) == 1
  {
    var f := (b: Block) => UncoveredAt(val, b);
    ConcatMapMember(blks, f, r);
    if r in UncoveredSpec(blks, val) {
      var j :| 0 <= j < |blks| && r in f(blks[j]);
      assert Block(r.day, r.idx, r.start, r.end) == blks[j];
    }
    if r.status == "Uncovered" && Block(r.day, r.idx, r.start, r.end) in blks && Value(val, U(r.day, r.idx)) == 1 {
      var j :| 0 <= j < |blks| && blks[j] == Block(r.day, r.idx, r.start, r.end);
      assert r in f(blks[j]);
    }
  }

  /** The uncovered table follows blks: the uncovered rows of a prefix of
      blks are a prefix of the table. */
  lemma UncoveredInBlockOrder(blks: seq<Block>, val: Valuation, j: nat)
    requires j <= |blks|
    ensures UncoveredSpec(blks, val) == UncoveredSpec(blks[..j], val) + UncoveredSpec(blks[j..], val)
  {
    var f := (b: Block) => UncoveredAt(val, b);
    assert blks == blks[..j] + blks[j..];
    ConcatMapAppend(blks[..j], blks[j..], f);
  }

  // ---------------------------------------------------------------- the whole decoding

  /** The tables read off an accepted answer. */
  function TablesOf(stus: seq<Student>, blks: seq<Block>, val: Valuation): Tables
  {
    Tables(SortRows(WithTotals(RowsSpec(stus, blks, val))), UncoveredSpec(blks, val))
  }

  /** solve_and_extract as it is evidently meant to behave: None for a
      rejected status, otherwise both tables, the schedule possibly empty. */
  function ExtractSpec(status: string, stus: seq<Student>, blks: seq<Block>, val: Valuation): Option<Tables>
  {
    if Accepted(status) then Some(TablesOf(stus, blks, val)) else None
  }

  method SolveAndExtract(status: string, stus: seq<Student>, blks: seq<Block>, val: Valuation)
    returns (out: Option<Tables>)
    ensures out == ExtractSpec(status, stus, blks, val)
  {
    if status != "Optimal" && status != "Feasible" {
      return None;
    }
    var rows := CollectRows(stus, blks, val);
    var solRows := WithTotals(rows);
    solRows := SortRows(solRows);
    var uncoveredRows := CollectUncovered(blks, val);
    out := Some(Tables(solRows, uncoveredRows));
  }

  lemma WithTotalsMember(stus: seq<Student>, blks: seq<Block>, val: Valuation, r: AssignedRow)
    requires Binary(val) && NoDup(stus)
    ensures r in WithTotals(RowsSpec(stus, blks, val)) <==>
            Row(r.student, r.day, r.idx, r.start, r.end) in RowsSpec(stus, blks, val) &&
            r.totalHrs == WeeklyHours(r.student, blks, val)
  {
    var rows := RowsSpec(stus, blks, val);
    var out := WithTotals(rows);
    var row := Row(r.student, r.day, r.idx, r.start, r.end);
    if r in out {
      var j :| 0 <= j < |out| && out[j] == r;
      TotalsAreHours(stus, blks, val, j);
      assert rows[j] == row;
    }
    if row in rows && r.totalHrs == WeeklyHours(r.student, blks, val) {
      var j :| 0 <= j < |rows| && rows[j] == row;
      TotalsAreHours(stus, blks, val, j);
      assert out[j] == r;
    }
  }

  /** What an accepted answer decodes to: the schedule holds exactly one row
      per x = 1, carrying the student's weekly total, in (day number, block
      index, student) order; the uncovered table holds exactly the u = 1
      blocks. A rejected status yields None. */
  lemma ExtractMeaning(status: string, stus: seq<Student>, blks: seq<Block>, val: Valuation)
    requires Binary(val) && NoDup(stus)
    ensures ExtractSpec(status, stus, blks, val).None? <==> !Accepted(status)
    ensures Accepted(status) ==> SortedRows(TablesOf(stus, blks, val).schedule)
    ensures Accepted(status) ==> forall r :: r in TablesOf(stus, blks, val).schedule <==>
              r.student in stus && AssignedBlock(r) in blks && Value(val, X(r.student, r.day, r.idx)) == 1 &&
              r.totalHrs == WeeklyHours(r.student, blks, val)
    ensures Accepted(status) ==> forall u :: u in TablesOf(stus, blks, val).uncovered <==>
              u.status == "Uncovered" && Block(u.day, u.idx, u.start, u.end) in blks && Value(val, U(u.day, u.idx)) == 1
  {
    var t := TablesOf(stus, blks, val);
    forall r ensures r in t.schedule <==>
              r.student in stus && AssignedBlock(r) in blks && Value(val, X(r.student, r.day, r.idx)) == 1 &&
              r.totalHrs == WeeklyHours(r.student, blks, val) {
      assert r in t.schedule <==> r in multiset(WithTotals(RowsSpec(stus, blks, val)));
      WithTotalsMember(stus, blks, val, r);
      RowsMember(stus, blks, val, Row(r.student, r.day, r.idx, r.start, r.end));
    }
    forall u ensures u in t.uncovered <==>
              u.status == "Uncovered" && Block(u.day, u.idx, u.start, u.end) in blks && Value(val, U(u.day, u.idx)) == 1 {
      UncoveredMember(blks, val, u);
    }
  }

  // ---------------------------------------------------------------- as written: the empty schedule

  /** What solve_and_extract does, including the KeyError it raises. */
  datatype Outcome = NoSolution | KeyErrorCrash | Solved(tables: Tables)

  /** solve_and_extract as written: when no x is 1, pd.DataFrame(rows) has no
      columns, adding TotalHrs = 0 adds only that column, and reading
      sol_df["Day"] for daynum raises KeyError. */
  function ExtractAsWritten(status: string, stus: seq<Student>, blks: seq<Block>, val: Valuation): Outcome
  {
    if !Accepted(status) then NoSolution
    else if RowsSpec(stus, blks, val) == [] then KeyErrorCrash
    else Solved(TablesOf(stus, blks, val))
  }

  /** The crash happens exactly for accepted answers that give nobody a block;
      on every other answer the code agrees with ExtractSpec. */
  lemma AsWrittenCrashes(status: string, stus: seq<Student>, blks: seq<Block>, val: Valuation)
    ensures ExtractAsWritten(status, stus, blks, val) == KeyErrorCrash <==>
            Accepted(status) && forall s, b :: s in stus && b in blks ==> Value(val, X(s, b.day, b.idx)) != 1
    ensures ExtractAsWritten(status, stus, blks, val) != KeyErrorCrash ==>
            (ExtractAsWritten(status, stus, blks, val) == NoSolution <==> ExtractSpec(status, stus, blks, val).None?) &&
            (ExtractAsWritten(status, stus, blks, val).Solved? ==>
               ExtractSpec(status, stus, blks, val) == Some(ExtractAsWritten(status, stus, blks, val).tables))
  {
    var rows := RowsSpec(stus, blks, val);
    if rows != [] {
      RowsMember(stus, blks, val, rows[0]);
      assert BlockOf(rows[0]) in blks;
    }
    forall s, b | s in stus && b in blks && Value(val, X(s, b.day, b.idx)) == 1 ensures rows != [] {
      RowsMember(stus, blks, val, RowOf(s, b));
    }
  }

  /** If every block of every listed day overlaps a class of every student,
      every answer the solver can accept gives nobody a block, so the code as
      written raises KeyError instead of returning an empty schedule. */
  lemma BusyRosterCrashes(status: string, stus: seq<Student>, ds: seq<Day>, stmap: map<Student, seq<ClassInterval>>,
                          p: Params, val: Valuation)
    requires NoDup(ds) && Accepted(status)
    requires Solves(stus, ds, stmap, p, val)
    requires forall s, d, i :: s in stus && d in ds && 0 <= i < DayLen ==>
               !IsFree(ClassesFor(stmap, s), d, BuiltBlock(d, i).start, BuiltBlock(d, i).end)
    ensures ExtractAsWritten(status, stus, BuiltBlocks(ds), val) == KeyErrorCrash
  {
    var blks := BuiltBlocks(ds);
    forall s, b | s in stus && b in blks ensures Value(val, X(s, b.day, b.idx)) != 1 {
      AllBlocksMember(ds, WindowStart, WindowEnd, b);
      assert b == BuiltBlock(b.day, b.idx);
      var cl := ClassesFor(stmap, s);
      assert !IsFree(cl, b.day, b.start, b.end);
      var k :| 0 <= k < |cl| && Overlaps(cl[k], b.day, b.start, b.end);
      ModelBusy(stus, ds, stmap, p, val, s, b.day, b.idx, k);
    }
    AsWrittenCrashes(status, stus, blks, val);
  }

  /** The input that shows it: one student with a class on Monday from 07:30
      to 17:30, build_model(df, minh=0, avg_low=0), and the solver's only kind
      of answer, nobody working and all ten blocks uncovered. The code as
      written crashes; the intended result is an empty schedule and ten
      uncovered rows. */
  lemma CrashExample()
    ensures var stmap := map["ana" := [ClassInterval(Monday, 450, 1050)]];
            var p := Params(0, 20, 0, 12, 3, 1);
            var val := AllUncovered([Monday]);
            Solves(["ana"], [Monday], stmap, p, val) &&
            ExtractAsWritten("Optimal", ["ana"], BuiltBlocks([Monday]), val) == KeyErrorCrash &&
            ExtractSpec("Optimal", ["ana"], BuiltBlocks([Monday]), val)
              == Some(Tables([], UncoveredSpec(BuiltBlocks([Monday]), val)))
  {
    var stus: seq<Student> := ["ana"];
    var ds := [Monday];
    var stmap := map["ana" := [ClassInterval(Monday, 450, 1050)]];
    var p := Params(0, 20, 0, 12, 3, 1);
    var val := AllUncovered(ds);
    var blks := BuiltBlocks(ds);
    AllUncoveredSolves(stus, ds, stmap, p);
    forall s, d, i | s in stus && d in ds && 0 <= i < DayLen
      ensures !IsFree(ClassesFor(stmap, s), d, BuiltBlock(d, i).start, BuiltBlock(d, i).end)
    {
      assert Overlaps(ClassesFor(stmap, s)[0], d, BuiltBlock(d, i).start, BuiltBlock(d, i).end);
    }
    BusyRosterCrashes("Optimal", stus, ds, stmap, p, val);
    assert RowsSpec(stus, blks, val) == [];
    assert WithTotals([]) == [];
  }
}
