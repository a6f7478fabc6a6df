/** The output order of solve_and_extract: rows sorted by day number, then
    block index, then student name, with names compared character by
    character as Python compares strings. */
module RowOrder {
  import opened Blocks

  /** daymap: Monday 1 .. Friday 5. */
  function DayNum(d: Day): (n: int)
    ensures 1 <= n <= 5
  {
    match d
    case Monday => 1
    case Tuesday => 2
    case Wednesday => 3
    case Thursday => 4
    case Friday => 5
  }

  lemma DayNumInjective(d: Day, e: Day)
    ensures DayNum(d) == DayNum(e) <==> d == e
  {
  }

  /** Lexicographic order on code points; a proper prefix comes first. */
  predicate StrLess(a: string, b: string)
  {
    if a == [] then b != []
    else if b == [] then false
    else a[0] < b[0] || (a[0] == b[0] && StrLess(a[1..], b[1..]))
  }

  lemma {:induction false} StrLessIrreflexive(a: string)
    ensures !StrLess(a, a)
  {
    if a != [] {
      StrLessIrreflexive(a[1..]);
    }
  }

  lemma {:induction false} StrLessTransitive(a: string, b: string, c: string)
    requires StrLess(a, b) && StrLess(b, c)
    ensures StrLess(a, c)
  {
    if a != [] && a[0] == b[0] && b[0] == c[0] {
      StrLessTransitive(a[1..], b[1..], c[1..]);
    }
  }

  lemma {:induction false} StrLessTotal(a: string, b: string)
    requires a != b
    ensures StrLess(a, b) || StrLess(b, a)
  {
    if a != [] && b != [] && a[0] == b[0] {
      assert a == [a[0]] + a[1..] && b == [b[0]] + b[1..];
      StrLessTotal(a[1..], b[1..]);
    }
  }

  /** The sort key (daynum, BlockIdx, Student). */
  datatype Key = Key(dayNum: int, idx: int, student: string)

  predicate KeyLess(a: Key, b: Key)
  {
    a.dayNum < b.dayNum
    || (a.dayNum == b.dayNum && a.idx < b.idx)
    || (a.dayNum == b.dayNum && a.idx == b.idx && StrLess(a.student, b.student))
  }

  /** a may come before b: they are in order or have the same key. */
  predicate KeyLe(a: Key, b: Key)
  {
    KeyLess(a, b) || a == b
  }

  lemma KeyLessIrreflexive(a: Key)
    ensures !KeyLess(a, a)
  {
    StrLessIrreflexive(a.student);
  }

  lemma KeyLessTransitive(a: Key, b: Key, c: Key)
    requires KeyLess(a, b) && KeyLess(b, c)
    ensures KeyLess(a, c)
  {
    if a.dayNum == b.dayNum == c.dayNum && a.idx == b.idx == c.idx {
      StrLessTransitive(a.student, b.student, c.student);
    }
  }

  lemma KeyLessTotal(a: Key, b: Key)
    ensures KeyLess(a, b) || a == b || KeyLess(b, a)
  {
    if a.dayNum == b.dayNum && a.idx == b.idx && a.student != b.student {
      StrLessTotal(a.student, b.student);
    }
  }

  lemma KeyLeTransitive(a: Key, b: Key, c: Key)
    requires KeyLe(a, b) && KeyLe(b, c)
    ensures KeyLe(a, c)
  {
    if KeyLess(a, b) && KeyLess(b, c) {
      KeyLessTransitive(a, b, c);
    }
  }

  lemma KeyLeAntisymmetric(a: Key, b: Key)
    requires KeyLe(a, b) && KeyLe(b, a)
    ensures a == b
  {
    if KeyLess(a, b) && KeyLess(b, a) {
      KeyLessTransitive(a, b, a);
      KeyLessIrreflexive(a);
    }
  }
}
