/** The linear program as data: variable keys, linear expressions, named
    constraints, a 0/1 valuation standing for the solver's answer, and the
    problem object that build_model grows with `prob += ...`. */
module LinearModel {
  import opened Common
  import opened Blocks

  type Student = string

  /** The keys of the source's variable dictionaries x, y, start2, start3,
      start4 and u; Start(k, ...) is the key of start<k>. */
  datatype VarKey =
    | X(s: Student, d: Day, i: nat)
    | Y(s: Student, d: Day)
    | Start(k: nat, s: Student, d: Day, i: nat)
    | U(d: Day, i: nat)

  datatype Term = Term(coef: int, key: VarKey)

  /** A linear expression: the sum of its terms. */
  type LinExpr = seq<Term>

  datatype Rel = Le | Ge | Eq

  /** The constraint names the source gives (cover_d_i, ovl_d_i, minH_s,
      maxH_s, AvgLow, AvgHigh, busy_s_d_i, shifts_s_d, sumx_s_d). The
      shift-start links are unnamed in the source; Link(k, s, d, i, j) is the
      link x[s,d,i+j] >= start<k>[s,d,i]. */
  datatype Tag =
    | Cover(d: Day, i: nat)
    | Ovl(d: Day, i: nat)
    | MinH(s: Student)
    | MaxH(s: Student)
    | AvgLow
    | AvgHigh
    | Busy(s: Student, d: Day, i: nat)
    | Shifts(s: Student, d: Day)
    | SumX(s: Student, d: Day)
    | Link(k: nat, s: Student, d: Day, i: nat, j: nat)

  /** lhs REL bound; a source constraint with variables on both sides is
      stored with the right-hand variables moved to the left. */
  datatype Constraint = Constraint(tag: Tag, lhs: LinExpr, rel: Rel, bound: int)

  /** The solver's answer: a value per variable key. */
  type Valuation = map<VarKey, int>

  function Value(val: Valuation, k: VarKey): int
  {
    if k in val then val[k] else 0
  }

  /** A binary answer: every variable is 0 or 1. */
  predicate Binary(val: Valuation)
  {
    forall k :: k in val ==> val[k] == 0 || val[k] == 1
  }

  function Eval(e: LinExpr, val: Valuation): int
  {
    if e == [] then 0 else Eval(e[..|e| - 1], val) + e[|e| - 1].coef * Value(val, e[|e| - 1].key)
  }

  predicate Holds(lhs: int, rel: Rel, bound: int)
  {
    match rel
    case Le => lhs <= bound
    case Ge => lhs >= bound
    case Eq => lhs == bound
  }

  predicate Satisfies(c: Constraint, val: Valuation)
  {
    Holds(Eval(c.lhs, val), c.rel, c.bound)
  }

  predicate SatisfiesAll(cs: seq<Constraint>, val: Valuation)
  {
    forall c :: c in cs ==> Satisfies(c, val)
  }

  /** The keys an expression mentions. */
  function KeysOf(e: LinExpr): set<VarKey>
  {
    set t | t in e :: t.key
  }

  /** c * (k1 + k2 + ...): lpSum over keys, scaled. */
  function Scaled(c: int, keys: seq<VarKey>): (r: LinExpr)
    ensures |r| == |keys|
  {
    seq(|keys|, j requires 0 <= j < |keys| => Term(c, keys[j]))
  }

  function Ones(keys: seq<VarKey>): LinExpr
  {
    Scaled(1, keys)
  }

  /** The values the answer gives to a sequence of keys. */
  function Values(keys: seq<VarKey>, val: Valuation): (r: seq<int>)
    ensures |r| == |keys|
  {
    seq(|keys|, j requires 0 <= j < |keys| => Value(val, keys[j]))
  }

  lemma ValueBinary(val: Valuation, k: VarKey)
    requires Binary(val)
    ensures Value(val, k) == 0 || Value(val, k) == 1
  {
  }

  lemma BinaryValues(keys: seq<VarKey>, val: Valuation)
    requires Binary(val)
    ensures AllBinary(Values(keys, val))
  {
  }

  lemma {:induction false} EvalAppend(a: LinExpr, b: LinExpr, val: Valuation)
    ensures Eval(a + b, val) == Eval(a, val) + Eval(b, val)
  {
    if b == [] {
      assert a + b == a;
    } else {
      assert (a + b)[..|a + b| - 1] == a + b[..|b| - 1];
      EvalAppend(a, b[..|b| - 1], val);
    }
  }

  /** A scaled lpSum evaluates to the scale times the sum of the values. */
  lemma {:induction false} EvalScaled(c: int, keys: seq<VarKey>, val: Valuation)
    ensures Eval(Scaled(c, keys), val) == c * Sum(Values(keys, val))
  {
    if keys != [] {
      var init := keys[..|keys| - 1];
      assert Scaled(c, keys)[..|keys| - 1] == Scaled(c, init);
      assert Values(keys, val)[..|keys| - 1] == Values(init, val);
      EvalScaled(c, init, val);
    }
  }

  /** The LpProblem: an objective and a growing list of constraints. */
  class Problem {
    var objective: LinExpr
    var constraints: seq<Constraint>

    constructor ()
      ensures objective == [] && constraints == []
    {
      objective := [];
      constraints := [];
    }

    /** prob += expr, "obj" */
    method SetObjective(e: LinExpr)
      modifies this
      ensures objective == e && constraints == old(constraints)
    {
      objective := e;
    }

    /** prob += constraint, name */
    method Add(c: Constraint)
      modifies this
      ensures constraints == old(constraints) + [c] && objective == old(objective)
    {
      constraints := constraints + [c];
    }
  }
}
