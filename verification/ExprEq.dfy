/** `expr_eliminate_yn`, and the comparison of expressions up to associativity and
    commutativity: `expr_eq`, `expr_eliminate_eq` and `expr_extract_eq`. */
module ExprEquality {
  import opened Exprs

  /* ----- constant operands ----- */

  predicate IsYn(e: Expr) {
    e == Leaf(SymbolYes) || e == Leaf(SymbolNo)
  }

  /** `expr_eliminate_yn`: drops unit operands and collapses on a zero operand. Operands of
      a negation are left alone, as in the original. */
  function EliminateYn(e: Expr): (r: Expr)
    ensures Size(r) <= Size(e)
  {
    match e
    case Bin(op, l, r) =>
      var l', r' := EliminateYn(l), EliminateYn(r);
      if l' == ZeroLeaf(op) then ZeroLeaf(op)
      else if l' == UnitLeaf(op) then r'
      else if r' == ZeroLeaf(op) then ZeroLeaf(op)
      else if r' == UnitLeaf(op) then l'
      else Bin(op, l', r')
    case _ => e
  }

  /** Some operand of an and/or outside negations is the constant y or n. */
  predicate HasConstOperand(e: Expr) {
    e.Bin? && (IsYn(e.lhs) || IsYn(e.rhs) || HasConstOperand(e.lhs) || HasConstOperand(e.rhs))
  }

  lemma {:induction false} EliminateYnExact(e: Expr, env: Env)
    requires Grounded(env)
    ensures Eval(EliminateYn(e), env) == Eval(e, env)
  {
    match e
    case Bin(op, l, r) =>
      EliminateYnExact(l, env);
      EliminateYnExact(r, env);
      assert env.tri(ConstOf(op.Zero())) == op.Zero();
      assert env.tri(ConstOf(op.Unit())) == op.Unit();
    case _ =>
  }

  /** The result has no constant operand left, and shrinks exactly when there was one. */
  lemma {:induction false} EliminateYnNormal(e: Expr)
    ensures !HasConstOperand(EliminateYn(e))
    ensures if HasConstOperand(e) then Size(EliminateYn(e)) < Size(e) else EliminateYn(e) == e
  {
    if e.Bin? {
      EliminateYnNormal(e.lhs);
      EliminateYnNormal(e.rhs);
    }
  }

  /* ----- expr_eq and expr_eliminate_eq ----- */

  /** Two trees after their common operands were replaced by units. */
  datatype Pair = Pair(fst: Expr, snd: Expr)

  /** `__expr_eliminate_eq`. */
  function EliminateCommon(op: Op, e1: Expr, e2: Expr): (r: Pair)
    ensures Size(r.fst) <= Size(e1) && Size(r.snd) <= Size(e2)
    ensures IsBin(op, r.fst) == IsBin(op, e1) && IsBin(op, r.snd) == IsBin(op, e2)
    decreases Size(e1) + Size(e2), if IsBin(op, e1) || IsBin(op, e2) then 0 else 3
  {
    if IsBin(op, e1) then
      var l := EliminateCommon(op, e1.lhs, e2);
      var r := EliminateCommon(op, e1.rhs, l.snd);
      Pair(Bin(op, l.fst, r.fst), r.snd)
    else if IsBin(op, e2) then
      var l := EliminateCommon(op, e1, e2.lhs);
      var r := EliminateCommon(op, l.fst, e2.rhs);
      Pair(r.fst, Bin(op, l.snd, r.snd))
    else if e1 == e2 && IsYn(e1) then
      Pair(e1, e2)
    else if ExprEq(e1, e2) then
      Pair(UnitLeaf(op), UnitLeaf(op))
    else
      Pair(e1, e2)
  }

  /** `expr_eliminate_eq`. */
  function EliminateEq(e1: Expr, e2: Expr): (r: Pair)
    ensures Size(r.fst) <= Size(e1) && Size(r.snd) <= Size(e2)
    decreases Size(e1) + Size(e2), 1
  {
    var p := if e1.Bin? then EliminateCommon(e1.op, e1, e2) else Pair(e1, e2);
    var q := if p.snd.Bin? && !IsBin(p.snd.op, p.fst)
             then EliminateCommon(p.snd.op, p.fst, p.snd) else p;
    Pair(EliminateYn(q.fst), EliminateYn(q.snd))
  }

  /** `expr_eq`. */
  predicate ExprEq(e1: Expr, e2: Expr)
    decreases Size(e1) + Size(e2), 2
  {
    match e1
    case Leaf(_) => e1 == e2
    case Cmp(_, _, _) => e1 == e2
    case Not(a) => e2.Not? && ExprEq(a, e2.arg)
    case Bin(op, _, _) =>
      IsBin(op, e2) &&
      var p := EliminateEq(e1, e2);
      p.fst.Leaf? && p.fst == p.snd
  }

  /** `__expr_eliminate_eq` strips a common factor: both trees are the same factor combined
      with what is left of them. */
  lemma {:induction false} EliminateCommonFactors(op: Op, e1: Expr, e2: Expr, env: Env) returns (c: Tristate)
    requires Grounded(env)
    ensures Eval(e1, env) == op.Apply(c, Eval(EliminateCommon(op, e1, e2).fst, env))
    ensures Eval(e2, env) == op.Apply(c, Eval(EliminateCommon(op, e1, e2).snd, env))
    decreases Size(e1) + Size(e2), if IsBin(op, e1) || IsBin(op, e2) then 0 else 3
  {
    if IsBin(op, e1) {
      var l := EliminateCommon(op, e1.lhs, e2);
      var r := EliminateCommon(op, e1.rhs, l.snd);
      var c1 := EliminateCommonFactors(op, e1.lhs, e2, env);
      var c2 := EliminateCommonFactors(op, e1.rhs, l.snd, env);
      Regroup(op, c1, c2, Eval(l.fst, env), Eval(r.fst, env));
      Regroup(op, c1, c2, Eval(r.snd, env), Eval(r.snd, env));
      c := op.Apply(c1, c2);
    } else if IsBin(op, e2) {
      var l := EliminateCommon(op, e1, e2.lhs);
      var r := EliminateCommon(op, l.fst, e2.rhs);
      var c1 := EliminateCommonFactors(op, e1, e2.lhs, env);
      var c2 := EliminateCommonFactors(op, l.fst, e2.rhs, env);
      Regroup(op, c1, c2, Eval(l.snd, env), Eval(r.snd, env));
      Regroup(op, c1, c2, Eval(r.fst, env), Eval(r.fst, env));
      c := op.Apply(c1, c2);
    } else if !(e1 == e2 && IsYn(e1)) && ExprEq(e1, e2) {
      ExprEqSound(e1, e2, env);
      c := Eval(e1, env);
    } else {
      c := op.Unit();
    }
  }

  /** `expr_eq` only ever identifies expressions of equal value, in every tristate
      environment. */
  lemma {:induction false} ExprEqSound(e1: Expr, e2: Expr, env: Env)
    requires Grounded(env)
    requires ExprEq(e1, e2)
    ensures Eval(e1, env) == Eval(e2, env)
    decreases Size(e1) + Size(e2), 2
  {
    match e1
    case Leaf(_) =>
    case Cmp(_, _, _) =>
    case Not(a) => ExprEqSound(a, e2.arg, env);
    case Bin(op, _, _) =>
      var p := EliminateCommon(op, e1, e2);
      var c := EliminateCommonFactors(op, e1, e2, env);
      EliminateYnExact(p.fst, env);
      EliminateYnExact(p.snd, env);
  }

  lemma EliminateCommonMonotone(op: Op, e1: Expr, e2: Expr, env: Env)
    requires Grounded(env)
    requires Eval(EliminateCommon(op, e1, e2).fst, env) <= Eval(EliminateCommon(op, e1, e2).snd, env)
    ensures Eval(e1, env) <= Eval(e2, env)
  {
    var c := EliminateCommonFactors(op, e1, e2, env);
  }

  /** `expr_eliminate_eq` reflects the order of values: whatever ordering holds between the
      two remainders already held between the two originals. In particular, if nothing but y
      is left of `e2`, then `e1` implies `e2`. */
  lemma EliminateEqMonotone(e1: Expr, e2: Expr, env: Env)
    requires Grounded(env)
    requires Eval(EliminateEq(e1, e2).fst, env) <= Eval(EliminateEq(e1, e2).snd, env)
    ensures Eval(e1, env) <= Eval(e2, env)
  {
    var p := if e1.Bin? then EliminateCommon(e1.op, e1, e2) else Pair(e1, e2);
    var q := if p.snd.Bin? && !IsBin(p.snd.op, p.fst)
             then EliminateCommon(p.snd.op, p.fst, p.snd) else p;
    EliminateYnExact(q.fst, env);
    EliminateYnExact(q.snd, env);
    if p.snd.Bin? && !IsBin(p.snd.op, p.fst) {
      EliminateCommonMonotone(p.snd.op, p.fst, p.snd, env);
    }
    if e1.Bin? {
      EliminateCommonMonotone(e1.op, e1, e2, env);
    }
  }

  /* ----- expr_eq decides equality of flat expressions ----- */

  /** A symbol, a comparison, or a negated literal. */
  predicate Literal(e: Expr) {
    match e
    case Leaf(_) => true
    case Cmp(_, _, _) => true
    case Not(a) => Literal(a)
    case Bin(_, _, _) => false
  }

  /** An and (or an or) of literals, in any nesting; units are allowed. */
  predicate Flat(op: Op, e: Expr) {
    if IsBin(op, e) then Flat(op, e.lhs) && Flat(op, e.rhs)
    else Literal(e) && e != ZeroLeaf(op)
  }

  /** How often `x` occurs among the operands of `e`; units do not count. */
  function Occurs(op: Op, e: Expr, x: Expr): nat {
    if IsBin(op, e) then Occurs(op, e.lhs, x) + Occurs(op, e.rhs, x)
    else if e == x && x != UnitLeaf(op) then 1
    else 0
  }

  function Minus(a: nat, b: nat): nat {
    if a < b then 0 else a - b
  }

  lemma {:induction false} LiteralsEq(e1: Expr, e2: Expr)
    requires Literal(e1)
    ensures ExprEq(e1, e2) <==> e1 == e2
  {
    if e1.Not? && e2.Not? {
      LiteralsEq(e1.arg, e2.arg);
    }
  }

  /** Each operand was removed from both sides as often as it occurs on both. */
  predicate Removed(op: Op, e1: Expr, e2: Expr, p: Pair, x: Expr) {
    && Flat(op, p.fst) && Flat(op, p.snd)
    && Occurs(op, p.fst, x) == Minus(Occurs(op, e1, x), Occurs(op, e2, x))
    && Occurs(op, p.snd, x) == Minus(Occurs(op, e2, x), Occurs(op, e1, x))
  }

  lemma RemovedFirst(op: Op, a: Expr, b: Expr, c: Expr, l: Pair, r: Pair, x: Expr)
    requires Removed(op, a, c, l, x) && Removed(op, b, l.snd, r, x)
    ensures Removed(op, Bin(op, a, b), c, Pair(Bin(op, l.fst, r.fst), r.snd), x)
  {
  }

  lemma RemovedSecond(op: Op, a: Expr, b: Expr, c: Expr, l: Pair, r: Pair, x: Expr)
    requires Removed(op, c, a, l, x) && Removed(op, l.fst, b, r, x)
    ensures Removed(op, c, Bin(op, a, b), Pair(r.fst, Bin(op, l.snd, r.snd)), x)
  {
  }

  lemma RemovedLeaf(op: Op, e1: Expr, e2: Expr, x: Expr)
    requires Flat(op, e1) && Flat(op, e2) && !IsBin(op, e1) && !IsBin(op, e2)
    ensures ExprEq(e1, e2) <==> e1 == e2
    ensures Removed(op, e1, e2, if e1 == e2 then Pair(UnitLeaf(op), UnitLeaf(op)) else Pair(e1, e2), x)
    ensures e1 == e2 && IsYn(e1) ==> e1 == UnitLeaf(op)
  {
    LiteralsEq(e1, e2);
  }

  /** On flat trees `__expr_eliminate_eq` removes exactly the common operands. */
  lemma {:induction false} EliminateCommonFlat(op: Op, e1: Expr, e2: Expr, x: Expr)
    requires Flat(op, e1) && Flat(op, e2)
    ensures Removed(op, e1, e2, EliminateCommon(op, e1, e2), x)
    decreases Size(e1) + Size(e2)
  {
    if IsBin(op, e1) {
      var l := EliminateCommon(op, e1.lhs, e2);
      EliminateCommonFlat(op, e1.lhs, e2, x);
      EliminateCommonFlat(op, e1.rhs, l.snd, x);
      RemovedFirst(op, e1.lhs, e1.rhs, e2, l, EliminateCommon(op, e1.rhs, l.snd), x);
    } else if IsBin(op, e2) {
      var l := EliminateCommon(op, e1, e2.lhs);
      EliminateCommonFlat(op, e1, e2.lhs, x);
      EliminateCommonFlat(op, l.fst, e2.rhs, x);
      RemovedSecond(op, e2.lhs, e2.rhs, e1, l, EliminateCommon(op, l.fst, e2.rhs), x);
    } else {
      RemovedLeaf(op, e1, e2, x);
    }
  }

  lemma {:induction false} EliminateYnFlat(op: Op, e: Expr, x: Expr)
    requires Flat(op, e)
    ensures Flat(op, EliminateYn(e))
    ensures Occurs(op, EliminateYn(e), x) == Occurs(op, e, x)
  {
    if IsBin(op, e) {
      EliminateYnFlat(op, e.lhs, x);
      EliminateYnFlat(op, e.rhs, x);
    }
  }

  lemma {:induction false} SomeOperand(op: Op, e: Expr) returns (x: Expr)
    requires Flat(op, e) && !HasConstOperand(e) && e != UnitLeaf(op)
    ensures Occurs(op, e, x) > 0
  {
    if IsBin(op, e) {
      x := SomeOperand(op, e.lhs);
    } else {
      x := e;
    }
  }

  /** A flat tree without operands simplifies to the unit. */
  lemma NoOperands(op: Op, e: Expr)
    requires Flat(op, e) && forall x :: Occurs(op, e, x) == 0
    ensures EliminateYn(e) == UnitLeaf(op)
  {
    EliminateYnNormal(e);
    EliminateYnFlat(op, e, e);
    if EliminateYn(e) != UnitLeaf(op) {
      var x := SomeOperand(op, EliminateYn(e));
      EliminateYnFlat(op, e, x);
    }
  }

  /** The same operands, each the same number of times. */
  ghost predicate SameOperands(op: Op, e1: Expr, e2: Expr) {
    forall x: Expr :: Occurs(op, e1, x) == Occurs(op, e2, x)
  }

  /** `expr_eq` decides equality up to reordering and regrouping: two ands (or ors) of
      literals are equal for it exactly when they have the same operands, each the same
      number of times. */
  lemma ExprEqFlat(op: Op, e1: Expr, e2: Expr)
    requires IsBin(op, e1) && IsBin(op, e2)
    requires Flat(op, e1) && Flat(op, e2)
    ensures ExprEq(e1, e2) <==> SameOperands(op, e1, e2)
  {
    var p := EliminateCommon(op, e1, e2);
    var r1, r2 := EliminateYn(p.fst), EliminateYn(p.snd);
    assert EliminateEq(e1, e2) == Pair(r1, r2);
    assert ExprEq(e1, e2) <==> r1.Leaf? && r1 == r2;
    forall x ensures Removed(op, e1, e2, p, x) {
      EliminateCommonFlat(op, e1, e2, x);
    }
    assert Removed(op, e1, e2, p, e1);
    if SameOperands(op, e1, e2) {
      forall x ensures Occurs(op, p.fst, x) == 0 && Occurs(op, p.snd, x) == 0 {
        assert Removed(op, e1, e2, p, x);
      }
      NoOperands(op, p.fst);
      NoOperands(op, p.snd);
    } else if r1 == r2 {
      var x :| Occurs(op, e1, x) != Occurs(op, e2, x);
      assert Removed(op, e1, e2, p, x);
      EliminateYnFlat(op, p.fst, x);
      EliminateYnFlat(op, p.snd, x);
    }
  }

  /* ----- expr_extract_eq ----- */

  /** The common part extracted so far and the two remainders. */
  datatype Extraction = Extraction(common: Option<Expr>, fst: Expr, snd: Expr)

  function Spine(op: Op, e: Expr): nat {
    if IsBin(op, e) then 1 + Spine(op, e.lhs) + Spine(op, e.rhs) else 0
  }

  /** `expr_extract_eq`. */
  function Extract(op: Op, common: Option<Expr>, e1: Expr, e2: Expr): (x: Extraction)
    ensures Spine(op, x.fst) == Spine(op, e1) && Spine(op, x.snd) == Spine(op, e2)
    decreases Spine(op, e1), Spine(op, e2)
  {
    if IsBin(op, e1) then
      var l := Extract(op, common, e1.lhs, e2);
      var r := Extract(op, l.common, e1.rhs, l.snd);
      Extraction(r.common, Bin(op, l.fst, r.fst), r.snd)
    else if IsBin(op, e2) then
      var l := Extract(op, common, e1, e2.lhs);
      var r := Extract(op, l.common, l.fst, e2.rhs);
      Extraction(r.common, r.fst, Bin(op, l.snd, r.snd))
    else if ExprEq(e1, e2) then
      Extraction(if common.Some? then Some(Bin(op, common.value, e1)) else Some(e1), UnitLeaf(op), UnitLeaf(op))
    else
      Extraction(common, e1, e2)
  }

  /** `expr_extract_eq_and` and `expr_extract_eq_or`. */
  function ExtractEq(op: Op, e1: Expr, e2: Expr): Extraction {
    var x := Extract(op, None, e1, e2);
    if x.common.Some? then Extraction(x.common, EliminateYn(x.fst), EliminateYn(x.snd)) else x
  }

  /** The value of a possibly empty and (or or). */
  function EvalCommon(op: Op, common: Option<Expr>, env: Env): Tristate {
    if common.Some? then Eval(common.value, env) else op.Unit()
  }

  /** At every point of `expr_extract_eq`, the common part combined with either remainder has
      the value it started with; and the common part only grows. */
  lemma {:induction false} ExtractFactors(op: Op, common: Option<Expr>, e1: Expr, e2: Expr, env: Env)
    returns (d: Tristate)
    requires Grounded(env)
    ensures var x := Extract(op, common, e1, e2);
            var k, k' := EvalCommon(op, common, env), EvalCommon(op, x.common, env);
            && k' == op.Apply(k, d)
            && Eval(e1, env) == op.Apply(d, Eval(x.fst, env))
            && Eval(e2, env) == op.Apply(d, Eval(x.snd, env))
    decreases Spine(op, e1), Spine(op, e2)
  {
    var k := EvalCommon(op, common, env);
    if IsBin(op, e1) {
      var l := Extract(op, common, e1.lhs, e2);
      var r := Extract(op, l.common, e1.rhs, l.snd);
      var d1 := ExtractFactors(op, common, e1.lhs, e2, env);
      var d2 := ExtractFactors(op, l.common, e1.rhs, l.snd, env);
      Regroup(op, d1, d2, Eval(l.fst, env), Eval(r.fst, env));
      Regroup(op, d1, d2, Eval(r.snd, env), Eval(r.snd, env));
      Regroup(op, k, d1, d2, d2);
      d := op.Apply(d1, d2);
    } else if IsBin(op, e2) {
      var l := Extract(op, common, e1, e2.lhs);
      var r := Extract(op, l.common, l.fst, e2.rhs);
      var d1 := ExtractFactors(op, common, e1, e2.lhs, env);
      var d2 := ExtractFactors(op, l.common, l.fst, e2.rhs, env);
      Regroup(op, d1, d2, Eval(l.snd, env), Eval(r.snd, env));
      Regroup(op, d1, d2, Eval(r.fst, env), Eval(r.fst, env));
      Regroup(op, k, d1, d2, d2);
      d := op.Apply(d1, d2);
    } else if ExprEq(e1, e2) {
      ExprEqSound(e1, e2, env);
      d := Eval(e1, env);
    } else {
      d := op.Unit();
    }
  }

  /** `expr_extract_eq_and/or` factor: each original is the extracted part combined with its
      remainder, for any number of matches and in every tristate environment. */
  lemma ExtractEqExact(op: Op, e1: Expr, e2: Expr, env: Env)
    requires Grounded(env)
    ensures var x := ExtractEq(op, e1, e2);
            && Eval(e1, env) == op.Apply(EvalCommon(op, x.common, env), Eval(x.fst, env))
            && Eval(e2, env) == op.Apply(EvalCommon(op, x.common, env), Eval(x.snd, env))
  {
    var x := Extract(op, None, e1, e2);
    var d := ExtractFactors(op, None, e1, e2, env);
    EliminateYnExact(x.fst, env);
    EliminateYnExact(x.snd, env);
  }

  function Remainders(r: Extraction): Pair {
    Pair(r.fst, r.snd)
  }

  /** On flat trees the two remainders are what is left after the common operands. */
  lemma {:induction false} ExtractFlat(op: Op, common: Option<Expr>, e1: Expr, e2: Expr, x: Expr)
    requires Flat(op, e1) && Flat(op, e2)
    ensures Removed(op, e1, e2, Remainders(Extract(op, common, e1, e2)), x)
    decreases Spine(op, e1), Spine(op, e2)
  {
    if IsBin(op, e1) {
      var l := Extract(op, common, e1.lhs, e2);
      var r := Extract(op, l.common, e1.rhs, l.snd);
      ExtractFlat(op, common, e1.lhs, e2, x);
      ExtractFlat(op, l.common, e1.rhs, l.snd, x);
      RemovedFirst(op, e1.lhs, e1.rhs, e2, Remainders(l), Remainders(r), x);
    } else if IsBin(op, e2) {
      var l := Extract(op, common, e1, e2.lhs);
      var r := Extract(op, l.common, l.fst, e2.rhs);
      ExtractFlat(op, common, e1, e2.lhs, x);
      ExtractFlat(op, l.common, l.fst, e2.rhs, x);
      RemovedSecond(op, e2.lhs, e2.rhs, e1, Remainders(l), Remainders(r), x);
    } else {
      RemovedLeaf(op, e1, e2, x);
    }
  }

  function OccursOpt(op: Op, e: Option<Expr>, x: Expr): nat {
    if e.Some? then Occurs(op, e.value, x) else 0
  }

  /** How much of an operand was taken from a tree. */
  function Taken(op: Op, e: Expr, rest: Expr, x: Expr): int {
    Occurs(op, e, x) - Occurs(op, rest, x)
  }

  /** On flat trees the extracted part receives exactly what is taken from the first tree. */
  lemma {:induction false} ExtractConserves(op: Op, common: Option<Expr>, e1: Expr, e2: Expr, x: Expr)
    requires Flat(op, e1) && Flat(op, e2)
    ensures OccursOpt(op, Extract(op, common, e1, e2).common, x)
            == OccursOpt(op, common, x) + Taken(op, e1, Extract(op, common, e1, e2).fst, x)
    decreases Spine(op, e1), Spine(op, e2)
  {
    if IsBin(op, e1) {
      var l := Extract(op, common, e1.lhs, e2);
      ExtractFlat(op, common, e1.lhs, e2, x);
      ExtractConserves(op, common, e1.lhs, e2, x);
      ExtractConserves(op, l.common, e1.rhs, l.snd, x);
    } else if IsBin(op, e2) {
      var l := Extract(op, common, e1, e2.lhs);
      ExtractFlat(op, common, e1, e2.lhs, x);
      ExtractConserves(op, common, e1, e2.lhs, x);
      ExtractConserves(op, l.common, l.fst, e2.rhs, x);
    } else {
      RemovedLeaf(op, e1, e2, x);
    }
  }
}
