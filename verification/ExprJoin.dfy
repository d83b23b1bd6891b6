/** The pairwise simplifications `expr_join_or` and `expr_join_and`. */
module ExprJoin {
  import opened Exprs
  import opened ExprEquality
  import opened ExprTransformation

  /** The symbol a literal is about; only the first operand may be a negated comparison. */
  function HeadSymbol(e: Expr, first: bool): Option<Symbol> {
    match e
    case Leaf(s) => Some(s)
    case Cmp(_, s, _) => Some(s)
    case Not(Leaf(s)) => Some(s)
    case Not(Cmp(_, s, _)) => if first then Some(s) else None
    case _ => None
  }

  predicate Tests(e: Expr, equal: bool, c: Symbol) {
    e.Cmp? && e.equal == equal && e.right == c
  }

  /** One operand is the symbol itself and the other one a test of it. */
  predicate LeafAndTest(e1: Expr, e2: Expr, equal: bool, c: Symbol) {
    (e1.Leaf? && Tests(e2, equal, c)) || (e2.Leaf? && Tests(e1, equal, c))
  }

  predicate TwoTests(e1: Expr, e2: Expr, equal: bool, c: Symbol, d: Symbol) {
    (Tests(e1, equal, c) && Tests(e2, equal, d)) || (Tests(e1, equal, d) && Tests(e2, equal, c))
  }

  predicate NegatedLeaf(e: Expr) {
    e.Not? && e.arg.Leaf?
  }

  /** The rules of `expr_join_or` for two literals about the same bool or tristate `s`. */
  function JoinOrRules(s: Symbol, e1: Expr, e2: Expr): Option<Expr> {
    if s.IsTristate() && TwoTests(e1, e2, true, SymbolYes, SymbolMod) then
      Some(Cmp(false, s, SymbolNo))
    else if s.IsTristate() && TwoTests(e1, e2, true, SymbolYes, SymbolNo) then
      Some(Cmp(false, s, SymbolMod))
    else if s.IsTristate() && TwoTests(e1, e2, true, SymbolMod, SymbolNo) then
      Some(Cmp(false, s, SymbolYes))
    else if s.IsBool() && ((NegatedLeaf(e1) && e2.Leaf?) || (NegatedLeaf(e2) && e1.Leaf?)) then
      Some(Leaf(SymbolYes))
    else
      None
  }

  /** `s = b` and `s != c` for constants `b` and `c`. */
  function JoinEqualUnequal(s: Symbol, b: Symbol, c: Symbol): Expr {
    if b != c then Cmp(true, s, b) else Leaf(SymbolNo)
  }

  /** The rules of `expr_join_and` for two literals about the same bool or tristate `s`. */
  function JoinAndRules(s: Symbol, e1: Expr, e2: Expr): Option<Expr> {
    if LeafAndTest(e1, e2, true, SymbolYes) then Some(Cmp(true, s, SymbolYes))
    else if LeafAndTest(e1, e2, false, SymbolNo) then Some(Leaf(s))
    else if LeafAndTest(e1, e2, false, SymbolMod) then Some(Cmp(true, s, SymbolYes))
    else if !s.IsTristate() then None
    else if e1.Cmp? && e2.Cmp? && e1.equal && !e2.equal && e1.right.Constant? && e2.right.Constant? then
      Some(JoinEqualUnequal(s, e1.right, e2.right))
    else if e1.Cmp? && e2.Cmp? && !e1.equal && e2.equal && e1.right.Constant? && e2.right.Constant? then
      Some(JoinEqualUnequal(s, e2.right, e1.right))
    else if TwoTests(e1, e2, false, SymbolYes, SymbolNo) then Some(Cmp(true, s, SymbolMod))
    else if TwoTests(e1, e2, false, SymbolYes, SymbolMod) then Some(Cmp(true, s, SymbolNo))
    else if TwoTests(e1, e2, false, SymbolMod, SymbolNo) then Some(Cmp(true, s, SymbolYes))
    else None
  }

  /** `expr_join_and` and `expr_join_or`: a single operand to replace two, if there is one. */
  function Join(op: Op, e1: Expr, e2: Expr): (j: Option<Expr>)
    ensures j.Some? ==> j.value == e1 || !j.value.Bin?
    ensures j.Some? ==> Size(j.value) < Size(e1) + Size(e2)
  {
    if ExprEq(e1, e2) then Some(e1)
    else
      var s1, s2 := HeadSymbol(e1, true), HeadSymbol(e2, false);
      if s1.None? || s1 != s2 || !s1.value.IsTri() then None
      else if op == And then JoinAndRules(s1.value, e1, e2)
      else JoinOrRules(s1.value, e1, e2)
  }

  /* ----- what is left to join ----- */

  predicate TriTest(e: Expr) {
    e.Cmp? && e.left.IsTri() && IsTriConst(e.right)
  }

  /** A literal and a copy of it, or two groups of literals with the same operands. */
  ghost predicate Repeated(x: Expr, y: Expr) {
    || (Literal(x) && x == y)
    || (x.Bin? && IsBin(x.op, y) && Flat(x.op, x) && Flat(x.op, y) && SameOperands(x.op, x, y))
  }

  /** Two operands of an or: a bool symbol and its negation, or two tests of a tristate symbol for
      different values. */
  predicate RedundantInOr(x: Expr, y: Expr) {
    || (x.Leaf? && x.sym.IsBool() && y == Not(x))
    || (TriTest(x) && TriTest(y) && x.left == y.left && x.left.IsTristate() && x.equal && y.equal && x.right != y.right)
  }

  /** Two operands of an and: a symbol and a test that it is y, or that it is not n or not m; or
      two tests of a tristate symbol, one at least that it is not a value. */
  predicate RedundantInAnd(x: Expr, y: Expr) {
    || (x.Leaf? && TriTest(y) && y.left == x.sym && (y.equal <==> y.right == SymbolYes))
    || (TriTest(x) && TriTest(y) && x.left == y.left && x.left.IsTristate() && !y.equal
        && (x.equal || x.right != y.right))
  }

  ghost predicate Redundant(op: Op, x: Expr, y: Expr) {
    Repeated(x, y) || if op.Or? then RedundantInOr(x, y) else RedundantInAnd(x, y)
  }

  /** Such operands are joined. */
  lemma RedundantJoined(op: Op, x: Expr, y: Expr)
    requires Redundant(op, x, y)
    ensures Join(op, x, y).Some? && Join(op, y, x).Some?
  {
    if Repeated(x, y) {
      if Literal(x) && x == y {
        LiteralsEq(x, y);
      } else {
        ExprEqFlat(x.op, x, y);
        ExprEqFlat(x.op, y, x);
      }
    }
  }

  lemma TestMeaning(s: Symbol, env: Env)
    requires WellFormed(env) && s.IsTri()
    ensures Eval(Cmp(true, s, SymbolNo), env) == Truth(env.tri(s) == NO)
    ensures Eval(Cmp(true, s, SymbolMod), env) == Truth(env.tri(s) == MOD)
    ensures Eval(Cmp(true, s, SymbolYes), env) == Truth(env.tri(s) == YES)
    ensures Eval(Cmp(false, s, SymbolNo), env) == Truth(env.tri(s) != NO)
    ensures Eval(Cmp(false, s, SymbolMod), env) == Truth(env.tri(s) != MOD)
    ensures Eval(Cmp(false, s, SymbolYes), env) == Truth(env.tri(s) != YES)
  {
    LeafCompareExact(s, true, NO, env);
    LeafCompareExact(s, true, MOD, env);
    LeafCompareExact(s, true, YES, env);
  }

  lemma JoinOrExact(s: Symbol, e1: Expr, e2: Expr, env: Env)
    requires WellFormed(env) && s.IsTri()
    requires HeadSymbol(e1, true) == Some(s) && HeadSymbol(e2, false) == Some(s)
    requires JoinOrRules(s, e1, e2).Some?
    ensures Eval(JoinOrRules(s, e1, e2).value, env) == Or.Apply(Eval(e1, env), Eval(e2, env))
  {
    TestMeaning(s, env);
  }

  lemma JoinEqualUnequalExact(s: Symbol, b: Symbol, c: Symbol, env: Env)
    requires WellFormed(env) && b.Constant? && c.Constant?
    ensures Eval(JoinEqualUnequal(s, b, c), env)
            == And.Apply(Eval(Cmp(true, s, b), env), Eval(Cmp(false, s, c), env))
  {
  }

  lemma LeafAndTestExact(s: Symbol, e1: Expr, e2: Expr, equal: bool, c: Symbol, env: Env)
    requires HeadSymbol(e1, true) == Some(s) && HeadSymbol(e2, false) == Some(s)
    requires LeafAndTest(e1, e2, equal, c)
    ensures And.Apply(Eval(e1, env), Eval(e2, env)) == And.Apply(env.tri(s), Eval(Cmp(equal, s, c), env))
  {
    assert (e1 == Leaf(s) && e2 == Cmp(equal, s, c)) || (e2 == Leaf(s) && e1 == Cmp(equal, s, c));
  }

  lemma TwoTestsExact(s: Symbol, e1: Expr, e2: Expr, equal: bool, c: Symbol, d: Symbol, env: Env)
    requires HeadSymbol(e1, true) == Some(s) && HeadSymbol(e2, false) == Some(s)
    requires TwoTests(e1, e2, equal, c, d)
    ensures And.Apply(Eval(e1, env), Eval(e2, env))
            == And.Apply(Eval(Cmp(equal, s, c), env), Eval(Cmp(equal, s, d), env))
  {
    assert (e1 == Cmp(equal, s, c) && e2 == Cmp(equal, s, d))
        || (e2 == Cmp(equal, s, c) && e1 == Cmp(equal, s, d));
  }

  lemma JoinAndExact(s: Symbol, e1: Expr, e2: Expr, env: Env)
    requires WellFormed(env) && s.IsTri()
    requires HeadSymbol(e1, true) == Some(s) && HeadSymbol(e2, false) == Some(s)
    requires JoinAndRules(s, e1, e2).Some?
    ensures Eval(JoinAndRules(s, e1, e2).value, env) == And.Apply(Eval(e1, env), Eval(e2, env))
  {
    TestMeaning(s, env);
    if LeafAndTest(e1, e2, true, SymbolYes) {
      LeafAndTestExact(s, e1, e2, true, SymbolYes, env);
    } else if LeafAndTest(e1, e2, false, SymbolNo) {
      LeafAndTestExact(s, e1, e2, false, SymbolNo, env);
    } else if LeafAndTest(e1, e2, false, SymbolMod) {
      LeafAndTestExact(s, e1, e2, false, SymbolMod, env);
    } else if e1.Cmp? && e2.Cmp? && e1.right.Constant? && e2.right.Constant? && e1.equal != e2.equal {
      JoinEqualUnequalExact(s, e1.right, e2.right, env);
      JoinEqualUnequalExact(s, e2.right, e1.right, env);
    } else if TwoTests(e1, e2, false, SymbolYes, SymbolNo) {
      TwoTestsExact(s, e1, e2, false, SymbolYes, SymbolNo, env);
    } else if TwoTests(e1, e2, false, SymbolYes, SymbolMod) {
      TwoTestsExact(s, e1, e2, false, SymbolYes, SymbolMod, env);
    } else {
      TwoTestsExact(s, e1, e2, false, SymbolMod, SymbolNo, env);
    }
  }

  /** Every rule of `expr_join_or` and `expr_join_and` is exact in every well-formed tristate
      environment, values m included. */
  lemma JoinExact(op: Op, e1: Expr, e2: Expr, env: Env)
    requires WellFormed(env)
    requires Join(op, e1, e2).Some?
    ensures Eval(Join(op, e1, e2).value, env) == op.Apply(Eval(e1, env), Eval(e2, env))
  {
    if ExprEq(e1, e2) {
      ExprEqSound(e1, e2, env);
    } else if op == And {
      JoinAndExact(HeadSymbol(e1, true).value, e1, e2, env);
    } else {
      JoinOrExact(HeadSymbol(e1, true).value, e1, e2, env);
    }
  }
}
