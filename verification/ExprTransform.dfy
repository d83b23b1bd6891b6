/** The rewriting passes of `expr.c` that look at one expression at a time:
    `expr_transform`, `expr_trans_bool` and `expr_trans_compare`. */
module ExprTransformation {
  import opened Exprs

  /* ----- expr_transform ----- */

  /** A size under which De Morgan's laws shrink a negation although they add a node. */
  function Weight(e: Expr): (n: nat)
    ensures n > 0
  {
    match e
    case Leaf(_) => 1
    case Cmp(_, _, _) => 2
    case Not(a) => 2 * Weight(a)
    case Bin(_, l, r) => 1 + Weight(l) + Weight(r)
  }

  /** A comparison of a bool symbol with n, m or y. */
  function TransformCmp(equal: bool, s: Symbol, t: Symbol): Expr {
    if !s.IsBool() then Cmp(equal, s, t)
    else if t == SymbolNo then (if equal then Not(Leaf(s)) else Leaf(s))
    else if t == SymbolMod then Leaf(if equal then SymbolNo else SymbolYes)
    else if t == SymbolYes then (if equal then Leaf(s) else Not(Leaf(s)))
    else Cmp(equal, s, t)
  }

  /** The negation of an and or an or, by De Morgan's laws. */
  function Distribute(op: Op, l: Expr, r: Expr): (e: Expr)
    ensures Weight(e) == 1 + 2 * Weight(l) + 2 * Weight(r)
  {
    Bin(op.Dual(), Not(l), Not(r))
  }

  /** `expr_transform`. The result of De Morgan's laws and of a double negation is
      transformed again. */
  function Transform(e: Expr): (r: Expr)
    ensures Weight(r) <= Weight(e)
    decreases Weight(e)
  {
    match e
    case Leaf(_) => e
    case Cmp(equal, s, t) => TransformCmp(equal, s, t)
    case Bin(op, l, r) => Bin(op, Transform(l), Transform(r))
    case Not(a) =>
      match Transform(a)
      case Not(b) => Transform(b)
      case Cmp(equal, s, t) => Cmp(!equal, s, t)
      case Bin(op, l, r) => Transform(Distribute(op, l, r))
      case Leaf(s) =>
        if s == SymbolYes then Leaf(SymbolNo)
        else if s == SymbolMod then Leaf(SymbolMod)
        else if s == SymbolNo then Leaf(SymbolYes)
        else Not(Leaf(s))
  }

  /** Negation stands only above a non-constant symbol, and no bool symbol is compared with a
      tristate constant. */
  predicate Transformed(e: Expr) {
    match e
    case Leaf(_) => true
    case Cmp(_, s, t) => !(s.IsBool() && IsTriConst(t))
    case Not(a) => a.Leaf? && !IsTriConst(a.sym)
    case Bin(_, l, r) => Transformed(l) && Transformed(r)
  }

  lemma {:induction false} TransformNormal(e: Expr)
    ensures Transformed(Transform(e))
    decreases Weight(e)
  {
    match e
    case Leaf(_) =>
    case Cmp(_, _, _) =>
    case Bin(_, l, r) =>
      TransformNormal(l);
      TransformNormal(r);
    case Not(a) =>
      TransformNormal(a);
      match Transform(a) {
        case Bin(op, l, r) => TransformNormal(Distribute(op, l, r));
        case _ =>
      }
  }

  /** `expr_transform` changes exactly the expressions that are not in its normal form; with
      TransformNormal, it is idempotent. */
  lemma {:induction false} TransformFixed(e: Expr)
    ensures Transform(e) == e <==> Transformed(e)
  {
    TransformNormal(e);
    if Transformed(e) && e.Bin? {
      TransformFixed(e.lhs);
      TransformFixed(e.rhs);
    }
  }

  lemma TransformCmpExact(equal: bool, s: Symbol, t: Symbol, env: Env)
    requires WellFormed(env)
    ensures Eval(TransformCmp(equal, s, t), env) == Eval(Cmp(equal, s, t), env)
  {
    if s.IsBool() && IsTriConst(t) {
      var v: Tristate := if t == SymbolNo then NO else if t == SymbolMod then MOD else YES;
      assert env.str(ConstOf(v)) == TriName(v);
      assert env.str(s) == TriName(env.tri(s));
      assert env.str(s)[0] == env.str(t)[0] ==> env.tri(s) == v;
    }
  }

  lemma DeMorgan(op: Op, a: Tristate, b: Tristate)
    ensures op.Dual().Apply(Negate(a), Negate(b)) == Negate(op.Apply(a, b))
  {
  }

  /** `expr_transform` preserves the value in every well-formed tristate environment. */
  lemma {:induction false} TransformExact(e: Expr, env: Env)
    requires WellFormed(env)
    ensures Eval(Transform(e), env) == Eval(e, env)
    decreases Weight(e)
  {
    match e
    case Leaf(_) =>
    case Cmp(equal, s, t) => TransformCmpExact(equal, s, t, env);
    case Bin(_, l, r) =>
      TransformExact(l, env);
      TransformExact(r, env);
    case Not(a) =>
      TransformExact(a, env);
      match Transform(a) {
        case Not(b) => TransformExact(b, env);
        case Bin(op, l, r) =>
          TransformExact(Distribute(op, l, r), env);
          DeMorgan(op, Eval(l, env), Eval(r, env));
        case _ =>
      }
  }

  /* ----- expr_trans_compare ----- */

  /** `expr_trans_compare` on a non-null expression: an expression for `e = t` or `e != t`. */
  function TransCompare(e: Expr, equal: bool, t: Tristate): Expr {
    match e
    case Bin(op, l, r) =>
      var b := if t == YES then Bin(op, TransCompare(l, true, t), TransCompare(r, true, t))
               else if t == NO then Bin(op.Dual(), TransCompare(l, true, t), TransCompare(r, true, t))
               else e;
      if equal then b else Not(b)
    case Not(a) => TransCompare(a, !equal, t)
    case Cmp(_, _, _) =>
      if t == MOD then Leaf(if equal then SymbolNo else SymbolYes)
      else if (t == YES) == equal then e
      else Not(e)
    case Leaf(s) => Cmp(equal, s, ConstOf(t))
  }

  /** `expr_trans_compare`, where a null expression is y. */
  function TransCompareOpt(e: Option<Expr>, equal: bool, t: Tristate): Expr {
    if e.Some? then TransCompare(e.value, equal, t)
    else if equal then Leaf(ConstOf(t))
    else Not(Leaf(ConstOf(t)))
  }

  /** Every symbol standing alone is a bool, a tristate or one of n, m and y. */
  predicate Comparable(e: Expr) {
    match e
    case Leaf(s) => s.IsTri() || IsTriConst(s)
    case Cmp(_, _, _) => true
    case Not(a) => Comparable(a)
    case Bin(_, l, r) => Comparable(l) && Comparable(r)
  }

  /** No negated subexpression has the value m. */
  predicate NegationsDefinite(e: Expr, env: Env) {
    match e
    case Leaf(_) => true
    case Cmp(_, _, _) => true
    case Not(a) => NegationsDefinite(a, env) && Eval(a, env) != MOD
    case Bin(_, l, r) => NegationsDefinite(l, env) && NegationsDefinite(r, env)
  }

  lemma LeafCompareExact(s: Symbol, equal: bool, t: Tristate, env: Env)
    requires WellFormed(env)
    requires s.IsTri() || IsTriConst(s)
    ensures Eval(Cmp(equal, s, ConstOf(t)), env) == Truth((env.tri(s) == t) == equal)
  {
    assert env.str(ConstOf(t)) == TriName(t);
    var v := env.tri(s);
    assert env.str(s) == TriName(v) by {
      if !s.IsTri() {
        assert s == ConstOf(v) && env.str(ConstOf(v)) == TriName(v);
      }
    }
    assert env.str(s)[0] == env.str(ConstOf(t))[0] ==> v == t;
  }

  function Read(same: bool, t: Tristate): Tristate {
    if same then t else Negate(t)
  }

  /** How `expr_trans_compare` reads symbols when it compares with `t`: a symbol with the string of
      `t` counts as `t`, and every other one as the opposite. */
  function AsCompared(env: Env, t: Tristate): Env {
    Env(s => Read(env.str(s) == env.str(ConstOf(t)), t), env.str)
  }

  /** What the result means, in every environment: the comparison of the expression that is read
      in this way. */
  lemma {:induction false} TransCompareMeaning(e: Expr, equal: bool, t: Tristate, env: Env)
    requires t != MOD
    ensures Eval(e, AsCompared(env, t)) != MOD
    ensures Eval(TransCompare(e, equal, t), env) == Truth((Eval(e, AsCompared(env, t)) == t) == equal)
  {
    match e
    case Leaf(_) =>
    case Cmp(_, _, _) =>
    case Not(a) => TransCompareMeaning(a, !equal, t, env);
    case Bin(_, l, r) =>
      TransCompareMeaning(l, true, t, env);
      TransCompareMeaning(r, true, t, env);
  }

  /** Reading the symbols so does not move the expression to the value or away from it. */
  predicate ReadExactly(e: Expr, t: Tristate, env: Env) {
    Eval(e, AsCompared(env, t)) == t <==> Eval(e, env) == t
  }

  /** The rewriting is exact if and only if that is so. */
  lemma TransCompareExact(e: Expr, equal: bool, t: Tristate, env: Env)
    requires t != MOD
    ensures Eval(TransCompare(e, equal, t), env) == Truth((Eval(e, env) == t) == equal) <==> ReadExactly(e, t, env)
  {
    TransCompareMeaning(e, equal, t, env);
  }

  /** If an expression is compared exactly, its negation is if and only if the expression is not
      m. */
  lemma TransCompareNegation(a: Expr, equal: bool, t: Tristate, env: Env)
    requires t != MOD && ReadExactly(a, t, env)
    ensures Eval(TransCompare(Not(a), equal, t), env) == Truth((Negate(Eval(a, env)) == t) == equal)
            <==> Eval(a, env) != MOD
  {
    TransCompareMeaning(a, !equal, t, env);
  }

  /** In a well-formed environment a bool or tristate symbol at m is read as the opposite of the
      value, and nothing else changes; expressions of such symbols are compared exactly wherever no
      negated part is m. */
  lemma {:induction false} TransCompareDefiniteParts(e: Expr, t: Tristate, env: Env)
    requires WellFormed(env) && Comparable(e) && NegationsDefinite(e, env) && t != MOD
    ensures ReadExactly(e, t, env)
    ensures Eval(e, env) != MOD ==> Eval(e, AsCompared(env, t)) == Eval(e, env)
  {
    match e
    case Leaf(s) => LeafCompareExact(s, true, t, env);
    case Cmp(_, _, _) =>
    case Not(a) => TransCompareDefiniteParts(a, t, env);
    case Bin(_, l, r) =>
      TransCompareDefiniteParts(l, t, env);
      TransCompareDefiniteParts(r, t, env);
  }

  /** A number that stands alone is n, but counts as y when it is compared with n. */
  lemma TransCompareNumber(s: Symbol, env: Env)
    requires WellFormed(env) && !s.IsTri() && env.tri(s) == NO && env.str(s) == "5"
    ensures Eval(Leaf(s), env) == NO && Eval(TransCompare(Leaf(s), false, NO), env) == YES
  {
    assert env.str(ConstOf(NO)) == TriName(NO);
  }

  /** Whatever the environment, the result of a comparison with n or y is n or y. */
  lemma {:induction false} TransCompareDefinite(e: Expr, equal: bool, t: Tristate, env: Env)
    requires t != MOD
    ensures Eval(TransCompare(e, equal, t), env) != MOD
  {
    match e
    case Leaf(_) =>
    case Cmp(_, _, _) =>
    case Not(a) => TransCompareDefinite(a, !equal, t, env);
    case Bin(_, l, r) =>
      TransCompareDefinite(l, true, t, env);
      TransCompareDefinite(r, true, t, env);
  }

  /* ----- expr_trans_bool ----- */

  /** `expr_trans_bool`: `FOO != n` becomes `FOO` for a tristate FOO. */
  function TransBool(e: Expr): Expr {
    match e
    case Leaf(_) => e
    case Cmp(equal, s, t) =>
      if !equal && s.IsTristate() && t == SymbolNo then Leaf(s) else e
    case Not(a) => Not(TransBool(a))
    case Bin(op, l, r) => Bin(op, TransBool(l), TransBool(r))
  }

  /** No tristate symbol that is tested with `!= n` has the value m. */
  predicate TestsDefinite(e: Expr, env: Env) {
    match e
    case Leaf(_) => true
    case Cmp(equal, s, t) => !equal && s.IsTristate() && t == SymbolNo ==> env.tri(s) != MOD
    case Not(a) => TestsDefinite(a, env)
    case Bin(_, l, r) => TestsDefinite(l, env) && TestsDefinite(r, env)
  }

  lemma {:induction false} TransBoolExact(e: Expr, env: Env)
    requires WellFormed(env)
    ensures TestsDefinite(e, env) ==> Eval(TransBool(e), env) == Eval(e, env)
    ensures e.Cmp? && Eval(TransBool(e), env) == Eval(e, env) ==> TestsDefinite(e, env)
  {
    match e
    case Leaf(_) =>
    case Cmp(equal, s, t) =>
      if !equal && s.IsTristate() && t == SymbolNo {
        LeafCompareExact(s, false, NO, env);
      }
    case Not(a) => TransBoolExact(a, env);
    case Bin(_, l, r) =>
      TransBoolExact(l, env);
      TransBoolExact(r, env);
  }

  predicate TestsTristate(e: Expr) {
    match e
    case Leaf(_) => false
    case Cmp(equal, s, t) => !equal && s.IsTristate() && t == SymbolNo
    case Not(a) => TestsTristate(a)
    case Bin(_, l, r) => TestsTristate(l) || TestsTristate(r)
  }

  /** No test of a tristate symbol for n is left, and an expression without one stays as it is. */
  lemma {:induction false} TransBoolNormal(e: Expr)
    ensures !TestsTristate(TransBool(e))
    ensures TransBool(e) == e <==> !TestsTristate(e)
  {
    match e
    case Leaf(_) =>
    case Cmp(_, _, _) =>
    case Not(a) => TransBoolNormal(a);
    case Bin(_, l, r) =>
      TransBoolNormal(l);
      TransBoolNormal(r);
  }

  /* ----- expr_contains_symbol and expr_depends_symbol ----- */

  predicate ContainsSymbol(e: Expr, s: Symbol) {
    match e
    case Leaf(t) => s == t
    case Cmp(_, l, r) => s == l || s == r
    case Not(a) => ContainsSymbol(a, s)
    case Bin(_, l, r) => ContainsSymbol(l, s) || ContainsSymbol(r, s)
  }

  predicate DependsSymbol(e: Expr, s: Symbol) {
    match e
    case Leaf(t) => s == t
    case Cmp(equal, l, r) =>
      l == s && if equal then r == SymbolYes || r == SymbolMod else r == SymbolNo
    case Not(_) => false
    case Bin(op, l, r) => op == And && (DependsSymbol(l, s) || DependsSymbol(r, s))
  }

  /** If `expr_depends_symbol` holds, the expression is n whenever the symbol is. */
  lemma {:induction false} DependsSymbolSound(e: Expr, s: Symbol, env: Env)
    requires WellFormed(env) && s.IsTri()
    requires DependsSymbol(e, s) && Eval(e, env) != NO
    ensures env.tri(s) != NO
    ensures ContainsSymbol(e, s)
  {
    match e
    case Leaf(_) =>
    case Cmp(equal, _, r) =>
      LeafCompareExact(s, equal, if r == SymbolNo then NO else if r == SymbolMod then MOD else YES, env);
    case Bin(_, l, r) =>
      if DependsSymbol(l, s) {
        DependsSymbolSound(l, s, env);
      } else {
        DependsSymbolSound(r, s, env);
      }
  }
}
