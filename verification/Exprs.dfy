/** The dependency language of Kconfig: tristate values, symbols and the
    expressions that `expr.c` stores in `struct expr`. */
module Exprs {

  datatype Option<+T> = None | Some(value: T)

  /** `enum tristate`, ordered no < mod < yes. */
  type Tristate = t: int | 0 <= t <= 2

  const NO: Tristate := 0
  const MOD: Tristate := 1
  const YES: Tristate := 2

  /** The two binary operators; each is the dual of the other. */
  datatype Op = And | Or {
    function Dual(): Op {
      if And? then Or else And
    }

    /** The operand that leaves the other one unchanged, and the one that decides the result. */
    function Unit(): Tristate {
      if And? then YES else NO
    }

    function Zero(): Tristate {
      if And? then NO else YES
    }

    /** `EXPR_AND` and `EXPR_OR`. */
    function Apply(a: Tristate, b: Tristate): Tristate {
      if And? then (if a < b then a else b) else (if a > b then a else b)
    }
  }

  /** Laws of the operators, collected so that proofs need not unfold them. */
  lemma Regroup(op: Op, a: Tristate, b: Tristate, x: Tristate, y: Tristate)
    ensures op.Apply(op.Apply(a, x), op.Apply(b, y)) == op.Apply(op.Apply(a, b), op.Apply(x, y))
    ensures op.Apply(a, op.Apply(b, x)) == op.Apply(op.Apply(a, b), x)
  {
  }

  /** `EXPR_NOT`. */
  function Negate(a: Tristate): Tristate {
    2 - a
  }

  function Truth(b: bool): Tristate {
    if b then YES else NO
  }

  /** The string under which a tristate value is compared and written. */
  function TriName(t: Tristate): (s: string)
    ensures |s| == 1
    ensures s[0] == if t == NO then 'n' else if t == MOD then 'm' else 'y'
  {
    if t == NO then "n" else if t == MOD then "m" else "y"
  }

  datatype SymbolType = Unknown | Boolean | Tristated | Integer | Hexadecimal | Text | Other

  /** A symbol as the expression code sees it: a constant, looked up with `SYMBOL_CONST` and
      never given a type, or a configuration entry with its declared type. */
  datatype Symbol = Constant(id: nat) | Entry(id: nat, kind: SymbolType) {
    predicate IsBool() {
      Entry? && kind.Boolean?
    }

    predicate IsTristate() {
      Entry? && kind.Tristated?
    }

    predicate IsTri() {
      IsBool() || IsTristate()
    }
  }

  const SymbolNo := Constant(0)
  const SymbolMod := Constant(1)
  const SymbolYes := Constant(2)

  function ConstOf(t: Tristate): Symbol {
    if t == NO then SymbolNo else if t == MOD then SymbolMod else SymbolYes
  }

  predicate IsTriConst(s: Symbol) {
    s == SymbolNo || s == SymbolMod || s == SymbolYes
  }

  /** `E_SYMBOL`, `E_EQUAL`/`E_UNEQUAL`, `E_NOT` and `E_AND`/`E_OR` nodes. */
  datatype Expr =
    | Leaf(sym: Symbol)
    | Cmp(equal: bool, left: Symbol, right: Symbol)
    | Not(arg: Expr)
    | Bin(op: Op, lhs: Expr, rhs: Expr)

  function UnitLeaf(op: Op): Expr {
    Leaf(ConstOf(op.Unit()))
  }

  function ZeroLeaf(op: Op): Expr {
    Leaf(ConstOf(op.Zero()))
  }

  predicate IsBin(op: Op, e: Expr) {
    e.Bin? && e.op == op
  }

  function Size(e: Expr): (n: nat)
    ensures n > 0
  {
    match e
    case Leaf(_) => 1
    case Cmp(_, _, _) => 1
    case Not(a) => 1 + Size(a)
    case Bin(_, l, r) => 1 + Size(l) + Size(r)
  }

  /** What a symbol table gives the evaluator: a tristate and a string for each symbol. */
  datatype Env = Env(tri: Symbol -> Tristate, str: Symbol -> string)

  /** The three constants `n`, `m` and `y` stand for themselves. */
  ghost predicate Grounded(env: Env) {
    env.tri(SymbolNo) == NO && env.tri(SymbolMod) == MOD && env.tri(SymbolYes) == YES
  }

  /** What `sym_calc_value` and `sym_get_string_value` establish: a bool symbol is never m,
      the string of a bool or tristate symbol follows its tristate, and two constants have
      different names. */
  ghost predicate WellFormed(env: Env) {
    && Grounded(env)
    && (forall t: Tristate :: env.str(ConstOf(t)) == TriName(t))
    && (forall s: Symbol :: s.IsBool() ==> env.tri(s) != MOD)
    && (forall s: Symbol :: s.IsTri() ==> env.str(s) == TriName(env.tri(s)))
    && (forall s: Symbol, t: Symbol :: s.Constant? && t.Constant? && s != t ==> env.str(s) != env.str(t))
  }

  /** `expr_calc_value` on a non-null expression. */
  function Eval(e: Expr, env: Env): Tristate {
    match e
    case Leaf(s) => env.tri(s)
    case Cmp(eq, l, r) => Truth((env.str(l) == env.str(r)) == eq)
    case Not(a) => Negate(Eval(a, env))
    case Bin(op, l, r) => op.Apply(Eval(l, env), Eval(r, env))
  }

  /** `expr_calc_value`: a null expression is y. */
  function EvalOpt(e: Option<Expr>, env: Env): Tristate {
    if e.None? then YES else Eval(e.value, env)
  }

  /** `expr_alloc_and` and `expr_alloc_or`: a null operand is dropped. */
  function Alloc(op: Op, a: Option<Expr>, b: Option<Expr>): Option<Expr> {
    if a.None? then b
    else if b.None? then a
    else Some(Bin(op, a.value, b.value))
  }
}
