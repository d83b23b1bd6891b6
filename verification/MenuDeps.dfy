/** The expressions of `menu_finalize`: how dependencies are propagated to the entries of a menu,
    and when an entry moves under the symbol before it. */
module MenuDependencies {
  import opened Exprs
  import opened ExprEquality
  import opened ExprTransformation
  import opened ExprJoin
  import opened ExprSlots
  import opened ExprDuplicates
  import S = SymbolSpec

  /** A well-formed environment in which no bool or tristate symbol is m, as without a modules
      symbol. */
  ghost predicate TwoValued(env: Env) {
    WellFormed(env) && forall s: Symbol :: s.IsTri() ==> env.tri(s) != MOD
  }

  /* ----- propagation ----- */

  /** `r` is the conjunction of `a` and `b` wherever that is not m. */
  ghost predicate Conjoined(a: Option<Expr>, b: Option<Expr>, r: Option<Expr>) {
    forall env: Env :: TwoValued(env) && And.Apply(EvalOpt(a, env), EvalOpt(b, env)) != MOD ==>
      EvalOpt(r, env) == And.Apply(EvalOpt(a, env), EvalOpt(b, env))
  }

  function TransformOpt(e: Option<Expr>): Option<Expr> {
    if e.None? then None else Some(Transform(e.value))
  }

  lemma AllocExact(a: Option<Expr>, b: Option<Expr>, env: Env)
    requires WellFormed(env)
    ensures EvalOpt(Alloc(And, a, TransformOpt(b)), env) == And.Apply(EvalOpt(a, env), EvalOpt(b, env))
  {
    if b.Some? {
      TransformExact(b.value, env);
    }
  }

  lemma {:induction false} TestsAreDefinite(e: Expr, env: Env)
    requires TwoValued(env)
    ensures TestsDefinite(e, env)
  {
    match e
    case Leaf(_) =>
    case Cmp(_, _, _) =>
    case Not(a) => TestsAreDefinite(a, env);
    case Bin(_, l, r) =>
      TestsAreDefinite(l, env);
      TestsAreDefinite(r, env);
  }

  /** One dependency: transformed, put after the inherited one, and freed of duplicates; in the
      condition of a property of a symbol that is no tristate, tests for n are dropped. */
  method Inherit(outer: Option<Expr>, own: Option<Expr>, asBool: bool) returns (r: Option<Expr>)
    ensures Conjoined(outer, own, r)
    ensures outer.None? && own.None? <==> r.None?
    ensures r.Some? ==> if asBool then !TestsTristate(r.value) else Tidy(r.value) && Unopposed(r.value)
  {
    var both := Alloc(And, outer, TransformOpt(own));
    if both.None? {
      return None;
    }
    var e := EliminateDups(both.value);
    r := Some(if asBool then TransBool(e) else e);
    TransBoolNormal(e);
    forall env: Env | TwoValued(env) && And.Apply(EvalOpt(outer, env), EvalOpt(own, env)) != MOD
      ensures EvalOpt(r, env) == And.Apply(EvalOpt(outer, env), EvalOpt(own, env))
    {
      InheritExact(outer, own, both.value, e, asBool, env);
    }
  }

  lemma InheritExact(outer: Option<Expr>, own: Option<Expr>, both: Expr, e: Expr, asBool: bool, env: Env)
    requires TwoValued(env) && Some(both) == Alloc(And, outer, TransformOpt(own)) && EquivalentUnlessMod(both, e)
    requires And.Apply(EvalOpt(outer, env), EvalOpt(own, env)) != MOD
    ensures Eval(if asBool then TransBool(e) else e, env) == And.Apply(EvalOpt(outer, env), EvalOpt(own, env))
  {
    AllocExact(outer, own, env);
    TestsAreDefinite(e, env);
    TransBoolExact(e, env);
  }

  /* ----- automatic submenus ----- */

  /** Whether `e` is not n, when every symbol whose string is not "n" counts as y. */
  ghost predicate NotNoIn(e: Option<Expr>, env: Env) {
    EvalOpt(e, AsCompared(env, NO)) != NO
  }

  /** Why an entry with dependency `dep` may stand below the symbol `sym` with the prompt
      condition `base`: it is available only where the symbol is not n, or, with the symbols read as
      in a comparison with n, only where the prompt of the symbol is available. */
  ghost predicate Justified(dep: Option<Expr>, sym: Symbol, base: Option<Expr>) {
    || (forall env: Env :: WellFormed(env) && sym.IsTri() && EvalOpt(dep, env) != NO ==> env.tri(sym) != NO)
    || (forall env: Env :: WellFormed(env) && NotNoIn(dep, env) ==> NotNoIn(base, env))
  }

  /** The symbol itself, `s = y`, `s = m` or `s != n`. */
  predicate SaysSet(e: Expr, s: Symbol) {
    e == Leaf(s) || e == Cmp(true, s, SymbolYes) || e == Cmp(true, s, SymbolMod) || e == Cmp(false, s, SymbolNo)
  }

  predicate SetAt(e: Expr, p: Path, s: Symbol) {
    LeafSlot(And, e, p) && SaysSet(Get(And, e, p), s)
  }

  /** `expr_depends_symbol` finds exactly the conjunctions with such an operand, however they are
      nested. */
  lemma {:induction false} DependsExactly(e: Expr, s: Symbol)
    ensures DependsSymbol(e, s) <==> exists p: Path :: SetAt(e, p, s)
  {
    if IsBin(And, e) {
      DependsExactly(e.lhs, s);
      DependsExactly(e.rhs, s);
      if DependsSymbol(e.lhs, s) {
        var p: Path :| SetAt(e.lhs, p, s);
        assert ([Left] + p)[1..] == p;
        assert SetAt(e, [Left] + p, s);
      } else if DependsSymbol(e.rhs, s) {
        var p: Path :| SetAt(e.rhs, p, s);
        assert ([Right] + p)[1..] == p;
        assert SetAt(e, [Right] + p, s);
      } else {
        forall p: Path ensures !SetAt(e, p, s) {
          assert p != [] ==> !SetAt(Child(e, p[0]), p[1..], s);
        }
      }
    } else {
      forall p: Path | SetAt(e, p, s) ensures p == [] {
      }
      assert DependsSymbol(e, s) ==> SetAt(e, [], s);
    }
  }

  /** `expr_contains_symbol` finds exactly the expressions that mention the symbol. */
  lemma {:induction false} ContainsExactly(e: Expr, s: Symbol)
    ensures ContainsSymbol(e, s) <==> s in S.Symbols(e)
  {
    match e
    case Leaf(_) =>
    case Cmp(_, _, _) =>
    case Not(a) => ContainsExactly(a, s);
    case Bin(_, l, r) =>
      ContainsExactly(l, s);
      ContainsExactly(r, s);
  }

  lemma {:induction false} DependsContains(e: Expr, s: Symbol)
    requires DependsSymbol(e, s)
    ensures ContainsSymbol(e, s)
  {
    if e.Bin? {
      if DependsSymbol(e.lhs, s) {
        DependsContains(e.lhs, s);
      } else {
        DependsContains(e.rhs, s);
      }
    }
  }

  /** `r` says, in every well-formed environment, that `e` is not n in this reading. */
  ghost predicate SaysNotNo(e: Option<Expr>, r: Expr) {
    forall env: Env :: WellFormed(env) ==> Eval(r, env) == Truth(NotNoIn(e, env))
  }

  /** `!(e = n)` in the form in which dependencies are compared. */
  method NotNo(e: Option<Expr>) returns (r: Expr)
    ensures SaysNotNo(e, r)
    ensures Reduced(CompareForm(e)) ==> r == CompareForm(e)
    ensures Tidy(r) && Unopposed(r)
  {
    r := EliminateDups(CompareForm(e));
    forall env: Env | WellFormed(env) ensures Eval(r, env) == Truth(NotNoIn(e, env)) {
      TransformExact(TransCompareOpt(e, false, NO), env);
      if e.Some? {
        TransCompareMeaning(e.value, false, NO, env);
      }
    }
  }

  function CompareForm(e: Option<Expr>): Expr {
    Transform(TransCompareOpt(e, false, NO))
  }

  /** The test of `menu_finalize` whether the entry with dependency `dep` goes below `sym`, whose
      prompt condition has the compared form `compared`. */
  method Belongs(dep: Option<Expr>, sym: Symbol, base: Option<Expr>, compared: Expr) returns (yes: bool)
    requires SaysNotNo(base, compared)
    ensures yes ==> dep.Some? && ContainsSymbol(dep.value, sym) && Justified(dep, sym, base)
    ensures dep.Some? && DependsSymbol(dep.value, sym) ==> yes
    ensures dep.Some? && ContainsSymbol(dep.value, sym) && Reduced(CompareForm(dep)) ==>
              EliminateEq(CompareForm(dep), compared).snd == Leaf(SymbolYes) ==> yes
  {
    if dep.Some? && DependsSymbol(dep.value, sym) {
      DependsContains(dep.value, sym);
    }
    if dep.None? || !ContainsSymbol(dep.value, sym) {
      return false;
    }
    if DependsSymbol(dep.value, sym) {
      forall env: Env | WellFormed(env) && sym.IsTri() && EvalOpt(dep, env) != NO ensures env.tri(sym) != NO {
        DependsSymbolSound(dep.value, sym, env);
      }
      return true;
    }
    var e := NotNo(dep);
    var rest := EliminateEq(e, compared);
    yes := rest.snd == Leaf(SymbolYes);
    if yes {
      forall env: Env | WellFormed(env) && NotNoIn(dep, env) ensures NotNoIn(base, env) {
        EliminateEqMonotone(e, compared, env);
      }
    }
  }

  /** Where no symbol is m and the constant m does not occur, nothing is m, so that the second
      reason applies in every such environment. */
  predicate WithoutM(e: Expr) {
    match e
    case Leaf(s) => s.IsTri() || s == SymbolNo || s == SymbolYes
    case Cmp(_, _, _) => true
    case Not(a) => WithoutM(a)
    case Bin(_, l, r) => WithoutM(l) && WithoutM(r)
  }

  lemma {:induction false} TwoValuedDefinite(e: Expr, env: Env)
    requires TwoValued(env) && WithoutM(e)
    ensures Comparable(e) && Eval(e, env) != MOD && Eval(e, AsCompared(env, NO)) == Eval(e, env)
  {
    match e
    case Leaf(s) => LeafCompareExact(s, true, NO, env);
    case Cmp(_, _, _) =>
    case Not(a) => TwoValuedDefinite(a, env);
    case Bin(_, l, r) =>
      TwoValuedDefinite(l, env);
      TwoValuedDefinite(r, env);
  }

  ghost predicate ReadExactlyOpt(e: Option<Expr>, env: Env) {
    e.Some? ==> ReadExactly(e.value, NO, env)
  }

  /** Wherever the two conditions are read exactly, an entry below a symbol is available only if
      the symbol is not n or its prompt is available. */
  lemma JustifiedExactly(dep: Option<Expr>, sym: Symbol, base: Option<Expr>, env: Env)
    requires Justified(dep, sym, base) && WellFormed(env) && sym.IsTri()
    requires ReadExactlyOpt(dep, env) && ReadExactlyOpt(base, env) && EvalOpt(dep, env) != NO
    ensures env.tri(sym) != NO || EvalOpt(base, env) != NO
  {
  }

  /** In every assignment of n and y to the symbols, an entry below a bool symbol is available
      only if the symbol is y or its prompt is available. */
  lemma JustifiedTwoValued(dep: Option<Expr>, sym: Symbol, base: Option<Expr>, env: Env)
    requires Justified(dep, sym, base) && TwoValued(env) && sym.IsTri()
    requires (dep.Some? ==> WithoutM(dep.value)) && (base.Some? ==> WithoutM(base.value))
    requires EvalOpt(dep, env) != NO
    ensures env.tri(sym) == YES || EvalOpt(base, env) == YES
  {
    if dep.Some? {
      TwoValuedDefinite(dep.value, env);
    }
    if base.Some? {
      TwoValuedDefinite(base.value, env);
    }
  }

  /* ----- a number in a condition ----- */

  const NUMBER := Entry(0, Integer)
  const FLAG := Entry(1, Boolean)

  /** `NUMBER != n && !FLAG`. */
  function NumberDep(): Expr {
    Bin(And, Cmp(false, NUMBER, SymbolNo), Not(Leaf(FLAG)))
  }

  lemma NumberForms()
    ensures CompareForm(Some(NumberDep())) == NumberDep()
    ensures CompareForm(Some(Leaf(NUMBER))) == Cmp(false, NUMBER, SymbolNo)
  {
    var c, d := Cmp(false, NUMBER, SymbolNo), Cmp(false, FLAG, SymbolNo);
    assert TransCompare(NumberDep(), false, NO) == Not(Bin(Or, Not(c), d));
    assert Transform(Not(c)) == Cmp(true, NUMBER, SymbolNo);
    assert Transform(Bin(Or, Not(c), d)) == Bin(Or, Cmp(true, NUMBER, SymbolNo), Leaf(FLAG));
    assert Transform(Not(Leaf(FLAG))) == Not(Leaf(FLAG));
  }

  lemma NumberReduced()
    ensures Reduced(NumberDep()) && Reduced(Cmp(false, NUMBER, SymbolNo))
  {
    var e := NumberDep();
    forall p: Path | LeafSlot(And, e, p) && p != [] ensures p == [Left] || p == [Right] {
      assert InSpine(And, Child(e, p[0]), p[1..]) && !IsBin(And, Child(e, p[0]));
      assert p[1..] == [];
      assert p == [p[0]] && (p[0] == Left || p[0] == Right);
    }
    assert Get(And, e, [Left]) == e.lhs && Get(And, e, [Right]) == e.rhs;
    assert Join(And, e.lhs, e.rhs).None? && Join(And, e.rhs, e.lhs).None?;
  }

  lemma NumberRest()
    ensures EliminateEq(NumberDep(), Cmp(false, NUMBER, SymbolNo)).snd == Leaf(SymbolYes)
  {
    var c := Cmp(false, NUMBER, SymbolNo);
    assert EliminateCommon(And, c, c) == Pair(Leaf(SymbolYes), Leaf(SymbolYes));
    assert EliminateCommon(And, Not(Leaf(FLAG)), Leaf(SymbolYes)) == Pair(Not(Leaf(FLAG)), Leaf(SymbolYes));
  }

  /** With the prompt condition `NUMBER`, an entry that depends on `NUMBER != n && !FLAG` is moved
      below `FLAG`. Where the number has the string "5" and the flag is n, the entry is available,
      but neither the flag nor its prompt is: the number alone is n. */
  method MovedByNumber(env: Env) returns (yes: bool)
    requires WellFormed(env) && env.tri(NUMBER) == env.tri(FLAG) == NO && env.str(NUMBER) == "5"
    ensures yes && Eval(NumberDep(), env) == YES && Eval(Leaf(NUMBER), env) == NO
    ensures !ReadExactly(Leaf(NUMBER), NO, env)
  {
    hide EliminateEq, CompareForm, Reduced;
    NumberForms();
    NumberReduced();
    NumberRest();
    var base := Some(Leaf(NUMBER));
    var compared := NotNo(base);
    yes := Belongs(Some(NumberDep()), FLAG, base, compared);
    TransCompareNumber(NUMBER, env);
    TransCompareExact(Leaf(NUMBER), false, NO, env);
    assert env.str(ConstOf(NO)) == TriName(NO) && ConstOf(NO) == SymbolNo;
    assert env.str(NUMBER)[0] != env.str(SymbolNo)[0];
    assert Eval(Cmp(false, NUMBER, SymbolNo), env) == YES && Eval(Not(Leaf(FLAG)), env) == YES;
  }
}
