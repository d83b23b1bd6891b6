/** Properties of the meaning of a configuration: it exists and is unique when no symbol
    depends on itself, it is two-valued, selects bound it, a choice picks exactly one value,
    and setting a symbol within its range reads back. */
module SymbolTheory {
  import opened Exprs
  import opened ExprTransformation
  import opened SymbolSpec

  /* ----- a value depends only on what the symbol reads ----- */

  ghost predicate AgreeOn(V: Valuation, W: Valuation, ok: set<Symbol>) {
    forall s :: s in ok ==> V(s) == W(s)
  }

  lemma {:induction false} EvalLocal(e: Expr, V: Valuation, W: Valuation, ok: set<Symbol>)
    requires Symbols(e) <= ok && AgreeOn(V, W, ok)
    ensures Eval(e, EnvOf(V)) == Eval(e, EnvOf(W))
  {
    match e
    case Leaf(_) =>
    case Cmp(_, l, r) => assert V(l) == W(l) && V(r) == W(r);
    case Not(a) => EvalLocal(a, V, W, ok);
    case Bin(_, l, r) =>
      EvalLocal(l, V, W, ok);
      EvalLocal(r, V, W, ok);
  }

  lemma OptLocal(e: Option<Expr>, V: Valuation, W: Valuation, ok: set<Symbol>)
    requires Reads(e, ok) && AgreeOn(V, W, ok)
    ensures EvalOpt(e, EnvOf(V)) == EvalOpt(e, EnvOf(W))
  {
    if e.Some? {
      EvalLocal(e.value, V, W, ok);
    }
  }

  lemma {:induction false} RawVisibleLocal(prompts: seq<Option<Expr>>, V: Valuation, W: Valuation, ok: set<Symbol>)
    requires AgreeOn(V, W, ok) && forall i :: 0 <= i < |prompts| ==> Reads(prompts[i], ok)
    ensures RawVisible(prompts, EnvOf(V)) == RawVisible(prompts, EnvOf(W))
  {
    if prompts != [] {
      RawVisibleLocal(prompts[..|prompts| - 1], V, W, ok);
      OptLocal(prompts[|prompts| - 1], V, W, ok);
    }
  }

  lemma {:induction false} ActiveDefaultLocal(defaults: seq<Default>, V: Valuation, W: Valuation, ok: set<Symbol>)
    requires AgreeOn(V, W, ok) && forall i :: 0 <= i < |defaults| ==> Reads(defaults[i].cond, ok)
    ensures ActiveDefault(defaults, EnvOf(V)) == ActiveDefault(defaults, EnvOf(W))
  {
    if defaults != [] {
      OptLocal(defaults[0].cond, V, W, ok);
      ActiveDefaultLocal(defaults[1..], V, W, ok);
    }
  }

  lemma {:induction false} ActiveRangeLocal(ranges: seq<Range>, V: Valuation, W: Valuation, ok: set<Symbol>)
    requires AgreeOn(V, W, ok) && forall i :: 0 <= i < |ranges| ==> Reads(ranges[i].cond, ok)
    ensures ActiveRange(ranges, EnvOf(V)) == ActiveRange(ranges, EnvOf(W))
  {
    if ranges != [] {
      OptLocal(ranges[0].cond, V, W, ok);
      ActiveRangeLocal(ranges[1..], V, W, ok);
    }
  }

  lemma VisibleLocal(cfg: Config, s: Symbol, V: Valuation, W: Valuation, ok: set<Symbol>)
    requires AgreeOn(V, W, ok) && PromptsRead(cfg.def(s), ok)
    ensures VisibleOf(cfg, s, EnvOf(V)) == VisibleOf(cfg, s, EnvOf(W))
  {
    RawVisibleLocal(cfg.def(s).prompts, V, W, ok);
  }

  lemma TriLocal(cfg: Config, u: UserValue, s: Symbol, V: Valuation, W: Valuation, ok: set<Symbol>)
    requires AgreeOn(V, W, ok) && ReadsOnly(cfg, s, ok)
    ensures RevTriOf(cfg, s, EnvOf(V)) == RevTriOf(cfg, s, EnvOf(W))
    ensures DefaultTri(cfg, s, EnvOf(V)) == DefaultTri(cfg, s, EnvOf(W))
    ensures TriOf(cfg, u, s, EnvOf(V)) == TriOf(cfg, u, s, EnvOf(W))
  {
    var d := cfg.def(s);
    VisibleLocal(cfg, s, V, W, ok);
    if d.revDep.Some? {
      EvalLocal(d.revDep.value, V, W, ok);
    }
    ActiveDefaultLocal(d.defaults, V, W, ok);
    var a := ActiveDefault(d.defaults, EnvOf(V));
    if a.Some? {
      EvalLocal(a.value.expr, V, W, ok);
      OptLocal(a.value.cond, V, W, ok);
    }
  }

  lemma ClampLocal(cfg: Config, s: Symbol, str: string, V: Valuation, W: Valuation, ok: set<Symbol>)
    requires AgreeOn(V, W, ok) && RangesRead(cfg.def(s), ok)
    ensures Clamp(cfg, s, str, V) == Clamp(cfg, s, str, W)
  {
    ActiveRangeLocal(cfg.def(s).ranges, V, W, ok);
  }

  lemma StrLocal(cfg: Config, u: UserValue, s: Symbol, V: Valuation, W: Valuation, ok: set<Symbol>)
    requires AgreeOn(V, W, ok) && ReadsOnly(cfg, s, ok)
    ensures DefaultStr(cfg, s, V) == DefaultStr(cfg, s, W)
    ensures StrOf(cfg, u, s, V) == StrOf(cfg, u, s, W)
  {
    VisibleLocal(cfg, s, V, W, ok);
    ActiveDefaultLocal(cfg.def(s).defaults, V, W, ok);
    var a := ActiveDefault(cfg.def(s).defaults, EnvOf(V));
    if a.Some? && a.value.expr.Leaf? {
      assert a.value.expr.sym in Symbols(a.value.expr);
    }
    ClampLocal(cfg, s, DefaultStr(cfg, s, V), V, W, ok);
    ClampLocal(cfg, s, u.str, V, W, ok);
  }

  /** The prompts of every value of the choice read only `ok`. */
  ghost predicate MembersRead(cfg: Config, members: seq<Symbol>, ok: set<Symbol>) {
    forall m :: m in members ==> PromptsRead(cfg.def(m), ok)
  }

  lemma {:induction false} FirstVisibleLocal(cfg: Config, members: seq<Symbol>, V: Valuation, W: Valuation,
                                             ok: set<Symbol>)
    requires AgreeOn(V, W, ok) && MembersRead(cfg, members, ok)
    ensures FirstVisible(cfg, members, EnvOf(V)) == FirstVisible(cfg, members, EnvOf(W))
  {
    if members != [] {
      VisibleLocal(cfg, members[0], V, W, ok);
      FirstVisibleLocal(cfg, members[1..], V, W, ok);
    }
  }

  lemma {:induction false} FirstDefaultLocal(cfg: Config, defaults: seq<Default>, members: seq<Symbol>, V: Valuation,
                                             W: Valuation, ok: set<Symbol>)
    requires AgreeOn(V, W, ok) && MembersRead(cfg, members, ok)
    requires forall i :: 0 <= i < |defaults| ==> Reads(defaults[i].cond, ok)
    requires forall d :: d in defaults ==> d.expr.Leaf? && d.expr.sym in members
    ensures FirstDefault(cfg, defaults, EnvOf(V)) == FirstDefault(cfg, defaults, EnvOf(W))
  {
    if defaults != [] {
      OptLocal(defaults[0].cond, V, W, ok);
      assert defaults[0] in defaults;
      VisibleLocal(cfg, defaults[0].expr.sym, V, W, ok);
      FirstDefaultLocal(cfg, defaults[1..], members, V, W, ok);
    }
  }

  lemma PickLocal(cfg: Config, u: UserValue, c: Symbol, V: Valuation, W: Valuation, ok: set<Symbol>)
    requires c in cfg.symbols && cfg.def(c).members.Some? && ChoicesLinked(cfg)
    requires u.pick.Some? ==> u.pick.value in cfg.def(c).members.value
    requires AgreeOn(V, W, ok) && DefaultsRead(cfg.def(c), ok)
    requires MembersRead(cfg, cfg.def(c).members.value, ok)
    ensures ChoiceDefault(cfg, c, EnvOf(V)) == ChoiceDefault(cfg, c, EnvOf(W))
    ensures PickOf(cfg, u, c, EnvOf(V)) == PickOf(cfg, u, c, EnvOf(W))
  {
    var members := cfg.def(c).members.value;
    FirstVisibleLocal(cfg, members, V, W, ok);
    FirstDefaultLocal(cfg, cfg.def(c).defaults, members, V, W, ok);
    if u.pick.Some? {
      VisibleLocal(cfg, u.pick.value, V, W, ok);
    }
  }

  lemma ValueLocal(cfg: Config, u: UserValue, s: Symbol, V: Valuation, W: Valuation, ok: set<Symbol>)
    requires s in cfg.symbols && !IsTriConst(s) && ChoicesLinked(cfg)
    requires cfg.def(s).members.Some? && u.pick.Some? ==> u.pick.value in cfg.def(s).members.value
    requires AgreeOn(V, W, ok) && ReadsOnly(cfg, s, ok)
    ensures ValueOf(cfg, u, s, V) == ValueOf(cfg, u, s, W)
  {
    TriLocal(cfg, u, s, V, W, ok);
    VisibleLocal(cfg, s, V, W, ok);
    if IsString(s) {
      StrLocal(cfg, u, s, V, W, ok);
    }
    if cfg.def(s).members.Some? {
      var ok' := ok + {s};
      assert AgreeOn(Opened(V, s), Opened(W, s), ok');
      assert DefaultsRead(cfg.def(s), ok') by {
        forall i | 0 <= i < |cfg.def(s).defaults|
          ensures Reads(Some(cfg.def(s).defaults[i].expr), ok') && Reads(cfg.def(s).defaults[i].cond, ok')
        {
          assert Reads(Some(cfg.def(s).defaults[i].expr), ok) && Reads(cfg.def(s).defaults[i].cond, ok);
        }
      }
      PickLocal(cfg, u, s, Opened(V, s), Opened(W, s), ok');
    }
  }

  /* ----- existence and uniqueness ----- */

  /** Two meanings of the same configuration agree on every symbol below a rank, if the users
      do. With equal users this says that the meaning is unique. */
  lemma {:induction false} Agreement(cfg: Config, users: Users, users': Users, V: Valuation, W: Valuation, rank: Rank,
                                     n: nat, s: Symbol)
    requires WellFormedConfig(cfg) && Ranked(cfg, rank)
    requires WellFormedUsers(cfg, users)
    requires Solves(cfg, users, V) && Solves(cfg, users', W)
    requires forall t :: t in cfg.symbols && rank(t) < n ==> users(t) == users'(t)
    requires s in cfg.symbols ==> rank(s) < n
    ensures V(s) == W(s)
    decreases rank(s)
  {
    if s in cfg.symbols && !IsTriConst(s) {
      var ok := Below(cfg, rank, rank(s));
      forall t | t in ok ensures V(t) == W(t) {
        Agreement(cfg, users, users', V, W, rank, n, t);
      }
      ValueLocal(cfg, users(s), s, V, W, ok);
    }
  }

  /** The value of a symbol by recursion over the rank. */
  function SpecValue(cfg: Config, users: Users, rank: Rank, s: Symbol): Value
    decreases rank(s)
  {
    if s !in cfg.symbols then Value(NO, cfg.name(s), None)
    else
      var V := (t: Symbol) => if t in cfg.symbols && rank(t) < rank(s)
                              then SpecValue(cfg, users, rank, t)
                              else Value(NO, cfg.name(t), None);
      ValueOf(cfg, users(s), s, V)
  }

  /** The recursive values solve all the equations at once. */
  lemma SpecSolves(cfg: Config, users: Users, rank: Rank)
    requires WellFormedConfig(cfg) && Ranked(cfg, rank) && WellFormedUsers(cfg, users)
    ensures Solves(cfg, users, s => SpecValue(cfg, users, rank, s))
  {
    var V: Valuation := s => SpecValue(cfg, users, rank, s);
    forall s: Symbol | s in cfg.symbols ensures V(s) == ValueOf(cfg, users(s), s, V) {
      if !IsTriConst(s) {
        var W := (t: Symbol) => if t in cfg.symbols && rank(t) < rank(s)
                                then SpecValue(cfg, users, rank, t)
                                else Value(NO, cfg.name(t), None);
        var ok := Below(cfg, rank, rank(s));
        assert AgreeOn(V, W, ok);
        ValueLocal(cfg, users(s), s, V, W, ok);
      }
    }
  }

  /* ----- the meaning is two-valued ----- */

  /** Without a modules symbol no configuration entry is ever m, and the meaning is a
      well-formed environment for the expression rewriter. */
  lemma SolutionWellFormed(cfg: Config, users: Users, V: Valuation)
    requires WellFormedConfig(cfg) && Solves(cfg, users, V)
    ensures WellFormed(EnvOf(V))
    ensures forall s: Symbol :: s != SymbolMod ==> V(s).tri != MOD
  {
    var env := EnvOf(V);
    forall t: Tristate ensures env.tri(ConstOf(t)) == t && env.str(ConstOf(t)) == TriName(t) {
      assert ConstOf(t) in cfg.symbols;
    }
    assert V(SymbolNo).tri == NO && V(SymbolMod).tri == MOD && V(SymbolYes).tri == YES by {
      assert env.tri(ConstOf(NO)) == NO && env.tri(ConstOf(MOD)) == MOD && env.tri(ConstOf(YES)) == YES;
    }
    forall s: Symbol | s != SymbolMod ensures V(s).tri != MOD {
      SolutionDefinite(cfg, users, V, s);
    }
    forall s: Symbol | s.IsTri() ensures env.str(s) == TriName(env.tri(s)) {
      SolutionDefinite(cfg, users, V, s);
    }
    forall s: Symbol | s.Constant? ensures env.str(s) == cfg.name(s) {
      ConstantNames(cfg, users, V, s);
    }
  }

  lemma SolutionDefinite(cfg: Config, users: Users, V: Valuation, s: Symbol)
    requires Solves(cfg, users, V) && s != SymbolMod
    ensures V(s).tri != MOD
  {
  }

  lemma ConstantNames(cfg: Config, users: Users, V: Valuation, s: Symbol)
    requires WellFormedConfig(cfg) && Solves(cfg, users, V) && s.Constant?
    ensures StringOf(s, V(s)) == cfg.name(s)
  {
    if s in cfg.symbols && IsTriConst(s) {
      var t: Tristate := if s == SymbolNo then NO else if s == SymbolMod then MOD else YES;
      assert cfg.name(ConstOf(t)) == TriName(t);
    }
  }

  /** A select is a lower bound: no bool or tristate symbol other than a choice ends up below
      the value its reverse dependencies ask for. */
  lemma SelectBound(cfg: Config, users: Users, V: Valuation, s: Symbol)
    requires Solves(cfg, users, V)
    requires s in cfg.symbols && s.IsTri() && cfg.def(s).members.None?
    ensures RevTriOf(cfg, s, EnvOf(V)) <= V(s).tri
    ensures cfg.def(s).choice.None? && cfg.def(s).revDep.Some? && Eval(cfg.def(s).revDep.value, EnvOf(V)) != NO ==>
              V(s).tri == YES
  {
  }

  /* ----- choices ----- */

  lemma {:induction false} RawVisibleWitness(prompts: seq<Option<Expr>>, env: Env)
    ensures RawVisible(prompts, env) != NO <==> exists p :: p in prompts && EvalOpt(p, env) != NO
  {
    if prompts != [] {
      var init, last := prompts[..|prompts| - 1], prompts[|prompts| - 1];
      RawVisibleWitness(init, env);
      assert prompts == init + [last];
    }
  }

  /** A choice value is visible only under a choice that is not n. */
  lemma MemberNeedsChoice(cfg: Config, m: Symbol, env: Env)
    requires ChoicesLinked(cfg) && WellFormed(env)
    requires m in cfg.symbols && cfg.def(m).choice.Some? && VisibleOf(cfg, m, env) != NO
    ensures env.tri(cfg.def(m).choice.value) != NO
  {
    var c := cfg.def(m).choice.value;
    RawVisibleWitness(cfg.def(m).prompts, env);
    var p :| p in cfg.def(m).prompts && EvalOpt(p, env) != NO;
    DependsSymbolSound(p.value, c, env);
  }

  /** Two environments that no expression can tell apart. */
  ghost predicate SameEnv(a: Env, b: Env) {
    forall s: Symbol :: a.tri(s) == b.tri(s) && a.str(s) == b.str(s)
  }

  lemma {:induction false} EvalSame(e: Expr, a: Env, b: Env)
    requires SameEnv(a, b)
    ensures Eval(e, a) == Eval(e, b)
  {
    match e
    case Leaf(_) =>
    case Cmp(_, _, _) =>
    case Not(x) => EvalSame(x, a, b);
    case Bin(_, l, r) =>
      EvalSame(l, a, b);
      EvalSame(r, a, b);
  }

  lemma OptSame(e: Option<Expr>, a: Env, b: Env)
    requires SameEnv(a, b)
    ensures EvalOpt(e, a) == EvalOpt(e, b)
  {
    if e.Some? {
      EvalSame(e.value, a, b);
    }
  }

  lemma {:induction false} RawVisibleSame(prompts: seq<Option<Expr>>, a: Env, b: Env)
    requires SameEnv(a, b)
    ensures RawVisible(prompts, a) == RawVisible(prompts, b)
  {
    if prompts != [] {
      RawVisibleSame(prompts[..|prompts| - 1], a, b);
      OptSame(prompts[|prompts| - 1], a, b);
    }
  }

  lemma {:induction false} FirstVisibleSame(cfg: Config, members: seq<Symbol>, a: Env, b: Env)
    requires SameEnv(a, b)
    ensures FirstVisible(cfg, members, a) == FirstVisible(cfg, members, b)
  {
    if members != [] {
      RawVisibleSame(cfg.def(members[0]).prompts, a, b);
      FirstVisibleSame(cfg, members[1..], a, b);
    }
  }

  lemma {:induction false} FirstDefaultSame(cfg: Config, defaults: seq<Default>, a: Env, b: Env)
    requires SameEnv(a, b)
    ensures FirstDefault(cfg, defaults, a) == FirstDefault(cfg, defaults, b)
  {
    if defaults != [] {
      OptSame(defaults[0].cond, a, b);
      if defaults[0].expr.Leaf? {
        RawVisibleSame(cfg.def(defaults[0].expr.sym).prompts, a, b);
      }
      FirstDefaultSame(cfg, defaults[1..], a, b);
    }
  }

  /** Opening a choice that is at y anyway changes nothing an expression can see. */
  lemma OpenedSame(V: Valuation, c: Symbol)
    requires c.IsTri() && V(c).tri == YES
    ensures SameEnv(EnvOf(Opened(V, c)), EnvOf(V))
  {
    var W := Opened(V, c);
    forall t: Symbol ensures EnvOf(W).tri(t) == EnvOf(V).tri(t) && EnvOf(W).str(t) == EnvOf(V).str(t) {
      assert if t == c then W(t).tri == V(t).tri && StringOf(t, W(t)) == StringOf(t, V(t)) else W(t) == V(t);
    }
  }

  /** The pick of a choice at y is one of its values and is visible. */
  lemma PickVisible(cfg: Config, users: Users, V: Valuation, c: Symbol)
    requires WellFormedConfig(cfg) && WellFormedUsers(cfg, users) && Solves(cfg, users, V)
    requires c in cfg.symbols && cfg.def(c).members.Some? && V(c).tri == YES
    ensures V(c).pick.Some? && V(c).pick.value in cfg.def(c).members.value
    ensures VisibleOf(cfg, V(c).pick.value, EnvOf(V)) == YES
  {
    var p := PickOf(cfg, users(c), c, EnvOf(Opened(V, c)));
    assert cfg.def(c).choice.None?;
    assert V(c).pick == p && p.Some?;
    OpenedSame(V, c);
    RawVisibleSame(cfg.def(p.value).prompts, EnvOf(Opened(V, c)), EnvOf(V));
  }

  /** A choice value without defaults is at y exactly when the choice is at y and picked it. */
  lemma MemberValue(cfg: Config, users: Users, V: Valuation, c: Symbol, m: Symbol)
    requires WellFormedConfig(cfg) && WellFormedUsers(cfg, users) && Solves(cfg, users, V)
    requires c in cfg.symbols && cfg.def(c).members.Some?
    requires m in cfg.def(c).members.value && cfg.def(m).defaults == []
    ensures V(m).tri == Truth(V(c).tri == YES && V(c).pick == Some(m))
  {
    var visible := VisibleOf(cfg, m, EnvOf(V));
    if V(c).tri == YES {
      PickVisible(cfg, users, V, c);
    }
    if visible != NO {
      SolutionWellFormed(cfg, users, V);
      MemberNeedsChoice(cfg, m, EnvOf(V));
      assert V(c).tri == YES && visible == YES;
      assert V(m).tri == Truth(V(c).pick == Some(m));
    } else {
      assert RevTriOf(cfg, m, EnvOf(V)) == NO && DefaultTri(cfg, m, EnvOf(V)) == NO;
      assert TriOf(cfg, users(m), m, EnvOf(V)) == NO;
    }
  }

  /** Choice exclusivity, for choices whose values carry no defaults: a choice at y has
      exactly one value at y, its pick, and a choice at n has all its values at n. */
  lemma ChoiceExclusive(cfg: Config, users: Users, V: Valuation, c: Symbol)
    requires WellFormedConfig(cfg) && WellFormedUsers(cfg, users) && Solves(cfg, users, V)
    requires c in cfg.symbols && cfg.def(c).members.Some?
    requires forall m :: m in cfg.def(c).members.value ==> cfg.def(m).defaults == []
    ensures V(c).tri == YES ==> V(c).pick.Some? && V(c).pick.value in cfg.def(c).members.value
    ensures forall m :: m in cfg.def(c).members.value ==>
              V(m).tri == Truth(V(c).tri == YES && V(c).pick == Some(m))
  {
    if V(c).tri == YES {
      PickVisible(cfg, users, V, c);
    }
    forall m | m in cfg.def(c).members.value
      ensures V(m).tri == Truth(V(c).tri == YES && V(c).pick == Some(m))
    {
      MemberValue(cfg, users, V, c, m);
    }
  }

  lemma {:induction false} FirstVisibleIsFirst(cfg: Config, members: seq<Symbol>, env: Env) returns (k: nat)
    requires FirstVisible(cfg, members, env).Some?
    ensures k < |members| && FirstVisible(cfg, members, env) == Some(members[k])
    ensures forall j :: 0 <= j < k ==> VisibleOf(cfg, members[j], env) == NO
  {
    if VisibleOf(cfg, members[0], env) != NO {
      k := 0;
    } else {
      k := FirstVisibleIsFirst(cfg, members[1..], env);
      k := k + 1;
    }
  }

  /** A choice default whose condition holds and whose symbol is visible. */
  predicate Applies(cfg: Config, d: Default, env: Env) {
    EvalOpt(d.cond, env) != NO && d.expr.Leaf? && VisibleOf(cfg, d.expr.sym, env) != NO
  }

  lemma {:induction false} FirstDefaultIsFirst(cfg: Config, defaults: seq<Default>, env: Env) returns (k: nat)
    ensures k <= |defaults| && forall j :: 0 <= j < k ==> !Applies(cfg, defaults[j], env)
    ensures if k == |defaults| then FirstDefault(cfg, defaults, env).None?
            else Applies(cfg, defaults[k], env) && FirstDefault(cfg, defaults, env) == Some(defaults[k].expr.sym)
  {
    if defaults == [] || Applies(cfg, defaults[0], env) {
      k := 0;
    } else {
      k := FirstDefaultIsFirst(cfg, defaults[1..], env);
      k := k + 1;
    }
  }

  /** Which value a choice at y picks: the user's if it is visible, else that of the first
      choice default that applies, else the first visible value. */
  lemma ChoicePicks(cfg: Config, users: Users, V: Valuation, c: Symbol) returns (k: nat)
    requires WellFormedConfig(cfg) && WellFormedUsers(cfg, users) && Solves(cfg, users, V)
    requires c in cfg.symbols && cfg.def(c).members.Some? && V(c).tri == YES
    ensures V(c).pick.Some?
    ensures var d, user, pick, env := cfg.def(c), users(c).pick, V(c).pick.value, EnvOf(Opened(V, c));
      if user.Some? && VisibleOf(cfg, user.value, env) != NO then
        pick == user.value
      else if exists i :: 0 <= i < |d.defaults| && Applies(cfg, d.defaults[i], env) then
        && k < |d.defaults| && Applies(cfg, d.defaults[k], env) && d.defaults[k].expr == Leaf(pick)
        && forall j :: 0 <= j < k ==> !Applies(cfg, d.defaults[j], env)
      else
        && k < |d.members.value| && d.members.value[k] == pick && VisibleOf(cfg, pick, env) != NO
        && forall j :: 0 <= j < k ==> VisibleOf(cfg, d.members.value[j], env) == NO
  {
    var d, env := cfg.def(c), EnvOf(Opened(V, c));
    assert d.choice.None?;
    assert V(c).pick == PickOf(cfg, users(c), c, env);
    k := FirstDefaultIsFirst(cfg, d.defaults, env);
    if k == |d.defaults| && !(users(c).pick.Some? && VisibleOf(cfg, users(c).pick.value, env) != NO) {
      k := FirstVisibleIsFirst(cfg, d.members.value, env);
    }
  }

  /* ----- set, then read back ----- */

  /** `sym_tristate_within_range`. */
  predicate WithinRange(cfg: Config, s: Symbol, v: Tristate, visible: Tristate, rev: Tristate) {
    && visible != NO && s.IsTri() && v != MOD && rev < visible
    && (if cfg.def(s).choice.Some? && visible == YES then v == YES else rev <= v <= visible)
  }

  /** In the configuration with a new user value for a symbol outside choices, the symbol has
      exactly that value if and only if `sym_set_tristate_value` accepts it, as its present value
      or because it is within range; and nothing the symbol depends on has moved. */
  lemma SetReadsBack(cfg: Config, users: Users, V: Valuation, W: Valuation, rank: Rank, s: Symbol, v: Tristate)
    requires WellFormedConfig(cfg) && Ranked(cfg, rank) && WellFormedUsers(cfg, users)
    requires Solves(cfg, users, V)
    requires Solves(cfg, Update(users, s, users(s).(isSet := true, tri := v)), W)
    requires s in cfg.symbols && cfg.def(s).choice.None? && cfg.def(s).members.None?
    ensures W(s).tri == v <==>
              V(s).tri == v || WithinRange(cfg, s, v, VisibleOf(cfg, s, EnvOf(V)), RevTriOf(cfg, s, EnvOf(V)))
    ensures forall t :: t in cfg.symbols && rank(t) < rank(s) ==> W(t) == V(t)
  {
    var users' := Update(users, s, users(s).(isSet := true, tri := v));
    forall t | t in cfg.symbols && rank(t) < rank(s) ensures W(t) == V(t) {
      Agreement(cfg, users, users', V, W, rank, rank(s), t);
    }
    if s.IsTri() {
      var ok := Below(cfg, rank, rank(s));
      assert AgreeOn(V, W, ok);
      VisibleLocal(cfg, s, V, W, ok);
      TriLocal(cfg, users(s), s, V, W, ok);
      SettableTri(cfg, users(s), s, v, EnvOf(V));
      assert TriOf(cfg, users'(s), s, EnvOf(W)) == TriOf(cfg, users'(s), s, EnvOf(V));
    }
  }

  lemma SettableTri(cfg: Config, u: UserValue, s: Symbol, v: Tristate, env: Env)
    requires s.IsTri() && cfg.def(s).choice.None? && cfg.def(s).members.None?
    ensures TriOf(cfg, u.(isSet := true, tri := v), s, env) == v <==>
              || TriOf(cfg, u, s, env) == v
              || WithinRange(cfg, s, v, VisibleOf(cfg, s, env), RevTriOf(cfg, s, env))
  {
    hide RawVisible;
    var visible, rev := VisibleOf(cfg, s, env), RevTriOf(cfg, s, env);
    assert visible in {NO, YES} && rev in {NO, YES};
  }
}
