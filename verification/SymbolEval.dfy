/** The evaluator of `symbol.c`: `sym_calc_value` and its helpers, which calculate symbols on
    demand and remember them in the symbol table. */
module SymbolEvaluator {
  import opened Exprs
  import opened ExprTransformation
  import opened SymbolSpec
  import opened SymbolTheory
  import opened SymbolTables

  /** The changing fields of all symbols: user values, the flags VALID and
      NEED_SET_CHOICE_VALUES, current values, visibilities and select values. */
  class SymbolTable {
    const cfg: Config
    var user: Users
    var valid: set<Symbol>
    var need: set<Symbol>
    var curr: Valuation
    var visible: Symbol -> Tristate
    var revTri: Symbol -> Tristate

    constructor (config: Config, users: Users)
      requires WellFormedConfig(config)
      ensures cfg == config && Valid() && user == users && need == {} && valid == TriConsts()
    {
      cfg := config;
      user := users;
      valid := TriConsts();
      need := {};
      curr := ConstValue;
      visible := _ => NO;
      revTri := _ => NO;
    }

    ghost function State(): Table
      reads this
    {
      Table(user, valid, need, curr, visible, revTri)
    }

    ghost predicate Valid()
      reads this
    {
      ValidTable(cfg, State())
    }

    /** `sym_calc_value`. It ends on every symbol graph, cyclic ones included. When no symbol
        depends on itself, it calculates exactly the meaning of the configuration. */
    method CalcValue(s: Symbol, ghost g: Run)
      requires Valid() && s in cfg.symbols
      modifies this
      ensures Grows(cfg, old(State()), State())
      ensures need == old(need) ==> s in valid
      ensures s in old(valid) ==> State() == old(State())
      ensures Follows(cfg, old(State()), State(), g, g.rank(s) + 1)
      decreases |need|, Pending(cfg, State()), 10, 0
    {
      hide Working, Live, Grows, Follows, ValidTable, Tracks, WellFormedConfig, Sound, ValueOf, VisibleOf, RevTriOf;
      ghost var a := State();
      if s in valid {
        CalcNothing(cfg, a, s, g);
        return;
      }
      NotConst(cfg, a, s);
      if cfg.def(s).choice.Some? && s in need {
        need := need - {s};
        NeedDropped(cfg, a, State(), s);
        CalcValue(cfg.def(s).choice.value, g);
        ghost var b := State();
        valid := valid + {s};
        WorkingStartServed(cfg, a, b, State(), s, g);
      } else {
        valid := valid + {s};
        WorkingStart(cfg, a, State(), s, g);
      }
      CalcFields(a, s, g);
      ghost var end := State();
      if s in need {
        SetAllChoiceValues(s);
        WorkingEndsServed(cfg, a, end, State(), s, g);
        return;
      } else {
        WorkingEnds(cfg, a, end, s, g);
        WorkingKeepsValid(cfg, a, end, s, g);
      }
    }

    /** The body of `sym_calc_value` once the symbol is marked valid. */
    method CalcFields(ghost a: Table, s: Symbol, ghost g: Run)
      requires Working(cfg, a, State(), s, g)
      requires Live(cfg, a, s, g) ==> user(s) == g.users(s)
      modifies this
      ensures Working(cfg, a, State(), s, g)
      ensures Live(cfg, a, s, g) ==> Settled(cfg, State(), g, s)
      decreases |a.need|, Pending(cfg, a), 5
    {
      hide Working, Live, Undisturbed, WellFormedConfig, Sound, ValueOf, VisibleOf, RevTriOf, StrOf, Settled;
      ghost var t := State();
      if s.IsTri() || IsString(s) {
        CalcVisibility(a, s, g);
        ghost var u := State();
        curr := Update(curr, s, Value(NO, if s.IsTri() then "n" else "", None));
        WorkingWrites(cfg, a, u, State(), s, g);
        if s.IsTri() {
          CalcTri(a, s, g);
        } else {
          ghost var w := State();
          var str := ReadStr(a, s, g);
          ghost var x := State();
          if Live(cfg, a, s, g) {
            UndisturbedCurr(cfg, w, x, s);
            StringValue(cfg, g, s);
          }
          curr := Update(curr, s, Value(NO, str, None));
          WorkingWrites(cfg, a, x, State(), s, g);
        }
      } else {
        curr := Update(curr, s, Value(NO, cfg.name(s), None));
        WorkingWrites(cfg, a, t, State(), s, g);
        WorkingConfig(cfg, a, State(), s, g);
        UntypedValue(cfg, g, s);
      }
      if Live(cfg, a, s, g) {
        PlainUser(cfg, a, State(), s, g);
        ValueSettled(cfg, State(), s, g, a);
      }
    }

    /** The bool and tristate cases of `sym_calc_value`. */
    method CalcTri(ghost a: Table, s: Symbol, ghost g: Run)
      requires Working(cfg, a, State(), s, g) && s.IsTri()
      requires Live(cfg, a, s, g) ==> Prepared(cfg, State(), s, g)
      modifies this
      ensures Working(cfg, a, State(), s, g)
      ensures Live(cfg, a, s, g) ==>
                && visible(s) == old(visible(s)) && revTri(s) == old(revTri(s))
                && UserKept(cfg, State(), g, s)
                && curr(s) == ValueOf(cfg, g.users(s), s, g.V)
      decreases |a.need|, Pending(cfg, a), 4
    {
      hide Working, Live, ReadsOnly, NamesDistinct, Sound, VisibleOf, RevTriOf, TriOf, PickOf, Settled;
      ghost var t := State();
      WorkingConfig(cfg, a, t, s, g);
      if cfg.def(s).choice.Some? && visible(s) == YES {
        if Live(cfg, a, s, g) {
          ChoiceSettled(cfg, a, t, s, g);
        }
        curr := Update(curr, s, Value(Truth(curr(cfg.def(s).choice.value).pick == Some(s)), "n", None));
        WorkingWrites(cfg, a, t, State(), s, g);
      } else {
        var v := ReadTri(a, s, g);
        ghost var u := State();
        if Live(cfg, a, s, g) {
          UndisturbedCurr(cfg, t, u, s);
        }
        curr := Update(curr, s, Value(v, "n", None));
        WorkingWrites(cfg, a, u, State(), s, g);
        if cfg.def(s).members.Some? && v == YES {
          ChoiceAlone(cfg, s);
          CalcChoice(a, s, g);
        }
      }
    }

    /** `set_all_choice_values`: the choice must be calculated again. */
    method SetAllChoiceValues(c: Symbol)
      modifies this
      ensures valid == old(valid) - {c} && need == old(need) - {c}
      ensures curr == old(curr) && visible == old(visible) && revTri == old(revTri)
      ensures forall t: Symbol :: user(t) == AllSet(cfg, old(user), c, t)
      ensures user(c).isSet && user(c).pick == old(user(c)).pick
      ensures forall m: Symbol :: m != c && cfg.def(c).members.Some? && m in cfg.def(c).members.value ==>
                user(m).isSet == old(user(m)).isSet
                && user(m).tri == if old(user(m)).isSet then old(user(m)).tri else NO
    {
      if cfg.def(c).members.Some? {
        var members := cfg.def(c).members.value;
        var i := 0;
        while i < |members|
          invariant 0 <= i <= |members|
          invariant valid == old(valid) && need == old(need)
          invariant curr == old(curr) && visible == old(visible) && revTri == old(revTri)
          invariant forall m: Symbol :: user(m) ==
                      if m in members[..i] && !old(user)(m).isSet then old(user)(m).(tri := NO) else old(user)(m)
        {
          var m := members[i];
          assert members[..i + 1] == members[..i] + [m];
          if !user(m).isSet {
            user := Update(user, m, user(m).(tri := NO));
          }
          i := i + 1;
        }
        assert members[..|members|] == members;
      }
      user := Update(user, c, user(c).(isSet := true));
      valid := valid - {c};
      need := need - {c};
    }

    /** `expr_calc_value`, which calculates the symbols it meets on both sides of an operator. */
    method CalcExpr(e: Expr, ghost g: Run, ghost n: nat) returns (r: Tristate)
      requires Valid() && Symbols(e) <= cfg.symbols
      modifies this
      ensures Advances(cfg, old(State()), State(), Symbols(e), g, n)
      ensures need == old(need) ==> r == Eval(e, EnvOf(curr))
      decreases |need|, Pending(cfg, State()), 12, Size(e)
    {
      hide Advances, ValidTable, Grows, Follows, WellFormedConfig, StringOf, Tracks, Above, Feeds;
      ghost var t0 := State();
      match e
      case Leaf(s) =>
        CalcValue(s, g);
        SymbolAdvances(cfg, t0, State(), s, g, n);
        r := curr(s).tri;
      case Cmp(equal, left, right) =>
        r := CalcCompare(equal, left, right, g, n);
      case Not(a) =>
        var v := CalcExpr(a, g, n);
        r := Negate(v);
      case Bin(op, a, b) =>
        var v := CalcExpr(a, g, n);
        ghost var t1 := State();
        AdvancesFacts(cfg, t0, t1, Symbols(a), g, n);
        var w := CalcExpr(b, g, n);
        AdvancesFacts(cfg, t1, State(), Symbols(b), g, n);
        AdvancesTrans(cfg, t0, t1, State(), Symbols(a), Symbols(b), g, n);
        if need == old(need) {
          EvalLocal(a, t1.curr, curr, t1.valid);
        }
        r := op.Apply(v, w);
    }

    /** `E_EQUAL` and `E_UNEQUAL`. */
    method CalcCompare(equal: bool, left: Symbol, right: Symbol, ghost g: Run, ghost n: nat) returns (r: Tristate)
      requires Valid() && left in cfg.symbols && right in cfg.symbols
      modifies this
      ensures Advances(cfg, old(State()), State(), {left, right}, g, n)
      ensures need == old(need) ==> r == Eval(Cmp(equal, left, right), EnvOf(curr))
      decreases |need|, Pending(cfg, State()), 11, 0
    {
      hide Advances, ValidTable, Grows, Follows, WellFormedConfig, StringOf, Tracks, Above, Feeds;
      ghost var t0 := State();
      CalcValue(left, g);
      ghost var t1 := State();
      SymbolAdvances(cfg, t0, t1, left, g, n);
      AdvancesFacts(cfg, t0, t1, {left}, g, n);
      CalcValue(right, g);
      SymbolAdvances(cfg, t1, State(), right, g, n);
      AdvancesTrans(cfg, t0, t1, State(), {left}, {right}, g, n);
      assert {left, right} == {left} + {right};
      r := Truth((StringOf(left, curr(left)) == StringOf(right, curr(right))) == equal);
    }

    /* ----- reading other symbols in the middle of a calculation ----- */

    /** `expr_calc_value` for a part of the calculation of `c`. */
    method Read(e: Option<Expr>, ghost a: Table, c: Symbol, ghost g: Run, ghost W: Valuation) returns (r: Tristate)
      requires Working(cfg, a, State(), c, g) && OptSymbols(e) <= cfg.symbols
      requires Live(cfg, a, c, g) ==> Readable(cfg, State(), OptSymbols(e), c, g, W)
      modifies this
      ensures Working(cfg, a, State(), c, g)
      ensures Live(cfg, a, c, g) ==> Undisturbed(cfg, old(State()), State(), c) && OptSymbols(e) <= valid
      ensures Live(cfg, a, c, g) ==> r == EvalOpt(e, EnvOf(W))
      decreases |a.need|, Pending(cfg, a), 0
    {
      hide Undisturbed, Live, Advances, Grows, Follows, WellFormedConfig;
      if e.None? {
        UndisturbedRefl(cfg, State(), c);
        return YES;
      }
      ghost var t := State();
      WorkingSmaller(cfg, a, t, c, g);
      r := CalcExpr(e.value, g.Entering(c), g.rank(c));
      WorkingReads(cfg, a, t, State(), c, g, Symbols(e.value));
      if Live(cfg, a, c, g) {
        WorkingNoNeed(cfg, a, t, c, g);
        UndisturbedCurr(cfg, t, State(), c);
        WorkingMeaning(cfg, a, State(), c, g, e.value, W);
      }
    }

    /** `sym_calc_value` for a part of the calculation of `c`. */
    method ReadSymbol(s: Symbol, ghost a: Table, c: Symbol, ghost g: Run) returns (v: Value)
      requires Working(cfg, a, State(), c, g) && s in cfg.symbols
      requires Live(cfg, a, c, g) ==> s in Below(cfg, g.rank, g.rank(c))
      modifies this
      ensures Working(cfg, a, State(), c, g)
      ensures Live(cfg, a, c, g) ==> Undisturbed(cfg, old(State()), State(), c)
      ensures Live(cfg, a, c, g) ==> v == g.V(s)
      decreases |a.need|, Pending(cfg, a), 0
    {
      hide Undisturbed, Advances, Grows, Follows, WellFormedConfig;
      ghost var t := State();
      WorkingSmaller(cfg, a, t, c, g);
      CalcValue(s, g.Entering(c));
      SymbolAdvances(cfg, t, State(), s, g.Entering(c), g.rank(c));
      WorkingReads(cfg, a, t, State(), c, g, {s});
      if Live(cfg, a, c, g) {
        WorkingSettled(cfg, a, State(), c, g, s);
      }
      v := curr(s);
    }

    /** The first loop of `sym_calc_visibility`: the visibility of `s`, which is the symbol
        being calculated or one of its choice values. */
    method ReadPrompts(s: Symbol, ghost a: Table, c: Symbol, ghost g: Run, ghost W: Valuation) returns (tri: Tristate)
      requires Working(cfg, a, State(), c, g) && PromptsRead(cfg.def(s), cfg.symbols)
      requires Live(cfg, a, c, g) ==> AgreeOff(W, g.V, c) && (s != c ==> W(c) == curr(c))
      requires Live(cfg, a, c, g) ==>
                 PromptsRead(cfg.def(s), Below(cfg, g.rank, g.rank(c)) + (if s == c then {} else {c}))
      modifies this
      ensures Working(cfg, a, State(), c, g)
      ensures Live(cfg, a, c, g) ==> Undisturbed(cfg, old(State()), State(), c)
      ensures Live(cfg, a, c, g) ==> tri == VisibleOf(cfg, s, EnvOf(W))
      ensures Live(cfg, a, c, g) && cfg.def(s).prompts != [] ==> OptSymbols(cfg.def(s).prompts[0]) <= valid
      decreases |a.need|, Pending(cfg, a), 1
    {
      hide Undisturbed, Working, Live, PromptsRead, Readable, AgreeOff, OptSymbols, EvalOpt, EnvOf;
      var prompts := cfg.def(s).prompts;
      tri := NO;
      var i := 0;
      ghost var t := State();
      UndisturbedRefl(cfg, t, c);
      while i < |prompts|
        invariant 0 <= i <= |prompts|
        invariant Working(cfg, a, State(), c, g)
        invariant Live(cfg, a, c, g) ==> Undisturbed(cfg, t, State(), c)
        invariant Live(cfg, a, c, g) ==> tri == RawVisible(prompts[..i], EnvOf(W))
        invariant Live(cfg, a, c, g) && i > 0 ==> OptSymbols(prompts[0]) <= valid
      {
        ghost var u := State();
        if Live(cfg, a, c, g) {
          PromptReadable(cfg, t, u, c, g, W, s, i);
        }
        PromptInside(cfg, s, i);
        var v := Read(prompts[i], a, c, g, W);
        if Live(cfg, a, c, g) {
          UndisturbedTrans(cfg, t, u, State(), c);
          UndisturbedCurr(cfg, u, State(), c);
        }
        assert prompts[..i + 1][..i] == prompts[..i];
        tri := Or.Apply(tri, v);
        i := i + 1;
      }
      assert prompts[..|prompts|] == prompts;
      tri := Promote(tri);
    }

    /** `sym_get_default_prop`, with the value of the condition found. */
    method ReadDefault(ghost a: Table, c: Symbol, ghost g: Run) returns (d: Option<Default>, cond: Tristate)
      requires Working(cfg, a, State(), c, g)
      modifies this
      ensures Working(cfg, a, State(), c, g)
      ensures d.Some? ==> d.value in cfg.def(c).defaults
      ensures Live(cfg, a, c, g) ==>
                && Undisturbed(cfg, old(State()), State(), c)
                && d == ActiveDefault(cfg.def(c).defaults, EnvOf(g.V))
                && (d.Some? ==> cond == EvalOpt(d.value.cond, EnvOf(g.V)))
      decreases |a.need|, Pending(cfg, a), 1
    {
      hide Undisturbed, Working, Live, WellFormedConfig, Sound;
      var defaults := cfg.def(c).defaults;
      d, cond := None, NO;
      var i := 0;
      ghost var t := State();
      UndisturbedRefl(cfg, t, c);
      assert defaults[0..] == defaults;
      while i < |defaults|
        invariant 0 <= i <= |defaults|
        invariant Working(cfg, a, State(), c, g)
        invariant Live(cfg, a, c, g) ==> Undisturbed(cfg, t, State(), c)
        invariant Live(cfg, a, c, g) ==>
                    ActiveDefault(defaults, EnvOf(g.V)) == ActiveDefault(defaults[i..], EnvOf(g.V))
      {
        ghost var u := State();
        WorkingConfig(cfg, a, u, c, g);
        assert Reads(defaults[i].cond, cfg.symbols);
        assert Live(cfg, a, c, g) ==> Reads(defaults[i].cond, Below(cfg, g.rank, g.rank(c)));
        cond := Read(defaults[i].cond, a, c, g, g.V);
        if Live(cfg, a, c, g) {
          UndisturbedTrans(cfg, t, u, State(), c);
        }
        if cond != NO {
          d := Some(defaults[i]);
          return;
        }
        assert defaults[i..][1..] == defaults[i + 1..];
        i := i + 1;
      }
    }

    /** `sym_calc_visibility` for the symbol that is being calculated. */
    method CalcVisibility(ghost a: Table, c: Symbol, ghost g: Run)
      requires Working(cfg, a, State(), c, g)
      modifies this
      ensures Working(cfg, a, State(), c, g)
      ensures Live(cfg, a, c, g) ==>
                && user(c) == old(user(c))
                && visible(c) == VisibleOf(cfg, c, EnvOf(g.V))
                && revTri(c) == RevTriOf(cfg, c, EnvOf(g.V))
                && (cfg.def(c).choice.Some? ==> cfg.def(c).choice.value in valid)
      decreases |a.need|, Pending(cfg, a), 2
    {
      hide Undisturbed, Working, Live, Sound, WellFormedConfig, ChoicesLinked, VisibleOf;
      ghost var t := State();
      WorkingConfig(cfg, a, t, c, g);
      var tri := ReadPrompts(c, a, c, g, g.V);
      ghost var u := State();
      if Live(cfg, a, c, g) {
        UndisturbedCurr(cfg, t, u, c);
      }
      visible := Update(visible, c, tri);
      WorkingWrites(cfg, a, u, State(), c, g);
      WorkingConfig(cfg, a, State(), c, g);
      if cfg.def(c).choice.Some? {
        PromptReadsChoice(cfg, c);
        return;
      }
      CalcSelect(a, c, g);
    }

    /** The second half of `sym_calc_visibility`: direct and reverse dependencies. */
    method CalcSelect(ghost a: Table, c: Symbol, ghost g: Run)
      requires Working(cfg, a, State(), c, g) && cfg.def(c).choice.None?
      modifies this
      ensures Working(cfg, a, State(), c, g)
      ensures Live(cfg, a, c, g) ==>
                && user(c) == old(user(c))
                && visible(c) == old(visible(c))
                && revTri(c) == RevTriOf(cfg, c, EnvOf(g.V))
      decreases |a.need|, Pending(cfg, a), 1
    {
      hide Undisturbed, Working, Live, Sound, WellFormedConfig, ChoicesLinked;
      var d := cfg.def(c);
      ghost var t := State();
      WorkingConfig(cfg, a, t, c, g);
      var dir := Read(d.dirDep, a, c, g, g.V);
      ghost var u := State();
      var rev := NO;
      if d.revDep.Some? {
        rev := Read(d.revDep, a, c, g, g.V);
        if rev == MOD && c.IsTri() {
          rev := YES;
        }
      }
      ghost var v := State();
      if Live(cfg, a, c, g) {
        UndisturbedCurr(cfg, t, u, c);
        if d.revDep.Some? {
          UndisturbedCurr(cfg, u, v, c);
        }
      }
      revTri := Update(revTri, c, rev);
      WorkingWrites(cfg, a, v, State(), c, g);
    }

    /** The value of a bool or tristate symbol that no visible choice decides: the user's value
        if the symbol is visible, else the default, and at least what selects ask for. */
    method ReadTri(ghost a: Table, c: Symbol, ghost g: Run) returns (t: Tristate)
      requires Working(cfg, a, State(), c, g)
      requires Live(cfg, a, c, g) ==> Prepared(cfg, State(), c, g)
      modifies this
      ensures Working(cfg, a, State(), c, g)
      ensures Live(cfg, a, c, g) ==> Undisturbed(cfg, old(State()), State(), c)
      ensures Live(cfg, a, c, g) ==> t == TriOf(cfg, g.users(c), c, EnvOf(g.V))
      decreases |a.need|, Pending(cfg, a), 2
    {
      hide Undisturbed, Working, Live, Sound, WellFormedConfig, ChoicesLinked, VisibleOf, RevTriOf, ReadsOnly;
      ghost var t0 := State();
      WorkingConfig(cfg, a, t0, c, g);
      UndisturbedRefl(cfg, t0, c);
      t := NO;
      if visible(c) != NO && user(c).isSet {
        t := And.Apply(user(c).tri, visible(c));
      } else if cfg.def(c).members.None? {
        var d, cond := ReadDefault(a, c, g);
        if d.Some? {
          DefaultReads(cfg, c, d.value, cfg.symbols);
          if Live(cfg, a, c, g) {
            DefaultReads(cfg, c, d.value, Below(cfg, g.rank, g.rank(c)));
          }
          ghost var t1 := State();
          var v := Read(Some(d.value.expr), a, c, g, g.V);
          if Live(cfg, a, c, g) {
            UndisturbedTrans(cfg, t0, t1, State(), c);
          }
          t := And.Apply(v, cond);
        }
      }
      if Live(cfg, a, c, g) {
        UndisturbedCurr(cfg, t0, State(), c);
      }
      t := Promote(Or.Apply(t, revTri(c)));
    }

    /** `sym_get_range_val`. */
    method ReadBound(bound: Symbol, ghost a: Table, c: Symbol, ghost g: Run) returns (v: int)
      requires Working(cfg, a, State(), c, g) && bound in cfg.symbols
      requires Live(cfg, a, c, g) ==> bound in Below(cfg, g.rank, g.rank(c))
      modifies this
      ensures Working(cfg, a, State(), c, g)
      ensures Live(cfg, a, c, g) ==> Undisturbed(cfg, old(State()), State(), c)
      ensures Live(cfg, a, c, g) ==> v == BoundOf(cfg, c, bound, g.V)
      decreases |a.need|, Pending(cfg, a), 1
    {
      hide Undisturbed, Working, Live;
      var value := ReadSymbol(bound, a, c, g);
      v := cfg.lib.scan(value.str, IsHex(c, bound));
    }

    /** `sym_get_range_prop`. */
    method ReadRange(ghost a: Table, c: Symbol, ghost g: Run) returns (r: Option<Range>)
      requires Working(cfg, a, State(), c, g)
      modifies this
      ensures Working(cfg, a, State(), c, g)
      ensures r.Some? ==> r.value in cfg.def(c).ranges
      ensures Live(cfg, a, c, g) ==>
                && Undisturbed(cfg, old(State()), State(), c)
                && r == ActiveRange(cfg.def(c).ranges, EnvOf(g.V))
      decreases |a.need|, Pending(cfg, a), 1
    {
      hide Undisturbed, Working, Live, WellFormedConfig, Sound;
      var ranges := cfg.def(c).ranges;
      r := None;
      var i := 0;
      ghost var t := State();
      UndisturbedRefl(cfg, t, c);
      assert ranges[0..] == ranges;
      while i < |ranges|
        invariant 0 <= i <= |ranges|
        invariant Working(cfg, a, State(), c, g)
        invariant Live(cfg, a, c, g) ==> Undisturbed(cfg, t, State(), c)
        invariant Live(cfg, a, c, g) ==> ActiveRange(ranges, EnvOf(g.V)) == ActiveRange(ranges[i..], EnvOf(g.V))
      {
        ghost var u := State();
        WorkingConfig(cfg, a, u, c, g);
        assert Reads(ranges[i].cond, cfg.symbols);
        assert Live(cfg, a, c, g) ==> Reads(ranges[i].cond, Below(cfg, g.rank, g.rank(c)));
        var cond := Read(ranges[i].cond, a, c, g, g.V);
        if Live(cfg, a, c, g) {
          UndisturbedTrans(cfg, t, u, State(), c);
        }
        if cond != NO {
          r := Some(ranges[i]);
          return;
        }
        assert ranges[i..][1..] == ranges[i + 1..];
        i := i + 1;
      }
    }

    /** `sym_validate_range` on a string. */
    method ValidateRange(str: string, ghost a: Table, c: Symbol, ghost g: Run) returns (r: string)
      requires Working(cfg, a, State(), c, g)
      modifies this
      ensures Working(cfg, a, State(), c, g)
      ensures Live(cfg, a, c, g) ==> Undisturbed(cfg, old(State()), State(), c)
      ensures Live(cfg, a, c, g) ==> r == Clamp(cfg, c, str, g.V)
      decreases |a.need|, Pending(cfg, a), 2
    {
      hide Undisturbed, Working, Live, Sound, WellFormedConfig, ChoicesLinked;
      r := str;
      ghost var t0 := State();
      UndisturbedRefl(cfg, t0, c);
      if !IsNumeric(c) {
        return;
      }
      WorkingConfig(cfg, a, t0, c, g);
      var range := ReadRange(a, c, g);
      if range.None? {
        return;
      }
      ghost var t1 := State();
      var hex := c.kind.Hexadecimal?;
      var val := cfg.lib.scan(str, hex);
      var val2 := ReadBound(range.value.low, a, c, g);
      ghost var t2 := State();
      if Live(cfg, a, c, g) {
        UndisturbedTrans(cfg, t0, t1, t2, c);
      }
      if val >= val2 {
        val2 := ReadBound(range.value.high, a, c, g);
        if Live(cfg, a, c, g) {
          UndisturbedTrans(cfg, t0, t2, State(), c);
        }
        if val <= val2 {
          return;
        }
      }
      r := cfg.lib.format(val2, hex);
    }

    /** The value of a string, int or hex symbol. */
    method ReadStr(ghost a: Table, c: Symbol, ghost g: Run) returns (r: string)
      requires Working(cfg, a, State(), c, g)
      requires Live(cfg, a, c, g) ==> Prepared(cfg, State(), c, g)
      modifies this
      ensures Working(cfg, a, State(), c, g)
      ensures Live(cfg, a, c, g) ==> Undisturbed(cfg, old(State()), State(), c)
      ensures Live(cfg, a, c, g) ==> r == StrOf(cfg, g.users(c), c, g.V)
      decreases |a.need|, Pending(cfg, a), 3
    {
      hide Undisturbed, Working, Live, Sound, WellFormedConfig, ChoicesLinked, VisibleOf, RevTriOf, ReadsOnly, Clamp;
      ghost var t0 := State();
      WorkingConfig(cfg, a, t0, c, g);
      UndisturbedRefl(cfg, t0, c);
      r := "";
      if visible(c) != NO && user(c).isSet {
        r := user(c).str;
      } else {
        var d, cond := ReadDefault(a, c, g);
        if d.Some? && d.value.expr.Leaf? {
          DefaultReads(cfg, c, d.value, cfg.symbols);
          if Live(cfg, a, c, g) {
            DefaultReads(cfg, c, d.value, Below(cfg, g.rank, g.rank(c)));
          }
          ghost var t1 := State();
          assert d.value.expr.sym in Symbols(d.value.expr);
          var v := ReadSymbol(d.value.expr.sym, a, c, g);
          if Live(cfg, a, c, g) {
            UndisturbedTrans(cfg, t0, t1, State(), c);
          }
          r := v.str;
        }
      }
      ghost var t2 := State();
      r := ValidateRange(r, a, c, g);
      if Live(cfg, a, c, g) {
        UndisturbedTrans(cfg, t0, t2, State(), c);
      }
    }

    /* ----- choices ----- */

    /** The loop of `sym_calc_choice` over the choice values: their visibility while the choice
        is open, and whether every visible one, like the choice, has a user value. */
    method CalcMembers(ghost a: Table, c: Symbol, ghost g: Run) returns (keep: bool)
      requires Working(cfg, a, State(), c, g) && cfg.def(c).members.Some?
      requires Live(cfg, a, c, g) ==> Opening(cfg, State(), c, g)
      modifies this
      ensures Working(cfg, a, State(), c, g)
      ensures Live(cfg, a, c, g) ==>
                && OwnFields(old(State()), State(), c)
                && MembersShown(cfg, State(), cfg.def(c).members.value, c, g)
                && (keep <==> user(c).isSet && VisibleSet(cfg, g.users, g.V, cfg.def(c).members.value))
      decreases |a.need|, Pending(cfg, a), 2
    {
      hide Undisturbed, Working, Live, Sound, WellFormedConfig, VisibleOf, RevTriOf, ReadsOnly, ChoicesLinked, Opening;
      var members := cfg.def(c).members.value;
      keep := user(c).isSet;
      var i := 0;
      ghost var t := State();
      while i < |members|
        invariant 0 <= i <= |members|
        invariant Working(cfg, a, State(), c, g)
        invariant Live(cfg, a, c, g) ==> OwnFields(t, State(), c) && Opening(cfg, State(), c, g)
        invariant Live(cfg, a, c, g) ==> MembersShown(cfg, State(), members[..i], c, g)
        invariant Live(cfg, a, c, g) ==> (keep <==> t.user(c).isSet && VisibleSet(cfg, g.users, g.V, members[..i]))
      {
        var m := members[i];
        ghost var u := State();
        WorkingConfig(cfg, a, u, c, g);
        MemberReads(cfg, c, m, cfg.symbols);
        if Live(cfg, a, c, g) {
          MemberReads(cfg, c, m, Below(cfg, g.rank, g.rank(c)));
          OpeningFacts(cfg, u, c, m, g);
        }
        var tri := ReadPrompts(m, a, c, g, Opened(g.V, c));
        ghost var v := State();
        visible := Update(visible, m, tri);
        WorkingWritesMember(cfg, a, v, State(), c, g, m, tri);
        if Live(cfg, a, c, g) {
          OpeningStep(cfg, u, v, State(), members[..i], c, m, g);
          MemberUser(cfg, a, State(), c, m, g);
        }
        if visible(m) != NO {
          keep := keep && user(m).isSet;
        }
        assert members[..i + 1] == members[..i] + [m];
        i := i + 1;
      }
      assert members[..|members|] == members;
    }

    /** `sym_choice_default`. */
    method ChooseDefault(ghost a: Table, c: Symbol, ghost g: Run) returns (pick: Option<Symbol>)
      requires Working(cfg, a, State(), c, g) && cfg.def(c).members.Some?
      requires Live(cfg, a, c, g) ==>
                 Opening(cfg, State(), c, g) && MembersShown(cfg, State(), cfg.def(c).members.value, c, g)
      modifies this
      ensures Working(cfg, a, State(), c, g)
      ensures Live(cfg, a, c, g) ==> Undisturbed(cfg, old(State()), State(), c)
      ensures Live(cfg, a, c, g) ==> pick == ChoiceDefault(cfg, c, EnvOf(Opened(g.V, c)))
      decreases |a.need|, Pending(cfg, a), 1
    {
      hide Undisturbed, Working, Live, Sound, WellFormedConfig, VisibleOf, RevTriOf, ReadsOnly, ChoicesLinked;
      var defaults, members := cfg.def(c).defaults, cfg.def(c).members.value;
      ghost var W := Opened(g.V, c);
      var i := 0;
      ghost var t := State();
      UndisturbedRefl(cfg, t, c);
      assert defaults[0..] == defaults;
      while i < |defaults|
        invariant 0 <= i <= |defaults|
        invariant Working(cfg, a, State(), c, g)
        invariant Live(cfg, a, c, g) ==> Undisturbed(cfg, t, State(), c)
        invariant Live(cfg, a, c, g) ==>
                    FirstDefault(cfg, defaults, EnvOf(W)) == FirstDefault(cfg, defaults[i..], EnvOf(W))
      {
        var d := defaults[i];
        ghost var u := State();
        WorkingConfig(cfg, a, u, c, g);
        DefaultReads(cfg, c, d, cfg.symbols);
        if Live(cfg, a, c, g) {
          DefaultReads(cfg, c, d, Below(cfg, g.rank, g.rank(c)));
          UndisturbedCurr(cfg, t, u, c);
        }
        var cond := Read(d.cond, a, c, g, W);
        if Live(cfg, a, c, g) {
          UndisturbedTrans(cfg, t, u, State(), c);
          ShownLater(cfg, t, State(), c, g);
          ChoiceDefaultMember(cfg, c, d);
        }
        if cond != NO && d.expr.Leaf? && visible(d.expr.sym) != NO {
          pick := Some(d.expr.sym);
          return;
        }
        assert defaults[i..][1..] == defaults[i + 1..];
        i := i + 1;
      }
      if Live(cfg, a, c, g) {
        ShownLater(cfg, t, State(), c, g);
      }
      i := 0;
      assert members[0..] == members;
      while i < |members|
        invariant 0 <= i <= |members|
        invariant Live(cfg, a, c, g) ==>
                    FirstVisible(cfg, members, EnvOf(W)) == FirstVisible(cfg, members[i..], EnvOf(W))
      {
        if visible(members[i]) != NO {
          pick := Some(members[i]);
          return;
        }
        assert members[i..][1..] == members[i + 1..];
        i := i + 1;
      }
      pick := None;
    }

    /** `sym_calc_choice`: the pick of a choice at y, or n if there is none. */
    method CalcChoice(ghost a: Table, c: Symbol, ghost g: Run)
      requires Working(cfg, a, State(), c, g) && cfg.def(c).members.Some?
      requires Live(cfg, a, c, g) ==> Opening(cfg, State(), c, g) && user(c) == g.users(c)
      modifies this
      ensures Working(cfg, a, State(), c, g)
      ensures Live(cfg, a, c, g) ==>
                && visible(c) == old(visible(c)) && revTri(c) == old(revTri(c))
                && user(c) == old(user(c)).(isSet := StillSet(cfg, g.users, g.V, c))
                && var pick := PickOf(cfg, g.users(c), c, EnvOf(Opened(g.V, c)));
                   curr(c) == Value(Truth(pick.Some?), "n", pick)
      decreases |a.need|, Pending(cfg, a), 3
    {
      hide Undisturbed, Working, Live, Sound, WellFormedConfig, VisibleOf, RevTriOf, ReadsOnly, ChoicesLinked, Opening;
      ghost var t0 := State();
      var keep := CalcMembers(a, c, g);
      ghost var t1 := State();
      user := Update(user, c, user(c).(isSet := keep));
      WorkingWrites(cfg, a, t1, State(), c, g);
      ghost var t2 := State();
      if Live(cfg, a, c, g) {
        OpeningSame(cfg, t0, t2, c, g);
        UserPick(cfg, a, t2, c, g);
      }
      var pick := user(c).pick;
      if !(pick.Some? && visible(pick.value) != NO) {
        pick := ChooseDefault(a, c, g);
        if Live(cfg, a, c, g) {
          UndisturbedCurr(cfg, t2, State(), c);
          WorkingConfig(cfg, a, State(), c, g);
          ChoiceAlone(cfg, c);
        }
      }
      ghost var t3 := State();
      curr := Update(curr, c, Value(Truth(pick.Some?), "n", pick));
      WorkingWrites(cfg, a, t3, State(), c, g);
    }

    /* ----- operations on the whole table ----- */

    /** `sym_clear_all_valid`. */
    method ClearAllValid()
      requires Valid()
      modifies this
      ensures Valid() && State() == old(State()).(valid := TriConsts())
    {
      valid := TriConsts();
    }

    /** The loop of `conf_read` over all symbols; `order` stands for the hash table. Any
        sequence of calls leaves every symbol that was ever asked for at its meaning. */
    method CalcAll(order: seq<Symbol>, ghost g: Run)
      requires Valid() && forall s :: s in order ==> s in cfg.symbols
      requires Tracks(cfg, State(), g) && g.busy == {}
      modifies this
      ensures Valid() && Tracks(cfg, State(), g)
      ensures old(valid) <= valid && forall s :: s in order ==> s in valid
      ensures forall s :: s in valid ==> curr(s) == g.V(s)
    {
      hide ValidTable, Tracks, WellFormedConfig;
      var i := 0;
      while i < |order|
        invariant 0 <= i <= |order|
        invariant Valid() && Tracks(cfg, State(), g)
        invariant old(valid) <= valid && forall s :: s in order[..i] ==> s in valid
      {
        ghost var t := State();
        TracksNoNeed(cfg, t, g);
        CalcValue(order[i], g);
        CalcKeepsTracking(cfg, t, State(), g, g.rank(order[i]) + 1);
        TracksNoNeed(cfg, State(), g);
        assert order[..i + 1] == order[..i] + [order[i]];
        i := i + 1;
      }
      assert order[..|order|] == order;
      TracksValues(cfg, State(), g);
    }

    /** `sym_set_tristate_value`. A value is accepted if it is the present one or within range;
        a new value clears the table. */
    method SetTristateValue(s: Symbol, val: Tristate) returns (accepted: bool)
      requires Valid() && s in cfg.symbols
      modifies this
      ensures Valid()
      ensures accepted <==> old(curr(s)).tri == val || WithinRange(cfg, s, val, old(visible(s)), old(revTri(s)))
      ensures !accepted ==> State() == old(State())
      ensures accepted ==> valid == (if old(curr(s)).tri == val then old(valid) else TriConsts())
      ensures accepted ==> need == old(need) && curr == old(curr) && visible == old(visible) && revTri == old(revTri)
      ensures accepted ==> forall t: Symbol :: user(t) == UserSet(cfg, old(user), visible, s, val, t)
    {
      hide WithinRange, WellFormedConfig, UserSet;
      var oldval := curr(s).tri;
      if oldval != val && !WithinRange(cfg, s, val, visible(s), revTri(s)) {
        return false;
      }
      SetUser(s, val);
      if oldval != val {
        ClearAllValid();
      }
      return true;
    }

    method SetUser(s: Symbol, val: Tristate)
      modifies `user
      ensures forall t: Symbol :: user(t) == UserSet(cfg, old(user), visible, s, val, t)
    {
      user := Update(user, s, user(s).(isSet := true));
      if cfg.def(s).choice.Some? && val == YES {
        var cs := cfg.def(s).choice.value;
        user := Update(user, cs, user(cs).(pick := Some(s), isSet := true));
        MarkVisible(cs);
      }
      user := Update(user, s, user(s).(tri := val));
    }

    /** The loop over the values of the choice. */
    method MarkVisible(cs: Symbol)
      modifies `user
      ensures forall t: Symbol :: user(t) ==
                if cfg.def(cs).members.Some? && t in cfg.def(cs).members.value && visible(t) != NO
                then old(user)(t).(isSet := true) else old(user)(t)
    {
      if cfg.def(cs).members.Some? {
        var members := cfg.def(cs).members.value;
        var i := 0;
        while i < |members|
          invariant 0 <= i <= |members|
          invariant forall t: Symbol :: user(t) ==
                      if t in members[..i] && visible(t) != NO then old(user)(t).(isSet := true) else old(user)(t)
        {
          var m := members[i];
          assert members[..i + 1] == members[..i] + [m];
          if visible(m) != NO {
            user := Update(user, m, user(m).(isSet := true));
          }
          i := i + 1;
        }
        assert members[..|members|] == members;
      }
    }

    /** `sym_toggle_tristate_value`: tries the values that cyclically follow the present one and
        stops at the first that is accepted, at the latest at the present one itself. */
    method ToggleTristateValue(s: Symbol) returns (newval: Tristate)
      requires Valid() && s in cfg.symbols
      modifies this
      ensures Valid()
      ensures var v, next := old(curr(s)).tri, NextTri(old(curr(s)).tri);
              var ok := (t: Tristate) => WithinRange(cfg, s, t, old(visible(s)), old(revTri(s)));
              newval == if ok(next) then next else if ok(NextTri(next)) then NextTri(next) else v
      ensures forall t: Symbol :: user(t) == UserSet(cfg, old(user), visible, s, newval, t)
      ensures valid == if newval == old(curr(s)).tri then old(valid) else TriConsts()
      ensures need == old(need) && curr == old(curr) && visible == old(visible) && revTri == old(revTri)
    {
      hide WithinRange, UserSet;
      var oldval := curr(s).tri;
      newval := oldval;
      ghost var tries := 3;
      while true
        invariant 1 <= tries <= 3
        invariant State() == old(State()) && oldval == curr(s).tri
        invariant newval == if tries == 3 then oldval
                            else if tries == 2 then NextTri(oldval)
                            else NextTri(NextTri(oldval))
        invariant tries <= 2 ==> !WithinRange(cfg, s, NextTri(oldval), visible(s), revTri(s))
        invariant tries == 1 ==> !WithinRange(cfg, s, NextTri(NextTri(oldval)), visible(s), revTri(s))
        decreases tries
      {
        newval := NextTri(newval);
        var accepted := SetTristateValue(s, newval);
        if accepted || oldval == newval {
          break;
        }
        tries := tries - 1;
      }
    }
  }

  /** The user value of `t` after `s` was set to `val`: setting a choice value to y also picks it,
      and every visible value of the choice counts as set. */
  function UserSet(cfg: Config, user: Users,
                   visible: Symbol -> Tristate, s: Symbol, val: Tristate, t: Symbol): UserValue {
    var choice := if val == YES then cfg.def(s).choice else None;
    var u := user(t);
    var picked := if choice == Some(t) then u.(pick := Some(s), isSet := true) else u;
    var sibling := choice.Some? && cfg.def(choice.value).members.Some? && t in cfg.def(choice.value).members.value;
    var marked := if sibling && visible(t) != NO then picked.(isSet := true) else picked;
    if t == s then marked.(isSet := true, tri := val) else marked
  }

  /** The user value of `t` after the values of `c` have got theirs: those that had none are n,
      and the choice counts as set. */
  function AllSet(cfg: Config, user: Users, c: Symbol, t: Symbol): UserValue {
    var u := user(t);
    var unset := cfg.def(c).members.Some? && t in cfg.def(c).members.value && !u.isSet;
    var v := if unset then u.(tri := NO) else u;
    if t == c then v.(isSet := true) else v
  }

  /** n, m, y, and n again. */
  function NextTri(t: Tristate): (next: Tristate)
    ensures next == (t + 1) % 3
  {
    if t == NO then MOD else if t == MOD then YES else NO
  }
}
