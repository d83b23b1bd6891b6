/** The state of the evaluator of `symbol.c` as a value, and what its steps may do to it. */
module SymbolTables {
  import opened Exprs
  import opened ExprTransformation
  import opened SymbolSpec
  import opened SymbolTheory

  /** The fields of `struct symbol` for all symbols: the flags VALID and NEED_SET_CHOICE_VALUES
      as sets, the user values (`def[S_DEF_USER]`), `curr`, `visible` and `rev_dep.tri`. */
  datatype Table = Table(
    user: Users,
    valid: set<Symbol>,
    need: set<Symbol>,
    curr: Valuation,
    visible: Symbol -> Tristate,
    revTri: Symbol -> Tristate)

  ghost predicate ValidTable(cfg: Config, t: Table) {
    && WellFormedConfig(cfg)
    && t.valid <= cfg.symbols && t.need <= cfg.symbols
    && (forall s: Symbol :: IsTriConst(s) ==> s in t.valid && s in cfg.symbols && t.curr(s) == ConstValue(s))
    && (forall s: Symbol :: cfg.def(s).choice.Some? ==> t.revTri(s) == NO)
  }

  function ConstValue(s: Symbol): Value {
    var v: Tristate := if s == SymbolNo then NO else if s == SymbolMod then MOD else YES;
    Value(v, TriName(v), None)
  }

  function TriConsts(): set<Symbol> {
    {SymbolNo, SymbolMod, SymbolYes}
  }

  /** The number of symbols still to be calculated. */
  ghost function Pending(cfg: Config, t: Table): nat {
    |cfg.symbols - t.valid|
  }

  predicate IsNew(a: Table, b: Table, s: Symbol) {
    s in b.valid && s !in a.valid
  }

  /** The symbol, or the choice it is a value of, was calculated between the two tables. */
  predicate Touched(cfg: Config, a: Table, b: Table, s: Symbol) {
    IsNew(a, b, s) || (cfg.def(s).choice.Some? && IsNew(a, b, cfg.def(s).choice.value))
  }

  /** What a calculation leaves alone: it only adds valid symbols, and it writes the fields
      of those and of the values of choices among them. */
  ghost predicate Framed(cfg: Config, a: Table, b: Table) {
    && a.valid <= b.valid
    && (forall s: Symbol :: s in a.valid ==> b.curr(s) == a.curr(s))
    && (forall s: Symbol :: !IsNew(a, b, s) ==> b.revTri(s) == a.revTri(s) && b.user(s) == a.user(s))
    && (forall s: Symbol :: !Touched(cfg, a, b, s) ==> b.visible(s) == a.visible(s))
  }

  /** The progress of any calculation: pending requests only shrink, and while they stay the
      table is framed. */
  ghost predicate Grows(cfg: Config, a: Table, b: Table) {
    && ValidTable(cfg, b)
    && b.need <= a.need
    && (b.need == a.need ==> Framed(cfg, a, b))
  }

  lemma FramedTrans(cfg: Config, a: Table, b: Table, c: Table)
    requires Framed(cfg, a, b) && Framed(cfg, b, c)
    ensures Framed(cfg, a, c)
  {
  }

  lemma GrowsTrans(cfg: Config, a: Table, b: Table, c: Table)
    requires Grows(cfg, a, b) && Grows(cfg, b, c)
    ensures Grows(cfg, a, c)
  {
    if c.need == a.need {
      FramedTrans(cfg, a, b, c);
    }
  }

  lemma GrowsRefl(cfg: Config, a: Table)
    requires ValidTable(cfg, a)
    ensures Grows(cfg, a, a)
  {
  }

  /** The measure of termination never grows. */
  lemma Shrunk(cfg: Config, a: Table, b: Table)
    requires Grows(cfg, a, b)
    ensures |b.need| < |a.need| || (|b.need| == |a.need| && b.need == a.need && Pending(cfg, b) <= Pending(cfg, a))
  {
    SubsetSize(b.need, a.need);
    if b.need == a.need {
      SubsetSize(cfg.symbols - b.valid, cfg.symbols - a.valid);
    }
  }

  lemma SubsetSize<T>(a: set<T>, b: set<T>)
    requires a <= b
    ensures |a| <= |b|
    ensures a != b ==> |a| < |b|
  {
    assert b == a + (b - a);
    if a != b {
      assert b - a != {};
    }
  }

  /** What a run is measured against: the user values when the table was last cleared, a
      meaning of the configuration, a rank, and the symbols being calculated. */
  datatype Run = Run(users: Users, V: Valuation, rank: Rank, busy: set<Symbol>) {
    function Entering(s: Symbol): Run {
      this.(busy := busy + {s})
    }
  }

  ghost predicate Sound(cfg: Config, g: Run) {
    Ranked(cfg, g.rank) && WellFormedUsers(cfg, g.users) && Solves(cfg, g.users, g.V)
  }

  /** The symbol has its value, its visibility and its select value, and the user's value is
      as it was, except that a choice may have stopped counting as set by the user. */
  ghost predicate Settled(cfg: Config, t: Table, g: Run, s: Symbol) {
    && t.curr(s) == g.V(s)
    && (s.IsTri() || IsString(s) ==>
          t.visible(s) == VisibleOf(cfg, s, EnvOf(g.V)) && t.revTri(s) == RevTriOf(cfg, s, EnvOf(g.V)))
    && UserKept(cfg, t, g, s)
  }

  ghost predicate UserKept(cfg: Config, t: Table, g: Run, s: Symbol) {
    if cfg.def(s).members.Some? then t.user(s) == g.users(s).(isSet := StillSet(cfg, g.users, g.V, s))
    else t.user(s) == g.users(s)
  }

  /** Whether a choice counts as set by the user once it is calculated: if it is opened, only if
      each of its visible values is set as well. */
  ghost predicate StillSet(cfg: Config, users: Users, V: Valuation, c: Symbol)
    requires cfg.def(c).members.Some?
  {
    && users(c).isSet
    && (TriOf(cfg, users(c), c, EnvOf(V)) == YES ==> VisibleSet(cfg, users, V, cfg.def(c).members.value))
  }

  ghost predicate VisibleSet(cfg: Config, users: Users, V: Valuation, members: seq<Symbol>) {
    forall m :: m in members && VisibleOf(cfg, m, EnvOf(V)) != NO ==> users(m).isSet
  }

  /** The table agrees with the meaning: every symbol that is calculated, and no longer being
      calculated, is settled; symbols not yet calculated, and all but choices, still have the
      user's value. */
  ghost predicate Tracks(cfg: Config, t: Table, g: Run) {
    && t.need == {} && Sound(cfg, g)
    && (forall s: Symbol :: s in t.valid && s !in g.busy ==> Settled(cfg, t, g, s))
    && (forall s: Symbol :: s in cfg.symbols && (s !in t.valid || cfg.def(s).members.None?) ==>
          t.user(s) == g.users(s))
    && (forall s: Symbol :: s in g.busy ==> s in t.valid && !IsTriConst(s))
  }

  /** Every symbol being calculated has at least the rank `n`. */
  ghost predicate Above(g: Run, n: nat) {
    forall s: Symbol :: s in g.busy ==> n <= g.rank(s)
  }

  /** From a table that tracks the meaning to another one, calculating only below rank `n`. */
  ghost predicate Follows(cfg: Config, a: Table, b: Table, g: Run, n: nat) {
    Tracks(cfg, a, g) && Above(g, n) ==>
      Tracks(cfg, b, g) && forall s: Symbol :: IsNew(a, b, s) ==> g.rank(s) < n
  }

  lemma FollowsTrans(cfg: Config, a: Table, b: Table, c: Table, g: Run, n: nat)
    requires Follows(cfg, a, b, g, n) && Follows(cfg, b, c, g, n)
    ensures Follows(cfg, a, c, g, n)
  {
    if Tracks(cfg, a, g) && Above(g, n) {
      forall s: Symbol | IsNew(a, c, s) ensures g.rank(s) < n {
        assert IsNew(a, b, s) || IsNew(b, c, s);
      }
    }
  }

  /** The symbols are calculated already or have a smaller rank. */
  ghost predicate Feeds(t: Table, read: set<Symbol>, g: Run, n: nat) {
    forall s: Symbol :: s in read ==> s in t.valid || g.rank(s) < n
  }

  /** A calculation that reads the symbols `read`, all below rank `n` or known already. */
  ghost predicate Advances(cfg: Config, a: Table, b: Table, read: set<Symbol>, g: Run, n: nat) {
    && Grows(cfg, a, b)
    && (b.need == a.need ==> read <= b.valid)
    && (Feeds(a, read, g, n) ==> Follows(cfg, a, b, g, n))
  }

  lemma AdvancesRefl(cfg: Config, a: Table, g: Run, n: nat)
    requires ValidTable(cfg, a)
    ensures Advances(cfg, a, a, {}, g, n)
  {
    GrowsRefl(cfg, a);
  }

  lemma AdvancesTrans(cfg: Config, a: Table, b: Table, c: Table, p: set<Symbol>, q: set<Symbol>, g: Run, n: nat)
    requires Advances(cfg, a, b, p, g, n) && Advances(cfg, b, c, q, g, n)
    ensures Advances(cfg, a, c, p + q, g, n)
  {
    GrowsTrans(cfg, a, b, c);
    if Feeds(a, p + q, g, n) && Tracks(cfg, a, g) && Above(g, n) {
      assert Feeds(a, p, g, n);
      assert a.need == b.need == {};
      assert Feeds(b, q, g, n);
      FollowsTrans(cfg, a, b, c, g, n);
    }
  }

  /** Calculating one symbol. */
  lemma SymbolAdvances(cfg: Config, a: Table, b: Table, s: Symbol, g: Run, n: nat)
    requires Grows(cfg, a, b) && (b.need == a.need ==> s in b.valid)
    requires s in a.valid ==> b == a
    requires Follows(cfg, a, b, g, g.rank(s) + 1)
    ensures Advances(cfg, a, b, {s}, g, n)
  {
    if Feeds(a, {s}, g, n) && Tracks(cfg, a, g) && Above(g, n) && s !in a.valid {
      assert g.rank(s) < n;
    }
  }

  /** What is known of the pending requests and valid symbols after a calculation. */
  lemma AdvancesFacts(cfg: Config, a: Table, b: Table, read: set<Symbol>, g: Run, n: nat)
    requires Advances(cfg, a, b, read, g, n)
    ensures ValidTable(cfg, b) && b.need <= a.need
    ensures |b.need| < |a.need| || (|b.need| == |a.need| && Pending(cfg, b) <= Pending(cfg, a))
    ensures b.need == a.need ==> a.valid <= b.valid && read <= b.valid && AgreeOn(a.curr, b.curr, a.valid)
  {
    Shrunk(cfg, a, b);
  }

  /* ----- while one symbol is being calculated ----- */

  /** The calculation of `c` that began in the table `a` is one that the meaning accounts for. */
  ghost predicate Live(cfg: Config, a: Table, c: Symbol, g: Run) {
    Tracks(cfg, a, g) && Above(g, g.rank(c) + 1)
  }

  /** The table `t` in the middle of the calculation of `c` that began in `a`. */
  ghost predicate Working(cfg: Config, a: Table, t: Table, c: Symbol, g: Run) {
    && c in cfg.symbols && !IsTriConst(c) && c !in a.valid
    && ValidTable(cfg, t)
    && t.need <= a.need
    && (t.need == a.need ==> Framed(cfg, a, t) && c in t.valid)
    && (Live(cfg, a, c, g) ==>
          Tracks(cfg, t, g.Entering(c)) && forall s: Symbol :: IsNew(a, t, s) ==> g.rank(s) < g.rank(c) + 1)
  }

  /** The measure of termination has dropped since the calculation of `c` began. */
  lemma WorkingSmaller(cfg: Config, a: Table, t: Table, c: Symbol, g: Run)
    requires Working(cfg, a, t, c, g)
    ensures |t.need| < |a.need| || (|t.need| == |a.need| && Pending(cfg, t) < Pending(cfg, a))
  {
    SubsetSize(t.need, a.need);
    if t.need == a.need {
      SubsetSize(cfg.symbols - t.valid, cfg.symbols - a.valid);
      assert c in cfg.symbols - a.valid && c !in cfg.symbols - t.valid;
    }
  }

  lemma WorkingStart(cfg: Config, a: Table, t: Table, c: Symbol, g: Run)
    requires ValidTable(cfg, a) && c in cfg.symbols && c !in a.valid
    requires t == a.(valid := a.valid + {c})
    ensures Working(cfg, a, t, c, g)
    ensures Live(cfg, a, c, g) ==> t.user(c) == g.users(c)
  {
  }

  /** The same after a request for choice values was served first. */
  lemma WorkingStartServed(cfg: Config, a: Table, b: Table, t: Table, c: Symbol, g: Run)
    requires c in cfg.symbols && c !in a.valid && ValidTable(cfg, a) && c in a.need
    requires Grows(cfg, a.(need := a.need - {c}), b)
    requires t == b.(valid := b.valid + {c})
    ensures Working(cfg, a, t, c, g) && !Live(cfg, a, c, g)
  {
  }

  /** What reading symbols leaves alone of the symbol that is being calculated. */
  ghost predicate Undisturbed(cfg: Config, t: Table, u: Table, c: Symbol) {
    && t.valid <= u.valid
    && u.curr(c) == t.curr(c) && u.revTri(c) == t.revTri(c) && u.user(c) == t.user(c)
    && ((cfg.def(c).choice.Some? ==> cfg.def(c).choice.value in t.valid) ==> u.visible(c) == t.visible(c))
    && (cfg.def(c).members.Some? ==> forall m :: m in cfg.def(c).members.value ==>
          u.visible(m) == t.visible(m) && u.user(m) == t.user(m))
  }

  lemma Undisturbs(cfg: Config, t: Table, u: Table, c: Symbol, rank: Rank)
    requires WellFormedConfig(cfg) && Ranked(cfg, rank)
    requires Framed(cfg, t, u) && c in cfg.symbols && c in t.valid
    requires forall s: Symbol :: IsNew(t, u, s) ==> rank(s) < rank(c)
    ensures Undisturbed(cfg, t, u, c)
  {
    MembersAbove(cfg, rank, c);
  }

  /** Reading symbols below the rank of `c` keeps the calculation of `c` on course. */
  lemma WorkingReads(cfg: Config, a: Table, t: Table, u: Table, c: Symbol, g: Run, read: set<Symbol>)
    requires Working(cfg, a, t, c, g)
    requires Advances(cfg, t, u, read, g.Entering(c), g.rank(c))
    requires Live(cfg, a, c, g) ==> read <= Below(cfg, g.rank, g.rank(c)) + {c}
    ensures Working(cfg, a, u, c, g)
    ensures Live(cfg, a, c, g) ==> Undisturbed(cfg, t, u, c) && read <= u.valid && u.need == {}
  {
    hide Solves, Ranked, WellFormedConfig, Settled, WellFormedUsers;
    if u.need == a.need {
      assert t.need == a.need;
      FramedTrans(cfg, a, t, u);
    }
    if Live(cfg, a, c, g) {
      var h := g.Entering(c);
      assert t.need == a.need == {} && Tracks(cfg, t, h);
      assert Feeds(t, read, h, g.rank(c));
      assert Above(h, g.rank(c));
      assert Tracks(cfg, u, h);
      forall s: Symbol | IsNew(a, u, s) ensures g.rank(s) < g.rank(c) + 1 {
        assert IsNew(a, t, s) || IsNew(t, u, s);
      }
      Undisturbs(cfg, t, u, c, g.rank);
    }
  }

  /** The values of a choice have a larger rank than the choice. */
  lemma MembersAbove(cfg: Config, rank: Rank, c: Symbol)
    requires WellFormedConfig(cfg) && Ranked(cfg, rank) && c in cfg.symbols
    ensures cfg.def(c).members.Some? ==> forall m :: m in cfg.def(c).members.value ==>
              m in cfg.symbols && cfg.def(m).choice == Some(c) && rank(c) < rank(m)
  {
    if cfg.def(c).members.Some? {
      forall m | m in cfg.def(c).members.value
        ensures m in cfg.symbols && cfg.def(m).choice == Some(c) && rank(c) < rank(m)
      {
        assert m.IsTri() && !IsTriConst(m);
        assert ReadsOnly(cfg, m, Below(cfg, rank, rank(m)));
      }
    }
  }

  /** Writing the fields of the symbol that is being calculated. */
  lemma WorkingWrites(cfg: Config, a: Table, t: Table, u: Table, c: Symbol, g: Run)
    requires Working(cfg, a, t, c, g)
    requires u.valid == t.valid && u.need == t.need
    requires forall s: Symbol :: s != c ==>
               && u.curr(s) == t.curr(s) && u.visible(s) == t.visible(s)
               && u.revTri(s) == t.revTri(s) && u.user(s) == t.user(s)
    requires cfg.def(c).choice.Some? ==> u.revTri(c) == t.revTri(c)
    requires cfg.def(c).members.None? ==> u.user(c) == t.user(c)
    ensures Working(cfg, a, u, c, g)
  {
    hide Sound, WellFormedConfig, VisibleOf, RevTriOf;
    if Live(cfg, a, c, g) {
      forall s: Symbol | s in u.valid && s !in g.Entering(c).busy ensures Settled(cfg, u, g, s) {
        assert Settled(cfg, t, g, s);
      }
    }
  }

  /** Writing the visibility of a value of the choice that is being calculated. */
  lemma WorkingWritesMember(cfg: Config, a: Table, t: Table, u: Table, c: Symbol, g: Run, m: Symbol, v: Tristate)
    requires Working(cfg, a, t, c, g)
    requires cfg.def(m).choice == Some(c)
    requires u == t.(visible := Update(t.visible, m, v))
    requires Live(cfg, a, c, g) ==> v == VisibleOf(cfg, m, EnvOf(g.V))
    ensures Working(cfg, a, u, c, g)
  {
    hide Sound, VisibleOf, RevTriOf, WellFormedConfig;
    if Live(cfg, a, c, g) {
      forall s: Symbol | s in u.valid && s !in g.Entering(c).busy ensures Settled(cfg, u, g, s) {
        assert Settled(cfg, t, g, s);
      }
    }
  }

  /** A finished calculation. */
  lemma WorkingEnds(cfg: Config, a: Table, t: Table, c: Symbol, g: Run)
    requires Working(cfg, a, t, c, g)
    requires Live(cfg, a, c, g) ==> Settled(cfg, t, g, c)
    ensures Grows(cfg, a, t) && Follows(cfg, a, t, g, g.rank(c) + 1)
  {
    hide VisibleOf, RevTriOf, StillSet, Ranked, Solves, WellFormedUsers, WellFormedConfig;
    if Live(cfg, a, c, g) {
      forall s: Symbol | s in t.valid && s !in g.busy ensures Settled(cfg, t, g, s) {
      }
    }
  }

  /** A finished calculation that served a request for choice values. */
  lemma WorkingEndsServed(cfg: Config, a: Table, t: Table, u: Table, c: Symbol, g: Run)
    requires Working(cfg, a, t, c, g) && c in t.need
    requires u.valid == t.valid - {c} && u.need == t.need - {c}
    requires u.curr == t.curr && u.visible == t.visible && u.revTri == t.revTri
    ensures Grows(cfg, a, u) && Follows(cfg, a, u, g, g.rank(c) + 1)
    ensures u.need != a.need
  {
    assert c in a.need && c !in u.need;
  }

  /** In the middle of a calculation, expressions below its rank have their meaning. */
  lemma WorkingMeaning(cfg: Config, a: Table, t: Table, c: Symbol, g: Run, e: Expr, W: Valuation)
    requires Working(cfg, a, t, c, g) && Live(cfg, a, c, g)
    requires Symbols(e) <= t.valid && Symbols(e) <= Below(cfg, g.rank, g.rank(c)) + {c}
    requires forall s: Symbol :: s != c ==> W(s) == g.V(s)
    requires c in Symbols(e) ==> W(c) == t.curr(c)
    ensures Eval(e, EnvOf(t.curr)) == Eval(e, EnvOf(W))
  {
    hide Sound, WellFormedConfig, VisibleOf, RevTriOf, Framed, ChoicesLinked;
    forall s: Symbol | s in Symbols(e) ensures t.curr(s) == W(s) {
      if s != c {
        assert s !in g.Entering(c).busy by {
          assert Above(g, g.rank(c) + 1);
        }
        assert Settled(cfg, t, g, s);
      }
    }
    EvalLocal(e, t.curr, W, Symbols(e));
  }

  /** What may be read while `c` is being calculated, with `W` for the value of `c` itself. */
  ghost predicate Readable(cfg: Config, t: Table, read: set<Symbol>, c: Symbol, g: Run, W: Valuation) {
    && read <= Below(cfg, g.rank, g.rank(c)) + {c}
    && (forall s: Symbol :: s != c ==> W(s) == g.V(s))
    && (c in read ==> W(c) == t.curr(c))
  }

  lemma UndisturbedTrans(cfg: Config, t: Table, u: Table, v: Table, c: Symbol)
    requires Undisturbed(cfg, t, u, c) && Undisturbed(cfg, u, v, c)
    ensures Undisturbed(cfg, t, v, c)
  {
  }

  lemma UndisturbedRefl(cfg: Config, t: Table, c: Symbol)
    ensures Undisturbed(cfg, t, t, c)
  {
  }

  lemma UndisturbedCurr(cfg: Config, t: Table, u: Table, c: Symbol)
    requires Undisturbed(cfg, t, u, c)
    ensures u.curr(c) == t.curr(c) && u.user(c) == t.user(c) && u.revTri(c) == t.revTri(c) && t.valid <= u.valid
    ensures (cfg.def(c).choice.Some? ==> cfg.def(c).choice.value in t.valid) ==> u.visible(c) == t.visible(c)
  {
  }

  lemma WorkingNoNeed(cfg: Config, a: Table, t: Table, c: Symbol, g: Run)
    requires Working(cfg, a, t, c, g) && Live(cfg, a, c, g)
    ensures a.need == t.need == {} && t.valid <= cfg.symbols
  {
  }

  lemma WorkingSettled(cfg: Config, a: Table, t: Table, c: Symbol, g: Run, s: Symbol)
    requires Working(cfg, a, t, c, g) && Live(cfg, a, c, g)
    requires s in t.valid && g.rank(s) < g.rank(c)
    ensures Settled(cfg, t, g, s)
  {
    assert s !in g.Entering(c).busy;
  }

  lemma WorkingConfig(cfg: Config, a: Table, t: Table, c: Symbol, g: Run)
    requires Working(cfg, a, t, c, g)
    ensures WellFormedConfig(cfg) && ReadsOnly(cfg, c, cfg.symbols) && c in cfg.symbols && !IsTriConst(c)
    ensures ChoicesLinked(cfg)
    ensures Live(cfg, a, c, g) ==> Sound(cfg, g) && ReadsOnly(cfg, c, Below(cfg, g.rank, g.rank(c)))
    ensures cfg.def(c).choice.Some? ==> t.revTri(c) == NO
  {
  }

  /** The valuations agree except perhaps on `c`. */
  ghost predicate AgreeOff(W: Valuation, V: Valuation, c: Symbol) {
    forall s: Symbol :: s != c ==> W(s) == V(s)
  }

  lemma PromptReadable(cfg: Config, t: Table, u: Table, c: Symbol, g: Run, W: Valuation, s: Symbol, i: nat)
    requires Undisturbed(cfg, t, u, c) && AgreeOff(W, g.V, c) && (s != c ==> W(c) == t.curr(c))
    requires PromptsRead(cfg.def(s), Below(cfg, g.rank, g.rank(c)) + (if s == c then {} else {c}))
    requires i < |cfg.def(s).prompts|
    ensures Readable(cfg, u, OptSymbols(cfg.def(s).prompts[i]), c, g, W)
  {
    hide Symbols;
    assert Reads(cfg.def(s).prompts[i], Below(cfg, g.rank, g.rank(c)) + (if s == c then {} else {c}));
  }

  lemma PromptInside(cfg: Config, s: Symbol, i: nat)
    requires PromptsRead(cfg.def(s), cfg.symbols) && i < |cfg.def(s).prompts|
    ensures OptSymbols(cfg.def(s).prompts[i]) <= cfg.symbols
  {
    hide Symbols;
    assert Reads(cfg.def(s).prompts[i], cfg.symbols);
  }

  /** A prompt of a choice value reads the choice. */
  lemma PromptReadsChoice(cfg: Config, m: Symbol)
    requires ChoicesLinked(cfg) && m in cfg.symbols && cfg.def(m).choice.Some?
    ensures cfg.def(m).prompts != []
    ensures cfg.def(m).choice.value in OptSymbols(cfg.def(m).prompts[0])
  {
    assert cfg.def(m).prompts[0] in cfg.def(m).prompts;
    DependsReads(cfg.def(m).prompts[0].value, cfg.def(m).choice.value);
  }

  lemma {:induction false} DependsReads(e: Expr, s: Symbol)
    requires DependsSymbol(e, s)
    ensures s in Symbols(e)
  {
    if e.Bin? {
      if DependsSymbol(e.lhs, s) {
        DependsReads(e.lhs, s);
      } else {
        DependsReads(e.rhs, s);
      }
    }
  }

  /** While a choice that will be open is calculated, its values look the same as afterwards. */
  lemma OpenedMember(cfg: Config, g: Run, c: Symbol, m: Symbol)
    requires WellFormedConfig(cfg) && Sound(cfg, g)
    requires c in cfg.symbols && cfg.def(c).members.Some? && m in cfg.def(c).members.value
    requires TriOf(cfg, g.users(c), c, EnvOf(g.V)) == YES
    ensures VisibleOf(cfg, m, EnvOf(Opened(g.V, c))) == VisibleOf(cfg, m, EnvOf(g.V))
  {
    var W := Opened(g.V, c);
    assert c.IsTri() && cfg.def(c).choice.None?;
    if g.V(c).tri == YES {
      OpenedSame(g.V, c);
      RawVisibleSame(cfg.def(m).prompts, EnvOf(W), EnvOf(g.V));
    } else {
      assert PickOf(cfg, g.users(c), c, EnvOf(W)).None?;
      assert FirstVisible(cfg, cfg.def(c).members.value, EnvOf(W)).None?;
      SolutionWellFormed(cfg, g.users, g.V);
      if VisibleOf(cfg, m, EnvOf(g.V)) != NO {
        assert cfg.def(m).choice == Some(c);
        MemberNeedsChoice(cfg, m, EnvOf(g.V));
        SolutionDefinite(cfg, g.users, g.V, c);
      }
    }
  }

  /** The visibility and the select value are known, and the user's value is the original. */
  ghost predicate Prepared(cfg: Config, t: Table, c: Symbol, g: Run) {
    && t.user(c) == g.users(c)
    && t.visible(c) == VisibleOf(cfg, c, EnvOf(g.V))
    && t.revTri(c) == RevTriOf(cfg, c, EnvOf(g.V))
    && (cfg.def(c).choice.Some? ==> cfg.def(c).choice.value in t.valid)
  }

  lemma DefaultReads(cfg: Config, c: Symbol, d: Default, ok: set<Symbol>)
    requires ReadsOnly(cfg, c, ok) && d in cfg.def(c).defaults
    ensures Symbols(d.expr) <= ok && OptSymbols(d.cond) <= ok
  {
    var i :| 0 <= i < |cfg.def(c).defaults| && cfg.def(c).defaults[i] == d;
    assert Reads(Some(d.expr), ok) && Reads(d.cond, ok);
  }

  /* ----- while a choice looks for its pick ----- */

  /** The choice `c` is at y for the time being. */
  ghost predicate Opening(cfg: Config, t: Table, c: Symbol, g: Run) {
    && t.curr(c) == Value(YES, "n", None)
    && TriOf(cfg, g.users(c), c, EnvOf(g.V)) == YES
  }

  /** The fields of `c` are the same in both tables. */
  ghost predicate OwnFields(t: Table, u: Table, c: Symbol) {
    u.curr(c) == t.curr(c) && u.revTri(c) == t.revTri(c) && u.user(c) == t.user(c) && u.visible(c) == t.visible(c)
  }

  /** The visibility of the choice values has been calculated with the choice at y. */
  ghost predicate MembersShown(cfg: Config, t: Table, members: seq<Symbol>, c: Symbol, g: Run) {
    forall m: Symbol :: m in members ==> t.visible(m) == VisibleOf(cfg, m, EnvOf(Opened(g.V, c)))
  }

  lemma MemberReads(cfg: Config, c: Symbol, m: Symbol, ok: set<Symbol>)
    requires ChoicesLinked(cfg) && c in cfg.symbols && ReadsOnly(cfg, c, ok)
    requires cfg.def(c).members.Some? && m in cfg.def(c).members.value
    ensures m != c && cfg.def(m).choice == Some(c) && cfg.def(c).choice.None?
    ensures PromptsRead(cfg.def(m), ok + {c})
    ensures c in ok ==> PromptsRead(cfg.def(m), ok)
  {
    if c in ok {
      assert ok + {c} == ok;
    }
  }

  lemma OpeningFacts(cfg: Config, t: Table, c: Symbol, m: Symbol, g: Run)
    requires Opening(cfg, t, c, g) && WellFormedConfig(cfg) && Sound(cfg, g)
    requires c in cfg.symbols && cfg.def(c).members.Some? && m in cfg.def(c).members.value
    ensures t.curr(c) == Opened(g.V, c)(c)
    ensures VisibleOf(cfg, m, EnvOf(Opened(g.V, c))) == VisibleOf(cfg, m, EnvOf(g.V))
  {
    OpenedMember(cfg, g, c, m);
  }

  /** One more choice value shown. */
  lemma OpeningStep(cfg: Config, t: Table, u: Table, v: Table, members: seq<Symbol>, c: Symbol, m: Symbol, g: Run)
    requires Opening(cfg, t, c, g) && MembersShown(cfg, t, members, c, g)
    requires cfg.def(c).members.Some? && (forall x :: x in members ==> x in cfg.def(c).members.value)
    requires cfg.def(c).choice.None? && m != c
    requires Undisturbed(cfg, t, u, c)
    requires v == u.(visible := Update(u.visible, m, VisibleOf(cfg, m, EnvOf(Opened(g.V, c)))))
    ensures Opening(cfg, v, c, g) && OwnFields(t, v, c)
    ensures MembersShown(cfg, v, members + [m], c, g)
  {
  }

  lemma OpeningSame(cfg: Config, t: Table, u: Table, c: Symbol, g: Run)
    requires Opening(cfg, t, c, g) && u.curr(c) == t.curr(c)
    ensures Opening(cfg, u, c, g)
  {
  }

  lemma ShownLater(cfg: Config, t: Table, u: Table, c: Symbol, g: Run)
    requires cfg.def(c).members.Some? && MembersShown(cfg, t, cfg.def(c).members.value, c, g)
    requires Undisturbed(cfg, t, u, c)
    ensures MembersShown(cfg, u, cfg.def(c).members.value, c, g)
  {
  }

  lemma ChoiceDefaultMember(cfg: Config, c: Symbol, d: Default)
    requires ChoicesLinked(cfg) && c in cfg.symbols && cfg.def(c).members.Some? && d in cfg.def(c).defaults
    ensures d.expr.Leaf? && d.expr.sym in cfg.def(c).members.value
  {
  }

  lemma ChoiceAlone(cfg: Config, c: Symbol)
    requires ChoicesLinked(cfg) && c in cfg.symbols && cfg.def(c).members.Some?
    ensures cfg.def(c).choice.None? && c.IsTri()
  {
  }

  /** The values of a choice that is being calculated still have the user's value. */
  lemma MemberUser(cfg: Config, a: Table, t: Table, c: Symbol, m: Symbol, g: Run)
    requires Working(cfg, a, t, c, g) && Live(cfg, a, c, g)
    requires cfg.def(c).members.Some? && m in cfg.def(c).members.value
    ensures t.user(m) == g.users(m)
  {
    hide Sound, VisibleOf, RevTriOf;
    assert ChoicesLinked(cfg);
  }

  lemma UserPick(cfg: Config, a: Table, t: Table, c: Symbol, g: Run)
    requires Working(cfg, a, t, c, g) && Live(cfg, a, c, g) && cfg.def(c).members.Some?
    ensures g.users(c).pick.Some? ==> g.users(c).pick.value in cfg.def(c).members.value
  {
  }

  /* ----- the steps of sym_calc_value ----- */

  lemma CalcNothing(cfg: Config, a: Table, s: Symbol, g: Run)
    requires ValidTable(cfg, a)
    ensures Grows(cfg, a, a) && Follows(cfg, a, a, g, g.rank(s) + 1)
  {
  }

  lemma NotConst(cfg: Config, a: Table, s: Symbol)
    requires ValidTable(cfg, a) && s in cfg.symbols && s !in a.valid
    ensures !IsTriConst(s) && WellFormedConfig(cfg)
    ensures cfg.def(s).choice.Some? ==> cfg.def(s).choice.value in cfg.symbols
  {
  }

  lemma NeedDropped(cfg: Config, a: Table, b: Table, s: Symbol)
    requires ValidTable(cfg, a) && s in a.need && b == a.(need := a.need - {s})
    ensures ValidTable(cfg, b) && |b.need| < |a.need|
  {
    SubsetSize(b.need, a.need);
  }

  lemma StringValue(cfg: Config, g: Run, s: Symbol)
    requires IsString(s)
    ensures ValueOf(cfg, g.users(s), s, g.V) == Value(NO, StrOf(cfg, g.users(s), s, g.V), None)
  {
  }

  lemma UntypedValue(cfg: Config, g: Run, s: Symbol)
    requires !s.IsTri() && !IsString(s) && !IsTriConst(s)
    ensures ValueOf(cfg, g.users(s), s, g.V) == Value(NO, cfg.name(s), None)
  {
  }

  lemma WorkingKeepsValid(cfg: Config, a: Table, t: Table, c: Symbol, g: Run)
    requires Working(cfg, a, t, c, g)
    ensures t.need == a.need ==> c in t.valid
  {
  }

  lemma ChoiceSettled(cfg: Config, a: Table, t: Table, m: Symbol, g: Run)
    requires Working(cfg, a, t, m, g) && Live(cfg, a, m, g)
    requires cfg.def(m).choice.Some? && cfg.def(m).choice.value in t.valid
    ensures t.curr(cfg.def(m).choice.value) == g.V(cfg.def(m).choice.value)
  {
    assert ReadsOnly(cfg, m, Below(cfg, g.rank, g.rank(m)));
    WorkingSettled(cfg, a, t, m, g, cfg.def(m).choice.value);
  }

  lemma PlainUser(cfg: Config, a: Table, t: Table, s: Symbol, g: Run)
    requires Working(cfg, a, t, s, g)
    ensures !s.IsTri() && t.user(s) == g.users(s) ==> UserKept(cfg, t, g, s)
  {
    assert ChoicesLinked(cfg);
  }

  lemma ValueSettled(cfg: Config, t: Table, s: Symbol, g: Run, a: Table)
    requires Working(cfg, a, t, s, g) && Live(cfg, a, s, g)
    requires t.curr(s) == ValueOf(cfg, g.users(s), s, g.V)
    requires s.IsTri() || IsString(s) ==>
               t.visible(s) == VisibleOf(cfg, s, EnvOf(g.V)) && t.revTri(s) == RevTriOf(cfg, s, EnvOf(g.V))
    requires UserKept(cfg, t, g, s)
    ensures Settled(cfg, t, g, s)
  {
  }

  /* ----- between calculations ----- */

  /** A cleared table tracks every meaning of the configuration under its user values. */
  lemma ClearedTracks(cfg: Config, t: Table, V: Valuation, rank: Rank)
    requires ValidTable(cfg, t) && t.valid == TriConsts() && t.need == {}
    requires Ranked(cfg, rank) && WellFormedUsers(cfg, t.user) && Solves(cfg, t.user, V)
    ensures Tracks(cfg, t, Run(t.user, V, rank, {}))
  {
    assert WellFormedConfig(cfg);
    forall s: Symbol | s in t.valid ensures Settled(cfg, t, Run(t.user, V, rank, {}), s) {
      assert s in cfg.symbols && V(s) == ConstValue(s);
    }
  }

  lemma TracksNoNeed(cfg: Config, t: Table, g: Run)
    requires Tracks(cfg, t, g)
    ensures t.need == {}
  {
  }

  lemma TracksValues(cfg: Config, t: Table, g: Run)
    requires Tracks(cfg, t, g) && g.busy == {}
    ensures forall s :: s in t.valid ==> t.curr(s) == g.V(s)
  {
    hide Sound, UserKept;
    forall s | s in t.valid ensures t.curr(s) == g.V(s) {
      assert Settled(cfg, t, g, s);
    }
  }

  lemma CalcKeepsTracking(cfg: Config, a: Table, b: Table, g: Run, n: nat)
    requires Tracks(cfg, a, g) && g.busy == {} && Grows(cfg, a, b) && Follows(cfg, a, b, g, n)
    ensures ValidTable(cfg, b) && Tracks(cfg, b, g) && a.valid <= b.valid
  {
  }
}
