/** `conf_write_defconfig`: the reduced configuration file loses nothing. */
module DefconfigTheory {
  import opened Exprs
  import opened SymbolSpec
  import opened SymbolTheory
  import opened SymbolTables

  /** `sym_get_string_default`. A select counts as part of the default; m counts as y, except
      for a tristate choice value. */
  function DefaultStringOf(cfg: Config, s: Symbol, V: Valuation): string {
    if s.IsTri() then
      var t := Or.Apply(DefaultTri(cfg, s, EnvOf(V)), RevTriOf(cfg, s, EnvOf(V)));
      TriName(if cfg.def(s).choice.Some? && !s.IsBool() then t else Promote(t))
    else
      DefaultStr(cfg, s, V)
  }

  /** The value that `conf_write_defconfig` may leave out because it is the one a mandatory
      choice falls back to. */
  predicate ImpliedByChoice(cfg: Config, s: Symbol, V: Valuation)
    requires cfg.def(s).choice.Some? ==> cfg.def(cfg.def(s).choice.value).members.Some?
  {
    var c := cfg.def(s).choice;
    && c.Some?
    && !cfg.def(c.value).optional
    && ChoiceDefault(cfg, c.value, EnvOf(V)) == Some(s)
    && s.IsBool() && V(s).tri == YES
  }

  /** The symbols that `conf_write_defconfig` writes. */
  predicate Kept(cfg: Config, s: Symbol, V: Valuation)
    requires cfg.def(s).choice.Some? ==> cfg.def(cfg.def(s).choice.value).members.Some?
  {
    && (s.IsTri() || IsString(s))
    && cfg.def(s).members.None?
    && !cfg.def(s).auto
    && RevTriOf(cfg, s, EnvOf(V)) < VisibleOf(cfg, s, EnvOf(V))
    && StringOf(s, V(s)) != DefaultStringOf(cfg, s, V)
    && !ImpliedByChoice(cfg, s, V)
  }

  ghost predicate Linked(cfg: Config) {
    forall s :: cfg.def(s).choice.Some? ==> cfg.def(cfg.def(s).choice.value).members.Some?
  }

  /** The user values after `conf_read_simple` has read the reduced file: each written symbol
      has its calculated value; a choice counts as set, at y if its pick was written. */
  ghost function KeptUser(cfg: Config, V: Valuation, s: Symbol): UserValue
    requires Linked(cfg)
  {
    if cfg.def(s).members.Some? then
      var p := V(s).pick;
      if p.Some? && Kept(cfg, p.value, V) then UserValue(true, YES, "", p)
      else UserValue(true, NO, "", None)
    else if Kept(cfg, s, V) then UserValue(true, V(s).tri, if s.IsTri() then "" else V(s).str, None)
    else UserValue(false, NO, "", None)
  }

  ghost function KeptUsers(cfg: Config, V: Valuation): Users
    requires Linked(cfg)
  {
    (s: Symbol) requires Linked(cfg) => KeptUser(cfg, V, s)
  }

  /** The symbol is never written although it may be visible: it comes from the environment, or it
      is a string or number that is selected. */
  predicate NeverWritten(cfg: Config, s: Symbol, V: Valuation) {
    cfg.def(s).auto || (IsString(s) && VisibleOf(cfg, s, EnvOf(V)) <= RevTriOf(cfg, s, EnvOf(V)))
  }

  /** Every string or number that may be written passes its own range check. */
  ghost predicate NumbersSettled(cfg: Config, V: Valuation) {
    forall s :: s in cfg.symbols && IsString(s) && !NeverWritten(cfg, s, V) ==> Clamp(cfg, s, V(s).str, V) == V(s).str
  }

  /** Every symbol outside choices that is never written has the value that it has without the
      user. */
  ghost predicate OthersSettled(cfg: Config, V: Valuation) {
    forall s :: s in cfg.symbols && OutsideChoices(cfg, s) && NeverWritten(cfg, s, V) ==> WithoutUser(cfg, s, V)
  }

  predicate OutsideChoices(cfg: Config, s: Symbol) {
    cfg.def(s).members.None? && cfg.def(s).choice.None?
  }

  ghost predicate WithoutUser(cfg: Config, s: Symbol, V: Valuation) {
    ValueOf(cfg, UserValue(false, NO, "", None), s, V) == V(s)
  }

  /** The pick of every open choice is written, or is what a choice that is selected falls back
      to. */
  ghost predicate PicksRestored(cfg: Config, V: Valuation)
    requires Linked(cfg)
  {
    forall c :: c in cfg.symbols && cfg.def(c).members.Some? && V(c).tri == YES ==> PickRestored(cfg, c, V)
  }

  ghost predicate PickRestored(cfg: Config, c: Symbol, V: Valuation)
    requires Linked(cfg) && cfg.def(c).members.Some?
  {
    || (V(c).pick.Some? && Kept(cfg, V(c).pick.value, V))
    || (RevTriOf(cfg, c, EnvOf(V)) == YES && ChoiceDefault(cfg, c, EnvOf(V)) == V(c).pick)
  }

  /** What the reduced file restores. */
  ghost predicate Restorable(cfg: Config, V: Valuation)
    requires Linked(cfg)
  {
    NumbersSettled(cfg, V) && OthersSettled(cfg, V) && PicksRestored(cfg, V)
  }

  /** How `menu_finalize` selects a choice that is not optional: to m, by each of its prompts. */
  function SelectedBy(prompts: seq<Option<Expr>>): Option<Expr> {
    if prompts == [] then None
    else
      var last := |prompts| - 1;
      Alloc(Or, SelectedBy(prompts[..last]), Alloc(And, prompts[last], Some(Leaf(SymbolMod))))
  }

  /** A choice that is selected so follows its prompts, whatever the user says; if it is open, it
      counts as selected. */
  lemma MandatoryChoice(cfg: Config, s: Symbol, u: UserValue, users: Users, V: Valuation)
    requires WellFormedConfig(cfg) && Solves(cfg, users, V)
    requires s in cfg.symbols && cfg.def(s).members.Some? && cfg.def(s).revDep == SelectedBy(cfg.def(s).prompts)
    ensures TriOf(cfg, u, s, EnvOf(V)) == VisibleOf(cfg, s, EnvOf(V)) == RevTriOf(cfg, s, EnvOf(V))
    ensures V(s).tri == YES ==> RevTriOf(cfg, s, EnvOf(V)) == YES
  {
    hide ReadsOnly, NamesDistinct, EnvOf, RawVisible, SelectedBy, Eval;
    SolutionWellFormed(cfg, users, V);
    IsMod(EnvOf(V));
    SelectedByPrompts(cfg.def(s).prompts, EnvOf(V));
    assert s.IsTri() && cfg.def(s).choice.None?;
  }

  lemma {:induction false} SelectedByPrompts(prompts: seq<Option<Expr>>, env: Env)
    requires env.tri(SymbolMod) == MOD
    ensures var r := SelectedBy(prompts);
            Promote(RawVisible(prompts, env)) == if r.None? then NO else Promote(Eval(r.value, env))
  {
    if prompts != [] {
      SelectedByPrompts(prompts[..|prompts| - 1], env);
      assert Eval(Leaf(SymbolMod), env) == MOD;
    }
  }

  lemma IsMod(env: Env)
    requires WellFormed(env)
    ensures env.tri(SymbolMod) == MOD
  {
  }

  /** Keeping only the written values does not move a bool or tristate symbol outside
      choices. */
  lemma KeptTri(cfg: Config, users: Users, V: Valuation, s: Symbol)
    requires WellFormedConfig(cfg) && Linked(cfg) && Solves(cfg, users, V) && !cfg.def(s).auto
    requires s in cfg.symbols && s.IsTri() && cfg.def(s).members.None? && cfg.def(s).choice.None?
    ensures ValueOf(cfg, KeptUser(cfg, V, s), s, V) == V(s)
  {
    var env := EnvOf(V);
    var visible, rev := VisibleOf(cfg, s, env), RevTriOf(cfg, s, env);
    SolutionDefinite(cfg, users, V, s);
    if rev < visible && !Kept(cfg, s, V) {
      assert StringOf(s, V(s)) == DefaultStringOf(cfg, s, V);
      assert StringOf(s, V(s))[0] == DefaultStringOf(cfg, s, V)[0];
    }
  }

  /** A visible choice value belongs to an open choice and is y exactly if that picked it. */
  lemma MemberVisible(cfg: Config, users: Users, V: Valuation, c: Symbol, m: Symbol)
    requires WellFormedConfig(cfg) && Solves(cfg, users, V)
    requires m in cfg.symbols && cfg.def(m).choice == Some(c) && VisibleOf(cfg, m, EnvOf(V)) != NO
    ensures V(c).tri == YES && V(m).tri == Truth(V(c).pick == Some(m))
  {
    hide RawVisible;
    SolutionWellFormed(cfg, users, V);
    MemberNeedsChoice(cfg, m, EnvOf(V));
    assert m.IsTri() && VisibleOf(cfg, m, EnvOf(V)) == YES;
  }

  /** The value of a choice value does not depend on its own user value; if it is written as y, it
      is the pick of its choice. */
  lemma KeptMember(cfg: Config, users: Users, V: Valuation, m: Symbol, u: UserValue)
    requires WellFormedConfig(cfg) && Linked(cfg) && Solves(cfg, users, V)
    requires m in cfg.symbols && cfg.def(m).choice.Some?
    ensures ValueOf(cfg, u, m, V) == V(m)
    ensures var c := cfg.def(m).choice.value;
            Kept(cfg, m, V) ==> V(c).tri == YES && V(m).tri == Truth(V(c).pick == Some(m))
  {
    hide RawVisible, ReadsOnly;
    if VisibleOf(cfg, m, EnvOf(V)) != NO {
      MemberVisible(cfg, users, V, cfg.def(m).choice.value, m);
    }
    assert m.IsTri() && cfg.def(m).members.None?;
  }

  /** The value of a choice by its user value. */
  lemma ChoiceTri(cfg: Config, c: Symbol, u: UserValue, V: Valuation)
    requires WellFormedConfig(cfg) && c in cfg.symbols && cfg.def(c).members.Some?
    ensures c.IsTri() && cfg.def(c).choice.None? && cfg.def(c).members.Some?
    ensures RevTriOf(cfg, c, EnvOf(V)) == YES ==> TriOf(cfg, u, c, EnvOf(V)) == YES
    ensures RevTriOf(cfg, c, EnvOf(V)) != YES ==>
              TriOf(cfg, u, c, EnvOf(V))
              == if u.isSet && u.tri != NO && VisibleOf(cfg, c, EnvOf(V)) == YES then YES else NO
  {
    hide RawVisible, ReadsOnly, NamesDistinct;
  }

  /** The equation of a choice, once its own value is known. */
  lemma ChoiceValue(cfg: Config, c: Symbol, u: UserValue, V: Valuation)
    requires WellFormedConfig(cfg) && c in cfg.symbols && cfg.def(c).members.Some?
    ensures var pick := PickOf(cfg, u, c, EnvOf(Opened(V, c)));
            ValueOf(cfg, u, c, V) ==
              if TriOf(cfg, u, c, EnvOf(V)) == YES then Value(Truth(pick.Some?), "n", pick) else Value(NO, "n", None)
  {
    hide PickOf, ReadsOnly, NamesDistinct, VisibleOf, RevTriOf;
    ChoiceTri(cfg, c, u, V);
  }

  lemma ChoiceSolved(cfg: Config, users: Users, V: Valuation, c: Symbol)
    requires WellFormedConfig(cfg) && Solves(cfg, users, V) && c in cfg.symbols && cfg.def(c).members.Some?
    ensures V(c) == ValueOf(cfg, users(c), c, V) && V(c).tri != MOD
    ensures V(c).tri == YES ==> V(c) == Value(YES, "n", V(c).pick)
    ensures V(c).tri == NO ==> V(c) == Value(NO, "n", None)
  {
    hide PickOf, ReadsOnly, NamesDistinct, ValueOf, TriOf;
    ChoiceValue(cfg, c, users(c), V);
  }

  /** A choice that is closed stays closed. */
  lemma KeptClosed(cfg: Config, users: Users, V: Valuation, c: Symbol)
    requires WellFormedConfig(cfg) && Linked(cfg) && WellFormedUsers(cfg, users) && Solves(cfg, users, V)
    requires c in cfg.symbols && cfg.def(c).members.Some? && V(c).tri == NO
    ensures ValueOf(cfg, KeptUser(cfg, V, c), c, V) == V(c)
  {
    hide ReadsOnly, Kept, ValueOf, TriOf, RevTriOf, VisibleOf, ChoiceDefault, ChoicesLinked;
    ChoiceSolved(cfg, users, V, c);
    var k := KeptUser(cfg, V, c);
    assert k == UserValue(true, NO, "", None);
    ChoiceTri(cfg, c, k, V);
    ChoiceTri(cfg, c, users(c), V);
    ChoiceValue(cfg, c, k, V);
    ChoiceValue(cfg, c, users(c), V);
  }

  /** An open choice stays open with the same pick if and only if the pick is written, or is what
      a choice that is selected falls back to. */
  lemma KeptOpen(cfg: Config, users: Users, V: Valuation, c: Symbol)
    requires WellFormedConfig(cfg) && Linked(cfg) && WellFormedUsers(cfg, users) && Solves(cfg, users, V)
    requires c in cfg.symbols && cfg.def(c).members.Some? && V(c).tri == YES
    ensures ValueOf(cfg, KeptUser(cfg, V, c), c, V) == V(c) <==> PickRestored(cfg, c, V)
  {
    hide Kept, ReadsOnly, VisibleOf, TriOf, RevTriOf, ValueOf, ChoiceDefault, ChoicesLinked;
    var k := KeptUser(cfg, V, c);
    ChoiceSolved(cfg, users, V, c);
    PickVisible(cfg, users, V, c);
    ChoiceTri(cfg, c, k, V);
    OpenSame(cfg, V, c, V(c).pick.value);
    ChoiceTri(cfg, c, users(c), V);
    ChoiceValue(cfg, c, k, V);
    ChoiceValue(cfg, c, users(c), V);
  }

  /** Opening an open choice changes nothing that its pick depends on. */
  lemma OpenSame(cfg: Config, V: Valuation, c: Symbol, p: Symbol)
    requires c.IsTri() && V(c).tri == YES && cfg.def(c).members.Some?
    ensures VisibleOf(cfg, p, EnvOf(Opened(V, c))) == VisibleOf(cfg, p, EnvOf(V))
    ensures ChoiceDefault(cfg, c, EnvOf(Opened(V, c))) == ChoiceDefault(cfg, c, EnvOf(V))
  {
    OpenedSame(V, c);
    RawVisibleSame(cfg.def(p).prompts, EnvOf(Opened(V, c)), EnvOf(V));
    FirstDefaultSame(cfg, cfg.def(c).defaults, EnvOf(Opened(V, c)), EnvOf(V));
    FirstVisibleSame(cfg, cfg.def(c).members.value, EnvOf(Opened(V, c)), EnvOf(V));
  }

  /** The pick of an open choice is written unless it comes from the environment, has the default y,
      or is a bool that a choice which is not optional falls back to. */
  lemma MemberWritten(cfg: Config, users: Users, V: Valuation, c: Symbol)
    requires WellFormedConfig(cfg) && Linked(cfg) && WellFormedUsers(cfg, users) && Solves(cfg, users, V)
    requires c in cfg.symbols && cfg.def(c).members.Some? && V(c).tri == YES
    ensures V(c).pick.Some?
    ensures var p := V(c).pick.value;
            Kept(cfg, p, V) <==>
              && !cfg.def(p).auto && DefaultStringOf(cfg, p, V) != TriName(YES)
              && !(p.IsBool() && !cfg.def(c).optional && ChoiceDefault(cfg, c, EnvOf(V)) == Some(p))
  {
    hide RawVisible, ReadsOnly, ChoiceDefault, DefaultTri;
    PickVisible(cfg, users, V, c);
    var p := V(c).pick.value;
    assert cfg.def(p).choice == Some(c) && p.IsTri() && cfg.def(p).members.None?;
    MemberVisible(cfg, users, V, c, p);
    assert RevTriOf(cfg, p, EnvOf(V)) == NO && StringOf(p, V(p)) == TriName(YES);
  }

  /** Hence the pick of an open choice is lost exactly if it comes from the environment or has the
      default y itself, and nothing selects the choice or the choice falls back to another value. */
  lemma PickLost(cfg: Config, users: Users, V: Valuation, c: Symbol)
    requires WellFormedConfig(cfg) && Linked(cfg) && WellFormedUsers(cfg, users) && Solves(cfg, users, V)
    requires c in cfg.symbols && cfg.def(c).members.Some? && V(c).tri == YES
    requires !cfg.def(c).optional ==> cfg.def(c).revDep == SelectedBy(cfg.def(c).prompts)
    ensures V(c).pick.Some?
    ensures var p := V(c).pick.value;
            !PickRestored(cfg, c, V) <==>
              && (cfg.def(p).auto || DefaultStringOf(cfg, p, V) == TriName(YES))
              && (RevTriOf(cfg, c, EnvOf(V)) != YES || ChoiceDefault(cfg, c, EnvOf(V)) != Some(p))
  {
    hide Kept, ChoiceDefault, DefaultStringOf, ReadsOnly, WellFormedConfig, RevTriOf, VisibleOf, TriOf;
    MemberWritten(cfg, users, V, c);
    if !cfg.def(c).optional {
      MandatoryChoice(cfg, c, users(c), users, V);
    }
  }

  /** A string, int or hex symbol that may be written keeps its value exactly when the value passes
      its own range check. */
  lemma KeptString(cfg: Config, users: Users, V: Valuation, s: Symbol)
    requires WellFormedConfig(cfg) && Linked(cfg) && Solves(cfg, users, V)
    requires s in cfg.symbols && IsString(s) && !NeverWritten(cfg, s, V)
    ensures ValueOf(cfg, KeptUser(cfg, V, s), s, V) == V(s) <==> Clamp(cfg, s, V(s).str, V) == V(s).str
  {
    hide RawVisible, Clamp, ReadsOnly;
    StringPlain(cfg, s);
  }

  lemma StringPlain(cfg: Config, s: Symbol)
    requires WellFormedConfig(cfg) && s in cfg.symbols && IsString(s)
    ensures OutsideChoices(cfg, s)
  {
  }

  lemma KeptNever(cfg: Config, V: Valuation, s: Symbol)
    requires Linked(cfg) && NeverWritten(cfg, s, V) && cfg.def(s).members.None?
    ensures KeptUser(cfg, V, s) == UserValue(false, NO, "", None)
  {
  }

  /** What the file restores, symbol by symbol. */
  ghost predicate Restored(cfg: Config, V: Valuation, s: Symbol)
    requires Linked(cfg)
  {
    if cfg.def(s).members.Some? then V(s).tri == YES ==> PickRestored(cfg, s, V)
    else if cfg.def(s).choice.Some? then true
    else if NeverWritten(cfg, s, V) then WithoutUser(cfg, s, V)
    else IsString(s) ==> Clamp(cfg, s, V(s).str, V) == V(s).str
  }

  lemma KeptValue(cfg: Config, users: Users, V: Valuation, s: Symbol)
    requires WellFormedConfig(cfg) && Linked(cfg) && WellFormedUsers(cfg, users) && Solves(cfg, users, V)
    requires s in cfg.symbols
    ensures ValueOf(cfg, KeptUser(cfg, V, s), s, V) == V(s) <==> Restored(cfg, V, s)
  {
    hide ValueOf, KeptUser, PickRestored, ReadsOnly, NeverWritten, Clamp, ChoicesLinked;
    if cfg.def(s).members.Some? {
      ChoiceSolved(cfg, users, V, s);
      if V(s).tri == YES {
        KeptOpen(cfg, users, V, s);
      } else {
        KeptClosed(cfg, users, V, s);
      }
    } else if cfg.def(s).choice.Some? {
      KeptMember(cfg, users, V, s, KeptUser(cfg, V, s));
    } else if NeverWritten(cfg, s, V) {
      KeptNever(cfg, V, s);
    } else if IsString(s) {
      KeptString(cfg, users, V, s);
    } else if s.IsTri() {
      NotAuto(cfg, V, s);
      KeptTri(cfg, users, V, s);
    } else {
      UntypedKept(cfg, users, V, s, KeptUser(cfg, V, s));
    }
  }

  lemma NotAuto(cfg: Config, V: Valuation, s: Symbol)
    requires !NeverWritten(cfg, s, V)
    ensures !cfg.def(s).auto
  {
  }

  lemma UntypedKept(cfg: Config, users: Users, V: Valuation, s: Symbol, u: UserValue)
    requires Solves(cfg, users, V) && s in cfg.symbols && !IsString(s) && !s.IsTri()
    ensures ValueOf(cfg, u, s, V) == V(s)
  {
  }

  lemma KeptSolves(cfg: Config, users: Users, V: Valuation)
    requires WellFormedConfig(cfg) && Linked(cfg) && WellFormedUsers(cfg, users) && Solves(cfg, users, V)
    ensures Solves(cfg, KeptUsers(cfg, V), V) <==> Restorable(cfg, V)
  {
    hide KeptUser, ValueOf, Restored, ReadsOnly;
    forall s | s in cfg.symbols ensures V(s) == ValueOf(cfg, KeptUsers(cfg, V)(s), s, V) <==> Restored(cfg, V, s) {
      KeptValue(cfg, users, V, s);
    }
    AllRestored(cfg, V);
  }

  lemma AllRestored(cfg: Config, V: Valuation)
    requires WellFormedConfig(cfg) && Linked(cfg)
    ensures (forall s :: s in cfg.symbols ==> Restored(cfg, V, s)) <==> Restorable(cfg, V)
  {
    hide WithoutUser, PickRestored, NeverWritten, Clamp, ReadsOnly;
    if forall s :: s in cfg.symbols ==> Restored(cfg, V, s) {
      forall s | s in cfg.symbols && IsString(s) && !NeverWritten(cfg, s, V)
        ensures Clamp(cfg, s, V(s).str, V) == V(s).str
      {
        assert Restored(cfg, V, s);
        StringPlain(cfg, s);
      }
      forall s | s in cfg.symbols && OutsideChoices(cfg, s) && NeverWritten(cfg, s, V) ensures WithoutUser(cfg, s, V) {
        assert Restored(cfg, V, s);
      }
      forall c | c in cfg.symbols && cfg.def(c).members.Some? && V(c).tri == YES ensures PickRestored(cfg, c, V) {
        assert Restored(cfg, V, c);
      }
    }
  }

  lemma KeptUsersWellFormed(cfg: Config, users: Users, V: Valuation)
    requires WellFormedConfig(cfg) && Linked(cfg) && WellFormedUsers(cfg, users) && Solves(cfg, users, V)
    ensures WellFormedUsers(cfg, KeptUsers(cfg, V))
  {
    forall c | c in cfg.symbols && cfg.def(c).members.Some? && KeptUsers(cfg, V)(c).pick.Some?
      ensures KeptUsers(cfg, V)(c).pick.value in cfg.def(c).members.value
    {
      assert cfg.def(c).choice.None?;
      SolutionDefinite(cfg, users, V, c);
      if V(c).tri == YES {
        PickVisible(cfg, users, V, c);
      }
    }
  }

  /** The reduced file is lossless: reading it back and recalculating gives every symbol the
      value it had, if and only if every string or number that may be written passes its own range
      check, every symbol that is never written has the value that it has without the user, and the
      pick of every open choice is written or is what a selected choice falls back to. */
  lemma DefconfigLossless(cfg: Config, users: Users, V: Valuation, W: Valuation, rank: Rank)
    requires WellFormedConfig(cfg) && Linked(cfg) && Ranked(cfg, rank)
    requires WellFormedUsers(cfg, users) && Solves(cfg, users, V)
    requires Solves(cfg, KeptUsers(cfg, V), W)
    ensures (forall s: Symbol :: W(s) == V(s)) <==> Restorable(cfg, V)
  {
    var kept := KeptUsers(cfg, V);
    KeptUsersWellFormed(cfg, users, V);
    KeptSolves(cfg, users, V);
    if Restorable(cfg, V) {
      forall s: Symbol ensures W(s) == V(s) {
        Agreement(cfg, kept, kept, W, V, rank, rank(s) + 1, s);
      }
    }
    if forall s: Symbol :: W(s) == V(s) {
      forall s | s in cfg.symbols ensures V(s) == ValueOf(cfg, kept(s), s, V) {
        assert W(s) == V(s);
        if !IsTriConst(s) {
          assert AgreeOn(V, W, cfg.symbols);
          ValueLocal(cfg, kept(s), s, V, W, cfg.symbols);
        }
      }
    }
  }

  /** Ranges that are not empty and whose bounds survive printing are always settled. */
  lemma RangesUsuallySettled(cfg: Config, users: Users, V: Valuation)
    requires Solves(cfg, users, V)
    requires forall s, r :: s in cfg.symbols && IsNumeric(s) && r in cfg.def(s).ranges ==>
      var low, high, hex := BoundOf(cfg, s, r.low, V), BoundOf(cfg, s, r.high, V), s.kind.Hexadecimal?;
      && low <= high
      && cfg.lib.scan(cfg.lib.format(low, hex), hex) == low
      && cfg.lib.scan(cfg.lib.format(high, hex), hex) == high
    ensures NumbersSettled(cfg, V)
  {
  }

  /* ----- set, then read back ----- */

  /** The choice is calculated, open, and not selected. */
  predicate OpenByUser(cfg: Config, t: Table, c: Symbol) {
    c in t.valid && cfg.def(c).members.Some? && t.curr(c).tri == YES && t.revTri(c) != YES
  }

  /** Every such choice counts as set by the user. */
  predicate OpenChoicesSet(cfg: Config, t: Table) {
    forall c :: c in cfg.symbols && OpenByUser(cfg, t, c) ==> t.user(c).isSet
  }

  /** After a calculation the user values still have the same meaning if and only if every open
      choice that is not selected still counts as set by the user. */
  lemma UsersSettled(cfg: Config, t: Table, g: Run)
    requires WellFormedConfig(cfg) && Tracks(cfg, t, g) && g.busy == {}
    ensures WellFormedUsers(cfg, t.user)
    ensures Solves(cfg, t.user, g.V) <==> OpenChoicesSet(cfg, t)
  {
    hide ValueOf, ReadsOnly, ChoicesLinked, Settled, StillSet, OpenByUser;
    SoundRun(cfg, t, g);
    forall s | s in cfg.symbols
      ensures g.V(s) == ValueOf(cfg, t.user(s), s, g.V) <==> (OpenByUser(cfg, t, s) ==> t.user(s).isSet)
    {
      SettledValue(cfg, t, g, s);
    }
    forall c | c in cfg.symbols && cfg.def(c).members.Some? ensures t.user(c).pick == g.users(c).pick {
      UserOf(cfg, t, g, c);
    }
  }

  lemma SettledValue(cfg: Config, t: Table, g: Run, s: Symbol)
    requires WellFormedConfig(cfg) && Tracks(cfg, t, g) && g.busy == {} && s in cfg.symbols
    ensures g.V(s) == ValueOf(cfg, t.user(s), s, g.V) <==> (OpenByUser(cfg, t, s) ==> t.user(s).isSet)
  {
    hide ValueOf, ReadsOnly, ChoicesLinked, StillSet, VisibleOf, RevTriOf, TriOf, PickOf;
    SoundRun(cfg, t, g);
    UserOf(cfg, t, g, s);
    if cfg.def(s).members.Some? && s in t.valid {
      var u, w := t.user(s), g.users(s);
      assert Settled(cfg, t, g, s);
      StillWas(cfg, g.users, g.V, s);
      ChoiceSolved(cfg, g.users, g.V, s);
      ChoiceTri(cfg, s, u, g.V);
      ChoiceTri(cfg, s, w, g.V);
      ChoiceValue(cfg, s, u, g.V);
      ChoiceValue(cfg, s, w, g.V);
      PickSame(cfg, u, w, s, EnvOf(Opened(g.V, s)));
    }
  }

  lemma StillWas(cfg: Config, users: Users, V: Valuation, c: Symbol)
    requires cfg.def(c).members.Some?
    ensures StillSet(cfg, users, V, c) ==> users(c).isSet
  {
  }

  /** Which choices these are, in terms of the user values before the calculation: an open choice
      still counts as set exactly when it was set and all of its visible values were. */
  lemma StillSetExactly(cfg: Config, t: Table, g: Run, c: Symbol)
    requires WellFormedConfig(cfg) && Tracks(cfg, t, g) && g.busy == {}
    requires c in t.valid && c in cfg.symbols && cfg.def(c).members.Some? && t.curr(c).tri == YES
    ensures t.user(c).isSet <==> g.users(c).isSet && VisibleSet(cfg, g.users, g.V, cfg.def(c).members.value)
    ensures OpenByUser(cfg, t, c) ==> g.users(c).isSet
  {
    hide ReadsOnly, VisibleSet, ChoicesLinked, RevTriOf, VisibleOf, ValueOf, TriOf, PickOf;
    SoundRun(cfg, t, g);
    assert Settled(cfg, t, g, c);
    ChoiceSolved(cfg, g.users, g.V, c);
    ChoiceValue(cfg, c, g.users(c), g.V);
    ChoiceTri(cfg, c, g.users(c), g.V);
  }

  lemma SoundRun(cfg: Config, t: Table, g: Run)
    requires Tracks(cfg, t, g)
    ensures WellFormedUsers(cfg, g.users) && Solves(cfg, g.users, g.V)
  {
    hide Settled, ValueOf;
  }

  lemma UserOf(cfg: Config, t: Table, g: Run, s: Symbol)
    requires Tracks(cfg, t, g) && g.busy == {} && s in cfg.symbols
    ensures if cfg.def(s).members.Some? && s in t.valid then
              t.user(s) == g.users(s).(isSet := StillSet(cfg, g.users, g.V, s))
            else t.user(s) == g.users(s)
  {
    hide Sound, StillSet;
    if s in t.valid {
      assert Settled(cfg, t, g, s);
    }
  }

  lemma PickSame(cfg: Config, u: UserValue, w: UserValue, c: Symbol, env: Env)
    requires cfg.def(c).members.Some? && u.pick == w.pick
    ensures PickOf(cfg, u, c, env) == PickOf(cfg, w, c, env)
  {
  }

  /** Setting a calculated symbol outside choices to a value that `sym_tristate_within_range`
      accepts, and calculating again, yields exactly that value, if every open choice
      that is not selected still counts as set. */
  lemma AcceptedReadsBack(cfg: Config, t: Table, g: Run, W: Valuation, s: Symbol, v: Tristate)
    requires WellFormedConfig(cfg) && Tracks(cfg, t, g) && g.busy == {}
    requires OpenChoicesSet(cfg, t)
    requires s in t.valid && s in cfg.symbols && cfg.def(s).choice.None? && cfg.def(s).members.None?
    requires WithinRange(cfg, s, v, t.visible(s), t.revTri(s))
    requires Solves(cfg, Update(t.user, s, t.user(s).(isSet := true, tri := v)), W)
    ensures W(s).tri == v
  {
    UsersSettled(cfg, t, g);
    assert Settled(cfg, t, g, s);
    SetReadsBack(cfg, t.user, g.V, W, g.rank, s, v);
  }
}
