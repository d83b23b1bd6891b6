/** A choice value that is set to y is the one that its choice picks from then on. */
module ChoiceSettings {
  import opened Exprs
  import opened SymbolSpec
  import opened SymbolTheory
  import opened SymbolTables
  import opened SymbolEvaluator
  import opened DefconfigTheory
  import opened SymbolLaws

  /** The user values after `sym_set_tristate_value`. */
  function SetUsers(cfg: Config, users: Users, visible: Symbol -> Tristate, s: Symbol, v: Tristate): Users {
    x => UserSet(cfg, users, visible, s, v, x)
  }

  /** For a choice value exactly y is accepted, and only where it is shown. */
  lemma MemberAccepts(cfg: Config, s: Symbol, v: Tristate, env: Env)
    requires s.IsTri() && cfg.def(s).choice.Some?
    ensures WithinRange(cfg, s, v, VisibleOf(cfg, s, env), RevTriOf(cfg, s, env)) <==> Shown(cfg, s, env) && v == YES
  {
    hide Shown, VisibleOf;
    VisibleLaw(cfg, s, env);
  }

  /** Setting a value of a choice changes nothing below the choice. */
  lemma BelowChoice(cfg: Config, users: Users, visible: Symbol -> Tristate, rank: Rank, c: Symbol, s: Symbol, x: Symbol)
    requires WellFormedConfig(cfg) && Ranked(cfg, rank)
    requires s in cfg.symbols && cfg.def(s).choice == Some(c) && x in cfg.symbols && rank(x) < rank(c)
    ensures users(x) == SetUsers(cfg, users, visible, s, YES)(x)
  {
    hide NamesDistinct, ReadsOnly;
    assert c in cfg.symbols && cfg.def(c).members.Some?;
    MemberAbove(cfg, rank, s, c);
    if x in cfg.def(c).members.value {
      MemberAbove(cfg, rank, x, c);
    }
  }

  lemma MemberAbove(cfg: Config, rank: Rank, m: Symbol, c: Symbol)
    requires WellFormedConfig(cfg) && Ranked(cfg, rank) && m in cfg.symbols && cfg.def(m).choice == Some(c)
    ensures rank(c) < rank(m)
  {
    hide NamesDistinct;
    assert m.IsTri();
    assert ReadsOnly(cfg, m, Below(cfg, rank, rank(m)));
  }

  /** What the user values below a choice, its own prompts and its select decide stays the same. */
  lemma ChoiceUnmoved(cfg: Config, V: Valuation, W: Valuation, rank: Rank, c: Symbol, u: UserValue)
    requires WellFormedConfig(cfg) && Ranked(cfg, rank) && c in cfg.symbols && cfg.def(c).members.Some?
    requires AgreeOn(V, W, Below(cfg, rank, rank(c)))
    ensures TriOf(cfg, u, c, EnvOf(V)) == TriOf(cfg, u, c, EnvOf(W))
    ensures forall m :: m in cfg.def(c).members.value ==>
              VisibleOf(cfg, m, EnvOf(Opened(V, c))) == VisibleOf(cfg, m, EnvOf(Opened(W, c)))
  {
    hide NamesDistinct;
    var ok := Below(cfg, rank, rank(c));
    assert ReadsOnly(cfg, c, ok);
    TriLocal(cfg, u, c, V, W, ok);
    forall m | m in cfg.def(c).members.value
      ensures VisibleOf(cfg, m, EnvOf(Opened(V, c))) == VisibleOf(cfg, m, EnvOf(Opened(W, c)))
    {
      assert AgreeOn(Opened(V, c), Opened(W, c), ok + {c});
      VisibleLocal(cfg, m, Opened(V, c), Opened(W, c), ok + {c});
    }
  }

  /** A choice value that is visible in a meaning and set to y is the pick of its choice in the new
      meaning and y; of the others only those can be y that are not shown and have such a default.
      What the choice depends on does not move. */
  lemma PickReadsBack(cfg: Config, users: Users, visible: Symbol -> Tristate, V: Valuation, W: Valuation, rank: Rank,
                      c: Symbol, s: Symbol)
    requires WellFormedConfig(cfg) && Ranked(cfg, rank) && WellFormedUsers(cfg, users) && Solves(cfg, users, V)
    requires s in cfg.symbols && cfg.def(s).choice == Some(c) && VisibleOf(cfg, s, EnvOf(V)) != NO
    requires Solves(cfg, SetUsers(cfg, users, visible, s, YES), W)
    ensures AgreeOn(V, W, Below(cfg, rank, rank(c)))
    ensures W(c) == Value(YES, "n", Some(s)) && W(s).tri == YES
    ensures cfg.def(c).members.Some?
    ensures forall m :: m in cfg.def(c).members.value ==>
              && W(m).tri == Truth(m == s || (!Shown(cfg, m, EnvOf(W)) && OnByDefault(cfg, m, EnvOf(W))))
              && VisibleOf(cfg, m, EnvOf(W)) == VisibleOf(cfg, m, EnvOf(V))
  {
    hide VisibleOf, TriOf, ReadsOnly, NamesDistinct, Shown, OnByDefault, UserSet, EnvOf;
    var users' := SetUsers(cfg, users, visible, s, YES);
    assert c in cfg.symbols && cfg.def(c).members.Some? && s in cfg.def(c).members.value;
    forall t | t in cfg.symbols && rank(t) < rank(c) ensures V(t) == W(t) {
      forall x | x in cfg.symbols && rank(x) < rank(c) ensures users(x) == users'(x) {
        BelowChoice(cfg, users, visible, rank, c, s, x);
      }
      Agreement(cfg, users, users', V, W, rank, rank(c), t);
    }
    MemberVisible(cfg, users, V, c, s);
    ChoiceReopened(cfg, users, visible, V, W, rank, c, s);
    MembersReopened(cfg, V, W, rank, c);
    forall m | m in cfg.def(c).members.value
      ensures W(m).tri == Truth(m == s || (!Shown(cfg, m, EnvOf(W)) && OnByDefault(cfg, m, EnvOf(W))))
    {
      MemberLaw(cfg, users', W, m);
      VisibleLaw(cfg, s, EnvOf(W));
    }
  }

  /** The choice is open as before, and the new pick is visible. */
  lemma ChoiceReopened(cfg: Config, users: Users, visible: Symbol -> Tristate, V: Valuation, W: Valuation, rank: Rank,
                       c: Symbol, s: Symbol)
    requires WellFormedConfig(cfg) && Ranked(cfg, rank) && Solves(cfg, users, V)
    requires c in cfg.symbols && cfg.def(c).members.Some? && V(c).tri == YES
    requires s in cfg.def(c).members.value && VisibleOf(cfg, s, EnvOf(V)) != NO
    requires Solves(cfg, SetUsers(cfg, users, visible, s, YES), W)
    requires AgreeOn(V, W, Below(cfg, rank, rank(c)))
    ensures W(c) == Value(YES, "n", Some(s))
  {
    hide VisibleOf, ReadsOnly, NamesDistinct, RevTriOf, TriOf, ValueOf, ChoiceDefault, Below;
    var u := SetUsers(cfg, users, visible, s, YES)(c);
    assert u == users(c).(pick := Some(s), isSet := true);
    ChoiceUnmoved(cfg, V, W, rank, c, u);
    ChoiceTri(cfg, c, u, V);
    ChoiceTri(cfg, c, users(c), V);
    ChoiceValue(cfg, c, users(c), V);
    ChoiceValue(cfg, c, u, W);
    OpenSame(cfg, V, c, s);
  }

  /** Its values are visible as before. */
  lemma MembersReopened(cfg: Config, V: Valuation, W: Valuation, rank: Rank, c: Symbol)
    requires WellFormedConfig(cfg) && Ranked(cfg, rank) && c in cfg.symbols && cfg.def(c).members.Some?
    requires AgreeOn(V, W, Below(cfg, rank, rank(c))) && V(c).tri == YES && W(c).tri == YES
    ensures forall m :: m in cfg.def(c).members.value ==> VisibleOf(cfg, m, EnvOf(W)) == VisibleOf(cfg, m, EnvOf(V))
  {
    hide VisibleOf, ReadsOnly, NamesDistinct, TriOf;
    ChoiceUnmoved(cfg, V, W, rank, c, UserValue(false, NO, "", None));
    forall m | m in cfg.def(c).members.value ensures VisibleOf(cfg, m, EnvOf(W)) == VisibleOf(cfg, m, EnvOf(V)) {
      OpenSame(cfg, V, c, m);
      OpenSame(cfg, W, c, m);
    }
  }

  /** The choice goes on counting as set, so that the pick survives further calculations. */
  lemma PickStays(cfg: Config, users: Users, visible: Symbol -> Tristate, V: Valuation, W: Valuation, rank: Rank,
                  c: Symbol, s: Symbol)
    requires WellFormedConfig(cfg) && Ranked(cfg, rank) && WellFormedUsers(cfg, users) && Solves(cfg, users, V)
    requires s in cfg.symbols && cfg.def(s).choice == Some(c) && VisibleOf(cfg, s, EnvOf(V)) != NO
    requires Solves(cfg, SetUsers(cfg, users, visible, s, YES), W)
    requires cfg.def(c).members.Some?
    requires forall m :: m in cfg.def(c).members.value ==> visible(m) == VisibleOf(cfg, m, EnvOf(V))
    ensures StillSet(cfg, SetUsers(cfg, users, visible, s, YES), W, c)
  {
    hide VisibleOf, ReadsOnly, NamesDistinct, EnvOf, TriOf;
    PickReadsBack(cfg, users, visible, V, W, rank, c, s);
  }
}
