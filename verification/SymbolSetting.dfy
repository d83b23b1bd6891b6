/** Setting a symbol and reading its value back from the table. */
module SymbolSetting {
  import opened Exprs
  import opened SymbolSpec
  import opened SymbolTheory
  import opened SymbolTables
  import opened SymbolEvaluator
  import opened DefconfigTheory
  import opened DefconfigFiles
  import opened SymbolLaws
  import opened ChoiceSettings

  /** The choice of `s` has picked it, and its other values are n, except those that are not shown
      and have a default that is not n. */
  ghost predicate Picked(cfg: Config, V: Valuation, s: Symbol)
    requires cfg.def(s).choice.Some?
  {
    var c := cfg.def(s).choice.value;
    && V(c) == Value(YES, "n", Some(s)) && V(s).tri == YES
    && cfg.def(c).members.Some?
    && forall m :: m in cfg.def(c).members.value && m != s && (Shown(cfg, m, EnvOf(V)) || cfg.def(m).defaults == []) ==>
         V(m).tri == NO
  }

  /** `sym_set_tristate_value` on a calculated symbol, followed by the calculation of any others:
      they then have the values that the new user values mean. If every open optional choice counted
      as set before, the symbol has the accepted value, and its choice, if it has one, picks it and
      goes on doing so. */
  method SetAndCalculate(t: SymbolTable, s: Symbol, v: Tristate, order: seq<Symbol>, ghost g: Run, ghost W: Valuation)
    returns (accepted: bool)
    requires Tracking(t.cfg, t.State(), g) && g.busy == {}
    requires s in t.valid && s in t.cfg.symbols && forall x :: x in order ==> x in t.cfg.symbols
    requires Solves(t.cfg, SetUsers(t.cfg, t.user, t.visible, s, v), W)
    modifies t
    ensures accepted <==> old(t.curr(s)).tri == v || WithinRange(t.cfg, s, v, old(t.visible(s)), old(t.revTri(s)))
    ensures accepted && old(t.curr(s)).tri != v ==> forall x :: x in order ==> x in t.valid && t.curr(x) == W(x)
    ensures accepted && OpenChoicesSet(t.cfg, old(t.State())) && t.cfg.def(s).members.None? && s in order ==>
              s in t.valid && t.curr(s).tri == v
    ensures accepted && old(t.curr(s)).tri != v && OpenChoicesSet(t.cfg, old(t.State())) ==>
              t.cfg.def(s).choice.Some? ==> v == YES && Picked(t.cfg, W, s)
    ensures !accepted ==> t.State() == old(t.State())
  {
    hide ValidTable, Tracks, WithinRange, Solves, UserSet, Picked, OpenChoicesSet;
    ghost var a := t.State();
    NothingPending(t.cfg, a, g);
    var oldval := t.curr(s).tri;
    accepted := t.SetTristateValue(s, v);
    if accepted && oldval != v {
      if OpenChoicesSet(t.cfg, a) && t.cfg.def(s).members.None? {
        AcceptedValue(t.cfg, a, g, W, s, v);
      }
      AcceptedPick(t.cfg, a, g, W, s, v);
      ghost var h := Run(t.user, W, g.rank, {});
      SetUsersSolve(t.cfg, a, t.State(), g, W, s, v);
      ClearedTracks(t.cfg, t.State(), W, g.rank);
      t.CalcAll(order, h);
    }
  }

  lemma NothingPending(cfg: Config, t: Table, g: Run)
    requires Tracking(cfg, t, g)
    ensures t.need == {} && WellFormedConfig(cfg) && Ranked(cfg, g.rank)
  {
    hide Ranked, WellFormedConfig;
  }

  lemma SetUsersSolve(cfg: Config, a: Table, t: Table, g: Run, W: Valuation, s: Symbol, v: Tristate)
    requires Tracking(cfg, a, g) && g.busy == {} && s in cfg.symbols
    requires forall x: Symbol :: t.user(x) == UserSet(cfg, a.user, a.visible, s, v, x)
    requires Solves(cfg, SetUsers(cfg, a.user, a.visible, s, v), W)
    ensures WellFormedUsers(cfg, t.user) && Solves(cfg, t.user, W)
  {
    hide ValueOf, Tracks, ReadsOnly, NamesDistinct;
    UsersSettled(cfg, a, g);
    forall x: Symbol ensures t.user(x) == SetUsers(cfg, a.user, a.visible, s, v)(x) {
      assert t.user(x) == UserSet(cfg, a.user, a.visible, s, v, x);
    }
  }

  /** A calculated choice value that a new value is accepted for is visible, and the value is y. */
  lemma MemberAccepted(cfg: Config, t: Table, g: Run, s: Symbol, v: Tristate)
    requires Tracks(cfg, t, g) && g.busy == {} && s in t.valid && cfg.def(s).choice.Some?
    requires WithinRange(cfg, s, v, t.visible(s), t.revTri(s))
    ensures v == YES && VisibleOf(cfg, s, EnvOf(g.V)) != NO
  {
    hide Sound, RawVisible;
    assert Settled(cfg, t, g, s);
  }

  lemma AcceptedPick(cfg: Config, t: Table, g: Run, W: Valuation, s: Symbol, v: Tristate)
    requires WellFormedConfig(cfg) && Tracks(cfg, t, g) && g.busy == {}
    requires s in t.valid && s in cfg.symbols
    requires WithinRange(cfg, s, v, t.visible(s), t.revTri(s))
    requires Solves(cfg, SetUsers(cfg, t.user, t.visible, s, v), W)
    ensures OpenChoicesSet(cfg, t) && cfg.def(s).choice.Some? ==> v == YES && Picked(cfg, W, s)
  {
    hide ValueOf, ReadsOnly, NamesDistinct, VisibleOf, Shown, OnByDefault, OpenChoicesSet, UserSet, WithinRange, EnvOf;
    if OpenChoicesSet(cfg, t) && cfg.def(s).choice.Some? {
      var c := cfg.def(s).choice.value;
      UsersSettled(cfg, t, g);
      MemberAccepted(cfg, t, g, s, v);
      PickReadsBack(cfg, t.user, t.visible, g.V, W, g.rank, c, s);
      forall m | m in cfg.def(c).members.value && cfg.def(m).defaults == [] ensures !OnByDefault(cfg, m, EnvOf(W)) {
        NoDefaults(cfg, m, EnvOf(W));
      }
    }
  }

  lemma NoDefaults(cfg: Config, m: Symbol, env: Env)
    requires cfg.def(m).defaults == []
    ensures !OnByDefault(cfg, m, env)
  {
  }

  /** An accepted value is read back, whether the symbol belongs to a choice or not. */
  lemma AcceptedValue(cfg: Config, t: Table, g: Run, W: Valuation, s: Symbol, v: Tristate)
    requires WellFormedConfig(cfg) && Tracks(cfg, t, g) && g.busy == {} && OpenChoicesSet(cfg, t)
    requires s in t.valid && s in cfg.symbols && cfg.def(s).members.None?
    requires WithinRange(cfg, s, v, t.visible(s), t.revTri(s))
    requires Solves(cfg, SetUsers(cfg, t.user, t.visible, s, v), W)
    ensures W(s).tri == v
  {
    hide ValueOf, ReadsOnly, NamesDistinct, OpenChoicesSet, WithinRange, ChoicesLinked;
    if cfg.def(s).choice.Some? {
      AcceptedPick(cfg, t, g, W, s, v);
    } else {
      var w := Update(t.user, s, t.user(s).(isSet := true, tri := v));
      assert forall x: Symbol :: SetUsers(cfg, t.user, t.visible, s, v)(x) == w(x);
      AcceptedReadsBack(cfg, t, g, W, s, v);
    }
  }

  /** A choice whose values are calculated goes on counting as set after one of them was accepted, so
      that it keeps the pick in further calculations. */
  lemma AcceptedStays(cfg: Config, t: Table, g: Run, W: Valuation, c: Symbol, s: Symbol, v: Tristate)
    requires WellFormedConfig(cfg) && Tracks(cfg, t, g) && g.busy == {} && OpenChoicesSet(cfg, t)
    requires s in t.valid && s in cfg.symbols && cfg.def(s).choice == Some(c) && cfg.def(c).members.Some?
    requires forall m :: m in cfg.def(c).members.value ==> m in t.valid
    requires WithinRange(cfg, s, v, t.visible(s), t.revTri(s))
    requires Solves(cfg, SetUsers(cfg, t.user, t.visible, s, v), W)
    ensures StillSet(cfg, SetUsers(cfg, t.user, t.visible, s, v), W, c)
  {
    hide ValueOf, ReadsOnly, NamesDistinct, VisibleOf, OpenChoicesSet, UserSet, WithinRange, EnvOf, StillSet;
    UsersSettled(cfg, t, g);
    MemberAccepted(cfg, t, g, s, v);
    forall m | m in cfg.def(c).members.value ensures t.visible(m) == VisibleOf(cfg, m, EnvOf(g.V)) {
      assert m in cfg.symbols && m.IsTri();
      assert Settled(cfg, t, g, m);
    }
    PickStays(cfg, t.user, t.visible, g.V, W, g.rank, c, s);
  }
}
