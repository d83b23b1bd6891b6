/** Which symbols the reduced file needs a line for, said without the functions that decide it: those
    that a user can change and whose value is not the one they have anyway. */
module DefconfigLaws {
  import opened Exprs
  import opened SymbolSpec
  import opened SymbolTheory
  import opened DefconfigTheory
  import opened SymbolLaws

  const NoUser := UserValue(false, NO, "", None)

  /** The value of the first default that applies, or n. */
  ghost predicate DefaultGives(cfg: Config, s: Symbol, env: Env, t: Tristate) {
    && (forall j: nat :: FirstActive(cfg, s, env, j) ==>
          var d := cfg.def(s).defaults[j];
          t == And.Apply(Eval(d.expr, env), EvalOpt(d.cond, env)))
    && ((forall j: nat :: !FirstActive(cfg, s, env, j)) ==> t == NO)
  }

  /** The default at `k` of a choice applies and names a value that is shown. */
  predicate Offers(cfg: Config, c: Symbol, env: Env, k: nat) {
    var d := cfg.def(c).defaults;
    k < |d| && EvalOpt(d[k].cond, env) != NO && d[k].expr.Leaf? && Shown(cfg, d[k].expr.sym, env)
  }

  predicate FirstOffer(cfg: Config, c: Symbol, env: Env, k: nat) {
    Offers(cfg, c, env, k) && forall j: nat :: j < k ==> !Offers(cfg, c, env, j)
  }

  predicate FirstShown(cfg: Config, members: seq<Symbol>, env: Env, k: nat) {
    k < |members| && Shown(cfg, members[k], env) && forall j :: 0 <= j < k ==> !Shown(cfg, members[j], env)
  }

  /** What a choice picks without the user: the value that its first default names which applies and
      is shown, or else the first one that is shown. */
  ghost predicate FallsBack(cfg: Config, c: Symbol, env: Env, m: Symbol)
    requires cfg.def(c).members.Some?
  {
    if exists k: nat :: FirstOffer(cfg, c, env, k) then
      exists k: nat :: FirstOffer(cfg, c, env, k) && cfg.def(c).defaults[k].expr == Leaf(m)
    else
      exists k: nat :: FirstShown(cfg, cfg.def(c).members.value, env, k) && cfg.def(c).members.value[k] == m
  }

  /** A line is needed for a symbol with a prompt that is shown, unless it comes from the environment
      or is selected, if its value differs from that of its first default that applies; and it is
      not needed for the bool that a choice which is not optional falls back to. */
  ghost predicate Needed(cfg: Config, s: Symbol, V: Valuation)
    requires Linked(cfg)
  {
    var d, env := cfg.def(s), EnvOf(V);
    && !d.auto && d.members.None? && Shown(cfg, s, env)
    && if d.choice.Some? then
         && s.IsTri()
         && (forall t: Tristate :: DefaultGives(cfg, s, env, t) ==> V(s).tri != if s.IsBool() then Promote(t) else t)
         && !(s.IsBool() && V(s).tri == YES && !cfg.def(d.choice.value).optional
              && FallsBack(cfg, d.choice.value, env, s))
       else if s.IsTri() then
         !Selected(cfg, s, env) && (V(s).tri == YES <==> !OnByDefault(cfg, s, env))
       else
         IsString(s) && (d.revDep.Some? ==> Eval(d.revDep.value, env) != YES) && !RawIs(cfg, NoUser, s, V, V(s).str)
  }

  lemma DefaultGivenLaw(cfg: Config, s: Symbol, env: Env)
    ensures forall t: Tristate :: DefaultGives(cfg, s, env, t) <==> t == DefaultTri(cfg, s, env)
  {
    hide FirstActive;
    DefaultLaw(cfg, s, env);
  }

  lemma OfferLaw(cfg: Config, c: Symbol, env: Env) returns (k: nat)
    ensures if FirstDefault(cfg, cfg.def(c).defaults, env).None? then forall j: nat :: !FirstOffer(cfg, c, env, j)
            else
              && FirstOffer(cfg, c, env, k) && (forall j: nat :: FirstOffer(cfg, c, env, j) ==> j == k)
              && cfg.def(c).defaults[k].expr == Leaf(FirstDefault(cfg, cfg.def(c).defaults, env).value)
  {
    hide Shown, VisibleOf;
    var d := cfg.def(c).defaults;
    k := FirstDefaultIsFirst(cfg, d, env);
    forall j: nat | j < |d| ensures Offers(cfg, c, env, j) <==> Applies(cfg, d[j], env) {
      if d[j].expr.Leaf? {
        VisibleLaw(cfg, d[j].expr.sym, env);
      }
    }
  }

  lemma {:induction false} ShownFrom(cfg: Config, members: seq<Symbol>, env: Env) returns (k: nat)
    ensures if FirstVisible(cfg, members, env).None? then forall j: nat :: !FirstShown(cfg, members, env, j)
            else
              && FirstShown(cfg, members, env, k) && (forall j: nat :: FirstShown(cfg, members, env, j) ==> j == k)
              && FirstVisible(cfg, members, env) == Some(members[k])
  {
    hide Shown, VisibleOf;
    forall m | m in members ensures VisibleOf(cfg, m, env) == Truth(Shown(cfg, m, env)) {
      VisibleLaw(cfg, m, env);
    }
    k := 0;
    if FirstVisible(cfg, members, env).Some? {
      k := FirstVisibleIsFirst(cfg, members, env);
    }
  }

  lemma FallbackLaw(cfg: Config, c: Symbol, env: Env, m: Symbol)
    requires cfg.def(c).members.Some?
    ensures FallsBack(cfg, c, env, m) <==> ChoiceDefault(cfg, c, env) == Some(m)
  {
    hide FirstOffer, FirstShown, FirstDefault, FirstVisible;
    var k := OfferLaw(cfg, c, env);
    var i := ShownFrom(cfg, cfg.def(c).members.value, env);
  }

  lemma NeededTri(cfg: Config, users: Users, V: Valuation, s: Symbol)
    requires WellFormedConfig(cfg) && Linked(cfg) && Solves(cfg, users, V)
    requires s in cfg.symbols && s.IsTri() && OutsideChoices(cfg, s)
    ensures Kept(cfg, s, V) <==> Needed(cfg, s, V)
    ensures Kept(cfg, s, V) ==> !WithoutUser(cfg, s, V)
    ensures !Kept(cfg, s, V) && !cfg.def(s).auto ==> WithoutUser(cfg, s, V)
  {
    hide DefaultTri, VisibleOf, Shown, OnByDefault, EnvOf, ReadsOnly, ChoicesLinked, NamesDistinct;
    var env := EnvOf(V);
    SolutionDefinite(cfg, users, V, s);
    VisibleLaw(cfg, s, env);
    DefaultTriLaw(cfg, s, env);
    TriLaw(cfg, users, V, s);
    NamesDiffer();
  }

  lemma NeededMember(cfg: Config, users: Users, V: Valuation, s: Symbol)
    requires WellFormedConfig(cfg) && Linked(cfg) && Solves(cfg, users, V)
    requires s in cfg.symbols && cfg.def(s).choice.Some?
    ensures Kept(cfg, s, V) <==> Needed(cfg, s, V)
  {
    hide DefaultTri, VisibleOf, Shown, EnvOf, ReadsOnly, NamesDistinct, FallsBack, ChoiceDefault, DefaultGives;
    var c, env := cfg.def(s).choice.value, EnvOf(V);
    assert s.IsTri() && cfg.def(s).members.None?;
    SolutionDefinite(cfg, users, V, s);
    VisibleLaw(cfg, s, env);
    DefaultGivenLaw(cfg, s, env);
    FallbackLaw(cfg, c, env, s);
    NamesDiffer();
  }

  lemma NamesDiffer()
    ensures TriName(YES)[0] != TriName(NO)[0] && TriName(MOD)[0] != TriName(NO)[0]
    ensures TriName(MOD)[0] != TriName(YES)[0]
  {
  }

  /** The string that is compared is the default before any range. */
  lemma NeededString(cfg: Config, users: Users, V: Valuation, s: Symbol)
    requires WellFormedConfig(cfg) && Linked(cfg) && Solves(cfg, users, V)
    requires s in cfg.symbols && IsString(s)
    ensures Kept(cfg, s, V) <==> Needed(cfg, s, V)
    ensures Kept(cfg, s, V) && s.kind.Text? ==> !WithoutUser(cfg, s, V)
  {
    hide VisibleOf, Shown, EnvOf, ReadsOnly, ChoicesLinked, NamesDistinct, FirstActive;
    var env := EnvOf(V);
    StringPlain(cfg, s);
    VisibleLaw(cfg, s, env);
    DefaultLaw(cfg, s, env);
  }

  /** The symbols that get a line are exactly those that need one. Without the line a bool, tristate
      or string outside choices would have another value, and every bool or tristate symbol outside
      choices and the environment that gets none has its value anyway. */
  lemma KeptNeeded(cfg: Config, users: Users, V: Valuation, s: Symbol)
    requires WellFormedConfig(cfg) && Linked(cfg) && Solves(cfg, users, V) && s in cfg.symbols
    ensures Kept(cfg, s, V) <==> Needed(cfg, s, V)
    ensures OutsideChoices(cfg, s) && s.IsTri() && !cfg.def(s).auto ==> (Kept(cfg, s, V) <==> !WithoutUser(cfg, s, V))
    ensures OutsideChoices(cfg, s) && (s.IsTri() || (s.Entry? && s.kind.Text?)) && Kept(cfg, s, V) ==>
              !WithoutUser(cfg, s, V)
  {
    hide VisibleOf, RevTriOf, DefaultStringOf, Shown, WithoutUser, FallsBack, RawIs, OnByDefault;
    hide ReadsOnly, ChoicesLinked, NamesDistinct, DefaultGives;
    if cfg.def(s).choice.Some? {
      NeededMember(cfg, users, V, s);
    } else if IsString(s) {
      NeededString(cfg, users, V, s);
    } else if s.IsTri() && cfg.def(s).members.None? {
      NeededTri(cfg, users, V, s);
    }
  }

  /** Nothing in the file is redundant, and nothing that is needed is missing. */
  ghost predicate Reduced(cfg: Config, V: Valuation, xs: set<Symbol>, lines: set<Symbol>)
    requires Linked(cfg)
  {
    && (forall s :: s in xs ==> (s in lines <==> Needed(cfg, s, V)))
    && (forall s :: s in lines && OutsideChoices(cfg, s) && (s.IsTri() || (s.Entry? && s.kind.Text?)) ==>
          !WithoutUser(cfg, s, V))
  }
}
