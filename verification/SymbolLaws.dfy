/** What the values of a configuration are, said without the functions that compute them: by the
    prompts that are shown, the first default and the first range whose condition holds, and the
    selects. */
module SymbolLaws {
  import opened Exprs
  import opened ExprTransformation
  import opened SymbolSpec
  import opened SymbolTheory

  /** The condition of some prompt is not n. */
  predicate Shown(cfg: Config, s: Symbol, env: Env) {
    exists i :: 0 <= i < |cfg.def(s).prompts| && EvalOpt(cfg.def(s).prompts[i], env) != NO
  }

  /** Some symbol that selects `s` is not n. */
  predicate Selected(cfg: Config, s: Symbol, env: Env) {
    cfg.def(s).revDep.Some? && Eval(cfg.def(s).revDep.value, env) != NO
  }

  /** The default at `j` is the first one whose condition is not n. */
  predicate FirstActive(cfg: Config, s: Symbol, env: Env, j: nat) {
    var d := cfg.def(s).defaults;
    && j < |d| && EvalOpt(d[j].cond, env) != NO
    && forall i :: 0 <= i < j ==> EvalOpt(d[i].cond, env) == NO
  }

  predicate FirstRange(cfg: Config, s: Symbol, env: Env, j: nat) {
    var r := cfg.def(s).ranges;
    && j < |r| && EvalOpt(r[j].cond, env) != NO
    && forall i :: 0 <= i < j ==> EvalOpt(r[i].cond, env) == NO
  }

  /** The first default that applies is not n. */
  predicate OnByDefault(cfg: Config, s: Symbol, env: Env) {
    exists j: nat :: j < |cfg.def(s).defaults| && FirstActive(cfg, s, env, j)
                     && Eval(cfg.def(s).defaults[j].expr, env) != NO
  }

  /* ----- the functions meet these notions ----- */

  lemma VisibleLaw(cfg: Config, s: Symbol, env: Env)
    ensures VisibleOf(cfg, s, env) == Truth(Shown(cfg, s, env))
  {
    RawVisibleWitness(cfg.def(s).prompts, env);
    if Shown(cfg, s, env) {
      var i :| 0 <= i < |cfg.def(s).prompts| && EvalOpt(cfg.def(s).prompts[i], env) != NO;
      assert cfg.def(s).prompts[i] in cfg.def(s).prompts;
    }
  }

  lemma {:induction false} DefaultsFrom(defaults: seq<Default>, env: Env) returns (k: nat)
    ensures k <= |defaults| && forall i :: 0 <= i < k ==> EvalOpt(defaults[i].cond, env) == NO
    ensures if k == |defaults| then ActiveDefault(defaults, env).None?
            else EvalOpt(defaults[k].cond, env) != NO && ActiveDefault(defaults, env) == Some(defaults[k])
  {
    if defaults == [] || EvalOpt(defaults[0].cond, env) != NO {
      k := 0;
    } else {
      k := DefaultsFrom(defaults[1..], env);
      k := k + 1;
    }
  }

  /** The first default that applies, if there is one. */
  lemma DefaultLaw(cfg: Config, s: Symbol, env: Env)
    ensures forall j: nat :: FirstActive(cfg, s, env, j) ==>
              ActiveDefault(cfg.def(s).defaults, env) == Some(cfg.def(s).defaults[j])
    ensures ActiveDefault(cfg.def(s).defaults, env).Some? ==> exists j: nat :: FirstActive(cfg, s, env, j)
  {
    var k := DefaultsFrom(cfg.def(s).defaults, env);
    assert k < |cfg.def(s).defaults| ==> FirstActive(cfg, s, env, k);
    forall j: nat | FirstActive(cfg, s, env, j) ensures j == k {
    }
  }

  lemma DefaultTriLaw(cfg: Config, s: Symbol, env: Env)
    ensures DefaultTri(cfg, s, env) != NO <==> OnByDefault(cfg, s, env)
  {
    DefaultLaw(cfg, s, env);
    if DefaultTri(cfg, s, env) != NO {
      var j: nat :| FirstActive(cfg, s, env, j);
    }
  }

  lemma {:induction false} RangesFrom(ranges: seq<Range>, env: Env) returns (k: nat)
    ensures k <= |ranges| && forall i :: 0 <= i < k ==> EvalOpt(ranges[i].cond, env) == NO
    ensures if k == |ranges| then ActiveRange(ranges, env).None?
            else EvalOpt(ranges[k].cond, env) != NO && ActiveRange(ranges, env) == Some(ranges[k])
  {
    if ranges == [] || EvalOpt(ranges[0].cond, env) != NO {
      k := 0;
    } else {
      k := RangesFrom(ranges[1..], env);
      k := k + 1;
    }
  }

  lemma RangeLaw(cfg: Config, s: Symbol, env: Env)
    ensures forall j: nat :: FirstRange(cfg, s, env, j) ==>
              ActiveRange(cfg.def(s).ranges, env) == Some(cfg.def(s).ranges[j])
    ensures ActiveRange(cfg.def(s).ranges, env).Some? ==> exists j: nat :: FirstRange(cfg, s, env, j)
  {
    var k := RangesFrom(cfg.def(s).ranges, env);
    assert k < |cfg.def(s).ranges| ==> FirstRange(cfg, s, env, k);
    forall j: nat | FirstRange(cfg, s, env, j) ensures j == k {
    }
  }

  /* ----- bool and tristate symbols ----- */

  /** A bool or tristate symbol outside choices is y if it is selected, or if the user says so
      where a prompt is shown, or, without such a user, if the first default that applies does;
      otherwise it is n. */
  lemma TriLaw(cfg: Config, users: Users, V: Valuation, s: Symbol)
    requires Solves(cfg, users, V) && s in cfg.symbols && s.IsTri()
    requires cfg.def(s).members.None? && cfg.def(s).choice.None?
    ensures var env, u := EnvOf(V), users(s);
            V(s).tri == Truth(
              || Selected(cfg, s, env)
              || if u.isSet && Shown(cfg, s, env) then u.tri != NO else OnByDefault(cfg, s, env))
  {
    hide DefaultTri, VisibleOf, Shown, OnByDefault, EnvOf;
    var env := EnvOf(V);
    VisibleLaw(cfg, s, env);
    DefaultTriLaw(cfg, s, env);
    assert V(s).tri == TriOf(cfg, users(s), s, env);
  }

  /** A choice is y if it is selected, or if the user opened it and a prompt is shown, and if then
      some value of it is shown; otherwise it is n. */
  lemma ChoiceLaw(cfg: Config, users: Users, V: Valuation, c: Symbol)
    requires WellFormedConfig(cfg) && WellFormedUsers(cfg, users) && Solves(cfg, users, V)
    requires c in cfg.symbols && cfg.def(c).members.Some?
    ensures var env, u := EnvOf(V), users(c);
            V(c).tri == Truth(
              && (Selected(cfg, c, env) || (u.isSet && u.tri != NO && Shown(cfg, c, env)))
              && exists m :: m in cfg.def(c).members.value && Shown(cfg, m, EnvOf(Opened(V, c))))
  {
    hide VisibleOf, Shown, EnvOf, Opened, ReadsOnly, NamesDistinct;
    var env, u, members := EnvOf(V), users(c), cfg.def(c).members.value;
    var open := EnvOf(Opened(V, c));
    VisibleLaw(cfg, c, env);
    forall m | m in members ensures VisibleOf(cfg, m, open) == Truth(Shown(cfg, m, open)) {
      VisibleLaw(cfg, m, open);
    }
    assert c.IsTri() && cfg.def(c).choice.None?;
    var pick := PickOf(cfg, u, c, open);
    assert pick.Some? ==> pick.value in members && VisibleOf(cfg, pick.value, open) != NO by {
      PickMember(cfg, users, c, open);
    }
    assert pick.None? ==> forall m :: m in members ==> VisibleOf(cfg, m, open) == NO;
  }

  lemma PickMember(cfg: Config, users: Users, c: Symbol, env: Env)
    requires ChoicesLinked(cfg) && WellFormedUsers(cfg, users) && c in cfg.symbols && cfg.def(c).members.Some?
    ensures var pick := PickOf(cfg, users(c), c, env);
            pick.Some? ==> pick.value in cfg.def(c).members.value && VisibleOf(cfg, pick.value, env) != NO
  {
    hide VisibleOf;
  }

  /** A choice value that is shown is y exactly if its choice is and picked it; one that is not
      shown goes by its defaults. */
  lemma MemberLaw(cfg: Config, users: Users, V: Valuation, m: Symbol)
    requires WellFormedConfig(cfg) && Solves(cfg, users, V)
    requires m in cfg.symbols && cfg.def(m).choice.Some?
    ensures var c, env := cfg.def(m).choice.value, EnvOf(V);
            V(m).tri == Truth(
              if Shown(cfg, m, env) then V(c).tri == YES && V(c).pick == Some(m) else OnByDefault(cfg, m, env))
  {
    hide DefaultTri, VisibleOf, Shown, OnByDefault, EnvOf, ReadsOnly, NamesDistinct;
    var c, env := cfg.def(m).choice.value, EnvOf(V);
    VisibleLaw(cfg, m, env);
    DefaultTriLaw(cfg, m, env);
    assert m.IsTri() && cfg.def(m).members.None?;
    if Shown(cfg, m, env) {
      SolutionWellFormed(cfg, users, V);
      MemberNeedsChoice(cfg, m, env);
      SolutionDefinite(cfg, users, V, c);
    }
  }

  /* ----- strings and numbers ----- */

  function NamedStr(e: Expr, V: Valuation): string {
    if e.Leaf? then V(e.sym).str else ""
  }

  /** The value before the range: the user's where a prompt is shown, else that of the symbol that
      the first default that applies names, else nothing. */
  ghost predicate RawIs(cfg: Config, u: UserValue, s: Symbol, V: Valuation, raw: string) {
    if u.isSet && Shown(cfg, s, EnvOf(V)) then raw == u.str
    else
      && (forall j: nat :: FirstActive(cfg, s, EnvOf(V), j) ==> raw == NamedStr(cfg.def(s).defaults[j].expr, V))
      && ((forall j: nat :: !FirstActive(cfg, s, EnvOf(V), j)) ==> raw == "")
  }

  lemma RawLaw(cfg: Config, users: Users, V: Valuation, s: Symbol) returns (raw: string)
    requires Solves(cfg, users, V) && s in cfg.symbols && IsString(s)
    ensures RawIs(cfg, users(s), s, V, raw) && V(s) == Value(NO, Clamp(cfg, s, raw, V), None)
  {
    hide VisibleOf, Shown, EnvOf, Clamp, FirstActive;
    var env := EnvOf(V);
    VisibleLaw(cfg, s, env);
    DefaultLaw(cfg, s, env);
    raw := if VisibleOf(cfg, s, env) != NO && users(s).isSet then users(s).str else DefaultStr(cfg, s, V);
  }

  lemma TextLaw(cfg: Config, users: Users, V: Valuation, s: Symbol)
    requires Solves(cfg, users, V) && s in cfg.symbols && s.Entry? && s.kind.Text?
    ensures RawIs(cfg, users(s), s, V, V(s).str)
  {
    hide RawIs;
    var raw := RawLaw(cfg, users, V, s);
  }

  /** A bound that is a number is read in its own base, another one in that of the symbol. */
  function BaseOf(s: Symbol, bound: Symbol): bool {
    if bound.Entry? && bound.kind.Integer? then false
    else if bound.Entry? && bound.kind.Hexadecimal? then true
    else s.Entry? && s.kind.Hexadecimal?
  }

  /** A number that violates a bound of the first range that applies becomes that bound; the lower
      bound goes first. */
  ghost predicate Ranged(cfg: Config, s: Symbol, V: Valuation, raw: string, str: string, low: Symbol, high: Symbol) {
    var hex := s.Entry? && s.kind.Hexadecimal?;
    var v, l, h := cfg.lib.scan(raw, hex), cfg.lib.scan(V(low).str, BaseOf(s, low)),
                   cfg.lib.scan(V(high).str, BaseOf(s, high));
    str == if v < l then cfg.lib.format(l, hex) else if h < v then cfg.lib.format(h, hex) else raw
  }

  lemma NumberLaw(cfg: Config, users: Users, V: Valuation, s: Symbol) returns (raw: string)
    requires Solves(cfg, users, V) && s in cfg.symbols && IsNumeric(s)
    ensures RawIs(cfg, users(s), s, V, raw)
    ensures forall j: nat :: FirstRange(cfg, s, EnvOf(V), j) ==>
              Ranged(cfg, s, V, raw, V(s).str, cfg.def(s).ranges[j].low, cfg.def(s).ranges[j].high)
    ensures (forall j: nat :: !FirstRange(cfg, s, EnvOf(V), j)) ==> V(s).str == raw
  {
    hide RawIs, FirstRange, EnvOf;
    raw := RawLaw(cfg, users, V, s);
    RangeLaw(cfg, s, EnvOf(V));
  }

  /** A number lies in the first range that applies, if that is not empty and its bounds survive
      printing. */
  lemma NumberInRange(cfg: Config, users: Users, V: Valuation, s: Symbol, j: nat)
    requires Solves(cfg, users, V) && s in cfg.symbols && IsNumeric(s) && FirstRange(cfg, s, EnvOf(V), j)
    requires var r, hex := cfg.def(s).ranges[j], s.kind.Hexadecimal?;
             var l, h := cfg.lib.scan(V(r.low).str, BaseOf(s, r.low)), cfg.lib.scan(V(r.high).str, BaseOf(s, r.high));
             l <= h && cfg.lib.scan(cfg.lib.format(l, hex), hex) == l && cfg.lib.scan(cfg.lib.format(h, hex), hex) == h
    ensures var r := cfg.def(s).ranges[j];
            cfg.lib.scan(V(r.low).str, BaseOf(s, r.low)) <= cfg.lib.scan(V(s).str, s.kind.Hexadecimal?)
            <= cfg.lib.scan(V(r.high).str, BaseOf(s, r.high))
  {
    hide RawIs, FirstRange, EnvOf;
    var raw := NumberLaw(cfg, users, V, s);
  }
}
