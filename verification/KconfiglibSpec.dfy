/** What Kconfiglib's values mean: every symbol's value as an equation over the values of the
    symbols it reads, in a configuration without a MODULES symbol. */
module KconfiglibSpec {
  import opened Exprs
  import opened KconfiglibExprs

  /* ----- symbols and choices ----- */

  datatype DefaultExpr = DefaultExpr(value: Expression, cond: Option<Expression>)

  datatype RangeExpr = RangeExpr(low: Token, high: Token, cond: Option<Expression>)

  datatype ChoiceDefault = ChoiceDefault(sym: Symbol, cond: Option<Expression>)

  /** The static fields of a `Symbol`. A special symbol has its value once and for all. */
  datatype SymbolDef = SymbolDef(
    name: string,
    prompts: seq<Option<Expression>>,
    defaults: seq<DefaultExpr>,
    revDep: Expression,
    ranges: seq<RangeExpr>,
    choice: Option<nat>,
    special: Option<string>,
    defined: bool)

  /** The static fields of a `Choice`; `members` is what `get_symbols` returns. */
  datatype ChoiceDef = ChoiceDef(
    prompts: seq<Option<Expression>>,
    defaults: seq<ChoiceDefault>,
    members: seq<Symbol>,
    optional: bool,
    isTristate: bool)

  /** `_is_base_n`, `int(_, n)`, and `hex` or `str`; the flag selects base 16. */
  datatype Library = Library(isBase: (string, bool) -> bool, scan: (string, bool) -> int, format: (int, bool) -> string)

  datatype Config = Config(
    syms: set<Symbol>,
    choices: set<nat>,
    sym: Symbol -> SymbolDef,
    choice: nat -> ChoiceDef,
    modules: Option<Symbol>,
    lib: Library)

  /** The values that users gave to symbols, and the selections and modes they gave to choices. */
  datatype Users = Users(val: map<Symbol, string>, pick: map<nat, Symbol>, mode: map<nat, Tristate>)

  type Valuation = Symbol -> string

  function TriFrom(s: string): Tristate {
    if s == "y" then YES else if s == "m" then MOD else NO
  }

  function EnvOf(V: Valuation): Env {
    Env(s => TriFrom(V(s)), V)
  }

  /** `_eval_expr`. */
  function EvalOf(e: Option<Expression>, env: Env): Tristate {
    Promote(ValueOpt(e, env), false)
  }

  function Min(a: Tristate, b: Tristate): Tristate {
    And.Apply(Promote(a, false), Promote(b, false))
  }

  function Max(a: Tristate, b: Tristate): Tristate {
    Or.Apply(Promote(a, false), Promote(b, false))
  }

  predicate IsNumber(s: Symbol) {
    s.Entry? && (s.kind.Integer? || s.kind.Hexadecimal?)
  }

  predicate IsText(s: Symbol) {
    s.Entry? && s.kind.Text?
  }

  /* ----- visibility, mode and selection ----- */

  function VisFrom(vis: Tristate, prompts: seq<Option<Expression>>, env: Env): Tristate
    decreases |prompts|
  {
    if prompts == [] then vis else VisFrom(Max(vis, ValueOpt(prompts[0], env)), prompts[1..], env)
  }

  function ChoiceVis(cfg: Config, c: nat, env: Env): Tristate {
    var vis := VisFrom(NO, cfg.choice(c).prompts, env);
    if vis == MOD && !cfg.choice(c).isTristate then YES else vis
  }

  function SymVis(cfg: Config, s: Symbol, env: Env): Tristate {
    var d := cfg.sym(s);
    var own := VisFrom(NO, d.prompts, env);
    var vis := if d.choice.Some? then Min(own, ChoiceVis(cfg, d.choice.value, env)) else own;
    if vis == MOD && !s.IsTristate() then YES else vis
  }

  function ModeOf(cfg: Config, users: Users, c: nat, env: Env): Tristate {
    var least: Tristate := if cfg.choice(c).optional then NO else MOD;
    var mode := Min(if c in users.mode then users.mode[c] else least, ChoiceVis(cfg, c, env));
    if mode == MOD && !cfg.choice(c).isTristate then YES else mode
  }

  function ActiveDefault(defaults: seq<ChoiceDefault>, env: Env): Option<Symbol> {
    if defaults == [] then None
    else if EvalOf(defaults[0].cond, env) != NO then Some(defaults[0].sym)
    else ActiveDefault(defaults[1..], env)
  }

  function FirstVisible(cfg: Config, members: seq<Symbol>, env: Env): Option<Symbol> {
    if members == [] then None
    else if SymVis(cfg, members[0], env) != NO then Some(members[0])
    else FirstVisible(cfg, members[1..], env)
  }

  /** `get_selection_from_defaults`. */
  function DefaultSelection(cfg: Config, c: nat, env: Env): Option<Symbol> {
    var d := cfg.choice(c);
    if d.members == [] then None
    else
      var first := ActiveDefault(d.defaults, env);
      var chosen := if first.Some? then first.value else d.members[0];
      if SymVis(cfg, chosen, env) != NO then Some(chosen) else FirstVisible(cfg, d.members, env)
  }

  /** `get_selection`. */
  function SelectionOf(cfg: Config, users: Users, c: nat, env: Env): Option<Symbol> {
    if ModeOf(cfg, users, c, env) != YES then None
    else if c in users.pick && SymVis(cfg, users.pick[c], env) == YES then Some(users.pick[c])
    else if cfg.choice(c).optional then None
    else DefaultSelection(cfg, c, env)
  }

  /* ----- values ----- */

  function DefaultTri(defaults: seq<DefaultExpr>, env: Env): Tristate {
    if defaults == [] then NO
    else if EvalOf(defaults[0].cond, env) != NO then
      Min(Value(defaults[0].value, env), EvalOf(defaults[0].cond, env))
    else DefaultTri(defaults[1..], env)
  }

  /** `get_value` for a bool or tristate member of a choice. */
  function MemberTri(cfg: Config, users: Users, s: Symbol, c: nat, env: Env): Tristate {
    if SymVis(cfg, s, env) == NO then NO
    else
      var mode := ModeOf(cfg, users, c, env);
      if mode == YES then Truth(SelectionOf(cfg, users, c, env) == Some(s))
      else if mode == MOD && s in users.val && (users.val[s] == "m" || users.val[s] == "y") then MOD
      else NO
  }

  /** `get_value` for any other bool or tristate symbol. */
  function OwnTri(cfg: Config, users: Users, s: Symbol, env: Env): Tristate {
    var vis := SymVis(cfg, s, env);
    var base := if vis != NO && s in users.val then Min(TriFrom(users.val[s]), vis)
                else DefaultTri(cfg.sym(s).defaults, env);
    var rev := EvalOf(Some(cfg.sym(s).revDep), env);
    if rev != NO then Max(base, rev) else base
  }

  function TriOf(cfg: Config, users: Users, s: Symbol, env: Env): Tristate {
    var c := cfg.sym(s).choice;
    var v := if c.Some? then MemberTri(cfg, users, s, c.value, env) else OwnTri(cfg, users, s, env);
    if v == MOD && s.IsBool() then YES else v
  }

  /** `_str_val` of a default; only symbols and strings have one. */
  function ExprStr(e: Expression, env: Env): string {
    if e.Atom? then StrVal(e.item, env) else ""
  }

  function DefaultStr(defaults: seq<DefaultExpr>, env: Env): string {
    if defaults == [] then ""
    else if EvalOf(defaults[0].cond, env) != NO then ExprStr(defaults[0].value, env)
    else DefaultStr(defaults[1..], env)
  }

  datatype Bounds = Bounds(low: int, high: int)

  function BoundOf(lib: Library, t: Token, hex: bool, env: Env): int {
    if lib.isBase(StrVal(t, env), hex) then lib.scan(StrVal(t, env), hex) else 0
  }

  function BoundsOf(lib: Library, ranges: seq<RangeExpr>, hex: bool, env: Env): Option<Bounds> {
    if ranges == [] then None
    else if EvalOf(ranges[0].cond, env) != NO then
      Some(Bounds(BoundOf(lib, ranges[0].low, hex, env), BoundOf(lib, ranges[0].high, hex, env)))
    else BoundsOf(lib, ranges[1..], hex, env)
  }

  function ClampStr(lib: Library, v: string, bounds: Option<Bounds>, hex: bool): string {
    if bounds.None? then v
    else if lib.scan(v, hex) < bounds.value.low then lib.format(bounds.value.low, hex)
    else if lib.scan(v, hex) > bounds.value.high then lib.format(bounds.value.high, hex)
    else v
  }

  /** A default that is no number is passed over, but stays if nothing better follows. */
  function DefaultNum(lib: Library, v: string, defaults: seq<DefaultExpr>, bounds: Option<Bounds>, hex: bool,
                      env: Env): string
    decreases |defaults|
  {
    if defaults == [] then
      if bounds.Some? && bounds.value.low > 0 then lib.format(bounds.value.low, hex) else v
    else if EvalOf(defaults[0].cond, env) != NO then
      var w := ExprStr(defaults[0].value, env);
      if lib.isBase(w, hex) then ClampStr(lib, w, bounds, hex)
      else DefaultNum(lib, w, defaults[1..], bounds, hex, env)
    else DefaultNum(lib, v, defaults[1..], bounds, hex, env)
  }

  predicate NumberOk(lib: Library, v: string, bounds: Option<Bounds>, hex: bool) {
    lib.isBase(v, hex) && (bounds.Some? ==> bounds.value.low <= lib.scan(v, hex) <= bounds.value.high)
  }

  /** `get_value`. */
  function ValueOf(cfg: Config, users: Users, s: Symbol, env: Env): string {
    var d, vis := cfg.sym(s), SymVis(cfg, s, env);
    if d.special.Some? then d.special.value
    else if s.IsTri() then TriName(TriOf(cfg, users, s, env))
    else if IsText(s) then
      if vis != NO && s in users.val then users.val[s] else DefaultStr(d.defaults, env)
    else if IsNumber(s) then
      var hex := s.kind.Hexadecimal?;
      var bounds := BoundsOf(cfg.lib, d.ranges, hex, env);
      if vis != NO && s in users.val && NumberOk(cfg.lib, users.val[s], bounds, hex) then users.val[s]
      else DefaultNum(cfg.lib, "", d.defaults, bounds, hex, env)
    else d.name
  }

  /** A valuation that satisfies the equation of every symbol. */
  ghost predicate Solves(cfg: Config, users: Users, V: Valuation) {
    && (forall s: Symbol :: s in cfg.syms ==> V(s) == ValueOf(cfg, users, s, EnvOf(V)))
    && (forall s: Symbol :: s !in cfg.syms ==> V(s) == cfg.sym(s).name)
  }

  /* ----- which symbols a symbol reads ----- */

  function TokenSyms(t: Token): set<Symbol> {
    if t.Sym? then {t.sym} else {}
  }

  /** `_get_expr_syms`. */
  function ExprSyms(e: Expression): set<Symbol>
    decreases e
  {
    match e
    case Atom(t) => TokenSyms(t)
    case Rel(_, l, r) => TokenSyms(l) + if r.Some? then TokenSyms(r.value) else {}
    case Inverse(a) => ExprSyms(a)
    case List(_, es) => ListSyms(es)
  }

  function ListSyms(es: seq<Expression>): set<Symbol>
    decreases es
  {
    if es == [] then {} else ExprSyms(es[0]) + ListSyms(es[1..])
  }

  function OptSyms(e: Option<Expression>): set<Symbol> {
    if e.None? then {} else ExprSyms(e.value)
  }

  function PromptSyms(prompts: seq<Option<Expression>>): set<Symbol> {
    if prompts == [] then {} else OptSyms(prompts[0]) + PromptSyms(prompts[1..])
  }

  function DefaultSyms(defaults: seq<DefaultExpr>): set<Symbol> {
    if defaults == [] then {}
    else ExprSyms(defaults[0].value) + OptSyms(defaults[0].cond) + DefaultSyms(defaults[1..])
  }

  function RangeSyms(ranges: seq<RangeExpr>): set<Symbol> {
    if ranges == [] then {}
    else TokenSyms(ranges[0].low) + TokenSyms(ranges[0].high) + OptSyms(ranges[0].cond) + RangeSyms(ranges[1..])
  }

  function ChoiceDefaultSyms(defaults: seq<ChoiceDefault>): set<Symbol> {
    if defaults == [] then {} else OptSyms(defaults[0].cond) + ChoiceDefaultSyms(defaults[1..])
  }

  function ChoiceSyms(cfg: Config, c: nat): set<Symbol> {
    PromptSyms(cfg.choice(c).prompts) + ChoiceDefaultSyms(cfg.choice(c).defaults)
  }

  /** The symbols to whose `dep` sets `_build_dep` adds `s`. */
  function SymReads(cfg: Config, s: Symbol): set<Symbol> {
    var d := cfg.sym(s);
    PromptSyms(d.prompts) + DefaultSyms(d.defaults) + ExprSyms(d.revDep) + RangeSyms(d.ranges)
    + if d.choice.Some? then ChoiceSyms(cfg, d.choice.value) else {}
  }

  /** The symbols of the same choice, or just the symbol. */
  function Group(cfg: Config, s: Symbol): set<Symbol> {
    if cfg.sym(s).choice.Some? then set m | m in cfg.choice(cfg.sym(s).choice.value).members else {s}
  }

  /** The symbols that decide about `s`: those of its choice, with the symbols that the defaults of
      the choice name. */
  function Wide(cfg: Config, s: Symbol): set<Symbol> {
    if cfg.sym(s).choice.Some? then Group(cfg, s) + Targets(cfg, cfg.sym(s).choice.value) else {s}
  }

  function Targets(cfg: Config, c: nat): set<Symbol> {
    set d | d in cfg.choice(c).defaults :: d.sym
  }

  /** Choices and their members refer to each other, and expressions and choice defaults mention
      only symbols of the configuration. */
  ghost predicate WellFormedConfig(cfg: Config) {
    && (forall s :: s in cfg.syms ==> SymReads(cfg, s) <= cfg.syms)
    && (forall s :: s in cfg.syms && cfg.sym(s).choice.Some? ==>
          cfg.sym(s).choice.value in cfg.choices && s in cfg.choice(cfg.sym(s).choice.value).members)
    && (forall c, m :: c in cfg.choices && m in cfg.choice(c).members ==> m in cfg.syms && cfg.sym(m).choice == Some(c))
    && (forall c :: c in cfg.choices ==> Targets(cfg, c) <= cfg.syms)
    && (cfg.modules.Some? ==> cfg.modules.value in cfg.syms && !cfg.sym(cfg.modules.value).defined
                              && cfg.sym(cfg.modules.value).choice.None?)
  }

  predicate DefaultsInside(cfg: Config, c: nat) {
    forall d :: d in cfg.choice(c).defaults ==> d.sym in cfg.choice(c).members
  }

  /** No member of the choice, and nothing that its defaults name, is special. */
  ghost predicate Orderly(cfg: Config, c: nat) {
    forall m :: m in cfg.choice(c).members || m in Targets(cfg, c) ==> cfg.sym(m).special.None?
  }

  type Rank = Symbol -> nat

  /** No symbol depends on itself when every choice counts as one node with its members; what the
      defaults of a choice name does not depend on the choice. */
  ghost predicate Ranked(cfg: Config, rank: Rank) {
    && (forall s, t :: s in cfg.syms && t in SymReads(cfg, s) ==> rank(t) < rank(s))
    && (forall s, t :: s in cfg.syms && t in Group(cfg, s) ==> rank(t) == rank(s))
    && (forall s, t :: s in cfg.syms && t in Wide(cfg, s) ==> rank(t) <= rank(s))
  }

  /** The picks and modes of users concern members. */
  ghost predicate WellFormedUsers(cfg: Config, users: Users) {
    forall c :: c in cfg.choices && c in users.pick ==> users.pick[c] in cfg.choice(c).members
  }

  /* ----- locality ----- */

  ghost predicate AgreeOn(V: Valuation, W: Valuation, ok: set<Symbol>) {
    forall s :: s in ok ==> V(s) == W(s)
  }

  lemma StrLocal(t: Token, V: Valuation, W: Valuation)
    requires AgreeOn(V, W, TokenSyms(t))
    ensures StrVal(t, EnvOf(V)) == StrVal(t, EnvOf(W)) && ItemVal(t, EnvOf(V)) == ItemVal(t, EnvOf(W))
  {
    if t.Sym? {
      assert t.sym in TokenSyms(t);
    }
  }

  lemma {:induction false} ExprLocal(e: Expression, V: Valuation, W: Valuation)
    requires AgreeOn(V, W, ExprSyms(e))
    ensures Value(e, EnvOf(V)) == Value(e, EnvOf(W))
    decreases e, 0
  {
    match e
    case Atom(t) =>
      StrLocal(t, V, W);
    case Rel(_, l, r) =>
      StrLocal(l, V, W);
      if r.Some? {
        StrLocal(r.value, V, W);
      }
    case Inverse(a) =>
      ExprLocal(a, V, W);
    case List(op, es) =>
      ListLocal(op, es, V, W);
  }

  lemma {:induction false} ListLocal(op: Op, es: seq<Expression>, V: Valuation, W: Valuation)
    requires AgreeOn(V, W, ListSyms(es))
    ensures Fold(op, es, EnvOf(V)) == Fold(op, es, EnvOf(W))
    decreases es, 0
  {
    if es != [] {
      ExprLocal(es[0], V, W);
      ListLocal(op, es[1..], V, W);
    }
  }

  lemma OptLocal(e: Option<Expression>, V: Valuation, W: Valuation)
    requires AgreeOn(V, W, OptSyms(e))
    ensures ValueOpt(e, EnvOf(V)) == ValueOpt(e, EnvOf(W))
  {
    if e.Some? {
      ExprLocal(e.value, V, W);
    }
  }

  lemma {:induction false} VisLocal(vis: Tristate, prompts: seq<Option<Expression>>, V: Valuation, W: Valuation)
    requires AgreeOn(V, W, PromptSyms(prompts))
    ensures VisFrom(vis, prompts, EnvOf(V)) == VisFrom(vis, prompts, EnvOf(W))
    decreases |prompts|
  {
    if prompts != [] {
      OptLocal(prompts[0], V, W);
      VisLocal(Max(vis, ValueOpt(prompts[0], EnvOf(V))), prompts[1..], V, W);
    }
  }

  lemma {:induction false} DefaultsLocal(lib: Library, v: string, defaults: seq<DefaultExpr>, bounds: Option<Bounds>,
                                         hex: bool, V: Valuation, W: Valuation)
    requires AgreeOn(V, W, DefaultSyms(defaults))
    ensures DefaultTri(defaults, EnvOf(V)) == DefaultTri(defaults, EnvOf(W))
    ensures DefaultStr(defaults, EnvOf(V)) == DefaultStr(defaults, EnvOf(W))
    ensures DefaultNum(lib, v, defaults, bounds, hex, EnvOf(V)) == DefaultNum(lib, v, defaults, bounds, hex, EnvOf(W))
    decreases |defaults|
  {
    if defaults != [] {
      var d := defaults[0];
      OptLocal(d.cond, V, W);
      ExprLocal(d.value, V, W);
      if d.value.Atom? {
        StrLocal(d.value.item, V, W);
      }
      DefaultsLocal(lib, v, defaults[1..], bounds, hex, V, W);
      DefaultsLocal(lib, ExprStr(d.value, EnvOf(V)), defaults[1..], bounds, hex, V, W);
    }
  }

  lemma {:induction false} BoundsLocal(lib: Library, ranges: seq<RangeExpr>, hex: bool, V: Valuation, W: Valuation)
    requires AgreeOn(V, W, RangeSyms(ranges))
    ensures BoundsOf(lib, ranges, hex, EnvOf(V)) == BoundsOf(lib, ranges, hex, EnvOf(W))
  {
    if ranges != [] {
      OptLocal(ranges[0].cond, V, W);
      StrLocal(ranges[0].low, V, W);
      StrLocal(ranges[0].high, V, W);
      BoundsLocal(lib, ranges[1..], hex, V, W);
    }
  }

  lemma {:induction false} ChoiceDefaultLocal(defaults: seq<ChoiceDefault>, V: Valuation, W: Valuation)
    requires AgreeOn(V, W, ChoiceDefaultSyms(defaults))
    ensures ActiveDefault(defaults, EnvOf(V)) == ActiveDefault(defaults, EnvOf(W))
  {
    if defaults != [] {
      OptLocal(defaults[0].cond, V, W);
      ChoiceDefaultLocal(defaults[1..], V, W);
    }
  }

  lemma ChoiceVisLocal(cfg: Config, c: nat, V: Valuation, W: Valuation)
    requires AgreeOn(V, W, ChoiceSyms(cfg, c))
    ensures ChoiceVis(cfg, c, EnvOf(V)) == ChoiceVis(cfg, c, EnvOf(W))
  {
    VisLocal(NO, cfg.choice(c).prompts, V, W);
  }

  lemma SymVisLocal(cfg: Config, s: Symbol, V: Valuation, W: Valuation)
    requires AgreeOn(V, W, SymReads(cfg, s))
    ensures SymVis(cfg, s, EnvOf(V)) == SymVis(cfg, s, EnvOf(W))
  {
    VisLocal(NO, cfg.sym(s).prompts, V, W);
    if cfg.sym(s).choice.Some? {
      ChoiceVisLocal(cfg, cfg.sym(s).choice.value, V, W);
    }
  }

  lemma {:induction false} FirstVisibleLocal(cfg: Config, members: seq<Symbol>, V: Valuation, W: Valuation)
    requires forall m :: m in members ==> AgreeOn(V, W, SymReads(cfg, m))
    ensures FirstVisible(cfg, members, EnvOf(V)) == FirstVisible(cfg, members, EnvOf(W))
  {
    if members != [] {
      SymVisLocal(cfg, members[0], V, W);
      FirstVisibleLocal(cfg, members[1..], V, W);
    }
  }

  /** The users agree about a choice. */
  predicate SameChoice(u: Users, w: Users, c: nat) {
    && (c in u.pick <==> c in w.pick) && (c in u.pick ==> u.pick[c] == w.pick[c])
    && (c in u.mode <==> c in w.mode) && (c in u.mode ==> u.mode[c] == w.mode[c])
  }

  predicate SameSymbol(u: Users, w: Users, s: Symbol) {
    (s in u.val <==> s in w.val) && (s in u.val ==> u.val[s] == w.val[s])
  }

  lemma {:induction false} ActiveInside(defaults: seq<ChoiceDefault>, env: Env)
    ensures ActiveDefault(defaults, env).Some? ==>
              exists d :: d in defaults && d.sym == ActiveDefault(defaults, env).value
  {
    if defaults != [] {
      ActiveInside(defaults[1..], env);
      assert defaults[0] in defaults;
      assert forall d :: d in defaults[1..] ==> d in defaults;
    }
  }

  /** Mode and selection of a choice with members depend on what its members, and the symbols that
      its defaults name, read. */
  lemma SelectionLocal(cfg: Config, u: Users, w: Users, c: nat, V: Valuation, W: Valuation)
    requires WellFormedConfig(cfg) && c in cfg.choices && cfg.choice(c).members != []
    requires WellFormedUsers(cfg, u) && SameChoice(u, w, c)
    requires forall m :: m in cfg.choice(c).members || m in Targets(cfg, c) ==> AgreeOn(V, W, SymReads(cfg, m))
    ensures ChoiceVis(cfg, c, EnvOf(V)) == ChoiceVis(cfg, c, EnvOf(W))
    ensures ModeOf(cfg, u, c, EnvOf(V)) == ModeOf(cfg, w, c, EnvOf(W))
    ensures SelectionOf(cfg, u, c, EnvOf(V)) == SelectionOf(cfg, w, c, EnvOf(W))
  {
    hide SymVis, ChoiceVis, EnvOf, FirstVisible, ActiveDefault, SymReads, Targets;
    var d := cfg.choice(c);
    MemberReads(cfg, c, V, W);
    ChoiceVisLocal(cfg, c, V, W);
    ChoiceDefaultLocal(d.defaults, V, W);
    ChosenInside(cfg, c, EnvOf(V));
    forall m | m in d.members || m in Targets(cfg, c) ensures SymVis(cfg, m, EnvOf(V)) == SymVis(cfg, m, EnvOf(W)) {
      SymVisLocal(cfg, m, V, W);
    }
    FirstVisibleLocal(cfg, d.members, V, W);
  }

  lemma MemberReads(cfg: Config, c: nat, V: Valuation, W: Valuation)
    requires WellFormedConfig(cfg) && c in cfg.choices && cfg.choice(c).members != []
    requires forall m :: m in cfg.choice(c).members ==> AgreeOn(V, W, SymReads(cfg, m))
    ensures AgreeOn(V, W, ChoiceSyms(cfg, c))
  {
    var m := cfg.choice(c).members[0];
    assert m in cfg.choice(c).members && cfg.sym(m).choice == Some(c);
    assert ChoiceSyms(cfg, c) <= SymReads(cfg, m);
  }

  lemma ChosenInside(cfg: Config, c: nat, env: Env)
    requires cfg.choice(c).members != []
    ensures var first := ActiveDefault(cfg.choice(c).defaults, env);
            var chosen := if first.Some? then first.value else cfg.choice(c).members[0];
            chosen in cfg.choice(c).members || chosen in Targets(cfg, c)
  {
    ActiveInside(cfg.choice(c).defaults, env);
  }

  predicate IsHex(s: Symbol) {
    s.Entry? && s.kind.Hexadecimal?
  }

  lemma OptEval(e: Option<Expression>, V: Valuation, W: Valuation)
    requires AgreeOn(V, W, OptSyms(e))
    ensures EvalOf(e, EnvOf(V)) == EvalOf(e, EnvOf(W))
  {
    OptLocal(e, V, W);
  }

  lemma TriLocal(cfg: Config, u: Users, w: Users, s: Symbol, V: Valuation, W: Valuation)
    requires WellFormedConfig(cfg) && s in cfg.syms && WellFormedUsers(cfg, u) && SameSymbol(u, w, s)
    requires cfg.sym(s).choice.Some? ==> SameChoice(u, w, cfg.sym(s).choice.value)
    requires forall m :: m in Wide(cfg, s) ==> AgreeOn(V, W, SymReads(cfg, m))
    ensures TriOf(cfg, u, s, EnvOf(V)) == TriOf(cfg, w, s, EnvOf(W))
  {
    hide MemberTri, OwnTri, EnvOf, WellFormedUsers, SameChoice, SymReads;
    var d := cfg.sym(s);
    SelfInGroup(cfg, s);
    SymVisLocal(cfg, s, V, W);
    if d.choice.Some? {
      SelectionLocal(cfg, u, w, d.choice.value, V, W);
      MemberLocal(cfg, u, w, s, d.choice.value, V, W);
    } else {
      OwnLocal(cfg, u, w, s, V, W);
    }
  }

  lemma MemberLocal(cfg: Config, u: Users, w: Users, s: Symbol, c: nat, V: Valuation, W: Valuation)
    requires SameSymbol(u, w, s)
    requires SymVis(cfg, s, EnvOf(V)) == SymVis(cfg, s, EnvOf(W))
    requires ModeOf(cfg, u, c, EnvOf(V)) == ModeOf(cfg, w, c, EnvOf(W))
    requires SelectionOf(cfg, u, c, EnvOf(V)) == SelectionOf(cfg, w, c, EnvOf(W))
    ensures MemberTri(cfg, u, s, c, EnvOf(V)) == MemberTri(cfg, w, s, c, EnvOf(W))
  {
    hide SymVis, ModeOf, SelectionOf, EnvOf;
  }

  lemma OwnLocal(cfg: Config, u: Users, w: Users, s: Symbol, V: Valuation, W: Valuation)
    requires SameSymbol(u, w, s) && AgreeOn(V, W, SymReads(cfg, s))
    ensures OwnTri(cfg, u, s, EnvOf(V)) == OwnTri(cfg, w, s, EnvOf(W))
  {
    hide SymVis, EnvOf, EvalOf, DefaultTri, DefaultStr, DefaultNum;
    SymVisLocal(cfg, s, V, W);
    DefaultsLocal(cfg.lib, "", cfg.sym(s).defaults, None, false, V, W);
    OptEval(Some(cfg.sym(s).revDep), V, W);
  }

  lemma NumberLocal(cfg: Config, s: Symbol, V: Valuation, W: Valuation)
    requires AgreeOn(V, W, SymReads(cfg, s))
    ensures var d, hex := cfg.sym(s), IsHex(s);
            var bounds := BoundsOf(cfg.lib, d.ranges, hex, EnvOf(V));
            bounds == BoundsOf(cfg.lib, d.ranges, hex, EnvOf(W))
            && DefaultNum(cfg.lib, "", d.defaults, bounds, hex, EnvOf(V))
               == DefaultNum(cfg.lib, "", d.defaults, bounds, hex, EnvOf(W))
            && DefaultStr(d.defaults, EnvOf(V)) == DefaultStr(d.defaults, EnvOf(W))
  {
    hide DefaultNum, DefaultStr, BoundsOf, EnvOf;
    var d, hex := cfg.sym(s), IsHex(s);
    BoundsLocal(cfg.lib, d.ranges, hex, V, W);
    DefaultsLocal(cfg.lib, "", d.defaults, BoundsOf(cfg.lib, d.ranges, hex, EnvOf(V)), hex, V, W);
  }

  /** The value of a symbol depends on what the symbols that decide about it read. */
  lemma ValueLocal(cfg: Config, u: Users, w: Users, s: Symbol, V: Valuation, W: Valuation)
    requires WellFormedConfig(cfg) && s in cfg.syms && WellFormedUsers(cfg, u) && SameSymbol(u, w, s)
    requires cfg.sym(s).choice.Some? ==> SameChoice(u, w, cfg.sym(s).choice.value)
    requires forall m :: m in Wide(cfg, s) ==> AgreeOn(V, W, SymReads(cfg, m))
    ensures ValueOf(cfg, u, s, EnvOf(V)) == ValueOf(cfg, w, s, EnvOf(W))
  {
    hide SymVis, TriOf, DefaultStr, DefaultNum, BoundsOf, WellFormedUsers, EnvOf, SymReads, NumberOk, SameChoice;
    SelfInGroup(cfg, s);
    SymVisLocal(cfg, s, V, W);
    NumberLocal(cfg, s, V, W);
    TriLocal(cfg, u, w, s, V, W);
  }

  lemma SelfInGroup(cfg: Config, s: Symbol)
    requires WellFormedConfig(cfg) && s in cfg.syms
    ensures s in Group(cfg, s) && Group(cfg, s) <= Wide(cfg, s)
  {
  }
}
