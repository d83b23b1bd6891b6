/** What a configuration means: the value of every symbol as one equation over the values of
    the symbols it reads. There is no modules symbol, as in Buildroot, so `modules_val` is n
    throughout and every tristate symbol is treated as a bool one. */
module SymbolSpec {
  import opened Exprs
  import opened ExprTransformation

  /* ----- the static part of a symbol ----- */

  datatype Default = Default(expr: Expr, cond: Option<Expr>)

  datatype Range = Range(low: Symbol, high: Symbol, cond: Option<Expr>)

  /** The properties of a symbol: prompts (`P_PROMPT`, `P_MENU`), defaults and ranges in
      order, direct and reverse dependencies, and its role in a choice. */
  datatype Definition = Definition(
    prompts: seq<Option<Expr>>,
    defaults: seq<Default>,
    ranges: seq<Range>,
    dirDep: Option<Expr>,
    revDep: Option<Expr>,
    members: Option<seq<Symbol>>,
    choice: Option<Symbol>,
    optional: bool,
    auto: bool)

  /** `strtoll` and the two `sprintf` formats of `sym_validate_range`; the flag selects base 16. */
  datatype Library = Library(scan: (string, bool) -> int, format: (int, bool) -> string)

  datatype Config = Config(
    symbols: set<Symbol>,
    name: Symbol -> string,
    def: Symbol -> Definition,
    lib: Library)

  /* ----- values ----- */

  /** `sym->curr`: the pick is what `curr.val` holds for a choice. */
  datatype Value = Value(tri: Tristate, str: string, pick: Option<Symbol>)

  /** `sym->def[S_DEF_USER]` with the flag `SYMBOL_DEF_USER`. */
  datatype UserValue = UserValue(isSet: bool, tri: Tristate, str: string, pick: Option<Symbol>)

  type Valuation = Symbol -> Value

  type Users = Symbol -> UserValue

  /** m counts as y, because there is no modules symbol. */
  function Promote(t: Tristate): Tristate {
    if t == MOD then YES else t
  }

  /** `sym_get_string_value`. */
  function StringOf(s: Symbol, v: Value): string {
    if s.IsTri() then (if v.tri == YES then "y" else "n") else v.str
  }

  function EnvOf(V: Valuation): Env {
    Env(s => V(s).tri, s => StringOf(s, V(s)))
  }

  predicate IsNumeric(s: Symbol) {
    s.Entry? && (s.kind.Integer? || s.kind.Hexadecimal?)
  }

  predicate IsString(s: Symbol) {
    IsNumeric(s) || (s.Entry? && s.kind.Text?)
  }

  /* ----- the equation of one symbol ----- */

  /** The maximum over the prompts, before promotion. */
  function RawVisible(prompts: seq<Option<Expr>>, env: Env): Tristate {
    if prompts == [] then NO
    else Or.Apply(RawVisible(prompts[..|prompts| - 1], env), EvalOpt(prompts[|prompts| - 1], env))
  }

  /** `sym->visible` as `sym_calc_visibility` computes it. */
  function VisibleOf(cfg: Config, s: Symbol, env: Env): Tristate {
    Promote(RawVisible(cfg.def(s).prompts, env))
  }

  /** `sym->rev_dep.tri`; it is never computed for a choice value. */
  function RevTriOf(cfg: Config, s: Symbol, env: Env): Tristate {
    var d := cfg.def(s);
    if d.choice.Some? || d.revDep.None? then NO
    else if s.IsTri() then Promote(Eval(d.revDep.value, env))
    else Eval(d.revDep.value, env)
  }

  /** `sym_get_default_prop`: the first default whose condition is not n. */
  function ActiveDefault(defaults: seq<Default>, env: Env): (r: Option<Default>)
    ensures r.Some? ==> r.value in defaults && EvalOpt(r.value.cond, env) != NO
  {
    if defaults == [] then None
    else if EvalOpt(defaults[0].cond, env) != NO then Some(defaults[0])
    else ActiveDefault(defaults[1..], env)
  }

  /** `sym_get_range_prop`. */
  function ActiveRange(ranges: seq<Range>, env: Env): (r: Option<Range>)
    ensures r.Some? ==> r.value in ranges
  {
    if ranges == [] then None
    else if EvalOpt(ranges[0].cond, env) != NO then Some(ranges[0])
    else ActiveRange(ranges[1..], env)
  }

  /** What the defaults give a bool or tristate symbol. */
  function DefaultTri(cfg: Config, s: Symbol, env: Env): Tristate {
    var d := ActiveDefault(cfg.def(s).defaults, env);
    if d.None? then NO else And.Apply(Eval(d.value.expr, env), EvalOpt(d.value.cond, env))
  }

  /** The tristate value of a symbol that no visible choice decides. */
  function TriOf(cfg: Config, u: UserValue, s: Symbol, env: Env): Tristate {
    var visible := VisibleOf(cfg, s, env);
    var base := if visible != NO && u.isSet then And.Apply(u.tri, visible)
                else if cfg.def(s).members.Some? then NO
                else DefaultTri(cfg, s, env);
    Promote(Or.Apply(base, RevTriOf(cfg, s, env)))
  }

  /** What the defaults give a string, int or hex symbol: the value of the named symbol. */
  function DefaultStr(cfg: Config, s: Symbol, V: Valuation): string {
    var d := ActiveDefault(cfg.def(s).defaults, EnvOf(V));
    if d.Some? && d.value.expr.Leaf? then V(d.value.expr.sym).str else ""
  }

  /** Whether a bound of a range of `s` is read in base 16: by its own type if it is a number,
      else by the type of `s`. */
  predicate IsHex(s: Symbol, bound: Symbol) {
    if IsNumeric(bound) then bound.kind.Hexadecimal? else s.Entry? && s.kind.Hexadecimal?
  }

  /** `sym_get_range_val`. */
  function BoundOf(cfg: Config, s: Symbol, bound: Symbol, V: Valuation): int {
    cfg.lib.scan(V(bound).str, IsHex(s, bound))
  }

  /** `sym_validate_range`. */
  function Clamp(cfg: Config, s: Symbol, str: string, V: Valuation): string {
    var r := ActiveRange(cfg.def(s).ranges, EnvOf(V));
    if !IsNumeric(s) || r.None? then str
    else
      var hex := s.kind.Hexadecimal?;
      var v := cfg.lib.scan(str, hex);
      var low, high := BoundOf(cfg, s, r.value.low, V), BoundOf(cfg, s, r.value.high, V);
      if v < low then cfg.lib.format(low, hex)
      else if high < v then cfg.lib.format(high, hex)
      else str
  }

  function StrOf(cfg: Config, u: UserValue, s: Symbol, V: Valuation): string {
    Clamp(cfg, s,
          if VisibleOf(cfg, s, EnvOf(V)) != NO && u.isSet then u.str else DefaultStr(cfg, s, V),
          V)
  }

  function FirstVisible(cfg: Config, members: seq<Symbol>, env: Env): (r: Option<Symbol>)
    ensures r.Some? ==> r.value in members && VisibleOf(cfg, r.value, env) != NO
    ensures r.None? ==> forall m :: m in members ==> VisibleOf(cfg, m, env) == NO
  {
    if members == [] then None
    else if VisibleOf(cfg, members[0], env) != NO then Some(members[0])
    else FirstVisible(cfg, members[1..], env)
  }

  /** The first choice default that applies and whose symbol is visible. */
  function FirstDefault(cfg: Config, defaults: seq<Default>, env: Env): (r: Option<Symbol>)
    ensures r.Some? ==> VisibleOf(cfg, r.value, env) != NO
                        && exists d :: d in defaults && d.expr == Leaf(r.value)
  {
    if defaults == [] then None
    else
      var d := defaults[0];
      if EvalOpt(d.cond, env) != NO && d.expr.Leaf? && VisibleOf(cfg, d.expr.sym, env) != NO then Some(d.expr.sym)
      else FirstDefault(cfg, defaults[1..], env)
  }

  /** `sym_choice_default`. */
  function ChoiceDefault(cfg: Config, c: Symbol, env: Env): Option<Symbol>
    requires cfg.def(c).members.Some?
  {
    var d := FirstDefault(cfg, cfg.def(c).defaults, env);
    if d.Some? then d else FirstVisible(cfg, cfg.def(c).members.value, env)
  }

  /** `sym_calc_choice`: the user's pick if it is visible, else the default. */
  function PickOf(cfg: Config, u: UserValue, c: Symbol, env: Env): Option<Symbol>
    requires cfg.def(c).members.Some?
  {
    if u.pick.Some? && VisibleOf(cfg, u.pick.value, env) != NO then u.pick
    else ChoiceDefault(cfg, c, env)
  }

  function Update<T>(f: Symbol -> T, s: Symbol, v: T): Symbol -> T {
    t => if t == s then v else f(t)
  }

  /** The values as they stand while a choice at y looks for its pick. */
  function Opened(V: Valuation, c: Symbol): Valuation {
    Update(V, c, Value(YES, "n", None))
  }

  /** The value of `s`, given the values of the symbols it reads. */
  function ValueOf(cfg: Config, u: UserValue, s: Symbol, V: Valuation): Value {
    var d := cfg.def(s);
    if IsTriConst(s) then
      var t: Tristate := if s == SymbolNo then NO else if s == SymbolMod then MOD else YES;
      Value(t, TriName(t), None)
    else if s.IsTri() then
      if d.choice.Some? && VisibleOf(cfg, s, EnvOf(V)) == YES then
        Value(Truth(V(d.choice.value).pick == Some(s)), "n", None)
      else
        var t := TriOf(cfg, u, s, EnvOf(V));
        if d.members.Some? && t == YES then
          var pick := PickOf(cfg, u, s, EnvOf(Opened(V, s)));
          Value(Truth(pick.Some?), "n", pick)
        else
          Value(t, "n", None)
    else if IsString(s) then
      Value(NO, StrOf(cfg, u, s, V), None)
    else
      Value(NO, cfg.name(s), None)
  }

  /** A valuation that satisfies every equation. Symbols outside the configuration are
      undefined ones. */
  ghost predicate Solves(cfg: Config, users: Users, V: Valuation) {
    && (forall s: Symbol :: s in cfg.symbols ==> V(s) == ValueOf(cfg, users(s), s, V))
    && (forall s: Symbol :: s !in cfg.symbols ==> V(s) == Value(NO, cfg.name(s), None))
  }

  /* ----- which symbols a symbol reads ----- */

  function Symbols(e: Expr): set<Symbol> {
    match e
    case Leaf(s) => {s}
    case Cmp(_, l, r) => {l, r}
    case Not(a) => Symbols(a)
    case Bin(_, l, r) => Symbols(l) + Symbols(r)
  }

  function OptSymbols(e: Option<Expr>): set<Symbol> {
    if e.None? then {} else Symbols(e.value)
  }

  /** The symbols of an expression satisfy `ok`. */
  ghost predicate Reads(e: Option<Expr>, ok: set<Symbol>) {
    OptSymbols(e) <= ok
  }

  ghost predicate PromptsRead(d: Definition, ok: set<Symbol>) {
    forall i :: 0 <= i < |d.prompts| ==> Reads(d.prompts[i], ok)
  }

  ghost predicate DefaultsRead(d: Definition, ok: set<Symbol>) {
    forall i :: 0 <= i < |d.defaults| ==> Reads(Some(d.defaults[i].expr), ok) && Reads(d.defaults[i].cond, ok)
  }

  ghost predicate RangesRead(d: Definition, ok: set<Symbol>) {
    forall i :: 0 <= i < |d.ranges| ==>
      d.ranges[i].low in ok && d.ranges[i].high in ok && Reads(d.ranges[i].cond, ok)
  }

  /** Everything the calculation of `s` may read lies in `ok`; the prompts of choice values
      may also read the choice itself. */
  ghost predicate ReadsOnly(cfg: Config, s: Symbol, ok: set<Symbol>) {
    var d := cfg.def(s);
    && PromptsRead(d, ok) && DefaultsRead(d, ok) && RangesRead(d, ok)
    && Reads(d.dirDep, ok) && Reads(d.revDep, ok)
    && (d.choice.Some? ==> d.choice.value in ok)
    && (d.members.Some? ==> forall m :: m in d.members.value ==> PromptsRead(cfg.def(m), ok + {s}))
  }

  type Rank = Symbol -> nat

  function Below(cfg: Config, rank: Rank, n: nat): set<Symbol> {
    set s | s in cfg.symbols && rank(s) < n
  }

  /** No symbol depends on itself, a choice and its values being one node: the dependencies
      of every symbol have a smaller rank. */
  ghost predicate Ranked(cfg: Config, rank: Rank) {
    forall s :: s in cfg.symbols && !IsTriConst(s) ==> ReadsOnly(cfg, s, Below(cfg, rank, rank(s)))
  }

  /* ----- well-formed configurations ----- */

  /** How `menu_finalize` links a choice and its values: each value belongs to one choice, and
      each of its prompts, of which there is one at least, has the choice among its conjuncts. */
  ghost predicate ChoicesLinked(cfg: Config) {
    && (forall c :: c in cfg.symbols && cfg.def(c).members.Some? ==>
          && c.IsTri() && cfg.def(c).choice.None?
          && (forall m :: m in cfg.def(c).members.value ==>
                m in cfg.symbols && m.IsTri() && cfg.def(m).choice == Some(c) && cfg.def(m).members.None?)
          && (forall d :: d in cfg.def(c).defaults ==> d.expr.Leaf? && d.expr.sym in cfg.def(c).members.value))
    && (forall m :: m in cfg.symbols && cfg.def(m).choice.Some? ==>
          && cfg.def(m).choice.value in cfg.symbols
          && cfg.def(cfg.def(m).choice.value).members.Some?
          && m in cfg.def(cfg.def(m).choice.value).members.value
          && cfg.def(m).prompts != []
          && (forall p :: p in cfg.def(m).prompts ==> p.Some? && DependsSymbol(p.value, cfg.def(m).choice.value)))
  }

  /** Constants have different names, and n, m and y are the tristate ones. */
  ghost predicate NamesDistinct(cfg: Config) {
    && (forall t: Tristate :: cfg.name(ConstOf(t)) == TriName(t))
    && (forall s: Symbol, t: Symbol :: s.Constant? && t.Constant? && s != t ==> cfg.name(s) != cfg.name(t))
  }

  ghost predicate WellFormedConfig(cfg: Config) {
    && SymbolNo in cfg.symbols && SymbolMod in cfg.symbols && SymbolYes in cfg.symbols
    && (forall s :: s in cfg.symbols && !IsTriConst(s) ==> ReadsOnly(cfg, s, cfg.symbols))
    && ChoicesLinked(cfg)
    && NamesDistinct(cfg)
  }

  /** A choice's user pick is one of its values, as every writer of `def[S_DEF_USER].val`
      ensures. */
  ghost predicate WellFormedUsers(cfg: Config, users: Users) {
    forall c :: c in cfg.symbols && cfg.def(c).members.Some? && users(c).pick.Some? ==>
      users(c).pick.value in cfg.def(c).members.value
  }
}
