/** Kconfiglib's caches: values, visibilities and selections are computed once, and a change
    of a user value drops whatever may depend on it. */
module KconfiglibCaches {
  import opened Exprs
  import opened KconfiglibExprs
  import opened KconfiglibSpec
  import opened KconfiglibTheory

  /* ----- the configuration ----- */

  /** `Config` with its symbols and choices: the user values, the caches, and the sets of
      dependent symbols. What may be cached wrongly is tracked beside them: `tainted` are the
      symbols behind choices that are not orderly, `stale` the special symbols with a visibility
      that was cached before a change it depends on. */
  class Configuration {
    const cfg: Config
    ghost const rank: Rank
    ghost const bound: nat
    ghost const tainted: set<Symbol>
    ghost var stale: set<Symbol>
    var userVal: map<Symbol, string>
    var userPick: map<nat, Symbol>
    var userMode: map<nat, Tristate>
    var cachedVal: map<Symbol, string>
    var cachedVis: map<Symbol, Tristate>
    var cachedChoiceVis: map<nat, Tristate>
    var cachedSel: map<nat, Option<Symbol>>
    var dep: map<Symbol, set<Symbol>>
    var cachedDeps: map<Symbol, set<Symbol>>

    /** A configuration as it is after parsing: nothing cached but special symbols. */
    constructor (config: Config, ghost ranks: Rank, ghost limit: nat, ghost doubtful: set<Symbol>)
      requires Sound(config, ranks, Users(map[], map[], map[])) && Doubtful(config, doubtful)
      requires forall t :: t in config.syms ==> ranks(t) < limit
      ensures cfg == config && rank == ranks && tainted == doubtful && stale == {} && Intact()
      ensures UsersNow() == Users(map[], map[], map[]) && cachedVis == map[]
    {
      cfg, rank, bound, tainted, stale := config, ranks, limit, doubtful, {};
      userVal, userPick, userMode := map[], map[], map[];
      cachedVal := map s | s in config.syms && config.sym(s).special.Some? :: config.sym(s).special.value;
      cachedVis, cachedChoiceVis, cachedSel := map[], map[], map[];
      dep, cachedDeps := map[], map[];
      new;
      hide Sound, SymReads, ValueOf, Coherent, Fresh, DepsRight, Readers, Doubtful;
      BuildDep();
      NoneCovered(cfg, dep);
      Initial(cfg, rank, UsersNow(), CachesNow(), DoubtsNow());
    }

    /** `_build_dep`. */
    method BuildDep()
      modifies `dep
      ensures forall s :: s in cfg.syms ==> s in dep && dep[s] == Readers(cfg, s)
    {
      hide SymReads;
      dep := map s | s in cfg.syms :: {};
      var todo := cfg.syms;
      while todo != {}
        invariant todo <= cfg.syms && dep.Keys == cfg.syms
        invariant forall s :: s in dep ==> dep[s] == Readers(cfg, s) - todo
        decreases todo
      {
        var t :| t in todo;
        var sources := SymReads(cfg, t);
        dep := map s | s in dep :: if s in sources then dep[s] + {t} else dep[s];
        todo := todo - {t};
      }
    }

    ghost function UsersNow(): Users
      reads this
    {
      Users(userVal, userPick, userMode)
    }

    ghost function CachesNow(): Caches
      reads this
    {
      Caches(cachedVal, cachedVis, cachedChoiceVis, cachedSel)
    }

    ghost function DoubtsNow(): Doubts
      reads this
    {
      Doubts(tainted, stale)
    }

    ghost function At(s: Symbol): Level {
      LevelOf(rank, tainted, s)
    }

    /* ----- evaluation ----- */

    /** `get_value`. */
    method GetValue(s: Symbol, ghost V: Valuation) returns (v: string)
      requires Ready(cfg, rank, UsersNow(), V, CachesNow(), DoubtsNow()) && s in cfg.syms
      modifies `cachedVal, `cachedVis, `cachedChoiceVis, `cachedSel
      ensures Ready(cfg, rank, UsersNow(), V, CachesNow(), DoubtsNow()) && s in cachedVal
      ensures s !in tainted ==> v == V(s)
      decreases rank(s), 10
    {
      hide Ready, Sound, SymVis, TriOf, DefaultStr, DefaultNum, BoundsOf, SymReads, EnvOf, NumberOk, Solves, Coherent;
      CachedVal(cfg, rank, UsersNow(), V, CachesNow(), DoubtsNow(), s);
      if s in cachedVal {
        return cachedVal[s];
      }
      if !s.IsTri() && !IsText(s) && !IsNumber(s) {
        v := cfg.sym(s).name;
      } else if s.IsTri() {
        var t := GetTri(s, V);
        v := TriName(t);
      } else if IsText(s) {
        v := GetText(s, V);
      } else {
        v := GetNumber(s, V);
      }
      StoreVal(cfg, rank, UsersNow(), V, CachesNow(), DoubtsNow(), s, v);
      cachedVal := cachedVal[s := v];
    }

    method GetTri(s: Symbol, ghost V: Valuation) returns (v: Tristate)
      requires Ready(cfg, rank, UsersNow(), V, CachesNow(), DoubtsNow()) && s in cfg.syms && s !in stale
      modifies `cachedVal, `cachedVis, `cachedChoiceVis, `cachedSel
      ensures Ready(cfg, rank, UsersNow(), V, CachesNow(), DoubtsNow())
      ensures s !in tainted ==> v == TriOf(cfg, UsersNow(), s, EnvOf(V))
      decreases rank(s), 9
    {
      hide Ready, SymVis, ModeOf, SelectionOf, DefaultTri, EvalOf, SymReads, EnvOf;
      var d := cfg.sym(s);
      SymbolFacts(cfg, rank, UsersNow(), V, CachesNow(), DoubtsNow(), s);
      var vis := GetVisibility(s, V);
      v := NO;
      if d.choice.Some? {
        if vis != NO {
          var mode := GetMode(d.choice.value, V, At(s));
          if mode == YES {
            var sel := GetSelection(d.choice.value, V, At(s));
            v := Truth(sel == Some(s));
          } else if mode == MOD {
            if s in userVal && (userVal[s] == "m" || userVal[s] == "y") {
              v := MOD;
            }
          }
        }
      } else {
        if vis != NO && s in userVal {
          v := Min(TriFrom(userVal[s]), vis);
        } else {
          v := GetDefaultTri(d.defaults, V, At(s));
        }
        var rev := EvalExpr(Some(d.revDep), V, At(s));
        if rev != NO {
          v := Max(v, rev);
        }
      }
      if v == MOD && s.IsBool() {
        v := YES;
      }
    }

    method GetText(s: Symbol, ghost V: Valuation) returns (v: string)
      requires Ready(cfg, rank, UsersNow(), V, CachesNow(), DoubtsNow()) && s in cfg.syms && s !in stale
      modifies `cachedVal, `cachedVis, `cachedChoiceVis, `cachedSel
      ensures Ready(cfg, rank, UsersNow(), V, CachesNow(), DoubtsNow())
      ensures s !in tainted ==>
                v == if SymVis(cfg, s, EnvOf(V)) != NO && s in userVal then userVal[s]
                     else DefaultStr(cfg.sym(s).defaults, EnvOf(V))
      decreases rank(s), 8
    {
      hide Ready, SymVis, EvalOf, SymReads, EnvOf;
      SymbolFacts(cfg, rank, UsersNow(), V, CachesNow(), DoubtsNow(), s);
      var vis := GetVisibility(s, V);
      if vis != NO && s in userVal {
        return userVal[s];
      }
      var defaults := cfg.sym(s).defaults;
      var i := 0;
      while i < |defaults|
        invariant 0 <= i <= |defaults| && Ready(cfg, rank, UsersNow(), V, CachesNow(), DoubtsNow())
        invariant Below(cfg, rank, tainted, At(s), DefaultSyms(defaults[i..]))
        invariant s !in tainted ==> DefaultStr(defaults[i..], EnvOf(V)) == DefaultStr(defaults, EnvOf(V))
      {
        DefaultHead(cfg, rank, tainted, At(s), defaults[i..]);
        assert defaults[i..][0] == defaults[i] && defaults[i..][1..] == defaults[i + 1..];
        var cond := EvalExpr(defaults[i].cond, V, At(s));
        if cond != NO {
          v := GetExprStr(defaults[i].value, V, At(s));
          return;
        }
        i := i + 1;
      }
      v := "";
    }

    method GetNumber(s: Symbol, ghost V: Valuation) returns (v: string)
      requires Ready(cfg, rank, UsersNow(), V, CachesNow(), DoubtsNow()) && s in cfg.syms && IsNumber(s) && s !in stale
      modifies `cachedVal, `cachedVis, `cachedChoiceVis, `cachedSel
      ensures Ready(cfg, rank, UsersNow(), V, CachesNow(), DoubtsNow())
      ensures s !in tainted ==>
                var hex := s.kind.Hexadecimal?;
                var bounds := BoundsOf(cfg.lib, cfg.sym(s).ranges, hex, EnvOf(V));
                var ok := s in userVal && NumberOk(cfg.lib, userVal[s], bounds, hex);
                v == if SymVis(cfg, s, EnvOf(V)) != NO && ok then userVal[s]
                     else DefaultNum(cfg.lib, "", cfg.sym(s).defaults, bounds, hex, EnvOf(V))
      decreases rank(s), 8
    {
      hide Ready, SymVis, EvalOf, SymReads, EnvOf, BoundsOf, NumberOk;
      SymbolFacts(cfg, rank, UsersNow(), V, CachesNow(), DoubtsNow(), s);
      var hex := s.kind.Hexadecimal?;
      var vis := GetVisibility(s, V);
      var bounds := GetBounds(cfg.sym(s).ranges, hex, V, At(s));
      if vis != NO && s in userVal && NumberOk(cfg.lib, userVal[s], bounds, hex) {
        return userVal[s];
      }
      var defaults := cfg.sym(s).defaults;
      v := "";
      var i := 0;
      while i < |defaults|
        invariant 0 <= i <= |defaults| && Ready(cfg, rank, UsersNow(), V, CachesNow(), DoubtsNow())
        invariant Below(cfg, rank, tainted, At(s), DefaultSyms(defaults[i..]))
        invariant s !in tainted ==>
                    DefaultNum(cfg.lib, v, defaults[i..], bounds, hex, EnvOf(V))
                    == DefaultNum(cfg.lib, "", defaults, bounds, hex, EnvOf(V))
      {
        DefaultHead(cfg, rank, tainted, At(s), defaults[i..]);
        assert defaults[i..][0] == defaults[i] && defaults[i..][1..] == defaults[i + 1..];
        var cond := EvalExpr(defaults[i].cond, V, At(s));
        if cond != NO {
          v := GetExprStr(defaults[i].value, V, At(s));
          if cfg.lib.isBase(v, hex) {
            v := ClampStr(cfg.lib, v, bounds, hex);
            return;
          }
        }
        i := i + 1;
      }
      if bounds.Some? && bounds.value.low > 0 {
        v := cfg.lib.format(bounds.value.low, hex);
      }
    }

    method GetBounds(ranges: seq<RangeExpr>, hex: bool, ghost V: Valuation, ghost at: Level) returns (b: Option<Bounds>)
      requires Ready(cfg, rank, UsersNow(), V, CachesNow(), DoubtsNow())
      requires Below(cfg, rank, tainted, at, RangeSyms(ranges))
      modifies `cachedVal, `cachedVis, `cachedChoiceVis, `cachedSel
      ensures Ready(cfg, rank, UsersNow(), V, CachesNow(), DoubtsNow())
      ensures at.sure ==> b == BoundsOf(cfg.lib, ranges, hex, EnvOf(V))
      decreases at.n, 4
    {
      hide Ready, EvalOf, EnvOf;
      var i := 0;
      while i < |ranges|
        invariant 0 <= i <= |ranges| && Ready(cfg, rank, UsersNow(), V, CachesNow(), DoubtsNow())
        invariant Below(cfg, rank, tainted, at, RangeSyms(ranges[i..]))
        invariant at.sure ==> BoundsOf(cfg.lib, ranges[i..], hex, EnvOf(V)) == BoundsOf(cfg.lib, ranges, hex, EnvOf(V))
      {
        RangeHead(cfg, rank, tainted, at, ranges[i..]);
        assert ranges[i..][0] == ranges[i] && ranges[i..][1..] == ranges[i + 1..];
        var cond := EvalExpr(ranges[i].cond, V, at);
        if cond != NO {
          var low := GetStr(ranges[i].low, V, at);
          var high := GetStr(ranges[i].high, V, at);
          return Some(Bounds(if cfg.lib.isBase(low, hex) then cfg.lib.scan(low, hex) else 0,
                             if cfg.lib.isBase(high, hex) then cfg.lib.scan(high, hex) else 0));
        }
        i := i + 1;
      }
      b := None;
    }

    method GetDefaultTri(defaults: seq<DefaultExpr>, ghost V: Valuation, ghost at: Level) returns (v: Tristate)
      requires Ready(cfg, rank, UsersNow(), V, CachesNow(), DoubtsNow())
      requires Below(cfg, rank, tainted, at, DefaultSyms(defaults))
      modifies `cachedVal, `cachedVis, `cachedChoiceVis, `cachedSel
      ensures Ready(cfg, rank, UsersNow(), V, CachesNow(), DoubtsNow())
      ensures at.sure ==> v == DefaultTri(defaults, EnvOf(V))
      decreases at.n, 4
    {
      hide Ready, EvalOf, EnvOf;
      var i := 0;
      while i < |defaults|
        invariant 0 <= i <= |defaults| && Ready(cfg, rank, UsersNow(), V, CachesNow(), DoubtsNow())
        invariant Below(cfg, rank, tainted, at, DefaultSyms(defaults[i..]))
        invariant at.sure ==> DefaultTri(defaults[i..], EnvOf(V)) == DefaultTri(defaults, EnvOf(V))
      {
        DefaultHead(cfg, rank, tainted, at, defaults[i..]);
        assert defaults[i..][0] == defaults[i] && defaults[i..][1..] == defaults[i + 1..];
        var cond := EvalExpr(defaults[i].cond, V, at);
        if cond != NO {
          var value := EvalExpr2(defaults[i].value, V, at);
          return Min(value, cond);
        }
        i := i + 1;
      }
      v := NO;
    }

    /** `_eval_expr`. */
    method EvalExpr(e: Option<Expression>, ghost V: Valuation, ghost at: Level) returns (v: Tristate)
      requires Ready(cfg, rank, UsersNow(), V, CachesNow(), DoubtsNow()) && Below(cfg, rank, tainted, at, OptSyms(e))
      modifies `cachedVal, `cachedVis, `cachedChoiceVis, `cachedSel
      ensures Ready(cfg, rank, UsersNow(), V, CachesNow(), DoubtsNow())
      ensures at.sure ==> v == EvalOf(e, EnvOf(V))
      decreases at.n, 3
    {
      hide Ready, EnvOf;
      v := YES;
      if e.Some? {
        v := EvalExpr2(e.value, V, at);
      }
      v := Promote(v, false);
    }

    /** `_eval_expr_2`. */
    method EvalExpr2(e: Expression, ghost V: Valuation, ghost at: Level) returns (v: Tristate)
      requires Ready(cfg, rank, UsersNow(), V, CachesNow(), DoubtsNow()) && Below(cfg, rank, tainted, at, ExprSyms(e))
      modifies `cachedVal, `cachedVis, `cachedChoiceVis, `cachedSel
      ensures Ready(cfg, rank, UsersNow(), V, CachesNow(), DoubtsNow())
      ensures at.sure ==> v == Value(e, EnvOf(V))
      decreases at.n, 2, e
    {
      hide Ready;
      match e
      case Atom(t) =>
        if t.Sym? && t.sym.IsTri() {
          var w := GetValue(t.sym, V);
          v := TriFrom(w);
        } else {
          v := if t == Str("y") then YES else if t == Str("m") then MOD else NO;
        }
      case Rel(eq, l, r) =>
        var w := GetStr(l, V, at);
        if r.Some? {
          var x := GetStr(r.value, V, at);
          v := Truth((w == x) == eq);
        } else {
          v := Truth(false == eq);
        }
      case Inverse(a) =>
        var ev := EvalExpr2(a, V, at);
        v := if ev == YES then NO else if ev == NO then YES else MOD;
      case List(op, es) =>
        v := EvalList(op, es, V, at);
    }

    /** Its two short-circuiting loops. */
    method EvalList(op: Op, es: seq<Expression>, ghost V: Valuation, ghost at: Level) returns (v: Tristate)
      requires Ready(cfg, rank, UsersNow(), V, CachesNow(), DoubtsNow()) && Below(cfg, rank, tainted, at, ListSyms(es))
      modifies `cachedVal, `cachedVis, `cachedChoiceVis, `cachedSel
      ensures Ready(cfg, rank, UsersNow(), V, CachesNow(), DoubtsNow())
      ensures at.sure ==> v == Fold(op, es, EnvOf(V))
      decreases at.n, 2, es
    {
      hide Ready, EnvOf, Value;
      v := op.Unit();
      var i := 0;
      while i < |es|
        invariant 0 <= i <= |es| && Ready(cfg, rank, UsersNow(), V, CachesNow(), DoubtsNow())
        invariant Below(cfg, rank, tainted, at, ListSyms(es[i..]))
        invariant v != op.Zero()
        invariant at.sure ==> op.Apply(v, Fold(op, es[i..], EnvOf(V))) == Fold(op, es, EnvOf(V))
      {
        ListHead(cfg, rank, tainted, at, es[i..]);
        assert es[i..][0] == es[i] && es[i..][1..] == es[i + 1..];
        var ev := EvalExpr2(es[i], V, at);
        if ev == op.Zero() {
          return ev;
        }
        if ev == MOD {
          v := MOD;
        }
        i := i + 1;
      }
    }

    /** `_str_val`. */
    method GetStr(t: Token, ghost V: Valuation, ghost at: Level) returns (v: string)
      requires Ready(cfg, rank, UsersNow(), V, CachesNow(), DoubtsNow()) && Below(cfg, rank, tainted, at, TokenSyms(t))
      modifies `cachedVal, `cachedVis, `cachedChoiceVis, `cachedSel
      ensures Ready(cfg, rank, UsersNow(), V, CachesNow(), DoubtsNow())
      ensures at.sure ==> v == StrVal(t, EnvOf(V))
      decreases at.n, 1
    {
      hide Ready;
      if t.Sym? {
        v := GetValue(t.sym, V);
      } else {
        v := if t.Str? then t.text else "";
      }
    }

    method GetExprStr(e: Expression, ghost V: Valuation, ghost at: Level) returns (v: string)
      requires Ready(cfg, rank, UsersNow(), V, CachesNow(), DoubtsNow()) && Below(cfg, rank, tainted, at, ExprSyms(e))
      modifies `cachedVal, `cachedVis, `cachedChoiceVis, `cachedSel
      ensures Ready(cfg, rank, UsersNow(), V, CachesNow(), DoubtsNow())
      ensures at.sure ==> v == ExprStr(e, EnvOf(V))
      decreases at.n, 2
    {
      hide Ready, EnvOf;
      v := "";
      if e.Atom? {
        v := GetStr(e.item, V, at);
      }
    }

    /* ----- visibility and choices ----- */

    method PromptVis(prompts: seq<Option<Expression>>, ghost V: Valuation, ghost at: Level) returns (vis: Tristate)
      requires Ready(cfg, rank, UsersNow(), V, CachesNow(), DoubtsNow())
      requires Below(cfg, rank, tainted, at, PromptSyms(prompts))
      modifies `cachedVal, `cachedVis, `cachedChoiceVis, `cachedSel
      ensures Ready(cfg, rank, UsersNow(), V, CachesNow(), DoubtsNow())
      ensures at.sure ==> vis == VisFrom(NO, prompts, EnvOf(V))
      decreases at.n, 4
    {
      hide Ready, EnvOf, ValueOpt;
      vis := NO;
      var i := 0;
      while i < |prompts|
        invariant 0 <= i <= |prompts| && Ready(cfg, rank, UsersNow(), V, CachesNow(), DoubtsNow())
        invariant Below(cfg, rank, tainted, at, PromptSyms(prompts[i..]))
        invariant at.sure ==> VisFrom(vis, prompts[i..], EnvOf(V)) == VisFrom(NO, prompts, EnvOf(V))
      {
        PromptHead(cfg, rank, tainted, at, prompts[i..]);
        assert prompts[i..][0] == prompts[i] && prompts[i..][1..] == prompts[i + 1..];
        var cond := EvalExpr(prompts[i], V, at);
        vis := Max(vis, cond);
        i := i + 1;
      }
    }

    /** `_get_visibility` of a symbol. */
    method GetVisibility(s: Symbol, ghost V: Valuation) returns (vis: Tristate)
      requires Ready(cfg, rank, UsersNow(), V, CachesNow(), DoubtsNow()) && s in cfg.syms
      modifies `cachedVal, `cachedVis, `cachedChoiceVis, `cachedSel
      ensures Ready(cfg, rank, UsersNow(), V, CachesNow(), DoubtsNow())
      ensures s !in tainted && s !in stale ==> vis == SymVis(cfg, s, EnvOf(V))
      ensures s in cachedVis && vis == cachedVis[s]
      ensures s in old(cachedVis) ==> CachesNow() == old(CachesNow())
      decreases rank(s), 6
    {
      hide Ready, VisFrom, ChoiceVis, EnvOf, SymReads, ValueOf;
      CachedVal(cfg, rank, UsersNow(), V, CachesNow(), DoubtsNow(), s);
      if s !in cachedVis {
        SymbolFacts(cfg, rank, UsersNow(), V, CachesNow(), DoubtsNow(), s);
        vis := PromptVis(cfg.sym(s).prompts, V, At(s));
        if cfg.sym(s).choice.Some? {
          var choiceVis := GetChoiceVisibility(cfg.sym(s).choice.value, V, At(s));
          vis := Min(vis, choiceVis);
        }
        if vis == MOD && !s.IsTristate() {
          vis := YES;
        }
        StoreVis(cfg, rank, UsersNow(), V, CachesNow(), DoubtsNow(), s, vis);
        cachedVis := cachedVis[s := vis];
      }
      vis := cachedVis[s];
    }

    /** `_get_visibility` of a choice. */
    method GetChoiceVisibility(c: nat, ghost V: Valuation, ghost at: Level) returns (vis: Tristate)
      requires Ready(cfg, rank, UsersNow(), V, CachesNow(), DoubtsNow()) && ChoiceAt(cfg, rank, tainted, at, c)
      modifies `cachedVal, `cachedVis, `cachedChoiceVis, `cachedSel
      ensures Ready(cfg, rank, UsersNow(), V, CachesNow(), DoubtsNow())
      ensures at.sure ==> vis == ChoiceVis(cfg, c, EnvOf(V))
      decreases at.n, 5
    {
      hide Ready, VisFrom, EnvOf, SelectionOf;
      if at.sure {
        CachedChoice(cfg, rank, UsersNow(), V, CachesNow(), DoubtsNow(), c);
      }
      if c !in cachedChoiceVis {
        vis := PromptVis(cfg.choice(c).prompts, V, at);
        if vis == MOD && !cfg.choice(c).isTristate {
          vis := YES;
        }
        StoreChoiceVis(cfg, rank, UsersNow(), V, CachesNow(), DoubtsNow(), c, vis);
        cachedChoiceVis := cachedChoiceVis[c := vis];
      }
      vis := cachedChoiceVis[c];
    }

    /** `get_mode`. */
    method GetMode(c: nat, ghost V: Valuation, ghost at: Level) returns (mode: Tristate)
      requires Ready(cfg, rank, UsersNow(), V, CachesNow(), DoubtsNow()) && ChoiceAt(cfg, rank, tainted, at, c)
      modifies `cachedVal, `cachedVis, `cachedChoiceVis, `cachedSel
      ensures Ready(cfg, rank, UsersNow(), V, CachesNow(), DoubtsNow())
      ensures at.sure ==> mode == ModeOf(cfg, UsersNow(), c, EnvOf(V))
      decreases at.n, 6
    {
      hide Ready, ChoiceVis, EnvOf, ChoiceAt;
      var least: Tristate := if cfg.choice(c).optional then NO else MOD;
      mode := if c in userMode then userMode[c] else least;
      var vis := GetChoiceVisibility(c, V, at);
      mode := Min(mode, vis);
      if mode == MOD && !cfg.choice(c).isTristate {
        mode := YES;
      }
    }

    /** `get_selection`. */
    method GetSelection(c: nat, ghost V: Valuation, ghost at: Level) returns (sel: Option<Symbol>)
      requires Ready(cfg, rank, UsersNow(), V, CachesNow(), DoubtsNow()) && ChoiceAt(cfg, rank, tainted, at, c)
      modifies `cachedVal, `cachedVis, `cachedChoiceVis, `cachedSel
      ensures Ready(cfg, rank, UsersNow(), V, CachesNow(), DoubtsNow())
      ensures at.sure ==> sel == SelectionOf(cfg, UsersNow(), c, EnvOf(V))
      decreases at.n, 8
    {
      hide Ready, ModeOf, SymVis, DefaultSelection, EnvOf, ChoiceVis;
      if at.sure {
        CachedChoice(cfg, rank, UsersNow(), V, CachesNow(), DoubtsNow(), c);
      }
      if c in cachedSel {
        return cachedSel[c];
      }
      sel := None;
      var mode := GetMode(c, V, at);
      if mode == YES {
        var picked := false;
        if c in userPick {
          PickInside(cfg, rank, at, UsersNow(), V, CachesNow(), DoubtsNow(), c);
          var vis := GetVisibility(userPick[c], V);
          picked := vis == YES;
        }
        if picked {
          sel := Some(userPick[c]);
        } else if !cfg.choice(c).optional {
          sel := SelectionFromDefaults(c, V, at);
        }
      }
      StoreSelection(cfg, rank, UsersNow(), V, CachesNow(), DoubtsNow(), c, sel);
      cachedSel := cachedSel[c := sel];
    }

    /** `get_selection_from_defaults`. */
    method SelectionFromDefaults(c: nat, ghost V: Valuation, ghost at: Level) returns (sel: Option<Symbol>)
      requires Ready(cfg, rank, UsersNow(), V, CachesNow(), DoubtsNow()) && ChoiceAt(cfg, rank, tainted, at, c)
      modifies `cachedVal, `cachedVis, `cachedChoiceVis, `cachedSel
      ensures Ready(cfg, rank, UsersNow(), V, CachesNow(), DoubtsNow())
      ensures at.sure ==> sel == DefaultSelection(cfg, c, EnvOf(V))
      decreases at.n, 7
    {
      hide Ready, SymVis, EnvOf, EvalOf, Targets, Clean;
      var d := cfg.choice(c);
      ghost var first := ActiveDefault(d.defaults, EnvOf(V));
      ChosenMember(cfg, rank, at, UsersNow(), V, CachesNow(), DoubtsNow(), c);
      var chosen := d.members[0];
      var i := 0;
      while i < |d.defaults|
        invariant 0 <= i <= |d.defaults| && Ready(cfg, rank, UsersNow(), V, CachesNow(), DoubtsNow())
        invariant Below(cfg, rank, tainted, at, ChoiceDefaultSyms(d.defaults[i..]))
        invariant chosen == d.members[0]
        invariant at.sure ==> ActiveDefault(d.defaults[i..], EnvOf(V)) == first
      {
        ChoiceHead(cfg, rank, tainted, at, d.defaults[i..]);
        assert d.defaults[i..][0] == d.defaults[i] && d.defaults[i..][1..] == d.defaults[i + 1..];
        var cond := EvalExpr(d.defaults[i].cond, V, at);
        if cond != NO {
          TargetIn(cfg, c, i);
          chosen := d.defaults[i].sym;
          break;
        }
        i := i + 1;
      }
      assert at.sure ==> chosen == if first.Some? then first.value else d.members[0];
      assert chosen in d.members || chosen in Targets(cfg, c);
      var vis := GetVisibility(chosen, V);
      if vis != NO {
        return Some(chosen);
      }
      i := 0;
      while i < |d.members|
        invariant 0 <= i <= |d.members| && Ready(cfg, rank, UsersNow(), V, CachesNow(), DoubtsNow())
        invariant at.sure ==> FirstVisible(cfg, d.members[i..], EnvOf(V)) == FirstVisible(cfg, d.members, EnvOf(V))
      {
        assert d.members[i..][0] == d.members[i] && d.members[i..][1..] == d.members[i + 1..];
        assert d.members[i] in d.members;
        vis := GetVisibility(d.members[i], V);
        if vis != NO {
          return Some(d.members[i]);
        }
        i := i + 1;
      }
      sel := None;
    }

    /* ----- dependencies ----- */

    /** `_get_dependent`. */
    method GetDependent(s: Symbol) returns (res: set<Symbol>)
      requires Sound(cfg, rank, UsersNow()) && DepsRight(cfg, dep, cachedDeps) && s in cfg.syms
      requires forall t :: t in cfg.syms ==> rank(t) < bound
      modifies `cachedDeps
      ensures DepsRight(cfg, dep, cachedDeps) && Covers(cfg, s, res)
      decreases bound - rank(s), 1
    {
      hide Sound, Covers, Siblings, Behind, Readers, Closed, Group, DepsRight;
      DepsCached(cfg, dep, cachedDeps, s);
      if s in cachedDeps {
        return cachedDeps[s];
      }
      ghost var behind;
      res, behind := AddDependentIgnoreSiblings(s, {});
      SiblingsStart(cfg, s, behind);
      ghost var done: seq<Symbol> := [];
      if cfg.sym(s).choice.Some? {
        var members := cfg.choice(cfg.sym(s).choice.value).members;
        MembersFacts(cfg, rank, UsersNow(), s);
        var i := 0;
        while i < |members|
          invariant 0 <= i <= |members| && done == members[..i]
          invariant DepsRight(cfg, dep, cachedDeps) && Siblings(cfg, s, done, res)
        {
          var m := members[i];
          assert m in members;
          if m != s {
            ghost var before := res;
            res, behind := AddDependentIgnoreSiblings(m, res + {m});
            SiblingsMore(cfg, s, done, before, m, behind);
          } else {
            SiblingsSelf(cfg, s, done, res);
          }
          done := done + [m];
          i := i + 1;
        }
      }
      GroupListed(cfg, rank, UsersNow(), s, done);
      SiblingsCover(cfg, s, done, res);
      DepsStored(cfg, dep, cachedDeps, s, res);
      cachedDeps := cachedDeps[s := res];
    }

    /** `_add_dependent_ignore_siblings`. */
    method AddDependentIgnoreSiblings(s: Symbol, before: set<Symbol>)
      returns (to: set<Symbol>, ghost behind: set<Symbol>)
      requires Sound(cfg, rank, UsersNow()) && DepsRight(cfg, dep, cachedDeps) && s in cfg.syms
      requires forall t :: t in cfg.syms ==> rank(t) < bound
      modifies `cachedDeps
      ensures DepsRight(cfg, dep, cachedDeps) && Behind(cfg, s, {}, behind) && to == before + behind
      decreases bound - rank(s), 0
    {
      hide Sound, Covers, Behind, Readers;
      to, behind := before, {};
      var todo := dep[s];
      BehindStart(cfg, s);
      while todo != {}
        invariant DepsRight(cfg, dep, cachedDeps) && todo <= Readers(cfg, s)
        invariant Behind(cfg, s, todo, behind) && to == before + behind
        decreases todo
      {
        var t :| t in todo;
        ReaderFacts(cfg, rank, UsersNow(), s, t);
        var r := GetDependent(t);
        BehindMore(cfg, s, todo, behind, t, r);
        behind := behind + ({t} + r);
        to := to + {t} + r;
        todo := todo - {t};
      }
    }

    /* ----- invalidation ----- */

    /** `_invalidate`. */
    method Invalidate(s: Symbol)
      modifies `cachedVal, `cachedVis, `cachedChoiceVis, `cachedSel
      ensures CachesNow() == Invalidated(cfg, old(CachesNow()), s)
    {
      if cfg.sym(s).special.Some? {
        return;
      }
      if cfg.sym(s).choice.Some? {
        cachedSel := cachedSel - {cfg.sym(s).choice.value};
        cachedChoiceVis := cachedChoiceVis - {cfg.sym(s).choice.value};
      }
      cachedVal := cachedVal - {s};
      cachedVis := cachedVis - {s};
    }

    /** `_invalidate_dependent`, for a symbol that has been invalidated itself. */
    method InvalidateDependent(s: Symbol, ghost k: Caches) returns (ghost r: set<Symbol>)
      requires Sound(cfg, rank, UsersNow()) && DepsRight(cfg, dep, cachedDeps) && s in cfg.syms
      requires forall t :: t in cfg.syms ==> rank(t) < bound
      requires Dropped(cfg, k, CachesNow(), {s})
      modifies `cachedDeps, `cachedVal, `cachedVis, `cachedChoiceVis, `cachedSel
      ensures DepsRight(cfg, dep, cachedDeps) && Least(cfg, s, r) && Dropped(cfg, k, CachesNow(), r)
    {
      hide Sound, DepsRight, Dropped, Covers, Invalidated, Least;
      var todo := GetDependent(s);
      r := {s};
      ghost var all := todo;
      while todo != {}
        invariant todo <= all && r == {s} + (all - todo) && Dropped(cfg, k, CachesNow(), r)
        invariant DepsRight(cfg, dep, cachedDeps)
        decreases todo
      {
        var t :| t in todo;
        DroppedMore(cfg, k, CachesNow(), r, t);
        Invalidate(t);
        r := r + {t};
        todo := todo - {t};
      }
      assert r == all + {s};
      CoversLeast(cfg, s, all);
    }

    /** `_invalidate_all`. */
    method InvalidateAll(ghost k: Caches)
      requires k == CachesNow()
      modifies `cachedVal, `cachedVis, `cachedChoiceVis, `cachedSel
      ensures Dropped(cfg, k, CachesNow(), cfg.syms)
    {
      hide Dropped, Invalidated;
      DroppedSame(cfg, k);
      var todo := cfg.syms;
      ghost var r: set<Symbol> := {};
      while todo != {}
        invariant todo <= cfg.syms && r == cfg.syms - todo && Dropped(cfg, k, CachesNow(), r)
        decreases todo
      {
        var t :| t in todo;
        DroppedMore(cfg, k, CachesNow(), r, t);
        Invalidate(t);
        r := r + {t};
        todo := todo - {t};
      }
      assert r == cfg.syms;
    }

    /* ----- the public operations ----- */

    /** Whatever is cached is what a fresh computation would give, except for what is in doubt. */
    ghost predicate Intact()
      reads this
    {
      && Sound(cfg, rank, UsersNow()) && Doubtful(cfg, tainted)
      && (forall t :: t in cfg.syms ==> rank(t) < bound)
      && DepsRight(cfg, dep, cachedDeps)
      && Coherent(cfg, UsersNow(), Fresh(cfg, UsersNow(), rank), CachesNow(), DoubtsNow())
    }

    /** `Symbol.get_value`: the value of a fresh computation. */
    method Get(s: Symbol) returns (v: string)
      requires Intact() && s in cfg.syms
      modifies `cachedVal, `cachedVis, `cachedChoiceVis, `cachedSel
      ensures Intact() && s in cachedVal
      ensures s !in tainted ==> v == Fresh(cfg, UsersNow(), rank)(s)
    {
      hide Sound, DepsRight, Coherent, Doubtful;
      ghost var V := Fresh(cfg, UsersNow(), rank);
      IsReady(cfg, rank, UsersNow(), CachesNow(), DoubtsNow());
      v := GetValue(s, V);
    }

    /** `Symbol.get_visibility`: what is cached, and else that of a fresh computation. */
    method GetVisible(s: Symbol) returns (vis: Tristate)
      requires Intact() && s in cfg.syms
      modifies `cachedVal, `cachedVis, `cachedChoiceVis, `cachedSel
      ensures Intact() && s in cachedVis && vis == cachedVis[s]
      ensures s in old(cachedVis) ==> CachesNow() == old(CachesNow())
      ensures s !in tainted && s !in stale ==> vis == SymVis(cfg, s, EnvOf(Fresh(cfg, UsersNow(), rank)))
    {
      hide Sound, DepsRight, Coherent, Doubtful, SymVis;
      ghost var V := Fresh(cfg, UsersNow(), rank);
      IsReady(cfg, rank, UsersNow(), CachesNow(), DoubtsNow());
      vis := GetVisibility(s, V);
    }

    /** `Choice.get_selection` of a choice with members. */
    method GetSelected(c: nat) returns (sel: Option<Symbol>)
      requires Intact() && HasMembers(cfg, c)
      modifies `cachedVal, `cachedVis, `cachedChoiceVis, `cachedSel
      ensures Intact()
      ensures Clean(cfg, tainted, c) ==> sel == SelectionOf(cfg, UsersNow(), c, EnvOf(Fresh(cfg, UsersNow(), rank)))
    {
      hide Sound, DepsRight, Coherent, SelectionOf, Doubtful;
      ghost var V := Fresh(cfg, UsersNow(), rank);
      IsReady(cfg, rank, UsersNow(), CachesNow(), DoubtsNow());
      MemberAt(cfg, rank, UsersNow(), tainted, c);
      sel := GetSelection(c, V, At(cfg.choice(c).members[0]));
    }

    method SetUserValueNoInvalidate(s: Symbol, v: string)
      modifies `userVal, `userPick, `userMode
      ensures UsersNow() == Assigned(cfg, old(UsersNow()), s, v)
    {
      var d := cfg.sym(s);
      if d.special.Some? || !d.defined || !ValidFor(cfg, s, v) {
        return;
      }
      userVal := userVal[s := v];
      if d.choice.Some? && s.IsTri() {
        if v == "y" {
          userPick := userPick[d.choice.value := s];
          userMode := userMode[d.choice.value := YES];
        } else if v == "m" {
          userPick := userPick - {d.choice.value};
          userMode := userMode[d.choice.value := MOD];
        }
      }
    }

    /** The call of `_invalidate_dependent` that follows a change of the user value of `s`. */
    method AfterInvalidate(s: Symbol, ghost u: Users, ghost k: Caches)
      requires Sound(cfg, rank, u) && Sound(cfg, rank, UsersNow()) && OnlyAt(cfg, u, UsersNow(), s)
      requires Doubtful(cfg, tainted) && DepsRight(cfg, dep, cachedDeps) && s in cfg.syms
      requires forall t :: t in cfg.syms ==> rank(t) < bound
      requires Coherent(cfg, u, Fresh(cfg, u, rank), k, DoubtsNow()) && Dropped(cfg, k, CachesNow(), {s})
      modifies `cachedDeps, `cachedVal, `cachedVis, `cachedChoiceVis, `cachedSel, `stale
      ensures Intact() && old(stale) <= stale && Behindhand(cfg, s, old(stale), stale)
      ensures SpecialKept(cfg, k, CachesNow())
    {
      hide Sound, DepsRight, Coherent, Dropped, Fresh, OnlyAt, Doubtful, Least, Behindhand, SpecialKept;
      ghost var r := InvalidateDependent(s, k);
      ChangeCoherent(cfg, rank, u, UsersNow(), s, r, k, CachesNow(), DoubtsNow());
      AgedBehind(cfg, s, r, k, CachesNow(), stale);
      stale := stale + Aged(CachesNow(), r);
    }

    /** `set_user_value`. The visibility of a special symbol stays cached; it is in doubt from then
        on if the symbol depends on the one that was set. */
    method SetUserValue(s: Symbol, v: string)
      requires Intact() && s in cfg.syms
      modifies this
      ensures Intact() && UsersNow() == Assigned(cfg, old(UsersNow()), s, v)
      ensures old(stale) <= stale && Behindhand(cfg, s, old(stale), stale)
      ensures SpecialKept(cfg, old(CachesNow()), CachesNow())
    {
      hide Sound, DepsRight, Coherent, Dropped, Assigned, Invalidated, Fresh, OnlyAt, Doubtful, Least, Behindhand;
      hide SpecialKept;
      ghost var u, k := UsersNow(), CachesNow();
      SetUserValueNoInvalidate(s, v);
      AfterChange(cfg, rank, u, s, v);
      if cfg.modules == Some(s) {
        InvalidateAll(k);
        ModulesUnset(cfg, rank, u, s, v);
        DropCoherent(cfg, u, Fresh(cfg, u, rank), k, CachesNow(), DoubtsNow(), cfg.syms);
        BehindSame(cfg, s, stale);
        return;
      }
      DroppedFirst(cfg, k, s);
      Invalidate(s);
      AfterInvalidate(s, u, k);
    }

    method UnsetNoRecursiveInvalidate(s: Symbol)
      modifies `userVal, `userPick, `userMode, `cachedVal, `cachedVis, `cachedChoiceVis, `cachedSel
      ensures UsersNow() == Unassigned(cfg, old(UsersNow()), s)
      ensures var i := Invalidated(cfg, old(CachesNow()), s);
              CachesNow() == if cfg.sym(s).choice.Some? then WithoutChoice(i, cfg.sym(s).choice.value) else i
    {
      Invalidate(s);
      userVal := userVal - {s};
      if cfg.sym(s).choice.Some? {
        var c := cfg.sym(s).choice.value;
        cachedSel, cachedChoiceVis := cachedSel - {c}, cachedChoiceVis - {c};
        userPick, userMode := userPick - {c}, userMode - {c};
      }
    }

    /** `unset_user_value`. */
    method UnsetUserValue(s: Symbol)
      requires Intact() && s in cfg.syms
      modifies this
      ensures Intact() && UsersNow() == Unassigned(cfg, old(UsersNow()), s)
      ensures old(stale) <= stale && Behindhand(cfg, s, old(stale), stale)
      ensures SpecialKept(cfg, old(CachesNow()), CachesNow())
    {
      hide Sound, DepsRight, Coherent, Dropped, Unassigned, Invalidated, Doubtful, Least, Behindhand, SpecialKept;
      ghost var u, k := UsersNow(), CachesNow();
      UnsetNoRecursiveInvalidate(s);
      AfterChange(cfg, rank, u, s, "");
      DroppedFirst(cfg, k, s);
      DroppedChoiceToo(cfg, k, Invalidated(cfg, k, s), {s});
      AfterInvalidate(s, u, k);
    }

    /** `unset_user_values`. */
    method UnsetUserValues(ghost k: Caches)
      requires Sound(cfg, rank, UsersNow()) && k == CachesNow()
      modifies `userVal, `userPick, `userMode, `cachedVal, `cachedVis, `cachedChoiceVis, `cachedSel
      ensures Sound(cfg, rank, UsersNow()) && Dropped(cfg, k, CachesNow(), cfg.syms)
      ensures UsersNow() == Cleared(cfg, old(UsersNow()))
    {
      hide Sound, Dropped, Unassigned, Invalidated;
      DroppedSame(cfg, k);
      ghost var u := UsersNow();
      ClearedNone(cfg, u);
      var todo := cfg.syms;
      ghost var r: set<Symbol> := {};
      while todo != {}
        invariant todo <= cfg.syms && r == cfg.syms - todo && Dropped(cfg, k, CachesNow(), r)
        invariant Sound(cfg, rank, UsersNow()) && UsersNow() == ClearedOf(cfg, u, r)
        decreases todo
      {
        var t :| t in todo;
        ghost var w := UsersNow();
        DroppedMore(cfg, k, CachesNow(), r, t);
        DroppedChoiceToo(cfg, k, Invalidated(cfg, CachesNow(), t), r + {t});
        UnsetNoRecursiveInvalidate(t);
        AfterChange(cfg, rank, w, t, "");
        ClearedMore(cfg, u, r, t);
        r := r + {t};
        todo := todo - {t};
      }
      assert r == cfg.syms;
    }

    /** The assignments of `load_config`. Everything has been invalidated before the first of
        them, and nothing is computed in between. */
    method LoadConfig(assignments: seq<(Symbol, string)>, replace: bool)
      requires Intact()
      modifies this
      ensures Intact()
      ensures UsersNow() == Loaded(cfg, if replace then Cleared(cfg, old(UsersNow())) else old(UsersNow()), assignments)
    {
      hide Sound, DepsRight, Coherent, Dropped, Loaded, Cleared, Fresh, Doubtful;
      ghost var u, k := UsersNow(), CachesNow();
      if replace {
        UnsetUserValues(k);
      } else {
        InvalidateAll(k);
      }
      AssignAll(assignments);
      AllDropped(cfg, rank, u, UsersNow(), k, CachesNow(), DoubtsNow());
      stale := stale + Aged(CachesNow(), cfg.syms);
    }

    method AssignAll(assignments: seq<(Symbol, string)>)
      requires Sound(cfg, rank, UsersNow())
      modifies `userVal, `userPick, `userMode
      ensures Sound(cfg, rank, UsersNow()) && UsersNow() == Loaded(cfg, old(UsersNow()), assignments)
    {
      hide Sound, Assigned;
      var i := 0;
      while i < |assignments|
        invariant 0 <= i <= |assignments| && Sound(cfg, rank, UsersNow())
        invariant Loaded(cfg, UsersNow(), assignments[i..]) == Loaded(cfg, old(UsersNow()), assignments)
      {
        var s, v := assignments[i].0, assignments[i].1;
        assert assignments[i..][0] == assignments[i] && assignments[i..][1..] == assignments[i + 1..];
        if s in cfg.syms {
          AfterChange(cfg, rank, UsersNow(), s, v);
          SetUserValueNoInvalidate(s, v);
        }
        i := i + 1;
      }
    }
  }

  /* ----- facts the operations use ----- */

  function WithoutChoice(k: Caches, c: nat): Caches {
    k.(choiceVis := k.choiceVis - {c}, sel := k.sel - {c})
  }

  /** No user values for the symbols of `r`, and none for their choices. */
  ghost predicate ChoiceIn(cfg: Config, c: nat, r: set<Symbol>) {
    exists s :: s in r && cfg.sym(s).choice == Some(c)
  }

  ghost function Without<T>(cfg: Config, m: map<nat, T>, r: set<Symbol>): map<nat, T> {
    map c | c in m && !ChoiceIn(cfg, c, r) :: m[c]
  }

  ghost function ClearedOf(cfg: Config, u: Users, r: set<Symbol>): Users {
    Users(u.val - r, Without(cfg, u.pick, r), Without(cfg, u.mode, r))
  }

  /** As if no user value had ever been given. */
  ghost function Cleared(cfg: Config, u: Users): Users {
    ClearedOf(cfg, u, cfg.syms)
  }

  lemma ClearedNone(cfg: Config, u: Users)
    ensures ClearedOf(cfg, u, {}) == u
  {
  }

  lemma WithoutMore<T>(cfg: Config, m: map<nat, T>, r: set<Symbol>, s: Symbol)
    ensures Without(cfg, m, r + {s})
            == if cfg.sym(s).choice.Some? then Without(cfg, m, r) - {cfg.sym(s).choice.value} else Without(cfg, m, r)
  {
    assert forall c: nat :: ChoiceIn(cfg, c, r + {s}) <==> ChoiceIn(cfg, c, r) || cfg.sym(s).choice == Some(c);
  }

  lemma ClearedMore(cfg: Config, u: Users, r: set<Symbol>, s: Symbol)
    ensures Unassigned(cfg, ClearedOf(cfg, u, r), s) == ClearedOf(cfg, u, r + {s})
  {
    hide Without;
    WithoutMore(cfg, u.pick, r, s);
    WithoutMore(cfg, u.mode, r, s);
    assert u.val - r - {s} == u.val - (r + {s});
  }

  lemma MembersFacts(cfg: Config, rank: Rank, users: Users, s: Symbol)
    requires Sound(cfg, rank, users) && s in cfg.syms && cfg.sym(s).choice.Some?
    ensures forall m :: m in cfg.choice(cfg.sym(s).choice.value).members ==>
              m in cfg.syms && rank(m) == rank(s) && m in Group(cfg, s)
  {
    MembersRanked(cfg, rank, s);
  }

  lemma GroupListed(cfg: Config, rank: Rank, users: Users, s: Symbol, done: seq<Symbol>)
    requires Sound(cfg, rank, users) && s in cfg.syms
    requires cfg.sym(s).choice.Some? ==> done == cfg.choice(cfg.sym(s).choice.value).members
    ensures WellFormedConfig(cfg) && forall m :: m in Group(cfg, s) ==> m in done || m == s
  {
  }

  lemma ReaderFacts(cfg: Config, rank: Rank, users: Users, s: Symbol, t: Symbol)
    requires Sound(cfg, rank, users) && t in Readers(cfg, s)
    ensures t in cfg.syms && rank(s) < rank(t)
  {
    hide SymReads;
  }

  lemma MemberAt(cfg: Config, rank: Rank, users: Users, tainted: set<Symbol>, c: nat)
    requires Sound(cfg, rank, users) && HasMembers(cfg, c) && Doubtful(cfg, tainted)
    ensures ChoiceAt(cfg, rank, tainted, LevelOf(rank, tainted, cfg.choice(c).members[0]), c)
  {
    hide SymReads, Ranked, ChoiceAt, WellFormedUsers, Doubtful, Targets;
    assert cfg.choice(c).members[0] in cfg.choice(c).members;
    SymbolBelow(cfg, rank, users, tainted, cfg.choice(c).members[0]);
  }

  lemma IsReady(cfg: Config, rank: Rank, users: Users, k: Caches, d: Doubts)
    requires Sound(cfg, rank, users) && Coherent(cfg, users, Fresh(cfg, users, rank), k, d)
    requires Doubtful(cfg, d.tainted)
    ensures Ready(cfg, rank, users, Fresh(cfg, users, rank), k, d)
  {
    FreshSolves(cfg, users, rank);
  }

  lemma AfterChange(cfg: Config, rank: Rank, u: Users, s: Symbol, v: string)
    requires Sound(cfg, rank, u) && s in cfg.syms
    ensures Sound(cfg, rank, Assigned(cfg, u, s, v)) && OnlyAt(cfg, u, Assigned(cfg, u, s, v), s)
    ensures Sound(cfg, rank, Unassigned(cfg, u, s)) && OnlyAt(cfg, u, Unassigned(cfg, u, s), s)
  {
    hide WellFormedConfig, WellFormedUsers, Ranked, Assigned, Unassigned, OnlyAt;
    AssignedOnlyAt(cfg, u, s, v);
    UnassignedOnlyAt(cfg, u, s);
  }

  lemma DroppedFirst(cfg: Config, k: Caches, s: Symbol)
    ensures Dropped(cfg, k, Invalidated(cfg, k, s), {s})
  {
    DroppedSame(cfg, k);
    DroppedMore(cfg, k, k, {}, s);
    assert {} + {s} == {s};
  }

  lemma DroppedChoiceToo(cfg: Config, k: Caches, k': Caches, r: set<Symbol>)
    requires Dropped(cfg, k, k', r)
    ensures forall c: nat :: Dropped(cfg, k, WithoutChoice(k', c), r)
  {
    hide DroppedSymbols, NoneIn;
    forall c: nat ensures Dropped(cfg, k, WithoutChoice(k', c), r) {
      var i := WithoutChoice(k', c);
      assert DroppedSymbols(cfg, k, i, r) by { SameSymbols(cfg, k, k', i, r); }
    }
  }

  lemma SameSymbols(cfg: Config, k: Caches, k': Caches, i: Caches, r: set<Symbol>)
    requires DroppedSymbols(cfg, k, k', r) && i.val == k'.val && i.vis == k'.vis
    ensures DroppedSymbols(cfg, k, i, r)
  {
    hide DroppedFrom;
  }

  lemma ChangeCoherent(cfg: Config, rank: Rank, u: Users, w: Users, s: Symbol, r: set<Symbol>, k: Caches, k': Caches,
                       d: Doubts)
    requires Sound(cfg, rank, u) && Coherent(cfg, u, Fresh(cfg, u, rank), k, d) && Sound(cfg, rank, w)
             && OnlyAt(cfg, u, w, s) && Doubtful(cfg, d.tainted)
    requires s in cfg.syms && Least(cfg, s, r) && Dropped(cfg, k, k', r)
    ensures Coherent(cfg, w, Fresh(cfg, w, rank), k', d.(stale := d.stale + Aged(k', r)))
  {
    hide Coherent, Doubtful, Dropped, OnlyAt, Closed, WellFormedConfig, Ranked, WellFormedUsers;
    IsReady(cfg, rank, u, k, d);
    FreshSolves(cfg, w, rank);
    StillCoherent(cfg, u, w, s, r, Fresh(cfg, u, rank), Fresh(cfg, w, rank), rank, k, k', d);
  }

  lemma AllDropped(cfg: Config, rank: Rank, u: Users, w: Users, k: Caches, k': Caches, d: Doubts)
    requires Sound(cfg, rank, u) && Coherent(cfg, u, Fresh(cfg, u, rank), k, d) && Sound(cfg, rank, w)
    requires Dropped(cfg, k, k', cfg.syms) && Doubtful(cfg, d.tainted)
    ensures Coherent(cfg, w, Fresh(cfg, w, rank), k', d.(stale := d.stale + Aged(k', cfg.syms)))
  {
    hide Coherent, Doubtful, Dropped;
    FreshSolves(cfg, u, rank);
    FreshSolves(cfg, w, rank);
    NothingCached(cfg, u, w, Fresh(cfg, u, rank), Fresh(cfg, w, rank), k, k', d);
  }

  /** The least closed set around `s`. */
  ghost predicate Least(cfg: Config, s: Symbol, r: set<Symbol>) {
    s in r && Closed(cfg, r) && forall t: set<Symbol> :: Closed(cfg, t) && s in t ==> r <= t
  }

  lemma CoversLeast(cfg: Config, s: Symbol, all: set<Symbol>)
    requires Covers(cfg, s, all)
    ensures Least(cfg, s, all + {s})
  {
    hide Closed;
  }

  /** Only what depends on `s` is newly in doubt. */
  ghost predicate Behindhand(cfg: Config, s: Symbol, before: set<Symbol>, after: set<Symbol>) {
    forall t: set<Symbol> :: Closed(cfg, t) && s in t ==> after <= before + t
  }

  lemma BehindSame(cfg: Config, s: Symbol, before: set<Symbol>)
    ensures Behindhand(cfg, s, before, before)
  {
  }

  /** The visibilities of special symbols stay cached. */
  ghost predicate SpecialKept(cfg: Config, k: Caches, k': Caches) {
    forall x :: x in k.vis && cfg.sym(x).special.Some? ==> x in k'.vis && k'.vis[x] == k.vis[x]
  }

  lemma AgedBehind(cfg: Config, s: Symbol, r: set<Symbol>, k: Caches, k': Caches, before: set<Symbol>)
    requires Least(cfg, s, r) && Dropped(cfg, k, k', r)
    ensures Behindhand(cfg, s, before, before + Aged(k', r)) && SpecialKept(cfg, k, k')
  {
    hide Closed, DroppedChoices;
  }

  /** Dropping alone leaves right what is right. */
  lemma DropCoherent(cfg: Config, u: Users, V: Valuation, k: Caches, k': Caches, d: Doubts, r: set<Symbol>)
    requires Coherent(cfg, u, V, k, d) && Dropped(cfg, k, k', r)
    ensures Coherent(cfg, u, V, k', d) && SpecialKept(cfg, k, k')
  {
    hide Clean, SymVis, ChoiceVis, SelectionOf, NoneIn;
  }

  /** A MODULES symbol that is not defined cannot be set. */
  lemma ModulesUnset(cfg: Config, rank: Rank, u: Users, s: Symbol, v: string)
    requires Sound(cfg, rank, u) && cfg.modules == Some(s)
    ensures Assigned(cfg, u, s, v) == u
  {
  }

  /* ----- what the loops ask for has smaller ranks ----- */

  lemma SymbolFacts(cfg: Config, rank: Rank, users: Users, V: Valuation, k: Caches, d: Doubts, s: Symbol)
    requires Ready(cfg, rank, users, V, k, d) && s in cfg.syms
    ensures var at := LevelOf(rank, d.tainted, s);
            && (cfg.sym(s).choice.Some? ==> ChoiceAt(cfg, rank, d.tainted, at, cfg.sym(s).choice.value))
            && Below(cfg, rank, d.tainted, at, PromptSyms(cfg.sym(s).prompts))
            && Below(cfg, rank, d.tainted, at, DefaultSyms(cfg.sym(s).defaults))
            && Below(cfg, rank, d.tainted, at, RangeSyms(cfg.sym(s).ranges))
            && Below(cfg, rank, d.tainted, at, OptSyms(Some(cfg.sym(s).revDep)))
  {
    hide Sound, Solves, Coherent, Below, ChoiceAt, SymReads, Doubtful;
    var at := LevelOf(rank, d.tainted, s);
    SymbolBelow(cfg, rank, users, d.tainted, s);
    ChoiceReads(cfg, s);
    BelowPart(cfg, rank, d.tainted, at, SymReads(cfg, s), PromptSyms(cfg.sym(s).prompts));
    BelowPart(cfg, rank, d.tainted, at, SymReads(cfg, s), DefaultSyms(cfg.sym(s).defaults));
    BelowPart(cfg, rank, d.tainted, at, SymReads(cfg, s), RangeSyms(cfg.sym(s).ranges));
    BelowPart(cfg, rank, d.tainted, at, SymReads(cfg, s), ExprSyms(cfg.sym(s).revDep));
  }

  lemma DefaultHead(cfg: Config, rank: Rank, tainted: set<Symbol>, at: Level, defaults: seq<DefaultExpr>)
    requires Below(cfg, rank, tainted, at, DefaultSyms(defaults)) && defaults != []
    ensures Below(cfg, rank, tainted, at, ExprSyms(defaults[0].value))
    ensures Below(cfg, rank, tainted, at, OptSyms(defaults[0].cond))
    ensures Below(cfg, rank, tainted, at, DefaultSyms(defaults[1..]))
  {
  }

  lemma RangeHead(cfg: Config, rank: Rank, tainted: set<Symbol>, at: Level, ranges: seq<RangeExpr>)
    requires Below(cfg, rank, tainted, at, RangeSyms(ranges)) && ranges != []
    ensures Below(cfg, rank, tainted, at, TokenSyms(ranges[0].low))
    ensures Below(cfg, rank, tainted, at, TokenSyms(ranges[0].high))
    ensures Below(cfg, rank, tainted, at, OptSyms(ranges[0].cond))
    ensures Below(cfg, rank, tainted, at, RangeSyms(ranges[1..]))
  {
  }

  lemma PromptHead(cfg: Config, rank: Rank, tainted: set<Symbol>, at: Level, prompts: seq<Option<Expression>>)
    requires Below(cfg, rank, tainted, at, PromptSyms(prompts)) && prompts != []
    ensures Below(cfg, rank, tainted, at, OptSyms(prompts[0]))
    ensures Below(cfg, rank, tainted, at, PromptSyms(prompts[1..]))
  {
  }

  lemma ListHead(cfg: Config, rank: Rank, tainted: set<Symbol>, at: Level, es: seq<Expression>)
    requires Below(cfg, rank, tainted, at, ListSyms(es)) && es != []
    ensures Below(cfg, rank, tainted, at, ExprSyms(es[0])) && Below(cfg, rank, tainted, at, ListSyms(es[1..]))
  {
  }

  lemma ChoiceHead(cfg: Config, rank: Rank, tainted: set<Symbol>, at: Level, defaults: seq<ChoiceDefault>)
    requires Below(cfg, rank, tainted, at, ChoiceDefaultSyms(defaults)) && defaults != []
    ensures Below(cfg, rank, tainted, at, OptSyms(defaults[0].cond))
    ensures Below(cfg, rank, tainted, at, ChoiceDefaultSyms(defaults[1..]))
  {
  }

  lemma TargetIn(cfg: Config, c: nat, i: nat)
    requires i < |cfg.choice(c).defaults|
    ensures cfg.choice(c).defaults[i].sym in Targets(cfg, c)
  {
    assert cfg.choice(c).defaults[i] in cfg.choice(c).defaults;
  }

  /** Nothing of a choice that is not in doubt is special. */
  lemma MembersSure(cfg: Config, rank: Rank, at: Level, users: Users, V: Valuation, k: Caches, d: Doubts, c: nat)
    requires Ready(cfg, rank, users, V, k, d) && ChoiceAt(cfg, rank, d.tainted, at, c)
    ensures forall m :: m in cfg.choice(c).members ==>
              && m in cfg.syms && rank(m) == at.n
              && (at.sure ==> m !in d.tainted && m !in d.stale)
    ensures at.sure ==> forall x :: x in Targets(cfg, c) ==> x !in d.tainted && x !in d.stale
  {
    hide Solves, Ranked, SymVis, ChoiceVis, SelectionOf, CoherentVals, SymReads, Targets, Closed;
    if at.sure {
      CleanOrderly(cfg, d.tainted, c);
    }
  }

  lemma PickInside(cfg: Config, rank: Rank, at: Level, users: Users, V: Valuation, k: Caches, d: Doubts, c: nat)
    requires Ready(cfg, rank, users, V, k, d) && ChoiceAt(cfg, rank, d.tainted, at, c) && c in users.pick
    ensures users.pick[c] in cfg.syms && rank(users.pick[c]) == at.n
    ensures at.sure ==> users.pick[c] !in d.tainted && users.pick[c] !in d.stale
  {
    hide Coherent, Solves, Ranked, Doubtful;
    MembersSure(cfg, rank, at, users, V, k, d, c);
  }

  lemma ChosenMember(cfg: Config, rank: Rank, at: Level, users: Users, V: Valuation, k: Caches, d: Doubts, c: nat)
    requires Ready(cfg, rank, users, V, k, d) && ChoiceAt(cfg, rank, d.tainted, at, c)
    ensures forall x :: x in Targets(cfg, c) ==> x in cfg.syms && rank(x) <= at.n
    ensures forall m :: m in cfg.choice(c).members ==>
              && m in cfg.syms && rank(m) == at.n
              && (at.sure ==> m !in d.tainted && m !in d.stale)
    ensures at.sure ==> forall x :: x in Targets(cfg, c) ==> x !in d.tainted && x !in d.stale
    ensures Below(cfg, rank, d.tainted, at, ChoiceDefaultSyms(cfg.choice(c).defaults))
  {
    MembersSure(cfg, rank, at, users, V, k, d, c);
    hide Coherent, Solves, Doubtful;
    var m := cfg.choice(c).members[0];
    assert m in cfg.choice(c).members && cfg.sym(m).choice == Some(c);
    assert Targets(cfg, c) <= Wide(cfg, m);
  }

  lemma NoneCovered(cfg: Config, dep: map<Symbol, set<Symbol>>)
    requires forall s :: s in cfg.syms ==> s in dep && dep[s] == Readers(cfg, s)
    ensures DepsRight(cfg, dep, map[])
  {
  }

  lemma Initial(cfg: Config, rank: Rank, users: Users, k: Caches, d: Doubts)
    requires Sound(cfg, rank, users) && d.stale == {}
    requires k.vis == map[] && k.choiceVis == map[] && k.sel == map[]
    requires k.val == map s | s in cfg.syms && cfg.sym(s).special.Some? :: cfg.sym(s).special.value
    ensures Coherent(cfg, users, Fresh(cfg, users, rank), k, d)
  {
    hide ValueOf, SymReads;
    var V := Fresh(cfg, users, rank);
    FreshSolves(cfg, users, rank);
    forall s | s in k.val ensures k.val[s] == V(s) {
      SpecialValue(cfg, users, V, s);
    }
  }

  /* ----- a choice whose default is none of its members ----- */

  const ALWAYS: seq<Option<Expression>> := [None]
  const IF_TOGGLE: seq<Option<Expression>> := [Some(Atom(Sym(TOGGLE)))]
  const OUTSIDE_FIRST := [ChoiceDefault(OUTSIDE, None)]
  const TOGGLE := Entry(0, Boolean)
  const OUTSIDE := Entry(1, Boolean)
  const MEMBER := Entry(2, Boolean)

  function LeakySymbol(s: Symbol): SymbolDef {
    var prompts: seq<Option<Expression>> :=
      if s == OUTSIDE then IF_TOGGLE
      else if s == TOGGLE || s == MEMBER then ALWAYS
      else [];
    SymbolDef("", prompts, [], Atom(Str("n")), [], if s == MEMBER then Some(0) else None, None, true)
  }

  /** A choice in y mode with one member, whose default names a symbol that is visible only if
      another one is y. */
  function Leaky(lib: Library): Config {
    Config({TOGGLE, OUTSIDE, MEMBER}, {0}, LeakySymbol,
           c => ChoiceDef(ALWAYS, OUTSIDE_FIRST, [MEMBER], false, false), None, lib)
  }

  function LeakyValues(on: bool): Valuation {
    s => if s == TOGGLE then (if on then "y" else "n")
         else if s == MEMBER then (if on then "n" else "y")
         else if s == OUTSIDE then "n"
         else ""
  }

  function LeakyUsers(on: bool): Users {
    Users(if on then map[TOGGLE := "y"] else map[], map[], map[])
  }

  lemma LeakyVis(lib: Library, on: bool)
    ensures var cfg, env := Leaky(lib), EnvOf(LeakyValues(on));
            && SymVis(cfg, TOGGLE, env) == YES && ChoiceVis(cfg, 0, env) == YES && SymVis(cfg, MEMBER, env) == YES
            && SymVis(cfg, OUTSIDE, env) == if on then YES else NO
  {
    var env := EnvOf(LeakyValues(on));
    assert VisFrom(NO, ALWAYS, env) == YES by { assert ALWAYS[1..] == []; }
    assert VisFrom(NO, IF_TOGGLE, env) == (if on then YES else NO) by { assert IF_TOGGLE[1..] == []; }
  }

  lemma LeakySelection(lib: Library, on: bool)
    ensures var cfg, env := Leaky(lib), EnvOf(LeakyValues(on));
            && ModeOf(cfg, LeakyUsers(on), 0, env) == YES
            && SelectionOf(cfg, LeakyUsers(on), 0, env) == Some(if on then OUTSIDE else MEMBER)
  {
    hide SymVis, ChoiceVis;
    LeakyVis(lib, on);
    assert FirstVisible(Leaky(lib), [MEMBER], EnvOf(LeakyValues(on))) == Some(MEMBER);
  }

  lemma LeakySolves(lib: Library, on: bool)
    ensures Solves(Leaky(lib), LeakyUsers(on), LeakyValues(on))
  {
    hide SymVis, SelectionOf, ModeOf;
    LeakyVis(lib, on);
    LeakySelection(lib, on);
  }

  /** If the default of a choice is no member, the selection can change although nothing that
      `_get_dependent` finds belongs to the choice: the cached selection is then stale. Nothing but
      the choice and its member is in doubt here. */
  lemma StaleSelection(lib: Library)
    ensures var cfg := Leaky(lib);
            && !Covered(cfg, 0) && Doubtful(cfg, {MEMBER})
            && Solves(cfg, LeakyUsers(false), LeakyValues(false)) && Solves(cfg, LeakyUsers(true), LeakyValues(true))
            && OnlyAt(cfg, LeakyUsers(false), LeakyUsers(true), TOGGLE)
            && Closed(cfg, {TOGGLE, OUTSIDE}) && NoneIn(cfg, 0, {TOGGLE, OUTSIDE})
            && SelectionOf(cfg, LeakyUsers(false), 0, EnvOf(LeakyValues(false)))
               != SelectionOf(cfg, LeakyUsers(true), 0, EnvOf(LeakyValues(true)))
  {
    hide SelectionOf, SymVis, Covered, Doubtful, Closed, Solves;
    var cfg := Leaky(lib);
    LeakySolves(lib, false);
    LeakySolves(lib, true);
    LeakySelection(lib, false);
    LeakySelection(lib, true);
    LeakyClosed(lib);
    NotCovered(lib);
  }

  lemma NotCovered(lib: Library)
    ensures !Covered(Leaky(lib), 0)
  {
    hide Closed;
    var cfg, r := Leaky(lib), {TOGGLE, OUTSIDE};
    LeakyClosed(lib);
    assert cfg.choice(0).defaults[0] in cfg.choice(0).defaults && OUTSIDE in Targets(cfg, 0);
    assert TOGGLE in SymReads(cfg, OUTSIDE) by {
      assert IF_TOGGLE[1..] == [];
    }
    assert MEMBER in cfg.choice(0).members && !MembersIn(cfg, 0, r);
  }

  lemma LeakyClosed(lib: Library)
    ensures Closed(Leaky(lib), {TOGGLE, OUTSIDE}) && Doubtful(Leaky(lib), {MEMBER})
  {
    var cfg := Leaky(lib);
    assert SymReads(cfg, TOGGLE) == {} by { assert ALWAYS[1..] == []; }
    assert SymReads(cfg, MEMBER) == {} by {
      assert ALWAYS[1..] == [];
      assert OUTSIDE_FIRST[1..] == [];
      assert PromptSyms(ALWAYS) == {} && ChoiceDefaultSyms(OUTSIDE_FIRST) == {};
    }
    assert SymReads(cfg, OUTSIDE) == {TOGGLE} by { assert IF_TOGGLE[1..] == []; }
  }

  /* ----- a special symbol with a prompt ----- */

  const ENVIRONMENT := Entry(3, Text)

  function FixedSymbol(s: Symbol): SymbolDef {
    if s == ENVIRONMENT then SymbolDef("", IF_TOGGLE, [], Atom(Str("n")), [], None, Some("x"), true)
    else SymbolDef("", ALWAYS, [], Atom(Str("n")), [], None, None, true)
  }

  /** A symbol with its value from the environment, and a prompt that is visible only if another
      symbol is y. */
  function Fixed(lib: Library): Config {
    Config({TOGGLE, ENVIRONMENT}, {}, FixedSymbol, c => ChoiceDef([], [], [], false, false), None, lib)
  }

  function FixedRank(s: Symbol): nat {
    if s == ENVIRONMENT then 1 else 0
  }

  lemma FixedSound(lib: Library)
    ensures Sound(Fixed(lib), FixedRank, LeakyUsers(false)) && Doubtful(Fixed(lib), {})
    ensures Sound(Fixed(lib), FixedRank, LeakyUsers(true))
  {
    assert IF_TOGGLE[1..] == [] && ALWAYS[1..] == [];
    assert SymReads(Fixed(lib), TOGGLE) == {} && SymReads(Fixed(lib), ENVIRONMENT) == {TOGGLE};
    hide SymReads;
  }

  lemma FixedVis(lib: Library, on: bool)
    ensures var V := Fresh(Fixed(lib), LeakyUsers(on), FixedRank);
            SymVis(Fixed(lib), ENVIRONMENT, EnvOf(V)) == if on then YES else NO
  {
    hide Sound, Solves, SymVis;
    var cfg, users := Fixed(lib), LeakyUsers(on);
    var V := Fresh(cfg, users, FixedRank);
    assert WellFormedConfig(cfg) && Ranked(cfg, FixedRank) && WellFormedUsers(cfg, users) by {
      FixedSound(lib);
      SoundParts(cfg, FixedRank, users);
    }
    FreshSolves(cfg, users, FixedRank);
    ToggleValue(lib, on, V);
    ToggledVis(lib, V);
  }

  lemma SoundParts(cfg: Config, rank: Rank, users: Users)
    requires Sound(cfg, rank, users)
    ensures WellFormedConfig(cfg) && Ranked(cfg, rank) && WellFormedUsers(cfg, users)
  {
  }

  lemma ToggleValue(lib: Library, on: bool, V: Valuation)
    requires Solves(Fixed(lib), LeakyUsers(on), V)
    ensures V(TOGGLE) == if on then "y" else "n"
  {
    var cfg, env := Fixed(lib), EnvOf(V);
    assert VisFrom(NO, ALWAYS, env) == YES by { assert ALWAYS[1..] == []; }
    assert V(TOGGLE) == ValueOf(cfg, LeakyUsers(on), TOGGLE, env);
  }

  lemma ToggledVis(lib: Library, V: Valuation)
    ensures SymVis(Fixed(lib), ENVIRONMENT, EnvOf(V)) == Max(NO, TriFrom(V(TOGGLE)))
  {
    var env := EnvOf(V);
    assert IF_TOGGLE[1..] == [] && Value(Atom(Sym(TOGGLE)), env) == TriFrom(V(TOGGLE));
    assert VisFrom(NO, IF_TOGGLE, env) == Max(NO, ValueOpt(IF_TOGGLE[0], env));
  }

  lemma FixedFacts(lib: Library)
    ensures var cfg := Fixed(lib);
            && TOGGLE in cfg.syms && ENVIRONMENT in cfg.syms && cfg.sym(ENVIRONMENT).special.Some?
            && (forall t :: t in cfg.syms ==> FixedRank(t) < 2)
            && LeakyUsers(false) == Users(map[], map[], map[])
            && Assigned(cfg, LeakyUsers(false), TOGGLE, "y") == LeakyUsers(true)
  {
  }

  /** A special symbol is never invalidated: its visibility stays as it was first asked for. */
  method StaleVisibility(lib: Library) returns (before: Tristate, after: Tristate)
    ensures before == after == NO
    ensures SymVis(Fixed(lib), ENVIRONMENT, EnvOf(Fresh(Fixed(lib), LeakyUsers(true), FixedRank))) == YES
  {
    hide Sound, SymVis, Fresh, Doubtful, Behindhand, Fixed, FixedRank, LeakyUsers, Coherent, DepsRight, Assigned;
    FixedSound(lib);
    FixedFacts(lib);
    FixedVis(lib, false);
    FixedVis(lib, true);
    var c := new Configuration(Fixed(lib), FixedRank, 2, {});
    before := c.GetVisible(ENVIRONMENT);
    c.SetUserValue(TOGGLE, "y");
    assert c.UsersNow() == LeakyUsers(true);
    after := c.GetVisible(ENVIRONMENT);
  }
}
