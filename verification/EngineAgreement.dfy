/** The C code and Kconfiglib give the symbols of one configuration the same values. */
module EngineAgreement {
  import opened Exprs
  import opened KconfiglibExprs
  import C = SymbolSpec
  import CTheory = SymbolTheory
  import CLaws = SymbolLaws
  import K = KconfiglibSpec
  import KTheory = KconfiglibTheory
  import KLaws = KconfiglibLaws

  /** The constant symbols of the C code, by their text. */
  type Constants = string -> Symbol

  ghost predicate Named(c: C.Config, constant: Constants) {
    forall w: string :: constant(w).Constant? && c.name(constant(w)) == w
  }

  /* ----- corresponding configurations ----- */

  ghost predicate SameExpr(e: Expr, f: Expression, constant: Constants) {
    Printable(f) && OnlyEntries(f) && e == ToC(f, constant)
  }

  ghost predicate SameOpt(e: Option<Expr>, f: Option<Expression>, constant: Constants) {
    if f.None? then e.None? else e.Some? && SameExpr(e.value, f.value, constant)
  }

  ghost predicate SamePrompts(c: C.Definition, k: K.SymbolDef, constant: Constants) {
    && |c.prompts| == |k.prompts|
    && forall i :: 0 <= i < |k.prompts| ==> SameOpt(c.prompts[i], k.prompts[i], constant)
  }

  ghost predicate SameDefaults(c: C.Definition, k: K.SymbolDef, constant: Constants) {
    && |c.defaults| == |k.defaults|
    && forall i :: 0 <= i < |k.defaults| ==>
         && SameExpr(c.defaults[i].expr, k.defaults[i].value, constant)
         && SameOpt(c.defaults[i].cond, k.defaults[i].cond, constant)
  }

  /** Kconfiglib writes n for a symbol that nothing selects. */
  ghost predicate SameSelects(c: C.Definition, k: K.SymbolDef, constant: Constants) {
    if c.revDep.None? then k.revDep == Atom(Str("n")) else SameExpr(c.revDep.value, k.revDep, constant)
  }

  /** The default of a string symbol names no bool or tristate symbol. */
  predicate PlainStrings(s: Symbol, k: K.SymbolDef) {
    K.IsText(s) ==>
      forall i :: 0 <= i < |k.defaults| ==>
        k.defaults[i].value.Atom? && k.defaults[i].value.item.Sym? ==> !k.defaults[i].value.item.sym.IsTri()
  }

  /** What only one of the two decides alike: numbers, the members of choices, and what comes from the
      environment. */
  predicate Exempt(s: Symbol, c: C.Definition, k: K.SymbolDef) {
    K.IsNumber(s) || c.choice.Some? || c.members.Some? || k.choice.Some? || k.special.Some?
  }

  ghost predicate SameSymbol(s: Symbol, c: C.Definition, k: K.SymbolDef, constant: Constants) {
    !Exempt(s, c, k) ==>
      SamePrompts(c, k, constant) && SameDefaults(c, k, constant) && SameSelects(c, k, constant)
  }

  /** The same entries with the same properties. */
  ghost predicate SameConfig(c: C.Config, k: K.Config, constant: Constants) {
    && Named(c, constant)
    && (forall s: Symbol :: s.Entry? ==> (s in c.symbols <==> s in k.syms) && c.name(s) == k.sym(s).name)
    && (forall s: Symbol :: s in k.syms ==> s.Entry? && SameSymbol(s, c.def(s), k.sym(s), constant))
  }

  ghost predicate SameUser(u: C.UserValue, w: K.Users, s: Symbol) {
    && (u.isSet <==> s in w.val)
    && (u.isSet && s.IsTri() ==> u.tri == K.TriFrom(w.val[s]))
    && (u.isSet && !s.IsTri() ==> u.str == w.val[s])
  }

  ghost predicate SameUsers(k: K.Config, u: C.Users, w: K.Users) {
    forall s :: s in k.syms ==> SameUser(u(s), w, s)
  }

  /** Both give the symbol the same value. */
  predicate Agree(V: C.Valuation, W: K.Valuation, s: Symbol) {
    W(s) == if s.IsTri() then TriName(V(s).tri) else V(s).str
  }

  /* ----- expressions ----- */

  ghost predicate AgreeOn(V: C.Valuation, W: K.Valuation, ss: set<Symbol>) {
    forall s :: s in ss ==> Agree(V, W, s) && V(s).tri != MOD
  }

  lemma TokenSame(t: Token, V: C.Valuation, W: K.Valuation)
    requires AgreeOn(V, W, K.TokenSyms(t))
    ensures StrVal(t, C.EnvOf(V)) == StrVal(t, K.EnvOf(W)) && ItemVal(t, C.EnvOf(V)) == ItemVal(t, K.EnvOf(W))
  {
    if t.Sym? {
      assert t.sym in K.TokenSyms(t);
      assert Agree(V, W, t.sym) && V(t.sym).tri != MOD;
      assert TriName(YES)[0] == 'y' && TriName(NO)[0] == 'n';
    }
  }

  lemma {:induction false} ExprSame(e: Expression, V: C.Valuation, W: K.Valuation)
    requires AgreeOn(V, W, K.ExprSyms(e))
    ensures Value(e, C.EnvOf(V)) == Value(e, K.EnvOf(W))
    decreases e, 0
  {
    hide Agree, C.EnvOf, K.EnvOf, StrVal, ItemVal, K.TokenSyms;
    match e
    case Atom(t) =>
      TokenSame(t, V, W);
    case Rel(_, l, r) =>
      TokenSame(l, V, W);
      if r.Some? {
        TokenSame(r.value, V, W);
      }
    case Inverse(a) =>
      ExprSame(a, V, W);
    case List(op, es) =>
      ListSame(op, es, V, W);
  }

  lemma {:induction false} ListSame(op: Op, es: seq<Expression>, V: C.Valuation, W: K.Valuation)
    requires AgreeOn(V, W, K.ListSyms(es))
    ensures Fold(op, es, C.EnvOf(V)) == Fold(op, es, K.EnvOf(W))
    decreases es, 0
  {
    hide Agree, C.EnvOf, K.EnvOf;
    if es != [] {
      ExprSame(es[0], V, W);
      ListSame(op, es[1..], V, W);
    }
  }

  lemma ConstantsShared(c: C.Config, constant: Constants, u: C.Users, V: C.Valuation)
    requires C.WellFormedConfig(c) && C.Solves(c, u, V) && Named(c, constant)
    requires forall s: Symbol :: s.Entry? && !s.IsTri() ==> V(s).tri == NO
    ensures Shared(C.EnvOf(V), constant)
  {
    hide C.ReadsOnly, C.ChoicesLinked, C.ValueOf;
    forall w: string
      ensures C.EnvOf(V).str(constant(w)) == w && C.EnvOf(V).tri(constant(w)) == ItemVal(Str(w), C.EnvOf(V))
    {
      CTheory.ConstantNames(c, u, V, constant(w));
      ConstantValue(c, constant, u, V, w);
    }
  }

  lemma ConstantValue(c: C.Config, constant: Constants, u: C.Users, V: C.Valuation, w: string)
    requires C.WellFormedConfig(c) && C.Solves(c, u, V) && Named(c, constant)
    ensures V(constant(w)).tri == if w == "y" then YES else if w == "m" then MOD else NO
    ensures V(constant(w)).str == w
  {
    hide C.ReadsOnly, C.ChoicesLinked;
    var s := constant(w);
    assert c.name(ConstOf(YES)) == "y" && c.name(ConstOf(MOD)) == "m" && c.name(ConstOf(NO)) == "n";
  }

  lemma NoTriValue(c: C.Config, u: C.Users, V: C.Valuation, s: Symbol)
    requires C.Solves(c, u, V) && s.Entry? && !s.IsTri()
    ensures V(s).tri == NO
  {
  }

  /** The two forms of an expression have the same value. */
  lemma Sides(c: C.Config, constant: Constants, u: C.Users, V: C.Valuation, W: K.Valuation, e: Expr, f: Expression)
    requires C.WellFormedConfig(c) && C.Solves(c, u, V) && Named(c, constant)
    requires SameExpr(e, f, constant) && AgreeOn(V, W, K.ExprSyms(f))
    ensures Eval(e, C.EnvOf(V)) == Value(f, K.EnvOf(W))
  {
    hide C.WellFormedConfig, C.Solves, Shared;
    forall s: Symbol | s.Entry? && !s.IsTri() ensures V(s).tri == NO {
      NoTriValue(c, u, V, s);
    }
    ConstantsShared(c, constant, u, V);
    SameAsC(f, C.EnvOf(V), constant);
    ExprSame(f, V, W);
  }

  /* ----- prompts and defaults ----- */

  /** Corresponding meanings of corresponding configurations, and a symbol all of whose dependencies
      have the same values. */
  ghost predicate Matched(c: C.Config, k: K.Config, constant: Constants, u: C.Users, w: K.Users, V: C.Valuation,
                          W: K.Valuation) {
    && SameConfig(c, k, constant) && SameUsers(k, u, w)
    && C.WellFormedConfig(c) && C.Solves(c, u, V) && K.Solves(k, w, W)
  }

  lemma OptSides(c: C.Config, k: K.Config, constant: Constants, u: C.Users, w: K.Users, V: C.Valuation, W: K.Valuation,
                 e: Option<Expr>, f: Option<Expression>)
    requires Matched(c, k, constant, u, w, V, W)
    requires SameOpt(e, f, constant) && AgreeOn(V, W, K.OptSyms(f))
    ensures EvalOpt(e, C.EnvOf(V)) == ValueOpt(f, K.EnvOf(W))
  {
    hide C.WellFormedConfig, C.Solves, K.Solves, C.EnvOf, K.EnvOf, SameExpr;
    if f.Some? {
      Sides(c, constant, u, V, W, e.value, f.value);
    }
  }

  lemma {:induction false} PromptInside(prompts: seq<Option<Expression>>, i: nat)
    requires i < |prompts|
    ensures K.OptSyms(prompts[i]) <= K.PromptSyms(prompts)
  {
    if i > 0 {
      PromptInside(prompts[1..], i - 1);
    }
  }

  lemma {:induction false} DefaultInside(defaults: seq<K.DefaultExpr>, i: nat)
    requires i < |defaults|
    ensures K.OptSyms(defaults[i].cond) + K.ExprSyms(defaults[i].value) <= K.DefaultSyms(defaults)
  {
    if i > 0 {
      DefaultInside(defaults[1..], i - 1);
    }
  }

  lemma ShownSame(c: C.Config, k: K.Config, constant: Constants, u: C.Users, w: K.Users, V: C.Valuation,
                  W: K.Valuation, s: Symbol)
    requires Matched(c, k, constant, u, w, V, W) && s in k.syms && !Exempt(s, c.def(s), k.sym(s))
    requires AgreeOn(V, W, K.SymReads(k, s))
    ensures CLaws.Shown(c, s, C.EnvOf(V)) == KLaws.Shown(k, s, K.EnvOf(W))
  {
    hide C.WellFormedConfig, C.Solves, K.Solves, C.EnvOf, K.EnvOf, SameOpt, SameUsers, K.OptSyms, K.PromptSyms;
    hide SameDefaults, EvalOpt, ValueOpt, Agree;
    assert SamePrompts(c.def(s), k.sym(s), constant);
    forall i | 0 <= i < |k.sym(s).prompts|
      ensures EvalOpt(c.def(s).prompts[i], C.EnvOf(V)) == ValueOpt(k.sym(s).prompts[i], K.EnvOf(W))
    {
      PromptInside(k.sym(s).prompts, i);
      OptSides(c, k, constant, u, w, V, W, c.def(s).prompts[i], k.sym(s).prompts[i]);
    }
  }

  /** The same default applies first, with the same value. */
  lemma DefaultsSame(c: C.Config, k: K.Config, constant: Constants, u: C.Users, w: K.Users, V: C.Valuation,
                     W: K.Valuation, s: Symbol, j: nat)
    requires Matched(c, k, constant, u, w, V, W) && s in k.syms && !Exempt(s, c.def(s), k.sym(s))
    requires AgreeOn(V, W, K.SymReads(k, s))
    ensures var d := k.sym(s).defaults;
            && |d| == |c.def(s).defaults|
            && (CLaws.FirstActive(c, s, C.EnvOf(V), j) <==> KLaws.FirstOf(KLaws.Conds(d), K.EnvOf(W), j))
            && (j < |d| ==> Eval(c.def(s).defaults[j].expr, C.EnvOf(V)) == Value(d[j].value, K.EnvOf(W)))
            && (j < |d| && K.IsText(s) && PlainStrings(s, k.sym(s)) ==>
                  CLaws.NamedStr(c.def(s).defaults[j].expr, V) == KLaws.NamedStr(d[j].value, K.EnvOf(W)))
  {
    hide C.WellFormedConfig, C.Solves, K.Solves, C.EnvOf, K.EnvOf, SameOpt, SameUsers, K.OptSyms, K.DefaultSyms;
    hide SameExpr, SamePrompts, EvalOpt, ValueOpt, Agree, CLaws.NamedStr, KLaws.NamedStr, K.ExprSyms;
    var d := k.sym(s).defaults;
    assert SameDefaults(c.def(s), k.sym(s), constant);
    forall i | 0 <= i < |d| ensures EvalOpt(c.def(s).defaults[i].cond, C.EnvOf(V)) == ValueOpt(d[i].cond, K.EnvOf(W))
    {
      DefaultInside(d, i);
      OptSides(c, k, constant, u, w, V, W, c.def(s).defaults[i].cond, d[i].cond);
    }
    assert forall i :: 0 <= i < |d| ==> KLaws.Conds(d)[i] == d[i].cond;
    if j < |d| {
      DefaultInside(d, j);
      Sides(c, constant, u, V, W, c.def(s).defaults[j].expr, d[j].value);
      if K.IsText(s) && PlainStrings(s, k.sym(s)) {
        NamedSame(c, constant, u, V, W, c.def(s).defaults[j].expr, d[j].value);
      }
    }
  }

  /** A default that names no bool or tristate symbol gives the same string. */
  lemma NamedSame(c: C.Config, constant: Constants, u: C.Users, V: C.Valuation, W: K.Valuation, e: Expr,
                  f: Expression)
    requires C.WellFormedConfig(c) && C.Solves(c, u, V) && Named(c, constant)
    requires SameExpr(e, f, constant) && AgreeOn(V, W, K.ExprSyms(f))
    requires f.Atom? && f.item.Sym? ==> !f.item.sym.IsTri()
    ensures CLaws.NamedStr(e, V) == KLaws.NamedStr(f, K.EnvOf(W))
  {
    hide C.WellFormedConfig, C.Solves;
    if f.Atom? {
      if f.item.Str? {
        ConstantValue(c, constant, u, V, f.item.text);
      } else {
        assert f.item.sym in K.ExprSyms(f);
      }
    } else {
      NoLeaf(f, constant);
    }
  }

  lemma NoLeaf(f: Expression, constant: Constants)
    requires Printable(f) && !f.Atom?
    ensures !ToC(f, constant).Leaf?
  {
  }

  lemma OnByDefaultSame(c: C.Config, k: K.Config, constant: Constants, u: C.Users, w: K.Users, V: C.Valuation,
                        W: K.Valuation, s: Symbol)
    requires Matched(c, k, constant, u, w, V, W) && s in k.syms && !Exempt(s, c.def(s), k.sym(s))
    requires AgreeOn(V, W, K.SymReads(k, s))
    ensures CLaws.OnByDefault(c, s, C.EnvOf(V)) == KLaws.OnByDefault(k, s, K.EnvOf(W))
  {
    hide Matched, CLaws.FirstActive, KLaws.FirstOf, AgreeOn, Exempt, Value, Eval, C.EnvOf, K.EnvOf;
    DefaultsSame(c, k, constant, u, w, V, W, s, 0);
    forall j: nat
      ensures CLaws.FirstActive(c, s, C.EnvOf(V), j) <==>
              KLaws.FirstOf(KLaws.Conds(k.sym(s).defaults), K.EnvOf(W), j)
      ensures j < |k.sym(s).defaults| ==>
                Eval(c.def(s).defaults[j].expr, C.EnvOf(V)) == Value(k.sym(s).defaults[j].value, K.EnvOf(W))
    {
      DefaultsSame(c, k, constant, u, w, V, W, s, j);
    }
  }

  lemma SelectsSame(c: C.Config, k: K.Config, constant: Constants, u: C.Users, w: K.Users, V: C.Valuation,
                    W: K.Valuation, s: Symbol)
    requires Matched(c, k, constant, u, w, V, W) && s in k.syms && !Exempt(s, c.def(s), k.sym(s))
    requires AgreeOn(V, W, K.SymReads(k, s))
    ensures CLaws.Selected(c, s, C.EnvOf(V)) <==> Value(k.sym(s).revDep, K.EnvOf(W)) != NO
  {
    hide C.WellFormedConfig, C.Solves, K.Solves, C.EnvOf, K.EnvOf, SamePrompts, SameDefaults, SameUsers, SameExpr;
    hide Agree;
    assert SameSelects(c.def(s), k.sym(s), constant);
    assert K.ExprSyms(k.sym(s).revDep) <= K.SymReads(k, s);
    if c.def(s).revDep.Some? {
      Sides(c, constant, u, V, W, c.def(s).revDep.value, k.sym(s).revDep);
    }
  }

  /* ----- the values ----- */

  lemma TriSame(c: C.Config, k: K.Config, constant: Constants, u: C.Users, w: K.Users, V: C.Valuation, W: K.Valuation,
                s: Symbol)
    requires Matched(c, k, constant, u, w, V, W) && s in k.syms && !Exempt(s, c.def(s), k.sym(s)) && s.IsTri()
    requires AgreeOn(V, W, K.SymReads(k, s))
    ensures Agree(V, W, s)
  {
    hide C.WellFormedConfig, C.Solves, K.Solves, C.EnvOf, K.EnvOf, SameSymbol, AgreeOn, CLaws.Shown, KLaws.Shown;
    hide CLaws.OnByDefault, KLaws.OnByDefault, CLaws.Selected, Value;
    ShownSame(c, k, constant, u, w, V, W, s);
    OnByDefaultSame(c, k, constant, u, w, V, W, s);
    SelectsSame(c, k, constant, u, w, V, W, s);
    CLaws.TriLaw(c, u, V, s);
    KLaws.TriLaw(k, w, W, s);
    assert SameUser(u(s), w, s);
  }

  lemma TextSame(c: C.Config, k: K.Config, constant: Constants, u: C.Users, w: K.Users, V: C.Valuation, W: K.Valuation,
                 s: Symbol)
    requires Matched(c, k, constant, u, w, V, W) && s in k.syms && !Exempt(s, c.def(s), k.sym(s)) && K.IsText(s)
    requires PlainStrings(s, k.sym(s))
    requires AgreeOn(V, W, K.SymReads(k, s))
    ensures Agree(V, W, s)
  {
    hide C.WellFormedConfig, C.Solves, K.Solves, C.EnvOf, K.EnvOf, SameSymbol, AgreeOn, CLaws.Shown, KLaws.Shown;
    hide KLaws.TextByDefault;
    ShownSame(c, k, constant, u, w, V, W, s);
    CLaws.TextLaw(c, u, V, s);
    KLaws.TextLaw(k, w, W, s);
    assert SameUser(u(s), w, s);
    if !(u(s).isSet && CLaws.Shown(c, s, C.EnvOf(V))) {
      TextDefaultSame(c, k, constant, u, w, V, W, s);
    }
  }

  lemma TextDefaultSame(c: C.Config, k: K.Config, constant: Constants, u: C.Users, w: K.Users, V: C.Valuation,
                        W: K.Valuation, s: Symbol)
    requires Matched(c, k, constant, u, w, V, W) && s in k.syms && !Exempt(s, c.def(s), k.sym(s)) && K.IsText(s)
    requires PlainStrings(s, k.sym(s))
    requires AgreeOn(V, W, K.SymReads(k, s))
    requires forall j: nat :: CLaws.FirstActive(c, s, C.EnvOf(V), j) ==>
               V(s).str == CLaws.NamedStr(c.def(s).defaults[j].expr, V)
    requires (forall j: nat :: !CLaws.FirstActive(c, s, C.EnvOf(V), j)) ==> V(s).str == ""
    requires KLaws.TextByDefault(k.sym(s).defaults, K.EnvOf(W), W(s))
    ensures V(s).str == W(s)
  {
    hide Matched, AgreeOn, Exempt, Value, Eval, C.EnvOf, K.EnvOf, CLaws.NamedStr, KLaws.NamedStr, ValueOpt, EvalOpt;
    var d := k.sym(s).defaults;
    DefaultsSame(c, k, constant, u, w, V, W, s, 0);
    if j: nat :| KLaws.FirstOf(KLaws.Conds(d), K.EnvOf(W), j) {
      DefaultsSame(c, k, constant, u, w, V, W, s, j);
    } else {
      forall j: nat ensures !CLaws.FirstActive(c, s, C.EnvOf(V), j) {
        DefaultsSame(c, k, constant, u, w, V, W, s, j);
      }
    }
  }

  /** A string symbol whose default names a bool or tristate symbol is "n" in the C code and has the value
      of that symbol in Kconfiglib: they agree exactly if it is n. */
  lemma NamedTri(c: C.Config, k: K.Config, constant: Constants, u: C.Users, w: K.Users, V: C.Valuation, W: K.Valuation,
                 s: Symbol, j: nat, b: Symbol)
    requires Matched(c, k, constant, u, w, V, W) && s in k.syms && !Exempt(s, c.def(s), k.sym(s)) && K.IsText(s)
    requires K.WellFormedConfig(k)
    requires AgreeOn(V, W, K.SymReads(k, s)) && !(u(s).isSet && CLaws.Shown(c, s, C.EnvOf(V)))
    requires CLaws.FirstActive(c, s, C.EnvOf(V), j) && c.def(s).defaults[j].expr == Leaf(b) && b.IsTri()
    ensures Agree(V, W, s) <==> V(b).tri == NO
  {
    hide C.WellFormedConfig, C.Solves, K.Solves, C.EnvOf, K.EnvOf, AgreeOn, CLaws.Shown, KLaws.Shown, KLaws.FirstOf;
    hide KLaws.NamedStr, SameSymbol, Value, Eval, EvalOpt, ValueOpt;
    ShownSame(c, k, constant, u, w, V, W, s);
    CLaws.TextLaw(c, u, V, s);
    KLaws.TextLaw(k, w, W, s);
    assert SameUser(u(s), w, s);
    DefaultsSame(c, k, constant, u, w, V, W, s, j);
    NamedTriStrings(c, k, constant, u, w, V, W, s, j, b);
  }

  lemma NamedTriStrings(c: C.Config, k: K.Config, constant: Constants, u: C.Users, w: K.Users, V: C.Valuation,
                        W: K.Valuation, s: Symbol, j: nat, b: Symbol)
    requires Matched(c, k, constant, u, w, V, W) && s in k.syms && !Exempt(s, c.def(s), k.sym(s))
    requires K.WellFormedConfig(k)
    requires AgreeOn(V, W, K.SymReads(k, s))
    requires j < |c.def(s).defaults| && c.def(s).defaults[j].expr == Leaf(b) && b.IsTri()
    ensures j < |k.sym(s).defaults|
    ensures CLaws.NamedStr(c.def(s).defaults[j].expr, V) == "n"
    ensures KLaws.NamedStr(k.sym(s).defaults[j].value, K.EnvOf(W)) == "n" <==> V(b).tri == NO
  {
    hide C.WellFormedConfig, C.Solves, K.Solves, SamePrompts, SameSelects, SameOpt, ToC, Agree, K.SymReads, SameUsers;
    var f := k.sym(s).defaults[j].value;
    assert SameDefaults(c.def(s), k.sym(s), constant);
    LeafSame(f, constant, b);
    DefaultInside(k.sym(s).defaults, j);
    assert b in K.ExprSyms(f);
    DefaultsRead(k, s);
    assert b in K.SymReads(k, s);
    TriString(c, k, constant, u, w, V, W, b);
  }

  lemma DefaultsRead(k: K.Config, s: Symbol)
    ensures K.DefaultSyms(k.sym(s).defaults) <= K.SymReads(k, s)
  {
  }

  lemma LeafSame(f: Expression, constant: Constants, b: Symbol)
    requires Printable(f) && ToC(f, constant) == Leaf(b) && b.IsTri()
    requires forall t: string :: constant(t).Constant?
    ensures f == Atom(Sym(b))
  {
    if !f.Atom? {
      NoLeaf(f, constant);
    }
  }

  lemma TriString(c: C.Config, k: K.Config, constant: Constants, u: C.Users, w: K.Users, V: C.Valuation,
                  W: K.Valuation, b: Symbol)
    requires Matched(c, k, constant, u, w, V, W) && b.IsTri() && b in k.syms && Agree(V, W, b)
    ensures V(b).str == "n" && (W(b) == "n" <==> V(b).tri == NO)
  {
    hide C.WellFormedConfig, K.Solves, SameUsers, C.TriOf, C.VisibleOf;
    assert TriName(YES)[0] != TriName(NO)[0] && TriName(MOD)[0] != TriName(NO)[0];
  }

  lemma UntypedSame(c: C.Config, k: K.Config, constant: Constants, u: C.Users, w: K.Users, V: C.Valuation,
                    W: K.Valuation, s: Symbol)
    requires Matched(c, k, constant, u, w, V, W) && s.Entry? && !s.IsTri() && !K.IsText(s)
    requires s in k.syms ==> !Exempt(s, c.def(s), k.sym(s))
    ensures Agree(V, W, s)
  {
    hide C.WellFormedConfig, SameUsers;
    if s in k.syms {
      KLaws.FixedLaw(k, w, W, s);
    }
  }

  /** In corresponding configurations under corresponding user values, both give every bool, tristate,
      string and untyped symbol outside choices and the environment the same value, as long as they
      agree about the others. */
  lemma {:induction false} EnginesAgree(c: C.Config, k: K.Config, constant: Constants, u: C.Users, w: K.Users,
                                        V: C.Valuation, W: K.Valuation, rank: K.Rank, s: Symbol)
    requires Matched(c, k, constant, u, w, V, W) && K.Ranked(k, rank) && K.WellFormedConfig(k)
    requires forall x :: x in k.syms && (Exempt(x, c.def(x), k.sym(x)) || !PlainStrings(x, k.sym(x))) ==> Agree(V, W, x)
    requires s.Entry? && (s in k.syms || !s.IsTri())
    ensures Agree(V, W, s)
    decreases rank(s)
  {
    hide Agree, K.SymReads, Exempt, PlainStrings, C.WellFormedConfig, C.Solves, K.Solves, SameUsers;
    if s in k.syms && !Exempt(s, c.def(s), k.sym(s)) && PlainStrings(s, k.sym(s)) {
      forall t | t in K.SymReads(k, s) ensures Agree(V, W, t) && V(t).tri != MOD {
        assert t in k.syms && rank(t) < rank(s);
        EnginesAgree(c, k, constant, u, w, V, W, rank, t);
        CTheory.SolutionDefinite(c, u, V, t);
      }
      if s.IsTri() {
        TriSame(c, k, constant, u, w, V, W, s);
      } else if K.IsText(s) {
        TextSame(c, k, constant, u, w, V, W, s);
      } else {
        UntypedSame(c, k, constant, u, w, V, W, s);
      }
    } else if s !in k.syms {
      Undefined(c, k, constant, u, w, V, W, s);
    }
  }

  lemma Undefined(c: C.Config, k: K.Config, constant: Constants, u: C.Users, w: K.Users, V: C.Valuation,
                  W: K.Valuation, s: Symbol)
    requires Matched(c, k, constant, u, w, V, W) && s.Entry? && !s.IsTri() && s !in k.syms
    ensures Agree(V, W, s)
  {
    hide C.WellFormedConfig, SameUsers;
  }

  /** Hence a calculation by the C code and a fresh one by Kconfiglib agree about every symbol of a
      configuration without numbers, choices and symbols from the environment. */
  lemma FreshAgrees(c: C.Config, k: K.Config, constant: Constants, u: C.Users, w: K.Users, crank: C.Rank, rank: K.Rank,
                    s: Symbol)
    requires SameConfig(c, k, constant) && SameUsers(k, u, w)
    requires C.WellFormedConfig(c) && C.Ranked(c, crank) && C.WellFormedUsers(c, u)
    requires K.WellFormedConfig(k) && K.Ranked(k, rank) && K.WellFormedUsers(k, w)
    requires forall x :: x in k.syms ==> !Exempt(x, c.def(x), k.sym(x)) && PlainStrings(x, k.sym(x))
    requires s.Entry? && (s in k.syms || !s.IsTri())
    ensures Agree(x => CTheory.SpecValue(c, u, crank, x), KTheory.Fresh(k, w, rank), s)
  {
    hide C.WellFormedConfig, C.Ranked, K.WellFormedConfig, K.Ranked, SameConfig, SameUsers, C.Solves, K.Solves, Exempt;
    hide C.WellFormedUsers, K.WellFormedUsers, Agree, PlainStrings;
    CTheory.SpecSolves(c, u, crank);
    KTheory.FreshSolves(k, w, rank);
    EnginesAgree(c, k, constant, u, w, x => CTheory.SpecValue(c, u, crank, x), KTheory.Fresh(k, w, rank), rank, s);
  }
}
