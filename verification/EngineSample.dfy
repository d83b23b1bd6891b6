/** A configuration that meets all the hypotheses under which both implementations agree: a bool symbol,
    one that it selects, and a string with a default. Every string is the name of a constant, and
    different constants have different names, so that the constants are numbered by their strings. */
module EngineSample {
  import opened Exprs
  import opened KconfiglibExprs
  import C = SymbolSpec
  import K = KconfiglibSpec
  import CTheory = SymbolTheory
  import KTheory = KconfiglibTheory
  import opened EngineAgreement

  /* ----- numbering strings ----- */

  const CHARS: nat := 0x10F800

  function CharIndex(ch: char): (i: nat)
    ensures i < CHARS
  {
    if ch as int < 0xD800 then ch as int else ch as int - 0x800
  }

  function CharAt(i: nat): char
    requires i < CHARS
  {
    if i < 0xD800 then i as char else (i + 0x800) as char
  }

  function Encode(s: string): nat {
    if s == "" then 0 else 1 + CharIndex(s[0]) + CHARS * Encode(s[1..])
  }

  function Decode(n: nat): string {
    if n == 0 then "" else [CharAt((n - 1) % CHARS)] + Decode((n - 1) / CHARS)
  }

  lemma {:induction false} DecodeEncode(s: string)
    ensures Decode(Encode(s)) == s
  {
    if s != "" {
      DecodeEncode(s[1..]);
      assert (Encode(s) - 1) / CHARS == Encode(s[1..]);
    }
  }

  lemma {:induction false} EncodeDecode(n: nat)
    ensures Encode(Decode(n)) == n
  {
    if n > 0 {
      EncodeDecode((n - 1) / CHARS);
      assert Decode(n)[1..] == Decode((n - 1) / CHARS);
    }
  }

  /** The numbers of n, m and y are exchanged with 0, 1 and 2. */
  function Exchange(n: nat): nat {
    if n == 0 then 111 else if n == 111 then 0
    else if n == 1 then 110 else if n == 110 then 1
    else if n == 2 then 122 else if n == 122 then 2
    else n
  }

  function ConstantFor(w: string): Symbol {
    Constant(Exchange(Encode(w)))
  }

  function NameFor(s: Symbol): string {
    if s.Constant? then Decode(Exchange(s.id)) else ""
  }

  lemma TriNameFits(t: Tristate)
    ensures NameFor(ConstOf(t)) == TriName(t)
  {
    DecodeEncode(TriName(t));
    assert TriName(t)[1..] == "";
    assert Encode(TriName(t)) == 1 + CharIndex(TriName(t)[0]);
    hide Encode, Decode;
  }

  lemma NamesFit()
    ensures forall w: string :: ConstantFor(w).Constant? && NameFor(ConstantFor(w)) == w
    ensures forall t: Tristate :: NameFor(ConstOf(t)) == TriName(t)
    ensures forall s: Symbol, t: Symbol :: s.Constant? && t.Constant? && s != t ==> NameFor(s) != NameFor(t)
  {
    forall w: string ensures NameFor(ConstantFor(w)) == w {
      DecodeEncode(w);
    }
    forall t: Tristate ensures NameFor(ConstOf(t)) == TriName(t) {
      TriNameFits(t);
    }
    forall s: Symbol, t: Symbol | s.Constant? && t.Constant? && s != t ensures NameFor(s) != NameFor(t) {
      EncodeDecode(Exchange(s.id));
      EncodeDecode(Exchange(t.id));
    }
  }

  /* ----- the configuration on both sides ----- */

  const SWITCH := Entry(0, Boolean)
  const DRIVEN := Entry(1, Boolean)
  const LABEL := Entry(2, Text)

  const OnSwitch := Atom(Sym(SWITCH))

  function CDefinition(s: Symbol): C.Definition {
    var plain := C.Definition([], [], [], None, None, None, None, true, false);
    if s == SWITCH then plain.(prompts := [None])
    else if s == DRIVEN then plain.(revDep := Some(Leaf(SWITCH)))
    else if s == LABEL then plain.(defaults := [C.Default(Leaf(ConstantFor("x")), Some(Leaf(SWITCH)))])
    else plain
  }

  function KDefinition(s: Symbol): K.SymbolDef {
    var plain := K.SymbolDef("", [], [], Atom(Str("n")), [], None, None, true);
    if s == SWITCH then plain.(prompts := [None])
    else if s == DRIVEN then plain.(revDep := OnSwitch)
    else if s == LABEL then plain.(defaults := [K.DefaultExpr(Atom(Str("x")), Some(OnSwitch))])
    else plain
  }

  function CSide(lib: C.Library): C.Config {
    C.Config({SymbolNo, SymbolMod, SymbolYes, ConstantFor("x"), SWITCH, DRIVEN, LABEL}, NameFor, CDefinition, lib)
  }

  function KSide(lib: K.Library): K.Config {
    K.Config({SWITCH, DRIVEN, LABEL}, {}, KDefinition, c => K.ChoiceDef([], [], [], false, false), None, lib)
  }

  function RankOf(s: Symbol): nat {
    if s == DRIVEN || s == LABEL then 2 else if s == SWITCH then 1 else 0
  }

  lemma CReads(lib: C.Library, s: Symbol, ok: set<Symbol>)
    requires s == DRIVEN || s == LABEL ==> SWITCH in ok
    requires s == LABEL ==> ConstantFor("x") in ok
    ensures C.ReadsOnly(CSide(lib), s, ok)
  {
    hide ConstantFor, NameFor;
    assert C.OptSymbols(Some(Leaf(SWITCH))) == {SWITCH};
    assert C.OptSymbols(Some(Leaf(ConstantFor("x")))) == {ConstantFor("x")};
    hide C.OptSymbols;
  }

  lemma CSideFits(lib: C.Library)
    ensures C.WellFormedConfig(CSide(lib)) && C.Ranked(CSide(lib), RankOf)
    ensures forall users :: C.WellFormedUsers(CSide(lib), users)
  {
    hide ConstantFor, NameFor, C.ReadsOnly;
    NamesFit();
    var cfg := CSide(lib);
    forall s | s in cfg.symbols && !IsTriConst(s)
      ensures C.ReadsOnly(cfg, s, cfg.symbols) && C.ReadsOnly(cfg, s, C.Below(cfg, RankOf, RankOf(s)))
    {
      CReads(lib, s, cfg.symbols);
      CReads(lib, s, C.Below(cfg, RankOf, RankOf(s)));
    }
  }

  lemma KReads(lib: K.Library, s: Symbol)
    ensures K.SymReads(KSide(lib), s) == if s == DRIVEN || s == LABEL then {SWITCH} else {}
  {
    hide K.ExprSyms;
    AtomSyms();
    var d := KDefinition(s);
    if s == SWITCH {
      assert d.prompts == [None] && d.prompts[1..] == [];
      assert K.PromptSyms(d.prompts) == {};
    } else if s == LABEL {
      assert d.defaults[1..] == [] && K.DefaultSyms([]) == {};
      assert K.DefaultSyms(d.defaults) == {SWITCH};
    }
  }

  lemma AtomSyms()
    ensures K.ExprSyms(OnSwitch) == {SWITCH} && K.ExprSyms(Atom(Str("n"))) == K.ExprSyms(Atom(Str("x"))) == {}
  {
  }

  lemma KSideFits(lib: K.Library)
    ensures K.WellFormedConfig(KSide(lib)) && K.Ranked(KSide(lib), RankOf)
    ensures forall users :: K.WellFormedUsers(KSide(lib), users)
  {
    hide K.SymReads;
    var cfg := KSide(lib);
    forall s: Symbol
      ensures K.SymReads(cfg, s) == if s == DRIVEN || s == LABEL then {SWITCH} else {}
      ensures cfg.sym(s).choice.None?
    {
      KReads(lib, s);
    }
    hide KDefinition;
  }

  lemma DefinitionsCorrespond(s: Symbol)
    ensures SameSymbol(s, CDefinition(s), KDefinition(s), ConstantFor)
    ensures PlainStrings(s, KDefinition(s))
    ensures s in {SWITCH, DRIVEN, LABEL} ==> !Exempt(s, CDefinition(s), KDefinition(s))
  {
    assert SameExpr(Leaf(SWITCH), OnSwitch, ConstantFor);
    assert SameExpr(Leaf(ConstantFor("x")), Atom(Str("x")), ConstantFor);
    hide SameExpr, ConstantFor;
  }

  lemma SidesCorrespond(clib: C.Library, klib: K.Library)
    ensures SameConfig(CSide(clib), KSide(klib), ConstantFor)
    ensures forall x :: x in KSide(klib).syms ==>
              !Exempt(x, CDefinition(x), KDefinition(x)) && PlainStrings(x, KDefinition(x))
  {
    hide ConstantFor, SameSymbol, Exempt, PlainStrings, CDefinition;
    NamesFit();
    forall x: Symbol
      ensures SameSymbol(x, CDefinition(x), KDefinition(x), ConstantFor)
      ensures PlainStrings(x, KDefinition(x))
      ensures x in {SWITCH, DRIVEN, LABEL} ==> !Exempt(x, CDefinition(x), KDefinition(x))
    {
      DefinitionsCorrespond(x);
    }
  }

  /** Hence the two agree on this configuration, whatever the users say. */
  lemma SidesAgree(clib: C.Library, klib: K.Library, u: C.Users, w: K.Users, s: Symbol)
    requires SameUsers(KSide(klib), u, w) && s in KSide(klib).syms
    ensures Agree(x => CTheory.SpecValue(CSide(clib), u, RankOf, x), KTheory.Fresh(KSide(klib), w, RankOf), s)
  {
    hide C.WellFormedConfig, C.Ranked, K.WellFormedConfig, K.Ranked, SameUsers, SameConfig, Exempt, PlainStrings;
    hide CDefinition, KDefinition, Agree;
    CSideFits(clib);
    KSideFits(klib);
    SidesCorrespond(clib, klib);
    FreshAgrees(CSide(clib), KSide(klib), ConstantFor, u, w, RankOf, RankOf, s);
  }
}
