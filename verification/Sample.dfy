/** A small configuration that meets all the hypotheses of the evaluator and of the file theory:
    a bool symbol, one that it selects, a choice between two values, the second of which has a
    default, a symbol that depends on the first one, a number with an empty range, and a symbol from
    the environment. */
module SampleConfiguration {
  import opened Exprs
  import opened ExprTransformation
  import opened SymbolSpec
  import opened SymbolTheory
  import opened DefconfigTheory

  const FEATURE := Entry(0, Boolean)
  const HELPER := Entry(1, Tristated)
  const CHOICE := Entry(2, Boolean)
  const FIRST := Entry(3, Boolean)
  const SECOND := Entry(4, Boolean)
  const EXTRA := Entry(5, Boolean)
  const COUNT := Entry(6, Integer)
  const LOCALE := Entry(7, Text)

  /** The constants 3 and 5. */
  const THREE := Constant(3)
  const FIVE := Constant(5)

  function NameOf(s: Symbol): string {
    if s == SymbolNo then "n" else if s == SymbolMod then "m" else if s == SymbolYes then "y"
    else if s == THREE then "3" else if s == FIVE then "5"
    else seq(s.id, _ => 'x')
  }

  function DefinitionOf(s: Symbol, optional: bool): Definition {
    var plain := Definition([], [], [], None, None, None, None, true, false);
    if s == FEATURE then plain.(prompts := [None])
    else if s == HELPER then plain.(prompts := [Some(Leaf(FEATURE))], revDep := Some(Leaf(FEATURE)))
    else if s == CHOICE then
      plain.(prompts := [None], revDep := if optional then None else Some(Leaf(SymbolMod)),
             members := Some([FIRST, SECOND]), optional := optional)
    else if s == FIRST then plain.(prompts := [Some(Leaf(CHOICE))], choice := Some(CHOICE))
    else if s == SECOND then
      plain.(prompts := [Some(Leaf(CHOICE))], choice := Some(CHOICE), defaults := [Default(Leaf(SymbolYes), None)])
    else if s == EXTRA then plain.(prompts := [Some(Leaf(FIRST))])
    else if s == COUNT then plain.(prompts := [None], ranges := [Range(FIVE, THREE, None)])
    else if s == LOCALE then plain.(prompts := [None], defaults := [Default(Leaf(THREE), None)], auto := true)
    else plain
  }

  function Sample(lib: Library, optional: bool): Config {
    Config({SymbolNo, SymbolMod, SymbolYes, THREE, FIVE, FEATURE, HELPER, CHOICE, FIRST, SECOND, EXTRA, COUNT,
            LOCALE},
           NameOf, s => DefinitionOf(s, optional), lib)
  }

  function RankOf(s: Symbol): nat {
    if s == FEATURE || s == CHOICE || s == COUNT || s == LOCALE then 1
    else if s == HELPER || s == FIRST || s == SECOND then 2
    else if s == EXTRA then 3
    else 0
  }

  lemma SampleReads(cfg: Config, s: Symbol, optional: bool, ok: set<Symbol>)
    requires cfg == Sample(cfg.lib, optional) && s in cfg.symbols
    requires (s == HELPER ==> FEATURE in ok) && (s == CHOICE ==> SymbolMod in ok) && (s == EXTRA ==> FIRST in ok)
    requires (s == FIRST || s == SECOND ==> CHOICE in ok) && (s == SECOND ==> SymbolYes in ok)
    requires (s == COUNT ==> FIVE in ok) && (s == COUNT || s == LOCALE ==> THREE in ok)
    ensures ReadsOnly(cfg, s, ok)
  {
    LeafSymbols(FEATURE);
    LeafSymbols(CHOICE);
    LeafSymbols(SymbolMod);
    LeafSymbols(FIRST);
    LeafSymbols(SymbolYes);
    LeafSymbols(THREE);
    hide OptSymbols;
  }

  lemma LeafSymbols(s: Symbol)
    ensures OptSymbols(Some(Leaf(s))) == {s} && OptSymbols(None) == {}
  {
  }

  /** The hypotheses can be met together. */
  lemma HypothesesMet(lib: Library, optional: bool)
    ensures WellFormedConfig(Sample(lib, optional)) && Linked(Sample(lib, optional))
    ensures Ranked(Sample(lib, optional), RankOf)
  {
    hide ReadsOnly, ChoicesLinked, DefinitionOf, NameOf, RankOf, Below;
    var cfg := Sample(lib, optional);
    forall s | s in cfg.symbols && !IsTriConst(s)
      ensures ReadsOnly(cfg, s, cfg.symbols) && ReadsOnly(cfg, s, Below(cfg, RankOf, RankOf(s)))
    {
      ReadsAll(lib, optional, s);
      ReadsBelow(lib, optional, s);
    }
    SampleChoices(lib, optional);
    SampleNames();
  }

  lemma ReadsAll(lib: Library, optional: bool, s: Symbol)
    requires s in Sample(lib, optional).symbols
    ensures ReadsOnly(Sample(lib, optional), s, Sample(lib, optional).symbols)
  {
    hide ReadsOnly, DefinitionOf, NameOf;
    SampleReads(Sample(lib, optional), s, optional, Sample(lib, optional).symbols);
  }

  lemma ReadsBelow(lib: Library, optional: bool, s: Symbol)
    requires s in Sample(lib, optional).symbols && !IsTriConst(s)
    ensures ReadsOnly(Sample(lib, optional), s, Below(Sample(lib, optional), RankOf, RankOf(s)))
  {
    hide ReadsOnly, DefinitionOf, NameOf;
    SampleReads(Sample(lib, optional), s, optional, Below(Sample(lib, optional), RankOf, RankOf(s)));
  }

  /** Whoever the user is, there is a meaning for the theorems to be about, and it makes a
      well-formed environment. */
  lemma MeaningMet(lib: Library, optional: bool, users: Users) returns (V: Valuation)
    requires WellFormedUsers(Sample(lib, optional), users)
    ensures Solves(Sample(lib, optional), users, V) && WellFormed(EnvOf(V))
  {
    hide Sample, RankOf, WellFormedConfig, Ranked, Solves, WellFormedUsers, WellFormed;
    var cfg := Sample(lib, optional);
    HypothesesMet(lib, optional);
    SpecSolves(cfg, users, RankOf);
    V := s => SpecValue(cfg, users, RankOf, s);
    SolutionWellFormed(cfg, users, V);
  }

  lemma OneChoice(s: Symbol, optional: bool)
    ensures SampleLinked(s, DefinitionOf(s, optional))
  {
  }

  lemma SampleChoices(lib: Library, optional: bool)
    ensures ChoicesLinked(Sample(lib, optional)) && Linked(Sample(lib, optional))
  {
    hide DefinitionOf, NameOf, SampleLinked, ChoicesLinked, Linked;
    forall s: Symbol ensures SampleLinked(s, DefinitionOf(s, optional)) {
      OneChoice(s, optional);
    }
    LinkedSoFar(Sample(lib, optional));
  }

  lemma LinkedSoFar(cfg: Config)
    requires forall s: Symbol :: SampleLinked(s, cfg.def(s))
    requires CHOICE in cfg.symbols && FIRST in cfg.symbols && SECOND in cfg.symbols
    ensures ChoicesLinked(cfg) && Linked(cfg)
  {
    hide DependsSymbol;
    assert SampleLinked(CHOICE, cfg.def(CHOICE));
    DependsSelf();
  }

  lemma DependsSelf()
    ensures DependsSymbol(Leaf(CHOICE), CHOICE)
  {
  }

  predicate SampleLinked(s: Symbol, d: Definition) {
    && (d.members.Some? <==> s == CHOICE) && (d.choice.Some? <==> s == FIRST || s == SECOND)
    && (d.choice.Some? ==> d.choice == Some(CHOICE) && d.prompts == [Some(Leaf(CHOICE))])
    && (d.members.Some? ==> d.members == Some([FIRST, SECOND]))
    && (s == CHOICE ==> d.defaults == [])
  }

  lemma SampleNames()
    ensures forall t: Tristate :: NameOf(ConstOf(t)) == TriName(t)
    ensures forall s: Symbol, t: Symbol :: s.Constant? && t.Constant? && s != t ==> NameOf(s) != NameOf(t)
  {
    forall s: Symbol, t: Symbol | s.Constant? && t.Constant? && s != t ensures NameOf(s) != NameOf(t) {
      assert |NameOf(s)| != |NameOf(t)| || NameOf(s)[0] != NameOf(t)[0];
    }
  }
}
