/** Runs on the sample configuration in which a value is not read back as it was. */
module SampleRuns {
  import opened Exprs
  import opened SymbolSpec
  import opened SymbolTheory
  import opened SymbolTables
  import opened SymbolEvaluator
  import opened DefconfigTheory
  import opened DefconfigFiles
  import opened SymbolSetting
  import opened ChoiceSettings
  import opened SampleConfiguration

  /* ----- an optional choice that stops counting as set ----- */

  /** The user values after reading a reduced file that sets the first value of the choice; the
      second one, which is n, has no line. */
  function Loaded(s: Symbol): UserValue {
    if s == CHOICE then UserValue(true, YES, "", Some(FIRST))
    else if s == FIRST then UserValue(true, YES, "", None)
    else UserValue(false, NO, "", None)
  }

  lemma OpenPick(lib: Library, V: Valuation)
    requires Solves(Sample(lib, true), Loaded, V)
    ensures V(CHOICE) == Value(YES, "n", Some(FIRST)) && RevTriOf(Sample(lib, true), CHOICE, EnvOf(V)) == NO
  {
    hide RawVisible;
    var cfg := Sample(lib, true);
    PromptOf(cfg, CHOICE, EnvOf(V));
    PromptOf(cfg, FIRST, EnvOf(Opened(V, CHOICE)));
    assert TriOf(cfg, Loaded(CHOICE), CHOICE, EnvOf(V)) == YES;
    assert PickOf(cfg, Loaded(CHOICE), CHOICE, EnvOf(Opened(V, CHOICE))) == Some(FIRST);
  }

  /** The choice is open, and the symbol that depends on its first value can be set. */
  lemma OpenMeaning(lib: Library, V: Valuation)
    requires Solves(Sample(lib, true), Loaded, V)
    ensures V(CHOICE) == Value(YES, "n", Some(FIRST)) && V(EXTRA).tri == NO
    ensures var cfg, env := Sample(lib, true), EnvOf(V);
            && VisibleOf(cfg, SECOND, env) == YES && RevTriOf(cfg, CHOICE, env) == NO
            && VisibleOf(cfg, EXTRA, env) == YES && RevTriOf(cfg, EXTRA, env) == NO
  {
    hide RawVisible, VisibleOf, RevTriOf, Sample, Loaded, Solves, WellFormedConfig, DefinitionOf;
    var cfg := Sample(lib, true);
    HypothesesMet(lib, true);
    OpenPick(lib, V);
    OpenDefinitions(lib);
    PromptOf(cfg, FIRST, EnvOf(V));
    PromptOf(cfg, SECOND, EnvOf(V));
    MemberVisible(cfg, Loaded, V, CHOICE, FIRST);
    PromptOf(cfg, EXTRA, EnvOf(V));
    UnsetValue(cfg, Loaded, V, EXTRA);
  }

  lemma OpenDefinitions(lib: Library)
    ensures var cfg := Sample(lib, true);
            && FIRST in cfg.symbols && cfg.def(FIRST).choice == Some(CHOICE)
            && cfg.def(FIRST).prompts == cfg.def(SECOND).prompts == [Some(Leaf(CHOICE))]
            && EXTRA in cfg.symbols && cfg.def(EXTRA).prompts == [Some(Leaf(FIRST))] && cfg.def(EXTRA).defaults == []
            && cfg.def(EXTRA).revDep.None? && cfg.def(EXTRA).members.None? && cfg.def(EXTRA).choice.None?
            && !Loaded(EXTRA).isSet
  {
  }

  lemma UnsetValue(cfg: Config, users: Users, V: Valuation, s: Symbol)
    requires Solves(cfg, users, V) && s in cfg.symbols && s.IsTri() && !users(s).isSet
    requires cfg.def(s).defaults == [] && cfg.def(s).revDep.None?
    requires cfg.def(s).members.None? && cfg.def(s).choice.None?
    ensures V(s).tri == NO && RevTriOf(cfg, s, EnvOf(V)) == NO
  {
    hide VisibleOf;
  }

  /** Without a user value for the choice, none of this is left. */
  lemma ClosedMeaning(lib: Library, users: Users, W: Valuation)
    requires Solves(Sample(lib, true), users, W) && !users(CHOICE).isSet
    ensures W(CHOICE).tri == NO && W(EXTRA).tri == NO
  {
    hide RawVisible, VisibleOf, Solves, WellFormedConfig;
    var cfg := Sample(lib, true);
    HypothesesMet(lib, true);
    ChoiceUnset(cfg, users, W, CHOICE);
    PromptOf(cfg, FIRST, EnvOf(W));
    HiddenValue(cfg, users, W, FIRST);
    PromptOf(cfg, EXTRA, EnvOf(W));
    HiddenValue(cfg, users, W, EXTRA);
  }

  lemma ChoiceUnset(cfg: Config, users: Users, V: Valuation, c: Symbol)
    requires WellFormedConfig(cfg) && Solves(cfg, users, V) && c in cfg.symbols
    requires cfg.def(c).members.Some? && cfg.def(c).revDep.None? && !users(c).isSet
    ensures V(c).tri == NO
  {
    hide ValueOf, PickOf, TriOf;
    ChoiceTri(cfg, c, users(c), V);
    ChoiceValue(cfg, c, users(c), V);
  }

  lemma HiddenValue(cfg: Config, users: Users, V: Valuation, s: Symbol)
    requires Solves(cfg, users, V) && s in cfg.symbols && s.IsTri() && VisibleOf(cfg, s, EnvOf(V)) == NO
    requires cfg.def(s).defaults == [] && cfg.def(s).revDep.None? && cfg.def(s).members.None?
    ensures V(s).tri == NO
  {
    hide VisibleOf;
  }

  lemma PromptOf(cfg: Config, s: Symbol, env: Env)
    ensures |cfg.def(s).prompts| == 1 ==> VisibleOf(cfg, s, env) == Promote(EvalOpt(cfg.def(s).prompts[0], env))
  {
    if |cfg.def(s).prompts| == 1 {
      assert cfg.def(s).prompts[..0] == [] && RawVisible([], env) == NO;
    }
  }

  /** After the calculation the choice no longer counts as set. */
  lemma ChoiceDropped(lib: Library, t: Table, g: Run)
    requires Tracks(Sample(lib, true), t, g) && g.busy == {} && g.users == Loaded
    requires CHOICE in t.valid && EXTRA in t.valid
    ensures !t.user(CHOICE).isSet && WellFormedUsers(Sample(lib, true), t.user)
    ensures t.curr(EXTRA).tri == NO && t.visible(EXTRA) == YES && t.revTri(EXTRA) == NO
    ensures !OpenChoicesSet(Sample(lib, true), t)
  {
    hide Sample, Sound, Solves, VisibleOf, RevTriOf, WellFormedConfig, WellFormedUsers, StillSet;
    var cfg := Sample(lib, true);
    SoundRun(cfg, t, g);
    OpenMeaning(lib, g.V);
    HypothesesMet(lib, true);
    SampleFacts(lib);
    UsersSettled(cfg, t, g);
    assert Settled(cfg, t, g, CHOICE) && Settled(cfg, t, g, EXTRA);
    StillSetExactly(cfg, t, g, CHOICE);
    assert SECOND in cfg.def(CHOICE).members.value && !Loaded(SECOND).isSet;
  }

  lemma SampleFacts(lib: Library)
    ensures var cfg := Sample(lib, true);
            && CHOICE in cfg.symbols && EXTRA in cfg.symbols
            && cfg.def(CHOICE).members == Some([FIRST, SECOND]) && cfg.def(CHOICE).optional
            && cfg.def(EXTRA).choice.None? && cfg.def(EXTRA).members.None?
            && WellFormedUsers(cfg, Loaded)
  {
  }

  /** A value is accepted, and the next calculation gives another one: it closes the choice. */
  method AcceptedAndLost(lib: Library) returns (accepted: bool, value: Tristate)
    ensures accepted && value == NO
  {
    hide Sample, Loaded, Solves, Tracks, Ranked, WellFormedConfig, WellFormedUsers, ValidTable;
    hide OpenChoicesSet;
    var cfg := Sample(lib, true);
    HypothesesMet(lib, true);
    SampleFacts(lib);
    ghost var V := MeaningMet(lib, true, Loaded);
    var t := new SymbolTable(cfg, Loaded);
    ghost var g := Run(Loaded, V, RankOf, {});
    ClearedTracks(cfg, t.State(), V, RankOf);
    t.CalcAll([CHOICE, EXTRA], g);
    assert CHOICE in t.valid && EXTRA in t.valid;
    ChoiceDropped(lib, t.State(), g);
    ghost var users := SetUsers(cfg, t.user, t.visible, EXTRA, YES);
    ExtraUsers(lib, t.user, t.visible);
    ghost var W := MeaningMet(lib, true, users);
    ClosedMeaning(lib, users, W);
    TracksNoNeed(cfg, t.State(), g);
    accepted := SetAndCalculate(t, EXTRA, YES, [EXTRA], g, W);
    value := t.curr(EXTRA).tri;
  }

  lemma ExtraUsers(lib: Library, users: Users, visible: Symbol -> Tristate)
    requires WellFormedUsers(Sample(lib, true), users)
    ensures WellFormedUsers(Sample(lib, true), SetUsers(Sample(lib, true), users, visible, EXTRA, YES))
  {
  }

  /* ----- a number with an empty range ----- */

  /** A library that can read and print digits. */
  function Digits(): Library {
    Library((s, hex) => if |s| == 1 && '0' <= s[0] <= '9' then s[0] as int - '0' as int else 0,
            (n, hex) => if 0 <= n <= 9 then [(n + '0' as int) as char] else "?")
  }

  function Four(s: Symbol): UserValue {
    if s == COUNT then UserValue(true, NO, "4", None) else UserValue(false, NO, "", None)
  }

  /** The value 4 in the range from 5 to 3 becomes 5, which is written and read back as 3. */
  lemma LossyRange() returns (V: Valuation, W: Valuation)
    ensures Recalculated(Four, V, W)
    ensures V(COUNT).str == "5" && W(COUNT).str == "3"
  {
    hide Recalculated, Sample;
    FourUsers();
    V, W := Recalculate(Four);
    RecalculatedFacts(Four, V, W);
    FourBecomesFive(V, W);
  }

  /** `V` is a meaning of the sample under the user values, and `W` one under the values that the
      reduced file keeps of it. */
  ghost predicate Recalculated(users: Users, V: Valuation, W: Valuation) {
    var cfg := Sample(Digits(), false);
    && WellFormedConfig(cfg) && Linked(cfg) && Ranked(cfg, RankOf) && WellFormedUsers(cfg, users)
    && Solves(cfg, users, V) && Solves(cfg, KeptUsers(cfg, V), W)
  }

  lemma Recalculate(users: Users) returns (V: Valuation, W: Valuation)
    requires WellFormedUsers(Sample(Digits(), false), users)
    ensures Recalculated(users, V, W)
  {
    hide WellFormedConfig, Ranked, Solves, Sample, KeptUsers, WellFormedUsers, Linked;
    var cfg := Sample(Digits(), false);
    HypothesesMet(Digits(), false);
    V := MeaningMet(Digits(), false, users);
    KeptUsersWellFormed(cfg, users, V);
    W := MeaningMet(Digits(), false, KeptUsers(cfg, V));
  }

  lemma RecalculatedFacts(users: Users, V: Valuation, W: Valuation)
    requires Recalculated(users, V, W)
    ensures var cfg := Sample(Digits(), false);
            && WellFormedConfig(cfg) && Linked(cfg) && WellFormedUsers(cfg, users)
            && Solves(cfg, users, V) && Solves(cfg, KeptUsers(cfg, V), W)
  {
    hide WellFormedConfig, Ranked, Solves, Sample, KeptUsers, WellFormedUsers, Linked;
  }

  lemma FourUsers()
    ensures WellFormedUsers(Sample(Digits(), false), Four)
  {
  }

  lemma CountIn(users: Users, V: Valuation)
    requires Solves(Sample(Digits(), false), users, V)
    ensures var cfg := Sample(Digits(), false);
            && VisibleOf(cfg, COUNT, EnvOf(V)) == YES && RevTriOf(cfg, COUNT, EnvOf(V)) == NO
            && DefaultStringOf(cfg, COUNT, V) == ""
            && V(COUNT).str == Clamp(cfg, COUNT, if users(COUNT).isSet then users(COUNT).str else "", V)
  {
    hide RawVisible, Clamp, Solves;
    var cfg := Sample(Digits(), false);
    NumberValue(cfg, users, V, COUNT);
    PromptOf(cfg, COUNT, EnvOf(V));
  }

  lemma NumberValue(cfg: Config, users: Users, V: Valuation, s: Symbol)
    requires Solves(cfg, users, V) && s in cfg.symbols && IsString(s)
    ensures V(s).str == StrOf(cfg, users(s), s, V)
  {
    hide StrOf;
  }

  lemma CountRange(users: Users, V: Valuation)
    requires Solves(Sample(Digits(), false), users, V)
    ensures Clamp(Sample(Digits(), false), COUNT, "4", V) == "5"
    ensures Clamp(Sample(Digits(), false), COUNT, "5", V) == "3"
  {
    hide Solves, Clamp, Sample, WellFormedConfig;
    var cfg := Sample(Digits(), false);
    HypothesesMet(Digits(), false);
    ConstantNames(cfg, users, V, FIVE);
    ConstantNames(cfg, users, V, THREE);
    CountDefined();
    RangeApplied(cfg, COUNT, "4", V, FIVE, THREE);
    RangeApplied(cfg, COUNT, "5", V, FIVE, THREE);
  }

  lemma CountDefined()
    ensures var cfg := Sample(Digits(), false);
            cfg.def(COUNT).ranges == [Range(FIVE, THREE, None)] && cfg.lib == Digits() && cfg.name == NameOf
  {
  }

  lemma RangeApplied(cfg: Config, s: Symbol, str: string, V: Valuation, low: Symbol, high: Symbol)
    requires IsNumeric(s) && cfg.def(s).ranges == [Range(low, high, None)]
    ensures var hex, v := s.kind.Hexadecimal?, cfg.lib.scan(str, s.kind.Hexadecimal?);
            var l, h := BoundOf(cfg, s, low, V), BoundOf(cfg, s, high, V);
            Clamp(cfg, s, str, V) ==
              if v < l then cfg.lib.format(l, hex) else if h < v then cfg.lib.format(h, hex) else str
  {
    assert ActiveRange(cfg.def(s).ranges, EnvOf(V)) == Some(Range(low, high, None));
  }

  lemma FourBecomesFive(V: Valuation, W: Valuation)
    requires Linked(Sample(Digits(), false))
    requires Solves(Sample(Digits(), false), Four, V)
    requires Solves(Sample(Digits(), false), KeptUsers(Sample(Digits(), false), V), W)
    ensures V(COUNT).str == "5" && W(COUNT).str == "3"
  {
    hide Solves, Clamp, VisibleOf;
    var cfg := Sample(Digits(), false);
    CountIn(Four, V);
    CountRange(Four, V);
    assert Kept(cfg, COUNT, V);
    assert KeptUsers(cfg, V)(COUNT) == UserValue(true, V(COUNT).tri, "5", None);
    CountIn(KeptUsers(cfg, V), W);
    CountRange(KeptUsers(cfg, V), W);
  }

  /* ----- a choice value with a default ----- */

  function SecondPicked(s: Symbol): UserValue {
    if s == CHOICE then UserValue(true, YES, "", Some(SECOND))
    else if s == SECOND then UserValue(true, YES, "", None)
    else UserValue(false, NO, "", None)
  }

  /** The picked value has the default y, so that the file has no line for it; the choice falls back
      to its first value. */
  lemma LossyPick() returns (V: Valuation, W: Valuation)
    ensures Recalculated(SecondPicked, V, W)
    ensures V(CHOICE).pick == Some(SECOND) && W(CHOICE).pick == Some(FIRST)
  {
    hide Recalculated, Sample, Solves, KeptUsers, WellFormedConfig, WellFormedUsers, Linked;
    assert WellFormedUsers(Sample(Digits(), false), SecondPicked) by {
      SecondUsers();
    }
    V, W := Recalculate(SecondPicked);
    RecalculatedFacts(SecondPicked, V, W);
    var cfg := Sample(Digits(), false);
    PickOpen(SecondPicked, V);
    SecondNotKept(V);
    PickOpen(KeptUsers(cfg, V), W);
  }

  lemma SecondUsers()
    ensures WellFormedUsers(Sample(Digits(), false), SecondPicked)
  {
  }

  /** The choice is always open; it picks what the user picked, or its first value. */
  lemma PickOpen(users: Users, V: Valuation)
    requires WellFormedConfig(Sample(Digits(), false)) && Solves(Sample(Digits(), false), users, V)
    requires users(CHOICE).pick.Some? ==> users(CHOICE).pick.value == SECOND
    ensures V(CHOICE).tri == YES
    ensures V(CHOICE).pick == Some(if users(CHOICE).pick.Some? then SECOND else FIRST)
  {
    hide RawVisible, Solves, WellFormedConfig, ValueOf, TriOf;
    var cfg := Sample(Digits(), false);
    ChoiceSolved(cfg, users, V, CHOICE);
    PromptOf(cfg, FIRST, EnvOf(Opened(V, CHOICE)));
    PromptOf(cfg, SECOND, EnvOf(Opened(V, CHOICE)));
    MandatorySample(users, V);
    ChoiceTri(cfg, CHOICE, users(CHOICE), V);
    ChoiceValue(cfg, CHOICE, users(CHOICE), V);
  }

  lemma MandatorySample(users: Users, V: Valuation)
    requires WellFormedConfig(Sample(Digits(), false)) && Solves(Sample(Digits(), false), users, V)
    ensures RevTriOf(Sample(Digits(), false), CHOICE, EnvOf(V)) == YES
  {
    hide Solves, Sample;
    var cfg := Sample(Digits(), false);
    SolutionWellFormed(cfg, users, V);
    IsMod(EnvOf(V));
    assert cfg.def(CHOICE).revDep == Some(Leaf(SymbolMod)) && cfg.def(CHOICE).choice.None? by {
      ChoiceDefined();
    }
  }

  lemma ChoiceDefined()
    ensures var d := Sample(Digits(), false).def(CHOICE);
            d.revDep == Some(Leaf(SymbolMod)) && d.choice.None? && d.members == Some([FIRST, SECOND]) && !d.optional
  {
  }

  lemma SecondNotKept(V: Valuation)
    requires WellFormedConfig(Sample(Digits(), false)) && Linked(Sample(Digits(), false))
    requires WellFormedUsers(Sample(Digits(), false), SecondPicked) && Solves(Sample(Digits(), false), SecondPicked, V)
    requires V(CHOICE).tri == YES && V(CHOICE).pick == Some(SECOND)
    ensures KeptUsers(Sample(Digits(), false), V)(CHOICE).pick.None?
  {
    hide Solves, Sample, WellFormedConfig, WellFormedUsers, Kept, DefaultStringOf;
    var cfg := Sample(Digits(), false);
    ChoiceDefined();
    assert CHOICE in cfg.symbols by {
      SampleHas();
    }
    MemberWritten(cfg, SecondPicked, V, CHOICE);
    SecondDefault(V);
  }

  lemma SampleHas()
    ensures CHOICE in Sample(Digits(), false).symbols && LOCALE in Sample(Digits(), false).symbols
  {
  }

  lemma SecondDefault(V: Valuation)
    requires WellFormedConfig(Sample(Digits(), false)) && Solves(Sample(Digits(), false), SecondPicked, V)
    ensures DefaultStringOf(Sample(Digits(), false), SECOND, V) == TriName(YES)
  {
    hide Solves, WellFormedConfig;
    var cfg := Sample(Digits(), false);
    SolutionWellFormed(cfg, SecondPicked, V);
    assert EnvOf(V).tri(ConstOf(YES)) == YES;
    assert ActiveDefault(cfg.def(SECOND).defaults, EnvOf(V)) == Some(Default(Leaf(SymbolYes), None));
  }

  /* ----- a symbol from the environment with a prompt ----- */

  function LocaleSet(s: Symbol): UserValue {
    if s == LOCALE then UserValue(true, NO, "4", None) else UserValue(false, NO, "", None)
  }

  /** The user value is never written. */
  lemma LossyEnvironment() returns (V: Valuation, W: Valuation)
    ensures Recalculated(LocaleSet, V, W)
    ensures V(LOCALE).str == "4" && W(LOCALE).str == "3"
  {
    hide Recalculated, Sample, Solves, KeptUsers, WellFormedConfig, WellFormedUsers, Linked;
    assert WellFormedUsers(Sample(Digits(), false), LocaleSet) by {
      LocaleUsers();
    }
    V, W := Recalculate(LocaleSet);
    RecalculatedFacts(LocaleSet, V, W);
    LocaleIn(LocaleSet, V);
    LocaleNotKept(V);
    LocaleIn(KeptUsers(Sample(Digits(), false), V), W);
  }

  lemma LocaleUsers()
    ensures WellFormedUsers(Sample(Digits(), false), LocaleSet)
  {
  }

  lemma LocaleNotKept(V: Valuation)
    requires Linked(Sample(Digits(), false))
    ensures !KeptUsers(Sample(Digits(), false), V)(LOCALE).isSet
  {
    KeptNever(Sample(Digits(), false), V, LOCALE);
  }

  lemma LocaleIn(users: Users, V: Valuation)
    requires WellFormedConfig(Sample(Digits(), false)) && Solves(Sample(Digits(), false), users, V)
    ensures V(LOCALE).str == if users(LOCALE).isSet then users(LOCALE).str else "3"
  {
    hide Solves, WellFormedConfig, RawVisible;
    var cfg := Sample(Digits(), false);
    ConstantNames(cfg, users, V, THREE);
    NumberValue(cfg, users, V, LOCALE);
    PromptOf(cfg, LOCALE, EnvOf(V));
    assert ActiveDefault(cfg.def(LOCALE).defaults, EnvOf(V)) == Some(Default(Leaf(THREE), None));
  }
}
