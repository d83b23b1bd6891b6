/** The loops of `conf_write_defconfig` and `conf_read_simple`: the reduced file is written from a
    symbol table and read back into user values. */
module DefconfigFiles {
  import opened Exprs
  import opened SymbolSpec
  import opened SymbolTheory
  import opened SymbolTables
  import opened SymbolEvaluator
  import opened DefconfigTheory
  import opened DefconfigLaws
  import ConfigStrings

  /** A line of the file: a symbol with its value; n stands for the line that says that the
      symbol is not set. */
  datatype Line = Line(sym: Symbol, text: string)

  /* ----- the text of a line ----- */

  /** `conf_write_symbol`: the value of a string symbol is quoted and escaped. */
  function Printed(l: Line): Line {
    if l.sym.Entry? && l.sym.kind.Text? then
      Line(l.sym, [ConfigStrings.QUOTE] + ConfigStrings.Escape(l.text) + [ConfigStrings.QUOTE])
    else l
  }

  /** The string case of `conf_set_sym_val`; a line with a malformed string is passed over. */
  function Scanned(l: Line): Option<Line> {
    if l.sym.Entry? && l.sym.kind.Text? then
      if l.text == "" || l.text[0] != ConfigStrings.QUOTE then None
      else
        var o := ConfigStrings.Unescape(l.text[1..]);
        if o.Invalid? then None else Some(Line(l.sym, o.text))
    else Some(l)
  }

  function PrintedAll(lines: seq<Line>): seq<Line> {
    if lines == [] then [] else [Printed(lines[0])] + PrintedAll(lines[1..])
  }

  function ScannedAll(lines: seq<Line>): seq<Line> {
    if lines == [] then []
    else
      var l := Scanned(lines[0]);
      (if l.Some? then [l.value] else []) + ScannedAll(lines[1..])
  }

  lemma LineScanned(l: Line)
    ensures Scanned(Printed(l)) == Some(l)
    ensures if l.sym.Entry? && l.sym.kind.Text? then
              && Printed(l).text != "" && Printed(l).text[0] == '\"'
              && ConfigStrings.Unescape(Printed(l).text[1..]) == ConfigStrings.Value(l.text)
            else Printed(l).text == l.text
  {
    hide ConfigStrings.Escape, ConfigStrings.Unescape;
    if l.sym.Entry? && l.sym.kind.Text? {
      ConfigStrings.UnescapeEscape(l.text, "");
      assert Printed(l).text[1..] == ConfigStrings.Escape(l.text) + [ConfigStrings.QUOTE] + "";
    }
  }

  /** Whatever strings the lines hold, they are read as they were written. */
  lemma {:induction false} ScanPrinted(lines: seq<Line>)
    ensures ScannedAll(PrintedAll(lines)) == lines
  {
    hide Printed, Scanned;
    if lines != [] {
      LineScanned(lines[0]);
      assert PrintedAll(lines)[1..] == PrintedAll(lines[1..]);
      ScanPrinted(lines[1..]);
    }
  }

  /* ----- looking things up in a table that tracks the meaning ----- */

  ghost predicate Bounded(cfg: Config, g: Run, n: nat) {
    g.busy == {} && forall s :: s in cfg.symbols ==> g.rank(s) < n
  }

  ghost predicate Tracking(cfg: Config, t: Table, g: Run) {
    ValidTable(cfg, t) && Tracks(cfg, t, g)
  }

  /** `sym_calc_value` on a symbol. */
  method Calc(t: SymbolTable, s: Symbol, ghost g: Run)
    requires Tracking(t.cfg, t.State(), g) && g.busy == {} && s in t.cfg.symbols
    modifies t
    ensures Tracking(t.cfg, t.State(), g) && s in t.valid && t.curr(s) == g.V(s)
    ensures s.IsTri() || IsString(s) ==> t.visible(s) == VisibleOf(t.cfg, s, EnvOf(g.V))
    ensures s.IsTri() || IsString(s) ==> t.revTri(s) == RevTriOf(t.cfg, s, EnvOf(g.V))
  {
    hide ValidTable, Tracks, Grows, Follows, VisibleOf, RevTriOf;
    ghost var a := t.State();
    TracksNoNeed(t.cfg, a, g);
    t.CalcValue(s, g);
    CalcKeepsTracking(t.cfg, a, t.State(), g, g.rank(s) + 1);
    TracksNoNeed(t.cfg, t.State(), g);
    SettledFacts(t.cfg, t.State(), g, s);
  }

  lemma SettledFacts(cfg: Config, t: Table, g: Run, s: Symbol)
    requires Tracks(cfg, t, g) && g.busy == {} && s in t.valid
    ensures t.curr(s) == g.V(s)
    ensures s.IsTri() || IsString(s) ==>
              t.visible(s) == VisibleOf(cfg, s, EnvOf(g.V)) && t.revTri(s) == RevTriOf(cfg, s, EnvOf(g.V))
  {
    hide Sound, VisibleOf, RevTriOf;
    assert Settled(cfg, t, g, s);
  }

  /** `expr_calc_value`. */
  method Evaluate(t: SymbolTable, e: Option<Expr>, ghost g: Run, ghost n: nat) returns (r: Tristate)
    requires Tracking(t.cfg, t.State(), g) && Bounded(t.cfg, g, n) && OptSymbols(e) <= t.cfg.symbols
    modifies t
    ensures Tracking(t.cfg, t.State(), g) && r == EvalOpt(e, EnvOf(g.V))
  {
    hide ValidTable, Tracks, Advances;
    if e.None? {
      return YES;
    }
    ghost var a := t.State();
    TracksNoNeed(t.cfg, a, g);
    r := t.CalcExpr(e.value, g, n);
    AdvancesTracks(t.cfg, a, t.State(), Symbols(e.value), g, n);
    TracksValues(t.cfg, t.State(), g);
    EvalLocal(e.value, t.curr, g.V, t.valid);
  }

  lemma AdvancesTracks(cfg: Config, a: Table, b: Table, read: set<Symbol>, g: Run, n: nat)
    requires Advances(cfg, a, b, read, g, n) && Tracks(cfg, a, g) && Bounded(cfg, g, n) && read <= cfg.symbols
    ensures Tracking(cfg, b, g) && b.need == a.need && read <= b.valid
  {
    hide Sound, Settled, Framed;
    assert Feeds(a, read, g, n) && Above(g, n);
  }

  /** `sym_get_default_prop`. */
  method DefaultProp(t: SymbolTable, s: Symbol, ghost g: Run, ghost n: nat) returns (d: Option<Default>, cond: Tristate)
    requires Tracking(t.cfg, t.State(), g) && Bounded(t.cfg, g, n) && s in t.cfg.symbols && !IsTriConst(s)
    modifies t
    ensures Tracking(t.cfg, t.State(), g) && d == ActiveDefault(t.cfg.def(s).defaults, EnvOf(g.V))
    ensures d.Some? ==> cond == EvalOpt(d.value.cond, EnvOf(g.V)) && OptSymbols(Some(d.value.expr)) <= t.cfg.symbols
  {
    hide Tracking, EvalOpt, EnvOf, OptSymbols;
    var defaults := t.cfg.def(s).defaults;
    DefaultsInside(t.cfg, t.State(), g, s);
    var i := 0;
    while i < |defaults|
      invariant 0 <= i <= |defaults| && Tracking(t.cfg, t.State(), g)
      invariant ActiveDefault(defaults[i..], EnvOf(g.V)) == ActiveDefault(defaults, EnvOf(g.V))
    {
      assert defaults[i..][0] == defaults[i] && defaults[i..][1..] == defaults[i + 1..];
      cond := Evaluate(t, defaults[i].cond, g, n);
      if cond != NO {
        return Some(defaults[i]), cond;
      }
      i := i + 1;
    }
    d, cond := None, NO;
  }

  /** `sym_get_string_default`. */
  method StringDefault(t: SymbolTable, s: Symbol, ghost g: Run, ghost n: nat) returns (str: string)
    requires Tracking(t.cfg, t.State(), g) && Bounded(t.cfg, g, n) && s in t.cfg.symbols && !IsTriConst(s)
    requires s in t.valid && (s.IsTri() || IsString(s))
    modifies t
    ensures Tracking(t.cfg, t.State(), g) && str == DefaultStringOf(t.cfg, s, g.V)
  {
    hide Tracking, EnvOf, RevTriOf, ActiveDefault, Eval, Symbols;
    var rev := RevTri(t, s, g);
    var d, cond := DefaultProp(t, s, g, n);
    var val: Tristate := NO;
    str := "";
    if d.Some? {
      if s.IsTri() {
        val := Evaluate(t, Some(d.value.expr), g, n);
        val := And.Apply(val, cond);
      } else if d.value.expr.Leaf? {
        LeafInside(t.cfg, d.value.expr);
        str := StringOfSymbol(t, d.value.expr.sym, g);
      }
    }
    if s.IsTri() {
      val := Or.Apply(val, rev);
      str := TriName(if t.cfg.def(s).choice.Some? && !s.IsBool() then val else Promote(val));
    }
  }

  lemma LeafInside(cfg: Config, e: Expr)
    requires e.Leaf? && OptSymbols(Some(e)) <= cfg.symbols
    ensures e.sym in cfg.symbols
  {
  }

  method RevTri(t: SymbolTable, s: Symbol, ghost g: Run) returns (rev: Tristate)
    requires Tracking(t.cfg, t.State(), g) && g.busy == {} && s in t.valid && (s.IsTri() || IsString(s))
    ensures rev == RevTriOf(t.cfg, s, EnvOf(g.V))
  {
    hide ValidTable, Tracks;
    SettledFacts(t.cfg, t.State(), g, s);
    rev := t.revTri(s);
  }

  method StringOfSymbol(t: SymbolTable, s: Symbol, ghost g: Run) returns (str: string)
    requires Tracking(t.cfg, t.State(), g) && g.busy == {} && s in t.cfg.symbols
    modifies t
    ensures Tracking(t.cfg, t.State(), g) && str == g.V(s).str
  {
    hide Tracking;
    Calc(t, s, g);
    str := t.curr(s).str;
  }

  lemma DefaultsInside(cfg: Config, t: Table, g: Run, s: Symbol)
    requires Tracking(cfg, t, g) && s in cfg.symbols && !IsTriConst(s)
    ensures forall i :: 0 <= i < |cfg.def(s).defaults| ==>
              && OptSymbols(cfg.def(s).defaults[i].cond) <= cfg.symbols
              && OptSymbols(Some(cfg.def(s).defaults[i].expr)) <= cfg.symbols
  {
    hide Tracks, Symbols;
    assert ReadsOnly(cfg, s, cfg.symbols);
  }

  /** `sym_choice_default`, with the visibilities calculated first. */
  method DefaultOfChoice(t: SymbolTable, c: Symbol, ghost g: Run, ghost n: nat) returns (ds: Option<Symbol>)
    requires Tracking(t.cfg, t.State(), g) && Bounded(t.cfg, g, n) && c in t.cfg.symbols && !IsTriConst(c)
    requires t.cfg.def(c).members.Some?
    modifies t
    ensures Tracking(t.cfg, t.State(), g) && ds == ChoiceDefault(t.cfg, c, EnvOf(g.V))
  {
    hide Tracking, EnvOf, FirstDefault, FirstVisible;
    ds := FirstOfDefaults(t, c, g, n);
    if ds.None? {
      ds := FirstOfMembers(t, c, g);
    }
  }

  method FirstOfDefaults(t: SymbolTable, c: Symbol, ghost g: Run, ghost n: nat) returns (ds: Option<Symbol>)
    requires Tracking(t.cfg, t.State(), g) && Bounded(t.cfg, g, n) && c in t.cfg.symbols && !IsTriConst(c)
    requires t.cfg.def(c).members.Some?
    modifies t
    ensures Tracking(t.cfg, t.State(), g) && ds == FirstDefault(t.cfg, t.cfg.def(c).defaults, EnvOf(g.V))
  {
    hide Tracking, EvalOpt, EnvOf, VisibleOf, RevTriOf;
    var defaults := t.cfg.def(c).defaults;
    DefaultsInside(t.cfg, t.State(), g, c);
    ChoiceInside(t.cfg, t.State(), g, c);
    var i := 0;
    while i < |defaults|
      invariant 0 <= i <= |defaults| && Tracking(t.cfg, t.State(), g)
      invariant FirstDefault(t.cfg, defaults[i..], EnvOf(g.V)) == FirstDefault(t.cfg, defaults, EnvOf(g.V))
    {
      assert defaults[i..][0] == defaults[i] && defaults[i..][1..] == defaults[i + 1..];
      assert defaults[i] in defaults;
      var cond := Evaluate(t, defaults[i].cond, g, n);
      if cond != NO {
        var m := defaults[i].expr.sym;
        Calc(t, m, g);
        if t.visible(m) != NO {
          return Some(m);
        }
      }
      i := i + 1;
    }
    ds := None;
  }

  method FirstOfMembers(t: SymbolTable, c: Symbol, ghost g: Run) returns (ds: Option<Symbol>)
    requires Tracking(t.cfg, t.State(), g) && g.busy == {} && c in t.cfg.symbols && t.cfg.def(c).members.Some?
    modifies t
    ensures Tracking(t.cfg, t.State(), g) && ds == FirstVisible(t.cfg, t.cfg.def(c).members.value, EnvOf(g.V))
  {
    hide Tracking, EnvOf, VisibleOf, RevTriOf;
    var members := t.cfg.def(c).members.value;
    ChoiceInside(t.cfg, t.State(), g, c);
    var i := 0;
    while i < |members|
      invariant 0 <= i <= |members| && Tracking(t.cfg, t.State(), g)
      invariant FirstVisible(t.cfg, members[i..], EnvOf(g.V)) == FirstVisible(t.cfg, members, EnvOf(g.V))
    {
      assert members[i..][0] == members[i] && members[i..][1..] == members[i + 1..];
      assert members[i] in members;
      Calc(t, members[i], g);
      if t.visible(members[i]) != NO {
        return Some(members[i]);
      }
      i := i + 1;
    }
    ds := None;
  }

  lemma ChoiceInside(cfg: Config, t: Table, g: Run, c: Symbol)
    requires Tracking(cfg, t, g) && c in cfg.symbols && cfg.def(c).members.Some?
    ensures forall m :: m in cfg.def(c).members.value ==> m in cfg.symbols && m.IsTri()
    ensures forall d :: d in cfg.def(c).defaults ==> d.expr.Leaf? && d.expr.sym in cfg.def(c).members.value
  {
    hide ReadsOnly, Tracks;
  }

  /* ----- writing ----- */

  /** One entry of the walk of `conf_write_defconfig`, for a symbol not written before. */
  method KeepsLine(t: SymbolTable, s: Symbol, ghost g: Run, ghost n: nat) returns (kept: bool)
    requires Tracking(t.cfg, t.State(), g) && Bounded(t.cfg, g, n) && s in t.cfg.symbols
    requires Linked(t.cfg)
    modifies t
    ensures Tracking(t.cfg, t.State(), g) && s in t.valid
    ensures kept <==> Kept(t.cfg, s, g.V)
  {
    hide Tracking, VisibleOf, RevTriOf, EnvOf, DefaultStringOf, ChoiceDefault, Linked;
    LinkedAt(t.cfg, s);
    NoTypeConst(s);
    Calc(t, s, g);
    if t.cfg.def(s).members.Some? || !(s.IsTri() || IsString(s)) || t.cfg.def(s).auto {
      return false;
    }
    if t.visible(s) <= t.revTri(s) {
      return false;
    }
    var str := StringDefault(t, s, g, n);
    Calc(t, s, g);
    if StringOf(s, t.curr(s)) == str {
      return false;
    }
    if t.cfg.def(s).choice.Some? {
      var cs := t.cfg.def(s).choice.value;
      ChoiceOf(t.cfg, t.State(), g, s);
      var ds := DefaultOfChoice(t, cs, g, n);
      Calc(t, s, g);
      if !t.cfg.def(cs).optional && ds == Some(s) && s.IsBool() && t.curr(s).tri == YES {
        return false;
      }
    }
    return true;
  }

  lemma LinkedAt(cfg: Config, s: Symbol)
    requires Linked(cfg)
    ensures cfg.def(s).choice.Some? ==> cfg.def(cfg.def(s).choice.value).members.Some?
  {
  }

  lemma NoTypeConst(s: Symbol)
    ensures s.IsTri() || IsString(s) ==> !IsTriConst(s)
  {
  }

  lemma ChoiceOf(cfg: Config, t: Table, g: Run, s: Symbol)
    requires Tracking(cfg, t, g) && s in cfg.symbols && cfg.def(s).choice.Some?
    ensures cfg.def(s).choice.value in cfg.symbols && !IsTriConst(cfg.def(s).choice.value)
  {
    hide ReadsOnly, Tracks;
    assert cfg.def(cfg.def(s).choice.value).members.Some?;
    assert cfg.def(s).choice.value.IsTri();
  }

  /** The file has one line, with the calculated value, for each symbol of `xs` that is to be
      kept. */
  ghost predicate Written(cfg: Config, V: Valuation, xs: set<Symbol>, lines: seq<Line>)
    requires Linked(cfg)
  {
    && (forall l :: l in lines ==> l.sym in xs && Kept(cfg, l.sym, V) && l.text == StringOf(l.sym, V(l.sym)))
    && (forall s :: s in xs && Kept(cfg, s, V) ==> Line(s, StringOf(s, V(s))) in lines)
    && (forall i, j :: 0 <= i < j < |lines| ==> lines[i].sym != lines[j].sym)
  }

  function SymbolsOf(lines: seq<Line>): set<Symbol> {
    set l | l in lines :: l.sym
  }

  lemma WrittenReduced(cfg: Config, users: Users, V: Valuation, xs: set<Symbol>, lines: seq<Line>)
    requires WellFormedConfig(cfg) && Linked(cfg) && Solves(cfg, users, V)
    requires xs <= cfg.symbols && Written(cfg, V, xs, lines)
    ensures Reduced(cfg, V, xs, SymbolsOf(lines))
  {
    hide WellFormedConfig, Solves, Kept, Needed, WithoutUser, StringOf;
    forall s | s in xs ensures s in SymbolsOf(lines) <==> Kept(cfg, s, V) {
      if Kept(cfg, s, V) {
        assert Line(s, StringOf(s, V(s))).sym == s;
      }
    }
    forall s | s in xs
      ensures Kept(cfg, s, V) <==> Needed(cfg, s, V)
      ensures OutsideChoices(cfg, s) && (s.IsTri() || (s.Entry? && s.kind.Text?)) && Kept(cfg, s, V) ==>
                !WithoutUser(cfg, s, V)
    {
      KeptNeeded(cfg, users, V, s);
    }
  }

  function Elements(entries: seq<Symbol>): set<Symbol> {
    set s | s in entries
  }

  /** `conf_write_defconfig`; `entries` are the symbols that the walk over the menu meets. The file
      has a line for exactly those of them that need one. */
  method WriteDefconfig(t: SymbolTable, entries: seq<Symbol>, ghost V: Valuation, ghost rank: Rank, ghost n: nat)
    returns (lines: seq<Line>)
    requires t.Valid() && t.need == {} && Linked(t.cfg)
    requires Ranked(t.cfg, rank) && WellFormedUsers(t.cfg, t.user) && Solves(t.cfg, t.user, V)
    requires forall s :: s in t.cfg.symbols ==> rank(s) < n
    requires forall s :: s in entries ==> s in t.cfg.symbols
    modifies t
    ensures Written(t.cfg, V, Elements(entries), lines)
    ensures Reduced(t.cfg, V, Elements(entries), SymbolsOf(lines))
  {
    hide Kept, Linked, Tracking, ValidTable, Ranked, Solves, WellFormedUsers, StringOf, Reduced;
    ValidConfig(t.cfg, t.State());
    ghost var users := t.user;
    t.ClearAllValid();
    ghost var g := Run(t.user, V, rank, {});
    Started(t.cfg, t.State(), g, n);
    lines := [];
    var done: set<Symbol> := {};
    var i := 0;
    while i < |entries|
      invariant 0 <= i <= |entries| && Tracking(t.cfg, t.State(), g)
      invariant done == Elements(entries[..i])
      invariant Written(t.cfg, V, done, lines)
    {
      var s := entries[i];
      assert entries[..i + 1] == entries[..i] + [s];
      if s !in done {
        var kept := KeepsLine(t, s, g, n);
        if kept {
          Calc(t, s, g);
          OneLine(t.cfg, V, done, lines, s);
          lines := lines + [Line(s, StringOf(s, t.curr(s)))];
        }
        done := done + {s};
      }
      i := i + 1;
    }
    assert entries[..|entries|] == entries;
    WrittenReduced(t.cfg, users, V, Elements(entries), lines);
  }

  lemma Started(cfg: Config, t: Table, g: Run, n: nat)
    requires ValidTable(cfg, t) && t.valid == TriConsts() && t.need == {} && g.busy == {} && g.users == t.user
    requires Ranked(cfg, g.rank) && WellFormedUsers(cfg, t.user) && Solves(cfg, t.user, g.V)
    requires forall s :: s in cfg.symbols ==> g.rank(s) < n
    ensures Tracking(cfg, t, g) && Bounded(cfg, g, n)
  {
    hide Ranked, Solves, WellFormedUsers, ValidTable, Tracks;
    ClearedTracks(cfg, t, g.V, g.rank);
  }

  lemma OneLine(cfg: Config, V: Valuation, done: set<Symbol>, lines: seq<Line>, s: Symbol)
    requires Linked(cfg) && Written(cfg, V, done, lines) && Kept(cfg, s, V) && s !in done
    ensures Written(cfg, V, done + {s}, lines + [Line(s, StringOf(s, V(s)))])
  {
    hide Kept, Linked, StringOf;
  }

  /* ----- reading ----- */

  /** `conf_set_sym_val` for one line, and what follows it for choice values. */
  function ReadLine(cfg: Config, users: Users, l: Line): Users {
    var s := l.sym;
    var u := if s.IsTri() then UserValue(true, if l.text == "y" then YES else NO, "", None)
             else UserValue(true, NO, l.text, None);
    var users' := Update(users, s, u);
    if cfg.def(s).choice.Some? && u.tri == YES then
      var c := cfg.def(s).choice.value;
      Update(users', c, UserValue(users'(c).isSet, YES, users'(c).str, Some(s)))
    else users'
  }

  /** Before the first line: every choice counts as set, at n. */
  function Unread(cfg: Config): Users {
    s => UserValue(cfg.def(s).members.Some?, NO, "", None)
  }

  /** The loop of `conf_read_simple`. */
  method ReadDefconfig(cfg: Config, lines: seq<Line>, ghost V: Valuation, ghost old_users: Users) returns (users: Users)
    requires WellFormedConfig(cfg) && Linked(cfg) && WellFormedUsers(cfg, old_users) && Solves(cfg, old_users, V)
    requires Written(cfg, V, cfg.symbols, lines)
    ensures forall s :: s in cfg.symbols ==> users(s) == KeptUser(cfg, V, s)
  {
    hide Kept, WellFormedConfig, Solves, Written, WellFormedUsers, Linked, KeptUser, ReadLine;
    users := Unread(cfg);
    UnreadPartly(cfg, V);
    var i := 0;
    while i < |lines|
      invariant 0 <= i <= |lines| && Partly(cfg, V, users, lines[..i])
    {
      PartlyMore(cfg, V, users, lines, i, old_users);
      users := ReadLine(cfg, users, lines[i]);
      i := i + 1;
    }
    assert lines[..|lines|] == lines;
    PartlyAll(cfg, V, users, lines, old_users);
  }

  ghost predicate Has(lines: seq<Line>, s: Symbol) {
    exists l :: l in lines && l.sym == s
  }

  /** The user value of `s` after some of the lines. */
  ghost predicate ReadSo(cfg: Config, V: Valuation, users: Users, lines: seq<Line>, s: Symbol) {
    if cfg.def(s).members.Some? then
      var p := V(s).pick;
      users(s) == if p.Some? && Has(lines, p.value) then UserValue(true, YES, "", p) else UserValue(true, NO, "", None)
    else
      users(s) == if Has(lines, s) then UserValue(true, V(s).tri, if s.IsTri() then "" else V(s).str, None)
                  else UserValue(false, NO, "", None)
  }

  ghost predicate Partly(cfg: Config, V: Valuation, users: Users, lines: seq<Line>) {
    forall s :: s in cfg.symbols ==> ReadSo(cfg, V, users, lines, s)
  }

  lemma UnreadPartly(cfg: Config, V: Valuation)
    ensures Partly(cfg, V, Unread(cfg), [])
  {
  }

  /** Only the members of a choice are picked. */
  lemma PickOfChoice(cfg: Config, users: Users, V: Valuation, c: Symbol)
    requires WellFormedConfig(cfg) && WellFormedUsers(cfg, users) && Solves(cfg, users, V)
    requires c in cfg.symbols && cfg.def(c).members.Some? && V(c).pick.Some?
    ensures cfg.def(V(c).pick.value).choice == Some(c) && V(c).pick.value in cfg.symbols
  {
    assert c.IsTri() && cfg.def(c).choice.None?;
    SolutionDefinite(cfg, users, V, c);
    PickVisible(cfg, users, V, c);
  }

  lemma KeptFacts(cfg: Config, users: Users, V: Valuation, s: Symbol)
    requires WellFormedConfig(cfg) && Linked(cfg) && WellFormedUsers(cfg, users) && Solves(cfg, users, V)
    requires s in cfg.symbols && Kept(cfg, s, V)
    ensures cfg.def(s).members.None?
    ensures s.IsTri() ==> (StringOf(s, V(s)) == "y" <==> V(s).tri == YES) && V(s).tri != MOD
    ensures !s.IsTri() ==> StringOf(s, V(s)) == V(s).str && V(s).tri == NO && cfg.def(s).choice.None?
    ensures cfg.def(s).choice.Some? ==> V(s).tri == Truth(V(cfg.def(s).choice.value).pick == Some(s))
  {
    hide VisibleOf, RevTriOf, ReadsOnly, StrOf;
    SolutionDefinite(cfg, users, V, s);
    if cfg.def(s).choice.Some? {
      KeptMember(cfg, users, V, s, users(s));
    }
  }

  lemma HasMore(lines: seq<Line>, i: nat, s: Symbol)
    requires i < |lines|
    ensures Has(lines[..i + 1], s) <==> Has(lines[..i], s) || lines[i].sym == s
  {
    assert lines[..i + 1] == lines[..i] + [lines[i]];
    assert lines[i] in lines[..i + 1];
  }

  lemma PartlyMore(cfg: Config, V: Valuation, users: Users, lines: seq<Line>, i: nat, old_users: Users)
    requires WellFormedConfig(cfg) && Linked(cfg) && WellFormedUsers(cfg, old_users) && Solves(cfg, old_users, V)
    requires i < |lines| && Written(cfg, V, cfg.symbols, lines) && Partly(cfg, V, users, lines[..i])
    ensures Partly(cfg, V, ReadLine(cfg, users, lines[i]), lines[..i + 1])
  {
    hide Kept, WellFormedConfig, Solves, WellFormedUsers, StringOf, Has;
    var s := lines[i].sym;
    assert lines[i] in lines && lines[i].text == StringOf(s, V(s));
    KeptFacts(cfg, old_users, V, s);
    LinkedAt(cfg, s);
    forall x | x in cfg.symbols ensures ReadSo(cfg, V, ReadLine(cfg, users, lines[i]), lines[..i + 1], x) {
      assert ReadSo(cfg, V, users, lines[..i], x);
      HasMore(lines, i, x);
      if cfg.def(x).members.Some? {
        if V(x).pick.Some? {
          HasMore(lines, i, V(x).pick.value);
          PickOfChoice(cfg, old_users, V, x);
        }
        assert cfg.def(s).choice == Some(x) ==> (V(s).tri == YES <==> V(x).pick == Some(s));
      } else {
        assert x != s ==> ReadLine(cfg, users, lines[i])(x) == users(x);
      }
    }
  }

  lemma PartlyAll(cfg: Config, V: Valuation, users: Users, lines: seq<Line>, old_users: Users)
    requires WellFormedConfig(cfg) && Linked(cfg) && WellFormedUsers(cfg, old_users) && Solves(cfg, old_users, V)
    requires Written(cfg, V, cfg.symbols, lines) && Partly(cfg, V, users, lines)
    ensures forall s :: s in cfg.symbols ==> users(s) == KeptUser(cfg, V, s)
  {
    hide Kept, Solves, WellFormedUsers, StringOf, WellFormedConfig, Linked;
    forall s | s in cfg.symbols ensures users(s) == KeptUser(cfg, V, s) {
      assert ReadSo(cfg, V, users, lines, s);
      if cfg.def(s).members.Some? {
        if V(s).pick.Some? {
          PickOfChoice(cfg, old_users, V, s);
          HasKept(cfg, V, lines, V(s).pick.value);
        }
      } else {
        HasKept(cfg, V, lines, s);
      }
    }
  }

  lemma HasKept(cfg: Config, V: Valuation, lines: seq<Line>, s: Symbol)
    requires Linked(cfg) && Written(cfg, V, cfg.symbols, lines)
    ensures s in cfg.symbols ==> (Has(lines, s) <==> Kept(cfg, s, V))
  {
    hide Kept, StringOf;
  }

  /* ----- writing, reading and calculating again ----- */

  /** A reduced file that was written from one table, its strings escaped, read back and calculated
      in another one gives every symbol the value it had, if and only if that can be restored. */
  method SaveAndRestore(t: SymbolTable, entries: seq<Symbol>, order: seq<Symbol>, ghost V: Valuation,
                        ghost W: Valuation, ghost rank: Rank, ghost n: nat) returns (u: SymbolTable)
    requires t.Valid() && t.need == {} && Linked(t.cfg)
    requires Ranked(t.cfg, rank) && WellFormedUsers(t.cfg, t.user) && Solves(t.cfg, t.user, V)
    requires forall s :: s in t.cfg.symbols ==> rank(s) < n
    requires Elements(order) == t.cfg.symbols && Elements(entries) <= t.cfg.symbols
    requires forall s :: s in t.cfg.symbols && t.cfg.def(s).prompts != [] ==> s in entries
    requires Solves(t.cfg, KeptUsers(t.cfg, V), W)
    modifies t
    ensures fresh(u) && forall s :: s in t.cfg.symbols ==> u.curr(s) == W(s)
    ensures (forall s: Symbol :: W(s) == V(s)) <==> Restorable(t.cfg, V)
  {
    hide Written, Ranked, Solves, WellFormedUsers, Restorable, KeptUser, Linked, KeptUsers, Reduced;
    ghost var old_users := t.user;
    ValidConfig(t.cfg, t.State());
    DefconfigLossless(t.cfg, t.user, V, W, rank);
    var lines := WriteDefconfig(t, entries, V, rank, n);
    AllWritten(t.cfg, V, Elements(entries), lines);
    var file := PrintedAll(lines);
    ScanPrinted(lines);
    var users := ReadDefconfig(t.cfg, ScannedAll(file), V, old_users);
    u := new SymbolTable(t.cfg, users);
    KeptSolved(t.cfg, old_users, users, V, W);
    ghost var g := Run(users, W, rank, {});
    ClearedTracks(t.cfg, u.State(), W, rank);
    u.CalcAll(order, g);
  }

  /** Only symbols with a prompt are ever written. */
  lemma AllWritten(cfg: Config, V: Valuation, xs: set<Symbol>, lines: seq<Line>)
    requires Linked(cfg) && Written(cfg, V, xs, lines) && xs <= cfg.symbols
    requires forall s :: s in cfg.symbols && cfg.def(s).prompts != [] ==> s in xs
    ensures Written(cfg, V, cfg.symbols, lines)
  {
    hide StringOf;
    forall s | s in cfg.symbols && Kept(cfg, s, V) ensures s in xs {
      KeptPrompt(cfg, s, V);
    }
    assert forall l :: l in lines ==> l.sym in cfg.symbols;
  }

  lemma KeptPrompt(cfg: Config, s: Symbol, V: Valuation)
    requires Linked(cfg) && Kept(cfg, s, V)
    ensures cfg.def(s).prompts != []
  {
    assert VisibleOf(cfg, s, EnvOf(V)) != NO;
  }

  lemma ValidConfig(cfg: Config, t: Table)
    requires ValidTable(cfg, t)
    ensures WellFormedConfig(cfg)
  {
  }

  lemma KeptSolved(cfg: Config, old_users: Users, users: Users, V: Valuation, W: Valuation)
    requires WellFormedConfig(cfg) && Linked(cfg) && WellFormedUsers(cfg, old_users) && Solves(cfg, old_users, V)
    requires forall s :: s in cfg.symbols ==> users(s) == KeptUser(cfg, V, s)
    requires Solves(cfg, KeptUsers(cfg, V), W)
    ensures WellFormedUsers(cfg, users) && Solves(cfg, users, W)
  {
    hide KeptUser, ValueOf, ReadsOnly;
    KeptUsersWellFormed(cfg, old_users, V);
  }
}
