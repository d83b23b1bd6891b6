/** The recursive dependency check: `sym_check_deps` and its helpers, on configurations without
    choices. */
module DependencyCheck {
  import opened Exprs
  import opened SymbolSpec

  /* ----- the checked dependency relation ----- */

  function Flatten(e: Option<Expr>): seq<Expr> {
    if e.Some? then [e.value] else []
  }

  function PromptExprs(prompts: seq<Option<Expr>>): seq<Expr> {
    if prompts == [] then [] else Flatten(prompts[0]) + PromptExprs(prompts[1..])
  }

  function DefaultExprs(defaults: seq<Default>): seq<Expr> {
    if defaults == [] then []
    else Flatten(defaults[0].cond) + [defaults[0].expr] + DefaultExprs(defaults[1..])
  }

  function RangeExprs(ranges: seq<Range>): seq<Expr> {
    if ranges == [] then [] else Flatten(ranges[0].cond) + RangeExprs(ranges[1..])
  }

  /** The expressions that `sym_check_sym_deps` walks: the reverse dependency and, property by
      property, the condition and for defaults the value. The condition of the property that
      marks the definition itself is the direct dependency. The bounds of a range are not
      among them. */
  function CheckedExprs(cfg: Config, s: Symbol): seq<Expr> {
    if IsTriConst(s) then []
    else
      var d := cfg.def(s);
      Flatten(d.revDep) +
      (Flatten(d.dirDep) + (PromptExprs(d.prompts) + (DefaultExprs(d.defaults) + RangeExprs(d.ranges))))
  }

  predicate DependsOn(cfg: Config, s: Symbol, t: Symbol) {
    exists e :: e in CheckedExprs(cfg, s) && t in Symbols(e)
  }

  /** Each symbol depends on the next one. */
  ghost predicate Chained(cfg: Config, stack: seq<Symbol>) {
    forall i :: 0 <= i < |stack| - 1 ==> DependsOn(cfg, stack[i], stack[i + 1])
  }

  /** A chain whose last symbol depends on the first. */
  ghost predicate IsCycle(cfg: Config, c: seq<Symbol>) {
    && c != []
    && Chained(cfg, c)
    && DependsOn(cfg, c[|c| - 1], c[0])
  }

  /** The dependencies of every symbol have a smaller rank. */
  ghost predicate RankedBy(cfg: Config, rank: Rank) {
    forall s: Symbol, t: Symbol :: s in cfg.symbols && DependsOn(cfg, s, t) ==> rank(t) < rank(s)
  }

  ghost predicate Acyclic(cfg: Config) {
    exists rank: Rank :: RankedBy(cfg, rank)
  }

  /** Expressions only mention symbols of the configuration. */
  ghost predicate Closed(cfg: Config) {
    forall s: Symbol, t: Symbol :: s in cfg.symbols && DependsOn(cfg, s, t) ==> t in cfg.symbols
  }

  lemma {:induction false} ChainDescends(cfg: Config, c: seq<Symbol>, rank: Rank, k: nat)
    requires Chained(cfg, c) && RankedBy(cfg, rank) && k < |c|
    requires forall s :: s in c ==> s in cfg.symbols
    ensures rank(c[k]) <= rank(c[0])
  {
    if k > 0 {
      ChainDescends(cfg, c, rank, k - 1);
      assert DependsOn(cfg, c[k - 1], c[k]);
      assert c[k - 1] in c;
    }
  }

  /** A ranked configuration has no cycle. */
  lemma NoCycle(cfg: Config, c: seq<Symbol>)
    requires IsCycle(cfg, c) && forall s :: s in c ==> s in cfg.symbols
    ensures !Acyclic(cfg)
  {
    var last := c[|c| - 1];
    assert last in cfg.symbols && DependsOn(cfg, last, c[0]);
    forall rank: Rank ensures !RankedBy(cfg, rank) {
      if RankedBy(cfg, rank) {
        ChainDescends(cfg, c, rank, |c| - 1);
        assert false;
      }
    }
  }

  /* ----- the check's condition and the one the evaluator needs ----- */

  ghost predicate ChoiceFree(cfg: Config) {
    forall s: Symbol :: s in cfg.symbols ==> cfg.def(s).members.None? && cfg.def(s).choice.None?
  }

  /** The bounds of ranges have a smaller rank, too. */
  ghost predicate BoundsBelow(cfg: Config, rank: Rank) {
    forall s: Symbol, r :: s in cfg.symbols && !IsTriConst(s) && r in cfg.def(s).ranges ==>
      {r.low, r.high} <= Below(cfg, rank, rank(s))
  }

  lemma {:induction false} PromptListed(prompts: seq<Option<Expr>>, e: Expr)
    ensures e in PromptExprs(prompts) <==> Some(e) in prompts
  {
    if prompts != [] {
      PromptListed(prompts[1..], e);
      assert prompts == [prompts[0]] + prompts[1..];
    }
  }

  lemma {:induction false} DefaultListed(defaults: seq<Default>, e: Expr)
    ensures e in DefaultExprs(defaults) <==> exists d :: d in defaults && (d.cond == Some(e) || d.expr == e)
  {
    if defaults != [] {
      DefaultListed(defaults[1..], e);
      assert defaults == [defaults[0]] + defaults[1..];
    }
  }

  lemma {:induction false} RangeListed(ranges: seq<Range>, e: Expr)
    ensures e in RangeExprs(ranges) <==> exists r :: r in ranges && r.cond == Some(e)
  {
    if ranges != [] {
      RangeListed(ranges[1..], e);
      assert ranges == [ranges[0]] + ranges[1..];
    }
  }

  /** Every checked expression reads only `ok`. */
  ghost predicate CheckedRead(cfg: Config, s: Symbol, ok: set<Symbol>) {
    forall e :: e in CheckedExprs(cfg, s) ==> Symbols(e) <= ok
  }

  ghost predicate BoundsRead(cfg: Config, s: Symbol, ok: set<Symbol>) {
    forall r :: r in cfg.def(s).ranges ==> {r.low, r.high} <= ok
  }

  lemma CheckedEnough(cfg: Config, s: Symbol, ok: set<Symbol>)
    requires cfg.def(s).members.None? && cfg.def(s).choice.None? && !IsTriConst(s)
    requires CheckedRead(cfg, s, ok) && BoundsRead(cfg, s, ok)
    ensures ReadsOnly(cfg, s, ok)
  {
    var d := cfg.def(s);
    forall i | 0 <= i < |d.prompts| ensures Reads(d.prompts[i], ok) {
      if d.prompts[i].Some? {
        PromptListed(d.prompts, d.prompts[i].value);
        assert d.prompts[i].value in CheckedExprs(cfg, s);
      }
    }
    forall i | 0 <= i < |d.defaults|
      ensures Reads(Some(d.defaults[i].expr), ok) && Reads(d.defaults[i].cond, ok)
    {
      DefaultListed(d.defaults, d.defaults[i].expr);
      assert d.defaults[i].expr in CheckedExprs(cfg, s);
      if d.defaults[i].cond.Some? {
        DefaultListed(d.defaults, d.defaults[i].cond.value);
        assert d.defaults[i].cond.value in CheckedExprs(cfg, s);
      }
    }
    forall i | 0 <= i < |d.ranges|
      ensures d.ranges[i].low in ok && d.ranges[i].high in ok && Reads(d.ranges[i].cond, ok)
    {
      assert d.ranges[i] in d.ranges;
      assert {d.ranges[i].low, d.ranges[i].high} <= ok;
      if d.ranges[i].cond.Some? {
        RangeListed(d.ranges, d.ranges[i].cond.value);
        assert d.ranges[i].cond.value in CheckedExprs(cfg, s);
      }
    }
    assert d.dirDep.Some? ==> d.dirDep.value in CheckedExprs(cfg, s);
    assert d.revDep.Some? ==> d.revDep.value in CheckedExprs(cfg, s);
  }

  lemma CheckedNeeded(cfg: Config, s: Symbol, ok: set<Symbol>)
    requires ReadsOnly(cfg, s, ok) && !IsTriConst(s)
    ensures CheckedRead(cfg, s, ok) && BoundsRead(cfg, s, ok)
  {
    var d := cfg.def(s);
    forall e | e in CheckedExprs(cfg, s) ensures Symbols(e) <= ok {
      PromptListed(d.prompts, e);
      DefaultListed(d.defaults, e);
      RangeListed(d.ranges, e);
      assert Some(e) in d.prompts ==> exists i :: 0 <= i < |d.prompts| && d.prompts[i] == Some(e);
      assert Reads(Some(e), ok);
    }
  }

  /** On a configuration without choices the check establishes all of the hypothesis under
      which the evaluator is proved, except for the bounds of ranges, which it never visits. */
  lemma RankedExactly(cfg: Config, rank: Rank)
    requires ChoiceFree(cfg) && Closed(cfg)
    ensures Ranked(cfg, rank) <==> RankedBy(cfg, rank) && BoundsBelow(cfg, rank)
  {
    if Ranked(cfg, rank) {
      forall s: Symbol, t: Symbol | s in cfg.symbols && DependsOn(cfg, s, t) ensures rank(t) < rank(s) {
        CheckedNeeded(cfg, s, Below(cfg, rank, rank(s)));
        assert t in Below(cfg, rank, rank(s));
      }
      forall s: Symbol, r | s in cfg.symbols && !IsTriConst(s) && r in cfg.def(s).ranges
        ensures {r.low, r.high} <= Below(cfg, rank, rank(s))
      {
        CheckedNeeded(cfg, s, Below(cfg, rank, rank(s)));
      }
    }
    if RankedBy(cfg, rank) && BoundsBelow(cfg, rank) {
      forall s | s in cfg.symbols && !IsTriConst(s) ensures ReadsOnly(cfg, s, Below(cfg, rank, rank(s))) {
        var ok := Below(cfg, rank, rank(s));
        forall e | e in CheckedExprs(cfg, s) ensures Symbols(e) <= ok {
          forall t | t in Symbols(e) ensures t in ok {
            assert DependsOn(cfg, s, t);
          }
        }
        CheckedEnough(cfg, s, ok);
      }
    }
  }

  /* ----- the state of the search ----- */

  /** The flags SYMBOL_CHECK and SYMBOL_CHECKED as sets, the `check_top` stack from its bottom,
      the cycles printed so far, and, for the proof, the order in which checks ended. */
  datatype State = State(
    check: set<Symbol>, checked: set<Symbol>, stack: seq<Symbol>, reports: seq<seq<Symbol>>,
    rank: Rank, clock: nat)

  /** The check of `s` has ended, and so have those of its dependencies, earlier. */
  ghost predicate Done(cfg: Config, st: State, s: Symbol) {
    && s in st.checked && s !in st.check && st.rank(s) < st.clock
    && forall t: Symbol :: DependsOn(cfg, s, t) ==>
         t in st.checked && t !in st.check && st.rank(t) < st.rank(s)
  }

  ghost predicate AllDone(cfg: Config, st: State, ts: set<Symbol>) {
    forall t :: t in ts ==> Done(cfg, st, t)
  }

  /** `s` may be pushed. */
  ghost predicate Next(cfg: Config, stack: seq<Symbol>, s: Symbol) {
    s in cfg.symbols && (stack != [] ==> DependsOn(cfg, stack[|stack| - 1], s))
  }

  ghost predicate AllNext(cfg: Config, stack: seq<Symbol>, ts: set<Symbol>) {
    forall t :: t in ts ==> Next(cfg, stack, t)
  }

  /** Every report is a cycle of the checked dependency relation. */
  ghost predicate ReportsReal(cfg: Config, reports: seq<seq<Symbol>>) {
    forall r :: r in reports ==> IsCycle(cfg, r) && forall s :: s in r ==> s in cfg.symbols
  }

  /** The invariant of the search. */
  ghost predicate Sound(cfg: Config, st: State) {
    && st.check <= st.checked <= cfg.symbols
    && Chained(cfg, st.stack)
    && (forall s :: s in st.stack ==> s in st.check)
    && ReportsReal(cfg, st.reports)
    && (st.reports == [] ==> AllDone(cfg, st, st.checked - st.check))
  }

  /** Every symbol being checked is on the stack. */
  ghost predicate Stacked(st: State) {
    forall s :: s in st.check ==> s in st.stack
  }

  /** What a call leaves behind: the stack and the marks of the symbols being checked as they
      were, more symbols checked, perhaps more reports, ranks once given kept. The result names
      a symbol still being checked. */
  ghost predicate Advances(st: State, st': State, r: Option<Symbol>) {
    && st'.check == st.check && st'.stack == st.stack
    && st.checked <= st'.checked
    && st.reports <= st'.reports
    && (r.Some? ==> r.value in st'.check && st'.reports != [])
    && (st'.reports == [] ==>
          && st.clock <= st'.clock
          && forall s :: s in st.checked && s !in st.check ==> st'.rank(s) == st.rank(s))
  }

  lemma DoneKept(cfg: Config, st: State, st': State, r: Option<Symbol>, ts: set<Symbol>)
    requires AllDone(cfg, st, ts) && Advances(st, st', r) && st'.reports == []
    ensures AllDone(cfg, st', ts)
  {
  }

  lemma DoneUnion(cfg: Config, st: State, ts: set<Symbol>, us: set<Symbol>)
    requires AllDone(cfg, st, ts) && AllDone(cfg, st, us)
    ensures AllDone(cfg, st, ts + us)
  {
  }

  function Marked(st: State, s: Symbol): State {
    st.(check := st.check + {s}, checked := st.checked + {s})
  }

  function Pushed(st: State, s: Symbol): State {
    st.(stack := st.stack + [s])
  }

  function Popped(st: State): State
    requires st.stack != []
  {
    st.(stack := st.stack[..|st.stack| - 1])
  }

  function Unmarked(st: State, s: Symbol): State {
    st.(check := st.check - {s}, rank := Update(st.rank, s, st.clock), clock := st.clock + 1)
  }

  lemma EnterSound(cfg: Config, st: State, s: Symbol)
    requires Sound(cfg, st) && Stacked(st) && Next(cfg, st.stack, s) && s !in st.checked
    ensures Sound(cfg, Pushed(Marked(st, s), s)) && Stacked(Pushed(Marked(st, s), s))
    ensures st.checked < Marked(st, s).checked
  {
    hide DependsOn, IsCycle;
    var st' := Pushed(Marked(st, s), s);
    assert s in st'.checked;
    ChainGrows(cfg, st.stack, s);
    assert st'.checked - st'.check <= st.checked - st.check;
    if st.reports == [] {
      DoneMarked(cfg, st, s, st.checked - st.check);
    }
  }

  lemma ChainGrows(cfg: Config, stack: seq<Symbol>, s: Symbol)
    requires Chained(cfg, stack) && Next(cfg, stack, s)
    ensures Chained(cfg, stack + [s])
  {
    hide DependsOn;
    var grown := stack + [s];
    forall i | 0 <= i < |grown| - 1 ensures DependsOn(cfg, grown[i], grown[i + 1]) {
      assert grown[i] == stack[i];
    }
  }

  /** A symbol not seen before is no dependency of a finished one. */
  lemma DoneMarked(cfg: Config, st: State, s: Symbol, ts: set<Symbol>)
    requires AllDone(cfg, st, ts) && s !in st.checked
    ensures AllDone(cfg, Pushed(Marked(st, s), s), ts)
  {
    hide DependsOn;
    forall t | t in ts ensures Done(cfg, Pushed(Marked(st, s), s), t) {
      assert Done(cfg, st, t);
    }
  }

  /** The symbols that `s` depends on. */
  function Dependencies(cfg: Config, s: Symbol): set<Symbol> {
    AllSymbols(CheckedExprs(cfg, s))
  }

  function Elements(order: seq<Symbol>): set<Symbol> {
    set s | s in order
  }

  function AllSymbols(es: seq<Expr>): set<Symbol> {
    if es == [] then {} else AllSymbols(es[..|es| - 1]) + Symbols(es[|es| - 1])
  }

  lemma {:induction false} AllSymbolsExact(es: seq<Expr>, t: Symbol)
    ensures t in AllSymbols(es) <==> exists e :: e in es && t in Symbols(e)
  {
    if es != [] {
      AllSymbolsExact(es[..|es| - 1], t);
      assert es == es[..|es| - 1] + [es[|es| - 1]];
      assert es[|es| - 1] in es;
    }
  }

  /** When the dependencies of `s` are done, leaving `s` makes it done, too. */
  lemma LeaveSound(cfg: Config, st: State, mid: State, s: Symbol, r: Option<Symbol>)
    requires Sound(cfg, st) && Stacked(st) && s !in st.checked && s in cfg.symbols
    requires Sound(cfg, mid) && Advances(Pushed(Marked(st, s), s), mid, r)
    requires r.None? && mid.reports == [] ==> AllDone(cfg, mid, Dependencies(cfg, s))
    ensures mid.stack != []
    ensures Sound(cfg, Unmarked(Popped(mid), s))
    ensures Advances(st, Unmarked(Popped(mid), s), if r == Some(s) then None else r)
    ensures mid.reports == [] ==> AllDone(cfg, Unmarked(Popped(mid), s), {s})
  {
    var end := Unmarked(Popped(mid), s);
    assert end.stack == st.stack;
    assert s !in st.check && s !in st.stack;
    assert end.check == st.check;
    if mid.reports == [] {
      assert r.None?;
      forall t: Symbol | DependsOn(cfg, s, t) ensures Done(cfg, mid, t) {
        AllSymbolsExact(CheckedExprs(cfg, s), t);
        assert t in Dependencies(cfg, s);
      }
      forall t | t in end.checked - end.check ensures Done(cfg, end, t) {
        if t != s {
          assert Done(cfg, mid, t);
        }
      }
    }
  }

  /** The part of the stack from `s` to the top is a cycle. */
  lemma ReportSound(cfg: Config, st: State, s: Symbol, k: nat)
    requires Sound(cfg, st) && Next(cfg, st.stack, s) && k < |st.stack| && st.stack[k] == s
    ensures Sound(cfg, st.(reports := st.reports + [st.stack[k..]]))
  {
    hide DependsOn;
    var c := st.stack[k..];
    assert c[|c| - 1] == st.stack[|st.stack| - 1] && c[0] == s;
    forall i | 0 <= i < |c| - 1 ensures DependsOn(cfg, c[i], c[i + 1]) {
      assert c[i] == st.stack[k + i] && c[i + 1] == st.stack[k + i + 1];
    }
    forall t | t in c ensures t in cfg.symbols {
      assert t in st.stack;
    }
  }

  lemma Smaller(cfg: Config, a: set<Symbol>, b: set<Symbol>)
    requires a <= b <= cfg.symbols
    ensures |cfg.symbols - b| <= |cfg.symbols - a|
    ensures a != b ==> |cfg.symbols - b| < |cfg.symbols - a|
  {
    assert cfg.symbols - a == (cfg.symbols - b) + (b - a);
    if a != b {
      assert b - a != {};
    }
  }

  /** Every symbol of an expression of `s` may be pushed on top of `s`. */
  lemma ExprNext(cfg: Config, stack: seq<Symbol>, s: Symbol, i: nat)
    requires Closed(cfg) && s in cfg.symbols && stack != [] && stack[|stack| - 1] == s
    requires i < |CheckedExprs(cfg, s)|
    ensures AllNext(cfg, stack, Symbols(CheckedExprs(cfg, s)[i]))
  {
    var e := CheckedExprs(cfg, s)[i];
    assert e in CheckedExprs(cfg, s);
    forall t | t in Symbols(e) ensures Next(cfg, stack, t) {
      assert DependsOn(cfg, s, t);
    }
  }

  lemma AllDoneRanked(cfg: Config, st: State)
    requires Closed(cfg) && Sound(cfg, st) && st.reports == [] && AllDone(cfg, st, cfg.symbols)
    ensures RankedBy(cfg, st.rank) && Acyclic(cfg)
  {
    forall s: Symbol, t: Symbol | s in cfg.symbols && DependsOn(cfg, s, t) ensures st.rank(t) < st.rank(s) {
      assert Done(cfg, st, s);
    }
  }

  /* ----- the check ----- */

  /** The flags of all symbols and the global stack; ranks are given in the order in which checks
      end. */
  class Checker {
    const cfg: Config
    var check: set<Symbol>
    var checked: set<Symbol>
    var stack: seq<Symbol>
    var reports: seq<seq<Symbol>>
    ghost var rank: Rank
    ghost var clock: nat

    ghost function Now(): State
      reads this
    {
      State(check, checked, stack, reports, rank, clock)
    }

    constructor (config: Config)
      ensures cfg == config && Sound(cfg, Now()) && Stacked(Now())
      ensures check == {} && checked == {} && stack == [] && reports == []
    {
      cfg := config;
      check, checked, stack, reports := {}, {}, [], [];
      rank, clock := _ => 0, 0;
    }

    /** The search of `sym_check_print_recursive`: what it prints is the part of the stack from
        the symbol met again to the top. */
    method PrintRecursive(last: Symbol) returns (k: nat)
      requires Sound(cfg, Now()) && Next(cfg, stack, last) && last in stack
      modifies this`reports
      ensures Sound(cfg, Now())
      ensures k < |stack| && stack[k] == last && last !in stack[k + 1..]
      ensures reports == old(reports) + [stack[k..]]
    {
      hide Sound, Next;
      k := |stack| - 1;
      assert stack[k + 1..] == [];
      while stack[k] != last
        invariant 0 <= k < |stack| && last in stack[..k + 1] && last !in stack[k + 1..]
        decreases k
      {
        assert stack[..k + 1] == stack[..k] + [stack[k]];
        assert stack[k..] == [stack[k]] + stack[k + 1..];
        k := k - 1;
      }
      ReportSound(cfg, Now(), last, k);
      reports := reports + [stack[k..]];
    }

    /** `sym_check_deps`. A symbol that is met while it is being checked closes a cycle. The
        caller learns of a cycle only until the call for its first symbol returns. */
    method CheckDeps(s: Symbol) returns (r: Option<Symbol>)
      requires Closed(cfg) && Sound(cfg, Now()) && Stacked(Now()) && Next(cfg, stack, s)
      modifies this
      ensures Sound(cfg, Now()) && Advances(old(Now()), Now(), r)
      ensures reports == [] ==> AllDone(cfg, Now(), {s})
      decreases |cfg.symbols - checked|, 0, 0
    {
      hide Closed, Sound, Advances, AllDone, Next, Update, Unmarked;
      if s in check {
        var _ := PrintRecursive(s);
        Reported(old(Now()), Now(), s);
        return Some(s);
      }
      if s in checked {
        AlreadyDone(cfg, Now(), s);
        AdvancesRefl(Now());
        return None;
      }
      ghost var before := Now();
      Entered(cfg, before, s);
      check, checked := check + {s}, checked + {s};
      r := CheckSymDeps(s, before);
      ghost var after := Unmarked(Now(), s);
      UnmarkedFields(Now(), s);
      check, rank, clock := check - {s}, after.rank, after.clock;
      if r == Some(s) {
        r := None;
      }
    }

    /** `sym_check_sym_deps`. */
    method CheckSymDeps(s: Symbol, ghost before: State) returns (r: Option<Symbol>)
      requires Closed(cfg) && Sound(cfg, before) && Stacked(before) && Next(cfg, before.stack, s)
      requires s !in before.checked && Now() == Marked(before, s)
      modifies this
      ensures Sound(cfg, Unmarked(Now(), s))
      ensures Advances(before, Unmarked(Now(), s), if r == Some(s) then None else r)
      ensures reports == [] ==> AllDone(cfg, Unmarked(Now(), s), {s})
      decreases |cfg.symbols - checked|, 3, 0
    {
      hide Closed, Sound, Advances, AllDone, Next, Stacked, Update, Unmarked, Marked, Dependencies;
      EnterSound(cfg, before, s);
      InSymbols(cfg, before.stack, s);
      stack := stack + [s];
      assert Now() == Pushed(Marked(before, s), s);
      r := CheckExprs(s);
      LeaveSound(cfg, before, Now(), s, r);
      stack := stack[..|stack| - 1];
    }

    /** The walk over the properties of a symbol, up to the first cycle. */
    method CheckExprs(s: Symbol) returns (r: Option<Symbol>)
      requires Closed(cfg) && Sound(cfg, Now()) && Stacked(Now())
      requires s in cfg.symbols && stack != [] && stack[|stack| - 1] == s
      modifies this
      ensures Sound(cfg, Now()) && Advances(old(Now()), Now(), r)
      ensures r.None? && reports == [] ==> AllDone(cfg, Now(), Dependencies(cfg, s))
      decreases |cfg.symbols - checked|, 2, 0
    {
      hide Closed, Sound, Advances, AllDone, AllNext, Stacked, CheckedExprs;
      var exprs := CheckedExprs(cfg, s);
      r := None;
      var i := 0;
      AdvancesRefl(Now());
      NoneDone(cfg, Now());
      while i < |exprs| && r.None?
        invariant 0 <= i <= |exprs|
        invariant Sound(cfg, Now()) && Advances(old(Now()), Now(), r)
        invariant r.None? && reports == [] ==> AllDone(cfg, Now(), AllSymbols(exprs[..i]))
      {
        ghost var mid := Now();
        AdvancesFacts(cfg, old(Now()), mid, r);
        ExprNext(cfg, stack, s, i);
        r := CheckExpr(exprs[i]);
        Joined(cfg, old(Now()), mid, Now(), r, AllSymbols(exprs[..i]), Symbols(exprs[i]));
        assert exprs[..i + 1][..i] == exprs[..i];
        i := i + 1;
      }
      assert exprs[..|exprs|] == exprs;
    }

    /** `sym_check_expr_deps`. */
    method CheckExpr(e: Expr) returns (r: Option<Symbol>)
      requires Closed(cfg) && Sound(cfg, Now()) && Stacked(Now()) && AllNext(cfg, stack, Symbols(e))
      modifies this
      ensures Sound(cfg, Now()) && Advances(old(Now()), Now(), r)
      ensures r.None? && reports == [] ==> AllDone(cfg, Now(), Symbols(e))
      decreases |cfg.symbols - checked|, 1, Size(e)
    {
      hide Closed, Sound, Advances, AllDone, Next, Stacked;
      match e
      case Leaf(s) =>
        r := CheckDeps(s);
      case Cmp(_, left, right) =>
        r := CheckDeps(left);
        if r.None? {
          ghost var mid := Now();
          AdvancesFacts(cfg, old(Now()), mid, r);
          r := CheckDeps(right);
          assert Symbols(e) == {left} + {right};
          Joined(cfg, old(Now()), mid, Now(), r, {left}, {right});
        }
      case Not(a) =>
        r := CheckExpr(a);
      case Bin(_, a, b) =>
        r := CheckExpr(a);
        if r.None? {
          ghost var mid := Now();
          AdvancesFacts(cfg, old(Now()), mid, r);
          r := CheckExpr(b);
          Joined(cfg, old(Now()), mid, Now(), r, Symbols(a), Symbols(b));
        }
    }

    /** The sweep of `conf_parse` over all symbols. It reports a cycle exactly when the checked
        dependency relation has one, and what it reports is one. Its error count stays at zero
        either way: every cycle is forgotten by the time the outermost call returns. */
    method CheckAll(order: seq<Symbol>) returns (errors: nat)
      requires ChoiceFree(cfg) && Closed(cfg)
      requires Sound(cfg, Now()) && check == {} && checked == {} && stack == [] && reports == []
      requires forall s :: s in order <==> s in cfg.symbols
      modifies this
      ensures ReportsReal(cfg, reports)
      ensures reports == [] <==> Acyclic(cfg)
      ensures reports == [] ==> RankedBy(cfg, rank)
      ensures errors == 0
    {
      hide Closed, Done, Chained, DependsOn, RankedBy;
      errors := 0;
      var i := 0;
      while i < |order|
        invariant 0 <= i <= |order|
        invariant Sound(cfg, Now()) && check == {} && stack == []
        invariant reports == [] ==> AllDone(cfg, Now(), Elements(order[..i]))
        invariant errors == 0
      {
        ghost var mid := Now();
        var r := CheckDeps(order[i]);
        errors := errors + (if r.Some? then 1 else 0);
        if reports == [] {
          DoneKept(cfg, mid, Now(), r, Elements(order[..i]));
          DoneUnion(cfg, Now(), Elements(order[..i]), {order[i]});
        }
        assert Elements(order[..i + 1]) == Elements(order[..i]) + {order[i]};
        i := i + 1;
      }
      assert order[..|order|] == order;
      if reports != [] {
        NoCycle(cfg, reports[0]);
      } else {
        assert Elements(order) == cfg.symbols;
        AllDoneRanked(cfg, Now());
      }
    }
  }

  /* ----- facts the methods use without unfolding the state ----- */

  lemma InSymbols(cfg: Config, stack: seq<Symbol>, s: Symbol)
    requires Next(cfg, stack, s)
    ensures s in cfg.symbols
  {
  }

  lemma Entered(cfg: Config, st: State, s: Symbol)
    requires Sound(cfg, st) && Next(cfg, st.stack, s) && s !in st.checked
    ensures |cfg.symbols - Marked(st, s).checked| < |cfg.symbols - st.checked|
  {
    Smaller(cfg, st.checked, Marked(st, s).checked);
  }

  lemma UnmarkedFields(st: State, s: Symbol)
    ensures Unmarked(st, s)
            == st.(check := st.check - {s}, rank := Unmarked(st, s).rank, clock := Unmarked(st, s).clock)
  {
  }

  lemma AlreadyDone(cfg: Config, st: State, s: Symbol)
    requires Sound(cfg, st) && s in st.checked && s !in st.check
    ensures st.reports == [] ==> AllDone(cfg, st, {s})
  {
  }

  lemma Reported(st: State, st': State, s: Symbol)
    requires s in st.check && st' == st.(reports := st'.reports)
    requires |st.reports| < |st'.reports| && st.reports <= st'.reports
    ensures Advances(st, st', Some(s))
  {
  }

  lemma AdvancesRefl(st: State)
    ensures Advances(st, st, None)
  {
  }

  lemma NoneDone(cfg: Config, st: State)
    ensures AllDone(cfg, st, {})
  {
  }

  lemma AdvancesFacts(cfg: Config, st: State, st': State, r: Option<Symbol>)
    requires Advances(st, st', r) && Sound(cfg, st') && Stacked(st)
    ensures Stacked(st') && st'.stack == st.stack
    ensures |cfg.symbols - st'.checked| <= |cfg.symbols - st.checked|
  {
    Smaller(cfg, st.checked, st'.checked);
  }

  /** Two checks in a row. */
  lemma Joined(cfg: Config, a: State, b: State, c: State, r: Option<Symbol>, ts: set<Symbol>, us: set<Symbol>)
    requires Advances(a, b, None) && Advances(b, c, r)
    requires b.reports == [] ==> AllDone(cfg, b, ts)
    requires r.None? && c.reports == [] ==> AllDone(cfg, c, us)
    ensures Advances(a, c, r)
    ensures r.None? && c.reports == [] ==> AllDone(cfg, c, ts + us)
  {
    if r.None? && c.reports == [] {
      DoneKept(cfg, b, c, r, ts);
      DoneUnion(cfg, c, ts, us);
    }
  }
}
