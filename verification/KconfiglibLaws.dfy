/** What Kconfiglib's values are, said without the functions that compute them: by the prompts that
    are shown, the first default and the first range whose condition holds, and the selects. */
module KconfiglibLaws {
  import opened Exprs
  import opened KconfiglibExprs
  import opened KconfiglibSpec
  import opened KconfiglibTheory

  /* ----- what is shown, and what applies first ----- */

  predicate SomePrompt(prompts: seq<Option<Expression>>, env: Env) {
    exists i :: 0 <= i < |prompts| && ValueOpt(prompts[i], env) != NO
  }

  /** The condition of some prompt is not n; for the member of a choice, also that of some prompt of
      the choice. */
  predicate Shown(cfg: Config, s: Symbol, env: Env) {
    var d := cfg.sym(s);
    SomePrompt(d.prompts, env) && (d.choice.Some? ==> SomePrompt(cfg.choice(d.choice.value).prompts, env))
  }

  /** The condition at `j` is the first one that is not n. */
  predicate FirstOf(conds: seq<Option<Expression>>, env: Env, j: nat) {
    && j < |conds| && ValueOpt(conds[j], env) != NO
    && forall i :: 0 <= i < j ==> ValueOpt(conds[i], env) == NO
  }

  function Conds(defaults: seq<DefaultExpr>): seq<Option<Expression>> {
    seq(|defaults|, i requires 0 <= i < |defaults| => defaults[i].cond)
  }

  function ChoiceConds(defaults: seq<ChoiceDefault>): seq<Option<Expression>> {
    seq(|defaults|, i requires 0 <= i < |defaults| => defaults[i].cond)
  }

  function RangeConds(ranges: seq<RangeExpr>): seq<Option<Expression>> {
    seq(|ranges|, i requires 0 <= i < |ranges| => ranges[i].cond)
  }

  /** The first default that applies is not n. */
  predicate OnByDefault(cfg: Config, s: Symbol, env: Env) {
    var d := cfg.sym(s).defaults;
    exists j: nat :: j < |d| && FirstOf(Conds(d), env, j) && Value(d[j].value, env) != NO
  }

  lemma {:induction false} VisLaw(vis: Tristate, prompts: seq<Option<Expression>>, env: Env)
    requires vis != MOD
    ensures VisFrom(vis, prompts, env) == Truth(vis == YES || SomePrompt(prompts, env))
    decreases |prompts|
  {
    if prompts != [] {
      VisLaw(Max(vis, ValueOpt(prompts[0], env)), prompts[1..], env);
      if SomePrompt(prompts, env) {
        var i :| 0 <= i < |prompts| && ValueOpt(prompts[i], env) != NO;
        assert i > 0 ==> prompts[1..][i - 1] == prompts[i];
      }
      if SomePrompt(prompts[1..], env) {
        var i :| 0 <= i < |prompts[1..]| && ValueOpt(prompts[1..][i], env) != NO;
        assert prompts[1..][i] == prompts[i + 1];
      }
    }
  }

  lemma SymVisLaw(cfg: Config, s: Symbol, env: Env)
    ensures SymVis(cfg, s, env) == Truth(Shown(cfg, s, env))
    ensures forall c :: cfg.sym(s).choice == Some(c) ==>
              ChoiceVis(cfg, c, env) == Truth(SomePrompt(cfg.choice(c).prompts, env))
  {
    hide SomePrompt, VisFrom;
    VisLaw(NO, cfg.sym(s).prompts, env);
    if cfg.sym(s).choice.Some? {
      VisLaw(NO, cfg.choice(cfg.sym(s).choice.value).prompts, env);
    }
  }

  lemma {:induction false} DefaultsFrom(defaults: seq<DefaultExpr>, env: Env) returns (k: nat)
    ensures k <= |defaults| && forall i :: 0 <= i < k ==> ValueOpt(defaults[i].cond, env) == NO
    ensures if k == |defaults| then DefaultTri(defaults, env) == NO && DefaultStr(defaults, env) == ""
            else
              && ValueOpt(defaults[k].cond, env) != NO
              && DefaultTri(defaults, env) == Truth(Value(defaults[k].value, env) != NO)
              && DefaultStr(defaults, env) == ExprStr(defaults[k].value, env)
  {
    hide Value, ExprStr;
    if defaults == [] || ValueOpt(defaults[0].cond, env) != NO {
      k := 0;
    } else {
      k := DefaultsFrom(defaults[1..], env);
      k := k + 1;
    }
  }

  lemma DefaultTriLaw(cfg: Config, s: Symbol, env: Env)
    ensures DefaultTri(cfg.sym(s).defaults, env) == Truth(OnByDefault(cfg, s, env))
  {
    hide ValueOpt, Value;
    var d := cfg.sym(s).defaults;
    var k := DefaultsFrom(d, env);
    assert k < |d| ==> FirstOf(Conds(d), env, k);
    forall j: nat | FirstOf(Conds(d), env, j) ensures j == k {
      assert Conds(d)[j] == d[j].cond;
      assert k < |d| ==> Conds(d)[k] == d[k].cond;
    }
  }

  /* ----- bool and tristate symbols ----- */

  lemma Equation(cfg: Config, users: Users, V: Valuation, s: Symbol)
    requires Solves(cfg, users, V) && s in cfg.syms
    ensures V(s) == ValueOf(cfg, users, s, EnvOf(V))
  {
    hide ValueOf;
  }

  /** A bool or tristate symbol outside choices is y if it is selected, or if the user says so
      where a prompt is shown, or, without such a user, if the first default that applies does;
      otherwise it is n. */
  lemma TriLaw(cfg: Config, users: Users, V: Valuation, s: Symbol)
    requires Solves(cfg, users, V) && s in cfg.syms && s.IsTri()
    requires cfg.sym(s).special.None? && cfg.sym(s).choice.None?
    ensures var env := EnvOf(V);
            V(s) == TriName(Truth(
              || Value(cfg.sym(s).revDep, env) != NO
              || if s in users.val && Shown(cfg, s, env) then users.val[s] == "y" || users.val[s] == "m"
                 else OnByDefault(cfg, s, env)))
  {
    hide Solves, DefaultTri, Shown, OnByDefault, EnvOf, SymVis, TriName, Value;
    var env := EnvOf(V);
    Equation(cfg, users, V, s);
    SymVisLaw(cfg, s, env);
    DefaultTriLaw(cfg, s, env);
  }

  /* ----- choices ----- */

  /** A choice is in y mode if its mode is not n, by the user or because it is not optional, and one of
      its prompts is shown. */
  predicate Open(cfg: Config, users: Users, c: nat, env: Env) {
    && (if c in users.mode then users.mode[c] != NO else !cfg.choice(c).optional)
    && SomePrompt(cfg.choice(c).prompts, env)
  }

  /** The symbol that the first default of the choice that applies names, or else the first member. */
  ghost predicate Favoured(cfg: Config, c: nat, env: Env, x: Symbol)
    requires cfg.choice(c).members != []
  {
    var d := cfg.choice(c);
    && (forall j: nat :: FirstOf(ChoiceConds(d.defaults), env, j) ==> x == d.defaults[j].sym)
    && ((forall j: nat :: !FirstOf(ChoiceConds(d.defaults), env, j)) ==> x == d.members[0])
  }

  predicate FirstShown(cfg: Config, members: seq<Symbol>, env: Env, m: Symbol) {
    exists k :: 0 <= k < |members| && members[k] == m && Shown(cfg, m, env)
                && forall i :: 0 <= i < k ==> !Shown(cfg, members[i], env)
  }

  /** An open choice takes the pick of the user if it is shown; otherwise, unless it is optional, its
      favoured symbol or, where that is not shown, the first member that is. */
  ghost predicate Chosen(cfg: Config, users: Users, c: nat, env: Env, m: Symbol) {
    var d := cfg.choice(c);
    if c in users.pick && Shown(cfg, users.pick[c], env) then m == users.pick[c]
    else
      && !d.optional && d.members != []
      && exists x :: Favoured(cfg, c, env, x)
                     && if Shown(cfg, x, env) then m == x else FirstShown(cfg, d.members, env, m)
  }

  lemma ModeLaw(cfg: Config, users: Users, c: nat, env: Env)
    ensures ModeOf(cfg, users, c, env) == Truth(Open(cfg, users, c, env))
  {
    hide SomePrompt, VisFrom;
    VisLaw(NO, cfg.choice(c).prompts, env);
  }

  lemma {:induction false} ActiveFrom(defaults: seq<ChoiceDefault>, env: Env) returns (k: nat)
    ensures k <= |defaults| && forall i :: 0 <= i < k ==> ValueOpt(defaults[i].cond, env) == NO
    ensures if k == |defaults| then ActiveDefault(defaults, env).None?
            else ValueOpt(defaults[k].cond, env) != NO && ActiveDefault(defaults, env) == Some(defaults[k].sym)
  {
    hide Value;
    if defaults == [] || ValueOpt(defaults[0].cond, env) != NO {
      k := 0;
    } else {
      k := ActiveFrom(defaults[1..], env);
      k := k + 1;
    }
  }

  lemma FavouredLaw(cfg: Config, c: nat, env: Env)
    requires cfg.choice(c).members != []
    ensures var first := ActiveDefault(cfg.choice(c).defaults, env);
            forall x :: Favoured(cfg, c, env, x) <==> x == if first.Some? then first.value else cfg.choice(c).members[0]
  {
    hide ValueOpt;
    var d := cfg.choice(c).defaults;
    var k := ActiveFrom(d, env);
    assert k < |d| ==> FirstOf(ChoiceConds(d), env, k);
    forall j: nat | FirstOf(ChoiceConds(d), env, j) ensures j == k {
      assert ChoiceConds(d)[j] == d[j].cond;
      assert k < |d| ==> ChoiceConds(d)[k] == d[k].cond;
    }
  }

  lemma {:induction false} FirstShownLaw(cfg: Config, members: seq<Symbol>, env: Env) returns (k: nat)
    ensures if FirstVisible(cfg, members, env).None? then
              forall i :: 0 <= i < |members| ==> !Shown(cfg, members[i], env)
            else
              && k < |members| && FirstVisible(cfg, members, env) == Some(members[k]) && Shown(cfg, members[k], env)
              && forall i :: 0 <= i < k ==> !Shown(cfg, members[i], env)
  {
    hide Shown, SymVis;
    k := 0;
    if members != [] {
      SymVisLaw(cfg, members[0], env);
      k := FirstShownLaw(cfg, members[1..], env);
      k := if Shown(cfg, members[0], env) then 0 else k + 1;
    }
  }

  /** What the selection of a choice is. */
  lemma SelectionLaw(cfg: Config, users: Users, c: nat, env: Env, m: Symbol)
    ensures SelectionOf(cfg, users, c, env) == Some(m) <==> Open(cfg, users, c, env) && Chosen(cfg, users, c, env, m)
  {
    hide Shown, SymVis, ActiveDefault, FirstVisible, Favoured, ModeOf, Open;
    var d := cfg.choice(c);
    ModeLaw(cfg, users, c, env);
    if c in users.pick {
      SymVisLaw(cfg, users.pick[c], env);
    }
    if d.members != [] {
      FavouredLaw(cfg, c, env);
      var first := ActiveDefault(d.defaults, env);
      var x := if first.Some? then first.value else d.members[0];
      SymVisLaw(cfg, x, env);
      var k := FirstShownLaw(cfg, d.members, env);
      assert Favoured(cfg, c, env, x);
      assert FirstVisible(cfg, d.members, env) == Some(m) <==> FirstShown(cfg, d.members, env, m);
    }
  }

  /** A bool or tristate member of a choice is y if it is shown and its open choice takes it; otherwise
      it is n. */
  lemma MemberLaw(cfg: Config, users: Users, V: Valuation, s: Symbol, c: nat)
    requires Solves(cfg, users, V) && s in cfg.syms && s.IsTri()
    requires cfg.sym(s).special.None? && cfg.sym(s).choice == Some(c)
    ensures var env := EnvOf(V);
            V(s) == TriName(Truth(Shown(cfg, s, env) && Open(cfg, users, c, env) && Chosen(cfg, users, c, env, s)))
  {
    hide Solves, Shown, EnvOf, SymVis, TriName, Chosen, Open, ModeOf, SelectionOf;
    var env := EnvOf(V);
    Equation(cfg, users, V, s);
    SymVisLaw(cfg, s, env);
    ModeLaw(cfg, users, c, env);
    SelectionLaw(cfg, users, c, env, s);
  }

  /** The bool and tristate members of a choice. */
  predicate Plain(cfg: Config, c: nat) {
    forall m :: m in cfg.choice(c).members ==> m.IsTri() && cfg.sym(m).special.None?
  }

  /** At most one member of a choice is y, and exactly one if the choice is open, not optional, and has
      a member that is shown. */
  lemma Exclusive(cfg: Config, users: Users, V: Valuation, c: nat)
    requires WellFormedConfig(cfg) && WellFormedUsers(cfg, users) && Solves(cfg, users, V)
    requires c in cfg.choices && Plain(cfg, c) && DefaultsInside(cfg, c)
    ensures forall x, y :: x in cfg.choice(c).members && y in cfg.choice(c).members && V(x) != "n" && V(y) != "n" ==>
              x == y
    ensures Open(cfg, users, c, EnvOf(V)) && !cfg.choice(c).optional
            && (exists m :: m in cfg.choice(c).members && Shown(cfg, m, EnvOf(V))) ==>
              exists m :: m in cfg.choice(c).members && V(m) == "y"
    ensures !Open(cfg, users, c, EnvOf(V)) ==> forall m :: m in cfg.choice(c).members ==> V(m) == "n"
  {
    hide Solves, EnvOf, Open, TriName, SymReads, Targets, SelectionOf, Chosen, Shown;
    var env, d := EnvOf(V), cfg.choice(c);
    NamesApart();
    forall m | m in d.members
      ensures V(m) != "n" ==> SelectionOf(cfg, users, c, env) == Some(m)
      ensures !Open(cfg, users, c, env) ==> V(m) == "n"
    {
      MemberLaw(cfg, users, V, m, c);
      SelectionLaw(cfg, users, c, env, m);
    }
    if Open(cfg, users, c, env) && !d.optional && exists m :: m in d.members && Shown(cfg, m, env) {
      var m :| m in d.members && Shown(cfg, m, env);
      var taken := Taken(cfg, users, c, env, m);
      MemberLaw(cfg, users, V, taken, c);
    }
  }

  lemma NamesApart()
    ensures TriName(NO) == "n" && TriName(YES) == "y" && "n" != "y"
  {
    assert "n"[0] != "y"[0];
  }

  lemma Taken(cfg: Config, users: Users, c: nat, env: Env, m: Symbol) returns (taken: Symbol)
    requires WellFormedUsers(cfg, users) && c in cfg.choices && DefaultsInside(cfg, c) && !cfg.choice(c).optional
    requires m in cfg.choice(c).members && Shown(cfg, m, env)
    ensures taken in cfg.choice(c).members && Shown(cfg, taken, env) && Chosen(cfg, users, c, env, taken)
  {
    hide Shown, Favoured;
    var d := cfg.choice(c);
    FavouredLaw(cfg, c, env);
    ActiveInside(d.defaults, env);
    var first := ActiveDefault(d.defaults, env);
    var x := if first.Some? then first.value else d.members[0];
    assert Favoured(cfg, c, env, x) && x in d.members;
    var k := FirstShownLaw(cfg, d.members, env);
    if c in users.pick && Shown(cfg, users.pick[c], env) {
      taken := users.pick[c];
    } else if Shown(cfg, x, env) {
      taken := x;
    } else {
      taken := d.members[k];
    }
  }

  /* ----- strings and numbers ----- */

  function NamedStr(e: Expression, env: Env): string {
    if e.Atom? then StrVal(e.item, env) else ""
  }

  /** The string that the first default that applies names, or nothing. */
  ghost predicate TextByDefault(defaults: seq<DefaultExpr>, env: Env, str: string) {
    && (forall j: nat :: FirstOf(Conds(defaults), env, j) ==> str == NamedStr(defaults[j].value, env))
    && ((forall j: nat :: !FirstOf(Conds(defaults), env, j)) ==> str == "")
  }

  lemma TextDefaultLaw(defaults: seq<DefaultExpr>, env: Env)
    ensures TextByDefault(defaults, env, DefaultStr(defaults, env))
  {
    hide ValueOpt, Value;
    var k := DefaultsFrom(defaults, env);
    assert k < |defaults| ==> FirstOf(Conds(defaults), env, k);
    forall j: nat | FirstOf(Conds(defaults), env, j) ensures j == k {
      assert Conds(defaults)[j] == defaults[j].cond;
      assert k < |defaults| ==> Conds(defaults)[k] == defaults[k].cond;
    }
  }

  /** A string symbol has the string of the user where a prompt is shown, else the one by default. */
  lemma TextLaw(cfg: Config, users: Users, V: Valuation, s: Symbol)
    requires Solves(cfg, users, V) && s in cfg.syms && IsText(s) && cfg.sym(s).special.None?
    ensures if s in users.val && Shown(cfg, s, EnvOf(V)) then V(s) == users.val[s]
            else TextByDefault(cfg.sym(s).defaults, EnvOf(V), V(s))
  {
    hide Solves, EnvOf, Shown, SymVis, TextByDefault, DefaultStr;
    Equation(cfg, users, V, s);
    SymVisLaw(cfg, s, EnvOf(V));
    TextDefaultLaw(cfg.sym(s).defaults, EnvOf(V));
  }

  /** A bound that is no number in the base of the symbol reads as 0. */
  function Bound(lib: Library, t: Token, hex: bool, env: Env): int {
    if lib.isBase(StrVal(t, env), hex) then lib.scan(StrVal(t, env), hex) else 0
  }

  /** The bounds are those of the first range that applies, if there is one. */
  ghost predicate Bounded(lib: Library, ranges: seq<RangeExpr>, hex: bool, env: Env, b: Option<Bounds>) {
    && (forall j: nat :: FirstOf(RangeConds(ranges), env, j) ==>
          b == Some(Bounds(Bound(lib, ranges[j].low, hex, env), Bound(lib, ranges[j].high, hex, env))))
    && ((forall j: nat :: !FirstOf(RangeConds(ranges), env, j)) ==> b == None)
  }

  lemma {:induction false} RangesFrom(lib: Library, ranges: seq<RangeExpr>, hex: bool, env: Env) returns (k: nat)
    ensures k <= |ranges| && forall i :: 0 <= i < k ==> ValueOpt(ranges[i].cond, env) == NO
    ensures if k == |ranges| then BoundsOf(lib, ranges, hex, env).None?
            else
              && ValueOpt(ranges[k].cond, env) != NO
              && BoundsOf(lib, ranges, hex, env)
                 == Some(Bounds(Bound(lib, ranges[k].low, hex, env), Bound(lib, ranges[k].high, hex, env)))
  {
    hide Value, StrVal;
    if ranges == [] || ValueOpt(ranges[0].cond, env) != NO {
      k := 0;
    } else {
      k := RangesFrom(lib, ranges[1..], hex, env);
      k := k + 1;
    }
  }

  lemma BoundsLaw(lib: Library, ranges: seq<RangeExpr>, hex: bool, env: Env)
    ensures Bounded(lib, ranges, hex, env, BoundsOf(lib, ranges, hex, env))
  {
    hide ValueOpt, StrVal;
    var k := RangesFrom(lib, ranges, hex, env);
    assert k < |ranges| ==> FirstOf(RangeConds(ranges), env, k);
    forall j: nat | FirstOf(RangeConds(ranges), env, j) ensures j == k {
      assert RangeConds(ranges)[j] == ranges[j].cond;
      assert k < |ranges| ==> RangeConds(ranges)[k] == ranges[k].cond;
    }
  }

  predicate Active(defaults: seq<DefaultExpr>, env: Env, j: int) {
    0 <= j < |defaults| && ValueOpt(defaults[j].cond, env) != NO
  }

  predicate ActiveNumber(lib: Library, defaults: seq<DefaultExpr>, hex: bool, env: Env, j: int) {
    Active(defaults, env, j) && lib.isBase(NamedStr(defaults[j].value, env), hex)
  }

  /** The default at `j` is the first one that applies and is a number. */
  predicate FirstNumber(lib: Library, defaults: seq<DefaultExpr>, hex: bool, env: Env, j: nat) {
    ActiveNumber(lib, defaults, hex, env, j) && forall i: nat :: i < j ==> !ActiveNumber(lib, defaults, hex, env, i)
  }

  ghost predicate LastActive(defaults: seq<DefaultExpr>, env: Env, j: nat) {
    Active(defaults, env, j) && forall i: nat :: i > j ==> !Active(defaults, env, i)
  }

  /** A number that violates a bound becomes that bound; the lower bound goes first. */
  ghost predicate Clamped(lib: Library, hex: bool, b: Option<Bounds>, w: string, str: string) {
    str == if b.Some? && lib.scan(w, hex) < b.value.low then lib.format(b.value.low, hex)
           else if b.Some? && lib.scan(w, hex) > b.value.high then lib.format(b.value.high, hex)
           else w
  }

  /** The first default that applies and is a number, clamped; without one, a positive lower bound, or
      else the string of the last default that applies. */
  ghost predicate NumberByDefault(lib: Library, v: string, defaults: seq<DefaultExpr>, b: Option<Bounds>, hex: bool,
                                  env: Env, str: string) {
    && (forall j: nat :: FirstNumber(lib, defaults, hex, env, j) ==>
          Clamped(lib, hex, b, NamedStr(defaults[j].value, env), str))
    && ((forall j: nat :: !ActiveNumber(lib, defaults, hex, env, j)) ==>
          if b.Some? && b.value.low > 0 then str == lib.format(b.value.low, hex)
          else
            && (forall j: nat :: LastActive(defaults, env, j) ==> str == NamedStr(defaults[j].value, env))
            && ((forall j: nat :: !Active(defaults, env, j)) ==> str == v))
  }

  /** The indices of the first number and of the last default that applies; the length stands for
      none. */
  lemma {:induction false} NumbersFrom(lib: Library, v: string, defaults: seq<DefaultExpr>, b: Option<Bounds>,
                                       hex: bool, env: Env) returns (k: nat, l: nat)
    ensures k <= |defaults| && forall i: nat :: i < k ==> !ActiveNumber(lib, defaults, hex, env, i)
    ensures l <= |defaults| && forall i: nat :: i > l ==> !Active(defaults, env, i)
    ensures l < |defaults| ==> Active(defaults, env, l)
    ensures l == |defaults| ==> forall i: nat :: !Active(defaults, env, i)
    ensures var str := DefaultNum(lib, v, defaults, b, hex, env);
            if k < |defaults| then
              ActiveNumber(lib, defaults, hex, env, k) && Clamped(lib, hex, b, NamedStr(defaults[k].value, env), str)
            else if b.Some? && b.value.low > 0 then str == lib.format(b.value.low, hex)
            else str == if l < |defaults| then NamedStr(defaults[l].value, env) else v
    decreases |defaults|
  {
    hide ValueOpt, NamedStr, ExprStr, StrVal, Clamped;
    if defaults == [] {
      k, l := 0, 0;
    } else {
      var rest, w := defaults[1..], NamedStr(defaults[0].value, env);
      SameStr(defaults[0].value, env);
      Shifted(lib, defaults, hex, env);
      var on := Active(defaults, env, 0);
      k, l := NumbersFrom(lib, if on then w else v, rest, b, hex, env);
      ClampedStr(lib, hex, b, w);
      k := if on && lib.isBase(w, hex) then 0 else k + 1;
      l := if on && l == |rest| then 0 else l + 1;
    }
  }

  lemma SameStr(e: Expression, env: Env)
    ensures ExprStr(e, env) == NamedStr(e, env)
  {
  }

  lemma ClampedStr(lib: Library, hex: bool, b: Option<Bounds>, w: string)
    ensures Clamped(lib, hex, b, w, ClampStr(lib, w, b, hex))
  {
  }

  lemma Shifted(lib: Library, defaults: seq<DefaultExpr>, hex: bool, env: Env)
    requires defaults != []
    ensures forall i :: i > 0 ==> Active(defaults, env, i) == Active(defaults[1..], env, i - 1)
    ensures forall i :: i > 0 ==>
              ActiveNumber(lib, defaults, hex, env, i) == ActiveNumber(lib, defaults[1..], hex, env, i - 1)
  {
  }

  lemma NumberDefaultLaw(lib: Library, v: string, defaults: seq<DefaultExpr>, b: Option<Bounds>, hex: bool, env: Env)
    ensures NumberByDefault(lib, v, defaults, b, hex, env, DefaultNum(lib, v, defaults, b, hex, env))
  {
    hide ValueOpt, NamedStr, Clamped, DefaultNum;
    var k, l := NumbersFrom(lib, v, defaults, b, hex, env);
    forall j: nat | FirstNumber(lib, defaults, hex, env, j) ensures j == k {
      assert k < j ==> !ActiveNumber(lib, defaults, hex, env, k);
    }
    forall j: nat | LastActive(defaults, env, j) ensures j == l {
      assert l > j ==> !Active(defaults, env, l);
    }
  }

  /** A number of the user is taken where a prompt is shown, if it is one in the base of the symbol and
      lies in the first range that applies; otherwise the defaults decide. */
  lemma NumberLaw(cfg: Config, users: Users, V: Valuation, s: Symbol) returns (b: Option<Bounds>)
    requires Solves(cfg, users, V) && s in cfg.syms && IsNumber(s) && cfg.sym(s).special.None?
    ensures var lib, hex := cfg.lib, s.kind.Hexadecimal?;
            && Bounded(lib, cfg.sym(s).ranges, hex, EnvOf(V), b)
            && if s in users.val && Shown(cfg, s, EnvOf(V)) && lib.isBase(users.val[s], hex)
                  && (b.Some? ==> b.value.low <= lib.scan(users.val[s], hex) <= b.value.high)
               then V(s) == users.val[s]
               else NumberByDefault(lib, "", cfg.sym(s).defaults, b, hex, EnvOf(V), V(s))
  {
    hide Solves, EnvOf, Shown, SymVis, NumberByDefault, DefaultNum, Bounded, BoundsOf;
    Equation(cfg, users, V, s);
    SymVisLaw(cfg, s, EnvOf(V));
    b := BoundsOf(cfg.lib, cfg.sym(s).ranges, s.kind.Hexadecimal?, EnvOf(V));
    BoundsLaw(cfg.lib, cfg.sym(s).ranges, s.kind.Hexadecimal?, EnvOf(V));
    NumberDefaultLaw(cfg.lib, "", cfg.sym(s).defaults, b, s.kind.Hexadecimal?, EnvOf(V));
  }

  /** Special symbols have their value once and for all, and symbols without a type their name. */
  lemma FixedLaw(cfg: Config, users: Users, V: Valuation, s: Symbol)
    requires Solves(cfg, users, V) && s in cfg.syms
    requires cfg.sym(s).special.Some? || !(s.IsTri() || IsText(s) || IsNumber(s))
    ensures V(s) == if cfg.sym(s).special.Some? then cfg.sym(s).special.value else cfg.sym(s).name
  {
    hide Solves;
    Equation(cfg, users, V, s);
  }

  /* ----- what a symbol reads ----- */

  predicate Mentions(e: Expression, t: Symbol) {
    match e
    case Atom(i) => i == Sym(t)
    case Rel(_, l, r) => l == Sym(t) || r == Some(Sym(t))
    case Inverse(a) => Mentions(a, t)
    case List(_, es) => exists i :: 0 <= i < |es| && Mentions(es[i], t)
  }

  predicate OptMentions(e: Option<Expression>, t: Symbol) {
    e.Some? && Mentions(e.value, t)
  }

  predicate PromptsMention(prompts: seq<Option<Expression>>, t: Symbol) {
    exists i :: 0 <= i < |prompts| && OptMentions(prompts[i], t)
  }

  lemma {:induction false} MentionsExactly(e: Expression, t: Symbol)
    ensures t in ExprSyms(e) <==> Mentions(e, t)
    decreases e, 0
  {
    match e
    case Atom(_) =>
    case Rel(_, _, _) =>
    case Inverse(a) => MentionsExactly(a, t);
    case List(_, es) => ListMentions(es, t);
  }

  lemma {:induction false} ListMentions(es: seq<Expression>, t: Symbol)
    ensures t in ListSyms(es) <==> exists i :: 0 <= i < |es| && Mentions(es[i], t)
    decreases es, 0
  {
    hide Mentions;
    if es != [] {
      MentionsExactly(es[0], t);
      ListMentions(es[1..], t);
      forall i | 0 <= i < |es[1..]| ensures es[1..][i] == es[i + 1] {
      }
      if i :| 0 <= i < |es| && Mentions(es[i], t) {
        assert i > 0 ==> Mentions(es[1..][i - 1], t);
      }
    }
  }

  lemma OptExactly(e: Option<Expression>, t: Symbol)
    ensures t in OptSyms(e) <==> OptMentions(e, t)
  {
    if e.Some? {
      MentionsExactly(e.value, t);
    }
  }

  lemma {:induction false} PromptsExactly(prompts: seq<Option<Expression>>, t: Symbol)
    ensures t in PromptSyms(prompts) <==> PromptsMention(prompts, t)
  {
    hide OptMentions;
    if prompts != [] {
      OptExactly(prompts[0], t);
      PromptsExactly(prompts[1..], t);
      if i :| 0 <= i < |prompts| && OptMentions(prompts[i], t) {
        assert i > 0 ==> OptMentions(prompts[1..][i - 1], t);
      }
    }
  }

  predicate DefaultMentions(d: DefaultExpr, t: Symbol) {
    Mentions(d.value, t) || OptMentions(d.cond, t)
  }

  lemma {:induction false} DefaultsExactly(defaults: seq<DefaultExpr>, t: Symbol)
    ensures t in DefaultSyms(defaults) <==> exists i :: 0 <= i < |defaults| && DefaultMentions(defaults[i], t)
  {
    hide DefaultMentions;
    if defaults != [] {
      DefaultExactly(defaults[0], t);
      DefaultsExactly(defaults[1..], t);
      if i :| 0 <= i < |defaults| && DefaultMentions(defaults[i], t) {
        assert i > 0 ==> DefaultMentions(defaults[1..][i - 1], t);
      }
    }
  }

  lemma DefaultExactly(d: DefaultExpr, t: Symbol)
    ensures t in ExprSyms(d.value) + OptSyms(d.cond) <==> DefaultMentions(d, t)
  {
    MentionsExactly(d.value, t);
    OptExactly(d.cond, t);
  }

  predicate RangeMentions(r: RangeExpr, t: Symbol) {
    r.low == Sym(t) || r.high == Sym(t) || OptMentions(r.cond, t)
  }

  lemma {:induction false} RangesExactly(ranges: seq<RangeExpr>, t: Symbol)
    ensures t in RangeSyms(ranges) <==> exists i :: 0 <= i < |ranges| && RangeMentions(ranges[i], t)
  {
    if ranges != [] {
      OptExactly(ranges[0].cond, t);
      RangesExactly(ranges[1..], t);
      if i :| 0 <= i < |ranges| && RangeMentions(ranges[i], t) {
        assert i > 0 ==> RangeMentions(ranges[1..][i - 1], t);
      }
    }
  }

  lemma {:induction false} ChoiceDefaultsExactly(defaults: seq<ChoiceDefault>, t: Symbol)
    ensures t in ChoiceDefaultSyms(defaults) <==> exists i :: 0 <= i < |defaults| && OptMentions(defaults[i].cond, t)
  {
    hide OptMentions;
    if defaults != [] {
      OptExactly(defaults[0].cond, t);
      ChoiceDefaultsExactly(defaults[1..], t);
      if i :| 0 <= i < |defaults| && OptMentions(defaults[i].cond, t) {
        assert i > 0 ==> OptMentions(defaults[1..][i - 1].cond, t);
      }
    }
  }

  /** A symbol counts as read exactly if it occurs in a prompt, a default, a select or a range, or in a
      prompt or the condition of a default of the choice. */
  lemma ReadsExactly(cfg: Config, s: Symbol, t: Symbol)
    ensures var d := cfg.sym(s);
            t in SymReads(cfg, s) <==>
              || PromptsMention(d.prompts, t)
              || (exists i :: 0 <= i < |d.defaults| && DefaultMentions(d.defaults[i], t))
              || Mentions(d.revDep, t)
              || (exists i :: 0 <= i < |d.ranges| && RangeMentions(d.ranges[i], t))
              || (d.choice.Some? &&
                  (PromptsMention(cfg.choice(d.choice.value).prompts, t)
                   || exists i :: 0 <= i < |cfg.choice(d.choice.value).defaults|
                                  && OptMentions(cfg.choice(d.choice.value).defaults[i].cond, t)))
  {
    hide PromptSyms, DefaultSyms, ExprSyms, RangeSyms, ChoiceDefaultSyms, PromptsMention, DefaultMentions, Mentions;
    hide RangeMentions, OptMentions;
    var d := cfg.sym(s);
    PromptsExactly(d.prompts, t);
    DefaultsExactly(d.defaults, t);
    MentionsExactly(d.revDep, t);
    RangesExactly(d.ranges, t);
    if d.choice.Some? {
      PromptsExactly(cfg.choice(d.choice.value).prompts, t);
      ChoiceDefaultsExactly(cfg.choice(d.choice.value).defaults, t);
    }
  }

  /* ----- set, then read back ----- */

  /** A change of the user value of `s` moves nothing of smaller rank. */
  lemma {:induction false} EarlierUnmoved(cfg: Config, u: Users, w: Users, V: Valuation, W: Valuation, rank: Rank,
                                          s: Symbol, x: Symbol)
    requires WellFormedConfig(cfg) && Ranked(cfg, rank) && WellFormedUsers(cfg, u)
    requires Solves(cfg, u, V) && Solves(cfg, w, W) && OnlyAt(cfg, u, w, s)
    requires s in cfg.syms && rank(x) < rank(s)
    ensures V(x) == W(x)
    decreases rank(x)
  {
    hide ValueOf, SymReads, WellFormedUsers, Wide, Ranked, OnlyAt;
    if x in cfg.syms {
      forall m | m in Wide(cfg, x) ensures AgreeOn(V, W, SymReads(cfg, m)) {
        WideInside(cfg, rank, x, m);
        forall t | t in SymReads(cfg, m) ensures V(t) == W(t) {
          EarlierUnmoved(cfg, u, w, V, W, rank, s, t);
        }
      }
      EarlierElsewhere(cfg, rank, s, x);
      SameElsewhere(cfg, u, w, s, x);
      ValueLocal(cfg, u, w, x, V, W);
    }
  }

  lemma EarlierElsewhere(cfg: Config, rank: Rank, s: Symbol, x: Symbol)
    requires WellFormedConfig(cfg) && Ranked(cfg, rank) && s in cfg.syms && x in cfg.syms && rank(x) < rank(s)
    ensures x != s && (cfg.sym(x).choice.Some? ==> cfg.sym(s).choice != cfg.sym(x).choice)
  {
    hide SymReads, Targets, Wide;
    assert cfg.sym(x).choice.Some? && cfg.sym(s).choice == cfg.sym(x).choice ==> s in Group(cfg, x);
  }

  /** What a symbol reads, and so whether its prompts are shown, does not change when it is set. */
  lemma SetUnmoved(cfg: Config, u: Users, s: Symbol, v: string, V: Valuation, W: Valuation, rank: Rank)
    requires WellFormedConfig(cfg) && Ranked(cfg, rank) && WellFormedUsers(cfg, u) && s in cfg.syms
    requires Solves(cfg, u, V) && Solves(cfg, Assigned(cfg, u, s, v), W)
    ensures AgreeOn(V, W, SymReads(cfg, s))
    ensures Shown(cfg, s, EnvOf(W)) == Shown(cfg, s, EnvOf(V))
    ensures Value(cfg.sym(s).revDep, EnvOf(W)) == Value(cfg.sym(s).revDep, EnvOf(V))
    ensures OnByDefault(cfg, s, EnvOf(W)) == OnByDefault(cfg, s, EnvOf(V))
  {
    hide ValueOf, WellFormedUsers, Wide, OnlyAt, SymVis, Assigned, Shown, EnvOf, Value, OnByDefault, DefaultTri;
    AssignedOnlyAt(cfg, u, s, v);
    forall t | t in SymReads(cfg, s) ensures V(t) == W(t) {
      assert rank(t) < rank(s);
      EarlierUnmoved(cfg, u, Assigned(cfg, u, s, v), V, W, rank, s, t);
    }
    SymVisLocal(cfg, s, V, W);
    SymVisLaw(cfg, s, EnvOf(V));
    SymVisLaw(cfg, s, EnvOf(W));
    ChoiceReads(cfg, s);
    ExprLocal(cfg.sym(s).revDep, V, W);
    DefaultsLocal(cfg.lib, "", cfg.sym(s).defaults, None, false, V, W);
    DefaultTriLaw(cfg, s, EnvOf(V));
    DefaultTriLaw(cfg, s, EnvOf(W));
  }

  /** A bool or tristate symbol outside choices that is set to a value that suits it has that value, m
      counting as y, where it is shown and not selected; otherwise its selects and defaults decide as
      before. */
  lemma SetReadsBack(cfg: Config, u: Users, s: Symbol, v: string, V: Valuation, W: Valuation, rank: Rank)
    requires WellFormedConfig(cfg) && Ranked(cfg, rank) && WellFormedUsers(cfg, u) && s in cfg.syms
    requires Solves(cfg, u, V) && Solves(cfg, Assigned(cfg, u, s, v), W)
    requires s.IsTri() && cfg.sym(s).special.None? && cfg.sym(s).defined && cfg.sym(s).choice.None?
    requires v == "y" || v == "n" || (v == "m" && s.IsTristate())
    ensures W(s) == if Value(cfg.sym(s).revDep, EnvOf(V)) != NO then "y"
                    else if Shown(cfg, s, EnvOf(V)) then (if v == "n" then "n" else "y")
                    else if OnByDefault(cfg, s, EnvOf(V)) then "y" else "n"
  {
    hide ValueOf, WellFormedUsers, Ranked, SymReads, Shown, Solves, Value, EnvOf, OnByDefault;
    SetUnmoved(cfg, u, s, v, V, W, rank);
    TriLaw(cfg, Assigned(cfg, u, s, v), W, s);
    NamesApart();
    assert "m"[0] != "n"[0];
  }

  /** A member that is shown and set to y is y; all other members are n then. */
  lemma MemberReadsBack(cfg: Config, u: Users, s: Symbol, c: nat, V: Valuation, W: Valuation, rank: Rank)
    requires WellFormedConfig(cfg) && Ranked(cfg, rank) && WellFormedUsers(cfg, u) && s in cfg.syms
    requires Solves(cfg, u, V) && Solves(cfg, Assigned(cfg, u, s, "y"), W)
    requires cfg.sym(s).defined && cfg.sym(s).choice == Some(c) && Plain(cfg, c) && Shown(cfg, s, EnvOf(V))
    ensures s in cfg.choice(c).members
    ensures forall m :: m in cfg.choice(c).members ==> W(m) == if m == s then "y" else "n"
  {
    hide ValueOf, WellFormedUsers, Ranked, SymReads, Solves, Value, EnvOf, SomePrompt, Favoured;
    var w, env := Assigned(cfg, u, s, "y"), EnvOf(W);
    SetUnmoved(cfg, u, s, "y", V, W, rank);
    NamesApart();
    assert s in cfg.choice(c).members;
    assert w.pick == u.pick[c := s] && w.mode == u.mode[c := YES];
    forall m | m in cfg.choice(c).members ensures W(m) == if m == s then "y" else "n" {
      MemberLaw(cfg, w, W, m, c);
    }
  }

  /** A string symbol that is shown has the string that it was set to, and so has a number in the base
      of the symbol and in its range. */
  lemma TextReadsBack(cfg: Config, u: Users, s: Symbol, v: string, V: Valuation, W: Valuation, rank: Rank)
    requires WellFormedConfig(cfg) && Ranked(cfg, rank) && WellFormedUsers(cfg, u) && s in cfg.syms
    requires Solves(cfg, u, V) && Solves(cfg, Assigned(cfg, u, s, v), W)
    requires cfg.sym(s).special.None? && cfg.sym(s).defined && cfg.sym(s).choice.None? && Shown(cfg, s, EnvOf(V))
    ensures IsText(s) ==> W(s) == v
    ensures IsNumber(s) && cfg.lib.isBase(v, s.kind.Hexadecimal?)
            && (forall b :: Bounded(cfg.lib, cfg.sym(s).ranges, s.kind.Hexadecimal?, EnvOf(W), b) && b.Some? ==>
                  b.value.low <= cfg.lib.scan(v, s.kind.Hexadecimal?) <= b.value.high) ==>
              W(s) == v
  {
    hide ValueOf, WellFormedUsers, Ranked, SymReads, Shown, Solves, Value, EnvOf, Bounded, NumberByDefault;
    hide TextByDefault;
    SetUnmoved(cfg, u, s, v, V, W, rank);
    if IsText(s) {
      TextLaw(cfg, Assigned(cfg, u, s, v), W, s);
    } else if IsNumber(s) {
      var b := NumberLaw(cfg, Assigned(cfg, u, s, v), W, s);
    }
  }

  /** A value that does not suit the symbol, or one for a symbol that is not defined or has its value
      once and for all, changes nothing. */
  lemma UnfitIgnored(cfg: Config, u: Users, s: Symbol, v: string, V: Valuation, W: Valuation, rank: Rank, x: Symbol)
    requires WellFormedConfig(cfg) && Ranked(cfg, rank) && WellFormedUsers(cfg, u)
    requires Solves(cfg, u, V) && Solves(cfg, Assigned(cfg, u, s, v), W)
    requires || cfg.sym(s).special.Some? || !cfg.sym(s).defined
             || (s.IsTri() && v !in {"y", "n"} && (s.IsBool() || v != "m"))
             || (IsNumber(s) && !cfg.lib.isBase(v, s.kind.Hexadecimal?))
             || !(s.IsTri() || IsNumber(s) || IsText(s))
    ensures W(x) == V(x)
  {
    hide ValueOf, WellFormedUsers, Ranked, SymReads, Solves, WellFormedConfig;
    Unique(cfg, u, V, W, rank, x);
  }

  /** Without its user value a symbol outside choices goes by its defaults and selects alone. */
  lemma UnsetReadsDefault(cfg: Config, u: Users, s: Symbol, W: Valuation)
    requires Solves(cfg, Unassigned(cfg, u, s), W) && s in cfg.syms
    requires cfg.sym(s).special.None? && cfg.sym(s).choice.None?
    ensures s.IsTri() ==>
              W(s) == TriName(Truth(Value(cfg.sym(s).revDep, EnvOf(W)) != NO || OnByDefault(cfg, s, EnvOf(W))))
    ensures IsText(s) ==> TextByDefault(cfg.sym(s).defaults, EnvOf(W), W(s))
  {
    hide ValueOf, Solves, Shown, Value, EnvOf, OnByDefault, TextByDefault;
    if s.IsTri() {
      TriLaw(cfg, Unassigned(cfg, u, s), W, s);
    } else if IsText(s) {
      TextLaw(cfg, Unassigned(cfg, u, s), W, s);
    }
  }

  /** The choice of a member without its user value goes by its defaults alone. */
  lemma UnsetChoosesDefault(cfg: Config, u: Users, s: Symbol, c: nat, W: Valuation)
    requires Solves(cfg, Unassigned(cfg, u, s), W) && s in cfg.syms && s.IsTri()
    requires cfg.sym(s).special.None? && cfg.sym(s).choice == Some(c)
    ensures var env := EnvOf(W);
            W(s) == TriName(Truth(
              && Shown(cfg, s, env) && !cfg.choice(c).optional && cfg.choice(c).members != []
              && exists x :: Favoured(cfg, c, env, x)
                             && if Shown(cfg, x, env) then s == x else FirstShown(cfg, cfg.choice(c).members, env, s)))
  {
    hide Solves, EnvOf, Favoured, SomePrompt, FirstShown;
    MemberLaw(cfg, Unassigned(cfg, u, s), W, s, c);
  }

  /** Of several assignments the last one for a symbol counts: the others only come before it. */
  lemma {:induction false} LoadedLast(cfg: Config, u: Users, before: seq<(Symbol, string)>, s: Symbol, v: string)
    ensures Loaded(cfg, u, before + [(s, v)])
            == if s in cfg.syms then Assigned(cfg, Loaded(cfg, u, before), s, v) else Loaded(cfg, u, before)
    decreases |before|
  {
    hide Assigned;
    var all := before + [(s, v)];
    if before != [] {
      var (x, w) := before[0];
      assert all[0] == before[0] && all[1..] == before[1..] + [(s, v)];
      LoadedLast(cfg, if x in cfg.syms then Assigned(cfg, u, x, w) else u, before[1..], s, v);
    } else {
      assert all == [(s, v)] && all[1..] == [];
    }
  }
}
