/** Why Kconfiglib's caches stay right: the values are determined by the user values, a change
    affects only what lies behind the changed symbol, and invalidation drops all of that. */
module KconfiglibTheory {
  import opened Exprs
  import opened KconfiglibExprs
  import opened KconfiglibSpec

  /* ----- one solution for every set of user values ----- */

  lemma {:induction false} Unique(cfg: Config, users: Users, V: Valuation, W: Valuation, rank: Rank, s: Symbol)
    requires WellFormedConfig(cfg) && Ranked(cfg, rank) && WellFormedUsers(cfg, users)
    requires Solves(cfg, users, V) && Solves(cfg, users, W)
    ensures V(s) == W(s)
    decreases rank(s)
  {
    hide ValueOf, SymReads, WellFormedUsers, Wide, Ranked;
    if s in cfg.syms {
      forall m | m in Wide(cfg, s) ensures AgreeOn(V, W, SymReads(cfg, m)) {
        WideInside(cfg, rank, s, m);
        forall t | t in SymReads(cfg, m) ensures V(t) == W(t) {
          Unique(cfg, users, V, W, rank, t);
        }
      }
      SelfAgrees(users, cfg, s);
      ValueLocal(cfg, users, users, s, V, W);
    }
  }

  lemma SelfAgrees(users: Users, cfg: Config, s: Symbol)
    ensures SameSymbol(users, users, s) && forall c: nat :: SameChoice(users, users, c)
  {
  }

  lemma GroupInside(cfg: Config, s: Symbol, m: Symbol)
    requires WellFormedConfig(cfg) && s in cfg.syms && m in Group(cfg, s)
    ensures m in cfg.syms && Group(cfg, m) == Group(cfg, s)
  {
    hide SymReads, Targets;
    if cfg.sym(s).choice.Some? {
      assert cfg.sym(m).choice == cfg.sym(s).choice;
    }
  }

  /** What decides about `s` reads only symbols of smaller rank. */
  lemma WideInside(cfg: Config, rank: Rank, s: Symbol, m: Symbol)
    requires WellFormedConfig(cfg) && Ranked(cfg, rank) && s in cfg.syms && m in Wide(cfg, s)
    ensures m in cfg.syms && forall t :: t in SymReads(cfg, m) ==> t in cfg.syms && rank(t) < rank(s)
  {
    hide SymReads;
    if m in Group(cfg, s) {
      GroupInside(cfg, s, m);
    }
    assert rank(m) <= rank(s);
  }

  /** Every equation evaluated `n` times over. */
  function Iterate(cfg: Config, users: Users, n: nat): Valuation {
    if n == 0 then (s: Symbol) => cfg.sym(s).name
    else
      var V := Iterate(cfg, users, n - 1);
      (s: Symbol) => if s in cfg.syms then ValueOf(cfg, users, s, EnvOf(V)) else cfg.sym(s).name
  }

  /** After `rank(s) + 1` rounds the value of `s` is final. */
  lemma {:induction false} Stable(cfg: Config, users: Users, rank: Rank, s: Symbol, n: nat)
    requires WellFormedConfig(cfg) && Ranked(cfg, rank) && WellFormedUsers(cfg, users)
    requires rank(s) < n
    ensures Iterate(cfg, users, n)(s) == Iterate(cfg, users, rank(s) + 1)(s)
    decreases rank(s)
  {
    hide ValueOf, SymReads, WellFormedUsers, Wide, Ranked;
    if s in cfg.syms {
      var V, W := Iterate(cfg, users, n - 1), Iterate(cfg, users, rank(s));
      forall m | m in Wide(cfg, s) ensures AgreeOn(V, W, SymReads(cfg, m)) {
        WideInside(cfg, rank, s, m);
        forall t | t in SymReads(cfg, m) ensures V(t) == W(t) {
          Stable(cfg, users, rank, t, n - 1);
          Stable(cfg, users, rank, t, rank(s));
        }
      }
      SelfAgrees(users, cfg, s);
      ValueLocal(cfg, users, users, s, V, W);
    }
  }

  /** The value that a fresh computation gives. */
  function Fresh(cfg: Config, users: Users, rank: Rank): Valuation {
    s => Iterate(cfg, users, rank(s) + 1)(s)
  }

  lemma FreshSolves(cfg: Config, users: Users, rank: Rank)
    requires WellFormedConfig(cfg) && Ranked(cfg, rank) && WellFormedUsers(cfg, users)
    ensures Solves(cfg, users, Fresh(cfg, users, rank))
  {
    hide ValueOf, SymReads, WellFormedUsers, Wide, Ranked;
    var F := Fresh(cfg, users, rank);
    forall s: Symbol | s in cfg.syms ensures F(s) == ValueOf(cfg, users, s, EnvOf(F)) {
      var V := Iterate(cfg, users, rank(s));
      forall m | m in Wide(cfg, s) ensures AgreeOn(V, F, SymReads(cfg, m)) {
        WideInside(cfg, rank, s, m);
        forall t | t in SymReads(cfg, m) ensures V(t) == F(t) {
          Stable(cfg, users, rank, t, rank(s));
        }
      }
      SelfAgrees(users, cfg, s);
      ValueLocal(cfg, users, users, s, V, F);
    }
    forall s: Symbol | s !in cfg.syms ensures F(s) == cfg.sym(s).name {
      assert Iterate(cfg, users, rank(s) + 1)(s) == cfg.sym(s).name;
    }
  }

  /* ----- what a change can affect ----- */

  /** `Symbol.dep` after `_build_dep`: the symbols that read `s`. */
  function Readers(cfg: Config, s: Symbol): set<Symbol> {
    set t | t in cfg.syms && s in SymReads(cfg, t)
  }

  /** With each symbol, its readers and the other members of its choice. */
  ghost predicate Closed(cfg: Config, r: set<Symbol>) {
    forall s :: s in r ==> Readers(cfg, s) <= r && Group(cfg, s) <= r
  }

  /** The users differ at most about `s` and its choice. */
  ghost predicate OnlyAt(cfg: Config, u: Users, w: Users, s: Symbol) {
    && (forall t: Symbol :: t != s ==> SameSymbol(u, w, t))
    && (forall c: nat :: cfg.sym(s).choice != Some(c) ==> SameChoice(u, w, c))
  }

  /** Whatever reaches what the symbols that the defaults of a choice name read also reaches the
      members of the choice. */
  ghost predicate Covered(cfg: Config, c: nat) {
    forall t, x, r: set<Symbol> ::
      t in Targets(cfg, c) && x in SymReads(cfg, t) && x in r && Closed(cfg, r) ==> MembersIn(cfg, c, r)
  }

  predicate MembersIn(cfg: Config, c: nat, r: set<Symbol>) {
    forall m :: m in cfg.choice(c).members ==> m in r
  }

  /** That is so if the defaults of a choice are among its members. */
  lemma InsideCovered(cfg: Config, c: nat)
    requires WellFormedConfig(cfg) && c in cfg.choices && DefaultsInside(cfg, c)
    ensures Covered(cfg, c)
  {
    hide SymReads;
    forall t, x, r: set<Symbol> | t in Targets(cfg, c) && x in SymReads(cfg, t) && x in r && Closed(cfg, r)
      ensures MembersIn(cfg, c, r)
    {
      assert t in Readers(cfg, x) && t in r;
      assert Group(cfg, t) <= r;
    }
  }

  /** A closed set with all members of the choices that are not covered. */
  ghost predicate Sheltered(cfg: Config, r: set<Symbol>) {
    Closed(cfg, r) && forall s :: s in cfg.syms && s !in r && cfg.sym(s).choice.Some? ==>
                        Covered(cfg, cfg.sym(s).choice.value)
  }

  /** The same, with the members of choices that are not orderly, or have a default in the set. */
  ghost predicate Doubtful(cfg: Config, r: set<Symbol>) {
    && Sheltered(cfg, r)
    && forall s :: s in cfg.syms && s !in r && cfg.sym(s).choice.Some? ==>
         OrderlyOutside(cfg, cfg.sym(s).choice.value, r)
  }

  ghost predicate OrderlyOutside(cfg: Config, c: nat, r: set<Symbol>) {
    Orderly(cfg, c) && forall t :: t in Targets(cfg, c) ==> t !in r
  }

  lemma ShelteredMore(cfg: Config, d: set<Symbol>, r: set<Symbol>)
    requires Sheltered(cfg, d) && Closed(cfg, r)
    ensures Sheltered(cfg, r + d)
  {
    hide Readers, Group, Covered;
  }

  /** A change of the user value of `s` changes nothing outside a closed set around `s`, if all
      choices outside are covered. */
  lemma {:induction false} Unaffected(cfg: Config, u: Users, w: Users, s: Symbol, r: set<Symbol>, V: Valuation,
                                      W: Valuation, rank: Rank, x: Symbol)
    requires WellFormedConfig(cfg) && Ranked(cfg, rank) && WellFormedUsers(cfg, u) && WellFormedUsers(cfg, w)
    requires Solves(cfg, u, V) && Solves(cfg, w, W) && OnlyAt(cfg, u, w, s)
    requires s in cfg.syms && s in r && Sheltered(cfg, r) && x !in r
    ensures V(x) == W(x)
    ensures x in cfg.syms ==> forall m :: m in Wide(cfg, x) ==> AgreeOn(V, W, SymReads(cfg, m))
    decreases rank(x)
  {
    hide ValueOf, SymReads, WellFormedUsers, Covered, Wide, OnlyAt, Ranked;
    if x in cfg.syms {
      forall m | m in Wide(cfg, x) ensures AgreeOn(V, W, SymReads(cfg, m)) {
        WideInside(cfg, rank, x, m);
        forall t | t in SymReads(cfg, m) ensures V(t) == W(t) {
          ReadsOutside(cfg, r, x, m, t);
          Unaffected(cfg, u, w, s, r, V, W, rank, t);
        }
      }
      OtherChoice(cfg, s, x, r);
      SameElsewhere(cfg, u, w, s, x);
      ValueLocal(cfg, u, w, x, V, W);
    }
  }

  lemma SameElsewhere(cfg: Config, u: Users, w: Users, s: Symbol, x: Symbol)
    requires OnlyAt(cfg, u, w, s) && x != s
    requires cfg.sym(x).choice.Some? ==> cfg.sym(s).choice != cfg.sym(x).choice
    ensures SameSymbol(u, w, x) && (cfg.sym(x).choice.Some? ==> SameChoice(u, w, cfg.sym(x).choice.value))
  {
  }

  lemma ReadsOutside(cfg: Config, r: set<Symbol>, x: Symbol, m: Symbol, t: Symbol)
    requires WellFormedConfig(cfg) && Sheltered(cfg, r) && x in cfg.syms && x !in r
    requires m in Wide(cfg, x) && t in SymReads(cfg, m)
    ensures t !in r
  {
    hide SymReads, Targets;
    SelfInGroup(cfg, x);
    if m in Group(cfg, x) {
      GroupInside(cfg, x, m);
      assert m in Readers(cfg, t);
    } else {
      assert t in r ==> MembersIn(cfg, cfg.sym(x).choice.value, r);
    }
  }

  lemma OtherChoice(cfg: Config, s: Symbol, x: Symbol, r: set<Symbol>)
    requires WellFormedConfig(cfg) && s in cfg.syms && s in r && Closed(cfg, r) && x !in r && x in cfg.syms
    ensures x != s && (cfg.sym(x).choice.Some? ==> cfg.sym(s).choice != cfg.sym(x).choice)
  {
    SelfInGroup(cfg, x);
    assert Group(cfg, s) <= r;
  }

  /* ----- the caches ----- */

  /** `cached_val`, `cached_visibility` and `cached_selection`; a key that is missing is None. */
  datatype Caches = Caches(val: map<Symbol, string>, vis: map<Symbol, Tristate>,
                           choiceVis: map<nat, Tristate>, sel: map<nat, Option<Symbol>>)

  ghost predicate HasMembers(cfg: Config, c: nat) {
    c in cfg.choices && cfg.choice(c).members != []
  }

  /** What may be cached wrongly: everything about the symbols behind choices that are not orderly,
      and the visibility of special symbols that depended on a change. */
  datatype Doubts = Doubts(tainted: set<Symbol>, stale: set<Symbol>)

  /** A choice with members, none of which is in doubt. */
  ghost predicate Clean(cfg: Config, tainted: set<Symbol>, c: nat) {
    HasMembers(cfg, c) && forall m :: m in cfg.choice(c).members ==> m !in tainted
  }

  /** Every cached value, visibility and selection of a symbol or of a choice with members that is
      not in doubt is the one that `V` gives; special symbols are always cached. */
  ghost predicate Coherent(cfg: Config, users: Users, V: Valuation, k: Caches, d: Doubts) {
    && CoherentVals(cfg, V, k, d)
    && (forall s :: s in k.vis ==>
          s in cfg.syms && (s !in d.tainted && s !in d.stale ==> k.vis[s] == SymVis(cfg, s, EnvOf(V))))
    && (forall c :: c in k.choiceVis && Clean(cfg, d.tainted, c) ==> k.choiceVis[c] == ChoiceVis(cfg, c, EnvOf(V)))
    && (forall c :: c in k.sel && Clean(cfg, d.tainted, c) ==> k.sel[c] == SelectionOf(cfg, users, c, EnvOf(V)))
    && (forall s :: s in d.stale ==> cfg.sym(s).special.Some?)
  }

  ghost predicate CoherentVals(cfg: Config, V: Valuation, k: Caches, d: Doubts) {
    && (forall s :: s in k.val ==>
          s in cfg.syms && (s !in d.tainted || cfg.sym(s).special.Some? ==> k.val[s] == V(s)))
    && (forall s :: s in cfg.syms && cfg.sym(s).special.Some? ==> s in k.val)
  }

  ghost predicate Sound(cfg: Config, rank: Rank, users: Users) {
    WellFormedConfig(cfg) && Ranked(cfg, rank) && WellFormedUsers(cfg, users)
  }

  ghost predicate Ready(cfg: Config, rank: Rank, users: Users, V: Valuation, k: Caches, d: Doubts) {
    Sound(cfg, rank, users) && Solves(cfg, users, V) && Coherent(cfg, users, V, k, d) && Doubtful(cfg, d.tainted)
  }

  /** Where a computation stands: the rank it is at, and whether nothing that it asks for is in
      doubt. */
  datatype Level = Level(n: nat, sure: bool)

  /** The symbols have smaller ranks, so that their values may be asked for. */
  ghost predicate Below(cfg: Config, rank: Rank, tainted: set<Symbol>, at: Level, ss: set<Symbol>) {
    forall s :: s in ss ==> s in cfg.syms && rank(s) < at.n && (at.sure ==> s !in tainted)
  }

  function LevelOf(rank: Rank, tainted: set<Symbol>, s: Symbol): Level {
    Level(rank(s), s !in tainted)
  }

  /** A choice at the level of its members. */
  ghost predicate ChoiceAt(cfg: Config, rank: Rank, tainted: set<Symbol>, at: Level, c: nat) {
    && HasMembers(cfg, c) && Below(cfg, rank, tainted, at, ChoiceSyms(cfg, c))
    && (forall m :: m in cfg.choice(c).members ==> rank(m) == at.n && m in cfg.syms)
    && (at.sure <==> Clean(cfg, tainted, c))
  }

  lemma SymbolBelow(cfg: Config, rank: Rank, users: Users, tainted: set<Symbol>, s: Symbol)
    requires Sound(cfg, rank, users) && s in cfg.syms && Doubtful(cfg, tainted)
    ensures Below(cfg, rank, tainted, LevelOf(rank, tainted, s), SymReads(cfg, s))
    ensures cfg.sym(s).choice.Some? ==>
              ChoiceAt(cfg, rank, tainted, LevelOf(rank, tainted, s), cfg.sym(s).choice.value)
  {
    hide SymReads, Orderly;
    forall t | t in SymReads(cfg, s) ensures t in cfg.syms && rank(t) < rank(s) && (s !in tainted ==> t !in tainted) {
      assert s in Readers(cfg, t);
    }
    if cfg.sym(s).choice.Some? {
      MembersRanked(cfg, rank, s);
      MembersAlike(cfg, tainted, s);
      ChoiceReads(cfg, s);
    }
  }

  lemma MembersRanked(cfg: Config, rank: Rank, s: Symbol)
    requires WellFormedConfig(cfg) && Ranked(cfg, rank) && s in cfg.syms && cfg.sym(s).choice.Some?
    ensures HasMembers(cfg, cfg.sym(s).choice.value)
    ensures forall m :: m in cfg.choice(cfg.sym(s).choice.value).members ==> rank(m) == rank(s) && m in cfg.syms
  {
    hide SymReads, Targets, Wide;
    forall m | m in cfg.choice(cfg.sym(s).choice.value).members ensures rank(m) == rank(s) && m in cfg.syms {
      assert m in Group(cfg, s);
    }
  }

  /** The members of a choice are in doubt together. */
  lemma MembersAlike(cfg: Config, tainted: set<Symbol>, s: Symbol)
    requires WellFormedConfig(cfg) && s in cfg.syms && cfg.sym(s).choice.Some? && Closed(cfg, tainted)
    ensures s !in tainted <==> Clean(cfg, tainted, cfg.sym(s).choice.value)
  {
    hide SymReads, Targets;
    SelfInGroup(cfg, s);
    forall m | m in cfg.choice(cfg.sym(s).choice.value).members ensures m in tainted <==> s in tainted {
      assert m in Group(cfg, s);
      GroupInside(cfg, s, m);
    }
  }

  lemma ChoiceReads(cfg: Config, s: Symbol)
    ensures cfg.sym(s).choice.Some? ==> ChoiceSyms(cfg, cfg.sym(s).choice.value) <= SymReads(cfg, s)
    ensures PromptSyms(cfg.sym(s).prompts) <= SymReads(cfg, s)
    ensures DefaultSyms(cfg.sym(s).defaults) <= SymReads(cfg, s)
    ensures RangeSyms(cfg.sym(s).ranges) <= SymReads(cfg, s)
    ensures ExprSyms(cfg.sym(s).revDep) <= SymReads(cfg, s)
  {
  }

  lemma BelowPart(cfg: Config, rank: Rank, tainted: set<Symbol>, at: Level, ss: set<Symbol>, part: set<Symbol>)
    requires Below(cfg, rank, tainted, at, ss) && part <= ss
    ensures Below(cfg, rank, tainted, at, part)
  {
  }

  lemma CachedVal(cfg: Config, rank: Rank, users: Users, V: Valuation, k: Caches, d: Doubts, s: Symbol)
    requires Ready(cfg, rank, users, V, k, d) && s in cfg.syms
    ensures s in k.val && s !in d.tainted ==> k.val[s] == V(s)
    ensures s !in k.val ==> cfg.sym(s).special.None? && s !in d.stale
    ensures V(s) == ValueOf(cfg, users, s, EnvOf(V))
    ensures s in k.vis && s !in d.tainted && s !in d.stale ==> k.vis[s] == SymVis(cfg, s, EnvOf(V))
  {
    hide ValueOf, Doubtful;
  }

  lemma StoreVal(cfg: Config, rank: Rank, users: Users, V: Valuation, k: Caches, d: Doubts, s: Symbol, v: string)
    requires Ready(cfg, rank, users, V, k, d) && s in cfg.syms
    requires s !in d.tainted || cfg.sym(s).special.Some? ==> v == V(s)
    ensures Ready(cfg, rank, users, V, k.(val := k.val[s := v]), d)
  {
    hide Solves, Doubtful, Sound, SymVis, ChoiceVis, SelectionOf, Clean;
  }

  lemma StoreVis(cfg: Config, rank: Rank, users: Users, V: Valuation, k: Caches, d: Doubts, s: Symbol, v: Tristate)
    requires Ready(cfg, rank, users, V, k, d) && s in cfg.syms
    requires s !in d.tainted ==> v == SymVis(cfg, s, EnvOf(V))
    ensures Ready(cfg, rank, users, V, k.(vis := k.vis[s := v]), d)
  {
    hide Solves, SymVis, Doubtful, Sound, ChoiceVis, SelectionOf, Clean, CoherentVals;
    assert CoherentVals(cfg, V, k.(vis := k.vis[s := v]), d) by {
      SameVals(cfg, V, k, k.(vis := k.vis[s := v]), d);
    }
  }

  lemma SameVals(cfg: Config, V: Valuation, k: Caches, k': Caches, d: Doubts)
    requires CoherentVals(cfg, V, k, d) && k'.val == k.val
    ensures CoherentVals(cfg, V, k', d)
  {
  }

  lemma CachedChoice(cfg: Config, rank: Rank, users: Users, V: Valuation, k: Caches, d: Doubts, c: nat)
    requires Ready(cfg, rank, users, V, k, d) && Clean(cfg, d.tainted, c)
    ensures c in k.choiceVis ==> k.choiceVis[c] == ChoiceVis(cfg, c, EnvOf(V))
    ensures c in k.sel ==> k.sel[c] == SelectionOf(cfg, users, c, EnvOf(V))
  {
    hide Solves, Sound, ChoiceVis, SelectionOf, SymVis, EnvOf, Clean, Doubtful;
  }

  lemma StoreChoiceVis(cfg: Config, rank: Rank, users: Users, V: Valuation, k: Caches, d: Doubts, c: nat, v: Tristate)
    requires Ready(cfg, rank, users, V, k, d)
    requires Clean(cfg, d.tainted, c) ==> v == ChoiceVis(cfg, c, EnvOf(V))
    ensures Ready(cfg, rank, users, V, k.(choiceVis := k.choiceVis[c := v]), d)
  {
    hide Solves, Sound, ChoiceVis, SelectionOf, SymVis, EnvOf, Clean, Doubtful, CoherentVals;
    SameVals(cfg, V, k, k.(choiceVis := k.choiceVis[c := v]), d);
  }

  lemma StoreSelection(cfg: Config, rank: Rank, users: Users, V: Valuation, k: Caches, d: Doubts, c: nat,
                       v: Option<Symbol>)
    requires Ready(cfg, rank, users, V, k, d)
    requires Clean(cfg, d.tainted, c) ==> v == SelectionOf(cfg, users, c, EnvOf(V))
    ensures Ready(cfg, rank, users, V, k.(sel := k.sel[c := v]), d)
  {
    hide Solves, Sound, ChoiceVis, SelectionOf, SymVis, EnvOf, Clean, Doubtful, CoherentVals;
    SameVals(cfg, V, k, k.(sel := k.sel[c := v]), d);
  }

  /* ----- changes of user values ----- */

  /** The test of `_set_user_value_no_invalidate` whether a value suits the type of a symbol. */
  predicate ValidFor(cfg: Config, s: Symbol, v: string) {
    if s.IsBool() then v == "y" || v == "n"
    else if s.IsTristate() then v == "y" || v == "m" || v == "n"
    else if IsText(s) then true
    else IsNumber(s) && cfg.lib.isBase(v, IsHex(s))
  }

  function Assigned(cfg: Config, u: Users, s: Symbol, v: string): Users {
    var d := cfg.sym(s);
    if d.special.Some? || !d.defined || !ValidFor(cfg, s, v) then u
    else
      var val := u.val[s := v];
      if d.choice.Some? && s.IsTri() && v == "y" then
        Users(val, u.pick[d.choice.value := s], u.mode[d.choice.value := YES])
      else if d.choice.Some? && s.IsTri() && v == "m" then
        Users(val, u.pick - {d.choice.value}, u.mode[d.choice.value := MOD])
      else Users(val, u.pick, u.mode)
  }

  function Unassigned(cfg: Config, u: Users, s: Symbol): Users {
    var c := cfg.sym(s).choice;
    if c.Some? then Users(u.val - {s}, u.pick - {c.value}, u.mode - {c.value})
    else Users(u.val - {s}, u.pick, u.mode)
  }

  lemma AssignedOnlyAt(cfg: Config, u: Users, s: Symbol, v: string)
    requires WellFormedConfig(cfg) && s in cfg.syms && WellFormedUsers(cfg, u)
    ensures OnlyAt(cfg, u, Assigned(cfg, u, s, v), s) && WellFormedUsers(cfg, Assigned(cfg, u, s, v))
  {
    hide SymReads, DefaultsInside, ValidFor;
  }

  lemma UnassignedOnlyAt(cfg: Config, u: Users, s: Symbol)
    requires WellFormedUsers(cfg, u)
    ensures OnlyAt(cfg, u, Unassigned(cfg, u, s), s) && WellFormedUsers(cfg, Unassigned(cfg, u, s))
  {
  }

  /** What `load_config` assigns; symbols that do not exist are passed over. */
  function Loaded(cfg: Config, u: Users, assignments: seq<(Symbol, string)>): Users
    decreases |assignments|
  {
    if assignments == [] then u
    else
      var (s, v) := assignments[0];
      Loaded(cfg, if s in cfg.syms then Assigned(cfg, u, s, v) else u, assignments[1..])
  }

  /* ----- invalidation ----- */

  /** `Symbol._invalidate`. */
  function Invalidated(cfg: Config, k: Caches, s: Symbol): Caches {
    var d := cfg.sym(s);
    if d.special.Some? then k
    else if d.choice.Some? then
      Caches(k.val - {s}, k.vis - {s}, k.choiceVis - {d.choice.value}, k.sel - {d.choice.value})
    else Caches(k.val - {s}, k.vis - {s}, k.choiceVis, k.sel)
  }

  /** Nothing new is cached, and nothing about the symbols of `r`. */
  ghost predicate Dropped(cfg: Config, k: Caches, k': Caches, r: set<Symbol>) {
    DroppedSymbols(cfg, k, k', r) && DroppedChoices(cfg, k, k', r)
  }

  ghost predicate DroppedSymbols(cfg: Config, k: Caches, k': Caches, r: set<Symbol>) {
    DroppedFrom(cfg, k.val, k'.val, r) && DroppedFrom(cfg, k.vis, k'.vis, r)
  }

  ghost predicate DroppedFrom<T>(cfg: Config, m: map<Symbol, T>, m': map<Symbol, T>, r: set<Symbol>) {
    && (forall s :: s in m' ==> s in m && m'[s] == m[s] && (s in r ==> cfg.sym(s).special.Some?))
    && (forall s :: s in m && cfg.sym(s).special.Some? ==> s in m')
  }

  ghost predicate DroppedChoices(cfg: Config, k: Caches, k': Caches, r: set<Symbol>) {
    && (forall c :: c in k'.choiceVis ==> c in k.choiceVis && k'.choiceVis[c] == k.choiceVis[c] && NoneIn(cfg, c, r))
    && (forall c :: c in k'.sel ==> c in k.sel && k'.sel[c] == k.sel[c] && NoneIn(cfg, c, r))
  }

  ghost predicate NoneIn(cfg: Config, c: nat, r: set<Symbol>) {
    forall m :: m in r && cfg.sym(m).special.None? ==> cfg.sym(m).choice != Some(c)
  }

  lemma DroppedSame(cfg: Config, k: Caches)
    ensures Dropped(cfg, k, k, {})
  {
  }

  lemma DroppedMore(cfg: Config, k: Caches, k': Caches, r: set<Symbol>, s: Symbol)
    requires Dropped(cfg, k, k', r)
    ensures Dropped(cfg, k, Invalidated(cfg, k', s), r + {s})
  {
    hide DroppedSymbols, DroppedChoices, Invalidated;
    MoreSymbols(cfg, k, k', r, s);
    MoreChoices(cfg, k, k', r, s);
  }

  lemma MoreSymbols(cfg: Config, k: Caches, k': Caches, r: set<Symbol>, s: Symbol)
    requires DroppedSymbols(cfg, k, k', r)
    ensures DroppedSymbols(cfg, k, Invalidated(cfg, k', s), r + {s})
  {
    hide DroppedFrom;
    MoreFrom(cfg, k.val, k'.val, r, s);
    MoreFrom(cfg, k.vis, k'.vis, r, s);
  }

  lemma MoreFrom<T>(cfg: Config, m: map<Symbol, T>, m': map<Symbol, T>, r: set<Symbol>, s: Symbol)
    requires DroppedFrom(cfg, m, m', r)
    ensures DroppedFrom(cfg, m, if cfg.sym(s).special.Some? then m' else m' - {s}, r + {s})
  {
  }

  lemma MoreChoices(cfg: Config, k: Caches, k': Caches, r: set<Symbol>, s: Symbol)
    requires DroppedChoices(cfg, k, k', r)
    ensures DroppedChoices(cfg, k, Invalidated(cfg, k', s), r + {s})
  {
    hide NoneIn;
    forall c: nat | NoneIn(cfg, c, r) && (cfg.sym(s).special.Some? || cfg.sym(s).choice != Some(c))
      ensures NoneIn(cfg, c, r + {s})
    {
      NoneInMore(cfg, c, r, s);
    }
  }

  lemma NoneInMore(cfg: Config, c: nat, r: set<Symbol>, s: Symbol)
    requires NoneIn(cfg, c, r) && (cfg.sym(s).special.Some? || cfg.sym(s).choice != Some(c))
    ensures NoneIn(cfg, c, r + {s})
  {
  }

  /** The visibilities of special symbols that stay cached although they may have changed. */
  ghost function Aged(k: Caches, r: set<Symbol>): set<Symbol> {
    set x | x in k.vis && x in r
  }

  /** What stays cached after a change of the user value of `s` is still right, except for the
      visibilities of special symbols behind `s`. */
  lemma StillCoherent(cfg: Config, u: Users, w: Users, s: Symbol, r: set<Symbol>, V: Valuation, W: Valuation,
                      rank: Rank, k: Caches, k': Caches, d: Doubts)
    requires Ready(cfg, rank, u, V, k, d) && Sound(cfg, rank, w) && Solves(cfg, w, W) && OnlyAt(cfg, u, w, s)
    requires s in cfg.syms && s in r && Closed(cfg, r) && Dropped(cfg, k, k', r)
    ensures Coherent(cfg, w, W, k', d.(stale := d.stale + Aged(k', r)))
  {
    hide Solves, ValueOf, SymVis, ChoiceVis, SelectionOf, SymReads, OnlyAt, Ranked, Sheltered, Closed, Orderly, Clean;
    var q := r + d.tainted;
    ShelteredMore(cfg, d.tainted, r);
    forall x | x in k'.val && (x !in d.tainted || cfg.sym(x).special.Some?) ensures k'.val[x] == W(x) {
      if cfg.sym(x).special.Some? {
        SpecialValue(cfg, u, V, x);
        SpecialValue(cfg, w, W, x);
      } else {
        Unaffected(cfg, u, w, s, q, V, W, rank, x);
      }
    }
    forall x | x in k'.vis && x !in d.tainted && x !in d.stale && x !in Aged(k', r)
      ensures k'.vis[x] == SymVis(cfg, x, EnvOf(W))
    {
      Unaffected(cfg, u, w, s, q, V, W, rank, x);
      SelfInGroup(cfg, x);
      SymVisLocal(cfg, x, V, W);
    }
    forall c | Clean(cfg, d.tainted, c) && NoneIn(cfg, c, r)
      ensures ChoiceVis(cfg, c, EnvOf(V)) == ChoiceVis(cfg, c, EnvOf(W))
      ensures SelectionOf(cfg, u, c, EnvOf(V)) == SelectionOf(cfg, w, c, EnvOf(W))
    {
      ChoiceKept(cfg, u, w, s, r, V, W, rank, c, d.tainted);
    }
  }

  lemma SpecialValue(cfg: Config, u: Users, V: Valuation, s: Symbol)
    requires Solves(cfg, u, V) && s in cfg.syms && cfg.sym(s).special.Some?
    ensures V(s) == cfg.sym(s).special.value
  {
  }

  lemma ChoiceKept(cfg: Config, u: Users, w: Users, s: Symbol, r: set<Symbol>, V: Valuation, W: Valuation, rank: Rank,
                   c: nat, tainted: set<Symbol>)
    requires Sound(cfg, rank, u) && Sound(cfg, rank, w) && Solves(cfg, u, V) && Solves(cfg, w, W)
             && OnlyAt(cfg, u, w, s)
    requires s in cfg.syms && s in r && Closed(cfg, r) && Doubtful(cfg, tainted)
    requires Clean(cfg, tainted, c) && NoneIn(cfg, c, r)
    ensures ChoiceVis(cfg, c, EnvOf(V)) == ChoiceVis(cfg, c, EnvOf(W))
    ensures SelectionOf(cfg, u, c, EnvOf(V)) == SelectionOf(cfg, w, c, EnvOf(W))
  {
    hide Solves, ValueOf, SymVis, ChoiceVis, SelectionOf, SymReads, Ranked, SameSymbol, SameChoice, Targets, Closed;
    hide Sheltered, Orderly;
    ShelteredMore(cfg, tainted, r);
    CleanOrderly(cfg, tainted, c);
    var m := cfg.choice(c).members[0];
    assert m in cfg.choice(c).members;
    MemberOutside(cfg, c, m, r, tainted);
    Unaffected(cfg, u, w, s, r + tainted, V, W, rank, m);
    assert forall x :: x in cfg.choice(c).members || x in Targets(cfg, c) ==> x in Wide(cfg, m);
    NotItsChoice(cfg, c, s, r, tainted);
    SelectionLocal(cfg, u, w, c, V, W);
  }

  lemma CleanOrderly(cfg: Config, tainted: set<Symbol>, c: nat)
    requires WellFormedConfig(cfg) && Doubtful(cfg, tainted) && Clean(cfg, tainted, c)
    ensures Orderly(cfg, c) && forall t :: t in Targets(cfg, c) ==> t !in tainted
  {
    hide Orderly, SymReads, Targets, Sheltered;
    assert cfg.choice(c).members[0] in cfg.choice(c).members;
  }

  lemma MemberOutside(cfg: Config, c: nat, m: Symbol, r: set<Symbol>, tainted: set<Symbol>)
    requires WellFormedConfig(cfg) && Clean(cfg, tainted, c) && Orderly(cfg, c) && NoneIn(cfg, c, r)
    requires m in cfg.choice(c).members
    ensures m !in r && m !in tainted && m in cfg.syms
  {
  }

  lemma NotItsChoice(cfg: Config, c: nat, s: Symbol, r: set<Symbol>, tainted: set<Symbol>)
    requires WellFormedConfig(cfg) && s in cfg.syms && s in r && Clean(cfg, tainted, c) && Orderly(cfg, c)
    requires NoneIn(cfg, c, r)
    ensures cfg.sym(s).choice != Some(c)
  {
  }

  /** Once everything is dropped, the users may be anything. */
  lemma NothingCached(cfg: Config, u: Users, w: Users, V: Valuation, W: Valuation, k: Caches, k': Caches, d: Doubts)
    requires WellFormedConfig(cfg) && Coherent(cfg, u, V, k, d) && Solves(cfg, u, V) && Solves(cfg, w, W)
    requires Dropped(cfg, k, k', cfg.syms) && Doubtful(cfg, d.tainted)
    ensures Coherent(cfg, w, W, k', d.(stale := d.stale + Aged(k', cfg.syms)))
  {
    hide ValueOf, SymVis, ChoiceVis, SelectionOf, SymReads, Doubtful, Clean;
    forall x | x in k'.val ensures k'.val[x] == W(x) {
      SpecialValue(cfg, u, V, x);
      SpecialValue(cfg, w, W, x);
    }
    forall c | c in k'.choiceVis || c in k'.sel ensures !Clean(cfg, d.tainted, c) {
      MembersDropped(cfg, d.tainted, c);
    }
  }

  lemma MembersDropped(cfg: Config, tainted: set<Symbol>, c: nat)
    requires WellFormedConfig(cfg) && NoneIn(cfg, c, cfg.syms) && Doubtful(cfg, tainted)
    ensures !Clean(cfg, tainted, c)
  {
    hide Doubtful, Orderly;
    if Clean(cfg, tainted, c) {
      CleanOrderly(cfg, tainted, c);
      assert cfg.choice(c).members[0] in cfg.choice(c).members;
      MemberOutside(cfg, c, cfg.choice(c).members[0], cfg.syms, tainted);
    }
  }

  /* ----- dependents ----- */

  /** `_get_dependent` may be cached as `r`: with `s` it is closed, and nothing in it could be
      left out. */
  ghost predicate Covers(cfg: Config, s: Symbol, r: set<Symbol>) {
    && r <= cfg.syms && Closed(cfg, r + {s})
    && forall t: set<Symbol> :: Closed(cfg, t) && s in t ==> r <= t
  }

  ghost predicate DepsRight(cfg: Config, dep: map<Symbol, set<Symbol>>, cachedDeps: map<Symbol, set<Symbol>>) {
    && (forall s :: s in cfg.syms ==> s in dep && dep[s] == Readers(cfg, s))
    && (forall s :: s in cachedDeps ==> s in cfg.syms && Covers(cfg, s, cachedDeps[s]))
  }

  lemma DepsCached(cfg: Config, dep: map<Symbol, set<Symbol>>, cachedDeps: map<Symbol, set<Symbol>>, s: Symbol)
    requires DepsRight(cfg, dep, cachedDeps)
    ensures s in cachedDeps ==> Covers(cfg, s, cachedDeps[s])
  {
  }

  lemma DepsStored(cfg: Config, dep: map<Symbol, set<Symbol>>, cachedDeps: map<Symbol, set<Symbol>>, s: Symbol,
                   r: set<Symbol>)
    requires DepsRight(cfg, dep, cachedDeps) && s in cfg.syms && Covers(cfg, s, r)
    ensures DepsRight(cfg, dep, cachedDeps[s := r])
  {
    hide Covers;
  }

  /** The readers of `s` with all of their dependents. */
  ghost predicate Behind(cfg: Config, s: Symbol, todo: set<Symbol>, a: set<Symbol>) {
    && a <= cfg.syms && Closed(cfg, a) && Readers(cfg, s) <= a + todo
    && forall t: set<Symbol> :: Closed(cfg, t) && s in t ==> a <= t
  }

  lemma BehindStart(cfg: Config, s: Symbol)
    ensures Behind(cfg, s, Readers(cfg, s), {})
  {
  }

  lemma BehindMore(cfg: Config, s: Symbol, todo: set<Symbol>, a: set<Symbol>, t: Symbol, r: set<Symbol>)
    requires Behind(cfg, s, todo, a) && t in Readers(cfg, s) && t in cfg.syms && Covers(cfg, t, r)
    ensures Behind(cfg, s, todo - {t}, a + ({t} + r))
  {
    hide Readers, Group;
    assert Closed(cfg, r + {t});
    assert {t} + r == r + {t};
    forall u: set<Symbol> | Closed(cfg, u) && s in u ensures {t} + r <= u {
      assert Readers(cfg, s) <= u;
    }
  }

  /** The other members of a choice, each with what is behind it. */
  ghost predicate Siblings(cfg: Config, s: Symbol, ms: seq<Symbol>, r: set<Symbol>) {
    && r <= cfg.syms
    && (forall x :: x in r ==> x in Group(cfg, s) || (Readers(cfg, x) <= r && Group(cfg, x) <= r))
    && (forall m :: m in ms ==> (m in r || m == s) && Readers(cfg, m) <= r)
    && Readers(cfg, s) <= r
    && forall t: set<Symbol> :: Closed(cfg, t) && s in t ==> r <= t
  }

  lemma SiblingsStart(cfg: Config, s: Symbol, a: set<Symbol>)
    requires Behind(cfg, s, {}, a)
    ensures Siblings(cfg, s, [], {} + a)
  {
    hide Readers, Group;
    assert {} + a == a;
  }

  lemma SiblingsMore(cfg: Config, s: Symbol, ms: seq<Symbol>, r: set<Symbol>, m: Symbol, a: set<Symbol>)
    requires Siblings(cfg, s, ms, r) && Behind(cfg, m, {}, a) && m in Group(cfg, s) && m in cfg.syms
    ensures Siblings(cfg, s, ms + [m], r + {m} + a)
  {
    hide Readers, Group;
    forall t: set<Symbol> | Closed(cfg, t) && s in t ensures a <= t && m in t {
      assert Group(cfg, s) <= t;
    }
  }

  lemma SiblingsSelf(cfg: Config, s: Symbol, ms: seq<Symbol>, r: set<Symbol>)
    requires Siblings(cfg, s, ms, r)
    ensures Siblings(cfg, s, ms + [s], r)
  {
    hide Readers, Group;
  }

  lemma SiblingsCover(cfg: Config, s: Symbol, ms: seq<Symbol>, r: set<Symbol>)
    requires WellFormedConfig(cfg) && s in cfg.syms && Siblings(cfg, s, ms, r)
    requires forall m :: m in Group(cfg, s) ==> m in ms || m == s
    ensures Covers(cfg, s, r)
  {
    hide Readers, Group, SymReads, Targets;
    forall x | x in r + {s} ensures Readers(cfg, x) <= r + {s} && Group(cfg, x) <= r + {s} {
      if x in Group(cfg, s) || x == s {
        SelfInGroup(cfg, s);
        GroupInside(cfg, s, x);
      }
    }
  }
}
