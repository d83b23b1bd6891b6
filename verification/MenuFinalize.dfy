/** `menu_finalize`: propagation of dependencies, automatic submenus and the lifting of the
    entries below entries without a prompt. */
module MenuFinalization {
  import opened Exprs
  import opened ExprTransformation
  import opened MenuDependencies
  import opened MenuForest
  import opened MenuLists

  /* ----- dependencies as values ----- */

  datatype Info = Info(dep: Option<Expr>, visible: Option<Expr>, conds: seq<Option<Expr>>)

  type Infos = map<Menu, Info>

  ghost function InfosOf(ms: set<Menu>): Infos
    reads ms`dep, ms`visible, ms`conds
  {
    map m | m in ms :: Info(m.dep, m.visible, m.conds)
  }

  ghost function InfoAt(d: Infos, m: Menu): Info {
    if m in d then d[m] else Info(None, None, [])
  }

  /** The dependency that an entry hands down: a choice itself, else the condition of the
      prompt, else the entry's own dependency. */
  ghost function OuterOf(p: Menu, i: Info): Option<Expr> {
    if p.sym.Some? && p.isChoice then Some(Leaf(p.sym.value))
    else if p.hasPrompt then i.visible
    else i.dep
  }

  /** What decides whether an entry moves, and where to. */
  ghost function DepOf(m: Menu, i: Info): Option<Expr> {
    if m.hasPrompt then i.visible else i.dep
  }

  ghost function BaseOf(p: Menu, i: Info): Option<Expr> {
    if p.hasPrompt then i.visible else None
  }

  /** An entry has taken over the dependency `outer`, and its properties have taken over the
      dependency of the entry. */
  ghost predicate Step(outer: Option<Expr>, m: Menu, i: Info, i': Info) {
    && Conjoined(outer, i.dep, i'.dep)
    && (if m.hasPrompt then Conjoined(i'.dep, i.visible, i'.visible) else i'.visible == i.visible)
    && |i'.conds| == |i.conds|
    && forall j :: 0 <= j < |i.conds| ==> Conjoined(i'.dep, i.conds[j], i'.conds[j])
  }

  ghost predicate TopsStep(outer: Option<Expr>, f: Forest, d: Infos, d': Infos) {
    f.Cons? ==> Step(outer, f.head, InfoAt(d, f.head), InfoAt(d', f.head)) && TopsStep(outer, f.rest, d, d')
  }

  /** Below `p`, every entry of the original tree has taken over what the entry above it hands
      down in the end. */
  ghost predicate Inherited(p: Menu, f: Forest, d: Infos, d': Infos) {
    f.Cons? ==>
      && Step(OuterOf(p, InfoAt(d', p)), f.head, InfoAt(d, f.head), InfoAt(d', f.head))
      && Inherited(f.head, f.kids, d, d')
      && Inherited(p, f.rest, d, d')
  }

  ghost predicate Settled(t: Forest, d: Infos, d': Infos) {
    t.Cons? ==> Inherited(t.head, t.kids, d, d') && Settled(t.rest, d, d')
  }

  /** The entries strictly below the outermost ones. */
  function Under(t: Forest): seq<Menu> {
    if t.Nil? then [] else Preorder(t.kids) + Under(t.rest)
  }

  /** The outermost entries. */
  function Tops(f: Forest): seq<Menu> {
    if f.Nil? then [] else [f.head] + Tops(f.rest)
  }

  ghost predicate Elsewhere(d: Infos, d': Infos, s: seq<Menu>) {
    d'.Keys == d.Keys && forall x :: x in d && x !in s ==> d'[x] == d[x]
  }

  /* ----- propagation ----- */

  /** The body of the first loop of `menu_finalize`. */
  method Propagate(m: Menu, outer: Option<Expr>, ghost ms: set<Menu>)
    requires m in ms
    modifies m`dep, m`visible, m`conds
    ensures Elsewhere(old(InfosOf(ms)), InfosOf(ms), [m])
    ensures Step(outer, m, InfoAt(old(InfosOf(ms)), m), InfoAt(InfosOf(ms), m))
  {
    hide Conjoined;
    m.dep := Inherit(outer, m.dep, false);
    var asBool := m.sym.Some? && !m.sym.value.IsTristate();
    if m.hasPrompt {
      m.visible := Inherit(m.dep, m.visible, asBool);
    }
    ghost var before := m.conds;
    var i := 0;
    while i < |m.conds|
      invariant 0 <= i <= |m.conds| == |before|
      invariant forall j :: 0 <= j < i ==> Conjoined(m.dep, before[j], m.conds[j])
      invariant m.conds[i..] == before[i..]
      modifies m`conds
    {
      var c := Inherit(m.dep, m.conds[i], asBool);
      assert m.conds[i] == before[i];
      m.conds := m.conds[i := c];
      i := i + 1;
    }
  }

  /** The first loop of `menu_finalize`. */
  method PropagateAll(first: Menu?, outer: Option<Expr>, ghost f: Forest, ghost up: Menu, ghost ms: set<Menu>)
    requires Stands(LinksOf(ms), first, f, up, null) && NoDup(Preorder(f))
    modifies ms`dep, ms`visible, ms`conds
    ensures Elsewhere(old(InfosOf(ms)), InfosOf(ms), Tops(f))
    ensures TopsStep(outer, f, old(InfosOf(ms)), InfosOf(ms))
    decreases f
  {
    hide Stands, NoDup, Step, Preorder;
    StandsNull(LinksOf(ms), first, f, up);
    if first != null {
      StandsHead(LinksOf(ms), first, f, up);
      ghost var d := InfosOf(ms);
      Propagate(first, outer, ms);
      ghost var d1 := InfosOf(ms);
      PropagateAll(first.next, outer, f.rest, up, ms);
      TopsStepHead(outer, f, d, d1, InfosOf(ms));
    } else {
      ElsewhereSame(InfosOf(ms), Tops(f));
    }
  }

  lemma ElsewhereSame(d: Infos, s: seq<Menu>)
    ensures Elsewhere(d, d, s)
  {
  }

  lemma StandsHead(h: Links, n: Menu, f: Forest, up: Menu)
    requires Stands(h, n, f, up, null) && NoDup(Preorder(f))
    ensures f.Cons? && f.head == n && n in h && Stands(h, h[n].next, f.rest, up, null)
    ensures NoDup(Preorder(f.rest))
  {
    NoDupParts(f);
  }

  lemma {:induction false} TopsIn(f: Forest)
    ensures forall x :: x in Tops(f) ==> x in Preorder(f)
    ensures forall x :: x in Under(f) ==> x in Preorder(f)
  {
    if f.Cons? {
      TopsIn(f.rest);
    }
  }

  lemma {:induction false} TopsStepFrame(outer: Option<Expr>, f: Forest, d: Infos, d': Infos, e: Infos, e': Infos)
    requires TopsStep(outer, f, d, d')
    requires forall x :: x in Tops(f) ==> InfoAt(e, x) == InfoAt(d, x) && InfoAt(e', x) == InfoAt(d', x)
    ensures TopsStep(outer, f, e, e')
  {
    hide Step;
    if f.Cons? {
      assert f.head in Tops(f);
      TopsStepFrame(outer, f.rest, d, d', e, e');
    }
  }

  lemma TopsStepHead(outer: Option<Expr>, f: Forest, d: Infos, d1: Infos, d2: Infos)
    requires f.Cons? && NoDup(Preorder(f))
    requires Elsewhere(d, d1, [f.head]) && Step(outer, f.head, InfoAt(d, f.head), InfoAt(d1, f.head))
    requires Elsewhere(d1, d2, Tops(f.rest)) && TopsStep(outer, f.rest, d1, d2)
    ensures TopsStep(outer, f, d, d2) && Elsewhere(d, d2, Tops(f))
  {
    hide Step;
    NoDupParts(f);
    TopsIn(f.rest);
    assert f.head !in Tops(f.rest);
    TopsStepFrame(outer, f.rest, d1, d2, d, d2);
  }

  /* ----- what a call leaves behind ----- */

  datatype Move = Move(entry: Menu, under: Menu)

  /** The move is justified by the final dependencies. */
  ghost predicate MoveOk(d: Infos, mv: Move) {
    mv.under.sym.Some?
    && Justified(DepOf(mv.entry, InfoAt(d, mv.entry)), mv.under.sym.value, BaseOf(mv.under, InfoAt(d, mv.under)))
  }

  ghost predicate MovesOk(d: Infos, moves: seq<Move>, s: seq<Menu>) {
    forall mv :: mv in moves ==> mv.entry in s && mv.under in s && MoveOk(d, mv)
  }

  /** The entries of `t`, as they stood before, are done: each was finalized once, in preorder. */
  ghost predicate Swept(d: Infos, d': Infos, t: Forest, order: seq<Menu>, moves: seq<Move>) {
    && order == Preorder(t)
    && Settled(t, d, d') && Elsewhere(d, d', Under(t))
    && MovesOk(d', moves, Preorder(t))
  }

  lemma {:induction false} InheritedFrame(p: Menu, f: Forest, d: Infos, d': Infos, e: Infos, e': Infos)
    requires Inherited(p, f, d, d') && InfoAt(e', p) == InfoAt(d', p)
    requires forall x :: x in Preorder(f) ==> InfoAt(e, x) == InfoAt(d, x) && InfoAt(e', x) == InfoAt(d', x)
    ensures Inherited(p, f, e, e')
  {
    hide Step, InfoAt, OuterOf;
    if f.Cons? {
      assert f.head in Preorder(f);
      InheritedFrame(f.head, f.kids, d, d', e, e');
      InheritedFrame(p, f.rest, d, d', e, e');
    }
  }

  lemma {:induction false} SettledFrame(t: Forest, d: Infos, d': Infos, e: Infos, e': Infos)
    requires Settled(t, d, d')
    requires forall x :: x in Under(t) ==> InfoAt(e, x) == InfoAt(d, x)
    requires forall x :: x in Preorder(t) ==> InfoAt(e', x) == InfoAt(d', x)
    ensures Settled(t, e, e')
  {
    hide Step, InfoAt, OuterOf;
    if t.Cons? {
      assert t.head in Preorder(t);
      InheritedFrame(t.head, t.kids, d, d', e, e');
      SettledFrame(t.rest, d, d', e, e');
    }
  }

  lemma {:induction false} SettledAppend(t: Forest, u: Forest, d: Infos, d': Infos)
    requires Settled(t, d, d') && Settled(u, d, d')
    ensures Settled(Append(t, u), d, d')
  {
    if t.Cons? {
      SettledAppend(t.rest, u, d, d');
    }
  }

  lemma {:induction false} UnderAppend(t: Forest, u: Forest)
    ensures Under(Append(t, u)) == Under(t) + Under(u)
  {
    if t.Cons? {
      UnderAppend(t.rest, u);
    }
  }

  lemma MovesFrame(d: Infos, e: Infos, moves: seq<Move>, s: seq<Menu>)
    requires MovesOk(d, moves, s) && forall x :: x in s ==> InfoAt(e, x) == InfoAt(d, x)
    ensures MovesOk(e, moves, s)
  {
    hide InfoAt, Justified;
  }

  lemma ElsewhereAt(d: Infos, d': Infos, s: seq<Menu>, r: seq<Menu>)
    requires Elsewhere(d, d', s) && Apart(r, s)
    ensures forall x :: x in r ==> InfoAt(d', x) == InfoAt(d, x)
  {
  }

  lemma SweptTwice(d: Infos, d1: Infos, d2: Infos, t: Forest, u: Forest, o: seq<Menu>, o': seq<Menu>, mv: seq<Move>,
                   mv': seq<Move>)
    requires Swept(d, d1, t, o, mv) && Swept(d1, d2, u, o', mv') && NoDup(Preorder(t) + Preorder(u))
    ensures Swept(d, d2, Append(t, u), o + o', mv + mv')
  {
    hide InfoAt, Settled, MoveOk, NoDup;
    NoDupSplit(Preorder(t), Preorder(u));
    TopsIn(t);
    TopsIn(u);
    PreorderAppend(t, u);
    UnderAppend(t, u);
    ElsewhereAt(d1, d2, Under(u), Preorder(t));
    ElsewhereAt(d, d1, Under(t), Under(u));
    SettledFrame(t, d, d1, d, d2);
    SettledFrame(u, d1, d2, d, d2);
    SettledAppend(t, u, d, d2);
    MovesFrame(d1, d2, mv, Preorder(t));
  }

  /** Once the entries of a menu have taken over its dependency and are done themselves. */
  lemma {:induction false} InheritedAll(p: Menu, f: Forest, outer: Option<Expr>, d: Infos, d1: Infos, d2: Infos)
    requires TopsStep(outer, f, d, d1) && Settled(f, d1, d2) && outer == OuterOf(p, InfoAt(d2, p))
    requires NoDup(Preorder(f))
    requires forall x :: x in Under(f) ==> InfoAt(d1, x) == InfoAt(d, x)
    requires forall x :: x in Tops(f) ==> InfoAt(d2, x) == InfoAt(d1, x)
    ensures Inherited(p, f, d, d2)
  {
    hide Step, InfoAt, OuterOf;
    if f.Cons? {
      NoDupParts(f);
      assert f.head in Tops(f);
      InheritedFrame(f.head, f.kids, d1, d2, d, d2);
      InheritedAll(p, f.rest, outer, d, d1, d2);
    }
  }

  lemma {:induction false} TopsApart(f: Forest)
    requires NoDup(Preorder(f))
    ensures Apart(Tops(f), Under(f))
  {
    if f.Cons? {
      NoDupParts(f);
      TopsIn(f.rest);
      TopsApart(f.rest);
    }
  }

  lemma MenuSwept(p: Menu, f: Forest, outer: Option<Expr>, d: Infos, d1: Infos, d2: Infos, order: seq<Menu>,
                  moves: seq<Move>)
    requires NoDup([p] + Preorder(f)) && outer == OuterOf(p, InfoAt(d, p))
    requires TopsStep(outer, f, d, d1) && Elsewhere(d, d1, Tops(f)) && Swept(d1, d2, f, order, moves)
    ensures Swept(d, d2, Cons(p, f, Nil), [p] + order, moves)
  {
    hide InfoAt, Step, MoveOk, OuterOf, NoDup;
    NoDupSplit([p], Preorder(f));
    assert p in [p];
    TopsApart(f);
    TopsIn(f);
    ElsewhereAt(d, d1, Tops(f), Under(f));
    ElsewhereAt(d1, d2, Under(f), Tops(f));
    ElsewhereAt(d, d1, Tops(f), [p]);
    ElsewhereAt(d1, d2, Under(f), [p]);
    InheritedAll(p, f, outer, d, d1, d2);
    assert Preorder(f) + [] == Preorder(f);
    assert Preorder(Cons(p, f, Nil)) == [p] + Preorder(f);
    assert Under(Cons(p, f, Nil)) == Preorder(f);
    assert [p] + order == Preorder(Cons(p, f, Nil));
    assert Settled(Nil, d, d2);
    assert Settled(Cons(p, f, Nil), d, d2);
    assert Elsewhere(d, d2, Preorder(f));
    assert MovesOk(d2, moves, [p] + Preorder(f));
  }

  /* ----- menu_finalize ----- */

  /** The forest after the call, the part of the forest before it that is done, and what
      happened on the way. */
  datatype Outcome = Outcome(result: Forest, taken: Forest, order: seq<Menu>, moves: seq<Move>)

  /** The entry after the automatic submenu does not depend on its symbol. */
  ghost predicate Stays(d: Infos, sym: Symbol, left: Forest) {
    left.Cons? && DepOf(left.head, InfoAt(d, left.head)).Some? ==>
      !DependsSymbol(DepOf(left.head, InfoAt(d, left.head)).value, sym)
  }

  /** Every entry of `xs` was moved. */
  ghost predicate AllMoved(xs: seq<Menu>, moves: seq<Move>) {
    forall x :: x in xs ==> Moved(x, moves)
  }

  ghost predicate Moved(x: Menu, moves: seq<Move>) {
    exists mv :: mv in moves && mv.entry == x
  }

  /** What `menu_finalize` does to the first entry of `f`: the entries stay in their order, all
      links are right, dependencies are handed down, and every move is justified. An entry with
      a menu of its own, or without a symbol, takes in none of its successors. */
  ghost predicate Finalized(h: Links, d: Infos, h': Links, d': Infos, f: Forest, up: Menu?, o: Outcome, lifted: bool) {
    && f.Cons? && o.result.Cons? && o.result.head == f.head
    && Stands(h', f.head, o.result, up, null)
    && Preorder(o.result) == Preorder(f) && Outside(h, h', Preorder(f))
    && (if lifted then Lifted(o.result.kids) else KidsLifted(o.result.kids))
    && o.taken.Cons? && o.taken.head == f.head && o.taken.kids == f.kids
    && f == Append(o.taken, o.result.rest)
    && Swept(d, d', o.taken, o.order, o.moves)
    && AllMoved(Tops(o.taken.rest), o.moves)
    && (if f.kids.Cons? || f.head.sym.None? then o.taken.rest.Nil?
        else Stays(d', f.head.sym.value, o.result.rest))
  }

  /** `menu_finalize` on the first entry of `f`. */
  method Finalize(parent: Menu, ghost f: Forest, ghost up: Menu?, ghost ms: set<Menu>) returns (ghost o: Outcome)
    requires Stands(LinksOf(ms), parent, f, up, null) && NoDup(Preorder(f))
    modifies ms
    ensures Finalized(old(LinksOf(ms)), old(InfosOf(ms)), LinksOf(ms), InfosOf(ms), f, up, o, true)
    decreases |Preorder(f)|, 2
  {
    hide Finalized, Stands, NoDup, Preorder, Outside;
    ghost var h, d := LinksOf(ms), InfosOf(ms);
    FinalizeStart(h, parent, f, up);
    if parent.list != null {
      o := FinalizeKids(parent, f, up, ms);
    } else if parent.sym.Some? {
      o := Absorb(parent, f, up, ms);
    } else {
      o := Outcome(f, Cons(parent, Nil, Nil), [parent], []);
      NothingToDo(h, d, f, up, o);
    }
    ghost var h1 := LinksOf(ms);
    LiftStart(h, d, h1, InfosOf(ms), f, up, o);
    ghost var ks := LiftAll(parent, o.result.kids, ms);
    FinalizeEnd(h, d, h1, LinksOf(ms), InfosOf(ms), f, up, o, ks);
    o := o.(result := o.result.(kids := ks));
  }

  lemma FinalizeStart(h: Links, parent: Menu, f: Forest, up: Menu?)
    requires Stands(h, parent, f, up, null) && NoDup(Preorder(f))
    ensures f.Cons? && f.head == parent && parent in h
    ensures h[parent].list == null <==> f.kids.Nil?
  {
    StandsNull(h, h[parent].list, f.kids, parent);
  }

  lemma NothingToDo(h: Links, d: Infos, f: Forest, up: Menu?, o: Outcome)
    requires f.Cons? && f.kids.Nil? && f.head.sym.None? && Stands(h, f.head, f, up, null)
    requires o == Outcome(f, Cons(f.head, Nil, Nil), [f.head], [])
    ensures Finalized(h, d, h, d, f, up, o, false)
  {
    ConsAppended(f.head, Nil, f.rest);
    assert Preorder(o.taken) == [f.head];
  }

  lemma LiftStart(h: Links, d: Infos, h1: Links, d1: Infos, f: Forest, up: Menu?, o: Outcome)
    requires Finalized(h, d, h1, d1, f, up, o, false) && NoDup(Preorder(f))
    ensures o.result.Cons? && o.result.head == f.head && f.head in h1
    ensures Stands(h1, h1[f.head].list, o.result.kids, f.head, null) && KidsLifted(o.result.kids)
    ensures NoDup(Preorder(o.result.kids)) && f.head !in Preorder(o.result.kids)
  {
    NoDupParts(o.result);
  }

  lemma FinalizeEnd(h: Links, d: Infos, h1: Links, h2: Links, d1: Infos, f: Forest, up: Menu?, o: Outcome, ks: Forest)
    requires Finalized(h, d, h1, d1, f, up, o, false) && NoDup(Preorder(f))
    requires f.head in h2 && Stands(h2, h2[f.head].list, ks, f.head, null) && Lifted(ks)
    requires Preorder(ks) == Preorder(o.result.kids) && Outside(h1, h2, Preorder(ks))
    ensures Finalized(h, d, h2, d1, f, up, o.(result := o.result.(kids := ks)), true)
  {
    hide Swept, Stays, AllMoved, NoDup, Lifted;
    var g := o.result;
    NoDupParts(g);
    StandsKeys(h1, h1[f.head].next, g.rest, up, null);
    StandsFrame(h1, h2, h1[f.head].next, g.rest, up, null);
    assert forall x :: x in Preorder(ks) ==> x in Preorder(f);
    OutsideTwice(h, h1, h2, Preorder(f), Preorder(f));
  }

  /* ----- an entry with a menu of its own ----- */

  /** How far a loop over a list of entries has come: what the list has become, what is still
      to be visited, what has been visited as it stood before, and in which order. */
  datatype Sweep = Sweep(done: Forest, left: Forest, taken: Forest, order: seq<Menu>, moves: seq<Move>)

  /** The loop after the call for its next entry `m`, of which `r` is the outcome. */
  function After(s: Sweep, m: Menu, r: Outcome, moves: seq<Move>): Sweep
    requires r.result.Cons?
  {
    Sweep(Append(s.done, Cons(m, r.result.kids, Nil)), r.result.rest, Append(s.taken, r.taken), s.order + r.order,
          moves)
  }

  /** The progress of the loop over the entries of a menu. */
  ghost predicate Kids(h: Links, d: Infos, h': Links, d': Infos, first: Menu?, parent: Menu, m: Menu?, f: Forest,
                       s: Sweep) {
    && Between(h', first, s.done, parent, m, s.left, parent, Preorder(f)) && KidsLifted(s.done)
    && Outside(h, h', Preorder(f))
    && f == Append(s.taken, s.left) && Swept(d, d', s.taken, s.order, s.moves)
  }

  /** The entries of a menu take over its dependency, and are then finalized one by one. */
  method FinalizeKids(parent: Menu, ghost f: Forest, ghost up: Menu?, ghost ms: set<Menu>) returns (ghost o: Outcome)
    requires Stands(LinksOf(ms), parent, f, up, null) && NoDup(Preorder(f)) && parent.list != null
    modifies ms
    ensures Finalized(old(LinksOf(ms)), old(InfosOf(ms)), LinksOf(ms), InfosOf(ms), f, up, o, false)
    decreases |Preorder(f)|, 0
  {
    hide Finalized, Stands, NoDup, Preorder, Outside, Kids, Swept, TopsStep, Elsewhere, OuterOf;
    ghost var h, d := LinksOf(ms), InfosOf(ms);
    KidsReady(h, parent, f, up);
    var outer := if parent.sym.Some? && parent.isChoice then Some(Leaf(parent.sym.value))
                 else if parent.hasPrompt then parent.visible
                 else parent.dep;
    assert outer == OuterOf(parent, InfoAt(d, parent)) by { OuterIs(parent, d); }
    PropagateAll(parent.list, outer, f.kids, parent, ms);
    ghost var d1 := InfosOf(ms);
    var menu := parent.list;
    ghost var first, s := parent.list, Sweep(Nil, f.kids, Nil, [], []);
    KidsStart(h, d1, first, parent, f.kids);
    while menu != null
      invariant Kids(h, d1, LinksOf(ms), InfosOf(ms), first, parent, menu, f.kids, s)
      decreases |Preorder(s.left)|
    {
      ghost var h0, d0 := LinksOf(ms), InfosOf(ms);
      KidsNext(h, d1, h0, d0, first, parent, menu, f.kids, s);
      ghost var r := Finalize(menu, s.left, parent, ms);
      KidsStep(h, d1, h0, d0, LinksOf(ms), InfosOf(ms), first, parent, menu, f.kids, s, r);
      s := After(s, menu, r, s.moves + r.moves);
      menu := menu.next;
    }
    o := Outcome(Cons(parent, s.done, f.rest), Cons(parent, f.kids, Nil), [parent] + s.order, s.moves);
    KidsEnd(h, d, d1, LinksOf(ms), InfosOf(ms), parent, f, up, outer, s);
  }

  lemma OuterIs(p: Menu, d: Infos)
    ensures OuterOf(p, InfoAt(d, p))
            == if p.sym.Some? && p.isChoice then Some(Leaf(p.sym.value))
               else if p.hasPrompt then InfoAt(d, p).visible
               else InfoAt(d, p).dep
  {
  }

  lemma KidsReady(h: Links, parent: Menu, f: Forest, up: Menu?)
    requires Stands(h, parent, f, up, null) && NoDup(Preorder(f))
    ensures f.Cons? && f.head == parent && parent in h && Stands(h, h[parent].list, f.kids, parent, null)
    ensures NoDup(Preorder(f.kids)) && |Preorder(f.kids)| < |Preorder(f)|
  {
    NoDupParts(f);
  }

  lemma KidsStart(h: Links, d: Infos, first: Menu?, parent: Menu, f: Forest)
    requires Stands(h, first, f, parent, null) && NoDup(Preorder(f))
    ensures Kids(h, d, h, d, first, parent, first, f, Sweep(Nil, f, Nil, [], []))
  {
    BetweenStart(h, first, f, parent, parent);
  }

  lemma KidsNext(h: Links, d: Infos, h': Links, d': Infos, first: Menu?, parent: Menu, m: Menu, f: Forest, s: Sweep)
    requires Kids(h, d, h', d', first, parent, m, f, s)
    ensures Stands(h', m, s.left, parent, null) && NoDup(Preorder(s.left)) && s.left.Cons? && s.left.head == m
    ensures |Preorder(s.left)| <= |Preorder(f)|
  {
    BetweenFacts(h', first, s.done, parent, m, s.left, parent, Preorder(f));
  }

  lemma KidsStep(h: Links, d: Infos, h0: Links, d0: Infos, h1: Links, d1: Infos, first: Menu?, parent: Menu, m: Menu,
                 f: Forest, s: Sweep, r: Outcome)
    requires Kids(h, d, h0, d0, first, parent, m, f, s)
    requires s.left.Cons? && s.left.head == m && Finalized(h0, d0, h1, d1, s.left, parent, r, true)
    ensures m in h1 && r.result.Cons?
    ensures Kids(h, d, h1, d1, first, parent, h1[m].next, f, After(s, m, r, s.moves + r.moves))
    ensures |Preorder(r.result.rest)| < |Preorder(s.left)|
  {
    hide Swept, Stands, NoDup, Outside, Lifted, Stays, AllMoved;
    BetweenReplace(h0, h1, first, s.done, parent, m, s.left, r.result, parent, Preorder(f));
    BetweenFacts(h1, first, s.done, parent, m, r.result, parent, Preorder(f));
    BetweenShift(h1, first, s.done, parent, m, r.result, parent, Preorder(f), h1);
    OutsideTwice(h, h0, h1, Preorder(f), Preorder(f));
    KidsLiftedShift(s.done, m, r.result.kids);
    AppendAssoc(s.taken, r.taken, r.result.rest);
    SweptOn(d, d0, d1, f, s.taken, s.left, r.taken, r.result.rest, s.order, r.order, s.moves, r.moves);
  }

  lemma KidsLiftedShift(done: Forest, m: Menu, ks: Forest)
    requires KidsLifted(done) && Lifted(ks)
    ensures KidsLifted(Append(done, Cons(m, ks, Nil)))
  {
    LiftedAppend(done, Cons(m, ks, Nil));
  }

  lemma SweptOn(d: Infos, d0: Infos, d1: Infos, f: Forest, t: Forest, left: Forest, u: Forest, rest: Forest,
                o: seq<Menu>, o': seq<Menu>, mv: seq<Move>, mv': seq<Move>)
    requires Swept(d, d0, t, o, mv) && Swept(d0, d1, u, o', mv')
    requires NoDup(Preorder(f)) && f == Append(t, left) && left == Append(u, rest)
    ensures Swept(d, d1, Append(t, u), o + o', mv + mv')
  {
    hide Swept, NoDup, Append, Preorder;
    PreorderAppend(t, left);
    PreorderAppend(u, rest);
    assert Preorder(f) == (Preorder(t) + Preorder(u)) + Preorder(rest);
    NoDupSplit(Preorder(t) + Preorder(u), Preorder(rest));
    SweptTwice(d, d0, d1, t, u, o, o', mv, mv');
  }

  lemma KidsEnd(h: Links, d: Infos, d1: Infos, h2: Links, d2: Infos, parent: Menu, f: Forest, up: Menu?,
                outer: Option<Expr>, s: Sweep)
    requires Stands(h, parent, f, up, null) && NoDup(Preorder(f)) && parent in h
    requires f.Cons? && f.head == parent && f.kids.Cons?
    requires TopsStep(outer, f.kids, d, d1) && Elsewhere(d, d1, Tops(f.kids))
             && outer == OuterOf(parent, InfoAt(d, parent))
    requires Kids(h, d1, h2, d2, h[parent].list, parent, null, f.kids, s)
    ensures Finalized(h, d, h2, d2, f, up,
                      Outcome(Cons(parent, s.done, f.rest), Cons(parent, f.kids, Nil), [parent] + s.order, s.moves),
                      false)
  {
    hide Swept, NoDup, TopsStep, Elsewhere, OuterOf, KidsLifted, InfoAt, Stands, Outside, Preorder;
    BetweenEnd(h2, h[parent].list, s.done, parent, s.left, parent, Preorder(f.kids));
    AppendNil(s.taken);
    KidsLinks(h, h2, parent, f, up, s.done);
    MenuSwept(parent, f.kids, outer, d, d1, d2, s.order, s.moves);
    ConsAppended(parent, f.kids, f.rest);
  }

  lemma KidsLinks(h: Links, h2: Links, parent: Menu, f: Forest, up: Menu?, done: Forest)
    requires Stands(h, parent, f, up, null) && NoDup(Preorder(f))
    requires f.Cons? && f.head == parent && Outside(h, h2, Preorder(f.kids))
    requires Stands(h2, h[parent].list, done, parent, null) && Preorder(done) == Preorder(f.kids)
    ensures Stands(h2, parent, Cons(parent, done, f.rest), up, null)
    ensures Preorder(Cons(parent, done, f.rest)) == Preorder(f) && Outside(h, h2, Preorder(f))
    ensures NoDup([parent] + Preorder(f.kids))
  {
    hide NoDup;
    NoDupParts(f);
    NoDupSplit([parent] + Preorder(f.kids), Preorder(f.rest));
    StandsKeys(h, h[parent].next, f.rest, up, null);
    StandsFrame(h, h2, h[parent].next, f.rest, up, null);
    assert forall x :: x in Preorder(f.kids) ==> x in Preorder(f);
  }

  /* ----- automatic submenus ----- */

  lemma {:induction false} TopsAppend(f: Forest, g: Forest)
    ensures Tops(Append(f, g)) == Tops(f) + Tops(g)
  {
    if f.Cons? {
      TopsAppend(f.rest, g);
    }
  }

  lemma AllMovedTwice(xs: seq<Menu>, ys: seq<Menu>, moves: seq<Move>, more: seq<Move>)
    requires AllMoved(xs, moves) && AllMoved(ys, more)
    ensures AllMoved(xs + ys, moves + more)
  {
    forall x | x in xs + ys ensures Moved(x, moves + more) {
      var mv: Move :| mv.entry == x && (mv in moves || mv in more);
      assert mv in moves + more;
    }
  }

  /** The progress of the loop over the entries after `parent`. */
  ghost predicate Siblings(h: Links, d: Infos, h': Links, d': Infos, first: Menu?, parent: Menu, last: Menu?,
                           m: Menu?, f: Forest, up: Menu?, s: Sweep) {
    && f.Cons? && f.head == parent && f.kids.Nil?
    && Between(h', first, s.done, parent, m, s.left, up, Preorder(f.rest)) && KidsLifted(s.done)
    && Outside(h, h', Preorder(f.rest))
    && last == (if s.done.Nil? then null else LastOf(s.done))
    && f == Append(s.taken, s.left) && s.taken.Cons? && s.taken.head == parent && s.taken.kids.Nil?
    && Swept(d, d', s.taken, s.order, s.moves) && AllMoved(Tops(s.taken.rest), s.moves)
  }

  /** An entry with a symbol and without a menu of its own takes in the entries that follow it,
      as long as they belong to its symbol. */
  method Absorb(parent: Menu, ghost f: Forest, ghost up: Menu?, ghost ms: set<Menu>) returns (ghost o: Outcome)
    requires Stands(LinksOf(ms), parent, f, up, null) && NoDup(Preorder(f))
    requires parent.list == null && parent.sym.Some?
    modifies ms
    ensures Finalized(old(LinksOf(ms)), old(InfosOf(ms)), LinksOf(ms), InfosOf(ms), f, up, o, false)
    decreases |Preorder(f)|, 1
  {
    hide Finalized, Stands, NoDup, Preorder, Siblings, Justified, SaysNotNo, Stays, DepOf, BaseOf, InfoAt;
    hide Append;
    ghost var h, d := LinksOf(ms), InfosOf(ms);
    FinalizeStart(h, parent, f, up);
    AbsorbStart(h, d, parent, f, up);
    var sym := parent.sym.value;
    var base, compared := PromptForm(parent, ms);
    var last: Menu? := null;
    var menu := parent.next;
    ghost var first, s := parent.next, Sweep(Nil, f.rest, Cons(parent, Nil, Nil), [parent], []);
    while menu != null
      invariant Siblings(h, d, LinksOf(ms), InfosOf(ms), first, parent, last, menu, f, up, s)
      decreases |Preorder(s.left)|
    {
      ghost var h0, d0 := LinksOf(ms), InfosOf(ms);
      SiblingsNext(h, d, h0, d0, first, parent, last, menu, f, up, s);
      var yes := BelongsTo(menu, sym, base, compared, s.left, ms);
      if !yes {
        break;
      }
      s := AbsorbOne(parent, last, menu, f, up, ms, h, d, first, s);
      last := menu;
      menu := menu.next;
    }
    if menu == null {
      StaysNil(h, d, LinksOf(ms), InfosOf(ms), first, parent, last, f, up, s, sym);
    }
    o := Outcome(Cons(parent, s.done, s.left), s.taken, s.order, s.moves);
    Hang(parent, last, menu, f, up, ms, h, d, first, s, sym);
  }

  /** One more entry: it is finalized and gets its new parent. */
  method AbsorbOne(parent: Menu, ghost last: Menu?, menu: Menu, ghost f: Forest, ghost up: Menu?, ghost ms: set<Menu>,
                   ghost h: Links, ghost d: Infos, ghost first: Menu?, ghost s: Sweep) returns (ghost s': Sweep)
    requires Siblings(h, d, LinksOf(ms), InfosOf(ms), first, parent, last, menu, f, up, s) && NoDup(Preorder(f))
    requires parent.sym.Some?
    requires Justified(DepOf(menu, InfoAt(InfosOf(ms), menu)), parent.sym.value, BaseOf(parent, InfoAt(d, parent)))
    modifies ms
    ensures Siblings(h, d, LinksOf(ms), InfosOf(ms), first, parent, menu, menu.next, f, up, s')
    ensures |Preorder(s'.left)| < |Preorder(s.left)|
    decreases |Preorder(f)|, 0
  {
    hide Finalized, Stands, NoDup, Preorder, Siblings, Justified, WithParent, DepOf, BaseOf, InfoAt, Append, After;
    ghost var h0, d0 := LinksOf(ms), InfosOf(ms);
    SiblingsNext(h, d, h0, d0, first, parent, last, menu, f, up, s);
    ghost var r := Finalize(menu, s.left, up, ms);
    ghost var h1 := LinksOf(ms);
    FinalizedKeys(h0, d0, h1, InfosOf(ms), s.left, up, r);
    SetParent(menu, parent, ms);
    SiblingsStep(h, d, h0, d0, h1, LinksOf(ms), InfosOf(ms), first, parent, last, menu, f, up, s, r);
    s' := After(s, menu, r, s.moves + r.moves + [Move(menu, parent)]);
  }

  /** The entries from the first one after `parent` to `last` become the list of `parent`. */
  method Hang(parent: Menu, last: Menu?, ghost m: Menu?, ghost f: Forest, ghost up: Menu?, ghost ms: set<Menu>,
              ghost h: Links, ghost d: Infos, ghost first: Menu?, ghost s: Sweep, ghost sym: Symbol)
    requires NoDup(Preorder(f)) && Stands(h, parent, f, up, null) && parent in h && h[parent].list == null
    requires first == h[parent].next
    requires Siblings(h, d, LinksOf(ms), InfosOf(ms), first, parent, last, m, f, up, s)
    requires parent.sym == Some(sym) && Stays(InfosOf(ms), sym, s.left)
    modifies ms`list, ms`next
    ensures Finalized(h, d, LinksOf(ms), InfosOf(ms), f, up,
                      Outcome(Cons(parent, s.done, s.left), s.taken, s.order, s.moves), false)
  {
    hide Finalized, Stands, NoDup, Preorder, Siblings, Stays, WithNext, WithList;
    ghost var h1, d1 := LinksOf(ms), InfosOf(ms);
    SiblingsFacts(h, d, h1, d1, first, parent, last, m, f, up, s);
    if last != null {
      SetList(parent, parent.next, ms);
      SetNext(parent, last.next, ms);
      SetNext(last, null, ms);
      SiblingsBelow(h, d, h1, LinksOf(ms), d1, first, parent, last, m, f, up, s, sym);
    } else {
      SiblingsNone(h, d, h1, d1, first, parent, m, f, up, s, sym);
    }
  }

  /** The condition of the prompt, and the form in which it is compared. */
  method PromptForm(parent: Menu, ghost ms: set<Menu>) returns (base: Option<Expr>, compared: Expr)
    requires parent in ms
    ensures base == BaseOf(parent, InfoAt(InfosOf(ms), parent)) && SaysNotNo(base, compared)
  {
    hide SaysNotNo;
    base := if parent.hasPrompt then parent.visible else None;
    compared := NotNo(base);
  }

  /** The test for one entry. */
  method BelongsTo(menu: Menu, sym: Symbol, base: Option<Expr>, compared: Expr, ghost left: Forest,
                   ghost ms: set<Menu>) returns (yes: bool)
    requires menu in ms && left.Cons? && left.head == menu
    requires SaysNotNo(base, compared)
    ensures yes ==> Justified(DepOf(menu, InfoAt(InfosOf(ms), menu)), sym, base)
    ensures !yes ==> Stays(InfosOf(ms), sym, left)
  {
    hide Justified, SaysNotNo;
    var dep := if menu.hasPrompt then menu.visible else menu.dep;
    yes := Belongs(dep, sym, base, compared);
  }

  lemma AbsorbStart(h: Links, d: Infos, parent: Menu, f: Forest, up: Menu?)
    requires Stands(h, parent, f, up, null) && NoDup(Preorder(f)) && parent in h && h[parent].list == null
    ensures f.Cons? && f.head == parent && f.kids.Nil?
    ensures Siblings(h, d, h, d, h[parent].next, parent, null, h[parent].next, f, up,
                     Sweep(Nil, f.rest, Cons(parent, Nil, Nil), [parent], []))
  {
    StandsNull(h, h[parent].list, f.kids, parent);
    NoDupParts(f);
    BetweenStart(h, h[parent].next, f.rest, parent, up);
    ConsAppended(parent, Nil, f.rest);
    assert Preorder(Cons(parent, Nil, Nil)) == [parent];
  }

  lemma SiblingsNext(h: Links, d: Infos, h': Links, d': Infos, first: Menu?, parent: Menu, last: Menu?, m: Menu,
                     f: Forest, up: Menu?, s: Sweep)
    requires Siblings(h, d, h', d', first, parent, last, m, f, up, s)
    ensures Stands(h', m, s.left, up, null) && NoDup(Preorder(s.left)) && s.left.Cons? && s.left.head == m && m in h'
    ensures |Preorder(s.left)| < |Preorder(f)|
  {
    BetweenFacts(h', first, s.done, parent, m, s.left, up, Preorder(f.rest));
  }

  lemma StaysNil(h: Links, d: Infos, h': Links, d': Infos, first: Menu?, parent: Menu, last: Menu?, f: Forest,
                 up: Menu?, s: Sweep, sym: Symbol)
    requires Siblings(h, d, h', d', first, parent, last, null, f, up, s)
    ensures Stays(d', sym, s.left)
  {
    BetweenEnd(h', first, s.done, parent, s.left, up, Preorder(f.rest));
  }

  lemma FinalizedKeys(h: Links, d: Infos, h': Links, d': Infos, f: Forest, up: Menu?, o: Outcome)
    requires Finalized(h, d, h', d', f, up, o, true)
    ensures f.Cons? && f.head in h' && o.result.Cons?
  {
  }

  lemma MoveAdded(d: Infos, d': Infos, t: Forest, order: seq<Menu>, moves: seq<Move>, mv: Move)
    requires Swept(d, d', t, order, moves)
    requires mv.entry in Preorder(t) && mv.under in Preorder(t) && MoveOk(d', mv)
    ensures Swept(d, d', t, order, moves + [mv])
  {
    hide MoveOk, Settled, Elsewhere;
  }

  /** Finalizing an entry leaves its own dependencies alone. */
  lemma HeadKept(d: Infos, d': Infos, t: Forest, order: seq<Menu>, moves: seq<Move>)
    requires Swept(d, d', t, order, moves) && t.Cons? && NoDup(Preorder(t))
    ensures InfoAt(d', t.head) == InfoAt(d, t.head) && t.head in Preorder(t)
  {
    hide InfoAt, Settled, MovesOk;
    TopsApart(t);
    assert t.head in Tops(t);
    ElsewhereAt(d, d', Under(t), Tops(t));
  }

  lemma SiblingsStep(h: Links, d: Infos, h0: Links, d0: Infos, h1: Links, h2: Links, d1: Infos, first: Menu?,
                     parent: Menu, last: Menu?, m: Menu, f: Forest, up: Menu?, s: Sweep, r: Outcome)
    requires Siblings(h, d, h0, d0, first, parent, last, m, f, up, s)
    requires NoDup(Preorder(f)) && s.left.Cons? && s.left.head == m
    requires Finalized(h0, d0, h1, d1, s.left, up, r, true) && h2 == WithParent(h1, m, parent)
    requires parent.sym.Some?
    requires Justified(DepOf(m, InfoAt(d0, m)), parent.sym.value, BaseOf(parent, InfoAt(d, parent)))
    ensures m in h2 && r.result.Cons?
    ensures Siblings(h, d, h2, d1, first, parent, m, h2[m].next, f, up,
                     After(s, m, r, s.moves + r.moves + [Move(m, parent)]))
    ensures |Preorder(After(s, m, r, s.moves + r.moves + [Move(m, parent)]).left)| < |Preorder(s.left)|
  {
    hide Swept, Stands, NoDup, Outside, Lifted, Stays, AllMoved, DepOf, BaseOf, InfoAt, Justified, WithParent;
    var all := Preorder(f.rest);
    BetweenReplace(h0, h1, first, s.done, parent, m, s.left, r.result, up, all);
    BetweenFacts(h1, first, s.done, parent, m, r.result, up, all);
    BetweenShift(h1, first, s.done, parent, m, r.result, up, all, h2);
    OutsideTwice(h, h0, h1, all, all);
    OutsideTwice(h, h1, h2, all, all);
    KidsLiftedShift(s.done, m, r.result.kids);
    LastAppended(s.done, m, r.result.kids);
    AppendAssoc(s.taken, r.taken, r.result.rest);
    SweptSiblings(d, d0, d1, f, parent, m, s.taken, s.left, s.order, s.moves, r);
    MovedSiblings(s.taken, m, parent, s.moves, r);
  }

  lemma MovedSiblings(t: Forest, m: Menu, parent: Menu, moves: seq<Move>, r: Outcome)
    requires t.Cons? && AllMoved(Tops(t.rest), moves)
    requires r.taken.Cons? && r.taken.head == m && AllMoved(Tops(r.taken.rest), r.moves)
    ensures AllMoved(Tops(Append(t, r.taken).rest), moves + r.moves + [Move(m, parent)])
  {
    hide AllMoved;
    TopsAppend(t.rest, r.taken);
    AllMovedTwice(Tops(t.rest), Tops(r.taken.rest), moves, r.moves);
    OneMoved(m, parent);
    AllMovedTwice(Tops(t.rest) + Tops(r.taken.rest), [m], moves + r.moves, [Move(m, parent)]);
    SameMoved(Tops(t.rest) + Tops(r.taken.rest) + [m], Tops(Append(t, r.taken).rest),
              moves + r.moves + [Move(m, parent)]);
  }

  lemma OneMoved(m: Menu, parent: Menu)
    ensures AllMoved([m], [Move(m, parent)])
  {
    assert Move(m, parent) in [Move(m, parent)];
  }

  lemma SameMoved(xs: seq<Menu>, ys: seq<Menu>, moves: seq<Move>)
    requires AllMoved(xs, moves) && forall x :: x in ys ==> x in xs
    ensures AllMoved(ys, moves)
  {
    hide Moved;
  }

  lemma SweptSiblings(d: Infos, d0: Infos, d1: Infos, f: Forest, parent: Menu, m: Menu, t: Forest, left: Forest,
                      order: seq<Menu>, moves: seq<Move>, r: Outcome)
    requires NoDup(Preorder(f)) && f == Append(t, left) && r.result.Cons? && left == Append(r.taken, r.result.rest)
    requires t.Cons? && t.head == parent && r.taken.Cons? && r.taken.head == m
    requires Swept(d, d0, t, order, moves) && Swept(d0, d1, r.taken, r.order, r.moves)
    requires parent.sym.Some?
    requires Justified(DepOf(m, InfoAt(d0, m)), parent.sym.value, BaseOf(parent, InfoAt(d, parent)))
    ensures Swept(d, d1, Append(t, r.taken), order + r.order, moves + r.moves + [Move(m, parent)])
  {
    hide Swept, NoDup, DepOf, BaseOf, InfoAt, Justified, Preorder;
    SweptOn(d, d0, d1, f, t, left, r.taken, r.result.rest, order, r.order, moves, r.moves);
    PreorderAppend(t, left);
    PreorderAppend(r.taken, r.result.rest);
    PreorderAppend(t, r.taken);
    NoDupSplit(Preorder(t), Preorder(left));
    NoDupSplit(Preorder(r.taken), Preorder(r.result.rest));
    HeadKept(d0, d1, r.taken, r.order, r.moves);
    PreorderAppend(Append(t, r.taken), r.result.rest);
    AppendAssoc(t, r.taken, r.result.rest);
    NoDupSplit(Preorder(Append(t, r.taken)), Preorder(r.result.rest));
    HeadKept(d, d1, Append(t, r.taken), order + r.order, moves + r.moves);
    MoveAdded(d, d1, Append(t, r.taken), order + r.order, moves + r.moves, Move(m, parent));
  }

  lemma SiblingsFacts(h: Links, d: Infos, h1: Links, d1: Infos, first: Menu?, parent: Menu, last: Menu?, m: Menu?,
                      f: Forest, up: Menu?, s: Sweep)
    requires Siblings(h, d, h1, d1, first, parent, last, m, f, up, s)
    requires NoDup(Preorder(f)) && Stands(h, parent, f, up, null)
    ensures parent in h1 && h1[parent] == h[parent] && h1[parent].parent == up
    ensures last != null ==> s.done.Cons? && last in h1 && last != parent
    ensures last == null ==> s.done.Nil?
  {
    NoDupParts(f);
    if s.done.Cons? {
      StandsKeys(h1, first, s.done, parent, m);
      LastIn(s.done);
    }
  }

  lemma SiblingsBelow(h: Links, d: Infos, h1: Links, h4: Links, d1: Infos, first: Menu?, parent: Menu, last: Menu,
                      m: Menu?, f: Forest, up: Menu?, s: Sweep, sym: Symbol)
    requires Siblings(h, d, h1, d1, first, parent, last, m, f, up, s)
    requires NoDup(Preorder(f)) && Stands(h, parent, f, up, null)
    requires parent in h1 && last in h1 && last != parent && first == h1[parent].next && h1[parent].parent == up
    requires h4 == WithNext(WithNext(WithList(h1, parent, first), parent, h1[last].next), last, null)
    requires parent.sym == Some(sym) && Stays(d1, sym, s.left)
    ensures Finalized(h, d, h4, d1, f, up, Outcome(Cons(parent, s.done, s.left), s.taken, s.order, s.moves), false)
  {
    hide Swept, Stays, AllMoved, NoDup, KidsLifted, Stands, Outside;
    NoDupParts(f);
    NoDupSplit(Preorder(s.done), Preorder(s.left));
    LastIn(s.done);
    var hx := WithNext(h1, last, null);
    Retarget(h1, first, s.done, parent, m, null, hx);
    var g := Cons(parent, s.done, s.left);
    assert Preorder(g) == Preorder(f) by {
      assert Preorder(g) == [parent] + (Preorder(s.done) + Preorder(s.left));
      assert Preorder(f) == [parent] + Preorder(f.rest);
    }
    StandsKeys(hx, first, s.done, parent, null);
    StandsKeys(h1, m, s.left, up, null);
    BelowLinks(h1, hx, h4, first, parent, last, m, up, s.done, s.left);
    BelowOutside(h, h1, h4, parent, last, f);
  }

  lemma BelowLinks(h1: Links, hx: Links, h4: Links, first: Menu?, parent: Menu, last: Menu, m: Menu?, up: Menu?,
                   done: Forest, left: Forest)
    requires parent in h1 && last in h1 && last != parent && h1[parent].parent == up && h1[last].next == m
    requires hx == WithNext(h1, last, null)
    requires h4 == WithNext(WithNext(WithList(h1, parent, first), parent, m), last, null)
    requires Stands(hx, first, done, parent, null) && Stands(h1, m, left, up, null)
    requires parent !in Preorder(done) && parent !in Preorder(left) && last !in Preorder(left)
    ensures Stands(h4, parent, Cons(parent, done, left), up, null)
  {
    StandsKeys(hx, first, done, parent, null);
    StandsKeys(h1, m, left, up, null);
    StandsFrame(hx, h4, first, done, parent, null);
    StandsFrame(h1, h4, m, left, up, null);
  }

  lemma BelowOutside(h: Links, h1: Links, h4: Links, parent: Menu, last: Menu, f: Forest)
    requires f.Cons? && f.head == parent && Outside(h, h1, Preorder(f.rest)) && last in Preorder(f.rest)
    requires parent in h1 && last in h1
    requires exists first, m :: h4 == WithNext(WithNext(WithList(h1, parent, first), parent, m), last, null)
    ensures Outside(h, h4, Preorder(f))
  {
  }

  lemma SiblingsNone(h: Links, d: Infos, h1: Links, d1: Infos, first: Menu?, parent: Menu, m: Menu?, f: Forest,
                     up: Menu?, s: Sweep, sym: Symbol)
    requires Siblings(h, d, h1, d1, first, parent, null, m, f, up, s)
    requires NoDup(Preorder(f)) && Stands(h, parent, f, up, null)
    requires parent in h1 && h1[parent] == h[parent] && first == h[parent].next && h[parent].list == null && s.done.Nil?
    requires parent.sym == Some(sym) && Stays(d1, sym, s.left)
    ensures Finalized(h, d, h1, d1, f, up, Outcome(Cons(parent, s.done, s.left), s.taken, s.order, s.moves), false)
  {
    hide Swept, Stays, AllMoved, NoDup, KidsLifted;
    FirstOf(h1, first, parent, m, s.left, up, Preorder(f.rest));
    assert Stands(h1, parent, Cons(parent, Nil, s.left), up, null);
    assert Preorder(Cons(parent, Nil, s.left)) == Preorder(f);
    assert forall x :: x in Preorder(f.rest) ==> x in Preorder(f);
  }

  lemma FirstOf(h: Links, first: Menu?, parent: Menu, m: Menu?, left: Forest, up: Menu?, all: seq<Menu>)
    requires Between(h, first, Nil, parent, m, left, up, all)
    ensures first == m && Stands(h, m, left, up, null) && Preorder(left) == all
  {
    assert [] + Preorder(left) == Preorder(left);
  }

  /* ----- the whole configuration ----- */

  /** `menu_finalize` on the root and then the walk of `conf_write`: whatever moved, the entries
      are written once each, in the order in which they were declared. */
  method FinalizeAndWrite(root: Menu, ghost kids: Forest, ghost ms: set<Menu>)
    returns (written: seq<Menu>, ghost o: Outcome)
    requires Stands(LinksOf(ms), root, Cons(root, kids, Nil), null, null) && NoDup(Preorder(Cons(root, kids, Nil)))
    modifies ms
    ensures written == Preorder(kids)
    ensures o.order == Preorder(Cons(root, kids, Nil))
    ensures o.result.Cons? && Lifted(o.result.kids)
    ensures Inherited(root, kids, old(InfosOf(ms)), InfosOf(ms))
    ensures forall mv :: mv in o.moves ==> MoveOk(InfosOf(ms), mv)
  {
    hide Finalized, MoveOk;
    ghost var f, h, d := Cons(root, kids, Nil), LinksOf(ms), InfosOf(ms);
    o := Finalize(root, f, null, ms);
    RootFinalized(h, d, LinksOf(ms), InfosOf(ms), root, kids, o);
    written := Walk(root, o.result.kids, ms);
  }

  lemma NothingAfter(t: Forest, root: Menu, kids: Forest, rest: Forest)
    requires t.Cons? && Append(t, rest) == Cons(root, kids, Nil)
    ensures t == Cons(root, kids, Nil) && rest.Nil?
  {
    assert Append(t.rest, rest) == Nil;
    assert t.rest.Nil?;
  }

  lemma RootFinalized(h: Links, d: Infos, h': Links, d': Infos, root: Menu, kids: Forest, o: Outcome)
    requires Finalized(h, d, h', d', Cons(root, kids, Nil), null, o, true) && NoDup(Preorder(Cons(root, kids, Nil)))
    ensures o.result.Cons? && root in h' && h'[root].next == null && h'[root].parent == null
    ensures Stands(h', h'[root].list, o.result.kids, root, null) && Preorder(o.result.kids) == Preorder(kids)
    ensures o.order == Preorder(Cons(root, kids, Nil)) && Lifted(o.result.kids)
    ensures Inherited(root, kids, d, d')
    ensures forall mv :: mv in o.moves ==> MoveOk(d', mv)
  {
    hide MoveOk, Stays, Elsewhere, Outside, NoDup, Lifted;
    NothingAfter(o.taken, root, kids, o.result.rest);
    StandsNull(h', h'[root].next, o.result.rest, null);
    assert Preorder(o.result) == [root] + Preorder(o.result.kids) + [];
    assert Preorder(Cons(root, kids, Nil)) == [root] + Preorder(kids) + [];
    assert Preorder(o.result)[1..] == Preorder(o.result.kids);
    assert Preorder(Cons(root, kids, Nil))[1..] == Preorder(kids);
  }

  /** `r` is y where both are, and n where one of them is. */
  predicate Both(a: Tristate, b: Tristate, r: Tristate) {
    a != MOD && b != MOD ==> r == Truth(a == YES && b == YES)
  }

  lemma ConjoinedBoth(a: Option<Expr>, b: Option<Expr>, r: Option<Expr>, env: Env)
    requires Conjoined(a, b, r) && TwoValued(env)
    ensures Both(EvalOpt(a, env), EvalOpt(b, env), EvalOpt(r, env))
  {
  }

  /** What is handed down: wherever nothing involved is m, an entry depends in the end on what it
      depended on and on what stands above it, a choice, the condition of a prompt, or else a
      dependency; so do its prompt and its other properties. */
  lemma {:induction false} HandedDown(top: Menu, f: Forest, d: Infos, d': Infos, p: Menu, x: Menu, env: Env)
    requires Inherited(top, f, d, d') && ChildOf(top, f, p, x) && TwoValued(env)
    ensures var i, i', j := InfoAt(d, x), InfoAt(d', x), InfoAt(d', p);
            var above := if p.isChoice && p.sym.Some? then env.tri(p.sym.value)
                         else EvalOpt(if p.hasPrompt then j.visible else j.dep, env);
            && Both(above, EvalOpt(i.dep, env), EvalOpt(i'.dep, env))
            && (x.hasPrompt ==> Both(EvalOpt(i'.dep, env), EvalOpt(i.visible, env), EvalOpt(i'.visible, env)))
            && |i'.conds| == |i.conds|
            && forall k :: 0 <= k < |i.conds| ==>
                 Both(EvalOpt(i'.dep, env), EvalOpt(i.conds[k], env), EvalOpt(i'.conds[k], env))
    decreases f
  {
    hide InfoAt, TwoValued, Both, Conjoined;
    if p == top && x == f.head {
      var i, i', outer := InfoAt(d, x), InfoAt(d', x), OuterOf(p, InfoAt(d', p));
      ConjoinedBoth(outer, i.dep, i'.dep, env);
      if x.hasPrompt {
        ConjoinedBoth(i'.dep, i.visible, i'.visible, env);
      }
      forall k | 0 <= k < |i.conds|
        ensures Both(EvalOpt(i'.dep, env), EvalOpt(i.conds[k], env), EvalOpt(i'.conds[k], env))
      {
        ConjoinedBoth(i'.dep, i.conds[k], i'.conds[k], env);
      }
    } else if ChildOf(f.head, f.kids, p, x) {
      HandedDown(f.head, f.kids, d, d', p, x, env);
    } else {
      HandedDown(top, f.rest, d, d', p, x, env);
    }
  }

  /** In every assignment of n and y, an entry that was moved below a bool symbol, and is available,
      has the symbol at y or the prompt of the symbol available. */
  lemma MovedSoundly(d: Infos, mv: Move, env: Env)
    requires MoveOk(d, mv) && TwoValued(env) && mv.under.sym.value.IsTri()
    requires var i, j := InfoAt(d, mv.entry), InfoAt(d, mv.under);
             var dep := if mv.entry.hasPrompt then i.visible else i.dep;
             && (dep.Some? ==> WithoutM(dep.value)) && EvalOpt(dep, env) != NO
             && (mv.under.hasPrompt && j.visible.Some? ==> WithoutM(j.visible.value))
    ensures env.tri(mv.under.sym.value) == YES
            || !mv.under.hasPrompt || EvalOpt(InfoAt(d, mv.under).visible, env) == YES
  {
    JustifiedTwoValued(DepOf(mv.entry, InfoAt(d, mv.entry)), mv.under.sym.value,
                       BaseOf(mv.under, InfoAt(d, mv.under)), env);
  }
}
