/** Splicing the lists of menu entries: how single assignments change what the links stand for,
    and the lifting of the entries below entries without a prompt. */
module MenuLists {
  import opened Exprs
  import opened MenuForest

  /* ----- sequences without repetition ----- */

  lemma NoDupSplit(a: seq<Menu>, b: seq<Menu>)
    requires NoDup(a + b)
    ensures NoDup(a) && NoDup(b) && Apart(a, b)
  {
    forall i, j | 0 <= i < j < |a| ensures a[i] != a[j] {
      assert (a + b)[i] == a[i] && (a + b)[j] == a[j];
    }
    forall i, j | 0 <= i < j < |b| ensures b[i] != b[j] {
      assert (a + b)[|a| + i] == b[i] && (a + b)[|a| + j] == b[j];
    }
    forall i, j | 0 <= i < |a| && 0 <= j < |b| ensures a[i] != b[j] {
      assert (a + b)[i] == a[i] && (a + b)[|a| + j] == b[j];
    }
  }

  ghost predicate Apart(a: seq<Menu>, b: seq<Menu>) {
    forall x :: x in a ==> x !in b
  }

  lemma NoDupParts(f: Forest)
    requires f.Cons? && NoDup(Preorder(f))
    ensures NoDup(Preorder(f.kids)) && NoDup(Preorder(f.rest))
    ensures Apart(Preorder(f.kids), Preorder(f.rest))
    ensures f.head !in Preorder(f.kids) && f.head !in Preorder(f.rest)
  {
    NoDupSplit([f.head] + Preorder(f.kids), Preorder(f.rest));
    NoDupSplit([f.head], Preorder(f.kids));
    assert f.head in [f.head] + Preorder(f.kids);
    assert forall x :: x in Preorder(f.kids) ==> x in [f.head] + Preorder(f.kids);
  }

  /* ----- one change to a list of entries ----- */

  ghost function WithNext(h: Links, m: Menu, v: Menu?): Links {
    if m in h then h[m := h[m].(next := v)] else h
  }

  ghost function WithList(h: Links, m: Menu, v: Menu?): Links {
    if m in h then h[m := h[m].(list := v)] else h
  }

  ghost function WithParent(h: Links, m: Menu, v: Menu?): Links {
    if m in h then h[m := h[m].(parent := v)] else h
  }

  /** The first entry of the rest joins the part that is done, under its parent. */
  lemma Shift(h: Links, first: Menu?, done: Forest, parent: Menu, m: Menu, left: Forest, up: Menu?, h': Links)
    requires Stands(h, first, done, parent, m) && Stands(h, m, left, up, null)
    requires NoDup(Preorder(done) + Preorder(left)) && h' == WithParent(h, m, parent)
    ensures left.Cons? && left.head == m
    ensures Stands(h', first, Append(done, Cons(m, left.kids, Nil)), parent, h'[m].next)
    ensures Stands(h', h'[m].next, left.rest, up, null)
  {
    NoDupSplit(Preorder(done), Preorder(left));
    NoDupParts(left);
    assert m in Preorder(left);
    StandsKeys(h, first, done, parent, m);
    StandsKeys(h, m, left, up, null);
    StandsFrame(h, h', first, done, parent, m);
    StandsFrame(h, h', h[m].list, left.kids, m, null);
    StandsFrame(h, h', h[m].next, left.rest, up, null);
    StandsAppend(h', first, done, m, Cons(m, left.kids, Nil), parent, h'[m].next);
  }

  /** The last of the outermost entries. */
  function LastOf(f: Forest): Menu
    requires f.Cons?
  {
    if f.rest.Nil? then f.head else LastOf(f.rest)
  }

  lemma {:induction false} LastIn(f: Forest)
    requires f.Cons?
    ensures LastOf(f) in Preorder(f)
  {
    if f.rest.Cons? {
      LastIn(f.rest);
    }
  }

  lemma {:induction false} LastAppended(f: Forest, m: Menu, ks: Forest)
    ensures Append(f, Cons(m, ks, Nil)).Cons? && LastOf(Append(f, Cons(m, ks, Nil))) == m
  {
    if f.Cons? {
      LastAppended(f.rest, m, ks);
    }
  }

  /** The last outermost entry gets another successor. */
  lemma {:induction false} Retarget(h: Links, n: Menu?, f: Forest, up: Menu?, end: Menu?, end': Menu?, h': Links)
    requires Stands(h, n, f, up, end) && f.Cons? && NoDup(Preorder(f))
    requires h' == WithNext(h, LastOf(f), end')
    ensures Stands(h', n, f, up, end') && LastOf(f) in h && h[LastOf(f)].next == end
  {
    NoDupParts(f);
    var x := f.head;
    StandsKeys(h, n, f, up, end);
    if f.rest.Nil? {
      StandsFrame(h, h', h[x].list, f.kids, x, null);
    } else {
      LastIn(f.rest);
      StandsFrame(h, h', h[x].list, f.kids, x, null);
      Retarget(h, h[x].next, f.rest, up, end, end', h');
    }
  }

  /* ----- assignments to links ----- */

  method SetNext(m: Menu, v: Menu?, ghost ms: set<Menu>)
    requires m in ms
    modifies m`next
    ensures LinksOf(ms) == WithNext(old(LinksOf(ms)), m, v)
  {
    m.next := v;
  }

  method SetList(m: Menu, v: Menu?, ghost ms: set<Menu>)
    requires m in ms
    modifies m`list
    ensures LinksOf(ms) == WithList(old(LinksOf(ms)), m, v)
  {
    m.list := v;
  }

  method SetParent(m: Menu, v: Menu?, ghost ms: set<Menu>)
    requires m in ms
    modifies m`parent
    ensures LinksOf(ms) == WithParent(old(LinksOf(ms)), m, v)
  {
    m.parent := v;
  }

  /* ----- lifting ----- */

  /** No entry without a prompt has entries below it. */
  ghost predicate Lifted(f: Forest) {
    f.Cons? ==> (f.head.Promptless() ==> f.kids.Nil?) && Lifted(f.kids) && Lifted(f.rest)
  }

  /** Where all is lifted, only an entry with a prompt and a text has entries below it. */
  lemma {:induction false} LiftedParents(top: Menu?, f: Forest, p: Menu, x: Menu)
    requires Lifted(f) && ChildOf(top, f, p, x) && p != top
    ensures p.hasPrompt && p.hasText
    decreases f
  {
    if ChildOf(f.head, f.kids, p, x) {
      if p != f.head {
        LiftedParents(f.head, f.kids, p, x);
      }
    } else {
      LiftedParents(top, f.rest, p, x);
    }
  }

  /** The same, except perhaps for the outermost entries. */
  ghost predicate KidsLifted(f: Forest) {
    f.Cons? ==> Lifted(f.kids) && KidsLifted(f.rest)
  }

  lemma {:induction false} LiftedKids(f: Forest)
    requires Lifted(f)
    ensures KidsLifted(f)
  {
    if f.Cons? {
      LiftedKids(f.rest);
    }
  }

  lemma {:induction false} LiftedAppend(f: Forest, g: Forest)
    ensures Lifted(f) && Lifted(g) ==> Lifted(Append(f, g))
    ensures KidsLifted(f) && KidsLifted(g) ==> KidsLifted(Append(f, g))
  {
    if f.Cons? {
      LiftedAppend(f.rest, g);
    }
  }

  lemma {:induction false} AppendNil(f: Forest)
    ensures Append(f, Nil) == f
  {
    if f.Cons? {
      AppendNil(f.rest);
    }
  }

  lemma {:induction false} AppendAssoc(f: Forest, g: Forest, k: Forest)
    ensures Append(Append(f, g), k) == Append(f, Append(g, k))
  {
    if f.Cons? {
      AppendAssoc(f.rest, g, k);
    }
  }

  /** How far a loop along a list of entries has come. */
  ghost predicate Between(h: Links, first: Menu?, done: Forest, parent: Menu, m: Menu?, left: Forest, up: Menu?,
                          all: seq<Menu>) {
    && Stands(h, first, done, parent, m) && Stands(h, m, left, up, null)
    && Preorder(done) + Preorder(left) == all && NoDup(all)
  }

  lemma BetweenStart(h: Links, first: Menu?, f: Forest, parent: Menu, up: Menu?)
    requires Stands(h, first, f, up, null) && NoDup(Preorder(f))
    ensures Between(h, first, Nil, parent, first, f, up, Preorder(f))
  {
    assert [] + Preorder(f) == Preorder(f);
  }

  lemma BetweenShift(h: Links, first: Menu?, done: Forest, parent: Menu, m: Menu, left: Forest, up: Menu?,
                     all: seq<Menu>, h': Links)
    requires Between(h, first, done, parent, m, left, up, all)
    requires h' == WithParent(h, m, parent)
    ensures left.Cons? && left.head == m && m in h && m in all
    ensures Between(h', first, Append(done, Cons(m, left.kids, Nil)), parent, h'[m].next, left.rest, up, all)
    ensures Outside(h, h', all)
    ensures |Preorder(left.rest)| < |Preorder(left)|
  {
    StandsKeys(h, m, left, up, null);
    Shift(h, first, done, parent, m, left, up, h');
    PreorderAppend(done, Cons(m, left.kids, Nil));
    assert m in Preorder(left);
    assert Preorder(Cons(m, left.kids, Nil)) + Preorder(left.rest) == Preorder(left);
  }

  /** The loop over the entries below an entry without a prompt: they get a new parent. */
  method Reparent(first: Menu, parent: Menu, ghost old_up: Menu, ghost ks: Forest, ghost ms: set<Menu>)
    returns (last: Menu)
    requires Stands(LinksOf(ms), first, ks, old_up, null) && NoDup(Preorder(ks))
    modifies ms`parent
    ensures Outside(old(LinksOf(ms)), LinksOf(ms), Preorder(ks))
    ensures Stands(LinksOf(ms), first, ks, parent, null)
    ensures last in ms && last.next == null && ks.Cons? && LastOf(ks) == last
  {
    hide Stands, Preorder, NoDup, Between, WithParent, Append, LastOf;
    BetweenStart(LinksOf(ms), first, ks, parent, old_up);
    last := first;
    ghost var done, left := Nil, ks;
    AppendStart(ks);
    while true
      invariant Between(LinksOf(ms), first, done, parent, last, left, old_up, Preorder(ks))
      invariant Append(done, left) == ks
      invariant Outside(old(LinksOf(ms)), LinksOf(ms), Preorder(ks))
      decreases |Preorder(left)|
    {
      ghost var h := LinksOf(ms);
      BetweenShift(h, first, done, parent, last, left, old_up, Preorder(ks), WithParent(h, last, parent));
      SetParent(last, parent, ms);
      AppendAssoc(done, Cons(last, left.kids, Nil), left.rest);
      ConsAppended(last, left.kids, left.rest);
      LastAppended(done, last, left.kids);
      done, left := Append(done, Cons(last, left.kids, Nil)), left.rest;
      if last.next == null {
        BetweenEnd(LinksOf(ms), first, done, parent, left, old_up, Preorder(ks));
        AppendNil(done);
        break;
      }
      last := last.next;
    }
  }

  lemma AppendStart(f: Forest)
    ensures Append(Nil, f) == f
  {
  }

  lemma ConsAppended(m: Menu, ks: Forest, f: Forest)
    ensures Append(Cons(m, ks, Nil), f) == Cons(m, ks, f)
  {
  }

  lemma BetweenEnd(h: Links, first: Menu?, done: Forest, parent: Menu, left: Forest, up: Menu?, all: seq<Menu>)
    requires Between(h, first, done, parent, null, left, up, all)
    ensures left == Nil && Stands(h, first, done, parent, null) && Preorder(done) == all
  {
    assert Preorder(done) + [] == Preorder(done);
  }

  /** The links of one lift: the entries below `m` have their new parent already. */
  lemma LiftLinks(h: Links, m: Menu, ks: Forest, rest: Forest, parent: Menu, last: Menu, h1: Links, h2: Links,
                  h3: Links)
    requires m in h && h[m].parent == parent && ks.Cons? && last == LastOf(ks)
    requires Stands(h, h[m].list, ks, parent, null) && Stands(h, h[m].next, rest, parent, null)
    requires NoDup([m] + Preorder(ks) + Preorder(rest))
    requires h1 == WithNext(h, last, h[m].next) && h2 == WithNext(h1, m, h[m].list) && h3 == WithList(h2, m, null)
    ensures Stands(h3, m, Cons(m, Nil, Append(ks, rest)), parent, null)
    ensures Preorder(Cons(m, Nil, Append(ks, rest))) == [m] + Preorder(ks) + Preorder(rest)
    ensures h3.Keys == h.Keys && h3[m].next == h[m].list
    ensures Outside(h, h3, [m] + Preorder(ks) + Preorder(rest))
  {
    hide Stands, Preorder, NoDup, WithNext, WithList, Append, LastOf, Outside;
    Spliced(h, m, ks, rest, parent, last, h1);
    SplicedUnder(h, h1, h2, h3, m, h[m].list, Append(ks, rest), parent, last, [m] + Preorder(ks) + Preorder(rest));
  }

  /** The first assignment joins the two lists. */
  lemma Spliced(h: Links, m: Menu, ks: Forest, rest: Forest, parent: Menu, last: Menu, h1: Links)
    requires m in h && ks.Cons? && last == LastOf(ks)
    requires Stands(h, h[m].list, ks, parent, null) && Stands(h, h[m].next, rest, parent, null)
    requires NoDup([m] + Preorder(ks) + Preorder(rest))
    requires h1 == WithNext(h, last, h[m].next)
    ensures Stands(h1, h[m].list, Append(ks, rest), parent, null)
    ensures [m] + Preorder(Append(ks, rest)) == [m] + Preorder(ks) + Preorder(rest)
    ensures m !in Preorder(Append(ks, rest)) && last in Preorder(ks) && last in h && last != m
  {
    hide Stands, WithNext, LastOf;
    var f := Cons(m, ks, rest);
    NoDupParts(f);
    LastIn(ks);
    Retarget(h, h[m].list, ks, parent, null, h[m].next, h1);
    StandsKeys(h, h[m].next, rest, parent, null);
    assert forall x :: x in h && x != last ==> x in h1 && h1[x] == h[x] by { WithNextElsewhere(h, last, h[m].next); }
    StandsFrame(h, h1, h[m].next, rest, parent, null);
    StandsAppend(h1, h[m].list, ks, h[m].next, rest, parent, null);
    PreorderAppend(ks, rest);
  }

  lemma WithNextElsewhere(h: Links, m: Menu, v: Menu?)
    ensures forall x :: x in h && x != m ==> x in WithNext(h, m, v) && WithNext(h, m, v)[x] == h[x]
  {
  }

  /** The other two hang the joined list behind `m`. */
  lemma SplicedUnder(h: Links, h1: Links, h2: Links, h3: Links, m: Menu, list: Menu?, f: Forest, parent: Menu,
                     last: Menu, all: seq<Menu>)
    requires m in h && last in h && last != m && h[m].parent == parent
    requires h1 == WithNext(h, last, h[m].next) && h2 == WithNext(h1, m, list) && h3 == WithList(h2, m, null)
    requires Stands(h1, list, f, parent, null) && m !in Preorder(f) && last in all && all == [m] + Preorder(f)
    ensures Stands(h3, m, Cons(m, Nil, f), parent, null)
    ensures Preorder(Cons(m, Nil, f)) == all
    ensures h3.Keys == h.Keys && h3[m].next == list
    ensures Outside(h, h3, all)
  {
    hide Preorder;
    StandsKeys(h1, list, f, parent, null);
    StandsFrame(h1, h3, list, f, parent, null);
    PreorderLeaf(m, f);
  }

  lemma PreorderLeaf(m: Menu, f: Forest)
    ensures Preorder(Cons(m, Nil, f)) == [m] + Preorder(f)
  {
  }

  /** Entries below an entry without a prompt move behind it, into the list of `parent`. */
  method LiftKids(m: Menu, ghost ks: Forest, ghost rest: Forest, parent: Menu, ghost ms: set<Menu>)
    requires Stands(LinksOf(ms), m, Cons(m, ks, rest), parent, null)
    requires NoDup([m] + Preorder(ks) + Preorder(rest)) && m.list != null
    modifies ms`next, ms`list, ms`parent
    ensures Stands(LinksOf(ms), m, Cons(m, Nil, Append(ks, rest)), parent, null)
    ensures Outside(old(LinksOf(ms)), LinksOf(ms), [m] + Preorder(ks) + Preorder(rest))
  {
    hide Stands, Preorder, NoDup, WithNext, WithList, Append, LastOf;
    ghost var h0 := LinksOf(ms);
    LiftReady(h0, m, ks, rest, parent);
    var last := Reparent(m.list, parent, m, ks, ms);
    ghost var h := LinksOf(ms);
    LiftReparented(h0, h, m, ks, rest, parent);
    SetNext(last, m.next, ms);
    ghost var h1 := LinksOf(ms);
    LiftFields(h, h1, m, ks, last);
    SetNext(m, m.list, ms);
    ghost var h2 := LinksOf(ms);
    SetList(m, null, ms);
    LiftLinks(h, m, ks, rest, parent, last, h1, h2, LinksOf(ms));
    OutsideTwice(h0, h, LinksOf(ms), Preorder(ks), [m] + Preorder(ks) + Preorder(rest));
  }

  lemma OutsideTwice(a: Links, b: Links, c: Links, s: seq<Menu>, t: seq<Menu>)
    requires Outside(a, b, s) && Outside(b, c, t) && forall x :: x in s ==> x in t
    ensures Outside(a, c, t)
  {
  }

  lemma LiftReady(h: Links, m: Menu, ks: Forest, rest: Forest, parent: Menu)
    requires Stands(h, m, Cons(m, ks, rest), parent, null) && NoDup([m] + Preorder(ks) + Preorder(rest))
    ensures m in h && Stands(h, h[m].list, ks, m, null) && NoDup(Preorder(ks)) && m !in Preorder(ks)
  {
    NoDupParts(Cons(m, ks, rest));
  }

  lemma LiftReparented(h0: Links, h: Links, m: Menu, ks: Forest, rest: Forest, parent: Menu)
    requires Stands(h0, m, Cons(m, ks, rest), parent, null) && NoDup([m] + Preorder(ks) + Preorder(rest))
    requires Outside(h0, h, Preorder(ks))
    ensures m in h && h[m] == h0[m] && h[m].parent == parent && Stands(h, h[m].next, rest, parent, null)
  {
    NoDupParts(Cons(m, ks, rest));
    StandsKeys(h0, h0[m].next, rest, parent, null);
    StandsFrame(h0, h, h0[m].next, rest, parent, null);
  }

  lemma LiftFields(h: Links, h1: Links, m: Menu, ks: Forest, last: Menu)
    requires ks.Cons? && last == LastOf(ks) && m !in Preorder(ks) && m in h && h1 == WithNext(h, last, h[m].next)
    ensures m in h1 && h1[m] == h[m]
  {
    LastIn(ks);
  }

  lemma BetweenReplace(h: Links, h': Links, first: Menu?, done: Forest, parent: Menu, m: Menu?, left: Forest,
                       left': Forest, up: Menu?, all: seq<Menu>)
    requires Between(h, first, done, parent, m, left, up, all)
    requires Outside(h, h', Preorder(left)) && Stands(h', m, left', up, null) && Preorder(left') == Preorder(left)
    ensures Between(h', first, done, parent, m, left', up, all)
    ensures Outside(h, h', all)
  {
    NoDupSplit(Preorder(done), Preorder(left));
    StandsKeys(h, first, done, parent, m);
    StandsFrame(h, h', first, done, parent, m);
    assert forall x :: x in Preorder(left) ==> x in all;
  }

  lemma BetweenFacts(h: Links, first: Menu?, done: Forest, parent: Menu, m: Menu, left: Forest, up: Menu?,
                     all: seq<Menu>)
    requires Between(h, first, done, parent, m, left, up, all)
    ensures left.Cons? && left.head == m && m in h && m in all && h[m].parent == up
    ensures Stands(h, m, left, up, null) && NoDup(Preorder(left))
    ensures WithParent(h, m, up) == h
    ensures |Preorder(left)| <= |all|
    ensures h[m].list == null <==> left.kids.Nil?
  {
    NoDupSplit(Preorder(done), Preorder(left));
    assert m in Preorder(left);
    StandsNull(h, h[m].list, left.kids, m);
  }

  lemma StandsNull(h: Links, n: Menu?, f: Forest, up: Menu?)
    requires Stands(h, n, f, up, null)
    ensures n == null <==> f.Nil?
  {
  }

  /** The last loop of `menu_finalize`: the entries below every entry without a prompt move
      behind it, and are looked at next. */
  method LiftAll(parent: Menu, ghost ks: Forest, ghost ms: set<Menu>) returns (ghost done: Forest)
    requires parent in ms && Stands(LinksOf(ms), parent.list, ks, parent, null)
    requires NoDup(Preorder(ks)) && parent !in Preorder(ks) && KidsLifted(ks)
    modifies ms`next, ms`list, ms`parent
    ensures Stands(LinksOf(ms), parent.list, done, parent, null) && Lifted(done)
    ensures Preorder(done) == Preorder(ks)
    ensures Outside(old(LinksOf(ms)), LinksOf(ms), Preorder(ks))
  {
    hide Stands, Preorder, NoDup, Between, WithParent, Append, Outside, Lifted, KidsLifted;
    var menu := parent.list;
    ghost var first, all, h0 := parent.list, Preorder(ks), LinksOf(ms);
    done := Nil;
    ghost var left := ks;
    BetweenStart(h0, first, ks, parent, parent);
    OutsideSame(h0, all);
    LiftedNil();
    while menu != null
      invariant Between(LinksOf(ms), first, done, parent, menu, left, parent, all)
      invariant Lifted(done) && KidsLifted(left)
      invariant Outside(h0, LinksOf(ms), all)
      decreases |Preorder(left)|
    {
      ghost var h := LinksOf(ms);
      BetweenFacts(h, first, done, parent, menu, left, parent, all);
      if menu.list != null && menu.Promptless() {
        PreorderCons(left);
        LiftKids(menu, left.kids, left.rest, parent, ms);
        ghost var flat := Cons(menu, Nil, Append(left.kids, left.rest));
        PreorderFlat(menu, left.kids, left.rest);
        BetweenReplace(h, LinksOf(ms), first, done, parent, menu, left, flat, parent, all);
        OutsideTwice(h0, h, LinksOf(ms), all, all);
        KidsLiftedFlat(menu, left.kids, left.rest);
        left := flat;
      }
      h := LinksOf(ms);
      BetweenFacts(h, first, done, parent, menu, left, parent, all);
      BetweenShift(h, first, done, parent, menu, left, parent, all, h);
      LiftedShift(done, left);
      done, left := Append(done, Cons(menu, left.kids, Nil)), left.rest;
      menu := menu.next;
    }
    BetweenEnd(LinksOf(ms), first, done, parent, left, parent, all);
    OutsideAt(h0, LinksOf(ms), all, parent);
  }

  lemma OutsideSame(h: Links, s: seq<Menu>)
    ensures Outside(h, h, s)
  {
  }

  lemma OutsideAt(h: Links, h': Links, s: seq<Menu>, m: Menu)
    requires Outside(h, h', s) && m in h && m !in s
    ensures m in h' && h'[m] == h[m]
  {
  }

  lemma LiftedNil()
    ensures Lifted(Nil) && KidsLifted(Nil)
  {
  }

  lemma PreorderCons(f: Forest)
    requires f.Cons?
    ensures Preorder(f) == [f.head] + Preorder(f.kids) + Preorder(f.rest)
  {
  }

  lemma PreorderFlat(m: Menu, ks: Forest, rest: Forest)
    ensures Preorder(Cons(m, Nil, Append(ks, rest))) == [m] + Preorder(ks) + Preorder(rest)
  {
    PreorderAppend(ks, rest);
  }

  lemma KidsLiftedFlat(m: Menu, ks: Forest, rest: Forest)
    requires KidsLifted(Cons(m, ks, rest))
    ensures KidsLifted(Cons(m, Nil, Append(ks, rest)))
  {
    LiftedKids(ks);
    LiftedAppend(ks, rest);
  }

  lemma LiftedShift(done: Forest, left: Forest)
    requires Lifted(done) && KidsLifted(left) && left.Cons?
    requires left.head.Promptless() ==> left.kids.Nil?
    ensures Lifted(Append(done, Cons(left.head, left.kids, Nil))) && KidsLifted(left.rest)
  {
    LiftedAppend(done, Cons(left.head, left.kids, Nil));
  }
}
