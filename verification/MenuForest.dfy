/** The menu tree: linked entries as `struct menu` keeps them, the forest that they stand for, and
    the pointer walk of `conf_write`. */
module MenuForest {
  import opened Exprs

  /** `struct menu`, with the conditions of the properties that belong to the entry: that of its
      prompt and those of the others. */
  class Menu {
    const sym: Option<Symbol>
    const isChoice: bool
    const hasPrompt: bool
    const hasText: bool
    var next: Menu?
    var list: Menu?
    var parent: Menu?
    var dep: Option<Expr>
    var visible: Option<Expr>
    var conds: seq<Option<Expr>>

    /** `!menu->prompt || !menu->prompt->text` */
    predicate Promptless() {
      !(hasPrompt && hasText)
    }
  }

  /* ----- links as values ----- */

  datatype Link = Link(next: Menu?, list: Menu?, parent: Menu?)

  type Links = map<Menu, Link>

  ghost function LinksOf(ms: set<Menu>): Links
    reads ms`next, ms`list, ms`parent
  {
    map m | m in ms :: Link(m.next, m.list, m.parent)
  }

  /** Left child, right sibling: an entry, the entries below it and the entries after it. */
  datatype Forest = Nil | Cons(head: Menu, kids: Forest, rest: Forest)

  /** The entries in the order of the configuration file. */
  function Preorder(f: Forest): seq<Menu> {
    if f.Nil? then [] else [f.head] + Preorder(f.kids) + Preorder(f.rest)
  }

  function Append(f: Forest, g: Forest): Forest {
    if f.Nil? then g else Cons(f.head, f.kids, Append(f.rest, g))
  }

  /** From `n` up to but excluding `end`, the links stand for `f`, and every parent pointer is
      right, that of the outermost entries being `up`. */
  ghost predicate Stands(h: Links, n: Menu?, f: Forest, up: Menu?, end: Menu?) {
    match f
    case Nil => n == end
    case Cons(x, kids, rest) =>
      && n == x && x in h && h[x].parent == up
      && Stands(h, h[x].list, kids, x, null)
      && Stands(h, h[x].next, rest, up, end)
  }

  ghost predicate NoDup(s: seq<Menu>) {
    forall i, j :: 0 <= i < j < |s| ==> s[i] != s[j]
  }

  /** Only entries of `s` may differ. */
  ghost predicate Outside(h: Links, h': Links, s: seq<Menu>) {
    h'.Keys == h.Keys && forall x :: x in h && x !in s ==> h'[x] == h[x]
  }

  lemma {:induction false} PreorderAppend(f: Forest, g: Forest)
    ensures Preorder(Append(f, g)) == Preorder(f) + Preorder(g)
  {
    if f.Cons? {
      PreorderAppend(f.rest, g);
    }
  }

  lemma {:induction false} StandsKeys(h: Links, n: Menu?, f: Forest, up: Menu?, end: Menu?)
    requires Stands(h, n, f, up, end)
    ensures forall x :: x in Preorder(f) ==> x in h
  {
    if f.Cons? {
      StandsKeys(h, h[f.head].list, f.kids, f.head, null);
      StandsKeys(h, h[f.head].next, f.rest, up, end);
    }
  }

  /** In the forest below `top`, `x` stands directly below `p`. */
  ghost predicate ChildOf(top: Menu?, f: Forest, p: Menu?, x: Menu)
    decreases f
  {
    f.Cons? && ((p == top && x == f.head) || ChildOf(f.head, f.kids, p, x) || ChildOf(top, f.rest, p, x))
  }

  /** Where `x` comes after `p`. */
  ghost predicate After(s: seq<Menu>, p: Menu, x: Menu) {
    exists i, j :: 0 <= i < j < |s| && s[i] == p && s[j] == x
  }

  lemma {:induction false} ChildVisited(top: Menu?, f: Forest, p: Menu?, x: Menu)
    requires ChildOf(top, f, p, x)
    ensures x in Preorder(f)
    decreases f
  {
    if !(p == top && x == f.head) {
      if ChildOf(f.head, f.kids, p, x) {
        ChildVisited(f.head, f.kids, p, x);
      } else {
        ChildVisited(top, f.rest, p, x);
      }
    }
  }

  /** Every entry comes after the one that it stands below. */
  lemma {:induction false} ParentFirst(top: Menu, f: Forest, p: Menu, x: Menu)
    requires ChildOf(top, f, p, x)
    ensures After([top] + Preorder(f), p, x)
    decreases f
  {
    var s := [top] + Preorder(f);
    assert s == [top] + ([f.head] + Preorder(f.kids)) + Preorder(f.rest);
    if p == top && x == f.head {
      assert s[0] == top && s[1] == x;
    } else if ChildOf(f.head, f.kids, p, x) {
      ParentFirst(f.head, f.kids, p, x);
      var i, j :| 0 <= i < j < |[f.head] + Preorder(f.kids)|
                  && ([f.head] + Preorder(f.kids))[i] == p && ([f.head] + Preorder(f.kids))[j] == x;
      assert s[i + 1] == p && s[j + 1] == x;
    } else {
      ParentFirst(top, f.rest, p, x);
      var t := [top] + Preorder(f.rest);
      var i, j :| 0 <= i < j < |t| && t[i] == p && t[j] == x;
      var n := 1 + |Preorder(f.kids)|;
      assert s[j + n] == x && s[if i == 0 then 0 else i + n] == p;
    }
  }

  /** What a forest stands for depends on its own entries only. */
  lemma {:induction false} StandsFrame(h: Links, h': Links, n: Menu?, f: Forest, up: Menu?, end: Menu?)
    requires Stands(h, n, f, up, end)
    requires forall x :: x in Preorder(f) ==> x in h && x in h' && h'[x] == h[x]
    ensures Stands(h', n, f, up, end)
  {
    if f.Cons? {
      var x := f.head;
      assert Preorder(f)[0] == x;
      StandsFrame(h, h', h[x].list, f.kids, x, null);
      StandsFrame(h, h', h[x].next, f.rest, up, end);
    }
  }

  lemma {:induction false} StandsAppend(h: Links, n: Menu?, f: Forest, mid: Menu?, g: Forest, up: Menu?, end: Menu?)
    requires Stands(h, n, f, up, mid) && Stands(h, mid, g, up, end)
    ensures Stands(h, n, Append(f, g), up, end)
  {
    if f.Cons? {
      StandsAppend(h, h[f.head].next, f.rest, mid, g, up, end);
    }
  }

  /* ----- the walk of conf_write ----- */

  /** What is left of the configuration once the entries below `up` are done: the entries after
      `up`, those after its parent, and so on. `trail` is the forest that is left on each level. */
  ghost predicate Climbs(h: Links, up: Menu?, trail: seq<Forest>)
    decreases |trail|
  {
    if trail == [] then up == null
    else
      && up != null && up in h
      && Stands(h, h[up].next, trail[0], h[up].parent, null)
      && Climbs(h, h[up].parent, trail[1..])
  }

  function Remaining(trail: seq<Forest>): seq<Menu> {
    if trail == [] then [] else Preorder(trail[0]) + Remaining(trail[1..])
  }

  /** The walk has come to `n`, where `here` stands. */
  ghost predicate At(h: Links, n: Menu?, here: Forest, up: Menu?, trail: seq<Forest>) {
    Stands(h, n, here, up, null) && Climbs(h, up, trail)
  }

  lemma Descend(h: Links, n: Menu, here: Forest, up: Menu?, trail: seq<Forest>)
    requires At(h, n, here, up, trail)
    ensures here.Cons? && here.head == n && n in h && h[n].parent == up
    ensures At(h, h[n].list, here.kids, n, [here.rest] + trail)
    ensures At(h, h[n].next, here.rest, up, trail)
    ensures Preorder(here) + Remaining(trail) == [n] + (Preorder(here.kids) + Remaining([here.rest] + trail))
    ensures Preorder(here) + Remaining(trail)
            == [n] + (Preorder(here.kids) + (Preorder(here.rest) + Remaining(trail)))
    ensures h[n].list == null ==> Preorder(here.kids) == []
    ensures h[n].next == null ==> Preorder(here.rest) == []
  {
    assert ([here.rest] + trail)[1..] == trail;
    assert Preorder(here) + Remaining(trail)
        == [n] + (Preorder(here.kids) + (Preorder(here.rest) + Remaining(trail)));
  }

  lemma Climb(h: Links, up: Menu, trail: seq<Forest>)
    requires Climbs(h, up, trail)
    ensures trail != [] && up in h
    ensures At(h, h[up].next, trail[0], h[up].parent, trail[1..])
    ensures Remaining(trail) == Preorder(trail[0]) + Remaining(trail[1..])
    ensures h[up].next == null ==> Preorder(trail[0]) == []
  {
  }

  /** The walk over the entries below `root`, which has no successor and no parent. It visits
      every entry exactly once, in preorder, and stops. */
  method Walk(root: Menu, ghost f: Forest, ghost ms: set<Menu>) returns (visited: seq<Menu>)
    requires root in ms && root.next == null && root.parent == null
    requires Stands(LinksOf(ms), root.list, f, root, null)
    ensures visited == Preorder(f)
  {
    hide Stands, Climbs, Preorder, Remaining;
    ghost var h := LinksOf(ms);
    visited := [];
    var menu := root.list;
    ghost var here, up, trail := f, root as Menu?, [Nil];
    Start(h, root, f);
    while menu != null
      invariant At(h, menu, here, up, trail)
      invariant menu == null ==> Preorder(here) + Remaining(trail) == []
      invariant visited + (Preorder(here) + Remaining(trail)) == Preorder(f)
      decreases |Preorder(here) + Remaining(trail)|
    {
      visited := visited + [menu];
      Descend(h, menu, here, up, trail);
      if menu.list != null {
        here, up, trail := here.kids, menu, [here.rest] + trail;
        menu := menu.list;
        continue;
      }
      if menu.next != null {
        here := here.rest;
        menu := menu.next;
      } else {
        menu, here, up, trail := NextAbove(menu.parent, trail, h, ms);
      }
    }
  }

  /** The inner loop: up from a finished entry to the next one that has a successor. */
  method NextAbove(from: Menu?, ghost left: seq<Forest>, ghost h: Links, ghost ms: set<Menu>)
    returns (menu: Menu?, ghost here: Forest, ghost up: Menu?, ghost trail: seq<Forest>)
    requires h == LinksOf(ms) && Climbs(h, from, left)
    ensures At(h, menu, here, up, trail)
    ensures Preorder(here) + Remaining(trail) == Remaining(left)
    ensures menu == null ==> Remaining(left) == []
  {
    hide Stands, Climbs, Preorder;
    menu, up, trail, here := from, from, left, Nil;
    while menu != null
      invariant Climbs(h, menu, trail) && up == menu && Remaining(trail) == Remaining(left)
      decreases |trail|
    {
      Climb(h, menu, trail);
      if menu.next != null {
        here, up, trail := trail[0], menu.parent, trail[1..];
        menu := menu.next;
        return;
      }
      menu := menu.parent;
      up, trail := menu, trail[1..];
      assert Remaining(trail) == [] + Remaining(trail);
    }
    Top(h, trail);
  }

  lemma Top(h: Links, trail: seq<Forest>)
    requires Climbs(h, null, trail)
    ensures trail == [] && At(h, null, Nil, null, trail) && Preorder(Nil) + Remaining(trail) == []
  {
  }

  lemma Start(h: Links, root: Menu, f: Forest)
    requires root in h && h[root].next == null && h[root].parent == null
    requires Stands(h, h[root].list, f, root, null)
    ensures At(h, h[root].list, f, root, [Nil])
    ensures Preorder(f) + Remaining([Nil]) == Preorder(f)
    ensures h[root].list == null ==> Preorder(f) == []
  {
    assert [Nil][1..] == [];
  }
}
