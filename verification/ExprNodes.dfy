/** `struct expr` nodes and the passes of `expr.c` that overwrite them: each turns the tree that
    it is given into the one that the function of the same name says. */
module ExprNodes {
  import opened Exprs
  import E = ExprEquality
  import T = ExprTransformation

  /** The type of a node with the members of its two unions that the type calls for. */
  datatype Cell =
    | LeafCell(sym: Symbol)
    | CmpCell(equal: bool, left: Symbol, right: Symbol)
    | NotCell(arg: Node)
    | BinCell(op: Op, lhs: Node, rhs: Node)

  /** `struct expr`. */
  class Node {
    var cell: Cell

    /** `expr_alloc_symbol`, `expr_alloc_one` and `expr_alloc_two`. */
    constructor (c: Cell)
      ensures cell == c
    {
      cell := c;
    }
  }

  /** The nodes of a tree. */
  datatype Tree =
    | LeafTree(node: Node, sym: Symbol)
    | CmpTree(node: Node, equal: bool, left: Symbol, right: Symbol)
    | NotTree(node: Node, arg: Tree)
    | BinTree(node: Node, op: Op, lhs: Tree, rhs: Tree)

  function Nodes(t: Tree): set<Node> {
    match t
    case LeafTree(n, _) => {n}
    case CmpTree(n, _, _, _) => {n}
    case NotTree(n, a) => {n} + Nodes(a)
    case BinTree(n, _, l, r) => {n} + Nodes(l) + Nodes(r)
  }

  function ExprOf(t: Tree): Expr {
    match t
    case LeafTree(_, s) => Leaf(s)
    case CmpTree(_, equal, l, r) => Cmp(equal, l, r)
    case NotTree(_, a) => Not(ExprOf(a))
    case BinTree(_, op, l, r) => Bin(op, ExprOf(l), ExprOf(r))
  }

  /* ----- memory as a value ----- */

  type Cells = map<Node, Cell>

  ghost function CellsOf(ns: set<Node>): Cells
    reads ns
  {
    map n | n in ns :: n.cell
  }

  /** The memory holds the tree, and no node occurs in it twice. */
  ghost predicate Built(h: Cells, t: Tree) {
    && t.node in h
    && match t
       case LeafTree(n, s) => h[n] == LeafCell(s)
       case CmpTree(n, equal, l, r) => h[n] == CmpCell(equal, l, r)
       case NotTree(n, a) => h[n] == NotCell(a.node) && n !in Nodes(a) && Built(h, a)
       case BinTree(n, op, l, r) =>
         && h[n] == BinCell(op, l.node, r.node) && n !in Nodes(l) && n !in Nodes(r) && Nodes(l) !! Nodes(r)
         && Built(h, l) && Built(h, r)
  }

  /** Old nodes outside `s` have kept their contents. */
  ghost predicate Outside(h: Cells, h': Cells, s: set<Node>) {
    h.Keys <= h'.Keys && forall n :: n in h && n !in s ==> h'[n] == h[n]
  }

  lemma {:induction false} BuiltKeys(h: Cells, t: Tree)
    requires Built(h, t)
    ensures t.node in Nodes(t) && Nodes(t) <= h.Keys
  {
    match t
    case LeafTree(_, _) =>
    case CmpTree(_, _, _, _) =>
    case NotTree(_, a) => BuiltKeys(h, a);
    case BinTree(_, _, l, r) =>
      BuiltKeys(h, l);
      BuiltKeys(h, r);
  }

  /** What a tree stands for depends on its own nodes only. */
  lemma {:induction false} BuiltFrame(h: Cells, h': Cells, t: Tree, s: set<Node>)
    requires Built(h, t) && Outside(h, h', s) && Nodes(t) !! s
    ensures Built(h', t)
  {
    BuiltKeys(h, t);
    match t
    case LeafTree(_, _) =>
    case CmpTree(_, _, _, _) =>
    case NotTree(_, a) => BuiltFrame(h, h', a, s);
    case BinTree(_, _, l, r) =>
      BuiltFrame(h, h', l, s);
      BuiltFrame(h, h', r, s);
  }

  lemma OutsideTwice(a: Cells, b: Cells, c: Cells, s: set<Node>, t: set<Node>, all: set<Node>)
    requires Outside(a, b, s) && Outside(b, c, t) && s <= all && t <= all
    ensures Outside(a, c, all)
  {
  }

  /** The same tree with another root. */
  function Rooted(t: Tree, n: Node): Tree {
    t.(node := n)
  }

  /** The contents of the root are copied to a node outside the tree. */
  lemma CopiedUp(h: Cells, t: Tree, n: Node)
    requires Built(h, t) && n in h && n !in Nodes(t)
    ensures Built(h[n := h[t.node]], Rooted(t, n))
    ensures Nodes(Rooted(t, n)) <= {n} + Nodes(t) && ExprOf(Rooted(t, n)) == ExprOf(t)
  {
    var h' := h[n := h[t.node]];
    match t
    case LeafTree(_, _) =>
    case CmpTree(_, _, _, _) =>
    case NotTree(_, a) => BuiltFrame(h, h', a, {n});
    case BinTree(_, _, l, r) =>
      BuiltFrame(h, h', l, {n});
      BuiltFrame(h, h', r, {n});
  }

  lemma RootCell(h: Cells, t: Tree, s: Symbol)
    requires Built(h, t)
    ensures h[t.node] == LeafCell(s) <==> ExprOf(t) == Leaf(s)
  {
  }

  method SetCell(n: Node, c: Cell, ghost ns: set<Node>)
    requires n in ns
    modifies n
    ensures n.cell == c && CellsOf(ns) == old(CellsOf(ns))[n := c]
  {
    n.cell := c;
  }

  /* ----- the passes that keep the root ----- */

  /** After both operands have been rewritten in turn. */
  lemma OperandsDone(h: Cells, h1: Cells, h2: Cells, t: Tree, v: Tree, w: Tree)
    requires Built(h, t) && t.BinTree?
    requires Outside(h, h1, Nodes(t.lhs)) && Built(h1, v) && v.node == t.lhs.node && Nodes(v) <= Nodes(t.lhs)
    requires Outside(h1, h2, Nodes(t.rhs)) && Built(h2, w) && w.node == t.rhs.node && Nodes(w) <= Nodes(t.rhs)
    ensures Built(h2, BinTree(t.node, t.op, v, w)) && Nodes(BinTree(t.node, t.op, v, w)) <= Nodes(t)
    ensures Outside(h, h2, Nodes(t)) && Built(h2, v) && t.node !in Nodes(v) && t.node !in Nodes(w)
  {
    BuiltFrame(h1, h2, v, Nodes(t.rhs));
    OutsideTwice(h, h1, h2, Nodes(t.lhs), Nodes(t.rhs), Nodes(t));
  }

  lemma FirstDone(h: Cells, h1: Cells, t: Tree)
    requires Built(h, t) && t.BinTree? && Outside(h, h1, Nodes(t.lhs))
    ensures Built(h1, t.rhs) && Nodes(t.lhs) <= Nodes(t) && Nodes(t.rhs) <= Nodes(t)
  {
    BuiltFrame(h, h1, t.rhs, Nodes(t.lhs));
  }

  /** `expr_eliminate_yn`. A node that is dropped has its contents copied over its parent. */
  method EliminateYn(n: Node, ghost t: Tree, ghost ns: set<Node>) returns (ghost u: Tree)
    requires Built(CellsOf(ns), t) && t.node == n
    modifies Nodes(t)
    ensures Built(CellsOf(ns), u) && u.node == n && Nodes(u) <= Nodes(t)
    ensures Outside(old(CellsOf(ns)), CellsOf(ns), Nodes(t))
    ensures ExprOf(u) == E.EliminateYn(ExprOf(t))
    decreases t
  {
    hide Outside;
    ghost var h := CellsOf(ns);
    BuiltKeys(h, t);
    OutsideSame(h, Nodes(t));
    u := t;
    if n.cell.BinCell? {
      var op, l, r := n.cell.op, n.cell.lhs, n.cell.rhs;
      ghost var v := EliminateYn(l, t.lhs, ns);
      ghost var h1 := CellsOf(ns);
      FirstDone(h, h1, t);
      ghost var w := EliminateYn(r, t.rhs, ns);
      ghost var h2 := CellsOf(ns);
      OperandsDone(h, h1, h2, t, v, w);
      u := Collapse(n, op, l, r, t.node, v, w, ns);
      OutsideTwice(h, h2, CellsOf(ns), Nodes(t), {n}, Nodes(t));
    }
  }

  /** The two operands are rewritten; a constant among them decides what becomes of the node. */
  method Collapse(n: Node, op: Op, l: Node, r: Node, ghost root: Node, ghost v: Tree, ghost w: Tree,
                  ghost ns: set<Node>) returns (ghost u: Tree)
    requires Built(CellsOf(ns), BinTree(n, op, v, w)) && v.node == l && w.node == r
    modifies n
    ensures Built(CellsOf(ns), u) && u.node == n && Nodes(u) <= {n} + Nodes(v) + Nodes(w)
    ensures Outside(old(CellsOf(ns)), CellsOf(ns), {n})
    ensures ExprOf(u) == var a, b := ExprOf(v), ExprOf(w);
                         if a == ZeroLeaf(op) then ZeroLeaf(op)
                         else if a == UnitLeaf(op) then b
                         else if b == ZeroLeaf(op) then ZeroLeaf(op)
                         else if b == UnitLeaf(op) then a
                         else Bin(op, a, b)
  {
    ghost var h := CellsOf(ns);
    BuiltKeys(h, v);
    BuiltKeys(h, w);
    u := BinTree(n, op, v, w);
    var zero, unit := ConstOf(op.Zero()), ConstOf(op.Unit());
    RootCell(h, v, zero);
    RootCell(h, v, unit);
    RootCell(h, w, zero);
    RootCell(h, w, unit);
    CopiedUp(h, v, n);
    CopiedUp(h, w, n);
    if l.cell == LeafCell(zero) {
      SetCell(n, LeafCell(zero), ns);
      u := LeafTree(n, zero);
    } else if l.cell == LeafCell(unit) {
      SetCell(n, r.cell, ns);
      u := Rooted(w, n);
    } else if r.cell == LeafCell(zero) {
      SetCell(n, LeafCell(zero), ns);
      u := LeafTree(n, zero);
    } else if r.cell == LeafCell(unit) {
      SetCell(n, l.cell, ns);
      u := Rooted(v, n);
    }
  }

  lemma OutsideSame(h: Cells, s: set<Node>)
    ensures Outside(h, h, s)
  {
  }

  /** `expr_trans_bool`. */
  method TransBool(n: Node, ghost t: Tree, ghost ns: set<Node>) returns (ghost u: Tree)
    requires Built(CellsOf(ns), t) && t.node == n
    modifies Nodes(t)
    ensures Built(CellsOf(ns), u) && u.node == n && Nodes(u) <= Nodes(t)
    ensures Outside(old(CellsOf(ns)), CellsOf(ns), Nodes(t))
    ensures ExprOf(u) == T.TransBool(ExprOf(t))
    decreases t
  {
    hide Outside;
    ghost var h := CellsOf(ns);
    BuiltKeys(h, t);
    OutsideSame(h, Nodes(t));
    u := t;
    if n.cell.BinCell? {
      var op, l, r := n.cell.op, n.cell.lhs, n.cell.rhs;
      ghost var v := TransBool(l, t.lhs, ns);
      ghost var h1 := CellsOf(ns);
      FirstDone(h, h1, t);
      ghost var w := TransBool(r, t.rhs, ns);
      OperandsDone(h, h1, CellsOf(ns), t, v, w);
      u := BinTree(n, op, v, w);
    } else if n.cell.NotCell? {
      ghost var v := TransBool(n.cell.arg, t.arg, ns);
      ArgDone(h, CellsOf(ns), t, v);
      u := NotTree(n, v);
    } else if n.cell.CmpCell? {
      var s := n.cell.left;
      if !n.cell.equal && s.IsTristate() && n.cell.right == SymbolNo {
        SetCell(n, LeafCell(s), ns);
        u := LeafTree(n, s);
        OutsideOne(h, n, LeafCell(s), Nodes(t));
      }
    }
  }

  lemma ArgDone(h: Cells, h1: Cells, t: Tree, v: Tree)
    requires Built(h, t) && t.NotTree?
    requires Outside(h, h1, Nodes(t.arg)) && Built(h1, v) && v.node == t.arg.node && Nodes(v) <= Nodes(t.arg)
    ensures Built(h1, NotTree(t.node, v)) && Nodes(NotTree(t.node, v)) <= Nodes(t) && Outside(h, h1, Nodes(t))
  {
    OutsideTwice(h, h1, h1, Nodes(t.arg), {}, Nodes(t));
  }

  lemma OutsideOne(h: Cells, n: Node, c: Cell, s: set<Node>)
    requires n in h && n in s
    ensures Outside(h, h[n := c], s)
  {
  }

  /* ----- allocation ----- */

  /** `expr_alloc_symbol`, `expr_alloc_one` and `expr_alloc_two`. */
  method Alloc(c: Cell, ghost ns: set<Node>) returns (m: Node, ghost ms: set<Node>)
    ensures fresh(m) && m !in ns && ms == ns + {m} && m.cell == c
    ensures CellsOf(ms) == old(CellsOf(ns))[m := c]
  {
    m := new Node(c);
    ms := ns + {m};
  }

  lemma OutsideNew(h: Cells, m: Node, c: Cell)
    requires m !in h
    ensures Outside(h, h[m := c], {})
  {
  }

  /** A tree that was there before is there after nodes have been added. */
  lemma BuiltLater(h: Cells, h': Cells, t: Tree)
    requires Built(h, t) && Outside(h, h', {})
    ensures Built(h', t)
  {
    BuiltFrame(h, h', t, {});
  }

  /** `expr_copy`. */
  method Copy(n: Node, ghost t: Tree, ghost ns: set<Node>) returns (m: Node, ghost u: Tree, ghost ms: set<Node>)
    requires Built(CellsOf(ns), t) && t.node == n
    ensures Built(CellsOf(ms), u) && u.node == m && ns <= ms && fresh(ms - ns) && Nodes(u) <= ms - ns
    ensures Outside(old(CellsOf(ns)), CellsOf(ms), {})
    ensures ExprOf(u) == ExprOf(t)
    decreases t
  {
    hide Outside;
    ghost var h := CellsOf(ns);
    if n.cell.BinCell? {
      ghost var v, w, m1, m2;
      var op, l, r := n.cell.op, n.cell.lhs, n.cell.rhs;
      l, v, m1 := Copy(l, t.lhs, ns);
      ghost var h1 := CellsOf(m1);
      BuiltLater(h, h1, t.rhs);
      r, w, m2 := Copy(r, t.rhs, m1);
      ghost var h2 := CellsOf(m2);
      BuiltLater(h1, h2, v);
      BuiltKeys(h2, v);
      BuiltKeys(h2, w);
      m, ms := Alloc(BinCell(op, l, r), m2);
      OutsideNew(h2, m, BinCell(op, l, r));
      BuiltLater(h2, CellsOf(ms), v);
      BuiltLater(h2, CellsOf(ms), w);
      OutsideTwice(h, h1, h2, {}, {}, {});
      OutsideTwice(h, h2, CellsOf(ms), {}, {}, {});
      u := BinTree(m, op, v, w);
    } else if n.cell.NotCell? {
      ghost var v, m1;
      var a;
      a, v, m1 := Copy(n.cell.arg, t.arg, ns);
      ghost var h1 := CellsOf(m1);
      BuiltKeys(h1, v);
      m, ms := Alloc(NotCell(a), m1);
      OutsideNew(h1, m, NotCell(a));
      BuiltLater(h1, CellsOf(ms), v);
      OutsideTwice(h, h1, CellsOf(ms), {}, {}, {});
      u := NotTree(m, v);
    } else {
      m, ms := Alloc(n.cell, ns);
      OutsideNew(h, m, n.cell);
      u := Rooted(t, m);
    }
  }

  /* ----- expr_eq and expr_eliminate_eq ----- */

  /** Two trees without a common node. */
  ghost predicate Apart(h: Cells, t1: Tree, t2: Tree) {
    Built(h, t1) && Built(h, t2) && Nodes(t1) !! Nodes(t2)
  }

  /** Two slots that held `t1` and `t2` hold `u1` and `u2` now; `ms` is the nodes there are. */
  ghost predicate Replaced(h: Cells, h': Cells, t1: Tree, t2: Tree, u1: Tree, u2: Tree) {
    && Apart(h', u1, u2) && Outside(h, h', Nodes(t1) + Nodes(t2))
    && Nodes(u1) <= Nodes(t1) + (h'.Keys - h.Keys) && Nodes(u2) <= Nodes(t2) + (h'.Keys - h.Keys)
  }

  lemma ReplacedSame(h: Cells, t1: Tree, t2: Tree)
    requires Apart(h, t1, t2)
    ensures Replaced(h, h, t1, t2, t1, t2)
  {
  }

  lemma ReplacedSwap(h: Cells, h': Cells, t1: Tree, t2: Tree, u1: Tree, u2: Tree)
    requires Replaced(h, h', t1, t2, u1, u2)
    ensures Replaced(h, h', t2, t1, u2, u1)
  {
    assert Nodes(t1) + Nodes(t2) == Nodes(t2) + Nodes(t1);
  }

  lemma ReplacedTwice(h: Cells, h1: Cells, h2: Cells, t1: Tree, t2: Tree, u1: Tree, u2: Tree, w1: Tree, w2: Tree)
    requires Apart(h, t1, t2) && Replaced(h, h1, t1, t2, u1, u2) && Replaced(h1, h2, u1, u2, w1, w2)
    ensures Replaced(h, h2, t1, t2, w1, w2)
  {
    BuiltKeys(h, t1);
    BuiltKeys(h, t2);
  }

  /** After the left operand of the first tree. */
  lemma LeftDone(h: Cells, h1: Cells, t1: Tree, t2: Tree, v: Tree, v2: Tree)
    requires Apart(h, t1, t2) && t1.BinTree? && Replaced(h, h1, t1.lhs, t2, v, v2)
    ensures Apart(h1, t1.rhs, v2)
  {
    BuiltKeys(h, t1);
    BuiltKeys(h, t2);
    BuiltFrame(h, h1, t1.rhs, Nodes(t1.lhs) + Nodes(t2));
  }

  lemma LeftApart(h: Cells, t1: Tree, t2: Tree)
    requires Apart(h, t1, t2) && t1.BinTree?
    ensures Apart(h, t1.lhs, t2) && Nodes(t1.lhs) <= Nodes(t1) && Nodes(t1.rhs) <= Nodes(t1) && t1.node in Nodes(t1)
  {
  }

  /** After both operands of the first tree. */
  lemma RightDone(h: Cells, h1: Cells, h2: Cells, h3: Cells, t1: Tree, t2: Tree, v: Tree, v2: Tree, w: Tree, w2: Tree)
    requires Apart(h, t1, t2) && t1.BinTree? && Replaced(h, h1, t1.lhs, t2, v, v2)
             && Replaced(h1, h2, t1.rhs, v2, w, w2)
    requires h3 == h2[t1.node := BinCell(t1.op, v.node, w.node)]
    ensures Replaced(h, h3, t1, t2, BinTree(t1.node, t1.op, v, w), w2)
  {
    BuiltKeys(h, t1);
    BuiltKeys(h, t2);
    BuiltKeys(h1, v);
    BuiltKeys(h1, v2);
    BuiltFrame(h1, h2, v, Nodes(t1.rhs) + Nodes(v2));
    assert Outside(h2, h3, {t1.node});
    BuiltFrame(h2, h3, v, {t1.node});
    BuiltFrame(h2, h3, w, {t1.node});
    BuiltFrame(h2, h3, w2, {t1.node});
  }

  lemma RootOp(h: Cells, t: Tree, op: Op)
    requires Built(h, t)
    ensures h[t.node].BinCell? && h[t.node].op == op <==> IsBin(op, ExprOf(t))
    ensures h[t.node].BinCell? ==> t.BinTree? && h[t.node] == BinCell(t.op, t.lhs.node, t.rhs.node)
    ensures h[t.node].NotCell? ==> t.NotTree? && h[t.node] == NotCell(t.arg.node) && Built(h, t.arg)
    ensures h[t.node].LeafCell? ==> t.LeafTree? && h[t.node] == LeafCell(t.sym)
    ensures h[t.node].CmpCell? ==> t.CmpTree? && h[t.node] == CmpCell(t.equal, t.left, t.right)
  {
  }

  lemma ReplacedApart(h: Cells, h': Cells, t1: Tree, t2: Tree, u1: Tree, u2: Tree)
    requires Replaced(h, h', t1, t2, u1, u2)
    ensures Apart(h', u1, u2) && Built(h', u1) && Built(h', u2)
    ensures Nodes(u1) <= Nodes(t1) + (h'.Keys - h.Keys) && Nodes(u2) <= Nodes(t2) + (h'.Keys - h.Keys)
  {
  }

  lemma ApartSwap(h: Cells, t1: Tree, t2: Tree)
    requires Apart(h, t1, t2)
    ensures Apart(h, t2, t1) && Built(h, t1) && Built(h, t2)
  {
  }

  /** `__expr_eliminate_eq`. */
  method EliminateCommon(op: Op, n1: Node, ghost t1: Tree, n2: Node, ghost t2: Tree, ghost ns: set<Node>)
    returns (m1: Node, ghost u1: Tree, m2: Node, ghost u2: Tree, ghost ms: set<Node>)
    requires Apart(CellsOf(ns), t1, t2) && t1.node == n1 && t2.node == n2
    modifies Nodes(t1) + Nodes(t2)
    ensures m1 == u1.node && m2 == u2.node && ns <= ms && fresh(ms - ns)
    ensures Replaced(old(CellsOf(ns)), CellsOf(ms), t1, t2, u1, u2)
    ensures E.Pair(ExprOf(u1), ExprOf(u2)) == E.EliminateCommon(op, ExprOf(t1), ExprOf(t2))
    decreases Size(ExprOf(t1)) + Size(ExprOf(t2)), if IsBin(op, ExprOf(t1)) || IsBin(op, ExprOf(t2)) then 1 else 7
  {
    hide Outside, Replaced, Apart, Built, Nodes;
    ghost var h := CellsOf(ns);
    ApartSwap(h, t1, t2);
    RootOp(h, t1, op);
    RootOp(h, t2, op);
    if n1.cell.BinCell? && n1.cell.op == op {
      m1, u1, m2, u2, ms := CommonOfFirst(op, n1, t1, n2, t2, ns);
    } else if n2.cell.BinCell? && n2.cell.op == op {
      m1, u1, m2, u2, ms := CommonOfSecond(op, n1, t1, n2, t2, ns);
    } else {
      m1, u1, m2, u2, ms := CommonOperand(op, n1, t1, n2, t2, ns);
    }
  }

  method CommonOfFirst(op: Op, n1: Node, ghost t1: Tree, n2: Node, ghost t2: Tree, ghost ns: set<Node>)
    returns (m1: Node, ghost u1: Tree, m2: Node, ghost u2: Tree, ghost ms: set<Node>)
    requires Apart(CellsOf(ns), t1, t2) && t1.node == n1 && t2.node == n2 && IsBin(op, ExprOf(t1))
    modifies Nodes(t1) + Nodes(t2)
    ensures m1 == u1.node && m2 == u2.node && ns <= ms && fresh(ms - ns)
    ensures Replaced(old(CellsOf(ns)), CellsOf(ms), t1, t2, u1, u2)
    ensures E.Pair(ExprOf(u1), ExprOf(u2)) == E.EliminateCommon(op, ExprOf(t1), ExprOf(t2))
    decreases Size(ExprOf(t1)) + Size(ExprOf(t2)), 0
  {
    hide Outside, Replaced, Apart, Built, Nodes;
    ghost var h := CellsOf(ns);
    ApartSwap(h, t1, t2);
    RootOp(h, t1, op);
    LeftApart(h, t1, t2);
    var l, r := n1.cell.lhs, n1.cell.rhs;
    ghost var v, v2, k;
    l, v, m2, v2, k := EliminateCommon(op, l, t1.lhs, n2, t2, ns);
    label Between:
    ghost var h1 := CellsOf(k);
    LeftDone(h, h1, t1, t2, v, v2);
    ReplacedApart(h, h1, t1.lhs, t2, v, v2);
    ghost var w;
    r, w, m2, u2, ms := EliminateCommon(op, r, t1.rhs, m2, v2, k);
    ghost var h2 := CellsOf(ms);
    SetCell(n1, BinCell(op, l, r), ms);
    RightDone(h, h1, h2, CellsOf(ms), t1, t2, v, v2, w, u2);
    m1, u1 := n1, BinTree(n1, op, v, w);
    assert fresh@Between(ms - k) && fresh(k - ns);
    assert fresh((ms - k) + (k - ns)) && ms - ns <= (ms - k) + (k - ns);
  }

  method CommonOfSecond(op: Op, n1: Node, ghost t1: Tree, n2: Node, ghost t2: Tree, ghost ns: set<Node>)
    returns (m1: Node, ghost u1: Tree, m2: Node, ghost u2: Tree, ghost ms: set<Node>)
    requires Apart(CellsOf(ns), t1, t2) && t1.node == n1 && t2.node == n2
    requires IsBin(op, ExprOf(t2)) && !IsBin(op, ExprOf(t1))
    modifies Nodes(t1) + Nodes(t2)
    ensures m1 == u1.node && m2 == u2.node && ns <= ms && fresh(ms - ns)
    ensures Replaced(old(CellsOf(ns)), CellsOf(ms), t1, t2, u1, u2)
    ensures E.Pair(ExprOf(u1), ExprOf(u2)) == E.EliminateCommon(op, ExprOf(t1), ExprOf(t2))
    decreases Size(ExprOf(t1)) + Size(ExprOf(t2)), 0
  {
    hide Outside, Replaced, Apart, Built, Nodes;
    ghost var h := CellsOf(ns);
    ApartSwap(h, t1, t2);
    RootOp(h, t2, op);
    LeftApart(h, t2, t1);
    ApartSwap(h, t2.lhs, t1);
    var l, r := n2.cell.lhs, n2.cell.rhs;
    ghost var v, v1, k;
    m1, v1, l, v, k := EliminateCommon(op, n1, t1, l, t2.lhs, ns);
    label Between:
    ghost var h1 := CellsOf(k);
    ReplacedSwap(h, h1, t1, t2.lhs, v1, v);
    LeftDone(h, h1, t2, t1, v, v1);
    ReplacedApart(h, h1, t1, t2.lhs, v1, v);
    ApartSwap(h1, t2.rhs, v1);
    ghost var w;
    m1, u1, r, w, ms := EliminateCommon(op, m1, v1, r, t2.rhs, k);
    ghost var h2 := CellsOf(ms);
    SetCell(n2, BinCell(op, l, r), ms);
    ReplacedSwap(h1, h2, v1, t2.rhs, u1, w);
    RightDone(h, h1, h2, CellsOf(ms), t2, t1, v, v1, w, u1);
    m2, u2 := n2, BinTree(n2, op, v, w);
    ReplacedSwap(h, CellsOf(ms), t2, t1, u2, u1);
    assert fresh@Between(ms - k) && fresh(k - ns);
    assert fresh((ms - k) + (k - ns)) && ms - ns <= (ms - k) + (k - ns);
  }

  /** Two operands: if they are equal, both slots get the unit. */
  method CommonOperand(op: Op, n1: Node, ghost t1: Tree, n2: Node, ghost t2: Tree, ghost ns: set<Node>)
    returns (m1: Node, ghost u1: Tree, m2: Node, ghost u2: Tree, ghost ms: set<Node>)
    requires Apart(CellsOf(ns), t1, t2) && t1.node == n1 && t2.node == n2
    requires !IsBin(op, ExprOf(t1)) && !IsBin(op, ExprOf(t2))
    ensures m1 == u1.node && m2 == u2.node && ns <= ms && fresh(ms - ns)
    ensures Replaced(old(CellsOf(ns)), CellsOf(ms), t1, t2, u1, u2)
    ensures E.Pair(ExprOf(u1), ExprOf(u2)) == E.EliminateCommon(op, ExprOf(t1), ExprOf(t2))
    decreases Size(ExprOf(t1)) + Size(ExprOf(t2)), 6
  {
    hide Outside, Replaced, Apart, Built, Nodes;
    ghost var h := CellsOf(ns);
    ApartSwap(h, t1, t2);
    ReplacedSame(h, t1, t2);
    RootCell(h, t1, SymbolYes);
    RootCell(h, t1, SymbolNo);
    RootCell(h, t2, SymbolYes);
    RootCell(h, t2, SymbolNo);
    RootOp(h, t1, op);
    RootOp(h, t2, op);
    m1, u1, m2, u2, ms := n1, t1, n2, t2, ns;
    if n1.cell.LeafCell? && n2.cell == n1.cell && (n1.cell.sym == SymbolYes || n1.cell.sym == SymbolNo) {
      return;
    }
    var eq := ExprEq(n1, t1, n2, t2, ns);
    if eq {
      var unit := ConstOf(op.Unit());
      ghost var k;
      m1, k := Alloc(LeafCell(unit), ns);
      m2, ms := Alloc(LeafCell(unit), k);
      u1, u2 := LeafTree(m1, unit), LeafTree(m2, unit);
      NewSlots(h, CellsOf(ms), t1, t2, m1, m2, unit);
    }
  }

  lemma NewSlots(h: Cells, h': Cells, t1: Tree, t2: Tree, m1: Node, m2: Node, s: Symbol)
    requires m1 !in h && m2 !in h && m1 != m2 && h' == h[m1 := LeafCell(s)][m2 := LeafCell(s)]
    ensures Replaced(h, h', t1, t2, LeafTree(m1, s), LeafTree(m2, s))
  {
  }

  /** `expr_eliminate_eq`. */
  method EliminateEq(n1: Node, ghost t1: Tree, n2: Node, ghost t2: Tree, ghost ns: set<Node>)
    returns (m1: Node, ghost u1: Tree, m2: Node, ghost u2: Tree, ghost ms: set<Node>)
    requires Apart(CellsOf(ns), t1, t2) && t1.node == n1 && t2.node == n2
    modifies Nodes(t1) + Nodes(t2)
    ensures m1 == u1.node && m2 == u2.node && ns <= ms && fresh(ms - ns)
    ensures Replaced(old(CellsOf(ns)), CellsOf(ms), t1, t2, u1, u2)
    ensures E.Pair(ExprOf(u1), ExprOf(u2)) == E.EliminateEq(ExprOf(t1), ExprOf(t2))
    decreases Size(ExprOf(t1)) + Size(ExprOf(t2)), 4
  {
    hide Outside, Replaced, Apart, Built, Nodes;
    ghost var h := CellsOf(ns);
    ApartSwap(h, t1, t2);
    ReplacedSame(h, t1, t2);
    RootShape(h, t1);
    m1, u1, m2, u2, ms := n1, t1, n2, t2, ns;
    if n1.cell.BinCell? {
      m1, u1, m2, u2, ms := EliminateCommon(n1.cell.op, n1, t1, n2, t2, ns);
    }
    ghost var h1, k, v1, v2 := CellsOf(ms), ms, u1, u2;
    ReplacedApart(h, h1, t1, t2, v1, v2);
    RootShape(h1, v1);
    RootShape(h1, v2);
    ReplacedSame(h1, v1, v2);
    if m2.cell.BinCell? && !(m1.cell.BinCell? && m1.cell.op == m2.cell.op) {
      m1, u1, m2, u2, ms := EliminateCommon(m2.cell.op, m1, v1, m2, v2, k);
    }
    ghost var h2 := CellsOf(ms);
    ReplacedTwice(h, h1, h2, t1, t2, v1, v2, u1, u2);
    ReplacedApart(h, h2, t1, t2, u1, u2);
    ghost var w1 := EliminateYn(m1, u1, ms);
    ghost var h3 := CellsOf(ms);
    FirstReduced(h2, h3, u1, u2, w1);
    ghost var w2 := EliminateYn(m2, u2, ms);
    BothReduced(h2, h3, CellsOf(ms), u1, u2, w1, w2);
    ReplacedTwice(h, h2, CellsOf(ms), t1, t2, u1, u2, w1, w2);
    u1, u2 := w1, w2;
  }

  lemma RootShape(h: Cells, t: Tree)
    requires Built(h, t)
    ensures h[t.node].BinCell? <==> ExprOf(t).Bin?
    ensures h[t.node].BinCell? ==> h[t.node].op == ExprOf(t).op
  {
  }

  lemma FirstReduced(h: Cells, h1: Cells, u1: Tree, u2: Tree, w1: Tree)
    requires Apart(h, u1, u2) && Outside(h, h1, Nodes(u1)) && Built(h1, w1) && Nodes(w1) <= Nodes(u1)
    ensures Built(h1, u2)
  {
    BuiltFrame(h, h1, u2, Nodes(u1));
  }

  lemma BothReduced(h: Cells, h1: Cells, h2: Cells, u1: Tree, u2: Tree, w1: Tree, w2: Tree)
    requires Apart(h, u1, u2)
    requires Outside(h, h1, Nodes(u1)) && Built(h1, w1) && Nodes(w1) <= Nodes(u1)
    requires Outside(h1, h2, Nodes(u2)) && Built(h2, w2) && Nodes(w2) <= Nodes(u2)
    ensures Replaced(h, h2, u1, u2, w1, w2)
  {
    BuiltFrame(h1, h2, w1, Nodes(u2));
  }

  /** `expr_eq`: compares copies, and leaves the originals alone. */
  method ExprEq(n1: Node, ghost t1: Tree, n2: Node, ghost t2: Tree, ghost ns: set<Node>) returns (eq: bool)
    requires Built(CellsOf(ns), t1) && t1.node == n1 && Built(CellsOf(ns), t2) && t2.node == n2
    ensures CellsOf(ns) == old(CellsOf(ns))
    ensures eq == E.ExprEq(ExprOf(t1), ExprOf(t2))
    decreases Size(ExprOf(t1)) + Size(ExprOf(t2)), 5
  {
    hide Outside, Replaced, Built, Nodes;
    ghost var h := CellsOf(ns);
    RootOp(h, t1, And);
    RootOp(h, t2, And);
    if n1.cell.BinCell? {
      if !n2.cell.BinCell? || n1.cell.op != n2.cell.op {
        return false;
      }
      ghost var v1, v2, k1, k2;
      var c1, c2;
      c1, v1, k1 := Copy(n1, t1, ns);
      ghost var h1 := CellsOf(k1);
      BuiltLater(h, h1, t2);
      c2, v2, k2 := Copy(n2, t2, k1);
      ghost var h2 := CellsOf(k2);
      BuiltKeys(h1, v1);
      BuiltLater(h1, h2, v1);
      ghost var w1, w2, ms;
      c1, w1, c2, w2, ms := EliminateEq(c1, v1, c2, v2, k2);
      ReplacedApart(h2, CellsOf(ms), v1, v2, w1, w2);
      LeavesEqual(CellsOf(ms), w1, w2);
      eq := c1.cell.LeafCell? && c2.cell == c1.cell;
    } else if n1.cell.NotCell? {
      if !n2.cell.NotCell? {
        return false;
      }
      eq := ExprEq(n1.cell.arg, t1.arg, n2.cell.arg, t2.arg, ns);
    } else {
      eq := n1.cell == n2.cell;
    }
  }

  lemma LeavesEqual(h: Cells, t1: Tree, t2: Tree)
    requires Built(h, t1) && Built(h, t2)
    ensures h[t1.node].LeafCell? && h[t2.node] == h[t1.node] <==> ExprOf(t1).Leaf? && ExprOf(t1) == ExprOf(t2)
  {
  }

  /* ----- expr_transform ----- */

  /** A slot that held `t` holds `u` now. */
  ghost predicate Rewritten(h: Cells, h': Cells, t: Tree, u: Tree) {
    Built(h', u) && Outside(h, h', Nodes(t)) && Nodes(u) <= Nodes(t) + (h'.Keys - h.Keys)
  }

  lemma RewrittenSame(h: Cells, t: Tree)
    requires Built(h, t)
    ensures Rewritten(h, h, t, t)
  {
  }

  lemma RewrittenTwice(h: Cells, h1: Cells, h2: Cells, t: Tree, u: Tree, v: Tree)
    requires Built(h, t) && Rewritten(h, h1, t, u) && Rewritten(h1, h2, u, v)
    ensures Rewritten(h, h2, t, v)
  {
    BuiltKeys(h, t);
  }

  /** `expr_transform`. */
  method Transform(n: Node, ghost t: Tree, ghost ns: set<Node>) returns (m: Node, ghost u: Tree, ghost ms: set<Node>)
    requires Built(CellsOf(ns), t) && t.node == n
    modifies Nodes(t)
    ensures m == u.node && ns <= ms && fresh(ms - ns)
    ensures Rewritten(old(CellsOf(ns)), CellsOf(ms), t, u)
    ensures ExprOf(u) == T.Transform(ExprOf(t))
    decreases T.Weight(ExprOf(t)), 2
  {
    hide Outside, Rewritten, Built, Nodes;
    ghost var h := CellsOf(ns);
    RootOp(h, t, And);
    RewrittenSame(h, t);
    NotParts(h, t);
    if n.cell.BinCell? {
      m, u, ms := TransformBin(n, t, ns);
    } else if n.cell.NotCell? {
      m, u, ms := TransformNot(n, t, ns);
    } else if n.cell.CmpCell? {
      m, u, ms := TransformCmp(n, t, ns);
    } else {
      m, u, ms := n, t, ns;
    }
  }

  method TransformCmp(n: Node, ghost t: Tree, ghost ns: set<Node>) returns (m: Node, ghost u: Tree, ghost ms: set<Node>)
    requires Built(CellsOf(ns), t) && t.node == n && t.CmpTree?
    modifies n
    ensures m == u.node && ns <= ms && fresh(ms - ns)
    ensures Rewritten(old(CellsOf(ns)), CellsOf(ms), t, u)
    ensures ExprOf(u) == T.TransformCmp(t.equal, t.left, t.right)
  {
    ghost var h := CellsOf(ns);
    var equal, s, c := n.cell.equal, n.cell.left, n.cell.right;
    m, u, ms := n, t, ns;
    if !s.IsBool() {
      return;
    }
    if c == SymbolMod {
      var sym := if equal then SymbolNo else SymbolYes;
      SetCell(n, LeafCell(sym), ns);
      u := LeafTree(n, sym);
    } else if (c == SymbolYes && equal) || (c == SymbolNo && !equal) {
      SetCell(n, LeafCell(s), ns);
      u := LeafTree(n, s);
    } else if c == SymbolYes || c == SymbolNo {
      var leaf;
      leaf, ms := Alloc(LeafCell(s), ns);
      SetCell(n, NotCell(leaf), ms);
      u := NotTree(n, LeafTree(leaf, s));
    }
  }

  method TransformBin(n: Node, ghost t: Tree, ghost ns: set<Node>) returns (m: Node, ghost u: Tree, ghost ms: set<Node>)
    requires Built(CellsOf(ns), t) && t.node == n && t.BinTree?
    modifies Nodes(t)
    ensures m == u.node && ns <= ms && fresh(ms - ns)
    ensures Rewritten(old(CellsOf(ns)), CellsOf(ms), t, u)
    ensures ExprOf(u) == Bin(t.op, T.Transform(ExprOf(t.lhs)), T.Transform(ExprOf(t.rhs)))
    decreases T.Weight(ExprOf(t)), 1
  {
    hide Outside, Rewritten, Built, Nodes;
    ghost var h := CellsOf(ns);
    RootOp(h, t, t.op);
    BinParts(h, t);
    var op, l, r := n.cell.op, n.cell.lhs, n.cell.rhs;
    ghost var v, w, k;
    l, v, k := Transform(l, t.lhs, ns);
    ghost var h1 := CellsOf(k);
    LeftRewritten(h, h1, t, v);
    r, w, ms := Transform(r, t.rhs, k);
    ghost var h2 := CellsOf(ms);
    SetCell(n, BinCell(op, l, r), ms);
    BothRewritten(h, h1, h2, CellsOf(ms), t, v, w);
    m, u := n, BinTree(n, op, v, w);
  }

  lemma BinParts(h: Cells, t: Tree)
    requires Built(h, t) && t.BinTree?
    ensures Built(h, t.lhs) && Built(h, t.rhs) && Nodes(t.lhs) <= Nodes(t) && Nodes(t.rhs) <= Nodes(t)
             && t.node in Nodes(t)
  {
  }

  lemma LeftRewritten(h: Cells, h1: Cells, t: Tree, v: Tree)
    requires Built(h, t) && t.BinTree? && Rewritten(h, h1, t.lhs, v)
    ensures Built(h1, t.rhs) && h.Keys <= h1.Keys && t.node in h1
  {
    BuiltFrame(h, h1, t.rhs, Nodes(t.lhs));
  }

  lemma BothRewritten(h: Cells, h1: Cells, h2: Cells, h3: Cells, t: Tree, v: Tree, w: Tree)
    requires Built(h, t) && t.BinTree? && Rewritten(h, h1, t.lhs, v) && Rewritten(h1, h2, t.rhs, w)
    requires h3 == h2[t.node := BinCell(t.op, v.node, w.node)]
    ensures Rewritten(h, h3, t, BinTree(t.node, t.op, v, w))
  {
    BuiltKeys(h, t);
    BuiltKeys(h1, v);
    BuiltFrame(h1, h2, v, Nodes(t.rhs));
    assert Outside(h2, h3, {t.node});
    BuiltFrame(h2, h3, v, {t.node});
    BuiltFrame(h2, h3, w, {t.node});
  }

  /** The negation of what the operand has become. */
  method TransformNot(n: Node, ghost t: Tree, ghost ns: set<Node>) returns (m: Node, ghost u: Tree, ghost ms: set<Node>)
    requires Built(CellsOf(ns), t) && t.node == n && t.NotTree?
    modifies Nodes(t)
    ensures m == u.node && ns <= ms && fresh(ms - ns)
    ensures Rewritten(old(CellsOf(ns)), CellsOf(ms), t, u)
    ensures ExprOf(u) == T.Transform(ExprOf(t))
    decreases T.Weight(ExprOf(t)), 1
  {
    hide Outside, Rewritten, Built, Nodes;
    ghost var h := CellsOf(ns);
    RootOp(h, t, And);
    NotParts(h, t);
    var a := n.cell.arg;
    ghost var v, k;
    a, v, k := Transform(a, t.arg, ns);
    ghost var h1 := CellsOf(k);
    ArgRewritten(h, h1, t, v);
    RootOp(h1, v, And);
    NotParts(h1, v);
    if a.cell.NotCell? {
      m, u, ms := Transform(a.cell.arg, v.arg, k);
      InnerRewritten(h, h1, CellsOf(ms), t, v, u);
    } else if a.cell.CmpCell? {
      ghost var c := CmpCell(!v.equal, v.left, v.right);
      SetCell(a, CmpCell(!a.cell.equal, a.cell.left, a.cell.right), k);
      m, u, ms := a, CmpTree(a, !v.equal, v.left, v.right), k;
      RootRewritten(h, h1, CellsOf(ms), t, v, u);
    } else if a.cell.BinCell? {
      var b;
      b, ms := Distribute(n, a, v, k);
      ghost var h2, w := CellsOf(ms), DistributedTree(n, v, b);
      Distributed(h, h1, h2, t, v, b);
      m, u, ms := Transform(n, w, ms);
      RewrittenTwice(h, h2, CellsOf(ms), t, w, u);
    } else if a.cell.sym == SymbolYes || a.cell.sym == SymbolMod || a.cell.sym == SymbolNo {
      var s := if a.cell.sym == SymbolYes then SymbolNo else if a.cell.sym == SymbolNo then SymbolYes else SymbolMod;
      SetCell(a, LeafCell(s), k);
      m, u, ms := a, LeafTree(a, s), k;
      RootRewritten(h, h1, CellsOf(ms), t, v, u);
    } else {
      SetCell(n, NotCell(a), k);
      m, u, ms := n, NotTree(n, v), k;
      StaysNegated(h, h1, CellsOf(ms), t, v);
    }
  }

  lemma NotParts(h: Cells, t: Tree)
    requires Built(h, t)
    ensures t.node in Nodes(t) && Nodes(t) <= h.Keys
    ensures t.NotTree? ==> Built(h, t.arg) && Nodes(t.arg) <= Nodes(t)
  {
    BuiltKeys(h, t);
  }

  lemma ArgRewritten(h: Cells, h1: Cells, t: Tree, v: Tree)
    requires Built(h, t) && t.NotTree? && Rewritten(h, h1, t.arg, v)
    ensures Built(h1, v) && h.Keys <= h1.Keys && t.node in h1 && t.node !in Nodes(v)
    ensures Nodes(v) <= Nodes(t) + (h1.Keys - h.Keys)
  {
    BuiltKeys(h, t);
  }

  lemma InnerRewritten(h: Cells, h1: Cells, h2: Cells, t: Tree, v: Tree, u: Tree)
    requires Built(h, t) && t.NotTree? && Rewritten(h, h1, t.arg, v) && v.NotTree? && Rewritten(h1, h2, v.arg, u)
    ensures Rewritten(h, h2, t, u)
  {
    BuiltKeys(h, t);
  }

  /** The root of the rewritten operand gets other contents. */
  lemma RootRewritten(h: Cells, h1: Cells, h2: Cells, t: Tree, v: Tree, u: Tree)
    requires Built(h, t) && t.NotTree? && Rewritten(h, h1, t.arg, v)
    requires u.node == v.node && (u.LeafTree? || u.CmpTree?) && v.node in h1
    requires h2 == h1[v.node := if u.LeafTree? then LeafCell(u.sym) else CmpCell(u.equal, u.left, u.right)]
    ensures Rewritten(h, h2, t, u)
  {
    BuiltKeys(h, t);
    BuiltKeys(h1, v);
  }

  lemma StaysNegated(h: Cells, h1: Cells, h2: Cells, t: Tree, v: Tree)
    requires Built(h, t) && t.NotTree? && Rewritten(h, h1, t.arg, v) && h2 == h1[t.node := NotCell(v.node)]
    ensures Rewritten(h, h2, t, NotTree(t.node, v))
  {
    BuiltKeys(h, t);
    assert Outside(h1, h2, {t.node});
    BuiltFrame(h1, h2, v, {t.node});
  }

  /** De Morgan's laws: the negation becomes the dual operator, the operator below it the
      negation of its left operand, and a new node that of its right operand. */
  function DistributedTree(n: Node, v: Tree, b: Node): Tree
    requires v.BinTree?
  {
    BinTree(n, v.op.Dual(), NotTree(v.node, v.lhs), NotTree(b, v.rhs))
  }

  method Distribute(n: Node, a: Node, ghost v: Tree, ghost ns: set<Node>) returns (b: Node, ghost ms: set<Node>)
    requires Built(CellsOf(ns), v) && v.node == a && v.BinTree? && n in ns && n !in Nodes(v)
    modifies n, a
    ensures b !in ns && ms == ns + {b} && fresh(b)
    ensures Built(CellsOf(ms), DistributedTree(n, v, b)) && Outside(old(CellsOf(ns)), CellsOf(ms), {n, b, a})
    ensures ExprOf(DistributedTree(n, v, b)) == T.Distribute(v.op, ExprOf(v.lhs), ExprOf(v.rhs))
  {
    hide Outside;
    ghost var h := CellsOf(ns);
    var op, l, r := a.cell.op, a.cell.lhs, a.cell.rhs;
    b, ms := Alloc(NotCell(r), ns);
    SetCell(a, NotCell(l), ms);
    SetCell(n, BinCell(op.Dual(), a, b), ms);
    DistributedBuilt(h, CellsOf(ms), n, v, b);
  }

  lemma DistributedBuilt(h1: Cells, h2: Cells, n: Node, v: Tree, b: Node)
    requires Built(h1, v) && v.BinTree? && n in h1 && n !in Nodes(v) && b !in h1
    requires h2 == h1[b := NotCell(v.rhs.node)][v.node := NotCell(v.lhs.node)][n := BinCell(v.op.Dual(), v.node, b)]
    ensures Built(h2, DistributedTree(n, v, b))
    ensures Outside(h1, h2, {n, b, v.node})
  {
    BuiltKeys(h1, v);
    assert Outside(h1, h2, {n, b, v.node});
    BuiltFrame(h1, h2, v.lhs, {n, b, v.node});
    BuiltFrame(h1, h2, v.rhs, {n, b, v.node});
  }

  lemma Distributed(h: Cells, h1: Cells, h2: Cells, t: Tree, v: Tree, b: Node)
    requires Built(h, t) && t.NotTree? && Rewritten(h, h1, t.arg, v) && v.BinTree? && h2.Keys == h1.Keys + {b}
             && b !in h1
    requires Built(h2, DistributedTree(t.node, v, b)) && Outside(h1, h2, {t.node, b, v.node})
    ensures Rewritten(h, h2, t, DistributedTree(t.node, v, b))
    ensures Nodes(DistributedTree(t.node, v, b)) <= Nodes(t) + (h2.Keys - h.Keys)
  {
    BuiltKeys(h, t);
    BuiltKeys(h1, v);
    hide Built;
    assert Nodes(DistributedTree(t.node, v, b)) == {t.node, b} + Nodes(v);
    assert Nodes(t) == {t.node} + Nodes(t.arg);
  }
}
