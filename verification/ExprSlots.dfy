/** Slots of an expression tree. A `struct expr **` of `expr.c` points at a slot; here it is
    the path to that slot from the root of the tree that owns it, so two pointers are the
    same exactly when the two paths are, and a write through one is seen through the other. */
module ExprSlots {
  import opened Exprs
  import opened ExprEquality

  datatype Side = Left | Right

  type Path = seq<Side>

  function Child(e: Expr, side: Side): Expr
    requires e.Bin?
  {
    if side.Left? then e.lhs else e.rhs
  }

  /** The path runs through nodes of the operator `op` only. */
  predicate InSpine(op: Op, e: Expr, p: Path) {
    p == [] || (IsBin(op, e) && InSpine(op, Child(e, p[0]), p[1..]))
  }

  function Get(op: Op, e: Expr, p: Path): (x: Expr)
    requires InSpine(op, e, p)
    ensures Size(x) <= Size(e)
    ensures p != [] ==> Size(x) < Size(e)
  {
    if p == [] then e else Get(op, Child(e, p[0]), p[1..])
  }

  function Put(op: Op, e: Expr, p: Path, x: Expr): Expr
    requires InSpine(op, e, p)
  {
    if p == [] then x
    else if p[0].Left? then Bin(op, Put(op, e.lhs, p[1..], x), e.rhs)
    else Bin(op, e.lhs, Put(op, e.rhs, p[1..], x))
  }

  /** A slot that holds an operand of the spine. */
  predicate LeafSlot(op: Op, e: Expr, p: Path) {
    InSpine(op, e, p) && !IsBin(op, Get(op, e, p))
  }

  /** The two trees have the same `op` nodes, hence the same slots. */
  predicate SameSpine(op: Op, e: Expr, r: Expr) {
    if IsBin(op, e) then IsBin(op, r) && SameSpine(op, e.lhs, r.lhs) && SameSpine(op, e.rhs, r.rhs)
    else !IsBin(op, r)
  }

  lemma {:induction false} SameSpineRefl(op: Op, e: Expr)
    ensures SameSpine(op, e, e)
  {
    if IsBin(op, e) {
      SameSpineRefl(op, e.lhs);
      SameSpineRefl(op, e.rhs);
    }
  }

  lemma {:induction false} SameSpineTrans(op: Op, a: Expr, b: Expr, c: Expr)
    requires SameSpine(op, a, b) && SameSpine(op, b, c)
    ensures SameSpine(op, a, c)
  {
    if IsBin(op, a) {
      SameSpineTrans(op, a.lhs, b.lhs, c.lhs);
      SameSpineTrans(op, a.rhs, b.rhs, c.rhs);
    }
  }

  lemma {:induction false} SameSpineSlot(op: Op, e: Expr, r: Expr, p: Path)
    requires SameSpine(op, e, r) && InSpine(op, e, p)
    ensures InSpine(op, r, p)
    ensures SameSpine(op, Get(op, e, p), Get(op, r, p))
  {
    if p != [] {
      SameSpineSlot(op, Child(e, p[0]), Child(r, p[0]), p[1..]);
    }
  }

  lemma {:induction false} SameSpineSize(op: Op, e: Expr, r: Expr)
    requires SameSpine(op, e, r)
    ensures Spine(op, e) == Spine(op, r)
  {
    if IsBin(op, e) {
      SameSpineSize(op, e.lhs, r.lhs);
      SameSpineSize(op, e.rhs, r.rhs);
    }
  }

  lemma {:induction false} ExtendSlot(op: Op, e: Expr, p: Path, side: Side)
    requires InSpine(op, e, p) && IsBin(op, Get(op, e, p))
    ensures InSpine(op, e, p + [side])
    ensures Get(op, e, p + [side]) == Child(Get(op, e, p), side)
  {
    if p != [] {
      ExtendSlot(op, Child(e, p[0]), p[1..], side);
      assert (p + [side])[1..] == p[1..] + [side];
    }
  }

  /** A slot strictly below `p` is below one of the two children of `p`. */
  lemma BelowSlot(p: Path, q: Path)
    requires p < q
    ensures p + [Left] <= q || p + [Right] <= q
  {
    assert q[..|p| + 1] == p + [q[|p|]];
    assert q[|p|] == Left || q[|p|] == Right;
  }

  /** Two leaf slots are equal or neither contains the other. */
  lemma {:induction false} LeafSlotsApart(op: Op, e: Expr, p: Path, q: Path)
    requires LeafSlot(op, e, p) && InSpine(op, e, q) && p <= q
    ensures p == q
  {
    if p != [] {
      LeafSlotsApart(op, Child(e, p[0]), p[1..], q[1..]);
    }
  }

  /* ----- writing a slot ----- */

  lemma {:induction false} PutLeaf(op: Op, e: Expr, p: Path, x: Expr)
    requires LeafSlot(op, e, p) && !IsBin(op, x)
    ensures SameSpine(op, e, Put(op, e, p, x))
    ensures InSpine(op, Put(op, e, p, x), p) && Get(op, Put(op, e, p, x), p) == x
    ensures Size(Put(op, e, p, x)) == Size(e) - Size(Get(op, e, p)) + Size(x)
    ensures Put(op, e, p, Get(op, e, p)) == e
    ensures p != [] && IsYn(x) ==> HasConstOperand(Put(op, e, p, x))
    ensures HasConstOperand(x) ==> HasConstOperand(Put(op, e, p, x))
  {
    if p != [] {
      PutLeaf(op, Child(e, p[0]), p[1..], x);
      SameSpineRefl(op, e.lhs);
      SameSpineRefl(op, e.rhs);
    }
  }

  lemma {:induction false} PutOther(op: Op, e: Expr, p: Path, x: Expr, q: Path)
    requires LeafSlot(op, e, p) && !IsBin(op, x) && LeafSlot(op, e, q) && p != q
    ensures LeafSlot(op, Put(op, e, p, x), q)
    ensures Get(op, Put(op, e, p, x), q) == Get(op, e, q)
  {
    if p != [] && q != [] && p[0] == q[0] {
      assert p[1..] != q[1..];
      PutOther(op, Child(e, p[0]), p[1..], x, q[1..]);
    }
  }

  /** The value of a tree is the value of any operand combined with the value of the rest. */
  lemma {:induction false} PutValue(op: Op, e: Expr, p: Path, x: Expr, env: Env)
    requires InSpine(op, e, p) && Grounded(env)
    ensures Eval(Put(op, e, p, x), env) == op.Apply(Eval(x, env), Eval(Put(op, e, p, UnitLeaf(op)), env))
  {
    assert Eval(UnitLeaf(op), env) == op.Unit();
    if p != [] {
      PutValue(op, Child(e, p[0]), p[1..], x, env);
      var rest := Eval(Put(op, Child(e, p[0]), p[1..], UnitLeaf(op)), env);
      var other := Eval(if p[0].Left? then e.rhs else e.lhs, env);
      Regroup(op, Eval(x, env), other, rest, other);
      Commute(op, Eval(x, env), rest, other);
    }
  }

  lemma Commute(op: Op, x: Tristate, rest: Tristate, other: Tristate)
    ensures op.Apply(op.Apply(x, rest), other) == op.Apply(x, op.Apply(rest, other))
    ensures op.Apply(other, op.Apply(x, rest)) == op.Apply(x, op.Apply(other, rest))
  {
  }

  /** Replacing two different operands `a` and `b` by the unit and by a term with the value
      of their combination leaves the value of the tree unchanged. */
  lemma {:induction false} MergeValue(op: Op, e: Expr, p: Path, q: Path, t: Expr, env: Env)
    requires LeafSlot(op, e, p) && LeafSlot(op, e, q) && p != q && !IsBin(op, t)
    requires Grounded(env)
    requires Eval(t, env) == op.Apply(Eval(Get(op, e, p), env), Eval(Get(op, e, q), env))
    ensures InSpine(op, Put(op, e, p, UnitLeaf(op)), q)
    ensures Eval(Put(op, Put(op, e, p, UnitLeaf(op)), q, t), env) == Eval(e, env)
  {
    var a, b := Eval(Get(op, e, p), env), Eval(Get(op, e, q), env);
    var e' := Put(op, e, p, UnitLeaf(op));
    PutLeaf(op, e, p, UnitLeaf(op));
    PutOther(op, e, p, UnitLeaf(op), q);
    PutLeaf(op, e', q, t);
    PutValue(op, e', q, t, env);
    PutValue(op, e', q, Get(op, e, q), env);
    PutValue(op, e, p, Get(op, e, p), env);
    var rest := Eval(Put(op, e', q, UnitLeaf(op)), env);
    Regroup(op, a, b, rest, rest);
  }

  /** An operand, or a group of operands, bounds the value of the tree. */
  lemma {:induction false} SlotAbsorbs(op: Op, e: Expr, p: Path, env: Env)
    requires InSpine(op, e, p)
    ensures op.Apply(Eval(Get(op, e, p), env), Eval(e, env)) == Eval(e, env)
  {
    if p != [] {
      SlotAbsorbs(op, Child(e, p[0]), p[1..], env);
    }
  }
}
