/** `expr_eliminate_dups`: the fixpoint loop over two passes that compare every operand of an
    and (or an or) with every other one, both walking the same tree through two pointers. */
module ExprDuplicates {
  import opened Exprs
  import opened ExprEquality
  import opened ExprTransformation
  import opened ExprJoin
  import opened ExprSlots

  /* ----- what the passes preserve ----- */

  ghost predicate Equivalent(a: Expr, b: Expr) {
    forall env: Env :: WellFormed(env) ==> Eval(a, env) == Eval(b, env)
  }

  /** `b` has the value of `a` wherever `a` is not m. */
  ghost predicate EquivalentUnlessMod(a: Expr, b: Expr) {
    forall env: Env :: WellFormed(env) && Eval(a, env) != MOD ==> Eval(b, env) == Eval(a, env)
  }

  /* ----- what the passes leave behind when they change nothing ----- */

  /** The operands at `p` and `q` admit no rule of `expr_join_or` or `expr_join_and`, and the
      one at `p` is itself fully joined. */
  ghost predicate PairJoined(op: Op, e: Expr, p: Path, q: Path)
    requires LeafSlot(op, e, p) && LeafSlot(op, e, q)
    decreases Size(Get(op, e, p)), 1
  {
    Join(op, Get(op, e, p), Get(op, e, q)).None? && Joined(Get(op, e, p))
  }

  /** No two operands, at any level outside negations, can be joined. */
  ghost predicate Joined(e: Expr)
    decreases Size(e), 0
  {
    e.Bin? ==>
      forall p: Path, q: Path ::
        LeafSlot(e.op, e, p) && LeafSlot(e.op, e, q) && p != q && p != [] ==> PairJoined(e.op, e, p, q)
  }

  /** The same for the operands below two given slots. */
  ghost predicate JoinedBelow(op: Op, e: Expr, p1: Path, p2: Path) {
    forall p: Path, q: Path ::
      LeafSlot(op, e, p) && LeafSlot(op, e, q) && p1 <= p && p2 <= q && p != q ==> PairJoined(op, e, p, q)
  }

  lemma JoinedSplitFirst(op: Op, e: Expr, p1: Path, p2: Path)
    requires InSpine(op, e, p1) && IsBin(op, Get(op, e, p1))
    ensures JoinedBelow(op, e, p1, p2)
            <==> JoinedBelow(op, e, p1 + [Left], p2) && JoinedBelow(op, e, p1 + [Right], p2)
  {
    hide PairJoined;
    if JoinedBelow(op, e, p1 + [Left], p2) && JoinedBelow(op, e, p1 + [Right], p2) {
      forall p: Path, q: Path | LeafSlot(op, e, p) && LeafSlot(op, e, q) && p1 <= p && p2 <= q && p != q
        ensures PairJoined(op, e, p, q)
      {
        assert p1 != p;
        BelowSlot(p1, p);
      }
    }
  }

  lemma JoinedSplitSecond(op: Op, e: Expr, p1: Path, p2: Path)
    requires InSpine(op, e, p2) && IsBin(op, Get(op, e, p2))
    ensures JoinedBelow(op, e, p1, p2)
            <==> JoinedBelow(op, e, p1, p2 + [Left]) && JoinedBelow(op, e, p1, p2 + [Right])
  {
    hide PairJoined;
    if JoinedBelow(op, e, p1, p2 + [Left]) && JoinedBelow(op, e, p1, p2 + [Right]) {
      forall p: Path, q: Path | LeafSlot(op, e, p) && LeafSlot(op, e, q) && p1 <= p && p2 <= q && p != q
        ensures PairJoined(op, e, p, q)
      {
        assert p2 != q;
        BelowSlot(p2, q);
      }
    }
  }

  lemma JoinedLeaves(op: Op, e: Expr, p1: Path, p2: Path)
    requires LeafSlot(op, e, p1) && LeafSlot(op, e, p2)
    ensures JoinedBelow(op, e, p1, p2) <==> (p1 != p2 ==> PairJoined(op, e, p1, p2))
  {
    hide PairJoined;
    if p1 != p2 ==> PairJoined(op, e, p1, p2) {
      forall p: Path, q: Path | LeafSlot(op, e, p) && LeafSlot(op, e, q) && p1 <= p && p2 <= q && p != q
        ensures PairJoined(op, e, p, q)
      {
        LeafSlotsApart(op, e, p1, p);
        LeafSlotsApart(op, e, p2, q);
      }
    }
  }

  /* ----- expr_eliminate_dups1 ----- */

  /** The outcome of a pass on a tree: no growth, same slots, and either nothing changed or
      there is a constant operand for `expr_eliminate_yn` to remove. */
  ghost predicate Progress(op: Op, e: Expr, r: Expr, count: nat) {
    && SameSpine(op, e, r)
    && Size(r) <= Size(e)
    && (if count == 0 then r == e else HasConstOperand(r))
  }

  lemma ProgressNone(op: Op, e: Expr)
    ensures Progress(op, e, e, 0)
  {
    SameSpineRefl(op, e);
  }

  lemma ProgressTrans(op: Op, a: Expr, b: Expr, c: Expr, m: nat, n: nat)
    requires Progress(op, a, b, m) && Progress(op, b, c, n)
    ensures Progress(op, a, c, m + n)
  {
    SameSpineTrans(op, a, b, c);
  }

  /** Rewriting an operand of another operator makes progress for the tree around it. */
  lemma ProgressInside(op: Op, e: Expr, p: Path, x: Expr, count: nat)
    requires LeafSlot(op, e, p) && Get(op, e, p).Bin?
    requires Progress(Get(op, e, p).op, Get(op, e, p), x, count)
    ensures Progress(op, e, Put(op, e, p, x), count)
  {
    PutLeaf(op, e, p, x);
  }

  lemma EquivalentInside(op: Op, e: Expr, p: Path, x: Expr)
    requires InSpine(op, e, p) && Put(op, e, p, Get(op, e, p)) == e
    requires Equivalent(Get(op, e, p), x)
    ensures Equivalent(e, Put(op, e, p, x))
  {
    forall env: Env | WellFormed(env) ensures Eval(e, env) == Eval(Put(op, e, p, x), env) {
      PutValue(op, e, p, x, env);
      PutValue(op, e, p, Get(op, e, p), env);
    }
  }

  /** Replacing two operands by the unit and their join. */
  function Merge(op: Op, e: Expr, p: Path, q: Path, t: Expr): Expr
    requires InSpine(op, e, p) && InSpine(op, Put(op, e, p, UnitLeaf(op)), q)
  {
    Put(op, Put(op, e, p, UnitLeaf(op)), q, t)
  }

  lemma MergeStep(op: Op, e: Expr, p: Path, q: Path)
    requires IsBin(op, e) && LeafSlot(op, e, p) && LeafSlot(op, e, q) && p != q
    requires Join(op, Get(op, e, p), Get(op, e, q)).Some?
    ensures InSpine(op, Put(op, e, p, UnitLeaf(op)), q)
    ensures var r := Merge(op, e, p, q, Join(op, Get(op, e, p), Get(op, e, q)).value);
            Progress(op, e, r, 1) && Equivalent(e, r)
  {
    var a, b := Get(op, e, p), Get(op, e, q);
    var t := Join(op, a, b).value;
    var e' := Put(op, e, p, UnitLeaf(op));
    PutLeaf(op, e, p, UnitLeaf(op));
    PutOther(op, e, p, UnitLeaf(op), q);
    PutLeaf(op, e', q, t);
    var r := Put(op, e', q, t);
    SameSpineTrans(op, e, e', r);
    assert HasConstOperand(r) by {
      PutOther(op, e', q, t, p);
      PutLeaf(op, r, p, UnitLeaf(op));
    }
    forall env: Env | WellFormed(env) ensures Eval(e, env) == Eval(r, env) {
      JoinExact(op, a, b, env);
      MergeValue(op, e, p, q, t, env);
    }
  }

  /** `expr_eliminate_dups1` on the slots `p1` and `p2` of one tree; at the start both are the
      root. `count` is what the pass adds to `trans_count`. */
  method EliminateDups1(op: Op, tree: Expr, p1: Path, p2: Path) returns (result: Expr, count: nat)
    requires IsBin(op, tree) && InSpine(op, tree, p1) && InSpine(op, tree, p2)
    ensures Progress(op, tree, result, count)
    ensures Equivalent(tree, result)
    ensures count == 0 <==> JoinedBelow(op, tree, p1, p2)
    decreases Size(tree), Spine(op, Get(op, tree, p1)), Spine(op, Get(op, tree, p2))
  {
    hide JoinedBelow, PairJoined, SameSpine;
    if IsBin(op, Get(op, tree, p1)) {
      ExtendSlot(op, tree, p1, Left);
      ExtendSlot(op, tree, p1, Right);
      var t, c := EliminateDups1(op, tree, p1 + [Left], p2);
      SlotsKept(op, tree, t, p1 + [Right], p2);
      var d;
      result, d := EliminateDups1(op, t, p1 + [Right], p2);
      count := c + d;
      ProgressTrans(op, tree, t, result, c, d);
      JoinedSplitFirst(op, tree, p1, p2);
    } else if IsBin(op, Get(op, tree, p2)) {
      ExtendSlot(op, tree, p2, Left);
      ExtendSlot(op, tree, p2, Right);
      var t, c := EliminateDups1(op, tree, p1, p2 + [Left]);
      SlotsKept(op, tree, t, p1, p2 + [Right]);
      var d;
      result, d := EliminateDups1(op, t, p1, p2 + [Right]);
      count := c + d;
      ProgressTrans(op, tree, t, result, c, d);
      JoinedSplitSecond(op, tree, p1, p2);
    } else if p1 == p2 {
      result, count := tree, 0;
      ProgressNone(op, tree);
      JoinedLeaves(op, tree, p1, p2);
    } else {
      result, count := EliminateDupsPair(op, tree, p1, p2);
      JoinedLeaves(op, tree, p1, p2);
    }
  }

  lemma SlotsKept(op: Op, e: Expr, r: Expr, p: Path, q: Path)
    requires SameSpine(op, e, r) && InSpine(op, e, p) && InSpine(op, e, q)
    ensures InSpine(op, r, p) && InSpine(op, r, q)
    ensures Spine(op, Get(op, r, p)) == Spine(op, Get(op, e, p))
    ensures Spine(op, Get(op, r, q)) == Spine(op, Get(op, e, q))
    ensures IsBin(op, Get(op, r, p)) == IsBin(op, Get(op, e, p))
    ensures IsBin(op, Get(op, r, q)) == IsBin(op, Get(op, e, q))
  {
    SameSpineSlot(op, e, r, p);
    SameSpineSlot(op, e, r, q);
    SameSpineSize(op, Get(op, e, p), Get(op, r, p));
    SameSpineSize(op, Get(op, e, q), Get(op, r, q));
  }

  /** The tail of `expr_eliminate_dups1`, where both slots hold operands: simplify inside the
      first one, then try to join the two. */
  method EliminateDupsPair(op: Op, tree: Expr, p1: Path, p2: Path) returns (result: Expr, count: nat)
    requires IsBin(op, tree) && LeafSlot(op, tree, p1) && LeafSlot(op, tree, p2) && p1 != p2
    ensures Progress(op, tree, result, count)
    ensures Equivalent(tree, result)
    ensures count == 0 <==> PairJoined(op, tree, p1, p2)
    decreases Size(tree), 0, 0, 0
  {
    result, count := tree, 0;
    ProgressNone(op, tree);
    var e1 := Get(op, tree, p1);
    if e1.Bin? {
      RootJoined(e1);
      var x, c := EliminateDups1(e1.op, e1, [], []);
      result, count := Put(op, tree, p1, x), c;
      ProgressInside(op, tree, p1, x, c);
      PutLeaf(op, tree, p1, x);
      EquivalentInside(op, tree, p1, x);
    }
    SlotsKept(op, tree, result, p1, p2);
    var j := Join(op, Get(op, result, p1), Get(op, result, p2));
    if j.Some? {
      ghost var before := result;
      MergeStep(op, result, p1, p2);
      result := Merge(op, result, p1, p2, j.value);
      ProgressTrans(op, tree, before, result, count, 1);
      count := count + 1;
    }
  }

  /* ----- expr_eliminate_dups2 ----- */

  /** Every operand of the negation of `e1` occurs among the operands of `e2`. */
  predicate Contradicts(op: Op, e1: Expr, e2: Expr) {
    ExtractEq(op, Transform(Not(e1)), e2).fst == UnitLeaf(op)
  }

  ghost predicate PairConsistent(op: Op, e: Expr, p: Path, q: Path)
    requires LeafSlot(op, e, p) && InSpine(op, e, q)
    decreases Size(Get(op, e, p)), 1
  {
    Get(op, e, p).Bin? ==> !Contradicts(op, Get(op, e, p), Get(op, e, q)) && Consistent(Get(op, e, p))
  }

  /** No compound operand, at any level outside negations, is contradicted by a group of
      operands beside it. */
  ghost predicate Consistent(e: Expr)
    decreases Size(e), 0
  {
    e.Bin? ==>
      forall p: Path, q: Path ::
        LeafSlot(e.op, e, p) && InSpine(e.op, e, q) && p != q && p != [] ==> PairConsistent(e.op, e, p, q)
  }

  ghost predicate ConsistentBelow(op: Op, e: Expr, p1: Path, p2: Path) {
    forall p: Path, q: Path ::
      LeafSlot(op, e, p) && InSpine(op, e, q) && p1 <= p && p2 <= q && p != q ==> PairConsistent(op, e, p, q)
  }

  lemma ConsistentSplitFirst(op: Op, e: Expr, p1: Path, p2: Path)
    requires InSpine(op, e, p1) && IsBin(op, Get(op, e, p1))
    ensures ConsistentBelow(op, e, p1, p2)
            <==> ConsistentBelow(op, e, p1 + [Left], p2) && ConsistentBelow(op, e, p1 + [Right], p2)
  {
    hide PairConsistent;
    if ConsistentBelow(op, e, p1 + [Left], p2) && ConsistentBelow(op, e, p1 + [Right], p2) {
      forall p: Path, q: Path | LeafSlot(op, e, p) && InSpine(op, e, q) && p1 <= p && p2 <= q && p != q
        ensures PairConsistent(op, e, p, q)
      {
        assert p1 != p;
        BelowSlot(p1, p);
      }
    }
  }

  lemma ConsistentSplitSecond(op: Op, e: Expr, p1: Path, p2: Path)
    requires LeafSlot(op, e, p1) && InSpine(op, e, p2)
    ensures ConsistentBelow(op, e, p1, p2) <==>
              && (p1 != p2 ==> PairConsistent(op, e, p1, p2))
              && (IsBin(op, Get(op, e, p2)) ==>
                    ConsistentBelow(op, e, p1, p2 + [Left]) && ConsistentBelow(op, e, p1, p2 + [Right]))
  {
    hide PairConsistent;
    if (p1 != p2 ==> PairConsistent(op, e, p1, p2)) && (IsBin(op, Get(op, e, p2)) ==>
         ConsistentBelow(op, e, p1, p2 + [Left]) && ConsistentBelow(op, e, p1, p2 + [Right])) {
      forall p: Path, q: Path | LeafSlot(op, e, p) && InSpine(op, e, q) && p1 <= p && p2 <= q && p != q
        ensures PairConsistent(op, e, p, q)
      {
        LeafSlotsApart(op, e, p1, p);
        if p2 != q {
          if !IsBin(op, Get(op, e, p2)) {
            LeafSlotsApart(op, e, p2, q);
          } else {
            BelowSlot(p2, q);
          }
        }
      }
    }
  }

  /** An and with two contradictory members is n unless it is m; dually for an or and y. */
  lemma Contradiction(op: Op, v: Tristate, c: Tristate, tree: Tristate)
    requires op.Apply(v, tree) == tree
    requires op.Apply(op.Apply(Negate(v), c), tree) == tree
    ensures tree == op.Zero() || tree == MOD
  {
  }

  /** Overwriting a contradicted operand by the zero of the operator keeps the value if and
      only if the value is not m. */
  lemma ContradictionExact(op: Op, e: Expr, p: Path, q: Path, env: Env)
    requires WellFormed(env)
    requires InSpine(op, e, p) && InSpine(op, e, q)
    requires Contradicts(op, Get(op, e, p), Get(op, e, q))
    ensures Eval(Put(op, e, p, ZeroLeaf(op)), env) == Eval(e, env) <==> Eval(e, env) != MOD
  {
    var e1, e2 := Get(op, e, p), Get(op, e, q);
    var x := ExtractEq(op, Transform(Not(e1)), e2);
    ExtractEqExact(op, Transform(Not(e1)), e2, env);
    TransformExact(Not(e1), env);
    SlotAbsorbs(op, e, p, env);
    SlotAbsorbs(op, e, q, env);
    assert EvalCommon(op, x.common, env) == Negate(Eval(e1, env));
    Contradiction(op, Eval(e1, env), Eval(x.snd, env), Eval(e, env));
    PutValue(op, e, p, ZeroLeaf(op), env);
    assert env.tri(ConstOf(op.Zero())) == op.Zero();
  }

  /** The m case does occur: `(a || b) && (!a && !b)` is m when `a` is m and `b` is n, and the
      second pass turns it into n. */
  lemma ContradictionOnMod(a: Symbol, b: Symbol, env: Env)
    requires WellFormed(env) && a.IsTristate() && b.IsTristate() && a != b
    requires env.tri(a) == MOD && env.tri(b) == NO
    ensures var e := Bin(And, Bin(Or, Leaf(a), Leaf(b)), Bin(And, Not(Leaf(a)), Not(Leaf(b))));
            && Contradicts(And, e.lhs, e.rhs)
            && Eval(e, env) == MOD
            && Eval(Put(And, e, [Left], ZeroLeaf(And)), env) == NO
  {
    var or := Bin(Or, Leaf(a), Leaf(b));
    var n := Bin(And, Not(Leaf(a)), Not(Leaf(b)));
    NegatedOr(a, b);
    SelfContradiction(And, n);
    var left: Path := [Left];
    assert left[1..] == [];
    assert Put(And, or, [], ZeroLeaf(And)) == ZeroLeaf(And);
    assert Put(And, Bin(And, or, n), left, ZeroLeaf(And)) == Bin(And, ZeroLeaf(And), n);
    assert Eval(Not(Leaf(a)), env) == MOD && Eval(Not(Leaf(b)), env) == YES;
  }

  lemma NegatedOr(a: Symbol, b: Symbol)
    requires a.IsTristate() && b.IsTristate()
    ensures var n := Bin(And, Not(Leaf(a)), Not(Leaf(b)));
            Transform(Not(Bin(Or, Leaf(a), Leaf(b)))) == n && Flat(And, n) && Occurs(And, n, n.lhs) > 0
  {
    var or := Bin(Or, Leaf(a), Leaf(b));
    assert Transformed(Leaf(a)) && Transformed(Leaf(b));
    assert Transformed(Not(Leaf(a))) && Transformed(Not(Leaf(b)));
    TransformFixed(or);
    TransformFixed(Distribute(Or, Leaf(a), Leaf(b)));
    assert Literal(Leaf(a)) && Literal(Leaf(b));
    assert Flat(And, Not(Leaf(a))) && Flat(And, Not(Leaf(b)));
  }

  lemma SelfContradiction(op: Op, n: Expr)
    requires IsBin(op, n) && Flat(op, n) && Occurs(op, n, n.lhs) > 0
    ensures ExtractEq(op, n, n).fst == UnitLeaf(op)
  {
    var r := Extract(op, None, n, n);
    forall x ensures Occurs(op, r.fst, x) == 0 {
      ExtractFlat(op, None, n, n, x);
      assert Removed(op, n, n, Remainders(r), x);
    }
    ExtractFlat(op, None, n, n, n.lhs);
    ExtractConserves(op, None, n, n, n.lhs);
    NoOperands(op, r.fst);
  }

  lemma ZeroStep(op: Op, e: Expr, p: Path, q: Path)
    requires IsBin(op, e) && LeafSlot(op, e, p) && InSpine(op, e, q)
    requires Contradicts(op, Get(op, e, p), Get(op, e, q))
    ensures Progress(op, e, Put(op, e, p, ZeroLeaf(op)), 1)
    ensures EquivalentUnlessMod(e, Put(op, e, p, ZeroLeaf(op)))
  {
    PutLeaf(op, e, p, ZeroLeaf(op));
    forall env: Env | WellFormed(env) && Eval(e, env) != MOD
      ensures Eval(Put(op, e, p, ZeroLeaf(op)), env) == Eval(e, env)
    {
      ContradictionExact(op, e, p, q, env);
    }
  }

  lemma UnlessModInside(op: Op, e: Expr, p: Path, x: Expr)
    requires InSpine(op, e, p) && Put(op, e, p, Get(op, e, p)) == e
    requires EquivalentUnlessMod(Get(op, e, p), x)
    ensures EquivalentUnlessMod(e, Put(op, e, p, x))
  {
    forall env: Env | WellFormed(env) && Eval(e, env) != MOD
      ensures Eval(Put(op, e, p, x), env) == Eval(e, env)
    {
      PutValue(op, e, p, x, env);
      PutValue(op, e, p, Get(op, e, p), env);
    }
  }

  lemma UnlessModSame(a: Expr)
    ensures EquivalentUnlessMod(a, a)
  {
  }

  lemma UnlessModTrans(a: Expr, b: Expr, c: Expr)
    requires EquivalentUnlessMod(a, b) && EquivalentUnlessMod(b, c)
    ensures EquivalentUnlessMod(a, c)
  {
  }

  /** `expr_eliminate_dups2`. Unlike the first pass it does not return after descending into
      the second tree, so the second slot also ranges over whole groups of operands, the root
      included. */
  method EliminateDups2(op: Op, tree: Expr, p1: Path, p2: Path) returns (result: Expr, count: nat)
    requires IsBin(op, tree) && InSpine(op, tree, p1) && InSpine(op, tree, p2)
    ensures Progress(op, tree, result, count)
    ensures EquivalentUnlessMod(tree, result)
    ensures count == 0 <==> ConsistentBelow(op, tree, p1, p2)
    decreases Size(tree), Spine(op, Get(op, tree, p1)), Spine(op, Get(op, tree, p2))
  {
    hide ConsistentBelow, PairConsistent, SameSpine;
    if IsBin(op, Get(op, tree, p1)) {
      ExtendSlot(op, tree, p1, Left);
      ExtendSlot(op, tree, p1, Right);
      var t, c := EliminateDups2(op, tree, p1 + [Left], p2);
      SlotsKept(op, tree, t, p1 + [Right], p2);
      var d;
      result, d := EliminateDups2(op, t, p1 + [Right], p2);
      count := c + d;
      ProgressTrans(op, tree, t, result, c, d);
      ConsistentSplitFirst(op, tree, p1, p2);
    } else {
      result, count := tree, 0;
      ProgressNone(op, tree);
      if IsBin(op, Get(op, tree, p2)) {
        ExtendSlot(op, tree, p2, Left);
        ExtendSlot(op, tree, p2, Right);
        var t, c := EliminateDups2(op, tree, p1, p2 + [Left]);
        SlotsKept(op, tree, t, p1, p2 + [Right]);
        var d;
        result, d := EliminateDups2(op, t, p1, p2 + [Right]);
        count := c + d;
        ProgressTrans(op, tree, t, result, c, d);
      }
      if p1 != p2 {
        SlotsKept(op, tree, result, p1, p2);
        ghost var before := result;
        var c;
        result, c := EliminateContradiction(op, result, p1, p2);
        ProgressTrans(op, tree, before, result, count, c);
        count := count + c;
      }
      ConsistentSplitSecond(op, tree, p1, p2);
    }
  }

  lemma RootJoined(e: Expr)
    requires e.Bin?
    ensures JoinedBelow(e.op, e, [], []) <==> Joined(e)
  {
    hide PairJoined;
  }

  lemma RootConsistent(e: Expr)
    requires e.Bin?
    ensures ConsistentBelow(e.op, e, [], []) <==> Consistent(e)
  {
    hide PairConsistent;
  }

  /** The tail of `expr_eliminate_dups2`: simplify inside the operand at `p1`, then overwrite
      it if the operands at `p2` contain its negation. */
  method EliminateContradiction(op: Op, tree: Expr, p1: Path, p2: Path) returns (result: Expr, count: nat)
    requires IsBin(op, tree) && LeafSlot(op, tree, p1) && InSpine(op, tree, p2)
    ensures Progress(op, tree, result, count)
    ensures EquivalentUnlessMod(tree, result)
    ensures count == 0 <==> PairConsistent(op, tree, p1, p2)
    decreases Size(tree), 0, 0, 0
  {
    hide ConsistentBelow, Consistent, Contradicts, EquivalentUnlessMod;
    result, count := tree, 0;
    ProgressNone(op, tree);
    UnlessModSame(tree);
    var e1 := Get(op, tree, p1);
    if e1.Bin? {
      RootConsistent(e1);
      var x, c := EliminateDups2(e1.op, e1, [], []);
      result, count := Put(op, tree, p1, x), c;
      ProgressInside(op, tree, p1, x, c);
      PutLeaf(op, tree, p1, x);
      UnlessModInside(op, tree, p1, x);
      SlotsKept(op, tree, result, p1, p2);
      if Contradicts(op, Get(op, result, p1), Get(op, result, p2)) {
        ghost var before := result;
        ZeroStep(op, result, p1, p2);
        result := Put(op, result, p1, ZeroLeaf(op));
        UnlessModTrans(tree, before, result);
        ProgressTrans(op, tree, before, result, count, 1);
        count := count + 1;
      }
    }
  }

  /* ----- expr_eliminate_dups ----- */

  /* ----- what that means for the operands ----- */

  ghost predicate PairTidy(op: Op, e: Expr, p: Path, q: Path)
    requires LeafSlot(op, e, p) && LeafSlot(op, e, q)
    decreases Size(Get(op, e, p)), 1
  {
    !Redundant(op, Get(op, e, p), Get(op, e, q)) && Tidy(Get(op, e, p))
  }

  /** No operand occurs twice, and no two operands are redundant, at any level outside negations. */
  ghost predicate Tidy(e: Expr)
    decreases Size(e), 0
  {
    e.Bin? ==>
      forall p: Path, q: Path ::
        LeafSlot(e.op, e, p) && LeafSlot(e.op, e, q) && p != q && p != [] ==> PairTidy(e.op, e, p, q)
  }

  lemma {:induction false} JoinedTidy(e: Expr)
    requires Joined(e)
    ensures Tidy(e)
    decreases Size(e)
  {
    hide Redundant, Join;
    if e.Bin? {
      forall p: Path, q: Path | LeafSlot(e.op, e, p) && LeafSlot(e.op, e, q) && p != q && p != []
        ensures PairTidy(e.op, e, p, q)
      {
        assert PairJoined(e.op, e, p, q);
        if Redundant(e.op, Get(e.op, e, p), Get(e.op, e, q)) {
          RedundantJoined(e.op, Get(e.op, e, p), Get(e.op, e, q));
        }
        JoinedTidy(Get(e.op, e, p));
      }
    }
  }

  /** `y` is a group of literals with all the operands of the negation of the group `x`. */
  ghost predicate Opposed(op: Op, x: Expr, y: Expr) {
    var n := Transform(Not(x));
    && Flat(op, n) && Flat(op, y)
    && (exists z :: Occurs(op, n, z) > 0)
    && (forall z :: Occurs(op, n, z) <= Occurs(op, y, z))
  }

  lemma OpposedContradicts(op: Op, x: Expr, y: Expr)
    requires Opposed(op, x, y)
    ensures Contradicts(op, x, y)
  {
    var n := Transform(Not(x));
    var r := Extract(op, None, n, y);
    forall z ensures Occurs(op, r.fst, z) == 0 {
      ExtractFlat(op, None, n, y, z);
      assert Removed(op, n, y, Remainders(r), z);
    }
    var z :| Occurs(op, n, z) > 0;
    ExtractFlat(op, None, n, y, z);
    ExtractConserves(op, None, n, y, z);
    NoOperands(op, r.fst);
  }

  ghost predicate PairUnopposed(op: Op, e: Expr, p: Path, q: Path)
    requires LeafSlot(op, e, p) && InSpine(op, e, q)
    decreases Size(Get(op, e, p)), 1
  {
    Get(op, e, p).Bin? ==> !Opposed(op, Get(op, e, p), Get(op, e, q)) && Unopposed(Get(op, e, p))
  }

  /** No compound operand has its negation among the operands beside it, at any level outside
      negations. */
  ghost predicate Unopposed(e: Expr)
    decreases Size(e), 0
  {
    e.Bin? ==>
      forall p: Path, q: Path ::
        LeafSlot(e.op, e, p) && InSpine(e.op, e, q) && p != q && p != [] ==> PairUnopposed(e.op, e, p, q)
  }

  lemma {:induction false} ConsistentUnopposed(e: Expr)
    requires Consistent(e)
    ensures Unopposed(e)
    decreases Size(e)
  {
    hide Opposed, Contradicts;
    if e.Bin? {
      forall p: Path, q: Path | LeafSlot(e.op, e, p) && InSpine(e.op, e, q) && p != q && p != []
        ensures PairUnopposed(e.op, e, p, q)
      {
        assert PairConsistent(e.op, e, p, q);
        if Get(e.op, e, p).Bin? {
          if Opposed(e.op, Get(e.op, e, p), Get(e.op, e, q)) {
            OpposedContradicts(e.op, Get(e.op, e, p), Get(e.op, e, q));
          }
          ConsistentUnopposed(Get(e.op, e, p));
        }
      }
    }
  }

  /** Neither pass changes the expression. */
  ghost predicate Reduced(e: Expr) {
    Joined(e) && Consistent(e)
  }

  /** `expr_eliminate_dups`. The loop ends because each round that changes something leaves a
      constant operand, and removing it shrinks the tree. The result has the value of the
      original wherever that value is not m, and neither pass would change it again. */
  method EliminateDups(e: Expr) returns (r: Expr)
    ensures EquivalentUnlessMod(e, r)
    ensures Reduced(r) && (Reduced(e) ==> r == e)
    ensures Tidy(r) && Unopposed(r)
    ensures Size(r) <= Size(e)
  {
    r := e;
    while true
      invariant EquivalentUnlessMod(e, r)
      invariant Reduced(e) ==> r == e
      invariant Size(r) <= Size(e)
      decreases Size(r)
    {
      var transCount := 0;
      if r.Bin? {
        var op := r.op;
        var t, c := EliminateDups1(op, r, [], []);
        var u, d := EliminateDups2(op, t, [], []);
        ProgressTrans(op, r, t, u, c, d);
        RootPasses(r);
        r, transCount := u, c + d;
      }
      if transCount == 0 {
        break;
      }
      EliminateYnNormal(r);
      EliminateYnEquivalent(r);
      r := EliminateYn(r);
    }
    JoinedTidy(r);
    ConsistentUnopposed(r);
  }

  /** Passes from the root over all pairs of slots. */
  lemma RootPasses(e: Expr)
    requires e.Bin?
    ensures JoinedBelow(e.op, e, [], []) && ConsistentBelow(e.op, e, [], []) <==> Reduced(e)
  {
    hide JoinedBelow, ConsistentBelow, Joined, Consistent;
    RootJoined(e);
    RootConsistent(e);
  }

  lemma EliminateYnEquivalent(e: Expr)
    ensures Equivalent(e, EliminateYn(e))
  {
    forall env: Env | WellFormed(env) ensures Eval(e, env) == Eval(EliminateYn(e), env) {
      EliminateYnExact(e, env);
    }
  }
}
