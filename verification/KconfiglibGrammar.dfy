/** What sequences of tokens mean to Kconfiglib's parser, by the grammar of the language: `||` binds
    weaker than `&&`, and `&&` weaker than `!`, parentheses and relations. */
module KconfiglibGrammar {
  import opened Exprs
  import opened KconfiglibExprs

  /** The tokens do not break off in a relation. */
  predicate Finished(ts: seq<Token>) {
    ts != [] ==> !ts[|ts| - 1].RelToken?
  }

  /** All of the tokens are an expression of operands joined by the operator; it has the value `v`. */
  predicate Means(mode: Mode, op: Op, ts: seq<Token>, env: Env, v: Tristate) {
    var r := TermsFrom(mode, op, [], ts);
    Finished(ts) && r.Parsed? && r.rest == [] && Value(r.expr, env) == v
  }

  /** All of the tokens are an operand of `&&`. */
  predicate FactorMeans(mode: Mode, ts: seq<Token>, env: Env, v: Tristate) {
    var r := FactorOf(mode, ts);
    Finished(ts) && r.Parsed? && r.rest == [] && Value(r.expr, env) == v
  }

  /* ----- what follows an expression does not change it ----- */

  /** What an operand leaves is the end of the tokens. */
  lemma RestFinished(mode: Mode, op: Op, ts: seq<Token>)
    requires OperandOf(mode, op, ts).Parsed? && Finished(ts)
    ensures var rest := OperandOf(mode, op, ts).rest;
            Finished(rest) && (rest != [] ==> Finished(rest[1..]))
  {
    hide FactorOf, TermsFrom, Printable, RelationsComplete;
    if op.And? {
      FactorPrintable(mode, ts);
    } else {
      TermsPrintable(mode, And, [], ts);
    }
  }

  /** The tokens go on with none that a list of such operands would take in. */
  predicate Stops(op: Op, zs: seq<Token>) {
    zs != [] && !zs[0].RelToken? && zs[0] != OpToken(op) && (op.Or? ==> zs[0] != OpToken(And))
  }

  lemma {:induction false} FactorFollowed(mode: Mode, ts: seq<Token>, zs: seq<Token>)
    requires FactorOf(mode, ts).Parsed? && Finished(ts) && zs != [] && !zs[0].RelToken?
    ensures FactorOf(mode, ts + zs) == Parsed(FactorOf(mode, ts).expr, FactorOf(mode, ts).rest + zs)
    decreases |ts|, 0
  {
    hide TermsFrom;
    assert (ts + zs)[1..] == ts[1..] + zs;
    if ts[0] == OpenParen {
      TermsFollowed(mode, Or, [], ts[1..], zs);
      var r := TermsFrom(mode, Or, [], ts[1..]);
      assert (r.rest + zs)[1..] == r.rest[1..] + zs;
    } else if ts[0] == NotToken {
      FactorFollowed(mode, ts[1..], zs);
    } else if |ts| > 1 && ts[1].RelToken? {
      assert (ts + zs)[2..] == ts[2..] + zs;
      assert (ts[2..] + zs)[1..] == ts[2..][1..] + zs;
    }
  }

  lemma {:induction false} TermsFollowed(mode: Mode, op: Op, acc: seq<Expression>, ts: seq<Token>, zs: seq<Token>)
    requires TermsFrom(mode, op, acc, ts).Parsed? && Finished(ts) && zs != [] && !zs[0].RelToken?
    requires TermsFrom(mode, op, acc, ts).rest != [] || Stops(op, zs)
    ensures TermsFrom(mode, op, acc, ts + zs)
            == Parsed(TermsFrom(mode, op, acc, ts).expr, TermsFrom(mode, op, acc, ts).rest + zs)
    decreases |ts|, if op.And? then 2 else 4
  {
    hide FactorOf, TermsFrom, Pack;
    StepUnfold(mode, op, acc, ts);
    StepUnfold(mode, op, acc, ts + zs);
    var f := OperandOf(mode, op, ts);
    RestFinished(mode, op, ts);
    if op.And? {
      FactorFollowed(mode, ts, zs);
    } else {
      TermsFollowed(mode, And, [], ts, zs);
    }
    if First(f.rest) == Some(OpToken(op)) {
      TermsFollowed(mode, op, acc + [f.expr], f.rest[1..], zs);
      assert (f.rest + zs)[1..] == f.rest[1..] + zs;
    } else if f.rest == [] {
      assert f.rest + zs == zs;
    }
  }

  /* ----- lists ----- */

  /** Where one list of operands ends and the operator follows, the next one is appended. */
  lemma {:induction false} TermsJoined(mode: Mode, op: Op, acc: seq<Expression>, xs: seq<Token>, ys: seq<Token>)
    returns (terms: seq<Expression>)
    requires TermsFrom(mode, op, acc, xs).Parsed? && TermsFrom(mode, op, acc, xs).rest == [] && Finished(xs)
    ensures terms != [] && TermsFrom(mode, op, acc, xs).expr == Pack(op, acc + terms)
    ensures TermsFrom(mode, op, acc, xs + ([OpToken(op)] + ys)) == TermsFrom(mode, op, acc + terms, ys)
    decreases |xs|
  {
    hide FactorOf, TermsFrom, Pack;
    var zs := [OpToken(op)] + ys;
    StepUnfold(mode, op, acc, xs);
    StepUnfold(mode, op, acc, xs + zs);
    var f := OperandOf(mode, op, xs);
    RestFinished(mode, op, xs);
    if op.And? {
      FactorFollowed(mode, xs, zs);
    } else {
      TermsFollowed(mode, And, [], xs, zs);
    }
    terms := [f.expr];
    if f.rest != [] {
      assert (f.rest + zs)[1..] == f.rest[1..] + zs;
      var more := TermsJoined(mode, op, acc + [f.expr], f.rest[1..], ys);
      assert acc + ([f.expr] + more) == (acc + [f.expr]) + more;
      terms := [f.expr] + more;
    } else {
      assert zs[1..] == ys && f.rest + zs == zs;
    }
  }

  /** The operands found so far do not matter for those to come. */
  lemma {:induction false} TermsAfter(mode: Mode, op: Op, acc: seq<Expression>, before: seq<Expression>, ts: seq<Token>)
    returns (terms: seq<Expression>)
    requires TermsFrom(mode, op, acc, ts).Parsed?
    ensures terms != []
    ensures TermsFrom(mode, op, acc, ts) == Parsed(Pack(op, acc + terms), TermsFrom(mode, op, acc, ts).rest)
    ensures TermsFrom(mode, op, before, ts) == Parsed(Pack(op, before + terms), TermsFrom(mode, op, acc, ts).rest)
    decreases |ts|
  {
    hide FactorOf, TermsFrom, Pack;
    StepUnfold(mode, op, acc, ts);
    StepUnfold(mode, op, before, ts);
    var f := OperandOf(mode, op, ts);
    terms := [f.expr];
    if First(f.rest) == Some(OpToken(op)) {
      var more := TermsAfter(mode, op, acc + [f.expr], before + [f.expr], f.rest[1..]);
      assert acc + ([f.expr] + more) == (acc + [f.expr]) + more;
      assert before + ([f.expr] + more) == (before + [f.expr]) + more;
      terms := [f.expr] + more;
    }
  }

  lemma PackValue(op: Op, terms: seq<Expression>, env: Env)
    requires terms != []
    ensures Value(Pack(op, terms), env) == Fold(op, terms, env)
  {
    if |terms| == 1 {
      assert terms == [] + [terms[0]];
      AppendExact(op, [], terms[0], env);
    }
  }

  /** `xs && ys` is the minimum and `xs || ys` the maximum, where both sides are made of operands of
      that operator. */
  lemma Joined(mode: Mode, op: Op, xs: seq<Token>, ys: seq<Token>, env: Env, a: Tristate, b: Tristate)
    requires Means(mode, op, xs, env, a) && Means(mode, op, ys, env, b)
    ensures Means(mode, op, xs + ([OpToken(op)] + ys), env, op.Apply(a, b))
  {
    hide TermsFrom, Pack;
    var left := TermsJoined(mode, op, [], xs, ys);
    var right := TermsAfter(mode, op, [], left, ys);
    assert [] + left == left && [] + right == right;
    PackValue(op, left, env);
    PackValue(op, right, env);
    PackValue(op, left + right, env);
    FoldAppend(op, left, right, env);
    var zs := xs + ([OpToken(op)] + ys);
    assert zs[|zs| - 1] == if ys == [] then OpToken(op) else ys[|ys| - 1];
  }

  /* ----- operands ----- */

  /** An operand of `&&` is a list of one, and so is a list of these as an operand of `||`: hence `&&`
      binds more tightly. */
  lemma Alone(mode: Mode, ts: seq<Token>, env: Env, v: Tristate)
    ensures FactorMeans(mode, ts, env, v) ==> Means(mode, And, ts, env, v)
    ensures Means(mode, And, ts, env, v) ==> Means(mode, Or, ts, env, v)
  {
    hide TermsFrom, FactorOf;
    StepUnfold(mode, And, [], ts);
    StepUnfold(mode, Or, [], ts);
  }

  /** Parentheses make an operand of anything, and `!` negates the operand that follows it. */
  lemma Nested(mode: Mode, ts: seq<Token>, env: Env, v: Tristate)
    ensures Means(mode, Or, ts, env, v) ==> FactorMeans(mode, [OpenParen] + ts + [CloseParen], env, v)
    ensures FactorMeans(mode, ts, env, v) ==> FactorMeans(mode, [NotToken] + ts, env, Negate(v))
  {
    hide TermsFrom;
    assert ([NotToken] + ts)[1..] == ts;
    assert ([OpenParen] + ts + [CloseParen])[1..] == ts + [CloseParen];
    if Means(mode, Or, ts, env, v) {
      TermsFollowed(mode, Or, [], ts, [CloseParen]);
    }
    if FactorMeans(mode, ts, env, v) {
      assert ts != [];
    }
  }

  /** A symbol or string is an operand; m stands for m && MODULES where that is asked for. A relation
      compares strings, and m is the string "m" there. */
  lemma Simple(mode: Mode, t: Token, eq: bool, u: Token, env: Env)
    requires IsItem(t) && IsItem(u)
    ensures FactorMeans(mode, [t], env,
                        if mode.transformM && t in {Sym(mode.m), Str("m")}
                        then And.Apply(MOD, ItemVal(Sym(mode.modules), env)) else ItemVal(t, env))
    ensures var str := (i: Token) => if i == Sym(mode.m) then "m" else StrVal(i, env);
            FactorMeans(mode, [t, RelToken(eq), u], env, if (str(t) == str(u)) == eq then YES else NO)
  {
    PairExact(And, Atom(Str("m")), Atom(Sym(mode.modules)), env);
    assert [t][1..] == [] && [t, RelToken(eq), u][2..] == [u] && [u][1..] == [];
  }
}
