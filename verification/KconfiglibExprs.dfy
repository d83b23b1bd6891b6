/** Kconfiglib's expressions: the recursive descent parser over a token feed, the printer, the
    evaluator and the two smart constructors. */
module KconfiglibExprs {
  import opened Exprs

  /* ----- tokens and expressions ----- */

  datatype Token =
    | Sym(sym: Symbol)
    | Str(text: string)
    | OpToken(op: Op)
    | NotToken
    | OpenParen
    | CloseParen
    | RelToken(equal: bool)
    | Keyword(id: nat)

  /** A symbol or a string is an expression, the others are the tuples that start with AND, OR,
      NOT, EQUAL or UNEQUAL. The parser takes the second operand of a relation from the feed
      unseen, so that it can be any token or, at the end of the feed, None. */
  datatype Expression =
    | Atom(item: Token)
    | Rel(equal: bool, left: Token, right: Option<Token>)
    | Inverse(arg: Expression)
    | List(op: Op, terms: seq<Expression>)

  predicate IsItem(t: Token) {
    t.Sym? || t.Str?
  }

  /** What the printer can print: items where items belong, and no list of fewer than two terms. */
  predicate Printable(e: Expression) {
    match e
    case Atom(t) => IsItem(t)
    case Rel(_, l, r) => IsItem(l) && r.Some? && IsItem(r.value)
    case Inverse(a) => Printable(a)
    case List(_, es) => |es| >= 2 && AllPrintable(es)
  }

  predicate AllPrintable(es: seq<Expression>) {
    forall i :: 0 <= i < |es| ==> Printable(es[i])
  }

  /* ----- evaluation ----- */

  /** `_str_val`. */
  function StrVal(t: Token, env: Env): string {
    if t.Str? then t.text else if t.Sym? then env.str(t.sym) else ""
  }

  function ItemVal(t: Token, env: Env): Tristate {
    if t.Sym? then (if t.sym.IsTri() then env.tri(t.sym) else NO)
    else if t == Str("y") then YES
    else if t == Str("m") then MOD
    else NO
  }

  /** The value of an expression: AND is the minimum, OR the maximum. */
  function Value(e: Expression, env: Env): Tristate
    decreases e
  {
    match e
    case Atom(t) => ItemVal(t, env)
    case Rel(eq, l, r) => Truth((r.Some? && StrVal(l, env) == StrVal(r.value, env)) == eq)
    case Inverse(a) => Negate(Value(a, env))
    case List(op, es) => Fold(op, es, env)
  }

  function Fold(op: Op, es: seq<Expression>, env: Env): Tristate
    decreases es
  {
    if es == [] then op.Unit() else op.Apply(Value(es[0], env), Fold(op, es[1..], env))
  }

  /** `_eval_expr_2` on a given expression, with its two short-circuiting loops. */
  method EvalExpr(e: Expression, env: Env) returns (res: Tristate)
    requires Printable(e)
    ensures res == Value(e, env)
    decreases e
  {
    match e
    case Atom(t) =>
      res := ItemVal(t, env);
    case Rel(eq, l, r) =>
      res := Truth((r.Some? && StrVal(l, env) == StrVal(r.value, env)) == eq);
    case Inverse(a) =>
      var ev := EvalExpr(a, env);
      res := if ev == YES then NO else if ev == NO then YES else MOD;
    case List(op, es) =>
      res := op.Unit();
      for i := 0 to |es|
        invariant res != op.Zero()
        invariant op.Apply(res, Fold(op, es[i..], env)) == Fold(op, es, env)
      {
        var ev := EvalExpr(es[i], env);
        assert es[i..][1..] == es[i + 1..];
        if ev == op.Zero() {
          return ev;
        }
        if ev == MOD {
          res := MOD;
        }
      }
  }

  /** None reads as y. */
  function ValueOpt(e: Option<Expression>, env: Env): Tristate {
    if e.None? then YES else Value(e.value, env)
  }

  lemma {:induction false} FoldAppend(op: Op, xs: seq<Expression>, ys: seq<Expression>, env: Env)
    ensures Fold(op, xs + ys, env) == op.Apply(Fold(op, xs, env), Fold(op, ys, env))
  {
    if xs == [] {
      assert xs + ys == ys;
    } else {
      FoldAppend(op, xs[1..], ys, env);
      assert (xs + ys)[1..] == xs[1..] + ys;
    }
  }

  /* ----- the smart constructors ----- */

  /** `_make_and`. */
  function MakeAnd(e1: Option<Expression>, e2: Option<Expression>): Option<Expression> {
    if e1 == Some(Atom(Str("n"))) || e2 == Some(Atom(Str("n"))) then Some(Atom(Str("n")))
    else if e1.None? || e1.value == Atom(Str("y")) then e2
    else if e2.None? || e2.value == Atom(Str("y")) then e1
    else Some(Merge(And, e1.value, e2.value))
  }

  /** `_make_or`. */
  function MakeOr(e1: Option<Expression>, e2: Option<Expression>): Expression {
    if e1.None? || e2.None? || e1.value == Atom(Str("y")) || e2.value == Atom(Str("y")) then Atom(Str("y"))
    else if e1.value == Atom(Str("n")) then e2.value
    else if e2.value == Atom(Str("n")) then e1.value
    else Merge(Or, e1.value, e2.value)
  }

  /** The argument lists are merged where there are any; a list on the right takes in the left
      operand at its end. */
  function Merge(op: Op, e1: Expression, e2: Expression): Expression {
    if e1.List? && e1.op == op then
      if e2.List? && e2.op == op then List(op, e1.terms + e2.terms) else List(op, e1.terms + [e2])
    else if e2.List? && e2.op == op then List(op, e2.terms + [e1])
    else List(op, [e1, e2])
  }

  lemma AppendExact(op: Op, xs: seq<Expression>, e: Expression, env: Env)
    ensures Fold(op, xs + [e], env) == op.Apply(Fold(op, xs, env), Value(e, env))
  {
    FoldAppend(op, xs, [e], env);
    assert [e][1..] == [];
  }

  lemma PairExact(op: Op, e1: Expression, e2: Expression, env: Env)
    ensures Fold(op, [e1, e2], env) == op.Apply(Value(e1, env), Value(e2, env))
  {
    AppendExact(op, [], e1, env);
    AppendExact(op, [e1], e2, env);
    assert [] + [e1] == [e1] && [e1] + [e2] == [e1, e2];
  }

  lemma MergeExact(op: Op, e1: Expression, e2: Expression, env: Env)
    ensures Value(Merge(op, e1, e2), env) == op.Apply(Value(e1, env), Value(e2, env))
  {
    hide Fold;
    if e1.List? && e1.op == op {
      if e2.List? && e2.op == op {
        FoldAppend(op, e1.terms, e2.terms, env);
      } else {
        AppendExact(op, e1.terms, e2, env);
      }
    } else if e2.List? && e2.op == op {
      AppendExact(op, e2.terms, e1, env);
    } else {
      PairExact(op, e1, e2, env);
    }
  }

  /** m is y in a configuration without modules: the last step of `_eval_expr`. */
  function Promote(t: Tristate, modules: bool): Tristate {
    if t == MOD && !modules then YES else t
  }

  /** The constructors denote minimum and maximum, before and after promotion. */
  lemma MakeExact(e1: Option<Expression>, e2: Option<Expression>, env: Env, modules: bool)
    ensures ValueOpt(MakeAnd(e1, e2), env) == And.Apply(ValueOpt(e1, env), ValueOpt(e2, env))
    ensures Value(MakeOr(e1, e2), env) == Or.Apply(ValueOpt(e1, env), ValueOpt(e2, env))
    ensures Promote(ValueOpt(MakeAnd(e1, e2), env), modules)
            == And.Apply(Promote(ValueOpt(e1, env), modules), Promote(ValueOpt(e2, env), modules))
    ensures Promote(Value(MakeOr(e1, e2), env), modules)
            == Or.Apply(Promote(ValueOpt(e1, env), modules), Promote(ValueOpt(e2, env), modules))
  {
    if e1.Some? && e2.Some? {
      MergeExact(And, e1.value, e2.value, env);
      MergeExact(Or, e1.value, e2.value, env);
    }
  }

  /** What is built from printable expressions is printable, so that every dependency which
      Kconfiglib assembles while it parses can be printed and parsed again. */
  lemma {:induction false} MakePrintable(e1: Expression, e2: Expression)
    requires Printable(e1) && Printable(e2)
    ensures MakeAnd(Some(e1), Some(e2)).Some? && Printable(MakeAnd(Some(e1), Some(e2)).value)
    ensures Printable(MakeOr(Some(e1), Some(e2)))
  {
    hide Printable;
    MergePrintable(And, e1, e2);
    MergePrintable(Or, e1, e2);
  }

  lemma {:induction false} MergePrintable(op: Op, e1: Expression, e2: Expression)
    requires Printable(e1) && Printable(e2)
    ensures Printable(Merge(op, e1, e2))
  {
    var e := Merge(op, e1, e2);
    forall i | 0 <= i < |e.terms| ensures Printable(e.terms[i]) {
    }
  }

  /* ----- printing ----- */

  /** `_intersperse` puts parentheses around a list of lower precedence only. */
  predicate NeedsParens(op: Op, e: Expression) {
    op.And? && e.List? && e.op.Or?
  }

  /** `_expr_to_str_rec`, as tokens. */
  function Print(e: Expression): seq<Token>
    requires Printable(e)
    decreases e, 0
  {
    match e
    case Atom(t) => [t]
    case Rel(eq, l, r) => [l, RelToken(eq), r.value]
    case Inverse(a) => [NotToken] + if a.Atom? then Print(a) else Paren(Print(a))
    case List(op, es) => Join(op, es)
  }

  function Paren(ts: seq<Token>): seq<Token> {
    [OpenParen] + ts + [CloseParen]
  }

  function PrintTerm(op: Op, e: Expression): seq<Token>
    requires Printable(e)
    decreases e, 1
  {
    if NeedsParens(op, e) then Paren(Print(e)) else Print(e)
  }

  /** `_intersperse`. */
  function Join(op: Op, es: seq<Expression>): seq<Token>
    requires AllPrintable(es)
    decreases es
  {
    if es == [] then [] else PrintTerm(op, es[0]) + JoinRest(op, es[1..])
  }

  function JoinRest(op: Op, es: seq<Expression>): seq<Token>
    requires AllPrintable(es)
    decreases es
  {
    if es == [] then [] else [OpToken(op)] + (PrintTerm(op, es[0]) + JoinRest(op, es[1..]))
  }

  /* ----- parsing: the meaning of the parser ----- */

  /** The symbols `m` and MODULES, and whether m stands for m && MODULES. */
  datatype Mode = Mode(transformM: bool, m: Symbol, modules: Symbol)

  datatype ParseResult = Parsed(expr: Expression, rest: seq<Token>) | MissingParen | Malformed

  function First(ts: seq<Token>): Option<Token> {
    if ts == [] then None else Some(ts[0])
  }

  function DropFirst(ts: seq<Token>): seq<Token> {
    if ts == [] then [] else ts[1..]
  }

  /** In a relation the symbol `m` becomes the string "m". */
  function Relational(mode: Mode, t: Token): Token {
    if t == Sym(mode.m) then Str("m") else t
  }

  function AtomOf(mode: Mode, t: Token): Expression {
    if mode.transformM && (t == Sym(mode.m) || t == Str("m")) then
      List(And, [Atom(Str("m")), Atom(Sym(mode.modules))])
    else
      Atom(t)
  }

  function Pack(op: Op, terms: seq<Expression>): Expression
    requires terms != []
  {
    if |terms| == 1 then terms[0] else List(op, terms)
  }

  function FactorOf(mode: Mode, ts: seq<Token>): (r: ParseResult)
    ensures r.Parsed? ==> |r.rest| < |ts|
    decreases |ts|, 0
  {
    if First(ts) == Some(OpenParen) then
      var r := TermsFrom(mode, Or, [], ts[1..]);
      if !r.Parsed? then r
      else if First(r.rest) != Some(CloseParen) then MissingParen
      else Parsed(r.expr, r.rest[1..])
    else if First(ts) == Some(NotToken) then
      var r := FactorOf(mode, ts[1..]);
      if !r.Parsed? then r else Parsed(Inverse(r.expr), r.rest)
    else if ts == [] || !IsItem(ts[0]) then Malformed
    else if |ts| > 1 && ts[1].RelToken? then
      var r := ts[2..];
      Parsed(Rel(ts[1].equal, Relational(mode, ts[0]),
                 if r == [] then None else Some(Relational(mode, r[0]))), DropFirst(r))
    else Parsed(AtomOf(mode, ts[0]), ts[1..])
  }

  /** An operand of the given operator: `_parse_factor` for &&, `_parse_or_term` for ||. */
  function OperandOf(mode: Mode, op: Op, ts: seq<Token>): (r: ParseResult)
    ensures r.Parsed? ==> |r.rest| < |ts|
    decreases |ts|, if op.And? then 1 else 3
  {
    if op.And? then FactorOf(mode, ts) else TermsFrom(mode, And, [], ts)
  }

  /** Parses an operand and, as long as the operator follows, further ones. */
  function TermsFrom(mode: Mode, op: Op, acc: seq<Expression>, ts: seq<Token>): (r: ParseResult)
    ensures r.Parsed? ==> |r.rest| < |ts|
    decreases |ts|, if op.And? then 2 else 4
  {
    var f := OperandOf(mode, op, ts);
    if !f.Parsed? then f else MoreTerms(mode, op, acc + [f.expr], f.rest)
  }

  function MoreTerms(mode: Mode, op: Op, acc: seq<Expression>, ts: seq<Token>): (r: ParseResult)
    requires acc != []
    ensures r.Parsed? ==> |r.rest| <= |ts|
    decreases |ts|, if op.And? then 2 else 4
  {
    if First(ts) == Some(OpToken(op)) then TermsFrom(mode, op, acc, ts[1..])
    else Parsed(Pack(op, acc), ts)
  }

  /** `_parse_expr_2` on all the tokens. */
  function ExprOf(mode: Mode, ts: seq<Token>): ParseResult {
    TermsFrom(mode, Or, [], ts)
  }

  /* ----- parsing: the parser over its feed ----- */

  /** `_Feed`: the tokens and a cursor. */
  class Feed {
    const items: seq<Token>
    var i: nat

    ghost predicate Valid()
      reads this
    {
      i <= |items|
    }

    ghost function Left(): seq<Token>
      requires Valid()
      reads this
    {
      items[i..]
    }

    constructor (tokens: seq<Token>)
      ensures Valid() && Left() == tokens
    {
      items, i := tokens, 0;
    }

    method GetNext() returns (t: Option<Token>)
      requires Valid()
      modifies this
      ensures Valid() && t == First(old(Left())) && Left() == DropFirst(old(Left()))
    {
      if i >= |items| {
        return None;
      }
      t := Some(items[i]);
      i := i + 1;
    }

    method PeekNext() returns (t: Option<Token>)
      requires Valid()
      ensures t == First(Left())
    {
      t := if i >= |items| then None else Some(items[i]);
    }

    method Check(t: Token) returns (found: bool)
      requires Valid()
      modifies this
      ensures Valid() && found == (First(old(Left())) == Some(t))
      ensures Left() == if found then DropFirst(old(Left())) else old(Left())
    {
      found := i < |items| && items[i] == t;
      if found {
        i := i + 1;
      }
    }
  }

  /** One operand parsed, and one look at what follows it. */
  lemma StepUnfold(mode: Mode, op: Op, acc: seq<Expression>, ts: seq<Token>)
    ensures var f := OperandOf(mode, op, ts);
            TermsFrom(mode, op, acc, ts)
            == if !f.Parsed? then f
               else if First(f.rest) == Some(OpToken(op)) then TermsFrom(mode, op, acc + [f.expr], DropFirst(f.rest))
               else Parsed(Pack(op, acc + [f.expr]), f.rest)
  {
  }

  datatype Outcome = Success(expr: Expression) | Failure(error: ParseResult)

  /** The parser has done what `r` says: the tokens that `r` leaves are left. */
  ghost predicate Did(o: Outcome, left: seq<Token>, r: ParseResult) {
    if r.Parsed? then o == Success(r.expr) && left == r.rest else o == Failure(r)
  }

  /** The recursive descent parser; every method takes tokens from the same feed. */
  class Parser {
    const mode: Mode

    constructor (m: Mode)
      ensures mode == m
    {
      mode := m;
    }

    /** `_parse_expr_2`. */
    method ParseExpr(feed: Feed) returns (o: Outcome)
      requires feed.Valid()
      modifies feed
      ensures feed.Valid() && Did(o, feed.Left(), ExprOf(mode, old(feed.Left())))
      decreases |feed.Left()|, 2
    {
      hide TermsFrom, MoreTerms, FactorOf, Pack;
      StepUnfold(mode, Or, [], feed.Left());
      o := ParseOrTerm(feed);
      if o.Failure? {
        return;
      }
      var orTerms := [o.expr];
      assert [] + orTerms == orTerms;
      var more := feed.Check(OpToken(Or));
      while more
        invariant feed.Valid() && orTerms != [] && |feed.Left()| < |old(feed.Left())|
        invariant (if more then TermsFrom(mode, Or, orTerms, feed.Left())
                   else Parsed(Pack(Or, orTerms), feed.Left())) == ExprOf(mode, old(feed.Left()))
        decreases |feed.Left()|
      {
        StepUnfold(mode, Or, orTerms, feed.Left());
        o := ParseOrTerm(feed);
        if o.Failure? {
          return;
        }
        orTerms := orTerms + [o.expr];
        more := feed.Check(OpToken(Or));
      }
      o := Success(Pack(Or, orTerms));
    }

    /** `_parse_or_term`. */
    method ParseOrTerm(feed: Feed) returns (o: Outcome)
      requires feed.Valid()
      modifies feed
      ensures feed.Valid() && Did(o, feed.Left(), TermsFrom(mode, And, [], old(feed.Left())))
      decreases |feed.Left()|, 1
    {
      hide TermsFrom, MoreTerms, FactorOf, Pack;
      StepUnfold(mode, And, [], feed.Left());
      o := ParseFactor(feed);
      if o.Failure? {
        return;
      }
      var andTerms := [o.expr];
      assert [] + andTerms == andTerms;
      var more := feed.Check(OpToken(And));
      while more
        invariant feed.Valid() && andTerms != [] && |feed.Left()| < |old(feed.Left())|
        invariant (if more then TermsFrom(mode, And, andTerms, feed.Left())
                   else Parsed(Pack(And, andTerms), feed.Left())) == TermsFrom(mode, And, [], old(feed.Left()))
        decreases |feed.Left()|
      {
        StepUnfold(mode, And, andTerms, feed.Left());
        o := ParseFactor(feed);
        if o.Failure? {
          return;
        }
        andTerms := andTerms + [o.expr];
        more := feed.Check(OpToken(And));
      }
      o := Success(Pack(And, andTerms));
    }

    /** `_parse_factor`. */
    method ParseFactor(feed: Feed) returns (o: Outcome)
      requires feed.Valid()
      modifies feed
      ensures feed.Valid() && Did(o, feed.Left(), FactorOf(mode, old(feed.Left())))
      decreases |feed.Left()|, 0
    {
      var open := feed.Check(OpenParen);
      if open {
        o := ParseExpr(feed);
        if o.Success? {
          var closed := feed.Check(CloseParen);
          o := if closed then o else Failure(MissingParen);
        }
        return;
      }
      var negated := feed.Check(NotToken);
      if negated {
        o := ParseFactor(feed);
        o := if o.Success? then Success(Inverse(o.expr)) else o;
        return;
      }
      var item := feed.GetNext();
      if item.None? || !IsItem(item.value) {
        return Failure(Malformed);
      }
      var next := feed.PeekNext();
      if next != Some(RelToken(true)) && next != Some(RelToken(false)) {
        return Success(AtomOf(mode, item.value));
      }
      var relation := feed.GetNext();
      var right := feed.GetNext();
      o := Success(Rel(relation == Some(RelToken(true)), Relational(mode, item.value),
                       if right.None? then None else Some(Relational(mode, right.value))));
    }
  }

  /* ----- parsing undoes printing ----- */

  /** What comes back from printing and parsing: lists directly inside a list of the same
      operator are flattened, m is rewritten as the parser always rewrites it. */
  function Normal(mode: Mode, e: Expression): Expression
    decreases e, 0
  {
    match e
    case Atom(t) => AtomOf(mode, t)
    case Rel(eq, l, r) =>
      Rel(eq, Relational(mode, l), if r.None? then None else Some(Relational(mode, r.value)))
    case Inverse(a) => Inverse(Normal(mode, a))
    case List(op, es) => List(op, AllTerms(mode, op, es))
  }

  /** The terms that an expression contributes to a list of operator `op`. */
  function Terms(mode: Mode, op: Op, e: Expression): seq<Expression>
    decreases e, 1
  {
    if e.List? && e.op == op then AllTerms(mode, op, e.terms) else [Normal(mode, e)]
  }

  function AllTerms(mode: Mode, op: Op, es: seq<Expression>): seq<Expression>
    decreases es
  {
    if es == [] then [] else Terms(mode, op, es[0]) + AllTerms(mode, op, es[1..])
  }

  /** A continuation that ends an operand of `op`. */
  predicate Ends(op: Op, k: seq<Token>) {
    First(k) == None || (!First(k).value.RelToken? && (op.Or? ==> First(k).value != OpToken(And)))
  }

  lemma {:induction false} TermsCount(mode: Mode, op: Op, es: seq<Expression>)
    requires AllPrintable(es)
    ensures |AllTerms(mode, op, es)| >= |es|
    decreases es
  {
    if es != [] {
      if es[0].List? {
        TermsCount(mode, op, es[0].terms);
      }
      TermsCount(mode, op, es[1..]);
    }
  }

  /** A relation takes whatever follows its operator as the right operand, even a token that is
      no symbol or string, and even the end of the feed: no such input is reported. */
  lemma RelationParsed(mode: Mode, eq: bool, l: Token, r: Option<Token>, k: seq<Token>)
    requires IsItem(l) && (r.None? ==> k == [])
    ensures FactorOf(mode, [l, RelToken(eq)] + ((if r.None? then [] else [r.value]) + k))
            == Parsed(Normal(mode, Rel(eq, l, r)), k)
  {
    var tail := (if r.None? then [] else [r.value]) + k;
    var ts := [l, RelToken(eq)] + tail;
    assert ts[2..] == tail;
    assert DropFirst(tail) == k;
  }

  lemma AtomParsed(mode: Mode, t: Token, k: seq<Token>)
    requires IsItem(t) && Ends(And, k)
    ensures FactorOf(mode, [t] + k) == Parsed(AtomOf(mode, t), k)
  {
    hide TermsFrom;
    assert ([t] + k)[1..] == k;
  }

  lemma InverseParsed(mode: Mode, e: Expression, ts: seq<Token>, k: seq<Token>)
    requires FactorOf(mode, ts + k) == Parsed(Normal(mode, e), k)
    ensures FactorOf(mode, [NotToken] + (ts + k)) == Parsed(Normal(mode, Inverse(e)), k)
  {
    hide TermsFrom;
    assert ([NotToken] + (ts + k))[1..] == ts + k;
  }

  /** An expression that is no list is a factor. */
  lemma {:induction false} FactorParsed(mode: Mode, e: Expression, k: seq<Token>)
    requires Printable(e) && Ends(And, k) && !e.List?
    ensures FactorOf(mode, Print(e) + k) == Parsed(Normal(mode, e), k)
    decreases e, 0
  {
    hide TermsFrom, FactorOf;
    match e
    case Atom(t) =>
      AtomParsed(mode, t, k);
    case Rel(eq, l, r) =>
      RelationParsed(mode, eq, l, r, k);
      assert Print(e) + k == [l, RelToken(eq)] + ([r.value] + k);
    case Inverse(a) =>
      if a.Atom? {
        FactorParsed(mode, a, k);
        InverseParsed(mode, a, Print(a), k);
        assert Print(e) + k == [NotToken] + (Print(a) + k);
      } else {
        ParenParsed(mode, a, k);
        InverseParsed(mode, a, Paren(Print(a)), k);
        assert Print(e) + k == [NotToken] + (Paren(Print(a)) + k);
      }
  }

  /** So is every expression in parentheses. */
  lemma {:induction false} ParenParsed(mode: Mode, e: Expression, k: seq<Token>)
    requires Printable(e)
    ensures FactorOf(mode, Paren(Print(e)) + k) == Parsed(Normal(mode, e), k)
    decreases e, 4
  {
    WholeParsed(mode, e, [CloseParen] + k);
    assert (Paren(Print(e)) + k)[1..] == Print(e) + ([CloseParen] + k);
    assert ([CloseParen] + k)[1..] == k;
  }

  lemma {:induction false} WholeParsed(mode: Mode, e: Expression, k: seq<Token>)
    requires Printable(e) && Ends(Or, k) && First(k) != Some(OpToken(Or))
    ensures ExprOf(mode, Print(e) + k) == Parsed(Normal(mode, e), k)
    decreases e, 3
  {
    OperandParsed(mode, Or, [], e, k);
    PackTerms(mode, Or, e);
    assert [] + Terms(mode, Or, e) == Terms(mode, Or, e);
  }

  lemma PackTerms(mode: Mode, op: Op, e: Expression)
    requires Printable(e)
    ensures Terms(mode, op, e) != [] && Pack(op, Terms(mode, op, e)) == Normal(mode, e)
  {
    if e.List? {
      TermsCount(mode, e.op, e.terms);
    }
  }

  /** A printed operand gives its terms to the list being parsed. */
  lemma {:induction false} OperandParsed(mode: Mode, op: Op, acc: seq<Expression>, e: Expression, k: seq<Token>)
    requires Printable(e) && Ends(op, k)
    ensures Terms(mode, op, e) != []
    ensures TermsFrom(mode, op, acc, PrintTerm(op, e) + k) == MoreTerms(mode, op, acc + Terms(mode, op, e), k)
    decreases e, if e.List? && e.op == op then 1 else if op.Or? then 2 else if e.List? then 5 else 1
  {
    PackTerms(mode, op, e);
    if e.List? && e.op == op {
      ListParsed(mode, op, acc, e.terms, k);
    } else if op.And? {
      if e.List? {
        ParenParsed(mode, e, k);
      } else {
        FactorParsed(mode, e, k);
      }
    } else {
      OperandParsed(mode, And, [], e, k);
      PackTerms(mode, And, e);
      assert [] + Terms(mode, And, e) == Terms(mode, And, e);
    }
  }

  lemma {:induction false} ListParsed(mode: Mode, op: Op, acc: seq<Expression>, es: seq<Expression>, k: seq<Token>)
    requires AllPrintable(es) && es != [] && Ends(op, k)
    ensures AllTerms(mode, op, es) != []
    ensures TermsFrom(mode, op, acc, Join(op, es) + k) == MoreTerms(mode, op, acc + AllTerms(mode, op, es), k)
    decreases es, 0
  {
    hide TermsFrom, MoreTerms, Terms, AllTerms, PrintTerm, Printable, Join, JoinRest, Ends;
    var tail := es[1..];
    var acc' := acc + Terms(mode, op, es[0]);
    JoinUnfold(op, es, k);
    RestEnds(op, tail, k);
    OperandParsed(mode, op, acc, es[0], JoinRest(op, tail) + k);
    TermsUnfold(mode, op, acc, es);
    RestParsed(mode, op, acc', tail, k);
    if tail != [] {
      ListParsed(mode, op, acc', tail, k);
    }
  }

  lemma RestEnds(op: Op, es: seq<Expression>, k: seq<Token>)
    requires AllPrintable(es) && Ends(op, k)
    ensures Ends(op, JoinRest(op, es) + k)
  {
    assert es == [] ==> JoinRest(op, es) + k == k;
  }

  /** After an operand come the others, each after the operator, or what follows the list. */
  lemma RestParsed(mode: Mode, op: Op, acc: seq<Expression>, es: seq<Expression>, k: seq<Token>)
    requires AllPrintable(es) && Ends(op, k) && acc != []
    ensures MoreTerms(mode, op, acc, JoinRest(op, es) + k)
            == if es == [] then MoreTerms(mode, op, acc, k) else TermsFrom(mode, op, acc, Join(op, es) + k)
  {
    hide TermsFrom, PrintTerm, Printable;
    if es == [] {
      assert JoinRest(op, es) + k == k;
    } else {
      assert (JoinRest(op, es) + k)[1..] == Join(op, es) + k;
    }
  }

  lemma TermsUnfold(mode: Mode, op: Op, acc: seq<Expression>, es: seq<Expression>)
    requires AllPrintable(es) && es != []
    ensures AllTerms(mode, op, es) == Terms(mode, op, es[0]) + AllTerms(mode, op, es[1..])
    ensures acc + AllTerms(mode, op, es) == (acc + Terms(mode, op, es[0])) + AllTerms(mode, op, es[1..])
    ensures es[1..] == [] ==> acc + AllTerms(mode, op, es) == acc + Terms(mode, op, es[0])
  {
    hide Terms;
  }

  /** How the printed tokens of a list split after its first operand. */
  lemma JoinUnfold(op: Op, es: seq<Expression>, k: seq<Token>)
    requires AllPrintable(es) && es != []
    ensures Join(op, es) + k == PrintTerm(op, es[0]) + (JoinRest(op, es[1..]) + k)
  {
    hide PrintTerm, Printable;
    assert Join(op, es) + k == PrintTerm(op, es[0]) + (JoinRest(op, es[1..]) + k);
  }

  /* ----- the round trip ----- */

  /** Parsing what was printed consumes all of it and gives the normal form. */
  lemma RoundTrip(mode: Mode, e: Expression)
    requires Printable(e)
    ensures ExprOf(mode, Print(e)) == Parsed(Normal(mode, e), [])
  {
    WholeParsed(mode, e, []);
    assert Print(e) + [] == Print(e);
  }

  /** The symbol m has the value m, and where the parser adds MODULES, that is y. */
  ghost predicate MeansM(mode: Mode, env: Env) {
    && mode.m.IsTri() && env.tri(mode.m) == MOD && env.str(mode.m) == "m"
    && (mode.transformM ==> mode.modules.IsTri() && env.tri(mode.modules) == YES)
  }

  lemma {:induction false} NormalExact(mode: Mode, e: Expression, env: Env)
    requires MeansM(mode, env)
    ensures Value(Normal(mode, e), env) == Value(e, env)
    decreases e, 0
  {
    match e
    case Atom(t) =>
      PairExact(And, Atom(Str("m")), Atom(Sym(mode.modules)), env);
    case Rel(_, _, _) =>
    case Inverse(a) =>
      NormalExact(mode, a, env);
    case List(op, es) =>
      TermsExact(mode, op, es, env);
  }

  lemma {:induction false} TermsExact(mode: Mode, op: Op, es: seq<Expression>, env: Env)
    requires MeansM(mode, env)
    ensures Fold(op, AllTerms(mode, op, es), env) == Fold(op, es, env)
    decreases es, 0
  {
    if es != [] {
      var e := es[0];
      NormalExact(mode, e, env);
      TermsExact(mode, op, es[1..], env);
      FoldAppend(op, Terms(mode, op, e), AllTerms(mode, op, es[1..]), env);
      AppendExact(op, [], Normal(mode, e), env);
      assert [] + [Normal(mode, e)] == [Normal(mode, e)];
    }
  }

  /** Printing and parsing keeps the value. */
  lemma RoundTripValue(mode: Mode, e: Expression, env: Env)
    requires Printable(e) && MeansM(mode, env)
    ensures ExprOf(mode, Print(e)).Parsed?
    ensures Value(ExprOf(mode, Print(e)).expr, env) == Value(e, env)
  {
    RoundTrip(mode, e);
    NormalExact(mode, e, env);
  }

  predicate NoMRelation(mode: Mode, e: Expression) {
    match e
    case Atom(_) => true
    case Rel(_, l, r) => l != Sym(mode.m) && r != Some(Sym(mode.m))
    case Inverse(a) => NoMRelation(mode, a)
    case List(_, es) => forall i :: 0 <= i < |es| ==> NoMRelation(mode, es[i])
  }

  /** No list directly inside a list of the same operator. */
  predicate Flat(e: Expression) {
    match e
    case Atom(_) => true
    case Rel(_, _, _) => true
    case Inverse(a) => Flat(a)
    case List(op, es) => forall i :: 0 <= i < |es| ==> Flat(es[i]) && !(es[i].List? && es[i].op == op)
  }

  /** Without the rewriting of m, exactly the flat expressions that do not compare the symbol m
      come back unchanged. */
  lemma {:induction false} NormalFixed(mode: Mode, e: Expression)
    requires Printable(e) && !mode.transformM
    ensures Normal(mode, e) == e <==> Flat(e) && NoMRelation(mode, e)
    decreases e, 0
  {
    match e
    case Atom(_) =>
    case Rel(_, _, _) =>
    case Inverse(a) =>
      NormalFixed(mode, a);
    case List(op, es) =>
      TermsFixed(mode, op, es);
  }

  predicate FlatTerms(mode: Mode, op: Op, es: seq<Expression>) {
    forall i :: 0 <= i < |es| ==> Flat(es[i]) && NoMRelation(mode, es[i]) && !(es[i].List? && es[i].op == op)
  }

  lemma {:induction false} TermsFixed(mode: Mode, op: Op, es: seq<Expression>)
    requires AllPrintable(es) && !mode.transformM
    ensures AllTerms(mode, op, es) == es <==> FlatTerms(mode, op, es)
    decreases es, 0
  {
    if es != [] {
      var e, tail := es[0], es[1..];
      NormalFixed(mode, e);
      TermsFixed(mode, op, tail);
      TermsCount(mode, op, tail);
      assert es == [e] + tail;
      assert FlatTerms(mode, op, es) <==>
             FlatTerms(mode, op, tail) && Flat(e) && NoMRelation(mode, e) && !(e.List? && e.op == op) by {
        if FlatTerms(mode, op, es) {
          forall i | 0 <= i < |tail|
            ensures Flat(tail[i]) && NoMRelation(mode, tail[i]) && !(tail[i].List? && tail[i].op == op)
          {
            assert tail[i] == es[i + 1];
          }
        }
      }
      if e.List? && e.op == op {
        TermsCount(mode, op, e.terms);
        assert |AllTerms(mode, op, es)| > |es|;
      } else {
        assert AllTerms(mode, op, es)[0] == Normal(mode, e);
        assert AllTerms(mode, op, es)[1..] == AllTerms(mode, op, tail);
        assert es[1..] == tail && es[0] == e;
      }
    }
  }

  /* ----- what the parser returns can be printed ----- */

  /** A symbol or string follows every relation operator among the first `n` tokens. */
  predicate RelationsComplete(ts: seq<Token>, n: nat) {
    forall i :: 0 <= i < n && i < |ts| && ts[i].RelToken? ==> i + 1 < |ts| && IsItem(ts[i + 1])
  }

  /** The result of parsing `ts` leaves a suffix of it, and its expression can be printed if and
      only if `ok` holds and the relations among the consumed tokens are complete. */
  ghost predicate Usable(r: ParseResult, ok: bool, ts: seq<Token>) {
    r.Parsed? ==>
      && |r.rest| <= |ts| && r.rest == ts[|ts| - |r.rest|..]
      && (Printable(r.expr) <==> ok && RelationsComplete(ts, |ts| - |r.rest|))
  }

  /** Parsing goes on with the tokens after the first `n`. */
  lemma UsableAfter(r: ParseResult, ok: bool, ts: seq<Token>, n: nat)
    requires n <= |ts| && Usable(r, ok, ts[n..])
    requires ok ==> RelationsComplete(ts, n)
    ensures Usable(r, ok, ts)
  {
    if r.Parsed? {
      var tail := ts[n..];
      assert tail[|tail| - |r.rest|..] == ts[|ts| - |r.rest|..];
      CompleteParts(ts, n, |ts| - n - |r.rest|);
    }
  }

  lemma CompleteParts(ts: seq<Token>, n: nat, k: nat)
    requires n + k <= |ts|
    ensures RelationsComplete(ts, n + k) <==> RelationsComplete(ts, n) && RelationsComplete(ts[n..], k)
  {
    var tail := ts[n..];
    if RelationsComplete(ts, n + k) {
      forall i | 0 <= i < k && tail[i].RelToken? ensures i + 1 < |tail| && IsItem(tail[i + 1]) {
        assert ts[n + i].RelToken?;
      }
    }
    if RelationsComplete(ts, n) && RelationsComplete(tail, k) {
      forall i | 0 <= i < n + k && ts[i].RelToken? ensures i + 1 < |ts| && IsItem(ts[i + 1]) {
        assert i >= n ==> tail[i - n].RelToken?;
      }
    }
  }

  /** One more token that is no relation operator. */
  lemma UsableToken(r: ParseResult, ok: bool, ts: seq<Token>)
    requires r.Parsed? && r.rest != [] && !r.rest[0].RelToken? && Usable(r, ok, ts)
    ensures Usable(Parsed(r.expr, r.rest[1..]), ok, ts)
    ensures |ts| - |r.rest| + 1 <= |ts| && r.rest[1..] == ts[|ts| - |r.rest| + 1..]
    ensures Printable(r.expr) <==> ok && RelationsComplete(ts, |ts| - |r.rest| + 1)
  {
    assert r.rest[0] == ts[|ts| - |r.rest|];
  }

  /** One more operand, and then the others. */
  lemma UsableTerm(r: ParseResult, e: Expression, acc: seq<Expression>, ts: seq<Token>, n: nat)
    requires n <= |ts| && (Printable(e) <==> RelationsComplete(ts, n))
    requires Usable(r, AllPrintable(acc + [e]), ts[n..])
    requires r.Parsed? ==> |r.rest| <= |ts| - n
    ensures Usable(r, AllPrintable(acc), ts)
  {
    hide Printable;
    AppendedPrintable(acc, e);
    UsableAfter(r, AllPrintable(acc + [e]), ts, n);
    assert r.Parsed? && RelationsComplete(ts, |ts| - |r.rest|) ==> RelationsComplete(ts, n);
  }

  lemma AppendedPrintable(acc: seq<Expression>, e: Expression)
    ensures AllPrintable(acc + [e]) <==> AllPrintable(acc) && Printable(e)
  {
    hide Printable;
    var acc' := acc + [e];
    assert acc'[|acc|] == e && forall i :: 0 <= i < |acc| ==> acc'[i] == acc[i];
  }

  lemma UsableLast(r: ParseResult, op: Op, acc: seq<Expression>, ts: seq<Token>)
    requires r.Parsed? && Usable(r, true, ts)
    ensures Usable(Parsed(Pack(op, acc + [r.expr]), r.rest), AllPrintable(acc), ts)
  {
    AppendedPrintable(acc, r.expr);
    PackPrintable(op, acc + [r.expr]);
    hide Printable, Pack, AllPrintable;
  }

  lemma {:induction false} FactorPrintable(mode: Mode, ts: seq<Token>)
    ensures Usable(FactorOf(mode, ts), true, ts)
    decreases |ts|, 0
  {
    hide Printable, Usable;
    if ts == [] || !(ts[0] == OpenParen || ts[0] == NotToken || IsItem(ts[0])) {
      FailureUsable(FactorOf(mode, ts), true, ts);
    } else if ts[0] == OpenParen {
      var r := TermsFrom(mode, Or, [], ts[1..]);
      TermsPrintable(mode, Or, [], ts[1..]);
      UsableAfter(r, true, ts, 1);
      if r.Parsed? && First(r.rest) == Some(CloseParen) {
        UsableToken(r, true, ts);
      } else {
        FailureUsable(FactorOf(mode, ts), true, ts);
      }
    } else if ts[0] == NotToken {
      var r := FactorOf(mode, ts[1..]);
      FactorPrintable(mode, ts[1..]);
      UsableAfter(r, true, ts, 1);
      InversePrintable(r, ts);
    } else {
      ItemPrintable(mode, ts);
    }
  }

  lemma FailureUsable(r: ParseResult, ok: bool, ts: seq<Token>)
    requires !r.Parsed?
    ensures Usable(r, ok, ts)
  {
  }

  lemma InversePrintable(r: ParseResult, ts: seq<Token>)
    requires Usable(r, true, ts)
    ensures r.Parsed? ==> Usable(Parsed(Inverse(r.expr), r.rest), true, ts)
    ensures !r.Parsed? ==> Usable(r, true, ts)
  {
  }

  lemma ItemPrintable(mode: Mode, ts: seq<Token>)
    requires ts != [] && IsItem(ts[0])
    ensures Usable(FactorOf(mode, ts), true, ts)
  {
    if |ts| > 1 && ts[1].RelToken? {
      assert |ts| > 2 ==> ts[2..][1..] == ts[3..];
      assert RelationsComplete(ts, 2) <==> |ts| > 2 && IsItem(ts[2]);
    } else if AtomOf(mode, ts[0]).List? {
      MergePrintable(And, Atom(Str("m")), Atom(Sym(mode.modules)));
    }
  }

  lemma {:induction false} TermsPrintable(mode: Mode, op: Op, acc: seq<Expression>, ts: seq<Token>)
    ensures Usable(TermsFrom(mode, op, acc, ts), AllPrintable(acc), ts)
    decreases |ts|, if op.And? then 2 else 4
  {
    hide Printable, RelationsComplete, FactorOf, Pack, Usable;
    if op.And? {
      FactorPrintable(mode, ts);
    } else {
      TermsPrintable(mode, And, [], ts);
    }
    var f := OperandOf(mode, op, ts);
    StepUnfold(mode, op, acc, ts);
    if !f.Parsed? {
      FailureUsable(f, AllPrintable(acc), ts);
    } else if First(f.rest) == Some(OpToken(op)) {
      UsableToken(f, true, ts);
      TermsPrintable(mode, op, acc + [f.expr], f.rest[1..]);
      UsableTerm(TermsFrom(mode, op, acc + [f.expr], f.rest[1..]), f.expr, acc, ts, |ts| - |f.rest| + 1);
    } else {
      UsableLast(f, op, acc, ts);
    }
  }

  lemma PackPrintable(op: Op, terms: seq<Expression>)
    requires terms != []
    ensures Printable(Pack(op, terms)) <==> AllPrintable(terms)
  {
  }

  /** What the parser returns can be printed, so that the round trip applies to it, if and only if
      the relations among the tokens that it consumed are complete. */
  lemma ParsedPrintable(mode: Mode, ts: seq<Token>)
    requires ExprOf(mode, ts).Parsed?
    ensures var r := ExprOf(mode, ts);
            |r.rest| <= |ts| && (Printable(r.expr) <==> RelationsComplete(ts, |ts| - |r.rest|))
  {
    TermsPrintable(mode, Or, [], ts);
  }

  /* ----- the two implementations agree ----- */

  /** The expression as the C parser builds it, lists associating to the left; strings are
      constant symbols there. */
  function ToC(e: Expression, constant: string -> Symbol): Expr
    requires Printable(e)
    decreases e
  {
    match e
    case Atom(t) => Leaf(ItemSymbol(t, constant))
    case Rel(eq, l, r) => Cmp(eq, ItemSymbol(l, constant), ItemSymbol(r.value, constant))
    case Inverse(a) => Not(ToC(a, constant))
    case List(op, es) => ListToC(op, es, constant)
  }

  function ItemSymbol(t: Token, constant: string -> Symbol): Symbol
    requires IsItem(t)
  {
    if t.Sym? then t.sym else constant(t.text)
  }

  function ListToC(op: Op, es: seq<Expression>, constant: string -> Symbol): Expr
    requires AllPrintable(es) && es != []
    decreases es
  {
    var last := |es| - 1;
    if last == 0 then ToC(es[0], constant)
    else Bin(op, ListToC(op, es[..last], constant), ToC(es[last], constant))
  }

  /** Constants are named by their text, and only n, m, y, bool and tristate symbols can be other
      than n. */
  ghost predicate Shared(env: Env, constant: string -> Symbol) {
    && (forall w: string :: constant(w).Constant? && env.str(constant(w)) == w
                            && env.tri(constant(w)) == ItemVal(Str(w), env))
    && (forall s: Symbol :: s.Entry? && !s.IsTri() ==> env.tri(s) == NO)
  }

  predicate OnlyEntries(e: Expression) {
    match e
    case Atom(t) => t.Sym? ==> t.sym.Entry?
    case Rel(_, _, _) => true
    case Inverse(a) => OnlyEntries(a)
    case List(_, es) => forall i :: 0 <= i < |es| ==> OnlyEntries(es[i])
  }

  /** `expr_calc_value` and `_eval_expr_2` give every expression the same value. */
  lemma {:induction false} SameAsC(e: Expression, env: Env, constant: string -> Symbol)
    requires Printable(e) && OnlyEntries(e) && Shared(env, constant)
    ensures Eval(ToC(e, constant), env) == Value(e, env)
    decreases e, 0
  {
    match e
    case Atom(_) =>
    case Rel(_, _, _) =>
    case Inverse(a) =>
      SameAsC(a, env, constant);
    case List(op, es) =>
      ListSameAsC(op, es, env, constant);
  }

  lemma {:induction false} ListSameAsC(op: Op, es: seq<Expression>, env: Env, constant: string -> Symbol)
    requires AllPrintable(es) && es != [] && Shared(env, constant)
    requires forall i :: 0 <= i < |es| ==> OnlyEntries(es[i])
    ensures Eval(ListToC(op, es, constant), env) == Fold(op, es, env)
    decreases es, 0
  {
    var last := |es| - 1;
    assert es == es[..last] + [es[last]];
    SameAsC(es[last], env, constant);
    AppendExact(op, es[..last], es[last], env);
    if last > 0 {
      ListSameAsC(op, es[..last], env, constant);
    }
  }
}
