/** The recursive-descent parser for expressions, and the printer expr_str(). */
module ExprSyntax {
  import opened Wrappers
  import opened Config
  import opened Values

  /** `End` closes each line of tokens; `Other` is any token that has no place in expressions. */
  datatype Token = TSym(s: SymId) | TAnd | TOr | TNot | TOpen | TClose | TRel(rel: Relation) | Other | End

  /** What transform_m needs to know; with it, m becomes m && MODULES. */
  datatype Rewrite = Keep | ToModules(mod: SymId, modules: SymId)

  function SymLeaf(s: SymId, tm: Rewrite): Expr {
    if tm.ToModules? && s == tm.mod then And(Leaf(Sym(s)), Leaf(Sym(tm.modules))) else Leaf(Sym(s))
  }

  type Parsed = Option<(Expr, seq<Token>)>

  // The grammar: what is parsed from a line of tokens, and the tokens that are left

  function ParseExpr(ts: seq<Token>, tm: Rewrite): (r: Parsed)
    ensures r.Some? ==> |r.value.1| < |ts|
    decreases |ts|, 2
  {
    var (l, rest) :- ParseAndExpr(ts, tm);
    if rest != [] && rest[0] == TOr then
      var (r, rest') :- ParseExpr(rest[1..], tm);
      Some((Or(l, r), rest'))
    else Some((l, rest))
  }

  function ParseAndExpr(ts: seq<Token>, tm: Rewrite): (r: Parsed)
    ensures r.Some? ==> |r.value.1| < |ts|
    decreases |ts|, 1
  {
    var (l, rest) :- ParseFactor(ts, tm);
    if rest != [] && rest[0] == TAnd then
      var (r, rest') :- ParseAndExpr(rest[1..], tm);
      Some((And(l, r), rest'))
    else Some((l, rest))
  }

  function ParseFactor(ts: seq<Token>, tm: Rewrite): (r: Parsed)
    ensures r.Some? ==> |r.value.1| < |ts|
    decreases |ts|, 0
  {
    if ts == [] then None
    else match ts[0]
      case TSym(s) =>
        if |ts| < 2 || !ts[1].TRel? then Some((SymLeaf(s, tm), ts[1..]))
        else if |ts| < 3 || !ts[2].TSym? then None
        else Some((Compare(ts[1].rel, s, ts[2].s), ts[3..]))
      case TNot =>
        var (e, rest) :- ParseFactor(ts[1..], tm);
        Some((Not(e), rest))
      case TOpen =>
        var (e, rest) :- ParseExpr(ts[1..], tm);
        if rest != [] && rest[0] == TClose then Some((e, rest[1..])) else None
      case _ => None
  }

  /** The parser as it runs: None is the exception for a malformed expression. */
  class Parser {
    const tokens: seq<Token>
    var i: nat

    /** The closing token keeps the parser inside of the line. */
    ghost predicate Valid()
      reads this
    {
      i < |tokens| && tokens[|tokens| - 1] == End
    }

    constructor (tokens: seq<Token>)
      requires tokens != [] && tokens[|tokens| - 1] == End
      ensures Valid() && this.tokens == tokens && i == 0
    {
      this.tokens := tokens;
      i := 0;
    }

    ghost predicate Did(from: nat, r: Option<Expr>, spec: Parsed)
      reads this
    {
      match r
      case None => spec.None?
      case Some(e) => Valid() && from < i && spec == Some((e, tokens[i..]))
    }

    method CheckToken(t: Token) returns (r: bool)
      requires Valid() && t != End
      modifies this
      ensures Valid() && r == (tokens[old(i)] == t) && i == if r then old(i) + 1 else old(i)
    {
      r := tokens[i] == t;
      if r {
        i := i + 1;
      }
    }

    method RunExpr(tm: Rewrite) returns (r: Option<Expr>)
      requires Valid()
      modifies this
      ensures Did(old(i), r, ParseExpr(tokens[old(i)..], tm))
      decreases |tokens| - i, 2
    {
      r := RunAndExpr(tm);
      if r.None? {
        return;
      }
      ghost var rest := tokens[i..];
      var more := CheckToken(TOr);
      if more {
        assert rest[1..] == tokens[i..];
        var right := RunExpr(tm);
        if right.None? {
          return None;
        }
        return Some(Or(r.value, right.value));
      }
    }

    method RunAndExpr(tm: Rewrite) returns (r: Option<Expr>)
      requires Valid()
      modifies this
      ensures Did(old(i), r, ParseAndExpr(tokens[old(i)..], tm))
      decreases |tokens| - i, 1
    {
      r := RunFactor(tm);
      if r.None? {
        return;
      }
      ghost var rest := tokens[i..];
      var more := CheckToken(TAnd);
      if more {
        assert rest[1..] == tokens[i..];
        var right := RunAndExpr(tm);
        if right.None? {
          return None;
        }
        return Some(And(r.value, right.value));
      }
    }

    method RunFactor(tm: Rewrite) returns (r: Option<Expr>)
      requires Valid()
      modifies this
      ensures Did(old(i), r, ParseFactor(tokens[old(i)..], tm))
      decreases |tokens| - i, 0
    {
      ghost var ts := tokens[i..];
      var token := tokens[i];
      i := i + 1;
      match token {
        case TSym(s) =>
          assert ts[1] == tokens[i] && ts[1..] == tokens[i..];
          if !tokens[i].TRel? {
            return Some(SymLeaf(s, tm));
          }
          var rel := tokens[i].rel;
          i := i + 1;
          assert ts[2] == tokens[i];
          if !tokens[i].TSym? {
            return None;
          }
          i := i + 1;
          assert ts[3..] == tokens[i..];
          return Some(Compare(rel, s, tokens[i - 1].s));
        case TNot =>
          assert ts[1..] == tokens[i..];
          r := RunFactor(tm);
          return if r.None? then None else Some(Not(r.value));
        case TOpen =>
          assert ts[1..] == tokens[i..];
          r := RunExpr(tm);
          if r.None? {
            return;
          }
          ghost var rest := tokens[i..];
          var closed := CheckToken(TClose);
          if closed {
            assert rest[1..] == tokens[i..];
            return;
          }
          return None;
        case _ => return None;
      }
    }
  }

  // The printer

  /** Only symbols can be written in an expression. */
  predicate Printable(e: Expr) {
    match e
    case Leaf(i) => i.Sym?
    case And(l, r) => Printable(l) && Printable(r)
    case Or(l, r) => Printable(l) && Printable(r)
    case Not(a) => Printable(a)
    case Compare(_, _, _) => true
  }

  function InParens(ts: seq<Token>): seq<Token> { [TOpen] + ts + [TClose] }

  /** expr_str() */
  function Print(e: Expr): seq<Token>
    requires Printable(e)
    decreases e, 0
  {
    match e
    case Leaf(i) => [TSym(i.s)]
    case And(l, r) => PrintAndArg(l) + [TAnd] + PrintAndArg(r)
    case Or(l, r) => PrintOrArg(l) + [TOr] + PrintOrArg(r)
    case Not(a) => [TNot] + if a.Leaf? then Print(a) else InParens(Print(a))
    case Compare(rel, a, b) => [TSym(a), TRel(rel), TSym(b)]
  }

  /** _parenthesize() for an operand of `&&` */
  function PrintAndArg(e: Expr): seq<Token>
    requires Printable(e)
    decreases e, 1
  {
    if e.Or? then InParens(Print(e)) else Print(e)
  }

  /** _parenthesize() for an operand of `||` */
  function PrintOrArg(e: Expr): seq<Token>
    requires Printable(e)
    decreases e, 1
  {
    if e.And? then InParens(Print(e)) else Print(e)
  }

  // Right-associated form

  function AndChain(l: Expr, r: Expr): Expr
    decreases l
  {
    if l.And? then And(l.left, AndChain(l.right, r)) else And(l, r)
  }

  function OrChain(l: Expr, r: Expr): Expr
    decreases l
  {
    if l.Or? then Or(l.left, OrChain(l.right, r)) else Or(l, r)
  }

  /** e with its chains of `&&` and of `||` nested to the right. */
  function RightForm(e: Expr): Expr {
    match e
    case Leaf(_) => e
    case And(l, r) => AndChain(RightForm(l), RightForm(r))
    case Or(l, r) => OrChain(RightForm(l), RightForm(r))
    case Not(a) => Not(RightForm(a))
    case Compare(_, _, _) => e
  }

  /** e with m rewritten to m && MODULES outside of comparisons. */
  function Rewritten(e: Expr, tm: Rewrite): Expr {
    match e
    case Leaf(i) => if i.Sym? then SymLeaf(i.s, tm) else e
    case And(l, r) => And(Rewritten(l, tm), Rewritten(r, tm))
    case Or(l, r) => Or(Rewritten(l, tm), Rewritten(r, tm))
    case Not(a) => Not(Rewritten(a, tm))
    case Compare(_, _, _) => e
  }

  lemma {:induction false} AndChainAssoc(a: Expr, b: Expr, c: Expr)
    ensures AndChain(AndChain(a, b), c) == AndChain(a, AndChain(b, c))
    decreases a
  {
    if a.And? { AndChainAssoc(a.right, b, c); }
  }

  lemma {:induction false} OrChainAssoc(a: Expr, b: Expr, c: Expr)
    ensures OrChain(OrChain(a, b), c) == OrChain(a, OrChain(b, c))
    decreases a
  {
    if a.Or? { OrChainAssoc(a.right, b, c); }
  }

  lemma RightFormShape(e: Expr)
    ensures RightForm(e).And? == e.And? && RightForm(e).Or? == e.Or?
  {
  }

  // Parsing what was printed

  predicate NoOperator(rest: seq<Token>) {
    rest != [] ==> !rest[0].TRel? && rest[0] != TAnd && rest[0] != TOr
  }

  predicate NoRelation(rest: seq<Token>) { rest != [] ==> !rest[0].TRel? }

  /** An operand that is parsed as a factor: parenthesised if it is `&&` or `||`. */
  function PrintFactor(e: Expr): seq<Token>
    requires Printable(e)
  {
    if e.And? || e.Or? then InParens(Print(e)) else Print(e)
  }

  lemma {:induction false} FactorParses(e: Expr, rest: seq<Token>, tm: Rewrite)
    requires Printable(e) && NoRelation(rest)
    ensures ParseFactor(PrintFactor(e) + rest, tm) == Some((Rewritten(RightForm(e), tm), rest))
    decreases e, if e.And? || e.Or? then 8 else 2
  {
    hide ParseExpr, ParseAndExpr;
    var ts := PrintFactor(e) + rest;
    match e {
      case Leaf(i) => assert ts[1..] == rest;
      case Compare(rel, a, b) => assert ts[3..] == rest;
      case Not(a) =>
        if a.Leaf? {
          assert ts[1..] == PrintFactor(a) + rest;
          FactorParses(a, rest, tm);
        } else {
          assert ts[1..] == InParens(Print(a)) + rest;
          ParensParse(a, rest, tm);
        }
      case And(_, _) => ParensParse(e, rest, tm);
      case Or(_, _) => ParensParse(e, rest, tm);
    }
  }

  lemma {:induction false} ParensParse(e: Expr, rest: seq<Token>, tm: Rewrite)
    requires Printable(e)
    ensures ParseFactor(InParens(Print(e)) + rest, tm) == Some((Rewritten(RightForm(e), tm), rest))
    decreases e, 7
  {
    var ts := InParens(Print(e)) + rest;
    PrintedExprParses(e, [TClose] + rest, tm);
    assert ts[1..] == Print(e) + ([TClose] + rest);
    assert ([TClose] + rest)[1..] == rest;
  }

  lemma AndStep(ts: seq<Token>, tm: Rewrite, l: Expr, ts': seq<Token>, r: Expr, rest: seq<Token>)
    requires ParseFactor(ts, tm) == Some((l, [TAnd] + ts')) && ParseAndExpr(ts', tm) == Some((r, rest))
    ensures ParseAndExpr(ts, tm) == Some((And(l, r), rest))
  {
    assert ([TAnd] + ts')[1..] == ts';
  }

  lemma AndEnd(ts: seq<Token>, tm: Rewrite, l: Expr, rest: seq<Token>)
    requires ParseFactor(ts, tm) == Some((l, rest)) && (rest != [] ==> rest[0] != TAnd)
    ensures ParseAndExpr(ts, tm) == Some((l, rest))
  {
  }

  lemma OrStep(ts: seq<Token>, tm: Rewrite, l: Expr, ts': seq<Token>, r: Expr, rest: seq<Token>)
    requires ParseAndExpr(ts, tm) == Some((l, [TOr] + ts')) && ParseExpr(ts', tm) == Some((r, rest))
    ensures ParseExpr(ts, tm) == Some((Or(l, r), rest))
  {
    assert ([TOr] + ts')[1..] == ts';
  }

  lemma OrEnd(ts: seq<Token>, tm: Rewrite, l: Expr, rest: seq<Token>)
    requires ParseAndExpr(ts, tm) == Some((l, rest)) && (rest != [] ==> rest[0] != TOr)
    ensures ParseExpr(ts, tm) == Some((l, rest))
  {
  }

  lemma {:induction false} AndArgParses(l: Expr, x: Expr, ts: seq<Token>, rest: seq<Token>, tm: Rewrite)
    requires Printable(l) && ParseAndExpr(ts, tm) == Some((Rewritten(x, tm), rest))
    ensures ParseAndExpr(PrintAndArg(l) + ([TAnd] + ts), tm) == Some((Rewritten(AndChain(RightForm(l), x), tm), rest))
    decreases l, 9
  {
    hide ParseExpr, ParseAndExpr, ParseFactor;
    if l.And? {
      var ts' := PrintAndArg(l.right) + ([TAnd] + ts);
      AndArgParses(l.right, x, ts, rest, tm);
      AndArgParses(l.left, AndChain(RightForm(l.right), x), ts', rest, tm);
      AndChainAssoc(RightForm(l.left), RightForm(l.right), x);
      assert PrintAndArg(l) + ([TAnd] + ts) == PrintAndArg(l.left) + ([TAnd] + ts');
    } else {
      assert PrintAndArg(l) == PrintFactor(l);
      FactorParses(l, [TAnd] + ts, tm);
      AndStep(PrintAndArg(l) + ([TAnd] + ts), tm, Rewritten(RightForm(l), tm), ts, Rewritten(x, tm), rest);
      RightFormShape(l);
    }
  }

  lemma {:induction false} AndExprParses(e: Expr, rest: seq<Token>, tm: Rewrite)
    requires Printable(e) && !e.Or? && NoRelation(rest) && (rest != [] ==> rest[0] != TAnd)
    ensures ParseAndExpr(Print(e) + rest, tm) == Some((Rewritten(RightForm(e), tm), rest))
    decreases e, 4
  {
    hide ParseExpr, ParseAndExpr, ParseFactor;
    if e.And? {
      AndTailParses(e.right, rest, tm);
      AndArgParses(e.left, RightForm(e.right), PrintAndArg(e.right) + rest, rest, tm);
      assert Print(e) + rest == PrintAndArg(e.left) + ([TAnd] + (PrintAndArg(e.right) + rest));
    } else {
      FactorParses(e, rest, tm);
      AndEnd(Print(e) + rest, tm, Rewritten(RightForm(e), tm), rest);
    }
  }

  lemma {:induction false} AndTailParses(e: Expr, rest: seq<Token>, tm: Rewrite)
    requires Printable(e) && NoRelation(rest) && (rest != [] ==> rest[0] != TAnd)
    ensures ParseAndExpr(PrintAndArg(e) + rest, tm) == Some((Rewritten(RightForm(e), tm), rest))
    decreases e, 9
  {
    hide ParseExpr, ParseAndExpr, ParseFactor;
    if e.Or? {
      FactorParses(e, rest, tm);
      AndEnd(PrintAndArg(e) + rest, tm, Rewritten(RightForm(e), tm), rest);
    } else {
      AndExprParses(e, rest, tm);
    }
  }

  lemma {:induction false} OrArgParses(l: Expr, x: Expr, ts: seq<Token>, rest: seq<Token>, tm: Rewrite)
    requires Printable(l) && ParseExpr(ts, tm) == Some((Rewritten(x, tm), rest))
    ensures ParseExpr(PrintOrArg(l) + ([TOr] + ts), tm) == Some((Rewritten(OrChain(RightForm(l), x), tm), rest))
    decreases l, 9
  {
    hide ParseExpr, ParseAndExpr, ParseFactor;
    if l.Or? {
      var ts' := PrintOrArg(l.right) + ([TOr] + ts);
      OrArgParses(l.right, x, ts, rest, tm);
      OrArgParses(l.left, OrChain(RightForm(l.right), x), ts', rest, tm);
      OrChainAssoc(RightForm(l.left), RightForm(l.right), x);
      assert PrintOrArg(l) + ([TOr] + ts) == PrintOrArg(l.left) + ([TOr] + ts');
    } else {
      assert PrintOrArg(l) == PrintFactor(l);
      FactorParses(l, [TOr] + ts, tm);
      AndEnd(PrintOrArg(l) + ([TOr] + ts), tm, Rewritten(RightForm(l), tm), [TOr] + ts);
      OrStep(PrintOrArg(l) + ([TOr] + ts), tm, Rewritten(RightForm(l), tm), ts, Rewritten(x, tm), rest);
      RightFormShape(l);
    }
  }

  lemma {:induction false} OrTailParses(e: Expr, rest: seq<Token>, tm: Rewrite)
    requires Printable(e) && NoOperator(rest)
    ensures ParseExpr(PrintOrArg(e) + rest, tm) == Some((Rewritten(RightForm(e), tm), rest))
    decreases e, 9
  {
    hide ParseExpr, ParseAndExpr, ParseFactor;
    if e.Or? {
      PrintedExprParses(e, rest, tm);
    } else {
      assert PrintOrArg(e) == PrintFactor(e);
      FactorParses(e, rest, tm);
      AndEnd(PrintOrArg(e) + rest, tm, Rewritten(RightForm(e), tm), rest);
      OrEnd(PrintOrArg(e) + rest, tm, Rewritten(RightForm(e), tm), rest);
    }
  }

  /** Parsing a printed expression gives the expression nested to the right, and consumes all of it. */
  lemma {:induction false} PrintedExprParses(e: Expr, rest: seq<Token>, tm: Rewrite)
    requires Printable(e) && NoOperator(rest)
    ensures ParseExpr(Print(e) + rest, tm) == Some((Rewritten(RightForm(e), tm), rest))
    decreases e, 6
  {
    hide ParseExpr, ParseAndExpr, ParseFactor;
    if e.Or? {
      OrTailParses(e.right, rest, tm);
      OrArgParses(e.left, RightForm(e.right), PrintOrArg(e.right) + rest, rest, tm);
      assert Print(e) + rest == PrintOrArg(e.left) + ([TOr] + (PrintOrArg(e.right) + rest));
    } else {
      AndExprParses(e, rest, tm);
      OrEnd(Print(e) + rest, tm, Rewritten(RightForm(e), tm), rest);
    }
  }

  // What nesting to the right keeps

  lemma AndAssocValue(K: Config, U: Users, m: Cache, a: Expr, b: Expr, c: Expr)
    requires ExprOk(K, a) && ExprOk(K, b) && ExprOk(K, c)
    ensures Eval(K, U, m, And(And(a, b), c)) == Eval(K, U, m, And(a, And(b, c)))
  {
  }

  lemma OrAssocValue(K: Config, U: Users, m: Cache, a: Expr, b: Expr, c: Expr)
    requires ExprOk(K, a) && ExprOk(K, b) && ExprOk(K, c)
    ensures Eval(K, U, m, Or(Or(a, b), c)) == Eval(K, U, m, Or(a, Or(b, c)))
  {
  }

  lemma {:induction false} AndChainValue(K: Config, U: Users, m: Cache, l: Expr, r: Expr)
    requires ExprOk(K, l) && ExprOk(K, r)
    ensures ExprOk(K, AndChain(l, r)) && Eval(K, U, m, AndChain(l, r)) == Eval(K, U, m, And(l, r))
    decreases l
  {
    if l.And? {
      AndChainValue(K, U, m, l.right, r);
      AndAssocValue(K, U, m, l.left, l.right, r);
    }
  }

  lemma {:induction false} OrChainValue(K: Config, U: Users, m: Cache, l: Expr, r: Expr)
    requires ExprOk(K, l) && ExprOk(K, r)
    ensures ExprOk(K, OrChain(l, r)) && Eval(K, U, m, OrChain(l, r)) == Eval(K, U, m, Or(l, r))
    decreases l
  {
    if l.Or? {
      OrChainValue(K, U, m, l.right, r);
      OrAssocValue(K, U, m, l.left, l.right, r);
    }
  }

  /** The value is the same, and short-circuit evaluation looks at the same values to find it. */
  lemma {:induction false} RightFormValue(K: Config, U: Users, m: Cache, e: Expr)
    requires ExprOk(K, e)
    ensures ExprOk(K, RightForm(e)) && Eval(K, U, m, RightForm(e)) == Eval(K, U, m, e)
  {
    match e
    case Leaf(_) =>
    case And(l, r) =>
      RightFormValue(K, U, m, l);
      RightFormValue(K, U, m, r);
      AndChainValue(K, U, m, RightForm(l), RightForm(r));
    case Or(l, r) =>
      RightFormValue(K, U, m, l);
      RightFormValue(K, U, m, r);
      OrChainValue(K, U, m, RightForm(l), RightForm(r));
    case Not(a) => RightFormValue(K, U, m, a);
    case Compare(_, _, _) =>
  }

  /** split_expr() for `&&` */
  function AndOperands(e: Expr): seq<Expr> {
    if e.And? then AndOperands(e.left) + AndOperands(e.right) else [e]
  }

  /** split_expr() for `||` */
  function OrOperands(e: Expr): seq<Expr> {
    if e.Or? then OrOperands(e.left) + OrOperands(e.right) else [e]
  }

  function RightForms(es: seq<Expr>): (r: seq<Expr>)
    ensures |r| == |es| && forall i :: 0 <= i < |es| ==> r[i] == RightForm(es[i])
  {
    seq(|es|, i requires 0 <= i < |es| => RightForm(es[i]))
  }

  lemma {:induction false} AndChainOperands(l: Expr, r: Expr)
    ensures AndOperands(AndChain(l, r)) == AndOperands(l) + AndOperands(r)
    decreases l
  {
    if l.And? { AndChainOperands(l.right, r); }
  }

  lemma {:induction false} OrChainOperands(l: Expr, r: Expr)
    ensures OrOperands(OrChain(l, r)) == OrOperands(l) + OrOperands(r)
    decreases l
  {
    if l.Or? { OrChainOperands(l.right, r); }
  }

  /** The operands at the top level are the same ones in the same order. */
  lemma {:induction false} RightFormOperands(e: Expr)
    ensures AndOperands(RightForm(e)) == RightForms(AndOperands(e))
    ensures OrOperands(RightForm(e)) == RightForms(OrOperands(e))
  {
    RightFormShape(e);
    if e.And? {
      RightFormOperands(e.left);
      RightFormOperands(e.right);
      AndChainOperands(RightForm(e.left), RightForm(e.right));
    } else if e.Or? {
      RightFormOperands(e.left);
      RightFormOperands(e.right);
      OrChainOperands(RightForm(e.left), RightForm(e.right));
    }
  }

  lemma {:induction false} AndChainPrints(l: Expr, r: Expr)
    requires Printable(l) && Printable(r)
    ensures Printable(AndChain(l, r)) && Print(AndChain(l, r)) == PrintAndArg(l) + [TAnd] + PrintAndArg(r)
    decreases l
  {
    if l.And? { AndChainPrints(l.right, r); }
  }

  lemma {:induction false} OrChainPrints(l: Expr, r: Expr)
    requires Printable(l) && Printable(r)
    ensures Printable(OrChain(l, r)) && Print(OrChain(l, r)) == PrintOrArg(l) + [TOr] + PrintOrArg(r)
    decreases l
  {
    if l.Or? { OrChainPrints(l.right, r); }
  }

  /** The expression that is parsed is printed like the original one. */
  lemma {:induction false} RightFormPrints(e: Expr)
    requires Printable(e)
    ensures Printable(RightForm(e)) && Print(RightForm(e)) == Print(e)
  {
    RightFormShape(e);
    match e
    case Leaf(_) =>
    case And(l, r) =>
      RightFormPrints(l);
      RightFormPrints(r);
      RightFormShape(l);
      RightFormShape(r);
      AndChainPrints(RightForm(l), RightForm(r));
    case Or(l, r) =>
      RightFormPrints(l);
      RightFormPrints(r);
      RightFormShape(l);
      RightFormShape(r);
      OrChainPrints(RightForm(l), RightForm(r));
    case Not(a) => RightFormPrints(a);
    case Compare(_, _, _) =>
  }

  lemma {:induction false} NotRewritten(e: Expr)
    ensures Rewritten(e, Keep) == e
  {
    match e
    case Leaf(_) =>
    case And(l, r) => NotRewritten(l); NotRewritten(r);
    case Or(l, r) => NotRewritten(l); NotRewritten(r);
    case Not(a) => NotRewritten(a);
    case Compare(_, _, _) =>
  }

  /**
   * Printing and parsing again: all tokens are used up, and the result has the same value
   * in every state, the same operands, and the same printed form.
   */
  lemma PrintParseRoundTrip(K: Config, U: Users, m: Cache, e: Expr)
    requires ExprOk(K, e) && Printable(e)
    ensures ParseExpr(Print(e) + [End], Keep) == Some((RightForm(e), [End]))
    ensures ExprOk(K, RightForm(e)) && Eval(K, U, m, RightForm(e)) == Eval(K, U, m, e)
    ensures AndOperands(RightForm(e)) == RightForms(AndOperands(e))
    ensures OrOperands(RightForm(e)) == RightForms(OrOperands(e))
    ensures Printable(RightForm(e)) && Print(RightForm(e)) == Print(e)
  {
    PrintedExprParses(e, [End], Keep);
    NotRewritten(RightForm(e));
    RightFormValue(K, U, m, e);
    RightFormOperands(e);
    RightFormPrints(e);
  }

  /** Different right-associated expressions are printed differently. */
  lemma PrintedOnce(a: Expr, b: Expr)
    requires Printable(a) && Printable(b) && Print(a) == Print(b)
    ensures RightForm(a) == RightForm(b)
  {
    PrintedExprParses(a, [], Keep);
    PrintedExprParses(b, [], Keep);
    NotRewritten(RightForm(a));
    NotRewritten(RightForm(b));
  }

  /** What the parser leaves behind after a printed expression. */
  method ReadPrinted(e: Expr, tm: Rewrite) returns (r: Option<Expr>, atEnd: bool)
    requires Printable(e)
    ensures r == Some(Rewritten(RightForm(e), tm)) && atEnd
  {
    var parser := new Parser(Print(e) + [End]);
    assert parser.tokens[0..] == Print(e) + [End];
    PrintedExprParses(e, [End], tm);
    r := parser.RunExpr(tm);
    assert parser.tokens[parser.i..][0] == End;
    atEnd := parser.tokens[parser.i] == End;
  }
}
